/** The bottleneck scores in numbers: what each is, to within half a hundredth. */
module ScoreFigures {
  import opened Ordering
  import opened Counting
  import opened Rounding
  import opened Statistics
  import opened Bottleneck

  ghost predicate Near(x: real, y: real) { -0.005 <= x - y <= 0.005 }

  ghost function AtMostHundred(x: real): real { if x <= 100.0 then x else 100.0 }

  lemma RoundIsNear(x: real)
    ensures Near(Round(x, 100), x)
  {
    RoundError(x, 100);
  }

  lemma CappedIsNear(x: real)
    ensures Near(Capped(x), AtMostHundred(x))
  {
    RoundIsNear(x);
    RoundOfTicks(10000, 100);
    if x > 100.0 { RoundIsMonotone(100.0, x, 100); }
  }

  /** The figures behind the scores: the mean, the deviation relative to it, the ninetieth percentile relative to the
      median, and the number of observations over the target. */
  ghost predicate Describe(f: Figures, n: nat, sum: real, std: real, median: real, p90: real, over: nat) {
    && f.count == n && Times(f.mean, n as real) == sum && f.breaches == over
    && (if f.mean > 0.0001 then Times(f.variation, f.mean) == std else f.variation == 0.0)
    && (if median > 0.0001 then Times(f.tailRatio, median) == p90 else f.tailRatio == if p90 <= 1.0 then 1.0 else p90)
  }

  lemma QuotientsDescribe(f: Figures, n: nat, sum: real, std: real, median: real, p90: real)
    requires n > 0 && f.count == n && f.mean == Over(sum, n as real)
    requires f.variation == if f.mean > 0.0001 then Over(std, f.mean) else 0.0
    requires f.tailRatio == if median > 0.0001 then Over(p90, median) else if p90 > 1.0 then p90 else 1.0
    ensures Describe(f, n, sum, std, median, p90, f.breaches)
  {
    TimesOver(sum, n as real);
    if f.mean > 0.0001 { TimesOver(std, f.mean); }
    if median > 0.0001 { TimesOver(p90, median); }
  }

  lemma FiguresAre(values: seq<real>, std: real, target: real)
    requires values != []
    ensures Describe(FiguresOf(values, std, target), |values|, Sum(values), std, Median(values), P90(values),
                     |set k: nat | k < |values| && values[k] > target|)
  {
    QuotientsDescribe(FiguresOf(values, std, target), |values|, Sum(values), std, Median(values), P90(values));
    BreachesAre(values, target);
  }

  lemma BreachesAre(values: seq<real>, target: real)
    ensures Breaches(values, target) == |set k: nat | k < |values| && values[k] > target|
  {
    var over := (x: real) => x > target;
    BreachesAreCounted(values, target);
    CountIsSize(values, over);
    assert Where(values, over) == set k: nat | k < |values| && values[k] > target;
  }

  lemma {:induction false} BreachesAreCounted(values: seq<real>, target: real)
    ensures Breaches(values, target) == Count(values, (x: real) => x > target)
  {
    if values != [] { BreachesAreCounted(values[1..], target); }
  }

  lemma PercentIs(x: real, y: real)
    requires y != 0.0
    ensures Percent(Over(x, y)) == 100.0 * x / y
  {
  }

  /** Each score is its figure in per cent of a fixed benchmark, capped at a hundred: 10 hours for a delay and 48 for a
      stage, 72 calls, a variation of 1.5, a tail ratio of 2.5 above one, the mean turnaround, the observations. */
  lemma ScoresAreNear(f: Figures, meanTurnaround: real, isDelay: bool)
    requires Sound(f)
    ensures var s := ScoresFrom(f, meanTurnaround, isDelay);
            && Near(s.duration, AtMostHundred(if isDelay then 100.0 * f.mean / 10.0 else 100.0 * f.mean / 48.0))
            && Near(s.frequency, AtMostHundred(100.0 * f.count as real / 72.0))
            && Near(s.variability, AtMostHundred(100.0 * f.variation / 1.5))
            && Near(s.tail, AtMostHundred(100.0 * (f.tailRatio - 1.0) / 2.5))
            && Near(s.contribution,
                    AtMostHundred(if meanTurnaround > 0.0 then 100.0 * f.mean / meanTurnaround else 0.0))
            && Near(s.breach, 100.0 * f.breaches as real / f.count as real)
  {
    PercentIs(f.mean, if isDelay then 10.0 else 48.0);
    CappedIsNear(Percent(Over(f.mean, if isDelay then 10.0 else 48.0)));
    PercentIs(f.count as real, 72.0);
    CappedIsNear(Percent(Over(f.count as real, 72.0)));
    PercentIs(f.variation, 1.5);
    CappedIsNear(Percent(Over(f.variation, 1.5)));
    PercentIs(f.tailRatio - 1.0, 2.5);
    CappedIsNear(Percent(Over(f.tailRatio - 1.0, 2.5)));
    ContributionIsNear(f.mean, meanTurnaround);
    PercentIs(f.breaches as real, f.count as real);
    RoundIsNear(Percent(Over(f.breaches as real, f.count as real)));
  }

  lemma ContributionIsNear(mean: real, meanTurnaround: real)
    ensures Near(ContributionScore(mean, meanTurnaround),
                 AtMostHundred(if meanTurnaround > 0.0 then 100.0 * mean / meanTurnaround else 0.0))
  {
    if meanTurnaround > 0.0 { PercentIs(mean, meanTurnaround); }
    CappedIsNear(Percent(if meanTurnaround > 0.0 then Over(mean, meanTurnaround) else 0.0));
  }

  lemma PartIs(x: real, w: real, t: real)
    requires t != 0.0
    ensures Times(x, Over(w, t)) == Over(Times(w, x), t)
  {
  }

  lemma OverAdds(x: real, y: real, t: real)
    requires t != 0.0
    ensures Over(x, t) + Over(y, t) == Over(x + y, t)
  {
  }

  /** The overall score is the mean of the six components by their weights; further weights only dilute it. */
  lemma OverallIsNear(w: Weights, s: Scores)
    requires Total(w) != 0.0
    ensures var total := w.duration + w.frequency + w.variability + w.tail + w.contribution + w.breach + w.other;
            && total != 0.0
            && Near(Overall(w, s), Over(Times(w.duration, s.duration) + Times(w.frequency, s.frequency)
                                        + Times(w.variability, s.variability) + Times(w.tail, s.tail)
                                        + Times(w.contribution, s.contribution) + Times(w.breach, s.breach), total))
  {
    var t := Total(w);
    var a, b, c := Times(w.duration, s.duration), Times(w.frequency, s.frequency), Times(w.variability, s.variability);
    var d, e, f := Times(w.tail, s.tail), Times(w.contribution, s.contribution), Times(w.breach, s.breach);
    PartIs(s.duration, w.duration, t);
    PartIs(s.frequency, w.frequency, t);
    PartIs(s.variability, w.variability, t);
    PartIs(s.tail, w.tail, t);
    PartIs(s.contribution, w.contribution, t);
    PartIs(s.breach, w.breach, t);
    OverAdds(a, b, t);
    OverAdds(a + b, c, t);
    OverAdds(a + b + c, d, t);
    OverAdds(a + b + c + d, e, t);
    OverAdds(a + b + c + d + e, f, t);
    RoundIsNear(Weighted(w, s));
  }
}
