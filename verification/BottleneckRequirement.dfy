/** The requirement that a long but stable stage is not called the bottleneck: where it holds, and where it does not. */
module BottleneckRequirement {
  import opened Ordering
  import opened Rounding
  import opened Statistics
  import opened Bottleneck

  /** All observations alike, above the noise and within target. */
  ghost predicate Steady(values: seq<real>, c: real, target: real) {
    values != [] && AllEqual(values, c) && 0.0001 < c <= target
  }

  lemma NoDeviation(std: real)
    requires std >= 0.0 && Times(std, std) == 0.0
    ensures std == 0.0
  {
    if std > 0.0 { PositiveSquare(std); }
  }

  lemma NothingScoresNothing()
    ensures VariabilityScore(0.0) == 0.0 && TailScore(1.0) == 0.0
  {
    RoundOfTicks(0, 100);
    assert Percent(Over(0.0, 1.5)) == 0.0 && Percent(Over(0.0, 2.5)) == 0.0;
  }

  lemma NoBreachScoresNothing(n: nat)
    requires n > 0
    ensures BreachScore(0, n) == 0.0
  {
    RoundOfTicks(0, 100);
    assert Percent(Over(0.0, n as real)) == 0.0;
  }

  lemma SteadyFigures(values: seq<real>, c: real, std: real, target: real)
    requires Steady(values, c, target) && IsDeviation(std, values)
    ensures FiguresOf(values, std, target) == Figures(|values|, c, 0.0, 1.0, 0)
  {
    EqualValuesHaveOneMiddle(values, c);
    EqualValuesHaveNoSpread(values, c);
    NoDeviation(std);
    OverItself(c);
    NothingOver(c);
  }

  /** A steady stage scores nothing for variability, tail risk or breaches. */
  lemma SteadyScores(n: nat, c: real, turnaround: real, isDelay: bool)
    requires n > 0
    ensures var s := ScoresFrom(Figures(n, c, 0.0, 1.0, 0), turnaround, isDelay);
            s.variability == 0.0 && s.tail == 0.0 && s.breach == 0.0
  {
    NothingScoresNothing();
    NoBreachScoresNothing(n);
  }

  lemma FrequencyGrows(m: nat, n: nat)
    requires m <= n
    ensures FrequencyScore(m) <= FrequencyScore(n)
  {
    OverIsMonotone(m as real, n as real, 72.0);
    TimesIsMonotone(Over(m as real, 72.0), Over(n as real, 72.0), 100.0);
    CappedIsMonotone(Percent(Over(m as real, 72.0)), Percent(Over(n as real, 72.0)));
  }

  lemma FrequencyNear(n: nat)
    ensures FrequencyScore(n) <= 100.0
    ensures FrequencyScore(n) <= n as real * 100.0 / 72.0 + 0.005
    ensures n <= 72 ==> FrequencyScore(n) >= n as real * 100.0 / 72.0 - 0.005
  {
    var x := Percent(Over(n as real, 72.0));
    assert x == n as real * 100.0 / 72.0;
    RoundError(x, 100);
  }

  lemma DefaultWeighted(s: Scores)
    ensures Total(DEFAULT) == 1.0
    ensures Weighted(DEFAULT, s) == 0.15 * s.duration + 0.20 * s.frequency + 0.20 * s.variability + 0.20 * s.tail
                                    + 0.10 * s.contribution + 0.15 * s.breach
  {
    var t := Total(DEFAULT);
    assert t == 1.0;
    assert Over(0.15, t) == 0.15 && Over(0.20, t) == 0.20 && Over(0.10, t) == 0.10;
    assert Times(s.duration, 0.15) == 0.15 * s.duration && Times(s.frequency, 0.20) == 0.20 * s.frequency;
    assert Times(s.variability, 0.20) == 0.20 * s.variability && Times(s.tail, 0.20) == 0.20 * s.tail;
    assert Times(s.contribution, 0.10) == 0.10 * s.contribution && Times(s.breach, 0.15) == 0.15 * s.breach;
  }

  predicate Erratic(s: Scores) { s.variability >= 50.0 && s.tail >= 50.0 && s.breach >= 40.0 }

  /** The score under the default weights. */
  function DefaultScore(s: Scores): real {
    DefaultWeighted(s);
    Overall(DEFAULT, s)
  }

  lemma MarksOrderScores(s: Scores, t: Scores)
    requires s.duration <= t.duration && s.frequency <= t.frequency && s.variability <= t.variability
    requires s.tail <= t.tail && s.contribution <= t.contribution && s.breach <= t.breach
    ensures DefaultScore(s) <= DefaultScore(t)
  {
    DefaultWeighted(s);
    DefaultWeighted(t);
    RoundIsMonotone(Weighted(DEFAULT, s), Weighted(DEFAULT, t), 100);
  }

  // ---- Which counts decide ----

  /** A share that `n` observations can have above the target. */
  predicate IsShare(breach: real, n: nat) { n > 0 && exists k :: 0 <= k <= n && breach == BreachScore(k, n) }

  /** The marks of a steady stage with `m` observations. */
  predicate SteadyMarks(s: Scores, m: nat) {
    AllInRange(s) && s.frequency == FrequencyScore(m) && s.variability == 0.0 && s.tail == 0.0 && s.breach == 0.0
  }

  /** The marks of an erratic stage with `n` observations, its variability and tail arbitrary from the threshold on. */
  predicate ErraticMarks(t: Scores, n: nat) {
    n >= 3 && AllInRange(t) && t.frequency == FrequencyScore(n) && IsShare(t.breach, n) && Erratic(t)
  }

  /** The best marks of a steady stage, and the worst of an erratic one with `k` observations above the target. */
  function BestSteady(m: nat): Scores { Scores(100.0, FrequencyScore(m), 0.0, 0.0, 100.0, 0.0) }

  function WorstErratic(n: nat, k: nat): Scores
    requires n > 0
  {
    Scores(0.0, FrequencyScore(n), 50.0, 50.0, 0.0, BreachScore(k, n))
  }

  /** The best that `m` observations can score when they are steady is below the worst that `n` can when erratic. */
  predicate CountsSuffice(m: nat, n: nat) {
    n < 3 || forall k :: 0 <= k <= n && BreachScore(k, n) >= 40.0 ==>
                           DefaultScore(BestSteady(m)) < DefaultScore(WorstErratic(n, k))
  }

  predicate RankedAsRequired(m: nat, n: nat, s: Scores, t: Scores) {
    SteadyMarks(s, m) && ErraticMarks(t, n) ==> DefaultScore(s) < DefaultScore(t)
  }

  lemma ScoresDecide(s: Scores, t: Scores, m: nat, n: nat)
    requires CountsSuffice(m, n)
    ensures RankedAsRequired(m, n, s, t)
  {
    if SteadyMarks(s, m) && ErraticMarks(t, n) {
      var k :| 0 <= k <= n && t.breach == BreachScore(k, n);
      MarksOrderScores(s, BestSteady(m));
      MarksOrderScores(WorstErratic(n, k), t);
    }
  }

  lemma FrequencyInRange(n: nat)
    ensures InRange(FrequencyScore(n))
  {
    ShareIsPositive(n as real, 72.0);
    CappedInRange(Percent(Over(n as real, 72.0)));
  }

  lemma OtherCountsMisrank(m: nat, n: nat) returns (s: Scores, t: Scores)
    requires !CountsSuffice(m, n)
    ensures !RankedAsRequired(m, n, s, t)
  {
    var k :| 0 <= k <= n && BreachScore(k, n) >= 40.0
             && !(DefaultScore(BestSteady(m)) < DefaultScore(WorstErratic(n, k)));
    s, t := BestSteady(m), WorstErratic(n, k);
    FrequencyInRange(m);
    FrequencyInRange(n);
    BreachInRange(n, k);
  }

  /** Judged by their marks, with the variability and tail of the erratic stage anywhere from the threshold on, every
      erratic stage with `n` observations outscores every steady one with `m` if and only if the counts suffice. */
  lemma CountsDecide(m: nat, n: nat)
    ensures (forall s, t :: RankedAsRequired(m, n, s, t)) <==> CountsSuffice(m, n)
  {
    if CountsSuffice(m, n) {
      forall s, t ensures RankedAsRequired(m, n, s, t) { ScoresDecide(s, t, m, n); }
    } else {
      var s, t := OtherCountsMisrank(m, n);
    }
  }

  lemma CloseFrequencies(m: nat, n: nat)
    requires m <= n + 3 || n >= 69
    ensures FrequencyScore(m) <= FrequencyScore(n) + 4.18
  {
    FrequencyNear(m);
    FrequencyNear(n);
    if n >= 69 {
      FrequencyGrows(69, n);
      FrequencyNear(69);
    }
  }

  /** Three observations fewer, or any number fewer than the vessel calls counted, are always made up for. */
  lemma CloseCountsSuffice(m: nat, n: nat)
    requires m <= n + 3 || n >= 69
    ensures CountsSuffice(m, n)
  {
    CloseFrequencies(m, n);
    forall k | 0 <= k <= n && n >= 3 && BreachScore(k, n) >= 40.0
      ensures DefaultScore(BestSteady(m)) < DefaultScore(WorstErratic(n, k))
    {
      DefaultWeighted(BestSteady(m));
      DefaultWeighted(WorstErratic(n, k));
      RoundError(Weighted(DEFAULT, BestSteady(m)), 100);
      RoundError(Weighted(DEFAULT, WorstErratic(n, k)), 100);
    }
  }

  // ---- Stages ----

  lemma TailOfTwo(values: seq<real>)
    requires |values| == 2 && NonNegative(values)
    ensures TailRatio(values) <= 2.0
  {
    var s := Sort(values, AtMost);
    SortedValues(values);
    assert s[0] in values && s[1] in values && AtMost(s[0], s[1]);
    if Median(values) > 0.0001 {
      OverIsMonotone(s[1], 2.0 * Median(values), Median(values));
      TwiceOverItself(Median(values));
    }
  }

  lemma TwiceOverItself(x: real)
    requires x != 0.0
    ensures Over(2.0 * x, x) == 2.0
  {
  }

  lemma NothingOver(x: real)
    requires x != 0.0
    ensures Over(0.0, x) == 0.0
  {
  }

  lemma OneHasNoSpread(values: seq<real>, std: real)
    requires |values| == 1 && IsDeviation(std, values)
    ensures Variation(values, std) == 0.0
  {
    NoDeviation(std);
    if Mean(values) > 0.0001 { NothingOver(Mean(values)); }
  }

  lemma SmallRatioScores(ratio: real)
    requires 1.0 <= ratio <= 2.0
    ensures TailScore(ratio) <= 40.0
  {
    OverIsMonotone(ratio - 1.0, 1.0, 2.5);
    TimesIsMonotone(Over(ratio - 1.0, 2.5), 0.4, 100.0);
    CappedIsMonotone(Percent(Over(ratio - 1.0, 2.5)), 40.0);
    RoundOfTicks(4000, 100);
  }

  lemma TooFewAreCalm(values: seq<real>, std: real)
    requires 0 < |values| < 3 && NonNegative(values) && IsDeviation(std, values)
    ensures VariabilityScore(Variation(values, std)) < 50.0 || TailScore(TailRatio(values)) < 50.0
  {
    if |values| == 1 {
      OneHasNoSpread(values, std);
      NothingScoresNothing();
    } else {
      TailOfTwo(values);
      TailRatioAtLeastOne(values);
      SmallRatioScores(TailRatio(values));
    }
  }

  /** A stage with one or two observations is never erratic: one has no spread, two have a tail ratio of at most two. */
  lemma ErraticNeedsThree(values: seq<real>, std: real, target: real, turnaround: real, isDelay: bool)
    requires values != [] && NonNegative(values) && IsDeviation(std, values)
    requires Erratic(ScoresOf(values, std, target, turnaround, isDelay))
    ensures |values| >= 3
  {
    if |values| < 3 { TooFewAreCalm(values, std); }
  }

  lemma SteadyFiguresMark(n: nat, c: real, turnaround: real, isDelay: bool)
    requires n > 0 && c >= 0.0
    ensures SteadyMarks(ScoresFrom(Figures(n, c, 0.0, 1.0, 0), turnaround, isDelay), n)
  {
    SteadyScores(n, c, turnaround, isDelay);
    SoundFiguresScoreInRange(Figures(n, c, 0.0, 1.0, 0), turnaround, isDelay);
  }

  lemma ErraticFiguresMark(g: Figures, turnaround: real, isDelay: bool)
    requires Sound(g) && g.count >= 3 && Erratic(ScoresFrom(g, turnaround, isDelay))
    ensures ErraticMarks(ScoresFrom(g, turnaround, isDelay), g.count)
  {
    SoundFiguresScoreInRange(g, turnaround, isDelay);
    var k := g.breaches;
    assert 0 <= k <= g.count && ScoresFrom(g, turnaround, isDelay).breach == BreachScore(k, g.count);
  }

  /** With the default weights and counts that suffice, an erratic stage outscores a steady one, however much longer
      the steady one is. */
  lemma ErraticOutscoresSteady(a: seq<real>, c: real, stdA: real, targetA: real, b: seq<real>, stdB: real,
                               targetB: real, turnaround: real, delayA: bool, delayB: bool)
    requires Steady(a, c, targetA) && IsDeviation(stdA, a)
    requires b != [] && NonNegative(b) && IsDeviation(stdB, b) && CountsSuffice(|a|, |b|)
    requires Erratic(ScoresOf(b, stdB, targetB, turnaround, delayB))
    ensures DefaultScore(ScoresOf(a, stdA, targetA, turnaround, delayA))
            < DefaultScore(ScoresOf(b, stdB, targetB, turnaround, delayB))
  {
    SteadyFigures(a, c, stdA, targetA);
    FiguresAreSound(a, stdA, targetA);
    FiguresAreSound(b, stdB, targetB);
    ErraticNeedsThree(b, stdB, targetB, turnaround, delayB);
    SteadyFiguresMark(|a|, c, turnaround, delayA);
    ErraticFiguresMark(FiguresOf(b, stdB, targetB), turnaround, delayB);
    ScoresDecide(ScoresOf(a, stdA, targetA, turnaround, delayA), ScoresOf(b, stdB, targetB, turnaround, delayB),
                 |a|, |b|);
  }

  /** And so, wherever the two stand in the ranked list, the steady one stands below. */
  lemma SteadyRanksBelowErratic(ranked: seq<Candidate>, i: nat, j: nat, a: seq<real>, c: real, stdA: real,
                                targetA: real, b: seq<real>, stdB: real, targetB: real, turnaround: real,
                                delayA: bool, delayB: bool)
    requires Total(DEFAULT) != 0.0 && Ranking(DEFAULT, ranked) && i < |ranked| && j < |ranked|
    requires Steady(a, c, targetA) && IsDeviation(stdA, a)
    requires ranked[i].scores == ScoresOf(a, stdA, targetA, turnaround, delayA)
    requires b != [] && NonNegative(b) && IsDeviation(stdB, b) && CountsSuffice(|a|, |b|)
    requires ranked[j].scores == ScoresOf(b, stdB, targetB, turnaround, delayB) && Erratic(ranked[j].scores)
    ensures ranked[i].rank > ranked[j].rank
  {
    ErraticOutscoresSteady(a, c, stdA, targetA, b, stdB, targetB, turnaround, delayA, delayB);
    LowerScoreRanksBelow(ranked, i, j);
  }

  lemma LowerScoreRanksBelow(ranked: seq<Candidate>, i: nat, j: nat)
    requires Total(DEFAULT) != 0.0 && Ranking(DEFAULT, ranked) && i < |ranked| && j < |ranked|
    requires DefaultScore(ranked[i].scores) < DefaultScore(ranked[j].scores)
    ensures ranked[i].rank > ranked[j].rank
  {
  }

  // ---- Where it fails: fewer observations ----

  const LONG_STEADY := seq(72, _ => 48.0)
  const SHORT_ERRATIC := [2.0, 2.0, 10.0, 14.0]

  lemma CappedNear(x: real)
    ensures Capped(x) <= x + 0.005
    ensures x <= 99.0 ==> Capped(x) >= x - 0.005
  {
    RoundError(x, 100);
  }

  lemma FullMarks()
    ensures DurationScore(48.0, false) == 100.0 && FrequencyScore(72) == 100.0 && ContributionScore(48.0, 48.0) == 100.0
  {
    OverItself(48.0);
    OverItself(72.0);
    RoundOfTicks(10000, 100);
    assert Percent(1.0) == Over(10000 as real, 100 as real);
  }

  lemma ErraticMoments()
    ensures Mean(SHORT_ERRATIC) == 7.0 && Variance(SHORT_ERRATIC) == 36.0 && Breaches(SHORT_ERRATIC, 2.0) == 2
  {
    var b := SHORT_ERRATIC;
    assert b[1..] == [2.0, 10.0, 14.0] && [2.0, 10.0, 14.0][1..] == [10.0, 14.0] && [10.0, 14.0][1..] == [14.0];
    assert Sum([14.0]) == 14.0 && Sum([10.0, 14.0]) == 24.0 && Sum([2.0, 10.0, 14.0]) == 26.0;
    assert Squares([14.0], 7.0) == 49.0 && Squares([10.0, 14.0], 7.0) == 58.0
      && Squares([2.0, 10.0, 14.0], 7.0) == 83.0;
    assert Breaches([14.0], 2.0) == 1 && Breaches([10.0, 14.0], 2.0) == 2 && Breaches([2.0, 10.0, 14.0], 2.0) == 2;
    assert Mean(b) == Over(28.0, 4.0);
    assert Variance(b) == Over(108.0, 3.0);
  }

  lemma MiddleOfSortedFour(b: seq<real>)
    requires |b| == 4 && Sorted(b, AtMost)
    ensures Median(b) == (b[1] + b[2]) / 2.0 && P90(b) == b[3]
  {
    SortOfSorted(b, AtMost);
  }

  lemma ErraticFigures()
    ensures FiguresOf(SHORT_ERRATIC, 6.0, 2.0) == Figures(4, 7.0, Over(6.0, 7.0), Over(14.0, 6.0), 2)
    ensures IsDeviation(6.0, SHORT_ERRATIC)
  {
    ErraticMoments();
    MiddleOfSortedFour(SHORT_ERRATIC);
    assert Median(SHORT_ERRATIC) == 6.0 && P90(SHORT_ERRATIC) == 14.0;
    assert Times(6.0, 6.0) == 36.0;
  }

  lemma ErraticExampleMarks()
    ensures DurationScore(7.0, false) <= 15.0 && FrequencyScore(4) <= 6.0 && ContributionScore(7.0, 48.0) <= 15.0
    ensures 50.0 <= VariabilityScore(Over(6.0, 7.0)) <= 58.0 && 50.0 <= TailScore(Over(14.0, 6.0)) <= 54.0
    ensures 49.0 <= BreachScore(2, 4) <= 51.0
  {
    CappedNear(Percent(Over(7.0, 48.0)));
    CappedNear(Percent(Over(4.0, 72.0)));
    CappedNear(Percent(Over(Over(6.0, 7.0), 1.5)));
    CappedNear(Percent(Over(Over(14.0, 6.0) - 1.0, 2.5)));
    RoundError(Percent(Over(2.0, 4.0)), 100);
  }

  /** Seventy-two berth stays of exactly the 48-hour target outrank four anchorage waits of 2, 2, 10 and 14 hours
      against a target of two, although these score above 50 for variability and tail risk and near 50 for breaches. */
  lemma {:induction false} FewObservationsLetSteadyOutrank()
    ensures Total(DEFAULT) != 0.0 && Steady(LONG_STEADY, 48.0, 48.0) && IsDeviation(0.0, LONG_STEADY)
    ensures IsDeviation(6.0, SHORT_ERRATIC)
    ensures var s, t := ScoresOf(LONG_STEADY, 0.0, 48.0, 48.0, false), ScoresOf(SHORT_ERRATIC, 6.0, 2.0, 48.0, false);
            Erratic(t) && Overall(DEFAULT, s) > Overall(DEFAULT, t)
  {
    EqualValuesHaveNoSpread(LONG_STEADY, 48.0);
    SteadyFigures(LONG_STEADY, 48.0, 0.0, 48.0);
    ErraticFigures();
    FullMarks();
    ErraticExampleMarks();
    ScoresAreInRange(LONG_STEADY, 0.0, 48.0, 48.0, false);
    LowerMarks(ScoresOf(LONG_STEADY, 0.0, 48.0, 48.0, false), ScoresOf(SHORT_ERRATIC, 6.0, 2.0, 48.0, false));
  }

  lemma LowerMarks(s: Scores, t: Scores)
    requires AllInRange(s) && s.duration == s.frequency == s.contribution == 100.0
    requires t.duration <= 15.0 && t.frequency <= 6.0 && t.variability <= 58.0 && t.tail <= 54.0
    requires t.contribution <= 15.0 && t.breach <= 51.0
    ensures Total(DEFAULT) != 0.0 && Overall(DEFAULT, s) > Overall(DEFAULT, t)
  {
    DefaultWeighted(s);
    DefaultWeighted(t);
    RoundError(Weighted(DEFAULT, s), 100);
    RoundError(Weighted(DEFAULT, t), 100);
  }
}
