/** Bottleneck scores and their ranking, in exact arithmetic. */
module Bottleneck {
  import opened Wrappers
  import opened Ordering
  import opened Rounding
  import opened Statistics

  datatype Weights = Weights(duration: real, frequency: real, variability: real, tail: real, contribution: real,
                             breach: real, other: real)

  /** The defaults; `other` is what callers may add under further names. */
  const DEFAULT := Weights(0.15, 0.20, 0.20, 0.20, 0.10, 0.15, 0.0)

  datatype Scores = Scores(duration: real, frequency: real, variability: real, tail: real, contribution: real,
                           breach: real)

  datatype Candidate = Candidate(name: string, scores: Scores, overall: real, rank: nat)

  // ---- One stage or resource ----

  function Capped(x: real): real { if Round(x, 100) < 100.0 then Round(x, 100) else 100.0 }

  function Percent(x: real): real { Times(x, 100.0) }

  function Variation(values: seq<real>, std: real): real
    requires values != []
  {
    if Mean(values) > 0.0001 then Over(std, Mean(values)) else 0.0
  }

  function TailRatio(values: seq<real>): real
    requires values != []
  {
    if Median(values) > 0.0001 then Over(P90(values), Median(values))
    else if P90(values) > 1.0 then P90(values)
    else 1.0
  }

  function Breaches(values: seq<real>, target: real): (n: nat)
    ensures n <= |values|
    ensures (forall k :: 0 <= k < |values| ==> values[k] <= target) ==> n == 0
  {
    if values == [] then 0 else (if values[0] > target then 1 else 0) + Breaches(values[1..], target)
  }

  function DurationScore(mean: real, isDelay: bool): real {
    Capped(Percent(Over(mean, if isDelay then 10.0 else 48.0)))
  }

  function FrequencyScore(n: nat): real { Capped(Percent(Over(n as real, 72.0))) }

  function VariabilityScore(cv: real): real { Capped(Percent(Over(cv, 1.5))) }

  function TailScore(ratio: real): real { if ratio >= 1.0 then Capped(Percent(Over(ratio - 1.0, 2.5))) else 0.0 }

  function ContributionScore(mean: real, meanTurnaround: real): real {
    Capped(Percent(if meanTurnaround > 0.0 then Over(mean, meanTurnaround) else 0.0))
  }

  function BreachScore(k: nat, n: nat): real
    requires n > 0
  {
    Round(Percent(Over(k as real, n as real)), 100)
  }

  /** What the scores are computed from. */
  datatype Figures = Figures(count: nat, mean: real, variation: real, tailRatio: real, breaches: nat)

  function FiguresOf(values: seq<real>, std: real, target: real): (f: Figures)
    requires values != []
    ensures f.count == |values|
  {
    Figures(|values|, Mean(values), Variation(values, std), TailRatio(values), Breaches(values, target))
  }

  function ScoresFrom(f: Figures, meanTurnaround: real, isDelay: bool): Scores
    requires f.count > 0
  {
    Scores(DurationScore(f.mean, isDelay), FrequencyScore(f.count), VariabilityScore(f.variation),
           TailScore(f.tailRatio), ContributionScore(f.mean, meanTurnaround), BreachScore(f.breaches, f.count))
  }

  function ScoresOf(values: seq<real>, std: real, target: real, meanTurnaround: real, isDelay: bool): Scores
    requires values != []
  {
    ScoresFrom(FiguresOf(values, std, target), meanTurnaround, isDelay)
  }

  ghost predicate IsDeviation(std: real, values: seq<real>)
    requires values != []
  {
    std >= 0.0 && Times(std, std) == Variance(values)
  }

  predicate InRange(x: real) { 0.0 <= x <= 100.0 }

  predicate AllInRange(s: Scores) {
    InRange(s.duration) && InRange(s.frequency) && InRange(s.variability) && InRange(s.tail) && InRange(s.contribution)
      && InRange(s.breach)
  }

  lemma CappedInRange(x: real)
    requires x >= 0.0
    ensures InRange(Capped(x))
  {
    RoundOfTicks(0, 100);
    RoundIsMonotone(0.0, x, 100);
  }

  lemma CappedIsMonotone(x: real, y: real)
    requires x <= y
    ensures Capped(x) <= Capped(y)
  {
    RoundIsMonotone(x, y, 100);
  }

  lemma ShareIsPositive(x: real, y: real)
    requires x >= 0.0 && y > 0.0
    ensures Percent(Over(x, y)) >= 0.0
  {
    OverIsMonotone(0.0, x, y);
    TimesIsMonotone(0.0, Over(x, y), 100.0);
  }

  lemma OverItself(x: real)
    requires x != 0.0
    ensures Over(x, x) == 1.0
  {
  }

  /** The tail ratio is never below one, so the arm that scores nothing is never taken. */
  lemma TailRatioAtLeastOne(values: seq<real>)
    requires values != []
    ensures TailRatio(values) >= 1.0
  {
    MedianBelowP90(values);
    if Median(values) > 0.0001 {
      OverIsMonotone(Median(values), P90(values), Median(values));
      OverItself(Median(values));
    }
  }

  lemma MeanIsNonNegative(values: seq<real>)
    requires values != [] && NonNegative(values)
    ensures Mean(values) >= 0.0
  {
    SumIsNonNegative(values);
    OverIsMonotone(0.0, Sum(values), |values| as real);
  }

  lemma BreachInRange(n: nat, k: nat)
    requires k <= n && n > 0
    ensures InRange(Round(Percent(Over(k as real, n as real)), 100))
  {
    ShareIsPositive(k as real, n as real);
    OverIsMonotone(k as real, n as real, n as real);
    TimesIsMonotone(Over(k as real, n as real), 1.0, 100.0);
    RoundWithin(Percent(Over(k as real, n as real)), 0, 10000, 100);
  }

  predicate Sound(f: Figures) {
    f.count > 0 && f.mean >= 0.0 && f.variation >= 0.0 && f.tailRatio >= 1.0 && f.breaches <= f.count
  }

  lemma FiguresAreSound(values: seq<real>, std: real, target: real)
    requires values != [] && NonNegative(values) && IsDeviation(std, values)
    ensures Sound(FiguresOf(values, std, target))
  {
    MeanIsNonNegative(values);
    TailRatioAtLeastOne(values);
    if Mean(values) > 0.0001 { OverIsMonotone(0.0, std, Mean(values)); }
  }

  lemma SoundFiguresScoreInRange(f: Figures, meanTurnaround: real, isDelay: bool)
    requires Sound(f)
    ensures AllInRange(ScoresFrom(f, meanTurnaround, isDelay))
  {
    ShareIsPositive(f.mean, if isDelay then 10.0 else 48.0);
    CappedInRange(Percent(Over(f.mean, if isDelay then 10.0 else 48.0)));
    ShareIsPositive(f.count as real, 72.0);
    CappedInRange(Percent(Over(f.count as real, 72.0)));
    ShareIsPositive(f.variation, 1.5);
    CappedInRange(Percent(Over(f.variation, 1.5)));
    ShareIsPositive(f.tailRatio - 1.0, 2.5);
    CappedInRange(Percent(Over(f.tailRatio - 1.0, 2.5)));
    ContributionInRange(f.mean, meanTurnaround);
    BreachInRange(f.count, f.breaches);
  }

  /** Every component score of non-negative observations lies between 0 and 100. */
  lemma ScoresAreInRange(values: seq<real>, std: real, target: real, meanTurnaround: real, isDelay: bool)
    requires values != [] && NonNegative(values) && IsDeviation(std, values)
    ensures AllInRange(ScoresOf(values, std, target, meanTurnaround, isDelay))
  {
    FiguresAreSound(values, std, target);
    SoundFiguresScoreInRange(FiguresOf(values, std, target), meanTurnaround, isDelay);
  }

  /** The squared coefficient of variation stays below the number of observations. */
  lemma VariationStaysBelowCount(values: seq<real>, std: real)
    requires values != [] && NonNegative(values) && IsDeviation(std, values)
    ensures Times(Variation(values, std), Variation(values, std)) <= |values| as real
  {
    if Mean(values) > 0.0001 { VariationIsBounded(values, std); }
  }

  lemma ContributionInRange(m: real, turnaround: real)
    requires m >= 0.0
    ensures InRange(Capped(Percent(if turnaround > 0.0 then Over(m, turnaround) else 0.0)))
  {
    if turnaround > 0.0 { ShareIsPositive(m, turnaround); }
    CappedInRange(Percent(if turnaround > 0.0 then Over(m, turnaround) else 0.0));
  }

  // ---- The weighted score ----

  function Total(w: Weights): real {
    w.duration + w.frequency + w.variability + w.tail + w.contribution + w.breach + w.other
  }

  ghost predicate Proper(w: Weights) {
    && w.duration >= 0.0 && w.frequency >= 0.0 && w.variability >= 0.0 && w.tail >= 0.0 && w.contribution >= 0.0
    && w.breach >= 0.0 && w.other >= 0.0 && Total(w) > 0.0
  }

  function Weighted(w: Weights, s: Scores): real
    requires Total(w) != 0.0
  {
    var t := Total(w);
    Times(s.duration, Over(w.duration, t)) + Times(s.frequency, Over(w.frequency, t))
      + Times(s.variability, Over(w.variability, t))
    + Times(s.tail, Over(w.tail, t)) + Times(s.contribution, Over(w.contribution, t))
      + Times(s.breach, Over(w.breach, t))
  }

  function Overall(w: Weights, s: Scores): real
    requires Total(w) != 0.0
  {
    Round(Weighted(w, s), 100)
  }

  lemma PartInRange(x: real, w: real, t: real)
    requires InRange(x) && w >= 0.0 && t > 0.0
    ensures 0.0 <= Times(x, Over(w, t)) <= Times(100.0, Over(w, t))
  {
    OverIsMonotone(0.0, w, t);
    TimesIsMonotone(0.0, x, Over(w, t));
    TimesIsMonotone(x, 100.0, Over(w, t));
  }

  lemma PartsMakeWhole(w: Weights)
    requires Proper(w)
    ensures var t := Total(w);
            Over(w.duration, t) + Over(w.frequency, t) + Over(w.variability, t) + Over(w.tail, t)
              + Over(w.contribution, t) + Over(w.breach, t) <= 1.0
  {
    var t := Total(w);
    assert Over(w.duration, t) + Over(w.frequency, t) + Over(w.variability, t) + Over(w.tail, t)
      + Over(w.contribution, t) + Over(w.breach, t)
        == Over(t - w.other, t);
    OverIsMonotone(t - w.other, t, t);
    assert Over(t, t) == 1.0;
  }

  /** For any non-negative weights that are not all zero the overall score lies between 0 and 100. */
  lemma OverallInRange(w: Weights, s: Scores)
    requires Proper(w) && AllInRange(s)
    ensures InRange(Overall(w, s))
  {
    var t := Total(w);
    PartInRange(s.duration, w.duration, t);
    PartInRange(s.frequency, w.frequency, t);
    PartInRange(s.variability, w.variability, t);
    PartInRange(s.tail, w.tail, t);
    PartInRange(s.contribution, w.contribution, t);
    PartInRange(s.breach, w.breach, t);
    PartsMakeWhole(w);
    RoundWithin(Weighted(w, s), 0, 10000, 100);
  }

  // ---- Ranking ----

  predicate Higher(c: Candidate, d: Candidate) { c.overall >= d.overall }

  function Scored(w: Weights, found: seq<Candidate>): (r: seq<Candidate>)
    requires Total(w) != 0.0
    ensures |r| == |found|
  {
    seq(|found|, k requires 0 <= k < |found| => found[k].(overall := Overall(w, found[k].scores)))
  }

  function Unranked(ranked: seq<Candidate>): (r: seq<Candidate>)
    ensures |r| == |ranked|
  {
    seq(|ranked|, k requires 0 <= k < |ranked| => ranked[k].(rank := 0))
  }

  /** Ranks count from one, scores never rise down the list, and each is the weighted score of its components. */
  ghost predicate Ranking(w: Weights, ranked: seq<Candidate>)
    requires Total(w) != 0.0
  {
    && (forall k :: 0 <= k < |ranked| ==> ranked[k].rank == k + 1 && ranked[k].overall == Overall(w, ranked[k].scores))
    && (forall j, k :: 0 <= j < k < |ranked| ==> ranked[j].overall >= ranked[k].overall)
  }

  /** Weights that cancel out cannot be normalised. */
  method CalculateBottlenecks(w: Weights, found: seq<Candidate>) returns (r: Result<seq<Candidate>>)
    requires forall c :: c in found ==> c.rank == 0
    ensures r.Ok? <==> Total(w) != 0.0
    ensures r.Ok? ==> Ranking(w, r.value) && multiset(Unranked(r.value)) == multiset(Scored(w, found))
  {
    if Total(w) == 0.0 { return Err("division by zero"); }
    var candidates := found;
    for i := 0 to |found|
      invariant |candidates| == |found|
      invariant forall k :: 0 <= k < |found| ==>
                  candidates[k] == if k < i then found[k].(overall := Overall(w, found[k].scores)) else found[k]
    {
      candidates := candidates[i := candidates[i].(overall := Overall(w, candidates[i].scores))];
    }
    assert candidates == Scored(w, found);
    var sorted := Sort(candidates, Higher);
    SortSorts(candidates, Higher);
    SortedKeepTheirScores(w, candidates, sorted);
    var ranked := sorted;
    for i := 0 to |sorted|
      invariant |ranked| == |sorted|
      invariant forall k :: 0 <= k < |sorted| ==> ranked[k] == if k < i then sorted[k].(rank := k + 1) else sorted[k]
    {
      ranked := ranked[i := ranked[i].(rank := i + 1)];
    }
    assert Unranked(ranked) == sorted;
    forall j, k | 0 <= j < k < |ranked| ensures ranked[j].overall >= ranked[k].overall {
      assert Higher(sorted[j], sorted[k]);
    }
    return Ok(ranked);
  }

  lemma SortedKeepTheirScores(w: Weights, candidates: seq<Candidate>, sorted: seq<Candidate>)
    requires Total(w) != 0.0 && multiset(sorted) == multiset(candidates)
    requires forall k :: 0 <= k < |candidates| ==>
               candidates[k].rank == 0 && candidates[k].overall == Overall(w, candidates[k].scores)
    ensures forall k :: 0 <= k < |sorted| ==> sorted[k].rank == 0 && sorted[k].overall == Overall(w, sorted[k].scores)
  {
    forall k | 0 <= k < |sorted| ensures sorted[k].rank == 0 && sorted[k].overall == Overall(w, sorted[k].scores) {
      SameElements(sorted, candidates, sorted[k]);
    }
  }
}
