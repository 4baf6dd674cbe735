/** From the tallied buckets to the Pareto list, and the legs that divide the population. */
module Pareto {
  import opened Ordering
  import opened Rounding
  import opened DelaySummary

  predicate Longer(b: Bucket, c: Bucket) { b.hours >= c.hours }

  function Occurring(buckets: seq<Bucket>): seq<Bucket> {
    if buckets == [] then []
    else (if buckets[0].count > 0 then [buckets[0]] else []) + Occurring(buckets[1..])
  }

  /** `round(sum / total * 100, 1)`. */
  function Percentage(sum: nat, total: nat): real {
    if total > 0 then Round(Times(Over(sum as real, total as real), 100.0), 10) else 0.0
  }

  function ShareUpTo(buckets: seq<Bucket>, k: nat, total: nat): real
    requires k < |buckets|
  {
    Percentage(SumHours(buckets[..k + 1]), total)
  }

  method Cumulate(buckets: seq<Bucket>, total: nat) returns (shares: seq<Share>)
    ensures |shares| == |buckets|
    ensures forall k :: 0 <= k < |shares| ==> shares[k] == Share(buckets[k], ShareUpTo(buckets, k, total))
  {
    shares := [];
    var running := 0;
    for i := 0 to |buckets|
      invariant |shares| == i && running == SumHours(buckets[..i])
      invariant forall k :: 0 <= k < i ==> shares[k] == Share(buckets[k], ShareUpTo(buckets, k, total))
    {
      assert buckets[..i + 1] == buckets[..i] + [buckets[i]];
      SumsOfAppend(buckets[..i], buckets[i]);
      running := running + buckets[i].hours;
      shares := shares + [Share(buckets[i], Percentage(running, total))];
    }
  }

  function Sum(shares: seq<Share>): seq<Bucket>
    ensures |Sum(shares)| == |shares| && forall k :: 0 <= k < |shares| ==> Sum(shares)[k] == shares[k].bucket
  {
    seq(|shares|, k requires 0 <= k < |shares| => shares[k].bucket)
  }

  /** Zero buckets given for the canonical categories, in their order. */
  method SummariseByCause(canonical: seq<string>, delays: seq<DelayRow>) returns (shares: seq<Share>, total: nat)
    requires forall j, k :: 0 <= j < k < |canonical| ==> canonical[j] != canonical[k]
    ensures total == TotalHours(delays)
    ensures Tallies(Sum(shares), delays, CategoryOf)
    ensures forall k :: 0 <= k < |shares| ==> shares[k].bucket.count > 0
    ensures forall j, k :: 0 <= j < k < |shares| ==> shares[j].bucket.hours >= shares[k].bucket.hours
    ensures forall j, k :: 0 <= j < k < |shares| ==> shares[j].cumulative <= shares[k].cumulative
    ensures shares != [] && total > 0 ==> shares[|shares| - 1].cumulative == 100.0
    ensures shares == [] <==> delays == []
  {
    total := AddUp(delays);
    var start := seq(|canonical|, k requires 0 <= k < |canonical| => Bucket(canonical[k], 0, 0));
    var buckets := Tally(start, delays, CategoryOf);
    var sorted := Sort(Occurring(buckets), Longer);
    SortedTallies(buckets, delays);
    shares := Cumulate(sorted, total);
    assert Sum(shares) == sorted;
    SharesClimb(sorted, total);
    if delays != [] { assert HasKey(sorted, CategoryOf(delays[0])); }
  }

  method AddUp(delays: seq<DelayRow>) returns (total: nat)
    ensures total == TotalHours(delays)
  {
    total := 0;
    for i := 0 to |delays|
      invariant total == TotalHours(delays[..i])
    {
      assert delays[..i + 1][..i] == delays[..i];
      total := total + delays[i].hours;
    }
    assert delays[..|delays|] == delays;
  }

  lemma SortedTallies(buckets: seq<Bucket>, delays: seq<DelayRow>)
    requires Tallies(buckets, delays, CategoryOf)
    ensures Tallies(Sort(Occurring(buckets), Longer), delays, CategoryOf)
    ensures Sorted(Sort(Occurring(buckets), Longer), Longer)
    ensures forall k :: 0 <= k < |Sort(Occurring(buckets), Longer)| ==> Sort(Occurring(buckets), Longer)[k].count > 0
  {
    OccurringTallies(buckets, delays, CategoryOf);
    OccurringAre(buckets);
    SortTallies(Occurring(buckets), delays, CategoryOf);
  }

  method SummariseByStage(delays: seq<DelayRow>) returns (buckets: seq<Bucket>)
    ensures Tallies(buckets, delays, StageOf)
  {
    buckets := Tally([], delays, StageOf);
  }

  // ---- Dropping empty buckets and sorting lose nothing ----

  lemma {:induction false} OccurringAre(buckets: seq<Bucket>)
    ensures forall b :: b in Occurring(buckets) <==> b in buckets && b.count > 0
  {
    if buckets != [] { OccurringAre(buckets[1..]); }
  }

  lemma {:induction false} OccurringSums(buckets: seq<Bucket>)
    requires forall b :: b in buckets && b.count == 0 ==> b.hours == 0
    ensures SumHours(Occurring(buckets)) == SumHours(buckets) && SumCounts(Occurring(buckets)) == SumCounts(buckets)
  {
    if buckets != [] {
      OccurringSums(buckets[1..]);
      assert buckets[0] in buckets;
      if buckets[0].count > 0 {
        assert Occurring(buckets)[1..] == Occurring(buckets[1..]);
      } else {
        assert Occurring(buckets) == Occurring(buckets[1..]);
      }
    }
  }

  lemma {:induction false} OccurringKeys(buckets: seq<Bucket>)
    requires DistinctKeys(buckets)
    ensures DistinctKeys(Occurring(buckets))
  {
    if buckets != [] {
      OccurringKeys(buckets[1..]);
      OccurringAre(buckets[1..]);
      var rest := Occurring(buckets[1..]);
      forall k | 0 <= k < |rest| ensures rest[k].key != buckets[0].key {
        assert rest[k] in rest;
        var j :| 0 <= j < |buckets[1..]| && buckets[1..][j] == rest[k];
      }
    }
  }

  lemma {:induction false} NoHoursWithoutCount(delays: seq<DelayRow>, keyOf: DelayRow -> string, key: string)
    ensures CountOf(delays, keyOf, key) == 0 ==> HoursOf(delays, keyOf, key) == 0
    ensures (exists k :: 0 <= k < |delays| && keyOf(delays[k]) == key) ==> CountOf(delays, keyOf, key) > 0
  {
    if delays != [] { NoHoursWithoutCount(delays[..|delays| - 1], keyOf, key); }
  }

  lemma OccurringTallies(buckets: seq<Bucket>, delays: seq<DelayRow>, keyOf: DelayRow -> string)
    requires Tallies(buckets, delays, keyOf)
    ensures Tallies(Occurring(buckets), delays, keyOf)
  {
    OccurringAre(buckets);
    OccurringKeys(buckets);
    var some := Occurring(buckets);
    forall b | b in buckets ensures b.count == CountOf(delays, keyOf, b.key) && (b.count == 0 ==> b.hours == 0) {
      NoHoursWithoutCount(delays, keyOf, b.key);
    }
    OccurringSums(buckets);
    forall k | 0 <= k < |some|
      ensures some[k].count == CountOf(delays, keyOf, some[k].key)
      ensures some[k].hours == HoursOf(delays, keyOf, some[k].key)
    {
      assert some[k] in buckets;
    }
    forall k | 0 <= k < |delays| ensures HasKey(some, keyOf(delays[k])) {
      assert HasKey(buckets, keyOf(delays[k]));
      var j :| 0 <= j < |buckets| && buckets[j].key == keyOf(delays[k]);
      NoHoursWithoutCount(delays, keyOf, keyOf(delays[k]));
      assert buckets[j] in some;
    }
  }

  lemma {:induction false} InsertKeepsSums(b: Bucket, s: seq<Bucket>)
    ensures SumCounts(Insert(b, s, Longer)) == b.count + SumCounts(s)
    ensures SumHours(Insert(b, s, Longer)) == b.hours + SumHours(s)
  {
    if s != [] && !Longer(b, s[0]) { InsertKeepsSums(b, s[1..]); }
  }

  lemma {:induction false} SortKeepsSums(s: seq<Bucket>)
    ensures SumCounts(Sort(s, Longer)) == SumCounts(s) && SumHours(Sort(s, Longer)) == SumHours(s)
  {
    if s != [] {
      SortKeepsSums(s[1..]);
      InsertKeepsSums(s[0], Sort(s[1..], Longer));
    }
  }

  lemma {:induction false} InsertKeepsKeys(b: Bucket, s: seq<Bucket>)
    requires DistinctKeys(s) && forall c :: c in s ==> c.key != b.key
    ensures DistinctKeys(Insert(b, s, Longer))
  {
    if s != [] && !Longer(b, s[0]) {
      InsertKeepsKeys(b, s[1..]);
      var rest := Insert(b, s[1..], Longer);
      forall k | 0 <= k < |rest| ensures rest[k].key != s[0].key {
        assert rest[k] in multiset(rest);
      }
    }
  }

  lemma {:induction false} SortKeepsKeys(s: seq<Bucket>)
    requires DistinctKeys(s)
    ensures DistinctKeys(Sort(s, Longer))
  {
    if s != [] {
      SortKeepsKeys(s[1..]);
      forall c | c in Sort(s[1..], Longer) ensures c.key != s[0].key {
        SameElements(Sort(s[1..], Longer), s[1..], c);
      }
      InsertKeepsKeys(s[0], Sort(s[1..], Longer));
    }
  }

  lemma SortTallies(s: seq<Bucket>, delays: seq<DelayRow>, keyOf: DelayRow -> string)
    requires Tallies(s, delays, keyOf)
    ensures Tallies(Sort(s, Longer), delays, keyOf) && Sorted(Sort(s, Longer), Longer)
    ensures (forall b :: b in s ==> b.count > 0) ==>
              forall k :: 0 <= k < |Sort(s, Longer)| ==> Sort(s, Longer)[k].count > 0
  {
    var t := Sort(s, Longer);
    SortSorts(s, Longer);
    SortKeepsSums(s);
    SortKeepsKeys(s);
    forall b ensures b in t <==> b in s { SameElements(t, s, b); }
    forall k | 0 <= k < |t| ensures t[k] in s { assert t[k] in t; }
    forall k | 0 <= k < |delays| ensures HasKey(t, keyOf(delays[k])) {
      assert HasKey(s, keyOf(delays[k]));
      var j :| 0 <= j < |s| && s[j].key == keyOf(delays[k]);
      assert s[j] in t;
    }
  }

  // ---- The cumulative share ----

  lemma PercentageClimbs(a: nat, b: nat, total: nat)
    requires a <= b
    ensures Percentage(a, total) <= Percentage(b, total)
  {
    if total > 0 {
      OverIsMonotone(a as real, b as real, total as real);
      TimesIsMonotone(Over(a as real, total as real), Over(b as real, total as real), 100.0);
      RoundIsMonotone(Times(Over(a as real, total as real), 100.0), Times(Over(b as real, total as real), 100.0), 10);
    }
  }

  /** A cumulative share is the percentage of the whole to within a twentieth. */
  lemma PercentageIs(sum: nat, total: nat)
    ensures total > 0 ==> -0.05 <= Percentage(sum, total) - 100.0 * sum as real / total as real <= 0.05
    ensures total == 0 ==> Percentage(sum, total) == 0.0
  {
    if total > 0 {
      var share := Times(Over(sum as real, total as real), 100.0);
      assert share == 100.0 * sum as real / total as real;
      RoundError(share, 10);
    }
  }

  lemma PercentageOfWhole(total: nat)
    requires total > 0
    ensures Percentage(total, total) == 100.0
  {
    assert Times(Over(total as real, total as real), 100.0) == Over(1000 as real, 10 as real);
    RoundOfTicks(1000, 10);
  }

  lemma {:induction false} PrefixSumsClimb(buckets: seq<Bucket>, j: nat, k: nat)
    requires j <= k <= |buckets|
    ensures SumHours(buckets[..j]) <= SumHours(buckets[..k])
    decreases k
  {
    if j < k {
      assert buckets[..k] == buckets[..k - 1] + [buckets[k - 1]];
      SumsOfAppend(buckets[..k - 1], buckets[k - 1]);
      PrefixSumsClimb(buckets, j, k - 1);
    }
  }

  lemma SharesClimb(buckets: seq<Bucket>, total: nat)
    ensures forall j, k :: 0 <= j < k < |buckets| ==> ShareUpTo(buckets, j, total) <= ShareUpTo(buckets, k, total)
    ensures buckets != [] && SumHours(buckets) == total > 0 ==> ShareUpTo(buckets, |buckets| - 1, total) == 100.0
  {
    forall j, k | 0 <= j < k < |buckets| ensures ShareUpTo(buckets, j, total) <= ShareUpTo(buckets, k, total) {
      PrefixSumsClimb(buckets, j + 1, k + 1);
      PercentageClimbs(SumHours(buckets[..j + 1]), SumHours(buckets[..k + 1]), total);
    }
    if total > 0 { PercentageOfWhole(total); }
    assert buckets[..|buckets|] == buckets;
  }

  // ---- The legs ----

  function OfLeg(delays: seq<DelayRow>, legOf: DelayRow -> Leg, leg: Leg): seq<DelayRow> {
    if delays == [] then []
    else
      var n := |delays| - 1;
      OfLeg(delays[..n], legOf, leg) + if legOf(delays[n]) == leg then [delays[n]] else []
  }

  function LegHours(delays: seq<DelayRow>, legOf: DelayRow -> Leg, leg: Leg): nat {
    TotalHours(OfLeg(delays, legOf, leg))
  }

  lemma HoursOfAppend(delays: seq<DelayRow>, d: DelayRow)
    ensures TotalHours(delays + [d]) == TotalHours(delays) + d.hours
  {
    assert (delays + [d])[..|delays|] == delays;
  }

  lemma OfLegGrows(delays: seq<DelayRow>, d: DelayRow, legOf: DelayRow -> Leg, leg: Leg)
    ensures OfLeg(delays + [d], legOf, leg) == OfLeg(delays, legOf, leg) + if legOf(d) == leg then [d] else []
    ensures LegHours(delays + [d], legOf, leg) == LegHours(delays, legOf, leg) + if legOf(d) == leg then d.hours else 0
  {
    assert (delays + [d])[..|delays|] == delays;
    if legOf(d) == leg {
      HoursOfAppend(OfLeg(delays, legOf, leg), d);
    } else {
      assert OfLeg(delays, legOf, leg) + [] == OfLeg(delays, legOf, leg);
    }
  }

  function LegBag(delays: seq<DelayRow>, legOf: DelayRow -> Leg, leg: Leg): multiset<DelayRow> {
    multiset(OfLeg(delays, legOf, leg))
  }

  lemma LegBagGrows(delays: seq<DelayRow>, d: DelayRow, legOf: DelayRow -> Leg, leg: Leg)
    ensures LegBag(delays + [d], legOf, leg)
            == if legOf(d) == leg then LegBag(delays, legOf, leg) + multiset{d} else LegBag(delays, legOf, leg)
  {
    OfLegGrows(delays, d, legOf, leg);
  }

  function Shared(delays: seq<DelayRow>, legOf: DelayRow -> Leg): multiset<DelayRow> {
    LegBag(delays, legOf, ARRIVAL_INWARD) + LegBag(delays, legOf, SAILING_OUTWARD)
    + LegBag(delays, legOf, SHIFTING) + LegBag(delays, legOf, UNCLASSIFIED)
  }

  lemma SharedGrows(delays: seq<DelayRow>, d: DelayRow, legOf: DelayRow -> Leg)
    ensures Shared(delays + [d], legOf) == Shared(delays, legOf) + multiset{d}
  {
    LegBagGrows(delays, d, legOf, ARRIVAL_INWARD);
    LegBagGrows(delays, d, legOf, SAILING_OUTWARD);
    LegBagGrows(delays, d, legOf, SHIFTING);
    LegBagGrows(delays, d, legOf, UNCLASSIFIED);
  }

  function SharedHours(delays: seq<DelayRow>, legOf: DelayRow -> Leg): nat {
    LegHours(delays, legOf, ARRIVAL_INWARD) + LegHours(delays, legOf, SAILING_OUTWARD)
    + LegHours(delays, legOf, SHIFTING) + LegHours(delays, legOf, UNCLASSIFIED)
  }

  lemma HoursGrow(delays: seq<DelayRow>, d: DelayRow, legOf: DelayRow -> Leg)
    ensures SharedHours(delays + [d], legOf) == SharedHours(delays, legOf) + d.hours
  {
    OfLegGrows(delays, d, legOf, ARRIVAL_INWARD);
    OfLegGrows(delays, d, legOf, SAILING_OUTWARD);
    OfLegGrows(delays, d, legOf, SHIFTING);
    OfLegGrows(delays, d, legOf, UNCLASSIFIED);
  }

  lemma {:induction false} EachInItsLeg(delays: seq<DelayRow>, legOf: DelayRow -> Leg, leg: Leg)
    ensures forall d :: d in OfLeg(delays, legOf, leg) ==> legOf(d) == leg
  {
    if delays != [] { EachInItsLeg(delays[..|delays| - 1], legOf, leg); }
  }

  lemma {:induction false} AllAreShared(delays: seq<DelayRow>, legOf: DelayRow -> Leg)
    ensures multiset(delays) == Shared(delays, legOf)
  {
    if delays != [] {
      var n := |delays| - 1;
      AllAreShared(delays[..n], legOf);
      assert delays == delays[..n] + [delays[n]];
      SharedGrows(delays[..n], delays[n], legOf);
    }
  }

  ghost predicate Balanced(delays: seq<DelayRow>, legOf: DelayRow -> Leg) {
    TotalHours(delays) == SharedHours(delays, legOf)
  }

  lemma BalanceGrows(delays: seq<DelayRow>, d: DelayRow, legOf: DelayRow -> Leg)
    requires Balanced(delays, legOf)
    ensures Balanced(delays + [d], legOf)
  {
    HoursGrow(delays, d, legOf);
    HoursOfAppend(delays, d);
  }

  lemma HoursAreShared(delays: seq<DelayRow>, legOf: DelayRow -> Leg)
    ensures Balanced(delays, legOf)
  {
    var before: seq<DelayRow> := [];
    for n := 0 to |delays|
      invariant before == delays[..n] && Balanced(before, legOf)
    {
      BalanceGrows(before, delays[n], legOf);
      before := before + [delays[n]];
    }
    assert before == delays;
  }

  /** The four legs share out the whole population: each delay once, in its own leg, and all of its hours. */
  lemma LegsPartition(delays: seq<DelayRow>)
    ensures multiset(delays) == Shared(delays, LegOf)
    ensures forall leg, d :: d in OfLeg(delays, LegOf, leg) ==> LegOf(d) == leg
    ensures TotalHours(delays) == SharedHours(delays, LegOf)
  {
    AllAreShared(delays, LegOf);
    HoursAreShared(delays, LegOf);
    forall leg ensures forall d :: d in OfLeg(delays, LegOf, leg) ==> LegOf(d) == leg {
      EachInItsLeg(delays, LegOf, leg);
    }
  }
}
