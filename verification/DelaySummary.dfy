/** The Pareto summary of delays, hours in integer hundredths. */
module DelaySummary {
  import opened Text

  /** An empty category or stage is an unrecorded one. */
  datatype DelayRow = DelayRow(category: string, stage: string, hours: nat)

  datatype Leg = ARRIVAL_INWARD | SAILING_OUTWARD | SHIFTING | UNCLASSIFIED

  datatype Bucket = Bucket(key: string, count: nat, hours: nat)

  datatype Share = Share(bucket: Bucket, cumulative: real)

  function LegOf(d: DelayRow): Leg {
    var value := Upper(Strip(d.stage));
    if value == "ARRIVAL" || value == "INWARD" then ARRIVAL_INWARD
    else if value == "SAILING" || value == "OUTWARD" || value == "DEPARTURE" then SAILING_OUTWARD
    else if value == "SHIFTING" then SHIFTING
    else UNCLASSIFIED
  }

  function CategoryOf(d: DelayRow): string { if d.category == "" then "Other" else d.category }

  function StageOf(d: DelayRow): string { if d.stage == "" then "Unknown" else d.stage }

  // ---- What the numbers should be ----

  function TotalHours(delays: seq<DelayRow>): nat {
    if delays == [] then 0 else TotalHours(delays[..|delays| - 1]) + delays[|delays| - 1].hours
  }

  function CountOf(delays: seq<DelayRow>, keyOf: DelayRow -> string, key: string): nat {
    if delays == [] then 0
    else CountOf(delays[..|delays| - 1], keyOf, key) + if keyOf(delays[|delays| - 1]) == key then 1 else 0
  }

  function HoursOf(delays: seq<DelayRow>, keyOf: DelayRow -> string, key: string): nat {
    if delays == [] then 0
    else
      HoursOf(delays[..|delays| - 1], keyOf, key)
      + if keyOf(delays[|delays| - 1]) == key then delays[|delays| - 1].hours else 0
  }

  function SumCounts(buckets: seq<Bucket>): nat {
    if buckets == [] then 0 else buckets[0].count + SumCounts(buckets[1..])
  }

  function SumHours(buckets: seq<Bucket>): nat {
    if buckets == [] then 0 else buckets[0].hours + SumHours(buckets[1..])
  }

  ghost predicate DistinctKeys(buckets: seq<Bucket>) {
    forall j, k :: 0 <= j < k < |buckets| ==> buckets[j].key != buckets[k].key
  }

  ghost predicate Exact(buckets: seq<Bucket>, delays: seq<DelayRow>, keyOf: DelayRow -> string) {
    forall k :: 0 <= k < |buckets| ==>
      buckets[k].count == CountOf(delays, keyOf, buckets[k].key)
        && buckets[k].hours == HoursOf(delays, keyOf, buckets[k].key)
  }

  predicate HasKey(buckets: seq<Bucket>, key: string) { exists k :: 0 <= k < |buckets| && buckets[k].key == key }

  ghost predicate HoldsAll(buckets: seq<Bucket>, delays: seq<DelayRow>, keyOf: DelayRow -> string) {
    forall k :: 0 <= k < |delays| ==> HasKey(buckets, keyOf(delays[k]))
  }

  ghost predicate Conserves(buckets: seq<Bucket>, delays: seq<DelayRow>) {
    SumCounts(buckets) == |delays| && SumHours(buckets) == TotalHours(delays)
  }

  /** Each bucket holds exactly the delays of its key, and every delay has its bucket. */
  ghost predicate Tallies(buckets: seq<Bucket>, delays: seq<DelayRow>, keyOf: DelayRow -> string) {
    DistinctKeys(buckets) && Exact(buckets, delays, keyOf) && HoldsAll(buckets, delays, keyOf)
      && Conserves(buckets, delays)
  }

  // ---- The numbers, by position

  /** Each stage by its word, in any case and with white space around it; a column that is empty has a bucket too. */
  lemma LegsAre(d: DelayRow)
    ensures var value := Upper(Strip(d.stage));
            && (LegOf(d) == ARRIVAL_INWARD <==> value in {"ARRIVAL", "INWARD"})
            && (LegOf(d) == SAILING_OUTWARD <==> value in {"SAILING", "OUTWARD", "DEPARTURE"})
            && (LegOf(d) == SHIFTING <==> value in {"SHIFTING"})
    ensures CategoryOf(d) in {d.category, "Other"} && (CategoryOf(d) == "Other" <==> d.category in {"", "Other"})
    ensures StageOf(d) in {d.stage, "Unknown"} && (StageOf(d) == "Unknown" <==> d.stage in {"", "Unknown"})
  {
  }

  /** The delays of a key are counted one by one. */
  lemma {:induction false} CountIsOfDelays(delays: seq<DelayRow>, keyOf: DelayRow -> string, key: string)
    ensures CountOf(delays, keyOf, key) == |set k: nat | k < |delays| && keyOf(delays[k]) == key|
  {
    if delays != [] {
      var n := |delays| - 1;
      CountIsOfDelays(delays[..n], keyOf, key);
      var fewer := set k: nat | k < n && keyOf(delays[..n][k]) == key;
      var more := set k: nat | k < |delays| && keyOf(delays[k]) == key;
      assert more == if keyOf(delays[n]) == key then fewer + {n} else fewer;
    }
  }

  /** The hours of a key are those of its delays and of no others. */
  lemma HoursOfOneMore(delays: seq<DelayRow>, d: DelayRow, keyOf: DelayRow -> string, key: string)
    ensures TotalHours([]) == 0 && TotalHours(delays + [d]) == TotalHours(delays) + d.hours
    ensures HoursOf([], keyOf, key) == 0
    ensures HoursOf(delays + [d], keyOf, key) == if keyOf(d) == key then HoursOf(delays, keyOf, key) + d.hours
                                                 else HoursOf(delays, keyOf, key)
  {
    assert (delays + [d])[..|delays|] == delays;
  }

  // ---- The loop over the delays ----

  function Place(buckets: seq<Bucket>, key: string): (n: nat)
    ensures n <= |buckets|
    ensures n < |buckets| ==> buckets[n].key == key
    ensures forall k :: 0 <= k < n ==> buckets[k].key != key
  {
    if buckets == [] || buckets[0].key == key then 0 else 1 + Place(buckets[1..], key)
  }

  function Opened(buckets: seq<Bucket>, key: string): (r: seq<Bucket>)
    ensures Place(buckets, key) < |r|
  {
    if Place(buckets, key) < |buckets| then buckets else buckets + [Bucket(key, 0, 0)]
  }

  function Bumped(buckets: seq<Bucket>, key: string, hours: nat): seq<Bucket> {
    var wide, n := Opened(buckets, key), Place(buckets, key);
    wide[n := Bucket(key, wide[n].count + 1, wide[n].hours + hours)]
  }

  method Tally(start: seq<Bucket>, delays: seq<DelayRow>, keyOf: DelayRow -> string) returns (buckets: seq<Bucket>)
    requires DistinctKeys(start) && forall b :: b in start ==> b.count == 0 && b.hours == 0
    ensures Tallies(buckets, delays, keyOf)
  {
    buckets := start;
    SumsOfZeros(start);
    for i := 0 to |delays|
      invariant Tallies(buckets, delays[..i], keyOf)
    {
      var key, hours := keyOf(delays[i]), delays[i].hours;
      ghost var before := buckets;
      var n := Place(buckets, key);
      if n == |buckets| { buckets := buckets + [Bucket(key, 0, 0)]; }
      buckets := buckets[n := buckets[n].(count := buckets[n].count + 1)];
      buckets := buckets[n := buckets[n].(hours := buckets[n].hours + hours)];
      assert buckets == Bumped(before, key, hours);
      TallyStep(before, delays, i, keyOf);
    }
    assert delays[..|delays|] == delays;
  }

  lemma {:induction false} SumsOfZeros(buckets: seq<Bucket>)
    requires forall b :: b in buckets ==> b.count == 0 && b.hours == 0
    ensures SumCounts(buckets) == 0 && SumHours(buckets) == 0
  {
    if buckets != [] { SumsOfZeros(buckets[1..]); }
  }

  lemma {:induction false} SumsOfUpdate(buckets: seq<Bucket>, n: nat, b: Bucket)
    requires n < |buckets|
    ensures SumCounts(buckets[n := b]) == SumCounts(buckets) - buckets[n].count + b.count
    ensures SumHours(buckets[n := b]) == SumHours(buckets) - buckets[n].hours + b.hours
  {
    if n == 0 {
      assert buckets[0 := b][1..] == buckets[1..];
    } else {
      assert buckets[n := b][1..] == buckets[1..][n - 1 := b];
      SumsOfUpdate(buckets[1..], n - 1, b);
    }
  }

  lemma {:induction false} SumsOfAppend(buckets: seq<Bucket>, b: Bucket)
    ensures SumCounts(buckets + [b]) == SumCounts(buckets) + b.count
    ensures SumHours(buckets + [b]) == SumHours(buckets) + b.hours
  {
    if buckets == [] {
      assert [b][1..] == [];
    } else {
      assert (buckets + [b])[1..] == buckets[1..] + [b];
      SumsOfAppend(buckets[1..], b);
    }
  }

  /** A key without a delay counts nothing. */
  lemma {:induction false} NoneOf(delays: seq<DelayRow>, keyOf: DelayRow -> string, key: string)
    requires forall d :: d in delays ==> keyOf(d) != key
    ensures CountOf(delays, keyOf, key) == 0 && HoursOf(delays, keyOf, key) == 0
  {
    if delays != [] { NoneOf(delays[..|delays| - 1], keyOf, key); }
  }

  lemma OpenedKeeps(buckets: seq<Bucket>, delays: seq<DelayRow>, keyOf: DelayRow -> string, key: string)
    requires Tallies(buckets, delays, keyOf)
    ensures Tallies(Opened(buckets, key), delays, keyOf)
  {
    if Place(buckets, key) == |buckets| {
      SumsOfAppend(buckets, Bucket(key, 0, 0));
      if HasKey(buckets, key) {
        assert false;
      }
      forall k | 0 <= k < |delays| ensures keyOf(delays[k]) != key && HasKey(Opened(buckets, key), keyOf(delays[k])) {
        assert HasKey(buckets, keyOf(delays[k]));
        var j :| 0 <= j < |buckets| && buckets[j].key == keyOf(delays[k]);
        assert Opened(buckets, key)[j].key == keyOf(delays[k]);
      }
      NoneOf(delays, keyOf, key);
    }
  }

  lemma TallyStep(before: seq<Bucket>, delays: seq<DelayRow>, i: nat, keyOf: DelayRow -> string)
    requires i < |delays| && Tallies(before, delays[..i], keyOf)
    ensures Tallies(Bumped(before, keyOf(delays[i]), delays[i].hours), delays[..i + 1], keyOf)
  {
    var key, d := keyOf(delays[i]), delays[i];
    OpenedKeeps(before, delays[..i], keyOf, key);
    BumpKeeps(Opened(before, key), Place(before, key), delays[..i], d, keyOf);
    assert delays[..i + 1] == delays[..i] + [d];
  }

  lemma BumpKeeps(wide: seq<Bucket>, n: nat, delays: seq<DelayRow>, d: DelayRow, keyOf: DelayRow -> string)
    requires Tallies(wide, delays, keyOf) && n < |wide| && wide[n].key == keyOf(d)
    ensures Tallies(wide[n := Bucket(keyOf(d), wide[n].count + 1, wide[n].hours + d.hours)], delays + [d], keyOf)
  {
    var after := wide[n := Bucket(keyOf(d), wide[n].count + 1, wide[n].hours + d.hours)];
    assert (delays + [d])[..|delays|] == delays;
    SumsOfUpdate(wide, n, after[n]);
    forall k | 0 <= k <= |delays| ensures HasKey(after, keyOf((delays + [d])[k])) {
      if k < |delays| {
        assert HasKey(wide, keyOf(delays[k]));
        var j :| 0 <= j < |wide| && wide[j].key == keyOf(delays[k]);
        assert after[j].key == keyOf(delays[k]);
      } else {
        assert after[n].key == keyOf(d);
      }
    }
  }
}
