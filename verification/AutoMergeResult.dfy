/** What automatic merging leaves behind when calls that share a VCN agree. */
module AutoMergeResult {
  import opened Wrappers
  import opened Vessels
  import opened Survivorship
  import opened Merging
  import opened Matcher
  import opened AutoMerge
  import MergeForest

  ghost function Vcn(s: Store, id: nat): string
    requires id in s.calls
  {
    Trimmed(s.calls[id], "vcn")
  }

  /** Every scanned call has a VCN, and those sharing it agree on all comparable columns. */
  ghost predicate Consistent(s: Store, scan: seq<nat>) {
    && Scans(s, scan)
    && (forall id :: id in scan ==> Vcn(s, id) != "" && s.calls[id].mergedInto.None?)
    && (forall a, b :: a in scan && b in scan && Vcn(s, a) == Vcn(s, b) ==> Agree(s.calls[a], s.calls[b]))
  }

  lemma AgreeOn(v1: VesselCall, v2: VesselCall)
    requires Agree(v1, v2)
    ensures Column(v1, "vcn") == Column(v2, "vcn") && Column(v1, "imo_number") == Column(v2, "imo_number")
    ensures NameOf(v1) == NameOf(v2)
  {
    assert COMPARABLE[0].0 == "vessel_name" && COMPARABLE[1].0 == "imo_number" && COMPARABLE[2].0 == "vcn";
  }

  /** In a consistent scan a pair qualifies for merging exactly when it shares its VCN. */
  lemma QualifiesIffSameVcn(s: Store, scan: seq<nat>, a: nat, b: nat)
    requires Consistent(s, scan) && a in scan && b in scan
    ensures Proposal(s, (a, b)) == Candidate(Proposed(Matcher.AutoMerge), false) <==> Vcn(s, a) == Vcn(s, b)
    ensures Vcn(s, a) == Vcn(s, b) ==> SharesKey(s.calls[a], s.calls[b])
  {
    if Vcn(s, a) == Vcn(s, b) { AgreeOn(s.calls[a], s.calls[b]); }
  }

  // ---------------------------------------------------------------- progress of the merge loop

  ghost predicate SameRecord(now: VesselCall, before: VesselCall) { Agree(now, before) }

  ghost predicate MergedBy(s: Store, pairs: seq<Pair>, n: nat, id: nat)
    requires PairsIn(s, pairs) && n <= |pairs|
  {
    exists k :: 0 <= k < n && pairs[k].1 == id && Vcn(s, pairs[k].0) == Vcn(s, id)
  }

  ghost predicate Known(s: Store, scan: seq<nat>) { forall id :: id in scan ==> id in s.calls }

  ghost predicate PointsDown(s: Store, scan: seq<nat>, t: Store, id: nat)
    requires id in t.calls && id in s.calls && Known(s, scan)
  {
    match t.calls[id].mergedInto
    case None => !t.calls[id].merged
    case Some(x) => t.calls[id].merged && x < id && x in scan && Vcn(s, x) == Vcn(s, id)
  }

  ghost predicate CallFits(s: Store, scan: seq<nat>, pairs: seq<Pair>, n: nat, t: Store, id: nat)
    requires Known(s, scan) && PairsIn(s, pairs) && n <= |pairs| && id in s.calls && id in t.calls
  {
    && SameRecord(t.calls[id], s.calls[id])
    && (t.calls[id].merged <==> MergedBy(s, pairs, n, id))
    && PointsDown(s, scan, t, id)
  }

  /** The store once the first `n` candidate pairs have been handled. */
  ghost predicate Progress(s: Store, scan: seq<nat>, pairs: seq<Pair>, n: nat, t: Store)
    requires Known(s, scan) && PairsIn(s, pairs) && n <= |pairs|
  {
    && t.calls.Keys == s.calls.Keys
    && (forall id :: id in scan ==> CallFits(s, scan, pairs, n, t, id))
    && (forall id :: id in s.calls && id !in scan ==> t.calls[id] == s.calls[id])
    && (forall k :: 0 <= k < |pairs| ==> CandidateFits(s, pairs, n, t, pairs[k]))
  }

  /** A candidate is as proposed until it is merged. */
  ghost predicate CandidateFits(s: Store, pairs: seq<Pair>, n: nat, t: Store, p: Pair)
    requires PairsIn(s, pairs) && n <= |pairs| && p.0 in s.calls && p.1 in s.calls
  {
    && p in t.candidates
    && (t.candidates[p] == Proposal(s, p)
        || (t.candidates[p].status.WasMerged? && Vcn(s, p.0) == Vcn(s, p.1) && MergedBy(s, pairs, n, p.1)))
  }

  /** The smaller id of the pair survives, and no comparable column changes. */
  ghost predicate DownwardMerge(t: Store, p: Pair, u: Store) {
    && p in t.candidates && p.0 in t.calls && p.1 in t.calls && u.calls.Keys == t.calls.Keys
    && SameRecord(u.calls[p.0], t.calls[p.0]) && SameRecord(u.calls[p.1], t.calls[p.1])
    && u.calls[p.0].merged == t.calls[p.0].merged && u.calls[p.0].mergedInto == t.calls[p.0].mergedInto
    && u.calls[p.1].merged && u.calls[p.1].mergedInto == Some(p.0)
    && (forall id :: id in t.calls && id != p.0 && id != p.1 ==> u.calls[id] == t.calls[id])
    && u.candidates == t.candidates[p := t.candidates[p].(status := WasMerged)]
  }

  lemma MergeOfAgreeing(t: Store, p: Pair)
    requires p in t.candidates && p.0 in t.calls && p.1 in t.calls && p.0 < p.1 && Agree(t.calls[p.0], t.calls[p.1])
    ensures DownwardMerge(t, p, Merge(t, p, map[]))
  {
    var u := Merge(t, p, map[]);
    AgreeingKeepTheFirst(t.calls[p.0], t.calls[p.1], "vcn");
    var consolidated := Consolidated(t.calls[p.0], t.calls[p.1]);
    assert consolidated + map[] == consolidated;
    forall i | 0 <= i < |COMPARABLE|
      ensures Column(u.calls[p.0], COMPARABLE[i].0) == Column(t.calls[p.0], COMPARABLE[i].0)
    {
      AgreeingKeepTheFirst(t.calls[p.0], t.calls[p.1], COMPARABLE[i].0);
    }
  }

  lemma MergedByGrows(s: Store, pairs: seq<Pair>, n: nat, id: nat)
    requires PairsIn(s, pairs) && n < |pairs| && id in s.calls
    ensures MergedBy(s, pairs, n + 1, id) <==>
              MergedBy(s, pairs, n, id) || (pairs[n].1 == id && Vcn(s, pairs[n].0) == Vcn(s, id))
  {
  }

  lemma CallsProgress(s: Store, scan: seq<nat>, pairs: seq<Pair>, n: nat, t: Store, u: Store, id: nat)
    requires Known(s, scan) && PairsIn(s, pairs) && n < |pairs| && Between(scan, pairs)
    requires Progress(s, scan, pairs, n, t) && Vcn(s, pairs[n].0) == Vcn(s, pairs[n].1)
    requires DownwardMerge(t, pairs[n], u) && id in scan
    ensures CallFits(s, scan, pairs, n + 1, u, id)
  {
    MergedByGrows(s, pairs, n, id);
    assert CallFits(s, scan, pairs, n, t, id);
  }

  lemma CandidatesProgress(s: Store, scan: seq<nat>, pairs: seq<Pair>, n: nat, t: Store, u: Store, k: nat)
    requires Known(s, scan) && PairsIn(s, pairs) && n < |pairs| && k < |pairs|
    requires Progress(s, scan, pairs, n, t) && Vcn(s, pairs[n].0) == Vcn(s, pairs[n].1)
    requires DownwardMerge(t, pairs[n], u)
    ensures CandidateFits(s, pairs, n + 1, u, pairs[k])
  {
    assert CandidateFits(s, pairs, n, t, pairs[k]);
    MergedByGrows(s, pairs, n, pairs[k].1);
  }

  lemma AllCallsProgress(s: Store, scan: seq<nat>, pairs: seq<Pair>, n: nat, t: Store, u: Store)
    requires Known(s, scan) && PairsIn(s, pairs) && n < |pairs| && Between(scan, pairs)
    requires Progress(s, scan, pairs, n, t) && Vcn(s, pairs[n].0) == Vcn(s, pairs[n].1)
    requires DownwardMerge(t, pairs[n], u)
    ensures forall id :: id in scan ==> CallFits(s, scan, pairs, n + 1, u, id)
  {
    forall id | id in scan ensures CallFits(s, scan, pairs, n + 1, u, id) {
      CallsProgress(s, scan, pairs, n, t, u, id);
    }
  }

  lemma OthersStay(s: Store, scan: seq<nat>, pairs: seq<Pair>, n: nat, t: Store, u: Store)
    requires Known(s, scan) && PairsIn(s, pairs) && n < |pairs| && Between(scan, pairs)
    requires Progress(s, scan, pairs, n, t) && DownwardMerge(t, pairs[n], u)
    ensures u.calls.Keys == s.calls.Keys
    ensures forall id :: id in s.calls && id !in scan ==> u.calls[id] == s.calls[id]
  {
    assert pairs[n].0 in scan && pairs[n].1 in scan;
  }

  lemma ProgressByMerge(s: Store, scan: seq<nat>, pairs: seq<Pair>, n: nat, t: Store, u: Store)
    requires Known(s, scan) && PairsIn(s, pairs) && n < |pairs| && Between(scan, pairs)
    requires Progress(s, scan, pairs, n, t) && Vcn(s, pairs[n].0) == Vcn(s, pairs[n].1)
    requires DownwardMerge(t, pairs[n], u)
    ensures Progress(s, scan, pairs, n + 1, u)
  {
    AllCallsProgress(s, scan, pairs, n, t, u);
    OthersStay(s, scan, pairs, n, t, u);
    forall k | 0 <= k < |pairs| ensures CandidateFits(s, pairs, n + 1, u, pairs[k]) {
      CandidatesProgress(s, scan, pairs, n, t, u, k);
    }
  }

  lemma ProgressBySkip(s: Store, scan: seq<nat>, pairs: seq<Pair>, n: nat, t: Store)
    requires Known(s, scan) && PairsIn(s, pairs) && n < |pairs| && Between(scan, pairs)
    requires Progress(s, scan, pairs, n, t)
    requires Vcn(s, pairs[n].0) == Vcn(s, pairs[n].1) ==> MergedBy(s, pairs, n, pairs[n].1)
    ensures Progress(s, scan, pairs, n + 1, t)
  {
    forall id | id in s.calls ensures MergedBy(s, pairs, n + 1, id) <==> MergedBy(s, pairs, n, id) {
      MergedByGrows(s, pairs, n, id);
    }
    forall id | id in scan ensures CallFits(s, scan, pairs, n + 1, t, id) {
      assert CallFits(s, scan, pairs, n, t, id);
    }
    forall k | 0 <= k < |pairs| ensures CandidateFits(s, pairs, n + 1, t, pairs[k]) {
      assert CandidateFits(s, pairs, n, t, pairs[k]);
    }
  }

  lemma ProgressByStep(s: Store, scan: seq<nat>, pairs: seq<Pair>, n: nat, t: Store)
    requires Consistent(s, scan) && PairsIn(s, pairs) && n < |pairs| && Between(scan, pairs)
    requires Progress(s, scan, pairs, n, t)
    ensures Progress(s, scan, pairs, n + 1, MergeStep(t, pairs[n]))
  {
    var p := pairs[n];
    assert CandidateFits(s, pairs, n, t, p);
    QualifiesIffSameVcn(s, scan, p.0, p.1);
    assert (p.0, p.1) == p;
    if Mergeable(t, p) {
      assert CallFits(s, scan, pairs, n, t, p.0) && CallFits(s, scan, pairs, n, t, p.1);
      MergeOfAgreeing(t, p);
      ProgressByMerge(s, scan, pairs, n, t, MergeStep(t, p));
    } else {
      ProgressBySkip(s, scan, pairs, n, t);
    }
  }

  lemma ProgressStarts(s: Store, scan: seq<nat>, pairs: seq<Pair>)
    requires Consistent(s, scan) && PairsIn(s, pairs)
    ensures Progress(s, scan, pairs, 0, Propose(s, pairs))
  {
    ProposedAreThere(s, pairs);
  }

  lemma {:induction false} ProgressHolds(s: Store, scan: seq<nat>, pairs: seq<Pair>, n: nat)
    requires Consistent(s, scan) && PairsIn(s, pairs) && n <= |pairs| && Between(scan, pairs)
    ensures PairsIn(Propose(s, pairs), pairs[..n])
    ensures Progress(s, scan, pairs, n, MergeProposed(Propose(s, pairs), pairs[..n]))
  {
    if n == 0 {
      ProgressStarts(s, scan, pairs);
      assert pairs[..0] == [];
    } else {
      ProgressHolds(s, scan, pairs, n - 1);
      ProgressByStep(s, scan, pairs, n - 1, MergeProposed(Propose(s, pairs), pairs[..n - 1]));
      MergeProposedStep(Propose(s, pairs), pairs, n - 1);
    }
  }

  lemma MergeProposedStep(s: Store, pairs: seq<Pair>, n: nat)
    requires PairsIn(s, pairs) && n < |pairs|
    ensures PairsIn(s, pairs[..n]) && PairsIn(s, pairs[..n + 1])
    ensures MergeProposed(s, pairs[..n + 1]) == MergeStep(MergeProposed(s, pairs[..n]), pairs[n])
  {
    assert pairs[..n + 1][..n] == pairs[..n];
  }

  // ---------------------------------------------------------------- the result

  /** The smallest scanned id with its VCN. */
  ghost predicate Leads(s: Store, scan: seq<nat>, id: nat)
    requires Scans(s, scan) && id in scan
  {
    forall x :: x in scan && Vcn(s, x) == Vcn(s, id) ==> id <= x
  }

  lemma SharersPass(s: Store, scan: seq<nat>, ratio: Ratio, a: nat, b: nat)
    requires Consistent(s, scan) && a in scan && b in scan && Vcn(s, a) == Vcn(s, b)
    ensures Passes(Blocking(s.calls, ratio), a, b)
  {
    QualifiesIffSameVcn(s, scan, a, b);
  }

  lemma PairIsCreated(scan: seq<nat>, passes: Filter, x: nat, id: nat)
    requires x in scan && id in scan && x < id && Passes(passes, x, id) && Passes(passes, id, x)
    ensures (x, id) in AllPairs(scan, |scan|, passes)
  {
    var i :| 0 <= i < |scan| && scan[i] == x;
    var k :| 0 <= k < |scan| && scan[k] == id;
    if i < k { PairsAreComplete(scan, |scan|, i, k, passes); } else { PairsAreComplete(scan, |scan|, k, i, passes); }
  }

  lemma MergedByIffNotLeading(s: Store, scan: seq<nat>, pairs: seq<Pair>, id: nat)
    requires Scans(s, scan) && id in scan && PairsIn(s, pairs) && Between(scan, pairs)
    requires forall x :: x in scan && x < id && Vcn(s, x) == Vcn(s, id) ==> (x, id) in pairs
    ensures MergedBy(s, pairs, |pairs|, id) <==> !Leads(s, scan, id)
  {
    if !Leads(s, scan, id) {
      var x :| x in scan && Vcn(s, x) == Vcn(s, id) && x < id;
      var q :| 0 <= q < |pairs| && pairs[q] == (x, id);
      assert pairs[q].1 == id && Vcn(s, pairs[q].0) == Vcn(s, id);
    }
  }

  lemma ActiveIffLeading(s: Store, scan: seq<nat>, ratio: Ratio, pairs: seq<Pair>, t: Store, id: nat)
    requires Consistent(s, scan) && pairs == AllPairs(scan, |scan|, Blocking(s.calls, ratio))
    requires PairsIn(s, pairs) && Between(scan, pairs) && Progress(s, scan, pairs, |pairs|, t) && id in scan
    ensures Active(t, id) <==> Leads(s, scan, id)
  {
    forall x | x in scan && x < id && Vcn(s, x) == Vcn(s, id) ensures (x, id) in pairs {
      SharersPass(s, scan, ratio, x, id);
      SharersPass(s, scan, ratio, id, x);
      PairIsCreated(scan, Blocking(s.calls, ratio), x, id);
    }
    MergedByIffNotLeading(s, scan, pairs, id);
  }

  /** For any scan order and cluster size: exactly the smallest id of each VCN stays active, and
      every pointer leads to a strictly smaller id with the same VCN. */
  lemma OneActivePerVcn(s: Store, scan: seq<nat>, ratio: Ratio)
    requires Consistent(s, scan)
    ensures var t := AutoMerged(s, scan, ratio);
            && t.calls.Keys == s.calls.Keys
            && (forall id :: id in s.calls ==> (Active(t, id) <==> id in scan && Leads(s, scan, id)))
            && (forall id :: id in scan ==> PointsDown(s, scan, t, id))
  {
    var pairs := AllPairs(scan, |scan|, Blocking(s.calls, ratio));
    PairsAreOrdered(scan, |scan|, Blocking(s.calls, ratio));
    PairsOfScanAreIn(s, scan, pairs);
    ProgressHolds(s, scan, pairs, |pairs|);
    assert pairs[..|pairs|] == pairs;
    var t := AutoMerged(s, scan, ratio);
    assert Progress(s, scan, pairs, |pairs|, t);
    forall id | id in s.calls ensures Active(t, id) <==> id in scan && Leads(s, scan, id) {
      if id in scan { ActiveIffLeading(s, scan, ratio, pairs, t, id); }
    }
  }

  ghost function Vcns(s: Store, scan: seq<nat>): set<string>
    requires Scans(s, scan)
  {
    set id | id in scan :: Vcn(s, id)
  }

  /** The population count is the number of distinct VCNs. */
  lemma PopulationIsDistinctVcns(s: Store, scan: seq<nat>, ratio: Ratio)
    requires Consistent(s, scan)
    ensures |MergeForest.Population(AutoMerged(s, scan, ratio))| == |Vcns(s, scan)|
  {
    OneActivePerVcn(s, scan, ratio);
    var leaders := MergeForest.Population(AutoMerged(s, scan, ratio));
    forall v | v in Vcns(s, scan) ensures exists id :: id in leaders && Vcn(s, id) == v {
      var x :| x in scan && Vcn(s, x) == v;
      var id := LeaderOf(s, scan, x);
      assert id in leaders;
    }
    SizeOfImage(s, leaders, Vcns(s, scan));
  }

  lemma {:induction false} LeaderOf(s: Store, scan: seq<nat>, x: nat) returns (id: nat)
    requires Scans(s, scan) && x in scan
    ensures id in scan && Vcn(s, id) == Vcn(s, x) && Leads(s, scan, id)
    decreases x
  {
    if Leads(s, scan, x) {
      id := x;
    } else {
      var y :| y in scan && Vcn(s, y) == Vcn(s, x) && y < x;
      id := LeaderOf(s, scan, y);
    }
  }

  lemma {:induction false} SizeOfImage(s: Store, ids: set<nat>, image: set<string>)
    requires forall id :: id in ids ==> id in s.calls && Vcn(s, id) in image
    requires forall v :: v in image ==> exists id :: id in ids && Vcn(s, id) == v
    requires forall a, b :: a in ids && b in ids && Vcn(s, a) == Vcn(s, b) ==> a == b
    ensures |ids| == |image|
    decreases ids
  {
    if ids == {} {
      assert forall v :: v !in image;
    } else {
      var id :| id in ids;
      forall v | v in image - {Vcn(s, id)} ensures exists x :: x in ids - {id} && Vcn(s, x) == v {
        var x :| x in ids && Vcn(s, x) == v;
        assert x in ids - {id};
      }
      SizeOfImage(s, ids - {id}, image - {Vcn(s, id)});
    }
  }

  // ---------------------------------------------------------------- the merge of a qualifying pair

  /** The first merge of a qualifying pair, as the loop performs it. */
  lemma QualifiedStep(s: Store, scan: seq<nat>, t: Store, p: Pair)
    requires Consistent(s, scan) && p.0 in scan && p.1 in scan && p.0 < p.1 && Vcn(s, p.0) == Vcn(s, p.1)
    requires t.calls.Keys == s.calls.Keys && SameRecord(t.calls[p.0], s.calls[p.0])
    requires SameRecord(t.calls[p.1], s.calls[p.1])
    requires p in t.candidates && t.candidates[p] == Proposal(s, p)
    ensures MergeStep(t, p) == Merge(t, p, map[]) && SurvivorOf(t, p) == p.0 && MergedOf(t, p) == p.1
    ensures DownwardMerge(t, p, MergeStep(t, p))
  {
    QualifiesIffSameVcn(s, scan, p.0, p.1);
    assert (p.0, p.1) == p;
    MergeOfAgreeing(t, p);
    AgreeingKeepTheFirst(t.calls[p.0], t.calls[p.1], "vcn");
  }
}
