/** The all-pairs scan and the automatic merges it leads to. */
module AutoMerge {
  import opened Vessels
  import opened Merging
  import opened Matcher
  import opened Register
  import Normalizer

  // ---------------------------------------------------------------- the scan

  function Ascending(a: nat, b: nat): Pair { if a <= b then (a, b) else (b, a) }

  type Filter = (nat, nat) -> bool

  /** Whether the pair of records survives the blocking filter. */
  function Blocking(calls: map<nat, VesselCall>, ratio: Ratio): Filter {
    (a, b) => a in calls && b in calls && PassesFilter(calls[a], calls[b], ratio)
  }

  predicate Passes(filter: Filter, a: nat, b: nat) { filter(a, b) }

  /** The pair of two records, if the filter lets it through. */
  function Kept(passes: Filter, a: nat, b: nat): seq<Pair> { if Passes(passes, a, b) then [Ascending(a, b)] else [] }

  /** `before`, and then the pairs of record `i` with the later records before `j`. */
  function WithRow(before: seq<Pair>, scan: seq<nat>, i: nat, j: nat, passes: Filter): seq<Pair>
    requires i < |scan| && j <= |scan|
  {
    if j <= i + 1 then before else WithRow(before, scan, i, j - 1, passes) + Kept(passes, scan[i], scan[j - 1])
  }

  /** The candidate pairs of the first `n` rows, in the order the nested loops create them. */
  function AllPairs(scan: seq<nat>, n: nat, passes: Filter): seq<Pair>
    requires n <= |scan|
  {
    if n == 0 then [] else WithRow(AllPairs(scan, n - 1, passes), scan, n - 1, |scan|, passes)
  }

  lemma RowGrows(before: seq<Pair>, scan: seq<nat>, i: nat, j: nat, next: nat, passes: Filter)
    requires i < j < |scan| && next == j + 1
    ensures WithRow(before, scan, i, next, passes)
            == WithRow(before, scan, i, j, passes) + Kept(passes, scan[i], scan[j])
  {
  }

  lemma AllGrows(scan: seq<nat>, n: nat, next: nat, passes: Filter)
    requires n < |scan| && next == n + 1
    ensures AllPairs(scan, next, passes) == WithRow(AllPairs(scan, n, passes), scan, n, |scan|, passes)
  {
  }

  function Proposal(s: Store, p: Pair): Candidate
    requires p.0 in s.calls && p.1 in s.calls
  {
    Candidate(Proposed(Verdict(s.calls[p.0], s.calls[p.1])), Conflict(s.calls[p.0], s.calls[p.1]))
  }

  ghost predicate PairsIn(s: Store, pairs: seq<Pair>) {
    forall k :: 0 <= k < |pairs| ==> pairs[k].0 in s.calls && pairs[k].1 in s.calls && pairs[k].0 < pairs[k].1
  }

  ghost function Propose(s: Store, pairs: seq<Pair>): (t: Store)
    requires PairsIn(s, pairs)
    ensures t == s.(candidates := t.candidates)
  {
    if pairs == [] then s
    else
      var n := |pairs| - 1;
      var t := Propose(s, pairs[..n]);
      AddProposal(t, pairs[n], Proposal(s, pairs[n]))
  }

  predicate Comparable(s: Store, scan: seq<nat>, i: nat, k: nat)
    requires i < |scan| && k < |scan|
  {
    scan[i] in s.calls && scan[k] in s.calls && scan[i] != scan[k]
  }

  /** The store `t` is `s` with a candidate added for each of the pairs in turn. */
  ghost predicate Handled(s: Store, pairs: seq<Pair>, t: Store)
    decreases |pairs|
  {
    && t == s.(candidates := t.candidates)
    && if pairs == [] then t == s
       else
         var n := |pairs| - 1;
         var p := pairs[n];
         p.0 in s.calls && p.1 in s.calls && p.0 < p.1
         && exists u :: Handled(s, pairs[..n], u) && t == AddProposal(u, p, Proposal(s, p))
  }

  lemma {:induction false} HandledIsProposed(s: Store, pairs: seq<Pair>, t: Store)
    requires Handled(s, pairs, t)
    ensures PairsIn(s, pairs) && t == Propose(s, pairs)
    decreases |pairs|
  {
    if pairs != [] {
      var n := |pairs| - 1;
      var u :| Handled(s, pairs[..n], u) && t == AddProposal(u, pairs[n], Proposal(s, pairs[n]));
      HandledIsProposed(s, pairs[..n], u);
      assert forall k :: 0 <= k < n ==> pairs[..n][k] == pairs[k];
    }
  }

  lemma HandledExtends(s: Store, pairs: seq<Pair>, t: Store, p: Pair)
    requires Handled(s, pairs, t) && p.0 in s.calls && p.1 in s.calls && p.0 < p.1
    ensures Handled(s, pairs + [p], AddProposal(t, p, Proposal(s, p)))
  {
    assert (pairs + [p])[..|pairs|] == pairs;
  }

  function AddProposal(t: Store, p: Pair, candidate: Candidate): Store {
    t.(candidates := t.candidates[p := candidate])
  }

  ghost predicate Mergeable(s: Store, p: Pair) {
    p in s.candidates && s.candidates[p].status == Proposed(AutoMerge) && !s.candidates[p].conflict
  }

  /** The merges of the candidates that qualify, in order. */
  ghost function MergeProposed(s: Store, pairs: seq<Pair>): (t: Store)
    requires PairsIn(s, pairs)
    ensures t.calls.Keys == s.calls.Keys
  {
    if pairs == [] then s
    else
      var n := |pairs| - 1;
      var t := MergeProposed(s, pairs[..n]);
      MergeStep(t, pairs[n])
  }

  ghost function MergeStep(s: Store, p: Pair): (t: Store)
    requires p.0 in s.calls && p.1 in s.calls
    ensures t.calls.Keys == s.calls.Keys
    ensures forall id :: id in s.calls <==> id in t.calls
  {
    if Mergeable(s, p) then Merge(s, p, map[]) else s
  }

  ghost function AutoMerged(s: Store, scan: seq<nat>, ratio: Ratio): Store
    requires Scans(s, scan)
  {
    PairsAreOrdered(scan, |scan|, Blocking(s.calls, ratio));
    var pairs := AllPairs(scan, |scan|, Blocking(s.calls, ratio));
    PairsOfScanAreIn(s, scan, pairs);
    MergeProposed(Propose(s, pairs), pairs)
  }

  ghost predicate Distinct(scan: seq<nat>) { forall i, j :: 0 <= i < j < |scan| ==> scan[i] != scan[j] }

  /** `scan` is the result of the query for unmerged calls, in whatever order. */
  ghost predicate Scans(s: Store, scan: seq<nat>) {
    Distinct(scan) && (forall id :: id in scan <==> Active(s, id)) && forall k :: 0 <= k < |scan| ==> scan[k] in s.calls
  }

  ghost predicate Between(scan: seq<nat>, pairs: seq<Pair>) {
    forall k :: 0 <= k < |pairs| ==> pairs[k].0 in scan && pairs[k].1 in scan && pairs[k].0 < pairs[k].1
  }

  lemma PairsOfScanAreIn(s: Store, scan: seq<nat>, pairs: seq<Pair>)
    requires Scans(s, scan) && Between(scan, pairs)
    ensures PairsIn(s, pairs)
  {
    forall k | 0 <= k < |pairs| ensures pairs[k].0 in s.calls && pairs[k].1 in s.calls {
      assert Active(s, pairs[k].0) && Active(s, pairs[k].1);
    }
  }

  lemma {:induction false} RowIsOrdered(before: seq<Pair>, scan: seq<nat>, i: nat, j: nat, passes: Filter)
    requires Distinct(scan) && i < |scan| && j <= |scan| && Between(scan, before)
    ensures Between(scan, WithRow(before, scan, i, j, passes))
  {
    if j > i + 1 { RowIsOrdered(before, scan, i, j - 1, passes); }
  }

  lemma {:induction false} PairsAreOrdered(scan: seq<nat>, n: nat, passes: Filter)
    requires Distinct(scan) && n <= |scan|
    ensures Between(scan, AllPairs(scan, n, passes))
  {
    if n > 0 {
      PairsAreOrdered(scan, n - 1, passes);
      RowIsOrdered(AllPairs(scan, n - 1, passes), scan, n - 1, |scan|, passes);
    }
  }

  lemma {:induction false} RowKeeps(before: seq<Pair>, scan: seq<nat>, i: nat, j: nat, passes: Filter, p: Pair)
    requires i < |scan| && j <= |scan| && p in before
    ensures p in WithRow(before, scan, i, j, passes)
  {
    if j > i + 1 { RowKeeps(before, scan, i, j - 1, passes, p); }
  }

  lemma {:induction false} RowIsComplete(before: seq<Pair>, scan: seq<nat>, i: nat, j: nat, k: nat, passes: Filter)
    requires i < k < j <= |scan| && Passes(passes, scan[i], scan[k])
    ensures Ascending(scan[i], scan[k]) in WithRow(before, scan, i, j, passes)
  {
    if k < j - 1 { RowIsComplete(before, scan, i, j - 1, k, passes); }
  }

  lemma {:induction false} PairsAreComplete(scan: seq<nat>, n: nat, i: nat, k: nat, passes: Filter)
    requires i < n <= |scan| && i < k < |scan| && Passes(passes, scan[i], scan[k])
    ensures Ascending(scan[i], scan[k]) in AllPairs(scan, n, passes)
  {
    var before := AllPairs(scan, n - 1, passes);
    if i == n - 1 {
      RowIsComplete(before, scan, i, |scan|, k, passes);
    } else {
      PairsAreComplete(scan, n - 1, i, k, passes);
      RowKeeps(before, scan, n - 1, |scan|, passes, Ascending(scan[i], scan[k]));
    }
  }

  // ---------------------------------------------------------------- what the scan finds

  /** The same VCN, the same IMO number, or names that are alike. */
  ghost predicate WorthComparing(a: VesselCall, b: VesselCall, ratio: Ratio) {
    || (Trimmed(a, "vcn") == Trimmed(b, "vcn") != "") || (Trimmed(a, "imo_number") == Trimmed(b, "imo_number") != "")
    || Normalizer.Similarity(NameOf(a), NameOf(b), ratio) >= 0.70
  }

  /** The pair of two scanned records, the smaller identifier first. */
  ghost predicate IsPairOf(p: Pair, scan: seq<nat>, i: nat, k: nat) {
    i < k < |scan| && p == if scan[i] < scan[k] then (scan[i], scan[k]) else (scan[k], scan[i])
  }

  ghost predicate Passed(p: Pair, scan: seq<nat>, passes: Filter) {
    exists i: nat, k: nat :: IsPairOf(p, scan, i, k) && Passes(passes, scan[i], scan[k])
  }

  lemma {:induction false} RowPassed(before: seq<Pair>, scan: seq<nat>, i: nat, j: nat, passes: Filter, p: Pair)
    requires Distinct(scan) && i < |scan| && j <= |scan| && p in WithRow(before, scan, i, j, passes)
    ensures p in before || Passed(p, scan, passes)
  {
    if j > i + 1 {
      if p in WithRow(before, scan, i, j - 1, passes) {
        RowPassed(before, scan, i, j - 1, passes, p);
      } else {
        assert IsPairOf(p, scan, i, j - 1) && Passes(passes, scan[i], scan[j - 1]);
      }
    }
  }

  lemma {:induction false} AllPassed(scan: seq<nat>, n: nat, passes: Filter, p: Pair)
    requires Distinct(scan) && n <= |scan| && p in AllPairs(scan, n, passes)
    ensures Passed(p, scan, passes)
  {
    if n > 0 {
      RowPassed(AllPairs(scan, n - 1, passes), scan, n - 1, |scan|, passes, p);
      if p in AllPairs(scan, n - 1, passes) { AllPassed(scan, n - 1, passes, p); }
    }
  }

  /** Every two scanned records are compared, and are a candidate exactly if that is worth it. */
  lemma CandidatesAreWorthComparing(s: Store, scan: seq<nat>, ratio: Ratio, i: nat, k: nat, p: Pair)
    requires Scans(s, scan) && IsPairOf(p, scan, i, k)
    ensures p in AllPairs(scan, |scan|, Blocking(s.calls, ratio))
            <==> WorthComparing(s.calls[scan[i]], s.calls[scan[k]], ratio)
  {
    var passes := Blocking(s.calls, ratio);
    assert Passes(passes, scan[i], scan[k]) <==> WorthComparing(s.calls[scan[i]], s.calls[scan[k]], ratio);
    if p in AllPairs(scan, |scan|, passes) {
      AllPassed(scan, |scan|, passes, p);
      var j: nat, l: nat :| IsPairOf(p, scan, j, l) && Passes(passes, scan[j], scan[l]);
      assert j == i && l == k;
    }
    if Passes(passes, scan[i], scan[k]) { PairsAreComplete(scan, |scan|, i, k, passes); }
  }

  // ---------------------------------------------------------------- the engine

  class IdentityEngine {
    const register: MergeRegister

    constructor (register: MergeRegister)
      ensures this.register == register
    {
      this.register := register;
    }

    /** The blocking filter, then the evaluation, then the candidate row. */
    method Consider(a: nat, b: nat, ratio: Ratio) returns (kept: bool)
      requires a in register.calls && b in register.calls && a != b
      modifies register`candidates
      ensures kept == Passes(Blocking(register.calls, ratio), a, b)
      ensures register.Contents() ==
        if kept then AddProposal(old(register.Contents()), Ascending(a, b),
                                 Proposal(old(register.Contents()), Ascending(a, b)))
        else old(register.Contents())
    {
      kept := PassesFilter(register.calls[a], register.calls[b], ratio);
      if kept {
        var result := EvaluatePair(register.calls[a], register.calls[b], ratio);
        FilterIsSafe(register.calls[a], register.calls[b], ratio);
        var candidate := Candidate(Proposed(result.status), result.conflict);
        register.candidates := register.candidates[Ascending(a, b) := candidate];
      }
    }

    method Extend(a: nat, b: nat, ratio: Ratio, before: seq<Pair>, ghost s: Store, ghost passes: Filter)
      returns (created: seq<Pair>)
      requires a in s.calls && b in s.calls && a != b && passes == Blocking(s.calls, ratio)
      requires Handled(s, before, register.Contents())
      modifies register`candidates
      ensures created == before + Kept(passes, a, b)
      ensures Handled(s, created, register.Contents())
    {
      var kept := Consider(a, b, ratio);
      if kept {
        HandledExtends(s, before, old(register.Contents()), Ascending(a, b));
        created := before + [Ascending(a, b)];
      } else {
        created := before;
      }
    }

    /** The inner loop: one record against all later ones. */
    method ScanRow(scan: seq<nat>, i: nat, ratio: Ratio, before: seq<Pair>, ghost s: Store, ghost passes: Filter)
      returns (created: seq<Pair>)
      requires i < |scan| && forall k :: i < k < |scan| ==> Comparable(s, scan, i, k)
      requires passes == Blocking(s.calls, ratio)
      requires Handled(s, before, register.Contents())
      modifies register`candidates
      ensures created == WithRow(before, scan, i, |scan|, passes)
      ensures Handled(s, created, register.Contents())
    {
      created := before;
      var j := i + 1;
      while j != |scan|
        invariant i < j <= |scan|
        invariant created == WithRow(before, scan, i, j, passes)
        invariant Handled(s, created, register.Contents())
      {
        var next := j + 1;
        created := ScanOne(scan, i, j, next, ratio, before, created, s, passes);
        j := next;
      }
    }

    method ScanOne(scan: seq<nat>, i: nat, j: nat, ghost next: nat, ratio: Ratio, ghost before: seq<Pair>,
                   created: seq<Pair>, ghost s: Store, ghost passes: Filter) returns (more: seq<Pair>)
      requires i < j < |scan| && next == j + 1 && Comparable(s, scan, i, j)
      requires passes == Blocking(s.calls, ratio)
      requires created == WithRow(before, scan, i, j, passes) && Handled(s, created, register.Contents())
      modifies register`candidates
      ensures more == WithRow(before, scan, i, next, passes) && Handled(s, more, register.Contents())
    {
      RowGrows(before, scan, i, j, next, passes);
      more := Extend(scan[i], scan[j], ratio, created, s, passes);
    }

    method GenerateCandidates(scan: seq<nat>, ratio: Ratio) returns (created: seq<Pair>)
      requires Scans(register.Contents(), scan)
      modifies register`candidates
      ensures created == AllPairs(scan, |scan|, Blocking(register.calls, ratio))
      ensures PairsIn(old(register.Contents()), created)
      ensures register.Contents() == Propose(old(register.Contents()), created)
    {
      created := [];
      ghost var s := register.Contents();
      ghost var passes := Blocking(s.calls, ratio);
      var i := 0;
      while i != |scan|
        invariant 0 <= i <= |scan|
        invariant created == AllPairs(scan, i, passes)
        invariant Handled(s, created, register.Contents())
      {
        var next := i + 1;
        AllGrows(scan, i, next, passes);
        assert forall k :: i < k < |scan| ==> Comparable(s, scan, i, k);
        created := ScanRow(scan, i, ratio, created, s, passes);
        i := next;
      }
      HandledIsProposed(s, created, register.Contents());
    }

    method MergeOne(p: Pair)
      requires p in register.candidates && p.0 in register.calls && p.1 in register.calls && p.0 < p.1
      requires MergeForest.KeysUnique(register.events)
      modifies register
      ensures register.Contents() == MergeStep(old(register.Contents()), p)
      ensures MergeForest.KeysUnique(register.events)
    {
      var candidate := register.candidates[p];
      if candidate.status == Proposed(AutoMerge) && !candidate.conflict {
        ghost var before := register.Contents();
        var decision := register.ExecuteMerge(p, false, map[]);
        MergeForest.MergeHasEffect(before, p, map[]);
        MergeForest.MergeKeepsKeys(before, register.Contents(), SurvivorOf(before, p), MergedOf(before, p));
      }
    }

    method AutoMergeCandidates(scan: seq<nat>, ratio: Ratio)
      requires Scans(register.Contents(), scan) && MergeForest.KeysUnique(register.events)
      modifies register
      ensures register.Contents() == AutoMerged(old(register.Contents()), scan, ratio)
    {
      var pairs := GenerateCandidates(scan, ratio);
      ProposedAreThere(old(register.Contents()), pairs);
      MergeAll(pairs);
    }

    /** The loop over the candidates that the scan created. */
    method MergeAll(pairs: seq<Pair>)
      requires PairsIn(register.Contents(), pairs) && MergeForest.KeysUnique(register.events)
      requires forall k :: 0 <= k < |pairs| ==> pairs[k] in register.candidates
      modifies register
      ensures register.Contents() == MergeProposed(old(register.Contents()), pairs)
    {
      ghost var s := register.Contents();
      for i := 0 to |pairs|
        invariant register.Contents() == MergeProposed(s, pairs[..i]) && MergeForest.KeysUnique(register.events)
        invariant register.candidates.Keys == s.candidates.Keys && register.calls.Keys == s.calls.Keys
      {
        assert pairs[..i + 1][..i] == pairs[..i];
        MergeOne(pairs[i]);
      }
      assert pairs[..|pairs|] == pairs;
    }
  }

  lemma {:induction false} ProposedAreThere(s: Store, pairs: seq<Pair>)
    requires PairsIn(s, pairs)
    ensures var t := Propose(s, pairs);
            t.calls == s.calls && t.events == s.events && PairsIn(t, pairs)
            && forall k :: 0 <= k < |pairs| ==>
              pairs[k] in t.candidates && t.candidates[pairs[k]] == Proposal(s, pairs[k])
  {
    if pairs != [] {
      var n := |pairs| - 1;
      ProposedAreThere(s, pairs[..n]);
      forall k | 0 <= k < n
        ensures pairs[k] in Propose(s, pairs).candidates
        ensures Propose(s, pairs).candidates[pairs[k]] == Proposal(s, pairs[k])
      {
        assert pairs[..n][k] == pairs[k];
      }
    }
  }
}
