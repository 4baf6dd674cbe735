/** Which scans automatic merging can be given without leaving a child with a record that is merged away. */
module Stranding {
  import opened Vessels
  import opened Merging
  import opened Matcher
  import opened AutoMerge
  import opened AutoMergeResult
  import opened ScanOrder

  ghost function LabelsOf(calls: map<nat, VesselCall>): Labels {
    id => if id in calls then Trimmed(calls[id], "vcn") else ""
  }

  ghost function VcnOf(s: Store): Labels { LabelsOf(s.calls) }

  // ---- No pair comes twice

  ghost predicate NoneTwice(pairs: seq<Pair>) { forall j, k :: 0 <= j < k < |pairs| ==> pairs[j] != pairs[k] }

  ghost predicate FromRows(scan: seq<nat>, n: nat, p: Pair) {
    exists i, k :: 0 <= i < n && i < k < |scan| && p == Ascending(scan[i], scan[k])
  }

  lemma AscendingDiffers(scan: seq<nat>, i: nat, k: nat, i': nat, k': nat)
    requires Distinct(scan) && i < k < |scan| && i' < k' < |scan| && (i, k) != (i', k')
    ensures Ascending(scan[i], scan[k]) != Ascending(scan[i'], scan[k'])
  {
  }

  ghost predicate InRow(scan: seq<nat>, i: nat, j: nat, p: Pair)
    requires i < |scan| && j <= |scan|
  {
    exists k :: i < k < j && p == Ascending(scan[i], scan[k])
  }

  lemma ComesFirst(scan: seq<nat>, i: nat, j: nat, p: Pair)
    requires Distinct(scan) && i < j < |scan| && (FromRows(scan, i, p) || InRow(scan, i, j, p))
    ensures p != Ascending(scan[i], scan[j])
  {
    if FromRows(scan, i, p) {
      var h, k :| 0 <= h < i && h < k < |scan| && p == Ascending(scan[h], scan[k]);
      AscendingDiffers(scan, h, k, i, j);
    } else {
      var k :| i < k < j && p == Ascending(scan[i], scan[k]);
      AscendingDiffers(scan, i, k, i, j);
    }
  }

  lemma OnceMore(pairs: seq<Pair>, p: Pair)
    requires NoneTwice(pairs) && p !in pairs
    ensures NoneTwice(pairs + [p])
  {
  }

  lemma {:induction false} RowComesOnce(before: seq<Pair>, scan: seq<nat>, i: nat, j: nat, passes: Filter)
    requires Distinct(scan) && i < |scan| && j <= |scan| && NoneTwice(before)
    requires forall p :: p in before ==> FromRows(scan, i, p)
    ensures NoneTwice(WithRow(before, scan, i, j, passes))
    ensures forall p :: p in WithRow(before, scan, i, j, passes) ==> FromRows(scan, i, p) || InRow(scan, i, j, p)
  {
    if j > i + 1 {
      RowComesOnce(before, scan, i, j - 1, passes);
      var row, last := WithRow(before, scan, i, j - 1, passes), Ascending(scan[i], scan[j - 1]);
      assert InRow(scan, i, j, last);
      forall p | p in row ensures p != last && (FromRows(scan, i, p) || InRow(scan, i, j, p)) {
        ComesFirst(scan, i, j - 1, p);
      }
      OnceMore(row, last);
      assert row + [] == row;
    }
  }

  lemma {:induction false} PairsComeOnce(scan: seq<nat>, n: nat, passes: Filter)
    requires Distinct(scan) && n <= |scan|
    ensures NoneTwice(AllPairs(scan, n, passes)) && forall p :: p in AllPairs(scan, n, passes) ==> FromRows(scan, n, p)
  {
    if n > 0 {
      PairsComeOnce(scan, n - 1, passes);
      var before, i := AllPairs(scan, n - 1, passes), n - 1;
      RowComesOnce(before, scan, i, |scan|, passes);
      forall p | p in AllPairs(scan, n, passes) ensures FromRows(scan, n, p) {
        if FromRows(scan, i, p) {
          var j, k :| 0 <= j < i && j < k < |scan| && p == Ascending(scan[j], scan[k]);
        }
      }
    }
  }

  // ---- The children along the merges

  /** Every child is where the pairs have moved it; an event may also be gone. */
  ghost predicate ChildrenAt(s: Store, t: Store, pairs: seq<Pair>) {
    && t.services.Keys == s.services.Keys && t.delays.Keys == s.delays.Keys && t.events.Keys <= s.events.Keys
    && (forall c :: c in s.services ==> t.services[c] == Moved(VcnOf(s), s.services[c], pairs))
    && (forall c :: c in s.delays ==> t.delays[c] == Moved(VcnOf(s), s.delays[c], pairs))
    && (forall e :: e in t.events ==> t.events[e].call == Moved(VcnOf(s), s.events[e].call, pairs))
  }

  ghost predicate Waiting(s: Store, pairs: seq<Pair>, n: nat, t: Store)
    requires PairsIn(s, pairs)
  {
    forall k :: n <= k < |pairs| ==> pairs[k] in t.candidates && t.candidates[pairs[k]] == Proposal(s, pairs[k])
  }

  ghost predicate MovedAlong(s: Store, pairs: seq<Pair>, n: nat, t: Store)
    requires PairsIn(s, pairs) && n <= |pairs|
  {
    ChildrenAt(s, t, pairs[..n]) && Waiting(s, pairs, n, t)
  }

  lemma MergedStepMoves(s: Store, t: Store, u: Store, pairs: seq<Pair>, p: Pair)
    requires ChildrenAt(s, t, pairs) && MergeForest.MergeEffect(t, u, p.0, p.1) && VcnOf(s)(p.0) == VcnOf(s)(p.1)
    ensures ChildrenAt(s, u, pairs + [p])
  {
    forall o ensures Moved(VcnOf(s), o, pairs + [p]) == MoveOne(VcnOf(s), Moved(VcnOf(s), o, pairs), p) {
      MovedByOneMore(VcnOf(s), o, pairs, p);
    }
  }

  lemma SkippedStepMoves(s: Store, t: Store, pairs: seq<Pair>, p: Pair)
    requires ChildrenAt(s, t, pairs) && VcnOf(s)(p.0) != VcnOf(s)(p.1)
    ensures ChildrenAt(s, t, pairs + [p])
  {
    forall o ensures Moved(VcnOf(s), o, pairs + [p]) == MoveOne(VcnOf(s), Moved(VcnOf(s), o, pairs), p) {
      MovedByOneMore(VcnOf(s), o, pairs, p);
    }
  }

  lemma StepMoves(s: Store, scan: seq<nat>, pairs: seq<Pair>, n: nat, next: nat, t: Store)
    requires Consistent(s, scan) && PairsIn(s, pairs) && n < |pairs| && next == n + 1 && Between(scan, pairs)
    requires NoneTwice(pairs)
    requires Progress(s, scan, pairs, n, t) && MovedAlong(s, pairs, n, t)
    ensures ChildrenAt(s, MergeStep(t, pairs[n]), pairs[..n] + [pairs[n]])
    ensures Waiting(s, pairs, next, MergeStep(t, pairs[n]))
  {
    var p := pairs[n];
    if Vcn(s, p.0) == Vcn(s, p.1) {
      assert CallFits(s, scan, pairs, n, t, p.0) && CallFits(s, scan, pairs, n, t, p.1);
      QualifiedStep(s, scan, t, p);
      MergeForest.MergeHasEffect(t, p, map[]);
      MergedStepMoves(s, t, MergeStep(t, p), pairs[..n], p);
    } else {
      QualifiesIffSameVcn(s, scan, p.0, p.1);
      assert (p.0, p.1) == p;
      SkippedStepMoves(s, t, pairs[..n], p);
    }
  }

  lemma TakenOneMore(s: Store, pairs: seq<Pair>, n: nat, next: nat, u: Store)
    requires PairsIn(s, pairs) && n < |pairs| && next == n + 1
    requires ChildrenAt(s, u, pairs[..n] + [pairs[n]]) && Waiting(s, pairs, next, u)
    ensures MovedAlong(s, pairs, next, u)
  {
    assert pairs[..next] == pairs[..n] + [pairs[n]];
  }

  lemma {:induction false} ChildrenMove(s: Store, scan: seq<nat>, pairs: seq<Pair>, n: nat)
    requires Consistent(s, scan) && PairsIn(s, pairs) && n <= |pairs| && Between(scan, pairs) && NoneTwice(pairs)
    ensures PairsIn(Propose(s, pairs), pairs[..n])
    ensures MovedAlong(s, pairs, n, MergeProposed(Propose(s, pairs), pairs[..n]))
  {
    if n == 0 {
      ProposedAreThere(s, pairs);
      assert pairs[..0] == [];
    } else {
      var prior := n - 1;
      ChildrenMove(s, scan, pairs, prior);
      ProgressHolds(s, scan, pairs, prior);
      var t := MergeProposed(Propose(s, pairs), pairs[..prior]);
      StepMoves(s, scan, pairs, prior, n, t);
      TakenOneMore(s, pairs, prior, n, MergeStep(t, pairs[prior]));
      MergeProposedStep(Propose(s, pairs), pairs, prior);
    }
  }

  /** Where automatic merging leaves the child of a scanned record. */
  ghost function HomeOf(s: Store, scan: seq<nat>, o: nat): nat { AlongRows(VcnOf(s), scan, |scan|, o) }

  ghost predicate ChildrenHome(s: Store, t: Store, scan: seq<nat>) {
    && t.services.Keys == s.services.Keys && t.delays.Keys == s.delays.Keys && t.events.Keys <= s.events.Keys
    && (forall c :: c in s.services ==> t.services[c] == HomeOf(s, scan, s.services[c]))
    && (forall c :: c in s.delays ==> t.delays[c] == HomeOf(s, scan, s.delays[c]))
    && (forall e :: e in t.events ==> t.events[e].call == HomeOf(s, scan, s.events[e].call))
  }

  lemma AutoMergeMoves(s: Store, scan: seq<nat>, ratio: Ratio)
    requires Consistent(s, scan)
    ensures ChildrenHome(s, AutoMerged(s, scan, ratio), scan)
  {
    var passes := Blocking(s.calls, ratio);
    var pairs := AllPairs(scan, |scan|, passes);
    PairsAreOrdered(scan, |scan|, passes);
    PairsOfScanAreIn(s, scan, pairs);
    PairsComeOnce(scan, |scan|, passes);
    ProposedAreThere(s, pairs);
    ChildrenMove(s, scan, pairs, |pairs|);
    assert pairs[..|pairs|] == pairs;
    KinPass(s, scan, ratio);
    forall o ensures Moved(VcnOf(s), o, pairs) == HomeOf(s, scan, o) { RowsMove(VcnOf(s), scan, |scan|, passes, o); }
  }

  lemma KinPass(s: Store, scan: seq<nat>, ratio: Ratio)
    requires Consistent(s, scan)
    ensures LetsKinPass(VcnOf(s), scan, Blocking(s.calls, ratio))
  {
    forall i, k | 0 <= i < k < |scan| && VcnOf(s)(scan[i]) == VcnOf(s)(scan[k])
      ensures Passes(Blocking(s.calls, ratio), scan[i], scan[k])
    {
      SharersPass(s, scan, ratio, scan[i], scan[k]);
    }
  }

  // ---- The result

  lemma SmallestLeads(s: Store, scan: seq<nat>, q: nat)
    requires Consistent(s, scan) && q < |scan|
    ensures SmallestAt(VcnOf(s), scan, q) <==> Leads(s, scan, scan[q])
  {
    var vcn := VcnOf(s);
    if SmallestAt(vcn, scan, q) {
      forall x | x in scan && Vcn(s, x) == Vcn(s, scan[q]) ensures scan[q] <= x {
        var k :| 0 <= k < |scan| && scan[k] == x;
        assert Kin(vcn, scan, q, k);
      }
    }
  }

  lemma {:induction false} LastOf(vcn: Labels, scan: seq<nat>, k: nat) returns (p: nat)
    requires k < |scan|
    ensures k <= p < |scan| && Kin(vcn, scan, k, p) && LastAt(vcn, scan, p)
    decreases |scan| - k
  {
    if j :| k < j < |scan| && Kin(vcn, scan, k, j) { p := LastOf(vcn, scan, j); } else { p := k; }
  }

  lemma BeforeLast(vcn: Labels, scan: seq<nat>, p: nat, q: nat)
    requires p < |scan| && q < |scan| && LastAt(vcn, scan, p) && Kin(vcn, scan, p, q)
    ensures q <= p
  {
  }

  /** In an orderly scan every child of a scanned record ends with the smallest of its VCN. */
  lemma OrderlyLeadsHome(s: Store, scan: seq<nat>, o: nat)
    requires Consistent(s, scan) && Orderly(VcnOf(s), scan) && o in scan
    ensures HomeOf(s, scan, o) in scan && Leads(s, scan, HomeOf(s, scan, o))
  {
    var vcn := VcnOf(s);
    var k :| 0 <= k < |scan| && scan[k] == o;
    var leader := LeaderOf(s, scan, o);
    var q :| 0 <= q < |scan| && scan[q] == leader;
    SmallestLeads(s, scan, q);
    var p := LastOf(vcn, scan, k);
    assert Kin(vcn, scan, k, q) && Kin(vcn, scan, q, p) && Kin(vcn, scan, p, k);
    BeforeLast(vcn, scan, p, q);
    assert IsAt(vcn, scan, p, 0, o);
    EverythingComesToSmallest(vcn, scan, q, p, |scan|, o);
  }

  /** With the smallest id of each VCN scanned first, or the last one below all that come before the smallest,
      automatic merging leaves every child with an active record. */
  lemma OrderlyScanStrandsNothing(s: Store, scan: seq<nat>, ratio: Ratio)
    requires Consistent(s, scan) && MergeForest.OwnersActive(s) && Orderly(VcnOf(s), scan)
    ensures MergeForest.OwnersActive(AutoMerged(s, scan, ratio))
  {
    var t := AutoMerged(s, scan, ratio);
    AutoMergeMoves(s, scan, ratio);
    OneActivePerVcn(s, scan, ratio);
    forall o | o in scan ensures Active(t, HomeOf(s, scan, o)) { OrderlyLeadsHome(s, scan, o); }
  }

  ghost function WithServices(s: Store, services: map<nat, nat>): Store { s.(services := services) }

  ghost predicate KeepsOwners(s: Store, scan: seq<nat>, ratio: Ratio, services: map<nat, nat>)
    requires Scans(s, scan)
  {
    MergeForest.OwnersActive(WithServices(s, services)) ==>
      MergeForest.OwnersActive(AutoMerged(WithServices(s, services), scan, ratio))
  }

  /** A child whose home is not the smallest of its VCN is stranded. */
  lemma HomelessIsStranded(s: Store, scan: seq<nat>, ratio: Ratio, c: nat, to: nat)
    requires Consistent(s, scan) && c in s.services && to < |scan| && HomeOf(s, scan, s.services[c]) == scan[to]
    requires !SmallestAt(VcnOf(s), scan, to)
    ensures !MergeForest.OwnersActive(AutoMerged(s, scan, ratio))
  {
    AutoMergeMoves(s, scan, ratio);
    OneActivePerVcn(s, scan, ratio);
    SmallestLeads(s, scan, to);
    var t := AutoMerged(s, scan, ratio);
    assert c in t.services && t.services[c] == scan[to] && !Active(t, scan[to]);
  }

  lemma ServicesDoNotMatter(s: Store, scan: seq<nat>, services: map<nat, nat>)
    requires Consistent(s, scan)
    ensures Consistent(WithServices(s, services), scan) && VcnOf(WithServices(s, services)) == VcnOf(s)
  {
    var with := WithServices(s, services);
    assert Scans(with, scan) by { assert forall id :: Active(with, id) <==> Active(s, id); }
  }

  lemma DisorderlyScanStrandsAService(s: Store, scan: seq<nat>, ratio: Ratio) returns (services: map<nat, nat>)
    requires Consistent(s, scan) && MergeForest.OwnersActive(s) && !Orderly(VcnOf(s), scan)
    ensures !KeepsOwners(s, scan, ratio, services)
  {
    var from, to := DisorderStrands(VcnOf(s), scan);
    services := map[0 := scan[from]];
    ServicesDoNotMatter(s, scan, services);
    assert Active(s, scan[from]);
    HomelessIsStranded(WithServices(s, services), scan, ratio, 0, to);
    assert MergeForest.OwnersActive(WithServices(s, services));
  }

  /** For consistent calls and any scan of them: automatic merging leaves every child with an active record, whatever
      services the calls have, if and only if the scan is orderly. */
  lemma OrderDecides(s: Store, scan: seq<nat>, ratio: Ratio)
    requires Consistent(s, scan) && MergeForest.OwnersActive(s)
    ensures (forall services :: KeepsOwners(s, scan, ratio, services)) <==> Orderly(VcnOf(s), scan)
  {
    if Orderly(VcnOf(s), scan) {
      forall services ensures KeepsOwners(s, scan, ratio, services) {
        var with := WithServices(s, services);
        ServicesDoNotMatter(s, scan, services);
        if MergeForest.OwnersActive(with) { OrderlyScanStrandsNothing(with, scan, ratio); }
      }
    } else {
      var services := DisorderlyScanStrandsAService(s, scan, ratio);
    }
  }

  lemma RowStarts(vcn: Labels, scan: seq<nat>, i: nat, j: nat, o: nat)
    requires i < |scan| && j <= |scan| && j == i + 1
    ensures AlongRow(vcn, scan, i, j, o) == o
  {
  }

  lemma RowGoesOn(vcn: Labels, scan: seq<nat>, i: nat, j: nat, next: nat, o: nat)
    requires i < j < |scan| && next == j + 1
    ensures AlongRow(vcn, scan, i, next, o)
         == MoveOne(vcn, AlongRow(vcn, scan, i, j, o), Ascending(scan[i], scan[j]))
  {
  }

  lemma MiddleFirstRows(vcn: Labels, a: nat, b: nat, c: nat)
    requires a < b < c && vcn(a) == vcn(b) == vcn(c)
    ensures AlongRows(vcn, [b, a, c], 3, c) == b
  {
    var scan := [b, a, c];
    RowStarts(vcn, scan, 0, 1, c);
    RowGoesOn(vcn, scan, 0, 1, 2, c);
    RowGoesOn(vcn, scan, 0, 2, 3, c);
    assert AlongRow(vcn, scan, 0, 2, c) == c && AlongRow(vcn, scan, 0, 3, c) == b;
    RowStarts(vcn, scan, 1, 2, b);
    RowGoesOn(vcn, scan, 1, 2, 3, b);
    RowStarts(vcn, scan, 2, 3, b);
    assert AlongRow(vcn, scan, 1, 3, b) == b && AlongRow(vcn, scan, 2, 3, b) == b;
    assert AlongRows(vcn, scan, 1, c) == b && AlongRows(vcn, scan, 2, c) == b;
  }

  /** Automatic merging does not check that a record is still unmerged. With three duplicates
      scanned as middle, smallest, largest id, a service of the largest is left with the middle
      one, which is itself merged away. */
  lemma MiddleFirstScanStrandsServices(s: Store, a: nat, b: nat, c: nat, x: nat, ratio: Ratio)
    requires a < b < c && Consistent(s, [b, a, c]) && a in s.calls && b in s.calls && c in s.calls
    requires Vcn(s, a) == Vcn(s, b) == Vcn(s, c)
    requires x in s.services && s.services[x] == c
    ensures var t := AutoMerged(s, [b, a, c], ratio); x in t.services && t.services[x] == b && !Active(t, b)
  {
    var scan := [b, a, c];
    assert scan[0] == b && scan[1] == a;
    MiddleFirstRows(VcnOf(s), a, b, c);
    AutoMergeMoves(s, scan, ratio);
    OneActivePerVcn(s, scan, ratio);
    assert !Leads(s, scan, b);
  }
}
