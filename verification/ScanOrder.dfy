/** Which scan orders keep the children of duplicates with the active record, however many duplicates there are. */
module ScanOrder {
  import opened AutoMerge
  import opened Merging

  /** The VCN of each record; a pair of the same VCN is merged, the smaller id surviving. */
  type Labels = nat -> string

  /** Where a child of `o` is once a pair has been merged. */
  function MoveOne(vcn: Labels, o: nat, p: Pair): nat { if o == p.1 && vcn(p.0) == vcn(p.1) then p.0 else o }

  function Moved(vcn: Labels, o: nat, pairs: seq<Pair>): nat {
    if pairs == [] then o else MoveOne(vcn, Moved(vcn, o, pairs[..|pairs| - 1]), pairs[|pairs| - 1])
  }

  /** The same along the row of record `i`, up to `j`, and along the first `n` rows. */
  function AlongRow(vcn: Labels, scan: seq<nat>, i: nat, j: nat, o: nat): nat
    requires i < |scan| && j <= |scan|
  {
    if j <= i + 1 then o else MoveOne(vcn, AlongRow(vcn, scan, i, j - 1, o), Ascending(scan[i], scan[j - 1]))
  }

  function AlongRows(vcn: Labels, scan: seq<nat>, n: nat, o: nat): nat
    requires n <= |scan|
  {
    if n == 0 then o else AlongRow(vcn, scan, n - 1, |scan|, AlongRows(vcn, scan, n - 1, o))
  }

  /** The filter drops no pair of the same VCN. */
  ghost predicate LetsKinPass(vcn: Labels, scan: seq<nat>, passes: Filter) {
    forall i, k :: 0 <= i < k < |scan| && vcn(scan[i]) == vcn(scan[k]) ==> Passes(passes, scan[i], scan[k])
  }

  lemma MovedByOneMore(vcn: Labels, o: nat, pairs: seq<Pair>, p: Pair)
    ensures Moved(vcn, o, pairs + [p]) == MoveOne(vcn, Moved(vcn, o, pairs), p)
  {
    assert (pairs + [p])[..|pairs|] == pairs;
  }

  lemma {:induction false} RowMoves(vcn: Labels, before: seq<Pair>, scan: seq<nat>, i: nat, j: nat, passes: Filter,
                                    o: nat)
    requires i < |scan| && j <= |scan| && LetsKinPass(vcn, scan, passes)
    ensures Moved(vcn, o, WithRow(before, scan, i, j, passes)) == AlongRow(vcn, scan, i, j, Moved(vcn, o, before))
  {
    if j > i + 1 {
      RowMoves(vcn, before, scan, i, j - 1, passes, o);
      var row, p := WithRow(before, scan, i, j - 1, passes), Ascending(scan[i], scan[j - 1]);
      MovedByOneMore(vcn, o, row, p);
      assert !Passes(passes, scan[i], scan[j - 1]) ==> row + Kept(passes, scan[i], scan[j - 1]) == row;
    }
  }

  lemma {:induction false} RowsMove(vcn: Labels, scan: seq<nat>, n: nat, passes: Filter, o: nat)
    requires n <= |scan| && LetsKinPass(vcn, scan, passes)
    ensures Moved(vcn, o, AllPairs(scan, n, passes)) == AlongRows(vcn, scan, n, o)
  {
    if n > 0 {
      RowsMove(vcn, scan, n - 1, passes, o);
      RowMoves(vcn, AllPairs(scan, n - 1, passes), scan, n - 1, |scan|, passes, o);
    }
  }

  // ---- Rows, one by one

  predicate Kin(vcn: Labels, scan: seq<nat>, i: nat, k: nat)
    requires i < |scan| && k < |scan|
  {
    vcn(scan[i]) == vcn(scan[k])
  }

  /** `q` is the place of the smallest id of its VCN, `p` the last place with that VCN. */
  ghost predicate SmallestAt(vcn: Labels, scan: seq<nat>, q: nat)
    requires q < |scan|
  {
    forall k :: 0 <= k < |scan| && Kin(vcn, scan, q, k) ==> scan[q] <= scan[k]
  }

  ghost predicate LastAt(vcn: Labels, scan: seq<nat>, p: nat)
    requires p < |scan|
  {
    forall k :: p < k < |scan| ==> !Kin(vcn, scan, p, k)
  }

  ghost predicate IsAt(vcn: Labels, scan: seq<nat>, p: nat, from: nat, o: nat)
    requires p < |scan|
  {
    exists k :: from <= k < |scan| && scan[k] == o && Kin(vcn, scan, p, k)
  }

  /** A row of another VCN moves nothing. */
  lemma {:induction false} OtherRow(vcn: Labels, scan: seq<nat>, i: nat, j: nat, o: nat)
    requires i < |scan| && j <= |scan| && vcn(scan[i]) != vcn(o)
    ensures AlongRow(vcn, scan, i, j, o) == o
  {
    if j > i + 1 { OtherRow(vcn, scan, i, j - 1, o); }
  }

  /** A row in which the record is neither first nor later moves nothing of it. */
  lemma {:induction false} PastRow(vcn: Labels, scan: seq<nat>, i: nat, j: nat, k: nat)
    requires Distinct(scan) && k < i < |scan| && j <= |scan|
    ensures AlongRow(vcn, scan, i, j, scan[k]) == scan[k]
  {
    if j > i + 1 { PastRow(vcn, scan, i, j - 1, k); }
  }

  /** In its own row and in later ones, what the smallest record has stays with it. */
  lemma {:induction false} SmallestStays(vcn: Labels, scan: seq<nat>, q: nat, i: nat, j: nat)
    requires Distinct(scan) && q < |scan| && i < |scan| && j <= |scan| && SmallestAt(vcn, scan, q)
    ensures AlongRow(vcn, scan, i, j, scan[q]) == scan[q]
  {
    if j > i + 1 {
      SmallestStays(vcn, scan, q, i, j - 1);
      assert Kin(vcn, scan, q, i) || !Kin(vcn, scan, q, i);
      assert Kin(vcn, scan, q, j - 1) || !Kin(vcn, scan, q, j - 1);
    }
  }

  /** The row of the smallest record takes everything that is still ahead. */
  lemma {:induction false} SmallestTakes(vcn: Labels, scan: seq<nat>, q: nat, j: nat, k: nat)
    requires Distinct(scan) && q <= k < |scan| && j <= |scan| && SmallestAt(vcn, scan, q) && Kin(vcn, scan, q, k)
    ensures k < j ==> AlongRow(vcn, scan, q, j, scan[k]) == scan[q]
    ensures k >= j ==> AlongRow(vcn, scan, q, j, scan[k]) == scan[k]
  {
    if k == q {
      SmallestStays(vcn, scan, q, q, j);
      assert q >= j ==> j <= q + 1;
    } else if j > q + 1 {
      SmallestTakes(vcn, scan, q, j - 1, k);
      if k < j - 1 {
        assert Kin(vcn, scan, q, j - 1) || !Kin(vcn, scan, q, j - 1);
      }
    }
  }

  /** Along the row of `i` a child stays at `i` or ahead of it. */
  lemma {:induction false} RowKeepsAhead(vcn: Labels, scan: seq<nat>, p: nat, i: nat, j: nat, o: nat)
    requires p < |scan| && i < |scan| && j <= |scan| && IsAt(vcn, scan, p, i, o)
    ensures IsAt(vcn, scan, p, i, AlongRow(vcn, scan, i, j, o))
  {
    if j > i + 1 {
      RowKeepsAhead(vcn, scan, p, i, j - 1, o);
      var before := AlongRow(vcn, scan, i, j - 1, o);
      var after := MoveOne(vcn, before, Ascending(scan[i], scan[j - 1]));
      if after != before {
        var k := if after == scan[i] then i else j - 1;
        assert scan[k] == after && Kin(vcn, scan, p, k);
      }
    }
  }

  /** If the last of the VCN is smaller, the row of `i` hands everything on to a later place. */
  lemma {:induction false} RowHandsOn(vcn: Labels, scan: seq<nat>, p: nat, i: nat, j: nat, o: nat)
    requires Distinct(scan) && i < p < j <= |scan| && Kin(vcn, scan, p, i) && LastAt(vcn, scan, p) && scan[p] < scan[i]
    requires IsAt(vcn, scan, p, i, o)
    ensures IsAt(vcn, scan, p, i + 1, AlongRow(vcn, scan, i, j, o))
  {
    if j == p + 1 {
      RowKeepsAhead(vcn, scan, p, i, p, o);
      var before := AlongRow(vcn, scan, i, p, o);
      var k :| i <= k < |scan| && scan[k] == before && Kin(vcn, scan, p, k);
      var after := if before == scan[i] then p else k;
      assert AlongRow(vcn, scan, i, j, o) == scan[after] && Kin(vcn, scan, p, after) && after > i;
    } else {
      RowHandsOn(vcn, scan, p, i, j - 1, o);
      assert !Kin(vcn, scan, p, j - 1);
    }
  }

  // ---- The orders that are safe

  /** Either the smallest id of a VCN is scanned before the others, or the last one scanned is smaller than every one
      scanned before the smallest. */
  ghost predicate Orderly(vcn: Labels, scan: seq<nat>) {
    forall i, q, p ::
      (0 <= i < q <= p < |scan| && Kin(vcn, scan, i, p) && Kin(vcn, scan, q, p) && SmallestAt(vcn, scan, q)
       && LastAt(vcn, scan, p))
      ==> scan[p] < scan[i]
  }

  /** Until the row of the smallest, nothing is left behind. */
  lemma {:induction false} NothingLeftBehind(vcn: Labels, scan: seq<nat>, q: nat, p: nat, n: nat, o: nat)
    requires Distinct(scan) && Orderly(vcn, scan) && n <= q <= p < |scan| && Kin(vcn, scan, q, p)
    requires SmallestAt(vcn, scan, q) && LastAt(vcn, scan, p) && IsAt(vcn, scan, p, 0, o)
    ensures IsAt(vcn, scan, p, n, AlongRows(vcn, scan, n, o))
  {
    if n > 0 {
      NothingLeftBehind(vcn, scan, q, p, n - 1, o);
      RowLeavesNothing(vcn, scan, q, p, n - 1, n, AlongRows(vcn, scan, n - 1, o));
    }
  }

  lemma RowLeavesNothing(vcn: Labels, scan: seq<nat>, q: nat, p: nat, i: nat, next: nat, o: nat)
    requires Distinct(scan) && Orderly(vcn, scan) && next == i + 1 && i < q <= p < |scan| && Kin(vcn, scan, q, p)
    requires SmallestAt(vcn, scan, q) && LastAt(vcn, scan, p) && IsAt(vcn, scan, p, i, o)
    ensures IsAt(vcn, scan, p, next, AlongRow(vcn, scan, i, |scan|, o))
  {
    if Kin(vcn, scan, i, p) {
      RowHandsOn(vcn, scan, p, i, |scan|, o);
    } else {
      OtherRow(vcn, scan, i, |scan|, o);
      var k :| i <= k < |scan| && scan[k] == o && Kin(vcn, scan, p, k);
      assert k != i;
    }
  }

  lemma {:induction false} EverythingComesToSmallest(vcn: Labels, scan: seq<nat>, q: nat, p: nat, n: nat, o: nat)
    requires Distinct(scan) && Orderly(vcn, scan) && q <= p < |scan| && q < n <= |scan| && Kin(vcn, scan, q, p)
    requires SmallestAt(vcn, scan, q) && LastAt(vcn, scan, p) && IsAt(vcn, scan, p, 0, o)
    ensures AlongRows(vcn, scan, n, o) == scan[q]
  {
    if n == q + 1 {
      NothingLeftBehind(vcn, scan, q, p, q, o);
      SmallestTakesAll(vcn, scan, q, p, AlongRows(vcn, scan, q, o));
    } else {
      EverythingComesToSmallest(vcn, scan, q, p, n - 1, o);
      SmallestStays(vcn, scan, q, n - 1, |scan|);
    }
  }

  lemma SmallestTakesAll(vcn: Labels, scan: seq<nat>, q: nat, p: nat, o: nat)
    requires Distinct(scan) && q < |scan| && p < |scan| && SmallestAt(vcn, scan, q) && Kin(vcn, scan, q, p)
    requires IsAt(vcn, scan, p, q, o)
    ensures AlongRow(vcn, scan, q, |scan|, o) == scan[q]
  {
    var k :| q <= k < |scan| && scan[k] == o && Kin(vcn, scan, p, k);
    SmallestTakes(vcn, scan, q, |scan|, k);
  }

  /** In any other order the children of the last of some VCN end at a record that is not the smallest: they wait for
      the first smaller record, which takes them after its own chance to hand them on. */
  lemma {:induction false} LastWaits(vcn: Labels, scan: seq<nat>, p: nat, n: nat)
    requires Distinct(scan) && n <= p < |scan| && forall k :: 0 <= k < n && Kin(vcn, scan, k, p) ==> scan[p] < scan[k]
    ensures AlongRows(vcn, scan, n, scan[p]) == scan[p]
  {
    if n > 0 {
      LastWaits(vcn, scan, p, n - 1);
      LargerRowTakesNothing(vcn, scan, p, n - 1, |scan|);
    }
  }

  lemma {:induction false} LargerRowTakesNothing(vcn: Labels, scan: seq<nat>, p: nat, i: nat, j: nat)
    requires Distinct(scan) && i < p < |scan| && j <= |scan| && (Kin(vcn, scan, i, p) ==> scan[p] < scan[i])
    ensures AlongRow(vcn, scan, i, j, scan[p]) == scan[p]
  {
    if j > i + 1 { LargerRowTakesNothing(vcn, scan, p, i, j - 1); }
  }

  lemma {:induction false} SmallerRowTakesLast(vcn: Labels, scan: seq<nat>, p: nat, i: nat, j: nat)
    requires Distinct(scan) && i < p < |scan| && j <= |scan| && Kin(vcn, scan, i, p) && scan[i] < scan[p]
    requires LastAt(vcn, scan, p)
    ensures p < j ==> AlongRow(vcn, scan, i, j, scan[p]) == scan[i]
    ensures p >= j ==> AlongRow(vcn, scan, i, j, scan[p]) == scan[p]
  {
    if j > i + 1 {
      SmallerRowTakesLast(vcn, scan, p, i, j - 1);
      assert p < j - 1 ==> !Kin(vcn, scan, p, j - 1);
    }
  }

  lemma {:induction false} Strands(vcn: Labels, scan: seq<nat>, p: nat, i: nat, n: nat)
    requires Distinct(scan) && i < p < |scan| && i < n <= |scan| && Kin(vcn, scan, i, p) && scan[i] < scan[p]
    requires LastAt(vcn, scan, p)
    requires forall k :: 0 <= k < i && Kin(vcn, scan, k, p) ==> scan[p] < scan[k]
    ensures AlongRows(vcn, scan, n, scan[p]) == scan[i]
  {
    if n == i + 1 {
      LastWaits(vcn, scan, p, i);
      SmallerRowTakesLast(vcn, scan, p, i, |scan|);
    } else {
      Strands(vcn, scan, p, i, n - 1);
      PastRow(vcn, scan, n - 1, |scan|, i);
    }
  }

  /** The first of the VCN that is smaller than the last. */
  lemma {:induction false} FirstSmaller(vcn: Labels, scan: seq<nat>, p: nat, i: nat) returns (first: nat)
    requires Distinct(scan) && i < p < |scan| && Kin(vcn, scan, i, p) && scan[i] < scan[p]
    ensures first <= i && Kin(vcn, scan, first, p) && scan[first] < scan[p]
    ensures forall k :: 0 <= k < first && Kin(vcn, scan, k, p) ==> scan[p] < scan[k]
    decreases i
  {
    if k :| 0 <= k < i && Kin(vcn, scan, k, p) && scan[k] < scan[p] {
      first := FirstSmaller(vcn, scan, p, k);
    } else {
      first := i;
      forall k | 0 <= k < i && Kin(vcn, scan, k, p) ensures scan[p] < scan[k] {
        assert scan[k] != scan[p];
      }
    }
  }

  /** A scan that is not orderly leaves the children of some record with one that is not the smallest. */
  lemma DisorderStrands(vcn: Labels, scan: seq<nat>) returns (from: nat, to: nat)
    requires Distinct(scan) && !Orderly(vcn, scan)
    ensures from < |scan| && to < |scan| && Kin(vcn, scan, from, to) && !SmallestAt(vcn, scan, to)
    ensures AlongRows(vcn, scan, |scan|, scan[from]) == scan[to]
  {
    var i, q, p :| 0 <= i < q <= p < |scan| && Kin(vcn, scan, i, p) && Kin(vcn, scan, q, p)
      && SmallestAt(vcn, scan, q) && LastAt(vcn, scan, p) && !(scan[p] < scan[i]);
    assert scan[i] != scan[p];
    to := FirstSmaller(vcn, scan, p, i);
    from := p;
    Strands(vcn, scan, p, to, |scan|);
    assert Kin(vcn, scan, q, to) && scan[q] <= scan[to] && scan[q] != scan[to];
    assert Kin(vcn, scan, to, q) && scan[q] < scan[to];
  }

  /** In particular it is enough that the smallest of each VCN is scanned before the others, */
  lemma SmallestFirstIsOrderly(vcn: Labels, scan: seq<nat>)
    requires forall i, q :: 0 <= i < |scan| && 0 <= q < |scan| && Kin(vcn, scan, i, q) && SmallestAt(vcn, scan, q) ==>
               q <= i
    ensures Orderly(vcn, scan)
  {
    forall i, q, p | 0 <= i <= p < |scan| && 0 <= q <= p && Kin(vcn, scan, i, p) && Kin(vcn, scan, q, p)
      && SmallestAt(vcn, scan, q)
      ensures q <= i
    {
      assert Kin(vcn, scan, i, q);
    }
  }

  /** as in any scan in ascending order of ids. */
  lemma AscendingIsOrderly(vcn: Labels, scan: seq<nat>)
    requires forall i, j :: 0 <= i < j < |scan| ==> scan[i] < scan[j]
    ensures Orderly(vcn, scan)
  {
    forall i, q | 0 <= i < |scan| && 0 <= q < |scan| && Kin(vcn, scan, i, q) && SmallestAt(vcn, scan, q)
      ensures q <= i
    {
      assert Kin(vcn, scan, q, i) && scan[q] <= scan[i];
    }
    SmallestFirstIsOrderly(vcn, scan);
  }
}
