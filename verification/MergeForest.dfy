/** What merges of two active records, and unmerges whose survivor is active, keep over any run. */
module MergeForest {
  import opened Wrappers
  import opened Vessels
  import opened Merging

  datatype Step = DoMerge(pair: Pair, custom: Columns) | DoUnmerge(k: nat)

  ghost predicate Allowed(s: Store, step: Step) {
    match step
    case DoMerge(pair, _) => pair in s.candidates && pair.0 != pair.1 && Active(s, pair.0) && Active(s, pair.1)
    case DoUnmerge(k) => CanUnmerge(s, k) && Active(s, s.decisions[k].survivor)
  }

  ghost function Take(s: Store, step: Step): Store
    requires Allowed(s, step)
  {
    match step
    case DoMerge(pair, custom) => Merge(s, pair, custom)
    case DoUnmerge(k) => Unmerge(s, k)
  }

  // ---------------------------------------------------------------- invariant

  ghost predicate Stands(s: Store, k: int) { 0 <= k < |s.decisions| && s.decisions[k].standing }

  ghost predicate PointersFit(s: Store) {
    forall id :: id in s.calls ==> (s.calls[id].merged <==> s.calls[id].mergedInto.Some?)
  }

  ghost predicate Unmerged(c: VesselCall) { !c.merged && c.mergedInto.None? }

  ghost predicate StandingFits(s: Store, k: int)
    requires Stands(s, k)
  {
    var d := s.decisions[k];
    && d.survivor in s.calls && d.merged in s.calls && d.survivor != d.merged
    && s.calls[d.merged].mergedInto == Some(d.survivor) && s.calls[d.merged].merged
    && Unmerged(d.survivorPrior) && Unmerged(d.mergedPrior)
  }

  ghost predicate DecisionsFit(s: Store) {
    && (forall k :: Stands(s, k) ==> StandingFits(s, k))
    && (forall j, k :: Stands(s, j) && Stands(s, k) && s.decisions[j].merged == s.decisions[k].merged ==> j == k)
    && (forall j, k :: Stands(s, j) && Stands(s, k) && s.decisions[j].survivor == s.decisions[k].merged ==> j < k)
    && (forall id :: id in s.calls && s.calls[id].merged ==> exists k :: Stands(s, k) && s.decisions[k].merged == id)
  }

  ghost predicate OwnersActive(s: Store) {
    && (forall e :: e in s.events ==> Active(s, s.events[e].call))
    && (forall c :: c in s.services ==> Active(s, s.services[c]))
    && (forall c :: c in s.delays ==> Active(s, s.delays[c]))
  }

  ghost predicate KeysUnique(events: map<nat, Event>) {
    forall d, e :: d in events && e in events && events[d].call == events[e].call && SameSlot(events[d], events[e]) ==>
      d == e
  }

  ghost predicate TransfersDistinct(s: Store) {
    forall k, d, e :: (Stands(s, k) && d in s.decisions[k].events && e in s.decisions[k].events
                       && d in s.events && e in s.events && SameSlot(s.events[d], s.events[e])) ==> d == e
  }

  /** The consolidated population: the unmerged calls. */
  ghost function Population(s: Store): set<nat> { set id | id in s.calls && !s.calls[id].merged }

  ghost function StandingCount(decisions: seq<Decision>): nat {
    if decisions == [] then 0
    else StandingCount(decisions[..|decisions| - 1]) + if decisions[|decisions| - 1].standing then 1 else 0
  }

  ghost predicate Inv(s: Store) {
    && PointersFit(s) && DecisionsFit(s) && OwnersActive(s) && KeysUnique(s.events) && TransfersDistinct(s)
    && |Population(s)| + StandingCount(s.decisions) == |s.calls|
  }

  // ---------------------------------------------------------------- preservation by a merge

  /** What a merge of `b` into `a` does, columns apart. */
  ghost predicate MergeEffect(s: Store, t: Store, a: nat, b: nat) {
    && a in s.calls && b in s.calls && a != b && t.calls.Keys == s.calls.Keys
    && (forall id :: id in s.calls && id != b ==>
        t.calls[id].merged == s.calls[id].merged && t.calls[id].mergedInto == s.calls[id].mergedInto)
    && t.calls[b].merged && t.calls[b].mergedInto == Some(a)
    && t.events == MergeEvents(s.events, a, b)
    && t.services == Reassign(s.services, OwnedBy(s.services, b), a)
    && t.delays == Reassign(s.delays, OwnedBy(s.delays, b), a)
    && |t.decisions| == |s.decisions| + 1 && t.decisions[..|s.decisions|] == s.decisions
    && var d := t.decisions[|s.decisions|];
       d.standing && d.survivor == a && d.merged == b && d.survivorPrior == s.calls[a] && d.mergedPrior == s.calls[b]
       && d.events == Transferred(s.events, a, b)
  }

  lemma MergeHasEffect(s: Store, pair: Pair, custom: Columns)
    requires pair in s.candidates && pair.0 in s.calls && pair.1 in s.calls && pair.0 != pair.1
    ensures MergeEffect(s, Merge(s, pair, custom), SurvivorOf(s, pair), MergedOf(s, pair))
  {
  }

  lemma MergeKeepsOldDecision(s: Store, t: Store, a: nat, b: nat, k: int)
    requires PointersFit(s) && DecisionsFit(s) && MergeEffect(s, t, a, b) && Active(s, a) && Active(s, b)
    requires Stands(s, k)
    ensures Stands(t, k) && t.decisions[k] == s.decisions[k] && StandingFits(t, k)
    ensures s.decisions[k].merged != a && s.decisions[k].merged != b
  {
    assert t.decisions[..|s.decisions|][k] == s.decisions[k];
    assert StandingFits(s, k);
  }

  lemma MergeKeepsDecisions(s: Store, t: Store, a: nat, b: nat)
    requires PointersFit(s) && DecisionsFit(s) && MergeEffect(s, t, a, b) && Active(s, a) && Active(s, b)
    ensures PointersFit(t) && DecisionsFit(t)
  {
    var n := |s.decisions|;
    forall k | Stands(t, k) && k != n
      ensures Stands(s, k) && t.decisions[k] == s.decisions[k] && StandingFits(t, k)
      ensures s.decisions[k].merged != a && s.decisions[k].merged != b
    {
      assert t.decisions[..n][k] == s.decisions[k];
      MergeKeepsOldDecision(s, t, a, b, k);
    }
    assert Stands(t, n) && StandingFits(t, n);
    forall id | id in t.calls && t.calls[id].merged ensures exists k :: Stands(t, k) && t.decisions[k].merged == id {
      if id == b {
        assert t.decisions[n].merged == id;
      } else {
        var k :| Stands(s, k) && s.decisions[k].merged == id;
        MergeKeepsOldDecision(s, t, a, b, k);
      }
    }
  }

  lemma MergeKeepsKeys(s: Store, t: Store, a: nat, b: nat)
    requires KeysUnique(s.events) && MergeEffect(s, t, a, b)
    ensures KeysUnique(t.events)
  {
    forall d, e | d in t.events && e in t.events && t.events[d].call == t.events[e].call
      && SameSlot(t.events[d], t.events[e])
      ensures d == e
    {
      assert d in s.events && e in s.events && SameSlot(s.events[d], s.events[e]) && SameSlot(s.events[e], s.events[d]);
    }
  }

  lemma MergeKeepsTransfers(s: Store, t: Store, a: nat, b: nat)
    requires KeysUnique(s.events) && TransfersDistinct(s) && MergeEffect(s, t, a, b)
    ensures TransfersDistinct(t)
  {
    var n := |s.decisions|;
    forall k, d, e | Stands(t, k) && d in t.decisions[k].events && e in t.decisions[k].events
      && d in t.events && e in t.events && SameSlot(t.events[d], t.events[e])
      ensures d == e
    {
      assert d in s.events && e in s.events && SameSlot(s.events[d], s.events[e]);
      assert k < n ==> t.decisions[..n][k] == s.decisions[k] && Stands(s, k);
    }
  }

  lemma MergeKeepsCount(s: Store, t: Store, a: nat, b: nat)
    requires MergeEffect(s, t, a, b) && Active(s, b) && |Population(s)| + StandingCount(s.decisions) == |s.calls|
    ensures |Population(t)| + StandingCount(t.decisions) == |t.calls|
  {
    assert Population(t) == Population(s) - {b};
    assert b in Population(s);
    assert t.decisions[..|t.decisions| - 1] == s.decisions;
    assert |t.calls| == |t.calls.Keys| && |s.calls| == |s.calls.Keys|;
  }

  /** A merge need not be of active records for this. The service does not check that they are;
      children stay with active records exactly when the survivor is active, or the merged record
      has nothing to hand on. */
  lemma MergeKeepsOwnersIff(s: Store, t: Store, a: nat, b: nat)
    requires OwnersActive(s) && MergeEffect(s, t, a, b)
    ensures OwnersActive(t) <==> Active(s, a) || HandsNothingOn(s, a, b)
  {
    assert forall id :: id != b ==> (Active(t, id) <==> Active(s, id));
    if !Active(s, a) && !HandsNothingOn(s, a, b) {
      assert !Active(t, a);
      MergeHandsOn(s, t, a, b);
    } else {
      forall e | e in t.events ensures Active(t, t.events[e].call) {
        assert Active(s, s.events[e].call);
        assert s.events[e].call == b ==> e in Transferred(s.events, a, b);
      }
      forall c | c in t.services ensures Active(t, t.services[c]) {
        assert Active(s, s.services[c]);
        assert s.services[c] == b ==> c in OwnedBy(s.services, b);
      }
      forall c | c in t.delays ensures Active(t, t.delays[c]) {
        assert Active(s, s.delays[c]);
        assert s.delays[c] == b ==> c in OwnedBy(s.delays, b);
      }
    }
  }

  ghost predicate HandsNothingOn(s: Store, a: nat, b: nat) {
    Transferred(s.events, a, b) == {} && OwnedBy(s.services, b) == {} && OwnedBy(s.delays, b) == {}
  }

  lemma MergeHandsOn(s: Store, t: Store, a: nat, b: nat)
    requires MergeEffect(s, t, a, b) && !HandsNothingOn(s, a, b)
    ensures (exists e :: e in t.events && t.events[e].call == a) || (exists c :: c in t.services && t.services[c] == a)
            || (exists c :: c in t.delays && t.delays[c] == a)
  {
    if Transferred(s.events, a, b) != {} {
      var e :| e in Transferred(s.events, a, b);
      assert e in t.events && t.events[e].call == a;
    } else if OwnedBy(s.services, b) != {} {
      var c :| c in OwnedBy(s.services, b);
      assert c in t.services && t.services[c] == a;
    } else {
      var c :| c in OwnedBy(s.delays, b);
      assert c in t.delays && t.delays[c] == a;
    }
  }

  // ---------------------------------------------------------------- preservation by an unmerge

  lemma UnmergeKeepsDecisions(s: Store, k: nat)
    requires Inv(s) && Allowed(s, DoUnmerge(k))
    ensures PointersFit(Unmerge(s, k)) && DecisionsFit(Unmerge(s, k))
  {
    var t, d := Unmerge(s, k), s.decisions[k];
    assert Stands(s, k) && StandingFits(s, k);
    forall j | Stands(t, j)
      ensures Stands(s, j) && t.decisions[j] == s.decisions[j] && s.decisions[j].merged != d.merged
      ensures s.decisions[j].merged != d.survivor && StandingFits(t, j)
    {
      assert Stands(s, j) && StandingFits(s, j);
    }
    forall id | id in t.calls && t.calls[id].merged ensures exists j :: Stands(t, j) && t.decisions[j].merged == id {
      assert s.calls[id].merged && id != d.merged;
      var j :| Stands(s, j) && s.decisions[j].merged == id;
      assert Stands(t, j);
    }
  }

  lemma UnmergeKeepsTransfers(s: Store, k: nat)
    requires Inv(s) && Allowed(s, DoUnmerge(k))
    ensures TransfersDistinct(Unmerge(s, k))
  {
    var t := Unmerge(s, k);
    forall j, e1, e2 | Stands(t, j) && e1 in t.decisions[j].events && e2 in t.decisions[j].events
      && e1 in t.events && e2 in t.events && SameSlot(t.events[e1], t.events[e2])
      ensures e1 == e2
    {
      assert Stands(s, j) && t.decisions[j] == s.decisions[j];
      assert e1 in s.events && e2 in s.events && SameSlot(s.events[e1], s.events[e2]);
    }
  }

  lemma UnmergeKeepsChildren(s: Store, k: nat)
    requires Inv(s) && Allowed(s, DoUnmerge(k))
    ensures OwnersActive(Unmerge(s, k)) && KeysUnique(Unmerge(s, k).events) && TransfersDistinct(Unmerge(s, k))
  {
    var t, d := Unmerge(s, k), s.decisions[k];
    assert Stands(s, k) && StandingFits(s, k);
    assert forall id :: Active(s, id) ==> Active(t, id);
    assert Active(t, d.merged) && !Active(s, d.merged);
    forall e1, e2 | e1 in t.events && e2 in t.events && t.events[e1].call == t.events[e2].call
      && SameSlot(t.events[e1], t.events[e2])
      ensures e1 == e2
    {
      assert e1 in s.events && e2 in s.events && SameSlot(s.events[e1], s.events[e2]);
      assert Active(s, s.events[e1].call) && Active(s, s.events[e2].call);
    }
    UnmergeKeepsTransfers(s, k);
  }

  lemma {:induction false} CountOneLess(ds: seq<Decision>, k: nat, d: Decision)
    requires k < |ds| && ds[k].standing && !d.standing
    ensures StandingCount(ds[k := d]) + 1 == StandingCount(ds)
  {
    var n := |ds| - 1;
    if k == n {
      assert ds[k := d][..n] == ds[..n];
    } else {
      assert ds[k := d][..n] == ds[..n][k := d];
      CountOneLess(ds[..n], k, d);
    }
  }

  lemma UnmergeKeepsCount(s: Store, k: nat)
    requires Inv(s) && Allowed(s, DoUnmerge(k))
    ensures var t := Unmerge(s, k); |Population(t)| + StandingCount(t.decisions) == |t.calls|
  {
    var t, d := Unmerge(s, k), s.decisions[k];
    assert Stands(s, k) && StandingFits(s, k);
    assert Population(t) == Population(s) + {d.merged};
    assert d.merged !in Population(s);
    CountOneLess(s.decisions, k, d.(standing := false));
    assert t.calls.Keys == s.calls.Keys;
    assert |t.calls| == |t.calls.Keys| && |s.calls| == |s.calls.Keys|;
  }

  lemma StepKeepsInv(s: Store, step: Step)
    requires Inv(s) && Allowed(s, step)
    ensures Inv(Take(s, step))
  {
    match step
    case DoMerge(pair, custom) =>
      var t, a, b := Merge(s, pair, custom), SurvivorOf(s, pair), MergedOf(s, pair);
      MergeHasEffect(s, pair, custom);
      MergeKeepsDecisions(s, t, a, b);
      MergeKeepsOwnersIff(s, t, a, b);
      MergeKeepsKeys(s, t, a, b);
      MergeKeepsTransfers(s, t, a, b);
      MergeKeepsCount(s, t, a, b);
    case DoUnmerge(k) =>
      UnmergeKeepsDecisions(s, k);
      UnmergeKeepsChildren(s, k);
      UnmergeKeepsCount(s, k);
  }

  ghost predicate AllowedRun(s: Store, steps: seq<Step>)
    decreases |steps|
  {
    steps == [] || (Allowed(s, steps[0]) && AllowedRun(Take(s, steps[0]), steps[1..]))
  }

  ghost function RunAll(s: Store, steps: seq<Step>): Store
    requires AllowedRun(s, steps)
    decreases |steps|
  {
    if steps == [] then s else RunAll(Take(s, steps[0]), steps[1..])
  }

  /** Over any run: the pointers mark exactly the merged records, every child is owned by an active
      record, event keys stay unique, and the active records are all but the standing decisions. */
  lemma {:induction false} RunKeepsInv(s: Store, steps: seq<Step>)
    requires Inv(s) && AllowedRun(s, steps)
    ensures Inv(RunAll(s, steps)) && RunAll(s, steps).calls.Keys == s.calls.Keys
    decreases |steps|
  {
    if steps != [] {
      StepKeepsInv(s, steps[0]);
      var t := Take(s, steps[0]);
      RunKeepsInv(t, steps[1..]);
    }
  }

  /** Before any merge the invariant is no more than the table's own constraints. */
  lemma FreshStoreIsFine(s: Store)
    requires s.decisions == [] && OwnersActive(s) && KeysUnique(s.events)
    requires forall id :: id in s.calls ==> Unmerged(s.calls[id])
    ensures Inv(s)
  {
    assert Population(s) == s.calls.Keys;
    assert |s.calls| == |s.calls.Keys|;
  }

  // ---------------------------------------------------------------- the forest

  ghost function DecisionOf(s: Store, id: nat): (k: nat)
    requires Inv(s) && id in s.calls && s.calls[id].merged
    ensures Stands(s, k) && s.decisions[k].merged == id && s.calls[id].mergedInto == Some(s.decisions[k].survivor)
  {
    var k :| Stands(s, k) && s.decisions[k].merged == id;
    assert StandingFits(s, k);
    k
  }

  /** Following the merge pointers always ends, and ends in an active record. */
  ghost function Root(s: Store, id: nat): (root: nat)
    requires Inv(s) && id in s.calls
    ensures Active(s, root)
    decreases if s.calls[id].merged then |s.decisions| - DecisionOf(s, id) else 0
  {
    if !s.calls[id].merged then id
    else
      var k := DecisionOf(s, id);
      assert StandingFits(s, k);
      Root(s, s.calls[id].mergedInto.value)
  }

  /** No path of one or more pointers leads back to its start. */
  lemma PointersAreAcyclic(s: Store, path: seq<nat>)
    requires Inv(s) && |path| > 1 && path[0] in s.calls
    requires forall i :: 0 <= i < |path| - 1 ==> path[i] in s.calls && s.calls[path[i]].mergedInto == Some(path[i + 1])
    ensures path[|path| - 1] != path[0]
  {
    var n := |path| - 1;
    forall j | 0 <= j < n ensures path[j] in s.calls && s.calls[path[j]].merged {
      assert s.calls[path[j]].mergedInto == Some(path[j + 1]);
    }
    if path[n] == path[0] { LaterDecisions(s, path, n); }
  }

  lemma {:induction false} LaterDecisions(s: Store, path: seq<nat>, i: nat)
    requires Inv(s) && i < |path|
    requires forall j :: 0 <= j <= i ==> path[j] in s.calls && s.calls[path[j]].merged
    requires forall j :: 0 <= j < i ==> s.calls[path[j]].mergedInto == Some(path[j + 1])
    ensures i > 0 ==> DecisionOf(s, path[0]) < DecisionOf(s, path[i])
  {
    if i > 0 { LaterDecisions(s, path, i - 1); }
  }
}
