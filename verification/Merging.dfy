/** Merging two vessel calls and undoing it, as functions of the canonical store. */
module Merging {
  import opened Wrappers
  import opened Vessels
  import opened Survivorship
  import Matcher

  datatype Event = Event(call: nat, definition: nat, index: int)

  datatype CandidateStatus = Proposed(disposition: Matcher.Disposition) | WasMerged

  datatype Candidate = Candidate(status: CandidateStatus, conflict: bool)

  /** A pair of call ids in ascending order identifies a candidate. */
  type Pair = (nat, nat)

  /** The decision with its prior-state snapshot. */
  datatype Decision = Decision(candidate: Pair, standing: bool, survivor: nat, merged: nat,
                               survivorPrior: VesselCall, mergedPrior: VesselCall,
                               events: set<nat>, services: set<nat>, delays: set<nat>)

  datatype Store = Store(calls: map<nat, VesselCall>, events: map<nat, Event>, services: map<nat, nat>,
                         delays: map<nat, nat>, candidates: map<Pair, Candidate>, decisions: seq<Decision>)

  predicate Active(s: Store, id: nat) { id in s.calls && !s.calls[id].merged }

  // ---------------------------------------------------------------- merging

  predicate SameSlot(a: Event, b: Event) { a.definition == b.definition && a.index == b.index }

  /** The survivor already has an event with this definition and index. */
  predicate Collides(events: map<nat, Event>, e: nat, survivor: nat)
    requires e in events
  {
    exists d :: d in events && events[d].call == survivor && SameSlot(events[d], events[e])
  }

  function Transferred(events: map<nat, Event>, survivor: nat, merged: nat): set<nat> {
    set e | e in events && events[e].call == merged && !Collides(events, e, survivor)
  }

  function MergeEvents(events: map<nat, Event>, survivor: nat, merged: nat): map<nat, Event> {
    map e | e in events && (events[e].call == merged ==> !Collides(events, e, survivor)) ::
      if events[e].call == merged then events[e].(call := survivor) else events[e]
  }

  function OwnedBy(owners: map<nat, nat>, id: nat): set<nat> { set c | c in owners && owners[c] == id }

  function Reassign(owners: map<nat, nat>, children: set<nat>, id: nat): map<nat, nat> {
    map c | c in owners :: if c in children then id else owners[c]
  }

  function ReassignEvents(events: map<nat, Event>, children: set<nat>, id: nat): map<nat, Event> {
    map e | e in events :: if e in children then events[e].(call := id) else events[e]
  }

  /** What the service demands: the candidate exists, may be merged, and both calls are found. */
  predicate CanMerge(s: Store, pair: Pair, manual: bool) {
    && pair in s.candidates && (s.candidates[pair].conflict ==> manual)
    && pair.0 in s.calls && pair.1 in s.calls
  }

  function SurvivorOf(s: Store, pair: Pair): nat
    requires pair.0 in s.calls && pair.1 in s.calls
  {
    if FirstSurvives(s.calls[pair.0], s.calls[pair.1]) then pair.0 else pair.1
  }

  function MergedOf(s: Store, pair: Pair): nat
    requires pair.0 in s.calls && pair.1 in s.calls
  {
    if FirstSurvives(s.calls[pair.0], s.calls[pair.1]) then pair.1 else pair.0
  }

  function Merge(s: Store, pair: Pair, custom: Columns): Store
    requires pair in s.candidates && pair.0 in s.calls && pair.1 in s.calls
  {
    var survivor, merged := SurvivorOf(s, pair), MergedOf(s, pair);
    var kept, gone := s.calls[survivor], s.calls[merged];
    var consolidated := Consolidated(s.calls[pair.0], s.calls[pair.1]) + custom;
    var kept' := kept.(columns := kept.columns + consolidated);
    var calls := s.calls[survivor := kept'];
    Store(
      calls[merged := calls[merged].(merged := true, mergedInto := Some(survivor))],
      MergeEvents(s.events, survivor, merged),
      Reassign(s.services, OwnedBy(s.services, merged), survivor),
      Reassign(s.delays, OwnedBy(s.delays, merged), survivor),
      s.candidates[pair := s.candidates[pair].(status := WasMerged)],
      s.decisions + [Decision(pair, true, survivor, merged, kept, gone, Transferred(s.events, survivor, merged),
                              OwnedBy(s.services, merged), OwnedBy(s.delays, merged))])
  }

  // ---------------------------------------------------------------- what a merge leaves, row by row

  ghost function RuleOf(name: string): Rule
    requires IsComparable(name)
  {
    var i :| 0 <= i < |COMPARABLE| && COMPARABLE[i].0 == name;
    COMPARABLE[i].1
  }

  /** The survivor holds what the steward gave, else for a comparable column what the rule chooses of the two prior
      values, else its own value. */
  ghost predicate HoldsBest(was: map<nat, VesselCall>, now: map<nat, VesselCall>, pair: Pair, survivor: nat,
                            custom: Columns)
    requires survivor in was && survivor in now && pair.0 in was && pair.1 in was
  {
    forall name: string ::
      Column(now[survivor], name)
      == if name in custom then custom[name]
         else if IsComparable(name) then
           ResolveField(RuleOf(name), Column(was[pair.0], name), Column(was[pair.1], name))
         else Column(was[survivor], name)
  }

  /** The merged record keeps its columns and points to the survivor; no other call changes. */
  ghost predicate PointsAway(was: map<nat, VesselCall>, now: map<nat, VesselCall>, survivor: nat, merged: nat)
    requires survivor in was && merged in was
  {
    && now.Keys == was.Keys
    && now[merged] == VesselCall(was[merged].columns, true, Some(survivor))
    && now[survivor].merged == was[survivor].merged && now[survivor].mergedInto == was[survivor].mergedInto
    && (forall id :: id in was && id != survivor && id != merged ==> now[id] == was[id])
  }

  /** An event of the merged record goes to the survivor, or is dropped if the survivor has one of the same definition
      and index; no other event changes. */
  ghost predicate EventsFollow(was: map<nat, Event>, now: map<nat, Event>, survivor: nat, merged: nat) {
    && now.Keys <= was.Keys
    && forall e :: e in was ==>
         (e !in now <==> was[e].call == merged
                         && exists d :: d in was && was[d].call == survivor && was[d].definition == was[e].definition
                                        && was[d].index == was[e].index)
         && (e in now ==> now[e].definition == was[e].definition && now[e].index == was[e].index
                          && now[e].call == if was[e].call == merged then survivor else was[e].call)
  }

  ghost predicate OwnersFollow(was: map<nat, nat>, now: map<nat, nat>, survivor: nat, merged: nat) {
    now.Keys == was.Keys && forall c :: c in was ==> now[c] == if was[c] == merged then survivor else was[c]
  }

  lemma MergeHoldsBest(s: Store, pair: Pair, custom: Columns)
    requires pair in s.candidates && pair.0 in s.calls && pair.1 in s.calls && pair.0 != pair.1
    ensures HoldsBest(s.calls, Merge(s, pair, custom).calls, pair, SurvivorOf(s, pair), custom)
  {
    var t, a := Merge(s, pair, custom), SurvivorOf(s, pair);
    ConsolidatedIs(s.calls[pair.0], s.calls[pair.1]);
    ComparableAreNamedOnce();
    forall name: string | name !in custom && IsComparable(name)
      ensures Column(t.calls[a], name)
              == ResolveField(RuleOf(name), Column(s.calls[pair.0], name), Column(s.calls[pair.1], name))
    {
      var i :| 0 <= i < |COMPARABLE| && COMPARABLE[i].0 == name && COMPARABLE[i].1 == RuleOf(name);
      assert Consolidated(s.calls[pair.0], s.calls[pair.1])[name]
          == Resolved(COMPARABLE[i], s.calls[pair.0], s.calls[pair.1]);
    }
  }

  /** So, the steward's choices apart, nothing that either record knew of a comparable column is missing afterwards. */
  lemma MergeForgetsNothing(s: Store, pair: Pair, custom: Columns, name: string)
    requires pair in s.candidates && pair.0 in s.calls && pair.1 in s.calls && pair.0 != pair.1
    requires IsComparable(name) && name !in custom
    ensures Column(Merge(s, pair, custom).calls[SurvivorOf(s, pair)], name) == Null
            <==> Column(s.calls[pair.0], name) == Column(s.calls[pair.1], name) == Null
  {
    MergeHoldsBest(s, pair, custom);
    ResolveFieldChooses(RuleOf(name), Column(s.calls[pair.0], name), Column(s.calls[pair.1], name));
  }

  /** The decision names the survivor and the merged record, and the store has changed as it says. */
  ghost predicate Combines(was: Store, now: Store, pair: Pair, custom: Columns, d: Decision)
    requires pair.0 in was.calls && pair.1 in was.calls
  {
    && (d.survivor, d.merged) == (if MoreComplete(was.calls[pair.1], was.calls[pair.0]) then (pair.1, pair.0) else pair)
    && PointsAway(was.calls, now.calls, d.survivor, d.merged)
    && HoldsBest(was.calls, now.calls, pair, d.survivor, custom)
    && EventsFollow(was.events, now.events, d.survivor, d.merged)
    && OwnersFollow(was.services, now.services, d.survivor, d.merged)
    && OwnersFollow(was.delays, now.delays, d.survivor, d.merged)
  }

  lemma MergeCombines(s: Store, pair: Pair, custom: Columns)
    requires pair in s.candidates && pair.0 in s.calls && pair.1 in s.calls && pair.0 != pair.1
    ensures var t := Merge(s, pair, custom);
            |t.decisions| == |s.decisions| + 1 && Combines(s, t, pair, custom, t.decisions[|s.decisions|])
  {
    MergeHoldsBest(s, pair, custom);
    SurvivesUnlessLessComplete(s.calls[pair.0], s.calls[pair.1]);
  }

  predicate CanUnmerge(s: Store, k: nat) {
    && k < |s.decisions| && s.decisions[k].standing
    && s.decisions[k].survivor in s.calls && s.decisions[k].merged in s.calls
  }

  function Unmerge(s: Store, k: nat): Store
    requires CanUnmerge(s, k)
  {
    var d := s.decisions[k];
    Store(
      s.calls[d.survivor := d.survivorPrior][d.merged := d.mergedPrior.(merged := false, mergedInto := None)],
      ReassignEvents(s.events, d.events, d.merged),
      Reassign(s.services, d.services, d.merged),
      Reassign(s.delays, d.delays, d.merged),
      if d.candidate in s.candidates
        then s.candidates[d.candidate := s.candidates[d.candidate].(status := Proposed(Matcher.StewardReview))]
        else s.candidates,
      s.decisions[k := d.(standing := false)])
  }

  // ---------------------------------------------------------------- undo

  /** `u` is `s` again, except for events lost to a key collision and for the paperwork. */
  ghost predicate Restored(u: Store, s: Store) {
    && u.calls == s.calls && u.services == s.services && u.delays == s.delays
    && (forall e :: e in u.events ==> e in s.events && u.events[e] == s.events[e])
    && |u.decisions| >= |s.decisions|
    && (forall k :: 0 <= k < |s.decisions| ==> u.decisions[k] == s.decisions[k])
  }

  /** Undoing one merge restores both calls exactly when the merged one was active before. */
  lemma UnmergeRestoresExactlyActive(s: Store, pair: Pair, custom: Columns)
    requires pair in s.candidates && pair.0 in s.calls && pair.1 in s.calls && pair.0 != pair.1
    ensures var t := Merge(s, pair, custom);
            CanUnmerge(t, |s.decisions|)
            && (Unmerge(t, |s.decisions|).calls == s.calls
                <==> Active(s, MergedOf(s, pair)) && s.calls[MergedOf(s, pair)].mergedInto.None?)
  {
    var m := MergedOf(s, pair);
    assert Unmerge(Merge(s, pair, custom), |s.decisions|).calls[m] == s.calls[m].(merged := false, mergedInto := None);
  }

  lemma UnmergeUndoesMerge(s: Store, pair: Pair, custom: Columns, u: Store)
    requires MergesActive(s, pair) && Restored(u, Merge(s, pair, custom))
    ensures CanUnmerge(u, |s.decisions|) && Restored(Unmerge(u, |s.decisions|), s)
    ensures Unmerge(u, |s.decisions|).events.Keys == u.events.Keys
  {
    var t, k := Merge(s, pair, custom), |s.decisions|;
    var d := t.decisions[k];
    assert u.decisions[k] == d;
    GivenBack(s.services, d.merged, d.survivor);
    GivenBack(s.delays, d.merged, d.survivor);
    EventsGivenBack(s.events, d.merged, d.survivor, u.events);
    assert t.calls[d.survivor := d.survivorPrior][d.merged := d.mergedPrior] == s.calls;
  }

  lemma GivenBack(owners: map<nat, nat>, id: nat, other: nat)
    ensures Reassign(Reassign(owners, OwnedBy(owners, id), other), OwnedBy(owners, id), id) == owners
  {
  }

  lemma EventsGivenBack(events: map<nat, Event>, id: nat, other: nat, now: map<nat, Event>)
    requires forall e :: e in now ==> e in MergeEvents(events, other, id) && now[e] == MergeEvents(events, other, id)[e]
    ensures var back := ReassignEvents(now, Transferred(events, other, id), id);
            forall e :: e in back ==> e in events && back[e] == events[e]
  {
  }

  datatype MergeRequest = MergeRequest(pair: Pair, custom: Columns)

  /** Each request merges away a record that is active when it comes. */
  ghost predicate MergesOfActive(s: Store, requests: seq<MergeRequest>)
    decreases |requests|
  {
    requests == [] ||
    (MergesActive(s, requests[0].pair)
     && MergesOfActive(Merge(s, requests[0].pair, requests[0].custom), requests[1..]))
  }

  ghost function MergeAll(s: Store, requests: seq<MergeRequest>): Store
    requires MergesOfActive(s, requests)
    decreases |requests|
  {
    if requests == [] then s else MergeAll(Merge(s, requests[0].pair, requests[0].custom), requests[1..])
  }

  /** Decisions `low..high` are unmerged, latest first. */
  ghost predicate CanUndo(s: Store, low: nat, high: nat)
    decreases high
  {
    low >= high || (CanUnmerge(s, high - 1) && CanUndo(Unmerge(s, high - 1), low, high - 1))
  }

  ghost function Undo(s: Store, low: nat, high: nat): Store
    requires CanUndo(s, low, high)
    decreases high
  {
    if low >= high then s else Undo(Unmerge(s, high - 1), low, high - 1)
  }

  lemma {:induction false} UndoOneMore(s: Store, low: nat, high: nat)
    requires low < high && CanUndo(s, low + 1, high) && CanUnmerge(Undo(s, low + 1, high), low)
    ensures CanUndo(s, low, high) && Undo(s, low, high) == Unmerge(Undo(s, low + 1, high), low)
    decreases high
  {
    if low + 1 < high {
      UndoOneMore(Unmerge(s, high - 1), low, high - 1);
    }
  }

  /** Unmerging the last `count` decisions of `t`, latest first, leads back to `s`. */
  ghost predicate LeadsBack(t: Store, s: Store, count: nat) {
    var n := |s.decisions|;
    && |t.decisions| == n + count
    && CanUndo(t, n, n + count) && Restored(Undo(t, n, n + count), s)
    && Undo(t, n, n + count).events.Keys == t.events.Keys
  }

  ghost predicate MergesActive(s: Store, pair: Pair) {
    && pair in s.candidates && pair.0 in s.calls && pair.1 in s.calls && pair.0 != pair.1
    && Active(s, MergedOf(s, pair)) && s.calls[MergedOf(s, pair)].mergedInto.None?
  }

  lemma LeadsBackOneMore(s: Store, pair: Pair, custom: Columns, t: Store, count: nat, next: nat)
    requires MergesActive(s, pair) && LeadsBack(t, Merge(s, pair, custom), count) && next == count + 1
    ensures LeadsBack(t, s, next)
  {
    var n, m := |s.decisions|, |Merge(s, pair, custom).decisions|;
    var end := n + next;
    assert m == n + 1 && m + count == end;
    UnmergeUndoesMerge(s, pair, custom, Undo(t, m, end));
    UndoOneMore(t, n, end);
  }

  /** For any sequence of merges of active records, unmerging the decisions in reverse order
      restores every column, merge pointer and child owner; only collided events stay lost. */
  lemma {:induction false} UndoRestoresEverything(s: Store, requests: seq<MergeRequest>)
    requires MergesOfActive(s, requests)
    ensures LeadsBack(MergeAll(s, requests), s, |requests|)
    decreases |requests|
  {
    if requests != [] {
      UndoRestoresEverything(Merge(s, requests[0].pair, requests[0].custom), requests[1..]);
      LeadsBackOneMore(s, requests[0].pair, requests[0].custom, MergeAll(s, requests), |requests| - 1,
                       |requests|);
    }
  }
}
