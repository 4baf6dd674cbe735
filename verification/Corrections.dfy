/** Steward corrections and automatic selection: how an occurrence comes to govern its slot. */
module Corrections {
  import opened Wrappers
  import opened Ordering
  import opened Journey

  datatype Policy = Policy(verification: seq<string>, sources: seq<string>, repeatable: set<nat>)

  datatype Store = Store(calls: set<nat>, occurrences: seq<Occurrence>, observations: Observations)

  // ---- Automatic selection ----

  function Place(s: seq<string>, x: string): (n: nat)
    ensures n <= |s| && (n < |s| ==> s[n] == x) && forall k :: 0 <= k < n ==> s[k] != x
  {
    if s == [] || s[0] == x then 0 else 1 + Place(s[1..], x)
  }

  /** Verification first, then confidence, then source, then age. */
  predicate Outranks(policy: Policy, o: Occurrence, p: Occurrence) {
    var v, w := Place(policy.verification, o.verification), Place(policy.verification, p.verification);
    var a, b := Place(policy.sources, o.source), Place(policy.sources, p.source);
    v < w
      || (v == w
          && (o.confidence > p.confidence
              || (o.confidence == p.confidence && (a < b || (a == b && o.created <= p.created)))))
  }

  function LiveIn(slot: Slot): Occurrence -> bool { (o: Occurrence) => SlotOf(o) == slot && !o.superseded }

  function Live(rows: seq<Occurrence>, slot: Slot): (r: seq<Occurrence>)
    ensures forall o :: o in r <==> o in rows && SlotOf(o) == slot && !o.superseded
  {
    Filter(rows, LiveIn(slot))
  }

  function Best(policy: Policy, live: seq<Occurrence>): (o: Occurrence)
    requires live != []
  {
    Sort(live, (o, p) => Outranks(policy, o, p))[0]
  }

  /** Several live readings of an event that happens once, and no steward's decision. */
  predicate Conflicting(s: Store, policy: Policy, slot: Slot) {
    && slot.1 !in policy.repeatable && |Live(s.occurrences, slot)| > 1
    && !(slot in s.observations && s.observations[slot].steward)
  }

  function SlotsOf(rows: seq<Occurrence>, call: nat): set<Slot> {
    set o | o in rows && o.call == call && !o.superseded :: SlotOf(o)
  }

  function Decision(s: Store, policy: Policy, slot: Slot): Observation
    requires Conflicting(s, policy, slot)
  {
    Observation(Some(Best(policy, Live(s.occurrences, slot)).id), false)
  }

  function Decisions(s: Store, policy: Policy, slots: set<Slot>): (m: Observations)
    ensures forall slot :: slot in m <==> slot in slots && Conflicting(s, policy, slot)
    ensures forall slot :: slot in m ==> m[slot] == Decision(s, policy, slot)
  {
    map slot | slot in slots && Conflicting(s, policy, slot) :: Decision(s, policy, slot)
  }

  function Reconcile(s: Store, policy: Policy, call: nat): Store {
    s.(observations := s.observations + Decisions(s, policy, SlotsOf(s.occurrences, call)))
  }

  lemma OneMore(base: Observations, m: Observations, n: Observations, slot: Slot)
    requires slot !in m && m.Keys <= n.Keys <= m.Keys + {slot}
    requires forall k :: k in m ==> n[k] == m[k]
    ensures base + n == if slot in n then (base + m)[slot := n[slot]] else base + m
  {
  }

  // ---- Corrections ----

  predicate Taken(rows: seq<Occurrence>, slot: Slot, index: int) {
    exists o :: o in rows && SlotOf(o) == slot && o.index == index
  }

  function Prior(s: Store, id: Option<nat>): (r: Option<Occurrence>)
    ensures r.Some? ==> r.value in s.occurrences
  {
    if id.Some? then ById(s.occurrences, id.value) else None
  }

  function Reading(slot: Slot, id: nat, prior: Option<Occurrence>, time: int, now: int): Occurrence {
    Occurrence(id, slot.0, slot.1, if prior.Some? then prior.value.index + 1000 else 1, time,
               false, None, false, "Verified", 1.0, "STEWARD_CORRECTION", now)
  }

  function Superseded(rows: seq<Occurrence>, prior: nat, successor: nat): seq<Occurrence>
    requires prior < |rows|
  {
    rows[prior := rows[prior].(superseded := true, supersededBy := Some(successor))]
  }

  ghost predicate Numbered(rows: seq<Occurrence>) { forall k :: 0 <= k < |rows| ==> rows[k].id == k }

  /** The new reading, the link from the old one and the override, before the journey is rebuilt. */
  function Recorded(s: Store, slot: Slot, prior: Option<Occurrence>, time: int, approved: bool, now: int): Store
    requires prior.Some? ==> prior.value.id < |s.occurrences|
  {
    var id := |s.occurrences|;
    var rows := if approved && prior.Some? then Superseded(s.occurrences, prior.value.id, id) else s.occurrences;
    s.(occurrences := rows + [Reading(slot, id, prior, time, now)],
       observations := if approved then s.observations[slot := Observation(Some(id), true)] else s.observations)
  }

  lemma PriorIsAt(s: Store, id: Option<nat>)
    requires Numbered(s.occurrences)
    ensures match Prior(s, id)
            case None => id.None? || id.value >= |s.occurrences|
            case Some(o) => id == Some(o.id) && o.id < |s.occurrences| && s.occurrences[o.id] == o
  {
    if id.Some? && id.value < |s.occurrences| { assert s.occurrences[id.value] in s.occurrences; }
  }

  /** `create_correction`: the unique key of an occurrence is what may turn it down. */
  function Correct(s: Store, policy: Policy, slot: Slot, priorId: Option<nat>, time: int, approved: bool,
                   now: int): (r: Result<Store>)
    requires Numbered(s.occurrences)
  {
    PriorIsAt(s, priorId);
    var prior := Prior(s, priorId);
    var recorded := Recorded(s, slot, prior, time, approved, now);
    if slot.0 !in s.calls then Err("vessel call not found")
    else if Taken(s.occurrences, slot, Reading(slot, 0, prior, time, now).index) then Err("occurrence index taken")
    else Ok(if approved then Reconcile(recorded, policy, slot.0) else recorded)
  }

  // ---- What they leave, column by column

  ghost predicate IsLive(o: Occurrence, slot: Slot) {
    o.call == slot.0 && o.definition == slot.1 && !o.superseded
  }

  /** Two live readings, no repeatable event, no steward's decision. */
  ghost predicate Contested(s: Store, policy: Policy, slot: Slot) {
    && (exists j, k :: 0 <= j < k < |s.occurrences| && IsLive(s.occurrences[j], slot) && IsLive(s.occurrences[k], slot))
    && slot.1 !in policy.repeatable && (slot in s.observations ==> !s.observations[slot].steward)
  }

  lemma ConflictingIffContested(s: Store, policy: Policy, slot: Slot)
    ensures Conflicting(s, policy, slot) <==> Contested(s, policy, slot)
  {
    FilterKeepsTwo(s.occurrences, LiveIn(slot));
    assert forall o :: LiveIn(slot)(o) <==> IsLive(o, slot);
  }

  /** A better verification decides; of equal ones the greater confidence, then the better source, then the age. */
  ghost predicate Prevails(policy: Policy, o: Occurrence, p: Occurrence) {
    var v, w := Place(policy.verification, o.verification), Place(policy.verification, p.verification);
    var a, b := Place(policy.sources, o.source), Place(policy.sources, p.source);
    && v <= w
    && (v == w ==> o.confidence >= p.confidence)
    && (v == w && o.confidence == p.confidence ==> a <= b)
    && (v == w && o.confidence == p.confidence && a == b ==> o.created <= p.created)
  }

  lemma OutranksIsPreorder(policy: Policy)
    ensures TotalPreorder((o: Occurrence, p: Occurrence) => Outranks(policy, o, p))
  {
  }

  lemma BestPrevails(policy: Policy, live: seq<Occurrence>)
    requires live != []
    ensures Best(policy, live) in live && forall o :: o in live ==> Prevails(policy, Best(policy, live), o)
  {
    OutranksIsPreorder(policy);
    FirstOfSort(live, (o, p) => Outranks(policy, o, p));
  }

  /** A live reading of the slot that prevails over every other. */
  ghost predicate Foremost(rows: seq<Occurrence>, policy: Policy, slot: Slot, o: Occurrence) {
    o in rows && IsLive(o, slot) && forall p :: p in rows && IsLive(p, slot) ==> Prevails(policy, o, p)
  }

  ghost predicate SelectsForemost(rows: seq<Occurrence>, policy: Policy, slot: Slot, decision: Observation) {
    !decision.steward && exists o :: Foremost(rows, policy, slot, o) && decision.selected == Some(o.id)
  }

  ghost predicate SlotDecides(was: Store, now: Observations, policy: Policy, call: nat, slot: Slot) {
    if slot.0 == call && Contested(was, policy, slot) then
      slot in now && SelectsForemost(was.occurrences, policy, slot, now[slot])
    else
      (slot in now <==> slot in was.observations) && (slot in now ==> now[slot] == was.observations[slot])
  }

  /** Each contested slot of the call now selects, automatically, a live reading that prevails over all the others, and
      no other decision has changed. */
  ghost predicate Decides(was: Store, now: Store, policy: Policy, call: nat) {
    && now.calls == was.calls && now.occurrences == was.occurrences
    && forall slot: Slot :: SlotDecides(was, now.observations, policy, call, slot)
  }

  lemma DecisionSelectsForemost(s: Store, policy: Policy, slot: Slot)
    requires Conflicting(s, policy, slot)
    ensures SelectsForemost(s.occurrences, policy, slot, Decision(s, policy, slot))
  {
    var live := Live(s.occurrences, slot);
    BestPrevails(policy, live);
    assert Foremost(s.occurrences, policy, slot, Best(policy, live));
  }

  lemma ConflictingSlotIsOfCall(s: Store, policy: Policy, slot: Slot, call: nat)
    requires Conflicting(s, policy, slot)
    ensures slot in SlotsOf(s.occurrences, call) <==> slot.0 == call
  {
    var o := Live(s.occurrences, slot)[0];
    assert o in Live(s.occurrences, slot) && SlotOf(o) == slot;
  }

  lemma ReconcileDecides(s: Store, policy: Policy, call: nat)
    ensures Decides(s, Reconcile(s, policy, call), policy, call)
  {
    var decisions := Decisions(s, policy, SlotsOf(s.occurrences, call));
    var t := s.observations + decisions;
    forall slot: Slot ensures SlotDecides(s, t, policy, call, slot) {
      ConflictingIffContested(s, policy, slot);
      if Conflicting(s, policy, slot) {
        ConflictingSlotIsOfCall(s, policy, slot, call);
        DecisionSelectsForemost(s, policy, slot);
      }
    }
  }

  /** The index that a correction of `prior` takes. */
  function NextIndex(rows: seq<Occurrence>, prior: Option<nat>): int {
    if prior.Some? && prior.value < |rows| then rows[prior.value].index + 1000 else 1
  }

  /** One row is added: a verified reading of the slot with the corrected time and full confidence. The row it corrects
      is superseded by it exactly when the correction is approved; every other row stays. */
  ghost predicate AddsReading(was: seq<Occurrence>, now: seq<Occurrence>, slot: Slot, prior: Option<nat>, time: int,
                              approved: bool, created: int) {
    && |now| == |was| + 1
    && var n := |was|;
       && (now[n].id, now[n].call, now[n].definition) == (n, slot.0, slot.1)
       && (now[n].time, now[n].created, now[n].index) == (time, created, NextIndex(was, prior))
       && now[n].verification == "Verified" && now[n].confidence == 1.0 && now[n].source == "STEWARD_CORRECTION"
       && !now[n].superseded && now[n].supersededBy.None? && !now[n].quarantined
       && forall k :: 0 <= k < n ==>
            now[k] == if approved && prior == Some(k) then was[k].(superseded := true, supersededBy := Some(n))
                      else was[k]
  }

  /** An approved correction is the steward's decision for its slot, and no other call's decisions change; one that is
      not yet approved changes none. */
  ghost predicate Overrides(was: Observations, now: Observations, slot: Slot, id: nat, approved: bool) {
    if approved then
      && slot in now && now[slot] == Observation(Some(id), true)
      && forall other: Slot :: other.0 != slot.0 ==>
           (other in now <==> other in was) && (other in was ==> now[other] == was[other])
    else now == was
  }

  /** Apart from that decision, the contested slots of the call are decided anew on the rows as they are now. */
  ghost predicate Rebuilt(was: Observations, now: Store, policy: Policy, slot: Slot, id: nat) {
    Decides(now.(observations := was[slot := Observation(Some(id), true)]), now, policy, slot.0)
  }

  ghost predicate TurnedDown(s: Store, slot: Slot, prior: Option<nat>) {
    slot.0 !in s.calls
    || exists o :: o in s.occurrences && o.call == slot.0 && o.definition == slot.1
                   && o.index == NextIndex(s.occurrences, prior)
  }

  lemma CorrectAddsReading(s: Store, policy: Policy, slot: Slot, prior: Option<nat>, time: int, approved: bool,
                           now: int)
    requires Numbered(s.occurrences)
    ensures match Correct(s, policy, slot, prior, time, approved, now)
            case Err(_) => TurnedDown(s, slot, prior)
            case Ok(t) => !TurnedDown(s, slot, prior) && t.calls == s.calls
                          && AddsReading(s.occurrences, t.occurrences, slot, prior, time, approved, now)
                          && Overrides(s.observations, t.observations, slot, |s.occurrences|, approved)
                          && (approved ==> Rebuilt(s.observations, t, policy, slot, |s.occurrences|))
  {
    PriorIsAt(s, prior);
    var recorded := Recorded(s, slot, Prior(s, prior), time, approved, now);
    ReconcileDecides(recorded, policy, slot.0);
  }

  class JourneyStore {
    var calls: set<nat>
    var occurrences: seq<Occurrence>
    var observations: Observations

    function State(): Store
      reads this
    {
      Store(calls, occurrences, observations)
    }

    method ResolveVesselCall(policy: Policy, call: nat)
      modifies this`observations
      ensures State() == Reconcile(old(State()), policy, call)
      ensures Decides(old(State()), State(), policy, call)
    {
      ghost var was := State();
      ResolveSlots(policy, call);
      ReconcileDecides(was, policy, call);
    }

    method ResolveSlots(policy: Policy, call: nat)
      modifies this`observations
      ensures State() == Reconcile(old(State()), policy, call)
    {
      var live := Filter(occurrences, (o: Occurrence) => o.call == call && !o.superseded);
      var todo := set o | o in live :: SlotOf(o);
      ghost var was := State();
      assert todo == SlotsOf(occurrences, call);
      while todo != {}
        invariant todo <= SlotsOf(occurrences, call)
        invariant observations == was.observations + Decisions(was, policy, SlotsOf(occurrences, call) - todo)
        decreases todo
      {
        var slot :| slot in todo;
        ghost var done := SlotsOf(occurrences, call) - todo;
        ResolveSlot(policy, slot, was);
        todo := todo - {slot};
        assert done + {slot} == SlotsOf(occurrences, call) - todo;
        OneMore(was.observations, Decisions(was, policy, done), Decisions(was, policy, done + {slot}), slot);
      }
      assert SlotsOf(occurrences, call) - {} == SlotsOf(occurrences, call);
    }

    method ResolveSlot(policy: Policy, slot: Slot, ghost was: Store)
      requires was.occurrences == occurrences
      requires slot in observations <==> slot in was.observations
      requires slot in observations ==> observations[slot] == was.observations[slot]
      modifies this`observations
      ensures observations
              == if Conflicting(was, policy, slot) then old(observations)[slot := Decision(was, policy, slot)]
                 else old(observations)
    {
      if slot.1 in policy.repeatable { return; }
      var group := Live(occurrences, slot);
      if |group| <= 1 { return; }
      var selected := Best(policy, group);
      if slot in observations && observations[slot].steward { return; }
      observations := observations[slot := Observation(Some(selected.id), false)];
    }

    method RecordCanonicalOverride(slot: Slot, id: nat)
      modifies this`observations
      ensures observations == old(observations)[slot := Observation(Some(id), true)]
    {
      var existing := if slot in observations then observations[slot] else Observation(None, false);
      existing := existing.(selected := Some(id));
      existing := existing.(steward := true);
      observations := observations[slot := existing];
    }

    method CreateCorrection(policy: Policy, slot: Slot, priorId: Option<nat>, time: int, approved: bool, now: int)
      returns (r: Result<nat>)
      requires Numbered(occurrences)
      modifies this
      ensures match Correct(old(State()), policy, slot, priorId, time, approved, now)
              case Ok(after) => State() == after && r == Ok(|old(occurrences)|)
              case Err(reason) => State() == old(State()) && r == Err(reason)
      ensures r.Err? <==> TurnedDown(old(State()), slot, priorId)
      ensures r.Ok? ==> AddsReading(old(occurrences), occurrences, slot, priorId, time, approved, now)
                        && Overrides(old(observations), observations, slot, r.value, approved)
                        && (approved ==> Rebuilt(old(observations), State(), policy, slot, r.value))
    {
      CorrectAddsReading(State(), policy, slot, priorId, time, approved, now);
      if slot.0 !in calls { return Err("vessel call not found"); }
      PriorIsAt(State(), priorId);
      var prior := Prior(State(), priorId);
      var id := |occurrences|;
      var reading := Reading(slot, id, prior, time, now);
      if Taken(occurrences, slot, reading.index) { return Err("occurrence index taken"); }
      occurrences := occurrences + [reading];
      if approved && prior.Some? {
        occurrences := Superseded(occurrences, prior.value.id, id);
      }
      if approved {
        RecordCanonicalOverride(slot, id);
        assert State() == Recorded(old(State()), slot, prior, time, approved, now);
        ResolveVesselCall(policy, slot.0);
      }
      return Ok(id);
    }
  }
}
