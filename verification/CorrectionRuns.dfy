/** Any run of corrections, approved or pending, automatic reconciliations and ingested readings. */
module CorrectionRuns {
  import opened Wrappers
  import opened Ordering
  import opened Journey
  import opened Corrections

  datatype Step =
    | Correction(slot: Slot, prior: Option<nat>, time: int, approved: bool, now: int)
    | Reconciliation(call: nat)
    | Ingestion(reading: Occurrence)

  function Ingest(s: Store, o: Occurrence): Store {
    if o.call !in s.calls || Taken(s.occurrences, SlotOf(o), o.index) then s
    else s.(occurrences := s.occurrences + [o.(id := |s.occurrences|, superseded := false, supersededBy := None)])
  }

  function Apply(s: Store, policy: Policy, step: Step): (t: Store)
    requires Numbered(s.occurrences)
    ensures Numbered(t.occurrences)
  {
    match step
    case Correction(slot, prior, time, approved, now) =>
      PriorIsAt(s, prior);
      (match Correct(s, policy, slot, prior, time, approved, now)
       case Ok(after) => after
       case Err(_) => s)
    case Reconciliation(call) => Reconcile(s, policy, call)
    case Ingestion(reading) => Ingest(s, reading)
  }

  /** A correction names no prior reading, an unknown one, or one of its own slot; raw indices stay below 1000. */
  predicate Allowed(s: Store, step: Step) {
    match step
    case Correction(slot, prior, _, _, _) => Prior(s, prior).Some? ==> SlotOf(Prior(s, prior).value) == slot
    case Reconciliation(_) => true
    case Ingestion(reading) => reading.index < 1000
  }

  // ---- The invariant ----

  ghost predicate Indexed(rows: seq<Occurrence>) {
    forall j, k :: 0 <= j < k < |rows| && SlotOf(rows[j]) == SlotOf(rows[k]) ==> rows[j].index != rows[k].index
  }

  predicate LinkAt(rows: seq<Occurrence>, k: nat)
    requires k < |rows|
  {
    if rows[k].superseded then
      match rows[k].supersededBy
      case None => false
      case Some(n) => k < n < |rows| && SlotOf(rows[n]) == SlotOf(rows[k]) && rows[n].index == rows[k].index + 1000
    else rows[k].supersededBy == None
  }

  ghost predicate Linked(rows: seq<Occurrence>) { forall k :: 0 <= k < |rows| ==> LinkAt(rows, k) }

  predicate ParentAt(rows: seq<Occurrence>, p: nat, k: nat)
    requires p < |rows| && k < |rows|
  {
    && SlotOf(rows[p]) == SlotOf(rows[k]) && rows[p].index + 1000 == rows[k].index
    && (rows[p].superseded ==> rows[p].supersededBy == Some(k))
  }

  /** Every high index comes from a correction of the reading a thousand below. */
  ghost predicate Parented(rows: seq<Occurrence>) {
    forall k :: 0 <= k < |rows| && rows[k].index >= 1000 ==> exists p :: 0 <= p < |rows| && ParentAt(rows, p, k)
  }

  ghost predicate RowsFine(rows: seq<Occurrence>) { Numbered(rows) && Indexed(rows) && Linked(rows) && Parented(rows) }

  predicate Governs(rows: seq<Occurrence>, slot: Slot, observation: Observation) {
    match observation.selected
    case None => false
    case Some(id) => id < |rows| && SlotOf(rows[id]) == slot && !rows[id].superseded
  }

  /** Every recorded selection is a live reading of its own slot. */
  ghost predicate Governed(s: Store) {
    forall slot :: slot in s.observations ==> Governs(s.occurrences, slot, s.observations[slot])
  }

  ghost predicate Inv(s: Store) { RowsFine(s.occurrences) && Governed(s) }

  /** Nothing is removed or retimed, and a link once made stays. */
  predicate Kept(o: Occurrence, p: Occurrence) {
    o.(superseded := p.superseded, supersededBy := p.supersededBy) == p && (o.superseded ==> o == p)
  }

  ghost predicate Extends(rows: seq<Occurrence>, later: seq<Occurrence>) {
    |rows| <= |later| && forall k :: 0 <= k < |rows| ==> Kept(rows[k], later[k])
  }

  /** A steward's decision is only ever replaced by a steward's decision. */
  ghost predicate OverridesLast(s: Store, t: Store) {
    forall slot :: slot in s.observations && s.observations[slot].steward ==>
      slot in t.observations && t.observations[slot].steward
  }

  // ---- Each step keeps it ----

  lemma AppendKeeps(rows: seq<Occurrence>, o: Occurrence)
    requires RowsFine(rows) && o.id == |rows| && !o.superseded && o.supersededBy == None
    requires !Taken(rows, SlotOf(o), o.index)
    requires o.index >= 1000 ==> exists p :: 0 <= p < |rows| && ParentAt(rows + [o], p, |rows|)
    ensures RowsFine(rows + [o]) && Extends(rows, rows + [o])
  {
    var more := rows + [o];
    forall k | 0 <= k < |more| ensures LinkAt(more, k) {
      if k < |rows| { assert LinkAt(rows, k); }
    }
    forall k | 0 <= k < |more| && more[k].index >= 1000 ensures exists p :: 0 <= p < |more| && ParentAt(more, p, k) {
      if k < |rows| {
        var p :| 0 <= p < |rows| && ParentAt(rows, p, k);
        assert ParentAt(more, p, k);
      }
    }
  }

  /** The correction of a live reading: the new row and the link, in one go. */
  lemma SupersedeKeeps(rows: seq<Occurrence>, prior: nat, o: Occurrence)
    requires RowsFine(rows) && prior < |rows| && !rows[prior].superseded
    requires o.id == |rows| && !o.superseded && o.supersededBy == None
    requires SlotOf(o) == SlotOf(rows[prior]) && o.index == rows[prior].index + 1000 && !Taken(rows, SlotOf(o), o.index)
    ensures RowsFine(Superseded(rows, prior, |rows|) + [o]) && Extends(rows, Superseded(rows, prior, |rows|) + [o])
  {
    var more := Superseded(rows, prior, |rows|) + [o];
    forall k | 0 <= k < |more| ensures LinkAt(more, k) {
      if k < |rows| { assert LinkAt(rows, k); }
    }
    assert ParentAt(more, prior, |rows|);
    forall k | 0 <= k < |more| && more[k].index >= 1000 ensures exists p :: 0 <= p < |more| && ParentAt(more, p, k) {
      if k < |rows| {
        var p :| 0 <= p < |rows| && ParentAt(rows, p, k);
        assert rows[k] in rows;
        assert ParentAt(more, p, k);
      }
    }
  }

  /** A superseded reading keeps its successor's index taken. */
  lemma SupersededIsTaken(rows: seq<Occurrence>, prior: nat)
    requires RowsFine(rows) && prior < |rows| && rows[prior].superseded
    ensures Taken(rows, SlotOf(rows[prior]), rows[prior].index + 1000)
  {
    assert LinkAt(rows, prior);
    assert rows[rows[prior].supersededBy.value] in rows;
  }

  lemma RecordedKeepsRows(s: Store, slot: Slot, prior: Option<Occurrence>, time: int, approved: bool, now: int)
    requires RowsFine(s.occurrences)
    requires prior.Some? ==> prior.value.id < |s.occurrences| && s.occurrences[prior.value.id] == prior.value
    requires prior.Some? ==> SlotOf(prior.value) == slot
    requires !Taken(s.occurrences, slot, Reading(slot, 0, prior, time, now).index)
    ensures RowsFine(Recorded(s, slot, prior, time, approved, now).occurrences)
    ensures Extends(s.occurrences, Recorded(s, slot, prior, time, approved, now).occurrences)
  {
    var rows, reading := s.occurrences, Reading(slot, |s.occurrences|, prior, time, now);
    if prior.Some? {
      if prior.value.superseded { SupersededIsTaken(rows, prior.value.id); }
      if approved {
        SupersedeKeeps(rows, prior.value.id, reading);
      } else {
        assert ParentAt(rows + [reading], prior.value.id, |rows|);
        AppendKeeps(rows, reading);
      }
    } else {
      AppendKeeps(rows, reading);
    }
  }

  lemma RecordedKeepsSelections(s: Store, slot: Slot, prior: Option<Occurrence>, time: int, approved: bool, now: int)
    requires Numbered(s.occurrences) && Governed(s)
    requires prior.Some? ==> prior.value.id < |s.occurrences| && s.occurrences[prior.value.id] == prior.value
    requires prior.Some? ==> SlotOf(prior.value) == slot
    ensures Governed(Recorded(s, slot, prior, time, approved, now))
  {
    var t := Recorded(s, slot, prior, time, approved, now);
    forall other | other in t.observations ensures Governs(t.occurrences, other, t.observations[other]) {
      if other in s.observations { assert Governs(s.occurrences, other, s.observations[other]); }
    }
  }

  /** The automatic choice is a live reading of the slot that no other outranks. */
  lemma BestIsMinimal(policy: Policy, live: seq<Occurrence>)
    requires live != []
    ensures Best(policy, live) in live && forall o :: o in live ==> Outranks(policy, Best(policy, live), o)
  {
    OutranksIsPreorder(policy);
    FirstOfSort(live, (o, p) => Outranks(policy, o, p));
  }

  /** What reconciling a call does to one slot. */
  lemma ReconcileSlot(s: Store, policy: Policy, call: nat, slot: Slot)
    requires Numbered(s.occurrences)
    ensures var t := Reconcile(s, policy, call);
            var live := Live(s.occurrences, slot);
            if slot.0 == call && Conflicting(s, policy, slot) then
              && slot in t.observations && !t.observations[slot].steward && t.observations[slot].selected.Some?
              && Governs(s.occurrences, slot, t.observations[slot])
              && exists o :: o in live && t.observations[slot].selected == Some(o.id)
                             && forall p :: p in live ==> Outranks(policy, o, p)
            else (slot in t.observations <==> slot in s.observations)
                 && (slot in s.observations ==> t.observations[slot] == s.observations[slot])
  {
    var live := Live(s.occurrences, slot);
    if slot.0 == call && Conflicting(s, policy, slot) {
      BestIsMinimal(policy, live);
      var best := Best(policy, live);
      assert live[0] in s.occurrences && live[0] in live;
      assert slot in SlotsOf(s.occurrences, call);
      assert best in s.occurrences;
      var k :| 0 <= k < |s.occurrences| && s.occurrences[k] == best;
    }
  }

  lemma ReconcileKeeps(s: Store, policy: Policy, call: nat)
    requires Numbered(s.occurrences) && Governed(s)
    ensures Governed(Reconcile(s, policy, call)) && OverridesLast(s, Reconcile(s, policy, call))
  {
    var t := Reconcile(s, policy, call);
    forall slot ensures slot in t.observations ==> Governs(t.occurrences, slot, t.observations[slot]) {
      ReconcileSlot(s, policy, call, slot);
    }
    forall slot | slot in s.observations && s.observations[slot].steward
      ensures slot in t.observations && t.observations[slot].steward
    {
      ReconcileSlot(s, policy, call, slot);
    }
  }

  lemma StepKeeps(s: Store, policy: Policy, step: Step)
    requires Inv(s) && Allowed(s, step)
    ensures var t := Apply(s, policy, step);
            Inv(t) && Extends(s.occurrences, t.occurrences) && OverridesLast(s, t)
  {
    match step
    case Correction(slot, priorId, time, approved, now) =>
      PriorIsAt(s, priorId);
      var prior := Prior(s, priorId);
      if Correct(s, policy, slot, priorId, time, approved, now).Ok? {
        RecordedKeepsRows(s, slot, prior, time, approved, now);
        RecordedKeepsSelections(s, slot, prior, time, approved, now);
        var t := Recorded(s, slot, prior, time, approved, now);
        assert OverridesLast(s, t);
        if approved { ReconcileKeeps(t, policy, slot.0); }
      }
    case Reconciliation(call) => ReconcileKeeps(s, policy, call);
    case Ingestion(reading) => IngestKeeps(s, reading);
  }

  lemma IngestKeeps(s: Store, o: Occurrence)
    requires Inv(s) && o.index < 1000
    ensures Inv(Ingest(s, o)) && Extends(s.occurrences, Ingest(s, o).occurrences) && OverridesLast(s, Ingest(s, o))
  {
    if o.call in s.calls && !Taken(s.occurrences, SlotOf(o), o.index) {
      AppendKeeps(s.occurrences, o.(id := |s.occurrences|, superseded := false, supersededBy := None));
      forall slot | slot in s.observations ensures Governs(Ingest(s, o).occurrences, slot, s.observations[slot]) {
        assert Governs(s.occurrences, slot, s.observations[slot]);
      }
    }
  }

  // ---- Whole runs ----

  function Run(s: Store, policy: Policy, steps: seq<Step>): Store
    requires Numbered(s.occurrences)
    decreases |steps|
  {
    if steps == [] then s else Run(Apply(s, policy, steps[0]), policy, steps[1..])
  }

  predicate AllowedRun(s: Store, policy: Policy, steps: seq<Step>)
    requires Numbered(s.occurrences)
    decreases |steps|
  {
    steps == [] || (Allowed(s, steps[0]) && AllowedRun(Apply(s, policy, steps[0]), policy, steps[1..]))
  }

  /** Over any run: no reading is removed or retimed, indices stay unique, links lead on and stay, every selection is
      a live reading of its slot, and an overridden slot stays overridden. */
  lemma {:induction false} RunKeeps(s: Store, policy: Policy, steps: seq<Step>)
    requires Inv(s) && AllowedRun(s, policy, steps)
    ensures Inv(Run(s, policy, steps))
    ensures Extends(s.occurrences, Run(s, policy, steps).occurrences) && OverridesLast(s, Run(s, policy, steps))
    decreases |steps|
  {
    if steps != [] {
      var t := Apply(s, policy, steps[0]);
      StepKeeps(s, policy, steps[0]);
      RunKeeps(t, policy, steps[1..]);
      ExtendsInTurn(s.occurrences, t.occurrences, Run(t, policy, steps[1..]).occurrences);
    }
  }

  lemma ExtendsInTurn(a: seq<Occurrence>, b: seq<Occurrence>, c: seq<Occurrence>)
    requires Extends(a, b) && Extends(b, c)
    ensures Extends(a, c)
  {
    forall k | 0 <= k < |a| ensures Kept(a[k], c[k]) {
      assert Kept(a[k], b[k]) && Kept(b[k], c[k]);
    }
  }

  /** The reading a supersession chain ends in. */
  function Governing(rows: seq<Occurrence>, k: nat): (n: nat)
    requires RowsFine(rows) && k < |rows|
    ensures k <= n < |rows| && !rows[n].superseded && SlotOf(rows[n]) == SlotOf(rows[k])
    ensures (n == k <==> !rows[k].superseded) && (rows[n].index - rows[k].index) % 1000 == 0
    ensures rows[n].index >= rows[k].index
    decreases |rows| - k
  {
    assert LinkAt(rows, k);
    if rows[k].superseded then Governing(rows, rows[k].supersededBy.value) else k
  }

  /** An automatic reconciliation leaves every overridden slot, and every other call, exactly as it was. */
  lemma ReconcileRespectsOverrides(s: Store, policy: Policy, call: nat, slot: Slot)
    requires Inv(s) && (slot.0 != call || (slot in s.observations && s.observations[slot].steward))
    ensures slot in Reconcile(s, policy, call).observations <==> slot in s.observations
    ensures slot in s.observations ==> Reconcile(s, policy, call).observations[slot] == s.observations[slot]
  {
    ReconcileSlot(s, policy, call, slot);
  }

  // ---- When a correction is accepted ----

  /** Every high index belongs to an approved correction. */
  ghost predicate NonePending(rows: seq<Occurrence>) {
    forall k :: 0 <= k < |rows| && rows[k].index >= 1000 ==>
      exists p :: 0 <= p < |rows| && ParentAt(rows, p, k) && rows[p].supersededBy == Some(k)
  }

  predicate Approved(step: Step) { step.Correction? ==> step.approved }

  lemma TakenIffSuperseded(rows: seq<Occurrence>, prior: nat)
    requires RowsFine(rows) && NonePending(rows) && prior < |rows| && rows[prior].index >= 0
    ensures Taken(rows, SlotOf(rows[prior]), rows[prior].index + 1000) <==> rows[prior].superseded
  {
    if rows[prior].superseded { SupersededIsTaken(rows, prior); }
    if Taken(rows, SlotOf(rows[prior]), rows[prior].index + 1000) {
      var o :| o in rows && SlotOf(o) == SlotOf(rows[prior]) && o.index == rows[prior].index + 1000;
      var k :| 0 <= k < |rows| && rows[k] == o;
      var p :| 0 <= p < |rows| && ParentAt(rows, p, k) && rows[p].supersededBy == Some(k);
      assert LinkAt(rows, p) && p == prior;
    }
  }

  /** As long as no correction is left pending, correcting a reading of a known call succeeds exactly when that
      reading is live; no index ever stands in the way. */
  lemma AcceptedIffLive(s: Store, policy: Policy, slot: Slot, prior: nat, time: int, approved: bool, now: int)
    requires RowsFine(s.occurrences) && NonePending(s.occurrences) && slot.0 in s.calls
    requires prior < |s.occurrences| && SlotOf(s.occurrences[prior]) == slot && s.occurrences[prior].index >= 0
    ensures Correct(s, policy, slot, Some(prior), time, approved, now).Ok? <==> !s.occurrences[prior].superseded
  {
    PriorIsAt(s, Some(prior));
    TakenIffSuperseded(s.occurrences, prior);
    OkIffFree(s, policy, slot, Some(prior), time, approved, now);
  }

  lemma OkIffFree(s: Store, policy: Policy, slot: Slot, prior: Option<nat>, time: int, approved: bool, now: int)
    requires Numbered(s.occurrences)
    ensures Correct(s, policy, slot, prior, time, approved, now).Ok?
            <==> slot.0 in s.calls
                 && !Taken(s.occurrences, slot, if Prior(s, prior).Some? then Prior(s, prior).value.index + 1000 else 1)
  {
  }

  lemma ApprovedStepLeavesNonePending(s: Store, policy: Policy, step: Step)
    requires Inv(s) && NonePending(s.occurrences) && Allowed(s, step) && Approved(step)
    ensures NonePending(Apply(s, policy, step).occurrences)
  {
    var t := Apply(s, policy, step);
    StepKeeps(s, policy, step);
    if step.Correction? { PriorIsAt(s, step.prior); }
    forall k | 0 <= k < |t.occurrences| && t.occurrences[k].index >= 1000
      ensures exists p :: 0 <= p < |t.occurrences| && ParentAt(t.occurrences, p, k)
                && t.occurrences[p].supersededBy == Some(k)
    {
      if k < |s.occurrences| {
        var p :| 0 <= p < |s.occurrences| && ParentAt(s.occurrences, p, k) && s.occurrences[p].supersededBy == Some(k);
        assert LinkAt(s.occurrences, p);
        assert Kept(s.occurrences[p], t.occurrences[p]) && Kept(s.occurrences[k], t.occurrences[k]);
        assert ParentAt(t.occurrences, p, k);
      } else {
        assert step.Correction? && Prior(s, step.prior).Some?;
        assert ParentAt(t.occurrences, Prior(s, step.prior).value.id, k);
      }
    }
  }
}
