/** What the recorded selections are worth to those who read them, and where corrections can spoil them. */
module Governance {
  import opened Wrappers
  import opened Ordering
  import opened Journey
  import opened Resolution
  import opened Corrections
  import opened CorrectionRuns

  lemma FineRowsAreKeyed(rows: seq<Occurrence>)
    requires RowsFine(rows)
    ensures KeysUnique(rows)
  {
    forall o, p | o in rows && p in rows && (o.id == p.id || (SlotOf(o) == SlotOf(p) && o.index == p.index))
      ensures o == p
    {
      var j :| 0 <= j < |rows| && rows[j] == o;
      var k :| 0 <= k < |rows| && rows[k] == p;
    }
  }

  /** After any run from a sound store, the batched and the per-slot resolution select the same reading for every
      call and event they both look at. */
  lemma ResolutionsAgreeAfterAnyRun(s: Store, policy: Policy, steps: seq<Step>, calls: seq<nat>, pair: set<nat>,
                                    slot: Slot)
    requires Inv(s) && AllowedRun(s, policy, steps) && slot.0 in calls && slot.1 in pair
    ensures var t := Run(s, policy, steps);
            Selected(LoadedRows(t.occurrences, calls, pair), t.observations, slot)
              == Resolve(t.occurrences, t.observations, slot, false, true)
  {
    var t := Run(s, policy, steps);
    RunKeeps(s, policy, steps);
    FineRowsAreKeyed(t.occurrences);
    BatchedAgreesIff(t.occurrences, t.observations, calls, pair, slot);
    if slot in t.observations {
      assert Governs(t.occurrences, slot, t.observations[slot]);
      var id := t.observations[slot].selected.value;
      assert t.occurrences[id] in t.occurrences;
      ByIdFinds(t.occurrences, t.occurrences[id]);
    }
  }

  // ---- What a correction is for

  /** From an approved correction on, every reader of its slot works with the corrected time: the batched and the
      per-slot resolution alike, for the first and the last occurrence, with or without quarantined readings. */
  lemma CorrectedTimeGoverns(s: Store, policy: Policy, slot: Slot, prior: Option<nat>, time: int, now: int,
                             calls: seq<nat>, pair: set<nat>, last: bool, excludeQuarantined: bool)
    requires Numbered(s.occurrences) && Correct(s, policy, slot, prior, time, true, now).Ok?
    requires slot.0 in calls && slot.1 in pair
    ensures var t := Correct(s, policy, slot, prior, time, true, now).value;
            && TimeOf(Resolve(t.occurrences, t.observations, slot, last, excludeQuarantined)) == Some(time)
            && TimeOf(Selected(LoadedRows(t.occurrences, calls, pair), t.observations, slot)) == Some(time)
  {
    var t := Correct(s, policy, slot, prior, time, true, now).value;
    var rows, n := t.occurrences, |s.occurrences|;
    CorrectAddsReading(s, policy, slot, prior, time, true, now);
    OnlyRowOfId(s.occurrences, rows, slot, prior, time, now);
    LoadedAre(rows, calls, pair);
    OnlyOneFound(rows, rows[n]);
    OnlyOneFound(LoadedRows(rows, calls, pair), rows[n]);
  }

  function TimeOf(o: Option<Occurrence>): Option<int> {
    if o.Some? then Some(o.value.time) else None
  }

  lemma OnlyRowOfId(was: seq<Occurrence>, now: seq<Occurrence>, slot: Slot, prior: Option<nat>, time: int,
                    created: int)
    requires Numbered(was) && AddsReading(was, now, slot, prior, time, true, created)
    ensures now[|was|] in now && forall o :: o in now && o.id == |was| ==> o == now[|was|]
  {
    assert forall k :: 0 <= k < |was| ==> now[k].id == was[k].id;
    forall o | o in now && o.id == |was| ensures o == now[|was|] {
      var k :| 0 <= k < |now| && now[k] == o;
    }
  }

  lemma OnlyOneFound(rows: seq<Occurrence>, o: Occurrence)
    requires o in rows && forall p :: p in rows && p.id == o.id ==> p == o
    ensures ById(rows, o.id) == Some(o)
  {
    var found := ById(rows, o.id);
  }

  // ---- A prior reading of another slot

  /** Two other live readings remain to choose from, and the choice is open. */
  predicate Reopens(s: Store, policy: Policy, slot: Slot, other: Slot) {
    && other.0 == slot.0 && other.1 !in policy.repeatable && |Live(s.occurrences, other)| > 2
    && !(other in s.observations && s.observations[other].steward)
  }

  /** An approved correction that names a reading of another slot leaves every selection sound exactly when that
      other slot does not rely on the reading, or lies in the same call and is decided anew when the journey is
      rebuilt. The code checks none of this. */
  lemma ForeignPriorIff(s: Store, policy: Policy, slot: Slot, prior: nat, time: int, now: int)
    requires Inv(s) && prior < |s.occurrences| && Correct(s, policy, slot, Some(prior), time, true, now).Ok?
    ensures Governed(Correct(s, policy, slot, Some(prior), time, true, now).value)
       <==> var other := SlotOf(s.occurrences[prior]);
            || other == slot || other !in s.observations || s.observations[other].selected != Some(prior)
            || Reopens(s, policy, slot, other)
  {
    PriorIsAt(s, Some(prior));
    var r := Recorded(s, slot, Some(s.occurrences[prior]), time, true, now);
    ReconciledGovernedIff(r, policy, slot.0);
    forall other ensures Unsound(r, other) <==> Abandoned(s, slot, prior, other) {
      UnsoundAfter(s, slot, prior, time, now, other);
    }
    var other := SlotOf(s.occurrences[prior]);
    if Unsound(r, other) { ConflictingAfter(s, policy, slot, prior, time, now); }
  }

  /** The slot relies on a reading that a correction of another slot supersedes. */
  predicate Abandoned(s: Store, slot: Slot, prior: nat, other: Slot)
    requires prior < |s.occurrences|
  {
    && other == SlotOf(s.occurrences[prior]) && other != slot
    && other in s.observations && s.observations[other].selected == Some(prior)
  }

  predicate Unsound(s: Store, slot: Slot) {
    slot in s.observations && !Governs(s.occurrences, slot, s.observations[slot])
  }

  /** Rebuilding the journey of a call repairs the selections of its conflicting slots and no other. */
  lemma ReconciledGovernedIff(s: Store, policy: Policy, call: nat)
    requires Numbered(s.occurrences)
    ensures Governed(Reconcile(s, policy, call))
       <==> forall slot :: Unsound(s, slot) ==> slot.0 == call && Conflicting(s, policy, slot)
  {
    var t := Reconcile(s, policy, call);
    forall slot ensures slot in t.observations && !Governs(t.occurrences, slot, t.observations[slot])
                   <==> Unsound(s, slot) && !(slot.0 == call && Conflicting(s, policy, slot)) {
      ReconcileSlot(s, policy, call, slot);
    }
  }

  lemma UnsoundAfter(s: Store, slot: Slot, prior: nat, time: int, now: int, other: Slot)
    requires Inv(s) && prior < |s.occurrences|
    ensures Unsound(Recorded(s, slot, Some(s.occurrences[prior]), time, true, now), other)
       <==> Abandoned(s, slot, prior, other)
  {
    if other in s.observations { assert Governs(s.occurrences, other, s.observations[other]); }
  }

  lemma ConflictingAfter(s: Store, policy: Policy, slot: Slot, prior: nat, time: int, now: int)
    requires Inv(s) && prior < |s.occurrences| && SlotOf(s.occurrences[prior]) != slot
    requires !s.occurrences[prior].superseded
    ensures var other := SlotOf(s.occurrences[prior]);
            other.0 == slot.0
              && Conflicting(Recorded(s, slot, Some(s.occurrences[prior]), time, true, now), policy, other)
            <==> Reopens(s, policy, slot, other)
  {
    var o, other := s.occurrences[prior], SlotOf(s.occurrences[prior]);
    var rows := Superseded(s.occurrences, prior, |s.occurrences|);
    var reading := Reading(slot, |s.occurrences|, Some(o), time, now);
    FilterLosesOne(s.occurrences, prior, rows[prior], LiveIn(other));
    FilterOfAppend(rows, reading, LiveIn(other));
  }

  /** Such a correction exists: it leaves the other slot with a superseded selection. */
  lemma ForeignPriorCanSpoil(policy: Policy) returns (s: Store, slot: Slot, prior: nat)
    ensures Inv(s) && prior < |s.occurrences| && Correct(s, policy, slot, Some(prior), 5, true, 9).Ok?
    ensures !Governed(Correct(s, policy, slot, Some(prior), 5, true, 9).value)
  {
    var o := Occurrence(0, 0, 1, 1, 0, false, None, false, "Verified", 1.0, "AIS", 0);
    s, slot, prior := Store({0}, [o], map[(0, 1) := Observation(Some(0), false)]), (0, 0), 0;
    assert Governs([o], (0, 1), Observation(Some(0), false));
    PriorIsAt(s, Some(0));
    OkIffFree(s, policy, slot, Some(prior), 5, true, 9);
    ForeignPriorIff(s, policy, slot, prior, 5, 9);
  }

  // ---- A correction that is not yet approved

  /** A pending correction is already a live reading. The next reconciliation of its call selects it exactly when
      the event happens once, no steward has decided, there is another live reading, and none ranks at least as high. */
  lemma PendingCorrectionGoverns(s: Store, policy: Policy, slot: Slot, prior: Option<Occurrence>, time: int, now: int)
    requires Inv(s) && (prior.Some? ==> prior.value.id < |s.occurrences|)
    ensures var t := Reconcile(Recorded(s, slot, prior, time, false, now), policy, slot.0);
            slot in t.observations && t.observations[slot].selected == Some(|s.occurrences|)
            <==> && slot.1 !in policy.repeatable && !(slot in s.observations && s.observations[slot].steward)
                 && Live(s.occurrences, slot) != []
                 && forall o :: o in Live(s.occurrences, slot) ==>
                      !Outranks(policy, o, Reading(slot, |s.occurrences|, prior, time, now))
  {
    var reading, r := Reading(slot, |s.occurrences|, prior, time, now), Recorded(s, slot, prior, time, false, now);
    var live := Live(s.occurrences, slot);
    FilterOfAppend(s.occurrences, reading, LiveIn(slot));
    assert Live(r.occurrences, slot) == live + [reading];
    ReconcileSelects(r, policy, slot);
    if Conflicting(r, policy, slot) {
      LastComesFirstIff(live, reading, (o, p) => Outranks(policy, o, p));
      BestIsMinimal(policy, live + [reading]);
      IdsOfLive(s, slot, Best(policy, live + [reading]), reading);
    } else if slot in s.observations {
      assert Governs(s.occurrences, slot, s.observations[slot]);
    }
  }

  lemma IdsOfLive(s: Store, slot: Slot, best: Occurrence, reading: Occurrence)
    requires Numbered(s.occurrences) && best in Live(s.occurrences, slot) + [reading] && reading.id == |s.occurrences|
    ensures best.id == |s.occurrences| <==> best == reading
  {
    if best in Live(s.occurrences, slot) {
      var k :| 0 <= k < |s.occurrences| && s.occurrences[k] == best;
    }
  }

  lemma ReconcileSelects(s: Store, policy: Policy, slot: Slot)
    requires Numbered(s.occurrences)
    ensures var t := Reconcile(s, policy, slot.0);
            if Conflicting(s, policy, slot) then
              slot in t.observations
                && t.observations[slot].selected == Some(Best(policy, Live(s.occurrences, slot)).id)
            else (slot in t.observations <==> slot in s.observations)
                 && (slot in s.observations ==> t.observations[slot] == s.observations[slot])
  {
    if Conflicting(s, policy, slot) {
      var live := Live(s.occurrences, slot);
      assert live[0] in live && live[0] in s.occurrences;
      assert slot in SlotsOf(s.occurrences, slot.0);
    }
  }

  /** Where it is the only live reading no reconciliation is needed: the fallback of every reader picks it at once. */
  lemma PendingFillsEmptySlot(s: Store, slot: Slot, prior: Option<Occurrence>, time: int, now: int,
                              last: bool, excludeQuarantined: bool)
    requires Inv(s) && (prior.Some? ==> prior.value.id < |s.occurrences|) && Live(s.occurrences, slot) == []
    ensures var r := Recorded(s, slot, prior, time, false, now);
            Resolve(r.occurrences, r.observations, slot, last, excludeQuarantined)
            == Some(Reading(slot, |s.occurrences|, prior, time, now))
  {
    var reading, r := Reading(slot, |s.occurrences|, prior, time, now), Recorded(s, slot, prior, time, false, now);
    if slot in s.observations { SelectedIsLive(s, slot); }
    var wanted := (o: Occurrence) => SlotOf(o) == slot && Usable(o, excludeQuarantined);
    NoneToFilter(s.occurrences, wanted, slot);
    FilterOfAppend(s.occurrences, reading, wanted);
    assert SlotRows(r.occurrences, slot, excludeQuarantined) == [reading];
  }

  lemma SelectedIsLive(s: Store, slot: Slot)
    requires Governed(s) && slot in s.observations
    ensures Live(s.occurrences, slot) != []
  {
    assert Governs(s.occurrences, slot, s.observations[slot]);
    assert s.occurrences[s.observations[slot].selected.value] in Live(s.occurrences, slot);
  }

  lemma SomeMember(rows: seq<Occurrence>)
    ensures rows == [] || exists o :: o in rows
  {
    if rows != [] { assert rows[0] in rows; }
  }

  lemma NoneToFilter(rows: seq<Occurrence>, wanted: Occurrence -> bool, slot: Slot)
    requires Live(rows, slot) == [] && forall o :: wanted(o) ==> SlotOf(o) == slot && !o.superseded
    ensures Filter(rows, wanted) == []
  {
    SomeMember(Filter(rows, wanted));
    assert forall o :: o in Filter(rows, wanted) ==> o in Live(rows, slot);
  }

  /** The batched query loads only active calls: a winner that has moved to a merged call governs one side and is
      unknown to the other. */
  lemma MergedWinnerSplitsThem(o: Occurrence, calls: seq<nat>, pair: set<nat>, slot: Slot)
    requires Usable(o, true) && o.call !in calls && slot.0 in calls && slot.1 in pair
    ensures KeysUnique([o])
    ensures Resolve([o], map[slot := Observation(Some(o.id), false)], slot, false, true) == Some(o)
    ensures Selected(LoadedRows([o], calls, pair), map[slot := Observation(Some(o.id), false)], slot) != Some(o)
  {
    var observations: Observations := map[slot := Observation(Some(o.id), false)];
    assert Winner([o], observations, slot, true) == Some(o);
    BatchedAgreesIff([o], observations, calls, pair, slot);
  }
}
