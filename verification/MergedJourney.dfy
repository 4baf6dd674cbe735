/** What merging and unmerging calls does to the recorded selections, which stay with the call they were made for. */
module MergedJourney {
  import opened Wrappers
  import opened Journey
  import opened Resolution
  import Merging

  /** A standing merge, with the readings it moved. */
  datatype Move = Move(survivor: nat, merged: nat, moved: set<nat>)

  datatype World = World(rows: seq<Occurrence>, observations: Observations, active: set<nat>, moves: set<Move>)

  datatype Step =
    | MergeCalls(survivor: nat, merged: nat)
    | UnmergeCalls(move: Move)
    | Decide(slot: Slot, id: nat, steward: bool)   // the selector or a steward selects a live reading
    | Ingest(o: Occurrence)

  // ---------------------------------------------------------------- the rows

  /** The survivor already has a reading of this event and index. */
  predicate Collides(rows: seq<Occurrence>, o: Occurrence, survivor: nat) {
    exists p :: p in rows && p.call == survivor && p.definition == o.definition && p.index == o.index
  }

  predicate Stays(rows: seq<Occurrence>, o: Occurrence, survivor: nat, merged: nat) {
    o.call == merged ==> !Collides(rows, o, survivor)
  }

  function KeptRows(rows: seq<Occurrence>, survivor: nat, merged: nat): seq<Occurrence> {
    Filter(rows, (o: Occurrence) => Stays(rows, o, survivor, merged))
  }

  function MovedTo(o: Occurrence, survivor: nat, merged: nat): Occurrence {
    if o.call == merged then o.(call := survivor) else o
  }

  function MergeRows(rows: seq<Occurrence>, survivor: nat, merged: nat): seq<Occurrence> {
    var kept := KeptRows(rows, survivor, merged);
    seq(|kept|, k requires 0 <= k < |kept| => MovedTo(kept[k], survivor, merged))
  }

  function MovedIds(rows: seq<Occurrence>, survivor: nat, merged: nat): set<nat> {
    set o | o in rows && o.call == merged && !Collides(rows, o, survivor) :: o.id
  }

  function Returned(o: Occurrence, move: Move): Occurrence { if o.id in move.moved then o.(call := move.merged) else o }

  function UnmergeRows(rows: seq<Occurrence>, move: Move): seq<Occurrence> {
    seq(|rows|, k requires 0 <= k < |rows| => Returned(rows[k], move))
  }

  lemma MergeRowsAre(rows: seq<Occurrence>, survivor: nat, merged: nat, p: Occurrence)
    ensures p in MergeRows(rows, survivor, merged)
            <==> exists o :: o in rows && Stays(rows, o, survivor, merged) && p == MovedTo(o, survivor, merged)
  {
    var kept, after := KeptRows(rows, survivor, merged), MergeRows(rows, survivor, merged);
    if p in after {
      var k :| 0 <= k < |after| && after[k] == p;
      assert kept[k] in kept;
    }
    if o :| o in rows && Stays(rows, o, survivor, merged) && p == MovedTo(o, survivor, merged) {
      assert o in kept;
      var k :| 0 <= k < |kept| && kept[k] == o;
      assert after[k] == p;
    }
  }

  lemma UnmergeRowsAre(rows: seq<Occurrence>, move: Move, p: Occurrence)
    ensures p in UnmergeRows(rows, move) <==> exists o :: o in rows && p == Returned(o, move)
  {
    var after := UnmergeRows(rows, move);
    if p in after {
      var k :| 0 <= k < |after| && after[k] == p;
      assert rows[k] in rows;
    }
    if o :| o in rows && p == Returned(o, move) {
      var k :| 0 <= k < |rows| && rows[k] == o;
      assert after[k] == p;
    }
  }

  /** Deleting the collided readings keeps call, event and index unique. */
  lemma MergeKeepsKeys(rows: seq<Occurrence>, survivor: nat, merged: nat)
    requires KeysUnique(rows)
    ensures KeysUnique(MergeRows(rows, survivor, merged))
  {
    var after := MergeRows(rows, survivor, merged);
    forall p, q | p in after && q in after && (p.id == q.id || (SlotOf(p) == SlotOf(q) && p.index == q.index))
      ensures p == q
    {
      MergeRowsAre(rows, survivor, merged, p);
      MergeRowsAre(rows, survivor, merged, q);
      var o :| o in rows && Stays(rows, o, survivor, merged) && p == MovedTo(o, survivor, merged);
      var r :| r in rows && Stays(rows, r, survivor, merged) && q == MovedTo(r, survivor, merged);
      StayingApart(rows, survivor, merged, o, r);
    }
  }

  lemma StayingApart(rows: seq<Occurrence>, survivor: nat, merged: nat, o: Occurrence, r: Occurrence)
    requires KeysUnique(rows) && o in rows && r in rows
    requires Stays(rows, o, survivor, merged) && Stays(rows, r, survivor, merged)
    requires var p, q := MovedTo(o, survivor, merged), MovedTo(r, survivor, merged);
             p.id == q.id || (SlotOf(p) == SlotOf(q) && p.index == q.index)
    ensures o == r
  {
  }

  /** The columns that the merger reads and writes. */
  ghost function EventsOf(rows: seq<Occurrence>): map<nat, Merging.Event>
    requires KeysUnique(rows)
  {
    map o | o in rows :: o.id := Merging.Event(o.call, o.definition, o.index)
  }

  lemma CollidesAlike(rows: seq<Occurrence>, o: Occurrence, survivor: nat)
    requires KeysUnique(rows) && o in rows
    ensures Collides(rows, o, survivor) <==> Merging.Collides(EventsOf(rows), o.id, survivor)
  {
    var events := EventsOf(rows);
    if Collides(rows, o, survivor) {
      var p :| p in rows && p.call == survivor && p.definition == o.definition && p.index == o.index;
      assert p.id in events && Merging.SameSlot(events[p.id], events[o.id]);
    }
    if Merging.Collides(events, o.id, survivor) {
      var d :| d in events && events[d].call == survivor && Merging.SameSlot(events[d], events[o.id]);
      var p :| p in rows && p.id == d;
    }
  }

  /** What the event columns of a row become, or nothing if they collide. */
  ghost predicate BecomesEvent(events: map<nat, Merging.Event>, rows: seq<Occurrence>, survivor: nat, merged: nat,
                               o: Occurrence) {
    var q := MovedTo(o, survivor, merged);
    && (o.id in events <==> Stays(rows, o, survivor, merged))
    && (o.id in events ==> events[o.id] == Merging.Event(q.call, q.definition, q.index))
  }

  lemma RowBecomesEvent(rows: seq<Occurrence>, survivor: nat, merged: nat, o: Occurrence)
    requires KeysUnique(rows) && KeysUnique(MergeRows(rows, survivor, merged)) && o in rows
    ensures BecomesEvent(EventsOf(MergeRows(rows, survivor, merged)), rows, survivor, merged, o)
  {
    var after := MergeRows(rows, survivor, merged);
    if Stays(rows, o, survivor, merged) {
      MergeRowsAre(rows, survivor, merged, MovedTo(o, survivor, merged));
    } else if p :| p in after && p.id == o.id {
      MergeRowsAre(rows, survivor, merged, p);
    }
  }

  lemma EventBecomesEvent(rows: seq<Occurrence>, survivor: nat, merged: nat, o: Occurrence)
    requires KeysUnique(rows) && o in rows
    ensures BecomesEvent(Merging.MergeEvents(EventsOf(rows), survivor, merged), rows, survivor, merged, o)
  {
    CollidesAlike(rows, o, survivor);
    assert EventsOf(rows)[o.id] == Merging.Event(o.call, o.definition, o.index);
  }

  lemma EventMoves(rows: seq<Occurrence>, survivor: nat, merged: nat, o: Occurrence)
    requires KeysUnique(rows) && KeysUnique(MergeRows(rows, survivor, merged)) && o in rows
    ensures var after, events := EventsOf(MergeRows(rows, survivor, merged)), EventsOf(rows);
            var moved := Merging.MergeEvents(events, survivor, merged);
            (o.id in after <==> o.id in moved) && (o.id in after ==> after[o.id] == moved[o.id])
  {
    RowBecomesEvent(rows, survivor, merged, o);
    EventBecomesEvent(rows, survivor, merged, o);
  }

  /** What a merge does to these rows is what the merger does to its events. */
  lemma RowsMoveAsEvents(rows: seq<Occurrence>, survivor: nat, merged: nat)
    requires KeysUnique(rows)
    ensures KeysUnique(MergeRows(rows, survivor, merged))
    ensures EventsOf(MergeRows(rows, survivor, merged)) == Merging.MergeEvents(EventsOf(rows), survivor, merged)
  {
    MergeKeepsKeys(rows, survivor, merged);
    forall id { EventMovesAt(rows, survivor, merged, id); }
    SameMaps(EventsOf(MergeRows(rows, survivor, merged)), Merging.MergeEvents(EventsOf(rows), survivor, merged));
  }

  lemma SameMaps<K, V>(m: map<K, V>, n: map<K, V>)
    requires forall k :: k in m <==> k in n
    requires forall k :: k in m ==> m[k] == n[k]
    ensures m == n
  {
  }

  lemma EventMovesAt(rows: seq<Occurrence>, survivor: nat, merged: nat, id: nat)
    requires KeysUnique(rows) && KeysUnique(MergeRows(rows, survivor, merged))
    ensures var after := EventsOf(MergeRows(rows, survivor, merged));
            var moved := Merging.MergeEvents(EventsOf(rows), survivor, merged);
            (id in after <==> id in moved) && (id in after ==> after[id] == moved[id])
  {
    if id in EventsOf(MergeRows(rows, survivor, merged)) {
      var p :| p in MergeRows(rows, survivor, merged) && p.id == id;
      MergeRowsAre(rows, survivor, merged, p);
      var o :| o in rows && p == MovedTo(o, survivor, merged);
      EventMoves(rows, survivor, merged, o);
    } else if id in EventsOf(rows) {
      var o :| o in rows && o.id == id;
      EventMoves(rows, survivor, merged, o);
    }
  }

  // ---------------------------------------------------------------- steps

  predicate LiveReading(rows: seq<Occurrence>, slot: Slot, id: nat) {
    exists o :: o in rows && o.id == id && SlotOf(o) == slot && !o.superseded
  }

  /** Only the keys of the table are enforced: neither service asks whether the survivor is itself merged away. */
  ghost predicate Enabled(w: World, step: Step) {
    match step
    case MergeCalls(a, b) => a != b
    case UnmergeCalls(move) => move in w.moves && KeysUnique(UnmergeRows(w.rows, move))
    case Decide(slot, id, _) => LiveReading(w.rows, slot, id)
    case Ingest(o) => KeysUnique(w.rows + [o])
  }

  ghost function Apply(w: World, step: Step): World
    requires Enabled(w, step)
  {
    match step
    case MergeCalls(a, b) =>
      World(MergeRows(w.rows, a, b), w.observations, w.active - {b}, w.moves + {Move(a, b, MovedIds(w.rows, a, b))})
    case UnmergeCalls(move) =>
      World(UnmergeRows(w.rows, move), w.observations, w.active + {move.merged}, w.moves - {move})
    case Decide(slot, id, steward) => w.(observations := w.observations[slot := Observation(Some(id), steward)])
    case Ingest(o) => w.(rows := w.rows + [o])
  }

  ghost predicate ValidRun(w: World, steps: seq<Step>)
    decreases |steps|
  {
    steps == [] || (Enabled(w, steps[0]) && ValidRun(Apply(w, steps[0]), steps[1..]))
  }

  ghost function Run(w: World, steps: seq<Step>): World
    requires ValidRun(w, steps)
    decreases |steps|
  {
    if steps == [] then w else Run(Apply(w, steps[0]), steps[1..])
  }

  // ---------------------------------------------------------------- what readers rely on

  predicate SelectionHolds(rows: seq<Occurrence>, slot: Slot, observation: Observation) {
    observation.selected.Some? ==> LiveReading(rows, slot, observation.selected.value)
  }

  /** Every selection of an active call is a live reading of its own slot. */
  ghost predicate Sound(w: World) {
    && KeysUnique(w.rows)
    && forall slot: Slot :: slot in w.observations && slot.0 in w.active ==>
                        SelectionHolds(w.rows, slot, w.observations[slot])
  }

  /** In a sound world the batched and the per-slot resolution agree for every active call. */
  lemma SoundResolutionsAgree(w: World, calls: seq<nat>, pair: set<nat>, slot: Slot)
    requires Sound(w) && slot.0 in calls && slot.1 in pair && forall c :: c in calls ==> c in w.active
    ensures Selected(LoadedRows(w.rows, calls, pair), w.observations, slot)
            == Resolve(w.rows, w.observations, slot, false, true)
  {
    BatchedAgreesIff(w.rows, w.observations, calls, pair, slot);
    if slot in w.observations && w.observations[slot].selected.Some? {
      var o :| o in w.rows && o.id == w.observations[slot].selected.value && SlotOf(o) == slot && !o.superseded;
      ByIdFinds(w.rows, o);
    }
  }

  /** A merge never spoils a selection of a call that is still active, not even one into a merged record. */
  lemma MergeKeepsSound(w: World, a: nat, b: nat)
    requires Sound(w) && a != b
    ensures Sound(Apply(w, MergeCalls(a, b)))
  {
    MergeKeepsKeys(w.rows, a, b);
    var t := Apply(w, MergeCalls(a, b));
    forall slot: Slot | slot in t.observations && slot.0 in t.active && t.observations[slot].selected.Some?
      ensures LiveReading(t.rows, slot, t.observations[slot].selected.value)
    {
      var o :| o in w.rows && o.id == w.observations[slot].selected.value && SlotOf(o) == slot && !o.superseded;
      MergeRowsAre(w.rows, a, b, o);
      assert Stays(w.rows, o, a, b) && o == MovedTo(o, a, b);
    }
  }

  /** The selection is not among the readings that go, or is among those that come to its own call. */
  predicate Unaffected(w: World, move: Move, slot: Slot) {
    slot in w.observations && w.observations[slot].selected.Some? ==>
      var id := w.observations[slot].selected.value;
      if slot.0 != move.merged then id !in move.moved
      else exists o :: o in w.rows && o.id == id && !o.superseded && o.definition == slot.1
                       && (id in move.moved || o.call == move.merged)
  }

  lemma ReturnedSelection(w: World, move: Move, slot: Slot)
    requires KeysUnique(w.rows) && slot in w.observations && w.observations[slot].selected.Some?
    requires slot.0 in w.active && slot.0 != move.merged ==> SelectionHolds(w.rows, slot, w.observations[slot])
    requires slot.0 in w.active || slot.0 == move.merged
    ensures LiveReading(UnmergeRows(w.rows, move), slot, w.observations[slot].selected.value)
            <==> Unaffected(w, move, slot)
  {
    var after, id := UnmergeRows(w.rows, move), w.observations[slot].selected.value;
    if LiveReading(after, slot, id) {
      var p :| p in after && p.id == id && SlotOf(p) == slot && !p.superseded;
      UnmergeRowsAre(w.rows, move, p);
      var o :| o in w.rows && p == Returned(o, move);
    }
    if Unaffected(w, move, slot) {
      var o: Occurrence;
      if slot.0 != move.merged {
        o :| o in w.rows && o.id == id && SlotOf(o) == slot && !o.superseded;
      } else {
        o :| o in w.rows && o.id == id && !o.superseded && o.definition == slot.1
             && (id in move.moved || o.call == move.merged);
      }
      UnmergeRowsAre(w.rows, move, Returned(o, move));
    }
  }

  /** Undoing a merge keeps the selections sound if and only if no active call selects a reading that goes, and every
      selection recorded for the returning call is a live reading that is there or comes back. The code checks
      neither. */
  lemma UnmergeSoundIff(w: World, move: Move)
    requires Sound(w) && Enabled(w, UnmergeCalls(move))
    ensures Sound(Apply(w, UnmergeCalls(move)))
            <==> forall slot: Slot :: slot.0 in w.active || slot.0 == move.merged ==> Unaffected(w, move, slot)
  {
    var t := Apply(w, UnmergeCalls(move));
    forall slot: Slot | (slot.0 in w.active || slot.0 == move.merged)
                  && slot in w.observations && w.observations[slot].selected.Some?
      ensures LiveReading(t.rows, slot, w.observations[slot].selected.value) <==> Unaffected(w, move, slot)
    {
      ReturnedSelection(w, move, slot);
    }
    if Sound(t) {
      forall slot: Slot | slot.0 in w.active || slot.0 == move.merged ensures Unaffected(w, move, slot) {
        if slot in w.observations && w.observations[slot].selected.Some? {
          assert slot.0 in t.active && SelectionHolds(t.rows, slot, t.observations[slot]);
        }
      }
    }
  }

  ghost predicate Harmless(w: World, step: Step) {
    step.UnmergeCalls? ==>
      forall slot: Slot :: slot.0 in w.active || slot.0 == step.move.merged ==> Unaffected(w, step.move, slot)
  }

  ghost predicate HarmlessRun(w: World, steps: seq<Step>)
    requires ValidRun(w, steps)
    decreases |steps|
  {
    steps == [] || (Harmless(w, steps[0]) && HarmlessRun(Apply(w, steps[0]), steps[1..]))
  }

  lemma StepKeepsSound(w: World, step: Step)
    requires Sound(w) && Enabled(w, step) && Harmless(w, step)
    ensures Sound(Apply(w, step))
  {
    match step
    case MergeCalls(a, b) => MergeKeepsSound(w, a, b);
    case UnmergeCalls(move) => UnmergeSoundIff(w, move);
    case Decide(_, _, _) =>
    case Ingest(o) =>
      forall slot: Slot | slot in w.observations && slot.0 in w.active
        ensures SelectionHolds(w.rows + [o], slot, w.observations[slot])
      {
        assert SelectionHolds(w.rows, slot, w.observations[slot]);
      }
  }

  /** Over any run of merges, decisions, ingested readings and harmless unmerges, both resolvers agree for every call
      that is active at its end. */
  lemma {:induction false} RunKeepsSound(w: World, steps: seq<Step>)
    requires Sound(w) && ValidRun(w, steps) && HarmlessRun(w, steps)
    ensures Sound(Run(w, steps))
    decreases |steps|
  {
    if steps != [] {
      StepKeepsSound(w, steps[0]);
      RunKeepsSound(Apply(w, steps[0]), steps[1..]);
    }
  }

  lemma ResolutionsAgreeAfterMerges(w: World, steps: seq<Step>, calls: seq<nat>, pair: set<nat>, slot: Slot)
    requires Sound(w) && ValidRun(w, steps) && HarmlessRun(w, steps) && slot.0 in calls && slot.1 in pair
    requires forall c :: c in calls ==> c in Run(w, steps).active
    ensures var t := Run(w, steps);
            Selected(LoadedRows(t.rows, calls, pair), t.observations, slot)
            == Resolve(t.rows, t.observations, slot, false, true)
  {
    RunKeepsSound(w, steps);
    SoundResolutionsAgree(Run(w, steps), calls, pair, slot);
  }

  // ---------------------------------------------------------------- a run that splits them

  /** The one reading there is, with its call. */
  function Lone(call: nat): Occurrence { Occurrence(0, call, 0, 1, 0, false, None, false, "Verified", 1.0, "AIS", 0) }

  lemma LoneMoves(a: nat, b: nat)
    requires a != b
    ensures MergeRows([Lone(b)], a, b) == [Lone(a)] && MovedIds([Lone(b)], a, b) == {0}
    ensures forall c, d :: c != b && d != c && d != b ==> MergeRows([Lone(b)], c, d) == [Lone(b)]
    ensures UnmergeRows([Lone(a)], Move(a, b, {0})) == [Lone(b)]
  {
    assert Stays([Lone(b)], Lone(b), a, b);
  }

  const START := World([Lone(1)], map[], {0, 1, 2}, {})

  /** Call 2 goes into call 0, and so does call 1 with its reading. */
  const MERGED := World([Lone(0)], map[], {0}, {Move(0, 2, {}), Move(0, 1, {0})})

  const FIRST_MERGES: seq<Step> := [MergeCalls(0, 2), MergeCalls(0, 1)]

  const THEN_SPLITS: seq<Step> := [Decide((0, 0), 0, false), UnmergeCalls(Move(0, 1, {0})), MergeCalls(2, 1)]

  /** The reading is selected for call 0, goes back to call 1 with the selection still on it, and then into call 2,
      which is itself merged away. */
  const SPLIT := World([Lone(2)], map[(0, 0) := Observation(Some(0), false)], {0}, {Move(0, 2, {}), Move(2, 1, {0})})

  lemma StepThenRun(w: World, step: Step, rest: seq<Step>)
    requires Enabled(w, step) && ValidRun(Apply(w, step), rest)
    ensures ValidRun(w, [step] + rest) && Run(w, [step] + rest) == Run(Apply(w, step), rest)
  {
    assert ([step] + rest)[1..] == rest;
  }

  lemma FirstMerges()
    ensures ValidRun(START, FIRST_MERGES) && Run(START, FIRST_MERGES) == MERGED
  {
    LoneMoves(0, 1);
    var w := World([Lone(1)], map[], {0, 1}, {Move(0, 2, {})});
    assert !Collides([Lone(1)], Lone(1), 0) && MovedIds([Lone(1)], 0, 2) == {};
    assert Apply(START, MergeCalls(0, 2)) == w;
    assert Apply(w, MergeCalls(0, 1)) == MERGED;
    StepThenRun(w, MergeCalls(0, 1), []);
    StepThenRun(START, MergeCalls(0, 2), [MergeCalls(0, 1)] + []);
    assert FIRST_MERGES == [MergeCalls(0, 2)] + ([MergeCalls(0, 1)] + []);
  }

  lemma ThenSplits()
    ensures ValidRun(MERGED, THEN_SPLITS) && Run(MERGED, THEN_SPLITS) == SPLIT
  {
    LoneMoves(0, 1);
    LoneMoves(2, 1);
    var decided := MERGED.(observations := SPLIT.observations);
    var back := World([Lone(1)], SPLIT.observations, {0, 1}, {Move(0, 2, {})});
    var unmerge, merge := UnmergeCalls(Move(0, 1, {0})), MergeCalls(2, 1);
    assert LiveReading(MERGED.rows, (0, 0), 0) by { assert Lone(0) in MERGED.rows; }
    assert Apply(MERGED, Decide((0, 0), 0, false)) == decided;
    assert Apply(decided, unmerge) == back && Apply(back, merge) == SPLIT;
    StepThenRun(back, merge, []);
    StepThenRun(decided, unmerge, [merge] + []);
    StepThenRun(MERGED, Decide((0, 0), 0, false), [unmerge] + ([merge] + []));
    assert THEN_SPLITS == [Decide((0, 0), 0, false)] + ([unmerge] + ([merge] + []));
  }

  /** Starting from a sound world, these five calls of the services split the two resolutions of an active call. */
  lemma MergesCanSplitResolutions()
    ensures Sound(START) && ValidRun(START, FIRST_MERGES)
    ensures var w := Run(START, FIRST_MERGES); ValidRun(w, THEN_SPLITS) && Run(w, THEN_SPLITS) == SPLIT
    ensures Resolve(SPLIT.rows, SPLIT.observations, (0, 0), false, true) == Some(Lone(2))
    ensures Selected(LoadedRows(SPLIT.rows, [0], {0}), SPLIT.observations, (0, 0)) != Some(Lone(2))
  {
    FirstMerges();
    ThenSplits();
    assert Winner(SPLIT.rows, SPLIT.observations, (0, 0), true) == Some(Lone(2));
    BatchedAgreesIff(SPLIT.rows, SPLIT.observations, [0], {0}, (0, 0));
  }
}
