/** The batched resolver of the delay service, and its agreement with the per-slot one of the analytics engine. */
module Resolution {
  import opened Wrappers
  import opened Ordering
  import opened Journey

  /** What the batched query loads. */
  predicate Loaded(o: Occurrence, calls: seq<nat>, pair: set<nat>) {
    o.call in calls && o.definition in pair && Usable(o, true)
  }

  function LoadedRows(rows: seq<Occurrence>, calls: seq<nat>, pair: set<nat>): seq<Occurrence> {
    Sort(Filter(rows, (o: Occurrence) => Loaded(o, calls, pair)), Earlier)
  }

  function Options(loaded: seq<Occurrence>, slot: Slot): seq<Occurrence> {
    Filter(loaded, (o: Occurrence) => SlotOf(o) == slot)
  }

  /** What the two dictionaries answer for a slot. */
  function Selected(loaded: seq<Occurrence>, observations: Observations, slot: Slot): Option<Occurrence> {
    var winner := if slot in observations && observations[slot].selected.Some?
                  then ById(loaded, observations[slot].selected.value) else None;
    if winner.Some? then winner else First(Options(loaded, slot))
  }

  // ---- The dictionaries, built in one pass ----

  ghost predicate IdIndexOf(byId: map<nat, Occurrence>, loaded: seq<Occurrence>) {
    forall id :: ById(loaded, id) == if id in byId then Some(byId[id]) else None
  }

  ghost predicate SlotIndexOf(candidates: map<Slot, seq<Occurrence>>, loaded: seq<Occurrence>) {
    forall slot :: Options(loaded, slot) == if slot in candidates then candidates[slot] else []
  }

  method IndexById(loaded: seq<Occurrence>) returns (byId: map<nat, Occurrence>)
    requires KeysUnique(loaded)
    ensures IdIndexOf(byId, loaded)
  {
    byId := map[];
    for i := 0 to |loaded|
      invariant IdIndexOf(byId, loaded[..i])
    {
      var o := loaded[i];
      assert loaded[..i + 1] == loaded[..i] + [o];
      forall id ensures ById(loaded[..i + 1], id) == if id == o.id then Some(o) else ById(loaded[..i], id) {
        ByIdOfAppend(loaded[..i], o, id);
      }
      byId := byId[o.id := o];
    }
    assert loaded[..|loaded|] == loaded;
  }

  method IndexBySlot(loaded: seq<Occurrence>) returns (candidates: map<Slot, seq<Occurrence>>)
    ensures SlotIndexOf(candidates, loaded)
  {
    candidates := map[];
    for i := 0 to |loaded|
      invariant SlotIndexOf(candidates, loaded[..i])
    {
      var o := loaded[i];
      assert loaded[..i + 1] == loaded[..i] + [o];
      forall slot
        ensures Options(loaded[..i + 1], slot) == Options(loaded[..i], slot) + if SlotOf(o) == slot then [o] else []
      {
        OptionsOfAppend(loaded[..i], o, slot);
      }
      candidates := candidates[SlotOf(o) := (if SlotOf(o) in candidates then candidates[SlotOf(o)] else []) + [o]];
    }
    assert loaded[..|loaded|] == loaded;
  }

  method Select(byId: map<nat, Occurrence>, candidates: map<Slot, seq<Occurrence>>, observations: Observations,
                slot: Slot, ghost loaded: seq<Occurrence>) returns (o: Option<Occurrence>)
    requires IdIndexOf(byId, loaded) && SlotIndexOf(candidates, loaded)
    ensures o == Selected(loaded, observations, slot)
  {
    if slot in observations && observations[slot].selected.Some? && observations[slot].selected.value in byId {
      return Some(byId[observations[slot].selected.value]);
    }
    var options := if slot in candidates then candidates[slot] else [];
    return if options != [] then Some(options[0]) else None;
  }

  lemma {:induction false} ByIdOfAppend(s: seq<Occurrence>, o: Occurrence, id: nat)
    requires KeysUnique(s + [o])
    ensures ById(s + [o], id) == if id == o.id then Some(o) else ById(s, id)
  {
    if s != [] {
      assert (s + [o])[1..] == s[1..] + [o];
      assert forall p :: p in s[1..] + [o] ==> p in s + [o];
      assert s[0] in s + [o] && o in s + [o];
      ByIdOfAppend(s[1..], o, id);
    }
  }

  lemma {:induction false} OptionsOfAppend(s: seq<Occurrence>, o: Occurrence, slot: Slot)
    ensures Options(s + [o], slot) == Options(s, slot) + if SlotOf(o) == slot then [o] else []
  {
    if s == [] {
      assert [o][1..] == [];
    } else {
      assert (s + [o])[1..] == s[1..] + [o];
      OptionsOfAppend(s[1..], o, slot);
    }
  }

  // ---- Agreement with the per-slot resolution ----

  lemma LoadedAre(rows: seq<Occurrence>, calls: seq<nat>, pair: set<nat>)
    ensures forall o :: o in LoadedRows(rows, calls, pair) <==> o in rows && Loaded(o, calls, pair)
    ensures KeysUnique(rows) ==> KeysUnique(LoadedRows(rows, calls, pair))
  {
    var loaded := Filter(rows, (o: Occurrence) => Loaded(o, calls, pair));
    forall o ensures o in LoadedRows(rows, calls, pair) <==> o in loaded {
      SameElements(LoadedRows(rows, calls, pair), loaded, o);
    }
  }

  lemma {:induction false} ByIdFinds(s: seq<Occurrence>, o: Occurrence)
    requires KeysUnique(s) && o in s
    ensures ById(s, o.id) == Some(o)
  {
  }

  lemma {:induction false} FirstOfSortedFilter(s: seq<Occurrence>, slot: Slot)
    requires Sorted(s, Earlier)
    ensures Options(s, slot) != [] ==> Least(Options(s, slot)[0], Options(s, slot))
  {
    if s != [] {
      FirstOfSortedFilter(s[1..], slot);
      forall p | p in s[1..] ensures Earlier(s[0], p) { var k :| 0 <= k < |s| - 1 && s[1..][k] == p; }
    }
  }

  /** In a slot with distinct indices only one row can come first. */
  lemma LeastIsUnique(rows: seq<Occurrence>, s: seq<Occurrence>, t: seq<Occurrence>, o: Occurrence, p: Occurrence)
    requires KeysUnique(rows) && o in rows && p in rows && SlotOf(o) == SlotOf(p)
    requires Least(o, s) && Least(p, t) && o in t && p in s
    ensures o == p
  {
    assert Earlier(o, p) && Earlier(p, o);
  }

  lemma FirstsAgree(rows: seq<Occurrence>, calls: seq<nat>, pair: set<nat>, slot: Slot)
    requires KeysUnique(rows) && slot.0 in calls && slot.1 in pair
    ensures First(Options(LoadedRows(rows, calls, pair), slot)) == First(Sort(SlotRows(rows, slot, true), Earlier))
  {
    var s, t := Options(LoadedRows(rows, calls, pair), slot), SlotRows(rows, slot, true);
    LoadedAre(rows, calls, pair);
    assert forall o :: o in s <==> o in t;
    EarlierIsPreorder();
    SortSorts(Filter(rows, (o: Occurrence) => Loaded(o, calls, pair)), Earlier);
    FirstOfSortedFilter(LoadedRows(rows, calls, pair), slot);
    FirstOfSlot(rows, slot);
    assert s != [] ==> s[0] in t;
    if t != [] {
      assert t[0] in s;
      LeastIsUnique(rows, s, t, s[0], Sort(t, Earlier)[0]);
    }
  }

  /** What keeps the two resolutions of a slot together: the recorded winner, if it is live and clean at all,
      belongs to an active call and one of the two events. */
  predicate Reachable(rows: seq<Occurrence>, observations: Observations, slot: Slot, calls: seq<nat>, pair: set<nat>) {
    match Winner(rows, observations, slot, true)
    case None => true
    case Some(o) => o.call in calls && o.definition in pair
  }

  /** The batched and the per-slot resolution select the same occurrence exactly when the winner is reachable. */
  lemma BatchedAgreesIff(rows: seq<Occurrence>, observations: Observations, calls: seq<nat>, pair: set<nat>, slot: Slot)
    requires KeysUnique(rows) && slot.0 in calls && slot.1 in pair
    ensures Selected(LoadedRows(rows, calls, pair), observations, slot)
            == Resolve(rows, observations, slot, false, true)
       <==> Reachable(rows, observations, slot, calls, pair)
  {
    var loaded := LoadedRows(rows, calls, pair);
    LoadedAre(rows, calls, pair);
    FirstsAgree(rows, calls, pair, slot);
    FirstOfSlot(rows, slot);
    if slot in observations && observations[slot].selected.Some? {
      var found := ById(loaded, observations[slot].selected.value);
      match Winner(rows, observations, slot, true)
      case Some(o) =>
        if o in loaded { ByIdFinds(loaded, o); }
      case None =>
        if found.Some? { ByIdFinds(rows, found.value); }
    }
  }

  /** The same of the batched resolver: unless the recorded winner is among the rows it loads, the live and clean
      reading of the slot with the smallest index governs, of equal indices the earliest. */
  lemma SelectedTakesFirst(rows: seq<Occurrence>, observations: Observations, calls: seq<nat>, pair: set<nat>,
                           slot: Slot)
    requires KeysUnique(rows) && slot.0 in calls && slot.1 in pair
    requires slot in observations && observations[slot].selected.Some? ==>
               forall o :: o in rows && o.id == observations[slot].selected.value ==>
                 o.superseded || o.quarantined || o.call !in calls || o.definition !in pair
    ensures match Selected(LoadedRows(rows, calls, pair), observations, slot)
            case None => forall p :: !Competes(rows, p, slot, true)
            case Some(o) => Competes(rows, o, slot, true)
                            && forall p :: Competes(rows, p, slot, true) ==> ComesBefore(o, p)
  {
    LoadedAre(rows, calls, pair);
    FirstsAgree(rows, calls, pair, slot);
    ResolveTakesFirst(rows, map[], slot, false, true);
  }

  /** A recorded winner that it does load governs. */
  lemma SelectedTakesWinner(rows: seq<Occurrence>, observations: Observations, calls: seq<nat>, pair: set<nat>,
                            slot: Slot, o: Occurrence)
    requires KeysUnique(rows) && slot in observations && observations[slot].selected == Some(o.id) && o in rows
    requires !o.superseded && !o.quarantined && o.call in calls && o.definition in pair
    ensures Selected(LoadedRows(rows, calls, pair), observations, slot) == Some(o)
  {
    LoadedAre(rows, calls, pair);
    ByIdFinds(LoadedRows(rows, calls, pair), o);
  }
}
