/** Event occurrences, the decisions on which of them governs, and the per-slot reading of both. */
module Journey {
  import opened Wrappers
  import opened Ordering

  /** `time` counts microseconds. A missing confidence is 0. */
  datatype Occurrence = Occurrence(id: nat, call: nat, definition: nat, index: int, time: int,
                                   superseded: bool, supersededBy: Option<nat>, quarantined: bool,
                                   verification: string, confidence: real, source: string, created: int)

  datatype Observation = Observation(selected: Option<nat>, steward: bool)

  type Slot = (nat, nat)

  /** At most one observation per slot, as the look-ups demand. */
  type Observations = map<Slot, Observation>

  function SlotOf(o: Occurrence): Slot { (o.call, o.definition) }

  function Filter<T(!new)>(s: seq<T>, p: T -> bool): (r: seq<T>)
    ensures forall x :: x in r <==> x in s && p(x)
    ensures |r| <= |s|
  {
    if s == [] then [] else if p(s[0]) then [s[0]] + Filter(s[1..], p) else Filter(s[1..], p)
  }

  lemma {:induction false} FilterOfAppend<T(!new)>(s: seq<T>, x: T, p: T -> bool)
    ensures Filter(s + [x], p) == Filter(s, p) + if p(x) then [x] else []
  {
    if s == [] {
      assert [x][1..] == [];
    } else {
      assert (s + [x])[1..] == s[1..] + [x];
      FilterOfAppend(s[1..], x, p);
    }
  }

  lemma {:induction false} FilterKeepsSome<T(!new)>(s: seq<T>, p: T -> bool)
    ensures |Filter(s, p)| > 0 <==> exists k :: 0 <= k < |s| && p(s[k])
  {
    if s != [] && !p(s[0]) {
      FilterKeepsSome(s[1..], p);
      if k :| 0 <= k < |s| && p(s[k]) { assert s[1..][k - 1] == s[k]; }
    }
  }

  lemma {:induction false} FilterKeepsTwo<T(!new)>(s: seq<T>, p: T -> bool)
    ensures |Filter(s, p)| > 1 <==> exists j, k :: 0 <= j < k < |s| && p(s[j]) && p(s[k])
  {
    if s != [] {
      FilterKeepsTwo(s[1..], p);
      FilterKeepsSome(s[1..], p);
      if j, k :| 0 <= j < k < |s| && p(s[j]) && p(s[k]) {
        assert s[1..][k - 1] == s[k];
        if j > 0 { assert s[1..][j - 1] == s[j]; }
      }
      if p(s[0]) {
        if k :| 0 <= k < |s[1..]| && p(s[1..][k]) { assert s[1..][k] == s[k + 1]; }
      } else if j, k :| 0 <= j < k < |s[1..]| && p(s[1..][j]) && p(s[1..][k]) {
        assert s[1..][j] == s[j + 1] && s[1..][k] == s[k + 1];
      }
    }
  }

  lemma {:induction false} FilterLosesOne<T(!new)>(s: seq<T>, k: nat, x: T, p: T -> bool)
    requires k < |s| && p(s[k]) && !p(x)
    ensures |Filter(s[k := x], p)| + 1 == |Filter(s, p)|
  {
    if k == 0 {
      assert s[0 := x][1..] == s[1..];
    } else {
      assert s[k := x][1..] == s[1..][k - 1 := x];
      FilterLosesOne(s[1..], k - 1, x, p);
    }
  }

  /** Primary key, and the unique key of an occurrence. */
  ghost predicate KeysUnique(rows: seq<Occurrence>) {
    forall o, p :: o in rows && p in rows && (o.id == p.id || (SlotOf(o) == SlotOf(p) && o.index == p.index)) ==> o == p
  }

  predicate Earlier(o: Occurrence, p: Occurrence) { o.index < p.index || (o.index == p.index && o.time <= p.time) }

  predicate Later(o: Occurrence, p: Occurrence) { Earlier(p, o) }

  function ById(rows: seq<Occurrence>, id: nat): (r: Option<Occurrence>)
    ensures r.Some? ==> r.value in rows && r.value.id == id
    ensures r.None? ==> forall o :: o in rows ==> o.id != id
  {
    if rows == [] then None else if rows[0].id == id then Some(rows[0]) else ById(rows[1..], id)
  }

  /** Neither superseded nor, where that matters, quarantined. */
  predicate Usable(o: Occurrence, excludeQuarantined: bool) { !o.superseded && !(excludeQuarantined && o.quarantined) }

  function First<T>(s: seq<T>): Option<T> { if s == [] then None else Some(s[0]) }

  function SlotRows(rows: seq<Occurrence>, slot: Slot, excludeQuarantined: bool): seq<Occurrence> {
    Filter(rows, (o: Occurrence) => SlotOf(o) == slot && Usable(o, excludeQuarantined))
  }

  /** The recorded winner, if it is still usable. It is looked up by id alone. */
  function Winner(rows: seq<Occurrence>, observations: Observations, slot: Slot,
                  excludeQuarantined: bool): Option<Occurrence> {
    if slot in observations && observations[slot].selected.Some? then
      match ById(rows, observations[slot].selected.value)
      case Some(o) => if Usable(o, excludeQuarantined) then Some(o) else None
      case None => None
    else None
  }

  /** The per-slot resolution of the analytics engine. */
  function Resolve(rows: seq<Occurrence>, observations: Observations, slot: Slot, last: bool,
                   excludeQuarantined: bool): Option<Occurrence> {
    match Winner(rows, observations, slot, excludeQuarantined)
    case Some(o) => Some(o)
    case None => First(Sort(SlotRows(rows, slot, excludeQuarantined), if last then Later else Earlier))
  }

  lemma EarlierIsPreorder()
    ensures TotalPreorder(Earlier) && TotalPreorder(Later)
  {
  }

  predicate Least(o: Occurrence, s: seq<Occurrence>) { o in s && forall p :: p in s ==> Earlier(o, p) }

  /** Without a recorded winner the first of the slot governs, whatever the row order. */
  lemma FirstOfSlot(rows: seq<Occurrence>, slot: Slot)
    ensures match First(Sort(SlotRows(rows, slot, true), Earlier))
            case None => SlotRows(rows, slot, true) == []
            case Some(o) => Least(o, SlotRows(rows, slot, true))
  {
    var options := SlotRows(rows, slot, true);
    var sorted := Sort(options, Earlier);
    EarlierIsPreorder();
    SortSorts(options, Earlier);
    forall p ensures p in sorted <==> p in options { SameElements(sorted, options, p); }
    if options != [] {
      forall p | p in options ensures Earlier(sorted[0], p) {
        var k :| 0 <= k < |sorted| && sorted[k] == p;
      }
    }
  }

  /** Of two usable readings of two slots each governs its own. */
  lemma TheOnlyOne(start: Occurrence, end: Occurrence)
    requires SlotOf(start) != SlotOf(end) && start.id != end.id && Usable(start, true) && Usable(end, true)
    ensures KeysUnique([start, end])
    ensures Resolve([start, end], map[], SlotOf(start), false, true) == Some(start)
    ensures Resolve([start, end], map[], SlotOf(end), false, true) == Some(end)
  {
    FirstOfSlot([start, end], SlotOf(start));
    FirstOfSlot([start, end], SlotOf(end));
    assert start in [start, end] && end in [start, end];
    assert start in SlotRows([start, end], SlotOf(start), true) && end in SlotRows([start, end], SlotOf(end), true);
  }

  /** A superseded reading leaves its slot empty, and the other slot as it was. */
  lemma OneIsSuperseded(start: Occurrence, end: Occurrence)
    requires SlotOf(start) != SlotOf(end) && Usable(start, true) && end.superseded
    ensures Resolve([start, end], map[], SlotOf(start), false, true) == Some(start)
    ensures Resolve([start, end], map[], SlotOf(end), false, true) == None
  {
    FirstOfSlot([start, end], SlotOf(start));
    FirstOfSlot([start, end], SlotOf(end));
    assert start in [start, end] && start in SlotRows([start, end], SlotOf(start), true);
  }

  // ---- Resolution on the columns themselves

  /** A reading of the call and event that is neither superseded nor, where that matters, quarantined. */
  ghost predicate Competes(rows: seq<Occurrence>, o: Occurrence, slot: Slot, excludeQuarantined: bool) {
    && o in rows && o.call == slot.0 && o.definition == slot.1 && !o.superseded
    && (excludeQuarantined ==> !o.quarantined)
  }

  /** The smaller index comes first, and of equal indices the earlier time. */
  ghost predicate ComesBefore(o: Occurrence, p: Occurrence) {
    p.index >= o.index && (p.index == o.index ==> p.time >= o.time)
  }

  /** The recorded winner is the row of that id, whatever its call and event, if it is still usable. */
  lemma WinnerIs(rows: seq<Occurrence>, observations: Observations, slot: Slot, excludeQuarantined: bool, o: Occurrence)
    requires KeysUnique(rows)
    ensures Winner(rows, observations, slot, excludeQuarantined) == Some(o)
            <==> && o in rows && slot in observations && observations[slot].selected == Some(o.id)
                 && !o.superseded && (excludeQuarantined ==> !o.quarantined)
  {
    if slot in observations && observations[slot].selected.Some? {
      var found := ById(rows, observations[slot].selected.value);
      assert found.Some? && o in rows && o.id == observations[slot].selected.value ==> found.value == o;
    }
  }

  /** Without a usable winner the reading with the smallest index governs, of equal indices the earliest; the largest
      and the latest where the last occurrence is asked for. There is none exactly if no reading competes. */
  lemma ResolveTakesFirst(rows: seq<Occurrence>, observations: Observations, slot: Slot, last: bool,
                          excludeQuarantined: bool)
    requires Winner(rows, observations, slot, excludeQuarantined).None?
    ensures match Resolve(rows, observations, slot, last, excludeQuarantined)
            case None => forall p :: !Competes(rows, p, slot, excludeQuarantined)
            case Some(o) => Competes(rows, o, slot, excludeQuarantined)
                            && forall p :: Competes(rows, p, slot, excludeQuarantined) ==>
                                 if last then ComesBefore(p, o) else ComesBefore(o, p)
  {
    var options := SlotRows(rows, slot, excludeQuarantined);
    assert forall p :: p in options <==> Competes(rows, p, slot, excludeQuarantined);
    if options != [] {
      if last { TakesLatest(options); } else { TakesEarliest(options); }
    }
  }

  lemma TakesEarliest(options: seq<Occurrence>)
    requires options != []
    ensures Sort(options, Earlier)[0] in options
    ensures forall p :: p in options ==> ComesBefore(Sort(options, Earlier)[0], p)
  {
    EarlierIsPreorder();
    FirstOfSort(options, Earlier);
  }

  lemma TakesLatest(options: seq<Occurrence>)
    requires options != []
    ensures Sort(options, Later)[0] in options
    ensures forall p :: p in options ==> ComesBefore(p, Sort(options, Later)[0])
  {
    EarlierIsPreorder();
    FirstOfSort(options, Later);
  }
}
