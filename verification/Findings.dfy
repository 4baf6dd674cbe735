/** What a written lead-time result says of the times it was computed from. */
module Findings {
  import opened Wrappers
  import opened Text
  import opened Ordering
  import opened Journey
  import opened Metrics

  // ---- The readings looked for

  ghost predicate Recorded(data: Data, slot: Slot, o: Occurrence) {
    && o in data.occurrences && slot in data.observations && data.observations[slot].selected == Some(o.id)
    && !o.superseded && (data.excludeQuarantined ==> !o.quarantined)
  }

  /** The recorded winner if it is usable, else the first, or last, of the slot. */
  lemma ResolvedIs(data: Data, call: nat, name: string, last: bool)
    requires KeysUnique(data.occurrences)
    ensures name !in data.events ==> Resolved(data, call, name, last).None?
    ensures name in data.events ==> var r, slot := Resolved(data, call, name, last), (call, data.events[name]);
              && (forall o :: Recorded(data, slot, o) ==> r == Some(o))
              && (r.None? ==> forall o :: !Competes(data.occurrences, o, slot, data.excludeQuarantined))
              && (r.Some? && !Recorded(data, slot, r.value) ==>
                  && Competes(data.occurrences, r.value, slot, data.excludeQuarantined)
                  && forall o :: Competes(data.occurrences, o, slot, data.excludeQuarantined) ==>
                       if last then ComesBefore(o, r.value) else ComesBefore(r.value, o))
  {
    if name in data.events {
      var slot := (call, data.events[name]);
      var winner := Winner(data.occurrences, data.observations, slot, data.excludeQuarantined);
      forall o ensures Recorded(data, slot, o) <==> winner == Some(o) {
        WinnerIs(data.occurrences, data.observations, slot, data.excludeQuarantined, o);
      }
      if winner.None? {
        ResolveTakesFirst(data.occurrences, data.observations, slot, last, data.excludeQuarantined);
      }
    }
  }

  // ---- The service looked for

  ghost predicate NoLater(s: Service, t: Service) {
    && (t.scheduled.Some? ==> s.scheduled.Some?)
    && (s.scheduled.Some? && t.scheduled.Some? ==> t.scheduled.value - s.scheduled.value >= 0)
  }

  /** The earliest scheduled service of the movement; if none is recorded with it, the earliest of all stands for an
      arrival and the latest of several for a sailing. */
  ghost predicate MeasuredOn(services: seq<Service>, movement: string, chosen: Option<Service>) {
    && (chosen.Some? ==> chosen.value in services)
    && if exists s :: s in services && Moves(s, movement) then
         && chosen.Some? && Moves(chosen.value, movement)
         && forall s :: s in services && Moves(s, movement) ==> NoLater(chosen.value, s)
       else if Upper(movement) == "ARRIVAL" then
         (chosen.None? <==> services == []) && forall s :: s in services ==> NoLater(chosen.value, s)
       else if Upper(movement) == "SAILING" then
         && (chosen.None? <==> |services| < 2)
         && (chosen.Some? ==> forall s :: s in services ==> NoLater(s, chosen.value))
       else chosen.None?
  }

  lemma SoonerIsPreorder()
    ensures TotalPreorder(Sooner) && forall s, t :: Sooner(s, t) ==> NoLater(s, t)
  {
  }

  lemma ChosenIsMeasuredOn(services: seq<Service>, movement: string)
    ensures MeasuredOn(services, movement, Chosen(Sort(services, Sooner), movement))
  {
    var sorted := Sort(services, Sooner);
    var chosen := Chosen(sorted, movement);
    SoonerIsPreorder();
    SortSorts(services, Sooner);
    forall s ensures s in sorted <==> s in services { SameElements(sorted, services, s); }
    FirstMovingIsSoonest(sorted, movement);
    if !exists s :: s in services && Moves(s, movement) {
      EndsOfSorted(sorted, services);
    }
  }

  lemma FirstMovingIsSoonest(sorted: seq<Service>, movement: string)
    requires Sorted(sorted, Sooner)
    ensures var r := FirstMoving(sorted, movement);
            r.Some? ==> && r.value in sorted && Moves(r.value, movement)
                        && forall s :: s in sorted && Moves(s, movement) ==> NoLater(r.value, s)
  {
    var r := FirstMoving(sorted, movement);
    if r.Some? {
      var k :| 0 <= k < |sorted| && sorted[k] == r.value && forall j :: 0 <= j < k ==> !Moves(sorted[j], movement);
      forall s | s in sorted && Moves(s, movement) ensures NoLater(r.value, s) {
        var j :| 0 <= j < |sorted| && sorted[j] == s;
      }
    }
  }

  lemma EndsOfSorted(sorted: seq<Service>, services: seq<Service>)
    requires Sorted(sorted, Sooner) && |sorted| == |services| && forall s :: s in sorted <==> s in services
    ensures sorted != [] ==> forall s :: s in services ==> NoLater(sorted[0], s) && NoLater(s, sorted[|sorted| - 1])
  {
    forall s | s in services ensures NoLater(sorted[0], s) && NoLater(s, sorted[|sorted| - 1]) {
      assert s in sorted;
      var k :| 0 <= k < |sorted| && sorted[k] == s;
    }
  }

  // ---- The row written

  /** Both ends are known: the status says so, and the hours are those between them to within 1800 microseconds. */
  ghost predicate SaysInterval(outcome: Outcome, start: int, end: int, clean: bool) {
    && outcome.status == AVAILABLE && outcome.reason.None? && outcome.duration.Some?
    && outcome.dq == (if clean then CLEAN else DQ_ISSUES)
    && -1800.0 <= outcome.duration.value * 3600000000.0 - (end - start) as real <= 1800.0
    && (outcome.duration.value >= 0.0 <==> end >= start - 1800)
  }

  ghost predicate SaysNothing(outcome: Outcome, reason: Reason, dq: DqStatus) {
    outcome.status == UNAVAILABLE && outcome.duration.None? && outcome.reason == Some(reason) && outcome.dq == dq
  }

  /** An execution delay runs from the scheduled to the served time, and is negative for an early service. */
  ghost predicate SaysDelay(row: Row, chosen: Option<Service>, before: Trace) {
    && (row.trace.startId, row.trace.endId) == (before.startId, before.endId)
    && match chosen
       case None =>
         && SaysNothing(row.outcome, NoService, MISSING_DATA) && row.trace.sources == []
         && (row.trace.start, row.trace.end) == (before.start, before.end)
       case Some(s) =>
         && row.trace.sources == [s.id]
         && if s.scheduled.None? || s.served.None? then
              && SaysNothing(row.outcome, NoTimestamps, INCOMPLETE_TIMESTAMPS)
              && (row.trace.start, row.trace.end) == (before.start, before.end)
            else
              && SaysInterval(row.outcome, s.scheduled.value, s.served.value, true)
              && (row.trace.start, row.trace.end) == (s.scheduled, s.served)
  }

  /** An event duration runs from the reading of the start event to that of the end event; what is missing is named,
      and what is found is referred to. */
  ghost predicate SaysDuration(row: Row, start: Option<Occurrence>, end: Option<Occurrence>, before: Trace) {
    && (match (start, end)
        case (Some(s), Some(e)) => SaysInterval(row.outcome, s.time, e.time, !s.quarantined && !e.quarantined)
                                   && row.trace.sources == [s.id, e.id]
        case (Some(s), None) => SaysNothing(row.outcome, EndMissing, MISSING_DATA) && row.trace.sources == [s.id]
        case (None, Some(e)) => SaysNothing(row.outcome, StartMissing, MISSING_DATA) && row.trace.sources == [e.id]
        case (None, None) => SaysNothing(row.outcome, BothMissing, MISSING_DATA) && row.trace.sources == [])
    && (start.Some? ==> row.trace.start == Some(start.value.time) && row.trace.startId == Some(start.value.id))
    && (start.None? ==> row.trace.start == before.start && row.trace.startId == before.startId)
    && (end.Some? ==> row.trace.end == Some(end.value.time) && row.trace.endId == Some(end.value.id))
    && (end.None? ==> row.trace.end == before.end && row.trace.endId == before.endId)
  }

  lemma IntervalIsSaid(start: int, end: int, clean: bool)
    ensures SaysInterval(Outcome(AVAILABLE, Some(Hours(end - start)), None, if clean then CLEAN else DQ_ISSUES),
                         start, end, clean)
  {
    HoursBound(end - start);
    HoursSign(end - start);
  }

  lemma ServiceIsSaid(row: Row, chosen: Option<Service>, before: Trace)
    requires row.outcome == ServiceOutcome(chosen) && row.trace == ServiceTrace(before, chosen)
    ensures SaysDelay(row, chosen, before)
  {
    if chosen.Some? && chosen.value.scheduled.Some? && chosen.value.served.Some? {
      IntervalIsSaid(chosen.value.scheduled.value, chosen.value.served.value, true);
    }
  }

  lemma PairIsSaid(row: Row, start: Option<Occurrence>, end: Option<Occurrence>, before: Trace)
    requires row.outcome == PairOutcome(start, end) && row.trace == PairTrace(before, start, end)
    ensures SaysDuration(row, start, end, before)
  {
    if start.Some? && end.Some? {
      IntervalIsSaid(start.value.time, end.value.time, !start.value.quarantined && !end.value.quarantined);
    }
  }

  ghost predicate FindsDelay(row: Row, services: seq<Service>, movement: string, before: Trace) {
    exists chosen :: MeasuredOn(services, movement, chosen) && SaysDelay(row, chosen, before)
  }

  /** What the row of a call and a definition has found, in terms of the data alone. */
  ghost predicate Finds(row: Row, data: Data, d: Definition, call: Call, before: Trace) {
    && row.call == call.id && row.definition == d.id && row.vcn == call.vcn && row.version == d.version
    && if d.noSourceData then
         && row.outcome == Outcome(NO_SOURCE_DATA, None, Some(NoSource), DQ_NO_SOURCE_DATA)
         && row.trace == before.(sources := [])
       else if d.executionDelay then
         FindsDelay(row, if call.id in data.services then data.services[call.id] else [],
                    if d.movement == "" then "Arrival" else d.movement, before)
       else if d.name == "Turnaround" && call.id in data.ataBlank then
         SaysNothing(row.outcome, AtaBlank, MISSING_DATA) && row.trace == before
       else
         SaysDuration(row, Resolved(data, call.id, d.startEvent, d.last), Resolved(data, call.id, d.endEvent, d.last),
                      before)
  }

  lemma DelayIsFound(row: Row, services: seq<Service>, movement: string, before: Trace)
    requires row.outcome == ServiceOutcome(Chosen(Sort(services, Sooner), movement))
    requires row.trace == ServiceTrace(before, Chosen(Sort(services, Sooner), movement))
    ensures FindsDelay(row, services, movement, before)
  {
    var chosen := Chosen(Sort(services, Sooner), movement);
    ChosenIsMeasuredOn(services, movement);
    ServiceIsSaid(row, chosen, before);
  }

  lemma WrittenFinds(row: Row, data: Data, d: Definition, call: Call, before: Trace)
    requires Written(row, data, d, call, before)
    ensures Finds(row, data, d, call, before)
  {
    if d.noSourceData {
    } else if d.executionDelay {
      DelayIsFound(row, if call.id in data.services then data.services[call.id] else [], Target(d), before);
    } else if !WithoutAta(data, d, call) {
      PairIsSaid(row, Resolved(data, call.id, d.startEvent, d.last), Resolved(data, call.id, d.endEvent, d.last),
                 before);
    }
  }
}
