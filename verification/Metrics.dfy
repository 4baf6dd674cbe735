/** The lead-time results of the analytics engine: what one computation writes over what an earlier one left. */
module Metrics {
  import opened Wrappers
  import opened Text
  import opened Ordering
  import opened Rounding
  import opened Journey

  datatype Definition = Definition(id: nat, name: string, noSourceData: bool, executionDelay: bool, movement: string,
                                   startEvent: string, endEvent: string, last: bool, version: string)

  datatype Call = Call(id: nat, vcn: string, merged: bool)

  /** One pilotage request with its assignment and execution. An empty movement is an unrecorded one. */
  datatype Service = Service(id: nat, movement: string, scheduled: Option<int>, served: Option<int>)

  datatype Status = AVAILABLE | UNAVAILABLE | NO_SOURCE_DATA

  datatype Reason = AtaBlank | BothMissing | StartMissing | EndMissing | NoService | NoTimestamps | NoSource

  datatype DqStatus = CLEAN | DQ_ISSUES | MISSING_DATA | INCOMPLETE_TIMESTAMPS | DQ_NO_SOURCE_DATA

  /** The columns that say what was found. */
  datatype Outcome = Outcome(status: Status, duration: Option<real>, reason: Option<Reason>, dq: DqStatus)

  /** The columns that say what it was found from. */
  datatype Trace = Trace(sources: seq<nat>, start: Option<int>, end: Option<int>, startId: Option<nat>,
                         endId: Option<nat>)

  datatype Row = Row(call: nat, definition: nat, vcn: string, version: string, outcome: Outcome, trace: Trace)

  /** Everything a computation reads. Event names are unique, and so are their identifiers. */
  datatype Data = Data(events: map<string, nat>, occurrences: seq<Occurrence>, observations: Observations,
                       services: map<nat, seq<Service>>, ataBlank: set<nat>, excludeQuarantined: bool)

  const NO_TRACE := Trace([], None, None, None, None)

  /** Microseconds as hours with six places. */
  function Hours(delta: int): real { Round(Over(delta as real, 3600000000.0), 1000000) }

  /** Six places of an hour are 3.6 milliseconds: half of that before the start still reads as no time at all. */
  lemma HoursSign(delta: int)
    ensures Hours(delta) >= 0.0 <==> delta >= -1800
    ensures Hours(delta) == 0.0 <==> -1800 <= delta <= 1800
  {
    var ticks := Times(Over(delta as real, 3600000000.0), 1000000.0);
    assert ticks == delta as real / 3600.0;
    var n := RoundInt(ticks);
    assert Hours(delta) == Over(n as real, 1000000.0);
    assert Hours(delta) * 1000000.0 == n as real;
    if -1800 <= delta <= 1800 {
      assert -0.5 <= ticks <= 0.5;
      assert n == 0 by { assert ticks.Floor == 0 || ticks.Floor == -1; }
    } else if delta > 1800 {
      assert ticks > 0.5;
    } else {
      assert ticks < -0.5;
    }
  }

  /** Half of the sixth place of an hour is 1800 microseconds. */
  lemma HoursBound(delta: int)
    ensures -1800.0 <= Hours(delta) * 3600000000.0 - delta as real <= 1800.0
  {
    RoundError(Over(delta as real, 3600000000.0), 1000000);
  }

  // ---- What a computation from nothing would find ----

  function Resolved(data: Data, call: nat, name: string, last: bool): Option<Occurrence> {
    if name in data.events then Resolve(data.occurrences, data.observations, (call, data.events[name]), last,
                                        data.excludeQuarantined)
    else None
  }

  function PairOutcome(start: Option<Occurrence>, end: Option<Occurrence>): Outcome {
    if start.Some? && end.Some? then
      Outcome(AVAILABLE, Some(Hours(end.value.time - start.value.time)), None,
              if start.value.quarantined || end.value.quarantined then DQ_ISSUES else CLEAN)
    else
      Outcome(UNAVAILABLE, None,
              Some(if start.Some? then EndMissing else if end.Some? then StartMissing else BothMissing), MISSING_DATA)
  }

  predicate WithoutAta(data: Data, d: Definition, call: Call) { d.name == "Turnaround" && call.id in data.ataBlank }

  function EventOutcome(data: Data, d: Definition, call: Call): Outcome {
    if WithoutAta(data, d, call) then Outcome(UNAVAILABLE, None, Some(AtaBlank), MISSING_DATA)
    else PairOutcome(Resolved(data, call.id, d.startEvent, d.last), Resolved(data, call.id, d.endEvent, d.last))
  }

  /** Ascending, the unscheduled ones last. */
  predicate Sooner(s: Service, t: Service) {
    t.scheduled.None? || (s.scheduled.Some? && s.scheduled.value <= t.scheduled.value)
  }

  predicate Moves(s: Service, movement: string) { s.movement != "" && Upper(s.movement) == Upper(movement) }

  function FirstMoving(services: seq<Service>, movement: string): (r: Option<Service>)
    ensures r.None? <==> forall s :: s in services ==> !Moves(s, movement)
    ensures r.Some? ==> exists k :: 0 <= k < |services| && services[k] == r.value && Moves(r.value, movement)
                                    && forall j :: 0 <= j < k ==> !Moves(services[j], movement)
  {
    if services == [] then None
    else if Moves(services[0], movement) then Some(services[0])
    else
      var r := FirstMoving(services[1..], movement);
      assert r.Some? ==> exists k :: 0 <= k < |services| && services[k] == r.value && Moves(r.value, movement)
                                     && forall j :: 0 <= j < k ==> !Moves(services[j], movement) by {
        if r.Some? {
          var k :| 0 <= k < |services[1..]| && services[1..][k] == r.value
            && forall j :: 0 <= j < k ==> !Moves(services[1..][j], movement);
          assert forall j :: 0 < j < k + 1 ==> services[j] == services[1..][j - 1];
          assert services[k + 1] == r.value;
        }
      }
      r
  }

  function Target(d: Definition): string { if d.movement == "" then "Arrival" else d.movement }

  /** The service a delay is measured on: the first of the wanted movement, or by position when none is recorded so. */
  function Chosen(services: seq<Service>, movement: string): Option<Service> {
    var moving := FirstMoving(services, movement);
    if moving.Some? then moving
    else if Upper(movement) == "ARRIVAL" then First(services)
    else if Upper(movement) == "SAILING" && |services| > 1 then Some(services[|services| - 1])
    else None
  }

  function ServicesOf(data: Data, call: nat): seq<Service> {
    Sort(if call in data.services then data.services[call] else [], Sooner)
  }

  function DelayOutcome(data: Data, d: Definition, call: Call): Outcome {
    ServiceOutcome(Chosen(ServicesOf(data, call.id), Target(d)))
  }

  function ServiceOutcome(chosen: Option<Service>): Outcome {
    match chosen
    case None => Outcome(UNAVAILABLE, None, Some(NoService), MISSING_DATA)
    case Some(s) =>
      if s.scheduled.Some? && s.served.Some? then
        Outcome(AVAILABLE, Some(Hours(s.served.value - s.scheduled.value)), None, CLEAN)
      else Outcome(UNAVAILABLE, None, Some(NoTimestamps), INCOMPLETE_TIMESTAMPS)
  }

  function OutcomeOf(data: Data, d: Definition, call: Call): Outcome {
    if d.noSourceData then Outcome(NO_SOURCE_DATA, None, Some(NoSource), DQ_NO_SOURCE_DATA)
    else if d.executionDelay then DelayOutcome(data, d, call)
    else EventOutcome(data, d, call)
  }

  // ---- What a computation leaves of the earlier trace ----

  function Ids(start: Option<Occurrence>, end: Option<Occurrence>): seq<nat> {
    (if start.Some? then [start.value.id] else []) + if end.Some? then [end.value.id] else []
  }

  function PairTrace(before: Trace, start: Option<Occurrence>, end: Option<Occurrence>): Trace {
    Trace(Ids(start, end),
          if start.Some? then Some(start.value.time) else before.start,
          if end.Some? then Some(end.value.time) else before.end,
          if start.Some? then Some(start.value.id) else before.startId,
          if end.Some? then Some(end.value.id) else before.endId)
  }

  function ServiceTrace(before: Trace, chosen: Option<Service>): Trace {
    match chosen
    case None => before.(sources := [])
    case Some(s) =>
      if s.scheduled.Some? && s.served.Some? then before.(sources := [s.id], start := s.scheduled, end := s.served)
      else before.(sources := [s.id])
  }

  function TraceOf(data: Data, d: Definition, call: Call, before: Trace): Trace {
    if d.noSourceData then before.(sources := [])
    else if d.executionDelay then
      ServiceTrace(before, Chosen(ServicesOf(data, call.id), Target(d)))
    else if WithoutAta(data, d, call) then before
    else PairTrace(before, Resolved(data, call.id, d.startEvent, d.last), Resolved(data, call.id, d.endEvent, d.last))
  }

  ghost predicate Written(row: Row, data: Data, d: Definition, call: Call, before: Trace) {
    && row.call == call.id && row.definition == d.id && row.vcn == call.vcn && row.version == d.version
    && row.outcome == OutcomeOf(data, d, call)
    && row.trace == TraceOf(data, d, call, before)
  }

  /** Both events are looked for, and each has a governing reading. */
  predicate FindsBoth(data: Data, d: Definition, call: Call) {
    && !d.noSourceData && !d.executionDelay && !WithoutAta(data, d, call)
    && Resolved(data, call.id, d.startEvent, d.last).Some? && Resolved(data, call.id, d.endEvent, d.last).Some?
  }

  /** The trace survives from an earlier computation unless this one finds both events. */
  lemma TraceForgetsIff(data: Data, d: Definition, call: Call)
    ensures (forall s, t :: TraceOf(data, d, call, s) == TraceOf(data, d, call, t))
       <==> FindsBoth(data, d, call)
  {
    var s, t := Trace([0], Some(0), Some(0), Some(0), Some(0)), Trace([1], Some(1), Some(1), Some(1), Some(1));
    assert TraceOf(data, d, call, s) == TraceOf(data, d, call, t) ==> FindsBoth(data, d, call);
  }

  /** Such a trace exists: both events are found, then the reading of the end is superseded. The second computation
      finds no end, and leaves the time and the reference of the first. */
  lemma StaleEndSurvives(d: Definition, call: Call) returns (data: Data, later: Data)
    requires !d.noSourceData && !d.executionDelay && !d.last && d.name != "Turnaround" && d.startEvent != d.endEvent
    ensures |data.occurrences| == 2
    ensures later == data.(occurrences := [data.occurrences[0], data.occurrences[1].(superseded := true)])
    ensures OutcomeOf(data, d, call).status == AVAILABLE && OutcomeOf(later, d, call).reason == Some(EndMissing)
    ensures var first := TraceOf(data, d, call, NO_TRACE); var second := TraceOf(later, d, call, first);
            && first.end.Some? && second.end == first.end && second.endId == first.endId
            && TraceOf(later, d, call, NO_TRACE).end.None?
  {
    var start := Occurrence(0, call.id, 0, 1, 0, false, None, false, "Verified", 1.0, "AIS", 0);
    var end := Occurrence(1, call.id, 1, 1, 5, false, None, false, "Verified", 1.0, "AIS", 0);
    data := Data(map[d.startEvent := 0, d.endEvent := 1], [start, end], map[], map[], {}, true);
    later := data.(occurrences := [start, end.(superseded := true)]);
    TheOnlyOne(start, end);
    OneIsSuperseded(start, end.(superseded := true));
  }

  method SelectService(services: seq<Service>, movement: string) returns (chosen: Option<Service>)
    ensures chosen == Chosen(services, movement)
  {
    chosen := None;
    for i := 0 to |services|
      invariant chosen == None && forall j :: 0 <= j < i ==> !Moves(services[j], movement)
    {
      if services[i].movement != "" {
        if Upper(services[i].movement) == Upper(movement) {
          chosen := Some(services[i]);
          assert Moves(services[i], movement) && services[i] in services;
          break;
        }
      }
    }
    if chosen == None && services != [] {
      if Upper(movement) == "ARRIVAL" {
        chosen := Some(services[0]);
      } else if Upper(movement) == "SAILING" {
        if |services| > 1 { chosen := Some(services[|services| - 1]); }
      }
    }
  }
}
