/** The batched event-pair durations of the delay service against the per-call durations of the analytics engine. */
module Durations {
  import opened Wrappers
  import opened Rounding
  import opened Journey
  import opened Resolution
  import opened Metrics

  /** `delta` counts microseconds; the service reports it in hours, unrounded. */
  datatype Observed = Observed(call: nat, delta: int, sources: seq<nat>)

  function Between(call: nat, start: Option<Occurrence>, end: Option<Occurrence>): (r: seq<Observed>)
    ensures |r| <= 1
  {
    if start.Some? && end.Some? && end.value.time >= start.value.time then
      [Observed(call, end.value.time - start.value.time, [start.value.id, end.value.id])]
    else []
  }

  function BatchedOne(loaded: seq<Occurrence>, observations: Observations, call: nat, s: nat, e: nat): seq<Observed> {
    Between(call, Selected(loaded, observations, (call, s)), Selected(loaded, observations, (call, e)))
  }

  function BatchedAll(loaded: seq<Occurrence>, observations: Observations, calls: seq<nat>, s: nat,
                      e: nat): seq<Observed> {
    if calls == [] then []
    else
      var last := |calls| - 1;
      BatchedAll(loaded, observations, calls[..last], s, e) + BatchedOne(loaded, observations, calls[last], s, e)
  }

  function PerSlotAll(rows: seq<Occurrence>, observations: Observations, calls: seq<nat>, s: nat,
                      e: nat): seq<Observed> {
    if calls == [] then []
    else
      var last := |calls| - 1;
      PerSlotAll(rows, observations, calls[..last], s, e)
      + Between(calls[last], Resolve(rows, observations, (calls[last], s), false, true),
                Resolve(rows, observations, (calls[last], e), false, true))
  }

  method EventPairDurationObservations(rows: seq<Occurrence>, observations: Observations, calls: seq<nat>,
                                       startId: Option<nat>, endId: Option<nat>) returns (values: seq<Observed>)
    requires KeysUnique(rows)
    ensures values == if startId.None? || endId.None? then []
                      else BatchedAll(LoadedRows(rows, calls, {startId.value, endId.value}), observations, calls,
                                      startId.value, endId.value)
  {
    values := [];
    if startId.None? || endId.None? { return; }
    if calls == [] { return; }
    var s, e := startId.value, endId.value;
    var loaded := LoadedRows(rows, calls, {s, e});
    LoadedAre(rows, calls, {s, e});
    var byId := IndexById(loaded);
    var candidates := IndexBySlot(loaded);
    values := Collect(byId, candidates, observations, calls, s, e, loaded);
  }

  /** One call: what the look-ups select for its two slots, if it does not run backwards. */
  method CollectOne(byId: map<nat, Occurrence>, candidates: map<Slot, seq<Occurrence>>, observations: Observations,
                    call: nat, s: nat, e: nat, ghost loaded: seq<Occurrence>) returns (values: seq<Observed>)
    requires IdIndexOf(byId, loaded) && SlotIndexOf(candidates, loaded)
    ensures values == BatchedOne(loaded, observations, call, s, e)
  {
    var start := Select(byId, candidates, observations, (call, s), loaded);
    var end := Select(byId, candidates, observations, (call, e), loaded);
    values := [];
    if start.Some? && end.Some? && end.value.time >= start.value.time {
      values := [Observed(call, end.value.time - start.value.time, [start.value.id, end.value.id])];
    }
  }

  method Collect(byId: map<nat, Occurrence>, candidates: map<Slot, seq<Occurrence>>, observations: Observations,
                 calls: seq<nat>, s: nat, e: nat, ghost loaded: seq<Occurrence>) returns (values: seq<Observed>)
    requires IdIndexOf(byId, loaded) && SlotIndexOf(candidates, loaded)
    ensures values == BatchedAll(loaded, observations, calls, s, e)
  {
    values := [];
    var i := 0;
    while i != |calls|
      invariant i <= |calls| && values == BatchedAll(loaded, observations, calls[..i], s, e)
      decreases |calls| - i
    {
      var next := i + 1;
      BatchedGrows(loaded, observations, calls, i, next, s, e);
      var one := CollectOne(byId, candidates, observations, calls[i], s, e, loaded);
      values := values + one;
      i := next;
    }
    assert calls[..|calls|] == calls;
  }

  lemma BatchedGrows(loaded: seq<Occurrence>, observations: Observations, calls: seq<nat>, i: nat, next: nat,
                     s: nat, e: nat)
    requires i < |calls| && next == i + 1
    ensures BatchedAll(loaded, observations, calls[..next], s, e)
         == BatchedAll(loaded, observations, calls[..i], s, e) + BatchedOne(loaded, observations, calls[i], s, e)
  {
    assert calls[..next][..i] == calls[..i];
  }

  /** A recorded winner that lies in its own slot is always reachable. */
  lemma OwnWinnerIsReachable(rows: seq<Occurrence>, observations: Observations, slot: Slot, calls: seq<nat>,
                             pair: set<nat>)
    requires slot.0 in calls && slot.1 in pair
    requires Winner(rows, observations, slot, true).Some? ==>
             SlotOf(Winner(rows, observations, slot, true).value) == slot
    ensures Reachable(rows, observations, slot, calls, pair)
  {
  }

  /** The batched list is, call by call and in the same order, what per-slot resolution would give. */
  lemma {:induction false} BatchedIsPerSlot(rows: seq<Occurrence>, observations: Observations, all: seq<nat>,
                                            calls: seq<nat>, s: nat, e: nat)
    requires KeysUnique(rows) && forall c :: c in calls ==> c in all
    requires forall c, d :: c in calls && d in {s, e} ==> Reachable(rows, observations, (c, d), all, {s, e})
    ensures BatchedAll(LoadedRows(rows, all, {s, e}), observations, calls, s, e)
            == PerSlotAll(rows, observations, calls, s, e)
  {
    if calls != [] {
      var last := |calls| - 1;
      var c := calls[last];
      assert c in calls && s in {s, e} && e in {s, e};
      BatchedIsPerSlot(rows, observations, all, calls[..last], s, e);
      assert Reachable(rows, observations, (c, s), all, {s, e}) && Reachable(rows, observations, (c, e), all, {s, e});
      BatchedAgreesIff(rows, observations, all, {s, e}, (c, s));
      BatchedAgreesIff(rows, observations, all, {s, e}, (c, e));
    }
  }

  /** Both readings of the pair are there, and the end precedes the start by at most 1800 microseconds. */
  predicate SlightlyBackwards(start: Option<Occurrence>, end: Option<Occurrence>) {
    start.Some? && end.Some? && -1800 <= end.value.time - start.value.time < 0
  }

  predicate RunsBackwards(data: Data, d: Definition, call: nat) {
    SlightlyBackwards(Resolved(data, call, d.startEvent, false), Resolved(data, call, d.endEvent, false))
  }

  /** A metric that both sides compute: clean first occurrences of two defined events, with reachable winners. */
  ghost predicate Comparable(data: Data, d: Definition, call: nat, calls: seq<nat>) {
    && KeysUnique(data.occurrences) && data.excludeQuarantined && call in calls
    && d.startEvent in data.events && d.endEvent in data.events && !d.last
    && !(d.name == "Turnaround" && call in data.ataBlank)
    && var s, e := data.events[d.startEvent], data.events[d.endEvent];
       && Reachable(data.occurrences, data.observations, (call, s), calls, {s, e})
       && Reachable(data.occurrences, data.observations, (call, e), calls, {s, e})
  }

  /** What the batched list holds for one call. */
  function BatchedFor(data: Data, d: Definition, call: nat, calls: seq<nat>): seq<Observed> {
    if d.startEvent in data.events && d.endEvent in data.events then
      var s, e := data.events[d.startEvent], data.events[d.endEvent];
      BatchedOne(LoadedRows(data.occurrences, calls, {s, e}), data.observations, call, s, e)
    else []
  }

  predicate AvailableNonNegative(o: Outcome) { o.status == AVAILABLE && o.duration.Some? && o.duration.value >= 0.0 }

  /** The durations of a pair of clean readings, side by side. */
  ghost predicate SideBySide(found: seq<Observed>, outcome: Outcome, backwards: bool) {
    && ((found != [] <==> AvailableNonNegative(outcome)) <==> !backwards)
    && (found != [] ==> outcome == Outcome(AVAILABLE, Some(Hours(found[0].delta)), None, CLEAN))
    && (backwards ==> found == [] && outcome == Outcome(AVAILABLE, Some(0.0), None, CLEAN))
  }

  lemma PairSideBySide(call: nat, start: Option<Occurrence>, end: Option<Occurrence>)
    requires (start.Some? ==> !start.value.quarantined) && (end.Some? ==> !end.value.quarantined)
    ensures SideBySide(Between(call, start, end), PairOutcome(start, end), SlightlyBackwards(start, end))
  {
    if start.Some? && end.Some? { HoursSign(end.value.time - start.value.time); }
  }

  lemma BatchedForIs(data: Data, d: Definition, call: nat, calls: seq<nat>)
    requires Comparable(data, d, call, calls)
    ensures BatchedFor(data, d, call, calls)
         == Between(call, Resolved(data, call, d.startEvent, false), Resolved(data, call, d.endEvent, false))
  {
    var s, e := data.events[d.startEvent], data.events[d.endEvent];
    BatchedAgreesIff(data.occurrences, data.observations, calls, {s, e}, (call, s));
    BatchedAgreesIff(data.occurrences, data.observations, calls, {s, e}, (call, e));
  }

  /** For one call, the batched list holds a duration just when the metric is available and not negative, if and
      only if the interval does not run backwards by at most 1800 microseconds; a duration it holds is the metric's
      own before rounding, and an interval that does run backwards so is the metric's zero. */
  lemma BatchedAgainstMetric(data: Data, d: Definition, call: Call, calls: seq<nat>)
    requires Comparable(data, d, call.id, calls)
    ensures SideBySide(BatchedFor(data, d, call.id, calls), EventOutcome(data, d, call),
                       RunsBackwards(data, d, call.id))
  {
    BatchedForIs(data, d, call.id, calls);
    ResolvedIsUsable(data, call.id, d.startEvent);
    ResolvedIsUsable(data, call.id, d.endEvent);
    PairSideBySide(call.id, Resolved(data, call.id, d.startEvent, false), Resolved(data, call.id, d.endEvent, false));
  }

  // ---- The whole list

  type Entries = seq<(nat, real)>

  function Collected(calls: seq<Call>, of: Call -> Entries): Entries {
    if calls == [] then [] else Collected(calls[..|calls| - 1], of) + of(calls[|calls| - 1])
  }

  /** The batched durations of a call, rounded as the metric rounds them. */
  function BatchedOf(data: Data, d: Definition, all: seq<nat>): Call -> Entries {
    (call: Call) =>
      var found := BatchedFor(data, d, call.id, all);
      if found == [] then [] else [(call.id, Hours(found[0].delta))]
  }

  /** The non-negative available duration of a call. */
  function MetricOf(data: Data, d: Definition): Call -> Entries {
    (call: Call) =>
      var o := EventOutcome(data, d, call);
      if AvailableNonNegative(o) then [(call.id, o.duration.value)] else []
  }

  lemma {:induction false} CollectedCompare(calls: seq<Call>, f: Call -> Entries, g: Call -> Entries,
                                            less: Call -> bool)
    requires forall k :: 0 <= k < |calls| ==>
               if less(calls[k]) then |f(calls[k])| < |g(calls[k])| else f(calls[k]) == g(calls[k])
    ensures |Collected(calls, f)| <= |Collected(calls, g)|
    ensures if exists k :: 0 <= k < |calls| && less(calls[k]) then |Collected(calls, f)| < |Collected(calls, g)|
            else Collected(calls, f) == Collected(calls, g)
  {
    if calls != [] {
      var n := |calls| - 1;
      assert forall k :: 0 <= k < n ==> calls[..n][k] == calls[k];
      CollectedCompare(calls[..n], f, g, less);
    }
  }

  /** Over any calls, the batched durations are the non-negative available ones if and only if no interval runs
      backwards by at most 1800 microseconds; otherwise some are missing. */
  lemma BatchedListIff(data: Data, d: Definition, calls: seq<Call>, all: seq<nat>)
    requires forall k :: 0 <= k < |calls| ==> Comparable(data, d, calls[k].id, all)
    ensures Collected(calls, BatchedOf(data, d, all)) == Collected(calls, MetricOf(data, d))
       <==> forall k :: 0 <= k < |calls| ==> !RunsBackwards(data, d, calls[k].id)
    ensures |Collected(calls, BatchedOf(data, d, all))| <= |Collected(calls, MetricOf(data, d))|
  {
    var f, g, less := BatchedOf(data, d, all), MetricOf(data, d), (call: Call) => RunsBackwards(data, d, call.id);
    forall k | 0 <= k < |calls|
      ensures if less(calls[k]) then |f(calls[k])| < |g(calls[k])| else f(calls[k]) == g(calls[k])
    {
      OneCallCompares(data, d, calls[k], all);
    }
    CollectedCompare(calls, f, g, less);
    assert forall k :: 0 <= k < |calls| ==> less(calls[k]) == RunsBackwards(data, d, calls[k].id);
  }

  lemma OneCallCompares(data: Data, d: Definition, call: Call, all: seq<nat>)
    requires Comparable(data, d, call.id, all)
    ensures var f, g := BatchedOf(data, d, all)(call), MetricOf(data, d)(call);
            if RunsBackwards(data, d, call.id) then |f| < |g| else f == g
  {
    BatchedAgainstMetric(data, d, call, all);
  }

  /** Such a call exists: its end is recorded one microsecond before its start. */
  lemma SlightlyBackwardsHappens(d: Definition, call: Call) returns (data: Data)
    requires d.startEvent != d.endEvent && !d.last && d.name != "Turnaround"
    ensures Comparable(data, d, call.id, [call.id]) && RunsBackwards(data, d, call.id)
  {
    var start := Occurrence(0, call.id, 0, 1, 1, false, None, false, "Verified", 1.0, "AIS", 0);
    var end := Occurrence(1, call.id, 1, 1, 0, false, None, false, "Verified", 1.0, "AIS", 0);
    data := Data(map[d.startEvent := 0, d.endEvent := 1], [start, end], map[], map[], {}, true);
    TheOnlyOne(start, end);
  }

  lemma ResolvedIsUsable(data: Data, call: nat, name: string)
    requires data.excludeQuarantined
    ensures match Resolved(data, call, name, false)
            case None => true
            case Some(o) => o in data.occurrences && Usable(o, true)
  {
    if name in data.events { FirstOfSlot(data.occurrences, (call, data.events[name])); }
  }
}
