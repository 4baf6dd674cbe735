/** Recomputing the lead-time results in place: whatever the table held before, one result per call and definition. */
module Recompute {
  import opened Wrappers
  import opened Journey
  import opened Metrics
  import opened Findings

  predicate At(row: Row, call: nat, definition: nat) { row.call == call && row.definition == definition }

  ghost predicate Sole(table: map<nat, Row>, id: nat, call: nat, definition: nat) {
    && id in table && At(table[id], call, definition)
    && forall j :: j in table && At(table[j], call, definition) ==> j == id
  }

  ghost predicate Absent(table: map<nat, Row>, call: nat, definition: nat) {
    forall id :: id in table ==> !At(table[id], call, definition)
  }

  /** `before` is the trace of one of the earlier rows, or empty when there was none. */
  ghost predicate CameFrom(was: map<nat, Row>, call: nat, definition: nat, before: Trace) {
    if Absent(was, call, definition) then before == NO_TRACE
    else exists id :: id in was && At(was[id], call, definition) && was[id].trace == before
  }

  /** One row, as a computation from nothing would write it, up to the trace it inherits. */
  ghost predicate Settled(table: map<nat, Row>, was: map<nat, Row>, data: Data, d: Definition, call: Call) {
    exists id, before :: Sole(table, id, call.id, d.id) && Written(table[id], data, d, call, before)
      && CameFrom(was, call.id, d.id, before)
  }

  predicate Covered(row: Row, ids: set<nat>, definitions: set<nat>) { row.call in ids && row.definition in definitions }

  /** Rows of other calls or other definitions are untouched. */
  ghost predicate SameElsewhere(was: map<nat, Row>, now: map<nat, Row>, ids: set<nat>, definitions: set<nat>) {
    && (forall id :: id in was && !Covered(was[id], ids, definitions) ==> id in now && now[id] == was[id])
    && (forall id :: id in now && !Covered(now[id], ids, definitions) ==> id in was && now[id] == was[id])
  }

  function IdsOf(calls: seq<Call>): set<nat> { set c | c in calls :: c.id }

  ghost predicate Distinct(calls: seq<Call>) { forall i, j :: 0 <= i < j < |calls| ==> calls[i].id != calls[j].id }

  /** What is left once duplicates are gone: the rows of `was`, one for each call that had any. */
  ghost predicate Claimed(was: map<nat, Row>, now: map<nat, Row>, existing: map<nat, nat>, ids: set<nat>, d: nat) {
    && SameElsewhere(was, now, ids, {d})
    && (forall id :: id in now ==> id in was && now[id] == was[id])
    && (forall c :: c in existing ==> c in ids && Sole(now, existing[c], c, d))
    && (forall c :: c in ids && c !in existing ==> Absent(was, c, d) && Absent(now, c, d))
  }

  /** The scan for duplicates, with `todo` still to come. */
  ghost predicate Scanning(was: map<nat, Row>, now: map<nat, Row>, existing: map<nat, nat>, todo: set<nat>,
                           ids: set<nat>, d: nat) {
    && (forall id :: id in todo ==> id in now && Covered(now[id], ids, {d}))
    && (forall id :: id in now ==> id in was && now[id] == was[id])
    && (forall id :: id in was && Covered(was[id], ids, {d}) && id !in todo ==> was[id].call in existing)
    && (forall id :: id in was && id !in now ==> Covered(was[id], ids, {d}))
    && (forall c :: c in existing ==>
        c in ids && existing[c] in now && existing[c] !in todo && At(now[existing[c]], c, d))
    && (forall id :: id in now && Covered(now[id], ids, {d}) && id !in todo ==> id == existing[now[id].call])
  }

  lemma DropKeeps(was: map<nat, Row>, now: map<nat, Row>, existing: map<nat, nat>, todo: set<nat>, id: nat,
                  ids: set<nat>, d: nat)
    requires Scanning(was, now, existing, todo, ids, d) && id in todo && now[id].call in existing
    ensures Scanning(was, now - {id}, existing, todo - {id}, ids, d)
  {
  }

  lemma KeepKeeps(was: map<nat, Row>, now: map<nat, Row>, existing: map<nat, nat>, todo: set<nat>, id: nat,
                  ids: set<nat>, d: nat)
    requires Scanning(was, now, existing, todo, ids, d) && id in todo && now[id].call !in existing
    ensures Scanning(was, now, existing[now[id].call := id], todo - {id}, ids, d)
  {
  }

  ghost predicate AllSettled(table: map<nat, Row>, was: map<nat, Row>, data: Data, d: Definition, calls: seq<Call>) {
    forall call :: call in calls ==> Settled(table, was, data, d, call)
  }

  function DefinitionIds(catalogue: seq<Definition>): set<nat> { set d | d in catalogue :: d.id }

  predicate Wants(call: Call, only: set<nat>) { !call.merged && (only == {} || call.id in only) }

  function Wanted(population: seq<Call>, only: set<nat>): (calls: seq<Call>)
    ensures forall call :: call in calls <==> call in population && Wants(call, only)
  {
    if population == [] then []
    else (if Wants(population[0], only) then [population[0]] else []) + Wanted(population[1..], only)
  }

  function Purged(table: map<nat, Row>, population: seq<Call>): map<nat, Row> {
    map id | id in table && forall call :: call in population && call.merged ==> call.id != table[id].call :: table[id]
  }

  lemma {:induction false} WantedAreDistinct(population: seq<Call>, only: set<nat>)
    requires Distinct(population)
    ensures Distinct(Wanted(population, only))
  {
    if population != [] {
      WantedAreDistinct(population[1..], only);
      var rest := Wanted(population[1..], only);
      forall k | 0 <= k < |rest| ensures rest[k].id != population[0].id {
        assert rest[k] in population[1..];
        var j :| 0 <= j < |population[1..]| && population[1..][j] == rest[k];
      }
    }
  }

  /** The row belongs to a merged call, or to an active one and a definition that are computed. */
  ghost predicate Concerned(row: Row, catalogue: seq<Definition>, population: seq<Call>, only: set<nat>) {
    exists call :: call in population && call.id == row.call
      && (call.merged || ((only == {} || call.id in only) && exists d :: d in catalogue && d.id == row.definition))
  }

  /** No other row is lost, changed or added. */
  ghost predicate SpareRows(was: map<nat, Row>, now: map<nat, Row>, catalogue: seq<Definition>, population: seq<Call>,
                            only: set<nat>) {
    && (forall id :: id in was && !Concerned(was[id], catalogue, population, only) ==> id in now && now[id] == was[id])
    && (forall id :: id in now && !Concerned(now[id], catalogue, population, only) ==> id in was && now[id] == was[id])
  }

  class AnalyticsEngine {
    var table: map<nat, Row>
    var next: nat

    predicate Valid()
      reads this
    {
      forall id :: id in table ==> id < next
    }

    method ClaimRows(ids: set<nat>, d: nat) returns (existing: map<nat, nat>)
      requires Valid()
      modifies this`table
      ensures Valid() && Claimed(old(table), table, existing, ids, d)
    {
      ghost var was := table;
      existing := map[];
      var todo := set id | id in table && table[id].call in ids && table[id].definition == d;
      while todo != {}
        invariant Valid() && Scanning(was, table, existing, todo, ids, d)
        decreases todo
      {
        var id :| id in todo;
        if table[id].call in existing {
          DropKeeps(was, table, existing, todo, id, ids, d);
          table := table - {id};
        } else {
          KeepKeeps(was, table, existing, todo, id, ids, d);
          existing := existing[table[id].call := id];
        }
        todo := todo - {id};
      }
    }

    /** The branches of an event duration, column by column, on the row found or made. */
    method WritePair(before: Row, start: Option<Occurrence>, end: Option<Occurrence>) returns (row: Row)
      ensures row == before.(outcome := PairOutcome(start, end), trace := PairTrace(before.trace, start, end))
    {
      row := before;
      if start.None? && end.None? {
        row := row.(outcome := Outcome(UNAVAILABLE, None, Some(BothMissing), MISSING_DATA),
                    trace := row.trace.(sources := []));
      } else if start.None? {
        row := row.(outcome := Outcome(UNAVAILABLE, None, Some(StartMissing), MISSING_DATA),
                    trace := row.trace.(sources := [end.value.id], endId := Some(end.value.id),
                                        end := Some(end.value.time)));
      } else if end.None? {
        row := row.(outcome := Outcome(UNAVAILABLE, None, Some(EndMissing), MISSING_DATA),
                    trace := row.trace.(sources := [start.value.id], startId := Some(start.value.id),
                                        start := Some(start.value.time)));
      } else {
        var dq := if !(start.value.quarantined || end.value.quarantined) then CLEAN else DQ_ISSUES;
        row := row.(outcome := Outcome(AVAILABLE, Some(Hours(end.value.time - start.value.time)), None, dq));
        row := row.(trace := Trace([start.value.id, end.value.id], Some(start.value.time), Some(end.value.time),
                                   Some(start.value.id), Some(end.value.id)));
      }
    }

    method WriteService(before: Row, chosen: Option<Service>) returns (row: Row)
      ensures row == before.(outcome := ServiceOutcome(chosen), trace := ServiceTrace(before.trace, chosen))
    {
      row := before;
      if chosen.None? {
        row := row.(outcome := Outcome(UNAVAILABLE, None, Some(NoService), MISSING_DATA),
                    trace := row.trace.(sources := []));
        return;
      }
      var s := chosen.value;
      if s.scheduled.None? || s.served.None? {
        row := row.(outcome := Outcome(UNAVAILABLE, None, Some(NoTimestamps), INCOMPLETE_TIMESTAMPS),
                    trace := row.trace.(sources := [s.id]));
        return;
      }
      row := row.(outcome := Outcome(AVAILABLE, Some(Hours(s.served.value - s.scheduled.value)), None, CLEAN));
      row := row.(trace := row.trace.(sources := [s.id], start := s.scheduled, end := s.served));
    }

    method ComputeEventDuration(data: Data, d: Definition, call: Call, before: Row) returns (row: Row)
      requires !d.noSourceData && !d.executionDelay
      requires At(before, call.id, d.id) && before.vcn == call.vcn && before.version == d.version
      ensures Written(row, data, d, call, before.trace) && Finds(row, data, d, call, before.trace)
    {
      if d.name == "Turnaround" && call.id in data.ataBlank {
        row := before.(outcome := Outcome(UNAVAILABLE, None, Some(AtaBlank), MISSING_DATA));
      } else {
        var start := Resolved(data, call.id, d.startEvent, d.last);
        var end := Resolved(data, call.id, d.endEvent, d.last);
        row := WritePair(before, start, end);
      }
      WrittenFinds(row, data, d, call, before.trace);
    }

    method ComputeExecutionDelay(data: Data, d: Definition, call: Call, before: Row) returns (row: Row)
      requires !d.noSourceData && d.executionDelay
      requires At(before, call.id, d.id) && before.vcn == call.vcn && before.version == d.version
      ensures Written(row, data, d, call, before.trace) && Finds(row, data, d, call, before.trace)
    {
      var chosen := SelectService(ServicesOf(data, call.id), Target(d));
      row := WriteService(before, chosen);
      WrittenFinds(row, data, d, call, before.trace);
    }

    method ComputeRow(data: Data, d: Definition, call: Call, existing: Option<Row>) returns (row: Row)
      requires existing.Some? ==> At(existing.value, call.id, d.id)
      ensures Written(row, data, d, call, if existing.Some? then existing.value.trace else NO_TRACE)
    {
      row := if existing.Some? then existing.value
             else Row(call.id, d.id, call.vcn, d.version, Outcome(UNAVAILABLE, None, None, MISSING_DATA), NO_TRACE);
      row := row.(vcn := call.vcn, version := d.version);
      if d.noSourceData {
        row := row.(outcome := Outcome(NO_SOURCE_DATA, None, Some(NoSource), DQ_NO_SOURCE_DATA),
                    trace := row.trace.(sources := []));
      } else if d.executionDelay {
        row := ComputeExecutionDelay(data, d, call, row);
      } else {
        row := ComputeEventDuration(data, d, call, row);
      }
    }

    method ComputeSingleDefinition(data: Data, d: Definition, calls: seq<Call>)
      requires Valid() && Distinct(calls)
      modifies this
      ensures Valid() && SameElsewhere(old(table), table, IdsOf(calls), {d.id})
      ensures AllSettled(table, old(table), data, d, calls)
    {
      var ids := IdsOf(calls);
      var existing := ClaimRows(ids, d.id);
      ghost var was, claimed := old(table), table;
      for i := 0 to |calls|
        invariant Valid() && SameElsewhere(claimed, table, IdsOf(calls[..i]), {d.id})
        invariant AllSettled(table, was, data, d, calls[..i])
      {
        ghost var before := table;
        Upsert(data, d, calls[i], existing, was, claimed, IdsOf(calls[..i]));
        OneMoreSettled(was, claimed, before, table, data, d, calls, i);
      }
      assert calls[..|calls|] == calls;
      SameInTurn(was, claimed, table, ids, ids, {d.id}, {d.id});
      assert ids + ids == ids && {d.id} + {d.id} == {d.id};
    }

    method ComputeDefinitions(data: Data, catalogue: seq<Definition>, calls: seq<Call>)
      requires Valid() && Distinct(calls)
      requires forall i, j :: 0 <= i < j < |catalogue| ==> catalogue[i].id != catalogue[j].id
      modifies this
      ensures Valid() && ComputedFor(old(table), table, data, calls, catalogue)
    {
      ghost var was := table;
      var i := 0;
      while i != |catalogue|
        invariant i <= |catalogue| && Valid() && ComputedFor(was, table, data, calls, catalogue[..i])
        decreases |catalogue| - i
      {
        ghost var before := table;
        ComputeSingleDefinition(data, catalogue[i], calls);
        var next := i + 1;
        ComputedForNext(was, before, table, data, calls, catalogue, i, next);
        i := next;
      }
      assert catalogue[..|catalogue|] == catalogue;
    }

    /** `compute_all_metrics`; an empty `only` means every active call. */
    method ComputeAllMetrics(data: Data, catalogue: seq<Definition>, population: seq<Call>, only: set<nat>)
      requires Valid() && Distinct(population)
      requires forall i, j :: 0 <= i < j < |catalogue| ==> catalogue[i].id != catalogue[j].id
      modifies this
      ensures Valid()
      ensures forall d, call :: d in catalogue && call in population && !call.merged && (only == {} || call.id in only)
                ==> Settled(table, old(table), data, d, call)
      ensures forall id, call :: id in table && call in population && call.merged ==> table[id].call != call.id
      ensures SpareRows(old(table), table, catalogue, population, only)
    {
      ghost var was := table;
      var calls := Wanted(population, only);
      WantedAreDistinct(population, only);
      table := Purged(table, population);
      ghost var purged := table;
      ComputeDefinitions(data, catalogue, calls);
      MergedStayAway(purged, table, population, only, DefinitionIds(catalogue));
      SettledSincePurge(was, table, data, catalogue, population, only);
      OthersAreSpared(was, table, catalogue, population, only);
    }

    /** One turn of the loop: the row claimed for the call, or a new one, is written. */
    method Upsert(data: Data, d: Definition, call: Call, existing: map<nat, nat>,
                  ghost was: map<nat, Row>, ghost claimed: map<nat, Row>, ghost done: set<nat>)
      requires Valid() && call.id !in done && SameElsewhere(claimed, table, done, {d.id})
      requires exists ids :: call.id in ids && Claimed(was, claimed, existing, ids, d.id)
      modifies this
      ensures Valid() && SameElsewhere(old(table), table, {call.id}, {d.id}) && Settled(table, was, data, d, call)
    {
      var key, row := next, None;
      if call.id in existing {
        key := existing[call.id];
        SoleElsewhere(claimed, table, done, {d.id}, key, call.id, d.id);
        row := Some(table[key]);
      } else {
        AbsentElsewhere(claimed, table, done, {d.id}, call.id, d.id);
      }
      var written := ComputeRow(data, d, call, row);
      table := table[key := written];
      if key == next { next := next + 1; }
      assert Sole(table, key, call.id, d.id);
      assert CameFrom(was, call.id, d.id, if row.Some? then row.value.trace else NO_TRACE);
    }
  }

  lemma SameInTurn(s: map<nat, Row>, t: map<nat, Row>, u: map<nat, Row>, first: set<nat>, second: set<nat>,
                   ds: set<nat>, es: set<nat>)
    requires SameElsewhere(s, t, first, ds) && SameElsewhere(t, u, second, es)
    ensures SameElsewhere(s, u, first + second, ds + es)
  {
  }

  lemma OneMoreSettled(was: map<nat, Row>, claimed: map<nat, Row>, before: map<nat, Row>, now: map<nat, Row>,
                       data: Data, d: Definition, calls: seq<Call>, i: nat)
    requires Distinct(calls) && i < |calls|
    requires SameElsewhere(claimed, before, IdsOf(calls[..i]), {d.id}) && AllSettled(before, was, data, d, calls[..i])
    requires SameElsewhere(before, now, {calls[i].id}, {d.id}) && Settled(now, was, data, d, calls[i])
    ensures SameElsewhere(claimed, now, IdsOf(calls[..i + 1]), {d.id}) && AllSettled(now, was, data, d, calls[..i + 1])
  {
    assert calls[..i + 1] == calls[..i] + [calls[i]];
    AllSettledElsewhere(was, before, now, {calls[i].id}, {d.id}, data, d, calls[..i]);
    SameInTurn(claimed, before, now, IdsOf(calls[..i]), {calls[i].id}, {d.id}, {d.id});
    assert {d.id} + {d.id} == {d.id};
    assert IdsOf(calls[..i + 1]) == IdsOf(calls[..i]) + {calls[i].id};
  }

  lemma SoleElsewhere(s: map<nat, Row>, t: map<nat, Row>, ids: set<nat>, ds: set<nat>, id: nat, call: nat, d: nat)
    requires SameElsewhere(s, t, ids, ds) && Sole(s, id, call, d) && !(call in ids && d in ds)
    ensures Sole(t, id, call, d) && t[id] == s[id]
  {
  }

  lemma AbsentElsewhere(s: map<nat, Row>, t: map<nat, Row>, ids: set<nat>, ds: set<nat>, call: nat, d: nat)
    requires SameElsewhere(s, t, ids, ds) && Absent(s, call, d) && !(call in ids && d in ds)
    ensures Absent(t, call, d)
  {
  }

  lemma SettledElsewhere(was: map<nat, Row>, s: map<nat, Row>, t: map<nat, Row>, ids: set<nat>, ds: set<nat>,
                         data: Data, d: Definition, call: Call)
    requires SameElsewhere(s, t, ids, ds) && Settled(s, was, data, d, call) && !(call.id in ids && d.id in ds)
    ensures Settled(t, was, data, d, call)
  {
    var id, before :| Sole(s, id, call.id, d.id) && Written(s[id], data, d, call, before)
      && CameFrom(was, call.id, d.id, before);
    SoleElsewhere(s, t, ids, ds, id, call.id, d.id);
  }

  lemma AllSettledElsewhere(was: map<nat, Row>, s: map<nat, Row>, t: map<nat, Row>, ids: set<nat>, ds: set<nat>,
                            data: Data, d: Definition, calls: seq<Call>)
    requires SameElsewhere(s, t, ids, ds) && AllSettled(s, was, data, d, calls)
    requires d.id in ds ==> forall call :: call in calls ==> call.id !in ids
    ensures AllSettled(t, was, data, d, calls)
  {
    forall call | call in calls ensures Settled(t, was, data, d, call) {
      SettledElsewhere(was, s, t, ids, ds, data, d, call);
    }
  }

  lemma CameFromElsewhere(s: map<nat, Row>, t: map<nat, Row>, ids: set<nat>, ds: set<nat>, call: nat, d: nat,
                          before: Trace)
    requires SameElsewhere(s, t, ids, ds) && d !in ds && CameFrom(t, call, d, before)
    ensures CameFrom(s, call, d, before)
  {
    if !Absent(t, call, d) {
      var id :| id in t && At(t[id], call, d) && t[id].trace == before;
      assert id in s && s[id] == t[id];
    }
  }

  lemma SettledSince(s: map<nat, Row>, t: map<nat, Row>, u: map<nat, Row>, ids: set<nat>, ds: set<nat>,
                     data: Data, d: Definition, calls: seq<Call>)
    requires SameElsewhere(s, t, ids, ds) && d.id !in ds && AllSettled(u, t, data, d, calls)
    ensures AllSettled(u, s, data, d, calls)
  {
    forall call | call in calls ensures Settled(u, s, data, d, call) {
      var id, before :| Sole(u, id, call.id, d.id) && Written(u[id], data, d, call, before)
        && CameFrom(t, call.id, d.id, before);
      CameFromElsewhere(s, t, ids, ds, call.id, d.id, before);
    }
  }

  /** The definitions so far are settled, and nothing else has changed. */
  ghost predicate ComputedFor(purged: map<nat, Row>, table: map<nat, Row>, data: Data, calls: seq<Call>,
                              done: seq<Definition>) {
    && SameElsewhere(purged, table, IdsOf(calls), DefinitionIds(done))
    && forall d :: d in done ==> AllSettled(table, purged, data, d, calls)
  }

  lemma ComputedForOneMore(s: map<nat, Row>, t: map<nat, Row>, u: map<nat, Row>, data: Data, calls: seq<Call>,
                           done: seq<Definition>, next: Definition)
    requires ComputedFor(s, t, data, calls, done) && SameElsewhere(t, u, IdsOf(calls), {next.id})
    requires AllSettled(u, t, data, next, calls) && forall d :: d in done ==> d.id != next.id
    ensures ComputedFor(s, u, data, calls, done + [next])
  {
    SettledInTurn(s, t, u, data, calls, done, next);
    SameInTurn(s, t, u, IdsOf(calls), IdsOf(calls), DefinitionIds(done), {next.id});
    assert IdsOf(calls) + IdsOf(calls) == IdsOf(calls);
    assert DefinitionIds(done + [next]) == DefinitionIds(done) + {next.id};
  }

  lemma ComputedForNext(s: map<nat, Row>, t: map<nat, Row>, u: map<nat, Row>, data: Data, calls: seq<Call>,
                        catalogue: seq<Definition>, i: nat, next: nat)
    requires i < |catalogue| && next == i + 1
    requires forall j, k :: 0 <= j < k < |catalogue| ==> catalogue[j].id != catalogue[k].id
    requires ComputedFor(s, t, data, calls, catalogue[..i]) && SameElsewhere(t, u, IdsOf(calls), {catalogue[i].id})
    requires AllSettled(u, t, data, catalogue[i], calls)
    ensures ComputedFor(s, u, data, calls, catalogue[..next])
  {
    assert catalogue[..next] == catalogue[..i] + [catalogue[i]];
    ComputedForOneMore(s, t, u, data, calls, catalogue[..i], catalogue[i]);
  }

  lemma SettledInTurn(s: map<nat, Row>, t: map<nat, Row>, u: map<nat, Row>, data: Data, calls: seq<Call>,
                      done: seq<Definition>, next: Definition)
    requires SameElsewhere(s, t, IdsOf(calls), DefinitionIds(done)) && SameElsewhere(t, u, IdsOf(calls), {next.id})
    requires (forall d :: d in done ==> AllSettled(t, s, data, d, calls)) && AllSettled(u, t, data, next, calls)
    requires forall d :: d in done ==> d.id != next.id
    ensures forall d :: d in done + [next] ==> AllSettled(u, s, data, d, calls)
  {
    SettledSince(s, t, u, IdsOf(calls), DefinitionIds(done), data, next, calls);
    forall d | d in done ensures AllSettled(u, s, data, d, calls) {
      AllSettledElsewhere(s, t, u, IdsOf(calls), {next.id}, data, d, calls);
    }
  }

  lemma MergedStayAway(purged: map<nat, Row>, table: map<nat, Row>, population: seq<Call>, only: set<nat>, ds: set<nat>)
    requires Distinct(population) && SameElsewhere(purged, table, IdsOf(Wanted(population, only)), ds)
    requires forall id, call :: id in purged && call in population && call.merged ==> purged[id].call != call.id
    ensures forall id, call :: id in table && call in population && call.merged ==> table[id].call != call.id
  {
    forall id, call | id in table && call in population && call.merged ensures table[id].call != call.id {
      if Covered(table[id], IdsOf(Wanted(population, only)), ds) {
        var other :| other in Wanted(population, only) && other.id == table[id].call;
        assert other in population && !other.merged;
      }
    }
  }

  lemma SettledSincePurge(was: map<nat, Row>, now: map<nat, Row>, data: Data, catalogue: seq<Definition>,
                          population: seq<Call>, only: set<nat>)
    requires Distinct(population)
    requires ComputedFor(Purged(was, population), now, data, Wanted(population, only), catalogue)
    ensures forall d, call :: d in catalogue && call in population && !call.merged && (only == {} || call.id in only)
              ==> Settled(now, was, data, d, call)
  {
    forall d, call | d in catalogue && call in population && !call.merged && (only == {} || call.id in only)
      ensures Settled(now, was, data, d, call)
    {
      assert call in Wanted(population, only);
      assert AllSettled(now, Purged(was, population), data, d, Wanted(population, only));
      var id, before :| Sole(now, id, call.id, d.id) && Written(now[id], data, d, call, before)
        && CameFrom(Purged(was, population), call.id, d.id, before);
      CameFromBeforePurge(was, population, call, d.id, before);
    }
  }

  lemma CameFromBeforePurge(was: map<nat, Row>, population: seq<Call>, call: Call, d: nat, before: Trace)
    requires Distinct(population) && call in population && !call.merged
    requires CameFrom(Purged(was, population), call.id, d, before)
    ensures CameFrom(was, call.id, d, before)
  {
    var purged := Purged(was, population);
    assert forall other :: other in population && other.merged ==> other.id != call.id;
    assert forall id :: id in was && was[id].call == call.id ==> id in purged && purged[id] == was[id];
  }

  lemma OthersAreSpared(was: map<nat, Row>, now: map<nat, Row>, catalogue: seq<Definition>, population: seq<Call>,
                        only: set<nat>)
    requires SameElsewhere(Purged(was, population), now, IdsOf(Wanted(population, only)), DefinitionIds(catalogue))
    ensures SpareRows(was, now, catalogue, population, only)
  {
    var ids, ds := IdsOf(Wanted(population, only)), DefinitionIds(catalogue);
    forall row: Row | Covered(row, ids, ds) ensures Concerned(row, catalogue, population, only) {
      var call :| call in Wanted(population, only) && call.id == row.call;
      var d :| d in catalogue && d.id == row.definition;
    }
  }

  /** In a settled table, the row of a call and a definition says what the data say, and keeps of an earlier trace no
      more than was there. */
  lemma SettledFinds(table: map<nat, Row>, was: map<nat, Row>, data: Data, d: Definition, call: Call, id: nat)
    requires Settled(table, was, data, d, call) && Sole(table, id, call.id, d.id)
    ensures exists before :: Finds(table[id], data, d, call, before) && CameFrom(was, call.id, d.id, before)
  {
    var before :| Written(table[id], data, d, call, before) && CameFrom(was, call.id, d.id, before);
    WrittenFinds(table[id], data, d, call, before);
  }

  /** Whatever two tables held before, computing the metrics leaves the same findings in both; where both events
      were found it leaves the same row. */
  lemma HistoryIsForgotten(was: map<nat, Row>, s: map<nat, Row>, other: map<nat, Row>, t: map<nat, Row>,
                           data: Data, d: Definition, call: Call, i: nat, j: nat)
    requires Settled(s, was, data, d, call) && Settled(t, other, data, d, call)
    requires Sole(s, i, call.id, d.id) && Sole(t, j, call.id, d.id)
    ensures s[i].outcome == t[j].outcome && s[i].vcn == t[j].vcn && s[i].version == t[j].version
    ensures !d.noSourceData && !d.executionDelay && s[i].outcome.status == AVAILABLE ==> s[i] == t[j]
  {
    var before :| Written(s[i], data, d, call, before);
    var earlier :| Written(t[j], data, d, call, earlier);
    TraceForgetsIff(data, d, call);
  }

  /** Computing again from what the first computation left changes no row. */
  lemma SecondComputationChangesNothing(was: map<nat, Row>, s: map<nat, Row>, t: map<nat, Row>,
                                        data: Data, d: Definition, call: Call, i: nat, j: nat)
    requires Settled(s, was, data, d, call) && Settled(t, s, data, d, call)
    requires Sole(s, i, call.id, d.id) && Sole(t, j, call.id, d.id)
    ensures s[i] == t[j]
  {
    var before :| Written(s[i], data, d, call, before);
    var k, kept :| Sole(t, k, call.id, d.id) && Written(t[k], data, d, call, kept) && CameFrom(s, call.id, d.id, kept);
    assert k == j && kept == s[i].trace;
    TraceIsIdempotent(data, d, call, before);
  }

  lemma TraceIsIdempotent(data: Data, d: Definition, call: Call, before: Trace)
    ensures TraceOf(data, d, call, TraceOf(data, d, call, before)) == TraceOf(data, d, call, before)
  {
  }
}
