/** Operational alerts: rules raise them without duplicates, operators acknowledge and resolve them. */
module Alerts {
  import opened Wrappers

  datatype Status = NEW | ACKNOWLEDGED | RESOLVED

  datatype Key = Key(rule: string, entityType: string, entityId: string)

  datatype Alert = Alert(key: Key, status: Status, title: string)

  /** What one rule finds in the data: the entities concerned, and what to say of each. */
  datatype Finding = Finding(entityType: string, entityId: string, title: string)

  datatype Section = Section(rule: string, findings: seq<Finding>)

  predicate IsOpen(a: Alert) { a.status != RESOLVED }

  predicate OpenAt(alerts: seq<Alert>, k: nat, key: Key) { k < |alerts| && alerts[k].key == key && IsOpen(alerts[k]) }

  predicate HasOpen(alerts: seq<Alert>, key: Key) { exists k :: 0 <= k < |alerts| && OpenAt(alerts, k, key) }

  /** At most one open alert for a rule and an entity. */
  ghost predicate Deduplicated(alerts: seq<Alert>) {
    forall j, k :: 0 <= j < k < |alerts| && IsOpen(alerts[j]) && IsOpen(alerts[k]) ==> alerts[j].key != alerts[k].key
  }

  // ---- What an evaluation adds, by asking the table each time ----

  function KeyOf(rule: string, f: Finding): Key { Key(rule, f.entityType, f.entityId) }

  function Raise(alerts: seq<Alert>, rule: string, f: Finding): seq<Alert> {
    if HasOpen(alerts, KeyOf(rule, f)) then alerts else alerts + [Alert(KeyOf(rule, f), NEW, f.title)]
  }

  function RaiseEach(alerts: seq<Alert>, rule: string, findings: seq<Finding>): seq<Alert>
    decreases |findings|
  {
    if findings == [] then alerts
    else Raise(RaiseEach(alerts, rule, findings[..|findings| - 1]), rule, findings[|findings| - 1])
  }

  function Evaluate(alerts: seq<Alert>, active: set<string>, sections: seq<Section>): seq<Alert>
    decreases |sections|
  {
    if sections == [] then alerts
    else
      var last := |sections| - 1;
      var before := Evaluate(alerts, active, sections[..last]);
      if sections[last].rule in active then RaiseEach(before, sections[last].rule, sections[last].findings) else before
  }

  // ---- The engine, with its index of open alerts ----

  ghost predicate Agrees(index: map<Key, nat>, alerts: seq<Alert>) {
    && (forall key :: HasOpen(alerts, key) <==> key in index)
    && (forall key :: key in index ==> OpenAt(alerts, index[key], key))
  }

  datatype Scalar = Missing | Single(id: nat) | Several

  /** `scalar_one_or_none` over the open alerts of a key. */
  function Query(alerts: seq<Alert>, key: Key): (r: Scalar)
    ensures r.Missing? <==> !HasOpen(alerts, key)
    ensures r.Single? ==>
              OpenAt(alerts, r.id, key) && forall k :: 0 <= k < |alerts| && k != r.id ==> !OpenAt(alerts, k, key)
    ensures r.Several? ==> exists j, k :: 0 <= j < k < |alerts| && OpenAt(alerts, j, key) && OpenAt(alerts, k, key)
  {
    if alerts == [] then Missing
    else
      var n := |alerts| - 1;
      var r := Query(alerts[..n], key);
      assert forall k :: 0 <= k < n ==> (OpenAt(alerts[..n], k, key) <==> OpenAt(alerts, k, key));
      if !OpenAt(alerts, n, key) then r else if r.Missing? then Single(n) else Several
  }

  class AlertEngine {
    var alerts: seq<Alert>
    var open: Option<map<Key, nat>>

    method IndexOpenAlerts() returns (index: map<Key, nat>)
      ensures Agrees(index, alerts)
    {
      index := map[];
      for i := 0 to |alerts|
        invariant Agrees(index, alerts[..i])
      {
        OpenSoFar(alerts, i);
        if alerts[i].status == NEW || alerts[i].status == ACKNOWLEDGED {
          index := index[alerts[i].key := i];
          assert OpenAt(alerts[..i + 1], i, alerts[i].key);
        }
        assert forall key :: key in index && index[key] < i ==> OpenAt(alerts[..i], index[key], key);
      }
      assert alerts[..|alerts|] == alerts;
    }

    /** Without an index the table is asked, and more than one answer is an error. */
    method CreateOrGetAlert(rule: string, f: Finding) returns (r: Result<nat>)
      requires open.Some? ==> Agrees(open.value, alerts)
      modifies this
      ensures open.Some? <==> old(open).Some?
      ensures open.Some? ==> Agrees(open.value, alerts) && r.Ok?
      ensures r.Ok? ==> alerts == Raise(old(alerts), rule, f) && OpenAt(alerts, r.value, KeyOf(rule, f))
      ensures r.Err? ==> alerts == old(alerts) && Query(alerts, KeyOf(rule, f)).Several?
      ensures Query(old(alerts), KeyOf(rule, f)).Single? ==> r == Ok(Query(old(alerts), KeyOf(rule, f)).id)
    {
      var key := KeyOf(rule, f);
      if open.Some? {
        if key in open.value { return Ok(open.value[key]); }
      } else {
        var found := Query(alerts, key);
        if found.Several? { return Err("multiple rows found"); }
        if found.Single? { return Ok(found.id); }
      }
      var id := |alerts|;
      AppendedIsOpen(alerts, Alert(key, NEW, f.title));
      alerts := alerts + [Alert(key, NEW, f.title)];
      if open.Some? { open := Some(open.value[key := id]); }
      return Ok(id);
    }

    method EvaluateRules(active: set<string>, sections: seq<Section>)
      modifies this
      ensures alerts == Evaluate(old(alerts), active, sections)
      ensures open.Some? && Agrees(open.value, alerts)
    {
      var index := IndexOpenAlerts();
      open := Some(index);
      for i := 0 to |sections|
        invariant open.Some? && Agrees(open.value, alerts)
        invariant alerts == Evaluate(old(alerts), active, sections[..i])
      {
        assert sections[..i + 1][..i] == sections[..i];
        if sections[i].rule in active { EvaluateSection(sections[i]); }
      }
      assert sections[..|sections|] == sections;
    }

    method EvaluateSection(section: Section)
      requires open.Some? && Agrees(open.value, alerts)
      modifies this
      ensures open.Some? && Agrees(open.value, alerts)
      ensures alerts == RaiseEach(old(alerts), section.rule, section.findings)
    {
      var findings := section.findings;
      for i := 0 to |findings|
        invariant open.Some? && Agrees(open.value, alerts)
        invariant alerts == RaiseEach(old(alerts), section.rule, findings[..i])
      {
        assert findings[..i + 1][..i] == findings[..i];
        var _ := CreateOrGetAlert(section.rule, findings[i]);
      }
      assert findings[..|findings|] == findings;
    }

    method AcknowledgeAlert(id: nat) returns (r: Result<()>)
      modifies this`alerts
      ensures r.Ok? <==> id < |old(alerts)|
      ensures alerts == if r.Ok? then old(alerts)[id := old(alerts)[id].(status := ACKNOWLEDGED)] else old(alerts)
    {
      if id >= |alerts| { return Err("alert not found"); }
      alerts := Acknowledged(alerts, id);
      return Ok(());
    }

    method ResolveAlert(id: nat) returns (r: Result<()>)
      modifies this`alerts
      ensures r.Ok? <==> id < |old(alerts)|
      ensures alerts == if r.Ok? then old(alerts)[id := old(alerts)[id].(status := RESOLVED)] else old(alerts)
    {
      if id >= |alerts| { return Err("alert not found"); }
      alerts := Closed(alerts, id);
      return Ok(());
    }
  }

  function Acknowledged(alerts: seq<Alert>, id: nat): seq<Alert>
    requires id < |alerts|
  {
    alerts[id := alerts[id].(status := ACKNOWLEDGED)]
  }

  function Closed(alerts: seq<Alert>, id: nat): seq<Alert>
    requires id < |alerts|
  {
    alerts[id := alerts[id].(status := RESOLVED)]
  }

  lemma OpenSoFar(alerts: seq<Alert>, i: nat)
    requires i < |alerts|
    ensures forall key, k: nat :: OpenAt(alerts[..i + 1], k, key)
              <==> OpenAt(alerts[..i], k, key) || (k == i && OpenAt(alerts, i, key))
    ensures forall key :: HasOpen(alerts[..i + 1], key) <==> HasOpen(alerts[..i], key) || OpenAt(alerts, i, key)
  {
    forall key ensures HasOpen(alerts[..i + 1], key) <==> HasOpen(alerts[..i], key) || OpenAt(alerts, i, key) {
      if HasOpen(alerts[..i], key) {
        var k :| 0 <= k < i && OpenAt(alerts[..i], k, key);
        assert OpenAt(alerts[..i + 1], k, key);
      }
      if OpenAt(alerts, i, key) { assert OpenAt(alerts[..i + 1], i, key); }
      if HasOpen(alerts[..i + 1], key) {
        var k :| 0 <= k < i + 1 && OpenAt(alerts[..i + 1], k, key);
        assert k < i ==> OpenAt(alerts[..i], k, key);
      }
    }
  }

  lemma AppendedIsOpen(alerts: seq<Alert>, a: Alert)
    requires IsOpen(a)
    ensures forall key :: HasOpen(alerts + [a], key) <==> HasOpen(alerts, key) || key == a.key
    ensures forall key, k: nat :: OpenAt(alerts, k, key) ==> OpenAt(alerts + [a], k, key)
    ensures OpenAt(alerts + [a], |alerts|, a.key)
  {
    forall key ensures HasOpen(alerts + [a], key) <==> HasOpen(alerts, key) || key == a.key {
      if HasOpen(alerts, key) {
        var k :| 0 <= k < |alerts| && OpenAt(alerts, k, key);
        assert OpenAt(alerts + [a], k, key);
      }
      if key == a.key { assert OpenAt(alerts + [a], |alerts|, key); }
      if HasOpen(alerts + [a], key) && key != a.key {
        var k :| 0 <= k < |alerts + [a]| && OpenAt(alerts + [a], k, key);
        assert OpenAt(alerts, k, key);
      }
    }
  }
}
