/** Any run of evaluations, acknowledgements and resolutions. */
module AlertRuns {
  import opened Alerts

  datatype Step = Evaluation(active: set<string>, sections: seq<Section>) | Acknowledgement(id: nat)
                | Resolution(id: nat)

  function Apply(alerts: seq<Alert>, step: Step): seq<Alert> {
    match step
    case Evaluation(active, sections) => Evaluate(alerts, active, sections)
    case Acknowledgement(id) => if id < |alerts| then Acknowledged(alerts, id) else alerts
    case Resolution(id) => if id < |alerts| then Closed(alerts, id) else alerts
  }

  function Run(alerts: seq<Alert>, steps: seq<Step>): seq<Alert>
    decreases |steps|
  {
    if steps == [] then alerts else Run(Apply(alerts, steps[0]), steps[1..])
  }

  /** Operators acknowledge what is still open: the life of an alert runs from NEW over ACKNOWLEDGED to RESOLVED. */
  predicate Orderly(alerts: seq<Alert>, step: Step) {
    step.Acknowledgement? && step.id < |alerts| ==> IsOpen(alerts[step.id])
  }

  predicate OrderlyRun(alerts: seq<Alert>, steps: seq<Step>)
    decreases |steps|
  {
    steps == [] || (Orderly(alerts, steps[0]) && OrderlyRun(Apply(alerts, steps[0]), steps[1..]))
  }

  /** Alerts stay where they are with what they say, and one that is resolved stays resolved. */
  ghost predicate Grows(alerts: seq<Alert>, later: seq<Alert>) {
    && |alerts| <= |later|
    && forall k :: 0 <= k < |alerts| ==>
      later[k].(status := alerts[k].status) == alerts[k] && (IsOpen(later[k]) ==> IsOpen(alerts[k]))
  }

  // ---- Evaluation ----

  lemma HoldsOwnKey(alerts: seq<Alert>, k: nat)
    requires k < |alerts| && IsOpen(alerts[k])
    ensures HasOpen(alerts, alerts[k].key)
  {
    assert OpenAt(alerts, k, alerts[k].key);
  }

  lemma RaiseKeeps(alerts: seq<Alert>, rule: string, f: Finding)
    ensures Deduplicated(alerts) ==> Deduplicated(Raise(alerts, rule, f))
    ensures alerts <= Raise(alerts, rule, f)
    ensures HasOpen(Raise(alerts, rule, f), KeyOf(rule, f))
  {
    var key := KeyOf(rule, f);
    if !HasOpen(alerts, key) {
      AppendedIsOpen(alerts, Alert(key, NEW, f.title));
      if Deduplicated(alerts) {
        forall j | 0 <= j < |alerts| && IsOpen(alerts[j]) ensures alerts[j].key != key { HoldsOwnKey(alerts, j); }
      }
    }
  }

  lemma OpenStays(alerts: seq<Alert>, later: seq<Alert>, key: Key)
    requires alerts <= later && HasOpen(alerts, key)
    ensures HasOpen(later, key)
  {
    var k :| 0 <= k < |alerts| && OpenAt(alerts, k, key);
    assert OpenAt(later, k, key);
  }

  ghost predicate EachOpen(alerts: seq<Alert>, rule: string, findings: seq<Finding>) {
    forall f :: f in findings ==> HasOpen(alerts, KeyOf(rule, f))
  }

  lemma {:induction false} RaiseEachKeeps(alerts: seq<Alert>, rule: string, findings: seq<Finding>)
    ensures Deduplicated(alerts) ==> Deduplicated(RaiseEach(alerts, rule, findings))
    ensures alerts <= RaiseEach(alerts, rule, findings)
    ensures EachOpen(RaiseEach(alerts, rule, findings), rule, findings)
    decreases |findings|
  {
    if findings != [] {
      var n := |findings| - 1;
      var before, after := RaiseEach(alerts, rule, findings[..n]), RaiseEach(alerts, rule, findings);
      RaiseEachKeeps(alerts, rule, findings[..n]);
      RaiseKeeps(before, rule, findings[n]);
      forall f | f in findings ensures HasOpen(after, KeyOf(rule, f)) {
        if f != findings[n] {
          assert f in findings[..n];
          OpenStays(before, after, KeyOf(rule, f));
        }
      }
    }
  }

  ghost predicate AllOpen(alerts: seq<Alert>, active: set<string>, sections: seq<Section>) {
    forall s :: s in sections && s.rule in active ==> EachOpen(alerts, s.rule, s.findings)
  }

  /** An evaluation adds no duplicate, removes and changes nothing, and leaves an open alert for every finding of
      every active rule. */
  lemma {:induction false} EvaluateKeeps(alerts: seq<Alert>, active: set<string>, sections: seq<Section>)
    ensures Deduplicated(alerts) ==> Deduplicated(Evaluate(alerts, active, sections))
    ensures alerts <= Evaluate(alerts, active, sections)
    ensures AllOpen(Evaluate(alerts, active, sections), active, sections)
    decreases |sections|
  {
    if sections != [] {
      var last := |sections| - 1;
      var before, after := Evaluate(alerts, active, sections[..last]), Evaluate(alerts, active, sections);
      EvaluateKeeps(alerts, active, sections[..last]);
      RaiseEachKeeps(before, sections[last].rule, sections[last].findings);
      forall s, f | s in sections && s.rule in active && f in s.findings ensures HasOpen(after, KeyOf(s.rule, f)) {
        if s in sections[..last] { OpenStays(before, after, KeyOf(s.rule, f)); }
      }
    }
  }

  // ---- What an evaluation adds, alert by alert

  ghost predicate Concerns(a: Alert, rule: string, f: Finding) {
    a.key.rule == rule && a.key.entityType == f.entityType && a.key.entityId == f.entityId
  }

  /** A finding of an active rule. */
  ghost predicate Finds(active: set<string>, sections: seq<Section>, rule: string, f: Finding) {
    rule in active && exists s :: s in sections && s.rule == rule && f in s.findings
  }

  /** A new alert that says what a rule found. */
  ghost predicate Reports(a: Alert, active: set<string>, sections: seq<Section>) {
    a.status == NEW && exists rule, f :: Finds(active, sections, rule, f) && Concerns(a, rule, f) && a.title == f.title
  }

  /** An earlier alert of the same rule and entity is not resolved. */
  ghost predicate Repeats(alerts: seq<Alert>, k: nat)
    requires k < |alerts|
  {
    exists j :: 0 <= j < k && alerts[j].key == alerts[k].key && alerts[j].status in {NEW, ACKNOWLEDGED}
  }

  ghost predicate AddsReports(was: seq<Alert>, now: seq<Alert>, active: set<string>, sections: seq<Section>) {
    && was <= now
    && forall k :: |was| <= k < |now| ==> Reports(now[k], active, sections) && !Repeats(now, k)
  }

  ghost predicate Answered(alerts: seq<Alert>, rule: string, f: Finding) {
    exists k :: 0 <= k < |alerts| && Concerns(alerts[k], rule, f) && alerts[k].status in {NEW, ACKNOWLEDGED}
  }

  lemma RaiseAddsReports(was: seq<Alert>, before: seq<Alert>, active: set<string>, sections: seq<Section>,
                         rule: string, f: Finding)
    requires AddsReports(was, before, active, sections) && Finds(active, sections, rule, f)
    ensures AddsReports(was, Raise(before, rule, f), active, sections)
  {
    var now, n := Raise(before, rule, f), |before|;
    forall k | |was| <= k < |now| ensures Reports(now[k], active, sections) && !Repeats(now, k) {
      if k < n {
        assert Reports(before[k], active, sections) && !Repeats(before, k);
      } else {
        assert Concerns(now[n], rule, f);
        forall j: nat | j < n && now[j].key == now[n].key ensures now[j].status == RESOLVED {
          var open := OpenAt(before, j, KeyOf(rule, f));
        }
      }
    }
  }

  lemma {:induction false} RaiseEachAddsReports(was: seq<Alert>, before: seq<Alert>, active: set<string>,
                                                sections: seq<Section>, rule: string, findings: seq<Finding>)
    requires AddsReports(was, before, active, sections)
    requires forall f :: f in findings ==> Finds(active, sections, rule, f)
    ensures AddsReports(was, RaiseEach(before, rule, findings), active, sections)
    decreases |findings|
  {
    if findings != [] {
      var n := |findings| - 1;
      RaiseEachAddsReports(was, before, active, sections, rule, findings[..n]);
      RaiseAddsReports(was, RaiseEach(before, rule, findings[..n]), active, sections, rule, findings[n]);
    }
  }

  lemma {:induction false} EvaluateAddsReports(alerts: seq<Alert>, active: set<string>, sections: seq<Section>,
                                               done: seq<Section>)
    requires done <= sections
    ensures AddsReports(alerts, Evaluate(alerts, active, done), active, sections)
    decreases |done|
  {
    if done != [] {
      var last := |done| - 1;
      EvaluateAddsReports(alerts, active, sections, done[..last]);
      if done[last].rule in active {
        assert done[last] in sections;
        RaiseEachAddsReports(alerts, Evaluate(alerts, active, done[..last]), active, sections, done[last].rule,
                             done[last].findings);
      }
    }
  }

  /** Every alert that an evaluation adds is new and reports a finding of an active rule that had no unresolved alert;
      afterwards each such finding has one. */
  lemma EvaluateReports(alerts: seq<Alert>, active: set<string>, sections: seq<Section>)
    ensures AddsReports(alerts, Evaluate(alerts, active, sections), active, sections)
    ensures forall rule, f :: Finds(active, sections, rule, f) ==> Answered(Evaluate(alerts, active, sections), rule, f)
  {
    var now := Evaluate(alerts, active, sections);
    EvaluateAddsReports(alerts, active, sections, sections);
    EvaluateKeeps(alerts, active, sections);
    forall rule, f | Finds(active, sections, rule, f) ensures Answered(now, rule, f) {
      var s :| s in sections && s.rule == rule && f in s.findings;
      assert EachOpen(now, s.rule, s.findings);
      var k :| 0 <= k < |now| && OpenAt(now, k, KeyOf(rule, f));
      assert Concerns(now[k], rule, f);
    }
  }

  lemma {:induction false} NothingToRaise(alerts: seq<Alert>, rule: string, findings: seq<Finding>)
    requires EachOpen(alerts, rule, findings)
    ensures RaiseEach(alerts, rule, findings) == alerts
    decreases |findings|
  {
    if findings != [] { NothingToRaise(alerts, rule, findings[..|findings| - 1]); }
  }

  lemma {:induction false} NothingToEvaluate(alerts: seq<Alert>, active: set<string>, sections: seq<Section>)
    requires AllOpen(alerts, active, sections)
    ensures Evaluate(alerts, active, sections) == alerts
    decreases |sections|
  {
    if sections != [] {
      var last := |sections| - 1;
      NothingToEvaluate(alerts, active, sections[..last]);
      assert sections[last] in sections;
      if sections[last].rule in active { NothingToRaise(alerts, sections[last].rule, sections[last].findings); }
    }
  }

  /** A second evaluation over the same findings adds nothing, even after alerts have been acknowledged in between. */
  lemma SecondEvaluationAddsNothing(alerts: seq<Alert>, active: set<string>, sections: seq<Section>, ids: seq<nat>)
    ensures var once := AcknowledgeAll(Evaluate(alerts, active, sections), ids);
            Evaluate(once, active, sections) == once
  {
    var first := Evaluate(alerts, active, sections);
    var once := AcknowledgeAll(first, ids);
    EvaluateKeeps(alerts, active, sections);
    AcknowledgingKeepsOpen(first, ids);
    forall s, f | s in sections && s.rule in active && f in s.findings ensures HasOpen(once, KeyOf(s.rule, f)) {
      assert EachOpen(first, s.rule, s.findings);
    }
    NothingToEvaluate(once, active, sections);
  }

  function AcknowledgeAll(alerts: seq<Alert>, ids: seq<nat>): seq<Alert>
    decreases |ids|
  {
    if ids == [] then alerts
    else AcknowledgeAll(if ids[0] < |alerts| then Acknowledged(alerts, ids[0]) else alerts, ids[1..])
  }

  lemma {:induction false} AcknowledgingKeepsOpen(alerts: seq<Alert>, ids: seq<nat>)
    ensures forall key :: HasOpen(alerts, key) ==> HasOpen(AcknowledgeAll(alerts, ids), key)
    decreases |ids|
  {
    if ids != [] {
      var next := if ids[0] < |alerts| then Acknowledged(alerts, ids[0]) else alerts;
      forall key | HasOpen(alerts, key) ensures HasOpen(next, key) {
        var k :| 0 <= k < |alerts| && OpenAt(alerts, k, key);
        assert OpenAt(next, k, key);
      }
      AcknowledgingKeepsOpen(next, ids[1..]);
    }
  }

  // ---- Operators ----

  /** Acknowledging keeps alerts free of duplicates exactly when the alert was still open or nothing has been raised
      in its place since; the code acknowledges a resolved alert without a question, and that opens it again. */
  lemma AcknowledgeKeepsIff(alerts: seq<Alert>, id: nat)
    requires Deduplicated(alerts) && id < |alerts|
    ensures Deduplicated(Acknowledged(alerts, id)) <==> IsOpen(alerts[id]) || !HasOpen(alerts, alerts[id].key)
  {
    var after := Acknowledged(alerts, id);
    var key := alerts[id].key;
    if !IsOpen(alerts[id]) {
      if HasOpen(alerts, key) {
        var k :| 0 <= k < |alerts| && OpenAt(alerts, k, key);
        assert IsOpen(after[k]) && IsOpen(after[id]) && after[k].key == after[id].key;
      } else {
        forall k | 0 <= k < |alerts| && k != id && IsOpen(after[k]) ensures after[k].key != key {
          HoldsOwnKey(alerts, k);
        }
      }
    }
  }

  /** Such a state is reached: an alert is resolved, raised again by the next evaluation, and then acknowledged. */
  lemma AcknowledgeCanDuplicate(rule: string, f: Finding)
    ensures var evaluation := Evaluation({rule}, [Section(rule, [f])]);
            !Deduplicated(Run([], [evaluation, Resolution(0), evaluation, Acknowledgement(0)]))
  {
    var evaluation, key := Evaluation({rule}, [Section(rule, [f])]), KeyOf(rule, f);
    var first, again := [Alert(key, NEW, f.title)], [Alert(key, RESOLVED, f.title), Alert(key, NEW, f.title)];
    OneFinding([], rule, f);
    OneFinding([Alert(key, RESOLVED, f.title)], rule, f);
    var last := [Acknowledgement(0)];
    assert last == [Acknowledgement(0)] + [];
    assert [evaluation] + last == [evaluation, Acknowledgement(0)];
    assert [Resolution(0)] + [evaluation, Acknowledgement(0)] == [Resolution(0), evaluation, Acknowledgement(0)];
    assert [evaluation] + [Resolution(0), evaluation, Acknowledgement(0)]
        == [evaluation, Resolution(0), evaluation, Acknowledgement(0)];
    RunStarts([], evaluation, [Resolution(0), evaluation, Acknowledgement(0)]);
    assert [] + first == first && Closed(first, 0) == [Alert(key, RESOLVED, f.title)];
    assert [Alert(key, RESOLVED, f.title)] + [Alert(key, NEW, f.title)] == again;
    RunStarts(first, Resolution(0), [evaluation, Acknowledgement(0)]);
    RunStarts(Closed(first, 0), evaluation, [Acknowledgement(0)]);
    RunStarts(again, Acknowledgement(0), []);
    var after := Acknowledged(again, 0);
    assert Run([], [evaluation, Resolution(0), evaluation, Acknowledgement(0)]) == after;
    assert IsOpen(after[0]) && IsOpen(after[1]) && after[0].key == after[1].key;
  }

  lemma RunStarts(alerts: seq<Alert>, step: Step, rest: seq<Step>)
    ensures Run(alerts, [step] + rest) == Run(Apply(alerts, step), rest)
  {
    assert ([step] + rest)[1..] == rest;
  }

  /** An evaluation with one finding, where no alert is open. */
  lemma OneFinding(alerts: seq<Alert>, rule: string, f: Finding)
    requires forall a :: a in alerts ==> !IsOpen(a)
    ensures Evaluate(alerts, {rule}, [Section(rule, [f])]) == alerts + [Alert(KeyOf(rule, f), NEW, f.title)]
  {
    var section := Section(rule, [f]);
    assert [section][..0] == [] && [f][..0] == [];
    assert RaiseEach(alerts, rule, [f]) == Raise(alerts, rule, f);
    assert Evaluate(alerts, {rule}, [section]) == RaiseEach(alerts, rule, [f]);
  }

  lemma StepKeeps(alerts: seq<Alert>, step: Step)
    requires Deduplicated(alerts) && Orderly(alerts, step)
    ensures Deduplicated(Apply(alerts, step)) && Grows(alerts, Apply(alerts, step))
  {
    match step
    case Evaluation(active, sections) => EvaluateKeeps(alerts, active, sections);
    case Acknowledgement(id) => if id < |alerts| { AcknowledgeKeepsIff(alerts, id); }
    case Resolution(_) =>
  }

  /** Over any orderly run at most one alert is ever open for a rule and an entity, and no alert is lost, rewritten
      or reopened. */
  lemma {:induction false} RunKeeps(alerts: seq<Alert>, steps: seq<Step>)
    requires Deduplicated(alerts) && OrderlyRun(alerts, steps)
    ensures Deduplicated(Run(alerts, steps)) && Grows(alerts, Run(alerts, steps))
    decreases |steps|
  {
    if steps != [] {
      StepKeeps(alerts, steps[0]);
      RunKeeps(Apply(alerts, steps[0]), steps[1..]);
    }
  }

  /** While there are no duplicates the index and the table give the same answer to every look-up. */
  lemma IndexAnswersAsTheTable(index: map<Key, nat>, alerts: seq<Alert>, key: Key)
    requires Agrees(index, alerts) && Deduplicated(alerts)
    ensures Query(alerts, key) == if key in index then Single(index[key]) else Missing
  {
    if key in index {
      assert OpenAt(alerts, index[key], key);
    }
  }
}
