/** Any run of allocations, reviews and inferences on one delay. */
module AllocationRuns {
  import opened Wrappers
  import opened Text
  import opened Allocations

  /** No causes yet, or exactly one primary among them; and no more hours given out than the total and a hundredth. */
  ghost predicate OnePrimary(causes: seq<Allocation>) { exists k :: 0 <= k < |causes| && OnlyAt(causes, IsPrimary, k) }

  predicate Covered(d: Delay) { Allocated(d.causes) <= d.header.total + 100 }

  ghost predicate Fine(d: Delay) {
    d.header.total >= 0 && (d.causes == [] || OnePrimary(d.causes)) && Covered(d)
  }

  /** The hours reported as allocated and unallocated together make the total, up to a hundredth of an hour. */
  lemma HoursAreConserved(d: Delay)
    requires Fine(d)
    ensures d.header.total <= Allocated(d.causes) + Unallocated(d) <= d.header.total + 100
    ensures Allocated(d.causes) <= d.header.total ==> Allocated(d.causes) + Unallocated(d) == d.header.total
  {
  }

  // ---- Sums ----

  lemma {:induction false} AllocatedByHours(s: seq<Allocation>, t: seq<Allocation>)
    requires |s| == |t| && forall k :: 0 <= k < |s| ==> s[k].hours == t[k].hours
    ensures Allocated(s) == Allocated(t)
  {
    if s != [] {
      var n := |s| - 1;
      assert forall k :: 0 <= k < n ==> s[..n][k].hours == t[..n][k].hours;
      AllocatedByHours(s[..n], t[..n]);
    }
  }

  lemma AllocatedAppend(s: seq<Allocation>, a: Allocation)
    ensures Allocated(s + [a]) == Allocated(s) + a.hours
  {
    assert (s + [a])[..|s|] == s;
  }

  // ---- Each operation ----

  lemma AllocateKeeps(d: Delay, entries: seq<Allocation>)
    requires Fine(d)
    ensures match Allocate(d, entries)
            case Ok(after) => Fine(after) && Allocated(after.causes) == Allocated(entries) && after.header == d.header
            case Err(_) => Allocated(entries) > d.header.total + 100
  {
    var made := Normalised(entries);
    AllocatedByHours(made, entries);
    if entries != [] { assert OnlyAt(made, IsPrimary, PrimaryOf(entries)); }
  }

  lemma ReviewKeeps(d: Delay, category: string, reason: string, decision: string)
    requires Fine(d)
    ensures match Review(d, category, reason, decision)
            case Ok(after) => Fine(after) && after.header.total == d.header.total
              && after.header.status == d.header.status
            case Err(_) => false
  {
    var r := Review(d, category, reason, decision);
    if OnePrimary(d.causes) {
      var k :| 0 <= k < |d.causes| && OnlyAt(d.causes, IsPrimary, k);
      assert IsPrimary(d.causes[k]);
      AllocatedByHours(r.value.causes, d.causes);
      assert OnlyAt(r.value.causes, IsPrimary, k);
    } else {
      AllocatedAppend([], r.value.causes[0]);
      assert OnlyAt(r.value.causes, IsPrimary, 0);
    }
  }

  /** What an inference does to the rows: one guess in place, or one more primary row with the whole duration. */
  lemma InferShape(d: Delay, p: Proposal, force: bool)
    requires !Declines(d, force)
    ensures match OneOrNone(d.causes, IsInferred)
            case Several => Infer(d, p, force).Err?
            case Single(k) => Infer(d, p, force).Ok?
              && Infer(d, p, force).value.causes == d.causes[k := Guess(d.causes[k], p)]
                              && Allocated(Infer(d, p, force).value.causes) == Allocated(d.causes)
            case Missing => Infer(d, p, force).Ok? && |Infer(d, p, force).value.causes| == |d.causes| + 1
                            && Allocated(Infer(d, p, force).value.causes) == Allocated(d.causes) + d.header.total
  {
    match OneOrNone(d.causes, IsInferred)
    case Several =>
    case Single(k) => AllocatedByHours(d.causes[k := Guess(d.causes[k], p)], d.causes);
    case Missing =>
      AllocatedAppend(d.causes,
                      Allocation(d.header.total, true, p.category, Guessed(p.category), "INFERRED", p.confidence,
                                 "PENDING_REVIEW"));
  }

  /** An inference that goes ahead keeps the delay in order exactly when there was nothing allocated or one cause
      was already an inferred one. */
  lemma InferKeepsIff(d: Delay, p: Proposal, force: bool)
    requires Fine(d) && !Declines(d, force) && Infer(d, p, force).Ok?
    ensures Fine(Infer(d, p, force).value)
            <==> d.causes == [] || exists k :: 0 <= k < |d.causes| && IsInferred(d.causes[k])
  {
    InferShape(d, p, force);
    var after := Infer(d, p, force).value;
    match OneOrNone(d.causes, IsInferred)
    case Several =>
    case Single(k) =>
      var j :| 0 <= j < |d.causes| && OnlyAt(d.causes, IsPrimary, j);
      assert OnlyAt(after.causes, IsPrimary, j);
      assert IsInferred(d.causes[k]);
    case Missing =>
      var n := |d.causes|;
      if n == 0 {
        assert OnlyAt(after.causes, IsPrimary, 0);
      } else {
        var j :| 0 <= j < n && OnlyAt(d.causes, IsPrimary, j);
        assert after.causes[j] == d.causes[j] && IsPrimary(after.causes[j]) && IsPrimary(after.causes[n]);
        assert forall k :: 0 <= k <= n ==> !OnlyAt(after.causes, IsPrimary, k);
      }
  }

  /** An inference never writes a confirmed cause or touches one, and leaves a confirmed delay alone unless forced. */
  lemma InferConfirmsNothing(d: Delay, p: Proposal, force: bool)
    requires Infer(d, p, force).Ok?
    ensures var after := Infer(d, p, force).value;
            && (Declines(d, force) ==> after == d)
            && (!Declines(d, force) ==> !Confirmed(after.header))
            && (forall k :: 0 <= k < |after.causes| && !(k < |d.causes| && after.causes[k] == d.causes[k]) ==>
                after.causes[k].status == "INFERRED")
            && (forall k :: 0 <= k < |d.causes| && !IsInferred(d.causes[k]) ==>
                k < |after.causes| && after.causes[k] == d.causes[k])
  {
    if !Declines(d, force) {
      InferShape(d, p, force);
      assert Upper("Inferred") == "INFERRED";
      assert "INFERRED"[0] != "CONFIRMED"[0];
    }
  }

  // ---- Whole runs ----

  datatype Step =
    | Allocating(entries: seq<Allocation>)
    | Reviewing(category: string, reason: string, decision: string)
    | Inferring(proposal: Proposal, force: bool)

  function Apply(d: Delay, step: Step): Result<Delay> {
    match step
    case Allocating(entries) => Allocate(d, entries)
    case Reviewing(category, reason, decision) => Review(d, category, reason, decision)
    case Inferring(p, force) => Infer(d, p, force)
  }

  /** What a failed step leaves is what was there. */
  function Run(d: Delay, steps: seq<Step>): Delay
    decreases |steps|
  {
    if steps == [] then d
    else
      var r := Apply(d, steps[0]);
      Run(if r.Ok? then r.value else d, steps[1..])
  }

  ghost predicate Allowed(d: Delay, step: Step) {
    step.Inferring? ==> d.causes == [] || exists k :: 0 <= k < |d.causes| && IsInferred(d.causes[k])
  }

  ghost predicate AllowedRun(d: Delay, steps: seq<Step>)
    decreases |steps|
  {
    if steps == [] then true
    else
      var r := Apply(d, steps[0]);
      Allowed(d, steps[0]) && AllowedRun(if r.Ok? then r.value else d, steps[1..])
  }

  lemma StepKeeps(d: Delay, step: Step)
    requires Fine(d) && Allowed(d, step)
    ensures Apply(d, step).Ok? ==> Fine(Apply(d, step).value) && Apply(d, step).value.header.total == d.header.total
  {
    match step
    case Allocating(entries) => AllocateKeeps(d, entries);
    case Reviewing(category, reason, decision) => ReviewKeeps(d, category, reason, decision);
    case Inferring(p, force) =>
      if !Declines(d, force) && Infer(d, p, force).Ok? { InferKeepsIff(d, p, force); }
  }

  lemma {:induction false} RunKeeps(d: Delay, steps: seq<Step>)
    requires Fine(d) && AllowedRun(d, steps)
    ensures Fine(Run(d, steps)) && Run(d, steps).header.total == d.header.total
    decreases |steps|
  {
    if steps != [] {
      StepKeeps(d, steps[0]);
      var r := Apply(d, steps[0]);
      RunKeeps(if r.Ok? then r.value else d, steps[1..]);
    }
  }

  /** Approving an inferred cause and inferring again, with nothing forced, gives the delay two primary causes with
      twice its hours between them, and the next review fails. */
  lemma InferringAfterApprovalDoubles(h: Header, p: Proposal, q: Proposal, category: string, reason: string)
    requires h.total > 100 && !Confirmed(h)
    ensures var d := Delay(h, []);
            var after := Run(d, [Inferring(p, false), Reviewing(category, reason, "APPROVED"), Inferring(q, false)]);
            && Fine(d) && Allocated(after.causes) == 2 * h.total && !Covered(after)
            && |after.causes| == 2 && after.causes[0].primary && after.causes[1].primary
            && Review(after, category, reason, "APPROVED").Err?
  {
    var d := Delay(h, []);
    var steps := [Inferring(p, false), Reviewing(category, reason, "APPROVED"), Inferring(q, false)];
    var first := Infer(d, p, false).value;
    InferShape(d, p, false);
    InferConfirmsNothing(d, p, false);
    var second := Review(first, category, reason, "APPROVED").value;
    assert first.causes == [first.causes[0]] && OnlyAt(first.causes, IsPrimary, 0);
    assert OneOrNone(first.causes, IsPrimary) == Single(0);
    AllocatedByHours(second.causes, first.causes);
    InferShape(second, q, false);
    var third := Infer(second, q, false).value;
    assert steps[1..][0] == Reviewing(category, reason, "APPROVED") && steps[1..][1..] == [Inferring(q, false)];
    assert Run(second, [Inferring(q, false)]) == Run(third, []) == third;
    assert Run(first, steps[1..]) == Run(second, steps[1..][1..]);
    assert Run(d, steps) == Run(first, steps[1..]);
    assert third.causes[0] == second.causes[0] && IsPrimary(third.causes[0]) && IsPrimary(third.causes[1]);
    assert OneOrNone(third.causes, IsPrimary).Several?;
  }
}
