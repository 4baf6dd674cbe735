/** What allocation, review and inference leave, column by column. */
module AllocationColumns {
  import opened Wrappers
  import opened Text
  import opened Allocations

  // ---- The sum of hours

  lemma AllocatedGrows(causes: seq<Allocation>, a: Allocation)
    ensures Allocated([]) == 0 && Allocated(causes + [a]) == Allocated(causes) + a.hours
  {
    assert (causes + [a])[..|causes|] == causes;
  }

  // ---- Allocation

  /** The first entry that claims to be primary, or the first of all where none does. */
  ghost predicate Leads(entries: seq<Allocation>, k: nat)
    requires k < |entries|
  {
    if exists j :: 0 <= j < |entries| && entries[j].primary then
      entries[k].primary && forall j :: 0 <= j < k ==> !entries[j].primary
    else k == 0
  }

  /** The entries replace what was there, in their order and with all their columns, except that one of them alone is
      primary. It is refused exactly when they exceed the duration by more than a hundredth of an hour. */
  lemma AllocateReplaces(d: Delay, entries: seq<Allocation>)
    ensures match Allocate(d, entries)
            case Err(_) => Allocated(entries) - d.header.total > 100
            case Ok(after) =>
              && Allocated(entries) - d.header.total <= 100 && after.header == d.header
              && |after.causes| == |entries|
              && forall k :: 0 <= k < |entries| ==>
                   && after.causes[k].(primary := entries[k].primary) == entries[k]
                   && (after.causes[k].primary <==> Leads(entries, k))
  {
    var first := PrimaryOf(entries);
    if j :| 0 <= j < |entries| && entries[j].primary { assert first < |entries| && entries[first].primary; }
  }

  // ---- Review

  ghost predicate TwoOf(causes: seq<Allocation>, p: Allocation -> bool) {
    exists j, k :: 0 <= j < k < |causes| && p(causes[j]) && p(causes[k])
  }

  /** Only row `k` has changed. */
  ghost predicate ChangesOnly(was: seq<Allocation>, now: seq<Allocation>, k: nat) {
    |now| == |was| && forall j :: 0 <= j < |was| && j != k ==> now[j] == was[j]
  }

  ghost predicate ReviewsHeader(was: Header, now: Header, category: string, reason: string, decision: string) {
    && now.category == category && now.reason == Stated(reason) && !now.needsReview
    && (decision == "APPROVED" ==> now.resolution == "Closed")
    && (decision != "APPROVED" ==> now.resolution == "Under Review")
    && (now.total, now.stage, now.status, now.confidence) == (was.total, was.stage, was.status, was.confidence)
  }

  /** The primary cause takes the reviewed category and reason, and is confirmed exactly when the review approves it. */
  ghost predicate ReviewsCause(was: Allocation, now: Allocation, category: string, reason: string, decision: string) {
    && now.category == category && now.reason == Stated(reason) && now.review == decision
    && (decision == "APPROVED" ==> now.status == "CONFIRMED") && (decision != "APPROVED" ==> now.status == was.status)
    && (now.hours, now.primary, now.confidence) == (was.hours, was.primary, was.confidence)
  }

  ghost predicate AddsReviewed(now: Allocation, total: int, category: string, reason: string, decision: string) {
    && now.category == category && now.reason == Stated(reason) && now.review == decision
    && (decision == "APPROVED" ==> now.status == "CONFIRMED") && (decision != "APPROVED" ==> now.status == "INFERRED")
    && now.hours == total && now.primary && now.confidence == 100
  }

  ghost predicate ReviewsCauses(d: Delay, now: seq<Allocation>, category: string, reason: string, decision: string) {
    if exists k :: 0 <= k < |d.causes| && d.causes[k].primary then
      exists k :: 0 <= k < |d.causes| && d.causes[k].primary && ChangesOnly(d.causes, now, k)
                  && ReviewsCause(d.causes[k], now[k], category, reason, decision)
    else
      && |now| == |d.causes| + 1 && now[..|d.causes|] == d.causes
      && AddsReviewed(now[|d.causes|], d.header.total, category, reason, decision)
  }

  /** A review fails exactly on two primary causes. Otherwise it decides the one there is, or adds one for the whole
      duration, and closes the delay exactly when it approves. */
  lemma ReviewDecides(d: Delay, category: string, reason: string, decision: string)
    ensures match Review(d, category, reason, decision)
            case Err(_) => TwoOf(d.causes, IsPrimary)
            case Ok(after) =>
              && !TwoOf(d.causes, IsPrimary)
              && ReviewsHeader(d.header, after.header, category, reason, decision)
              && ReviewsCauses(d, after.causes, category, reason, decision)
  {
    match OneOrNone(d.causes, IsPrimary)
    case Several =>
    case Missing =>
      assert forall k :: 0 <= k < |d.causes| ==> !IsPrimary(d.causes[k]);
    case Single(k) =>
      var now := Review(d, category, reason, decision).value.causes;
      assert ChangesOnly(d.causes, now, k) && ReviewsCause(d.causes[k], now[k], category, reason, decision);
      assert IsPrimary(d.causes[k]);
  }

  // ---- Inference

  ghost predicate InfersHeader(was: Header, now: Header, p: Proposal) {
    && now.status == "Inferred" && now.category == p.category && now.reason == Guessed(p.category)
    && (p.confidence >= 60 ==> now.confidence == "Medium") && (p.confidence < 60 ==> now.confidence == "Low")
    && (now.total, now.stage, now.resolution, now.needsReview)
       == (was.total, was.stage, was.resolution, was.needsReview)
  }

  /** An inferred cause always awaits review, and is never a confirmed one. */
  ghost predicate Infers(now: Allocation, p: Proposal, hours: int, primary: bool) {
    && now.category == p.category && now.reason == Guessed(p.category) && now.confidence == p.confidence
    && now.status == "INFERRED" && now.review == "PENDING_REVIEW" && now.hours == hours && now.primary == primary
  }

  ghost predicate InfersCauses(d: Delay, now: seq<Allocation>, p: Proposal) {
    if exists k :: 0 <= k < |d.causes| && d.causes[k].status == "INFERRED" then
      exists k :: 0 <= k < |d.causes| && d.causes[k].status == "INFERRED" && ChangesOnly(d.causes, now, k)
                  && Infers(now[k], p, d.causes[k].hours, d.causes[k].primary)
    else
      |now| == |d.causes| + 1 && now[..|d.causes|] == d.causes && Infers(now[|d.causes|], p, d.header.total, true)
  }

  /** A confirmed delay is left alone unless forced. Otherwise an inference fails exactly on two inferred causes, and
      puts the proposal in the place of the one there is or adds it for the whole duration. */
  lemma InferDecides(d: Delay, p: Proposal, force: bool)
    ensures Upper(d.header.status) == "CONFIRMED" && !force ==> Infer(d, p, force) == Ok(d)
    ensures !(Upper(d.header.status) == "CONFIRMED" && !force) ==>
              match Infer(d, p, force)
              case Err(_) => TwoOf(d.causes, IsInferred)
              case Ok(after) =>
                && !TwoOf(d.causes, IsInferred)
                && InfersHeader(d.header, after.header, p) && InfersCauses(d, after.causes, p)
  {
    if !Declines(d, force) {
      match OneOrNone(d.causes, IsInferred)
      case Several =>
      case Missing =>
        assert forall k :: 0 <= k < |d.causes| ==> !IsInferred(d.causes[k]);
      case Single(k) =>
        var now := Infer(d, p, force).value.causes;
        assert ChangesOnly(d.causes, now, k) && IsInferred(d.causes[k]);
        assert Infers(now[k], p, d.causes[k].hours, d.causes[k].primary);
    }
  }

  // ---- Evidence

  ghost predicate Fits(s: Served, stage: string) { s.movement == "" || Contains(Upper(s.movement), Upper(stage)) }

  /** A service of that word and of none of the words before it, served more than three minutes late. */
  ghost predicate Notices(s: Served, stage: string, word: string, before: set<string>) {
    && Fits(s, stage) && Contains(Upper(s.service), word)
    && (forall other :: other in before ==> !Contains(Upper(s.service), other))
    && s.late.Some? && s.late.value > 3 * 60 * 1000000
  }

  /** The last of them was more than six minutes late. */
  ghost predicate Blames(services: seq<Served>, stage: string, word: string, before: set<string>) {
    exists k :: 0 <= k < |services| && Notices(services[k], stage, word, before)
      && services[k].late.value > 6 * 60 * 1000000
      && forall j :: k < j < |services| ==> !Notices(services[j], stage, word, before)
  }

  ghost predicate TugIsBlamed(services: seq<Served>, stage: string) { Blames(services, stage, "TUG", {"PILOT"}) }

  ghost predicate PilotIsBlamed(services: seq<Served>, stage: string) { Blames(services, stage, "PILOT", {}) }

  ghost predicate BerthIsBlamed(services: seq<Served>, stage: string) {
    Blames(services, stage, "BERTH", {"PILOT", "TUG"})
  }

  lemma DecisiveIsBlamed(services: seq<Served>, stage: string, kind: Kind, word: string, before: set<string>)
    requires forall s :: LateAt(s, stage, kind) <==> Notices(s, stage, word, before)
    ensures Decisive(LastLate(services, stage, kind)) <==> Blames(services, stage, word, before)
  {
    var r := LastLate(services, stage, kind);
    if r.Some? {
      var k :| 0 <= k < |services| && LateAt(services[k], stage, kind) && services[k].late == r
               && forall j :: k < j < |services| ==> !LateAt(services[j], stage, kind);
      assert Notices(services[k], stage, word, before);
    }
  }

  /** A late tug outweighs a late pilot, and both outweigh a late berthing service; failing these the stage decides. */
  lemma ProposeBlames(services: seq<Served>, stage: string)
    ensures var p := Propose(services, stage);
            var tug, pilot := TugIsBlamed(services, stage), PilotIsBlamed(services, stage);
            var late := tug || pilot || BerthIsBlamed(services, stage);
            var arrives, sails := Contains(Upper(stage), "ARRIVAL"), Contains(Upper(stage), "SAILING");
            && (tug ==> p == Proposal("Tug", 75))
            && (!tug && pilot ==> p == Proposal("Pilot", 78))
            && (!tug && !pilot && late ==> p == Proposal("Berth Non-Availability", 70))
            && (!late && arrives ==> p == Proposal("Berth Non-Availability", 60))
            && (!late && !arrives && sails ==> p == Proposal("Terminal Readiness", 58))
            && (!late && !arrives && !sails ==> p == Proposal("Port-Side", 50))
  {
    DecisiveIsBlamed(services, stage, Tug, "TUG", {"PILOT"});
    DecisiveIsBlamed(services, stage, Pilot, "PILOT", {});
    DecisiveIsBlamed(services, stage, Berth, "BERTH", {"PILOT", "TUG"});
  }
}
