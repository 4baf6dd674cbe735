/** The causes of a delay: allocation, review and inference over one header and its allocation rows.
    Hours are counted in ticks of a ten-thousandth. */
module Allocations {
  import opened Wrappers
  import opened Text

  datatype Cause = Stated(text: string) | Guessed(category: string)

  datatype Allocation = Allocation(hours: int, primary: bool, category: string, reason: Cause, status: string,
                                   confidence: int, review: string)

  datatype Header = Header(total: int, stage: string, status: string, category: string, reason: Cause,
                           confidence: string, resolution: string, needsReview: bool)

  datatype Delay = Delay(header: Header, causes: seq<Allocation>)

  /** What the evidence suggests, the confidence in hundredths. */
  datatype Proposal = Proposal(category: string, confidence: int)

  // ---- Reading back ----

  function Allocated(causes: seq<Allocation>): int {
    if causes == [] then 0 else Allocated(causes[..|causes| - 1]) + causes[|causes| - 1].hours
  }

  function Unallocated(d: Delay): int {
    var rest := d.header.total - Allocated(d.causes);
    if rest > 0 then rest else 0
  }

  predicate IsPrimary(a: Allocation) { a.primary }

  predicate IsInferred(a: Allocation) { a.status == "INFERRED" }

  /** What `scalar_one_or_none` finds. */
  datatype Scalar = Missing | Single(at: nat) | Several

  predicate OnlyAt(s: seq<Allocation>, p: Allocation -> bool, k: nat) {
    k < |s| && p(s[k]) && forall j :: 0 <= j < |s| && j != k ==> !p(s[j])
  }

  function OneOrNone(s: seq<Allocation>, p: Allocation -> bool): (r: Scalar)
    ensures r.Missing? <==> forall k :: 0 <= k < |s| ==> !p(s[k])
    ensures r.Single? ==> OnlyAt(s, p, r.at)
    ensures r.Several? ==> exists j, k :: 0 <= j < k < |s| && p(s[j]) && p(s[k])
  {
    if s == [] then Missing
    else
      var n := |s| - 1;
      assert forall k :: 0 <= k < n ==> s[..n][k] == s[k];
      var r := OneOrNone(s[..n], p);
      if !p(s[n]) then r else if r.Missing? then Single(n) else Several
  }

  // ---- What each operation leaves ----

  /** The first entry that claims to be primary, or else the first of all. */
  function PrimaryOf(entries: seq<Allocation>): (k: nat)
    ensures k < |entries| || k == 0
    ensures (forall j :: 0 <= j < k ==> !entries[j].primary)
    ensures k < |entries| && !entries[k].primary ==> k == 0 && forall j :: 0 <= j < |entries| ==> !entries[j].primary
  {
    FirstClaim(entries, 0)
  }

  function FirstClaim(entries: seq<Allocation>, i: nat): (k: nat)
    requires i <= |entries|
    ensures if exists j :: i <= j < |entries| && entries[j].primary
            then i <= k < |entries| && entries[k].primary && forall j :: i <= j < k ==> !entries[j].primary
            else k == 0
    decreases |entries| - i
  {
    if i == |entries| then 0 else if entries[i].primary then i else FirstClaim(entries, i + 1)
  }

  function Normalised(entries: seq<Allocation>): (r: seq<Allocation>)
    ensures |r| == |entries|
  {
    seq(|entries|, k requires 0 <= k < |entries| => entries[k].(primary := k == PrimaryOf(entries)))
  }

  function Allocate(d: Delay, entries: seq<Allocation>): Result<Delay> {
    if Allocated(entries) > d.header.total + 100 then Err("sum of allocations exceeds the total")
    else Ok(d.(causes := Normalised(entries)))
  }

  function ReviewedHeader(h: Header, category: string, reason: string, decision: string): Header {
    h.(category := category, reason := Stated(reason), needsReview := false,
       resolution := if decision == "APPROVED" then "Closed" else "Under Review")
  }

  function Reviewed(a: Allocation, category: string, reason: string, decision: string): Allocation {
    a.(category := category, reason := Stated(reason), review := decision,
       status := if decision == "APPROVED" then "CONFIRMED" else a.status)
  }

  function Review(d: Delay, category: string, reason: string, decision: string): Result<Delay> {
    var header := ReviewedHeader(d.header, category, reason, decision);
    match OneOrNone(d.causes, IsPrimary)
    case Several => Err("multiple rows found")
    case Single(k) => Ok(Delay(header, d.causes[k := Reviewed(d.causes[k], category, reason, decision)]))
    case Missing =>
      var status := if decision == "APPROVED" then "CONFIRMED" else "INFERRED";
      Ok(Delay(header, d.causes + [Allocation(d.header.total, true, category, Stated(reason), status, 100, decision)]))
  }

  predicate Confirmed(h: Header) { Upper(h.status) == "CONFIRMED" }

  predicate Declines(d: Delay, force: bool) { Confirmed(d.header) && !force }

  function Guess(a: Allocation, p: Proposal): Allocation {
    a.(category := p.category, reason := Guessed(p.category), confidence := p.confidence, review := "PENDING_REVIEW")
  }

  function InferredHeader(h: Header, p: Proposal): Header {
    h.(status := "Inferred", category := p.category, reason := Guessed(p.category),
       confidence := if p.confidence >= 60 then "Medium" else "Low")
  }

  function Infer(d: Delay, p: Proposal, force: bool): Result<Delay> {
    if Declines(d, force) then Ok(d)
    else
      match OneOrNone(d.causes, IsInferred)
      case Several => Err("multiple rows found")
      case Single(k) => Ok(Delay(InferredHeader(d.header, p), d.causes[k := Guess(d.causes[k], p)]))
      case Missing =>
        Ok(Delay(InferredHeader(d.header, p),
                 d.causes
                   + [Allocation(d.header.total, true, p.category, Guessed(p.category), "INFERRED", p.confidence,
                                 "PENDING_REVIEW")]))
  }

  // ---- The service, in place ----

  class DelayDesk {
    var delays: map<nat, Delay>

    method AllocateCauses(id: nat, entries: seq<Allocation>) returns (r: Result<Delay>)
      modifies this
      ensures id !in old(delays) ==> r.Err? && delays == old(delays)
      ensures id in old(delays) ==> r == Allocate(old(delays)[id], entries)
                                    && delays == if r.Ok? then old(delays)[id := r.value] else old(delays)
    {
      if id !in delays { return Err("delay not found"); }
      var sum := 0;
      for i := 0 to |entries|
        invariant sum == Allocated(entries[..i])
      {
        assert entries[..i + 1][..i] == entries[..i];
        sum := sum + entries[i].hours;
      }
      assert entries[..|entries|] == entries;
      if sum > delays[id].header.total + 100 { return Err("sum of allocations exceeds the total"); }
      var made := NewAllocations(entries);
      delays := delays[id := delays[id].(causes := made)];
      return Ok(delays[id]);
    }

    method NewAllocations(entries: seq<Allocation>) returns (made: seq<Allocation>)
      ensures made == Normalised(entries)
    {
      made := [];
      var primaryFound := false;
      for i := 0 to |entries|
        invariant |made| == i
        invariant primaryFound <==> exists j :: 0 <= j < i && entries[j].primary
        invariant forall k :: 0 <= k < i ==>
                    made[k] == entries[k].(primary := entries[k].primary && k == PrimaryOf(entries))
      {
        var isPrimary := entries[i].primary;
        if isPrimary && !primaryFound {
          primaryFound := true;
        } else if isPrimary && primaryFound {
          isPrimary := false;
        }
        made := made + [entries[i].(primary := isPrimary)];
      }
      if made != [] && !primaryFound { made := made[0 := made[0].(primary := true)]; }
    }

    method ReviewDelayReason(id: nat, category: string, reason: string, decision: string) returns (r: Result<Delay>)
      modifies this
      ensures id !in old(delays) ==> r.Err? && delays == old(delays)
      ensures id in old(delays) ==> r == Review(old(delays)[id], category, reason, decision)
                                    && delays == if r.Ok? then old(delays)[id := r.value] else old(delays)
    {
      if id !in delays { return Err("delay not found"); }
      var header, causes := delays[id].header, delays[id].causes;
      header := header.(category := category, reason := Stated(reason), needsReview := false);
      header := header.(resolution := if decision == "APPROVED" then "Closed" else "Under Review");
      var found := OneOrNone(causes, IsPrimary);
      if found.Several? { return Err("multiple rows found"); }
      if found.Single? {
        var a := causes[found.at].(category := category, reason := Stated(reason), review := decision);
        if decision == "APPROVED" { a := a.(status := "CONFIRMED"); }
        causes := causes[found.at := a];
      } else {
        var status := if decision == "APPROVED" then "CONFIRMED" else "INFERRED";
        causes := causes + [Allocation(header.total, true, category, Stated(reason), status, 100, decision)];
      }
      delays := delays[id := Delay(header, causes)];
      return Ok(delays[id]);
    }

    method InferDelayCause(id: nat, services: seq<Served>, force: bool) returns (r: Result<Delay>)
      modifies this
      ensures id !in old(delays) ==> r.Err? && delays == old(delays)
      ensures id in old(delays) ==> r == Infer(old(delays)[id], Propose(services, old(delays)[id].header.stage), force)
                                    && delays == if r.Ok? then old(delays)[id := r.value] else old(delays)
    {
      if id !in delays { return Err("delay not found"); }
      var header, causes := delays[id].header, delays[id].causes;
      if Upper(header.status) == "CONFIRMED" && !force { return Ok(delays[id]); }
      var p := GatherEvidence(services, header.stage);
      var found := OneOrNone(causes, IsInferred);
      if found.Several? { return Err("multiple rows found"); }
      if found.Missing? {
        causes := causes
          + [Allocation(header.total, true, p.category, Guessed(p.category), "INFERRED", p.confidence,
                        "PENDING_REVIEW")];
      } else {
        var a := causes[found.at].(category := p.category, reason := Guessed(p.category));
        causes := causes[found.at := a.(confidence := p.confidence, review := "PENDING_REVIEW")];
      }
      header := header.(status := "Inferred", category := p.category);
      header := header.(confidence := if p.confidence >= 60 then "Medium" else "Low", reason := Guessed(p.category));
      delays := delays[id := Delay(header, causes)];
      return Ok(delays[id]);
    }
  }

  // ---- Evidence ----

  /** A service of the call: how late it was served, in microseconds, when both times are known. */
  datatype Served = Served(service: string, movement: string, late: Option<int>)

  datatype Kind = Pilot | Tug | Berth | Unrelated

  /** Three minutes, and six. */
  const NOTICEABLE := 180000000
  const DECISIVE := 360000000

  function KindOf(s: Served, stage: string): Kind {
    if s.movement != "" && !Contains(Upper(s.movement), Upper(stage)) then Unrelated
    else if Contains(Upper(s.service), "PILOT") then Pilot
    else if Contains(Upper(s.service), "TUG") then Tug
    else if Contains(Upper(s.service), "BERTH") then Berth
    else Unrelated
  }

  predicate LateAt(s: Served, stage: string, kind: Kind) {
    s.late.Some? && s.late.value > NOTICEABLE && KindOf(s, stage) == kind
  }

  /** The last noticeable lateness of a kind. */
  function LastLate(services: seq<Served>, stage: string, kind: Kind): (r: Option<int>)
    ensures r.None? <==> forall k :: 0 <= k < |services| ==> !LateAt(services[k], stage, kind)
    ensures r.Some? ==> exists k :: 0 <= k < |services| && LateAt(services[k], stage, kind) && services[k].late == r
                                    && forall j :: k < j < |services| ==> !LateAt(services[j], stage, kind)
  {
    if services == [] then None
    else
      var n := |services| - 1;
      assert forall k :: 0 <= k < n ==> services[..n][k] == services[k];
      if LateAt(services[n], stage, kind) then services[n].late else LastLate(services[..n], stage, kind)
  }

  predicate Decisive(late: Option<int>) { late.Some? && late.value > DECISIVE }

  function Propose(services: seq<Served>, stage: string): Proposal {
    if Decisive(LastLate(services, stage, Tug)) then Proposal("Tug", 75)
    else if Decisive(LastLate(services, stage, Pilot)) then Proposal("Pilot", 78)
    else if Decisive(LastLate(services, stage, Berth)) then Proposal("Berth Non-Availability", 70)
    else if Contains(Upper(stage), "ARRIVAL") then Proposal("Berth Non-Availability", 60)
    else if Contains(Upper(stage), "SAILING") then Proposal("Terminal Readiness", 58)
    else Proposal("Port-Side", 50)
  }

  method GatherEvidence(services: seq<Served>, stage: string) returns (p: Proposal)
    ensures p == Propose(services, stage)
  {
    var pilot, tug, berthing: Option<int> := None, None, None;
    for i := 0 to |services|
      invariant pilot == LastLate(services[..i], stage, Pilot)
      invariant tug == LastLate(services[..i], stage, Tug)
      invariant berthing == LastLate(services[..i], stage, Berth)
    {
      var s := services[i];
      assert services[..i + 1][..i] == services[..i];
      if s.late.Some? {
        var service, fits := Upper(s.service), Contains(Upper(s.movement), Upper(stage)) || s.movement == "";
        if Contains(service, "PILOT") && fits {
          if s.late.value > NOTICEABLE { pilot := s.late; }
        } else if Contains(service, "TUG") && fits {
          if s.late.value > NOTICEABLE { tug := s.late; }
        } else if Contains(service, "BERTH") && fits {
          if s.late.value > NOTICEABLE { berthing := s.late; }
        }
      }
    }
    assert services[..|services|] == services;
    if Decisive(tug) {
      p := Proposal("Tug", 75);
    } else if Decisive(pilot) {
      p := Proposal("Pilot", 78);
    } else if Decisive(berthing) {
      p := Proposal("Berth Non-Availability", 70);
    } else if Contains(Upper(stage), "ARRIVAL") {
      p := Proposal("Berth Non-Availability", 60);
    } else if Contains(Upper(stage), "SAILING") {
      p := Proposal("Terminal Readiness", 58);
    } else {
      p := Proposal("Port-Side", 50);
    }
  }
}
