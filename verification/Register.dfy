/** The merger service as the program it is: rows updated in place, children moved one by one. */
module Register {
  import opened Wrappers
  import opened Vessels
  import opened Survivorship
  import opened Merging
  import MergeForest

  class MergeRegister {
    var calls: map<nat, VesselCall>
    var events: map<nat, Event>
    var services: map<nat, nat>
    var delays: map<nat, nat>
    var candidates: map<Pair, Candidate>
    var decisions: seq<Decision>

    constructor (s: Store)
      ensures Contents() == s
    {
      calls, events, services, delays := s.calls, s.events, s.services, s.delays;
      candidates, decisions := s.candidates, s.decisions;
    }

    ghost function Contents(): Store
      reads this
    {
      Store(calls, events, services, delays, candidates, decisions)
    }

    /** Moves the merged record's events, dropping those whose key the survivor already has. The
        look-up is repeated against the current rows, yet decides as it would have at the start,
        because the keys of one record are distinct. */
    method TransferEvents(survivor: nat, merged: nat) returns (transferred: set<nat>)
      requires survivor != merged && MergeForest.KeysUnique(events)
      modifies this`events
      ensures events == MergeEvents(old(events), survivor, merged)
      ensures transferred == Transferred(old(events), survivor, merged)
    {
      ghost var before := events;
      var pending := set e | e in events && events[e].call == merged;
      ghost var all := pending;
      transferred := {};
      while pending != {}
        invariant pending <= all && all == set e | e in before && before[e].call == merged
        invariant transferred == set e | e in all - pending && !Collides(before, e, survivor)
        invariant events == PartlyMerged(before, all - pending, survivor)
        decreases pending
      {
        var e :| e in pending;
        CollisionIsStable(before, events, all, all - pending, survivor, merged, e);
        PartlyMergedGrows(before, all - pending, survivor, e);
        assert all - (pending - {e}) == (all - pending) + {e};
        if exists d :: d in events && events[d].call == survivor && SameSlot(events[d], events[e]) {
          events := events - {e};
        } else {
          transferred := transferred + {e};
          events := events[e := events[e].(call := survivor)];
        }
        pending := pending - {e};
      }
      assert all - pending == all;
    }

    /** Moves the service requests, or the delays, of the merged record. */
    static method TransferOwned(owners: map<nat, nat>, survivor: nat, merged: nat)
      returns (owners': map<nat, nat>, transferred: set<nat>)
      ensures transferred == OwnedBy(owners, merged)
      ensures owners' == Reassign(owners, OwnedBy(owners, merged), survivor)
    {
      owners', transferred := owners, {};
      var pending := set c | c in owners && owners[c] == merged;
      while pending != {}
        invariant transferred !! pending && transferred + pending == OwnedBy(owners, merged)
        invariant owners' == Reassign(owners, transferred, survivor)
        decreases pending
      {
        var c :| c in pending;
        transferred := transferred + {c};
        owners' := owners'[c := survivor];
        pending := pending - {c};
      }
    }

    /** Every child of the merged record goes to the survivor. */
    method MoveChildren(survivor: nat, merged: nat)
      returns (movedEvents: set<nat>, movedServices: set<nat>, movedDelays: set<nat>)
      requires survivor != merged && MergeForest.KeysUnique(events)
      modifies this`events, this`services, this`delays
      ensures events == MergeEvents(old(events), survivor, merged)
      ensures services == Reassign(old(services), OwnedBy(old(services), merged), survivor)
      ensures delays == Reassign(old(delays), OwnedBy(old(delays), merged), survivor)
      ensures movedEvents == Transferred(old(events), survivor, merged)
      ensures movedServices == OwnedBy(old(services), merged) && movedDelays == OwnedBy(old(delays), merged)
    {
      movedEvents := TransferEvents(survivor, merged);
      services, movedServices := TransferOwned(services, survivor, merged);
      delays, movedDelays := TransferOwned(delays, survivor, merged);
    }

    /** The survivor takes the consolidated columns, and the merged record points to it. */
    method Consolidate(survivor: nat, merged: nat, consolidated: Columns)
      requires survivor in calls && merged in calls && survivor != merged
      modifies this`calls
      ensures var kept := old(calls)[survivor];
              calls == old(calls)[survivor := kept.(columns := kept.columns + consolidated)]
                                 [merged := old(calls)[merged].(merged := true, mergedInto := Some(survivor))]
    {
      calls := calls[survivor := calls[survivor].(columns := calls[survivor].columns + consolidated)];
      calls := calls[merged := calls[merged].(merged := true, mergedInto := Some(survivor))];
    }

    /** The merge itself, once nothing stands against it. */
    method Combine(pair: Pair, custom: Columns)
      requires pair in candidates && pair.0 in calls && pair.1 in calls && pair.0 != pair.1
      requires MergeForest.KeysUnique(events)
      modifies this
      ensures Contents() == Merge(old(Contents()), pair, custom)
    {
      var first := DetermineSurvivor(calls[pair.0], calls[pair.1]);
      var survivor, merged := if first then pair.0 else pair.1, if first then pair.1 else pair.0;
      var survivorPrior, mergedPrior := calls[survivor], calls[merged];
      var movedEvents, movedServices, movedDelays := MoveChildren(survivor, merged);
      var consolidated := GeneratePreview(calls[pair.0], calls[pair.1]);
      Consolidate(survivor, merged, consolidated + custom);
      decisions := decisions + [Decision(pair, true, survivor, merged, survivorPrior, mergedPrior,
                                         movedEvents, movedServices, movedDelays)];
      candidates := candidates[pair := candidates[pair].(status := WasMerged)];
    }

    method ExecuteMerge(pair: Pair, manual: bool, custom: Columns) returns (r: Result<nat>)
      requires pair.0 != pair.1 && MergeForest.KeysUnique(events)
      modifies this
      ensures r.Ok? <==> && pair in old(candidates) && (old(candidates)[pair].conflict ==> manual)
                         && pair.0 in old(calls) && pair.1 in old(calls)
      ensures Contents() == if r.Ok? then Merge(old(Contents()), pair, custom) else old(Contents())
      ensures r.Ok? ==> r.value == |old(decisions)| && |decisions| == |old(decisions)| + 1
      ensures r.Ok? ==> Combines(old(Contents()), Contents(), pair, custom, decisions[r.value])
    {
      if pair !in candidates { return Err("match candidate not found"); }
      if candidates[pair].conflict && !manual { return Err("conflicting identifiers never auto-merge"); }
      if pair.0 !in calls || pair.1 !in calls { return Err("vessel call not found"); }
      MergeCombines(Contents(), pair, custom);
      Combine(pair, custom);
      return Ok(|decisions| - 1);
    }

    static method GiveBack(owners: map<nat, nat>, children: set<nat>, id: nat) returns (owners': map<nat, nat>)
      ensures owners' == Reassign(owners, children, id)
    {
      owners' := owners;
      var pending := children;
      while pending != {}
        invariant pending <= children
        invariant owners' == Reassign(owners, children - pending, id)
        decreases pending
      {
        var c :| c in pending;
        if c in owners' { owners' := owners'[c := id]; }
        pending := pending - {c};
      }
      assert children - pending == children;
    }

    method GiveBackEvents(children: set<nat>, id: nat)
      modifies this`events
      ensures events == ReassignEvents(old(events), children, id)
    {
      var pending := children;
      while pending != {}
        invariant pending <= children
        invariant events == ReassignEvents(old(events), children - pending, id)
        decreases pending
      {
        var e :| e in pending;
        if e in events { events := events[e := events[e].(call := id)]; }
        pending := pending - {e};
      }
      assert children - pending == children;
    }

    method ExecuteUnmerge(k: nat) returns (r: Result<nat>)
      modifies this
      ensures r.Ok? <==> && k < |old(decisions)| && old(decisions)[k].standing
                         && old(decisions)[k].survivor in old(calls) && old(decisions)[k].merged in old(calls)
      ensures Contents() == if r.Ok? then Unmerge(old(Contents()), k) else old(Contents())
      ensures r.Ok? && old(decisions)[k].candidate in candidates ==>
                candidates[old(decisions)[k].candidate].status == Proposed(Matcher.StewardReview)
    {
      if k >= |decisions| { return Err("merge decision not found"); }
      var d := decisions[k];
      if !d.standing { return Err("decision cannot be unmerged"); }
      if d.survivor !in calls || d.merged !in calls { return Err("survivor or merged record missing"); }
      calls := calls[d.survivor := d.survivorPrior];
      calls := calls[d.merged := d.mergedPrior];
      calls := calls[d.merged := calls[d.merged].(merged := false, mergedInto := None)];
      GiveBackEvents(d.events, d.merged);
      services := GiveBack(services, d.services, d.merged);
      delays := GiveBack(delays, d.delays, d.merged);
      decisions := decisions[k := d.(standing := false)];
      if d.candidate in candidates {
        candidates := candidates[d.candidate := candidates[d.candidate].(status := Proposed(Matcher.StewardReview))];
      }
      return Ok(d.merged);
    }
  }

  /** The events once those of `done` have been handled. */
  ghost function PartlyMerged(before: map<nat, Event>, done: set<nat>, survivor: nat): map<nat, Event> {
    map e | e in before && (e in done ==> !Collides(before, e, survivor)) ::
      if e in done then before[e].(call := survivor) else before[e]
  }

  lemma PartlyMergedGrows(before: map<nat, Event>, done: set<nat>, survivor: nat, e: nat)
    requires e in before && e !in done
    ensures PartlyMerged(before, done + {e}, survivor)
         == if Collides(before, e, survivor) then PartlyMerged(before, done, survivor) - {e}
            else PartlyMerged(before, done, survivor)[e := before[e].(call := survivor)]
  {
  }

  lemma CollisionIsStable(before: map<nat, Event>, now: map<nat, Event>, all: set<nat>, done: set<nat>,
                          survivor: nat, merged: nat, e: nat)
    requires MergeForest.KeysUnique(before) && survivor != merged
    requires all == (set c | c in before && before[c].call == merged) && done <= all && e in all - done
    requires now == PartlyMerged(before, done, survivor)
    ensures e in now && now[e] == before[e] && (Collides(now, e, survivor) <==> Collides(before, e, survivor))
  {
    if Collides(now, e, survivor) {
      var d :| d in now && now[d].call == survivor && SameSlot(now[d], now[e]);
      assert d in before && SameSlot(before[d], before[e]);
    }
    if Collides(before, e, survivor) {
      var d :| d in before && before[d].call == survivor && SameSlot(before[d], before[e]);
      assert d in now && now[d] == before[d];
    }
  }
}
