/** The worker as the program it is: one session whose commits are flushes while it rebuilds the dataset, with its
    exception handlers, among other sessions that move between any two of its statements. Every execution is a run
    of the activation protocol, and nothing half-replaced is ever published. */
module Worker {
  import opened Wrappers
  import opened Activation

  /** Where an execution can be disturbed, in the order of the code. */
  datatype Moment = AtStart | AtLock | AtClaim | AtReset | AtLoad | AtAnalytics | AtRecheck | AtCommit | AtOutcome
                  | AtRelease

  /** What goes wrong, if anything: an exception, a commit that succeeds and still raises, or the end of the process. */
  datatype Trouble = Smooth | Raises(at: Moment) | Unacknowledged | Dies(at: Moment)

  /** How a delivery ends, or stands: it may wait for the lock, and an exception handler may itself raise. */
  datatype Exit = Returned | Waiting | Concluded | Outdated | Threw | Escaped | Died

  /** A delivery that ends so has had the lock. */
  predicate Locks(exit: Exit, trouble: Trouble) {
    && (exit.Concluded? || exit.Outdated? || exit.Threw? || exit.Escaped?)
    && trouble !in {Raises(AtStart), Raises(AtLock)}
  }

  function Before(moment: Moment): Stage {
    if moment.AtReset? then Begun else if moment.AtLoad? then Cleared else Loaded
  }

  function After(moment: Moment): Stage {
    if moment.AtReset? then Cleared else if moment.AtLoad? then Loaded else Analysed
  }

  /** A handler leaves the delivery with its outcome written, or on the way out with an exception. */
  function Written(handling: Trouble): Task { if handling == Raises(AtOutcome) then Propagating else Leaving }

  // ---------------------------------------------------------------- what other sessions may do meanwhile

  predicate Foreign(step: Step, b: nat) { Impersonal(step) || step.b != b }

  /** All that a session handling `b` may rely on across steps of others: its own position, its batch up to being
      superseded, and, while it holds the lock, the visible data and its batch as it is. */
  ghost predicate Yields(s: State, t: State, b: nat)
    requires At(s, b)
  {
    && At(t, b) && t.tasks[b] == s.tasks[b]
    && (t.batches[b] == s.batches[b] || t.batches[b] == s.batches[b].(status := Superseded, active := false))
    && |s.batches| <= |t.batches|
    && (s.lock.holder == Some(b) ==> t.lock == s.lock && t.data == s.data && t.batches[b] == s.batches[b])
    && (s.lock.holder != Some(b) ==> t.lock.holder != Some(b))
  }

  lemma ForeignStepYields(s: State, step: Step, b: nat)
    requires Inv(s) && At(s, b) && Enabled(s, step) && Foreign(step, b)
    ensures Yields(s, Apply(s, step), b)
  {
    if step.Activate? || step.ActivateUnacknowledged? {
      assert LockFits(s.lock, step.b, s.tasks[step.b]);
    }
  }

  /** Whatever steps other sessions take, in any number and order, they leave that much. */
  lemma {:induction false} ForeignRunYields(s: State, steps: seq<Step>, b: nat)
    requires Inv(s) && At(s, b) && ValidRun(s, steps) && forall i :: 0 <= i < |steps| ==> Foreign(steps[i], b)
    ensures Yields(s, Run(s, steps), b)
    decreases |steps|
  {
    if steps != [] {
      ForeignStepYields(s, steps[0], b);
      StepKeepsInv(s, steps[0]);
      ForeignRunYields(Apply(s, steps[0]), steps[1..], b);
    }
  }

  // ---------------------------------------------------------------- the session

  class Session {
    // what other sessions see
    var batches: seq<Batch>
    var data: Data
    // what this session sees
    var ownBatches: seq<Batch>
    var own: Data
    var commitIsFlush: bool

    // the deliveries and uploads of all sessions, as they stand
    var protocol: State
    /** This session runs on the pooled connection that an earlier one may have left the lock with. */
    const reuses: bool

    ghost const origin: State                  // the protocol state when the session began,
    ghost var trace: seq<Step>                 // and the protocol steps taken since, its own and others'
    ghost var published: seq<(Data, Data)>     // what was visible before and after each commit of this session

    constructor (s: State, reuses: bool)
      requires Inv(s)
      ensures Mirrors() && Clean() && origin == protocol == s && trace == [] && published == []
      ensures this.reuses == reuses
    {
      this.reuses, protocol := reuses, s;
      batches, data, ownBatches, own := s.batches, s.data, s.batches, s.data;
      commitIsFlush := false;
      origin, trace, published := s, [], [];
    }

    ghost predicate Mirrors() reads this {
      && Inv(origin) && ValidRun(origin, trace) && protocol == Run(origin, trace)
      && batches == protocol.batches && data == protocol.data
    }

    /** Where a run of the protocol leads, its invariant holds. */
    lemma Holds()
      requires Mirrors()
      ensures Inv(protocol)
    {
      RunKeepsInv(origin, trace);
    }

    ghost predicate Clean() reads this { !commitIsFlush && ownBatches == batches && own == data }

    ghost predicate HasLock(b: nat) reads this {
      protocol.lock.holder == Some(b) && (protocol.lock.kept ==> reuses)
    }

    ghost predicate Stands(b: nat, t: Task) reads this { Mirrors() && At(protocol, b) && protocol.tasks[b] == t }

    /** An exception or the end of the process has taken the session out of the guarded part. */
    ghost predicate Halted(b: nat, exit: Exit, trouble: Trouble) reads this {
      && Mirrors() && At(protocol, b) && ownBatches == batches
      && match exit
         case Threw => protocol.tasks[b].Raised? && !commitIsFlush && trouble.Raises?
                       && (Locks(Threw, trouble) ==> HasLock(b))
         case Died => protocol.tasks[b].Queued? && Clean() && protocol.lock.holder != Some(b) && trouble.Dies?
         case _ => false
    }

    /** From the `n`th on, no commit made anything visible but what was there or the complete dataset of `b`. */
    ghost predicate Harmless(n: nat, b: nat, staged: seq<int>) reads this {
      forall i :: n <= i < |published| ==> published[i].0 == published[i].1 || Serves(published[i].1, b, staged)
    }

    method Commit()
      modifies this`batches, this`data, this`published
      ensures if commitIsFlush then batches == old(batches) && data == old(data) && published == old(published)
              else batches == ownBatches && data == own && published == old(published) + [(old(data), own)]
    {
      if !commitIsFlush {
        published := published + [(data, own)];
        batches, data := ownBatches, own;
      }
    }

    method Rollback()
      modifies this`ownBatches, this`own
      ensures ownBatches == batches && own == data
    {
      ownBatches, own := batches, data;
    }

    method Take(step: Step)
      requires ValidRun(origin, trace) && protocol == Run(origin, trace) && Enabled(protocol, step)
      modifies this`protocol, this`trace
      ensures protocol == Apply(old(protocol), step)
      ensures ValidRun(origin, trace) && protocol == Run(origin, trace)
    {
      RunExtends(origin, trace, step);
      trace, protocol := trace + [step], Apply(protocol, step);
    }

    /** An upload accepted by another session: the batch, its parsed rows, the queued task. */
    method QueueCandidate(staged: seq<int>)
      requires Mirrors()
      modifies this`batches, this`protocol, this`trace
      ensures Mirrors() && batches == old(batches) + [Batch(Processing, false, staged)]
      ensures protocol == old(protocol).(batches := batches, tasks := old(protocol).tasks + [Queued])
    {
      Holds();
      ghost var before := protocol;
      var b := |batches|;
      batches := batches + [Batch(Staging, false, staged)];
      Take(Upload(staged));
      batches := batches[b := batches[b].(status := Staging)];
      Take(Parse(b));
      batches := batches[b := batches[b].(status := Processing, active := false)];
      Take(Enqueue(b));
      assert protocol.tasks == before.tasks + [Queued];
      assert batches == before.batches + [Batch(Processing, false, staged)];
    }

    /** Other sessions take any steps they can, in any number and order. */
    method Others(b: nat)
      requires Mirrors() && At(protocol, b)
      modifies this`batches, this`data, this`protocol, this`trace
      ensures Mirrors() && Yields(old(protocol), protocol, b)
    {
      Holds();
      ghost var others: seq<Step> := [];
      var schedule: seq<Step> := *;
      for i := 0 to |schedule|
        invariant Mirrors() && ValidRun(old(protocol), others) && protocol == Run(old(protocol), others)
        invariant forall k :: 0 <= k < |others| ==> Foreign(others[k], b)
      {
        var step := schedule[i];
        if Foreign(step, b) && Enabled(protocol, step) {
          RunExtends(old(protocol), others, step);
          others := others + [step];
          Take(step);
          batches, data := protocol.batches, protocol.data;
        }
      }
      ForeignRunYields(old(protocol), others, b);
    }

    /** The next statement of this session sees what others have committed, and its own pending writes. */
    method Pause(b: nat)
      requires Mirrors() && At(protocol, b)
      modifies this`batches, this`data, this`protocol, this`trace, this`ownBatches, this`own
      ensures Mirrors() && Yields(old(protocol), protocol, b)
      ensures ownBatches == batches && own == if commitIsFlush then old(own) else data
    {
      Others(b);
      ownBatches := batches;
      if !commitIsFlush { own := data; }
    }

    /** Others go on while this session waits, for as long as it takes. It gets the lock once no delivery has it and
        no connection but its own has kept it. */
    method WaitForLock(b: nat) returns (got: bool)
      requires Stands(b, AwaitingLock) && !commitIsFlush
      modifies this`batches, this`data, this`protocol, this`trace, this`ownBatches, this`own
      ensures Stands(b, if got then Locked else AwaitingLock) && Clean() && (got <==> HasLock(b))
      ensures !got ==> protocol.lock.holder != Some(b)
      ensures !got ==> protocol.lock.holder.Some? || (protocol.lock.kept && !reuses)
      ensures batches[b].staged == old(batches)[b].staged
    {
      Holds();
      assert LockFits(protocol.lock, b, protocol.tasks[b]);
      Pause(b);
      got := protocol.lock.holder.None? && (protocol.lock.kept ==> reuses);
      if got { Take(if protocol.lock.kept then Reenter(b) else AcquireLock(b)); }
    }

    /** The process ends: its transaction and its lock are gone. */
    method Die(b: nat)
      requires Mirrors() && At(protocol, b) && Running(protocol.tasks[b])
      modifies this`protocol, this`trace, this`ownBatches, this`own, this`commitIsFlush
      ensures Stands(b, Queued) && Clean() && protocol.lock.holder != Some(b)
      ensures batches == old(batches) && protocol.lock == Without(old(protocol.lock), b, false)
    {
      ownBatches, own, commitIsFlush := batches, data, false;
      Take(Crash(b));
    }

    /** An exception reaches the handlers: the real commit is back. */
    method Throw(b: nat)
      requires Mirrors() && At(protocol, b) && Enabled(protocol, Raise(b))
      modifies this`protocol, this`trace, this`commitIsFlush
      ensures Stands(b, Raised) && !commitIsFlush && protocol.lock == old(protocol.lock)
    {
      commitIsFlush := false;
      Take(Raise(b));
    }

    /** Writes and commits the status of a batch that does not become active. */
    method SetOutcome(b: nat, status: Status)
      requires Clean() && b < |batches|
      modifies this`batches, this`data, this`published, this`ownBatches
      ensures Clean() && data == old(data) && published == old(published) + [(data, data)]
      ensures batches == old(batches)[b := old(batches)[b].(status := status, active := false)]
    {
      ownBatches := ownBatches[b := ownBatches[b].(status := status, active := false)];
      Commit();
    }

    // ---- the tentative transaction

    /** Each inner service ends with a commit of its own. */
    method ResetTenantDataset(b: nat)
      requires Stands(b, Rebuilding(Begun, own)) && commitIsFlush && ownBatches == batches
      modifies this`own, this`batches, this`data, this`published, this`protocol, this`trace
      ensures Stands(b, Rebuilding(Cleared, own)) && own == old(own).(rows := [])
      ensures batches == old(batches) && data == old(data) && published == old(published)
      ensures protocol.lock == old(protocol.lock)
    {
      own := own.(rows := []);
      Commit();
      Take(ResetDataset(b));
    }

    method LoadCanonical(b: nat)
      requires Stands(b, Rebuilding(Cleared, own)) && commitIsFlush && ownBatches == batches
      modifies this`own, this`batches, this`data, this`published, this`protocol, this`trace
      ensures Stands(b, Rebuilding(Loaded, own))
      ensures own == old(own).(rows := old(own).rows + Derived(b, batches[b].staged))
      ensures batches == old(batches) && data == old(data) && published == old(published)
      ensures protocol.lock == old(protocol.lock)
    {
      own := own.(rows := own.rows + Derived(b, ownBatches[b].staged));
      Commit();
      Take(CommitToCanonical(b));
    }

    method RunFullAnalytics(b: nat)
      requires Stands(b, Rebuilding(Loaded, own)) && commitIsFlush && ownBatches == batches
      modifies this`own, this`batches, this`data, this`published, this`protocol, this`trace
      ensures Stands(b, Rebuilding(Analysed, own)) && own == PersistSnapshot(old(own), b)
      ensures batches == old(batches) && data == old(data) && published == old(published)
      ensures protocol.lock == old(protocol.lock)
    {
      own := PersistSnapshot(own, b);
      Commit();
      Take(RunAnalytics(b));
    }

    /** What happens at one moment: others move, and then the trouble strikes or the next statement runs. */
    method Reach(b: nat, moment: Moment, trouble: Trouble) returns (exit: Option<Exit>)
      requires Mirrors() && At(protocol, b) && Enabled(protocol, Raise(b))
      requires moment !in {AtStart, AtLock} ==> HasLock(b)
      modifies this`batches, this`data, this`protocol, this`trace, this`ownBatches, this`own, this`commitIsFlush
      ensures exit.Some? ==> Halted(b, exit.value, trouble) && batches[b].staged == old(batches)[b].staged
      ensures exit.None? ==> Mirrors() && Yields(old(protocol), protocol, b) && commitIsFlush == old(commitIsFlush)
                             && ownBatches == batches && own == if commitIsFlush then old(own) else data
    {
      Pause(b);
      exit := None;
      if trouble == Dies(moment) {
        Die(b);
        exit := Some(Died);
      } else if trouble == Raises(moment) {
        Throw(b);
        exit := Some(Threw);
      }
    }

    /** Inside the tentative transaction others can change nothing this session depends on. */
    method ReachInside(b: nat, moment: Moment, trouble: Trouble) returns (exit: Option<Exit>)
      requires Mirrors() && At(protocol, b) && Enabled(protocol, Raise(b)) && commitIsFlush && HasLock(b)
      requires moment !in {AtStart, AtLock}
      modifies this`batches, this`data, this`protocol, this`trace, this`ownBatches, this`own, this`commitIsFlush
      ensures exit.Some? ==> Halted(b, exit.value, trouble) && batches[b].staged == old(batches)[b].staged
      ensures exit.None? ==> Stands(b, old(protocol.tasks)[b]) && commitIsFlush && HasLock(b)
                             && data == old(data) && own == old(own) && ownBatches == batches
                               && batches[b] == old(batches)[b]
    {
      exit := Reach(b, moment, trouble);
    }

    /** One inner service: reached, or not, by this session in its transaction. */
    method Serve(b: nat, moment: Moment, trouble: Trouble) returns (exit: Option<Exit>)
      requires Mirrors() && At(protocol, b) && commitIsFlush && HasLock(b)
      requires moment in {AtReset, AtLoad, AtAnalytics} && protocol.tasks[b] == Rebuilding(Before(moment), own)
      modifies this
      ensures published == old(published)
      ensures exit.Some? ==> Halted(b, exit.value, trouble) && batches[b].staged == old(batches)[b].staged
      ensures exit.None? ==> Stands(b, Rebuilding(After(moment), own)) && commitIsFlush && HasLock(b)
                             && data == old(data) && ownBatches == batches && batches[b] == old(batches)[b]
    {
      exit := ReachInside(b, moment, trouble);
      if exit.Some? { return; }
      match moment
      case AtReset => ResetTenantDataset(b);
      case AtLoad => LoadCanonical(b);
      case AtAnalytics => RunFullAnalytics(b);
    }

    /** The three inner services in their order. */
    method Rebuild(b: nat, trouble: Trouble) returns (exit: Option<Exit>)
      requires Stands(b, Rebuilding(Begun, own)) && commitIsFlush && HasLock(b)
      modifies this
      ensures published == old(published)
      ensures exit.Some? ==> Halted(b, exit.value, trouble) && batches[b].staged == old(batches)[b].staged
      ensures exit.None? ==> Stands(b, Rebuilding(Analysed, own)) && commitIsFlush && HasLock(b)
                             && data == old(data) && ownBatches == batches && batches[b] == old(batches)[b]
    {
      exit := Serve(b, AtReset, trouble);
      if exit.Some? { return; }
      exit := Serve(b, AtLoad, trouble);
      if exit.Some? { return; }
      exit := Serve(b, AtAnalytics, trouble);
    }

    /** The statuses are flushed, the real commit is put back, and one commit shows them with the data. */
    method GoLive(b: nat, trouble: Trouble) returns (exit: Exit)
      requires Stands(b, Confirmed(own)) && commitIsFlush && ownBatches == batches
      modifies this
      ensures Mirrors() && Clean() && At(protocol, b) && batches == ActivateBatch(old(batches), b) && data == old(own)
      ensures protocol.lock == old(protocol.lock)
      ensures published == old(published) + [(old(data), data)] && Serves(data, b, batches[b].staged)
      ensures exit == if trouble.Unacknowledged? then Threw else Concluded
      ensures protocol.tasks[b] == if exit.Threw? then Raised else Leaving
    {
      ownBatches := ActivateBatch(ownBatches, b);
      Commit();
      commitIsFlush := false;
      Commit();
      if trouble.Unacknowledged? {
        Take(ActivateUnacknowledged(b));
        exit := Threw;
      } else {
        Take(Activate(b));
        exit := Concluded;
      }
      Holds();
    }

    /** The second newest-batch check. */
    method CheckAgain(b: nat, trouble: Trouble) returns (exit: Option<Exit>)
      requires Stands(b, Rebuilding(Analysed, own)) && commitIsFlush && HasLock(b)
      modifies this`batches, this`data, this`protocol, this`trace, this`ownBatches, this`own, this`commitIsFlush
      ensures Mirrors() && At(protocol, b) && batches[b].staged == old(batches)[b].staged
      ensures match exit
              case None => Stands(b, Confirmed(own)) && commitIsFlush && HasLock(b) && b + 1 == |batches|
              case Some(Outdated) => Stands(b, Withdrawn) && !commitIsFlush && b + 1 < |batches| && HasLock(b)
              case Some(how) => Halted(b, how, trouble)
    {
      exit := ReachInside(b, AtRecheck, trouble);
      if exit.Some? { return; }
      Take(Recheck(b));
      if b + 1 != |ownBatches| {
        commitIsFlush := false;
        exit := Some(Outdated);
      }
    }

    /** The activation, unless trouble strikes before it. */
    method Confirm(b: nat, trouble: Trouble) returns (exit: Exit)
      requires Stands(b, Confirmed(own)) && commitIsFlush && HasLock(b)
      modifies this
      ensures Mirrors() && At(protocol, b) && !commitIsFlush && batches[b].staged == old(batches)[b].staged
      ensures old(published) <= published && Harmless(|old(published)|, b, batches[b].staged)
      ensures match exit
              case Concluded => Stands(b, Leaving) && Clean() && Live(protocol, b) && HasLock(b)
              case Threw => Stands(b, Raised) && !trouble.Smooth? && (Locks(Threw, trouble) ==> HasLock(b))
              case Died => Halted(b, Died, trouble)
              case _ => false
    {
      var halt := ReachInside(b, AtCommit, trouble);
      if halt.Some? { return halt.value; }
      exit := GoLive(b, trouble);
    }

    /** The second newest-batch check, and the activation if it passes. */
    method Conclude(b: nat, trouble: Trouble) returns (exit: Exit)
      requires Stands(b, Rebuilding(Analysed, own)) && commitIsFlush && HasLock(b)
      modifies this
      ensures Mirrors() && At(protocol, b) && !commitIsFlush && batches[b].staged == old(batches)[b].staged
      ensures old(published) <= published && Harmless(|old(published)|, b, batches[b].staged)
      ensures match exit
              case Concluded => Stands(b, Leaving) && Clean() && Live(protocol, b) && HasLock(b)
              case Outdated => Stands(b, Withdrawn) && b + 1 < |batches| && HasLock(b)
              case Threw => Stands(b, Raised) && !trouble.Smooth? && (Locks(Threw, trouble) ==> HasLock(b))
              case Died => Halted(b, Died, trouble)
              case _ => false
    {
      var halt := CheckAgain(b, trouble);
      if halt.Some? { return halt.value; }
      exit := Confirm(b, trouble);
    }

    // ---- before it

    /** The check before waiting for the lock. */
    method Proceed(b: nat) returns (go: bool)
      requires Stands(b, Started) && Clean()
      modifies this`protocol, this`trace
      ensures Mirrors() && protocol == SetTask(old(protocol), b, if go then AwaitingLock else Finished)
      ensures go == !(Ended(batches[b].status) || batches[b].status.Committed?)
    {
      Holds();
      assert StatusFits(protocol.batches[b], protocol.tasks[b]);
      go := !(Ended(ownBatches[b].status) || (ownBatches[b].status.Committed? && ownBatches[b].active));
      Take(CheckStatus(b));
    }

    /** The first check under the lock. */
    method Claim(b: nat) returns (newest: bool)
      requires Stands(b, Locked) && Clean() && HasLock(b)
      modifies this
      ensures Mirrors() && Clean() && At(protocol, b) && HasLock(b) && data == old(data)
      ensures published == old(published) + [(data, data)] && batches[b].staged == old(batches)[b].staged
      ensures newest == (!Ended(old(batches)[b].status) && b + 1 == |batches|)
      ensures if newest then protocol.tasks[b] == Rebuilding(Begun, own) && batches[b].status.Processing?
              else protocol.tasks[b].Leaving? && batches[b].status.Superseded?
    {
      newest := !Ended(ownBatches[b].status) && b + 1 == |ownBatches|;
      if !newest {
        SetOutcome(b, Superseded);
      } else {
        ownBatches := ownBatches[b := ownBatches[b].(status := Processing)];
        Commit();
      }
      Take(CheckNewest(b));
    }

    /** The status check, and the wait for the lock unless the check ends the delivery. */
    method Approach(b: nat, trouble: Trouble) returns (exit: Option<Exit>)
      requires Stands(b, Started) && Clean()
      modifies this`batches, this`data, this`protocol, this`trace, this`ownBatches, this`own, this`commitIsFlush
      ensures Mirrors() && At(protocol, b) && !commitIsFlush && batches[b].staged == old(batches)[b].staged
      ensures match exit
              case None => Stands(b, Locked) && Clean() && HasLock(b)
              case Some(Returned) => Stands(b, Finished) && Clean() && (Ended(batches[b].status) || Live(protocol, b))
                                     && protocol.lock.holder != Some(b)
              case Some(Waiting) => Stands(b, AwaitingLock) && Clean() && protocol.lock.holder != Some(b)
              case Some(how) => Halted(b, how, trouble)
    {
      exit := Reach(b, AtStart, trouble);
      if exit.Some? { return; }
      var go := Proceed(b);
      if !go {
        Holds();
        assert StatusFits(protocol.batches[b], protocol.tasks[b]) && LockFits(protocol.lock, b, protocol.tasks[b]);
        return Some(Returned);
      }
      exit := Reach(b, AtLock, trouble);
      if exit.Some? { return; }
      var got := WaitForLock(b);
      if !got { exit := Some(Waiting); }
    }

    /** Everything up to the tentative transaction. */
    method Enter(b: nat, trouble: Trouble) returns (exit: Option<Exit>)
      requires Stands(b, Started) && Clean()
      modifies this
      ensures Mirrors() && At(protocol, b) && !commitIsFlush && batches[b].staged == old(batches)[b].staged
      ensures old(published) <= published && Harmless(|old(published)|, b, batches[b].staged)
      ensures match exit
              case None => Stands(b, Rebuilding(Begun, own)) && Clean() && HasLock(b)
              case Some(Returned) => Stands(b, Finished) && Clean() && published == old(published)
                                     && (Ended(batches[b].status) || Live(protocol, b))
                                     && protocol.lock.holder != Some(b)
              case Some(Waiting) => Stands(b, AwaitingLock) && Clean() && protocol.lock.holder != Some(b)
                                    && published == old(published)
              case Some(Concluded) => Stands(b, Leaving) && Clean() && batches[b].status.Superseded? && HasLock(b)
              case Some(how) => Halted(b, how, trouble) && published == old(published)
    {
      exit := Approach(b, trouble);
      if exit.Some? { return; }
      exit := Reach(b, AtClaim, trouble);
      if exit.Some? { return; }
      var newest := Claim(b);
      exit := if newest then None else Some(Concluded);
    }

    // ---- and after

    /** The handlers: they discard the tentative data and write the outcome, unless a statement of theirs raises. */
    method WriteOutcome(b: nat, status: Status, handling: Trouble) returns (died: bool)
      requires Mirrors() && At(protocol, b) && !commitIsFlush
      requires (status.Failed? && protocol.tasks[b].Raised?) || (status.Superseded? && protocol.tasks[b].Withdrawn?)
      modifies this
      ensures Mirrors() && Clean() && At(protocol, b) && batches[b].staged == old(batches)[b].staged
      ensures old(published) <= published && Harmless(|old(published)|, b, batches[b].staged)
      ensures died == (handling == Dies(AtOutcome)) && (died ==> Stands(b, Queued) && protocol.lock.holder != Some(b))
      ensures !died ==> (HasLock(b) <==> old(HasLock(b))) && protocol.tasks[b] == Written(handling)
      ensures if Written(handling).Leaving? && !died then batches[b] == Batch(status, false, batches[b].staged)
              else published == old(published)
    {
      Rollback();
      Pause(b);
      died := handling == Dies(AtOutcome);
      if died {
        Die(b);
      } else if handling == Raises(AtOutcome) {
        Take(HandlerRaises(b));
      } else {
        SetOutcome(b, status);
        Take(if status.Failed? then RecordFailure(b) else Withdraw(b));
      }
    }

    /** The unlock statement runs if the lock was acquired. When it raises, the exception is swallowed, and the lock
        stays with the connection. */
    method Leave(b: nat, leaving: Trouble) returns (died: bool)
      requires Mirrors() && At(protocol, b) && protocol.tasks[b] in {Leaving, Propagating} && Clean()
      modifies this`batches, this`data, this`protocol, this`trace, this`ownBatches, this`own, this`commitIsFlush
      ensures Clean() && died == (leaving == Dies(AtRelease))
      ensures Stands(b, if died then Queued else AfterLeaving(old(protocol.tasks)[b]))
      ensures protocol.lock.holder != Some(b)
      ensures old(protocol.lock.holder) == Some(b) ==>
                protocol.lock == Lock(None, leaving == Raises(AtRelease) || (old(protocol.lock.kept) && !died))
      ensures batches[b] == old(batches)[b] || batches[b] == old(batches)[b].(status := Superseded, active := false)
    {
      Pause(b);
      died := leaving == Dies(AtRelease);
      if died {
        Die(b);
      } else {
        Take(if leaving == Raises(AtRelease) && protocol.lock.holder == Some(b) then KeepLock(b) else Release(b));
      }
    }

    // ---- the whole delivery

    /** The guarded part of the task: the lock, the check, the tentative transaction, the check, the activation. */
    method Attempt(b: nat, trouble: Trouble) returns (exit: Exit)
      requires Stands(b, Started) && Clean()
      modifies this
      ensures Mirrors() && At(protocol, b) && !commitIsFlush && batches[b].staged == old(batches)[b].staged
      ensures old(published) <= published && Harmless(|old(published)|, b, batches[b].staged)
      ensures Locks(exit, trouble) ==> HasLock(b)
      ensures match exit
              case Returned => Stands(b, Finished) && Clean() && (Ended(batches[b].status) || Live(protocol, b))
                               && protocol.lock.holder != Some(b)
              case Waiting => Stands(b, AwaitingLock) && Clean() && protocol.lock.holder != Some(b)
              case Concluded => Stands(b, Leaving) && Clean() && (Live(protocol, b) || batches[b].status.Superseded?)
              case Outdated => Stands(b, Withdrawn)
              case Threw => Stands(b, Raised) && !trouble.Smooth?
              case Escaped => false
              case Died => Halted(b, Died, trouble)
    {
      var halt := Enter(b, trouble);
      if halt.Some? { return halt.value; }
      commitIsFlush := true;
      halt := Rebuild(b, trouble);
      if halt.Some? { return halt.value; }
      exit := Conclude(b, trouble);
    }

    /** What the handlers make of an attempt. */
    method Settle(b: nat, attempted: Exit, trouble: Trouble, handling: Trouble) returns (exit: Exit)
      requires Mirrors() && At(protocol, b) && !commitIsFlush && (Locks(attempted, trouble) ==> HasLock(b))
      requires match attempted
               case Concluded => Stands(b, Leaving) && Clean() && (Live(protocol, b) || batches[b].status.Superseded?)
               case Outdated => Stands(b, Withdrawn)
               case Threw => Stands(b, Raised) && !trouble.Smooth?
               case _ => false
      modifies this
      ensures Mirrors() && Clean() && At(protocol, b) && batches[b].staged == old(batches)[b].staged
      ensures old(published) <= published && Harmless(|old(published)|, b, batches[b].staged)
      ensures Locks(exit, trouble) ==> HasLock(b)
      ensures match exit
              case Concluded => Stands(b, Leaving) && (Live(protocol, b) || batches[b].status.Superseded?)
              case Outdated => Stands(b, Leaving) && batches[b].status.Superseded?
              case Threw => Stands(b, Leaving) && batches[b].status.Failed? && !trouble.Smooth?
              case Escaped => Stands(b, Propagating) && handling == Raises(AtOutcome)
              case Died => Stands(b, Queued) && protocol.lock.holder != Some(b) && handling.Dies?
              case _ => false
    {
      exit := attempted;
      if exit.Concluded? { return; }
      var died := WriteOutcome(b, if exit.Threw? then Failed else Superseded, handling);
      if died { return Died; }
      if handling == Raises(AtOutcome) { exit := Escaped; }
    }

    /** One delivery of batch `b` among other sessions. `trouble` strikes in the guarded part, `handling` in the
        handlers and `leaving` at the release; each strikes wherever it likes or not at all. The lock is given up
        exactly when the unlock statement did not raise, or the process ended. */
    method Process(b: nat, trouble: Trouble, handling: Trouble, leaving: Trouble) returns (exit: Exit)
      requires Stands(b, Started) && Clean()
      modifies this
      ensures Mirrors() && Clean() && At(protocol, b) && protocol.lock.holder != Some(b)
      ensures old(published) <= published && Harmless(|old(published)|, b, batches[b].staged)
      ensures Locks(exit, trouble) ==>
                protocol.lock.holder.None? && (leaving == Raises(AtRelease) ==> protocol.lock.kept)
                && (protocol.lock.kept ==> leaving == Raises(AtRelease) || reuses)
      ensures match exit
              case Returned => Stands(b, Finished) && (Ended(batches[b].status) || Live(protocol, b))
              case Waiting => Stands(b, AwaitingLock)
              case Concluded => Stands(b, Finished) && (Live(protocol, b) || batches[b].status.Superseded?)
              case Outdated => Stands(b, Finished) && batches[b].status.Superseded?
              case Threw => Stands(b, Finished) && Ended(batches[b].status) && !trouble.Smooth?
              case Escaped => Stands(b, Queued) && handling == Raises(AtOutcome)
              case Died => Stands(b, Queued) && (trouble.Dies? || handling.Dies? || leaving.Dies?)
    {
      exit := Attempt(b, trouble);
      if exit.Returned? || exit.Waiting? || exit.Died? { return; }
      exit := Settle(b, exit, trouble, handling);
      if exit.Died? { return; }
      var died := Leave(b, leaving);
      if died { exit := Died; }
    }
  }
}
