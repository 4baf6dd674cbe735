/** Two concrete runs of the activation protocol: one that loses the live dataset, and one in which an upload
    revives an ended batch. */
module ActivationRuns {
  import opened Wrappers
  import opened Activation

  lemma {:induction false} TraceIsRun(states: seq<State>, steps: seq<Step>)
    requires |states| == |steps| + 1
    requires forall i :: 0 <= i < |steps| ==>
               Enabled(states[i], steps[i]) && states[i + 1] == Apply(states[i], steps[i])
    ensures ValidRun(states[0], steps) && Run(states[0], steps) == states[|steps|]
    decreases |steps|
  {
    if steps != [] { TraceIsRun(states[1..], steps[1..]); }
  }

  function HeldBy(b: nat): Lock { Lock(Some(b), false) }

  // ---------------------------------------------------------------- a failed redelivery

  const LOSS_STEPS: seq<Step> :=
    [Upload([7]), Enqueue(0), Deliver(0), CheckStatus(0), AcquireLock(0), CheckNewest(0),
     ResetDataset(0), CommitToCanonical(0), RunAnalytics(0), Recheck(0), Activate(0),
     Crash(0), Deliver(0), Raise(0), RecordFailure(0)]

  const ACTIVATE_FIRST := LOSS_STEPS[..11]

  const FAIL_REDELIVERY := LOSS_STEPS[11..]

  /** No dataset need be live: activate, crash before the acknowledgement, and let the first query of
      the redelivery raise. The rows stay visible but no batch is live. */
  lemma LiveDatasetCanBeLost()
    ensures ValidRun(INIT, ACTIVATE_FIRST) && HasLive(Run(INIT, ACTIVATE_FIRST))
    ensures ValidRun(Run(INIT, ACTIVATE_FIRST), FAIL_REDELIVERY)
    ensures !HasLive(Run(Run(INIT, ACTIVATE_FIRST), FAIL_REDELIVERY))
  {
    LossActivates();
    LossFails();
    assert Live(Lost(11), 0);
  }

  lemma LossActivates()
    ensures ValidRun(INIT, ACTIVATE_FIRST) && Run(INIT, ACTIVATE_FIRST) == Lost(11)
  {
    LossRunQueues();
    LossRunTakesLock();
    LossRunBegins();
    LossRunRebuilds();
    LossRunActivates();
    var states := seq(12, i requires 0 <= i < 12 => Lost(i));
    forall i | 0 <= i < 11
      ensures Enabled(states[i], ACTIVATE_FIRST[i]) && states[i + 1] == Apply(states[i], ACTIVATE_FIRST[i])
    {
      assert LossStepOk(i);
    }
    TraceIsRun(states, ACTIVATE_FIRST);
  }

  lemma LossFails()
    ensures ValidRun(Lost(11), FAIL_REDELIVERY) && Run(Lost(11), FAIL_REDELIVERY) == Lost(15)
  {
    LossRunRedelivers();
    LossRunFails();
    var states := seq(5, i requires 0 <= i < 5 => Lost(11 + i));
    forall i | 0 <= i < 4
      ensures Enabled(states[i], FAIL_REDELIVERY[i]) && states[i + 1] == Apply(states[i], FAIL_REDELIVERY[i])
    {
      assert LossStepOk(11 + i);
    }
    TraceIsRun(states, FAIL_REDELIVERY);
  }

  ghost predicate LossStepOk(i: nat) {
    i < 15 && Enabled(Lost(i), LOSS_STEPS[i]) && Lost(i + 1) == Apply(Lost(i), LOSS_STEPS[i])
  }

  lemma LossRunQueues()
    ensures forall i: nat :: 0 <= i < 3 ==> LossStepOk(i)
  {
    assert LossStepOk(0);
    assert LossStepOk(1);
    assert LossStepOk(2);
  }

  lemma LossRunTakesLock()
    ensures LossStepOk(3) && LossStepOk(4)
  {
  }

  lemma LossRunBegins()
    ensures LossStepOk(5) && LossStepOk(6)
  {
  }

  lemma LossRunRebuilds()
    ensures LossStepOk(7) && LossStepOk(8)
  {
    assert [] + Derived(0, [7]) == Derived(0, [7]);
  }

  lemma LossRunActivates()
    ensures LossStepOk(9) && LossStepOk(10)
  {
    assert ActivateBatch(Lost(10).batches, 0) == Lost(11).batches;
  }

  lemma LossRunRedelivers()
    ensures LossStepOk(11) && LossStepOk(12)
  {
  }

  lemma LossRunFails()
    ensures LossStepOk(13) && LossStepOk(14)
  {
  }

  /** The states of the losing run. */
  function Lost(i: nat): State {
    var empty, rows := Data([], []), Derived(0, [7]);
    var full := PersistSnapshot(Data(rows, []), 0);
    match i
    case 0 => INIT
    case 1 => Lone(Staging, Uploading, FREE, empty, [])
    case 2 => Lone(Processing, Queued, FREE, empty, [])
    case 3 => Lone(Processing, Started, FREE, empty, [])
    case 4 => Lone(Processing, AwaitingLock, FREE, empty, [])
    case 5 => Lone(Processing, Locked, HeldBy(0), empty, [])
    case 6 => Lone(Processing, Rebuilding(Begun, empty), HeldBy(0), empty, [])
    case 7 => Lone(Processing, Rebuilding(Cleared, empty), HeldBy(0), empty, [])
    case 8 => Lone(Processing, Rebuilding(Loaded, Data(rows, [])), HeldBy(0), empty, [])
    case 9 => Lone(Processing, Rebuilding(Analysed, full), HeldBy(0), empty, [])
    case 10 => Lone(Processing, Confirmed(full), HeldBy(0), empty, [])
    case 11 => Lone(Committed, Leaving, HeldBy(0), full, [0])
    case 12 => Lone(Committed, Queued, FREE, full, [0])
    case 13 => Lone(Committed, Started, FREE, full, [0])
    case 14 => Lone(Committed, Raised, FREE, full, [0])
    case _ => Lone(Failed, Leaving, FREE, full, [0])
  }

  function Lone(status: Status, t: Task, lock: Lock, data: Data, activated: seq<nat>): State {
    State([Batch(status, status.Committed?, [7])], [t], lock, data, activated)
  }

  // ---------------------------------------------------------------- a slow upload

  const SLOW_UPLOAD: seq<Step> :=
    [Upload([1]), Upload([2]), Enqueue(1), Deliver(1), CheckStatus(1), AcquireLock(1), CheckNewest(1),
     ResetDataset(1), CommitToCanonical(1), RunAnalytics(1), Recheck(1), Activate(1)]

  /** An ended status need not last: the second of two uploads goes live, and so supersedes the first, while the
      first is still being parsed; the status it then writes is no longer an ended one. */
  lemma SlowUploadLeavesItsEnd() returns (steps: seq<Step>, s: State)
    ensures ValidRun(INIT, steps) && s == Run(INIT, steps) && Live(s, 1)
    ensures Enabled(s, Parse(0)) && s.batches[0].status.Superseded? && !Ended(Apply(s, Parse(0)).batches[0].status)
  {
    steps, s := SlowUploadRuns();
  }

  lemma SlowUploadRuns() returns (steps: seq<Step>, s: State)
    ensures ValidRun(INIT, steps) && s == Run(INIT, steps) && s == Slow(12)
  {
    steps, s := SLOW_UPLOAD, Slow(12);
    SlowUploadBegins();
    SlowUploadLocks();
    SlowUploadRebuilds();
    SlowUploadActivates();
    var states := seq(13, i requires 0 <= i < 13 => Slow(i));
    forall i | 0 <= i < 12 ensures Enabled(states[i], steps[i]) && states[i + 1] == Apply(states[i], steps[i]) {
      assert SlowStepOk(i);
    }
    TraceIsRun(states, steps);
  }

  ghost predicate SlowStepOk(i: nat) {
    i < 12 && Enabled(Slow(i), SLOW_UPLOAD[i]) && Slow(i + 1) == Apply(Slow(i), SLOW_UPLOAD[i])
  }

  lemma SlowUploadBegins()
    ensures SlowStepOk(0) && SlowStepOk(1) && SlowStepOk(2) && SlowStepOk(3)
  {
  }

  lemma SlowUploadLocks()
    ensures SlowStepOk(4) && SlowStepOk(5) && SlowStepOk(6) && SlowStepOk(7)
  {
  }

  lemma SlowUploadRebuilds()
    ensures SlowStepOk(8) && SlowStepOk(9) && SlowStepOk(10)
  {
    assert [] + Derived(1, [2]) == Derived(1, [2]);
  }

  lemma SlowUploadActivates()
    ensures SlowStepOk(11)
  {
    assert ActivateBatch(Slow(11).batches, 1) == Slow(12).batches;
  }

  /** The states of that run. */
  function Slow(i: nat): State {
    var empty, rows := Data([], []), Derived(1, [2]);
    var full := PersistSnapshot(Data(rows, []), 1);
    match i
    case 0 => INIT
    case 1 => State([Batch(Staging, false, [1])], [Uploading], FREE, empty, [])
    case 2 => Second(Staging, Uploading, FREE, empty)
    case 3 => Second(Processing, Queued, FREE, empty)
    case 4 => Second(Processing, Started, FREE, empty)
    case 5 => Second(Processing, AwaitingLock, FREE, empty)
    case 6 => Second(Processing, Locked, HeldBy(1), empty)
    case 7 => Second(Processing, Rebuilding(Begun, empty), HeldBy(1), empty)
    case 8 => Second(Processing, Rebuilding(Cleared, empty), HeldBy(1), empty)
    case 9 => Second(Processing, Rebuilding(Loaded, Data(rows, [])), HeldBy(1), empty)
    case 10 => Second(Processing, Rebuilding(Analysed, full), HeldBy(1), empty)
    case 11 => Second(Processing, Confirmed(full), HeldBy(1), empty)
    case _ => State([Batch(Superseded, false, [1]), Batch(Committed, true, [2])], [Uploading, Leaving], HeldBy(1), full,
                    [1])
  }

  function Second(status: Status, t: Task, lock: Lock, data: Data): State {
    State([Batch(Staging, false, [1]), Batch(status, false, [2])], [Uploading, t], lock, data, [])
  }

  // ---------------------------------------------------------------- a lock that is kept

  const SHUT_OUT: seq<Step> := [KeepLock(0), Upload([8]), Enqueue(1), Deliver(1), CheckStatus(1)]

  /** A lock can be kept: the first dataset goes live, its unlock statement raises, and the next upload is parsed,
      queued and delivered, and waits for the lock that no running delivery holds. */
  lemma NextUploadIsShutOut() returns (s: State)
    ensures ValidRun(INIT, ACTIVATE_FIRST) && ValidRun(Run(INIT, ACTIVATE_FIRST), SHUT_OUT)
    ensures s == Run(Run(INIT, ACTIVATE_FIRST), SHUT_OUT) && s.lock == Lock(None, true)
    ensures Live(s, 0) && At(s, 1) && s.tasks == [Finished, AwaitingLock] && !Enabled(s, AcquireLock(1))
  {
    LossActivates();
    ShutOutWaits();
    ShutOutQueues();
    var states := seq(6, i requires 0 <= i < 6 => Shut(i));
    forall i | 0 <= i < 5 ensures Enabled(states[i], SHUT_OUT[i]) && states[i + 1] == Apply(states[i], SHUT_OUT[i]) {
      assert ShutOutOk(i);
    }
    TraceIsRun(states, SHUT_OUT);
    s := Shut(5);
  }

  ghost predicate ShutOutOk(i: nat) {
    i < 5 && Enabled(Shut(i), SHUT_OUT[i]) && Shut(i + 1) == Apply(Shut(i), SHUT_OUT[i])
  }

  lemma ShutOutQueues()
    ensures ShutOutOk(0) && ShutOutOk(1) && ShutOutOk(2)
  {
  }

  lemma ShutOutWaits()
    ensures ShutOutOk(3) && ShutOutOk(4)
  {
  }

  function Shut(i: nat): State {
    var full := PersistSnapshot(Data(Derived(0, [7]), []), 0);
    match i
    case 0 => Lost(11)
    case 1 => Lone(Committed, Finished, Lock(None, true), full, [0])
    case 2 => Waiting(Staging, Uploading, full)
    case 3 => Waiting(Processing, Queued, full)
    case 4 => Waiting(Processing, Started, full)
    case _ => Waiting(Processing, AwaitingLock, full)
  }

  function Waiting(status: Status, t: Task, data: Data): State {
    State([Batch(Committed, true, [7]), Batch(status, false, [8])], [Finished, t], Lock(None, true), data, [0])
  }
}
