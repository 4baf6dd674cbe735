/** The dataset activation protocol of one tenant: uploads insert batches at any moment, and
    workers serialised by an advisory lock rebuild the dataset in one tentative transaction.

    A batch is named by its position in `State.batches`, which is its `created_at` order.
    Visible data (`State.data`) and the transaction of a worker (`Rebuilding.tx`,
    `Confirmed.tx`) are separate, because the commits of the inner services are flushes there. */
module Activation {

  import opened Wrappers

  /** `Staging` stands for UPLOADED, PARSED, MAPPED and VALIDATED. */
  datatype Status = Staging | Processing | Committed | Superseded | Failed

  datatype Batch = Batch(status: Status, active: bool, staged: seq<int>)

  datatype CanonicalRow = CanonicalRow(batch: nat, content: int)

  datatype Snapshot = Snapshot(batch: nat, payload: seq<CanonicalRow>, active: bool)

  datatype Data = Data(rows: seq<CanonicalRow>, snapshots: seq<Snapshot>)

  datatype Stage = Begun | Cleared | Loaded | Analysed

  /** Where the upload or the (single) delivery of a batch stands. */
  datatype Task =
    | Uploading
    | Abandoned                            // the upload failed, nothing was queued
    | Queued
    | Started                              // before the first status check
    | AwaitingLock
    | Locked
    | Rebuilding(stage: Stage, tx: Data)   // inside the tentative transaction
    | Confirmed(tx: Data)                  // second newest-batch check passed
    | Withdrawn                            // rolled back: a newer upload exists
    | Raised                               // rolled back: an exception was caught
    | Leaving                              // outcome written, lock (if any) still held
    | Propagating                          // a handler raised, outcome not written, lock (if any) still held
    | Finished

  /** The advisory lock belongs to a database session. `holder` is the running delivery that has it; it is `kept`
      when a delivery that is over has left it with its pooled connection. */
  datatype Lock = Lock(holder: Option<nat>, kept: bool)

  /** `activated` is a history variable: the batches activated so far, in order. */
  datatype State = State(batches: seq<Batch>, tasks: seq<Task>, lock: Lock, data: Data,
                         activated: seq<nat>)

  datatype Step =
    | Upload(staged: seq<int>)
    | Parse(b: nat)
    | FailUpload(b: nat)
    | Enqueue(b: nat)
    | Deliver(b: nat)
    | CheckStatus(b: nat)
    | AcquireLock(b: nat)
    | Reenter(b: nat)                      // takes the kept lock: the delivery runs on the connection that has it
    | CheckNewest(b: nat)
    | ResetDataset(b: nat)
    | CommitToCanonical(b: nat)
    | RunAnalytics(b: nat)
    | Recheck(b: nat)
    | Activate(b: nat)
    | ActivateUnacknowledged(b: nat)       // the commit succeeds but raises in the client
    | Withdraw(b: nat)
    | Raise(b: nat)
    | RecordFailure(b: nat)
    | HandlerRaises(b: nat)                // a statement of an exception handler raises
    | Release(b: nat)
    | KeepLock(b: nat)                     // the unlock statement raises, which is swallowed
    | Crash(b: nat)                        // the process ends, and its database session with it
    | Disconnect                           // the pooled connection with the kept lock is closed
    | Redeliver(b: nat)

  const FREE := Lock(None, false)

  const INIT := State([], [], FREE, Data([], []), [])

  // ---------------------------------------------------------------- the services' writes

  function Derived(b: nat, staged: seq<int>): (rows: seq<CanonicalRow>)
    ensures |rows| == |staged|
    ensures forall k :: 0 <= k < |rows| ==> rows[k].batch == b && rows[k].content == staged[k]
  {
    seq(|staged|, k requires 0 <= k < |staged| => CanonicalRow(b, staged[k]))
  }

  function Deactivated(snapshots: seq<Snapshot>): seq<Snapshot> {
    seq(|snapshots|, k requires 0 <= k < |snapshots| => snapshots[k].(active := false))
  }

  function PersistSnapshot(data: Data, b: nat): Data {
    data.(snapshots := Deactivated(data.snapshots) + [Snapshot(b, data.rows, true)])
  }

  function ActivateBatch(batches: seq<Batch>, b: nat): seq<Batch>
    requires b < |batches|
  {
    seq(|batches|, k requires 0 <= k < |batches| =>
      if k < b then batches[k].(status := Superseded, active := false)
      else if k == b then batches[k].(status := Committed, active := true)
      else batches[k])
  }

  // ---------------------------------------------------------------- steps

  predicate Ended(status: Status) { status.Superseded? || status.Failed? }

  predicate InsideLock(t: Task) { t.Locked? || t.Rebuilding? || t.Confirmed? || t.Withdrawn? }

  predicate Running(t: Task) {
    t.Started? || t.AwaitingLock? || InsideLock(t) || t.Raised? || t.Leaving? || t.Propagating?
  }

  predicate Newest(s: State, b: nat) { b + 1 == |s.batches| }

  predicate At(s: State, b: nat) { b < |s.tasks| && b < |s.batches| }

  predicate Enabled(s: State, step: Step) {
    match step
    case Upload(_) => true
    case Parse(b) => At(s, b) && s.tasks[b].Uploading?
    case FailUpload(b) => At(s, b) && s.tasks[b].Uploading?
    case Enqueue(b) => At(s, b) && s.tasks[b].Uploading?
    case Deliver(b) => At(s, b) && s.tasks[b].Queued?
    case CheckStatus(b) => At(s, b) && s.tasks[b].Started?
    case AcquireLock(b) => At(s, b) && s.tasks[b].AwaitingLock? && s.lock == FREE
    case Reenter(b) => At(s, b) && s.tasks[b].AwaitingLock? && s.lock.holder.None? && s.lock.kept
    case CheckNewest(b) => At(s, b) && s.tasks[b].Locked?
    case ResetDataset(b) => At(s, b) && s.tasks[b].Rebuilding? && s.tasks[b].stage.Begun?
    case CommitToCanonical(b) => At(s, b) && s.tasks[b].Rebuilding? && s.tasks[b].stage.Cleared?
    case RunAnalytics(b) => At(s, b) && s.tasks[b].Rebuilding? && s.tasks[b].stage.Loaded?
    case Recheck(b) => At(s, b) && s.tasks[b].Rebuilding? && s.tasks[b].stage.Analysed?
    case Activate(b) => At(s, b) && s.tasks[b].Confirmed?
    case ActivateUnacknowledged(b) => At(s, b) && s.tasks[b].Confirmed?
    case Withdraw(b) => At(s, b) && s.tasks[b].Withdrawn?
    case Raise(b) => At(s, b) && (s.tasks[b].Started? || s.tasks[b].AwaitingLock? || s.tasks[b].Locked?
                                  || s.tasks[b].Rebuilding? || s.tasks[b].Confirmed?)
    case RecordFailure(b) => At(s, b) && s.tasks[b].Raised?
    case HandlerRaises(b) => At(s, b) && (s.tasks[b].Raised? || s.tasks[b].Withdrawn?)
    case Release(b) => At(s, b) && (s.tasks[b].Leaving? || s.tasks[b].Propagating?)
    case KeepLock(b) => At(s, b) && (s.tasks[b].Leaving? || s.tasks[b].Propagating?) && s.lock.holder == Some(b)
    case Crash(b) => At(s, b) && Running(s.tasks[b])
    case Disconnect => s.lock.holder.None? && s.lock.kept
    case Redeliver(b) => At(s, b) && s.tasks[b].Finished?
  }

  function SetTask(s: State, b: nat, t: Task): State
    requires At(s, b)
  {
    s.(tasks := s.tasks[b := t])
  }

  function SetStatus(s: State, b: nat, status: Status, t: Task): State
    requires At(s, b)
  {
    s.(batches := s.batches[b := s.batches[b].(status := status, active := false)], tasks := s.tasks[b := t])
  }

  /** The lock once `b` no longer has it, and whether a session that is over still does. */
  function Without(lock: Lock, b: nat, kept: bool): Lock {
    if lock.holder == Some(b) then Lock(None, kept) else lock
  }

  /** A delivery whose outcome is not written is delivered again. */
  function AfterLeaving(t: Task): Task { if t.Propagating? then Queued else Finished }

  function Publish(s: State, b: nat, t: Task): State
    requires At(s, b) && s.tasks[b].Confirmed?
  {
    s.(batches := ActivateBatch(s.batches, b), data := s.tasks[b].tx, tasks := s.tasks[b := t],
       activated := s.activated + [b])
  }

  function Apply(s: State, step: Step): State
    requires Enabled(s, step)
  {
    match step
    case Upload(staged) =>
      s.(batches := s.batches + [Batch(Staging, false, staged)], tasks := s.tasks + [Uploading])
    case Parse(b) => s.(batches := s.batches[b := s.batches[b].(status := Staging)])
    case FailUpload(b) => s.(batches := s.batches[b := s.batches[b].(status := Failed)],
                             tasks := s.tasks[b := Abandoned])
    case Enqueue(b) => SetStatus(s, b, Processing, Queued)
    case Deliver(b) => SetTask(s, b, Started)
    case CheckStatus(b) =>
      var batch := s.batches[b];
      if Ended(batch.status) || (batch.status.Committed? && batch.active) then SetTask(s, b, Finished)
      else SetTask(s, b, AwaitingLock)
    case AcquireLock(b) => SetTask(s, b, Locked).(lock := s.lock.(holder := Some(b)))
    case Reenter(b) => SetTask(s, b, Locked).(lock := s.lock.(holder := Some(b)))
    case CheckNewest(b) =>
      if Ended(s.batches[b].status) || !Newest(s, b) then SetStatus(s, b, Superseded, Leaving)
      else s.(batches := s.batches[b := s.batches[b].(status := Processing)],
              tasks := s.tasks[b := Rebuilding(Begun, s.data)])
    case ResetDataset(b) => SetTask(s, b, Rebuilding(Cleared, s.tasks[b].tx.(rows := [])))
    case CommitToCanonical(b) =>
      var tx := s.tasks[b].tx;
      SetTask(s, b, Rebuilding(Loaded, tx.(rows := tx.rows + Derived(b, s.batches[b].staged))))
    case RunAnalytics(b) => SetTask(s, b, Rebuilding(Analysed, PersistSnapshot(s.tasks[b].tx, b)))
    case Recheck(b) => SetTask(s, b, if Newest(s, b) then Confirmed(s.tasks[b].tx) else Withdrawn)
    case Activate(b) => Publish(s, b, Leaving)
    case ActivateUnacknowledged(b) => Publish(s, b, Raised)
    case Withdraw(b) => SetStatus(s, b, Superseded, Leaving)
    case Raise(b) => SetTask(s, b, Raised)
    case RecordFailure(b) => SetStatus(s, b, Failed, Leaving)
    case HandlerRaises(b) => SetTask(s, b, Propagating)
    case Release(b) => SetTask(s, b, AfterLeaving(s.tasks[b])).(lock := Without(s.lock, b, s.lock.kept))
    case KeepLock(b) => SetTask(s, b, AfterLeaving(s.tasks[b])).(lock := Without(s.lock, b, true))
    case Crash(b) => SetTask(s, b, Queued).(lock := Without(s.lock, b, false))
    case Disconnect => s.(lock := FREE)
    case Redeliver(b) => SetTask(s, b, Queued)
  }

  ghost predicate ValidRun(s: State, steps: seq<Step>)
    decreases |steps|
  {
    steps == [] || (Enabled(s, steps[0]) && ValidRun(Apply(s, steps[0]), steps[1..]))
  }

  ghost function Run(s: State, steps: seq<Step>): State
    requires ValidRun(s, steps)
    decreases |steps|
  {
    if steps == [] then s else Run(Apply(s, steps[0]), steps[1..])
  }

  // ---------------------------------------------------------------- what a reader may rely on

  predicate Live(s: State, b: nat) { b < |s.batches| && s.batches[b].status.Committed? && s.batches[b].active }

  ghost predicate HasLive(s: State) { exists b: nat :: Live(s, b) }

  /** The visible rows are exactly those of `b`, and the one active snapshot was computed from them. */
  ghost predicate Serves(data: Data, b: nat, staged: seq<int>) {
    && |data.rows| == |staged|
    && (forall k :: 0 <= k < |staged| ==> data.rows[k].batch == b && data.rows[k].content == staged[k])
    && |data.snapshots| > 0
    && data.snapshots[|data.snapshots| - 1] == Snapshot(b, data.rows, true)
    && (forall k :: 0 <= k < |data.snapshots| - 1 ==> !data.snapshots[k].active)
  }

  ghost predicate Safe(s: State) {
    && (forall a: nat, b: nat :: Live(s, a) && Live(s, b) ==> a == b)
    && (forall b: nat :: Live(s, b) ==> Serves(s.data, b, s.batches[b].staged))
    && (forall b: nat :: b < |s.batches| ==> (s.batches[b].active <==> s.batches[b].status.Committed?))
  }

  // ---------------------------------------------------------------- the inductive invariant

  ghost predicate TxAgrees(data: Data, b: nat, staged: seq<int>, t: Task) {
    match t
    case Rebuilding(Begun, tx) => tx == data
    case Rebuilding(Cleared, tx) => tx == data.(rows := [])
    case Rebuilding(Loaded, tx) => tx == data.(rows := Derived(b, staged))
    case Rebuilding(Analysed, tx) => tx == PersistSnapshot(data.(rows := Derived(b, staged)), b)
    case Confirmed(tx) => tx == PersistSnapshot(data.(rows := Derived(b, staged)), b)
    case _ => true
  }

  /** What the status of a batch can be, given its task. */
  ghost predicate StatusFits(batch: Batch, t: Task) {
    && (batch.active <==> batch.status.Committed?)
    && (t.Abandoned? ==> Ended(batch.status))
    && (t.Finished? || t.Leaving? ==> Ended(batch.status) || batch.status.Committed?)
    && (t.Uploading? || t.AwaitingLock? || InsideLock(t) ==> !batch.status.Committed?)
    && (t.AwaitingLock? || InsideLock(t) ==> !batch.status.Failed?)
    && (t.Rebuilding? || t.Confirmed? ==> batch.status.Processing?)
  }

  ghost predicate LockFits(lock: Lock, b: nat, t: Task) {
    && (InsideLock(t) ==> lock.holder == Some(b))
    && (lock.holder == Some(b) ==> InsideLock(t) || t.Raised? || t.Leaving? || t.Propagating?)
  }

  ghost predicate HistoryFits(s: State, b: nat)
    requires At(s, b)
  {
    var t := s.tasks[b];
    && (b in s.activated ==> Ended(s.batches[b].status) || s.batches[b].status.Committed?)
    && (t.Uploading? || t.AwaitingLock? || t.Locked? || t.Rebuilding? || t.Confirmed? ==> b !in s.activated)
    && (t.Rebuilding? || t.Confirmed? ==> forall a :: a in s.activated ==> a < b)
    && (s.batches[b].status.Committed? ==> |s.activated| > 0 && s.activated[|s.activated| - 1] == b)
    && (s.batches[b].status.Superseded? || t.Withdrawn? ==> !Newest(s, b))
  }

  ghost predicate Increasing(xs: seq<nat>) { forall i, j :: 0 <= i < j < |xs| ==> xs[i] < xs[j] }

  ghost predicate Inv(s: State) {
    && |s.tasks| == |s.batches|
    && Increasing(s.activated)
    && (forall a :: a in s.activated ==> a < |s.batches|)
    && (s.lock.holder.Some? ==> s.lock.holder.value < |s.tasks|)
    && (forall b: nat :: b < |s.batches| ==> StatusFits(s.batches[b], s.tasks[b]))
    && (forall b: nat :: b < |s.batches| ==> LockFits(s.lock, b, s.tasks[b]))
    && (forall b: nat :: b < |s.batches| ==> HistoryFits(s, b))
    && (forall b: nat :: b < |s.batches| ==> TxAgrees(s.data, b, s.batches[b].staged, s.tasks[b]))
    && (forall b: nat :: b < |s.batches| && s.batches[b].status.Committed? ==> Serves(s.data, b, s.batches[b].staged))
  }

  lemma StepKeepsInv(s: State, step: Step)
    requires Inv(s) && Enabled(s, step)
    ensures Inv(Apply(s, step))
  {
    if step.Activate? {
      PublishKeepsInv(s, step.b, Leaving);
    } else if step.ActivateUnacknowledged? {
      PublishKeepsInv(s, step.b, Raised);
    } else if step.Upload? {
      UploadKeepsInv(s, step.staged);
    } else if step.Disconnect? {
      DisconnectKeepsInv(s);
    } else {
      var s', b := Apply(s, step), step.b;
      if HoldsTransaction(step) {
        TransactionStepFits(s, step);
      } else if WritesOutcome(step) {
        OutcomeStepFits(s, step);
      } else if MovesLock(step) {
        LockStepFits(s, step);
      } else {
        OtherStepFits(s, step);
      }
      LocalChangeKeepsInv(s, b, s'.batches[b], s'.tasks[b], s'.lock);
    }
  }

  lemma UploadKeepsInv(s: State, staged: seq<int>)
    requires Inv(s)
    ensures Inv(Apply(s, Upload(staged)))
  {
    var s' := Apply(s, Upload(staged));
    forall k: nat | k < |s.batches| ensures HistoryFits(s', k) { assert HistoryFits(s, k); }
  }

  lemma DisconnectKeepsInv(s: State)
    requires Inv(s) && Enabled(s, Disconnect)
    ensures Inv(Apply(s, Disconnect))
  {
    var s' := Apply(s, Disconnect);
    forall k: nat | k < |s.batches| ensures HistoryFits(s', k) { assert HistoryFits(s, k); }
  }

  function Changed(s: State, b: nat, batch: Batch, t: Task, lock: Lock): State
    requires At(s, b)
  {
    s.(batches := s.batches[b := batch], tasks := s.tasks[b := t], lock := lock)
  }

  ghost predicate Local(s: State, b: nat, batch: Batch, t: Task, lock: Lock)
    requires At(s, b)
  {
    && StatusFits(batch, t) && LockFits(lock, b, t) && HistoryFits(Changed(s, b, batch, t, lock), b)
    && TxAgrees(s.data, b, batch.staged, t)
    && batch.staged == s.batches[b].staged
    && (batch.status.Committed? ==> s.batches[b].status.Committed?)
    && (lock.holder == s.lock.holder || (s.lock.holder.None? && lock.holder == Some(b))
        || (s.lock.holder == Some(b) && lock.holder.None?))
  }

  /** A step of no batch that exists already. */
  predicate Impersonal(step: Step) { step.Upload? || step.Disconnect? }

  predicate TouchesOneBatch(step: Step) { !Impersonal(step) && !step.Activate? && !step.ActivateUnacknowledged? }

  predicate HoldsTransaction(step: Step) {
    step.CheckNewest? || step.ResetDataset? || step.CommitToCanonical? || step.RunAnalytics? || step.Recheck?
      || step.Withdraw?
  }

  ghost predicate OwnStep(s: State, step: Step)
    requires Enabled(s, step) && TouchesOneBatch(step)
  {
    var s', b := Apply(s, step), step.b;
    && At(s, b) && At(s', b)
    && s' == Changed(s, b, s'.batches[b], s'.tasks[b], s'.lock)
    && Local(s, b, s'.batches[b], s'.tasks[b], s'.lock)
  }

  lemma TransactionStepFits(s: State, step: Step)
    requires Inv(s) && Enabled(s, step) && HoldsTransaction(step)
    ensures OwnStep(s, step)
  {
    var b := step.b;
    assert StatusFits(s.batches[b], s.tasks[b]) && LockFits(s.lock, b, s.tasks[b]);
    assert HistoryFits(s, b) && TxAgrees(s.data, b, s.batches[b].staged, s.tasks[b]);
    assert [] + Derived(b, s.batches[b].staged) == Derived(b, s.batches[b].staged);
  }

  predicate WritesOutcome(step: Step) { step.Parse? || step.FailUpload? || step.Enqueue? || step.RecordFailure? }

  lemma OutcomeStepFits(s: State, step: Step)
    requires Inv(s) && Enabled(s, step) && WritesOutcome(step)
    ensures OwnStep(s, step)
  {
    var b := step.b;
    assert StatusFits(s.batches[b], s.tasks[b]) && LockFits(s.lock, b, s.tasks[b]);
    assert HistoryFits(s, b) && TxAgrees(s.data, b, s.batches[b].staged, s.tasks[b]);
  }

  predicate MovesLock(step: Step) {
    step.AcquireLock? || step.Reenter? || step.HandlerRaises? || step.Release? || step.KeepLock? || step.Crash?
  }

  lemma LockStepFits(s: State, step: Step)
    requires Inv(s) && Enabled(s, step) && MovesLock(step)
    ensures OwnStep(s, step)
  {
    var b := step.b;
    assert StatusFits(s.batches[b], s.tasks[b]) && LockFits(s.lock, b, s.tasks[b]);
    assert HistoryFits(s, b);
  }

  lemma OtherStepFits(s: State, step: Step)
    requires Inv(s) && Enabled(s, step) && TouchesOneBatch(step)
    requires !HoldsTransaction(step) && !WritesOutcome(step) && !MovesLock(step)
    ensures OwnStep(s, step)
  {
    var b := step.b;
    assert StatusFits(s.batches[b], s.tasks[b]) && LockFits(s.lock, b, s.tasks[b]);
    assert HistoryFits(s, b) && TxAgrees(s.data, b, s.batches[b].staged, s.tasks[b]);
  }

  lemma LocalChangeKeepsInv(s: State, b: nat, batch: Batch, t: Task, lock: Lock)
    requires Inv(s) && At(s, b) && Local(s, b, batch, t, lock)
    ensures Inv(Changed(s, b, batch, t, lock))
  {
    var s' := Changed(s, b, batch, t, lock);
    forall k: nat | k < |s.batches| ensures HistoryFits(s', k) { assert HistoryFits(s, k); }
  }

  lemma PublishKeepsInv(s: State, b: nat, t: Task)
    requires Inv(s) && At(s, b) && s.tasks[b].Confirmed? && (t.Leaving? || t.Raised?)
    ensures Inv(Publish(s, b, t))
  {
    var s' := Publish(s, b, t);
    assert HistoryFits(s, b) && TxAgrees(s.data, b, s.batches[b].staged, s.tasks[b]);
    assert Increasing(s'.activated) by {
      forall i, j | 0 <= i < j < |s'.activated| ensures s'.activated[i] < s'.activated[j] {
        assert s'.activated[i] in s.activated;
      }
    }
    assert s'.activated[|s'.activated| - 1] == b;
    forall k: nat | k < |s.batches|
      ensures HistoryFits(s', k)
      ensures s'.batches[k].status.Committed? ==> k == b
      ensures TxAgrees(s'.data, k, s'.batches[k].staged, s'.tasks[k])
    {
      assert HistoryFits(s, k) && LockFits(s.lock, k, s.tasks[k]);
      if s.batches[k].status.Committed? { assert k in s.activated; }
    }
  }

  // ---------------------------------------------------------------- results over every run

  lemma {:induction false} RunKeepsInv(s: State, steps: seq<Step>)
    requires Inv(s) && ValidRun(s, steps)
    ensures Inv(Run(s, steps))
    decreases |steps|
  {
    if steps != [] {
      StepKeepsInv(s, steps[0]);
      RunKeepsInv(Apply(s, steps[0]), steps[1..]);
    }
  }

  lemma LiveIsUnique(s: State)
    requires Inv(s)
    ensures forall a: nat, b: nat :: Live(s, a) && Live(s, b) ==> a == b
  {
    forall a: nat, b: nat | Live(s, a) && Live(s, b) ensures a == b {
      assert HistoryFits(s, a) && HistoryFits(s, b);
    }
  }

  lemma {:induction false} RunExtends(s: State, steps: seq<Step>, step: Step)
    requires ValidRun(s, steps) && Enabled(Run(s, steps), step)
    ensures ValidRun(s, steps + [step]) && Run(s, steps + [step]) == Apply(Run(s, steps), step)
    decreases |steps|
  {
    if steps == [] {
      assert steps + [step] == [step];
      assert [step][1..] == [];
    } else {
      RunExtends(Apply(s, steps[0]), steps[1..], step);
      assert (steps + [step])[1..] == steps[1..] + [step];
    }
  }

  /** Over any interleaving of uploads, workers, failures, crashes and redeliveries: at most one
      batch is committed and active, and the visible rows and the active snapshot are its own. */
  lemma RunIsSafe(steps: seq<Step>)
    requires ValidRun(INIT, steps)
    ensures Safe(Run(INIT, steps))
  {
    RunKeepsInv(INIT, steps);
    var s := Run(INIT, steps);
    forall b: nat | b < |s.batches| ensures s.batches[b].active <==> s.batches[b].status.Committed? {
      assert StatusFits(s.batches[b], s.tasks[b]);
    }
    LiveIsUnique(s);
  }

  /** Once a dataset is live, a step leaves none live exactly when it records a failure for the
      live batch itself. */
  lemma LostExactlyByItsOwnFailure(s: State, step: Step)
    requires Inv(s) && HasLive(s) && Enabled(s, step)
    ensures !HasLive(Apply(s, step)) <==> step.RecordFailure? && Live(s, step.b)
  {
    StepKeepsInv(s, step);
    var s' := Apply(s, step);
    var c: nat :| Live(s, c);
    assert HistoryFits(s, c) && StatusFits(s.batches[c], s.tasks[c]);
    LiveIsUnique(s);
    if step.RecordFailure? {
      var b := step.b;
      assert b != c ==> Live(s', c);
      assert forall k: nat :: Live(s', k) ==> Live(s, k) && k != b;
    } else if step.Activate? || step.ActivateUnacknowledged? {
      assert Live(s', step.b);
    } else {
      assert Live(s', c);
    }
  }

  /** The live batch can only reach its own failure handler from a redelivery whose first
      status query raised, or from a commit that succeeded but raised. */
  lemma WhoRaisesForTheLiveBatch(s: State, step: Step)
    requires Inv(s) && Enabled(s, step) && !Impersonal(step) && step.b < |s.batches|
    requires Apply(s, step).tasks[step.b].Raised? && Live(Apply(s, step), step.b)
    ensures (step.Raise? && s.tasks[step.b].Started? && Live(s, step.b)) || step.ActivateUnacknowledged?
  {
    assert StatusFits(s.batches[step.b], s.tasks[step.b]);
  }

  /** No query of a redelivery of the live batch raises, and no commit succeeds and then raises. */
  ghost predicate Undisturbed(s: State, steps: seq<Step>)
    requires ValidRun(s, steps)
    decreases |steps|
  {
    steps == [] || (!Disturbs(s, steps[0]) && Undisturbed(Apply(s, steps[0]), steps[1..]))
  }

  predicate Disturbs(s: State, step: Step) {
    step.ActivateUnacknowledged? || (step.Raise? && At(s, step.b) && s.tasks[step.b].Started? && Live(s, step.b))
  }

  /** The live batch is not on its way to its own failure handler. */
  ghost predicate Calm(s: State) { forall b: nat :: Live(s, b) && At(s, b) ==> !s.tasks[b].Raised? }

  lemma StepStaysCalm(s: State, step: Step)
    requires Inv(s) && Enabled(s, step) && Calm(s) && !Disturbs(s, step)
    ensures Calm(Apply(s, step))
  {
    var s' := Apply(s, step);
    forall b: nat | Live(s', b) && At(s', b) ensures !s'.tasks[b].Raised? {
      if !Impersonal(step) && step.b == b {
        if s'.tasks[b].Raised? { WhoRaisesForTheLiveBatch(s, step); }
      } else {
        assert Live(s, b) && s'.tasks[b] == s.tasks[b];
      }
    }
  }

  /** Unless a query of a redelivery of the live batch raises, or a commit succeeds and still raises, no failure,
      crash or supersession ever loses the prior dataset. */
  lemma {:induction false} LiveDatasetSurvives(s: State, steps: seq<Step>)
    requires Inv(s) && HasLive(s) && Calm(s) && ValidRun(s, steps) && Undisturbed(s, steps)
    ensures HasLive(Run(s, steps)) && Calm(Run(s, steps))
    decreases |steps|
  {
    if steps != [] {
      StepKeepsInv(s, steps[0]);
      LostExactlyByItsOwnFailure(s, steps[0]);
      StepStaysCalm(s, steps[0]);
      LiveDatasetSurvives(Apply(s, steps[0]), steps[1..]);
    }
  }

  // ---------------------------------------------------------------- a lock that is kept

  /** A session that is over has the lock after a step exactly if this step's unlock raised, or one had it before
      and its connection was not closed. */
  lemma KeptExactlyByFailedUnlock(s: State, step: Step)
    requires Inv(s) && Enabled(s, step)
    ensures Apply(s, step).lock.kept
            <==> step.KeepLock?
                 || (s.lock.kept && !step.Disconnect? && !(step.Crash? && s.lock.holder == Some(step.b)))
  {
  }

  predicate Reopens(step: Step) { step.Reenter? || step.Disconnect? }

  /** While the lock is kept and its connection is neither closed nor used again, no delivery gets past the lock:
      nothing is claimed, rebuilt or activated, whatever is uploaded and however often it is delivered. */
  lemma {:induction false} KeptLockShutsOut(s: State, steps: seq<Step>)
    requires Inv(s) && ValidRun(s, steps) && s.lock == Lock(None, true)
    requires forall i :: 0 <= i < |steps| ==> !Reopens(steps[i])
    ensures var t := Run(s, steps);
            && t.lock == s.lock && t.data == s.data && t.activated == s.activated
            && forall b: nat :: At(t, b) ==> !InsideLock(t.tasks[b])
    decreases |steps|
  {
    forall b: nat | At(s, b) ensures !InsideLock(s.tasks[b]) { assert LockFits(s.lock, b, s.tasks[b]); }
    if steps != [] {
      var step := steps[0];
      if !Impersonal(step) { assert LockFits(s.lock, step.b, s.tasks[step.b]); }
      StepKeepsInv(s, step);
      KeptLockShutsOut(Apply(s, step), steps[1..]);
    }
  }

  /** A batch goes live in a run from there only if the connection was closed or used again before. */
  lemma ActivatedOnlyAfterReopening(s: State, steps: seq<Step>)
    requires Inv(s) && ValidRun(s, steps) && s.lock == Lock(None, true) && Run(s, steps).activated != s.activated
    ensures exists i :: 0 <= i < |steps| && Reopens(steps[i])
  {
    if forall i :: 0 <= i < |steps| ==> !Reopens(steps[i]) { KeptLockShutsOut(s, steps); }
  }

  // ---------------------------------------------------------------- order of activations

  /** An activation is of a batch newer than every batch activated before, replaces the live one,
      and leaves every newer batch untouched. */
  lemma ActivationOnlyMovesForward(s: State, step: Step)
    requires Inv(s) && Enabled(s, step) && (step.Activate? || step.ActivateUnacknowledged?)
    ensures var s' := Apply(s, step);
            && s'.activated == s.activated + [step.b]
            && (forall a :: a in s.activated ==> a < step.b)
            && Live(s', step.b)
            && (forall k :: step.b < k < |s.batches| ==> s'.batches[k] == s.batches[k])
            && (forall k :: 0 <= k < step.b ==> s'.batches[k].status.Superseded?)
  {
    assert HistoryFits(s, step.b);
  }

  lemma RunActivatesInOrder(steps: seq<Step>)
    requires ValidRun(INIT, steps)
    ensures Increasing(Run(INIT, steps).activated)
    ensures forall b: nat :: Live(Run(INIT, steps), b) ==> b in Run(INIT, steps).activated
  {
    RunKeepsInv(INIT, steps);
    var s := Run(INIT, steps);
    forall b: nat | Live(s, b) ensures b in s.activated {
      assert HistoryFits(s, b);
    }
  }

  /** A superseded or failed batch stays so, except while its own upload is still being parsed:
      the upload then overwrites the status, and the worker will supersede it again. */
  lemma EndedIsLeftOnlyByItsUpload(s: State, step: Step, b: nat)
    requires Inv(s) && Enabled(s, step) && b < |s.batches| && Ended(s.batches[b].status)
    ensures !Ended(Apply(s, step).batches[b].status)
            <==> (step == Parse(b) || step == Enqueue(b))
  {
    assert StatusFits(s.batches[b], s.tasks[b]) && HistoryFits(s, b);
    if step.Activate? || step.ActivateUnacknowledged? {
      assert StatusFits(s.batches[step.b], s.tasks[step.b]);
    }
  }

  /** A delivery begins to rebuild only under the lock, with a batch that is not ended and the newest there is; and it
      confirms only what is the newest still when the rebuild is done. An older one is superseded. */
  lemma OnlyTheNewestIsTaken(s: State, step: Step)
    requires Inv(s) && Enabled(s, step) && (step.CheckNewest? || step.Recheck?)
    ensures var t, newest := Apply(s, step).tasks[step.b], step.b == |s.batches| - 1;
            && s.lock.holder == Some(step.b)
            && (step.CheckNewest? ==>
                && (t.Rebuilding? <==> newest && s.batches[step.b].status !in {Superseded, Failed})
                && (!t.Rebuilding? ==> t.Leaving? && Apply(s, step).batches[step.b].status == Superseded))
            && (step.Recheck? ==> (t.Confirmed? <==> newest) && (t.Withdrawn? <==> !newest))
  {
    assert LockFits(s.lock, step.b, s.tasks[step.b]);
  }

  ghost predicate Quiescent(s: State) {
    |s.tasks| == |s.batches| && forall b :: 0 <= b < |s.tasks| ==> s.tasks[b].Finished? || s.tasks[b].Abandoned?
  }

  /** When all tasks are finished, the newest batch is live or failed, never superseded. */
  lemma QuiescentNewestIsLiveOrFailed(steps: seq<Step>)
    requires ValidRun(INIT, steps) && Quiescent(Run(INIT, steps))
    ensures var s := Run(INIT, steps);
            |s.batches| > 0 ==> Live(s, |s.batches| - 1) || s.batches[|s.batches| - 1].status.Failed?
  {
    RunKeepsInv(INIT, steps);
    var s := Run(INIT, steps);
    if |s.batches| > 0 {
      var b := |s.batches| - 1;
      assert StatusFits(s.batches[b], s.tasks[b]) && HistoryFits(s, b);
    }
  }
}
