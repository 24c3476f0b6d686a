/**
 The worker pool as a step system: worker goroutines, the goroutine that waits for quit, and any number
 of QueueJob calls.  A step is the code between two points where a goroutine can block or be observed.

 Worker i's private unbuffered job channel is written i; `buffer` is what the bounded channel of
 channels holds, first out first; a job is named by the QueueJob call that submits it.  QueueJob reads
 the field w.WorkerPool without the lock, so a `stale` read may miss the nil that has been stored.
 */
module PoolProtocol {
  datatype Worker =
    | Looping            // at mux.RLock
    | Locked             // read lock held, before the isStopped test
    | Registering        // at WorkerPool <- jobChannel
    | Registered         // before RUnlock
    | Waiting            // at the select
    | Executing(job: nat)
    | Leaving            // isStopped seen, before RUnlock
    | Closing            // before close(jobChannel)
    | Exited             // returned after closing its channel
    | Gone               // returned through quit, channel not closed

  datatype Caller =
    | Called(timed: bool)                     // before w.WorkerPool is read
    | Selecting(timed: bool, sees: bool)      // at the select; sees is false when the field read as nil
    | Holding(ch: nat)                        // at jobChannel <- job
    | Queued                                  // returned nil
    | Failed                                  // returned an error

  /** The goroutine started last by StartServer. */
  datatype Closer = Sleeping | WantsLock | HasLock | FlagSet | PoolCleared | Done

  datatype Pool = Pool(
    max: nat, workers: seq<Worker>, buffer: seq<nat>, poolNil: bool,
    quit: bool, isStopped: bool, closer: Closer, readers: set<nat>, writer: bool,
    closedChannels: set<nat>, callers: seq<Caller>, finished: seq<nat>)

  datatype Step =
    | RLock(i: nat) | Check(i: nat) | Register(i: nat) | RUnlock(i: nat)
    | LeaveUnlock(i: nat) | CloseChannel(i: nat) | QuitWorker(i: nat) | Finish(i: nat)
    | Call(timed: bool) | ReadPool(k: nat, stale: bool) | Take(k: nat) | TimeOut(k: nat) | GiveUp(k: nat)
    | Deliver(k: nat)
    | Stop
    | CloserWakes | CloserLocks | CloserFlags | CloserClears | CloserUnlocks

  function Init(max: nat): Pool {
    Pool(max, seq(max, _ => Looping), [], false, false, false, Sleeping, {}, false, {}, [], [])
  }

  predicate WorkerIs(s: Pool, i: nat, w: Worker) {
    i < |s.workers| && s.workers[i] == w
  }

  predicate Enabled(s: Pool, step: Step) {
    match step
    case RLock(i) => WorkerIs(s, i, Looping) && !s.writer
    case Check(i) => WorkerIs(s, i, Locked)
    case Register(i) => WorkerIs(s, i, Registering) && !s.poolNil && |s.buffer| < s.max
    case RUnlock(i) => WorkerIs(s, i, Registered)
    case LeaveUnlock(i) => WorkerIs(s, i, Leaving)
    case CloseChannel(i) => WorkerIs(s, i, Closing)
    case QuitWorker(i) => WorkerIs(s, i, Waiting) && s.quit
    case Finish(i) => i < |s.workers| && s.workers[i].Executing?
    case Call(_) => true
    case ReadPool(k, _) => k < |s.callers| && s.callers[k].Called?
    case Take(k) => k < |s.callers| && s.callers[k].Selecting? && s.callers[k].sees && |s.buffer| > 0
    case TimeOut(k) => k < |s.callers| && s.callers[k].Selecting? && s.callers[k].timed
    case GiveUp(k) => k < |s.callers| && s.callers[k].Selecting? && s.quit
    case Deliver(k) =>
      && k < |s.callers| && s.callers[k].Holding? && s.callers[k].ch !in s.closedChannels
      && WorkerIs(s, s.callers[k].ch, Waiting)
    case Stop => !s.quit
    case CloserWakes => s.closer.Sleeping? && s.quit
    case CloserLocks => s.closer.WantsLock? && s.readers == {} && !s.writer
    case CloserFlags => s.closer.HasLock?
    case CloserClears => s.closer.FlagSet?
    case CloserUnlocks => s.closer.PoolCleared?
  }

  function SetWorker(s: Pool, i: nat, w: Worker): Pool
    requires i < |s.workers|
  {
    s.(workers := s.workers[i := w])
  }

  function SetCaller(s: Pool, k: nat, c: Caller): Pool
    requires k < |s.callers|
  {
    s.(callers := s.callers[k := c])
  }

  function Apply(s: Pool, step: Step): Pool
    requires Enabled(s, step)
  {
    match step
    case RLock(i) => SetWorker(s, i, Locked).(readers := s.readers + {i})
    case Check(i) => SetWorker(s, i, if s.isStopped then Leaving else Registering)
    case Register(i) => SetWorker(s, i, Registered).(buffer := s.buffer + [i])
    case RUnlock(i) => SetWorker(s, i, Waiting).(readers := s.readers - {i})
    case LeaveUnlock(i) => SetWorker(s, i, Closing).(readers := s.readers - {i})
    case CloseChannel(i) => SetWorker(s, i, Exited).(closedChannels := s.closedChannels + {i})
    case QuitWorker(i) => SetWorker(s, i, Gone)
    case Finish(i) => SetWorker(s, i, Looping).(finished := s.finished + [s.workers[i].job])
    case Call(timed) => s.(callers := s.callers + [Called(timed)])
    case ReadPool(k, stale) => SetCaller(s, k, Selecting(s.callers[k].timed, stale || !s.poolNil))
    case Take(k) => SetCaller(s, k, Holding(s.buffer[0])).(buffer := s.buffer[1..])
    case TimeOut(k) => SetCaller(s, k, Failed)
    case GiveUp(k) => SetCaller(s, k, Failed)
    case Deliver(k) => SetCaller(SetWorker(s, s.callers[k].ch, Executing(k)), k, Queued)
    case Stop => s.(quit := true)
    case CloserWakes => s.(closer := WantsLock)
    case CloserLocks => s.(closer := HasLock, writer := true)
    case CloserFlags => s.(closer := FlagSet, isStopped := true)
    case CloserClears => s.(closer := PoolCleared, poolNil := true)
    case CloserUnlocks => s.(closer := Done, writer := false)
  }

  predicate OfWorker(step: Step) {
    step.RLock? || step.Check? || step.Register? || step.RUnlock? ||
    step.LeaveUnlock? || step.CloseChannel? || step.QuitWorker? || step.Finish?
  }

  predicate OfCaller(step: Step) {
    step.Call? || step.ReadPool? || step.Take? || step.TimeOut? || step.GiveUp? || step.Deliver?
  }

  // ---- Invariants ----

  /** The lock and the flags follow the closer; a registering worker holds the read lock of a pool not yet stopped. */
  ghost predicate LockOk(s: Pool) {
    && |s.workers| == s.max
    && (forall i | i in s.readers :: i < |s.workers|)
    && (forall i | 0 <= i < |s.workers| :: i in s.readers <==>
          s.workers[i].Locked? || s.workers[i].Registering? || s.workers[i].Registered? || s.workers[i].Leaving?)
    && (s.writer <==> s.closer.HasLock? || s.closer.FlagSet? || s.closer.PoolCleared?)
    && (s.writer ==> s.readers == {})
    && (s.isStopped <==> s.closer.FlagSet? || s.closer.PoolCleared? || s.closer.Done?)
    && (s.poolNil <==> s.closer.PoolCleared? || s.closer.Done?)
    && (!s.closer.Sleeping? ==> s.quit)
    && (forall i | 0 <= i < |s.workers| :: s.workers[i].Registering? || s.workers[i].Registered? ==> !s.isStopped)
    && (forall i | 0 <= i < |s.workers| ::
          s.workers[i].Leaving? || s.workers[i].Closing? || s.workers[i].Exited? ==> s.isStopped)
    && (forall i | 0 <= i < |s.workers| :: s.workers[i].Gone? ==> s.quit)
    && (forall i | 0 <= i < |s.workers| :: i in s.closedChannels <==> s.workers[i].Exited?)
  }

  /** A worker that has put its channel up and has not been given a job since. */
  predicate Offered(w: Worker) {
    w.Registered? || w.Waiting? || w.Gone?
  }

  ghost predicate HeldBy(s: Pool, k: nat, i: nat) {
    k < |s.callers| && s.callers[k] == Holding(i)
  }

  /** Whose a channel is: in the pool once, or with exactly one caller, or its own worker's. */
  ghost predicate OwnershipOk(s: Pool) {
    && (forall i | i in s.buffer :: i < |s.workers| && Offered(s.workers[i]))
    && (forall p, q | 0 <= p < q < |s.buffer| :: s.buffer[p] != s.buffer[q])
    && (forall k: nat, i: nat | HeldBy(s, k, i) :: i < |s.workers| && Offered(s.workers[i]) && i !in s.buffer)
    && (forall k: nat, l: nat, i: nat :: HeldBy(s, k, i) && HeldBy(s, l, i) ==> k == l)
    && (forall i | 0 <= i < |s.workers| :: Offered(s.workers[i]) ==> i in s.buffer || exists k :: HeldBy(s, k, i))
  }

  ghost predicate Executes(s: Pool, i: nat, k: nat) {
    i < |s.workers| && s.workers[i] == Executing(k)
  }

  /** A job is with a worker or finished exactly when its QueueJob has returned nil, and never twice. */
  ghost predicate JobsOk(s: Pool) {
    && (forall i: nat, k: nat | Executes(s, i, k) :: k < |s.callers| && s.callers[k].Queued? && k !in s.finished)
    && (forall k | k in s.finished :: k < |s.callers| && s.callers[k].Queued?)
    && (forall p, q | 0 <= p < q < |s.finished| :: s.finished[p] != s.finished[q])
    && (forall i: nat, j: nat, k: nat :: Executes(s, i, k) && Executes(s, j, k) ==> i == j)
    && (forall k | 0 <= k < |s.callers| && s.callers[k].Queued? :: k in s.finished || exists i :: Executes(s, i, k))
  }

  ghost predicate Inv(s: Pool) {
    LockOk(s) && OwnershipOk(s) && JobsOk(s)
  }

  lemma InitInv(max: nat)
    ensures Inv(Init(max))
  {
  }

  lemma LockStep(s: Pool, step: Step)
    requires LockOk(s) && Enabled(s, step)
    ensures LockOk(Apply(s, step))
  {
    if OfWorker(step) {
      LockStepWorker(s, step);
    } else if OfCaller(step) {
      LockStepCaller(s, step);
    }
  }

  lemma LockStepWorker(s: Pool, step: Step)
    requires LockOk(s) && Enabled(s, step) && OfWorker(step)
    ensures LockOk(Apply(s, step))
  {
    if step.RLock? || step.RUnlock? || step.LeaveUnlock? {
      LockStepReader(s, step);
    } else {
      match step
      case Check(_) =>
      case Register(_) =>
      case CloseChannel(_) =>
      case QuitWorker(_) =>
      case Finish(_) =>
    }
  }

  lemma LockStepReader(s: Pool, step: Step)
    requires LockOk(s) && Enabled(s, step) && (step.RLock? || step.RUnlock? || step.LeaveUnlock?)
    ensures LockOk(Apply(s, step))
  {
    match step
    case RLock(_) =>
    case RUnlock(_) =>
    case LeaveUnlock(_) =>
  }

  lemma LockStepCaller(s: Pool, step: Step)
    requires LockOk(s) && Enabled(s, step) && OfCaller(step)
    ensures LockOk(Apply(s, step))
  {
    match step
    case Call(_) =>
    case ReadPool(_, _) =>
    case Take(_) =>
    case TimeOut(_) =>
    case GiveUp(_) =>
    case Deliver(_) =>
  }

  /** Ownership does not care about a step that changes no offer, no holder and not the pool. */
  lemma OwnershipFrame(s: Pool, t: Pool)
    requires OwnershipOk(s)
    requires t.buffer == s.buffer && |t.workers| == |s.workers| && |s.callers| <= |t.callers|
    requires forall i | 0 <= i < |s.workers| :: Offered(t.workers[i]) <==> Offered(s.workers[i])
    requires forall k | 0 <= k < |t.callers| && t.callers[k].Holding? :: k < |s.callers| && s.callers[k] == t.callers[k]
    requires forall k | 0 <= k < |s.callers| && s.callers[k].Holding? :: t.callers[k] == s.callers[k]
    ensures OwnershipOk(t)
  {
    forall k: nat, i: nat ensures HeldBy(t, k, i) <==> HeldBy(s, k, i) {}
  }

  lemma OwnershipRegister(s: Pool, i: nat)
    requires OwnershipOk(s) && Enabled(s, Register(i))
    ensures OwnershipOk(Apply(s, Register(i)))
  {
    var t := Apply(s, Register(i));
    forall k: nat, j: nat ensures HeldBy(t, k, j) <==> HeldBy(s, k, j) {}
    assert i !in s.buffer;
    forall j | 0 <= j < |t.workers| && Offered(t.workers[j]) ensures j in t.buffer || exists k :: HeldBy(t, k, j) {
      if j == i {
        assert t.buffer[|s.buffer|] == i;
      } else if j in s.buffer {
        var p :| 0 <= p < |s.buffer| && s.buffer[p] == j;
        assert t.buffer[p] == j;
      }
    }
  }

  lemma OwnershipTake(s: Pool, k: nat)
    requires OwnershipOk(s) && Enabled(s, Take(k))
    ensures OwnershipOk(Apply(s, Take(k)))
  {
    var t, c := Apply(s, Take(k)), s.buffer[0];
    forall l: nat, i: nat ensures HeldBy(t, l, i) <==> HeldBy(s, l, i) || (l == k && i == c) {}
    assert c in s.buffer;
    forall i | i in s.buffer && i != c ensures i in t.buffer {
      var p :| 0 <= p < |s.buffer| && s.buffer[p] == i;
      assert t.buffer[p - 1] == i;
    }
    assert forall i | i in t.buffer :: i in s.buffer && i != c;
    assert HeldBy(t, k, c);
  }

  lemma OwnershipDeliver(s: Pool, k: nat)
    requires OwnershipOk(s) && Enabled(s, Deliver(k))
    ensures OwnershipOk(Apply(s, Deliver(k)))
  {
    var t, c := Apply(s, Deliver(k)), s.callers[k].ch;
    assert HeldBy(s, k, c);
    forall l: nat, i: nat ensures HeldBy(t, l, i) <==> HeldBy(s, l, i) && l != k {}
    forall l: nat | HeldBy(s, l, c) ensures l == k {}
  }

  lemma OwnershipStep(s: Pool, step: Step)
    requires OwnershipOk(s) && Enabled(s, step)
    ensures OwnershipOk(Apply(s, step))
  {
    hide OwnershipOk;
    if OfWorker(step) {
      OwnershipStepWorker(s, step);
    } else if OfCaller(step) {
      OwnershipStepCaller(s, step);
    } else {
      OwnershipFrame(s, Apply(s, step));
    }
  }

  lemma OwnershipStepWorker(s: Pool, step: Step)
    requires OwnershipOk(s) && Enabled(s, step) && OfWorker(step)
    ensures OwnershipOk(Apply(s, step))
  {
    hide OwnershipOk;
    match step
    case Register(i) => OwnershipRegister(s, i);
    case RLock(_) => OwnershipFrame(s, Apply(s, step));
    case Check(_) => OwnershipFrame(s, Apply(s, step));
    case RUnlock(_) => OwnershipFrame(s, Apply(s, step));
    case LeaveUnlock(_) => OwnershipFrame(s, Apply(s, step));
    case CloseChannel(_) => OwnershipFrame(s, Apply(s, step));
    case QuitWorker(_) => OwnershipFrame(s, Apply(s, step));
    case Finish(_) => OwnershipFrame(s, Apply(s, step));
  }

  lemma OwnershipStepCaller(s: Pool, step: Step)
    requires OwnershipOk(s) && Enabled(s, step) && OfCaller(step)
    ensures OwnershipOk(Apply(s, step))
  {
    hide OwnershipOk;
    match step
    case Take(k) => OwnershipTake(s, k);
    case Deliver(k) => OwnershipDeliver(s, k);
    case Call(_) => OwnershipFrame(s, Apply(s, step));
    case ReadPool(_, _) => OwnershipFrame(s, Apply(s, step));
    case TimeOut(_) => OwnershipFrame(s, Apply(s, step));
    case GiveUp(_) => OwnershipFrame(s, Apply(s, step));
  }

  /** The jobs do not care about a step that starts and finishes none. */
  lemma JobsFrame(s: Pool, t: Pool)
    requires JobsOk(s)
    requires t.finished == s.finished && |t.workers| == |s.workers| && |s.callers| <= |t.callers|
    requires forall i | 0 <= i < |s.workers| ::
      t.workers[i] == s.workers[i] || (!t.workers[i].Executing? && !s.workers[i].Executing?)
    requires forall k | 0 <= k < |t.callers| :: t.callers[k].Queued? <==> k < |s.callers| && s.callers[k].Queued?
    ensures JobsOk(t)
  {
    forall i: nat, k: nat ensures Executes(t, i, k) <==> Executes(s, i, k) {}
  }

  lemma JobsDeliver(s: Pool, k: nat)
    requires JobsOk(s) && Enabled(s, Deliver(k))
    ensures JobsOk(Apply(s, Deliver(k)))
  {
    var t, c := Apply(s, Deliver(k)), s.callers[k].ch;
    forall i: nat, l: nat ensures Executes(t, i, l) <==> Executes(s, i, l) || (i == c && l == k) {}
    assert Executes(t, c, k);
  }

  lemma JobsFinish(s: Pool, i: nat)
    requires JobsOk(s) && Enabled(s, Finish(i))
    ensures JobsOk(Apply(s, Finish(i)))
  {
    var t, k := Apply(s, Finish(i)), s.workers[i].job;
    assert Executes(s, i, k);
    forall j: nat, l: nat ensures Executes(t, j, l) <==> Executes(s, j, l) && j != i {}
    assert t.finished[|s.finished|] == k;
    forall l | l in s.finished ensures l in t.finished {
      var p :| 0 <= p < |s.finished| && s.finished[p] == l;
      assert t.finished[p] == l;
    }
  }

  lemma JobsStep(s: Pool, step: Step)
    requires JobsOk(s) && Enabled(s, step)
    ensures JobsOk(Apply(s, step))
  {
    hide JobsOk;
    if OfWorker(step) {
      JobsStepWorker(s, step);
    } else if step.Deliver? {
      JobsDeliver(s, step.k);
    } else {
      JobsFrame(s, Apply(s, step));
    }
  }

  lemma JobsStepWorker(s: Pool, step: Step)
    requires JobsOk(s) && Enabled(s, step) && OfWorker(step)
    ensures JobsOk(Apply(s, step))
  {
    hide JobsOk;
    match step
    case Finish(i) => JobsFinish(s, i);
    case RLock(_) => JobsFrame(s, Apply(s, step));
    case Check(_) => JobsFrame(s, Apply(s, step));
    case Register(_) => JobsFrame(s, Apply(s, step));
    case RUnlock(_) => JobsFrame(s, Apply(s, step));
    case LeaveUnlock(_) => JobsFrame(s, Apply(s, step));
    case CloseChannel(_) => JobsFrame(s, Apply(s, step));
    case QuitWorker(_) => JobsFrame(s, Apply(s, step));
  }

  lemma StepKeepsInv(s: Pool, step: Step)
    requires Inv(s) && Enabled(s, step)
    ensures Inv(Apply(s, step))
  {
    hide LockOk, OwnershipOk, JobsOk, Enabled, Apply;
    LockStep(s, step);
    OwnershipStep(s, step);
    JobsStep(s, step);
  }
}
