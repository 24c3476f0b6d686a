/** Every run of the worker pool comes to rest; what holds there; and which calls can return, stopped or not. */
module PoolProgress {
  import opened Sums
  import opened PoolProtocol
  import opened PoolTheorems

  // ---- Every run comes to rest ----

  function WorkerRank(w: Worker): nat {
    match w
    case Executing(_) => 8
    case Looping => 7
    case Locked => 6
    case Registering => 5
    case Registered => 4
    case Waiting => 3
    case Leaving => 2
    case Closing => 1
    case Exited => 0
    case Gone => 0
  }

  function CallerRank(c: Caller): nat {
    match c
    case Called(_) => 8
    case Selecting(_, _) => 7
    case Holding(_) => 6
    case Queued => 0
    case Failed => 0
  }

  function CloserRank(c: Closer): nat {
    match c
    case Sleeping => 5
    case WantsLock => 4
    case HasLock => 3
    case FlagSet => 2
    case PoolCleared => 1
    case Done => 0
  }

  function Measure(s: Pool): nat {
    Sum(s.workers, WorkerRank) + Sum(s.callers, CallerRank) + CloserRank(s.closer) + (if s.quit then 0 else 1)
  }

  lemma WorkerShrinks(s: Pool, t: Pool, i: nat)
    requires i < |s.workers| == |t.workers| && WorkerRank(t.workers[i]) < WorkerRank(s.workers[i])
    requires t.workers == s.workers[i := t.workers[i]] && t.callers == s.callers
    requires t.closer == s.closer && t.quit == s.quit
    ensures Measure(t) < Measure(s)
  {
    SumUpdate(s.workers, WorkerRank, i, t.workers[i]);
  }

  lemma CallerShrinks(s: Pool, t: Pool, k: nat)
    requires k < |s.callers| == |t.callers| && CallerRank(t.callers[k]) < CallerRank(s.callers[k])
    requires t.callers == s.callers[k := t.callers[k]] && t.workers == s.workers
    requires t.closer == s.closer && t.quit == s.quit
    ensures Measure(t) < Measure(s)
  {
    SumUpdate(s.callers, CallerRank, k, t.callers[k]);
  }

  lemma DeliverShrinks(s: Pool, k: nat)
    requires Enabled(s, Deliver(k))
    ensures Measure(Apply(s, Deliver(k))) < Measure(s)
  {
    SumUpdate(s.callers, CallerRank, k, Queued);
    SumUpdate(s.workers, WorkerRank, s.callers[k].ch, Executing(k));
  }

  lemma CloserShrinks(s: Pool, t: Pool)
    requires t.workers == s.workers && t.callers == s.callers
    requires CloserRank(t.closer) < CloserRank(s.closer) && t.quit == s.quit
    ensures Measure(t) < Measure(s)
  {
  }

  lemma StopShrinks(s: Pool)
    requires !s.quit
    ensures Measure(Apply(s, Stop)) < Measure(s)
  {
  }

  lemma CallGrows(s: Pool, timed: bool)
    ensures Measure(Apply(s, Call(timed))) == Measure(s) + 8
  {
    SumSnoc(s.callers, CallerRank, Called(timed));
  }

  lemma WorkerStepShrinks(s: Pool, step: Step)
    requires Enabled(s, step) && OfWorker(step)
    ensures Measure(Apply(s, step)) < Measure(s)
  {
    hide Measure;
    WorkerShrinks(s, Apply(s, step), step.i);
  }

  lemma CallerStepShrinks(s: Pool, step: Step)
    requires Enabled(s, step) && OfCaller(step) && !step.Call?
    ensures Measure(Apply(s, step)) < Measure(s)
  {
    hide Measure;
    if step.Deliver? {
      DeliverShrinks(s, step.k);
    } else {
      CallerShrinks(s, Apply(s, step), step.k);
    }
  }

  /** Every step but a new QueueJob call brings the measure down, whether the pool has been stopped or not. */
  lemma StepShrinks(s: Pool, step: Step)
    requires Enabled(s, step) && !step.Call?
    ensures Measure(Apply(s, step)) < Measure(s)
  {
    hide Measure;
    if OfWorker(step) {
      WorkerStepShrinks(s, step);
    } else if OfCaller(step) {
      CallerStepShrinks(s, step);
    } else if step.Stop? {
      StopShrinks(s);
    } else {
      CloserShrinks(s, Apply(s, step));
    }
  }

  /**
   So with finitely many calls the pool comes to rest, running or stopped: no run is longer than the measure
   it starts with and nine steps for each new call.
   */
  lemma {:induction false} EveryRunSettles(s: Pool, steps: seq<Step>)
    requires Runs(s, steps)
    ensures |s.callers| <= |Exec(s, steps).callers|
    ensures |steps| + Measure(Exec(s, steps)) <= Measure(s) + 9 * (|Exec(s, steps).callers| - |s.callers|)
  {
    hide Measure, Enabled, Apply;
    if |steps| > 0 {
      var pre, step := steps[..|steps| - 1], steps[|steps| - 1];
      EveryRunSettles(s, pre);
      StepKeepsMax(Exec(s, pre), step);
      if step.Call? {
        CallGrows(Exec(s, pre), step.timed);
      } else {
        StepShrinks(Exec(s, pre), step);
      }
    }
  }

  // ---- At rest ----

  /**
   No goroutine can move.  Somebody calling QueueJob or StopServer does not count, and neither does a worker
   at mux.RLock while the closer waits for the lock: Go keeps new readers out then, though the model's runs
   may let them in.
   */
  ghost predicate Quiescent(s: Pool) {
    forall step: Step :: Enabled(s, step) ==> step.Call? || step.Stop? || (step.RLock? && s.closer.WantsLock?)
  }

  /** Call `k` holds the channel of a worker that left through quit. */
  predicate Abandoned(s: Pool, k: nat) {
    k < |s.callers| && s.callers[k].Holding? && WorkerIs(s, s.callers[k].ch, Gone)
  }

  /**
   When nothing can move any more, every worker has returned, the flag is set, the pool is nil, and a call
   that has not returned holds the channel of a worker that left through quit.
   */
  lemma StoppedPoolIsClean(s: Pool, max: nat, steps: seq<Step>)
    requires Reachable(s, max, steps) && s.quit && Quiescent(s)
    ensures s.isStopped && s.poolNil && s.closer.Done? && s.readers == {} && !s.writer
    ensures forall i | 0 <= i < |s.workers| :: s.workers[i].Exited? || s.workers[i].Gone?
    ensures forall k | 0 <= k < |s.callers| :: s.callers[k].Queued? || s.callers[k].Failed? || Abandoned(s, k)
    ensures forall k | 0 <= k < |s.callers| && s.callers[k].Queued? :: k in s.finished
  {
    ReachableInv(s, max, steps);
    CleanAtRest(s);
  }

  lemma CleanAtRest(s: Pool)
    requires Inv(s) && s.quit && Quiescent(s)
    ensures s.isStopped && s.poolNil && s.closer.Done? && s.readers == {} && !s.writer
    ensures forall i | 0 <= i < |s.workers| :: s.workers[i].Exited? || s.workers[i].Gone?
    ensures forall k | 0 <= k < |s.callers| :: s.callers[k].Queued? || s.callers[k].Failed? || Abandoned(s, k)
    ensures forall k | 0 <= k < |s.callers| && s.callers[k].Queued? :: k in s.finished
  {
    CloserIsDone(s);
    forall i | 0 <= i < |s.workers| ensures s.workers[i].Exited? || s.workers[i].Gone? {
      WorkerIsDone(s, i);
    }
    forall k | 0 <= k < |s.callers|
      ensures s.callers[k].Queued? || s.callers[k].Failed? || Abandoned(s, k)
    {
      assert !Enabled(s, ReadPool(k, false)) && !Enabled(s, GiveUp(k)) && !Enabled(s, Deliver(k));
      assert s.callers[k].Holding? ==> HeldBy(s, k, s.callers[k].ch);
    }
  }

  /** A worker that has not returned can move unless it is waiting for the writer, or behind one that waits. */
  lemma WorkerCanMove(s: Pool, i: nat)
    requires LockOk(s) && OwnershipOk(s) && s.quit && Quiescent(s) && i < |s.workers|
    ensures s.workers[i].Exited? || s.workers[i].Gone? || (s.workers[i].Looping? && (s.writer || s.closer.WantsLock?))
  {
    RoomToRegister(s, i);
    assert Enabled(s, RLock(i)) ==> s.closer.WantsLock?;
    assert !Enabled(s, Check(i)) && !Enabled(s, Register(i)) && !Enabled(s, RUnlock(i)) && !Enabled(s, LeaveUnlock(i));
    assert !Enabled(s, CloseChannel(i)) && !Enabled(s, QuitWorker(i)) && !Enabled(s, Finish(i));
  }

  lemma CloserIsDone(s: Pool)
    requires LockOk(s) && OwnershipOk(s) && s.quit && Quiescent(s)
    ensures s.closer.Done? && s.readers == {}
  {
    assert !Enabled(s, CloserWakes) && !Enabled(s, CloserFlags);
    assert !Enabled(s, CloserClears) && !Enabled(s, CloserUnlocks);
    if i :| i in s.readers {
      WorkerCanMove(s, i);
    }
    assert !Enabled(s, CloserLocks);
  }

  lemma WorkerIsDone(s: Pool, i: nat)
    requires LockOk(s) && OwnershipOk(s) && s.quit && Quiescent(s) && i < |s.workers|
    ensures s.workers[i].Exited? || s.workers[i].Gone?
  {
    CloserIsDone(s);
    WorkerCanMove(s, i);
  }

  /** Call `k` is at its select without a timeout. */
  predicate WaitsForever(s: Pool, k: nat) {
    k < |s.callers| && s.callers[k].Selecting? && !s.callers[k].timed
  }

  /**
   When nothing can move in a pool that has not been stopped, every worker is at its select with its channel
   in the pool, every accepted job is finished, and every call has returned, except that on no workers at all
   the calls without a timeout are still waiting.
   */
  lemma RunningPoolIsReady(s: Pool, max: nat, steps: seq<Step>)
    requires Reachable(s, max, steps) && !s.quit && Quiescent(s)
    ensures |s.workers| == |s.buffer| == max
    ensures forall i | 0 <= i < |s.workers| :: s.workers[i].Waiting? && i in s.buffer
    ensures forall k | 0 <= k < |s.callers| :: HasReturned(s, k) || WaitsForever(s, k)
    ensures forall k | 0 <= k < |s.callers| :: WaitsForever(s, k) ==> max == 0
    ensures forall k | 0 <= k < |s.callers| && s.callers[k].Queued? :: k in s.finished
  {
    ReachableInv(s, max, steps);
    MaxIsFixed(Init(max), steps);
    RunKeepsSight(Init(max), steps);
    ReadyAtRest(s);
    PoolIsFull(s);
  }

  lemma ReadyAtRest(s: Pool)
    requires Inv(s) && SightOk(s) && !s.quit && Quiescent(s)
    ensures forall i | 0 <= i < |s.workers| :: s.workers[i].Waiting? && i in s.buffer
    ensures forall k | 0 <= k < |s.callers| :: HasReturned(s, k) || WaitsForever(s, k)
    ensures forall k | 0 <= k < |s.callers| :: WaitsForever(s, k) ==> s.max == 0
    ensures forall k | 0 <= k < |s.callers| && s.callers[k].Queued? :: k in s.finished
  {
    hide JobsOk;
    forall i | 0 <= i < |s.workers| ensures s.workers[i].Waiting? && i in s.buffer {
      WorkerIsReady(s, i);
    }
    forall k: nat | k < |s.callers|
      ensures HasReturned(s, k) || WaitsForever(s, k)
      ensures WaitsForever(s, k) ==> s.max == 0
    {
      CallHasReturned(s, k);
    }
    JobsAreDone(s);
  }

  lemma JobsAreDone(s: Pool)
    requires JobsOk(s) && forall i | 0 <= i < |s.workers| :: !s.workers[i].Executing?
    ensures forall k | 0 <= k < |s.callers| && s.callers[k].Queued? :: k in s.finished
  {
  }

  lemma NobodyHolds(s: Pool, k: nat)
    requires LockOk(s) && OwnershipOk(s) && !s.quit && Quiescent(s) && k < |s.callers|
    ensures !s.callers[k].Holding?
  {
    var c := if s.callers[k].Holding? then s.callers[k].ch else 0;
    assert !Enabled(s, Deliver(k)) && !Enabled(s, RUnlock(c));
    assert s.callers[k].Holding? ==> HeldBy(s, k, c);
  }

  lemma WorkerIsReady(s: Pool, i: nat)
    requires LockOk(s) && OwnershipOk(s) && !s.quit && Quiescent(s) && i < |s.workers|
    ensures s.workers[i].Waiting? && i in s.buffer
  {
    RoomToRegister(s, i);
    assert !Enabled(s, RLock(i)) && !Enabled(s, Check(i)) && !Enabled(s, Register(i));
    assert !Enabled(s, RUnlock(i)) && !Enabled(s, Finish(i));
    if k: nat :| HeldBy(s, k, i) {
      NobodyHolds(s, k);
    }
  }

  lemma CallHasReturned(s: Pool, k: nat)
    requires LockOk(s) && OwnershipOk(s) && SightOk(s) && !s.quit && Quiescent(s) && k < |s.callers|
    ensures HasReturned(s, k) || WaitsForever(s, k)
    ensures WaitsForever(s, k) ==> s.max == 0
  {
    NobodyHolds(s, k);
    assert !Enabled(s, ReadPool(k, false)) && !Enabled(s, TimeOut(k)) && !Enabled(s, Take(k));
    if s.max > 0 {
      WorkerIsReady(s, 0);
    }
  }

  lemma PoolIsFull(s: Pool)
    requires LockOk(s) && OwnershipOk(s) && forall i | 0 <= i < |s.workers| :: i in s.buffer
    ensures |s.buffer| == s.max
  {
    DistinctSeqAsSet(s.buffer);
    Below(s.max, Elements(s.buffer));
  }

  lemma {:induction false} Below(n: nat, xs: set<nat>)
    requires forall i: nat :: i in xs <==> i < n
    ensures |xs| == n
  {
    if n == 0 {
      assert xs == {};
    } else {
      Below(n - 1, xs - {n - 1});
    }
  }

  // ---- Whether a call can return ----

  predicate HasReturned(s: Pool, k: nat) {
    k < |s.callers| && (s.callers[k].Queued? || s.callers[k].Failed?)
  }

  predicate Accepted(s: Pool, k: nat) {
    k < |s.callers| && s.callers[k].Queued?
  }

  /** Call `k` has no channel yet and its wait for one is timed. */
  predicate WaitsTimed(s: Pool, k: nat) {
    k < |s.callers| && (s.callers[k].Called? || s.callers[k].Selecting?) && s.callers[k].timed
  }

  predicate WaitsUntimed(s: Pool, k: nat) {
    k < |s.callers| && (s.callers[k].Called? || s.callers[k].Selecting?) && !s.callers[k].timed
  }

  ghost predicate CanReturn(s: Pool, k: nat) {
    exists later: seq<Step> :: Runs(s, later) && HasReturned(Exec(s, later), k)
  }

  /** Call `k` can return without anybody calling StopServer. */
  ghost predicate CanReturnByItself(s: Pool, k: nat) {
    exists later: seq<Step> ::
      Runs(s, later) && Exec(s, later).quit == s.quit && HasReturned(Exec(s, later), k)
  }

  ghost predicate CanBeAccepted(s: Pool, k: nat) {
    exists later: seq<Step> :: Runs(s, later) && Accepted(Exec(s, later), k)
  }

  lemma {:induction false} AbandonedForever(s: Pool, k: nat, later: seq<Step>)
    requires Abandoned(s, k) && Runs(s, later)
    ensures Abandoned(Exec(s, later), k)
  {
    hide Abandoned, Enabled, Apply;
    if |later| > 0 {
      AbandonedForever(s, k, later[..|later| - 1]);
      AbandonedStep(Exec(s, later[..|later| - 1]), k, later[|later| - 1]);
    }
  }

  lemma AbandonedStep(s: Pool, k: nat, step: Step)
    requires Abandoned(s, k) && Enabled(s, step)
    ensures Abandoned(Apply(s, step), k)
  {
  }

  /** The worker leaves the lock and gets to its select. */
  lemma UnlockStep(s: Pool, c: nat)
    requires WorkerIs(s, c, Registered)
    ensures Enabled(s, RUnlock(c))
    ensures Apply(s, RUnlock(c)) == s.(workers := s.workers[c := Waiting], readers := s.readers - {c})
  {
  }

  lemma DeliverStep(s: Pool, k: nat, c: nat)
    requires k < |s.callers| && s.callers[k] == Holding(c) && WorkerIs(s, c, Waiting) && c !in s.closedChannels
    ensures Enabled(s, Deliver(k))
    ensures Apply(s, Deliver(k)) == s.(workers := s.workers[c := Executing(k)], callers := s.callers[k := Queued])
  {
  }

  /** The worker whose channel call `k` holds, if it has not left, is at its select or about to be. */
  lemma HolderFacts(s: Pool, k: nat)
    requires LockOk(s) && OwnershipOk(s) && k < |s.callers| && s.callers[k].Holding? && !Abandoned(s, k)
    ensures var c := s.callers[k].ch;
      (WorkerIs(s, c, Waiting) || WorkerIs(s, c, Registered)) && c !in s.closedChannels
  {
    assert HeldBy(s, k, s.callers[k].ch);
  }

  lemma DeliverRun(s: Pool, k: nat, c: nat) returns (later: seq<Step>)
    requires k < |s.callers| && s.callers[k] == Holding(c) && WorkerIs(s, c, Waiting) && c !in s.closedChannels
    ensures Runs(s, later) && NoNewCalls(later)
    ensures Exec(s, later) == s.(workers := s.workers[c := Executing(k)], callers := s.callers[k := Queued])
  {
    hide Runs, Exec, Enabled, Apply;
    DeliverStep(s, k, c);
    RunsOne(s, Deliver(k));
    later := [Deliver(k)];
  }

  /** The worker whose channel call `k` holds gets to its select and takes the job. */
  lemma HandOver(s: Pool, k: nat) returns (later: seq<Step>)
    requires LockOk(s) && OwnershipOk(s) && k < |s.callers| && s.callers[k].Holding? && !Abandoned(s, k)
    ensures Runs(s, later) && NoNewCalls(later)
    ensures var t := Exec(s, later);
      t.callers == s.callers[k := Queued] && t.quit == s.quit && WorkerIs(t, s.callers[k].ch, Executing(k))
  {
    var c := s.callers[k].ch;
    HolderFacts(s, k);
    hide Runs, Exec, LockOk, OwnershipOk, Enabled, Apply;
    if s.workers[c].Waiting? {
      later := DeliverRun(s, k, c);
    } else {
      UnlockStep(s, c);
      var t := Apply(s, RUnlock(c));
      var rest := DeliverRun(t, k, c);
      RunsFirst(s, RUnlock(c), t, rest);
      later := [RUnlock(c)] + rest;
    }
  }

  predicate NoNewCalls(steps: seq<Step>) {
    forall j | 0 <= j < |steps| :: !steps[j].Call?
  }

  lemma ReadStep(s: Pool, k: nat)
    requires k < |s.callers| && s.callers[k].Called?
    ensures Enabled(s, ReadPool(k, false))
    ensures Apply(s, ReadPool(k, false)) ==
      s.(callers := s.callers[k := Selecting(s.callers[k].timed, !s.poolNil)])
  {
  }

  /** A call at its select fails on its timeout or on quit. */
  lemma FailStep(s: Pool, k: nat, step: Step)
    requires k < |s.callers| && s.callers[k].Selecting?
    requires if s.callers[k].timed then step == TimeOut(k) else s.quit && step == GiveUp(k)
    ensures Enabled(s, step) && Apply(s, step) == s.(callers := s.callers[k := Failed])
  {
  }

  lemma FailAtSelect(s: Pool, k: nat) returns (later: seq<Step>)
    requires k < |s.callers| && s.callers[k].Selecting? && (s.callers[k].timed || s.quit)
    ensures Runs(s, later) && Exec(s, later) == s.(callers := s.callers[k := Failed])
  {
    hide Runs, Exec, Enabled, Apply;
    var last := if s.callers[k].timed then TimeOut(k) else GiveUp(k);
    FailStep(s, k, last);
    RunsOne(s, last);
    later := [last];
  }

  /** A call that has no channel yet fails by itself if it is timed or the pool has been stopped. */
  lemma FailRun(s: Pool, k: nat) returns (later: seq<Step>)
    requires k < |s.callers| && (s.callers[k].Called? || s.callers[k].Selecting?) && (WaitsTimed(s, k) || s.quit)
    ensures Runs(s, later) && HasReturned(Exec(s, later), k) && Exec(s, later).quit == s.quit
  {
    hide Runs, Exec, Enabled, Apply;
    if s.callers[k].Selecting? {
      later := FailAtSelect(s, k);
    } else {
      ReadStep(s, k);
      var t := Apply(s, ReadPool(k, false));
      var rest := FailAtSelect(t, k);
      RunsFirst(s, ReadPool(k, false), t, rest);
      later := [ReadPool(k, false)] + rest;
    }
  }

  /** A select that has read the pool as nil did so once it was nil. */
  ghost predicate SightOk(s: Pool) {
    forall k | 0 <= k < |s.callers| && s.callers[k].Selecting? && !s.callers[k].sees :: s.poolNil
  }

  lemma SightStep(s: Pool, step: Step)
    requires SightOk(s) && Enabled(s, step)
    ensures SightOk(Apply(s, step))
  {
  }

  lemma {:induction false} RunKeepsSight(s: Pool, steps: seq<Step>)
    requires SightOk(s) && Runs(s, steps)
    ensures SightOk(Exec(s, steps))
  {
    hide SightOk, Enabled, Apply;
    if |steps| > 0 {
      RunKeepsSight(s, steps[..|steps| - 1]);
      SightStep(Exec(s, steps[..|steps| - 1]), steps[|steps| - 1]);
    }
  }

  /** How far a worker is from putting its channel up again. */
  function Distance(w: Worker): nat {
    if Offered(w) then 9 else WorkerRank(w)
  }

  /** The next step of a worker that has its channel to itself, in a pool that has not been stopped. */
  lemma NextOfWorker(s: Pool, i: nat) returns (step: Step)
    requires LockOk(s) && OwnershipOk(s) && !s.quit && i < |s.workers| && !Offered(s.workers[i])
    ensures Enabled(s, step) && OfWorker(step)
    ensures var t := Apply(s, step);
      && t.callers == s.callers && !t.quit && t.max == s.max
      && (Distance(t.workers[i]) < Distance(s.workers[i]) || |t.buffer| > 0)
  {
    RoomToRegister(s, i);
    match s.workers[i]
    case Executing(_) => step := Finish(i);
    case Looping => step := RLock(i);
    case Locked => step := Check(i);
    case Registering => step := Register(i);
    case _ =>
  }

  lemma NextStepRun(s: Pool, i: nat) returns (later: seq<Step>)
    requires LockOk(s) && OwnershipOk(s) && !s.quit && i < |s.workers| && !Offered(s.workers[i])
    ensures Runs(s, later) && NoNewCalls(later)
    ensures var t := Exec(s, later);
      && t.callers == s.callers && !t.quit && t.max == s.max && |t.workers| == |s.workers|
      && (Distance(t.workers[i]) < Distance(s.workers[i]) || |t.buffer| > 0)
  {
    var step := NextOfWorker(s, i);
    hide Runs, Exec, LockOk, OwnershipOk, Enabled, Apply, Distance;
    RunsOne(s, step);
    later := [step];
  }

  /**
   A running pool with a worker gets a channel into the pool, whatever call `k` waits for: if the worker's
   own channel is with a call, that call hands its job over first.
   */
  lemma {:induction false} FillPool(s: Pool, k: nat) returns (later: seq<Step>)
    requires Inv(s) && !s.quit && 0 < s.max && k < |s.callers| && s.callers[k].Selecting?
    ensures Runs(s, later) && NoNewCalls(later)
    ensures var t := Exec(s, later);
      Inv(t) && !t.quit && |t.buffer| > 0 && k < |t.callers| && t.callers[k] == s.callers[k]
    decreases Distance(s.workers[0])
  {
    RunsNil(s);
    hide Runs, Exec, Apply, Enabled, JobsOk;
    later := [];
    if |s.buffer| == 0 {
      if Offered(s.workers[0]) {
        var l: nat :| HeldBy(s, l, 0);
        later := HandOver(s, l);
      } else {
        later := NextStepRun(s, 0);
      }
      var t := Exec(s, later);
      RunKeepsInv(s, later);
      MaxIsFixed(s, later);
      if |t.buffer| == 0 {
        var rest := FillPool(t, k);
        RunsCompose(s, later, rest);
        later := later + rest;
      }
    }
  }

  lemma TakeStep(s: Pool, k: nat)
    requires k < |s.callers| && s.callers[k].Selecting? && s.callers[k].sees && |s.buffer| > 0
    ensures Enabled(s, Take(k))
    ensures Apply(s, Take(k)) == s.(buffer := s.buffer[1..], callers := s.callers[k := Holding(s.buffer[0])])
  {
  }

  /** A call at its select in a running pool gets a channel. */
  lemma TakeRun(s: Pool, k: nat) returns (later: seq<Step>)
    requires Inv(s) && SightOk(s) && !s.quit && 0 < s.max && k < |s.callers| && s.callers[k].Selecting?
    ensures Runs(s, later) && NoNewCalls(later)
    ensures var t := Exec(s, later); Inv(t) && !t.quit && k < |t.callers| && t.callers[k].Holding?
  {
    var filled := FillPool(s, k);
    var t := Exec(s, filled);
    assert !s.poolNil;
    hide Runs, Exec, Inv, Apply, Enabled;
    TakeStep(t, k);
    RunsSnoc(s, filled, Take(k));
    later := filled + [Take(k)];
    StepKeepsInv(t, Take(k));
  }

  lemma AcceptAtSelect(s: Pool, k: nat) returns (later: seq<Step>)
    requires Inv(s) && SightOk(s) && !s.quit && 0 < s.max && k < |s.callers| && s.callers[k].Selecting?
    ensures Runs(s, later) && NoNewCalls(later) && Accepted(Exec(s, later), k) && !Exec(s, later).quit
  {
    var first := TakeRun(s, k);
    var t := Exec(s, first);
    assert !Abandoned(t, k) by { NobodyIsAbandoned(t, k); }
    assert LockOk(t) && OwnershipOk(t) by { InvParts(t); }
    hide Runs, Exec, Inv, LockOk, OwnershipOk, Abandoned;
    var rest := HandOver(t, k);
    RunsCompose(s, first, rest);
    later := first + rest;
  }

  lemma NobodyIsAbandoned(s: Pool, k: nat)
    requires Inv(s) && !s.quit
    ensures !Abandoned(s, k)
  {
  }

  lemma InvParts(s: Pool)
    requires Inv(s)
    ensures LockOk(s) && OwnershipOk(s) && JobsOk(s)
  {
  }

  lemma AcceptRun(s: Pool, k: nat) returns (later: seq<Step>)
    requires Inv(s) && SightOk(s) && !s.quit && 0 < s.max && k < |s.callers|
    requires s.callers[k].Called? || s.callers[k].Selecting? || s.callers[k].Holding?
    ensures Runs(s, later) && NoNewCalls(later) && Accepted(Exec(s, later), k) && !Exec(s, later).quit
  {
    NobodyIsAbandoned(s, k);
    InvParts(s);
    hide Runs, Exec, Inv, LockOk, OwnershipOk, JobsOk, SightOk, Abandoned, Apply, Enabled;
    match s.callers[k]
    case Holding(_) => later := HandOver(s, k);
    case Selecting(_, _) => later := AcceptAtSelect(s, k);
    case Called(_) =>
      ReadStep(s, k);
      var t := Apply(s, ReadPool(k, false));
      StepKeepsInv(s, ReadPool(k, false));
      SightStep(s, ReadPool(k, false));
      var rest := AcceptAtSelect(t, k);
      RunsFirst(s, ReadPool(k, false), t, rest);
      later := [ReadPool(k, false)] + rest;
  }

  /**
   In a running pool with at least one worker, from every reachable state, every call that has not timed
   out can still be accepted: some worker always gets back to the pool, and no channel is ever lost.
   */
  lemma RunningPoolAcceptsEveryCall(s: Pool, max: nat, steps: seq<Step>, k: nat) returns (later: seq<Step>)
    requires Reachable(s, max, steps) && !s.quit && 0 < max && k < |s.callers| && !s.callers[k].Failed?
    ensures Runs(s, later) && Accepted(Exec(s, later), k) && !Exec(s, later).quit
  {
    ReachableInv(s, max, steps);
    MaxIsFixed(Init(max), steps);
    RunKeepsSight(Init(max), steps);
    RunsNil(s);
    hide Runs, Exec, Reachable;
    later := [];
    if !s.callers[k].Queued? {
      later := AcceptRun(s, k);
    }
  }

  // ---- No workers ----

  /** Call `k` waits without a timeout for a channel, and there are no workers. */
  predicate Starved(s: Pool, k: nat) {
    WaitsUntimed(s, k) && s.max == 0
  }

  /** Before StopServer the wait for a channel without a timeout ends only with a channel. */
  lemma UntimedStep(s: Pool, step: Step, k: nat)
    requires !s.quit && WaitsUntimed(s, k) && Enabled(s, step)
    ensures WaitsUntimed(Apply(s, step), k) || (|s.buffer| > 0 && Apply(s, step).callers[k].Holding?)
  {
    if OfCaller(step) {
      match step
      case Call(_) =>
      case ReadPool(_, _) =>
      case Take(_) =>
      case TimeOut(_) =>
      case GiveUp(_) =>
      case Deliver(_) =>
    } else {
      OthersKeepCallers(s, step);
    }
  }

  lemma StarvedStep(s: Pool, step: Step, k: nat)
    requires LockOk(s) && OwnershipOk(s) && !s.quit && Starved(s, k) && Enabled(s, step)
    ensures Starved(Apply(s, step), k)
  {
    RoomToRegister(s, 0);
    StepKeepsMax(s, step);
    UntimedStep(s, step, k);
  }

  lemma {:induction false} StarvedUntilStopped(s: Pool, later: seq<Step>, k: nat)
    requires Inv(s) && Starved(s, k) && Runs(s, later) && !Exec(s, later).quit
    ensures Starved(Exec(s, later), k)
  {
    hide Inv, Starved, Enabled, Apply;
    if |later| > 0 {
      var pre, step := later[..|later| - 1], later[|later| - 1];
      StepKeepsMax(Exec(s, pre), step);
      StarvedUntilStopped(s, pre, k);
      RunKeepsInv(s, pre);
      assert LockOk(Exec(s, pre)) && OwnershipOk(Exec(s, pre)) by { InvParts(Exec(s, pre)); }
      StarvedStep(Exec(s, pre), step, k);
    }
  }

  /**
   In a running pool a QueueJob call can return by itself if and only if it has returned, or its wait is
   timed, or there is a worker; in a stopped one, if and only if it does not hold the channel of a worker
   that has left through quit, which no call does before StopServer.  Somebody's calling StopServer frees
   every other call.  A call that holds a channel returns by being accepted.
   */
  lemma WhenACallReturns(s: Pool, max: nat, steps: seq<Step>, k: nat)
    requires Reachable(s, max, steps) && k < |s.callers|
    ensures CanReturnByItself(s, k) <==>
      if s.quit then !Abandoned(s, k) else HasReturned(s, k) || WaitsTimed(s, k) || 0 < max
    ensures CanReturn(s, k) <==> !Abandoned(s, k)
    ensures s.callers[k].Holding? ==> (CanBeAccepted(s, k) <==> !Abandoned(s, k))
    ensures !s.quit ==> !Abandoned(s, k)
  {
    ReachableInv(s, max, steps);
    MaxIsFixed(Init(max), steps);
    hide Runs, Exec, OwnershipOk, JobsOk;
    if Abandoned(s, k) {
      forall later | Runs(s, later) ensures !HasReturned(Exec(s, later), k) {
        AbandonedForever(s, k, later);
      }
    } else {
      OtherCallsCanReturn(s, k);
      hide CanReturn, CanBeAccepted, CanReturnByItself, Abandoned;
      if s.quit || HasReturned(s, k) || WaitsTimed(s, k) || s.callers[k].Holding? {
        CanReturnAtOnce(s, k);
        if s.callers[k].Holding? {
          HoldingNeedsAWorker(s, k);
        }
      } else if 0 < max {
        CanBeServed(s, max, steps, k);
      } else {
        StarvedCannotReturn(s, k);
      }
    }
  }

  lemma HoldingNeedsAWorker(s: Pool, k: nat)
    requires LockOk(s) && OwnershipOk(s) && k < |s.callers| && s.callers[k].Holding?
    ensures 0 < s.max
  {
    assert HeldBy(s, k, s.callers[k].ch);
  }

  lemma CanReturnAtOnce(s: Pool, k: nat)
    requires Inv(s) && k < |s.callers| && !Abandoned(s, k)
    requires s.quit || HasReturned(s, k) || WaitsTimed(s, k) || s.callers[k].Holding?
    ensures CanReturnByItself(s, k)
    ensures s.callers[k].Holding? ==> CanBeAccepted(s, k)
  {
    var later := [];
    RunsNil(s);
    hide Runs, Exec, OwnershipOk, JobsOk, LockOk;
    if s.callers[k].Holding? {
      later := HandOver(s, k);
      assert Accepted(Exec(s, later), k);
    } else if !HasReturned(s, k) {
      later := FailRun(s, k);
    }
    assert HasReturned(Exec(s, later), k) && Exec(s, later).quit == s.quit;
  }

  lemma CanBeServed(s: Pool, max: nat, steps: seq<Step>, k: nat)
    requires Reachable(s, max, steps) && !s.quit && 0 < max && k < |s.callers| && !s.callers[k].Failed?
    ensures CanReturnByItself(s, k)
  {
    var later := RunningPoolAcceptsEveryCall(s, max, steps, k);
    hide Runs, Exec;
    assert HasReturned(Exec(s, later), k) && Exec(s, later).quit == s.quit;
  }

  lemma StarvedCannotReturn(s: Pool, k: nat)
    requires Inv(s) && !s.quit && Starved(s, k)
    ensures !CanReturnByItself(s, k)
  {
    forall later | Runs(s, later) && Exec(s, later).quit == s.quit ensures !HasReturned(Exec(s, later), k) {
      StarvedUntilStopped(s, later, k);
    }
  }

  /** Unless it is abandoned a call returns, once the pool is told to stop if not before. */
  lemma OtherCallsCanReturn(s: Pool, k: nat)
    requires Inv(s) && k < |s.callers| && !Abandoned(s, k)
    ensures CanReturn(s, k)
  {
    if s.quit || HasReturned(s, k) || s.callers[k].Holding? {
      CanReturnAtOnce(s, k);
    } else {
      var t := Apply(s, Stop);
      hide Runs, Exec;
      var rest := FailRun(t, k);
      RunsFirst(s, Stop, t, rest);
      assert HasReturned(Exec(s, [Stop] + rest), k);
    }
  }

  // ---- Two runs that hang ----

  /** Without workers, an untimed call at its select waits for somebody to call StopServer. */
  lemma NoWorkersNoReturn() returns (run: seq<Step>, s: Pool)
    ensures Reachable(s, 0, run) && !s.quit && !Abandoned(s, 0)
    ensures |s.callers| == 1 && !CanReturnByItself(s, 0)
  {
    var s0 := Init(0);
    var s1 := s0.(callers := [Called(false)]);
    s := s0.(callers := [Selecting(false, true)]);
    RunsNil(s0);
    hide Runs, Exec, CanReturnByItself, CanReturn, CanBeAccepted;
    Extend(s0, [], s0, Call(false), s1);
    Extend(s0, [] + [Call(false)], s1, ReadPool(0, false), s);
    run := [] + [Call(false)] + [ReadPool(0, false)];
    WhenACallReturns(s, 0, run, 0);
  }

  function OneWorkerWaiting(): Pool {
    Init(1).(workers := [Waiting], buffer := [0])
  }

  lemma OneWorkerGetsReady() returns (run: seq<Step>)
    ensures Runs(Init(1), run) && Exec(Init(1), run) == OneWorkerWaiting()
  {
    hide Runs, Exec;
    var s0 := Init(1);
    assert s0.workers == [Looping];
    var s1 := s0.(workers := [Locked], readers := {0});
    var s2 := s1.(workers := [Registering]);
    var s3 := s2.(workers := [Registered], buffer := [0]);
    RunsNil(s0);
    run := [];
    Extend(s0, run, s0, RLock(0), s1);
    run := run + [RLock(0)];
    Extend(s0, run, s1, Check(0), s2);
    run := run + [Check(0)];
    Extend(s0, run, s2, Register(0), s3);
    run := run + [Register(0)];
    Extend(s0, run, s3, RUnlock(0), OneWorkerWaiting());
    run := run + [RUnlock(0)];
  }

  /** One untimed call has taken the only worker's channel. */
  function OneWorkerHeld(): Pool {
    Init(1).(workers := [Waiting], callers := [Holding(0)])
  }

  lemma OneWorkerGetsHeld() returns (run: seq<Step>)
    ensures Runs(Init(1), run) && Exec(Init(1), run) == OneWorkerHeld()
  {
    hide Runs, Exec;
    var s0 := OneWorkerWaiting();
    var s1 := s0.(callers := [Called(false)]);
    var s2 := s0.(callers := [Selecting(false, true)]);
    run := OneWorkerGetsReady();
    Extend(Init(1), run, s0, Call(false), s1);
    run := run + [Call(false)];
    Extend(Init(1), run, s1, ReadPool(0, false), s2);
    run := run + [ReadPool(0, false)];
    Extend(Init(1), run, s2, Take(0), OneWorkerHeld());
    run := run + [Take(0)];
  }

  /** A run of one worker and one call, without a timeout, after which that call never returns. */
  lemma QueueJobCanHang() returns (run: seq<Step>, s: Pool)
    ensures Reachable(s, 1, run) && s.quit && Abandoned(s, 0)
    ensures !CanReturn(s, 0)
  {
    hide Runs, Exec, CanReturn, CanBeAccepted, CanReturnByItself;
    var held := OneWorkerHeld();
    var stopped := held.(quit := true);
    s := stopped.(workers := [Gone]);
    run := OneWorkerGetsHeld();
    Extend(Init(1), run, held, Stop, stopped);
    run := run + [Stop];
    Extend(Init(1), run, stopped, QuitWorker(0), s);
    run := run + [QuitWorker(0)];
    WhenACallReturns(s, 1, run, 0);
  }

  // ---- A run that is late ----

  /** One worker waits with its channel in the pool; StopServer was called and the closer is done. */
  function OneWorkerClosed(): Pool {
    OneWorkerWaiting().(quit := true, isStopped := true, poolNil := true, closer := Done)
  }

  lemma OneWorkerGetsClosed() returns (run: seq<Step>)
    ensures Reachable(OneWorkerClosed(), 1, run)
  {
    hide Runs, Exec;
    var s0 := OneWorkerWaiting();
    var s1 := s0.(quit := true);
    var s2 := s1.(closer := WantsLock);
    var s3 := s1.(closer := HasLock, writer := true);
    var s4 := s3.(closer := FlagSet, isStopped := true);
    var s5 := s4.(closer := PoolCleared, poolNil := true);
    run := OneWorkerGetsReady();
    Extend(Init(1), run, s0, Stop, s1);
    run := run + [Stop];
    Extend(Init(1), run, s1, CloserWakes, s2);
    run := run + [CloserWakes];
    Extend(Init(1), run, s2, CloserLocks, s3);
    run := run + [CloserLocks];
    Extend(Init(1), run, s3, CloserFlags, s4);
    run := run + [CloserFlags];
    Extend(Init(1), run, s4, CloserClears, s5);
    run := run + [CloserClears];
    Extend(Init(1), run, s5, CloserUnlocks, OneWorkerClosed());
    run := run + [CloserUnlocks];
  }

  /** A late call's stale read lets it take the channel that is still in the pool. */
  lemma LateCallTakes(timed: bool) returns (later: seq<Step>)
    ensures Runs(OneWorkerClosed(), later)
    ensures Exec(OneWorkerClosed(), later) == OneWorkerClosed().(callers := [Holding(0)], buffer := [])
  {
    var s0 := OneWorkerClosed();
    var s1 := s0.(callers := [Called(timed)]);
    var s2 := s0.(callers := [Selecting(timed, true)]);
    RunsNil(s0);
    hide Runs, Exec;
    later := [];
    Extend(s0, later, s0, Call(timed), s1);
    later := later + [Call(timed)];
    Extend(s0, later, s1, ReadPool(0, true), s2);
    later := later + [ReadPool(0, true)];
    Extend(s0, later, s2, Take(0), s0.(callers := [Holding(0)], buffer := []));
    later := later + [Take(0)];
  }

  /**
   QueueJob reads w.WorkerPool without the lock, so a call made when the pool has been stopped and set to nil
   can still be accepted, by a worker that has not yet left.
   */
  lemma LateCallCanBeAccepted(timed: bool) returns (before: seq<Step>, later: seq<Step>)
    ensures Reachable(OneWorkerClosed(), 1, before) && OneWorkerClosed().callers == []
    ensures Runs(OneWorkerClosed(), later) && Accepted(Exec(OneWorkerClosed(), later), 0)
  {
    before := OneWorkerGetsClosed();
    hide Runs, Exec;
    var first := LateCallTakes(timed);
    var t := Exec(OneWorkerClosed(), first);
    var rest := DeliverRun(t, 0, 0);
    RunsCompose(OneWorkerClosed(), first, rest);
    later := first + rest;
  }
}
