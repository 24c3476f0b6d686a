/** Every run of the gRPC server comes to rest; what holds there; and which intercepted calls can return. */
module GrpcProgress {
  import opened Options
  import opened Sums
  import opened PoolProtocol
  import opened PoolTheorems
  import opened PoolProgress
  import opened GrpcInterceptor

  // ---- Every run comes to rest ----

  function StageRank<R>(stage: Stage<R>): nat {
    if stage.Ready? then 2 else if stage.Replying? then 1 else 0
  }

  function Unreturned<Q, R>(job: Job<Q, R>): nat {
    if job.returned.None? then 1 else 0
  }

  ghost function ServerMeasure<Q, R>(s: Server<Q, R>): nat {
    4 * Measure(s.pool)
    + Sum(s.stages, (st: Stage<R>) => StageRank(st)) + Sum(s.jobs, (j: Job<Q, R>) => Unreturned(j))
  }

  lemma StageMoves<Q, R>(s: Server<Q, R>, i: nat, st: Stage<R>)
    requires i < |s.stages|
    ensures Sum(s.stages[i := st], (st: Stage<R>) => StageRank(st)) + StageRank(s.stages[i]) ==
            Sum(s.stages, (st: Stage<R>) => StageRank(st)) + StageRank(st)
  {
    SumUpdate(s.stages, (st: Stage<R>) => StageRank(st), i, st);
  }

  lemma JobMoves<Q, R>(s: Server<Q, R>, k: nat, job: Job<Q, R>)
    requires k < |s.jobs|
    ensures Sum(s.jobs[k := job], (j: Job<Q, R>) => Unreturned(j)) + Unreturned(s.jobs[k]) ==
            Sum(s.jobs, (j: Job<Q, R>) => Unreturned(j)) + Unreturned(job)
  {
    SumUpdate(s.jobs, (j: Job<Q, R>) => Unreturned(j), k, job);
  }

  /** Every move but a new call brings the measure down, whether the server has been stopped or not. */
  lemma MoveShrinks<Q, R>(s: Server<Q, R>, m: Move<Q, R>)
    requires Can(s, m) && !m.Intercept?
    ensures ServerMeasure(Do(s, m)) < ServerMeasure(s)
  {
    hide Measure, Sum, Enabled, Apply;
    var t := Do(s, m);
    match m
    case PoolMove(step) => StepShrinks(s.pool, step);
    case RunHandler(i) =>
      StageMoves(s, i, t.stages[i]);
      JobMoves(s, s.pool.workers[i].job, t.jobs[s.pool.workers[i].job]);
    case SendReply(i) =>
      StageMoves(s, i, t.stages[i]);
      JobMoves(s, s.pool.workers[i].job, t.jobs[s.pool.workers[i].job]);
    case EndJob(i) =>
      BusyCanFinish(s, i);
      StepShrinks(s.pool, Finish(i));
      StageMoves(s, i, Ready);
    case ReturnError(k) => JobMoves(s, k, t.jobs[k]);
    case ReturnReply(k) => JobMoves(s, k, t.jobs[k]);
  }

  lemma InterceptGrows<Q, R>(s: Server<Q, R>, m: Move<Q, R>)
    requires m.Intercept?
    ensures ServerMeasure(Do(s, m)) == ServerMeasure(s) + 33
  {
    hide Measure, Sum, Apply;
    CallGrows(s.pool, m.timed);
    SumSnoc(s.jobs, (j: Job<Q, R>) => Unreturned(j), Job(m.req, m.handler, None, 0, None));
  }

  lemma JobsGrow<Q, R>(s: Server<Q, R>, m: Move<Q, R>)
    requires Can(s, m)
    ensures |Do(s, m).jobs| == |s.jobs| + (if m.Intercept? then 1 else 0)
  {
  }

  /**
   So with finitely many calls the server comes to rest, running or stopped: no run is longer than the
   measure it starts with and 34 moves for each new call.
   */
  lemma {:induction false} EveryRunOfTheServerSettles<Q, R>(s: Server<Q, R>, ms: seq<Move<Q, R>>)
    requires Plays(s, ms)
    ensures |s.jobs| <= |Played(s, ms).jobs|
    ensures |ms| + ServerMeasure(Played(s, ms)) <= ServerMeasure(s) + 34 * (|Played(s, ms).jobs| - |s.jobs|)
  {
    hide ServerMeasure, Do, Can;
    if |ms| > 0 {
      var pre, m := ms[..|ms| - 1], ms[|ms| - 1];
      EveryRunOfTheServerSettles(s, pre);
      JobsGrow(Played(s, pre), m);
      if m.Intercept? {
        InterceptGrows(Played(s, pre), m);
      } else {
        MoveShrinks(Played(s, pre), m);
      }
    }
  }

  // ---- At rest ----

  /** The pool's part of a run of the server is a run of the pool. */
  lemma {:induction false} PoolRun<Q, R>(s: Server<Q, R>, ms: seq<Move<Q, R>>) returns (steps: seq<Step>)
    requires Plays(s, ms)
    ensures Runs(s.pool, steps) && Exec(s.pool, steps) == Played(s, ms).pool
  {
    RunsNil(s.pool);
    hide Do, Can, Runs, Exec, Enabled, Apply, PoolStep;
    steps := [];
    if |ms| > 0 {
      var t, m := Played(s, ms[..|ms| - 1]), ms[|ms| - 1];
      steps := PoolRun(s, ms[..|ms| - 1]);
      MoveIsAPoolStep(t, m);
      if PoolStep(m).Some? {
        RunsSnoc(s.pool, steps, PoolStep(m).value);
        steps := steps + [PoolStep(m).value];
      }
    }
  }

  /** What every reachable state has. */
  lemma ReachableServer<Q, R>(s: Server<Q, R>, max: nat, ms: seq<Move<Q, R>>)
    requires Plays(Start(max), ms) && s == Played(Start(max), ms)
    ensures Inv(s.pool) && ServerOk(s) && SightOk(s.pool) && s.pool.max == max
  {
    StartOk<Q, R>(max);
    PlaysKeepOk(Start(max), ms);
    var steps := PoolRun(Start<Q, R>(max), ms);
    MaxIsFixed(Init(max), steps);
    RunKeepsSight(Init(max), steps);
  }

  /** No goroutine of the server can move; the pool's part of this is as in `Quiescent`. */
  ghost predicate AtRest<Q, R>(s: Server<Q, R>) {
    && (forall step: Step :: Enabled(s.pool, step) ==>
          step.Call? || step.Stop? || step.Finish? || (step.RLock? && s.pool.closer.WantsLock?))
    && (forall i: nat :: !Busy(s, i) || !(Can(s, RunHandler(i)) || Can(s, SendReply(i)) || Can(s, EndJob(i))))
    && (forall k | 0 <= k < |s.jobs| :: !Can(s, ReturnError(k)) && !Can(s, ReturnReply(k)))
  }

  /**
   When a server comes to rest, running or stopped, an intercepted call has not returned if and only if its
   nil handler was executed and sent no reply; or the server has been stopped and it is still handing its job
   to a worker that left through quit; or the server is running without workers and the call is not timed.
   Every other call has its own handler's result if it was accepted, and the queueing error if not.
   */
  lemma EveryCallReturns<Q, R>(s: Server<Q, R>, max: nat, ms: seq<Move<Q, R>>, k: nat)
    requires Plays(Start(max), ms) && s == Played(Start(max), ms)
    requires AtRest(s) && k < |s.jobs|
    ensures k < |s.pool.callers| && k < |Intercepts(ms)|
    ensures s.jobs[k].returned.None? <==>
      || (Intercepts(ms)[k].handler.None? && k in s.pool.finished)
      || Abandoned(s.pool, k)
      || WaitsForever(s.pool, k)
    ensures s.pool.quit <==> StopMade(ms)
    ensures Abandoned(s.pool, k) ==> s.pool.quit
    ensures WaitsForever(s.pool, k) ==> !s.pool.quit && max == 0 && !Intercepts(ms)[k].timed
    ensures s.pool.callers[k].Queued? && Intercepts(ms)[k].handler.Some? ==>
      s.jobs[k].returned == Some(Result(Intercepts(ms)[k].handler.value(Intercepts(ms)[k].req)))
    ensures s.pool.callers[k].Failed? ==>
      s.jobs[k].returned == Some(QueueError) && (Intercepts(ms)[k].timed || s.pool.quit)
  {
    ReachableServer(s, max, ms);
    EveryJobIsItsCall(max, ms);
    RestingPool(s);
    RestingCalls(s, k);
  }

  lemma NobodyExecutes<Q, R>(s: Server<Q, R>)
    requires Inv(s.pool) && ServerOk(s) && AtRest(s)
    ensures forall i | 0 <= i < |s.pool.workers| :: !s.pool.workers[i].Executing?
  {
    forall i | 0 <= i < |s.pool.workers| ensures !s.pool.workers[i].Executing? {
      if s.pool.workers[i].Executing? {
        assert Executes(s.pool, i, s.pool.workers[i].job);
        assert Busy(s, i);
        WorkersNeverBlockInExecute(s, i);
      }
    }
  }

  /** At rest each call was refused, is abandoned, waits in a running pool without workers, or is finished. */
  lemma RestingPool<Q, R>(s: Server<Q, R>)
    requires Inv(s.pool) && ServerOk(s) && SightOk(s.pool) && AtRest(s)
    ensures forall k | 0 <= k < |s.pool.callers| ::
      || s.pool.callers[k].Failed?
      || (s.pool.callers[k].Queued? && k in s.pool.finished)
      || (Abandoned(s.pool, k) && s.pool.quit)
      || (WaitsForever(s.pool, k) && !s.pool.quit && s.pool.max == 0)
  {
    NobodyExecutes(s);
    assert Quiescent(s.pool);
    hide AtRest, ServerOk, Inv, Quiescent, SightOk;
    if s.pool.quit {
      CleanAtRest(s.pool);
    } else {
      ReadyAtRest(s.pool);
      forall k: nat | k < |s.pool.callers|
        ensures s.pool.callers[k].Failed? || (s.pool.callers[k].Queued? && k in s.pool.finished)
          || (WaitsForever(s.pool, k) && s.pool.max == 0)
      {
        assert HasReturned(s.pool, k) || WaitsForever(s.pool, k);
      }
    }
  }

  lemma RestingCalls<Q, R>(s: Server<Q, R>, k: nat)
    requires ServerOk(s) && AtRest(s) && k < |s.jobs|
    requires
      || s.pool.callers[k].Failed?
      || (s.pool.callers[k].Queued? && k in s.pool.finished)
      || (Abandoned(s.pool, k) && s.pool.quit)
      || (WaitsForever(s.pool, k) && !s.pool.quit && s.pool.max == 0)
    requires k in s.pool.finished ==> s.pool.callers[k].Queued?
    ensures s.jobs[k].returned.None? <==>
      || (s.jobs[k].handler.None? && k in s.pool.finished)
      || Abandoned(s.pool, k)
      || WaitsForever(s.pool, k)
    ensures Abandoned(s.pool, k) ==> s.pool.quit
    ensures WaitsForever(s.pool, k) ==> !s.pool.quit && s.pool.max == 0
    ensures s.pool.callers[k].Queued? && s.jobs[k].handler.Some? ==>
      s.jobs[k].returned == Some(Result(s.jobs[k].handler.value(s.jobs[k].req)))
    ensures s.pool.callers[k].Failed? ==> s.jobs[k].returned == Some(QueueError)
  {
    assert !Can(s, ReturnError(k)) && !Can(s, ReturnReply(k));
    assert !s.pool.callers[k].Queued? ==> RefusedOk(s.jobs[k], s.pool.callers[k]);
    assert k in s.pool.finished ==> DoneOk(s.jobs[k]);
  }

  // ---- Whether a call can return ----

  /** No reply will come: the worker has left, or the job has no handler and can no longer be refused. */
  ghost predicate Doomed<Q, R>(s: Server<Q, R>, k: nat) {
    && k < |s.jobs| && k < |s.pool.callers|
    && (Abandoned(s.pool, k)
        || (s.jobs[k].handler.None? && (s.pool.callers[k].Holding? || s.pool.callers[k].Queued?)))
  }

  ghost predicate HasResult<Q, R>(s: Server<Q, R>, k: nat) {
    k < |s.jobs| && s.jobs[k].returned.Some?
  }

  lemma DoomedHasNoResult<Q, R>(s: Server<Q, R>, k: nat)
    requires Inv(s.pool) && ServerOk(s) && Doomed(s, k)
    ensures !HasResult(s, k)
  {
    if s.pool.callers[k].Queued? {
      if k !in s.pool.finished {
        var i: nat :| Executes(s.pool, i, k);
        assert StageOk(s.stages[i], s.jobs[k]);
      }
    } else {
      assert RefusedOk(s.jobs[k], s.pool.callers[k]);
    }
  }

  /** A call that holds a channel keeps it or is accepted. */
  lemma HolderStays(s: Pool, step: Step, k: nat)
    requires Enabled(s, step) && k < |s.callers| && (s.callers[k].Holding? || s.callers[k].Queued?)
    ensures k < |Apply(s, step).callers| && (Apply(s, step).callers[k].Holding? || Apply(s, step).callers[k].Queued?)
  {
    match step
    case RLock(_) =>
    case Check(_) =>
    case Register(_) =>
    case RUnlock(_) =>
    case LeaveUnlock(_) =>
    case CloseChannel(_) =>
    case QuitWorker(_) =>
    case Finish(_) =>
    case Deliver(_) =>
    case Call(_) =>
    case ReadPool(_, _) =>
    case Take(_) =>
    case _ =>
  }

  lemma DoomedStays<Q, R>(s: Server<Q, R>, m: Move<Q, R>, k: nat)
    requires Doomed(s, k) && Can(s, m)
    ensures Doomed(Do(s, m), k)
  {
    MoveIsAPoolStep(s, m);
    MoveKeepsRequests(s, m);
    hide Do, Can, Apply, Enabled, Abandoned, PoolStep;
    if PoolStep(m).Some? {
      var step := PoolStep(m).value;
      if Abandoned(s.pool, k) {
        AbandonedStep(s.pool, k, step);
        assert k < |Apply(s.pool, step).callers| by { AbandonedIsACall(Apply(s.pool, step), k); }
      } else {
        HolderStays(s.pool, step, k);
      }
    }
  }

  lemma AbandonedIsACall(s: Pool, k: nat)
    requires Abandoned(s, k)
    ensures k < |s.callers|
  {
  }

  lemma {:induction false} DoomedForever<Q, R>(s: Server<Q, R>, ms: seq<Move<Q, R>>, k: nat)
    requires Doomed(s, k) && Plays(s, ms)
    ensures Doomed(Played(s, ms), k)
  {
    hide Doomed, Do, Can;
    if |ms| > 0 {
      DoomedForever(s, ms[..|ms| - 1], k);
      DoomedStays(Played(s, ms[..|ms| - 1]), ms[|ms| - 1], k);
    }
  }

  /** No reply will come unless somebody calls StopServer. */
  ghost predicate Stranded<Q, R>(s: Server<Q, R>, k: nat) {
    || Doomed(s, k)
    || (&& k < |s.jobs| && !s.pool.quit && WaitsUntimed(s.pool, k)
        && (s.pool.max == 0 || s.jobs[k].handler.None?))
  }

  lemma StrandedHasNoResult<Q, R>(s: Server<Q, R>, k: nat)
    requires Inv(s.pool) && ServerOk(s) && Stranded(s, k)
    ensures !HasResult(s, k)
  {
    if Doomed(s, k) {
      DoomedHasNoResult(s, k);
    } else {
      assert RefusedOk(s.jobs[k], s.pool.callers[k]);
    }
  }

  lemma StrandedStays<Q, R>(s: Server<Q, R>, m: Move<Q, R>, k: nat)
    requires Inv(s.pool) && Stranded(s, k) && Can(s, m) && Do(s, m).pool.quit == s.pool.quit
    ensures Stranded(Do(s, m), k)
  {
    if Doomed(s, k) {
      DoomedStays(s, m, k);
    } else {
      MoveIsAPoolStep(s, m);
      MoveKeepsRequests(s, m);
      RoomToRegister(s.pool, 0);
      hide Do, Can, Apply, Enabled, PoolStep, Inv;
      if PoolStep(m).Some? {
        UntimedStep(s.pool, PoolStep(m).value, k);
        StepKeepsMax(s.pool, PoolStep(m).value);
      }
    }
  }

  lemma QuitStays<Q, R>(s: Server<Q, R>, m: Move<Q, R>)
    requires Can(s, m) && s.pool.quit
    ensures Do(s, m).pool.quit
  {
    MoveIsAPoolStep(s, m);
    hide Do, Can, Apply, Enabled, PoolStep;
    if PoolStep(m).Some? {
      StepKeepsMax(s.pool, PoolStep(m).value);
    }
  }

  lemma {:induction false} QuitIsFinal<Q, R>(s: Server<Q, R>, ms: seq<Move<Q, R>>)
    requires Plays(s, ms) && s.pool.quit
    ensures Played(s, ms).pool.quit
  {
    hide Do, Can;
    if |ms| > 0 {
      QuitIsFinal(s, ms[..|ms| - 1]);
      QuitStays(Played(s, ms[..|ms| - 1]), ms[|ms| - 1]);
    }
  }

  lemma {:induction false} StrandedUntilStopped<Q, R>(s: Server<Q, R>, ms: seq<Move<Q, R>>, k: nat)
    requires Inv(s.pool) && ServerOk(s) && Stranded(s, k) && Plays(s, ms)
    requires Played(s, ms).pool.quit == s.pool.quit
    ensures Stranded(Played(s, ms), k)
  {
    hide Stranded, Do, Can, Inv, ServerOk;
    if |ms| > 0 {
      var pre, m := ms[..|ms| - 1], ms[|ms| - 1];
      if s.pool.quit {
        QuitIsFinal(s, pre);
      }
      if Played(s, pre).pool.quit {
        QuitStays(Played(s, pre), m);
      }
      StrandedUntilStopped(s, pre, k);
      PlaysKeepOk(s, pre);
      StrandedStays(Played(s, pre), m, k);
    }
  }

  /** Call `k` needs no other call to be served first. */
  ghost predicate AtHand<Q, R>(s: Server<Q, R>, k: nat) {
    && k < |s.jobs| && k < |s.pool.callers| && !Doomed(s, k)
    && (s.pool.quit || WaitsTimed(s.pool, k)
        || s.pool.callers[k].Holding? || s.pool.callers[k].Queued? || s.pool.callers[k].Failed?)
  }

  /** How many moves call `k` is from its return, at most, along the way `NextTowardsReturn` takes. */
  ghost function ToGo<Q, R>(s: Server<Q, R>, k: nat): nat
    requires k < |s.jobs| && k < |s.pool.callers|
  {
    if s.jobs[k].returned.Some? then 0
    else match s.pool.callers[k]
      case Called(_) => 3
      case Selecting(_, _) => 2
      case Failed => 1
      case Holding(c) => if WorkerIs(s.pool, c, Waiting) then 4 else 5
      case Queued => if s.jobs[k].reply.Some? then 1 else if s.jobs[k].runs == 1 then 2 else 3
  }

  lemma NextOfWaiter<Q, R>(s: Server<Q, R>, k: nat) returns (m: Move<Q, R>)
    requires k < |s.jobs| && !HasResult(s, k) && AtHand(s, k)
    requires s.pool.callers[k].Called? || s.pool.callers[k].Selecting?
    ensures Can(s, m)
    ensures var t := Do(s, m); AtHand(t, k) && ToGo(t, k) < ToGo(s, k) && t.pool.quit == s.pool.quit
  {
    var c := s.pool.callers[k];
    m := PoolMove(if c.Called? then ReadPool(k, false) else if c.timed then TimeOut(k) else GiveUp(k));
  }

  lemma NextOfHolder<Q, R>(s: Server<Q, R>, k: nat) returns (m: Move<Q, R>)
    requires Inv(s.pool) && ServerOk(s) && k < |s.jobs| && !HasResult(s, k) && AtHand(s, k)
    requires s.pool.callers[k].Holding?
    ensures Can(s, m)
    ensures var t := Do(s, m); AtHand(t, k) && ToGo(t, k) < ToGo(s, k) && t.pool.quit == s.pool.quit
  {
    var c := s.pool.callers[k].ch;
    assert HeldBy(s.pool, k, c);
    assert RefusedOk(s.jobs[k], s.pool.callers[k]);
    hide OwnershipOk, JobsOk, ServerOk;
    m := PoolMove(if s.pool.workers[c].Waiting? then Deliver(k) else RUnlock(c));
  }

  lemma NextOfAcceptedJob<Q, R>(s: Server<Q, R>, k: nat) returns (m: Move<Q, R>)
    requires Inv(s.pool) && ServerOk(s) && k < |s.jobs| && !HasResult(s, k) && AtHand(s, k)
    requires s.pool.callers[k].Queued?
    ensures Can(s, m)
    ensures var t := Do(s, m); AtHand(t, k) && ToGo(t, k) < ToGo(s, k) && t.pool.quit == s.pool.quit
  {
    if k in s.pool.finished {
      m := ReturnReply(k);
    } else {
      var i: nat :| Executes(s.pool, i, k);
      assert StageOk(s.stages[i], s.jobs[k]);
      m := match s.stages[i]
        case Ready => RunHandler(i)
        case Replying(_) => SendReply(i)
        case Sent => ReturnReply(k)
        case Broken => EndJob(i);
    }
  }

  /** Such a call has a move that brings it nearer to its return. */
  lemma NextTowardsReturn<Q, R>(s: Server<Q, R>, k: nat) returns (m: Move<Q, R>)
    requires Inv(s.pool) && ServerOk(s) && k < |s.jobs| && !HasResult(s, k) && AtHand(s, k)
    ensures Can(s, m)
    ensures var t := Do(s, m); AtHand(t, k) && ToGo(t, k) < ToGo(s, k) && t.pool.quit == s.pool.quit
  {
    match s.pool.callers[k]
    case Called(_) => m := NextOfWaiter(s, k);
    case Selecting(_, _) => m := NextOfWaiter(s, k);
    case Failed => m := ReturnError(k);
    case Holding(_) => m := NextOfHolder(s, k);
    case Queued => m := NextOfAcceptedJob(s, k);
  }

  lemma {:induction false} ReturnRun<Q, R>(s: Server<Q, R>, k: nat) returns (ms: seq<Move<Q, R>>)
    requires Inv(s.pool) && ServerOk(s) && AtHand(s, k)
    ensures Plays(s, ms) && HasResult(Played(s, ms), k) && Played(s, ms).pool.quit == s.pool.quit
    decreases ToGo(s, k)
  {
    assert k < |s.jobs| && k < |s.pool.callers|;
    hide Inv, ServerOk, AtHand, ToGo, Can, Do;
    ms := [];
    if !HasResult(s, k) {
      var m := NextTowardsReturn(s, k);
      MoveKeepsOk(s, m);
      var rest := ReturnRun(Do(s, m), k);
      PlaysFirst(s, m, rest);
      ms := [m] + rest;
    }
  }

  // ---- A running server serves every call ----

  lemma {:induction false} RequestsStay<Q, R>(s: Server<Q, R>, ms: seq<Move<Q, R>>, k: nat)
    requires Plays(s, ms) && k < |s.jobs|
    ensures k < |Played(s, ms).jobs|
    ensures Played(s, ms).jobs[k].req == s.jobs[k].req && Played(s, ms).jobs[k].handler == s.jobs[k].handler
  {
    hide Do, Can;
    if |ms| > 0 {
      RequestsStay(s, ms[..|ms| - 1], k);
      MoveKeepsRequests(Played(s, ms[..|ms| - 1]), ms[|ms| - 1]);
    }
  }

  /** A worker's next move in Execute. */
  lemma ExecuteMove<Q, R>(s: Server<Q, R>, i: nat) returns (m: Move<Q, R>)
    requires Inv(s.pool) && ServerOk(s) && i < |s.pool.workers| && s.pool.workers[i].Executing?
    ensures i < |s.stages| && Can(s, m)
    ensures if m.EndJob? then m.i == i else
      && Do(s, m).pool == s.pool && i < |Do(s, m).stages| && StageRank(Do(s, m).stages[i]) < StageRank(s.stages[i])
  {
    WorkersNeverBlockInExecute(s, i);
    m := match s.stages[i] case Ready => RunHandler(i) case Replying(_) => SendReply(i) case _ => EndJob(i);
  }

  /** A worker that is executing gets to the end of Execute, and so of its turn. */
  lemma {:induction false} ExecuteRun<Q, R>(s: Server<Q, R>, i: nat) returns (ms: seq<Move<Q, R>>)
    requires Inv(s.pool) && ServerOk(s) && i < |s.pool.workers| && s.pool.workers[i].Executing?
    ensures Enabled(s.pool, Finish(i))
    ensures Plays(s, ms) && Played(s, ms).pool == Apply(s.pool, Finish(i))
    decreases if i < |s.stages| then StageRank(s.stages[i]) else 0
  {
    var m := ExecuteMove(s, i);
    if m.EndJob? {
      MoveIsAPoolStep(s, m);
      PlaysOne(s, m);
      ms := [m];
    } else {
      MoveKeepsOk(s, m);
      hide Inv, ServerOk, Can, Do, StageRank, Enabled, Apply;
      var rest := ExecuteRun(Do(s, m), i);
      PlaysFirst(s, m, rest);
      ms := [m] + rest;
    }
  }

  /** Whatever the pool can do without a new call, the server can do. */
  lemma LiftStep<Q, R>(s: Server<Q, R>, step: Step) returns (ms: seq<Move<Q, R>>)
    requires Inv(s.pool) && ServerOk(s) && Enabled(s.pool, step) && !step.Call?
    ensures Plays(s, ms) && Played(s, ms).pool == Apply(s.pool, step)
  {
    if step.Finish? {
      ms := ExecuteRun(s, step.i);
    } else {
      PlaysOne(s, PoolMove(step));
      ms := [PoolMove(step)];
    }
  }

  lemma {:induction false} LiftRun<Q, R>(s: Server<Q, R>, steps: seq<Step>) returns (ms: seq<Move<Q, R>>)
    requires Inv(s.pool) && ServerOk(s) && Runs(s.pool, steps) && NoNewCalls(steps)
    ensures Plays(s, ms) && Played(s, ms).pool == Exec(s.pool, steps)
  {
    hide Inv, ServerOk, Can, Do, Enabled, Apply;
    ms := [];
    if |steps| > 0 {
      var pre, step := steps[..|steps| - 1], steps[|steps| - 1];
      assert NoNewCalls(pre) by {
        forall j | 0 <= j < |pre| ensures !pre[j].Call? { assert pre[j] == steps[j]; }
      }
      var before := LiftRun(s, pre);
      PlaysKeepOk(s, before);
      var last := LiftStep(Played(s, before), step);
      PlaysCompose(s, before, last);
      ms := before + last;
    }
  }

  /** A job that is accepted stays so. */
  lemma AcceptedStays<Q, R>(s: Server<Q, R>, ms: seq<Move<Q, R>>, k: nat)
    requires Plays(s, ms) && Accepted(s.pool, k)
    ensures Accepted(Played(s, ms).pool, k)
  {
    var steps := PoolRun(s, ms);
    ResultsAreFinal(s.pool, steps, k);
  }

  /** In a running server with a worker, a call gets its job accepted. */
  lemma AcceptedRun<Q, R>(s: Server<Q, R>, k: nat) returns (ms: seq<Move<Q, R>>)
    requires Inv(s.pool) && ServerOk(s) && SightOk(s.pool) && !s.pool.quit && 0 < s.pool.max
    requires k < |s.jobs| && (WaitsUntimed(s.pool, k) || WaitsTimed(s.pool, k))
    ensures Plays(s, ms) && Accepted(Played(s, ms).pool, k) && !Played(s, ms).pool.quit
    ensures k < |Played(s, ms).jobs| && Played(s, ms).jobs[k].handler == s.jobs[k].handler
  {
    hide Inv, ServerOk, Can, Do, Runs, Exec, Plays, Played, SightOk;
    var steps := AcceptRun(s.pool, k);
    ms := LiftRun(s, steps);
    RequestsStay(s, ms, k);
  }

  /** In a running server with a worker, a call with a handler is accepted and answered by itself. */
  lemma ServeRun<Q, R>(s: Server<Q, R>, k: nat) returns (ms: seq<Move<Q, R>>)
    requires Inv(s.pool) && ServerOk(s) && SightOk(s.pool) && !s.pool.quit && 0 < s.pool.max
    requires k < |s.jobs| && s.jobs[k].handler.Some? && (WaitsUntimed(s.pool, k) || WaitsTimed(s.pool, k))
    ensures Plays(s, ms) && HasResult(Played(s, ms), k) && !Played(s, ms).pool.quit
    ensures Accepted(Played(s, ms).pool, k)
  {
    hide Inv, ServerOk, Can, Do, Runs, Exec, Plays, Played, SightOk;
    var first := AcceptedRun(s, k);
    var t := Played(s, first);
    PlaysKeepOk(s, first);
    assert AtHand(t, k);
    var rest := ReturnRun(t, k);
    AcceptedStays(t, rest, k);
    PlaysCompose(s, first, rest);
    ms := first + rest;
  }

  lemma StopAndReturn<Q, R>(s: Server<Q, R>, k: nat) returns (ms: seq<Move<Q, R>>)
    requires Inv(s.pool) && ServerOk(s) && !s.pool.quit && k < |s.jobs| && !Doomed(s, k)
    ensures Plays(s, ms) && HasResult(Played(s, ms), k)
  {
    var m: Move<Q, R> := PoolMove(Stop);
    MoveKeepsOk(s, m);
    assert AtHand(Do(s, m), k);
    hide Inv, ServerOk, Can, Do, AtHand, Doomed;
    var rest := ReturnRun(Do(s, m), k);
    PlaysFirst(s, m, rest);
    ms := [m] + rest;
  }

  lemma ReturnAlone<Q, R>(s: Server<Q, R>, k: nat) returns (ms: seq<Move<Q, R>>)
    requires Inv(s.pool) && ServerOk(s) && SightOk(s.pool) && k < |s.jobs| && !Stranded(s, k)
    ensures Plays(s, ms) && HasResult(Played(s, ms), k) && Played(s, ms).pool.quit == s.pool.quit
  {
    if WaitsUntimed(s.pool, k) && !s.pool.quit {
      ms := ServeRun(s, k);
    } else {
      ms := ReturnRun(s, k);
    }
  }

  /**
   From any reachable state an intercepted call can get its result, by a run `alone` in which nobody calls
   StopServer, if and only if it is not stranded; and by a run `ms` in which somebody may, if and only if it
   is not doomed.  Otherwise there is no result after whatever run `later` of that kind.
   */
  lemma WhenACallGetsItsResult<Q, R>(
      max: nat, before: seq<Move<Q, R>>, s: Server<Q, R>, k: nat, later: seq<Move<Q, R>>)
    returns (alone: seq<Move<Q, R>>, ms: seq<Move<Q, R>>)
    requires Plays(Start(max), before) && s == Played(Start(max), before) && k < |s.jobs| && Plays(s, later)
    ensures !Stranded(s, k) ==>
      Plays(s, alone) && HasResult(Played(s, alone), k) && Played(s, alone).pool.quit == s.pool.quit
    ensures Stranded(s, k) && Played(s, later).pool.quit == s.pool.quit ==> !HasResult(Played(s, later), k)
    ensures !Doomed(s, k) ==> Plays(s, ms) && HasResult(Played(s, ms), k)
    ensures Doomed(s, k) ==> !HasResult(Played(s, later), k)
  {
    ReachableServer(s, max, before);
    PlaysKeepOk(s, later);
    hide Inv, ServerOk, SightOk, Can, Do, Plays, Played, Stranded, Doomed;
    alone, ms := [], [];
    if Doomed(s, k) {
      DoomedForever(s, later, k);
      DoomedHasNoResult(Played(s, later), k);
    }
    if !Stranded(s, k) {
      alone := ReturnAlone(s, k);
    } else if Played(s, later).pool.quit == s.pool.quit {
      StrandedUntilStopped(s, later, k);
      StrandedHasNoResult(Played(s, later), k);
    }
    if !Doomed(s, k) {
      ms := WithOrWithoutStop(s, k);
    }
  }

  lemma WithOrWithoutStop<Q, R>(s: Server<Q, R>, k: nat) returns (ms: seq<Move<Q, R>>)
    requires Inv(s.pool) && ServerOk(s) && k < |s.jobs| && !Doomed(s, k)
    ensures Plays(s, ms) && HasResult(Played(s, ms), k)
  {
    if s.pool.quit {
      ms := ReturnRun(s, k);
    } else {
      ms := StopAndReturn(s, k);
    }
  }

  // ---- New calls ----

  lemma InterceptStep<Q, R>(s: Server<Q, R>, m: Move<Q, R>)
    requires m.Intercept? && Inv(s.pool) && ServerOk(s) && SightOk(s.pool)
    ensures Can(s, m)
    ensures var t, k := Do(s, m), |s.jobs|;
      && Inv(t.pool) && ServerOk(t) && SightOk(t.pool) && t.pool.max == s.pool.max && t.pool.quit == s.pool.quit
      && |t.jobs| == k + 1 && t.jobs[k].req == m.req && t.jobs[k].handler == m.handler
      && (WaitsUntimed(t.pool, k) || WaitsTimed(t.pool, k))
  {
    MoveKeepsOk(s, m);
  }

  /** An accepted call that has a result has that of its own job's handler. */
  lemma AcceptedResult<Q, R>(s: Server<Q, R>, k: nat)
    requires Inv(s.pool) && ServerOk(s) && HasResult(s, k) && Accepted(s.pool, k)
    ensures s.jobs[k].handler.Some? && s.jobs[k].returned == Some(Result(s.jobs[k].handler.value(s.jobs[k].req)))
  {
    if k !in s.pool.finished {
      var i: nat :| Executes(s.pool, i, k);
      assert StageOk(s.stages[i], s.jobs[k]);
    }
  }

  /**
   From every reachable state of a running server with a worker, a new call with whatever request and handler, timed
   or not, has a run without StopServer in which it returns its handler's result on its request.
   */
  lemma NewCallIsAnswered<Q, R>(
      max: nat, before: seq<Move<Q, R>>, s: Server<Q, R>, req: Q, handler: Q -> R, timed: bool)
    returns (ms: seq<Move<Q, R>>)
    requires Plays(Start(max), before) && s == Played(Start(max), before) && !s.pool.quit && 0 < max
    ensures Plays(s, [Intercept(req, Some(handler), timed)] + ms)
    ensures var t, k := Played(s, [Intercept(req, Some(handler), timed)] + ms), |s.jobs|;
      !t.pool.quit && k < |t.jobs| && t.jobs[k].returned == Some(Result(handler(req)))
  {
    ReachableServer(s, max, before);
    var m: Move<Q, R> := Intercept(req, Some(handler), timed);
    var k := |s.jobs|;
    InterceptStep(s, m);
    hide Inv, ServerOk, SightOk, Can, Do, Plays, Played;
    ms := ServeRun(Do(s, m), k);
    PlaysFirst(s, m, ms);
    PlaysKeepOk(Do(s, m), ms);
    RequestsStay(Do(s, m), ms, k);
    AcceptedResult(Played(Do(s, m), ms), k);
  }

  /** ... and a new call with a nil handler has one after which it never gets a result. */
  lemma NilHandlerCanHang<Q, R>(max: nat, before: seq<Move<Q, R>>, s: Server<Q, R>, req: Q, timed: bool)
    returns (ms: seq<Move<Q, R>>)
    requires Plays(Start(max), before) && s == Played(Start(max), before) && !s.pool.quit && 0 < max
    ensures Plays(s, [Intercept(req, None, timed)] + ms)
    ensures Doomed(Played(s, [Intercept(req, None, timed)] + ms), |s.jobs|)
  {
    ReachableServer(s, max, before);
    var m: Move<Q, R> := Intercept(req, None, timed);
    InterceptStep(s, m);
    hide Inv, ServerOk, SightOk, Can, Do, Plays, Played;
    ms := AcceptedRun(Do(s, m), |s.jobs|);
    PlaysFirst(s, m, ms);
  }
}
