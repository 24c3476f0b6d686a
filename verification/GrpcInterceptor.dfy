/**
 The gRPC worker-pool middleware: an intercepted call submits a job to the pool and blocks on the job's
 capacity-1 reply channel; a worker's Execute runs the call's handler and sends the result there.
 Call k, job k and pool caller k are the same number.
 */
module GrpcInterceptor {
  import opened Options
  import opened Sums
  import opened PoolProtocol
  import opened PoolTheorems
  import opened PoolServer

  /** A handler's result, response and error together, as a function of the request; None is a nil handler. */
  datatype Job<!Q, !R> = Job(req: Q, handler: Option<Q -> R>, reply: Option<R>, runs: nat, returned: Option<Outcome<R>>)

  /** What the interceptor returns: the handler's result, or the wrapped queueing error. */
  datatype Outcome<+R> = Result(r: R) | QueueError

  /** How far a worker is in Execute. */
  datatype Stage<+R> = Ready | Replying(r: R) | Sent | Broken

  datatype Server<!Q, !R> = Server(pool: Pool, jobs: seq<Job<Q, R>>, stages: seq<Stage<R>>)

  datatype Move<!Q, !R> =
    | Intercept(req: Q, handler: Option<Q -> R>, timed: bool)
    | PoolMove(step: Step)
    | RunHandler(i: nat) | SendReply(i: nat) | EndJob(i: nat)
    | ReturnError(k: nat) | ReturnReply(k: nat)

  ghost function Start<Q, R>(max: nat): Server<Q, R> {
    Server(Init(max), [], seq(max, _ => Ready))
  }

  ghost predicate Busy<Q, R>(s: Server<Q, R>, i: nat) {
    i < |s.pool.workers| && s.pool.workers[i].Executing? && i < |s.stages| && s.pool.workers[i].job < |s.jobs|
  }

  ghost predicate Can<Q, R>(s: Server<Q, R>, m: Move<Q, R>) {
    match m
    case Intercept(_, _, _) => true
    case PoolMove(step) => Enabled(s.pool, step) && !step.Call? && !step.Finish?
    case RunHandler(i) => Busy(s, i) && s.stages[i].Ready?
    case SendReply(i) => Busy(s, i) && s.stages[i].Replying? && s.jobs[s.pool.workers[i].job].reply.None?
    case EndJob(i) => Busy(s, i) && (s.stages[i].Sent? || s.stages[i].Broken?)
    case ReturnError(k) => k < |s.jobs| && k < |s.pool.callers| && s.pool.callers[k].Failed? && s.jobs[k].returned.None?
    case ReturnReply(k) =>
      && k < |s.jobs| && k < |s.pool.callers| && s.pool.callers[k].Queued?
      && s.jobs[k].returned.None? && s.jobs[k].reply.Some?
  }

  ghost function SetJob<Q, R>(s: Server<Q, R>, k: nat, job: Job<Q, R>): Server<Q, R>
    requires k < |s.jobs|
  {
    s.(jobs := s.jobs[k := job])
  }

  ghost function Do<Q, R>(s: Server<Q, R>, m: Move<Q, R>): Server<Q, R>
    requires Can(s, m)
  {
    match m
    case Intercept(req, handler, timed) =>
      s.(pool := Apply(s.pool, Call(timed)), jobs := s.jobs + [Job(req, handler, None, 0, None)])
    case PoolMove(step) => s.(pool := Apply(s.pool, step))
    case RunHandler(i) =>
      var k := s.pool.workers[i].job;
      var job := s.jobs[k];
      if job.handler.None? then s.(stages := s.stages[i := Broken])
      else SetJob(s, k, job.(runs := job.runs + 1)).(stages := s.stages[i := Replying(job.handler.value(job.req))])
    case SendReply(i) =>
      var k := s.pool.workers[i].job;
      SetJob(s, k, s.jobs[k].(reply := Some(s.stages[i].r))).(stages := s.stages[i := Sent])
    case EndJob(i) => s.(pool := Apply(s.pool, Finish(i)), stages := s.stages[i := Ready])
    case ReturnError(k) => SetJob(s, k, s.jobs[k].(returned := Some(QueueError)))
    case ReturnReply(k) => SetJob(s, k, s.jobs[k].(reply := None, returned := Some(Result(s.jobs[k].reply.value))))
  }

  // ---- Invariants ----

  /** Nothing has happened to the job. */
  ghost predicate Untouched<Q, R>(job: Job<Q, R>) {
    job.runs == 0 && job.reply.None? && job.returned.None?
  }

  /** The handler has run once and its own result is in the reply channel or has been returned. */
  ghost predicate Answered<Q, R>(job: Job<Q, R>) {
    && job.runs == 1 && job.handler.Some?
    && var r := job.handler.value(job.req);
       (job.reply == Some(r) && job.returned.None?) || (job.reply.None? && job.returned == Some(Result(r)))
  }

  ghost predicate StageOk<Q, R>(stage: Stage<R>, job: Job<Q, R>) {
    match stage
    case Ready => Untouched(job)
    case Replying(r) =>
      && job.runs == 1 && job.reply.None? && job.returned.None?
      && job.handler.Some? && r == job.handler.value(job.req)
    case Sent => Answered(job)
    case Broken => Untouched(job) && job.handler.None?
  }

  ghost predicate RefusedOk<Q, R>(job: Job<Q, R>, c: Caller) {
    job.runs == 0 && job.reply.None? && (job.returned.None? || (c.Failed? && job.returned == Some(QueueError)))
  }

  ghost predicate DoneOk<Q, R>(job: Job<Q, R>) {
    if job.handler.None? then Untouched(job) else Answered(job)
  }

  ghost predicate ServerOk<Q, R>(s: Server<Q, R>) {
    && |s.jobs| == |s.pool.callers| && |s.stages| == |s.pool.workers|
    && (forall i | 0 <= i < |s.stages| && !s.stages[i].Ready? :: s.pool.workers[i].Executing?)
    && (forall i: nat, k: nat | Executes(s.pool, i, k) :: k < |s.jobs| && StageOk(s.stages[i], s.jobs[k]))
    && (forall k | k in s.pool.finished :: k < |s.jobs| && DoneOk(s.jobs[k]))
    && (forall k | 0 <= k < |s.jobs| && !s.pool.callers[k].Queued? :: RefusedOk(s.jobs[k], s.pool.callers[k]))
  }

  lemma StartOk<Q, R>(max: nat)
    ensures Inv(Start<Q, R>(max).pool) && ServerOk(Start<Q, R>(max))
  {
    InitInv(max);
  }

  /** What a move is to the pool: one step, or nothing. */
  function PoolStep<Q, R>(m: Move<Q, R>): Option<Step> {
    match m
    case Intercept(_, _, timed) => Some(Call(timed))
    case PoolMove(step) => Some(step)
    case EndJob(i) => Some(Finish(i))
    case _ => None
  }

  lemma MoveIsAPoolStep<Q, R>(s: Server<Q, R>, m: Move<Q, R>)
    requires Can(s, m)
    ensures match PoolStep(m)
      case Some(step) => Enabled(s.pool, step) && Do(s, m).pool == Apply(s.pool, step)
      case None => Do(s, m).pool == s.pool
  {
  }

  lemma PoolStaysOk<Q, R>(s: Server<Q, R>, m: Move<Q, R>)
    requires Inv(s.pool) && Can(s, m)
    ensures Inv(Do(s, m).pool)
  {
    MoveIsAPoolStep(s, m);
    hide Inv, Apply, Enabled, Do, Can, PoolStep;
    if PoolStep(m).Some? {
      StepKeepsInv(s.pool, PoolStep(m).value);
    }
  }

  lemma BusyCanFinish<Q, R>(s: Server<Q, R>, i: nat)
    requires Busy(s, i)
    ensures Enabled(s.pool, Finish(i))
  {
  }

  /** A pool step other than Call and Finish leaves executing workers and results alone, or hands a job over. */
  ghost predicate Handover(s: Pool, t: Pool, step: Step) {
    && t.finished == s.finished && |t.workers| == |s.workers| && |t.callers| == |s.callers|
    && (forall i | 0 <= i < |s.workers| ::
          t.workers[i].Executing? ==> t.workers[i] == s.workers[i] || (step.Deliver? && t.workers[i].job == step.k))
    && (forall i | 0 <= i < |s.workers| :: s.workers[i].Executing? ==> t.workers[i] == s.workers[i])
    && (forall k | 0 <= k < |s.callers| ::
          || t.callers[k] == s.callers[k]
          || (!s.callers[k].Queued? && !s.callers[k].Failed? && (t.callers[k].Queued? ==> step == Deliver(k))))
    && (step.Deliver? ==> step.k < |s.callers| && !s.callers[step.k].Queued? && !s.callers[step.k].Failed?)
  }

  lemma PoolMoveEffect(s: Pool, step: Step)
    requires Enabled(s, step) && !step.Call? && !step.Finish?
    ensures Handover(s, Apply(s, step), step)
  {
    if OfWorker(step) {
      WorkerEffect(s, step);
    } else if OfCaller(step) {
      CallerEffect(s, step);
    }
  }

  lemma WorkerEffect(s: Pool, step: Step)
    requires Enabled(s, step) && OfWorker(step) && !step.Finish?
    ensures Handover(s, Apply(s, step), step)
  {
    match step
    case RLock(_) =>
    case Check(_) =>
    case Register(_) =>
    case RUnlock(_) =>
    case LeaveUnlock(_) =>
    case CloseChannel(_) =>
    case QuitWorker(_) =>
  }

  lemma CallerEffect(s: Pool, step: Step)
    requires Enabled(s, step) && OfCaller(step) && !step.Call?
    ensures Handover(s, Apply(s, step), step)
  {
    match step
    case ReadPool(_, _) =>
    case Take(_) =>
    case TimeOut(_) =>
    case GiveUp(_) =>
    case Deliver(_) =>
  }

  lemma PoolMoveOk<Q, R>(s: Server<Q, R>, step: Step)
    requires ServerOk(s) && Can(s, PoolMove(step))
    ensures ServerOk(Do(s, PoolMove(step)))
  {
    PoolMoveEffect(s.pool, step);
    var t := Apply(s.pool, step);
    hide Apply;
    forall i: nat, k: nat | Executes(t, i, k) ensures k < |s.jobs| && StageOk(s.stages[i], s.jobs[k]) {
      if Executes(s.pool, i, k) {
      } else {
        assert RefusedOk(s.jobs[k], s.pool.callers[k]);
      }
    }
  }

  lemma InterceptOk<Q, R>(s: Server<Q, R>, m: Move<Q, R>)
    requires Inv(s.pool) && ServerOk(s) && m.Intercept?
    ensures ServerOk(Do(s, m))
  {
    var t := Do(s, m);
    forall i: nat, k: nat | Executes(t.pool, i, k) ensures Executes(s.pool, i, k) {}
  }

  lemma EndJobOk<Q, R>(s: Server<Q, R>, i: nat)
    requires Inv(s.pool) && ServerOk(s) && Can(s, EndJob(i))
    ensures ServerOk(Do(s, EndJob(i)))
  {
    var t := Do(s, EndJob(i));
    assert Executes(s.pool, i, s.pool.workers[i].job);
    forall j: nat, k: nat | Executes(t.pool, j, k) ensures Executes(s.pool, j, k) && j != i {}
  }

  /** A change to job `k` and to the worker that executes it, if any, in step. */
  lemma JobChangeOk<Q, R>(s: Server<Q, R>, t: Server<Q, R>, k: nat)
    requires Inv(s.pool) && ServerOk(s) && k < |s.jobs| == |t.jobs| && t.pool == s.pool && |t.stages| == |s.stages|
    requires t.jobs == s.jobs[k := t.jobs[k]]
    requires forall i | 0 <= i < |s.stages| :: t.stages[i] == s.stages[i] || Executes(s.pool, i, k)
    requires forall i: nat | Executes(s.pool, i, k) :: StageOk(t.stages[i], t.jobs[k])
    requires k in s.pool.finished ==> DoneOk(t.jobs[k])
    requires !s.pool.callers[k].Queued? ==> RefusedOk(t.jobs[k], s.pool.callers[k])
    ensures ServerOk(t)
  {
    forall i: nat, l: nat | Executes(t.pool, i, l) ensures l < |t.jobs| && StageOk(t.stages[i], t.jobs[l]) {
      assert Executes(s.pool, i, l);
    }
    forall i | 0 <= i < |t.stages| && !t.stages[i].Ready? ensures t.pool.workers[i].Executing? {}
  }

  lemma WorkerMoveOk<Q, R>(s: Server<Q, R>, m: Move<Q, R>)
    requires Inv(s.pool) && ServerOk(s) && Can(s, m) && (m.RunHandler? || m.SendReply?)
    ensures ServerOk(Do(s, m))
  {
    var t, k := Do(s, m), s.pool.workers[m.i].job;
    assert Executes(s.pool, m.i, k);
    assert s.pool.callers[k].Queued? && k !in s.pool.finished;
    assert StageOk(s.stages[m.i], s.jobs[k]);
    forall i: nat | Executes(s.pool, i, k) ensures i == m.i {}
    assert s.jobs[k := s.jobs[k]] == s.jobs;
    JobChangeOk(s, t, k);
  }

  lemma ReturnOk<Q, R>(s: Server<Q, R>, m: Move<Q, R>)
    requires Inv(s.pool) && ServerOk(s) && Can(s, m) && (m.ReturnError? || m.ReturnReply?)
    ensures ServerOk(Do(s, m))
  {
    var t, k := Do(s, m), m.k;
    forall i: nat | Executes(s.pool, i, k) ensures StageOk(t.stages[i], t.jobs[k]) {
      assert StageOk(s.stages[i], s.jobs[k]);
    }
    JobChangeOk(s, t, k);
  }

  lemma MoveKeepsOk<Q, R>(s: Server<Q, R>, m: Move<Q, R>)
    requires Inv(s.pool) && ServerOk(s) && Can(s, m)
    ensures Inv(Do(s, m).pool) && ServerOk(Do(s, m))
  {
    hide Inv, ServerOk, Do, Can;
    PoolStaysOk(s, m);
    match m
    case Intercept(_, _, _) => InterceptOk(s, m);
    case PoolMove(step) => PoolMoveOk(s, step);
    case RunHandler(_) => WorkerMoveOk(s, m);
    case SendReply(_) => WorkerMoveOk(s, m);
    case EndJob(i) => EndJobOk(s, i);
    case ReturnError(_) => ReturnOk(s, m);
    case ReturnReply(_) => ReturnOk(s, m);
  }

  // ---- Every run ----

  ghost predicate Plays<Q, R>(s: Server<Q, R>, ms: seq<Move<Q, R>>)
    decreases |ms|, 0
  {
    |ms| > 0 ==> Plays(s, ms[..|ms| - 1]) && Can(Played(s, ms[..|ms| - 1]), ms[|ms| - 1])
  }

  ghost function Played<Q, R>(s: Server<Q, R>, ms: seq<Move<Q, R>>): Server<Q, R>
    requires Plays(s, ms)
    decreases |ms|, 1
  {
    if |ms| == 0 then s else Do(Played(s, ms[..|ms| - 1]), ms[|ms| - 1])
  }

  lemma PlaysOne<Q, R>(s: Server<Q, R>, m: Move<Q, R>)
    requires Can(s, m)
    ensures Plays(s, [m]) && Played(s, [m]) == Do(s, m)
  {
    assert [m][..0] == [];
    assert Plays(s, []) && Played(s, []) == s;
  }

  lemma {:induction false} PlaysCompose<Q, R>(s: Server<Q, R>, xs: seq<Move<Q, R>>, ys: seq<Move<Q, R>>)
    requires Plays(s, xs) && Plays(Played(s, xs), ys)
    ensures Plays(s, xs + ys) && Played(s, xs + ys) == Played(Played(s, xs), ys)
  {
    hide Can, Do;
    if |ys| == 0 {
      assert xs + ys == xs;
    } else {
      PlaysCompose(s, xs, ys[..|ys| - 1]);
      assert (xs + ys)[..|xs + ys| - 1] == xs + ys[..|ys| - 1];
    }
  }

  /** A move and then a run. */
  lemma PlaysFirst<Q, R>(s: Server<Q, R>, m: Move<Q, R>, ms: seq<Move<Q, R>>)
    requires Can(s, m) && Plays(Do(s, m), ms)
    ensures Plays(s, [m] + ms) && Played(s, [m] + ms) == Played(Do(s, m), ms)
  {
    hide Can, Do;
    PlaysOne(s, m);
    PlaysCompose(s, [m], ms);
  }

  lemma {:induction false} PlaysKeepOk<Q, R>(s: Server<Q, R>, ms: seq<Move<Q, R>>)
    requires Inv(s.pool) && ServerOk(s) && Plays(s, ms)
    ensures Inv(Played(s, ms).pool) && ServerOk(Played(s, ms))
  {
    hide Inv, ServerOk, Do, Can;
    if |ms| > 0 {
      PlaysKeepOk(s, ms[..|ms| - 1]);
      MoveKeepsOk(Played(s, ms[..|ms| - 1]), ms[|ms| - 1]);
    }
  }

  /** Every job is refused so far, done, or at some stage on one worker. */
  lemma JobIsSomewhere<Q, R>(s: Server<Q, R>, k: nat)
    requires Inv(s.pool) && ServerOk(s) && k < |s.jobs|
    ensures || RefusedOk(s.jobs[k], s.pool.callers[k])
            || DoneOk(s.jobs[k])
            || exists i: nat :: Executes(s.pool, i, k) && StageOk(s.stages[i], s.jobs[k])
  {
    if s.pool.callers[k].Queued? && k !in s.pool.finished {
      var i: nat :| Executes(s.pool, i, k);
      assert StageOk(s.stages[i], s.jobs[k]);
    }
  }

  /** The intercepted calls of a run, in the order they were made. */
  ghost function Intercepts<Q, R>(ms: seq<Move<Q, R>>): (calls: seq<Move<Q, R>>)
    ensures forall k | 0 <= k < |calls| :: calls[k].Intercept?
  {
    if |ms| == 0 then [] else
      Intercepts(ms[..|ms| - 1]) + (if ms[|ms| - 1].Intercept? then [ms[|ms| - 1]] else [])
  }

  /** Job `k` is that of the k-th call: its request and handler, and QueueJob called as that call does. */
  ghost predicate JobsAreOfCalls<Q, R>(s: Server<Q, R>, calls: seq<Move<Q, R>>) {
    && |s.jobs| == |calls| == |s.pool.callers|
    && (forall k | 0 <= k < |calls| ::
          && calls[k].Intercept? && s.jobs[k].req == calls[k].req && s.jobs[k].handler == calls[k].handler
          && (s.pool.callers[k].Called? || s.pool.callers[k].Selecting? ==> s.pool.callers[k].timed == calls[k].timed)
          && (s.pool.callers[k].Failed? ==> calls[k].timed || s.pool.quit))
  }

  /** Somebody has called StopServer. */
  ghost predicate StopMade<Q, R>(ms: seq<Move<Q, R>>) {
    |ms| > 0 && (ms[|ms| - 1] == PoolMove(Stop) || StopMade(ms[..|ms| - 1]))
  }

  ghost function Timings<Q, R>(calls: seq<Move<Q, R>>): (timed: seq<bool>)
    requires forall k | 0 <= k < |calls| :: calls[k].Intercept?
    ensures |timed| == |calls| && forall k | 0 <= k < |calls| :: timed[k] == calls[k].timed
  {
    seq(|calls|, k requires 0 <= k < |calls| => calls[k].timed)
  }

  /** A move makes a job only for a new call, and leaves every job its request and handler. */
  lemma MoveKeepsRequests<Q, R>(s: Server<Q, R>, m: Move<Q, R>)
    requires Can(s, m)
    ensures var t := Do(s, m);
      && |t.jobs| == |s.jobs| + (if m.Intercept? then 1 else 0)
      && (forall k | 0 <= k < |s.jobs| :: t.jobs[k].req == s.jobs[k].req && t.jobs[k].handler == s.jobs[k].handler)
      && (m.Intercept? ==> t.jobs[|s.jobs|].req == m.req && t.jobs[|s.jobs|].handler == m.handler)
  {
  }

  lemma CallsStep<Q, R>(s: Server<Q, R>, calls: seq<Move<Q, R>>, m: Move<Q, R>)
    requires JobsAreOfCalls(s, calls) && Can(s, m)
    ensures JobsAreOfCalls(Do(s, m), calls + if m.Intercept? then [m] else [])
    ensures Do(s, m).pool.quit <==> s.pool.quit || m == PoolMove(Stop)
  {
    var now := calls + if m.Intercept? then [m] else [];
    MoveIsAPoolStep(s, m);
    MoveKeepsRequests(s, m);
    assert CallersOk(s.pool, Timings(calls));
    OnlyInterceptCalls(s, m);
    assert PoolStep(m) == Some(Stop) <==> m == PoolMove(Stop);
    hide Do, Can, Apply, Enabled, PoolStep;
    if PoolStep(m).Some? {
      CallersStep(s.pool, Timings(calls), PoolStep(m).value);
      assert Timings(now) == Timings(calls) + if m.Intercept? then [m.timed] else [];
    }
    assert CallersOk(Do(s, m).pool, Timings(now));
  }

  lemma OnlyInterceptCalls<Q, R>(s: Server<Q, R>, m: Move<Q, R>)
    requires Can(s, m)
    ensures if m.Intercept? then PoolStep(m) == Some(Call(m.timed)) else PoolStep(m).Some? ==> !PoolStep(m).value.Call?
  {
  }

  lemma {:induction false} EveryJobIsItsCall<Q, R>(max: nat, ms: seq<Move<Q, R>>)
    requires Plays(Start(max), ms)
    ensures JobsAreOfCalls(Played(Start(max), ms), Intercepts(ms))
    ensures Played(Start(max), ms).pool.quit <==> StopMade(ms)
  {
    hide Do, Can, JobsAreOfCalls;
    if |ms| == 0 {
      NoJobsAtFirst<Q, R>(max);
    } else {
      EveryJobIsItsCall(max, ms[..|ms| - 1]);
      CallsStep(Played(Start(max), ms[..|ms| - 1]), Intercepts(ms[..|ms| - 1]), ms[|ms| - 1]);
    }
  }

  lemma NoJobsAtFirst<Q, R>(max: nat)
    ensures JobsAreOfCalls(Start<Q, R>(max), []) && !Start<Q, R>(max).pool.quit
  {
  }

  /**
   Whatever the interleaving, an intercepted call that has returned got either the result of the handler it was
   made with on the request it was made with, that handler having run exactly once; or the queueing error, the
   handler not having run, which happens only to a call with a timeout or once StopServer was called.
   */
  lemma RepliesAreNeverCrossed<Q, R>(max: nat, ms: seq<Move<Q, R>>, k: nat)
    requires Plays(Start(max), ms) && k < |Played(Start(max), ms).jobs|
    ensures |Intercepts(ms)| == |Played(Start(max), ms).jobs|
    ensures var job, call := Played(Start(max), ms).jobs[k], Intercepts(ms)[k];
      && job.runs <= 1
      && match job.returned
         case None => true
         case Some(QueueError) => job.runs == 0 && (call.timed || StopMade(ms))
         case Some(Result(r)) => job.runs == 1 && call.handler.Some? && r == call.handler.value(call.req)
  {
    StartOk<Q, R>(max);
    PlaysKeepOk(Start(max), ms);
    EveryJobIsItsCall(max, ms);
    JobIsSomewhere(Played(Start(max), ms), k);
  }

  /** A call refused by the queue never has its handler run, in any continuation. */
  lemma {:induction false} RefusedNeverRuns<Q, R>(s: Server<Q, R>, ms: seq<Move<Q, R>>, k: nat)
    requires Inv(s.pool) && ServerOk(s) && Plays(s, ms) && k < |s.jobs| && s.pool.callers[k].Failed?
    ensures var t := Played(s, ms); k < |t.jobs| == |t.pool.callers| && t.jobs[k].runs == 0 && t.pool.callers[k].Failed?
  {
    PlaysKeepOk(s, ms);
    if |ms| > 0 {
      var pre, m := ms[..|ms| - 1], ms[|ms| - 1];
      RefusedNeverRuns(s, pre, k);
      hide Inv, Plays;
      FailedStays(Played(s, pre), m, k);
    }
  }

  lemma FailedStays<Q, R>(s: Server<Q, R>, m: Move<Q, R>, k: nat)
    requires Can(s, m) && k < |s.pool.callers| && s.pool.callers[k].Failed?
    ensures k < |Do(s, m).pool.callers| && Do(s, m).pool.callers[k].Failed?
  {
    MoveIsAPoolStep(s, m);
    hide Do, Can, Apply, Enabled, PoolStep;
    if PoolStep(m).Some? {
      ResultStays(s.pool, PoolStep(m).value, k);
    }
  }

  /** A worker never blocks in Execute: the reply channel has room, and every stage has a next move. */
  lemma WorkersNeverBlockInExecute<Q, R>(s: Server<Q, R>, i: nat)
    requires Inv(s.pool) && ServerOk(s) && i < |s.pool.workers| && s.pool.workers[i].Executing?
    ensures Can(s,
      match s.stages[i] case Ready => RunHandler(i) case Replying(_) => SendReply(i) case _ => EndJob(i))
  {
    assert Executes(s.pool, i, s.pool.workers[i].job);
    assert StageOk(s.stages[i], s.jobs[s.pool.workers[i].job]);
  }

  // ---- Execute itself ----

  /** grpc.JobHandler; `c` is None when the channel is nil, else what its one slot holds. */
  class JobHandler<Q, R> {
    const req: Q
    const handler: Option<Q -> R>
    var c: Option<Option<R>>
    ghost var runs: nat

    constructor (req: Q, handler: Option<Q -> R>, c: Option<Option<R>>)
      ensures this.req == req && this.handler == handler && this.c == c && runs == 0
    {
      this.req, this.handler, this.c, runs := req, handler, c, 0;
    }

    /** Execute, when the send cannot block: nil means a reply was sent, an error that nothing was done. */
    method Execute() returns (ok: bool)
      requires c.Some? ==> c.value.None?
      modifies this
      ensures ok <==> handler.Some? && old(c).Some?
      ensures ok ==> c == Some(Some(handler.value(req))) && runs == old(runs) + 1
      ensures !ok ==> c == old(c) && runs == old(runs)
    {
      if handler.None? {
        return false;
      }
      if c.None? {
        return false;
      }
      var r := handler.value(req);
      runs := runs + 1;
      c := Some(Some(r));
      return true;
    }
  }

  /**
   The interceptor closure, run until it returns or has to wait, the worker whose channel was taken running
   its part at once: the call's own job is made, queued and executed, and its reply returned.  None is a call
   still waiting in the queue, or for the reply that a job with a nil handler never sends.
   */
  method InterceptCall<Q, R>(w: WorkerServer, req: Q, handler: Option<Q -> R>, timed: bool, expired: bool)
    returns (r: Option<Outcome<R>>, job: JobHandler<Q, R>)
    requires Inv(w.State()) && (expired ==> timed)
    modifies w
    ensures fresh(job) && job.req == req && job.handler == handler
    ensures |w.callers| == |old(w.callers)| + 1
    ensures var k := |old(w.callers)|;
      match r
      case Some(Result(reply)) =>
        && handler.Some? && reply == handler.value(req) && job.runs == 1
        && w.callers[k] == Queued && w.finished == old(w.finished) + [k]
      case Some(QueueError) =>
        && job.runs == 0 && w.callers[k] == Failed && (w.quit || expired) && w.finished == old(w.finished)
      case None =>
        && job.runs == 0
        && if w.callers[k].Queued? then handler.None? && w.finished == old(w.finished) + [k]
           else (w.callers[k].Selecting? || w.callers[k].Holding?) && w.finished == old(w.finished)
  {
    hide Runs, Exec, LockOk, OwnershipOk, JobsOk;
    job := new JobHandler(req, handler, Some(None));
    var taken := if |w.workerPool| > 0 then w.workerPool[0] else 0;
    var outcome, run := w.QueueJob(timed, expired);
    if outcome.Failed? {
      return Some(QueueError), job;
    }
    if !outcome.Queued? {
      return None, job;
    }
    var ok := job.Execute();
    w.FinishJob(taken);
    if !ok {
      return None, job;
    }
    r := Some(Result(job.c.value.value));
    job.c := Some(None);
  }
}
