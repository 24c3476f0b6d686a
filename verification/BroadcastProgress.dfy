/**
 Every run of the broadcaster's calls and dispatcher comes to rest; what holds there; and whether Close and
 a refused call get through.
 */
module BroadcastProgress {
  import opened Options
  import opened Sums
  import opened BroadcastLog
  import opened BroadcastProtocol
  import opened BroadcastTheorems
  import opened BroadcastOutcomes

  // ---- Calls and dispatcher come to rest ----

  function CallRank<V>(call: Call<V>): nat {
    match call
    case Called(_) => 6
    case Checking(_) => 5
    case Offering(_) => 4
    case Awaiting => 2
    case Unlocking(_) => 1
    case Returned(_) => 0
  }

  function DispatcherRank<V>(d: Dispatcher<V>): nat {
    match d
    case Sending(_, _) => 7
    case Replying(_) => 7
    case Selecting => 6
    case Locking => 5
    case Closing(stage) => if stage <= 3 then 4 - stage else 0
    case Exited => 0
  }

  ghost function Work<V>(s: Net<V>): nat {
    Sum(s.calls, (call: Call<V>) => CallRank(call)) + DispatcherRank(s.d)
  }

  /** A step of a call or of the dispatcher, not of a reader or of whoever calls Write, Listen or Close. */
  ghost predicate OfWriting<V>(step: Step<V>) {
    OfDispatcher(step) || step.RLock? || step.Check? || step.RUnlock?
  }

  lemma CallMoves<V>(s: Net<V>, k: nat, call: Call<V>)
    requires k < |s.calls|
    ensures Sum(s.calls[k := call], (c: Call<V>) => CallRank(c)) + CallRank(s.calls[k]) ==
            Sum(s.calls, (c: Call<V>) => CallRank(c)) + CallRank(call)
  {
    SumUpdate(s.calls, (c: Call<V>) => CallRank(c), k, call);
  }

  lemma CallStepShrinks<V>(s: Net<V>, step: Step<V>)
    requires Enabled(s, step) && (step.RLock? || step.Check? || step.RUnlock?)
    ensures Work(Apply(s, step)) < Work(s)
  {
    hide Sum;
    CallMoves(s, step.k, Apply(s, step).calls[step.k]);
  }

  lemma DispatcherStepShrinks<V>(s: Net<V>, step: Step<V>)
    requires PhaseOk(s) && Enabled(s, step) && OfDispatcher(step)
    ensures Work(Apply(s, step)) < Work(s)
  {
    hide Sum;
    match step
    case TakeWrite(k) => CallMoves(s, k, Unlocking(Accepted));
    case TakeListen(k) => CallMoves(s, k, Awaiting);
    case SendReply => CallMoves(s, s.d.listener, Unlocking(Listening));
    case SendCell =>
    case NoticeShutdown =>
    case Lock =>
    case CloseNext =>
  }

  /** The other steps leave the work alone, but for a new call's six steps. */
  lemma OtherStepsKeepWork<V>(s: Net<V>, step: Step<V>)
    requires Enabled(s, step) && !OfWriting(step)
    ensures |Apply(s, step).calls| == |s.calls| + (if step.Begin? then 1 else 0)
    ensures Work(Apply(s, step)) == Work(s) + (if step.Begin? then 6 else 0)
  {
    hide Sum;
    match step
    case Begin(req) => SumSnoc(s.calls, (c: Call<V>) => CallRank(c), Called(req));
    case Close =>
    case BeginRead(_, _) =>
    case Take(_) =>
    case Handle(_) =>
    case PutBack(_) =>
    case ReadShutdown(_) =>
  }

  lemma CallsStay<V>(s: Net<V>, step: Step<V>)
    requires Enabled(s, step) && OfWriting(step)
    ensures |Apply(s, step).calls| == |s.calls|
  {
    match step
    case RLock(_) =>
    case Check(_) =>
    case RUnlock(_) =>
    case TakeWrite(_) =>
    case TakeListen(_) =>
    case SendReply =>
    case SendCell =>
    case NoticeShutdown =>
    case Lock =>
    case CloseNext =>
  }

  /** How many of the steps are a call's or the dispatcher's. */
  ghost function Writing<V>(steps: seq<Step<V>>): nat {
    if |steps| == 0 then 0 else
      Writing(steps[..|steps| - 1]) + (if OfWriting(steps[|steps| - 1]) then 1 else 0)
  }

  /** Calls and dispatcher take at most six steps for each call and the six from the select to the return. */
  lemma {:induction false} CallsSettle<V>(s: Net<V>, steps: seq<Step<V>>)
    requires PhaseOk(s) && Runs(s, steps)
    ensures PhaseOk(Exec(s, steps)) && |s.calls| <= |Exec(s, steps).calls|
    ensures Writing(steps) + Work(Exec(s, steps)) <= Work(s) + 6 * (|Exec(s, steps).calls| - |s.calls|)
  {
    hide PhaseOk, Work, Enabled, Apply, OfWriting;
    if |steps| > 0 {
      var pre, step := steps[..|steps| - 1], steps[|steps| - 1];
      var t := Exec(s, pre);
      CallsSettle(s, pre);
      PhaseStep(t, step);
      StepSettles(t, step);
    }
  }

  lemma StepSettles<V>(s: Net<V>, step: Step<V>)
    requires PhaseOk(s) && Enabled(s, step)
    ensures |s.calls| <= |Apply(s, step).calls|
    ensures Work(Apply(s, step)) + (if OfWriting(step) then 1 else 0) <=
      Work(s) + 6 * (|Apply(s, step).calls| - |s.calls|)
  {
    hide PhaseOk, Work, Enabled, Apply;
    if OfDispatcher(step) {
      DispatcherStepShrinks(s, step);
      CallsStay(s, step);
    } else if OfWriting(step) {
      CallStepShrinks(s, step);
      CallsStay(s, step);
    } else {
      OtherStepsKeepWork(s, step);
    }
  }

  // ---- At rest ----

  /**
   No call and not the dispatcher can move.  A call at RLock does not count while the dispatcher waits for
   the lock: Go keeps new readers out then, though the model's runs may let them in.
   */
  ghost predicate AtRest<V>(s: Net<V>) {
    && !Enabled(s, SendCell) && !Enabled(s, SendReply) && !Enabled(s, NoticeShutdown)
    && !Enabled(s, Step.Lock) && !Enabled(s, CloseNext)
    && (forall k: nat :: !Enabled(s, Check(k)) && !Enabled(s, RUnlock(k)))
    && (forall k: nat :: !Enabled(s, TakeWrite(k)) && !Enabled(s, TakeListen(k)))
    && (forall k: nat :: Enabled(s, RLock(k)) ==> s.d.Locking?)
  }

  ghost predicate AllReturned<V>(s: Net<V>) {
    forall k | 0 <= k < |s.calls| :: s.calls[k].Returned?
  }

  ghost predicate Offers<V>(s: Net<V>, k: nat) {
    k < |s.calls| && s.calls[k].Offering?
  }

  /**
   At rest either every Write and Listen has returned, and the dispatcher is at its select or, after Close,
   has returned; or Close is blocked: the dispatcher waits for the lock and a call that holds it waits for
   the dispatcher.  Without Close every Write has been accepted and every Listen has its receiver.
   */
  lemma WhenAtRest<V>(s: Net<V>, a: Log<V>, steps: seq<Step<V>>)
    requires Reachable(s, a, steps) && AtRest(s)
    ensures s.d.Locking? <==> exists k :: Offers(s, k)
    ensures !s.d.Locking? ==> AllReturned(s) && if s.shutdown then s.d.Exited? else s.d.Selecting?
    ensures s.d.Locking? ==> s.shutdown
    ensures |Requests(steps)| == |s.calls| && (s.shutdown <==> CloseCalled(steps))
    ensures !s.shutdown ==> forall k | 0 <= k < |s.calls| ::
      s.calls[k] == Returned(if Requests(steps)[k].Write? then Accepted else Listening)
  {
    ReachableRefines(steps);
    RunOutcomes(steps);
    ShutdownIsClose(Init(), steps);
    DispatcherAtRest(s, a);
    assert PhaseOk(s) && LockOk(s) by { RefinesPhase(s, a); }
    hide Reachable, Refines, Runs, Exec, Requests, AtRest, AllowsAll, AfterAll, EntriesOk, Trace, PhaseOk, LockOk;
    hide AllReturned, RefusalsOk;
    if s.d.Locking? {
      LockIsTaken(s);
    } else {
      CallsAtRest(s, Requests(steps));
      NoOffers(s);
    }
  }

  lemma RefinesPhase<V>(s: Net<V>, a: Log<V>)
    requires Refines(s, a)
    ensures PhaseOk(s) && LockOk(s)
  {
  }

  lemma NoOffers<V>(s: Net<V>)
    requires AllReturned(s)
    ensures !exists k :: Offers(s, k)
  {
  }

  lemma CallsAtRest<V>(s: Net<V>, reqs: seq<Request<V>>)
    requires PhaseOk(s) && LockOk(s) && AtRest(s) && CallsOk(s, reqs) && RefusalsOk(s)
    requires (s.d.Selecting? && !s.shutdown) || (s.d.Exited? && s.shutdown)
    ensures AllReturned(s)
    ensures !s.shutdown ==> forall k | 0 <= k < |s.calls| ::
      s.calls[k] == Returned(if reqs[k].Write? then Accepted else Listening)
  {
    forall k | 0 <= k < |s.calls|
      ensures s.calls[k].Returned?
      ensures !s.shutdown ==> s.calls[k] == Returned(if reqs[k].Write? then Accepted else Listening)
    {
      CallAtRest(s, k);
      assert CallOk(s.calls[k], reqs[k]);
      assert s.calls[k].reply.Refused? ==> Replied(s.calls[k], Refused);
    }
  }

  lemma DispatcherAtRest<V>(s: Net<V>, a: Log<V>)
    requires Refines(s, a) && AtRest(s)
    ensures s.d.Locking? || (s.d.Selecting? && !s.shutdown) || (s.d.Exited? && s.shutdown)
    ensures s.d.Locking? ==> s.shutdown
  {
    SendsAreEnabled(s, a);
  }

  lemma CallAtRest<V>(s: Net<V>, k: nat)
    requires PhaseOk(s) && LockOk(s) && AtRest(s) && k < |s.calls|
    requires (s.d.Selecting? && !s.shutdown) || (s.d.Exited? && s.shutdown)
    ensures s.calls[k].Returned?
  {
    assert !Enabled(s, Check(k)) && !Enabled(s, RUnlock(k)) && !Enabled(s, RLock(k));
    assert !Enabled(s, TakeWrite(k)) && !Enabled(s, TakeListen(k));
  }

  lemma LockIsTaken<V>(s: Net<V>)
    requires PhaseOk(s) && LockOk(s) && AtRest(s) && s.d.Locking?
    ensures exists k :: Offers(s, k)
  {
    assert !Enabled(s, Step.Lock);
    var k :| k in s.readers;
    assert !Enabled(s, Check(k)) && !Enabled(s, RUnlock(k));
    assert Offers(s, k);
  }

  // ---- Calls on a closed broadcaster ----

  /** How many steps are left before call `k` of a closed broadcaster has returned. */
  ghost function ToGo<V>(s: Net<V>, k: nat): nat
    requires k < |s.calls|
  {
    match s.calls[k]
    case Called(_) => if s.d.Closing? && s.d.stage <= 3 then 7 - s.d.stage else 3
    case Checking(_) => 2
    case Unlocking(_) => 1
    case _ => 0
  }

  lemma NextWhenClosed<V>(s: Net<V>, k: nat) returns (step: Step<V>)
    requires PhaseOk(s) && LockOk(s) && s.isClosed && k < |s.calls| && !s.calls[k].Returned?
    ensures Enabled(s, step)
    ensures var t := Apply(s, step); t.isClosed && k < |t.calls| && ToGo(t, k) < ToGo(s, k)
  {
    step := match s.calls[k]
      case Called(_) => if s.d.Closing? then CloseNext else RLock(k)
      case Checking(_) => Check(k)
      case _ => RUnlock(k);
  }

  lemma {:induction false} ReturnRun<V>(s: Net<V>, k: nat) returns (run: seq<Step<V>>)
    requires PhaseOk(s) && LockOk(s) && s.isClosed && k < |s.calls|
    ensures Runs(s, run) && k < |Exec(s, run).calls| && Exec(s, run).calls[k].Returned?
    decreases ToGo(s, k)
  {
    hide PhaseOk, LockOk, Enabled, Apply, ToGo;
    run := [];
    if !s.calls[k].Returned? {
      var step := NextWhenClosed(s, k);
      PhaseStep(s, step);
      LockStep(s, step);
      var rest := ReturnRun(Apply(s, step), k);
      RunsFirst(s, step, Apply(s, step), rest);
      run := [step] + rest;
    }
  }

  /**
   Once isClosed is set nothing keeps a call from returning, refused if it has yet to test the flag: the
   dispatcher finishes closing and the lock is let go.
   */
  lemma ClosedCallsReturn<V>(s: Net<V>, a: Log<V>, before: seq<Step<V>>, k: nat) returns (run: seq<Step<V>>)
    requires Reachable(s, a, before) && s.isClosed && k < |s.calls|
    ensures Runs(s, run) && k < |Exec(s, run).calls| && Exec(s, run).calls[k].Returned?
    ensures s.calls[k].Called? || s.calls[k].Checking? ==> Exec(s, run).calls[k] == Returned(Refused)
  {
    ReachableRefines(before);
    run := ReturnRun(s, k);
    if s.calls[k].Called? || s.calls[k].Checking? {
      ClosedRefusesEverything(s, a, before, run, k);
    }
  }

  // ---- Whether Close gets through ----

  /** Call `k` is past RLock and has yet to hand its value to the dispatcher. */
  ghost predicate StillNeedsTheDispatcher<V>(s: Net<V>, k: nat) {
    k < |s.calls| && (s.calls[k].Checking? || s.calls[k].Offering?)
  }

  /** The call and the dispatcher wait for each other in every continuation. */
  lemma {:induction false} StuckForever<V>(s: Net<V>, later: seq<Step<V>>, k: nat)
    requires PhaseOk(s) && LockOk(s) && s.d.Locking? && StillNeedsTheDispatcher(s, k) && Runs(s, later)
    ensures var t := Exec(s, later); PhaseOk(t) && LockOk(t) && t.d.Locking? && StillNeedsTheDispatcher(t, k)
  {
    hide PhaseOk, LockOk, Enabled, Apply;
    if |later| > 0 {
      var pre, step := later[..|later| - 1], later[|later| - 1];
      StuckForever(s, pre, k);
      StuckStep(Exec(s, pre), step, k);
    }
  }

  lemma StuckStep<V>(s: Net<V>, step: Step<V>, k: nat)
    requires PhaseOk(s) && LockOk(s) && s.d.Locking? && StillNeedsTheDispatcher(s, k) && Enabled(s, step)
    ensures var t := Apply(s, step); PhaseOk(t) && LockOk(t) && t.d.Locking? && StillNeedsTheDispatcher(t, k)
  {
    PhaseStep(s, step);
    LockStep(s, step);
    match step
    case Check(_) =>
    case RLock(_) =>
    case RUnlock(_) =>
    case _ =>
  }

  /** The dispatcher's and the lock holders' next step towards the dispatcher's return. */
  lemma NextToExit<V>(s: Net<V>) returns (step: Step<V>)
    requires PhaseOk(s) && LockOk(s) && OnItsWayOut(s) && !s.d.Exited?
    ensures Enabled(s, step) && !step.RLock?
    ensures var t := Apply(s, step);
      DispatcherRank(t.d) + |t.readers| < DispatcherRank(s.d) + |s.readers|
  {
    if s.d.Closing? {
      step := CloseNext;
    } else if s.readers == {} {
      step := Step.Lock;
    } else {
      var k :| k in s.readers;
      assert !StillNeedsTheDispatcher(s, k);
      step := RUnlock(k);
    }
  }

  /** The shutdown is noticed and no call is between its RLock and its send. */
  ghost predicate OnItsWayOut<V>(s: Net<V>) {
    s.d.Closing? || s.d.Exited? || (s.d.Locking? && forall k: nat :: !StillNeedsTheDispatcher(s, k))
  }

  /** It stays so as long as no call takes the read lock from a dispatcher that is about to lock. */
  lemma StaysOnItsWayOut<V>(s: Net<V>, step: Step<V>)
    requires OnItsWayOut(s) && Enabled(s, step) && (s.d.Locking? ==> !step.RLock?)
    ensures OnItsWayOut(Apply(s, step))
  {
    var t := Apply(s, step);
    if s.d.Locking? {
      forall k: nat | !t.d.Closing? ensures t.d.Locking? && !StillNeedsTheDispatcher(t, k) {
        assert !StillNeedsTheDispatcher(s, k);
        LockingStep(s, step, k);
      }
    }
  }

  lemma LockingStep<V>(s: Net<V>, step: Step<V>, k: nat)
    requires s.d.Locking? && Enabled(s, step) && !step.RLock? && !StillNeedsTheDispatcher(s, k)
    ensures Apply(s, step).d.Closing? || (Apply(s, step).d.Locking? && !StillNeedsTheDispatcher(Apply(s, step), k))
  {
    match step
    case Begin(_) =>
    case Check(_) =>
    case RUnlock(_) =>
    case Lock =>
    case _ =>
  }

  lemma {:induction false} ExitRun<V>(s: Net<V>) returns (run: seq<Step<V>>)
    requires PhaseOk(s) && LockOk(s) && OnItsWayOut(s)
    ensures Runs(s, run) && Exec(s, run).d.Exited?
    decreases DispatcherRank(s.d) + |s.readers|
  {
    hide PhaseOk, LockOk, OnItsWayOut, Enabled, Apply, DispatcherRank;
    run := [];
    if !s.d.Exited? {
      var step := NextToExit(s);
      PhaseStep(s, step);
      LockStep(s, step);
      StaysOnItsWayOut(s, step);
      var rest := ExitRun(Apply(s, step));
      RunsFirst(s, step, Apply(s, step), rest);
      run := [step] + rest;
    }
  }

  /** No call takes the read lock while the dispatcher waits for it, as Go's lock has it. */
  ghost predicate WriterFirst<V>(s: Net<V>, steps: seq<Step<V>>)
    requires Runs(s, steps)
  {
    |steps| > 0 ==>
      && WriterFirst(s, steps[..|steps| - 1])
      && (steps[|steps| - 1].RLock? ==> !Exec(s, steps[..|steps| - 1]).d.Locking?)
  }

  lemma {:induction false} RunsOnItsWayOut<V>(s: Net<V>, steps: seq<Step<V>>)
    requires OnItsWayOut(s) && Runs(s, steps) && WriterFirst(s, steps)
    ensures OnItsWayOut(Exec(s, steps))
  {
    hide OnItsWayOut, Enabled, Apply;
    if |steps| > 0 {
      RunsOnItsWayOut(s, steps[..|steps| - 1]);
      StaysOnItsWayOut(Exec(s, steps[..|steps| - 1]), steps[|steps| - 1]);
    }
  }

  /**
   Once the dispatcher has noticed the shutdown it can return if and only if no Write or Listen is between
   its RLock and its send.  With one there, no run `later` gets to its return: the call keeps the read lock
   and waits for a dispatcher that will never select again, while the dispatcher waits for the lock.  With
   none, there is a `run` to its return, and every run in which the waiting dispatcher keeps new readers out
   can come to rest nowhere else.
   */
  lemma WhenCloseGetsThrough<V>(s: Net<V>, a: Log<V>, steps: seq<Step<V>>, later: seq<Step<V>>)
    returns (run: seq<Step<V>>)
    requires Reachable(s, a, steps) && s.d.Locking? && Runs(s, later)
    ensures (forall k :: !StillNeedsTheDispatcher(s, k)) ==> Runs(s, run) && Exec(s, run).d.Exited?
    ensures (forall k :: !StillNeedsTheDispatcher(s, k)) && WriterFirst(s, later) && AtRest(Exec(s, later)) ==>
      Exec(s, later).d.Exited?
    ensures !(forall k :: !StillNeedsTheDispatcher(s, k)) ==> !Exec(s, later).d.Exited?
  {
    run := [];
    ReachableRefines(steps);
    RunRefines(s, a, later);
    assert PhaseOk(s) && LockOk(s) && PhaseOk(Exec(s, later)) && LockOk(Exec(s, later));
    hide Refines, Reachable, PhaseOk, LockOk, Runs, Exec, Trace, AfterAll, AllowsAll, WriterFirst;
    if forall k :: !StillNeedsTheDispatcher(s, k) {
      run := ExitRun(s);
      if WriterFirst(s, later) && AtRest(Exec(s, later)) {
        RunsOnItsWayOut(s, later);
        RestsAtExit(Exec(s, later));
      }
    } else {
      var k: nat :| StillNeedsTheDispatcher(s, k);
      StuckForever(s, later, k);
    }
  }

  lemma RestsAtExit<V>(s: Net<V>)
    requires PhaseOk(s) && LockOk(s) && OnItsWayOut(s) && AtRest(s)
    ensures s.d.Exited?
  {
    assert !Enabled(s, CloseNext);
    forall k | s.d.Locking? ensures !Offers(s, k) {
      assert !StillNeedsTheDispatcher(s, k);
    }
    if s.d.Locking? {
      LockIsTaken(s);
    }
  }

  /** One Write has passed its check and is at its send, and the dispatcher has noticed the shutdown. */
  ghost function Blocked<V>(v: V): Net<V> {
    Init().(calls := [Offering(Write(v))], readers := {0}, shutdown := true, d := Locking)
  }

  lemma GetsBlocked<V>(v: V) returns (run: seq<Step<V>>)
    ensures Runs(Init(), run) && Exec(Init(), run) == Blocked(v)
  {
    var s0: Net<V> := Init();
    var s1 := s0.(calls := [Called(Write(v))]);
    var s2 := s0.(calls := [Checking(Write(v))], readers := {0});
    var s3 := s0.(calls := [Offering(Write(v))], readers := {0});
    var s4 := s3.(shutdown := true);
    run := [];
    assert Runs(s0, []) && Exec(s0, []) == s0;
    hide Runs, Exec;
    Extend(s0, run, s0, Begin(Write(v)), s1);
    run := run + [Begin(Write(v))];
    Extend(s0, run, s1, RLock(0), s2);
    run := run + [RLock(0)];
    Extend(s0, run, s2, Check(0), s3);
    run := run + [Check(0)];
    Extend(s0, run, s3, Close, s4);
    run := run + [Close];
    Extend(s0, run, s4, NoticeShutdown, Blocked(v));
    run := run + [NoticeShutdown];
  }

  /** A run in which a Write that has passed its check keeps Close from ever finishing. */
  lemma WriteCanBlockClose<V>(v: V, later: seq<Step<V>>) returns (run: seq<Step<V>>)
    ensures Runs(Init(), run) && Exec(Init(), run).shutdown
    ensures Runs(Exec(Init(), run), later) ==> !Exec(Exec(Init(), run), later).d.Exited?
  {
    run := GetsBlocked(v);
    ReachableRefines(run);
    hide Runs, Exec, AllowsAll, AfterAll, Trace;
    if Runs(Blocked(v), later) {
      assert StillNeedsTheDispatcher(Blocked(v), 0);
      StuckForever(Blocked(v), later, 0);
    }
  }
}
