/**
 What each call and each read is told: a Write or Listen is refused only on a closed broadcaster and
 otherwise gets what it asked for, each entry is the value its own Write was called with, and each read goes
 through the handlers it was called with.
 */
module BroadcastOutcomes {
  import opened Options
  import opened BroadcastLog
  import opened BroadcastProtocol
  import opened BroadcastTheorems

  /** The requests of a run's Write and Listen calls, in the order they were made. */
  ghost function Requests<V>(steps: seq<Step<V>>): seq<Request<V>> {
    if |steps| == 0 then [] else
      Requests(steps[..|steps| - 1]) + (if steps[|steps| - 1].Begin? then [steps[|steps| - 1].req] else [])
  }

  /** Somebody has called Close. */
  ghost predicate CloseCalled<V>(steps: seq<Step<V>>) {
    |steps| > 0 && (steps[|steps| - 1].Close? || CloseCalled(steps[..|steps| - 1]))
  }

  lemma {:induction false} ShutdownIsClose<V>(s: Net<V>, steps: seq<Step<V>>)
    requires Runs(s, steps)
    ensures Exec(s, steps).shutdown <==> s.shutdown || CloseCalled(steps)
  {
    hide Enabled, Apply;
    if |steps| > 0 {
      ShutdownIsClose(s, steps[..|steps| - 1]);
      OnlyCloseShutsDown(Exec(s, steps[..|steps| - 1]), steps[|steps| - 1]);
    }
  }

  lemma OnlyCloseShutsDown<V>(s: Net<V>, step: Step<V>)
    requires Enabled(s, step)
    ensures Apply(s, step).shutdown <==> s.shutdown || step.Close?
  {
    if OfReader(step) {
      match step
      case BeginRead(_, _) =>
      case Take(_) =>
      case Handle(_) =>
      case PutBack(_) =>
      case ReadShutdown(_) =>
    } else {
      match step
      case Begin(_) =>
      case RLock(_) =>
      case Check(_) =>
      case RUnlock(_) =>
      case TakeWrite(_) =>
      case TakeListen(_) =>
      case SendReply =>
      case _ =>
    }
  }

  /** A call carries its own request, and a reply is an error or of the request's kind. */
  ghost predicate CallOk<V>(call: Call<V>, req: Request<V>) {
    match call
    case Called(r) => r == req
    case Checking(r) => r == req
    case Offering(r) => r == req
    case Awaiting => req.Listen?
    case Unlocking(reply) => reply.Refused? || reply == (if req.Write? then Accepted else Listening)
    case Returned(reply) => reply.Refused? || reply == (if req.Write? then Accepted else Listening)
  }

  ghost predicate CallsOk<V>(s: Net<V>, reqs: seq<Request<V>>) {
    |s.calls| == |reqs| && forall k | 0 <= k < |reqs| :: CallOk(s.calls[k], reqs[k])
  }

  ghost predicate RefusalsOk<V>(s: Net<V>) {
    forall k | 0 <= k < |s.calls| :: Replied(s.calls[k], Refused) ==> s.isClosed
  }

  /** Each entry is what its writer's Write was called with. */
  ghost predicate EntriesOk<V>(a: Log<V>, reqs: seq<Request<V>>) {
    forall i | 0 <= i < |a.entries| ::
      a.entries[i].writer < |reqs| && reqs[a.entries[i].writer] == Write(a.entries[i].first)
  }

  lemma CallsOkStep<V>(s: Net<V>, reqs: seq<Request<V>>, step: Step<V>)
    requires CallsOk(s, reqs) && Enabled(s, step)
    ensures CallsOk(Apply(s, step), reqs + if step.Begin? then [step.req] else [])
  {
    if OfReader(step) {
      assert reqs + [] == reqs;
    } else {
      match step
      case Begin(_) =>
      case RLock(_) =>
      case Check(_) =>
      case RUnlock(_) =>
      case TakeWrite(_) =>
      case TakeListen(_) =>
      case SendReply =>
      case _ =>
    }
  }

  lemma RefusalsStep<V>(s: Net<V>, step: Step<V>)
    requires RefusalsOk(s) && Enabled(s, step)
    ensures RefusalsOk(Apply(s, step))
  {
    if !OfReader(step) {
      match step
      case Begin(_) =>
      case RLock(_) =>
      case Check(_) =>
      case RUnlock(_) =>
      case TakeWrite(_) =>
      case TakeListen(_) =>
      case SendReply =>
      case _ =>
    }
  }

  lemma EntriesOkStep<V>(s: Net<V>, a: Log<V>, reqs: seq<Request<V>>, step: Step<V>)
    requires CallsOk(s, reqs) && EntriesOk(a, reqs) && Enabled(s, step) && Allows(a, Observe(s, step))
    ensures EntriesOk(After(a, Observe(s, step)), reqs + if step.Begin? then [step.req] else [])
  {
    var e := Observe(s, step);
    if step.TakeWrite? {
      assert CallOk(s.calls[step.k], reqs[step.k]);
    }
    assert e.Append? ==> step.TakeWrite?;
    hide Observe, Enabled;
    match e
    case Append(_, _) =>
    case Join(_) =>
    case Deliver(_, _, _, _) =>
    case Spoil(_, _, _, _) =>
    case Leave(_) =>
    case _ =>
  }

  lemma {:induction false} RunOutcomes<V>(steps: seq<Step<V>>)
    requires Runs(Init(), steps)
    ensures CallsOk(Exec(Init(), steps), Requests(steps)) && RefusalsOk(Exec(Init(), steps))
    ensures AllowsAll(Empty(), Trace(Init(), steps))
    ensures EntriesOk(AfterAll(Empty(), Trace(Init(), steps)), Requests(steps))
  {
    ReachableRefines(steps);
    hide CallsOk, RefusalsOk, EntriesOk, Refines, Enabled, Apply, Observe, Allows, After;
    if |steps| == 0 {
      NothingAtFirst<V>();
    } else {
      var pre, step := steps[..|steps| - 1], steps[|steps| - 1];
      RunOutcomes(pre);
      CallsOkStep(Exec(Init(), pre), Requests(pre), step);
      RefusalsStep(Exec(Init(), pre), step);
      EntriesOkStep(Exec(Init(), pre), AfterAll(Empty(), Trace(Init(), pre)), Requests(pre), step);
    }
  }

  lemma NothingAtFirst<V>()
    ensures CallsOk(Init<V>(), []) && RefusalsOk(Init<V>()) && EntriesOk(Empty<V>(), [])
  {
  }

  /**
   In every run, a Write or Listen is refused only once Close was called and has taken effect.  A Write that
   returned nil has exactly one entry, and it is the value that Write was called with; a Listen that returned
   no error has its receiver; and every written value is that of the call it came from.
   */
  lemma WhatCallsReturn<V>(s: Net<V>, a: Log<V>, steps: seq<Step<V>>, k: nat)
    requires Reachable(s, a, steps) && k < |s.calls|
    ensures |Requests(steps)| == |s.calls|
    ensures s.shutdown <==> CloseCalled(steps)
    ensures Replied(s.calls[k], Refused) ==> s.isClosed && CloseCalled(steps)
    ensures Replied(s.calls[k], Accepted) ==>
      Requests(steps)[k].Write? && exists i: nat :: WroteAt(a, k, i) && a.entries[i].first == Requests(steps)[k].v
    ensures forall i: nat, j: nat :: WroteAt(a, k, i) && WroteAt(a, k, j) ==> i == j
    ensures Replied(s.calls[k], Listening) ==> Requests(steps)[k].Listen? && k in s.receivers
    ensures |Written(Trace(Init(), steps))| == |a.entries|
    ensures forall i | 0 <= i < |a.entries| ::
      a.entries[i].writer < |s.calls| && Requests(steps)[a.entries[i].writer] == Write(Written(Trace(Init(), steps))[i])
  {
    ReachableRefines(steps);
    RunOutcomes(steps);
    EntriesAreWritten(Trace(Init(), steps));
    ShutdownIsClose(Init(), steps);
    hide Runs, Exec, Trace, Requests, AllowsAll, AfterAll, Written, ChainOk, HandsOk, CursorsOk, LockOk, CloseCalled;
    assert CallOk(s.calls[k], Requests(steps)[k]);
    if Replied(s.calls[k], Accepted) {
      var i: nat :| WroteAt(a, k, i);
      assert a.entries[i].first == Requests(steps)[k].v;
    }
  }

  // ---- The handlers of a read ----

  /** The handlers that receiver `k`'s latest Read was called with. */
  ghost function LastRead<V>(steps: seq<Step<V>>, k: nat): Option<seq<Handler<V>>> {
    if |steps| == 0 then None
    else if steps[|steps| - 1].BeginRead? && steps[|steps| - 1].k == k then Some(steps[|steps| - 1].handlers)
    else LastRead(steps[..|steps| - 1], k)
  }

  /** A receiver in a Read carries the handlers it was called with. */
  ghost predicate ReadOk<V>(s: Net<V>, k: nat, hs: Option<seq<Handler<V>>>) {
    k in s.receivers && !s.receivers[k].pc.Idle? ==> hs == Some(s.receivers[k].pc.handlers)
  }

  lemma ReadOkStep<V>(s: Net<V>, step: Step<V>, k: nat, hs: Option<seq<Handler<V>>>)
    requires ReadOk(s, k, hs) && Enabled(s, step)
    ensures ReadOk(Apply(s, step), k, if step.BeginRead? && step.k == k then Some(step.handlers) else hs)
  {
    if OfReader(step) {
      match step
      case BeginRead(_, _) =>
      case Take(_) =>
      case Handle(_) =>
      case PutBack(_) =>
      case ReadShutdown(_) =>
    } else {
      OtherStepsKeepReads(s, step, k);
    }
  }

  lemma OtherStepsKeepReads<V>(s: Net<V>, step: Step<V>, k: nat)
    requires Enabled(s, step) && !OfReader(step)
    ensures var t := Apply(s, step);
      k in t.receivers && !t.receivers[k].pc.Idle? ==> k in s.receivers && t.receivers[k] == s.receivers[k]
  {
    match step
    case Begin(_) =>
    case RLock(_) =>
    case Check(_) =>
    case RUnlock(_) =>
    case TakeWrite(_) =>
    case SendReply =>
    case _ =>
  }

  lemma {:induction false} RunReadsOk<V>(steps: seq<Step<V>>, k: nat)
    requires Runs(Init(), steps)
    ensures ReadOk(Exec(Init(), steps), k, LastRead(steps, k))
  {
    hide ReadOk, Enabled, Apply;
    if |steps| == 0 {
      assert ReadOk(Init<V>(), k, None) by { NobodyReadsAtFirst<V>(k); }
    } else {
      RunReadsOk(steps[..|steps| - 1], k);
      ReadOkStep(Exec(Init(), steps[..|steps| - 1]), steps[|steps| - 1], k, LastRead(steps[..|steps| - 1], k));
    }
  }

  lemma NobodyReadsAtFirst<V>(k: nat)
    ensures ReadOk(Init<V>(), k, None)
  {
  }

  /** Event `e` of receiver `e.k` is a Read with the handlers `hs`: delivered if all succeed, spoiled if one fails. */
  ghost predicate GoesThrough<V>(e: Event<V>, hs: Option<seq<Handler<V>>>) {
    match e
    case Deliver(_, _, v, handlers) =>
      hs == Some(handlers) && forall m | 0 <= m < |handlers| :: handlers[m](v).Some?
    case Spoil(_, _, v, handlers) =>
      hs == Some(handlers) && exists m :: 0 <= m < |handlers| && handlers[m](v).None?
    case _ => true
  }

  lemma LastEventGoesThrough<V>(s: Net<V>, a: Log<V>, step: Step<V>, hs: Option<seq<Handler<V>>>)
    requires HandsOk(s, a) && Enabled(s, step) && Allows(a, Observe(s, step))
    requires step.Handle? || step.PutBack? ==> ReadOk(s, step.k, hs)
    ensures GoesThrough(Observe(s, step), hs)
  {
    if step.Handle? || step.PutBack? {
      assert HandOk(s, a, step.k);
    }
  }

  lemma NextEventGoesThrough<V>(pre: seq<Step<V>>, step: Step<V>)
    requires Runs(Init(), pre) && Enabled(Exec(Init(), pre), step)
    ensures var e := Observe(Exec(Init(), pre), step);
      e.Deliver? || e.Spoil? ==> GoesThrough(e, LastRead(pre, e.k))
  {
    ReachableRefines(pre);
    var s, a := Exec(Init(), pre), AfterAll(Empty(), Trace(Init(), pre));
    assert HandsOk(s, a);
    StepRefines(s, a, step);
    hide Refines, Runs, Exec, Trace, AllowsAll, AfterAll, LastRead, HandsOk, GoesThrough, Apply, After, Allows;
    var e := Observe(s, step);
    if e.Deliver? || e.Spoil? {
      ReaderOfEvent(s, step);
      RunReadsOk(pre, e.k);
      LastEventGoesThrough(s, a, step, LastRead(pre, e.k));
    }
  }

  lemma ReaderOfEvent<V>(s: Net<V>, step: Step<V>)
    requires Enabled(s, step)
    ensures var e := Observe(s, step); e.Deliver? || e.Spoil? ==> (step.Handle? || step.PutBack?) && e.k == step.k
  {
  }

  /**
   In every run, whatever the interleaving, each value delivered to a receiver and each handler failure is that
   of the handlers its own latest Read was called with, applied to the value taken.
   */
  lemma {:induction false} EveryReadUsesItsOwnHandlers<V>(steps: seq<Step<V>>, j: nat)
    requires Runs(Init(), steps) && j < |steps|
    ensures var e := Trace(Init(), steps)[j];
      e.Deliver? || e.Spoil? ==> GoesThrough(e, LastRead(steps[..j], e.k))
  {
    hide GoesThrough, LastRead, Enabled, Observe, Exec;
    var pre := steps[..|steps| - 1];
    if j < |pre| {
      EveryReadUsesItsOwnHandlers(pre, j);
      assert pre[..j] == steps[..j];
    } else {
      NextEventGoesThrough(pre, steps[j]);
    }
  }
}
