/** What holds of every run of the worker pool. */
module PoolTheorems {
  import opened Sums
  import opened PoolProtocol

  /** `steps`, newest last, can be taken one after the other from `s`. */
  predicate Runs(s: Pool, steps: seq<Step>)
    decreases |steps|, 0
  {
    |steps| > 0 ==> Runs(s, steps[..|steps| - 1]) && Enabled(Exec(s, steps[..|steps| - 1]), steps[|steps| - 1])
  }

  function Exec(s: Pool, steps: seq<Step>): Pool
    requires Runs(s, steps)
    decreases |steps|, 1
  {
    if |steps| == 0 then s else Apply(Exec(s, steps[..|steps| - 1]), steps[|steps| - 1])
  }

  lemma RunsSnoc(s: Pool, steps: seq<Step>, step: Step)
    requires Runs(s, steps) && Enabled(Exec(s, steps), step)
    ensures Runs(s, steps + [step]) && Exec(s, steps + [step]) == Apply(Exec(s, steps), step)
  {
    assert (steps + [step])[..|steps|] == steps;
  }

  lemma RunsNil(s: Pool)
    ensures Runs(s, []) && Exec(s, []) == s
  {
  }

  /** The one step more of a run, from the state it has got to. */
  lemma Extend(s: Pool, run: seq<Step>, now: Pool, step: Step, next: Pool)
    requires Runs(s, run) && Exec(s, run) == now && Enabled(now, step) && Apply(now, step) == next
    ensures Runs(s, run + [step]) && Exec(s, run + [step]) == next
  {
    RunsSnoc(s, run, step);
  }

  lemma {:induction false} RunsCompose(s: Pool, xs: seq<Step>, ys: seq<Step>)
    requires Runs(s, xs) && Runs(Exec(s, xs), ys)
    ensures Runs(s, xs + ys) && Exec(s, xs + ys) == Exec(Exec(s, xs), ys)
  {
    hide Enabled, Apply;
    if |ys| == 0 {
      assert xs + ys == xs;
    } else {
      RunsCompose(s, xs, ys[..|ys| - 1]);
      assert (xs + ys)[..|xs + ys| - 1] == xs + ys[..|ys| - 1];
    }
  }

  lemma RunsOne(s: Pool, step: Step)
    requires Enabled(s, step)
    ensures Runs(s, [step]) && Exec(s, [step]) == Apply(s, step)
  {
    RunsSnoc(s, [], step);
    assert [] + [step] == [step];
  }

  /** A step and then a run. */
  lemma RunsFirst(s: Pool, step: Step, t: Pool, rest: seq<Step>)
    requires Enabled(s, step) && Apply(s, step) == t && Runs(t, rest)
    ensures Runs(s, [step] + rest) && Exec(s, [step] + rest) == Exec(t, rest)
  {
    hide Enabled, Apply;
    RunsOne(s, step);
    RunsCompose(s, [step], rest);
  }

  lemma {:induction false} RunKeepsInv(s: Pool, steps: seq<Step>)
    requires Inv(s) && Runs(s, steps)
    ensures Inv(Exec(s, steps))
  {
    hide Inv, Enabled, Apply;
    if |steps| > 0 {
      RunKeepsInv(s, steps[..|steps| - 1]);
      StepKeepsInv(Exec(s, steps[..|steps| - 1]), steps[|steps| - 1]);
    }
  }

  ghost predicate Reachable(s: Pool, max: nat, steps: seq<Step>) {
    Runs(Init(max), steps) && s == Exec(Init(max), steps)
  }

  lemma ReachableInv(s: Pool, max: nat, steps: seq<Step>)
    requires Reachable(s, max, steps)
    ensures Inv(s)
  {
    InitInv(max);
    RunKeepsInv(Init(max), steps);
  }

  // ---- Ownership ----

  /**
   Every channel has one owner.  A worker that is executing or about to register has its channel to
   itself; one that has registered and not been given a job since has it in the pool once or with exactly
   one QueueJob call.
   */
  lemma ChannelsHaveOneOwner(s: Pool, max: nat, steps: seq<Step>, i: nat)
    requires Reachable(s, max, steps) && i < |s.workers|
    ensures !Offered(s.workers[i]) ==> i !in s.buffer && !exists k :: HeldBy(s, k, i)
    ensures Offered(s.workers[i]) ==> (i in s.buffer <==> !exists k :: HeldBy(s, k, i))
    ensures forall k: nat, l: nat :: HeldBy(s, k, i) && HeldBy(s, l, i) ==> k == l
    ensures forall p, q | 0 <= p < q < |s.buffer| :: s.buffer[p] != s.buffer[q]
  {
    ReachableInv(s, max, steps);
  }

  ghost function Elements(xs: seq<nat>): set<nat> {
    set x | x in xs
  }

  lemma {:induction false} DistinctSeqAsSet(xs: seq<nat>)
    requires forall p, q | 0 <= p < q < |xs| :: xs[p] != xs[q]
    ensures |Elements(xs)| == |xs|
  {
    if |xs| > 0 {
      var pre, last := xs[..|xs| - 1], xs[|xs| - 1];
      DistinctSeqAsSet(pre);
      assert Elements(xs) == Elements(pre) + {last};
      assert last !in Elements(pre);
    }
  }

  /** Registering never blocks while the read lock is held, and the pool never holds more than its capacity. */
  lemma RegisteringNeverBlocks(s: Pool, max: nat, steps: seq<Step>, i: nat)
    requires Reachable(s, max, steps)
    ensures |s.buffer| <= max
    ensures WorkerIs(s, i, Registering) ==> Enabled(s, Register(i)) && i in s.readers
  {
    ReachableInv(s, max, steps);
    MaxIsFixed(Init(max), steps);
    RoomToRegister(s, i);
  }

  lemma RoomToRegister(s: Pool, i: nat)
    requires LockOk(s) && OwnershipOk(s)
    ensures |s.buffer| <= s.max
    ensures WorkerIs(s, i, Registering) ==> Enabled(s, Register(i)) && i in s.readers
  {
    var xs := Elements(s.buffer);
    DistinctSeqAsSet(s.buffer);
    BoundedSet(xs, s.max);
    if WorkerIs(s, i, Registering) {
      assert i !in xs;
      BoundedSet(xs + {i}, s.max);
      assert |xs + {i}| == |xs| + 1;
    }
  }

  lemma {:induction false} MaxIsFixed(s: Pool, steps: seq<Step>)
    requires Runs(s, steps)
    ensures Exec(s, steps).max == s.max && |s.callers| <= |Exec(s, steps).callers|
    ensures s.quit ==> Exec(s, steps).quit
  {
    if |steps| > 0 {
      MaxIsFixed(s, steps[..|steps| - 1]);
      StepKeepsMax(Exec(s, steps[..|steps| - 1]), steps[|steps| - 1]);
    }
  }

  lemma StepKeepsMax(s: Pool, step: Step)
    requires Enabled(s, step)
    ensures Apply(s, step).max == s.max
    ensures |Apply(s, step).callers| == |s.callers| + (if step.Call? then 1 else 0)
    ensures s.quit ==> Apply(s, step).quit
  {
    match step
    case RLock(_) =>
    case Check(_) =>
    case Register(_) =>
    case RUnlock(_) =>
    case LeaveUnlock(_) =>
    case CloseChannel(_) =>
    case QuitWorker(_) =>
    case Finish(_) =>
    case Deliver(_) =>
    case Call(_) =>
    case ReadPool(_, _) =>
    case Take(_) =>
    case _ =>
  }

  /** No caller ever sends on a closed channel, no closed channel is in the pool, and no worker registers into nil. */
  lemma ClosedChannelsAreUnreachable(s: Pool, max: nat, steps: seq<Step>)
    requires Reachable(s, max, steps)
    ensures forall k: nat, i: nat | HeldBy(s, k, i) :: i !in s.closedChannels
    ensures forall i | i in s.buffer :: i !in s.closedChannels
    ensures forall i | 0 <= i < |s.workers| && s.workers[i].Registering? :: !s.poolNil
  {
    ReachableInv(s, max, steps);
  }

  // ---- Jobs ----

  /**
   QueueJob returns nil only once exactly one worker has the job, which then runs it once: the job is with
   exactly one worker or finished, never both, and never twice.  A job whose QueueJob failed, or has not
   handed it over yet, is with nobody.
   */
  lemma ExactlyOnce(s: Pool, max: nat, steps: seq<Step>, k: nat)
    requires Reachable(s, max, steps) && k < |s.callers|
    ensures s.callers[k].Queued? <==> k in s.finished || exists i :: Executes(s, i, k)
    ensures !(k in s.finished && exists i :: Executes(s, i, k))
    ensures forall i: nat, j: nat :: Executes(s, i, k) && Executes(s, j, k) ==> i == j
    ensures forall p, q | 0 <= p < q < |s.finished| :: s.finished[p] != s.finished[q]
  {
    ReachableInv(s, max, steps);
  }

  /** A call that has returned keeps its result, so a refused job is never executed later either. */
  lemma {:induction false} ResultsAreFinal(s: Pool, steps: seq<Step>, k: nat)
    requires Runs(s, steps) && k < |s.callers| && (s.callers[k].Queued? || s.callers[k].Failed?)
    ensures k < |Exec(s, steps).callers| && Exec(s, steps).callers[k] == s.callers[k]
  {
    if |steps| > 0 {
      ResultsAreFinal(s, steps[..|steps| - 1], k);
      ResultStays(Exec(s, steps[..|steps| - 1]), steps[|steps| - 1], k);
    }
  }

  lemma ResultStays(s: Pool, step: Step, k: nat)
    requires Enabled(s, step) && k < |s.callers| && (s.callers[k].Queued? || s.callers[k].Failed?)
    ensures k < |Apply(s, step).callers| && Apply(s, step).callers[k] == s.callers[k]
  {
    match step
    case RLock(_) =>
    case Check(_) =>
    case Register(_) =>
    case RUnlock(_) =>
    case LeaveUnlock(_) =>
    case CloseChannel(_) =>
    case QuitWorker(_) =>
    case Finish(_) =>
    case Deliver(_) =>
    case Call(_) =>
    case ReadPool(_, _) =>
    case Take(_) =>
    case _ =>
  }

  // ---- What QueueJob is told ----

  /** Whether each QueueJob call of a run was made with a timeout, in the order they were made. */
  function Calls(steps: seq<Step>): (timed: seq<bool>) {
    if |steps| == 0 then [] else
      Calls(steps[..|steps| - 1]) + (if steps[|steps| - 1].Call? then [steps[|steps| - 1].timed] else [])
  }

  /** Somebody has called StopServer. */
  predicate StopCalled(steps: seq<Step>) {
    |steps| > 0 && (steps[|steps| - 1].Stop? || StopCalled(steps[..|steps| - 1]))
  }

  /** A waiting call is timed as it was called, and an untimed one fails only on quit. */
  predicate CallerOk(c: Caller, timed: bool, quit: bool) {
    && (c.Called? || c.Selecting? ==> c.timed == timed)
    && (c.Failed? ==> timed || quit)
  }

  ghost predicate CallersOk(s: Pool, timed: seq<bool>) {
    |s.callers| == |timed| && forall k | 0 <= k < |timed| :: CallerOk(s.callers[k], timed[k], s.quit)
  }

  lemma CallersStep(s: Pool, timed: seq<bool>, step: Step)
    requires CallersOk(s, timed) && Enabled(s, step)
    ensures CallersOk(Apply(s, step), timed + if step.Call? then [step.timed] else [])
    ensures Apply(s, step).quit <==> s.quit || step.Stop?
  {
    if step.Call? {
    } else {
      assert timed + [] == timed;
      if OfCaller(step) {
        CallerMoveOk(s, step, if step.k < |timed| then timed[step.k] else false);
      } else {
        OthersKeepCallers(s, step);
      }
    }
  }

  /** A call's own step changes no other call. */
  lemma CallerMoveOk(s: Pool, step: Step, timed: bool)
    requires Enabled(s, step) && OfCaller(step) && !step.Call? && CallerOk(s.callers[step.k], timed, s.quit)
    ensures var t := Apply(s, step);
      && step.k < |s.callers| == |t.callers| && t.callers == s.callers[step.k := t.callers[step.k]]
      && CallerOk(t.callers[step.k], timed, t.quit) && t.quit == s.quit
  {
    match step
    case ReadPool(_, _) =>
    case Take(_) =>
    case TimeOut(_) =>
    case GiveUp(_) =>
    case Deliver(_) =>
  }

  lemma OthersKeepCallers(s: Pool, step: Step)
    requires Enabled(s, step) && !OfCaller(step)
    ensures Apply(s, step).callers == s.callers && (Apply(s, step).quit <==> s.quit || step.Stop?)
  {
    if OfWorker(step) {
      match step
      case RLock(_) =>
      case Check(_) =>
      case Register(_) =>
      case RUnlock(_) =>
      case LeaveUnlock(_) =>
      case CloseChannel(_) =>
      case QuitWorker(_) =>
      case Finish(_) =>
    }
  }

  /**
   In every run, a QueueJob call waits with a timeout if and only if it was made with one, and it fails only
   if it was or somebody has called StopServer.
   */
  lemma {:induction false} WhatCallersAreTold(s: Pool, max: nat, steps: seq<Step>)
    requires Reachable(s, max, steps)
    ensures CallersOk(s, Calls(steps)) && (s.quit <==> StopCalled(steps))
    decreases |steps|
  {
    hide CallersOk, Enabled, Apply;
    if |steps| == 0 {
      assert CallersOk(s, []) by { NobodyCallsAtFirst(max); }
      assert !s.quit by { NobodyCallsAtFirst(max); }
    } else {
      var pre, step := steps[..|steps| - 1], steps[|steps| - 1];
      WhatCallersAreTold(Exec(Init(max), pre), max, pre);
      CallersStep(Exec(Init(max), pre), Calls(pre), step);
    }
  }

  lemma NobodyCallsAtFirst(max: nat)
    ensures CallersOk(Init(max), []) && !Init(max).quit
  {
  }

  /** The channels put up, and the channels taken, in a run from `s`, in order. */
  function PutUp(steps: seq<Step>): seq<nat> {
    if |steps| == 0 then [] else
      PutUp(steps[..|steps| - 1]) + (if steps[|steps| - 1].Register? then [steps[|steps| - 1].i] else [])
  }

  function Taken(s: Pool, steps: seq<Step>): (r: seq<Caller>)
    requires Runs(s, steps)
  {
    if |steps| == 0 then [] else
      var pre, step := steps[..|steps| - 1], steps[|steps| - 1];
      Taken(s, pre) + (if step.Take? then [Apply(Exec(s, pre), step).callers[step.k]] else [])
  }

  /** Channels are taken in the order in which they were put up, and those not taken are in the pool. */
  lemma {:induction false} FirstInFirstOut(max: nat, steps: seq<Step>)
    requires Runs(Init(max), steps)
    ensures var taken, buffer := Taken(Init(max), steps), Exec(Init(max), steps).buffer;
      && |PutUp(steps)| == |taken| + |buffer|
      && (forall j | 0 <= j < |taken| :: taken[j] == Holding(PutUp(steps)[j]))
      && PutUp(steps)[|taken|..] == buffer
  {
    hide Enabled;
    if |steps| > 0 {
      var pre, step := steps[..|steps| - 1], steps[|steps| - 1];
      FirstInFirstOut(max, pre);
      BufferStep(Exec(Init(max), pre), step);
      hide Apply;
    }
  }

  lemma BufferStep(s: Pool, step: Step)
    requires Enabled(s, step)
    ensures var t := Apply(s, step);
      match step
      case Register(i) => t.buffer == s.buffer + [i]
      case Take(k) =>
        k < |t.callers| && |s.buffer| > 0 && t.callers[k] == Holding(s.buffer[0]) && t.buffer == s.buffer[1..]
      case _ => t.buffer == s.buffer
  {
  }

  function Pending(c: Caller): nat {
    if c.Called? || c.Selecting? || c.Holding? then 1 else 0
  }

  function Refused(c: Caller): nat {
    if c.Failed? then 1 else 0
  }

  function Running(w: Worker): nat {
    if w.Executing? then 1 else 0
  }

  /** Conservation: submitted = pending + executing + finished + refused, with at most `max` executing. */
  lemma JobsAreConserved(s: Pool, max: nat, steps: seq<Step>)
    requires Reachable(s, max, steps)
    ensures |s.callers| == Sum(s.callers, Pending) + Sum(s.workers, Running) + |s.finished| + Sum(s.callers, Refused)
    ensures Sum(s.workers, Running) <= max
  {
    ReachableInv(s, max, steps);
    MaxIsFixed(Init(max), steps);
    SumBound(s.workers, Running, 1);
    NobodyRunsAtFirst(max);
    CountsBalance(Init(max), steps);
  }

  ghost predicate Balanced(s: Pool) {
    |s.callers| == Sum(s.callers, Pending) + Sum(s.workers, Running) + |s.finished| + Sum(s.callers, Refused)
  }

  lemma {:induction false} NobodyRunsAtFirst(n: nat)
    ensures Sum(seq(n, _ => Looping), Running) == 0
  {
    if n > 0 {
      NobodyRunsAtFirst(n - 1);
      assert seq(n, _ => Looping)[..n - 1] == seq(n - 1, _ => Looping);
    }
  }

  lemma {:induction false} CountsBalance(s: Pool, steps: seq<Step>)
    requires Balanced(s) && Runs(s, steps)
    ensures Balanced(Exec(s, steps))
  {
    hide Balanced, Enabled, Apply;
    if |steps| > 0 {
      CountsBalance(s, steps[..|steps| - 1]);
      StepBalances(Exec(s, steps[..|steps| - 1]), steps[|steps| - 1]);
    }
  }

  lemma CallerMoves(s: Pool, k: nat, c: Caller)
    requires k < |s.callers|
    ensures Sum(s.callers[k := c], Pending) + Pending(s.callers[k]) == Sum(s.callers, Pending) + Pending(c)
    ensures Sum(s.callers[k := c], Refused) + Refused(s.callers[k]) == Sum(s.callers, Refused) + Refused(c)
  {
    SumUpdate(s.callers, Pending, k, c);
    SumUpdate(s.callers, Refused, k, c);
  }

  /** A worker's own move keeps the balance unless it takes or finishes a job. */
  lemma WorkerBalances(s: Pool, t: Pool, i: nat)
    requires Balanced(s) && i < |s.workers| == |t.workers|
    requires t.workers == s.workers[i := t.workers[i]] && t.callers == s.callers
    requires |t.finished| + Running(t.workers[i]) == |s.finished| + Running(s.workers[i])
    ensures Balanced(t)
  {
    SumUpdate(s.workers, Running, i, t.workers[i]);
  }

  lemma CallerBalances(s: Pool, t: Pool, k: nat)
    requires Balanced(s) && k < |s.callers| == |t.callers|
    requires t.callers == s.callers[k := t.callers[k]] && t.workers == s.workers && t.finished == s.finished
    requires Pending(t.callers[k]) + Refused(t.callers[k]) == Pending(s.callers[k]) + Refused(s.callers[k])
    ensures Balanced(t)
  {
    CallerMoves(s, k, t.callers[k]);
  }

  lemma CallBalances(s: Pool, timed: bool)
    requires Balanced(s)
    ensures Balanced(Apply(s, Call(timed)))
  {
    SumSnoc(s.callers, Pending, Called(timed));
    SumSnoc(s.callers, Refused, Called(timed));
  }

  lemma DeliverBalances(s: Pool, k: nat)
    requires Balanced(s) && Enabled(s, Deliver(k))
    ensures Balanced(Apply(s, Deliver(k)))
  {
    CallerMoves(s, k, Queued);
    SumUpdate(s.workers, Running, s.callers[k].ch, Executing(k));
  }

  lemma StepBalances(s: Pool, step: Step)
    requires Balanced(s) && Enabled(s, step)
    ensures Balanced(Apply(s, step))
  {
    if OfWorker(step) {
      WorkerStepBalances(s, step);
    } else if OfCaller(step) {
      CallerStepBalances(s, step);
    }
  }

  lemma WorkerStepBalances(s: Pool, step: Step)
    requires Balanced(s) && Enabled(s, step) && OfWorker(step)
    ensures Balanced(Apply(s, step))
  {
    hide Balanced;
    WorkerBalances(s, Apply(s, step), step.i);
  }

  lemma CallerStepBalances(s: Pool, step: Step)
    requires Balanced(s) && Enabled(s, step) && OfCaller(step)
    ensures Balanced(Apply(s, step))
  {
    hide Balanced;
    var t := Apply(s, step);
    match step
    case Call(timed) => CallBalances(s, timed);
    case ReadPool(k, _) => CallerBalances(s, t, k);
    case Take(k) => CallerBalances(s, t, k);
    case TimeOut(k) => CallerBalances(s, t, k);
    case GiveUp(k) => CallerBalances(s, t, k);
    case Deliver(k) => DeliverBalances(s, k);
  }
}
