/**
 The worker pool's own fields.  Each method is a source function, or the stretch of a goroutine between
 two blocking points, run without interruption, and is proved to be a run of `PoolProtocol`.
 */
module PoolServer {
  import opened Options
  import opened Sums
  import opened PoolProtocol
  import opened PoolTheorems

  /** The number of workers after the options have been applied in order, unless one returns an error. */
  function Configured(options: seq<nat -> Option<nat>>, max: nat): Option<nat> {
    if |options| == 0 then Some(max) else
      var before := Configured(options[..|options| - 1], max);
      if before.None? then None else options[|options| - 1](before.value)
  }

  lemma {:induction false} FirstErrorWins(options: seq<nat -> Option<nat>>, j: nat, max: nat)
    requires j <= |options| && Configured(options[..j], max).None?
    ensures Configured(options, max).None?
  {
    if j == |options| {
      assert options[..j] == options;
    } else {
      assert options[..|options| - 1][..j] == options[..j];
      FirstErrorWins(options[..|options| - 1], j, max);
    }
  }

  /** Where every option is SetMaxWorkersOption of some number, the last one counts. */
  lemma {:induction false} LastSettingWins(options: seq<nat -> Option<nat>>, settings: seq<nat>, max: nat)
    requires |options| == |settings|
    requires forall j, n: nat | 0 <= j < |options| :: options[j](n) == Some(settings[j])
    ensures Configured(options, max) == Some(if |settings| == 0 then max else settings[|settings| - 1])
  {
    if |options| > 0 {
      LastSettingWins(options[..|options| - 1], settings[..|settings| - 1], max);
    }
  }

  class WorkerServer {
    var hasConfig: bool            // Config != nil
    var maxWorkers: nat
    var workerPool: seq<nat>       // the channel of channels
    var workerPoolNil: bool
    var quit: bool
    var isStopped: bool
    var readers: set<nat>          // mux
    var writer: bool
    var workers: seq<Worker>       // the goroutines
    var closer: Closer
    var closedChannels: set<nat>
    var callers: seq<Caller>
    var finished: seq<nat>

    function State(): Pool
      reads this
    {
      Pool(maxWorkers, workers, workerPool, workerPoolNil, quit, isStopped, closer, readers, writer,
        closedChannels, callers, finished)
    }

    /** CreateWorker, with the number of workers the environment gives. */
    constructor (max: nat)
      ensures hasConfig && State() == Init(0).(max := max)
    {
      hasConfig, maxWorkers, workerPool, workerPoolNil := true, max, [], false;
      quit, isStopped, readers, writer := false, false, {}, false;
      workers, closer, closedChannels, callers, finished := [], Sleeping, {}, [], [];
    }

    /** The closure SetMaxWorkersOption returns. */
    method SetMaxWorkers(max: nat)
      requires hasConfig
      modifies this`maxWorkers, this`workerPool, this`workerPoolNil
      ensures State() == old(State()).(max := max, buffer := [], poolNil := false)
    {
      maxWorkers := max;
      workerPool, workerPoolNil := [], false;
    }

    /**
     StartServer.  An option sets the number of workers, which it may choose from the present one, or returns
     an error.  The first error is returned; otherwise one goroutine a worker and the closer are started.
     */
    method StartServer(options: seq<nat -> Option<nat>>) returns (ok: bool)
      requires State() == Init(0).(max := maxWorkers)
      modifies this
      ensures ok <==> old(hasConfig) && Configured(options, old(maxWorkers)).Some?
      ensures ok ==> State() == Init(Configured(options, old(maxWorkers)).value)
      ensures !ok ==> workers == []
    {
      if !hasConfig {
        return false;
      }
      for j := 0 to |options|
        invariant hasConfig && Configured(options[..j], old(maxWorkers)) == Some(maxWorkers)
        invariant State() == Init(0).(max := maxWorkers)
      {
        assert options[..j + 1][..j] == options[..j];
        var n := options[j](maxWorkers);
        if n.None? {
          FirstErrorWins(options, j + 1, old(maxWorkers));
          return false;
        }
        SetMaxWorkers(n.value);
      }
      assert options[..|options|] == options;
      label options:
      for i := 0 to maxWorkers
        invariant maxWorkers == old@options(maxWorkers) && |workers| == i
        invariant forall l | 0 <= l < i :: workers[l] == Looping
        invariant State() == old@options(State()).(workers := workers)
      {
        workers := workers + [Looping];
      }
      assert workers == Init(maxWorkers).workers;
      return true;
    }

    /** The top of a worker's loop: under the read lock, leave if the pool is stopped, else put the channel up. */
    method RegisterOrLeave(i: nat) returns (ghost run: seq<Step>)
      requires Inv(State()) && i < |workers| && workers[i].Looping? && !writer
      modifies this
      ensures run == if old(isStopped) then [RLock(i), Check(i), LeaveUnlock(i), CloseChannel(i)]
                     else [RLock(i), Check(i), Register(i), RUnlock(i)]
      ensures Runs(old(State()), run) && State() == Exec(old(State()), run)
      ensures workers[i] == if old(isStopped) then Exited else Waiting
    {
      if isStopped {
        assert i !in readers;
        run := LeaveRun(State(), i);
        closedChannels := closedChannels + {i};
        workers := workers[i := Exited];
      } else {
        run := RegisterRun(State(), i);
        workerPool := workerPool + [i];
        workers := workers[i := Waiting];
      }
    }

    /** The end of a worker's turn: Execute has returned. */
    method FinishJob(i: nat)
      requires i < |workers| && workers[i].Executing?
      modifies this`workers, this`finished
      ensures State() == Apply(old(State()), Finish(i))
    {
      finished := finished + [workers[i].job];
      workers := workers[i := Looping];
    }

    /** StopServer. */
    method StopServer()
      requires !quit
      modifies this`quit
      ensures State() == Apply(old(State()), Stop)
    {
      quit := true;
    }

    /** The closer goroutine from its wake-up, at a moment when nobody holds the lock. */
    method CloserBody() returns (ghost run: seq<Step>)
      requires quit && closer.Sleeping? && readers == {} && !writer
      modifies this
      ensures run == [CloserWakes, CloserLocks, CloserFlags, CloserClears, CloserUnlocks]
      ensures Runs(old(State()), run) && State() == Exec(old(State()), run)
    {
      run := CloserRun(State());
      isStopped := true;
      workerPoolNil := true;
      closer := Done;
    }

    /**
     QueueJob, run until it returns or has to wait.  When several cases of its select are ready any may be
     chosen, and when none is it waits there.  A channel taken from a worker at its select hands the job over
     at once; from any other worker it leaves the call waiting at the hand-over.
     */
    method QueueJob(timed: bool, expired: bool) returns (outcome: Caller, ghost run: seq<Step>)
      requires Inv(State()) && (expired ==> timed)
      modifies this
      ensures Inv(State()) && Runs(old(State()), run) && State() == Exec(old(State()), run)
      ensures callers == old(callers) + [outcome] && finished == old(finished)
      ensures match outcome
        case Called(_) => false
        case Selecting(t, _) =>
          && t == timed && !quit && !expired && (workerPoolNil || |workerPool| == 0)
          && workers == old(workers) && workerPool == old(workerPool)
        case Holding(c) =>
          && !old(workerPoolNil) && old(workerPool) == [c] + workerPool
          && !WorkerIs(old(State()), c, Waiting) && workers == old(workers)
        case Queued =>
          && !old(workerPoolNil) && |old(workerPool)| > 0 && workerPool == old(workerPool)[1..]
          && WorkerIs(old(State()), old(workerPool)[0], Waiting)
          && workers == old(workers)[old(workerPool)[0] := Executing(|old(callers)|)]
        case Failed => (quit || expired) && workers == old(workers) && workerPool == old(workerPool)
    {
      hide Runs, Exec, LockOk, OwnershipOk, JobsOk;
      var take, giveUp := *, *;
      if !workerPoolNil && |workerPool| > 0 && (take || !(quit || expired)) {
        var c := workerPool[0];
        if c < |workers| && workers[c].Waiting? {
          run := HandOverRun(State(), timed);
          workers := workers[c := Executing(|callers|)];
          outcome := Queued;
        } else {
          run := HoldRun(State(), timed);
          outcome := Holding(c);
        }
        workerPool := workerPool[1..];
      } else if quit || expired {
        run := RefusedRun(State(), timed, expired && (giveUp || !quit));
        outcome := Failed;
      } else {
        run := SelectRun(State(), timed);
        outcome := Selecting(timed, !workerPoolNil);
      }
      RunKeepsInv(old(State()), run);
      callers := callers + [outcome];
    }
  }

  lemma LeaveRun(s: Pool, i: nat) returns (run: seq<Step>)
    requires i < |s.workers| && s.workers[i].Looping? && i !in s.readers && !s.writer && s.isStopped
    ensures run == [RLock(i), Check(i), LeaveUnlock(i), CloseChannel(i)]
    ensures Runs(s, run)
    ensures Exec(s, run) == s.(workers := s.workers[i := Exited], closedChannels := s.closedChannels + {i})
  {
    hide Runs, Exec;
    var s1 := s.(workers := s.workers[i := Locked], readers := s.readers + {i});
    var s2 := s1.(workers := s.workers[i := Leaving]);
    var s3 := s.(workers := s.workers[i := Closing]);
    assert s1.workers[i := Leaving] == s2.workers && s2.workers[i := Closing] == s3.workers;
    assert s3.workers[i := Exited] == s.workers[i := Exited];
    assert s.readers + {i} - {i} == s.readers;
    RunsNil(s);
    run := [];
    Extend(s, run, s, RLock(i), s1);
    run := run + [RLock(i)];
    Extend(s, run, s1, Check(i), s2);
    run := run + [Check(i)];
    Extend(s, run, s2, LeaveUnlock(i), s3);
    run := run + [LeaveUnlock(i)];
    Extend(s, run, s3, CloseChannel(i), Apply(s3, CloseChannel(i)));
    run := run + [CloseChannel(i)];
  }

  lemma RegisterRun(s: Pool, i: nat) returns (run: seq<Step>)
    requires Inv(s) && i < |s.workers| && s.workers[i].Looping? && !s.writer && !s.isStopped
    ensures run == [RLock(i), Check(i), Register(i), RUnlock(i)]
    ensures Runs(s, run) && Exec(s, run) == s.(workers := s.workers[i := Waiting], buffer := s.buffer + [i])
  {
    RoomForLooping(s, i);
    hide Runs, Exec, Inv;
    var s1 := s.(workers := s.workers[i := Locked], readers := s.readers + {i});
    var s2 := s1.(workers := s.workers[i := Registering]);
    var s3 := s1.(workers := s.workers[i := Registered], buffer := s.buffer + [i]);
    assert s.readers + {i} - {i} == s.readers;
    RunsNil(s);
    run := [];
    Extend(s, run, s, RLock(i), s1);
    run := run + [RLock(i)];
    Extend(s, run, s1, Check(i), s2);
    run := run + [Check(i)];
    Extend(s, run, s2, Register(i), s3);
    run := run + [Register(i)];
    Extend(s, run, s3, RUnlock(i), Apply(s3, RUnlock(i)));
    run := run + [RUnlock(i)];
  }

  lemma CloserRun(s: Pool) returns (run: seq<Step>)
    requires s.quit && s.closer.Sleeping? && s.readers == {} && !s.writer
    ensures run == [CloserWakes, CloserLocks, CloserFlags, CloserClears, CloserUnlocks]
    ensures Runs(s, run) && Exec(s, run) == s.(isStopped := true, poolNil := true, closer := Done)
  {
    hide Runs, Exec;
    var s1 := s.(closer := WantsLock);
    var s2 := s.(closer := HasLock, writer := true);
    var s3 := s2.(closer := FlagSet, isStopped := true);
    var s4 := s3.(closer := PoolCleared, poolNil := true);
    RunsNil(s);
    run := [];
    Extend(s, run, s, CloserWakes, s1);
    run := run + [CloserWakes];
    Extend(s, run, s1, CloserLocks, s2);
    run := run + [CloserLocks];
    Extend(s, run, s2, CloserFlags, s3);
    run := run + [CloserFlags];
    Extend(s, run, s3, CloserClears, s4);
    run := run + [CloserClears];
    Extend(s, run, s4, CloserUnlocks, Apply(s4, CloserUnlocks));
    run := run + [CloserUnlocks];
  }

  /** A new call gets to its select. */
  lemma SelectRun(s: Pool, timed: bool) returns (run: seq<Step>)
    ensures Runs(s, run) && Exec(s, run) == s.(callers := s.callers + [Selecting(timed, !s.poolNil)])
  {
    hide Runs, Exec;
    var k := |s.callers|;
    var s1 := s.(callers := s.callers + [Called(timed)]);
    var s2 := s.(callers := s.callers + [Selecting(timed, !s.poolNil)]);
    assert s1.callers[k := Selecting(timed, !s.poolNil)] == s2.callers;
    RunsNil(s);
    run := [];
    Extend(s, run, s, Call(timed), s1);
    run := run + [Call(timed)];
    Extend(s, run, s1, ReadPool(k, false), s2);
    run := run + [ReadPool(k, false)];
  }

  lemma HoldRun(s: Pool, timed: bool) returns (run: seq<Step>)
    requires !s.poolNil && |s.buffer| > 0
    ensures Runs(s, run) && Exec(s, run) == s.(buffer := s.buffer[1..], callers := s.callers + [Holding(s.buffer[0])])
  {
    hide Runs, Exec;
    var k := |s.callers|;
    var t := s.(buffer := s.buffer[1..], callers := s.callers + [Holding(s.buffer[0])]);
    run := SelectRun(s, timed);
    assert (s.callers + [Selecting(timed, true)])[k := Holding(s.buffer[0])] == t.callers;
    Extend(s, run, s.(callers := s.callers + [Selecting(timed, true)]), Take(k), t);
    run := run + [Take(k)];
  }

  lemma HandOverRun(s: Pool, timed: bool) returns (run: seq<Step>)
    requires LockOk(s) && !s.poolNil && |s.buffer| > 0 && WorkerIs(s, s.buffer[0], Waiting)
    ensures Runs(s, run) && Exec(s, run) == s.(buffer := s.buffer[1..], callers := s.callers + [Queued],
      workers := s.workers[s.buffer[0] := Executing(|s.callers|)])
  {
    var k, c := |s.callers|, s.buffer[0];
    assert c !in s.closedChannels;
    hide Runs, Exec, LockOk;
    run := HoldRun(s, timed);
    var now := s.(buffer := s.buffer[1..], callers := s.callers + [Holding(c)]);
    assert now.callers[k := Queued] == s.callers + [Queued];
    Extend(s, run, now, Deliver(k), Apply(now, Deliver(k)));
    run := run + [Deliver(k)];
  }

  lemma RefusedRun(s: Pool, timed: bool, timeOut: bool) returns (run: seq<Step>)
    requires if timeOut then timed else s.quit
    ensures Runs(s, run) && Exec(s, run) == s.(callers := s.callers + [Failed])
  {
    hide Runs, Exec;
    var k := |s.callers|;
    var now := s.(callers := s.callers + [Selecting(timed, !s.poolNil)]);
    var last := if timeOut then TimeOut(k) else GiveUp(k);
    run := SelectRun(s, timed);
    assert now.callers[k := Failed] == s.callers + [Failed];
    Extend(s, run, now, last, Apply(now, last));
    run := run + [last];
  }

  lemma RoomForLooping(s: Pool, i: nat)
    requires Inv(s) && i < |s.workers| && s.workers[i].Looping? && !s.isStopped
    ensures i !in s.readers && !s.poolNil && |s.buffer| < s.max
  {
    DistinctSeqAsSet(s.buffer);
    assert i !in Elements(s.buffer);
    BoundedSet(Elements(s.buffer) + {i}, s.max);
    assert |Elements(s.buffer) + {i}| == |s.buffer| + 1;
  }
}
