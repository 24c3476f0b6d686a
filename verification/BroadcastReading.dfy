/**
 That reads get through: what an idle receiver's Read can return, that a new listener hears what is written
 after it, and that a failed handler spares the readers of other cells.
 */
module BroadcastReading {
  import opened Options
  import opened BroadcastLog
  import opened BroadcastProtocol
  import opened BroadcastTheorems
  import opened BroadcastOutcomes

  /** Event `e` ends what the log sees of the run, which leaves receiver `l` idle at cell `at`. */
  ghost predicate EndsIn<V>(s: Net<V>, run: seq<Step<V>>, e: Event<V>, l: nat, at: nat)
    requires Runs(s, run)
  {
    && |run| > 0 && Trace(s, run)[|run| - 1] == e
    && l in Exec(s, run).receivers && Exec(s, run).receivers[l] == Receiver(Some(at), Idle)
  }

  /** The message of cell `j`, with its handlers' results so far, as reader `l` has it in hand. */
  ghost predicate InHand<V>(s: Net<V>, l: nat, j: nat, v: V, hs: seq<Handler<V>>) {
    && l in s.receivers && s.receivers[l].c == Some(j) && s.receivers[l].pc.Handling?
    && s.receivers[l].pc.handlers == hs && s.receivers[l].pc.v == v && s.receivers[l].pc.i <= |hs|
    && s.receivers[l].pc.b.next == j + 1 && j < |s.cells| && s.cells[j].None?
  }

  /** The reader that has the message goes through its handlers and puts it back. */
  lemma {:induction false} PutBackRun<V>(s: Net<V>, l: nat, j: nat, v: V, hs: seq<Handler<V>>)
    returns (run: seq<Step<V>>)
    requires InHand(s, l, j, v, hs) && AllSucceed(hs, v)
    ensures Runs(s, run) && EndsIn(s, run, Deliver(l, j, v, hs), l, j + 1)
    decreases |hs| - s.receivers[l].pc.i
  {
    if s.receivers[l].pc.i == |hs| {
      RunsOne(s, PutBack(l));
      run := [PutBack(l)];
    } else {
      HandleKeepsInHand(s, l, j, v, hs);
      var t := Apply(s, Handle(l));
      hide Enabled, Apply, Observe, InHand, AllSucceed;
      var rest := PutBackRun(t, l, j, v, hs);
      RunsFirst(s, Handle(l), t, rest);
      run := [Handle(l)] + rest;
    }
  }

  lemma HandleKeepsInHand<V>(s: Net<V>, l: nat, j: nat, v: V, hs: seq<Handler<V>>)
    requires InHand(s, l, j, v, hs) && AllSucceed(hs, v) && s.receivers[l].pc.i < |hs|
    ensures Enabled(s, Handle(l))
    ensures InHand(Apply(s, Handle(l)), l, j, v, hs)
    ensures Apply(s, Handle(l)).receivers[l].pc.i == s.receivers[l].pc.i + 1
  {
  }

  /** A message that is there is delivered if its handlers succeed on it. */
  lemma ReadRun<V>(s: Net<V>, l: nat, j: nat, v: V) returns (run: seq<Step<V>>)
    requires Enabled(s, Step.Take(l)) && s.receivers[l].c == Some(j)
    requires j < |s.cells| && s.cells[j] == Some(Message(j + 1, v))
    requires AllSucceed(s.receivers[l].pc.handlers, v)
    ensures Runs(s, run) && EndsIn(s, run, Deliver(l, j, v, s.receivers[l].pc.handlers), l, j + 1)
  {
    var hs := s.receivers[l].pc.handlers;
    var t := Apply(s, Step.Take(l));
    assert InHand(t, l, j, v, hs);
    hide Enabled, Apply, Observe, InHand, AllSucceed;
    var rest := PutBackRun(t, l, j, v, hs);
    RunsFirst(s, Step.Take(l), t, rest);
    run := [Step.Take(l)] + rest;
  }

  /** A message in its cell is the entry's present value, and leads to the next cell. */
  lemma MessageThere<V>(s: Net<V>, a: Log<V>, l: nat, j: nat)
    requires ChainOk(s, a) && Enabled(s, Step.Take(l)) && s.receivers[l].c == Some(j)
    ensures j < |a.entries| && j < |s.cells| && s.cells[j] == Some(Message(j + 1, a.entries[j].now))
  {
  }

  /** A failing handler changes nothing for a receiver that waits at its select. */
  lemma FailureSparesWaiting<V>(s: Net<V>, k: nat, l: nat)
    requires Enabled(s, Handle(k)) && l in s.receivers && s.receivers[l].pc.Waiting?
    requires s.receivers[k].pc.handlers[s.receivers[k].pc.i](s.receivers[k].pc.v).None?
    ensures var t := Apply(s, Handle(k));
      && t.cells == s.cells && l in t.receivers && t.receivers[l] == s.receivers[l]
      && (Enabled(t, Step.Take(l)) <==> Enabled(s, Step.Take(l)))
  {
  }

  /**
   A handler that fails on a cell spares every other cell's readers.  After it, a receiver waiting at cell
   `j` can take its message if and only if it could before; it then gets the entry's present value, and if
   its handlers succeed on that there is a run that delivers it and moves the receiver on.
   */
  lemma FailedHandlerSparesTheOthers<V>(
      s: Net<V>, a: Log<V>, before: seq<Step<V>>, k: nat, l: nat, j: nat) returns (run: seq<Step<V>>)
    requires Reachable(s, a, before) && Enabled(s, Handle(k))
    requires s.receivers[k].pc.handlers[s.receivers[k].pc.i](s.receivers[k].pc.v).None?
    requires l in s.receivers && s.receivers[l].pc.Waiting? && s.receivers[l].c == Some(j)
    ensures Enabled(Apply(s, Handle(k)), Step.Take(l)) <==> Enabled(s, Step.Take(l))
    ensures Enabled(s, Step.Take(l)) ==> j < |a.entries|
    ensures Enabled(s, Step.Take(l)) && AllSucceed(s.receivers[l].pc.handlers, a.entries[j].now) ==>
      && Runs(Apply(s, Handle(k)), run)
      && EndsIn(Apply(s, Handle(k)), run, Deliver(l, j, a.entries[j].now, s.receivers[l].pc.handlers), l, j + 1)
  {
    ReachableRefines(before);
    assert ChainOk(s, a);
    FailureSparesWaiting(s, k, l);
    hide Reachable, Refines, ChainOk, AllSucceed, Runs, Exec, Trace, AllowsAll, AfterAll, Apply, EndsIn;
    run := [];
    if Enabled(s, Step.Take(l)) {
      MessageThere(s, a, l, j);
      hide Enabled;
      if AllSucceed(s.receivers[l].pc.handlers, a.entries[j].now) {
        run := ReadRun(Apply(s, Handle(k)), l, j, a.entries[j].now);
      }
    }
  }

  // ---- What a Read can return ----

  /** The reader that has the message goes through its handlers up to the one that fails. */
  lemma {:induction false} SpoilRun<V>(s: Net<V>, l: nat, j: nat, v: V, hs: seq<Handler<V>>, m: nat)
    returns (run: seq<Step<V>>)
    requires InHand(s, l, j, v, hs) && s.receivers[l].pc.i <= m < |hs| && hs[m](v).None?
    ensures Runs(s, run) && EndsIn(s, run, Spoil(l, j, v, hs), l, j)
    decreases |hs| - s.receivers[l].pc.i
  {
    var i := s.receivers[l].pc.i;
    if hs[i](v).None? {
      RunsOne(s, Handle(l));
      run := [Handle(l)];
    } else {
      HandleOnce(s, l, j, v, hs);
      var t := Apply(s, Handle(l));
      hide Enabled, Apply, Observe, InHand;
      var rest := SpoilRun(t, l, j, v, hs, m);
      RunsFirst(s, Handle(l), t, rest);
      run := [Handle(l)] + rest;
    }
  }

  lemma HandleOnce<V>(s: Net<V>, l: nat, j: nat, v: V, hs: seq<Handler<V>>)
    requires InHand(s, l, j, v, hs) && s.receivers[l].pc.i < |hs| && hs[s.receivers[l].pc.i](v).Some?
    ensures Enabled(s, Handle(l))
    ensures InHand(Apply(s, Handle(l)), l, j, v, hs)
    ensures Apply(s, Handle(l)).receivers[l].pc.i == s.receivers[l].pc.i + 1
  {
  }

  /** A receiver whose Listen has returned and that is not in a Read can begin one. */
  lemma BeginStep<V>(s: Net<V>, k: nat, hs: seq<Handler<V>>)
    requires CallIs(s, k, Returned(Listening)) && k in s.receivers && s.receivers[k].pc.Idle?
    ensures Enabled(s, BeginRead(k, hs))
    ensures Apply(s, BeginRead(k, hs)) == s.(receivers := s.receivers[k := s.receivers[k].(pc := Waiting(hs))])
  {
  }

  lemma TakeAndSpoil<V>(t: Net<V>, k: nat, i: nat, v: V, hs: seq<Handler<V>>, m: nat) returns (run: seq<Step<V>>)
    requires Enabled(t, Step.Take(k)) && t.receivers[k] == Receiver(Some(i), Waiting(hs))
    requires i < |t.cells| && t.cells[i] == Some(Message(i + 1, v)) && m < |hs| && hs[m](v).None?
    ensures Runs(t, run) && EndsIn(t, run, Spoil(k, i, v, hs), k, i)
  {
    var u := Apply(t, Step.Take(k));
    assert InHand(u, k, i, v, hs) && u.receivers[k].pc.i == 0;
    hide Enabled, Apply, Observe, InHand;
    var rest := SpoilRun(u, k, i, v, hs, m);
    RunsFirst(t, Step.Take(k), u, rest);
    run := [Step.Take(k)] + rest;
  }

  lemma WaitingCanTake<V>(t: Net<V>, k: nat, i: nat, hs: seq<Handler<V>>)
    requires k in t.receivers && t.receivers[k] == Receiver(Some(i), Waiting(hs))
    requires i < |t.cells| && t.cells[i].Some?
    ensures Enabled(t, Step.Take(k))
  {
  }

  /** Event `e` ends a run that begins with another. */
  lemma EndsInAfter<V>(s: Net<V>, first: seq<Step<V>>, t: Net<V>, rest: seq<Step<V>>, e: Event<V>, l: nat, at: nat)
    requires Runs(s, first) && Exec(s, first) == t && Runs(t, rest) && EndsIn(t, rest, e, l, at)
    ensures Runs(s, first + rest) && EndsIn(s, first + rest, e, l, at)
  {
    RunsCompose(s, first, rest);
  }

  /** With its message there, a Read returns that value if its handlers succeed on it, and else fails. */
  lemma ReadThrough<V>(s: Net<V>, k: nat, i: nat, v: V, hs: seq<Handler<V>>) returns (run: seq<Step<V>>)
    requires CallIs(s, k, Returned(Listening)) && k in s.receivers && s.receivers[k] == Receiver(Some(i), Idle)
    requires i < |s.cells| && s.cells[i] == Some(Message(i + 1, v))
    ensures Runs(s, run)
    ensures (forall m | 0 <= m < |hs| :: hs[m](v).Some?) ==> EndsIn(s, run, Deliver(k, i, v, hs), k, i + 1)
    ensures (exists m :: 0 <= m < |hs| && hs[m](v).None?) ==> EndsIn(s, run, Spoil(k, i, v, hs), k, i)
  {
    BeginStep(s, k, hs);
    var t := Apply(s, BeginRead(k, hs));
    RunsOne(s, BeginRead(k, hs));
    hide Enabled, Apply, Observe, EndsIn, Runs, Exec;
    WaitingCanTake(t, k, i, hs);
    var rest;
    if m: nat :| m < |hs| && hs[m](v).None? {
      rest := TakeAndSpoil(t, k, i, v, hs, m);
      EndsInAfter(s, [BeginRead(k, hs)], t, rest, Spoil(k, i, v, hs), k, i);
    } else {
      rest := ReadRun(t, k, i, v);
      EndsInAfter(s, [BeginRead(k, hs)], t, rest, Deliver(k, i, v, hs), k, i + 1);
    }
    run := [BeginRead(k, hs)] + rest;
  }

  /**
   In every reachable state, a receiver that is not in a Read and whose message is there, that is, written, sent,
   not destroyed and not with another reader, can read it: the entry's present value is delivered if all handlers
   of the Read succeed on it, and otherwise the Read fails and destroys it.
   */
  lemma WhatAReadCanReturn<V>(
      s: Net<V>, a: Log<V>, steps: seq<Step<V>>, k: nat, i: nat, hs: seq<Handler<V>>) returns (run: seq<Step<V>>)
    requires Reachable(s, a, steps) && CallIs(s, k, Returned(Listening))
    requires k in s.receivers && s.receivers[k] == Receiver(Some(i), Idle)
    requires i < |a.entries| && !Pending(s, i) && !a.entries[i].lost && !exists l :: Holds(s, l, i)
    ensures Runs(s, run)
    ensures (forall m | 0 <= m < |hs| :: hs[m](a.entries[i].now).Some?) ==>
      EndsIn(s, run, Deliver(k, i, a.entries[i].now, hs), k, i + 1)
    ensures (exists m :: 0 <= m < |hs| && hs[m](a.entries[i].now).None?) ==>
      EndsIn(s, run, Spoil(k, i, a.entries[i].now, hs), k, i)
  {
    ReachableRefines(steps);
    assert ChainOk(s, a);
    assert s.cells[i] == Some(Message(i + 1, a.entries[i].now));
    hide Reachable, Refines, ChainOk, Runs, Exec, Trace, AllowsAll, AfterAll, EndsIn;
    run := ReadThrough(s, k, i, a.entries[i].now, hs);
  }

  /** After Close a Read can always return that the broadcaster is closed, and then points nowhere. */
  lemma AReadCanReturnClosed<V>(s: Net<V>, k: nat, hs: seq<Handler<V>>) returns (run: seq<Step<V>>)
    requires s.shutdown && CallIs(s, k, Returned(Listening)) && k in s.receivers && s.receivers[k].pc.Idle?
    ensures Runs(s, run) && |run| > 0 && Trace(s, run)[|run| - 1] == Leave(k)
    ensures Exec(s, run) == s.(receivers := s.receivers[k := Receiver(None, Idle)])
  {
    BeginStep(s, k, hs);
    var t := Apply(s, BeginRead(k, hs));
    RunsOne(t, ReadShutdown(k));
    hide Runs, Exec, Trace;
    RunsFirst(s, BeginRead(k, hs), t, [ReadShutdown(k)]);
    run := [BeginRead(k, hs)] + [ReadShutdown(k)];
  }

  // ---- A listener hears ----

  /** The state with a new call at the end of the calls. */
  ghost function WithCall<V>(s: Net<V>, call: Call<V>): Net<V> {
    s.(calls := s.calls + [call])
  }

  lemma ChangeCall<V>(s: Net<V>, call: Call<V>, next: Call<V>)
    ensures WithCall(s, call).calls[|s.calls| := next] == WithCall(s, next).calls
  {
  }

  /** A new call takes the read lock, finds the broadcaster open and gets to its send. */
  lemma OfferRun<V>(s: Net<V>, req: Request<V>) returns (run: seq<Step<V>>)
    requires !s.writer && !s.isClosed
    ensures Runs(s, run)
    ensures Exec(s, run) == WithCall(s, Offering(req)).(readers := s.readers + {|s.calls|})
  {
    var k := |s.calls|;
    var s1 := WithCall(s, Called(req));
    var s2 := WithCall(s, Checking(req)).(readers := s.readers + {k});
    var s3 := WithCall(s, Offering(req)).(readers := s.readers + {k});
    ChangeCall(s, Called(req), Checking(req));
    ChangeCall(s, Checking(req), Offering(req));
    run := [];
    assert Runs(s, []) && Exec(s, []) == s;
    hide Runs, Exec;
    Extend(s, run, s, Begin(req), s1);
    run := run + [Begin(req)];
    Extend(s, run, s1, RLock(k), s2);
    run := run + [RLock(k)];
    Extend(s, run, s2, Check(k), s3);
    run := run + [Check(k)];
  }

  /** A call that has its reply lets go of the lock and returns. */
  lemma UnlockCall<V>(s: Net<V>, run: seq<Step<V>>, t: Net<V>, reply: Reply) returns (whole: seq<Step<V>>)
    requires |t.calls| !in t.readers
    requires Runs(s, run) && Exec(s, run) == WithCall(t, Unlocking(reply)).(readers := t.readers + {|t.calls|})
    ensures Runs(s, whole) && Exec(s, whole) == WithCall(t, Returned(reply))
  {
    var k := |t.calls|;
    ChangeCall(t, Unlocking(reply), Returned(reply));
    assert t.readers + {k} - {k} == t.readers;
    hide Runs, Exec;
    Extend(s, run, Exec(s, run), RUnlock(k), WithCall(t, Returned(reply)));
    whole := run + [RUnlock(k)];
  }

  /** With the dispatcher at its select, a new Listen returns a receiver at the tail. */
  lemma ListenRun<V>(s: Net<V>) returns (run: seq<Step<V>>)
    requires s.d.Selecting? && !s.writer && !s.isClosed && |s.calls| !in s.readers
    ensures Runs(s, run)
    ensures Exec(s, run) ==
      WithCall(s, Returned(Listening)).(receivers := s.receivers[|s.calls| := Receiver(Some(s.currc), Idle)])
  {
    var k := |s.calls|;
    var s3 := WithCall(s, Offering(Listen)).(readers := s.readers + {k});
    var s4 := WithCall(s, Awaiting).(readers := s.readers + {k}, d := Replying(k));
    var t := s.(receivers := s.receivers[k := Receiver(Some(s.currc), Idle)]);
    ChangeCall(s, Offering(Listen), Awaiting);
    ChangeCall(s, Awaiting, Unlocking(Listening));
    hide Runs, Exec;
    run := OfferRun(s, Listen);
    Extend(s, run, s3, TakeListen(k), s4);
    run := run + [TakeListen(k)];
    Extend(s, run, s4, SendReply, WithCall(t, Unlocking(Listening)).(readers := s.readers + {k}));
    run := UnlockCall(s, run + [SendReply], t, Listening);
  }

  /** With the dispatcher at its select, a new Write returns nil and its value is in the tail. */
  lemma WriteRun<V>(s: Net<V>, v: V) returns (run: seq<Step<V>>)
    requires s.d.Selecting? && !s.writer && !s.isClosed && |s.calls| !in s.readers
    requires s.currc < |s.cells| && s.cells[s.currc].None?
    ensures Runs(s, run)
    ensures Exec(s, run) == WithCall(s, Returned(Accepted)).(
      cells := s.cells[s.currc := Some(Message(|s.cells|, v))] + [None], currc := |s.cells|)
  {
    var k, n := |s.calls|, |s.cells|;
    var s3 := WithCall(s, Offering(Write(v))).(readers := s.readers + {k});
    var s4 := WithCall(s, Unlocking(Accepted)).(
      readers := s.readers + {k}, cells := s.cells + [None], d := Sending(n, Message(n, v)));
    var t := s.(cells := s.cells[s.currc := Some(Message(n, v))] + [None], currc := n);
    ChangeCall(s, Offering(Write(v)), Unlocking(Accepted));
    assert (s.cells + [None])[s.currc := Some(Message(n, v))] == t.cells;
    hide Runs, Exec;
    run := OfferRun(s, Write(v));
    Extend(s, run, s3, TakeWrite(k), s4);
    run := run + [TakeWrite(k)];
    Extend(s, run, s4, SendCell, WithCall(t, Unlocking(Accepted)).(readers := s.readers + {k}));
    run := UnlockCall(s, run + [SendCell], t, Accepted);
  }

  lemma AtTheSelect<V>(s: Net<V>, a: Log<V>)
    requires Refines(s, a) && s.d.Selecting?
    ensures !s.writer && !s.isClosed && forall k | k in s.readers :: k < |s.calls|
    ensures s.currc == |a.entries| && |s.cells| == |a.entries| + 1 && s.cells[s.currc].None?
  {
  }

  /** A Listen and then a Write: the new receiver stands at the value written. */
  lemma ListenThenWrite<V>(s: Net<V>, v: V) returns (run: seq<Step<V>>)
    requires s.d.Selecting? && !s.writer && !s.isClosed && forall k | k in s.readers :: k < |s.calls|
    requires s.currc + 1 == |s.cells| && s.cells[s.currc].None?
    ensures Runs(s, run)
    ensures var t, l, i := Exec(s, run), |s.calls|, s.currc;
      && CallIs(t, l, Returned(Listening)) && CallIs(t, l + 1, Returned(Accepted))
      && l in t.receivers && t.receivers[l] == Receiver(Some(i), Idle)
      && i < |t.cells| && t.cells[i] == Some(Message(i + 1, v))
  {
    hide Runs, Exec;
    var listen := ListenRun(s);
    var s1 := Exec(s, listen);
    var write := WriteRun(s1, v);
    RunsCompose(s, listen, write);
    run := listen + write;
  }

  lemma HearFrom<V>(s: Net<V>, v: V, hs: seq<Handler<V>>) returns (run: seq<Step<V>>)
    requires s.d.Selecting? && !s.writer && !s.isClosed && forall k | k in s.readers :: k < |s.calls|
    requires s.currc + 1 == |s.cells| && s.cells[s.currc].None? && forall m | 0 <= m < |hs| :: hs[m](v).Some?
    ensures Runs(s, run) && EndsIn(s, run, Deliver(|s.calls|, s.currc, v, hs), |s.calls|, s.currc + 1)
  {
    var l, i := |s.calls|, s.currc;
    hide Runs, Exec, Trace, EndsIn, CallIs;
    var calls := ListenThenWrite(s, v);
    var t := Exec(s, calls);
    var read := ReadThrough(t, l, i, v, hs);
    EndsInAfter(s, calls, t, read, Deliver(l, i, v, hs), l, i + 1);
    run := calls + read;
  }

  /**
   From every reachable state with the dispatcher at its select, somebody can call Listen, then Write(v), and both
   return; and then a Read of that listener, with handlers that succeed on v, gets v.
   */
  lemma AListenerHears<V>(s: Net<V>, a: Log<V>, steps: seq<Step<V>>, v: V, hs: seq<Handler<V>>)
    returns (run: seq<Step<V>>)
    requires Reachable(s, a, steps) && s.d.Selecting? && forall m | 0 <= m < |hs| :: hs[m](v).Some?
    ensures Runs(s, run) && EndsIn(s, run, Deliver(|s.calls|, |a.entries|, v, hs), |s.calls|, |a.entries| + 1)
  {
    ReachableRefines(steps);
    AtTheSelect(s, a);
    hide Reachable, Refines, Runs, Exec, Trace, AllowsAll, AfterAll, EndsIn;
    run := HearFrom(s, v, hs);
  }
}
