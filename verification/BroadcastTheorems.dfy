/** What holds of every run of the broadcaster. */
module BroadcastTheorems {
  import opened Options
  import opened BroadcastLog
  import opened BroadcastProtocol

  /** `steps`, newest last, can be taken one after the other from `s`. */
  ghost predicate Runs<V>(s: Net<V>, steps: seq<Step<V>>)
    decreases |steps|, 0
  {
    |steps| > 0 ==> Runs(s, steps[..|steps| - 1]) && Enabled(Exec(s, steps[..|steps| - 1]), steps[|steps| - 1])
  }

  ghost function Exec<V>(s: Net<V>, steps: seq<Step<V>>): Net<V>
    requires Runs(s, steps)
    decreases |steps|, 1
  {
    if |steps| == 0 then s else Apply(Exec(s, steps[..|steps| - 1]), steps[|steps| - 1])
  }

  /** What the log sees of a run. */
  ghost function Trace<V>(s: Net<V>, steps: seq<Step<V>>): (es: seq<Event<V>>)
    requires Runs(s, steps)
    ensures |es| == |steps|
  {
    if |steps| == 0 then [] else
      var pre := steps[..|steps| - 1];
      Trace(s, pre) + [Observe(Exec(s, pre), steps[|steps| - 1])]
  }

  lemma RunsSnoc<V>(s: Net<V>, steps: seq<Step<V>>, step: Step<V>)
    requires Runs(s, steps) && Enabled(Exec(s, steps), step)
    ensures Runs(s, steps + [step]) && Exec(s, steps + [step]) == Apply(Exec(s, steps), step)
  {
    assert (steps + [step])[..|steps|] == steps;
  }

  lemma RunsOne<V>(s: Net<V>, step: Step<V>)
    requires Enabled(s, step)
    ensures Runs(s, [step]) && Exec(s, [step]) == Apply(s, step) && Trace(s, [step]) == [Observe(s, step)]
  {
    assert [step][..0] == [];
    assert Runs(s, []) && Exec(s, []) == s;
  }

  lemma {:induction false} RunsCompose<V>(s: Net<V>, xs: seq<Step<V>>, ys: seq<Step<V>>)
    requires Runs(s, xs) && Runs(Exec(s, xs), ys)
    ensures Runs(s, xs + ys) && Exec(s, xs + ys) == Exec(Exec(s, xs), ys)
    ensures Trace(s, xs + ys) == Trace(s, xs) + Trace(Exec(s, xs), ys)
  {
    if |ys| == 0 {
      assert xs + ys == xs;
    } else {
      RunsCompose(s, xs, ys[..|ys| - 1]);
      assert (xs + ys)[..|xs + ys| - 1] == xs + ys[..|ys| - 1];
    }
  }

  /** A step and then a run. */
  lemma RunsFirst<V>(s: Net<V>, step: Step<V>, t: Net<V>, rest: seq<Step<V>>)
    requires Enabled(s, step) && Apply(s, step) == t && Runs(t, rest)
    ensures Runs(s, [step] + rest) && Exec(s, [step] + rest) == Exec(t, rest)
    ensures Trace(s, [step] + rest) == [Observe(s, step)] + Trace(t, rest)
  {
    hide Enabled, Apply, Observe;
    RunsOne(s, step);
    RunsCompose(s, [step], rest);
  }

  /** One step more of a run, from the state it has got to. */
  lemma Extend<V>(s: Net<V>, run: seq<Step<V>>, now: Net<V>, step: Step<V>, next: Net<V>)
    requires Runs(s, run) && Exec(s, run) == now && Enabled(now, step) && Apply(now, step) == next
    ensures Runs(s, run + [step]) && Exec(s, run + [step]) == next
  {
    RunsSnoc(s, run, step);
  }

  /** Every run of the network is, event by event, a run of the log. */
  lemma {:induction false} RunRefines<V>(s: Net<V>, a: Log<V>, steps: seq<Step<V>>)
    requires Refines(s, a) && Runs(s, steps)
    ensures AllowsAll(a, Trace(s, steps))
    ensures Refines(Exec(s, steps), AfterAll(a, Trace(s, steps)))
  {
    hide Refines, Enabled, Apply, Observe, Allows, After;
    if |steps| > 0 {
      var pre, step := steps[..|steps| - 1], steps[|steps| - 1];
      RunRefines(s, a, pre);
      StepRefines(Exec(s, pre), AfterAll(a, Trace(s, pre)), step);
      AllowsSnoc(a, Trace(s, pre), Observe(Exec(s, pre), step));
    }
  }

  /** A state some run from the start reaches, with the log of that run. */
  ghost predicate Reachable<V>(s: Net<V>, a: Log<V>, steps: seq<Step<V>>) {
    && Runs(Init(), steps) && s == Exec(Init(), steps)
    && AllowsAll(Empty(), Trace(Init(), steps)) && a == AfterAll(Empty(), Trace(Init(), steps))
  }

  lemma ReachableRefines<V>(steps: seq<Step<V>>)
    requires Runs(Init(), steps)
    ensures AllowsAll(Empty(), Trace(Init(), steps))
    ensures Refines(Exec(Init(), steps), AfterAll(Empty(), Trace(Init(), steps)))
  {
    InitRefines<V>();
    RunRefines(Init(), Empty(), steps);
  }

  /**
   With no handlers, under every interleaving, what a receiver has read is a gap-free, duplicate-free,
   ordered slice of what was written, starting where it listened.
   */
  lemma EveryRunReadsASlice<V>(steps: seq<Step<V>>, k: nat)
    requires Runs(Init(), steps) && NoHandlers(Trace(Init(), steps))
    ensures var es := Trace(Init(), steps); var n := |ReadBy(es, k)|;
      n > 0 ==>
        && StartOf(es, k) + n <= |Written(es)|
        && ReadBy(es, k) == Written(es)[StartOf(es, k)..StartOf(es, k) + n]
  {
    ReachableRefines(steps);
    ReadsAreASliceOfTheLog(Trace(Init(), steps), k);
  }

  /**
   With handlers, under every interleaving, the successful reads of an entry form one chain: the first gets
   the written value, each later one what its predecessor's last handler made of the value that one got.
   */
  lemma EveryRunChainsHandlers<V>(steps: seq<Step<V>>, i: nat)
    requires Runs(Init(), steps) && i < |Written(Trace(Init(), steps))|
    ensures var rs := ReadsAt(Trace(Init(), steps), i);
      && (forall j | 0 <= j < |rs| :: rs[j].Deliver?)
      && (|rs| > 0 ==> rs[0].v == Written(Trace(Init(), steps))[i])
      && (forall j | 0 < j < |rs| :: Leaves(rs[j - 1], rs[j].v))
    ensures AllowsAll(Empty(), Trace(Init(), steps)) && i < |AfterAll(Empty(), Trace(Init(), steps)).entries|
    ensures var rs, now := ReadsAt(Trace(Init(), steps), i), AfterAll(Empty(), Trace(Init(), steps)).entries[i].now;
      if |rs| == 0 then now == Written(Trace(Init(), steps))[i] else Leaves(rs[|rs| - 1], now)
  {
    ReachableRefines(steps);
    var es := Trace(Init(), steps);
    EntriesAreWritten(es);
    HandlerChain(es, i);
    hide Refines, Runs, AllowsAll, Chained, ReadsAt, Written, Leaves;
    ChainLinks(ReadsAt(es, i), AfterAll(Empty(), es).entries[i].first, AfterAll(Empty(), es).entries[i].now);
  }

  /** Under every interleaving, n add-one readers of a written v get v, v+1, ..., v+n-1, in whatever order. */
  lemma EveryRunCountsUp(steps: seq<Step<int>>, i: nat)
    requires Runs(Init(), steps) && i < |Written(Trace(Init(), steps))|
    requires forall j | 0 <= j < |ReadsAt(Trace(Init(), steps), i)| ::
      ReadsAt(Trace(Init(), steps), i)[j].Deliver? && AddOne(ReadsAt(Trace(Init(), steps), i)[j].handlers)
    ensures var es := Trace(Init(), steps); var rs, v := ReadsAt(es, i), Written(es)[i];
      && (forall j | 0 <= j < |rs| :: rs[j].v == v + j)
      && 2 * SumRead(rs) == 2 * |rs| * v + |rs| * (|rs| - 1)
  {
    ReachableRefines(steps);
    hide Refines, Runs, AllowsAll, AfterAll, Written, ReadsAt, Trace, AddOne;
    EntriesAreWritten(Trace(Init(), steps));
    AddOneReadersCountUp(Trace(Init(), steps), i);
  }

  // ---- Every reachable state ----

  /** The copies of cell `i`'s message: in its buffer, with the dispatcher, destroyed, or in hand `k`. */
  ghost predicate ExactlyOneCopy<V>(s: Net<V>, a: Log<V>, i: nat)
    requires i < |s.cells| && i < |a.entries|
  {
    var inBuffer, inHand := s.cells[i].Some?, exists k :: Holds(s, k, i);
    && (inBuffer || Pending(s, i) || a.entries[i].lost || inHand)
    && !(inBuffer && Pending(s, i)) && !(inBuffer && a.entries[i].lost) && !(inBuffer && inHand)
    && !(Pending(s, i) && a.entries[i].lost) && !(Pending(s, i) && inHand) && !(a.entries[i].lost && inHand)
    && (forall k: nat, l: nat :: Holds(s, k, i) && Holds(s, l, i) ==> k == l)
  }

  /** Every message, wherever it is, leads from its cell to the very next one. */
  ghost predicate OneChain<V>(s: Net<V>) {
    && (forall i | 0 <= i < |s.cells| && s.cells[i].Some? :: s.cells[i].value.next == i + 1)
    && (forall k: nat, i: nat | Holds(s, k, i) :: s.receivers[k].pc.b.next == i + 1)
    && (s.d.Sending? ==> s.d.c == s.currc + 1 && s.d.b.next == s.currc + 1)
  }

  lemma TokenConservation<V>(s: Net<V>, a: Log<V>, steps: seq<Step<V>>)
    requires Reachable(s, a, steps)
    ensures |s.cells| == |a.entries| + 1 && s.cells[|a.entries|].None?
    ensures forall i | 0 <= i < |a.entries| :: ExactlyOneCopy(s, a, i)
    ensures OneChain(s)
  {
    ReachableRefines(steps);
    TokenPlaces(s, a);
  }

  lemma TokenPlaces<V>(s: Net<V>, a: Log<V>)
    requires ChainOk(s, a) && HandsOk(s, a)
    ensures forall i | 0 <= i < |a.entries| :: ExactlyOneCopy(s, a, i)
    ensures OneChain(s)
  {
    forall k: nat, i: nat | Holds(s, k, i)
      ensures i < |a.entries| && i < |s.cells| && s.cells[i].None? && !Pending(s, i) && !a.entries[i].lost
      ensures s.receivers[k].pc.b.next == i + 1
    {
      assert HandOk(s, a, k);
    }
  }

  /** The dispatcher never blocks outside its select and mux.Lock, and a reader never blocks putting back. */
  lemma SendsNeverBlock<V>(s: Net<V>, a: Log<V>, steps: seq<Step<V>>)
    requires Reachable(s, a, steps)
    ensures s.d.Sending? ==> Enabled(s, SendCell)
    ensures s.d.Replying? ==> Enabled(s, SendReply)
    ensures forall k | k in s.receivers && s.receivers[k].pc.Handling? ::
      Enabled(s, if s.receivers[k].pc.i < |s.receivers[k].pc.handlers| then Handle(k) else PutBack(k))
  {
    ReachableRefines(steps);
    SendsAreEnabled(s, a);
  }

  lemma SendsAreEnabled<V>(s: Net<V>, a: Log<V>)
    requires ChainOk(s, a) && HandsOk(s, a) && LockOk(s)
    ensures s.d.Sending? ==> Enabled(s, SendCell)
    ensures s.d.Replying? ==> Enabled(s, SendReply)
    ensures forall k | k in s.receivers && s.receivers[k].pc.Handling? ::
      Enabled(s, if s.receivers[k].pc.i < |s.receivers[k].pc.handlers| then Handle(k) else PutBack(k))
  {
    forall k | k in s.receivers && s.receivers[k].pc.Handling?
      ensures Enabled(s, if s.receivers[k].pc.i < |s.receivers[k].pc.handlers| then Handle(k) else PutBack(k))
    {
      assert HandOk(s, a, k);
    }
  }

  /**
   A waiting receiver can take its message unless the cell is the tail, the message has not arrived,
   a failed handler destroyed it, or another reader has it; what happened to other cells is irrelevant.
   */
  lemma WhenAReaderCanTake<V>(s: Net<V>, a: Log<V>, steps: seq<Step<V>>, k: nat, i: nat)
    requires Reachable(s, a, steps)
    requires k in s.receivers && s.receivers[k].pc.Waiting? && s.receivers[k].c == Some(i)
    ensures Enabled(s, Step.Take(k)) <==>
      i < |a.entries| && !Pending(s, i) && !a.entries[i].lost && !exists l :: Holds(s, l, i)
  {
    hide ExactlyOneCopy, OneChain;
    TokenConservation(s, a, steps);
    hide Reachable, Refines, Runs, Exec, Trace, AllowsAll, AfterAll;
    WhenACellHasItsMessage(s, a, k, i);
  }

  lemma WhenACellHasItsMessage<V>(s: Net<V>, a: Log<V>, k: nat, i: nat)
    requires |s.cells| == |a.entries| + 1 && s.cells[|a.entries|].None?
    requires i < |a.entries| ==> ExactlyOneCopy(s, a, i)
    requires k in s.receivers && s.receivers[k].pc.Waiting? && s.receivers[k].c == Some(i)
    ensures Enabled(s, Step.Take(k)) <==>
      i < |a.entries| && !Pending(s, i) && !a.entries[i].lost && !exists l :: Holds(s, l, i)
  {
  }

  /** No call ever waits to send on a channel that has been closed. */
  lemma NoSendOnAClosedChannel<V>(s: Net<V>, a: Log<V>, steps: seq<Step<V>>, k: nat)
    requires Reachable(s, a, steps)
    ensures k < |s.calls| && s.calls[k].Offering? ==> !s.sendcClosed && !s.listencClosed && k in s.readers && !s.writer
  {
    ReachableRefines(steps);
  }

  // ---- From one moment of a run to a later one ----

  lemma {:induction false} CallsOnlyGrow<V>(s: Net<V>, steps: seq<Step<V>>)
    requires Runs(s, steps)
    ensures |s.calls| <= |Exec(s, steps).calls|
    ensures s.isClosed ==> Exec(s, steps).isClosed
  {
    if |steps| > 0 {
      var pre, step := steps[..|steps| - 1], steps[|steps| - 1];
      CallsOnlyGrow(s, pre);
      OneStepGrows(Exec(s, pre), step);
    }
  }

  lemma OneStepGrows<V>(s: Net<V>, step: Step<V>)
    requires Enabled(s, step)
    ensures |s.calls| <= |Apply(s, step).calls|
    ensures s.isClosed ==> Apply(s, step).isClosed
  {
    match step
    case Begin(_) =>
    case RLock(_) =>
    case Check(_) =>
    case RUnlock(_) =>
    case TakeWrite(_) =>
    case TakeListen(_) =>
    case SendReply =>
    case CloseNext =>
    case _ =>
  }

  /**
   Real-time order.  At moment `s`, write `w` has been accepted and call `l` has not begun: then `w`'s
   entry lies before `l`'s start whenever `l` joins.  Or `l` has joined and `w` has not begun: then `w`'s
   entry lies at or after `l`'s start.
   */
  lemma RealTimeOrder<V>(s: Net<V>, a: Log<V>, before: seq<Step<V>>, later: seq<Step<V>>, w: nat, l: nat, i: nat)
    requires Reachable(s, a, before) && Runs(s, later)
    ensures AllowsAll(a, Trace(s, later))
    ensures var b := AfterAll(a, Trace(s, later));
      WroteAt(b, w, i) && l in b.starts ==>
        && (w < |s.calls| && Replied(s.calls[w], Accepted) && |s.calls| <= l ==> i < b.starts[l])
        && (l < |s.calls| && Replied(s.calls[l], Listening) && |s.calls| <= w ==> b.starts[l] <= i)
  {
    ReachableRefines(before);
    RunRefines(s, a, later);
    var b := AfterAll(a, Trace(s, later));
    EntriesOnlyGrow(a, Trace(s, later));
    CursorsOnlyAdvance(a, Trace(s, later), l);
    if WroteAt(b, w, i) && l in b.starts {
      OrderOfPositions(s, a, Exec(s, later), b, w, l, i);
    }
  }

  lemma OrderOfPositions<V>(s: Net<V>, a: Log<V>, t: Net<V>, b: Log<V>, w: nat, l: nat, i: nat)
    requires WritersOk(s, a) && ListenersOk(s) && CursorsOk(s, a) && WritersOk(t, b)
    requires |a.entries| <= |b.entries|
    requires forall j | 0 <= j < |a.entries| :: b.entries[j].writer == a.entries[j].writer
    requires if l in a.starts then l in b.starts && b.starts[l] == a.starts[l]
             else l in b.starts ==> |a.entries| <= b.starts[l]
    requires WroteAt(b, w, i) && l in b.starts
    ensures w < |s.calls| && Replied(s.calls[w], Accepted) && |s.calls| <= l ==> i < b.starts[l]
    ensures l < |s.calls| && Replied(s.calls[l], Listening) && |s.calls| <= w ==> b.starts[l] <= i
  {
    if w < |s.calls| && Replied(s.calls[w], Accepted) {
      var j: nat :| WroteAt(a, w, j);
      assert WroteAt(b, w, j);
    }
  }

  /** So a value whose Write had returned before Listen was called is never read by that receiver. */
  lemma EarlierWritesAreNeverRead<V>(before: seq<Step<V>>, later: seq<Step<V>>, w: nat, l: nat, i: nat)
    requires Runs(Init(), before) && Runs(Exec(Init(), before), later)
    requires var s := Exec(Init(), before);
      w < |s.calls| && s.calls[w] == Returned(Accepted) && |s.calls| <= l
    ensures Runs(Init(), before + later) && AllowsAll(Empty(), Trace(Init(), before + later))
    ensures var es := Trace(Init(), before + later);
      WroteAt(AfterAll(Empty(), es), w, i) ==> i !in PositionsOf(es, l)
  {
    hide Refines, Enabled, Apply, Observe, Allows, After, Runs, AllowsAll, AfterAll, Written, StartOf;
    ReachableRefines(before);
    var s, es := Exec(Init(), before), Trace(Init(), before);
    RunsCompose(Init(), before, later);
    ReachableRefines(before + later);
    RealTimeOrder(s, AfterAll(Empty(), es), before, later, w, l, i);
    AllowsCompose(Empty(), es, Trace(s, later));
    var all := Trace(Init(), before + later);
    CursorsCountReads(all, l);
    ReadsAreConsecutive(all, l);
  }

  lemma {:induction false} AllowsCompose<V>(a: Log<V>, xs: seq<Event<V>>, ys: seq<Event<V>>)
    requires AllowsAll(a, xs) && AllowsAll(AfterAll(a, xs), ys)
    ensures AllowsAll(a, xs + ys) && AfterAll(a, xs + ys) == AfterAll(AfterAll(a, xs), ys)
  {
    if |ys| == 0 {
      assert xs + ys == xs;
    } else {
      AllowsCompose(a, xs, ys[..|ys| - 1]);
      assert (xs + ys)[..|xs + ys| - 1] == xs + ys[..|ys| - 1];
    }
  }

  /** The log's cursors are the receivers' positions. */
  lemma CursorIsPosition<V>(s: Net<V>, a: Log<V>, l: nat)
    requires CursorsOk(s, a)
    ensures l in s.receivers <==> l in a.starts
    ensures l in s.receivers ==>
      if l in a.cursors then s.receivers[l].c == Some(a.cursors[l]) else s.receivers[l].c.None?
  {
  }

  /** A failing handler loses its entry and moves nobody. */
  lemma FailureLosesEntry<V>(s: Net<V>, a: Log<V>, k: nat, i: nat)
    requires Enabled(s, Handle(k)) && Allows(a, Observe(s, Handle(k))) && s.receivers[k].c == Some(i)
    requires s.receivers[k].pc.handlers[s.receivers[k].pc.i](s.receivers[k].pc.v).None?
    ensures var t, b := Apply(s, Handle(k)), After(a, Observe(s, Handle(k)));
      && t == s.(receivers := s.receivers[k := s.receivers[k].(pc := Idle)])
      && i < |b.entries| && b.entries[i].lost && b.starts == a.starts && b.cursors == a.cursors
  {
  }

  /** Once a handler has failed on cell `i`, no receiver at or before `i` ever gets past it. */
  lemma FailedHandlerBlocksItsCell<V>(
      s: Net<V>, a: Log<V>, before: seq<Step<V>>, k: nat, later: seq<Step<V>>, i: nat, l: nat)
    requires Reachable(s, a, before) && Enabled(s, Handle(k)) && s.receivers[k].c == Some(i)
    requires s.receivers[k].pc.handlers[s.receivers[k].pc.i](s.receivers[k].pc.v).None?
    requires Runs(Apply(s, Handle(k)), later)
    requires l in s.receivers && (s.receivers[l].c.Some? ==> s.receivers[l].c.value <= i)
    ensures var t := Exec(Apply(s, Handle(k)), later);
      l in t.receivers && (t.receivers[l].c.Some? ==> t.receivers[l].c.value <= i)
  {
    ReachableRefines(before);
    StepRefines(s, a, Handle(k));
    FailureLosesEntry(s, a, k, i);
    CursorIsPosition(s, a, l);
    var s', a' := Apply(s, Handle(k)), After(a, Observe(s, Handle(k)));
    hide Apply, After, Observe, Allows, Enabled, Refines, Exec, Runs, Trace;
    RunRefines(s', a', later);
    LostEntryBlocks(a', Trace(s', later), i, l);
    var t, b := Exec(s', later), AfterAll(a', Trace(s', later));
    assert CursorsOk(t, b) by { RefinesCursors(t, b); }
    CursorIsPosition(t, b, l);
  }

  lemma RefinesCursors<V>(s: Net<V>, a: Log<V>)
    requires Refines(s, a)
    ensures CursorsOk(s, a)
  {
  }

  /** A receiver whose Read has reported closed never returns a value again. */
  lemma ClosedReceiverStaysClosed<V>(s: Net<V>, a: Log<V>, before: seq<Step<V>>, later: seq<Step<V>>, k: nat)
    requires Reachable(s, a, before) && Runs(s, later)
    requires k in s.receivers && s.receivers[k].c.None?
    ensures k in Exec(s, later).receivers && Exec(s, later).receivers[k].c.None?
    ensures forall e | e in Trace(s, later) && e.Deliver? :: e.k != k
  {
    ReachableRefines(before);
    RunRefines(s, a, later);
    LeavingIsFinal(a, Trace(s, later), k);
  }

  lemma {:induction false} SealedLogIsFixed<V>(a: Log<V>, es: seq<Event<V>>)
    requires AllowsAll(a, es)
    requires forall j | 0 <= j < |es| :: !es[j].Append? && !es[j].Join?
    ensures var b := AfterAll(a, es);
      && |b.entries| == |a.entries| && b.starts == a.starts
      && forall i | 0 <= i < |a.entries| :: b.entries[i].writer == a.entries[i].writer
  {
    if |es| > 0 {
      SealedLogIsFixed(a, es[..|es| - 1]);
    }
  }

  /** Once isClosed is set, every Write or Listen that has yet to test it is refused. */
  lemma ClosedRefusesEverything<V>(s: Net<V>, a: Log<V>, before: seq<Step<V>>, later: seq<Step<V>>, k: nat)
    requires Reachable(s, a, before) && s.isClosed && Runs(s, later)
    requires k < |Exec(s, later).calls| && Exec(s, later).calls[k].Returned?
    requires k >= |s.calls| || s.calls[k].Called? || s.calls[k].Checking?
    ensures Exec(s, later).calls[k] == Returned(Refused)
  {
    ReachableRefines(before);
    RunRefines(s, a, later);
    var b, t := AfterAll(a, Trace(s, later)), Exec(s, later);
    assert a.closed;
    hide Refines, Exec, Runs, Trace, AfterAll, AllowsAll, Reachable;
    SealingIsFinal(a, Trace(s, later));
    SealedLogIsFixed(a, Trace(s, later));
    CallsOnlyGrow(s, later);
    NeitherAcceptedNorListening(s, a, t, b, k);
  }

  lemma NeitherAcceptedNorListening<V>(s: Net<V>, a: Log<V>, t: Net<V>, b: Log<V>, k: nat)
    requires Refines(s, a) && Refines(t, b)
    requires |b.entries| == |a.entries| && b.starts == a.starts && |s.calls| <= |t.calls|
    requires forall i | 0 <= i < |a.entries| :: b.entries[i].writer == a.entries[i].writer
    requires k < |t.calls| && t.calls[k].Returned? && (k >= |s.calls| || s.calls[k].Called? || s.calls[k].Checking?)
    ensures t.calls[k].reply.Refused?
  {
    hide ChainOk, HandsOk, PhaseOk, LockOk;
    forall i: nat ensures WroteAt(b, k, i) ==> WroteAt(a, k, i) {}
    assert Replied(t.calls[k], t.calls[k].reply);
  }
}
