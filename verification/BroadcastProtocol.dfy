/**
 The linked-channel broadcaster as a step system: one dispatcher goroutine, any number of Write and
 Listen calls, any number of receivers.  A step is the code between two points where a goroutine can
 block or be observed; any interleaving of steps is a run.

 Channels of capacity 1 are `cells`, numbered in the order they are made; `listenc` and `sendc` are
 unbuffered, so a send and its receive are one step.  The RWMutex is its set of readers and a writer flag.
 */
module BroadcastProtocol {
  import opened Options
  import opened BroadcastLog

  /** `broadcast` in the source: the next cell and a value. */
  datatype Message<V> = Message(next: nat, v: V)

  datatype Request<V> = Write(v: V) | Listen

  datatype Reply = Accepted | Refused | Listening

  /** Where a call of Write or Listen stands. */
  datatype Call<V> =
    | Called(req: Request<V>)    // before RLock
    | Checking(req: Request<V>)  // read lock held, before the isClosed test
    | Offering(req: Request<V>)  // at the send into sendc or listenc
    | Awaiting                   // Listen: at <-c
    | Unlocking(reply: Reply)    // result known, before the deferred RUnlock
    | Returned(reply: Reply)

  datatype Dispatcher<V> =
    | Selecting                           // at the select
    | Sending(c: nat, b: Message<V>)      // cell c made, at currc <- b
    | Replying(listener: nat)             // at r <- currc
    | Locking                             // shutdown seen, at mux.Lock
    | Closing(stage: nat)                 // lock held; 1: isClosed set, 2: listenc closed, 3: sendc closed
    | Exited

  datatype Reading<!V> =
    | Idle
    | Waiting(handlers: seq<Handler<V>>)                                     // at Read's select
    | Handling(b: Message<V>, v: V, handlers: seq<Handler<V>>, i: nat)       // message taken, i handlers done

  /** `c` is None once Read has reported closed (the source sets r.c to nil). */
  datatype Receiver<!V> = Receiver(c: Option<nat>, pc: Reading<V>)

  datatype Net<!V> = Net(
    cells: seq<Option<Message<V>>>, currc: nat, d: Dispatcher<V>,
    calls: seq<Call<V>>, receivers: map<nat, Receiver<V>>,
    shutdown: bool, isClosed: bool, listencClosed: bool, sendcClosed: bool,
    readers: set<nat>, writer: bool)

  datatype Step<!V> =
    | Begin(req: Request<V>)                 // somebody calls Write or Listen
    | RLock(k: nat) | Check(k: nat) | RUnlock(k: nat)
    | TakeWrite(k: nat) | SendCell           // dispatcher: v := <-sendc; currc <- b
    | TakeListen(k: nat) | SendReply         // dispatcher: r := <-listenc; r <- currc
    | NoticeShutdown | Lock | CloseNext      // dispatcher: <-shutdown; mux.Lock; the closing statements
    | Close                                  // somebody calls Close
    | BeginRead(k: nat, handlers: seq<Handler<V>>)
    | Take(k: nat) | Handle(k: nat) | PutBack(k: nat)
    | ReadShutdown(k: nat)

  ghost function Init<V>(): Net<V> {
    Net([None], 0, Selecting, [], map[], false, false, false, false, {}, false)
  }

  ghost predicate CallIs<V>(s: Net<V>, k: nat, call: Call<V>) {
    k < |s.calls| && s.calls[k] == call
  }

  ghost predicate OffersWrite<V>(s: Net<V>, k: nat) {
    k < |s.calls| && s.calls[k].Offering? && s.calls[k].req.Write?
  }

  ghost predicate Enabled<V>(s: Net<V>, step: Step<V>) {
    match step
    case Begin(_) => true
    case RLock(k) => k < |s.calls| && s.calls[k].Called? && !s.writer
    case Check(k) => k < |s.calls| && s.calls[k].Checking?
    case RUnlock(k) => k < |s.calls| && s.calls[k].Unlocking?
    case TakeWrite(k) => s.d.Selecting? && OffersWrite(s, k)
    case SendCell => s.d.Sending? && s.currc < |s.cells| && s.cells[s.currc].None?
    case TakeListen(k) => s.d.Selecting? && CallIs(s, k, Offering(Listen))
    case SendReply => s.d.Replying? && CallIs(s, s.d.listener, Awaiting)
    case NoticeShutdown => s.d.Selecting? && s.shutdown
    case Lock => s.d.Locking? && s.readers == {} && !s.writer
    case CloseNext => s.d.Closing?
    case Close => !s.shutdown
    case BeginRead(k, _) => CallIs(s, k, Returned(Listening)) && k in s.receivers && s.receivers[k].pc.Idle?
    case Take(k) =>
      && k in s.receivers && s.receivers[k].pc.Waiting? && s.receivers[k].c.Some?
      && s.receivers[k].c.value < |s.cells| && s.cells[s.receivers[k].c.value].Some?
    case Handle(k) =>
      k in s.receivers && s.receivers[k].pc.Handling? && s.receivers[k].pc.i < |s.receivers[k].pc.handlers|
    case PutBack(k) =>
      && k in s.receivers && s.receivers[k].pc.Handling? && s.receivers[k].pc.i == |s.receivers[k].pc.handlers|
      && s.receivers[k].c.Some? && s.receivers[k].c.value < |s.cells| && s.cells[s.receivers[k].c.value].None?
    case ReadShutdown(k) => k in s.receivers && s.receivers[k].pc.Waiting? && s.shutdown
  }

  ghost function Apply<V>(s: Net<V>, step: Step<V>): Net<V>
    requires Enabled(s, step)
  {
    match step
    case Begin(req) => s.(calls := s.calls + [Called(req)])
    case RLock(k) => s.(calls := s.calls[k := Checking(s.calls[k].req)], readers := s.readers + {k})
    case Check(k) => s.(calls := s.calls[k := if s.isClosed then Unlocking(Refused) else Offering(s.calls[k].req)])
    case RUnlock(k) => s.(calls := s.calls[k := Returned(s.calls[k].reply)], readers := s.readers - {k})
    case TakeWrite(k) =>
      var c := |s.cells|;
      s.(cells := s.cells + [None], d := Sending(c, Message(c, s.calls[k].req.v)),
         calls := s.calls[k := Unlocking(Accepted)])
    case SendCell => s.(cells := s.cells[s.currc := Some(s.d.b)], currc := s.d.c, d := Selecting)
    case TakeListen(k) => s.(d := Replying(k), calls := s.calls[k := Awaiting])
    case SendReply =>
      var k := s.d.listener;
      s.(d := Selecting, calls := s.calls[k := Unlocking(Listening)],
         receivers := s.receivers[k := Receiver(Some(s.currc), Idle)])
    case NoticeShutdown => s.(d := Locking)
    case Lock => s.(d := Closing(0), writer := true)
    case CloseNext =>
      if s.d.stage == 0 then s.(d := Closing(1), isClosed := true)
      else if s.d.stage == 1 then s.(d := Closing(2), listencClosed := true)
      else if s.d.stage == 2 then s.(d := Closing(3), sendcClosed := true)
      else s.(d := Exited, writer := false)
    case Close => s.(shutdown := true)
    case BeginRead(k, hs) => s.(receivers := s.receivers[k := s.receivers[k].(pc := Waiting(hs))])
    case Take(k) =>
      var r := s.receivers[k];
      var b := s.cells[r.c.value].value;
      s.(cells := s.cells[r.c.value := None],
         receivers := s.receivers[k := r.(pc := Handling(b, b.v, r.pc.handlers, 0))])
    case Handle(k) =>
      var r := s.receivers[k];
      var val := r.pc.handlers[r.pc.i](r.pc.v);
      s.(receivers := s.receivers[k := r.(pc :=
        if val.None? then Idle else r.pc.(b := r.pc.b.(v := val.value), i := r.pc.i + 1))])
    case PutBack(k) =>
      var r := s.receivers[k];
      s.(cells := s.cells[r.c.value := Some(r.pc.b)], receivers := s.receivers[k := Receiver(Some(r.pc.b.next), Idle)])
    case ReadShutdown(k) => s.(receivers := s.receivers[k := Receiver(None, Idle)])
  }

  /** What the log sees of a step.  A write counts when sendc delivers it, a read when it puts back or fails. */
  ghost function Observe<V>(s: Net<V>, step: Step<V>): Event<V>
    requires Enabled(s, step)
  {
    match step
    case TakeWrite(k) => Append(k, s.calls[k].req.v)
    case SendReply => Join(s.d.listener)
    case Handle(k) =>
      var r := s.receivers[k];
      if r.pc.handlers[r.pc.i](r.pc.v).None? && r.c.Some? then Spoil(k, r.c.value, r.pc.v, r.pc.handlers) else Silent
    case PutBack(k) => Deliver(k, s.receivers[k].c.value, s.receivers[k].pc.v, s.receivers[k].pc.handlers)
    case ReadShutdown(k) => Leave(k)
    case Close => Event.Shutdown
    case CloseNext => if s.d.stage == 0 then Seal else Silent
    case _ => Silent
  }

  // ---- The refinement relation ----

  /** Receiver `k` has taken cell `i`'s message out and has not yet put it back. */
  ghost predicate Holds<V>(s: Net<V>, k: nat, i: nat) {
    k in s.receivers && s.receivers[k].pc.Handling? && s.receivers[k].c == Some(i)
  }

  /** The dispatcher is about to send cell `i`'s first message. */
  ghost predicate Pending<V>(s: Net<V>, i: nat) {
    s.d.Sending? && s.currc == i
  }

  /** The cells form one chain of length |log| + 1, and every cell but the last has its message somewhere. */
  ghost predicate ChainOk<V>(s: Net<V>, a: Log<V>) {
    var n := |a.entries|;
    && |s.cells| == n + 1 && s.cells[n].None?
    && (s.d.Sending? ==>
          && n > 0 && s.currc == n - 1 && s.d.c == n && s.d.b == Message(n, a.entries[n - 1].now)
          && s.cells[n - 1].None? && !a.entries[n - 1].lost)
    && (!s.d.Sending? ==> s.currc == n)
    && (forall i | 0 <= i < n && s.cells[i].Some? ::
          s.cells[i].value == Message(i + 1, a.entries[i].now) && !a.entries[i].lost)
    && (forall i | 0 <= i < n && s.cells[i].None? ::
          Pending(s, i) || a.entries[i].lost || exists k :: Holds(s, k, i))
  }

  /** A message in a reader's hands is the only copy, and is what the log says it is. */
  ghost predicate HandOk<V>(s: Net<V>, a: Log<V>, k: nat)
    requires k in s.receivers && s.receivers[k].pc.Handling?
  {
    var r := s.receivers[k];
    && r.c.Some? && r.c.value < |a.entries| && r.c.value < |s.cells| && s.cells[r.c.value].None?
    && !Pending(s, r.c.value) && !a.entries[r.c.value].lost && r.pc.v == a.entries[r.c.value].now
    && r.pc.b.next == r.c.value + 1 && r.pc.i <= |r.pc.handlers|
    && AllSucceed(r.pc.handlers[..r.pc.i], r.pc.v)
    && r.pc.b.v == Left(r.pc.handlers[..r.pc.i], r.pc.v)
  }

  ghost predicate HandsOk<V>(s: Net<V>, a: Log<V>) {
    && (forall k | k in s.receivers :: s.receivers[k].pc.Handling? ==> HandOk(s, a, k))
    && (forall k: nat, l: nat, i: nat :: Holds(s, k, i) && Holds(s, l, i) ==> k == l)
  }

  ghost predicate CursorsOk<V>(s: Net<V>, a: Log<V>) {
    && a.starts.Keys == s.receivers.Keys
    && a.cursors.Keys <= s.receivers.Keys
    && (forall k | k in s.receivers ::
          if k in a.cursors then s.receivers[k].c == Some(a.cursors[k]) && a.cursors[k] <= |a.entries|
          else s.receivers[k].c.None?)
    && (forall k | k in a.starts :: a.starts[k] <= |a.entries|)
    && a.shutdown == s.shutdown && a.closed == s.isClosed
  }

  ghost predicate HoldsLock<V>(call: Call<V>) {
    call.Checking? || call.Offering? || call.Awaiting? || call.Unlocking?
  }

  ghost predicate Replied<V>(call: Call<V>, reply: Reply) {
    (call.Unlocking? || call.Returned?) && call.reply == reply
  }

  /** The write lock and the closed flags follow the dispatcher. */
  ghost predicate PhaseOk<V>(s: Net<V>) {
    && (s.writer <==> s.d.Closing?)
    && (s.d.Locking? || s.d.Closing? || s.d.Exited? ==> s.shutdown)
    && (s.d.Closing? ==> s.d.stage <= 3)
    && (s.isClosed <==> s.d.Exited? || (s.d.Closing? && s.d.stage >= 1))
    && (s.listencClosed <==> s.d.Exited? || (s.d.Closing? && s.d.stage >= 2))
    && (s.sendcClosed <==> s.d.Exited? || (s.d.Closing? && s.d.stage >= 3))
  }

  /** The read lock is held exactly by the calls inside it, and no call waits at a channel that is closed. */
  ghost predicate LockOk<V>(s: Net<V>) {
    && (forall k | k in s.readers :: k < |s.calls|)
    && (forall k | 0 <= k < |s.calls| :: k in s.readers <==> HoldsLock(s.calls[k]))
    && (s.writer ==> s.readers == {})
    && (forall k | 0 <= k < |s.calls| :: s.calls[k].Offering? || s.calls[k].Awaiting? ==> !s.isClosed)
    && (forall k | 0 <= k < |s.calls| :: s.calls[k].Awaiting? <==> s.d == Replying(k))
    && (s.d.Replying? ==> s.d.listener < |s.calls|)
  }

  ghost predicate ListenersOk<V>(s: Net<V>) {
    && (forall k | k in s.receivers :: k < |s.calls|)
    && (forall k | 0 <= k < |s.calls| :: k in s.receivers <==> Replied(s.calls[k], Listening))
    && (forall k | k in s.receivers :: !s.receivers[k].pc.Idle? ==> s.calls[k] == Returned(Listening))
  }

  ghost predicate WroteAt<V>(a: Log<V>, k: nat, i: nat) {
    i < |a.entries| && a.entries[i].writer == k
  }

  /** The accepted writes are exactly the log's entries, each once. */
  ghost predicate WritersOk<V>(s: Net<V>, a: Log<V>) {
    && (forall i | 0 <= i < |a.entries| ::
          a.entries[i].writer < |s.calls| && Replied(s.calls[a.entries[i].writer], Accepted))
    && (forall k: nat, i: nat, j: nat :: WroteAt(a, k, i) && WroteAt(a, k, j) ==> i == j)
    && (forall k | 0 <= k < |s.calls| :: Replied(s.calls[k], Accepted) ==> exists i :: WroteAt(a, k, i))
  }

  ghost predicate Refines<V>(s: Net<V>, a: Log<V>) {
    ChainOk(s, a) && HandsOk(s, a) && CursorsOk(s, a) && PhaseOk(s) && LockOk(s) && ListenersOk(s) && WritersOk(s, a)
  }

  lemma InitRefines<V>()
    ensures Refines(Init<V>(), Empty<V>())
  {
  }

  lemma LogAllowsReader<V>(s: Net<V>, a: Log<V>, step: Step<V>)
    requires HandsOk(s, a) && CursorsOk(s, a) && Enabled(s, step)
    requires step.Handle? || step.PutBack?
    ensures Allows(a, Observe(s, step))
  {
    var r := s.receivers[step.k];
    assert HandOk(s, a, step.k);
    assert step.PutBack? ==> r.pc.handlers[..r.pc.i] == r.pc.handlers;
  }

  lemma LogAllows<V>(s: Net<V>, a: Log<V>, step: Step<V>)
    requires HandsOk(s, a) && CursorsOk(s, a) && PhaseOk(s) && LockOk(s) && ListenersOk(s) && WritersOk(s, a)
    requires Enabled(s, step)
    ensures Allows(a, Observe(s, step))
  {
    match step
    case Handle(_) => LogAllowsReader(s, a, step);
    case PutBack(_) => LogAllowsReader(s, a, step);
    case TakeWrite(k) => assert !Replied(s.calls[k], Accepted);
    case SendReply => assert !Replied(s.calls[s.d.listener], Listening);
    case _ =>
  }

  lemma PhaseStep<V>(s: Net<V>, step: Step<V>)
    requires PhaseOk(s) && Enabled(s, step)
    ensures PhaseOk(Apply(s, step))
  {
  }

  ghost predicate OfDispatcher<V>(step: Step<V>) {
    step.TakeWrite? || step.SendCell? || step.TakeListen? || step.SendReply? ||
    step.NoticeShutdown? || step.Lock? || step.CloseNext?
  }

  ghost predicate OfReader<V>(step: Step<V>) {
    step.BeginRead? || step.Take? || step.Handle? || step.PutBack? || step.ReadShutdown?
  }

  lemma LockStep<V>(s: Net<V>, step: Step<V>)
    requires PhaseOk(s) && LockOk(s) && Enabled(s, step)
    ensures LockOk(Apply(s, step))
  {
    if OfDispatcher(step) {
      LockStepDispatcher(s, step);
    } else if OfReader(step) {
      ReadersKeepLock(s, step);
    } else {
      LockStepCall(s, step);
    }
  }

  lemma LockStepDispatcher<V>(s: Net<V>, step: Step<V>)
    requires PhaseOk(s) && LockOk(s) && Enabled(s, step) && OfDispatcher(step)
    ensures LockOk(Apply(s, step))
  {
    match step
    case TakeWrite(_) =>
    case SendCell =>
    case TakeListen(_) =>
    case SendReply =>
    case NoticeShutdown =>
    case Lock =>
    case CloseNext =>
  }

  lemma ReadersKeepLock<V>(s: Net<V>, step: Step<V>)
    requires LockOk(s) && Enabled(s, step) && OfReader(step)
    ensures LockOk(Apply(s, step))
  {
    match step
    case BeginRead(_, _) =>
    case Take(_) =>
    case Handle(_) =>
    case PutBack(_) =>
    case ReadShutdown(_) =>
  }

  lemma LockStepCall<V>(s: Net<V>, step: Step<V>)
    requires LockOk(s) && Enabled(s, step) && !OfDispatcher(step) && !OfReader(step)
    ensures LockOk(Apply(s, step))
  {
    match step
    case Begin(_) =>
    case RLock(_) =>
    case Check(_) =>
    case RUnlock(_) =>
    case Close =>
  }

  /** The steps that concern neither the cells nor the receivers. */
  ghost predicate Quiet<V>(step: Step<V>) {
    step.Begin? || step.RLock? || step.Check? || step.RUnlock? || step.TakeListen? || step.NoticeShutdown? ||
    step.Lock? || step.CloseNext? || step.Close?
  }

  lemma QuietNet<V>(s: Net<V>, step: Step<V>)
    requires Enabled(s, step) && Quiet(step)
    ensures var t, e := Apply(s, step), Observe(s, step);
      && t.cells == s.cells && t.currc == s.currc && t.receivers == s.receivers
      && (t.d == s.d || (!t.d.Sending? && !s.d.Sending?))
      && (e.Silent? || e.Shutdown? || e.Seal?)
      && t.shutdown == (s.shutdown || e.Shutdown?)
      && t.isClosed == (s.isClosed || e.Seal?)
  {
    match step
    case Begin(_) =>
    case RLock(_) =>
    case Check(_) =>
    case RUnlock(_) =>
    case TakeListen(_) =>
    case NoticeShutdown =>
    case Lock =>
    case CloseNext =>
    case Close =>
    case _ => assert false;
  }

  lemma QuietStep<V>(s: Net<V>, a: Log<V>, step: Step<V>)
    requires Enabled(s, step) && Allows(a, Observe(s, step)) && Quiet(step)
    ensures var t, b := Apply(s, step), After(a, Observe(s, step));
      && t.cells == s.cells && t.currc == s.currc && t.receivers == s.receivers
      && (t.d == s.d || (!t.d.Sending? && !s.d.Sending?))
      && b.entries == a.entries && b.starts == a.starts && b.cursors == a.cursors
      && (a.shutdown == s.shutdown ==> b.shutdown == t.shutdown)
      && (a.closed == s.isClosed ==> b.closed == t.isClosed)
  {
    hide Apply, Observe, Enabled;
    QuietNet(s, step);
  }

  lemma QuietCalls<V>(s: Net<V>, step: Step<V>)
    requires Enabled(s, step) && Quiet(step)
    ensures var t := Apply(s, step);
      && |s.calls| <= |t.calls|
      && forall k | 0 <= k < |t.calls| ::
           && (Replied(t.calls[k], Listening) <==> k < |s.calls| && Replied(s.calls[k], Listening))
           && (k < |s.calls| && s.calls[k] == Returned(Listening) ==> t.calls[k] == s.calls[k])
  {
    match step
    case Begin(_) =>
    case RLock(_) =>
    case Check(_) =>
    case RUnlock(_) =>
    case TakeListen(_) =>
    case NoticeShutdown =>
    case Lock =>
    case CloseNext =>
    case Close =>
    case _ => assert false;
  }

  lemma QuietListeners<V>(s: Net<V>, step: Step<V>)
    requires LockOk(s) && ListenersOk(s) && Enabled(s, step) && Quiet(step)
    ensures ListenersOk(Apply(s, step))
  {
    QuietNet(s, step);
    QuietCalls(s, step);
    hide Apply, Enabled, LockOk;
  }

  lemma ReaderListeners<V>(s: Net<V>, step: Step<V>)
    requires ListenersOk(s) && Enabled(s, step) && OfReader(step)
    ensures ListenersOk(Apply(s, step))
  {
    var t, k := Apply(s, step), step.k;
    assert t.calls == s.calls && t.receivers == s.receivers[k := t.receivers[k]];
  }

  lemma ListenersStep<V>(s: Net<V>, step: Step<V>)
    requires LockOk(s) && ListenersOk(s) && Enabled(s, step)
    ensures ListenersOk(Apply(s, step))
  {
    if Quiet(step) {
      QuietListeners(s, step);
    } else if step.SendReply? {
    } else if step.TakeWrite? || step.SendCell? {
      assert Apply(s, step).receivers == s.receivers;
    } else {
      ReaderListeners(s, step);
    }
  }

  /** Appending an entry keeps every earlier one. */
  lemma WritersTakeWrite<V>(s: Net<V>, a: Log<V>, k: nat)
    requires WritersOk(s, a) && Enabled(s, TakeWrite(k)) && Allows(a, Observe(s, TakeWrite(k)))
    ensures WritersOk(Apply(s, TakeWrite(k)), After(a, Observe(s, TakeWrite(k))))
  {
    var t, b := Apply(s, TakeWrite(k)), After(a, Observe(s, TakeWrite(k)));
    var n := |a.entries|;
    forall l: nat, i: nat | WroteAt(a, l, i) ensures WroteAt(b, l, i) {}
    forall l: nat, i: nat | WroteAt(b, l, i) ensures if i == n then l == k else WroteAt(a, l, i) && l != k {}
    assert WroteAt(b, k, n);
  }

  /** The writers do not care about a step that accepts no write. */
  lemma WritersFrame<V>(s: Net<V>, a: Log<V>, t: Net<V>, b: Log<V>)
    requires WritersOk(s, a)
    requires |s.calls| <= |t.calls| && |b.entries| == |a.entries|
    requires forall k | 0 <= k < |t.calls| ::
      Replied(t.calls[k], Accepted) <==> k < |s.calls| && Replied(s.calls[k], Accepted)
    requires forall i | 0 <= i < |a.entries| :: b.entries[i].writer == a.entries[i].writer
    ensures WritersOk(t, b)
  {
    forall k: nat, i: nat ensures WroteAt(a, k, i) <==> WroteAt(b, k, i) {}
  }

  lemma RepliesFrame<V>(s: Net<V>, step: Step<V>)
    requires LockOk(s) && Enabled(s, step) && !step.TakeWrite?
    ensures var t := Apply(s, step);
      && |s.calls| <= |t.calls|
      && forall k | 0 <= k < |t.calls| ::
           Replied(t.calls[k], Accepted) <==> k < |s.calls| && Replied(s.calls[k], Accepted)
  {
    match step
    case Begin(_) =>
    case RLock(_) =>
    case Check(_) =>
    case RUnlock(_) =>
    case TakeListen(_) =>
    case SendReply =>
    case _ =>
  }

  lemma WritersStep<V>(s: Net<V>, a: Log<V>, step: Step<V>)
    requires LockOk(s) && WritersOk(s, a) && Enabled(s, step) && Allows(a, Observe(s, step))
    ensures WritersOk(Apply(s, step), After(a, Observe(s, step)))
  {
    if step.TakeWrite? {
      WritersTakeWrite(s, a, step.k);
    } else {
      RepliesFrame(s, step);
      WritersFrame(s, a, Apply(s, step), After(a, Observe(s, step)));
    }
  }

  /** A step of receiver `k` that moves its cursor forward, or takes it away, or neither. */
  lemma CursorsMove<V>(s: Net<V>, a: Log<V>, t: Net<V>, b: Log<V>, k: nat)
    requires CursorsOk(s, a) && k in s.receivers && k in t.receivers
    requires t.receivers == s.receivers[k := t.receivers[k]]
    requires b.starts == a.starts && |b.entries| == |a.entries|
    requires t.shutdown == s.shutdown && t.isClosed == s.isClosed && b.shutdown == a.shutdown && b.closed == a.closed
    requires
      || (b.cursors == a.cursors && t.receivers[k].c == s.receivers[k].c)
      || (b.cursors == a.cursors - {k} && t.receivers[k].c.None?)
      || (k in a.cursors && k in b.cursors && a.cursors[k] <= b.cursors[k] <= |a.entries|
          && b.cursors == a.cursors[k := b.cursors[k]] && t.receivers[k].c == Some(b.cursors[k]))
    ensures CursorsOk(t, b)
  {
  }

  lemma CursorsPutBack<V>(s: Net<V>, a: Log<V>, k: nat)
    requires HandsOk(s, a) && CursorsOk(s, a) && Enabled(s, PutBack(k)) && Allows(a, Observe(s, PutBack(k)))
    ensures CursorsOk(Apply(s, PutBack(k)), After(a, Observe(s, PutBack(k))))
  {
    assert HandOk(s, a, k);
    hide AllSucceed, Left;
    CursorsMove(s, a, Apply(s, PutBack(k)), After(a, Observe(s, PutBack(k))), k);
  }

  lemma CursorsHandle<V>(s: Net<V>, a: Log<V>, k: nat)
    requires CursorsOk(s, a) && Enabled(s, Handle(k)) && Allows(a, Observe(s, Handle(k)))
    ensures CursorsOk(Apply(s, Handle(k)), After(a, Observe(s, Handle(k))))
  {
    hide AllSucceed, Left;
    CursorsMove(s, a, Apply(s, Handle(k)), After(a, Observe(s, Handle(k))), k);
  }

  lemma CursorsWait<V>(s: Net<V>, a: Log<V>, step: Step<V>)
    requires CursorsOk(s, a) && Enabled(s, step) && Allows(a, Observe(s, step))
    requires step.Take? || step.ReadShutdown? || step.BeginRead?
    ensures CursorsOk(Apply(s, step), After(a, Observe(s, step)))
  {
    match step
    case Take(k) => CursorsMove(s, a, Apply(s, step), a, k);
    case BeginRead(k, _) => CursorsMove(s, a, Apply(s, step), a, k);
    case ReadShutdown(k) => CursorsMove(s, a, Apply(s, step), After(a, Leave(k)), k);
  }

  lemma CursorsStepDispatcher<V>(s: Net<V>, a: Log<V>, step: Step<V>)
    requires ChainOk(s, a) && CursorsOk(s, a) && Enabled(s, step) && Allows(a, Observe(s, step))
    requires step.TakeWrite? || step.SendCell? || step.SendReply?
    ensures CursorsOk(Apply(s, step), After(a, Observe(s, step)))
  {
  }

  lemma CursorsStep<V>(s: Net<V>, a: Log<V>, step: Step<V>)
    requires ChainOk(s, a) && HandsOk(s, a) && CursorsOk(s, a) && Enabled(s, step) && Allows(a, Observe(s, step))
    ensures CursorsOk(Apply(s, step), After(a, Observe(s, step)))
  {
    hide Allows, After, Apply, Observe, Enabled, ChainOk;
    if Quiet(step) {
      QuietStep(s, a, step);
    } else if step.TakeWrite? || step.SendCell? || step.SendReply? {
      CursorsStepDispatcher(s, a, step);
    } else {
      match step
      case PutBack(k) => CursorsPutBack(s, a, k);
      case Handle(k) => CursorsHandle(s, a, k);
      case _ => CursorsWait(s, a, step);
    }
  }

  lemma ChainStepDispatcher<V>(s: Net<V>, a: Log<V>, step: Step<V>)
    requires ChainOk(s, a) && HandsOk(s, a) && Enabled(s, step) && Allows(a, Observe(s, step))
    requires step.TakeWrite? || step.SendCell?
    ensures ChainOk(Apply(s, step), After(a, Observe(s, step)))
  {
    var t := Apply(s, step);
    forall k, i | Holds(s, k, i) ensures Holds(t, k, i) {}
    forall i | Pending(s, i) && step.TakeWrite? ensures false {}
  }

  /** The chain does not care about a step that leaves the cells alone and takes no message away. */
  lemma ChainFrame<V>(s: Net<V>, a: Log<V>, t: Net<V>, b: Log<V>)
    requires ChainOk(s, a)
    requires t.cells == s.cells && t.currc == s.currc && b.entries == a.entries
    requires t.d == s.d || (!t.d.Sending? && !s.d.Sending?)
    requires forall k, i | Holds(s, k, i) :: Holds(t, k, i)
    ensures ChainOk(t, b)
  {
    forall i | Pending(s, i) ensures Pending(t, i) {}
  }

  /** A step of one reader that concerns the message of cell `at` alone. */
  lemma ChainMove<V>(s: Net<V>, a: Log<V>, t: Net<V>, b: Log<V>, at: nat)
    requires ChainOk(s, a) && at < |a.entries| == |b.entries| && !Pending(s, at)
    requires t.d == s.d && t.currc == s.currc && |t.cells| == |s.cells|
    requires forall i | 0 <= i < |s.cells| && i != at :: t.cells[i] == s.cells[i]
    requires forall i | 0 <= i < |a.entries| && i != at :: b.entries[i] == a.entries[i]
    requires forall k: nat, i: nat | Holds(s, k, i) && i != at :: Holds(t, k, i)
    requires t.cells[at].Some? ==> t.cells[at].value == Message(at + 1, b.entries[at].now) && !b.entries[at].lost
    requires t.cells[at].None? ==> b.entries[at].lost || exists k: nat :: Holds(t, k, at)
    ensures ChainOk(t, b)
  {
    forall i ensures Pending(t, i) <==> Pending(s, i) {}
  }

  lemma ChainStepTake<V>(s: Net<V>, a: Log<V>, k: nat)
    requires ChainOk(s, a) && CursorsOk(s, a) && Enabled(s, Step.Take(k)) && Allows(a, Observe(s, Step.Take(k)))
    ensures ChainOk(Apply(s, Step.Take(k)), After(a, Observe(s, Step.Take(k))))
  {
    var t := Apply(s, Step.Take(k));
    assert Holds(t, k, s.receivers[k].c.value);
    ChainMove(s, a, t, a, s.receivers[k].c.value);
  }

  lemma ChainStepPutBack<V>(s: Net<V>, a: Log<V>, k: nat)
    requires ChainOk(s, a) && HandsOk(s, a) && Enabled(s, PutBack(k)) && Allows(a, Observe(s, PutBack(k)))
    ensures ChainOk(Apply(s, PutBack(k)), After(a, Observe(s, PutBack(k))))
  {
    var r := s.receivers[k];
    assert HandOk(s, a, k);
    hide HandsOk, ChainOk;
    assert r.pc.handlers[..r.pc.i] == r.pc.handlers;
    ChainMove(s, a, Apply(s, PutBack(k)), After(a, Observe(s, PutBack(k))), r.c.value);
  }

  /** A handler changes its own reader, and its cell's entry if it fails. */
  lemma HandleEffect<V>(s: Net<V>, a: Log<V>, k: nat, at: nat)
    requires Enabled(s, Handle(k)) && Allows(a, Observe(s, Handle(k))) && s.receivers[k].c == Some(at)
    ensures var t, b := Apply(s, Handle(k)), After(a, Observe(s, Handle(k)));
      && t.cells == s.cells && t.d == s.d && t.currc == s.currc
      && (forall l: nat, i: nat | Holds(s, l, i) && i != at :: Holds(t, l, i))
      && |b.entries| == |a.entries|
      && (forall i | 0 <= i < |a.entries| && i != at :: b.entries[i] == a.entries[i])
      && (at < |a.entries| ==> b.entries[at].lost || (b.entries[at] == a.entries[at] && Holds(t, k, at)))
  {
  }

  lemma ChainStepHandle<V>(s: Net<V>, a: Log<V>, k: nat)
    requires ChainOk(s, a) && HandsOk(s, a) && Enabled(s, Handle(k)) && Allows(a, Observe(s, Handle(k)))
    ensures ChainOk(Apply(s, Handle(k)), After(a, Observe(s, Handle(k))))
  {
    assert HandOk(s, a, k);
    var at := s.receivers[k].c.value;
    HandleEffect(s, a, k, at);
    hide HandsOk, ChainOk, Apply, After, Observe, Allows, AllSucceed, Left;
    ChainMove(s, a, Apply(s, Handle(k)), After(a, Observe(s, Handle(k))), at);
  }

  /** A receiver that begins or gives up a read, or is created, has no message in hand before or after. */
  lemma IdleReceiverStep<V>(s: Net<V>, a: Log<V>, step: Step<V>)
    requires LockOk(s) && ListenersOk(s) && Enabled(s, step) && Allows(a, Observe(s, step))
    requires step.SendReply? || step.BeginRead? || step.ReadShutdown?
    ensures var t, b := Apply(s, step), After(a, Observe(s, step));
      && t.cells == s.cells && t.currc == s.currc && b.entries == a.entries
      && (t.d == s.d || (!t.d.Sending? && !s.d.Sending?))
      && (forall k: nat, i: nat :: Holds(s, k, i) <==> Holds(t, k, i))
      && (forall k | k in t.receivers && t.receivers[k].pc.Handling? ::
            k in s.receivers && t.receivers[k] == s.receivers[k])
  {
    match step
    case SendReply =>
    case BeginRead(_, _) =>
    case ReadShutdown(_) =>
  }

  lemma ChainStepOther<V>(s: Net<V>, a: Log<V>, step: Step<V>)
    requires ChainOk(s, a) && LockOk(s) && ListenersOk(s) && Enabled(s, step) && Allows(a, Observe(s, step))
    requires Quiet(step) || step.SendReply? || step.BeginRead? || step.ReadShutdown?
    ensures ChainOk(Apply(s, step), After(a, Observe(s, step)))
  {
    if Quiet(step) {
      QuietStep(s, a, step);
    } else {
      IdleReceiverStep(s, a, step);
    }
    hide LockOk, ListenersOk, Apply, Observe, After, Allows, Enabled, ChainOk;
    ChainFrame(s, a, Apply(s, step), After(a, Observe(s, step)));
  }

  lemma ChainStep<V>(s: Net<V>, a: Log<V>, step: Step<V>)
    requires ChainOk(s, a) && HandsOk(s, a) && CursorsOk(s, a) && LockOk(s) && ListenersOk(s)
    requires Enabled(s, step) && Allows(a, Observe(s, step))
    ensures ChainOk(Apply(s, step), After(a, Observe(s, step)))
  {
    hide ChainOk, HandsOk, CursorsOk, LockOk, ListenersOk, Apply, Observe, After, Allows;
    match step
    case TakeWrite(_) => ChainStepDispatcher(s, a, step);
    case SendCell => ChainStepDispatcher(s, a, step);
    case Take(k) => ChainStepTake(s, a, k);
    case PutBack(k) => ChainStepPutBack(s, a, k);
    case Handle(k) => ChainStepHandle(s, a, k);
    case _ => ChainStepOther(s, a, step);
  }

  /** The hands do not care about a step that leaves every taken message and its cell alone. */
  lemma HandsFrame<V>(s: Net<V>, a: Log<V>, t: Net<V>, b: Log<V>)
    requires HandsOk(s, a)
    requires forall k | k in t.receivers && t.receivers[k].pc.Handling? ::
      k in s.receivers && t.receivers[k] == s.receivers[k]
    requires forall k: nat, i: nat | Holds(t, k, i) && i < |s.cells| && i < |a.entries| ::
      && i < |t.cells| && i < |b.entries| && t.cells[i] == s.cells[i] && b.entries[i] == a.entries[i]
      && (Pending(t, i) ==> Pending(s, i))
    ensures HandsOk(t, b)
  {
    forall k | k in t.receivers && t.receivers[k].pc.Handling? ensures HandOk(t, b, k) {
      assert HandOk(s, a, k);
      assert Holds(t, k, s.receivers[k].c.value);
    }
    forall k: nat, i: nat | Holds(t, k, i) ensures Holds(s, k, i) {}
  }

  lemma HandsStepDispatcher<V>(s: Net<V>, a: Log<V>, step: Step<V>)
    requires ChainOk(s, a) && HandsOk(s, a) && Enabled(s, step) && Allows(a, Observe(s, step))
    requires step.TakeWrite? || step.SendCell?
    ensures HandsOk(Apply(s, step), After(a, Observe(s, step)))
  {
    var t, b := Apply(s, step), After(a, Observe(s, step));
    forall k: nat, i: nat | Holds(t, k, i)
      ensures i < |a.entries| && !Pending(s, i)
    {
      assert HandOk(s, a, k);
    }
    HandsFrame(s, a, t, b);
  }

  lemma HandsStepTake<V>(s: Net<V>, a: Log<V>, k: nat)
    requires ChainOk(s, a) && HandsOk(s, a) && CursorsOk(s, a)
    requires Enabled(s, Step.Take(k)) && Allows(a, Observe(s, Step.Take(k)))
    ensures HandsOk(Apply(s, Step.Take(k)), After(a, Observe(s, Step.Take(k))))
  {
    var t := Apply(s, Step.Take(k));
    var at := s.receivers[k].c.value;
    forall l: nat, i: nat | Holds(t, l, i) && l != k ensures Holds(s, l, i) && i != at {
      assert HandOk(s, a, l);
    }
    forall l | l in t.receivers && t.receivers[l].pc.Handling? ensures HandOk(t, a, l) {
      if l == k {
        assert t.receivers[k].pc.handlers[..0] == [];
      } else {
        assert HandOk(s, a, l);
      }
    }
  }

  /** A reader that puts back or gives up leaves only its own cell changed. */
  lemma HandsRelease<V>(s: Net<V>, a: Log<V>, t: Net<V>, b: Log<V>, k: nat)
    requires HandsOk(s, a) && k in s.receivers && k in t.receivers && !t.receivers[k].pc.Handling?
    requires s.receivers[k].pc.Handling? && s.receivers[k].c.Some?
    requires t.receivers == s.receivers[k := t.receivers[k]] && t.d == s.d && t.currc == s.currc
    requires |t.cells| == |s.cells| && |b.entries| == |a.entries|
    requires forall i: nat | i < |s.cells| && i != s.receivers[k].c.value :: t.cells[i] == s.cells[i]
    requires forall i: nat | i < |a.entries| && i != s.receivers[k].c.value :: b.entries[i] == a.entries[i]
    ensures HandsOk(t, b)
  {
    var at := s.receivers[k].c.value;
    assert Holds(s, k, at);
    forall l: nat, i: nat | Holds(t, l, i) ensures l != k && Holds(s, l, i) && i != at {
      assert Holds(s, l, i);
      assert Holds(s, l, at) ==> l == k;
    }
    HandsFrame(s, a, t, b);
  }

  lemma HandsStepHandle<V>(s: Net<V>, a: Log<V>, k: nat)
    requires HandsOk(s, a) && Enabled(s, Handle(k)) && Allows(a, Observe(s, Handle(k)))
    ensures HandsOk(Apply(s, Handle(k)), After(a, Observe(s, Handle(k))))
  {
    var t, b := Apply(s, Handle(k)), After(a, Observe(s, Handle(k)));
    var r := s.receivers[k];
    var hs, i, v := r.pc.handlers, r.pc.i, r.pc.v;
    assert HandOk(s, a, k);
    if hs[i](v).None? {
      HandsRelease(s, a, t, b, k);
    } else {
      assert hs[..i + 1] == hs[..i] + [hs[i]];
      forall l | l in t.receivers && t.receivers[l].pc.Handling? ensures HandOk(t, b, l) {
        assert HandOk(s, a, l);
      }
      forall l: nat, j: nat | Holds(t, l, j) ensures Holds(s, l, j) {}
    }
  }

  lemma HandsStepPutBack<V>(s: Net<V>, a: Log<V>, k: nat)
    requires HandsOk(s, a) && Enabled(s, PutBack(k)) && Allows(a, Observe(s, PutBack(k)))
    ensures HandsOk(Apply(s, PutBack(k)), After(a, Observe(s, PutBack(k))))
  {
    HandsRelease(s, a, Apply(s, PutBack(k)), After(a, Observe(s, PutBack(k))), k);
  }

  lemma HandsStepOther<V>(s: Net<V>, a: Log<V>, step: Step<V>)
    requires HandsOk(s, a) && LockOk(s) && ListenersOk(s) && Enabled(s, step) && Allows(a, Observe(s, step))
    requires Quiet(step) || step.SendReply? || step.BeginRead? || step.ReadShutdown?
    ensures HandsOk(Apply(s, step), After(a, Observe(s, step)))
  {
    if Quiet(step) {
      QuietStep(s, a, step);
    } else {
      IdleReceiverStep(s, a, step);
    }
    hide LockOk, ListenersOk, Apply, Observe, After, Allows, Enabled, HandsOk;
    HandsFrame(s, a, Apply(s, step), After(a, Observe(s, step)));
  }

  lemma HandsStep<V>(s: Net<V>, a: Log<V>, step: Step<V>)
    requires ChainOk(s, a) && HandsOk(s, a) && CursorsOk(s, a) && LockOk(s) && ListenersOk(s)
    requires Enabled(s, step) && Allows(a, Observe(s, step))
    ensures HandsOk(Apply(s, step), After(a, Observe(s, step)))
  {
    hide HandsOk, ChainOk, CursorsOk, LockOk, ListenersOk, Apply, Observe, After, Allows;
    match step
    case TakeWrite(_) => HandsStepDispatcher(s, a, step);
    case SendCell => HandsStepDispatcher(s, a, step);
    case Take(k) => HandsStepTake(s, a, k);
    case PutBack(k) => HandsStepPutBack(s, a, k);
    case Handle(k) => HandsStepHandle(s, a, k);
    case _ => HandsStepOther(s, a, step);
  }

  /**
   The simulation: whatever step the network takes, the log allows the matching event, and the two
   still agree afterwards.
   */
  lemma StepRefines<V>(s: Net<V>, a: Log<V>, step: Step<V>)
    requires Refines(s, a) && Enabled(s, step)
    ensures Allows(a, Observe(s, step))
    ensures Refines(Apply(s, step), After(a, Observe(s, step)))
  {
    LogAllows(s, a, step);
    ChainStep(s, a, step);
    HandsStep(s, a, step);
    CursorsStep(s, a, step);
    PhaseStep(s, step);
    LockStep(s, step);
    ListenersStep(s, step);
    WritersStep(s, a, step);
  }
}
