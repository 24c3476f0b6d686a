/**
 The broadcaster's own data: capacity-1 channels linked by pointers, receivers that hold a pointer and
 move it.  Each method is a source function run without interruption, proved to do to the linked cells
 exactly what its event does to the log.  `BroadcastProtocol` covers the interleavings.
 */
module BroadcastHeap {
  import opened Options
  import opened BroadcastLog

  /** A `chan broadcast` of capacity 1. */
  class Cell<V> {
    var buf: Option<Broadcast<V>>

    constructor ()
      ensures buf == None
    {
      buf := None;
    }
  }

  datatype Broadcast<V> = Broadcast(c: Cell<V>, v: V)

  /** What Read returns, or Waits when no case of its select is ready. */
  datatype ReadResult<V> = Value(v: V) | HandlerFailed | BroadcasterClosed | Waits

  class Broadcaster<V> {
    var currc: Cell<V>       // the dispatcher's local variable
    var shutdown: bool       // the shutdown channel is closed
    var isClosed: bool
    ghost var log: Log<V>
    ghost var cells: seq<Cell<V>>
    ghost var receivers: map<nat, Receiver<V>>

    ghost predicate Valid()
      reads this, cells, receivers.Values
    {
      && LinkedCells(cells, log.entries)
      && currc == cells[|log.entries|]
      && log.starts.Keys == receivers.Keys && log.cursors.Keys <= receivers.Keys
      && (forall k, l | k in receivers && l in receivers :: receivers[k] == receivers[l] ==> k == l)
      && (forall k | k in receivers :: Placed(receivers[k], cells, log, k))
      && log.shutdown == shutdown && log.closed == isClosed
    }

    /** NewBroadcaster. */
    constructor ()
      ensures Valid() && fresh(cells) && log == Empty() && receivers == map[]
    {
      var c := new Cell<V>();
      currc, shutdown, isClosed := c, false, false;
      log, cells, receivers := Empty(), [c], map[];
    }

    /** Close: closes the shutdown channel. */
    method Close()
      requires Valid() && !shutdown
      modifies this
      ensures Valid() && log == After(old(log), Event.Shutdown)
      ensures cells == old(cells) && receivers == old(receivers)
    {
      shutdown := true;
      log := After(log, Event.Shutdown);
    }

    /** The dispatcher's shutdown case. */
    method Seal()
      requires Valid() && shutdown && !isClosed
      modifies this
      ensures Valid() && log == After(old(log), Event.Seal)
      ensures cells == old(cells) && receivers == old(receivers)
    {
      isClosed := true;
      log := After(log, Event.Seal);
    }

    /** Write, with the dispatcher's case for sendc. */
    method Write(ghost k: nat, v: V) returns (ok: bool)
      requires Valid() && forall i | 0 <= i < |log.entries| :: log.entries[i].writer != k
      modifies this, cells
      ensures Valid() && ok == !old(isClosed)
      ensures log == if ok then After(old(log), Append(k, v)) else old(log)
      ensures receivers == old(receivers) && old(cells) <= cells && fresh(cells[|old(cells)|..])
    {
      if isClosed {
        return false;
      }
      ghost var n := |log.entries|;
      var c := new Cell<V>();
      var b := Broadcast(c, v);
      currc.buf := Some(b);
      currc := c;
      log, cells := After(log, Append(k, v)), cells + [c];
      forall i | 0 <= i < |log.entries| ensures CellOk(cells, log.entries, i) {
        assert i < n ==> old(CellOk(cells, log.entries, i)) && cells[i] != old(currc);
      }
      return true;
    }

    /** Listen, with the dispatcher's case for listenc. */
    method Listen(ghost k: nat) returns (r: Receiver?<V>)
      requires Valid() && k !in log.starts
      modifies this
      ensures Valid() && (r == null <==> old(isClosed)) && cells == old(cells)
      ensures log == if r != null then After(old(log), Join(k)) else old(log)
      ensures r != null ==> fresh(r) && receivers == old(receivers)[k := r]
      ensures r == null ==> receivers == old(receivers)
    {
      if isClosed {
        return null;
      }
      r := new Receiver<V>(currc);
      log, receivers := After(log, Join(k)), receivers[k := r];
    }
  }

  /** Cell i leads to cell i + 1 with the entry's present value; a lost entry's cell and the tail are empty. */
  ghost predicate LinkedCells<V>(cells: seq<Cell<V>>, entries: seq<Entry<V>>)
    reads cells
  {
    && |cells| == |entries| + 1
    && (forall i, j | 0 <= i < |cells| && 0 <= j < |cells| :: cells[i] == cells[j] ==> i == j)
    && cells[|entries|].buf.None?
    && forall i | 0 <= i < |entries| :: CellOk(cells, entries, i)
  }

  ghost predicate CellOk<V>(cells: seq<Cell<V>>, entries: seq<Entry<V>>, i: nat)
    requires |cells| == |entries| + 1 && i < |entries|
    reads cells
  {
    if entries[i].lost then cells[i].buf == None
    else cells[i].buf.Some? && cells[i].buf.value.c == cells[i + 1] && cells[i].buf.value.v == entries[i].now
  }

  /** Receiver `k` points to the cell its cursor names, or nowhere once it has seen the shutdown. */
  ghost predicate Placed<V>(r: Receiver<V>, cells: seq<Cell<V>>, log: Log<V>, k: nat)
    requires |cells| == |log.entries| + 1
    reads r
  {
    if k in log.cursors then log.cursors[k] <= |log.entries| && r.c == cells[log.cursors[k]] else r.c == null
  }

  /** Taking the message out and losing it, or putting it back, is what the log does on a read. */
  lemma ReceiveOnTheLog<V>(a: Log<V>, k: nat, at: nat, v: V, hs: seq<Handler<V>>)
    requires Readable(a, k, at, v)
    ensures k in a.cursors && a.cursors[k] == at < |a.entries|
    ensures var taken := a.(entries := a.entries[at := a.entries[at].(lost := true)]);
      if AllSucceed(hs, v) then
        && Allows(a, Deliver(k, at, v, hs))
        && After(a, Deliver(k, at, v, hs)) == taken.(
             entries := taken.entries[at := taken.entries[at].(now := Left(hs, v), lost := false)],
             cursors := taken.cursors[k := at + 1])
      else
        Allows(a, Spoil(k, at, v, hs)) && After(a, Spoil(k, at, v, hs)) == taken
  {
  }

  class Receiver<V> {
    var c: Cell?<V>

    constructor (c: Cell<V>)
      ensures this.c == c
    {
      this.c := c;
    }

    /**
     Read, run until it returns or has to wait.  When both cases of its select are ready either may be chosen.
     Whatever it returns, the log has taken the one event that result stands for.
     */
    method Read(ghost b: Broadcaster<V>, ghost k: nat, shutdown: bool, handlers: seq<Handler<V>>)
      returns (r: ReadResult<V>, ghost e: Event<V>)
      requires b.Valid() && k in b.receivers && b.receivers[k] == this && shutdown == b.shutdown
      modifies this, b, b.cells
      ensures b.Valid() && b.cells == old(b.cells) && b.receivers == old(b.receivers)
      ensures Allows(old(b.log), e) && b.log == After(old(b.log), e)
      ensures match r
        case Value(v) =>
          && e.Deliver? && e.k == k && e.v == v && e.handlers == handlers
          && old(c) != null && old(c.buf).Some? && v == old(c.buf).value.v && c == old(c.buf).value.c
          && old(c).buf.Some? && old(c).buf.value.c == c && Leaves(e, old(c).buf.value.v)
        case HandlerFailed =>
          && e.Spoil? && e.k == k && e.handlers == handlers
          && old(c) != null && c == old(c) && c.buf.None? && old(c.buf).Some? && e.v == old(c.buf).value.v
          && exists m :: 0 <= m < |handlers| && handlers[m](e.v).None?
        case BroadcasterClosed => e == Leave(k)
        case Waits => e == Silent && !shutdown && c == old(c) && (c == null || c.buf.None?)
    {
      assert Placed(this, b.cells, b.log, k);
      var receive := *;
      if c != null && c.buf.Some? && (!shutdown || receive) {
        r, e := Receive(b, k, handlers);
      } else if shutdown {
        c := null;
        e := Leave(k);
        b.log := After(b.log, e);
        r := BroadcasterClosed;
      } else {
        r, e := Waits, Silent;
      }
    }

    /** Read's receiving case: the message is taken out, and put back unless a handler fails. */
    method Receive(ghost b: Broadcaster<V>, ghost k: nat, handlers: seq<Handler<V>>)
      returns (r: ReadResult<V>, ghost e: Event<V>)
      requires b.Valid() && k in b.receivers && b.receivers[k] == this
      requires c != null && c.buf.Some?
      modifies this, b, b.cells
      ensures b.Valid() && b.cells == old(b.cells) && b.receivers == old(b.receivers)
      ensures Allows(old(b.log), e) && b.log == After(old(b.log), e)
      ensures match r
        case Value(v) =>
          && e.Deliver? && e.k == k && e.v == v && e.handlers == handlers
          && old(c) != null && old(c.buf).Some? && v == old(c.buf).value.v && c == old(c.buf).value.c
          && old(c).buf.Some? && old(c).buf.value.c == c && Leaves(e, old(c).buf.value.v)
        case HandlerFailed =>
          && e.Spoil? && e.k == k && e.handlers == handlers
          && old(c) != null && c == old(c) && c.buf.None? && old(c.buf).Some? && e.v == old(c.buf).value.v
          && exists m :: 0 <= m < |handlers| && handlers[m](e.v).None?
        case BroadcasterClosed => false
        case Waits => false
    {
      hide AllSucceed, Left, Broadcaster.Valid, Allows, After, Readable;
      ghost var at;
      var msg;
      msg, at := TakeOut(b, k);
      var handled := RunHandlers(msg, handlers);
      ReceiveOnTheLog(old(b.log), k, at, msg.v, handlers);
      if handled.None? {
        r, e := HandlerFailed, Spoil(k, at, msg.v, handlers);
      } else {
        PutBack(b, k, at, handled.value);
        r, e := Value(msg.v), Deliver(k, at, msg.v, handlers);
      }
    }

    /** `b := <-r.c`: until it is put back the message is nowhere, as if a handler had failed. */
    method TakeOut(ghost b: Broadcaster<V>, ghost k: nat) returns (msg: Broadcast<V>, ghost at: nat)
      requires b.Valid() && k in b.receivers && b.receivers[k] == this
      requires c != null && c.buf.Some?
      modifies b`log, b.cells
      ensures b.Valid() && Readable(old(b.log), k, at, msg.v)
      ensures b.log == old(b.log).(entries := old(b.log.entries)[at := old(b.log.entries)[at].(lost := true)])
      ensures at + 1 < |b.cells| && msg.c == b.cells[at + 1]
      ensures old(c.buf) == Some(msg) && c.buf.None?
    {
      assert Placed(this, b.cells, b.log, k);
      at := b.log.cursors[k];
      assert at < |b.log.entries|;
      assert CellOk(b.cells, b.log.entries, at);
      msg := c.buf.value;
      c.buf := None;
      b.log := b.log.(entries := b.log.entries[at := b.log.entries[at].(lost := true)]);
      forall i | 0 <= i < |b.log.entries| ensures CellOk(b.cells, b.log.entries, i) {
        assert i != at ==> old(CellOk(b.cells, b.log.entries, i));
      }
    }

    /** `r.c <- b; r.c = b.c`. */
    method PutBack(ghost b: Broadcaster<V>, ghost k: nat, ghost at: nat, msg: Broadcast<V>)
      requires b.Valid() && k in b.receivers && b.receivers[k] == this
      requires k in b.log.cursors && b.log.cursors[k] == at < |b.log.entries| && b.log.entries[at].lost
      requires msg.c == b.cells[at + 1]
      modifies this, b`log, b.cells
      ensures b.Valid()
      ensures c == msg.c && old(c) != null && old(c).buf == Some(msg)
      ensures b.log == old(b.log).(
        entries := old(b.log.entries)[at := old(b.log.entries)[at].(now := msg.v, lost := false)],
        cursors := old(b.log.cursors)[k := at + 1])
    {
      assert Placed(this, b.cells, b.log, k);
      assert CellOk(b.cells, b.log.entries, at);
      c.buf := Some(msg);
      c := msg.c;
      b.log := b.log.(entries := b.log.entries[at := b.log.entries[at].(now := msg.v, lost := false)],
        cursors := b.log.cursors[k := at + 1]);
      forall i | 0 <= i < |b.log.entries| ensures CellOk(b.cells, b.log.entries, i) {
        assert i != at ==> old(CellOk(b.cells, b.log.entries, i));
      }
      forall l | l in b.receivers ensures Placed(b.receivers[l], b.cells, b.log, l) {
        assert old(Placed(b.receivers[l], b.cells, b.log, l));
      }
    }
  }

  /** Read's loop over the handlers: the message to put back, or None once a handler fails. */
  method RunHandlers<V>(b: Broadcast<V>, handlers: seq<Handler<V>>) returns (handled: Option<Broadcast<V>>)
    ensures handled.Some? <==> forall m | 0 <= m < |handlers| :: handlers[m](b.v).Some?
    ensures handled.Some? ==> handled.value.c == b.c
    ensures handled.Some? && |handlers| == 0 ==> handled.value.v == b.v
    ensures handled.Some? && |handlers| > 0 ==> handlers[|handlers| - 1](b.v) == Some(handled.value.v)
    ensures handled.Some? <==> AllSucceed(handlers, b.v)
    ensures handled.Some? ==> handled.value == Broadcast(b.c, Left(handlers, b.v))
  {
    var v := b.v;
    var msg := b;
    for i := 0 to |handlers|
      invariant AllSucceed(handlers[..i], v)
      invariant msg == Broadcast(b.c, Left(handlers[..i], v))
    {
      var val := handlers[i](v);
      if val.None? {
        return None;
      }
      msg := msg.(v := val.value);
      assert handlers[..i + 1] == handlers[..i] + [handlers[i]];
    }
    assert handlers[..|handlers|] == handlers;
    return Some(msg);
  }
}
