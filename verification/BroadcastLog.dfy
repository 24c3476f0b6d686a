/**
 What a broadcaster is for, without channels: an append-only log and one cursor per receiver.
 A read is one atomic step; its handlers rewrite the entry that the next reader will see, and a
 failing handler loses the entry.  `BroadcastProtocol` refines this log.
 */
module BroadcastLog {
  import opened Options

  /** A read handler; None stands for a returned error. */
  type Handler<!V> = V -> Option<V>

  /** `writer` is the Write call the entry came from, `first` the written value, `now` what the next reader gets. */
  datatype Entry<V> = Entry(writer: nat, first: V, now: V, lost: bool)

  /** `starts` remembers where each receiver joined; a receiver leaves `cursors` when its Read reports closed. */
  datatype Log<V> = Log(
    entries: seq<Entry<V>>, starts: map<nat, nat>, cursors: map<nat, nat>, shutdown: bool, closed: bool)

  datatype Event<!V> =
    | Append(writer: nat, v: V)
    | Join(k: nat)
    | Deliver(k: nat, at: nat, v: V, handlers: seq<Handler<V>>)
    | Spoil(k: nat, at: nat, v: V, handlers: seq<Handler<V>>)
    | Leave(k: nat)
    | Shutdown
    | Seal
    | Silent

  function Empty<V>(): Log<V> {
    Log([], map[], map[], false, false)
  }

  predicate AllSucceed<V>(hs: seq<Handler<V>>, v: V) {
    forall i | 0 <= i < |hs| :: hs[i](v).Some?
  }

  /** Every handler is applied to the value taken out, so only the last one's result stays behind. */
  function Left<V>(hs: seq<Handler<V>>, v: V): V
    requires AllSucceed(hs, v)
  {
    if |hs| == 0 then v else hs[|hs| - 1](v).value
  }

  /** Receiver `k` stands at entry `at`, which still holds `v`. */
  ghost predicate Readable<V>(a: Log<V>, k: nat, at: nat, v: V) {
    && k in a.cursors && a.cursors[k] == at < |a.entries|
    && !a.entries[at].lost && a.entries[at].now == v
  }

  /** Which events the log allows in state `a`. */
  ghost predicate Allows<V>(a: Log<V>, e: Event<V>) {
    match e
    case Append(w, _) => !a.closed && forall i | 0 <= i < |a.entries| :: a.entries[i].writer != w
    case Join(k) => !a.closed && k !in a.starts
    case Deliver(k, at, v, hs) => Readable(a, k, at, v) && AllSucceed(hs, v)
    case Spoil(k, at, v, hs) => Readable(a, k, at, v) && !AllSucceed(hs, v)
    case Leave(k) => a.shutdown && k in a.starts
    case Shutdown => !a.shutdown
    case Seal => a.shutdown && !a.closed
    case Silent => true
  }

  ghost function After<V>(a: Log<V>, e: Event<V>): Log<V>
    requires Allows(a, e)
  {
    match e
    case Append(w, v) => a.(entries := a.entries + [Entry(w, v, v, false)])
    case Join(k) => a.(starts := a.starts[k := |a.entries|], cursors := a.cursors[k := |a.entries|])
    case Deliver(k, at, v, hs) =>
      a.(entries := a.entries[at := a.entries[at].(now := Left(hs, v))], cursors := a.cursors[k := at + 1])
    case Spoil(k, at, v, hs) => a.(entries := a.entries[at := a.entries[at].(lost := true)])
    case Leave(k) => a.(cursors := a.cursors - {k})
    case Shutdown => a.(shutdown := true)
    case Seal => a.(closed := true)
    case Silent => a
  }

  /** Traces, newest event last. */
  ghost predicate AllowsAll<V>(a: Log<V>, es: seq<Event<V>>)
    decreases |es|, 0
  {
    |es| > 0 ==> AllowsAll(a, es[..|es| - 1]) && Allows(AfterAll(a, es[..|es| - 1]), es[|es| - 1])
  }

  ghost function AfterAll<V>(a: Log<V>, es: seq<Event<V>>): Log<V>
    requires AllowsAll(a, es)
    decreases |es|, 1
  {
    if |es| == 0 then a else After(AfterAll(a, es[..|es| - 1]), es[|es| - 1])
  }

  lemma AllowsSnoc<V>(a: Log<V>, es: seq<Event<V>>, e: Event<V>)
    requires AllowsAll(a, es) && Allows(AfterAll(a, es), e)
    ensures AllowsAll(a, es + [e]) && AfterAll(a, es + [e]) == After(AfterAll(a, es), e)
  {
    assert (es + [e])[..|es + [e]| - 1] == es;
  }

  // ---- What a trace says ----

  ghost function Written<V>(es: seq<Event<V>>): seq<V> {
    if |es| == 0 then [] else
      Written(es[..|es| - 1]) + (if es[|es| - 1].Append? then [es[|es| - 1].v] else [])
  }

  /** The number of values written before receiver `k` joined. */
  ghost function StartOf<V>(es: seq<Event<V>>, k: nat): nat {
    if |es| == 0 then 0
    else if es[|es| - 1] == Join(k) then |Written(es[..|es| - 1])|
    else StartOf(es[..|es| - 1], k)
  }

  /** The values receiver `k` has read, in order. */
  ghost function ReadBy<V>(es: seq<Event<V>>, k: nat): seq<V> {
    if |es| == 0 then [] else
      ReadBy(es[..|es| - 1], k) +
      (if es[|es| - 1].Deliver? && es[|es| - 1].k == k then [es[|es| - 1].v] else [])
  }

  /** The log positions receiver `k` has read, in order. */
  ghost function PositionsOf<V>(es: seq<Event<V>>, k: nat): seq<nat> {
    if |es| == 0 then [] else
      PositionsOf(es[..|es| - 1], k) +
      (if es[|es| - 1].Deliver? && es[|es| - 1].k == k then [es[|es| - 1].at] else [])
  }

  /** The successful reads of entry `i`, by whatever receivers, in order. */
  ghost function ReadsAt<V>(es: seq<Event<V>>, i: nat): seq<Event<V>> {
    if |es| == 0 then [] else
      ReadsAt(es[..|es| - 1], i) +
      (if es[|es| - 1].Deliver? && es[|es| - 1].at == i then [es[|es| - 1]] else [])
  }

  ghost predicate NoHandlers<V>(es: seq<Event<V>>) {
    forall i | 0 <= i < |es| :: es[i].Deliver? ==> |es[i].handlers| == 0
  }

  /** The log's entries are the written values, in order. */
  lemma {:induction false} EntriesAreWritten<V>(es: seq<Event<V>>)
    requires AllowsAll(Empty(), es)
    ensures var a := AfterAll(Empty(), es);
      |a.entries| == |Written(es)| && forall i | 0 <= i < |a.entries| :: a.entries[i].first == Written(es)[i]
  {
    if |es| > 0 {
      EntriesAreWritten(es[..|es| - 1]);
    }
  }

  /** A cursor stands at the receiver's start plus the number of its reads. */
  lemma {:induction false} CursorsCountReads<V>(es: seq<Event<V>>, k: nat)
    requires AllowsAll(Empty(), es)
    ensures var a := AfterAll(Empty(), es);
      && (k in a.cursors ==> k in a.starts && a.cursors[k] == StartOf(es, k) + |PositionsOf(es, k)|)
      && (k in a.starts ==> a.starts[k] == StartOf(es, k))
      && (k !in a.starts ==> |PositionsOf(es, k)| == 0)
      && |ReadBy(es, k)| == |PositionsOf(es, k)|
  {
    if |es| > 0 {
      var pre := es[..|es| - 1];
      CursorsCountReads(pre, k);
      assert |AfterAll(Empty(), pre).entries| == |Written(pre)| by { EntriesAreWritten(pre); }
      match es[|es| - 1]
      case Append(_, _) =>
      case Join(_) =>
      case Deliver(_, _, _, _) =>
      case Spoil(_, _, _, _) =>
      case Leave(_) =>
      case _ =>
    }
  }

  /**
   No gaps, no repeats, in order: the positions a receiver reads are its start, the one after, and
   so on, all of them written.
   */
  lemma {:induction false} ReadsAreConsecutive<V>(es: seq<Event<V>>, k: nat)
    requires AllowsAll(Empty(), es)
    ensures |PositionsOf(es, k)| > 0 ==> StartOf(es, k) + |PositionsOf(es, k)| <= |Written(es)|
    ensures forall j | 0 <= j < |PositionsOf(es, k)| :: PositionsOf(es, k)[j] == StartOf(es, k) + j
  {
    if |es| > 0 {
      var pre := es[..|es| - 1];
      ReadsAreConsecutive(pre, k);
      CursorsCountReads(pre, k);
      EntriesAreWritten(pre);
    }
  }

  /** Without handlers no entry ever changes. */
  lemma {:induction false} UnhandledEntriesKeepTheirValue<V>(es: seq<Event<V>>, i: nat)
    requires AllowsAll(Empty(), es) && NoHandlers(es)
    requires i < |AfterAll(Empty(), es).entries|
    ensures AfterAll(Empty(), es).entries[i].now == AfterAll(Empty(), es).entries[i].first
  {
    if |es| > 0 {
      var pre := es[..|es| - 1];
      assert NoHandlers(pre) by {
        forall j | 0 <= j < |pre| ensures pre[j].Deliver? ==> |pre[j].handlers| == 0 { assert pre[j] == es[j]; }
      }
      if i < |AfterAll(Empty(), pre).entries| {
        UnhandledEntriesKeepTheirValue(pre, i);
      }
    }
  }

  /** Without handlers, what a receiver read at a position is what was written there. */
  lemma {:induction false} ReadsMatchWrites<V>(es: seq<Event<V>>, k: nat)
    requires AllowsAll(Empty(), es) && NoHandlers(es)
    ensures |ReadBy(es, k)| == |PositionsOf(es, k)|
    ensures forall j | 0 <= j < |ReadBy(es, k)| ::
      PositionsOf(es, k)[j] < |Written(es)| && ReadBy(es, k)[j] == Written(es)[PositionsOf(es, k)[j]]
  {
    if |es| > 0 {
      var pre, e := es[..|es| - 1], es[|es| - 1];
      assert NoHandlers(pre) by {
        forall j | 0 <= j < |pre| ensures pre[j].Deliver? ==> |pre[j].handlers| == 0 { assert pre[j] == es[j]; }
      }
      ReadsMatchWrites(pre, k);
      EntriesAreWritten(pre);
      if e.Deliver? {
        UnhandledEntriesKeepTheirValue(pre, e.at);
      }
    }
  }

  /** What a receiver has read is a contiguous slice of what was written, beginning where it joined. */
  lemma ReadsAreASliceOfTheLog<V>(es: seq<Event<V>>, k: nat)
    requires AllowsAll(Empty(), es) && NoHandlers(es)
    ensures var n := |ReadBy(es, k)|;
      n > 0 ==>
        && StartOf(es, k) + n <= |Written(es)|
        && ReadBy(es, k) == Written(es)[StartOf(es, k)..StartOf(es, k) + n]
  {
    ReadsAreConsecutive(es, k);
    ReadsMatchWrites(es, k);
  }

  /**
   `rs` is a chain of successful reads: the first gets `first`, each later one what its predecessor's
   last handler left behind, and `now` is what the latest one left.
   */
  ghost predicate Chained<V>(rs: seq<Event<V>>, first: V, now: V) {
    if |rs| == 0 then now == first else
      var r := rs[|rs| - 1];
      && r.Deliver? && AllSucceed(r.handlers, r.v) && now == Left(r.handlers, r.v)
      && Chained(rs[..|rs| - 1], first, r.v)
  }

  /**
   `w` is what the delivery `r` leaves for the next reader: every one of its handlers succeeds on the value
   taken, and the last one's result stays, or the value itself when there are none.
   */
  ghost predicate Leaves<V>(r: Event<V>, w: V) {
    && r.Deliver? && (forall m | 0 <= m < |r.handlers| :: r.handlers[m](r.v).Some?)
    && if |r.handlers| == 0 then w == r.v else r.handlers[|r.handlers| - 1](r.v) == Some(w)
  }

  /** Link by link: the first read gets the first value, each later one what its predecessor left. */
  lemma {:induction false} ChainLinks<V>(rs: seq<Event<V>>, first: V, now: V)
    requires Chained(rs, first, now)
    ensures forall j | 0 <= j < |rs| :: rs[j].Deliver?
    ensures |rs| > 0 ==> rs[0].v == first && Leaves(rs[|rs| - 1], now)
    ensures |rs| == 0 ==> now == first
    ensures forall j | 0 < j < |rs| :: Leaves(rs[j - 1], rs[j].v)
  {
    if |rs| > 0 {
      ChainLinks(rs[..|rs| - 1], first, rs[|rs| - 1].v);
    }
  }

  lemma ChainStep<V>(rs: seq<Event<V>>, a: Log<V>, e: Event<V>, i: nat)
    requires Allows(a, e) && i < |a.entries|
    requires Chained(rs, a.entries[i].first, a.entries[i].now)
    ensures var b := After(a, e);
      Chained(rs + (if e.Deliver? && e.at == i then [e] else []), b.entries[i].first, b.entries[i].now)
  {
    if e.Deliver? && e.at == i {
      assert (rs + [e])[..|rs|] == rs;
    } else {
      assert rs + [] == rs;
    }
  }

  /** The handler chain of every entry, whichever receivers read it and in whatever order. */
  lemma {:induction false} HandlerChain<V>(es: seq<Event<V>>, i: nat)
    requires AllowsAll(Empty(), es)
    requires i < |AfterAll(Empty(), es).entries|
    ensures Chained(ReadsAt(es, i), AfterAll(Empty(), es).entries[i].first, AfterAll(Empty(), es).entries[i].now)
  {
    var pre, e := es[..|es| - 1], es[|es| - 1];
    var a := AfterAll(Empty(), pre);
    if i == |a.entries| {
      NoReadsPastTheEnd(pre, i);
    } else {
      HandlerChain(pre, i);
      ChainStep(ReadsAt(pre, i), a, e, i);
    }
  }

  lemma {:induction false} NoReadsPastTheEnd<V>(es: seq<Event<V>>, i: nat)
    requires AllowsAll(Empty(), es)
    requires |AfterAll(Empty(), es).entries| <= i
    ensures |ReadsAt(es, i)| == 0
  {
    if |es| > 0 {
      NoReadsPastTheEnd(es[..|es| - 1], i);
    }
  }

  /** A single handler that adds one and never fails. */
  ghost predicate AddOne(hs: seq<Handler<int>>) {
    |hs| == 1 && forall v :: hs[0](v) == Some(v + 1)
  }

  ghost function SumRead(rs: seq<Event<int>>): int
    requires forall j | 0 <= j < |rs| :: rs[j].Deliver?
  {
    if |rs| == 0 then 0 else SumRead(rs[..|rs| - 1]) + rs[|rs| - 1].v
  }

  /** n add-one readers of a value v get v, v+1, ..., v+n-1 in some order; together n*v + n(n-1)/2. */
  lemma {:induction false} AddOneReadersCountUp(es: seq<Event<int>>, i: nat)
    requires AllowsAll(Empty(), es)
    requires i < |AfterAll(Empty(), es).entries|
    requires forall j | 0 <= j < |ReadsAt(es, i)| :: ReadsAt(es, i)[j].Deliver? && AddOne(ReadsAt(es, i)[j].handlers)
    ensures var rs, v := ReadsAt(es, i), AfterAll(Empty(), es).entries[i].first;
      && (forall j | 0 <= j < |rs| :: rs[j].v == v + j)
      && 2 * SumRead(rs) == 2 * |rs| * v + |rs| * (|rs| - 1)
  {
    HandlerChain(es, i);
    CountingUp(ReadsAt(es, i), AfterAll(Empty(), es).entries[i].first, AfterAll(Empty(), es).entries[i].now);
  }

  lemma {:induction false} CountingUp(rs: seq<Event<int>>, v: int, now: int)
    requires Chained(rs, v, now)
    requires forall j | 0 <= j < |rs| :: rs[j].Deliver? && AddOne(rs[j].handlers)
    ensures now == v + |rs|
    ensures forall j | 0 <= j < |rs| :: rs[j].v == v + j
    ensures 2 * SumRead(rs) == 2 * |rs| * v + |rs| * (|rs| - 1)
  {
    if |rs| > 0 {
      var pre := rs[..|rs| - 1];
      CountingUp(pre, v, rs[|rs| - 1].v);
      var n := |rs|;
      assert 2 * (n - 1) * v + (n - 1) * (n - 2) + 2 * (v + n - 1) == 2 * n * v + n * (n - 1);
    }
  }

  // ---- Lost entries, leaving, and growth, over any continuation ----

  /** Entries are never removed, reordered or recovered. */
  lemma {:induction false} EntriesOnlyGrow<V>(a: Log<V>, es: seq<Event<V>>)
    requires AllowsAll(a, es)
    ensures var b := AfterAll(a, es);
      && |a.entries| <= |b.entries|
      && forall i | 0 <= i < |a.entries| ::
           && b.entries[i].writer == a.entries[i].writer && b.entries[i].first == a.entries[i].first
           && (a.entries[i].lost ==> b.entries[i].lost)
  {
    if |es| > 0 {
      EntriesOnlyGrow(a, es[..|es| - 1]);
    }
  }

  /** A receiver keeps its start, never moves back, and a new one starts at or after the present end. */
  lemma {:induction false} CursorsOnlyAdvance<V>(a: Log<V>, es: seq<Event<V>>, k: nat)
    requires AllowsAll(a, es)
    requires k in a.cursors ==> k in a.starts
    ensures var b := AfterAll(a, es);
      && (k in b.cursors ==> k in b.starts)
      && (if k in a.starts then k in b.starts && b.starts[k] == a.starts[k]
          else k in b.starts ==> |a.entries| <= b.starts[k])
      && (k in b.cursors && k in a.starts ==> k in a.cursors && a.cursors[k] <= b.cursors[k])
      && (k in b.cursors && k !in a.starts ==> |a.entries| <= b.cursors[k])
  {
    if |es| > 0 {
      CursorsOnlyAdvance(a, es[..|es| - 1], k);
      EntriesOnlyGrow(a, es[..|es| - 1]);
      match es[|es| - 1]
      case Append(_, _) =>
      case Join(_) =>
      case Deliver(_, _, _, _) =>
      case Spoil(_, _, _, _) =>
      case Leave(_) =>
      case _ =>
    }
  }

  /** A receiver at or before a lost entry never gets past it. */
  lemma {:induction false} LostEntryBlocks<V>(a: Log<V>, es: seq<Event<V>>, i: nat, k: nat)
    requires AllowsAll(a, es)
    requires i < |a.entries| && a.entries[i].lost
    requires k in a.starts && (k in a.cursors ==> a.cursors[k] <= i)
    ensures var b := AfterAll(a, es);
      && i < |b.entries| && b.entries[i].lost && k in b.starts
      && (k in b.cursors ==> b.cursors[k] <= i)
  {
    if |es| > 0 {
      LostEntryBlocks(a, es[..|es| - 1], i, k);
      match es[|es| - 1]
      case Append(_, _) =>
      case Join(_) =>
      case Deliver(_, _, _, _) =>
      case Spoil(_, _, _, _) =>
      case Leave(_) =>
      case _ =>
    }
  }

  /** Once Read has reported closed, that receiver never gets a value again. */
  lemma {:induction false} LeavingIsFinal<V>(a: Log<V>, es: seq<Event<V>>, k: nat)
    requires AllowsAll(a, es)
    requires k in a.starts && k !in a.cursors
    ensures var b := AfterAll(a, es); k in b.starts && k !in b.cursors
    ensures forall j | 0 <= j < |es| :: es[j].Deliver? || es[j].Spoil? ==> es[j].k != k
  {
    if |es| > 0 {
      LeavingIsFinal(a, es[..|es| - 1], k);
      match es[|es| - 1]
      case Append(_, _) =>
      case Join(_) =>
      case Deliver(_, _, _, _) =>
      case Spoil(_, _, _, _) =>
      case Leave(_) =>
      case _ =>
    }
  }

  /** Once sealed, nothing is ever appended and nobody joins. */
  lemma {:induction false} SealingIsFinal<V>(a: Log<V>, es: seq<Event<V>>)
    requires AllowsAll(a, es) && a.closed
    ensures AfterAll(a, es).closed
    ensures forall j | 0 <= j < |es| :: !es[j].Append? && !es[j].Join?
  {
    if |es| > 0 {
      SealingIsFinal(a, es[..|es| - 1]);
    }
  }
}
