/**
 AND.  Each case of the goroutine's select is a send `collector <- <-c`; the Go specification, section
 "Select statements", has every right-hand side evaluated, in source order, on entering the select.  So
 the goroutine receives from each of its channels in turn, the nested call starting its own goroutine when
 its turn comes, and only then sends once and closes its output.  Goroutine k is the k-th nested call's.
 */
module AndSignal {
  import opened Options
  import opened Sums
  import opened Signals

  /** The channels one goroutine receives from, in order, None being nil, and its collector's capacity. */
  datatype Node = Node(waits: seq<Option<Channel>>, capacity: nat)

  /** The goroutines k, k + 1, ... of the call on `chans`, and the channel the call returns. */
  function Tree(chans: seq<Channel>, k: nat): (r: (Option<Channel>, seq<Node>))
    ensures |r.1| == (|chans| + 1) / 3
    decreases |chans|
  {
    if |chans| == 0 then (None, [])
    else if |chans| == 1 then (Some(chans[0]), [])
    else if |chans| == 2 then (Some(Output(k)), [Node([Some(chans[0]), Some(chans[1])], 2)])
    else
      var (nested, rest) := Tree(chans[3..], k + 1);
      (Some(Output(k)), [Node([Some(chans[0]), Some(chans[1]), Some(chans[2]), nested], |chans|)] + rest)
  }

  function And(n: nat): Option<Channel> {
    Tree(Inputs(n), 0).0
  }

  function Nodes(n: nat): seq<Node> {
    Tree(Inputs(n), 0).1
  }

  /** `got` channels have been received from; `sent` values are in the collector. */
  datatype Goroutine = Dormant | Receiving(got: nat) | Sent(sent: nat) | Closed

  datatype State = State(n: nat, fired: set<nat>, gs: seq<Goroutine>)

  datatype Step = Fire(i: nat) | Receive(k: nat) | Send(k: nat) | Close(k: nat)

  function Init(n: nat): State {
    State(n, {}, seq(|Nodes(n)|, k => if k == 0 then Receiving(0) else Dormant))
  }

  predicate Ready(s: State, c: Channel) {
    match c
    case Input(i) => i in s.fired
    case Output(k) => k < |s.gs| && s.gs[k].Closed?
  }

  predicate CanReceive(s: State, k: nat, got: nat) {
    && k < |Nodes(s.n)| && got < |Nodes(s.n)[k].waits|
    && Nodes(s.n)[k].waits[got].Some? && Ready(s, Nodes(s.n)[k].waits[got].value)
  }

  predicate Enabled(s: State, step: Step) {
    match step
    case Fire(i) => i < s.n && i !in s.fired
    case Receive(k) => k < |s.gs| && s.gs[k].Receiving? && CanReceive(s, k, s.gs[k].got)
    case Send(k) =>
      && k < |s.gs| && s.gs[k].Receiving? && k < |Nodes(s.n)|
      && s.gs[k].got == |Nodes(s.n)[k].waits| && 0 < Nodes(s.n)[k].capacity
    case Close(k) => k < |s.gs| && s.gs[k].Sent?
  }

  /** The third receive is followed at once by the nested call, which starts goroutine k + 1 if it has one. */
  function Apply(s: State, step: Step): State
    requires Enabled(s, step)
  {
    match step
    case Fire(i) => s.(fired := s.fired + {i})
    case Receive(k) =>
      var gs := s.gs[k := Receiving(s.gs[k].got + 1)];
      s.(gs := if s.gs[k].got == 2 && k + 1 < |s.gs| then gs[k + 1 := Receiving(0)] else gs)
    case Send(k) => s.(gs := s.gs[k := Sent(1)])
    case Close(k) => s.(gs := s.gs[k := Closed])
  }

  // ---- Invariants ----

  /** Goroutine k is past its first `got` receives. */
  predicate HasReceived(s: State, k: nat, got: nat) {
    k < |s.gs| && (s.gs[k].Sent? || s.gs[k].Closed? || (s.gs[k].Receiving? && s.gs[k].got >= got))
  }

  ghost predicate Inv(s: State) {
    && |s.gs| == |Nodes(s.n)|
    && (forall i | i in s.fired :: i < s.n)
    && (|s.gs| > 0 ==> !s.gs[0].Dormant?)
    && (forall k | 0 <= k && k + 1 < |s.gs| :: !s.gs[k + 1].Dormant? <==> HasReceived(s, k, 3))
    && (forall k | 0 <= k < |s.gs| && s.gs[k].Receiving? :: s.gs[k].got <= |Nodes(s.n)[k].waits|)
    && (forall k, j | 0 <= k < |s.gs| && 0 <= j < |Nodes(s.n)[k].waits| ::
          HasReceived(s, k, j + 1) ==> CanReceive(s, k, j))
  }

  /** The shape of the tree: only the last goroutine may have two channels, the others have four. */
  lemma {:induction false} TreeShape(chans: seq<Channel>, k: nat, j: nat)
    requires j < |Tree(chans, k).1|
    ensures var node := Tree(chans, k).1[j];
      && node.capacity >= 2
      && (|node.waits| == 4 || (|node.waits| == 2 && j + 1 == |Tree(chans, k).1|))
    decreases |chans|
  {
    if |chans| > 2 && j > 0 {
      TreeShape(chans[3..], k + 1, j - 1);
    }
  }

  lemma InitInv(n: nat)
    ensures Inv(Init(n))
  {
  }

  lemma ReceiveKeepsInv(s: State, k: nat)
    requires Inv(s) && Enabled(s, Receive(k))
    ensures Inv(Apply(s, Receive(k)))
  {
    var t := Apply(s, Receive(k));
    TreeShape(Inputs(s.n), 0, k);
    assert s.gs[k].got < 3 ==> !HasReceived(s, k, 3);
    ReadinessStays(s, Receive(k));
    forall j | 0 <= j && j + 1 < |t.gs| ensures !t.gs[j + 1].Dormant? <==> HasReceived(t, j, 3) {
      assert !s.gs[j + 1].Dormant? <==> HasReceived(s, j, 3);
    }
    forall l, j | 0 <= l < |t.gs| && 0 <= j < |Nodes(t.n)[l].waits| && HasReceived(t, l, j + 1)
      ensures CanReceive(t, l, j)
    {
      if !(l == k && j == s.gs[k].got) {
        assert HasReceived(s, l, j + 1);
      }
      assert CanReceive(s, l, j);
    }
  }

  /** What could be received from still can. */
  lemma ReadinessStays(s: State, step: Step)
    requires Enabled(s, step)
    requires step.Receive? && step.k + 1 < |s.gs| && s.gs[step.k].got == 2 ==> s.gs[step.k + 1].Dormant?
    ensures forall k: nat, j: nat :: CanReceive(s, k, j) ==> CanReceive(Apply(s, step), k, j)
  {
    forall k: nat, j: nat | CanReceive(s, k, j) ensures CanReceive(Apply(s, step), k, j) {
      assert Ready(Apply(s, step), Nodes(s.n)[k].waits[j].value);
    }
  }

  lemma StepKeepsInv(s: State, step: Step)
    requires Inv(s) && Enabled(s, step)
    ensures Inv(Apply(s, step))
  {
    if step.Receive? {
      ReceiveKeepsInv(s, step.k);
    } else {
      var t := Apply(s, step);
      ReadinessStays(s, step);
      forall k: nat, j: nat ensures HasReceived(t, k, j) ==> HasReceived(s, k, j) || (step == Send(k)) {}
      forall l, j | 0 <= l < |t.gs| && 0 <= j < |Nodes(t.n)[l].waits| && HasReceived(t, l, j + 1)
        ensures CanReceive(t, l, j)
      {
        assert HasReceived(s, l, j + 1);
        assert CanReceive(s, l, j);
      }
      forall j | 0 <= j && j + 1 < |t.gs| ensures !t.gs[j + 1].Dormant? <==> HasReceived(t, j, 3) {
        assert !s.gs[j + 1].Dormant? <==> HasReceived(s, j, 3);
        TreeShape(Inputs(s.n), 0, j);
      }
    }
  }

  predicate Runs(s: State, steps: seq<Step>)
    decreases |steps|, 0
  {
    |steps| > 0 ==> Runs(s, steps[..|steps| - 1]) && Enabled(Exec(s, steps[..|steps| - 1]), steps[|steps| - 1])
  }

  function Exec(s: State, steps: seq<Step>): State
    requires Runs(s, steps)
    decreases |steps|, 1
  {
    if |steps| == 0 then s else Apply(Exec(s, steps[..|steps| - 1]), steps[|steps| - 1])
  }

  lemma {:induction false} RunKeepsInv(s: State, steps: seq<Step>)
    requires Inv(s) && Runs(s, steps)
    ensures Inv(Exec(s, steps)) && Exec(s, steps).n == s.n
  {
    hide Inv;
    if |steps| > 0 {
      RunKeepsInv(s, steps[..|steps| - 1]);
      StepKeepsInv(Exec(s, steps[..|steps| - 1]), steps[|steps| - 1]);
    }
  }

  ghost predicate Reachable(s: State, n: nat, steps: seq<Step>) {
    Runs(Init(n), steps) && s == Exec(Init(n), steps)
  }

  // ---- Safety ----

  /** A goroutine that has closed could receive from every one of its channels. */
  ghost predicate Earned(s: State, k: nat, nodes: seq<Node>) {
    forall j, c | 0 <= j < |nodes| && 0 <= c < |nodes[j].waits| ::
      Ready(s, Output(k + j)) ==> nodes[j].waits[c].Some? && Ready(s, nodes[j].waits[c].value)
  }

  /** Goroutine k of a call on three or more channels waits for the first three and for the nested call. */
  lemma TreeOfThree(chans: seq<Channel>, k: nat)
    requires |chans| > 2
    ensures var nodes, nested := Tree(chans, k).1, Tree(chans[3..], k + 1);
      && |nodes| > 0 && nodes[1..] == nested.1
      && nodes[0].waits == [Some(chans[0]), Some(chans[1]), Some(chans[2]), nested.0]
  {
  }

  lemma EarnedBelow(s: State, k: nat, nodes: seq<Node>)
    requires |nodes| > 0 && Earned(s, k, nodes)
    ensures Earned(s, k + 1, nodes[1..])
    ensures Ready(s, Output(k)) ==> forall c | 0 <= c < |nodes[0].waits| ::
      nodes[0].waits[c].Some? && Ready(s, nodes[0].waits[c].value)
  {
    var rest := nodes[1..];
    forall j, c | 0 <= j < |rest| && 0 <= c < |rest[j].waits| && Ready(s, Output(k + 1 + j))
      ensures rest[j].waits[c].Some? && Ready(s, rest[j].waits[c].value)
    {
      assert nodes[j + 1] == rest[j] && Ready(s, Output(k + (j + 1)));
    }
    forall c | 0 <= c < |nodes[0].waits| && Ready(s, Output(k + 0))
      ensures nodes[0].waits[c].Some? && Ready(s, nodes[0].waits[c].value)
    {
    }
  }

  /** A ready result means that every channel is ready and that their number is not a multiple of three. */
  lemma {:induction false} ReadyMeansAll(s: State, chans: seq<Channel>, k: nat)
    requires Earned(s, k, Tree(chans, k).1)
    requires Tree(chans, k).0.Some? && Ready(s, Tree(chans, k).0.value)
    ensures |chans| % 3 != 0
    ensures forall c | 0 <= c < |chans| :: Ready(s, chans[c])
    decreases |chans|
  {
    if |chans| == 2 {
      EarnedBelow(s, k, Tree(chans, k).1);
      var waits := Tree(chans, k).1[0].waits;
      assert waits == [Some(chans[0]), Some(chans[1])];
      assert Ready(s, waits[0].value) && Ready(s, waits[1].value);
    } else if |chans| > 2 {
      ReadyBelow(s, chans, k);
      ReadyMeansAll(s, chans[3..], k + 1);
      forall c | 3 <= c < |chans| ensures Ready(s, chans[c]) {
        assert chans[c] == chans[3..][c - 3];
      }
    }
  }

  /** The first three channels and the nested call's are ready. */
  lemma ReadyBelow(s: State, chans: seq<Channel>, k: nat)
    requires |chans| > 2 && Earned(s, k, Tree(chans, k).1) && Ready(s, Output(k))
    ensures Ready(s, chans[0]) && Ready(s, chans[1]) && Ready(s, chans[2])
    ensures var nested := Tree(chans[3..], k + 1);
      Earned(s, k + 1, nested.1) && nested.0.Some? && Ready(s, nested.0.value)
  {
    TreeOfThree(chans, k);
    EarnedBelow(s, k, Tree(chans, k).1);
    hide Tree, Earned;
    var waits := Tree(chans, k).1[0].waits;
    assert Ready(s, waits[0].value) && Ready(s, waits[1].value) && Ready(s, waits[2].value);
    assert waits[3].Some? && Ready(s, waits[3].value);
  }

  /** In no run does AND fire before all its inputs have, and on a multiple of three channels it never fires. */
  lemma AndFiresOnlyOnAll(s: State, n: nat, steps: seq<Step>)
    requires Reachable(s, n, steps) && And(n).Some? && Ready(s, And(n).value)
    ensures n % 3 != 0 && forall i: nat | i < n :: i in s.fired
  {
    InitInv(n);
    RunKeepsInv(Init(n), steps);
    forall j, c | 0 <= j < |Nodes(n)| && 0 <= c < |Nodes(n)[j].waits| && Ready(s, Output(0 + j))
      ensures Nodes(n)[j].waits[c].Some? && Ready(s, Nodes(n)[j].waits[c].value)
    {
      assert HasReceived(s, j, c + 1);
      assert CanReceive(s, j, c);
    }
    ReadyMeansAll(s, Inputs(n), 0);
    forall i: nat | i < n ensures i in s.fired {
      assert Ready(s, Inputs(n)[i]);
    }
  }

  // ---- Progress ----

  ghost predicate Quiescent(s: State) {
    forall step: Step :: Enabled(s, step) ==> step.Fire?
  }

  /** Goroutine k has not started, is stuck at a receive, or has closed. */
  predicate StuckAt(s: State, k: nat, node: Node) {
    k < |s.gs| && match s.gs[k]
      case Dormant => true
      case Receiving(got) => got < |node.waits| && (node.waits[got].None? || !Ready(s, node.waits[got].value))
      case Sent(_) => false
      case Closed => true
  }

  /** Goroutines k, k + 1, ... are stuck, and each one past its third receive has started the next. */
  ghost predicate Stuck(s: State, k: nat, nodes: seq<Node>) {
    && (forall j | 0 <= j < |nodes| :: StuckAt(s, k + j, nodes[j]))
    && (forall j: nat | j + 1 < |s.gs| :: HasReceived(s, j, 3) ==> !s.gs[j + 1].Dormant?)
  }

  /** With every channel ready, and their number no multiple of three, a started tree runs to its close. */
  lemma {:induction false} AllReadyCloses(s: State, chans: seq<Channel>, k: nat)
    requires Stuck(s, k, Tree(chans, k).1)
    requires |chans| % 3 != 0 && forall c | 0 <= c < |chans| :: Ready(s, chans[c])
    requires |chans| > 1 ==> k < |s.gs| && !s.gs[k].Dormant?
    ensures Tree(chans, k).0.Some? && Ready(s, Tree(chans, k).0.value)
    decreases |chans|
  {
    var nodes := Tree(chans, k).1;
    if |chans| > 2 {
      var rest := Tree(chans[3..], k + 1);
      assert StuckAt(s, k + 0, nodes[0]);
      assert nodes[0].waits == [Some(chans[0]), Some(chans[1]), Some(chans[2]), rest.0];
      forall j | 0 <= j < |rest.1| ensures StuckAt(s, k + 1 + j, rest.1[j]) {
        assert rest.1[j] == nodes[j + 1] && StuckAt(s, k + (j + 1), nodes[j + 1]);
      }
      if !s.gs[k].Closed? {
        assert s.gs[k].got == 3 && HasReceived(s, k, 3);
        assert |chans[3..]| > 1 ==> StuckAt(s, k + 1 + 0, rest.1[0]);
        AllReadyCloses(s, chans[3..], k + 1);
      }
    } else if |chans| == 2 {
      assert StuckAt(s, k + 0, nodes[0]);
      assert nodes[0].waits == [Some(chans[0]), Some(chans[1])];
    }
  }

  lemma QuiescentIsStuck(s: State)
    requires Inv(s) && Quiescent(s)
    ensures Stuck(s, 0, Nodes(s.n))
  {
    forall j | 0 <= j < |Nodes(s.n)| ensures StuckAt(s, 0 + j, Nodes(s.n)[j]) {
      TreeShape(Inputs(s.n), 0, j);
      assert !Enabled(s, Receive(j)) && !Enabled(s, Send(j)) && !Enabled(s, Close(j));
    }
    forall j: nat | j + 1 < |s.gs| ensures HasReceived(s, j, 3) ==> !s.gs[j + 1].Dormant? {}
  }

  /**
   When nothing can move any more, AND over n channels has fired if and only if all inputs have and n is
   not a multiple of three.
   */
  lemma AndFiresExactlyWhen(s: State, n: nat, steps: seq<Step>)
    requires Reachable(s, n, steps) && Quiescent(s)
    ensures And(n).Some? && Ready(s, And(n).value) <==> n % 3 != 0 && forall i: nat | i < n :: i in s.fired
  {
    InitInv(n);
    RunKeepsInv(Init(n), steps);
    if And(n).Some? && Ready(s, And(n).value) {
      AndFiresOnlyOnAll(s, n, steps);
    }
    if n % 3 != 0 && forall i: nat | i < n :: i in s.fired {
      QuiescentIsStuck(s);
      forall c | 0 <= c < n ensures Ready(s, Inputs(n)[c]) {}
      AllReadyCloses(s, Inputs(n), 0);
    }
  }

  /** Three done-channels, all closed: AND of them never fires. */
  lemma AndOfThreeNeverFires(s: State, steps: seq<Step>)
    requires Reachable(s, 3, steps)
    ensures And(3) == Some(Output(0)) && !Ready(s, Output(0))
  {
    if Ready(s, Output(0)) {
      AndFiresOnlyOnAll(s, 3, steps);
    }
  }

  function Rank(g: Goroutine): nat {
    match g
    case Dormant => 8
    case Receiving(got) => if got <= 4 then 7 - got else 2
    case Sent(_) => 1
    case Closed => 0
  }

  lemma GoroutinesSettle(s: State, step: Step)
    requires Inv(s) && Enabled(s, step) && !step.Fire?
    ensures Sum(Apply(s, step).gs, Rank) < Sum(s.gs, Rank)
  {
    hide Sum;
    match step
    case Receive(k) =>
      TreeShape(Inputs(s.n), 0, k);
      var next := Receiving(s.gs[k].got + 1);
      SumUpdate(s.gs, Rank, k, next);
      if s.gs[k].got == 2 && k + 1 < |s.gs| {
        assert !HasReceived(s, k, 3);
        SumUpdate(s.gs[k := next], Rank, k + 1, Receiving(0));
      }
    case Send(k) => SumUpdate(s.gs, Rank, k, Sent(1));
    case Close(k) => SumUpdate(s.gs, Rank, k, Closed);
  }

  /** What can still happen: the goroutines' ranks and the inputs that have not fired. */
  function Rest(s: State): int {
    Sum(s.gs, Rank) + s.n - |s.fired|
  }

  lemma StepShrinksRest(s: State, step: Step)
    requires Inv(s) && Enabled(s, step)
    ensures Rest(Apply(s, step)) < Rest(s)
  {
    if !step.Fire? {
      GoroutinesSettle(s, step);
    }
  }

  lemma {:induction false} RunShrinksRest(s: State, steps: seq<Step>)
    requires Inv(s) && Runs(s, steps)
    ensures |steps| + Rest(Exec(s, steps)) <= Rest(s)
  {
    hide Inv, Enabled, Apply, Rank;
    if |steps| > 0 {
      var pre, step := steps[..|steps| - 1], steps[|steps| - 1];
      RunShrinksRest(s, pre);
      RunKeepsInv(s, pre);
      StepShrinksRest(Exec(s, pre), step);
    }
  }

  /** So however inputs and goroutines interleave, the tree comes to rest: no run is longer than this. */
  lemma EveryRunSettles(n: nat, steps: seq<Step>)
    requires Runs(Init(n), steps)
    ensures |steps| <= 8 * ((n + 1) / 3) + n
  {
    InitInv(n);
    RunKeepsInv(Init(n), steps);
    RunShrinksRest(Init(n), steps);
    SumBound(Init(n).gs, Rank, 8);
    BoundedSet(Exec(Init(n), steps).fired, n);
  }

  // ---- Whatever inputs fire ----

  lemma RunsSnoc(s: State, steps: seq<Step>, step: Step)
    requires Runs(s, steps) && Enabled(Exec(s, steps), step)
    ensures Runs(s, steps + [step]) && Exec(s, steps + [step]) == Apply(Exec(s, steps), step)
  {
    assert (steps + [step])[..|steps|] == steps;
  }

  /** Inputs can fire in any combination. */
  lemma {:induction false} FireRun(n: nat, inputs: set<nat>) returns (run: seq<Step>)
    requires forall i | i in inputs :: i < n
    ensures Runs(Init(n), run) && Exec(Init(n), run).fired == inputs && Exec(Init(n), run).n == n
    decreases |inputs|
  {
    hide Runs, Exec;
    if inputs == {} {
      NothingFiredAtFirst(n);
      run := [];
    } else {
      var i :| i in inputs;
      run := FireRun(n, inputs - {i});
      RunsSnoc(Init(n), run, Fire(i));
      run := run + [Fire(i)];
    }
  }

  lemma NothingFiredAtFirst(n: nat)
    ensures Runs(Init(n), []) && Exec(Init(n), []) == Init(n)
  {
  }

  /** The goroutines come to rest without a further input. */
  lemma {:induction false} SettleRun(n: nat, run: seq<Step>) returns (whole: seq<Step>)
    requires Runs(Init(n), run)
    ensures Runs(Init(n), whole) && Quiescent(Exec(Init(n), whole))
    ensures Exec(Init(n), whole).fired == Exec(Init(n), run).fired
    decreases Sum(Exec(Init(n), run).gs, Rank)
  {
    var s := Exec(Init(n), run);
    InitInv(n);
    RunKeepsInv(Init(n), run);
    hide Runs, Exec, Rank, Inv;
    if Quiescent(s) {
      whole := run;
    } else {
      var step :| Enabled(s, step) && !step.Fire?;
      GoroutinesSettle(s, step);
      RunsSnoc(Init(n), run, step);
      whole := SettleRun(n, run + [step]);
    }
  }

  /** For every set of inputs there is a run in which just these fire and AND does if it should. */
  lemma AndCanFire(n: nat, inputs: set<nat>) returns (run: seq<Step>)
    requires forall i | i in inputs :: i < n
    ensures Runs(Init(n), run) && Exec(Init(n), run).fired == inputs
    ensures And(n).Some? && Ready(Exec(Init(n), run), And(n).value) <==>
      n % 3 != 0 && forall i: nat | i < n :: i in inputs
  {
    var fire := FireRun(n, inputs);
    hide Runs, Exec;
    run := SettleRun(n, fire);
    AndFiresExactlyWhen(Exec(Init(n), run), n, run);
  }
}
