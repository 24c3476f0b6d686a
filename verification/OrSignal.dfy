/**
 OR.  A call on two or more channels starts one goroutine, which on entering its select starts the nested
 call on the remaining channels and its own output.  Goroutine k is the k-th nested call's; a done-channel
 fires by being closed, and a nil channel is one that never fires.
 */
module OrSignal {
  import opened Options
  import opened Sums
  import opened Signals

  /** The nested call's channels: what is left of the call's own, and its output. */
  function Nested(chans: seq<Channel>, k: nat): seq<Channel>
    requires |chans| > 2
  {
    chans[3..] + [Output(k)]
  }

  /** The channels goroutine k, k + 1, ... of the call on `chans` select on, and the channel the call returns. */
  function Tree(chans: seq<Channel>, k: nat): (r: (Channel, seq<seq<Channel>>))
    requires |chans| > 0
    ensures |chans| > 1 ==> r.0 == Output(k) && |r.1| == |chans| / 2
    ensures |chans| == 1 ==> r.0 == chans[0] && r.1 == []
    decreases |chans|
  {
    if |chans| == 1 then (chans[0], [])
    else if |chans| == 2 then (Output(k), [chans])
    else
      var (nested, rest) := Tree(Nested(chans, k), k + 1);
      (Output(k), [chans[..3] + [nested]] + rest)
  }

  /** What OR returns on n channels: nil when there are none. */
  function Or(n: nat): Option<Channel> {
    if n == 0 then None else Some(Tree(Inputs(n), 0).0)
  }

  function Cases(n: nat): seq<seq<Channel>> {
    if n == 0 then [] else Tree(Inputs(n), 0).1
  }

  datatype Goroutine = Dormant | Started | Selecting | Closed

  datatype State = State(n: nat, fired: set<nat>, gs: seq<Goroutine>)

  /**
   Fire: the environment closes an input.  Enter: goroutine k reaches its select, starting k + 1.  Close: a case
   is ready.
   */
  datatype Step = Fire(i: nat) | Enter(k: nat) | Close(k: nat, c: nat)

  function Init(n: nat): State {
    State(n, {}, seq(|Cases(n)|, k => if k == 0 then Started else Dormant))
  }

  predicate Ready(s: State, c: Channel) {
    match c
    case Input(i) => i in s.fired
    case Output(k) => k < |s.gs| && s.gs[k].Closed?
  }

  predicate Enabled(s: State, step: Step) {
    match step
    case Fire(i) => i < s.n && i !in s.fired
    case Enter(k) => k < |s.gs| && s.gs[k].Started?
    case Close(k, c) =>
      && k < |s.gs| && s.gs[k].Selecting? && k < |Cases(s.n)| && c < |Cases(s.n)[k]|
      && Ready(s, Cases(s.n)[k][c])
  }

  function Apply(s: State, step: Step): State
    requires Enabled(s, step)
  {
    match step
    case Fire(i) => s.(fired := s.fired + {i})
    case Enter(k) => s.(gs := if k + 1 < |s.gs| then s.gs[k := Selecting][k + 1 := Started] else s.gs[k := Selecting])
    case Close(k, _) => s.(gs := s.gs[k := Closed])
  }

  // ---- Invariants ----

  /** Goroutines start one after the other, and none closes before an input has fired. */
  ghost predicate Inv(s: State) {
    && |s.gs| == |Cases(s.n)|
    && (forall i | i in s.fired :: i < s.n)
    && (|s.gs| > 0 ==> !s.gs[0].Dormant?)
    && (forall k | 0 <= k && k + 1 < |s.gs| :: s.gs[k + 1].Dormant? <==> s.gs[k].Dormant? || s.gs[k].Started?)
    && (forall k | 0 <= k < |s.gs| && s.gs[k].Closed? :: s.fired != {})
    && (forall k | 0 <= k < |s.gs| && s.gs[k].Closed? :: CaseReady(s, k))
  }

  /** Some case of goroutine k is ready. */
  ghost predicate CaseReady(s: State, k: nat) {
    k < |Cases(s.n)| && exists c :: 0 <= c < |Cases(s.n)[k]| && Ready(s, Cases(s.n)[k][c])
  }

  /** What is ready stays ready. */
  lemma CaseStaysReady(s: State, step: Step, k: nat)
    requires Enabled(s, step) && CaseReady(s, k)
    requires step.Enter? && step.k + 1 < |s.gs| ==> s.gs[step.k + 1].Dormant?
    ensures CaseReady(Apply(s, step), k)
  {
    var c :| 0 <= c < |Cases(s.n)[k]| && Ready(s, Cases(s.n)[k][c]);
    assert Ready(Apply(s, step), Cases(s.n)[k][c]);
  }

  /** Whoever has closed had a ready case, before the step or by it. */
  lemma ClosedHadReadyCase(s: State, step: Step, j: nat)
    requires Inv(s) && Enabled(s, step) && j < |Apply(s, step).gs| && Apply(s, step).gs[j].Closed?
    ensures CaseReady(Apply(s, step), j)
  {
    if step.Close? && j == step.k {
      assert Ready(s, Cases(s.n)[j][step.c]);
    }
    assert step.Enter? && step.k + 1 < |s.gs| ==> s.gs[step.k + 1].Dormant?;
    CaseStaysReady(s, step, j);
  }

  lemma EnterKeepsOrder(s: State, k: nat)
    requires Inv(s) && Enabled(s, Enter(k))
    ensures var t := Apply(s, Enter(k));
      && |t.gs| == |s.gs| && (|t.gs| > 0 ==> !t.gs[0].Dormant?)
      && (forall j | 0 <= j && j + 1 < |t.gs| :: t.gs[j + 1].Dormant? <==> t.gs[j].Dormant? || t.gs[j].Started?)
      && (forall j | 0 <= j < |t.gs| && t.gs[j].Closed? :: s.fired != {})
  {
    var t := Apply(s, Enter(k));
    assert k + 1 < |s.gs| ==> s.gs[k + 1].Dormant?;
    assert k + 2 < |s.gs| ==> s.gs[k + 2].Dormant?;
    forall j | 0 <= j && j + 1 < |t.gs| ensures t.gs[j + 1].Dormant? <==> t.gs[j].Dormant? || t.gs[j].Started? {
      assert s.gs[j + 1].Dormant? <==> s.gs[j].Dormant? || s.gs[j].Started?;
    }
  }

  lemma StepKeepsInv(s: State, step: Step)
    requires Inv(s) && Enabled(s, step)
    ensures Inv(Apply(s, step))
  {
    var t := Apply(s, step);
    forall j: nat | j < |t.gs| && t.gs[j].Closed? ensures CaseReady(t, j) {
      ClosedHadReadyCase(s, step, j);
    }
    hide CaseReady;
    match step
    case Fire(_) =>
    case Enter(k) => EnterKeepsOrder(s, k);
    case Close(k, _) => ACloseNeedsAnInput(s, step);
  }

  lemma ACloseNeedsAnInput(s: State, step: Step)
    requires Inv(s) && Enabled(s, step) && step.Close?
    ensures s.fired != {}
  {
    assert Ready(s, Cases(s.n)[step.k][step.c]);
  }

  predicate Runs(s: State, steps: seq<Step>)
    decreases |steps|, 0
  {
    |steps| > 0 ==> Runs(s, steps[..|steps| - 1]) && Enabled(Exec(s, steps[..|steps| - 1]), steps[|steps| - 1])
  }

  function Exec(s: State, steps: seq<Step>): State
    requires Runs(s, steps)
    decreases |steps|, 1
  {
    if |steps| == 0 then s else Apply(Exec(s, steps[..|steps| - 1]), steps[|steps| - 1])
  }

  lemma {:induction false} RunKeepsInv(s: State, steps: seq<Step>)
    requires Inv(s) && Runs(s, steps)
    ensures Inv(Exec(s, steps)) && Exec(s, steps).n == s.n
  {
    if |steps| > 0 {
      RunKeepsInv(s, steps[..|steps| - 1]);
      StepKeepsInv(Exec(s, steps[..|steps| - 1]), steps[|steps| - 1]);
    }
  }

  // ---- What the tree computes ----

  /** No goroutine with a ready case has yet to close. */
  ghost predicate Settled(s: State, k: nat, cases: seq<seq<Channel>>) {
    forall j, c | 0 <= j < |cases| && 0 <= c < |cases[j]| :: Ready(s, cases[j][c]) ==> Ready(s, Output(k + j))
  }

  /** Goroutine k selects on the first three channels and the nested call's output; the others are that call's. */
  lemma TreeOfThree(chans: seq<Channel>, k: nat)
    requires |chans| > 2
    ensures var cases, nested := Tree(chans, k).1, Tree(Nested(chans, k), k + 1);
      |cases| > 0 && cases[0] == chans[..3] + [nested.0] && cases[1..] == nested.1
  {
  }

  lemma SettledBelow(s: State, k: nat, cases: seq<seq<Channel>>)
    requires |cases| > 0 && Settled(s, k, cases)
    ensures Settled(s, k + 1, cases[1..])
    ensures forall c | 0 <= c < |cases[0]| :: Ready(s, cases[0][c]) ==> Ready(s, Output(k))
  {
    var rest := cases[1..];
    forall j, c | 0 <= j < |rest| && 0 <= c < |rest[j]| && Ready(s, rest[j][c]) ensures Ready(s, Output(k + 1 + j)) {
      assert cases[j + 1][c] == rest[j][c];
    }
    forall c | 0 <= c < |cases[0]| && Ready(s, cases[0][c]) ensures Ready(s, Output(k + 0)) {}
  }

  /**
   Every channel a call is given is selected on by some goroutine of its tree, the parent's output among
   them, so one ready channel closes the whole tree, bottom up and then top down.
   */
  lemma {:induction false} OneReadyClosesAll(s: State, chans: seq<Channel>, k: nat, c: nat)
    requires |chans| > 0 && Settled(s, k, Tree(chans, k).1)
    requires c < |chans| && Ready(s, chans[c])
    ensures Ready(s, Tree(chans, k).0)
    ensures forall j: nat | k <= j < k + |Tree(chans, k).1| :: Ready(s, Output(j))
    decreases |chans|
  {
    var cases := Tree(chans, k).1;
    if |chans| > 1 {
      SettledBelow(s, k, cases);
    }
    if |chans| == 2 {
      assert cases[0][c] == chans[c];
    } else if |chans| > 2 {
      var next := Nested(chans, k);
      TreeOfThree(chans, k);
      hide Tree, Settled;
      if c < 3 {
        assert cases[0][c] == chans[c];
        OneReadyClosesAll(s, next, k + 1, |next| - 1);
      } else {
        assert next[c - 3] == chans[c];
        OneReadyClosesAll(s, next, k + 1, c - 3);
        assert cases[0][3] == Tree(next, k + 1).0;
      }
    }
  }

  /** No goroutine can move; inputs may still fire. */
  ghost predicate Quiescent(s: State) {
    forall step: Step :: Enabled(s, step) ==> step.Fire?
  }

  ghost predicate Reachable(s: State, n: nat, steps: seq<Step>) {
    Runs(Init(n), steps) && s == Exec(Init(n), steps)
  }

  lemma {:induction false} AllSelecting(s: State, k: nat)
    requires Inv(s) && Quiescent(s) && k < |s.gs|
    ensures s.gs[k].Selecting? || s.gs[k].Closed?
  {
    if k > 0 {
      AllSelecting(s, k - 1);
    }
    assert !Enabled(s, Enter(k));
  }

  lemma AllSettled(s: State)
    requires Inv(s) && Quiescent(s)
    ensures Settled(s, 0, Cases(s.n))
  {
    forall j, c | 0 <= j < |Cases(s.n)| && 0 <= c < |Cases(s.n)[j]| && Ready(s, Cases(s.n)[j][c])
      ensures Ready(s, Output(0 + j))
    {
      AllSelecting(s, j);
      assert !Enabled(s, Close(j, c));
    }
  }

  lemma InitInv(n: nat)
    ensures Inv(Init(n))
  {
  }

  /** OR never fires on its own: when its output is ready, in whatever run, some input has fired. */
  lemma OrOnlyFiresOnAnInput(s: State, n: nat, steps: seq<Step>)
    requires Reachable(s, n, steps) && n > 0 && Ready(s, Or(n).value)
    ensures exists i :: i < n && i in s.fired
  {
    InitInv(n);
    RunKeepsInv(Init(n), steps);
    if s.fired == {} {
      assert false;
    }
    var i :| i in s.fired;
  }

  /**
   OR fires exactly when some input has: once nothing can move, its output is ready if and only if an input
   has fired, and then every goroutine of the tree has run to its close.
   */
  lemma OrFiresExactlyOnAnInput(s: State, n: nat, steps: seq<Step>)
    requires Reachable(s, n, steps) && n > 0 && Quiescent(s)
    ensures Ready(s, Or(n).value) <==> s.fired != {}
    ensures s.fired != {} ==> forall k | 0 <= k < |s.gs| :: s.gs[k].Closed?
    ensures s.fired == {} ==> forall k | 0 <= k < |s.gs| :: !s.gs[k].Closed?
  {
    InitInv(n);
    RunKeepsInv(Init(n), steps);
    if i :| i in s.fired {
      AllSettled(s);
      assert Inputs(n)[i] == Input(i);
      OneReadyClosesAll(s, Inputs(n), 0, i);
      forall k | 0 <= k < |s.gs| ensures s.gs[k].Closed? {
        assert Ready(s, Output(k));
      }
    }
  }

  function Rank(g: Goroutine): nat {
    match g
    case Dormant => 3
    case Started => 2
    case Selecting => 1
    case Closed => 0
  }

  lemma GoroutinesSettle(s: State, step: Step)
    requires Inv(s) && Enabled(s, step) && !step.Fire?
    ensures Sum(Apply(s, step).gs, Rank) < Sum(s.gs, Rank)
  {
    match step
    case Enter(k) =>
      SumUpdate(s.gs, Rank, k, Selecting);
      if k + 1 < |s.gs| {
        assert s.gs[k + 1].Dormant?;
        SumUpdate(s.gs[k := Selecting], Rank, k + 1, Started);
      }
    case Close(k, _) => SumUpdate(s.gs, Rank, k, Closed);
  }

  /** What can still happen: the goroutines' ranks and the inputs that have not fired. */
  function Rest(s: State): int {
    Sum(s.gs, Rank) + s.n - |s.fired|
  }

  lemma StepShrinksRest(s: State, step: Step)
    requires Inv(s) && Enabled(s, step)
    ensures Rest(Apply(s, step)) < Rest(s)
  {
    if !step.Fire? {
      GoroutinesSettle(s, step);
    }
  }

  lemma {:induction false} RunShrinksRest(s: State, steps: seq<Step>)
    requires Inv(s) && Runs(s, steps)
    ensures |steps| + Rest(Exec(s, steps)) <= Rest(s)
  {
    hide Inv, Enabled, Apply, Rank;
    if |steps| > 0 {
      var pre, step := steps[..|steps| - 1], steps[|steps| - 1];
      RunShrinksRest(s, pre);
      RunKeepsInv(s, pre);
      StepShrinksRest(Exec(s, pre), step);
    }
  }

  /** So however inputs and goroutines interleave, the tree comes to rest: no run is longer than this. */
  lemma EveryRunSettles(n: nat, steps: seq<Step>)
    requires Runs(Init(n), steps)
    ensures |steps| <= 3 * (n / 2) + n
  {
    InitInv(n);
    RunKeepsInv(Init(n), steps);
    RunShrinksRest(Init(n), steps);
    SumBound(Init(n).gs, Rank, 3);
    BoundedSet(Exec(Init(n), steps).fired, n);
  }

  // ---- Whatever inputs fire ----

  lemma RunsSnoc(s: State, steps: seq<Step>, step: Step)
    requires Runs(s, steps) && Enabled(Exec(s, steps), step)
    ensures Runs(s, steps + [step]) && Exec(s, steps + [step]) == Apply(Exec(s, steps), step)
  {
    assert (steps + [step])[..|steps|] == steps;
  }

  /** Inputs can fire in any combination. */
  lemma {:induction false} FireRun(n: nat, inputs: set<nat>) returns (run: seq<Step>)
    requires forall i | i in inputs :: i < n
    ensures Runs(Init(n), run) && Exec(Init(n), run).fired == inputs && Exec(Init(n), run).n == n
    decreases |inputs|
  {
    hide Runs, Exec;
    if inputs == {} {
      NothingFiredAtFirst(n);
      run := [];
    } else {
      var i :| i in inputs;
      run := FireRun(n, inputs - {i});
      RunsSnoc(Init(n), run, Fire(i));
      run := run + [Fire(i)];
    }
  }

  lemma NothingFiredAtFirst(n: nat)
    ensures Runs(Init(n), []) && Exec(Init(n), []) == Init(n)
  {
  }

  /** The goroutines come to rest without a further input. */
  lemma {:induction false} SettleRun(n: nat, run: seq<Step>) returns (whole: seq<Step>)
    requires Runs(Init(n), run)
    ensures Runs(Init(n), whole) && Quiescent(Exec(Init(n), whole))
    ensures Exec(Init(n), whole).fired == Exec(Init(n), run).fired
    decreases Sum(Exec(Init(n), run).gs, Rank)
  {
    var s := Exec(Init(n), run);
    InitInv(n);
    RunKeepsInv(Init(n), run);
    hide Runs, Exec, Rank, Inv;
    if Quiescent(s) {
      whole := run;
    } else {
      var step :| Enabled(s, step) && !step.Fire?;
      GoroutinesSettle(s, step);
      RunsSnoc(Init(n), run, step);
      whole := SettleRun(n, run + [step]);
    }
  }

  /** For every set of inputs there is a run in which just these fire and OR, if there are any, does. */
  lemma OrCanFire(n: nat, inputs: set<nat>) returns (run: seq<Step>)
    requires n > 0 && forall i | i in inputs :: i < n
    ensures Runs(Init(n), run) && Exec(Init(n), run).fired == inputs
    ensures Ready(Exec(Init(n), run), Or(n).value) <==> inputs != {}
  {
    var fire := FireRun(n, inputs);
    hide Runs, Exec;
    run := SettleRun(n, fire);
    OrFiresExactlyOnAnInput(Exec(Init(n), run), n, run);
  }

  // ---- The least fixpoint ----

  predicate ReadyIn(fired: set<nat>, closed: set<nat>, c: Channel) {
    match c
    case Input(i) => i in fired
    case Output(k) => k in closed
  }

  ghost predicate HasReadyCase(n: nat, fired: set<nat>, closed: set<nat>, k: nat) {
    k < |Cases(n)| && exists c :: 0 <= c < |Cases(n)[k]| && ReadyIn(fired, closed, Cases(n)[k][c])
  }

  /** A set of goroutines that closes exactly those with a ready case: a solution of OR's own equations. */
  ghost predicate Solution(n: nat, fired: set<nat>, closed: set<nat>) {
    forall k: nat :: k in closed <==> HasReadyCase(n, fired, closed, k)
  }

  /** Once an input has fired, the only solution is that every goroutine closes. */
  lemma FiredSolutionIsEverything(n: nat, fired: set<nat>, closed: set<nat>, i: nat)
    requires Solution(n, fired, closed) && i in fired && i < n
    ensures forall k | 0 <= k < |Cases(n)| :: k in closed
  {
    var s := State(n, fired, seq(|Cases(n)|, (k: nat) => if k in closed then Closed else Selecting));
    assert Inputs(n)[i] == Input(i);
    forall j, c | 0 <= j < |Cases(n)| && 0 <= c < |Cases(n)[j]| && Ready(s, Cases(n)[j][c])
      ensures Ready(s, Output(0 + j))
    {
      assert ReadyIn(fired, closed, Cases(n)[j][c]);
      assert HasReadyCase(n, fired, closed, j);
    }
    OneReadyClosesAll(s, Inputs(n), 0, i);
    forall k | 0 <= k < |Cases(n)| ensures k in closed {
      assert Ready(s, Output(k));
    }
  }

  /** In every state a run reaches, what has closed lies within every solution ... */
  lemma RunsStayBelowEverySolution(s: State, n: nat, steps: seq<Step>, other: set<nat>)
    requires Reachable(s, n, steps) && Solution(n, s.fired, other)
    ensures forall k: nat | k < |s.gs| && s.gs[k].Closed? :: k in other
  {
    InitInv(n);
    RunKeepsInv(Init(n), steps);
    if i :| i in s.fired {
      FiredSolutionIsEverything(n, s.fired, other, i);
    }
  }

  /** ... and once nothing can move it is a solution: OR computes the least one. */
  lemma RunsEndInASolution(s: State, n: nat, steps: seq<Step>, closed: set<nat>)
    requires Reachable(s, n, steps) && Quiescent(s)
    requires forall k: nat :: k in closed <==> k < |s.gs| && s.gs[k].Closed?
    ensures Solution(n, s.fired, closed)
  {
    InitInv(n);
    RunKeepsInv(Init(n), steps);
    hide Runs, Exec, Init, Quiescent;
    AllSettled(s);
    forall k: nat ensures k in closed <==> HasReadyCase(n, s.fired, closed, k) {
      ClosedIfReady(s, closed, k);
    }
  }

  lemma ClosedIfReady(s: State, closed: set<nat>, k: nat)
    requires |s.gs| == |Cases(s.n)| && Settled(s, 0, Cases(s.n))
    requires k in closed ==> CaseReady(s, k)
    requires forall j: nat :: j in closed <==> j < |s.gs| && s.gs[j].Closed?
    ensures k in closed <==> HasReadyCase(s.n, s.fired, closed, k)
  {
    hide Cases;
    if k in closed {
      var c :| 0 <= c < |Cases(s.n)[k]| && Ready(s, Cases(s.n)[k][c]);
      assert ReadyIn(s.fired, closed, Cases(s.n)[k][c]);
    }
    forall c | k < |Cases(s.n)| && 0 <= c < |Cases(s.n)[k]| && ReadyIn(s.fired, closed, Cases(s.n)[k][c])
      ensures k in closed
    {
      assert Ready(s, Cases(s.n)[k][c]);
      assert Ready(s, Output(0 + k));
    }
  }

  lemma NothingReadyAtFirst(n: nat)
    ensures forall k, c | 0 <= k < |Cases(n)| && 0 <= c < |Cases(n)[k]| :: !ReadyIn({}, {}, Cases(n)[k][c])
  {
  }

  /** Every goroutine of a tree over three or more channels waits for some goroutine of the tree. */
  lemma {:induction false} WaitsForAGoroutine(chans: seq<Channel>, k: nat, j: nat, total: nat)
    requires |chans| > 2 || (|chans| == 2 && k > 0 && chans[1] == Output(k - 1))
    requires j < |Tree(chans, k).1| && k + |Tree(chans, k).1| == total
    ensures exists c ::
      0 <= c < |Tree(chans, k).1[j]| && Tree(chans, k).1[j][c].Output? && Tree(chans, k).1[j][c].k < total
    decreases |chans|
  {
    var cases := Tree(chans, k).1;
    if |chans| == 2 {
      assert cases[0][1] == Output(k - 1);
    } else {
      var next := Nested(chans, k);
      if j == 0 {
        assert cases[0][3] == Tree(next, k + 1).0;
        assert cases[0][3] == Output(if |next| == 1 then k else k + 1);
      } else {
        WaitsForAGoroutine(next, k + 1, j - 1, total);
        assert cases[j] == Tree(next, k + 1).1[j - 1];
      }
    }
  }

  /**
   Least matters: on three or more channels the equations also have the solution in which every goroutine
   has closed though no input has fired.
   */
  lemma TheEquationsAloneDoNotSay(n: nat, all: set<nat>)
    requires n > 2 && forall k: nat :: k in all <==> k < |Cases(n)|
    ensures Solution(n, {}, all) && Solution(n, {}, {}) && 0 in all
  {
    forall k: nat | k < |Cases(n)| ensures HasReadyCase(n, {}, all, k) {
      WaitsForAGoroutine(Inputs(n), 0, k, |Cases(n)|);
      var c :| 0 <= c < |Cases(n)[k]| && Cases(n)[k][c].Output? && Cases(n)[k][c].k < |Cases(n)|;
      assert ReadyIn({}, all, Cases(n)[k][c]);
    }
    NothingReadyAtFirst(n);
  }
}
