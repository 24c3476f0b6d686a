/**
 The environment loader.  A struct value is a tree of tagged leaves and nested structs; scanning a struct
 is a goroutine that goes through its fields in order, starts one goroutine for each nested struct, stores
 the variable of each tagged field, and waits for the goroutines it started.
 */
module EnvLoader {
  import opened Options
  import opened Strings

  datatype Kind = Int | Uint | Float | Text | Bool | Unsupported

  /** A leaf holds its present value; a Nested field is a struct, or a non-nil pointer to one. */
  datatype Field<X> =
    | Leaf(tag: Option<string>, kind: Kind, canSet: bool, value: X)
    | Nested(tag: Option<string>, pointer: bool, fields: seq<Field<X>>)

  /** The configured prefix, the process environment, and the conversions strconv offers. */
  datatype Env<!X> = Env(prefix: string, vars: map<string, string>, convert: (Kind, string) -> Option<X>)

  /** What scanning does to a field itself. */
  datatype Action<+X> = Keep | Set(x: X) | Fail

  function Prefix<X>(env: Env<X>): string {
    if env.prefix == "" then "" else "_" + env.prefix
  }

  /** The variable a tag names, if any. */
  function Variable<X>(env: Env<X>, tag: Option<string>): Option<string> {
    if tag.None? then None
    else
      var first := Split(tag.value, ',')[0];
      if first == "-" || Prefix(env) + first == "" then None else Some(Prefix(env) + first)
  }

  function ActionOn<X>(env: Env<X>, f: Field<X>): Action<X> {
    var name := Variable(env, f.tag);
    if name.None? || name.value !in env.vars then Keep
    else match f
      case Nested(_, _, _) => Fail
      case Leaf(_, kind, canSet, _) =>
        if !canSet || kind.Unsupported? then Fail
        else
          var x := env.convert(kind, env.vars[name.value]);
          if x.None? then Fail else Set(x.value)
  }

  /** The pure result: each leaf set, or left as it was. */
  function Loaded<X>(env: Env<X>, f: Field<X>): Field<X>
    decreases f, 1
  {
    match f
    case Leaf(_, _, _, _) => var a := ActionOn(env, f); if a.Set? then f.(value := a.x) else f
    case Nested(_, _, fields) => f.(fields := AllLoaded(env, fields))
  }

  function AllLoaded<X>(env: Env<X>, fs: seq<Field<X>>): (r: seq<Field<X>>)
    ensures |r| == |fs|
    ensures forall i | 0 <= i < |fs| :: r[i] == Loaded(env, fs[i])
    decreases fs, 0
  {
    if |fs| == 0 then [] else [Loaded(env, fs[0])] + AllLoaded(env, fs[1..])
  }

  // ---- What scanning is for ----

  /** `name` is the environment variable the field's tag names: what precedes its first comma, with the prefix. */
  ghost predicate NamesVariable<X>(env: Env<X>, f: Field<X>, name: string) {
    && name != "" && f.tag.Some?
    && exists first: string ::
         && FirstPiece(f.tag.value, ',', first) && first != "-"
         && name == (if env.prefix == "" then first else "_" + env.prefix + first)
  }

  /** The variable the field's tag names is set. */
  ghost predicate Present<X>(env: Env<X>, f: Field<X>, name: string) {
    NamesVariable(env, f, name) && name in env.vars
  }

  /** The field is a leaf that can be set, of a supported kind, and the variable's value converts to that kind. */
  ghost predicate Converts<X>(env: Env<X>, f: Field<X>, name: string)
    requires name in env.vars
  {
    f.Leaf? && f.canSet && !f.kind.Unsupported? && env.convert(f.kind, env.vars[name]).Some?
  }

  /** The field's variable is set and cannot be stored in it. */
  ghost predicate Fails<X>(env: Env<X>, f: Field<X>) {
    exists name: string :: Present(env, f, name) && !Converts(env, f, name)
  }

  /** `g` is the leaf `f` with its variable's converted value, if that is set and converts, and else unchanged. */
  ghost predicate Becomes<X>(env: Env<X>, f: Field<X>, g: Field<X>)
    requires f.Leaf?
  {
    && (forall name: string | Present(env, f, name) && Converts(env, f, name) ::
          g == f.(value := env.convert(f.kind, env.vars[name]).value))
    && ((forall name: string | Present(env, f, name) :: !Converts(env, f, name)) ==> g == f)
  }

  /** Every leaf has become what it should, and nothing else has changed. */
  ghost predicate Scanned<X>(env: Env<X>, fs: seq<Field<X>>, gs: seq<Field<X>>) {
    && |gs| == |fs|
    && forall j | 0 <= j < |fs| ::
         match fs[j]
         case Leaf(_, _, _, _) => Becomes(env, fs[j], gs[j])
         case Nested(tag, pointer, fields) =>
           gs[j].Nested? && gs[j].tag == tag && gs[j].pointer == pointer && Scanned(env, fields, gs[j].fields)
  }

  lemma VariableIsNamed<X>(env: Env<X>, f: Field<X>, name: string)
    ensures NamesVariable(env, f, name) <==> Variable(env, f.tag) == Some(name)
  {
    if f.tag.Some? {
      var first := Split(f.tag.value, ',')[0];
      FirstOfSplit(f.tag.value, ',', first);
      forall other: string ensures FirstPiece(f.tag.value, ',', other) ==> other == first {
        FirstOfSplit(f.tag.value, ',', other);
      }
      hide FirstPiece, Split;
      assert Prefix(env) + first == if env.prefix == "" then first else "_" + env.prefix + first;
    }
  }

  /** What a field's own action does is what it should. */
  lemma ActionIsRight<X>(env: Env<X>, f: Field<X>)
    ensures ActionOn(env, f).Fail? <==> Fails(env, f)
    ensures f.Leaf? ==> Becomes(env, f, Loaded(env, f))
  {
    forall name: string ensures NamesVariable(env, f, name) <==> Variable(env, f.tag) == Some(name) {
      VariableIsNamed(env, f, name);
    }
    hide NamesVariable, Variable;
    var variable := Variable(env, f.tag);
    assert variable.Some? && variable.value in env.vars ==> Present(env, f, variable.value);
  }

  lemma ActionsAreRight<X>(env: Env<X>, fs: seq<Field<X>>)
    ensures forall j | 0 <= j < |fs| :: ActionOn(env, fs[j]).Fail? <==> Fails(env, fs[j])
  {
    forall j | 0 <= j < |fs| ensures ActionOn(env, fs[j]).Fail? <==> Fails(env, fs[j]) {
      ActionIsRight(env, fs[j]);
    }
  }

  lemma {:induction false} LoadedIsScanned<X>(env: Env<X>, fs: seq<Field<X>>)
    ensures Scanned(env, fs, AllLoaded(env, fs))
    decreases fs
  {
    forall j | 0 <= j < |fs|
      ensures match fs[j]
        case Leaf(_, _, _, _) => Becomes(env, fs[j], AllLoaded(env, fs)[j])
        case Nested(tag, pointer, fields) =>
          var g := AllLoaded(env, fs)[j];
          g.Nested? && g.tag == tag && g.pointer == pointer && Scanned(env, fields, g.fields)
    {
      if fs[j].Leaf? {
        ActionIsRight(env, fs[j]);
      } else {
        LoadedIsScanned(env, fs[j].fields);
      }
    }
  }

  // ---- The goroutines ----

  /** `At(i)`: about to look at field i, or at wg.Wait when i is past the last.  The other two have returned. */
  datatype Pc = At(i: nat) | Failed(i: nat) | Waited(err: bool)

  /** A goroutine scanning one struct, with the struct's fields as they now are and its two error variables. */
  datatype Task<X> = Task(cells: seq<Cell<X>>, pc: Pc, pointerErr: bool, structErr: bool)

  datatype Cell<X> =
    | Plain(leaf: Field<X>)
    | Sub(tag: Option<string>, pointer: bool, child: Task<X>, started: bool, joined: bool)

  /**
   Own: the goroutine's next field, or its return from wg.Wait.  Join: child i stores its error and is done.
   Inner: child i moves.
   */
  datatype Move = Own | Join(i: nat) | Inner(i: nat, m: Move)

  function NewTask<X>(fs: seq<Field<X>>): Task<X>
    decreases fs, 2
  {
    Task(NewCells(fs), At(0), false, false)
  }

  function NewCell<X>(f: Field<X>): Cell<X>
    decreases f, 0
  {
    match f
    case Leaf(_, _, _, _) => Plain(f)
    case Nested(tag, pointer, fields) => Sub(tag, pointer, NewTask(fields), false, false)
  }

  function NewCells<X>(fs: seq<Field<X>>): (r: seq<Cell<X>>)
    ensures |r| == |fs|
    ensures forall i | 0 <= i < |fs| :: r[i] == NewCell(fs[i])
    decreases fs, 1
  {
    if |fs| == 0 then [] else [NewCell(fs[0])] + NewCells(fs[1..])
  }

  predicate Returned<X>(t: Task<X>) {
    !t.pc.At?
  }

  predicate Err<X>(t: Task<X>) {
    t.pc.Failed? || (t.pc.Waited? && t.pc.err)
  }

  predicate AllJoined<X>(t: Task<X>) {
    forall i | 0 <= i < |t.cells| :: t.cells[i].Sub? && t.cells[i].started ==> t.cells[i].joined
  }

  predicate Can<X>(t: Task<X>, m: Move)
    decreases m
  {
    match m
    case Own => t.pc.At? && (t.pc.i < |t.cells| || (t.pc.i == |t.cells| && AllJoined(t)))
    case Join(i) =>
      i < |t.cells| && t.cells[i].Sub? && t.cells[i].started && !t.cells[i].joined && Returned(t.cells[i].child)
    case Inner(i, m') => i < |t.cells| && t.cells[i].Sub? && t.cells[i].started && Can(t.cells[i].child, m')
  }

  /** The field a cell stands for, as far as its own action goes. */
  function AsField<X>(c: Cell<X>): Field<X> {
    match c
    case Plain(leaf) => leaf
    case Sub(tag, pointer, _, _, _) => Nested(tag, pointer, [])
  }

  function Do<X>(env: Env<X>, t: Task<X>, m: Move): Task<X>
    requires Can(t, m)
    decreases m
  {
    match m
    case Own =>
      var i := t.pc.i;
      if i == |t.cells| then t.(pc := Waited(t.pointerErr || t.structErr))
      else
        var a := ActionOn(env, AsField(t.cells[i]));
        var c := match t.cells[i]
          case Plain(leaf) => Plain(if leaf.Leaf? && a.Set? then leaf.(value := a.x) else leaf)
          case Sub(_, _, _, _, _) => t.cells[i].(started := true);
        t.(cells := t.cells[i := c], pc := if a.Fail? then Failed(i) else At(i + 1))
    case Join(i) =>
      var c := t.cells[i];
      var u := t.(cells := t.cells[i := c.(joined := true)]);
      if c.pointer then u.(pointerErr := Err(c.child)) else u.(structErr := Err(c.child))
    case Inner(i, m') =>
      t.(cells := t.cells[i := t.cells[i].(child := Do(env, t.cells[i].child, m'))])
  }

  /** The struct as it now is. */
  function Now<X>(t: Task<X>): seq<Field<X>>
    decreases t, 1
  {
    NowCells(t.cells)
  }

  function NowCell<X>(c: Cell<X>): Field<X>
    decreases c, 0
  {
    match c
    case Plain(leaf) => leaf
    case Sub(tag, pointer, child, _, _) => Nested(tag, pointer, Now(child))
  }

  function NowCells<X>(cs: seq<Cell<X>>): (r: seq<Field<X>>)
    ensures |r| == |cs|
    ensures forall i | 0 <= i < |cs| :: r[i] == NowCell(cs[i])
    decreases cs, 0
  {
    if |cs| == 0 then [] else [NowCell(cs[0])] + NowCells(cs[1..])
  }

  // ---- Invariant ----

  /** The fields whose own action is over. */
  function Passed<X>(t: Task<X>): nat {
    match t.pc
    case At(i) => i
    case Failed(i) => i
    case Waited(_) => |t.cells|
  }

  /** Field j's goroutine, if it has one, has been started. */
  predicate Begun<X>(t: Task<X>, j: nat) {
    j < Passed(t) || t.pc == Failed(j)
  }

  predicate JoinedChild<X>(t: Task<X>, j: nat, pointer: bool) {
    j < |t.cells| && t.cells[j].Sub? && t.cells[j].joined && t.cells[j].pointer == pointer
  }

  function ErrVar<X>(t: Task<X>, pointer: bool): bool {
    if pointer then t.pointerErr else t.structErr
  }

  /** An error variable holds what the latest child of its kind returned. */
  ghost predicate ErrVarOk<X>(t: Task<X>, pointer: bool) {
    || (!ErrVar(t, pointer) && forall j: nat :: !JoinedChild(t, j, pointer))
    || (exists j: nat :: JoinedChild(t, j, pointer) && Err(t.cells[j].child) == ErrVar(t, pointer))
  }

  ghost predicate CellOk<X>(env: Env<X>, f: Field<X>, c: Cell<X>, passed: bool, started: bool)
    decreases f, 0
  {
    match f
    case Leaf(_, _, _, _) => c == Plain(if passed then Loaded(env, f) else f)
    case Nested(tag, pointer, fields) =>
      && c.Sub? && c.tag == tag && c.pointer == pointer && c.started == started
      && TaskOk(env, fields, c.child)
      && (!started ==> c.child == NewTask(fields))
      && (c.joined ==> started && Returned(c.child))
  }

  ghost predicate TaskOk<X>(env: Env<X>, fs: seq<Field<X>>, t: Task<X>)
    decreases fs, 1
  {
    && |t.cells| == |fs| && Passed(t) <= |fs|
    && (forall j | 0 <= j < |fs| :: CellOk(env, fs[j], t.cells[j], j < Passed(t), Begun(t, j)))
    && (forall j | 0 <= j < Passed(t) :: !ActionOn(env, fs[j]).Fail?)
    && (t.pc.Failed? ==> t.pc.i < |fs| && ActionOn(env, fs[t.pc.i]).Fail?)
    && (t.pc.Waited? ==> AllJoined(t) && t.pc.err == (t.pointerErr || t.structErr))
    && ErrVarOk(t, true) && ErrVarOk(t, false)
  }

  /** A nested field's own action does not depend on what is inside it. */
  lemma ActionOfCell<X>(env: Env<X>, f: Field<X>, c: Cell<X>, started: bool)
    requires CellOk(env, f, c, false, started)
    ensures ActionOn(env, AsField(c)) == ActionOn(env, f)
  {
  }

  lemma {:induction false} NewTaskOk<X>(env: Env<X>, fs: seq<Field<X>>)
    ensures TaskOk(env, fs, NewTask(fs))
    decreases fs
  {
    forall j | 0 <= j < |fs| ensures CellOk(env, fs[j], NewTask(fs).cells[j], false, false) {
      if fs[j].Nested? {
        NewTaskOk(env, fs[j].fields);
      }
    }
  }

  /** The goroutine at its next field. */
  lemma FieldKeepsOk<X>(env: Env<X>, fs: seq<Field<X>>, t: Task<X>)
    requires TaskOk(env, fs, t) && Can(t, Own) && t.pc.i < |t.cells|
    ensures TaskOk(env, fs, Do(env, t, Own))
  {
    var i, u := t.pc.i, Do(env, t, Own);
    assert CellOk(env, fs[i], t.cells[i], false, false);
    ActionOfCell(env, fs[i], t.cells[i], false);
    forall j | 0 <= j < |fs| ensures CellOk(env, fs[j], u.cells[j], j < Passed(u), Begun(u, j)) {
      assert CellOk(env, fs[j], t.cells[j], j < Passed(t), Begun(t, j));
    }
    ErrVarsFrame(t, u);
  }

  /** The error variables do not care about a move that joins nobody and changes no child that has been joined. */
  lemma ErrVarsFrame<X>(t: Task<X>, u: Task<X>)
    requires ErrVarOk(t, true) && ErrVarOk(t, false)
    requires |u.cells| == |t.cells| && u.pointerErr == t.pointerErr && u.structErr == t.structErr
    requires forall j | 0 <= j < |t.cells| ::
      if t.cells[j].Sub? && t.cells[j].joined
      then u.cells[j].Sub? && u.cells[j].joined && u.cells[j].pointer == t.cells[j].pointer
        && Err(u.cells[j].child) == Err(t.cells[j].child)
      else !(u.cells[j].Sub? && u.cells[j].joined)
    ensures ErrVarOk(u, true) && ErrVarOk(u, false)
  {
    forall j: nat, p: bool ensures JoinedChild(u, j, p) <==> JoinedChild(t, j, p) {}
    forall p: bool ensures ErrVarOk(u, p) {
      assert ErrVarOk(t, p);
      if k: nat :| JoinedChild(t, k, p) && Err(t.cells[k].child) == ErrVar(t, p) {
        assert JoinedChild(u, k, p) && Err(u.cells[k].child) == ErrVar(u, p);
      }
    }
  }

  lemma OwnKeepsOk<X>(env: Env<X>, fs: seq<Field<X>>, t: Task<X>)
    requires TaskOk(env, fs, t) && Can(t, Own)
    ensures TaskOk(env, fs, Do(env, t, Own))
  {
    if t.pc.i < |t.cells| {
      FieldKeepsOk(env, fs, t);
    } else {
      var u := Do(env, t, Own);
      assert forall j | 0 <= j < |fs| :: CellOk(env, fs[j], t.cells[j], j < Passed(t), Begun(t, j));
      ErrVarsFrame(t, u);
    }
  }

  lemma JoinKeepsOk<X>(env: Env<X>, fs: seq<Field<X>>, t: Task<X>, i: nat)
    requires TaskOk(env, fs, t) && Can(t, Join(i))
    ensures TaskOk(env, fs, Do(env, t, Join(i)))
  {
    var u := Do(env, t, Join(i));
    forall j | 0 <= j < |fs| ensures CellOk(env, fs[j], u.cells[j], j < Passed(u), Begun(u, j)) {
      assert CellOk(env, fs[j], t.cells[j], j < Passed(t), Begun(t, j));
    }
    JoinErrVars(env, t, i);
  }

  lemma JoinErrVars<X>(env: Env<X>, t: Task<X>, i: nat)
    requires ErrVarOk(t, true) && ErrVarOk(t, false) && Can(t, Join(i))
    ensures ErrVarOk(Do(env, t, Join(i)), true) && ErrVarOk(Do(env, t, Join(i)), false)
  {
    var u, p := Do(env, t, Join(i)), t.cells[i].pointer;
    assert JoinedChild(u, i, p) && Err(u.cells[i].child) == ErrVar(u, p);
    var q := !p;
    forall j: nat ensures JoinedChild(u, j, q) <==> JoinedChild(t, j, q) {}
    assert ErrVarOk(t, q);
    assert ErrVarOk(u, p) && ErrVarOk(u, q);
  }

  /** A child that has returned keeps its result. */
  lemma ResultStays<X>(env: Env<X>, t: Task<X>, m: Move)
    requires Can(t, m) && Returned(t)
    ensures Do(env, t, m).pc == t.pc
  {
  }

  lemma {:induction false} MoveKeepsOk<X>(env: Env<X>, fs: seq<Field<X>>, t: Task<X>, m: Move)
    requires TaskOk(env, fs, t) && Can(t, m)
    ensures TaskOk(env, fs, Do(env, t, m))
    decreases m
  {
    match m
    case Own => OwnKeepsOk(env, fs, t);
    case Join(i) => JoinKeepsOk(env, fs, t, i);
    case Inner(i, m') =>
      assert CellOk(env, fs[i], t.cells[i], i < Passed(t), Begun(t, i));
      MoveKeepsOk(env, fs[i].fields, t.cells[i].child, m');
      InnerKeepsOk(env, fs, t, i, m');
  }

  lemma InnerKeepsOk<X>(env: Env<X>, fs: seq<Field<X>>, t: Task<X>, i: nat, m: Move)
    requires TaskOk(env, fs, t) && Can(t, Inner(i, m)) && fs[i].Nested?
    requires TaskOk(env, fs[i].fields, Do(env, t.cells[i].child, m))
    ensures TaskOk(env, fs, Do(env, t, Inner(i, m)))
  {
    var u := Do(env, t, Inner(i, m));
    if Returned(t.cells[i].child) {
      ResultStays(env, t.cells[i].child, m);
    }
    forall j | 0 <= j < |fs| ensures CellOk(env, fs[j], u.cells[j], j < Passed(u), Begun(u, j)) {
      assert CellOk(env, fs[j], t.cells[j], j < Passed(t), Begun(t, j));
    }
    assert t.cells[i].joined ==> Returned(t.cells[i].child) by {
      assert CellOk(env, fs[i], t.cells[i], i < Passed(t), Begun(t, i));
    }
    ErrVarsFrame(t, u);
  }

  // ---- Runs ----

  /** `ms`, newest last, can be played one after the other from `t`. */
  predicate Plays<X>(env: Env<X>, t: Task<X>, ms: seq<Move>)
    decreases |ms|, 0
  {
    |ms| > 0 ==> Plays(env, t, ms[..|ms| - 1]) && Can(Played(env, t, ms[..|ms| - 1]), ms[|ms| - 1])
  }

  function Played<X>(env: Env<X>, t: Task<X>, ms: seq<Move>): Task<X>
    requires Plays(env, t, ms)
    decreases |ms|, 1
  {
    if |ms| == 0 then t else Do(env, Played(env, t, ms[..|ms| - 1]), ms[|ms| - 1])
  }

  lemma PlaysOne<X>(env: Env<X>, t: Task<X>, m: Move)
    requires Can(t, m)
    ensures Plays(env, t, [m]) && Played(env, t, [m]) == Do(env, t, m)
  {
    assert [m][..0] == [];
  }

  lemma {:induction false} PlayKeepsOk<X>(env: Env<X>, fs: seq<Field<X>>, t: Task<X>, ms: seq<Move>)
    requires TaskOk(env, fs, t) && Plays(env, t, ms)
    ensures TaskOk(env, fs, Played(env, t, ms))
  {
    hide TaskOk, Can, Do;
    if |ms| > 0 {
      PlayKeepsOk(env, fs, t, ms[..|ms| - 1]);
      MoveKeepsOk(env, fs, Played(env, t, ms[..|ms| - 1]), ms[|ms| - 1]);
    }
  }

  /** Every tagged field whose variable is set can be set and converts. */
  ghost predicate AllConvert<X>(env: Env<X>, fs: seq<Field<X>>) {
    forall j | 0 <= j < |fs| :: !Fails(env, fs[j]) && (fs[j].Nested? ==> AllConvert(env, fs[j].fields))
  }

  /** Scanning is bound to report an error: a field of its own fails, or every nested struct of one kind must fail. */
  ghost predicate MustFail<X>(env: Env<X>, fs: seq<Field<X>>)
    decreases fs, 1
  {
    || (exists j :: 0 <= j < |fs| && Fails(env, fs[j]))
    || KindMustFail(env, fs, true) || KindMustFail(env, fs, false)
  }

  ghost predicate OfKind<X>(fs: seq<Field<X>>, j: nat, pointer: bool) {
    j < |fs| && fs[j].Nested? && fs[j].pointer == pointer
  }

  ghost predicate KindMustFail<X>(env: Env<X>, fs: seq<Field<X>>, pointer: bool)
    decreases fs, 0
  {
    && (exists j: nat :: OfKind(fs, j, pointer))
    && (forall j: nat | OfKind(fs, j, pointer) :: MustFail(env, fs[j].fields))
  }

  /** What a returned result says, whatever the schedule was. */
  lemma {:induction false} ResultMeans<X>(env: Env<X>, fs: seq<Field<X>>, t: Task<X>)
    requires TaskOk(env, fs, t) && Returned(t)
    ensures Err(t) ==> !AllConvert(env, fs)
    ensures !Err(t) ==> !MustFail(env, fs)
    decreases fs
  {
    ActionsAreRight(env, fs);
    hide Fails;
    forall j: nat, p: bool | JoinedChild(t, j, p)
      ensures OfKind(fs, j, p)
      ensures if Err(t.cells[j].child) then !AllConvert(env, fs[j].fields) else !MustFail(env, fs[j].fields)
    {
      assert CellOk(env, fs[j], t.cells[j], j < Passed(t), Begun(t, j));
      ResultMeans(env, fs[j].fields, t.cells[j].child);
    }
    if t.pc.Waited? {
      assert ErrVarOk(t, true) && ErrVarOk(t, false);
      forall j: nat, p: bool | OfKind(fs, j, p) ensures JoinedChild(t, j, p) {
        assert CellOk(env, fs[j], t.cells[j], j < Passed(t), Begun(t, j));
      }
    }
  }

  /** When everything converts and the scan has returned, the struct is the pure result. */
  lemma {:induction false} ReturnedIsLoaded<X>(env: Env<X>, fs: seq<Field<X>>, t: Task<X>)
    requires TaskOk(env, fs, t) && Returned(t) && AllConvert(env, fs)
    ensures Now(t) == AllLoaded(env, fs)
    decreases fs
  {
    ResultMeans(env, fs, t);
    hide Fails;
    forall j | 0 <= j < |fs| ensures NowCell(t.cells[j]) == Loaded(env, fs[j]) {
      assert CellOk(env, fs[j], t.cells[j], j < Passed(t), Begun(t, j));
      if fs[j].Nested? {
        ReturnedIsLoaded(env, fs[j].fields, t.cells[j].child);
      }
    }
  }

  /** The scan has returned, and so has every scan inside it, each joined by the one that started it. */
  ghost predicate AllDone<X>(t: Task<X>) {
    && Returned(t)
    && forall i | 0 <= i < |t.cells| && t.cells[i].Sub? :: t.cells[i].joined && AllDone(t.cells[i].child)
  }

  /** When everything converts, a scan that has returned has waited for all nested scans, at any depth. */
  lemma {:induction false} ReturnedIsDone<X>(env: Env<X>, fs: seq<Field<X>>, t: Task<X>)
    requires TaskOk(env, fs, t) && Returned(t) && AllConvert(env, fs)
    ensures AllDone(t)
    decreases fs
  {
    ResultMeans(env, fs, t);
    forall j | 0 <= j < |fs| && t.cells[j].Sub? ensures t.cells[j].joined && AllDone(t.cells[j].child) {
      assert CellOk(env, fs[j], t.cells[j], j < Passed(t), Begun(t, j));
      ReturnedIsDone(env, fs[j].fields, t.cells[j].child);
    }
  }

  /**
   When every present variable converts, under every schedule a scan that has returned reports no error, has
   left exactly the pure result, and has returned only after every nested scan was done.  That result has each
   leaf's converted variable where it is set, and everything else unchanged.
   */
  lemma EverySchedulePureResult<X>(env: Env<X>, fs: seq<Field<X>>, ms: seq<Move>)
    requires AllConvert(env, fs) && Plays(env, NewTask(fs), ms) && Returned(Played(env, NewTask(fs), ms))
    ensures AllDone(Played(env, NewTask(fs), ms))
    ensures !Err(Played(env, NewTask(fs), ms))
    ensures Now(Played(env, NewTask(fs), ms)) == AllLoaded(env, fs)
    ensures Scanned(env, fs, Now(Played(env, NewTask(fs), ms)))
  {
    var t := Played(env, NewTask(fs), ms);
    NewTaskOk(env, fs);
    PlayKeepsOk(env, fs, NewTask(fs), ms);
    hide TaskOk, Played, Plays, AllDone, Now;
    ResultMeans(env, fs, t);
    ReturnedIsDone(env, fs, t);
    ReturnedIsLoaded(env, fs, t);
    LoadedIsScanned(env, fs);
  }

  // ---- Every schedule ends ----

  function Work<X>(t: Task<X>): nat
    decreases t, 1
  {
    (if t.pc.At? && t.pc.i <= |t.cells| then |t.cells| + 1 - t.pc.i else 0) + WorkOfCells(t.cells)
  }

  function WorkOfCell<X>(c: Cell<X>): nat
    decreases c, 0
  {
    if c.Plain? then 0 else (if c.joined then 0 else 1) + Work(c.child)
  }

  function WorkOfCells<X>(cs: seq<Cell<X>>): nat
    decreases cs, 0
  {
    if |cs| == 0 then 0 else WorkOfCell(cs[0]) + WorkOfCells(cs[1..])
  }

  lemma {:induction false} WorkUpdate<X>(cs: seq<Cell<X>>, i: nat, c: Cell<X>)
    requires i < |cs|
    ensures WorkOfCells(cs[i := c]) + WorkOfCell(cs[i]) == WorkOfCells(cs) + WorkOfCell(c)
  {
    if i > 0 {
      WorkUpdate(cs[1..], i - 1, c);
      assert cs[i := c][1..] == cs[1..][i - 1 := c];
    }
  }

  /** Every move of any goroutine leaves less work. */
  lemma {:induction false} MoveShrinks<X>(env: Env<X>, t: Task<X>, m: Move)
    requires Can(t, m)
    ensures Work(Do(env, t, m)) < Work(t)
    decreases m
  {
    hide WorkOfCells;
    var u := Do(env, t, m);
    match m
    case Own =>
      if t.pc.i < |t.cells| {
        WorkUpdate(t.cells, t.pc.i, u.cells[t.pc.i]);
      }
    case Join(i) => WorkUpdate(t.cells, i, u.cells[i]);
    case Inner(i, m') =>
      MoveShrinks(env, t.cells[i].child, m');
      WorkUpdate(t.cells, i, u.cells[i]);
  }

  /** No schedule makes more moves than there is work. */
  lemma {:induction false} ScheduleBound<X>(env: Env<X>, t: Task<X>, ms: seq<Move>)
    requires Plays(env, t, ms)
    ensures |ms| + Work(Played(env, t, ms)) <= Work(t)
  {
    hide Work, Can, Do;
    if |ms| > 0 {
      ScheduleBound(env, t, ms[..|ms| - 1]);
      MoveShrinks(env, Played(env, t, ms[..|ms| - 1]), ms[|ms| - 1]);
    }
  }

  /** A scan that has not returned can always move. */
  lemma {:induction false} NextMove<X>(env: Env<X>, fs: seq<Field<X>>, t: Task<X>) returns (m: Move)
    requires TaskOk(env, fs, t) && !Returned(t)
    ensures Can(t, m)
    decreases fs
  {
    if t.pc.i < |t.cells| || AllJoined(t) {
      m := Own;
    } else {
      var j: nat :| j < |t.cells| && t.cells[j].Sub? && t.cells[j].started && !t.cells[j].joined;
      assert CellOk(env, fs[j], t.cells[j], j < Passed(t), Begun(t, j));
      if Returned(t.cells[j].child) {
        m := Join(j);
      } else {
        var inner := NextMove(env, fs[j].fields, t.cells[j].child);
        m := Inner(j, inner);
      }
    }
  }

  lemma {:induction false} PlaysCompose<X>(env: Env<X>, t: Task<X>, xs: seq<Move>, ys: seq<Move>)
    requires Plays(env, t, xs) && Plays(env, Played(env, t, xs), ys)
    ensures Plays(env, t, xs + ys) && Played(env, t, xs + ys) == Played(env, Played(env, t, xs), ys)
  {
    hide Can, Do;
    if |ys| == 0 {
      assert xs + ys == xs;
    } else {
      PlaysCompose(env, t, xs, ys[..|ys| - 1]);
      assert (xs + ys)[..|xs + ys| - 1] == xs + ys[..|ys| - 1];
    }
  }

  /** A move and then a schedule. */
  lemma PlaysFirst<X>(env: Env<X>, t: Task<X>, m: Move, ms: seq<Move>)
    requires Can(t, m) && Plays(env, Do(env, t, m), ms)
    ensures Plays(env, t, [m] + ms) && Played(env, t, [m] + ms) == Played(env, Do(env, t, m), ms)
  {
    PlaysOne(env, t, m);
    PlaysCompose(env, t, [m], ms);
  }

  /** So every scan can be brought to its return, in any way one likes. */
  lemma {:induction false} FinishRun<X>(env: Env<X>, fs: seq<Field<X>>, t: Task<X>) returns (ms: seq<Move>)
    requires TaskOk(env, fs, t)
    ensures Plays(env, t, ms) && Returned(Played(env, t, ms))
    decreases Work(t)
  {
    if Returned(t) {
      ms := [];
    } else {
      var m := NextMove(env, fs, t);
      MoveShrinks(env, t, m);
      MoveKeepsOk(env, fs, t, m);
      var rest := FinishRun(env, fs, Do(env, t, m));
      PlaysFirst(env, t, m, rest);
      ms := [m] + rest;
    }
  }

  // ---- When Parse reports a failure ----

  /** A child's schedule, played inside its parent. */
  lemma {:induction false} InnerRun<X>(env: Env<X>, t: Task<X>, j: nat, ms: seq<Move>) returns (lifted: seq<Move>)
    requires j < |t.cells| && t.cells[j].Sub? && t.cells[j].started && Plays(env, t.cells[j].child, ms)
    ensures Plays(env, t, lifted)
    ensures Played(env, t, lifted) ==
      t.(cells := t.cells[j := t.cells[j].(child := Played(env, t.cells[j].child, ms))])
  {
    if |ms| == 0 {
      lifted := [];
      assert t.cells[j := t.cells[j]] == t.cells;
    } else {
      var m := Inner(j, ms[|ms| - 1]);
      lifted := InnerRun(env, t, j, ms[..|ms| - 1]);
      PlaysOne(env, Played(env, t, lifted), m);
      PlaysCompose(env, t, lifted, [m]);
      lifted := lifted + [m];
    }
  }

  /** Child j has not been touched since it was made. */
  ghost predicate Fresh<X>(fs: seq<Field<X>>, t: Task<X>, j: nat) {
    && j < |fs| && j < |t.cells| && fs[j].Nested? && t.cells[j].Sub?
    && !t.cells[j].joined && t.cells[j].child == NewTask(fs[j].fields)
  }

  predicate Joined<X>(t: Task<X>, j: nat) {
    j < |t.cells| && t.cells[j].Sub? && t.cells[j].joined
  }

  ghost predicate Untouched<X>(fs: seq<Field<X>>, t: Task<X>) {
    !t.pointerErr && !t.structErr && forall j: nat | j < |fs| && fs[j].Nested? :: Fresh(fs, t, j)
  }

  /** The goroutine is at wg.Wait; the children set aside are fresh and all others joined. */
  ghost predicate Waiting<X>(env: Env<X>, fs: seq<Field<X>>, t: Task<X>, aside: set<nat>) {
    && TaskOk(env, fs, t) && t.pc == At(|fs|)
    && forall j: nat | j < |fs| && fs[j].Nested? :: if j in aside then Fresh(fs, t, j) else Joined(t, j)
  }

  /** The goroutine goes through its own fields first. */
  lemma {:induction false} OwnRun<X>(env: Env<X>, fs: seq<Field<X>>, t: Task<X>) returns (ms: seq<Move>)
    requires TaskOk(env, fs, t) && t.pc.At? && Untouched(fs, t)
    requires forall j | 0 <= j < |fs| :: !ActionOn(env, fs[j]).Fail?
    ensures Plays(env, t, ms)
    ensures var u := Played(env, t, ms); TaskOk(env, fs, u) && u.pc == At(|fs|) && Untouched(fs, u)
    decreases |fs| - t.pc.i
  {
    if t.pc.i == |fs| {
      ms := [];
    } else {
      var i, u := t.pc.i, Do(env, t, Own);
      OwnKeepsOk(env, fs, t);
      assert CellOk(env, fs[i], t.cells[i], false, false);
      ActionOfCell(env, fs[i], t.cells[i], false);
      var rest := OwnRun(env, fs, u);
      PlaysFirst(env, t, Own, rest);
      ms := [Own] + rest;
    }
  }

  /** Child j runs and is joined; if it need not fail and is to return nil, it does. */
  lemma {:induction false} ChildRun<X>(env: Env<X>, fs: seq<Field<X>>, t: Task<X>, j: nat, toNil: bool)
    returns (ms: seq<Move>)
    requires TaskOk(env, fs, t) && t.pc == At(|fs|) && Fresh(fs, t, j)
    requires toNil ==> !MustFail(env, fs[j].fields)
    ensures Plays(env, t, ms)
    ensures var u := Played(env, t, ms);
      && TaskOk(env, fs, u) && u.pc == t.pc && |u.cells| == |t.cells| && Joined(u, j)
      && (forall i | 0 <= i < |fs| && i != j :: u.cells[i] == t.cells[i])
      && ErrVar(u, !fs[j].pointer) == ErrVar(t, !fs[j].pointer)
      && (toNil ==> !ErrVar(u, fs[j].pointer))
    decreases fs, 0
  {
    assert CellOk(env, fs[j], t.cells[j], true, true);
    var inner;
    if toNil {
      inner := NilRun(env, fs[j].fields);
    } else {
      inner := FinishRun(env, fs[j].fields, t.cells[j].child);
    }
    var lifted := InnerRun(env, t, j, inner);
    var v := Played(env, t, lifted);
    PlayKeepsOk(env, fs, t, lifted);
    JoinKeepsOk(env, fs, v, j);
    PlaysOne(env, v, Join(j));
    PlaysCompose(env, t, lifted, [Join(j)]);
    ms := lifted + [Join(j)];
  }

  /** Every child but those set aside runs and is joined. */
  lemma {:induction false} OthersRun<X>(env: Env<X>, fs: seq<Field<X>>, t: Task<X>, from: nat, aside: set<nat>)
    returns (ms: seq<Move>)
    requires TaskOk(env, fs, t) && t.pc == At(|fs|) && from <= |fs|
    requires forall j: nat | j < |fs| && fs[j].Nested? ::
      if j >= from || j in aside then Fresh(fs, t, j) else Joined(t, j)
    ensures Plays(env, t, ms) && Waiting(env, fs, Played(env, t, ms), aside)
    decreases fs, 1, |fs| - from
  {
    if from == |fs| {
      ms := [];
    } else if from in aside || fs[from].Leaf? {
      ms := OthersRun(env, fs, t, from + 1, aside);
    } else {
      var first := ChildRun(env, fs, t, from, false);
      var u := Played(env, t, first);
      forall j: nat | j < |fs| && fs[j].Nested?
        ensures if j >= from + 1 || j in aside then Fresh(fs, u, j) else Joined(u, j)
      {
        assert j != from ==> u.cells[j] == t.cells[j];
      }
      var rest := OthersRun(env, fs, u, from + 1, aside);
      PlaysCompose(env, t, first, rest);
      ms := first + rest;
    }
  }

  /** The lucky child of one kind, if the kind occurs, is joined last of its kind and clears that error variable. */
  lemma {:induction false} LuckyRun<X>(env: Env<X>, fs: seq<Field<X>>, t: Task<X>, pointer: bool, aside: set<nat>)
    returns (ms: seq<Move>)
    requires Waiting(env, fs, t, aside) && !KindMustFail(env, fs, pointer) && Lucky(env, fs, pointer) <= aside
    ensures Plays(env, t, ms) && Waiting(env, fs, Played(env, t, ms), aside - Lucky(env, fs, pointer))
    ensures !ErrVar(Played(env, t, ms), pointer) && ErrVar(Played(env, t, ms), !pointer) == ErrVar(t, !pointer)
    decreases fs, 1, 0
  {
    var lucky := Lucky(env, fs, pointer);
    if j: nat :| j in lucky {
      ms := ChildRun(env, fs, t, j, true);
      var u := Played(env, t, ms);
      forall i: nat | i < |fs| && fs[i].Nested? ensures if i in aside - lucky then Fresh(fs, u, i) else Joined(u, i) {
        assert i != j ==> u.cells[i] == t.cells[i];
      }
    } else {
      ms := [];
      assert lucky == {} && aside - lucky == aside;
      NoneOfKind(env, fs, t, pointer);
    }
  }

  lemma NoneOfKind<X>(env: Env<X>, fs: seq<Field<X>>, t: Task<X>, pointer: bool)
    requires TaskOk(env, fs, t) && forall j: nat :: !OfKind(fs, j, pointer)
    ensures !ErrVar(t, pointer)
  {
    assert ErrVarOk(t, true) && ErrVarOk(t, false);
    forall j: nat ensures !JoinedChild(t, j, pointer) {
      if JoinedChild(t, j, pointer) {
        assert CellOk(env, fs[j], t.cells[j], j < Passed(t), Begun(t, j));
        assert OfKind(fs, j, pointer);
      }
    }
  }

  /** At wg.Wait with everything joined and both error variables nil, the scan returns nil. */
  lemma LastMove<X>(env: Env<X>, fs: seq<Field<X>>, t: Task<X>)
    requires Waiting(env, fs, t, {}) && !t.pointerErr && !t.structErr
    ensures Plays(env, t, [Own]) && Returned(Played(env, t, [Own])) && !Err(Played(env, t, [Own]))
  {
    forall j | 0 <= j < |t.cells| && t.cells[j].Sub? ensures t.cells[j].joined {
      assert CellOk(env, fs[j], t.cells[j], j < Passed(t), Begun(t, j));
      assert Joined(t, j);
    }
    PlaysOne(env, t, Own);
  }

  /** A scan that need not fail has a schedule in which it returns nil: the lucky children are joined last. */
  lemma {:induction false} NilRun<X>(env: Env<X>, fs: seq<Field<X>>) returns (ms: seq<Move>)
    requires !MustFail(env, fs)
    ensures Plays(env, NewTask(fs), ms)
    ensures Returned(Played(env, NewTask(fs), ms)) && !Err(Played(env, NewTask(fs), ms))
    decreases fs, 2
  {
    var t0 := NewTask(fs);
    var ps, qs := Lucky(env, fs, true), Lucky(env, fs, false);
    NewTaskOk(env, fs);
    assert forall j | 0 <= j < |fs| :: !ActionOn(env, fs[j]).Fail? by { ActionsAreRight(env, fs); }
    hide Plays, Played, TaskOk, MustFail, KindMustFail, Lucky, NewTask, NewCells;
    assert Untouched(fs, t0) by { NewIsUntouched(fs); }
    var own := OwnRun(env, fs, t0);
    var t1 := Played(env, t0, own);
    var others := OthersRun(env, fs, t1, 0, ps + qs);
    var t2 := Played(env, t1, others);
    var lastP := LuckyRun(env, fs, t2, true, ps + qs);
    var t3 := Played(env, t2, lastP);
    var lastQ := LuckyRun(env, fs, t3, false, ps + qs - ps);
    var t4 := Played(env, t3, lastQ);
    assert ps + qs - ps - qs == {};
    LastMove(env, fs, t4);
    PlaysCompose(env, t3, lastQ, [Own]);
    PlaysCompose(env, t2, lastP, lastQ + [Own]);
    PlaysCompose(env, t1, others, lastP + (lastQ + [Own]));
    ms := own + (others + (lastP + (lastQ + [Own])));
    PlaysCompose(env, t0, own, others + (lastP + (lastQ + [Own])));
  }

  lemma NewIsUntouched<X>(fs: seq<Field<X>>)
    ensures Untouched(fs, NewTask(fs)) && NewTask(fs).pc.At?
  {
  }

  /** One nested struct of the kind that need not fail, if the kind occurs at all. */
  ghost function Lucky<X>(env: Env<X>, fs: seq<Field<X>>, pointer: bool): (r: set<nat>)
    requires !KindMustFail(env, fs, pointer)
    ensures forall j: nat | j in r :: OfKind(fs, j, pointer) && !MustFail(env, fs[j].fields) && r == {j}
    ensures r == {} ==> forall j: nat :: !OfKind(fs, j, pointer)
  {
    if exists j: nat :: OfKind(fs, j, pointer) then
      var j: nat :| OfKind(fs, j, pointer) && !MustFail(env, fs[j].fields);
      {j}
    else {}
  }

  /**
   Parse reports an error under every schedule if and only if scanning must fail; and it can report one only
   if some variable fails.  In between, whether a nested failure is reported depends on the schedule.
   */
  lemma WhenParseReports<X>(env: Env<X>, fs: seq<Field<X>>)
    ensures MustFail(env, fs) <==>
      forall ms | Plays(env, NewTask(fs), ms) && Returned(Played(env, NewTask(fs), ms)) ::
        Err(Played(env, NewTask(fs), ms))
  {
    if MustFail(env, fs) {
      forall ms | Plays(env, NewTask(fs), ms) && Returned(Played(env, NewTask(fs), ms))
        ensures Err(Played(env, NewTask(fs), ms))
      {
        NewTaskOk(env, fs);
        PlayKeepsOk(env, fs, NewTask(fs), ms);
        ResultMeans(env, fs, Played(env, NewTask(fs), ms));
      }
    } else {
      var ms := NilRun(env, fs);
    }
  }

  /** Two sibling structs, the variable of the first not converting: Parse can return nil. */
  lemma FailureCanGoUnreported() returns (env: Env<int>, fs: seq<Field<int>>, ms: seq<Move>)
    ensures !AllConvert(env, fs) && !MustFail(env, fs)
    ensures Plays(env, NewTask(fs), ms) && Returned(Played(env, NewTask(fs), ms)) && !Err(Played(env, NewTask(fs), ms))
  {
    env := Env("", map["A" := "x"], (kind, s) => None);
    var bad, good := Leaf(Some("A"), Int, true, 0), Leaf(None, Int, true, 0);
    fs := [Nested(None, false, [bad]), Nested(None, false, [good])];
    SplitWithout("A", ',');
    assert Prefix(env) + "A" == "A";
    assert ActionOn(env, bad).Fail? && !ActionOn(env, good).Fail?;
    ActionIsRight(env, bad);
    ActionIsRight(env, good);
    hide Fails;
    assert !AllConvert(env, fs[0].fields) by { assert fs[0].fields[0] == bad; }
    assert !MustFail(env, fs[1].fields) by {
      forall j: nat, p: bool ensures !OfKind(fs[1].fields, j, p) {}
    }
    assert OfKind(fs, 1, false);
    forall j: nat ensures !OfKind(fs, j, true) {}
    forall j | 0 <= j < |fs| ensures !Fails(env, fs[j]) {
      ActionIsRight(env, fs[j]);
    }
    ms := NilRun(env, fs);
  }
}
