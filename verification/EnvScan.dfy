/** The loader's loops as the source runs them, over fields it sets in place. */
module EnvScan {
  import opened EnvLoader

  /** getFieldENV on field i: sets it, leaves it, or reports that it cannot be set or converted. */
  method GetField<X>(env: Env<X>, fields: array<Field<X>>, i: nat) returns (ok: bool)
    requires i < fields.Length
    modifies fields
    ensures ok <==> !Fails(env, old(fields[i]))
    ensures if old(fields[i]).Leaf? then Becomes(env, old(fields[i]), fields[i]) else fields[i] == old(fields[i])
    ensures forall j | 0 <= j < fields.Length && j != i :: fields[j] == old(fields[j])
    ensures fields[i] == if ok then OwnLoaded(env, old(fields[i])) else old(fields[i])
  {
    var f := fields[i];
    ActionIsRight(env, f);
    hide Fails, Becomes;
    var name := Variable(env, f.tag);
    if name.None? || name.value !in env.vars {
      return true;
    }
    if f.Nested? || !f.canSet || f.kind.Unsupported? {
      return false;
    }
    var x := env.convert(f.kind, env.vars[name.value]);
    if x.None? {
      return false;
    }
    fields[i] := f.(value := x.value);
    return true;
  }

  /** What the struct's own scan makes of a field; what is inside a nested struct is its own goroutine's. */
  function OwnLoaded<X>(env: Env<X>, f: Field<X>): Field<X> {
    if f.Leaf? then Loaded(env, f) else f
  }

  /** The nested structs among the first n fields, in order. */
  function NestedBelow<X>(fs: seq<Field<X>>, n: nat): seq<nat>
    requires n <= |fs|
  {
    if n == 0 then [] else NestedBelow(fs, n - 1) + (if fs[n - 1].Nested? then [n - 1] else [])
  }

  lemma {:induction false} NestedBelowMembers<X>(fs: seq<Field<X>>, n: nat, j: nat)
    requires n <= |fs|
    ensures j in NestedBelow(fs, n) <==> j < n && fs[j].Nested?
  {
    if n > 0 {
      NestedBelowMembers(fs, n - 1, j);
    }
  }

  /**
   scanStructENV up to wg.Wait: in field order, start a goroutine for each nested struct and load each tagged
   field, returning at the first field that fails, with the goroutines started so far still running.
   */
  method ScanStruct<X>(env: Env<X>, fields: array<Field<X>>) returns (ok: bool, i: nat, started: seq<nat>)
    modifies fields
    ensures i <= fields.Length && (ok <==> i == fields.Length)
    ensures forall j | 0 <= j < i ::
      !Fails(env, old(fields[j])) && fields[j] == OwnLoaded(env, old(fields[j]))
    ensures forall j | i <= j < fields.Length :: fields[j] == old(fields[j])
    ensures forall j | 0 <= j < i && old(fields[j]).Leaf? :: Becomes(env, old(fields[j]), fields[j])
    ensures !ok ==> Fails(env, old(fields[i]))
    ensures started == NestedBelow(old(fields[..]), if ok then i else i + 1)
  {
    hide Fails, Becomes, OwnLoaded;
    ok, started := true, [];
    i := 0;
    while i < fields.Length
      invariant i <= fields.Length && ok
      invariant forall j | 0 <= j < i ::
        !Fails(env, old(fields[j])) && fields[j] == OwnLoaded(env, old(fields[j]))
      invariant forall j | 0 <= j < i && old(fields[j]).Leaf? :: Becomes(env, old(fields[j]), fields[j])
      invariant forall j | i <= j < fields.Length :: fields[j] == old(fields[j])
      invariant started == NestedBelow(old(fields[..]), i)
    {
      if fields[i].Nested? {
        started := started + [i];
      }
      ok := GetField(env, fields, i);
      if !ok {
        return;
      }
      i := i + 1;
    }
  }

  ghost function OwnMoves<X>(env: Env<X>, t: Task<X>, n: nat): Task<X> {
    if n == 0 then t else
      var u := OwnMoves(env, t, n - 1);
      if Can(u, Own) then Do(env, u, Own) else u
  }

  /** The field that fails starts its child, if it is a nested struct, and stops the scan. */
  ghost predicate FailsAt<X>(env: Env<X>, fs: seq<Field<X>>, u: Task<X>, i: nat)
    requires i < |fs|
  {
    && Can(u, Own) && Do(env, u, Own).pc == Failed(i)
    && |Do(env, u, Own).cells| == |fs|
    && (fs[i].Nested? ==> Do(env, u, Own).cells[i].Sub? && Do(env, u, Own).cells[i].started)
  }

  lemma CellsOfOwnMoves<X>(env: Env<X>, fs: seq<Field<X>>, u: Task<X>, i: nat)
    requires TaskOk(env, fs, u) && u.pc == At(i) && i <= |fs|
    ensures forall j | 0 <= j < |fs| && fs[j].Leaf? ::
      u.cells[j] == Plain(if j < i then OwnLoaded(env, fs[j]) else fs[j])
    ensures forall j | 0 <= j < |fs| && fs[j].Nested? ::
      u.cells[j].Sub? && (u.cells[j].started <==> j in NestedBelow(fs, i))
    ensures i < |fs| && Fails(env, fs[i]) ==> FailsAt(env, fs, u, i)
  {
    ActionsAreRight(env, fs);
    hide Fails;
    forall j | 0 <= j < |fs|
      ensures CellOk(env, fs[j], u.cells[j], j < i, j < i)
      ensures j in NestedBelow(fs, i) <==> j < i && fs[j].Nested?
    {
      NestedBelowMembers(fs, i, j);
      assert CellOk(env, fs[j], u.cells[j], j < Passed(u), Begun(u, j));
    }
    if i < |fs| {
      ActionOfCell(env, fs[i], u.cells[i], false);
    }
  }

  /**
   ScanStruct is the goroutine's own moves.  After i fields the task's leaves are what the loop has left in
   them and the children started are those the loop has listed, and the task fails where the loop does.
   */
  lemma {:induction false} ScanStructIsOwnMoves<X>(env: Env<X>, fs: seq<Field<X>>, t: Task<X>, i: nat)
    requires TaskOk(env, fs, t) && t.pc == At(0) && i <= |fs|
    requires forall j | 0 <= j < i :: !Fails(env, fs[j])
    ensures var u := OwnMoves(env, t, i);
      && TaskOk(env, fs, u) && u.pc == At(i)
      && (forall j | 0 <= j < |fs| && fs[j].Leaf? ::
            u.cells[j] == Plain(if j < i then OwnLoaded(env, fs[j]) else fs[j]))
      && (forall j | 0 <= j < |fs| && fs[j].Nested? ::
            u.cells[j].Sub? && (u.cells[j].started <==> j in NestedBelow(fs, i)))
      && (i < |fs| && Fails(env, fs[i]) ==> FailsAt(env, fs, u, i))
  {
    ActionsAreRight(env, fs);
    hide Fails;
    if i > 0 {
      ScanStructIsOwnMoves(env, fs, t, i - 1);
      var u := OwnMoves(env, t, i - 1);
      OwnKeepsOk(env, fs, u);
      assert CellOk(env, fs[i - 1], u.cells[i - 1], false, Begun(u, i - 1));
      ActionOfCell(env, fs[i - 1], u.cells[i - 1], false);
    }
    CellsOfOwnMoves(env, fs, OwnMoves(env, t, i), i);
  }
}
