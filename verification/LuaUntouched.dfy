/** Cells that code leaves alone. */
module LuaUntouched {
  // A `for` loop keeps values in cells that its body may read.  Whether a run of the body writes them
  // is a matter of that run; here is also a check on the code alone.

  import opened LuaIr
  import opened LuaClone
  import opened LuaCells

  /** This run does not write the cells, should it come to the end of the code. */
  ghost predicate Leaves(sem: Sem, cells: set<Loc>, ops: seq<Op>, s: St, f: nat) {
    var o := ExecOps(sem, ops, s, f);
    o.Normal? ==> Kept(cells, s.w, o.st.w)
  }

  /** Runs that differ in added values only leave the same other cells alone. */
  lemma LeavesSame(sem: Sem, a: Added, cells: set<Loc>, ops: seq<Op>, s: St, s': St, f: nat)
    requires Foreign(sem, a, ops) && Same(a, s, s') && cells !! a.cells && Leaves(sem, cells, ops, s, f)
    ensures Leaves(sem, cells, ops, s', f)
  {
    OpsSame(sem, a, ops, s, s', f);
    hide ExecOps, Foreign;
  }

  // ----- A check on the code

  /** Ops of this kind never write the cells. */
  ghost predicate Quiet(sem: Sem, cells: set<Loc>, kind: nat) {
    forall locs, w :: Kept(cells, w, sem.effect(kind, locs, w))
  }

  /** Ops of this kind write none of the cells but the one that their first operand is, as `lua.copy`
      does. */
  ghost predicate WritesFirst(sem: Sem, cells: set<Loc>, kind: nat) {
    forall locs, w :: Arg(locs, 0) !in cells ==> Kept(cells, w, sem.effect(kind, locs, w))
  }

  /** Results are other cells, be they new ones or not. */
  ghost predicate Elsewhere(sem: Sem, a: Added, kind: nat) {
    forall locs, w, i: nat :: There(a, w) ==> sem.result(kind, locs, w, i) !in a.cells
  }

  /** None of the ops writes through one of the names.  They may be read. */
  ghost predicate Mild(sem: Sem, a: Added, ops: seq<Op>)
    decreases ops, 0
  {
    ops == [] || (MildOp(sem, a, ops[0]) && Mild(sem, a, ops[1..]))
  }

  ghost predicate MildOp(sem: Sem, a: Added, op: Op)
    decreases op, 1
  {
    match op
    case Prim(kind, res, args) =>
      && (res == [] || Elsewhere(sem, a, kind))
      && (Quiet(sem, a.cells, kind) || (WritesFirst(sem, a.cells, kind) && args != [] && args[0] !in a.names))
    case CondIf(_, x, y) => Mild(sem, a, x.ops) && Mild(sem, a, y.ops)
    case LoopWhile(x, y) => Mild(sem, a, x.ops) && Mild(sem, a, y.ops)
    case Repeat(x, y) => Mild(sem, a, x.ops) && Mild(sem, a, y.ops)
  }

  lemma {:induction false} BindOutside(a: Added, env: map<Name, Loc>, res: seq<Name>, r: nat -> Loc)
    requires Outside(a, env) && forall i: nat :: r(i) !in a.cells
    ensures Outside(a, Bind(env, res, r))
    decreases |res|
  {
    if res != [] {
      BindOutside(a, env, res[..|res| - 1], r);
    }
  }

  lemma PrimLeaves(sem: Sem, a: Added, op: Op, s: St, f: nat)
    requires op.Prim? && MildOp(sem, a, op) && Outside(a, s.env) && There(a, s.w)
    ensures var o := ExecOp(sem, op, s, f); o.Normal? ==> Kept(a.cells, s.w, o.st.w) && Outside(a, o.st.env)
  {
    var locs := Locs(s.env, op.args);
    if op.res != [] {
      BindOutside(a, s.env, op.res, i => sem.result(op.kind, locs, s.w, i));
    }
    if op.args != [] && op.args[0] !in a.names {
      assert Arg(locs, 0) == Get(s.env, op.args[0]);
    }
  }

  /** Started where no other name leads to the cells, such code leaves them alone, and no other name
      leads to them afterwards. */
  lemma {:induction false} MildLeaves(sem: Sem, a: Added, ops: seq<Op>, s: St, f: nat)
    requires Mild(sem, a, ops) && Outside(a, s.env) && There(a, s.w)
    ensures Leaves(sem, a.cells, ops, s, f)
    ensures var o := ExecOps(sem, ops, s, f); o.Normal? ==> Outside(a, o.st.env)
    decreases f, ops, 0
  {
    hide Outside, MildOp;
    KeptSelf(a.cells, s.w);
    if ops != [] {
      MildOpLeaves(sem, a, ops[0], s, f);
      var o := ExecOp(sem, ops[0], s, f);
      if o.Normal? {
        MildLeaves(sem, a, ops[1..], o.st, f);
        var r := ExecOps(sem, ops[1..], o.st, f);
        if r.Normal? {
          KeptTransitive(a.cells, s.w, o.st.w, r.st.w);
        }
      }
    }
  }

  lemma KeptSelf(cells: set<Loc>, w: World)
    ensures Kept(cells, w, w)
  {
  }

  lemma {:induction false} MildOpLeaves(sem: Sem, a: Added, op: Op, s: St, f: nat)
    requires MildOp(sem, a, op) && Outside(a, s.env) && There(a, s.w)
    ensures var o := ExecOp(sem, op, s, f); o.Normal? ==> Kept(a.cells, s.w, o.st.w) && Outside(a, o.st.env)
    decreases f, op, 1
  {
    match op
    case Prim(_, _, _) => PrimLeaves(sem, a, op, s, f);
    case CondIf(c, x, y) =>
      hide Outside, Kept;
      MildLeaves(sem, a, (if Test(s, c) then x else y).ops, s, f);
    case LoopWhile(x, y) => BothLeave(sem, a, op, x, y, s, f);
    case Repeat(x, y) => BothLeave(sem, a, op, x, y, s, f);
  }

  /** One turn of a loop, and the turns after it. */
  lemma {:induction false} BothLeave(sem: Sem, a: Added, op: Op, x: Block, y: Block, s: St, f: nat)
    requires op == LoopWhile(x, y) || op == Repeat(x, y)
    requires MildOp(sem, a, op) && Outside(a, s.env) && There(a, s.w)
    ensures var o := ExecOp(sem, op, s, f); o.Normal? ==> Kept(a.cells, s.w, o.st.w) && Outside(a, o.st.env)
    decreases f, op, 0
  {
    assert Mild(sem, a, x.ops) && Mild(sem, a, y.ops);
    hide Outside, Mild, MildOp, Kept, Test;
    if f > 0 {
      MildLeaves(sem, a, x.ops, s, f);
      var o := ExecOps(sem, x.ops, s, f);
      if o.Normal? {
        MildLeaves(sem, a, y.ops, o.st, f);
        var q := ExecOps(sem, y.ops, o.st, f);
        if q.Normal? {
          MildOpLeaves(sem, a, op, q.st, f - 1);
          KeptTransitive(a.cells, s.w, o.st.w, q.st.w);
          var r := ExecOp(sem, op, q.st, f - 1);
          if r.Normal? {
            KeptTransitive(a.cells, s.w, q.st.w, r.st.w);
          }
        }
      }
    }
  }
}
