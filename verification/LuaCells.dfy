/** Code that stays away from the cells a pattern adds. */
module LuaCells {
  // A pattern that lowers a loop adds ops whose results live in cells of their own.  Code that never
  // names those values runs alike whatever the added cells hold, and leaves them alone.

  import opened LuaIr
  import opened LuaClone

  function Read(w: World, l: Loc): Val { if l < |w.heap| then w.heap[l] else Nil }

  function Put(w: World, l: Loc, v: Val): World { if l < |w.heap| then w.(heap := w.heap[l := v]) else w }

  function Arg(locs: seq<Loc>, i: nat): Loc { if i < |locs| then locs[i] else 0 }

  /** The names and the cells of the added values. */
  datatype Added = Added(names: set<Name>, cells: set<Loc>)

  ghost predicate WorldSame(a: Added, w: World, w': World) {
    && |w.heap| == |w'.heap| && w.out == w'.out
    && forall l :: 0 <= l < |w.heap| && l !in a.cells ==> w.heap[l] == w'.heap[l]
  }

  /** No other name leads to an added cell. */
  ghost predicate Outside(a: Added, env: map<Name, Loc>) {
    forall x: Name :: x !in a.names ==> Get(env, x) !in a.cells
  }

  ghost predicate EnvSame(a: Added, env: map<Name, Loc>, env': map<Name, Loc>) {
    forall x: Name :: x !in a.names ==> Get(env, x) == Get(env', x)
  }

  /** The added cells have been allocated, so no op hands one of them out as a new one. */
  predicate There(a: Added, w: World) { forall l :: l in a.cells ==> l < |w.heap| }

  /** Equal but for the added values, which cannot be reached in another way. */
  ghost predicate Same(a: Added, s: St, s': St) {
    WorldSame(a, s.w, s'.w) && EnvSame(a, s.env, s'.env) && Outside(a, s.env) && There(a, s.w)
  }

  ghost predicate OutSame(a: Added, o: Out, o': Out) {
    match o
    case Normal(s) => o'.Normal? && Same(a, s, o'.st)
    case Returned(vals, w) => o'.Returned? && o'.vals == vals && WorldSame(a, w, o'.w)
    case _ => o' == o
  }

  predicate Kept(cells: set<Loc>, w: World, w': World) {
    |w.heap| <= |w'.heap| && forall l :: l in cells && l < |w.heap| ==> w'.heap[l] == w.heap[l]
  }

  /** The ops of these kinds neither read nor write the added cells, and do not hand them out. */
  ghost predicate Apart(sem: Sem, kinds: set<nat>, a: Added) {
    forall kind, locs, w, w' :: kind in kinds && WorldSame(a, w, w') && There(a, w) && Avoids(a, locs)
      ==> StepsApart(sem, a, kind, locs, w, w')
  }

  predicate Avoids(a: Added, locs: seq<Loc>) { forall i :: 0 <= i < |locs| ==> locs[i] !in a.cells }

  ghost predicate StepsApart(sem: Sem, a: Added, kind: nat, locs: seq<Loc>, w: World, w': World) {
    && sem.ending(kind, locs, w) == sem.ending(kind, locs, w')
    && (forall i: nat ::
          sem.result(kind, locs, w, i) == sem.result(kind, locs, w', i) && sem.result(kind, locs, w, i) !in a.cells)
    && WorldSame(a, sem.effect(kind, locs, w), sem.effect(kind, locs, w'))
    && Kept(a.cells, w, sem.effect(kind, locs, w)) && Kept(a.cells, w', sem.effect(kind, locs, w'))
  }

  function OpKinds(op: Op): set<nat>
    decreases op, 1
  {
    match op
    case Prim(kind, _, _) => {kind}
    case CondIf(_, a, b) => OpsKinds(a.ops) + OpsKinds(b.ops)
    case LoopWhile(a, b) => OpsKinds(a.ops) + OpsKinds(b.ops)
    case Repeat(a, b) => OpsKinds(a.ops) + OpsKinds(b.ops)
  }

  function OpsKinds(ops: seq<Op>): set<nat>
    decreases ops, 0
  {
    if ops == [] then {} else OpKinds(ops[0]) + OpsKinds(ops[1..])
  }

  /** Code that does not name the added values. */
  ghost predicate Foreign(sem: Sem, a: Added, ops: seq<Op>) {
    OpsNames(ops) !! a.names && Apart(sem, OpsKinds(ops), a) && 0 !in a.cells
  }

  ghost predicate ForeignOp(sem: Sem, a: Added, op: Op) {
    OpNames(op) !! a.names && Apart(sem, OpKinds(op), a) && 0 !in a.cells
  }

  /** The same of the two regions of an op. */
  lemma PartsForeign(sem: Sem, a: Added, op: Op, x: Block, y: Block)
    requires ForeignOp(sem, a, op)
    requires match op case CondIf(_, b, c) => (b, c) == (x, y) case LoopWhile(b, c) => (b, c) == (x, y)
                      case Repeat(b, c) => (b, c) == (x, y) case _ => false
    ensures Foreign(sem, a, x.ops) && Foreign(sem, a, y.ops)
    ensures TermNames(x.term) !! a.names && TermNames(y.term) !! a.names
  {
    hide StepsApart, WorldSame, Avoids;
  }

  lemma LocsSame(a: Added, s: St, s': St, xs: seq<Name>)
    requires Same(a, s, s') && SeqNames(xs) !! a.names
    ensures Locs(s.env, xs) == Locs(s'.env, xs) && Avoids(a, Locs(s.env, xs))
  {
    forall i | 0 <= i < |xs|
      ensures Get(s.env, xs[i]) == Get(s'.env, xs[i]) && Get(s.env, xs[i]) !in a.cells
    {
      assert xs[i] in SeqNames(xs);
    }
  }

  lemma {:induction false} BindSame(a: Added, env: map<Name, Loc>, env': map<Name, Loc>, res: seq<Name>, r: nat -> Loc,
      r': nat -> Loc)
    requires EnvSame(a, env, env') && Outside(a, env) && forall i: nat :: r(i) == r'(i) && r(i) !in a.cells
    ensures EnvSame(a, Bind(env, res, r), Bind(env', res, r')) && Outside(a, Bind(env, res, r))
    decreases |res|
  {
    if res != [] {
      BindSame(a, env, env', res[..|res| - 1], r, r');
    }
  }

  lemma PrimSame(sem: Sem, a: Added, kind: nat, res: seq<Name>, args: seq<Name>, s: St, s': St)
    requires ForeignOp(sem, a, Prim(kind, res, args)) && Same(a, s, s')
    ensures OutSame(a, ExecPrim(sem, kind, res, args, s), ExecPrim(sem, kind, res, args, s'))
    ensures Kept(a.cells, s.w, sem.effect(kind, Locs(s.env, args), s.w))
  {
    LocsSame(a, s, s', args);
    var locs := Locs(s.env, args);
    assert StepsApart(sem, a, kind, locs, s.w, s'.w);
    BindSame(a, s.env, s'.env, res, i => sem.result(kind, locs, s.w, i), i => sem.result(kind, locs, s'.w, i));
  }

  /** Foreign code runs alike on states that differ in the added values only. */
  lemma {:induction false} OpsSame(sem: Sem, a: Added, ops: seq<Op>, s: St, s': St, f: nat)
    requires Foreign(sem, a, ops) && Same(a, s, s')
    ensures OutSame(a, ExecOps(sem, ops, s, f), ExecOps(sem, ops, s', f))
    decreases f, ops, 0
  {
    if ops != [] {
      OpSame(sem, a, ops[0], s, s', f);
      var o, o' := ExecOp(sem, ops[0], s, f), ExecOp(sem, ops[0], s', f);
      if o.Normal? {
        OpsSame(sem, a, ops[1..], o.st, o'.st, f);
      }
    }
  }

  lemma TestSame(a: Added, s: St, s': St, c: Name)
    requires Same(a, s, s') && c !in a.names
    ensures Test(s, c) == Test(s', c)
  {
    assert Get(s.env, c) !in a.cells;
  }

  lemma {:induction false} OpSame(sem: Sem, a: Added, op: Op, s: St, s': St, f: nat)
    requires ForeignOp(sem, a, op) && Same(a, s, s')
    ensures OutSame(a, ExecOp(sem, op, s, f), ExecOp(sem, op, s', f))
    decreases f, op, 1
  {
    match op
    case Prim(kind, res, args) => PrimSame(sem, a, kind, res, args, s, s');
    case CondIf(c, x, y) =>
      TestSame(a, s, s', c);
      ArmSame(sem, a, if Test(s, c) then x else y, s, s', f);
    case LoopWhile(_, _) => LoopSame(sem, a, op, s, s', f);
    case Repeat(_, _) => RepeatSame(sem, a, op, s, s', f);
  }

  lemma {:induction false} ArmSame(sem: Sem, a: Added, b: Block, s: St, s': St, f: nat)
    requires Foreign(sem, a, b.ops) && TermNames(b.term) !! a.names && Same(a, s, s')
    ensures OutSame(a, ExecArm(sem, b, s, f), ExecArm(sem, b, s', f))
    decreases f, b, 1
  {
    OpsSame(sem, a, b.ops, s, s', f);
    var o, o' := ExecOps(sem, b.ops, s, f), ExecOps(sem, b.ops, s', f);
    if o.Normal? && b.term.Ret? {
      LocsSame(a, o.st, o'.st, b.term.vals);
    }
  }

  lemma {:induction false} LoopSame(sem: Sem, a: Added, op: Op, s: St, s': St, f: nat)
    requires op.LoopWhile? && ForeignOp(sem, a, op) && Same(a, s, s')
    ensures OutSame(a, ExecOp(sem, op, s, f), ExecOp(sem, op, s', f))
    decreases f, op, 0
  {
    hide Same, Foreign, ForeignOp, Test, WorldSame;
    var e, b := op.eval, op.body;
    PartsForeign(sem, a, op, e, b);
    if f > 0 {
      OpsSame(sem, a, e.ops, s, s', f);
      var o, o' := ExecOps(sem, e.ops, s, f), ExecOps(sem, e.ops, s', f);
      if o.Normal? && e.term.Cond? {
        TestSame(a, o.st, o'.st, e.term.c);
        if Test(o.st, e.term.c) {
          OpsSame(sem, a, b.ops, o.st, o'.st, f);
          var q, q' := ExecOps(sem, b.ops, o.st, f), ExecOps(sem, b.ops, o'.st, f);
          if q.Normal? && b.term.End? {
            OpSame(sem, a, op, q.st, q'.st, f - 1);
          }
        }
      }
    }
  }

  lemma {:induction false} RepeatSame(sem: Sem, a: Added, op: Op, s: St, s': St, f: nat)
    requires op.Repeat? && ForeignOp(sem, a, op) && Same(a, s, s')
    ensures OutSame(a, ExecOp(sem, op, s, f), ExecOp(sem, op, s', f))
    decreases f, op, 0
  {
    hide Same, Foreign, ForeignOp, Test, WorldSame;
    var e, b := op.eval, op.body;
    PartsForeign(sem, a, op, b, e);
    if f > 0 {
      OpsSame(sem, a, b.ops, s, s', f);
      var o, o' := ExecOps(sem, b.ops, s, f), ExecOps(sem, b.ops, s', f);
      if o.Normal? && b.term.Until? {
        OpsSame(sem, a, e.ops, o.st, o'.st, f);
        var q, q' := ExecOps(sem, e.ops, o.st, f), ExecOps(sem, e.ops, o'.st, f);
        if q.Normal? && e.term.Cond? {
          TestSame(a, q.st, q'.st, e.term.c);
          if !Test(q.st, e.term.c) {
            OpSame(sem, a, op, q.st, q'.st, f - 1);
          }
        }
      }
    }
  }

  // ----- What code leaves as it was

  lemma KeptTransitive(cells: set<Loc>, w0: World, w1: World, w2: World)
    requires Kept(cells, w0, w1) && Kept(cells, w1, w2)
    ensures Kept(cells, w0, w2)
  {
  }

  lemma SameSelf(a: Added, s: St)
    requires Outside(a, s.env) && There(a, s.w)
    ensures Same(a, s, s)
  {
  }

  /** Foreign code leaves the added cells alone, and names keep leading elsewhere. */
  lemma {:induction false} OpsKeep(sem: Sem, a: Added, ops: seq<Op>, s: St, f: nat)
    requires Foreign(sem, a, ops) && Outside(a, s.env) && There(a, s.w)
    ensures var o := ExecOps(sem, ops, s, f); o.Normal? ==> Kept(a.cells, s.w, o.st.w) && Outside(a, o.st.env)
    decreases f, ops, 0
  {
    if ops != [] {
      OpKeeps(sem, a, ops[0], s, f);
      var o := ExecOp(sem, ops[0], s, f);
      if o.Normal? {
        OpsKeep(sem, a, ops[1..], o.st, f);
        var r := ExecOps(sem, ops[1..], o.st, f);
        if r.Normal? {
          KeptTransitive(a.cells, s.w, o.st.w, r.st.w);
        }
      }
    }
  }

  lemma {:induction false} OpKeeps(sem: Sem, a: Added, op: Op, s: St, f: nat)
    requires ForeignOp(sem, a, op) && Outside(a, s.env) && There(a, s.w)
    ensures var o := ExecOp(sem, op, s, f); o.Normal? ==> Kept(a.cells, s.w, o.st.w) && Outside(a, o.st.env)
    decreases f, op, 1
  {
    match op
    case Prim(kind, res, args) =>
      SameSelf(a, s);
      PrimSame(sem, a, kind, res, args, s, s);
    case CondIf(c, x, y) =>
      hide Outside, Foreign, ForeignOp, Kept;
      PartsForeign(sem, a, op, x, y);
      OpsKeep(sem, a, (if Test(s, c) then x else y).ops, s, f);
    case LoopWhile(e, b) => BothKeep(sem, a, op, e, b, s, f);
    case Repeat(b, e) => BothKeep(sem, a, op, b, e, s, f);
  }

  /** One turn of a loop, and the turns after it. */
  lemma {:induction false} BothKeep(sem: Sem, a: Added, op: Op, x: Block, y: Block, s: St, f: nat)
    requires op == LoopWhile(x, y) || op == Repeat(x, y)
    requires ForeignOp(sem, a, op) && Outside(a, s.env) && There(a, s.w)
    ensures var o := ExecOp(sem, op, s, f); o.Normal? ==> Kept(a.cells, s.w, o.st.w) && Outside(a, o.st.env)
    decreases f, op, 0
  {
    hide Outside, Foreign, ForeignOp, Kept, Test;
    PartsForeign(sem, a, op, x, y);
    if f > 0 {
      OpsKeep(sem, a, x.ops, s, f);
      var o := ExecOps(sem, x.ops, s, f);
      if o.Normal? {
        OpsKeep(sem, a, y.ops, o.st, f);
        var q := ExecOps(sem, y.ops, o.st, f);
        if q.Normal? {
          OpKeeps(sem, a, op, q.st, f - 1);
          KeptTransitive(a.cells, s.w, o.st.w, q.st.w);
          var r := ExecOp(sem, op, q.st, f - 1);
          if r.Normal? {
            KeptTransitive(a.cells, s.w, q.st.w, r.st.w);
          }
        }
      }
    }
  }

  lemma {:induction false} BindOther(env: map<Name, Loc>, res: seq<Name>, r: nat -> Loc, x: Name)
    requires x !in res
    ensures Get(Bind(env, res, r), x) == Get(env, x)
    decreases |res|
  {
    if res != [] {
      BindOther(env, res[..|res| - 1], r, x);
    }
  }

  /** Code does not rebind a name that it does not define. */
  lemma {:induction false} OpsBind(sem: Sem, ops: seq<Op>, s: St, f: nat, x: Name)
    requires x !in OpsDefs(ops)
    ensures var o := ExecOps(sem, ops, s, f); o.Normal? ==> Get(o.st.env, x) == Get(s.env, x)
    decreases f, ops, 0
  {
    if ops != [] {
      OpBinds(sem, ops[0], s, f, x);
      var o := ExecOp(sem, ops[0], s, f);
      if o.Normal? {
        OpsBind(sem, ops[1..], o.st, f, x);
      }
    }
  }

  lemma {:induction false} OpBinds(sem: Sem, op: Op, s: St, f: nat, x: Name)
    requires x !in OpDefs(op)
    ensures var o := ExecOp(sem, op, s, f); o.Normal? ==> Get(o.st.env, x) == Get(s.env, x)
    decreases f, op, 1
  {
    match op
    case Prim(kind, res, args) =>
      assert x !in res;
      BindOther(s.env, res, i => sem.result(kind, Locs(s.env, args), s.w, i), x);
    case CondIf(c, y, z) => OpsBind(sem, (if Test(s, c) then y else z).ops, s, f, x);
    case LoopWhile(e, b) =>
      if f > 0 {
        OpsBind(sem, e.ops, s, f, x);
        var o := ExecOps(sem, e.ops, s, f);
        if o.Normal? {
          OpsBind(sem, b.ops, o.st, f, x);
          var q := ExecOps(sem, b.ops, o.st, f);
          if q.Normal? {
            OpBinds(sem, op, q.st, f - 1, x);
          }
        }
      }
    case Repeat(b, e) =>
      if f > 0 {
        OpsBind(sem, b.ops, s, f, x);
        var o := ExecOps(sem, b.ops, s, f);
        if o.Normal? {
          OpsBind(sem, e.ops, o.st, f, x);
          var q := ExecOps(sem, e.ops, o.st, f);
          if q.Normal? {
            OpBinds(sem, op, q.st, f - 1, x);
          }
        }
      }
  }
}
