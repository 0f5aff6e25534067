/** Copying a region: every value defined in it gets a fresh name, and the copied ops follow. */
module LuaClone {
  import opened LuaIr

  // ----- Names

  function SeqNames(xs: seq<Name>): set<Name> { set x | x in xs }

  /** Names defined by an op or anywhere inside its regions. */
  function OpDefs(op: Op): set<Name>
    decreases op, 1
  {
    match op
    case Prim(_, res, _) => SeqNames(res)
    case CondIf(_, a, b) => OpsDefs(a.ops) + OpsDefs(b.ops)
    case LoopWhile(a, b) => OpsDefs(a.ops) + OpsDefs(b.ops)
    case Repeat(a, b) => OpsDefs(a.ops) + OpsDefs(b.ops)
  }

  function OpsDefs(ops: seq<Op>): set<Name>
    decreases ops, 0
  {
    if ops == [] then {} else OpDefs(ops[0]) + OpsDefs(ops[1..])
  }

  function TermNames(t: Term): set<Name> {
    match t
    case Cond(c) => {c}
    case Ret(vs) => SeqNames(vs)
    case CondBr(c, _, _) => {c}
    case _ => {}
  }

  /** Every name mentioned, whether read or defined. */
  function OpNames(op: Op): set<Name>
    decreases op, 1
  {
    match op
    case Prim(_, res, args) => SeqNames(res) + SeqNames(args)
    case CondIf(c, a, b) => {c} + OpsNames(a.ops) + TermNames(a.term) + OpsNames(b.ops) + TermNames(b.term)
    case LoopWhile(a, b) => OpsNames(a.ops) + TermNames(a.term) + OpsNames(b.ops) + TermNames(b.term)
    case Repeat(a, b) => OpsNames(a.ops) + TermNames(a.term) + OpsNames(b.ops) + TermNames(b.term)
  }

  function OpsNames(ops: seq<Op>): set<Name>
    decreases ops, 0
  {
    if ops == [] then {} else OpNames(ops[0]) + OpsNames(ops[1..])
  }

  function BlockNames(b: Block): set<Name> {
    OpsNames(b.ops) + TermNames(b.term)
  }

  ghost predicate Below(xs: set<Name>, n: nat) { forall x :: x in xs ==> x < n }

  lemma {:induction false} OpsDefsInNames(ops: seq<Op>)
    ensures OpsDefs(ops) <= OpsNames(ops)
    decreases ops, 0
  {
    if ops != [] {
      OpDefsInNames(ops[0]);
      OpsDefsInNames(ops[1..]);
    }
  }

  lemma {:induction false} OpDefsInNames(op: Op)
    ensures OpDefs(op) <= OpNames(op)
    decreases op, 1
  {
    match op
    case Prim(_, _, _) =>
    case CondIf(_, a, b) => OpsDefsInNames(a.ops); OpsDefsInNames(b.ops);
    case LoopWhile(a, b) => OpsDefsInNames(a.ops); OpsDefsInNames(b.ops);
    case Repeat(a, b) => OpsDefsInNames(a.ops); OpsDefsInNames(b.ops);
  }

  lemma {:induction false} OpsNamesAppend(a: seq<Op>, c: seq<Op>)
    ensures OpsNames(a + c) == OpsNames(a) + OpsNames(c)
    ensures OpsDefs(a + c) == OpsDefs(a) + OpsDefs(c)
    decreases |a|
  {
    if a == [] {
      assert a + c == c;
    } else {
      assert (a + c)[1..] == a[1..] + c;
      OpsNamesAppend(a[1..], c);
    }
  }

  // ----- Renaming

  /** The names in `d` move up by `k`; all others stay. */
  function Ren(d: set<Name>, k: nat, x: Name): Name {
    if x in d then x + k else x
  }

  function RenSeq(d: set<Name>, k: nat, xs: seq<Name>): (r: seq<Name>)
    ensures |r| == |xs| && forall i :: 0 <= i < |xs| ==> r[i] == Ren(d, k, xs[i])
  {
    if xs == [] then [] else RenSeq(d, k, xs[..|xs| - 1]) + [Ren(d, k, xs[|xs| - 1])]
  }

  function RenTerm(d: set<Name>, k: nat, t: Term): Term {
    match t
    case Cond(c) => Cond(Ren(d, k, c))
    case Ret(vs) => Ret(RenSeq(d, k, vs))
    case CondBr(c, d1, d2) => CondBr(Ren(d, k, c), d1, d2)
    case _ => t
  }

  function RenOp(d: set<Name>, k: nat, op: Op): Op
    decreases op, 2
  {
    match op
    case Prim(kind, res, args) => Prim(kind, RenSeq(d, k, res), RenSeq(d, k, args))
    case CondIf(c, a, b) =>
      CondIf(Ren(d, k, c), Block(RenOps(d, k, a.ops), RenTerm(d, k, a.term)),
        Block(RenOps(d, k, b.ops), RenTerm(d, k, b.term)))
    case LoopWhile(a, b) =>
      LoopWhile(Block(RenOps(d, k, a.ops), RenTerm(d, k, a.term)), Block(RenOps(d, k, b.ops), RenTerm(d, k, b.term)))
    case Repeat(a, b) =>
      Repeat(Block(RenOps(d, k, a.ops), RenTerm(d, k, a.term)), Block(RenOps(d, k, b.ops), RenTerm(d, k, b.term)))
  }

  function RenOps(d: set<Name>, k: nat, ops: seq<Op>): seq<Op>
    decreases ops, 0
  {
    if ops == [] then [] else [RenOp(d, k, ops[0])] + RenOps(d, k, ops[1..])
  }

  function RenBlock(d: set<Name>, k: nat, b: Block): Block {
    Block(RenOps(d, k, b.ops), RenTerm(d, k, b.term))
  }

  function RenCfg(d: set<Name>, k: nat, g: Cfg): Cfg {
    map x | x in g :: RenBlock(d, k, g[x])
  }

  function Image(d: set<Name>, k: nat, xs: set<Name>): set<Name> {
    set x | x in xs :: Ren(d, k, x)
  }

  lemma {:induction false} RenOpsAppend(d: set<Name>, k: nat, a: seq<Op>, c: seq<Op>)
    ensures RenOps(d, k, a + c) == RenOps(d, k, a) + RenOps(d, k, c)
    decreases |a|
  {
    if a == [] {
      assert a + c == c;
    } else {
      assert (a + c)[1..] == a[1..] + c;
      RenOpsAppend(d, k, a[1..], c);
    }
  }

  /** Only the renamed names that code mentions matter to it. */
  lemma {:induction false} RenOpsSame(d1: set<Name>, d2: set<Name>, k: nat, ops: seq<Op>)
    requires forall x :: x in OpsNames(ops) ==> (x in d1 <==> x in d2)
    ensures RenOps(d1, k, ops) == RenOps(d2, k, ops)
    decreases ops, 0
  {
    if ops != [] {
      RenOpSame(d1, d2, k, ops[0]);
      RenOpsSame(d1, d2, k, ops[1..]);
    }
  }

  lemma {:induction false} RenBlockSame(d1: set<Name>, d2: set<Name>, k: nat, b: Block)
    requires forall x :: x in BlockNames(b) ==> (x in d1 <==> x in d2)
    ensures RenBlock(d1, k, b) == RenBlock(d2, k, b)
    decreases b, 1
  {
    RenOpsSame(d1, d2, k, b.ops);
    if b.term.Ret? {
      assert forall x :: x in b.term.vals ==> x in BlockNames(b);
      assert RenSeq(d1, k, b.term.vals) == RenSeq(d2, k, b.term.vals);
    }
  }

  lemma {:induction false} RenOpSame(d1: set<Name>, d2: set<Name>, k: nat, op: Op)
    requires forall x :: x in OpNames(op) ==> (x in d1 <==> x in d2)
    ensures RenOp(d1, k, op) == RenOp(d2, k, op)
    decreases op, 2
  {
    match op
    case Prim(_, res, args) =>
      assert forall x :: x in res || x in args ==> x in OpNames(op);
      assert RenSeq(d1, k, res) == RenSeq(d2, k, res) && RenSeq(d1, k, args) == RenSeq(d2, k, args);
    case CondIf(_, a, b) => RenBlockSame(d1, d2, k, a); RenBlockSame(d1, d2, k, b);
    case LoopWhile(a, b) => RenBlockSame(d1, d2, k, a); RenBlockSame(d1, d2, k, b);
    case Repeat(a, b) => RenBlockSame(d1, d2, k, a); RenBlockSame(d1, d2, k, b);
  }

  lemma {:induction false} RenOpsNothing(k: nat, ops: seq<Op>)
    ensures RenOps({}, k, ops) == ops
    decreases ops, 0
  {
    if ops != [] {
      RenOpNothing(k, ops[0]);
      RenOpsNothing(k, ops[1..]);
    }
  }

  lemma {:induction false} RenBlockNothing(k: nat, b: Block)
    ensures RenBlock({}, k, b) == b
    decreases b, 1
  {
    RenOpsNothing(k, b.ops);
    if b.term.Ret? {
      assert RenSeq({}, k, b.term.vals) == b.term.vals;
    }
  }

  lemma {:induction false} RenOpNothing(k: nat, op: Op)
    ensures RenOp({}, k, op) == op
    decreases op, 2
  {
    match op
    case Prim(_, res, args) =>
      assert RenSeq({}, k, res) == res && RenSeq({}, k, args) == args;
    case CondIf(_, a, b) => RenBlockNothing(k, a); RenBlockNothing(k, b);
    case LoopWhile(a, b) => RenBlockNothing(k, a); RenBlockNothing(k, b);
    case Repeat(a, b) => RenBlockNothing(k, a); RenBlockNothing(k, b);
  }

  // ----- A renamed program does what the program does

  /** `s'` binds the new name of every name below `n` to the cell the old name has in `s`. */
  ghost predicate StRel(d: set<Name>, k: nat, n: nat, s: St, s': St) {
    s.w == s'.w && forall x: Name :: x < n ==> Get(s'.env, Ren(d, k, x)) == Get(s.env, x)
  }

  ghost predicate OutRel(d: set<Name>, k: nat, n: nat, o: Out, o': Out) {
    if o.Normal? then o'.Normal? && StRel(d, k, n, o.st, o'.st) else o' == o
  }

  lemma RenLocs(d: set<Name>, k: nat, n: nat, s: St, s': St, xs: seq<Name>)
    requires StRel(d, k, n, s, s') && Below(SeqNames(xs), n)
    ensures Locs(s'.env, RenSeq(d, k, xs)) == Locs(s.env, xs)
  {
    forall i | 0 <= i < |xs|
      ensures Locs(s'.env, RenSeq(d, k, xs))[i] == Locs(s.env, xs)[i]
    {
      assert xs[i] in SeqNames(xs);
    }
  }

  lemma {:induction false} RenBind(d: set<Name>, k: nat, n: nat, s: St, s': St, res: seq<Name>, result: nat -> Loc)
    requires n <= k && StRel(d, k, n, s, s') && Below(SeqNames(res), n)
    ensures forall x: Name :: x < n ==>
              Get(Bind(s'.env, RenSeq(d, k, res), result), Ren(d, k, x)) == Get(Bind(s.env, res, result), x)
    decreases |res|
  {
    if res != [] {
      var m := |res| - 1;
      assert res[m] in SeqNames(res);
      assert SeqNames(res[..m]) <= SeqNames(res);
      assert RenSeq(d, k, res)[..m] == RenSeq(d, k, res[..m]);
      RenBind(d, k, n, s, s', res[..m], result);
    }
  }

  lemma {:induction false} RenExecOps(sem: Sem, d: set<Name>, k: nat, n: nat, ops: seq<Op>, s: St, s': St, f: nat)
    requires n <= k && StRel(d, k, n, s, s') && Below(OpsNames(ops), n)
    ensures OutRel(d, k, n, ExecOps(sem, ops, s, f), ExecOps(sem, RenOps(d, k, ops), s', f))
    decreases f, ops, 0
  {
    if ops != [] {
      assert RenOps(d, k, ops)[1..] == RenOps(d, k, ops[1..]);
      RenExecOp(sem, d, k, n, ops[0], s, s', f);
      var o := ExecOp(sem, ops[0], s, f);
      if o.Normal? {
        RenExecOps(sem, d, k, n, ops[1..], o.st, ExecOp(sem, RenOp(d, k, ops[0]), s', f).st, f);
      }
    }
  }

  lemma RenExecPrim(sem: Sem, d: set<Name>, k: nat, n: nat, op: Op, s: St, s': St, f: nat)
    requires n <= k && StRel(d, k, n, s, s') && Below(OpNames(op), n) && op.Prim?
    ensures OutRel(d, k, n, ExecOp(sem, op, s, f), ExecOp(sem, RenOp(d, k, op), s', f))
  {
    RenLocs(d, k, n, s, s', op.args);
    var locs := Locs(s.env, op.args);
    RenBind(d, k, n, s, s', op.res, i => sem.result(op.kind, locs, s.w, i));
  }

  lemma RenTest(d: set<Name>, k: nat, n: nat, s: St, s': St, c: Name)
    requires StRel(d, k, n, s, s') && c < n
    ensures Test(s', Ren(d, k, c)) == Test(s, c)
  {
  }

  lemma {:induction false} RenExecOp(sem: Sem, d: set<Name>, k: nat, n: nat, op: Op, s: St, s': St, f: nat)
    requires n <= k && StRel(d, k, n, s, s') && Below(OpNames(op), n)
    ensures OutRel(d, k, n, ExecOp(sem, op, s, f), ExecOp(sem, RenOp(d, k, op), s', f))
    decreases f, op, 1
  {
    match op
    case Prim(_, _, _) => RenExecPrim(sem, d, k, n, op, s, s', f);
    case CondIf(c, a, b) =>
      RenTest(d, k, n, s, s', c);
      hide StRel, Test, ExecArm;
      RenExecArm(sem, d, k, n, if Test(s, c) then a else b, s, s', f);
    case LoopWhile(_, _) => RenExecWhile(sem, d, k, n, op, s, s', f);
    case Repeat(_, _) => RenExecRepeat(sem, d, k, n, op, s, s', f);
  }

  lemma {:induction false} RenExecWhile(sem: Sem, d: set<Name>, k: nat, n: nat, op: Op, s: St, s': St, f: nat)
    requires n <= k && StRel(d, k, n, s, s') && Below(OpNames(op), n) && op.LoopWhile?
    ensures OutRel(d, k, n, ExecOp(sem, op, s, f), ExecOp(sem, RenOp(d, k, op), s', f))
    decreases f, op, 0
  {
    hide StRel, Test;
    var e, b, op' := op.eval, op.body, RenOp(d, k, op);
    if f > 0 {
      RenExecOps(sem, d, k, n, e.ops, s, s', f);
      var o, o' := ExecOps(sem, e.ops, s, f), ExecOps(sem, op'.eval.ops, s', f);
      if o.Normal? && e.term.Cond? {
        RenTest(d, k, n, o.st, o'.st, e.term.c);
        if Test(o.st, e.term.c) {
          RenExecOps(sem, d, k, n, b.ops, o.st, o'.st, f);
          var q, q' := ExecOps(sem, b.ops, o.st, f), ExecOps(sem, op'.body.ops, o'.st, f);
          if q.Normal? && b.term.End? {
            RenExecOp(sem, d, k, n, op, q.st, q'.st, f - 1);
          }
        }
      }
    }
  }

  lemma {:induction false} RenExecRepeat(sem: Sem, d: set<Name>, k: nat, n: nat, op: Op, s: St, s': St, f: nat)
    requires n <= k && StRel(d, k, n, s, s') && Below(OpNames(op), n) && op.Repeat?
    ensures OutRel(d, k, n, ExecOp(sem, op, s, f), ExecOp(sem, RenOp(d, k, op), s', f))
    decreases f, op, 0
  {
    hide StRel, Test;
    var b, e, op' := op.body, op.eval, RenOp(d, k, op);
    if f > 0 {
      RenExecOps(sem, d, k, n, b.ops, s, s', f);
      var o, o' := ExecOps(sem, b.ops, s, f), ExecOps(sem, op'.body.ops, s', f);
      if o.Normal? && b.term.Until? {
        RenExecOps(sem, d, k, n, e.ops, o.st, o'.st, f);
        var q, q' := ExecOps(sem, e.ops, o.st, f), ExecOps(sem, op'.eval.ops, o'.st, f);
        if q.Normal? && e.term.Cond? {
          RenTest(d, k, n, q.st, q'.st, e.term.c);
          if !Test(q.st, e.term.c) {
            RenExecOp(sem, d, k, n, op, q.st, q'.st, f - 1);
          }
        }
      }
    }
  }

  lemma {:induction false} RenExecArm(sem: Sem, d: set<Name>, k: nat, n: nat, b: Block, s: St, s': St, f: nat)
    requires n <= k && StRel(d, k, n, s, s') && Below(BlockNames(b), n)
    ensures OutRel(d, k, n, ExecArm(sem, b, s, f), ExecArm(sem, RenBlock(d, k, b), s', f))
    decreases f, b, 1
  {
    RenExecOps(sem, d, k, n, b.ops, s, s', f);
    var o, o' := ExecOps(sem, b.ops, s, f), ExecOps(sem, RenOps(d, k, b.ops), s', f);
    if o.Normal? && b.term.Ret? {
      RenLocs(d, k, n, o.st, o'.st, b.term.vals);
    }
  }

  ghost predicate CfgBelow(g: Cfg, n: nat) {
    forall b :: b in g ==> Below(BlockNames(g[b]), n)
  }

  lemma {:induction false} RenRunCode(
      sem: Sem, d: set<Name>, k: nat, n: nat, g: Cfg, ops: seq<Op>, t: Term, s: St, s': St, f: nat)
    requires n <= k && StRel(d, k, n, s, s') && CfgBelow(g, n)
    requires Below(OpsNames(ops), n) && Below(TermNames(t), n)
    ensures RunCode(sem, RenCfg(d, k, g), RenOps(d, k, ops), RenTerm(d, k, t), s', f) == RunCode(sem, g, ops, t, s, f)
    decreases f
  {
    hide StRel, RenOps, RenTerm, RenCfg, Leave, ExecOps, Below, CfgBelow;
    RenExecOps(sem, d, k, n, ops, s, s', f);
    var o, o' := ExecOps(sem, ops, s, f), ExecOps(sem, RenOps(d, k, ops), s', f);
    if o.Normal? {
      RenLeave(d, k, n, t, o.st, o'.st);
      var e := Leave(t, o.st);
      if e.To? {
        RenBlockAt(d, k, n, g, e.dest);
        if f > 0 && e.dest in g {
          RenRunCode(sem, d, k, n, g, g[e.dest].ops, g[e.dest].term, o.st, o'.st, f - 1);
        }
      }
    }
  }

  lemma RenBlockAt(d: set<Name>, k: nat, n: nat, g: Cfg, x: BlockId)
    requires CfgBelow(g, n)
    ensures x in RenCfg(d, k, g) <==> x in g
    ensures x in g ==> RenCfg(d, k, g)[x] == RenBlock(d, k, g[x])
                       && Below(OpsNames(g[x].ops), n) && Below(TermNames(g[x].term), n)
  {
    if x in g {
      assert Below(BlockNames(g[x]), n);
    }
  }

  /** A terminator leaves for the same place. */
  lemma RenLeave(d: set<Name>, k: nat, n: nat, t: Term, s: St, s': St)
    requires StRel(d, k, n, s, s') && Below(TermNames(t), n)
    ensures Leave(RenTerm(d, k, t), s') == Leave(t, s)
  {
    match t
    case Ret(vs) => RenLocs(d, k, n, s, s', vs);
    case CondBr(c, _, _) => RenTest(d, k, n, s, s', c);
    case _ =>
  }
}
