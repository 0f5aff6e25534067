/** Values defined inside a region stay inside it: the scoping rule of the dialect's IR, and why
    copying and splicing regions keeps it. */
module LuaOwnership {
  import opened LuaIr
  import opened LuaLowering
  import opened LuaClone

  // ----- The two regions of a structured op and the name it reads itself

  function RegA(op: Op): Block
    requires IsStructured(op)
  {
    match op case CondIf(_, a, _) => a case LoopWhile(a, _) => a case Repeat(a, _) => a
  }

  function RegB(op: Op): Block
    requires IsStructured(op)
  {
    match op case CondIf(_, _, b) => b case LoopWhile(_, b) => b case Repeat(_, b) => b
  }

  function Head(op: Op): set<Name> { if op.CondIf? then {op.cond} else {} }

  ghost predicate Apart(a: Block, b: Block) {
    OpsDefs(a.ops) !! BlockNames(b) && OpsDefs(b.ops) !! BlockNames(a)
  }

  // ----- Ownership: `out` is every name mentioned outside the code in question

  ghost predicate OwnOp(op: Op, out: set<Name>)
    decreases op, 1
  {
    IsStructured(op) ==>
      && OpDefs(op) !! out + Head(op)
      && Apart(RegA(op), RegB(op))
      && OwnOps(RegA(op).ops, out + Head(op) + TermNames(RegA(op).term) + BlockNames(RegB(op)))
      && OwnOps(RegB(op).ops, out + Head(op) + TermNames(RegB(op).term) + BlockNames(RegA(op)))
  }

  ghost predicate OwnOps(ops: seq<Op>, out: set<Name>)
    decreases ops, 0
  {
    ops == [] || (OwnOp(ops[0], out + OpsNames(ops[1..])) && OwnOps(ops[1..], out + OpNames(ops[0])))
  }

  lemma {:induction false} OwnOpsWeaken(ops: seq<Op>, out: set<Name>, out': set<Name>)
    requires OwnOps(ops, out) && out' * OpsDefs(ops) <= out
    ensures OwnOps(ops, out')
    decreases ops, 0
  {
    if ops != [] {
      OwnOpWeaken(ops[0], out + OpsNames(ops[1..]), out' + OpsNames(ops[1..]));
      OwnOpsWeaken(ops[1..], out + OpNames(ops[0]), out' + OpNames(ops[0]));
    }
  }

  lemma {:induction false} OwnOpWeaken(op: Op, out: set<Name>, out': set<Name>)
    requires OwnOp(op, out) && out' * OpDefs(op) <= out
    ensures OwnOp(op, out')
    decreases op, 1
  {
    if IsStructured(op) {
      var a, b := RegA(op), RegB(op);
      assert OpDefs(op) == OpsDefs(a.ops) + OpsDefs(b.ops);
      var oa := Head(op) + TermNames(a.term) + BlockNames(b);
      var ob := Head(op) + TermNames(b.term) + BlockNames(a);
      assert out + Head(op) + TermNames(a.term) + BlockNames(b) == out + oa;
      assert out + Head(op) + TermNames(b.term) + BlockNames(a) == out + ob;
      assert out' + Head(op) + TermNames(a.term) + BlockNames(b) == out' + oa;
      assert out' + Head(op) + TermNames(b.term) + BlockNames(a) == out' + ob;
      OwnOpsWeaken(a.ops, out + oa, out' + oa);
      OwnOpsWeaken(b.ops, out + ob, out' + ob);
    }
  }

  lemma {:induction false} OwnOpsAppend(a: seq<Op>, c: seq<Op>, out: set<Name>)
    ensures OwnOps(a + c, out) <==> OwnOps(a, out + OpsNames(c)) && OwnOps(c, out + OpsNames(a))
    decreases |a|
  {
    if a == [] {
      assert a + c == c;
      assert out + OpsNames(a) == out;
    } else {
      assert (a + c)[1..] == a[1..] + c;
      OpsNamesAppend(a[1..], c);
      OwnOpsAppend(a[1..], c, out + OpNames(a[0]));
      assert out + OpsNames(a[1..] + c) == out + OpsNames(c) + OpsNames(a[1..]);
      assert out + OpNames(a[0]) + OpsNames(c) == out + OpsNames(c) + OpNames(a[0]);
      assert out + OpNames(a[0]) + OpsNames(a[1..]) == out + OpsNames(a);
    }
  }

  // ----- Renaming keeps ownership

  lemma RenSeqNames(d: set<Name>, k: nat, xs: seq<Name>)
    ensures SeqNames(RenSeq(d, k, xs)) == Image(d, k, SeqNames(xs))
  {
    forall x | x in Image(d, k, SeqNames(xs))
      ensures x in SeqNames(RenSeq(d, k, xs))
    {
      var y :| y in xs && x == Ren(d, k, y);
      var i :| 0 <= i < |xs| && xs[i] == y;
      assert RenSeq(d, k, xs)[i] == x;
    }
  }

  lemma RenTermNames(d: set<Name>, k: nat, t: Term)
    ensures TermNames(RenTerm(d, k, t)) == Image(d, k, TermNames(t))
  {
    if t.Ret? {
      RenSeqNames(d, k, t.vals);
    }
  }

  lemma ImageUnion(d: set<Name>, k: nat, a: set<Name>, b: set<Name>)
    ensures Image(d, k, a + b) == Image(d, k, a) + Image(d, k, b)
  {
  }

  lemma {:induction false} RenOpsNames(d: set<Name>, k: nat, ops: seq<Op>)
    ensures OpsNames(RenOps(d, k, ops)) == Image(d, k, OpsNames(ops))
    ensures OpsDefs(RenOps(d, k, ops)) == Image(d, k, OpsDefs(ops))
    decreases ops, 0
  {
    if ops != [] {
      RenOpNames(d, k, ops[0]);
      RenOpsNames(d, k, ops[1..]);
      assert RenOps(d, k, ops)[1..] == RenOps(d, k, ops[1..]);
      ImageUnion(d, k, OpNames(ops[0]), OpsNames(ops[1..]));
      ImageUnion(d, k, OpDefs(ops[0]), OpsDefs(ops[1..]));
    }
  }

  lemma {:induction false} RenBlockNames(d: set<Name>, k: nat, b: Block)
    ensures BlockNames(RenBlock(d, k, b)) == Image(d, k, BlockNames(b))
    decreases b, 1
  {
    RenOpsNames(d, k, b.ops);
    RenTermNames(d, k, b.term);
    ImageUnion(d, k, OpsNames(b.ops), TermNames(b.term));
  }

  lemma {:induction false} RenOpNames(d: set<Name>, k: nat, op: Op)
    ensures OpNames(RenOp(d, k, op)) == Image(d, k, OpNames(op))
    ensures OpDefs(RenOp(d, k, op)) == Image(d, k, OpDefs(op))
    decreases op, 1
  {
    if op.Prim? {
      RenSeqNames(d, k, op.res);
      RenSeqNames(d, k, op.args);
      ImageUnion(d, k, SeqNames(op.res), SeqNames(op.args));
    } else {
      RenStructuredNames(d, k, op);
    }
  }

  lemma {:induction false} RenStructuredNames(d: set<Name>, k: nat, op: Op)
    requires IsStructured(op)
    ensures OpNames(RenOp(d, k, op)) == Image(d, k, OpNames(op))
    ensures OpDefs(RenOp(d, k, op)) == Image(d, k, OpDefs(op))
    decreases op, 0
  {
    var a, b := RegA(op), RegB(op);
    RenRegs(d, k, op);
    OpNamesByRegion(op);
    OpNamesByRegion(RenOp(d, k, op));
    RenBlockNames(d, k, a);
    RenBlockNames(d, k, b);
    RenOpsNames(d, k, a.ops);
    RenOpsNames(d, k, b.ops);
    ImageUnion(d, k, Head(op) + BlockNames(a), BlockNames(b));
    ImageUnion(d, k, Head(op), BlockNames(a));
    ImageUnion(d, k, OpsDefs(a.ops), OpsDefs(b.ops));
  }

  lemma OpNamesByRegion(op: Op)
    requires IsStructured(op)
    ensures OpNames(op) == Head(op) + BlockNames(RegA(op)) + BlockNames(RegB(op))
    ensures OpDefs(op) == OpsDefs(RegA(op).ops) + OpsDefs(RegB(op).ops)
  {
  }

  lemma RenRegs(d: set<Name>, k: nat, op: Op)
    requires IsStructured(op)
    ensures var op' := RenOp(d, k, op);
            && IsStructured(op')
            && RegA(op') == RenBlock(d, k, RegA(op)) && RegB(op') == RenBlock(d, k, RegB(op))
            && Head(op') == Image(d, k, Head(op))
  {
  }

  /** Distinct names below `n` get distinct new names. */
  lemma ImageDisjoint(d: set<Name>, k: nat, n: nat, a: set<Name>, b: set<Name>)
    requires n <= k && Below(a, n) && Below(b, n) && a !! b
    ensures Image(d, k, a) !! Image(d, k, b)
  {
  }

  lemma {:induction false} RenOwnOps(d: set<Name>, k: nat, n: nat, ops: seq<Op>, out: set<Name>)
    requires n <= k && Below(OpsNames(ops), n) && Below(out, n) && OwnOps(ops, out)
    ensures OwnOps(RenOps(d, k, ops), Image(d, k, out))
    decreases ops, 0
  {
    if ops != [] {
      RenOwnOp(d, k, n, ops[0], out + OpsNames(ops[1..]));
      RenOwnOps(d, k, n, ops[1..], out + OpNames(ops[0]));
      RenOpNames(d, k, ops[0]);
      RenOpsNames(d, k, ops[1..]);
      ImageUnion(d, k, out, OpsNames(ops[1..]));
      ImageUnion(d, k, out, OpNames(ops[0]));
      assert RenOps(d, k, ops)[1..] == RenOps(d, k, ops[1..]);
    }
  }

  lemma {:induction false} RenOwnOp(d: set<Name>, k: nat, n: nat, op: Op, out: set<Name>)
    requires n <= k && Below(OpNames(op), n) && Below(out, n) && OwnOp(op, out)
    ensures OwnOp(RenOp(d, k, op), Image(d, k, out))
    decreases op, 1
  {
    if IsStructured(op) {
      RenOwnPrivate(d, k, n, op, out);
      var a, b := RegA(op), RegB(op);
      RenRegs(d, k, op);
      ImageUnion(d, k, out, Head(op));
      RenRegion(d, k, n, a, b, out + Head(op));
      RenRegion(d, k, n, b, a, out + Head(op));
    }
  }

  lemma RenOwnPrivate(d: set<Name>, k: nat, n: nat, op: Op, out: set<Name>)
    requires n <= k && Below(OpNames(op), n) && Below(out, n) && IsStructured(op) && OpDefs(op) !! out + Head(op)
    ensures var op' := RenOp(d, k, op); OpDefs(op') !! Image(d, k, out) + Head(op')
    ensures Below(BlockNames(RegA(op)), n) && Below(BlockNames(RegB(op)), n) && Below(out + Head(op), n)
  {
    RenRegs(d, k, op);
    OpNamesByRegion(op);
    OpDefsInNames(op);
    RenOpNames(d, k, op);
    ImageUnion(d, k, out, Head(op));
    ImageDisjoint(d, k, n, OpDefs(op), out + Head(op));
  }

  lemma {:induction false} RenRegion(d: set<Name>, k: nat, n: nat, a: Block, b: Block, out: set<Name>)
    requires n <= k && Below(BlockNames(a), n) && Below(BlockNames(b), n) && Below(out, n)
    requires OpsDefs(a.ops) !! BlockNames(b)
    requires OwnOps(a.ops, out + TermNames(a.term) + BlockNames(b))
    ensures OpsDefs(RenBlock(d, k, a).ops) !! BlockNames(RenBlock(d, k, b))
    ensures OwnOps(RenOps(d, k, a.ops),
                   Image(d, k, out) + TermNames(RenTerm(d, k, a.term)) + BlockNames(RenBlock(d, k, b)))
    decreases a.ops, 1
  {
    OpsDefsInNames(a.ops);
    RenOpsNames(d, k, a.ops);
    RenBlockNames(d, k, b);
    RenTermNames(d, k, a.term);
    ImageDisjoint(d, k, n, OpsDefs(a.ops), BlockNames(b));
    RenOwnOps(d, k, n, a.ops, out + TermNames(a.term) + BlockNames(b));
    ImageUnion(d, k, out + TermNames(a.term), BlockNames(b));
    ImageUnion(d, k, out, TermNames(a.term));
  }

  // ----- Graphs

  ghost function NamesExcept(g: Cfg, b: BlockId): set<Name> {
    set d, x | d in g && d != b && x in BlockNames(g[d]) :: x
  }

  ghost function Around(g: Cfg, inputs: set<Name>, b: BlockId): set<Name>
    requires b in g
  {
    inputs + NamesExcept(g, b) + TermNames(g[b].term)
  }

  /** No value defined in a region of the graph is an input or is mentioned outside that region. */
  ghost predicate OwnCfg(g: Cfg, inputs: set<Name>) {
    forall b {:trigger Around(g, inputs, b)} :: b in g ==> OwnOps(g[b].ops, Around(g, inputs, b))
  }

  lemma AroundBelow(g: Cfg, inputs: set<Name>, b: BlockId, n: nat)
    requires CfgBelow(g, n) && Below(inputs, n) && b in g
    ensures Below(Around(g, inputs, b), n) && Below(OpsNames(g[b].ops), n)
  {
    assert forall x :: x in BlockNames(g[b]) ==> x < n;
    forall x | x in NamesExcept(g, b) ensures x < n {
      var e :| e in g && e != b && x in BlockNames(g[e]);
    }
  }

  lemma RenNamesExcept(d: set<Name>, k: nat, g: Cfg, b: BlockId)
    ensures NamesExcept(RenCfg(d, k, g), b) <= Image(d, k, NamesExcept(g, b))
  {
    var g' := RenCfg(d, k, g);
    forall x | x in NamesExcept(g', b) ensures x in Image(d, k, NamesExcept(g, b)) {
      var e :| e in g' && e != b && x in BlockNames(g'[e]);
      RenBlockNames(d, k, g[e]);
      var y :| y in BlockNames(g[e]) && x == Ren(d, k, y);
      assert y in NamesExcept(g, b);
    }
  }

  lemma RenOwnCfg(d: set<Name>, k: nat, n: nat, g: Cfg, inputs: set<Name>)
    requires n <= k && CfgBelow(g, n) && Below(inputs, n) && OwnCfg(g, inputs)
    ensures OwnCfg(RenCfg(d, k, g), Image(d, k, inputs))
  {
    var g' := RenCfg(d, k, g);
    forall b | b in g'
      ensures OwnOps(g'[b].ops, Around(g', Image(d, k, inputs), b))
    {
      var out := Around(g, inputs, b);
      AroundBelow(g, inputs, b, n);
      RenOwnOps(d, k, n, g[b].ops, out);
      RenTermNames(d, k, g[b].term);
      RenNamesExcept(d, k, g, b);
      ImageUnion(d, k, inputs + NamesExcept(g, b), TermNames(g[b].term));
      ImageUnion(d, k, inputs, NamesExcept(g, b));
      OwnOpsWeaken(g'[b].ops, Image(d, k, out), Around(g', Image(d, k, inputs), b));
    }
  }

  lemma NamesExceptWithin(g: Cfg, b: BlockId, s: set<Name>)
    requires forall d :: d in g && d != b ==> BlockNames(g[d]) <= s
    ensures NamesExcept(g, b) <= s
  {
  }

  lemma NamesExceptHas(g: Cfg, b: BlockId, d: BlockId)
    requires d in g && d != b
    ensures BlockNames(g[d]) <= NamesExcept(g, b)
  {
  }

  /** The names around each part of a block that is about to be split at an op. */
  lemma OwnParts(pre: seq<Op>, op: Op, post: seq<Op>, out: set<Name>)
    requires IsStructured(op) && OwnOps(pre + [op] + post, out)
    ensures OwnOps(pre, out + OpNames(op) + OpsNames(post))
    ensures OwnOp(op, out + OpsNames(pre) + OpsNames(post))
    ensures OwnOps(post, out + OpNames(op) + OpsNames(pre))
  {
    OwnOpsAppend(pre + [op], post, out);
    OwnOpsAppend(pre, [op], out + OpsNames(post));
    OpsNamesAppend(pre, [op]);
    assert OpsNames([op]) == OpNames(op);
    assert out + OpsNames(post) + OpNames(op) == out + OpNames(op) + OpsNames(post);
    assert out + (OpsNames(pre) + OpNames(op)) == out + OpNames(op) + OpsNames(pre);
    assert out + OpsNames(post) + OpsNames(pre) + OpsNames([]) == out + OpsNames(pre) + OpsNames(post);
  }

  /** The blocks of `g'` when `pre + [op] + post` was block `b` of `g` and `op` was spliced out. */
  ghost predicate Pieces(g: Cfg, g': Cfg, b: BlockId, pre: seq<Op>, op: Op, post: seq<Op>, t: Term, n: BlockId) {
    && IsStructured(op) && Has(g, b, pre + [op] + post, t)
    && (forall d :: d in g ==> d in g' && d < n && (d != b ==> g'[d] == g[d]))
    && g'[b].ops == pre && TermNames(g'[b].term) <= Head(op)
    && (if op.Repeat?
        then (forall d :: d in g' <==> d in g || d == n || d == n + 1)
             && g'[n].ops == RegA(op).ops + RegB(op).ops && TermNames(g'[n].term) <= TermNames(RegB(op).term)
             && g'[n + 1] == Block(post, t)
        else (forall d :: d in g' <==> d in g || d == n || d == n + 1 || d == n + 2)
             && g'[n].ops == RegA(op).ops && TermNames(g'[n].term) <= TermNames(RegA(op).term)
             && g'[n + 1].ops == RegB(op).ops && TermNames(g'[n + 1].term) <= TermNames(RegB(op).term)
             && g'[n + 2] == Block(post, t))
  }

  lemma SplicedKeys(g: Cfg, b: BlockId, i: nat, n: BlockId)
    requires SpliceAt(g, b, i, n).Split?
    ensures Spliced(g, b, i, n).Keys == g.Keys + (if g[b].ops[i].Repeat? then {n, n + 1} else {n, n + 1, n + 2})
  {
    var added := SpliceAt(g, b, i, n).added;
    if g[b].ops[i].Repeat? {
      assert added.Keys == {n, n + 1};
    } else {
      assert added.Keys == {n, n + 1, n + 2};
    }
    assert Spliced(g, b, i, n).Keys == g.Keys + added.Keys;
  }

  lemma SplicedPieces(g: Cfg, b: BlockId, i: nat, n: BlockId)
    requires Closed(g, n) && SpliceAt(g, b, i, n).Split?
    ensures Pieces(g, Spliced(g, b, i, n), b, g[b].ops[..i], g[b].ops[i], g[b].ops[i + 1..], g[b].term, n)
  {
    var g' := Spliced(g, b, i, n);
    SplicedReplaces(g, b, i, n);
    SplicedKeys(g, b, i, n);
    assert g[b].ops == g[b].ops[..i] + [g[b].ops[i]] + g[b].ops[i + 1..];
    ReplacedPieces(g, g', b, i, n);
  }

  lemma ReplacedPieces(g: Cfg, g': Cfg, b: BlockId, i: nat, n: BlockId)
    requires Closed(g, n) && Replaces(g, g', b, i, n)
    requires g'.Keys == g.Keys + (if g[b].ops[i].Repeat? then {n, n + 1} else {n, n + 1, n + 2})
    requires g[b].ops == g[b].ops[..i] + [g[b].ops[i]] + g[b].ops[i + 1..]
    ensures Pieces(g, g', b, g[b].ops[..i], g[b].ops[i], g[b].ops[i + 1..], g[b].term, n)
  {
  }

  lemma PieceNames(g: Cfg, g': Cfg, b: BlockId, pre: seq<Op>, op: Op, post: seq<Op>, t: Term, n: BlockId)
    requires Pieces(g, g', b, pre, op, post, t, n)
    ensures BlockNames(g[b]) == OpsNames(pre) + OpNames(op) + OpsNames(post) + TermNames(t)
    ensures BlockNames(g'[b]) <= OpsNames(pre) + Head(op)
    ensures op.Repeat? ==> BlockNames(g'[n]) <= OpNames(op)
    ensures !op.Repeat? ==> BlockNames(g'[n]) <= BlockNames(RegA(op)) && BlockNames(g'[n + 1]) <= BlockNames(RegB(op))
  {
    OpNamesByRegion(op);
    OpsNamesAppend(pre + [op], post);
    OpsNamesAppend(pre, [op]);
    if op.Repeat? {
      OpsNamesAppend(RegA(op).ops, RegB(op).ops);
    }
  }

  lemma PieceNamesWithin(g: Cfg, g': Cfg, b: BlockId, pre: seq<Op>, op: Op, post: seq<Op>, t: Term, n: BlockId)
    requires Pieces(g, g', b, pre, op, post, t, n)
    ensures forall e :: e in g' && (e !in g || e == b) ==> BlockNames(g'[e]) <= BlockNames(g[b])
  {
    PieceNames(g, g', b, pre, op, post, t, n);
    OpNamesByRegion(op);
  }

  /** Names seen from one of the blocks that `b` was split into: `s` covers all the others. */
  lemma AroundPiece(g: Cfg, g': Cfg, b: BlockId, pre: seq<Op>, op: Op, post: seq<Op>, t: Term, n: BlockId, d: BlockId,
      s: set<Name>)
    requires Pieces(g, g', b, pre, op, post, t, n) && NamesExcept(g, b) <= s
    requires d != b ==> OpsNames(pre) + Head(op) <= s
    requires d != n ==> (if op.Repeat? then OpNames(op) else BlockNames(RegA(op))) <= s
    requires d != n + 1 && !op.Repeat? ==> BlockNames(RegB(op)) <= s
    requires d != (if op.Repeat? then n + 1 else n + 2) ==> OpsNames(post) + TermNames(t) <= s
    ensures NamesExcept(g', d) <= s
  {
    PieceNames(g, g', b, pre, op, post, t, n);
    forall e | e in g' && e != d ensures BlockNames(g'[e]) <= s {
      if e in g && e != b {
        NamesExceptHas(g, b, e);
      }
    }
    NamesExceptWithin(g', d, s);
  }

  lemma WeakenTo(ops: seq<Op>, out: set<Name>, g: Cfg, inputs: set<Name>, d: BlockId, s: set<Name>, tn: set<Name>)
    requires OwnOps(ops, out) && d in g && NamesExcept(g, d) <= s && TermNames(g[d].term) <= tn
    requires inputs + s + tn <= out
    ensures OwnOps(ops, Around(g, inputs, d))
  {
    OwnOpsWeaken(ops, out, Around(g, inputs, d));
  }

  lemma AroundOld(g: Cfg, g': Cfg, b: BlockId, d: BlockId)
    requires b in g && d in g && d != b
    requires forall e :: e in g' ==> if e in g && e != b then g'[e] == g[e] else BlockNames(g'[e]) <= BlockNames(g[b])
    ensures NamesExcept(g', d) <= NamesExcept(g, d)
  {
    NamesExceptHas(g, d, b);
    forall e | e in g' && e != d ensures BlockNames(g'[e]) <= NamesExcept(g, d) {
      if e in g && e != b {
        NamesExceptHas(g, d, e);
      }
    }
    NamesExceptWithin(g', d, NamesExcept(g, d));
  }

  lemma OwnOld(g: Cfg, g': Cfg, b: BlockId, pre: seq<Op>, op: Op, post: seq<Op>, t: Term, n: BlockId, inputs: set<Name>,
      d: BlockId)
    requires Pieces(g, g', b, pre, op, post, t, n) && OwnCfg(g, inputs) && d in g && d != b
    ensures OwnOps(g'[d].ops, Around(g', inputs, d))
  {
    PieceNamesWithin(g, g', b, pre, op, post, t, n);
    AroundOld(g, g', b, d);
    OwnOpsWeaken(g[d].ops, Around(g, inputs, d), Around(g', inputs, d));
  }

  lemma OwnBefore(g: Cfg, g': Cfg, b: BlockId, pre: seq<Op>, op: Op, post: seq<Op>, t: Term, n: BlockId,
      inputs: set<Name>)
    requires Pieces(g, g', b, pre, op, post, t, n) && OwnCfg(g, inputs)
    ensures OwnOps(pre, Around(g', inputs, b))
  {
    OpNamesByRegion(op);
    var out, ne, no, np, nt := Around(g, inputs, b), NamesExcept(g, b), OpNames(op), OpsNames(post), TermNames(t);
    OwnParts(pre, op, post, out);
    AroundPiece(g, g', b, pre, op, post, t, n, b, ne + no + np + nt);
    assert inputs + (ne + no + np + nt) + Head(op) <= out + no + np;
    WeakenTo(pre, out + no + np, g', inputs, b, ne + no + np + nt, Head(op));
  }

  lemma OwnAfter(g: Cfg, g': Cfg, b: BlockId, pre: seq<Op>, op: Op, post: seq<Op>, t: Term, n: BlockId,
      inputs: set<Name>, d: BlockId)
    requires Pieces(g, g', b, pre, op, post, t, n) && OwnCfg(g, inputs) && d == (if op.Repeat? then n + 1 else n + 2)
    ensures OwnOps(post, Around(g', inputs, d))
  {
    OpNamesByRegion(op);
    var out, ne, no, np, nt := Around(g, inputs, b), NamesExcept(g, b), OpNames(op), OpsNames(pre), TermNames(t);
    OwnParts(pre, op, post, out);
    AroundPiece(g, g', b, pre, op, post, t, n, d, ne + np + no);
    assert inputs + (ne + np + no) + nt <= out + no + np;
    WeakenTo(post, out + no + np, g', inputs, d, ne + np + no, nt);
  }

  lemma OwnInsideArm(
      g: Cfg, g': Cfg, b: BlockId, pre: seq<Op>, op: Op, post: seq<Op>, t: Term, n: BlockId, inputs: set<Name>,
        d: BlockId,
      a: Block, c: Block, ends: set<Name>, out: set<Name>)
    requires Pieces(g, g', b, pre, op, post, t, n) && !op.Repeat?
    requires (d == n && a == RegA(op) && c == RegB(op)) || (d == n + 1 && a == RegB(op) && c == RegA(op))
    requires ends == NamesExcept(g, b) + OpsNames(pre) + OpsNames(post) + TermNames(t) + Head(op)
             && inputs + ends <= out + Head(op)
    requires OwnOps(a.ops, out + Head(op) + TermNames(a.term) + BlockNames(c))
    ensures OwnOps(g'[d].ops, Around(g', inputs, d))
  {
    AroundPiece(g, g', b, pre, op, post, t, n, d, ends + BlockNames(c));
    WeakenTo(a.ops, out + Head(op) + TermNames(a.term) + BlockNames(c), g', inputs, d, ends + BlockNames(c),
      TermNames(a.term));
  }

  lemma OwnInsideRepeat(
      g: Cfg, g': Cfg, b: BlockId, pre: seq<Op>, op: Op, post: seq<Op>, t: Term, n: BlockId,
      inputs: set<Name>, ends: set<Name>, out: set<Name>)
    requires Pieces(g, g', b, pre, op, post, t, n) && op.Repeat?
    requires ends == NamesExcept(g, b) + OpsNames(pre) + OpsNames(post) + TermNames(t) + Head(op)
             && inputs + ends <= out + Head(op)
    requires OwnOps(op.body.ops, out + Head(op) + TermNames(op.body.term) + BlockNames(op.eval))
    requires OwnOps(op.eval.ops, out + Head(op) + TermNames(op.eval.term) + BlockNames(op.body))
    ensures OwnOps(g'[n].ops, Around(g', inputs, n))
  {
    var a, c := op.body, op.eval;
    AroundPiece(g, g', b, pre, op, post, t, n, n, ends);
    var out' := Around(g', inputs, n);
    assert out' <= out + TermNames(c.term);
    OwnOpsWeaken(a.ops, out + Head(op) + TermNames(a.term) + BlockNames(c), out' + OpsNames(c.ops));
    OwnOpsWeaken(c.ops, out + Head(op) + TermNames(c.term) + BlockNames(a), out' + OpsNames(a.ops));
    OwnOpsAppend(a.ops, c.ops, out');
  }

  lemma OwnInside(g: Cfg, g': Cfg, b: BlockId, pre: seq<Op>, op: Op, post: seq<Op>, t: Term, n: BlockId,
      inputs: set<Name>, d: BlockId)
    requires Pieces(g, g', b, pre, op, post, t, n) && OwnCfg(g, inputs)
    requires d == n || (!op.Repeat? && d == n + 1)
    ensures OwnOps(g'[d].ops, Around(g', inputs, d))
  {
    var around := Around(g, inputs, b);
    OwnParts(pre, op, post, around);
    var out := around + OpsNames(pre) + OpsNames(post);
    var ends := NamesExcept(g, b) + OpsNames(pre) + OpsNames(post) + TermNames(t) + Head(op);
    assert inputs + ends <= out + Head(op);
    if op.Repeat? {
      OwnInsideRepeat(g, g', b, pre, op, post, t, n, inputs, ends, out);
    } else if d == n {
      OwnInsideArm(g, g', b, pre, op, post, t, n, inputs, d, RegA(op), RegB(op), ends, out);
    } else {
      OwnInsideArm(g, g', b, pre, op, post, t, n, inputs, d, RegB(op), RegA(op), ends, out);
    }
  }

  /** Splicing an op moves names between blocks but keeps every region's values private. */
  lemma SplicedOwn(g: Cfg, g': Cfg, b: BlockId, pre: seq<Op>, op: Op, post: seq<Op>, t: Term, n: BlockId,
      inputs: set<Name>)
    requires Pieces(g, g', b, pre, op, post, t, n) && OwnCfg(g, inputs)
    ensures OwnCfg(g', inputs)
  {
    forall d | d in g'
      ensures OwnOps(g'[d].ops, Around(g', inputs, d))
    {
      if d in g && d != b {
        OwnOld(g, g', b, pre, op, post, t, n, inputs, d);
      } else if d == b {
        OwnBefore(g, g', b, pre, op, post, t, n, inputs);
      } else if d == (if op.Repeat? then n + 1 else n + 2) {
        OwnAfter(g, g', b, pre, op, post, t, n, inputs, d);
      } else {
        OwnInside(g, g', b, pre, op, post, t, n, inputs, d);
      }
    }
  }

}
