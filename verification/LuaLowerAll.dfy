/** Lowering to completion. */
module LuaLowerAll {
  // The control-flow patterns, applied at any positions until none of them applies.

  import opened LuaIr
  import opened LuaLowering
  import opened LuaClone
  import opened LuaOwnership
  import opened LuaControlFlow

  // ----- How much structured control flow is left

  function OpSize(op: Op): nat
    decreases op, 1
  {
    match op
    case Prim(_, _, _) => 0
    case CondIf(_, a, b) => 1 + OpsSize(a.ops) + OpsSize(b.ops)
    case LoopWhile(a, b) => 1 + OpsSize(a.ops) + OpsSize(b.ops)
    case Repeat(a, b) => 1 + OpsSize(a.ops) + OpsSize(b.ops)
  }

  function OpsSize(ops: seq<Op>): nat
    decreases ops, 0
  {
    if ops == [] then 0 else OpSize(ops[0]) + OpsSize(ops[1..])
  }

  function CfgSize(g: Cfg, n: BlockId): nat {
    if n == 0 then 0 else CfgSize(g, n - 1) + (if n - 1 in g then OpsSize(g[n - 1].ops) else 0)
  }

  lemma {:induction false} OpsSizeAppend(a: seq<Op>, c: seq<Op>)
    ensures OpsSize(a + c) == OpsSize(a) + OpsSize(c)
    decreases |a|
  {
    if a == [] {
      assert a + c == c;
    } else {
      assert (a + c)[1..] == a[1..] + c;
      OpsSizeAppend(a[1..], c);
    }
  }

  lemma {:induction false} RenOpsSize(d: set<Name>, k: nat, ops: seq<Op>)
    ensures OpsSize(RenOps(d, k, ops)) == OpsSize(ops)
    decreases ops, 0
  {
    if ops != [] {
      RenOpSize(d, k, ops[0]);
      RenOpsSize(d, k, ops[1..]);
      assert RenOps(d, k, ops)[1..] == RenOps(d, k, ops[1..]);
    }
  }

  lemma {:induction false} RenOpSize(d: set<Name>, k: nat, op: Op)
    ensures OpSize(RenOp(d, k, op)) == OpSize(op)
    decreases op, 1
  {
    match op
    case Prim(_, _, _) =>
    case CondIf(_, a, b) => RenOpsSize(d, k, a.ops); RenOpsSize(d, k, b.ops);
    case LoopWhile(a, b) => RenOpsSize(d, k, a.ops); RenOpsSize(d, k, b.ops);
    case Repeat(a, b) => RenOpsSize(d, k, a.ops); RenOpsSize(d, k, b.ops);
  }

  lemma {:induction false} CfgSizeChange(g: Cfg, g': Cfg, b: BlockId, n: BlockId)
    requires b in g && b in g' && forall d :: d < n && d != b ==> (d in g' <==> d in g) && (d in g ==> g'[d] == g[d])
    ensures CfgSize(g', n) == CfgSize(g, n) + (if b < n then OpsSize(g'[b].ops) - OpsSize(g[b].ops) else 0)
  {
    if n > 0 {
      CfgSizeChange(g, g', b, n - 1);
    }
  }

  /** Lowering an op takes one structured op away: the op itself. */
  lemma SplicedSmaller(g: Cfg, b: BlockId, i: nat, n: BlockId)
    requires Closed(g, n) && SpliceAt(g, b, i, n).Split?
    ensures CfgSize(Spliced(g, b, i, n), n + 3) < CfgSize(g, n)
  {
    var g' := Spliced(g, b, i, n);
    SplicedPieces(g, b, i, n);
    var op, pre, post, t := g[b].ops[i], g[b].ops[..i], g[b].ops[i + 1..], g[b].term;
    PiecesSmaller(g, g', b, pre, op, post, t, n);
  }

  lemma PiecesSmaller(g: Cfg, g': Cfg, b: BlockId, pre: seq<Op>, op: Op, post: seq<Op>, t: Term, n: BlockId)
    requires Pieces(g, g', b, pre, op, post, t, n)
    ensures CfgSize(g', n + 3) < CfgSize(g, n)
  {
    CfgSizeChange(g, g', b, n);
    OpsSizeAppend(pre + [op], post);
    OpsSizeAppend(pre, [op]);
    assert OpsSize([op]) == OpSize(op) + OpsSize([]);
    OpsSizeAppend(RegA(op).ops, RegB(op).ops);
    assert OpSize(op) == 1 + OpsSize(RegA(op).ops) + OpsSize(RegB(op).ops);
    assert CfgSize(g', n + 3) == CfgSize(g', n + 2) + (if n + 2 in g' then OpsSize(g'[n + 2].ops) else 0);
    assert CfgSize(g', n + 2) == CfgSize(g', n + 1) + OpsSize(g'[n + 1].ops);
    assert CfgSize(g', n + 1) == CfgSize(g', n) + OpsSize(g'[n].ops);
  }

  lemma OpsSizeSwap(ops: seq<Op>, i: nat, op: Op)
    requires i < |ops|
    ensures OpsSize(ops[i := op]) == OpsSize(ops) - OpSize(ops[i]) + OpSize(op)
  {
    var pre, post := ops[..i], ops[i + 1..];
    assert ops == pre + [ops[i]] + post && ops[i := op] == pre + [op] + post;
    OpsSizeAppend(pre + [ops[i]], post);
    OpsSizeAppend(pre, [ops[i]]);
    OpsSizeAppend(pre + [op], post);
    OpsSizeAppend(pre, [op]);
    assert OpsSize([op]) == OpSize(op) + OpsSize([]) && OpsSize([ops[i]]) == OpSize(ops[i]) + OpsSize([]);
  }

  lemma ClonedSize(g: Cfg, b: BlockId, i: nat, n: BlockId, names: nat)
    requires b in g && i < |g[b].ops|
    ensures CfgSize(Cloned(g, b, i, names), n) == CfgSize(g, n)
  {
    var op := g[b].ops[i];
    var op' := CloneRegions(names, op);
    CfgSizeChange(g, Cloned(g, b, i, names), b, n);
    OpsSizeSwap(g[b].ops, i, op');
    if IsStructured(op) {
      RenOpsSize(OpsDefs(RegA(op).ops), names, RegA(op).ops);
      RenOpsSize(OpsDefs(RegB(op).ops), names, RegB(op).ops);
    }
  }

  // ----- Regions with the terminators the generator gives them

  predicate TermsOk(op: Op) {
    match op
    case Prim(_, _, _) => true
    case CondIf(_, a, b) => ArmOk(a.term) && ArmOk(b.term)
    case LoopWhile(e, b) => e.term.Cond? && b.term.End?
    case Repeat(b, e) => b.term.Until? && e.term.Cond?
  }

  predicate WfOp(op: Op)
    decreases op, 1
  {
    && TermsOk(op)
    && (match op
        case Prim(_, _, _) => true
        case CondIf(_, a, b) => WfOps(a.ops) && WfOps(b.ops)
        case LoopWhile(a, b) => WfOps(a.ops) && WfOps(b.ops)
        case Repeat(a, b) => WfOps(a.ops) && WfOps(b.ops))
  }

  predicate WfOps(ops: seq<Op>)
    decreases ops, 0
  {
    ops == [] || (WfOp(ops[0]) && WfOps(ops[1..]))
  }

  ghost predicate WfCfg(g: Cfg) { forall b :: b in g ==> WfOps(g[b].ops) }

  lemma {:induction false} WfOpsAppend(a: seq<Op>, c: seq<Op>)
    ensures WfOps(a + c) <==> WfOps(a) && WfOps(c)
    decreases |a|
  {
    if a == [] {
      assert a + c == c;
    } else {
      assert (a + c)[1..] == a[1..] + c;
      WfOpsAppend(a[1..], c);
    }
  }

  lemma {:induction false} RenWfOps(d: set<Name>, k: nat, ops: seq<Op>)
    requires WfOps(ops)
    ensures WfOps(RenOps(d, k, ops))
    decreases ops, 0
  {
    if ops != [] {
      RenWfOp(d, k, ops[0]);
      RenWfOps(d, k, ops[1..]);
      assert RenOps(d, k, ops)[1..] == RenOps(d, k, ops[1..]);
    }
  }

  lemma {:induction false} RenWfOp(d: set<Name>, k: nat, op: Op)
    requires WfOp(op)
    ensures WfOp(RenOp(d, k, op))
    decreases op, 1
  {
    if IsStructured(op) {
      RenWfOps(d, k, RegA(op).ops);
      RenWfOps(d, k, RegB(op).ops);
    }
  }

  lemma WfOpsAt(pre: seq<Op>, op: Op, post: seq<Op>)
    requires WfOps(pre + [op] + post)
    ensures WfOps(pre) && WfOps(post) && WfOp(op)
  {
    WfOpsAppend(pre + [op], post);
    WfOpsAppend(pre, [op]);
  }

  lemma ClonedWf(n: nat, op: Op)
    requires WfOp(op) && IsStructured(op)
    ensures var op' := CloneRegions(n, op);
            IsStructured(op') && TermsOk(op') && WfOps(RegA(op').ops) && WfOps(RegB(op').ops)
  {
    RenWfOps(OpsDefs(RegA(op).ops), n, RegA(op).ops);
    RenWfOps(OpsDefs(RegB(op).ops), n, RegB(op).ops);
  }

  lemma ClonedParts(g: Cfg, b: BlockId, i: nat, blocks: BlockId, names: nat)
    requires b in g && i < |g[b].ops| && IsStructured(g[b].ops[i]) && TermsOk(CloneRegions(names, g[b].ops[i]))
    ensures var g1 := Cloned(g, b, i, names);
            && b in g1 && i < |g1[b].ops| && g1[b].ops[i] == CloneRegions(names, g[b].ops[i])
            && g1[b].ops[..i] == g[b].ops[..i] && g1[b].ops[i + 1..] == g[b].ops[i + 1..] && g1[b].term == g[b].term
            && (forall d :: d in g1 && d != b ==> d in g && g1[d] == g[d])
            && SpliceAt(g1, b, i, blocks).Split?
            && LowerAt(g, b, i, blocks, names) == Some(Spliced(g1, b, i, blocks))
  {
    var g1 := Cloned(g, b, i, names);
    assert g1[b].ops[..i] == g[b].ops[..i] && g1[b].ops[i + 1..] == g[b].ops[i + 1..];
  }

  lemma LowerAtWf(g: Cfg, b: BlockId, i: nat, blocks: BlockId, names: nat)
    requires Closed(g, blocks) && WfCfg(g) && b in g && i < |g[b].ops| && IsStructured(g[b].ops[i])
    ensures LowerAt(g, b, i, blocks, names).Some? && WfCfg(LowerAt(g, b, i, blocks, names).value)
  {
    WfPartsOf(g[b].ops, i, names);
    ClonedParts(g, b, i, blocks, names);
    ClonedClosed(g, b, i, blocks, names);
    ClonedSpliceWf(g, Cloned(g, b, i, names), b, i, blocks);
  }

  lemma WfPartsOf(ops: seq<Op>, i: nat, names: nat)
    requires WfOps(ops) && i < |ops| && IsStructured(ops[i])
    ensures WfOps(ops[..i]) && WfOps(ops[i + 1..])
    ensures var op' := CloneRegions(names, ops[i]);
            IsStructured(op') && TermsOk(op') && WfOps(RegA(op').ops) && WfOps(RegB(op').ops)
  {
    assert ops == ops[..i] + [ops[i]] + ops[i + 1..];
    WfOpsAt(ops[..i], ops[i], ops[i + 1..]);
    ClonedWf(names, ops[i]);
  }

  lemma ClonedSpliceWf(g: Cfg, g1: Cfg, b: BlockId, i: nat, n: BlockId)
    requires Closed(g1, n) && WfCfg(g) && SpliceAt(g1, b, i, n).Split?
    requires WfOps(g1[b].ops[..i]) && WfOps(g1[b].ops[i + 1..])
    requires WfOps(RegA(g1[b].ops[i]).ops) && WfOps(RegB(g1[b].ops[i]).ops)
    requires forall d :: d in g1 && d != b ==> d in g && g1[d] == g[d]
    ensures WfCfg(Spliced(g1, b, i, n))
  {
    SplicedPieces(g1, b, i, n);
    PiecesWf(g1, Spliced(g1, b, i, n), b, g1[b].ops[..i], g1[b].ops[i], g1[b].ops[i + 1..], g1[b].term, n);
  }

  lemma ClonedClosed(g: Cfg, b: BlockId, i: nat, blocks: BlockId, names: nat)
    requires Closed(g, blocks) && b in g && i < |g[b].ops|
    ensures Closed(Cloned(g, b, i, names), blocks)
  {
  }

  lemma PiecesWf(g: Cfg, g': Cfg, b: BlockId, pre: seq<Op>, op: Op, post: seq<Op>, t: Term, n: BlockId)
    requires Pieces(g, g', b, pre, op, post, t, n)
    requires WfOps(pre) && WfOps(post) && WfOps(RegA(op).ops) && WfOps(RegB(op).ops)
    requires forall d :: d in g && d != b ==> WfOps(g[d].ops)
    ensures WfCfg(g')
  {
    WfOpsAppend(RegA(op).ops, RegB(op).ops);
  }

  // ----- The pass

  predicate HasStructured(ops: seq<Op>) {
    exists i | 0 <= i < |ops| :: IsStructured(ops[i])
  }

  /** The blocks that still hold a structured op. */
  function Pending(g: Cfg): set<BlockId> {
    set b | b in g && HasStructured(g[b].ops)
  }

  ghost predicate Flat(g: Cfg) {
    forall b, i :: b in g && 0 <= i < |g[b].ops| ==> g[b].ops[i].Prim?
  }

  /** What holds between the function being lowered and the graph reached so far. */
  ghost predicate Reached(g0: Cfg, g: Cfg, blocks: BlockId, names: nat, inputs: set<Name>) {
    && Ready(g, blocks, names, inputs) && g0.Keys <= g.Keys && SameRuns(g0, g, inputs)
    && (WfCfg(g0) ==> WfCfg(g))
  }

  lemma ReachedStep(g0: Cfg, g: Cfg, b: BlockId, i: nat, blocks: BlockId, names: nat, inputs: set<Name>)
    requires Reached(g0, g, blocks, names, inputs) && b in g && i < |g[b].ops| && IsStructured(g[b].ops[i])
    requires LowerAt(g, b, i, blocks, names).Some?
    ensures Reached(g0, LowerAt(g, b, i, blocks, names).value, blocks + 3, 2 * names, inputs)
  {
    if WfCfg(g) {
      LowerAtWf(g, b, i, blocks, names);
    }
    LowerAtReady(g, b, i, blocks, names, inputs);
    LowerAtCorrect(g, b, i, blocks, names, inputs);
    SameRunsTransitive(g0, g, LowerAt(g, b, i, blocks, names).value, inputs);
  }

  function NamesAfter(names: nat, steps: nat): nat {
    if steps == 0 then names else 2 * NamesAfter(names, steps - 1)
  }

  /** The graph after lowering at each of the chosen positions in turn. */
  function LowerMany(g: Cfg, at: seq<(BlockId, nat)>, blocks: BlockId, names: nat): Option<Cfg> {
    if at == [] then Some(g)
    else
      var n := |at| - 1;
      var (b, i) := at[n];
      var prev := LowerMany(g, at[..n], blocks, names);
      if prev.None? || b !in prev.value || i >= |prev.value[b].ops| || !IsStructured(prev.value[b].ops[i]) then None
      else LowerAt(prev.value, b, i, blocks + 3 * n, NamesAfter(names, n))
  }

  lemma {:induction false} LowerManyReached(g0: Cfg, at: seq<(BlockId, nat)>, blocks: BlockId, names: nat,
      inputs: set<Name>)
    requires Ready(g0, blocks, names, inputs) && LowerMany(g0, at, blocks, names).Some?
    ensures Reached(g0, LowerMany(g0, at, blocks, names).value, blocks + 3 * |at|, NamesAfter(names, |at|), inputs)
    decreases |at|
  {
    hide LowerAt, Ready, SameRuns, WfCfg;
    SameRunsReflexive(g0, inputs);
    if at != [] {
      var n := |at| - 1;
      LowerManyReached(g0, at[..n], blocks, names, inputs);
      var g := LowerMany(g0, at[..n], blocks, names).value;
      ReachedStep(g0, g, at[n].0, at[n].1, blocks + 3 * n, NamesAfter(names, n), inputs);
    }
  }

  /** Whatever positions are chosen, the graph reached means what the first one means. */
  lemma LowerManyCorrect(g0: Cfg, at: seq<(BlockId, nat)>, blocks: BlockId, names: nat, inputs: set<Name>)
    requires Ready(g0, blocks, names, inputs) && LowerMany(g0, at, blocks, names).Some?
    ensures SameRuns(g0, LowerMany(g0, at, blocks, names).value, inputs)
  {
    LowerManyReached(g0, at, blocks, names, inputs);
  }

  lemma LowerManyAppend(g0: Cfg, at: seq<(BlockId, nat)>, blocks: BlockId, names: nat, g: Cfg, b: BlockId, i: nat)
    requires LowerMany(g0, at, blocks, names) == Some(g) && b in g && i < |g[b].ops| && IsStructured(g[b].ops[i])
    ensures LowerMany(g0, at + [(b, i)], blocks, names) == LowerAt(g, b, i, blocks + 3 * |at|, NamesAfter(names, |at|))
  {
    hide LowerAt;
    assert (at + [(b, i)])[..|at|] == at;
  }

  lemma LowerAtSmaller(g: Cfg, b: BlockId, i: nat, blocks: BlockId, names: nat)
    requires Closed(g, blocks) && b in g && i < |g[b].ops| && IsStructured(g[b].ops[i])
    requires LowerAt(g, b, i, blocks, names).Some?
    ensures CfgSize(LowerAt(g, b, i, blocks, names).value, blocks + 3) < CfgSize(g, blocks)
  {
    ClonedSize(g, b, i, blocks, names);
    ClonedClosed(g, b, i, blocks, names);
    SplicedSmaller(Cloned(g, b, i, names), b, i, blocks);
  }

  lemma LowerManyProgress(
      g0: Cfg, at: seq<(BlockId, nat)>, blocks: BlockId, names: nat, inputs: set<Name>, g: Cfg, b: BlockId, i: nat,
        k: BlockId, n: nat)
    requires Ready(g0, blocks, names, inputs) && LowerMany(g0, at, blocks, names) == Some(g)
    requires k == blocks + 3 * |at| && n == NamesAfter(names, |at|)
    requires b in g && i < |g[b].ops| && IsStructured(g[b].ops[i])
    ensures WfCfg(g0) ==> LowerAt(g, b, i, k, n).Some?
    ensures LowerAt(g, b, i, k, n).Some? ==> CfgSize(LowerAt(g, b, i, k, n).value, k + 3) < CfgSize(g, k)
  {
    LowerManyReached(g0, at, blocks, names, inputs);
    if WfCfg(g0) {
      LowerAtWf(g, b, i, k, n);
    }
    if LowerAt(g, b, i, k, n).Some? {
      LowerAtSmaller(g, b, i, k, n);
    }
  }

  lemma LowerManyEnd(g0: Cfg, at: seq<(BlockId, nat)>, blocks: BlockId, names: nat, inputs: set<Name>, g: Cfg)
    requires Ready(g0, blocks, names, inputs) && LowerMany(g0, at, blocks, names) == Some(g) && Pending(g) == {}
    ensures Flat(g) && g0.Keys <= g.Keys && SameRuns(g0, g, inputs)
  {
    LowerManyReached(g0, at, blocks, names, inputs);
    forall b | b in g ensures !HasStructured(g[b].ops) {
      assert b !in Pending(g);
    }
  }

  /** Applies the patterns until no structured op is left.  Which op of which block is lowered next
      is left open; an op inside a region cannot be chosen before the op that owns the region. */
  method LowerControlFlow(g0: Cfg, blocks: BlockId, names: nat, ghost inputs: set<Name>) returns (r: Option<Cfg>)
    requires Ready(g0, blocks, names, inputs)
    ensures r.Some? ==> Flat(r.value) && g0.Keys <= r.value.Keys && SameRuns(g0, r.value, inputs)
    ensures WfCfg(g0) ==> r.Some?
  {
    hide LowerAt;
    var g, k, n := g0, blocks, names;
    ghost var at: seq<(BlockId, nat)> := [];
    while Pending(g) != {}
      invariant LowerMany(g0, at, blocks, names) == Some(g)
      invariant k == blocks + 3 * |at| && n == NamesAfter(names, |at|)
      decreases CfgSize(g, k)
    {
      var b :| b in Pending(g);
      var i: nat :| i < |g[b].ops| && IsStructured(g[b].ops[i]);
      var next := LowerAt(g, b, i, k, n);
      LowerManyProgress(g0, at, blocks, names, inputs, g, b, i, k, n);
      LowerManyAppend(g0, at, blocks, names, g, b, i);
      if next.None? {
        return None;
      }
      g, k, n, at := next.value, k + 3, 2 * n, at + [(b, i)];
    }
    LowerManyEnd(g0, at, blocks, names, inputs, g);
    r := Some(g);
  }

  lemma SameRunsReflexive(g: Cfg, inputs: set<Name>)
    ensures SameRuns(g, g, inputs)
  {
  }

  lemma SameRunsTransitive(g0: Cfg, g1: Cfg, g2: Cfg, inputs: set<Name>)
    requires SameRuns(g0, g1, inputs) && SameRuns(g1, g2, inputs) && g0.Keys <= g1.Keys
    ensures SameRuns(g0, g2, inputs)
  {
    forall sem: Sem, entry: BlockId, s: St, r: Out | entry in g0 && s.env.Keys <= inputs
      ensures Runs(sem, g0, entry, s, r) == Runs(sem, g2, entry, s, r)
    {
      assert Runs(sem, g0, entry, s, r) == Runs(sem, g1, entry, s, r);
    }
  }
}
