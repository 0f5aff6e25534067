/** Lowering one structured op of a function. */
module LuaControlFlow {
  // Lowering an op copies its regions and splices the copies into the flat blocks.  It may be done at
  // any op of any block, outermost first.

  import opened LuaIr
  import opened LuaLowering
  import opened LuaClone
  import opened LuaOwnership

  datatype Option<T> = None | Some(value: T)

  // ----- Copying the regions of an op

  /** Each region is copied with a mapping of its own: only the values that region defines get new
      names, here by adding `n`, which is above every name in use. */
  function CloneRegion(n: nat, b: Block): Block { RenBlock(OpsDefs(b.ops), n, b) }

  function CloneRegions(n: nat, op: Op): Op {
    match op
    case Prim(_, _, _) => op
    case CondIf(c, a, b) => CondIf(c, CloneRegion(n, a), CloneRegion(n, b))
    case LoopWhile(a, b) => LoopWhile(CloneRegion(n, a), CloneRegion(n, b))
    case Repeat(a, b) => Repeat(CloneRegion(n, a), CloneRegion(n, b))
  }

  function Cloned(g: Cfg, b: BlockId, i: nat, n: nat): Cfg
    requires b in g && i < |g[b].ops|
  {
    g[b := Block(g[b].ops[i := CloneRegions(n, g[b].ops[i])], g[b].term)]
  }

  /** Two copies made apart are one copy of the whole op when neither region uses the other's values. */
  lemma CloneIsRenaming(n: nat, op: Op, out: set<Name>)
    requires IsStructured(op) && OwnOp(op, out)
    ensures CloneRegions(n, op) == RenOp(OpDefs(op), n, op)
  {
    var a, b := RegA(op), RegB(op);
    RenRegs(OpDefs(op), n, op);
    OpNamesByRegion(op);
    RenBlockSame(OpsDefs(a.ops), OpDefs(op), n, a);
    RenBlockSame(OpsDefs(b.ops), OpDefs(op), n, b);
  }

  lemma RenOpsUntouched(d: set<Name>, n: nat, ops: seq<Op>)
    requires d !! OpsNames(ops)
    ensures RenOps(d, n, ops) == ops
  {
    RenOpsSame(d, {}, n, ops);
    RenOpsNothing(n, ops);
  }

  lemma RenBlockUntouched(d: set<Name>, n: nat, b: Block)
    requires d !! BlockNames(b)
    ensures RenBlock(d, n, b) == b
  {
    RenBlockSame(d, {}, n, b);
    RenBlockNothing(n, b);
  }

  lemma CloneRenamesBlock(n: nat, pre: seq<Op>, op: Op, post: seq<Op>, t: Term, out: set<Name>)
    requires IsStructured(op) && OwnOps(pre + [op] + post, out) && TermNames(t) <= out
    ensures RenBlock(OpDefs(op), n, Block(pre + [op] + post, t)) == Block(pre + [CloneRegions(n, op)] + post, t)
    ensures OpDefs(op) !! out
  {
    var d := OpDefs(op);
    OwnParts(pre, op, post, out);
    CloneIsRenaming(n, op, out + OpsNames(pre) + OpsNames(post));
    RenOpsUntouched(d, n, pre);
    RenOpsUntouched(d, n, post);
    RenBlockUntouched(d, n, Block([], t));
    RenOpsAppend(d, n, pre + [op], post);
    RenOpsAppend(d, n, pre, [op]);
    assert RenOps(d, n, [op]) == [RenOp(d, n, op)];
  }

  /** Copying the regions of an op renames its private values throughout the graph. */
  lemma CloneRenamesGraph(g: Cfg, b: BlockId, i: nat, n: nat, inputs: set<Name>)
    requires b in g && i < |g[b].ops| && IsStructured(g[b].ops[i]) && OwnCfg(g, inputs)
    ensures Cloned(g, b, i, n) == RenCfg(OpDefs(g[b].ops[i]), n, g)
    ensures OpDefs(g[b].ops[i]) !! inputs
  {
    CloneRenamesOwn(g, b, i, n, inputs);
    OthersUntouched(g, b, i, n, inputs);
    hide OwnCfg, OwnOps, OpDefs, CloneRegions, RenBlock, IsStructured;
  }

  lemma CloneRenamesOwn(g: Cfg, b: BlockId, i: nat, n: nat, inputs: set<Name>)
    requires b in g && i < |g[b].ops| && IsStructured(g[b].ops[i]) && OwnCfg(g, inputs)
    ensures RenBlock(OpDefs(g[b].ops[i]), n, g[b]) == Block(g[b].ops[i := CloneRegions(n, g[b].ops[i])], g[b].term)
    ensures OpDefs(g[b].ops[i]) !! Around(g, inputs, b)
  {
    var op, pre, post, t := g[b].ops[i], g[b].ops[..i], g[b].ops[i + 1..], g[b].term;
    assert g[b].ops == pre + [op] + post;
    assert g[b].ops[i := CloneRegions(n, op)] == pre + [CloneRegions(n, op)] + post;
    CloneRenamesBlock(n, pre, op, post, t, Around(g, inputs, b));
    assert g[b] == Block(pre + [op] + post, t);
  }

  lemma OthersUntouched(g: Cfg, b: BlockId, i: nat, n: nat, inputs: set<Name>)
    requires b in g && i < |g[b].ops| && OpDefs(g[b].ops[i]) !! Around(g, inputs, b)
    ensures forall e :: e in g && e != b ==> RenBlock(OpDefs(g[b].ops[i]), n, g[e]) == g[e]
  {
    hide OpDefs, RenBlock;
    forall e | e in g && e != b
      ensures RenBlock(OpDefs(g[b].ops[i]), n, g[e]) == g[e]
    {
      NamesExceptHas(g, b, e);
      RenBlockUntouched(OpDefs(g[b].ops[i]), n, g[e]);
    }
  }

  // ----- What a lowering must preserve

  /** The two functions return the same cells and leave the same heap and output, or neither
      returns, whatever the ordinary ops do and whatever cells the inputs are bound to. */
  ghost predicate SameRuns(g: Cfg, g': Cfg, inputs: set<Name>) {
    forall sem: Sem, entry: BlockId, s: St, r: Out ::
      entry in g && s.env.Keys <= inputs ==> Runs(sem, g, entry, s, r) == Runs(sem, g', entry, s, r)
  }

  lemma SameRunsSameDivergence(g: Cfg, g': Cfg, inputs: set<Name>, sem: Sem, entry: BlockId, s: St)
    requires SameRuns(g, g', inputs) && entry in g && s.env.Keys <= inputs
    ensures Diverges(sem, g, entry, s) <==> Diverges(sem, g', entry, s)
  {
    NoOutcomeIsDivergence(sem, g, entry, s);
    NoOutcomeIsDivergence(sem, g', entry, s);
  }

  lemma NoOutcomeIsDivergence(sem: Sem, g: Cfg, entry: BlockId, s: St)
    ensures Diverges(sem, g, entry, s) <==> forall r :: !Runs(sem, g, entry, s, r)
  {
    forall fuel: nat | !Call(sem, g, entry, s, fuel).Timeout?
      ensures Runs(sem, g, entry, s, Call(sem, g, entry, s, fuel))
    {
      RunCodeOutcome(sem, g, [], Br(entry), s, fuel);
    }
  }

  lemma RenSameRuns(d: set<Name>, n: nat, g: Cfg, inputs: set<Name>)
    requires CfgBelow(g, n) && Below(inputs, n) && d !! inputs
    ensures SameRuns(g, RenCfg(d, n, g), inputs)
  {
    var g' := RenCfg(d, n, g);
    forall sem: Sem, entry: BlockId, s: St, r: Out | entry in g && s.env.Keys <= inputs
      ensures Runs(sem, g, entry, s, r) == Runs(sem, g', entry, s, r)
    {
      forall fuel: nat
        ensures Call(sem, g', entry, s, fuel) == Call(sem, g, entry, s, fuel)
      {
        RenRunCode(sem, d, n, n, g, [], Br(entry), s, s, fuel);
      }
    }
  }

  // ----- One lowering step

  /** The pattern's result: `None` when a region has the wrong terminator. */
  function LowerAt(g: Cfg, b: BlockId, i: nat, blocks: BlockId, names: nat): Option<Cfg>
    requires b in g && i < |g[b].ops| && IsStructured(g[b].ops[i])
  {
    var g1 := Cloned(g, b, i, names);
    if SpliceAt(g1, b, i, blocks).Split? then Some(Spliced(g1, b, i, blocks)) else None
  }

  ghost predicate Ready(g: Cfg, blocks: BlockId, names: nat, inputs: set<Name>) {
    Closed(g, blocks) && CfgBelow(g, names) && Below(inputs, names) && OwnCfg(g, inputs)
  }

  lemma ClonedReady(g: Cfg, b: BlockId, i: nat, blocks: BlockId, names: nat, inputs: set<Name>)
    requires Ready(g, blocks, names, inputs) && b in g && i < |g[b].ops| && IsStructured(g[b].ops[i])
    ensures Ready(Cloned(g, b, i, names), blocks, 2 * names, inputs)
    ensures SameRuns(g, Cloned(g, b, i, names), inputs)
  {
    var d := OpDefs(g[b].ops[i]);
    CloneRenamesGraph(g, b, i, names, inputs);
    RenSameRuns(d, names, g, inputs);
    RenOwnCfg(d, names, names, g, inputs);
    assert Image(d, names, inputs) == inputs;
    forall e | e in g
      ensures Below(BlockNames(RenBlock(d, names, g[e])), 2 * names)
    {
      RenBlockNames(d, names, g[e]);
      assert Below(BlockNames(g[e]), names);
    }
  }

  lemma SplicedReady(g: Cfg, b: BlockId, i: nat, blocks: BlockId, names: nat, inputs: set<Name>)
    requires Ready(g, blocks, names, inputs) && SpliceAt(g, b, i, blocks).Split?
    ensures Ready(Spliced(g, b, i, blocks), blocks + 3, names, inputs)
  {
    var g' := Spliced(g, b, i, blocks);
    var op, pre, post, t := g[b].ops[i], g[b].ops[..i], g[b].ops[i + 1..], g[b].term;
    SplicedPieces(g, b, i, blocks);
    SplicedOwn(g, g', b, pre, op, post, t, blocks, inputs);
    PieceNamesWithin(g, g', b, pre, op, post, t, blocks);
    SplicedClosed(g, b, i, blocks);
    forall e | e in g'
      ensures Below(BlockNames(g'[e]), names)
    {
      assert Below(BlockNames(g[b]), names);
      if e in g && e != b {
        assert Below(BlockNames(g[e]), names);
      }
    }
  }

  lemma SplicedClosed(g: Cfg, b: BlockId, i: nat, n: BlockId)
    requires Closed(g, n) && SpliceAt(g, b, i, n).Split?
    ensures Closed(Spliced(g, b, i, n), n + 3)
  {
    SplicedReplaces(g, b, i, n);
    SplicedKeys(g, b, i, n);
    ReplacedClosed(g, Spliced(g, b, i, n), b, i, n);
  }

  lemma ReplacedClosed(g: Cfg, g': Cfg, b: BlockId, i: nat, n: BlockId)
    requires Closed(g, n) && Replaces(g, g', b, i, n)
    requires g'.Keys == g.Keys + (if g[b].ops[i].Repeat? then {n, n + 1} else {n, n + 1, n + 2})
    ensures Closed(g', n + 3)
  {
    assert Targets(g[b].term) <= g.Keys;
    forall d | d in g'
      ensures d < n + 3 && Targets(g'[d].term) <= g'.Keys
    {
      if d in g && d != b {
        assert Targets(g[d].term) <= g.Keys;
      }
    }
  }

  /** A step leaves a graph on which the next step may be taken. */
  lemma LowerAtReady(g: Cfg, b: BlockId, i: nat, blocks: BlockId, names: nat, inputs: set<Name>)
    requires Ready(g, blocks, names, inputs) && b in g && i < |g[b].ops| && IsStructured(g[b].ops[i])
    requires LowerAt(g, b, i, blocks, names).Some?
    ensures Ready(LowerAt(g, b, i, blocks, names).value, blocks + 3, 2 * names, inputs)
  {
    ClonedReady(g, b, i, blocks, names, inputs);
    SplicedReady(Cloned(g, b, i, names), b, i, blocks, 2 * names, inputs);
  }

  /** One step of any of the three patterns, at any op of any block, preserves meaning. */
  lemma LowerAtCorrect(g: Cfg, b: BlockId, i: nat, blocks: BlockId, names: nat, inputs: set<Name>)
    requires Ready(g, blocks, names, inputs) && b in g && i < |g[b].ops| && IsStructured(g[b].ops[i])
    requires LowerAt(g, b, i, blocks, names).Some?
    ensures var g' := LowerAt(g, b, i, blocks, names).value; SameRuns(g, g', inputs) && g.Keys <= g'.Keys
  {
    var g1 := Cloned(g, b, i, names);
    var g' := Spliced(g1, b, i, blocks);
    ClonedReady(g, b, i, blocks, names, inputs);
    SplicedKeys(g1, b, i, blocks);
    forall sem: Sem, entry: BlockId, s: St, r: Out | entry in g && s.env.Keys <= inputs
      ensures Runs(sem, g, entry, s, r) == Runs(sem, g', entry, s, r)
    {
      SplicedSame(sem, g1, b, i, blocks, entry, s, r);
    }
  }
}
