/** Statements to flat blocks. */
module LuaCompiled {
  // Generation and lowering together: what a function's statements mean is what its blocks do.

  import opened LuaIr
  import opened LuaGenerator
  import opened LuaLowering
  import opened LuaOwnership
  import opened LuaControlFlow
  import opened LuaLowerAll

  /** The statements end in a definite way. */
  ghost predicate ChunkRuns(sem: Sem, c: Chunk, s: St, r: Out) {
    Definite(r) && exists fuel: nat :: RunChunk(sem, c, s, fuel) == r
  }

  /** The function as it is generated: one block. */
  function Generated(c: Chunk): Cfg { map[0 := ChunkBlock(c)] }

  lemma GeneratedCall(sem: Sem, c: Chunk, s: St, fuel: nat)
    requires c.ret.Some? && fuel > 0
    ensures Call(sem, Generated(c), 0, s, fuel) == RunChunk(sem, c, s, fuel - 1)
  {
    var b := ChunkBlock(c);
    GeneratedChunk(sem, c, s, fuel - 1);
    assert ExecOps(sem, [], s, fuel) == Normal(s);
    assert Call(sem, Generated(c), 0, s, fuel) == RunCode(sem, Generated(c), b.ops, b.term, s, fuel - 1);
  }

  lemma GeneratedMeans(sem: Sem, c: Chunk, s: St, r: Out)
    requires c.ret.Some?
    ensures Runs(sem, Generated(c), 0, s, r) <==> ChunkRuns(sem, c, s, r)
  {
    if Runs(sem, Generated(c), 0, s, r) {
      var fuel: nat :| Call(sem, Generated(c), 0, s, fuel) == r;
      assert fuel > 0;
      GeneratedCall(sem, c, s, fuel);
    }
    if ChunkRuns(sem, c, s, r) {
      var fuel: nat :| RunChunk(sem, c, s, fuel) == r;
      GeneratedCall(sem, c, s, fuel + 1);
      assert Call(sem, Generated(c), 0, s, fuel + 1) == r;
    }
  }

  // ----- Generated regions end as the patterns expect

  lemma {:induction false} PrimsWf(ops: seq<Plain>)
    ensures WfOps(Prims(ops))
    decreases |ops|
  {
    if ops != [] {
      PrimsWf(ops[1..]);
      assert Prims(ops)[1..] == Prims(ops[1..]);
    }
  }

  lemma {:induction false} StatsWf(stats: seq<Stat>)
    ensures WfOps(Ops(stats))
    decreases stats, 0
  {
    if stats != [] {
      StatWf(stats[0]);
      StatsWf(stats[1..]);
      WfOpsAppend(OpsOf(stats[0]), Ops(stats[1..]));
    }
  }

  lemma {:induction false} ChunkWf(c: Chunk)
    ensures WfOps(ChunkBlock(c).ops) && ArmOk(ChunkBlock(c).term)
    decreases c, 1
  {
    StatsWf(c.stats);
    if c.ret.Some? {
      PrimsWf(c.ret.value.ops);
      WfOpsAppend(Ops(c.stats), Prims(c.ret.value.ops));
    }
  }

  lemma {:induction false} ArmWf(arm: Arm)
    ensures WfOps(ArmBlock(arm).ops) && ArmOk(ArmBlock(arm).term)
    decreases arm, 0
  {
    ChunkWf(arm.body);
  }

  lemma OneWf(ops: seq<Plain>, op: Op)
    requires WfOp(op)
    ensures WfOps(Prims(ops) + [op])
  {
    PrimsWf(ops);
    assert [op][1..] == [];
    WfOpsAppend(Prims(ops), [op]);
  }

  lemma SingleWf(op: Op)
    requires WfOp(op)
    ensures WfOps([op])
  {
    assert [op][1..] == [];
  }

  lemma {:induction false} NestedWf(arms: seq<Arm>, last: Block)
    requires WfOps(last.ops) && ArmOk(last.term)
    ensures WfOps(Nested(arms, last).ops) && ArmOk(Nested(arms, last).term)
    decreases arms, 0
  {
    if arms != [] {
      ArmWf(arms[0]);
      NestedWf(arms[1..], last);
      OneWf(arms[0].cond.ops, CondIf(arms[0].cond.value, ArmBlock(arms[0]), Nested(arms[1..], last)));
    }
  }

  lemma {:induction false} StatWf(stat: Stat)
    ensures WfOps(OpsOf(stat))
    decreases stat, 1
  {
    match stat
    case Do(ops) => PrimsWf(ops);
    case If(first, rest, orelse) =>
      var last := if orelse.Some? then ChunkBlock(orelse.value) else Block([], End);
      if orelse.Some? {
        ChunkWf(orelse.value);
      }
      ArmWf(first);
      NestedWf(rest, last);
      OneWf(first.cond.ops, CondIf(first.cond.value, ArmBlock(first), Nested(rest, last)));
    case While(c, body) =>
      PrimsWf(c.ops);
      StatsWf(body);
      SingleWf(LoopWhile(EvalBlock(c), Block(Ops(body), End)));
    case RepeatUntil(body, c) =>
      PrimsWf(c.ops);
      StatsWf(body);
      SingleWf(Repeat(Block(Ops(body), Until), EvalBlock(c)));
  }

  // ----- The whole way

  /** Whatever positions are chosen for lowering, the graph reached does what the statements mean, for
      every meaning of the ordinary ops, failing and never-ending ones included. */
  lemma CompiledMeans(
      c: Chunk, at: seq<(BlockId, nat)>, names: nat, inputs: set<Name>, sem: Sem, s: St, r: Out)
    requires c.ret.Some? && Ready(Generated(c), 1, names, inputs) && s.env.Keys <= inputs
    requires LowerMany(Generated(c), at, 1, names).Some?
    ensures Runs(sem, LowerMany(Generated(c), at, 1, names).value, 0, s, r) <==> ChunkRuns(sem, c, s, r)
  {
    var g0 := Generated(c);
    LowerManyCorrect(g0, at, 1, names, inputs);
    GeneratedMeans(sem, c, s, r);
    assert Runs(sem, g0, 0, s, r) == Runs(sem, LowerMany(g0, at, 1, names).value, 0, s, r);
  }

  /** Generates and lowers: this always succeeds, and leaves flat blocks that mean the statements. */
  method Compile(c: Chunk, names: nat, ghost inputs: set<Name>) returns (g: Cfg)
    requires c.ret.Some? && Ready(Generated(c), 1, names, inputs)
    ensures Flat(g) && 0 in g
    ensures forall sem: Sem, s: St, r: Out ::
              s.env.Keys <= inputs ==> (Runs(sem, g, 0, s, r) <==> ChunkRuns(sem, c, s, r))
  {
    ChunkWf(c);
    var lowered := LowerControlFlow(Generated(c), 1, names, inputs);
    g := lowered.value;
    forall sem: Sem, s: St, r: Out | s.env.Keys <= inputs
      ensures Runs(sem, g, 0, s, r) <==> ChunkRuns(sem, c, s, r)
    {
      GeneratedMeans(sem, c, s, r);
      assert Runs(sem, Generated(c), 0, s, r) == Runs(sem, g, 0, s, r);
    }
  }
}
