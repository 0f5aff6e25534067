/** Values numbered in the order in which the generator creates them. */
module LuaNumbered {
  // Every op gets new values for its results and reads values that are visible where it stands: inputs,
  // and results of earlier ops of the blocks around it.  Lowering needs no more than that.

  import opened LuaIr
  import opened LuaClone
  import opened LuaLowering
  import opened LuaOwnership
  import opened LuaControlFlow
  import opened LuaGenerator
  import opened LuaLowerAll
  import opened LuaCompiled

  /** How many values are defined, at all depths. */
  function CountOp(op: Op): nat
    decreases op, 1
  {
    match op
    case Prim(_, res, _) => |res|
    case CondIf(_, a, b) => Count(a.ops) + Count(b.ops)
    case LoopWhile(a, b) => Count(a.ops) + Count(b.ops)
    case Repeat(a, b) => Count(a.ops) + Count(b.ops)
  }

  function Count(ops: seq<Op>): nat
    decreases ops, 0
  {
    if ops == [] then 0 else CountOp(ops[0]) + Count(ops[1..])
  }

  /** What later ops of the same block see of an op. */
  function Visible(op: Op): set<Name> { if op.Prim? then SeqNames(op.res) else {} }

  function AllVisible(ops: seq<Op>): set<Name> {
    if ops == [] then {} else Visible(ops[0]) + AllVisible(ops[1..])
  }

  /** `v` are the values visible before the ops, and `n` is the next number. */
  ghost predicate Numbered(ops: seq<Op>, v: set<Name>, n: nat)
    decreases ops, 0
  {
    ops == [] || (NumberedOp(ops[0], v, n) && Numbered(ops[1..], v + Visible(ops[0]), n + CountOp(ops[0])))
  }

  /** The condition of a `repeat` reads no value of the body. */
  ghost predicate NumberedOp(op: Op, v: set<Name>, n: nat)
    decreases op, 1
  {
    match op
    case Prim(_, res, args) => SeqNames(args) <= v && forall i :: 0 <= i < |res| ==> res[i] == n + i
    case CondIf(c, a, b) => c in v && NumberedBlock(a, v, n) && NumberedBlock(b, v, n + Count(a.ops))
    case LoopWhile(a, b) => NumberedBlock(a, v, n) && NumberedBlock(b, v, n + Count(a.ops))
    case Repeat(a, b) => NumberedBlock(a, v, n) && NumberedBlock(b, v, n + Count(a.ops))
  }

  ghost predicate NumberedBlock(b: Block, v: set<Name>, n: nat)
    decreases b, 0
  {
    Numbered(b.ops, v, n) && TermNames(b.term) <= v + AllVisible(b.ops)
  }

  /** Visible before, or numbered from `n` up to `n'`. */
  ghost predicate Within(xs: set<Name>, v: set<Name>, n: nat, n': nat) {
    forall x :: x in xs ==> x in v || n <= x < n'
  }

  /** Of the numbers from `n` up to `n'` only some are mentioned. */
  ghost predicate Spares(xs: set<Name>, n: nat, n': nat, some: set<Name>) {
    forall x :: x in xs && n <= x < n' ==> x in some
  }

  // ----- What is mentioned and defined

  lemma {:induction false} NumberedNames(ops: seq<Op>, v: set<Name>, n: nat)
    requires Numbered(ops, v, n)
    ensures Within(OpsNames(ops), v, n, n + Count(ops)) && Within(OpsDefs(ops), {}, n, n + Count(ops))
    ensures Within(AllVisible(ops), {}, n, n + Count(ops))
    decreases ops, 0
  {
    if ops != [] {
      NumberedOpNames(ops[0], v, n);
      NumberedNames(ops[1..], v + Visible(ops[0]), n + CountOp(ops[0]));
    }
  }

  lemma {:induction false} NumberedOpNames(op: Op, v: set<Name>, n: nat)
    requires NumberedOp(op, v, n)
    ensures Within(OpNames(op), v, n, n + CountOp(op)) && Within(OpDefs(op), {}, n, n + CountOp(op))
    ensures Within(Visible(op), {}, n, n + CountOp(op))
    decreases op, 1
  {
    match op
    case Prim(_, _, _) =>
    case CondIf(_, a, b) => BothNames(op, a, b, v, n);
    case LoopWhile(a, b) => BothNames(op, a, b, v, n);
    case Repeat(a, b) => BothNames(op, a, b, v, n);
  }

  lemma {:induction false} BothNames(op: Op, a: Block, b: Block, v: set<Name>, n: nat)
    requires IsStructured(op) && a == RegA(op) && b == RegB(op)
    requires NumberedBlock(a, v, n) && NumberedBlock(b, v, n + Count(a.ops))
    ensures Within(BlockNames(a), v, n, n + Count(a.ops)) && Within(OpsDefs(a.ops), {}, n, n + Count(a.ops))
    ensures var m := n + Count(a.ops);
            Within(BlockNames(b), v, m, m + Count(b.ops)) && Within(OpsDefs(b.ops), {}, m, m + Count(b.ops))
    decreases op, 0
  {
    NumberedNames(a.ops, v, n);
    NumberedNames(b.ops, v, n + Count(a.ops));
  }

  // ----- Regions keep their values

  /** Of what the ops define, code outside mentions at most what is visible after them. */
  lemma {:induction false} NumberedOwn(ops: seq<Op>, v: set<Name>, n: nat, out: set<Name>)
    requires Numbered(ops, v, n) && Below(v, n) && Spares(out, n, n + Count(ops), AllVisible(ops))
    ensures OwnOps(ops, out)
    decreases ops, 0
  {
    if ops != [] {
      var op, rest, n1 := ops[0], ops[1..], n + CountOp(ops[0]);
      NumberedOpNames(op, v, n);
      NumberedNames(rest, v + Visible(op), n1);
      hide NumberedOp, OwnOp, CountOp, Visible;
      VisibleWithin(op);
      NumberedOwnOp(op, v, n, out + OpsNames(rest));
      NumberedOwn(rest, v + Visible(op), n1, out + OpNames(op));
    }
  }

  lemma VisibleWithin(op: Op)
    ensures IsStructured(op) ==> Visible(op) == {}
  {
  }

  lemma {:induction false} NumberedOwnOp(op: Op, v: set<Name>, n: nat, out: set<Name>)
    requires NumberedOp(op, v, n) && Below(v, n) && (IsStructured(op) ==> Spares(out, n, n + CountOp(op), {}))
    ensures OwnOp(op, out)
    decreases op, 1
  {
    if IsStructured(op) {
      var a, b := RegA(op), RegB(op);
      Regions(op, v, n);
      BothNames(op, a, b, v, n);
      BothOwn(op, v, n, out);
      PrivateDefs(op, v, n, out);
    }
  }

  lemma Regions(op: Op, v: set<Name>, n: nat)
    requires NumberedOp(op, v, n) && IsStructured(op)
    ensures NumberedBlock(RegA(op), v, n) && NumberedBlock(RegB(op), v, n + Count(RegA(op).ops)) && Head(op) <= v
    ensures CountOp(op) == Count(RegA(op).ops) + Count(RegB(op).ops)
  {
  }

  /** What the op defines is not mentioned around it, and what one region defines not in the other. */
  lemma PrivateDefs(op: Op, v: set<Name>, n: nat, out: set<Name>)
    requires NumberedOp(op, v, n) && Below(v, n) && IsStructured(op) && Spares(out, n, n + CountOp(op), {})
    ensures OpDefs(op) !! out + Head(op) && Apart(RegA(op), RegB(op))
  {
    Regions(op, v, n);
    BothNames(op, RegA(op), RegB(op), v, n);
    OpNamesByRegion(op);
    hide NumberedOp, NumberedBlock, OpDefs, OpsDefs, BlockNames, CountOp, Count;
  }

  lemma {:induction false} BothOwn(op: Op, v: set<Name>, n: nat, out: set<Name>)
    requires NumberedOp(op, v, n) && Below(v, n) && IsStructured(op) && Spares(out, n, n + CountOp(op), {})
    ensures OwnOps(RegA(op).ops, out + Head(op) + TermNames(RegA(op).term) + BlockNames(RegB(op)))
    ensures OwnOps(RegB(op).ops, out + Head(op) + TermNames(RegB(op).term) + BlockNames(RegA(op)))
    decreases op, 0
  {
    hide NumberedOp, Numbered, OwnOps, BlockNames, CountOp, Count, AllVisible;
    var a, b := RegA(op), RegB(op);
    Regions(op, v, n);
    BothNames(op, a, b, v, n);
    NumberedOwn(a.ops, v, n, out + Head(op) + TermNames(a.term) + BlockNames(b));
    NumberedOwn(b.ops, v, n + Count(a.ops), out + Head(op) + TermNames(b.term) + BlockNames(a));
  }

  // ----- The whole way, for every function

  /** A function whose values are numbered so is ready to be lowered. */
  lemma NumberedReady(c: Chunk, inputs: set<Name>, n: nat)
    requires c.ret.Some? && Below(inputs, n) && NumberedBlock(ChunkBlock(c), inputs, n)
    ensures Ready(Generated(c), 1, n + Count(ChunkBlock(c).ops), inputs)
  {
    var b, g := ChunkBlock(c), Generated(c);
    NumberedNames(b.ops, inputs, n);
    assert NamesExcept(g, 0) == {};
    NumberedOwn(b.ops, inputs, n, Around(g, inputs, 0));
  }

  /** Statements whose values are numbered in order: whatever positions are chosen for lowering, the
      graph reached does what the statements mean. */
  lemma NumberedMeans(
      c: Chunk, at: seq<(BlockId, nat)>, n: nat, inputs: set<Name>, sem: Sem, s: St, r: Out)
    requires c.ret.Some? && Below(inputs, n) && NumberedBlock(ChunkBlock(c), inputs, n) && s.env.Keys <= inputs
    requires LowerMany(Generated(c), at, 1, n + Count(ChunkBlock(c).ops)).Some?
    ensures Runs(sem, LowerMany(Generated(c), at, 1, n + Count(ChunkBlock(c).ops)).value, 0, s, r)
            <==> ChunkRuns(sem, c, s, r)
  {
    hide Numbered, NumberedBlock, Ready, LowerMany, Runs, ChunkRuns, Generated, ChunkBlock, Count;
    NumberedReady(c, inputs, n);
    CompiledMeans(c, at, n + Count(ChunkBlock(c).ops), inputs, sem, s, r);
  }
}
