/** What statements mean, and the structured ops generated for them. */
module LuaGenerator {
  import opened LuaIr

  datatype Option<T> = None | Some(value: T)

  // ----- Statements

  /** An ordinary op of an expression. */
  datatype Plain = Plain(kind: nat, res: seq<Name>, args: seq<Name>)

  datatype Expr = Expr(ops: seq<Plain>, value: Name)

  datatype Return = Return(ops: seq<Plain>, vals: seq<Name>)

  /** `body` of the loops has no return statement, which the generator refuses there. */
  datatype Stat =
    | Do(ops: seq<Plain>)
    | If(ifArm: Arm, elseifs: seq<Arm>, orelse: Option<Chunk>)
    | While(cond: Expr, body: seq<Stat>)
    | RepeatUntil(body: seq<Stat>, cond: Expr)

  datatype Arm = Arm(cond: Expr, body: Chunk)

  datatype Chunk = Chunk(stats: seq<Stat>, ret: Option<Return>)

  // ----- What statements mean

  function Prims(ops: seq<Plain>): (r: seq<Op>)
    ensures |r| == |ops|
    ensures forall i :: 0 <= i < |ops| ==> r[i] == Prim(ops[i].kind, ops[i].res, ops[i].args)
  {
    if ops == [] then [] else [Prim(ops[0].kind, ops[0].res, ops[0].args)] + Prims(ops[1..])
  }

  /** Evaluation may fail or never end. */
  function Eval(sem: Sem, ops: seq<Plain>, s: St): Out {
    if ops == [] then Normal(s)
    else match ExecPrim(sem, ops[0].kind, ops[0].res, ops[0].args, s)
      case Normal(s1) => Eval(sem, ops[1..], s1)
      case o => o
  }

  function RunStats(sem: Sem, stats: seq<Stat>, s: St, fuel: nat): Out
    decreases fuel, stats, 0
  {
    if stats == [] then Normal(s)
    else match RunStat(sem, stats[0], s, fuel)
      case Normal(s1) => RunStats(sem, stats[1..], s1, fuel)
      case o => o
  }

  /** The first arm whose condition holds, or none and the state all the conditions leave. */
  datatype Choice = Took(out: Out) | Fell(st: St)

  /** Conditions are evaluated one after the other, and none after the first that holds. */
  function RunArms(sem: Sem, arms: seq<Arm>, s: St, fuel: nat): Choice
    decreases fuel, arms, 0
  {
    if arms == [] then Fell(s)
    else match Eval(sem, arms[0].cond.ops, s)
      case Normal(s1) =>
        if Test(s1, arms[0].cond.value) then Took(RunArm(sem, arms[0], s1, fuel))
        else RunArms(sem, arms[1..], s1, fuel)
      case o => Took(o)
  }

  function RunArm(sem: Sem, arm: Arm, s: St, fuel: nat): Out
    decreases fuel, arm, 0
  {
    RunChunk(sem, arm.body, s, fuel)
  }

  function RunChunk(sem: Sem, c: Chunk, s: St, fuel: nat): Out
    decreases fuel, c, 0
  {
    match RunStats(sem, c.stats, s, fuel)
    case Normal(s1) =>
      (match c.ret
       case None => Normal(s1)
       case Some(r) =>
         (match Eval(sem, r.ops, s1)
          case Normal(s2) => Returned(Locs(s2.env, r.vals), s2.w)
          case o => o))
    case o => o
  }

  function RunStat(sem: Sem, stat: Stat, s: St, fuel: nat): Out
    decreases fuel, stat, 1
  {
    match stat
    case Do(ops) => Eval(sem, ops, s)
    case If(first, rest, orelse) =>
      (match Eval(sem, first.cond.ops, s)
       case Normal(s1) =>
         if Test(s1, first.cond.value) then RunArm(sem, first, s1, fuel)
         else (match RunArms(sem, rest, s1, fuel)
           case Took(o) => o
           case Fell(s2) => if orelse.Some? then RunChunk(sem, orelse.value, s2, fuel) else Normal(s2))
       case o => o)
    case While(c, body) =>
      if fuel == 0 then Timeout
      else (match Eval(sem, c.ops, s)
        case Normal(s1) =>
          if !Test(s1, c.value) then Normal(s1)
          else (match RunStats(sem, body, s1, fuel)
            case Normal(s2) => RunStat(sem, stat, s2, fuel - 1)
            case o => o)
        case o => o)
    case RepeatUntil(body, c) =>
      if fuel == 0 then Timeout
      else (match RunStats(sem, body, s, fuel)
        case Normal(s1) =>
          (match Eval(sem, c.ops, s1)
           case Normal(s2) => if Test(s2, c.value) then Normal(s2) else RunStat(sem, stat, s2, fuel - 1)
           case o => o)
        case o => o)
  }

  // ----- The structured ops for them

  function Ops(stats: seq<Stat>): seq<Op>
    decreases stats, 0
  {
    if stats == [] then [] else OpsOf(stats[0]) + Ops(stats[1..])
  }

  function EvalBlock(e: Expr): Block { Block(Prims(e.ops), Cond(e.value)) }

  function OpsOf(stat: Stat): seq<Op>
    decreases stat, 1
  {
    match stat
    case Do(ops) => Prims(ops)
    case If(first, rest, orelse) =>
      var last := if orelse.Some? then ChunkBlock(orelse.value) else Block([], End);
      Prims(first.cond.ops) + [CondIf(first.cond.value, ArmBlock(first), Nested(rest, last))]
    case While(c, body) => [LoopWhile(EvalBlock(c), Block(Ops(body), End))]
    case RepeatUntil(body, c) => [Repeat(Block(Ops(body), Until), EvalBlock(c))]
  }

  function ChunkBlock(c: Chunk): Block
    decreases c, 1
  {
    if c.ret.Some? then Block(Ops(c.stats) + Prims(c.ret.value.ops), Ret(c.ret.value.vals))
      else Block(Ops(c.stats), End)
  }

  /** The second region of a `lua.cond_if`: the next one, or what follows `else`. */
  function Nested(arms: seq<Arm>, last: Block): Block
    decreases arms, 0
  {
    if arms == [] then last
    else
      var cond := arms[0].cond;
      Block(Prims(cond.ops) + [CondIf(cond.value, ArmBlock(arms[0]), Nested(arms[1..], last))], End)
  }

  function ArmBlock(arm: Arm): Block
    decreases arm, 0
  {
    ChunkBlock(arm.body)
  }

  // ----- They mean the same

  lemma {:induction false} ExecPrims(sem: Sem, ops: seq<Plain>, rest: seq<Op>, s: St, fuel: nat)
    ensures ExecOps(sem, Prims(ops) + rest, s, fuel) ==
            (match Eval(sem, ops, s) case Normal(s1) => ExecOps(sem, rest, s1, fuel) case o => o)
    decreases |ops|
  {
    if ops == [] {
      assert Prims(ops) + rest == rest;
    } else {
      var all := Prims(ops) + rest;
      assert all[1..] == Prims(ops[1..]) + rest;
      var o := ExecPrim(sem, ops[0].kind, ops[0].res, ops[0].args, s);
      if o.Normal? {
        ExecPrims(sem, ops[1..], rest, o.st, fuel);
      }
    }
  }

  lemma ExecEval(sem: Sem, ops: seq<Plain>, s: St, fuel: nat)
    ensures ExecOps(sem, Prims(ops), s, fuel) == Eval(sem, ops, s)
  {
    ExecPrims(sem, ops, [], s, fuel);
    assert Prims(ops) + [] == Prims(ops);
  }

  lemma ExecOne(sem: Sem, op: Op, s: St, fuel: nat)
    ensures ExecOps(sem, [op], s, fuel) == ExecOp(sem, op, s, fuel)
  {
    assert [op][1..] == [];
    match ExecOp(sem, op, s, fuel) {
      case Normal(s1) => assert ExecOps(sem, [], s1, fuel) == Normal(s1);
      case _ =>
    }
  }

  /** For every statement list, state and amount of fuel, the generated ops run as the statements. */
  lemma {:induction false} GeneratedRuns(sem: Sem, stats: seq<Stat>, s: St, fuel: nat)
    ensures ExecOps(sem, Ops(stats), s, fuel) == RunStats(sem, stats, s, fuel)
    decreases fuel, stats, 0
  {
    if stats != [] {
      GeneratedStat(sem, stats[0], s, fuel);
      ExecOpsAppend(sem, OpsOf(stats[0]), Ops(stats[1..]), s, fuel);
      match RunStat(sem, stats[0], s, fuel) {
        case Normal(s1) => GeneratedRuns(sem, stats[1..], s1, fuel);
        case _ =>
      }
    }
  }

  lemma {:induction false} GeneratedChunk(sem: Sem, c: Chunk, s: St, fuel: nat)
    ensures ExecArm(sem, ChunkBlock(c), s, fuel) == RunChunk(sem, c, s, fuel)
    decreases fuel, c, 0
  {
    GeneratedRuns(sem, c.stats, s, fuel);
    if c.ret.Some? {
      ExecOpsAppend(sem, Ops(c.stats), Prims(c.ret.value.ops), s, fuel);
      match RunStats(sem, c.stats, s, fuel) {
        case Normal(s1) => ExecEval(sem, c.ret.value.ops, s1, fuel);
        case _ =>
      }
    }
  }

  lemma {:induction false} GeneratedArm(sem: Sem, a: Arm, s: St, fuel: nat)
    ensures ExecArm(sem, ArmBlock(a), s, fuel) == RunArm(sem, a, s, fuel)
    decreases fuel, a, 0
  {
    GeneratedChunk(sem, a.body, s, fuel);
  }

  lemma {:induction false} GeneratedArms(sem: Sem, arms: seq<Arm>, last: Block, s: St, fuel: nat)
    ensures ExecArm(sem, Nested(arms, last), s, fuel) ==
            (match RunArms(sem, arms, s, fuel)
             case Took(o) => o
             case Fell(s1) => ExecArm(sem, last, s1, fuel))
    decreases fuel, arms, 0
  {
    if arms != [] {
      var a := arms[0];
      var op := CondIf(a.cond.value, ArmBlock(a), Nested(arms[1..], last));
      ExecPrims(sem, a.cond.ops, [op], s, fuel);
      match Eval(sem, a.cond.ops, s) {
        case Normal(s1) =>
          ExecOne(sem, op, s1, fuel);
          if Test(s1, a.cond.value) {
            GeneratedArm(sem, a, s1, fuel);
          } else {
            GeneratedArms(sem, arms[1..], last, s1, fuel);
          }
        case _ =>
      }
    }
  }

  lemma {:induction false} GeneratedStat(sem: Sem, stat: Stat, s: St, fuel: nat)
    ensures ExecOps(sem, OpsOf(stat), s, fuel) == RunStat(sem, stat, s, fuel)
    decreases fuel, stat, 1
  {
    match stat {
      case Do(ops) => ExecEval(sem, ops, s, fuel);
      case If(_, _, _) => GeneratedIf(sem, stat, s, fuel);
      case While(c, body) => GeneratedWhile(sem, stat, s, fuel);
      case RepeatUntil(body, c) => GeneratedRepeat(sem, stat, s, fuel);
    }
  }

  lemma {:induction false} GeneratedIf(sem: Sem, stat: Stat, s: St, fuel: nat)
    requires stat.If?
    ensures ExecOps(sem, OpsOf(stat), s, fuel) == RunStat(sem, stat, s, fuel)
    decreases fuel, stat, 0
  {
    var first, rest, orelse := stat.ifArm, stat.elseifs, stat.orelse;
    var last := if orelse.Some? then ChunkBlock(orelse.value) else Block([], End);
    var op := CondIf(first.cond.value, ArmBlock(first), Nested(rest, last));
    ExecPrims(sem, first.cond.ops, [op], s, fuel);
    match Eval(sem, first.cond.ops, s) {
      case Normal(s1) =>
        ExecOne(sem, op, s1, fuel);
        if Test(s1, first.cond.value) {
          GeneratedArm(sem, first, s1, fuel);
        } else {
          GeneratedArms(sem, rest, last, s1, fuel);
          match RunArms(sem, rest, s1, fuel) {
            case Took(_) =>
            case Fell(s2) =>
              if orelse.Some? {
                GeneratedChunk(sem, orelse.value, s2, fuel);
              }
          }
        }
      case _ =>
    }
  }

  lemma {:induction false} GeneratedWhile(sem: Sem, stat: Stat, s: St, fuel: nat)
    requires stat.While?
    ensures ExecOps(sem, OpsOf(stat), s, fuel) == RunStat(sem, stat, s, fuel)
    decreases fuel, stat, 0
  {
    hide Eval, Prims, Ops, RunStats, Test, ExecOps;
    var op := OpsOf(stat)[0];
    ExecOne(sem, op, s, fuel);
    if fuel > 0 {
      ExecEval(sem, stat.cond.ops, s, fuel);
      match Eval(sem, stat.cond.ops, s) {
        case Normal(s1) =>
          GeneratedRuns(sem, stat.body, s1, fuel);
          match RunStats(sem, stat.body, s1, fuel) {
            case Normal(s2) =>
              GeneratedStat(sem, stat, s2, fuel - 1);
              ExecOne(sem, op, s2, fuel - 1);
            case _ =>
          }
        case _ =>
      }
    }
  }

  lemma {:induction false} GeneratedRepeat(sem: Sem, stat: Stat, s: St, fuel: nat)
    requires stat.RepeatUntil?
    ensures ExecOps(sem, OpsOf(stat), s, fuel) == RunStat(sem, stat, s, fuel)
    decreases fuel, stat, 0
  {
    hide Eval, Prims, Ops, RunStats, Test, ExecOps;
    var op := OpsOf(stat)[0];
    ExecOne(sem, op, s, fuel);
    if fuel > 0 {
      GeneratedRuns(sem, stat.body, s, fuel);
      match RunStats(sem, stat.body, s, fuel) {
        case Normal(s1) =>
          ExecEval(sem, stat.cond.ops, s1, fuel);
          match Eval(sem, stat.cond.ops, s1) {
            case Normal(s2) =>
              GeneratedStat(sem, stat, s2, fuel - 1);
              ExecOne(sem, op, s2, fuel - 1);
            case _ =>
          }
        case _ =>
      }
    }
  }
}
