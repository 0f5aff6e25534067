/** Structured control flow of the Lua dialect, and flat control flow. */
module LuaIr {
  // Values of the dialect are cells: a name (an SSA value) is bound to the location of a cell, and
  // ops read and write cells.  What an ordinary op does (arithmetic, `lua.copy`, `lua.call`,
  // `lua.function_def_capture`, ...) is a parameter of the semantics, so that everything proved here
  // holds whatever those ops do to the cells and to the outside world.

  type Name = nat
  type Loc = nat
  type BlockId = nat

  datatype Val = Nil | Bool(b: bool) | Num(n: int) | Fcn(id: nat)

  datatype Op =
    | Prim(kind: nat, res: seq<Name>, args: seq<Name>)
    | CondIf(cond: Name, first: Block, second: Block)
    | LoopWhile(eval: Block, body: Block)
    | Repeat(body: Block, eval: Block)

  datatype Block = Block(ops: seq<Op>, term: Term)

  /** `Until` ends the region of a `lua.repeat`; its own region is the `eval` of `Repeat`.
      `CondBr` stands for `luac.convert_bool_like` followed by `std.cond_br`. */
  datatype Term =
    | End
    | Until
    | Cond(c: Name)
    | Ret(vals: seq<Name>)
    | Br(dest: BlockId)
    | CondBr(c: Name, onTrue: BlockId, onFalse: BlockId)

  type Cfg = map<BlockId, Block>

  predicate IsStructured(op: Op) { !op.Prim? }

  // ----- State and meaning of ordinary ops

  datatype World = World(heap: seq<Val>, out: seq<Val>)

  datatype St = St(env: map<Name, Loc>, w: World)

  /** An ordinary op goes through, fails, or never comes back, as a call may. */
  datatype Ending = Goes | Fails | Hangs

  /** `result(kind, args, w, i)` is the cell of the i-th result, `effect` the world afterwards. */
  datatype Sem = Sem(
    ending: (nat, seq<Loc>, World) -> Ending,
    result: (nat, seq<Loc>, World, nat) -> Loc,
    effect: (nat, seq<Loc>, World) -> World)

  function Get(env: map<Name, Loc>, x: Name): Loc {
    if x in env then env[x] else 0
  }

  function Locs(env: map<Name, Loc>, xs: seq<Name>): seq<Loc> {
    seq(|xs|, i requires 0 <= i < |xs| => Get(env, xs[i]))
  }

  function Bind(env: map<Name, Loc>, res: seq<Name>, result: nat -> Loc): map<Name, Loc> {
    if res == [] then env
    else Bind(env, res[..|res| - 1], result)[res[|res| - 1] := result(|res| - 1)]
  }

  function StepPrim(sem: Sem, kind: nat, res: seq<Name>, args: seq<Name>, s: St): St {
    var locs := Locs(s.env, args);
    St(Bind(s.env, res, i => sem.result(kind, locs, s.w, i)), sem.effect(kind, locs, s.w))
  }

  /** `luac.convert_bool_like`: nil and false are false, everything else is true. */
  function Truthy(v: Val): bool {
    match v
    case Nil => false
    case Bool(b) => b
    case _ => true
  }

  function Test(s: St, x: Name): bool {
    var l := Get(s.env, x);
    l < |s.w.heap| && Truthy(s.w.heap[l])
  }

  // ----- Running structured ops, then blocks

  datatype Out = Timeout | Stuck | Normal(st: St) | Returned(vals: seq<Loc>, w: World)

  predicate Definite(o: Out) { o.Stuck? || o.Returned? }

  function ExecPrim(sem: Sem, kind: nat, res: seq<Name>, args: seq<Name>, s: St): Out {
    match sem.ending(kind, Locs(s.env, args), s.w)
    case Goes => Normal(StepPrim(sem, kind, res, args, s))
    case Fails => Stuck
    case Hangs => Timeout
  }

  function ExecOps(sem: Sem, ops: seq<Op>, s: St, fuel: nat): Out
    decreases fuel, ops, 0
  {
    if ops == [] then Normal(s)
    else match ExecOp(sem, ops[0], s, fuel)
      case Normal(s1) => ExecOps(sem, ops[1..], s1, fuel)
      case o => o
  }

  function ExecOp(sem: Sem, op: Op, s: St, fuel: nat): Out
    decreases fuel, op, 1
  {
    match op
    case Prim(kind, res, args) => ExecPrim(sem, kind, res, args, s)
    case CondIf(c, a, b) => ExecArm(sem, if Test(s, c) then a else b, s, fuel)
    case LoopWhile(e, b) =>
      if fuel == 0 then Timeout
      else (match ExecOps(sem, e.ops, s, fuel)
        case Normal(s1) =>
          if !e.term.Cond? then Stuck
          else if !Test(s1, e.term.c) then Normal(s1)
          else (match ExecOps(sem, b.ops, s1, fuel)
            case Normal(s2) => if b.term.End? then ExecOp(sem, op, s2, fuel - 1) else Stuck
            case o => o)
        case o => o)
    case Repeat(b, e) =>
      if fuel == 0 then Timeout
      else (match ExecOps(sem, b.ops, s, fuel)
        case Normal(s1) =>
          if !b.term.Until? then Stuck
          else (match ExecOps(sem, e.ops, s1, fuel)
            case Normal(s2) =>
              if !e.term.Cond? then Stuck
              else if Test(s2, e.term.c) then Normal(s2)
              else ExecOp(sem, op, s2, fuel - 1)
            case o => o)
        case o => o)
  }

  /** One region of a `lua.cond_if`: `lua.end` falls through, `lua.ret` leaves the function. */
  function ExecArm(sem: Sem, b: Block, s: St, fuel: nat): Out
    decreases fuel, b, 0
  {
    match ExecOps(sem, b.ops, s, fuel)
    case Normal(s1) =>
      (match b.term
       case End => Normal(s1)
       case Ret(vs) => Returned(Locs(s1.env, vs), s1.w)
       case _ => Stuck)
    case o => o
  }

  /** Where a terminator goes: to a block, or out of the function. */
  datatype Exit = To(dest: BlockId) | Out(out: Out)

  function Leave(t: Term, s: St): Exit {
    match t
    case Ret(vs) => Exit.Out(Returned(Locs(s.env, vs), s.w))
    case Br(d) => To(d)
    case CondBr(c, d1, d2) => To(if Test(s, c) then d1 else d2)
    case _ => Exit.Out(Stuck)
  }

  /** Running the rest of a block, then the blocks it branches to; each branch uses one fuel. */
  function RunCode(sem: Sem, g: Cfg, ops: seq<Op>, t: Term, s: St, fuel: nat): Out
    decreases fuel
  {
    match ExecOps(sem, ops, s, fuel)
    case Normal(s1) =>
      (match Leave(t, s1)
       case Out(o) => o
       case To(d) =>
         if fuel == 0 then Timeout
         else if d !in g then Stuck
         else RunCode(sem, g, g[d].ops, g[d].term, s1, fuel - 1))
    case o => o
  }

  function RunTerm(sem: Sem, g: Cfg, t: Term, s: St, fuel: nat): Out {
    RunCode(sem, g, [], t, s, fuel)
  }

  /** Running the body of a function whose entry block is `entry`. */
  function Call(sem: Sem, g: Cfg, entry: BlockId, s: St, fuel: nat): Out {
    RunTerm(sem, g, Br(entry), s, fuel)
  }

  /** The code ends with outcome `r` (a returned pack, or a malformed region), given enough fuel. */
  ghost predicate CodeRuns(sem: Sem, g: Cfg, ops: seq<Op>, t: Term, s: St, r: Out) {
    Definite(r) && exists fuel: nat :: RunCode(sem, g, ops, t, s, fuel) == r
  }

  ghost predicate Runs(sem: Sem, g: Cfg, entry: BlockId, s: St, r: Out) {
    Definite(r) && exists fuel: nat :: Call(sem, g, entry, s, fuel) == r
  }

  ghost predicate Diverges(sem: Sem, g: Cfg, entry: BlockId, s: St) {
    forall fuel: nat :: Call(sem, g, entry, s, fuel).Timeout?
  }

  // ----- Fuel

  lemma {:induction false} ExecOpsMono(sem: Sem, ops: seq<Op>, s: St, f: nat, k: nat)
    requires f <= k && !ExecOps(sem, ops, s, f).Timeout?
    ensures ExecOps(sem, ops, s, k) == ExecOps(sem, ops, s, f)
    decreases f, ops, 0
  {
    if ops != [] {
      ExecOpMono(sem, ops[0], s, f, k);
      var o := ExecOp(sem, ops[0], s, f);
      if o.Normal? {
        ExecOpsMono(sem, ops[1..], o.st, f, k);
      }
    }
  }

  lemma {:induction false} ExecOpMono(sem: Sem, op: Op, s: St, f: nat, k: nat)
    requires f <= k && !ExecOp(sem, op, s, f).Timeout?
    ensures ExecOp(sem, op, s, k) == ExecOp(sem, op, s, f)
    decreases f, op, 1
  {
    match op
    case Prim(_, _, _) =>
    case CondIf(c, a, b) =>
      ExecOpsMono(sem, (if Test(s, c) then a else b).ops, s, f, k);
    case LoopWhile(e, b) =>
      ExecOpsMono(sem, e.ops, s, f, k);
      var o := ExecOps(sem, e.ops, s, f);
      if o.Normal? && e.term.Cond? && Test(o.st, e.term.c) {
        ExecOpsMono(sem, b.ops, o.st, f, k);
        var o2 := ExecOps(sem, b.ops, o.st, f);
        if o2.Normal? && b.term.End? {
          ExecOpMono(sem, op, o2.st, f - 1, k - 1);
        }
      }
    case Repeat(b, e) =>
      ExecOpsMono(sem, b.ops, s, f, k);
      var o := ExecOps(sem, b.ops, s, f);
      if o.Normal? && b.term.Until? {
        ExecOpsMono(sem, e.ops, o.st, f, k);
        var o2 := ExecOps(sem, e.ops, o.st, f);
        if o2.Normal? && e.term.Cond? && !Test(o2.st, e.term.c) {
          ExecOpMono(sem, op, o2.st, f - 1, k - 1);
        }
      }
  }

  lemma {:induction false} RunCodeMono(sem: Sem, g: Cfg, ops: seq<Op>, t: Term, s: St, f: nat, k: nat)
    requires f <= k && !RunCode(sem, g, ops, t, s, f).Timeout?
    ensures RunCode(sem, g, ops, t, s, k) == RunCode(sem, g, ops, t, s, f)
    decreases f
  {
    ExecOpsMono(sem, ops, s, f, k);
    var o := ExecOps(sem, ops, s, f);
    if o.Normal? && Leave(t, o.st).To? && Leave(t, o.st).dest in g {
      var d := Leave(t, o.st).dest;
      RunCodeMono(sem, g, g[d].ops, g[d].term, o.st, f - 1, k - 1);
    }
  }

  /** A run has one outcome, so divergence is exactly the absence of an outcome. */
  lemma {:induction false} RunsDeterministic(sem: Sem, g: Cfg, entry: BlockId, s: St, r1: Out, r2: Out)
    requires Runs(sem, g, entry, s, r1) && Runs(sem, g, entry, s, r2)
    ensures r1 == r2
  {
    var f1: nat :| Call(sem, g, entry, s, f1) == r1;
    var f2: nat :| Call(sem, g, entry, s, f2) == r2;
    var m := if f1 < f2 then f2 else f1;
    RunCodeMono(sem, g, [], Br(entry), s, f1, m);
    RunCodeMono(sem, g, [], Br(entry), s, f2, m);
  }

  lemma {:induction false} RunCodeOutcome(sem: Sem, g: Cfg, ops: seq<Op>, t: Term, s: St, fuel: nat)
    ensures var o := RunCode(sem, g, ops, t, s, fuel); o.Timeout? || Definite(o)
    decreases fuel
  {
    var o := ExecOps(sem, ops, s, fuel);
    if o.Normal? && fuel > 0 && Leave(t, o.st).To? && Leave(t, o.st).dest in g {
      var d := Leave(t, o.st).dest;
      RunCodeOutcome(sem, g, g[d].ops, g[d].term, o.st, fuel - 1);
    }
  }

  /** Executing a concatenation is executing the halves in turn. */
  lemma {:induction false} ExecOpsAppend(sem: Sem, a: seq<Op>, c: seq<Op>, s: St, fuel: nat)
    ensures ExecOps(sem, a + c, s, fuel) ==
            (match ExecOps(sem, a, s, fuel) case Normal(s1) => ExecOps(sem, c, s1, fuel) case o => o)
    decreases |a|
  {
    if a == [] {
      assert a + c == c;
    } else {
      assert (a + c)[1..] == a[1..] + c;
      var o := ExecOp(sem, a[0], s, fuel);
      if o.Normal? {
        ExecOpsAppend(sem, a[1..], c, o.st, fuel);
      }
    }
  }
}
