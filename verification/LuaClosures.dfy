/** Functions and the values they capture. */
module LuaClosures {
  // `lua.function_def`, which sees the values around it, becomes `lua.function_def_capture`, which
  // sees only the cells it was handed, and then `luaopt.pack_func`, which gets them in one object.

  type Name = nat
  type Loc = nat

  datatype Val = Nil | Bool(b: bool) | Num(n: int) | Fcn(id: nat)

  /** `params`, `args` and `caps` name arguments of a function's entry block, or values defined at its
      start.  The entry block of a `lua.function_def_capture` has one argument for each capture and
      then one for each parameter; in a `luaopt.pack_func` the two kinds have been read from the
      capture object and from the argument pack.  A loop runs `eval`, tests `cond`, which may be defined
      there, and runs `body`; a `repeat` goes on while `cond` is false and has all its ops in `eval`.  The
      block of a `for` has an argument for each loop variable.  `Ret` leaves the function early. */
  datatype Op =
    | Prim(kind: nat, res: Name, args: seq<Name>)
    | Copy(tgt: Name, src: Name)
    | CallOp(outs: seq<Name>, callee: Name, args: seq<Name>)
    | CondIf(cond: Name, thn: seq<Op>, els: seq<Op>)
    | Loop(until: bool, eval: seq<Op>, cond: Name, body: seq<Op>)
    | For(numeric: bool, args: seq<Name>, params: seq<Name>, body: seq<Op>)
    | Ret(vals: seq<Name>)
    | FunctionDef(res: Name, params: seq<Name>, fcn: Body)
    | FunctionDefCapture(res: Name, captures: seq<Name>, args: seq<Name>, fcn: Body)
    | PackFunc(res: Name, captures: seq<Name>, caps: seq<Name>, params: seq<Name>, fcn: Body)

  datatype Body = Body(ops: seq<Op>, rets: seq<Name>)

  /** The body sees only what has been handed to it. */
  predicate IsClosed(op: Op) { op.FunctionDefCapture? || op.PackFunc? }

  /** What the body of a closed function may read: captured values first, then parameters. */
  function Inputs(op: Op): seq<Name>
    requires IsClosed(op)
  {
    if op.PackFunc? then op.caps + op.params else op.args
  }

  // ----- Names

  function Names(xs: seq<Name>): set<Name> { set x | x in xs }

  /** Names visible to the ops after this one. */
  function Outs(op: Op): seq<Name> {
    match op
    case Prim(_, r, _) => [r]
    case CallOp(rs, _, _) => rs
    case FunctionDef(r, _, _) => [r]
    case FunctionDefCapture(r, _, _, _) => [r]
    case PackFunc(r, _, _, _, _) => [r]
    case _ => []
  }

  function Results(op: Op): set<Name> { Names(Outs(op)) }

  function OpsResults(ops: seq<Op>): set<Name> {
    if ops == [] then {} else Results(ops[0]) + OpsResults(ops[1..])
  }

  /** The values an op reads that neither it nor its regions define. */
  function FreeOp(op: Op): set<Name>
    decreases op, 1
  {
    match op
    case Prim(_, _, args) => Names(args)
    case Copy(t, s) => {t, s}
    case CallOp(_, f, args) => {f} + Names(args)
    case CondIf(c, a, b) => {c} + FreeOps(a) + FreeOps(b)
    case Loop(_, e, c, b) => FreeOps(e) + ({c} - OpsResults(e)) + FreeOps(b)
    case For(_, args, ps, b) => Names(args) + (FreeOps(b) - Names(ps))
    case Ret(vals) => Names(vals)
    case FunctionDef(_, ps, f) => FreeOps(f.ops) + (Names(f.rets) - OpsResults(f.ops)) - Names(ps)
    case FunctionDefCapture(_, cs, _, _) => Names(cs)
    case PackFunc(_, cs, _, _, _) => Names(cs)
  }

  function FreeOps(ops: seq<Op>): set<Name>
    decreases ops, 0
  {
    if ops == [] then {} else FreeOp(ops[0]) + (FreeOps(ops[1..]) - Results(ops[0]))
  }

  function FreeBody(f: Body): set<Name> { FreeOps(f.ops) + (Names(f.rets) - OpsResults(f.ops)) }

  // ----- The captured set as the compiler computes it

  /** Operands of an op and of every op nested in it. */
  function Operands(op: Op): set<Name>
    decreases op, 1
  {
    match op
    case Prim(_, _, args) => Names(args)
    case Copy(t, s) => {t, s}
    case CallOp(_, f, args) => {f} + Names(args)
    case CondIf(c, a, b) => {c} + OpsOperands(a) + OpsOperands(b)
    case Loop(_, e, c, b) => OpsOperands(e) + {c} + OpsOperands(b)
    case For(_, args, _, b) => Names(args) + OpsOperands(b)
    case Ret(vals) => Names(vals)
    case FunctionDef(_, _, f) => OpsOperands(f.ops) + Names(f.rets)
    case FunctionDefCapture(_, cs, _, f) => Names(cs) + OpsOperands(f.ops) + Names(f.rets)
    case PackFunc(_, cs, _, _, f) => Names(cs) + OpsOperands(f.ops) + Names(f.rets)
  }

  function OpsOperands(ops: seq<Op>): set<Name>
    decreases ops, 0
  {
    if ops == [] then {} else Operands(ops[0]) + OpsOperands(ops[1..])
  }

  /** Values defined by an op or anywhere inside it, block arguments included. */
  function Defined(op: Op): set<Name>
    decreases op, 1
  {
    match op
    case CondIf(_, a, b) => OpsDefined(a) + OpsDefined(b)
    case Loop(_, e, _, b) => OpsDefined(e) + OpsDefined(b)
    case For(_, _, ps, b) => Names(ps) + OpsDefined(b)
    case FunctionDef(r, ps, f) => {r} + Names(ps) + OpsDefined(f.ops)
    case FunctionDefCapture(r, _, xs, f) => {r} + Names(xs) + OpsDefined(f.ops)
    case PackFunc(r, _, xs, ps, f) => {r} + Names(xs + ps) + OpsDefined(f.ops)
    case _ => Results(op)
  }

  function OpsDefined(ops: seq<Op>): set<Name>
    decreases ops, 0
  {
    if ops == [] then {} else Defined(ops[0]) + OpsDefined(ops[1..])
  }

  /** A converted function reads nothing but its block arguments. */
  predicate Isolated(ops: seq<Op>)
    decreases ops, 0
  {
    ops == [] || (IsolatedOp(ops[0]) && Isolated(ops[1..]))
  }

  predicate IsolatedOp(op: Op)
    decreases op, 1
  {
    match op
    case CondIf(_, a, b) => Isolated(a) && Isolated(b)
    case Loop(_, e, _, b) => Isolated(e) && Isolated(b)
    case For(_, _, _, b) => Isolated(b)
    case FunctionDef(_, _, f) => Isolated(f.ops)
    case FunctionDefCapture(_, _, xs, f) => FreeBody(f) <= Names(xs) && Isolated(f.ops)
    case PackFunc(_, _, xs, ps, f) => FreeBody(f) <= Names(xs + ps) && Isolated(f.ops)
    case _ => true
  }

  lemma {:induction false} OpsResultsDefined(ops: seq<Op>)
    ensures OpsResults(ops) <= OpsDefined(ops)
    decreases ops
  {
    if ops != [] {
      OpsResultsDefined(ops[1..]);
    }
  }

  /** Used inside but not defined inside is free, and a free value is used inside. */
  lemma {:induction false} FreeBetween(ops: seq<Op>)
    requires Isolated(ops)
    ensures OpsOperands(ops) - OpsDefined(ops) <= FreeOps(ops) <= OpsOperands(ops)
    decreases ops, 0
  {
    if ops != [] {
      FreeBetweenOp(ops[0]);
      FreeBetween(ops[1..]);
    }
  }

  lemma {:induction false} FreeBetweenOp(op: Op)
    requires IsolatedOp(op)
    ensures Operands(op) - Defined(op) <= FreeOp(op) <= Operands(op)
    ensures Results(op) <= Defined(op)
    decreases op, 1
  {
    match op
    case CondIf(_, a, b) => FreeBetween(a); FreeBetween(b);
    case Loop(_, e, _, b) => FreeBetween(e); FreeBetween(b); OpsResultsDefined(e);
    case For(_, _, _, b) => FreeBetween(b);
    case FunctionDef(_, _, f) => FreeBetween(f.ops); OpsResultsDefined(f.ops);
    case FunctionDefCapture(_, _, _, f) => ClosedBetween(op, f);
    case PackFunc(_, _, _, _, f) => ClosedBetween(op, f);
    case _ =>
  }

  lemma {:induction false} ClosedBetween(op: Op, f: Body)
    requires IsClosed(op) && IsolatedOp(op) && f == op.fcn
    ensures Operands(op) - Defined(op) <= FreeOp(op) <= Operands(op)
    decreases op, 0
  {
    FreeBetween(f.ops);
    OpsResultsDefined(f.ops);
    assert FreeBody(f) <= Names(Inputs(op));
    forall x | x in Operands(op) - Defined(op)
      ensures x in Names(op.captures)
    {
      assert x in FreeBody(f) || x in Names(op.captures);
    }
  }

  /** `explicitCapture` collects exactly the free values of the function, as long as no value from
      outside is defined again inside, which single assignment guarantees. */
  lemma CaptureSetExact(params: seq<Name>, f: Body)
    requires Isolated(f.ops)
    requires FreeBody(f) - Names(params) !! OpsDefined(f.ops)
    ensures (OpsOperands(f.ops) + Names(f.rets)) - (Names(params) + OpsDefined(f.ops)) == FreeBody(f) - Names(params)
  {
    FreeBetween(f.ops);
    OpsResultsDefined(f.ops);
  }

  predicate Distinct(xs: seq<Name>) { forall i, j :: 0 <= i < j < |xs| ==> xs[i] != xs[j] }

  /** `cs` lists the captured set in some order. */
  predicate Lists(cs: seq<Name>, params: seq<Name>, f: Body) {
    Distinct(cs) && Names(cs) == FreeBody(f) - Names(params)
  }
}
