/** What calls mean: they pass a list of values and get a list of values. */
module LuaCalls {
  // Sections 3.4.10 and 3.4.11 of the Lua 5.3 Reference Manual speak of lists of values.  Packs, and
  // the two buffers that all packs share in the lowered code, are measured against this in `LuaPacks`.

  type Var = nat
  type Loc = nat
  type Prim = (nat, seq<Val>) -> Val
  type Env = map<Var, Loc>
  type Heap = seq<Val>

  /** The size of the two global buffers. */
  const CAPACITY: nat := 16

  datatype Option<T> = None | Some(value: T)

  /** A function value is code plus the cells it captured. */
  datatype Val = Nil | Bool(b: bool) | Num(n: int) | Clo(fcn: nat, caps: seq<Loc>)

  // ----- Programs

  datatype Exp =
    | Const(v: Val)
    | Var(x: Var)
    | Op(kind: nat, args: seq<Exp>)
    | MakeFcn(fcn: nat, caps: seq<Var>)
    | First(call: Call)  // a call cut to one value: `lua.unpack` of one value

  datatype Call = Call(fcn: Exp, args: ExpList)

  /** Values followed by all the results of a last call, if the list ends in one. */
  datatype ExpList = ExpList(vals: seq<Exp>, tail: Option<Call>)

  datatype Stat =
    | Local(x: Var)
    | Assign(xs: seq<Var>, rhs: ExpList)
    | CallStat(call: Call)
    | If(cond: Exp, thn: seq<Stat>, els: seq<Stat>)
    | While(cond: Exp, body: seq<Stat>)
    | Return(rets: ExpList)

  datatype Fun = Fun(caps: seq<Var>, params: seq<Var>, body: seq<Stat>)
  type Program = map<nat, Fun>

  datatype R<T> = Ok(v: T) | Timeout | Stuck | TooBig {
    predicate IsFailure() { !Ok? }

    function PropagateFailure<U>(): R<U>
      requires IsFailure()
    {
      match this case Timeout => Timeout case Stuck => Stuck case TooBig => TooBig
    }

    function Extract(): T
      requires !IsFailure()
    {
      v
    }
  }

  // ----- Cells

  function Read(h: Heap, l: Loc): Val { if l < |h| then h[l] else Nil }

  function ReadAll(h: Heap, ls: seq<Loc>): (r: seq<Val>)
    ensures |r| == |ls|
  {
    seq(|ls|, i requires 0 <= i < |ls| => Read(h, ls[i]))
  }

  function CellOf(env: Env, x: Var): Loc { if x in env then env[x] else 0 }

  function Cells(env: Env, xs: seq<Var>): (r: seq<Loc>)
    ensures |r| == |xs|
  {
    seq(|xs|, i requires 0 <= i < |xs| => CellOf(env, xs[i]))
  }

  function CellsFrom(first: Loc, n: nat): (r: seq<Loc>)
    ensures |r| == n
  {
    seq(n, i requires 0 <= i < n => first + i)
  }

  function Truthy(v: Val): bool { v != Nil && v != Bool(false) }

  /** `lua.copy` of each source cell to each target cell, in order. */
  function CopyAll(heap: Heap, tgts: seq<Loc>, srcs: seq<Loc>): Heap
    decreases tgts
  {
    if tgts == [] || srcs == [] then heap
    else CopyAll(if tgts[0] < |heap| then heap[tgts[0] := Read(heap, srcs[0])] else heap, tgts[1..], srcs[1..])
  }

  // ----- The interpreter

  datatype End = Went(env: Env, heap: Heap) | Gave(vals: seq<Val>, heap: Heap)

  /** A list of values that is passed or returned; there may be no more than the buffers hold. */
  function Limited(vs: seq<Val>): R<seq<Val>> { if |vs| > CAPACITY then TooBig else Ok(vs) }

  /** The first `n` of the values, with nil for those that are missing. */
  function Adjusted(vs: seq<Val>, n: int): seq<Val>
    decreases n
  {
    if n <= 0 then []
    else if vs == [] then [Nil] + Adjusted([], n - 1)
    else [vs[0]] + Adjusted(vs[1..], n - 1)
  }

  function BindCaps(env: Env, xs: seq<Var>, ls: seq<Loc>): Env
    decreases xs
  {
    if xs == [] || ls == [] then env else BindCaps(env[xs[0] := ls[0]], xs[1..], ls[1..])
  }

  /** Each parameter in turn names a new cell with its argument. */
  function BindParams(env: Env, h: Heap, xs: seq<Var>, args: seq<Val>): (Env, Heap)
    decreases xs
  {
    if xs == [] then (env, h)
    else if args == [] then BindParams(env[xs[0] := |h|], h + [Nil], xs[1..], [])
    else BindParams(env[xs[0] := |h|], h + [args[0]], xs[1..], args[1..])
  }

  /** Multiple assignment: the listed cells are sources themselves, the tail's values are put into new
      cells, and every target is copied to. */
  function Spread(env: Env, xs: seq<Var>, ls: seq<Loc>, more: seq<Val>, h: Heap): Heap {
    var extra := Adjusted(more, |xs| - |ls|);
    CopyAll(h + extra, Cells(env, xs), ls + CellsFrom(|h|, |extra|))
  }

  function RunExp(p: Program, prim: Prim, e: Exp, env: Env, h: Heap, fuel: nat): R<(Loc, Heap)>
    decreases fuel, 1, e, 1
  {
    match e
    case Const(v) => Ok((|h|, h + [v]))
    case Var(x) => Ok((CellOf(env, x), h))
    case Op(kind, args) =>
      var (ls, h1) :- RunExps(p, prim, args, env, h, fuel);
      Ok((|h1|, h1 + [prim(kind, ReadAll(h1, ls))]))
    case MakeFcn(f, caps) => Ok((|h|, h + [Clo(f, Cells(env, caps))]))
    case First(c) =>
      var (vs, h1) :- RunCall(p, prim, c, env, h, fuel);
      Ok((|h1|, h1 + [if vs == [] then Nil else vs[0]]))
  }

  function RunExps(p: Program, prim: Prim, es: seq<Exp>, env: Env, h: Heap, fuel: nat): R<(seq<Loc>, Heap)>
    decreases fuel, 1, es, 0
  {
    if es == [] then Ok(([], h))
    else
      var (l, h1) :- RunExp(p, prim, es[0], env, h, fuel);
      var (ls, h2) :- RunExps(p, prim, es[1..], env, h1, fuel);
      Ok(([l] + ls, h2))
  }

  /** The cells of the listed values, and the values of the tail call. */
  function RunList(p: Program, prim: Prim, l: ExpList, env: Env, h: Heap, fuel: nat): R<(seq<Loc>, seq<Val>, Heap)>
    decreases fuel, 1, l, 1
  {
    var (ls, h1) :- RunExps(p, prim, l.vals, env, h, fuel);
    match l.tail
    case None => Ok((ls, [], h1))
    case Some(c) =>
      var (vs, h2) :- RunCall(p, prim, c, env, h1, fuel);
      Ok((ls, vs, h2))
  }

  function RunCall(p: Program, prim: Prim, c: Call, env: Env, h: Heap, fuel: nat): R<(seq<Val>, Heap)>
    decreases fuel, 1, c, 1
  {
    var (lf, h1) :- RunExp(p, prim, c.fcn, env, h, fuel);
    var (ls, more, h2) :- RunList(p, prim, c.args, env, h1, fuel);
    var args :- Limited(ReadAll(h2, ls) + more);
    Apply(p, prim, Read(h2, lf), args, h2, fuel)
  }

  function Apply(p: Program, prim: Prim, f: Val, args: seq<Val>, h: Heap, fuel: nat): R<(seq<Val>, Heap)>
    decreases fuel, 0
  {
    if !f.Clo? || f.fcn !in p then Stuck
    else if fuel == 0 then Timeout
    else
      var fun := p[f.fcn];
      var (env, h1) := BindParams(BindCaps(map[], fun.caps, f.caps), h, fun.params, args);
      var end :- RunStats(p, prim, fun.body, env, h1, fuel - 1);
      Ok((if end.Gave? then end.vals else [], end.heap))
  }

  function RunStats(p: Program, prim: Prim, ss: seq<Stat>, env: Env, h: Heap, fuel: nat): R<End>
    decreases fuel, 1, ss, 0
  {
    if ss == [] then Ok(Went(env, h))
    else
      var end :- RunStat(p, prim, ss[0], env, h, fuel);
      if end.Gave? then Ok(end) else RunStats(p, prim, ss[1..], end.env, end.heap, fuel)
  }

  function RunStat(p: Program, prim: Prim, st: Stat, env: Env, h: Heap, fuel: nat): R<End>
    decreases fuel, 1, st, 1
  {
    match st
    case Local(x) => Ok(Went(env[x := |h|], h + [Nil]))
    case Assign(xs, rhs) =>
      var (ls, more, h1) :- RunList(p, prim, rhs, env, h, fuel);
      Ok(Went(env, Spread(env, xs, ls, more, h1)))
    case CallStat(c) =>
      var (_, h1) :- RunCall(p, prim, c, env, h, fuel);
      Ok(Went(env, h1))
    case If(c, thn, els) =>
      var (l, h1) :- RunExp(p, prim, c, env, h, fuel);
      var end :- RunStats(p, prim, if Truthy(Read(h1, l)) then thn else els, env, h1, fuel);
      Ok(if end.Went? then Went(env, end.heap) else end)
    case While(c, body) =>
      var (l, h1) :- RunExp(p, prim, c, env, h, fuel);
      if !Truthy(Read(h1, l)) then Ok(Went(env, h1))
      else if fuel == 0 then Timeout
      else
        var end :- RunStats(p, prim, body, env, h1, fuel);
        if end.Went? then RunStat(p, prim, st, env, end.heap, fuel - 1) else Ok(end)
    case Return(rets) =>
      var (ls, more, h1) :- RunList(p, prim, rets, env, h, fuel);
      var vs :- Limited(ReadAll(h1, ls) + more);
      Ok(Gave(vs, h1))
  }
}
