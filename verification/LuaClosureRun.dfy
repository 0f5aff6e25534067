/** Running closures. */
module LuaClosureRun {
  // What functions do before conversion, they do after it.

  import opened LuaClosures
  import opened LuaConversion

  type Env = map<Name, Loc>

  /** The value an ordinary op computes and what it prints. */
  type Prim = (nat, seq<Val>) -> (Val, seq<Val>)

  /** A function value before conversion keeps the environment it was defined in; after conversion
      it keeps a capture object with one slot for each capture.  `caps` name what the body reads the
      slots into, `params` what it reads the arguments into. */
  datatype Closure =
    | Open(params: seq<Name>, fcn: Body, env: Env)
    | Closed(slots: seq<Loc>, caps: seq<Name>, params: seq<Name>, fcn: Body)

  datatype St = St(heap: seq<Val>, fcns: seq<Closure>, out: seq<Val>)

  /** `Returned`: a return statement has been reached, inside a branch or a loop. */
  datatype R<T> = Ok(v: T) | Returned(vals: seq<Val>, st: St) | Timeout | Stuck {
    predicate IsFailure() { !Ok? }

    function PropagateFailure<U>(): R<U>
      requires IsFailure()
    {
      match this
      case Returned(vals, st) => Returned(vals, st)
      case Timeout => Timeout
      case _ => Stuck
    }

    function Extract(): T
      requires !IsFailure()
    {
      v
    }
  }

  function Get(env: Env, x: Name): Loc { if x in env then env[x] else 0 }
  function Read(s: St, l: Loc): Val { if l < |s.heap| then s.heap[l] else Nil }

  function Cells(env: Env, xs: seq<Name>): (r: seq<Loc>)
    ensures |r| == |xs|
  {
    seq(|xs|, i requires 0 <= i < |xs| => Get(env, xs[i]))
  }

  function Values(s: St, ls: seq<Loc>): (r: seq<Val>)
    ensures |r| == |ls|
  {
    seq(|ls|, i requires 0 <= i < |ls| => Read(s, ls[i]))
  }

  function Truthy(v: Val): bool { v != Nil && v != Bool(false) }

  /** Binds `xs[i]` to `ls[i]`. */
  function BindAll(env: Env, xs: seq<Name>, ls: seq<Loc>): Env
    decreases xs
  {
    if xs == [] || ls == [] then env else BindAll(env[xs[0] := ls[0]], xs[1..], ls[1..])
  }

  /** New cells for `xs`, holding the given values, or nil when these run out. */
  function BindNew(env: Env, xs: seq<Name>, vals: seq<Val>, s: St): (Env, St) {
    var cells := seq(|xs|, i requires 0 <= i < |xs| => |s.heap| + i);
    var held := seq(|xs|, i requires 0 <= i < |xs| => if i < |vals| then vals[i] else Nil);
    (BindAll(env, xs, cells), s.(heap := s.heap + held))
  }

  // ----- Capture objects

  /** `luac.new_capture`. */
  function NewCapture(size: nat): (slots: seq<Loc>)
    ensures |slots| == size
  {
    seq(size, _ => 0)
  }

  /** `luac.add_capture` of `cs[i]` at index `i`, and so on. */
  function AddCaptures(env: Env, cs: seq<Name>, i: nat, slots: seq<Loc>): seq<Loc>
    requires i <= |cs| == |slots|
    decreases |cs| - i
  {
    if i == |cs| then slots else AddCaptures(env, cs, i + 1, slots[i := Get(env, cs[i])])
  }

  /** `luac.get_capture` at indices 0 to n-1. */
  function GetCaptures(slots: seq<Loc>, n: nat): (r: seq<Loc>)
    ensures |r| == n
  {
    seq(n, i requires 0 <= i < n => if i < |slots| then slots[i] else 0)
  }

  lemma {:induction false} SlotsFilled(env: Env, cs: seq<Name>, i: nat, slots: seq<Loc>)
    requires i <= |cs| == |slots| && slots[..i] == Cells(env, cs)[..i]
    ensures AddCaptures(env, cs, i, slots) == Cells(env, cs)
    decreases |cs| - i
  {
    if i < |cs| {
      var next := slots[i := Get(env, cs[i])];
      assert next[..i + 1] == slots[..i] + [Get(env, cs[i])];
      assert Cells(env, cs)[..i + 1] == Cells(env, cs)[..i] + [Get(env, cs[i])];
      SlotsFilled(env, cs, i + 1, next);
    } else {
      assert slots[..i] == slots && Cells(env, cs)[..i] == Cells(env, cs);
    }
  }

  /** The cell captured at a position is the cell read back at that position. */
  lemma SlotsReadBack(env: Env, cs: seq<Name>)
    ensures GetCaptures(AddCaptures(env, cs, 0, NewCapture(|cs|)), |cs|) == Cells(env, cs)
  {
    assert NewCapture(|cs|)[..0] == Cells(env, cs)[..0];
    SlotsFilled(env, cs, 0, NewCapture(|cs|));
  }

  /** Where the body of a closure finds the values from outside. */
  function Outside(c: Closure): Env {
    match c
    case Open(_, _, env) => env
    case Closed(slots, caps, _, _) => BindAll(map[], caps, GetCaptures(slots, |caps|))
  }

  /** The closure a closed function definition makes: entry argument `i` belongs to capture `i`, and
      entry argument `|captures| + i` to parameter `i`. */
  function MakeClosure(env: Env, op: Op): Closure
    requires IsClosed(op)
  {
    var n := if |op.captures| <= |Inputs(op)| then |op.captures| else |Inputs(op)|;
    Closed(AddCaptures(env, op.captures, 0, NewCapture(|op.captures|)), Inputs(op)[..n], Inputs(op)[n..], op.fcn)
  }

  function NewFcn(env: Env, r: Name, c: Closure, s: St): (Env, St) {
    (env[r := |s.heap|], St(s.heap + [Fcn(|s.fcns|)], s.fcns + [c], s.out))
  }

  function ExecOps(p: Prim, ops: seq<Op>, env: Env, s: St, fuel: nat): R<(Env, St)>
    decreases fuel, ops, 0
  {
    if ops == [] then Ok((env, s))
    else
      var (env1, s1) :- ExecOp(p, ops[0], env, s, fuel);
      ExecOps(p, ops[1..], env1, s1, fuel)
  }

  function ExecOp(p: Prim, op: Op, env: Env, s: St, fuel: nat): R<(Env, St)>
    decreases fuel, op, 3
  {
    match op
    case Prim(kind, r, args) =>
      var (v, printed) := p(kind, Values(s, Cells(env, args)));
      Ok((env[r := |s.heap|], St(s.heap + [v], s.fcns, s.out + printed)))
    case Copy(t, x) =>
      var l := Get(env, t);
      Ok((env, if l < |s.heap| then s.(heap := s.heap[l := Read(s, Get(env, x))]) else s))
    case CallOp(outs, f, args) =>
      var v := Read(s, Get(env, f));
      if !v.Fcn? || v.id >= |s.fcns| then Stuck
      else if fuel == 0 then Timeout
      else
        var (vals, s1) :- RunClosure(p, s.fcns[v.id], Values(s, Cells(env, args)), s, fuel - 1);
        Ok(BindNew(env, outs, vals, s1))
    case CondIf(c, a, b) =>
      var (_, s1) :- ExecOps(p, if Truthy(Read(s, Get(env, c))) then a else b, env, s, fuel);
      Ok((env, s1))
    case Loop(until, e, c, b) =>
      var (env1, s1) :- ExecOps(p, e, env, s, fuel);
      if Truthy(Read(s1, Get(env1, c))) == until then Ok((env, s1))
      else if fuel == 0 then Timeout
      else
        var (_, s2) :- ExecOps(p, b, env, s1, fuel);
        ExecOp(p, op, env, s2, fuel - 1)
    case For(numeric, args, _, _) =>
      var vs := Values(s, Cells(env, args));
      if |vs| != 3 then Stuck
      else if numeric then Turns(p, op, env, vs[1], vs[2], vs[0], s, fuel)
      else Turns(p, op, env, vs[0], vs[1], vs[2], s, fuel)
    case Ret(vals) => Returned(Values(s, Cells(env, vals)), s)
    case FunctionDef(r, ps, f) => Ok(NewFcn(env, r, Open(ps, f, env), s))
    case FunctionDefCapture(r, _, _, _) => Ok(NewFcn(env, r, MakeClosure(env, op), s))
    case PackFunc(r, _, _, _, _) => Ok(NewFcn(env, r, MakeClosure(env, op), s))
  }

  /** A numeric `for` has the limit `a` and the step `b`, and `ctl` is the next value; a generic one calls
      `a` with `b` and the last control value, and ends when the first result is nil. */
  function Turns(p: Prim, op: Op, env: Env, a: Val, b: Val, ctl: Val, s: St, fuel: nat): R<(Env, St)>
    requires op.For?
    decreases fuel, op, 2
  {
    if fuel == 0 then Timeout
    else if op.numeric then
      if !a.Num? || !b.Num? || !ctl.Num? then Stuck
      else if (if b.n >= 0 then ctl.n > a.n else ctl.n < a.n) then Ok((env, s))
      else Turn(p, op, env, a, b, [ctl], Num(ctl.n + b.n), s, fuel)
    else if !a.Fcn? || a.id >= |s.fcns| then Stuck
    else
      var (vals, s1) :- RunClosure(p, s.fcns[a.id], [b, ctl], s, fuel - 1);
      if vals == [] || vals[0] == Nil then Ok((env, s1)) else Turn(p, op, env, a, b, vals, vals[0], s1, fuel)
  }

  /** The block, with new cells for the loop variables, and the turns after it. */
  function Turn(p: Prim, op: Op, env: Env, a: Val, b: Val, vals: seq<Val>, next: Val, s: St, fuel: nat):
      R<(Env, St)>
    requires op.For? && fuel > 0
    decreases fuel, op, 1
  {
    var (env1, s1) := BindNew(env, op.params, vals, s);
    var (_, s2) :- ExecOps(p, op.body, env1, s1, fuel);
    Turns(p, op, env, a, b, next, s2, fuel - 1)
  }

  /** A call: the captured cells and new cells for the arguments, and then the body. */
  function RunClosure(p: Prim, c: Closure, args: seq<Val>, s: St, fuel: nat): R<(seq<Val>, St)>
    decreases fuel, c.fcn, 2
  {
    var (env1, s1) := BindNew(Outside(c), c.params, args, s);
    match ExecOps(p, c.fcn.ops, env1, s1, fuel)
    case Ok(r) => Ok((Values(r.1, Cells(r.0, c.fcn.rets)), r.1))
    case Returned(vals, s2) => Ok((vals, s2))
    case Timeout => Timeout
    case Stuck => Stuck
  }

  // ----- What names stand for when a body starts

  lemma {:induction false} BindAllAt(env: Env, xs: seq<Name>, ls: seq<Loc>, i: nat)
    requires Distinct(xs) && i < |xs| == |ls|
    ensures xs[i] in BindAll(env, xs, ls) && BindAll(env, xs, ls)[xs[i]] == ls[i]
    decreases xs
  {
    if i > 0 {
      BindAllAt(env[xs[0] := ls[0]], xs[1..], ls[1..], i - 1);
    } else {
      BindAllElsewhere(env[xs[0] := ls[0]], xs[1..], ls[1..], xs[0]);
    }
  }

  lemma {:induction false} BindAllElsewhere(env: Env, xs: seq<Name>, ls: seq<Loc>, x: Name)
    requires x !in xs
    ensures x in BindAll(env, xs, ls) <==> x in env
    ensures x in env ==> BindAll(env, xs, ls)[x] == env[x]
    decreases xs
  {
    if xs != [] && ls != [] {
      BindAllElsewhere(env[xs[0] := ls[0]], xs[1..], ls[1..], x);
    }
  }

  /** Each name stands for a new cell with its own value, or nil; other names and cells are as before. */
  ghost predicate Bound(env: Env, xs: seq<Name>, vals: seq<Val>, s: St, env1: Env, s1: St) {
    && s.heap <= s1.heap && |s1.heap| == |s.heap| + |xs| && s1.fcns == s.fcns && s1.out == s.out
    && (forall i :: 0 <= i < |xs| ==>
          && xs[i] in env1 && env1[xs[i]] == |s.heap| + i
          && s1.heap[|s.heap| + i] == if i < |vals| then vals[i] else Nil)
    && forall x :: x !in xs ==> (x in env1 <==> x in env) && (x in env ==> env1[x] == env[x])
  }

  lemma NewBound(env: Env, xs: seq<Name>, vals: seq<Val>, s: St)
    requires Distinct(xs)
    ensures Bound(env, xs, vals, s, BindNew(env, xs, vals, s).0, BindNew(env, xs, vals, s).1)
  {
    hide BindAll, Distinct;
    var (env1, s1) := BindNew(env, xs, vals, s);
    var cells := seq(|xs|, i requires 0 <= i < |xs| => |s.heap| + i);
    forall i | 0 <= i < |xs|
      ensures xs[i] in env1 && env1[xs[i]] == |s.heap| + i
    {
      BindAllAt(env, xs, cells, i);
    }
    forall x | x !in xs
      ensures (x in env1 <==> x in env) && (x in env ==> env1[x] == env[x])
    {
      BindAllElsewhere(env, xs, cells, x);
    }
  }

  /** What a call yields once its body has ended. */
  function Result(c: Closure, r: R<(Env, St)>): R<(seq<Val>, St)> {
    match r
    case Ok(o) => Ok((Values(o.1, Cells(o.0, c.fcn.rets)), o.1))
    case Returned(vals, s) => Ok((vals, s))
    case Timeout => Timeout
    case Stuck => Stuck
  }

  /** A call runs the body where parameter `i` stands for a new cell with argument `i`, and every other name
      for what the closure found outside. */
  lemma CallEnters(p: Prim, c: Closure, args: seq<Val>, s: St, fuel: nat) returns (env1: Env, s1: St)
    requires Distinct(c.params)
    ensures Bound(Outside(c), c.params, args, s, env1, s1)
    ensures RunClosure(p, c, args, s, fuel) == Result(c, ExecOps(p, c.fcn.ops, env1, s1, fuel))
  {
    hide BindNew, Bound, ExecOps;
    NewBound(Outside(c), c.params, args, s);
    var e := BindNew(Outside(c), c.params, args, s);
    env1, s1 := e.0, e.1;
  }

  /** And its results are bound one by one. */
  lemma CallBinds(p: Prim, op: Op, env: Env, s: St, fuel: nat)
    requires op.CallOp? && Distinct(op.outs) && fuel > 0 && ExecOp(p, op, env, s, fuel).Ok?
    ensures var f := Read(s, Get(env, op.callee));
            && f.Fcn? && f.id < |s.fcns|
            && var r := RunClosure(p, s.fcns[f.id], Values(s, Cells(env, op.args)), s, fuel - 1);
            && r.Ok? && var after := ExecOp(p, op, env, s, fuel).v;
            Bound(env, op.outs, r.v.0, r.v.1, after.0, after.1)
  {
    hide BindNew, Bound, RunClosure;
    var r := RunClosure(p, s.fcns[Read(s, Get(env, op.callee)).id], Values(s, Cells(env, op.args)), s, fuel - 1);
    NewBound(env, op.outs, r.v.0, r.v.1);
  }

  // ----- Runs of a program and of its conversion

  /** The new names of `v` stand for the same cells as the old names. */
  ghost predicate Agree(v: set<Name>, m: Renaming, env: Env, env': Env) {
    forall x :: x in v ==> x in m && Get(env, x) == Get(env', m[x])
  }

  ghost predicate CloMap(m: Renaming, c: Closure, c': Closure) {
    && |c.params| == |c'.params| && Fresh(m, c'.params)
    && ConvBody(Extend(m, c.params, c'.params), c.fcn, c'.fcn)
    && Agree(FreeBody(c.fcn) - Names(c.params), m, Outside(c), Outside(c'))
  }

  ghost predicate CloRel(c: Closure, c': Closure) { exists m: Renaming :: CloMap(m, c, c') }

  /** Same cells, same output, and function values related one by one. */
  ghost predicate StRel(s: St, s': St) {
    && s.heap == s'.heap && s.out == s'.out && |s.fcns| == |s'.fcns|
    && forall i :: 0 <= i < |s.fcns| ==> CloRel(s.fcns[i], s'.fcns[i])
  }

  ghost predicate RunRel(v: set<Name>, m: Renaming, r: R<(Env, St)>, r': R<(Env, St)>) {
    match r
    case Ok(o) => r'.Ok? && Agree(v, m, o.0, r'.v.0) && StRel(o.1, r'.v.1)
    case Returned(vals, s) => r'.Returned? && r'.vals == vals && StRel(s, r'.st)
    case _ => r' == r
  }

  lemma {:induction false} BindAllAgree(
      v: set<Name>, m: Renaming, env: Env, env': Env, xs: seq<Name>, ys: seq<Name>, ls: seq<Loc>)
    requires Agree(v, m, env, env') && |xs| == |ys| == |ls| && Fresh(m, ys)
    ensures Agree(v + Names(xs), Extend(m, xs, ys), BindAll(env, xs, ls), BindAll(env', ys, ls))
    decreases xs
  {
    if xs == [] {
      assert v + Names(xs) == v;
    } else {
      FreshStep(m, xs[0], ys);
      BindOneAgree(v, m, env, env', xs[0], ys[0], ls[0]);
      BindAllAgree(v + {xs[0]}, m[xs[0] := ys[0]], env[xs[0] := ls[0]], env'[ys[0] := ls[0]], xs[1..], ys[1..],
        ls[1..]);
      assert v + {xs[0]} + Names(xs[1..]) == v + Names(xs);
    }
  }

  lemma BindOneAgree(v: set<Name>, m: Renaming, env: Env, env': Env, x: Name, y: Name, l: Loc)
    requires Agree(v, m, env, env') && y !in m.Values
    ensures Agree(v + {x}, m[x := y], env[x := l], env'[y := l])
  {
    forall z | z in v && z != x
      ensures Get(env, z) == Get(env'[y := l], m[z])
    {
      assert m[z] in m.Values;
    }
  }

  lemma {:induction false} BindAllOther(env: Env, xs: seq<Name>, ls: seq<Loc>, x: Name)
    requires x !in xs
    ensures Get(BindAll(env, xs, ls), x) == Get(env, x)
    decreases xs
  {
    if xs != [] && ls != [] {
      BindAllOther(env[xs[0] := ls[0]], xs[1..], ls[1..], x);
    }
  }

  /** Entry argument `i` finds the cell at position `i`. */
  lemma {:induction false} BoundAt(env: Env, xs: seq<Name>, ls: seq<Loc>)
    requires Distinct(xs) && |xs| == |ls|
    ensures forall i :: 0 <= i < |xs| ==> Get(BindAll(env, xs, ls), xs[i]) == ls[i]
    decreases xs
  {
    if xs != [] {
      var env1 := env[xs[0] := ls[0]];
      BoundAt(env1, xs[1..], ls[1..]);
      BindAllOther(env1, xs[1..], ls[1..], xs[0]);
      forall i | 0 <= i < |xs|
        ensures Get(BindAll(env, xs, ls), xs[i]) == ls[i]
      {
        if i > 0 {
          assert xs[i] == xs[1..][i - 1];
        }
      }
    }
  }

  /** From the list of captures to the slots and on to the entry arguments: argument `i` of the closed
      function stands for the very cell that capture `i` stood for where the function was defined. */
  lemma CapturesFound(env: Env, op: Op)
    requires IsClosed(op) && Split(op) && Distinct(Inputs(op))
    ensures var c := MakeClosure(env, op);
            && c.caps == Inputs(op)[..|op.captures|] && c.params == Inputs(op)[|op.captures|..]
            && forall i :: 0 <= i < |op.captures| ==> Get(Outside(c), Inputs(op)[i]) == Get(env, op.captures[i])
  {
    var caps := Inputs(op)[..|op.captures|];
    SlotsReadBack(env, op.captures);
    BoundAt(map[], caps, Cells(env, op.captures));
    forall i | 0 <= i < |op.captures|
      ensures Get(Outside(MakeClosure(env, op)), Inputs(op)[i]) == Get(env, op.captures[i])
    {
      assert caps[i] == Inputs(op)[i];
    }
  }

  // ----- New function values are related

  /** An open function and its closed conversion. */
  lemma CapturedRel(m: Renaming, v: set<Name>, env: Env, env': Env, op: Op, op': Op, cs: seq<Name>)
    requires op.FunctionDef? && IsClosed(op') && FreeOp(op) <= v && Agree(v, m, env, env')
    requires Lists(cs, op.params, op.fcn) && Captures(m, cs, op.params, op')
             && ConvBody(Onto(cs + op.params, op'), op.fcn, op'.fcn)
    ensures CloRel(Open(op.params, op.fcn, env), MakeClosure(env', op'))
  {
    var c, c' := Open(op.params, op.fcn, env), MakeClosure(env', op');
    CapturesFound(env', op');
    var n := Extend(map[], cs, c'.caps);
    assert Inputs(op') == c'.caps + c'.params;
    ExtendAppend(map[], cs, c'.caps, op.params, c'.params);
    ExtendKeys(map[], cs, c'.caps);
    ExtendAt(map[], cs, c'.caps);
    FreshParams(n, c', op');
    forall x | x in Names(cs)
      ensures x in n && Get(env, x) == Get(Outside(c'), n[x])
    {
      var i :| 0 <= i < |cs| && cs[i] == x;
      assert n[x] == c'.caps[i] == Inputs(op')[i];
      assert x in FreeOp(op);
    }
    assert CloMap(n, c, c');
  }

  /** A closed function under other names. */
  lemma ClosedRel(m: Renaming, v: set<Name>, env: Env, env': Env, op: Op, op': Op)
    requires IsClosed(op) && ConvOp(m, op, op') && FreeOp(op) <= v && Agree(v, m, env, env')
    ensures CloRel(MakeClosure(env, op), MakeClosure(env', op'))
  {
    ClosedParts(m, v, op, op');
    hide ConvOp, ConvBody, FreeOp, FreeBody, BindAll, Extend, AddCaptures, NewCapture, GetCaptures, CloRel;
    CellsAgree(v, m, env, env', op.captures, op'.captures);
    MadeOf(env, op);
    MadeOf(env', op');
    ClosedMap(MakeClosure(env, op), MakeClosure(env', op'), Inputs(op), op', Cells(env, op.captures));
  }

  lemma ClosedParts(m: Renaming, v: set<Name>, op: Op, op': Op)
    requires IsClosed(op) && ConvOp(m, op, op') && FreeOp(op) <= v
    ensures IsClosed(op') && Split(op) && Split(op') && Distinct(Inputs(op')) && |Inputs(op)| == |Inputs(op')|
    ensures MapsTo(m, op.captures, op'.captures) && Names(op.captures) <= v && |op.captures| == |op'.captures|
    ensures ConvBody(Onto(Inputs(op), op'), op.fcn, op'.fcn)
  {
  }

  lemma MadeOf(env: Env, op: Op)
    requires IsClosed(op) && Split(op)
    ensures var c := MakeClosure(env, op);
            && c.caps == Inputs(op)[..|op.captures|] && c.params == Inputs(op)[|op.captures|..] && c.fcn == op.fcn
            && Outside(c) == BindAll(map[], c.caps, Cells(env, op.captures))
  {
    SlotsReadBack(env, op.captures);
  }

  lemma ClosedMap(c: Closure, c': Closure, xs: seq<Name>, op': Op, cells: seq<Loc>)
    requires IsClosed(op') && c.Closed? && c'.Closed? && Distinct(Inputs(op'))
    requires xs == c.caps + c.params && Inputs(op') == c'.caps + c'.params && |c.caps| == |c'.caps| == |cells|
             && |c.params| == |c'.params|
    requires Outside(c) == BindAll(map[], c.caps, cells) && Outside(c') == BindAll(map[], c'.caps, cells)
    requires ConvBody(Onto(xs, op'), c.fcn, c'.fcn)
    ensures CloRel(c, c')
  {
    var n := Extend(map[], c.caps, c'.caps);
    hide ConvBody, FreeBody, Outside;
    forall i, j | 0 <= i < j < |c'.caps|
      ensures c'.caps[i] != c'.caps[j]
    {
      assert Inputs(op')[i] != Inputs(op')[j];
    }
    BindAllAgree({}, map[], map[], map[], c.caps, c'.caps, cells);
    assert {} + Names(c.caps) == Names(c.caps);
    ExtendAppend(map[], c.caps, c'.caps, c.params, c'.params);
    ExtendKeys(map[], c.caps, c'.caps);
    ExtendKeys(map[], xs, Inputs(op'));
    ConvBodyReads(Onto(xs, op'), c.fcn, c'.fcn);
    assert Names(xs) == Names(c.caps) + Names(c.params);
    FreshParams(n, c', op');
    assert CloMap(n, c, c');
  }

  lemma FreshParams(n: Renaming, c': Closure, op': Op)
    requires c'.Closed? && IsClosed(op') && Distinct(Inputs(op')) && Inputs(op') == c'.caps + c'.params
             && n.Values <= Names(c'.caps)
    ensures Fresh(n, c'.params)
  {
    var k := |c'.caps|;
    forall i | 0 <= i < |c'.params|
      ensures c'.params[i] !in n.Values
    {
      assert c'.params[i] == Inputs(op')[k + i];
      forall j | 0 <= j < k
        ensures c'.caps[j] != c'.params[i]
      {
        assert c'.caps[j] == Inputs(op')[j];
      }
    }
    forall i, j | 0 <= i < j < |c'.params|
      ensures c'.params[i] != c'.params[j]
    {
      assert Inputs(op')[k + i] != Inputs(op')[k + j];
    }
  }

  lemma CellsAgree(v: set<Name>, m: Renaming, env: Env, env': Env, xs: seq<Name>, ys: seq<Name>)
    requires Agree(v, m, env, env') && Names(xs) <= v && MapsTo(m, xs, ys)
    ensures Cells(env, xs) == Cells(env', ys)
  {
    forall i | 0 <= i < |xs|
      ensures Get(env, xs[i]) == Get(env', ys[i])
    {
      assert xs[i] in Names(xs);
    }
  }

  lemma BindNewRel(v: set<Name>, m: Renaming, env: Env, env': Env, xs: seq<Name>, ys: seq<Name>, vals: seq<Val>, s: St,
      s': St)
    requires Agree(v, m, env, env') && StRel(s, s') && |xs| == |ys| && Fresh(m, ys)
    ensures RunRel(v + Names(xs), Extend(m, xs, ys), Ok(BindNew(env, xs, vals, s)), Ok(BindNew(env', ys, vals, s')))
  {
    BindAllAgree(v, m, env, env', xs, ys, seq(|xs|, i requires 0 <= i < |xs| => |s.heap| + i));
  }

  lemma NewFcnRel(v: set<Name>, m: Renaming, env: Env, env': Env, x: Name, y: Name, c: Closure, c': Closure, s: St,
      s': St)
    requires Agree(v, m, env, env') && StRel(s, s') && CloRel(c, c') && Fresh(m, [y])
    ensures RunRel(v + {x}, Extend(m, [x], [y]), Ok(NewFcn(env, x, c, s)), Ok(NewFcn(env', y, c', s')))
  {
    ExtendOne(m, x, y);
    assert [y][0] !in m.Values;
    BindOneAgree(v, m, env, env', x, y, |s.heap|);
  }

  lemma ValuesRel(s: St, s': St, ls: seq<Loc>)
    requires StRel(s, s')
    ensures Values(s, ls) == Values(s', ls)
  {
  }

  // ----- Runs

  /** A program and its conversion, run on the same cells, do the same. */
  lemma {:induction false} ConversionPreserves(
      p: Prim, m: Renaming, ops: seq<Op>, ops': seq<Op>, v: set<Name>, env: Env, env': Env, s: St, s': St, fuel: nat)
    requires ConvOps(m, ops, ops') && FreeOps(ops) <= v && Agree(v, m, env, env') && StRel(s, s')
    ensures RunRel(v + OpsResults(ops), After(m, ops, ops'), ExecOps(p, ops, env, s, fuel),
            ExecOps(p, ops', env', s', fuel))
    decreases fuel, ops, 0
  {
    if ops == [] {
      assert v + OpsResults(ops) == v;
    } else {
      ConversionPreservesOp(p, m, ops[0], ops'[0], v, env, env', s, s', fuel);
      var r, r' := ExecOp(p, ops[0], env, s, fuel), ExecOp(p, ops'[0], env', s', fuel);
      if r.Ok? {
        var m1 := Step(m, ops[0], ops'[0]);
        ConversionPreserves(p, m1, ops[1..], ops'[1..], v + Results(ops[0]), r.v.0, r'.v.0, r.v.1, r'.v.1, fuel);
        assert v + Results(ops[0]) + OpsResults(ops[1..]) == v + OpsResults(ops);
      }
    }
  }

  lemma {:induction false} ConversionPreservesOp(
      p: Prim, m: Renaming, op: Op, op': Op, v: set<Name>, env: Env, env': Env, s: St, s': St, fuel: nat)
    requires ConvOp(m, op, op') && FreeOp(op) <= v && Agree(v, m, env, env') && StRel(s, s')
    ensures RunRel(v + Results(op), Step(m, op, op'), ExecOp(p, op, env, s, fuel), ExecOp(p, op', env', s', fuel))
    decreases fuel, op, 4
  {
    match op
    case Prim(kind, r, args) =>
      PrimPreserves(p, m, op, op', v, env, env', s, s', fuel);
    case Copy(t, x) =>
      CopyPreserves(p, m, op, op', v, env, env', s, s', fuel);
    case CallOp(outs, f, args) =>
      CallPreserves(p, m, op, op', v, env, env', s, s', fuel);
    case CondIf(c, a, b) =>
      BranchPreserves(p, m, op, op', v, env, env', s, s', fuel);
    case Loop(_, _, _, _) =>
      LoopPreserves(p, m, op, op', v, env, env', s, s', fuel);
    case For(_, _, _, _) =>
      ForPreserves(p, m, op, op', v, env, env', s, s', fuel);
    case Ret(vals) =>
      CellsAgree(v, m, env, env', vals, op'.vals);
      ValuesRel(s, s', Cells(env, vals));
    case FunctionDef(r, ps, f) =>
      FunctionPreserves(m, op, op', v, env, env', s, s');
    case FunctionDefCapture(_, _, _, _) =>
      ClosedPreserves(m, op, op', v, env, env', s, s');
    case PackFunc(_, _, _, _, _) =>
      ClosedPreserves(m, op, op', v, env, env', s, s');
  }

  lemma ClosedPreserves(m: Renaming, op: Op, op': Op, v: set<Name>, env: Env, env': Env, s: St, s': St)
    requires IsClosed(op) && ConvOp(m, op, op') && FreeOp(op) <= v && Agree(v, m, env, env') && StRel(s, s')
    ensures RunRel(v + Results(op), Step(m, op, op'), Ok(NewFcn(env, op.res, MakeClosure(env, op), s)),
                   Ok(NewFcn(env', op'.res, MakeClosure(env', op'), s')))
  {
    hide MakeClosure, Extend, FreeOp, CloRel, RunRel, NewFcn, ConvOps, Captures, Onto, StRel, Agree;
    ClosedRel(m, v, env, env', op, op');
    assert Outs(op) == [op.res] && Outs(op') == [op'.res] && Results(op) == {op.res};
    NewFcnRel(v, m, env, env', op.res, op'.res, MakeClosure(env, op), MakeClosure(env', op'), s, s');
  }

  lemma CopyPreserves(
      p: Prim, m: Renaming, op: Op, op': Op, v: set<Name>, env: Env, env': Env, s: St, s': St, fuel: nat)
    requires op.Copy? && ConvOp(m, op, op') && FreeOp(op) <= v && Agree(v, m, env, env') && StRel(s, s')
    ensures RunRel(v + Results(op), Step(m, op, op'), ExecOp(p, op, env, s, fuel), ExecOp(p, op', env', s', fuel))
  {
    assert op.tgt in v && op.src in v;
    assert v + Results(op) == v;
  }

  lemma {:induction false} BranchPreserves(
      p: Prim, m: Renaming, op: Op, op': Op, v: set<Name>, env: Env, env': Env, s: St, s': St, fuel: nat)
    requires op.CondIf? && ConvOp(m, op, op') && FreeOp(op) <= v && Agree(v, m, env, env') && StRel(s, s')
    ensures RunRel(v + Results(op), Step(m, op, op'), ExecOp(p, op, env, s, fuel), ExecOp(p, op', env', s', fuel))
    decreases fuel, op, 0
  {
    assert op.cond in v;
    var t := Truthy(Read(s, Get(env, op.cond)));
    ConversionPreserves(p, m, if t then op.thn else op.els, if t then op'.thn else op'.els, v, env, env', s, s', fuel);
    assert v + Results(op) == v;
  }

  lemma PrimPreserves(
      p: Prim, m: Renaming, op: Op, op': Op, v: set<Name>, env: Env, env': Env, s: St, s': St, fuel: nat)
    requires op.Prim? && ConvOp(m, op, op') && FreeOp(op) <= v && Agree(v, m, env, env') && StRel(s, s')
    ensures RunRel(v + Results(op), Step(m, op, op'), ExecOp(p, op, env, s, fuel), ExecOp(p, op', env', s', fuel))
  {
    CellsAgree(v, m, env, env', op.args, op'.args);
    ValuesRel(s, s', Cells(env, op.args));
    ExtendOne(m, op.res, op'.res);
    assert Outs(op')[0] !in m.Values;
    BindOneAgree(v, m, env, env', op.res, op'.res, |s.heap|);
    assert Results(op) == {op.res};
  }

  lemma FunctionPreserves(m: Renaming, op: Op, op': Op, v: set<Name>, env: Env, env': Env, s: St, s': St)
    requires op.FunctionDef? && ConvOp(m, op, op') && FreeOp(op) <= v && Agree(v, m, env, env') && StRel(s, s')
    ensures var c := Open(op.params, op.fcn, env);
            var c' := if op'.FunctionDef? then Open(op'.params, op'.fcn, env') else MakeClosure(env', op');
            RunRel(v + Results(op), Step(m, op, op'), Ok(NewFcn(env, op.res, c, s)), Ok(NewFcn(env', op'.res, c', s')))
  {
    var c := Open(op.params, op.fcn, env);
    var c' := if op'.FunctionDef? then Open(op'.params, op'.fcn, env') else MakeClosure(env', op');
    assert FreeOp(op) == FreeBody(op.fcn) - Names(op.params);
    if op'.FunctionDef? {
      assert CloMap(m, c, c');
    } else {
      var cs: seq<Name> :| Lists(cs, op.params, op.fcn) && Captures(m, cs, op.params, op')
        && ConvBody(Onto(cs + op.params, op'), op.fcn, op'.fcn);
      CapturedRel(m, v, env, env', op, op', cs);
    }
    NewFcnRel(v, m, env, env', op.res, op'.res, c, c', s, s');
  }

  lemma LoopParts(m: Renaming, op: Op, op': Op, v: set<Name>)
    requires op.Loop? && ConvOp(m, op, op') && FreeOp(op) <= v
    ensures op'.Loop? && op'.until == op.until && ConvOps(m, op.eval, op'.eval) && ConvOps(m, op.body, op'.body)
    ensures Sends(After(m, op.eval, op'.eval), op.cond, op'.cond)
    ensures FreeOps(op.eval) <= v && FreeOps(op.body) <= v && op.cond in v + OpsResults(op.eval)
    ensures v + Results(op) == v && Step(m, op, op') == m
  {
  }

  lemma {:induction false} LoopPreserves(
      p: Prim, m: Renaming, op: Op, op': Op, v: set<Name>, env: Env, env': Env, s: St, s': St, fuel: nat)
    requires op.Loop? && ConvOp(m, op, op') && FreeOp(op) <= v && Agree(v, m, env, env') && StRel(s, s')
    ensures RunRel(v + Results(op), Step(m, op, op'), ExecOp(p, op, env, s, fuel), ExecOp(p, op', env', s', fuel))
    decreases fuel, op, 0
  {
    hide ExecOp, ExecOps, ConvOp, ConvOps, FreeOp, FreeOps, After, Step, Results, OpsResults, CloRel;
    LoopParts(m, op, op', v);
    LoopTurn(p, op, env, s, fuel);
    LoopTurn(p, op', env', s', fuel);
    ConversionPreserves(p, m, op.eval, op'.eval, v, env, env', s, s', fuel);
    var r, r' := ExecOps(p, op.eval, env, s, fuel), ExecOps(p, op'.eval, env', s', fuel);
    if r.Ok? && Truthy(Read(r.v.1, Get(r.v.0, op.cond))) != op.until && fuel > 0 {
      ConversionPreserves(p, m, op.body, op'.body, v, env, env', r.v.1, r'.v.1, fuel);
      var q, q' := ExecOps(p, op.body, env, r.v.1, fuel), ExecOps(p, op'.body, env', r'.v.1, fuel);
      if q.Ok? {
        LoopPreserves(p, m, op, op', v, env, env', q.v.1, q'.v.1, fuel - 1);
      }
    }
  }

  /** One evaluation of the condition, and the turn after it. */
  lemma LoopTurn(p: Prim, op: Op, env: Env, s: St, fuel: nat)
    requires op.Loop?
    ensures ExecOp(p, op, env, s, fuel) ==
            match ExecOps(p, op.eval, env, s, fuel)
            case Timeout => Timeout
            case Stuck => Stuck
            case Returned(vals, s1) => Returned(vals, s1)
            case Ok(r) =>
              if Truthy(Read(r.1, Get(r.0, op.cond))) == op.until then Ok((env, r.1))
              else if fuel == 0 then Timeout
              else match ExecOps(p, op.body, env, r.1, fuel)
                case Timeout => Timeout
                case Stuck => Stuck
                case Returned(vals, s1) => Returned(vals, s1)
                case Ok(q) => ExecOp(p, op, env, q.1, fuel - 1)
  {
  }

  lemma {:induction false} ForPreserves(
      p: Prim, m: Renaming, op: Op, op': Op, v: set<Name>, env: Env, env': Env, s: St, s': St, fuel: nat)
    requires op.For? && ConvOp(m, op, op') && FreeOp(op) <= v && Agree(v, m, env, env') && StRel(s, s')
    ensures RunRel(v + Results(op), Step(m, op, op'), ExecOp(p, op, env, s, fuel), ExecOp(p, op', env', s', fuel))
    decreases fuel, op, 3
  {
    hide ExecOps, ConvOps, FreeOps, CloRel, StRel, Turns;
    CellsAgree(v, m, env, env', op.args, op'.args);
    ValuesRel(s, s', Cells(env, op.args));
    assert v + Results(op) == v && Step(m, op, op') == m;
    var vs := Values(s, Cells(env, op.args));
    if |vs| == 3 {
      if op.numeric {
        TurnsPreserve(p, m, op, op', v, env, env', vs[1], vs[2], vs[0], s, s', fuel);
      } else {
        TurnsPreserve(p, m, op, op', v, env, env', vs[0], vs[1], vs[2], s, s', fuel);
      }
    }
  }

  /** Two `for` loops with the same control value, from here on. */
  lemma {:induction false} TurnsPreserve(
      p: Prim, m: Renaming, op: Op, op': Op, v: set<Name>, env: Env, env': Env, a: Val, b: Val, ctl: Val, s: St,
      s': St, fuel: nat)
    requires op.For? && ConvOp(m, op, op') && FreeOp(op) <= v && Agree(v, m, env, env') && StRel(s, s')
    ensures RunRel(v, m, Turns(p, op, env, a, b, ctl, s, fuel), Turns(p, op', env', a, b, ctl, s', fuel))
    decreases fuel, op, 2
  {
    hide ExecOps, ConvOp, FreeOp, Agree, CloRel, Turn;
    ForParts(m, op, op', v);
    if fuel > 0 {
      if op.numeric {
        if a.Num? && b.Num? && ctl.Num? {
          TurnPreserves(p, m, op, op', v, env, env', a, b, [ctl], Num(ctl.n + b.n), s, s', fuel);
        }
      } else if a.Fcn? && a.id < |s.fcns| {
        BodyPreserves(p, s.fcns[a.id], s'.fcns[a.id], [b, ctl], s, s', fuel - 1);
        var r, r' := RunClosure(p, s.fcns[a.id], [b, ctl], s, fuel - 1),
                     RunClosure(p, s'.fcns[a.id], [b, ctl], s', fuel - 1);
        if r.Ok? && r.v.0 != [] {
          TurnPreserves(p, m, op, op', v, env, env', a, b, r.v.0, r.v.0[0], r.v.1, r'.v.1, fuel);
        }
      }
    }
  }

  lemma ForParts(m: Renaming, op: Op, op': Op, v: set<Name>)
    requires op.For? && ConvOp(m, op, op') && FreeOp(op) <= v
    ensures op'.For? && op'.numeric == op.numeric && |op'.params| == |op.params| && Fresh(m, op'.params)
    ensures ConvOps(Extend(m, op.params, op'.params), op.body, op'.body) && FreeOps(op.body) <= v + Names(op.params)
  {
  }

  lemma {:induction false} TurnPreserves(
      p: Prim, m: Renaming, op: Op, op': Op, v: set<Name>, env: Env, env': Env, a: Val, b: Val, vals: seq<Val>,
      next: Val, s: St, s': St, fuel: nat)
    requires op.For? && ConvOp(m, op, op') && FreeOp(op) <= v && Agree(v, m, env, env') && StRel(s, s') && fuel > 0
    ensures op'.For?
    ensures RunRel(v, m, Turn(p, op, env, a, b, vals, next, s, fuel), Turn(p, op', env', a, b, vals, next, s', fuel))
    decreases fuel, op, 1
  {
    hide ExecOps, ConvOp, FreeOp, Agree, CloRel, StRel, Turns, BindNew, Extend;
    ForParts(m, op, op', v);
    BindNewRel(v, m, env, env', op.params, op'.params, vals, s, s');
    var (env1, s1) := BindNew(env, op.params, vals, s);
    var (env1', s1') := BindNew(env', op'.params, vals, s');
    ConversionPreserves(p, Extend(m, op.params, op'.params), op.body, op'.body, v + Names(op.params), env1, env1', s1,
      s1', fuel);
    var r, r' := ExecOps(p, op.body, env1, s1, fuel), ExecOps(p, op'.body, env1', s1', fuel);
    if r.Ok? {
      TurnsPreserve(p, m, op, op', v, env, env', a, b, next, r.v.1, r'.v.1, fuel - 1);
    }
  }

  lemma {:induction false} CallPreserves(
      p: Prim, m: Renaming, op: Op, op': Op, v: set<Name>, env: Env, env': Env, s: St, s': St, fuel: nat)
    requires op.CallOp? && ConvOp(m, op, op') && FreeOp(op) <= v && Agree(v, m, env, env') && StRel(s, s')
    ensures RunRel(v + Results(op), Step(m, op, op'), ExecOp(p, op, env, s, fuel), ExecOp(p, op', env', s', fuel))
    decreases fuel, op, 0
  {
    assert op.callee in v;
    CellsAgree(v, m, env, env', op.args, op'.args);
    var args := Values(s, Cells(env, op.args));
    ValuesRel(s, s', Cells(env, op.args));
    var f := Read(s, Get(env, op.callee));
    if f.Fcn? && f.id < |s.fcns| && fuel > 0 {
      var c, c' := s.fcns[f.id], s'.fcns[f.id];
      BodyPreserves(p, c, c', args, s, s', fuel - 1);
      var r, r' := RunClosure(p, c, args, s, fuel - 1), RunClosure(p, c', args, s', fuel - 1);
      if r.Ok? {
        BindNewRel(v, m, env, env', op.outs, op'.outs, r.v.0, r.v.1, r'.v.1);
      }
    }
  }

  /** Related closures, called with the same arguments, yield the same values. */
  lemma {:induction false} BodyPreserves(p: Prim, c: Closure, c': Closure, args: seq<Val>, s: St, s': St, fuel: nat)
    requires CloRel(c, c') && StRel(s, s')
    ensures var r, r' := RunClosure(p, c, args, s, fuel), RunClosure(p, c', args, s', fuel);
            if r.Ok? then r'.Ok? && r'.v.0 == r.v.0 && StRel(r.v.1, r'.v.1) else r' == r && !r.Returned?
    decreases fuel, c.fcn, 3
  {
    var m: Renaming :| CloMap(m, c, c');
    var w := FreeBody(c.fcn) - Names(c.params);
    BindNewRel(w, m, Outside(c), Outside(c'), c.params, c'.params, args, s, s');
    var (env1, s1) := BindNew(Outside(c), c.params, args, s);
    var (env1', s1') := BindNew(Outside(c'), c'.params, args, s');
    var m1 := Extend(m, c.params, c'.params);
    ConversionPreserves(p, m1, c.fcn.ops, c'.fcn.ops, w + Names(c.params), env1, env1', s1, s1', fuel);
    var r, r' := ExecOps(p, c.fcn.ops, env1, s1, fuel), ExecOps(p, c'.fcn.ops, env1', s1', fuel);
    if r.Ok? {
      var m2 := After(m1, c.fcn.ops, c'.fcn.ops);
      CellsAgree(w + Names(c.params) + OpsResults(c.fcn.ops), m2, r.v.0, r'.v.0, c.fcn.rets, c'.fcn.rets);
      ValuesRel(r.v.1, r'.v.1, Cells(r.v.0, c.fcn.rets));
    }
  }
}
