/** The numeric `for` over cells: the ops that the pattern builds, run as ops of the dialect, against
    the loop of section 3.3.5 of the Lua 5.3 Reference Manual, with any code as the body. */
module LuaNumericFor {
  import opened LuaIr
  import opened LuaClone
  import opened LuaCells
  import opened LuaUntouched
  import opened LuaLoops

  /** `x` is the loop variable and the body's block argument, which the pattern replaces by the wrapped
      start value; `lower`, `upper` and `step` name cells.  The added ops have kinds `k` to `k + 7` and
      define the names `t` to `t + 5`. */
  datatype Loop = Loop(x: Name, lower: Name, upper: Name, step: Name, body: seq<Op>, k: nat, t: nat)

  // ----- The ops of the pattern

  function Init(l: Loop): seq<Op> {
    [Prim(l.k, [l.t], [l.step]), Prim(l.k + 1, [l.t + 1], [l.lower]), Prim(l.k + 2, [l.x], [l.t + 1])]
  }

  function Eval(l: Loop): Block { Block([Prim(l.k + 3, [l.t + 2], [l.x, l.upper])], Cond(l.t + 2)) }

  /** Get the value, add the step, wrap the sum, and copy it into the loop's cell. */
  function Tail(l: Loop): seq<Op> {
    [Prim(l.k + 4, [l.t + 3], [l.x]), Prim(l.k + 5, [l.t + 4], [l.t + 3, l.t]), Prim(l.k + 6, [l.t + 5], [l.t + 4]),
     Prim(l.k + 7, [], [l.x, l.t + 5])]
  }

  function While(l: Loop): Op { LoopWhile(Eval(l), Block(l.body + Tail(l), End)) }

  function LoweredOps(l: Loop): seq<Op> { Init(l) + [While(l)] }

  // ----- What they do

  /** The 64-bit payload of a cell. */
  function Payload(w: World, l: Loc): int { if l < |w.heap| && w.heap[l].Num? then w.heap[l].n else 0 }

  /** `luac.get_int_val`, `luac.wrap_int`, `luac.le`, `std.addi` and `lua.copy`. */
  function Value(j: nat, locs: seq<Loc>, w: World): Val {
    if j == 3 then Bool(Payload(w, Arg(locs, 0)) <= Payload(w, Arg(locs, 1)))
    else if j == 5 then Num(Wrap64(Payload(w, Arg(locs, 0)) + Payload(w, Arg(locs, 1))))
    else Num(Payload(w, Arg(locs, 0)))
  }

  /** Every added op has a cell for its result; the last one writes the cell of its first operand. */
  function Effect(slot: nat -> Loc, k: nat, kind: nat, locs: seq<Loc>, w: World): World
    requires k <= kind
  {
    if kind == k + 7 then Put(w, Arg(locs, 0), Num(Payload(w, Arg(locs, 1))))
      else Put(w, slot(kind), Value(kind - k, locs, w))
  }

  ghost predicate Machine(sem: Sem, k: nat, slot: nat -> Loc) {
    forall kind, locs, w :: k <= kind < k + 8 ==>
      && sem.ending(kind, locs, w) == Goes && sem.result(kind, locs, w, 0) == slot(kind)
      && sem.effect(kind, locs, w) == Effect(slot, k, kind, locs, w)
  }

  function Names(l: Loop): set<Name> { {l.t, l.t + 1, l.t + 2, l.t + 3, l.t + 4, l.t + 5} }

  function Temps(k: nat, slot: nat -> Loc): set<Loc> {
    {slot(k), slot(k + 1), slot(k + 3), slot(k + 4), slot(k + 5), slot(k + 6)}
  }

  function Extra(l: Loop, slot: nat -> Loc): Added { Added(Names(l), Temps(l.k, slot)) }

  /** The cells of the added ops are there, and no two are the same. */
  predicate Slots(k: nat, slot: nat -> Loc, w: World) {
    && (forall i :: k <= i < k + 7 ==> slot(i) < |w.heap|)
    && forall i, j :: k <= i < j < k + 7 ==> slot(i) != slot(j)
  }

  // ----- The loop of the manual

  function Enter(s: St, x: Name, cell: Loc, i: int): St { St(s.env[x := cell], Put(s.w, cell, Num(i))) }

  /** Runs the body for `i`, `i + step`, ... as long as the value, wrapped to 64 bits, is at most `upper`. */
  function Turns(sem: Sem, body: seq<Op>, x: Name, cell: Loc, i: int, upper: int, step: int, s: St, fuel: nat): Out
    decreases fuel
  {
    if fuel == 0 then Timeout
    else if i > upper then Normal(s)
    else match ExecOps(sem, body, Enter(s, x, cell, i), fuel)
      case Normal(s1) => Turns(sem, body, x, cell, Wrap64(i + step), upper, step, s1, fuel - 1)
      case o => o
  }

  /** The manual: the body runs for `lower + k * step`, for each `k` up to `n - 1`. */
  function Manual(sem: Sem, body: seq<Op>, x: Name, cell: Loc, lower: int, step: int, k: nat, n: nat, s: St,
      fuel: nat): Out
    requires k <= n
    decreases fuel
  {
    if fuel == 0 then Timeout
    else if k == n then Normal(s)
    else match ExecOps(sem, body, Enter(s, x, cell, lower + k * step), fuel)
      case Normal(s1) => Manual(sem, body, x, cell, lower, step, k + 1, n, s1, fuel - 1)
      case o => o
  }

  // ----- Which bodies

  /** On this run of the loop no turn of the body writes the cells. */
  ghost predicate Spared(sem: Sem, cells: set<Loc>, body: seq<Op>, x: Name, cell: Loc, i: int, upper: int, step: int,
      s: St, fuel: nat)
    decreases fuel
  {
    fuel > 0 && i <= upper ==>
      var s0 := Enter(s, x, cell, i);
      && Leaves(sem, cells, body, s0, fuel)
      && match ExecOps(sem, body, s0, fuel)
         case Normal(s1) => Spared(sem, cells, body, x, cell, Wrap64(i + step), upper, step, s1, fuel - 1)
         case _ => true
  }

  /** The same of the manual's run. */
  ghost predicate ManualSpares(sem: Sem, cells: set<Loc>, body: seq<Op>, x: Name, cell: Loc, lower: int, step: int,
      k: nat, n: nat, s: St, fuel: nat)
    requires k <= n
    decreases fuel
  {
    fuel > 0 && k < n ==>
      var s0 := Enter(s, x, cell, lower + k * step);
      && Leaves(sem, cells, body, s0, fuel)
      && match ExecOps(sem, body, s0, fuel)
         case Normal(s1) => ManualSpares(sem, cells, body, x, cell, lower, step, k + 1, n, s1, fuel - 1)
         case _ => true
  }

  // ----- One op after the other

  function Do(slot: nat -> Loc, k: nat, kind: nat, y: Name, args: seq<Name>, s: St): St
    requires k <= kind
  {
    St(s.env[y := slot(kind)], Effect(slot, k, kind, Locs(s.env, args), s.w))
  }

  lemma StepOne(sem: Sem, slot: nat -> Loc, k: nat, kind: nat, y: Name, args: seq<Name>, rest: seq<Op>, s: St, f: nat)
    requires Machine(sem, k, slot) && k <= kind < k + 7
    ensures ExecOps(sem, [Prim(kind, [y], args)] + rest, s, f) == ExecOps(sem, rest, Do(slot, k, kind, y, args, s), f)
  {
    var locs := Locs(s.env, args);
    var all := [Prim(kind, [y], args)] + rest;
    assert all[1..] == rest;
    assert sem.effect(kind, locs, s.w) == Effect(slot, k, kind, locs, s.w);
    assert [y][..0] == [];
    assert Bind(s.env, [y], i => sem.result(kind, locs, s.w, i)) == s.env[y := slot(kind)];
  }

  lemma StepCopy(sem: Sem, slot: nat -> Loc, k: nat, args: seq<Name>, s: St, f: nat)
    requires Machine(sem, k, slot)
    ensures ExecOps(sem, [Prim(k + 7, [], args)], s, f)
            == Normal(St(s.env, Effect(slot, k, k + 7, Locs(s.env, args), s.w)))
  {
    assert [Prim(k + 7, [], args)][1..] == [];
    assert sem.effect(k + 7, Locs(s.env, args), s.w) == Effect(slot, k, k + 7, Locs(s.env, args), s.w);
  }

  /** The value of an added op, by its name and in its cell. */
  predicate Holds(slot: nat -> Loc, s: St, y: Name, kind: nat, v: Val) {
    Get(s.env, y) == slot(kind) && slot(kind) < |s.w.heap| && s.w.heap[slot(kind)] == v
  }

  /** An added op gives its result its value, and changes nothing else. */
  lemma DoGives(slot: nat -> Loc, k: nat, kind: nat, y: Name, args: seq<Name>, s: St, v: Val)
    requires k <= kind < k + 7 && Slots(k, slot, s.w) && v == Value(kind - k, Locs(s.env, args), s.w)
    ensures var s1 := Do(slot, k, kind, y, args, s);
            && Holds(slot, s1, y, kind, v) && Slots(k, slot, s1.w) && s1.env == s.env[y := slot(kind)]
            && s1.w == Put(s.w, slot(kind), v)
  {
  }

  lemma StillHolds(slot: nat -> Loc, k: nat, s: St, y: Name, kind: nat, v: Val, z: Name, other: nat, u: Val)
    requires Slots(k, slot, s.w) && k <= kind < k + 7 && k <= other < k + 7 && kind != other && y != z
    requires Holds(slot, s, z, other, u)
    ensures Holds(slot, St(s.env[y := slot(kind)], Put(s.w, slot(kind), v)), z, other, u)
  {
  }

  lemma StillSame(a: Added, s: St, y: Name, c: Loc, v: Val)
    requires y in a.names && c in a.cells
    ensures EnvSame(a, s.env, s.env[y := c]) && WorldSame(a, s.w, Put(s.w, c, v))
  {
  }

  lemma SameOn(a: Added, s: St, s1: St, s2: St)
    requires EnvSame(a, s.env, s1.env) && EnvSame(a, s1.env, s2.env) && WorldSame(a, s.w, s1.w)
             && WorldSame(a, s1.w, s2.w)
    ensures EnvSame(a, s.env, s2.env) && WorldSame(a, s.w, s2.w)
  {
  }

  /** What is known where the loop tests its condition. */
  predicate AtHead(l: Loop, slot: nat -> Loc, i: int, step: int, s: St) {
    Slots(l.k, slot, s.w) && Holds(slot, s, l.t, l.k, Num(step)) && Holds(slot, s, l.x, l.k + 2, Num(i))
  }

  /** An added op whose result is neither the step nor the loop variable. */
  lemma Aside(l: Loop, slot: nat -> Loc, i: int, step: int, s: St, kind: nat, y: Name, args: seq<Name>, v: Val)
    requires AtHead(l, slot, i, step, s) && l.k < kind < l.k + 7 && kind != l.k + 2 && l.x !in Names(l)
    requires y in Names(l) && y != l.t && v == Value(kind - l.k, Locs(s.env, args), s.w)
    ensures var s1 := Do(slot, l.k, kind, y, args, s);
            && AtHead(l, slot, i, step, s1) && Holds(slot, s1, y, kind, v)
            && EnvSame(Extra(l, slot), s.env, s1.env) && WorldSame(Extra(l, slot), s.w, s1.w)
  {
    DoGives(slot, l.k, kind, y, args, s, v);
    StillHolds(slot, l.k, s, y, kind, v, l.t, l.k, Num(step));
    StillHolds(slot, l.k, s, y, kind, v, l.x, l.k + 2, Num(i));
    assert slot(kind) in Temps(l.k, slot);
    StillSame(Extra(l, slot), s, y, slot(kind), v);
  }

  lemma LocsTwo(env: map<Name, Loc>, x: Name, y: Name)
    ensures Locs(env, [x, y]) == [Get(env, x), Get(env, y)] && Locs(env, [x]) == [Get(env, x)]
  {
  }

  lemma AsideStep(
      sem: Sem, l: Loop, slot: nat -> Loc, i: int, step: int, s: St, kind: nat, y: Name, args: seq<Name>, v: Val,
        rest: seq<Op>, f: nat)
      returns (s1: St)
    requires Machine(sem, l.k, slot) && AtHead(l, slot, i, step, s) && l.k < kind < l.k + 7 && kind != l.k + 2
    requires l.x !in Names(l) && y in Names(l) && y != l.t && v == Value(kind - l.k, Locs(s.env, args), s.w)
    ensures ExecOps(sem, [Prim(kind, [y], args)] + rest, s, f) == ExecOps(sem, rest, s1, f)
    ensures AtHead(l, slot, i, step, s1) && Holds(slot, s1, y, kind, v)
    ensures EnvSame(Extra(l, slot), s.env, s1.env) && WorldSame(Extra(l, slot), s.w, s1.w)
  {
    s1 := Do(slot, l.k, kind, y, args, s);
    StepOne(sem, slot, l.k, kind, y, args, rest, s, f);
    Aside(l, slot, i, step, s, kind, y, args, v);
  }

  lemma ValueOfOne(slot: nat -> Loc, s: St, j: nat, x: Name, kind: nat, n: int)
    requires Holds(slot, s, x, kind, Num(n)) && j != 3 && j != 5
    ensures Value(j, Locs(s.env, [x]), s.w) == Num(n)
  {
    LocsTwo(s.env, x, x);
  }

  lemma ValueOfSum(slot: nat -> Loc, s: St, x: Name, kind: nat, n: int, y: Name, other: nat, m: int)
    requires Holds(slot, s, x, kind, Num(n)) && Holds(slot, s, y, other, Num(m))
    ensures Value(5, Locs(s.env, [x, y]), s.w) == Num(Wrap64(n + m))
  {
    LocsTwo(s.env, x, y);
  }

  function TailFrom(l: Loop, j: nat): seq<Op> { if j <= |Tail(l)| then Tail(l)[j..] else [] }

  /** The loop variable's value. */
  lemma GetRuns(sem: Sem, l: Loop, slot: nat -> Loc, i: int, step: int, s: St, f: nat) returns (s1: St)
    requires Machine(sem, l.k, slot) && AtHead(l, slot, i, step, s) && l.x !in Names(l)
    ensures ExecOps(sem, Tail(l), s, f) == ExecOps(sem, TailFrom(l, 1), s1, f)
    ensures AtHead(l, slot, i, step, s1) && Holds(slot, s1, l.t + 3, l.k + 4, Num(i))
    ensures EnvSame(Extra(l, slot), s.env, s1.env) && WorldSame(Extra(l, slot), s.w, s1.w)
  {
    ValueOfOne(slot, s, 4, l.x, l.k + 2, i);
    assert Tail(l) == [Prim(l.k + 4, [l.t + 3], [l.x])] + TailFrom(l, 1);
    hide Holds, EnvSame, WorldSame, Value, Machine, ExecOps, AtHead, Extra, Locs, Tail, TailFrom;
    s1 := AsideStep(sem, l, slot, i, step, s, l.k + 4, l.t + 3, [l.x], Num(i), TailFrom(l, 1), f);
  }

  /** The sum with the step. */
  lemma AddRuns(sem: Sem, l: Loop, slot: nat -> Loc, i: int, step: int, s: St, f: nat) returns (s1: St)
    requires Machine(sem, l.k, slot) && AtHead(l, slot, i, step, s) && l.x !in Names(l)
    requires Holds(slot, s, l.t + 3, l.k + 4, Num(i))
    ensures ExecOps(sem, TailFrom(l, 1), s, f) == ExecOps(sem, TailFrom(l, 2), s1, f)
    ensures AtHead(l, slot, i, step, s1) && Holds(slot, s1, l.t + 4, l.k + 5, Num(Wrap64(i + step)))
    ensures EnvSame(Extra(l, slot), s.env, s1.env) && WorldSame(Extra(l, slot), s.w, s1.w)
  {
    ValueOfSum(slot, s, l.t + 3, l.k + 4, i, l.t, l.k, step);
    assert TailFrom(l, 1) == [Prim(l.k + 5, [l.t + 4], [l.t + 3, l.t])] + TailFrom(l, 2);
    hide Holds, EnvSame, WorldSame, Value, Machine, ExecOps, AtHead, Extra, Locs, Tail, TailFrom;
    s1 := AsideStep(sem, l, slot, i, step, s, l.k + 5, l.t + 4, [l.t + 3, l.t], Num(Wrap64(i + step)), TailFrom(l, 2),
      f);
  }

  /** The wrapped sum. */
  lemma WrapRuns(sem: Sem, l: Loop, slot: nat -> Loc, i: int, step: int, s: St, f: nat) returns (s1: St)
    requires Machine(sem, l.k, slot) && AtHead(l, slot, i, step, s) && l.x !in Names(l)
    requires Holds(slot, s, l.t + 4, l.k + 5, Num(Wrap64(i + step)))
    ensures ExecOps(sem, TailFrom(l, 2), s, f) == ExecOps(sem, [Prim(l.k + 7, [], [l.x, l.t + 5])], s1, f)
    ensures AtHead(l, slot, i, step, s1) && Holds(slot, s1, l.t + 5, l.k + 6, Num(Wrap64(i + step)))
    ensures EnvSame(Extra(l, slot), s.env, s1.env) && WorldSame(Extra(l, slot), s.w, s1.w)
  {
    ValueOfOne(slot, s, 6, l.t + 4, l.k + 5, Wrap64(i + step));
    var rest := [Prim(l.k + 7, [], [l.x, l.t + 5])];
    assert TailFrom(l, 2) == [Prim(l.k + 6, [l.t + 5], [l.t + 4])] + rest;
    hide Holds, EnvSame, WorldSame, Value, Machine, ExecOps, AtHead, Extra, Locs, Tail, TailFrom;
    s1 := AsideStep(sem, l, slot, i, step, s, l.k + 6, l.t + 5, [l.t + 4], Num(Wrap64(i + step)), rest, f);
  }

  /** The copy into the loop's cell. */
  lemma CopyRuns(sem: Sem, l: Loop, slot: nat -> Loc, i: int, next: int, step: int, s: St, f: nat)
    requires Machine(sem, l.k, slot) && AtHead(l, slot, i, step, s) && Holds(slot, s, l.t + 5, l.k + 6, Num(next))
    ensures ExecOps(sem, [Prim(l.k + 7, [], [l.x, l.t + 5])], s, f)
            == Normal(St(s.env, Put(s.w, slot(l.k + 2), Num(next))))
    ensures AtHead(l, slot, next, step, St(s.env, Put(s.w, slot(l.k + 2), Num(next))))
  {
    StepCopy(sem, slot, l.k, [l.x, l.t + 5], s, f);
    LocsTwo(s.env, l.x, l.t + 5);
    StillHolds(slot, l.k, s, l.x, l.k + 2, Num(next), l.t + 5, l.k + 6, Num(next));
  }

  lemma PutSame(a: Added, w: World, w': World, c: Loc, v: Val)
    requires WorldSame(a, w, w')
    ensures WorldSame(a, Put(w, c, v), Put(w', c, v))
  {
  }

  /** At the end of a turn the loop's cell holds the next value, and no other cell has changed. */
  lemma TailRuns(sem: Sem, l: Loop, slot: nat -> Loc, i: int, step: int, s: St, f: nat)
    requires Machine(sem, l.k, slot) && AtHead(l, slot, i, step, s) && l.x !in Names(l)
    ensures var o := ExecOps(sem, Tail(l), s, f);
            && o.Normal? && AtHead(l, slot, Wrap64(i + step), step, o.st)
            && EnvSame(Extra(l, slot), s.env, o.st.env)
            && WorldSame(Extra(l, slot), Put(s.w, slot(l.k + 2), Num(Wrap64(i + step))), o.st.w)
  {
    var a := Extra(l, slot);
    var s1 := GetRuns(sem, l, slot, i, step, s, f);
    var s2 := AddRuns(sem, l, slot, i, step, s1, f);
    var s3 := WrapRuns(sem, l, slot, i, step, s2, f);
    CopyRuns(sem, l, slot, i, Wrap64(i + step), step, s3, f);
    hide Holds, EnvSame, WorldSame, Machine, ExecOps, AtHead, Extra, Tail, TailFrom;
    SameOn(a, s, s1, s2);
    SameOn(a, s, s2, s3);
    PutSame(a, s.w, s3.w, slot(l.k + 2), Num(Wrap64(i + step)));
  }

  // ----- The whole loop

  /** The loop as it stands in a function: the added values are new, and the body defines neither the
      loop variable nor the limit anew. */
  ghost predicate Proper(sem: Sem, l: Loop, slot: nat -> Loc, u: Loc) {
    && Machine(sem, l.k, slot) && Foreign(sem, Extra(l, slot), l.body)
    && l.x !in Names(l) && l.upper !in Names(l) && l.upper != l.x
    && u !in Temps(l.k, slot) && u != slot(l.k + 2)
    && l.x !in OpsDefs(l.body) && l.upper !in OpsDefs(l.body)
  }

  predicate LimitIs(l: Loop, u: Loc, upper: int, s: St) {
    Get(s.env, l.upper) == u && u < |s.w.heap| && Payload(s.w, u) == upper
  }

  /** The manual's state `m` and the state `s` of the lowered code, where the condition is tested. */
  ghost predicate HeadRel(l: Loop, slot: nat -> Loc, u: Loc, i: int, upper: int, step: int, m: St, s: St) {
    && AtHead(l, slot, i, step, s) && Same(Extra(l, slot), Enter(m, l.x, slot(l.k + 2), i), s)
    && LimitIs(l, u, upper, s)
  }

  function Gone(l: Loop, slot: nat -> Loc): Added { Added(Names(l) + {l.x}, Temps(l.k, slot) + {slot(l.k + 2)}) }

  /** The same outcome but for what belongs to the loop, which nobody can name any more. */
  ghost predicate EndSame(a: Added, o: Out, o': Out) {
    match o
    case Normal(s) => o'.Normal? && EnvSame(a, s.env, o'.st.env) && WorldSame(a, s.w, o'.st.w)
    case Returned(vals, w) => o'.Returned? && o'.vals == vals && WorldSame(a, w, o'.w)
    case _ => o' == o
  }

  /** The condition: `i <= upper`. */
  lemma EvalRuns(sem: Sem, l: Loop, slot: nat -> Loc, u: Loc, i: int, upper: int, step: int, m: St, s: St, f: nat)
      returns (s1: St)
    requires Proper(sem, l, slot, u) && HeadRel(l, slot, u, i, upper, step, m, s)
    ensures ExecOps(sem, Eval(l).ops, s, f) == Normal(s1) && HeadRel(l, slot, u, i, upper, step, m, s1)
    ensures Test(s1, l.t + 2) <==> i <= upper
  {
    hide Machine, Foreign, AtHead, Same, EnvSame, WorldSame, ExecOps, Enter;
    s1 := LimitTest(sem, l, slot, u, i, upper, step, s, f);
    SameThen(Extra(l, slot), Enter(m, l.x, slot(l.k + 2), i), s, s1);
    LimitStays(Extra(l, slot), l, u, upper, s, s1);
  }

  lemma LimitTest(sem: Sem, l: Loop, slot: nat -> Loc, u: Loc, i: int, upper: int, step: int, s: St, f: nat)
      returns (s1: St)
    requires Machine(sem, l.k, slot) && l.x !in Names(l) && AtHead(l, slot, i, step, s) && LimitIs(l, u, upper, s)
    ensures ExecOps(sem, Eval(l).ops, s, f) == Normal(s1) && AtHead(l, slot, i, step, s1)
    ensures EnvSame(Extra(l, slot), s.env, s1.env) && WorldSame(Extra(l, slot), s.w, s1.w)
    ensures Test(s1, l.t + 2) <==> i <= upper
  {
    LocsTwo(s.env, l.x, l.upper);
    assert Value(3, Locs(s.env, [l.x, l.upper]), s.w) == Bool(i <= upper);
    s1 := AsideStep(sem, l, slot, i, step, s, l.k + 3, l.t + 2, [l.x, l.upper], Bool(i <= upper), [], f);
    assert Eval(l).ops == [Prim(l.k + 3, [l.t + 2], [l.x, l.upper])] + [];
  }

  lemma LimitStays(a: Added, l: Loop, u: Loc, upper: int, s: St, s1: St)
    requires LimitIs(l, u, upper, s) && EnvSame(a, s.env, s1.env) && WorldSame(a, s.w, s1.w)
    requires l.upper !in a.names && u !in a.cells
    ensures LimitIs(l, u, upper, s1)
  {
    PayloadSame(a, s.w, s1.w, u);
  }

  lemma SameThen(a: Added, m: St, s: St, s1: St)
    requires Same(a, m, s) && EnvSame(a, s.env, s1.env) && WorldSame(a, s.w, s1.w)
    ensures Same(a, m, s1)
  {
  }

  lemma PayloadSame(a: Added, w: World, w': World, u: Loc)
    requires WorldSame(a, w, w') && u !in a.cells
    ensures Payload(w, u) == Payload(w', u)
  {
  }

  lemma HoldsKept(slot: nat -> Loc, s: St, s1: St, y: Name, kind: nat, v: Val, cells: set<Loc>)
    requires Holds(slot, s, y, kind, v) && Kept(cells, s.w, s1.w) && slot(kind) in cells
             && Get(s1.env, y) == Get(s.env, y)
    ensures Holds(slot, s1, y, kind, v)
  {
  }

  /** After the body the step, the loop variable and the limit are what they were. */
  lemma BodyKeeps(sem: Sem, l: Loop, slot: nat -> Loc, u: Loc, i: int, upper: int, step: int, s: St, f: nat)
    requires Proper(sem, l, slot, u) && AtHead(l, slot, i, step, s) && LimitIs(l, u, upper, s)
             && Outside(Extra(l, slot), s.env) && Leaves(sem, {slot(l.k + 2), u}, l.body, s, f)
    ensures var o := ExecOps(sem, l.body, s, f);
            o.Normal? ==> AtHead(l, slot, i, step, o.st) && LimitIs(l, u, upper, o.st)
  {
    var o, a, k := ExecOps(sem, l.body, s, f), Extra(l, slot), l.k;
    if o.Normal? {
      OpsDefsInNames(l.body);
      assert l.t in Names(l) && l.t !in OpsDefs(l.body);
      OpsBind(sem, l.body, s, f, l.t);
      OpsBind(sem, l.body, s, f, l.x);
      OpsBind(sem, l.body, s, f, l.upper);
      OpsKeep(sem, a, l.body, s, f);
      assert Kept({slot(k + 2), u}, s.w, o.st.w);
      assert slot(k) in a.cells;
      hide ExecOps, Foreign, Machine, Leaves, Outside, Extra, Names, Temps;
      HoldsKept(slot, s, o.st, l.t, k, Num(step), a.cells);
      HoldsKept(slot, s, o.st, l.x, k + 2, Num(i), {slot(k + 2), u});
    }
  }

  /** The state for the next turn. */
  lemma NextHead(sem: Sem, l: Loop, slot: nat -> Loc, u: Loc, i: int, upper: int, step: int, m: St, s: St, f: nat)
    requires Proper(sem, l, slot, u) && AtHead(l, slot, i, step, s) && Same(Extra(l, slot), m, s)
             && LimitIs(l, u, upper, s)
    ensures var o := ExecOps(sem, Tail(l), s, f);
            o.Normal? && HeadRel(l, slot, u, Wrap64(i + step), upper, step, m, o.st)
  {
    var a, cell, next := Extra(l, slot), slot(l.k + 2), Wrap64(i + step);
    TailRuns(sem, l, slot, i, step, s, f);
    var s3 := ExecOps(sem, Tail(l), s, f).st;
    PutSame(a, m.w, s.w, cell, Num(next));
    CellApart(l, slot, s3.w);
    assert PutKeeps(s.w, cell, Num(next), u);
    PayloadSame(a, Put(s.w, cell, Num(next)), s3.w, u);
    EnterSame(a, m, s.env, s3, l.x, cell, next);
  }

  predicate PutKeeps(w: World, c: Loc, v: Val, u: Loc) { c != u ==> Payload(Put(w, c, v), u) == Payload(w, u) }

  lemma CellApart(l: Loop, slot: nat -> Loc, w: World)
    requires Slots(l.k, slot, w)
    ensures slot(l.k + 2) !in Temps(l.k, slot)
  {
    var k := l.k;
    assert forall i, j :: k <= i < j < k + 7 ==> slot(i) != slot(j);
  }

  lemma EnterSame(a: Added, m: St, env: map<Name, Loc>, s3: St, x: Name, cell: Loc, i: int)
    requires EnvSame(a, m.env, env) && Outside(a, m.env) && Get(s3.env, x) == cell && cell !in a.cells
    requires forall y: Name :: y !in a.names && y != x ==> Get(env, y) == Get(s3.env, y)
    requires WorldSame(a, Put(m.w, cell, Num(i)), s3.w) && There(a, m.w)
    ensures Same(a, Enter(m, x, cell, i), s3)
  {
  }

  lemma BodyTail(sem: Sem, l: Loop, s: St, f: nat)
    ensures ExecOps(sem, l.body + Tail(l), s, f) ==
            (match ExecOps(sem, l.body, s, f) case Normal(s1) => ExecOps(sem, Tail(l), s1, f) case o => o)
  {
    ExecOpsAppend(sem, l.body, Tail(l), s, f);
  }

  lemma WhileTurn(sem: Sem, l: Loop, s: St, f: nat, s1: St)
    requires f > 0 && ExecOps(sem, Eval(l).ops, s, f) == Normal(s1)
    ensures ExecOp(sem, While(l), s, f) ==
            if !Test(s1, l.t + 2) then Normal(s1)
            else match ExecOps(sem, l.body + Tail(l), s1, f)
              case Normal(s2) => ExecOp(sem, While(l), s2, f - 1)
              case o => o
  {
  }

  /** A turn: related states again, or the same way out of the loop. */
  lemma TurnRuns(sem: Sem, l: Loop, slot: nat -> Loc, u: Loc, i: int, upper: int, step: int, m: St, s: St, f: nat)
    requires Proper(sem, l, slot, u) && HeadRel(l, slot, u, i, upper, step, m, s)
    requires Leaves(sem, {slot(l.k + 2), u}, l.body, Enter(m, l.x, slot(l.k + 2), i), f)
    ensures var o := ExecOps(sem, l.body, Enter(m, l.x, slot(l.k + 2), i), f);
            var o' := ExecOps(sem, l.body + Tail(l), s, f);
            if o.Normal? then o'.Normal? && HeadRel(l, slot, u, Wrap64(i + step), upper, step, o.st, o'.st)
            else OutSame(Extra(l, slot), o, o')
  {
    var m1 := Enter(m, l.x, slot(l.k + 2), i);
    BodyTail(sem, l, s, f);
    OutsideSame(Extra(l, slot), m1, s);
    OpsSame(sem, Extra(l, slot), l.body, m1, s, f);
    CellApart(l, slot, s.w);
    LeavesSame(sem, Extra(l, slot), {slot(l.k + 2), u}, l.body, m1, s, f);
    BodyKeeps(sem, l, slot, u, i, upper, step, s, f);
    var o, o' := ExecOps(sem, l.body, m1, f), ExecOps(sem, l.body, s, f);
    if o.Normal? {
      NextHead(sem, l, slot, u, i, upper, step, o.st, o'.st, f);
    }
  }

  lemma OutsideSame(a: Added, s: St, s': St)
    requires Same(a, s, s')
    ensures Outside(a, s'.env)
  {
  }

  lemma LeftAlike(l: Loop, slot: nat -> Loc, o: Out, o': Out)
    requires OutSame(Extra(l, slot), o, o') && !o.Normal?
    ensures EndSame(Gone(l, slot), o, o') && !o'.Normal?
  {
    assert Extra(l, slot).cells <= Gone(l, slot).cells;
  }

  /** One turn of both loops: either they go on, related as before, or they end alike. */
  lemma OneTurn(sem: Sem, l: Loop, slot: nat -> Loc, u: Loc, i: int, upper: int, step: int, m: St, s: St, fuel: nat)
      returns (on: bool, m1: St, s1: St)
    requires Proper(sem, l, slot, u) && HeadRel(l, slot, u, i, upper, step, m, s) && fuel > 0
    requires Spared(sem, {slot(l.k + 2), u}, l.body, l.x, slot(l.k + 2), i, upper, step, m, fuel)
    ensures var o := Turns(sem, l.body, l.x, slot(l.k + 2), i, upper, step, m, fuel);
            var o' := ExecOp(sem, While(l), s, fuel);
            if on then
              && HeadRel(l, slot, u, Wrap64(i + step), upper, step, m1, s1)
              && o == Turns(sem, l.body, l.x, slot(l.k + 2), Wrap64(i + step), upper, step, m1, fuel - 1)
              && o' == ExecOp(sem, While(l), s1, fuel - 1)
              && Spared(sem, {slot(l.k + 2), u}, l.body, l.x, slot(l.k + 2), Wrap64(i + step), upper, step, m1,
                 fuel - 1)
            else EndSame(Gone(l, slot), o, o')
  {
    on, m1 := false, m;
    s1 := EvalRuns(sem, l, slot, u, i, upper, step, m, s, fuel);
    WhileTurn(sem, l, s, fuel, s1);
    TurnsTurn(sem, l.body, l.x, slot(l.k + 2), i, upper, step, m, fuel);
    if i > upper {
      LoopOver(l, slot, u, i, upper, step, m, s1);
    } else {
      var o := ExecOps(sem, l.body, Enter(m, l.x, slot(l.k + 2), i), fuel);
      var o' := ExecOps(sem, l.body + Tail(l), s1, fuel);
      TurnRuns(sem, l, slot, u, i, upper, step, m, s1, fuel);
      if o.Normal? {
        on, m1, s1 := true, o.st, o'.st;
      } else {
        LeftAlike(l, slot, o, o');
      }
    }
  }

  /** For every body, every start, limit and step, and every amount of fuel: the lowered loop does what
      the turns do. */
  lemma {:induction false} LoopRuns(sem: Sem, l: Loop, slot: nat -> Loc, u: Loc, i: int, upper: int, step: int, m: St,
      s: St, fuel: nat)
    requires Proper(sem, l, slot, u) && HeadRel(l, slot, u, i, upper, step, m, s)
    requires Spared(sem, {slot(l.k + 2), u}, l.body, l.x, slot(l.k + 2), i, upper, step, m, fuel)
    ensures EndSame(Gone(l, slot), Turns(sem, l.body, l.x, slot(l.k + 2), i, upper, step, m, fuel),
            ExecOp(sem, While(l), s, fuel))
    decreases fuel
  {
    hide *;
    if fuel == 0 {
      NoTurn(sem, l, slot, i, upper, step, m, s);
    } else {
      var on, m1, s1 := OneTurn(sem, l, slot, u, i, upper, step, m, s, fuel);
      if on {
        LoopRuns(sem, l, slot, u, Wrap64(i + step), upper, step, m1, s1, fuel - 1);
      }
    }
  }

  lemma NoTurn(sem: Sem, l: Loop, slot: nat -> Loc, i: int, upper: int, step: int, m: St, s: St)
    ensures EndSame(Gone(l, slot), Turns(sem, l.body, l.x, slot(l.k + 2), i, upper, step, m, 0),
            ExecOp(sem, While(l), s, 0))
  {
  }

  lemma TurnsTurn(sem: Sem, body: seq<Op>, x: Name, cell: Loc, i: int, upper: int, step: int, s: St, fuel: nat)
    requires fuel > 0
    ensures Turns(sem, body, x, cell, i, upper, step, s, fuel) ==
            if i > upper then Normal(s)
            else match ExecOps(sem, body, Enter(s, x, cell, i), fuel)
              case Normal(s1) => Turns(sem, body, x, cell, Wrap64(i + step), upper, step, s1, fuel - 1)
              case o => o
  {
  }

  lemma LoopOver(l: Loop, slot: nat -> Loc, u: Loc, i: int, upper: int, step: int, m: St, s: St)
    requires HeadRel(l, slot, u, i, upper, step, m, s)
    ensures EndSame(Gone(l, slot), Normal(m), Normal(s))
  {
    var a, g, cell := Extra(l, slot), Gone(l, slot), slot(l.k + 2);
    assert a.names <= g.names && a.cells <= g.cells;
  }

  // ----- Before the loop

  /** What the loop finds: a start value, a limit and a step, in cells that are not its own. */
  ghost predicate Given(l: Loop, slot: nat -> Loc, u: Loc, lower: int, upper: int, step: int, s: St) {
    && Slots(l.k, slot, s.w) && Outside(Extra(l, slot), s.env) && LimitIs(l, u, upper, s)
    && l.step !in Names(l) && l.lower !in Names(l)
    && Payload(s.w, Get(s.env, l.step)) == step && Payload(s.w, Get(s.env, l.lower)) == lower
  }

  function InitFrom(l: Loop, j: nat): seq<Op> { if j <= 3 then Init(l)[j..] + [While(l)] else [] }

  lemma StepValue(sem: Sem, l: Loop, slot: nat -> Loc, u: Loc, lower: int, upper: int, step: int, s: St, f: nat)
      returns (s1: St)
    requires Proper(sem, l, slot, u) && Given(l, slot, u, lower, upper, step, s)
    ensures ExecOps(sem, LoweredOps(l), s, f) == ExecOps(sem, InitFrom(l, 1), s1, f)
    ensures Slots(l.k, slot, s1.w) && Holds(slot, s1, l.t, l.k, Num(step))
    ensures EnvSame(Extra(l, slot), s.env, s1.env) && WorldSame(Extra(l, slot), s.w, s1.w)
  {
    assert LoweredOps(l) == [Prim(l.k, [l.t], [l.step])] + InitFrom(l, 1);
    LocsTwo(s.env, l.step, l.step);
    StepOne(sem, slot, l.k, l.k, l.t, [l.step], InitFrom(l, 1), s, f);
    DoGives(slot, l.k, l.k, l.t, [l.step], s, Num(step));
    s1 := Do(slot, l.k, l.k, l.t, [l.step], s);
    StillSame(Extra(l, slot), s, l.t, slot(l.k), Num(step));
  }

  lemma StartValue(sem: Sem, l: Loop, slot: nat -> Loc, lower: int, step: int, s: St, f: nat) returns (s1: St)
    requires Machine(sem, l.k, slot) && Slots(l.k, slot, s.w) && Holds(slot, s, l.t, l.k, Num(step))
    requires Payload(s.w, Get(s.env, l.lower)) == lower
    ensures ExecOps(sem, InitFrom(l, 1), s, f) == ExecOps(sem, InitFrom(l, 2), s1, f)
    ensures Slots(l.k, slot, s1.w) && Holds(slot, s1, l.t, l.k, Num(step))
            && Holds(slot, s1, l.t + 1, l.k + 1, Num(lower))
    ensures EnvSame(Extra(l, slot), s.env, s1.env) && WorldSame(Extra(l, slot), s.w, s1.w)
  {
    assert InitFrom(l, 1) == [Prim(l.k + 1, [l.t + 1], [l.lower])] + InitFrom(l, 2);
    LocsTwo(s.env, l.lower, l.lower);
    StepOne(sem, slot, l.k, l.k + 1, l.t + 1, [l.lower], InitFrom(l, 2), s, f);
    DoGives(slot, l.k, l.k + 1, l.t + 1, [l.lower], s, Num(lower));
    s1 := Do(slot, l.k, l.k + 1, l.t + 1, [l.lower], s);
    StillHolds(slot, l.k, s, l.t + 1, l.k + 1, Num(lower), l.t, l.k, Num(step));
    StillSame(Extra(l, slot), s, l.t + 1, slot(l.k + 1), Num(lower));
  }

  lemma FirstValues(sem: Sem, l: Loop, slot: nat -> Loc, u: Loc, lower: int, upper: int, step: int, s: St, f: nat)
      returns (s2: St)
    requires Proper(sem, l, slot, u) && Given(l, slot, u, lower, upper, step, s)
    ensures ExecOps(sem, LoweredOps(l), s, f) == ExecOps(sem, InitFrom(l, 2), s2, f)
    ensures Slots(l.k, slot, s2.w) && Holds(slot, s2, l.t, l.k, Num(step))
            && Holds(slot, s2, l.t + 1, l.k + 1, Num(lower))
    ensures EnvSame(Extra(l, slot), s.env, s2.env) && WorldSame(Extra(l, slot), s.w, s2.w)
  {
    var s1 := StepValue(sem, l, slot, u, lower, upper, step, s, f);
    assert Get(s.env, l.lower) !in Temps(l.k, slot);
    PayloadSame(Extra(l, slot), s.w, s1.w, Get(s.env, l.lower));
    s2 := StartValue(sem, l, slot, lower, step, s1, f);
    SameOn(Extra(l, slot), s, s1, s2);
  }

  lemma InitRuns(sem: Sem, l: Loop, slot: nat -> Loc, u: Loc, lower: int, upper: int, step: int, s: St, f: nat)
      returns (s3: St)
    requires Proper(sem, l, slot, u) && Given(l, slot, u, lower, upper, step, s)
    ensures ExecOps(sem, LoweredOps(l), s, f) == ExecOp(sem, While(l), s3, f)
            && HeadRel(l, slot, u, lower, upper, step, s, s3)
  {
    hide Machine, Foreign, Outside, EnvSame, WorldSame, ExecOps, ExecOp, Enter, AtHead, Holds, LoweredOps, InitFrom;
    var s2 := FirstValues(sem, l, slot, u, lower, upper, step, s, f);
    s3 := LastInit(sem, l, slot, lower, step, s2, f);
    StartHead(l, slot, u, lower, upper, step, s, s2, s3);
  }

  lemma StartHead(l: Loop, slot: nat -> Loc, u: Loc, lower: int, upper: int, step: int, s: St, s2: St, s3: St)
    requires Slots(l.k, slot, s.w) && Outside(Extra(l, slot), s.env) && LimitIs(l, u, upper, s)
    requires l.x !in Names(l) && l.upper !in Names(l) && l.upper != l.x
             && u !in Temps(l.k, slot) && u != slot(l.k + 2)
    requires EnvSame(Extra(l, slot), s.env, s2.env) && WorldSame(Extra(l, slot), s.w, s2.w)
    requires AtHead(l, slot, lower, step, s3)
             && s3 == St(s2.env[l.x := slot(l.k + 2)], Put(s2.w, slot(l.k + 2), Num(lower)))
    ensures HeadRel(l, slot, u, lower, upper, step, s, s3)
  {
    var a, cell := Extra(l, slot), slot(l.k + 2);
    CellApart(l, slot, s.w);
    PutSame(a, s.w, s2.w, cell, Num(lower));
    EnterSame(a, s, s2.env, s3, l.x, cell, lower);
    PayloadSame(a, s.w, s2.w, u);
    assert PutKeeps(s2.w, cell, Num(lower), u);
  }

  lemma LastInit(sem: Sem, l: Loop, slot: nat -> Loc, lower: int, step: int, s: St, f: nat) returns (s1: St)
    requires Machine(sem, l.k, slot) && Slots(l.k, slot, s.w) && l.x !in Names(l)
    requires Holds(slot, s, l.t, l.k, Num(step)) && Holds(slot, s, l.t + 1, l.k + 1, Num(lower))
    ensures ExecOps(sem, InitFrom(l, 2), s, f) == ExecOp(sem, While(l), s1, f)
    ensures AtHead(l, slot, lower, step, s1)
            && s1 == St(s.env[l.x := slot(l.k + 2)], Put(s.w, slot(l.k + 2), Num(lower)))
  {
    assert InitFrom(l, 2) == [Prim(l.k + 2, [l.x], [l.t + 1])] + [While(l)];
    StepOne(sem, slot, l.k, l.k + 2, l.x, [l.t + 1], [While(l)], s, f);
    ValueOfOne(slot, s, 2, l.t + 1, l.k + 1, lower);
    DoGives(slot, l.k, l.k + 2, l.x, [l.t + 1], s, Num(lower));
    s1 := Do(slot, l.k, l.k + 2, l.x, [l.t + 1], s);
    StillHolds(slot, l.k, s, l.x, l.k + 2, Num(lower), l.t, l.k, Num(step));
    OneLeft(sem, While(l), s1, f);
  }

  lemma OneLeft(sem: Sem, op: Op, s: St, f: nat)
    ensures ExecOps(sem, [op], s, f) == ExecOp(sem, op, s, f)
  {
    assert [op][1..] == [];
    match ExecOp(sem, op, s, f) {
      case Normal(s1) => assert ExecOps(sem, [], s1, f) == Normal(s1);
      case _ =>
    }
  }

  /** The ops that the pattern builds run the body for the values of the 64-bit recurrence, whatever
      the three bounds are and whatever the body does, as long as no turn of this run writes the loop's
      cell or the limit's. */
  lemma LoweredRuns(sem: Sem, l: Loop, slot: nat -> Loc, u: Loc, lower: int, upper: int, step: int, s: St, fuel: nat)
    requires Proper(sem, l, slot, u) && Given(l, slot, u, lower, upper, step, s)
    requires Spared(sem, {slot(l.k + 2), u}, l.body, l.x, slot(l.k + 2), lower, upper, step, s, fuel)
    ensures EndSame(Gone(l, slot), Turns(sem, l.body, l.x, slot(l.k + 2), lower, upper, step, s, fuel),
                    ExecOps(sem, LoweredOps(l), s, fuel))
  {
    hide *;
    var s3 := InitRuns(sem, l, slot, u, lower, upper, step, s, fuel);
    LoopRuns(sem, l, slot, u, lower, upper, step, s, s3, fuel);
  }

  // ----- Against the manual

  /** When the value after the last one fits, the turns are the manual's. */
  lemma TurnsManual(
      sem: Sem, body: seq<Op>, x: Name, cell: Loc, lower: int, upper: int, step: int, s: St, fuel: nat)
    requires IsI64(lower) && IsI64(upper) && IsI64(step) && step != 0 && LoopFits(lower, upper, step)
    ensures Turns(sem, body, x, cell, lower, upper, step, s, fuel)
            == Manual(sem, body, x, cell, lower, step, 0, Count(lower, upper, step), s, fuel)
  {
    if step > 0 {
      TurnsUp(sem, body, x, cell, lower, upper, step, 0, s, fuel);
    } else {
      TurnsOnce(sem, body, x, cell, lower, upper, step, s, fuel);
    }
  }

  lemma {:induction false} TurnsUp(
      sem: Sem, body: seq<Op>, x: Name, cell: Loc, lower: int, upper: int, step: int, k: nat, s: St, fuel: nat)
    requires IsI64(lower) && IsI64(upper) && step > 0 && LoopFits(lower, upper, step) && k <= Count(lower, upper, step)
    ensures Turns(sem, body, x, cell, lower + k * step, upper, step, s, fuel)
            == Manual(sem, body, x, cell, lower, step, k, Count(lower, upper, step), s, fuel)
    decreases fuel
  {
    if fuel > 0 {
      NextFits(lower, upper, step, k);
      hide ExecOps, Enter, Wrap64, LoopFits, Count;
      if k < Count(lower, upper, step) {
        var o := ExecOps(sem, body, Enter(s, x, cell, lower + k * step), fuel);
        if o.Normal? {
          TurnsUp(sem, body, x, cell, lower, upper, step, k + 1, o.st, fuel - 1);
        }
      }
    }
  }

  /** A loop that counts down and fits runs once. */
  lemma TurnsOnce(sem: Sem, body: seq<Op>, x: Name, cell: Loc, lower: int, upper: int, step: int, s: St, fuel: nat)
    requires IsI64(lower) && IsI64(upper) && IsI64(step) && step < 0 && LoopFits(lower, upper, step)
    ensures Turns(sem, body, x, cell, lower, upper, step, s, fuel)
            == Manual(sem, body, x, cell, lower, step, 0, Count(lower, upper, step), s, fuel)
  {
    if fuel > 0 {
      OnlyTurn(lower, upper, step);
      hide ExecOps, Enter, Wrap64, LoopFits, Count;
      assert lower + 0 * step == lower;
      var o := ExecOps(sem, body, Enter(s, x, cell, lower), fuel);
      if o.Normal? {
        assert Turns(sem, body, x, cell, Wrap64(lower + step), upper, step, o.st, fuel - 1)
               == Manual(sem, body, x, cell, lower, step, 1, 1, o.st, fuel - 1);
      }
    }
  }

  lemma OnlyTurn(lower: int, upper: int, step: int)
    requires IsI64(lower) && IsI64(upper) && IsI64(step) && step < 0 && LoopFits(lower, upper, step)
    ensures Count(lower, upper, step) == 1 && lower == upper && Wrap64(lower + step) > upper
  {
    Wrap64Is(lower + step, lower + step + 0x1_0000_0000_0000_0000, -1);
  }

  lemma NextFits(lower: int, upper: int, step: int, k: nat)
    requires IsI64(lower) && IsI64(upper) && step > 0 && LoopFits(lower, upper, step) && k <= Count(lower, upper, step)
    ensures k < Count(lower, upper, step) <==> lower + k * step <= upper
    ensures k < Count(lower, upper, step) ==> Wrap64(lower + k * step + step) == lower + (k + 1) * step
  {
    var n := Count(lower, upper, step);
    if lower <= upper {
      CountBounds(lower, upper, step);
      if k < n {
        MulMono(k, n - 1, step);
        IndexBound(lower, upper, step, k);
        MulMono(0, k + 1, step);
        Wrap64Is(lower + (k + 1) * step, lower + (k + 1) * step, 0);
      }
    } else {
      assert k * step == 0;
    }
  }

  /** Cells that the manual's run leaves alone are left alone by the turns. */
  lemma SparedManual(
      sem: Sem, cells: set<Loc>, body: seq<Op>, x: Name, cell: Loc, lower: int, upper: int, step: int, s: St, fuel: nat)
    requires IsI64(lower) && IsI64(upper) && IsI64(step) && step != 0 && LoopFits(lower, upper, step)
    requires ManualSpares(sem, cells, body, x, cell, lower, step, 0, Count(lower, upper, step), s, fuel)
    ensures Spared(sem, cells, body, x, cell, lower, upper, step, s, fuel)
  {
    if step > 0 {
      SparedUp(sem, cells, body, x, cell, lower, upper, step, 0, s, fuel);
    } else if fuel > 0 {
      OnlyTurn(lower, upper, step);
      hide ExecOps, Enter, Wrap64, LoopFits, Count, Leaves;
      assert lower + 0 * step == lower;
    }
  }

  lemma {:induction false} SparedUp(
      sem: Sem, cells: set<Loc>, body: seq<Op>, x: Name, cell: Loc, lower: int, upper: int, step: int, k: nat, s: St,
      fuel: nat)
    requires IsI64(lower) && IsI64(upper) && step > 0 && LoopFits(lower, upper, step) && k <= Count(lower, upper, step)
    requires ManualSpares(sem, cells, body, x, cell, lower, step, k, Count(lower, upper, step), s, fuel)
    ensures Spared(sem, cells, body, x, cell, lower + k * step, upper, step, s, fuel)
    decreases fuel
  {
    if fuel > 0 {
      NextFits(lower, upper, step, k);
      hide ExecOps, Enter, Wrap64, LoopFits, Count, Leaves;
      if k < Count(lower, upper, step) {
        var o := ExecOps(sem, body, Enter(s, x, cell, lower + k * step), fuel);
        if o.Normal? {
          SparedUp(sem, cells, body, x, cell, lower, upper, step, k + 1, o.st, fuel - 1);
        }
      }
    }
  }

  /** The numeric `for` of the manual and the lowered one agree on every run, for every body, exactly
      when `LoopFits`; the other way round the empty body is enough to tell them apart. */
  lemma NumericForRuns(lower: int, upper: int, step: int)
    requires IsI64(lower) && IsI64(upper) && IsI64(step) && step != 0
    ensures LoopFits(lower, upper, step) <==>
            forall sem: Sem, body: seq<Op>, x: Name, cell: Loc, s: St, fuel: nat ::
              Turns(sem, body, x, cell, lower, upper, step, s, fuel)
              == Manual(sem, body, x, cell, lower, step, 0, Count(lower, upper, step), s, fuel)
  {
    if LoopFits(lower, upper, step) {
      forall sem: Sem, body: seq<Op>, x: Name, cell: Loc, s: St, fuel: nat
        ensures Turns(sem, body, x, cell, lower, upper, step, s, fuel)
                == Manual(sem, body, x, cell, lower, step, 0, Count(lower, upper, step), s, fuel)
      {
        TurnsManual(sem, body, x, cell, lower, upper, step, s, fuel);
      }
    } else {
      var sem := Sem((_, _, _) => Goes, (_, _, _, _) => 0, (_, _, w) => w);
      var s := St(map[], World([], []));
      var fuel := WrongTurns(lower, upper, step);
      EmptyTurns(sem, 0, 0, lower, upper, step, s, fuel);
      EmptyManual(sem, 0, 0, lower, step, 0, Count(lower, upper, step), s, fuel);
    }
  }

  /** The lowered loop ends within `fuel` tests, and the manual's does not, or the other way round. */
  lemma WrongTurns(lower: int, upper: int, step: int) returns (fuel: nat)
    requires IsI64(lower) && IsI64(upper) && IsI64(step) && step != 0 && !LoopFits(lower, upper, step)
    ensures Lowered(lower, upper, step, fuel).done <==> fuel <= Count(lower, upper, step)
  {
    var n := Count(lower, upper, step);
    if step > 0 {
      fuel := n + 1;
      NumericForOverflow(lower, upper, step);
      DoneShort(lower, upper, step, fuel);
    } else if lower > upper {
      fuel := 1;
      assert n >= 1 by {
        assert (lower - upper) / -step >= 0;
      }
    } else if lower < upper {
      fuel := 1;
      DoneShort(lower, upper, step, 1);
    } else {
      fuel := 2;
      Wrap64Is(lower + step, lower + step, 0);
      assert Lowered(lower + step, upper, step, 1).values == [lower + step];
      assert |Lowered(lower, upper, step, 2).values| == 2;
      DoneShort(lower, upper, step, 2);
    }
  }

  lemma {:induction false} DoneShort(i: int, upper: int, step: int, tests: nat)
    ensures Lowered(i, upper, step, tests).done ==> |Lowered(i, upper, step, tests).values| < tests
    decreases tests
  {
    if tests > 0 && i <= upper {
      DoneShort(Wrap64(i + step), upper, step, tests - 1);
    }
  }

  lemma {:induction false} EmptyTurns(sem: Sem, x: Name, cell: Loc, i: int, upper: int, step: int, s: St, fuel: nat)
    ensures Turns(sem, [], x, cell, i, upper, step, s, fuel).Normal? <==> Lowered(i, upper, step, fuel).done
    decreases fuel
  {
    if fuel > 0 && i <= upper {
      EmptyTurns(sem, x, cell, Wrap64(i + step), upper, step, Enter(s, x, cell, i), fuel - 1);
    }
  }

  lemma {:induction false} EmptyManual(sem: Sem, x: Name, cell: Loc, lower: int, step: int, k: nat, n: nat, s: St,
      fuel: nat)
    requires k <= n
    ensures Manual(sem, [], x, cell, lower, step, k, n, s, fuel).Normal? <==> fuel > n - k
    decreases fuel
  {
    if fuel > 0 && k < n {
      EmptyManual(sem, x, cell, lower, step, k + 1, n, Enter(s, x, cell, lower + k * step), fuel - 1);
    }
  }

  /** Where the value after the last one fits: the ops that the pattern builds do what the manual's loop
      does, on every state and for every amount of fuel on which the manual's run of the body leaves the
      loop's cell and the limit's alone. */
  lemma NumericForCorrect(sem: Sem, l: Loop, slot: nat -> Loc, u: Loc, lower: int, upper: int, step: int, s: St,
      fuel: nat)
    requires Proper(sem, l, slot, u) && Given(l, slot, u, lower, upper, step, s)
    requires IsI64(lower) && IsI64(upper) && IsI64(step) && step != 0 && LoopFits(lower, upper, step)
    requires ManualSpares(sem, {slot(l.k + 2), u}, l.body, l.x, slot(l.k + 2), lower, step, 0,
                          Count(lower, upper, step), s, fuel)
    ensures EndSame(Gone(l, slot),
                    Manual(sem, l.body, l.x, slot(l.k + 2), lower, step, 0, Count(lower, upper, step), s, fuel),
                    ExecOps(sem, LoweredOps(l), s, fuel))
  {
    hide *;
    SparedManual(sem, {slot(l.k + 2), u}, l.body, l.x, slot(l.k + 2), lower, upper, step, s, fuel);
    LoweredRuns(sem, l, slot, u, lower, upper, step, s, fuel);
    TurnsManual(sem, l.body, l.x, slot(l.k + 2), lower, upper, step, s, fuel);
  }
}
