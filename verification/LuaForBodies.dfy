/** Bodies of the numeric `for`: which ones leave the loop alone, one that sums, and two that write the
    loop's cells. */
module LuaForBodies {
  import opened LuaIr
  import opened LuaClone
  import opened LuaCells
  import opened LuaUntouched
  import opened LuaLoops
  import opened LuaNumericFor

  // ----- A check on the body

  /** A body that writes through neither name is all right, whatever else it assigns, if no other name
      leads to the two cells. */
  lemma {:induction false} MildSpares(sem: Sem, a: Added, body: seq<Op>, x: Name, cell: Loc, lower: int, step: int,
      k: nat, n: nat, s: St, fuel: nat)
    requires k <= n && Mild(sem, a, body) && x in a.names && cell in a.cells && Outside(a, s.env) && There(a, s.w)
    ensures ManualSpares(sem, a.cells, body, x, cell, lower, step, k, n, s, fuel)
    decreases fuel
  {
    if fuel > 0 && k < n {
      var s0 := Enter(s, x, cell, lower + k * step);
      MildLeaves(sem, a, body, s0, fuel);
      var o := ExecOps(sem, body, s0, fuel);
      if o.Normal? {
        MildSpares(sem, a, body, x, cell, lower, step, k + 1, n, o.st, fuel - 1);
      }
    }
  }

  function Own(l: Loop, cell: Loc, u: Loc): Added { Added({l.x, l.upper}, {cell, u}) }

  /** Where a check on the code and on the names at the start is enough. */
  lemma MildForCorrect(sem: Sem, l: Loop, slot: nat -> Loc, u: Loc, lower: int, upper: int, step: int, s: St,
      fuel: nat)
    requires Proper(sem, l, slot, u) && Given(l, slot, u, lower, upper, step, s)
    requires IsI64(lower) && IsI64(upper) && IsI64(step) && step != 0 && LoopFits(lower, upper, step)
    requires Mild(sem, Own(l, slot(l.k + 2), u), l.body) && Outside(Own(l, slot(l.k + 2), u), s.env)
    ensures EndSame(Gone(l, slot),
                    Manual(sem, l.body, l.x, slot(l.k + 2), lower, step, 0, Count(lower, upper, step), s, fuel),
                    ExecOps(sem, LoweredOps(l), s, fuel))
  {
    var a, n := Own(l, slot(l.k + 2), u), Count(lower, upper, step);
    OwnThere(l, slot, u, upper, s);
    hide *;
    MildSpares(sem, a, l.body, l.x, slot(l.k + 2), lower, step, 0, n, s, fuel);
    NumericForCorrect(sem, l, slot, u, lower, upper, step, s, fuel);
  }

  lemma OwnThere(l: Loop, slot: nat -> Loc, u: Loc, upper: int, s: St)
    requires Slots(l.k, slot, s.w) && LimitIs(l, u, upper, s)
    ensures There(Own(l, slot(l.k + 2), u), s.w)
    ensures l.x in Own(l, slot(l.k + 2), u).names && slot(l.k + 2) in Own(l, slot(l.k + 2), u).cells
  {
  }

  // ----- A body that assigns a variable from outside: `s = s + i`

  /** The sum of two values, in a new cell. */
  ghost predicate Adds(sem: Sem, kind: nat) {
    forall locs, w ::
      && sem.ending(kind, locs, w) == Goes && (forall i: nat :: sem.result(kind, locs, w, i) == |w.heap| + i)
      && sem.effect(kind, locs, w)
         == w.(heap := w.heap + [Num(Wrap64(Payload(w, Arg(locs, 0)) + Payload(w, Arg(locs, 1))))])
  }

  /** `lua.copy`. */
  ghost predicate Assigns(sem: Sem, kind: nat) {
    forall locs, w ::
      && sem.ending(kind, locs, w) == Goes && (forall i: nat :: sem.result(kind, locs, w, i) == |w.heap| + i)
      && sem.effect(kind, locs, w)
         == Put(w, Arg(locs, 0), Read(w, Arg(locs, 1)))
  }

  function SumBody(add: nat, copy: nat, y: Name, v: Name, x: Name): seq<Op> {
    [Prim(add, [v], [y, x]), Prim(copy, [], [y, v])]
  }

  lemma AddMild(sem: Sem, a: Added, add: nat, y: Name, v: Name, x: Name)
    requires Adds(sem, add)
    ensures MildOp(sem, a, Prim(add, [v], [y, x]))
  {
    AddElsewhere(sem, a, add);
    assert Quiet(sem, a.cells, add) by {
      forall locs, w
        ensures Kept(a.cells, w, sem.effect(add, locs, w))
      {
        assert sem.effect(add, locs, w).heap[..|w.heap|] == w.heap;
      }
    }
  }

  lemma AddElsewhere(sem: Sem, a: Added, add: nat)
    requires Adds(sem, add)
    ensures Elsewhere(sem, a, add)
  {
    forall locs, w, i: nat | There(a, w)
      ensures sem.result(add, locs, w, i) !in a.cells
    {
      assert sem.ending(add, locs, w) == Goes;
      assert sem.result(add, locs, w, i) == |w.heap| + i;
    }
  }

  lemma AssignMild(sem: Sem, a: Added, copy: nat, y: Name, v: Name)
    requires Assigns(sem, copy) && y !in a.names
    ensures MildOp(sem, a, Prim(copy, [], [y, v]))
  {
    assert [y, v][0] == y;
    assert WritesFirst(sem, a.cells, copy) by {
      forall locs, w | Arg(locs, 0) !in a.cells
        ensures Kept(a.cells, w, sem.effect(copy, locs, w))
      {
        assert sem.effect(copy, locs, w) == Put(w, Arg(locs, 0), Read(w, Arg(locs, 1)));
      }
    }
  }

  lemma SumMild(sem: Sem, a: Added, add: nat, copy: nat, y: Name, v: Name, x: Name)
    requires Adds(sem, add) && Assigns(sem, copy) && y !in a.names
    ensures Mild(sem, a, SumBody(add, copy, y, v, x))
  {
    hide Adds, Assigns, MildOp;
    var body := SumBody(add, copy, y, v, x);
    AddMild(sem, a, add, y, v, x);
    AssignMild(sem, a, copy, y, v);
    assert body[1..] == [Prim(copy, [], [y, v])];
    assert Mild(sem, a, body[1..]);
  }

  lemma AddApart(sem: Sem, a: Added, add: nat, locs: seq<Loc>, w: World, w': World)
    requires Adds(sem, add) && WorldSame(a, w, w') && There(a, w) && Avoids(a, locs) && 0 !in a.cells
    ensures StepsApart(sem, a, add, locs, w, w')
  {
    assert Payload(w, Arg(locs, 0)) == Payload(w', Arg(locs, 0));
    assert Payload(w, Arg(locs, 1)) == Payload(w', Arg(locs, 1));
  }

  lemma AssignApart(sem: Sem, a: Added, copy: nat, locs: seq<Loc>, w: World, w': World)
    requires Assigns(sem, copy) && WorldSame(a, w, w') && There(a, w) && Avoids(a, locs) && 0 !in a.cells
    ensures StepsApart(sem, a, copy, locs, w, w')
  {
    assert Read(w, Arg(locs, 1)) == Read(w', Arg(locs, 1));
  }

  /** The body knows nothing of the loop's other values. */
  lemma SumApart(sem: Sem, a: Added, add: nat, copy: nat)
    requires Adds(sem, add) && Assigns(sem, copy) && 0 !in a.cells
    ensures Apart(sem, {add, copy}, a)
  {
    hide Adds, Assigns, StepsApart, WorldSame, There, Avoids;
    forall kind, locs, w, w' | kind in {add, copy} && WorldSame(a, w, w') && There(a, w) && Avoids(a, locs)
      ensures StepsApart(sem, a, kind, locs, w, w')
    {
      if kind == add {
        AddApart(sem, a, add, locs, w, w');
      } else {
        AssignApart(sem, a, copy, locs, w, w');
      }
    }
  }

  lemma SumParts(add: nat, copy: nat, y: Name, v: Name, x: Name)
    ensures var body := SumBody(add, copy, y, v, x);
            OpsKinds(body) == {add, copy} && OpsNames(body) == {y, v, x} && OpsDefs(body) == {v}
  {
    var p, q := Prim(add, [v], [y, x]), Prim(copy, [], [y, v]);
    assert [p, q][1..] == [q] && [q][1..] == [];
    assert OpsKinds([q]) == {copy} && OpsNames([q]) == {y, v} && OpsDefs([q]) == {} by {
      assert OpsKinds([]) == {} && OpsNames([]) == {} && OpsDefs([]) == {};
    }
    assert OpKinds(p) == {add} && OpNames(p) == {y, v, x} && OpDefs(p) == {v};
  }

  // ----- What the sum comes to

  /** The sum of the first `n` values. */
  function Total(lower: int, step: int, n: nat): int
    decreases n
  {
    if n == 0 then 0 else Total(lower, step, n - 1) + lower + (n - 1) * step
  }

  /** The variable's cell is none of the loop's. */
  predicate Sums(s: St, y: Name, c: Loc, p: int) { Get(s.env, y) == c && c < |s.w.heap| && Payload(s.w, c) == p }

  function Sum(w: World, a: Loc, b: Loc): Val { Num(Wrap64(Payload(w, a) + Payload(w, b))) }

  lemma AddStep(sem: Sem, add: nat, y: Name, v: Name, x: Name, rest: seq<Op>, s: St, f: nat)
    requires Adds(sem, add)
    ensures ExecOps(sem, [Prim(add, [v], [y, x])] + rest, s, f)
            == ExecOps(sem, rest, St(s.env[v := |s.w.heap|],
                 s.w.(heap := s.w.heap + [Sum(s.w, Get(s.env, y), Get(s.env, x))])), f)
  {
    var locs, all := Locs(s.env, [y, x]), [Prim(add, [v], [y, x])] + rest;
    assert all[1..] == rest && [v][..0] == [];
    assert locs == [Get(s.env, y), Get(s.env, x)];
    assert sem.ending(add, locs, s.w) == Goes;
    assert sem.result(add, locs, s.w, 0) == |s.w.heap| + 0;
    assert Bind(s.env, [v], j => sem.result(add, locs, s.w, j)) == s.env[v := |s.w.heap|];
  }

  lemma AssignStep(sem: Sem, copy: nat, y: Name, v: Name, s: St, f: nat)
    requires Assigns(sem, copy)
    ensures ExecOps(sem, [Prim(copy, [], [y, v])], s, f)
            == Normal(St(s.env, Put(s.w, Get(s.env, y), Read(s.w, Get(s.env, v)))))
  {
    var locs := Locs(s.env, [y, v]);
    assert [Prim(copy, [], [y, v])][1..] == [];
    assert locs == [Get(s.env, y), Get(s.env, v)];
    assert sem.effect(copy, locs, s.w) == Put(s.w, Arg(locs, 0), Read(s.w, Arg(locs, 1)));
  }

  lemma SumTurn(sem: Sem, add: nat, copy: nat, y: Name, v: Name, x: Name, c: Loc, cell: Loc, p: int, i: int, s: St,
      f: nat)
    requires Adds(sem, add) && Assigns(sem, copy) && Sums(s, y, c, p) && v != y && x != y
    requires cell < |s.w.heap| && c != cell
    ensures var o := ExecOps(sem, SumBody(add, copy, y, v, x), Enter(s, x, cell, i), f);
            o.Normal? && Sums(o.st, y, c, Wrap64(p + i)) && cell < |o.st.w.heap|
  {
    hide Adds, Assigns, ExecOps, Wrap64;
    var s0 := Enter(s, x, cell, i);
    AddStep(sem, add, y, v, x, [Prim(copy, [], [y, v])], s0, f);
    assert Sum(s0.w, c, cell) == Num(Wrap64(p + i));
    var s1 := St(s0.env[v := |s0.w.heap|], s0.w.(heap := s0.w.heap + [Num(Wrap64(p + i))]));
    AssignStep(sem, copy, y, v, s1, f);
    assert SumBody(add, copy, y, v, x) == [Prim(add, [v], [y, x])] + [Prim(copy, [], [y, v])];
  }

  lemma WrapAgain(a: int, b: int)
    ensures Wrap64(Wrap64(a) + b) == Wrap64(a + b)
  {
    var m := (a - MIN) / 0x1_0000_0000_0000_0000;
    Wrap64Is(a, Wrap64(a), m);
    var n := (a + b - MIN) / 0x1_0000_0000_0000_0000;
    Wrap64Is(Wrap64(a) + b, Wrap64(a + b), n - m);
  }

  /** The manual's loop adds up the values. */
  lemma {:induction false} SumManual(sem: Sem, add: nat, copy: nat, y: Name, v: Name, x: Name, c: Loc, cell: Loc,
      p: int, lower: int, step: int, k: nat, n: nat, s: St, fuel: nat)
    requires Adds(sem, add) && Assigns(sem, copy) && v != y && x != y && cell < |s.w.heap| && c != cell
    requires k <= n && fuel > n - k && Sums(s, y, c, Wrap64(p + Total(lower, step, k)))
    ensures var o := Manual(sem, SumBody(add, copy, y, v, x), x, cell, lower, step, k, n, s, fuel);
            o.Normal? && Sums(o.st, y, c, Wrap64(p + Total(lower, step, n)))
    decreases fuel
  {
    hide Adds, Assigns, ExecOps, Wrap64;
    if k < n {
      var i, q := lower + k * step, p + Total(lower, step, k);
      SumTurn(sem, add, copy, y, v, x, c, cell, Wrap64(q), i, s, fuel);
      WrapAgain(q, i);
      assert Total(lower, step, k + 1) == Total(lower, step, k) + i;
      var o := ExecOps(sem, SumBody(add, copy, y, v, x), Enter(s, x, cell, i), fuel);
      SumManual(sem, add, copy, y, v, x, c, cell, p, lower, step, k + 1, n, o.st, fuel - 1);
    }
  }

  lemma SumProper(sem: Sem, l: Loop, slot: nat -> Loc, u: Loc, add: nat, copy: nat, y: Name, v: Name)
    requires Adds(sem, add) && Assigns(sem, copy) && l.body == SumBody(add, copy, y, v, l.x)
    requires Machine(sem, l.k, slot) && {y, v, l.x, l.upper} !! Names(l) && l.upper != l.x && v !in {l.x, l.upper}
    requires {0, u} !! Gone(l, slot).cells
    ensures Proper(sem, l, slot, u)
  {
    hide Adds, Assigns, Machine;
    var a := Extra(l, slot);
    SumApart(sem, a, add, copy);
    SumParts(add, copy, y, v, l.x);
    assert slot(l.k + 2) in Gone(l, slot).cells && a.cells <= Gone(l, slot).cells;
  }

  lemma SumStart(l: Loop, slot: nat -> Loc, u: Loc, lower: int, upper: int, step: int, y: Name, c: Loc, p: int,
      s: St)
    requires Given(l, slot, u, lower, upper, step, s) && Outside(Own(l, slot(l.k + 2), u), s.env)
             && y !in {l.x, l.upper}
    requires Sums(s, y, c, p) && IsI64(p)
    ensures y !in Own(l, slot(l.k + 2), u).names
    ensures slot(l.k + 2) < |s.w.heap| && c != slot(l.k + 2) && Sums(s, y, c, Wrap64(p + Total(lower, step, 0)))
  {
    Wrap64Is(p, p, 0);
    assert Get(s.env, y) !in Own(l, slot(l.k + 2), u).cells;
  }

  lemma SumEnd(l: Loop, slot: nat -> Loc, y: Name, c: Loc, p: int, m: St, o: Out)
    requires Sums(m, y, c, p) && EndSame(Gone(l, slot), Normal(m), o)
    requires y !in Names(l) && y != l.x && c !in Gone(l, slot).cells
    ensures o.Normal? && Sums(o.st, y, c, p)
  {
  }

  /** `for i = lower, upper, step do s = s + i end`, run as the ops that the pattern builds, leaves in the
      variable what it held and the sum of the manual's values, wrapped to 64 bits. */
  lemma SumLoop(sem: Sem, l: Loop, slot: nat -> Loc, u: Loc, lower: int, upper: int, step: int, add: nat, copy: nat,
      y: Name, v: Name, c: Loc, p: int, s: St, fuel: nat)
    requires Adds(sem, add) && Assigns(sem, copy) && l.body == SumBody(add, copy, y, v, l.x)
    requires Machine(sem, l.k, slot) && {y, v, l.x, l.upper} !! Names(l) && l.upper != l.x
    requires Given(l, slot, u, lower, upper, step, s) && Outside(Own(l, slot(l.k + 2), u), s.env)
    requires y !in {v, l.x, l.upper} && v !in {l.x, l.upper} && {0, u, c} !! Gone(l, slot).cells
    requires Sums(s, y, c, p) && IsI64(p)
    requires IsI64(lower) && IsI64(upper) && IsI64(step) && step != 0 && LoopFits(lower, upper, step)
    requires fuel > Count(lower, upper, step)
    ensures var o := ExecOps(sem, LoweredOps(l), s, fuel);
            o.Normal? && Sums(o.st, y, c, Wrap64(p + Total(lower, step, Count(lower, upper, step))))
  {
    hide *;
    SumProper(sem, l, slot, u, add, copy, y, v);
    SumStart(l, slot, u, lower, upper, step, y, c, p, s);
    SumMild(sem, Own(l, slot(l.k + 2), u), add, copy, y, v, l.x);
    MildForCorrect(sem, l, slot, u, lower, upper, step, s, fuel);
    SumManual(sem, add, copy, y, v, l.x, c, slot(l.k + 2), p, lower, step, 0, Count(lower, upper, step), s, fuel);
    var m := Manual(sem, l.body, l.x, slot(l.k + 2), lower, step, 0, Count(lower, upper, step), s, fuel);
    SumEnd(l, slot, y, c, Wrap64(p + Total(lower, step, Count(lower, upper, step))), m.st,
      ExecOps(sem, LoweredOps(l), s, fuel));
  }

  // ----- Bodies that write the two cells: `n = z` and `i = z`

  function SetBody(copy: nat, y: Name, z: Name): seq<Op> { [Prim(copy, [], [y, z])] }

  /** A variable from outside the loop with the number `v` in it. */
  predicate Outer(l: Loop, slot: nat -> Loc, z: Name, c: Loc, v: int, s: St) {
    && z !in Names(l) && z != l.x && c !in Gone(l, slot).cells
    && Get(s.env, z) == c && c < |s.w.heap| && s.w.heap[c] == Num(v)
  }

  lemma OuterSame(l: Loop, slot: nat -> Loc, z: Name, c: Loc, v: int, i: int, m: St, s: St)
    requires Outer(l, slot, z, c, v, m) && Same(Extra(l, slot), Enter(m, l.x, slot(l.k + 2), i), s)
    ensures Get(s.env, z) == c && Read(s.w, c) == Num(v)
  {
    assert c !in Extra(l, slot).cells && c != slot(l.k + 2);
  }

  /** What the assignment leaves behind. */
  lemma LimitSet(l: Loop, slot: nat -> Loc, u: Loc, i: int, upper: int, step: int, v: int, s: St)
    requires AtHead(l, slot, i, step, s) && LimitIs(l, u, upper, s) && u !in Temps(l.k, slot) && u != slot(l.k + 2)
    ensures var s1 := St(s.env, Put(s.w, u, Num(v))); AtHead(l, slot, i, step, s1) && LimitIs(l, u, v, s1)
  {
    assert slot(l.k) in Temps(l.k, slot);
  }

  lemma VariableSet(l: Loop, slot: nat -> Loc, u: Loc, i: int, upper: int, step: int, v: int, s: St)
    requires AtHead(l, slot, i, step, s) && LimitIs(l, u, upper, s) && u !in Temps(l.k, slot) && u != slot(l.k + 2)
    ensures var s1 := St(s.env, Put(s.w, slot(l.k + 2), Num(v)));
            AtHead(l, slot, v, step, s1) && LimitIs(l, u, upper, s1)
  {
    CellApart(l, slot, s.w);
    assert slot(l.k) in Temps(l.k, slot);
  }

  lemma LimitNamed(l: Loop, slot: nat -> Loc, u: Loc, upper: int, s: St, s1: St)
    requires LimitIs(l, u, upper, s) && EnvSame(Extra(l, slot), s.env, s1.env) && l.upper !in Names(l)
    requires Payload(s1.w, u) == upper && |s.w.heap| == |s1.w.heap|
    ensures LimitIs(l, u, upper, s1)
  {
  }

  /** The body, the tail of the turn, and the turns after it. */
  function FromBody(sem: Sem, l: Loop, s: St, fuel: nat): Out
    requires fuel > 0
  {
    match ExecOps(sem, l.body, s, fuel)
    case Normal(s1) =>
      (match ExecOps(sem, Tail(l), s1, fuel) case Normal(s2) => ExecOp(sem, While(l), s2, fuel - 1) case o => o)
    case o => o
  }

  /** The state in which the first turn runs the body. */
  lemma FirstTurn(sem: Sem, l: Loop, slot: nat -> Loc, u: Loc, lower: int, upper: int, step: int, s: St, fuel: nat)
      returns (s1: St)
    requires Proper(sem, l, slot, u) && Given(l, slot, u, lower, upper, step, s) && lower <= upper && fuel > 0
    ensures HeadRel(l, slot, u, lower, upper, step, s, s1)
    ensures ExecOps(sem, LoweredOps(l), s, fuel) == FromBody(sem, l, s1, fuel)
  {
    hide Proper, Given, HeadRel, Turns, Tail, Eval, LoweredOps, Machine;
    var s0 := InitRuns(sem, l, slot, u, lower, upper, step, s, fuel);
    s1 := EvalRuns(sem, l, slot, u, lower, upper, step, s, s0, fuel);
    WhileTurn(sem, l, s0, fuel, s1);
    BodyTail(sem, l, s1, fuel);
  }

  // ----- Exactly when `n = z` makes no difference

  /** The limit has been set: `z` and the limit both hold `v`. */
  predicate LimitHolds(l: Loop, slot: nat -> Loc, u: Loc, z: Name, c: Loc, v: int, s: St) {
    Outer(l, slot, z, c, v, s) && Get(s.env, l.upper) == u && u < |s.w.heap| && s.w.heap[u] == Num(v)
  }

  lemma SetAgain(l: Loop, slot: nat -> Loc, u: Loc, z: Name, c: Loc, v: int, i: int, s: St)
    requires LimitHolds(l, slot, u, z, c, v, s) && l.upper != l.x && u != slot(l.k + 2)
    ensures var s0 := Enter(s, l.x, slot(l.k + 2), i);
            && Put(s0.w, Get(s0.env, l.upper), Read(s0.w, Get(s0.env, z))) == s0.w
            && LimitHolds(l, slot, u, z, c, v, s0)
  {
    assert slot(l.k + 2) in Gone(l, slot).cells;
    var w := Enter(s, l.x, slot(l.k + 2), i).w;
    assert w.heap[u := w.heap[u]] == w.heap;
  }

  /** From then on the assignment changes nothing. */
  lemma {:induction false} SetSpared(sem: Sem, l: Loop, slot: nat -> Loc, u: Loc, copy: nat, z: Name, c: Loc, v: int,
      i: int, step: int, s: St, fuel: nat)
    requires Assigns(sem, copy) && l.body == SetBody(copy, l.upper, z) && l.upper != l.x && u != slot(l.k + 2)
    requires LimitHolds(l, slot, u, z, c, v, s)
    ensures Spared(sem, {slot(l.k + 2), u}, l.body, l.x, slot(l.k + 2), i, v, step, s, fuel)
    ensures Turns(sem, l.body, l.x, slot(l.k + 2), i, v, step, s, fuel).Normal? <==> Lowered(i, v, step, fuel).done
    decreases fuel
  {
    hide Assigns, ExecOps, Wrap64, LimitHolds;
    if fuel > 0 && i <= v {
      var s0 := Enter(s, l.x, slot(l.k + 2), i);
      SetAgain(l, slot, u, z, c, v, i, s);
      AssignStep(sem, copy, l.upper, z, s0, fuel);
      SetSpared(sem, l, slot, u, copy, z, c, v, Wrap64(i + step), step, s0, fuel - 1);
    }
  }

  lemma {:induction false} SetManual(sem: Sem, copy: nat, y: Name, z: Name, x: Name, cell: Loc, lower: int, step: int,
      k: nat, n: nat, s: St, fuel: nat)
    requires Assigns(sem, copy) && k <= n
    ensures Manual(sem, SetBody(copy, y, z), x, cell, lower, step, k, n, s, fuel).Normal? <==> fuel > n - k
    decreases fuel
  {
    hide Assigns, ExecOps;
    if fuel > 0 && k < n {
      var s0 := Enter(s, x, cell, lower + k * step);
      AssignStep(sem, copy, y, z, s0, fuel);
      SetManual(sem, copy, y, z, x, cell, lower, step, k + 1, n, ExecOps(sem, SetBody(copy, y, z), s0, fuel).st,
        fuel - 1);
    }
  }

  /** The first turn of both loops, and the limit that it leaves. */
  lemma AfterFirst(sem: Sem, l: Loop, slot: nat -> Loc, u: Loc, lower: int, upper: int, step: int, copy: nat, z: Name,
      c: Loc, v: int, s: St, fuel: nat) returns (m: St, s3: St)
    requires Assigns(sem, copy) && l.body == SetBody(copy, l.upper, z) && fuel > 0 && lower <= upper
    requires Proper(sem, l, slot, u) && Given(l, slot, u, lower, upper, step, s) && Outer(l, slot, z, c, v, s)
    ensures LimitHolds(l, slot, u, z, c, v, m) && HeadRel(l, slot, u, Wrap64(lower + step), v, step, m, s3)
    ensures ExecOps(sem, LoweredOps(l), s, fuel) == ExecOp(sem, While(l), s3, fuel - 1)
  {
    hide Assigns, ExecOps, Machine, Foreign, AtHead, LoweredOps, Tail, While, ExecOp, Wrap64, Slots;
    var s1 := FirstTurn(sem, l, slot, u, lower, upper, step, s, fuel);
    OuterSame(l, slot, z, c, v, lower, s, s1);
    AssignStep(sem, copy, l.upper, z, s1, fuel);
    LimitSet(l, slot, u, lower, upper, step, v, s1);
    var s2 := St(s1.env, Put(s1.w, u, Num(v)));
    var m0 := Enter(s, l.x, slot(l.k + 2), lower);
    m := St(m0.env, Put(m0.w, u, Num(v)));
    PutSame(Extra(l, slot), m0.w, s1.w, u, Num(v));
    LimitStored(l, slot, u, z, c, v, lower, upper, s);
    NextHead(sem, l, slot, u, lower, v, step, m, s2, fuel);
    s3 := ExecOps(sem, Tail(l), s2, fuel).st;
  }

  lemma LimitStored(l: Loop, slot: nat -> Loc, u: Loc, z: Name, c: Loc, v: int, i: int, upper: int, s: St)
    requires Outer(l, slot, z, c, v, s) && LimitIs(l, u, upper, s) && l.upper != l.x && u != slot(l.k + 2)
    ensures var m0 := Enter(s, l.x, slot(l.k + 2), i); LimitHolds(l, slot, u, z, c, v, St(m0.env, Put(m0.w, u, Num(v))))
  {
    assert slot(l.k + 2) in Gone(l, slot).cells;
  }

  lemma DoneWhen(lower: int, upper: int, step: int, tests: nat)
    requires IsI64(lower) && IsI64(upper) && step > 0 && LoopFits(lower, upper, step)
    ensures Lowered(lower, upper, step, tests).done <==> tests > Count(lower, upper, step)
  {
    var n := Count(lower, upper, step);
    if tests > n {
      NumericForUpward(lower, upper, step, tests);
    } else if Lowered(lower, upper, step, tests).done {
      NumericForUpward(lower, upper, step, n + 1);
      ValuesSize(lower, step, n);
      DoneEarly(lower, upper, step, tests, n + 1);
      DoneShort(lower, upper, step, tests);
      assert false;
    }
  }

  /** A loop that has ended has seen all its values. */
  lemma {:induction false} DoneEarly(i: int, upper: int, step: int, tests: nat, more: nat)
    requires tests <= more && Lowered(i, upper, step, tests).done
    ensures Lowered(i, upper, step, more) == Lowered(i, upper, step, tests)
    decreases tests
  {
    if tests > 0 && i <= upper {
      DoneEarly(Wrap64(i + step), upper, step, tests - 1, more - 1);
    }
  }

  /** `for x = lower, n, step do n = z end` ends with the manual's loop exactly when the new limit allows for
      as many further turns as the old one. */
  lemma LimitAssignedExact(sem: Sem, l: Loop, slot: nat -> Loc, u: Loc, lower: int, upper: int, step: int, copy: nat,
      z: Name, c: Loc, v: int, s: St)
    requires Assigns(sem, copy) && l.body == SetBody(copy, l.upper, z)
    requires Proper(sem, l, slot, u) && Given(l, slot, u, lower, upper, step, s) && Outer(l, slot, z, c, v, s)
    requires IsI64(lower) && IsI64(upper) && IsI64(v) && step > 0 && lower <= upper && lower + step <= MAX
    requires LoopFits(lower, upper, step) && LoopFits(lower + step, v, step)
    ensures (forall fuel: nat ::
               ExecOps(sem, LoweredOps(l), s, fuel).Normal?
               <==> Manual(sem, l.body, l.x, slot(l.k + 2), lower, step, 0, Count(lower, upper, step), s, fuel).Normal?)
            <==> Count(lower, upper, step) == 1 + Count(lower + step, v, step)
  {
    hide Assigns, ExecOps, Manual, LoweredOps, LoopFits, Count, Proper, Given, Outer;
    var n, k := Count(lower, upper, step), 1 + Count(lower + step, v, step);
    forall fuel: nat
      ensures ExecOps(sem, LoweredOps(l), s, fuel).Normal? <==> fuel > k
      ensures Manual(sem, l.body, l.x, slot(l.k + 2), lower, step, 0, n, s, fuel).Normal? <==> fuel > n
    {
      LimitAssignedRuns(sem, l, slot, u, lower, upper, step, copy, z, c, v, s, fuel);
      SetManual(sem, copy, l.upper, z, l.x, slot(l.k + 2), lower, step, 0, n, s, fuel);
    }
    var both := if n < k then k else n;
    assert (ExecOps(sem, LoweredOps(l), s, both).Normal?
            <==> Manual(sem, l.body, l.x, slot(l.k + 2), lower, step, 0, n, s, both).Normal?) <==> n == k;
  }

  lemma LimitAssignedRuns(sem: Sem, l: Loop, slot: nat -> Loc, u: Loc, lower: int, upper: int, step: int, copy: nat,
      z: Name, c: Loc, v: int, s: St, fuel: nat)
    requires Assigns(sem, copy) && l.body == SetBody(copy, l.upper, z)
    requires Proper(sem, l, slot, u) && Given(l, slot, u, lower, upper, step, s) && Outer(l, slot, z, c, v, s)
    requires IsI64(lower) && IsI64(upper) && IsI64(v) && step > 0 && lower <= upper && lower + step <= MAX
    requires LoopFits(lower + step, v, step)
    ensures ExecOps(sem, LoweredOps(l), s, fuel).Normal? <==> fuel > 1 + Count(lower + step, v, step)
  {
    hide Assigns, LoopFits, Count, Given, Outer, HeadRel, LimitHolds, Turns, Spared, Machine, Foreign, Lowered;
    if fuel > 0 {
      var m, s3 := AfterFirst(sem, l, slot, u, lower, upper, step, copy, z, c, v, s, fuel);
      Wrap64Is(lower + step, lower + step, 0);
      SetSpared(sem, l, slot, u, copy, z, c, v, lower + step, step, m, fuel - 1);
      LoopRuns(sem, l, slot, u, lower + step, v, step, m, s3, fuel - 1);
      DoneWhen(lower + step, v, step, fuel - 1);
    } else {
      NoFuel(sem, l, slot, u, lower, upper, step, s);
    }
  }

  lemma NoFuel(sem: Sem, l: Loop, slot: nat -> Loc, u: Loc, lower: int, upper: int, step: int, s: St)
    requires Proper(sem, l, slot, u) && Given(l, slot, u, lower, upper, step, s)
    ensures !ExecOps(sem, LoweredOps(l), s, 0).Normal?
  {
    hide LoweredOps, Given;
    var s0 := InitRuns(sem, l, slot, u, lower, upper, step, s, 0);
  }

  /** The lowered loop reads the variable that its limit came from in every turn, and the manual once:
      after `n = z`, with a value in `z` below the next one, it ends while the manual's goes on. */
  lemma LimitAssigned(sem: Sem, l: Loop, slot: nat -> Loc, u: Loc, lower: int, upper: int, step: int, copy: nat,
      z: Name, c: Loc, v: int, s: St)
    requires Assigns(sem, copy) && l.body == SetBody(copy, l.upper, z)
    requires Proper(sem, l, slot, u) && Given(l, slot, u, lower, upper, step, s) && Outer(l, slot, z, c, v, s)
    requires IsI64(lower) && IsI64(upper) && IsI64(v) && step > 0 && lower + step <= upper && v < lower + step
    ensures ExecOps(sem, LoweredOps(l), s, 2).Normal?
    ensures !Manual(sem, l.body, l.x, slot(l.k + 2), lower, step, 0, Count(lower, upper, step), s, 2).Normal?
  {
    hide Assigns, ExecOps, Manual, LoweredOps, Proper, Given, Outer;
    CountBounds(lower, upper, step);
    LimitAssignedRuns(sem, l, slot, u, lower, upper, step, copy, z, c, v, s, 2);
    SetManual(sem, copy, l.upper, z, l.x, slot(l.k + 2), lower, step, 0, Count(lower, upper, step), s, 2);
  }

  // ----- Exactly when `i = z` makes no difference

  /** Writing the cells that belong to the loop leaves it alone. */
  lemma OuterStays(l: Loop, slot: nat -> Loc, z: Name, c: Loc, v: int, s: St, x: Val, s1: St)
    requires Outer(l, slot, z, c, v, s) && EnvSame(Extra(l, slot), s.env, s1.env)
    requires WorldSame(Extra(l, slot), s.w, s1.w) || WorldSame(Extra(l, slot), Put(s.w, slot(l.k + 2), x), s1.w)
    ensures Outer(l, slot, z, c, v, s1)
  {
    assert slot(l.k + 2) in Gone(l, slot).cells && Extra(l, slot).cells <= Gone(l, slot).cells;
  }

  /** From one test of the condition to the next. */
  lemma AssignTurn(sem: Sem, l: Loop, slot: nat -> Loc, u: Loc, i: int, upper: int, step: int, copy: nat, z: Name,
      c: Loc, v: int, s: St, fuel: nat) returns (s3: St)
    requires Assigns(sem, copy) && l.body == SetBody(copy, l.x, z) && Proper(sem, l, slot, u) && fuel > 0
    requires AtHead(l, slot, i, step, s) && LimitIs(l, u, upper, s) && Outer(l, slot, z, c, v, s) && i <= upper
    ensures AtHead(l, slot, Wrap64(v + step), step, s3) && LimitIs(l, u, upper, s3) && Outer(l, slot, z, c, v, s3)
    ensures ExecOp(sem, While(l), s, fuel) == ExecOp(sem, While(l), s3, fuel - 1)
  {
    hide Assigns, ExecOps, Machine, Foreign, AtHead, Tail, Eval, While, ExecOp, Wrap64, EnvSame, WorldSame;
    var s1 := LimitTest(sem, l, slot, u, i, upper, step, s, fuel);
    OuterStays(l, slot, z, c, v, s, Nil, s1);
    LimitStays(Extra(l, slot), l, u, upper, s, s1);
    WhileTurn(sem, l, s, fuel, s1);
    BodyTail(sem, l, s1, fuel);
    AssignStep(sem, copy, l.x, z, s1, fuel);
    VariableNamed(l, slot, i, step, s1);
    VariableSet(l, slot, u, i, upper, step, v, s1);
    var s2 := St(s1.env, Put(s1.w, slot(l.k + 2), Num(v)));
    SelfSame(l, slot, s2);
    OuterStays(l, slot, z, c, v, s1, Num(v), s2);
    TailRuns(sem, l, slot, v, step, s2, fuel);
    s3 := ExecOps(sem, Tail(l), s2, fuel).st;
    OuterStays(l, slot, z, c, v, s2, Num(Wrap64(v + step)), s3);
    var next, cell := Wrap64(v + step), slot(l.k + 2);
    assert PutKeeps(s2.w, cell, Num(next), u);
    PayloadSame(Extra(l, slot), Put(s2.w, cell, Num(next)), s3.w, u);
    SameSize(Extra(l, slot), s2.w, cell, Num(next), s3.w);
    LimitNamed(l, slot, u, upper, s2, s3);
  }

  lemma SelfSame(l: Loop, slot: nat -> Loc, s: St)
    ensures EnvSame(Extra(l, slot), s.env, s.env) && WorldSame(Extra(l, slot), s.w, s.w)
  {
  }

  lemma SameSize(a: Added, w: World, c: Loc, v: Val, w': World)
    requires WorldSame(a, Put(w, c, v), w')
    ensures |w.heap| == |w'.heap|
  {
  }

  lemma VariableNamed(l: Loop, slot: nat -> Loc, i: int, step: int, s: St)
    requires AtHead(l, slot, i, step, s)
    ensures Get(s.env, l.x) == slot(l.k + 2)
  {
  }

  lemma {:induction false} GoesOn(sem: Sem, l: Loop, slot: nat -> Loc, u: Loc, i: int, upper: int, step: int, copy: nat,
      z: Name, c: Loc, v: int, s: St, fuel: nat)
    requires Assigns(sem, copy) && l.body == SetBody(copy, l.x, z) && Proper(sem, l, slot, u)
    requires AtHead(l, slot, i, step, s) && LimitIs(l, u, upper, s) && Outer(l, slot, z, c, v, s) && i <= upper
    requires Wrap64(v + step) <= upper
    ensures !ExecOp(sem, While(l), s, fuel).Normal?
    decreases fuel
  {
    hide Assigns, AtHead, Outer, LimitIs, Proper, While, Wrap64, SetBody;
    if fuel > 0 {
      var s3 := AssignTurn(sem, l, slot, u, i, upper, step, copy, z, c, v, s, fuel);
      GoesOn(sem, l, slot, u, Wrap64(v + step), upper, step, copy, z, c, v, s3, fuel - 1);
    } else {
      NoTest(sem, l, s);
    }
  }

  lemma NoTest(sem: Sem, l: Loop, s: St)
    ensures ExecOp(sem, While(l), s, 0) == Timeout
  {
  }

  /** When the condition fails, the loop is over. */
  lemma TestFails(sem: Sem, l: Loop, slot: nat -> Loc, u: Loc, i: int, upper: int, step: int, s: St, fuel: nat)
    requires Proper(sem, l, slot, u) && AtHead(l, slot, i, step, s) && LimitIs(l, u, upper, s) && i > upper
    ensures ExecOp(sem, While(l), s, fuel).Normal? <==> fuel > 0
  {
    hide Machine, Foreign, AtHead, EnvSame, WorldSame, ExecOps;
    if fuel > 0 {
      var s1 := LimitTest(sem, l, slot, u, i, upper, step, s, fuel);
      WhileTurn(sem, l, s, fuel, s1);
    } else {
      NoTest(sem, l, s);
    }
  }

  lemma VariableAssignedRuns(sem: Sem, l: Loop, slot: nat -> Loc, u: Loc, lower: int, upper: int, step: int, copy: nat,
      z: Name, c: Loc, v: int, s: St, fuel: nat)
    requires Assigns(sem, copy) && l.body == SetBody(copy, l.x, z) && lower <= upper
    requires Proper(sem, l, slot, u) && Given(l, slot, u, lower, upper, step, s) && Outer(l, slot, z, c, v, s)
    ensures ExecOps(sem, LoweredOps(l), s, fuel).Normal? <==> fuel > 1 && Wrap64(v + step) > upper
  {
    hide Assigns, Given, LoweredOps, SetBody, Wrap64, AtHead, Same, Machine, Foreign, Enter, Slots;
    var s0 := InitRuns(sem, l, slot, u, lower, upper, step, s, fuel);
    OuterSame(l, slot, z, c, v, lower, s, s0);
    HeapSize(l, slot, lower, s, s0);
    if Wrap64(v + step) <= upper {
      GoesOn(sem, l, slot, u, lower, upper, step, copy, z, c, v, s0, fuel);
    } else if fuel > 0 {
      var s3 := AssignTurn(sem, l, slot, u, lower, upper, step, copy, z, c, v, s0, fuel);
      TestFails(sem, l, slot, u, Wrap64(v + step), upper, step, s3, fuel - 1);
    } else {
      NoTest(sem, l, s0);
    }
  }

  lemma HeapSize(l: Loop, slot: nat -> Loc, i: int, m: St, s: St)
    requires Same(Extra(l, slot), Enter(m, l.x, slot(l.k + 2), i), s)
    ensures |m.w.heap| == |s.w.heap|
  {
  }

  /** `for x = lower, upper, step do x = z end` ends with the manual's loop exactly when the manual's runs
      once and the value after `z` is beyond the limit; otherwise it ends too early or never. */
  lemma VariableAssignedExact(sem: Sem, l: Loop, slot: nat -> Loc, u: Loc, lower: int, upper: int, step: int,
      copy: nat, z: Name, c: Loc, v: int, s: St)
    requires Assigns(sem, copy) && l.body == SetBody(copy, l.x, z)
    requires Proper(sem, l, slot, u) && Given(l, slot, u, lower, upper, step, s) && Outer(l, slot, z, c, v, s)
    requires step > 0 && lower <= upper
    ensures (forall fuel: nat ::
               ExecOps(sem, LoweredOps(l), s, fuel).Normal?
               <==> Manual(sem, l.body, l.x, slot(l.k + 2), lower, step, 0, Count(lower, upper, step), s, fuel).Normal?)
            <==> Count(lower, upper, step) == 1 && Wrap64(v + step) > upper
  {
    hide Assigns, ExecOps, Manual, LoweredOps, Count, Proper, Given, Outer, Wrap64;
    var n := Count(lower, upper, step);
    CountBounds(lower, upper, step);
    forall fuel: nat
      ensures ExecOps(sem, LoweredOps(l), s, fuel).Normal? <==> fuel > 1 && Wrap64(v + step) > upper
      ensures Manual(sem, l.body, l.x, slot(l.k + 2), lower, step, 0, n, s, fuel).Normal? <==> fuel > n
    {
      VariableAssignedRuns(sem, l, slot, u, lower, upper, step, copy, z, c, v, s, fuel);
      SetManual(sem, copy, l.x, z, l.x, slot(l.k + 2), lower, step, 0, n, s, fuel);
    }
    assert (ExecOps(sem, LoweredOps(l), s, n + 1).Normal?
            <==> Manual(sem, l.body, l.x, slot(l.k + 2), lower, step, 0, n, s, n + 1).Normal?)
           <==> Wrap64(v + step) > upper;
    assert (ExecOps(sem, LoweredOps(l), s, 2).Normal?
            <==> Manual(sem, l.body, l.x, slot(l.k + 2), lower, step, 0, n, s, 2).Normal?)
           <==> (Wrap64(v + step) > upper <==> n == 1);
  }
}
