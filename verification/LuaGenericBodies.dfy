/** Bodies of the generic `for`: which ones leave the loop alone, one that assigns a loop variable, and
    one that assigns the variable of the iterator. */
module LuaGenericBodies {
  import opened LuaIr
  import opened LuaClone
  import opened LuaCells
  import opened LuaUntouched
  import N = LuaForBodies
  import opened LuaGenericFor
  import opened LuaGenericRun

  // ----- A check on the body

  ghost predicate ItKeeps(it: Iterator, cells: set<Loc>) {
    forall f, st, ctl, w :: Kept(cells, w, it.effect(f, st, ctl, w))
  }

  lemma EnterOutside(a: Added, l: Loop, x: Cells, m: St, vals: seq<Val>)
    requires |l.ps| == |x.ps| && Distinct(l.ps) && SeqNames(x.ps) !! a.cells && Outside(a, m.env) && There(a, m.w)
    ensures var s := Enter(l, x, m, vals); Outside(a, s.env) && There(a, s.w)
  {
    BoundAt(m.env, l.ps, x.ps);
    PutAllSize(m.w, x.ps, vals);
    forall y: Name | y !in a.names
      ensures Get(BindAll(m.env, l.ps, x.ps), y) !in a.cells
    {
      if y in l.ps {
        var i :| 0 <= i < |l.ps| && l.ps[i] == y;
        assert x.ps[i] in SeqNames(x.ps);
      }
    }
  }

  /** A body that writes through neither name leaves the two cells alone, whatever else it assigns, if no
      other name leads to them. */
  lemma {:induction false} MildSpares(sem: Sem, it: Iterator, a: Added, l: Loop, x: Cells, f: Val, st: Val, ctl: Val,
      m: St, fuel: nat)
    requires |l.ps| == |x.ps| && Distinct(l.ps) && SeqNames(x.ps) !! a.cells && Outside(a, m.env) && There(a, m.w)
    requires Mild(sem, a, l.body) && ItKeeps(it, a.cells)
    ensures Spared(sem, it, a.cells, l, x, f, st, ctl, m, fuel)
    decreases fuel, 1
  {
    if it.ending(f, st, ctl, m.w).Goes? {
      assert Kept(a.cells, m.w, it.effect(f, st, ctl, m.w));
      MildTurnSpared(sem, it, a, l, x, f, st, it.vals(f, st, ctl, m.w), St(m.env, it.effect(f, st, ctl, m.w)), fuel);
    }
  }

  lemma {:induction false} MildTurnSpared(sem: Sem, it: Iterator, a: Added, l: Loop, x: Cells, f: Val, st: Val,
      vals: seq<Val>, m: St, fuel: nat)
    requires |l.ps| == |x.ps| && Distinct(l.ps) && SeqNames(x.ps) !! a.cells && Outside(a, m.env) && There(a, m.w)
    requires Mild(sem, a, l.body) && ItKeeps(it, a.cells)
    ensures TurnSpared(sem, it, a.cells, l, x, f, st, vals, m, fuel)
    decreases fuel, 0
  {
    if fuel > 0 && !it.eq(ValAt(vals, 0), Nil) {
      var s := Enter(l, x, m, vals);
      EnterOutside(a, l, x, m, vals);
      MildLeaves(sem, a, l.body, s, fuel);
      var o := ExecOps(sem, l.body, s, fuel);
      if o.Normal? {
        MildSpares(sem, it, a, l, x, f, st, ValAt(vals, 0), o.st, fuel - 1);
      }
    }
  }

  function OwnCells(l: Loop, lf: Loc, lst: Loc): Added { Added({l.f, l.st}, {lf, lst}) }

  /** Where a check on the code, the iterator and the names at the start is enough. */
  lemma MildForCorrect(
      sem: Sem, it: Iterator, l: Loop, x: Cells, lf: Loc, lst: Loc, f: Val, st: Val, ctl: Val, s: St, fuel: nat)
    requires Proper(sem, it, l, x, lf, lst) && Given(l, x, lf, lst, f, st, ctl, s)
    requires Mild(sem, OwnCells(l, lf, lst), l.body) && Outside(OwnCells(l, lf, lst), s.env) && ItKeeps(it, {lf, lst})
    ensures EndSame(Gone(l, x), Manual(sem, it, l, x, f, st, ctl, s, fuel), ExecOps(sem, LoweredOps(l), s, fuel))
  {
    hide Machine, ItApart, Foreign, ItKeeps, ExecOps, EndSame, Manual;
    MildSpares(sem, it, OwnCells(l, lf, lst), l, x, f, st, ctl, s, fuel);
    GenericForCorrect(sem, it, l, x, lf, lst, f, st, ctl, s, fuel);
  }

  // ----- A body that assigns a loop variable

  lemma SetParts(copy: nat, y: Name, z: Name)
    ensures var body := N.SetBody(copy, y, z);
            OpsKinds(body) == {copy} && OpsNames(body) == {y, z} && OpsDefs(body) == {}
  {
    assert N.SetBody(copy, y, z)[1..] == [];
    assert OpsKinds([]) == {} && OpsNames([]) == {} && OpsDefs([]) == {};
  }

  lemma SetForeign(sem: Sem, a: Added, copy: nat, y: Name, z: Name)
    requires N.Assigns(sem, copy) && {y, z} !! a.names && 0 !in a.cells
    ensures Foreign(sem, a, N.SetBody(copy, y, z))
  {
    hide N.Assigns, StepsApart, WorldSame, There, Avoids;
    SetParts(copy, y, z);
    forall kind, locs, w, w' | kind in {copy} && WorldSame(a, w, w') && There(a, w) && Avoids(a, locs)
      ensures StepsApart(sem, a, kind, locs, w, w')
    {
      N.AssignApart(sem, a, copy, locs, w, w');
    }
  }

  /** `for ... in ... do p = y end`, with `p` the first of the loop variables: the lowered loop still makes
      the calls of the manual, with the values that the iterator returned. */
  lemma VariableAssigned(
      sem: Sem, it: Iterator, l: Loop, x: Cells, lf: Loc, lst: Loc, f: Val, st: Val, ctl: Val, copy: nat, y: Name,
      s: St, fuel: nat)
    requires NamesApart(l, x) && CellsApart(x, Extra(l, x), lf, lst) && Machine(sem, it, l.k, x)
    requires ItApart(it, Extra(l, x)) && ItKeeps(it, {lf, lst}) && Given(l, x, lf, lst, f, st, ctl, s)
    requires N.Assigns(sem, copy) && l.body == N.SetBody(copy, l.ps[0], y) && y !in Extra(l, x).names
    requires Outside(OwnCells(l, lf, lst), s.env) && 0 !in Extra(l, x).cells
    ensures EndSame(Gone(l, x), Manual(sem, it, l, x, f, st, ctl, s, fuel), ExecOps(sem, LoweredOps(l), s, fuel))
  {
    hide Machine, ItApart, ItKeeps, ExecOps, EndSame, Manual, Given, N.Assigns;
    assert l.ps[0] in SeqNames(l.ps);
    SetForeign(sem, Extra(l, x), copy, l.ps[0], y);
    SetParts(copy, l.ps[0], y);
    N.AssignMild(sem, OwnCells(l, lf, lst), copy, l.ps[0], y);
    assert N.SetBody(copy, l.ps[0], y)[1..] == [];
    MildForCorrect(sem, it, l, x, lf, lst, f, st, ctl, s, fuel);
  }

  // ----- A body that assigns the variable the iterator came from: `f = z`

  /** Every call with this function and state comes back, with a first value that is nil or not. */
  ghost predicate Always(it: Iterator, f: Val, st: Val, nil: bool) {
    forall ctl, w :: it.ending(f, st, ctl, w).Goes? && it.eq(ValAt(it.vals(f, st, ctl, w), 0), Nil) == nil
  }

  /** The manual calls the function that it has evaluated before the loop, and never comes to an end. */
  lemma {:induction false} NeverEnds(sem: Sem, it: Iterator, l: Loop, x: Cells, f: Val, st: Val, ctl: Val, copy: nat,
      y: Name, z: Name, m: St, fuel: nat)
    requires |l.ps| == |x.ps| && N.Assigns(sem, copy) && l.body == N.SetBody(copy, y, z) && Always(it, f, st, false)
    ensures Manual(sem, it, l, x, f, st, ctl, m, fuel) == Timeout
    decreases fuel
  {
    hide N.Assigns, ExecOps;
    assert it.ending(f, st, ctl, m.w).Goes?;
    if fuel > 0 {
      var vals, m1 := it.vals(f, st, ctl, m.w), St(m.env, it.effect(f, st, ctl, m.w));
      var m2 := Enter(l, x, m1, vals);
      N.AssignStep(sem, copy, y, z, m2, fuel);
      NeverEnds(sem, it, l, x, f, st, ValAt(vals, 0), copy, y, z, ExecOps(sem, l.body, m2, fuel).st, fuel - 1);
    }
  }

  /** A variable from outside the loop with the value `v` in it. */
  predicate OuterCell(l: Loop, x: Cells, z: Name, c: Loc, v: Val, s: St) {
    z !in Extra(l, x).names && z !in l.ps && c !in Extra(l, x).cells && c !in x.ps && Cell(s, z, c, v)
  }

  lemma ApartSame(l: Loop, x: Cells, z: Name, c: Loc, v: Val, vals: seq<Val>, m: St, w: World, s: St)
    requires NamesApart(l, x) && OuterCell(l, x, z, c, v, m) && Kept({c}, m.w, w)
    requires Same(Extra(l, x), Enter(l, x, St(m.env, w), vals), s)
    ensures Get(s.env, z) == c && Read(s.w, c) == v
  {
    BoundAt(m.env, l.ps, x.ps);
    PutAllOther(w, x.ps, vals, c);
    PutAllSize(w, x.ps, vals);
    assert Read(w, c) == v;
  }

  /** After the assignment the loop calls the other function. */
  lemma FunctionSet(
      l: Loop, x: Cells, lf: Loc, lst: Loc, f: Val, st: Val, g: Val, v: Val, s: St)
    requires CellsApart(x, Extra(l, x), lf, lst) && lf != lst
    requires Fixed(l, x, lf, lst, f, st, s) && Cell(s, l.ctl, x.ctl, v)
    ensures var s1 := St(s.env, Put(s.w, lf, g)); Fixed(l, x, lf, lst, g, st, s1) && Cell(s1, l.ctl, x.ctl, v)
  {
    assert {x.nil, x.ctl} <= Extra(l, x).cells;
  }

  /** The loop ends when the call at the end of a turn yields nil. */
  lemma EndsHere(sem: Sem, it: Iterator, l: Loop, x: Cells, lf: Loc, lst: Loc, g: Val, st: Val, v: Val, s: St)
    requires Proper(sem, it, l, x, lf, lst) && Fixed(l, x, lf, lst, g, st, s) && Cell(s, l.ctl, x.ctl, v)
    requires forall i :: 0 <= i < |l.ps| ==> Get(s.env, l.ps[i]) == x.ps[i]
    requires Always(it, g, st, true) && Kept({lf, lst}, s.w, it.effect(g, st, v, s.w))
    ensures var o := ExecOps(sem, Tail(l), s, 2); o.Normal? && ExecOp(sem, While(l), o.st, 1).Normal?
  {
    hide Foreign, Machine, ItApart, ExecOps, Tail, Slots, ExecOp;
    var vals, w := it.vals(g, st, v, s.w), it.effect(g, st, v, s.w);
    assert it.ending(g, st, v, s.w).Goes? && it.eq(ValAt(vals, 0), Nil);
    TailRuns(sem, it, l, x, lf, lst, g, st, v, s, 2);
    FixedStays(it, l, x, lf, lst, g, st, v, s, vals);
    var s1 := ExecOps(sem, Tail(l), s, 2).st;
    FirstValue(l, x, s, w, vals);
    LastTest(sem, it, l, x, lf, lst, g, st, ValAt(vals, 0), s1);
  }

  lemma FirstValue(l: Loop, x: Cells, s: St, w: World, vals: seq<Val>)
    requires NamesApart(l, x) && Slots(x, s.w) && |s.w.heap| <= |w.heap|
    requires forall i :: 0 <= i < |l.ps| ==> Get(s.env, l.ps[i]) == x.ps[i]
    ensures var s1 := St(BindAll(s.env, l.ns, x.ns), PutAll(PutAll(w, x.ps, vals), x.ns, vals));
            Get(s1.env, l.ps[0]) == x.ps[0] && Read(s1.w, x.ps[0]) == ValAt(vals, 0)
  {
    SlotParts(l, x, s.w);
    NsBound(l, x, s.env);
    PutAllAt(w, x.ps, vals, 0);
    assert x.ps[0] in SeqNames(x.ps) && x.ps[0] !in x.ns by {
      assert forall i :: 0 <= i < |x.ns| ==> x.ns[i] in SeqNames(x.ns);
    }
    PutAllOther(PutAll(w, x.ps, vals), x.ns, vals, x.ps[0]);
  }

  lemma LastTest(sem: Sem, it: Iterator, l: Loop, x: Cells, lf: Loc, lst: Loc, g: Val, st: Val, v: Val, s: St)
    requires Proper(sem, it, l, x, lf, lst) && Fixed(l, x, lf, lst, g, st, s) && it.eq(v, Nil)
    requires Get(s.env, l.ps[0]) == x.ps[0] && Read(s.w, x.ps[0]) == v
    ensures ExecOp(sem, While(l), s, 1).Normal?
  {
    TestRuns(sem, it, l, x, lf, lst, g, st, v, s, 1);
    TestKeeps(it, l, x, lf, lst, g, st, v, s);
    WhileTurn(sem, l, s, 1, Tested(it, l, x, v, s));
  }

  /** The body, the tail of the turn, and the turns after it. */
  function FromBody(sem: Sem, l: Loop, s: St, fuel: nat): Out
    requires fuel > 0 && l.ps != [] && |l.ns| == |l.ps|
  {
    match ExecOps(sem, l.body, s, fuel)
    case Normal(s1) =>
      (match ExecOps(sem, Tail(l), s1, fuel) case Normal(s2) => ExecOp(sem, While(l), s2, fuel - 1) case o => o)
    case o => o
  }

  /** The state in which the first turn runs the body. */
  lemma FirstTurn(sem: Sem, it: Iterator, l: Loop, x: Cells, lf: Loc, lst: Loc, f: Val, st: Val, ctl: Val, s: St)
      returns (s1: St)
    requires Proper(sem, it, l, x, lf, lst) && Given(l, x, lf, lst, f, st, ctl, s) && Always(it, f, st, false)
    requires ItKeeps(it, {lf, lst})
    ensures var vals, w := it.vals(f, st, ctl, s.w), it.effect(f, st, ctl, s.w);
            && HeadRel(l, x, lf, lst, f, st, vals, St(s.env, w), s1) && Cell(s1, l.ctl, x.ctl, ValAt(vals, 0))
            && forall i :: 0 <= i < |l.ps| ==> Get(s1.env, l.ps[i]) == x.ps[i]
    ensures ExecOps(sem, LoweredOps(l), s, 2) == FromBody(sem, l, s1, 2)
  {
    hide Foreign, Machine, ItApart, ExecOps, Tail, Slots, ExecOp, LoweredOps, Given, Fixed, Same, Eval, While, Enter;
    var vals, w := it.vals(f, st, ctl, s.w), it.effect(f, st, ctl, s.w);
    assert it.ending(f, st, ctl, s.w).Goes? && !it.eq(ValAt(vals, 0), Nil);
    assert Kept({lf, lst}, s.w, w);
    InitRuns(sem, it, l, x, lf, lst, f, st, ctl, s, 2);
    InitHead(sem, it, l, x, lf, lst, f, st, ctl, s);
    var s0 := St(BindAll(s.env, l.ps, x.ps)[l.nil := x.nil], Put(PutAll(w, x.ps, vals), x.nil, Nil));
    s1 := EvalRuns(sem, it, l, x, lf, lst, f, st, vals, St(s.env, w), s0, 2);
    HeadBinds(l, x, lf, lst, f, st, vals, St(s.env, w), s1);
    WhileTurn(sem, l, s0, 2, s1);
    BodyTail(sem, l, s1, 2);
  }

  lemma HeadBinds(l: Loop, x: Cells, lf: Loc, lst: Loc, f: Val, st: Val, vals: seq<Val>, m: St, s: St)
    requires NamesApart(l, x) && HeadRel(l, x, lf, lst, f, st, vals, m, s)
    ensures forall i :: 0 <= i < |l.ps| ==> Get(s.env, l.ps[i]) == x.ps[i]
  {
    EnterBinds(l, x, m, vals, Extra(l, x), s);
  }

  /** The lowered loop calls what is in the variable: where `f` never yields nil and the assigned function
      does, it ends after one turn, and the manual's loop runs for ever. */
  lemma IteratorAssigned(
      sem: Sem, it: Iterator, l: Loop, x: Cells, lf: Loc, lst: Loc, f: Val, st: Val, ctl: Val, copy: nat, z: Name,
      c: Loc, g: Val, s: St)
    requires N.Assigns(sem, copy) && l.body == N.SetBody(copy, l.f, z) && lf != lst
    requires Proper(sem, it, l, x, lf, lst) && Given(l, x, lf, lst, f, st, ctl, s) && OuterCell(l, x, z, c, g, s)
    requires ItKeeps(it, {lf, lst}) && ItKeeps(it, {c}) && Always(it, f, st, false) && Always(it, g, st, true)
    ensures ExecOps(sem, LoweredOps(l), s, 2).Normal?
    ensures forall fuel: nat :: Manual(sem, it, l, x, f, st, ctl, s, fuel) == Timeout
  {
    hide Foreign, Machine, ItApart, ExecOps, Tail, Slots, ExecOp, LoweredOps, Given, Fixed, Same, N.Assigns, Manual;
    forall fuel: nat
      ensures Manual(sem, it, l, x, f, st, ctl, s, fuel) == Timeout
    {
      NeverEnds(sem, it, l, x, f, st, ctl, copy, l.f, z, s, fuel);
    }
    var s1 := FirstTurn(sem, it, l, x, lf, lst, f, st, ctl, s);
    var vals, w := it.vals(f, st, ctl, s.w), it.effect(f, st, ctl, s.w);
    assert Kept({c}, s.w, w);
    ApartSame(l, x, z, c, g, vals, s, w, s1);
    N.AssignStep(sem, copy, l.f, z, s1, 2);
    FunctionSet(l, x, lf, lst, f, st, g, ValAt(vals, 0), s1);
    NamedF(l, x, lf, lst, f, st, s1);
    var s2 := St(s1.env, Put(s1.w, lf, g));
    assert Kept({lf, lst}, s2.w, it.effect(g, st, ValAt(vals, 0), s2.w));
    EndsHere(sem, it, l, x, lf, lst, g, st, ValAt(vals, 0), s2);
  }

  lemma NamedF(l: Loop, x: Cells, lf: Loc, lst: Loc, f: Val, st: Val, s: St)
    requires Fixed(l, x, lf, lst, f, st, s)
    ensures Get(s.env, l.f) == lf
  {
  }
}
