/** Runs of the generic `for`. */
module LuaGenericRun {
  import opened LuaIr
  import opened LuaClone
  import opened LuaCells
  import opened LuaUntouched
  import opened LuaGenericFor

  // ----- What is assumed

  /** The iterator neither sees nor writes what belongs to the loop alone. */
  ghost predicate ItApart(it: Iterator, a: Added) {
    forall f, st, ctl, w, w' :: WorldSame(a, w, w') ==>
      && it.ending(f, st, ctl, w) == it.ending(f, st, ctl, w') && it.vals(f, st, ctl, w) == it.vals(f, st, ctl, w')
      && WorldSame(a, it.effect(f, st, ctl, w), it.effect(f, st, ctl, w'))
      && Kept(a.cells, w', it.effect(f, st, ctl, w'))
  }

  /** On this run of the manual's loop no call of the iterator and no turn of the body writes the cells. */
  ghost predicate Spared(sem: Sem, it: Iterator, cells: set<Loc>, l: Loop, x: Cells, f: Val, st: Val, ctl: Val, m: St,
      fuel: nat)
    requires |l.ps| == |x.ps|
    decreases fuel, 1
  {
    it.ending(f, st, ctl, m.w).Goes? ==>
      && Kept(cells, m.w, it.effect(f, st, ctl, m.w))
      && TurnSpared(sem, it, cells, l, x, f, st, it.vals(f, st, ctl, m.w), St(m.env, it.effect(f, st, ctl, m.w)), fuel)
  }

  ghost predicate TurnSpared(sem: Sem, it: Iterator, cells: set<Loc>, l: Loop, x: Cells, f: Val, st: Val,
      vals: seq<Val>, m: St, fuel: nat)
    requires |l.ps| == |x.ps|
    decreases fuel, 0
  {
    fuel > 0 && !it.eq(ValAt(vals, 0), Nil) ==>
      && Leaves(sem, cells, l.body, Enter(l, x, m, vals), fuel)
      && match ExecOps(sem, l.body, Enter(l, x, m, vals), fuel)
         case Normal(m1) => Spared(sem, it, cells, l, x, f, st, ValAt(vals, 0), m1, fuel - 1)
         case _ => true
  }

  predicate NamesApart(l: Loop, x: Cells) {
    && |l.ps| == |x.ps| == |l.ns| == |x.ns| > 0 && Distinct(l.ps) && Distinct(l.ns)
    && l.nil != l.c && l.nil != l.ctl && l.c != l.ctl && l.nil !in l.ns && l.c !in l.ns && l.ctl !in l.ns
    && SeqNames(l.ps) + {l.f, l.st} !! Extra(l, x).names && l.f !in l.ps && l.st !in l.ps
  }

  predicate CellsApart(x: Cells, a: Added, lf: Loc, lst: Loc) {
    {lf, lst} !! a.cells + SeqNames(x.ps)
  }

  /** The loop as it stands in a function: the added values are new, and the body defines none of the
      names that the loop uses. */
  ghost predicate Proper(sem: Sem, it: Iterator, l: Loop, x: Cells, lf: Loc, lst: Loc) {
    && NamesApart(l, x) && CellsApart(x, Extra(l, x), lf, lst)
    && Machine(sem, it, l.k, x) && ItApart(it, Extra(l, x))
    && Foreign(sem, Extra(l, x), l.body) && SeqNames(l.ps) + {l.f, l.st} !! OpsDefs(l.body)
  }

  // ----- Where the loop tests its condition

  predicate Cell(s: St, y: Name, c: Loc, v: Val) { Get(s.env, y) == c && c < |s.w.heap| && s.w.heap[c] == v }

  /** The cells that the loop reads in every turn. */
  predicate Fixed(l: Loop, x: Cells, lf: Loc, lst: Loc, f: Val, st: Val, s: St) {
    && Slots(x, s.w) && Cell(s, l.nil, x.nil, Nil) && Get(s.env, l.ctl) == x.ctl
    && Cell(s, l.f, lf, f) && Cell(s, l.st, lst, st)
  }

  ghost predicate HeadRel(l: Loop, x: Cells, lf: Loc, lst: Loc, f: Val, st: Val, vals: seq<Val>, m: St, s: St)
    requires |l.ps| == |x.ps|
  {
    Fixed(l, x, lf, lst, f, st, s) && Same(Extra(l, x), Enter(l, x, m, vals), s)
  }

  /** What nobody can name after the loop. */
  function Gone(l: Loop, x: Cells): Added {
    Added(Extra(l, x).names + SeqNames(l.ps), Extra(l, x).cells + SeqNames(x.ps))
  }

  ghost predicate EndSame(a: Added, o: Out, o': Out) {
    match o
    case Normal(s) => o'.Normal? && EnvSame(a, s.env, o'.st.env) && WorldSame(a, s.w, o'.st.w)
    case Returned(vals, w) => o'.Returned? && o'.vals == vals && WorldSame(a, w, o'.w)
    case _ => o' == o
  }

  // ----- Single ops

  lemma CopyStep(sem: Sem, l: Loop, tgt: Name, src: Name, rest: seq<Op>, s: St, fuel: nat)
    requires CopyPrim(sem, l.k + 2)
    ensures ExecOps(sem, [CopyOp(l, tgt, src)] + rest, s, fuel)
            == ExecOps(sem, rest, St(s.env, Put(s.w, Get(s.env, tgt), Read(s.w, Get(s.env, src)))), fuel)
  {
    var locs := Locs(s.env, [tgt, src]);
    assert locs == [Get(s.env, tgt), Get(s.env, src)];
    assert ([CopyOp(l, tgt, src)] + rest)[1..] == rest;
    assert sem.effect(l.k + 2, locs, s.w) == Put(s.w, locs[0], Read(s.w, locs[1]));
  }

  lemma NeStep(sem: Sem, it: Iterator, l: Loop, cell: Loc, s: St, fuel: nat)
    requires NePrim(sem, it, l.k + 3, cell)
    ensures ExecOps(sem, [Prim(l.k + 3, [l.c], [l.ctl, l.nil])], s, fuel)
            == Normal(St(s.env[l.c := cell], Put(s.w, cell,
              Bool(!it.eq(Read(s.w, Get(s.env, l.ctl)), Read(s.w, Get(s.env, l.nil)))))))
  {
    var locs := Locs(s.env, [l.ctl, l.nil]);
    assert locs == [Get(s.env, l.ctl), Get(s.env, l.nil)];
    assert [Prim(l.k + 3, [l.c], [l.ctl, l.nil])][1..] == [] && [l.c][..0] == [];
    assert sem.effect(l.k + 3, locs, s.w) == Put(s.w, cell, Bool(!it.eq(Read(s.w, locs[0]), Read(s.w, locs[1]))));
    assert Bind(s.env, [l.c], i => sem.result(l.k + 3, locs, s.w, i)) == s.env[l.c := cell];
  }

  lemma CallStep(sem: Sem, it: Iterator, kind: nat, ls: seq<Loc>, ys: seq<Name>, f: Name, st: Name, ctl: Name, s: St,
      fuel: nat)
    requires CallPrim(sem, it, kind, ls) && |ys| == |ls|
    ensures var fv, sv, cv := Read(s.w, Get(s.env, f)), Read(s.w, Get(s.env, st)), Read(s.w, Get(s.env, ctl));
            ExecPrim(sem, kind, ys, [f, st, ctl], s) ==
            match it.ending(fv, sv, cv, s.w)
            case Fails => Stuck
            case Hangs => Timeout
            case Goes => Normal(St(BindAll(s.env, ys, ls),
              PutAll(it.effect(fv, sv, cv, s.w), ls, it.vals(fv, sv, cv, s.w))))
  {
    var locs := Locs(s.env, [f, st, ctl]);
    assert locs == [Get(s.env, f), Get(s.env, st), Get(s.env, ctl)];
    assert sem.ending(kind, locs, s.w) == it.ending(Read(s.w, locs[0]), Read(s.w, locs[1]), Read(s.w, locs[2]), s.w);
    BindFirst(s.env, ys, i => sem.result(kind, locs, s.w, i), i => if 0 <= i < |ls| then ls[i] else 0);
  }

  // ----- The condition

  lemma EnterBinds(l: Loop, x: Cells, m: St, vals: seq<Val>, a: Added, s: St)
    requires NamesApart(l, x) && a == Extra(l, x) && Slots(x, s.w) && Same(a, Enter(l, x, m, vals), s)
    ensures forall i :: 0 <= i < |l.ps| ==> Get(s.env, l.ps[i]) == x.ps[i]
    ensures Read(s.w, x.ps[0]) == ValAt(vals, 0)
  {
    BoundAt(m.env, l.ps, x.ps);
    forall i | 0 <= i < |l.ps|
      ensures Get(s.env, l.ps[i]) == x.ps[i]
    {
      assert l.ps[i] in SeqNames(l.ps);
    }
    PutAllSize(m.w, x.ps, vals);
    SlotParts(l, x, s.w);
    PutAllAt(m.w, x.ps, vals, 0);
    assert x.ps[0] !in a.cells;
  }

  /** The cells of the loop, one group at a time. */
  lemma SlotParts(l: Loop, x: Cells, w: World)
    requires Slots(x, w)
    ensures Distinct(x.ps) && Distinct(x.ns) && SeqNames(x.ps) !! Extra(l, x).cells
    ensures x.nil !in x.ns && x.c !in x.ns && x.ctl !in x.ns && x.nil != x.c && x.nil != x.ctl && x.c != x.ctl
    ensures (forall i :: 0 <= i < |x.ps| ==> x.ps[i] < |w.heap|) && (forall i :: 0 <= i < |x.ns| ==> x.ns[i] < |w.heap|)
    ensures x.nil < |w.heap| && x.c < |w.heap| && x.ctl < |w.heap| && There(Extra(l, x), w)
  {
    var all := x.ps + x.ns + [x.nil, x.c, x.ctl];
    var p, n := |x.ps|, |x.ns|;
    assert forall i :: 0 <= i < p ==> x.ps[i] == all[i];
    assert forall i :: 0 <= i < n ==> x.ns[i] == all[p + i];
    assert all[p + n] == x.nil && all[p + n + 1] == x.c && all[p + n + 2] == x.ctl;
    assert forall i :: 0 <= i < |all| ==> all[i] in all;
  }

  lemma EvalRuns(
      sem: Sem, it: Iterator, l: Loop, x: Cells, lf: Loc, lst: Loc, f: Val, st: Val, vals: seq<Val>, m: St, s: St,
        fuel: nat)
      returns (s1: St)
    requires Proper(sem, it, l, x, lf, lst) && HeadRel(l, x, lf, lst, f, st, vals, m, s)
    ensures ExecOps(sem, Eval(l).ops, s, fuel) == Normal(s1) && HeadRel(l, x, lf, lst, f, st, vals, m, s1)
    ensures Cell(s1, l.ctl, x.ctl, ValAt(vals, 0))
    ensures Test(s1, l.c) <==> !it.eq(ValAt(vals, 0), Nil)
  {
    var a, v := Extra(l, x), ValAt(vals, 0);
    SlotParts(l, x, s.w);
    EnterBinds(l, x, m, vals, a, s);
    s1 := Tested(it, l, x, v, s);
    TestRuns(sem, it, l, x, lf, lst, f, st, v, s, fuel);
    TestKeeps(it, l, x, lf, lst, f, st, v, s);
    AsideSame(a, Enter(l, x, m, vals), s, s1);
  }

  /** The control value has been set, and compared with nil. */
  function Tested(it: Iterator, l: Loop, x: Cells, v: Val, s: St): St {
    St(s.env[l.c := x.c], Put(Put(s.w, x.ctl, v), x.c, Bool(!it.eq(v, Nil))))
  }

  lemma TestRuns(
      sem: Sem, it: Iterator, l: Loop, x: Cells, lf: Loc, lst: Loc, f: Val, st: Val, v: Val, s: St, fuel: nat)
    requires CopyPrim(sem, l.k + 2) && NePrim(sem, it, l.k + 3, x.c) && NamesApart(l, x)
             && Fixed(l, x, lf, lst, f, st, s)
    requires Get(s.env, l.ps[0]) == x.ps[0] && Read(s.w, x.ps[0]) == v
    ensures ExecOps(sem, Eval(l).ops, s, fuel) == Normal(Tested(it, l, x, v, s))
  {
    SlotParts(l, x, s.w);
    var s0 := St(s.env, Put(s.w, x.ctl, v));
    assert Eval(l).ops == [CopyOp(l, l.ctl, l.ps[0])] + [Prim(l.k + 3, [l.c], [l.ctl, l.nil])];
    CopyStep(sem, l, l.ctl, l.ps[0], [Prim(l.k + 3, [l.c], [l.ctl, l.nil])], s, fuel);
    NeStep(sem, it, l, x.c, s0, fuel);
  }

  lemma TestKeeps(it: Iterator, l: Loop, x: Cells, lf: Loc, lst: Loc, f: Val, st: Val, v: Val, s: St)
    requires NamesApart(l, x) && CellsApart(x, Extra(l, x), lf, lst) && Fixed(l, x, lf, lst, f, st, s)
    ensures var s1 := Tested(it, l, x, v, s);
            && Fixed(l, x, lf, lst, f, st, s1) && Cell(s1, l.ctl, x.ctl, v) && (Test(s1, l.c) <==> !it.eq(v, Nil))
            && EnvSame(Extra(l, x), s.env, s1.env) && WorldSame(Extra(l, x), s.w, s1.w)
  {
    SlotParts(l, x, s.w);
    SlotsKept(x, s.w, Tested(it, l, x, v, s).w, {});
  }

  lemma AsideSame(a: Added, m: St, s: St, s1: St)
    requires Same(a, m, s) && EnvSame(a, s.env, s1.env) && WorldSame(a, s.w, s1.w)
    ensures Same(a, m, s1)
  {
  }

  // ----- The body

  lemma CellKept(s: St, s1: St, y: Name, c: Loc, v: Val, cells: set<Loc>)
    requires Cell(s, y, c, v) && c in cells && Kept(cells, s.w, s1.w) && Get(s1.env, y) == Get(s.env, y)
    ensures Cell(s1, y, c, v)
  {
  }

  /** The body leaves the cells of the loop as they are, and lets every name of the loop be. */
  lemma BodyKeeps(
      sem: Sem, it: Iterator, l: Loop, x: Cells, lf: Loc, lst: Loc, f: Val, st: Val, v: Val, s: St, fuel: nat)
    requires Proper(sem, it, l, x, lf, lst) && Fixed(l, x, lf, lst, f, st, s) && Outside(Extra(l, x), s.env)
    requires Cell(s, l.ctl, x.ctl, v) && Leaves(sem, {lf, lst}, l.body, s, fuel)
    ensures var o := ExecOps(sem, l.body, s, fuel);
            o.Normal? ==>
              && Fixed(l, x, lf, lst, f, st, o.st) && Cell(o.st, l.ctl, x.ctl, v)
              && forall i :: 0 <= i < |l.ps| ==> Get(o.st.env, l.ps[i]) == Get(s.env, l.ps[i])
  {
    var o, a := ExecOps(sem, l.body, s, fuel), Extra(l, x);
    if o.Normal? {
      SlotParts(l, x, s.w);
      OpsKeep(sem, a, l.body, s, fuel);
      assert Kept({lf, lst}, s.w, o.st.w);
      BodyBinds(sem, it, l, x, lf, lst, s, fuel);
      hide Proper, ExecOps, Outside, Kept, Slots;
      CellKept(s, o.st, l.nil, x.nil, Nil, a.cells);
      CellKept(s, o.st, l.ctl, x.ctl, v, a.cells);
      CellKept(s, o.st, l.f, lf, f, {lf, lst});
      CellKept(s, o.st, l.st, lst, st, {lf, lst});
      SlotsKept(x, s.w, o.st.w, a.cells);
    }
  }

  lemma SlotsKept(x: Cells, w: World, w1: World, cells: set<Loc>)
    requires Slots(x, w) && Kept(cells, w, w1)
    ensures Slots(x, w1)
  {
  }

  lemma BodyBinds(sem: Sem, it: Iterator, l: Loop, x: Cells, lf: Loc, lst: Loc, s: St, fuel: nat)
    requires Proper(sem, it, l, x, lf, lst) && ExecOps(sem, l.body, s, fuel).Normal?
    ensures var e := ExecOps(sem, l.body, s, fuel).st.env;
            && Get(e, l.nil) == Get(s.env, l.nil) && Get(e, l.ctl) == Get(s.env, l.ctl)
            && Get(e, l.f) == Get(s.env, l.f) && Get(e, l.st) == Get(s.env, l.st)
            && forall i :: 0 <= i < |l.ps| ==> Get(e, l.ps[i]) == Get(s.env, l.ps[i])
  {
    OpsDefsInNames(l.body);
    assert l.nil in Extra(l, x).names && l.ctl in Extra(l, x).names;
    OpsBind(sem, l.body, s, fuel, l.nil);
    OpsBind(sem, l.body, s, fuel, l.ctl);
    OpsBind(sem, l.body, s, fuel, l.f);
    OpsBind(sem, l.body, s, fuel, l.st);
    forall i | 0 <= i < |l.ps|
      ensures Get(ExecOps(sem, l.body, s, fuel).st.env, l.ps[i]) == Get(s.env, l.ps[i])
    {
      assert l.ps[i] in SeqNames(l.ps);
      OpsBind(sem, l.body, s, fuel, l.ps[i]);
    }
  }

  // ----- The next values

  /** Copying from position `i` on. */
  lemma {:induction false} CopiesRun(sem: Sem, l: Loop, x: Cells, vals: seq<Val>, i: nat, s: St, w: World, fuel: nat)
    requires CopyPrim(sem, l.k + 2) && |l.ps| == |x.ps| == |l.ns| == |x.ns| && i <= |l.ps|
    requires Distinct(x.ps) && Distinct(x.ns) && SeqNames(x.ps) !! SeqNames(x.ns)
    requires forall j :: 0 <= j < |l.ps| ==> Get(s.env, l.ps[j]) == x.ps[j] && Get(s.env, l.ns[j]) == x.ns[j]
    requires forall j :: i <= j < |l.ps| ==> Read(s.w, x.ns[j]) == ValAt(vals, j)
    requires s.w == PutAll(w, x.ps[..i], vals)
    ensures ExecOps(sem, Copies(l, i), s, fuel) == Normal(St(s.env, PutAll(w, x.ps, vals)))
    decreases |l.ps| - i
  {
    if i == |l.ps| {
      assert x.ps[..i] == x.ps;
    } else {
      var s1 := St(s.env, Put(s.w, x.ps[i], ValAt(vals, i)));
      CopyStep(sem, l, l.ps[i], l.ns[i], Copies(l, i + 1), s, fuel);
      assert x.ps[..i + 1][..i] == x.ps[..i];
      hide CopyPrim, ExecOps, Copies;
      OthersRead(x, vals, i, s.w, x.ps[i], ValAt(vals, i));
      CopiesRun(sem, l, x, vals, i + 1, s1, w, fuel);
    }
  }

  lemma OthersRead(x: Cells, vals: seq<Val>, i: nat, w: World, c: Loc, v: Val)
    requires c in SeqNames(x.ps) && SeqNames(x.ps) !! SeqNames(x.ns)
    requires forall j :: i <= j < |x.ns| ==> Read(w, x.ns[j]) == ValAt(vals, j)
    ensures forall j :: i <= j < |x.ns| ==> Read(Put(w, c, v), x.ns[j]) == ValAt(vals, j)
  {
    assert forall j :: 0 <= j < |x.ns| ==> x.ns[j] in SeqNames(x.ns);
  }

  lemma {:induction false} PutAllApart(w: World, ls: seq<Loc>, vals: seq<Val>, ms: seq<Loc>, us: seq<Val>)
    requires SeqNames(ls) !! SeqNames(ms)
    ensures PutAll(PutAll(w, ls, vals), ms, us) == PutAll(PutAll(w, ms, us), ls, vals)
    decreases |ls|
  {
    if ls != [] {
      var n := |ls| - 1;
      assert ls[n] in SeqNames(ls) && SeqNames(ls[..n]) <= SeqNames(ls);
      PutAllApart(w, ls[..n], vals, ms, us);
      PutApart(PutAll(w, ls[..n], vals), ls[n], ValAt(vals, n), ms, us);
    }
  }

  lemma {:induction false} PutApart(w: World, c: Loc, v: Val, ms: seq<Loc>, us: seq<Val>)
    requires c !in SeqNames(ms)
    ensures PutAll(Put(w, c, v), ms, us) == Put(PutAll(w, ms, us), c, v)
    decreases |ms|
  {
    PutAllSize(w, ms, us);
    if ms != [] {
      var n := |ms| - 1;
      assert ms[n] in SeqNames(ms) && SeqNames(ms[..n]) <= SeqNames(ms);
      PutApart(w, c, v, ms[..n], us);
      PutAllSize(w, ms[..n], us);
    }
  }

  /** The state after the call at the end of a turn. */
  lemma NextValues(
      sem: Sem, it: Iterator, l: Loop, x: Cells, lf: Loc, lst: Loc, f: Val, st: Val, v: Val, s: St)
    requires Proper(sem, it, l, x, lf, lst) && Fixed(l, x, lf, lst, f, st, s) && Cell(s, l.ctl, x.ctl, v)
    ensures ExecPrim(sem, l.k + 4, l.ns, [l.f, l.st, l.ctl], s) ==
            match it.ending(f, st, v, s.w)
            case Fails => Stuck
            case Hangs => Timeout
            case Goes => Normal(St(BindAll(s.env, l.ns, x.ns),
              PutAll(it.effect(f, st, v, s.w), x.ns, it.vals(f, st, v, s.w))))
  {
    CallStep(sem, it, l.k + 4, x.ns, l.ns, l.f, l.st, l.ctl, s, 0);
  }

  lemma TailSplits(sem: Sem, l: Loop, s: St, fuel: nat)
    requires |l.ns| == |l.ps|
    ensures ExecOps(sem, Tail(l), s, fuel) ==
            match ExecPrim(sem, l.k + 4, l.ns, [l.f, l.st, l.ctl], s)
            case Normal(s1) => ExecOps(sem, Copies(l, 0), s1, fuel)
            case o => o
  {
    assert Tail(l)[1..] == Copies(l, 0);
  }

  /** Call and copies together: the next values are in the cells of the loop variables. */
  lemma TailRuns(
      sem: Sem, it: Iterator, l: Loop, x: Cells, lf: Loc, lst: Loc, f: Val, st: Val, v: Val, s: St, fuel: nat)
    requires Proper(sem, it, l, x, lf, lst) && Fixed(l, x, lf, lst, f, st, s) && Cell(s, l.ctl, x.ctl, v)
    requires forall i :: 0 <= i < |l.ps| ==> Get(s.env, l.ps[i]) == x.ps[i]
    requires it.ending(f, st, v, s.w).Goes? && |s.w.heap| <= |it.effect(f, st, v, s.w).heap|
    ensures var vals, w := it.vals(f, st, v, s.w), it.effect(f, st, v, s.w);
            ExecOps(sem, Tail(l), s, fuel) == Normal(St(BindAll(s.env, l.ns, x.ns),
              PutAll(PutAll(w, x.ps, vals), x.ns, vals)))
  {
    var vals, w := it.vals(f, st, v, s.w), it.effect(f, st, v, s.w);
    var s1 := St(BindAll(s.env, l.ns, x.ns), PutAll(w, x.ns, vals));
    NextValues(sem, it, l, x, lf, lst, f, st, v, s);
    TailSplits(sem, l, s, fuel);
    SlotParts(l, x, s.w);
    NsBound(l, x, s.env);
    forall j | 0 <= j < |l.ns|
      ensures Read(s1.w, x.ns[j]) == ValAt(vals, j)
    {
      PutAllAt(w, x.ns, vals, j);
    }
    assert PutAll(PutAll(w, x.ns, vals), x.ps[..0], vals) == PutAll(w, x.ns, vals);
    CopiesRun(sem, l, x, vals, 0, s1, PutAll(w, x.ns, vals), fuel);
    PutAllApart(w, x.ns, vals, x.ps, vals);
  }

  lemma NsBound(l: Loop, x: Cells, env: map<Name, Loc>)
    requires NamesApart(l, x)
    ensures var e := BindAll(env, l.ns, x.ns);
            && (forall i :: 0 <= i < |l.ns| ==> Get(e, l.ns[i]) == x.ns[i])
            && (forall i :: 0 <= i < |l.ps| ==> Get(e, l.ps[i]) == Get(env, l.ps[i]))
            && (forall y: Name :: y !in SeqNames(l.ns) ==> Get(e, y) == Get(env, y))
  {
    BoundAt(env, l.ns, x.ns);
    forall i | 0 <= i < |l.ps|
      ensures l.ps[i] !in l.ns
    {
      assert l.ps[i] in SeqNames(l.ps);
      assert forall j :: 0 <= j < |l.ns| ==> l.ns[j] in SeqNames(l.ns);
    }
  }

  // ----- One turn of both loops

  /** Fixed cells stay through the iterator's run and the writes to the loop's other cells. */
  lemma FixedStays(
      it: Iterator, l: Loop, x: Cells, lf: Loc, lst: Loc, f: Val, st: Val, v: Val, s: St, vals: seq<Val>)
    requires NamesApart(l, x) && CellsApart(x, Extra(l, x), lf, lst) && ItApart(it, Extra(l, x))
    requires Fixed(l, x, lf, lst, f, st, s) && Kept({lf, lst}, s.w, it.effect(f, st, v, s.w))
    ensures var w := it.effect(f, st, v, s.w);
            Fixed(l, x, lf, lst, f, st, St(BindAll(s.env, l.ns, x.ns), PutAll(PutAll(w, x.ps, vals), x.ns, vals)))
  {
    var a, w := Extra(l, x), it.effect(f, st, v, s.w);
    var s1 := St(BindAll(s.env, l.ns, x.ns), PutAll(PutAll(w, x.ps, vals), x.ns, vals));
    WorldSelf(a, s.w);
    assert Kept(a.cells + {lf, lst}, s.w, w);
    SlotParts(l, x, s.w);
    NsBound(l, x, s.env);
    hide ItApart, BindAll;
    CellWritten(l, x, a, lf, lst, s, s1, w, vals, l.nil, x.nil, Nil);
    CellWritten(l, x, a, lf, lst, s, s1, w, vals, l.f, lf, f);
    CellWritten(l, x, a, lf, lst, s, s1, w, vals, l.st, lst, st);
    PutAllSize(w, x.ps, vals);
    PutAllSize(PutAll(w, x.ps, vals), x.ns, vals);
    SlotsKept(x, s.w, s1.w, {});
  }

  lemma CellWritten(
      l: Loop, x: Cells, a: Added, lf: Loc, lst: Loc, s: St, s1: St, w: World, vals: seq<Val>, y: Name, c: Loc, v: Val)
    requires a == Extra(l, x) && CellsApart(x, a, lf, lst) && c in {x.nil, lf, lst} && x.nil !in x.ns
             && SeqNames(x.ps) !! a.cells
    requires Kept(a.cells + {lf, lst}, s.w, w) && s1.w == PutAll(PutAll(w, x.ps, vals), x.ns, vals)
    requires Cell(s, y, c, v) && Get(s1.env, y) == Get(s.env, y)
    ensures Cell(s1, y, c, v)
  {
    NotIn(x, a, c, lf, lst, l);
    PutAllOther(w, x.ps, vals, c);
    PutAllOther(PutAll(w, x.ps, vals), x.ns, vals, c);
    PutAllSize(w, x.ps, vals);
    PutAllSize(PutAll(w, x.ps, vals), x.ns, vals);
    assert Read(w, c) == Read(s.w, c);
  }

  lemma WorldSelf(a: Added, w: World)
    ensures WorldSame(a, w, w)
  {
  }

  lemma NotIn(x: Cells, a: Added, c: Loc, lf: Loc, lst: Loc, l: Loop)
    requires a == Extra(l, x) && CellsApart(x, a, lf, lst) && c in {x.nil, lf, lst} && x.nil !in x.ns
             && SeqNames(x.ps) !! a.cells
    ensures c !in x.ps && c !in x.ns
  {
    assert forall i :: 0 <= i < |x.ps| ==> x.ps[i] in SeqNames(x.ps);
    assert forall i :: 0 <= i < |x.ns| ==> x.ns[i] in SeqNames(x.ns);
  }

  /** The manual's state with the next values, and the lowered one after its call and copies. */
  lemma NextSame(l: Loop, x: Cells, m: St, s: St, w: World, w': World, vals: seq<Val>)
    requires NamesApart(l, x) && Slots(x, s.w) && Same(Extra(l, x), m, s) && WorldSame(Extra(l, x), w, w')
    requires |m.w.heap| <= |w.heap|
    requires forall i :: 0 <= i < |l.ps| ==> Get(s.env, l.ps[i]) == x.ps[i]
    ensures Same(Extra(l, x), Enter(l, x, St(m.env, w), vals),
            St(BindAll(s.env, l.ns, x.ns), PutAll(PutAll(w', x.ps, vals), x.ns, vals)))
  {
    var a := Extra(l, x);
    PutAllSize(w, x.ps, vals);
    PutAllSame(a, w, w', x.ps, vals);
    PutAllSame(a, PutAll(w, x.ps, vals), PutAll(w', x.ps, vals), x.ns, vals);
    NextEnv(l, x, m, s);
  }

  lemma NextEnv(l: Loop, x: Cells, m: St, s: St)
    requires NamesApart(l, x) && Slots(x, s.w) && Same(Extra(l, x), m, s)
    requires forall i :: 0 <= i < |l.ps| ==> Get(s.env, l.ps[i]) == x.ps[i]
    ensures var a, e := Extra(l, x), BindAll(m.env, l.ps, x.ps);
            EnvSame(a, e, BindAll(s.env, l.ns, x.ns)) && Outside(a, e)
  {
    var a, e := Extra(l, x), BindAll(m.env, l.ps, x.ps);
    BoundAt(m.env, l.ps, x.ps);
    NsBound(l, x, s.env);
    SlotParts(l, x, s.w);
    forall y: Name | y !in a.names
      ensures Get(e, y) == Get(BindAll(s.env, l.ns, x.ns), y) && Get(e, y) !in a.cells
    {
      if y in l.ps {
        var i :| 0 <= i < |l.ps| && l.ps[i] == y;
        assert Get(e, l.ps[i]) == x.ps[i] && x.ps[i] in SeqNames(x.ps);
      }
    }
  }

  /** The body, and then call and copies. */
  lemma TurnRuns(
      sem: Sem, it: Iterator, l: Loop, x: Cells, lf: Loc, lst: Loc, f: Val, st: Val, vals: seq<Val>, m: St, s: St,
        fuel: nat)
    requires Proper(sem, it, l, x, lf, lst) && HeadRel(l, x, lf, lst, f, st, vals, m, s)
             && Cell(s, l.ctl, x.ctl, ValAt(vals, 0))
    requires Leaves(sem, {lf, lst}, l.body, Enter(l, x, m, vals), fuel)
    ensures var o, o' := ExecOps(sem, l.body, Enter(l, x, m, vals), fuel), ExecOps(sem, l.body, s, fuel);
            && OutSame(Extra(l, x), o, o')
            && (o.Normal? ==>
                 && Fixed(l, x, lf, lst, f, st, o'.st) && Cell(o'.st, l.ctl, x.ctl, ValAt(vals, 0))
                 && forall i :: 0 <= i < |l.ps| ==> Get(o'.st.env, l.ps[i]) == x.ps[i])
  {
    var a, m0 := Extra(l, x), Enter(l, x, m, vals);
    EnterBinds(l, x, m, vals, a, s);
    OutsideSame(a, m0, s);
    OpsSame(sem, a, l.body, m0, s, fuel);
    LeavesSame(sem, a, {lf, lst}, l.body, m0, s, fuel);
    BodyKeeps(sem, it, l, x, lf, lst, f, st, ValAt(vals, 0), s, fuel);
  }

  lemma OutsideSame(a: Added, s: St, s': St)
    requires Same(a, s, s')
    ensures Outside(a, s'.env)
  {
  }

  /** The end of a turn: the same failure, or related states. */
  lemma CallRuns(
      sem: Sem, it: Iterator, l: Loop, x: Cells, lf: Loc, lst: Loc, f: Val, st: Val, v: Val, m: St, s: St, fuel: nat)
    requires Proper(sem, it, l, x, lf, lst) && Fixed(l, x, lf, lst, f, st, s) && Cell(s, l.ctl, x.ctl, v)
    requires Same(Extra(l, x), m, s) && forall i :: 0 <= i < |l.ps| ==> Get(s.env, l.ps[i]) == x.ps[i]
    requires it.ending(f, st, v, m.w).Goes? ==> Kept({lf, lst}, m.w, it.effect(f, st, v, m.w))
    ensures var o := ExecOps(sem, Tail(l), s, fuel);
            match it.ending(f, st, v, m.w)
            case Fails => o == Stuck
            case Hangs => o == Timeout
            case Goes =>
              && o.Normal?
              && HeadRel(l, x, lf, lst, f, st, it.vals(f, st, v, m.w), St(m.env, it.effect(f, st, v, m.w)), o.st)
  {
    var a := Extra(l, x);
    assert it.ending(f, st, v, m.w) == it.ending(f, st, v, s.w) && it.vals(f, st, v, m.w) == it.vals(f, st, v, s.w);
    assert WorldSame(a, it.effect(f, st, v, m.w), it.effect(f, st, v, s.w));
    NextValues(sem, it, l, x, lf, lst, f, st, v, s);
    TailSplits(sem, l, s, fuel);
    if it.ending(f, st, v, s.w).Goes? {
      WorldSelf(a, s.w);
      KeptSame(a, {lf, lst}, m.w, s.w, it.effect(f, st, v, m.w), it.effect(f, st, v, s.w));
      TailRuns(sem, it, l, x, lf, lst, f, st, v, s, fuel);
      FixedStays(it, l, x, lf, lst, f, st, v, s, it.vals(f, st, v, s.w));
      NextSame(l, x, m, s, it.effect(f, st, v, m.w), it.effect(f, st, v, s.w), it.vals(f, st, v, s.w));
    }
  }

  lemma KeptSame(a: Added, cells: set<Loc>, w: World, w': World, w1: World, w1': World)
    requires WorldSame(a, w, w') && WorldSame(a, w1, w1') && Kept(cells, w, w1) && cells !! a.cells
    ensures Kept(cells, w', w1')
  {
  }

  lemma BodyTail(sem: Sem, l: Loop, s: St, fuel: nat)
    requires |l.ns| == |l.ps|
    ensures ExecOps(sem, l.body + Tail(l), s, fuel) ==
            (match ExecOps(sem, l.body, s, fuel) case Normal(s1) => ExecOps(sem, Tail(l), s1, fuel) case o => o)
  {
    ExecOpsAppend(sem, l.body, Tail(l), s, fuel);
  }

  lemma WhileTurn(sem: Sem, l: Loop, s: St, fuel: nat, s1: St)
    requires l.ps != [] && |l.ns| == |l.ps| && fuel > 0 && ExecOps(sem, Eval(l).ops, s, fuel) == Normal(s1)
    ensures ExecOp(sem, While(l), s, fuel) ==
            if !Test(s1, l.c) then Normal(s1)
            else match ExecOps(sem, l.body + Tail(l), s1, fuel)
              case Normal(s2) => ExecOp(sem, While(l), s2, fuel - 1)
              case o => o
  {
  }

  lemma LoopOver(l: Loop, x: Cells, lf: Loc, lst: Loc, f: Val, st: Val, vals: seq<Val>, m: St, s: St)
    requires NamesApart(l, x) && HeadRel(l, x, lf, lst, f, st, vals, m, s)
    ensures EndSame(Gone(l, x), Normal(m), Normal(s))
  {
    var a, g := Extra(l, x), Gone(l, x);
    BoundAt(m.env, l.ps, x.ps);
    forall y: Name | y !in g.names
      ensures Get(m.env, y) == Get(s.env, y)
    {
      assert y !in a.names && y !in l.ps;
    }
    PutAllSize(m.w, x.ps, vals);
    forall c | 0 <= c < |m.w.heap| && c !in g.cells
      ensures m.w.heap[c] == s.w.heap[c]
    {
      assert c !in x.ps && c !in a.cells;
      PutAllOther(m.w, x.ps, vals, c);
    }
  }

  lemma LeftAlike(l: Loop, x: Cells, o: Out, o': Out)
    requires OutSame(Extra(l, x), o, o') && !o.Normal?
    ensures EndSame(Gone(l, x), o, o') && !o'.Normal?
  {
  }

  /** Either both loops go on, related as before, or they end alike. */
  lemma OneTurn(
      sem: Sem, it: Iterator, l: Loop, x: Cells, lf: Loc, lst: Loc, f: Val, st: Val, vals: seq<Val>, m: St, s: St,
        fuel: nat)
      returns (on: bool, vals1: seq<Val>, m1: St, s1: St)
    requires Proper(sem, it, l, x, lf, lst) && HeadRel(l, x, lf, lst, f, st, vals, m, s) && fuel > 0
    requires TurnSpared(sem, it, {lf, lst}, l, x, f, st, vals, m, fuel)
    ensures var o, o' := Turn(sem, it, l, x, f, st, vals, m, fuel), ExecOp(sem, While(l), s, fuel);
            if on then
              && HeadRel(l, x, lf, lst, f, st, vals1, m1, s1)
              && TurnSpared(sem, it, {lf, lst}, l, x, f, st, vals1, m1, fuel - 1)
              && o == Turn(sem, it, l, x, f, st, vals1, m1, fuel - 1) && o' == ExecOp(sem, While(l), s1, fuel - 1)
            else EndSame(Gone(l, x), o, o')
  {
    on, vals1, m1 := false, vals, m;
    s1 := EvalRuns(sem, it, l, x, lf, lst, f, st, vals, m, s, fuel);
    WhileTurn(sem, l, s, fuel, s1);
    if it.eq(ValAt(vals, 0), Nil) {
      LoopOver(l, x, lf, lst, f, st, vals, m, s1);
    } else {
      BodyTail(sem, l, s1, fuel);
      TurnRuns(sem, it, l, x, lf, lst, f, st, vals, m, s1, fuel);
      var o, o' := ExecOps(sem, l.body, Enter(l, x, m, vals), fuel), ExecOps(sem, l.body, s1, fuel);
      if o.Normal? {
        CallRuns(sem, it, l, x, lf, lst, f, st, ValAt(vals, 0), o.st, o'.st, fuel);
        if it.ending(f, st, ValAt(vals, 0), o.st.w).Goes? {
          on, vals1 := true, it.vals(f, st, ValAt(vals, 0), o.st.w);
          m1, s1 := St(o.st.env, it.effect(f, st, ValAt(vals, 0), o.st.w)), ExecOps(sem, Tail(l), o'.st, fuel).st;
        }
      } else {
        LeftAlike(l, x, o, o');
      }
    }
  }

  lemma {:induction false} LoopRuns(
      sem: Sem, it: Iterator, l: Loop, x: Cells, lf: Loc, lst: Loc, f: Val, st: Val, vals: seq<Val>, m: St, s: St,
        fuel: nat)
    requires Proper(sem, it, l, x, lf, lst) && HeadRel(l, x, lf, lst, f, st, vals, m, s)
    requires TurnSpared(sem, it, {lf, lst}, l, x, f, st, vals, m, fuel)
    ensures EndSame(Gone(l, x), Turn(sem, it, l, x, f, st, vals, m, fuel), ExecOp(sem, While(l), s, fuel))
    decreases fuel
  {
    if fuel > 0 {
      var on, vals1, m1, s1 := OneTurn(sem, it, l, x, lf, lst, f, st, vals, m, s, fuel);
      if on {
        LoopRuns(sem, it, l, x, lf, lst, f, st, vals1, m1, s1, fuel - 1);
      }
    }
  }

  // ----- Before the loop

  /** What the loop finds: the iterator, its state and the control value, in cells that are there. */
  ghost predicate Given(l: Loop, x: Cells, lf: Loc, lst: Loc, f: Val, st: Val, ctl: Val, s: St) {
    && Slots(x, s.w) && Outside(Extra(l, x), s.env)
    && Cell(s, l.f, lf, f) && Cell(s, l.st, lst, st) && Cell(s, l.ctl, x.ctl, ctl)
  }

  lemma NilStep(sem: Sem, l: Loop, cell: Loc, rest: seq<Op>, s: St, fuel: nat)
    requires NilPrim(sem, l.k + 1, cell)
    ensures ExecOps(sem, [NilOp(l)] + rest, s, fuel)
            == ExecOps(sem, rest, St(s.env[l.nil := cell], Put(s.w, cell, Nil)), fuel)
  {
    var locs := Locs(s.env, []);
    assert ([NilOp(l)] + rest)[1..] == rest && [l.nil][..0] == [];
    assert sem.effect(l.k + 1, locs, s.w) == Put(s.w, cell, Nil);
    assert Bind(s.env, [l.nil], i => sem.result(l.k + 1, locs, s.w, i)) == s.env[l.nil := cell];
  }

  lemma OneLeft(sem: Sem, op: Op, s: St, fuel: nat)
    ensures ExecOps(sem, [op], s, fuel) == ExecOp(sem, op, s, fuel)
  {
    assert [op][1..] == [];
    match ExecOp(sem, op, s, fuel) {
      case Normal(s1) => assert ExecOps(sem, [], s1, fuel) == Normal(s1);
      case _ =>
    }
  }

  /** The first call and nil. */
  lemma InitRuns(
      sem: Sem, it: Iterator, l: Loop, x: Cells, lf: Loc, lst: Loc, f: Val, st: Val, ctl: Val, s: St, fuel: nat)
    requires Proper(sem, it, l, x, lf, lst) && Given(l, x, lf, lst, f, st, ctl, s)
    ensures var o := ExecOps(sem, LoweredOps(l), s, fuel);
            match it.ending(f, st, ctl, s.w)
            case Fails => o == Stuck
            case Hangs => o == Timeout
            case Goes =>
              var vals, w := it.vals(f, st, ctl, s.w), it.effect(f, st, ctl, s.w);
              var s2 := St(BindAll(s.env, l.ps, x.ps)[l.nil := x.nil], Put(PutAll(w, x.ps, vals), x.nil, Nil));
              o == ExecOp(sem, While(l), s2, fuel)
  {
    CallStep(sem, it, l.k, x.ps, l.ps, l.f, l.st, l.ctl, s, fuel);
    assert LoweredOps(l)[1..] == [NilOp(l)] + [While(l)];
    if it.ending(f, st, ctl, s.w).Goes? {
      var vals, w := it.vals(f, st, ctl, s.w), it.effect(f, st, ctl, s.w);
      var s1 := St(BindAll(s.env, l.ps, x.ps), PutAll(w, x.ps, vals));
      NilStep(sem, l, x.nil, [While(l)], s1, fuel);
      OneLeft(sem, While(l), St(s1.env[l.nil := x.nil], Put(s1.w, x.nil, Nil)), fuel);
    }
  }

  lemma InitHead(
      sem: Sem, it: Iterator, l: Loop, x: Cells, lf: Loc, lst: Loc, f: Val, st: Val, ctl: Val, s: St)
    requires Proper(sem, it, l, x, lf, lst) && Given(l, x, lf, lst, f, st, ctl, s)
    requires Kept({lf, lst}, s.w, it.effect(f, st, ctl, s.w))
    ensures var vals, w := it.vals(f, st, ctl, s.w), it.effect(f, st, ctl, s.w);
            var s2 := St(BindAll(s.env, l.ps, x.ps)[l.nil := x.nil], Put(PutAll(w, x.ps, vals), x.nil, Nil));
            HeadRel(l, x, lf, lst, f, st, vals, St(s.env, w), s2)
  {
    var vals, w := it.vals(f, st, ctl, s.w), it.effect(f, st, ctl, s.w);
    var a := Extra(l, x);
    var s1 := St(BindAll(s.env, l.ps, x.ps), PutAll(w, x.ps, vals));
    var s2 := St(s1.env[l.nil := x.nil], Put(s1.w, x.nil, Nil));
    WorldSelf(a, s.w);
    assert Kept(a.cells + {lf, lst}, s.w, w);
    SlotParts(l, x, s.w);
    BoundAt(s.env, l.ps, x.ps);
    PsApart(l, x);
    PutAllSize(w, x.ps, vals);
    SlotsKept(x, s.w, s2.w, {});
    StartCell(l, x, a, lf, lst, s, s2, w, vals, l.f, lf, f);
    StartCell(l, x, a, lf, lst, s, s2, w, vals, l.st, lst, st);
    NextEnvStart(l, x, s);
    WorldSelf(a, s1.w);
    PutSame(a, s1.w, s1.w, x.nil, Nil);
  }

  lemma PsApart(l: Loop, x: Cells)
    requires NamesApart(l, x)
    ensures l.nil !in l.ps && l.ctl !in l.ps && l.f != l.nil && l.st != l.nil
  {
    assert forall i :: 0 <= i < |l.ps| ==> l.ps[i] in SeqNames(l.ps);
    assert l.nil in Extra(l, x).names && l.ctl in Extra(l, x).names;
  }

  lemma StartCell(
      l: Loop, x: Cells, a: Added, lf: Loc, lst: Loc, s: St, s2: St, w: World, vals: seq<Val>, y: Name, c: Loc, v: Val)
    requires a == Extra(l, x) && CellsApart(x, a, lf, lst) && c in {lf, lst}
    requires Kept(a.cells + {lf, lst}, s.w, w) && s2.w == Put(PutAll(w, x.ps, vals), x.nil, Nil)
    requires Cell(s, y, c, v) && Get(s2.env, y) == Get(s.env, y)
    ensures Cell(s2, y, c, v)
  {
    assert c !in x.ps && c != x.nil by {
      assert forall i :: 0 <= i < |x.ps| ==> x.ps[i] in SeqNames(x.ps);
      assert x.nil in a.cells;
    }
    PutAllOther(w, x.ps, vals, c);
    PutAllSize(w, x.ps, vals);
    assert Read(w, c) == Read(s.w, c);
  }

  lemma NextEnvStart(l: Loop, x: Cells, s: St)
    requires NamesApart(l, x) && Slots(x, s.w) && Outside(Extra(l, x), s.env)
    ensures Outside(Extra(l, x), BindAll(s.env, l.ps, x.ps))
  {
    var a, e := Extra(l, x), BindAll(s.env, l.ps, x.ps);
    BoundAt(s.env, l.ps, x.ps);
    SlotParts(l, x, s.w);
    forall y: Name | y !in a.names
      ensures Get(e, y) !in a.cells
    {
      if y in l.ps {
        var i :| 0 <= i < |l.ps| && l.ps[i] == y;
        assert Get(e, l.ps[i]) == x.ps[i] && x.ps[i] in SeqNames(x.ps);
      }
    }
  }

  /** For every iterator, every body and every state: the ops that the pattern builds make the calls of
      the manual's loop with the same control values, run the body with the same values, and end in the
      same way, however the body assigns its loop variables, and whether or not a call comes back, as
      long as nothing on this run writes the cells of the iterator and its state. */
  lemma GenericForCorrect(
      sem: Sem, it: Iterator, l: Loop, x: Cells, lf: Loc, lst: Loc, f: Val, st: Val, ctl: Val, s: St, fuel: nat)
    requires Proper(sem, it, l, x, lf, lst) && Given(l, x, lf, lst, f, st, ctl, s)
    requires Spared(sem, it, {lf, lst}, l, x, f, st, ctl, s, fuel)
    ensures EndSame(Gone(l, x), Manual(sem, it, l, x, f, st, ctl, s, fuel), ExecOps(sem, LoweredOps(l), s, fuel))
  {
    InitRuns(sem, it, l, x, lf, lst, f, st, ctl, s, fuel);
    if it.ending(f, st, ctl, s.w).Goes? {
      var vals, w := it.vals(f, st, ctl, s.w), it.effect(f, st, ctl, s.w);
      var s2 := St(BindAll(s.env, l.ps, x.ps)[l.nil := x.nil], Put(PutAll(w, x.ps, vals), x.nil, Nil));
      InitHead(sem, it, l, x, lf, lst, f, st, ctl, s);
      LoopRuns(sem, it, l, x, lf, lst, f, st, vals, St(s.env, w), s2, fuel);
    }
  }
}
