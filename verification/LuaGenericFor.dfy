/** The generic `for` over cells: the rotated loop that the pattern builds, run as ops of the dialect,
    against the loop of section 3.3.5 of the Lua 5.3 Reference Manual, with any iterator and any code
    as the body. */
module LuaGenericFor {
  import opened LuaIr
  import opened LuaClone
  import opened LuaCells

  /** `ps` are the loop variables, which the body may assign; `f`, `st` and `ctl` name the cells of the
      iterator, its state and the control value.  The added ops have kinds `k` to `k + 5` and define
      `nil`, `c` and the next values `ns`, one for each loop variable. */
  datatype Loop = Loop(
    ps: seq<Name>, f: Name, st: Name, ctl: Name, body: seq<Op>, k: nat, nil: Name, c: Name, ns: seq<Name>)

  // ----- The ops of the pattern

  /** Packing the arguments, calling the iterator and unpacking its results, before the loop. */
  function FirstCall(l: Loop): Op { Prim(l.k, l.ps, [l.f, l.st, l.ctl]) }

  function NilOp(l: Loop): Op { Prim(l.k + 1, [l.nil], []) }

  function CopyOp(l: Loop, tgt: Name, src: Name): Op { Prim(l.k + 2, [], [tgt, src]) }

  /** The first result becomes the control value, which is compared with nil. */
  function Eval(l: Loop): Block
    requires l.ps != []
  {
    Block([CopyOp(l, l.ctl, l.ps[0]), Prim(l.k + 3, [l.c], [l.ctl, l.nil])], Cond(l.c))
  }

  /** The same call at the end of a turn. */
  function NextCall(l: Loop): Op { Prim(l.k + 4, l.ns, [l.f, l.st, l.ctl]) }

  /** The fresh results are copied into the cells of the loop variables. */
  function Copies(l: Loop, i: nat): seq<Op>
    requires |l.ns| == |l.ps| && i <= |l.ps|
    decreases |l.ps| - i
  {
    if i == |l.ps| then [] else [CopyOp(l, l.ps[i], l.ns[i])] + Copies(l, i + 1)
  }

  function Tail(l: Loop): seq<Op>
    requires |l.ns| == |l.ps|
  {
    [NextCall(l)] + Copies(l, 0)
  }

  function While(l: Loop): Op
    requires l.ps != [] && |l.ns| == |l.ps|
  {
    LoopWhile(Eval(l), Block(l.body + Tail(l), End))
  }

  function LoweredOps(l: Loop): seq<Op>
    requires l.ps != [] && |l.ns| == |l.ps|
  {
    [FirstCall(l), NilOp(l), While(l)]
  }

  // ----- What they do

  /** `lua.unpack` yields nil past the last value. */
  function ValAt(vals: seq<Val>, i: nat): Val { if i < |vals| then vals[i] else Nil }

  function PutAll(w: World, ls: seq<Loc>, vals: seq<Val>): World
    decreases |ls|
  {
    if ls == [] then w
    else var n := |ls| - 1; Put(PutAll(w, ls[..n], vals), ls[n], ValAt(vals, n))
  }

  function BindAll(env: map<Name, Loc>, xs: seq<Name>, ls: seq<Loc>): map<Name, Loc>
    requires |xs| == |ls|
  {
    Bind(env, xs, i => if 0 <= i < |ls| then ls[i] else 0)
  }

  /** What the iterator does when it is called with its state and a control value: whether it comes
      back, the world it leaves and the values it returns; and when two values count as equal. */
  datatype Iterator = Iterator(
    ending: (Val, Val, Val, World) -> Ending,
    effect: (Val, Val, Val, World) -> World,
    vals: (Val, Val, Val, World) -> seq<Val>,
    eq: (Val, Val) -> bool)

  /** The cells of the values the loop works with: the loop variables, the next values, nil, the result
      of the test, and the control value. */
  datatype Cells = Cells(ps: seq<Loc>, ns: seq<Loc>, nil: Loc, c: Loc, ctl: Loc)

  ghost predicate CallPrim(sem: Sem, it: Iterator, kind: nat, ls: seq<Loc>) {
    forall locs, w ::
      var f, st, ctl := Read(w, Arg(locs, 0)), Read(w, Arg(locs, 1)), Read(w, Arg(locs, 2));
      && sem.ending(kind, locs, w) == it.ending(f, st, ctl, w)
      && (forall i :: 0 <= i < |ls| ==> sem.result(kind, locs, w, i) == ls[i])
      && sem.effect(kind, locs, w) == PutAll(it.effect(f, st, ctl, w), ls, it.vals(f, st, ctl, w))
  }

  ghost predicate NilPrim(sem: Sem, kind: nat, cell: Loc) {
    forall locs, w ::
      && sem.ending(kind, locs, w) == Goes && sem.result(kind, locs, w, 0) == cell
      && sem.effect(kind, locs, w) == Put(w, cell, Nil)
  }

  ghost predicate CopyPrim(sem: Sem, kind: nat) {
    forall locs, w ::
      sem.ending(kind, locs, w) == Goes && sem.effect(kind, locs, w) == Put(w, Arg(locs, 0), Read(w, Arg(locs, 1)))
  }

  ghost predicate NePrim(sem: Sem, it: Iterator, kind: nat, cell: Loc) {
    forall locs, w ::
      && sem.ending(kind, locs, w) == Goes && sem.result(kind, locs, w, 0) == cell
      && sem.effect(kind, locs, w) == Put(w, cell, Bool(!it.eq(Read(w, Arg(locs, 0)), Read(w, Arg(locs, 1)))))
  }

  ghost predicate Machine(sem: Sem, it: Iterator, k: nat, x: Cells) {
    && CallPrim(sem, it, k, x.ps) && NilPrim(sem, k + 1, x.nil) && CopyPrim(sem, k + 2)
    && NePrim(sem, it, k + 3, x.c) && CallPrim(sem, it, k + 4, x.ns)
  }

  /** What belongs to the loop alone.  The control value is among it, as it is in the manual. */
  function Extra(l: Loop, x: Cells): Added {
    Added({l.nil, l.c, l.ctl} + SeqNames(l.ns), {x.nil, x.c, x.ctl} + SeqNames(x.ns))
  }

  predicate Distinct(ls: seq<Loc>) { forall i, j :: 0 <= i < j < |ls| ==> ls[i] != ls[j] }

  predicate Slots(x: Cells, w: World) {
    && Distinct(x.ps + x.ns + [x.nil, x.c, x.ctl])
    && forall l :: l in x.ps + x.ns + [x.nil, x.c, x.ctl] ==> l < |w.heap|
  }

  // ----- The loop of the manual

  function Enter(l: Loop, x: Cells, m: St, vals: seq<Val>): St
    requires |l.ps| == |x.ps|
  {
    St(BindAll(m.env, l.ps, x.ps), PutAll(m.w, x.ps, vals))
  }

  /** Calls the iterator with the control value; `f`, `st` are evaluated once, before the loop. */
  function Manual(sem: Sem, it: Iterator, l: Loop, x: Cells, f: Val, st: Val, ctl: Val, m: St, fuel: nat): Out
    requires |l.ps| == |x.ps|
    decreases fuel, 1
  {
    match it.ending(f, st, ctl, m.w)
    case Fails => Stuck
    case Hangs => Timeout
    case Goes => Turn(sem, it, l, x, f, st, it.vals(f, st, ctl, m.w), St(m.env, it.effect(f, st, ctl, m.w)), fuel)
  }

  /** Leaves when the first value is nil; otherwise that value is the next control value, and the body
      runs with the values in the loop variables. */
  function Turn(sem: Sem, it: Iterator, l: Loop, x: Cells, f: Val, st: Val, vals: seq<Val>, m: St, fuel: nat): Out
    requires |l.ps| == |x.ps|
    decreases fuel, 0
  {
    if fuel == 0 then Timeout
    else if it.eq(ValAt(vals, 0), Nil) then Normal(m)
    else match ExecOps(sem, l.body, Enter(l, x, m, vals), fuel)
      case Normal(m1) => Manual(sem, it, l, x, f, st, ValAt(vals, 0), m1, fuel - 1)
      case o => o
  }

  // ----- Writing several cells

  lemma {:induction false} PutAllSize(w: World, ls: seq<Loc>, vals: seq<Val>)
    ensures |PutAll(w, ls, vals).heap| == |w.heap| && PutAll(w, ls, vals).out == w.out
    decreases |ls|
  {
    if ls != [] {
      PutAllSize(w, ls[..|ls| - 1], vals);
    }
  }

  lemma {:induction false} PutAllOther(w: World, ls: seq<Loc>, vals: seq<Val>, c: Loc)
    requires c !in ls
    ensures Read(PutAll(w, ls, vals), c) == Read(w, c)
    decreases |ls|
  {
    if ls != [] {
      PutAllOther(w, ls[..|ls| - 1], vals, c);
      PutAllSize(w, ls[..|ls| - 1], vals);
    }
  }

  lemma {:induction false} PutAllAt(w: World, ls: seq<Loc>, vals: seq<Val>, i: nat)
    requires Distinct(ls) && i < |ls| && ls[i] < |w.heap|
    ensures Read(PutAll(w, ls, vals), ls[i]) == ValAt(vals, i)
    decreases |ls|
  {
    var n := |ls| - 1;
    PutAllSize(w, ls[..n], vals);
    if i < n {
      PutAllAt(w, ls[..n], vals, i);
      assert ls[i] != ls[n];
    }
  }

  lemma PutSame(a: Added, w: World, w': World, c: Loc, v: Val)
    requires WorldSame(a, w, w')
    ensures WorldSame(a, Put(w, c, v), Put(w', c, v))
    ensures c in a.cells ==> WorldSame(a, w, Put(w', c, v))
  {
  }

  lemma {:induction false} PutAllSame(a: Added, w: World, w': World, ls: seq<Loc>, vals: seq<Val>)
    requires WorldSame(a, w, w')
    ensures WorldSame(a, PutAll(w, ls, vals), PutAll(w', ls, vals))
    ensures SeqNames(ls) <= a.cells ==> WorldSame(a, w, PutAll(w', ls, vals))
    decreases |ls|
  {
    if ls != [] {
      var n := |ls| - 1;
      PutAllSame(a, w, w', ls[..n], vals);
      assert ls[n] in SeqNames(ls) && SeqNames(ls[..n]) <= SeqNames(ls);
      PutSame(a, PutAll(w, ls[..n], vals), PutAll(w', ls[..n], vals), ls[n], ValAt(vals, n));
      if SeqNames(ls) <= a.cells {
        PutSame(a, w, PutAll(w', ls[..n], vals), ls[n], ValAt(vals, n));
      }
    }
  }

  lemma {:induction false} BoundAt(env: map<Name, Loc>, xs: seq<Name>, ls: seq<Loc>)
    requires |xs| == |ls| && Distinct(xs)
    ensures forall i :: 0 <= i < |xs| ==> Get(BindAll(env, xs, ls), xs[i]) == ls[i]
    ensures forall y: Name :: y !in xs ==> Get(BindAll(env, xs, ls), y) == Get(env, y)
    decreases |xs|
  {
    if xs != [] {
      var n := |xs| - 1;
      BoundAt(env, xs[..n], ls[..n]);
      BindFirst(env, xs[..n], i => if 0 <= i < |ls[..n]| then ls[..n][i] else 0,
        i => if 0 <= i < |ls| then ls[i] else 0);
    }
  }

  lemma {:induction false} BindFirst(env: map<Name, Loc>, xs: seq<Name>, r: nat -> Loc, r': nat -> Loc)
    requires forall i: nat :: i < |xs| ==> r(i) == r'(i)
    ensures Bind(env, xs, r) == Bind(env, xs, r')
    decreases |xs|
  {
    if xs != [] {
      BindFirst(env, xs[..|xs| - 1], r, r');
    }
  }
}
