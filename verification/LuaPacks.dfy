/** Argument and return packs. */
module LuaPacks {
  // In the lowered code all argument packs live in one global buffer and all return packs in another.
  // `LuaCalls` says what calls mean without packs; for every program whose returns do not list values
  // in front of a call's results, sharing the two buffers is invisible.

  import opened LuaCalls

  // ----- Pack memory

  datatype Buf = Arg | Ret
  datatype PackMem = PackMem(arg: seq<Val>, ret: seq<Val>)
  datatype Pack = Pack(buf: Buf, size: nat)

  function Buffer(m: PackMem, b: Buf): seq<Val> { if b == Arg then m.arg else m.ret }

  ghost predicate ValidMem(m: PackMem) { |m.arg| == CAPACITY && |m.ret| == CAPACITY }

  function Store(m: PackMem, b: Buf, i: nat, v: Val): PackMem
    requires i < |Buffer(m, b)|
  {
    if b == Arg then m.(arg := m.arg[i := v]) else m.(ret := m.ret[i := v])
  }

  /** `luac.pack_insert` of each value, from index 0. */
  function InsertVals(m: PackMem, b: Buf, vs: seq<Val>): (r: PackMem)
    requires ValidMem(m) && |vs| <= CAPACITY
    ensures ValidMem(r)
  {
    if vs == [] then m
    else Store(InsertVals(m, b, vs[..|vs| - 1]), b, |vs| - 1, vs[|vs| - 1])
  }

  /** `lua_pack_insert_all`: copies element 0, 1, ... of one buffer behind index `idx` of another,
      reading each element only when its turn comes. */
  function InsertAll(m: PackMem, b: Buf, from: Buf, idx: nat, n: nat): (r: PackMem)
    requires ValidMem(m) && idx + n <= CAPACITY
    ensures ValidMem(r)
  {
    if n == 0 then m
    else
      var m1 := InsertAll(m, b, from, idx, n - 1);
      Store(m1, b, idx + n - 1, Buffer(m1, from)[n - 1])
  }

  /** `lua_pack_get`: nil past the end. */
  function PackGet(m: PackMem, p: Pack, i: nat): Val {
    if i < p.size && i < |Buffer(m, p.buf)| then Buffer(m, p.buf)[i] else Nil
  }

  /** `lua.unpack` of `n` values; nil for all of them if there is no pack. */
  function Unpacked(m: PackMem, p: Option<Pack>, n: nat): (r: seq<Val>)
    ensures |r| == n
  {
    seq(n, i requires 0 <= i < n => if p.Some? then PackGet(m, p.value, i) else Nil)
  }

  /** `lua.concat` into buffer `b`: the values, then the tail pack. */
  function Build(m: PackMem, b: Buf, vs: seq<Val>, tail: Option<Pack>): (r: R<(Pack, PackMem)>)
    requires ValidMem(m)
    ensures r.Ok? ==> ValidMem(r.v.1)
  {
    var size := |vs| + (if tail.None? then 0 else tail.value.size);
    if size > CAPACITY then TooBig
    else
      var m1 := InsertVals(m, b, vs);
      Ok((Pack(b, size), if tail.None? then m1 else InsertAll(m1, b, tail.value.buf, |vs|, tail.value.size)))
  }

  // ----- The interpreter

  datatype St = St(heap: Heap, m: PackMem)
  datatype Flow = Next(env: Env, st: St) | Returned(pack: Pack, st: St)

  ghost predicate ValidSt(s: St) { ValidMem(s.m) }

  function NewCell(s: St, v: Val): (Loc, St) { (|s.heap|, s.(heap := s.heap + [v])) }

  function BindAll(env: Env, xs: seq<Var>, first: Loc): Env
    decreases xs
  {
    if xs == [] then env else BindAll(env[xs[0] := first], xs[1..], first + 1)
  }

  /** Function entry: the captured cells, then `lua.unpack` of the argument pack into new cells. */
  function Enter(f: Fun, caps: seq<Loc>, p: Pack, s: St): (Env, St) {
    (BindAll(BindCaps(map[], f.caps, caps), f.params, |s.heap|),
     s.(heap := s.heap + Unpacked(s.m, Some(p), |f.params|)))
  }

  function EvalExp(p: Program, prim: Prim, e: Exp, env: Env, s: St, fuel: nat): (r: R<(Loc, St)>)
    requires ValidSt(s)
    ensures r.Ok? ==> ValidSt(r.v.1)
    decreases fuel, 1, e, 1
  {
    match e
    case Const(v) => Ok(NewCell(s, v))
    case Var(x) => Ok((CellOf(env, x), s))
    case Op(kind, args) =>
      var (ls, s1) :- EvalExps(p, prim, args, env, s, fuel);
      Ok(NewCell(s1, prim(kind, ReadAll(s1.heap, ls))))
    case MakeFcn(f, caps) =>
      Ok(NewCell(s, Clo(f, Cells(env, caps))))
    case First(c) =>
      var (pk, s1) :- EvalCall(p, prim, c, env, s, fuel);
      Ok(NewCell(s1, PackGet(s1.m, pk, 0)))
  }

  function EvalExps(p: Program, prim: Prim, es: seq<Exp>, env: Env, s: St, fuel: nat): (r: R<(seq<Loc>, St)>)
    requires ValidSt(s)
    ensures r.Ok? ==> ValidSt(r.v.1)
    decreases fuel, 1, es, 0
  {
    if es == [] then Ok(([], s))
    else
      var (l, s1) :- EvalExp(p, prim, es[0], env, s, fuel);
      var (ls, s2) :- EvalExps(p, prim, es[1..], env, s1, fuel);
      Ok(([l] + ls, s2))
  }

  /** The cells of the listed values and the results of the tail call; nothing is built yet. */
  function EvalList(p: Program, prim: Prim, l: ExpList, env: Env, s: St,
      fuel: nat): (r: R<(seq<Loc>, Option<Pack>, St)>)
    requires ValidSt(s)
    ensures r.Ok? ==> ValidSt(r.v.2)
    decreases fuel, 1, l, 1
  {
    var (ls, s1) :- EvalExps(p, prim, l.vals, env, s, fuel);
    match l.tail
    case None => Ok((ls, None, s1))
    case Some(c) =>
      var (pk, s2) :- EvalCall(p, prim, c, env, s1, fuel);
      Ok((ls, Some(pk), s2))
  }

  function EvalCall(p: Program, prim: Prim, c: Call, env: Env, s: St, fuel: nat): (r: R<(Pack, St)>)
    requires ValidSt(s)
    ensures r.Ok? ==> ValidSt(r.v.1)
    decreases fuel, 1, c, 1
  {
    var (lf, s1) :- EvalExp(p, prim, c.fcn, env, s, fuel);
    var (ls, tail, s2) :- EvalList(p, prim, c.args, env, s1, fuel);
    // a concat of nothing but a tail is the tail
    if ls == [] && tail.Some? then CallWith(p, prim, lf, tail.value, s2, fuel)
    else
      var (pk, m) :- Build(s2.m, Arg, ReadAll(s2.heap, ls), tail);
      CallWith(p, prim, lf, pk, s2.(m := m), fuel)
  }

  function CallWith(p: Program, prim: Prim, lf: Loc, pk: Pack, s: St, fuel: nat): (r: R<(Pack, St)>)
    requires ValidSt(s)
    ensures r.Ok? ==> ValidSt(r.v.1)
    decreases fuel, 0
  {
    match Read(s.heap, lf)
    case Clo(f, caps) =>
      if f !in p then Stuck
      else if fuel == 0 then Timeout
      else
        var (env, s1) := Enter(p[f], caps, pk, s);
        var flow :- ExecStats(p, prim, p[f].body, env, s1, fuel - 1);
        Ok(Result(flow))
    case _ => Stuck
  }

  /** What the caller gets: the returned pack, or an empty one if the body ends without `return`. */
  function Result(flow: Flow): (r: (Pack, St))
    requires ValidSt(flow.st)
    ensures ValidSt(r.1)
  {
    match flow
    case Returned(pk, s) => (pk, s)
    case Next(_, s) => (var (pk, m) := Build(s.m, Ret, [], None).v; (pk, s.(m := m)))
  }

  function ExecStats(p: Program, prim: Prim, ss: seq<Stat>, env: Env, s: St, fuel: nat): (r: R<Flow>)
    requires ValidSt(s)
    ensures r.Ok? ==> ValidSt(r.v.st)
    decreases fuel, 1, ss, 0
  {
    if ss == [] then Ok(Next(env, s))
    else
      var flow :- ExecStat(p, prim, ss[0], env, s, fuel);
      match flow
      case Next(env1, s1) => ExecStats(p, prim, ss[1..], env1, s1, fuel)
      case _ => Ok(flow)
  }

  function ExecStat(p: Program, prim: Prim, st: Stat, env: Env, s: St, fuel: nat): (r: R<Flow>)
    requires ValidSt(s)
    ensures r.Ok? ==> ValidSt(r.v.st)
    decreases fuel, 1, st, 1
  {
    match st
    case Local(x) =>
      var (l, s1) := NewCell(s, Nil);
      Ok(Next(env[x := l], s1))
    case Assign(xs, rhs) =>
      var (ls, tail, s1) :- EvalList(p, prim, rhs, env, s, fuel);
      Ok(Next(env, Distribute(env, xs, ls, tail, s1)))
    case CallStat(c) =>
      var (_, s1) :- EvalCall(p, prim, c, env, s, fuel);
      Ok(Next(env, s1))
    case If(c, thn, els) =>
      var (l, s1) :- EvalExp(p, prim, c, env, s, fuel);
      var flow :- ExecStats(p, prim, if Truthy(Read(s1.heap, l)) then thn else els, env, s1, fuel);
      Ok(if flow.Next? then Next(env, flow.st) else flow)
    case While(c, body) =>
      var (l, s1) :- EvalExp(p, prim, c, env, s, fuel);
      if !Truthy(Read(s1.heap, l)) then Ok(Next(env, s1))
      else if fuel == 0 then Timeout
      else
        var flow :- ExecStats(p, prim, body, env, s1, fuel);
        if flow.Next? then ExecStat(p, prim, st, env, flow.st, fuel - 1) else Ok(flow)
    case Return(rets) =>
      var (ls, tail, s1) :- EvalList(p, prim, rets, env, s, fuel);
      var (pk, m) :- Build(s1.m, Ret, ReadAll(s1.heap, ls), tail);
      Ok(Returned(pk, s1.(m := m)))
  }

  /** Multiple assignment: `lua.unpack` of a `lua.concat` takes the listed cells themselves, then
      reads the tail pack into new cells (nil past its end), and every target is copied to. */
  function Distribute(env: Env, xs: seq<Var>, ls: seq<Loc>, tail: Option<Pack>, s: St): St {
    var n := if |ls| < |xs| then |ls| else |xs|;
    var more := Unpacked(s.m, tail, |xs| - n);
    var srcs := ls[..n] + CellsFrom(|s.heap|, |xs| - n);
    s.(heap := CopyAll(s.heap + more, Cells(env, xs), srcs))
  }

  // ----- What packs hold

  /** Pack `q` holds the values `vs`. */
  ghost predicate Holds(m: PackMem, q: Pack, vs: seq<Val>) {
    q.size <= |Buffer(m, q.buf)| && Buffer(m, q.buf)[..q.size] == vs
  }

  ghost predicate StRel(h: Heap, t: St) { h == t.heap && ValidMem(t.m) }

  /** Same failure, or results that the pack holds in the return buffer. */
  ghost predicate CallRel(r: R<(seq<Val>, Heap)>, q: R<(Pack, St)>) {
    if r.Ok? then q.Ok? && StRel(r.v.1, q.v.1) && Holds(q.v.1.m, q.v.0, r.v.0) && q.v.0.buf == Ret
    else q == r.PropagateFailure()
  }

  /** The values of a tail: all that its pack holds. */
  ghost predicate TailRel(more: seq<Val>, m: PackMem, tail: Option<Pack>) {
    if tail.None? then more == [] else Holds(m, tail.value, more) && tail.value.buf == Ret
  }

  ghost predicate ListRel(r: R<(seq<Loc>, seq<Val>, Heap)>, q: R<(seq<Loc>, Option<Pack>, St)>) {
    if r.Ok? then q.Ok? && q.v.0 == r.v.0 && StRel(r.v.2, q.v.2) && TailRel(r.v.1, q.v.2.m, q.v.1)
    else q == r.PropagateFailure()
  }

  ghost predicate ExpRel<T>(r: R<(T, Heap)>, q: R<(T, St)>) {
    if r.Ok? then q.Ok? && q.v.0 == r.v.0 && StRel(r.v.1, q.v.1) else q == r.PropagateFailure()
  }

  ghost predicate FlowRel(r: R<End>, q: R<Flow>) {
    if r.Ok? then
      q.Ok? && StRel(r.v.heap, q.v.st) && (match r.v
                case Went(env, _) => q.v.Next? && q.v.env == env
                case Gave(vs, _) => q.v.Returned? && Holds(q.v.st.m, q.v.pack, vs) && q.v.pack.buf == Ret)
    else q == r.PropagateFailure()
  }

  /** `return a, b, g()` is the one form that overwrites a pack it has still to read. */
  predicate PlainReturns(ss: seq<Stat>)
    decreases ss, 0
  {
    ss == [] || (PlainReturn(ss[0]) && PlainReturns(ss[1..]))
  }

  predicate PlainReturn(st: Stat)
    decreases st, 1
  {
    match st
    case If(_, thn, els) => PlainReturns(thn) && PlainReturns(els)
    case While(_, body) => PlainReturns(body)
    case Return(rets) => rets.vals == [] || rets.tail.None?
    case _ => true
  }

  ghost predicate PlainProgram(p: Program) { forall f :: f in p ==> PlainReturns(p[f].body) }

  // ----- Building a pack

  lemma {:induction false} InsertValsHas(m: PackMem, b: Buf, vs: seq<Val>)
    requires ValidMem(m) && |vs| <= CAPACITY
    ensures var r := InsertVals(m, b, vs);
            && Buffer(r, b)[..|vs|] == vs && Buffer(r, b)[|vs|..] == Buffer(m, b)[|vs|..]
            && (b == Arg ==> r.ret == m.ret) && (b == Ret ==> r.arg == m.arg)
    decreases |vs|
  {
    if vs != [] {
      var n := |vs| - 1;
      InsertValsHas(m, b, vs[..n]);
      assert vs == vs[..n] + [vs[n]];
    }
  }

  lemma {:induction false} InsertAllApart(m: PackMem, b: Buf, from: Buf, idx: nat, n: nat)
    requires ValidMem(m) && idx + n <= CAPACITY && b != from
    ensures var r := InsertAll(m, b, from, idx, n);
            && Buffer(r, from) == Buffer(m, from)
            && Buffer(r, b)[..idx] == Buffer(m, b)[..idx]
            && Buffer(r, b)[idx..idx + n] == Buffer(m, from)[..n]
    decreases n
  {
    if n > 0 {
      InsertAllApart(m, b, from, idx, n - 1);
      var r0, r := InsertAll(m, b, from, idx, n - 1), InsertAll(m, b, from, idx, n);
      var v := Buffer(m, from)[n - 1];
      hide InsertAll;
      assert Buffer(r, from) == Buffer(r0, from) && Buffer(r, b) == Buffer(r0, b)[idx + n - 1 := v];
      assert Buffer(r, b)[idx..idx + n] == Buffer(r0, b)[idx..idx + n - 1] + [v];
      assert Buffer(m, from)[..n] == Buffer(m, from)[..n - 1] + [v];
    }
  }

  lemma {:induction false} InsertAllSelf(m: PackMem, b: Buf, n: nat)
    requires ValidMem(m) && n <= CAPACITY
    ensures InsertAll(m, b, b, 0, n) == m
    decreases n
  {
    if n > 0 {
      InsertAllSelf(m, b, n - 1);
    }
  }

  /** The position of index `i` when `k` values repeat for ever. */
  function Wrap(i: nat, k: nat): (r: nat)
    requires k > 0
    ensures r < k
  {
    if i < k then i else Wrap(i - k, k)
  }

  /** `return v1, ..., vk, g()`: the listed values overwrite the start of g's results before these
      are copied, so the listed values repeat. */
  lemma {:induction false} InsertAllOverlap(m: PackMem, vs: seq<Val>, n: nat)
    requires ValidMem(m) && |vs| > 0 && |vs| + n <= CAPACITY
    ensures var r := InsertAll(InsertVals(m, Ret, vs), Ret, Ret, |vs|, n);
            forall j :: 0 <= j < |vs| + n ==> r.ret[j] == vs[Wrap(j, |vs|)]
    decreases n
  {
    var k, m0 := |vs|, InsertVals(m, Ret, vs);
    InsertValsHas(m, Ret, vs);
    if n == 0 {
      forall j | 0 <= j < k ensures m0.ret[j] == vs[Wrap(j, k)] {
        assert m0.ret[..k][j] == vs[j];
      }
    } else {
      hide InsertVals;
      InsertAllOverlap(m, vs, n - 1);
      assert Wrap(k + n - 1, k) == Wrap(n - 1, k);
    }
  }

  /** A pack is built with the values it is meant to hold, except for listed values with a tail in one
      buffer, and only too many values fail. */
  lemma BuildExact(t: PackMem, b: Buf, vs: seq<Val>, more: seq<Val>, q: Option<Pack>)
    requires ValidMem(t) && TailRel(more, t, q)
    requires b == Ret ==> vs == [] || q.None?
    ensures var r := Build(t, b, vs, q);
            if |vs + more| <= CAPACITY then r.Ok? && Holds(r.v.1, r.v.0, vs + more) && r.v.0.buf == b
            else r == TooBig
  {
    hide InsertVals, InsertAll;
    if |vs + more| <= CAPACITY {
      InsertValsHas(t, b, vs);
      var t1 := InsertVals(t, b, vs);
      if q.Some? {
        var n := q.value.size;
        if b == Arg {
          InsertAllApart(t1, Arg, Ret, |vs|, n);
          var t2 := InsertAll(t1, Arg, Ret, |vs|, n);
          assert t2.arg[..|vs| + n] == t2.arg[..|vs|] + t2.arg[|vs|..|vs| + n];
          assert t2.arg[..|vs|] == t1.arg[..|vs|];
        } else {
          InsertAllSelf(t1, Ret, n);
          assert more == vs + more;
        }
      } else {
        assert vs == vs + more;
      }
    }
  }

  /** The buffer when `ret` holds the repeated values, against the values that were meant. */
  lemma RepeatedExact(ret: seq<Val>, vs: seq<Val>, tail: seq<Val>)
    requires |vs| > 0 && |vs| + |tail| <= |ret|
    requires forall j :: 0 <= j < |vs| + |tail| ==> ret[j] == vs[Wrap(j, |vs|)]
    ensures ret[..|vs| + |tail|] == vs + tail <==> forall i :: 0 <= i < |tail| ==> tail[i] == vs[Wrap(i, |vs|)]
  {
    var k, n, got := |vs|, |tail|, ret[..|vs| + |tail|];
    forall i | 0 <= i < n ensures got[k + i] == vs[Wrap(i, k)] && (vs + tail)[k + i] == tail[i] {
      assert Wrap(k + i, k) == Wrap(i, k);
    }
    if forall i :: 0 <= i < n ==> tail[i] == vs[Wrap(i, k)] {
      forall j | 0 <= j < k + n ensures got[j] == (vs + tail)[j] {
        if j >= k {
          assert got[k + (j - k)] == vs[Wrap(j - k, k)];
        }
      }
    }
  }

  /** Exactly when a return of listed values and a call's results yields the right pack. */
  lemma MixedReturnExact(t: PackMem, vs: seq<Val>, more: seq<Val>, q: Pack)
    requires ValidMem(t) && TailRel(more, t, Some(q)) && |vs| + q.size <= CAPACITY
    ensures var (r, t') := Build(t, Ret, vs, Some(q)).v;
            Holds(t', r, vs + more) <==> |vs| == 0 || forall i :: 0 <= i < q.size ==> more[i] == vs[Wrap(i, |vs|)]
  {
    if |vs| == 0 {
      BuildExact(t, Ret, vs, more, Some(q));
    } else {
      MixedReturn(t, vs, more, q);
    }
  }

  lemma MixedReturn(t: PackMem, vs: seq<Val>, more: seq<Val>, q: Pack)
    requires ValidMem(t) && TailRel(more, t, Some(q)) && 0 < |vs| <= |vs| + q.size <= CAPACITY
    ensures var (r, t') := Build(t, Ret, vs, Some(q)).v;
            Holds(t', r, vs + more) <==> forall i :: 0 <= i < q.size ==> more[i] == vs[Wrap(i, |vs|)]
  {
    hide InsertVals, InsertAll, Wrap;
    InsertAllOverlap(t, vs, q.size);
    RepeatedExact(InsertAll(InsertVals(t, Ret, vs), Ret, Ret, |vs|, q.size).ret, vs, more);
  }

  /** `return 1, g()` where `g` has returned 2 and 3: the caller gets 1, 1, 1. */
  lemma MixedReturnWrong()
    ensures var ret := [Num(2), Num(3)] + seq(CAPACITY - 2, _ => Nil);
            var (t, q) := (PackMem(seq(CAPACITY, _ => Nil), ret), Pack(Ret, 2));
            && Holds(t, q, [Num(2), Num(3)])
            && Build(t, Ret, [Num(1)], Some(q)).v.0 == Pack(Ret, 3)
            && Build(t, Ret, [Num(1)], Some(q)).v.1.ret[..3] == [Num(1), Num(1), Num(1)]
  {
    var t := PackMem(seq(CAPACITY, _ => Nil), [Num(2), Num(3)] + seq(CAPACITY - 2, _ => Nil));
    assert t.ret[..2] == [Num(2), Num(3)];
    var vs := [Num(1)];
    assert vs[..|vs| - 1] == [];
    var t1 := InsertVals(t, Ret, vs);
    assert InsertVals(t, Ret, []) == t;
    assert t1 == Store(InsertVals(t, Ret, vs[..|vs| - 1]), Ret, |vs| - 1, vs[|vs| - 1]);
    assert t1.ret == t.ret[0 := Num(1)];
    assert InsertAll(t1, Ret, Ret, 1, 0) == t1;
    var t2 := InsertAll(t1, Ret, Ret, 1, 1);
    assert t2.ret == t1.ret[1 := Num(1)];
    assert InsertAll(t1, Ret, Ret, 1, 2).ret == t2.ret[2 := Num(1)];
  }

  // ----- Function entry

  lemma {:induction false} AdjustedAt(vs: seq<Val>, n: int, i: nat)
    requires i < n
    ensures |Adjusted(vs, n)| == n && Adjusted(vs, n)[i] == if i < |vs| then vs[i] else Nil
    decreases n
  {
    if i > 0 {
      AdjustedAt(if vs == [] then [] else vs[1..], n - 1, i - 1);
    } else if n > 1 {
      AdjustedAt(if vs == [] then [] else vs[1..], n - 1, 0);
    }
  }

  /** The pack's values as `lua.unpack` reads them. */
  lemma UnpackAdjusts(m: PackMem, q: Option<Pack>, vs: seq<Val>, n: nat)
    requires if q.None? then vs == [] else Holds(m, q.value, vs)
    ensures Unpacked(m, q, n) == Adjusted(vs, n)
  {
    forall i | 0 <= i < n ensures |Adjusted(vs, n)| == n && Unpacked(m, q, n)[i] == Adjusted(vs, n)[i] {
      AdjustedAt(vs, n, i);
      assert q.Some? && i < q.value.size ==> Buffer(m, q.value.buf)[..q.value.size][i] == vs[i];
    }
    if n == 0 {
      assert Unpacked(m, q, n) == [] == Adjusted(vs, n);
    } else {
      AdjustedAt(vs, n, 0);
      assert Unpacked(m, q, n) == Adjusted(vs, n);
    }
  }

  lemma {:induction false} BindParamsIs(env: Env, h: Heap, xs: seq<Var>, args: seq<Val>)
    ensures BindParams(env, h, xs, args) == (BindAll(env, xs, |h|), h + Adjusted(args, |xs|))
    decreases xs
  {
    if xs == [] {
      assert h + [] == h;
    } else {
      var (v, more) := if args == [] then (Nil, []) else (args[0], args[1..]);
      BindParamsIs(env[xs[0] := |h|], h + [v], xs[1..], more);
      assert h + [v] + Adjusted(more, |xs| - 1) == h + ([v] + Adjusted(more, |xs| - 1));
    }
  }

  predicate Distinct(xs: seq<Var>) { forall i, j :: 0 <= i < j < |xs| ==> xs[i] != xs[j] }

  lemma {:induction false} BindCapsAt(env: Env, xs: seq<Var>, ls: seq<Loc>, j: nat)
    requires Distinct(xs) && j < |xs| == |ls|
    ensures xs[j] in BindCaps(env, xs, ls) && BindCaps(env, xs, ls)[xs[j]] == ls[j]
    decreases xs
  {
    var env1 := env[xs[0] := ls[0]];
    if j > 0 {
      BindCapsAt(env1, xs[1..], ls[1..], j - 1);
    } else {
      BindCapsElsewhere(env1, xs[1..], ls[1..], xs[0]);
    }
  }

  lemma {:induction false} BindCapsElsewhere(env: Env, xs: seq<Var>, ls: seq<Loc>, x: Var)
    requires x !in xs && x in env
    ensures x in BindCaps(env, xs, ls) && BindCaps(env, xs, ls)[x] == env[x]
    decreases xs
  {
    if xs != [] && ls != [] {
      BindCapsElsewhere(env[xs[0] := ls[0]], xs[1..], ls[1..], x);
    }
  }

  lemma {:induction false} BindAllAt(env: Env, xs: seq<Var>, first: Loc, i: nat)
    requires Distinct(xs) && i < |xs|
    ensures xs[i] in BindAll(env, xs, first) && BindAll(env, xs, first)[xs[i]] == first + i
    decreases xs
  {
    var env1 := env[xs[0] := first];
    if i > 0 {
      BindAllAt(env1, xs[1..], first + 1, i - 1);
    } else {
      BindAllElsewhere(env1, xs[1..], first + 1, xs[0]);
    }
  }

  lemma {:induction false} BindAllElsewhere(env: Env, xs: seq<Var>, first: Loc, x: Var)
    requires x !in xs && x in env
    ensures x in BindAll(env, xs, first) && BindAll(env, xs, first)[x] == env[x]
    decreases xs
  {
    if xs != [] {
      BindAllElsewhere(env[xs[0] := first], xs[1..], first + 1, x);
    }
  }

  /** What the names of a function stand for when its body starts: captures for the captured cells, and
      parameter `i` for a cell of its own, with value `i` of the list or nil. */
  ghost predicate Entered(f: Fun, caps: seq<Loc>, args: seq<Val>, h: Heap, env: Env, h1: Heap) {
    && h <= h1 && |h1| == |h| + |f.params| && |caps| == |f.caps|
    && (forall j :: 0 <= j < |f.caps| ==> f.caps[j] in env && env[f.caps[j]] == caps[j])
    && (forall i :: 0 <= i < |f.params| ==>
          && f.params[i] in env && env[f.params[i]] == |h| + i
          && h1[|h| + i] == if i < |args| then args[i] else Nil)
  }

  lemma EnterIs(f: Fun, caps: seq<Loc>, q: Pack, args: seq<Val>, s: St)
    requires Holds(s.m, q, args)
    ensures var (env, s1) := Enter(f, caps, q, s);
            s1.m == s.m && BindParams(BindCaps(map[], f.caps, caps), s.heap, f.params, args) == (env, s1.heap)
  {
    UnpackAdjusts(s.m, Some(q), args, |f.params|);
    BindParamsIs(BindCaps(map[], f.caps, caps), s.heap, f.params, args);
  }

  lemma BoundAsEntered(f: Fun, caps: seq<Loc>, args: seq<Val>, h: Heap)
    requires Distinct(f.caps + f.params) && |caps| == |f.caps|
    ensures var (env, h1) := BindParams(BindCaps(map[], f.caps, caps), h, f.params, args);
            Entered(f, caps, args, h, env, h1)
  {
    var env0 := BindCaps(map[], f.caps, caps);
    BindParamsIs(env0, h, f.params, args);
    var env := BindAll(env0, f.params, |h|);
    var names := f.caps + f.params;
    assert Distinct(f.caps) by {
      assert forall i :: 0 <= i < |f.caps| ==> f.caps[i] == names[i];
    }
    assert forall i :: 0 <= i < |f.params| ==> f.params[i] == names[|f.caps| + i];
    forall j | 0 <= j < |f.caps|
      ensures f.caps[j] in env && env[f.caps[j]] == caps[j]
    {
      BindCapsAt(map[], f.caps, caps, j);
      assert f.caps[j] == names[j];
      BindAllElsewhere(env0, f.params, |h|, f.caps[j]);
    }
    forall i | 0 <= i < |f.params|
      ensures f.params[i] in env && env[f.params[i]] == |h| + i
      ensures |Adjusted(args, |f.params|)| == |f.params|
      ensures Adjusted(args, |f.params|)[i] == if i < |args| then args[i] else Nil
    {
      BindAllAt(env0, f.params, |h|, i);
      AdjustedAt(args, |f.params|, i);
    }
  }

  /** A call runs the callee's body with its names bound to the captured cells and to the values of the
      argument list: the listed values, then those the tail call left in the return buffer. */
  lemma CallEnters(p: Program, prim: Prim, c: Call, env: Env, s: St, fuel: nat) returns (env1: Env, s3: St)
    requires ValidSt(s) && fuel > 0 && EvalExp(p, prim, c.fcn, env, s, fuel).Ok?
    requires var (lf, s1) := EvalExp(p, prim, c.fcn, env, s, fuel).v;
             EvalList(p, prim, c.args, env, s1, fuel).Ok?
             && var (ls, tail, s2) := EvalList(p, prim, c.args, env, s1, fuel).v;
             && (tail.Some? ==> tail.value.buf == Ret && |ls| + tail.value.size <= CAPACITY)
             && |ls| <= CAPACITY
             && var f := Read(s2.heap, lf);
             f.Clo? && f.fcn in p && Distinct(p[f.fcn].caps + p[f.fcn].params) && |f.caps| == |p[f.fcn].caps|
    ensures ValidSt(s3)
    ensures var (lf, s1) := EvalExp(p, prim, c.fcn, env, s, fuel).v;
            var (ls, tail, s2) := EvalList(p, prim, c.args, env, s1, fuel).v;
            var f := Read(s2.heap, lf);
            var more := if tail.Some? then s2.m.ret[..tail.value.size] else [];
            && Entered(p[f.fcn], f.caps, ReadAll(s2.heap, ls) + more, s2.heap, env1, s3.heap)
            && var flow := ExecStats(p, prim, p[f.fcn].body, env1, s3, fuel - 1);
            EvalCall(p, prim, c, env, s, fuel) == if flow.Ok? then Ok(Result(flow.v)) else flow.PropagateFailure()
  {
    hide Build, Enter, BindParams, BindCaps, Entered;
    var (lf, s1) := EvalExp(p, prim, c.fcn, env, s, fuel).v;
    var (ls, tail, s2) := EvalList(p, prim, c.args, env, s1, fuel).v;
    var f := Read(s2.heap, lf);
    var more := if tail.Some? then s2.m.ret[..tail.value.size] else [];
    var vals := ReadAll(s2.heap, ls);
    BuildExact(s2.m, Arg, vals, more, tail);
    var (pk, m) := if ls == [] && tail.Some? then (tail.value, s2.m) else Build(s2.m, Arg, vals, tail).v;
    assert ls == [] ==> vals + more == more;
    assert Holds(m, pk, vals + more);
    EnterIs(p[f.fcn], f.caps, pk, vals + more, s2.(m := m));
    BoundAsEntered(p[f.fcn], f.caps, vals + more, s2.heap);
    var e := Enter(p[f.fcn], f.caps, pk, s2.(m := m));
    env1, s3 := e.0, e.1;
  }

  // ----- Whole runs

  lemma ListOfTail(p: Program, prim: Prim, l: ExpList, env: Env, s: St, fuel: nat)
    requires ValidSt(s) && EvalList(p, prim, l, env, s, fuel).Ok?
    ensures var r := EvalList(p, prim, l, env, s, fuel);
            (l.vals == [] ==> r.v.0 == []) && (r.v.1.None? <==> l.tail.None?)
  {
  }

  lemma {:induction false} ExpShared(p: Program, prim: Prim, e: Exp, env: Env, h: Heap, t: St, fuel: nat)
    requires PlainProgram(p) && StRel(h, t)
    ensures ExpRel(RunExp(p, prim, e, env, h, fuel), EvalExp(p, prim, e, env, t, fuel))
    decreases fuel, 1, e, 1
  {
    match e
    case Op(kind, args) => ExpsShared(p, prim, args, env, h, t, fuel);
    case First(c) => FirstShared(p, prim, c, env, h, t, fuel);
    case _ =>
  }

  lemma {:induction false} FirstShared(p: Program, prim: Prim, c: Call, env: Env, h: Heap, t: St, fuel: nat)
    requires PlainProgram(p) && StRel(h, t)
    ensures ExpRel(RunExp(p, prim, First(c), env, h, fuel), EvalExp(p, prim, First(c), env, t, fuel))
    decreases fuel, 1, c, 2
  {
    CallShared(p, prim, c, env, h, t, fuel);
    var r, q := RunCall(p, prim, c, env, h, fuel), EvalCall(p, prim, c, env, t, fuel);
    if r.Ok? && r.v.0 != [] {
      assert Buffer(q.v.1.m, q.v.0.buf)[..q.v.0.size][0] == r.v.0[0];
    }
  }

  lemma {:induction false} ExpsShared(p: Program, prim: Prim, es: seq<Exp>, env: Env, h: Heap, t: St, fuel: nat)
    requires PlainProgram(p) && StRel(h, t)
    ensures ExpRel(RunExps(p, prim, es, env, h, fuel), EvalExps(p, prim, es, env, t, fuel))
    decreases fuel, 1, es, 0
  {
    if es != [] {
      ExpShared(p, prim, es[0], env, h, t, fuel);
      var r, q := RunExp(p, prim, es[0], env, h, fuel), EvalExp(p, prim, es[0], env, t, fuel);
      if r.Ok? {
        ExpsShared(p, prim, es[1..], env, r.v.1, q.v.1, fuel);
      }
    }
  }

  lemma {:induction false} ListShared(p: Program, prim: Prim, l: ExpList, env: Env, h: Heap, t: St, fuel: nat)
    requires PlainProgram(p) && StRel(h, t)
    ensures ListRel(RunList(p, prim, l, env, h, fuel), EvalList(p, prim, l, env, t, fuel))
    decreases fuel, 1, l, 1
  {
    ExpsShared(p, prim, l.vals, env, h, t, fuel);
    var r, q := RunExps(p, prim, l.vals, env, h, fuel), EvalExps(p, prim, l.vals, env, t, fuel);
    if r.Ok? && l.tail.Some? {
      CallShared(p, prim, l.tail.value, env, r.v.1, q.v.1, fuel);
    }
  }

  /** A call through the shared buffers gives the values that a call with lists of values gives. */
  lemma {:induction false} CallShared(p: Program, prim: Prim, c: Call, env: Env, h: Heap, t: St, fuel: nat)
    requires PlainProgram(p) && StRel(h, t)
    ensures CallRel(RunCall(p, prim, c, env, h, fuel), EvalCall(p, prim, c, env, t, fuel))
    decreases fuel, 1, c, 1
  {
    hide Build;
    ExpShared(p, prim, c.fcn, env, h, t, fuel);
    var r, q := RunExp(p, prim, c.fcn, env, h, fuel), EvalExp(p, prim, c.fcn, env, t, fuel);
    if r.Ok? {
      ListShared(p, prim, c.args, env, r.v.1, q.v.1, fuel);
      var r2, q2 := RunList(p, prim, c.args, env, r.v.1, fuel), EvalList(p, prim, c.args, env, q.v.1, fuel);
      if r2.Ok? {
        var (ls, more, h2) := r2.v;
        var (_, tail, t2) := q2.v;
        var vals := ReadAll(h2, ls);
        if ls == [] && tail.Some? {
          assert vals + more == more;
          CallWithShared(p, prim, r.v.0, more, h2, tail.value, t2, fuel);
        } else {
          BuildExact(t2.m, Arg, vals, more, tail);
          var b := Build(t2.m, Arg, vals, tail);
          if b.Ok? {
            CallWithShared(p, prim, r.v.0, vals + more, h2, b.v.0, t2.(m := b.v.1), fuel);
          }
        }
      }
    }
  }

  lemma ResultShared(end: End, flow: Flow)
    requires FlowRel(Ok(end), Ok(flow))
    ensures var (q, t) := Result(flow);
            && StRel(end.heap, t) && Holds(t.m, q, if end.Gave? then end.vals else []) && q.buf == Ret
  {
    hide Build;
    if flow.Next? {
      BuildExact(flow.st.m, Ret, [], [], None);
    }
  }

  lemma {:induction false} CallWithShared(p: Program, prim: Prim, lf: Loc, args: seq<Val>, h: Heap, q: Pack, t: St,
      fuel: nat)
    requires PlainProgram(p) && StRel(h, t) && Holds(t.m, q, args)
    ensures CallRel(Apply(p, prim, Read(h, lf), args, h, fuel), CallWith(p, prim, lf, q, t, fuel))
    decreases fuel, 0
  {
    hide Build, Enter, BindParams, BindCaps, Result;
    var f := Read(h, lf);
    if f.Clo? && f.fcn in p && fuel > 0 {
      EnterIs(p[f.fcn], f.caps, q, args, t);
      var (env, t1) := Enter(p[f.fcn], f.caps, q, t);
      StatsShared(p, prim, p[f.fcn].body, env, t1.heap, t1, fuel - 1);
      var r, r' := RunStats(p, prim, p[f.fcn].body, env, t1.heap, fuel - 1),
          ExecStats(p, prim, p[f.fcn].body, env, t1, fuel - 1);
      if r.Ok? {
        ResultShared(r.v, r'.v);
      }
    }
  }

  lemma {:induction false} StatsShared(p: Program, prim: Prim, ss: seq<Stat>, env: Env, h: Heap, t: St, fuel: nat)
    requires PlainProgram(p) && StRel(h, t) && PlainReturns(ss)
    ensures FlowRel(RunStats(p, prim, ss, env, h, fuel), ExecStats(p, prim, ss, env, t, fuel))
    decreases fuel, 1, ss, 0
  {
    if ss != [] {
      StatShared(p, prim, ss[0], env, h, t, fuel);
      var r, q := RunStat(p, prim, ss[0], env, h, fuel), ExecStat(p, prim, ss[0], env, t, fuel);
      if r.Ok? && r.v.Went? {
        StatsShared(p, prim, ss[1..], r.v.env, r.v.heap, q.v.st, fuel);
      }
    }
  }

  /** Sources beyond the last target are not copied. */
  lemma {:induction false} CopyAllSurplus(heap: Heap, tgts: seq<Loc>, srcs: seq<Loc>)
    requires |tgts| <= |srcs|
    ensures CopyAll(heap, tgts, srcs) == CopyAll(heap, tgts, srcs[..|tgts|])
    decreases tgts
  {
    if tgts != [] {
      var h1 := if tgts[0] < |heap| then heap[tgts[0] := Read(heap, srcs[0])] else heap;
      CopyAllSurplus(h1, tgts[1..], srcs[1..]);
      assert srcs[..|tgts|][1..] == srcs[1..][..|tgts| - 1];
    }
  }

  lemma DistributeIs(env: Env, xs: seq<Var>, ls: seq<Loc>, more: seq<Val>, tail: Option<Pack>, t: St)
    requires ValidSt(t) && TailRel(more, t.m, tail)
    ensures Distribute(env, xs, ls, tail, t) == t.(heap := Spread(env, xs, ls, more, t.heap))
  {
    hide CopyAll;
    var k := |xs| - |ls|;
    if k <= 0 {
      assert ls + CellsFrom(|t.heap|, 0) == ls && ls[..|xs|] + CellsFrom(|t.heap|, 0) == ls[..|xs|];
      assert t.heap + Adjusted(more, k) == t.heap && t.heap + Unpacked(t.m, tail, 0) == t.heap;
      CopyAllSurplus(t.heap, Cells(env, xs), ls);
    } else {
      assert ls[..|ls|] == ls;
      UnpackAdjusts(t.m, tail, more, k);
    }
  }

  lemma {:induction false} StatShared(p: Program, prim: Prim, st: Stat, env: Env, h: Heap, t: St, fuel: nat)
    requires PlainProgram(p) && StRel(h, t) && PlainReturn(st)
    ensures FlowRel(RunStat(p, prim, st, env, h, fuel), ExecStat(p, prim, st, env, t, fuel))
    decreases fuel, 1, st, 1
  {
    hide Build, Distribute, Spread;
    match st
    case Local(x) =>
    case Assign(xs, rhs) =>
      ListShared(p, prim, rhs, env, h, t, fuel);
      var r, q := RunList(p, prim, rhs, env, h, fuel), EvalList(p, prim, rhs, env, t, fuel);
      if r.Ok? {
        DistributeIs(env, xs, r.v.0, r.v.1, q.v.1, q.v.2);
      }
    case CallStat(c) => CallShared(p, prim, c, env, h, t, fuel);
    case If(c, thn, els) =>
      ExpShared(p, prim, c, env, h, t, fuel);
      var r := RunExp(p, prim, c, env, h, fuel);
      if r.Ok? {
        var q := EvalExp(p, prim, c, env, t, fuel);
        StatsShared(p, prim, if Truthy(Read(r.v.1, r.v.0)) then thn else els, env, r.v.1, q.v.1, fuel);
      }
    case While(c, body) => WhileShared(p, prim, st, env, h, t, fuel);
    case Return(rets) => ReturnShared(p, prim, rets, env, h, t, fuel);
  }

  lemma {:induction false} WhileShared(p: Program, prim: Prim, st: Stat, env: Env, h: Heap, t: St, fuel: nat)
    requires PlainProgram(p) && StRel(h, t) && PlainReturn(st) && st.While?
    ensures FlowRel(RunStat(p, prim, st, env, h, fuel), ExecStat(p, prim, st, env, t, fuel))
    decreases fuel, 1, st, 0
  {
    ExpShared(p, prim, st.cond, env, h, t, fuel);
    var r, q := RunExp(p, prim, st.cond, env, h, fuel), EvalExp(p, prim, st.cond, env, t, fuel);
    if r.Ok? && Truthy(Read(r.v.1, r.v.0)) && fuel > 0 {
      StatsShared(p, prim, st.body, env, r.v.1, q.v.1, fuel);
      var f, f' := RunStats(p, prim, st.body, env, r.v.1, fuel), ExecStats(p, prim, st.body, env, q.v.1, fuel);
      if f.Ok? && f.v.Went? {
        WhileShared(p, prim, st, env, f.v.heap, f'.v.st, fuel - 1);
      }
    }
  }

  lemma {:induction false} ReturnShared(p: Program, prim: Prim, rets: ExpList, env: Env, h: Heap, t: St, fuel: nat)
    requires PlainProgram(p) && StRel(h, t) && (rets.vals == [] || rets.tail.None?)
    ensures FlowRel(RunStat(p, prim, Return(rets), env, h, fuel), ExecStat(p, prim, Return(rets), env, t, fuel))
    decreases fuel, 1, rets, 2
  {
    hide Build;
    ListShared(p, prim, rets, env, h, t, fuel);
    var r, q := RunList(p, prim, rets, env, h, fuel), EvalList(p, prim, rets, env, t, fuel);
    if r.Ok? {
      var (ls, more, h1) := r.v;
      ListOfTail(p, prim, rets, env, t, fuel);
      BuildExact(q.v.2.m, Ret, ReadAll(h1, ls), more, q.v.1);
    }
  }
}
