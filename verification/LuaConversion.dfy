/** Closure conversion up to renaming. */
module LuaConversion {
  // Converting a function copies its body onto fresh block arguments, and copying gives every value
  // defined in the body a fresh name.  A map from old names to new ones is carried along.

  import opened LuaClosures

  type Renaming = map<Name, Name>

  // ----- Renamings

  predicate Sends(m: Renaming, x: Name, y: Name) { x in m && m[x] == y }

  predicate MapsTo(m: Renaming, xs: seq<Name>, ys: seq<Name>) {
    |xs| == |ys| && forall i :: 0 <= i < |xs| ==> xs[i] in m && m[xs[i]] == ys[i]
  }

  /** Sends `xs[i]` to `ys[i]`, and everything else to where it went before. */
  function Extend(m: Renaming, xs: seq<Name>, ys: seq<Name>): Renaming
    decreases xs
  {
    if xs == [] || ys == [] then m else Extend(m[xs[0] := ys[0]], xs[1..], ys[1..])
  }

  /** New names: distinct, and nothing is sent to them yet. */
  predicate Fresh(m: Renaming, ys: seq<Name>) {
    Distinct(ys) && forall i :: 0 <= i < |ys| ==> ys[i] !in m.Values
  }

  predicate Injective(m: Renaming) { forall x, y :: x in m && y in m && m[x] == m[y] ==> x == y }

  function Image(m: Renaming, xs: set<Name>): set<Name> { set x | x in xs && x in m :: m[x] }

  function Compose(m: Renaming, n: Renaming): Renaming { map x | x in m && m[x] in n :: n[m[x]] }

  lemma FreshStep(m: Renaming, x: Name, ys: seq<Name>)
    requires Fresh(m, ys) && ys != []
    ensures Fresh(m[x := ys[0]], ys[1..])
  {
    assert m[x := ys[0]].Values <= m.Values + {ys[0]};
  }

  lemma {:induction false} ExtendKeys(m: Renaming, xs: seq<Name>, ys: seq<Name>)
    requires |xs| == |ys|
    ensures Extend(m, xs, ys).Keys == m.Keys + Names(xs)
    ensures Extend(m, xs, ys).Values <= m.Values + Names(ys)
    decreases xs
  {
    if xs != [] {
      var m1 := m[xs[0] := ys[0]];
      ExtendKeys(m1, xs[1..], ys[1..]);
      assert m1.Keys == m.Keys + {xs[0]} && m1.Values <= m.Values + {ys[0]};
      assert Names(xs) == {xs[0]} + Names(xs[1..]) && Names(ys) == {ys[0]} + Names(ys[1..]);
    } else {
      assert Names(xs) == {};
    }
  }

  lemma ExtendOne(m: Renaming, x: Name, y: Name)
    ensures Extend(m, [x], [y]) == m[x := y]
  {
    assert [x][1..] == [] && [y][1..] == [];
  }

  lemma {:induction false} ExtendOther(m: Renaming, xs: seq<Name>, ys: seq<Name>, x: Name)
    requires |xs| == |ys| && x !in xs
    ensures x in Extend(m, xs, ys) <==> x in m
    ensures x in m ==> Extend(m, xs, ys)[x] == m[x]
    decreases xs
  {
    if xs != [] {
      ExtendOther(m[xs[0] := ys[0]], xs[1..], ys[1..], x);
    }
  }

  /** A name in the list goes to one of the new names, whatever the map was before. */
  lemma {:induction false} ExtendInside(m: Renaming, n: Renaming, xs: seq<Name>, ys: seq<Name>, x: Name)
    requires |xs| == |ys| && x in xs
    ensures x in Extend(m, xs, ys) && Extend(m, xs, ys)[x] in ys
    ensures x in Extend(n, xs, ys) && Extend(n, xs, ys)[x] == Extend(m, xs, ys)[x]
    decreases xs
  {
    if x in xs[1..] {
      ExtendInside(m[xs[0] := ys[0]], n[xs[0] := ys[0]], xs[1..], ys[1..], x);
    } else {
      ExtendOther(m[xs[0] := ys[0]], xs[1..], ys[1..], x);
      ExtendOther(n[xs[0] := ys[0]], xs[1..], ys[1..], x);
    }
  }

  lemma {:induction false} ExtendAt(m: Renaming, xs: seq<Name>, ys: seq<Name>)
    requires |xs| == |ys| && Distinct(xs)
    ensures MapsTo(Extend(m, xs, ys), xs, ys)
    decreases xs
  {
    if xs != [] {
      var m1 := m[xs[0] := ys[0]];
      ExtendAt(m1, xs[1..], ys[1..]);
      ExtendOther(m1, xs[1..], ys[1..], xs[0]);
      var all := Extend(m, xs, ys);
      forall i | 0 <= i < |xs|
        ensures xs[i] in all && all[xs[i]] == ys[i]
      {
        if i > 0 {
          assert xs[i] == xs[1..][i - 1] && ys[i] == ys[1..][i - 1];
        }
      }
    }
  }

  lemma {:induction false} ExtendAppend(m: Renaming, xs: seq<Name>, ys: seq<Name>, us: seq<Name>, vs: seq<Name>)
    requires |xs| == |ys|
    ensures Extend(m, xs + us, ys + vs) == Extend(Extend(m, xs, ys), us, vs)
    decreases xs
  {
    if xs == [] {
      assert xs + us == us && ys + vs == vs;
    } else {
      assert (xs + us)[1..] == xs[1..] + us && (ys + vs)[1..] == ys[1..] + vs;
      ExtendAppend(m[xs[0] := ys[0]], xs[1..], ys[1..], us, vs);
    }
  }

  lemma {:induction false} ExtendInjective(m: Renaming, xs: seq<Name>, ys: seq<Name>)
    requires |xs| == |ys| && Fresh(m, ys) && Injective(m)
    ensures Injective(Extend(m, xs, ys))
    decreases xs
  {
    if xs != [] {
      FreshStep(m, xs[0], ys);
      ExtendInjective(m[xs[0] := ys[0]], xs[1..], ys[1..]);
    }
  }

  lemma {:induction false} ComposeExtend(m: Renaming, n: Renaming, xs: seq<Name>, ys: seq<Name>, zs: seq<Name>)
    requires |xs| == |ys| == |zs| && Fresh(m, ys)
    ensures Compose(Extend(m, xs, ys), Extend(n, ys, zs)) == Extend(Compose(m, n), xs, zs)
    decreases xs
  {
    if xs != [] {
      FreshStep(m, xs[0], ys);
      ComposeExtend(m[xs[0] := ys[0]], n[ys[0] := zs[0]], xs[1..], ys[1..], zs[1..]);
      ComposeOne(m, n, xs[0], ys[0], zs[0]);
    }
  }

  lemma ComposeOne(m: Renaming, n: Renaming, x: Name, y: Name, z: Name)
    requires y !in m.Values
    ensures Compose(m[x := y], n[y := z]) == Compose(m, n)[x := z]
  {
  }

  lemma MapsToCompose(m: Renaming, n: Renaming, xs: seq<Name>, ys: seq<Name>, zs: seq<Name>)
    requires MapsTo(m, xs, ys) && MapsTo(n, ys, zs)
    ensures MapsTo(Compose(m, n), xs, zs)
  {
  }

  lemma MapsToImage(m: Renaming, xs: seq<Name>, ys: seq<Name>)
    requires MapsTo(m, xs, ys)
    ensures Names(ys) == Image(m, Names(xs)) && Names(xs) <= m.Keys
  {
    forall y | y in Names(ys)
      ensures y in Image(m, Names(xs))
    {
      var i :| 0 <= i < |ys| && ys[i] == y;
      assert xs[i] in Names(xs);
    }
    forall y | y in Image(m, Names(xs))
      ensures y in Names(ys)
    {
      var x :| x in Names(xs) && x in m && m[x] == y;
      var i :| 0 <= i < |xs| && xs[i] == x;
      assert ys[i] == y;
    }
  }

  /** Taking new names out of an image is taking the old names out before. */
  lemma ImageWithout(m: Renaming, xs: seq<Name>, ys: seq<Name>, s: set<Name>)
    requires |xs| == |ys| && Fresh(m, ys)
    ensures Image(Extend(m, xs, ys), s) - Names(ys) == Image(m, s - Names(xs))
  {
    var all := Extend(m, xs, ys);
    forall y | y in Image(all, s) - Names(ys)
      ensures y in Image(m, s - Names(xs))
    {
      var x :| x in s && x in all && all[x] == y;
      if x in xs {
        ExtendInside(m, m, xs, ys, x);
      }
      ExtendOther(m, xs, ys, x);
    }
    forall y | y in Image(m, s - Names(xs))
      ensures y in Image(all, s) - Names(ys)
    {
      var x :| x in s - Names(xs) && x in m && m[x] == y;
      ExtendOther(m, xs, ys, x);
      assert y in m.Values;
    }
  }

  // ----- Conversion, in any order and to any extent

  /** What the results of an op are called from here on. */
  function Step(m: Renaming, op: Op, op': Op): Renaming { Extend(m, Outs(op), Outs(op')) }

  function After(m: Renaming, ops: seq<Op>, ops': seq<Op>): Renaming
    decreases ops
  {
    if ops == [] || ops' == [] then m else After(Step(m, ops[0], ops'[0]), ops[1..], ops'[1..])
  }

  /** `ops'` is `ops` with names changed as `m` says, new names for what it defines, and some of its
      function definitions converted. */
  ghost predicate ConvOps(m: Renaming, ops: seq<Op>, ops': seq<Op>)
    decreases ops, 0
  {
    |ops| == |ops'|
    && (ops == [] || (ConvOp(m, ops[0], ops'[0]) && ConvOps(Step(m, ops[0], ops'[0]), ops[1..], ops'[1..])))
  }

  ghost predicate ConvOp(m: Renaming, op: Op, op': Op)
    decreases op, 1
  {
    && |Outs(op)| == |Outs(op')| && Fresh(m, Outs(op'))
    && match op
       case Prim(kind, _, args) => op'.Prim? && op'.kind == kind && MapsTo(m, args, op'.args)
       case Copy(t, s) => op'.Copy? && Sends(m, t, op'.tgt) && Sends(m, s, op'.src)
       case CallOp(_, f, args) => op'.CallOp? && Sends(m, f, op'.callee) && MapsTo(m, args, op'.args)
       case CondIf(c, a, b) =>
         op'.CondIf? && Sends(m, c, op'.cond) && ConvOps(m, a, op'.thn) && ConvOps(m, b, op'.els)
       case Loop(u, e, c, b) =>
         && op'.Loop? && op'.until == u && ConvOps(m, e, op'.eval)
         && Sends(After(m, e, op'.eval), c, op'.cond) && ConvOps(m, b, op'.body)
       case For(numeric, args, ps, b) =>
         && op'.For? && op'.numeric == numeric && MapsTo(m, args, op'.args)
         && |op'.params| == |ps| && Fresh(m, op'.params) && ConvOps(Extend(m, ps, op'.params), b, op'.body)
       case Ret(vals) => op'.Ret? && MapsTo(m, vals, op'.vals)
       case FunctionDef(_, ps, f) =>
         if op'.FunctionDef? then
           |op'.params| == |ps| && Fresh(m, op'.params) && ConvBody(Extend(m, ps, op'.params), f, op'.fcn)
         else
           && IsClosed(op')
           && exists cs: seq<Name> ::
                Lists(cs, ps, f) && Captures(m, cs, ps, op') && ConvBody(Onto(cs + ps, op'), f, op'.fcn)
       case _ =>
         && IsClosed(op') && (op.PackFunc? ==> op'.PackFunc?) && Split(op)
         && Captures(m, op.captures, Inputs(op)[|op.captures|..], op')
            && ConvBody(Onto(Inputs(op), op'), op.fcn, op'.fcn)
  }

  ghost predicate ConvBody(m: Renaming, f: Body, f': Body)
    decreases f, 2
  {
    ConvOps(m, f.ops, f'.ops) && MapsTo(After(m, f.ops, f'.ops), f.rets, f'.rets)
  }

  /** A block argument for each capture, and `luaopt.pack_func` keeps the two kinds apart. */
  predicate Split(op: Op)
    requires IsClosed(op)
  {
    |op.captures| <= |Inputs(op)| && (op.PackFunc? ==> |op.caps| == |op.captures|)
  }

  /** The closed op captures what `cs` are now called; it has inputs for `cs` and then for `ps`. */
  predicate Captures(m: Renaming, cs: seq<Name>, ps: seq<Name>, op': Op)
    requires IsClosed(op')
  {
    Split(op') && MapsTo(m, cs, op'.captures) && |Inputs(op')| == |cs| + |ps| && Distinct(Inputs(op'))
  }

  /** Position by position, onto the inputs of a closed op. */
  function Onto(xs: seq<Name>, op': Op): Renaming
    requires IsClosed(op')
  {
    Extend(map[], xs, Inputs(op'))
  }

  // ----- What conversion does to the names a program reads

  lemma {:induction false} AfterKeys(m: Renaming, ops: seq<Op>, ops': seq<Op>)
    requires ConvOps(m, ops, ops')
    ensures After(m, ops, ops').Keys == m.Keys + OpsResults(ops)
    decreases ops
  {
    if ops != [] {
      ExtendKeys(m, Outs(ops[0]), Outs(ops'[0]));
      AfterKeys(Step(m, ops[0], ops'[0]), ops[1..], ops'[1..]);
    }
  }

  /** Results go to results, and everything else stays where it was and is no result. */
  lemma {:induction false} AfterAt(m: Renaming, ops: seq<Op>, ops': seq<Op>, x: Name)
    requires ConvOps(m, ops, ops')
    ensures x in OpsResults(ops) ==> x in After(m, ops, ops') && After(m, ops, ops')[x] in OpsResults(ops')
    ensures x !in OpsResults(ops) && x in m ==>
              x in After(m, ops, ops') && After(m, ops, ops')[x] == m[x] && m[x] !in OpsResults(ops')
    decreases ops
  {
    if ops != [] {
      var m1, os, os' := Step(m, ops[0], ops'[0]), Outs(ops[0]), Outs(ops'[0]);
      AfterAt(m1, ops[1..], ops'[1..], x);
      if x in os {
        ExtendInside(m, m, os, os', x);
      } else if x in m {
        ExtendOther(m, os, os', x);
        assert m[x] in m.Values;
      }
    }
  }

  lemma {:induction false} ConvReads(m: Renaming, ops: seq<Op>, ops': seq<Op>)
    requires ConvOps(m, ops, ops')
    ensures FreeOps(ops) <= m.Keys && FreeOps(ops') == Image(m, FreeOps(ops))
    decreases ops, 0
  {
    if ops != [] {
      var os, os' := Outs(ops[0]), Outs(ops'[0]);
      ConvOpReads(m, ops[0], ops'[0]);
      ConvReads(Step(m, ops[0], ops'[0]), ops[1..], ops'[1..]);
      ExtendKeys(m, os, os');
      ImageWithout(m, os, os', FreeOps(ops[1..]));
    }
  }

  lemma {:induction false} ConvOpReads(m: Renaming, op: Op, op': Op)
    requires ConvOp(m, op, op')
    ensures FreeOp(op) <= m.Keys && FreeOp(op') == Image(m, FreeOp(op))
    decreases op, 1
  {
    match op
    case Prim(_, _, args) => MapsToImage(m, args, op'.args);
    case Copy(t, s) =>
    case CallOp(_, f, args) => MapsToImage(m, args, op'.args);
    case CondIf(_, _, _) => ConvBranchReads(m, op, op');
    case Loop(_, _, _, _) => ConvLoopReads(m, op, op');
    case For(_, _, _, _) => ConvForReads(m, op, op');
    case Ret(vals) => MapsToImage(m, vals, op'.vals);
    case FunctionDef(_, _, _) => ConvFunctionReads(m, op, op');
    case _ => MapsToImage(m, op.captures, op'.captures);
  }

  lemma {:induction false} ConvBranchReads(m: Renaming, op: Op, op': Op)
    requires op.CondIf? && ConvOp(m, op, op')
    ensures FreeOp(op) <= m.Keys && FreeOp(op') == Image(m, FreeOp(op))
    decreases op, 0
  {
    ConvReads(m, op.thn, op'.thn);
    ConvReads(m, op.els, op'.els);
    hide ConvOps;
  }

  lemma {:induction false} ConvLoopReads(m: Renaming, op: Op, op': Op)
    requires op.Loop? && ConvOp(m, op, op')
    ensures FreeOp(op) <= m.Keys && FreeOp(op') == Image(m, FreeOp(op))
    decreases op, 0
  {
    ConvReads(m, op.eval, op'.eval);
    ConvReads(m, op.body, op'.body);
    ConvCondReads(m, op.eval, op'.eval, op.cond, op'.cond);
    hide ConvOps, After, FreeOps, OpsResults;
  }

  lemma {:induction false} ConvForReads(m: Renaming, op: Op, op': Op)
    requires op.For? && ConvOp(m, op, op')
    ensures FreeOp(op) <= m.Keys && FreeOp(op') == Image(m, FreeOp(op))
    decreases op, 0
  {
    ConvReads(Extend(m, op.params, op'.params), op.body, op'.body);
    ExtendKeys(m, op.params, op'.params);
    ImageWithout(m, op.params, op'.params, FreeOps(op.body));
    MapsToImage(m, op.args, op'.args);
    hide ConvOps, Extend, FreeOps;
  }

  /** The condition of a loop is read after its `eval` ops. */
  lemma ConvCondReads(m: Renaming, ops: seq<Op>, ops': seq<Op>, c: Name, c': Name)
    requires ConvOps(m, ops, ops') && Sends(After(m, ops, ops'), c, c')
    ensures {c} - OpsResults(ops) <= m.Keys && {c'} - OpsResults(ops') == Image(m, {c} - OpsResults(ops))
  {
    AfterKeys(m, ops, ops');
    AfterAt(m, ops, ops', c);
    hide ConvOps, After, OpsResults;
  }

  lemma {:induction false} ConvFunctionReads(m: Renaming, op: Op, op': Op)
    requires op.FunctionDef? && ConvOp(m, op, op')
    ensures FreeOp(op) <= m.Keys && FreeOp(op') == Image(m, FreeOp(op))
    decreases op, 0
  {
    var ps, f := op.params, op.fcn;
    if op'.FunctionDef? {
      ConvBodyReads(Extend(m, ps, op'.params), f, op'.fcn);
      ExtendKeys(m, ps, op'.params);
      ImageWithout(m, ps, op'.params, FreeBody(f));
    } else {
      var cs: seq<Name> :| Lists(cs, ps, f) && Captures(m, cs, ps, op');
      MapsToImage(m, cs, op'.captures);
    }
  }

  lemma {:induction false} ConvBodyReads(m: Renaming, f: Body, f': Body)
    requires ConvBody(m, f, f')
    ensures FreeBody(f) <= m.Keys && FreeBody(f') == Image(m, FreeBody(f))
    decreases f, 2
  {
    ConvReads(m, f.ops, f'.ops);
    AfterKeys(m, f.ops, f'.ops);
    var all := After(m, f.ops, f'.ops);
    MapsToImage(all, f.rets, f'.rets);
    forall y | y in Names(f'.rets) - OpsResults(f'.ops)
      ensures y in Image(m, Names(f.rets) - OpsResults(f.ops))
    {
      var x :| x in Names(f.rets) && x in all && all[x] == y;
      AfterAt(m, f.ops, f'.ops, x);
    }
    forall y | y in Image(m, Names(f.rets) - OpsResults(f.ops))
      ensures y in Names(f'.rets) - OpsResults(f'.ops)
    {
      var x :| x in Names(f.rets) - OpsResults(f.ops) && x in m && m[x] == y;
      AfterAt(m, f.ops, f'.ops, x);
    }
  }
}
