/** The order of conversions. */
module LuaConfluence {
  // Conversions can be done one after another, and complete conversions of one program differ at
  // most in names and in the order of captures.

  import opened LuaClosures
  import opened LuaConversion

  // ----- Converted functions are closed

  /** Every converted body is closed: it reads only its inputs. */
  lemma {:induction false} ConvIsolated(m: Renaming, ops: seq<Op>, ops': seq<Op>)
    requires ConvOps(m, ops, ops') && Isolated(ops)
    ensures Isolated(ops')
    decreases ops, 0
  {
    if ops != [] {
      ConvOpIsolated(m, ops[0], ops'[0]);
      ConvIsolated(Step(m, ops[0], ops'[0]), ops[1..], ops'[1..]);
    }
  }

  lemma {:induction false} ConvOpIsolated(m: Renaming, op: Op, op': Op)
    requires ConvOp(m, op, op') && IsolatedOp(op)
    ensures IsolatedOp(op')
    decreases op, 1
  {
    match op
    case CondIf(_, a, b) =>
      ConvIsolated(m, a, op'.thn);
      ConvIsolated(m, b, op'.els);
    case Loop(_, e, _, b) =>
      ConvIsolated(m, e, op'.eval);
      ConvIsolated(m, b, op'.body);
    case For(_, _, ps, b) => ConvIsolated(Extend(m, ps, op'.params), b, op'.body);
    case FunctionDef(_, ps, f) =>
      if op'.FunctionDef? {
        ConvIsolated(Extend(m, ps, op'.params), f.ops, op'.fcn.ops);
      } else {
        var cs: seq<Name> :| Lists(cs, ps, f) && Captures(m, cs, ps, op') && ConvBody(Onto(cs + ps, op'), f, op'.fcn);
        ConvIsolated(Onto(cs + ps, op'), f.ops, op'.fcn.ops);
        OntoIsClosed(cs + ps, f, op');
      }
    case FunctionDefCapture(_, _, _, f) =>
      ConvIsolated(Onto(Inputs(op), op'), f.ops, op'.fcn.ops);
      OntoIsClosed(Inputs(op), f, op');
    case PackFunc(_, _, _, _, f) =>
      ConvIsolated(Onto(Inputs(op), op'), f.ops, op'.fcn.ops);
      OntoIsClosed(Inputs(op), f, op');
    case _ =>
  }

  lemma OntoIsClosed(xs: seq<Name>, f: Body, op': Op)
    requires IsClosed(op') && |xs| == |Inputs(op')| && ConvBody(Onto(xs, op'), f, op'.fcn)
    ensures FreeBody(op'.fcn) <= Names(Inputs(op'))
  {
    ConvBodyReads(Onto(xs, op'), f, op'.fcn);
    ExtendKeys(map[], xs, Inputs(op'));
  }

  // ----- One conversion after another

  /** Converting some functions and then some more is one conversion. */
  lemma {:induction false} ConvTransitive(m: Renaming, n: Renaming, a: seq<Op>, b: seq<Op>, c: seq<Op>)
    requires ConvOps(m, a, b) && ConvOps(n, b, c) && Injective(m)
    ensures ConvOps(Compose(m, n), a, c)
    ensures After(Compose(m, n), a, c) == Compose(After(m, a, b), After(n, b, c))
    decreases a, 0
  {
    if a != [] {
      ConvOpTransitive(m, n, a[0], b[0], c[0]);
      ComposeExtend(m, n, Outs(a[0]), Outs(b[0]), Outs(c[0]));
      ExtendInjective(m, Outs(a[0]), Outs(b[0]));
      ConvTransitive(Step(m, a[0], b[0]), Step(n, b[0], c[0]), a[1..], b[1..], c[1..]);
    }
  }

  lemma {:induction false} ConvBodyTransitive(m: Renaming, n: Renaming, a: Body, b: Body, c: Body)
    requires ConvBody(m, a, b) && ConvBody(n, b, c) && Injective(m)
    ensures ConvBody(Compose(m, n), a, c)
    decreases a, 2
  {
    ConvTransitive(m, n, a.ops, b.ops, c.ops);
    MapsToCompose(After(m, a.ops, b.ops), After(n, b.ops, c.ops), a.rets, b.rets, c.rets);
  }

  lemma {:induction false} ConvOpTransitive(m: Renaming, n: Renaming, a: Op, b: Op, c: Op)
    requires ConvOp(m, a, b) && ConvOp(n, b, c) && Injective(m)
    ensures ConvOp(Compose(m, n), a, c)
    decreases a, 1
  {
    FreshAgain(m, n, Outs(c));
    match a
    case Prim(_, _, args) => MapsToCompose(m, n, args, b.args, c.args);
    case CallOp(_, _, args) => MapsToCompose(m, n, args, b.args, c.args);
    case Copy(_, _) =>
    case CondIf(_, x, y) =>
      ConvTransitive(m, n, x, b.thn, c.thn);
      ConvTransitive(m, n, y, b.els, c.els);
    case Loop(_, x, _, y) =>
      ConvTransitive(m, n, x, b.eval, c.eval);
      ConvTransitive(m, n, y, b.body, c.body);
    case For(_, _, _, _) => ForTransitive(m, n, a, b, c);
    case Ret(vals) => MapsToCompose(m, n, vals, b.vals, c.vals);
    case FunctionDef(_, _, _) =>
      if b.FunctionDef? && c.FunctionDef? {
        FunctionTransitive(m, n, a, b, c);
      } else if b.FunctionDef? {
        CapturedLater(m, n, a, b, c);
      } else {
        CapturedFirst(m, n, a, b, c);
      }
    case FunctionDefCapture(_, _, _, _) => ClosedTransitive(m, n, a, b, c);
    case PackFunc(_, _, _, _, _) => ClosedTransitive(m, n, a, b, c);
  }

  lemma {:induction false} ForTransitive(m: Renaming, n: Renaming, a: Op, b: Op, c: Op)
    requires ConvOp(m, a, b) && ConvOp(n, b, c) && Injective(m) && a.For?
    ensures ConvOp(Compose(m, n), a, c)
    decreases a, 0
  {
    FreshAgain(m, n, c.params);
    ExtendInjective(m, a.params, b.params);
    ConvTransitive(Extend(m, a.params, b.params), Extend(n, b.params, c.params), a.body, b.body, c.body);
    ComposeExtend(m, n, a.params, b.params, c.params);
    MapsToCompose(m, n, a.args, b.args, c.args);
    hide ConvOps, Extend;
  }

  lemma FreshAgain(m: Renaming, n: Renaming, zs: seq<Name>)
    requires Fresh(n, zs)
    ensures Fresh(Compose(m, n), zs)
  {
    assert Compose(m, n).Values <= n.Values;
  }

  lemma EmptyInjective(xs: seq<Name>, ys: seq<Name>)
    requires |xs| == |ys| && Distinct(ys)
    ensures Injective(Extend(map[], xs, ys))
  {
    ExtendInjective(map[], xs, ys);
  }

  lemma {:induction false} FunctionTransitive(m: Renaming, n: Renaming, a: Op, b: Op, c: Op)
    requires ConvOp(m, a, b) && ConvOp(n, b, c) && Injective(m)
    requires a.FunctionDef? && b.FunctionDef? && c.FunctionDef?
    ensures ConvOp(Compose(m, n), a, c)
    decreases a, 0
  {
    FreshAgain(m, n, Outs(c));
    FreshAgain(m, n, c.params);
    ExtendInjective(m, a.params, b.params);
    ConvBodyTransitive(Extend(m, a.params, b.params), Extend(n, b.params, c.params), a.fcn, b.fcn, c.fcn);
    ComposeExtend(m, n, a.params, b.params, c.params);
  }

  lemma {:induction false} CapturedFirst(m: Renaming, n: Renaming, a: Op, b: Op, c: Op)
    requires ConvOp(m, a, b) && ConvOp(n, b, c) && Injective(m)
    requires a.FunctionDef? && IsClosed(b)
    ensures ConvOp(Compose(m, n), a, c)
    decreases a, 0
  {
    FreshAgain(m, n, Outs(c));
    var cs: seq<Name> :| Lists(cs, a.params, a.fcn) && Captures(m, cs, a.params, b)
      && ConvBody(Onto(cs + a.params, b), a.fcn, b.fcn);
    OntoTransitive(cs + a.params, a.fcn, b, c);
    MapsToCompose(m, n, cs, b.captures, c.captures);
    assert Captures(Compose(m, n), cs, a.params, c);
  }

  lemma {:induction false} ClosedTransitive(m: Renaming, n: Renaming, a: Op, b: Op, c: Op)
    requires ConvOp(m, a, b) && ConvOp(n, b, c) && IsClosed(a)
    ensures ConvOp(Compose(m, n), a, c)
    decreases a, 0
  {
    FreshAgain(m, n, Outs(c));
    OntoTransitive(Inputs(a), a.fcn, b, c);
    MapsToCompose(m, n, a.captures, b.captures, c.captures);
  }

  lemma {:induction false} OntoTransitive(xs: seq<Name>, f: Body, b: Op, c: Op)
    requires IsClosed(b) && IsClosed(c) && |xs| == |Inputs(b)| == |Inputs(c)| && Distinct(Inputs(b))
    requires ConvBody(Onto(xs, b), f, b.fcn) && ConvBody(Onto(Inputs(b), c), b.fcn, c.fcn)
    ensures ConvBody(Onto(xs, c), f, c.fcn)
    decreases f, 3
  {
    EmptyInjective(xs, Inputs(b));
    ConvBodyTransitive(Onto(xs, b), Onto(Inputs(b), c), f, b.fcn, c.fcn);
    ComposeExtend(map[], map[], xs, Inputs(b), Inputs(c));
    assert Compose(map[], map[]) == map[];
  }

  /** A name of the set that is sent to `y`. */
  ghost function Before(m: Renaming, s: set<Name>, y: Name): (x: Name)
    requires y in Image(m, s)
    ensures x in s && x in m && m[x] == y
  {
    var x :| x in s && x in m && m[x] == y; x
  }

  /** What the renamed function captures, under the old names. */
  lemma OldCaptures(m: Renaming, ps: seq<Name>, ps': seq<Name>, f: Body, f': Body, cs': seq<Name>)
      returns (cs: seq<Name>)
    requires Injective(m) && |ps| == |ps'| && Fresh(m, ps') && ConvBody(Extend(m, ps, ps'), f, f')
             && Lists(cs', ps', f')
    ensures Lists(cs, ps, f) && MapsTo(m, cs, cs')
  {
    var s := FreeBody(f) - Names(ps);
    ConvBodyReads(Extend(m, ps, ps'), f, f');
    ImageWithout(m, ps, ps', FreeBody(f));
    assert Names(cs') == Image(m, s);
    assert forall i :: 0 <= i < |cs'| ==> cs'[i] in Image(m, s);
    cs := seq(|cs'|, i requires 0 <= i < |cs'| => Before(m, s, cs'[i]));
    forall x | x in s
      ensures x in Names(cs)
    {
      assert x in m by {
        ExtendKeys(m, ps, ps');
      }
      assert m[x] in Names(cs');
      var i :| 0 <= i < |cs'| && cs'[i] == m[x];
      assert cs[i] == x;
    }
    assert Names(cs) <= s;
  }

  lemma {:induction false} CapturedLater(m: Renaming, n: Renaming, a: Op, b: Op, c: Op)
    requires ConvOp(m, a, b) && ConvOp(n, b, c) && Injective(m)
    requires a.FunctionDef? && b.FunctionDef? && IsClosed(c)
    ensures ConvOp(Compose(m, n), a, c)
    decreases a, 0
  {
    FreshAgain(m, n, Outs(c));
    var ps, ps', f, f' := a.params, b.params, a.fcn, b.fcn;
    var cs': seq<Name> :| Lists(cs', ps', f') && Captures(n, cs', ps', c) && ConvBody(Onto(cs' + ps', c), f', c.fcn);
    var cs := OldCaptures(m, ps, ps', f, f', cs');
    ExtendInjective(m, ps, ps');
    ConvBodyTransitive(Extend(m, ps, ps'), Onto(cs' + ps', c), f, f', c.fcn);
    SameOnto(m, cs, cs', ps, ps', c);
    MapsToCompose(m, n, cs, cs', c.captures);
    assert Captures(Compose(m, n), cs, ps, c);
  }

  /** Renaming and then sending onto inputs, or sending onto inputs at once. */
  lemma SameOnto(m: Renaming, cs: seq<Name>, cs': seq<Name>, ps: seq<Name>, ps': seq<Name>, c: Op)
    requires IsClosed(c) && Injective(m) && |ps| == |ps'| && Fresh(m, ps') && MapsTo(m, cs, cs')
    requires Distinct(cs) && Names(cs) !! Names(ps) && |Inputs(c)| == |cs| + |ps|
    ensures Compose(Extend(m, ps, ps'), Onto(cs' + ps', c)) == Onto(cs + ps, c)
  {
    var us, vs := Inputs(c)[..|cs|], Inputs(c)[|cs|..];
    assert Inputs(c) == us + vs;
    ExtendAppend(map[], cs', us, ps', vs);
    ExtendAppend(map[], cs, us, ps, vs);
    ComposeExtend(m, Extend(map[], cs', us), ps, ps', vs);
    ComposeOnto(m, cs, cs', us);
  }

  lemma ComposeOnto(m: Renaming, cs: seq<Name>, cs': seq<Name>, us: seq<Name>)
    requires Injective(m) && MapsTo(m, cs, cs') && Distinct(cs) && |us| == |cs|
    ensures Compose(m, Extend(map[], cs', us)) == Extend(map[], cs, us)
  {
    var l, r := Extend(map[], cs', us), Extend(map[], cs, us);
    ExtendKeys(map[], cs', us);
    ExtendKeys(map[], cs, us);
    hide Extend, Injective, MapsTo, Distinct;
    forall x | x in m && m[x] in l
      ensures x in r && l[m[x]] == r[x]
    {
      var i :| 0 <= i < |cs'| && cs'[i] == m[x];
      ComposeAt(m, cs, cs', us, i);
      MappedAt(m, cs, cs', i);
      SameSource(m, x, cs[i]);
    }
    forall x | x in r
      ensures x in m && m[x] in l
    {
      var i :| 0 <= i < |cs| && cs[i] == x;
      MappedAt(m, cs, cs', i);
      assert cs'[i] in l;
    }
  }

  lemma MappedAt(m: Renaming, cs: seq<Name>, cs': seq<Name>, i: nat)
    requires MapsTo(m, cs, cs') && i < |cs|
    ensures |cs'| == |cs| && cs[i] in m && m[cs[i]] == cs'[i]
  {
  }

  /** Both lead to the i-th. */
  lemma ComposeAt(m: Renaming, cs: seq<Name>, cs': seq<Name>, us: seq<Name>, i: nat)
    requires Injective(m) && MapsTo(m, cs, cs') && Distinct(cs) && |us| == |cs| && i < |cs|
    ensures |cs'| == |cs| && cs[i] in Extend(map[], cs, us) && cs'[i] in Extend(map[], cs', us)
    ensures Extend(map[], cs, us)[cs[i]] == us[i] && Extend(map[], cs', us)[cs'[i]] == us[i]
  {
    SentApart(m, cs, cs');
    ExtendAt(map[], cs', us);
    ExtendAt(map[], cs, us);
    hide Extend, Injective, MapsTo;
  }

  lemma SameSource(m: Renaming, x: Name, y: Name)
    requires Injective(m) && x in m && y in m && m[x] == m[y]
    ensures x == y
  {
  }

  lemma SentApart(m: Renaming, cs: seq<Name>, cs': seq<Name>)
    requires Injective(m) && MapsTo(m, cs, cs') && Distinct(cs)
    ensures Distinct(cs')
  {
    forall i, j | 0 <= i < j < |cs'|
      ensures cs'[i] != cs'[j]
    {
      assert cs[i] != cs[j];
    }
  }

  // ----- Complete conversions

  /** Every function is a `lua.function_def_capture`. */
  predicate Full(ops: seq<Op>)
    decreases ops, 0
  {
    ops == [] || (FullOp(ops[0]) && Full(ops[1..]))
  }

  predicate FullOp(op: Op)
    decreases op, 1
  {
    match op
    case CondIf(_, a, b) => Full(a) && Full(b)
    case Loop(_, e, _, b) => Full(e) && Full(b)
    case For(_, _, _, b) => Full(b)
    case FunctionDef(_, _, _) => false
    case FunctionDefCapture(_, _, _, f) => Full(f.ops)
    case PackFunc(_, _, _, _, _) => false
    case _ => true
  }

  /** The same list under `m`, but for the order: position `i` of the one is position `at[i]` of the other. */
  predicate Reorders(m: Renaming, xs: seq<Name>, ys: seq<Name>, at: seq<nat>) {
    && |xs| == |ys| == |at|
    && (forall i, j :: 0 <= i < j < |at| ==> at[i] != at[j])
    && forall i :: 0 <= i < |at| ==> at[i] < |ys| && Sends(m, xs[i], ys[at[i]])
  }

  /** The arguments in the order of the other list of captures, then the parameters. */
  function Arranged(args: seq<Name>, at: seq<nat>): seq<Name>
    requires forall i :: 0 <= i < |at| ==> at[i] < |args|
    requires |at| <= |args|
  {
    seq(|at|, i requires 0 <= i < |at| => args[at[i]]) + args[|at|..]
  }

  /** Equal but for names, as `m` says, and for the order of captures. */
  ghost predicate SameOps(m: Renaming, a: seq<Op>, b: seq<Op>)
    decreases a, 0
  {
    |a| == |b| && (a == [] || (SameOp(m, a[0], b[0]) && SameOps(Step(m, a[0], b[0]), a[1..], b[1..])))
  }

  ghost predicate SameOp(m: Renaming, a: Op, b: Op)
    decreases a, 1
  {
    && |Outs(a)| == |Outs(b)|
    && match a
       case Prim(kind, _, args) => b.Prim? && b.kind == kind && MapsTo(m, args, b.args)
       case Copy(t, s) => b.Copy? && Sends(m, t, b.tgt) && Sends(m, s, b.src)
       case CallOp(_, f, args) => b.CallOp? && Sends(m, f, b.callee) && MapsTo(m, args, b.args)
       case CondIf(c, x, y) => b.CondIf? && Sends(m, c, b.cond) && SameOps(m, x, b.thn) && SameOps(m, y, b.els)
       case Loop(u, x, c, y) =>
         && b.Loop? && b.until == u && SameOps(m, x, b.eval)
         && Sends(After(m, x, b.eval), c, b.cond) && SameOps(m, y, b.body)
       case For(numeric, args, ps, x) =>
         && b.For? && b.numeric == numeric && MapsTo(m, args, b.args)
         && |b.params| == |ps| && SameOps(Extend(m, ps, b.params), x, b.body)
       case Ret(vals) => b.Ret? && MapsTo(m, vals, b.vals)
       case FunctionDefCapture(_, cs, xs, f) =>
         && b.FunctionDefCapture? && |cs| <= |xs| == |b.args| && Distinct(b.args)
         && exists at: seq<nat> :: Reorders(m, cs, b.captures, at)
              && SameBody(Extend(map[], xs, Arranged(b.args, at)), f, b.fcn)
       case _ => false
  }

  ghost predicate SameBody(m: Renaming, f: Body, f': Body)
    decreases f, 2
  {
    SameOps(m, f.ops, f'.ops) && MapsTo(After(m, f.ops, f'.ops), f.rets, f'.rets)
  }

  /** `m` leads from the names of one renaming to those of another. */
  predicate Links(m: Renaming, r: Renaming, r': Renaming) {
    forall x :: x in r ==> x in r' && Sends(m, r[x], r'[x])
  }

  lemma {:induction false} LinksExtend(m: Renaming, r: Renaming, r': Renaming, xs: seq<Name>, ys: seq<Name>,
      zs: seq<Name>)
    requires Links(m, r, r') && |xs| == |ys| == |zs| && Fresh(r, ys)
    ensures Links(Extend(m, ys, zs), Extend(r, xs, ys), Extend(r', xs, zs))
    decreases xs
  {
    if xs != [] {
      FreshStep(r, xs[0], ys);
      var m1, r1, r1' := m[ys[0] := zs[0]], r[xs[0] := ys[0]], r'[xs[0] := zs[0]];
      forall x | x in r1
        ensures x in r1' && Sends(m1, r1[x], r1'[x])
      {
        assert x != xs[0] ==> r[x] in r.Values;
      }
      LinksExtend(m1, r1, r1', xs[1..], ys[1..], zs[1..]);
    }
  }

  lemma LinksMapsTo(m: Renaming, r: Renaming, r': Renaming, xs: seq<Name>, ys: seq<Name>, zs: seq<Name>)
    requires Links(m, r, r') && MapsTo(r, xs, ys) && MapsTo(r', xs, zs)
    ensures MapsTo(m, ys, zs)
  {
  }

  /** Two complete conversions of the same program, however they went about it and whatever names
      they made up, differ at most in those names and in the order of the captures. */
  lemma {:induction false} ConversionConfluent(m: Renaming, r: Renaming, r': Renaming, p: seq<Op>, a: seq<Op>,
      b: seq<Op>)
    requires ConvOps(r, p, a) && ConvOps(r', p, b) && Full(a) && Full(b) && Links(m, r, r')
    ensures SameOps(m, a, b) && Links(After(m, a, b), After(r, p, a), After(r', p, b))
    decreases p, 0
  {
    if p != [] {
      ConversionConfluentOp(m, r, r', p[0], a[0], b[0]);
      LinksExtend(m, r, r', Outs(p[0]), Outs(a[0]), Outs(b[0]));
      ConversionConfluent(Step(m, a[0], b[0]), Step(r, p[0], a[0]), Step(r', p[0], b[0]), p[1..], a[1..], b[1..]);
    }
  }

  lemma {:induction false} ConfluentBody(m: Renaming, r: Renaming, r': Renaming, p: Body, a: Body, b: Body)
    requires ConvBody(r, p, a) && ConvBody(r', p, b) && Full(a.ops) && Full(b.ops) && Links(m, r, r')
    ensures SameBody(m, a, b)
    decreases p, 2
  {
    ConversionConfluent(m, r, r', p.ops, a.ops, b.ops);
    LinksMapsTo(After(m, a.ops, b.ops), After(r, p.ops, a.ops), After(r', p.ops, b.ops), p.rets, a.rets, b.rets);
  }

  lemma {:induction false} ConversionConfluentOp(m: Renaming, r: Renaming, r': Renaming, op: Op, a: Op, b: Op)
    requires ConvOp(r, op, a) && ConvOp(r', op, b) && FullOp(a) && FullOp(b) && Links(m, r, r')
    ensures SameOp(m, a, b)
    decreases op, 1
  {
    match op
    case Prim(_, _, args) => LinksMapsTo(m, r, r', args, a.args, b.args);
    case Copy(_, _) =>
    case CallOp(_, _, args) => LinksMapsTo(m, r, r', args, a.args, b.args);
    case CondIf(_, x, y) =>
      ConversionConfluent(m, r, r', x, a.thn, b.thn);
      ConversionConfluent(m, r, r', y, a.els, b.els);
    case Loop(_, x, c, y) =>
      ConversionConfluent(m, r, r', x, a.eval, b.eval);
      ConversionConfluent(m, r, r', y, a.body, b.body);
    case For(_, args, ps, x) =>
      LinksMapsTo(m, r, r', args, a.args, b.args);
      LinksExtend(m, r, r', ps, a.params, b.params);
      ConversionConfluent(Extend(m, a.params, b.params), Extend(r, ps, a.params), Extend(r', ps, b.params), x, a.body,
        b.body);
    case Ret(vals) => LinksMapsTo(m, r, r', vals, a.vals, b.vals);
    case FunctionDef(_, _, _) => ConfluentFunction(m, r, r', op, a, b);
    case FunctionDefCapture(_, _, _, _) => ConfluentCaptured(m, r, r', op, a, b);
    case PackFunc(_, _, _, _, _) =>
  }

  lemma {:induction false} ConfluentFunction(m: Renaming, r: Renaming, r': Renaming, op: Op, a: Op, b: Op)
    requires ConvOp(r, op, a) && ConvOp(r', op, b) && FullOp(a) && FullOp(b) && Links(m, r, r') && op.FunctionDef?
    ensures SameOp(m, a, b)
    decreases op, 0
  {
    var ps, f := op.params, op.fcn;
    var cs: seq<Name> :| Lists(cs, ps, f) && Captures(r, cs, ps, a) && ConvBody(Onto(cs + ps, a), f, a.fcn);
    var cs': seq<Name> :| Lists(cs', ps, f) && Captures(r', cs', ps, b) && ConvBody(Onto(cs' + ps, b), f, b.fcn);
    var at := Positions(cs, cs');
    InOrder(m, r, r', cs, cs', at, a, b);
    LinksOnto(cs, cs', ps, at, a, b);
    hide ConvOp, Links, Lists, ConvBody, Reorders, Onto;
    ConfluentBody(Extend(map[], a.args, Arranged(b.args, at)), Onto(cs + ps, a), Onto(cs' + ps, b), f, a.fcn, b.fcn);
  }

  lemma {:induction false} ConfluentCaptured(m: Renaming, r: Renaming, r': Renaming, op: Op, a: Op, b: Op)
    requires ConvOp(r, op, a) && ConvOp(r', op, b) && FullOp(a) && FullOp(b) && Links(m, r, r')
             && op.FunctionDefCapture?
    ensures SameOp(m, a, b)
    decreases op, 0
  {
    var cs, xs, f := op.captures, op.args, op.fcn;
    var at := seq(|cs|, i requires 0 <= i < |cs| => i as nat);
    LinksMapsTo(m, r, r', cs, a.captures, b.captures);
    assert Reorders(m, a.captures, b.captures, at);
    assert Arranged(b.args, at) == b.args;
    LinksExtend(map[], map[], map[], xs, a.args, b.args);
    hide Links, ConvBody, Reorders;
    ConfluentBody(Extend(map[], a.args, b.args), Onto(xs, a), Onto(xs, b), f, a.fcn, b.fcn);
  }

  /** Where the elements of one list stand in another list of the same set. */
  ghost function Positions(xs: seq<Name>, ys: seq<Name>): (at: seq<nat>)
    requires Distinct(xs) && Distinct(ys) && Names(xs) == Names(ys)
    ensures |at| == |xs| == |ys| && (forall i :: 0 <= i < |at| ==> at[i] < |ys| && ys[at[i]] == xs[i])
  {
    SameSize(xs, ys);
    assert forall i :: 0 <= i < |xs| ==> xs[i] in Names(ys);
    seq(|xs|, i requires 0 <= i < |xs| => var j: nat :| j < |ys| && ys[j] == xs[i]; j)
  }

  lemma SameSize(xs: seq<Name>, ys: seq<Name>)
    requires Distinct(xs) && Distinct(ys) && Names(xs) == Names(ys)
    ensures |xs| == |ys|
  {
    NamesSize(xs);
    NamesSize(ys);
  }

  lemma {:induction false} NamesSize(xs: seq<Name>)
    requires Distinct(xs)
    ensures |Names(xs)| == |xs|
    decreases |xs|
  {
    if xs != [] {
      NamesSize(xs[1..]);
      assert Names(xs) == {xs[0]} + Names(xs[1..]);
    }
  }

  lemma InOrder(m: Renaming, r: Renaming, r': Renaming, cs: seq<Name>, cs': seq<Name>, at: seq<nat>, a: Op, b: Op)
    requires Links(m, r, r') && Distinct(cs) && a.FunctionDefCapture? && b.FunctionDefCapture?
    requires MapsTo(r, cs, a.captures) && MapsTo(r', cs', b.captures) && |at| == |cs| == |cs'|
    requires forall i :: 0 <= i < |at| ==> at[i] < |cs'| && cs'[at[i]] == cs[i]
    ensures Reorders(m, a.captures, b.captures, at)
  {
    forall i, j | 0 <= i < j < |at|
      ensures at[i] != at[j]
    {
      assert cs[i] != cs[j];
    }
  }

  lemma LinksOnto(cs: seq<Name>, cs': seq<Name>, ps: seq<Name>, at: seq<nat>, a: Op, b: Op)
    requires a.FunctionDefCapture? && b.FunctionDefCapture? && Distinct(a.args) && Distinct(cs')
    requires |cs| == |cs'| == |at| && |a.args| == |b.args| == |cs| + |ps|
    requires forall i :: 0 <= i < |at| ==> at[i] < |cs'| && cs'[at[i]] == cs[i]
    requires Distinct(cs) && Names(cs) == Names(cs')
    ensures Links(Extend(map[], a.args, Arranged(b.args, at)), Onto(cs + ps, a), Onto(cs' + ps, b))
  {
    var us, vs := b.args[..|cs|], b.args[|cs|..];
    var us' := seq(|at|, i requires 0 <= i < |at| => b.args[at[i]]);
    assert b.args == us + vs && Arranged(b.args, at) == us' + vs;
    ExtendAppend(map[], cs', us, ps, vs);
    ExtendAppend(map[], cs, us', ps, vs);
    SamePairs(cs, us', cs', us, at);
    LinksExtend(map[], map[], map[], cs + ps, a.args, us' + vs);
  }

  lemma SamePairs(cs: seq<Name>, us': seq<Name>, cs': seq<Name>, us: seq<Name>, at: seq<nat>)
    requires |cs| == |us'| == |cs'| == |us| == |at| && Distinct(cs) && Distinct(cs') && Names(cs) == Names(cs')
    requires forall i :: 0 <= i < |at| ==> at[i] < |cs'| && cs'[at[i]] == cs[i] && us'[i] == us[at[i]]
    ensures Extend(map[], cs, us') == Extend(map[], cs', us)
  {
    ExtendAt(map[], cs, us');
    ExtendAt(map[], cs', us);
    ExtendKeys(map[], cs, us');
    ExtendKeys(map[], cs', us);
    var l, r := Extend(map[], cs, us'), Extend(map[], cs', us);
    forall x | x in l
      ensures x in r && r[x] == l[x]
    {
      var i :| 0 <= i < |cs| && cs[i] == x;
      assert cs'[at[i]] in r;
    }
    assert l.Keys == r.Keys;
  }
}
