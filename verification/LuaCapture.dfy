/** The rewrite that makes captures explicit. */
module LuaCapture {
  // It walks the function, collects what is defined outside, lists it in some order, and builds the
  // capturing function.

  import opened LuaClosures
  import opened LuaConversion
  import opened LuaConfluence

  /** Adds the operands that are not defined inside the function. */
  method AddOperands(vals: seq<Name>, inside: set<Name>, captures: set<Name>) returns (r: set<Name>)
    ensures r == captures + (Names(vals) - inside)
  {
    r := captures;
    for i := 0 to |vals|
      invariant r == captures + (Names(vals[..i]) - inside)
    {
      assert Names(vals[..i + 1]) == Names(vals[..i]) + {vals[i]};
      if vals[i] !in inside {
        r := r + {vals[i]};
      }
    }
    assert vals[..|vals|] == vals;
  }

  lemma {:induction false} OperandsSnoc(ops: seq<Op>, op: Op)
    ensures OpsOperands(ops + [op]) == OpsOperands(ops) + Operands(op)
    decreases |ops|
  {
    hide Operands;
    if ops == [] {
      assert ops + [op] == [op];
    } else {
      assert (ops + [op])[1..] == ops[1..] + [op];
      OperandsSnoc(ops[1..], op);
    }
  }

  method Walk(ops: seq<Op>, inside: set<Name>, captures: set<Name>) returns (r: set<Name>)
    ensures r == captures + (OpsOperands(ops) - inside)
    decreases ops, 0
  {
    r := captures;
    for i := 0 to |ops|
      invariant r == captures + (OpsOperands(ops[..i]) - inside)
    {
      r := WalkOp(ops[i], inside, r);
      OperandsSnoc(ops[..i], ops[i]);
      assert ops[..i + 1] == ops[..i] + [ops[i]];
    }
    assert ops[..|ops|] == ops;
  }

  method WalkOp(op: Op, inside: set<Name>, captures: set<Name>) returns (r: set<Name>)
    ensures r == captures + (Operands(op) - inside)
    decreases op, 1
  {
    match op
    case Prim(_, _, args) =>
      r := AddOperands(args, inside, captures);
    case Copy(t, s) =>
      r := AddOperands([t, s], inside, captures);
    case CallOp(_, f, args) =>
      r := AddOperands([f], inside, captures);
      r := AddOperands(args, inside, r);
    case CondIf(c, a, b) =>
      r := AddOperands([c], inside, captures);
      r := Walk(a, inside, r);
      r := Walk(b, inside, r);
    case Loop(_, e, c, b) =>
      r := Walk(e, inside, captures);
      r := AddOperands([c], inside, r);
      r := Walk(b, inside, r);
    case For(_, args, _, b) =>
      r := AddOperands(args, inside, captures);
      r := Walk(b, inside, r);
    case Ret(vals) =>
      r := AddOperands(vals, inside, captures);
    case FunctionDef(_, _, f) =>
      r := Walk(f.ops, inside, captures);
      r := AddOperands(f.rets, inside, r);
    case FunctionDefCapture(_, cs, _, f) =>
      r := AddOperands(cs, inside, captures);
      r := Walk(f.ops, inside, r);
      r := AddOperands(f.rets, inside, r);
    case PackFunc(_, cs, _, _, f) =>
      r := AddOperands(cs, inside, captures);
      r := Walk(f.ops, inside, r);
      r := AddOperands(f.rets, inside, r);
  }

  /** A list of a set, in no particular order. */
  method ToList(s: set<Name>) returns (r: seq<Name>)
    ensures Distinct(r) && Names(r) == s
  {
    r := [];
    var rest := s;
    while rest != {}
      invariant rest <= s && Names(r) == s - rest && Distinct(r)
      decreases rest
    {
      var x :| x in rest;
      assert x !in Names(r);
      assert Names(r + [x]) == Names(r) + {x};
      r, rest := r + [x], rest - {x};
    }
  }

  // ----- Copying ops

  /** A name without an entry stays as it is. */
  function LookUp(m: Renaming, x: Name): Name { if x in m then m[x] else x }

  function LookUpAll(m: Renaming, xs: seq<Name>): (r: seq<Name>)
    ensures |r| == |xs|
  {
    seq(|xs|, i requires 0 <= i < |xs| => LookUp(m, xs[i]))
  }

  /** `k` names that nothing has yet. */
  function New(n: nat, k: nat): (r: seq<Name>)
    ensures |r| == k && forall i :: 0 <= i < k ==> r[i] == n + i
  {
    seq(k, i requires 0 <= i < k => n + i)
  }

  /** Operands are looked up, results and entry arguments are new; `n` is the next new name. */
  function Clone(m: Renaming, ops: seq<Op>, n: nat): (seq<Op>, nat)
    decreases ops, 0
  {
    if ops == [] then ([], n)
    else
      var (op, n1) := CloneOp(m, ops[0], n);
      var (rest, n2) := Clone(Step(m, ops[0], op), ops[1..], n1);
      ([op] + rest, n2)
  }

  function CloneOp(m: Renaming, op: Op, n: nat): (Op, nat)
    decreases op, 1
  {
    match op
    case Prim(kind, _, args) => (Prim(kind, n, LookUpAll(m, args)), n + 1)
    case Copy(t, s) => (Copy(LookUp(m, t), LookUp(m, s)), n)
    case CallOp(outs, f, args) => (CallOp(New(n, |outs|), LookUp(m, f), LookUpAll(m, args)), n + |outs|)
    case CondIf(c, a, b) =>
      var (a', n1) := Clone(m, a, n);
      var (b', n2) := Clone(m, b, n1);
      (CondIf(LookUp(m, c), a', b'), n2)
    case Loop(u, e, c, b) =>
      var (e', n1) := Clone(m, e, n);
      var (b', n2) := Clone(m, b, n1);
      (Loop(u, e', LookUp(After(m, e, e'), c), b'), n2)
    case For(numeric, args, ps, b) =>
      var ps' := New(n, |ps|);
      var (b', n1) := Clone(Extend(m, ps, ps'), b, n + |ps|);
      (For(numeric, LookUpAll(m, args), ps', b'), n1)
    case Ret(vals) => (Ret(LookUpAll(m, vals)), n)
    case FunctionDef(_, ps, f) =>
      var ps' := New(n, |ps|);
      var (f', n1) := CloneBody(Extend(m, ps, ps'), f, n + |ps|);
      (FunctionDef(n1, ps', f'), n1 + 1)
    case FunctionDefCapture(_, cs, xs, f) =>
      var xs' := New(n, |xs|);
      var (f', n1) := CloneBody(Extend(map[], xs, xs'), f, n + |xs|);
      (FunctionDefCapture(n1, LookUpAll(m, cs), xs', f'), n1 + 1)
    case PackFunc(_, cs, xs, ps, f) =>
      var xs', ps' := New(n, |xs|), New(n + |xs|, |ps|);
      var (f', n1) := CloneBody(Extend(map[], xs + ps, xs' + ps'), f, n + |xs| + |ps|);
      (PackFunc(n1, LookUpAll(m, cs), xs', ps', f'), n1 + 1)
  }

  function CloneBody(m: Renaming, f: Body, n: nat): (Body, nat)
    decreases f, 2
  {
    var (ops, n1) := Clone(m, f.ops, n);
    (Body(ops, LookUpAll(After(m, f.ops, ops), f.rets)), n1)
  }

  ghost predicate Under(m: Renaming, n: nat) { forall x :: x in m ==> m[x] < n }

  /** Everything in the code is well formed as far as copying is concerned. */
  predicate Splits(ops: seq<Op>)
    decreases ops, 0
  {
    ops == [] || (SplitsOp(ops[0]) && Splits(ops[1..]))
  }

  predicate SplitsOp(op: Op)
    decreases op, 1
  {
    match op
    case CondIf(_, a, b) => Splits(a) && Splits(b)
    case Loop(_, e, _, b) => Splits(e) && Splits(b)
    case For(_, _, _, b) => Splits(b)
    case FunctionDef(_, _, f) => Splits(f.ops)
    case FunctionDefCapture(_, _, _, f) => Split(op) && Splits(f.ops)
    case PackFunc(_, _, _, _, f) => Split(op) && Splits(f.ops)
    case _ => true
  }

  ghost predicate Below(v: set<Name>, n: nat) { forall x :: x in v ==> x < n }

  ghost predicate Between(v: set<Name>, lo: nat, hi: nat) { lo <= hi && forall x :: x in v ==> lo <= x < hi }

  lemma NewNames(n: nat, k: nat, v: set<Name>)
    requires Below(v, n)
    ensures Distinct(New(n, k)) && Names(New(n, k)) !! v && Below(v + Names(New(n, k)), n + k)
    ensures Between(Names(New(n, k)), n, n + k)
  {
  }

  lemma NewIsFresh(m: Renaming, n: nat, k: nat)
    requires Under(m, n)
    ensures Fresh(m, New(n, k))
  {
    forall i | 0 <= i < k
      ensures New(n, k)[i] !in m.Values
    {
    }
  }

  lemma {:induction false} ExtendUnder(m: Renaming, xs: seq<Name>, ys: seq<Name>, n: nat)
    requires Under(m, n) && |xs| == |ys| && forall i :: 0 <= i < |ys| ==> ys[i] < n
    ensures Under(Extend(m, xs, ys), n)
    decreases xs
  {
    if xs != [] {
      ExtendUnder(m[xs[0] := ys[0]], xs[1..], ys[1..], n);
    }
  }

  lemma LookedUp(m: Renaming, xs: seq<Name>)
    requires Names(xs) <= m.Keys
    ensures MapsTo(m, xs, LookUpAll(m, xs))
  {
    forall i | 0 <= i < |xs|
      ensures xs[i] in m
    {
      assert xs[i] in Names(xs);
    }
  }

  /** A copy is a conversion that converts nothing, with new names throughout. */
  lemma {:induction false} CloneConverts(m: Renaming, ops: seq<Op>, n: nat)
    requires FreeOps(ops) <= m.Keys && Isolated(ops) && Splits(ops) && Under(m, n)
    ensures var (ops', n') := Clone(m, ops, n);
            ConvOps(m, ops, ops') && n <= n' && Under(After(m, ops, ops'), n')
    decreases ops, 0
  {
    if ops != [] {
      var (op, n1) := CloneOp(m, ops[0], n);
      CloneOpConverts(m, ops[0], n);
      ExtendKeys(m, Outs(ops[0]), Outs(op));
      CloneConverts(Step(m, ops[0], op), ops[1..], n1);
    }
  }

  lemma {:induction false} CloneOpConverts(m: Renaming, op: Op, n: nat)
    requires FreeOp(op) <= m.Keys && IsolatedOp(op) && SplitsOp(op) && Under(m, n)
    ensures var (op', n') := CloneOp(m, op, n);
            ConvOp(m, op, op') && n <= n' && Under(Step(m, op, op'), n')
    decreases op, 1
  {
    match op
    case Prim(_, r, args) =>
      LookedUp(m, args);
      NewIsFresh(m, n, 1);
      assert New(n, 1) == [n];
      ExtendUnder(m, [r], [n], n + 1);
    case Copy(_, _) =>
    case CallOp(outs, _, args) =>
      LookedUp(m, args);
      NewIsFresh(m, n, |outs|);
      ExtendUnder(m, outs, New(n, |outs|), n + |outs|);
    case CondIf(_, a, b) =>
      CloneConverts(m, a, n);
      CloneConverts(m, b, Clone(m, a, n).1);
    case Loop(_, e, c, b) =>
      CloneConverts(m, e, n);
      CloneConverts(m, b, Clone(m, e, n).1);
      AfterKeys(m, e, Clone(m, e, n).0);
    case For(_, _, _, _) => CloneFor(m, op, n);
    case Ret(vals) => LookedUp(m, vals);
    case FunctionDef(r, ps, f) => CloneFunction(m, op, n);
    case FunctionDefCapture(_, _, _, _) => CloneClosed(m, op, n);
    case PackFunc(_, _, _, _, _) => CloneClosed(m, op, n);
  }

  lemma {:induction false} CloneFor(m: Renaming, op: Op, n: nat)
    requires op.For? && FreeOp(op) <= m.Keys && IsolatedOp(op) && SplitsOp(op) && Under(m, n)
    ensures var (op', n') := CloneOp(m, op, n);
            ConvOp(m, op, op') && n <= n' && Under(Step(m, op, op'), n')
    decreases op, 0
  {
    hide Clone, ConvOps, Splits, Isolated, FreeOps, MapsTo, Fresh, LookUpAll;
    var ps, b := op.params, op.body;
    var ps' := New(n, |ps|);
    LookedUp(m, op.args);
    NewIsFresh(m, n, |ps|);
    NoResults(m);
    ExtendKeys(m, ps, ps');
    ExtendUnder(m, ps, ps', n + |ps|);
    CloneConverts(Extend(m, ps, ps'), b, n + |ps|);
  }

  lemma NoResults(m: Renaming)
    ensures Fresh(m, []) && Extend(m, [], []) == m
  {
  }

  lemma {:induction false} CloneBodyConverts(m: Renaming, f: Body, n: nat)
    requires FreeBody(f) <= m.Keys && Isolated(f.ops) && Splits(f.ops) && Under(m, n)
    ensures var (f', n') := CloneBody(m, f, n); ConvBody(m, f, f') && n <= n'
    decreases f, 2
  {
    CloneConverts(m, f.ops, n);
    var ops' := Clone(m, f.ops, n).0;
    AfterKeys(m, f.ops, ops');
    LookedUp(After(m, f.ops, ops'), f.rets);
  }

  lemma {:induction false} CloneFunction(m: Renaming, op: Op, n: nat)
    requires op.FunctionDef? && FreeOp(op) <= m.Keys && IsolatedOp(op) && SplitsOp(op) && Under(m, n)
    ensures var (op', n') := CloneOp(m, op, n);
            ConvOp(m, op, op') && n <= n' && Under(Step(m, op, op'), n')
    decreases op, 0
  {
    var ps, f := op.params, op.fcn;
    var ps' := New(n, |ps|);
    NewIsFresh(m, n, |ps|);
    ExtendKeys(m, ps, ps');
    ExtendUnder(m, ps, ps', n + |ps|);
    CloneBodyConverts(Extend(m, ps, ps'), f, n + |ps|);
    var n1 := CloneBody(Extend(m, ps, ps'), f, n + |ps|).1;
    NewResult(m, op.res, n1);
  }

  lemma NewResult(m: Renaming, r: Name, n: nat)
    requires Under(m, n)
    ensures Fresh(m, [n]) && Under(Extend(m, [r], [n]), n + 1)
  {
    NewIsFresh(m, n, 1);
    assert New(n, 1) == [n];
    ExtendUnder(m, [r], [n], n + 1);
  }

  lemma {:induction false} CloneClosed(m: Renaming, op: Op, n: nat)
    requires IsClosed(op) && FreeOp(op) <= m.Keys && IsolatedOp(op) && SplitsOp(op) && Under(m, n)
    ensures var (op', n') := CloneOp(m, op, n);
            ConvOp(m, op, op') && n <= n' && Under(Step(m, op, op'), n')
    decreases op, 0
  {
    var xs, k := Inputs(op), |Inputs(op)|;
    var (op', n') := CloneOp(m, op, n);
    ClosedCopy(m, op, n);
    NewNames(n, k, {});
    LookedUp(m, op.captures);
    CopyConverts(map[], xs, New(n, k), op.fcn, n + k);
    assert ConvBody(Onto(xs, op'), op.fcn, op'.fcn);
    assert Captures(m, op.captures, xs[|op.captures|..], op');
    hide CloneOp, CloneBody, New, ConvBody, Captures, IsolatedOp, SplitsOp;
    NewResult(m, op.res, n' - 1);
  }

  lemma {:induction false} CopyConverts(m: Renaming, xs: seq<Name>, ys: seq<Name>, f: Body, n: nat)
    requires |xs| == |ys| && Under(m, n) && (forall i :: 0 <= i < |ys| ==> ys[i] < n)
    requires FreeBody(f) <= m.Keys + Names(xs) && Isolated(f.ops) && Splits(f.ops)
    ensures var (f', n') := CloneBody(Extend(m, xs, ys), f, n); ConvBody(Extend(m, xs, ys), f, f') && n <= n'
    decreases f, 3
  {
    ExtendKeys(m, xs, ys);
    ExtendUnder(m, xs, ys, n);
    CloneBodyConverts(Extend(m, xs, ys), f, n);
  }

  /** What a closed function is copied to. */
  lemma ClosedCopy(m: Renaming, op: Op, n: nat)
    requires IsClosed(op) && SplitsOp(op)
    ensures var (op', n') := CloneOp(m, op, n); var xs := New(n, |Inputs(op)|);
            && IsClosed(op') && (op.PackFunc? ==> op'.PackFunc?) && Split(op') && Inputs(op') == xs
            && op'.captures == LookUpAll(m, op.captures) && Outs(op') == [n' - 1] && n' > 0
            && CloneBody(Extend(map[], Inputs(op), xs), op.fcn, n + |xs|) == (op'.fcn, n' - 1)
  {
    if op.PackFunc? {
      assert New(n, |op.caps|) + New(n + |op.caps|, |op.params|) == New(n, |Inputs(op)|);
    }
  }

  /** `copyInto`: one op after the other, with the mapping growing as results are cloned. */
  method CopyInto(bvm: Renaming, ops: seq<Op>, n: nat) returns (r: seq<Op>, mapping: Renaming, next: nat)
    ensures (r, next) == Clone(bvm, ops, n) && mapping == After(bvm, ops, r)
  {
    r, mapping, next := [], bvm, n;
    for i := 0 to |ops|
      invariant |r| == i && mapping == After(bvm, ops[..i], r) && (r, next) == Clone(bvm, ops[..i], n)
    {
      var (op, n1) := CloneOp(mapping, ops[i], next);
      CloneSnoc(bvm, ops[..i], ops[i], n);
      assert ops[..i + 1] == ops[..i] + [ops[i]];
      mapping := Step(mapping, ops[i], op);
      r, next := r + [op], n1;
    }
    assert ops[..|ops|] == ops;
  }

  lemma {:induction false} CloneSnoc(m: Renaming, ops: seq<Op>, op: Op, n: nat)
    ensures var (r, n1) := Clone(m, ops, n);
            var (op', n2) := CloneOp(After(m, ops, r), op, n1);
            && |r| == |ops| && Clone(m, ops + [op], n) == (r + [op'], n2)
            && After(m, ops + [op], r + [op']) == Step(After(m, ops, r), op, op')
    decreases |ops|
  {
    hide CloneOp;
    if ops == [] {
      var (r, n1) := Clone(m, ops, n);
      var (op', n2) := CloneOp(m, op, n);
      assert ops + [op] == [op] && [op][1..] == [] && r + [op'] == [op'] && [op'][1..] == [];
      assert Clone(Step(m, op, op'), [], n2) == ([], n2);
      assert [op'] + [] == [op'];
    } else {
      assert (ops + [op])[1..] == ops[1..] + [op];
      var (head, n0) := CloneOp(m, ops[0], n);
      CloneSnoc(Step(m, ops[0], head), ops[1..], op, n0);
      var (r, n1) := Clone(m, ops, n);
      var (op', n2) := CloneOp(After(m, ops, r), op, n1);
      assert r == [head] + r[1..];
      assert r + [op'] == [head] + (r[1..] + [op']);
      assert (r + [op'])[1..] == r[1..] + [op'];
    }
  }

  // ----- The patterns

  /** Maps `xs[i]` to entry argument `first + i`. */
  method MapArguments(bvm: Renaming, xs: seq<Name>, entry: seq<Name>, first: nat) returns (r: Renaming)
    requires first + |xs| <= |entry|
    ensures r == Extend(bvm, xs, entry[first..first + |xs|])
  {
    r := bvm;
    for i := 0 to |xs|
      invariant r == Extend(bvm, xs[..i], entry[first..first + i])
    {
      ExtendSnoc(bvm, xs[..i], entry[first..first + i], xs[i], entry[first + i]);
      assert xs[..i + 1] == xs[..i] + [xs[i]];
      assert entry[first..first + i + 1] == entry[first..first + i] + [entry[first + i]];
      r := r[xs[i] := entry[first + i]];
    }
    assert xs[..|xs|] == xs;
  }

  lemma ExtendSnoc(m: Renaming, xs: seq<Name>, ys: seq<Name>, x: Name, y: Name)
    requires |xs| == |ys|
    ensures Extend(m, xs + [x], ys + [y]) == Extend(m, xs, ys)[x := y]
  {
    ExtendAppend(m, xs, ys, [x], [y]);
    ExtendOne(Extend(m, xs, ys), x, y);
  }

  /** Copies the block of a function onto `entry`. */
  method CopyBody(bvm: Renaming, xs: seq<Name>, entry: seq<Name>, f: Body, n: nat) returns (r: Body, next: nat)
    requires |xs| == |entry| && bvm == Extend(map[], xs, entry) && (forall i :: 0 <= i < |entry| ==> entry[i] < n)
    requires FreeBody(f) <= Names(xs) && Isolated(f.ops) && Splits(f.ops)
    ensures ConvBody(bvm, f, r) && (r, next) == CloneBody(bvm, f, n)
  {
    ExtendKeys(map[], xs, entry);
    ExtendUnder(map[], xs, entry, n);
    CloneBodyConverts(bvm, f, n);
    var ops, mapping, m := CopyInto(bvm, f.ops, n);
    r, next := Body(ops, LookUpAll(mapping, f.rets)), m;
  }

  /** The captures are mapped to the first entry arguments, the parameters to the others. */
  lemma EntryMap(list: seq<Name>, params: seq<Name>, entry: seq<Name>)
    requires |entry| == |list| + |params|
    ensures Extend(Extend(map[], list, entry[0..|list|]), params, entry[|list|..|list| + |params|])
            == Extend(map[], list + params, entry)
    ensures Names(list + params) == Names(list) + Names(params)
  {
    ExtendAppend(map[], list, entry[..|list|], params, entry[|list|..]);
    assert entry[..|list|] + entry[|list|..] == entry && entry[|list|..|list| + |params|] == entry[|list|..];
    assert entry[0..|list|] == entry[..|list|];
  }

  /** Captured value `i` goes to entry argument `i`, and parameter `i` to entry argument
      `|captures| + i`; the body is copied with that mapping. */
  method ExplicitCapture(res: Name, params: seq<Name>, f: Body, n: nat) returns (op: Op, next: nat)
    requires Isolated(f.ops) && Splits(f.ops) && FreeBody(f) - Names(params) !! OpsDefined(f.ops)
    ensures op.FunctionDefCapture? && op.res == res && op.args == New(n, |op.captures| + |params|)
    ensures Lists(op.captures, params, f) && ConvBody(Onto(op.captures + params, op), f, op.fcn)
    ensures (op.fcn, next) == CloneBody(Onto(op.captures + params, op), f, n + |op.args|)
  {
    hide Extend, Isolated, Splits, FreeBody, ConvBody, OpsDefined, CloneBody;
    var captures := CapturedValues(params, f);
    var list := ToList(captures);
    var entry := New(n, |list| + |params|);
    var bvm := MapArguments(map[], list, entry, 0);
    bvm := MapArguments(bvm, params, entry, |list|);
    EntryMap(list, params, entry);
    var fcn, m := CopyBody(bvm, list + params, entry, f, n + |entry|);
    op, next := FunctionDefCapture(res, list, entry, fcn), m;
  }

  /** The walk over the function and its result. */
  method CapturedValues(params: seq<Name>, f: Body) returns (r: set<Name>)
    requires Isolated(f.ops) && FreeBody(f) - Names(params) !! OpsDefined(f.ops)
    ensures r == FreeBody(f) - Names(params)
  {
    var inside := Names(params) + OpsDefined(f.ops);
    r := Walk(f.ops, inside, {});
    r := AddOperands(f.rets, inside, r);
    CaptureSetExact(params, f);
    assert r == (OpsOperands(f.ops) + Names(f.rets)) - inside;
  }

  /** Entry argument `i` goes to slot `i` of the capture object, and entry argument `|captures| + i`
      to value `i` of the argument pack. */
  method ArgPackFunctionDef(op: Op, n: nat) returns (r: Op, next: nat)
    requires op.FunctionDefCapture? && IsolatedOp(op) && SplitsOp(op)
    ensures r.PackFunc? && r.res == op.res && r.captures == op.captures && |r.caps| == |op.captures|
    ensures |Inputs(r)| == |op.args| && Distinct(Inputs(r)) && ConvBody(Onto(op.args, r), op.fcn, r.fcn)
  {
    var k := |op.captures|;
    var caps := New(n, k);
    var args := New(n + k, |op.args| - k);
    var bvm := MapArguments(map[], op.args[..k], caps, 0);
    bvm := MapArguments(bvm, op.args[k..], args, 0);
    assert caps[0..k] == caps && args[0..|args|] == args && op.args[..k] + op.args[k..] == op.args;
    ExtendAppend(map[], op.args[..k], caps, op.args[k..], args);
    var fcn, m := CopyBody(bvm, op.args, caps + args, op.fcn, n + |op.args|);
    r, next := PackFunc(op.res, op.captures, caps, args, fcn), m;
  }

  // ----- What a copy is like

  /** Single assignment: what an op defines has not been defined before; `v` are the values around. */
  predicate Single(v: set<Name>, ops: seq<Op>)
    decreases ops, 0
  {
    ops == [] || (SingleOp(v, ops[0]) && Single(v + Results(ops[0]), ops[1..]))
  }

  predicate SingleOp(v: set<Name>, op: Op)
    decreases op, 1
  {
    && Distinct(Outs(op)) && Results(op) !! v
    && match op
       case CondIf(_, a, b) => Single(v, a) && Single(v, b)
       case Loop(_, e, _, b) => Single(v, e) && Single(v, b)
       case For(_, _, ps, b) => Distinct(ps) && Names(ps) !! v && Single(v + Names(ps), b)
       case FunctionDef(_, ps, f) => Distinct(ps) && Names(ps) !! v && Single(v + Names(ps), f.ops)
       case FunctionDefCapture(_, _, xs, f) => Distinct(xs) && Names(xs) !! v && Single(v + Names(xs), f.ops)
       case PackFunc(_, _, xs, ps, f) =>
         Distinct(xs + ps) && Names(xs + ps) !! v && Single(v + Names(xs + ps), f.ops)
       case _ => true
  }

  /** All that a copy defines is new, nothing twice. */
  lemma {:induction false} CloneSingle(m: Renaming, ops: seq<Op>, n: nat, v: set<Name>)
    requires Below(v, n) && Splits(ops)
    ensures var (ops', n') := Clone(m, ops, n);
            Single(v, ops') && Splits(ops') && Between(OpsDefined(ops'), n, n') && Below(v + OpsResults(ops'), n')
    decreases ops, 0
  {
    if ops != [] {
      var (op, n1) := CloneOp(m, ops[0], n);
      CloneOpSingle(m, ops[0], n, v);
      CloneSingle(Step(m, ops[0], op), ops[1..], n1, v + Results(op));
      var (ops', n') := Clone(m, ops, n);
      assert ops'[1..] == Clone(Step(m, ops[0], op), ops[1..], n1).0;
      assert v + Results(op) + OpsResults(ops'[1..]) == v + OpsResults(ops');
    }
  }

  lemma {:induction false} CloneOpSingle(m: Renaming, op: Op, n: nat, v: set<Name>)
    requires Below(v, n) && SplitsOp(op)
    ensures var (op', n') := CloneOp(m, op, n);
            SingleOp(v, op') && SplitsOp(op') && Between(Defined(op'), n, n') && Below(v + Results(op'), n')
    decreases op, 1
  {
    match op
    case Prim(_, _, _) =>
    case Copy(_, _) =>
    case CallOp(outs, _, _) => NewNames(n, |outs|, v);
    case CondIf(_, a, b) => CloneTwoSingle(m, op, a, b, n, v);
    case Loop(_, e, _, b) => CloneTwoSingle(m, op, e, b, n, v);
    case For(_, _, _, _) => CloneForSingle(m, op, n, v);
    case Ret(_) =>
    case FunctionDef(_, _, _) => CloneFunctionSingle(m, op, n, v);
    case FunctionDefCapture(_, _, _, _) => CloneClosedSingle(m, op, n, v);
    case PackFunc(_, _, _, _, _) => CloneClosedSingle(m, op, n, v);
  }

  lemma {:induction false} CloneForSingle(m: Renaming, op: Op, n: nat, v: set<Name>)
    requires Below(v, n) && SplitsOp(op) && op.For?
    ensures var (op', n') := CloneOp(m, op, n);
            SingleOp(v, op') && SplitsOp(op') && Between(Defined(op'), n, n') && Below(v + Results(op'), n')
    decreases op, 0
  {
    var ps := op.params;
    NewNames(n, |ps|, v);
    CloneSingle(Extend(m, ps, New(n, |ps|)), op.body, n + |ps|, v + Names(New(n, |ps|)));
  }

  lemma {:induction false} CloneFunctionSingle(m: Renaming, op: Op, n: nat, v: set<Name>)
    requires Below(v, n) && SplitsOp(op) && op.FunctionDef?
    ensures var (op', n') := CloneOp(m, op, n);
            SingleOp(v, op') && SplitsOp(op') && Between(Defined(op'), n, n') && Below(v + Results(op'), n')
    decreases op, 0
  {
    var ps, f := op.params, op.fcn;
    NewNames(n, |ps|, v);
    CloneSingle(Extend(m, ps, New(n, |ps|)), f.ops, n + |ps|, v + Names(New(n, |ps|)));
  }

  lemma {:induction false} CloneTwoSingle(m: Renaming, op: Op, a: seq<Op>, b: seq<Op>, n: nat, v: set<Name>)
    requires (op.CondIf? && a == op.thn && b == op.els) || (op.Loop? && a == op.eval && b == op.body)
    requires Below(v, n) && Splits(a) && Splits(b)
    ensures var (a', n1) := Clone(m, a, n); var (b', n2) := Clone(m, b, n1);
            && Single(v, a') && Splits(a') && Single(v, b') && Splits(b') && n <= n1 <= n2
            && Between(OpsDefined(a') + OpsDefined(b'), n, n2) && Below(v, n2)
    decreases op, 0
  {
    CloneSingle(m, a, n, v);
    CloneSingle(m, b, Clone(m, a, n).1, v);
  }

  lemma {:induction false} CloneClosedSingle(m: Renaming, op: Op, n: nat, v: set<Name>)
    requires Below(v, n) && SplitsOp(op) && IsClosed(op)
    ensures var (op', n') := CloneOp(m, op, n);
            SingleOp(v, op') && SplitsOp(op') && Between(Defined(op'), n, n') && Below(v + Results(op'), n')
    decreases op, 0
  {
    hide CloneOp, Clone, New, Extend;
    var k := |Inputs(op)|;
    ClosedCopy(m, op, n);
    NewNames(n, k, v);
    CloneSingle(Extend(map[], Inputs(op), New(n, k)), op.fcn.ops, n + k, v + Names(New(n, k)));
  }
}
