/** Making all captures explicit: the pattern is applied until no `lua.function_def` is left, to inner
    or to outer functions first. */
module LuaConvertAll {
  import opened LuaClosures
  import opened LuaConversion
  import opened LuaConfluence
  import opened LuaCapture
  import opened LuaClosureRun

  /** Ops that are not copied keep their names. */
  function Id(v: set<Name>): Renaming { map x | x in v :: x }

  lemma IdMapsTo(v: set<Name>, xs: seq<Name>)
    requires Names(xs) <= v
    ensures MapsTo(Id(v), xs, xs)
  {
    forall i | 0 <= i < |xs|
      ensures xs[i] in v
    {
      assert xs[i] in Names(xs);
    }
  }

  lemma {:induction false} ExtendId(v: set<Name>, xs: seq<Name>)
    ensures Extend(Id(v), xs, xs) == Id(v + Names(xs))
    decreases xs
  {
    if xs == [] {
      assert v + Names(xs) == v;
    } else {
      assert Id(v)[xs[0] := xs[0]] == Id(v + {xs[0]});
      ExtendId(v + {xs[0]}, xs[1..]);
      assert v + {xs[0]} + Names(xs[1..]) == v + Names(xs);
    }
  }

  lemma FreshOver(v: set<Name>, xs: seq<Name>)
    requires Distinct(xs) && Names(xs) !! v
    ensures Fresh(Id(v), xs)
  {
    assert Id(v).Values <= v;
    forall i | 0 <= i < |xs|
      ensures xs[i] !in v
    {
      assert xs[i] in Names(xs);
    }
  }

  lemma ComposeId(v: set<Name>)
    ensures Compose(Id(v), Id(v)) == Id(v) && Injective(Id(v))
  {
  }

  /** Values around the code are not defined again inside it. */
  lemma {:induction false} DefinedApart(v: set<Name>, ops: seq<Op>)
    requires Single(v, ops)
    ensures OpsDefined(ops) !! v
    decreases ops, 0
  {
    if ops != [] {
      DefinedOpApart(v, ops[0]);
      DefinedApart(v + Results(ops[0]), ops[1..]);
    }
  }

  lemma {:induction false} DefinedOpApart(v: set<Name>, op: Op)
    requires SingleOp(v, op)
    ensures Defined(op) !! v
    decreases op, 1
  {
    match op
    case CondIf(_, a, b) =>
      DefinedApart(v, a);
      DefinedApart(v, b);
    case Loop(_, e, _, b) =>
      DefinedApart(v, e);
      DefinedApart(v, b);
    case For(_, _, ps, b) => DefinedApart(v + Names(ps), b);
    case FunctionDef(_, ps, f) => DefinedApart(v + Names(ps), f.ops);
    case FunctionDefCapture(_, _, xs, f) => DefinedApart(v + Names(xs), f.ops);
    case PackFunc(_, _, xs, ps, f) => DefinedApart(v + Names(xs + ps), f.ops);
    case _ =>
  }

  /** No function has been packed yet. */
  predicate Unpacked(ops: seq<Op>)
    decreases ops, 0
  {
    ops == [] || (UnpackedOp(ops[0]) && Unpacked(ops[1..]))
  }

  predicate UnpackedOp(op: Op)
    decreases op, 1
  {
    match op
    case CondIf(_, a, b) => Unpacked(a) && Unpacked(b)
    case Loop(_, e, _, b) => Unpacked(e) && Unpacked(b)
    case For(_, _, _, b) => Unpacked(b)
    case FunctionDef(_, _, f) => Unpacked(f.ops)
    case FunctionDefCapture(_, _, _, f) => Unpacked(f.ops)
    case PackFunc(_, _, _, _, _) => false
    case _ => true
  }

  lemma {:induction false} CloneKinds(m: Renaming, ops: seq<Op>, n: nat)
    ensures var ops' := Clone(m, ops, n).0;
            Full(ops') == Full(ops) && Unpacked(ops') == Unpacked(ops)
    decreases ops, 0
  {
    if ops != [] {
      var (op, n1) := CloneOp(m, ops[0], n);
      CloneOpKinds(m, ops[0], n);
      CloneKinds(Step(m, ops[0], op), ops[1..], n1);
      assert Clone(m, ops, n).0[1..] == Clone(Step(m, ops[0], op), ops[1..], n1).0;
    }
  }

  lemma {:induction false} CloneOpKinds(m: Renaming, op: Op, n: nat)
    ensures var op' := CloneOp(m, op, n).0;
            FullOp(op') == FullOp(op) && UnpackedOp(op') == UnpackedOp(op)
    decreases op, 1
  {
    hide Clone, Extend, New, After, LookUp, LookUpAll, Full, Unpacked;
    match op {
    case CondIf(_, a, b) =>
      CloneKinds(m, a, n);
      CloneKinds(m, b, Clone(m, a, n).1);
    case Loop(_, e, _, b) =>
      CloneKinds(m, e, n);
      CloneKinds(m, b, Clone(m, e, n).1);
    case For(_, _, ps, b) =>
      CloneKinds(Extend(m, ps, New(n, |ps|)), b, n + |ps|);
    case FunctionDef(_, ps, f) =>
      CloneKinds(Extend(m, ps, New(n, |ps|)), f.ops, n + |ps|);
    case FunctionDefCapture(_, _, xs, f) =>
      CloneKinds(Extend(map[], xs, New(n, |xs|)), f.ops, n + |xs|);
    case _ =>
    }
  }

  /** How many ops there are, at all depths. */
  function Size(ops: seq<Op>): nat
    decreases ops, 0
  {
    if ops == [] then 0 else SizeOp(ops[0]) + Size(ops[1..])
  }

  function SizeOp(op: Op): (n: nat)
    ensures n > 0
    decreases op, 1
  {
    match op
    case CondIf(_, a, b) => 1 + Size(a) + Size(b)
    case Loop(_, e, _, b) => 1 + Size(e) + Size(b)
    case For(_, _, _, b) => 1 + Size(b)
    case FunctionDef(_, _, f) => 1 + Size(f.ops)
    case FunctionDefCapture(_, _, _, f) => 1 + Size(f.ops)
    case PackFunc(_, _, _, _, f) => 1 + Size(f.ops)
    case _ => 1
  }

  lemma {:induction false} CloneSize(m: Renaming, ops: seq<Op>, n: nat)
    ensures Size(Clone(m, ops, n).0) == Size(ops)
    decreases ops, 0
  {
    if ops != [] {
      var (op, n1) := CloneOp(m, ops[0], n);
      CloneOpSize(m, ops[0], n);
      CloneSize(Step(m, ops[0], op), ops[1..], n1);
      assert Clone(m, ops, n).0[1..] == Clone(Step(m, ops[0], op), ops[1..], n1).0;
    }
  }

  lemma {:induction false} CloneOpSize(m: Renaming, op: Op, n: nat)
    ensures SizeOp(CloneOp(m, op, n).0) == SizeOp(op)
    decreases op, 1
  {
    hide Clone, Extend, New, After, LookUp, LookUpAll;
    match op
    case CondIf(_, a, b) =>
      CloneSize(m, a, n);
      CloneSize(m, b, Clone(m, a, n).1);
    case Loop(_, e, _, b) =>
      CloneSize(m, e, n);
      CloneSize(m, b, Clone(m, e, n).1);
    case For(_, _, ps, b) =>
      CloneSize(Extend(m, ps, New(n, |ps|)), b, n + |ps|);
    case FunctionDef(_, ps, f) =>
      CloneSize(Extend(m, ps, New(n, |ps|)), f.ops, n + |ps|);
    case FunctionDefCapture(_, _, xs, f) =>
      CloneSize(Extend(map[], xs, New(n, |xs|)), f.ops, n + |xs|);
    case PackFunc(_, _, xs, ps, f) =>
      CloneSize(Extend(map[], xs + ps, New(n, |xs|) + New(n + |xs|, |ps|)), f.ops, n + |xs| + |ps|);
    case _ =>
  }

  /** What the patterns expect of the code they find among values `v`; `n` is the next new name. */
  ghost predicate Ready(v: set<Name>, ops: seq<Op>, n: nat) {
    && FreeOps(ops) <= v && Isolated(ops) && Single(v, ops) && Splits(ops) && Unpacked(ops)
    && Below(v + OpsDefined(ops), n)
  }

  ghost predicate ReadyOp(v: set<Name>, op: Op, n: nat) {
    && FreeOp(op) <= v && IsolatedOp(op) && SingleOp(v, op) && SplitsOp(op) && UnpackedOp(op)
    && Below(v + Defined(op), n)
  }

  ghost predicate NewOnly(after: set<Name>, before: set<Name>, n: nat, n': nat) {
    n <= n' && forall x :: x in after ==> x in before || n <= x < n'
  }

  /** What converting leaves behind. */
  ghost predicate Done(v: set<Name>, ops: seq<Op>, r: seq<Op>, n: nat, n': nat) {
    && ConvOps(Id(v), ops, r) && After(Id(v), ops, r) == Id(v + OpsResults(ops))
    && Full(r) && Splits(r) && NewOnly(OpsDefined(r), OpsDefined(ops), n, n')
  }

  ghost predicate DoneOp(v: set<Name>, op: Op, r: Op, n: nat, n': nat) {
    && ConvOp(Id(v), op, r) && Step(Id(v), op, r) == Id(v + Results(op)) && Outs(r) == Outs(op)
    && FullOp(r) && SplitsOp(r) && NewOnly(Defined(r), Defined(op), n, n')
  }

  /** Converts every function; whether a function is converted before or after the functions inside
      it is decided anew each time. */
  method ConvertAll(v: set<Name>, ops: seq<Op>, n: nat) returns (r: seq<Op>, next: nat)
    requires Ready(v, ops, n)
    ensures Done(v, ops, r, n, next)
    decreases Size(ops), 2
  {
    if ops == [] {
      assert v + OpsResults(ops) == v;
      return [], n;
    }
    var head, n1 := ConvertOp(v, ops[0], n);
    ReadyRest(v, ops, n, n1);
    var rest, n2 := ConvertAll(v + Results(ops[0]), ops[1..], n1);
    DoneBoth(v, ops, head, rest, n, n1, n2);
    r, next := [head] + rest, n2;
  }

  lemma ReadyRest(v: set<Name>, ops: seq<Op>, n: nat, n1: nat)
    requires Ready(v, ops, n) && ops != [] && n <= n1
    ensures ReadyOp(v, ops[0], n) && Ready(v + Results(ops[0]), ops[1..], n1)
  {
    OutsDefined(ops[0]);
  }

  lemma OutsDefined(op: Op)
    ensures Results(op) <= Defined(op)
  {
  }

  lemma DoneBoth(v: set<Name>, ops: seq<Op>, head: Op, rest: seq<Op>, n: nat, n1: nat, n2: nat)
    requires ops != [] && DoneOp(v, ops[0], head, n, n1) && Done(v + Results(ops[0]), ops[1..], rest, n1, n2)
    ensures Done(v, ops, [head] + rest, n, n2)
  {
    var r := [head] + rest;
    assert r[1..] == rest;
    assert v + Results(ops[0]) + OpsResults(ops[1..]) == v + OpsResults(ops);
  }

  method ConvertOp(v: set<Name>, op: Op, n: nat) returns (r: Op, next: nat)
    requires ReadyOp(v, op, n)
    ensures DoneOp(v, op, r, n, next)
    decreases SizeOp(op), 1
  {
    match op
    case CondIf(c, a, b) =>
      var a', n1 := ConvertAll(v, a, n);
      var b', n2 := ConvertAll(v, b, n1);
      r, next := CondIf(c, a', b'), n2;
      RegionsDone(v, op, r, n, n1, n2);
    case Loop(u, e, c, b) =>
      var e', n1 := ConvertAll(v, e, n);
      var b', n2 := ConvertAll(v, b, n1);
      r, next := Loop(u, e', c, b'), n2;
      RegionsDone(v, op, r, n, n1, n2);
    case For(numeric, args, ps, b) =>
      var b', n1 := ConvertAll(v + Names(ps), b, n);
      r, next := For(numeric, args, ps, b'), n1;
      ForDone(v, op, r, n, n1);
    case FunctionDef(_, _, _) =>
      if * {
        r, next := InnerFirst(v, op, n);
      } else {
        r, next := OuterFirst(v, op, n);
      }
    case FunctionDefCapture(_, _, _, _) =>
      r, next := ConvertBody(v, op, n);
    case _ =>
      r, next := op, n;
      SameOp(v, op);
  }

  /** An op with two regions, both converted. */
  lemma RegionsDone(v: set<Name>, op: Op, r: Op, n: nat, n1: nat, n2: nat)
    requires ReadyOp(v, op, n)
    requires (op.CondIf? && r.CondIf? && r.cond == op.cond && Done(v, op.thn, r.thn, n, n1)
             && Done(v, op.els, r.els, n1, n2))
          || (op.Loop? && r.Loop? && r.until == op.until && r.cond == op.cond && Done(v, op.eval, r.eval, n, n1)
             && Done(v, op.body, r.body, n1, n2))
    ensures DoneOp(v, op, r, n, n2)
  {
    assert v + Results(op) == v;
    hide After, ConvOps, Full, Splits, FreeOps, Isolated, Single, OpsDefined;
  }

  /** The loop variables of a `for` are seen by its block alone. */
  lemma ForDone(v: set<Name>, op: Op, r: Op, n: nat, n': nat)
    requires ReadyOp(v, op, n) && op.For? && r.For? && r == For(op.numeric, op.args, op.params, r.body)
    requires Done(v + Names(op.params), op.body, r.body, n, n')
    ensures DoneOp(v, op, r, n, n')
  {
    assert v + Results(op) == v;
    IdMapsTo(v, op.args);
    FreshOver(v, op.params);
    ExtendId(v, op.params);
    hide After, ConvOps, Full, Splits, FreeOps, Isolated, Single, OpsDefined;
  }

  lemma SameOp(v: set<Name>, op: Op)
    requires (op.Prim? || op.Copy? || op.CallOp? || op.Ret?) && FreeOp(op) <= v && SingleOp(v, op)
    ensures ConvOp(Id(v), op, op) && Step(Id(v), op, op) == Id(v + Results(op))
  {
    FreshOver(v, Outs(op));
    ExtendId(v, Outs(op));
    match op
    case Prim(_, _, args) => IdMapsTo(v, args);
    case CallOp(_, _, args) => IdMapsTo(v, args);
    case Ret(vals) => IdMapsTo(v, vals);
    case Copy(_, _) =>
  }

  /** The functions inside a function that is closed already. */
  method ConvertBody(v: set<Name>, op: Op, n: nat) returns (r: Op, next: nat)
    requires ReadyOp(v, op, n) && op.FunctionDefCapture?
    ensures DoneOp(v, op, r, n, next) && r.FunctionDefCapture? && r.captures == op.captures && r.args == op.args
    decreases SizeOp(op), 0
  {
    var xs, f := op.args, op.fcn;
    ClosedReady(v, op, n);
    var ops, m := ConvertAll(Names(xs), f.ops, n);
    r, next := FunctionDefCapture(op.res, op.captures, xs, Body(ops, f.rets)), m;
    ClosedDone(v, op, r, n, next);
  }

  lemma {:induction false} SingleLess(v: set<Name>, w: set<Name>, ops: seq<Op>)
    requires Single(v, ops) && w <= v
    ensures Single(w, ops)
    decreases ops, 0
  {
    if ops != [] {
      SingleOpLess(v, w, ops[0]);
      SingleLess(v + Results(ops[0]), w + Results(ops[0]), ops[1..]);
    }
  }

  lemma {:induction false} SingleOpLess(v: set<Name>, w: set<Name>, op: Op)
    requires SingleOp(v, op) && w <= v
    ensures SingleOp(w, op)
    decreases op, 1
  {
    match op
    case CondIf(_, a, b) =>
      SingleLess(v, w, a);
      SingleLess(v, w, b);
    case Loop(_, e, _, b) =>
      SingleLess(v, w, e);
      SingleLess(v, w, b);
    case For(_, _, ps, b) => SingleLess(v + Names(ps), w + Names(ps), b);
    case FunctionDef(_, ps, f) => SingleLess(v + Names(ps), w + Names(ps), f.ops);
    case FunctionDefCapture(_, _, xs, f) => SingleLess(v + Names(xs), w + Names(xs), f.ops);
    case PackFunc(_, _, xs, ps, f) => SingleLess(v + Names(xs + ps), w + Names(xs + ps), f.ops);
    case _ =>
  }

  lemma ClosedReady(v: set<Name>, op: Op, n: nat)
    requires ReadyOp(v, op, n) && op.FunctionDefCapture?
    ensures Ready(Names(op.args), op.fcn.ops, n)
  {
    SingleLess(v + Names(op.args), Names(op.args), op.fcn.ops);
  }

  lemma BodyDone(v: set<Name>, f: Body, ops: seq<Op>, n: nat, n': nat)
    requires Done(v, f.ops, ops, n, n') && FreeBody(f) <= v
    ensures ConvBody(Id(v), f, Body(ops, f.rets))
  {
    assert Names(f.rets) <= v + OpsResults(f.ops);
    IdMapsTo(v + OpsResults(f.ops), f.rets);
  }

  lemma ClosedDone(v: set<Name>, op: Op, r: Op, n: nat, n': nat)
    requires ReadyOp(v, op, n) && op.FunctionDefCapture? && r.FunctionDefCapture?
    requires r == FunctionDefCapture(op.res, op.captures, op.args, r.fcn) && r.fcn.rets == op.fcn.rets
    requires Done(Names(op.args), op.fcn.ops, r.fcn.ops, n, n')
    ensures DoneOp(v, op, r, n, n')
  {
    FreshOver(v, [op.res]);
    ExtendId(v, [op.res]);
    ExtendId({}, op.args);
    assert Id({}) == map[] && {} + Names(op.args) == Names(op.args);
    BodyDone(Names(op.args), op.fcn, r.fcn.ops, n, n');
    IdMapsTo(v, op.captures);
  }

  /** Inner functions first, then this one. */
  method InnerFirst(v: set<Name>, op: Op, n: nat) returns (r: Op, next: nat)
    requires ReadyOp(v, op, n) && op.FunctionDef?
    ensures DoneOp(v, op, r, n, next)
    decreases SizeOp(op), 0
  {
    hide ReadyOp, DoneOp, Ready, ConvOp, FreeOp, FreeBody, Full, IsolatedOp, SplitsOp, SingleOp, Defined, OpsDefined;
    InnerReady(v, op, n);
    var f := op.fcn;
    var ops, n1 := ConvertAll(v + Names(op.params), f.ops, n);
    InnerDone(v, op, ops, n, n1);
    r, next := ExplicitCapture(op.res, op.params, Body(ops, f.rets), n1);
    CapturedDone(v, op, FunctionDef(op.res, op.params, Body(ops, f.rets)), r, n, n1, next);
  }

  lemma CapturedDone(v: set<Name>, op: Op, mid: Op, r: Op, n: nat, n1: nat, n2: nat)
    requires ReadyOp(v, op, n) && op.FunctionDef? && mid.FunctionDef? && mid.res == op.res && mid.params == op.params
    requires ConvOp(Id(v), op, mid) && FreeOp(mid) == FreeOp(op) && SplitsOp(mid) && Full(mid.fcn.ops)
    requires Made(mid, r, n1, n2) && NewOnly(OpsDefined(mid.fcn.ops), OpsDefined(op.fcn.ops), n, n1)
    ensures DoneOp(v, op, r, n, n2)
  {
    assert r.FunctionDefCapture? && r.res == op.res;
    hide ConvOp, FreeOp, Full, Single, IsolatedOp, UnpackedOp, Made;
    Captured(v, mid, r, n1, n2);
    CapturedShape(v, mid, r, n1, n2);
    Chain(v, op, mid, r);
  }

  lemma InnerReady(v: set<Name>, op: Op, n: nat)
    requires ReadyOp(v, op, n) && op.FunctionDef?
    ensures Ready(v + Names(op.params), op.fcn.ops, n) && Size(op.fcn.ops) < SizeOp(op)
    ensures FreeBody(op.fcn) - Names(op.params) <= v
  {
  }

  lemma InnerDone(v: set<Name>, op: Op, ops: seq<Op>, n: nat, n1: nat)
    requires ReadyOp(v, op, n) && op.FunctionDef? && Done(v + Names(op.params), op.fcn.ops, ops, n, n1)
    ensures var mid := FunctionDef(op.res, op.params, Body(ops, op.fcn.rets));
            && ConvOp(Id(v), op, mid) && FreeOp(mid) == FreeOp(op) && SplitsOp(mid)
            && Isolated(ops) && Splits(ops) && Full(ops) && NewOnly(OpsDefined(ops), OpsDefined(op.fcn.ops), n, n1)
            && FreeBody(mid.fcn) - Names(mid.params) !! OpsDefined(ops)
            && Below(v + {op.res} + Names(op.params), n1)
  {
    var ps, f := op.params, op.fcn;
    var w := v + Names(ps);
    var mid := FunctionDef(op.res, ps, Body(ops, f.rets));
    FreshOver(v, [op.res]);
    FreshOver(v, ps);
    ExtendId(v, ps);
    BodyDone(w, f, ops, n, n1);
    assert ConvOp(Id(v), op, mid);
    ConvOpReads(Id(v), op, mid);
    IdImage(v, FreeOp(op));
    ConvIsolated(Id(w), f.ops, ops);
    DefinedApart(w, f.ops);
    forall x | x in FreeBody(mid.fcn) - Names(ps)
      ensures x !in OpsDefined(ops)
    {
      assert x in FreeOp(mid) && x in v;
      assert x !in OpsDefined(f.ops);
    }
  }

  lemma IdImage(v: set<Name>, s: set<Name>)
    requires s <= v
    ensures Image(Id(v), s) == s
  {
  }

  /** What the pattern makes of a function definition. */
  ghost predicate Made(op: Op, r: Op, n: nat, n': nat)
    requires op.FunctionDef?
  {
    && r.FunctionDefCapture? && r.res == op.res && r.args == New(n, |r.captures| + |op.params|)
    && Lists(r.captures, op.params, op.fcn) && ConvBody(Onto(r.captures + op.params, r), op.fcn, r.fcn)
    && (r.fcn, n') == CloneBody(Onto(r.captures + op.params, r), op.fcn, n + |r.args|)
  }

  /** It is a conversion of the definition. */
  lemma Captured(v: set<Name>, op: Op, r: Op, n: nat, n': nat)
    requires op.FunctionDef? && FreeOp(op) <= v && Made(op, r, n, n') && op.res !in v
    ensures ConvOp(Id(v), op, r)
  {
    FreshOver(v, [op.res]);
    IdMapsTo(v, r.captures);
    NewNames(n, |r.args|, {});
    assert Captures(Id(v), r.captures, op.params, r);
  }

  lemma CapturedShape(v: set<Name>, op: Op, r: Op, n: nat, n': nat)
    requires op.FunctionDef? && Made(op, r, n, n') && SplitsOp(op) && Below(v + {op.res}, n) && op.res !in v
    ensures SplitsOp(r) && SingleOp(v, r) && Between(OpsDefined(r.fcn.ops) + Names(r.args), n, n')
    ensures FullOp(r) == Full(op.fcn.ops) && UnpackedOp(r) == Unpacked(op.fcn.ops) && SizeOp(r) == SizeOp(op)
  {
    hide ConvBody, Lists, Onto, Clone, New, Full, Unpacked, Size;
    NewNames(n, |r.args|, v);
    CloneSingle(Onto(r.captures + op.params, r), op.fcn.ops, n + |r.args|, v + Names(r.args));
    CapturedKinds(op, r, n, n');
  }

  lemma CapturedKinds(op: Op, r: Op, n: nat, n': nat)
    requires op.FunctionDef? && Made(op, r, n, n')
    ensures FullOp(r) == Full(op.fcn.ops) && UnpackedOp(r) == Unpacked(op.fcn.ops) && SizeOp(r) == SizeOp(op)
  {
    CloneKinds(Onto(r.captures + op.params, r), op.fcn.ops, n + |r.args|);
    CloneSize(Onto(r.captures + op.params, r), op.fcn.ops, n + |r.args|);
  }

  lemma Chain(v: set<Name>, a: Op, b: Op, c: Op)
    requires ConvOp(Id(v), a, b) && ConvOp(Id(v), b, c) && Outs(a) == Outs(c)
    ensures ConvOp(Id(v), a, c) && Step(Id(v), a, c) == Id(v + Results(a))
  {
    ComposeId(v);
    ConvOpTransitive(Id(v), Id(v), a, b, c);
    ExtendId(v, Outs(a));
  }

  /** This function first, then the functions inside the copy. */
  method OuterFirst(v: set<Name>, op: Op, n: nat) returns (r: Op, next: nat)
    requires ReadyOp(v, op, n) && op.FunctionDef?
    ensures DoneOp(v, op, r, n, next)
    decreases SizeOp(op), 0
  {
    DefinedApart(v + Names(op.params), op.fcn.ops);
    var mid, n1 := ExplicitCapture(op.res, op.params, op.fcn, n);
    CopyReady(v, op, mid, n, n1);
    var ops, m := ConvertAll(Names(mid.args), mid.fcn.ops, n1);
    r, next := FunctionDefCapture(mid.res, mid.captures, mid.args, Body(ops, mid.fcn.rets)), m;
    ClosedDone(v, mid, r, n1, next);
    Chain(v, op, mid, r);
  }

  lemma CopyReady(v: set<Name>, op: Op, mid: Op, n: nat, n': nat)
    requires ReadyOp(v, op, n) && op.FunctionDef? && Made(op, mid, n, n')
    ensures ReadyOp(v, mid, n') && Ready(Names(mid.args), mid.fcn.ops, n') && ConvOp(Id(v), op, mid)
            && SizeOp(mid) == SizeOp(op)
    ensures NewOnly(Defined(mid), Defined(op), n, n')
  {
    Captured(v, op, mid, n, n');
    CapturedShape(v, op, mid, n, n');
    ConvOpIsolated(Id(v), op, mid);
    assert Defined(mid) == {op.res} + Names(mid.args) + OpsDefined(mid.fcn.ops);
    ClosedReady(v, mid, n');
  }

  // ----- What has been gained

  /** Converting a whole program, in whatever order, changes nothing about its runs: from a state
      without functions both end in the same way, with the same cells and the same output. */
  lemma ConvertedRuns(
      p: LuaClosureRun.Prim, v: set<Name>, ops: seq<Op>, r: seq<Op>, n: nat, n': nat, env: Env, s: St, fuel: nat)
    requires Ready(v, ops, n) && Done(v, ops, r, n, n') && s.fcns == []
    ensures Full(r) && Isolated(r)
    ensures RunRel(v + OpsResults(ops), Id(v + OpsResults(ops)), ExecOps(p, ops, env, s, fuel),
            ExecOps(p, r, env, s, fuel))
  {
    ConvIsolated(Id(v), ops, r);
    ConversionPreserves(p, Id(v), ops, r, v, env, env, s, s, fuel);
  }

  /** Packing the arguments is one more conversion. */
  lemma PackedConverts(v: set<Name>, op: Op, r: Op)
    requires op.FunctionDefCapture? && FreeOp(op) <= v && op.res !in v && Split(op)
    requires r.PackFunc? && r.res == op.res && r.captures == op.captures && |r.caps| == |op.captures|
    requires |Inputs(r)| == |op.args| && Distinct(Inputs(r)) && ConvBody(Onto(op.args, r), op.fcn, r.fcn)
    ensures ConvOp(Id(v), op, r)
  {
    FreshOver(v, [op.res]);
    IdMapsTo(v, op.captures);
  }
}
