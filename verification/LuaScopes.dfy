/** Variable allocation: names become values. */
module LuaScopes {
  // The compiler flattens the nested program into one worklist in which markers open and close
  // scopes, and then walks that list with a stack of maps.  A recursive resolver that passes
  // environments down the program says what the walk is meant to compute.

  type OpId = nat

  /** What a name can stand for: an allocation at the start of the main function, a local
      allocation, an argument of a region, or the result of an assignment. */
  datatype Value = Global(name: string) | Alloc(id: OpId, name: string) | Arg(id: OpId, index: nat) | Res(id: OpId)

  datatype Node =
    | GetOrAlloc(id: OpId, name: string)
    | AllocLocal(id: OpId, name: string)
    | Assign(id: OpId, tgt: OpId)
    | Scoped(id: OpId, params: seq<string>, region: seq<Node>)   // for loops and functions
    | Other(id: OpId, regions: seq<Region>)

  datatype Region = Region(nodes: seq<Node>)

  /** Outcome of the tests an assign makes besides "the target is an allocation". */
  type Renames = (OpId, Value) -> bool

  type Scope = map<string, Value>

  // ----- The worklist

  datatype Item = PushScope | PopScope | Visit(node: Node)

  function Flatten(nodes: seq<Node>): seq<Item>
    decreases nodes, 0
  {
    if nodes == [] then [] else FlattenNode(nodes[0]) + Flatten(nodes[1..])
  }

  function FlattenNode(n: Node): seq<Item>
    decreases n, 1
  {
    match n
    case Scoped(_, _, region) => [PushScope, Visit(n)] + Flatten(region) + [PopScope]
    case Other(_, regions) => [Visit(n)] + FlattenRegions(regions)
    case _ => [Visit(n)]
  }

  function FlattenRegions(rs: seq<Region>): seq<Item>
    decreases rs, 0
  {
    if rs == [] then [] else [PushScope] + Flatten(rs[0].nodes) + [PopScope] + FlattenRegions(rs[1..])
  }

  // ----- Walking it

  datatype Walk = Walk(scopes: seq<Scope>, allocs: seq<string>, resolved: map<OpId, Value>)

  /** The innermost scope that has the name. */
  function Find(scopes: seq<Scope>, k: string): (r: seq<Value>)
    ensures |r| <= 1
  {
    if scopes == [] then []
    else if k in scopes[|scopes| - 1] then [scopes[|scopes| - 1][k]]
    else Find(scopes[..|scopes| - 1], k)
  }

  function SetLocal(scopes: seq<Scope>, k: string, v: Value): seq<Scope>
    requires |scopes| > 0
  {
    scopes[|scopes| - 1 := scopes[|scopes| - 1][k := v]]
  }

  function SetGlobal(scopes: seq<Scope>, k: string, v: Value): seq<Scope>
    requires |scopes| > 0
  {
    scopes[0 := scopes[0][k := v]]
  }

  function SetParams(scopes: seq<Scope>, id: OpId, params: seq<string>, n: nat): (r: seq<Scope>)
    requires |scopes| > 0 && n <= |params|
    ensures |r| == |scopes|
  {
    if n == 0 then scopes else SetLocal(SetParams(scopes, id, params, n - 1), params[n - 1], Arg(id, n - 1))
  }

  /** The value the target operand of an assign was replaced by. */
  function Target(resolved: map<OpId, Value>, tgt: OpId): Value {
    if tgt in resolved then resolved[tgt] else Res(tgt)
  }

  predicate IsAlloc(v: Value) { v.Global? || v.Alloc? }

  function VisitNode(test: Renames, n: Node, w: Walk): (r: Walk)
    requires |w.scopes| > 0
    ensures |r.scopes| == |w.scopes|
  {
    match n
    case GetOrAlloc(id, name) =>
      if Find(w.scopes, name) == [] then
        Walk(SetGlobal(w.scopes, name, Global(name)), w.allocs + [name], w.resolved[id := Global(name)])
      else w.(resolved := w.resolved[id := Find(w.scopes, name)[0]])
    case AllocLocal(id, name) =>
      Walk(SetLocal(w.scopes, name, Alloc(id, name)), w.allocs, w.resolved[id := Alloc(id, name)])
    case Scoped(id, params, _) => w.(scopes := SetParams(w.scopes, id, params, |params|))
    case Assign(id, tgt) =>
      var v := Target(w.resolved, tgt);
      if IsAlloc(v) && test(id, v) then w.(scopes := SetLocal(w.scopes, v.name, Res(id))) else w
    case Other(_, _) => w
  }

  /** `None` when a scope would be popped that leaves not even the global one. */
  datatype Option<T> = None | Some(value: T)

  function Step(test: Renames, item: Item, w: Walk): (r: Option<Walk>)
    requires |w.scopes| > 0
    ensures r.Some? ==> |r.value.scopes| > 0
  {
    match item
    case PushScope => Some(w.(scopes := w.scopes + [map[]]))
    case PopScope => if |w.scopes| == 1 then None else Some(w.(scopes := w.scopes[..|w.scopes| - 1]))
    case Visit(n) => Some(VisitNode(test, n, w))
  }

  function Run(test: Renames, items: seq<Item>, w: Walk): (r: Option<Walk>)
    requires |w.scopes| > 0
    ensures r.Some? ==> |r.value.scopes| > 0
    decreases |items|
  {
    if items == [] then Some(w)
    else
      var next := Step(test, items[0], w);
      if next.None? then None else Run(test, items[1..], next.value)
  }

  lemma {:induction false} RunAppend(test: Renames, a: seq<Item>, b: seq<Item>, w: Walk)
    requires |w.scopes| > 0 && Run(test, a, w).Some?
    ensures Run(test, a + b, w) == Run(test, b, Run(test, a, w).value)
    decreases |a|
  {
    if a == [] {
      assert a + b == b;
    } else {
      assert (a + b)[1..] == a[1..] + b;
      RunAppend(test, a[1..], b, Step(test, a[0], w).value);
    }
  }

  // ----- The recursive resolver

  /** `locals` are the names of all open scopes but the global one; at `top` there are none, and
      local definitions are global. */
  datatype Env = Env(locals: Scope, globals: Scope, allocs: seq<string>, resolved: map<OpId, Value>)

  function Define(e: Env, top: bool, k: string, v: Value): Env {
    if top then e.(globals := e.globals[k := v]) else e.(locals := e.locals[k := v])
  }

  function DefineParams(e: Env, id: OpId, params: seq<string>, n: nat): Env
    requires n <= |params|
  {
    if n == 0 then e else Define(DefineParams(e, id, params, n - 1), false, params[n - 1], Arg(id, n - 1))
  }

  function ResolveAll(test: Renames, nodes: seq<Node>, e: Env, top: bool): Env
    decreases nodes, 0
  {
    if nodes == [] then e else ResolveAll(test, nodes[1..], Resolve(test, nodes[0], e, top), top)
  }

  function Resolve(test: Renames, n: Node, e: Env, top: bool): Env
    decreases n, 1
  {
    match n
    case GetOrAlloc(id, name) =>
      if name in e.locals then e.(resolved := e.resolved[id := e.locals[name]])
      else if name in e.globals then e.(resolved := e.resolved[id := e.globals[name]])
      else Env(e.locals, e.globals[name := Global(name)], e.allocs + [name], e.resolved[id := Global(name)])
    case AllocLocal(id, name) =>
      Define(e, top, name, Alloc(id, name)).(resolved := e.resolved[id := Alloc(id, name)])
    case Assign(id, tgt) =>
      var v := Target(e.resolved, tgt);
      if IsAlloc(v) && test(id, v) then Define(e, top, v.name, Res(id)) else e
    case Scoped(id, params, region) =>
      ResolveAll(test, region, DefineParams(e, id, params, |params|), false).(locals := e.locals)
    case Other(_, regions) => ResolveRegions(test, regions, e)
  }

  function ResolveRegions(test: Renames, rs: seq<Region>, e: Env): Env
    decreases rs, 0
  {
    if rs == [] then e
    else ResolveRegions(test, rs[1..], ResolveAll(test, rs[0].nodes, e, false).(locals := e.locals))
  }

  // ----- The walk computes what the resolver says

  function Merge(scopes: seq<Scope>): Scope {
    if scopes == [] then map[] else Merge(scopes[..|scopes| - 1]) + scopes[|scopes| - 1]
  }

  ghost predicate Same(w: Walk, e: Env, top: bool) {
    && |w.scopes| > 0 && (top <==> |w.scopes| == 1)
    && w.scopes[0] == e.globals && Merge(w.scopes[1..]) == e.locals
    && w.allocs == e.allocs && w.resolved == e.resolved
  }

  /** Only the global scope and the innermost scope have changed. */
  ghost predicate OuterKept(w: Walk, w': Walk) {
    && |w.scopes| > 0 && |w'.scopes| == |w.scopes|
    && (|w.scopes| > 1 ==> w'.scopes[1..|w.scopes| - 1] == w.scopes[1..|w.scopes| - 1])
  }

  lemma {:induction false} FindMerged(scopes: seq<Scope>, k: string)
    ensures Find(scopes, k) == (if k in Merge(scopes) then [Merge(scopes)[k]] else [])
    decreases |scopes|
  {
    if scopes != [] {
      FindMerged(scopes[..|scopes| - 1], k);
    }
  }

  lemma {:induction false} MergeSplit(scopes: seq<Scope>)
    requires |scopes| > 0
    ensures Merge(scopes) == scopes[0] + Merge(scopes[1..])
    decreases |scopes|
  {
    var n := |scopes| - 1;
    if n == 0 {
      assert scopes[..0] == [] && scopes[1..] == [];
    } else {
      MergeSplit(scopes[..n]);
      assert scopes[..n][1..] == scopes[1..][..n - 1];
    }
  }

  lemma MergeSet(scopes: seq<Scope>, k: string, v: Value)
    requires |scopes| > 0
    ensures Merge(SetLocal(scopes, k, v)) == Merge(scopes)[k := v]
  {
    var n, scopes' := |scopes| - 1, SetLocal(scopes, k, v);
    assert scopes'[..n] == scopes[..n];
    AddSet(Merge(scopes[..n]), scopes[n], k, v);
    assert Merge(scopes') == Merge(scopes'[..n]) + scopes'[n];
    assert Merge(scopes) == Merge(scopes[..n]) + scopes[n];
  }

  lemma AddSet(a: Scope, b: Scope, k: string, v: Value)
    ensures a + b[k := v] == (a + b)[k := v]
  {
  }

  lemma SetLocalSame(w: Walk, e: Env, top: bool, k: string, v: Value)
    requires Same(w, e, top)
    ensures Same(w.(scopes := SetLocal(w.scopes, k, v)), Define(e, top, k, v), top)
    ensures OuterKept(w, w.(scopes := SetLocal(w.scopes, k, v)))
  {
    var scopes' := SetLocal(w.scopes, k, v);
    if top {
      assert scopes'[1..] == w.scopes[1..] == [];
    } else {
      MergeSet(w.scopes[1..], k, v);
      assert scopes'[1..] == SetLocal(w.scopes[1..], k, v);
      assert scopes'[1..|w.scopes| - 1] == w.scopes[1..|w.scopes| - 1];
    }
  }

  lemma SetGlobalSame(w: Walk, e: Env, top: bool, k: string, v: Value)
    requires Same(w, e, top)
    ensures Same(w.(scopes := SetGlobal(w.scopes, k, v)), e.(globals := e.globals[k := v]), top)
    ensures OuterKept(w, w.(scopes := SetGlobal(w.scopes, k, v)))
  {
    assert SetGlobal(w.scopes, k, v)[1..] == w.scopes[1..];
  }

  lemma {:induction false} SetParamsSame(w: Walk, e: Env, id: OpId, params: seq<string>, n: nat)
    requires Same(w, e, false) && n <= |params|
    ensures var w' := w.(scopes := SetParams(w.scopes, id, params, n));
            Same(w', DefineParams(e, id, params, n), false) && OuterKept(w, w')
    decreases n
  {
    if n > 0 {
      SetParamsSame(w, e, id, params, n - 1);
      var w1 := w.(scopes := SetParams(w.scopes, id, params, n - 1));
      SetLocalSame(w1, DefineParams(e, id, params, n - 1), false, params[n - 1], Arg(id, n - 1));
    }
  }

  /** Opening a scope, working inside it and closing it gives the locals back. */
  lemma Bracket(w: Walk, e: Env, top: bool, w1: Walk, e1: Env)
    requires Same(w, e, top) && Same(w1, e1, false) && OuterKept(w.(scopes := w.scopes + [map[]]), w1)
    ensures var w2 := w1.(scopes := w1.scopes[..|w1.scopes| - 1]);
            Same(w2, e1.(locals := e.locals), top) && OuterKept(w, w2)
  {
    var n := |w.scopes|;
    assert w1.scopes[1..n] == (w.scopes + [map[]])[1..n] == w.scopes[1..];
    assert w1.scopes[..n][1..] == w1.scopes[1..n];
  }

  lemma PushSame(w: Walk, e: Env, top: bool)
    requires Same(w, e, top)
    ensures Same(w.(scopes := w.scopes + [map[]]), e, false)
  {
    var scopes := w.scopes + [map[]];
    assert scopes[1..][..|w.scopes| - 1] == w.scopes[1..];
  }

  /** The flat walk over a list of ops: it never fails, leaves the scopes balanced and outer scopes
      alone, and resolves what the recursive resolver resolves. */
  lemma {:induction false} WalkIsResolve(test: Renames, nodes: seq<Node>, w: Walk, e: Env, top: bool)
    requires Same(w, e, top)
    ensures Run(test, Flatten(nodes), w).Some?
    ensures var w' := Run(test, Flatten(nodes), w).value;
            Same(w', ResolveAll(test, nodes, e, top), top) && OuterKept(w, w')
    decreases nodes, 0
  {
    if nodes != [] {
      WalkIsResolveNode(test, nodes[0], w, e, top);
      var w1 := Run(test, FlattenNode(nodes[0]), w).value;
      RunAppend(test, FlattenNode(nodes[0]), Flatten(nodes[1..]), w);
      WalkIsResolve(test, nodes[1..], w1, Resolve(test, nodes[0], e, top), top);
    }
  }

  lemma {:induction false} WalkIsResolveNode(test: Renames, n: Node, w: Walk, e: Env, top: bool)
    requires Same(w, e, top)
    ensures Run(test, FlattenNode(n), w).Some?
    ensures var w' := Run(test, FlattenNode(n), w).value;
            Same(w', Resolve(test, n, e, top), top) && OuterKept(w, w')
    decreases n, 1
  {
    match n
    case Scoped(id, params, region) =>
      WalkIsResolveScoped(test, n, w, e, top);
    case Other(_, regions) =>
      assert ([Visit(n)] + FlattenRegions(regions))[1..] == FlattenRegions(regions);
      WalkIsResolveRegions(test, regions, w, e, top);
    case _ =>
      assert FlattenNode(n) == [Visit(n)] && [Visit(n)][1..] == [];
      WalkIsResolveLeaf(test, n, w, e, top);
  }

  lemma {:induction false} WalkIsResolveScoped(test: Renames, n: Node, w: Walk, e: Env, top: bool)
    requires Same(w, e, top) && n.Scoped?
    ensures Run(test, FlattenNode(n), w).Some?
    ensures var w' := Run(test, FlattenNode(n), w).value;
            Same(w', Resolve(test, n, e, top), top) && OuterKept(w, w')
    decreases n, 0
  {
    var w0 := w.(scopes := w.scopes + [map[]]);
    PushSame(w, e, top);
    SetParamsSame(w0, e, n.id, n.params, |n.params|);
    var w1 := VisitNode(test, n, w0);
    var e1 := DefineParams(e, n.id, n.params, |n.params|);
    WalkIsResolve(test, n.region, w1, e1, false);
    var w2 := Run(test, Flatten(n.region), w1).value;
    assert OuterKept(w0, w2) by {
      OuterKeptTransitive(w0, w1, w2);
    }
    assert ([Visit(n)] + Flatten(n.region))[1..] == Flatten(n.region);
    RunBracket(test, [Visit(n)] + Flatten(n.region), w, w2);
    assert [PushScope, Visit(n)] + Flatten(n.region) + [PopScope] == [PushScope] + ([Visit(n)] + Flatten(n.region))
           + [PopScope];
    Bracket(w, e, top, w2, ResolveAll(test, n.region, e1, false));
  }

  lemma OuterKeptTransitive(a: Walk, b: Walk, c: Walk)
    requires OuterKept(a, b) && OuterKept(b, c)
    ensures OuterKept(a, c)
  {
  }

  lemma RunBracket(test: Renames, inner: seq<Item>, w: Walk, w2: Walk)
    requires |w.scopes| > 0 && |w2.scopes| == |w.scopes| + 1
    requires Run(test, inner, w.(scopes := w.scopes + [map[]])) == Some(w2)
    ensures Run(test, [PushScope] + inner + [PopScope], w) == Some(w2.(scopes := w2.scopes[..|w2.scopes| - 1]))
  {
    var w0 := w.(scopes := w.scopes + [map[]]);
    assert ([PushScope] + inner + [PopScope])[1..] == inner + [PopScope];
    RunAppend(test, inner, [PopScope], w0);
    assert [PopScope][1..] == [];
  }

  lemma {:induction false} WalkIsResolveRegions(test: Renames, rs: seq<Region>, w: Walk, e: Env, top: bool)
    requires Same(w, e, top)
    ensures Run(test, FlattenRegions(rs), w).Some?
    ensures var w' := Run(test, FlattenRegions(rs), w).value;
            Same(w', ResolveRegions(test, rs, e), top) && OuterKept(w, w')
    decreases rs, 0
  {
    if rs != [] {
      PushSame(w, e, top);
      var w0 := w.(scopes := w.scopes + [map[]]);
      WalkIsResolve(test, rs[0].nodes, w0, e, false);
      var w1 := Run(test, Flatten(rs[0].nodes), w0).value;
      RunBracket(test, Flatten(rs[0].nodes), w, w1);
      var e1 := ResolveAll(test, rs[0].nodes, e, false);
      Bracket(w, e, top, w1, e1);
      var w2 := w1.(scopes := w1.scopes[..|w1.scopes| - 1]);
      RunAppend(test, [PushScope] + Flatten(rs[0].nodes) + [PopScope], FlattenRegions(rs[1..]), w);
      WalkIsResolveRegions(test, rs[1..], w2, e1.(locals := e.locals), top);
    }
  }

  lemma WalkIsResolveLeaf(test: Renames, n: Node, w: Walk, e: Env, top: bool)
    requires Same(w, e, top) && !n.Scoped? && !n.Other?
    ensures Same(VisitNode(test, n, w), Resolve(test, n, e, top), top) && OuterKept(w, VisitNode(test, n, w))
  {
    match n
    case GetOrAlloc(id, name) =>
      FindMerged(w.scopes, name);
      MergeSplit(w.scopes);
      SetGlobalSame(w, e, top, name, Global(name));
    case AllocLocal(id, name) => SetLocalSame(w, e, top, name, Alloc(id, name));
    case Assign(id, tgt) =>
      var v := Target(w.resolved, tgt);
      if IsAlloc(v) {
        SetLocalSame(w, e, top, v.name, Res(id));
      }
    case _ =>
  }
}
