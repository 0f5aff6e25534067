/** What name resolution guarantees. */
module LuaScopeFacts {
  // There is one global allocation for each name, and a name is replaced only by values defined
  // before, and visible at, the place where it is used.

  import opened LuaScopes

  // ----- Ops are distinct

  function Ids(nodes: seq<Node>): set<OpId>
    decreases nodes, 0
  {
    if nodes == [] then {} else NodeIds(nodes[0]) + Ids(nodes[1..])
  }

  function NodeIds(n: Node): set<OpId>
    decreases n, 1
  {
    match n
    case Scoped(id, _, region) => {id} + Ids(region)
    case Other(id, rs) => {id} + RegionIds(rs)
    case _ => {n.id}
  }

  function RegionIds(rs: seq<Region>): set<OpId>
    decreases rs, 0
  {
    if rs == [] then {} else Ids(rs[0].nodes) + RegionIds(rs[1..])
  }

  predicate Unique(nodes: seq<Node>)
    decreases nodes, 0
  {
    nodes == [] || (UniqueNode(nodes[0]) && NodeIds(nodes[0]) !! Ids(nodes[1..]) && Unique(nodes[1..]))
  }

  predicate UniqueNode(n: Node)
    decreases n, 1
  {
    match n
    case Scoped(id, _, region) => id !in Ids(region) && Unique(region)
    case Other(id, rs) => id !in RegionIds(rs) && UniqueRegions(rs)
    case _ => true
  }

  predicate UniqueRegions(rs: seq<Region>)
    decreases rs, 0
  {
    rs == [] || (Unique(rs[0].nodes) && Ids(rs[0].nodes) !! RegionIds(rs[1..]) && UniqueRegions(rs[1..]))
  }

  // ----- Values that can be used

  /** `seen` are the ops (and region arguments) that come before in the same or an enclosing region. */
  ghost predicate Usable(v: Value, seen: set<OpId>, allocs: seq<string>) {
    match v
    case Global(name) => name in allocs
    case Alloc(id, _) => id in seen
    case Arg(id, _) => id in seen
    case Res(id) => id in seen
  }

  ghost predicate ScopeOk(s: Scope, seen: set<OpId>, allocs: seq<string>) {
    forall k :: k in s ==> Usable(s[k], seen, allocs)
  }

  /** Global allocations are distinct and are never forgotten. */
  ghost predicate AllocsOk(e: Env) {
    && (forall i, j :: 0 <= i < j < |e.allocs| ==> e.allocs[i] != e.allocs[j])
    && (forall k :: k in e.allocs ==> k in e.globals)
  }

  ghost predicate EnvOk(e: Env, seen: set<OpId>) {
    AllocsOk(e) && ScopeOk(e.locals, seen, e.allocs) && ScopeOk(e.globals, seen, e.allocs)
  }

  /** The values an op adds for the ops after it. */
  function Adds(n: Node): set<OpId> {
    if n.AllocLocal? || n.Assign? then {n.id} else {}
  }

  function AddsAll(nodes: seq<Node>): set<OpId> {
    if nodes == [] then {} else Adds(nodes[0]) + AddsAll(nodes[1..])
  }

  /** Every use of a name was replaced by a value usable at that very place. */
  ghost predicate UsesOk(nodes: seq<Node>, seen: set<OpId>, resolved: map<OpId, Value>, allocs: seq<string>)
    decreases nodes, 0
  {
    nodes == [] ||
    (UseOk(nodes[0], seen, resolved, allocs) && UsesOk(nodes[1..], seen + Adds(nodes[0]), resolved, allocs))
  }

  ghost predicate UseOk(n: Node, seen: set<OpId>, resolved: map<OpId, Value>, allocs: seq<string>)
    decreases n, 1
  {
    match n
    case GetOrAlloc(id, _) => id in resolved && Usable(resolved[id], seen, allocs)
    case AllocLocal(id, name) => id in resolved && resolved[id] == Alloc(id, name)
    case Scoped(id, _, region) => UsesOk(region, seen + {id}, resolved, allocs)
    case Other(_, rs) => RegionsOk(rs, seen, resolved, allocs)
    case Assign(_, _) => true
  }

  ghost predicate RegionsOk(rs: seq<Region>, seen: set<OpId>, resolved: map<OpId, Value>, allocs: seq<string>)
    decreases rs, 0
  {
    rs == [] || (UsesOk(rs[0].nodes, seen, resolved, allocs) && RegionsOk(rs[1..], seen, resolved, allocs))
  }

  /** Resolution entries that matter to an op are not touched by others. */
  ghost predicate Extends(ids: set<OpId>, r: map<OpId, Value>, r': map<OpId, Value>, a: seq<string>, a': seq<string>) {
    && (forall id :: id in ids && id in r ==> id in r' && r'[id] == r[id])
    && (forall k :: k in a ==> k in a')
  }

  lemma {:induction false} UsesOkExtends(
      nodes: seq<Node>, seen: set<OpId>, r: map<OpId, Value>, r': map<OpId, Value>, a: seq<string>, a': seq<string>)
    requires UsesOk(nodes, seen, r, a) && Extends(Ids(nodes), r, r', a, a')
    ensures UsesOk(nodes, seen, r', a')
    decreases nodes, 0
  {
    if nodes != [] {
      UseOkExtends(nodes[0], seen, r, r', a, a');
      UsesOkExtends(nodes[1..], seen + Adds(nodes[0]), r, r', a, a');
    }
  }

  lemma {:induction false} UseOkExtends(
      n: Node, seen: set<OpId>, r: map<OpId, Value>, r': map<OpId, Value>, a: seq<string>, a': seq<string>)
    requires UseOk(n, seen, r, a) && Extends(NodeIds(n), r, r', a, a')
    ensures UseOk(n, seen, r', a')
    decreases n, 1
  {
    match n
    case Scoped(id, _, region) => UsesOkExtends(region, seen + {id}, r, r', a, a');
    case Other(_, rs) => RegionsOkExtends(rs, seen, r, r', a, a');
    case _ =>
  }

  lemma {:induction false} RegionsOkExtends(
      rs: seq<Region>, seen: set<OpId>, r: map<OpId, Value>, r': map<OpId, Value>, a: seq<string>, a': seq<string>)
    requires RegionsOk(rs, seen, r, a) && Extends(RegionIds(rs), r, r', a, a')
    ensures RegionsOk(rs, seen, r', a')
    decreases rs, 0
  {
    if rs != [] {
      UsesOkExtends(rs[0].nodes, seen, r, r', a, a');
      RegionsOkExtends(rs[1..], seen, r, r', a, a');
    }
  }

  // ----- The resolver

  /** After resolving code with op ids `ids`: outside entries kept, allocations only added. */
  ghost predicate Frame(e: Env, e': Env, ids: set<OpId>) {
    && (forall id :: id in e.resolved && id !in ids ==> id in e'.resolved && e'.resolved[id] == e.resolved[id])
    && (forall k :: k in e.allocs ==> k in e'.allocs)
  }

  lemma {:induction false} DefineParamsOk(e: Env, id: OpId, params: seq<string>, n: nat, seen: set<OpId>)
    requires EnvOk(e, seen) && n <= |params|
    ensures var e' := DefineParams(e, id, params, n);
            EnvOk(e', seen + {id}) && e'.globals == e.globals && e'.allocs == e.allocs && e'.resolved == e.resolved
    decreases n
  {
    if n > 0 {
      DefineParamsOk(e, id, params, n - 1, seen);
    }
  }

  lemma {:induction false} ResolveAllOk(test: Renames, nodes: seq<Node>, e: Env, top: bool, seen: set<OpId>)
    requires EnvOk(e, seen) && Unique(nodes)
    ensures var e' := ResolveAll(test, nodes, e, top);
            && EnvOk(e', seen + AddsAll(nodes)) && Frame(e, e', Ids(nodes))
            && (!top ==> ScopeOk(e'.globals, seen, e'.allocs))
            && UsesOk(nodes, seen, e'.resolved, e'.allocs)
    decreases nodes, 0
  {
    if nodes == [] {
      assert seen + AddsAll(nodes) == seen;
    } else {
      var n := nodes[0];
      var e1 := Resolve(test, n, e, top);
      ResolveOk(test, n, e, top, seen);
      var e' := ResolveAll(test, nodes[1..], e1, top);
      if top {
        ResolveAllOk(test, nodes[1..], e1, top, seen + Adds(n));
      } else {
        ResolveAllOk(test, nodes[1..], e1, top, seen + Adds(n));
        ResolveAllGlobals(test, nodes[1..], e1, seen);
      }
      assert seen + Adds(n) + AddsAll(nodes[1..]) == seen + AddsAll(nodes);
      UseOkExtends(n, seen, e1.resolved, e'.resolved, e1.allocs, e'.allocs);
    }
  }

  /** Below the top, only global allocations are added to the global scope. */
  lemma {:induction false} ResolveAllGlobals(test: Renames, nodes: seq<Node>, e: Env, seen: set<OpId>)
    requires AllocsOk(e) && ScopeOk(e.globals, seen, e.allocs)
    ensures var e' := ResolveAll(test, nodes, e, false);
            AllocsOk(e') && ScopeOk(e'.globals, seen, e'.allocs) && forall k :: k in e.allocs ==> k in e'.allocs
    decreases nodes, 0
  {
    if nodes != [] {
      ResolveGlobals(test, nodes[0], e, seen);
      ResolveAllGlobals(test, nodes[1..], Resolve(test, nodes[0], e, false), seen);
    }
  }

  lemma {:induction false} ResolveGlobals(test: Renames, n: Node, e: Env, seen: set<OpId>)
    requires AllocsOk(e) && ScopeOk(e.globals, seen, e.allocs)
    ensures var e' := Resolve(test, n, e, false);
            AllocsOk(e') && ScopeOk(e'.globals, seen, e'.allocs) && forall k :: k in e.allocs ==> k in e'.allocs
    decreases n, 1
  {
    match n
    case Scoped(id, params, region) =>
      DefineParamsGlobals(e, id, params, |params|);
      ResolveAllGlobals(test, region, DefineParams(e, id, params, |params|), seen);
    case Other(_, rs) => ResolveRegionsGlobals(test, rs, e, seen);
    case _ =>
  }

  lemma {:induction false} DefineParamsGlobals(e: Env, id: OpId, params: seq<string>, n: nat)
    requires n <= |params|
    ensures var e' := DefineParams(e, id, params, n);
            e'.globals == e.globals && e'.allocs == e.allocs && e'.resolved == e.resolved
    decreases n
  {
    if n > 0 {
      DefineParamsGlobals(e, id, params, n - 1);
    }
  }

  lemma {:induction false} ResolveRegionsGlobals(test: Renames, rs: seq<Region>, e: Env, seen: set<OpId>)
    requires AllocsOk(e) && ScopeOk(e.globals, seen, e.allocs)
    ensures var e' := ResolveRegions(test, rs, e);
            AllocsOk(e') && ScopeOk(e'.globals, seen, e'.allocs) && forall k :: k in e.allocs ==> k in e'.allocs
    decreases rs, 0
  {
    if rs != [] {
      ResolveAllGlobals(test, rs[0].nodes, e, seen);
      ResolveRegionsGlobals(test, rs[1..], ResolveAll(test, rs[0].nodes, e, false).(locals := e.locals), seen);
    }
  }

  lemma {:induction false} ResolveOk(test: Renames, n: Node, e: Env, top: bool, seen: set<OpId>)
    requires EnvOk(e, seen) && UniqueNode(n)
    ensures var e' := Resolve(test, n, e, top);
            && EnvOk(e', seen + Adds(n)) && Frame(e, e', NodeIds(n))
            && (!top ==> ScopeOk(e'.globals, seen, e'.allocs))
            && UseOk(n, seen, e'.resolved, e'.allocs)
    decreases n, 1
  {
    match n
    case Scoped(id, params, region) =>
      DefineParamsOk(e, id, params, |params|, seen);
      var e1 := DefineParams(e, id, params, |params|);
      ResolveAllOk(test, region, e1, false, seen + {id});
      ResolveAllGlobals(test, region, e1, seen);
      assert seen + Adds(n) == seen;
    case Other(_, rs) =>
      ResolveRegionsOk(test, rs, e, seen);
      assert seen + Adds(n) == seen;
    case _ =>
      ResolveLeafOk(test, n, e, top, seen);
  }

  lemma ResolveLeafOk(test: Renames, n: Node, e: Env, top: bool, seen: set<OpId>)
    requires EnvOk(e, seen) && !n.Scoped? && !n.Other?
    ensures var e' := Resolve(test, n, e, top);
            && EnvOk(e', seen + Adds(n)) && Frame(e, e', NodeIds(n))
            && (!top ==> ScopeOk(e'.globals, seen, e'.allocs))
            && UseOk(n, seen, e'.resolved, e'.allocs)
  {
  }

  lemma {:induction false} ResolveRegionsOk(test: Renames, rs: seq<Region>, e: Env, seen: set<OpId>)
    requires EnvOk(e, seen) && UniqueRegions(rs)
    ensures var e' := ResolveRegions(test, rs, e);
            EnvOk(e', seen) && Frame(e, e', RegionIds(rs)) && RegionsOk(rs, seen, e'.resolved, e'.allocs)
    decreases rs, 0
  {
    if rs != [] {
      var nodes := rs[0].nodes;
      var e1 := ResolveAll(test, nodes, e, false);
      ResolveAllOk(test, nodes, e, false, seen);
      var e2 := e1.(locals := e.locals);
      var e' := ResolveRegions(test, rs[1..], e2);
      ResolveRegionsOk(test, rs[1..], e2, seen);
      UsesOkExtends(nodes, seen, e1.resolved, e'.resolved, e1.allocs, e'.allocs);
    }
  }

  /** For a whole program, by the flat walk: it never pops the global scope, ends in it, makes at
      most one global allocation for each name, and replaces every name by a usable value. */
  lemma WalkCorrect(test: Renames, nodes: seq<Node>)
    requires Unique(nodes)
    ensures var r := Run(test, Flatten(nodes), Walk([map[]], [], map[]));
            && r.Some? && |r.value.scopes| == 1
            && (forall i, j :: 0 <= i < j < |r.value.allocs| ==> r.value.allocs[i] != r.value.allocs[j])
            && UsesOk(nodes, {}, r.value.resolved, r.value.allocs)
            && r.value.resolved == ResolveAll(test, nodes, Env(map[], map[], [], map[]), true).resolved
  {
    var w, e := Walk([map[]], [], map[]), Env(map[], map[], [], map[]);
    assert Merge(w.scopes[1..]) == map[];
    WalkIsResolve(test, nodes, w, e, true);
    ResolveAllOk(test, nodes, e, true, {});
  }
}
