/** Names resolve by lexical scoping. */
module LuaScopeNames {
  // A use of a name is replaced by its latest visible binding, and by the one global allocation of the
  // name if there is none.  The claim is made on the program: what is visible is a map that goes down
  // into regions and along the ops of a region, and never comes back out of a region.

  import opened LuaScopes
  import opened LuaScopeFacts

  type Names = map<OpId, string>

  // ----- The names that ops ask for or allocate

  function Asked(nodes: seq<Node>): Names
    decreases nodes, 0
  {
    if nodes == [] then map[] else AskedNode(nodes[0]) + Asked(nodes[1..])
  }

  function AskedNode(n: Node): Names
    decreases n, 1
  {
    match n
    case GetOrAlloc(id, name) => map[id := name]
    case AllocLocal(id, name) => map[id := name]
    case Assign(_, _) => map[]
    case Scoped(_, _, region) => Asked(region)
    case Other(_, rs) => AskedRegions(rs)
  }

  function AskedRegions(rs: seq<Region>): Names
    decreases rs, 0
  {
    if rs == [] then map[] else Asked(rs[0].nodes) + AskedRegions(rs[1..])
  }

  // ----- What is visible

  /** A name's binding, or its global allocation. */
  function Meaning(vis: Scope, k: string): Value { if k in vis then vis[k] else Global(k) }

  /** The position of the last parameter with a name. */
  function LastIndex(params: seq<string>, k: string): (i: nat)
    requires k in params
    ensures i < |params| && params[i] == k
  {
    var n := |params| - 1;
    if params[n] == k then n else LastIndex(params[..n], k)
  }

  function WithParams(vis: Scope, id: OpId, params: seq<string>): Scope {
    vis + map k | k in params :: Arg(id, LastIndex(params, k))
  }

  /** An assign renames if its target names an op before it, that op became an allocation, and the
      remaining tests hold.  `done` are the ops before it in program order. */
  predicate Rebinds(test: Renames, id: OpId, t: OpId, names: Names, done: set<OpId>, resolved: map<OpId, Value>) {
    t in done && t in names && t in resolved && IsAlloc(resolved[t]) && test(id, resolved[t])
  }

  /** What the ops after `n` in its region see. */
  function After(test: Renames, n: Node, vis: Scope, names: Names, done: set<OpId>, resolved: map<OpId, Value>): Scope {
    match n
    case AllocLocal(id, name) => vis[name := Alloc(id, name)]
    case Assign(id, t) => if Rebinds(test, id, t, names, done, resolved) then vis[names[t] := Res(id)] else vis
    case _ => vis
  }

  ghost predicate UsesExact(test: Renames, nodes: seq<Node>, vis: Scope, names: Names, done: set<OpId>,
      resolved: map<OpId, Value>)
    decreases nodes, 0
  {
    nodes == [] ||
    (&& UseExact(test, nodes[0], vis, names, done, resolved)
     && UsesExact(test, nodes[1..], After(test, nodes[0], vis, names, done, resolved), names,
                  done + NodeIds(nodes[0]), resolved))
  }

  ghost predicate UseExact(test: Renames, n: Node, vis: Scope, names: Names, done: set<OpId>,
      resolved: map<OpId, Value>)
    decreases n, 1
  {
    match n
    case GetOrAlloc(id, name) => id in resolved && resolved[id] == Meaning(vis, name)
    case AllocLocal(id, name) => id in resolved && resolved[id] == Alloc(id, name)
    case Assign(_, _) => true
    case Scoped(id, params, region) =>
      UsesExact(test, region, WithParams(vis, id, params), names, done + {id}, resolved)
    case Other(id, rs) => RegionsExact(test, rs, vis, names, done + {id}, resolved)
  }

  ghost predicate RegionsExact(test: Renames, rs: seq<Region>, vis: Scope, names: Names, done: set<OpId>,
      resolved: map<OpId, Value>)
    decreases rs, 0
  {
    rs == [] ||
    (&& UsesExact(test, rs[0].nodes, vis, names, done, resolved)
     && RegionsExact(test, rs[1..], vis, names, done + Ids(rs[0].nodes), resolved))
  }

  /** The two tables say the same of the ops in `ids`. */
  ghost predicate Agree(ids: set<OpId>, r: map<OpId, Value>, r': map<OpId, Value>) {
    forall id :: id in ids ==> (id in r <==> id in r') && (id in r ==> r[id] == r'[id])
  }

  lemma {:induction false} UsesAgree(test: Renames, nodes: seq<Node>, vis: Scope, names: Names, done: set<OpId>,
      r: map<OpId, Value>, r': map<OpId, Value>)
    requires UsesExact(test, nodes, vis, names, done, r) && Agree(done + Ids(nodes), r, r')
    ensures UsesExact(test, nodes, vis, names, done, r')
    decreases nodes, 0
  {
    if nodes != [] {
      UseAgree(test, nodes[0], vis, names, done, r, r');
      var vis1 := After(test, nodes[0], vis, names, done, r);
      UsesAgree(test, nodes[1..], vis1, names, done + NodeIds(nodes[0]), r, r');
    }
  }

  lemma {:induction false} UseAgree(test: Renames, n: Node, vis: Scope, names: Names, done: set<OpId>,
      r: map<OpId, Value>, r': map<OpId, Value>)
    requires UseExact(test, n, vis, names, done, r) && Agree(done + NodeIds(n), r, r')
    ensures UseExact(test, n, vis, names, done, r')
    ensures After(test, n, vis, names, done, r) == After(test, n, vis, names, done, r')
    decreases n, 1
  {
    match n
    case Scoped(id, params, region) => UsesAgree(test, region, WithParams(vis, id, params), names, done + {id}, r, r');
    case Other(id, rs) => RegionsAgree(test, rs, vis, names, done + {id}, r, r');
    case _ =>
  }

  lemma {:induction false} RegionsAgree(test: Renames, rs: seq<Region>, vis: Scope, names: Names, done: set<OpId>,
      r: map<OpId, Value>, r': map<OpId, Value>)
    requires RegionsExact(test, rs, vis, names, done, r) && Agree(done + RegionIds(rs), r, r')
    ensures RegionsExact(test, rs, vis, names, done, r')
    decreases rs, 0
  {
    if rs != [] {
      UsesAgree(test, rs[0].nodes, vis, names, done, r, r');
      RegionsAgree(test, rs[1..], vis, names, done + Ids(rs[0].nodes), r, r');
    }
  }

  // ----- The resolver's tables

  /** What the resolver's scopes say of a name. */
  function Found(e: Env, k: string): Value { if k in e.locals then e.locals[k] else Meaning(e.globals, k) }

  ghost predicate Sees(e: Env, vis: Scope) { forall k :: Found(e, k) == Meaning(vis, k) }

  /** An allocation that a name stands for has that name. */
  ghost predicate OwnNames(vis: Scope) { forall k :: k in vis && IsAlloc(vis[k]) ==> vis[k].name == k }

  /** The ops before that name something are resolved, and an allocation carries the name asked for. */
  ghost predicate Tabled(r: map<OpId, Value>, names: Names, done: set<OpId>) {
    && (forall id :: id in r <==> id in done && id in names)
    && (forall id :: id in r && IsAlloc(r[id]) ==> r[id].name == names[id])
  }

  /** `names` says of the ops in `ids` what `asked` says. */
  ghost predicate Covers(names: Names, ids: set<OpId>, asked: Names) {
    forall id :: id in ids ==> (id in names <==> id in asked) && (id in names ==> names[id] == asked[id])
  }

  ghost predicate Ready(e: Env, vis: Scope, names: Names, done: set<OpId>) {
    Sees(e, vis) && OwnNames(vis) && Tabled(e.resolved, names, done)
  }

  /** After code below the top: names outside stand for what they did, whatever globals were added. */
  ghost predicate GlobalsKept(e: Env, e': Env) {
    forall k :: Meaning(e'.globals, k) == Meaning(e.globals, k)
  }

  ghost predicate Later(e: Env, e': Env, ids: set<OpId>) {
    forall id :: id !in ids ==>
                   && (id in e.resolved <==> id in e'.resolved)
                   && (id in e.resolved ==> e.resolved[id] == e'.resolved[id])
  }

  lemma {:induction false} AskedIds(nodes: seq<Node>)
    ensures forall id :: id in Asked(nodes) ==> id in Ids(nodes)
    decreases nodes, 0
  {
    if nodes != [] {
      AskedNodeIds(nodes[0]);
      AskedIds(nodes[1..]);
    }
  }

  lemma {:induction false} AskedNodeIds(n: Node)
    ensures forall id :: id in AskedNode(n) ==> id in NodeIds(n)
    decreases n, 1
  {
    match n
    case Scoped(_, _, region) => AskedIds(region);
    case Other(_, rs) => AskedRegionIds(rs);
    case _ =>
  }

  lemma {:induction false} AskedRegionIds(rs: seq<Region>)
    ensures forall id :: id in AskedRegions(rs) ==> id in RegionIds(rs)
    decreases rs, 0
  {
    if rs != [] {
      AskedIds(rs[0].nodes);
      AskedRegionIds(rs[1..]);
    }
  }

  lemma ParamMeaning(vis: Scope, id: OpId, params: seq<string>, k: string)
    ensures Meaning(WithParams(vis, id, params), k)
            == if k in params then Arg(id, LastIndex(params, k)) else Meaning(vis, k)
  {
    hide LastIndex;
  }

  lemma LastIndexStep(params: seq<string>, n: nat, k: string)
    requires n < |params|
    ensures k in params[..n + 1] <==> k == params[n] || k in params[..n]
    ensures k in params[..n + 1] ==>
              LastIndex(params[..n + 1], k) == if k == params[n] then n else LastIndex(params[..n], k)
  {
    var a, b := params[..n], params[..n + 1];
    assert b == a + [params[n]] && b[..n] == a;
  }

  lemma {:induction false} DefineParamsSees(e: Env, id: OpId, params: seq<string>, n: nat, vis: Scope)
    requires Sees(e, vis) && n <= |params|
    ensures var e' := DefineParams(e, id, params, n);
            && Sees(e', WithParams(vis, id, params[..n])) && e'.resolved == e.resolved && e'.globals == e.globals
    decreases n
  {
    hide WithParams, LastIndex;
    var e' := DefineParams(e, id, params, n);
    if n > 0 {
      DefineParamsSees(e, id, params, n - 1, vis);
    }
    forall k
      ensures Found(e', k) == Meaning(WithParams(vis, id, params[..n]), k)
    {
      ParamMeaning(vis, id, params[..n], k);
      if n > 0 {
        assert Found(DefineParams(e, id, params, n - 1), k) == Meaning(WithParams(vis, id, params[..n - 1]), k);
        ParamMeaning(vis, id, params[..n - 1], k);
        LastIndexStep(params, n - 1, k);
      } else {
        assert Found(e, k) == Meaning(vis, k);
      }
    }
  }

  /** Parameters are no allocations. */
  lemma ParamsOwnNames(vis: Scope, id: OpId, params: seq<string>)
    requires OwnNames(vis)
    ensures OwnNames(WithParams(vis, id, params))
  {
  }

  lemma {:induction false} ResolveAllExact(test: Renames, nodes: seq<Node>, e: Env, top: bool, vis: Scope,
      names: Names, done: set<OpId>)
    requires Ready(e, vis, names, done) && Unique(nodes) && Ids(nodes) !! done && (top ==> e.locals == map[])
    requires Covers(names, Ids(nodes), Asked(nodes))
    ensures var e' := ResolveAll(test, nodes, e, top);
            && UsesExact(test, nodes, vis, names, done, e'.resolved) && Later(e, e', Ids(nodes))
            && Tabled(e'.resolved, names, done + Ids(nodes)) && (if top then e'.locals == map[] else GlobalsKept(e, e'))
    decreases nodes, 0
  {
    if nodes == [] {
      assert done + Ids(nodes) == done;
    } else {
      var n := nodes[0];
      var e1 := Resolve(test, n, e, top);
      AskedNodeIds(n);
      AskedIds(nodes[1..]);
      ResolveExact(test, n, e, top, vis, names, done);
      var vis1, done1 := After(test, n, vis, names, done, e1.resolved), done + NodeIds(n);
      ResolveAllExact(test, nodes[1..], e1, top, vis1, names, done1);
      var e' := ResolveAll(test, nodes[1..], e1, top);
      UseAgree(test, n, vis, names, done, e1.resolved, e'.resolved);
      assert done1 + Ids(nodes[1..]) == done + Ids(nodes);
    }
  }

  lemma {:induction false} ResolveExact(test: Renames, n: Node, e: Env, top: bool, vis: Scope, names: Names,
      done: set<OpId>)
    requires Ready(e, vis, names, done) && UniqueNode(n) && NodeIds(n) !! done && (top ==> e.locals == map[])
    requires Covers(names, NodeIds(n), AskedNode(n))
    ensures var e' := Resolve(test, n, e, top);
            && UseExact(test, n, vis, names, done, e'.resolved) && Later(e, e', NodeIds(n))
            && Ready(e', After(test, n, vis, names, done, e'.resolved), names, done + NodeIds(n))
            && (if top then e'.locals == map[] else GlobalsKept(e, e'))
    decreases n, 1
  {
    match n
    case Scoped(id, params, region) => ResolveScopedExact(test, n, e, vis, names, done);
    case Other(id, rs) =>
      AskedRegionIds(rs);
      ResolveRegionsExact(test, rs, e, vis, names, done + {id});
      assert done + {id} + RegionIds(rs) == done + NodeIds(n);
    case _ => ResolveLeafExact(test, n, e, top, vis, names, done);
  }

  lemma {:induction false} ResolveScopedExact(test: Renames, n: Node, e: Env, vis: Scope, names: Names, done: set<OpId>)
    requires Ready(e, vis, names, done) && n.Scoped? && UniqueNode(n) && NodeIds(n) !! done
    requires Covers(names, NodeIds(n), AskedNode(n))
    ensures var e' := Resolve(test, n, e, false);
            && UseExact(test, n, vis, names, done, e'.resolved) && Later(e, e', NodeIds(n))
            && Ready(e', vis, names, done + NodeIds(n)) && GlobalsKept(e, e') && e'.locals == e.locals
    decreases n, 0
  {
    hide WithParams, OwnNames, DefineParams;
    DefineParamsSees(e, n.id, n.params, |n.params|, vis);
    ParamsOwnNames(vis, n.id, n.params);
    assert n.params[..|n.params|] == n.params;
    AskedIds(n.region);
    var e1 := DefineParams(e, n.id, n.params, |n.params|);
    ResolveAllExact(test, n.region, e1, false, WithParams(vis, n.id, n.params), names, done + {n.id});
    assert done + {n.id} + Ids(n.region) == done + NodeIds(n);
  }

  lemma ResolveLeafExact(test: Renames, n: Node, e: Env, top: bool, vis: Scope, names: Names, done: set<OpId>)
    requires Ready(e, vis, names, done) && !n.Scoped? && !n.Other? && NodeIds(n) !! done && (top ==> e.locals == map[])
    requires Covers(names, NodeIds(n), AskedNode(n))
    ensures var e' := Resolve(test, n, e, top);
            && UseExact(test, n, vis, names, done, e'.resolved) && Later(e, e', NodeIds(n))
            && Ready(e', After(test, n, vis, names, done, e'.resolved), names, done + NodeIds(n))
            && (if top then e'.locals == map[] else GlobalsKept(e, e'))
  {
    match n
    case GetOrAlloc(id, name) => GetExact(test, n, e, top, vis, names, done);
    case AllocLocal(id, name) => DefineSees(e, top, vis, name, Alloc(id, name));
    case Assign(id, t) =>
      assert t in e.resolved <==> t in done && t in names;
      var v := Target(e.resolved, t);
      if IsAlloc(v) {
        DefineSees(e, top, vis, names[t], Res(id));
      }
    case _ =>
  }

  lemma DefineSees(e: Env, top: bool, vis: Scope, k: string, v: Value)
    requires Sees(e, vis) && (top ==> e.locals == map[])
    ensures Sees(Define(e, top, k, v), vis[k := v])
  {
    var e', vis' := Define(e, top, k, v), vis[k := v];
    forall j ensures Found(e', j) == Meaning(vis', j) {
      assert Found(e, j) == Meaning(vis, j);
    }
  }

  lemma GetExact(test: Renames, n: Node, e: Env, top: bool, vis: Scope, names: Names, done: set<OpId>)
    requires Ready(e, vis, names, done) && n.GetOrAlloc? && n.id !in done && names[n.id := n.name] == names
    ensures var e' := Resolve(test, n, e, top);
            && e'.resolved == e.resolved[n.id := Meaning(vis, n.name)] && e'.locals == e.locals
            && Ready(e', vis, names, done + {n.id}) && GlobalsKept(e, e')
  {
    var e' := Resolve(test, n, e, top);
    assert Found(e, n.name) == Meaning(vis, n.name);
    forall j ensures Found(e', j) == Meaning(vis, j) {
      assert Found(e, j) == Meaning(vis, j);
    }
  }

  lemma {:induction false} ResolveRegionsExact(test: Renames, rs: seq<Region>, e: Env, vis: Scope, names: Names,
      done: set<OpId>)
    requires Ready(e, vis, names, done) && UniqueRegions(rs) && RegionIds(rs) !! done
    requires Covers(names, RegionIds(rs), AskedRegions(rs))
    ensures var e' := ResolveRegions(test, rs, e);
            && RegionsExact(test, rs, vis, names, done, e'.resolved) && Later(e, e', RegionIds(rs))
            && Ready(e', vis, names, done + RegionIds(rs)) && GlobalsKept(e, e') && e'.locals == e.locals
    decreases rs, 0
  {
    if rs == [] {
      assert done + RegionIds(rs) == done;
    } else {
      var nodes := rs[0].nodes;
      AskedIds(nodes);
      AskedRegionIds(rs[1..]);
      ResolveAllExact(test, nodes, e, false, vis, names, done);
      var e1 := ResolveAll(test, nodes, e, false).(locals := e.locals);
      ResolveRegionsExact(test, rs[1..], e1, vis, names, done + Ids(nodes));
      var e' := ResolveRegions(test, rs[1..], e1);
      UsesAgree(test, nodes, vis, names, done, e1.resolved, e'.resolved);
      assert done + Ids(nodes) + RegionIds(rs[1..]) == done + RegionIds(rs);
    }
  }

  // ----- Values stand for their names

  function Ops(nodes: seq<Node>): set<Node>
    decreases nodes, 0
  {
    if nodes == [] then {} else NodeOps(nodes[0]) + Ops(nodes[1..])
  }

  function NodeOps(n: Node): set<Node>
    decreases n, 1
  {
    match n
    case Scoped(_, _, region) => {n} + Ops(region)
    case Other(_, rs) => {n} + RegionOps(rs)
    case _ => {n}
  }

  function RegionOps(rs: seq<Region>): set<Node>
    decreases rs, 0
  {
    if rs == [] then {} else Ops(rs[0].nodes) + RegionOps(rs[1..])
  }

  /** One of the ops asks for the name or allocates it. */
  predicate Asks(id: OpId, name: string, ops: set<Node>) {
    GetOrAlloc(id, name) in ops || AllocLocal(id, name) in ops
  }

  /** A value that a name may be replaced by: an allocation of that name, the argument for a parameter of
      that name, or what was assigned to an op that asked for or allocated that name. */
  ghost predicate Stands(v: Value, name: string, ops: set<Node>) {
    match v
    case Global(k) => k == name
    case Alloc(id, k) => k == name && AllocLocal(id, k) in ops
    case Arg(id, i) => exists n :: n in ops && n.Scoped? && n.id == id && i < |n.params| && n.params[i] == name
    case Res(id) => exists t :: Assign(id, t) in ops && Asks(t, name, ops)
  }

  ghost predicate UsesStand(nodes: set<Node>, resolved: map<OpId, Value>, ops: set<Node>) {
    forall n :: n in nodes && n.GetOrAlloc? ==> n.id in resolved && Stands(resolved[n.id], n.name, ops)
  }

  ghost predicate BindingsStand(vis: Scope, names: Names, ops: set<Node>) {
    && (forall k :: k in vis ==> Stands(vis[k], k, ops))
    && (forall id :: id in names ==> Asks(id, names[id], ops))
  }

  lemma {:induction false} ExactStand(test: Renames, nodes: seq<Node>, vis: Scope, names: Names, done: set<OpId>,
      resolved: map<OpId, Value>, ops: set<Node>)
    requires UsesExact(test, nodes, vis, names, done, resolved) && Ops(nodes) <= ops && BindingsStand(vis, names, ops)
    ensures UsesStand(Ops(nodes), resolved, ops)
    decreases nodes, 0
  {
    if nodes != [] {
      ExactStandNode(test, nodes[0], vis, names, done, resolved, ops);
      ExactStand(test, nodes[1..], After(test, nodes[0], vis, names, done, resolved), names, done + NodeIds(nodes[0]),
                 resolved, ops);
    }
  }

  lemma {:induction false} ExactStandNode(test: Renames, n: Node, vis: Scope, names: Names, done: set<OpId>,
      resolved: map<OpId, Value>, ops: set<Node>)
    requires UseExact(test, n, vis, names, done, resolved) && NodeOps(n) <= ops && BindingsStand(vis, names, ops)
    ensures UsesStand(NodeOps(n), resolved, ops)
    ensures BindingsStand(After(test, n, vis, names, done, resolved), names, ops)
    decreases n, 1
  {
    match n
    case Scoped(id, params, region) =>
      assert BindingsStand(WithParams(vis, id, params), names, ops) by {
        assert n in ops;
      }
      ExactStand(test, region, WithParams(vis, id, params), names, done + {id}, resolved, ops);
    case Other(id, rs) => ExactStandRegions(test, rs, vis, names, done + {id}, resolved, ops);
    case Assign(id, t) =>
      assert n in ops;
    case _ =>
      assert n in ops;
  }

  lemma {:induction false} ExactStandRegions(test: Renames, rs: seq<Region>, vis: Scope, names: Names,
      done: set<OpId>, resolved: map<OpId, Value>, ops: set<Node>)
    requires RegionsExact(test, rs, vis, names, done, resolved) && RegionOps(rs) <= ops
    requires BindingsStand(vis, names, ops)
    ensures UsesStand(RegionOps(rs), resolved, ops)
    decreases rs, 0
  {
    if rs != [] {
      ExactStand(test, rs[0].nodes, vis, names, done, resolved, ops);
      ExactStandRegions(test, rs[1..], vis, names, done + Ids(rs[0].nodes), resolved, ops);
    }
  }

  lemma {:induction false} AskedOps(nodes: seq<Node>, ops: set<Node>)
    requires Ops(nodes) <= ops
    ensures forall id :: id in Asked(nodes) ==> Asks(id, Asked(nodes)[id], ops)
    decreases nodes, 0
  {
    if nodes != [] {
      AskedNodeOps(nodes[0], ops);
      AskedOps(nodes[1..], ops);
    }
  }

  lemma {:induction false} AskedNodeOps(n: Node, ops: set<Node>)
    requires NodeOps(n) <= ops
    ensures forall id :: id in AskedNode(n) ==> Asks(id, AskedNode(n)[id], ops)
    decreases n, 1
  {
    match n
    case Scoped(_, _, region) => AskedOps(region, ops);
    case Other(_, rs) => AskedRegionOps(rs, ops);
    case _ =>
      assert n in ops;
  }

  lemma {:induction false} AskedRegionOps(rs: seq<Region>, ops: set<Node>)
    requires RegionOps(rs) <= ops
    ensures forall id :: id in AskedRegions(rs) ==> Asks(id, AskedRegions(rs)[id], ops)
    decreases rs, 0
  {
    if rs != [] {
      AskedOps(rs[0].nodes, ops);
      AskedRegionOps(rs[1..], ops);
    }
  }

  // ----- Whole programs

  /** The flat walk resolves names by lexical scoping, with every assign that passes the tests a new
      binding, and never takes the value of one name for another. */
  lemma WalkExact(test: Renames, nodes: seq<Node>)
    requires Unique(nodes)
    ensures var r := Run(test, Flatten(nodes), Walk([map[]], [], map[]));
            && r.Some? && UsesExact(test, nodes, map[], Asked(nodes), {}, r.value.resolved)
            && UsesStand(Ops(nodes), r.value.resolved, Ops(nodes))
  {
    var e := Env(map[], map[], [], map[]);
    WalkCorrect(test, nodes);
    AskedIds(nodes);
    ResolveAllExact(test, nodes, e, true, map[], Asked(nodes), {});
    AskedOps(nodes, Ops(nodes));
    ExactStand(test, nodes, map[], Asked(nodes), {}, ResolveAll(test, nodes, e, true).resolved, Ops(nodes));
  }
}
