/** The worklist walk as the compiler runs it. */
module LuaScopeVisitor {
  // The stack of maps and the worklist are updated in place.

  import opened LuaScopes
  import opened LuaScopeFacts
  import opened LuaScopeNames

  lemma {:induction false} FlattenSnoc(nodes: seq<Node>, n: Node)
    ensures Flatten(nodes + [n]) == Flatten(nodes) + FlattenNode(n)
    decreases |nodes|
  {
    hide FlattenNode;
    if nodes == [] {
      assert nodes + [n] == [n];
    } else {
      assert (nodes + [n])[1..] == nodes[1..] + [n];
      FlattenSnoc(nodes[1..], n);
    }
  }

  lemma {:induction false} FlattenRegionsSnoc(rs: seq<Region>, r: Region)
    ensures FlattenRegions(rs + [r]) == FlattenRegions(rs) + [PushScope] + Flatten(r.nodes) + [PopScope]
    decreases |rs|
  {
    hide Flatten;
    if rs == [] {
      assert rs + [r] == [r];
    } else {
      assert (rs + [r])[1..] == rs[1..] + [r];
      FlattenRegionsSnoc(rs[1..], r);
    }
  }

  class ScopedMap {
    var scopes: seq<Scope>

    constructor ()
      ensures scopes == [map[]]
    {
      scopes := [map[]];
    }

    method Contains(k: string) returns (r: bool)
      ensures r <==> Find(scopes, k) != []
    {
      var i := |scopes|;
      assert scopes[..i] == scopes;
      while i > 0
        invariant 0 <= i <= |scopes|
        invariant Find(scopes, k) == Find(scopes[..i], k)
      {
        i := i - 1;
        assert scopes[..i + 1][..i] == scopes[..i];
        if k in scopes[i] {
          return true;
        }
      }
      r := false;
    }

    /** `None` is the error for a name in no scope. */
    method Lookup(k: string) returns (r: Option<Value>)
      ensures r == if Find(scopes, k) == [] then None else Some(Find(scopes, k)[0])
    {
      var i := |scopes|;
      assert scopes[..i] == scopes;
      while i > 0
        invariant 0 <= i <= |scopes|
        invariant Find(scopes, k) == Find(scopes[..i], k)
      {
        i := i - 1;
        assert scopes[..i + 1][..i] == scopes[..i];
        if k in scopes[i] {
          return Some(scopes[i][k]);
        }
      }
      r := None;
    }

    method SetLocal(k: string, v: Value)
      requires |scopes| > 0
      modifies this
      ensures scopes == LuaScopes.SetLocal(old(scopes), k, v)
    {
      scopes := scopes[|scopes| - 1 := scopes[|scopes| - 1][k := v]];
    }

    method SetGlobal(k: string, v: Value)
      requires |scopes| > 0
      modifies this
      ensures scopes == LuaScopes.SetGlobal(old(scopes), k, v)
    {
      scopes := scopes[0 := scopes[0][k := v]];
    }
  }

  function ItemId(item: Item): seq<OpId> { if item.Visit? then [item.node.id] else [] }

  function ItemIds(items: seq<Item>): seq<OpId> {
    if items == [] then [] else ItemId(items[0]) + ItemIds(items[1..])
  }

  predicate DistinctIds(ids: seq<OpId>) { forall i, j :: 0 <= i < j < |ids| ==> ids[i] != ids[j] }

  class AllocVisitor {
    const scope: ScopedMap
    const test: Renames
    var removed: set<OpId>
    var worklist: seq<Item>
    var allocs: seq<string>
    var resolved: map<OpId, Value>

    constructor (test: Renames)
      ensures fresh(scope) && scope.scopes == [map[]] && this.test == test
      ensures worklist == [] && removed == {} && allocs == [] && resolved == map[]
    {
      scope := new ScopedMap();
      this.test := test;
      removed, worklist, allocs, resolved := {}, [], [], map[];
    }

    function State(): Walk
      reads this, scope
    {
      Walk(scope.scopes, allocs, resolved)
    }

    method AddRegion(nodes: seq<Node>)
      modifies this`worklist
      ensures worklist == old(worklist) + Flatten(nodes)
      decreases nodes, 0
    {
      for i := 0 to |nodes|
        invariant worklist == old(worklist) + Flatten(nodes[..i])
      {
        CheckWork(nodes[i]);
        FlattenSnoc(nodes[..i], nodes[i]);
        assert nodes[..i + 1] == nodes[..i] + [nodes[i]];
      }
      assert nodes[..|nodes|] == nodes;
    }

    method CheckWork(n: Node)
      modifies this`worklist
      ensures worklist == old(worklist) + FlattenNode(n)
      decreases n, 1
    {
      match n
      case Scoped(_, _, region) =>
        worklist := worklist + [PushScope];
        worklist := worklist + [Visit(n)];
        AddRegion(region);
        worklist := worklist + [PopScope];
      case Other(_, regions) =>
        worklist := worklist + [Visit(n)];
        AddRegions(regions);
      case _ =>
        worklist := worklist + [Visit(n)];
    }

    method AddRegions(rs: seq<Region>)
      modifies this`worklist
      ensures worklist == old(worklist) + FlattenRegions(rs)
      decreases rs, 0
    {
      for i := 0 to |rs|
        invariant worklist == old(worklist) + FlattenRegions(rs[..i])
      {
        worklist := worklist + [PushScope];
        AddRegion(rs[i].nodes);
        worklist := worklist + [PopScope];
        FlattenRegionsSnoc(rs[..i], rs[i]);
        assert rs[..i + 1] == rs[..i] + [rs[i]];
      }
      assert rs[..|rs|] == rs;
    }

    method VisitOp(n: Node)
      requires |scope.scopes| > 0
      modifies this`removed, this`allocs, this`resolved, scope
      ensures State() == VisitNode(test, n, old(State()))
      ensures removed == old(removed) + (if n.GetOrAlloc? || n.AllocLocal? then {n.id} else {})
    {
      match n
      case GetOrAlloc(id, name) =>
        var known := scope.Contains(name);
        if !known {
          allocs := allocs + [name];
          scope.SetGlobal(name, Global(name));
          GlobalFound(old(scope.scopes), name);
        }
        var v := scope.Lookup(name);
        resolved := resolved[id := v.value];
        removed := removed + {id};
      case AllocLocal(id, name) =>
        scope.SetLocal(name, Alloc(id, name));
        resolved := resolved[id := Alloc(id, name)];
        removed := removed + {id};
      case Scoped(id, params, _) =>
        for i := 0 to |params|
          invariant scope.scopes == SetParams(old(scope.scopes), id, params, i)
          invariant allocs == old(allocs) && resolved == old(resolved) && removed == old(removed)
        {
          scope.SetLocal(params[i], Arg(id, i));
        }
      case Assign(id, tgt) =>
        var v := Target(resolved, tgt);
        if IsAlloc(v) && test(id, v) {
          scope.SetLocal(v.name, Res(id));
        }
      case Other(_, _) =>
    }

    /** One entry of the worklist; an op already replaced is skipped. */
    method Process(item: Item) returns (ok: bool)
      requires |scope.scopes| > 0 && (item.Visit? ==> item.node.id !in removed)
      modifies this`removed, this`allocs, this`resolved, scope
      ensures var next := Step(test, item, old(State()));
              if next.None? then !ok else ok && State() == next.value
      ensures removed <= old(removed) + SeqSet(ItemId(item))
    {
      ok := true;
      match item {
        case PushScope => scope.scopes := scope.scopes + [map[]];
        case PopScope =>
          if |scope.scopes| == 1 {
            return false;
          }
          scope.scopes := scope.scopes[..|scope.scopes| - 1];
        case Visit(n) =>
          assert n.id in ItemId(item);
          if n.id !in removed {
            VisitOp(n);
          }
      }
    }

    /** Fills the worklist and walks it.  `ok` would be false if a scope were popped too often. */
    method VisitAll(main: seq<Node>) returns (ok: bool)
      requires worklist == [] && scope.scopes == [map[]] && allocs == [] && resolved == map[] && removed == {}
      requires Unique(main)
      modifies this, scope
      ensures ok && |scope.scopes| == 1
      ensures Run(test, Flatten(main), Walk([map[]], [], map[])) == Some(State())
      ensures UsesOk(main, {}, resolved, allocs)
      ensures UsesExact(test, main, map[], Asked(main), {}, resolved) && UsesStand(Ops(main), resolved, Ops(main))
    {
      hide Unique, UsesOk, UsesExact, UsesStand, Step, Flatten;
      AddRegion(main);
      FlattenDistinct(main);
      WalkCorrect(test, main);
      WalkExact(test, main);
      ghost var w0 := State();
      var i := 0;
      assert worklist[0..] == worklist == Flatten(main);
      while i < |worklist|
        invariant 0 <= i <= |worklist| && worklist == Flatten(main) && |scope.scopes| > 0
        invariant Run(test, worklist, w0) == Run(test, worklist[i..], State())
        invariant DistinctIds(ItemIds(worklist[i..]))
        invariant removed !! SeqSet(ItemIds(worklist[i..]))
      {
        ghost var rest := worklist[i..];
        assert rest[0] == worklist[i] && rest[1..] == worklist[i + 1..];
        TailDistinct(rest);
        ok := Process(worklist[i]);
        if !ok {
          return;
        }
        i := i + 1;
      }
      assert worklist[i..] == [];
      ok := true;
    }
  }

  lemma {:induction false} GlobalFound(scopes: seq<Scope>, k: string)
    requires |scopes| > 0 && Find(scopes, k) == []
    ensures Find(LuaScopes.SetGlobal(scopes, k, Global(k)), k) == [Global(k)]
    decreases |scopes|
  {
    var n := |scopes| - 1;
    if n > 0 {
      GlobalFound(scopes[..n], k);
      assert LuaScopes.SetGlobal(scopes, k, Global(k))[..n] == LuaScopes.SetGlobal(scopes[..n], k, Global(k));
    }
  }

  lemma DistinctSplit(a: seq<OpId>, b: seq<OpId>)
    requires DistinctIds(a + b)
    ensures DistinctIds(b) && SeqSet(a) !! SeqSet(b) && SeqSet(a + b) == SeqSet(a) + SeqSet(b)
  {
    forall i, j | 0 <= i < j < |b| ensures b[i] != b[j] {
      assert (a + b)[|a| + i] == b[i] && (a + b)[|a| + j] == b[j];
    }
    forall i, j | 0 <= i < |a| && 0 <= j < |b| ensures a[i] != b[j] {
      assert (a + b)[i] == a[i] && (a + b)[|a| + j] == b[j];
    }
  }

  lemma TailDistinct(items: seq<Item>)
    requires items != [] && DistinctIds(ItemIds(items))
    ensures DistinctIds(ItemIds(items[1..]))
    ensures SeqSet(ItemId(items[0])) !! SeqSet(ItemIds(items[1..]))
    ensures SeqSet(ItemIds(items)) == SeqSet(ItemId(items[0])) + SeqSet(ItemIds(items[1..]))
  {
    DistinctSplit(ItemId(items[0]), ItemIds(items[1..]));
  }

  lemma {:induction false} ItemIdsAppend(a: seq<Item>, b: seq<Item>)
    ensures ItemIds(a + b) == ItemIds(a) + ItemIds(b)
    decreases |a|
  {
    if a == [] {
      assert a + b == b;
    } else {
      assert (a + b)[1..] == a[1..] + b;
      ItemIdsAppend(a[1..], b);
      var h, x, y := ItemId(a[0]), ItemIds(a[1..]), ItemIds(b);
      assert h + (x + y) == (h + x) + y;
    }
  }

  function SeqSet(ids: seq<OpId>): set<OpId> { set id | id in ids }

  lemma DistinctAppend(a: seq<OpId>, b: seq<OpId>)
    requires DistinctIds(a) && DistinctIds(b) && SeqSet(a) !! SeqSet(b)
    ensures DistinctIds(a + b) && SeqSet(a + b) == SeqSet(a) + SeqSet(b)
  {
    forall i, j | 0 <= i < j < |a + b| ensures (a + b)[i] != (a + b)[j] {
      if i < |a| && j >= |a| {
        assert a[i] in SeqSet(a) && b[j - |a|] in SeqSet(b);
      }
    }
  }

  /** Every op is put on the worklist once. */
  lemma {:induction false} FlattenDistinct(nodes: seq<Node>)
    requires Unique(nodes)
    ensures DistinctIds(ItemIds(Flatten(nodes))) && SeqSet(ItemIds(Flatten(nodes))) == Ids(nodes)
    decreases nodes, 0
  {
    if nodes != [] {
      FlattenNodeDistinct(nodes[0]);
      FlattenDistinct(nodes[1..]);
      ItemIdsAppend(FlattenNode(nodes[0]), Flatten(nodes[1..]));
      DistinctAppend(ItemIds(FlattenNode(nodes[0])), ItemIds(Flatten(nodes[1..])));
    }
  }

  lemma {:induction false} FlattenNodeDistinct(n: Node)
    requires UniqueNode(n)
    ensures DistinctIds(ItemIds(FlattenNode(n))) && SeqSet(ItemIds(FlattenNode(n))) == NodeIds(n)
    decreases n, 1
  {
    match n
    case Scoped(id, _, region) =>
      FlattenDistinct(region);
      assert [PushScope, Visit(n)][1..] == [Visit(n)] && [Visit(n)][1..] == [] && [PopScope][1..] == [];
      assert ItemIds([PushScope, Visit(n)]) == [id] && ItemIds([PopScope]) == [];
      ItemIdsAppend([PushScope, Visit(n)] + Flatten(region), [PopScope]);
      ItemIdsAppend([PushScope, Visit(n)], Flatten(region));
      DistinctAppend([id], ItemIds(Flatten(region)));
      assert ItemIds(FlattenNode(n)) == [id] + ItemIds(Flatten(region));
    case Other(id, rs) =>
      FlattenRegionsDistinct(rs);
      assert ItemIds([Visit(n)]) == [id] by {
        assert [Visit(n)][1..] == [];
      }
      ItemIdsAppend([Visit(n)], FlattenRegions(rs));
      DistinctAppend([id], ItemIds(FlattenRegions(rs)));
    case _ =>
      assert [Visit(n)][1..] == [];
      assert ItemIds([Visit(n)]) == [n.id];
  }

  lemma {:induction false} FlattenRegionsDistinct(rs: seq<Region>)
    requires UniqueRegions(rs)
    ensures DistinctIds(ItemIds(FlattenRegions(rs))) && SeqSet(ItemIds(FlattenRegions(rs))) == RegionIds(rs)
    decreases rs, 0
  {
    if rs != [] {
      var region := Flatten(rs[0].nodes);
      FlattenDistinct(rs[0].nodes);
      FlattenRegionsDistinct(rs[1..]);
      BracketIds(region, FlattenRegions(rs[1..]));
      DistinctAppend(ItemIds(region), ItemIds(FlattenRegions(rs[1..])));
    }
  }

  lemma BracketIds(inner: seq<Item>, rest: seq<Item>)
    ensures ItemIds([PushScope] + inner + [PopScope] + rest) == ItemIds(inner) + ItemIds(rest)
  {
    assert [PushScope][1..] == [] && [PopScope][1..] == [];
    assert ItemIds([PushScope]) == [] && ItemIds([PopScope]) == [];
    ItemIdsAppend([PushScope] + inner + [PopScope], rest);
    ItemIdsAppend([PushScope] + inner, [PopScope]);
    ItemIdsAppend([PushScope], inner);
  }
}
