/** Where the repeat pattern goes wrong. */
module LuaDangling {
  // The condition of a `repeat` is copied with a mapping of its own, so it goes on naming the values
  // of the erased body.  A graph in which that happens is no valid IR.

  import opened LuaIr
  import opened LuaLowering
  import opened LuaClone
  import opened LuaOwnership
  import opened LuaControlFlow
  import opened LuaLowerAll

  /** The two copies of a `repeat` stop mentioning the values of the erased op exactly when the
      until-condition reads no value defined in the loop body. */
  lemma RepeatCopyClosed(b: Block, e: Block, n: nat)
    requires Below(BlockNames(b) + BlockNames(e), n) && OpsDefs(e.ops) !! BlockNames(b)
    ensures (BlockNames(CloneRegion(n, b)) + BlockNames(CloneRegion(n, e)) !! OpDefs(Repeat(b, e)))
            <==> (OpsDefs(b.ops) !! BlockNames(e))
  {
    var db, de := OpsDefs(b.ops), OpsDefs(e.ops);
    RenBlockNames(db, n, b);
    RenBlockNames(de, n, e);
    OpsDefsInNames(b.ops);
    OpsDefsInNames(e.ops);
    forall x | x in db && x in BlockNames(e)
      ensures x in BlockNames(CloneRegion(n, e))
    {
      assert Ren(de, n, x) == x;
    }
  }

  // ----- Uses without a definition

  /** What the ops of a graph define, at any depth. */
  ghost function CfgDefs(g: Cfg): set<Name> {
    set b, x | b in g && x in OpsDefs(g[b].ops) :: x
  }

  /** Every name that is mentioned is an input or is defined by some op. */
  ghost predicate Grounded(g: Cfg, inputs: set<Name>) {
    forall b {:trigger BlockNames(g[b])} :: b in g ==> BlockNames(g[b]) <= inputs + CfgDefs(g)
  }

  /** The block that holds the `repeat`, cut in three, and the two regions. */
  datatype Site = Site(pre: seq<Op>, body: Block, eval: Block, post: seq<Op>, term: Term)

  function SiteAt(g: Cfg, b: BlockId, i: nat): Site
    requires b in g && i < |g[b].ops| && g[b].ops[i].Repeat?
  {
    Site(g[b].ops[..i], g[b].ops[i].body, g[b].ops[i].eval, g[b].ops[i + 1..], g[b].term)
  }

  /** Names around the `repeat`. */
  ghost function Elsewhere(g: Cfg, b: BlockId, x: Site): set<Name> {
    NamesExcept(g, b) + OpsNames(x.pre) + OpsNames(x.post) + TermNames(x.term)
  }

  /** What the pattern leaves of it. */
  ghost predicate Lowered(g: Cfg, g': Cfg, b: BlockId, x: Site, n: BlockId, names: nat) {
    var body, eval := CloneRegion(names, x.body), CloneRegion(names, x.eval);
    && b in g && g'.Keys == g.Keys + {n, n + 1} && n !in g && n + 1 !in g && eval.term.Cond?
    && g'[b] == Block(x.pre, Br(n)) && g'[n + 1] == Block(x.post, x.term)
    && g'[n] == Block(body.ops + eval.ops, CondBr(eval.term.c, n + 1, n)) && body.term.Until?
    && forall d :: d in g && d != b ==> g'[d] == g[d]
  }

  lemma LoweredAt(g: Cfg, b: BlockId, i: nat, n: BlockId, names: nat)
    requires Closed(g, n) && b in g && i < |g[b].ops| && g[b].ops[i].Repeat? && LowerAt(g, b, i, n, names).Some?
    ensures Lowered(g, LowerAt(g, b, i, n, names).value, b, SiteAt(g, b, i), n, names)
  {
    var g1 := Cloned(g, b, i, names);
    ClonedClosed(g, b, i, n, names);
    SplicedKeys(g1, b, i, n);
    SplicedReplaces(g1, b, i, n);
    assert g1[b].ops[..i] == g[b].ops[..i] && g1[b].ops[i + 1..] == g[b].ops[i + 1..];
  }

  lemma BeforeNames(g: Cfg, b: BlockId, i: nat)
    requires b in g && i < |g[b].ops| && g[b].ops[i].Repeat?
    ensures var x := SiteAt(g, b, i);
            && BlockNames(g[b]) == OpsNames(x.pre) + OpNames(g[b].ops[i]) + OpsNames(x.post) + TermNames(x.term)
            && OpsDefs(g[b].ops) == OpsDefs(x.pre) + OpsDefs(x.body.ops) + OpsDefs(x.eval.ops) + OpsDefs(x.post)
            && BlockNames(x.body) + BlockNames(x.eval) == OpNames(g[b].ops[i])
  {
    var x, op := SiteAt(g, b, i), g[b].ops[i];
    assert g[b].ops == x.pre + [op] + x.post;
    OpsNamesAppend(x.pre + [op], x.post);
    OpsNamesAppend(x.pre, [op]);
    assert [op][1..] == [];
    assert OpsNames([op]) == OpNames(op) && OpsDefs([op]) == OpDefs(op);
  }

  /** What a copied region mentions and defines. */
  lemma CopyNames(x: Block, k: nat)
    requires Below(BlockNames(x), k)
    ensures var c := CloneRegion(k, x); var d := OpsDefs(x.ops);
            && BlockNames(c) == Image(d, k, BlockNames(x)) && OpsDefs(c.ops) == Image(d, k, d)
            && forall y :: y in OpsDefs(c.ops) ==> y >= k
  {
    RenBlockNames(OpsDefs(x.ops), k, x);
    RenOpsNames(OpsDefs(x.ops), k, x.ops);
  }

  lemma AfterNames(g: Cfg, g': Cfg, b: BlockId, x: Site, n: BlockId, names: nat)
    requires Lowered(g, g', b, x, n, names)
    ensures BlockNames(g'[n]) <= BlockNames(CloneRegion(names, x.body)) + BlockNames(CloneRegion(names, x.eval))
    ensures BlockNames(CloneRegion(names, x.eval)) <= BlockNames(g'[n])
    ensures OpsDefs(g'[n].ops) == OpsDefs(CloneRegion(names, x.body).ops) + OpsDefs(CloneRegion(names, x.eval).ops)
  {
    OpsNamesAppend(CloneRegion(names, x.body).ops, CloneRegion(names, x.eval).ops);
  }

  lemma DefsIn(g: Cfg, b: BlockId)
    requires b in g
    ensures OpsDefs(g[b].ops) <= CfgDefs(g)
  {
  }

  /** What holds of the graph around a `repeat` before it is lowered: nothing dangles, and the values
      of the two regions belong to the op, those of the condition to the condition. */
  ghost predicate Proper(g: Cfg, b: BlockId, i: nat, n: BlockId, names: nat, inputs: set<Name>) {
    && Closed(g, n) && CfgBelow(g, names) && Below(inputs, names) && Grounded(g, inputs)
    && b in g && i < |g[b].ops| && g[b].ops[i].Repeat?
    && var x := SiteAt(g, b, i);
       OpDefs(g[b].ops[i]) !! inputs + Elsewhere(g, b, x) && OpsDefs(x.eval.ops) !! BlockNames(x.body)
  }

  /** Lowering a `repeat` leaves a use without a definition exactly when the condition reads a value
      defined in the body. */
  lemma RepeatDangles(g: Cfg, b: BlockId, i: nat, n: BlockId, names: nat, inputs: set<Name>)
    requires Proper(g, b, i, n, names, inputs) && LowerAt(g, b, i, n, names).Some?
    ensures var x := SiteAt(g, b, i);
            Grounded(LowerAt(g, b, i, n, names).value, inputs) <==> OpsDefs(x.body.ops) !! BlockNames(x.eval)
  {
    var x, g' := SiteAt(g, b, i), LowerAt(g, b, i, n, names).value;
    LoweredAt(g, b, i, n, names);
    if OpsDefs(x.body.ops) !! BlockNames(x.eval) {
      StaysGrounded(g, g', b, i, n, names, inputs);
    } else {
      var y :| y in OpsDefs(x.body.ops) && y in BlockNames(x.eval);
      Dangles(g, g', b, i, n, names, inputs, y);
    }
  }

  lemma RegionNames(g: Cfg, b: BlockId, i: nat, names: nat)
    requires CfgBelow(g, names) && b in g && i < |g[b].ops| && g[b].ops[i].Repeat?
    ensures var x := SiteAt(g, b, i);
            && Below(BlockNames(x.body), names) && Below(BlockNames(x.eval), names)
            && OpDefs(g[b].ops[i]) == OpsDefs(x.body.ops) + OpsDefs(x.eval.ops)
            && BlockNames(x.body) + BlockNames(x.eval) <= BlockNames(g[b])
  {
    BeforeNames(g, b, i);
    assert Below(BlockNames(g[b]), names);
  }

  /** Outside the two regions the same things are defined as before. */
  lemma OtherDefs(g: Cfg, g': Cfg, b: BlockId, i: nat, n: BlockId, names: nat, y: Name)
    requires b in g && i < |g[b].ops| && g[b].ops[i].Repeat? && Lowered(g, g', b, SiteAt(g, b, i), n, names)
    ensures y in CfgDefs(g) && y !in OpDefs(g[b].ops[i]) ==> y in CfgDefs(g')
  {
    var x := SiteAt(g, b, i);
    BeforeNames(g, b, i);
    if y in CfgDefs(g) && y !in OpDefs(g[b].ops[i]) {
      var d :| d in g && y in OpsDefs(g[d].ops);
      if d == b {
        DefsIn(g', b);
        DefsIn(g', n + 1);
      } else {
        DefsIn(g', d);
      }
    }
  }

  lemma {:induction false} StaysGrounded(g: Cfg, g': Cfg, b: BlockId, i: nat, n: BlockId, names: nat, inputs: set<Name>)
    requires Proper(g, b, i, n, names, inputs) && Lowered(g, g', b, SiteAt(g, b, i), n, names)
    requires var x := SiteAt(g, b, i); OpsDefs(x.body.ops) !! BlockNames(x.eval)
    ensures Grounded(g', inputs)
  {
    var x := SiteAt(g, b, i);
    AfterNames(g, g', b, x, n, names);
    hide Proper, Elsewhere, CfgDefs;
    forall d | d in g'
      ensures BlockNames(g'[d]) <= inputs + CfgDefs(g')
    {
      forall y | y in BlockNames(g'[d])
        ensures y in inputs + CfgDefs(g')
      {
        if d == n {
          CopyGrounded(g, g', b, i, n, names, inputs, x.body, y);
          CopyGrounded(g, g', b, i, n, names, inputs, x.eval, y);
        } else {
          PlaceGrounded(g, g', b, i, n, names, inputs, d, y);
        }
      }
    }
  }

  /** A name in a block other than the copy. */
  lemma PlaceGrounded(
      g: Cfg, g': Cfg, b: BlockId, i: nat, n: BlockId, names: nat, inputs: set<Name>, d: BlockId, y: Name)
    requires Proper(g, b, i, n, names, inputs) && Lowered(g, g', b, SiteAt(g, b, i), n, names)
    requires d in g' && d != n && y in BlockNames(g'[d])
    ensures y in inputs + CfgDefs(g')
  {
    var d0 := if d == n + 1 then b else d;
    BeforeNames(g, b, i);
    OtherNames(g, g', b, SiteAt(g, b, i), n, names, d);
    OtherDefs(g, g', b, i, n, names, y);
    assert BlockNames(g[d0]) <= inputs + CfgDefs(g);
  }

  /** A name in the copy of one of the regions, neither of which reads the other's values. */
  lemma CopyGrounded(g: Cfg, g': Cfg, b: BlockId, i: nat, n: BlockId, names: nat, inputs: set<Name>, c: Block, y: Name)
    requires Proper(g, b, i, n, names, inputs) && Lowered(g, g', b, SiteAt(g, b, i), n, names)
    requires var x := SiteAt(g, b, i); (c == x.body || c == x.eval) && OpsDefs(x.body.ops) !! BlockNames(x.eval)
    ensures y in BlockNames(CloneRegion(names, c)) ==> y in inputs + CfgDefs(g')
  {
    var x := SiteAt(g, b, i);
    RegionNames(g, b, i, names);
    CopyNames(c, names);
    AfterNames(g, g', b, x, n, names);
    DefsIn(g', n);
    if y in BlockNames(CloneRegion(names, c)) {
      var d := OpsDefs(c.ops);
      var z :| z in BlockNames(c) && y == Ren(d, names, z);
      if z in d {
        assert y in OpsDefs(CloneRegion(names, c).ops);
      } else {
        assert BlockNames(g[b]) <= inputs + CfgDefs(g);
        OtherDefs(g, g', b, i, n, names, z);
      }
    }
  }

  /** Blocks other than the copy mention what was mentioned around the op. */
  lemma OtherNames(g: Cfg, g': Cfg, b: BlockId, x: Site, n: BlockId, names: nat, d: BlockId)
    requires Lowered(g, g', b, x, n, names) && d in g' && d != n
    ensures BlockNames(g'[d]) <= Elsewhere(g, b, x) && OpsDefs(g'[d].ops) <= Elsewhere(g, b, x)
  {
    OpsDefsInNames(g'[d].ops);
    if d != b && d != n + 1 {
      NamesExceptHas(g, b, d);
    }
  }

  /** A value of the body is not defined by the copies. */
  lemma OldInCopies(g: Cfg, g': Cfg, b: BlockId, i: nat, n: BlockId, names: nat, y: Name)
    requires CfgBelow(g, names) && b in g && i < |g[b].ops| && g[b].ops[i].Repeat?
    requires Lowered(g, g', b, SiteAt(g, b, i), n, names) && y in OpsDefs(SiteAt(g, b, i).body.ops)
    ensures y !in OpsDefs(g'[n].ops)
  {
    var x := SiteAt(g, b, i);
    RegionNames(g, b, i, names);
    AfterNames(g, g', b, x, n, names);
    CopyNames(x.body, names);
    CopyNames(x.eval, names);
    OpsDefsInNames(x.body.ops);
    assert y in BlockNames(x.body);
  }

  lemma Dangles(g: Cfg, g': Cfg, b: BlockId, i: nat, n: BlockId, names: nat, inputs: set<Name>, y: Name)
    requires Proper(g, b, i, n, names, inputs) && Lowered(g, g', b, SiteAt(g, b, i), n, names)
    requires var x := SiteAt(g, b, i); y in OpsDefs(x.body.ops) && y in BlockNames(x.eval)
    ensures y in BlockNames(g'[n]) && y !in inputs + CfgDefs(g')
  {
    var x := SiteAt(g, b, i);
    RegionNames(g, b, i, names);
    AfterNames(g, g', b, x, n, names);
    CopyNames(x.eval, names);
    OpsDefsInNames(x.body.ops);
    assert y == Ren(OpsDefs(x.eval.ops), names, y);
    OldInCopies(g, g', b, i, n, names, y);
    assert y !in inputs + Elsewhere(g, b, x);
    hide Elsewhere, Proper, OpsDefs;
    forall d | d in g'
      ensures y !in OpsDefs(g'[d].ops)
    {
      if d != n {
        OtherNames(g, g', b, x, n, names, d);
      }
    }
  }

  // ----- An input

  /** The loop `repeat local x = true until x`, with `x` named `x`. */
  function TrueLoop(x: Name): Op { Repeat(Block([Prim(0, [x], [])], Until), Block([], Cond(7))) }

  lemma TrueLoopLowered()
    ensures var g := map[0 := Block([TrueLoop(7)], Ret([]))];
            && LowerAt(g, 0, 0, 1, 8).Some?
            && Has(LowerAt(g, 0, 0, 1, 8).value, 0, [], Br(1))
            && Has(LowerAt(g, 0, 0, 1, 8).value, 1, [Prim(0, [15], [])], CondBr(7, 2, 1))
  {
    var g := map[0 := Block([TrueLoop(7)], Ret([]))];
    var body, eval := Block([Prim(0, [7], [])], Until), Block([], Cond(7));
    assert [Prim(0, [7], [])][1..] == [];
    assert OpsDefs(body.ops) == {7} && OpsDefs(eval.ops) == {};
    assert RenSeq({7}, 8, [7]) == [15];
    assert RenSeq({7}, 8, []) == [];
    assert CloneRegion(8, body) == Block([Prim(0, [15], [])], Until);
    assert CloneRegion(8, eval) == eval;
    var g1 := Cloned(g, 0, 0, 8);
    assert g1[0].ops == [TrueLoop(15)];
    assert [Prim(0, [15], [])] + [] == [Prim(0, [15], [])];
    assert g1[0].ops[1..] == [] && g1[0].ops[..0] == [];
    assert SpliceAt(g1, 0, 0, 1) == SpliceRepeat(Block([Prim(0, [15], [])], Until), eval, [], Ret([]), 1);
  }

  /** In `repeat local x = true until x` every use has its definition; once lowered, the loop tests the
      value `x` of the erased body. */
  lemma UntilReadingBodyDangles()
    ensures var g := map[0 := Block([TrueLoop(7)], Ret([]))];
            && Grounded(g, {}) && LowerAt(g, 0, 0, 1, 8).Some?
            && var g' := LowerAt(g, 0, 0, 1, 8).value;
               && Has(g', 1, [Prim(0, [15], [])], CondBr(7, 2, 1)) && 7 !in CfgDefs(g') && !Grounded(g', {})
  {
    var g := map[0 := Block([TrueLoop(7)], Ret([]))];
    TrueLoopLowered();
    TrueLoopProper();
    RepeatDangles(g, 0, 0, 1, 8, {});
    LoweredAt(g, 0, 0, 1, 8);
    Dangles(g, LowerAt(g, 0, 0, 1, 8).value, 0, 0, 1, 8, {}, 7);
  }

  lemma TrueLoopProper()
    ensures var g := map[0 := Block([TrueLoop(7)], Ret([]))];
            Proper(g, 0, 0, 1, 8, {}) && 7 in OpsDefs(SiteAt(g, 0, 0).body.ops) && 7 in BlockNames(SiteAt(g, 0, 0).eval)
  {
    var g := map[0 := Block([TrueLoop(7)], Ret([]))];
    assert [TrueLoop(7)][1..] == [] && [Prim(0, [7], [])][1..] == [] && [TrueLoop(7)][..0] == [];
    var x := SiteAt(g, 0, 0);
    assert OpsDefs(x.body.ops) == {7} && OpsNames(x.body.ops) == {7} && OpsDefs(x.eval.ops) == {};
    assert BlockNames(g[0]) == {7} && OpsDefs(g[0].ops) == {7};
    DefsIn(g, 0);
    assert NamesExcept(g, 0) == {};
  }
}
