/** The generator object: a stack of blocks and an insertion point, moved while ops are created.  What
    it leaves behind is read back as the structured ops that the statements mean. */
module LuaBlockStack {
  import opened LuaIr
  import opened LuaGenerator

  type Region = nat

  /** What a block holds: ops, with the regions they own, and terminators. */
  datatype Item =
    | PlainI(op: Plain)
    | CondIfI(cond: Name, first: Region, second: Region)
    | LoopWhileI(eval: Region, body: Region)
    | RepeatI(body: Region)
    | EndI
    | RetI(vals: seq<Name>)
    | CondI(c: Name)
    | UntilI(eval: Region)

  /** A region holds no block until its entry block is added. */
  type Regions = seq<Option<seq<Item>>>

  // ----- Reading blocks back

  predicate TermIs(it: Item, t: Term) {
    match t
    case End => it.EndI?
    case Until => it.UntilI?
    case Cond(c) => it == CondI(c)
    case Ret(vs) => it == RetI(vs)
    case _ => false
  }

  /** Region `r` is finished: not one of the `open` ones, and its block ends in terminator `t`. */
  predicate Closed(rs: Regions, open: set<Region>, r: Region, t: Term) {
    && r < |rs| && r !in open && rs[r].Some? && |rs[r].value| > 0
    && TermIs(rs[r].value[|rs[r].value| - 1], t)
  }

  /** The ops before the terminator of region `r`. */
  function Inner(rs: Regions, r: Region): seq<Item>
    requires r < |rs| && rs[r].Some? && |rs[r].value| > 0
  {
    rs[r].value[..|rs[r].value| - 1]
  }

  function Last(rs: Regions, r: Region): Item
    requires r < |rs| && rs[r].Some? && |rs[r].value| > 0
  {
    rs[r].value[|rs[r].value| - 1]
  }

  /** The items are the structured ops, with nothing else and no terminator in between. */
  predicate Reads(rs: Regions, open: set<Region>, items: seq<Item>, ops: seq<Op>)
    decreases ops
  {
    |items| == |ops| && forall i :: 0 <= i < |ops| ==> ReadsOp(rs, open, items[i], ops[i])
  }

  predicate ReadsOp(rs: Regions, open: set<Region>, it: Item, op: Op)
    decreases op
  {
    match op
    case Prim(k, res, args) => it == PlainI(Plain(k, res, args))
    case CondIf(c, a, b) =>
      && it.CondIfI? && it.cond == c
      && Closed(rs, open, it.first, a.term) && Reads(rs, open, Inner(rs, it.first), a.ops)
      && Closed(rs, open, it.second, b.term) && Reads(rs, open, Inner(rs, it.second), b.ops)
    case LoopWhile(e, b) =>
      && it.LoopWhileI?
      && Closed(rs, open, it.eval, e.term) && Reads(rs, open, Inner(rs, it.eval), e.ops)
      && Closed(rs, open, it.body, b.term) && Reads(rs, open, Inner(rs, it.body), b.ops)
    case Repeat(b, e) =>
      && it.RepeatI? && b.term == Until
      && Closed(rs, open, it.body, Until) && Reads(rs, open, Inner(rs, it.body), b.ops)
      && var r := Last(rs, it.body).eval;
         Closed(rs, open, r, e.term) && Reads(rs, open, Inner(rs, r), e.ops)
  }

  predicate ReadsBlock(rs: Regions, open: set<Region>, r: Region, b: Block) {
    Closed(rs, open, r, b.term) && Reads(rs, open, Inner(rs, r), b.ops)
  }

  /** Later regions only: `rs1` holds what `rs0` holds outside the open regions. */
  predicate Extends(rs0: Regions, rs1: Regions, open0: set<Region>, open1: set<Region>) {
    && |rs0| <= |rs1|
    && (forall r :: 0 <= r < |rs0| && r !in open0 ==> rs1[r] == rs0[r])
    && (forall r :: 0 <= r < |rs0| && r !in open0 ==> r !in open1)
  }

  lemma {:induction false} ReadsFrame(rs0: Regions, rs1: Regions, open0: set<Region>, open1: set<Region>,
      items: seq<Item>, ops: seq<Op>)
    requires Reads(rs0, open0, items, ops) && Extends(rs0, rs1, open0, open1)
    ensures Reads(rs1, open1, items, ops)
    decreases ops
  {
    forall i | 0 <= i < |ops|
      ensures ReadsOp(rs1, open1, items[i], ops[i])
    {
      ReadsOpFrame(rs0, rs1, open0, open1, items[i], ops[i]);
    }
  }

  lemma {:induction false} ReadsOpFrame(rs0: Regions, rs1: Regions, open0: set<Region>, open1: set<Region>, it: Item,
      op: Op)
    requires ReadsOp(rs0, open0, it, op) && Extends(rs0, rs1, open0, open1)
    ensures ReadsOp(rs1, open1, it, op)
    decreases op
  {
    match op {
      case Prim(_, _, _) =>
      case CondIf(_, a, b) =>
        ReadsFrame(rs0, rs1, open0, open1, Inner(rs0, it.first), a.ops);
        ReadsFrame(rs0, rs1, open0, open1, Inner(rs0, it.second), b.ops);
      case LoopWhile(e, b) =>
        ReadsFrame(rs0, rs1, open0, open1, Inner(rs0, it.eval), e.ops);
        ReadsFrame(rs0, rs1, open0, open1, Inner(rs0, it.body), b.ops);
      case Repeat(b, e) =>
        ReadsFrame(rs0, rs1, open0, open1, Inner(rs0, it.body), b.ops);
        ReadsFrame(rs0, rs1, open0, open1, Inner(rs0, Last(rs0, it.body).eval), e.ops);
    }
  }

  lemma ReadsBlockFrame(rs0: Regions, rs1: Regions, open0: set<Region>, open1: set<Region>, r: Region, b: Block)
    requires ReadsBlock(rs0, open0, r, b) && Extends(rs0, rs1, open0, open1)
    ensures ReadsBlock(rs1, open1, r, b)
  {
    ReadsFrame(rs0, rs1, open0, open1, Inner(rs0, r), b.ops);
  }

  lemma ReadsAppend(rs: Regions, open: set<Region>, a: seq<Item>, x: seq<Op>, b: seq<Item>, y: seq<Op>)
    requires Reads(rs, open, a, x) && Reads(rs, open, b, y)
    ensures Reads(rs, open, a + b, x + y)
  {
    forall i | 0 <= i < |x + y|
      ensures ReadsOp(rs, open, (a + b)[i], (x + y)[i])
    {
      if i < |x| {
        assert ReadsOp(rs, open, a[i], x[i]);
      } else {
        assert ReadsOp(rs, open, b[i - |x|], y[i - |x|]);
      }
    }
  }

  // ----- What a method adds

  /** Block `cur` has grown by items that read as `ops`; every other block there was is as it was. */
  predicate Grew(rs0: Regions, rs1: Regions, open: set<Region>, cur: Region, ops: seq<Op>) {
    && cur < |rs0| <= |rs1| && rs0[cur].Some? && rs1[cur].Some? && rs0[cur].value <= rs1[cur].value
    && (forall r :: 0 <= r < |rs0| && r != cur ==> rs1[r] == rs0[r])
    && Reads(rs1, open, rs1[cur].value[|rs0[cur].value|..], ops)
  }

  predicate Below(open: set<Region>, rs: Regions) { forall r :: r in open ==> r < |rs| }

  lemma GrewTwice(rs0: Regions, rs1: Regions, rs2: Regions, open: set<Region>, cur: Region, x: seq<Op>, y: seq<Op>)
    requires Grew(rs0, rs1, open, cur, x) && Grew(rs1, rs2, open, cur, y) && cur in open && Below(open, rs0)
    ensures Grew(rs0, rs2, open, cur, x + y)
  {
    hide Reads;
    var a := rs1[cur].value[|rs0[cur].value|..];
    var b := rs2[cur].value[|rs1[cur].value|..];
    ReadsFrame(rs1, rs2, open, open, a, x);
    ReadsAppend(rs2, open, a, x, b, y);
    assert rs2[cur].value[|rs0[cur].value|..] == a + b;
  }

  /** A block begun empty, grown by `ops` and given terminator `t`, reads as a block. */
  lemma GrewToBlock(rs0: Regions, rs1: Regions, rs2: Regions, open: set<Region>, cur: Region, ops: seq<Op>, t: Item,
      b: Block)
    requires Grew(rs0, rs1, open, cur, ops) && rs0[cur] == Some([]) && cur in open && TermIs(t, b.term) && b.ops == ops
    requires |rs1| <= |rs2| && rs2[cur] == Some(rs1[cur].value + [t]) && Below(open, rs0)
    requires forall r :: 0 <= r < |rs1| && r != cur ==> rs2[r] == rs1[r]
    ensures ReadsBlock(rs2, open - {cur}, cur, b)
  {
    hide Reads;
    ReadsFrame(rs1, rs2, open, open, rs1[cur].value, ops);
    ReadsOpen(rs2, open, open - {cur}, rs1[cur].value, ops);
    assert Inner(rs2, cur) == rs1[cur].value;
  }

  lemma {:induction false} ReadsOpen(rs: Regions, open0: set<Region>, open1: set<Region>, items: seq<Item>,
      ops: seq<Op>)
    requires Reads(rs, open0, items, ops) && open1 <= open0
    ensures Reads(rs, open1, items, ops)
  {
    ReadsFrame(rs, rs, open0, open1, items, ops);
  }

  lemma {:induction false} OpsSnoc(stats: seq<Stat>, i: nat)
    requires i < |stats|
    ensures Ops(stats[..i + 1]) == Ops(stats[..i]) + OpsOf(stats[i])
    decreases i
  {
    if i == 0 {
      assert stats[..1][1..] == [];
    } else {
      var tail := stats[1..];
      OpsSnoc(tail, i - 1);
      assert stats[..i + 1][1..] == tail[..i];
      assert stats[..i][1..] == tail[..i - 1];
    }
  }

  lemma ReadsPrims(rs: Regions, open: set<Region>, ops: seq<Plain>)
    ensures Reads(rs, open, Items(ops), Prims(ops))
  {
  }

  function Items(ops: seq<Plain>): (r: seq<Item>)
    ensures |r| == |ops|
    ensures forall i :: 0 <= i < |ops| ==> r[i] == PlainI(ops[i])
  {
    seq(|ops|, i requires 0 <= i < |ops| => PlainI(ops[i]))
  }

  class Generator {
    var regions: Regions
    var blockStack: seq<Option<Region>>
    var curBlock: Option<Region>
    // where the builder puts the next op
    var insertBlock: Region
    var insertAt: nat

    constructor ()
      ensures regions == [] && blockStack == [] && curBlock == None
    {
      regions, blockStack, curBlock := [], [], None;
      insertBlock, insertAt := 0, 0;
    }

    /** The builder appends to the current block. */
    ghost predicate Valid()
      reads this
    {
      && curBlock == Some(insertBlock) && insertBlock < |regions|
      && regions[insertBlock].Some? && insertAt == |regions[insertBlock].value|
    }

    ghost predicate At(stack: seq<Option<Region>>, cur: Region)
      reads this
    {
      Valid() && blockStack == stack && insertBlock == cur
    }

    method Create(item: Item)
      requires Valid()
      modifies this`regions, this`insertAt
      ensures Valid()
      ensures regions == old(regions)[insertBlock := Some(old(regions[insertBlock].value) + [item])]
    {
      var items := regions[insertBlock].value;
      regions := regions[insertBlock := Some(items[..insertAt] + [item] + items[insertAt..])];
      insertAt := insertAt + 1;
      assert items[..|items|] + [item] + items[|items|..] == items + [item];
    }

    /** A new op's regions are empty. */
    method NewRegion() returns (r: Region)
      requires Valid()
      modifies this`regions
      ensures Valid() && r == |old(regions)| && regions == old(regions) + [None]
    {
      r := |regions|;
      regions := regions + [None];
    }

    method AddEntryBlock(r: Region)
      requires Valid() && r < |regions| && regions[r] == None
      modifies this`regions
      ensures Valid() && regions == old(regions)[r := Some([])]
    {
      regions := regions[r := Some([])];
    }

    method PushBlock(r: Region)
      requires r < |regions| && regions[r] == Some([])
      modifies this`blockStack, this`curBlock, this`insertBlock, this`insertAt
      ensures blockStack == old(blockStack) + [old(curBlock)] && insertBlock == r && Valid()
    {
      blockStack := blockStack + [curBlock];
      curBlock := Some(r);
      insertBlock, insertAt := r, 0;
    }

    /** The source asserts that the popped entry is a block. */
    method PopBlock()
      requires |blockStack| > 0 && blockStack[|blockStack| - 1].Some?
      requires var r := blockStack[|blockStack| - 1].value; r < |regions| && regions[r].Some?
      modifies this`blockStack, this`curBlock, this`insertBlock, this`insertAt
      ensures blockStack == old(blockStack[..|blockStack| - 1])
      ensures Valid() && Some(insertBlock) == old(blockStack[|blockStack| - 1])
    {
      curBlock := blockStack[|blockStack| - 1];
      blockStack := blockStack[..|blockStack| - 1];
      insertBlock, insertAt := curBlock.value, |regions[curBlock.value].value|;
    }

    method GenExp(ops: seq<Plain>, ghost open: set<Region>)
      requires Valid() && insertBlock in open && Below(open, regions)
      modifies this`regions, this`insertAt
      ensures Valid() && |regions| == |old(regions)|
      ensures regions[insertBlock].value == old(regions[insertBlock].value) + Items(ops)
      ensures Grew(old(regions), regions, open, insertBlock, Prims(ops))
    {
      var i := 0;
      while i < |ops|
        invariant 0 <= i <= |ops| && Valid() && |regions| == |old(regions)|
        invariant regions[insertBlock].value == old(regions[insertBlock].value) + Items(ops[..i])
        invariant forall r :: 0 <= r < |regions| && r != insertBlock ==> regions[r] == old(regions)[r]
      {
        Create(PlainI(ops[i]));
        assert Items(ops[..i]) + [PlainI(ops[i])] == Items(ops[..i + 1]);
        i := i + 1;
      }
      assert ops[..i] == ops;
      ReadsPrims(regions, open, ops);
    }

    method GenBlock(stats: seq<Stat>, ghost open: set<Region>)
      requires Valid() && insertBlock in open && Below(open, regions)
      modifies this
      ensures At(old(blockStack), old(insertBlock)) && Grew(old(regions), regions, open, insertBlock, Ops(stats))
      decreases stats, 0
    {
      hide Reads;
      var i := 0;
      GrewNothing(regions, open, insertBlock);
      while i < |stats|
        invariant 0 <= i <= |stats| && At(old(blockStack), old(insertBlock)) && Below(open, regions)
        invariant Grew(old(regions), regions, open, insertBlock, Ops(stats[..i]))
      {
        ghost var before := regions;
        GenStat(stats[i], open);
        GrewTwice(old(regions), before, regions, open, insertBlock, Ops(stats[..i]), OpsOf(stats[i]));
        OpsSnoc(stats, i);
        i := i + 1;
      }
      assert stats[..i] == stats;
    }

    method GenStat(stat: Stat, ghost open: set<Region>)
      requires Valid() && insertBlock in open && Below(open, regions)
      modifies this
      ensures At(old(blockStack), old(insertBlock)) && Grew(old(regions), regions, open, insertBlock, OpsOf(stat))
      decreases stat, 2
    {
      match stat {
        case Do(ops) => GenExp(ops, open);
        case If(_, _, _) => ConditionalChain(stat, open);
        case While(_, _) => WhileLoop(stat, open);
        case RepeatUntil(_, _) => RepeatLoop(stat, open);
      }
    }

    /** The statements of a block, then its return statement or a plain end. */
    method BlockAndRet(c: Chunk, ghost open: set<Region>)
      requires Valid() && insertBlock in open && Below(open, regions) && regions[insertBlock] == Some([])
      modifies this
      ensures At(old(blockStack), old(insertBlock)) && Unchanged(old(regions), regions, insertBlock)
      ensures ReadsBlock(regions, open - {insertBlock}, insertBlock, ChunkBlock(c))
      decreases c, 0
    {
      hide Reads;
      GenBlock(c.stats, open);
      ghost var before := regions;
      match c.ret {
        case Some(ret) =>
          GenExp(ret.ops, open);
          GrewTwice(old(regions), before, regions, open, insertBlock, Ops(c.stats), Prims(ret.ops));
          before := regions;
          Create(RetI(ret.vals));
          GrewToBlock(old(regions), before, regions, open, insertBlock, ChunkBlock(c).ops, RetI(ret.vals),
            ChunkBlock(c));
        case None =>
          Create(EndI);
          GrewToBlock(old(regions), before, regions, open, insertBlock, Ops(c.stats), EndI, ChunkBlock(c));
      }
    }

    /** A `cond_if` whose first region is finished and whose second region becomes current. */
    method IfBlock(arm: Arm, ghost open: set<Region>)
      requires Valid() && insertBlock in open && Below(open, regions)
      modifies this
      ensures Valid() && blockStack == old(blockStack) + [Some(old(insertBlock))]
      ensures |old(regions)| <= insertBlock && regions[insertBlock] == Some([])
      ensures Unchanged(old(regions), regions, old(insertBlock))
      ensures LevelOk(regions, open + {insertBlock}, old(insertBlock), old(regions[insertBlock].value), arm,
              insertBlock)
      decreases arm, 1
    {
      hide Reads;
      ghost var level := insertBlock;
      GenExp(arm.cond.ops, open);
      var first := NewRegion();
      var second := NewRegion();
      Create(CondIfI(arm.cond.value, first, second));
      AddEntryBlock(first);
      PushBlock(first);
      BlockAndRet(arm.body, open + {first, second});
      PopBlock();
      ghost var before := regions;
      AddEntryBlock(second);
      PushBlock(second);
      ReadsBlockFrame(before, regions, open + {first, second} - {first}, open + {second}, first, ArmBlock(arm));
    }

    /** The entry block of a region that only evaluates a condition. */
    method CondBlock(e: Expr, r: Region, ghost open: set<Region>)
      requires Valid() && insertBlock in open && Below(open, regions)
      requires r < |regions| && regions[r] == None && r != insertBlock && r !in open
      modifies this
      ensures At(old(blockStack), old(insertBlock)) && regions[insertBlock] == old(regions)[insertBlock]
      ensures Unchanged(old(regions), regions, r) && |regions| == |old(regions)|
      ensures ReadsBlock(regions, open, r, EvalBlock(e))
    {
      hide Reads;
      AddEntryBlock(r);
      ghost var start := regions;
      PushBlock(r);
      GenExp(e.ops, open + {r});
      ghost var before := regions;
      Create(CondI(e.value));
      GrewToBlock(start, before, regions, open + {r}, r, Prims(e.ops), CondI(e.value), EvalBlock(e));
      assert open + {r} - {r} == open;
      PopBlock();
    }

    method WhileLoop(stat: Stat, ghost open: set<Region>)
      requires Valid() && insertBlock in open && Below(open, regions) && stat.While?
      modifies this
      ensures At(old(blockStack), old(insertBlock)) && Grew(old(regions), regions, open, insertBlock, OpsOf(stat))
      decreases stat, 1
    {
      hide Reads;
      var eval := NewRegion();
      var body := NewRegion();
      Create(LoopWhileI(eval, body));
      CondBlock(stat.cond, eval, open + {body});
      ghost var before := regions;
      AddEntryBlock(body);
      ghost var start := regions;
      PushBlock(body);
      GenBlock(stat.body, open + {body});
      ghost var grown := regions;
      Create(EndI);
      GrewToBlock(start, grown, regions, open + {body}, body, Ops(stat.body), EndI,
        LuaIr.Block.Block(Ops(stat.body), End));
      assert open + {body} - {body} == open;
      PopBlock();
      ReadsBlockFrame(before, regions, open + {body}, open, eval, EvalBlock(stat.cond));
      GrewByOp(old(regions), regions, open, insertBlock, LoopWhileI(eval, body), OpsOf(stat)[0]);
    }

    /** The condition's region belongs to the terminator of the body. */
    method RepeatLoop(stat: Stat, ghost open: set<Region>)
      requires Valid() && insertBlock in open && Below(open, regions) && stat.RepeatUntil?
      modifies this
      ensures At(old(blockStack), old(insertBlock)) && Grew(old(regions), regions, open, insertBlock, OpsOf(stat))
      decreases stat, 1
    {
      hide Reads;
      var body := NewRegion();
      Create(RepeatI(body));
      AddEntryBlock(body);
      ghost var start := regions;
      PushBlock(body);
      GenBlock(stat.body, open + {body});
      ghost var grown := regions;
      var eval := NewRegion();
      Create(UntilI(eval));
      CondBlock(stat.cond, eval, open + {body});
      PopBlock();
      GrewToBlock(start, grown, regions, open + {body}, body, Ops(stat.body), UntilI(eval),
        LuaIr.Block.Block(Ops(stat.body), Until));
      assert open + {body} - {body} == open;
      ReadsBlockFrame(regions, regions, open + {body}, open, eval, EvalBlock(stat.cond));
      GrewByOp(old(regions), regions, open, insertBlock, RepeatI(body), OpsOf(stat)[0]);
    }

    /** `if` and `elseif` arms push one block each; every push is undone after the last arm. */
    method ConditionalChain(stat: Stat, ghost open: set<Region>)
      requires Valid() && insertBlock in open && Below(open, regions) && stat.If?
      modifies this
      ensures At(old(blockStack), old(insertBlock)) && Grew(old(regions), regions, open, insertBlock, OpsOf(stat))
      decreases stat, 1
    {
      hide Reads, LevelOk, ReadsBlock, Rising, Levels, Unchanged, Nested, ChunkBlock, OpsOf, Set, Stack;
      ghost var arms := [stat.ifArm] + stat.elseifs;
      ghost var pre := regions[insertBlock].value;
      ghost var levels := [insertBlock];
      ghost var before := regions;
      IfBlock(stat.ifArm, open);
      LevelsStart(before, regions, open, levels, pre, arms, insertBlock);
      levels := levels + [insertBlock];
      var k := 0;
      while k < |stat.elseifs|
        invariant 0 <= k <= |stat.elseifs| && |levels| == k + 2 && levels[0] == old(insertBlock)
        invariant Valid() && insertBlock == levels[k + 1] && regions[insertBlock] == Some([])
        invariant blockStack == old(blockStack) + Stack(levels[..k + 1])
        invariant Unchanged(before, regions, levels[0]) && Rising(levels, |before|, |regions|)
        invariant Levels(regions, open + Set(levels), levels, pre, arms)
      {
        ghost var now := regions;
        OpenBelow(regions, before, open, levels);
        IfBlock(stat.elseifs[k], open + Set(levels));
        LevelsMore(now, regions, before, open, levels, pre, arms, insertBlock);
        assert Stack(levels[..k + 1]) + [Some(levels[k + 1])] == Stack(levels[..k + 2]);
        assert (levels + [insertBlock])[..k + 2] == levels[..k + 2];
        levels := levels + [insertBlock];
        k := k + 1;
      }
      ghost var last := if stat.orelse.Some? then ChunkBlock(stat.orelse.value) else LuaIr.Block.Block([], End);
      ghost var now := regions;
      OpenBelow(regions, before, open, levels);
      match stat.orelse {
        case Some(c) => BlockAndRet(c, open + Set(levels));
        case None =>
          Create(EndI);
          assert [] + [EndI] == [EndI];
          EmptyBlock(now, regions, open + Set(levels) - {insertBlock}, insertBlock);
      }
      LevelsEnd(now, regions, before, open, levels, pre, arms, last);
      CloseArms(|stat.elseifs|, old(blockStack), before, open, levels, pre, arms, last);
      LevelsWithin(regions, before, open, levels, 1, pre, arms);
      PopBlock();
      assert arms[1..] == stat.elseifs;
      LevelsDone(before, regions, open, levels, pre, stat, last);
    }

    /** One pop and one end for each `elseif`. */
    method CloseArms(n: nat, ghost stack: seq<Option<Region>>, ghost before: Regions, ghost open: set<Region>,
                     ghost levels: seq<Region>, ghost pre: seq<Item>, ghost arms: seq<Arm>, ghost last: Block)
      requires n + 2 == |levels| == |arms| + 1 && Valid() && insertBlock == levels[n + 1]
      requires blockStack == stack + Stack(levels[..n + 1]) && Below(open, before)
      requires Unchanged(before, regions, levels[0]) && Rising(levels, |before|, |regions|)
      requires Levels(regions, open + Set(levels[..n + 1]), levels[..n + 2], pre, arms)
      requires ReadsBlock(regions, open + Set(levels[..n + 1]), levels[n + 1], Nested(arms[n + 1..], last))
      modifies this
      ensures Valid() && insertBlock == levels[1] && blockStack == stack + Stack(levels[..1])
      ensures Unchanged(before, regions, levels[0]) && Rising(levels, |before|, |regions|)
      ensures Levels(regions, open + Set(levels[..1]), levels[..2], pre, arms)
      ensures ReadsBlock(regions, open + Set(levels[..1]), levels[1], Nested(arms[1..], last))
    {
      hide LevelOk, ReadsBlock, Rising, Levels, Unchanged, Nested, Set, Stack;
      var k := n + 1;
      while k > 1
        invariant 1 <= k <= n + 1 && Valid() && insertBlock == levels[k] && blockStack == stack + Stack(levels[..k])
        invariant Unchanged(before, regions, levels[0]) && Rising(levels, |before|, |regions|)
        invariant Levels(regions, open + Set(levels[..k]), levels[..k + 1], pre, arms)
        invariant ReadsBlock(regions, open + Set(levels[..k]), levels[k], Nested(arms[k..], last))
      {
        ghost var now := regions;
        LevelsWithin(regions, before, open, levels, k, pre, arms);
        PopBlock();
        Create(EndI);
        LevelsClose(now, regions, before, open, levels, k, pre, arms, last);
        k := k - 1;
      }
    }
  }

  function Stack(levels: seq<Region>): (r: seq<Option<Region>>)
    ensures |r| == |levels| && forall i :: 0 <= i < |levels| ==> r[i] == Some(levels[i])
  {
    seq(|levels|, i requires 0 <= i < |levels| => Some(levels[i]))
  }

  function Set(levels: seq<Region>): set<Region> { set r | r in levels }

  /** The blocks below the first were begun one after the other. */
  predicate Rising(levels: seq<Region>, lo: nat, hi: nat) {
    && |levels| > 0 && levels[0] < lo <= hi
    && (forall i :: 0 < i < |levels| ==> lo <= levels[i] < hi)
    && (forall i, j :: 0 <= i < j < |levels| ==> levels[i] < levels[j])
  }

  /** Every block on the way down ends in the `cond_if` that owns the next. */
  predicate Levels(rs: Regions, open: set<Region>, levels: seq<Region>, pre: seq<Item>, arms: seq<Arm>) {
    && |levels| <= |arms| + 1
    && forall j :: 0 <= j < |levels| - 1 ==> LevelOk(rs, open, levels[j], if j == 0 then pre else [], arms[j],
       levels[j + 1])
  }

  lemma OpenBelow(rs: Regions, before: Regions, open: set<Region>, levels: seq<Region>)
    requires Below(open, before) && Rising(levels, |before|, |rs|)
    ensures Below(open + Set(levels), rs) && levels[|levels| - 1] in open + Set(levels)
  {
  }

  lemma EmptyBlock(rs0: Regions, rs: Regions, open: set<Region>, r: Region)
    requires r < |rs0| && rs == rs0[r := Some([EndI])] && r !in open
    ensures ReadsBlock(rs, open, r, LuaIr.Block.Block([], End)) && Unchanged(rs0, rs, r)
  {
  }

  lemma LevelOkFrame(rs0: Regions, rs1: Regions, open0: set<Region>, open1: set<Region>, level: Region, pre: seq<Item>,
      arm: Arm, second: Region)
    requires LevelOk(rs0, open0, level, pre, arm, second) && Extends(rs0, rs1, open0, open1) && rs1[level] == rs0[level]
    ensures LevelOk(rs1, open1, level, pre, arm, second)
  {
    ReadsBlockFrame(rs0, rs1, open0, open1, Last(rs0, level).first, ArmBlock(arm));
  }

  lemma LevelsStart(before: Regions, rs: Regions, open: set<Region>, levels: seq<Region>, pre: seq<Item>,
      arms: seq<Arm>, second: Region)
    requires |levels| == 1 && |arms| > 0 && levels[0] in open && |before| <= second < |rs| && levels[0] < |before|
    requires LevelOk(rs, open + {second}, levels[0], pre, arms[0], second)
    ensures Rising(levels + [second], |before|, |rs|)
            && Levels(rs, open + Set(levels + [second]), levels + [second], pre, arms)
  {
    assert open + Set(levels + [second]) == open + {second};
  }

  lemma LevelsMore(rs0: Regions, rs1: Regions, before: Regions, open: set<Region>, levels: seq<Region>, pre: seq<Item>,
      arms: seq<Arm>, second: Region)
    requires |rs0| <= second < |rs1| && Rising(levels, |before|, |rs0|) && 1 < |levels| <= |arms|
    requires Levels(rs0, open + Set(levels), levels, pre, arms) && Unchanged(rs0, rs1, levels[|levels| - 1])
    requires LevelOk(rs1, open + Set(levels) + {second}, levels[|levels| - 1], [], arms[|levels| - 1], second)
    requires Unchanged(before, rs0, levels[0])
    ensures Unchanged(before, rs1, levels[0])
    ensures Rising(levels + [second], |before|, |rs1|)
    ensures Levels(rs1, open + Set(levels + [second]), levels + [second], pre, arms)
  {
    hide LevelOk;
    var more := levels + [second];
    assert open + Set(more) == open + Set(levels) + {second};
    forall j | 0 <= j < |more| - 1
      ensures LevelOk(rs1, open + Set(more), more[j], if j == 0 then pre else [], arms[j], more[j + 1])
    {
      if j < |levels| - 1 {
        LevelInside(rs0, open + Set(levels), levels, pre, arms, j);
        LevelOkFrame(rs0, rs1, open + Set(levels), open + Set(more), levels[j], if j == 0 then pre else [], arms[j],
          levels[j + 1]);
      }
    }
  }

  lemma LevelInside(rs: Regions, open: set<Region>, levels: seq<Region>, pre: seq<Item>, arms: seq<Arm>, j: nat)
    requires Levels(rs, open, levels, pre, arms) && j < |levels| - 1
    ensures LevelOk(rs, open, levels[j], if j == 0 then pre else [], arms[j], levels[j + 1])
    ensures levels[j] < |rs| && rs[levels[j]].Some?
  {
  }

  /** Giving up the innermost level, which alone has changed. */
  lemma LevelsFewer(rs0: Regions, rs1: Regions, before: Regions, open: set<Region>, open0: set<Region>,
      levels: seq<Region>, k: nat, pre: seq<Item>, arms: seq<Arm>)
    requires k < |levels| && Rising(levels, |before|, |rs0|) && Levels(rs0, open0, levels[..k + 1], pre, arms)
    requires Unchanged(rs0, rs1, levels[k]) && levels[k] in open0 && open + Set(levels[..k]) <= open0
    ensures Levels(rs1, open + Set(levels[..k]), levels[..k + 1], pre, arms)
  {
    hide LevelOk;
    var some := levels[..k + 1];
    forall j | 0 <= j < |some| - 1
      ensures LevelOk(rs1, open + Set(levels[..k]), some[j], if j == 0 then pre else [], arms[j], some[j + 1])
    {
      LevelInside(rs0, open0, some, pre, arms, j);
      LevelOkFrame(rs0, rs1, open0, open + Set(levels[..k]), some[j], if j == 0 then pre else [], arms[j], some[j + 1]);
    }
  }

  lemma LevelsEnd(rs0: Regions, rs1: Regions, before: Regions, open: set<Region>, levels: seq<Region>, pre: seq<Item>,
      arms: seq<Arm>, last: Block)
    requires |levels| == |arms| + 1 > 1 && Rising(levels, |before|, |rs0|) && Below(open, before)
    requires Levels(rs0, open + Set(levels), levels, pre, arms) && Unchanged(rs0, rs1, levels[|arms|])
    requires ReadsBlock(rs1, open + Set(levels) - {levels[|arms|]}, levels[|arms|], last)
    requires Unchanged(before, rs0, levels[0])
    ensures Unchanged(before, rs1, levels[0])
    ensures Rising(levels, |before|, |rs1|)
    ensures Levels(rs1, open + Set(levels[..|arms|]), levels[..|arms| + 1], pre, arms)
    ensures ReadsBlock(rs1, open + Set(levels[..|arms|]), levels[|arms|], Nested(arms[|arms|..], last))
  {
    hide LevelOk, ReadsBlock;
    var k := |arms|;
    assert levels[..k + 1] == levels;
    LevelsFewer(rs0, rs1, before, open, open + Set(levels), levels, k, pre, arms);
    SetLess(before, rs0, open, levels, k);
  }

  lemma SetLess(before: Regions, rs: Regions, open: set<Region>, levels: seq<Region>, k: nat)
    requires 0 < k < |levels| && Rising(levels, |before|, |rs|) && Below(open, before)
    ensures open + Set(levels[..k + 1]) - {levels[k]} == open + Set(levels[..k])
    ensures levels[k] !in open + Set(levels[..k])
  {
    assert Set(levels[..k + 1]) == Set(levels[..k]) + {levels[k]};
  }

  lemma LevelsWithin(rs: Regions, before: Regions, open: set<Region>, levels: seq<Region>, k: nat, pre: seq<Item>,
      arms: seq<Arm>)
    requires 0 < k < |levels| && Rising(levels, |before|, |rs|)
             && Levels(rs, open + Set(levels[..k]), levels[..k + 1], pre, arms)
    ensures Stack(levels[..k]) == Stack(levels[..k - 1]) + [Some(levels[k - 1])]
    ensures levels[k - 1] < |rs| && rs[levels[k - 1]].Some?
  {
    LevelInside(rs, open + Set(levels[..k]), levels[..k + 1], pre, arms, k - 1);
    assert levels[..k + 1][k - 1] == levels[k - 1];
  }

  lemma LevelsClose(rs0: Regions, rs1: Regions, before: Regions, open: set<Region>, levels: seq<Region>, k: nat,
      pre: seq<Item>, arms: seq<Arm>, last: Block)
    requires 1 < k < |levels| == |arms| + 1 && Rising(levels, |before|, |rs0|) && Below(open, before)
    requires Levels(rs0, open + Set(levels[..k]), levels[..k + 1], pre, arms)
    requires ReadsBlock(rs0, open + Set(levels[..k]), levels[k], Nested(arms[k..], last))
    requires rs0[levels[k - 1]].Some? && rs1 == rs0[levels[k - 1] := Some(rs0[levels[k - 1]].value + [EndI])]
    requires Unchanged(before, rs0, levels[0])
    ensures Unchanged(before, rs1, levels[0])
    ensures Rising(levels, |before|, |rs1|) && Levels(rs1, open + Set(levels[..k - 1]), levels[..k], pre, arms)
    ensures ReadsBlock(rs1, open + Set(levels[..k - 1]), levels[k - 1], Nested(arms[k - 1..], last))
  {
    hide LevelOk, ReadsBlock;
    var opens := open + Set(levels[..k]);
    LevelInside(rs0, opens, levels[..k + 1], pre, arms, k - 1);
    assert levels[..k + 1][k - 1] == levels[k - 1];
    CloseLevel(rs0, rs1, opens, levels[k - 1], arms[k - 1], levels[k], Nested(arms[k..], last));
    SetLess(before, rs0, open, levels, k - 1);
    assert arms[k - 1..][1..] == arms[k..];
    forall j | 0 <= j < k
      ensures LevelOk(rs0, opens, levels[..k + 1][j], if j == 0 then pre else [], arms[j], levels[..k + 1][j + 1])
    {
      LevelInside(rs0, opens, levels[..k + 1], pre, arms, j);
    }
    assert Levels(rs0, opens, levels[..k], pre, arms) by {
      assert levels[..k] == levels[..k + 1][..k];
    }
    LevelsFewer(rs0, rs1, before, open, opens, levels, k - 1, pre, arms);
  }

  /** A block that ends in a `cond_if` with both regions finished is itself finished by its end. */
  lemma CloseLevel(rs0: Regions, rs1: Regions, open: set<Region>, level: Region, arm: Arm, second: Region, tail: Block)
    requires LevelOk(rs0, open, level, [], arm, second) && ReadsBlock(rs0, open, second, tail) && level in open
    requires rs1 == rs0[level := Some(rs0[level].value + [EndI])]
    ensures ReadsBlock(rs1, open - {level}, level,
                       LuaIr.Block.Block(Prims(arm.cond.ops) + [CondIf(arm.cond.value, ArmBlock(arm), tail)], End))
  {
    hide Reads;
    var it := Last(rs0, level);
    ReadsBlockFrame(rs0, rs1, open, open - {level}, it.first, ArmBlock(arm));
    ReadsBlockFrame(rs0, rs1, open, open - {level}, second, tail);
    ReadsCondIf(rs1, open - {level}, arm, it, tail);
    assert Inner(rs1, level) == Items(arm.cond.ops) + [it];
  }

  lemma ReadsCondIf(rs: Regions, open: set<Region>, arm: Arm, it: Item, tail: Block)
    requires it.CondIfI? && it.cond == arm.cond.value && ReadsBlock(rs, open, it.first, ArmBlock(arm))
             && ReadsBlock(rs, open, it.second, tail)
    ensures Reads(rs, open, Items(arm.cond.ops) + [it],
            Prims(arm.cond.ops) + [CondIf(arm.cond.value, ArmBlock(arm), tail)])
  {
    ReadsPrims(rs, open, arm.cond.ops);
    var op := CondIf(arm.cond.value, ArmBlock(arm), tail);
    assert ReadsOp(rs, open, it, op);
    assert Reads(rs, open, [it], [op]);
    ReadsAppend(rs, open, Items(arm.cond.ops), Prims(arm.cond.ops), [it], [op]);
  }

  lemma LevelsDone(before: Regions, rs: Regions, open: set<Region>, levels: seq<Region>, pre: seq<Item>, stat: Stat,
      last: Block)
    requires stat.If? && last == (if stat.orelse.Some? then ChunkBlock(stat.orelse.value)
             else LuaIr.Block.Block([], End))
    requires |levels| > 1 && levels[0] in open && levels[0] < |before| && before[levels[0]] == Some(pre)
    requires Unchanged(before, rs, levels[0])
             && Levels(rs, open + Set(levels[..1]), levels[..2], pre, [stat.ifArm] + stat.elseifs)
    requires ReadsBlock(rs, open + Set(levels[..1]), levels[1], Nested(stat.elseifs, last))
    ensures Grew(before, rs, open, levels[0], OpsOf(stat))
  {
    hide Reads, LevelOk;
    assert open + Set(levels[..1]) == open;
    LevelInside(rs, open, levels[..2], pre, [stat.ifArm] + stat.elseifs, 0);
    LastLevel(before, rs, open, levels[0], pre, stat.ifArm, levels[1], Nested(stat.elseifs, last));
  }

  lemma LastLevel(before: Regions, rs: Regions, open: set<Region>, level: Region, pre: seq<Item>, arm: Arm,
      second: Region, tail: Block)
    requires level < |before| && before[level] == Some(pre) && Unchanged(before, rs, level)
    requires LevelOk(rs, open, level, pre, arm, second) && ReadsBlock(rs, open, second, tail)
    ensures Grew(before, rs, open, level, Prims(arm.cond.ops) + [CondIf(arm.cond.value, ArmBlock(arm), tail)])
  {
    hide Reads;
    var it := Last(rs, level);
    ReadsCondIf(rs, open, arm, it, tail);
    assert rs[level].value == pre + (Items(arm.cond.ops) + [it]);
  }

  lemma GrewByOp(rs0: Regions, rs1: Regions, open: set<Region>, cur: Region, it: Item, op: Op)
    requires cur < |rs0| && rs0[cur].Some? && Unchanged(rs0, rs1, cur) && rs1[cur] == Some(rs0[cur].value + [it])
    requires ReadsOp(rs1, open, it, op)
    ensures Grew(rs0, rs1, open, cur, [op])
  {
    assert rs1[cur].value[|rs0[cur].value|..] == [it];
  }

  lemma GrewNothing(rs: Regions, open: set<Region>, cur: Region)
    requires cur < |rs| && rs[cur].Some?
    ensures Grew(rs, rs, open, cur, [])
  {
  }

  /** No block there was has changed, apart from `cur`. */
  predicate Unchanged(rs0: Regions, rs1: Regions, cur: Region) {
    |rs0| <= |rs1| && forall r :: 0 <= r < |rs0| && r != cur ==> rs1[r] == rs0[r]
  }

  /** Block `level` ends in the `cond_if` of `arm`, the second region of which is `second`. */
  predicate LevelOk(rs: Regions, open: set<Region>, level: Region, pre: seq<Item>, arm: Arm, second: Region) {
    && level < |rs| && rs[level].Some? && |rs[level].value| > 0
    && Inner(rs, level) == pre + Items(arm.cond.ops)
    && var it := Last(rs, level);
       it.CondIfI? && it.cond == arm.cond.value && it.second == second && ReadsBlock(rs, open, it.first, ArmBlock(arm))
  }
}
