/** Runs of a generated printer: which pieces it prints, and whether two words ever touch. */
module FormatPrinted {
  import opened FormatLexer
  import opened FormatGrammar
  import opened FormatAccepted
  import opened FormatResolve
  import opened FormatSpacing
  import opened FormatCode
  import opened FormatPrinter

  // ----- Running lines

  /** How many of the lines belong to a block that is open at `indent`. */
  function Deep(lines: seq<Line>, indent: nat): (n: nat)
    ensures n <= |lines|
  {
    if lines != [] && lines[0].indent > indent then 1 + Deep(lines[1..], indent) else 0
  }

  /** `at` is the position of the first line, and `yes` holds the positions of the tests that succeed;
      where one does not, its block is passed over. */
  function Run(lines: seq<Line>, at: nat, yes: set<nat>): seq<Piece>
    decreases |lines|
  {
    if lines == [] then []
    else
      var rest := lines[1..];
      if lines[0].opens && at !in yes then
        var n := Deep(rest, lines[0].indent);
        Run(rest[n..], at + 1 + n, yes)
      else (if lines[0].does.Prints? then [lines[0].does.piece] else []) + Run(rest, at + 1, yes)
  }

  predicate AtLeast(lines: seq<Line>, level: nat) { forall k :: 0 <= k < |lines| ==> lines[k].indent >= level }

  lemma {:induction false} DeepAppend(a: seq<Line>, b: seq<Line>, indent: nat)
    requires b == [] || b[0].indent <= indent
    ensures Deep(a + b, indent) == Deep(a, indent)
    decreases |a|
  {
    if a == [] {
      assert a + b == b;
    } else {
      assert (a + b)[1..] == a[1..] + b;
      DeepAppend(a[1..], b, indent);
    }
  }

  lemma RunNone(at: nat, yes: set<nat>)
    ensures Run([], at, yes) == []
  {
  }

  lemma RunStep(lines: seq<Line>, at: nat, yes: set<nat>)
    requires lines != []
    ensures Run(lines, at, yes) ==
            var rest := lines[1..];
            if lines[0].opens && at !in yes then
              var n := Deep(rest, lines[0].indent);
              Run(rest[n..], at + 1 + n, yes)
            else (if lines[0].does.Prints? then [lines[0].does.piece] else []) + Run(rest, at + 1, yes)
  {
  }

  /** Lines at a level end every block inside it. */
  lemma {:induction false} RunAppend(a: seq<Line>, b: seq<Line>, level: nat, at: nat, yes: set<nat>)
    requires AtLeast(a, level) && (b == [] || b[0].indent <= level)
    ensures Run(a + b, at, yes) == Run(a, at, yes) + Run(b, at + |a|, yes)
    decreases |a|
  {
    hide Run, Deep;
    if a == [] {
      assert a + b == b;
      RunNone(at, yes);
    } else {
      var rest := a[1..];
      RunStep(a, at, yes);
      RunStep(a + b, at, yes);
      assert (a + b)[1..] == rest + b && (a + b)[0] == a[0];
      if a[0].opens && at !in yes {
        var n := Deep(rest, a[0].indent);
        DeepAppend(rest, b, a[0].indent);
        assert (rest + b)[n..] == rest[n..] + b;
        RunAppend(rest[n..], b, level, at + 1 + n, yes);
      } else {
        RunAppend(rest, b, level, at + 1, yes);
      }
    }
  }

  lemma RunOne(l: Line, at: nat, yes: set<nat>)
    requires !l.opens
    ensures Run([l], at, yes) == if l.does.Prints? then [l.does.piece] else []
  {
    assert [l][1..] == [];
  }

  // ----- The pieces of a run

  function LeavesPieces(op: OpInfo, es: seq<Element>, elided: seq<string>, s: Flags): seq<Piece>
    requires forall e :: e in es ==> WfLeaf(op, e)
  {
    if es == [] then []
    else
      var init := es[..|es| - 1];
      LeavesPieces(op, init, elided, s) + LeafPieces(op, es[|es| - 1], elided, LeavesAfter(op, init, s), false)
  }

  /** The position of the test that a region makes. */
  function BlocksTest(op: OpInfo, e: Element, s: Flags, at: nat): nat
    requires WfLeaf(op, e)
  {
    at + (if Blank(op, e, s) then 1 else 0) + 1
  }

  function ElementPieces(op: OpInfo, e: Element, elided: seq<string>, s: Flags, at: nat, yes: set<nat>): seq<Piece>
    requires WfElement(op, e)
  {
    if !e.Opt? then LeafPieces(op, e, elided, s, BlocksTest(op, e, s, at) in yes)
    else if at in yes then LeavesPieces(op, e.elements, elided, s)
    else []
  }

  /** The op's name, and then element after element. */
  function ElementsPieces(op: OpInfo, es: seq<Element>, elided: seq<string>, yes: set<nat>): seq<Piece>
    requires forall e :: e in es ==> WfElement(op, e)
  {
    if es == [] then [OpName]
    else
      var init := es[..|es| - 1];
      ElementsPieces(op, init, elided, yes)
      + ElementPieces(op, es[|es| - 1], elided, ElementsAfter(op, init, START), Offset(op, init, elided), yes)
  }

  /** Where the lines begin that come after these elements. */
  function Offset(op: OpInfo, es: seq<Element>, elided: seq<string>): nat
    requires forall e :: e in es ==> WfElement(op, e)
  {
    1 + |ElementsLines(op, es, elided)|
  }

  lemma RegionRuns(name: string, indent: nat, at: nat, yes: set<nat>)
    ensures Run(RegionLines(name, indent), at, yes)
            == (if at + 1 in yes then [OpenArgs, BlockArgs, CloseArgs] else []) + [RegionText]
  {
    hide Run;
    var args := [Put(indent + 4, Prints(OpenArgs)), Put(indent + 4, Prints(BlockArgs)),
                 Put(indent + 4, Prints(CloseArgs))];
    var last := [Put(indent, Prints(RegionText))];
    var test := [Line(indent, true, {}, {}, AsksBlocks)] + args;
    assert RegionLines(name, indent) == [Put(indent, Fetches(name))] + (test + last);
    RunAppend([Put(indent, Fetches(name))], test + last, indent, at, yes);
    RunOne(Put(indent, Fetches(name)), at, yes);
    RunAppend(test, last, indent, at + 1, yes);
    RunOne(last[0], at + 1 + |test|, yes);
    ArgsRun(indent, at + 1, yes);
  }

  lemma ArgsRun(indent: nat, at: nat, yes: set<nat>)
    ensures Run([Line(indent, true, {}, {}, AsksBlocks)]
                + [Put(indent + 4, Prints(OpenArgs)), Put(indent + 4, Prints(BlockArgs)),
                   Put(indent + 4, Prints(CloseArgs))], at, yes)
            == if at in yes then [OpenArgs, BlockArgs, CloseArgs] else []
  {
    var a, b, c := Put(indent + 4, Prints(OpenArgs)), Put(indent + 4, Prints(BlockArgs)),
                   Put(indent + 4, Prints(CloseArgs));
    var args := [a, b, c];
    BlockRuns(Line(indent, true, {}, {}, AsksBlocks), args, at, yes);
    assert args == [a] + ([b] + [c]);
    hide Run;
    RunAppend([a], [b] + [c], indent + 4, at + 1, yes);
    RunAppend([b], [c], indent + 4, at + 2, yes);
    RunOne(a, at + 1, yes);
    RunOne(b, at + 2, yes);
    RunOne(c, at + 3, yes);
  }

  lemma {:induction false} AllDeep(lines: seq<Line>, indent: nat)
    requires AtLeast(lines, indent + 1)
    ensures Deep(lines, indent) == |lines|
    decreases |lines|
  {
    if lines != [] {
      AllDeep(lines[1..], indent);
    }
  }

  /** A block runs when its test succeeds. */
  lemma BlockRuns(head: Line, body: seq<Line>, at: nat, yes: set<nat>)
    requires head.opens && !head.does.Prints? && AtLeast(body, head.indent + 1)
    ensures Run([head] + body, at, yes) == if at in yes then Run(body, at + 1, yes) else []
  {
    assert ([head] + body)[1..] == body;
    AllDeep(body, head.indent);
    assert body[|body|..] == [];
  }

  lemma LeafRuns(op: OpInfo, e: Element, elided: seq<string>, indent: nat, s: Flags, at: nat, yes: set<nat>)
    requires WfLeaf(op, e)
    ensures Run(LeafLines(op, e, elided, indent, s), at, yes)
            == LeafPieces(op, e, elided, s, BlocksTest(op, e, s, at) in yes)
  {
    hide Run, Blank, WfLeaf, RegionLines;
    var own := OwnLines(op, e, elided, indent);
    var from := if Blank(op, e, s) then at + 1 else at;
    if Blank(op, e, s) {
      OwnStarts(op, e, elided, indent);
      RunAppend([Put(indent, Prints(Space))], own, indent, at, yes);
      RunOne(Put(indent, Prints(Space)), at, yes);
    } else {
      assert [] + own == own;
    }
    if e.RegionVar? {
      RegionPiece(op, e, elided);
      RegionRuns(op.regions[e.region].name, indent, from, yes);
    } else {
      RunOne(Put(indent, Prints(PieceOf(op, e, elided))), from, yes);
    }
  }

  lemma RegionPiece(op: OpInfo, e: Element, elided: seq<string>)
    requires WfLeaf(op, e) && e.RegionVar?
    ensures PieceOf(op, e, elided) == RegionText && e.region < |op.regions|
  {
  }

  lemma OwnStarts(op: OpInfo, e: Element, elided: seq<string>, indent: nat)
    requires WfLeaf(op, e)
    ensures var own := OwnLines(op, e, elided, indent); own != [] && own[0].indent == indent
  {
  }

  lemma {:induction false} LeavesRuns(op: OpInfo, es: seq<Element>, elided: seq<string>, indent: nat, s: Flags, at: nat,
      yes: set<nat>)
    requires forall e :: e in es ==> WfLeaf(op, e) && !e.RegionVar?
    ensures Run(LeavesLines(op, es, elided, indent, s), at, yes) == LeavesPieces(op, es, elided, s)
    decreases |es|
  {
    if es != [] {
      var init, e := es[..|es| - 1], es[|es| - 1];
      assert e in es;
      LeavesRuns(op, init, elided, indent, s, at, yes);
      var a, mid := LeavesLines(op, init, elided, indent, s), LeavesAfter(op, init, s);
      LeavesNest(op, init, elided, indent, s);
      LeafNests(op, e, elided, indent, mid);
      LeafRuns(op, e, elided, indent, mid, at + |a|, yes);
      hide WfLeaf, LeafLines, Run, Blank;
      RunAppend(a, LeafLines(op, e, elided, indent, mid), indent, at, yes);
      NoArgs(op, e, elided, mid, BlocksTest(op, e, mid, at + |a|) in yes);
    }
  }

  lemma NoArgs(op: OpInfo, e: Element, elided: seq<string>, s: Flags, args: bool)
    requires WfLeaf(op, e) && !e.RegionVar?
    ensures LeafPieces(op, e, elided, s, args) == LeafPieces(op, e, elided, s, false)
  {
  }

  lemma ElementRuns(op: OpInfo, e: Element, elided: seq<string>, s: Flags, at: nat, yes: set<nat>)
    requires WfElement(op, e)
    ensures Run(ElementLines(op, e, elided, 0, s), at, yes) == ElementPieces(op, e, elided, s, at, yes)
  {
    if e.Opt? {
      GroupHasNoSymbol(op, e);
      hide Run, LeavesLines, WfLeaf;
      LeavesNest(op, e.elements, elided, 4, s);
      LeavesRuns(op, e.elements, elided, 4, s, at + 1, yes);
      BlockRuns(Line(0, true, {}, {}, GroupTest(op, e)), LeavesLines(op, e.elements, elided, 4, s), at, yes);
    } else {
      LeafRuns(op, e, elided, 0, s, at, yes);
    }
  }

  lemma ElementStarts(op: OpInfo, e: Element, elided: seq<string>, s: Flags)
    requires WfElement(op, e)
    ensures var lines := ElementLines(op, e, elided, 0, s); lines != [] && lines[0].indent == 0
  {
    if !e.Opt? {
      LeafNests(op, e, elided, 0, s);
    }
  }

  lemma {:induction false} ElementsRun(op: OpInfo, es: seq<Element>, elided: seq<string>, yes: set<nat>)
    requires forall e :: e in es ==> WfElement(op, e)
    ensures [OpName] + Run(ElementsLines(op, es, elided), 1, yes) == ElementsPieces(op, es, elided, yes)
    decreases |es|
  {
    hide WfElement, ElementLines, ElementPieces, Run;
    if es == [] {
      RunNone(1, yes);
    } else {
      var init, e := es[..|es| - 1], es[|es| - 1];
      assert e in es;
      ElementsRun(op, init, elided, yes);
      var a, mid := ElementsLines(op, init, elided), ElementsAfter(op, init, START);
      ElementRuns(op, e, elided, mid, 1 + |a|, yes);
      ElementStarts(op, e, elided, mid);
      RunAppend(a, ElementLines(op, e, elided, 0, mid), 0, 1, yes);
    }
  }

  /** The lines of the printer, run by Python's rule for blocks, print what the elements say. */
  lemma RunIsPieces(op: OpInfo, f: Format, yes: set<nat>)
    requires forall e :: e in f.elements ==> WfElement(op, e)
    ensures Run(PrinterCode(op, f), 0, yes) == ElementsPieces(op, f.elements, Elided(op, f), yes)
  {
    hide WfElement, ElementsLines, ElementsPieces, Run, Elided;
    var first := [Put(0, Prints(OpName))];
    ElementsNest(op, f.elements, Elided(op, f));
    ElementsRun(op, f.elements, Elided(op, f), yes);
    FirstAtLevel(ElementsLines(op, f.elements, Elided(op, f)));
    RunAppend(first, ElementsLines(op, f.elements, Elided(op, f)), 0, 0, yes);
    RunOne(first[0], 0, yes);
  }

  lemma FirstAtLevel(lines: seq<Line>)
    requires Blocks(lines, 0)
    ensures lines == [] || lines[0].indent == 0
  {
  }

  // ----- One pass for all runs

  /** For a group that is printed the pass is exact, too. */
  lemma {:induction false} LeavesSeen(op: OpInfo, es: seq<Element>, elided: seq<string>, s: Flags, ps: seq<Piece>)
    requires forall e :: e in es ==> WfLeaf(op, e)
    ensures PassOf(LeavesAfter(op, es, s), ps + LeavesPieces(op, es, elided, s)) == LeavesPass(op, es, PassOf(s, ps))
    decreases |es|
  {
    hide WfLeaf, PassOf, LeafPieces, LeafPass, FlagsAfter;
    if es == [] {
      assert ps + [] == ps;
    } else {
      var init, e := es[..|es| - 1], es[|es| - 1];
      assert e in es;
      LeavesSeen(op, init, elided, s, ps);
      var qs, mid := ps + LeavesPieces(op, init, elided, s), LeavesAfter(op, init, s);
      LeafRun(op, e, elided, mid, false, qs);
      assert qs + LeafPieces(op, e, elided, mid, false) == ps + LeavesPieces(op, es, elided, s);
    }
  }

  /** `b` allows for all that `a` does. */
  predicate Covers(b: Pass, a: Pass) { a.flags == b.flags && (a.open ==> b.open) && (b.apart ==> a.apart) }

  lemma LeafCovers(op: OpInfo, e: Element, b: Pass, a: Pass)
    requires WfLeaf(op, e) && Covers(b, a)
    ensures Covers(LeafPass(op, e, b), LeafPass(op, e, a))
  {
    hide WfLeaf, Blank, FlagsAfter, StartsWord, EndsWord, PieceOf;
  }

  lemma {:induction false} LeavesCover(op: OpInfo, es: seq<Element>, b: Pass, a: Pass)
    requires (forall e :: e in es ==> WfLeaf(op, e)) && Covers(b, a)
    ensures Covers(LeavesPass(op, es, b), LeavesPass(op, es, a))
    decreases |es|
  {
    hide WfLeaf, LeafPass, Covers;
    if es != [] {
      var init, e := es[..|es| - 1], es[|es| - 1];
      assert e in es;
      LeavesCover(op, init, b, a);
      LeafCovers(op, e, LeavesPass(op, init, b), LeavesPass(op, init, a));
    }
  }

  /** What has been seen after some elements in one run. */
  ghost function SeenAfter(op: OpInfo, es: seq<Element>, elided: seq<string>, yes: set<nat>): Pass
    requires forall e :: e in es ==> WfElement(op, e)
  {
    PassOf(ElementsAfter(op, es, START), ElementsPieces(op, es, elided, yes))
  }

  /** One more element in a run; `printed` says whether it is, if it is a group. */
  ghost predicate OneMoreElement(op: OpInfo, e: Element, before: Pass, after: Pass, printed: bool)
    requires WfElement(op, e)
  {
    if !e.Opt? then after == LeafPass(op, e, before)
    else if printed then after == LeavesPass(op, e.elements, before)
    else after == Pass(LeavesPass(op, e.elements, before).flags, before.open, before.apart)
  }

  lemma SeenMore(op: OpInfo, es: seq<Element>, elided: seq<string>, yes: set<nat>)
    requires (forall e :: e in es ==> WfElement(op, e)) && es != [] && WfElement(op, es[|es| - 1])
    ensures var init := es[..|es| - 1];
            OneMoreElement(op, es[|es| - 1], SeenAfter(op, init, elided, yes), SeenAfter(op, es, elided, yes),
              Offset(op, init, elided) in yes)
  {
    var init, e := es[..|es| - 1], es[|es| - 1];
    assert e in es;
    var s, at, ps := ElementsAfter(op, init, START), Offset(op, init, elided), ElementsPieces(op, init, elided, yes);
    hide WfLeaf, LeafPieces, LeafPass, LeavesPass, LeavesPieces, FlagsAfter, Offset, Open, Touches;
    if !e.Opt? {
      LeafRun(op, e, elided, s, BlocksTest(op, e, s, at) in yes, ps);
    } else {
      LeavesSeen(op, e.elements, elided, s, ps);
      assert ps + [] == ps;
    }
  }

  lemma SeenFirst(op: OpInfo, elided: seq<string>, yes: set<nat>)
    ensures SeenAfter(op, [], elided, yes) == Pass(START, true, true)
  {
    assert [OpName][..0] == [];
  }

  /** No run does what the pass does not allow for. */
  lemma {:induction false} PassCovers(op: OpInfo, es: seq<Element>, elided: seq<string>, yes: set<nat>)
    requires forall e :: e in es ==> WfElement(op, e)
    ensures Covers(ElementsPass(op, es), SeenAfter(op, es, elided, yes))
    decreases |es|
  {
    hide WfElement, WfLeaf, LeafPass, LeavesPass, SeenAfter, Offset;
    if es == [] {
      SeenFirst(op, elided, yes);
    } else {
      var init, e := es[..|es| - 1], es[|es| - 1];
      assert e in es;
      PassCovers(op, init, elided, yes);
      SeenMore(op, es, elided, yes);
      var b, a := ElementsPass(op, init), SeenAfter(op, init, elided, yes);
      if e.Opt? {
        GroupLeaves(op, e);
        LeavesCover(op, e.elements, b, a);
        LeavesShrink(op, e.elements, b);
      } else {
        LeafOf(op, e);
        LeafCovers(op, e, b, a);
      }
    }
  }

  lemma GroupLeaves(op: OpInfo, g: Element)
    requires WfElement(op, g) && g.Opt?
    ensures forall e :: e in g.elements ==> WfLeaf(op, e)
  {
  }

  lemma LeafOf(op: OpInfo, e: Element)
    requires WfElement(op, e) && !e.Opt?
    ensures WfLeaf(op, e)
  {
  }

  /** Words that touch are not taken apart again. */
  lemma {:induction false} LeavesShrink(op: OpInfo, es: seq<Element>, c: Pass)
    requires forall e :: e in es ==> WfLeaf(op, e)
    ensures LeavesPass(op, es, c).apart ==> c.apart
    decreases |es|
  {
    hide WfLeaf, FlagsAfter, PieceOf, Blank;
    if es != [] {
      assert es[|es| - 1] in es;
      LeavesShrink(op, es[..|es| - 1], c);
    }
  }

  // ----- And for every finding a run

  /** Tests that come later do not matter. */
  lemma {:induction false} PiecesLocal(op: OpInfo, es: seq<Element>, elided: seq<string>, yes: set<nat>, more: set<nat>)
    requires forall e :: e in es ==> WfElement(op, e)
    requires forall at :: at < Offset(op, es, elided) ==> (at in yes <==> at in more)
    ensures ElementsPieces(op, es, elided, yes) == ElementsPieces(op, es, elided, more)
    decreases |es|
  {
    hide WfElement, WfLeaf, LeafPieces, LeavesPieces, ElementLines;
    if es != [] {
      var init, e := es[..|es| - 1], es[|es| - 1];
      assert e in es;
      var s, at := ElementsAfter(op, init, START), Offset(op, init, elided);
      LinesGrow(op, es, elided);
      PiecesLocal(op, init, elided, yes, more);
      TestsInside(op, e, elided, s, at);
    }
  }

  lemma LinesGrow(op: OpInfo, es: seq<Element>, elided: seq<string>)
    requires (forall e :: e in es ==> WfElement(op, e)) && es != []
    ensures var init, e := es[..|es| - 1], es[|es| - 1];
            Offset(op, es, elided)
            == Offset(op, init, elided) + |ElementLines(op, e, elided, 0, ElementsAfter(op, init, START))|
  {
    hide WfElement, ElementLines;
  }

  /** An element makes its tests in its own lines. */
  lemma TestsInside(op: OpInfo, e: Element, elided: seq<string>, s: Flags, at: nat)
    requires WfElement(op, e)
    ensures e.Opt? ==> at < at + |ElementLines(op, e, elided, 0, s)|
    ensures e.RegionVar? ==> BlocksTest(op, e, s, at) < at + |ElementLines(op, e, elided, 0, s)|
    ensures !e.Opt? && !e.RegionVar? ==>
              forall a, b: bool :: LeafPieces(op, e, elided, s, a) == LeafPieces(op, e, elided, s, b)
  {
  }

  /** A run that ends in a letter or digit where the pass says that one may. */
  lemma {:induction false} OpenRun(op: OpInfo, es: seq<Element>, elided: seq<string>) returns (yes: set<nat>)
    requires forall e :: e in es ==> WfElement(op, e)
    ensures SeenAfter(op, es, elided, yes).open == ElementsPass(op, es).open
    decreases |es|
  {
    hide WfElement, WfLeaf, SeenAfter, Offset, PieceOf;
    yes := {};
    if es == [] {
      SeenFirst(op, elided, yes);
    } else {
      var init, e := es[..|es| - 1], es[|es| - 1];
      assert e in es;
      yes := OpenRun(op, init, elided);
      PassCovers(op, init, elided, yes);
      SeenMore(op, es, elided, yes);
      if e.Opt? {
        GroupLeaves(op, e);
        var b, a, at := ElementsPass(op, init), SeenAfter(op, init, elided, yes), Offset(op, init, elided);
        LeavesOpen(op, e.elements, b, a);
        if LeavesPass(op, e.elements, b).open {
          yes := WithTest(op, es, elided, yes);
          SeenMore(op, es, elided, yes);
        } else {
          yes := WithoutTest(op, es, elided, yes);
          SeenMore(op, es, elided, yes);
        }
      }
    }
  }

  /** The same run up to the group at the end, which is printed. */
  lemma WithTest(op: OpInfo, es: seq<Element>, elided: seq<string>, yes: set<nat>) returns (more: set<nat>)
    requires (forall e :: e in es ==> WfElement(op, e)) && es != []
    ensures Offset(op, es[..|es| - 1], elided) in more
    ensures SeenAfter(op, es[..|es| - 1], elided, more) == SeenAfter(op, es[..|es| - 1], elided, yes)
  {
    hide WfElement, ElementsPieces, Offset, PassOf;
    more := yes + {Offset(op, es[..|es| - 1], elided)};
    PiecesLocal(op, es[..|es| - 1], elided, yes, more);
  }

  lemma WithoutTest(op: OpInfo, es: seq<Element>, elided: seq<string>, yes: set<nat>) returns (less: set<nat>)
    requires (forall e :: e in es ==> WfElement(op, e)) && es != []
    ensures Offset(op, es[..|es| - 1], elided) !in less
    ensures SeenAfter(op, es[..|es| - 1], elided, less) == SeenAfter(op, es[..|es| - 1], elided, yes)
  {
    hide WfElement, ElementsPieces, Offset, PassOf;
    less := yes - {Offset(op, es[..|es| - 1], elided)};
    PiecesLocal(op, es[..|es| - 1], elided, yes, less);
  }

  /** Whether a letter or digit comes last depends on the flags and on what came last before. */
  lemma {:induction false} LeavesOpen(op: OpInfo, es: seq<Element>, b: Pass, a: Pass)
    requires (forall e :: e in es ==> WfLeaf(op, e)) && a.flags == b.flags && a.open == b.open
    ensures LeavesPass(op, es, a).flags == LeavesPass(op, es, b).flags
            && LeavesPass(op, es, a).open == LeavesPass(op, es, b).open
    decreases |es|
  {
    hide WfLeaf, FlagsAfter, PieceOf, Blank;
    if es != [] {
      assert es[|es| - 1] in es;
      LeavesOpen(op, es[..|es| - 1], b, a);
    }
  }

  /** A run in which two words touch, where the pass says that they may. */
  lemma {:induction false} TouchRun(op: OpInfo, es: seq<Element>, elided: seq<string>) returns (yes: set<nat>)
    requires (forall e :: e in es ==> WfElement(op, e)) && !ElementsPass(op, es).apart
    ensures !SeenAfter(op, es, elided, yes).apart
    decreases |es|
  {
    hide WfElement, WfLeaf, SeenAfter, Offset, PieceOf, LeafPass, LeavesPass;
    var init, e := es[..|es| - 1], es[|es| - 1];
    assert e in es;
    if !ElementsPass(op, init).apart {
      yes := TouchRun(op, init, elided);
      SeenMore(op, es, elided, yes);
      NeverApart(op, e, SeenAfter(op, init, elided, yes));
    } else {
      yes := OpenRun(op, init, elided);
      if e.Opt? {
        yes := WithTest(op, es, elided, yes);
      }
      PassCovers(op, init, elided, yes);
      SeenMore(op, es, elided, yes);
      assert SeenAfter(op, init, elided, yes) == ElementsPass(op, init);
    }
  }

  lemma NeverApart(op: OpInfo, e: Element, c: Pass)
    requires WfElement(op, e) && !c.apart
    ensures e.Opt? ==> !LeavesPass(op, e.elements, c).apart
    ensures !e.Opt? ==> !LeafPass(op, e, c).apart
  {
    if e.Opt? {
      GroupLeaves(op, e);
      LeavesShrink(op, e.elements, c);
    }
  }

  /** For every accepted format: in no run of the printer do two words touch, whichever groups are
      printed, exactly when the one pass over the elements says so. */
  lemma SpacingExact(op: OpInfo, f: Format)
    requires forall e :: e in f.elements ==> WfElement(op, e)
    ensures (forall yes: set<nat> :: !Touches(Run(PrinterCode(op, f), 0, yes)))
            <==> ElementsPass(op, f.elements).apart
  {
    hide WfElement, ElementsPass, ElementsPieces, Run, Touches, PrinterCode, Elided;
    if ElementsPass(op, f.elements).apart {
      forall yes: set<nat>
        ensures !Touches(Run(PrinterCode(op, f), 0, yes))
      {
        RunIsPieces(op, f, yes);
        PassCovers(op, f.elements, Elided(op, f), yes);
      }
    } else {
      var yes := TouchRun(op, f.elements, Elided(op, f));
      RunIsPieces(op, f, yes);
    }
  }

  // ----- A condition on the format's text

  /** An opening bracket, after which nothing is to be kept apart. */
  predicate IsOpening(e: Element) { e.Lit? && |e.text| == 1 && e.text[0] in "<([" }

  /** No group ends in one. */
  predicate ClosedGroups(es: seq<Element>) {
    forall e :: e in es && e.Opt? && e.elements != [] ==> !IsOpening(e.elements[|e.elements| - 1])
  }

  /** A letter or digit printed last is one that the flags know of. */
  predicate Known(c: Pass) { c.apart && (c.open ==> c.flags.emitSpace) }

  lemma LeafKnown(op: OpInfo, e: Element, c: Pass)
    requires WfLeaf(op, e) && Known(c)
    ensures Known(LeafPass(op, e, c))
    ensures !IsOpening(e) && !e.AttrDict? ==> LeafPass(op, e, c).flags.emitSpace
  {
  }

  lemma {:induction false} LeavesKnown(op: OpInfo, es: seq<Element>, c: Pass)
    requires (forall e :: e in es ==> WfLeaf(op, e)) && Known(c)
    ensures Known(LeavesPass(op, es, c))
    decreases |es|
  {
    hide WfLeaf, LeafPass, Known;
    if es != [] {
      var init, e := es[..|es| - 1], es[|es| - 1];
      assert e in es;
      LeavesKnown(op, init, c);
      LeafKnown(op, e, LeavesPass(op, init, c));
    }
  }

  lemma GroupKnown(op: OpInfo, g: Element, c: Pass)
    requires WfElement(op, g) && g.Opt? && !IsOpening(g.elements[|g.elements| - 1]) && Known(c)
    ensures Known(ElementPass(op, g, c))
  {
    var es := g.elements;
    var init, e := es[..|es| - 1], es[|es| - 1];
    assert e in es;
    LastChild(op, g);
    LeavesKnown(op, es, c);
    LeavesKnown(op, init, c);
    hide WfLeaf, LeafPass, IsOpening;
    LeafKnown(op, e, LeavesPass(op, init, c));
  }

  lemma LastChild(op: OpInfo, g: Element)
    requires WfElement(op, g) && g.Opt?
    ensures g.elements != [] && !g.elements[|g.elements| - 1].AttrDict?
  {
    hide WfLeaf;
    assert g.elements[|g.elements| - 1] in g.elements;
  }

  /** Words are kept apart in every format none of whose groups ends in an opening bracket. */
  lemma {:induction false} ClosedApart(op: OpInfo, es: seq<Element>)
    requires (forall e :: e in es ==> WfElement(op, e)) && ClosedGroups(es)
    ensures Known(ElementsPass(op, es))
    decreases |es|
  {
    hide WfElement, WfLeaf, Known, LeafPass, LeavesPass;
    if es == [] {
      StartKnown();
    } else {
      var init, e := es[..|es| - 1], es[|es| - 1];
      assert e in es;
      ClosedApart(op, init);
      if e.Opt? {
        LastChild(op, e);
        GroupKnown(op, e, ElementsPass(op, init));
      } else {
        LeafOf(op, e);
        LeafKnown(op, e, ElementsPass(op, init));
      }
    }
  }

  lemma StartKnown()
    ensures Known(Pass(START, true, true))
  {
  }
}
