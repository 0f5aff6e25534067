/** The printer that is generated for a format, and what it prints. */
module FormatPrinter {
  import opened FormatLexer
  import opened FormatGrammar
  import opened FormatAccepted
  import opened FormatResolve
  import opened FormatSpacing
  import opened FormatCode
  import opened FormatIndent

  function Put(indent: nat, does: Does): Line { Line(indent, false, {}, {}, does) }

  // ----- The attributes left out of the dictionary

  function LeafAttrs(op: OpInfo, e: Element): seq<string>
    requires WfLeaf(op, e)
  {
    if e.AttrVar? then [op.attrs[e.attr].name] else []
  }

  function LeavesAttrs(op: OpInfo, es: seq<Element>): seq<string>
    requires forall e :: e in es ==> WfLeaf(op, e)
  {
    if es == [] then [] else LeavesAttrs(op, es[..|es| - 1]) + LeafAttrs(op, es[|es| - 1])
  }

  function ElementAttrs(op: OpInfo, e: Element): seq<string>
    requires WfElement(op, e)
  {
    if e.Opt? then LeavesAttrs(op, e.elements)
    else if e.SymbolDir? then [op.attrs[e.symbol.attr].name]
    else LeafAttrs(op, e)
  }

  function UsedAttrs(op: OpInfo, es: seq<Element>): seq<string>
    requires forall e :: e in es ==> WfElement(op, e)
  {
    if es == [] then [] else UsedAttrs(op, es[..|es| - 1]) + ElementAttrs(op, es[|es| - 1])
  }

  lemma UsedMore(op: OpInfo, es: seq<Element>, i: nat)
    requires (forall e :: e in es ==> WfElement(op, e)) && i < |es|
    ensures UsedAttrs(op, es[..i + 1]) == UsedAttrs(op, es[..i]) + ElementAttrs(op, es[i])
  {
    assert es[..i + 1][..i] == es[..i];
  }

  /** The sizes of operand groups are an attribute too. */
  function Elided(op: OpInfo, f: Format): seq<string>
    requires forall e :: e in f.elements ==> WfElement(op, e)
  {
    (if !f.allOperands && op.sizedOperands then ["operand_segment_sizes"] else []) + UsedAttrs(op, f.elements)
  }

  // ----- Lines

  function RegionLines(name: string, indent: nat): seq<Line> {
    [Put(indent, Fetches(name)), Line(indent, true, {}, {}, AsksBlocks), Put(indent + 4, Prints(OpenArgs)),
     Put(indent + 4, Prints(BlockArgs)), Put(indent + 4, Prints(CloseArgs)), Put(indent, Prints(RegionText))]
  }

  function OwnLines(op: OpInfo, e: Element, elided: seq<string>, indent: nat): seq<Line>
    requires WfLeaf(op, e)
  {
    if e.RegionVar? then RegionLines(op.regions[e.region].name, indent)
    else [Put(indent, Prints(PieceOf(op, e, elided)))]
  }

  function LeafLines(op: OpInfo, e: Element, elided: seq<string>, indent: nat, s: Flags): seq<Line>
    requires WfLeaf(op, e)
  {
    (if Blank(op, e, s) then [Put(indent, Prints(Space))] else []) + OwnLines(op, e, elided, indent)
  }

  lemma OwnAlike(op: OpInfo, e: Element, a: seq<string>, b: seq<string>, indent: nat)
    requires WfLeaf(op, e) && !e.AttrDict?
    ensures OwnLines(op, e, a, indent) == OwnLines(op, e, b, indent)
  {
  }

  function LeavesLines(op: OpInfo, es: seq<Element>, elided: seq<string>, indent: nat, s: Flags): seq<Line>
    requires forall e :: e in es ==> WfLeaf(op, e)
  {
    if es == [] then []
    else
      var init := es[..|es| - 1];
      LeavesLines(op, init, elided, indent, s)
      + LeafLines(op, es[|es| - 1], elided, indent, LeavesAfter(op, init, s))
  }

  function GroupTest(op: OpInfo, g: Element): Does
    requires g.Opt? && WfElement(op, g)
  {
    var anchor := g.elements[g.anchor];
    if anchor.OperandVar? then AsksOperands(op.operands[anchor.operand].name) else AsksAttr(op.attrs[anchor.attr].name)
  }

  function ElementLines(op: OpInfo, e: Element, elided: seq<string>, indent: nat, s: Flags): seq<Line>
    requires WfElement(op, e)
  {
    if e.Opt?
      then [Line(indent, true, {}, {}, GroupTest(op, e))] + LeavesLines(op, e.elements, elided, indent + 4, s)
    else LeafLines(op, e, elided, indent, s)
  }

  function ElementsLines(op: OpInfo, es: seq<Element>, elided: seq<string>): seq<Line>
    requires forall e :: e in es ==> WfElement(op, e)
  {
    if es == [] then []
    else
      var init := es[..|es| - 1];
      ElementsLines(op, init, elided) + ElementLines(op, es[|es| - 1], elided, 0, ElementsAfter(op, init, START))
  }

  function PrinterCode(op: OpInfo, f: Format): seq<Line>
    requires forall e :: e in f.elements ==> WfElement(op, e)
  {
    [Put(0, Prints(OpName))] + ElementsLines(op, f.elements, Elided(op, f))
  }

  // ----- What is left out of the dictionary

  lemma {:induction false} LeavesElide(op: OpInfo, es: seq<Element>, name: string)
    requires forall e :: e in es ==> WfLeaf(op, e)
    ensures name in LeavesAttrs(op, es) <==> exists i: nat :: AttrVar(i) in es && op.attrs[i].name == name
    decreases |es|
  {
    if es != [] {
      var init, e := es[..|es| - 1], es[|es| - 1];
      LeavesElide(op, init, name);
      assert e in es && es == init + [e];
      hide WfLeaf;
      if i: nat :| AttrVar(i) in es && op.attrs[i].name == name {
        assert AttrVar(i) in init || e == AttrVar(i);
      }
    }
  }

  /** An element prints this attribute. */
  ghost predicate PrintsAttr(op: OpInfo, e: Element, name: string)
    requires WfElement(op, e)
  {
    exists i: nat :: AttrIn(op, e, i) && op.attrs[i].name == name
  }

  ghost predicate AttrIn(op: OpInfo, e: Element, i: nat) {
    i < |op.attrs| && (AttrVar(i) in Leaves(e) || SymbolDir(AttrVar(i)) in Leaves(e))
  }

  lemma ElementElides(op: OpInfo, e: Element, name: string)
    requires WfElement(op, e)
    ensures name in ElementAttrs(op, e) <==> PrintsAttr(op, e, name)
  {
    if e.Opt? {
      LeavesElide(op, e.elements, name);
      GroupHasNoSymbol(op, e);
      hide WfLeaf;
      if name in LeavesAttrs(op, e.elements) {
        var i: nat :| AttrVar(i) in e.elements && op.attrs[i].name == name;
        assert AttrIn(op, e, i);
      }
    } else if e.SymbolDir? {
      assert AttrIn(op, e, e.symbol.attr);
    } else if e.AttrVar? {
      assert AttrIn(op, e, e.attr);
    }
  }

  lemma GroupHasNoSymbol(op: OpInfo, g: Element)
    requires WfElement(op, g) && g.Opt?
    ensures forall e :: e in g.elements ==> !e.SymbolDir? && !e.RegionVar? && WfLeaf(op, e)
  {
  }

  lemma {:induction false} UsedExact(op: OpInfo, es: seq<Element>, name: string)
    requires forall e :: e in es ==> WfElement(op, e)
    ensures name in UsedAttrs(op, es) <==> exists e :: e in es && PrintsAttr(op, e, name)
    decreases |es|
  {
    if es != [] {
      var init, e := es[..|es| - 1], es[|es| - 1];
      UsedExact(op, init, name);
      assert e in es && es == init + [e];
      ElementElides(op, e, name);
      hide WfElement, ElementAttrs, PrintsAttr;
      if x :| x in es && PrintsAttr(op, x, name) {
        assert x in init || x == e;
      }
    }
  }

  /** The dictionary leaves out exactly the attributes that other elements print, and the group sizes
      where the op has them and the operands are not printed as one list. */
  lemma ElidesExact(op: OpInfo, f: Format, name: string)
    requires forall e :: e in f.elements ==> WfElement(op, e)
    ensures name in Elided(op, f) <==> (!f.allOperands && op.sizedOperands && name == "operand_segment_sizes")
                                       || exists e :: e in f.elements && PrintsAttr(op, e, name)
  {
    UsedExact(op, f.elements, name);
    hide WfElement, UsedAttrs, PrintsAttr;
  }

  // ----- Blocks

  lemma LeafNests(op: OpInfo, e: Element, elided: seq<string>, indent: nat, s: Flags)
    requires WfLeaf(op, e)
    ensures LeafLines(op, e, elided, indent, s) != [] && Blocks(LeafLines(op, e, elided, indent, s), indent)
  {
    hide WfLeaf, Blank, PieceOf;
  }

  lemma {:induction false} LeavesNest(op: OpInfo, es: seq<Element>, elided: seq<string>, indent: nat, s: Flags)
    requires forall e :: e in es ==> WfLeaf(op, e)
    ensures Blocks(LeavesLines(op, es, elided, indent, s), indent)
            && (es != [] ==> LeavesLines(op, es, elided, indent, s) != [])
    decreases |es|
  {
    if es != [] {
      var init, e := es[..|es| - 1], es[|es| - 1];
      LeavesNest(op, init, elided, indent, s);
      assert e in es;
      LeafNests(op, e, elided, indent, LeavesAfter(op, init, s));
      hide WfLeaf, Blocks, LeafLines;
      BlocksAppend(LeavesLines(op, init, elided, indent, s),
        LeafLines(op, e, elided, indent, LeavesAfter(op, init, s)), indent);
    }
  }

  lemma ElementNests(op: OpInfo, e: Element, elided: seq<string>, s: Flags)
    requires WfElement(op, e)
    ensures Blocks(ElementLines(op, e, elided, 0, s), 0)
  {
    if e.Opt? {
      LeavesNest(op, e.elements, elided, 4, s);
      hide Blocks, LeavesLines;
      BlocksNest(Line(0, true, {}, {}, GroupTest(op, e)), LeavesLines(op, e.elements, elided, 4, s));
    } else {
      LeafNests(op, e, elided, 0, s);
    }
  }

  lemma {:induction false} ElementsNest(op: OpInfo, es: seq<Element>, elided: seq<string>)
    requires forall e :: e in es ==> WfElement(op, e)
    ensures Blocks(ElementsLines(op, es, elided), 0)
    decreases |es|
  {
    if es != [] {
      var init, e := es[..|es| - 1], es[|es| - 1];
      ElementsNest(op, init, elided);
      assert e in es;
      ElementNests(op, e, elided, ElementsAfter(op, init, START));
      hide WfElement, Blocks, ElementLines;
      BlocksAppend(ElementsLines(op, init, elided), ElementLines(op, e, elided, 0, ElementsAfter(op, init, START)), 0);
    }
  }

  /** Python accepts the indentation of every generated printer. */
  lemma PrinterIndented(op: OpInfo, f: Format)
    requires forall e :: e in f.elements ==> WfElement(op, e)
    ensures Accepts(PrinterCode(op, f), [0], false)
  {
    hide WfElement, Accepts, ElementsLines, Elided;
    ElementsNest(op, f.elements, Elided(op, f));
    var first := [Put(0, Prints(OpName))];
    assert Blocks(first, 0);
    BlocksAppend(first, ElementsLines(op, f.elements, Elided(op, f)), 0);
    BlocksReady(PrinterCode(op, f));
    ReadyAccepted(PrinterCode(op, f), [0], false);
  }
}
