/** Generated code, line by line: how deep each line is indented, whether it opens a block, which of the
    names that belong to the op it uses and assigns, and what it prints.  Here is the parser's. */
module FormatCode {
  import opened FormatLexer
  import opened FormatGrammar
  import opened FormatAccepted
  import opened FormatResolve
  import opened FormatSpacing

  /** Names of the generated Python: `xOperands`, `xOperandsLoc`, `xTypes`, ... */
  datatype PyName =
    | OperandList(of: string) | OperandLoc(of: string) | AllOperandLoc | TypeList(of: string)
    | SuccessorName(of: string) | SuccessorList(of: string) | RegionName(of: string) | BuiltType(idx: nat)

  /** What the lines of a printer do: print, test whether something is there, or fetch a region. */
  datatype Does = Quiet | Prints(piece: Piece) | AsksOperands(name: string) | AsksAttr(name: string) | AsksBlocks
    | Fetches(name: string)

  datatype Line = Line(indent: nat, opens: bool, uses: set<PyName>, sets: set<PyName>, does: Does)

  function Plain(indent: nat, uses: set<PyName>, sets: set<PyName>): Line { Line(indent, false, uses, sets, Quiet) }

  /** A test, and the line that leaves the parser when it fails. */
  function Guard(indent: nat, uses: set<PyName>): seq<Line> {
    [Line(indent, true, uses, {}, Quiet), Plain(indent + 4, {}, {})]
  }

  /** The name of the type list for an argument of a type directive. */
  function TypeListName(op: OpInfo, a: Element): string
    requires IsTypeArg(op, a)
  {
    match a
    case OperandVar(i) => op.operands[i].name
    case ResultVar(i) => op.results[i].name
    case AllOperands => "allOperand"
    case AllResults => "allResult"
  }

  function Types(op: OpInfo, a: Element): PyName
    requires IsTypeArg(op, a)
  {
    TypeList(TypeListName(op, a))
  }

  // ----- Storage for what is parsed

  function LeafStorage(op: OpInfo, e: Element): seq<Line>
    requires WfLeaf(op, e)
  {
    match e
    case OperandVar(i) => [Plain(0, {}, {OperandList(op.operands[i].name)}),
      Plain(0, {}, {OperandLoc(op.operands[i].name)})]
    case TypeDir(a) => [Plain(0, {}, {Types(op, a)})]
    case FunctionalType(a, b) => [Plain(0, {}, {Types(op, a)}), Plain(0, {}, {Types(op, b)})]
    case _ => []
  }

  function LeavesStorage(op: OpInfo, es: seq<Element>): seq<Line>
    requires forall e :: e in es ==> WfLeaf(op, e)
  {
    if es == [] then [] else LeavesStorage(op, es[..|es| - 1]) + LeafStorage(op, es[|es| - 1])
  }

  function Storage(op: OpInfo, e: Element): seq<Line>
    requires WfElement(op, e)
  {
    if e.Opt? then LeavesStorage(op, e.elements) else LeafStorage(op, e)
  }

  // ----- Parsing an element

  /** A list of successors is appended to, one by one. */
  function SuccessorLines(indent: nat, name: string): seq<Line> {
    [Plain(indent, {}, {})]
    + [Line(indent, true, {}, {}, Quiet)]
    + Guard(indent + 4, {})
    + [Plain(indent + 4, {SuccessorList(name)}, {})]
    + [Line(indent + 4, true, {}, {}, Quiet), Plain(indent + 8, {}, {})]
    + Guard(indent + 8, {})
    + [Plain(indent + 8, {SuccessorList(name)}, {})]
  }

  function LeafParser(op: OpInfo, e: Element, indent: nat): seq<Line>
    requires WfLeaf(op, e)
  {
    match e
    case Lit(_) => Guard(indent, {})
    case AttrVar(_) => Guard(indent, {})
    case OperandVar(i) =>
      var list := OperandList(op.operands[i].name);
      [Plain(indent, {}, {})] + Guard(indent, {})
        + [Plain(indent, {list}, if op.operands[i].variadic then {list} else {})]
    case SuccessorVar(i) =>
      if op.successors[i].variadic then SuccessorLines(indent, op.successors[i].name)
      else [Plain(indent, {}, {SuccessorName(op.successors[i].name)})] + Guard(indent, {})
    case RegionVar(i) =>
      var name := RegionName(op.regions[i].name);
      [Plain(indent, {}, {name})] + Guard(indent, {name})
    case AttrDict(_) => Guard(indent, {})
    case AllOperands => [Plain(indent, {}, {AllOperandLoc}), Plain(indent, {}, {OperandList("all")})]
      + Guard(indent, {})
    case AllSuccessors => SuccessorLines(indent, "full")
    case TypeDir(a) =>
      var list := Types(op, a);
      [Plain(indent, {}, {})] + Guard(indent, {})
      + [Plain(indent, {list}, if IsSingle(op, a) then {} else {list})]
    case FunctionalType(a, b) =>
      [Plain(indent, {}, {})] + Guard(indent, {})
        + [Plain(indent, {}, {Types(op, a)}), Plain(indent, {}, {Types(op, b)})]
    case SymbolDir(_) => Guard(indent, {})
  }

  predicate IsSingle(op: OpInfo, a: Element)
    requires IsTypeArg(op, a)
  {
    match a
    case OperandVar(i) => !op.operands[i].variadic
    case ResultVar(i) => !op.results[i].variadic
    case _ => false
  }

  function LeavesParser(op: OpInfo, es: seq<Element>, indent: nat): seq<Line>
    requires forall e :: e in es ==> WfLeaf(op, e)
  {
    if es == [] then [] else LeavesParser(op, es[..|es| - 1], indent) + LeafParser(op, es[|es| - 1], indent)
  }

  function Gate(op: OpInfo, e: Element, indent: nat): (l: Line)
    requires WfLeaf(op, e) && (e.Lit? || e.OperandVar?)
    ensures l.opens && l.indent == indent
  {
    Line(indent, true, if e.Lit? then {} else {OperandList(op.operands[e.operand].name)}, {}, Quiet)
  }

  /** A group is gated by its first element; the others are parsed inside the block. */
  function GroupParser(op: OpInfo, es: seq<Element>, indent: nat): seq<Line>
    requires es != [] && (es[0].Lit? || es[0].OperandVar?) && forall e :: e in es ==> WfLeaf(op, e)
  {
    assert es[0] in es && WfLeaf(op, es[0]);
    [Gate(op, es[0], indent)] + LeavesParser(op, es[1..], indent + 4)
  }

  function ElementParser(op: OpInfo, e: Element, indent: nat): seq<Line>
    requires WfElement(op, e)
  {
    if e.Opt? then GroupParser(op, e.elements, indent) else LeafParser(op, e, indent)
  }

  function ElementsStorage(op: OpInfo, es: seq<Element>): seq<Line>
    requires forall e :: e in es ==> WfElement(op, e)
  {
    if es == [] then [] else ElementsStorage(op, es[..|es| - 1]) + Storage(op, es[|es| - 1])
  }

  function ElementsParser(op: OpInfo, es: seq<Element>): seq<Line>
    requires forall e :: e in es ==> WfElement(op, e)
  {
    if es == [] then [] else ElementsParser(op, es[..|es| - 1]) + ElementParser(op, es[|es| - 1], 0)
  }

  // ----- Resolution

  function RefName(op: OpInfo, ref: Ref): string {
    match ref
    case OperandRef(i) => if i < |op.operands| then op.operands[i].name else ""
    case ResultRef(i) => if i < |op.results| then op.results[i].name else ""
  }

  /** What a resolver uses for a value with this source. */
  function ResolverName(op: OpInfo, s: Source, own: string): PyName {
    match s
    case Built(k) => BuiltType(k)
    case SameAs(ref) => TypeList(RefName(op, ref))
    case OwnList => TypeList(own)
  }

  function TableLines(n: nat): seq<Line> {
    if n == 0 then [] else TableLines(n - 1) + [Plain(0, {}, {BuiltType(n - 1)})]
  }

  function ResultLines(op: OpInfo, f: Format, n: nat): seq<Line>
    requires n <= |op.results| == |f.resultTypes|
  {
    if n == 0 then []
    else ResultLines(op, f, n - 1) + [Plain(0, {ResolverName(op, f.resultTypes[n - 1], op.results[n - 1].name)}, {})]
  }

  /** Each operand is resolved with its own list; a location is passed unless the type is built. */
  function OperandLines(op: OpInfo, f: Format, n: nat): seq<Line>
    requires n <= |op.operands| == |f.operandTypes|
  {
    if n == 0 then []
    else
      var name := op.operands[n - 1].name;
      var s := f.operandTypes[n - 1];
      OperandLines(op, f, n - 1)
      + Guard(0, {OperandList(name), ResolverName(op, s, name)} + if s.Built? then {} else {OperandLoc(name)})
  }

  function OperandLists(op: OpInfo, n: nat): seq<Line>
    requires n <= |op.operands|
  {
    if n == 0 then [] else OperandLists(op, n - 1) + [Plain(0, {OperandList(op.operands[n - 1].name)}, {})]
  }

  function TypeLists(op: OpInfo, f: Format, n: nat): seq<Line>
    requires n <= |op.operands| == |f.operandTypes|
  {
    if n == 0 then []
    else TypeLists(op, f, n - 1) + [Plain(0, {ResolverName(op, f.operandTypes[n - 1], op.operands[n - 1].name)}, {})]
  }

  function TypeResolution(op: OpInfo, f: Format): seq<Line>
    requires |op.results| == |f.resultTypes| && |op.operands| == |f.operandTypes|
  {
    TableLines(|f.table|)
    + (if f.allResultTypes then [Plain(0, {TypeList("allResult")}, {})] else ResultLines(op, f, |op.results|))
    + OperandResolution(op, f)
  }

  function OperandResolution(op: OpInfo, f: Format): seq<Line>
    requires |op.operands| == |f.operandTypes|
  {
    if |op.operands| == 0 then []
    else if f.allOperandTypes then
      if f.allOperands then Guard(0, {OperandList("all"), TypeList("allOperand"), AllOperandLoc})
      else [Plain(0, {}, {})] + OperandLists(op, |op.operands|) + Guard(0, {TypeList("allOperand")})
    else if f.allOperands then
      [Plain(0, {}, {})] + TypeLists(op, f, |op.operands|) + Guard(0, {OperandList("all"), AllOperandLoc})
    else OperandLines(op, f, |op.operands|)
  }

  function SuccessorReads(op: OpInfo, n: nat): seq<Line>
    requires n <= |op.successors|
  {
    if n == 0 then []
    else
      var l := op.successors[n - 1];
      SuccessorReads(op, n - 1) + [Plain(0, {if l.variadic then SuccessorList(l.name) else SuccessorName(l.name)}, {})]
  }

  function SuccessorResolution(op: OpInfo, f: Format): seq<Line> {
    if AllSuccessors in f.elements then [Plain(0, {SuccessorList("full")}, {})] else SuccessorReads(op, |op.successors|)
  }

  /** One line that lists the size of every operand. */
  function SegmentLines(op: OpInfo, f: Format): seq<Line> {
    if f.allOperands || !op.sizedOperands then []
    else [Plain(0, set i | 0 <= i < |op.operands| && op.operands[i].variadic :: OperandList(op.operands[i].name), {})]
  }

  function Resolution(op: OpInfo, f: Format): seq<Line>
    requires |op.results| == |f.resultTypes| && |op.operands| == |f.operandTypes|
  {
    TypeResolution(op, f) + SuccessorResolution(op, f) + SegmentLines(op, f) + [Plain(0, {}, {})]
  }

  function ParserCode(op: OpInfo, f: Format): seq<Line>
    requires (forall e :: e in f.elements ==> WfElement(op, e)) && |op.results| == |f.resultTypes|
             && |op.operands| == |f.operandTypes|
  {
    ElementsStorage(op, f.elements) + ElementsParser(op, f.elements) + Resolution(op, f)
  }

  // ----- Blocks

  /** Python accepts the indentation: a line that opens a block is followed by one that is a step deeper,
      and only such a line is.  `at` is the level the lines belong to; being whole steps deeper, a line
      that is less deep than the one before it goes back to the level of a block that is open. */
  predicate Blocks(lines: seq<Line>, at: nat) {
    && (forall k :: 0 <= k < |lines| ==> lines[k].indent >= at && (lines[k].indent - at) % 4 == 0)
    && (lines != [] ==> lines[0].indent == at && !lines[|lines| - 1].opens)
    && forall k :: 0 <= k < |lines| - 1 ==> Follows(lines[k], lines[k + 1])
  }

  predicate Follows(a: Line, b: Line) { if a.opens then b.indent == a.indent + 4 else b.indent <= a.indent }

  lemma BlocksAppend(a: seq<Line>, b: seq<Line>, at: nat)
    requires Blocks(a, at) && Blocks(b, at)
    ensures Blocks(a + b, at)
  {
    var c := a + b;
    forall k | 0 <= k < |c| - 1
      ensures Follows(c[k], c[k + 1])
    {
      if k < |a| - 1 {
        assert Follows(a[k], a[k + 1]);
      } else if k >= |a| {
        assert Follows(b[k - |a|], b[k - |a| + 1]);
      }
    }
  }

  lemma BlocksNest(head: Line, body: seq<Line>)
    requires head.opens && body != [] && Blocks(body, head.indent + 4)
    ensures Blocks([head] + body, head.indent)
  {
    var c := [head] + body;
    forall k | 0 <= k < |c| - 1
      ensures Follows(c[k], c[k + 1])
    {
      if k > 0 {
        assert Follows(body[k - 1], body[k]);
      }
    }
  }

  lemma LeafBlocks(op: OpInfo, e: Element, indent: nat)
    requires WfLeaf(op, e)
    ensures LeafParser(op, e, indent) != [] && Blocks(LeafParser(op, e, indent), indent)
  {
    hide Blocks, Guard;
    if e.AllSuccessors? {
      SuccessorBlocks(indent, "full");
    } else if e.SuccessorVar? && op.successors[e.successor].variadic {
      SuccessorBlocks(indent, op.successors[e.successor].name);
    } else {
      ShortBlocks(op, e, indent);
    }
  }

  lemma ShortBlocks(op: OpInfo, e: Element, indent: nat)
    requires WfLeaf(op, e) && !e.AllSuccessors? && !(e.SuccessorVar? && op.successors[e.successor].variadic)
    ensures LeafParser(op, e, indent) != [] && Blocks(LeafParser(op, e, indent), indent)
  {
    hide SuccessorLines, IsSingle, Types;
  }

  lemma SuccessorBlocks(indent: nat, name: string)
    ensures Blocks(SuccessorLines(indent, name), indent)
  {
    var lines := SuccessorLines(indent, name);
    assert forall k :: 0 <= k < |lines| ==> lines[k].indent in {indent, indent + 4, indent + 8, indent + 12};
  }

  lemma {:induction false} LeavesBlocks(op: OpInfo, es: seq<Element>, indent: nat)
    requires forall e :: e in es ==> WfLeaf(op, e)
    ensures Blocks(LeavesParser(op, es, indent), indent) && (es != [] ==> LeavesParser(op, es, indent) != [])
    decreases |es|
  {
    if es != [] {
      var e := es[|es| - 1];
      assert e in es;
      LeavesBlocks(op, es[..|es| - 1], indent);
      LeafBlocks(op, e, indent);
      hide Blocks, LeafParser;
      BlocksAppend(LeavesParser(op, es[..|es| - 1], indent), LeafParser(op, e, indent), indent);
    }
  }

  /** A group with something inside is a block of its own. */
  predicate NotLone(e: Element) { e.Opt? ==> |e.elements| != 1 }

  lemma ElementBlocks(op: OpInfo, e: Element)
    requires WfElement(op, e) && NotLone(e)
    ensures ElementParser(op, e, 0) != [] && Blocks(ElementParser(op, e, 0), 0)
  {
    if e.Opt? {
      var rest := e.elements[1..];
      LeavesBlocks(op, rest, 4);
      hide LeavesParser, Blocks;
      BlocksNest(GroupParser(op, e.elements, 0)[0], LeavesParser(op, rest, 4));
    } else {
      LeafBlocks(op, e, 0);
    }
  }

  lemma GuardBlocks(at: nat, uses: set<PyName>)
    ensures Blocks(Guard(at, uses), at)
  {
  }

  lemma LeafStorageBlocks(op: OpInfo, e: Element)
    requires WfLeaf(op, e)
    ensures Blocks(LeafStorage(op, e), 0)
  {
    PlainBlocks(LeafStorage(op, e));
  }

  lemma {:induction false} LeavesStorageBlocks(op: OpInfo, es: seq<Element>)
    requires forall e :: e in es ==> WfLeaf(op, e)
    ensures Blocks(LeavesStorage(op, es), 0)
    decreases |es|
  {
    if es == [] {
      PlainBlocks([]);
    } else {
      hide Blocks, LeafStorage, WfLeaf;
      var e := es[|es| - 1];
      assert e in es;
      LeafStorageBlocks(op, e);
      LeavesStorageBlocks(op, es[..|es| - 1]);
      BlocksAppend(LeavesStorage(op, es[..|es| - 1]), LeafStorage(op, e), 0);
    }
  }

  lemma {:induction false} StorageBlocks(op: OpInfo, es: seq<Element>)
    requires forall e :: e in es ==> WfElement(op, e)
    ensures Blocks(ElementsStorage(op, es), 0)
    decreases |es|
  {
    if es == [] {
      PlainBlocks([]);
    } else {
      hide Blocks, LeafStorage, WfLeaf;
      var e := es[|es| - 1];
      assert e in es;
      StorageBlocks(op, es[..|es| - 1]);
      if e.Opt? {
        LeavesStorageBlocks(op, e.elements);
      } else {
        LeafStorageBlocks(op, e);
      }
      BlocksAppend(ElementsStorage(op, es[..|es| - 1]), Storage(op, e), 0);
    }
  }

  lemma {:induction false} ElementsBlocks(op: OpInfo, es: seq<Element>)
    requires forall e :: e in es ==> WfElement(op, e) && NotLone(e)
    ensures Blocks(ElementsParser(op, es), 0)
    decreases |es|
  {
    if es != [] {
      var e := es[|es| - 1];
      assert e in es;
      ElementsBlocks(op, es[..|es| - 1]);
      ElementBlocks(op, e);
      hide Blocks, ElementParser;
      BlocksAppend(ElementsParser(op, es[..|es| - 1]), ElementParser(op, e, 0), 0);
    }
  }

  predicate AllPlain(lines: seq<Line>) { forall k :: 0 <= k < |lines| ==> lines[k].indent == 0 && !lines[k].opens }

  lemma PlainBlocks(lines: seq<Line>)
    requires AllPlain(lines)
    ensures Blocks(lines, 0)
  {
  }

  lemma {:induction false} TablePlain(n: nat)
    ensures AllPlain(TableLines(n))
  {
    if n > 0 {
      TablePlain(n - 1);
    }
  }

  lemma {:induction false} ResultsPlain(op: OpInfo, f: Format, n: nat)
    requires n <= |op.results| == |f.resultTypes|
    ensures AllPlain(ResultLines(op, f, n))
    decreases n
  {
    if n > 0 {
      ResultsPlain(op, f, n - 1);
    }
  }

  lemma {:induction false} OperandsPlain(op: OpInfo, f: Format, n: nat)
    requires n <= |op.operands| == |f.operandTypes|
    ensures AllPlain(OperandLists(op, n)) && AllPlain(TypeLists(op, f, n))
    decreases n
  {
    if n > 0 {
      OperandsPlain(op, f, n - 1);
    }
  }

  lemma {:induction false} SuccessorsPlain(op: OpInfo, n: nat)
    requires n <= |op.successors|
    ensures AllPlain(SuccessorReads(op, n))
    decreases n
  {
    if n > 0 {
      SuccessorsPlain(op, n - 1);
    }
  }

  lemma {:induction false} OperandLinesBlocks(op: OpInfo, f: Format, n: nat)
    requires n <= |op.operands| == |f.operandTypes|
    ensures Blocks(OperandLines(op, f, n), 0)
    decreases n
  {
    if n == 0 {
      PlainBlocks([]);
    } else {
      hide Blocks, Guard;
      var name, s := op.operands[n - 1].name, f.operandTypes[n - 1];
      var uses := {OperandList(name), ResolverName(op, s, name)} + if s.Built? then {} else {OperandLoc(name)};
      OperandLinesBlocks(op, f, n - 1);
      GuardBlocks(0, uses);
      BlocksAppend(OperandLines(op, f, n - 1), Guard(0, uses), 0);
    }
  }

  lemma ResolutionBlocks(op: OpInfo, f: Format)
    requires |op.results| == |f.resultTypes| && |op.operands| == |f.operandTypes|
    ensures Blocks(Resolution(op, f), 0)
  {
    TypeBlocks(op, f);
    SuccessorsPlain(op, |op.successors|);
    PlainBlocks(SuccessorResolution(op, f));
    PlainBlocks(SegmentLines(op, f));
    var last := [Plain(0, {}, {})];
    PlainBlocks(last);
    hide Blocks, TypeResolution, SuccessorResolution, SegmentLines;
    BlocksAppend(TypeResolution(op, f), SuccessorResolution(op, f), 0);
    BlocksAppend(TypeResolution(op, f) + SuccessorResolution(op, f), SegmentLines(op, f), 0);
    BlocksAppend(TypeResolution(op, f) + SuccessorResolution(op, f) + SegmentLines(op, f), last, 0);
  }

  lemma TypeBlocks(op: OpInfo, f: Format)
    requires |op.results| == |f.resultTypes| && |op.operands| == |f.operandTypes|
    ensures Blocks(TypeResolution(op, f), 0)
  {
    TablePlain(|f.table|);
    ResultsPlain(op, f, |op.results|);
    OperandBlocks(op, f);
    var a := TableLines(|f.table|);
    var b := if f.allResultTypes then [Plain(0, {TypeList("allResult")}, {})] else ResultLines(op, f, |op.results|);
    PlainBlocks(a);
    PlainBlocks(b);
    hide Blocks, TableLines, ResultLines, OperandResolution;
    BlocksAppend(a, b, 0);
    BlocksAppend(a + b, OperandResolution(op, f), 0);
  }

  lemma OperandBlocks(op: OpInfo, f: Format)
    requires |op.operands| == |f.operandTypes|
    ensures Blocks(OperandResolution(op, f), 0)
  {
    hide OperandLines, OperandLists, TypeLists, Blocks, Guard;
    var n := |op.operands|;
    var first := [Plain(0, {}, {})];
    var all := Guard(0, {TypeList("allOperand")});
    var lists := Guard(0, {OperandList("all"), AllOperandLoc});
    OperandLinesBlocks(op, f, n);
    OperandsPlain(op, f, n);
    PlainBlocks(OperandLists(op, n));
    PlainBlocks(TypeLists(op, f, n));
    PlainBlocks(first);
    PlainBlocks([]);
    GuardBlocks(0, {TypeList("allOperand")});
    GuardBlocks(0, {OperandList("all"), AllOperandLoc});
    GuardBlocks(0, {OperandList("all"), TypeList("allOperand"), AllOperandLoc});
    BlocksAppend(first, OperandLists(op, n), 0);
    BlocksAppend(first + OperandLists(op, n), all, 0);
    BlocksAppend(first, TypeLists(op, f, n), 0);
    BlocksAppend(first + TypeLists(op, f, n), lists, 0);
  }

  /** A line that opens a block, and nothing in it. */
  predicate Empty(a: Line, b: Line) { a.opens && b.indent <= a.indent }

  predicate Broken(lines: seq<Line>) { exists k :: 0 <= k < |lines| - 1 && Empty(lines[k], lines[k + 1]) }

  lemma BrokenAfter(a: seq<Line>, b: seq<Line>)
    requires Broken(b)
    ensures Broken(a + b)
  {
    var k :| 0 <= k < |b| - 1 && Empty(b[k], b[k + 1]);
    assert (a + b)[|a| + k] == b[k] && (a + b)[|a| + k + 1] == b[k + 1];
  }

  /** The gate of a lone group is followed by a line that is not deeper. */
  lemma {:induction false} LoneBreaks(op: OpInfo, es: seq<Element>, tail: seq<Line>)
    requires (forall e :: e in es ==> WfElement(op, e)) && (exists e :: e in es && !NotLone(e)) && tail != []
             && tail[0].indent == 0
    ensures Broken(ElementsParser(op, es) + tail)
    decreases |es|
  {
    var e := es[|es| - 1];
    var init := es[..|es| - 1];
    assert e in es && es == init + [e];
    var all := ElementsParser(op, es) + tail;
    assert all == ElementsParser(op, init) + (ElementParser(op, e, 0) + tail);
    if !NotLone(e) {
      LoneGate(op, e, tail);
      BrokenAfter(ElementsParser(op, init), ElementParser(op, e, 0) + tail);
    } else {
      FirstAtZero(op, e);
      LoneBreaks(op, init, ElementParser(op, e, 0) + tail);
    }
  }

  lemma LoneGate(op: OpInfo, e: Element, tail: seq<Line>)
    requires WfElement(op, e) && !NotLone(e) && tail != [] && tail[0].indent == 0
    ensures Broken(ElementParser(op, e, 0) + tail)
  {
    var lines := ElementParser(op, e, 0);
    assert e.elements[1..] == [];
    assert |lines| == 1 && lines[0].opens && lines[0].indent == 0;
    assert Empty((lines + tail)[0], (lines + tail)[1]);
  }

  lemma FirstAtZero(op: OpInfo, e: Element)
    requires WfElement(op, e)
    ensures ElementParser(op, e, 0) != [] && ElementParser(op, e, 0)[0].indent == 0
  {
    if !e.Opt? {
      LeafBlocks(op, e, 0);
    }
  }

  predicate Sized(op: OpInfo, f: Format) {
    (forall e :: e in f.elements ==> WfElement(op, e)) && |op.results| == |f.resultTypes|
      && |op.operands| == |f.operandTypes|
  }

  /** For every accepted format: the generated parser is indented as Python requires, and ends at the
      level it began, exactly when no optional group holds a single element. */
  lemma BlocksExact(op: OpInfo, f: Format)
    requires Sized(op, f)
    ensures Blocks(ParserCode(op, f), 0) <==> forall e :: e in f.elements ==> NotLone(e)
  {
    if forall e :: e in f.elements ==> NotLone(e) {
      BlocksFit(op, f);
    } else {
      BlocksBreak(op, f);
      BrokenIsNot(ParserCode(op, f));
    }
  }

  lemma BlocksFit(op: OpInfo, f: Format)
    requires Sized(op, f) && forall e :: e in f.elements ==> NotLone(e)
    ensures Blocks(ParserCode(op, f), 0)
  {
    var a, b, c := ElementsStorage(op, f.elements), ElementsParser(op, f.elements), Resolution(op, f);
    ResolutionBlocks(op, f);
    StorageBlocks(op, f.elements);
    ElementsBlocks(op, f.elements);
    hide Blocks, ElementsStorage, ElementsParser, Resolution, WfElement;
    BlocksAppend(a, b, 0);
    BlocksAppend(a + b, c, 0);
  }

  lemma ResolutionStarts(op: OpInfo, f: Format)
    requires |op.results| == |f.resultTypes| && |op.operands| == |f.operandTypes|
    ensures Resolution(op, f) != [] && Resolution(op, f)[0].indent == 0
  {
    ResolutionBlocks(op, f);
    hide TypeResolution, SuccessorResolution, SegmentLines;
    assert Resolution(op, f)[|Resolution(op, f)| - 1] == Plain(0, {}, {});
  }

  lemma BlocksBreak(op: OpInfo, f: Format)
    requires Sized(op, f) && exists e :: e in f.elements && !NotLone(e)
    ensures Broken(ParserCode(op, f))
  {
    hide ElementsStorage, ElementsParser, Resolution, WfElement, NotLone, Empty, Broken;
    ResolutionStarts(op, f);
    var a, b, c := ElementsStorage(op, f.elements), ElementsParser(op, f.elements), Resolution(op, f);
    LoneBreaks(op, f.elements, c);
    BrokenAfter(a, b + c);
    assert a + (b + c) == a + b + c;
  }

  lemma BrokenIsNot(lines: seq<Line>)
    requires Broken(lines)
    ensures !Blocks(lines, 0)
  {
    var k :| 0 <= k < |lines| - 1 && Empty(lines[k], lines[k + 1]);
    assert !Follows(lines[k], lines[k + 1]);
  }

  // ----- Which names belong to which element

  ghost function Mentioned(lines: seq<Line>): set<PyName> { set l, n | l in lines && n in l.uses + l.sets :: n }

  function ArgName(op: OpInfo, a: Element): string
    requires IsTypeArg(op, a)
  {
    if a.OperandVar? then op.operands[a.operand].name
    else if a.ResultVar? then op.results[a.result].name
    else if a.AllOperands? then "allOperand"
    else "allResult"
  }

  /** The names that hold what an element says, and the places where it was said. */
  function Holds(op: OpInfo, e: Element): set<PyName>
    requires WfLeaf(op, e)
  {
    match e
    case OperandVar(i) => {OperandList(op.operands[i].name)}
    case SuccessorVar(i) =>
      var l := op.successors[i];
      {if l.variadic then SuccessorList(l.name) else SuccessorName(l.name)}
    case RegionVar(i) => {RegionName(op.regions[i].name)}
    case AllOperands => {OperandList("all"), AllOperandLoc}
    case AllSuccessors => {SuccessorList("full")}
    case TypeDir(a) => {TypeList(ArgName(op, a))}
    case FunctionalType(a, b) => {TypeList(ArgName(op, a)), TypeList(ArgName(op, b))}
    case _ => {}
  }

  lemma MentionedMore(a: seq<Line>, b: seq<Line>)
    ensures Mentioned(a + b) == Mentioned(a) + Mentioned(b)
  {
  }

  lemma MentionedOne(l: Line)
    ensures Mentioned([l]) == l.uses + l.sets
  {
    assert l in [l];
  }

  lemma GuardMentions(indent: nat, uses: set<PyName>)
    ensures Mentioned(Guard(indent, uses)) == uses
  {
    assert Guard(indent, uses) == [Line(indent, true, uses, {}, Quiet)] + [Plain(indent + 4, {}, {})];
    MentionedMore([Line(indent, true, uses, {}, Quiet)], [Plain(indent + 4, {}, {})]);
    MentionedOne(Line(indent, true, uses, {}, Quiet));
    MentionedOne(Plain(indent + 4, {}, {}));
  }

  /** A line, a test, and perhaps more. */
  lemma PartsMention(first: Line, indent: nat, uses: set<PyName>, more: seq<Line>)
    ensures Mentioned([first] + Guard(indent, uses) + more) == first.uses + first.sets + uses + Mentioned(more)
  {
    hide Guard, Mentioned;
    MentionedMore([first] + Guard(indent, uses), more);
    MentionedMore([first], Guard(indent, uses));
    MentionedOne(first);
    GuardMentions(indent, uses);
  }

  lemma LinesMention(lines: seq<Line>, names: set<PyName>)
    requires forall l :: l in lines ==> l.uses + l.sets <= names
    requires forall n :: n in names ==> exists l :: l in lines && n in l.uses + l.sets
    ensures Mentioned(lines) == names
  {
  }

  lemma SuccessorMentions(indent: nat, name: string)
    ensures Mentioned(SuccessorLines(indent, name)) == {SuccessorList(name)}
  {
    var lines := SuccessorLines(indent, name);
    assert Plain(indent + 4, {SuccessorList(name)}, {}) in lines;
    LinesMention(lines, {SuccessorList(name)});
  }

  /** The lines that parse an element touch the names that belong to it, and no others. */
  lemma LeafMentions(op: OpInfo, e: Element, indent: nat)
    requires WfLeaf(op, e)
    ensures Mentioned(LeafParser(op, e, indent)) == Holds(op, e)
  {
    hide Mentioned, Guard, SuccessorLines;
    match e
    case OperandVar(i) =>
      var list := OperandList(op.operands[i].name);
      var last := Plain(indent, {list}, if op.operands[i].variadic then {list} else {});
      PartsMention(Plain(indent, {}, {}), indent, {}, [last]);
      MentionedOne(last);
    case SuccessorVar(i) =>
      var l := op.successors[i];
      SuccessorMentions(indent, l.name);
      PartsMention(Plain(indent, {}, {SuccessorName(l.name)}), indent, {}, []);
      LinesMention([], {});
      assert [Plain(indent, {}, {SuccessorName(l.name)})] + Guard(indent, {}) + []
             == [Plain(indent, {}, {SuccessorName(l.name)})] + Guard(indent, {});
    case RegionVar(i) =>
      var name := RegionName(op.regions[i].name);
      PartsMention(Plain(indent, {}, {name}), indent, {name}, []);
      LinesMention([], {});
      assert [Plain(indent, {}, {name})] + Guard(indent, {name}) + []
             == [Plain(indent, {}, {name})] + Guard(indent, {name});
    case AllOperands =>
      var loc, list := Plain(indent, {}, {AllOperandLoc}), Plain(indent, {}, {OperandList("all")});
      assert [loc, list] == [loc] + [list];
      MentionedMore([loc, list], Guard(indent, {}));
      MentionedMore([loc], [list]);
      MentionedOne(loc);
      MentionedOne(list);
      GuardMentions(indent, {});
    case AllSuccessors => SuccessorMentions(indent, "full");
    case TypeDir(a) =>
      var last := Plain(indent, {Types(op, a)}, if IsSingle(op, a) then {} else {Types(op, a)});
      PartsMention(Plain(indent, {}, {}), indent, {}, [last]);
      MentionedOne(last);
    case FunctionalType(a, b) =>
      var inputs, results := Plain(indent, {}, {Types(op, a)}), Plain(indent, {}, {Types(op, b)});
      assert [inputs, results] == [inputs] + [results];
      PartsMention(Plain(indent, {}, {}), indent, {}, [inputs, results]);
      MentionedMore([inputs], [results]);
      MentionedOne(inputs);
      MentionedOne(results);
    case _ => GuardMentions(indent, {});
  }

  // ----- Which line resolves what

  /** The generated name that holds the type of a value with this source. */
  predicate HoldsType(op: OpInfo, s: Source, own: string, name: PyName) {
    match s
    case OwnList => name == TypeList(own)
    case SameAs(OperandRef(j)) => j < |op.operands| ==> name == TypeList(op.operands[j].name)
    case SameAs(ResultRef(j)) => j < |op.results| ==> name == TypeList(op.results[j].name)
    case Built(k) => name == BuiltType(k)
  }

  /** Line `l` resolves a value: it uses the name that holds the value's type, and `more`. */
  ghost predicate Resolves(op: OpInfo, l: Line, s: Source, own: string, more: set<PyName>) {
    exists name :: HoldsType(op, s, own, name) && l.uses == {name} + more && l.sets == {}
  }

  lemma ResolverHolds(op: OpInfo, s: Source, own: string)
    ensures HoldsType(op, s, own, ResolverName(op, s, own))
  {
  }

  lemma {:induction false} TableLinesAt(n: nat, k: nat)
    requires k < n
    ensures |TableLines(n)| == n && TableLines(n)[k].sets == {BuiltType(k)}
    decreases n
  {
    if n == 1 {
      assert TableLines(0) == [];
    } else {
      TableLinesAt(n - 1, if k < n - 1 then k else 0);
    }
  }

  lemma {:induction false} ResultLinesAt(op: OpInfo, f: Format, n: nat, i: nat)
    requires i < n <= |op.results| == |f.resultTypes|
    ensures |ResultLines(op, f, n)| == n
    ensures Resolves(op, ResultLines(op, f, n)[i], f.resultTypes[i], op.results[i].name, {})
    decreases n
  {
    hide Resolves, HoldsType, ResolverName;
    if n == 1 {
      assert ResultLines(op, f, 0) == [];
    } else {
      ResultLinesAt(op, f, n - 1, if i < n - 1 then i else 0);
    }
    if i == n - 1 {
      PlainResolves(op, f.resultTypes[i], op.results[i].name);
    }
  }

  lemma PlainResolves(op: OpInfo, s: Source, own: string)
    ensures Resolves(op, Plain(0, {ResolverName(op, s, own)}, {}), s, own, {})
  {
    hide HoldsType, ResolverName;
    ResolverHolds(op, s, own);
    assert {ResolverName(op, s, own)} == {ResolverName(op, s, own)} + {};
  }

  /** What an operand is resolved with besides its type: its list, and its location unless the type is built. */
  function OperandNames(name: string, s: Source): set<PyName> {
    if s.Built? then {OperandList(name)} else {OperandList(name), OperandLoc(name)}
  }

  lemma {:induction false} OperandLinesAt(op: OpInfo, f: Format, n: nat, i: nat)
    requires i < n <= |op.operands| == |f.operandTypes|
    ensures |OperandLines(op, f, n)| == 2 * n
    ensures var name := op.operands[i].name;
            Resolves(op, OperandLines(op, f, n)[2 * i], f.operandTypes[i], name, OperandNames(name, f.operandTypes[i]))
    decreases n
  {
    hide Resolves, HoldsType, ResolverName, OperandNames;
    if n == 1 {
      assert OperandLines(op, f, 0) == [];
    } else {
      OperandLinesAt(op, f, n - 1, if i < n - 1 then i else 0);
    }
    if i == n - 1 {
      GuardResolves(op, f.operandTypes[i], op.operands[i].name);
    }
  }

  lemma GuardResolves(op: OpInfo, s: Source, name: string)
    ensures var uses := {OperandList(name), ResolverName(op, s, name)} + if s.Built? then {} else {OperandLoc(name)};
            Resolves(op, Guard(0, uses)[0], s, name, OperandNames(name, s))
  {
    hide HoldsType, ResolverName;
    ResolverHolds(op, s, name);
    var uses := {OperandList(name), ResolverName(op, s, name)} + if s.Built? then {} else {OperandLoc(name)};
    assert uses == {ResolverName(op, s, name)} + OperandNames(name, s);
  }

  lemma {:induction false} TypeListsAt(op: OpInfo, f: Format, n: nat, i: nat)
    requires i < n <= |op.operands| == |f.operandTypes|
    ensures |TypeLists(op, f, n)| == n && |OperandLists(op, n)| == n
    ensures Resolves(op, TypeLists(op, f, n)[i], f.operandTypes[i], op.operands[i].name, {})
    ensures OperandLists(op, n)[i].uses == {OperandList(op.operands[i].name)}
    decreases n
  {
    hide Resolves, HoldsType, ResolverName;
    if n == 1 {
      assert TypeLists(op, f, 0) == [] && OperandLists(op, 0) == [];
    } else {
      TypeListsAt(op, f, n - 1, if i < n - 1 then i else 0);
    }
    if i == n - 1 {
      PlainResolves(op, f.operandTypes[i], op.operands[i].name);
    }
  }

  /** Where the results begin, and where the operands do. */
  function FirstResult(f: Format): nat { |f.table| }

  function FirstOperand(op: OpInfo, f: Format): nat {
    |f.table| + if f.allResultTypes then 1 else |op.results|
  }

  /** Result `i` is resolved by line `i` of the results, with the type of its own source. */
  lemma ResultResolved(op: OpInfo, f: Format, i: nat)
    requires i < |op.results| == |f.resultTypes| && |op.operands| == |f.operandTypes| && !f.allResultTypes
    ensures |TypeResolution(op, f)| > FirstResult(f) + i
    ensures Resolves(op, TypeResolution(op, f)[FirstResult(f) + i], f.resultTypes[i], op.results[i].name, {})
  {
    hide Resolves, OperandResolution;
    TableLength(f);
    ResultLinesAt(op, f, |op.results|, i);
  }

  lemma TableLength(f: Format)
    ensures |TableLines(|f.table|)| == |f.table|
  {
    if |f.table| > 0 {
      TableLinesAt(|f.table|, 0);
    }
  }

  /** Operand `i` is resolved with its own list and the type of its own source, or its list and its type
      stand at place `i` where operands or types are resolved all at once. */
  lemma OperandResolved(op: OpInfo, f: Format, i: nat)
    requires i < |op.operands| == |f.operandTypes| && |op.results| == |f.resultTypes|
    requires !f.allOperands || !f.allOperandTypes
    ensures var k := FirstOperand(op, f) + if f.allOperands || f.allOperandTypes then 1 + i else 2 * i;
            && |TypeResolution(op, f)| > k
            && var (l, s, name) := (TypeResolution(op, f)[k], f.operandTypes[i], op.operands[i].name);
            if f.allOperandTypes then l.uses == {OperandList(name)}
            else Resolves(op, l, s, name, if f.allOperands then {} else OperandNames(name, s))
  {
    hide Resolves, Guard;
    ResolutionLength(op, f);
    OperandLinesAt(op, f, |op.operands|, i);
    TypeListsAt(op, f, |op.operands|, i);
  }

  lemma ResolutionLength(op: OpInfo, f: Format)
    requires |op.results| == |f.resultTypes| && |op.operands| == |f.operandTypes|
    ensures |TypeResolution(op, f)| == FirstOperand(op, f) + |OperandResolution(op, f)|
    ensures TypeResolution(op, f)[FirstOperand(op, f)..] == OperandResolution(op, f)
  {
    hide OperandResolution;
    TableLength(f);
    if |op.results| > 0 {
      ResultLinesAt(op, f, |op.results|, 0);
    }
  }
}
