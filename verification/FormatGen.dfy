/** The generators, writing to a stream that keeps its own indentation: for every accepted format, no
    case is unreachable and no cast fails. */
module FormatGen {
  import opened FormatLexer
  import opened FormatGrammar
  import opened FormatAccepted
  import opened FormatResolve
  import opened FormatSpacing
  import opened FormatCode
  import opened FormatPrinter

  class PythonGenStream {
    var lines: seq<Line>
    var indent: int

    constructor ()
      ensures lines == [] && indent == 0
    {
      lines, indent := [], 0;
    }

    method Emit(uses: set<PyName>, sets: set<PyName>)
      requires indent >= 0
      modifies this`lines
      ensures lines == old(lines) + [Plain(indent, uses, sets)]
    {
      lines := lines + [Line(indent, false, uses, sets, Quiet)];
    }

    /** A line of a printer. */
    method Out(does: Does)
      requires indent >= 0
      modifies this`lines
      ensures lines == old(lines) + [Put(indent, does)]
    {
      lines := lines + [Line(indent, false, {}, {}, does)];
    }

    /** A line that opens a block, and the step inward. */
    method Block(uses: set<PyName>, does: Does)
      requires indent >= 0
      modifies this
      ensures lines == old(lines) + [Line(old(indent), true, uses, {}, does)] && indent == old(indent) + 4
    {
      lines := lines + [Line(indent, true, uses, {}, does)];
      ChangeIndent(4);
    }

    method EndBlock()
      requires indent >= 4
      modifies this`indent
      ensures indent == old(indent) - 4
    {
      ChangeIndent(-4);
    }

    /** The source asserts that the indentation has not become negative. */
    method ChangeIndent(delta: int)
      requires indent + delta >= 0
      modifies this`indent
      ensures indent == old(indent) + delta
    {
      indent := indent + delta;
    }

    /** A test with `return False` inside. */
    method Test(uses: set<PyName>)
      requires indent >= 0
      modifies this
      ensures lines == old(lines) + Guard(old(indent), uses) && indent == old(indent)
    {
      Block(uses, Quiet);
      Emit({}, {});
      EndBlock();
    }
  }

  method GenLeafStorage(op: OpInfo, e: Element, body: PythonGenStream)
    requires WfLeaf(op, e) && body.indent == 0
    modifies body
    ensures body.lines == old(body.lines) + LeafStorage(op, e) && body.indent == 0
  {
    match e {
      case OperandVar(i) =>
        body.Emit({}, {OperandList(op.operands[i].name)});
        body.Emit({}, {OperandLoc(op.operands[i].name)});
      case TypeDir(a) => body.Emit({}, {Types(op, a)});
      case FunctionalType(a, b) =>
        body.Emit({}, {Types(op, a)});
        body.Emit({}, {Types(op, b)});
      case _ =>
    }
  }

  method GenElementParserStorage(op: OpInfo, e: Element, body: PythonGenStream)
    requires WfElement(op, e) && body.indent == 0
    modifies body
    ensures body.lines == old(body.lines) + Storage(op, e) && body.indent == 0
  {
    hide WfLeaf, LeafStorage, IsChild, TypesInside;
    if e.Opt? {
      var i := 0;
      while i < |e.elements|
        invariant 0 <= i <= |e.elements| && body.indent == 0
        invariant forall x :: x in e.elements[..i] ==> WfLeaf(op, x)
        invariant body.lines == old(body.lines) + LeavesStorage(op, e.elements[..i])
      {
        GenLeafStorage(op, e.elements[i], body);
        assert e.elements[..i + 1][..i] == e.elements[..i];
        i := i + 1;
      }
      assert e.elements[..i] == e.elements;
    } else {
      GenLeafStorage(op, e, body);
    }
  }

  method GenSuccessorListParser(name: string, body: PythonGenStream)
    requires body.indent >= 0
    modifies body
    ensures body.lines == old(body.lines) + SuccessorLines(old(body.indent), name) && body.indent == old(body.indent)
  {
    body.Emit({}, {});
    body.Block({}, Quiet);
    body.Test({});
    body.Emit({SuccessorList(name)}, {});
    body.Block({}, Quiet);
    body.Emit({}, {});
    body.Test({});
    body.Emit({SuccessorList(name)}, {});
    body.EndBlock();
    body.EndBlock();
  }

  /** No element of an accepted format reaches the end of the chain of cases. */
  method GenLeafParser(op: OpInfo, e: Element, body: PythonGenStream)
    requires WfLeaf(op, e) && body.indent >= 0
    modifies body
    ensures body.lines == old(body.lines) + LeafParser(op, e, old(body.indent)) && body.indent == old(body.indent)
  {
    if e.Lit? {
      var call := ParserForLiteral(e.text);
      ValidLiteralsParse(e.text, e.text);
      assert call != NoCall;
      body.Test({});
    } else if e.AttrVar? {
      body.Test({});
    } else if e.OperandVar? {
      var operand := op.operands[e.operand];
      body.Emit({}, {});
      body.Test({});
      if operand.variadic {
        body.Emit({OperandList(operand.name)}, {OperandList(operand.name)});
      } else {
        body.Emit({OperandList(operand.name)}, {});
      }
    } else if e.SuccessorVar? {
      var successor := op.successors[e.successor];
      if successor.variadic {
        GenSuccessorListParser(successor.name, body);
      } else {
        body.Emit({}, {SuccessorName(successor.name)});
        body.Test({});
      }
    } else if e.RegionVar? {
      var name := RegionName(op.regions[e.region].name);
      body.Emit({}, {name});
      body.Test({name});
    } else if e.AttrDict? {
      body.Test({});
    } else if e.AllOperands? {
      body.Emit({}, {AllOperandLoc});
      body.Emit({}, {OperandList("all")});
      body.Test({});
    } else if e.AllSuccessors? {
      GenSuccessorListParser("full", body);
    } else if e.TypeDir? {
      body.Emit({}, {});
      body.Test({});
      if IsSingle(op, e.arg) {
        body.Emit({Types(op, e.arg)}, {});
      } else {
        body.Emit({Types(op, e.arg)}, {Types(op, e.arg)});
      }
    } else if e.FunctionalType? {
      body.Emit({}, {});
      body.Test({});
      body.Emit({}, {Types(op, e.inputs)});
      body.Emit({}, {Types(op, e.results)});
    } else if e.SymbolDir? {
      body.Test({});
    } else {
      assert false;
    }
  }

  method GenElementParser(op: OpInfo, e: Element, body: PythonGenStream)
    requires WfElement(op, e) && body.indent >= 0
    modifies body
    ensures body.lines == old(body.lines) + ElementParser(op, e, old(body.indent)) && body.indent == old(body.indent)
  {
    if e.Opt? {
      GenGroupParser(op, e.elements, body);
    } else {
      GenLeafParser(op, e, body);
    }
  }

  method GenGroupParser(op: OpInfo, es: seq<Element>, body: PythonGenStream)
    requires es != [] && (es[0].Lit? || es[0].OperandVar?) && (forall e :: e in es ==> WfLeaf(op, e))
             && body.indent >= 0
    modifies body
    ensures body.lines == old(body.lines) + GroupParser(op, es, old(body.indent)) && body.indent == old(body.indent)
  {
    var rest := es[1..];
    hide LeavesParser, LeafParser, WfLeaf, GroupParser, Gate;
    ghost var all := GroupLines(op, es, rest, body.indent);
    GenGateAndRest(op, es[0], rest, body);
    body.EndBlock();
  }

  /** The lines of a group, in two parts. */
  method GenGateAndRest(op: OpInfo, head: Element, rest: seq<Element>, body: PythonGenStream)
    requires WfLeaf(op, head) && (head.Lit? || head.OperandVar?) && (forall e :: e in rest ==> WfLeaf(op, e))
             && body.indent >= 0
    modifies body
    ensures body.lines == old(body.lines) + ([Gate(op, head, old(body.indent))]
            + LeavesParser(op, rest, old(body.indent) + 4))
    ensures body.indent == old(body.indent) + 4
  {
    hide LeavesParser, LeafParser, WfLeaf, Gate;
    GenGate(op, head, body);
    GenLeaves(op, rest, body);
  }

  lemma GroupLines(op: OpInfo, es: seq<Element>, rest: seq<Element>, indent: nat) returns (all: seq<Line>)
    requires es != [] && (es[0].Lit? || es[0].OperandVar?) && (forall e :: e in es ==> WfLeaf(op, e)) && rest == es[1..]
    ensures WfLeaf(op, es[0]) && forall e :: e in rest ==> WfLeaf(op, e)
    ensures all == GroupParser(op, es, indent) == [Gate(op, es[0], indent)] + LeavesParser(op, rest, indent + 4)
  {
    assert es[0] in es;
    all := GroupParser(op, es, indent);
  }

  method GenGate(op: OpInfo, e: Element, body: PythonGenStream)
    requires WfLeaf(op, e) && (e.Lit? || e.OperandVar?) && body.indent >= 0
    modifies body
    ensures body.lines == old(body.lines) + [Gate(op, e, old(body.indent))] && body.indent == old(body.indent) + 4
  {
    if e.Lit? {
      body.Block({}, Quiet);
    } else if e.OperandVar? {
      body.Block({OperandList(op.operands[e.operand].name)}, Quiet);
    }
  }

  predicate LeavesDone(op: OpInfo, es: seq<Element>, i: nat, indent: nat, lines: seq<Line>) {
    i <= |es| && (forall e :: e in es[..i] ==> WfLeaf(op, e)) && lines == LeavesParser(op, es[..i], indent)
  }

  lemma LeavesStep(op: OpInfo, es: seq<Element>, i: nat, indent: nat, lines: seq<Line>)
    requires i < |es| && WfLeaf(op, es[i]) && LeavesDone(op, es, i, indent, lines)
    ensures LeavesDone(op, es, i + 1, indent, lines + LeafParser(op, es[i], indent))
  {
    hide WfLeaf, LeafParser;
    assert es[..i + 1][..i] == es[..i];
  }

  lemma LeavesAll(op: OpInfo, es: seq<Element>, indent: nat, lines: seq<Line>)
    ensures LeavesDone(op, es, 0, indent, [])
    ensures LeavesDone(op, es, |es|, indent, lines)
            ==> (forall e :: e in es ==> WfLeaf(op, e)) && lines == LeavesParser(op, es, indent)
  {
    assert es[..|es|] == es;
  }

  method GenLeaves(op: OpInfo, es: seq<Element>, body: PythonGenStream)
    requires (forall e :: e in es ==> WfLeaf(op, e)) && body.indent >= 0
    modifies body
    ensures body.lines == old(body.lines) + LeavesParser(op, es, old(body.indent)) && body.indent == old(body.indent)
  {
    hide LeafParser, LeavesParser, WfLeaf, LeavesDone;
    ghost var done: seq<Line> := [];
    LeavesAll(op, es, body.indent, []);
    var i := 0;
    while i < |es|
      invariant 0 <= i <= |es| && body.indent == old(body.indent)
      invariant LeavesDone(op, es, i, body.indent, done) && body.lines == old(body.lines) + done
    {
      assert es[i] in es;
      LeavesStep(op, es, i, body.indent, done);
      done := done + LeafParser(op, es[i], body.indent);
      GenLeafParser(op, es[i], body);
      i := i + 1;
    }
    LeavesAll(op, es, body.indent, done);
  }

  method GenTypeResolution(op: OpInfo, f: Format, body: PythonGenStream)
    requires |op.results| == |f.resultTypes| && |op.operands| == |f.operandTypes| && body.indent == 0
    modifies body
    ensures body.lines == old(body.lines) + TypeResolution(op, f) && body.indent == 0
  {
    var k := 0;
    while k < |f.table|
      invariant 0 <= k <= |f.table| && body.indent == 0 && body.lines == old(body.lines) + TableLines(k)
    {
      body.Emit({}, {BuiltType(k)});
      k := k + 1;
    }
    ghost var before := body.lines;
    if f.allResultTypes {
      body.Emit({TypeList("allResult")}, {});
    } else {
      var i := 0;
      while i < |op.results|
        invariant 0 <= i <= |op.results| && body.indent == 0 && body.lines == before + ResultLines(op, f, i)
      {
        body.Emit({ResolverName(op, f.resultTypes[i], op.results[i].name)}, {});
        i := i + 1;
      }
    }
    GenOperandResolution(op, f, body);
  }

  method GenOperandResolution(op: OpInfo, f: Format, body: PythonGenStream)
    requires |op.operands| == |f.operandTypes| && body.indent == 0
    modifies body
    ensures body.lines == old(body.lines) + OperandResolution(op, f) && body.indent == 0
  {
    if |op.operands| == 0 {
      return;
    }
    if f.allOperandTypes {
      if f.allOperands {
        body.Test({OperandList("all"), TypeList("allOperand"), AllOperandLoc});
        return;
      }
      GenOperandLists(op, body);
      return;
    }
    if f.allOperands {
      GenTypeLists(op, f, body);
      return;
    }
    GenEachOperand(op, f, body);
  }

  method GenOperandLists(op: OpInfo, body: PythonGenStream)
    requires body.indent == 0
    modifies body
    ensures body.lines == old(body.lines) + ([Plain(0, {}, {})] + OperandLists(op, |op.operands|)
            + Guard(0, {TypeList("allOperand")})) && body.indent == 0
  {
    body.Emit({}, {});
    var i := 0;
    while i < |op.operands|
      invariant 0 <= i <= |op.operands| && body.indent == 0
                && body.lines == old(body.lines) + [Plain(0, {}, {})] + OperandLists(op, i)
    {
      body.Emit({OperandList(op.operands[i].name)}, {});
      i := i + 1;
    }
    body.Test({TypeList("allOperand")});
  }

  method GenTypeLists(op: OpInfo, f: Format, body: PythonGenStream)
    requires |op.operands| == |f.operandTypes| && body.indent == 0
    modifies body
    ensures body.lines == old(body.lines) + ([Plain(0, {}, {})] + TypeLists(op, f, |op.operands|)
            + Guard(0, {OperandList("all"), AllOperandLoc}))
    ensures body.indent == 0
  {
    body.Emit({}, {});
    var i := 0;
    while i < |op.operands|
      invariant 0 <= i <= |op.operands| && body.indent == 0
                && body.lines == old(body.lines) + [Plain(0, {}, {})] + TypeLists(op, f, i)
    {
      body.Emit({ResolverName(op, f.operandTypes[i], op.operands[i].name)}, {});
      i := i + 1;
    }
    body.Test({OperandList("all"), AllOperandLoc});
  }

  method GenEachOperand(op: OpInfo, f: Format, body: PythonGenStream)
    requires |op.operands| == |f.operandTypes| && body.indent == 0
    modifies body
    ensures body.lines == old(body.lines) + OperandLines(op, f, |op.operands|) && body.indent == 0
  {
    var i := 0;
    while i < |op.operands|
      invariant 0 <= i <= |op.operands| && body.indent == 0 && body.lines == old(body.lines) + OperandLines(op, f, i)
    {
      var name := op.operands[i].name;
      var s := f.operandTypes[i];
      body.Test({OperandList(name), ResolverName(op, s, name)} + if s.Built? then {} else {OperandLoc(name)});
      i := i + 1;
    }
  }

  method GenSuccessorResolution(op: OpInfo, f: Format, body: PythonGenStream)
    requires body.indent == 0
    modifies body
    ensures body.lines == old(body.lines) + SuccessorResolution(op, f) && body.indent == 0
  {
    if AllSuccessors in f.elements {
      body.Emit({SuccessorList("full")}, {});
      return;
    }
    var i := 0;
    while i < |op.successors|
      invariant 0 <= i <= |op.successors| && body.indent == 0 && body.lines == old(body.lines) + SuccessorReads(op, i)
    {
      var l := op.successors[i];
      body.Emit({if l.variadic then SuccessorList(l.name) else SuccessorName(l.name)}, {});
      i := i + 1;
    }
  }

  /** The whole parser; indentation ends where it began. */
  method GenParser(op: OpInfo, f: Format, body: PythonGenStream)
    requires Sized(op, f) && body.lines == [] && body.indent == 0
    modifies body
    ensures body.lines == ParserCode(op, f) && body.indent == 0
  {
    hide ElementsStorage, ElementsParser, TypeResolution, SuccessorResolution, SegmentLines, ParserCode, Resolution,
      WfElement;
    GenStorage(op, f.elements, body);
    GenElements(op, f.elements, body);
    GenTypeResolution(op, f, body);
    GenSuccessorResolution(op, f, body);
    GenSegments(op, f, body);
    body.Emit({}, {});
    CodeIs(op, f, body.lines);
  }

  method GenSegments(op: OpInfo, f: Format, body: PythonGenStream)
    requires body.indent == 0
    modifies body
    ensures body.lines == old(body.lines) + SegmentLines(op, f) && body.indent == 0
  {
    if !f.allOperands && op.sizedOperands {
      body.Emit(set j | 0 <= j < |op.operands| && op.operands[j].variadic :: OperandList(op.operands[j].name), {});
    }
  }

  lemma CodeIs(op: OpInfo, f: Format, lines: seq<Line>)
    requires Sized(op, f)
    requires lines == ElementsStorage(op, f.elements) + ElementsParser(op, f.elements) + TypeResolution(op, f)
             + SuccessorResolution(op, f)
                      + SegmentLines(op, f) + [Plain(0, {}, {})]
    ensures lines == ParserCode(op, f)
  {
    hide ElementsStorage, ElementsParser, TypeResolution, SuccessorResolution, SegmentLines, WfElement;
  }

  predicate StorageDone(op: OpInfo, es: seq<Element>, i: nat, lines: seq<Line>) {
    i <= |es| && (forall e :: e in es[..i] ==> WfElement(op, e)) && lines == ElementsStorage(op, es[..i])
  }

  predicate ElementsDone(op: OpInfo, es: seq<Element>, i: nat, lines: seq<Line>) {
    i <= |es| && (forall e :: e in es[..i] ==> WfElement(op, e)) && lines == ElementsParser(op, es[..i])
  }

  lemma ElementsStep(op: OpInfo, es: seq<Element>, i: nat, lines: seq<Line>)
    requires i < |es| && WfElement(op, es[i])
    ensures StorageDone(op, es, i, lines) ==> StorageDone(op, es, i + 1, lines + Storage(op, es[i]))
    ensures ElementsDone(op, es, i, lines) ==> ElementsDone(op, es, i + 1, lines + ElementParser(op, es[i], 0))
  {
    assert es[..i + 1][..i] == es[..i];
  }

  lemma ElementsAll(op: OpInfo, es: seq<Element>, lines: seq<Line>)
    requires forall e :: e in es ==> WfElement(op, e)
    ensures StorageDone(op, es, 0, []) && ElementsDone(op, es, 0, [])
    ensures StorageDone(op, es, |es|, lines) ==> lines == ElementsStorage(op, es)
    ensures ElementsDone(op, es, |es|, lines) ==> lines == ElementsParser(op, es)
  {
    assert es[..|es|] == es;
  }

  method GenStorage(op: OpInfo, es: seq<Element>, body: PythonGenStream)
    requires (forall e :: e in es ==> WfElement(op, e)) && body.indent == 0
    modifies body
    ensures body.lines == old(body.lines) + ElementsStorage(op, es) && body.indent == 0
  {
    hide WfElement, Storage, ElementsStorage, ElementParser, ElementsParser, StorageDone, ElementsDone;
    ghost var done: seq<Line> := [];
    ElementsAll(op, es, []);
    var i := 0;
    while i < |es|
      invariant 0 <= i <= |es| && body.indent == 0 && StorageDone(op, es, i, done)
                && body.lines == old(body.lines) + done
    {
      ElementsStep(op, es, i, done);
      done := done + Storage(op, es[i]);
      GenElementParserStorage(op, es[i], body);
      i := i + 1;
    }
    ElementsAll(op, es, done);
  }

  method GenElements(op: OpInfo, es: seq<Element>, body: PythonGenStream)
    requires (forall e :: e in es ==> WfElement(op, e)) && body.indent == 0
    modifies body
    ensures body.lines == old(body.lines) + ElementsParser(op, es) && body.indent == 0
  {
    hide WfElement, Storage, ElementsStorage, ElementParser, ElementsParser, StorageDone, ElementsDone;
    ghost var done: seq<Line> := [];
    ElementsAll(op, es, []);
    var i := 0;
    while i < |es|
      invariant 0 <= i <= |es| && body.indent == 0 && ElementsDone(op, es, i, done)
                && body.lines == old(body.lines) + done
    {
      ElementsStep(op, es, i, done);
      done := done + ElementParser(op, es[i], 0);
      GenElementParser(op, es[i], body);
      i := i + 1;
    }
    ElementsAll(op, es, done);
  }

  // ----- The printer

  /** The argument is a directive, an operand or else, by a checked cast, a result. */
  method GenTypeOperandPrinter(op: OpInfo, a: Element) returns (r: TypeList)
    requires IsTypeArg(op, a)
    ensures r == TypesOf(op, a)
  {
    if a.AllOperands? {
      return OperandTypes;
    }
    if a.AllResults? {
      return ResultTypes;
    }
    if a.OperandVar? {
      var v := op.operands[a.operand];
      r := if v.variadic then OperandGroup(v.name) else OneOperand(v.name);
    } else {
      var v := op.results[a.result];
      r := if v.variadic then ResultGroup(v.name) else OneResult(v.name);
    }
  }

  /** Every attribute that the format mentions by itself is left out of the dictionary. */
  method GenAttrDictPrinter(op: OpInfo, f: Format, body: PythonGenStream, withKeyword: bool)
    requires (forall e :: e in f.elements ==> WfElement(op, e)) && body.indent >= 0
    modifies body
    ensures body.indent == old(body.indent)
            && body.lines == old(body.lines) + [Put(body.indent, Prints(DictText(withKeyword, Elided(op, f))))]
  {
    hide UsedAttrs, WfElement;
    var used := UsedAttributes(op, f.elements);
    var segments := if !f.allOperands && op.sizedOperands then ["operand_segment_sizes"] else [];
    body.Out(Prints(DictText(withKeyword, segments + used)));
  }

  method UsedAttributes(op: OpInfo, es: seq<Element>) returns (used: seq<string>)
    requires forall e :: e in es ==> WfElement(op, e)
    ensures used == UsedAttrs(op, es)
  {
    hide WfElement, UsedAttrs, LeavesAttrs;
    used := [];
    NoneUsed(op, es);
    var i := 0;
    while i < |es|
      invariant 0 <= i <= |es| && used == UsedAttrs(op, es[..i])
    {
      UsedMore(op, es, i);
      AttrInRange(op, es[i]);
      if es[i].AttrVar? {
        used := used + [op.attrs[es[i].attr].name];
      } else if es[i].Opt? {
        used := UsedInGroup(op, es[i], used);
      } else if es[i].SymbolDir? {
        used := used + [op.attrs[es[i].symbol.attr].name];
      }
      i := i + 1;
    }
    assert es[..|es|] == es;
  }

  lemma NoneUsed(op: OpInfo, es: seq<Element>)
    requires forall e :: e in es ==> WfElement(op, e)
    ensures UsedAttrs(op, es[..0]) == []
  {
  }

  lemma AttrInRange(op: OpInfo, e: Element)
    requires WfElement(op, e)
    ensures e.AttrVar? ==> e.attr < |op.attrs|
    ensures e.SymbolDir? ==> e.symbol.AttrVar? && e.symbol.attr < |op.attrs|
  {
  }

  method UsedInGroup(op: OpInfo, g: Element, before: seq<string>) returns (used: seq<string>)
    requires g.Opt? && WfElement(op, g)
    ensures used == before + ElementAttrs(op, g)
  {
    hide IsChild;
    used := before;
    var j := 0;
    while j < |g.elements|
      invariant 0 <= j <= |g.elements| && used == before + LeavesAttrs(op, g.elements[..j])
    {
      assert g.elements[..j + 1][..j] == g.elements[..j];
      assert WfLeaf(op, g.elements[j]);
      if g.elements[j].AttrVar? {
        used := used + [op.attrs[g.elements[j].attr].name];
      }
      j := j + 1;
    }
    assert g.elements[..|g.elements|] == g.elements;
  }

  method GenLiteralPrinter(value: string, body: PythonGenStream, s: Flags) returns (r: Flags)
    requires IsValidLiteral(value) && body.indent >= 0
    modifies body
    ensures body.indent == old(body.indent) && r == AfterText(value)
    ensures body.lines == old(body.lines)
                          + (if BlankBefore(value, s) then [Put(body.indent, Prints(Space))] else [])
                          + [Put(body.indent, Prints(Text(value)))]
  {
    var c := value[0];
    var spaced := (|value| != 1 && value != "->") || (if s.punctuation then c !in ">)}]," else c !in "<>(){}[],");
    if s.emitSpace && spaced {
      body.Out(Prints(Space));
    }
    body.Out(Prints(Text(value)));
    r := Flags(|value| != 1 || c !in "<({[", !(c == '_' || IsAlpha(c)));
  }

  method GenRegionPrinter(name: string, body: PythonGenStream)
    requires body.indent >= 0
    modifies body
    ensures body.indent == old(body.indent) && body.lines == old(body.lines) + RegionLines(name, body.indent)
  {
    body.Out(Fetches(name));
    body.Block({}, AsksBlocks);
    body.Out(Prints(OpenArgs));
    body.Out(Prints(BlockArgs));
    body.Out(Prints(CloseArgs));
    body.EndBlock();
    body.Out(Prints(RegionText));
  }

  /** No element of an accepted format reaches the end of the chain of cases. */
  method GenVariablePrinter(op: OpInfo, e: Element, body: PythonGenStream)
    requires WfLeaf(op, e) && !e.Lit? && !e.AttrDict? && body.indent >= 0
    modifies body
    ensures body.indent == old(body.indent) && body.lines == old(body.lines) + OwnLines(op, e, [], body.indent)
  {
    hide IsTypeArg, TypesOf;
    if e.AttrVar? {
      var a := op.attrs[e.attr];
      body.Out(Prints(AttrText(a.name, a.builder.None?)));
    } else if e.OperandVar? {
      var v := op.operands[e.operand];
      body.Out(Prints(if v.variadic then OperandsText(v.name) else OperandText(v.name)));
    } else if e.SuccessorVar? {
      var v := op.successors[e.successor];
      body.Out(Prints(if v.variadic then SuccessorsText(v.name) else SuccessorText(v.name)));
    } else if e.RegionVar? {
      GenRegionPrinter(op.regions[e.region].name, body);
    } else if e.AllOperands? {
      body.Out(Prints(AllOperandsText));
    } else if e.AllSuccessors? {
      body.Out(Prints(AllSuccessorsText));
    } else if e.TypeDir? {
      var types := GenTypeOperandPrinter(op, e.arg);
      body.Out(Prints(TypeText(types)));
    } else if e.FunctionalType? {
      var inputs := GenTypeOperandPrinter(op, e.inputs);
      var results := GenTypeOperandPrinter(op, e.results);
      body.Out(Prints(FunctionText(inputs, results)));
    } else if e.SymbolDir? {
      body.Out(Prints(SymbolText(op.attrs[e.symbol.attr].name)));
    } else {
      assert false;
    }
  }

  method GenLeafPrinter(op: OpInfo, f: Format, e: Element, body: PythonGenStream, s: Flags) returns (r: Flags)
    requires (forall x :: x in f.elements ==> WfElement(op, x)) && WfLeaf(op, e) && body.indent >= 0
    modifies body
    ensures body.indent == old(body.indent) && r == FlagsAfter(op, e, s)
    ensures body.lines == old(body.lines) + LeafLines(op, e, Elided(op, f), body.indent, s)
  {
    hide WfElement, BlankBefore, AfterText, Elided, IsValidLiteral;
    if e.Lit? {
      HasText(op, e);
      r := GenLiteralPrinter(e.text, body, s);
      return;
    }
    if e.AttrDict? {
      GenAttrDictPrinter(op, f, body, e.withKeyword);
      return Flags(s.emitSpace, false);
    }
    if s.emitSpace || !s.punctuation {
      body.Out(Prints(Space));
    }
    GenVariablePrinter(op, e, body);
    OwnAlike(op, e, [], Elided(op, f), body.indent);
    r := Flags(true, false);
  }

  lemma HasText(op: OpInfo, e: Element)
    requires WfLeaf(op, e) && e.Lit?
    ensures IsValidLiteral(e.text) && e.text != ""
  {
  }

  /** A group's test asks for its anchor, which is a variadic operand or else an attribute. */
  method GenElementPrinter(op: OpInfo, f: Format, e: Element, body: PythonGenStream, s: Flags) returns (r: Flags)
    requires (forall x :: x in f.elements ==> WfElement(op, x)) && WfElement(op, e) && body.indent >= 0
    modifies body
    ensures body.indent == old(body.indent) && r == ElementAfter(op, e, s)
    ensures body.lines == old(body.lines) + ElementLines(op, e, Elided(op, f), body.indent, s)
  {
    hide WfLeaf, FlagsAfter, LeafLines, Elided;
    if !e.Opt? {
      r := GenLeafPrinter(op, f, e, body, s);
      return;
    }
    GenGroupTest(op, e, body);
    r := GenGroupBody(op, f, e, body, s);
    body.EndBlock();
  }

  method GenGroupTest(op: OpInfo, g: Element, body: PythonGenStream)
    requires g.Opt? && WfElement(op, g) && body.indent >= 0
    modifies body
    ensures body.indent == old(body.indent) + 4
            && body.lines == old(body.lines) + [Line(old(body.indent), true, {}, {}, GroupTest(op, g))]
  {
    hide WfLeaf;
    var anchor := g.elements[g.anchor];
    if anchor.OperandVar? {
      if op.operands[anchor.operand].variadic {
        body.Block({}, AsksOperands(op.operands[anchor.operand].name));
      }
    } else {
      body.Block({}, AsksAttr(op.attrs[anchor.attr].name));
    }
  }

  method GenGroupBody(op: OpInfo, f: Format, g: Element, body: PythonGenStream, s: Flags) returns (r: Flags)
    requires (forall x :: x in f.elements ==> WfElement(op, x)) && g.Opt? && WfElement(op, g) && body.indent >= 0
    modifies body
    ensures body.indent == old(body.indent) && r == LeavesAfter(op, g.elements, s)
    ensures body.lines == old(body.lines) + LeavesLines(op, g.elements, Elided(op, f), body.indent, s)
  {
    hide WfLeaf, FlagsAfter, LeafLines, Elided, IsChild, TypesInside;
    r := s;
    var i := 0;
    while i < |g.elements|
      invariant 0 <= i <= |g.elements| && body.indent == old(body.indent)
      invariant r == LeavesAfter(op, g.elements[..i], s)
      invariant body.lines == old(body.lines) + LeavesLines(op, g.elements[..i], Elided(op, f), body.indent, s)
    {
      assert g.elements[..i + 1][..i] == g.elements[..i];
      r := GenLeafPrinter(op, f, g.elements[i], body, r);
      i := i + 1;
    }
    assert g.elements[..|g.elements|] == g.elements;
  }

  /** The whole printer, for every accepted format. */
  method GenPrinter(op: OpInfo, f: Format, body: PythonGenStream)
    requires Sized(op, f) && body.lines == [] && body.indent == 0
    modifies body
    ensures body.lines == PrinterCode(op, f) && body.indent == 0
  {
    hide WfElement, ElementAfter, ElementLines, Elided;
    body.Out(Prints(OpName));
    var s := START;
    var i := 0;
    while i < |f.elements|
      invariant 0 <= i <= |f.elements| && body.indent == 0 && s == ElementsAfter(op, f.elements[..i], START)
      invariant body.lines == [Put(0, Prints(OpName))] + ElementsLines(op, f.elements[..i], Elided(op, f))
    {
      assert f.elements[..i + 1][..i] == f.elements[..i];
      s := GenElementPrinter(op, f, f.elements[i], body, s);
      i := i + 1;
    }
    assert f.elements[..|f.elements|] == f.elements;
  }
}
