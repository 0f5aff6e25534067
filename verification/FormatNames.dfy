/** Which names the generated parser may use: every name must have been assigned on the way, whatever
    branches have been taken, and for every format that is accepted it is said exactly when that is so. */
module FormatNames {
  import opened FormatLexer
  import opened FormatGrammar
  import opened FormatAccepted
  import opened FormatResolve
  import opened FormatCode

  /** The names assigned whatever branches are taken: those assigned outside every block. */
  function Defs(lines: seq<Line>, d: set<PyName>): set<PyName> {
    if lines == [] then d
    else Defs(lines[..|lines| - 1], d) + if lines[|lines| - 1].indent == 0 then lines[|lines| - 1].sets else {}
  }

  /** No line uses a name before it has been assigned. */
  predicate Definite(lines: seq<Line>, d: set<PyName>) {
    if lines == [] then true
    else Definite(lines[..|lines| - 1], d) && lines[|lines| - 1].uses <= Defs(lines[..|lines| - 1], d)
  }

  lemma {:induction false} DefsAppend(a: seq<Line>, b: seq<Line>, d: set<PyName>)
    ensures Defs(a + b, d) == Defs(b, Defs(a, d)) && Definite(a + b, d) == (Definite(a, d) && Definite(b, Defs(a, d)))
    decreases |b|
  {
    if b == [] {
      assert a + b == a;
    } else {
      assert (a + b)[..|a + b| - 1] == a + b[..|b| - 1];
      DefsAppend(a, b[..|b| - 1], d);
    }
  }

  lemma {:induction false} DefsMore(lines: seq<Line>, d: set<PyName>, more: set<PyName>)
    requires d <= more
    ensures d <= Defs(lines, d) <= Defs(lines, more) && (Definite(lines, d) ==> Definite(lines, more))
    decreases |lines|
  {
    if lines != [] {
      DefsMore(lines[..|lines| - 1], d, more);
    }
  }

  predicate Within(lines: seq<Line>, d: set<PyName>) { forall k :: 0 <= k < |lines| ==> lines[k].uses <= d }

  lemma {:induction false} WithinDefinite(lines: seq<Line>, d: set<PyName>)
    requires Within(lines, d)
    ensures Definite(lines, d)
    decreases |lines|
  {
    if lines != [] {
      WithinDefinite(lines[..|lines| - 1], d);
      DefsMore(lines[..|lines| - 1], d, d);
    }
  }

  lemma {:induction false} LineDefines(lines: seq<Line>, d: set<PyName>, l: Line)
    requires l in lines && l.indent == 0
    ensures l.sets <= Defs(lines, d)
    decreases |lines|
  {
    if l != lines[|lines| - 1] {
      LineDefines(lines[..|lines| - 1], d, l);
    }
  }

  lemma {:induction false} LineUses(lines: seq<Line>, d: set<PyName>, l: Line)
    requires l in lines && Definite(lines, d)
    ensures l.uses <= Defs(lines, d)
    decreases |lines|
  {
    if l != lines[|lines| - 1] {
      LineUses(lines[..|lines| - 1], d, l);
    }
  }

  // ----- What the storage pass assigns

  /** The names that belong to what a leaf parses. */
  predicate Provides(op: OpInfo, e: Element, d: set<PyName>)
    requires WfLeaf(op, e)
  {
    match e
    case OperandVar(i) => OperandList(op.operands[i].name) in d && OperandLoc(op.operands[i].name) in d
    case TypeDir(a) => Types(op, a) in d
    case FunctionalType(a, b) => Types(op, a) in d && Types(op, b) in d
    case _ => true
  }

  lemma LeafProvides(op: OpInfo, e: Element, lines: seq<Line>, d: set<PyName>)
    requires WfLeaf(op, e) && forall l :: l in LeafStorage(op, e) ==> l in lines
    ensures Provides(op, e, Defs(lines, d))
  {
    forall l | l in LeafStorage(op, e)
      ensures l.sets <= Defs(lines, d)
    {
      LineDefines(lines, d, l);
    }
    match e {
      case OperandVar(i) =>
        assert LeafStorage(op, e)[0] in LeafStorage(op, e);
        assert LeafStorage(op, e)[1] in LeafStorage(op, e);
      case TypeDir(a) => assert LeafStorage(op, e)[0] in LeafStorage(op, e);
      case FunctionalType(a, b) =>
        assert LeafStorage(op, e)[0] in LeafStorage(op, e);
        assert LeafStorage(op, e)[1] in LeafStorage(op, e);
      case _ =>
    }
  }

  lemma {:induction false} LeafLines(op: OpInfo, es: seq<Element>, e: Element, l: Line)
    requires (forall x :: x in es ==> WfLeaf(op, x)) && e in es && l in LeafStorage(op, e)
    ensures l in LeavesStorage(op, es)
    decreases |es|
  {
    if e != es[|es| - 1] {
      LeafLines(op, es[..|es| - 1], e, l);
    }
  }

  lemma {:induction false} ElementLines(op: OpInfo, es: seq<Element>, e: Element, l: Line)
    requires (forall x :: x in es ==> WfElement(op, x)) && e in es && l in Storage(op, e)
    ensures l in ElementsStorage(op, es)
    decreases |es|
  {
    if e != es[|es| - 1] {
      ElementLines(op, es[..|es| - 1], e, l);
    }
  }

  lemma {:induction false} FlatHas(es: seq<Element>, e: Element) returns (x: Element)
    requires e in Flat(es)
    ensures x in es && e in Leaves(x)
    decreases |es|
  {
    x := es[|es| - 1];
    if e !in Leaves(x) {
      x := FlatHas(es[..|es| - 1], e);
    }
  }

  lemma {:induction false} InFlat(es: seq<Element>, x: Element, e: Element)
    requires x in es && e in Leaves(x)
    ensures e in Flat(es)
    decreases |es|
  {
    if x != es[|es| - 1] {
      InFlat(es[..|es| - 1], x, e);
    }
  }

  predicate AllWf(op: OpInfo, es: seq<Element>) { forall e :: e in es ==> WfElement(op, e) }

  lemma FlatWf(op: OpInfo, es: seq<Element>, e: Element)
    requires AllWf(op, es) && e in Flat(es)
    ensures WfLeaf(op, e)
  {
    var x := FlatHas(es, e);
    assert WfElement(op, x);
  }

  /** After the storage pass, the names of everything that is parsed are assigned. */
  predicate Stored(op: OpInfo, es: seq<Element>, d: set<PyName>)
    requires AllWf(op, es)
  {
    forall e :: e in Flat(es) ==> WfLeaf(op, e) && Provides(op, e, d)
  }

  lemma StoragePass(op: OpInfo, es: seq<Element>)
    requires AllWf(op, es)
    ensures Definite(ElementsStorage(op, es), {}) && Stored(op, es, Defs(ElementsStorage(op, es), {}))
  {
    var lines := ElementsStorage(op, es);
    StorageUses(op, es);
    WithinDefinite(lines, {});
    forall e | e in Flat(es)
      ensures WfLeaf(op, e) && Provides(op, e, Defs(lines, {}))
    {
      FlatWf(op, es, e);
      var x := FlatHas(es, e);
      forall l | l in LeafStorage(op, e)
        ensures l in lines
      {
        if x.Opt? {
          LeafLines(op, x.elements, e, l);
        }
        ElementLines(op, es, x, l);
      }
      LeafProvides(op, e, lines, {});
    }
  }

  lemma {:induction false} LeavesStorageUses(op: OpInfo, es: seq<Element>)
    requires forall e :: e in es ==> WfLeaf(op, e)
    ensures Within(LeavesStorage(op, es), {})
    decreases |es|
  {
    if es != [] {
      assert es[|es| - 1] in es;
      LeavesStorageUses(op, es[..|es| - 1]);
    }
  }

  lemma {:induction false} StorageUses(op: OpInfo, es: seq<Element>)
    requires AllWf(op, es)
    ensures Within(ElementsStorage(op, es), {})
    decreases |es|
  {
    if es != [] {
      var e := es[|es| - 1];
      assert e in es;
      StorageUses(op, es[..|es| - 1]);
      if e.Opt? {
        LeavesStorageUses(op, e.elements);
      }
    }
  }

  // ----- What the element parsers use

  /** A list of successors is appended to that nothing has assigned. */
  predicate ListsSuccessors(op: OpInfo, e: Element) {
    e.AllSuccessors? || (e.SuccessorVar? && e.successor < |op.successors| && op.successors[e.successor].variadic)
  }

  lemma LeafUses(op: OpInfo, e: Element, indent: nat, d: set<PyName>)
    requires WfLeaf(op, e) && Provides(op, e, d) && !ListsSuccessors(op, e) && !e.RegionVar?
    ensures Within(LeafParser(op, e, indent), d)
  {
  }

  lemma RegionUses(op: OpInfo, e: Element, d: set<PyName>)
    requires WfLeaf(op, e) && e.RegionVar?
    ensures Definite(LeafParser(op, e, 0), d)
  {
    var name := RegionName(op.regions[e.region].name);
    var first := [Plain(0, {}, {name})];
    var rest := Guard(0, {name});
    WithinDefinite(first, d);
    assert first[..0] == [];
    assert name in Defs(first, d);
    WithinDefinite(rest, Defs(first, d));
    DefsAppend(first, rest, d);
  }

  lemma {:induction false} LeavesUse(op: OpInfo, es: seq<Element>, indent: nat, d: set<PyName>)
    requires forall e :: e in es ==> WfLeaf(op, e) && Provides(op, e, d) && IsChild(op, e, false)
    ensures Within(LeavesParser(op, es, indent), d)
    decreases |es|
  {
    if es != [] {
      var e := es[|es| - 1];
      assert e in es;
      LeavesUse(op, es[..|es| - 1], indent, d);
      LeafUses(op, e, indent, d);
    }
  }

  lemma ElementUses(op: OpInfo, e: Element, d: set<PyName>)
    requires WfElement(op, e) && (forall l :: l in Leaves(e) ==> WfLeaf(op, l) && Provides(op, l, d))
             && !ListsSuccessors(op, e)
    ensures Definite(ElementParser(op, e, 0), d)
  {
    if e.Opt? {
      var es := e.elements;
      assert es[0] in Leaves(e);
      assert forall x :: x in es[1..] ==> x in es && x in Leaves(e);
      LeavesUse(op, es[1..], 4, d);
      WithinDefinite(ElementParser(op, e, 0), d);
    } else if e.RegionVar? {
      RegionUses(op, e, d);
    } else {
      assert e in Leaves(e);
      LeafUses(op, e, 0, d);
      WithinDefinite(ElementParser(op, e, 0), d);
    }
  }

  lemma {:induction false} ElementsUse(op: OpInfo, es: seq<Element>, d: set<PyName>)
    requires AllWf(op, es) && (forall l :: l in Flat(es) ==> WfLeaf(op, l) && Provides(op, l, d))
    requires forall e :: e in es ==> !ListsSuccessors(op, e)
    ensures Definite(ElementsParser(op, es), d)
    decreases |es|
  {
    if es != [] {
      var e := es[|es| - 1];
      var init := es[..|es| - 1];
      assert e in es;
      ElementsUse(op, init, d);
      ElementUses(op, e, d);
      DefsMore(ElementsParser(op, init), d, d);
      DefsMore(ElementParser(op, e, 0), d, Defs(ElementsParser(op, init), d));
      DefsAppend(ElementsParser(op, init), ElementParser(op, e, 0), d);
    }
  }

  lemma {:induction false} ParserLines(op: OpInfo, es: seq<Element>, e: Element, l: Line)
    requires AllWf(op, es) && e in es && l in ElementParser(op, e, 0)
    ensures l in ElementsParser(op, es)
    decreases |es|
  {
    if e != es[|es| - 1] {
      ParserLines(op, es[..|es| - 1], e, l);
    }
  }

  // ----- What the resolution uses

  /** Everything the resolution may read has been assigned by the storage pass and the element parsers. */
  ghost predicate Ready(op: OpInfo, f: Format, d: set<PyName>) {
    && AllWf(op, f.elements) && Stored(op, f.elements, d)
    && (forall i :: 0 <= i < |op.successors| && SuccessorVar(i) in Flat(f.elements) && !op.successors[i].variadic
          ==> SuccessorName(op.successors[i].name) in d)
    && (AllOperands in f.elements ==> AllOperandLoc in d && OperandList("all") in d)
  }

  lemma ReadyMore(op: OpInfo, f: Format, d: set<PyName>, more: set<PyName>)
    requires Ready(op, f, d) && d <= more
    ensures Ready(op, f, more)
  {
    forall e | e in Flat(f.elements)
      ensures WfLeaf(op, e) && Provides(op, e, more)
    {
      assert Provides(op, e, d);
    }
  }

  /** A leaf that cannot stand in a group stands at the top level. */
  lemma AtTop(op: OpInfo, es: seq<Element>, e: Element)
    requires AllWf(op, es) && e in Flat(es) && (e.SuccessorVar? || e.AllSuccessors? || e.AllOperands?)
    ensures e in es
  {
    var x := FlatHas(es, e);
    assert WfElement(op, x);
  }

  lemma PassesReady(op: OpInfo, f: Format, d: set<PyName>)
    requires AllWf(op, f.elements) && Stored(op, f.elements, d)
    ensures Ready(op, f, Defs(ElementsParser(op, f.elements), d))
  {
    var lines := ElementsParser(op, f.elements);
    var more := Defs(lines, d);
    DefsMore(lines, d, d);
    forall e | e in Flat(f.elements)
      ensures WfLeaf(op, e) && Provides(op, e, more)
    {
      assert Provides(op, e, d);
    }
    forall i | 0 <= i < |op.successors| && SuccessorVar(i) in Flat(f.elements) && !op.successors[i].variadic
      ensures SuccessorName(op.successors[i].name) in more
    {
      var e := SuccessorVar(i);
      AtTop(op, f.elements, e);
      var l := LeafParser(op, e, 0)[0];
      assert l in ElementParser(op, e, 0);
      ParserLines(op, f.elements, e, l);
      LineDefines(lines, d, l);
    }
    if AllOperands in f.elements {
      var code := ElementParser(op, AllOperands, 0);
      assert code[0] in code && code[1] in code;
      ParserLines(op, f.elements, AllOperands, code[0]);
      ParserLines(op, f.elements, AllOperands, code[1]);
      LineDefines(lines, d, code[0]);
      LineDefines(lines, d, code[1]);
    }
  }

  lemma {:induction false} TableDefines(n: nat, d: set<PyName>)
    ensures Definite(TableLines(n), d) && forall k :: 0 <= k < n ==> BuiltType(k) in Defs(TableLines(n), d)
    ensures d <= Defs(TableLines(n), d)
    decreases n
  {
    if n > 0 {
      TableDefines(n - 1, d);
      assert TableLines(n)[..|TableLines(n)| - 1] == TableLines(n - 1);
    }
  }

  predicate HasTable(f: Format, d: set<PyName>) { forall k :: 0 <= k < |f.table| ==> BuiltType(k) in d }

  lemma ArgStored(op: OpInfo, es: seq<Element>, d: set<PyName>, a: Element)
    requires AllWf(op, es) && Stored(op, es, d) && a in ArgsOf(Flat(es))
    ensures IsTypeArg(op, a) && Types(op, a) in d
  {
    var l :| l in Flat(es) && a in Args(l);
    assert Provides(op, l, d);
  }

  /** The source of a type names a list that is parsed, or an entry of the table. */
  lemma SourceReady(op: OpInfo, f: Format, d: set<PyName>, own: Element, s: Source, builder: Option<string>)
    requires Sound(op, f) && Ready(op, f, d) && HasTable(f, d) && IsTypeArg(op, own)
    requires SourceOk(op, ArgsOf(Flat(f.elements)), own in ArgsOf(Flat(f.elements)), builder, f.table, s)
    ensures ResolverName(op, s, TypeListName(op, own)) in d
  {
    var args := ArgsOf(Flat(f.elements));
    match s {
      case OwnList => ArgStored(op, f.elements, d, own);
      case SameAs(OperandRef(i)) => ArgStored(op, f.elements, d, OperandVar(i));
      case SameAs(ResultRef(i)) => ArgStored(op, f.elements, d, ResultVar(i));
      case Built(_) =>
    }
  }

  lemma {:induction false} ResultsUse(op: OpInfo, f: Format, d: set<PyName>, n: nat)
    requires Sound(op, f) && Ready(op, f, d) && HasTable(f, d) && !f.allResultTypes && n <= |op.results|
    ensures Within(ResultLines(op, f, n), d)
    decreases n
  {
    if n > 0 {
      hide Ready, Within, HasTable;
      ResultsUse(op, f, d, n - 1);
      var own := ResultVar(n - 1);
      SourceReady(op, f, d, own, f.resultTypes[n - 1], op.results[n - 1].builder);
      WithinOne(ResultLines(op, f, n - 1), ResultLines(op, f, n)[|ResultLines(op, f, n - 1)|], d);
    }
  }

  lemma WithinOne(lines: seq<Line>, l: Line, d: set<PyName>)
    requires Within(lines, d) && l.uses <= d
    ensures Within(lines + [l], d)
  {
  }

  /** The type source of every operand can be read. */
  predicate SourcesReady(op: OpInfo, f: Format, d: set<PyName>)
    requires |op.operands| == |f.operandTypes|
  {
    forall i :: 0 <= i < |op.operands| ==> ResolverName(op, f.operandTypes[i], op.operands[i].name) in d
  }

  lemma OperandSources(op: OpInfo, f: Format, d: set<PyName>)
    requires Sound(op, f) && Ready(op, f, d) && HasTable(f, d) && !f.allOperandTypes
    ensures SourcesReady(op, f, d)
  {
    forall i | 0 <= i < |op.operands|
      ensures ResolverName(op, f.operandTypes[i], op.operands[i].name) in d
    {
      hide Ready, HasTable, ResolverName;
      SourceReady(op, f, d, OperandVar(i), f.operandTypes[i], op.operands[i].builder);
    }
  }

  lemma {:induction false} TypesUse(op: OpInfo, f: Format, d: set<PyName>, n: nat)
    requires |op.operands| == |f.operandTypes| && n <= |op.operands| && SourcesReady(op, f, d)
    ensures Within(TypeLists(op, f, n), d)
    decreases n
  {
    hide ResolverName;
    if n > 0 {
      TypesUse(op, f, d, n - 1);
    }
  }

  lemma {:induction false} OperandLinesUse(op: OpInfo, f: Format, d: set<PyName>, n: nat)
    requires |op.operands| == |f.operandTypes| && n <= |op.operands| && SourcesReady(op, f, d)
    requires forall i :: 0 <= i < n ==> OperandList(op.operands[i].name) in d && OperandLoc(op.operands[i].name) in d
    ensures Within(OperandLines(op, f, n), d)
    decreases n
  {
    hide ResolverName;
    if n > 0 {
      OperandLinesUse(op, f, d, n - 1);
    }
  }

  lemma OwnStored(op: OpInfo, f: Format, d: set<PyName>, i: nat)
    requires Ready(op, f, d) && OperandVar(i) in Flat(f.elements) && i < |op.operands|
    ensures OperandList(op.operands[i].name) in d && OperandLoc(op.operands[i].name) in d
  {
    assert Provides(op, OperandVar(i), d);
  }

  lemma {:induction false} ListsUse(op: OpInfo, f: Format, d: set<PyName>, n: nat)
    requires Ready(op, f, d) && n <= |op.operands| && forall i :: 0 <= i < n ==> OperandVar(i) in Flat(f.elements)
    ensures Within(OperandLists(op, n), d)
    decreases n
  {
    if n > 0 {
      ListsUse(op, f, d, n - 1);
      OwnStored(op, f, d, n - 1);
    }
  }

  lemma {:induction false} SuccessorsUse(op: OpInfo, f: Format, d: set<PyName>, n: nat)
    requires Ready(op, f, d) && n <= |op.successors|
    requires forall i :: 0 <= i < n ==> SuccessorVar(i) in Flat(f.elements) && !op.successors[i].variadic
    ensures Within(SuccessorReads(op, n), d)
    decreases n
  {
    if n > 0 {
      SuccessorsUse(op, f, d, n - 1);
      assert SuccessorVar(n - 1) in Flat(f.elements);
    }
  }

  /** Asking for the types of all operands at once also counts as having seen the operands. */
  ghost predicate OperandsParsed(op: OpInfo, f: Format) {
    f.allOperandTypes && !f.allOperands ==> forall i :: 0 <= i < |op.operands| ==> OperandVar(i) in Flat(f.elements)
  }

  /** To be checked on the format alone. */
  ghost predicate Clean(op: OpInfo, f: Format) {
    OperandsParsed(op, f) && forall e :: e in f.elements ==> !ListsSuccessors(op, e)
  }

  lemma OperandsSeen(op: OpInfo, f: Format)
    requires Sound(op, f) && OperandsParsed(op, f) && !f.allOperands
    ensures forall i :: 0 <= i < |op.operands| ==> OperandVar(i) in Flat(f.elements)
  {
    if AllOperands in Flat(f.elements) {
      AtTop(op, f.elements, AllOperands);
    }
  }

  lemma OperandsUse(op: OpInfo, f: Format, d: set<PyName>)
    requires Sound(op, f) && OperandsParsed(op, f) && Ready(op, f, d) && HasTable(f, d)
    ensures Within(OperandResolution(op, f), d)
  {
    if |op.operands| > 0 {
      if f.allOperandTypes {
        ArgStored(op, f.elements, d, AllOperands);
        if !f.allOperands {
          OperandsSeen(op, f);
          ListsUse(op, f, d, |op.operands|);
        }
      } else {
        OperandSources(op, f, d);
        hide SourcesReady, Ready, HasTable;
        TypesUse(op, f, d, |op.operands|);
        if !f.allOperands {
          OperandsSeen(op, f);
          forall i | 0 <= i < |op.operands|
            ensures OperandList(op.operands[i].name) in d && OperandLoc(op.operands[i].name) in d
          {
            OwnStored(op, f, d, i);
          }
          OperandLinesUse(op, f, d, |op.operands|);
        }
      }
    }
  }

  lemma SegmentsUse(op: OpInfo, f: Format, d: set<PyName>)
    requires Sound(op, f) && OperandsParsed(op, f) && Ready(op, f, d)
    ensures Within(SegmentLines(op, f), d)
  {
    if !f.allOperands && op.sizedOperands {
      OperandsSeen(op, f);
      forall i | 0 <= i < |op.operands| && op.operands[i].variadic
        ensures OperandList(op.operands[i].name) in d
      {
        OwnStored(op, f, d, i);
      }
    }
  }

  lemma SuccessorResolutionUses(op: OpInfo, f: Format, d: set<PyName>)
    requires Sound(op, f) && Ready(op, f, d) && forall e :: e in f.elements ==> !ListsSuccessors(op, e)
    ensures Within(SuccessorResolution(op, f), d)
  {
    if AllSuccessors in Flat(f.elements) {
      AtTop(op, f.elements, AllSuccessors);
    }
    forall i | 0 <= i < |op.successors|
      ensures SuccessorVar(i) in Flat(f.elements) && !op.successors[i].variadic
    {
      AtTop(op, f.elements, SuccessorVar(i));
    }
    SuccessorsUse(op, f, d, |op.successors|);
  }

  lemma ResolutionUses(op: OpInfo, f: Format, d: set<PyName>)
    requires Sound(op, f) && Clean(op, f) && Ready(op, f, d)
    ensures Definite(Resolution(op, f), d)
  {
    var table := TableLines(|f.table|);
    var more := Defs(table, d);
    TableDefines(|f.table|, d);
    ReadyMore(op, f, d, more);
    RestUses(op, f, more);
    hide Ready, Sound, Clean, TableLines, AfterTable;
    WithinDefinite(AfterTable(op, f), more);
    DefsAppend(table, AfterTable(op, f), d);
    TableFirst(op, f);
  }

  function AfterTable(op: OpInfo, f: Format): seq<Line>
    requires |op.results| == |f.resultTypes| && |op.operands| == |f.operandTypes|
  {
    (if f.allResultTypes then [Plain(0, {TypeList("allResult")}, {})] else ResultLines(op, f, |op.results|))
    + OperandResolution(op, f) + SuccessorResolution(op, f) + SegmentLines(op, f) + [Plain(0, {}, {})]
  }

  lemma TableFirst(op: OpInfo, f: Format)
    requires |op.results| == |f.resultTypes| && |op.operands| == |f.operandTypes|
    ensures Resolution(op, f) == TableLines(|f.table|) + AfterTable(op, f)
  {
    hide TableLines, ResultLines, OperandResolution, SuccessorResolution, SegmentLines;
  }

  lemma RestUses(op: OpInfo, f: Format, d: set<PyName>)
    requires Sound(op, f) && Clean(op, f) && Ready(op, f, d) && HasTable(f, d)
    ensures Within(AfterTable(op, f), d)
  {
    var results := if f.allResultTypes then [Plain(0, {TypeList("allResult")}, {})]
        else ResultLines(op, f, |op.results|);
    if f.allResultTypes {
      ArgStored(op, f.elements, d, AllResults);
    } else {
      ResultsUse(op, f, d, |op.results|);
    }
    OperandsUse(op, f, d);
    SuccessorResolutionUses(op, f, d);
    SegmentsUse(op, f, d);
    hide ResultLines, OperandResolution, SuccessorResolution, SegmentLines, Ready, Sound, Clean;
    WithinBoth(results, OperandResolution(op, f), d);
    WithinBoth(results + OperandResolution(op, f), SuccessorResolution(op, f), d);
    WithinBoth(results + OperandResolution(op, f) + SuccessorResolution(op, f), SegmentLines(op, f), d);
  }

  lemma WithinBoth(a: seq<Line>, b: seq<Line>, d: set<PyName>)
    requires Within(a, d) && Within(b, d)
    ensures Within(a + b, d)
  {
  }

  lemma CleanIsDefinite(op: OpInfo, f: Format)
    requires Sound(op, f) && Clean(op, f)
    ensures Definite(ParserCode(op, f), {})
  {
    var storage, elements := ElementsStorage(op, f.elements), ElementsParser(op, f.elements);
    StoragePass(op, f.elements);
    var d := Defs(storage, {});
    ElementsUse(op, f.elements, d);
    PassesReady(op, f, d);
    ResolutionUses(op, f, Defs(elements, d));
    hide ElementsStorage, ElementsParser, Resolution, Ready, Sound, Clean;
    DefsAppend(storage, elements, {});
    DefsAppend(storage + elements, Resolution(op, f), {});
  }

  // ----- Where the condition fails, a name is used that no line assigns

  /** The names any line of the parser can assign, of those in question. */
  ghost predicate Settable(op: OpInfo, f: Format, n: PyName) {
    match n
    case SuccessorList(_) => false
    case OperandList(s) =>
      (s == "all" && AllOperands in f.elements)
      || exists i :: 0 <= i < |op.operands| && op.operands[i].name == s && OperandVar(i) in Flat(f.elements)
    case _ => true
  }

  ghost predicate OnlySets(op: OpInfo, f: Format, lines: seq<Line>) {
    forall l, n :: l in lines && n in l.sets ==> Settable(op, f, n)
  }

  lemma {:induction false} DefsSettable(op: OpInfo, f: Format, lines: seq<Line>)
    requires OnlySets(op, f, lines)
    ensures forall n :: n in Defs(lines, {}) ==> Settable(op, f, n)
    decreases |lines|
  {
    if lines != [] {
      assert lines[|lines| - 1] in lines;
      DefsSettable(op, f, lines[..|lines| - 1]);
    }
  }

  lemma LeafSets(op: OpInfo, f: Format, e: Element, indent: nat)
    requires WfLeaf(op, e) && e in Flat(f.elements) && (e.AllOperands? ==> AllOperands in f.elements)
    ensures OnlySets(op, f, LeafStorage(op, e)) && OnlySets(op, f, LeafParser(op, e, indent))
  {
    forall n: PyName | n.OperandList? && e.OperandVar? && n.of == op.operands[e.operand].name
      ensures Settable(op, f, n)
    {
      assert OperandVar(e.operand) in Flat(f.elements);
    }
    hide Settable, WfLeaf, Flat;
    assert Settable(op, f, AllOperandLoc) && (AllOperands in f.elements ==> Settable(op, f, OperandList("all"))) by {
      NotLists(op, f);
    }
    NotLists(op, f);
    LeafSetNames(op, e, indent);
  }

  lemma NotLists(op: OpInfo, f: Format)
    ensures forall n: PyName :: !n.OperandList? && !n.SuccessorList? ==> Settable(op, f, n)
    ensures AllOperands in f.elements ==> Settable(op, f, OperandList("all"))
  {
  }

  /** Neither a list of successors, nor a list of operands other than the element's own. */
  predicate OwnLists(op: OpInfo, e: Element, lines: seq<Line>)
    requires WfLeaf(op, e)
  {
    forall l, n :: l in lines && n in l.sets ==>
      && !n.SuccessorList?
      && (n.OperandList? ==>
            (e.OperandVar? && n.of == op.operands[e.operand].name) || (e.AllOperands? && n.of == "all"))
  }

  /** A leaf assigns the list of its own operand, or of all operands, and no list of successors. */
  lemma LeafSetNames(op: OpInfo, e: Element, indent: nat)
    requires WfLeaf(op, e)
    ensures OwnLists(op, e, LeafStorage(op, e)) && OwnLists(op, e, LeafParser(op, e, indent))
  {
    StorageOwn(op, e);
    if e.AllSuccessors? || e.SuccessorVar? {
      SuccessorsOwn(op, e, indent);
    } else {
      ParserOwn(op, e, indent);
    }
  }

  lemma StorageOwn(op: OpInfo, e: Element)
    requires WfLeaf(op, e)
    ensures OwnLists(op, e, LeafStorage(op, e))
  {
  }

  lemma SuccessorsOwn(op: OpInfo, e: Element, indent: nat)
    requires WfLeaf(op, e) && (e.AllSuccessors? || e.SuccessorVar?)
    ensures OwnLists(op, e, LeafParser(op, e, indent))
  {
    SuccessorLinesSet(indent, if e.AllSuccessors? then "full" else op.successors[e.successor].name);
    hide SuccessorLines;
  }

  lemma ParserOwn(op: OpInfo, e: Element, indent: nat)
    requires WfLeaf(op, e) && !e.AllSuccessors? && !e.SuccessorVar?
    ensures OwnLists(op, e, LeafParser(op, e, indent))
  {
  }

  lemma SuccessorLinesSet(indent: nat, name: string)
    ensures forall l :: l in SuccessorLines(indent, name) ==> l.sets == {}
  {
  }

  lemma {:induction false} LeavesSet(op: OpInfo, f: Format, es: seq<Element>, indent: nat)
    requires forall e :: e in es ==> WfLeaf(op, e) && e in Flat(f.elements) && !e.AllOperands?
    ensures OnlySets(op, f, LeavesStorage(op, es)) && OnlySets(op, f, LeavesParser(op, es, indent))
    decreases |es|
  {
    if es != [] {
      var e := es[|es| - 1];
      assert e in es;
      LeavesSet(op, f, es[..|es| - 1], indent);
      LeafSets(op, f, e, indent);
      hide LeafStorage, LeafParser, Settable;
    }
  }

  lemma ElementSets(op: OpInfo, f: Format, e: Element)
    requires AllWf(op, f.elements) && e in f.elements && WfElement(op, e)
    ensures OnlySets(op, f, Storage(op, e)) && OnlySets(op, f, ElementParser(op, e, 0))
  {
    forall l | l in Leaves(e)
      ensures l in Flat(f.elements)
    {
      InFlat(f.elements, e, l);
    }
    if e.Opt? {
      assert forall x :: x in e.elements ==> x in Leaves(e);
      LeavesSet(op, f, e.elements, 0);
      LeavesSet(op, f, e.elements[1..], 4);
    } else {
      assert e in Leaves(e);
      LeafSets(op, f, e, 0);
    }
  }

  lemma {:induction false} ElementsSet(op: OpInfo, f: Format, es: seq<Element>)
    requires AllWf(op, f.elements) && AllWf(op, es) && forall e :: e in es ==> e in f.elements
    ensures OnlySets(op, f, ElementsStorage(op, es)) && OnlySets(op, f, ElementsParser(op, es))
    decreases |es|
  {
    if es != [] {
      var e := es[|es| - 1];
      assert e in es;
      ElementsSet(op, f, es[..|es| - 1]);
      ElementSets(op, f, e);
      hide Storage, ElementParser, Settable, WfElement;
    }
  }

  /** Lines that assign at most entries of the table. */
  predicate SetsTable(lines: seq<Line>) { forall l, n :: l in lines && n in l.sets ==> n.BuiltType? }

  lemma {:induction false} TableSets(n: nat)
    ensures SetsTable(TableLines(n))
  {
    if n > 0 {
      TableSets(n - 1);
    }
  }

  lemma {:induction false} ListsSet(op: OpInfo, f: Format, n: nat)
    requires |op.results| == |f.resultTypes| && |op.operands| == |f.operandTypes|
    ensures n <= |op.results| ==> SetsTable(ResultLines(op, f, n))
    ensures n <= |op.successors| ==> SetsTable(SuccessorReads(op, n))
    decreases n
  {
    if n > 0 {
      ListsSet(op, f, n - 1);
    }
  }

  lemma {:induction false} OperandsSet(op: OpInfo, f: Format, n: nat)
    requires n <= |op.operands| == |f.operandTypes|
    ensures SetsTable(OperandLines(op, f, n)) && SetsTable(OperandLists(op, n)) && SetsTable(TypeLists(op, f, n))
    decreases n
  {
    if n > 0 {
      OperandsSet(op, f, n - 1);
    }
  }

  lemma SetsAppend(a: seq<Line>, b: seq<Line>)
    requires SetsTable(a) && SetsTable(b)
    ensures SetsTable(a + b)
  {
  }

  lemma ResolutionSets(op: OpInfo, f: Format)
    requires |op.results| == |f.resultTypes| && |op.operands| == |f.operandTypes|
    ensures SetsTable(Resolution(op, f))
  {
    TypesSet(op, f);
    ListsSet(op, f, |op.successors|);
    assert SetsTable(SuccessorResolution(op, f)) && SetsTable(SegmentLines(op, f)) && SetsTable([Plain(0, {}, {})]);
    hide SetsTable, TypeResolution, SuccessorResolution, SegmentLines;
    SetsAppend(TypeResolution(op, f), SuccessorResolution(op, f));
    SetsAppend(TypeResolution(op, f) + SuccessorResolution(op, f), SegmentLines(op, f));
    SetsAppend(TypeResolution(op, f) + SuccessorResolution(op, f) + SegmentLines(op, f), [Plain(0, {}, {})]);
  }

  lemma TypesSet(op: OpInfo, f: Format)
    requires |op.results| == |f.resultTypes| && |op.operands| == |f.operandTypes|
    ensures SetsTable(TypeResolution(op, f))
  {
    TableSets(|f.table|);
    ListsSet(op, f, |op.results|);
    OperandResolutionSets(op, f);
    var results := if f.allResultTypes then [Plain(0, {TypeList("allResult")}, {})]
        else ResultLines(op, f, |op.results|);
    assert SetsTable(results);
    hide SetsTable, TableLines, ResultLines, OperandResolution;
    SetsAppend(TableLines(|f.table|), results);
    SetsAppend(TableLines(|f.table|) + results, OperandResolution(op, f));
  }

  lemma OperandResolutionSets(op: OpInfo, f: Format)
    requires |op.operands| == |f.operandTypes|
    ensures SetsTable(OperandResolution(op, f))
  {
    OperandsSet(op, f, |op.operands|);
    hide OperandLines, OperandLists, TypeLists;
  }

  lemma TableIsSettable(op: OpInfo, f: Format, lines: seq<Line>)
    requires SetsTable(lines)
    ensures OnlySets(op, f, lines)
  {
    forall l, n | l in lines && n in l.sets
      ensures Settable(op, f, n)
    {
      assert n.BuiltType?;
    }
  }

  lemma CodeSets(op: OpInfo, f: Format)
    requires Sized(op, f)
    ensures OnlySets(op, f, ParserCode(op, f))
  {
    ElementsSet(op, f, f.elements);
    ResolutionSets(op, f);
    TableIsSettable(op, f, Resolution(op, f));
    hide ElementsStorage, ElementsParser, Resolution, Settable;
  }

  /** Some line uses the name. */
  predicate Used(lines: seq<Line>, n: PyName) { exists l :: l in lines && n in l.uses }

  lemma UsedUnset(op: OpInfo, f: Format, n: PyName)
    requires Sized(op, f) && Used(ParserCode(op, f), n) && !Settable(op, f, n)
    ensures !Definite(ParserCode(op, f), {})
  {
    var code := ParserCode(op, f);
    CodeSets(op, f);
    DefsSettable(op, f, code);
    if Definite(code, {}) {
      var l :| l in code && n in l.uses;
      LineUses(code, {}, l);
    }
  }

  lemma SuccessorsUsed(op: OpInfo, f: Format, e: Element)
    requires Sized(op, f) && e in f.elements && ListsSuccessors(op, e)
    ensures exists name :: Used(ParserCode(op, f), SuccessorList(name))
  {
    assert WfElement(op, e);
    var name := if e.AllSuccessors? then "full" else op.successors[e.successor].name;
    var lines := SuccessorLines(0, name);
    var l := lines[|lines| - 1];
    assert l in ElementParser(op, e, 0) && SuccessorList(name) in l.uses;
    ParserLines(op, f.elements, e, l);
    assert l in ParserCode(op, f);
  }

  lemma {:induction false} ListUsed(op: OpInfo, n: nat, i: nat)
    requires i < n <= |op.operands|
    ensures Used(OperandLists(op, n), OperandList(op.operands[i].name))
    decreases n
  {
    if i < n - 1 {
      ListUsed(op, n - 1, i);
      var l :| l in OperandLists(op, n - 1) && OperandList(op.operands[i].name) in l.uses;
      assert l in OperandLists(op, n);
    } else {
      var lines := OperandLists(op, n);
      assert lines[|lines| - 1] in lines;
    }
  }

  lemma OperandsUsed(op: OpInfo, f: Format, i: nat)
    requires Sized(op, f) && f.allOperandTypes && !f.allOperands && i < |op.operands|
    ensures Used(ParserCode(op, f), OperandList(op.operands[i].name))
  {
    ListUsed(op, |op.operands|, i);
    var l :| l in OperandLists(op, |op.operands|) && OperandList(op.operands[i].name) in l.uses;
    assert l in OperandResolution(op, f);
    hide OperandResolution, TableLines, ResultLines, SuccessorResolution, SegmentLines, ElementsStorage, ElementsParser;
    assert l in TypeResolution(op, f);
    assert l in Resolution(op, f);
  }

  predicate UniqueNames(vs: seq<ValueInfo>) { forall i, j :: 0 <= i < j < |vs| ==> vs[i].name != vs[j].name }

  /** For every accepted format of an op with unique operand names: each name the generated parser
      uses has been assigned before exactly when the condition holds. */
  lemma NamesExact(op: OpInfo, f: Format)
    requires Sound(op, f) && UniqueNames(op.operands)
    ensures Definite(ParserCode(op, f), {}) <==> Clean(op, f)
  {
    if Clean(op, f) {
      CleanIsDefinite(op, f);
    } else {
      SoundIsSized(op, f);
      Unassigned(op, f);
    }
  }

  lemma Unassigned(op: OpInfo, f: Format)
    requires Sized(op, f) && f.allOperands == (AllOperands in f.elements) && !Clean(op, f) && UniqueNames(op.operands)
    ensures !Definite(ParserCode(op, f), {})
  {
    hide ParserCode, ListsSuccessors, Definite, WfElement;
    if exists e :: e in f.elements && ListsSuccessors(op, e) {
      var e :| e in f.elements && ListsSuccessors(op, e);
      SuccessorsUsed(op, f, e);
      var name :| Used(ParserCode(op, f), SuccessorList(name));
      UsedUnset(op, f, SuccessorList(name));
    } else {
      var i :| 0 <= i < |op.operands| && OperandVar(i) !in Flat(f.elements);
      hide Flat, Used;
      OperandsUsed(op, f, i);
      UsedUnset(op, f, OperandList(op.operands[i].name));
    }
  }

  lemma SoundIsSized(op: OpInfo, f: Format)
    requires Sound(op, f)
    ensures Sized(op, f)
  {
  }
}
