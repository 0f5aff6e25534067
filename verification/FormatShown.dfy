/** What a generated printer prints of a concrete op. */
module FormatShown {
  // The lines of the printer are run on an op, with the calls they make to it, and print what each
  // element of the format denotes: the element says it, the pieces and lines do not.

  import opened FormatLexer
  import opened FormatGrammar
  import opened FormatAccepted
  import opened FormatSpelling
  import opened FormatResolve
  import opened FormatSpacing
  import opened FormatCode
  import opened FormatPrinter
  import opened FormatPrinted
  import opened FormatExact

  // ----- Concrete ops

  datatype Value = Value(id: nat, ty: nat)

  datatype Body = Body(id: nat, blocks: nat)

  /** The values and successors of an op are in groups, one for each that is declared. */
  datatype Instance = Instance(operands: seq<seq<Value>>, results: seq<seq<Value>>, attrs: map<string, nat>,
                               successors: seq<seq<nat>>, regions: seq<Body>)

  predicate Single(group: seq<Value>) { |group| == 1 }

  predicate Matches(op: OpInfo, x: Instance) {
    && |x.operands| == |op.operands| && |x.results| == |op.results|
    && |x.successors| == |op.successors| && |x.regions| == |op.regions|
    && (forall i :: 0 <= i < |op.operands| ==> op.operands[i].variadic || Single(x.operands[i]))
    && (forall i :: 0 <= i < |op.results| ==> op.results[i].variadic || Single(x.results[i]))
    && (forall i :: 0 <= i < |op.successors| ==> op.successors[i].variadic || |x.successors[i]| == 1)
  }

  function Join<T>(groups: seq<seq<T>>): seq<T> { if groups == [] then [] else groups[0] + Join(groups[1..]) }

  function Ids(vs: seq<Value>): seq<nat> { seq(|vs|, i requires 0 <= i < |vs| => vs[i].id) }

  function Tys(vs: seq<Value>): seq<nat> { seq(|vs|, i requires 0 <= i < |vs| => vs[i].ty) }

  function AttrOf(x: Instance, name: string): Option<nat> { if name in x.attrs then Some(x.attrs[name]) else None }

  /** What appears in the output. */
  datatype Shown =
    | NameShown | BlankShown
    | TextShown(text: string)
    | AttrShown(value: Option<nat>, typed: bool)
    | ValuesShown(ids: seq<nat>) | SuccessorsShown(blocks: seq<nat>)
    | TypesShown(tys: seq<nat>) | FunctionShown(inputs: seq<nat>, results: seq<nat>)
    | SymbolShown(symbol: Option<nat>)
    | OpenShown | ArgsShown(of: Body) | CloseShown | RegionShown(region: Body)
    | DictShown(keyword: bool, attrs: map<string, nat>)

  // ----- What elements denote

  function TypesDenoted(x: Instance, a: Element): seq<nat> {
    match a
    case AllOperands => Tys(Join(x.operands))
    case AllResults => Tys(Join(x.results))
    case OperandVar(i) => if i < |x.operands| then Tys(x.operands[i]) else []
    case ResultVar(i) => if i < |x.results| then Tys(x.results[i]) else []
    case _ => []
  }

  /** The dictionary holds the attributes that no element prints, but for the group sizes that the
      operands show. */
  ghost predicate InDict(op: OpInfo, f: Format, name: string)
    requires forall e :: e in f.elements ==> WfElement(op, e)
  {
    && !(!f.allOperands && op.sizedOperands && name == "operand_segment_sizes")
    && forall e :: e in f.elements ==> !PrintsAttr(op, e, name)
  }

  ghost function Denoted(op: OpInfo, f: Format, x: Instance, e: Element): seq<Shown>
    requires (forall y :: y in f.elements ==> WfElement(op, y)) && WfLeaf(op, e) && Matches(op, x)
  {
    match e
    case Lit(text) => [TextShown(text)]
    case AttrVar(i) => [AttrShown(AttrOf(x, op.attrs[i].name), op.attrs[i].builder.None?)]
    case OperandVar(i) => [ValuesShown(Ids(x.operands[i]))]
    case SuccessorVar(i) => [SuccessorsShown(x.successors[i])]
    case RegionVar(i) =>
      (if x.regions[i].blocks > 0 then [OpenShown, ArgsShown(x.regions[i]), CloseShown] else [])
      + [RegionShown(x.regions[i])]
    case AttrDict(keyword) => [DictShown(keyword, map k | k in x.attrs && InDict(op, f, k) :: x.attrs[k])]
    case AllOperands => [ValuesShown(Ids(Join(x.operands)))]
    case AllSuccessors => [SuccessorsShown(Join(x.successors))]
    case TypeDir(a) => [TypesShown(TypesDenoted(x, a))]
    case FunctionalType(a, b) => [FunctionShown(TypesDenoted(x, a), TypesDenoted(x, b))]
    case SymbolDir(a) => [SymbolShown(AttrOf(x, op.attrs[a.attr].name))]
  }

  ghost function DenotedAll(op: OpInfo, f: Format, x: Instance, es: seq<Element>): seq<Shown>
    requires (forall y :: y in f.elements ==> WfElement(op, y)) && Matches(op, x)
    requires forall e :: e in es ==> WfLeaf(op, e)
  {
    if es == [] then []
    else DenotedAll(op, f, x, es[..|es| - 1]) + Denoted(op, f, x, es[|es| - 1])
  }

  /** A group is there when its anchor is. */
  predicate Present(op: OpInfo, x: Instance, anchor: Element)
    requires WfLeaf(op, anchor) && Matches(op, x)
  {
    match anchor
    case OperandVar(i) => x.operands[i] != []
    case AttrVar(i) => op.attrs[i].name in x.attrs
    case _ => true
  }

  ghost function ElementDenoted(op: OpInfo, f: Format, x: Instance, e: Element): seq<Shown>
    requires (forall y :: y in f.elements ==> WfElement(op, y)) && Matches(op, x) && WfElement(op, e)
  {
    if !e.Opt? then Denoted(op, f, x, e)
    else if AnchorPresent(op, x, e) then DenotedAll(op, f, x, e.elements)
    else []
  }

  predicate AnchorPresent(op: OpInfo, x: Instance, g: Element)
    requires WfElement(op, g) && g.Opt? && Matches(op, x)
  {
    assert g.elements[g.anchor] in g.elements;
    Present(op, x, g.elements[g.anchor])
  }

  ghost function FormatDenoted(op: OpInfo, f: Format, x: Instance, es: seq<Element>): seq<Shown>
    requires (forall y :: y in f.elements ==> WfElement(op, y)) && Matches(op, x)
    requires forall e :: e in es ==> WfElement(op, e)
  {
    if es == [] then [NameShown]
    else FormatDenoted(op, f, x, es[..|es| - 1]) + ElementDenoted(op, f, x, es[|es| - 1])
  }

  // ----- Running the printer

  /** The getters look for the first entry of the name. */
  function GroupNamed<T, V>(xs: seq<T>, nameOf: T -> string, groups: seq<seq<V>>, name: string): seq<V> {
    match Position(xs, nameOf, name)
    case None => []
    case Some(i) => if i < |groups| then groups[i] else []
  }

  function FirstOf<T>(vs: seq<T>): seq<T> { if vs == [] then [] else [vs[0]] }

  function OperandsNamed(op: OpInfo, x: Instance, name: string): seq<Value> {
    GroupNamed(op.operands, ValueName, x.operands, name)
  }

  function ResultsNamed(op: OpInfo, x: Instance, name: string): seq<Value> {
    GroupNamed(op.results, ValueName, x.results, name)
  }

  function SuccessorsNamed(op: OpInfo, x: Instance, name: string): seq<nat> {
    GroupNamed(op.successors, ListName, x.successors, name)
  }

  function RegionNamed(op: OpInfo, x: Instance, name: string): Body {
    match Position(op.regions, ListName, name)
    case None => Body(0, 0)
    case Some(i) => if i < |x.regions| then x.regions[i] else Body(0, 0)
  }

  function ListedTypes(op: OpInfo, x: Instance, types: TypeList): seq<nat> {
    match types
    case OperandTypes => Tys(Join(x.operands))
    case ResultTypes => Tys(Join(x.results))
    case OperandGroup(name) => Tys(OperandsNamed(op, x, name))
    case OneOperand(name) => Tys(FirstOf(OperandsNamed(op, x, name)))
    case ResultGroup(name) => Tys(ResultsNamed(op, x, name))
    case OneResult(name) => Tys(FirstOf(ResultsNamed(op, x, name)))
  }

  /** One call of the printer; `region` is the one fetched last. */
  function Show(op: OpInfo, x: Instance, p: Piece, region: Body): Shown {
    match p
    case OpName => NameShown
    case Space => BlankShown
    case Text(value) => TextShown(value)
    case AttrText(name, typed) => AttrShown(AttrOf(x, name), typed)
    case OperandText(name) => ValuesShown(Ids(FirstOf(OperandsNamed(op, x, name))))
    case OperandsText(name) => ValuesShown(Ids(OperandsNamed(op, x, name)))
    case AllOperandsText => ValuesShown(Ids(Join(x.operands)))
    case SuccessorText(name) => SuccessorsShown(FirstOf(SuccessorsNamed(op, x, name)))
    case SuccessorsText(name) => SuccessorsShown(SuccessorsNamed(op, x, name))
    case AllSuccessorsText => SuccessorsShown(Join(x.successors))
    case OpenArgs => OpenShown
    case BlockArgs => ArgsShown(region)
    case CloseArgs => CloseShown
    case RegionText => RegionShown(region)
    case TypeText(types) => TypesShown(ListedTypes(op, x, types))
    case FunctionText(inputs, results) => FunctionShown(ListedTypes(op, x, inputs), ListedTypes(op, x, results))
    case SymbolText(name) => SymbolShown(AttrOf(x, name))
    case DictText(keyword, elided) => DictShown(keyword, map k | k in x.attrs && k !in elided :: x.attrs[k])
  }

  predicate Succeeds(op: OpInfo, x: Instance, test: Does, region: Body) {
    match test
    case AsksOperands(name) => |OperandsNamed(op, x, name)| > 0
    case AsksAttr(name) => AttrOf(x, name).Some?
    case AsksBlocks => region.blocks > 0
    case _ => true
  }

  /** What is shown, and the region fetched last. */
  datatype Out = Out(shown: seq<Shown>, region: Body)

  function Exec(op: OpInfo, x: Instance, lines: seq<Line>, region: Body): Out
    decreases |lines|
  {
    if lines == [] then Out([], region)
    else
      var line, rest := lines[0], lines[1..];
      if line.opens && !Succeeds(op, x, line.does, region) then Exec(op, x, rest[Deep(rest, line.indent)..], region)
      else
        var here := if line.does.Prints? then [Show(op, x, line.does.piece, region)] else [];
        var next := if line.does.Fetches? then RegionNamed(op, x, line.does.name) else region;
        var more := Exec(op, x, rest, next);
        Out(here + more.shown, more.region)
  }

  function NoBlanks(shown: seq<Shown>): seq<Shown> {
    if shown == [] then []
    else NoBlanks(shown[..|shown| - 1]) + if shown[|shown| - 1].BlankShown? then [] else [shown[|shown| - 1]]
  }

  lemma {:induction false} NoBlanksAppend(a: seq<Shown>, b: seq<Shown>)
    ensures NoBlanks(a + b) == NoBlanks(a) + NoBlanks(b)
    decreases |b|
  {
    if b == [] {
      assert a + b == a;
    } else {
      assert (a + b)[..|a + b| - 1] == a + b[..|b| - 1];
      NoBlanksAppend(a, b[..|b| - 1]);
    }
  }

  lemma {:induction false} NoBlanksSame(a: seq<Shown>)
    requires forall s :: s in a ==> !s.BlankShown?
    ensures NoBlanks(a) == a
    decreases |a|
  {
    if a != [] {
      assert forall s :: s in a[..|a| - 1] ==> s in a;
      NoBlanksSame(a[..|a| - 1]);
    }
  }

  lemma ExecStep(op: OpInfo, x: Instance, lines: seq<Line>, region: Body)
    requires lines != []
    ensures Exec(op, x, lines, region) ==
            var line, rest := lines[0], lines[1..];
            if line.opens && !Succeeds(op, x, line.does, region)
              then Exec(op, x, rest[Deep(rest, line.indent)..], region)
            else
              var here := if line.does.Prints? then [Show(op, x, line.does.piece, region)] else [];
              var next := if line.does.Fetches? then RegionNamed(op, x, line.does.name) else region;
              Out(here + Exec(op, x, rest, next).shown, Exec(op, x, rest, next).region)
  {
  }

  lemma ExecNone(op: OpInfo, x: Instance, region: Body)
    ensures Exec(op, x, [], region) == Out([], region)
  {
  }

  lemma {:induction false} ExecAppend(op: OpInfo, x: Instance, a: seq<Line>, b: seq<Line>, level: nat, region: Body)
    requires AtLeast(a, level) && (b == [] || b[0].indent <= level)
    ensures var first := Exec(op, x, a, region);
            var second := Exec(op, x, b, first.region);
            Exec(op, x, a + b, region) == Out(first.shown + second.shown, second.region)
    decreases |a|
  {
    hide Exec, Deep, Show, Succeeds, RegionNamed;
    if a == [] {
      assert a + b == b;
      ExecNone(op, x, region);
    } else {
      var line, rest := a[0], a[1..];
      ExecStep(op, x, a, region);
      ExecStep(op, x, a + b, region);
      assert (a + b)[1..] == rest + b && (a + b)[0] == line;
      if line.opens && !Succeeds(op, x, line.does, region) {
        var n := Deep(rest, line.indent);
        DeepAppend(rest, b, line.indent);
        assert (rest + b)[n..] == rest[n..] + b;
        ExecAppend(op, x, rest[n..], b, level, region);
      } else {
        var next := if line.does.Fetches? then RegionNamed(op, x, line.does.name) else region;
        ExecAppend(op, x, rest, b, level, next);
      }
    }
  }

  lemma ExecOne(op: OpInfo, x: Instance, indent: nat, does: Does, region: Body)
    requires !does.Fetches?
    ensures Exec(op, x, [Put(indent, does)], region)
            == Out(if does.Prints? then [Show(op, x, does.piece, region)] else [], region)
  {
    hide Show;
    assert [Put(indent, does)][1..] == [];
    ExecNone(op, x, region);
  }

  lemma ExecBlock(op: OpInfo, x: Instance, head: Line, body: seq<Line>, region: Body)
    requires head.opens && !head.does.Prints? && !head.does.Fetches? && AtLeast(body, head.indent + 1)
    ensures Exec(op, x, [head] + body, region)
            == if Succeeds(op, x, head.does, region) then Exec(op, x, body, region) else Out([], region)
  {
    hide Show, Succeeds, Deep;
    assert ([head] + body)[1..] == body;
    AllDeep(body, head.indent);
    assert body[|body|..] == [];
    ExecNone(op, x, region);
  }

  // ----- Names

  /** A variable is the first of its name in its own list, as every variable that has been read is. */
  predicate NamedLeaf(op: OpInfo, e: Element) {
    match e
    case OperandVar(i) => i < |op.operands| && IsFirst(op.operands, ValueName, i, op.operands[i].name)
    case ResultVar(i) => i < |op.results| && IsFirst(op.results, ValueName, i, op.results[i].name)
    case SuccessorVar(i) => i < |op.successors| && IsFirst(op.successors, ListName, i, op.successors[i].name)
    case RegionVar(i) => i < |op.regions| && IsFirst(op.regions, ListName, i, op.regions[i].name)
    case TypeDir(a) => NamedLeaf(op, a)
    case FunctionalType(a, b) => NamedLeaf(op, a) && NamedLeaf(op, b)
    case _ => true
  }

  predicate Named(op: OpInfo, e: Element) {
    if e.Opt? then forall c :: c in e.elements ==> NamedLeaf(op, c) else NamedLeaf(op, e)
  }

  lemma GroupFound<T, V>(xs: seq<T>, nameOf: T -> string, groups: seq<seq<V>>, i: nat)
    requires i < |xs| == |groups| && IsFirst(xs, nameOf, i, nameOf(xs[i]))
    ensures GroupNamed(xs, nameOf, groups, nameOf(xs[i])) == groups[i]
  {
    hide Position, IsFirst;
    FirstPosition(xs, nameOf, i, nameOf(xs[i]));
  }

  lemma RegionFound(op: OpInfo, x: Instance, i: nat)
    requires i < |op.regions| == |x.regions| && IsFirst(op.regions, ListName, i, op.regions[i].name)
    ensures RegionNamed(op, x, op.regions[i].name) == x.regions[i]
  {
    hide Position, IsFirst;
    FirstPosition(op.regions, ListName, i, op.regions[i].name);
  }

  lemma OneIsAll<T>(vs: seq<T>)
    requires |vs| == 1
    ensures FirstOf(vs) == vs
  {
  }

  // ----- Elements

  lemma TypesShow(op: OpInfo, x: Instance, a: Element)
    requires IsTypeArg(op, a) && NamedLeaf(op, a) && Matches(op, x)
    ensures ListedTypes(op, x, TypesOf(op, a)) == TypesDenoted(x, a)
  {
    hide Tys, Join, IsFirst, GroupNamed, FirstOf;
    match a {
      case OperandVar(i) =>
        GroupFound(op.operands, ValueName, x.operands, i);
        if !op.operands[i].variadic {
          assert Single(x.operands[i]);
          OneIsAll(x.operands[i]);
        }
      case ResultVar(i) =>
        GroupFound(op.results, ValueName, x.results, i);
        if !op.results[i].variadic {
          assert Single(x.results[i]);
          OneIsAll(x.results[i]);
        }
      case _ =>
    }
  }

  lemma DictShows(op: OpInfo, f: Format, x: Instance, keyword: bool, region: Body)
    requires (forall y :: y in f.elements ==> WfElement(op, y)) && Matches(op, x)
    ensures [Show(op, x, DictText(keyword, Elided(op, f)), region)] == Denoted(op, f, x, AttrDict(keyword))
  {
    hide WfElement, Elided, PrintsAttr, Matches;
    forall k: string
      ensures k !in Elided(op, f) <==> InDict(op, f, k)
    {
      ElidesExact(op, f, k);
    }
    var a := map k | k in x.attrs && k !in Elided(op, f) :: x.attrs[k];
    var b := map k | k in x.attrs && InDict(op, f, k) :: x.attrs[k];
    assert a == b;
  }

  /** One piece shows what its element denotes. */
  lemma PieceShows(op: OpInfo, f: Format, x: Instance, e: Element, region: Body)
    requires (forall y :: y in f.elements ==> WfElement(op, y)) && WfLeaf(op, e) && !e.RegionVar? && NamedLeaf(op, e)
             && Matches(op, x)
    ensures [Show(op, x, PieceOf(op, e, Elided(op, f)), region)] == Denoted(op, f, x, e)
  {
    hide WfElement, Elided, TypesOf, TypesDenoted, ListedTypes, IsFirst, GroupNamed, Ids, Join, InDict, FirstOf;
    match e {
      case TypeDir(a) => TypesShow(op, x, a);
      case FunctionalType(a, b) =>
        TypesShow(op, x, a);
        TypesShow(op, x, b);
      case OperandVar(i) =>
        GroupFound(op.operands, ValueName, x.operands, i);
        if !op.operands[i].variadic {
          assert Single(x.operands[i]);
          OneIsAll(x.operands[i]);
        }
      case SuccessorVar(i) =>
        GroupFound(op.successors, ListName, x.successors, i);
        if !op.successors[i].variadic {
          OneIsAll(x.successors[i]);
        }
      case AttrDict(keyword) => DictShows(op, f, x, keyword, region);
      case _ =>
    }
  }

  /** A region is fetched by name, tested for blocks, and printed. */
  lemma RegionShows(op: OpInfo, x: Instance, i: nat, indent: nat, region: Body)
    requires i < |op.regions| == |x.regions| && IsFirst(op.regions, ListName, i, op.regions[i].name)
    ensures Exec(op, x, RegionLines(op.regions[i].name, indent), region)
            == Out((if x.regions[i].blocks > 0 then [OpenShown, ArgsShown(x.regions[i]), CloseShown] else [])
                   + [RegionShown(x.regions[i])], x.regions[i])
  {
    hide Exec, IsFirst, RegionNamed;
    var name, r := op.regions[i].name, x.regions[i];
    RegionFound(op, x, i);
    var lines := RegionLines(name, indent);
    var args := [Put(indent + 4, Prints(OpenArgs)), Put(indent + 4, Prints(BlockArgs)),
                 Put(indent + 4, Prints(CloseArgs))];
    var test, last := [Line(indent, true, {}, {}, AsksBlocks)] + args, [Put(indent, Prints(RegionText))];
    assert lines == [Put(indent, Fetches(name))] + (test + last);
    assert lines[1..] == test + last;
    ExecStep(op, x, lines, region);
    ExecAppend(op, x, test, last, indent, r);
    ArgsShow(op, x, indent, r);
    ExecOne(op, x, indent, Prints(RegionText), r);
  }

  lemma ArgsShow(op: OpInfo, x: Instance, indent: nat, r: Body)
    ensures Exec(op, x, [Line(indent, true, {}, {}, AsksBlocks)]
                        + [Put(indent + 4, Prints(OpenArgs)), Put(indent + 4, Prints(BlockArgs)),
                           Put(indent + 4, Prints(CloseArgs))], r)
            == Out(if r.blocks > 0 then [OpenShown, ArgsShown(r), CloseShown] else [], r)
  {
    hide Exec;
    var a, b, c := Put(indent + 4, Prints(OpenArgs)), Put(indent + 4, Prints(BlockArgs)),
                   Put(indent + 4, Prints(CloseArgs));
    var args := [a, b, c];
    ExecBlock(op, x, Line(indent, true, {}, {}, AsksBlocks), args, r);
    assert args == [a] + ([b] + [c]);
    ExecAppend(op, x, [a], [b] + [c], indent + 4, r);
    ExecAppend(op, x, [b], [c], indent + 4, r);
    ExecOne(op, x, indent + 4, Prints(OpenArgs), r);
    ExecOne(op, x, indent + 4, Prints(BlockArgs), r);
    ExecOne(op, x, indent + 4, Prints(CloseArgs), r);
  }

  ghost predicate Ready(op: OpInfo, f: Format, x: Instance) {
    (forall y :: y in f.elements ==> WfElement(op, y)) && Matches(op, x)
  }

  lemma OwnShows(op: OpInfo, f: Format, x: Instance, e: Element, indent: nat, region: Body)
    requires Ready(op, f, x) && WfLeaf(op, e) && NamedLeaf(op, e)
    ensures NoBlanks(Exec(op, x, OwnLines(op, e, Elided(op, f), indent), region).shown) == Denoted(op, f, x, e)
  {
    hide Exec, Elided, IsFirst, Show, NoBlanks, WfElement;
    if e.RegionVar? {
      RegionShows(op, x, e.region, indent, region);
    } else {
      PieceShows(op, f, x, e, region);
      ExecOne(op, x, indent, Prints(PieceOf(op, e, Elided(op, f))), region);
    }
    NotBlank(op, f, x, e);
    NoBlanksSame(Denoted(op, f, x, e));
  }

  lemma NotBlank(op: OpInfo, f: Format, x: Instance, e: Element)
    requires Ready(op, f, x) && WfLeaf(op, e)
    ensures forall s :: s in Denoted(op, f, x, e) ==> !s.BlankShown?
  {
  }

  lemma LeafShows(op: OpInfo, f: Format, x: Instance, e: Element, indent: nat, s: Flags, region: Body)
    requires Ready(op, f, x) && WfLeaf(op, e) && NamedLeaf(op, e)
    ensures NoBlanks(Exec(op, x, LeafLines(op, e, Elided(op, f), indent, s), region).shown) == Denoted(op, f, x, e)
  {
    hide Exec, Elided, Show, Blank, Denoted, OwnLines, WfLeaf, NamedLeaf, NoBlanks, Matches;
    var own := OwnLines(op, e, Elided(op, f), indent);
    OwnShows(op, f, x, e, indent, region);
    if Blank(op, e, s) {
      OwnStarts(op, e, Elided(op, f), indent);
      ExecAppend(op, x, [Put(indent, Prints(Space))], own, indent, region);
      ExecOne(op, x, indent, Prints(Space), region);
      SpaceOnly(op, x, region, Exec(op, x, own, region).shown);
    } else {
      assert [] + own == own;
    }
  }

  lemma SpaceOnly(op: OpInfo, x: Instance, region: Body, more: seq<Shown>)
    ensures NoBlanks([Show(op, x, Space, region)] + more) == NoBlanks(more)
  {
    NoBlanksAppend([BlankShown], more);
    assert [BlankShown][..0] == [];
    assert NoBlanks([BlankShown]) == [];
  }

  lemma {:induction false} LeavesShow(op: OpInfo, f: Format, x: Instance, es: seq<Element>, indent: nat, s: Flags,
      region: Body)
    requires Ready(op, f, x) && forall e :: e in es ==> WfLeaf(op, e) && NamedLeaf(op, e)
    ensures NoBlanks(Exec(op, x, LeavesLines(op, es, Elided(op, f), indent, s), region).shown)
            == DenotedAll(op, f, x, es)
    decreases |es|
  {
    hide Exec, Elided, Denoted, LeafLines, WfLeaf, NamedLeaf, NoBlanks, Matches, Blocks;
    if es == [] {
      ExecNone(op, x, region);
      assert NoBlanks([]) == [] by {
        NoBlanksSame([]);
      }
    } else {
      var init, e := es[..|es| - 1], es[|es| - 1];
      assert e in es;
      LeavesShow(op, f, x, init, indent, s, region);
      var a, mid := LeavesLines(op, init, Elided(op, f), indent, s), LeavesAfter(op, init, s);
      var b := LeafLines(op, e, Elided(op, f), indent, mid);
      LeavesNest(op, init, Elided(op, f), indent, s);
      LeafNests(op, e, Elided(op, f), indent, mid);
      Levels(a, b, indent);
      var first := Exec(op, x, a, region);
      LeafShows(op, f, x, e, indent, mid, first.region);
      ExecAppend(op, x, a, b, indent, region);
      NoBlanksAppend(first.shown, Exec(op, x, b, first.region).shown);
    }
  }

  lemma Levels(a: seq<Line>, b: seq<Line>, indent: nat)
    requires Blocks(a, indent) && Blocks(b, indent)
    ensures AtLeast(a, indent) && (b == [] || b[0].indent <= indent)
  {
  }

  lemma TestIsAnchor(op: OpInfo, x: Instance, g: Element, region: Body)
    requires WfElement(op, g) && g.Opt? && Named(op, g) && Matches(op, x)
    ensures Succeeds(op, x, GroupTest(op, g), region) <==> AnchorPresent(op, x, g)
  {
    var anchor := g.elements[g.anchor];
    assert anchor in g.elements;
    if anchor.OperandVar? {
      GroupFound(op.operands, ValueName, x.operands, anchor.operand);
    }
  }

  lemma ElementShows(op: OpInfo, f: Format, x: Instance, e: Element, s: Flags, region: Body)
    requires Ready(op, f, x) && WfElement(op, e) && Named(op, e)
    ensures NoBlanks(Exec(op, x, ElementLines(op, e, Elided(op, f), 0, s), region).shown)
            == ElementDenoted(op, f, x, e)
  {
    hide Exec, Elided, Denoted, DenotedAll, LeafLines, LeavesLines, WfLeaf, NamedLeaf, NoBlanks, Blocks, Succeeds,
      AnchorPresent, Matches;
    if e.Opt? {
      GroupHasNoSymbol(op, e);
      var body := LeavesLines(op, e.elements, Elided(op, f), 4, s);
      LeavesNest(op, e.elements, Elided(op, f), 4, s);
      Levels(body, [], 4);
      LeavesShow(op, f, x, e.elements, 4, s, region);
      ExecBlock(op, x, Line(0, true, {}, {}, GroupTest(op, e)), body, region);
      TestIsAnchor(op, x, e, region);
      NoBlanksSame([]);
    } else {
      LeafShows(op, f, x, e, 0, s, region);
    }
  }

  lemma {:induction false} ElementsShow(op: OpInfo, f: Format, x: Instance, es: seq<Element>, region: Body)
    requires Ready(op, f, x) && forall e :: e in es ==> WfElement(op, e) && Named(op, e)
    ensures [NameShown] + NoBlanks(Exec(op, x, ElementsLines(op, es, Elided(op, f)), region).shown)
            == FormatDenoted(op, f, x, es)
    decreases |es|
  {
    hide Exec, Elided, ElementDenoted, ElementLines, WfElement, Named, NoBlanks, Matches, Blocks;
    if es == [] {
      ExecNone(op, x, region);
      NoBlanksSame([]);
    } else {
      var init, e := es[..|es| - 1], es[|es| - 1];
      assert e in es;
      ElementsShow(op, f, x, init, region);
      var a, mid := ElementsLines(op, init, Elided(op, f)), ElementsAfter(op, init, START);
      var b := ElementLines(op, e, Elided(op, f), 0, mid);
      ElementsNest(op, init, Elided(op, f));
      ElementNests(op, e, Elided(op, f), mid);
      Levels(a, b, 0);
      var first := Exec(op, x, a, region);
      ElementShows(op, f, x, e, mid, first.region);
      ExecAppend(op, x, a, b, 0, region);
      NoBlanksAppend(first.shown, Exec(op, x, b, first.region).shown);
      var p, q := NoBlanks(first.shown), NoBlanks(Exec(op, x, b, first.region).shown);
      assert [NameShown] + (p + q) == [NameShown] + p + q;
    }
  }

  /** For every op whose values are in groups as declared: apart from blanks the printer prints its name,
      and then element after element what each denotes, groups exactly where their anchor is present. */
  lemma PrinterShows(op: OpInfo, f: Format, x: Instance, region: Body)
    requires Ready(op, f, x) && forall e :: e in f.elements ==> Named(op, e)
    ensures NoBlanks(Exec(op, x, PrinterCode(op, f), region).shown) == FormatDenoted(op, f, x, f.elements)
  {
    hide Exec, Elided, ElementsLines, WfElement, Named, NoBlanks, FormatDenoted, Blocks, Show, Matches;
    var first, lines := [Put(0, Prints(OpName))], ElementsLines(op, f.elements, Elided(op, f));
    ElementsNest(op, f.elements, Elided(op, f));
    Levels(lines, lines, 0);
    ElementsShow(op, f, x, f.elements, region);
    ExecAppend(op, x, first, lines, 0, region);
    ExecOne(op, x, 0, Prints(OpName), region);
    NameOnly(op, x, region, Exec(op, x, lines, region).shown);
  }

  lemma NameOnly(op: OpInfo, x: Instance, region: Body, more: seq<Shown>)
    ensures NoBlanks([Show(op, x, OpName, region)] + more) == [NameShown] + NoBlanks(more)
  {
    NoBlanksAppend([NameShown], more);
    NoBlanksSame([NameShown]);
  }

  // ----- Accepted formats

  lemma SpelledNamed(op: OpInfo, e: Element, w: seq<Tok>)
    requires SpellsLeaf(op, e, w)
    ensures NamedLeaf(op, e)
  {
    hide Absent;
  }

  lemma {:induction false} ChildrenNamed(op: OpInfo, es: seq<Element>, anchor: Option<nat>, k: nat, w: seq<Tok>)
    requires SpellsChildren(op, es, anchor, k, w)
    ensures forall i :: k <= i < |es| ==> NamedLeaf(op, es[i])
    decreases |es| - k
  {
    hide SpellsLeaf, NamedLeaf, Size;
    if k < |es| {
      var n := Size(es[k]);
      SpelledNamed(op, es[k], w[..n]);
      ChildrenNamed(op, es, anchor, k + 1, if anchor == Some(k) then w[n + 1..] else w[n..]);
    }
  }

  lemma {:induction false} ListNamed(op: OpInfo, es: seq<Element>, w: seq<Tok>)
    requires SpellsList(op, es, w)
    ensures forall e :: e in es ==> Named(op, e)
    decreases |es|
  {
    hide SpellsLeaf, SpellsChildren, NamedLeaf, Size;
    if es != [] {
      var e, n := es[0], Size(es[0]);
      if e.Opt? {
        ChildrenNamed(op, e.elements, Some(e.anchor), 0, w[..n][1..n - 2]);
      } else {
        SpelledNamed(op, e, w[..n]);
      }
      ListNamed(op, es[1..], w[n..]);
      assert es == [e] + es[1..];
    }
  }

  /** So it is for every accepted format. */
  lemma AcceptedShows(op: OpInfo, toks: seq<Tok>, x: Instance, region: Body)
    requires Ends(toks) && ParseFormat(op, toks).Accepted? && Matches(op, x)
    ensures var f := ParseFormat(op, toks).format;
            && Ready(op, f, x)
            && NoBlanks(Exec(op, x, PrinterCode(op, f), region).shown) == FormatDenoted(op, f, x, f.elements)
  {
    hide Exec, Elided, ElementsLines, WfElement, Named, NoBlanks, FormatDenoted, SpellsList, SourcesAre, Matches,
      ParseFormat;
    AcceptedIsSound(op, toks);
    AcceptedExact(op, toks);
    var f := ParseFormat(op, toks).format;
    ListNamed(op, f.elements, toks[..|toks| - 1]);
    PrinterShows(op, f, x, region);
  }
}
