/** Assembly formats: their elements, and which token lists are formats of an op.  Variables are
    positions in the lists of the op. */
module FormatGrammar {
  import opened FormatLexer

  datatype Option<T> = None | Some(value: T)

  // ----- The op a format is written for

  /** `builder` builds the constant type of an attribute or value, if it has one. */
  datatype AttrInfo = AttrInfo(name: string, canAnchor: bool, builder: Option<string>)

  datatype ValueInfo = ValueInfo(name: string, variadic: bool, builder: Option<string>)

  datatype ListInfo = ListInfo(name: string, variadic: bool)

  datatype OpInfo = OpInfo(attrs: seq<AttrInfo>, operands: seq<ValueInfo>, results: seq<ValueInfo>,
                           successors: seq<ListInfo>, regions: seq<ListInfo>,
                           sameTypeOperands: bool, sameOperandsAndResults: bool, sizedOperands: bool)

  function AttrName(a: AttrInfo): string { a.name }

  function ValueName(v: ValueInfo): string { v.name }

  function ListName(l: ListInfo): string { l.name }

  // ----- Elements

  datatype Element =
    | Lit(text: string)
    | Opt(elements: seq<Element>, anchor: nat)
    | AttrVar(attr: nat) | OperandVar(operand: nat) | ResultVar(result: nat) | SuccessorVar(successor: nat)
    | RegionVar(region: nat)
    | AttrDict(withKeyword: bool) | AllOperands | AllResults | AllSuccessors
    | TypeDir(arg: Element) | FunctionalType(inputs: Element, results: Element) | SymbolDir(symbol: Element)

  datatype Tok = Tok(kind: Kind, text: string)

  /** What has been seen, and the tokens still to come. */
  datatype St = St(toks: seq<Tok>, hasAllOperands: bool, hasAttrDict: bool, hasAllSuccessors: bool,
                   operandTypes: set<nat>, resultTypes: set<nat>, operands: set<nat>, attrs: set<nat>,
                   successors: set<nat>, regions: set<nat>, allOperandTypes: bool, allResultTypes: bool)

  function Start(toks: seq<Tok>): St { St(toks, false, false, false, {}, {}, {}, {}, {}, {}, false, false) }

  /** `Crash` is a failed assertion: a token taken after the last one. */
  datatype R<T> = Ok(v: T, st: St) | Reject | Crash

  predicate Ends(toks: seq<Tok>) {
    && |toks| > 0 && Last(toks[|toks| - 1].kind)
    && forall i :: 0 <= i < |toks| - 1 ==> !Last(toks[i].kind) && toks[i].text != ""
  }

  /** The tokens of a buffer, the one that ends lexing included. */
  function Toks(buf: string): (toks: seq<Tok>) {
    var r := LexFrom(buf, 0);
    Spelled(buf, r.tokens) + [Tok(r.end.kind, Spelling(buf, r.end))]
  }

  function Spelled(buf: string, tokens: seq<Token>): (toks: seq<Tok>)
    ensures |toks| == |tokens|
    ensures forall i :: 0 <= i < |tokens| ==> toks[i] == Tok(tokens[i].kind, Spelling(buf, tokens[i]))
  {
    if tokens == [] then [] else [Tok(tokens[0].kind, Spelling(buf, tokens[0]))] + Spelled(buf, tokens[1..])
  }

  /** Whatever the buffer holds, its tokens are such a list. */
  lemma LexedEnds(buf: string)
    ensures Ends(Toks(buf))
  {
    EndIsLast(buf, 0);
    TokensGoOn(buf, 0);
    var r := LexFrom(buf, 0);
    var toks := Spelled(buf, r.tokens);
    forall i | 0 <= i < |toks|
      ensures !Last(toks[i].kind) && toks[i].text != ""
    {
      assert GoesOn(buf, r.tokens[i]);
    }
  }

  /** A token that is not the last one has a text. */
  predicate GoesOn(buf: string, t: Token) { !Last(t.kind) && Spelling(buf, t) != "" }

  lemma {:induction false} TokensGoOn(buf: string, p: nat)
    requires p <= |buf|
    ensures forall t :: t in LexFrom(buf, p).tokens ==> GoesOn(buf, t)
    decreases |buf| - p
  {
    var t := Next(buf, p);
    Progress(buf, SkipBlanks(buf, p));
    if !Last(t.kind) {
      TokensGoOn(buf, t.last);
      assert LexFrom(buf, p).tokens == [t] + LexFrom(buf, t.last).tokens;
      assert GoesOn(buf, t);
    }
  }

  predicate IsKeyword(k: Kind) {
    k.KwAttrDict? || k.KwAttrDictWithKeyword? || k.KwFunctionalType? || k.KwOperands? || k.KwResults?
    || k.KwSuccessors? || k.KwType? || k.KwSymbol? || k.KwDims?
  }

  function Cur(st: St): Kind
    requires Ends(st.toks)
  {
    st.toks[0].kind
  }

  function Take(st: St): (r: St)
    requires Ends(st.toks) && !Last(Cur(st))
    ensures Ends(r.toks) && |r.toks| == |st.toks| - 1
  {
    st.(toks := st.toks[1..])
  }

  /** A token that has to be there. */
  function Expect(st: St, k: Kind): (r: R<()>)
    requires Ends(st.toks) && !Last(k)
    ensures r.Ok? ==> Cur(st) == k && r.st == Take(st)
  {
    if Cur(st) == k then Ok((), Take(st)) else Reject
  }

  function Position<T>(xs: seq<T>, name: T -> string, wanted: string): (r: Option<nat>)
    ensures r.Some? ==> r.value < |xs| && name(xs[r.value]) == wanted
    ensures r.None? ==> forall i :: 0 <= i < |xs| ==> name(xs[i]) != wanted
    decreases |xs|
  {
    if xs == [] then None
    else if name(xs[0]) == wanted then Some(0)
    else match Position(xs[1..], name, wanted)
      case None => None
      case Some(i) => Some(i + 1)
  }

  // ----- Parsing elements

  /** Attributes are looked up before operands, results, successors and regions. */
  function ParseVariable(op: OpInfo, st: St, top: bool): (r: R<Element>)
    requires Ends(st.toks)
    ensures r.Ok? ==> Ends(r.st.toks) && |r.st.toks| < |st.toks|
  {
    if Last(Cur(st)) then Crash
    else
      var name := st.toks[0].text[1..];
      var next := Take(st);
      var attr := Position(op.attrs, AttrName, name);
      var operand := Position(op.operands, ValueName, name);
      if attr.Some? then
        if top && attr.value in st.attrs then Reject
        else Ok(AttrVar(attr.value), if top then next.(attrs := st.attrs + {attr.value}) else next)
      else if operand.Some? then
        if top && (st.hasAllOperands || operand.value in st.operands) then Reject
        else Ok(OperandVar(operand.value), if top then next.(operands := st.operands + {operand.value}) else next)
      else ParseOther(op, next, name, top)
  }

  /** A variable that is no attribute and no operand. */
  function ParseOther(op: OpInfo, st: St, name: string, top: bool): (r: R<Element>)
    requires Ends(st.toks)
    ensures r.Ok? ==> r.st.toks == st.toks
  {
    var result := Position(op.results, ValueName, name);
    var successor := Position(op.successors, ListName, name);
    var region := Position(op.regions, ListName, name);
    if result.Some? then
      if top then Reject else Ok(ResultVar(result.value), st)
    else if successor.Some? then
      if !top || st.hasAllSuccessors || successor.value in st.successors then Reject
      else Ok(SuccessorVar(successor.value), st.(successors := st.successors + {successor.value}))
    else if region.Some? then
      if !top || region.value in st.regions || op.regions[region.value].variadic then Reject
      else Ok(RegionVar(region.value), st.(regions := st.regions + {region.value}))
    else Reject
  }

  function Unquote(text: string): string { if |text| < 2 then "" else text[1..|text| - 1] }

  function ParseElement(op: OpInfo, st: St, top: bool): (r: R<Element>)
    requires Ends(st.toks)
    ensures r.Ok? ==> Ends(r.st.toks) && |r.st.toks| < |st.toks|
    decreases |st.toks|, 4
  {
    if IsKeyword(Cur(st)) then ParseDirective(op, st, top)
    else match Cur(st)
      case Literal =>
        var value := Unquote(st.toks[0].text);
        if IsValidLiteral(value) then Ok(Lit(value), Take(st)) else Reject
      case LParen => if top then ParseOptional(op, st) else Reject
      case Variable => ParseVariable(op, st, top)
      case _ => Reject
  }

  function ParseDirective(op: OpInfo, st: St, top: bool): (r: R<Element>)
    requires Ends(st.toks) && IsKeyword(Cur(st))
    ensures r.Ok? ==> Ends(r.st.toks) && |r.st.toks| < |st.toks|
    decreases |st.toks|, 3
  {
    var next := Take(st);
    match Cur(st)
    case KwAttrDict => if !top || st.hasAttrDict then Reject else Ok(AttrDict(false), next.(hasAttrDict := true))
    case KwAttrDictWithKeyword => if !top || st.hasAttrDict then Reject
      else Ok(AttrDict(true), next.(hasAttrDict := true))
    case KwFunctionalType => if !top then Reject else ParseFunctionalType(op, next)
    case KwOperands =>
      if top && (st.hasAllOperands || st.operands != {}) then Reject else Ok(AllOperands, next.(hasAllOperands := true))
    case KwResults => if top then Reject else Ok(AllResults, next)
    case KwSuccessors =>
      if !top || st.hasAllSuccessors || st.successors != {} then Reject
        else Ok(AllSuccessors, next.(hasAllSuccessors := true))
    case KwType => if !top then Reject else ParseType(op, next)
    case KwSymbol => ParseSymbol(op, next)
    case _ => Reject
  }

  function ParseFunctionalType(op: OpInfo, st: St): (r: R<Element>)
    requires Ends(st.toks)
    ensures r.Ok? ==> Ends(r.st.toks) && |r.st.toks| < |st.toks|
    decreases |st.toks|, 2
  {
    match Expect(st, LParen)
    case Reject => Reject
    case Crash => Crash
    case Ok(_, s1) =>
    match ParseTypeOperand(op, s1)
    case Reject => Reject
    case Crash => Crash
    case Ok(inputs, s2) =>
    match Expect(s2, Comma)
    case Reject => Reject
    case Crash => Crash
    case Ok(_, s3) => ParseResultTypes(op, s3, inputs)
  }

  function ParseResultTypes(op: OpInfo, st: St, inputs: Element): (r: R<Element>)
    requires Ends(st.toks)
    ensures r.Ok? ==> Ends(r.st.toks) && |r.st.toks| < |st.toks|
    decreases |st.toks|, 6
  {
    match ParseTypeOperand(op, st)
    case Reject => Reject
    case Crash => Crash
    case Ok(results, s1) =>
    match Expect(s1, RParen)
    case Reject => Reject
    case Crash => Crash
    case Ok(_, s2) => Ok(FunctionalType(inputs, results), s2)
  }

  function ParseType(op: OpInfo, st: St): (r: R<Element>)
    requires Ends(st.toks)
    ensures r.Ok? ==> Ends(r.st.toks) && |r.st.toks| < |st.toks|
    decreases |st.toks|, 2
  {
    match Expect(st, LParen)
    case Reject => Reject
    case Crash => Crash
    case Ok(_, s1) =>
    match ParseTypeOperand(op, s1)
    case Reject => Reject
    case Crash => Crash
    case Ok(arg, s2) =>
    match Expect(s2, RParen)
    case Reject => Reject
    case Crash => Crash
    case Ok(_, s3) => Ok(TypeDir(arg), s3)
  }

  /** The variable is not checked to be one: any token does whose spelling after the first character
      is the name of an attribute. */
  function ParseSymbol(op: OpInfo, st: St): (r: R<Element>)
    requires Ends(st.toks)
    ensures r.Ok? ==> Ends(r.st.toks) && |r.st.toks| < |st.toks|
    decreases |st.toks|, 2
  {
    match Expect(st, LParen)
    case Reject => Reject
    case Crash => Crash
    case Ok(_, s1) =>
    match ParseVariable(op, s1, false)
    case Reject => Reject
    case Crash => Crash
    case Ok(attr, s2) =>
    match Expect(s2, RParen)
    case Reject => Reject
    case Crash => Crash
    case Ok(_, s3) => if attr.AttrVar? then Ok(SymbolDir(attr), s3) else Reject
  }

  /** Binds the type list of a variable, or of all operands or results. */
  function BindType(st: St, arg: Element): R<Element> {
    match arg
    case OperandVar(i) =>
      if st.allOperandTypes || i in st.operandTypes then Reject else Ok(arg, st.(operandTypes := st.operandTypes + {i}))
    case ResultVar(i) =>
      if st.allResultTypes || i in st.resultTypes then Reject else Ok(arg, st.(resultTypes := st.resultTypes + {i}))
    case AllOperands => if st.allOperandTypes || st.operandTypes != {} then Reject
      else Ok(arg, st.(allOperandTypes := true))
    case AllResults => if st.allResultTypes || st.resultTypes != {} then Reject
      else Ok(arg, st.(allResultTypes := true))
    case _ => Reject
  }

  function ParseTypeOperand(op: OpInfo, st: St): (r: R<Element>)
    requires Ends(st.toks)
    ensures r.Ok? ==> Ends(r.st.toks) && |r.st.toks| < |st.toks|
    decreases |st.toks|, 5
  {
    match ParseElement(op, st, false)
    case Reject => Reject
    case Crash => Crash
    case Ok(arg, next) => BindType(next, arg)
  }

  // ----- Optional groups

  predicate IsChild(op: OpInfo, e: Element, isAnchor: bool) {
    match e
    case AttrVar(i) => i < |op.attrs| && (isAnchor ==> op.attrs[i].canAnchor)
    case OperandVar(i) => i < |op.operands| && op.operands[i].variadic
    case Lit(_) => !isAnchor
    case TypeDir(_) => !isAnchor
    case FunctionalType(_, _) => !isAnchor
    case _ => false
  }

  /** The children so far, and which of them is the anchor. */
  datatype Group = Group(children: seq<Element>, anchor: Option<nat>)

  function ParseChild(op: OpInfo, st: St, g: Group): (r: R<Group>)
    requires Ends(st.toks)
    ensures r.Ok? ==> Ends(r.st.toks) && |r.st.toks| < |st.toks|
    decreases |st.toks|, 5
  {
    match ParseElement(op, st, true)
    case Reject => Reject
    case Crash => Crash
    case Ok(child, next) =>
      var isAnchor := Cur(next) == Caret;
      if isAnchor && g.anchor.Some? then Reject
      else if !IsChild(op, child, isAnchor) then Reject
      else Ok(Group(g.children + [child], if isAnchor then Some(|g.children|) else g.anchor),
        if isAnchor then Take(next) else next)
  }

  /** At least one child, up to the closing parenthesis. */
  function ParseChildren(op: OpInfo, st: St, g: Group): (r: R<Group>)
    requires Ends(st.toks)
    ensures r.Ok? ==> Ends(r.st.toks) && |r.st.toks| < |st.toks| && Cur(r.st) == RParen
    decreases |st.toks|, 6
  {
    match ParseChild(op, st, g)
    case Reject => Reject
    case Crash => Crash
    case Ok(g1, next) => if Cur(next) == RParen then Ok(g1, next) else ParseChildren(op, next, g1)
  }

  /** The types of variables outside the group cannot be asked for inside it. */
  predicate TypeInside(children: seq<Element>, arg: Element) { arg.OperandVar? && arg in children }

  predicate TypesInside(children: seq<Element>) {
    forall e :: e in children ==>
      && (e.TypeDir? ==> TypeInside(children, e.arg))
      && (e.FunctionalType? ==> TypeInside(children, e.inputs) && TypeInside(children, e.results))
  }

  function ParseOptional(op: OpInfo, st: St): (r: R<Element>)
    requires Ends(st.toks) && Cur(st) == LParen
    ensures r.Ok? ==> Ends(r.st.toks) && |r.st.toks| < |st.toks|
    decreases |st.toks|, 2
  {
    match ParseChildren(op, Take(st), Group([], None))
    case Reject => Reject
    case Crash => Crash
    case Ok(g, next) =>
    match Expect(Take(next), Question)
    case Reject => Reject
    case Crash => Crash
    case Ok(_, done) =>
      if g.anchor.None? || g.children == [] || !(g.children[0].Lit? || g.children[0].OperandVar?)
        || !TypesInside(g.children) then Reject
      else Ok(Opt(g.children, g.anchor.value), done)
  }

  // ----- The whole format

  function ParseElements(op: OpInfo, st: St, elements: seq<Element>): R<seq<Element>>
    requires Ends(st.toks)
    decreases |st.toks|
  {
    if Cur(st) == Eof then Ok(elements, st)
    else match ParseElement(op, st, true)
      case Reject => Reject
      case Crash => Crash
      case Ok(e, next) => ParseElements(op, next, elements + [e])
  }
}
