/** What is known of the elements of a format once it has been parsed: they have the forms that the
    generators handle, and the flags of the parser say exactly which variables and types occur. */
module FormatAccepted {
  import opened FormatLexer
  import opened FormatGrammar

  // ----- Well-formed elements

  predicate IsTypeArg(op: OpInfo, a: Element) {
    match a
    case OperandVar(i) => i < |op.operands|
    case ResultVar(i) => i < |op.results|
    case AllOperands => true
    case AllResults => true
    case _ => false
  }

  predicate WfLeaf(op: OpInfo, e: Element) {
    match e
    case Lit(text) => IsValidLiteral(text)
    case AttrVar(i) => i < |op.attrs|
    case OperandVar(i) => i < |op.operands|
    case SuccessorVar(i) => i < |op.successors|
    case RegionVar(i) => i < |op.regions| && !op.regions[i].variadic
    case AttrDict(_) => true
    case AllOperands => true
    case AllSuccessors => true
    case TypeDir(a) => IsTypeArg(op, a)
    case FunctionalType(a, b) => IsTypeArg(op, a) && IsTypeArg(op, b)
    case SymbolDir(a) => a.AttrVar? && a.attr < |op.attrs|
    case _ => false
  }

  /** A group has an anchor that can be absent, and begins with something that can be. */
  predicate WfGroup(op: OpInfo, children: seq<Element>, anchor: nat) {
    && anchor < |children| && IsChild(op, children[anchor], true)
    && (children[0].Lit? || children[0].OperandVar?)
    && (forall e :: e in children ==> WfLeaf(op, e) && IsChild(op, e, false))
    && TypesInside(children)
  }

  predicate WfElement(op: OpInfo, e: Element) {
    if e.Opt? then WfGroup(op, e.elements, e.anchor) else WfLeaf(op, e)
  }

  // ----- Leaves and the flags they set

  function Elements(es: seq<Element>): set<Element> { set e | e in es }

  function Leaves(e: Element): set<Element> { if e.Opt? then Elements(e.elements) else {e} }

  function Flat(es: seq<Element>): set<Element> {
    if es == [] then {} else Flat(es[..|es| - 1]) + Leaves(es[|es| - 1])
  }

  function Args(e: Element): set<Element> {
    match e
    case TypeDir(a) => {a}
    case FunctionalType(a, b) => {a, b}
    case _ => {}
  }

  /** Everything a type is asked of. */
  function ArgsOf(ls: set<Element>): set<Element> { set l, a | l in ls && a in Args(l) :: a }

  function Bind(st: St, a: Element): St {
    match a
    case OperandVar(i) => st.(operandTypes := st.operandTypes + {i})
    case ResultVar(i) => st.(resultTypes := st.resultTypes + {i})
    case AllOperands => st.(allOperandTypes := true, hasAllOperands := true)
    case AllResults => st.(allResultTypes := true)
    case _ => st
  }

  predicate MayBind(st: St, a: Element) {
    match a
    case OperandVar(i) => !st.allOperandTypes && i !in st.operandTypes
    case ResultVar(i) => !st.allResultTypes && i !in st.resultTypes
    case AllOperands => !st.allOperandTypes && st.operandTypes == {}
    case AllResults => !st.allResultTypes && st.resultTypes == {}
    case _ => false
  }

  function After(st: St, e: Element): St {
    match e
    case AttrVar(i) => st.(attrs := st.attrs + {i})
    case OperandVar(i) => st.(operands := st.operands + {i})
    case SuccessorVar(i) => st.(successors := st.successors + {i})
    case RegionVar(i) => st.(regions := st.regions + {i})
    case AttrDict(_) => st.(hasAttrDict := true)
    case AllOperands => st.(hasAllOperands := true)
    case AllSuccessors => st.(hasAllSuccessors := true)
    case TypeDir(a) => Bind(st, a)
    case FunctionalType(a, b) => Bind(Bind(st, a), b)
    case _ => st
  }

  predicate May(op: OpInfo, st: St, e: Element) {
    && WfLeaf(op, e)
    && match e
       case AttrVar(i) => i !in st.attrs
       case OperandVar(i) => !st.hasAllOperands && i !in st.operands
       case SuccessorVar(i) => !st.hasAllSuccessors && i !in st.successors
       case RegionVar(i) => i !in st.regions
       case AttrDict(_) => !st.hasAttrDict
       case AllOperands => !st.hasAllOperands && st.operands == {}
       case AllSuccessors => !st.hasAllSuccessors && st.successors == {}
       case TypeDir(a) => MayBind(st, a)
       case FunctionalType(a, b) => MayBind(st, a) && MayBind(Bind(st, a), b)
       case _ => true
  }

  predicate SameFlags(a: St, b: St) { a.(toks := []) == b.(toks := []) }

  predicate VariableOk(op: OpInfo, st: St, top: bool, r: R<Element>)
    requires r.Ok?
  {
    if top then May(op, st, r.v) && !r.v.Opt? && SameFlags(r.st, After(st, r.v))
    else SameFlags(r.st, st) && (r.v.AttrVar? || r.v.OperandVar? || r.v.ResultVar?)
         && (r.v.AttrVar? ==> r.v.attr < |op.attrs|) && (!r.v.AttrVar? ==> IsTypeArg(op, r.v))
  }

  lemma OtherParsed(op: OpInfo, st: St, name: string, top: bool)
    requires Ends(st.toks) && ParseOther(op, st, name, top).Ok?
    ensures var r := ParseOther(op, st, name, top);
            VariableOk(op, st, top, r) && (r.v.ResultVar? || r.v.SuccessorVar? || r.v.RegionVar?)
  {
    hide Position, Ends;
  }

  lemma VariableParsed(op: OpInfo, st: St, top: bool)
    requires Ends(st.toks) && ParseVariable(op, st, top).Ok?
    ensures VariableOk(op, st, top, ParseVariable(op, st, top))
  {
    var name := st.toks[0].text[1..];
    if Position(op.attrs, AttrName, name).None? && Position(op.operands, ValueName, name).None? {
      OtherParsed(op, Take(st), name, top);
      hide ParseOther, Position, Ends;
      OtherMovedOn(op, st, Take(st), top, ParseOther(op, Take(st), name, top));
    } else {
      hide ParseOther, Position, Ends;
    }
  }

  lemma OtherMovedOn(op: OpInfo, a: St, b: St, top: bool, r: R<Element>)
    requires r.Ok? && SameFlags(a, b) && VariableOk(op, b, top, r)
             && (r.v.ResultVar? || r.v.SuccessorVar? || r.v.RegionVar?)
    ensures VariableOk(op, a, top, r)
  {
  }

  /** The argument of a type directive, before it is bound. */
  lemma ArgParsed(op: OpInfo, st: St)
    requires Ends(st.toks) && ParseElement(op, st, false).Ok?
    ensures var r := ParseElement(op, st, false);
            && (r.v == AllOperands ==> SameFlags(r.st, st.(hasAllOperands := true)))
            && (r.v == AllResults || r.v.OperandVar? || r.v.ResultVar? ==> SameFlags(r.st, st) && IsTypeArg(op, r.v))
  {
    hide ParseVariable, ParseType, ParseFunctionalType, ParseSymbol;
    if Cur(st) == Variable {
      VariableParsed(op, st, false);
    } else if Cur(st) == KwSymbol {
      SymbolParsed(op, Take(st));
    }
  }

  lemma TypeOperandParsed(op: OpInfo, st: St)
    requires Ends(st.toks) && ParseTypeOperand(op, st).Ok?
    ensures var r := ParseTypeOperand(op, st); IsTypeArg(op, r.v) && MayBind(st, r.v) && SameFlags(r.st, Bind(st, r.v))
  {
    ArgParsed(op, st);
    hide ParseElement;
  }

  lemma LeafParsed(op: OpInfo, st: St)
    requires Ends(st.toks) && ParseElement(op, st, true).Ok? && !ParseElement(op, st, true).v.Opt?
    ensures var r := ParseElement(op, st, true); May(op, st, r.v) && SameFlags(r.st, After(st, r.v))
  {
    hide ParseVariable, ParseDirective, ParseOptional, IsValidLiteral;
    if IsKeyword(Cur(st)) {
      hide May, After;
      DirectiveParsed(op, st);
    } else if Cur(st) == Variable {
      hide May, After;
      VariableParsed(op, st, true);
    } else if Cur(st) == LParen {
      GroupParsed(op, st);
    }
  }

  lemma GroupParsed(op: OpInfo, st: St)
    requires Ends(st.toks) && Cur(st) == LParen
    ensures ParseOptional(op, st).Ok? ==> ParseOptional(op, st).v.Opt?
  {
    hide ParseChildren, TypesInside;
  }

  lemma DirectiveParsed(op: OpInfo, st: St)
    requires Ends(st.toks) && IsKeyword(Cur(st)) && ParseDirective(op, st, true).Ok?
    ensures var r := ParseDirective(op, st, true); !r.v.Opt? && May(op, st, r.v) && SameFlags(r.st, After(st, r.v))
  {
    hide ParseType, ParseFunctionalType, ParseSymbol;
    match Cur(st) {
      case KwFunctionalType =>
        FunctionalParsed(op, Take(st));
        MovedOn(op, st, Take(st), ParseDirective(op, st, true).v);
      case KwType =>
        TypeParsed(op, Take(st));
        MovedOn(op, st, Take(st), ParseDirective(op, st, true).v);
      case KwSymbol =>
        SymbolParsed(op, Take(st));
        MovedOn(op, st, Take(st), ParseDirective(op, st, true).v);
      case _ =>
    }
  }

  /** Flags, and what they allow, do not depend on the tokens left. */
  lemma MovedOn(op: OpInfo, a: St, b: St, e: Element)
    requires SameFlags(a, b) && (e.TypeDir? || e.FunctionalType? || e.SymbolDir?)
    ensures May(op, a, e) == May(op, b, e) && SameFlags(After(a, e), After(b, e))
  {
    hide MayBind, Bind, SameFlags, WfLeaf;
    match e {
      case TypeDir(x) => BindMovedOn(a, b, x);
      case FunctionalType(x, y) =>
        BindMovedOn(a, b, x);
        BindMovedOn(Bind(a, x), Bind(b, x), y);
      case _ =>
    }
  }

  lemma BindMovedOn(a: St, b: St, e: Element)
    requires SameFlags(a, b)
    ensures MayBind(a, e) == MayBind(b, e) && SameFlags(Bind(a, e), Bind(b, e))
  {
  }

  lemma TypeParsed(op: OpInfo, st: St)
    requires Ends(st.toks) && ParseType(op, st).Ok?
    ensures var r := ParseType(op, st); r.v.TypeDir? && May(op, st, r.v) && SameFlags(r.st, After(st, r.v))
  {
    hide ParseTypeOperand, MayBind, Bind, IsTypeArg;
    var s1 := Take(st);
    TypeOperandParsed(op, s1);
    BindMovedOn(st, s1, ParseTypeOperand(op, s1).v);
  }

  lemma FunctionalParsed(op: OpInfo, st: St)
    requires Ends(st.toks) && ParseFunctionalType(op, st).Ok?
    ensures var r := ParseFunctionalType(op, st);
            r.v.FunctionalType? && May(op, st, r.v) && SameFlags(r.st, After(st, r.v))
  {
    hide ParseTypeOperand, MayBind, Bind, IsTypeArg;
    var s1 := Take(st);
    var r2 := ParseTypeOperand(op, s1);
    var s3 := Take(r2.st);
    var r4 := ParseTypeOperand(op, s3);
    TypeOperandParsed(op, s1);
    TypeOperandParsed(op, s3);
    BindMovedOn(st, s1, r2.v);
    BindMovedOn(Bind(st, r2.v), s3, r4.v);
  }

  lemma SymbolParsed(op: OpInfo, st: St)
    requires Ends(st.toks) && ParseSymbol(op, st).Ok?
    ensures var r := ParseSymbol(op, st); r.v.SymbolDir? && May(op, st, r.v) && SameFlags(r.st, After(st, r.v))
  {
    hide ParseVariable;
    VariableParsed(op, Take(st), false);
  }

  // ----- The flags are those of the leaves

  ghost predicate Inv(op: OpInfo, st: St, ls: set<Element>) {
    && (forall l :: l in ls ==> WfLeaf(op, l))
    && InvValues(st, ls) && InvTypes(st, ArgsOf(ls)) && InvLists(st, ls)
  }

  ghost predicate InvValues(st: St, ls: set<Element>) {
    && (forall i: nat {:trigger OperandVar(i)} :: (i in st.operands) == (OperandVar(i) in ls))
    && (forall i: nat {:trigger AttrVar(i)} :: (i in st.attrs) == (AttrVar(i) in ls))
    && (AllOperands in ls ==> st.operands == {})
    && st.hasAllOperands == (AllOperands in ls || st.allOperandTypes)
    && st.hasAttrDict == (AttrDict(false) in ls || AttrDict(true) in ls)
  }

  ghost predicate InvTypes(st: St, args: set<Element>) {
    && (forall i: nat {:trigger OperandVar(i)} :: (i in st.operandTypes) == (OperandVar(i) in args))
    && (forall i: nat {:trigger ResultVar(i)} :: (i in st.resultTypes) == (ResultVar(i) in args))
    && st.allOperandTypes == (AllOperands in args) && st.allResultTypes == (AllResults in args)
    && (st.allOperandTypes ==> st.operandTypes == {}) && (st.allResultTypes ==> st.resultTypes == {})
  }

  ghost predicate InvLists(st: St, ls: set<Element>) {
    && (forall i: nat {:trigger SuccessorVar(i)} :: (i in st.successors) == (SuccessorVar(i) in ls))
    && (forall i: nat {:trigger RegionVar(i)} :: (i in st.regions) == (RegionVar(i) in ls))
    && st.hasAllSuccessors == (AllSuccessors in ls) && (st.hasAllSuccessors ==> st.successors == {})
  }

  lemma AddLeaf(op: OpInfo, st: St, ls: set<Element>, e: Element)
    requires Inv(op, st, ls) && May(op, st, e)
    ensures Inv(op, After(st, e), ls + {e})
  {
    assert ArgsOf(ls + {e}) == ArgsOf(ls) + Args(e);
    hide ArgsOf;
    AddTypes(st, ArgsOf(ls), e);
    AddValues(st, ls, e);
    AddLists(st, ls, e);
  }

  lemma AddTypes(st: St, args: set<Element>, e: Element)
    requires InvTypes(st, args)
    requires e.TypeDir? ==> MayBind(st, e.arg)
    requires e.FunctionalType? ==> MayBind(st, e.inputs) && MayBind(Bind(st, e.inputs), e.results)
    ensures InvTypes(After(st, e), args + Args(e))
  {
    if e.TypeDir? {
      AddArg(st, args, e.arg);
    } else if e.FunctionalType? {
      AddArg(st, args, e.inputs);
      AddArg(Bind(st, e.inputs), args + {e.inputs}, e.results);
      assert args + {e.inputs} + {e.results} == args + Args(e);
    } else {
      assert args + Args(e) == args;
    }
  }

  lemma AddArg(st: St, args: set<Element>, a: Element)
    requires InvTypes(st, args) && MayBind(st, a)
    ensures InvTypes(Bind(st, a), args + {a})
  {
  }

  lemma BindFlags(st: St, a: Element)
    ensures var s := Bind(st, a);
            && s.operands == st.operands && s.hasAttrDict == st.hasAttrDict && s.successors == st.successors
               && s.regions == st.regions && s.attrs == st.attrs
            && s.hasAllSuccessors == st.hasAllSuccessors
            && s.hasAllOperands == (st.hasAllOperands || a == AllOperands)
               && s.allOperandTypes == (st.allOperandTypes || a == AllOperands)
  {
  }

  /** What a leaf does to the flags. */
  lemma AfterFlags(st: St, e: Element)
    ensures var s := After(st, e);
            && s.operands == (if e.OperandVar? then st.operands + {e.operand} else st.operands)
            && s.attrs == (if e.AttrVar? then st.attrs + {e.attr} else st.attrs)
            && s.hasAttrDict == (st.hasAttrDict || e.AttrDict?)
            && s.successors == (if e.SuccessorVar? then st.successors + {e.successor} else st.successors)
            && s.regions == (if e.RegionVar? then st.regions + {e.region} else st.regions)
            && s.hasAllSuccessors == (st.hasAllSuccessors || e.AllSuccessors?)
            && s.hasAllOperands == (st.hasAllOperands || e.AllOperands? || AllOperands in Args(e))
            && s.allOperandTypes == (st.allOperandTypes || AllOperands in Args(e))
  {
    hide Bind;
    match e {
      case TypeDir(a) => BindFlags(st, a);
      case FunctionalType(a, b) =>
        BindFlags(st, a);
        BindFlags(Bind(st, a), b);
      case _ =>
    }
  }

  lemma AddValues(st: St, ls: set<Element>, e: Element)
    requires InvValues(st, ls)
    requires e.OperandVar? ==> !st.hasAllOperands
    requires e.AllOperands? ==> st.operands == {}
    ensures InvValues(After(st, e), ls + {e})
  {
    AfterFlags(st, e);
    hide After;
    assert forall i: nat {:trigger OperandVar(i)} ::
             (OperandVar(i) in ls + {e}) == (OperandVar(i) in ls || e == OperandVar(i));
    assert forall i: nat {:trigger AttrVar(i)} ::
             (AttrVar(i) in ls + {e}) == (AttrVar(i) in ls || e == AttrVar(i));
  }

  lemma AddLists(st: St, ls: set<Element>, e: Element)
    requires InvLists(st, ls)
    requires e.SuccessorVar? ==> !st.hasAllSuccessors
    requires e.AllSuccessors? ==> st.successors == {}
    ensures InvLists(After(st, e), ls + {e})
  {
    AfterFlags(st, e);
    hide After;
    assert forall i: nat {:trigger SuccessorVar(i)} ::
             (SuccessorVar(i) in ls + {e}) == (SuccessorVar(i) in ls || e == SuccessorVar(i));
    assert forall i: nat {:trigger RegionVar(i)} ::
             (RegionVar(i) in ls + {e}) == (RegionVar(i) in ls || e == RegionVar(i));
  }

  lemma SameInv(op: OpInfo, a: St, b: St, ls: set<Element>)
    requires Inv(op, a, ls) && SameFlags(a, b)
    ensures Inv(op, b, ls)
  {
  }

  /** Parsing an element at the top level, or inside a group. */
  lemma {:induction false} ElementParsed(op: OpInfo, st: St, ls: set<Element>)
    requires Ends(st.toks) && Inv(op, st, ls) && ParseElement(op, st, true).Ok?
    ensures var r := ParseElement(op, st, true); Inv(op, r.st, ls + Leaves(r.v)) && WfElement(op, r.v)
    decreases |st.toks|, 1
  {
    hide Inv, May, After, WfLeaf, WfGroup;
    var r := ParseElement(op, st, true);
    if !r.v.Opt? {
      LeafParsed(op, st);
      AddLeaf(op, st, ls, r.v);
      SameInv(op, After(st, r.v), r.st, ls + {r.v});
      MayIsWf(op, st, r.v);
    } else {
      IsOptional(op, st);
      OptionalParsed(op, st, ls);
    }
  }

  lemma MayIsWf(op: OpInfo, st: St, e: Element)
    requires May(op, st, e)
    ensures WfLeaf(op, e)
  {
  }

  lemma IsOptional(op: OpInfo, st: St)
    requires Ends(st.toks) && ParseElement(op, st, true).Ok? && ParseElement(op, st, true).v.Opt?
    ensures Cur(st) == LParen && ParseElement(op, st, true) == ParseOptional(op, st)
  {
    if IsKeyword(Cur(st)) {
      DirectiveParsed(op, st);
    }
  }

  lemma {:induction false} OptionalParsed(op: OpInfo, st: St, ls: set<Element>)
    requires Ends(st.toks) && Cur(st) == LParen && Inv(op, st, ls) && ParseOptional(op, st).Ok?
    ensures var r := ParseOptional(op, st);
            r.v.Opt? && Inv(op, r.st, ls + Elements(r.v.elements)) && WfGroup(op, r.v.elements, r.v.anchor)
    decreases |st.toks|, 0
  {
    hide Inv;
    var next := Take(st);
    SameInv(op, st, next, ls);
    assert ls + Elements([]) == ls;
    var g := ParseChildren(op, next, Group([], None));
    ChildrenParsed(op, next, ls, Group([], None));
    var r := ParseOptional(op, st);
    SameInv(op, g.st, r.st, ls + Elements(g.v.children));
  }

  predicate GroupSoFar(op: OpInfo, g: Group) {
    && (forall e :: e in g.children ==> WfLeaf(op, e) && IsChild(op, e, false))
    && (g.anchor.Some? ==> g.anchor.value < |g.children| && IsChild(op, g.children[g.anchor.value], true))
  }

  lemma {:induction false} ChildrenParsed(op: OpInfo, st: St, ls: set<Element>, g: Group)
    requires Ends(st.toks) && Inv(op, st, ls + Elements(g.children)) && GroupSoFar(op, g)
             && ParseChildren(op, st, g).Ok?
    ensures var r := ParseChildren(op, st, g); Inv(op, r.st, ls + Elements(r.v.children)) && GroupSoFar(op, r.v)
    decreases |st.toks|, 3
  {
    hide Inv;
    var r := ParseChild(op, st, g);
    ChildParsed(op, st, ls, g);
    if Cur(r.st) != RParen {
      ChildrenParsed(op, r.st, ls, r.v);
    }
  }

  lemma {:induction false} ChildParsed(op: OpInfo, st: St, ls: set<Element>, g: Group)
    requires Ends(st.toks) && Inv(op, st, ls + Elements(g.children)) && GroupSoFar(op, g) && ParseChild(op, st, g).Ok?
    ensures var r := ParseChild(op, st, g); Inv(op, r.st, ls + Elements(r.v.children)) && GroupSoFar(op, r.v)
    decreases |st.toks|, 2
  {
    hide Inv, WfLeaf, WfGroup, ParseElement;
    var child := ParseElement(op, st, true);
    ElementParsed(op, st, ls + Elements(g.children));
    var r := ParseChild(op, st, g);
    SameInv(op, child.st, r.st, ls + Elements(g.children) + Leaves(child.v));
    assert !child.v.Opt?;
    assert ls + Elements(g.children) + {child.v} == ls + Elements(g.children + [child.v]);
  }

  /** For every token list: the elements of a parsed format are well formed, and what has been seen
      is exactly what they say. */
  lemma {:induction false} ElementsParsed(op: OpInfo, st: St, es: seq<Element>)
    requires Ends(st.toks) && Inv(op, st, Flat(es)) && (forall e :: e in es ==> WfElement(op, e))
             && ParseElements(op, st, es).Ok?
    ensures var r := ParseElements(op, st, es); Inv(op, r.st, Flat(r.v)) && forall e :: e in r.v ==> WfElement(op, e)
    decreases |st.toks|
  {
    hide Inv, WfElement, ParseElement;
    if Cur(st) != Eof {
      var r := ParseElement(op, st, true);
      ElementParsed(op, st, Flat(es));
      assert (es + [r.v])[..|es|] == es;
      ElementsParsed(op, r.st, es + [r.v]);
    }
  }

  lemma StartInv(op: OpInfo, toks: seq<Tok>)
    ensures Inv(op, Start(toks), {})
  {
  }
}
