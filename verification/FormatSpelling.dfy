/** Which token lists are formats, and of which elements. */
module FormatSpelling {
  // A format is read as a list of elements exactly when it spells them, in order, and each of them may
  // stand after those before it.  Both are said of the elements, without the state of the parser.

  import opened FormatLexer
  import opened FormatGrammar
  import opened FormatAccepted

  // ----- Spelling

  /** A variable without the dollar sign. */
  function Name(t: Tok): string { if t.text == "" then "" else t.text[1..] }

  predicate IsFirst<T>(xs: seq<T>, name: T -> string, i: nat, wanted: string) {
    i < |xs| && name(xs[i]) == wanted && forall j :: 0 <= j < i ==> name(xs[j]) != wanted
  }

  predicate Absent<T>(xs: seq<T>, name: T -> string, wanted: string) {
    forall j :: 0 <= j < |xs| ==> name(xs[j]) != wanted
  }

  predicate NoAttr(op: OpInfo, name: string) { Absent(op.attrs, AttrName, name) }

  predicate NoValue(op: OpInfo, name: string) {
    NoAttr(op, name) && Absent(op.operands, ValueName, name) && Absent(op.results, ValueName, name)
  }

  /** The first attribute, operand, result, successor or region of that name, in this order. */
  predicate Denotes(op: OpInfo, name: string, e: Element) {
    match e
    case AttrVar(i) => IsFirst(op.attrs, AttrName, i, name)
    case OperandVar(i) => NoAttr(op, name) && IsFirst(op.operands, ValueName, i, name)
    case ResultVar(i) =>
      NoAttr(op, name) && Absent(op.operands, ValueName, name) && IsFirst(op.results, ValueName, i, name)
    case SuccessorVar(i) => NoValue(op, name) && IsFirst(op.successors, ListName, i, name)
    case RegionVar(i) =>
      NoValue(op, name) && Absent(op.successors, ListName, name) && IsFirst(op.regions, ListName, i, name)
    case _ => false
  }

  /** How many tokens an element takes. */
  function Size(e: Element): (n: nat)
    ensures n > 0
    decreases e, 0
  {
    match e
    case TypeDir(_) => 4
    case FunctionalType(_, _) => 6
    case SymbolDir(_) => 4
    case Opt(es, anchor) => SizeFrom(es, Some(anchor), 0) + 3
    case _ => 1
  }

  /** The children from `k` on, with the caret of the anchor. */
  function SizeFrom(es: seq<Element>, anchor: Option<nat>, k: nat): nat
    decreases es, |es| - k
  {
    if k >= |es| then 0 else Size(es[k]) + (if anchor == Some(k) then 1 else 0) + SizeFrom(es, anchor, k + 1)
  }

  predicate SpellsArg(op: OpInfo, a: Element, t: Tok) {
    match a
    case OperandVar(_) => t.kind == Variable && Denotes(op, Name(t), a)
    case ResultVar(_) => t.kind == Variable && Denotes(op, Name(t), a)
    case AllOperands => t.kind == KwOperands
    case AllResults => t.kind == KwResults
    case _ => false
  }

  predicate SpellsLeaf(op: OpInfo, e: Element, w: seq<Tok>) {
    |w| == Size(e) &&
    match e
    case Lit(text) => w[0].kind == Literal && |w[0].text| >= 2 && w[0].text[1..|w[0].text| - 1] == text
    case AttrVar(_) => w[0].kind == Variable && Denotes(op, Name(w[0]), e)
    case OperandVar(_) => w[0].kind == Variable && Denotes(op, Name(w[0]), e)
    case SuccessorVar(_) => w[0].kind == Variable && Denotes(op, Name(w[0]), e)
    case RegionVar(_) => w[0].kind == Variable && Denotes(op, Name(w[0]), e)
    case AttrDict(withKeyword) => w[0].kind == if withKeyword then KwAttrDictWithKeyword else KwAttrDict
    case AllOperands => w[0].kind == KwOperands
    case AllSuccessors => w[0].kind == KwSuccessors
    case TypeDir(a) => w[0].kind == KwType && w[1].kind == LParen && SpellsArg(op, a, w[2]) && w[3].kind == RParen
    case FunctionalType(a, b) =>
      && w[0].kind == KwFunctionalType && w[1].kind == LParen && SpellsArg(op, a, w[2])
      && w[3].kind == Comma && SpellsArg(op, b, w[4]) && w[5].kind == RParen
    case SymbolDir(a) =>
      w[0].kind == KwSymbol && w[1].kind == LParen && a.AttrVar? && Denotes(op, Name(w[2]), a) && w[3].kind == RParen
    case _ => false
  }

  /** The children of a group from `k` on; the anchor is followed by a caret. */
  predicate SpellsChildren(op: OpInfo, es: seq<Element>, anchor: Option<nat>, k: nat, w: seq<Tok>)
    decreases |es| - k
  {
    if k >= |es| then w == []
    else
      var n := Size(es[k]);
      && |w| >= n && SpellsLeaf(op, es[k], w[..n])
      && if anchor == Some(k) then |w| > n && w[n].kind == Caret && SpellsChildren(op, es, anchor, k + 1, w[n + 1..])
         else SpellsChildren(op, es, anchor, k + 1, w[n..])
  }

  predicate Spells(op: OpInfo, e: Element, w: seq<Tok>) {
    if e.Opt? then
      var n := |w|;
      && n >= 3 && w[0].kind == LParen && w[n - 2].kind == RParen && w[n - 1].kind == Question
      && SpellsChildren(op, e.elements, Some(e.anchor), 0, w[1..n - 2])
    else SpellsLeaf(op, e, w)
  }

  predicate SpellsList(op: OpInfo, es: seq<Element>, w: seq<Tok>) {
    if es == [] then w == []
    else |w| >= Size(es[0]) && Spells(op, es[0], w[..Size(es[0])]) && SpellsList(op, es[1..], w[Size(es[0])..])
  }

  // ----- What may stand after what

  /** The type of a variable, or of all, is asked for once. */
  ghost predicate MayAsk(asked: set<Element>, a: Element) {
    match a
    case OperandVar(_) => AllOperands !in asked && a !in asked
    case ResultVar(_) => AllResults !in asked && a !in asked
    case AllOperands => a !in asked && forall x :: x in asked ==> !x.OperandVar?
    case AllResults => a !in asked && forall x :: x in asked ==> !x.ResultVar?
    case _ => false
  }

  /** `ls` are the elements before, those in groups included. */
  ghost predicate Allowed(op: OpInfo, ls: set<Element>, e: Element) {
    && WfLeaf(op, e)
    && match e
       case AttrVar(_) => e !in ls
       case OperandVar(_) => e !in ls && AllOperands !in ls && AllOperands !in ArgsOf(ls)
       case SuccessorVar(_) => e !in ls && AllSuccessors !in ls
       case RegionVar(_) => e !in ls
       case AttrDict(_) => AttrDict(false) !in ls && AttrDict(true) !in ls
       case AllOperands => e !in ls && e !in ArgsOf(ls) && forall x :: x in ls ==> !x.OperandVar?
       case AllSuccessors => e !in ls && forall x :: x in ls ==> !x.SuccessorVar?
       case TypeDir(a) => MayAsk(ArgsOf(ls), a)
       case FunctionalType(a, b) => MayAsk(ArgsOf(ls), a) && MayAsk(ArgsOf(ls) + {a}, b)
       case _ => true
  }

  ghost predicate AllowedFrom(op: OpInfo, ls: set<Element>, es: seq<Element>, k: nat)
    decreases |es| - k
  {
    k >= |es| || (Allowed(op, ls, es[k]) && AllowedFrom(op, ls + {es[k]}, es, k + 1))
  }

  /** A group begins with a literal or an operand, holds literals, attributes, variadic operands and the
      types of its own operands, and its anchor is something that an op may leave out. */
  predicate GroupAllowed(op: OpInfo, es: seq<Element>, anchor: nat) {
    && anchor < |es| && (es[0].Lit? || es[0].OperandVar?)
    && (match es[anchor]
        case AttrVar(i) => i < |op.attrs| && op.attrs[i].canAnchor
        case OperandVar(_) => true
        case _ => false)
    && forall k :: 0 <= k < |es| ==>
         match es[k]
         case Lit(_) => true
         case AttrVar(i) => i < |op.attrs|
         case OperandVar(i) => i < |op.operands| && op.operands[i].variadic
         case TypeDir(a) => a.OperandVar? && a in es
         case FunctionalType(a, b) => a.OperandVar? && a in es && b.OperandVar? && b in es
         case _ => false
  }

  ghost predicate ElementAllowed(op: OpInfo, ls: set<Element>, e: Element) {
    if e.Opt? then GroupAllowed(op, e.elements, e.anchor) && AllowedFrom(op, ls, e.elements, 0) else Allowed(op, ls, e)
  }

  ghost predicate Formed(op: OpInfo, ls: set<Element>, es: seq<Element>)
    decreases |es|
  {
    es == [] ||
    (&& ElementAllowed(op, ls, es[0])
     && Formed(op, ls + Leaves(es[0]), es[1..]))
  }

  // ----- Variables

  lemma {:induction false} PositionFirst<T>(xs: seq<T>, name: T -> string, wanted: string)
    ensures Position(xs, name, wanted).Some? ==> IsFirst(xs, name, Position(xs, name, wanted).value, wanted)
    ensures Position(xs, name, wanted).None? <==> Absent(xs, name, wanted)
    decreases |xs|
  {
    if xs != [] && name(xs[0]) != wanted {
      PositionFirst(xs[1..], name, wanted);
      assert forall j :: 0 < j < |xs| ==> xs[j] == xs[1..][j - 1];
    }
  }

  lemma FirstPosition<T>(xs: seq<T>, name: T -> string, i: nat, wanted: string)
    requires IsFirst(xs, name, i, wanted)
    ensures Position(xs, name, wanted) == Some(i)
  {
    hide Position;
    PositionFirst(xs, name, wanted);
  }

  lemma Names(op: OpInfo, name: string)
    ensures Position(op.attrs, AttrName, name).None? <==> NoAttr(op, name)
    ensures Position(op.operands, ValueName, name).None? <==> Absent(op.operands, ValueName, name)
    ensures Position(op.results, ValueName, name).None? <==> Absent(op.results, ValueName, name)
    ensures Position(op.successors, ListName, name).None? <==> Absent(op.successors, ListName, name)
  {
    hide Position, Absent;
    PositionFirst(op.attrs, AttrName, name);
    PositionFirst(op.operands, ValueName, name);
    PositionFirst(op.results, ValueName, name);
    PositionFirst(op.successors, ListName, name);
  }

  lemma VariableSpelled(op: OpInfo, st: St, top: bool)
    requires Ends(st.toks) && ParseVariable(op, st, top).Ok?
    ensures var r := ParseVariable(op, st, top);
            !Last(Cur(st)) && Denotes(op, Name(st.toks[0]), r.v) && r.st.toks == st.toks[1..]
  {
    hide Position, Absent, IsFirst;
    var name := st.toks[0].text[1..];
    Names(op, name);
    PositionFirst(op.attrs, AttrName, name);
    PositionFirst(op.operands, ValueName, name);
    PositionFirst(op.results, ValueName, name);
    PositionFirst(op.successors, ListName, name);
    PositionFirst(op.regions, ListName, name);
  }

  predicate IsValue(e: Element) { e.AttrVar? || e.OperandVar? || e.ResultVar? }

  predicate IsVariable(e: Element) { e.AttrVar? || e.OperandVar? || e.SuccessorVar? || e.RegionVar? }

  lemma VariableRead(op: OpInfo, st: St, e: Element)
    requires Ends(st.toks) && !Last(Cur(st)) && Denotes(op, Name(st.toks[0]), e) && IsVariable(e) && May(op, st, e)
    ensures ParseVariable(op, st, true) == Ok(e, After(st, e).(toks := st.toks[1..]))
  {
    hide Position, Absent, IsFirst;
    PositionsOf(op, Name(st.toks[0]), e);
  }

  lemma ValueRead(op: OpInfo, st: St, e: Element)
    requires Ends(st.toks) && !Last(Cur(st)) && Denotes(op, Name(st.toks[0]), e) && IsValue(e)
    ensures ParseVariable(op, st, false) == Ok(e, Take(st))
  {
    hide Position, Absent, IsFirst;
    PositionsOf(op, Name(st.toks[0]), e);
  }

  lemma PositionsOf(op: OpInfo, name: string, e: Element)
    requires Denotes(op, name, e)
    ensures e.AttrVar? ==> Position(op.attrs, AttrName, name) == Some(e.attr)
    ensures !e.AttrVar? ==> Position(op.attrs, AttrName, name).None?
    ensures e.OperandVar? ==> Position(op.operands, ValueName, name) == Some(e.operand)
    ensures !e.AttrVar? && !e.OperandVar? ==> Position(op.operands, ValueName, name).None?
    ensures e.ResultVar? ==> Position(op.results, ValueName, name) == Some(e.result)
    ensures e.SuccessorVar? || e.RegionVar? ==> Position(op.results, ValueName, name).None?
    ensures e.SuccessorVar? ==> Position(op.successors, ListName, name) == Some(e.successor)
    ensures e.RegionVar? ==> Position(op.successors, ListName, name).None?
    ensures e.RegionVar? ==> Position(op.regions, ListName, name) == Some(e.region)
  {
    hide Position, Absent, IsFirst;
    Names(op, name);
    match e {
      case AttrVar(i) => FirstPosition(op.attrs, AttrName, i, name);
      case OperandVar(i) => FirstPosition(op.operands, ValueName, i, name);
      case ResultVar(i) => FirstPosition(op.results, ValueName, i, name);
      case SuccessorVar(i) => FirstPosition(op.successors, ListName, i, name);
      case RegionVar(i) => FirstPosition(op.regions, ListName, i, name);
      case _ =>
    }
  }

  // ----- Directives

  lemma ArgSpelled(op: OpInfo, st: St)
    requires Ends(st.toks) && ParseTypeOperand(op, st).Ok?
    ensures var r := ParseTypeOperand(op, st);
            !Last(Cur(st)) && SpellsArg(op, r.v, st.toks[0]) && r.st.toks == st.toks[1..]
  {
    hide ParseElement;
    var r := ParseElement(op, st, false);
    if Cur(st) == Variable {
      hide ParseVariable;
      assert r == ParseVariable(op, st, false) by {
        VariableElement(op, st);
      }
      VariableSpelled(op, st, false);
    } else {
      OtherArg(op, st);
    }
  }

  lemma VariableElement(op: OpInfo, st: St)
    requires Ends(st.toks) && Cur(st) == Variable
    ensures ParseElement(op, st, false) == ParseVariable(op, st, false)
  {
    hide ParseVariable;
  }

  /** All operands or results are the only arguments that are no variables. */
  lemma OtherArg(op: OpInfo, st: St)
    requires Ends(st.toks) && ParseTypeOperand(op, st).Ok? && Cur(st) != Variable
    ensures var r := ParseTypeOperand(op, st);
            && r.st.toks == st.toks[1..] && !Last(Cur(st))
            && ((Cur(st) == KwOperands && r.v == AllOperands) || (Cur(st) == KwResults && r.v == AllResults))
  {
    hide ParseType, ParseFunctionalType, ParseSymbol, IsValidLiteral;
    var r := ParseElement(op, st, false);
    assert ParseTypeOperand(op, st) == BindType(r.st, r.v);
    if IsKeyword(Cur(st)) {
      assert r == ParseDirective(op, st, false);
      if Cur(st) == KwSymbol {
        assert r == ParseSymbol(op, Take(st));
        SymbolParsed(op, Take(st));
      }
    }
  }

  lemma ArgRead(op: OpInfo, st: St, a: Element)
    requires Ends(st.toks) && !Last(Cur(st)) && SpellsArg(op, a, st.toks[0]) && MayBind(st, a)
    ensures ParseTypeOperand(op, st) == Ok(a, Bind(st, a).(toks := st.toks[1..]))
  {
    hide ParseVariable, Denotes, Ends;
    if a.OperandVar? || a.ResultVar? {
      ValueRead(op, st, a);
      assert ParseElement(op, st, false) == Ok(a, Take(st));
    } else {
      assert ParseElement(op, st, false) == ParseDirective(op, st, false);
    }
  }

  lemma TypeSpelled(op: OpInfo, st: St)
    requires Ends(st.toks) && ParseType(op, st).Ok?
    ensures var r := ParseType(op, st);
            && |st.toks| > 3 && r.v.TypeDir? && st.toks[0].kind == LParen && SpellsArg(op, r.v.arg, st.toks[1])
            && st.toks[2].kind == RParen && r.st.toks == st.toks[3..]
  {
    hide ParseTypeOperand, SpellsArg;
    ArgSpelled(op, Take(st));
  }

  lemma ExpectAt(st: St, toks: seq<Tok>, k: nat, kind: Kind)
    requires Ends(toks) && k + 1 < |toks| && toks[k].kind == kind && !Last(kind)
    ensures Ends(toks[k..]) && Expect(st.(toks := toks[k..]), kind) == Ok((), st.(toks := toks[k + 1..]))
  {
    assert toks[k..][1..] == toks[k + 1..];
  }

  lemma ArgAt(op: OpInfo, st: St, toks: seq<Tok>, k: nat, a: Element)
    requires Ends(toks) && k + 1 < |toks| && SpellsArg(op, a, toks[k]) && MayBind(st, a)
    ensures Ends(toks[k..])
    ensures ParseTypeOperand(op, st.(toks := toks[k..])) == Ok(a, Bind(st, a).(toks := toks[k + 1..]))
  {
    hide ParseTypeOperand, SpellsArg, MayBind, Bind;
    EndsFrom(toks, k);
    BindToks(st, a, toks[k..]);
    ArgRead(op, st.(toks := toks[k..]), a);
    assert toks[k..][1..] == toks[k + 1..];
  }

  lemma EndsFrom(toks: seq<Tok>, n: nat)
    requires Ends(toks) && n < |toks|
    ensures Ends(toks[n..])
  {
  }

  lemma TypeRead(op: OpInfo, st: St, a: Element)
    requires Ends(st.toks) && |st.toks| > 3 && st.toks[0].kind == LParen && SpellsArg(op, a, st.toks[1])
             && st.toks[2].kind == RParen && MayBind(st, a)
    ensures ParseType(op, st) == Ok(TypeDir(a), Bind(st, a).(toks := st.toks[3..]))
  {
    hide ParseTypeOperand, SpellsArg, MayBind, Bind, Expect, Ends;
    var toks := st.toks;
    assert toks[0..] == toks;
    ExpectAt(st, toks, 0, LParen);
    ArgAt(op, st, toks, 1, a);
    ExpectAt(Bind(st, a), toks, 2, RParen);
  }

  lemma BindToks(st: St, a: Element, toks: seq<Tok>)
    ensures MayBind(st.(toks := toks), a) == MayBind(st, a)
    ensures Bind(st.(toks := toks), a) == Bind(st, a).(toks := toks)
  {
  }

  lemma FunctionalSpelled(op: OpInfo, st: St)
    requires Ends(st.toks) && ParseFunctionalType(op, st).Ok?
    ensures var r := ParseFunctionalType(op, st);
            && |st.toks| > 5 && r.v.FunctionalType? && st.toks[0].kind == LParen
            && SpellsArg(op, r.v.inputs, st.toks[1]) && st.toks[2].kind == Comma
            && SpellsArg(op, r.v.results, st.toks[3]) && st.toks[4].kind == RParen && r.st.toks == st.toks[5..]
  {
    hide ParseTypeOperand, SpellsArg;
    var s1 := Take(st);
    ArgSpelled(op, s1);
    ArgSpelled(op, Take(ParseTypeOperand(op, s1).st));
  }

  lemma FunctionalRead(op: OpInfo, st: St, a: Element, b: Element)
    requires Ends(st.toks) && |st.toks| > 5 && st.toks[0].kind == LParen && SpellsArg(op, a, st.toks[1])
             && st.toks[2].kind == Comma && SpellsArg(op, b, st.toks[3]) && st.toks[4].kind == RParen
             && MayBind(st, a) && MayBind(Bind(st, a), b)
    ensures ParseFunctionalType(op, st) == Ok(FunctionalType(a, b), Bind(Bind(st, a), b).(toks := st.toks[5..]))
  {
    hide ParseTypeOperand, ParseResultTypes, SpellsArg, MayBind, Bind, Expect, Ends;
    var toks := st.toks;
    assert toks[0..] == toks;
    ExpectAt(st, toks, 0, LParen);
    ArgAt(op, st, toks, 1, a);
    ExpectAt(Bind(st, a), toks, 2, Comma);
    ResultTypesRead(op, Bind(st, a), toks, a, b);
  }

  lemma ResultTypesRead(op: OpInfo, st: St, toks: seq<Tok>, a: Element, b: Element)
    requires Ends(toks) && |toks| > 5 && SpellsArg(op, b, toks[3]) && toks[4].kind == RParen && MayBind(st, b)
    ensures Ends(toks[3..])
    ensures ParseResultTypes(op, st.(toks := toks[3..]), a)
            == Ok(FunctionalType(a, b), Bind(st, b).(toks := toks[5..]))
  {
    hide ParseTypeOperand, SpellsArg, MayBind, Bind, Expect, Ends;
    ArgAt(op, st, toks, 3, b);
    ExpectAt(Bind(st, b), toks, 4, RParen);
  }

  lemma SymbolSpelled(op: OpInfo, st: St)
    requires Ends(st.toks) && ParseSymbol(op, st).Ok?
    ensures var r := ParseSymbol(op, st);
            && |st.toks| > 3 && r.v.SymbolDir? && st.toks[0].kind == LParen && r.v.symbol.AttrVar?
            && Denotes(op, Name(st.toks[1]), r.v.symbol) && st.toks[2].kind == RParen && r.st.toks == st.toks[3..]
  {
    hide ParseVariable, Denotes;
    VariableSpelled(op, Take(st), false);
  }

  lemma SymbolRead(op: OpInfo, st: St, a: Element)
    requires Ends(st.toks) && |st.toks| > 3 && st.toks[0].kind == LParen && a.AttrVar?
             && Denotes(op, Name(st.toks[1]), a) && st.toks[2].kind == RParen
    ensures ParseSymbol(op, st) == Ok(SymbolDir(a), st.(toks := st.toks[3..]))
  {
    hide ParseVariable, Denotes;
    var s1 := Take(st);
    ValueRead(op, s1, a);
    assert s1.toks[1..][1..] == st.toks[3..];
  }

  // ----- Elements that are no groups

  /** After reading `e`: its flags are set and its tokens gone. */
  function Past(st: St, e: Element): St
    requires |st.toks| >= Size(e)
  {
    After(st, e).(toks := st.toks[Size(e)..])
  }

  lemma DirectiveSpelled(op: OpInfo, st: St)
    requires Ends(st.toks) && IsKeyword(Cur(st)) && ParseDirective(op, st, true).Ok?
    ensures var r := ParseDirective(op, st, true);
            |st.toks| > Size(r.v) && SpellsLeaf(op, r.v, st.toks[..Size(r.v)]) && r.st.toks == st.toks[Size(r.v)..]
  {
    if Cur(st) == KwType || Cur(st) == KwFunctionalType || Cur(st) == KwSymbol {
      LongSpelled(op, st);
    } else {
      hide SpellsArg, Denotes;
    }
  }

  lemma LongSpelled(op: OpInfo, st: St)
    requires Ends(st.toks) && IsKeyword(Cur(st)) && ParseDirective(op, st, true).Ok?
    requires Cur(st) == KwType || Cur(st) == KwFunctionalType || Cur(st) == KwSymbol
    ensures var r := ParseDirective(op, st, true);
            |st.toks| > Size(r.v) && SpellsLeaf(op, r.v, st.toks[..Size(r.v)]) && r.st.toks == st.toks[Size(r.v)..]
  {
    hide ParseType, ParseFunctionalType, ParseSymbol, SpellsArg, Denotes;
    if Cur(st) == KwType {
      TypeSpelled(op, Take(st));
      assert st.toks[1..][3..] == st.toks[4..];
    } else if Cur(st) == KwFunctionalType {
      FunctionalSpelled(op, Take(st));
      assert st.toks[1..][5..] == st.toks[6..];
    } else {
      SymbolSpelled(op, Take(st));
      assert st.toks[1..][3..] == st.toks[4..];
    }
  }

  lemma DirectiveRead(op: OpInfo, st: St, e: Element)
    requires Ends(st.toks) && |st.toks| > Size(e) && SpellsLeaf(op, e, st.toks[..Size(e)]) && May(op, st, e)
    requires IsKeyword(Cur(st))
    ensures ParseDirective(op, st, true) == Ok(e, Past(st, e))
  {
    if e.TypeDir? || e.FunctionalType? || e.SymbolDir? {
      LongRead(op, st, e);
    } else {
      ShortRead(op, st, e);
    }
  }

  /** The directives without arguments. */
  lemma ShortRead(op: OpInfo, st: St, e: Element)
    requires Ends(st.toks) && |st.toks| > Size(e) && SpellsLeaf(op, e, st.toks[..Size(e)]) && May(op, st, e)
    requires IsKeyword(Cur(st)) && !e.TypeDir? && !e.FunctionalType? && !e.SymbolDir?
    ensures ParseDirective(op, st, true) == Ok(e, Past(st, e))
  {
    hide SpellsArg, Denotes, ParseType, ParseFunctionalType, ParseSymbol, MayBind, Bind, WfLeaf;
  }

  /** The directives with arguments. */
  lemma LongRead(op: OpInfo, st: St, e: Element)
    requires Ends(st.toks) && |st.toks| > Size(e) && SpellsLeaf(op, e, st.toks[..Size(e)]) && May(op, st, e)
    requires e.TypeDir? || e.FunctionalType? || e.SymbolDir?
    ensures IsKeyword(Cur(st)) && ParseDirective(op, st, true) == Ok(e, Past(st, e))
  {
    hide ParseDirective, SpellsArg, Denotes, MayBind, Bind, Ends;
    if e.TypeDir? {
      TypeWhole(op, st, e.arg);
    } else if e.SymbolDir? {
      SymbolWhole(op, st, e.symbol);
    } else {
      FunctionalWhole(op, st, e.inputs, e.results);
    }
  }

  lemma TypeWhole(op: OpInfo, st: St, a: Element)
    requires Ends(st.toks) && |st.toks| > 4 && Cur(st) == KwType && st.toks[1].kind == LParen
             && SpellsArg(op, a, st.toks[2]) && st.toks[3].kind == RParen && MayBind(st, a)
    ensures ParseDirective(op, st, true) == Ok(TypeDir(a), Bind(st, a).(toks := st.toks[4..]))
  {
    hide ParseType, SpellsArg, MayBind, Bind;
    BindToks(st, a, st.toks[1..]);
    TypeRead(op, Take(st), a);
    assert st.toks[1..][3..] == st.toks[4..];
  }

  lemma FunctionalWhole(op: OpInfo, st: St, a: Element, b: Element)
    requires Ends(st.toks) && |st.toks| > 6 && Cur(st) == KwFunctionalType && st.toks[1].kind == LParen
             && SpellsArg(op, a, st.toks[2]) && st.toks[3].kind == Comma && SpellsArg(op, b, st.toks[4])
             && st.toks[5].kind == RParen && MayBind(st, a) && MayBind(Bind(st, a), b)
    ensures ParseDirective(op, st, true) == Ok(FunctionalType(a, b), Bind(Bind(st, a), b).(toks := st.toks[6..]))
  {
    hide ParseFunctionalType, SpellsArg, MayBind, Bind;
    BindToks(st, a, st.toks[1..]);
    BindToks(Bind(st, a), b, st.toks[1..]);
    FunctionalRead(op, Take(st), a, b);
    assert st.toks[1..][5..] == st.toks[6..];
  }

  lemma SymbolWhole(op: OpInfo, st: St, a: Element)
    requires Ends(st.toks) && |st.toks| > 4 && Cur(st) == KwSymbol && st.toks[1].kind == LParen && a.AttrVar?
             && Denotes(op, Name(st.toks[2]), a) && st.toks[3].kind == RParen
    ensures ParseDirective(op, st, true) == Ok(SymbolDir(a), st.(toks := st.toks[4..]))
  {
    hide ParseSymbol, Denotes;
    SymbolRead(op, Take(st), a);
    assert st.toks[1..][3..] == st.toks[4..];
  }

  lemma LeafSpelled(op: OpInfo, st: St)
    requires Ends(st.toks) && ParseElement(op, st, true).Ok? && !ParseElement(op, st, true).v.Opt?
    ensures var r := ParseElement(op, st, true);
            |st.toks| > Size(r.v) && SpellsLeaf(op, r.v, st.toks[..Size(r.v)]) && r.st == Past(st, r.v)
            && May(op, st, r.v)
  {
    hide ParseVariable, ParseDirective, ParseOptional, IsValidLiteral, Denotes, After, May;
    LeafParsed(op, st);
    if IsKeyword(Cur(st)) {
      DirectiveSpelled(op, st);
    } else if Cur(st) == Variable {
      VariableSpelled(op, st, true);
      VariableForm(op, st);
    } else if Cur(st) == LParen {
      GroupParsed(op, st);
    } else {
      LiteralForm(op, st);
    }
  }

  lemma VariableForm(op: OpInfo, st: St)
    requires Ends(st.toks) && ParseVariable(op, st, true).Ok?
    ensures IsVariable(ParseVariable(op, st, true).v)
  {
    hide Position, Ends;
  }

  lemma LiteralForm(op: OpInfo, st: St)
    requires Ends(st.toks) && Cur(st) == Literal && IsValidLiteral(Unquote(st.toks[0].text))
    ensures |st.toks[0].text| >= 2 && |st.toks| > 1
  {
  }

  lemma LeafRead(op: OpInfo, st: St, e: Element)
    requires Ends(st.toks) && |st.toks| > Size(e) && SpellsLeaf(op, e, st.toks[..Size(e)]) && May(op, st, e)
    ensures ParseElement(op, st, true) == Ok(e, Past(st, e))
  {
    hide ParseVariable, ParseDirective, ParseOptional, IsValidLiteral, Denotes, MayBind, Bind, SpellsArg;
    if IsKeyword(Cur(st)) {
      DirectiveRead(op, st, e);
    } else if Cur(st) == Variable {
      VariableRead(op, st, e);
    }
  }

  // ----- Groups

  function AfterFrom(st: St, es: seq<Element>, k: nat): St
    decreases |es| - k
  {
    if k >= |es| then st else AfterFrom(After(st, es[k]), es, k + 1)
  }

  predicate MayFrom(op: OpInfo, st: St, es: seq<Element>, k: nat)
    decreases |es| - k
  {
    k >= |es| || (May(op, st, es[k]) && MayFrom(op, After(st, es[k]), es, k + 1))
  }

  lemma MayToks(op: OpInfo, st: St, e: Element, toks: seq<Tok>)
    ensures May(op, st.(toks := toks), e) == May(op, st, e)
    ensures After(st.(toks := toks), e) == After(st, e).(toks := toks)
  {
    hide MayBind, Bind, WfLeaf;
    if e.TypeDir? {
      BindToks(st, e.arg, toks);
    } else if e.FunctionalType? {
      BindToks(st, e.inputs, toks);
      BindToks(Bind(st, e.inputs), e.results, toks);
    } else {
      LeafToks(op, st, e, toks);
    }
  }

  lemma LeafToks(op: OpInfo, st: St, e: Element, toks: seq<Tok>)
    requires !e.TypeDir? && !e.FunctionalType?
    ensures May(op, st.(toks := toks), e) == May(op, st, e)
    ensures After(st.(toks := toks), e) == After(st, e).(toks := toks)
  {
    hide WfLeaf;
  }

  lemma {:induction false} FromToks(op: OpInfo, st: St, es: seq<Element>, k: nat, toks: seq<Tok>)
    ensures MayFrom(op, st.(toks := toks), es, k) == MayFrom(op, st, es, k)
    ensures AfterFrom(st.(toks := toks), es, k) == AfterFrom(st, es, k).(toks := toks)
    decreases |es| - k
  {
    hide May, After;
    if k < |es| {
      MayToks(op, st, es[k], toks);
      FromToks(op, After(st, es[k]), es, k + 1, toks);
    }
  }

  /** No element begins with what may follow a child of a group. */
  lemma FirstToken(op: OpInfo, e: Element, w: seq<Tok>)
    requires SpellsLeaf(op, e, w)
    ensures w[0].kind != Caret && w[0].kind != RParen
  {
    hide Denotes, SpellsArg;
  }

  /** What a child takes, with its caret. */
  function Taken(e: Element, isAnchor: bool): nat { Size(e) + if isAnchor then 1 else 0 }

  lemma ChildSpelled(op: OpInfo, st: St, g: Group)
    requires Ends(st.toks) && ParseChild(op, st, g).Ok?
    ensures var r := ParseChild(op, st, g);
            && |r.v.children| == |g.children| + 1 && r.v.children[..|g.children|] == g.children
            && var (e, k) := (r.v.children[|g.children|], |g.children|);
            && (r.v.anchor == g.anchor || (r.v.anchor == Some(k) && g.anchor.None?)) && !e.Opt?
            && IsChild(op, e, r.v.anchor == Some(k) && g.anchor.None?) && May(op, st, e)
            && var n := Taken(e, r.v.anchor == Some(k) && g.anchor.None?);
            && |st.toks| > n && SpellsLeaf(op, e, st.toks[..Size(e)]) && r.st == After(st, e).(toks := st.toks[n..])
            && (r.v.anchor == Some(k) && g.anchor.None? ==> st.toks[Size(e)].kind == Caret)
  {
    hide ParseElement, SpellsLeaf, May, After;
    var c := ParseElement(op, st, true);
    assert !c.v.Opt?;
    LeafSpelled(op, st);
    if Cur(c.st) == Caret {
      assert st.toks[Size(c.v)..][1..] == st.toks[Size(c.v) + 1..];
    }
  }

  lemma {:induction false} ChildrenSpelled(op: OpInfo, st: St, g: Group)
    requires Ends(st.toks) && ParseChildren(op, st, g).Ok? && (g.anchor.Some? ==> g.anchor.value < |g.children|)
    ensures var r := ParseChildren(op, st, g);
            var (k, n) := (|g.children|, SizeFrom(r.v.children, r.v.anchor, |g.children|));
            && k < |r.v.children| && r.v.children[..k] == g.children
            && (if g.anchor.Some? then r.v.anchor == g.anchor
                else r.v.anchor.Some? ==> k <= r.v.anchor.value < |r.v.children|)
            && |st.toks| > n && SpellsChildren(op, r.v.children, r.v.anchor, k, st.toks[..n])
            && MayFrom(op, st, r.v.children, k)
            && r.st == AfterFrom(st, r.v.children, k).(toks := st.toks[n..])
            && st.toks[n].kind == RParen
    decreases |st.toks|
  {
    hide ParseChild, SpellsLeaf, May, After, Size, Ends, SizeFrom, SpellsChildren, AfterFrom, MayFrom;
    var c := ParseChild(op, st, g);
    ChildSpelled(op, st, g);
    var r, k := ParseChildren(op, st, g), |g.children|;
    if Cur(c.st) != RParen {
      ChildrenSpelled(op, c.st, c.v);
      assert r.v.children[..k + 1] == c.v.children;
      assert r.v.children[k] == c.v.children[k] && r.v.children[..k] == g.children;
    } else {
      NoneLeft(op, c.st, c.v);
    }
    StepSpelled(op, st, c.st, r.v.children, r.v.anchor, k);
  }

  lemma NoneLeft(op: OpInfo, st: St, g: Group)
    ensures var k := |g.children|;
            && SizeFrom(g.children, g.anchor, k) == 0 && SpellsChildren(op, g.children, g.anchor, k, st.toks[..0])
            && MayFrom(op, st, g.children, k) && AfterFrom(st, g.children, k) == st
  {
  }

  lemma StepSpelled(op: OpInfo, st: St, mid: St, es: seq<Element>, anchor: Option<nat>, k: nat)
    requires k < |es| && |st.toks| > Taken(es[k], anchor == Some(k))
    requires SpellsLeaf(op, es[k], st.toks[..Size(es[k])]) && May(op, st, es[k])
    requires anchor == Some(k) ==> st.toks[Size(es[k])].kind == Caret
    requires mid == After(st, es[k]).(toks := st.toks[Taken(es[k], anchor == Some(k))..])
    requires var m := SizeFrom(es, anchor, k + 1);
             && |mid.toks| > m && SpellsChildren(op, es, anchor, k + 1, mid.toks[..m]) && MayFrom(op, mid, es, k + 1)
    ensures var n := SizeFrom(es, anchor, k);
            && n == Taken(es[k], anchor == Some(k)) + SizeFrom(es, anchor, k + 1)
            && |st.toks| > n && SpellsChildren(op, es, anchor, k, st.toks[..n]) && MayFrom(op, st, es, k)
            && AfterFrom(mid, es, k + 1).(toks := st.toks[n..]) == AfterFrom(st, es, k).(toks := st.toks[n..])
            && mid.toks[SizeFrom(es, anchor, k + 1)..] == st.toks[n..]
  {
    hide SpellsLeaf, May, After, Size;
    var s, t, m := Size(es[k]), Taken(es[k], anchor == Some(k)), SizeFrom(es, anchor, k + 1);
    var w := st.toks[..t + m];
    assert w[..s] == st.toks[..s] && w[t..] == mid.toks[..m];
    FromToks(op, After(st, es[k]), es, k + 1, mid.toks);
  }

  lemma GroupSpelled(op: OpInfo, st: St, ls: set<Element>)
    requires Ends(st.toks) && Cur(st) == LParen && ParseOptional(op, st).Ok? && Inv(op, st, ls)
    ensures var r := ParseOptional(op, st);
            && r.v.Opt? && |st.toks| > Size(r.v) && Spells(op, r.v, st.toks[..Size(r.v)])
            && MayFrom(op, st, r.v.elements, 0) && WfGroup(op, r.v.elements, r.v.anchor)
            && r.st == AfterFrom(st, r.v.elements, 0).(toks := st.toks[Size(r.v)..])
  {
    hide ParseOptional, SpellsChildren, AfterFrom, MayFrom, WfGroup, Inv, Ends;
    OptionalParsed(op, st, ls);
    GroupTokens(op, st);
    var r := ParseOptional(op, st);
    var n, w := SizeFrom(r.v.elements, Some(r.v.anchor), 0), st.toks[..Size(r.v)];
    assert w[1..n + 1] == st.toks[1..n + 1];
  }

  lemma GroupTokens(op: OpInfo, st: St)
    requires Ends(st.toks) && Cur(st) == LParen && ParseOptional(op, st).Ok? && ParseOptional(op, st).v.Opt?
    ensures var r := ParseOptional(op, st);
            var n := SizeFrom(r.v.elements, Some(r.v.anchor), 0);
            && |st.toks| > n + 3 && SpellsChildren(op, r.v.elements, Some(r.v.anchor), 0, st.toks[1..n + 1])
            && st.toks[n + 1].kind == RParen && st.toks[n + 2].kind == Question
            && MayFrom(op, st, r.v.elements, 0)
            && r.st == AfterFrom(st, r.v.elements, 0).(toks := st.toks[n + 3..])
  {
    hide ParseOptional, ParseChildren, SpellsChildren, AfterFrom, MayFrom, Ends, SizeFrom;
    OptionalSteps(op, st);
    var s0 := Take(st);
    ChildrenSpelled(op, s0, Group([], None));
    var c := ParseChildren(op, s0, Group([], None));
    var es, n := c.v.children, SizeFrom(c.v.children, c.v.anchor, 0);
    FromToks(op, st, es, 0, s0.toks);
    GroupSlices(st.toks, n);
  }

  lemma GroupSlices(toks: seq<Tok>, n: nat)
    requires |toks| >= n + 3
    ensures toks[1..][..n] == toks[1..n + 1] && toks[1..][n..] == toks[n + 1..] && toks[n + 1..][2..] == toks[n + 3..]
  {
  }

  lemma OptionalSteps(op: OpInfo, st: St)
    requires Ends(st.toks) && Cur(st) == LParen && ParseOptional(op, st).Ok?
    ensures var r, c := ParseOptional(op, st), ParseChildren(op, Take(st), Group([], None));
            && c.Ok? && c.v.anchor.Some? && r.v == Opt(c.v.children, c.v.anchor.value)
            && |c.st.toks| > 2 && c.st.toks[0].kind == RParen && c.st.toks[1].kind == Question
            && r.st == c.st.(toks := c.st.toks[2..])
  {
    hide ParseChildren, TypesInside;
    var c := ParseChildren(op, Take(st), Group([], None));
    assert c.st.toks[1..][1..] == c.st.toks[2..];
  }

  lemma ChildRead(op: OpInfo, st: St, g: Group, e: Element, isAnchor: bool)
    requires Ends(st.toks) && |st.toks| > Taken(e, isAnchor) && SpellsLeaf(op, e, st.toks[..Size(e)]) && May(op, st, e)
    requires if isAnchor then st.toks[Size(e)].kind == Caret && g.anchor.None? else st.toks[Size(e)].kind != Caret
    requires IsChild(op, e, isAnchor)
    ensures ParseChild(op, st, g) == Ok(Group(g.children + [e], if isAnchor then Some(|g.children|) else g.anchor),
                                        After(st, e).(toks := st.toks[Taken(e, isAnchor)..]))
  {
    hide ParseElement, SpellsLeaf, May, After, IsChild, Size;
    LeafRead(op, st, e);
    EndsFrom(st.toks, Size(e));
    var next := Past(st, e);
    if isAnchor {
      assert st.toks[Size(e)..][1..] == st.toks[Size(e) + 1..];
    }
  }

  predicate ChildrenFit(op: OpInfo, es: seq<Element>, anchor: nat) {
    forall i :: 0 <= i < |es| ==> IsChild(op, es[i], i == anchor)
  }

  function Begun(es: seq<Element>, anchor: nat, k: nat): Group
    requires k <= |es|
  {
    Group(es[..k], if anchor < k then Some(anchor) else None)
  }

  lemma {:induction false} ChildrenRead(op: OpInfo, st: St, es: seq<Element>, anchor: nat, k: nat)
    requires Ends(st.toks) && k < |es| && anchor < |es| && ChildrenFit(op, es, anchor) && MayFrom(op, st, es, k)
    requires var n := SizeFrom(es, Some(anchor), k);
             && |st.toks| > n && SpellsChildren(op, es, Some(anchor), k, st.toks[..n]) && st.toks[n].kind == RParen
    ensures var n := SizeFrom(es, Some(anchor), k);
            ParseChildren(op, st, Begun(es, anchor, k))
            == Ok(Group(es, Some(anchor)), AfterFrom(st, es, k).(toks := st.toks[n..]))
    decreases |es| - k
  {
    hide ParseChild, SpellsLeaf, May, After, Size, IsChild, Ends, ChildrenFit;
    var t, n := Taken(es[k], k == anchor), SizeFrom(es, Some(anchor), k);
    var mid := After(st, es[k]).(toks := st.toks[t..]);
    StepRead(op, st, es, anchor, k);
    FromToks(op, After(st, es[k]), es, k + 1, mid.toks);
    if k + 1 < |es| {
      ChildrenRead(op, mid, es, anchor, k + 1);
    } else {
      assert es[..k + 1] == es;
    }
  }

  /** One child is read, and the next token says whether there is another. */
  lemma StepRead(op: OpInfo, st: St, es: seq<Element>, anchor: nat, k: nat)
    requires Ends(st.toks) && k < |es| && anchor < |es| && ChildrenFit(op, es, anchor) && May(op, st, es[k])
    requires var n := SizeFrom(es, Some(anchor), k);
             && |st.toks| > n && SpellsChildren(op, es, Some(anchor), k, st.toks[..n]) && st.toks[n].kind == RParen
    ensures var n := SizeFrom(es, Some(anchor), k);
            var t := Taken(es[k], k == anchor);
            var m := SizeFrom(es, Some(anchor), k + 1);
            && n == t + m && Ends(st.toks[t..]) && |st.toks[t..]| > m && st.toks[t..][m].kind == RParen
            && SpellsChildren(op, es, Some(anchor), k + 1, st.toks[t..][..m]) && st.toks[t..][m..] == st.toks[n..]
            && ParseChild(op, st, Begun(es, anchor, k))
               == Ok(Begun(es, anchor, k + 1), After(st, es[k]).(toks := st.toks[t..]))
            && (st.toks[t..][0].kind == RParen <==> k + 1 >= |es|)
  {
    hide ParseChild, SpellsLeaf, May, After, Size, IsChild, Ends;
    var e, isAnchor := es[k], k == anchor;
    var s, t, m := Size(e), Taken(e, isAnchor), SizeFrom(es, Some(anchor), k + 1);
    var n := SizeFrom(es, Some(anchor), k);
    assert n == t + m;
    Slices(st.toks, n, s, t);
    NextToken(op, es, anchor, k + 1, st.toks[t..]);
    ChildRead(op, st, Begun(es, anchor, k), e, isAnchor);
    EndsFrom(st.toks, t);
    assert es[..k] + [e] == es[..k + 1];
  }

  lemma Slices(toks: seq<Tok>, n: nat, s: nat, t: nat)
    requires s <= t <= n <= |toks|
    ensures toks[..n][..s] == toks[..s] && toks[..n][t..] == toks[t..][..n - t] && toks[t..][n - t..] == toks[n..]
  {
  }

  /** After a child comes another, or the closing parenthesis. */
  lemma NextToken(op: OpInfo, es: seq<Element>, anchor: nat, k: nat, toks: seq<Tok>)
    requires var m := SizeFrom(es, Some(anchor), k);
             |toks| > m && SpellsChildren(op, es, Some(anchor), k, toks[..m]) && toks[m].kind == RParen
    ensures toks[0].kind != Caret && (toks[0].kind == RParen <==> k >= |es|)
  {
    if k < |es| {
      var m, s := SizeFrom(es, Some(anchor), k), Size(es[k]);
      assert toks[..m][..s] == toks[..s];
      FirstToken(op, es[k], toks[..s]);
    }
  }

  lemma AllowedFits(op: OpInfo, es: seq<Element>, anchor: nat)
    requires GroupAllowed(op, es, anchor)
    ensures ChildrenFit(op, es, anchor) && TypesInside(es)
  {
    forall e | e in es
      ensures e.TypeDir? ==> TypeInside(es, e.arg)
      ensures e.FunctionalType? ==> TypeInside(es, e.inputs) && TypeInside(es, e.results)
    {
      var k :| 0 <= k < |es| && es[k] == e;
    }
  }

  lemma GroupRead(op: OpInfo, st: St, e: Element)
    requires Ends(st.toks) && e.Opt? && |st.toks| > Size(e) && Spells(op, e, st.toks[..Size(e)])
    requires GroupAllowed(op, e.elements, e.anchor) && MayFrom(op, st, e.elements, 0)
    ensures Cur(st) == LParen
    ensures ParseOptional(op, st) == Ok(e, AfterFrom(st, e.elements, 0).(toks := st.toks[Size(e)..]))
  {
    hide ParseChildren, SpellsChildren, AfterFrom, MayFrom, Ends, TypesInside, ChildrenFit;
    var es, n := e.elements, SizeFrom(e.elements, Some(e.anchor), 0);
    var s0 := Take(st);
    FromToks(op, st, es, 0, s0.toks);
    assert st.toks[..n + 3][1..n + 1] == s0.toks[..n];
    AllowedFits(op, es, e.anchor);
    ChildrenRead(op, s0, es, e.anchor, 0);
    assert Begun(es, e.anchor, 0) == Group([], None);
    assert s0.toks[n..] == st.toks[n + 1..];
    EndsFrom(st.toks, n + 1);
    GroupClosed(op, st, es, e.anchor, AfterFrom(st, es, 0), n + 1);
  }

  lemma GroupClosed(op: OpInfo, st: St, es: seq<Element>, anchor: nat, last: St, n: nat)
    requires Ends(st.toks) && Cur(st) == LParen && GroupAllowed(op, es, anchor) && TypesInside(es)
    requires |st.toks| > n + 2 && st.toks[n].kind == RParen && st.toks[n + 1].kind == Question
    requires ParseChildren(op, Take(st), Group([], None)) == Ok(Group(es, Some(anchor)), last.(toks := st.toks[n..]))
    ensures ParseOptional(op, st) == Ok(Opt(es, anchor), last.(toks := st.toks[n + 2..]))
  {
    hide ParseChildren, TypesInside;
    EndsFrom(st.toks, n);
    EndsFrom(st.toks, n + 1);
    assert st.toks[n..][1..] == st.toks[n + 1..] && st.toks[n + 1..][1..] == st.toks[n + 2..];
  }

  // ----- Flags say what the elements say

  lemma AsksIff(st: St, asked: set<Element>, a: Element)
    requires InvTypes(st, asked)
    ensures MayBind(st, a) <==> MayAsk(asked, a)
  {
    if a == AllOperands && st.operandTypes != {} {
      var i :| i in st.operandTypes;
      assert OperandVar(i) in asked;
    }
    if a == AllResults && st.resultTypes != {} {
      var i :| i in st.resultTypes;
      assert ResultVar(i) in asked;
    }
  }

  lemma AllowedIff(op: OpInfo, st: St, ls: set<Element>, e: Element)
    requires Inv(op, st, ls)
    ensures May(op, st, e) <==> Allowed(op, ls, e)
  {
    hide ArgsOf, MayBind, MayAsk, WfLeaf;
    match e {
      case TypeDir(a) => AsksIff(st, ArgsOf(ls), a);
      case FunctionalType(a, b) =>
        AsksIff(st, ArgsOf(ls), a);
        if MayBind(st, a) {
          AddArg(st, ArgsOf(ls), a);
          AsksIff(Bind(st, a), ArgsOf(ls) + {a}, b);
        }
      case AllOperands =>
        if st.operands != {} {
          var i :| i in st.operands;
          assert OperandVar(i) in ls;
        }
      case AllSuccessors =>
        if st.successors != {} {
          var i :| i in st.successors;
          assert SuccessorVar(i) in ls;
        }
      case _ =>
    }
  }

  lemma {:induction false} FromIff(op: OpInfo, st: St, ls: set<Element>, es: seq<Element>, k: nat)
    requires Inv(op, st, ls)
    ensures MayFrom(op, st, es, k) <==> AllowedFrom(op, ls, es, k)
    ensures k <= |es| && MayFrom(op, st, es, k) ==> Inv(op, AfterFrom(st, es, k), ls + Elements(es[k..]))
    decreases |es| - k
  {
    hide Inv, May, After, Allowed;
    if k < |es| {
      AllowedIff(op, st, ls, es[k]);
      if May(op, st, es[k]) {
        AddLeaf(op, st, ls, es[k]);
        FromIff(op, After(st, es[k]), ls + {es[k]}, es, k + 1);
        assert ls + {es[k]} + Elements(es[k + 1..]) == ls + Elements(es[k..]) by {
          assert es[k..] == [es[k]] + es[k + 1..];
        }
      }
    } else if k == |es| {
      assert ls + Elements(es[k..]) == ls;
    }
  }

  // ----- Whole formats

  lemma ElementSpelled(op: OpInfo, st: St, ls: set<Element>)
    requires Ends(st.toks) && Inv(op, st, ls) && ParseElement(op, st, true).Ok?
    ensures var r := ParseElement(op, st, true);
            && |st.toks| > Size(r.v) && Spells(op, r.v, st.toks[..Size(r.v)]) && ElementAllowed(op, ls, r.v)
            && r.st.toks == st.toks[Size(r.v)..] && Inv(op, r.st, ls + Leaves(r.v))
  {
    hide Inv, ParseElement, SpellsLeaf, SpellsChildren, May, Allowed, AllowedFrom, MayFrom, Size;
    var r := ParseElement(op, st, true);
    ElementParsed(op, st, ls);
    if r.v.Opt? {
      IsOptional(op, st);
      GroupSpelled(op, st, ls);
      FromIff(op, st, ls, r.v.elements, 0);
      WfIsAllowed(op, r.v.elements, r.v.anchor);
    } else {
      LeafSpelled(op, st);
      AllowedIff(op, st, ls, r.v);
    }
  }

  lemma WfIsAllowed(op: OpInfo, es: seq<Element>, anchor: nat)
    requires WfGroup(op, es, anchor)
    ensures GroupAllowed(op, es, anchor)
  {
    forall k | 0 <= k < |es|
      ensures IsChild(op, es[k], false) && es[k] in es
    {
    }
  }

  lemma ElementRead(op: OpInfo, st: St, ls: set<Element>, e: Element)
    requires Ends(st.toks) && Inv(op, st, ls) && |st.toks| > Size(e) && Spells(op, e, st.toks[..Size(e)])
    requires ElementAllowed(op, ls, e)
    ensures var r := ParseElement(op, st, true);
            r.Ok? && r.v == e && r.st.toks == st.toks[Size(e)..] && Inv(op, r.st, ls + Leaves(e))
  {
    hide Inv, ParseOptional, SpellsLeaf, SpellsChildren, May, Allowed, AllowedFrom, MayFrom, Size;
    if e.Opt? {
      FromIff(op, st, ls, e.elements, 0);
      GroupRead(op, st, e);
      assert ParseElement(op, st, true) == ParseOptional(op, st);
    } else {
      AllowedIff(op, st, ls, e);
      LeafRead(op, st, e);
    }
    ElementParsed(op, st, ls);
  }

  lemma {:induction false} ElementsSpelled(op: OpInfo, st: St, before: seq<Element>, ls: set<Element>)
    requires Ends(st.toks) && Inv(op, st, ls) && ParseElements(op, st, before).Ok?
    ensures var r := ParseElements(op, st, before);
            && |before| <= |r.v| && r.v[..|before|] == before && st.toks[|st.toks| - 1].kind == Eof
            && Formed(op, ls, r.v[|before|..]) && SpellsList(op, r.v[|before|..], st.toks[..|st.toks| - 1])
    decreases |st.toks|
  {
    hide Inv, ParseElement, Spells, ElementAllowed, Size;
    if Cur(st) != Eof {
      var c := ParseElement(op, st, true);
      ElementSpelled(op, st, ls);
      ElementsSpelled(op, c.st, before + [c.v], ls + Leaves(c.v));
      var r := ParseElements(op, st, before);
      ListStep(op, st.toks, c.v, r.v, |before|);
      assert r.v[..|before|] == r.v[..|before| + 1][..|before|];
      assert r.v[|before|..][0] == c.v && r.v[|before|..][1..] == r.v[|before| + 1..];
    } else {
      assert before[|before|..] == [];
    }
  }

  lemma ListStep(op: OpInfo, toks: seq<Tok>, e: Element, es: seq<Element>, k: nat)
    requires k < |es| && es[..k + 1] == es[..k] + [e]
    requires Size(e) < |toks| && Spells(op, e, toks[..Size(e)])
    requires var rest := toks[Size(e)..]; SpellsList(op, es[k + 1..], rest[..|rest| - 1])
    ensures es[k] == e && SpellsList(op, es[k..], toks[..|toks| - 1])
  {
    hide Spells, Size;
    var n, w := Size(e), toks[..|toks| - 1];
    assert es[k] == es[..k + 1][k];
    assert es[k..][1..] == es[k + 1..];
    assert w[..n] == toks[..n] && w[n..] == toks[n..][..|toks| - n - 1];
  }

  lemma {:induction false} ElementsRead(op: OpInfo, st: St, before: seq<Element>, ls: set<Element>, es: seq<Element>)
    requires Ends(st.toks) && Inv(op, st, ls) && st.toks[|st.toks| - 1].kind == Eof
    requires Formed(op, ls, es) && SpellsList(op, es, st.toks[..|st.toks| - 1])
    ensures var r := ParseElements(op, st, before); r.Ok? && r.v == before + es
    decreases |es|
  {
    hide Inv, ParseElement, Spells, ElementAllowed, Size;
    if es != [] {
      var e, n, w := es[0], Size(es[0]), st.toks[..|st.toks| - 1];
      assert w[..n] == st.toks[..n];
      ElementRead(op, st, ls, e);
      var next := ParseElement(op, st, true).st;
      assert w[n..] == next.toks[..|next.toks| - 1];
      ElementsRead(op, next, before + [e], ls + Leaves(e), es[1..]);
      assert before + [e] + es[1..] == before + es;
    } else {
      assert before + es == before;
    }
  }

  /** For every op and token list: reading ends well, with these elements, exactly when the tokens before
      the end of the file spell them in order and each may stand where it does. */
  lemma ElementsExact(op: OpInfo, toks: seq<Tok>, es: seq<Element>)
    requires Ends(toks)
    ensures (var r := ParseElements(op, Start(toks), []); r.Ok? && r.v == es) <==>
            toks[|toks| - 1].kind == Eof && Formed(op, {}, es) && SpellsList(op, es, toks[..|toks| - 1])
  {
    hide Inv, ParseElements, Formed, SpellsList;
    StartInv(op, toks);
    var r := ParseElements(op, Start(toks), []);
    if r.Ok? && r.v == es {
      ElementsSpelled(op, Start(toks), [], {});
      assert r.v[0..] == es;
    }
    if toks[|toks| - 1].kind == Eof && Formed(op, {}, es) && SpellsList(op, es, toks[..|toks| - 1]) {
      ElementsRead(op, Start(toks), [], {}, es);
      assert [] + es == es;
    }
  }
}
