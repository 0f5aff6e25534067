/** Formats that are accepted although the generated parser is not usable, and one that is neither
    accepted nor refused. */
module FormatQuirks {
  import opened FormatLexer
  import opened FormatGrammar
  import opened FormatAccepted
  import opened FormatResolve
  import opened FormatCode
  import opened FormatNames
  import opened FormatCrash
  import opened FormatWords

  /** Ops with one operand `a`, and with one list of successors `s`. */
  function OneOperand(variadic: bool): OpInfo {
    OpInfo([], [ValueInfo("a", variadic, None)], [], [], [], false, false, false)
  }

  function OneSuccessor(): OpInfo { OpInfo([], [], [], [ListInfo("s", true)], [], false, false, false) }

  lemma Step(op: OpInfo, st: St, es: seq<Element>, e: Element, next: St)
    requires Ends(st.toks) && Cur(st) != Eof && ParseElement(op, st, true) == Ok(e, next)
    ensures ParseElements(op, st, es) == ParseElements(op, next, es + [e])
  {
  }

  lemma TypeOfAll(op: OpInfo, st: St, rest: seq<Tok>)
    requires Ends(rest) && st.toks == [T(KwType), T(LParen), T(KwOperands), T(RParen)] + rest
    requires !st.allOperandTypes && st.operandTypes == {}
    ensures Ends(st.toks)
    ensures ParseElement(op, st, true)
            == Ok(TypeDir(AllOperands), st.(toks := rest, hasAllOperands := true, allOperandTypes := true))
  {
    assert Ends(st.toks);
    var s1 := Take(st);
    assert s1.toks == [T(LParen), T(KwOperands), T(RParen)] + rest;
    TypeArgs(op, s1, rest);
    hide ParseType, Ends;
  }

  lemma TypeArgs(op: OpInfo, st: St, rest: seq<Tok>)
    requires Ends(rest) && Ends(st.toks) && st.toks == [T(LParen), T(KwOperands), T(RParen)] + rest
    requires !st.allOperandTypes && st.operandTypes == {}
    ensures ParseType(op, st)
            == Ok(TypeDir(AllOperands), st.(toks := rest, hasAllOperands := true, allOperandTypes := true))
  {
    var s1 := Take(st);
    assert s1.toks == [T(KwOperands), T(RParen)] + rest;
    TypeArgAll(op, s1, rest);
    var s2 := s1.(toks := [T(RParen)] + rest, hasAllOperands := true, allOperandTypes := true);
    assert s2.toks[1..] == rest;
    hide ParseTypeOperand, Ends;
  }

  lemma TypeArgAll(op: OpInfo, st: St, rest: seq<Tok>)
    requires Ends(rest) && st.toks == [T(KwOperands), T(RParen)] + rest
    requires !st.allOperandTypes && st.operandTypes == {}
    ensures Ends(st.toks)
    ensures ParseTypeOperand(op, st)
            == Ok(AllOperands, st.(toks := [T(RParen)] + rest, hasAllOperands := true, allOperandTypes := true))
  {
    assert Ends(st.toks);
    assert st.toks[1..] == [T(RParen)] + rest;
    assert ParseElement(op, st, false) == ParseDirective(op, st, false);
  }

  lemma DictFirst(op: OpInfo, rest: seq<Tok>)
    requires Ends(rest)
    ensures Ends([T(KwAttrDict)] + rest)
    ensures ParseElements(op, Start([T(KwAttrDict)] + rest), [])
            == ParseElements(op, Start(rest).(hasAttrDict := true), [AttrDict(false)])
  {
    var s0 := Start([T(KwAttrDict)] + rest);
    assert Ends(s0.toks);
    assert s0.toks[1..] == rest;
    var s1 := Take(s0).(hasAttrDict := true);
    assert ParseElement(op, s0, true) == Ok(AttrDict(false), s1);
    Step(op, s0, [], AttrDict(false), s1);
    assert [] + [AttrDict(false)] == [AttrDict(false)];
  }

  lemma FlatTwo(a: Element, b: Element)
    ensures Flat([a, b]) == Leaves(a) + Leaves(b)
  {
    assert [a, b][..1] == [a];
    assert [a][..0] == [] && Flat([a]) == Leaves(a);
  }

  // ----- The four formats and their tokens

  const TYPES := "attr-dict type(operands)"
  const SUCCESSORS := "attr-dict successors"
  const LONE := "attr-dict ($a^)? type(operands)"
  const SYMBOL := "symbol("

  function TypesTail(): seq<Tok> { [T(KwType), T(LParen), T(KwOperands), T(RParen)] + [EOF_TOK] }

  function GroupToks(): seq<Tok> { [T(LParen), T(Variable), T(Caret), T(RParen), T(Question)] }

  lemma LexArgument()
    ensures Toks("(operands)") == [T(LParen), T(KwOperands), T(RParen), EOF_TOK]
  {
    hide Toks;
    NoTokens();
    First("", RParen, "", ")");
    First("", KwOperands, ")", "operands)");
    First("", LParen, "operands)", "(operands)");
  }

  lemma LexTail()
    ensures Toks(" type(operands)") == TypesTail()
  {
    hide Toks;
    LexArgument();
    First(" ", KwType, "(operands)", " type(operands)");
  }

  lemma LexTypes()
    ensures Toks(TYPES) == [T(KwAttrDict)] + TypesTail()
  {
    hide Toks;
    LexTail();
    First("", KwAttrDict, " type(operands)", TYPES);
  }

  lemma LexSuccessors()
    ensures Toks(SUCCESSORS) == [T(KwAttrDict)] + [T(KwSuccessors), EOF_TOK]
  {
    hide Toks;
    NoTokens();
    First(" ", KwSuccessors, "", " successors");
    First("", KwAttrDict, " successors", SUCCESSORS);
  }

  lemma LexSymbol()
    ensures Toks(SYMBOL) == [T(KwSymbol), T(LParen), EOF_TOK]
  {
    hide Toks;
    NoTokens();
    First("", LParen, "", "(");
    First("", KwSymbol, "(", SYMBOL);
  }

  lemma LexAnchor(rest: string)
    ensures Toks("^)?" + rest) == [T(Caret), T(RParen), T(Question)] + Toks(rest)
  {
    hide Toks;
    First("", Question, rest, "?" + rest);
    First("", RParen, "?" + rest, ")?" + rest);
    First("", Caret, ")?" + rest, "^)?" + rest);
  }

  lemma LexGroup(rest: string)
    ensures Toks(" ($a^)?" + rest) == GroupToks() + Toks(rest)
  {
    hide Toks;
    LexAnchor(rest);
    First("", Variable, "^)?" + rest, "$a^)?" + rest);
    First(" ", LParen, "$a^)?" + rest, " ($a^)?" + rest);
  }

  lemma LexLone()
    ensures Toks(LONE) == [T(KwAttrDict)] + (GroupToks() + TypesTail())
  {
    hide Toks;
    LexTail();
    LexGroup(" type(operands)");
    assert " ($a^)?" + " type(operands)" == " ($a^)? type(operands)";
    LexDict();
  }

  lemma LexDict()
    ensures Toks(LONE) == [T(KwAttrDict)] + Toks(" ($a^)? type(operands)")
  {
    hide Toks;
    First("", KwAttrDict, " ($a^)? type(operands)", LONE);
  }

  // ----- What becomes of them

  /** `attr-dict type(operands)`: the operand is nowhere in the format. */
  lemma TypesOnly()
    ensures var op := OneOperand(true); var toks := Toks(TYPES);
            Ends(toks) && ParseFormat(op, toks).Accepted? && !OperandsParsed(op, ParseFormat(op, toks).format)
  {
    LexTypes();
    TypesElements();
    hide Toks, ParseElements, Ends;
    var es := [AttrDict(false), TypeDir(AllOperands)];
    FlatTwo(es[0], es[1]);
    assert OperandVar(0) !in Flat(es);
  }

  lemma TypesElements()
    ensures var toks := [T(KwAttrDict)] + TypesTail();
            && Ends(toks)
            && ParseElements(OneOperand(true), Start(toks), [])
               == Ok([AttrDict(false), TypeDir(AllOperands)],
                     Start([EOF_TOK]).(hasAttrDict := true, hasAllOperands := true, allOperandTypes := true))
  {
    var op, rest := OneOperand(true), TypesTail();
    DictFirst(op, rest);
    var s1 := Start(rest).(hasAttrDict := true);
    var s2 := s1.(toks := [EOF_TOK], hasAllOperands := true, allOperandTypes := true);
    var es := [AttrDict(false), TypeDir(AllOperands)];
    TypeOfAll(op, s1, [EOF_TOK]);
    assert [AttrDict(false)] + [TypeDir(AllOperands)] == es;
    assert ParseElements(op, s2, es) == Ok(es, s2);
    hide ParseElement, ParseElements, TypesTail;
    Step(op, s1, [AttrDict(false)], TypeDir(AllOperands), s2);
  }

  /** `attr-dict successors`: the list that is appended to is never created. */
  lemma SuccessorsOnly()
    ensures var op := OneSuccessor(); var toks := Toks(SUCCESSORS);
            Ends(toks) && ParseFormat(op, toks).Accepted? && !Clean(op, ParseFormat(op, toks).format)
  {
    LexSuccessors();
    hide Toks;
    var op := OneSuccessor();
    var rest := [T(KwSuccessors), EOF_TOK];
    var toks := [T(KwAttrDict)] + rest;
    DictFirst(op, rest);
    var s1 := Start(rest).(hasAttrDict := true);
    assert rest[1..] == [EOF_TOK];
    var s2 := s1.(toks := [EOF_TOK], hasAllSuccessors := true);
    var es := [AttrDict(false), AllSuccessors];
    assert ParseElement(op, s1, true) == Ok(AllSuccessors, s2);
    Step(op, s1, [AttrDict(false)], AllSuccessors, s2);
    assert [AttrDict(false)] + [AllSuccessors] == es;
    assert ParseElements(op, s2, es) == Ok(es, s2);
    hide ParseElements, ParseElement;
    assert ParseFormat(op, toks) == Check(op, s2, es);
    assert AllSuccessors in es && ListsSuccessors(op, AllSuccessors);
  }

  /** `attr-dict ($a^)? type(operands)`: a group that leaves nothing to its block. */
  lemma LoneOperand()
    ensures var op := OneOperand(true); var toks := Toks(LONE);
            && Ends(toks) && ParseFormat(op, toks).Accepted?
            && exists e :: e in ParseFormat(op, toks).format.elements && !NotLone(e)
  {
    hide Toks, ParseElements, Ends, Check, NotLone, Start, LoneList, LoneEnd;
    LexLone();
    LoneFormat();
    LoneAccepted(OneOperand(true));
  }

  lemma LoneFormat()
    ensures var toks := [T(KwAttrDict)] + (GroupToks() + TypesTail());
            Ends(toks) && ParseFormat(OneOperand(true), toks) == Check(OneOperand(true), LoneEnd(), LoneList())
  {
    hide Ends, Check, LoneList, LoneEnd, GroupToks, TypesTail, ParseElements;
    var op, rest := OneOperand(true), GroupToks() + TypesTail();
    LoneRest();
    DictFirst(op, rest);
    LoneElements(op, Start(rest).(hasAttrDict := true), TypesTail());
  }

  lemma LoneRest()
    ensures Ends(GroupToks() + TypesTail())
  {
  }

  function LoneList(): seq<Element> { [AttrDict(false), Opt([OperandVar(0)], 0), TypeDir(AllOperands)] }

  function LoneEnd(): St {
    Start([EOF_TOK]).(hasAttrDict := true, operands := {0}, hasAllOperands := true, allOperandTypes := true)
  }

  lemma LoneAccepted(op: OpInfo)
    requires op == OneOperand(true)
    ensures var r := Check(op, LoneEnd(), LoneList());
            r.Accepted? && exists e :: e in r.format.elements && !NotLone(e)
  {
    var lone := Opt([OperandVar(0)], 0);
    assert lone in LoneList() && !NotLone(lone);
  }

  lemma LoneElements(op: OpInfo, s1: St, tail: seq<Tok>)
    requires op == OneOperand(true) && tail == TypesTail()
    requires s1 == Start(GroupToks() + tail).(hasAttrDict := true)
    ensures Ends(s1.toks) && ParseElements(op, s1, [AttrDict(false)]) == Ok(LoneList(), LoneEnd())
  {
    var lone := Opt([OperandVar(0)], 0);
    assert Ends(tail);
    LoneGroup(op, s1, tail);
    hide ParseElement;
    var s2 := s1.(toks := tail, operands := {0});
    Step(op, s1, [AttrDict(false)], lone, s2);
    assert [AttrDict(false)] + [lone] == [AttrDict(false), lone];
    var s3 := LoneEnd();
    TypeOfAll(op, s2, [EOF_TOK]);
    Step(op, s2, [AttrDict(false), lone], TypeDir(AllOperands), s3);
    assert [AttrDict(false), lone] + [TypeDir(AllOperands)] == LoneList();
    assert ParseElements(op, s3, LoneList()) == Ok(LoneList(), s3);
  }

  lemma LoneGroup(op: OpInfo, st: St, rest: seq<Tok>)
    requires op == OneOperand(true) && Ends(rest) && !st.hasAllOperands && st.operands == {}
    requires st.toks == GroupToks() + rest
    ensures Ends(st.toks) && ParseElement(op, st, true)
            == Ok(Opt([OperandVar(0)], 0), st.(toks := rest, operands := {0}))
  {
    assert Ends(st.toks);
    var s1 := Take(st);
    assert s1.toks == [T(Variable), T(Caret), T(RParen), T(Question)] + rest;
    LoneChildren(op, s1, rest);
    InsideOne();
    var s3 := s1.(toks := [T(RParen), T(Question)] + rest, operands := {0});
    hide ParseChildren, ParseElement, Ends, TypesInside;
    GroupToksEnd(s3, rest);
    GroupEnd(op, st, Group([OperandVar(0)], Some(0)), s3);
  }

  lemma GroupToksEnd(st: St, rest: seq<Tok>)
    requires Ends(rest) && st.toks == [T(RParen), T(Question)] + rest
    ensures Ends(st.toks) && Cur(st) == RParen && Cur(Take(st)) == Question && Take(Take(st)) == st.(toks := rest)
  {
    assert st.toks[1..] == [T(Question)] + rest;
    assert Take(st).toks[1..] == rest;
  }

  lemma GroupEnd(op: OpInfo, st: St, g: Group, next: St)
    requires Ends(st.toks) && Cur(st) == LParen && ParseChildren(op, Take(st), Group([], None)) == Ok(g, next)
    requires Ends(next.toks) && Cur(next) == RParen && Cur(Take(next)) == Question
    requires g.anchor.Some? && g.children != [] && g.children[0].OperandVar? && TypesInside(g.children)
    ensures ParseElement(op, st, true) == Ok(Opt(g.children, g.anchor.value), Take(Take(next)))
  {
    hide ParseChildren, TypesInside, Ends;
  }

  lemma InsideOne()
    ensures TypesInside([OperandVar(0)])
  {
  }

  lemma LoneChildren(op: OpInfo, st: St, rest: seq<Tok>)
    requires op == OneOperand(true) && Ends(rest) && !st.hasAllOperands && st.operands == {}
    requires st.toks == [T(Variable), T(Caret), T(RParen), T(Question)] + rest
    ensures Ends(st.toks)
    ensures ParseChildren(op, st, Group([], None)) ==
            Ok(Group([OperandVar(0)], Some(0)), st.(toks := [T(RParen), T(Question)] + rest, operands := {0}))
  {
    AnchorToks(st, rest);
    LoneVariable(op, st);
    var s2 := Take(st).(operands := {0});
    hide ParseElement, ParseChild, Ends;
    LoneChild(op, st, s2);
  }

  lemma AnchorToks(st: St, rest: seq<Tok>)
    requires Ends(rest) && st.toks == [T(Variable), T(Caret), T(RParen), T(Question)] + rest
    ensures Ends(st.toks) && Cur(st) == Variable && Cur(Take(st)) == Caret && Cur(Take(Take(st))) == RParen
    ensures Take(Take(st)).toks == [T(RParen), T(Question)] + rest
  {
    assert Ends(st.toks);
    assert st.toks[1..] == [T(Caret), T(RParen), T(Question)] + rest;
    assert Take(st).toks[1..] == [T(RParen), T(Question)] + rest;
  }

  lemma LoneVariable(op: OpInfo, st: St)
    requires op == OneOperand(true) && Ends(st.toks) && !st.hasAllOperands && st.operands == {}
    requires |st.toks| > 1 && st.toks[0] == T(Variable)
    ensures ParseElement(op, st, true) == Ok(OperandVar(0), Take(st).(operands := {0}))
  {
    assert "$a"[1..] == "a";
  }

  lemma LoneChild(op: OpInfo, st: St, next: St)
    requires op == OneOperand(true) && Ends(st.toks) && Ends(next.toks) && Cur(next) == Caret
    requires ParseElement(op, st, true) == Ok(OperandVar(0), next)
    ensures ParseChild(op, st, Group([], None)) == Ok(Group([OperandVar(0)], Some(0)), Take(next))
  {
    assert [] + [OperandVar(0)] == [OperandVar(0)];
    hide ParseElement, Ends;
  }

  /** `symbol(` takes a token after the last one, whatever the op. */
  lemma SymbolAtEnd(op: OpInfo)
    ensures Ends(Toks(SYMBOL)) && EndsInSymbol(Toks(SYMBOL)) && ParseFormat(op, Toks(SYMBOL)) == Crashed
  {
    LexSymbol();
    hide Toks;
    var st := Start([T(KwSymbol), T(LParen), EOF_TOK]);
    assert st.toks[1..] == [T(LParen), EOF_TOK];
    assert Take(st).toks[1..] == [EOF_TOK];
    assert ParseSymbol(op, Take(st)) == Crash;
    assert ParseElement(op, st, true) == Crash;
  }
}
