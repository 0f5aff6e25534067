/** A format that is accepted and whose printer runs two words together. */
module FormatTouching {
  import opened FormatLexer
  import opened FormatGrammar
  import opened FormatAccepted
  import opened FormatResolve
  import opened FormatSpacing
  import opened FormatCode
  import opened FormatPrinter
  import opened FormatPrinted
  import opened FormatWords
  import Q = FormatQuirks

  const REST := " ($a^ `(`)? `b` type(operands)"

  /** `attr-dict ($a^ ...` and so on. */
  const GLUED := "attr-dict" + REST

  function GroupToks(): seq<Tok> {
    [T(LParen), T(Variable), T(Caret), L("("), T(RParen), T(Question)]
  }

  function Children(): seq<Element> { [OperandVar(0), Lit("(")] }

  function TheGroup(): Element { Opt(Children(), 0) }

  function GluedList(): seq<Element> { [AttrDict(false), TheGroup(), Lit("b"), TypeDir(AllOperands)] }

  // ----- Its tokens

  lemma LexClose(rest: string)
    ensures Toks(" `(`)?" + rest) == [L("("), T(RParen), T(Question)] + Toks(rest)
  {
    hide Toks;
    First("", Question, rest, "?" + rest);
    First("", RParen, "?" + rest, ")?" + rest);
    FirstLiteral(" ", "(", ")?" + rest, " `(`" + (")?" + rest));
    assert " `(`" + (")?" + rest) == " `(`)?" + rest;
  }

  lemma LexOpen(rest: string)
    ensures Toks(" ($a^" + rest) == [T(LParen), T(Variable), T(Caret)] + Toks(rest)
  {
    hide Toks;
    First("", Caret, rest, "^" + rest);
    First("", Variable, "^" + rest, "$a^" + rest);
    First(" ", LParen, "$a^" + rest, " ($a^" + rest);
  }

  lemma LexGroup(rest: string)
    ensures Toks(" ($a^ `(`)?" + rest) == GroupToks() + Toks(rest)
  {
    hide Toks;
    LexClose(rest);
    LexOpen(" `(`)?" + rest);
    assert " ($a^" + (" `(`)?" + rest) == " ($a^ `(`)?" + rest;
  }

  lemma LexRest()
    ensures Toks(" `b` type(operands)") == [L("b")] + Q.TypesTail()
  {
    hide Toks;
    Q.LexTail();
    FirstLiteral(" ", "b", " type(operands)", " `b` type(operands)");
  }

  lemma LexGlued()
    ensures Toks(GLUED) == [T(KwAttrDict)] + (GroupToks() + ([L("b")] + Q.TypesTail()))
  {
    hide Toks, GroupToks, Q.TypesTail;
    LexRest();
    LexGroup(" `b` type(operands)");
    assert " ($a^ `(`)?" + " `b` type(operands)" == REST;
    LexDict();
  }

  lemma LexDict()
    ensures Toks(GLUED) == [T(KwAttrDict)] + Toks(REST)
  {
    hide Toks;
    assert REST[0] == ' ';
    First("", KwAttrDict, REST, GLUED);
  }

  // ----- Its elements

  lemma LiteralParsed(op: OpInfo, st: St, value: string, rest: seq<Tok>)
    requires Ends(rest) && st.toks == [L(value)] + rest && IsValidLiteral(value)
    ensures Ends(st.toks) && ParseElement(op, st, true) == Ok(Lit(value), st.(toks := rest))
  {
    assert Ends(st.toks);
    assert Unquote(L(value).text) == value;
    assert st.toks[1..] == rest;
  }

  lemma SecondChild(op: OpInfo, st: St, rest: seq<Tok>)
    requires Ends(rest) && st.toks == [L("("), T(RParen)] + rest
    ensures Ends(st.toks)
    ensures ParseChildren(op, st, Group([OperandVar(0)], Some(0)))
            == Ok(Group(Children(), Some(0)), st.(toks := [T(RParen)] + rest))
  {
    var after := [T(RParen)] + rest;
    assert st.toks == [L("(")] + after;
    assert Ends(after);
    LiteralParsed(op, st, "(", after);
    assert [OperandVar(0)] + [Lit("(")] == Children();
    hide ParseElement, Ends;
  }

  lemma BothChildren(op: OpInfo, st: St, rest: seq<Tok>)
    requires op == Q.OneOperand(true) && Ends(rest) && !st.hasAllOperands && st.operands == {}
    requires st.toks == [T(Variable), T(Caret), L("("), T(RParen)] + rest
    ensures Ends(st.toks)
    ensures ParseChildren(op, st, Group([], None))
            == Ok(Group(Children(), Some(0)), st.(toks := [T(RParen)] + rest, operands := {0}))
  {
    AnchorToks(st, rest);
    Q.LoneVariable(op, st);
    var s1 := Take(st).(operands := {0});
    hide ParseElement, ParseChild, Ends;
    Q.LoneChild(op, st, s1);
    SecondChild(op, Take(s1), rest);
  }

  lemma AnchorToks(st: St, rest: seq<Tok>)
    requires Ends(rest) && st.toks == [T(Variable), T(Caret), L("("), T(RParen)] + rest
    ensures Ends(st.toks) && Cur(Take(st)) == Caret && Take(Take(st)).toks == [L("("), T(RParen)] + rest
  {
    assert Ends(st.toks);
    assert st.toks[1..] == [T(Caret), L("("), T(RParen)] + rest;
    assert Take(st).toks[1..] == [L("("), T(RParen)] + rest;
  }

  lemma GroupParsed(op: OpInfo, st: St, rest: seq<Tok>)
    requires op == Q.OneOperand(true) && Ends(rest) && !st.hasAllOperands && st.operands == {}
    requires st.toks == GroupToks() + rest
    ensures Ends(st.toks) && ParseElement(op, st, true) == Ok(TheGroup(), st.(toks := rest, operands := {0}))
  {
    var inner := [T(Variable), T(Caret), L("("), T(RParen)] + ([T(Question)] + rest);
    assert Ends(st.toks) && Ends([T(Question)] + rest);
    assert st.toks == [T(LParen)] + inner && st.toks[1..] == inner;
    BothChildren(op, Take(st), [T(Question)] + rest);
    Inside();
    var s3 := Take(st).(toks := [T(RParen)] + ([T(Question)] + rest), operands := {0});
    assert s3.toks == [T(RParen), T(Question)] + rest;
    hide ParseChildren, ParseElement, Ends, TypesInside;
    Q.GroupToksEnd(s3, rest);
    Q.GroupEnd(op, st, Group(Children(), Some(0)), s3);
  }

  lemma Inside()
    ensures TypesInside(Children())
  {
  }

  function End(): St {
    Start([EOF_TOK]).(hasAttrDict := true, operands := {0}, hasAllOperands := true, allOperandTypes := true)
  }

  lemma GluedElements(op: OpInfo, s1: St, tail: seq<Tok>)
    requires op == Q.OneOperand(true) && tail == Q.TypesTail()
    requires s1 == Start(GroupToks() + ([L("b")] + tail)).(hasAttrDict := true)
    ensures Ends(s1.toks) && ParseElements(op, s1, [AttrDict(false)]) == Ok(GluedList(), End())
  {
    hide ParseElement, ParseElements, Ends, Q.TypesTail, GroupToks, TheGroup;
    TailEnds();
    var dict := AttrDict(false);
    GroupParsed(op, s1, [L("b")] + tail);
    var s2 := s1.(toks := [L("b")] + tail, operands := {0});
    Q.Step(op, s1, [dict], TheGroup(), s2);
    LiteralParsed(op, s2, "b", tail);
    var s3 := s2.(toks := tail);
    Q.Step(op, s2, [dict] + [TheGroup()], Lit("b"), s3);
    TypesParsed(op, s3);
    Q.Step(op, s3, [dict] + [TheGroup()] + [Lit("b")], TypeDir(AllOperands), End());
    assert [dict] + [TheGroup()] + [Lit("b")] + [TypeDir(AllOperands)] == GluedList();
    AtEnd(op);
  }

  lemma TailEnds()
    ensures Ends(Q.TypesTail()) && Ends([L("b")] + Q.TypesTail()) && Q.TypesTail()[0].kind != Eof
    ensures ([L("b")] + Q.TypesTail())[0].kind != Eof
    ensures (GroupToks() + ([L("b")] + Q.TypesTail()))[0].kind != Eof
  {
  }

  lemma TypesParsed(op: OpInfo, st: St)
    requires st.toks == Q.TypesTail() && st == End().(toks := Q.TypesTail(), hasAllOperands := false,
                                                      allOperandTypes := false)
    ensures Ends(st.toks) && ParseElement(op, st, true) == Ok(TypeDir(AllOperands), End())
  {
    Q.TypeOfAll(op, st, [EOF_TOK]);
  }

  lemma AtEnd(op: OpInfo)
    ensures Ends(End().toks) && ParseElements(op, End(), GluedList()) == Ok(GluedList(), End())
  {
  }

  lemma GluedParsed()
    ensures var op := Q.OneOperand(true); var toks := Toks(GLUED);
            Ends(toks) && ParseFormat(op, toks) == Check(op, End(), GluedList())
  {
    hide ParseElements, Ends, Check, Toks, GroupToks, GluedList, End, Q.TypesTail;
    var op, rest := Q.OneOperand(true), GroupToks() + ([L("b")] + Q.TypesTail());
    LexGlued();
    RestEnds();
    Q.DictFirst(op, rest);
    GluedElements(op, Start(rest).(hasAttrDict := true), Q.TypesTail());
  }

  lemma RestEnds()
    ensures Ends(GroupToks() + ([L("b")] + Q.TypesTail()))
  {
  }

  lemma GluedAccepted()
    ensures Check(Q.OneOperand(true), End(), GluedList()).Accepted?
    ensures Check(Q.OneOperand(true), End(), GluedList()).format.elements == GluedList()
  {
  }

  // ----- What it prints

  lemma GluedWf(op: OpInfo)
    requires op == Q.OneOperand(true)
    ensures forall e :: e in GluedList() ==> WfElement(op, e)
  {
  }

  lemma PassSnoc(op: OpInfo, es: seq<Element>, e: Element)
    requires (forall x :: x in es ==> WfElement(op, x)) && WfElement(op, e)
    ensures ElementsPass(op, es + [e]) == ElementPass(op, e, ElementsPass(op, es))
  {
    assert (es + [e])[..|es|] == es;
    hide WfElement, ElementPass;
  }

  lemma GluedPass(op: OpInfo)
    requires op == Q.OneOperand(true)
    ensures (forall e :: e in GluedList() ==> WfElement(op, e)) && !ElementsPass(op, GluedList()).apart
  {
    hide ElementsPass, ElementPass, WfElement;
    var dict, types := AttrDict(false), TypeDir(AllOperands);
    GluedWf(op);
    GroupPass(op);
    FirstPass(op);
    OtherPasses(op);
    PassSnoc(op, [], dict);
    PassSnoc(op, [dict], TheGroup());
    PassSnoc(op, [dict, TheGroup()], Lit("b"));
    PassSnoc(op, [dict, TheGroup(), Lit("b")], types);
    assert [] + [dict] == [dict] && [dict] + [TheGroup()] == [dict, TheGroup()];
    assert [dict, TheGroup()] + [Lit("b")] == [dict, TheGroup(), Lit("b")];
    assert [dict, TheGroup(), Lit("b")] + [types] == GluedList();
  }

  lemma OtherPasses(op: OpInfo)
    ensures WfElement(op, AttrDict(false)) && WfElement(op, Lit("b")) && WfElement(op, TypeDir(AllOperands))
    ensures ElementPass(op, AttrDict(false), Pass(START, true, true)) == Pass(START, true, true)
    ensures !ElementPass(op, Lit("b"), Pass(Flags(false, true), true, true)).apart
    ensures forall c: Pass :: !c.apart ==> !ElementPass(op, TypeDir(AllOperands), c).apart
  {
  }

  lemma FirstPass(op: OpInfo)
    ensures ElementsPass(op, []) == Pass(START, true, true)
  {
  }

  lemma GroupPass(op: OpInfo)
    requires op == Q.OneOperand(true)
    ensures WfElement(op, TheGroup())
    ensures ElementPass(op, TheGroup(), Pass(Flags(true, false), true, true)) == Pass(Flags(false, true), true, true)
  {
    assert Children()[..1] == [OperandVar(0)] && [OperandVar(0)][..0] == [];
    assert LeavesPass(op, [OperandVar(0)], Pass(Flags(true, false), true, true))
           == Pass(Flags(true, false), true, true);
  }

  /** The group ends in an opening bracket, so the generator puts no blank before `b`; in a run that leaves
      the group out, `b` is printed right after the name of the op. */
  lemma WordsTouch()
    ensures var op := Q.OneOperand(true); var toks := Toks(GLUED);
            && Ends(toks) && ParseFormat(op, toks).Accepted?
            && var f := ParseFormat(op, toks).format;
               && (forall e :: e in f.elements ==> WfElement(op, e))
               && exists yes: set<nat> :: Touches(Run(PrinterCode(op, f), 0, yes))
  {
    hide Toks, ParseFormat, Check, Ends, ElementsPass, WfElement, Touches, Run, PrinterCode, GluedList, End;
    var op := Q.OneOperand(true);
    GluedParsed();
    GluedAccepted();
    GluedPass(op);
    SpacingExact(op, ParseFormat(op, Toks(GLUED)).format);
  }
}
