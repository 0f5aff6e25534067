/** When reading a format fails an assertion. */
module FormatCrash {
  // `symbol(` takes whatever token comes next for a variable, and no token may be taken after the last.

  import opened FormatLexer
  import opened FormatGrammar
  import opened FormatResolve

  /** The last three tokens are `symbol`, `(` and the one that ends lexing, an error included. */
  predicate EndsInSymbol(toks: seq<Tok>) {
    |toks| >= 3 && toks[|toks| - 3].kind == KwSymbol && toks[|toks| - 2].kind == LParen && Last(toks[|toks| - 1].kind)
  }

  /** What is left of a token list after some of its tokens have been taken. */
  predicate Rest(toks: seq<Tok>, rest: seq<Tok>) { |rest| <= |toks| && rest == toks[|toks| - |rest|..] }

  lemma RestAgain(a: seq<Tok>, b: seq<Tok>, c: seq<Tok>)
    requires Rest(a, b) && Rest(b, c)
    ensures Rest(a, c)
  {
  }

  lemma TakeRest(st: St)
    requires Ends(st.toks) && !Last(Cur(st))
    ensures Rest(st.toks, Take(st).toks)
    ensures EndsInSymbol(st.toks) && Cur(st) != KwSymbol ==> EndsInSymbol(Take(st).toks)
    ensures EndsInSymbol(Take(st).toks) ==> EndsInSymbol(st.toks)
  {
  }

  /** A step of the parser: it fails an assertion only where the tokens end in `symbol(`, and where they
      do, it does not get past them. */
  ghost predicate StepOk<T>(st: St, r: R<T>) {
    match r
    case Crash => EndsInSymbol(st.toks)
    case Reject => true
    case Ok(_, next) => Rest(st.toks, next.toks) && (EndsInSymbol(st.toks) ==> EndsInSymbol(next.toks))
  }

  /** Tokens may be taken before a step. */
  lemma StepLater<T>(st: St, mid: St, r: R<T>)
    requires StepOk(mid, r) && Rest(st.toks, mid.toks) && (EndsInSymbol(st.toks) ==> EndsInSymbol(mid.toks))
    ensures StepOk(st, r)
  {
    if r.Ok? {
      RestAgain(st.toks, mid.toks, r.st.toks);
    }
  }

  lemma ExpectOk(st: St, k: Kind)
    requires Ends(st.toks) && !Last(k) && k != KwSymbol
    ensures StepOk(st, Expect(st, k))
  {
    if Cur(st) == k {
      TakeRest(st);
    }
  }

  /** A variable is one token. */
  lemma VariableTaken(op: OpInfo, st: St, top: bool)
    requires Ends(st.toks)
    ensures var r := ParseVariable(op, st, top);
            && (r.Crash? <==> Last(Cur(st)))
            && (r.Ok? ==> !Last(Cur(st)) && r.st.toks == Take(st).toks)
  {
  }

  /** After `symbol`: the parenthesis, any token at all, and the other parenthesis. */
  lemma SymbolOk(op: OpInfo, st: St)
    requires Ends(st.toks) && Cur(st) == KwSymbol
    ensures StepOk(st, ParseSymbol(op, Take(st)))
  {
    hide ParseVariable, Rest, EndsInSymbol, Ends;
    var s0 := Take(st);
    if Cur(s0) == LParen {
      var s1 := Take(s0);
      VariableTaken(op, s1, false);
      if Last(Cur(s1)) {
        SymbolLast(st);
      } else if ParseVariable(op, s1, false).Ok? {
        SymbolTokens(st);
      }
    }
  }

  /** `symbol`, `(` and the token that ends lexing. */
  lemma SymbolLast(st: St)
    requires Ends(st.toks) && Cur(st) == KwSymbol && Cur(Take(st)) == LParen && Last(Cur(Take(Take(st))))
    ensures EndsInSymbol(st.toks)
  {
    assert |st.toks| == 3;
  }

  /** `symbol`, `(`, a token and another. */
  lemma SymbolTokens(st: St)
    requires Ends(st.toks) && Cur(st) == KwSymbol && Cur(Take(st)) == LParen && !Last(Cur(Take(Take(st))))
    ensures var next := Take(Take(Take(st)));
            Cur(next) == RParen ==>
              Rest(st.toks, Take(next).toks) && (EndsInSymbol(st.toks) ==> EndsInSymbol(Take(next).toks))
  {
    var toks := st.toks;
    assert Take(Take(Take(st))).toks == toks[3..];
    if toks[3].kind == RParen {
      assert Take(Take(Take(Take(st)))).toks == toks[4..];
    }
  }

  lemma {:induction false} ElementOk(op: OpInfo, st: St, top: bool)
    requires Ends(st.toks)
    ensures StepOk(st, ParseElement(op, st, top))
    decreases |st.toks|, 4
  {
    hide ParseDirective, ParseVariable, ParseOptional, Rest, EndsInSymbol, Ends;
    if IsKeyword(Cur(st)) {
      DirectiveOk(op, st, top);
    } else if Cur(st) == Literal {
      TakeRest(st);
    } else if Cur(st) == Variable {
      VariableTaken(op, st, top);
      TakeRest(st);
    } else if Cur(st) == LParen && top {
      OptionalOk(op, st);
    }
  }

  lemma {:induction false} DirectiveOk(op: OpInfo, st: St, top: bool)
    requires Ends(st.toks) && IsKeyword(Cur(st))
    ensures StepOk(st, ParseDirective(op, st, top))
    decreases |st.toks|, 3
  {
    hide ParseType, ParseFunctionalType, ParseSymbol, Rest, EndsInSymbol, Ends;
    var next := Take(st);
    TakeRest(st);
    if Cur(st) == KwSymbol {
      SymbolOk(op, st);
    } else if Cur(st) == KwType && top {
      TypeOk(op, next);
      StepLater(st, next, ParseType(op, next));
    } else if Cur(st) == KwFunctionalType && top {
      FunctionalOk(op, next);
      StepLater(st, next, ParseFunctionalType(op, next));
    }
  }

  lemma {:induction false} TypeOperandOk(op: OpInfo, st: St)
    requires Ends(st.toks)
    ensures StepOk(st, ParseTypeOperand(op, st))
    decreases |st.toks|, 5
  {
    hide ParseElement, EndsInSymbol, Ends;
    ElementOk(op, st, false);
  }

  lemma {:induction false} TypeOk(op: OpInfo, st: St)
    requires Ends(st.toks)
    ensures StepOk(st, ParseType(op, st))
    decreases |st.toks|, 2
  {
    hide ParseTypeOperand, Rest, EndsInSymbol, Ends;
    ExpectOk(st, LParen);
    var e := Expect(st, LParen);
    if e.Ok? {
      TypeOperandOk(op, e.st);
      var a := ParseTypeOperand(op, e.st);
      StepLater(st, e.st, a);
      if a.Ok? {
        ExpectOk(a.st, RParen);
        StepLater(st, a.st, Expect(a.st, RParen));
      }
    }
  }

  lemma {:induction false} FunctionalOk(op: OpInfo, st: St)
    requires Ends(st.toks)
    ensures StepOk(st, ParseFunctionalType(op, st))
    decreases |st.toks|, 2
  {
    hide ParseTypeOperand, ParseResultTypes, Rest, EndsInSymbol, Ends;
    ExpectOk(st, LParen);
    var e := Expect(st, LParen);
    if e.Ok? {
      TypeOperandOk(op, e.st);
      var a := ParseTypeOperand(op, e.st);
      StepLater(st, e.st, a);
      if a.Ok? {
        ExpectOk(a.st, Comma);
        var c := Expect(a.st, Comma);
        StepLater(st, a.st, c);
        if c.Ok? {
          ResultTypesOk(op, c.st, a.v);
          StepLater(st, c.st, ParseResultTypes(op, c.st, a.v));
        }
      }
    }
  }

  lemma {:induction false} ResultTypesOk(op: OpInfo, st: St, inputs: Element)
    requires Ends(st.toks)
    ensures StepOk(st, ParseResultTypes(op, st, inputs))
    decreases |st.toks|, 6
  {
    TypeOperandOk(op, st);
    var a := ParseTypeOperand(op, st);
    if a.Ok? {
      ExpectOk(a.st, RParen);
      StepLater(st, a.st, Expect(a.st, RParen));
    }
  }

  lemma {:induction false} ChildOk(op: OpInfo, st: St, g: Group)
    requires Ends(st.toks)
    ensures StepOk(st, ParseChild(op, st, g))
    decreases |st.toks|, 5
  {
    hide ParseElement, Rest, EndsInSymbol, Ends;
    ElementOk(op, st, true);
    var e := ParseElement(op, st, true);
    if e.Ok? && Cur(e.st) == Caret {
      TakeRest(e.st);
      RestAgain(st.toks, e.st.toks, Take(e.st).toks);
    }
  }

  lemma {:induction false} ChildrenOk(op: OpInfo, st: St, g: Group)
    requires Ends(st.toks)
    ensures StepOk(st, ParseChildren(op, st, g))
    decreases |st.toks|, 6
  {
    ChildOk(op, st, g);
    var c := ParseChild(op, st, g);
    if c.Ok? && Cur(c.st) != RParen {
      ChildrenOk(op, c.st, c.v);
      StepLater(st, c.st, ParseChildren(op, c.st, c.v));
    }
  }

  lemma {:induction false} OptionalOk(op: OpInfo, st: St)
    requires Ends(st.toks) && Cur(st) == LParen
    ensures StepOk(st, ParseOptional(op, st))
    decreases |st.toks|, 2
  {
    hide ParseChildren, Rest, EndsInSymbol, Ends, TypesInside;
    var s0 := Take(st);
    TakeRest(st);
    ChildrenOk(op, s0, Group([], None));
    var c := ParseChildren(op, s0, Group([], None));
    StepLater(st, s0, c);
    if c.Ok? {
      ClosingOk(st, c.st);
      hide Take;
    }
  }

  /** The closing parenthesis of a group and the question mark. */
  lemma ClosingOk(st: St, next: St)
    requires Ends(next.toks) && Cur(next) == RParen && Rest(st.toks, next.toks)
    requires EndsInSymbol(st.toks) ==> EndsInSymbol(next.toks)
    ensures StepOk(st, Expect(Take(next), Question))
  {
    hide Rest, EndsInSymbol, Ends;
    TakeRest(next);
    var last := Take(next);
    RestAgain(st.toks, next.toks, last.toks);
    ExpectOk(last, Question);
    hide StepOk, Take, Expect;
    StepLater(st, last, Expect(last, Question));
  }

  lemma {:induction false} ElementsOk(op: OpInfo, st: St, es: seq<Element>)
    requires Ends(st.toks)
    ensures var r := ParseElements(op, st, es);
            (r.Crash? ==> EndsInSymbol(st.toks)) && (r.Ok? ==> !EndsInSymbol(st.toks))
    decreases |st.toks|
  {
    if Cur(st) != Eof {
      ElementOk(op, st, true);
      var e := ParseElement(op, st, true);
      if e.Ok? {
        ElementsOk(op, e.st, es + [e.v]);
        if EndsInSymbol(e.st.toks) {
          RestEnds(st.toks, e.st.toks);
        }
      }
    }
  }

  lemma RestEnds(toks: seq<Tok>, rest: seq<Tok>)
    requires Rest(toks, rest) && EndsInSymbol(rest)
    ensures EndsInSymbol(toks)
  {
    var n := |toks| - |rest|;
    assert forall i :: 0 <= i < |rest| ==> rest[i] == toks[n + i];
  }

  /** For every op and every format: an assertion fails only if the tokens end in `symbol(`. */
  lemma CrashEndsInSymbol(op: OpInfo, toks: seq<Tok>)
    requires Ends(toks) && !EndsInSymbol(toks)
    ensures ParseFormat(op, toks) != Crashed
  {
    ElementsOk(op, Start(toks), []);
  }

  /** A format whose tokens end so is never accepted, and the assertion fails exactly when no element
      has been rejected before. */
  lemma CrashExact(op: OpInfo, toks: seq<Tok>)
    requires Ends(toks)
    ensures ParseFormat(op, toks) == Crashed <==> EndsInSymbol(toks) && !ParseElements(op, Start(toks), []).Reject?
    ensures EndsInSymbol(toks) ==> !ParseFormat(op, toks).Accepted?
  {
    ElementsOk(op, Start(toks), []);
  }

  // ----- The tokens before `symbol(`

  /** The same state with other tokens in place of the last one. */
  function With(st: St, y: seq<Tok>): St
    requires st.toks != []
  {
    st.(toks := st.toks[..|st.toks| - 1] + y)
  }

  /** Tokens that begin with `symbol`. */
  predicate Tail(y: seq<Tok>) { Ends(y) && y[0].kind == KwSymbol }

  lemma WithEnds(st: St, y: seq<Tok>)
    requires Ends(st.toks) && Tail(y)
    ensures st.toks != [] && Ends(With(st, y).toks)
    ensures !Last(Cur(st)) ==> With(st, y).toks[0] == st.toks[0]
    ensures Last(Cur(st)) ==> With(st, y).toks == y
  {
    var n := |st.toks| - 1;
    var toks := With(st, y).toks;
    assert forall i :: 0 <= i < n ==> toks[i] == st.toks[i];
    assert forall i :: n <= i < |toks| ==> toks[i] == y[i - n];
    if Last(Cur(st)) {
      assert n == 0;
    }
  }

  lemma WithTake(st: St, y: seq<Tok>)
    requires Ends(st.toks) && Tail(y) && !Last(Cur(st))
    ensures Ends(With(st, y).toks) && Cur(With(st, y)) == Cur(st)
    ensures Take(st).toks != [] && Take(With(st, y)) == With(Take(st), y)
  {
    WithEnds(st, y);
    var n := |st.toks| - 1;
    assert (st.toks[..n] + y)[1..] == st.toks[1..][..n - 1] + y;
  }

  /** What has been read before the last token is read in the same way. */
  ghost predicate Alike<T>(r: R<T>, r': R<T>, y: seq<Tok>) { r.Ok? ==> r.st.toks != [] && r' == Ok(r.v, With(r.st, y)) }

  lemma ExpectAlike(st: St, y: seq<Tok>, k: Kind)
    requires Ends(st.toks) && Tail(y) && !Last(k)
    ensures Ends(With(st, y).toks) && Alike(Expect(st, k), Expect(With(st, y), k), y)
  {
    WithEnds(st, y);
    if Cur(st) == k {
      WithTake(st, y);
    }
  }

  lemma OtherAlike(op: OpInfo, st: St, y: seq<Tok>, name: string, top: bool)
    requires Ends(st.toks) && Ends(With(st, y).toks)
    ensures Alike(ParseOther(op, st, name, top), ParseOther(op, With(st, y), name, top), y)
  {
    hide Position;
  }

  lemma BindAlike(st: St, y: seq<Tok>, arg: Element)
    requires st.toks != []
    ensures Alike(BindType(st, arg), BindType(With(st, y), arg), y)
  {
  }

  lemma VariableAlike(op: OpInfo, st: St, y: seq<Tok>, top: bool)
    requires Ends(st.toks) && Tail(y)
    ensures Ends(With(st, y).toks) && Alike(ParseVariable(op, st, top), ParseVariable(op, With(st, y), top), y)
  {
    hide Ends, Position, ParseOther, Tail;
    WithEnds(st, y);
    if !Last(Cur(st)) {
      WithTake(st, y);
      OtherAlike(op, Take(st), y, st.toks[0].text[1..], top);
    }
  }

  lemma SymbolAlike(op: OpInfo, st: St, y: seq<Tok>)
    requires Ends(st.toks) && Tail(y)
    ensures Ends(With(st, y).toks) && Alike(ParseSymbol(op, st), ParseSymbol(op, With(st, y)), y)
  {
    hide Ends, ParseVariable, Expect, With, Tail;
    ExpectAlike(st, y, LParen);
    var e := Expect(st, LParen);
    if e.Ok? {
      VariableAlike(op, e.st, y, false);
      var a := ParseVariable(op, e.st, false);
      if a.Ok? {
        ExpectAlike(a.st, y, RParen);
      }
    }
  }

  lemma {:induction false} ElementAlike(op: OpInfo, st: St, y: seq<Tok>, top: bool)
    requires Ends(st.toks) && Tail(y)
    ensures Ends(With(st, y).toks) && Alike(ParseElement(op, st, top), ParseElement(op, With(st, y), top), y)
    decreases |st.toks|, 4
  {
    hide ParseDirective, ParseVariable, ParseOptional, Ends, With, Tail, IsValidLiteral;
    WithEnds(st, y);
    if !Last(Cur(st)) {
      WithTake(st, y);
      if IsKeyword(Cur(st)) {
        DirectiveAlike(op, st, y, top);
      } else if Cur(st) == Variable {
        VariableAlike(op, st, y, top);
      } else if Cur(st) == LParen && top {
        OptionalAlike(op, st, y);
      }
    }
  }

  lemma {:induction false} DirectiveAlike(op: OpInfo, st: St, y: seq<Tok>, top: bool)
    requires Ends(st.toks) && Tail(y) && IsKeyword(Cur(st))
    ensures Ends(With(st, y).toks) && Cur(With(st, y)) == Cur(st)
    ensures Alike(ParseDirective(op, st, top), ParseDirective(op, With(st, y), top), y)
    decreases |st.toks|, 3
  {
    hide ParseType, ParseFunctionalType, ParseSymbol, Ends, Tail;
    WithTake(st, y);
    var next := Take(st);
    if Cur(st) == KwSymbol {
      SymbolAlike(op, next, y);
    } else if Cur(st) == KwType && top {
      TypeAlike(op, next, y);
    } else if Cur(st) == KwFunctionalType && top {
      FunctionalAlike(op, next, y);
    }
  }

  lemma {:induction false} TypeOperandAlike(op: OpInfo, st: St, y: seq<Tok>)
    requires Ends(st.toks) && Tail(y)
    ensures Ends(With(st, y).toks) && Alike(ParseTypeOperand(op, st), ParseTypeOperand(op, With(st, y)), y)
    decreases |st.toks|, 5
  {
    hide ParseElement, BindType, Ends, With, Tail;
    ElementAlike(op, st, y, false);
    var e := ParseElement(op, st, false);
    if e.Ok? {
      BindAlike(e.st, y, e.v);
    }
  }

  lemma {:induction false} TypeAlike(op: OpInfo, st: St, y: seq<Tok>)
    requires Ends(st.toks) && Tail(y)
    ensures Ends(With(st, y).toks) && Alike(ParseType(op, st), ParseType(op, With(st, y)), y)
    decreases |st.toks|, 2
  {
    hide ParseTypeOperand, Expect, Ends, With, Tail;
    ExpectAlike(st, y, LParen);
    var e := Expect(st, LParen);
    if e.Ok? {
      TypeOperandAlike(op, e.st, y);
      var a := ParseTypeOperand(op, e.st);
      if a.Ok? {
        ExpectAlike(a.st, y, RParen);
      }
    }
  }

  lemma {:induction false} FunctionalAlike(op: OpInfo, st: St, y: seq<Tok>)
    requires Ends(st.toks) && Tail(y)
    ensures Ends(With(st, y).toks) && Alike(ParseFunctionalType(op, st), ParseFunctionalType(op, With(st, y)), y)
    decreases |st.toks|, 2
  {
    hide ParseTypeOperand, ParseResultTypes, Expect, Ends, With, Tail;
    ExpectAlike(st, y, LParen);
    var e := Expect(st, LParen);
    if e.Ok? {
      TypeOperandAlike(op, e.st, y);
      var a := ParseTypeOperand(op, e.st);
      if a.Ok? {
        ExpectAlike(a.st, y, Comma);
        var c := Expect(a.st, Comma);
        if c.Ok? {
          ResultTypesAlike(op, c.st, y, a.v);
        }
      }
    }
  }

  lemma {:induction false} ResultTypesAlike(op: OpInfo, st: St, y: seq<Tok>, inputs: Element)
    requires Ends(st.toks) && Tail(y)
    ensures Ends(With(st, y).toks)
    ensures Alike(ParseResultTypes(op, st, inputs), ParseResultTypes(op, With(st, y), inputs), y)
    decreases |st.toks|, 6
  {
    hide ParseTypeOperand, Expect, Ends, With, Tail;
    TypeOperandAlike(op, st, y);
    var a := ParseTypeOperand(op, st);
    if a.Ok? {
      ExpectAlike(a.st, y, RParen);
    }
  }

  lemma {:induction false} ChildAlike(op: OpInfo, st: St, y: seq<Tok>, g: Group)
    requires Ends(st.toks) && Tail(y)
    ensures Ends(With(st, y).toks) && Alike(ParseChild(op, st, g), ParseChild(op, With(st, y), g), y)
    decreases |st.toks|, 5
  {
    hide ParseElement, Ends, With, IsChild;
    ElementAlike(op, st, y, true);
    var e := ParseElement(op, st, true);
    if e.Ok? {
      WithEnds(e.st, y);
      if !Last(Cur(e.st)) {
        WithTake(e.st, y);
      }
    }
  }

  lemma {:induction false} ChildrenAlike(op: OpInfo, st: St, y: seq<Tok>, g: Group)
    requires Ends(st.toks) && Tail(y)
    ensures Ends(With(st, y).toks) && Alike(ParseChildren(op, st, g), ParseChildren(op, With(st, y), g), y)
    decreases |st.toks|, 6
  {
    hide ParseChild, Ends, With;
    ChildAlike(op, st, y, g);
    var c := ParseChild(op, st, g);
    if c.Ok? {
      WithEnds(c.st, y);
      if Cur(c.st) != RParen {
        ChildrenAlike(op, c.st, y, c.v);
      }
    }
  }

  lemma {:induction false} OptionalAlike(op: OpInfo, st: St, y: seq<Tok>)
    requires Ends(st.toks) && Tail(y) && Cur(st) == LParen
    ensures Ends(With(st, y).toks) && Cur(With(st, y)) == LParen
    ensures Alike(ParseOptional(op, st), ParseOptional(op, With(st, y)), y)
    decreases |st.toks|, 2
  {
    hide ParseChildren, Expect, Ends, With, Tail, TypesInside;
    WithTake(st, y);
    ChildrenAlike(op, Take(st), y, Group([], None));
    var c := ParseChildren(op, Take(st), Group([], None));
    if c.Ok? {
      WithTake(c.st, y);
      ExpectAlike(Take(c.st), y, Question);
    }
  }

  /** Where the elements end, the other tokens go on. */
  lemma {:induction false} ElementsAlike(op: OpInfo, st: St, y: seq<Tok>, es: seq<Element>)
    requires Ends(st.toks) && Tail(y) && ParseElements(op, st, es).Ok?
    ensures var r := ParseElements(op, st, es);
            && Ends(With(st, y).toks) && Ends(r.st.toks) && r.st.toks != [] && Ends(With(r.st, y).toks)
            && Last(Cur(r.st))
            && ParseElements(op, With(st, y), es) == ParseElements(op, With(r.st, y), r.v)
    decreases |st.toks|
  {
    hide ParseElement, Ends, With, Tail;
    WithEnds(st, y);
    if Cur(st) != Eof {
      ElementAlike(op, st, y, true);
      var e := ParseElement(op, st, true);
      NotAtEnd(op, st);
      WithTake(st, y);
      ElementsAlike(op, e.st, y, es + [e.v]);
    }
  }

  lemma NotAtEnd(op: OpInfo, st: St)
    requires Ends(st.toks) && ParseElement(op, st, true).Ok?
    ensures !Last(Cur(st))
  {
    hide ParseDirective, ParseOptional;
  }

  /** `symbol(` and the last token, where an element is expected. */
  lemma SymbolCrashes(op: OpInfo, st: St, last: Tok, es: seq<Element>)
    requires st.toks == [Tok(KwSymbol, "symbol"), Tok(LParen, "("), last] && Last(last.kind)
    ensures Ends(st.toks) && ParseElements(op, st, es) == Crash
  {
    assert Ends(st.toks);
    assert st.toks[1..] == [Tok(LParen, "("), last];
    assert Take(st).toks[1..] == [last];
    assert ParseSymbol(op, Take(st)) == Crash;
    assert ParseElement(op, st, true) == Crash;
  }

  /** For every op, and all tokens that are elements by themselves: with `symbol(` after them the
      assertion fails, whether the buffer then ends or goes on with an error. */
  lemma CrashAfterElements(op: OpInfo, front: seq<Tok>, end: Tok, last: Tok)
    requires Ends(front + [end]) && Last(last.kind) && ParseElements(op, Start(front + [end]), []).Ok?
    ensures var toks := front + [Tok(KwSymbol, "symbol"), Tok(LParen, "("), last];
            Ends(toks) && ParseFormat(op, toks) == Crashed
  {
    hide Ends, ParseElements;
    var y := [Tok(KwSymbol, "symbol"), Tok(LParen, "("), last];
    var st := Start(front + [end]);
    TailEnds(last);
    ElementsAlike(op, st, y, []);
    assert (front + [end])[..|front|] == front;
    var r := ParseElements(op, st, []);
    WithEnds(r.st, y);
    SymbolCrashes(op, With(r.st, y), last, r.v);
  }

  lemma TailEnds(last: Tok)
    requires Last(last.kind)
    ensures Tail([Tok(KwSymbol, "symbol"), Tok(LParen, "("), last])
  {
  }
}
