/** Formats written out token by token, and what lexing them gives. */
module FormatWords {
  import opened FormatLexer
  import opened FormatGrammar

  /** One spelling of each kind that has only one, and a variable. */
  function Word(k: Kind): string {
    match k
    case LParen => "("
    case RParen => ")"
    case Caret => "^"
    case Comma => ","
    case Equal => "="
    case Question => "?"
    case KwAttrDict => "attr-dict"
    case KwAttrDictWithKeyword => "attr-dict-with-keyword"
    case KwFunctionalType => "functional-type"
    case KwOperands => "operands"
    case KwResults => "results"
    case KwSuccessors => "successors"
    case KwType => "type"
    case KwSymbol => "symbol"
    case KwDims => "dims"
    case Variable => "$a"
    case _ => ""
  }

  function T(k: Kind): Tok { Tok(k, Word(k)) }

  const EOF_TOK: Tok := Tok(Eof, "")

  // ----- Where in a buffer a token stands does not matter

  lemma {:induction false} SkipShift(a: string, b: string, p: nat)
    requires p <= |b|
    ensures SkipBlanks(a + b, |a| + p) == |a| + SkipBlanks(b, p)
    decreases |b| - p
  {
    if p < |b| && IsBlank(b[p]) {
      SkipShift(a, b, p + 1);
    }
  }

  lemma {:induction false} WhileShift(a: string, b: string, p: nat, inside: char -> bool)
    requires p <= |b|
    ensures While(a + b, |a| + p, inside) == |a| + While(b, p, inside)
    decreases |b| - p
  {
    if p < |b| && inside(b[p]) {
      WhileShift(a, b, p + 1, inside);
    }
  }

  function Moved(t: Token, n: nat): Token { Token(t.kind, n + t.first, n + t.last) }

  lemma AtShift(a: string, b: string, p: nat)
    ensures At(a + b, |a| + p) == At(b, p)
  {
  }

  lemma TokenShift(a: string, b: string, s: nat)
    requires s <= |b|
    ensures TokenAt(a + b, |a| + s) == Moved(TokenAt(b, s), |a|)
  {
    AtShift(a, b, s);
    var c := At(b, s);
    if s < |b| {
      if c == '`' {
        LiteralShift(a, b, s);
      } else if c == '$' {
        AtShift(a, b, s + 1);
        WhileShift(a, b, s + 1, InVariable);
        hide While, At;
      } else if IsAlpha(c) || c == '_' {
        IdentifierShift(a, b, s);
        hide While, At, KindOf;
      }
    }
  }

  lemma LiteralShift(a: string, b: string, s: nat)
    requires s < |b| && b[s] == '`'
    ensures TokenAt(a + b, |a| + s) == Moved(TokenAt(b, s), |a|)
  {
    AtShift(a, b, s);
    WhileShift(a, b, s + 1, InLiteral);
    AtShift(a, b, While(b, s + 1, InLiteral));
    hide While, At;
  }

  lemma IdentifierShift(a: string, b: string, s: nat)
    requires s < |b|
    ensures var e, f := While(b, s + 1, InIdentifier), While(a + b, |a| + s + 1, InIdentifier);
            f == |a| + e && (a + b)[|a| + s..f] == b[s..e]
  {
    WhileShift(a, b, s + 1, InIdentifier);
  }

  lemma SpellingShift(a: string, b: string, t: Token)
    ensures Spelling(a + b, Moved(t, |a|)) == Spelling(b, t)
  {
    if t.first <= t.last <= |b| {
      assert (a + b)[|a| + t.first..|a| + t.last] == b[t.first..t.last];
    }
  }

  function ToksFrom(buf: string, p: nat): seq<Tok>
    requires p <= |buf|
  {
    var r := LexFrom(buf, p);
    Spelled(buf, r.tokens) + [Tok(r.end.kind, Spelling(buf, r.end))]
  }

  function One(buf: string, t: Token): Tok { Tok(t.kind, Spelling(buf, t)) }

  lemma NextShift(a: string, b: string, p: nat)
    requires p <= |b|
    ensures Next(a + b, |a| + p) == Moved(Next(b, p), |a|)
    ensures One(a + b, Next(a + b, |a| + p)) == One(b, Next(b, p))
    ensures !Last(Next(b, p).kind) ==> p < Next(b, p).last <= |b|
  {
    hide TokenAt, SkipBlanks, Spelling, IsBlank;
    SkipShift(a, b, p);
    TokenShift(a, b, SkipBlanks(b, p));
    SpellingShift(a, b, Next(b, p));
    Progress(b, SkipBlanks(b, p));
  }

  /** What comes before does not matter. */
  lemma {:induction false} FromShift(a: string, b: string, p: nat)
    requires p <= |b|
    ensures ToksFrom(a + b, |a| + p) == ToksFrom(b, p)
    decreases |b| - p
  {
    hide Next, ToksFrom, One;
    NextShift(a, b, p);
    var t := Next(b, p);
    if Last(t.kind) {
      FromEnd(b, p, t);
      FromEnd(a + b, |a| + p, Moved(t, |a|));
    } else {
      FromShift(a, b, t.last);
      FromMore(b, p, t);
      FromMore(a + b, |a| + p, Moved(t, |a|));
    }
  }

  lemma FromEnd(buf: string, p: nat, t: Token)
    requires p <= |buf| && Next(buf, p) == t && Last(t.kind)
    ensures ToksFrom(buf, p) == [One(buf, t)]
  {
  }

  lemma FromMore(buf: string, p: nat, t: Token)
    requires p <= |buf| && Next(buf, p) == t && !Last(t.kind)
    ensures t.last <= |buf| && ToksFrom(buf, p) == [One(buf, t)] + ToksFrom(buf, t.last)
  {
    Progress(buf, SkipBlanks(buf, p));
    hide TokenAt, Spelling, Next;
    var rest := LexFrom(buf, t.last).tokens;
    assert ([t] + rest)[1..] == rest;
  }

  // ----- One token at the front of a buffer

  predicate Gap(gap: string) { gap == "" || gap == " " }

  lemma Front(gap: string, word: string, rest: string, k: Kind)
    requires Gap(gap) && word != "" && !IsBlank(word[0]) && !Last(k)
    requires TokenAt(word + rest, 0) == Token(k, 0, |word|)
    ensures Toks(gap + word + rest) == [Tok(k, word)] + Toks(rest)
  {
    var buf := gap + word + rest;
    var t := Token(k, |gap|, |gap| + |word|);
    FrontNext(gap, word, rest, k);
    hide Next, ToksFrom, Toks, One, TokenAt, IsBlank;
    FromMore(buf, 0, t);
    FromFront(gap + word, rest);
    FromStart(buf);
    FromStart(rest);
  }

  lemma FromFront(a: string, b: string)
    ensures ToksFrom(a + b, |a|) == ToksFrom(b, 0)
  {
    hide ToksFrom;
    FromShift(a, b, 0);
  }

  lemma FromStart(buf: string)
    ensures Toks(buf) == ToksFrom(buf, 0)
  {
    hide LexFrom, Spelled, Spelling;
  }

  lemma FrontNext(gap: string, word: string, rest: string, k: Kind)
    requires Gap(gap) && word != "" && !IsBlank(word[0]) && !Last(k)
    requires TokenAt(word + rest, 0) == Token(k, 0, |word|)
    ensures var t := Token(k, |gap|, |gap| + |word|); var buf := gap + word + rest;
            Next(buf, 0) == t && One(buf, t) == Tok(k, word)
  {
    var buf := gap + word + rest;
    assert buf == gap + (word + rest);
    FrontSkip(gap, word, rest);
    TokenShift(gap, word + rest, 0);
    assert buf[|gap|..|gap| + |word|] == word;
    hide TokenAt, SkipBlanks;
  }

  lemma FrontSkip(gap: string, word: string, rest: string)
    requires Gap(gap) && word != "" && !IsBlank(word[0])
    ensures SkipBlanks(gap + word + rest, 0) == |gap|
  {
    assert (gap + word + rest)[|gap|] == word[0];
  }

  /** The kinds that are one mark, and the ones that are spelled like an identifier. */
  predicate IsMark(k: Kind) {
    k == LParen || k == RParen || k == Caret || k == Comma || k == Equal || k == Question
  }

  predicate IsWord(k: Kind) { IsKeyword(k) }

  /** `rest` does not continue an identifier. */
  predicate Parted(rest: string) { rest != "" ==> !InIdentifier(rest[0]) }

  lemma WordIs(k: Kind)
    requires IsWord(k)
    ensures var w := Word(k);
            w != "" && IsAlpha(w[0]) && KindOf(w) == k && forall i :: 0 <= i < |w| ==> InIdentifier(w[i])
  {
  }

  lemma FirstWord(gap: string, k: Kind, rest: string)
    requires Gap(gap) && IsWord(k) && Parted(rest)
    ensures Toks(gap + Word(k) + rest) == [T(k)] + Toks(rest)
  {
    var w := Word(k);
    WordIs(k);
    hide Word, KindOf, Toks;
    WordAtFront(w, rest);
    hide TokenAt, InIdentifier;
    Front(gap, w, rest, k);
  }

  lemma WordAtFront(w: string, rest: string)
    requires w != "" && IsAlpha(w[0]) && (forall i :: 0 <= i < |w| ==> InIdentifier(w[i])) && Parted(rest)
    ensures TokenAt(w + rest, 0) == Token(KindOf(w), 0, |w|)
  {
    hide KindOf;
    WhileIs(w + rest, 1, |w|, InIdentifier);
    assert (w + rest)[0..|w|] == w;
  }

  lemma FirstMark(gap: string, k: Kind, rest: string)
    requires Gap(gap) && IsMark(k)
    ensures Toks(gap + Word(k) + rest) == [T(k)] + Toks(rest)
  {
    Front(gap, Word(k), rest, k);
  }

  lemma FirstVariable(gap: string, rest: string)
    requires Gap(gap) && Parted(rest)
    ensures Toks(gap + "$a" + rest) == [T(Variable)] + Toks(rest)
  {
    VariableAtFront(rest);
    hide TokenAt, Toks;
    Front(gap, "$a", rest, Variable);
  }

  lemma VariableAtFront(rest: string)
    requires Parted(rest)
    ensures TokenAt("$a" + rest, 0) == Token(Variable, 0, 2)
  {
    var buf := "$a" + rest;
    assert buf[0] == '$' && buf[1] == 'a' && buf[2..] == rest;
    WhileIs(buf, 1, 2, InVariable);
    hide While;
  }

  /** Any of them. */
  lemma First(gap: string, k: Kind, rest: string, text: string)
    requires Gap(gap) && (IsMark(k) || ((IsWord(k) || k == Variable) && Parted(rest)))
    requires text == gap + Word(k) + rest
    ensures Toks(text) == [T(k)] + Toks(rest)
  {
    hide Toks, Parted;
    if IsMark(k) {
      FirstMark(gap, k, rest);
    } else if IsWord(k) {
      FirstWord(gap, k, rest);
    } else {
      FirstVariable(gap, rest);
    }
  }

  /** A literal between backticks. */
  function L(value: string): Tok { Tok(Literal, "`" + value + "`") }

  predicate Quotable(value: string) { forall i :: 0 <= i < |value| ==> InLiteral(value[i]) }

  lemma LiteralAtFront(value: string, rest: string)
    requires Quotable(value)
    ensures TokenAt("`" + value + "`" + rest, 0) == Token(Literal, 0, |value| + 2)
  {
    var buf := "`" + value + "`" + rest;
    assert buf[0] == '`' && buf[|value| + 1] == '`';
    assert forall i :: 1 <= i < |value| + 1 ==> buf[i] == value[i - 1];
    WhileIs(buf, 1, |value| + 1, InLiteral);
    hide While;
  }

  lemma FirstLiteral(gap: string, value: string, rest: string, text: string)
    requires Gap(gap) && Quotable(value) && text == gap + ("`" + value + "`") + rest
    ensures Toks(text) == [L(value)] + Toks(rest)
  {
    LiteralAtFront(value, rest);
    hide TokenAt, Toks;
    Front(gap, "`" + value + "`", rest, Literal);
  }

  lemma NoTokens()
    ensures Toks("") == [EOF_TOK]
  {
  }

  // ----- Every token with a fixed spelling

  lemma KeywordExact(name: string, k: Kind)
    requires IsWord(k)
    ensures KindOf(name) == k <==> name == Word(k)
  {
    WordIs(k);
  }

  lemma TokenExact(buf: string, s: nat, k: Kind)
    requires s <= |buf| && !Last(TokenAt(buf, s).kind) && (IsMark(k) || IsWord(k))
    ensures var t := TokenAt(buf, s); t.kind == k <==> Spelling(buf, t) == Word(k)
  {
    hide While;
    var t := TokenAt(buf, s);
    Progress(buf, s);
    var word := Spelling(buf, t);
    assert word[0] == buf[s];
    if IsWord(k) {
      hide Word, KindOf;
      WordIs(k);
      KeywordExact(word, k);
    } else {
      hide KindOf;
    }
  }

  /** For every buffer: a token is a keyword or a mark exactly when it is spelled as one. */
  lemma {:induction false} WordsExact(buf: string, p: nat, t: Token, k: Kind)
    requires p <= |buf| && t in LexFrom(buf, p).tokens && (IsMark(k) || IsWord(k))
    ensures t.kind == k <==> Spelling(buf, t) == Word(k)
    decreases |buf| - p
  {
    hide TokenAt, Word;
    var first := Next(buf, p);
    Progress(buf, SkipBlanks(buf, p));
    if t == first {
      TokenExact(buf, SkipBlanks(buf, p), k);
    } else {
      assert LexFrom(buf, p).tokens == [first] + LexFrom(buf, first.last).tokens;
      WordsExact(buf, first.last, t, k);
    }
  }
}
