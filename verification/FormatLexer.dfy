/** The lexer of formats. */
module FormatLexer {
  // A position moves over a NUL-terminated buffer.

  datatype Kind =
    | Eof | Error
    | LParen | RParen | Caret | Comma | Equal | Question
    | KwAttrDict | KwAttrDictWithKeyword | KwFunctionalType | KwOperands | KwResults | KwSuccessors
    | KwType | KwSymbol | KwDims
    | Identifier | Literal | Variable

  /** A token spells the characters from `first` up to `last`. */
  datatype Token = Token(kind: Kind, first: nat, last: nat)

  const NUL: char := 0 as char
  /** Read as a signed byte, this one equals the end-of-file mark. */
  const ALL_ONES: char := 255 as char

  // ----- What is in the buffer

  function At(buf: string, p: nat): char { if p < |buf| then buf[p] else NUL }

  predicate IsAlpha(c: char) { 'a' <= c <= 'z' || 'A' <= c <= 'Z' }

  predicate IsAlnum(c: char) { IsAlpha(c) || '0' <= c <= '9' }

  predicate IsNewline(c: char) { c == '\n' || c == '\r' }

  predicate IsBlank(c: char) { c == NUL || c == ' ' || c == '\t' || IsNewline(c) }

  predicate InVariable(c: char) { IsAlnum(c) || c == '_' }

  predicate InIdentifier(c: char) { IsAlnum(c) || c == '_' || c == '-' }

  function Punctuation(c: char): Kind {
    match c
    case '^' => Caret
    case ',' => Comma
    case '=' => Equal
    case '?' => Question
    case '(' => LParen
    case ')' => RParen
    case _ => Error
  }

  function KindOf(name: string): Kind {
    if name == "attr-dict" then KwAttrDict
    else if name == "attr-dict-with-keyword" then KwAttrDictWithKeyword
    else if name == "functional-type" then KwFunctionalType
    else if name == "operands" then KwOperands
    else if name == "results" then KwResults
    else if name == "successors" then KwSuccessors
    else if name == "type" then KwType
    else if name == "symbol" then KwSymbol
    else if name == "dims" then KwDims
    else Identifier
  }

  // ----- Which token comes next

  function SkipBlanks(buf: string, p: nat): (q: nat)
    requires p <= |buf|
    ensures p <= q <= |buf| && (forall i :: p <= i < q ==> IsBlank(buf[i])) && (q < |buf| ==> !IsBlank(buf[q]))
    decreases |buf| - p
  {
    if p < |buf| && IsBlank(buf[p]) then SkipBlanks(buf, p + 1) else p
  }

  function While(buf: string, p: nat, inside: char -> bool): (q: nat)
    requires p <= |buf|
    ensures p <= q <= |buf| && (forall i :: p <= i < q ==> inside(buf[i])) && (q < |buf| ==> !inside(buf[q]))
    decreases |buf| - p
  {
    if p < |buf| && inside(buf[p]) then While(buf, p + 1, inside) else p
  }

  predicate InLiteral(c: char) { c != '`' && c != NUL }

  /** The token that starts at `s`, which is not blank. */
  function TokenAt(buf: string, s: nat): (t: Token)
    requires s <= |buf|
  {
    var c := At(buf, s);
    if s == |buf| then Token(Eof, s, s)
    else if c == ALL_ONES then Token(Eof, s, s + 1)
    else if Punctuation(c) != Error then Token(Punctuation(c), s, s + 1)
    else if c == '`' then
      var e := While(buf, s + 1, InLiteral);
      if At(buf, e) == '`' then Token(Literal, s, e + 1) else Token(Error, e, e + 1)
    else if c == '$' then
      if IsAlpha(At(buf, s + 1)) || At(buf, s + 1) == '_' then Token(Variable, s, While(buf, s + 1, InVariable))
      else Token(Error, s, s + 1)
    else if IsAlpha(c) || c == '_' then
      var e := While(buf, s + 1, InIdentifier);
      Token(KindOf(buf[s..e]), s, e)
    else Token(Error, s, s + 1)
  }

  function Next(buf: string, p: nat): Token
    requires p <= |buf|
  {
    TokenAt(buf, SkipBlanks(buf, p))
  }

  predicate Last(k: Kind) { k == Eof || k == Error }

  lemma Progress(buf: string, s: nat)
    requires s <= |buf|
    ensures var t := TokenAt(buf, s); !Last(t.kind) ==> t.first == s < t.last <= |buf|
    ensures var t := TokenAt(buf, s); t.last <= |buf| + 1
  {
  }

  // ----- The lexer object

  class Lexer {
    const buf: string
    var curPtr: nat

    constructor (buf: string)
      ensures this.buf == buf && curPtr == 0
    {
      this.buf, curPtr := buf, 0;
    }

    /** `None` is the end of the file; a NUL inside the buffer is read as a character. */
    method GetNextChar() returns (eof: bool, c: char)
      requires curPtr <= |buf|
      modifies this
      ensures eof == (old(curPtr) == |buf| || buf[old(curPtr)] == ALL_ONES)
      ensures old(curPtr) == |buf| ==> curPtr == old(curPtr)
      ensures old(curPtr) < |buf| ==> old(curPtr) < curPtr <= |buf| && (curPtr == old(curPtr) + 1 || IsNewline(c))
      ensures !eof ==> c == (if IsNewline(buf[old(curPtr)]) then '\n' else buf[old(curPtr)])
      ensures curPtr == old(curPtr) + 2 ==> IsNewline(buf[old(curPtr) + 1])
      ensures curPtr <= old(curPtr) + if eof then 1 else 2
    {
      var curChar := At(buf, curPtr);
      curPtr := curPtr + 1;
      if curChar == NUL {
        if curPtr - 1 != |buf| {
          return false, NUL;
        }
        curPtr := curPtr - 1;
        return true, NUL;
      } else if curChar == '\n' || curChar == '\r' {
        if IsNewline(At(buf, curPtr)) && At(buf, curPtr) != curChar {
          curPtr := curPtr + 1;
        }
        return false, '\n';
      }
      eof, c := curChar == ALL_ONES, curChar;
    }

    method LexToken() returns (t: Token)
      requires curPtr <= |buf|
      modifies this
      ensures t == Next(buf, old(curPtr)) && curPtr == t.last
      decreases |buf| - curPtr
    {
      var tokStart := curPtr;
      var eof, curChar := GetNextChar();
      if eof {
        return Token(Eof, tokStart, curPtr);
      }
      if curChar == NUL || curChar == ' ' || curChar == '\t' || curChar == '\n' {
        SkipMore(buf, tokStart, curPtr);
        t := LexToken();
      } else if Punctuation(curChar) != Error {
        t := Token(Punctuation(curChar), tokStart, curPtr);
      } else if curChar == '`' {
        t := LexLiteral(tokStart);
      } else if curChar == '$' {
        t := LexVariable(tokStart);
      } else if IsAlpha(curChar) || curChar == '_' {
        t := LexIdentifier(tokStart);
      } else {
        t := Token(Error, tokStart, curPtr);
      }
    }

    method LexLiteral(tokStart: nat) returns (t: Token)
      requires tokStart < |buf| && curPtr == tokStart + 1 && buf[tokStart] == '`'
      modifies this
      ensures t == TokenAt(buf, tokStart) && curPtr == t.last
    {
      ghost var e := While(buf, tokStart + 1, InLiteral);
      while At(buf, curPtr) != NUL
        invariant tokStart < curPtr <= e
        decreases |buf| - curPtr
      {
        curPtr := curPtr + 1;
        if buf[curPtr - 1] == '`' {
          return Token(Literal, tokStart, curPtr);
        }
      }
      curPtr := curPtr + 1;
      t := Token(Error, curPtr - 1, curPtr);
    }

    method LexVariable(tokStart: nat) returns (t: Token)
      requires tokStart < |buf| && curPtr == tokStart + 1 && buf[tokStart] == '$'
      modifies this
      ensures t == TokenAt(buf, tokStart) && curPtr == t.last
    {
      if !IsAlpha(At(buf, curPtr)) && At(buf, curPtr) != '_' {
        return Token(Error, curPtr - 1, curPtr);
      }
      while InVariable(At(buf, curPtr))
        invariant tokStart < curPtr <= While(buf, tokStart + 1, InVariable)
        decreases |buf| - curPtr
      {
        curPtr := curPtr + 1;
      }
      t := Token(Variable, tokStart, curPtr);
    }

    method LexIdentifier(tokStart: nat) returns (t: Token)
      requires tokStart < |buf| && curPtr == tokStart + 1 && (IsAlpha(buf[tokStart]) || buf[tokStart] == '_')
      modifies this
      ensures t == TokenAt(buf, tokStart) && curPtr == t.last
    {
      while InIdentifier(At(buf, curPtr))
        invariant tokStart < curPtr <= While(buf, tokStart + 1, InIdentifier)
        decreases |buf| - curPtr
      {
        curPtr := curPtr + 1;
      }
      t := Token(KindOf(buf[tokStart..curPtr]), tokStart, curPtr);
    }
  }

  lemma {:induction false} SkipMore(buf: string, p: nat, q: nat)
    requires p < q <= |buf| && q <= p + 2 && IsBlank(buf[p]) && (q == p + 2 ==> IsBlank(buf[p + 1]))
    ensures SkipBlanks(buf, p) == SkipBlanks(buf, q)
  {
    assert SkipBlanks(buf, p) == SkipBlanks(buf, p + 1);
  }

  // ----- All tokens of a buffer

  /** The tokens up to the first that ends lexing, and that one. */
  datatype Lexed = Lexed(tokens: seq<Token>, end: Token)

  function LexFrom(buf: string, p: nat): Lexed
    requires p <= |buf|
    decreases |buf| - p
  {
    var t := Next(buf, p);
    Progress(buf, SkipBlanks(buf, p));
    if Last(t.kind) then Lexed([], t)
    else
      var rest := LexFrom(buf, t.last);
      Lexed([t] + rest.tokens, rest.end)
  }

  /** Lexing a whole buffer, as the format parser drives it. */
  method LexAll(lexer: Lexer) returns (r: Lexed)
    requires lexer.curPtr == 0
    modifies lexer
    ensures r == LexFrom(lexer.buf, 0)
  {
    var tokens: seq<Token> := [];
    var t := lexer.LexToken();
    ghost var all := LexFrom(lexer.buf, 0);
    ghost var before := 0;
    while !Last(t.kind)
      invariant before <= |lexer.buf| && t == Next(lexer.buf, before) && lexer.curPtr == t.last
      invariant all == Lexed(tokens + LexFrom(lexer.buf, before).tokens, LexFrom(lexer.buf, before).end)
      decreases |lexer.buf| - before
    {
      Progress(lexer.buf, SkipBlanks(lexer.buf, before));
      before := t.last;
      tokens := tokens + [t];
      t := lexer.LexToken();
    }
    r := Lexed(tokens, t);
  }

  predicate Blanks(s: string) { forall i :: 0 <= i < |s| ==> IsBlank(s[i]) }

  function Spelling(buf: string, t: Token): string { if t.first <= t.last <= |buf| then buf[t.first..t.last] else "" }

  /** From `p` on: tokens in order, none empty, none overlapping, and only blanks between them. */
  predicate Slices(buf: string, p: nat, tokens: seq<Token>)
    requires p <= |buf|
    decreases |tokens|
  {
    if tokens == [] then true
    else
      var t := tokens[0];
      p <= t.first < t.last <= |buf| && Blanks(buf[p..t.first]) && Slices(buf, t.last, tokens[1..])
  }

  /** Where the last token ends. */
  function EndOf(p: nat, tokens: seq<Token>): nat { if tokens == [] then p else tokens[|tokens| - 1].last }

  /** For every buffer: the tokens are ordered disjoint slices with only blanks between them, and
      when lexing reaches the end of the buffer nothing but blanks follows the last of them. */
  lemma {:induction false} TokensAreSlices(buf: string, p: nat)
    requires p <= |buf|
    ensures var r := LexFrom(buf, p);
            && Slices(buf, p, r.tokens) && EndOf(p, r.tokens) <= |buf|
            && (r.end.kind == Eof ==> r.end == Token(Eof, |buf|, |buf|) || At(buf, r.end.first) == ALL_ONES)
            && (r.end == Token(Eof, |buf|, |buf|) ==> Blanks(buf[EndOf(p, r.tokens)..]))
    decreases |buf| - p
  {
    var t := Next(buf, p);
    Progress(buf, SkipBlanks(buf, p));
    if !Last(t.kind) {
      TokensAreSlices(buf, t.last);
      var r := LexFrom(buf, p);
      assert r.tokens[1..] == LexFrom(buf, t.last).tokens;
    }
  }

  // ----- Where lexing ends

  /** How many backticks there are from `p` up to `q`. */
  function Ticks(buf: string, p: nat, q: nat): nat
    requires p <= q <= |buf|
    decreases q - p
  {
    if p == q then 0 else Ticks(buf, p, q - 1) + if buf[q - 1] == '`' then 1 else 0
  }

  lemma {:induction false} TicksSplit(buf: string, p: nat, q: nat, r: nat)
    requires p <= q <= r <= |buf|
    ensures Ticks(buf, p, r) == Ticks(buf, p, q) + Ticks(buf, q, r)
    decreases r - q
  {
    if q < r {
      TicksSplit(buf, p, q, r - 1);
    }
  }

  lemma {:induction false} TicksNone(buf: string, p: nat, q: nat)
    requires p <= q <= |buf| && forall i :: p <= i < q ==> buf[i] != '`'
    ensures Ticks(buf, p, q) == 0
    decreases q - p
  {
    if p < q {
      TicksNone(buf, p, q - 1);
    }
  }

  /** Every byte 255 is inside a literal: an odd number of backticks comes before it. */
  predicate OnesInLiterals(buf: string, p: nat)
    requires p <= |buf|
  {
    forall i :: p <= i < |buf| && buf[i] == ALL_ONES ==> Ticks(buf, p, i) % 2 == 1
  }

  /** What a token that does not end lexing spans: blanks, then no byte 255 and no backtick, or a literal
      between its two backticks. */
  lemma TokenTicks(buf: string, p: nat)
    requires p <= |buf| && !Last(Next(buf, p).kind)
    ensures var t := Next(buf, p);
            && p < t.last <= |buf| && Ticks(buf, p, t.last) % 2 == 0
            && forall i :: p <= i < t.last && buf[i] == ALL_ONES ==> Ticks(buf, p, i) % 2 == 1
  {
    var s := SkipBlanks(buf, p);
    var t := TokenAt(buf, s);
    TicksNone(buf, p, s);
    if t.kind == Literal {
      assert Ticks(buf, p, s + 1) == 1;
      forall i | s < i < t.last
        ensures Ticks(buf, p, i) == 1
      {
        TicksNone(buf, s + 1, i);
        TicksSplit(buf, p, s + 1, i);
      }
    } else {
      PlainToken(buf, s);
      TicksNone(buf, p, t.last);
    }
  }

  lemma PlainToken(buf: string, s: nat)
    requires s <= |buf| && !Last(TokenAt(buf, s).kind) && TokenAt(buf, s).kind != Literal
    ensures var t := TokenAt(buf, s);
            s < t.last <= |buf| && forall i :: s <= i < t.last ==> buf[i] != ALL_ONES && buf[i] != '`'
  {
  }

  /** Lexing that meets no error reads the whole buffer exactly when no byte 255 stands outside a
      literal. */
  lemma {:induction false} EndExact(buf: string, p: nat)
    requires p <= |buf| && LexFrom(buf, p).end.kind == Eof
    ensures LexFrom(buf, p).end == Token(Eof, |buf|, |buf|) <==> OnesInLiterals(buf, p)
    decreases |buf| - p
  {
    var t := Next(buf, p);
    if Last(t.kind) {
      EndNow(buf, p);
    } else {
      TokenTicks(buf, p);
      TicksLater(buf, p, t.last);
      hide Next, OnesInLiterals;
      EndExact(buf, t.last);
    }
  }

  lemma EndNow(buf: string, p: nat)
    requires p <= |buf| && Next(buf, p).kind == Eof
    ensures Next(buf, p) == Token(Eof, |buf|, |buf|) <==> OnesInLiterals(buf, p)
  {
    var s := SkipBlanks(buf, p);
    TicksNone(buf, p, s);
    hide While, KindOf;
    if s < |buf| {
      assert buf[s] == ALL_ONES;
    }
  }

  /** Past a stretch with an even number of backticks and no byte 255 outside its literals. */
  lemma TicksLater(buf: string, p: nat, q: nat)
    requires p <= q <= |buf| && Ticks(buf, p, q) % 2 == 0
    requires forall i :: p <= i < q && buf[i] == ALL_ONES ==> Ticks(buf, p, i) % 2 == 1
    ensures OnesInLiterals(buf, p) <==> OnesInLiterals(buf, q)
  {
    hide Ticks;
    forall i | q <= i < |buf|
      ensures Ticks(buf, p, i) % 2 == Ticks(buf, q, i) % 2
    {
      TicksSplit(buf, p, q, i);
    }
  }

  /** A buffer without such a byte is read to its end, or lexing meets an error. */
  lemma WithoutOnes(buf: string)
    requires forall i :: 0 <= i < |buf| ==> buf[i] != ALL_ONES
    ensures var end := LexFrom(buf, 0).end; end == Token(Eof, |buf|, |buf|) || end.kind == Error
  {
    EndIsLast(buf, 0);
    if LexFrom(buf, 0).end.kind == Eof {
      EndExact(buf, 0);
    }
  }

  lemma {:induction false} EndIsLast(buf: string, p: nat)
    requires p <= |buf|
    ensures Last(LexFrom(buf, p).end.kind)
    decreases |buf| - p
  {
    Progress(buf, SkipBlanks(buf, p));
    if !Last(Next(buf, p).kind) {
      EndIsLast(buf, Next(buf, p).last);
    }
  }

  /** Three bytes, the middle one 255: the third is never read. */
  lemma OnesEndLexing()
    ensures LexFrom(['a', ALL_ONES, 'b'], 0) == Lexed([Token(Identifier, 0, 1)], Token(Eof, 1, 2))
  {
    var buf := ['a', ALL_ONES, 'b'];
    assert buf[0..1] == "a";
    assert Next(buf, 0) == Token(Identifier, 0, 1);
    assert Next(buf, 1) == Token(Eof, 1, 2);
    assert [Token(Identifier, 0, 1)] + [] == [Token(Identifier, 0, 1)];
  }

  // ----- Lexing the spellings again

  predicate Delimited(rest: string) { rest == "" || rest[0] == ' ' }

  lemma WhileIs(buf: string, p: nat, q: nat, inside: char -> bool)
    requires p <= q <= |buf| && (forall i :: p <= i < q ==> inside(buf[i])) && (q < |buf| ==> !inside(buf[q]))
    ensures While(buf, p, inside) == q
  {
  }

  /** `out` holds the characters of `buf` from `s` up to `e` at `at`, and then a space or nothing. */
  predicate Holds(out: string, at: nat, buf: string, s: nat, e: nat) {
    && s <= e <= |buf| && at + (e - s) <= |out| && out[at..at + (e - s)] == buf[s..e]
    && (at + (e - s) < |out| ==> out[at + (e - s)] == ' ')
  }

  lemma HoldsAt(out: string, at: nat, buf: string, s: nat, e: nat, i: nat)
    requires Holds(out, at, buf, s, e) && s <= i < e
    ensures at + (i - s) < |out| && i < |buf| && out[at + (i - s)] == buf[i]
  {
    assert out[at..at + (e - s)][i - s] == buf[s..e][i - s];
  }

  lemma WhileAgain(out: string, at: nat, buf: string, s: nat, e: nat, inside: char -> bool)
    requires Holds(out, at, buf, s, e) && s < e && e == While(buf, s + 1, inside) && !inside(' ')
    ensures at + 1 <= |out| && While(out, at + 1, inside) == at + (e - s)
  {
    forall i | at + 1 <= i < at + (e - s)
      ensures inside(out[i])
    {
      HoldsAt(out, at, buf, s, e, s + (i - at));
    }
    WhileIs(out, at + 1, at + (e - s), inside);
  }

  lemma LiteralAgain(out: string, at: nat, buf: string, s: nat, e: nat)
    requires Holds(out, at, buf, s, e) && s + 1 < e && e - 1 == While(buf, s + 1, InLiteral) && buf[e - 1] == '`'
    ensures at + 1 <= |out| && While(out, at + 1, InLiteral) == at + (e - 1 - s) && At(out, at + (e - 1 - s)) == '`'
  {
    forall i | at + 1 <= i < at + (e - 1 - s)
      ensures InLiteral(out[i])
    {
      HoldsAt(out, at, buf, s, e, s + (i - at));
    }
    HoldsAt(out, at, buf, s, e, e - 1);
    WhileIs(out, at + 1, at + (e - 1 - s), InLiteral);
  }

  lemma SameSpelling(out: string, at: nat, buf: string, s: nat, e: nat)
    requires Holds(out, at, buf, s, e)
    ensures at + (e - s) <= |out| && out[at..at + (e - s)] == buf[s..e]
  {
  }

  /** A token depends on its own characters only, as long as a space or nothing follows. */
  lemma TokenAgain(out: string, at: nat, buf: string, s: nat)
    requires s < |buf| && !IsBlank(buf[s]) && !Last(TokenAt(buf, s).kind)
             && Holds(out, at, buf, s, TokenAt(buf, s).last)
    ensures var t := TokenAt(buf, s); TokenAt(out, at) == Token(t.kind, at, at + (t.last - s))
  {
    var e := TokenAt(buf, s).last;
    Progress(buf, s);
    HoldsAt(out, at, buf, s, e, s);
    if buf[s] == '`' {
      hide Holds, While, KindOf;
      LiteralAgain(out, at, buf, s, e);
    } else if buf[s] == '$' {
      hide Holds, TokenAt;
      VariableAgain(out, at, buf, s);
    } else if IsAlpha(buf[s]) || buf[s] == '_' {
      IdentifierIs(buf, s);
      hide Holds, TokenAt, While, KindOf;
      IdentifierAgain(out, at, buf, s, e);
    } else {
      hide Holds, While, KindOf;
    }
  }

  lemma VariableAgain(out: string, at: nat, buf: string, s: nat)
    requires s < |buf| && buf[s] == '$' && !Last(TokenAt(buf, s).kind) && Holds(out, at, buf, s, TokenAt(buf, s).last)
    requires at < |out| && out[at] == '$'
    ensures var t := TokenAt(buf, s); TokenAt(out, at) == Token(t.kind, at, at + (t.last - s))
  {
    var e := TokenAt(buf, s).last;
    assert e == While(buf, s + 1, InVariable) && s + 1 < e;
    HoldsAt(out, at, buf, s, e, s + 1);
    WhileAgain(out, at, buf, s, e, InVariable);
    hide Holds, While, KindOf;
  }

  lemma IdentifierAgain(out: string, at: nat, buf: string, s: nat, e: nat)
    requires s < e <= |buf| && e == While(buf, s + 1, InIdentifier) && Holds(out, at, buf, s, e)
    requires at < |out| && out[at] == buf[s] && (IsAlpha(buf[s]) || buf[s] == '_')
    ensures TokenAt(out, at) == Token(KindOf(buf[s..e]), at, at + (e - s))
  {
    hide Holds, While, TokenAt, KindOf;
    assert !InIdentifier(' ');
    WhileAgain(out, at, buf, s, e, InIdentifier);
    SameSpelling(out, at, buf, s, e);
    TokenIs(out, at, at + (e - s));
  }

  lemma TokenIs(buf: string, s: nat, e: nat)
    requires s < e <= |buf| && (IsAlpha(buf[s]) || buf[s] == '_') && While(buf, s + 1, InIdentifier) == e
    ensures TokenAt(buf, s) == Token(KindOf(buf[s..e]), s, e)
  {
    IdentifierIs(buf, s);
  }

  lemma IdentifierIs(buf: string, s: nat)
    requires s < |buf| && (IsAlpha(buf[s]) || buf[s] == '_')
    ensures var e := While(buf, s + 1, InIdentifier);
            s < e <= |buf| && TokenAt(buf, s) == Token(KindOf(buf[s..e]), s, e)
  {
    hide KindOf;
  }

  function Spellings(buf: string, tokens: seq<Token>): seq<string> {
    seq(|tokens|, i requires 0 <= i < |tokens| => Spelling(buf, tokens[i]))
  }

  function Kinds(tokens: seq<Token>): seq<Kind> {
    seq(|tokens|, i requires 0 <= i < |tokens| => tokens[i].kind)
  }

  /** A space before every spelling but the first. */
  function Spaced(words: seq<string>): string {
    if words == [] then "" else " " + words[0] + Spaced(words[1..])
  }

  function Joined(words: seq<string>): string { if words == [] then "" else words[0] + Spaced(words[1..]) }

  /** Lexing `out` from `p` gives these kinds and spellings, and then the end of the buffer. */
  predicate LexesTo(out: string, p: nat, kinds: seq<Kind>, words: seq<string>)
    requires p <= |out|
  {
    var r := LexFrom(out, p);
    Kinds(r.tokens) == kinds && Spellings(out, r.tokens) == words && r.end == Token(Eof, |out|, |out|)
  }

  lemma LexesMore(out: string, p: nat, u: Token, kinds: seq<Kind>, words: seq<string>)
    requires p <= |out| && Next(out, p) == u && !Last(u.kind) && u.last <= |out| && LexesTo(out, u.last, kinds, words)
    ensures LexesTo(out, p, [u.kind] + kinds, [Spelling(out, u)] + words)
  {
    hide Next, Spelling;
    var more := LexFrom(out, u.last).tokens;
    var tokens := [u] + more;
    assert LexFrom(out, p) == Lexed(tokens, LexFrom(out, u.last).end);
    assert Kinds(tokens) == [u.kind] + Kinds(more);
    assert Spellings(out, tokens) == [Spelling(out, u)] + Spellings(out, more);
  }

  lemma {:induction false} SpacedAgain(buf: string, p: nat, pre: string, gap: string)
    requires p <= |buf| && LexFrom(buf, p).end.kind == Eof && (gap == " " || gap == "")
    ensures var tokens := LexFrom(buf, p).tokens; var words := Spellings(buf, tokens);
            LexesTo(pre + (if tokens == [] then "" else gap + Joined(words)), |pre|, Kinds(tokens), words)
    decreases |buf| - p
  {
    hide TokenAt, While, SkipBlanks, LexesTo, Spellings, Kinds, Joined, Spelling;
    var t := Next(buf, p);
    var s := SkipBlanks(buf, p);
    Progress(buf, s);
    if Last(t.kind) {
      NothingMore(pre);
      NoWords(buf);
    } else {
      var tokens := LexFrom(buf, p).tokens;
      var more := LexFrom(buf, t.last).tokens;
      var word := Spelling(buf, t);
      var words := Spellings(buf, more);
      var rest := if more == [] then "" else " " + Joined(words);
      assert tokens == [t] + more;
      JoinedMore(word, words);
      WordsMore(buf, t, more);
      var out := pre + gap + word + rest;
      assert out == pre + (gap + (word + rest));
      TokenInOut(buf, s, pre, gap, rest);
      SpacedAgain(buf, t.last, pre + gap + word, " ");
      LexesMore(out, |pre|, Token(t.kind, |pre + gap|, |pre + gap + word|), Kinds(more), words);
    }
  }

  lemma NothingMore(pre: string)
    ensures LexesTo(pre + "", |pre|, [], [])
  {
    assert pre + "" == pre;
  }

  lemma NoWords(buf: string)
    ensures Kinds([]) == [] && Spellings(buf, []) == []
  {
  }

  lemma WordsMore(buf: string, t: Token, more: seq<Token>)
    ensures Spellings(buf, [t] + more) == [Spelling(buf, t)] + Spellings(buf, more)
            && Kinds([t] + more) == [t.kind] + Kinds(more)
    ensures Spellings(buf, more) == [] <==> more == []
  {
  }

  lemma JoinedMore(word: string, words: seq<string>)
    ensures Joined([word] + words) == word + if words == [] then "" else " " + Joined(words)
  {
    assert ([word] + words)[1..] == words;
  }

  lemma TokenInOut(buf: string, s: nat, pre: string, gap: string, rest: string)
    requires s < |buf| && !IsBlank(buf[s]) && !Last(TokenAt(buf, s).kind) && Delimited(rest)
             && (gap == " " || gap == "")
    ensures var t := TokenAt(buf, s); var word := Spelling(buf, t); var out := pre + gap + word + rest;
            var u := Token(t.kind, |pre + gap|, |pre + gap + word|);
            Next(out, |pre|) == u && Spelling(out, u) == word
  {
    var t := TokenAt(buf, s);
    Progress(buf, s);
    hide TokenAt;
    var word := Spelling(buf, t);
    assert word[0] == buf[s];
    var out := pre + gap + word + rest;
    SkipGap(pre, gap, word, rest);
    assert out[|pre + gap|..|pre + gap + word|] == word;
    TokenAgain(out, |pre + gap|, buf, s);
  }

  lemma SkipGap(pre: string, gap: string, word: string, rest: string)
    requires (gap == " " || gap == "") && word != "" && !IsBlank(word[0])
    ensures SkipBlanks(pre + gap + word + rest, |pre|) == |pre + gap|
  {
    var out := pre + gap + word + rest;
    assert out[|pre + gap|] == word[0];
    if gap == " " {
      assert out[|pre|] == ' ';
    }
  }

  /** Every buffer that lexes to its end: the spellings joined by single spaces lex to the same
      tokens again. */
  lemma LexedAgain(buf: string)
    requires LexFrom(buf, 0).end.kind == Eof
    ensures var tokens := LexFrom(buf, 0).tokens; var words := Spellings(buf, tokens);
            LexesTo(Joined(words), 0, Kinds(tokens), words)
  {
    SpacedAgain(buf, 0, "", "");
    var words := Spellings(buf, LexFrom(buf, 0).tokens);
    assert "" + ("" + Joined(words)) == Joined(words);
  }

  // ----- Literals

  predicate IsValidLiteral(value: string) {
    if value == "" then false
    else if |value| == 1 then IsAlpha(value[0]) || value[0] in "_:,=<>()[]"
    else if value == "->" then true
    else (IsAlpha(value[0]) || value[0] == '_')
         && forall i :: 1 <= i < |value| ==> IsAlnum(value[i]) || value[i] == '_' || value[i] == '$' || value[i] == '.'
  }

  /** The parser call for a literal: a keyword with its text, or one of the punctuation marks; `None`
      where the string switch has no case. */
  datatype Call = KeywordCall(text: string) | MarkCall(name: string) | NoCall

  function ParserForLiteral(value: string): Call
    requires value != ""
  {
    if value[0] == '_' || IsAlpha(value[0]) then KeywordCall(value)
    else if value == "->" then MarkCall("Arrow")
    else if value == ":" then MarkCall("Colon")
    else if value == "," then MarkCall("Comma")
    else if value == "=" then MarkCall("Equal")
    else if value == "<" then MarkCall("Less")
    else if value == ">" then MarkCall("Greater")
    else if value == "(" then MarkCall("LParen")
    else if value == ")" then MarkCall("RParen")
    else if value == "[" then MarkCall("LSquare")
    else if value == "]" then MarkCall("RSquare")
    else NoCall
  }

  /** Every valid literal has a parser call, and no two have the same. */
  lemma ValidLiteralsParse(a: string, b: string)
    requires IsValidLiteral(a) && IsValidLiteral(b)
    ensures ParserForLiteral(a) != NoCall
    ensures ParserForLiteral(a) == ParserForLiteral(b) ==> a == b
  {
    if |a| == 1 {
      assert a == [a[0]];
    }
  }
}
