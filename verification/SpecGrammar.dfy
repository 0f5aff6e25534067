/** The small grammars inside an op spec. */
module SpecGrammar {
  // Region, successor, trait and value lists.  Types and attributes are single tokens.

  datatype Option<T> = None | Some(value: T)

  datatype Attr = IntAttr(v: int) | OtherAttr(id: nat)

  datatype Token =
    | Id(name: string) | Sym(name: string) | TypeTok(ty: nat) | AttrTok(attr: Attr)
    | LParen | RParen | LSquare | RSquare | Less | Greater | Comma | Colon | Arrow

  datatype Region = AnyRegion | Sized(blocks: nat) | IsolatedFromAbove | VariadicRegion(inner: Region)

  datatype Successor = AnySuccessor | VariadicSuccessor(succ: Successor)

  datatype Named<T> = Named(name: string, item: T)

  datatype Trait = Trait(name: string, params: seq<Attr>)

  datatype OpType = OpType(operands: seq<Named<nat>>, results: seq<Named<nat>>)

  /** What a reader returns: a value and the tokens after it. */
  datatype Read<T> = Fail | Got(value: T, rest: seq<Token>)

  const W: nat := 0x1_0000_0000

  // ----- Printing

  function PrintRegion(r: Region): (t: seq<Token>)
    ensures t != []
  {
    match r
    case AnyRegion => [Id("Any")]
    case Sized(n) => [Id("Sized"), Less, AttrTok(IntAttr(n)), Greater]
    case IsolatedFromAbove => [Id("IsolatedFromAbove")]
    case VariadicRegion(inner) => [Id("Variadic"), Less] + PrintRegion(inner) + [Greater]
  }

  function PrintSuccessor(s: Successor): (t: seq<Token>)
    ensures t != []
  {
    match s
    case AnySuccessor => [Id("Any")]
    case VariadicSuccessor(inner) => [Id("Variadic"), Less] + PrintSuccessor(inner) + [Greater]
  }

  function PrintItems<T>(show: T -> seq<Token>, xs: seq<T>): seq<Token>
    requires xs != []
    decreases |xs|
  {
    if |xs| == 1 then show(xs[0]) else show(xs[0]) + [Comma] + PrintItems(show, xs[1..])
  }

  function PrintNamed<T>(show: T -> seq<Token>, x: Named<T>): seq<Token> { [Id(x.name), Colon] + show(x.item) }

  /** An empty list prints as nothing. */
  function PrintOptional<T>(start: seq<Token>, show: T -> seq<Token>, xs: seq<T>, close: Token): seq<Token> {
    if xs == [] then [] else start + PrintItems(show, xs) + [close]
  }

  function PrintNamedRegion(x: Named<Region>): seq<Token> { PrintNamed(PrintRegion, x) }

  function PrintNamedSuccessor(x: Named<Successor>): seq<Token> { PrintNamed(PrintSuccessor, x) }

  function PrintRegionList(xs: seq<Named<Region>>): seq<Token> {
    PrintOptional([LParen], PrintNamedRegion, xs, RParen)
  }

  function PrintSuccessorList(xs: seq<Named<Successor>>): seq<Token> {
    PrintOptional([LSquare], PrintNamedSuccessor, xs, RSquare)
  }

  function PrintAttr(a: Attr): seq<Token> { [AttrTok(a)] }

  function PrintTrait(x: Trait): seq<Token> { [Sym(x.name)] + PrintOptional([Less], PrintAttr, x.params, Greater) }

  function PrintTraitList(xs: seq<Trait>): seq<Token> {
    PrintOptional([Id("traits"), LSquare], PrintTrait, xs, RSquare)
  }

  function PrintType(ty: nat): seq<Token> { [TypeTok(ty)] }

  function PrintNamedType(x: Named<nat>): seq<Token> { PrintNamed(PrintType, x) }

  function PrintValueList(xs: seq<Named<nat>>): seq<Token> {
    [LParen] + (if xs == [] then [] else PrintItems(PrintNamedType, xs)) + [RParen]
  }

  function PrintOpType(t: OpType): seq<Token> { PrintValueList(t.operands) + [Arrow] + PrintValueList(t.results) }

  // ----- Reading

  predicate At(toks: seq<Token>, t: Token) { |toks| > 0 && toks[0] == t }

  /** A size is an integer attribute, cut to 32 bits. */
  function ReadRegion(toks: seq<Token>): (r: Read<Region>)
    ensures r.Got? ==> |r.rest| < |toks|
    decreases |toks|
  {
    if |toks| == 0 || !toks[0].Id? then Fail
    else if toks[0].name == "Any" then Got(AnyRegion, toks[1..])
    else if toks[0].name == "Sized" then
      if |toks| >= 4 && toks[1] == Less && toks[2].AttrTok? && toks[2].attr.IntAttr? && toks[3] == Greater
      then Got(Sized(toks[2].attr.v % W), toks[4..])
      else Fail
    else if toks[0].name == "IsolatedFromAbove" then Got(IsolatedFromAbove, toks[1..])
    else if toks[0].name == "Variadic" && At(toks[1..], Less) then
      match ReadRegion(toks[2..])
      case Got(inner, rest) => if At(rest, Greater) then Got(VariadicRegion(inner), rest[1..]) else Fail
      case Fail => Fail
    else Fail
  }

  function ReadSuccessor(toks: seq<Token>): (r: Read<Successor>)
    ensures r.Got? ==> |r.rest| < |toks|
    decreases |toks|
  {
    if |toks| == 0 || !toks[0].Id? then Fail
    else if toks[0].name == "Any" then Got(AnySuccessor, toks[1..])
    else if toks[0].name == "Variadic" && At(toks[1..], Less) then
      match ReadSuccessor(toks[2..])
      case Got(inner, rest) => if At(rest, Greater) then Got(VariadicSuccessor(inner), rest[1..]) else Fail
      case Fail => Fail
    else Fail
  }

  /** One item or more, with commas between. */
  function ReadItems<T>(read: seq<Token> -> Read<T>, toks: seq<Token>): (r: Read<seq<T>>)
    ensures r.Got? ==> |r.rest| < |toks| && r.value != []
    decreases |toks|
  {
    match read(toks)
    case Fail => Fail
    case Got(x, rest) =>
      if |rest| >= |toks| then Fail
      else if !At(rest, Comma) then Got([x], rest)
      else match ReadItems(read, rest[1..])
        case Fail => Fail
        case Got(xs, more) => Got([x] + xs, more)
  }

  function ReadNamed<T>(read: seq<Token> -> Read<T>, toks: seq<Token>): Read<Named<T>> {
    if |toks| < 2 || !toks[0].Id? || toks[1] != Colon then Fail
    else match read(toks[2..])
      case Fail => Fail
      case Got(x, rest) => Got(Named(toks[0].name, x), rest)
  }

  function ReadClosed<T>(read: seq<Token> -> Read<T>, toks: seq<Token>, close: Token): Read<seq<T>> {
    match ReadItems(read, toks)
    case Fail => Fail
    case Got(xs, rest) => if At(rest, close) then Got(xs, rest[1..]) else Fail
  }

  predicate Unique<T>(xs: seq<Named<T>>) { forall i, j :: 0 <= i < j < |xs| ==> xs[i].name != xs[j].name }

  function Checked<T>(r: Read<seq<Named<T>>>): Read<seq<Named<T>>> {
    if r.Got? && !Unique(r.value) then Fail else r
  }

  function ReadNamedRegion(toks: seq<Token>): Read<Named<Region>> { ReadNamed(ReadRegion, toks) }

  function ReadNamedSuccessor(toks: seq<Token>): Read<Named<Successor>> { ReadNamed(ReadSuccessor, toks) }

  function ReadRegionList(toks: seq<Token>): Read<seq<Named<Region>>> {
    if At(toks, LParen) then Checked(ReadClosed(ReadNamedRegion, toks[1..], RParen)) else Got([], toks)
  }

  function ReadSuccessorList(toks: seq<Token>): Read<seq<Named<Successor>>> {
    if At(toks, LSquare) then Checked(ReadClosed(ReadNamedSuccessor, toks[1..], RSquare)) else Got([], toks)
  }

  function ReadAttr(toks: seq<Token>): Read<Attr> {
    if |toks| > 0 && toks[0].AttrTok? then Got(toks[0].attr, toks[1..]) else Fail
  }

  function ReadParams(toks: seq<Token>): Read<seq<Attr>> {
    if At(toks, Less) then ReadClosed(ReadAttr, toks[1..], Greater) else Got([], toks)
  }

  function ReadTrait(toks: seq<Token>): Read<Trait> {
    if |toks| == 0 || !toks[0].Sym? then Fail
    else match ReadParams(toks[1..])
      case Fail => Fail
      case Got(ps, rest) => Got(Trait(toks[0].name, ps), rest)
  }

  function ReadTraitList(toks: seq<Token>): Read<seq<Trait>> {
    if !At(toks, Id("traits")) then Got([], toks)
    else if !At(toks[1..], LSquare) then Fail
    else ReadClosed(ReadTrait, toks[2..], RSquare)
  }

  function ReadType(toks: seq<Token>): Read<nat> {
    if |toks| > 0 && toks[0].TypeTok? then Got(toks[0].ty, toks[1..]) else Fail
  }

  function ReadNamedType(toks: seq<Token>): Read<Named<nat>> { ReadNamed(ReadType, toks) }

  /** The parentheses are always there; a keyword after the first one begins the items. */
  function ReadValueList(toks: seq<Token>): Read<seq<Named<nat>>> {
    if !At(toks, LParen) then Fail
    else if |toks| > 1 && toks[1].Id? then ReadClosed(ReadNamedType, toks[1..], RParen)
    else if At(toks[1..], RParen) then Got([], toks[2..])
    else Fail
  }

  /** Names that are not unique give no type, yet parsing is said to have succeeded. */
  function ReadOpType(toks: seq<Token>): Read<Option<OpType>> {
    match ReadValueList(toks)
    case Fail => Fail
    case Got(operands, rest) =>
      if !At(rest, Arrow) then Fail
      else match ReadValueList(rest[1..])
        case Fail => Fail
        case Got(results, more) =>
          Got(if Unique(operands) && Unique(results) then Some(OpType(operands, results)) else None, more)
  }

  // ----- Printing, then reading

  /** What may follow an item: anything but the start of a parameter list. */
  predicate Follows(rest: seq<Token>) { !At(rest, Less) }

  ghost predicate RoundTrips<T(!new)>(show: T -> seq<Token>, read: seq<Token> -> Read<T>, fits: T -> bool) {
    forall x, rest :: fits(x) && Follows(rest) ==> show(x) != [] && read(show(x) + rest) == Got(x, rest)
  }

  function Fits32(r: Region): bool {
    match r
    case Sized(n) => n < W
    case VariadicRegion(inner) => Fits32(inner)
    case _ => true
  }

  lemma {:induction false} RegionRoundTrip(r: Region, rest: seq<Token>)
    requires Fits32(r)
    ensures ReadRegion(PrintRegion(r) + rest) == Got(r, rest)
    decreases r
  {
    if r.VariadicRegion? {
      RegionRoundTrip(r.inner, [Greater] + rest);
      VariadicRead(r.inner, PrintRegion(r.inner) + ([Greater] + rest), rest);
      VariadicPrinted(r.inner, rest);
    } else if r.Sized? {
      SizedRead(r.blocks, rest);
    } else {
      assert (PrintRegion(r) + rest)[1..] == rest;
    }
  }

  lemma VariadicPrinted(inner: Region, rest: seq<Token>)
    ensures PrintRegion(VariadicRegion(inner)) + rest == [Id("Variadic"), Less]
            + (PrintRegion(inner) + ([Greater] + rest))
  {
  }

  lemma SizedRead(n: nat, rest: seq<Token>)
    requires n < W
    ensures ReadRegion(PrintRegion(Sized(n)) + rest) == Got(Sized(n), rest)
  {
    assert (PrintRegion(Sized(n)) + rest)[4..] == rest;
  }

  lemma VariadicRead(inner: Region, more: seq<Token>, rest: seq<Token>)
    requires ReadRegion(more) == Got(inner, [Greater] + rest)
    ensures ReadRegion([Id("Variadic"), Less] + more) == Got(VariadicRegion(inner), rest)
  {
    var toks := [Id("Variadic"), Less] + more;
    assert toks[2..] == more && toks[1..] == [Less] + more;
    assert ([Greater] + rest)[1..] == rest;
  }

  lemma {:induction false} SuccessorRoundTrip(s: Successor, rest: seq<Token>)
    ensures ReadSuccessor(PrintSuccessor(s) + rest) == Got(s, rest)
    decreases s
  {
    var toks := PrintSuccessor(s) + rest;
    match s {
      case AnySuccessor => assert toks[1..] == rest;
      case VariadicSuccessor(inner) =>
        assert toks[2..] == PrintSuccessor(inner) + ([Greater] + rest);
        SuccessorRoundTrip(inner, [Greater] + rest);
        assert ([Greater] + rest)[1..] == rest;
    }
  }

  lemma {:induction false} ItemsRoundTrip<T(!new)>(show: T -> seq<Token>, read: seq<Token> -> Read<T>, fits: T -> bool,
      xs: seq<T>, rest: seq<Token>)
    requires RoundTrips(show, read, fits) && xs != [] && (forall x :: x in xs ==> fits(x)) && Follows(rest)
             && !At(rest, Comma)
    ensures ReadItems(read, PrintItems(show, xs) + rest) == Got(xs, rest)
    decreases |xs|
  {
    var toks := PrintItems(show, xs) + rest;
    if |xs| == 1 {
      assert fits(xs[0]) && xs == [xs[0]];
      assert read(show(xs[0]) + rest) == Got(xs[0], rest);
      assert toks == show(xs[0]) + rest;
    } else {
      var more := [Comma] + (PrintItems(show, xs[1..]) + rest);
      assert fits(xs[0]);
      assert read(show(xs[0]) + more) == Got(xs[0], more);
      assert toks == show(xs[0]) + more;
      assert more[1..] == PrintItems(show, xs[1..]) + rest;
      ItemsRoundTrip(show, read, fits, xs[1..], rest);
      assert xs == [xs[0]] + xs[1..];
    }
  }

  lemma ClosedRoundTrip<T(!new)>(show: T -> seq<Token>, read: seq<Token> -> Read<T>, fits: T -> bool, xs: seq<T>,
      close: Token, rest: seq<Token>)
    requires RoundTrips(show, read, fits) && xs != [] && (forall x :: x in xs ==> fits(x)) && close != Less
             && close != Comma
    ensures ReadClosed(read, PrintItems(show, xs) + [close] + rest, close) == Got(xs, rest)
  {
    ItemsRoundTrip(show, read, fits, xs, [close] + rest);
    assert PrintItems(show, xs) + [close] + rest == PrintItems(show, xs) + ([close] + rest);
    assert ([close] + rest)[1..] == rest;
  }

  lemma NamedRoundTrip<T>(show: T -> seq<Token>, read: seq<Token> -> Read<T>, x: Named<T>, rest: seq<Token>)
    requires read(show(x.item) + rest) == Got(x.item, rest)
    ensures ReadNamed(read, PrintNamed(show, x) + rest) == Got(x, rest)
  {
    var toks := PrintNamed(show, x) + rest;
    assert toks[2..] == show(x.item) + rest;
  }

  predicate RegionFits(x: Named<Region>) { Fits32(x.item) }

  predicate Always<T>(x: T) { true }

  lemma RegionsRoundTrip()
    ensures RoundTrips(PrintNamedRegion, ReadNamedRegion, RegionFits)
  {
    forall x: Named<Region>, rest: seq<Token> | RegionFits(x)
      ensures ReadNamedRegion(PrintNamedRegion(x) + rest) == Got(x, rest)
    {
      RegionRoundTrip(x.item, rest);
      NamedRoundTrip(PrintRegion, ReadRegion, x, rest);
    }
  }

  lemma SuccessorsRoundTrip()
    ensures RoundTrips(PrintNamedSuccessor, ReadNamedSuccessor, Always<Named<Successor>>)
  {
    forall x: Named<Successor>, rest: seq<Token>
      ensures ReadNamedSuccessor(PrintNamedSuccessor(x) + rest) == Got(x, rest)
    {
      SuccessorRoundTrip(x.item, rest);
      NamedRoundTrip(PrintSuccessor, ReadSuccessor, x, rest);
    }
  }

  lemma TypesRoundTrip()
    ensures RoundTrips(PrintNamedType, ReadNamedType, Always<Named<nat>>)
  {
    forall x: Named<nat>, rest: seq<Token>
      ensures ReadNamedType(PrintNamedType(x) + rest) == Got(x, rest)
    {
      assert (PrintType(x.item) + rest)[1..] == rest;
      NamedRoundTrip(PrintType, ReadType, x, rest);
    }
  }

  lemma AttrsRoundTrip()
    ensures RoundTrips(PrintAttr, ReadAttr, Always<Attr>)
  {
    forall x: Attr, rest: seq<Token>
      ensures ReadAttr(PrintAttr(x) + rest) == Got(x, rest)
    {
      assert (PrintAttr(x) + rest)[1..] == rest;
    }
  }

  /** Traits, with or without parameters: the list of parameters is told by what follows the name. */
  lemma TraitsRoundTrip()
    ensures RoundTrips(PrintTrait, ReadTrait, Always<Trait>)
  {
    forall x: Trait, rest: seq<Token> | Follows(rest)
      ensures ReadTrait(PrintTrait(x) + rest) == Got(x, rest)
    {
      var toks := PrintTrait(x) + rest;
      if x.params == [] {
        assert toks[1..] == rest;
      } else {
        AttrsRoundTrip();
        var inner := PrintItems(PrintAttr, x.params) + [Greater] + rest;
        assert toks[1..] == [Less] + inner;
        assert ([Less] + inner)[1..] == inner;
        ClosedRoundTrip(PrintAttr, ReadAttr, Always<Attr>, x.params, Greater, rest);
      }
    }
  }

  /** Region lists of any length, with constraints nested to any depth, unique names and 32-bit
      sizes, come back, and what follows them is left alone. */
  lemma RegionListRoundTrip(xs: seq<Named<Region>>, rest: seq<Token>)
    requires Unique(xs) && (forall x :: x in xs ==> Fits32(x.item)) && (xs == [] ==> !At(rest, LParen))
    ensures ReadRegionList(PrintRegionList(xs) + rest) == Got(xs, rest)
  {
    hide RoundTrips, PrintItems, ReadItems, ReadClosed;
    if xs == [] {
      assert PrintRegionList(xs) + rest == rest;
    } else {
      RegionsRoundTrip();
      assert forall x :: x in xs ==> RegionFits(x);
      ClosedRoundTrip(PrintNamedRegion, ReadNamedRegion, RegionFits, xs, RParen, rest);
      assert (PrintRegionList(xs) + rest)[1..] == PrintItems(PrintNamedRegion, xs) + [RParen] + rest;
    }
  }

  lemma SuccessorListRoundTrip(xs: seq<Named<Successor>>, rest: seq<Token>)
    requires Unique(xs) && (xs == [] ==> !At(rest, LSquare))
    ensures ReadSuccessorList(PrintSuccessorList(xs) + rest) == Got(xs, rest)
  {
    hide RoundTrips, PrintItems, ReadItems, ReadClosed;
    if xs == [] {
      assert PrintSuccessorList(xs) + rest == rest;
    } else {
      SuccessorsRoundTrip();
      ClosedRoundTrip(PrintNamedSuccessor, ReadNamedSuccessor, Always<Named<Successor>>, xs, RSquare, rest);
      assert (PrintSuccessorList(xs) + rest)[1..] == PrintItems(PrintNamedSuccessor, xs) + [RSquare] + rest;
    }
  }

  lemma TraitListRoundTrip(xs: seq<Trait>, rest: seq<Token>)
    requires xs == [] ==> !At(rest, Id("traits"))
    ensures ReadTraitList(PrintTraitList(xs) + rest) == Got(xs, rest)
  {
    hide RoundTrips, PrintItems, ReadItems, ReadClosed;
    if xs == [] {
      assert PrintTraitList(xs) + rest == rest;
    } else {
      TraitsRoundTrip();
      ClosedRoundTrip(PrintTrait, ReadTrait, Always<Trait>, xs, RSquare, rest);
      assert (PrintTraitList(xs) + rest)[2..] == PrintItems(PrintTrait, xs) + [RSquare] + rest;
    }
  }

  lemma ValueListRoundTrip(xs: seq<Named<nat>>, rest: seq<Token>)
    ensures ReadValueList(PrintValueList(xs) + rest) == Got(xs, rest)
  {
    hide RoundTrips, ReadItems, ReadClosed;
    var toks := PrintValueList(xs) + rest;
    if xs == [] {
      assert toks[2..] == rest;
    } else {
      TypesRoundTrip();
      ClosedRoundTrip(PrintNamedType, ReadNamedType, Always<Named<nat>>, xs, RParen, rest);
      assert toks[1..] == PrintItems(PrintNamedType, xs) + [RParen] + rest;
    }
  }

  /** Operand and result lists come back when their names are unique; otherwise parsing still
      succeeds, with no type. */
  lemma OpTypeRoundTrip(t: OpType, rest: seq<Token>)
    ensures ReadOpType(PrintOpType(t) + rest)
            == Got(if Unique(t.operands) && Unique(t.results) then Some(t) else None, rest)
  {
    hide PrintValueList, ReadValueList;
    var results := PrintValueList(t.results) + rest;
    ValueListRoundTrip(t.operands, [Arrow] + results);
    ValueListRoundTrip(t.results, rest);
    assert PrintOpType(t) + rest == PrintValueList(t.operands) + ([Arrow] + results);
    assert ([Arrow] + results)[1..] == results;
  }

  /** `(a: t, a: t) -> ()`: success, and no type. */
  lemma RepeatedNames(ty: nat, rest: seq<Token>)
    ensures ReadOpType([LParen, Id("a"), Colon, TypeTok(ty), Comma, Id("a"), Colon, TypeTok(ty), RParen, Arrow, LParen,
            RParen] + rest)
            == Got(None, rest)
  {
    var a := Named("a", ty);
    var t := OpType([a, a], []);
    assert !Unique(t.operands) by {
      assert t.operands[0].name == t.operands[1].name;
    }
    assert t.operands[1..] == [a];
    assert PrintNamedType(a) == [Id("a"), Colon, TypeTok(ty)];
    assert PrintItems(PrintNamedType, [a]) == PrintNamedType(a);
    assert PrintItems(PrintNamedType, t.operands) == PrintNamedType(a) + [Comma] + PrintNamedType(a);
    assert PrintValueList(t.results) == [LParen, RParen];
    assert PrintOpType(t)
           == [LParen, Id("a"), Colon, TypeTok(ty), Comma, Id("a"), Colon, TypeTok(ty), RParen, Arrow, LParen, RParen];
    OpTypeRoundTrip(t, rest);
  }

  // ----- Reading, then printing

  /** The same tokens with integers cut to 32 bits, which is all that reading forgets. */
  function Cut(t: Token): Token {
    if t.AttrTok? && t.attr.IntAttr? then AttrTok(IntAttr(t.attr.v % W)) else t
  }

  function Same(t: Token): Token { t }

  function All(f: Token -> Token, ts: seq<Token>): (r: seq<Token>)
    ensures |r| == |ts| && forall i :: 0 <= i < |ts| ==> r[i] == f(ts[i])
  {
    seq(|ts|, i requires 0 <= i < |ts| => f(ts[i]))
  }

  /** `toks` up to `rest`, each token passed through `f`, are `out`. */
  predicate Spells(f: Token -> Token, toks: seq<Token>, out: seq<Token>, rest: seq<Token>) {
    |out| + |rest| == |toks| && All(f, toks[..|out|]) == out && toks[|out|..] == rest
  }

  lemma SpellsTwo(f: Token -> Token, toks: seq<Token>, a: seq<Token>, mid: seq<Token>, b: seq<Token>, rest: seq<Token>)
    requires Spells(f, toks, a, mid) && Spells(f, mid, b, rest)
    ensures Spells(f, toks, a + b, rest)
  {
    var n := |a| + |b|;
    assert toks == toks[..|a|] + mid && mid == mid[..|b|] + rest;
    assert All(f, toks[..n]) == a + b;
  }

  lemma SpellsOne(f: Token -> Token, toks: seq<Token>)
    requires |toks| > 0
    ensures Spells(f, toks, [f(toks[0])], toks[1..])
  {
  }

  lemma {:induction false} RegionOnlySpelling(toks: seq<Token>)
    requires ReadRegion(toks).Got?
    ensures var r := ReadRegion(toks); Fits32(r.value) && Spells(Cut, toks, PrintRegion(r.value), r.rest)
    decreases |toks|
  {
    if toks[0].name == "Variadic" {
      var r := ReadRegion(toks[2..]);
      RegionOnlySpelling(toks[2..]);
      SpellsOne(Cut, toks);
      SpellsOne(Cut, toks[1..]);
      assert toks[1..][1..] == toks[2..];
      SpellsTwo(Cut, toks, [toks[0]], toks[1..], [Less], toks[2..]);
      SpellsTwo(Cut, toks, [toks[0]] + [Less], toks[2..], PrintRegion(r.value), r.rest);
      SpellsOne(Cut, r.rest);
      SpellsTwo(Cut, toks, [toks[0]] + [Less] + PrintRegion(r.value), r.rest, [Greater], r.rest[1..]);
      assert [toks[0]] + [Less] == [Id("Variadic"), Less];
    } else if toks[0].name == "Sized" {
      assert toks[..4] == [toks[0], toks[1], toks[2], toks[3]];
    } else {
      SpellsOne(Cut, toks);
    }
  }

  lemma {:induction false} SuccessorOnlySpelling(toks: seq<Token>)
    requires ReadSuccessor(toks).Got?
    ensures var r := ReadSuccessor(toks); Spells(Same, toks, PrintSuccessor(r.value), r.rest)
    decreases |toks|
  {
    if toks[0].name == "Variadic" {
      var r := ReadSuccessor(toks[2..]);
      SuccessorOnlySpelling(toks[2..]);
      SpellsOne(Same, toks);
      SpellsOne(Same, toks[1..]);
      assert toks[1..][1..] == toks[2..];
      SpellsTwo(Same, toks, [toks[0]], toks[1..], [Less], toks[2..]);
      SpellsTwo(Same, toks, [toks[0]] + [Less], toks[2..], PrintSuccessor(r.value), r.rest);
      SpellsOne(Same, r.rest);
      SpellsTwo(Same, toks, [toks[0]] + [Less] + PrintSuccessor(r.value), r.rest, [Greater], r.rest[1..]);
      assert [toks[0]] + [Less] == [Id("Variadic"), Less];
    } else {
      SpellsOne(Same, toks);
    }
  }

  ghost predicate OnlySpelling<T(!new)>(f: Token -> Token, show: T -> seq<Token>, read: seq<Token> -> Read<T>) {
    forall toks :: read(toks).Got? ==> Spells(f, toks, show(read(toks).value), read(toks).rest)
  }

  lemma {:induction false} ItemsSpelling<T(!new)>(f: Token -> Token, show: T -> seq<Token>, read: seq<Token> -> Read<T>,
      toks: seq<Token>)
    requires OnlySpelling(f, show, read) && f(Comma) == Comma && ReadItems(read, toks).Got?
    ensures var r := ReadItems(read, toks); Spells(f, toks, PrintItems(show, r.value), r.rest)
    decreases |toks|
  {
    var r := read(toks);
    if At(r.rest, Comma) {
      var more := ReadItems(read, r.rest[1..]);
      ItemsSpelling(f, show, read, r.rest[1..]);
      SpellsOne(f, r.rest);
      SpellsTwo(f, toks, show(r.value), r.rest, [Comma], r.rest[1..]);
      SpellsTwo(f, toks, show(r.value) + [Comma], r.rest[1..], PrintItems(show, more.value), more.rest);
      assert ([r.value] + more.value)[1..] == more.value;
    }
  }

  /** An opened list that is read prints as the tokens it was read from. */
  lemma ClosedSpelling<T(!new)>(f: Token -> Token, start: seq<Token>, show: T -> seq<Token>,
      read: seq<Token> -> Read<T>, close: Token, toks: seq<Token>)
    requires OnlySpelling(f, show, read) && f(Comma) == Comma && f(close) == close && All(f, start) == start
             && start <= toks
    requires ReadClosed(read, toks[|start|..], close).Got?
    ensures var r := ReadClosed(read, toks[|start|..], close);
            Spells(f, toks, PrintOptional(start, show, r.value, close), r.rest)
  {
    var inner := toks[|start|..];
    var items := ReadItems(read, inner);
    ItemsSpelling(f, show, read, inner);
    assert Spells(f, toks, start, inner);
    SpellsTwo(f, toks, start, inner, PrintItems(show, items.value), items.rest);
    SpellsOne(f, items.rest);
    SpellsTwo(f, toks, start + PrintItems(show, items.value), items.rest, [close], items.rest[1..]);
  }

  lemma NamedSpelling<T>(f: Token -> Token, show: T -> seq<Token>, read: seq<Token> -> Read<T>, toks: seq<Token>)
    requires ReadNamed(read, toks).Got? && f(Colon) == Colon && f(toks[0]) == toks[0]
    requires var r := read(toks[2..]); Spells(f, toks[2..], show(r.value), r.rest)
    ensures var r := ReadNamed(read, toks); Spells(f, toks, PrintNamed(show, r.value), r.rest)
  {
    var r := read(toks[2..]);
    assert toks[..2] == [toks[0], Colon];
    assert Spells(f, toks, [toks[0], Colon], toks[2..]);
    SpellsTwo(f, toks, [toks[0], Colon], toks[2..], show(r.value), r.rest);
  }

  lemma RegionsSpelling()
    ensures OnlySpelling(Cut, PrintNamedRegion, ReadNamedRegion)
  {
    forall toks: seq<Token> | ReadNamedRegion(toks).Got?
      ensures Spells(Cut, toks, PrintNamedRegion(ReadNamedRegion(toks).value), ReadNamedRegion(toks).rest)
    {
      RegionOnlySpelling(toks[2..]);
      NamedSpelling(Cut, PrintRegion, ReadRegion, toks);
    }
  }

  lemma SuccessorsSpelling()
    ensures OnlySpelling(Same, PrintNamedSuccessor, ReadNamedSuccessor)
  {
    forall toks: seq<Token> | ReadNamedSuccessor(toks).Got?
      ensures Spells(Same, toks, PrintNamedSuccessor(ReadNamedSuccessor(toks).value), ReadNamedSuccessor(toks).rest)
    {
      SuccessorOnlySpelling(toks[2..]);
      NamedSpelling(Same, PrintSuccessor, ReadSuccessor, toks);
    }
  }

  lemma AttrsSpelling()
    ensures OnlySpelling(Same, PrintAttr, ReadAttr)
  {
  }

  lemma TraitsSpelling()
    ensures OnlySpelling(Same, PrintTrait, ReadTrait)
  {
    forall toks: seq<Token> | ReadTrait(toks).Got?
      ensures Spells(Same, toks, PrintTrait(ReadTrait(toks).value), ReadTrait(toks).rest)
    {
      SpellsOne(Same, toks);
      var rest := toks[1..];
      if At(rest, Less) {
        AttrsSpelling();
        assert rest[1..] == rest[|[Less]|..];
        ClosedSpelling(Same, [Less], PrintAttr, ReadAttr, Greater, rest);
        var r := ReadParams(rest);
        SpellsTwo(Same, toks, [toks[0]], rest, PrintOptional([Less], PrintAttr, r.value, Greater), r.rest);
      } else {
        SpellsTwo(Same, toks, [toks[0]], rest, [], rest);
      }
    }
  }

  /** Only what prints as the input, up to the size of integers, is ever read. */
  lemma RegionListSpelling(toks: seq<Token>)
    requires ReadRegionList(toks).Got?
    ensures var r := ReadRegionList(toks); Unique(r.value) && Spells(Cut, toks, PrintRegionList(r.value), r.rest)
  {
    if At(toks, LParen) {
      RegionsSpelling();
      ClosedSpelling(Cut, [LParen], PrintNamedRegion, ReadNamedRegion, RParen, toks);
    }
  }

  lemma SuccessorListSpelling(toks: seq<Token>)
    requires ReadSuccessorList(toks).Got?
    ensures var r := ReadSuccessorList(toks); Unique(r.value) && toks == PrintSuccessorList(r.value) + r.rest
  {
    if At(toks, LSquare) {
      SuccessorsSpelling();
      ClosedSpelling(Same, [LSquare], PrintNamedSuccessor, ReadNamedSuccessor, RSquare, toks);
      SameSpelling(toks, PrintSuccessorList(ReadSuccessorList(toks).value), ReadSuccessorList(toks).rest);
    }
  }

  lemma SameSpelling(toks: seq<Token>, out: seq<Token>, rest: seq<Token>)
    requires Spells(Same, toks, out, rest)
    ensures toks == out + rest
  {
    assert toks == toks[..|out|] + toks[|out|..];
    assert forall i :: 0 <= i < |out| ==> out[i] == Same(toks[..|out|][i]);
  }

  lemma TraitListSpelling(toks: seq<Token>)
    requires ReadTraitList(toks).Got?
    ensures var r := ReadTraitList(toks); toks == PrintTraitList(r.value) + r.rest
  {
    if At(toks, Id("traits")) {
      TraitsSpelling();
      assert toks[..2] == [Id("traits"), LSquare];
      ClosedSpelling(Same, [Id("traits"), LSquare], PrintTrait, ReadTrait, RSquare, toks);
      SameSpelling(toks, PrintTraitList(ReadTraitList(toks).value), ReadTraitList(toks).rest);
    }
  }

  lemma TypesSpelling()
    ensures OnlySpelling(Same, PrintNamedType, ReadNamedType)
  {
    forall toks: seq<Token> | ReadNamedType(toks).Got?
      ensures Spells(Same, toks, PrintNamedType(ReadNamedType(toks).value), ReadNamedType(toks).rest)
    {
      SpellsOne(Same, toks[2..]);
      NamedSpelling(Same, PrintType, ReadType, toks);
    }
  }

  lemma ValueListSpelling(toks: seq<Token>)
    requires ReadValueList(toks).Got?
    ensures var r := ReadValueList(toks); toks == PrintValueList(r.value) + r.rest
  {
    var r := ReadValueList(toks);
    if toks[1].Id? {
      TypesSpelling();
      ClosedSpelling(Same, [LParen], PrintNamedType, ReadNamedType, RParen, toks);
      SameSpelling(toks, PrintValueList(r.value), r.rest);
    } else {
      assert toks == [LParen] + [RParen] + toks[2..];
    }
  }
}
