/** The spec parsers as they run. */
module SpecParser {
  // Tokens are consumed, and lists grow in do-while loops.

  import opened SpecGrammar

  /** What a list reader makes of the items pushed so far and of those still to come. */
  function Prepend<T>(xs: seq<T>, r: Read<seq<T>>): Read<seq<T>> { if r.Got? then Got(xs + r.value, r.rest) else Fail }

  /** A parse method returns the value the reader gives for the tokens at hand and consumes what the
      reader consumes, or fails where the reader fails. */
  ghost predicate Agrees<T>(r: Read<T>, result: Option<T>, rest: seq<Token>) {
    if r.Got? then result == Some(r.value) && rest == r.rest else result == None
  }

  /** One turn of a do-while loop. */
  lemma ItemsStep<T>(read: seq<Token> -> Read<T>, xs: seq<T>, now: seq<Token>)
    requires read(now).Got? ==> |read(now).rest| < |now|
    ensures var r := read(now);
            Prepend(xs, ReadItems(read, now)) ==
            if r.Fail? then Fail
            else if At(r.rest, Comma) then Prepend(xs + [r.value], ReadItems(read, r.rest[1..]))
            else Got(xs + [r.value], r.rest)
  {
    var r := read(now);
    if r.Got? && At(r.rest, Comma) {
      var more := ReadItems(read, r.rest[1..]);
      if more.Got? {
        assert xs + ([r.value] + more.value) == xs + [r.value] + more.value;
      }
    }
  }

  /** The items read once the list has been opened; `all` is what the list reader gives. */
  ghost predicate Reading<T>(all: Read<seq<T>>, read: seq<Token> -> Read<T>, xs: seq<T>, rest: seq<Token>, more: bool) {
    all == if more then Prepend(xs, ReadItems(read, rest)) else Got(xs, rest)
  }

  lemma Begin<T>(read: seq<Token> -> Read<T>, rest: seq<Token>)
    ensures Reading(ReadItems(read, rest), read, [], rest, true)
  {
    var all := ReadItems(read, rest);
    assert all.Got? ==> [] + all.value == all.value;
  }

  class Parser {
    const toks: seq<Token>
    var pos: nat

    constructor (toks: seq<Token>)
      ensures Valid() && Rest() == toks
    {
      this.toks, pos := toks, 0;
    }

    ghost predicate Valid()
      reads this
    {
      pos <= |toks|
    }

    ghost function Rest(): seq<Token>
      reads this
      requires Valid()
    {
      toks[pos..]
    }

    method ParseOptional(t: Token) returns (found: bool)
      requires Valid()
      modifies this
      ensures Valid() && found == At(old(Rest()), t) && Rest() == if found then old(Rest())[1..] else old(Rest())
    {
      found := pos < |toks| && toks[pos] == t;
      if found {
        pos := pos + 1;
      }
    }

    method ParseKeyword() returns (name: Option<string>)
      requires Valid()
      modifies this
      ensures Valid() && name.Some? == (old(Rest()) != [] && old(Rest())[0].Id?)
      ensures if name.Some? then old(Rest()) == [Id(name.value)] + Rest() else Rest() == old(Rest())
    {
      name := None;
      if pos < |toks| && toks[pos].Id? {
        name, pos := Some(toks[pos].name), pos + 1;
      }
    }

    method ParseSingleAttribute() returns (attr: Option<Attr>)
      requires Valid()
      modifies this
      ensures Valid() && Agrees(ReadAttr(old(Rest())), attr, Rest())
    {
      attr := None;
      if pos < |toks| && toks[pos].AttrTok? {
        attr, pos := Some(toks[pos].attr), pos + 1;
      }
    }

    method ParseOpRegion() returns (region: Option<Region>)
      requires Valid()
      modifies this
      ensures Valid() && Agrees(ReadRegion(old(Rest())), region, Rest())
      decreases |toks| - pos
    {
      ghost var start := Rest();
      var name := ParseKeyword();
      if name.None? {
        return None;
      }
      if name.value == "Any" {
        return Some(AnyRegion);
      } else if name.value == "Sized" {
        var open := ParseOptional(Less);
        if !open {
          return None;
        }
        var size := ParseSingleAttribute();
        if size.None? || !size.value.IntAttr? {
          return None;
        }
        var close := ParseOptional(Greater);
        if !close {
          return None;
        }
        assert start[4..] == Rest();
        return Some(Sized(size.value.v % W));
      } else if name.value == "IsolatedFromAbove" {
        return Some(IsolatedFromAbove);
      } else if name.value == "Variadic" {
        var open := ParseOptional(Less);
        if !open {
          return None;
        }
        assert start[2..] == Rest();
        var inner := ParseOpRegion();
        if inner.None? {
          return None;
        }
        var close := ParseOptional(Greater);
        return if close then Some(VariadicRegion(inner.value)) else None;
      }
      region := None;
    }

    method ParseNamedRegion() returns (r: Option<Named<Region>>)
      requires Valid()
      modifies this
      ensures Valid() && Agrees(ReadNamedRegion(old(Rest())), r, Rest())
    {
      ghost var start := Rest();
      var name := ParseKeyword();
      if name.None? {
        return None;
      }
      var colon := ParseOptional(Colon);
      if !colon {
        return None;
      }
      assert start[2..] == Rest();
      var region := ParseOpRegion();
      r := if region.Some? then Some(Named(name.value, region.value)) else None;
    }

    method NamesUnique<T>(xs: seq<Named<T>>) returns (unique: bool)
      ensures unique == Unique(xs)
    {
      var nameSet: set<string> := {};
      for idx := 0 to |xs|
        invariant nameSet == set i | 0 <= i < idx :: xs[i].name
        invariant Unique(xs[..idx])
      {
        if xs[idx].name in nameSet {
          return false;
        }
        nameSet := nameSet + {xs[idx].name};
      }
      assert xs[..|xs|] == xs;
      unique := true;
    }

    method ParseOptionalRegionList() returns (r: Option<seq<Named<Region>>>)
      requires Valid()
      modifies this
      ensures Valid() && Agrees(ReadRegionList(old(Rest())), r, Rest())
    {
      var regions: seq<Named<Region>> := [];
      var open := ParseOptional(LParen);
      if open {
        ghost var all := ReadItems(ReadNamedRegion, Rest());
        var more := true;
        Begin(ReadNamedRegion, Rest());
        while more
          invariant Valid() && Reading(all, ReadNamedRegion, regions, Rest(), more)
          decreases |toks| - pos
        {
          hide Reading, ReadNamedRegion, ReadItems;
          ItemsStep(ReadNamedRegion, regions, Rest());
          var region := ParseNamedRegion();
          if region.None? {
            return None;
          }
          regions := regions + [region.value];
          more := ParseOptional(Comma);
        }
        var close := ParseOptional(RParen);
        if !close {
          return None;
        }
      }
      var unique := NamesUnique(regions);
      r := if unique then Some(regions) else None;
    }

    method ParseOpSuccessor() returns (succ: Option<Successor>)
      requires Valid()
      modifies this
      ensures Valid() && Agrees(ReadSuccessor(old(Rest())), succ, Rest())
      decreases |toks| - pos
    {
      ghost var start := Rest();
      var name := ParseKeyword();
      if name.None? {
        return None;
      }
      if name.value == "Any" {
        return Some(AnySuccessor);
      } else if name.value == "Variadic" {
        var open := ParseOptional(Less);
        if !open {
          return None;
        }
        assert start[2..] == Rest();
        var inner := ParseOpSuccessor();
        if inner.None? {
          return None;
        }
        var close := ParseOptional(Greater);
        return if close then Some(VariadicSuccessor(inner.value)) else None;
      }
      succ := None;
    }

    method ParseNamedSuccessor() returns (r: Option<Named<Successor>>)
      requires Valid()
      modifies this
      ensures Valid() && Agrees(ReadNamedSuccessor(old(Rest())), r, Rest())
    {
      ghost var start := Rest();
      var name := ParseKeyword();
      if name.None? {
        return None;
      }
      var colon := ParseOptional(Colon);
      if !colon {
        return None;
      }
      assert start[2..] == Rest();
      var succ := ParseOpSuccessor();
      r := if succ.Some? then Some(Named(name.value, succ.value)) else None;
    }

    method ParseOptionalSuccessorList() returns (r: Option<seq<Named<Successor>>>)
      requires Valid()
      modifies this
      ensures Valid() && Agrees(ReadSuccessorList(old(Rest())), r, Rest())
    {
      var succs: seq<Named<Successor>> := [];
      var open := ParseOptional(LSquare);
      if open {
        ghost var all := ReadItems(ReadNamedSuccessor, Rest());
        var more := true;
        Begin(ReadNamedSuccessor, Rest());
        while more
          invariant Valid() && Reading(all, ReadNamedSuccessor, succs, Rest(), more)
          decreases |toks| - pos
        {
          hide Reading, ReadNamedSuccessor, ReadItems;
          ItemsStep(ReadNamedSuccessor, succs, Rest());
          var succ := ParseNamedSuccessor();
          if succ.None? {
            return None;
          }
          succs := succs + [succ.value];
          more := ParseOptional(Comma);
        }
        var close := ParseOptional(RSquare);
        if !close {
          return None;
        }
      }
      var unique := NamesUnique(succs);
      r := if unique then Some(succs) else None;
    }

    method ParseOptionalParameterList() returns (r: Option<seq<Attr>>)
      requires Valid()
      modifies this
      ensures Valid() && Agrees(ReadParams(old(Rest())), r, Rest())
    {
      var params: seq<Attr> := [];
      var open := ParseOptional(Less);
      if open {
        ghost var all := ReadItems(ReadAttr, Rest());
        var more := true;
        Begin(ReadAttr, Rest());
        while more
          invariant Valid() && Reading(all, ReadAttr, params, Rest(), more)
          decreases |toks| - pos
        {
          hide Reading, ReadAttr, ReadItems;
          ItemsStep(ReadAttr, params, Rest());
          var param := ParseSingleAttribute();
          if param.None? {
            return None;
          }
          params := params + [param.value];
          more := ParseOptional(Comma);
        }
        var close := ParseOptional(Greater);
        if !close {
          return None;
        }
      }
      r := Some(params);
    }

    method ParseOpTrait() returns (r: Option<Trait>)
      requires Valid()
      modifies this
      ensures Valid() && Agrees(ReadTrait(old(Rest())), r, Rest())
    {
      if pos == |toks| || !toks[pos].Sym? {
        return None;
      }
      var name := toks[pos].name;
      pos := pos + 1;
      var params := ParseOptionalParameterList();
      r := if params.Some? then Some(Trait(name, params.value)) else None;
    }

    method ParseOptionalOpTraitList() returns (r: Option<seq<Trait>>)
      requires Valid()
      modifies this
      ensures Valid() && Agrees(ReadTraitList(old(Rest())), r, Rest())
    {
      ghost var start := Rest();
      var traits: seq<Trait> := [];
      var keyword := ParseOptional(Id("traits"));
      if keyword {
        var open := ParseOptional(LSquare);
        if !open {
          return None;
        }
        assert start[2..] == Rest();
        ghost var all := ReadItems(ReadTrait, Rest());
        var more := true;
        Begin(ReadTrait, Rest());
        while more
          invariant Valid() && Reading(all, ReadTrait, traits, Rest(), more)
          decreases |toks| - pos
        {
          hide Reading, ReadTrait, ReadItems;
          TraitShrinks(Rest());
          ItemsStep(ReadTrait, traits, Rest());
          var t := ParseOpTrait();
          if t.None? {
            return None;
          }
          traits := traits + [t.value];
          more := ParseOptional(Comma);
        }
        var close := ParseOptional(RSquare);
        if !close {
          return None;
        }
      }
      r := Some(traits);
    }

    method ParseNamedType() returns (r: Option<Named<nat>>)
      requires Valid()
      modifies this
      ensures Valid() && Agrees(ReadNamedType(old(Rest())), r, Rest())
    {
      ghost var start := Rest();
      var name := ParseKeyword();
      if name.None? {
        return None;
      }
      var colon := ParseOptional(Colon);
      if !colon || pos == |toks| || !toks[pos].TypeTok? {
        return None;
      }
      r := Some(Named(name.value, toks[pos].ty));
      pos := pos + 1;
    }

    /** After the first item, found by its keyword, each comma announces another. */
    method ParseValueList() returns (r: Option<seq<Named<nat>>>)
      requires Valid()
      modifies this
      ensures Valid() && Agrees(ReadValueList(old(Rest())), r, Rest())
    {
      var tys: seq<Named<nat>> := [];
      var open := ParseOptional(LParen);
      if !open {
        return None;
      }
      if pos < |toks| && toks[pos].Id? {
        ghost var all := ReadItems(ReadNamedType, Rest());
        var more := true;
        Begin(ReadNamedType, Rest());
        while more
          invariant Valid() && Reading(all, ReadNamedType, tys, Rest(), more)
          decreases |toks| - pos
        {
          hide Reading, ReadNamedType, ReadItems;
          ItemsStep(ReadNamedType, tys, Rest());
          var ty := ParseNamedType();
          if ty.None? {
            return None;
          }
          tys := tys + [ty.value];
          more := ParseOptional(Comma);
        }
      }
      var close := ParseOptional(RParen);
      r := if close then Some(tys) else None;
    }

    /** `ok` with no type: two operands, or two results, share a name. */
    method ParseOpType() returns (ok: bool, r: Option<OpType>)
      requires Valid()
      modifies this
      ensures Valid() && Agrees(ReadOpType(old(Rest())), if ok then Some(r) else None, Rest())
    {
      r := None;
      var operands := ParseValueList();
      if operands.None? {
        return false, None;
      }
      var arrow := ParseOptional(Arrow);
      if !arrow {
        return false, None;
      }
      var results := ParseValueList();
      if results.None? {
        return false, None;
      }
      var first := NamesUnique(operands.value);
      var second := NamesUnique(results.value);
      if first && second {
        r := Some(OpType(operands.value, results.value));
      }
      ok := true;
    }
  }

  lemma TraitShrinks(toks: seq<Token>)
    ensures ReadTrait(toks).Got? ==> |ReadTrait(toks).rest| < |toks|
  {
  }
}
