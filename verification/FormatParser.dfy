/** The format parser as it runs. */
module FormatParser {
  // There is one current token, and fields change as tokens are consumed.

  import opened FormatLexer
  import opened FormatGrammar
  import opened FormatAccepted
  import opened FormatResolve

  /** A parsed value, an error that has been reported, or a failed assertion. */
  datatype Result<T> = Done(v: T) | Refused | Aborted

  ghost predicate Agrees<T>(r: R<T>, result: Result<T>, after: St) {
    match r
    case Ok(v, st) => result == Done(v) && after == st
    case Reject => result == Refused
    case Crash => result == Aborted
  }

  /** Every successor is named, or all of them are. */
  ghost predicate ListsSuccessors(op: OpInfo, ls: set<Element>) {
    AllSuccessors in ls || forall i :: 0 <= i < |op.successors| ==> SuccessorVar(i) in ls
  }

  ghost predicate ListsRegions(op: OpInfo, ls: set<Element>) {
    forall i :: 0 <= i < |op.regions| ==> RegionVar(i) in ls
  }

  class Parser {
    const op: OpInfo
    const toks: seq<Tok>
    var pos: nat
    var hasAllOperands: bool
    var hasAttrDict: bool
    var hasAllSuccessors: bool
    var seenOperandTypes: set<nat>
    var seenResultTypes: set<nat>
    var seenOperands: set<nat>
    var seenAttrs: set<nat>
    var seenSuccessors: set<nat>
    var seenRegions: set<nat>
    var allOperandTypes: bool
    var allResultTypes: bool

    constructor (op: OpInfo, toks: seq<Tok>)
      requires Ends(toks)
      ensures Valid() && this.op == op && State() == Start(toks)
    {
      this.op, this.toks, pos := op, toks, 0;
      hasAllOperands, hasAttrDict, hasAllSuccessors := false, false, false;
      allOperandTypes, allResultTypes := false, false;
      seenOperandTypes, seenResultTypes, seenOperands, seenAttrs, seenSuccessors, seenRegions := {}, {}, {}, {}, {}, {};
    }

    ghost predicate Valid()
      reads this
    {
      pos < |toks| && Ends(toks)
    }

    ghost function State(): (st: St)
      reads this
      requires Valid()
      ensures Ends(st.toks) && |st.toks| == |toks| - pos && st.toks[0] == toks[pos]
    {
      St(toks[pos..], hasAllOperands, hasAttrDict, hasAllSuccessors, seenOperandTypes, seenResultTypes,
         seenOperands, seenAttrs, seenSuccessors, seenRegions, allOperandTypes, allResultTypes)
    }

    /** The source asserts that the current token is not the last. */
    method ConsumeToken()
      requires Valid() && !Last(toks[pos].kind)
      modifies this`pos
      ensures Valid() && State() == Take(old(State())) && pos == old(pos) + 1
    {
      assert toks[pos..][1..] == toks[pos + 1..];
      pos := pos + 1;
    }

    method ParseToken(k: Kind) returns (ok: bool)
      requires Valid() && !Last(k)
      modifies this`pos
      ensures Valid() && ok == (Cur(old(State())) == k) && State() == if ok then Take(old(State())) else old(State())
      ensures old(pos) <= pos && (ok ==> old(pos) < pos)
    {
      ok := toks[pos].kind == k;
      if ok {
        ConsumeToken();
      }
    }

    method ParseVariable(top: bool) returns (r: Result<Element>)
      requires Valid()
      modifies this
      ensures Valid() && Agrees(FormatGrammar.ParseVariable(op, old(State()), top), r, State())
      ensures r.Done? ==> old(pos) < pos
    {
      hide Ends, Position, FormatGrammar.ParseOther;
      HasText(toks, pos);
      if Last(toks[pos].kind) {
        return Aborted;
      }
      var name := toks[pos].text[1..];
      ConsumeToken();
      var attr := Position(op.attrs, AttrName, name);
      if attr.Some? {
        if top {
          if attr.value in seenAttrs {
            return Refused;
          }
          seenAttrs := seenAttrs + {attr.value};
        }
        return Done(AttrVar(attr.value));
      }
      var operand := Position(op.operands, ValueName, name);
      if operand.Some? {
        if top {
          if hasAllOperands || operand.value in seenOperands {
            return Refused;
          }
          seenOperands := seenOperands + {operand.value};
        }
        return Done(OperandVar(operand.value));
      }
      r := ParseOther(name, top);
    }

    method ParseOther(name: string, top: bool) returns (r: Result<Element>)
      requires Valid()
      modifies this`seenSuccessors, this`seenRegions
      ensures Valid() && Agrees(FormatGrammar.ParseOther(op, old(State()), name, top), r, State())
    {
      hide Ends, Position;
      var result := Position(op.results, ValueName, name);
      if result.Some? {
        return if top then Refused else Done(ResultVar(result.value));
      }
      var successor := Position(op.successors, ListName, name);
      if successor.Some? {
        if !top || hasAllSuccessors || successor.value in seenSuccessors {
          return Refused;
        }
        seenSuccessors := seenSuccessors + {successor.value};
        return Done(SuccessorVar(successor.value));
      }
      var region := Position(op.regions, ListName, name);
      if region.Some? {
        if !top || region.value in seenRegions || op.regions[region.value].variadic {
          return Refused;
        }
        seenRegions := seenRegions + {region.value};
        return Done(RegionVar(region.value));
      }
      r := Refused;
    }

    method ParseElement(top: bool) returns (r: Result<Element>)
      requires Valid()
      modifies this
      ensures Valid() && Agrees(FormatGrammar.ParseElement(op, old(State()), top), r, State())
      ensures r.Done? ==> old(pos) < pos
      decreases |toks| - pos, 4
    {
      hide Ends, State, FormatGrammar.ParseDirective, FormatGrammar.ParseVariable, FormatGrammar.ParseOptional;
      var kind := toks[pos].kind;
      if IsKeyword(kind) {
        r := ParseDirective(top);
      } else if kind == Literal {
        var value := Unquote(toks[pos].text);
        ConsumeToken();
        r := if IsValidLiteral(value) then Done(Lit(value)) else Refused;
      } else if kind == LParen {
        if !top {
          return Refused;
        }
        r := ParseOptional();
      } else if kind == Variable {
        r := ParseVariable(top);
      } else {
        r := Refused;
      }
    }

    method ParseAttrDictDirective(withKeyword: bool, top: bool) returns (r: Result<Element>)
      requires Valid()
      modifies this`hasAttrDict
      ensures Valid() && r == if top && !old(State().hasAttrDict) then Done(AttrDict(withKeyword)) else Refused
      ensures State() == old(State()).(hasAttrDict := old(State().hasAttrDict) || top)
    {
      if !top || hasAttrDict {
        return Refused;
      }
      hasAttrDict := true;
      r := Done(AttrDict(withKeyword));
    }

    method ParseOperandsDirective(top: bool) returns (r: Result<Element>)
      requires Valid()
      modifies this`hasAllOperands
      ensures var s := old(State());
              && Valid() && r == (if top && (s.hasAllOperands || s.operands != {}) then Refused else Done(AllOperands))
              && State() == s.(hasAllOperands := s.hasAllOperands || r.Done?)
    {
      if top && (hasAllOperands || seenOperands != {}) {
        return Refused;
      }
      hasAllOperands := true;
      r := Done(AllOperands);
    }

    method ParseSuccessorsDirective(top: bool) returns (r: Result<Element>)
      requires Valid()
      modifies this`hasAllSuccessors
      ensures var s := old(State());
              && Valid()
              && r == (if top && !s.hasAllSuccessors && s.successors == {} then Done(AllSuccessors) else Refused)
              && State() == s.(hasAllSuccessors := s.hasAllSuccessors || r.Done?)
    {
      if !top || hasAllSuccessors || seenSuccessors != {} {
        return Refused;
      }
      hasAllSuccessors := true;
      r := Done(AllSuccessors);
    }

    method ParseDirective(top: bool) returns (r: Result<Element>)
      requires Valid() && IsKeyword(toks[pos].kind)
      modifies this
      ensures Valid() && Agrees(FormatGrammar.ParseDirective(op, old(State()), top), r, State())
      ensures r.Done? ==> old(pos) < pos
      decreases |toks| - pos, 3
    {
      hide Ends, State, FormatGrammar.ParseType, FormatGrammar.ParseFunctionalType, FormatGrammar.ParseSymbol;
      var kind := toks[pos].kind;
      ConsumeToken();
      if kind == KwAttrDict || kind == KwAttrDictWithKeyword {
        r := ParseAttrDictDirective(kind == KwAttrDictWithKeyword, top);
      } else if kind == KwFunctionalType {
        if !top {
          return Refused;
        }
        r := ParseFunctionalType();
      } else if kind == KwOperands {
        r := ParseOperandsDirective(top);
      } else if kind == KwResults {
        r := if top then Refused else Done(AllResults);
      } else if kind == KwSuccessors {
        r := ParseSuccessorsDirective(top);
      } else if kind == KwType {
        if !top {
          return Refused;
        }
        r := ParseType();
      } else if kind == KwSymbol {
        r := ParseSymbol();
      } else {
        r := Refused;
      }
    }

    method ParseTypeOperand() returns (r: Result<Element>)
      requires Valid()
      modifies this
      ensures Valid() && Agrees(FormatGrammar.ParseTypeOperand(op, old(State())), r, State())
      ensures r.Done? ==> old(pos) < pos
      decreases |toks| - pos, 5
    {
      hide Ends, FormatGrammar.ParseElement;
      r := ParseElement(false);
      if !r.Done? {
        return;
      }
      match r.v {
        case OperandVar(i) =>
          if allOperandTypes || i in seenOperandTypes {
            return Refused;
          }
          seenOperandTypes := seenOperandTypes + {i};
        case ResultVar(i) =>
          if allResultTypes || i in seenResultTypes {
            return Refused;
          }
          seenResultTypes := seenResultTypes + {i};
        case AllOperands =>
          if allOperandTypes || seenOperandTypes != {} {
            return Refused;
          }
          allOperandTypes := true;
        case AllResults =>
          if allResultTypes || seenResultTypes != {} {
            return Refused;
          }
          allResultTypes := true;
        case _ => return Refused;
      }
    }

    method ParseFunctionalType() returns (r: Result<Element>)
      requires Valid()
      modifies this
      ensures Valid() && Agrees(FormatGrammar.ParseFunctionalType(op, old(State())), r, State())
      ensures r.Done? ==> old(pos) < pos
      decreases |toks| - pos, 2
    {
      hide Ends, State, Take, Cur, FormatGrammar.ParseTypeOperand, FormatGrammar.ParseResultTypes;
      var open := ParseToken(LParen);
      if !open {
        return Refused;
      }
      var inputs := ParseTypeOperand();
      if !inputs.Done? {
        return inputs;
      }
      var comma := ParseToken(Comma);
      if !comma {
        return Refused;
      }
      r := ParseResultTypes(inputs.v);
    }

    method ParseResultTypes(inputs: Element) returns (r: Result<Element>)
      requires Valid()
      modifies this
      ensures Valid() && Agrees(FormatGrammar.ParseResultTypes(op, old(State()), inputs), r, State())
      ensures r.Done? ==> old(pos) < pos
      decreases |toks| - pos, 6
    {
      hide Ends, FormatGrammar.ParseTypeOperand;
      var results := ParseTypeOperand();
      if !results.Done? {
        return results;
      }
      var close := ParseToken(RParen);
      r := if close then Done(FunctionalType(inputs, results.v)) else Refused;
    }

    method ParseType() returns (r: Result<Element>)
      requires Valid()
      modifies this
      ensures Valid() && Agrees(FormatGrammar.ParseType(op, old(State())), r, State())
      ensures r.Done? ==> old(pos) < pos
      decreases |toks| - pos, 2
    {
      hide Ends, State, FormatGrammar.ParseTypeOperand;
      var open := ParseToken(LParen);
      if !open {
        return Refused;
      }
      var arg := ParseTypeOperand();
      if !arg.Done? {
        return arg;
      }
      var close := ParseToken(RParen);
      r := if close then Done(TypeDir(arg.v)) else Refused;
    }

    method ParseSymbol() returns (r: Result<Element>)
      requires Valid()
      modifies this
      ensures Valid() && Agrees(FormatGrammar.ParseSymbol(op, old(State())), r, State())
      ensures r.Done? ==> old(pos) < pos
    {
      hide Ends, FormatGrammar.ParseVariable;
      var open := ParseToken(LParen);
      if !open {
        return Refused;
      }
      var attr := ParseVariable(false);
      if !attr.Done? {
        return attr;
      }
      var close := ParseToken(RParen);
      if !close {
        return Refused;
      }
      r := if attr.v.AttrVar? then Done(SymbolDir(attr.v)) else Refused;
    }

    method ParseChild(g: Group) returns (r: Result<Group>)
      requires Valid()
      modifies this
      ensures Valid() && Agrees(FormatGrammar.ParseChild(op, old(State()), g), r, State())
      ensures r.Done? ==> old(pos) < pos
      decreases |toks| - pos, 5
    {
      hide Ends, FormatGrammar.ParseElement, IsChild;
      var child := ParseElement(true);
      if !child.Done? {
        return if child.Refused? then Refused else Aborted;
      }
      var anchor := g.anchor;
      var isAnchor := toks[pos].kind == Caret;
      if isAnchor {
        if anchor.Some? {
          return Refused;
        }
        anchor := Some(|g.children|);
        ConsumeToken();
      }
      if !IsChild(op, child.v, isAnchor) {
        return Refused;
      }
      r := Done(Group(g.children + [child.v], anchor));
    }

    method ParseOptional() returns (r: Result<Element>)
      requires Valid() && toks[pos].kind == LParen
      modifies this
      ensures Valid() && Agrees(FormatGrammar.ParseOptional(op, old(State())), r, State())
      ensures r.Done? ==> old(pos) < pos
      decreases |toks| - pos, 2
    {
      hide Ends, State, FormatGrammar.ParseChild, TypesInside;
      ConsumeToken();
      ghost var all := ParseChildren(op, State(), Group([], None));
      var g := Group([], None);
      var more := true;
      while more
        invariant Valid() && old(pos) < pos
        invariant more ==> all == ParseChildren(op, State(), g)
        invariant !more ==> all == Ok(g, State()) && toks[pos].kind == RParen
        decreases |toks| - pos, more
      {
        var next := ParseChild(g);
        if !next.Done? {
          return if next.Refused? then Refused else Aborted;
        }
        g := next.v;
        more := toks[pos].kind != RParen;
      }
      ConsumeToken();
      var question := ParseToken(Question);
      if !question {
        return Refused;
      }
      if g.anchor.None? || g.children == [] || !(g.children[0].Lit? || g.children[0].OperandVar?)
        || !TypesInside(g.children) {
        return Refused;
      }
      r := Done(Opt(g.children, g.anchor.value));
    }

    method ParseElements() returns (r: Result<seq<Element>>)
      requires Valid()
      modifies this
      ensures Valid() && Agrees(FormatGrammar.ParseElements(op, old(State()), []), r, State())
    {
      hide Ends, FormatGrammar.ParseElement;
      ghost var all := FormatGrammar.ParseElements(op, State(), []);
      var elements: seq<Element> := [];
      while toks[pos].kind != Eof
        invariant Valid() && all == FormatGrammar.ParseElements(op, State(), elements)
        decreases |toks| - pos
      {
        var e := ParseElement(true);
        if !e.Done? {
          return if e.Refused? then Refused else Aborted;
        }
        elements := elements + [e.v];
      }
      r := Done(elements);
    }

    /** The lowest position set, as the bit vector finds it. */
    method FindFirst(seen: set<nat>, n: nat) returns (r: Option<nat>)
      ensures r == FirstIn(seen, 0, n)
    {
      var i := 0;
      while i < n
        invariant 0 <= i <= n && FirstIn(seen, 0, n) == FirstIn(seen, i, n)
      {
        if i in seen {
          return Some(i);
        }
        i := i + 1;
      }
      r := None;
    }

    method BindNames(values: seq<ValueInfo>, seen: set<nat>, ref: Ref, resolver: Resolver) returns (r: Resolver)
      ensures r == BindAll(values, seen, 0, ref, resolver)
    {
      r := resolver;
      var i := 0;
      while i < |values|
        invariant 0 <= i <= |values| && BindAll(values, seen, 0, ref, resolver) == BindAll(values, seen, i, ref, r)
      {
        if i !in seen && values[i].name != "" {
          r := r[values[i].name := ref];
        }
        i := i + 1;
      }
    }

    method HandleSameTypesConstraint(resolver: Resolver, includeResults: bool) returns (r: Resolver)
      requires Valid()
      ensures r == HandleSameTypes(op, State(), resolver, includeResults)
    {
      var operand := FindFirst(seenOperandTypes, |op.operands|);
      var result := FindFirst(seenResultTypes, |op.results|);
      var ref: Ref;
      if operand.Some? {
        ref := OperandRef(operand.value);
      } else if includeResults && result.Some? {
        ref := ResultRef(result.value);
      } else {
        return resolver;
      }
      r := BindNames(op.operands, seenOperandTypes, ref, resolver);
      if includeResults {
        r := BindNames(op.results, seenResultTypes, ref, r);
      }
    }

    method VerifyResults(resolver: Resolver) returns (r: Resolved)
      requires Valid()
      ensures r == ResolveResults(op, State(), resolver, 0, [])
    {
      var table: seq<string> := [];
      var sources: seq<Source> := [];
      ghost var all := ResolveResults(op, State(), resolver, 0, []);
      var i := 0;
      while i < |op.results|
        invariant 0 <= i <= |op.results| && all == Preceded(sources, ResolveResults(op, State(), resolver, i, table))
      {
        hide ResolverOk;
        var v := op.results[i];
        var s: Source;
        ghost var before := table;
        if allResultTypes || i in seenResultTypes {
          s := OwnList;
        } else if v.name in resolver {
          s := SameAs(resolver[v.name]);
        } else if v.builder.None? || v.variadic {
          return Failed;
        } else {
          s := Built(IndexOf(table, v.builder.value));
          table := Insert(table, v.builder.value);
        }
        PrecededOne(sources, s, ResolveResults(op, State(), resolver, i + 1, table));
        sources := sources + [s];
        i := i + 1;
      }
      r := Resolved(table, sources);
    }

    method VerifyOperands(resolver: Resolver, start: seq<string>) returns (r: Resolved)
      requires Valid()
      ensures r == ResolveOperands(op, State(), resolver, 0, start)
    {
      var table := start;
      var sources: seq<Source> := [];
      ghost var all := ResolveOperands(op, State(), resolver, 0, start);
      var i := 0;
      while i < |op.operands|
        invariant 0 <= i <= |op.operands| && all == Preceded(sources, ResolveOperands(op, State(), resolver, i, table))
      {
        var v := op.operands[i];
        var s: Source;
        if !hasAllOperands && i !in seenOperands {
          return Failed;
        }
        if allOperandTypes || i in seenOperandTypes {
          s := OwnList;
        } else if v.name in resolver {
          s := SameAs(resolver[v.name]);
        } else if v.builder.None? || (hasAllOperands && v.variadic) {
          return Failed;
        } else {
          s := Built(IndexOf(table, v.builder.value));
          table := Insert(table, v.builder.value);
        }
        PrecededOne(sources, s, ResolveOperands(op, State(), resolver, i + 1, table));
        sources := sources + [s];
        i := i + 1;
      }
      r := Resolved(table, sources);
    }

    /** Parsing and all checks, in their order; the format is the one `ParseFormat` gives. */
    method Parse() returns (r: Outcome)
      requires Valid() && State() == Start(toks)
      modifies this
      ensures r == ParseFormat(op, toks)
    {
      hide Ends, State, Check, WfElement, Inv, Start, FormatGrammar.ParseElements;
      var parsed := ParseElements();
      if parsed.Refused? {
        return Rejected;
      }
      if parsed.Aborted? {
        return Crashed;
      }
      ParsedElements(op, toks);
      r := VerifyFormat(parsed.v);
    }

    /** Accepts exactly the elements that list every successor or have `successors`. */
    method VerifySuccessors(ghost elements: seq<Element>) returns (ok: bool)
      requires Valid() && Inv(op, State(), Flat(elements))
      ensures ok == SuccessorsSeen(op, State())
      ensures ok <==> ListsSuccessors(op, Flat(elements))
    {
      hide Flat, WfLeaf, InvValues, InvTypes, Ends;
      if hasAllSuccessors {
        return true;
      }
      var i := 0;
      while i < |op.successors|
        invariant 0 <= i <= |op.successors|
        invariant forall j :: 0 <= j < i ==> j in seenSuccessors
      {
        if i !in seenSuccessors {
          assert SuccessorVar(i) !in Flat(elements);
          return false;
        }
        i := i + 1;
      }
      ok := true;
      assert forall j: nat :: j < |op.successors| ==> SuccessorVar(j) in Flat(elements);
    }

    /** Accepts exactly the elements that list every region. */
    method VerifyRegions(ghost elements: seq<Element>) returns (ok: bool)
      requires Valid() && Inv(op, State(), Flat(elements))
      ensures ok == RegionsSeen(op, State())
      ensures ok <==> ListsRegions(op, Flat(elements))
    {
      hide Flat, WfLeaf, InvValues, InvTypes, Ends;
      var i := 0;
      while i < |op.regions|
        invariant 0 <= i <= |op.regions|
        invariant forall j :: 0 <= j < i ==> j in seenRegions
      {
        if i !in seenRegions {
          assert RegionVar(i) !in Flat(elements);
          return false;
        }
        i := i + 1;
      }
      ok := true;
      assert forall j: nat :: j < |op.regions| ==> RegionVar(j) in Flat(elements);
    }

    method VerifyFormat(elements: seq<Element>) returns (r: Outcome)
      requires Valid() && Inv(op, State(), Flat(elements)) && forall e :: e in elements ==> WfElement(op, e)
      ensures r == Check(op, State(), elements)
    {
      hide ListsSuccessors, ListsRegions, Inv, Flat, AttrsOk, ResolveResults, ResolveOperands, HandleSameTypes,
        WfElement, Ends, SuccessorsSeen, RegionsSeen;
      if !hasAttrDict {
        return Rejected;
      }
      var resolver: Resolver := map[];
      if op.sameTypeOperands {
        resolver := HandleSameTypesConstraint(resolver, false);
      }
      if op.sameOperandsAndResults {
        resolver := HandleSameTypesConstraint(resolver, true);
      }
      var attributes := VerifyAttributes(op, elements);
      if !attributes {
        return Rejected;
      }
      var results := VerifyResults(resolver);
      if results.Failed? {
        return Rejected;
      }
      var operands := VerifyOperands(resolver, results.table);
      if operands.Failed? {
        return Rejected;
      }
      var successors := VerifySuccessors(elements);
      if !successors {
        return Rejected;
      }
      var regions := VerifyRegions(elements);
      if !regions {
        return Rejected;
      }
      r := Accepted(Format(elements, AllOperands in elements, allOperandTypes, allResultTypes, operands.table,
        operands.sources, results.sources));
    }
  }

  lemma HasText(toks: seq<Tok>, pos: nat)
    requires Ends(toks) && pos < |toks|
    ensures !Last(toks[pos].kind) ==> toks[pos].text != ""
  {
  }

  function Preceded(sources: seq<Source>, r: Resolved): Resolved {
    if r.Failed? then r else Resolved(r.table, sources + r.sources)
  }

  lemma PrecededOne(sources: seq<Source>, s: Source, r: Resolved)
    ensures Preceded(sources, Cons(s, r)) == Preceded(sources + [s], r)
  {
    if r.Resolved? {
      assert sources + ([s] + r.sources) == sources + [s] + r.sources;
    }
  }

  lemma ParsedElements(op: OpInfo, toks: seq<Tok>)
    requires Ends(toks) && FormatGrammar.ParseElements(op, Start(toks), []).Ok?
    ensures var r := FormatGrammar.ParseElements(op, Start(toks), []);
            Inv(op, r.st, Flat(r.v)) && forall e :: e in r.v ==> WfElement(op, e)
  {
    StartInv(op, toks);
    ElementsParsed(op, Start(toks), []);
  }
}
