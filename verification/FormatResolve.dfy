/** The checks made on a parsed format. */
module FormatResolve {
  // They also decide where each operand's and each result's type comes from.

  import opened FormatLexer
  import opened FormatGrammar
  import opened FormatAccepted

  datatype Ref = OperandRef(i: nat) | ResultRef(i: nat)

  /** The type list of its own, another variable's, or an index into the table of built types. */
  datatype Source = OwnList | SameAs(ref: Ref) | Built(idx: nat)

  datatype Format = Format(elements: seq<Element>, allOperands: bool, allOperandTypes: bool, allResultTypes: bool,
                           table: seq<string>, operandTypes: seq<Source>, resultTypes: seq<Source>)

  // ----- Attributes

  predicate NeedsType(op: OpInfo, e: Element) { e.AttrVar? && e.attr < |op.attrs| && op.attrs[e.attr].builder.None? }

  /** A `:` comes next, but for groups and attribute dictionaries. */
  predicate NextColon(es: seq<Element>, k: nat)
    decreases |es| - k
  {
    if k >= |es| then false
    else if es[k].AttrDict? || es[k].Opt? then NextColon(es, k + 1)
    else es[k] == Lit(":")
  }

  predicate ChildrenOk(op: OpInfo, es: seq<Element>, i: nat, children: seq<Element>, j: nat) {
    forall m :: 0 <= m < j && m < |children| && NeedsType(op, children[m])
      ==> !NextColon(es, i) && !NextColon(children, m + 1)
  }

  predicate AttrOk(op: OpInfo, es: seq<Element>, i: nat)
    requires i < |es|
  {
    if es[i].Opt? then ChildrenOk(op, es, i + 1, es[i].elements, |es[i].elements|)
    else NeedsType(op, es[i]) ==> !NextColon(es, i + 1)
  }

  /** No attribute that may be followed by a type is followed by a colon. */
  predicate AttrsOk(op: OpInfo, es: seq<Element>) { forall i :: 0 <= i < |es| ==> AttrOk(op, es, i) }

  method ColonFollows(es: seq<Element>, k: nat) returns (r: bool)
    ensures r == NextColon(es, k)
  {
    var next := k;
    while next < |es|
      invariant k <= next && NextColon(es, k) == NextColon(es, next)
    {
      if es[next].AttrDict? || es[next].Opt? {
        next := next + 1;
      } else {
        return es[next] == Lit(":");
      }
    }
    r := false;
  }

  /** The walk with an explicit stack of positions: the format's, and that of a group entered. */
  method VerifyAttributes(op: OpInfo, elements: seq<Element>) returns (ok: bool)
    requires forall e :: e in elements ==> WfElement(op, e)
    ensures ok == AttrsOk(op, elements)
  {
    var stack: seq<(seq<Element>, nat)> := [(elements, 0)];
    while stack != []
      invariant |stack| <= 2 && (stack != [] ==> stack[0].0 == elements && stack[0].1 <= |elements|)
      invariant |stack| == 2 ==> stack[0].1 > 0 && elements[stack[0].1 - 1].Opt?
                                 && stack[1].0 == elements[stack[0].1 - 1].elements
                                 && stack[1].1 <= |stack[1].0|
                                 && ChildrenOk(op, elements, stack[0].1, stack[1].0, stack[1].1)
      invariant stack == [] ==> AttrsOk(op, elements)
      invariant stack != [] ==> forall i :: 0 <= i < stack[0].1 - (|stack| - 1) ==> AttrOk(op, elements, i)
      decreases if stack == [] then 0 else 2 + 2 * (|elements| - stack[0].1) + |stack| - 1
    {
      var top := |stack| - 1;
      var es, it := stack[top].0, stack[top].1;
      var entered := false;
      while it != |es| && !entered
        invariant |stack| == top + 1 && stack[top].0 == es && stack[top].1 <= it <= |es|
                  && (entered ==> stack[top].1 < it)
        invariant top == 1 ==> stack[0].0 == elements && 0 < stack[0].1 <= |elements| && elements[stack[0].1 - 1].Opt?
                               && es == elements[stack[0].1 - 1].elements
                               && ChildrenOk(op, elements, stack[0].1, es, it)
        invariant top == 1 ==> !entered && forall i :: 0 <= i < stack[0].1 - 1 ==> AttrOk(op, elements, i)
        invariant top == 0 ==> es == elements
        invariant top == 0 ==> forall i :: 0 <= i < it - (if entered then 1 else 0) ==> AttrOk(op, elements, i)
        invariant entered ==> it > 0 && es[it - 1].Opt?
        decreases |es| - it, !entered
      {
        var element := es[it];
        it := it + 1;
        ghost var outer := if top == 1 then elements[stack[0].1 - 1] else element;
        assert WfElement(op, outer) && (top == 1 ==> element in outer.elements && WfLeaf(op, element));
        if element.Opt? {
          entered := true;
        } else if element.AttrVar? && op.attrs[element.attr].builder.None? {
          assert NeedsType(op, element);
          var colon := ColonFollows(es, it);
          if top == 1 && !colon {
            colon := ColonFollows(stack[0].0, stack[0].1);
          }
          if colon {
            assert top == 0 ==> !AttrOk(op, elements, it - 1);
            assert top == 1 ==> !AttrOk(op, elements, stack[0].1 - 1);
            return false;
          }
        }
      }
      if entered {
        stack := [(elements, it), (elements[it - 1].elements, 0)];
      } else {
        stack := stack[..top];
      }
    }
    ok := true;
  }

  // ----- Types inferred from a trait

  type Resolver = map<string, Ref>

  /** The first position from `i` on that is in the set. */
  function FirstIn(s: set<nat>, i: nat, n: nat): (r: Option<nat>)
    ensures r.Some? ==> r.value in s && i <= r.value < n
    decreases n - i
  {
    if i >= n then None else if i in s then Some(i) else FirstIn(s, i + 1, n)
  }

  /** Every value without a type of its own is bound to `ref` by name. */
  function BindAll(values: seq<ValueInfo>, seen: set<nat>, i: nat, ref: Ref, resolver: Resolver): Resolver
    decreases |values| - i
  {
    if i >= |values| then resolver
    else
      var bound := i !in seen && values[i].name != "";
      BindAll(values, seen, i + 1, ref, if bound then resolver[values[i].name := ref] else resolver)
  }

  function HandleSameTypes(op: OpInfo, st: St, resolver: Resolver, includeResults: bool): Resolver {
    var operand := FirstIn(st.operandTypes, 0, |op.operands|);
    var result := FirstIn(st.resultTypes, 0, |op.results|);
    if operand.None? && (!includeResults || result.None?) then resolver
    else
      var ref := if operand.Some? then OperandRef(operand.value) else ResultRef(result.value);
      var some := BindAll(op.operands, st.operandTypes, 0, ref, resolver);
      if includeResults then BindAll(op.results, st.resultTypes, 0, ref, some) else some
  }

  function Resolvers(op: OpInfo, st: St): Resolver {
    var some := if op.sameTypeOperands then HandleSameTypes(op, st, map[], false) else map[];
    if op.sameOperandsAndResults then HandleSameTypes(op, st, some, true) else some
  }

  // ----- The table of built types

  function IndexOf(table: seq<string>, b: string): (r: nat)
    ensures r <= |table| && (r < |table| <==> b in table) && (r < |table| ==> table[r] == b)
  {
    if table == [] then 0 else if table[0] == b then 0 else IndexOf(table[1..], b) + 1
  }

  function Insert(table: seq<string>, b: string): seq<string> { if b in table then table else table + [b] }

  /** What resolution yields: the table so far and the sources from position `i` on. */
  datatype Resolved = Failed | Resolved(table: seq<string>, sources: seq<Source>)

  function Cons(s: Source, r: Resolved): Resolved { if r.Failed? then r else Resolved(r.table, [s] + r.sources) }

  function ResolveResults(op: OpInfo, st: St, resolver: Resolver, i: nat, table: seq<string>): Resolved
    decreases |op.results| - i
  {
    if i >= |op.results| then Resolved(table, [])
    else
      var v := op.results[i];
      if st.allResultTypes || i in st.resultTypes then Cons(OwnList, ResolveResults(op, st, resolver, i + 1, table))
      else if v.name in resolver then Cons(SameAs(resolver[v.name]), ResolveResults(op, st, resolver, i + 1, table))
      else if v.builder.None? || v.variadic then Failed
      else Cons(Built(IndexOf(table, v.builder.value)),
        ResolveResults(op, st, resolver, i + 1, Insert(table, v.builder.value)))
  }

  function ResolveOperands(op: OpInfo, st: St, resolver: Resolver, i: nat, table: seq<string>): Resolved
    decreases |op.operands| - i
  {
    if i >= |op.operands| then Resolved(table, [])
    else
      var v := op.operands[i];
      if !st.hasAllOperands && i !in st.operands then Failed
      else if st.allOperandTypes || i in st.operandTypes
        then Cons(OwnList, ResolveOperands(op, st, resolver, i + 1, table))
      else if v.name in resolver then Cons(SameAs(resolver[v.name]), ResolveOperands(op, st, resolver, i + 1, table))
      else if v.builder.None? || (st.hasAllOperands && v.variadic) then Failed
      else Cons(Built(IndexOf(table, v.builder.value)),
        ResolveOperands(op, st, resolver, i + 1, Insert(table, v.builder.value)))
  }

  // ----- The whole check

  datatype Outcome = Accepted(format: Format) | Rejected | Crashed

  predicate SuccessorsSeen(op: OpInfo, st: St) {
    st.hasAllSuccessors || forall i :: 0 <= i < |op.successors| ==> i in st.successors
  }

  predicate RegionsSeen(op: OpInfo, st: St) { forall i :: 0 <= i < |op.regions| ==> i in st.regions }

  function Check(op: OpInfo, st: St, es: seq<Element>): Outcome {
    var resolver := Resolvers(op, st);
    if !st.hasAttrDict || !AttrsOk(op, es) then Rejected
    else match ResolveResults(op, st, resolver, 0, [])
      case Failed => Rejected
      case Resolved(table, results) =>
      match ResolveOperands(op, st, resolver, 0, table)
      case Failed => Rejected
      case Resolved(full, operands) =>
        if !SuccessorsSeen(op, st) || !RegionsSeen(op, st) then Rejected
        else Accepted(Format(es, AllOperands in es, st.allOperandTypes, st.allResultTypes, full, operands, results))
  }

  function ParseFormat(op: OpInfo, toks: seq<Tok>): Outcome
    requires Ends(toks)
  {
    match ParseElements(op, Start(toks), [])
    case Reject => Rejected
    case Crash => Crashed
    case Ok(es, st) => Check(op, st, es)
  }

  // ----- Where types come from

  predicate RefSeen(op: OpInfo, args: set<Element>, ref: Ref) {
    match ref
    case OperandRef(i) => i < |op.operands| && OperandVar(i) in args
    case ResultRef(i) => i < |op.results| && ResultVar(i) in args
  }

  predicate ResolverOk(op: OpInfo, args: set<Element>, resolver: Resolver) {
    forall name :: name in resolver ==> RefSeen(op, args, resolver[name])
  }

  lemma {:induction false} BindAllOk(op: OpInfo, args: set<Element>, values: seq<ValueInfo>, seen: set<nat>, i: nat,
      ref: Ref, resolver: Resolver)
    requires ResolverOk(op, args, resolver) && RefSeen(op, args, ref)
    ensures ResolverOk(op, args, BindAll(values, seen, i, ref, resolver))
    decreases |values| - i
  {
    if i < |values| {
      BindAllOk(op, args, values, seen, i + 1, ref,
        if i !in seen && values[i].name != "" then resolver[values[i].name := ref] else resolver);
    }
  }

  lemma SameTypesOk(op: OpInfo, st: St, args: set<Element>, resolver: Resolver, includeResults: bool)
    requires ResolverOk(op, args, resolver) && InvTypes(st, args)
    ensures ResolverOk(op, args, HandleSameTypes(op, st, resolver, includeResults))
  {
    hide ResolverOk, BindAll;
    var operand := FirstIn(st.operandTypes, 0, |op.operands|);
    var result := FirstIn(st.resultTypes, 0, |op.results|);
    if operand.Some? || (includeResults && result.Some?) {
      var ref := if operand.Some? then OperandRef(operand.value) else ResultRef(result.value);
      BindAllOk(op, args, op.operands, st.operandTypes, 0, ref, resolver);
      BindAllOk(op, args, op.results, st.resultTypes, 0, ref, BindAll(op.operands, st.operandTypes, 0, ref, resolver));
    }
  }

  lemma ResolversOk(op: OpInfo, st: St, args: set<Element>)
    requires InvTypes(st, args)
    ensures ResolverOk(op, args, Resolvers(op, st))
  {
    SameTypesOk(op, st, args, map[], false);
    SameTypesOk(op, st, args, map[], true);
    if op.sameTypeOperands {
      SameTypesOk(op, st, args, HandleSameTypes(op, st, map[], false), true);
    }
  }

  /** `s` is the type source of a value whose own type has been asked for (`own`) or not. */
  predicate SourceOk(op: OpInfo, args: set<Element>, own: bool, builder: Option<string>, table: seq<string>,
      s: Source) {
    match s
    case OwnList => own
    case SameAs(ref) => !own && RefSeen(op, args, ref)
    case Built(k) => !own && k < |table| && builder == Some(table[k])
  }

  lemma InsertAt(table: seq<string>, b: string)
    ensures table <= Insert(table, b) && IndexOf(table, b) < |Insert(table, b)|
            && Insert(table, b)[IndexOf(table, b)] == b
    ensures Distinct(table) ==> Distinct(Insert(table, b))
  {
  }

  /** Sources for the values from `i` on, in a table that has grown from `table`. */
  predicate Good(op: OpInfo, args: set<Element>, values: seq<ValueInfo>, all: bool, seen: set<nat>, i: nat,
      table: seq<string>, r: Resolved) {
    && r.Resolved? && table <= r.table && Distinct(r.table) && i <= |values| && |r.sources| == |values| - i
    && forall j :: i <= j < |values| ==> SourceOk(op, args, all || j in seen, values[j].builder, r.table,
       r.sources[j - i])
  }

  lemma GoodCons(op: OpInfo, args: set<Element>, values: seq<ValueInfo>, all: bool, seen: set<nat>, i: nat,
      table: seq<string>, more: seq<string>, s: Source, r: Resolved)
    requires i < |values| && table <= more && Good(op, args, values, all, seen, i + 1, more, r)
    requires SourceOk(op, args, all || i in seen, values[i].builder, more, s)
    ensures Good(op, args, values, all, seen, i, table, Cons(s, r))
  {
    assert SourceOk(op, args, all || i in seen, values[i].builder, r.table, s);
  }

  lemma {:induction false} ResultsResolved(op: OpInfo, st: St, args: set<Element>, resolver: Resolver, i: nat,
      table: seq<string>)
    requires ResolverOk(op, args, resolver) && i <= |op.results| && Distinct(table)
    ensures var r := ResolveResults(op, st, resolver, i, table);
            r.Resolved? ==> Good(op, args, op.results, st.allResultTypes, st.resultTypes, i, table, r)
    decreases |op.results| - i
  {
    hide ResolverOk, Good, Distinct, RefSeen;
    var r := ResolveResults(op, st, resolver, i, table);
    if i == |op.results| {
      GoodEmpty(op, args, op.results, st.allResultTypes, st.resultTypes, table);
    } else if r.Resolved? {
      var v := op.results[i];
      Seen(op, args, resolver, v.name);
      var built := r.sources[0].Built?;
      var more := if built then Insert(table, v.builder.value) else table;
      if built {
        InsertAt(table, v.builder.value);
      }
      ResultsResolved(op, st, args, resolver, i + 1, more);
      GoodCons(op, args, op.results, st.allResultTypes, st.resultTypes, i, table, more, r.sources[0],
        ResolveResults(op, st, resolver, i + 1, more));
    }
  }

  lemma GoodEmpty(op: OpInfo, args: set<Element>, values: seq<ValueInfo>, all: bool, seen: set<nat>, table: seq<string>)
    requires Distinct(table)
    ensures Good(op, args, values, all, seen, |values|, table, Resolved(table, []))
  {
  }

  lemma Seen(op: OpInfo, args: set<Element>, resolver: Resolver, name: string)
    requires ResolverOk(op, args, resolver)
    ensures name in resolver ==> RefSeen(op, args, resolver[name])
  {
  }

  lemma {:induction false} OperandsResolved(op: OpInfo, st: St, args: set<Element>, resolver: Resolver, i: nat,
      table: seq<string>)
    requires ResolverOk(op, args, resolver) && i <= |op.operands| && Distinct(table)
    ensures var r := ResolveOperands(op, st, resolver, i, table);
            r.Resolved? ==> Good(op, args, op.operands, st.allOperandTypes, st.operandTypes, i, table, r)
    ensures ResolveOperands(op, st, resolver, i, table).Resolved? ==>
              forall j :: i <= j < |op.operands| ==> st.hasAllOperands || j in st.operands
    decreases |op.operands| - i
  {
    hide ResolverOk, Good, Distinct, RefSeen, IndexOf, Insert;
    var r := ResolveOperands(op, st, resolver, i, table);
    if i == |op.operands| {
      GoodEmpty(op, args, op.operands, st.allOperandTypes, st.operandTypes, table);
    } else if r.Resolved? {
      var v := op.operands[i];
      Seen(op, args, resolver, v.name);
      var built := r.sources[0].Built?;
      var more := if built then Insert(table, v.builder.value) else table;
      if built {
        InsertAt(table, v.builder.value);
      }
      OperandsResolved(op, st, args, resolver, i + 1, more);
      var rest := ResolveOperands(op, st, resolver, i + 1, more);
      GoodCons(op, args, op.operands, st.allOperandTypes, st.operandTypes, i, table, more, r.sources[0], rest);
    }
  }

  /** A table without repetitions. */
  predicate Distinct(table: seq<string>) { forall i, j :: 0 <= i < j < |table| ==> table[i] != table[j] }

  /** Facts about an accepted format that the generators rely on. */
  ghost predicate Sound(op: OpInfo, f: Format) {
    && (forall e :: e in f.elements ==> WfElement(op, e))
    && f.allOperands == (AllOperands in f.elements)
    && var ls := Flat(f.elements); var args := ArgsOf(ls);
       && f.allOperandTypes == (AllOperands in args) && f.allResultTypes == (AllResults in args)
       && Distinct(f.table) && |f.operandTypes| == |op.operands| && |f.resultTypes| == |op.results|
       && (forall i :: 0 <= i < |op.operands| ==>
            SourceOk(op, args, f.allOperandTypes || OperandVar(i) in args, op.operands[i].builder, f.table,
              f.operandTypes[i]))
       && (forall i :: 0 <= i < |op.results| ==>
            SourceOk(op, args, f.allResultTypes || ResultVar(i) in args, op.results[i].builder, f.table,
              f.resultTypes[i]))
       && (f.allOperandTypes ==> forall i: nat :: OperandVar(i) !in args)
          && (f.allResultTypes ==> forall i: nat :: ResultVar(i) !in args)
       && (AllOperands in ls || f.allOperandTypes || forall i :: 0 <= i < |op.operands| ==> OperandVar(i) in ls)
       && (AllSuccessors in ls || forall i :: 0 <= i < |op.successors| ==> SuccessorVar(i) in ls)
       && (forall i :: 0 <= i < |op.regions| ==> RegionVar(i) in ls)
       && (AllOperands in ls ==> forall i: nat :: OperandVar(i) !in ls)
  }

  /** For every token list that is accepted: each operand and each result has exactly one source for
      its type, and it names a list that is parsed or an entry of the table that builds it. */
  lemma AcceptedIsSound(op: OpInfo, toks: seq<Tok>)
    requires Ends(toks) && ParseFormat(op, toks).Accepted?
    ensures Sound(op, ParseFormat(op, toks).format)
  {
    var r := ParseElements(op, Start(toks), []);
    StartInv(op, toks);
    ElementsParsed(op, Start(toks), []);
    CheckedIsSound(op, r.st, r.v);
  }

  lemma CheckedIsSound(op: OpInfo, st: St, es: seq<Element>)
    requires Inv(op, st, Flat(es)) && (forall e :: e in es ==> WfElement(op, e)) && Check(op, st, es).Accepted?
    ensures Sound(op, Check(op, st, es).format)
  {
    var args := ArgsOf(Flat(es));
    var resolver := Resolvers(op, st);
    ResolversOk(op, st, args);
    ResultsResolved(op, st, args, resolver, 0, []);
    var results := ResolveResults(op, st, resolver, 0, []);
    OperandsResolved(op, st, args, resolver, 0, results.table);
    var operands := ResolveOperands(op, st, resolver, 0, results.table);
    InvFacts(op, st, Flat(es));
    var f := Check(op, st, es).format;
    assert f == Format(es, AllOperands in es, st.allOperandTypes, st.allResultTypes, operands.table, operands.sources,
           results.sources);
    hide ResolveResults, ResolveOperands, Resolvers, AttrsOk, WfElement, Check, Inv, RefSeen;
    SourcesFit(op, st, args, results, operands);
  }

  lemma SourcesFit(op: OpInfo, st: St, args: set<Element>, results: Resolved, operands: Resolved)
    requires Good(op, args, op.results, st.allResultTypes, st.resultTypes, 0, [], results)
    requires Good(op, args, op.operands, st.allOperandTypes, st.operandTypes, 0, results.table, operands)
    ensures Distinct(operands.table) && |operands.sources| == |op.operands| && |results.sources| == |op.results|
    ensures forall j :: 0 <= j < |op.operands| ==>
              SourceOk(op, args, st.allOperandTypes || j in st.operandTypes, op.operands[j].builder,
                       operands.table, operands.sources[j])
    ensures forall j :: 0 <= j < |op.results| ==>
              SourceOk(op, args, st.allResultTypes || j in st.resultTypes, op.results[j].builder,
                       operands.table, results.sources[j])
  {
    hide RefSeen, Distinct;
    forall j | 0 <= j < |op.results|
      ensures SourceOk(op, args, st.allResultTypes || j in st.resultTypes, op.results[j].builder, operands.table,
              results.sources[j])
    {
      assert SourceOk(op, args, st.allResultTypes || j in st.resultTypes, op.results[j].builder, results.table,
             results.sources[j - 0]);
    }
    forall j | 0 <= j < |op.operands|
      ensures SourceOk(op, args, st.allOperandTypes || j in st.operandTypes, op.operands[j].builder, operands.table,
              operands.sources[j])
    {
      assert SourceOk(op, args, st.allOperandTypes || j in st.operandTypes, op.operands[j].builder, operands.table,
             operands.sources[j - 0]);
    }
  }

  lemma InvFacts(op: OpInfo, st: St, ls: set<Element>)
    requires Inv(op, st, ls)
    ensures var args := ArgsOf(ls);
            && (forall i: nat :: (i in st.operandTypes) == (OperandVar(i) in args))
            && (forall i: nat :: (i in st.resultTypes) == (ResultVar(i) in args))
            && (forall i: nat :: (i in st.operands) == (OperandVar(i) in ls))
            && (forall i: nat :: (i in st.successors) == (SuccessorVar(i) in ls))
               && (forall i: nat :: (i in st.regions) == (RegionVar(i) in ls))
            && st.allOperandTypes == (AllOperands in args) && st.allResultTypes == (AllResults in args)
            && st.hasAllOperands == (AllOperands in ls || st.allOperandTypes)
               && st.hasAllSuccessors == (AllSuccessors in ls)
            && (st.allOperandTypes ==> st.operandTypes == {}) && (st.allResultTypes ==> st.resultTypes == {})
            && (AllOperands in ls ==> st.operands == {})
  {
  }
}
