/** Exactly which formats are accepted, and where each type then comes from. */
module FormatExact {
  // Said of the elements and of the op: neither the state of the parser nor its tables are mentioned.

  import opened FormatLexer
  import opened FormatGrammar
  import opened FormatAccepted
  import opened FormatSpelling
  import opened FormatResolve

  // ----- Types that a trait gives

  /** The first operand whose type is asked for; without one, and if results count, the first result. */
  ghost predicate IsModel(op: OpInfo, args: set<Element>, results: bool, ref: Ref) {
    match ref
    case OperandRef(i) =>
      i < |op.operands| && OperandVar(i) in args && forall j :: 0 <= j < i ==> OperandVar(j) !in args
    case ResultRef(i) =>
      && results && i < |op.results| && ResultVar(i) in args && (forall j :: 0 <= j < i ==> ResultVar(j) !in args)
      && forall j :: 0 <= j < |op.operands| ==> OperandVar(j) !in args
  }

  /** Some operand of that name is not asked for its type; or some result, if results count. */
  ghost predicate Untyped(op: OpInfo, args: set<Element>, results: bool, name: string) {
    && name != ""
    && ((exists i :: 0 <= i < |op.operands| && OperandVar(i) !in args && op.operands[i].name == name)
        || (results && exists i :: 0 <= i < |op.results| && ResultVar(i) !in args && op.results[i].name == name))
  }

  /** A trait says that the values of that name have the type of `ref`. */
  ghost predicate InferredAs(op: OpInfo, args: set<Element>, name: string, ref: Ref) {
    || (op.sameOperandsAndResults && IsModel(op, args, true, ref) && Untyped(op, args, true, name))
    || (op.sameTypeOperands && IsModel(op, args, false, ref) && Untyped(op, args, false, name))
  }

  ghost predicate Inferred(op: OpInfo, args: set<Element>, name: string) {
    exists ref :: InferredAs(op, args, name, ref)
  }

  // ----- Complete formats

  ghost predicate Resolvable(op: OpInfo, args: set<Element>, own: bool, v: ValueInfo, mayBuild: bool) {
    own || Inferred(op, args, v.name) || (v.builder.Some? && mayBuild)
  }

  predicate ResultTyped(args: set<Element>, i: nat) { AllResults in args || ResultVar(i) in args }

  predicate OperandTyped(args: set<Element>, i: nat) { AllOperands in args || OperandVar(i) in args }

  /** Operands, or their types, asked for all at once. */
  predicate AtOnce(ls: set<Element>) { AllOperands in ls || AllOperands in ArgsOf(ls) }

  ghost predicate ResultsComplete(op: OpInfo, args: set<Element>) {
    forall i :: 0 <= i < |op.results| ==>
      Resolvable(op, args, ResultTyped(args, i), op.results[i], !op.results[i].variadic)
  }

  ghost predicate OperandsComplete(op: OpInfo, ls: set<Element>) {
    forall i :: 0 <= i < |op.operands| ==>
      && (AtOnce(ls) || OperandVar(i) in ls)
      && Resolvable(op, ArgsOf(ls), OperandTyped(ArgsOf(ls), i), op.operands[i],
                    !(AtOnce(ls) && op.operands[i].variadic))
  }

  ghost predicate Complete(op: OpInfo, es: seq<Element>) {
    var ls := Flat(es);
    && (AttrDict(false) in ls || AttrDict(true) in ls) && AttrsOk(op, es)
    && ResultsComplete(op, ArgsOf(ls)) && OperandsComplete(op, ls)
    && (AllSuccessors in ls || forall i :: 0 <= i < |op.successors| ==> SuccessorVar(i) in ls)
    && (forall i :: 0 <= i < |op.regions| ==> RegionVar(i) in ls)
  }

  /** Its own list, else what a trait says, else a built type. */
  ghost predicate SourceIs(op: OpInfo, args: set<Element>, own: bool, v: ValueInfo, table: seq<string>, s: Source) {
    match s
    case OwnList => own
    case SameAs(ref) => !own && InferredAs(op, args, v.name, ref)
    case Built(k) => !own && !Inferred(op, args, v.name) && k < |table| && v.builder == Some(table[k])
  }

  ghost predicate SourcesAre(op: OpInfo, f: Format) {
    var args := ArgsOf(Flat(f.elements));
    && |f.operandTypes| == |op.operands| && |f.resultTypes| == |op.results|
    && (forall i :: 0 <= i < |op.operands| ==>
          SourceIs(op, args, OperandTyped(args, i), op.operands[i], f.table, f.operandTypes[i]))
    && (forall i :: 0 <= i < |op.results| ==>
          SourceIs(op, args, ResultTyped(args, i), op.results[i], f.table, f.resultTypes[i]))
  }

  // ----- The table of names

  lemma {:induction false} BindAllExact(values: seq<ValueInfo>, seen: set<nat>, i: nat, ref: Ref, resolver: Resolver,
      name: string)
    ensures var r := BindAll(values, seen, i, ref, resolver);
            var bound := name != "" && exists j :: i <= j < |values| && j !in seen && values[j].name == name;
            && (name in r <==> bound || name in resolver)
            && (name in r ==> r[name] == if bound then ref else resolver[name])
    decreases |values| - i
  {
    if i < |values| {
      BindAllExact(values, seen, i + 1, ref,
                   if i !in seen && values[i].name != "" then resolver[values[i].name := ref] else resolver, name);
    }
  }

  lemma {:induction false} FirstInExact(s: set<nat>, i: nat, n: nat)
    ensures FirstIn(s, i, n).Some? ==> forall j :: i <= j < FirstIn(s, i, n).value ==> j !in s
    ensures FirstIn(s, i, n).None? ==> forall j :: i <= j < n ==> j !in s
    decreases n - i
  {
    if i < n && i !in s {
      FirstInExact(s, i + 1, n);
    }
  }

  /** One pass over the names: those without a type are bound to the model, if there is one. */
  lemma SameTypesExact(op: OpInfo, st: St, args: set<Element>, resolver: Resolver, results: bool, name: string)
    requires InvTypes(st, args)
    ensures var r := HandleSameTypes(op, st, resolver, results);
            if Untyped(op, args, results, name) && exists ref :: IsModel(op, args, results, ref)
            then name in r && IsModel(op, args, results, r[name])
            else (name in r <==> name in resolver) && (name in r ==> r[name] == resolver[name])
  {
    hide FirstIn, BindAll;
    FirstInExact(st.operandTypes, 0, |op.operands|);
    FirstInExact(st.resultTypes, 0, |op.results|);
    var operand, result := FirstIn(st.operandTypes, 0, |op.operands|), FirstIn(st.resultTypes, 0, |op.results|);
    if operand.Some? || (results && result.Some?) {
      var ref := if operand.Some? then OperandRef(operand.value) else ResultRef(result.value);
      assert IsModel(op, args, results, ref);
      BindAllExact(op.operands, st.operandTypes, 0, ref, resolver, name);
      var some := BindAll(op.operands, st.operandTypes, 0, ref, resolver);
      BindAllExact(op.results, st.resultTypes, 0, ref, some, name);
    } else {
      forall ref
        ensures !IsModel(op, args, results, ref)
      {
      }
    }
  }

  lemma ResolversExact(op: OpInfo, st: St, args: set<Element>, name: string)
    requires InvTypes(st, args)
    ensures var r := Resolvers(op, st);
            (name in r <==> Inferred(op, args, name)) && (name in r ==> InferredAs(op, args, name, r[name]))
  {
    hide HandleSameTypes, IsModel, Untyped, InvTypes;
    var some := if op.sameTypeOperands then HandleSameTypes(op, st, map[], false) else map[];
    if op.sameTypeOperands {
      SameTypesExact(op, st, args, map[], false, name);
    }
    if op.sameOperandsAndResults {
      SameTypesExact(op, st, args, some, true, name);
    }
    var r := Resolvers(op, st);
    if name in r {
      assert InferredAs(op, args, name, r[name]);
    } else {
      forall ref
        ensures !InferredAs(op, args, name, ref)
      {
      }
    }
  }

  // ----- Resolution

  /** What is asked of the values from `i` on, and which sources they get. */
  ghost predicate From(values: seq<ValueInfo>, all: bool, seen: set<nat>, resolver: Resolver, i: nat, r: Resolved) {
    r.Resolved? ==>
      && i <= |values| && |r.sources| == |values| - i
      && forall j :: i <= j < |values| ==>
           var own := all || j in seen;
           && (r.sources[j - i].SameAs? <==> !own && values[j].name in resolver)
           && (r.sources[j - i].SameAs? ==> r.sources[j - i].ref == resolver[values[j].name])
  }

  lemma FromCons(values: seq<ValueInfo>, all: bool, seen: set<nat>, resolver: Resolver, i: nat, s: Source, r: Resolved)
    requires i < |values| && From(values, all, seen, resolver, i + 1, r)
    requires s.SameAs? <==> !(all || i in seen) && values[i].name in resolver
    requires s.SameAs? ==> s.ref == resolver[values[i].name]
    ensures From(values, all, seen, resolver, i, Cons(s, r))
  {
  }

  lemma {:induction false} ResultsFrom(op: OpInfo, st: St, resolver: Resolver, i: nat, table: seq<string>)
    requires i <= |op.results|
    ensures var r := ResolveResults(op, st, resolver, i, table);
            && From(op.results, st.allResultTypes, st.resultTypes, resolver, i, r)
            && (r.Resolved? <==> forall j :: i <= j < |op.results| ==>
                  || st.allResultTypes || j in st.resultTypes || op.results[j].name in resolver
                  || (op.results[j].builder.Some? && !op.results[j].variadic))
    decreases |op.results| - i
  {
    hide IndexOf, Insert;
    if i < |op.results| {
      var v := op.results[i];
      var built := !(st.allResultTypes || i in st.resultTypes) && v.name !in resolver && v.builder.Some?;
      var more := if built then Insert(table, v.builder.value) else table;
      ResultsFrom(op, st, resolver, i + 1, more);
      var rest := ResolveResults(op, st, resolver, i + 1, more);
      var s := if st.allResultTypes || i in st.resultTypes then OwnList
        else if v.name in resolver then SameAs(resolver[v.name])
          else Built(if built then IndexOf(table, v.builder.value) else 0);
      FromCons(op.results, st.allResultTypes, st.resultTypes, resolver, i, s, rest);
      hide From;
    }
  }

  lemma {:induction false} OperandsFrom(op: OpInfo, st: St, resolver: Resolver, i: nat, table: seq<string>)
    requires i <= |op.operands|
    ensures var r := ResolveOperands(op, st, resolver, i, table);
            && From(op.operands, st.allOperandTypes, st.operandTypes, resolver, i, r)
            && (r.Resolved? <==> forall j :: i <= j < |op.operands| ==>
                  && (st.hasAllOperands || j in st.operands)
                  && (|| st.allOperandTypes || j in st.operandTypes || op.operands[j].name in resolver
                      || (op.operands[j].builder.Some? && !(st.hasAllOperands && op.operands[j].variadic))))
    decreases |op.operands| - i
  {
    hide IndexOf, Insert;
    if i < |op.operands| {
      var v := op.operands[i];
      var built := !(st.allOperandTypes || i in st.operandTypes) && v.name !in resolver && v.builder.Some?;
      var more := if built then Insert(table, v.builder.value) else table;
      OperandsFrom(op, st, resolver, i + 1, more);
      var rest := ResolveOperands(op, st, resolver, i + 1, more);
      var s := if st.allOperandTypes || i in st.operandTypes then OwnList
        else if v.name in resolver then SameAs(resolver[v.name])
          else Built(if built then IndexOf(table, v.builder.value) else 0);
      FromCons(op.operands, st.allOperandTypes, st.operandTypes, resolver, i, s, rest);
      hide From;
    }
  }

  lemma CheckExact(op: OpInfo, st: St, es: seq<Element>)
    requires Inv(op, st, Flat(es))
    ensures Check(op, st, es).Accepted? <==> Complete(op, es)
  {
    var args, resolver := ArgsOf(Flat(es)), Resolvers(op, st);
    InvFacts(op, st, Flat(es));
    hide Resolvers, AttrsOk, Inferred, ResolveResults, ResolveOperands, ArgsOf, Flat, WfLeaf;
    forall name
      ensures name in resolver <==> Inferred(op, args, name)
    {
      ResolversExact(op, st, args, name);
    }
    ResultsFrom(op, st, resolver, 0, []);
    var results := ResolveResults(op, st, resolver, 0, []);
    if results.Resolved? {
      OperandsFrom(op, st, resolver, 0, results.table);
    }
    assert st.hasAttrDict == (AttrDict(false) in Flat(es) || AttrDict(true) in Flat(es));
  }

  lemma SideSources(op: OpInfo, args: set<Element>, values: seq<ValueInfo>, all: bool, seen: set<nat>,
      resolver: Resolver, table: seq<string>, r: Resolved, j: nat)
    requires r.Resolved? && From(values, all, seen, resolver, 0, r) && j < |values|
    requires values[j].name in resolver <==> Inferred(op, args, values[j].name)
    requires values[j].name in resolver ==> InferredAs(op, args, values[j].name, resolver[values[j].name])
    requires SourceOk(op, args, all || j in seen, values[j].builder, table, r.sources[j])
    ensures SourceIs(op, args, all || j in seen, values[j], table, r.sources[j])
  {
    hide Inferred, InferredAs, RefSeen;
    assert r.sources[j] == r.sources[j - 0];
  }

  lemma CheckSources(op: OpInfo, st: St, es: seq<Element>)
    requires Inv(op, st, Flat(es)) && (forall e :: e in es ==> WfElement(op, e)) && Check(op, st, es).Accepted?
    ensures SourcesAre(op, Check(op, st, es).format)
  {
    hide Inferred, InferredAs, ArgsOf, Flat, WfElement, Inv, From, SourceOk, SourceIs, Sound;
    var args, resolver := ArgsOf(Flat(es)), Resolvers(op, st);
    var f := Check(op, st, es).format;
    var results := ResolveResults(op, st, resolver, 0, []);
    var operands := ResolveOperands(op, st, resolver, 0, results.table);
    SoundSources(op, st, es);
    InvFacts(op, st, Flat(es));
    InvHasTypes(op, st, Flat(es));
    ResultsFrom(op, st, resolver, 0, []);
    OperandsFrom(op, st, resolver, 0, results.table);
    forall i | 0 <= i < |op.operands|
      ensures SourceIs(op, args, OperandTyped(args, i), op.operands[i], f.table, f.operandTypes[i])
    {
      ResolversExact(op, st, args, op.operands[i].name);
      SideSources(op, args, op.operands, st.allOperandTypes, st.operandTypes, resolver, f.table, operands, i);
    }
    forall i | 0 <= i < |op.results|
      ensures SourceIs(op, args, ResultTyped(args, i), op.results[i], f.table, f.resultTypes[i])
    {
      ResolversExact(op, st, args, op.results[i].name);
      SideSources(op, args, op.results, st.allResultTypes, st.resultTypes, resolver, f.table, results, i);
    }
  }

  lemma SoundSources(op: OpInfo, st: St, es: seq<Element>)
    requires Inv(op, st, Flat(es)) && (forall e :: e in es ==> WfElement(op, e)) && Check(op, st, es).Accepted?
    ensures var f := Check(op, st, es).format;
            var args := ArgsOf(Flat(es));
            && |f.operandTypes| == |op.operands| && |f.resultTypes| == |op.results| && f.elements == es
            && (forall i :: 0 <= i < |op.operands| ==>
                  SourceOk(op, args, OperandTyped(args, i), op.operands[i].builder, f.table, f.operandTypes[i]))
            && (forall i :: 0 <= i < |op.results| ==>
                  SourceOk(op, args, ResultTyped(args, i), op.results[i].builder, f.table, f.resultTypes[i]))
  {
    hide SourceOk, ArgsOf, Flat, Inv, AttrsOk, ResolveResults, ResolveOperands, Resolvers;
    CheckedIsSound(op, st, es);
  }

  lemma InvHasTypes(op: OpInfo, st: St, ls: set<Element>)
    requires Inv(op, st, ls)
    ensures InvTypes(st, ArgsOf(ls))
  {
  }

  /** For every op and token list: the format is accepted exactly when the tokens spell elements that may
      stand where they do and that say enough; and each type comes from where it should. */
  lemma AcceptedExact(op: OpInfo, toks: seq<Tok>)
    requires Ends(toks)
    ensures ParseFormat(op, toks).Accepted? <==>
            && toks[|toks| - 1].kind == Eof
            && exists es :: Formed(op, {}, es) && SpellsList(op, es, toks[..|toks| - 1]) && Complete(op, es)
    ensures ParseFormat(op, toks).Accepted? ==>
              && SourcesAre(op, ParseFormat(op, toks).format)
              && SpellsList(op, ParseFormat(op, toks).format.elements, toks[..|toks| - 1])
  {
    var r := ParseElements(op, Start(toks), []);
    hide ParseElements, Formed, SpellsList, Complete, Check, SourcesAre, Inv;
    if r.Ok? {
      StartInv(op, toks);
      ElementsParsed(op, Start(toks), []);
      ElementsExact(op, toks, r.v);
      CheckExact(op, r.st, r.v);
      if Check(op, r.st, r.v).Accepted? {
        CheckSources(op, r.st, r.v);
        CheckElements(op, r.st, r.v);
      }
    }
    forall es | Formed(op, {}, es) && SpellsList(op, es, toks[..|toks| - 1]) && toks[|toks| - 1].kind == Eof
      ensures r.Ok? && r.v == es
    {
      ElementsExact(op, toks, es);
    }
  }

  lemma CheckElements(op: OpInfo, st: St, es: seq<Element>)
    requires Check(op, st, es).Accepted?
    ensures Check(op, st, es).format.elements == es
  {
  }

  lemma ModelUnique(op: OpInfo, args: set<Element>, a: bool, r: Ref, b: bool, q: Ref)
    requires IsModel(op, args, a, r) && IsModel(op, args, b, q)
    ensures r == q
  {
  }

  /** The source of a type is determined by what the format asks for. */
  lemma SourceUnique(op: OpInfo, args: set<Element>, own: bool, v: ValueInfo, table: seq<string>, s: Source, t: Source)
    requires SourceIs(op, args, own, v, table, s) && SourceIs(op, args, own, v, table, t) && Distinct(table)
    ensures s == t
  {
    hide IsModel, Untyped;
    if s.SameAs? && t.SameAs? {
      var a := op.sameOperandsAndResults && IsModel(op, args, true, s.ref);
      var b := op.sameOperandsAndResults && IsModel(op, args, true, t.ref);
      ModelUnique(op, args, a, s.ref, b, t.ref);
    }
  }
}
