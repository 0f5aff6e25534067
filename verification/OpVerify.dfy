/** Registering an op, and verifying concrete ops. */
module OpVerify {
  // Traits are attached to an op from its spec, and an op is verified by running them in order.

  import opened ValueGroups
  import opened ValueSides
  import opened ConstraintLists

  datatype What = Operands | Results | Regions | Successors

  /** A region or successor constraint. */
  datatype Entry = Entry(base: nat, variadic: bool, valid: bool)

  /** `Other` traits are of no concern here: each is a predicate on ops. */
  datatype Trait =
    | N(what: What, n: nat)
    | AtLeast(what: What, n: nat)
    | SameSizes(what: What)
    | Segments(what: What)
    | Types(operands: seq<Ty>, results: seq<Ty>)
    | Attrs(attrs: nat)
    | RegionConstraints(cs: seq<Entry>)
    | SuccessorConstraints(cs: seq<Entry>)
    | Other(other: nat, arg: nat)

  datatype Name = NN(what: What) | AtLeastN(what: What) | SameSizesN(what: What) | SegmentsN(what: What)
                | TypesN | AttrsN | RegionsN | SuccessorsN | OtherN(other: nat)

  function NameOf(t: Trait): Name {
    match t
    case N(w, _) => NN(w)
    case AtLeast(w, _) => AtLeastN(w)
    case SameSizes(w) => SameSizesN(w)
    case Segments(w) => SegmentsN(w)
    case Types(_, _) => TypesN
    case Attrs(_) => AttrsN
    case RegionConstraints(_) => RegionsN
    case SuccessorConstraints(_) => SuccessorsN
    case Other(o, _) => OtherN(o)
  }

  const IS_TERMINATOR: nat := 0

  // ----- Concrete ops

  datatype Op = Op(operands: seq<nat>, results: seq<nat>, regions: seq<nat>, successors: seq<nat>,
                   operandSegs: Option<seq<nat>>, resultSegs: Option<seq<nat>>, id: nat)

  /** What constraints and other traits mean. */
  datatype Env = Env(ok: (nat, nat) -> bool, region: (nat, nat) -> bool, successor: (nat, nat) -> bool,
                     attrs: (nat, Op) -> bool, other: (nat, nat, Op) -> bool)

  function Size(op: Op, w: What): nat {
    match w
    case Operands => |op.operands|
    case Results => |op.results|
    case Regions => |op.regions|
    case Successors => |op.successors|
  }

  function Lookup(traits: seq<Trait>, name: Name): Option<Trait> {
    if traits == [] then None
    else if NameOf(traits[0]) == name then Some(traits[0])
    else Lookup(traits[1..], name)
  }

  predicate Has(traits: seq<Trait>, name: Name) { Lookup(traits, name).Some? }

  lemma {:induction false} LookupIn(traits: seq<Trait>, name: Name)
    ensures Lookup(traits, name).Some? ==>
              Lookup(traits, name).value in traits && NameOf(Lookup(traits, name).value) == name
    ensures Lookup(traits, name).None? <==> forall t :: t in traits ==> NameOf(t) != name
    decreases |traits|
  {
    if traits != [] {
      LookupIn(traits[1..], name);
    }
  }

  /** Sized segments are looked for first. */
  function SizeTraitOf(traits: seq<Trait>, w: What): SizeTrait {
    if Has(traits, SegmentsN(w)) then Sized else if Has(traits, SameSizesN(w)) then Same else NoSize
  }

  function BoolVerdict(b: bool): Verdict { if b then Success else Failure }

  function Then(a: Verdict, b: Verdict): Verdict { if a == Success then b else a }

  function MeaningOf(ok: (nat, nat) -> bool): Meaning<Entry, nat> {
    ConstraintLists.Meaning((e: Entry) => e.valid, (e: Entry) => e.variadic, (e: Entry, v: nat) => ok(e.base, v))
  }

  function TypesOf(t: Trait, w: What): seq<Ty>
    requires t.Types?
  {
    if w == Operands then t.operands else t.results
  }

  function Segs(op: Op, w: What): Option<seq<nat>> { if w == Operands then op.operandSegs else op.resultSegs }

  function Values(op: Op, w: What): seq<nat> { if w == Operands then op.operands else op.results }

  function VerifyTrait(env: Env, all: seq<Trait>, t: Trait, op: Op): Verdict {
    match t
    case N(w, n) => BoolVerdict(Size(op, w) == n)
    case AtLeast(w, n) => BoolVerdict(Size(op, w) >= n)
    case SameSizes(w) =>
      var types := Lookup(all, TypesN);
      if types.None? || !types.value.Types? then Trap
        else SizeCheck(TypesOf(types.value, w), Same, Segs(op, w), Size(op, w))
    case Segments(w) =>
      var types := Lookup(all, TypesN);
      if types.None? || !types.value.Types? then Trap
        else SizeCheck(TypesOf(types.value, w), Sized, Segs(op, w), Size(op, w))
    case Types(operands, results) =>
      Then(TypeCheck(env.ok, operands, SizeTraitOf(all, Operands), op.operandSegs, op.operands),
           TypeCheck(env.ok, results, SizeTraitOf(all, Results), op.resultSegs, op.results))
    case Attrs(a) => BoolVerdict(env.attrs(a, op))
    case RegionConstraints(cs) => ListFrom(MeaningOf(env.region), cs, op.regions, 0)
    case SuccessorConstraints(cs) => ListFrom(MeaningOf(env.successor), cs, op.successors, 0)
    case Other(o, a) => BoolVerdict(env.other(o, a, op))
  }

  /** Traits in order, up to the first that does not succeed. */
  function RunTraits(env: Env, all: seq<Trait>, ts: seq<Trait>, op: Op): Verdict
    decreases |ts|
  {
    if ts == [] then Success else Then(VerifyTrait(env, all, ts[0], op), RunTraits(env, all, ts[1..], op))
  }

  // ----- The registered op

  class DynamicOperation {
    var traits: seq<Trait>

    constructor ()
      ensures traits == []
    {
      traits := [];
    }

    method GetTrait(name: Name) returns (r: Option<Trait>)
      ensures r == Lookup(traits, name)
    {
      var i := 0;
      while i < |traits|
        invariant 0 <= i <= |traits| && Lookup(traits, name) == Lookup(traits[i..], name)
      {
        if NameOf(traits[i]) == name {
          return Some(traits[i]);
        }
        assert traits[i..][1..] == traits[i + 1..];
        i := i + 1;
      }
      r := None;
    }

    /** A second trait of the same name is refused. */
    method AddOpTrait(t: Trait) returns (ok: bool)
      modifies this
      ensures ok == !Has(old(traits), NameOf(t))
      ensures traits == if ok then old(traits) + [t] else old(traits)
    {
      var found := GetTrait(NameOf(t));
      if found.Some? {
        return false;
      }
      traits := traits + [t];
      ok := true;
    }

    method VerifyOpTraits(env: Env, op: Op) returns (r: Verdict)
      ensures r == RunTraits(env, traits, traits, op)
    {
      var i := 0;
      assert traits[0..] == traits;
      while i < |traits|
        invariant 0 <= i <= |traits| && RunTraits(env, traits, traits, op) == RunTraits(env, traits, traits[i..], op)
      {
        assert traits[i..][1..] == traits[i + 1..];
        r := VerifyTrait(env, traits, traits[i], op);
        if r != Success {
          return r;
        }
        i := i + 1;
      }
      r := Success;
    }
  }

  // ----- Specs and their registration

  /** Traits named by the spec: constructed, unknown to the registry, or given bad parameters. */
  datatype UserTrait = Known(t: Trait) | Unknown(id: nat) | BadArgs(name: Name)

  datatype Spec = Spec(operands: seq<Ty>, results: seq<Ty>, regions: seq<Entry>, successors: seq<Entry>, attrs: nat,
      traits: seq<UserTrait>)

  /** The constraint traits are not in the registry. */
  predicate InRegistry(t: Trait) { t.N? || t.AtLeast? || t.SameSizes? || t.Segments? || t.Other? }

  predicate WellFormed(spec: Spec) {
    && (forall u :: u in spec.traits && u.Known? ==>
          InRegistry(u.t) && ((u.t.SameSizes? || u.t.Segments?) ==> u.t.what in {Operands, Results}))
    && |spec.operands| < W && |spec.results| < W
  }

  predicate Names(spec: Spec, name: Name) {
    exists u :: u in spec.traits && ((u.Known? && NameOf(u.t) == name) || (u.BadArgs? && u.name == name))
  }

  predicate SizeTraitsOk(spec: Spec, tys: seq<Ty>, w: What) {
    && !(Names(spec, SameSizesN(w)) && Names(spec, SegmentsN(w)))
    && (NumVariadic(tys) > 0 ==> Names(spec, SameSizesN(w)) || Names(spec, SegmentsN(w)))
  }

  predicate ListOk(cs: seq<Entry>) {
    (forall i :: 0 <= i < |cs| ==> cs[i].valid) && forall i :: 0 <= i < |cs| - 1 ==> !cs[i].variadic
  }

  /** The spec op's own verifier. */
  predicate SpecVerify(spec: Spec) {
    && SizeTraitsOk(spec, spec.operands, Operands) && SizeTraitsOk(spec, spec.results, Results)
    && ListOk(spec.regions) && ListOk(spec.successors)
    && (|spec.successors| > 0 ==> Names(spec, OtherN(IS_TERMINATOR)))
  }

  function KnownTraits(us: seq<UserTrait>): seq<Trait> {
    if us == [] then [] else (if us[0].Known? then [us[0].t] else []) + KnownTraits(us[1..])
  }

  predicate NoBadArgs(us: seq<UserTrait>) { forall u :: u in us ==> !u.BadArgs? }

  predicate Distinct(ts: seq<Trait>) { forall i, j :: 0 <= i < j < |ts| ==> NameOf(ts[i]) != NameOf(ts[j]) }

  predicate IsVariadic(spec: Spec, w: What) { VariadicsOf(spec, w) > 0 }

  function Length(spec: Spec, w: What): nat {
    match w
    case Operands => |spec.operands|
    case Results => |spec.results|
    case Regions => |spec.regions|
    case Successors => |spec.successors|
  }

  function VariadicEntries(cs: seq<Entry>): (r: nat)
    ensures r <= |cs|
  {
    if cs == [] then 0 else (if cs[0].variadic then 1 else 0) + VariadicEntries(cs[1..])
  }

  function VariadicsOf(spec: Spec, w: What): (r: nat)
    ensures r <= Length(spec, w)
  {
    match w
    case Operands => NumVariadic(spec.operands)
    case Results => NumVariadic(spec.results)
    case Regions => VariadicEntries(spec.regions)
    case Successors => VariadicEntries(spec.successors)
  }

  function FixedOf(spec: Spec, w: What): nat { Length(spec, w) - VariadicsOf(spec, w) }

  /** The count trait added for a list: its exact length, or the number of fixed entries unless the
      user has given a lower bound. */
  function CountTrait(spec: Spec, user: seq<Trait>, w: What): (r: seq<Trait>)
    ensures AreCounts(r, {w})
  {
    if !IsVariadic(spec, w) then [N(w, Length(spec, w))]
    else if Has(user, AtLeastN(w)) then []
    else [AtLeast(w, FixedOf(spec, w))]
  }

  predicate AreCounts(ts: seq<Trait>, ws: set<What>) { forall t :: t in ts ==> (t.N? || t.AtLeast?) && t.what in ws }

  predicate CanCount(spec: Spec, user: seq<Trait>, w: What) { IsVariadic(spec, w) || !Has(user, NN(w)) }

  function Constraints(spec: Spec): seq<Trait> {
    [Types(spec.operands, spec.results), Attrs(spec.attrs), RegionConstraints(spec.regions),
      SuccessorConstraints(spec.successors)]
  }

  /** User traits, then counts, then constraints; `None` where registration fails. */
  function Attach(spec: Spec): Option<seq<Trait>> {
    var user := KnownTraits(spec.traits);
    if NoBadArgs(spec.traits) && Distinct(user)
       && CanCount(spec, user, Regions) && CanCount(spec, user, Successors)
       && CanCount(spec, user, Operands) && CanCount(spec, user, Results)
    then Some(user + Counted(spec, user) + Constraints(spec))
    else None
  }

  function Counted(spec: Spec, user: seq<Trait>): seq<Trait> {
    CountTrait(spec, user, Regions) + CountTrait(spec, user, Successors)
    + CountTrait(spec, user, Operands) + CountTrait(spec, user, Results)
  }

  lemma {:induction false} KnownSnoc(us: seq<UserTrait>, i: nat)
    requires i < |us|
    ensures KnownTraits(us[..i + 1]) == KnownTraits(us[..i]) + if us[i].Known? then [us[i].t] else []
    decreases i
  {
    if i == 0 {
      assert us[..1][1..] == [];
    } else {
      KnownSnoc(us[1..], i - 1);
      assert us[..i + 1][1..] == us[1..][..i] && us[..i][1..] == us[1..][..i - 1];
    }
  }

  lemma {:induction false} KnownPrefix(us: seq<UserTrait>, i: nat)
    requires i <= |us|
    ensures KnownTraits(us[..i]) <= KnownTraits(us)
    decreases |us| - i
  {
    if i == |us| {
      assert us[..i] == us;
    } else {
      KnownSnoc(us, i);
      KnownPrefix(us, i + 1);
    }
  }

  lemma {:induction false} KnownAre(us: seq<UserTrait>)
    ensures forall t :: t in KnownTraits(us) <==> Known(t) in us
    decreases |us|
  {
    if us != [] {
      KnownAre(us[1..]);
      assert us == [us[0]] + us[1..];
    }
  }

  lemma DistinctSnoc(ts: seq<Trait>, t: Trait)
    requires Distinct(ts)
    ensures Distinct(ts + [t]) <==> !Has(ts, NameOf(t))
  {
    LookupIn(ts, NameOf(t));
    if Has(ts, NameOf(t)) {
      var i :| 0 <= i < |ts| && ts[i] == Lookup(ts, NameOf(t)).value;
      assert NameOf((ts + [t])[i]) == NameOf((ts + [t])[|ts|]);
    }
  }

  lemma {:induction false} LookupAppend(a: seq<Trait>, b: seq<Trait>, name: Name)
    ensures Lookup(a + b, name) == if Has(a, name) then Lookup(a, name) else Lookup(b, name)
    decreases |a|
  {
    if a == [] {
      assert a + b == b;
    } else {
      assert (a + b)[1..] == a[1..] + b;
      LookupAppend(a[1..], b, name);
    }
  }

  /** The user's traits, one by one. */
  method AddUserTraits(op: DynamicOperation, us: seq<UserTrait>) returns (ok: bool)
    requires op.traits == []
    modifies op
    ensures ok == (NoBadArgs(us) && Distinct(KnownTraits(us)))
    ensures ok ==> op.traits == KnownTraits(us)
  {
    var i := 0;
    while i < |us|
      invariant 0 <= i <= |us| && op.traits == KnownTraits(us[..i]) && Distinct(op.traits)
      invariant forall j :: 0 <= j < i ==> !us[j].BadArgs?
    {
      KnownSnoc(us, i);
      KnownPrefix(us, i + 1);
      match us[i] {
        case Unknown(_) =>
        case BadArgs(_) => return false;
        case Known(t) =>
          DistinctSnoc(op.traits, t);
          var added := op.AddOpTrait(t);
          if !added {
            return false;
          }
      }
      i := i + 1;
    }
    assert us[..i] == us;
    ok := true;
  }

  /** Exact or lower-bound count for one list; `extra` are the counts added before. */
  method AddCount(op: DynamicOperation, spec: Spec, w: What, numVariadic: nat, ghost user: seq<Trait>,
      ghost extra: seq<Trait>, ghost done: set<What>)
    returns (ok: bool)
    requires op.traits == user + extra && AreCounts(extra, done) && w !in done
    requires numVariadic == VariadicsOf(spec, w)
    modifies op
    ensures ok == CanCount(spec, user, w)
    ensures ok ==> op.traits == user + (extra + CountTrait(spec, user, w))
    ensures ok ==> AreCounts(extra + CountTrait(spec, user, w), done + {w})
  {
    LookupIn(extra, NN(w));
    LookupIn(extra, AtLeastN(w));
    LookupAppend(user, extra, NN(w));
    LookupAppend(user, extra, AtLeastN(w));
    ok := true;
    if numVariadic == 0 {
      ok := op.AddOpTrait(N(w, Length(spec, w)));
    } else {
      var bound := op.GetTrait(AtLeastN(w));
      if bound.None? {
        var _ := op.AddOpTrait(AtLeast(w, Length(spec, w) - numVariadic));
      }
    }
    assert user + extra + CountTrait(spec, user, w) == user + (extra + CountTrait(spec, user, w));
    assert extra + [] == extra;
  }

  /** Registration succeeds exactly when `Attach` gives a trait list, which is then the op's. */
  method RegisterOp(spec: Spec) returns (op: DynamicOperation, ok: bool)
    requires WellFormed(spec)
    ensures fresh(op) && ok == Attach(spec).Some?
    ensures ok ==> op.traits == Attach(spec).value
  {
    op := new DynamicOperation();
    ok := AddUserTraits(op, spec.traits);
    if !ok {
      return;
    }
    ghost var user := op.traits;
    assert user + [] == user;
    hide AreCounts, CountTrait, CanCount, Lookup, Distinct, NoBadArgs, IsVariadic, FixedOf, Constraints, NumVariadic,
      VariadicEntries;
    ok := AddCount(op, spec, Regions, VariadicEntries(spec.regions), user, [], {});
    if !ok {
      return;
    }
    ghost var extra := CountTrait(spec, user, Regions);
    assert [] + extra == extra;
    ok := AddCount(op, spec, Successors, VariadicEntries(spec.successors), user, extra, {Regions});
    if !ok {
      return;
    }
    extra := extra + CountTrait(spec, user, Successors);
    ok := AddCount(op, spec, Operands, NumVariadic(spec.operands), user, extra, {Regions, Successors});
    if !ok {
      return;
    }
    extra := extra + CountTrait(spec, user, Operands);
    ok := AddCount(op, spec, Results, NumVariadic(spec.results), user, extra, {Regions, Successors, Operands});
    if !ok {
      return;
    }
    extra := extra + CountTrait(spec, user, Results);
    NoConstraintTraits(spec, user, extra);
    AddConstraints(op, spec, user + extra);
  }

  /** The constraint traits come last, so that counts are checked before them. */
  method AddConstraints(op: DynamicOperation, spec: Spec, ghost before: seq<Trait>)
    requires op.traits == before
    requires forall name :: name in {TypesN, AttrsN, RegionsN, SuccessorsN} ==> Lookup(before, name) == None
    modifies op
    ensures op.traits == before + Constraints(spec)
  {
    var last := Constraints(spec);
    var i := 0;
    while i < 4
      invariant 0 <= i <= 4 && op.traits == before + last[..i]
    {
      LookupAppend(before, last[..i], NameOf(last[i]));
      LookupIn(last[..i], NameOf(last[i]));
      var added := op.AddOpTrait(last[i]);
      assert last[..i] + [last[i]] == last[..i + 1];
      i := i + 1;
    }
    assert last[..4] == last;
  }

  lemma NoConstraintTraits(spec: Spec, user: seq<Trait>, extra: seq<Trait>)
    requires WellFormed(spec) && user == KnownTraits(spec.traits)
             && AreCounts(extra, {Regions, Successors, Operands, Results})
    ensures forall t :: t in user + extra ==> InRegistry(t)
    ensures forall name :: name in {TypesN, AttrsN, RegionsN, SuccessorsN} ==> Lookup(user + extra, name) == None
  {
    KnownAre(spec.traits);
    forall name | name in {TypesN, AttrsN, RegionsN, SuccessorsN}
      ensures Lookup(user + extra, name) == None
    {
      LookupIn(user + extra, name);
    }
  }
}
