/** For which specs the assertions in the type, region and successor checkers cannot fail, whatever
    op is verified. */
module OpSafety {
  import opened ValueGroups
  import opened ValueSides
  import opened ConstraintLists
  import opened OpVerify

  function Bound(t: Option<Trait>): Option<nat> {
    if t.Some? && (t.value.N? || t.value.AtLeast?) then Some(t.value.n) else None
  }

  function SideOf(ts: seq<Trait>, tys: seq<Ty>, w: What): Side {
    Side(tys, SizeTraitOf(ts, w), Bound(Lookup(ts, AtLeastN(w))), Bound(Lookup(ts, NN(w))))
  }

  predicate CountsOf(ts: seq<Trait>, w: What, n: nat) { Counts(SideOf(ts, [], w), n) }

  function FixedIn(cs: seq<Entry>): nat { if |cs| > 0 && cs[|cs| - 1].variadic then |cs| - 1 else |cs| }

  /** No count the traits let through leaves a fixed entry without a region or successor. */
  predicate ListSafe(ts: seq<Trait>, cs: seq<Entry>, w: What) {
    forall n :: 0 <= n < FixedIn(cs) ==> !CountsOf(ts, w, n)
  }

  /** To be checked on the spec and its registered traits, before any op is seen. */
  predicate SpecSafe(spec: Spec, ts: seq<Trait>) {
    && SideSafe(SideOf(ts, spec.operands, Operands)) && SideSafe(SideOf(ts, spec.results, Results))
    && ListSafe(ts, spec.regions, Regions) && ListSafe(ts, spec.successors, Successors)
  }

  predicate Fits(op: Op) { |op.operands| < W && |op.results| < W }

  // ----- Which trait traps

  lemma {:induction false} TrapAt(env: Env, all: seq<Trait>, ts: seq<Trait>, op: Op) returns (k: nat)
    requires RunTraits(env, all, ts, op) == Trap
    ensures k < |ts| && VerifyTrait(env, all, ts[k], op) == Trap
    ensures forall j :: 0 <= j < k ==> VerifyTrait(env, all, ts[j], op) == Success
    decreases |ts|
  {
    if VerifyTrait(env, all, ts[0], op) == Trap {
      k := 0;
    } else {
      var i := TrapAt(env, all, ts[1..], op);
      k := i + 1;
      assert forall j :: 0 < j < k ==> ts[j] == ts[1..][j - 1];
    }
  }

  lemma {:induction false} TrapFound(env: Env, all: seq<Trait>, ts: seq<Trait>, op: Op, k: nat)
    requires k < |ts| && VerifyTrait(env, all, ts[k], op) == Trap
    requires forall j :: 0 <= j < k ==> VerifyTrait(env, all, ts[j], op) != Failure
    ensures RunTraits(env, all, ts, op) == Trap
    decreases k
  {
    if k > 0 {
      assert forall j :: 0 <= j < k - 1 ==> ts[1..][j] == ts[j + 1];
      TrapFound(env, all, ts[1..], op, k - 1);
    }
  }

  // ----- What registration leaves behind

  /** The traits before the constraint traits. */
  function Front(spec: Spec): seq<Trait> { KnownTraits(spec.traits) + Counted(spec, KnownTraits(spec.traits)) }

  lemma Shape(spec: Spec, ts: seq<Trait>)
    requires WellFormed(spec) && Attach(spec) == Some(ts)
    ensures ts == Front(spec) + Constraints(spec)
    ensures forall t :: t in Front(spec) ==> InRegistry(t)
    ensures Lookup(ts, TypesN) == Some(Types(spec.operands, spec.results))
  {
    var user := KnownTraits(spec.traits);
    CountedAre(spec, user);
    NoConstraintTraits(spec, user, Counted(spec, user));
    LookupAppend(Front(spec), Constraints(spec), TypesN);
  }

  lemma CountedAre(spec: Spec, user: seq<Trait>)
    ensures AreCounts(Counted(spec, user), {Regions, Successors, Operands, Results})
  {
    hide CountTrait;
  }

  /** A trait found by name, other than the constraints, stands before them. */
  lemma InFront(spec: Spec, ts: seq<Trait>, name: Name)
    requires WellFormed(spec) && Attach(spec) == Some(ts) && name !in {TypesN, AttrsN, RegionsN, SuccessorsN}
    ensures Lookup(ts, name) == Lookup(Front(spec), name)
    ensures Lookup(ts, name).Some? ==> Lookup(ts, name).value in Front(spec) && NameOf(Lookup(ts, name).value) == name
  {
    Shape(spec, ts);
    hide Front, Attach, Lookup, Constraints;
    LookupAppend(Front(spec), Constraints(spec), name);
    LookupIn(Front(spec), name);
    NotConstraint(spec, name);
  }

  lemma NotConstraint(spec: Spec, name: Name)
    requires name !in {TypesN, AttrsN, RegionsN, SuccessorsN}
    ensures Lookup(Constraints(spec), name) == None
  {
    LookupIn(Constraints(spec), name);
  }

  lemma UserNamed(spec: Spec, ts: seq<Trait>, name: Name)
    requires WellFormed(spec) && Attach(spec) == Some(ts) && (name.SameSizesN? || name.SegmentsN?)
    ensures Has(ts, name) <==> Names(spec, name)
  {
    InFront(spec, ts, name);
    var user := KnownTraits(spec.traits);
    CountedAre(spec, user);
    LookupAppend(user, Counted(spec, user), name);
    LookupIn(Counted(spec, user), name);
    LookupIn(user, name);
    KnownAre(spec.traits);
    if Names(spec, name) {
      assert exists t :: Known(t) in spec.traits && NameOf(t) == name;
      var t :| Known(t) in spec.traits && NameOf(t) == name;
      assert t in user;
    }
  }

  /** The count trait of a list is in force. */
  lemma CountInForce(spec: Spec, ts: seq<Trait>, w: What)
    requires WellFormed(spec) && Attach(spec) == Some(ts)
    ensures if IsVariadic(spec, w) then Bound(Lookup(ts, AtLeastN(w))).Some?
            else Bound(Lookup(ts, NN(w))) == Some(Length(spec, w))
  {
    var user := KnownTraits(spec.traits);
    var name := if IsVariadic(spec, w) then AtLeastN(w) else NN(w);
    InFront(spec, ts, name);
    LookupAppend(user, Counted(spec, user), name);
    if !Has(user, name) {
      CountedLookup(spec, user, w);
    } else {
      LookupIn(user, name);
    }
  }

  lemma CountedLookup(spec: Spec, user: seq<Trait>, w: What)
    ensures !IsVariadic(spec, w) ==> Lookup(Counted(spec, user), NN(w)) == Some(N(w, Length(spec, w)))
    ensures IsVariadic(spec, w) && !Has(user, AtLeastN(w))
            ==> Lookup(Counted(spec, user), AtLeastN(w)) == Some(AtLeast(w, FixedOf(spec, w)))
    ensures IsVariadic(spec, w) ==> !Has(Counted(spec, user), NN(w))
    ensures !IsVariadic(spec, w) ==> !Has(Counted(spec, user), AtLeastN(w))
  {
    CountedName(spec, user, w, NN(w));
    CountedName(spec, user, w, AtLeastN(w));
    LookupOne(CountTrait(spec, user, w), NN(w));
    LookupOne(CountTrait(spec, user, w), AtLeastN(w));
  }

  lemma LookupOne(ts: seq<Trait>, name: Name)
    requires |ts| <= 1
    ensures Lookup(ts, name) == if ts != [] && NameOf(ts[0]) == name then Some(ts[0]) else None
  {
    if ts != [] {
      assert ts[1..] == [];
    }
  }

  lemma CountedName(spec: Spec, user: seq<Trait>, w: What, name: Name)
    requires name == NN(w) || name == AtLeastN(w)
    ensures Lookup(Counted(spec, user), name) == Lookup(CountTrait(spec, user, w), name)
  {
    hide CountTrait;
    var r, s, o, e := CountTrait(spec, user, Regions), CountTrait(spec, user, Successors),
        CountTrait(spec, user, Operands), CountTrait(spec, user, Results);
    LookupAppend(r + s + o, e, name);
    LookupAppend(r + s, o, name);
    LookupAppend(r, s, name);
    LookupIn(r, name);
    LookupIn(s, name);
    LookupIn(o, name);
    LookupIn(e, name);
  }

  lemma SidesRegistered(spec: Spec, ts: seq<Trait>, tys: seq<Ty>, w: What)
    requires WellFormed(spec) && SpecVerify(spec) && Attach(spec) == Some(ts)
    requires (w == Operands && tys == spec.operands) || (w == Results && tys == spec.results)
    ensures Registered(SideOf(ts, tys, w))
  {
    CountInForce(spec, ts, w);
    UserNamed(spec, ts, SameSizesN(w));
    UserNamed(spec, ts, SegmentsN(w));
  }

  // ----- The checks before have succeeded

  lemma Earlier(env: Env, spec: Spec, ts: seq<Trait>, op: Op, name: Name)
    requires WellFormed(spec) && Attach(spec) == Some(ts) && name !in {TypesN, AttrsN, RegionsN, SuccessorsN}
    requires forall t :: t in Front(spec) ==> VerifyTrait(env, ts, t, op) == Success
    ensures Has(ts, name) ==>
              NameOf(Lookup(ts, name).value) == name && VerifyTrait(env, ts, Lookup(ts, name).value, op) == Success
  {
    InFront(spec, ts, name);
  }

  lemma CountsHold(env: Env, spec: Spec, ts: seq<Trait>, op: Op, w: What)
    requires WellFormed(spec) && Attach(spec) == Some(ts)
    requires forall t :: t in Front(spec) ==> VerifyTrait(env, ts, t, op) == Success
    ensures CountsOf(ts, w, Size(op, w))
  {
    Earlier(env, spec, ts, op, AtLeastN(w));
    Earlier(env, spec, ts, op, NN(w));
  }

  lemma SizesHold(env: Env, spec: Spec, ts: seq<Trait>, op: Op, tys: seq<Ty>, w: What)
    requires WellFormed(spec) && Attach(spec) == Some(ts)
    requires (w == Operands && tys == spec.operands) || (w == Results && tys == spec.results)
    requires forall t :: t in Front(spec) ==> VerifyTrait(env, ts, t, op) == Success
    ensures SizeCheck(tys, SizeTraitOf(ts, w), Segs(op, w), Size(op, w)) == Success
  {
    hide Front, Attach, WellFormed, Constraints, Lookup, SegmentsOk, NumVariadic;
    Shape(spec, ts);
    Earlier(env, spec, ts, op, SameSizesN(w));
    Earlier(env, spec, ts, op, SegmentsN(w));
  }

  lemma TypesSafe(env: Env, spec: Spec, ts: seq<Trait>, op: Op, tys: seq<Ty>, w: What)
    requires WellFormed(spec) && SpecVerify(spec) && Attach(spec) == Some(ts) && Fits(op)
    requires (w == Operands && tys == spec.operands) || (w == Results && tys == spec.results)
    requires SideSafe(SideOf(ts, tys, w))
    requires forall t :: t in Front(spec) ==> VerifyTrait(env, ts, t, op) == Success
    ensures TypeCheck(env.ok, tys, SizeTraitOf(ts, w), Segs(op, w), Values(op, w)) != Trap
  {
    SidesRegistered(spec, ts, tys, w);
    CountsHold(env, spec, ts, op, w);
    SizesHold(env, spec, ts, op, tys, w);
    TypeCheckSafe(env.ok, SideOf(ts, tys, w), Segs(op, w), Values(op, w));
  }

  lemma ListNeverTraps(ok: (nat, nat) -> bool, ts: seq<Trait>, cs: seq<Entry>, w: What, vars: seq<nat>)
    requires ListOk(cs) && ListSafe(ts, cs, w) && CountsOf(ts, w, |vars|)
    ensures ListFrom(MeaningOf(ok), cs, vars, 0) != Trap
  {
    ListExact(MeaningOf(ok), cs, vars);
  }

  lemma FromUser(spec: Spec, t: Trait)
    requires t in Front(spec) && (t.SameSizes? || t.Segments?)
    ensures Known(t) in spec.traits
  {
    CountedAre(spec, KnownTraits(spec.traits));
    KnownAre(spec.traits);
  }

  /** A size trait came from the user, and is the one the type checker will find. */
  lemma SizeFacts(spec: Spec, ts: seq<Trait>, t: Trait)
    requires WellFormed(spec) && SpecVerify(spec) && Attach(spec) == Some(ts) && t in Front(spec)
             && (t.SameSizes? || t.Segments?)
    ensures t.what in {Operands, Results} && SizeTraitOf(ts, t.what) == (if t.Segments? then Sized else Same)
    ensures Lookup(ts, TypesN) == Some(Types(spec.operands, spec.results))
  {
    var w := t.what;
    FromUser(spec, t);
    Shape(spec, ts);
    UserNamed(spec, ts, SameSizesN(w));
    UserNamed(spec, ts, SegmentsN(w));
    hide Front, Attach, Lookup, Counted, Constraints;
    assert Names(spec, NameOf(t));
  }

  lemma FrontSafe(env: Env, spec: Spec, ts: seq<Trait>, op: Op, t: Trait)
    requires WellFormed(spec) && SpecVerify(spec) && Attach(spec) == Some(ts) && SpecSafe(spec, ts) && t in Front(spec)
    ensures VerifyTrait(env, ts, t, op) != Trap
  {
    hide Front, Attach, Lookup, Counted, Constraints, WellFormed, SpecVerify, SizeTraitOf, ListSafe, SegmentsOk;
    Shape(spec, ts);
    if t.SameSizes? || t.Segments? {
      SizeFacts(spec, ts, t);
      SizeTrips(env, spec, ts, op, t);
    } else {
      hide SpecSafe;
      assert InRegistry(t);
    }
  }

  /** A size trait trips only on a list without a variadic entry. */
  lemma SizeTrips(env: Env, spec: Spec, ts: seq<Trait>, op: Op, t: Trait)
    requires Lookup(ts, TypesN) == Some(Types(spec.operands, spec.results)) && (t.SameSizes? || t.Segments?)
    requires t.what in {Operands, Results}
    ensures VerifyTrait(env, ts, t, op) == Trap <==> t.SameSizes? && VariadicsOf(spec, t.what) == 0
  {
    hide Lookup, SegmentsOk, NumVariadic;
  }

  /** For every spec that passes its verifier and registers, and meets the condition: verifying any
      concrete op, under any meaning of its constraints and other traits, trips no assertion. */
  lemma NeverTrips(env: Env, spec: Spec, ts: seq<Trait>, op: Op)
    requires WellFormed(spec) && SpecVerify(spec) && Attach(spec) == Some(ts) && SpecSafe(spec, ts) && Fits(op)
    ensures RunTraits(env, ts, ts, op) != Trap
  {
    if RunTraits(env, ts, ts, op) == Trap {
      var k := TrapAt(env, ts, ts, op);
      Shape(spec, ts);
      var front := Front(spec);
      hide Front, Constraints, Attach, WellFormed, SpecVerify, SpecSafe, RunTraits, VerifyTrait;
      if k < |front| {
        assert ts[k] == front[k];
        FrontSafe(env, spec, ts, op, ts[k]);
      } else {
        AllBefore(env, ts, front, op, k);
        LastSafe(env, spec, ts, op, k - |front|);
      }
    }
  }

  lemma AllBefore(env: Env, ts: seq<Trait>, front: seq<Trait>, op: Op, k: nat)
    requires front <= ts && |front| <= k
    requires forall j :: 0 <= j < k && j < |ts| ==> VerifyTrait(env, ts, ts[j], op) == Success
    ensures forall t :: t in front ==> VerifyTrait(env, ts, t, op) == Success
  {
    hide VerifyTrait;
    forall t | t in front
      ensures VerifyTrait(env, ts, t, op) == Success
    {
      var j :| 0 <= j < |front| && front[j] == t;
      assert ts[j] == t;
    }
  }

  lemma LastSafe(env: Env, spec: Spec, ts: seq<Trait>, op: Op, k: nat)
    requires WellFormed(spec) && SpecVerify(spec) && Attach(spec) == Some(ts) && SpecSafe(spec, ts) && Fits(op) && k < 4
    requires forall t :: t in Front(spec) ==> VerifyTrait(env, ts, t, op) == Success
    ensures VerifyTrait(env, ts, Constraints(spec)[k], op) != Trap
  {
    hide Front, Attach, SpecVerify, WellFormed, SpecSafe, VerifyTrait;
    if k == 0 {
      TypesTraitSafe(env, spec, ts, op);
    } else if k == 1 {
      AttrsSafe(env, spec, ts, op);
    } else {
      ListTraitsSafe(env, spec, ts, op);
    }
  }

  lemma AttrsSafe(env: Env, spec: Spec, ts: seq<Trait>, op: Op)
    ensures VerifyTrait(env, ts, Attrs(spec.attrs), op) != Trap
  {
  }

  lemma TypesTraitSafe(env: Env, spec: Spec, ts: seq<Trait>, op: Op)
    requires WellFormed(spec) && SpecVerify(spec) && Attach(spec) == Some(ts) && SpecSafe(spec, ts) && Fits(op)
    requires forall t :: t in Front(spec) ==> VerifyTrait(env, ts, t, op) == Success
    ensures VerifyTrait(env, ts, Types(spec.operands, spec.results), op) != Trap
  {
    hide Front, Attach, SpecVerify, WellFormed, TypeCheck, SideSafe, SizeTraitOf;
    TypesSafe(env, spec, ts, op, spec.operands, Operands);
    TypesSafe(env, spec, ts, op, spec.results, Results);
  }

  lemma ListTraitsSafe(env: Env, spec: Spec, ts: seq<Trait>, op: Op)
    requires WellFormed(spec) && SpecVerify(spec) && Attach(spec) == Some(ts) && SpecSafe(spec, ts)
    requires forall t :: t in Front(spec) ==> VerifyTrait(env, ts, t, op) == Success
    ensures VerifyTrait(env, ts, RegionConstraints(spec.regions), op) != Trap
    ensures VerifyTrait(env, ts, SuccessorConstraints(spec.successors), op) != Trap
  {
    hide Front, Attach, WellFormed, SideSafe, SizeTraitsOk, ListSafe, ListOk, CountsOf, ListFrom;
    CountsHold(env, spec, ts, op, Regions);
    CountsHold(env, spec, ts, op, Successors);
    ListNeverTraps(env.region, ts, spec.regions, Regions, op.regions);
    ListNeverTraps(env.successor, ts, spec.successors, Successors, op.successors);
  }

  // ----- A check on the spec alone

  /** The user's lower bounds cover the fixed entries, and equal-size traits stand on lists with a
      variadic entry. */
  predicate Covered(spec: Spec) {
    forall u :: u in spec.traits && u.Known? ==>
      && (u.t.AtLeast? ==> u.t.n >= FixedOf(spec, u.t.what)) && (u.t.SameSizes? ==> IsVariadic(spec, u.t.what))
  }

  lemma {:induction false} LastCounted(cs: seq<Entry>)
    requires forall i :: 0 <= i < |cs| - 1 ==> !cs[i].variadic
    ensures |cs| - VariadicEntries(cs) == FixedIn(cs)
    decreases |cs|
  {
    if |cs| > 1 {
      assert cs[1..][|cs| - 2] == cs[|cs| - 1];
      LastCounted(cs[1..]);
    } else if |cs| == 1 {
      assert cs[1..] == [];
    }
  }

  /** The lower bound in force covers the fixed entries too. */
  lemma CoveredInForce(spec: Spec, ts: seq<Trait>, w: What)
    requires WellFormed(spec) && Attach(spec) == Some(ts) && Covered(spec)
    ensures if IsVariadic(spec, w)
            then Bound(Lookup(ts, AtLeastN(w))).Some? && Bound(Lookup(ts, AtLeastN(w))).value >= FixedOf(spec, w)
            else Bound(Lookup(ts, NN(w))) == Some(Length(spec, w))
  {
    var user, name := KnownTraits(spec.traits), AtLeastN(w);
    CountInForce(spec, ts, w);
    InFront(spec, ts, name);
    KnownAre(spec.traits);
    CountedLookup(spec, user, w);
    hide Counted, CountTrait, KnownTraits, Attach;
    LookupAppend(user, Counted(spec, user), name);
    LookupIn(user, name);
  }

  lemma CoveredSide(spec: Spec, ts: seq<Trait>, tys: seq<Ty>, w: What)
    requires WellFormed(spec) && SpecVerify(spec) && Attach(spec) == Some(ts) && Covered(spec)
    requires (w == Operands && tys == spec.operands) || (w == Results && tys == spec.results)
    ensures SideSafe(SideOf(ts, tys, w))
  {
    var s := SideOf(ts, tys, w);
    if s.size == Same {
      InFront(spec, ts, SameSizesN(w));
      FromUser(spec, Lookup(ts, SameSizesN(w)).value);
      assert IsVariadic(spec, w);
      CoveredInForce(spec, ts, w);
      CoveredIsSafe(s);
    }
  }

  lemma CoveredList(spec: Spec, ts: seq<Trait>, cs: seq<Entry>, w: What)
    requires WellFormed(spec) && SpecVerify(spec) && Attach(spec) == Some(ts) && Covered(spec)
    requires (w == Regions && cs == spec.regions) || (w == Successors && cs == spec.successors)
    ensures ListSafe(ts, cs, w)
  {
    CoveredInForce(spec, ts, w);
    LastCounted(cs);
  }

  /** For every such spec and every op: no assertion fails. */
  lemma CoveredNeverTrips(env: Env, spec: Spec, ts: seq<Trait>, op: Op)
    requires WellFormed(spec) && SpecVerify(spec) && Attach(spec) == Some(ts) && Covered(spec) && Fits(op)
    ensures RunTraits(env, ts, ts, op) != Trap
  {
    CoveredSide(spec, ts, spec.operands, Operands);
    CoveredSide(spec, ts, spec.results, Results);
    CoveredList(spec, ts, spec.regions, Regions);
    CoveredList(spec, ts, spec.successors, Successors);
    NeverTrips(env, spec, ts, op);
  }
}
