/** Exactly which ops a registered spec accepts. */
module OpAccept {
  // The claim is made on the spec and the op, without the traits that registration attaches.

  import opened ValueGroups
  import opened ValueSides
  import opened ConstraintLists
  import opened OpVerify
  import opened OpSafety

  // ----- What a spec asks of an op

  /** The traits that the user gave and that look at the op alone. */
  predicate TraitMet(env: Env, t: Trait, op: Op) {
    match t
    case N(w, n) => Size(op, w) == n
    case AtLeast(w, n) => Size(op, w) >= n
    case Other(o, a) => env.other(o, a, op)
    case _ => true
  }

  /** The values of one side in groups, one for each declared value: as the attribute says under the
      segment trait, all variadic groups of one size under the equal-size trait. */
  ghost predicate Shaped(spec: Spec, tys: seq<Ty>, w: What, op: Op, sizes: seq<nat>) {
    && Cuts(tys, sizes, |Values(op, w)|)
    && (Names(spec, SegmentsN(w)) ==> Segs(op, w) == Some(sizes))
    && (Names(spec, SameSizesN(w)) ==>
          forall i, j :: 0 <= i < j < |tys| && tys[i].variadic && tys[j].variadic ==> sizes[i] == sizes[j])
  }

  /** Each value satisfies the constraint of the group it is in. */
  ghost predicate SideMet(env: Env, spec: Spec, tys: seq<Ty>, w: What, op: Op) {
    exists sizes: seq<nat> :: Shaped(spec, tys, w, op, sizes)
                              && Pointwise(env.ok, Expand(tys, sizes), Values(op, w))
  }

  /** One entry for each constraint, and any number for a last one that is variadic. */
  ghost predicate ListMet(ok: (nat, nat) -> bool, cs: seq<Entry>, vars: seq<nat>) {
    && (if cs != [] && cs[|cs| - 1].variadic then |vars| >= |cs| - 1 else |vars| == |cs|)
    && forall i :: 0 <= i < |vars| ==> ok(cs[if i < |cs| then i else |cs| - 1].base, vars[i])
  }

  ghost predicate Accepts(env: Env, spec: Spec, op: Op) {
    && (forall u :: u in spec.traits && u.Known? ==> TraitMet(env, u.t, op))
    && SideMet(env, spec, spec.operands, Operands, op) && SideMet(env, spec, spec.results, Results, op)
    && ListMet(env.region, spec.regions, op.regions) && ListMet(env.successor, spec.successors, op.successors)
    && env.attrs(spec.attrs, op)
  }

  // ----- The run of the traits

  lemma {:induction false} RunAll(env: Env, all: seq<Trait>, ts: seq<Trait>, op: Op)
    ensures RunTraits(env, all, ts, op) == Success <==> forall t :: t in ts ==> VerifyTrait(env, all, t, op) == Success
    decreases |ts|
  {
    hide VerifyTrait;
    if ts != [] {
      RunAll(env, all, ts[1..], op);
      assert ts == [ts[0]] + ts[1..];
    }
  }

  ghost predicate FrontPasses(env: Env, spec: Spec, ts: seq<Trait>, op: Op) {
    forall t :: t in Front(spec) ==> VerifyTrait(env, ts, t, op) == Success
  }

  ghost predicate Legal(spec: Spec, ts: seq<Trait>) {
    WellFormed(spec) && SpecVerify(spec) && Attach(spec) == Some(ts) && SpecSafe(spec, ts)
  }

  lemma RunParts(env: Env, spec: Spec, ts: seq<Trait>, op: Op)
    requires Legal(spec, ts)
    ensures RunTraits(env, ts, ts, op) == Success <==>
            && FrontPasses(env, spec, ts, op)
            && VerifyTrait(env, ts, Types(spec.operands, spec.results), op) == Success && env.attrs(spec.attrs, op)
            && VerifyTrait(env, ts, RegionConstraints(spec.regions), op) == Success
            && VerifyTrait(env, ts, SuccessorConstraints(spec.successors), op) == Success
  {
    hide Front, Attach, VerifyTrait, Legal, RunTraits, Constraints;
    InParts(spec, ts);
    RunAll(env, ts, ts, op);
    AttrsVerify(env, spec, ts, op);
  }

  lemma AttrsVerify(env: Env, spec: Spec, ts: seq<Trait>, op: Op)
    ensures VerifyTrait(env, ts, Attrs(spec.attrs), op) == Success <==> env.attrs(spec.attrs, op)
  {
  }

  lemma InParts(spec: Spec, ts: seq<Trait>)
    requires Legal(spec, ts)
    ensures forall t :: t in ts <==>
              || t in Front(spec) || t == Types(spec.operands, spec.results) || t == Attrs(spec.attrs)
              || t == RegionConstraints(spec.regions) || t == SuccessorConstraints(spec.successors)
  {
    hide Front, Attach, SpecSafe, SpecVerify, WellFormed;
    Shape(spec, ts);
  }

  // ----- Sides

  predicate SideOn(spec: Spec, tys: seq<Ty>, w: What) {
    (w == Operands && tys == spec.operands) || (w == Results && tys == spec.results)
  }

  lemma SafeSide(spec: Spec, ts: seq<Trait>, tys: seq<Ty>, w: What)
    requires Legal(spec, ts) && SideOn(spec, tys, w)
    ensures Registered(SideOf(ts, tys, w)) && SideSafe(SideOf(ts, tys, w))
    ensures SizeTraitOf(ts, w) == Sized <==> Names(spec, SegmentsN(w))
    ensures SizeTraitOf(ts, w) == Same <==> Names(spec, SameSizesN(w))
  {
    hide Front, Attach, SideSafe, Registered, ListSafe, ListOk;
    SidesRegistered(spec, ts, tys, w);
    UserNamed(spec, ts, SegmentsN(w));
    UserNamed(spec, ts, SameSizesN(w));
  }

  /** The sizes that the checker uses cut the list. */
  lemma SizesCut(s: Side, segs: Option<seq<nat>>, n: nat)
    requires Registered(s) && SideSafe(s) && n < W && SizeCheck(s.tys, s.size, segs, n) == Success && Counts(s, n)
    ensures Cuts(s.tys, SizesOf(s, segs, n), n)
  {
    match s.size
    case NoSize =>
      EqualSum(s.tys, 1);
      NumVariadicZero(s.tys);
    case Same => EqualSizesCut(s.tys, n);
    case Sized =>
  }

  lemma {:induction false} SameIsEqual(tys: seq<Ty>, sizes: seq<nat>, n: nat, k: nat)
    requires Cuts(tys, sizes, n) && k < |tys| && tys[k].variadic
    requires forall i :: 0 <= i < |tys| && tys[i].variadic ==> sizes[i] == sizes[k]
    ensures sizes == EqualSizes(tys, sizes[k]) && n == Fixed(tys) + NumVariadic(tys) * sizes[k]
  {
    hide Sum, NumVariadic;
    assert sizes == EqualSizes(tys, sizes[k]);
    EqualSum(tys, sizes[k]);
  }

  lemma SpareOf(n: nat, f: nat, v: nat, k: nat)
    requires v > 0 && n == f + v * k && n < W
    ensures (n - f) % W == v * k && (v * k) % v == 0 && (v * k) / v == k
  {
    var q, r := (v * k) / v, (v * k) % v;
    assert r == v * (k - q);
    assert k - q >= 1 ==> v * (k - q) >= v;
    assert k - q <= -1 ==> v * (k - q) + v <= 0;
  }

  /** Groups of one size are those that the equal-size trait computes, and its check lets them pass. */
  lemma EqualGroups(tys: seq<Ty>, sizes: seq<nat>, n: nat)
    requires NumVariadic(tys) > 0 && n < W && Cuts(tys, sizes, n)
    requires forall i, j :: 0 <= i < j < |tys| && tys[i].variadic && tys[j].variadic ==> sizes[i] == sizes[j]
    ensures CheckVariadicValues(tys, n) == Success && sizes == EqualSizes(tys, SegSize(tys, n))
  {
    NumVariadicZero(tys);
    var k :| 0 <= k < |tys| && tys[k].variadic;
    SameIsEqual(tys, sizes, n, k);
    SpareOf(n, Fixed(tys), NumVariadic(tys), sizes[k]);
  }

  lemma {:induction false} CutsAtLeast(tys: seq<Ty>, sizes: seq<nat>, n: nat)
    requires Cuts(tys, sizes, n)
    ensures n >= Fixed(tys) && (NumVariadic(tys) == 0 ==> n == |tys| && sizes == EqualSizes(tys, 1))
    decreases |tys|
  {
    if tys != [] {
      CutsAtLeast(tys[1..], sizes[1..], n - sizes[0]);
      assert sizes == [sizes[0]] + sizes[1..];
      NumVariadicZero(tys);
      assert NumVariadic(tys) == 0 ==> sizes == EqualSizes(tys, 1);
    }
  }

  /** A well-shaped side passes the size checks, with the sizes that the checker will use. */
  lemma ShapedPasses(spec: Spec, ts: seq<Trait>, tys: seq<Ty>, w: What, op: Op, sizes: seq<nat>)
    requires Legal(spec, ts) && SideOn(spec, tys, w) && Fits(op) && Shaped(spec, tys, w, op, sizes)
    ensures Registered(SideOf(ts, tys, w)) && SideSafe(SideOf(ts, tys, w))
    ensures SizeCheck(tys, SizeTraitOf(ts, w), Segs(op, w), Size(op, w)) == Success
    ensures SizesOf(SideOf(ts, tys, w), Segs(op, w), Size(op, w)) == sizes
    ensures Size(op, w) >= FixedOf(spec, w) && (!IsVariadic(spec, w) ==> Size(op, w) == Length(spec, w))
  {
    SafeSide(spec, ts, tys, w);
    CutsAtLeast(tys, sizes, Size(op, w));
    hide Legal, Cuts, NumVariadic, SizeTraitOf, EqualSizes;
    var s := SideOf(ts, tys, w);
    match s.size
    case NoSize =>
    case Same => EqualGroups(tys, sizes, Size(op, w));
    case Sized => assert SegmentsOk(tys, Segs(op, w), Size(op, w));
  }

  /** With the traits before passed, the type check is the claim on that side. */
  lemma SideExactly(env: Env, spec: Spec, ts: seq<Trait>, tys: seq<Ty>, w: What, op: Op)
    requires Legal(spec, ts) && SideOn(spec, tys, w) && Fits(op) && FrontPasses(env, spec, ts, op)
    ensures TypeCheck(env.ok, tys, SizeTraitOf(ts, w), Segs(op, w), Values(op, w)) == Success
            <==> SideMet(env, spec, tys, w, op)
  {
    var s, n, vals := SideOf(ts, tys, w), Size(op, w), Values(op, w);
    SafeSide(spec, ts, tys, w);
    CountsHold(env, spec, ts, op, w);
    SizesHold(env, spec, ts, op, tys, w);
    TypeCheckMeaning(env.ok, s, Segs(op, w), vals);
    SizesCut(s, Segs(op, w), n);
    var used := SizesOf(s, Segs(op, w), n);
    assert Shaped(spec, tys, w, op, used) by {
      UsedShaped(spec, ts, tys, w, op);
    }
    hide Legal, FrontPasses, Shaped, TypeCheck, Pointwise, Expand, Cuts;
    forall sizes | Shaped(spec, tys, w, op, sizes)
      ensures sizes == used
    {
      ShapedPasses(spec, ts, tys, w, op, sizes);
    }
  }

  lemma UsedShaped(spec: Spec, ts: seq<Trait>, tys: seq<Ty>, w: What, op: Op)
    requires Legal(spec, ts) && SideOn(spec, tys, w) && Registered(SideOf(ts, tys, w)) && SideSafe(SideOf(ts, tys, w))
    requires SizeCheck(tys, SizeTraitOf(ts, w), Segs(op, w), Size(op, w)) == Success
    requires Cuts(tys, SizesOf(SideOf(ts, tys, w), Segs(op, w), Size(op, w)), Size(op, w))
    ensures Shaped(spec, tys, w, op, SizesOf(SideOf(ts, tys, w), Segs(op, w), Size(op, w)))
  {
    SafeSide(spec, ts, tys, w);
    hide Legal, Cuts, SizeTraitOf, NumVariadic, Registered, SideSafe;
  }

  // ----- Region and successor lists

  lemma ListExactly(ok: (nat, nat) -> bool, ts: seq<Trait>, cs: seq<Entry>, w: What, vars: seq<nat>)
    requires ListOk(cs) && ListSafe(ts, cs, w) && CountsOf(ts, w, |vars|)
    requires (cs == [] || !cs[|cs| - 1].variadic) ==> |vars| == |cs|
    ensures ListFrom(MeaningOf(ok), cs, vars, 0) == Success <==> ListMet(ok, cs, vars)
  {
    var m := MeaningOf(ok);
    ListExact(m, cs, vars);
    var f := FixedEntries(m, cs);
    assert f == FixedIn(cs) <= |vars|;
    if HasVariadic(m, cs) {
      assert forall j :: 0 <= j < |vars| - f ==> vars[f..][j] == vars[f + j];
      assert AllHold(m, cs[f], vars[f..]) <==> forall i :: f <= i < |vars| ==> ok(cs[f].base, vars[i]) by {
        if AllHold(m, cs[f], vars[f..]) {
          forall i | f <= i < |vars| ensures ok(cs[f].base, vars[i]) {
            assert vars[f..][i - f] == vars[i];
          }
        }
      }
    }
  }

  predicate ListOn(spec: Spec, cs: seq<Entry>, w: What) {
    (w == Regions && cs == spec.regions) || (w == Successors && cs == spec.successors)
  }

  function Vars(op: Op, w: What): seq<nat> { if w == Regions then op.regions else op.successors }

  /** The exact count of a list without a variadic entry is in force. */
  lemma FixedList(env: Env, spec: Spec, ts: seq<Trait>, cs: seq<Entry>, w: What, op: Op)
    requires Legal(spec, ts) && ListOn(spec, cs, w) && FrontPasses(env, spec, ts, op)
    ensures ListOk(cs) && ListSafe(ts, cs, w) && CountsOf(ts, w, Size(op, w))
    ensures (cs == [] || !cs[|cs| - 1].variadic) ==> Size(op, w) == |cs|
  {
    hide Front, Attach, WellFormed, SideSafe, SizeTraitsOk, ListSafe;
    CountsHold(env, spec, ts, op, w);
    CountInForce(spec, ts, w);
    LastCounted(cs);
  }

  lemma ListLength(spec: Spec, ts: seq<Trait>, cs: seq<Entry>, w: What, ok: (nat, nat) -> bool, op: Op)
    requires Legal(spec, ts) && ListOn(spec, cs, w) && ListMet(ok, cs, Vars(op, w))
    ensures Size(op, w) >= FixedOf(spec, w) && (!IsVariadic(spec, w) ==> Size(op, w) == Length(spec, w))
  {
    hide Attach, WellFormed, SideSafe, SizeTraitsOk, ListSafe;
    LastCounted(cs);
  }

  // ----- Acceptance

  /** An op that meets the spec passes every trait before the constraints. */
  lemma MetPasses(env: Env, spec: Spec, ts: seq<Trait>, op: Op)
    requires Legal(spec, ts) && Fits(op) && Accepts(env, spec, op)
    ensures FrontPasses(env, spec, ts, op)
  {
    forall t | t in Front(spec)
      ensures VerifyTrait(env, ts, t, op) == Success
    {
      FrontTrait(env, spec, ts, op, t);
    }
  }

  lemma Lengths(env: Env, spec: Spec, ts: seq<Trait>, op: Op, w: What)
    requires Legal(spec, ts) && Fits(op) && Accepts(env, spec, op)
    ensures Size(op, w) >= FixedOf(spec, w) && (!IsVariadic(spec, w) ==> Size(op, w) == Length(spec, w))
  {
    hide Legal, Shaped, ListMet, FixedOf;
    match w {
      case Operands =>
        var sizes :| Shaped(spec, spec.operands, w, op, sizes);
        ShapedPasses(spec, ts, spec.operands, w, op, sizes);
      case Results =>
        var sizes :| Shaped(spec, spec.results, w, op, sizes);
        ShapedPasses(spec, ts, spec.results, w, op, sizes);
      case Regions => ListLength(spec, ts, spec.regions, w, env.region, op);
      case Successors => ListLength(spec, ts, spec.successors, w, env.successor, op);
    }
  }

  lemma FrontTrait(env: Env, spec: Spec, ts: seq<Trait>, op: Op, t: Trait)
    requires Legal(spec, ts) && Fits(op) && Accepts(env, spec, op) && t in Front(spec)
    ensures VerifyTrait(env, ts, t, op) == Success
  {
    var user := KnownTraits(spec.traits);
    KnownAre(spec.traits);
    if t in user {
      assert Known(t) in spec.traits;
      hide Front, Attach, Constraints;
      Shape(spec, ts);
      if t.SameSizes? || t.Segments? {
        SizeTraitPasses(env, spec, ts, op, t);
      }
    } else {
      CountedTrait(env, spec, ts, op, t);
    }
  }

  lemma SizeTraitPasses(env: Env, spec: Spec, ts: seq<Trait>, op: Op, t: Trait)
    requires Legal(spec, ts) && Fits(op) && Accepts(env, spec, op) && t in Front(spec)
    requires t.SameSizes? || t.Segments?
    ensures VerifyTrait(env, ts, t, op) == Success
  {
    SizeFacts(spec, ts, t);
    hide Legal, Front, Shaped, Lookup, SizeTraitOf, ListMet;
    var tys := if t.what == Operands then spec.operands else spec.results;
    var sizes :| Shaped(spec, tys, t.what, op, sizes);
    ShapedPasses(spec, ts, tys, t.what, op, sizes);
  }

  lemma CountedTrait(env: Env, spec: Spec, ts: seq<Trait>, op: Op, t: Trait)
    requires Legal(spec, ts) && Fits(op) && Accepts(env, spec, op) && t in Counted(spec, KnownTraits(spec.traits))
    ensures VerifyTrait(env, ts, t, op) == Success
  {
    hide Legal, Accepts, CountTrait, KnownTraits, VerifyTrait;
    var user := KnownTraits(spec.traits);
    var w :| t in CountTrait(spec, user, w);
    Lengths(env, spec, ts, op, w);
    CountPasses(env, spec, user, ts, op, t, w);
  }

  lemma CountPasses(env: Env, spec: Spec, user: seq<Trait>, ts: seq<Trait>, op: Op, t: Trait, w: What)
    requires t in CountTrait(spec, user, w)
    requires Size(op, w) >= FixedOf(spec, w) && (!IsVariadic(spec, w) ==> Size(op, w) == Length(spec, w))
    ensures VerifyTrait(env, ts, t, op) == Success
  {
    hide FixedOf, IsVariadic, Lookup;
  }

  /** For every spec that passes its verifier, registers and is safe, and every op: all traits succeed
      exactly when the op is what the spec asks for. */
  lemma AcceptExact(env: Env, spec: Spec, ts: seq<Trait>, op: Op)
    requires WellFormed(spec) && SpecVerify(spec) && Attach(spec) == Some(ts) && SpecSafe(spec, ts) && Fits(op)
    ensures RunTraits(env, ts, ts, op) == Success <==> Accepts(env, spec, op)
  {
    assert Legal(spec, ts);
    hide WellFormed, SpecVerify, Attach, SpecSafe, Legal, FrontPasses;
    RunParts(env, spec, ts, op);
    if FrontPasses(env, spec, ts, op) {
      ConstraintsExactly(env, spec, ts, op);
      UserMet(env, spec, ts, op);
    } else if Accepts(env, spec, op) {
      MetPasses(env, spec, ts, op);
    }
  }

  lemma UserMet(env: Env, spec: Spec, ts: seq<Trait>, op: Op)
    requires Legal(spec, ts) && FrontPasses(env, spec, ts, op)
    ensures forall u :: u in spec.traits && u.Known? ==> TraitMet(env, u.t, op)
  {
    KnownAre(spec.traits);
    hide Legal;
    forall u | u in spec.traits && u.Known?
      ensures TraitMet(env, u.t, op)
    {
      assert u == Known(u.t) && u.t in Front(spec);
    }
  }

  lemma ConstraintsExactly(env: Env, spec: Spec, ts: seq<Trait>, op: Op)
    requires Legal(spec, ts) && Fits(op) && FrontPasses(env, spec, ts, op)
    ensures VerifyTrait(env, ts, Types(spec.operands, spec.results), op) == Success <==>
            SideMet(env, spec, spec.operands, Operands, op) && SideMet(env, spec, spec.results, Results, op)
    ensures VerifyTrait(env, ts, RegionConstraints(spec.regions), op) == Success <==>
            ListMet(env.region, spec.regions, op.regions)
    ensures VerifyTrait(env, ts, SuccessorConstraints(spec.successors), op) == Success <==>
            ListMet(env.successor, spec.successors, op.successors)
  {
    hide Legal, FrontPasses, SideMet, ListMet, TypeCheck, ListFrom, SizeTraitOf, ListOk, ListSafe, CountsOf;
    SideExactly(env, spec, ts, spec.operands, Operands, op);
    SideExactly(env, spec, ts, spec.results, Results, op);
    FixedList(env, spec, ts, spec.regions, Regions, op);
    FixedList(env, spec, ts, spec.successors, Successors, op);
    ListExactly(env.region, ts, spec.regions, Regions, op.regions);
    ListExactly(env.successor, ts, spec.successors, Successors, op.successors);
  }
}
