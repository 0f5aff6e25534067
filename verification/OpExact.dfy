/** Exactly when no op trips. */
module OpExact {
  // Specs that meet the condition of `OpSafety`, or whose traits contradict each other, so that every
  // op is refused before an assertion is reached.

  import opened ValueGroups
  import opened ValueSides
  import opened ConstraintLists
  import opened OpVerify
  import opened OpSafety

  // ----- Traits that no op meets

  function TysOf(spec: Spec, w: What): seq<Ty> { if w == Operands then spec.operands else spec.results }

  /** An equal-size trait without a variadic entry fails its assertion on every op it is run on. */
  predicate Bare(spec: Spec, t: Trait) { t.SameSizes? && NumVariadic(TysOf(spec, t.what)) == 0 }

  /** The traits before the first such one. */
  function Gate(spec: Spec, front: seq<Trait>): seq<Trait> {
    if front == [] || Bare(spec, front[0]) then [] else [front[0]] + Gate(spec, front[1..])
  }

  lemma {:induction false} GateIs(spec: Spec, front: seq<Trait>)
    ensures var g := Gate(spec, front);
            g <= front && (forall t :: t in g ==> !Bare(spec, t)) && (|g| < |front| ==> Bare(spec, front[|g|]))
    decreases |front|
  {
    if front != [] && !Bare(spec, front[0]) {
      GateIs(spec, front[1..]);
    }
  }

  /** The traits that concern one of the lists. */
  predicate OnList(t: Trait) { t.N? || t.AtLeast? || t.SameSizes? || t.Segments? }

  /** What a trait asks of a list of `n`. */
  predicate Holds(spec: Spec, t: Trait, w: What, n: nat, segs: Option<seq<nat>>) {
    match t
    case N(v, m) => v == w ==> n == m
    case AtLeast(v, m) => v == w ==> n >= m
    case SameSizes(v) => v == w ==> CheckVariadicValues(TysOf(spec, w), n) == Success
    case Segments(v) => v == w ==> SegmentsOk(TysOf(spec, w), segs, n)
    case _ => true
  }

  predicate Met(spec: Spec, ts: seq<Trait>, w: What, n: nat, segs: Option<seq<nat>>) {
    (w in {Operands, Results} ==> n < W) && forall t :: t in ts ==> Holds(spec, t, w, n, segs)
  }

  /** Some length of list `w` meets all of the traits. */
  ghost predicate Admits(spec: Spec, ts: seq<Trait>, w: What) {
    exists n: nat, segs: Option<seq<nat>> :: Met(spec, ts, w, n, segs)
  }

  /** Whatever the op, one of the traits before the first bare one refuses it. */
  ghost predicate Shut(spec: Spec) { exists w :: !Admits(spec, Gate(spec, Front(spec)), w) }

  lemma TraitVerdict(env: Env, spec: Spec, ts: seq<Trait>, op: Op, t: Trait)
    requires WellFormed(spec) && SpecVerify(spec) && Attach(spec) == Some(ts) && t in Front(spec)
    ensures VerifyTrait(env, ts, t, op) == Trap <==> Bare(spec, t)
    ensures OnList(t) && VerifyTrait(env, ts, t, op) == Success
            ==> Holds(spec, t, t.what, Size(op, t.what), Segs(op, t.what))
  {
    hide Front, Attach, Lookup, Counted, Constraints, WellFormed, SpecVerify, SizeTraitOf, SegmentsOk, NumVariadic;
    Shape(spec, ts);
    if t.SameSizes? || t.Segments? {
      SizeFacts(spec, ts, t);
    }
  }

  /** If the traits in front shut every op out, none reaches an assertion. */
  lemma ShutNeverTrips(env: Env, spec: Spec, ts: seq<Trait>, op: Op)
    requires WellFormed(spec) && SpecVerify(spec) && Attach(spec) == Some(ts) && Shut(spec) && Fits(op)
    ensures RunTraits(env, ts, ts, op) != Trap
  {
    if RunTraits(env, ts, ts, op) == Trap {
      var k := TrapAt(env, ts, ts, op);
      Shape(spec, ts);
      var gate := Gate(spec, Front(spec));
      GateIs(spec, Front(spec));
      var w :| !Admits(spec, gate, w);
      forall i | 0 <= i < |gate|
        ensures gate[i] == ts[i] && VerifyTrait(env, ts, gate[i], op) != Trap
      {
        TraitVerdict(env, spec, ts, op, gate[i]);
      }
      assert k >= |gate|;
      AllMet(env, spec, ts, op, gate, w);
      assert false;
    }
  }

  lemma AllMet(env: Env, spec: Spec, ts: seq<Trait>, op: Op, gate: seq<Trait>, w: What)
    requires WellFormed(spec) && SpecVerify(spec) && Attach(spec) == Some(ts) && Fits(op) && gate <= Front(spec)
    requires forall i :: 0 <= i < |gate| ==> VerifyTrait(env, ts, gate[i], op) == Success
    ensures Met(spec, gate, w, Size(op, w), Segs(op, w))
  {
    forall i | 0 <= i < |gate|
      ensures Holds(spec, gate[i], w, Size(op, w), Segs(op, w))
    {
      TraitVerdict(env, spec, ts, op, gate[i]);
      hide Front, Attach, WellFormed, SpecVerify, VerifyTrait;
    }
  }

  // ----- An op that trips an assertion

  ghost predicate Accepting(ok: (nat, nat) -> bool) { forall c, t :: ok(c, t) }

  lemma {:induction false} GroupsAccept(ok: (nat, nat) -> bool, tys: seq<Ty>, sizes: seq<nat>, vals: seq<nat>, idx: nat)
    requires Accepting(ok)
    ensures GroupsFrom(ok, tys, sizes, vals, idx) != Failure
    decreases |tys| - idx
  {
    if idx < |tys| {
      GroupsAccept(ok, tys, sizes, vals, idx + 1);
    }
  }

  lemma {:induction false} RangeAccepts(ok: (nat, nat) -> bool, tys: seq<Ty>, vals: seq<nat>, i: nat)
    requires Accepting(ok)
    ensures RangeFrom(ok, tys, vals, i) != Failure
    decreases |tys| - i
  {
    if i < |tys| && i < |vals| {
      RangeAccepts(ok, tys, vals, i + 1);
    }
  }

  lemma TypeCheckAccepts(ok: (nat, nat) -> bool, tys: seq<Ty>, size: SizeTrait, segs: Option<seq<nat>>, vals: seq<nat>)
    requires Accepting(ok)
    ensures TypeCheck(ok, tys, size, segs, vals) != Failure
  {
    RangeAccepts(ok, tys, vals, 0);
    if NumVariadic(tys) != 0 {
      GroupsAccept(ok, tys, EqualSizes(tys, SegSize(tys, |vals|)), vals, 0);
    }
    if segs.Some? {
      GroupsAccept(ok, tys, segs.value, vals, 0);
    }
  }

  /** A value count that every check of the side lets through, and that traps if the side is not safe. */
  predicate Witness(s: Side, n: nat, segs: Option<seq<nat>>) {
    && n < W && Counts(s, n)
    && (s.size == Same ==> CheckVariadicValues(s.tys, n) != Failure)
    && (s.size == Sized ==> SegmentsOk(s.tys, segs, n))
    && (!SideSafe(s) ==> s.size == Same && (NumVariadic(s.tys) > 0 ==> n < Fixed(s.tys)))
  }

  lemma SideWitness(s: Side, n0: nat, segs0: Option<seq<nat>>) returns (n: nat, segs: Option<seq<nat>>)
    requires n0 < W && |s.tys| < W && Counts(s, n0) && SizeCheck(s.tys, s.size, segs0, n0) == Success
    ensures Witness(s, n, segs)
  {
    if SideSafe(s) {
      n, segs := n0, segs0;
    } else {
      n :| 0 <= n < Fixed(s.tys) && Counts(s, n) && CheckVariadicValues(s.tys, n) == Success;
      segs := None;
    }
  }

  lemma WitnessTraps(ok: (nat, nat) -> bool, s: Side, n: nat, segs: Option<seq<nat>>, vals: seq<nat>)
    requires Registered(s) && Witness(s, n, segs) && !SideSafe(s) && |vals| == n && Accepting(ok)
    ensures TypeCheck(ok, s.tys, s.size, segs, vals) == Trap
  {
    if NumVariadic(s.tys) > 0 {
      WrapTraps(ok, s, segs, vals);
    }
  }

  /** A length for a region or successor list. */
  predicate ListWitness(ts: seq<Trait>, cs: seq<Entry>, w: What, n: nat) {
    CountsOf(ts, w, n) && (!ListSafe(ts, cs, w) ==> n < FixedIn(cs))
  }

  lemma FindListWitness(ts: seq<Trait>, cs: seq<Entry>, w: What, n0: nat) returns (n: nat)
    requires CountsOf(ts, w, n0)
    ensures ListWitness(ts, cs, w, n)
  {
    if ListSafe(ts, cs, w) {
      n := n0;
    } else {
      n :| 0 <= n < FixedIn(cs) && CountsOf(ts, w, n);
    }
  }

  lemma {:induction false} ListAccepts(ok: (nat, nat) -> bool, cs: seq<Entry>, vars: seq<nat>, i: nat)
    requires Accepting(ok)
    ensures ListFrom(MeaningOf(ok), cs, vars, i) != Failure
    decreases |cs| - i
  {
    if i < |cs| {
      ListAccepts(ok, cs, vars, i + 1);
    }
  }

  lemma ShortListTraps(ok: (nat, nat) -> bool, cs: seq<Entry>, vars: seq<nat>)
    requires Accepting(ok) && ListOk(cs) && |vars| < FixedIn(cs)
    ensures ListFrom(MeaningOf(ok), cs, vars, 0) == Trap
  {
    ListExact(MeaningOf(ok), cs, vars);
  }

  ghost predicate NoOpTrips(ts: seq<Trait>) {
    forall env: Env, op: Op :: Fits(op) ==> RunTraits(env, ts, ts, op) != Trap
  }

  ghost predicate Permissive(env: Env) {
    && Accepting(env.ok) && Accepting(env.region) && Accepting(env.successor)
    && (forall a, o :: env.attrs(a, o)) && (forall a, b, o :: env.other(a, b, o))
  }

  predicate Chosen(spec: Spec, ts: seq<Trait>, op: Op) {
    && Witness(SideOf(ts, spec.operands, Operands), |op.operands|, op.operandSegs)
    && Witness(SideOf(ts, spec.results, Results), |op.results|, op.resultSegs)
    && ListWitness(ts, spec.regions, Regions, |op.regions|)
       && ListWitness(ts, spec.successors, Successors, |op.successors|)
  }

  lemma FrontPasses(env: Env, spec: Spec, ts: seq<Trait>, op: Op, t: Trait)
    requires WellFormed(spec) && SpecVerify(spec) && Attach(spec) == Some(ts) && t in Front(spec)
    requires Permissive(env) && Chosen(spec, ts, op)
    ensures VerifyTrait(env, ts, t, op) != Failure
  {
    hide Front, Attach, Lookup, SpecVerify, WellFormed, Constraints, Witness, ListSafe, Chosen, VerifyTrait;
    Shape(spec, ts);
    OnlyOne(spec, ts, t);
    if t.SameSizes? || t.Segments? {
      SizePasses(env, spec, ts, op, t);
    } else {
      ChosenCounts(spec, ts, op);
      CountPasses(env, ts, op, t);
    }
  }

  lemma CountPasses(env: Env, ts: seq<Trait>, op: Op, t: Trait)
    requires (t.N? || t.AtLeast? || t.Other?) && Lookup(ts, NameOf(t)) == Some(t) && Permissive(env)
    requires t.Other? || CountsOf(ts, t.what, Size(op, t.what))
    ensures VerifyTrait(env, ts, t, op) != Failure
  {
    hide Lookup;
  }

  lemma ChosenCounts(spec: Spec, ts: seq<Trait>, op: Op)
    requires Chosen(spec, ts, op)
    ensures forall w :: CountsOf(ts, w, Size(op, w))
  {
  }

  lemma SizePasses(env: Env, spec: Spec, ts: seq<Trait>, op: Op, t: Trait)
    requires WellFormed(spec) && SpecVerify(spec) && Attach(spec) == Some(ts) && t in Front(spec)
             && (t.SameSizes? || t.Segments?)
    requires Chosen(spec, ts, op)
    ensures VerifyTrait(env, ts, t, op) != Failure
  {
    SizeFacts(spec, ts, t);
    hide Front, Attach, Lookup, SpecVerify, WellFormed, Counts, NumVariadic, SideSafe, CheckVariadicValues, SegmentsOk,
      ListWitness, SizeTraitOf;
  }

  /** No two traits share a name, so a trait of the op is the one found by its name. */
  lemma OnlyOne(spec: Spec, ts: seq<Trait>, t: Trait)
    requires WellFormed(spec) && Attach(spec) == Some(ts) && t in Front(spec)
    ensures Lookup(ts, NameOf(t)) == Some(t)
  {
    hide Counted, Constraints, Lookup, KnownTraits, WellFormed;
    Shape(spec, ts);
    var user := KnownTraits(spec.traits);
    var name := NameOf(t);
    InFront(spec, ts, name);
    LookupAppend(user, Counted(spec, user), name);
    if t in user {
      UserOnly(user, t);
    } else {
      CountedTrait(spec, user, t);
    }
  }

  lemma UserOnly(user: seq<Trait>, t: Trait)
    requires Distinct(user) && t in user
    ensures Lookup(user, NameOf(t)) == Some(t)
  {
    var name := NameOf(t);
    LookupIn(user, name);
    hide Lookup;
    var i :| 0 <= i < |user| && user[i] == t;
    var j :| 0 <= j < |user| && user[j] == Lookup(user, name).value;
  }

  lemma CountedTrait(spec: Spec, user: seq<Trait>, t: Trait)
    requires t in Counted(spec, user)
    requires forall w :: CanCount(spec, user, w)
    ensures !Has(user, NameOf(t)) && Lookup(Counted(spec, user), NameOf(t)) == Some(t)
  {
    CountedAre(spec, user);
    var w := t.what;
    CountedFrom(spec, user, t);
    assert CanCount(spec, user, w);
    CountedName(spec, user, w, NameOf(t));
    LookupOne(CountTrait(spec, user, w), NameOf(t));
  }

  lemma CountedFrom(spec: Spec, user: seq<Trait>, t: Trait)
    requires t in Counted(spec, user) && (t.N? || t.AtLeast?)
    ensures t in CountTrait(spec, user, t.what)
  {
    hide CountTrait;
  }

  lemma AllHold() returns (env: Env)
    ensures Permissive(env)
  {
    env := Env((c, t) => true, (c, t) => true, (c, t) => true, (a, o) => true, (a, b, o) => true);
  }

  lemma ChosenTraps(env: Env, spec: Spec, ts: seq<Trait>, op: Op)
    requires WellFormed(spec) && SpecVerify(spec) && Attach(spec) == Some(ts) && !SpecSafe(spec, ts)
    requires Registered(SideOf(ts, spec.operands, Operands)) && Registered(SideOf(ts, spec.results, Results))
    requires Permissive(env) && Chosen(spec, ts, op)
    ensures RunTraits(env, ts, ts, op) == Trap
  {
    var front, last := Front(spec), Constraints(spec);
    assert |last| == 4;
    hide Front, Attach, Constraints, Chosen, SpecVerify, WellFormed, SpecSafe, Registered, SideOf, VerifyTrait,
      Permissive;
    Shape(spec, ts);
    var k := LastTraps(env, spec, ts, op);
    forall j | 0 <= j < |ts|
      ensures VerifyTrait(env, ts, ts[j], op) != Failure
    {
      EachPasses(env, spec, ts, op, j);
    }
    TrapAfter(env, ts, front, last, op, k);
  }

  lemma TrapAfter(env: Env, ts: seq<Trait>, front: seq<Trait>, last: seq<Trait>, op: Op, k: nat)
    requires ts == front + last && k < |last| && VerifyTrait(env, ts, last[k], op) == Trap
    requires forall j :: 0 <= j < |ts| ==> VerifyTrait(env, ts, ts[j], op) != Failure
    ensures RunTraits(env, ts, ts, op) == Trap
  {
    hide VerifyTrait;
    assert ts[|front| + k] == last[k];
    TrapFound(env, ts, ts, op, |front| + k);
  }

  lemma EachPasses(env: Env, spec: Spec, ts: seq<Trait>, op: Op, j: nat)
    requires WellFormed(spec) && SpecVerify(spec) && Attach(spec) == Some(ts) && Permissive(env) && Chosen(spec, ts, op)
             && j < |ts|
    ensures VerifyTrait(env, ts, ts[j], op) != Failure
  {
    hide *;
    var front, last := Front(spec), Constraints(spec);
    Shape(spec, ts);
    if j < |front| {
      assert ts[j] == front[j];
      FrontPasses(env, spec, ts, op, ts[j]);
    } else {
      assert ts[j] == last[j - |front|];
      LastPasses(env, spec, ts, op, ts[j]);
    }
  }

  lemma LastPasses(env: Env, spec: Spec, ts: seq<Trait>, op: Op, t: Trait)
    requires Permissive(env) && t in Constraints(spec)
    ensures VerifyTrait(env, ts, t, op) != Failure
  {
    TypeCheckAccepts(env.ok, spec.operands, SizeTraitOf(ts, Operands), op.operandSegs, op.operands);
    TypeCheckAccepts(env.ok, spec.results, SizeTraitOf(ts, Results), op.resultSegs, op.results);
    ListAccepts(env.region, spec.regions, op.regions, 0);
    ListAccepts(env.successor, spec.successors, op.successors, 0);
  }

  lemma LastTraps(env: Env, spec: Spec, ts: seq<Trait>, op: Op) returns (k: nat)
    requires SpecVerify(spec) && !SpecSafe(spec, ts) && Permissive(env) && Chosen(spec, ts, op)
    requires Registered(SideOf(ts, spec.operands, Operands)) && Registered(SideOf(ts, spec.results, Results))
    ensures k < 4 && VerifyTrait(env, ts, Constraints(spec)[k], op) == Trap
  {
    if !SideSafe(SideOf(ts, spec.operands, Operands)) || !SideSafe(SideOf(ts, spec.results, Results)) {
      TypesTrap(env, spec, ts, op);
      k := 0;
    } else {
      ListsTrap(env, spec, ts, op);
      k := if !ListSafe(ts, spec.regions, Regions) then 2 else 3;
    }
    hide SpecVerify, Permissive, Chosen, Registered, SideSafe, VerifyTrait;
  }

  lemma ListsTrap(env: Env, spec: Spec, ts: seq<Trait>, op: Op)
    requires SpecVerify(spec) && Permissive(env) && Chosen(spec, ts, op)
    ensures !ListSafe(ts, spec.regions, Regions) ==> VerifyTrait(env, ts, RegionConstraints(spec.regions), op) == Trap
    ensures !ListSafe(ts, spec.successors, Successors)
            ==> VerifyTrait(env, ts, SuccessorConstraints(spec.successors), op) == Trap
  {
    hide Witness, SideOf, SizeTraitsOk, ListOk, ListSafe, ListFrom, CountsOf, Accepting;
    if !ListSafe(ts, spec.regions, Regions) {
      ShortListTraps(env.region, spec.regions, op.regions);
    }
    if !ListSafe(ts, spec.successors, Successors) {
      ShortListTraps(env.successor, spec.successors, op.successors);
    }
  }

  lemma TypesTrap(env: Env, spec: Spec, ts: seq<Trait>, op: Op)
    requires Permissive(env) && Chosen(spec, ts, op)
    requires Registered(SideOf(ts, spec.operands, Operands)) && Registered(SideOf(ts, spec.results, Results))
    requires !SideSafe(SideOf(ts, spec.operands, Operands)) || !SideSafe(SideOf(ts, spec.results, Results))
    ensures VerifyTrait(env, ts, Types(spec.operands, spec.results), op) == Trap
  {
    hide Witness, SideSafe, Registered, Counts, TypeCheck;
    var a, b := SideOf(ts, spec.operands, Operands), SideOf(ts, spec.results, Results);
    TypeCheckAccepts(env.ok, spec.operands, a.size, op.operandSegs, op.operands);
    if !SideSafe(a) {
      WitnessTraps(env.ok, a, |op.operands|, op.operandSegs, op.operands);
    } else {
      WitnessTraps(env.ok, b, |op.results|, op.resultSegs, op.results);
    }
  }

  /** Lengths that meet every trait in front pass the counts and the size traits. */
  lemma MetCounts(spec: Spec, ts: seq<Trait>, w: What, n: nat, segs: Option<seq<nat>>)
    requires WellFormed(spec) && Attach(spec) == Some(ts) && Met(spec, Front(spec), w, n, segs)
    ensures CountsOf(ts, w, n)
  {
    hide Front, Attach, Lookup, WellFormed, SegmentsOk, NumVariadic, SizeTraitOf;
    InFront(spec, ts, AtLeastN(w));
    InFront(spec, ts, NN(w));
  }

  lemma MetSizes(spec: Spec, ts: seq<Trait>, w: What, n: nat, segs: Option<seq<nat>>)
    requires WellFormed(spec) && Attach(spec) == Some(ts) && Met(spec, Front(spec), w, n, segs)
    ensures SizeCheck(TysOf(spec, w), SizeTraitOf(ts, w), segs, n) == Success
  {
    hide Front, Attach, Lookup, SegmentsOk, WellFormed, NumVariadic;
    InFront(spec, ts, SameSizesN(w));
    InFront(spec, ts, SegmentsN(w));
  }

  lemma ChosenSide(spec: Spec, ts: seq<Trait>, w: What) returns (n: nat, segs: Option<seq<nat>>)
    requires WellFormed(spec) && Attach(spec) == Some(ts) && w in {Operands, Results} && Admits(spec, Front(spec), w)
    ensures Witness(SideOf(ts, TysOf(spec, w), w), n, segs) && n < W
  {
    var n0, segs0 :| Met(spec, Front(spec), w, n0, segs0);
    MetCounts(spec, ts, w, n0, segs0);
    MetSizes(spec, ts, w, n0, segs0);
    hide Met, Attach;
    n, segs := SideWitness(SideOf(ts, TysOf(spec, w), w), n0, segs0);
  }

  lemma ChosenList(spec: Spec, ts: seq<Trait>, cs: seq<Entry>, w: What) returns (n: nat)
    requires WellFormed(spec) && Attach(spec) == Some(ts) && Admits(spec, Front(spec), w)
    ensures ListWitness(ts, cs, w, n)
  {
    var n0, segs0 :| Met(spec, Front(spec), w, n0, segs0);
    MetCounts(spec, ts, w, n0, segs0);
    n := FindListWitness(ts, cs, w, n0);
  }

  lemma Choose(spec: Spec, ts: seq<Trait>) returns (op: Op)
    requires WellFormed(spec) && Attach(spec) == Some(ts) && forall w :: Admits(spec, Front(spec), w)
    ensures Chosen(spec, ts, op) && Fits(op)
  {
    hide Admits, Attach, WellFormed, Witness, ListWitness, SideOf;
    var n, ns := ChosenSide(spec, ts, Operands);
    var m, ms := ChosenSide(spec, ts, Results);
    var r := ChosenList(spec, ts, spec.regions, Regions);
    var s := ChosenList(spec, ts, spec.successors, Successors);
    op := Op(seq(n, _ => 0), seq(m, _ => 0), seq(r, _ => 0), seq(s, _ => 0), ns, ms, 0);
  }

  /** An op whose lists meet the traits before a bare one. */
  lemma MeetAll(spec: Spec, gate: seq<Trait>) returns (op: Op)
    requires forall w :: Admits(spec, gate, w)
    requires forall t :: t in gate && t.Segments? ==> t.what in {Operands, Results}
    ensures forall w :: Met(spec, gate, w, Size(op, w), Segs(op, w))
  {
    assert Admits(spec, gate, Operands) && Admits(spec, gate, Results);
    assert Admits(spec, gate, Regions) && Admits(spec, gate, Successors);
    var n: nat, ns: Option<seq<nat>> :| Met(spec, gate, Operands, n, ns);
    var m: nat, ms: Option<seq<nat>> :| Met(spec, gate, Results, m, ms);
    var r: nat, rs: Option<seq<nat>> :| Met(spec, gate, Regions, r, rs);
    var s: nat, ss: Option<seq<nat>> :| Met(spec, gate, Successors, s, ss);
    op := Op(seq(n, _ => 0), seq(m, _ => 0), seq(r, _ => 0), seq(s, _ => 0), ns, ms, 0);
    AnySegments(spec, gate, Regions, r, rs, ms);
    AnySegments(spec, gate, Successors, s, ss, ms);
    hide Met, Admits;
    forall w
      ensures Met(spec, gate, w, Size(op, w), Segs(op, w))
    {
    }
  }

  lemma AnySegments(spec: Spec, ts: seq<Trait>, w: What, n: nat, segs: Option<seq<nat>>, segs': Option<seq<nat>>)
    requires Met(spec, ts, w, n, segs) && (forall t :: t in ts && t.Segments? ==> t.what != w)
    ensures Met(spec, ts, w, n, segs')
  {
    forall t | t in ts
      ensures Holds(spec, t, w, n, segs')
    {
      assert Holds(spec, t, w, n, segs);
    }
  }

  lemma GatePasses(env: Env, spec: Spec, ts: seq<Trait>, op: Op, t: Trait)
    requires WellFormed(spec) && SpecVerify(spec) && Attach(spec) == Some(ts) && t in Front(spec) && Permissive(env)
    requires OnList(t) ==> Holds(spec, t, t.what, Size(op, t.what), Segs(op, t.what))
    ensures VerifyTrait(env, ts, t, op) == if Bare(spec, t) then Trap else Success
  {
    hide Front, Attach, Lookup, Counted, Constraints, WellFormed, SpecVerify, SizeTraitOf, SegmentsOk, NumVariadic;
    Shape(spec, ts);
    if t.SameSizes? || t.Segments? {
      SizeFacts(spec, ts, t);
    }
  }

  /** A bare trait that some op reaches. */
  lemma BareTrips(spec: Spec, ts: seq<Trait>) returns (env: Env, op: Op)
    requires WellFormed(spec) && SpecVerify(spec) && Attach(spec) == Some(ts) && !Shut(spec)
    requires |Gate(spec, Front(spec))| < |Front(spec)|
    ensures Fits(op) && RunTraits(env, ts, ts, op) == Trap
  {
    var front := Front(spec);
    var gate := Gate(spec, front);
    GateIs(spec, front);
    Shape(spec, ts);
    env := AllHold();
    forall t | t in gate && t.Segments?
      ensures t.what in {Operands, Results}
    {
      SizeFacts(spec, ts, t);
    }
    op := MeetAll(spec, gate);
    assert Met(spec, gate, Operands, Size(op, Operands), Segs(op, Operands));
    assert Met(spec, gate, Results, Size(op, Results), Segs(op, Results));
    forall j | 0 <= j < |gate|
      ensures VerifyTrait(env, ts, ts[j], op) == Success
    {
      assert ts[j] == gate[j] == front[j];
      if OnList(gate[j]) {
        assert Met(spec, gate, gate[j].what, Size(op, gate[j].what), Segs(op, gate[j].what));
      }
      GatePasses(env, spec, ts, op, gate[j]);
    }
    var bare := ts[|gate|];
    assert bare == front[|gate|];
    TraitVerdict(env, spec, ts, op, bare);
    TrapFound(env, ts, ts, op, |gate|);
  }

  /** One of the checks after them, for a spec without bare traits. */
  lemma ShortTrips(spec: Spec, ts: seq<Trait>) returns (env: Env, op: Op)
    requires WellFormed(spec) && SpecVerify(spec) && Attach(spec) == Some(ts) && !SpecSafe(spec, ts)
    requires forall w :: Admits(spec, Front(spec), w)
    ensures Fits(op) && RunTraits(env, ts, ts, op) == Trap
  {
    hide *;
    env := AllHold();
    SidesRegistered(spec, ts, spec.operands, Operands);
    SidesRegistered(spec, ts, spec.results, Results);
    op := Choose(spec, ts);
    ChosenTraps(env, spec, ts, op);
  }

  /** For every spec that passes its verifier and registers: no op trips an assertion exactly when the
      condition holds or the traits in front shut every op out. */
  lemma SpecExact(spec: Spec, ts: seq<Trait>)
    requires WellFormed(spec) && SpecVerify(spec) && Attach(spec) == Some(ts)
    ensures NoOpTrips(ts) <==> SpecSafe(spec, ts) || Shut(spec)
  {
    if SpecSafe(spec, ts) || Shut(spec) {
      forall env: Env, op: Op | Fits(op)
        ensures RunTraits(env, ts, ts, op) != Trap
      {
        if SpecSafe(spec, ts) {
          NeverTrips(env, spec, ts, op);
        } else {
          ShutNeverTrips(env, spec, ts, op);
        }
      }
    } else {
      GateIs(spec, Front(spec));
      hide Gate;
      if |Gate(spec, Front(spec))| < |Front(spec)| {
        var env, op := BareTrips(spec, ts);
      } else {
        assert Gate(spec, Front(spec)) == Front(spec);
        var env, op := ShortTrips(spec, ts);
      }
    }
  }

  // ----- Specs whose traits do not contradict each other

  /** The user's count traits are lower bounds, not absurdly high, on lists with a variadic entry, so
      that they never contradict the lists. */
  predicate BoundsFit(spec: Spec) {
    forall u :: u in spec.traits && u.Known? ==>
      !u.t.N? && (u.t.AtLeast? ==> IsVariadic(spec, u.t.what) && Length(spec, u.t.what) * (u.t.n + 1) < W)
  }

  predicate SideFits(s: Side) {
    if NumVariadic(s.tys) > 0
    then s.exact.None? && s.atLeast.Some? && (s.atLeast.value <= Fixed(s.tys) || |s.tys| * (s.atLeast.value + 1) < W)
    else s.atLeast.None?
  }

  lemma BoundsInForce(spec: Spec, ts: seq<Trait>, w: What)
    requires WellFormed(spec) && Attach(spec) == Some(ts) && BoundsFit(spec)
    ensures var atLeast := Bound(Lookup(ts, AtLeastN(w))); var exact := Bound(Lookup(ts, NN(w)));
            if IsVariadic(spec, w) then exact.None? && atLeast.Some?
              && (atLeast.value <= FixedOf(spec, w) || Length(spec, w) * (atLeast.value + 1) < W)
            else atLeast.None? && exact == Some(Length(spec, w))
  {
    hide Counted, CountTrait, KnownTraits, Attach, WellFormed, BoundsFit, Lookup, Constraints;
    var user := KnownTraits(spec.traits);
    CountInForce(spec, ts, w);
    InFront(spec, ts, AtLeastN(w));
    InFront(spec, ts, NN(w));
    CountedLookup(spec, user, w);
    UserBounds(spec, w);
    LookupAppend(user, Counted(spec, user), AtLeastN(w));
    LookupAppend(user, Counted(spec, user), NN(w));
  }

  lemma UserBounds(spec: Spec, w: What)
    requires BoundsFit(spec)
    ensures var user := KnownTraits(spec.traits);
            && !Has(user, NN(w))
            && (Has(user, AtLeastN(w)) ==> (IsVariadic(spec, w) && Lookup(user, AtLeastN(w)).value.AtLeast?
                && Length(spec, w) * (Lookup(user, AtLeastN(w)).value.n + 1) < W))
  {
    var user := KnownTraits(spec.traits);
    KnownAre(spec.traits);
    hide KnownTraits, Lookup;
    assert forall t :: t in user ==> Known(t) in spec.traits && !t.N?;
    LookupIn(user, NN(w));
    LookupIn(user, AtLeastN(w));
  }

  /** Enough values for the bound, with every variadic entry as long as the others. */
  lemma Plenty(s: Side) returns (n: nat, segs: Option<seq<nat>>)
    requires Registered(s) && SideFits(s)
    ensures n < W && Counts(s, n) && SegmentsOk(s.tys, segs, n)
    ensures NumVariadic(s.tys) > 0 ==> CheckVariadicValues(s.tys, n) == Success
  {
    if NumVariadic(s.tys) == 0 {
      n, segs := |s.tys|, Some(EqualSizes(s.tys, 1));
      EqualSum(s.tys, 1);
    } else {
      n, segs := PlentyVariadic(s);
    }
  }

  lemma PlentyVariadic(s: Side) returns (n: nat, segs: Option<seq<nat>>)
    requires |s.tys| < W && SideFits(s) && NumVariadic(s.tys) > 0
    ensures n < W && Counts(s, n) && SegmentsOk(s.tys, segs, n) && CheckVariadicValues(s.tys, n) == Success
  {
    var v, k := NumVariadic(s.tys), s.atLeast.value;
    var more := if k > Fixed(s.tys) then k - Fixed(s.tys) else 0;
    EqualSum(s.tys, more);
    Enough(v, more, |s.tys|, k);
    var extra := v * more;
    n, segs := Fixed(s.tys) + extra, Some(EqualSizes(s.tys, more));
    Divides(v, more);
    hide NumVariadic, EqualSizes, Sum;
    assert n < W && Counts(s, n);
    assert Spare(s.tys, n) == extra;
  }

  lemma Divides(v: nat, m: nat)
    requires v > 0
    ensures v * m / v == m && v * m % v == 0
  {
    Quotient(v, m, v * m / v, v * m % v);
  }

  lemma Quotient(v: int, m: int, q: int, r: int)
    requires 0 <= r < v && v * m == v * q + r
    ensures m == q && r == 0
  {
    assert v * (m - q) == r;
    assert m - q >= 1 ==> v * (m - q) >= v;
    assert m - q <= -1 ==> v * (m - q) <= -v;
  }

  lemma Enough(v: nat, more: nat, len: nat, k: nat)
    requires 0 < v <= len && more <= k
    ensures v * more >= more && v * more <= len * k && len * (k + 1) == len * k + len
  {
    assert v * more <= len * more <= len * k;
  }

  lemma SideInBounds(spec: Spec, ts: seq<Trait>, tys: seq<Ty>, w: What)
    requires WellFormed(spec) && Attach(spec) == Some(ts) && BoundsFit(spec)
    requires (w == Operands && tys == spec.operands) || (w == Results && tys == spec.results)
    ensures SideFits(SideOf(ts, tys, w))
  {
    BoundsInForce(spec, ts, w);
  }

  /** What a trait in front asks of a list is one of the counts or the size trait in force. */
  lemma InForce(spec: Spec, ts: seq<Trait>, t: Trait, w: What, n: nat, segs: Option<seq<nat>>)
    requires WellFormed(spec) && SpecVerify(spec) && Attach(spec) == Some(ts) && t in Front(spec) && !Bare(spec, t)
    requires CountsOf(ts, w, n)
    requires w in {Operands, Results} ==>
               && (NumVariadic(TysOf(spec, w)) > 0 ==> CheckVariadicValues(TysOf(spec, w), n) == Success)
               && SegmentsOk(TysOf(spec, w), segs, n)
    ensures Holds(spec, t, w, n, segs)
  {
    OnlyOne(spec, ts, t);
    if t.SameSizes? || t.Segments? {
      SizeFacts(spec, ts, t);
    }
    hide Front, Attach, Lookup, WellFormed, SpecVerify, SegmentsOk, NumVariadic, SizeTraitOf;
  }

  lemma SideAdmits(spec: Spec, ts: seq<Trait>, w: What)
    requires WellFormed(spec) && SpecVerify(spec) && Attach(spec) == Some(ts) && BoundsFit(spec)
             && w in {Operands, Results}
    ensures Admits(spec, Gate(spec, Front(spec)), w)
  {
    var tys, gate := TysOf(spec, w), Gate(spec, Front(spec));
    SideInBounds(spec, ts, tys, w);
    SidesRegistered(spec, ts, tys, w);
    GateIs(spec, Front(spec));
    var n, segs := Plenty(SideOf(ts, tys, w));
    forall t | t in gate
      ensures Holds(spec, t, w, n, segs)
    {
      hide Registered, SideFits, BoundsFit, Attach, WellFormed, SpecVerify, Gate;
      InForce(spec, ts, t, w, n, segs);
    }
    assert Met(spec, gate, w, n, segs);
  }

  lemma ListAdmits(spec: Spec, ts: seq<Trait>, w: What)
    requires WellFormed(spec) && SpecVerify(spec) && Attach(spec) == Some(ts) && BoundsFit(spec)
             && w !in {Operands, Results}
    ensures Admits(spec, Gate(spec, Front(spec)), w)
  {
    var gate := Gate(spec, Front(spec));
    BoundsInForce(spec, ts, w);
    GateIs(spec, Front(spec));
    var n := if IsVariadic(spec, w) then Bound(Lookup(ts, AtLeastN(w))).value else Length(spec, w);
    assert CountsOf(ts, w, n);
    forall t | t in gate
      ensures Holds(spec, t, w, n, None)
    {
      hide BoundsFit, Attach, WellFormed, SpecVerify, Gate, CountsOf;
      InForce(spec, ts, t, w, n, None);
    }
    assert Met(spec, gate, w, n, None);
  }

  /** Where the user's bounds fit, the traits do not contradict each other, and the condition alone
      decides. */
  lemma FittingExact(spec: Spec, ts: seq<Trait>)
    requires WellFormed(spec) && SpecVerify(spec) && Attach(spec) == Some(ts) && BoundsFit(spec)
    ensures NoOpTrips(ts) <==> SpecSafe(spec, ts)
  {
    SpecExact(spec, ts);
    forall w
      ensures Admits(spec, Gate(spec, Front(spec)), w)
    {
      if w in {Operands, Results} {
        SideAdmits(spec, ts, w);
      } else {
        ListAdmits(spec, ts, w);
      }
    }
  }

  // ----- Specs that slip through

  /** A spec that is accepted and registered, though some op trips an assertion. */
  ghost predicate Slips(spec: Spec) {
    WellFormed(spec) && SpecVerify(spec) && Attach(spec).Some? && !NoOpTrips(Attach(spec).value)
  }

  /** It is accepted and registered, and the condition fails. */
  predicate Fails(spec: Spec) {
    && WellFormed(spec) && SpecVerify(spec) && Attach(spec).Some? && BoundsFit(spec)
    && !SpecSafe(spec, Attach(spec).value)
  }

  lemma FailsSlips(spec: Spec)
    requires Fails(spec)
    ensures Slips(spec)
  {
    FittingExact(spec, Attach(spec).value);
  }

  function OneTrait(operands: seq<Ty>, regions: seq<Entry>, traits: seq<UserTrait>): Spec {
    Spec(operands, [], regions, [], 0, traits)
  }

  function BareSpec(): Spec { OneTrait([Ty(0, false)], [], [Known(SameSizes(Operands))]) }

  function WrappingSpec(): Spec {
    OneTrait([Ty(0, false), Ty(0, true)], [], [Known(SameSizes(Operands)), Known(AtLeast(Operands, 0))])
  }

  function RegionSpec(): Spec {
    OneTrait([], [Entry(0, false, true), Entry(0, true, true)], [Known(AtLeast(Regions, 0))])
  }

  /** An equal-size trait without a variadic operand. */
  lemma SlipsWithoutVariadic()
    ensures Slips(BareSpec())
  {
    BareFails();
    hide Fails, Slips;
    FailsSlips(BareSpec());
  }

  /** A lower bound below the fixed operands: the subtraction wraps to 2^32 - 1, a size of one group. */
  lemma SlipsByWrapping()
    ensures Slips(WrappingSpec())
  {
    WrappingFails();
    hide Fails, Slips;
    FailsSlips(WrappingSpec());
  }

  /** A lower bound below the fixed regions. */
  lemma SlipsByRegions()
    ensures Slips(RegionSpec())
  {
    RegionFails();
    hide Fails, Slips;
    FailsSlips(RegionSpec());
  }

  lemma BareFails()
    ensures Fails(BareSpec())
  {
    var spec := BareSpec();
    assert spec.traits[1..] == [];
    assert KnownTraits(spec.traits) == [SameSizes(Operands)];
    assert NumVariadic(spec.operands) == 0 by {
      assert spec.operands[1..] == [];
    }
    assert Names(spec, SameSizesN(Operands)) by {
      assert Known(SameSizes(Operands)) in spec.traits;
    }
    var ts := Attach(spec).value;
    UserNamed(spec, ts, SameSizesN(Operands));
    UserNamed(spec, ts, SegmentsN(Operands));
  }

  lemma WrappingFails()
    ensures Fails(WrappingSpec())
  {
    var spec := WrappingSpec();
    var user := [SameSizes(Operands), AtLeast(Operands, 0)];
    WrappingShape(spec, user);
    WrappingAttaches(spec, user);
    hide NumVariadic, Counted, Constraints, Attach, SpecSafe, KnownTraits, SpecVerify, WellFormed, BoundsFit;
    WrapUnsafe(spec, user);
  }

  lemma WrappingShape(spec: Spec, user: seq<Trait>)
    requires spec == WrappingSpec() && user == [SameSizes(Operands), AtLeast(Operands, 0)]
    ensures KnownTraits(spec.traits) == user && NumVariadic(spec.operands) == 1 && Names(spec, SameSizesN(Operands))
  {
    assert spec.traits[1..] == [spec.traits[1]] && spec.traits[1..][1..] == [];
    assert spec.operands[1..] == [Ty(0, true)] && spec.operands[1..][1..] == [];
    assert Known(SameSizes(Operands)) in spec.traits;
  }

  lemma WrappingAttaches(spec: Spec, user: seq<Trait>)
    requires spec == WrappingSpec() && user == [SameSizes(Operands), AtLeast(Operands, 0)]
    requires KnownTraits(spec.traits) == user && NumVariadic(spec.operands) == 1 && Names(spec, SameSizesN(Operands))
    ensures WellFormed(spec) && SpecVerify(spec) && BoundsFit(spec) && Attach(spec).Some?
  {
    hide Counted, Constraints, KnownTraits, SpecVerify, WellFormed, BoundsFit, NumVariadic, Lookup;
    WrappingVerifies(spec);
    LookupIn(user, NN(Regions));
    LookupIn(user, NN(Successors));
    LookupIn(user, NN(Results));
  }

  lemma WrappingVerifies(spec: Spec)
    requires spec == WrappingSpec() && NumVariadic(spec.operands) == 1 && Names(spec, SameSizesN(Operands))
    ensures WellFormed(spec) && SpecVerify(spec) && BoundsFit(spec)
  {
    hide NumVariadic;
    assert NumVariadic([]) == 0;
  }

  lemma WrapUnsafe(spec: Spec, user: seq<Trait>)
    requires WellFormed(spec) && SpecVerify(spec) && Attach(spec).Some? && user == KnownTraits(spec.traits)
    requires user == [SameSizes(Operands), AtLeast(Operands, 0)] && Names(spec, SameSizesN(Operands))
    requires NumVariadic(spec.operands) == 1 && Fixed(spec.operands) > 0
    ensures !SpecSafe(spec, Attach(spec).value)
  {
    var ts := Attach(spec).value;
    var rest := Counted(spec, user) + Constraints(spec);
    UserNamed(spec, ts, SameSizesN(Operands));
    UserNamed(spec, ts, SegmentsN(Operands));
    assert ts == user + rest;
    NoExact(spec, user, ts);
    hide Counted, Constraints, Attach, WellFormed, NumVariadic, KnownTraits;
    LookupAppend(user, rest, AtLeastN(Operands));
    LowZero(user);
    var side := SideOf(ts, spec.operands, Operands);
    hide Lookup, SpecVerify;
    assert Counts(side, 0) && CheckVariadicValues(spec.operands, 0) == Success;
  }

  lemma LowZero(user: seq<Trait>)
    requires user == [SameSizes(Operands), AtLeast(Operands, 0)]
    ensures Lookup(user, AtLeastN(Operands)) == Some(AtLeast(Operands, 0))
  {
    assert user[1..] == [AtLeast(Operands, 0)];
  }

  lemma NoExact(spec: Spec, user: seq<Trait>, ts: seq<Trait>)
    requires WellFormed(spec) && Attach(spec) == Some(ts) && user == KnownTraits(spec.traits)
    requires user == [SameSizes(Operands), AtLeast(Operands, 0)] && IsVariadic(spec, Operands)
    ensures Lookup(ts, NN(Operands)) == None
  {
    InFront(spec, ts, NN(Operands));
    LookupIn(user, NN(Operands));
    CountedLookup(spec, user, Operands);
    LookupAppend(user, Counted(spec, user), NN(Operands));
  }

  lemma RegionFails()
    ensures Fails(RegionSpec())
  {
    var spec := RegionSpec();
    RegionAttaches(spec);
    hide Counted, Constraints, WellFormed, SpecVerify, KnownTraits, BoundsFit, SpecSafe, Lookup;
    var ts := Attach(spec).value;
    var user := [AtLeast(Regions, 0)];
    var rest := Counted(spec, user) + Constraints(spec);
    assert ts == user + rest;
    hide Attach, RegionSpec;
    LookupAppend(user, rest, AtLeastN(Regions));
    LookupOne(user, AtLeastN(Regions));
    BoundsInForce(spec, ts, Regions);
    RegionUnsafe(spec, ts);
  }

  lemma RegionUnsafe(spec: Spec, ts: seq<Trait>)
    requires spec == RegionSpec() && Lookup(ts, AtLeastN(Regions)) == Some(AtLeast(Regions, 0))
    requires Bound(Lookup(ts, NN(Regions))) == None
    ensures !SpecSafe(spec, ts)
  {
    hide Lookup, SideSafe;
    assert CountsOf(ts, Regions, 0);
  }

  lemma RegionAttaches(spec: Spec)
    requires spec == RegionSpec()
    ensures KnownTraits(spec.traits) == [AtLeast(Regions, 0)] && VariadicEntries(spec.regions) == 1
    ensures WellFormed(spec) && SpecVerify(spec) && Attach(spec).Some? && BoundsFit(spec)
  {
    assert spec.traits[1..] == [];
    RegionCounts(spec);
    assert WellFormed(spec) && SpecVerify(spec) && BoundsFit(spec);
    hide VariadicEntries, NumVariadic, Counted, Constraints, SpecVerify, WellFormed, BoundsFit;
    OneDistinct(AtLeast(Regions, 0));
  }

  lemma RegionCounts(spec: Spec)
    requires spec == RegionSpec()
    ensures VariadicEntries(spec.regions) == 1 && ListOk(spec.regions)
  {
    assert spec.regions[1..] == [Entry(0, true, true)] && spec.regions[1..][1..] == [];
  }

  lemma OneDistinct(t: Trait)
    ensures Distinct([t]) && forall name :: Has([t], name) <==> NameOf(t) == name
  {
    forall name
      ensures Has([t], name) <==> NameOf(t) == name
    {
      LookupOne([t], name);
    }
  }
}
