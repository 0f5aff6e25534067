/** One side of an op. */
module ValueSides {
  // The size trait, the counts and the type check of a side, in the order in which they run, and
  // exactly when they are safe together.

  import opened ValueGroups

  datatype SizeTrait = NoSize | Same | Sized

  /** What the segment trait accepts: an attribute, the right total, and one size per entry. */
  predicate SegmentsOk(tys: seq<Ty>, segs: Option<seq<nat>>, n: nat) { segs.Some? && Cuts(tys, segs.value, n) }

  function SizeCheck(tys: seq<Ty>, size: SizeTrait, segs: Option<seq<nat>>, n: nat): Verdict {
    match size
    case NoSize => Success
    case Same => CheckVariadicValues(tys, n)
    case Sized => if SegmentsOk(tys, segs, n) then Success else Failure
  }

  /** The flat check used without a size trait: value by value, with both lists ending together. */
  function RangeFrom(ok: (nat, nat) -> bool, tys: seq<Ty>, vals: seq<nat>, i: nat): Verdict
    decreases |tys| - i
  {
    if i >= |tys| && i >= |vals| then Success
    else if i >= |tys| || i >= |vals| then Trap
    else if !ok(tys[i].base, vals[i]) then Failure
    else RangeFrom(ok, tys, vals, i + 1)
  }

  method VerifyTypeRange(ok: (nat, nat) -> bool, tys: seq<Ty>, vals: seq<nat>) returns (r: Verdict)
    ensures r == RangeFrom(ok, tys, vals, 0)
  {
    var tyIt, baseIt := 0, 0;
    while baseIt != |tys| || tyIt != |vals|
      invariant 0 <= tyIt == baseIt <= |tys| && tyIt <= |vals|
      invariant RangeFrom(ok, tys, vals, 0) == RangeFrom(ok, tys, vals, tyIt)
      decreases |tys| - baseIt
    {
      if !(baseIt != |tys| && tyIt != |vals|) {
        return Trap;
      }
      if !ok(tys[baseIt].base, vals[tyIt]) {
        return Failure;
      }
      tyIt, baseIt := tyIt + 1, baseIt + 1;
    }
    r := Success;
  }

  lemma {:induction false} RangeExact(ok: (nat, nat) -> bool, tys: seq<Ty>, vals: seq<nat>, i: nat)
    requires |tys| == |vals| && i <= |tys|
    ensures RangeFrom(ok, tys, vals, i) ==
            if forall j :: i <= j < |tys| ==> ok(tys[j].base, vals[j]) then Success else Failure
    decreases |tys| - i
  {
    if i < |tys| {
      RangeExact(ok, tys, vals, i + 1);
    }
  }

  /** The check picked by the size traits of the op. */
  function TypeCheck(ok: (nat, nat) -> bool, tys: seq<Ty>, size: SizeTrait, segs: Option<seq<nat>>,
      vals: seq<nat>): Verdict {
    match size
    case NoSize => RangeFrom(ok, tys, vals, 0)
    case Same => if NumVariadic(tys) == 0 then Trap
      else GroupsFrom(ok, tys, EqualSizes(tys, SegSize(tys, |vals|)), vals, 0)
    case Sized => if segs.None? then Trap else GroupsFrom(ok, tys, segs.value, vals, 0)
  }

  /** `atLeast` and `exact` are the count traits in force. */
  datatype Side = Side(tys: seq<Ty>, size: SizeTrait, atLeast: Option<nat>, exact: Option<nat>)

  predicate Counts(s: Side, n: nat) {
    (s.atLeast.Some? ==> n >= s.atLeast.value) && (s.exact.Some? ==> n == s.exact.value)
  }

  function SideRun(ok: (nat, nat) -> bool, s: Side, segs: Option<seq<nat>>, vals: seq<nat>): Verdict {
    match SizeCheck(s.tys, s.size, segs, |vals|)
    case Success => if Counts(s, |vals|) then TypeCheck(ok, s.tys, s.size, segs, vals) else Failure
    case v => v
  }

  /** What spec verification and registration leave: a variadic entry has a size trait and a lower
      bound, a list without one has its exact count. */
  predicate Registered(s: Side) {
    && |s.tys| < W
    && if NumVariadic(s.tys) > 0 then s.size != NoSize && s.atLeast.Some? else s.exact == Some(|s.tys|)
  }

  /** A caller's check: the equal-size trait needs a variadic entry, and no count the traits let
      through may fall below the fixed entries and still divide after wrapping. */
  predicate SideSafe(s: Side) {
    s.size == Same ==>
      && NumVariadic(s.tys) > 0
      && forall n :: 0 <= n < Fixed(s.tys) && Counts(s, n) ==> CheckVariadicValues(s.tys, n) != Success
  }

  /** A lower bound that covers the fixed entries is enough. */
  lemma CoveredIsSafe(s: Side)
    requires NumVariadic(s.tys) > 0 && s.atLeast.Some? && s.atLeast.value >= Fixed(s.tys)
    ensures SideSafe(s)
  {
  }

  lemma TypeCheckSafe(ok: (nat, nat) -> bool, s: Side, segs: Option<seq<nat>>, vals: seq<nat>)
    requires Registered(s) && SideSafe(s) && |vals| < W
    requires SizeCheck(s.tys, s.size, segs, |vals|) == Success && Counts(s, |vals|)
    ensures TypeCheck(ok, s.tys, s.size, segs, vals) != Trap
  {
    match s.size {
      case NoSize => RangeExact(ok, s.tys, vals, 0);
      case Same =>
        EqualSizesCut(s.tys, |vals|);
        GroupedIsPointwise(ok, s.tys, EqualSizes(s.tys, SegSize(s.tys, |vals|)), vals);
      case Sized => GroupedIsPointwise(ok, s.tys, segs.value, vals);
    }
  }

  /** One size per entry, however the op says it. */
  function SizesOf(s: Side, segs: Option<seq<nat>>, n: nat): (r: seq<nat>)
    requires Registered(s) && SideSafe(s) && SizeCheck(s.tys, s.size, segs, n) == Success
    ensures |r| == |s.tys|
  {
    match s.size
    case NoSize => EqualSizes(s.tys, 1)
    case Same => EqualSizes(s.tys, SegSize(s.tys, n))
    case Sized => segs.value
  }

  /** The group getter that is used from Python, which asks for the same traits. */
  function DispatchGroup(tys: seq<Ty>, size: SizeTrait, segs: Option<seq<nat>>, n: nat, idx: nat): Option<Range> {
    match size
    case Sized => if segs.None? then None else GetGroup(tys, segs.value, n, idx)
    case Same => if NumVariadic(tys) == 0 then None else GetGroup(tys, EqualSizes(tys, SegSize(tys, n)), n, idx)
    case NoSize => if idx < n then Some(Range(idx, idx + 1)) else None
  }

  /** On a verified op it yields the groups that partition the values. */
  lemma DispatchPartitions(s: Side, segs: Option<seq<nat>>, vals: seq<nat>, idx: nat)
    requires Registered(s) && SideSafe(s) && |vals| < W && idx < |s.tys|
    requires SizeCheck(s.tys, s.size, segs, |vals|) == Success && Counts(s, |vals|)
    ensures var sizes := SizesOf(s, segs, |vals|);
            Cuts(s.tys, sizes, |vals|) && DispatchGroup(s.tys, s.size, segs, |vals|, idx)
              == GetGroup(s.tys, sizes, |vals|, idx)
    ensures Join(AllGroups(s.tys, SizesOf(s, segs, |vals|), vals)) == vals
  {
    match s.size {
      case NoSize =>
        EqualSum(s.tys, 1);
        NumVariadicZero(s.tys);
        GroupAt(s.tys, EqualSizes(s.tys, 1), |vals|, idx);
        EqualSum(s.tys[..idx], 1);
        NumVariadicZero(s.tys[..idx]);
        assert EqualSizes(s.tys, 1)[..idx] == EqualSizes(s.tys[..idx], 1);
      case Same => EqualSizesCut(s.tys, |vals|);
      case Sized =>
    }
    Partition(s.tys, SizesOf(s, segs, |vals|), vals);
  }

  /** The first entry of that name, or the exception for an unknown one. */
  datatype Found = Unknown | Group(range: Option<Range>)

  method GetGroupByName(names: seq<string>, tys: seq<Ty>, size: SizeTrait, segs: Option<seq<nat>>, n: nat, name: string)
      returns (r: Found)
    ensures r == Unknown <==> name !in names
    ensures r != Unknown ==> exists i :: 0 <= i < |names| && names[i] == name && name !in names[..i]
                                         && r.range == DispatchGroup(tys, size, segs, n, i)
  {
    var idx := 0;
    while idx < |names|
      invariant 0 <= idx <= |names| && name !in names[..idx]
    {
      if names[idx] == name {
        return Group(DispatchGroup(tys, size, segs, n, idx));
      }
      idx := idx + 1;
    }
    assert names[..idx] == names;
    r := Unknown;
  }

  /** What a type check that is reached decides: the expanded constraint list, value by value. */
  lemma TypeCheckMeaning(ok: (nat, nat) -> bool, s: Side, segs: Option<seq<nat>>, vals: seq<nat>)
    requires Registered(s) && SideSafe(s) && |vals| < W
    requires SizeCheck(s.tys, s.size, segs, |vals|) == Success && Counts(s, |vals|)
    ensures TypeCheck(ok, s.tys, s.size, segs, vals) == Success
            <==> Pointwise(ok, Expand(s.tys, SizesOf(s, segs, |vals|)), vals)
  {
    match s.size {
      case NoSize =>
        RangeExact(ok, s.tys, vals, 0);
        ExpandFlat(s.tys);
      case Same =>
        EqualSizesCut(s.tys, |vals|);
        GroupedIsPointwise(ok, s.tys, EqualSizes(s.tys, SegSize(s.tys, |vals|)), vals);
      case Sized => GroupedIsPointwise(ok, s.tys, segs.value, vals);
    }
  }

  lemma {:induction false} ExpandFlat(tys: seq<Ty>)
    ensures |Expand(tys, EqualSizes(tys, 1))| == |tys|
    ensures forall i :: 0 <= i < |tys| ==> Expand(tys, EqualSizes(tys, 1))[i] == tys[i].base
    decreases |tys|
  {
    if tys != [] {
      ExpandFlat(tys[1..]);
      assert EqualSizes(tys, 1)[1..] == EqualSizes(tys[1..], 1);
    }
  }

  lemma {:induction false} OverrunTraps(ok: (nat, nat) -> bool, tys: seq<Ty>, sizes: seq<nat>, vals: seq<nat>, idx: nat)
    requires |sizes| == |tys| && idx <= |tys| && Sum(sizes[..idx]) <= |vals| < W && Sum(sizes) > |vals|
    requires forall c, t :: ok(c, t)
    ensures GroupsFrom(ok, tys, sizes, vals, idx) == Trap
    decreases |tys| - idx
  {
    assert sizes[..|sizes|] == sizes;
    if idx < |tys| {
      SumStep(sizes, idx);
      if Sum(sizes[..idx]) + sizes[idx] <= |vals| {
        OverrunTraps(ok, tys, sizes, vals, idx + 1);
      }
    }
  }

  /** A count that wraps and still divides is let through to groups that leave the list. */
  lemma WrapTraps(ok: (nat, nat) -> bool, s: Side, segs: Option<seq<nat>>, vals: seq<nat>)
    requires s.size == Same && NumVariadic(s.tys) > 0 && |vals| < Fixed(s.tys) < W && Counts(s, |vals|)
    requires CheckVariadicValues(s.tys, |vals|) == Success && forall c, t :: ok(c, t)
    ensures SideRun(ok, s, segs, vals) == Trap
  {
    WrappedSum(s.tys, |vals|);
    OverrunTraps(ok, s.tys, EqualSizes(s.tys, SegSize(s.tys, |vals|)), vals, 0);
  }

  ghost predicate NeverTraps(s: Side) {
    forall ok: (nat, nat) -> bool, segs: Option<seq<nat>>, vals: seq<nat> :: |vals| < W
      ==> SideRun(ok, s, segs, vals) != Trap
  }

  /** Every registered side: no value list and no constraint meaning traps exactly when it is safe. */
  lemma SideExact(s: Side)
    requires Registered(s)
    ensures NeverTraps(s) <==> SideSafe(s)
  {
    if SideSafe(s) {
      forall ok: (nat, nat) -> bool, segs: Option<seq<nat>>, vals: seq<nat> | |vals| < W
        ensures SideRun(ok, s, segs, vals) != Trap
      {
        if SizeCheck(s.tys, s.size, segs, |vals|) == Success && Counts(s, |vals|) {
          TypeCheckSafe(ok, s, segs, vals);
        }
      }
    } else {
      var ok := (c: nat, t: nat) => true;
      if NumVariadic(s.tys) == 0 {
        assert SideRun(ok, s, None, []) == Trap;
      } else {
        var n :| 0 <= n < Fixed(s.tys) && Counts(s, n) && CheckVariadicValues(s.tys, n) == Success;
        var vals := seq(n, _ => 0);
        WrapTraps(ok, s, None, vals);
      }
    }
  }
}
