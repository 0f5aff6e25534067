/** Region and successor constraint lists. */
module ConstraintLists {
  // Where a variadic constraint may stand, and what the checker that relies on it accepts.

  import opened ValueGroups

  /** `C` are constraints, `V` regions or successors. */
  datatype Meaning<!C, !V> = Meaning(valid: C -> bool, variadic: C -> bool, ok: (C, V) -> bool)

  predicate LastOnly<C, V>(m: Meaning<C, V>, cs: seq<C>) {
    forall i :: 0 <= i < |cs| - 1 ==> !m.variadic(cs[i])
  }

  predicate HasVariadic<C, V>(m: Meaning<C, V>, cs: seq<C>) { |cs| > 0 && m.variadic(cs[|cs| - 1]) }

  function FixedEntries<C, V>(m: Meaning<C, V>, cs: seq<C>): nat {
    if HasVariadic(m, cs) then |cs| - 1 else |cs|
  }

  function CountVariadic<C, V>(m: Meaning<C, V>, cs: seq<C>): nat {
    if cs == [] then 0 else CountVariadic(m, cs[..|cs| - 1]) + if m.variadic(cs[|cs| - 1]) then 1 else 0
  }

  lemma {:induction false} CountZero<C, V>(m: Meaning<C, V>, cs: seq<C>)
    ensures CountVariadic(m, cs) == 0 <==> forall i :: 0 <= i < |cs| ==> !m.variadic(cs[i])
    decreases |cs|
  {
    if cs != [] {
      CountZero(m, cs[..|cs| - 1]);
    }
  }

  /** The spec's own check: it accepts exactly the lists of valid constraints in which no entry but
      the last is variadic. */
  method VerifyConstraintList<C, V>(m: Meaning<C, V>, vars: seq<C>) returns (ok: bool)
    ensures ok <==> (forall i :: 0 <= i < |vars| ==> m.valid(vars[i])) && LastOnly(m, vars)
  {
    var idx, numVar := 0, 0;
    while idx < |vars|
      invariant 0 <= idx <= |vars| && numVar == CountVariadic(m, vars[..idx])
      invariant forall i :: 0 <= i < idx ==> m.valid(vars[i])
    {
      if !m.valid(vars[idx]) {
        return false;
      }
      assert vars[..idx + 1][..idx] == vars[..idx];
      if m.variadic(vars[idx]) {
        numVar := numVar + 1;
      }
      idx := idx + 1;
    }
    assert vars[..idx] == vars;
    CountZero(m, vars);
    if |vars| > 0 {
      CountZero(m, vars[..|vars| - 1]);
      assert forall i :: 0 <= i < |vars| - 1 ==> vars[..|vars| - 1][i] == vars[i];
    }
    if numVar > 0 {
      if numVar > 1 || !m.variadic(vars[|vars| - 1]) {
        return false;
      }
    }
    ok := true;
  }

  predicate AllHold<C, V>(m: Meaning<C, V>, c: C, vars: seq<V>) {
    forall i :: 0 <= i < |vars| ==> m.ok(c, vars[i])
  }

  /** The checker from constraint `i` on; as many entries have been consumed. */
  function ListFrom<C, V>(m: Meaning<C, V>, cs: seq<C>, vars: seq<V>, i: nat): Verdict
    decreases |cs| - i
  {
    if i >= |cs| then Success
    else if m.variadic(cs[i]) && i != |cs| - 1 then Trap
    else if i >= |vars| && !m.variadic(cs[i]) then Trap
    else if !AllHold(m, cs[i], if m.variadic(cs[i]) then (if i < |vars| then vars[i..] else []) else vars[i..i + 1])
      then Failure
    else ListFrom(m, cs, vars, i + 1)
  }

  method VerifyConstraintsLastVariadic<C, V>(m: Meaning<C, V>, vars: seq<V>, cs: seq<C>) returns (r: Verdict)
    ensures r == ListFrom(m, cs, vars, 0)
  {
    var varIt, attrIt := 0, 0;
    while attrIt != |cs|
      invariant 0 <= varIt == attrIt <= |cs|
      invariant ListFrom(m, cs, vars, 0) == ListFrom(m, cs, vars, attrIt)
      decreases |cs| - attrIt
    {
      var attr := cs[attrIt];
      if (m.variadic(attr) && attrIt != |cs| - 1) || !(varIt < |vars| || m.variadic(attr)) {
        return Trap;
      }
      ghost var part := if m.variadic(attr) then (if varIt < |vars| then vars[varIt..] else [])
        else vars[varIt..varIt + 1];
      var it := varIt;
      while it < |vars| && (it == varIt || m.variadic(attr))
        invariant varIt <= it && (it <= |vars| || it == varIt) && (m.variadic(attr) || it <= varIt + 1)
        invariant forall j :: varIt <= j < it ==> m.ok(attr, vars[j])
      {
        if !m.ok(attr, vars[it]) {
          assert part[it - varIt] == vars[it];
          return Failure;
        }
        it := it + 1;
      }
      varIt, attrIt := varIt + 1, attrIt + 1;
    }
    r := Success;
  }

  predicate FixedHold<C, V>(m: Meaning<C, V>, cs: seq<C>, vars: seq<V>, i: nat, n: nat)
    requires n <= |cs| && n <= |vars|
  {
    forall j :: i <= j < n ==> m.ok(cs[j], vars[j])
  }

  lemma {:induction false} ListExactFrom<C, V>(m: Meaning<C, V>, cs: seq<C>, vars: seq<V>, i: nat)
    requires LastOnly(m, cs) && i <= FixedEntries(m, cs) && i <= |vars|
    ensures var f := FixedEntries(m, cs);
            && (ListFrom(m, cs, vars, i) == Trap <==> |vars| < f && FixedHold(m, cs, vars, i, |vars|))
            && (ListFrom(m, cs, vars, i) == Success <==>
                |vars| >= f && FixedHold(m, cs, vars, i, f) && (HasVariadic(m, cs) ==> AllHold(m, cs[f], vars[f..])))
    decreases |cs| - i
  {
    var f := FixedEntries(m, cs);
    if i < f {
      if i < |vars| {
        assert vars[i..i + 1][0] == vars[i];
        assert AllHold(m, cs[i], vars[i..i + 1]) <==> m.ok(cs[i], vars[i]);
        ListExactFrom(m, cs, vars, i + 1);
      }
    } else if i < |cs| {
      assert ListFrom(m, cs, vars, i + 1) == Success;
      assert vars[|vars|..] == [];
    }
  }

  /** Every list whose only variadic constraint is the last, and every number of entries: the checker
      accepts exactly when each fixed constraint holds at its position and the variadic one on all
      the rest, and trips an assertion exactly when the entries run out early. */
  lemma ListExact<C, V>(m: Meaning<C, V>, cs: seq<C>, vars: seq<V>)
    requires LastOnly(m, cs)
    ensures var f := FixedEntries(m, cs);
            && (ListFrom(m, cs, vars, 0) == Trap <==> |vars| < f && FixedHold(m, cs, vars, 0, |vars|))
            && (ListFrom(m, cs, vars, 0) == Success <==>
                |vars| >= f && FixedHold(m, cs, vars, 0, f) && (HasVariadic(m, cs) ==> AllHold(m, cs[f], vars[f..])))
  {
    ListExactFrom(m, cs, vars, 0);
  }
}
