/** Named groups of values. */
module ValueGroups {
  // An op's flat value list is cut into groups, and types are checked group by group.
  //
  // A type constraint is an index into a table of constraints; `ok(c, t)` says that type `t`
  // satisfies constraint `c`.  A variadic constraint passes each value on to its inner one.

  /** `Trap`: a failed assertion, or a range that leaves the value list. */
  datatype Verdict = Success | Failure | Trap

  datatype Option<T> = None | Some(value: T)

  datatype Ty = Ty(base: nat, variadic: bool)

  /** `unsigned` arithmetic wraps here. */
  const W: nat := 0x1_0000_0000

  function NumVariadic(tys: seq<Ty>): (r: nat)
    ensures r <= |tys|
  {
    if tys == [] then 0 else (if tys[0].variadic then 1 else 0) + NumVariadic(tys[1..])
  }

  function Fixed(tys: seq<Ty>): nat { |tys| - NumVariadic(tys) }

  lemma {:induction false} NumVariadicZero(tys: seq<Ty>)
    ensures NumVariadic(tys) == 0 <==> forall i :: 0 <= i < |tys| ==> !tys[i].variadic
    decreases |tys|
  {
    if tys != [] {
      NumVariadicZero(tys[1..]);
      assert forall i :: 1 <= i < |tys| ==> tys[i] == tys[1..][i - 1];
    }
  }

  // ----- Segment sizes

  function Sum(sizes: seq<nat>): nat {
    if sizes == [] then 0 else sizes[0] + Sum(sizes[1..])
  }

  lemma {:induction false} SumAppend(a: seq<nat>, b: seq<nat>)
    ensures Sum(a + b) == Sum(a) + Sum(b)
    decreases |a|
  {
    if a == [] {
      assert a + b == b;
    } else {
      assert (a + b)[1..] == a[1..] + b;
      SumAppend(a[1..], b);
    }
  }

  lemma SumStep(sizes: seq<nat>, i: nat)
    requires i < |sizes|
    ensures Sum(sizes[..i + 1]) == Sum(sizes[..i]) + sizes[i]
    ensures Sum(sizes[..i + 1]) <= Sum(sizes)
  {
    assert sizes[..i + 1] == sizes[..i] + [sizes[i]];
    SumAppend(sizes[..i], [sizes[i]]);
    SumOne(sizes[i]);
    assert sizes == sizes[..i + 1] + sizes[i + 1..];
    SumAppend(sizes[..i + 1], sizes[i + 1..]);
    hide Sum;
  }

  lemma SumOne(size: nat)
    ensures Sum([size]) == size
  {
    assert [size][1..] == [];
  }

  /** What is left for the variadic entries when every other entry takes one value; wraps. */
  function Spare(tys: seq<Ty>, n: nat): nat { (n - Fixed(tys)) % W }

  /** The equal-size trait's check. */
  function CheckVariadicValues(tys: seq<Ty>, n: nat): Verdict {
    if NumVariadic(tys) == 0 then Trap
    else if Spare(tys, n) % NumVariadic(tys) == 0 then Success
    else Failure
  }

  function SegSize(tys: seq<Ty>, n: nat): nat
    requires NumVariadic(tys) != 0
  {
    Spare(tys, n) / NumVariadic(tys)
  }

  function EqualSizes(tys: seq<Ty>, seg: nat): (r: seq<nat>)
    ensures |r| == |tys| && forall i :: 0 <= i < |tys| ==> r[i] == if tys[i].variadic then seg else 1
  {
    seq(|tys|, i requires 0 <= i < |tys| => if tys[i].variadic then seg else 1)
  }

  lemma {:induction false} EqualSum(tys: seq<Ty>, seg: nat)
    ensures Sum(EqualSizes(tys, seg)) == Fixed(tys) + NumVariadic(tys) * seg
    decreases |tys|
  {
    if tys != [] {
      EqualSum(tys[1..], seg);
      assert EqualSizes(tys, seg)[1..] == EqualSizes(tys[1..], seg);
      assert (1 + NumVariadic(tys[1..])) * seg == seg + NumVariadic(tys[1..]) * seg;
    }
  }

  /** The sizes an op is cut by are usable: one per entry, 1 for a fixed entry, all values used. */
  predicate Cuts(tys: seq<Ty>, sizes: seq<nat>, n: nat) {
    |sizes| == |tys| && Sum(sizes) == n && forall i :: 0 <= i < |tys| ==> tys[i].variadic || sizes[i] == 1
  }

  /** With a variadic entry and enough values, equal sizes use up the list exactly when the trait's
      check succeeds. */
  lemma EqualSizesCut(tys: seq<Ty>, n: nat)
    requires NumVariadic(tys) > 0 && Fixed(tys) <= n < W
    ensures CheckVariadicValues(tys, n) == Success <==> Cuts(tys, EqualSizes(tys, SegSize(tys, n)), n)
  {
    EqualSum(tys, SegSize(tys, n));
    DivExact(Spare(tys, n), NumVariadic(tys));
    assert Spare(tys, n) == n - Fixed(tys);
  }

  lemma DivExact(s: nat, v: nat)
    requires v > 0
    ensures s % v == 0 <==> v * (s / v) == s
  {
    assert s == v * (s / v) + s % v;
  }

  /** With fewer values than fixed entries the subtraction wraps, and the sizes add up to 2^32 more
      values than there are wherever the trait's check succeeds. */
  lemma WrappedSum(tys: seq<Ty>, n: nat)
    requires NumVariadic(tys) > 0 && n < Fixed(tys) < W && CheckVariadicValues(tys, n) == Success
    ensures Sum(EqualSizes(tys, SegSize(tys, n))) == n + W
  {
    EqualSum(tys, SegSize(tys, n));
    DivExact(Spare(tys, n), NumVariadic(tys));
    assert Spare(tys, n) == n - Fixed(tys) + W;
  }

  // ----- Groups

  /** Values from `first` up to, not including, `last`. */
  datatype Range = Range(first: nat, last: nat)

  /** Group `idx` of `n` values, `None` where the range would leave the list or the sizes run out;
      past the last entry, the empty range at the end. */
  function GetGroup(tys: seq<Ty>, sizes: seq<nat>, n: nat, idx: nat): Option<Range> {
    if idx >= |tys| then Some(Range(n, n))
    else if idx >= |sizes| then None
    else
      var start := Sum(sizes[..idx]) % W;
      if start + sizes[idx] <= n then Some(Range(start, start + sizes[idx])) else None
  }

  function Join<T>(groups: seq<seq<T>>): seq<T> {
    if groups == [] then [] else groups[0] + Join(groups[1..])
  }

  function Group<T>(tys: seq<Ty>, sizes: seq<nat>, vals: seq<T>, idx: nat): seq<T>
    requires GetGroup(tys, sizes, |vals|, idx).Some?
  {
    var r := GetGroup(tys, sizes, |vals|, idx).value;
    if r.first <= r.last <= |vals| then vals[r.first..r.last] else []
  }

  lemma GroupAt(tys: seq<Ty>, sizes: seq<nat>, n: nat, idx: nat)
    requires Cuts(tys, sizes, n) && n < W && idx < |tys|
    ensures GetGroup(tys, sizes, n, idx) == Some(Range(Sum(sizes[..idx]), Sum(sizes[..idx + 1])))
    ensures Sum(sizes[..idx]) <= Sum(sizes[..idx + 1]) == Sum(sizes[..idx]) + sizes[idx] <= n
  {
    SumStep(sizes, idx);
  }

  function AllGroups<T>(tys: seq<Ty>, sizes: seq<nat>, vals: seq<T>): (r: seq<seq<T>>)
    requires Cuts(tys, sizes, |vals|) && |vals| < W
    ensures |r| == |tys|
    ensures forall i :: 0 <= i < |tys| ==>
              GetGroup(tys, sizes, |vals|, i).Some? && r[i] == Group(tys, sizes, vals, i)
  {
    assert forall i :: 0 <= i < |tys| ==> GetGroup(tys, sizes, |vals|, i).Some? by {
      forall i | 0 <= i < |tys| ensures GetGroup(tys, sizes, |vals|, i).Some? { GroupAt(tys, sizes, |vals|, i); }
    }
    seq(|tys|, i requires 0 <= i < |tys| => Group(tys, sizes, vals, i))
  }

  lemma {:induction false} JoinSnoc<T>(a: seq<seq<T>>, b: seq<T>)
    ensures Join(a + [b]) == Join(a) + b
    decreases |a|
  {
    if a == [] {
      assert [b][1..] == [] && a + [b] == [b];
    } else {
      assert (a + [b])[1..] == a[1..] + [b];
      JoinSnoc(a[1..], b);
    }
  }

  lemma GroupIs<T>(tys: seq<Ty>, sizes: seq<nat>, vals: seq<T>, k: nat)
    requires Cuts(tys, sizes, |vals|) && |vals| < W && k < |tys|
    ensures Sum(sizes[..k]) <= Sum(sizes[..k + 1]) <= |vals|
    ensures AllGroups(tys, sizes, vals)[k] == vals[Sum(sizes[..k])..Sum(sizes[..k + 1])]
  {
    GroupAt(tys, sizes, |vals|, k);
    hide Sum, Cuts;
  }

  lemma {:induction false} GroupsUpTo<T>(tys: seq<Ty>, sizes: seq<nat>, vals: seq<T>, k: nat)
    requires Cuts(tys, sizes, |vals|) && |vals| < W && k <= |tys|
    ensures Sum(sizes[..k]) <= |vals| && Join(AllGroups(tys, sizes, vals)[..k]) == vals[..Sum(sizes[..k])]
    decreases k
  {
    if k == 0 {
      assert AllGroups(tys, sizes, vals)[..0] == [];
    } else {
      GroupsUpTo(tys, sizes, vals, k - 1);
      GroupIs(tys, sizes, vals, k - 1);
      hide *;
      JoinNext(AllGroups(tys, sizes, vals), vals, k - 1, Sum(sizes[..k - 1]), Sum(sizes[..k]));
    }
  }

  lemma JoinNext<T>(gs: seq<seq<T>>, vals: seq<T>, k: nat, a: nat, b: nat)
    requires k < |gs| && a <= b <= |vals| && Join(gs[..k]) == vals[..a] && gs[k] == vals[a..b]
    ensures Join(gs[..k + 1]) == vals[..b]
  {
    JoinSnoc(gs[..k], gs[k]);
    assert gs[..k + 1] == gs[..k] + [gs[k]];
    assert vals[..b] == vals[..a] + vals[a..b];
  }

  /** The groups in order are the whole list, and group `i` has the i-th size. */
  lemma Partition<T>(tys: seq<Ty>, sizes: seq<nat>, vals: seq<T>)
    requires Cuts(tys, sizes, |vals|) && |vals| < W
    ensures Join(AllGroups(tys, sizes, vals)) == vals
    ensures forall i :: 0 <= i < |tys| ==> |AllGroups(tys, sizes, vals)[i]| == sizes[i]
  {
    var gs := AllGroups(tys, sizes, vals);
    GroupsUpTo(tys, sizes, vals, |tys|);
    assert gs[..|tys|] == gs && sizes[..|tys|] == sizes && vals[..|vals|] == vals;
    forall i | 0 <= i < |tys|
      ensures |gs[i]| == sizes[i]
    {
      GroupAt(tys, sizes, |vals|, i);
    }
  }

  /** Both getters agree when the attribute lists the sizes the other one computes, and only then
      if every group is in range. */
  lemma GettersAgree(tys: seq<Ty>, sizes: seq<nat>, n: nat)
    requires NumVariadic(tys) > 0 && Fixed(tys) <= n < W && CheckVariadicValues(tys, n) == Success
             && Cuts(tys, sizes, n)
    ensures (forall idx: nat :: GetGroup(tys, sizes, n, idx) == GetGroup(tys, EqualSizes(tys, SegSize(tys, n)), n, idx))
            <==> sizes == EqualSizes(tys, SegSize(tys, n))
  {
    var equal := EqualSizes(tys, SegSize(tys, n));
    EqualSizesCut(tys, n);
    if forall idx: nat :: GetGroup(tys, sizes, n, idx) == GetGroup(tys, equal, n, idx) {
      forall i | 0 <= i < |tys|
        ensures sizes[i] == equal[i]
      {
        GroupAt(tys, sizes, n, i);
        GroupAt(tys, equal, n, i);
        assert GetGroup(tys, sizes, n, i) == GetGroup(tys, equal, n, i);
      }
    }
  }

  /** The getter as it runs: one captured position in the sizes, moved for every entry summed up and
      once more for the length. */
  method GetAttrValueGroup(tys: seq<Ty>, sizes: seq<nat>, n: nat, idx: nat) returns (r: Option<Range>)
    requires n < W
    ensures r == GetGroup(tys, sizes, n, idx)
  {
    if idx >= |tys| {
      return Some(Range(n, n));
    }
    var sz, acc, ty := 0, 0, 0;
    while ty < idx
      invariant 0 <= ty <= idx && sz == ty && sz <= |sizes| && acc == Sum(sizes[..sz]) % W
    {
      if sz == |sizes| {
        return None;
      }
      SumStep(sizes, sz);
      assert (Sum(sizes[..sz]) % W + sizes[sz]) % W == Sum(sizes[..sz + 1]) % W;
      acc, sz, ty := (acc + sizes[sz]) % W, sz + 1, ty + 1;
    }
    if sz == |sizes| {
      return None;
    }
    var len := sizes[sz];
    r := if acc + len <= n then Some(Range(acc, acc + len)) else None;
  }

  // ----- The segment attribute's check

  /** What the base trait has checked already: the sizes add up to the value count. */
  predicate BaseSegments(sizes: seq<nat>, n: nat) { Sum(sizes) == n }

  method CheckVariadicSegments(tys: seq<Ty>, sizes: seq<nat>) returns (r: Verdict)
    ensures r != Trap
    ensures r == Success <==> forall n :: BaseSegments(sizes, n) ==> Cuts(tys, sizes, n)
  {
    assert BaseSegments(sizes, Sum(sizes));
    if |sizes| != |tys| {
      return Failure;
    }
    var sz := 0;
    for ty := 0 to |tys|
      invariant sz == ty && forall i :: 0 <= i < ty ==> tys[i].variadic || sizes[i] == 1
    {
      if sizes[sz] != 1 && !tys[ty].variadic {
        return Failure;
      }
      sz := sz + 1;
    }
    r := Success;
  }

  // ----- Type checks

  predicate AllOk(ok: (nat, nat) -> bool, c: nat, vals: seq<nat>) {
    forall i :: 0 <= i < |vals| ==> ok(c, vals[i])
  }

  /** The grouped check from group `idx` on. */
  function GroupsFrom(ok: (nat, nat) -> bool, tys: seq<Ty>, sizes: seq<nat>, vals: seq<nat>, idx: nat): Verdict
    decreases |tys| - idx
  {
    if idx >= |tys| then Success
    else
      var g := GetGroup(tys, sizes, |vals|, idx);
      if g.None? then Trap
      else if g.value.first == g.value.last && !tys[idx].variadic then Trap
      else if !AllOk(ok, tys[idx].base, Group(tys, sizes, vals, idx)) then Failure
      else GroupsFrom(ok, tys, sizes, vals, idx + 1)
  }

  method VerifyValues(ok: (nat, nat) -> bool, c: nat, vals: seq<nat>, group: Range) returns (r: bool)
    requires group.first <= group.last <= |vals|
    ensures r == AllOk(ok, c, vals[group.first..group.last])
  {
    var valIt := group.first;
    while valIt != group.last
      invariant group.first <= valIt <= group.last && forall i :: group.first <= i < valIt ==> ok(c, vals[i])
    {
      if !ok(c, vals[valIt]) {
        assert vals[group.first..group.last][valIt - group.first] == vals[valIt];
        return false;
      }
      valIt := valIt + 1;
    }
    r := true;
  }

  method VerifyVariadicTypes(ok: (nat, nat) -> bool, tys: seq<Ty>, sizes: seq<nat>, vals: seq<nat>) returns (r: Verdict)
    requires |vals| < W
    ensures r == GroupsFrom(ok, tys, sizes, vals, 0)
  {
    hide Sum;
    var groupIdx, tyIt := 0, 0;
    var values := GetAttrValueGroup(tys, sizes, |vals|, groupIdx);
    while tyIt != |tys| || (values.Some? && values.value.first != values.value.last)
      invariant 0 <= tyIt == groupIdx <= |tys| && values == GetGroup(tys, sizes, |vals|, groupIdx)
      invariant GroupsFrom(ok, tys, sizes, vals, 0) == GroupsFrom(ok, tys, sizes, vals, groupIdx)
      decreases |tys| - tyIt
    {
      if values.None? || (values.value.first == values.value.last && !tys[tyIt].variadic) {
        return Trap;
      }
      var allOk := VerifyValues(ok, tys[tyIt].base, vals, values.value);
      if !allOk {
        return Failure;
      }
      tyIt, groupIdx := tyIt + 1, groupIdx + 1;
      values := GetAttrValueGroup(tys, sizes, |vals|, groupIdx);
    }
    r := Success;
  }

  /** One constraint per value: each entry's constraint repeated as often as its size says. */
  function Expand(tys: seq<Ty>, sizes: seq<nat>): seq<nat>
    requires |sizes| == |tys|
    decreases |tys|
  {
    if tys == [] then [] else seq(sizes[0], _ => tys[0].base) + Expand(tys[1..], sizes[1..])
  }

  predicate Pointwise(ok: (nat, nat) -> bool, cs: seq<nat>, vals: seq<nat>) {
    |cs| == |vals| && forall i :: 0 <= i < |vals| ==> ok(cs[i], vals[i])
  }

  lemma {:induction false} GroupsShift(ok: (nat, nat) -> bool, tys: seq<Ty>, sizes: seq<nat>, vals: seq<nat>, idx: nat)
    requires Cuts(tys, sizes, |vals|) && |vals| < W && 0 < |tys| && 0 < idx <= |tys|
    requires sizes[0] <= |vals| && Cuts(tys[1..], sizes[1..], |vals| - sizes[0])
    ensures GroupsFrom(ok, tys, sizes, vals, idx) == GroupsFrom(ok, tys[1..], sizes[1..], vals[sizes[0]..], idx - 1)
    decreases |tys| - idx
  {
    if idx < |tys| {
      hide GetGroup, Group, Cuts, AllOk;
      GroupShift(tys, sizes, vals, idx);
      GroupsShift(ok, tys, sizes, vals, idx + 1);
    }
  }

  lemma GroupShift(tys: seq<Ty>, sizes: seq<nat>, vals: seq<nat>, idx: nat)
    requires Cuts(tys, sizes, |vals|) && |vals| < W && 0 < idx < |tys|
    requires sizes[0] <= |vals| && Cuts(tys[1..], sizes[1..], |vals| - sizes[0])
    ensures var g := GetGroup(tys, sizes, |vals|, idx);
            var h := GetGroup(tys[1..], sizes[1..], |vals| - sizes[0], idx - 1);
            && g.Some? && h.Some? && (g.value.first == g.value.last <==> h.value.first == h.value.last)
            && Group(tys, sizes, vals, idx) == Group(tys[1..], sizes[1..], vals[sizes[0]..], idx - 1)
  {
    GroupAt(tys, sizes, |vals|, idx);
    GroupAt(tys[1..], sizes[1..], |vals| - sizes[0], idx - 1);
    SumShift(sizes, idx);
    SumShift(sizes, idx + 1);
    var a, b := Sum(sizes[..idx]), Sum(sizes[..idx + 1]);
    hide Sum, Cuts, GetGroup;
    assert vals[a..b] == vals[sizes[0]..][a - sizes[0]..b - sizes[0]];
  }

  lemma SumShift(sizes: seq<nat>, idx: nat)
    requires 0 < idx <= |sizes|
    ensures Sum(sizes[..idx]) == sizes[0] + Sum(sizes[1..][..idx - 1])
  {
    assert sizes[..idx][1..] == sizes[1..][..idx - 1];
  }

  /** The grouped check never traps on a list its sizes cut, and succeeds exactly when the expanded
      constraint list holds value by value. */
  lemma {:induction false} GroupedIsPointwise(ok: (nat, nat) -> bool, tys: seq<Ty>, sizes: seq<nat>, vals: seq<nat>)
    requires Cuts(tys, sizes, |vals|) && |vals| < W
    ensures GroupsFrom(ok, tys, sizes, vals, 0) == if Pointwise(ok, Expand(tys, sizes), vals) then Success else Failure
    decreases |tys|
  {
    if tys != [] {
      GroupAt(tys, sizes, |vals|, 0);
      assert sizes[..1] == [sizes[0]];
      var rest := vals[sizes[0]..];
      assert Sum(sizes) == sizes[0] + Sum(sizes[1..]);
      GroupsShift(ok, tys, sizes, vals, 1);
      GroupedIsPointwise(ok, tys[1..], sizes[1..], rest);
      var head := seq(sizes[0], _ => tys[0].base);
      var tail := Expand(tys[1..], sizes[1..]);
      PointwiseSplit(ok, head, tail, vals);
      assert Group(tys, sizes, vals, 0) == vals[..sizes[0]];
    }
  }

  lemma PointwiseSplit(ok: (nat, nat) -> bool, head: seq<nat>, tail: seq<nat>, vals: seq<nat>)
    requires |head| <= |vals|
    ensures Pointwise(ok, head + tail, vals)
            <==> Pointwise(ok, head, vals[..|head|]) && Pointwise(ok, tail, vals[|head|..])
  {
    if Pointwise(ok, head + tail, vals) {
      forall i | 0 <= i < |tail|
        ensures ok(tail[i], vals[|head|..][i])
      {
        assert (head + tail)[|head| + i] == tail[i];
      }
      forall i | 0 <= i < |head|
        ensures ok(head[i], vals[i])
      {
        assert (head + tail)[i] == head[i];
      }
    }
  }
}
