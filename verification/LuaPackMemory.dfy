/** The two global pack buffers. */
module LuaPackMemory {
  // They are filled and read in place; the shortcut that skips them changes no value.

  import opened LuaCalls
  import opened LuaPacks

  class PackBuffers {
    const arg: array<Val>
    const ret: array<Val>

    ghost predicate Valid() { arg.Length == CAPACITY && ret.Length == CAPACITY && arg != ret }

    constructor ()
      ensures Valid() && fresh(arg) && fresh(ret)
    {
      arg := new Val[CAPACITY](_ => Nil);
      ret := new Val[CAPACITY](_ => Nil);
    }

    function Mem(): (m: PackMem)
      requires Valid()
      reads arg, ret
      ensures ValidMem(m)
    {
      PackMem(arg[..], ret[..])
    }

    function At(b: Buf): array<Val> { if b == Arg then arg else ret }

    /** Copies a tail pack behind the listed values, front to back, even within one buffer. */
    method InsertAll(b: Buf, from: Buf, idx: nat, n: nat)
      requires Valid() && idx + n <= CAPACITY
      modifies At(b)
      ensures Mem() == LuaPacks.InsertAll(old(Mem()), b, from, idx, n)
    {
      for i := 0 to n
        invariant Mem() == LuaPacks.InsertAll(old(Mem()), b, from, idx, i)
      {
        assert Buffer(Mem(), from)[i] == At(from)[i];
        At(b)[idx + i] := At(from)[i];
      }
    }

    /** `lua.concat`: `None` when the values would not fit. */
    method Concat(b: Buf, vals: seq<Val>, tail: Option<Pack>) returns (p: Option<Pack>)
      requires Valid()
      modifies At(b)
      ensures var r := Build(old(Mem()), b, vals, tail);
              if r.Ok? then p == Some(r.v.0) && Mem() == r.v.1 else p.None? && Mem() == old(Mem())
    {
      var size := |vals| + (if tail.None? then 0 else tail.value.size);
      if size > CAPACITY {
        return None;
      }
      for i := 0 to |vals|
        invariant Mem() == InsertVals(old(Mem()), b, vals[..i])
      {
        assert vals[..i + 1][..i] == vals[..i];
        At(b)[i] := vals[i];
      }
      assert vals[..|vals|] == vals;
      if tail.Some? {
        InsertAll(b, tail.value.buf, |vals|, tail.value.size);
      }
      p := Some(Pack(b, size));
    }

    /** `lua.unpack` of `n` values. */
    method Unpack(p: Pack, n: nat) returns (vals: seq<Val>)
      requires Valid()
      ensures vals == Unpacked(Mem(), Some(p), n)
    {
      vals := [];
      for i := 0 to n
        invariant |vals| == i && forall j :: 0 <= j < i ==> vals[j] == PackGet(Mem(), p, j)
      {
        vals := vals + [if i < p.size && i < CAPACITY then At(p.buf)[i] else Nil];
      }
    }
  }

  /** What the rewrite of `unpack(concat(vals, tail), n)` yields instead: listed values, then the
      tail read directly, or nil. */
  function Elided(m: PackMem, vals: seq<Val>, tail: Option<Pack>, n: nat): (r: seq<Val>)
    ensures |r| == n
  {
    var k := if |vals| < n then |vals| else n;
    vals[..k] + Unpacked(m, tail, n - k)
  }

  /** Skipping the buffer changes no value, for any number of listed, tail and wanted values. */
  lemma ElideConcatAndUnpack(m: PackMem, vals: seq<Val>, tail: Option<Pack>, n: nat)
    requires ValidMem(m) && (tail.Some? ==> tail.value.buf == Ret && tail.value.size <= CAPACITY)
    requires Build(m, Arg, vals, tail).Ok?
    ensures var (p, m') := Build(m, Arg, vals, tail).v;
            Unpacked(m', Some(p), n) == Elided(m, vals, tail, n)
  {
    hide InsertVals, LuaPacks.InsertAll;
    var (p, m') := Build(m, Arg, vals, tail).v;
    var more := if tail.Some? then m.ret[..tail.value.size] else [];
    BuildExact(m, Arg, vals, more, tail);
    var want := vals + more;
    assert m'.arg[..p.size] == want;
    forall i | 0 <= i < n
      ensures Unpacked(m', Some(p), n)[i] == Elided(m, vals, tail, n)[i]
    {
      if i < p.size {
        assert m'.arg[..p.size][i] == want[i];
      }
    }
  }
}
