/** Multiple assignment after `unpack(concat(...))` has been elided. */
module LuaAssign {
  // The elided values are the source cells themselves, and each target is then copied to in turn.
  // Section 3.3.3 of the Lua 5.3 Reference Manual wants all sources read first.

  import opened LuaCalls

  function WriteAll(heap: Heap, tgts: seq<Loc>, vals: seq<Val>): Heap
    decreases tgts
  {
    if tgts == [] || vals == [] then heap
    else WriteAll(if tgts[0] < |heap| then heap[tgts[0] := vals[0]] else heap, tgts[1..], vals[1..])
  }

  /** The assignment the manual describes. */
  function AssignTogether(heap: Heap, tgts: seq<Loc>, srcs: seq<Loc>): seq<Val> {
    WriteAll(heap, tgts, ReadAll(heap, srcs))
  }

  predicate Distinct(ls: seq<Loc>) { forall i, j :: 0 <= i < j < |ls| ==> ls[i] != ls[j] }

  /** No source reads an earlier target, unless that target was assigned to itself. */
  predicate NoLateRead(tgts: seq<Loc>, srcs: seq<Loc>)
    requires |tgts| == |srcs|
  {
    forall i, j :: 0 <= i < j < |srcs| && srcs[j] == tgts[i] ==> srcs[i] == tgts[i]
  }

  lemma {:induction false} InOrderIsTogether(heap: Heap, tgts: seq<Loc>, srcs: seq<Loc>)
    requires |tgts| == |srcs| && NoLateRead(tgts, srcs)
    ensures CopyAll(heap, tgts, srcs) == AssignTogether(heap, tgts, srcs)
    decreases tgts
  {
    if tgts != [] {
      var h1 := if tgts[0] < |heap| then heap[tgts[0] := Read(heap, srcs[0])] else heap;
      InOrderIsTogether(h1, tgts[1..], srcs[1..]);
      forall j | 0 <= j < |srcs| - 1
        ensures ReadAll(h1, srcs[1..])[j] == ReadAll(heap, srcs)[1..][j]
      {
        assert srcs[j + 1] == tgts[0] ==> srcs[0] == tgts[0];
      }
      assert ReadAll(h1, srcs[1..]) == ReadAll(heap, srcs)[1..];
    }
  }

  lemma {:induction false} CopyAllAppend(heap: Heap, t1: seq<Loc>, s1: seq<Loc>, t2: seq<Loc>, s2: seq<Loc>)
    requires |t1| == |s1| && |t2| == |s2|
    ensures CopyAll(heap, t1 + t2, s1 + s2) == CopyAll(CopyAll(heap, t1, s1), t2, s2)
    decreases t1
  {
    if t1 == [] {
      assert t1 + t2 == t2 && s1 + s2 == s2;
    } else {
      var h1 := if t1[0] < |heap| then heap[t1[0] := Read(heap, s1[0])] else heap;
      assert (t1 + t2)[1..] == t1[1..] + t2 && (s1 + s2)[1..] == s1[1..] + s2;
      CopyAllAppend(h1, t1[1..], s1[1..], t2, s2);
    }
  }

  /** A cell that is no target keeps its value, and so does the heap its size. */
  lemma {:induction false} CopyAllElsewhere(heap: Heap, tgts: seq<Loc>, srcs: seq<Loc>, l: Loc)
    requires l !in tgts
    ensures Read(CopyAll(heap, tgts, srcs), l) == Read(heap, l) && |CopyAll(heap, tgts, srcs)| == |heap|
    decreases tgts
  {
    if tgts != [] && srcs != [] {
      var h1 := if tgts[0] < |heap| then heap[tgts[0] := Read(heap, srcs[0])] else heap;
      CopyAllElsewhere(h1, tgts[1..], srcs[1..], l);
    }
  }

  /** Writing together gives each of distinct targets its own value. */
  lemma {:induction false} WriteAllAt(heap: Heap, tgts: seq<Loc>, vals: seq<Val>, j: nat)
    requires |tgts| == |vals| && Distinct(tgts) && j < |tgts| && tgts[j] < |heap|
    ensures |WriteAll(heap, tgts, vals)| == |heap| && WriteAll(heap, tgts, vals)[tgts[j]] == vals[j]
    decreases tgts
  {
    var h1 := if tgts[0] < |heap| then heap[tgts[0] := vals[0]] else heap;
    if j > 0 {
      WriteAllAt(h1, tgts[1..], vals[1..], j - 1);
    } else {
      WriteAllElsewhere(h1, tgts[1..], vals[1..], tgts[0]);
    }
  }

  lemma {:induction false} WriteAllElsewhere(heap: Heap, tgts: seq<Loc>, vals: seq<Val>, l: Loc)
    requires l < |heap| && l !in tgts
    ensures |WriteAll(heap, tgts, vals)| == |heap| && WriteAll(heap, tgts, vals)[l] == heap[l]
    decreases tgts
  {
    if tgts != [] && vals != [] {
      WriteAllElsewhere(if tgts[0] < |heap| then heap[tgts[0] := vals[0]] else heap, tgts[1..], vals[1..], l);
    }
  }

  /** Cells whose values all differ. */
  function Distinguishing(n: nat): (h: seq<Val>)
    ensures |h| == n && forall l: Loc :: l < n ==> h[l] == Num(l)
  {
    seq(n, i => Num(i))
  }

  /** Sources and targets are cells that exist. */
  predicate InHeap(n: nat, tgts: seq<Loc>, srcs: seq<Loc>) {
    (forall i :: 0 <= i < |tgts| ==> tgts[i] < n) && (forall i :: 0 <= i < |srcs| ==> srcs[i] < n)
  }

  /** By the time source `j` is read, its cell holds what target `i` was given. */
  lemma LateReadPrefix(n: nat, tgts: seq<Loc>, srcs: seq<Loc>, i: nat)
    requires |tgts| == |srcs| && Distinct(tgts) && InHeap(n, tgts, srcs) && i < |srcs| && NoLateRead(tgts, srcs)
    ensures var h := CopyAll(Distinguishing(n), tgts, srcs); |h| == n && Read(h, tgts[i]) == Num(srcs[i])
  {
    var h := Distinguishing(n);
    InOrderIsTogether(h, tgts, srcs);
    WriteAllAt(h, tgts, ReadAll(h, srcs), i);
  }

  lemma LateReadShows(n: nat, tgts: seq<Loc>, srcs: seq<Loc>, i: nat, j: nat)
    requires |tgts| == |srcs| && Distinct(tgts) && InHeap(n, tgts, srcs)
    requires i < j < |srcs| && srcs[j] == tgts[i] && srcs[i] != tgts[i]
    requires NoLateRead(tgts[..j], srcs[..j])
    ensures CopyAll(Distinguishing(n), tgts, srcs) != AssignTogether(Distinguishing(n), tgts, srcs)
  {
    hide CopyAll, WriteAll, NoLateRead;
    var h := Distinguishing(n);
    var h1 := CopyAll(h, tgts[..j], srcs[..j]);
    LateReadPrefix(n, tgts[..j], srcs[..j], i);
    CopyFrom(h, tgts, srcs, j);
    CopyOne(h1, tgts[j], srcs[j], tgts[j + 1..], srcs[j + 1..]);
    assert ReadAll(h, srcs)[j] == Num(srcs[j]);
    WriteAllAt(h, tgts, ReadAll(h, srcs), j);
  }

  /** Copying up to a position, and then from there on. */
  lemma CopyFrom(heap: Heap, tgts: seq<Loc>, srcs: seq<Loc>, j: nat)
    requires j < |tgts| == |srcs|
    ensures CopyAll(heap, tgts, srcs)
            == CopyAll(CopyAll(heap, tgts[..j], srcs[..j]), [tgts[j]] + tgts[j + 1..], [srcs[j]] + srcs[j + 1..])
  {
    hide CopyAll;
    assert tgts == tgts[..j] + ([tgts[j]] + tgts[j + 1..]) && srcs == srcs[..j] + ([srcs[j]] + srcs[j + 1..]);
    CopyAllAppend(heap, tgts[..j], srcs[..j], [tgts[j]] + tgts[j + 1..], [srcs[j]] + srcs[j + 1..]);
  }

  lemma CopyOne(heap: Heap, t: Loc, s: Loc, tgts: seq<Loc>, srcs: seq<Loc>)
    requires t < |heap| && t !in tgts
    ensures Read(CopyAll(heap, [t] + tgts, [s] + srcs), t) == Read(heap, s)
  {
    assert ([t] + tgts)[1..] == tgts && ([s] + srcs)[1..] == srcs;
    CopyAllElsewhere(heap[t := Read(heap, s)], tgts, srcs, t);
  }

  lemma {:induction false} LateReadFound(n: nat, tgts: seq<Loc>, srcs: seq<Loc>, m: nat)
    requires |tgts| == |srcs| && Distinct(tgts) && InHeap(n, tgts, srcs) && m <= |srcs|
    requires !NoLateRead(tgts[..m], srcs[..m])
    ensures CopyAll(Distinguishing(n), tgts, srcs) != AssignTogether(Distinguishing(n), tgts, srcs)
    decreases m
  {
    if !NoLateRead(tgts[..m - 1], srcs[..m - 1]) {
      LateReadFound(n, tgts, srcs, m - 1);
    } else {
      var i, j :| 0 <= i < j < m && srcs[..m][j] == tgts[..m][i] && srcs[..m][i] != tgts[..m][i];
      assert forall a, b :: 0 <= a < b < m - 1 && srcs[b] == tgts[a] ==> srcs[a] == tgts[a] by {
        assert forall k :: 0 <= k < m - 1 ==> srcs[..m - 1][k] == srcs[k] && tgts[..m - 1][k] == tgts[k];
      }
      assert j == m - 1;
      LateReadShows(n, tgts, srcs, i, j);
    }
  }

  /** Copying in order is the manual's assignment, in every heap, exactly when no source reads an
      earlier target that changed. */
  lemma AssignExact(n: nat, tgts: seq<Loc>, srcs: seq<Loc>)
    requires |tgts| == |srcs| && Distinct(tgts) && InHeap(n, tgts, srcs)
    ensures (forall heap :: |heap| == n ==> CopyAll(heap, tgts, srcs) == AssignTogether(heap, tgts, srcs))
            <==> NoLateRead(tgts, srcs)
  {
    if NoLateRead(tgts, srcs) {
      forall heap: Heap | |heap| == n
        ensures CopyAll(heap, tgts, srcs) == AssignTogether(heap, tgts, srcs)
      {
        InOrderIsTogether(heap, tgts, srcs);
      }
    } else {
      assert tgts[..|srcs|] == tgts && srcs[..|srcs|] == srcs;
      LateReadFound(n, tgts, srcs, |srcs|);
      assert |Distinguishing(n)| == n;
    }
  }

  /** `a, b = b, a` leaves both variables with b's value. */
  lemma SwapFails(x: Val, y: Val)
    ensures CopyAll([x, y], [0, 1], [1, 0]) == [y, y]
    ensures AssignTogether([x, y], [0, 1], [1, 0]) == [y, x]
  {
    assert [0, 1][1..] == [1] && [1, 0][1..] == [0] && [1][1..] == [] && [0][1..] == [];
    var vs := ReadAll([x, y], [1, 0]);
    assert vs == [y, x];
    assert [x, y][0 := y] == [y, y] && vs[1..] == [x] && [x][1..] == [];
    assert WriteAll([y, y], [1], [x]) == [y, x];
  }
}
