/** Splicing one op. */
module LuaLowering {
  // A structured op is spliced into the flat blocks around it: what the op did, the blocks that
  // replace it do, and the other way round.

  import opened LuaIr

  // ----- What the patterns build, once the regions have been copied

  /** The block that held the op keeps the ops before it and now ends in `term`;
      `added` are the blocks the pattern inserts, the last of which takes the ops after it.
      `Malformed` is a region ended by the wrong terminator, which the patterns reject. */
  datatype Split = Malformed | Split(term: Term, added: Cfg)

  predicate ArmOk(t: Term) { t.End? || t.Ret? }

  function ArmTerm(t: Term, after: BlockId): Term {
    if t.End? then Br(after) else t
  }

  function SpliceCondIf(c: Name, a: Block, b: Block, post: seq<Op>, t: Term, n: BlockId): Split {
    if !ArmOk(a.term) || !ArmOk(b.term) then Malformed
    else Split(CondBr(c, n, n + 1),
               map[n := Block(a.ops, ArmTerm(a.term, n + 2)),
                   n + 1 := Block(b.ops, ArmTerm(b.term, n + 2)),
                   n + 2 := Block(post, t)])
  }

  function SpliceLoopWhile(e: Block, b: Block, post: seq<Op>, t: Term, n: BlockId): Split {
    if !e.term.Cond? || !b.term.End? then Malformed
    else Split(Br(n),
               map[n := Block(e.ops, CondBr(e.term.c, n + 1, n + 2)),
                   n + 1 := Block(b.ops, Br(n)),
                   n + 2 := Block(post, t)])
  }

  function SpliceRepeat(b: Block, e: Block, post: seq<Op>, t: Term, n: BlockId): Split {
    if !b.term.Until? || !e.term.Cond? then Malformed
    else Split(Br(n),
               map[n := Block(b.ops + e.ops, CondBr(e.term.c, n + 1, n)),
                   n + 1 := Block(post, t)])
  }

  function Splice(op: Op, post: seq<Op>, t: Term, n: BlockId): Split
    requires IsStructured(op)
  {
    match op
    case CondIf(c, a, b) => SpliceCondIf(c, a, b, post, t, n)
    case LoopWhile(e, b) => SpliceLoopWhile(e, b, post, t, n)
    case Repeat(b, e) => SpliceRepeat(b, e, post, t, n)
  }

  ghost predicate Has(g: Cfg, d: BlockId, ops: seq<Op>, t: Term) {
    d in g && g[d] == Block(ops, t)
  }

  ghost predicate HasCondIf(g: Cfg, c: Name, a: Block, b: Block, post: seq<Op>, t: Term, n: BlockId) {
    && ArmOk(a.term) && ArmOk(b.term)
    && Has(g, n, a.ops, ArmTerm(a.term, n + 2))
    && Has(g, n + 1, b.ops, ArmTerm(b.term, n + 2))
    && Has(g, n + 2, post, t)
  }

  ghost predicate HasLoopWhile(g: Cfg, e: Block, b: Block, post: seq<Op>, t: Term, n: BlockId) {
    && e.term.Cond? && b.term.End?
    && Has(g, n, e.ops, CondBr(e.term.c, n + 1, n + 2))
    && Has(g, n + 1, b.ops, Br(n))
    && Has(g, n + 2, post, t)
  }

  ghost predicate HasRepeat(g: Cfg, b: Block, e: Block, post: seq<Op>, t: Term, n: BlockId) {
    && b.term.Until? && e.term.Cond?
    && Has(g, n, b.ops + e.ops, CondBr(e.term.c, n + 1, n))
    && Has(g, n + 1, post, t)
  }

  ghost predicate HasSplice(g: Cfg, op: Op, post: seq<Op>, t: Term, n: BlockId)
    requires IsStructured(op)
  {
    match op
    case CondIf(c, a, b) => HasCondIf(g, c, a, b, post, t, n)
    case LoopWhile(e, b) => HasLoopWhile(g, e, b, post, t, n)
    case Repeat(b, e) => HasRepeat(g, b, e, post, t, n)
  }

  // ----- The spliced blocks do what the op did

  /** Going on with `post` after an op that had outcome `o`. */
  function RunAfter(sem: Sem, g: Cfg, o: Out, post: seq<Op>, t: Term, f: nat): Out {
    if o.Normal? then RunCode(sem, g, post, t, o.st, f) else o
  }

  lemma RunCons(sem: Sem, g: Cfg, op: Op, post: seq<Op>, t: Term, s: St, f: nat)
    ensures RunCode(sem, g, [op] + post, t, s, f) == RunAfter(sem, g, ExecOp(sem, op, s, f), post, t, f)
  {
    assert ([op] + post)[1..] == post;
  }

  /** A branch to a known block runs its ops, then its terminator. */
  lemma StepTo(sem: Sem, g: Cfg, t: Term, s: St, f: nat, d: BlockId, ops: seq<Op>, t': Term)
    requires Leave(t, s) == To(d) && Has(g, d, ops, t')
    ensures RunTerm(sem, g, t, s, f) ==
            if f == 0 then Timeout else RunAfter(sem, g, ExecOps(sem, ops, s, f - 1), [], t', f - 1)
  {
    if f > 0 {
      var o := ExecOps(sem, ops, s, f - 1);
      assert RunTerm(sem, g, t, s, f) == RunCode(sem, g, ops, t', s, f - 1);
      if o.Normal? {
        assert ExecOps(sem, [], o.st, f - 1) == o;
      }
    }
  }

  lemma {:induction false} CodeRunsTo(sem: Sem, g: Cfg, ops: seq<Op>, t: Term, s: St, f: nat, d: BlockId, r: Out)
    requires var o := ExecOps(sem, ops, s, f); o.Normal? && Leave(t, o.st) == To(d) && d in g
    requires CodeRuns(sem, g, g[d].ops, g[d].term, ExecOps(sem, ops, s, f).st, r)
    ensures CodeRuns(sem, g, ops, t, s, r)
  {
    var s1 := ExecOps(sem, ops, s, f).st;
    var k: nat :| RunCode(sem, g, g[d].ops, g[d].term, s1, k) == r;
    var m := f + k + 1;
    RunCodeMono(sem, g, g[d].ops, g[d].term, s1, k, m - 1);
    ExecOpsMono(sem, ops, s, f, m);
    assert RunCode(sem, g, ops, t, s, m) == r;
  }

  lemma {:induction false} WhileFwd(
      sem: Sem, g: Cfg, e: Block, b: Block, post: seq<Op>, t: Term, n: BlockId, s: St, f: nat, k: nat, r: Out)
    requires HasLoopWhile(g, e, b, post, t, n)
    requires Definite(r)
    requires RunAfter(sem, g, ExecOp(sem, LoopWhile(e, b), s, f), post, t, k) == r
    ensures RunTerm(sem, g, Br(n), s, 2 * f + k + 1) == r
    decreases f
  {
    StepTo(sem, g, Br(n), s, 2 * f + k + 1, n, e.ops, CondBr(e.term.c, n + 1, n + 2));
    ExecOpsMono(sem, e.ops, s, f, 2 * f + k);
    var o := ExecOps(sem, e.ops, s, f);
    if o.Normal? {
      var s1 := o.st;
      if !Test(s1, e.term.c) {
        RunCodeMono(sem, g, post, t, s1, k, 2 * f + k - 1);
      } else {
        StepTo(sem, g, CondBr(e.term.c, n + 1, n + 2), s1, 2 * f + k, n + 1, b.ops, Br(n));
        ExecOpsMono(sem, b.ops, s1, f, 2 * f + k - 1);
        var o2 := ExecOps(sem, b.ops, s1, f);
        if o2.Normal? {
          WhileFwd(sem, g, e, b, post, t, n, o2.st, f - 1, k, r);
        }
      }
    }
  }

  lemma {:induction false} WhileBwd(
      sem: Sem, g: Cfg, e: Block, b: Block, post: seq<Op>, t: Term, n: BlockId, s: St, f: nat)
    requires HasLoopWhile(g, e, b, post, t, n)
    requires Definite(RunTerm(sem, g, Br(n), s, f))
    ensures RunCode(sem, g, [LoopWhile(e, b)] + post, t, s, f) == RunTerm(sem, g, Br(n), s, f)
    decreases f
  {
    var op := LoopWhile(e, b);
    StepTo(sem, g, Br(n), s, f, n, e.ops, CondBr(e.term.c, n + 1, n + 2));
    RunCons(sem, g, op, post, t, s, f);
    ExecOpsMono(sem, e.ops, s, f - 1, f);
    var o := ExecOps(sem, e.ops, s, f - 1);
    if o.Normal? {
      var s1 := o.st;
      if !Test(s1, e.term.c) {
        RunCodeMono(sem, g, post, t, s1, f - 2, f);
      } else {
        StepTo(sem, g, CondBr(e.term.c, n + 1, n + 2), s1, f - 1, n + 1, b.ops, Br(n));
        ExecOpsMono(sem, b.ops, s1, f - 2, f);
        var o2 := ExecOps(sem, b.ops, s1, f - 2);
        if o2.Normal? {
          WhileBwd(sem, g, e, b, post, t, n, o2.st, f - 2);
          RunCons(sem, g, op, post, t, o2.st, f - 2);
          ExecOpMono(sem, op, o2.st, f - 2, f - 1);
          var o3 := ExecOp(sem, op, o2.st, f - 2);
          if o3.Normal? {
            RunCodeMono(sem, g, post, t, o3.st, f - 2, f);
          }
        }
      }
    }
  }

  lemma {:induction false} RepeatFwd(
      sem: Sem, g: Cfg, b: Block, e: Block, post: seq<Op>, t: Term, n: BlockId, s: St, f: nat, k: nat, r: Out)
    requires HasRepeat(g, b, e, post, t, n)
    requires Definite(r)
    requires RunAfter(sem, g, ExecOp(sem, Repeat(b, e), s, f), post, t, k) == r
    ensures RunTerm(sem, g, Br(n), s, f + k + 1) == r
    decreases f
  {
    StepTo(sem, g, Br(n), s, f + k + 1, n, b.ops + e.ops, CondBr(e.term.c, n + 1, n));
    ExecOpsAppend(sem, b.ops, e.ops, s, f + k);
    ExecOpsMono(sem, b.ops, s, f, f + k);
    var o := ExecOps(sem, b.ops, s, f);
    if o.Normal? {
      ExecOpsMono(sem, e.ops, o.st, f, f + k);
      var o2 := ExecOps(sem, e.ops, o.st, f);
      if o2.Normal? {
        var s2 := o2.st;
        if Test(s2, e.term.c) {
          RunCodeMono(sem, g, post, t, s2, k, f + k - 1);
        } else {
          RepeatFwd(sem, g, b, e, post, t, n, s2, f - 1, k, r);
          assert RunTerm(sem, g, CondBr(e.term.c, n + 1, n), s2, f + k) == RunTerm(sem, g, Br(n), s2, f + k);
        }
      }
    }
  }

  lemma {:induction false} RepeatBwd(
      sem: Sem, g: Cfg, b: Block, e: Block, post: seq<Op>, t: Term, n: BlockId, s: St, f: nat)
    requires HasRepeat(g, b, e, post, t, n)
    requires Definite(RunTerm(sem, g, Br(n), s, f))
    ensures RunCode(sem, g, [Repeat(b, e)] + post, t, s, f) == RunTerm(sem, g, Br(n), s, f)
    decreases f
  {
    var op := Repeat(b, e);
    RunCons(sem, g, op, post, t, s, f);
    StepTo(sem, g, Br(n), s, f, n, b.ops + e.ops, CondBr(e.term.c, n + 1, n));
    ExecOpsAppend(sem, b.ops, e.ops, s, f - 1);
    ExecOpsMono(sem, b.ops, s, f - 1, f);
    var o := ExecOps(sem, b.ops, s, f - 1);
    if o.Normal? {
      ExecOpsMono(sem, e.ops, o.st, f - 1, f);
      var o2 := ExecOps(sem, e.ops, o.st, f - 1);
      if o2.Normal? {
        var s2 := o2.st;
        if Test(s2, e.term.c) {
          RunCodeMono(sem, g, post, t, s2, f - 2, f);
        } else {
          assert RunTerm(sem, g, CondBr(e.term.c, n + 1, n), s2, f - 1) == RunTerm(sem, g, Br(n), s2, f - 1);
          RepeatBwd(sem, g, b, e, post, t, n, s2, f - 1);
          RunCons(sem, g, op, post, t, s2, f - 1);
          var o3 := ExecOp(sem, op, s2, f - 1);
          if o3.Normal? {
            RunCodeMono(sem, g, post, t, o3.st, f - 1, f);
          }
        }
      }
    }
  }

  lemma {:induction false} CondIfFwd(
      sem: Sem, g: Cfg, c: Name, a: Block, b: Block, post: seq<Op>, t: Term, n: BlockId, s: St, f: nat)
    requires HasCondIf(g, c, a, b, post, t, n)
    requires Definite(RunCode(sem, g, [CondIf(c, a, b)] + post, t, s, f))
    ensures RunTerm(sem, g, CondBr(c, n, n + 1), s, f + 2) == RunCode(sem, g, [CondIf(c, a, b)] + post, t, s, f)
  {
    RunCons(sem, g, CondIf(c, a, b), post, t, s, f);
    var arm := if Test(s, c) then a else b;
    StepTo(sem, g, CondBr(c, n, n + 1), s, f + 2, if Test(s, c) then n else n + 1, arm.ops, ArmTerm(arm.term, n + 2));
    ExecOpsMono(sem, arm.ops, s, f, f + 1);
    var o := ExecOps(sem, arm.ops, s, f);
    if o.Normal? && arm.term.End? {
      StepTo(sem, g, Br(n + 2), o.st, f + 1, n + 2, post, t);
    }
  }

  lemma {:induction false} CondIfBwd(
      sem: Sem, g: Cfg, c: Name, a: Block, b: Block, post: seq<Op>, t: Term, n: BlockId, s: St, f: nat)
    requires HasCondIf(g, c, a, b, post, t, n)
    requires Definite(RunTerm(sem, g, CondBr(c, n, n + 1), s, f))
    ensures RunCode(sem, g, [CondIf(c, a, b)] + post, t, s, f) == RunTerm(sem, g, CondBr(c, n, n + 1), s, f)
  {
    RunCons(sem, g, CondIf(c, a, b), post, t, s, f);
    var arm := if Test(s, c) then a else b;
    StepTo(sem, g, CondBr(c, n, n + 1), s, f, if Test(s, c) then n else n + 1, arm.ops, ArmTerm(arm.term, n + 2));
    ExecOpsMono(sem, arm.ops, s, f - 1, f);
    var o := ExecOps(sem, arm.ops, s, f - 1);
    if o.Normal? && arm.term.End? {
      StepTo(sem, g, Br(n + 2), o.st, f - 1, n + 2, post, t);
      RunCodeMono(sem, g, post, t, o.st, f - 2, f);
    }
  }

  /** Both directions for any op, with the ops that precede it in its block. */
  lemma {:induction false} SpliceFwd(sem: Sem, g: Cfg, pre: seq<Op>, op: Op, post: seq<Op>, t: Term, n: BlockId, s: St,
      r: Out)
    requires IsStructured(op)
    requires Splice(op, post, t, n).Split? && HasSplice(g, op, post, t, n)
    requires CodeRuns(sem, g, pre + [op] + post, t, s, r)
    ensures CodeRuns(sem, g, pre, Splice(op, post, t, n).term, s, r)
  {
    hide Splice, HasSplice, ExecOp;
    var term := Splice(op, post, t, n).term;
    var f: nat :| RunCode(sem, g, pre + [op] + post, t, s, f) == r;
    assert pre + [op] + post == pre + ([op] + post);
    ExecOpsAppend(sem, pre, [op] + post, s, f);
    var o := ExecOps(sem, pre, s, f);
    if o.Normal? {
      RunCons(sem, g, op, post, t, o.st, f);
      var k := OpFwd(sem, g, op, post, t, n, o.st, f, r);
      ExecOpsMono(sem, pre, s, f, k);
      assert RunCode(sem, g, pre, term, s, k) == r;
    } else {
      assert RunCode(sem, g, pre, term, s, f) == r;
    }
  }

  lemma OpFwd(sem: Sem, g: Cfg, op: Op, post: seq<Op>, t: Term, n: BlockId, s: St, f: nat, r: Out) returns (k: nat)
    requires IsStructured(op) && Definite(r)
    requires Splice(op, post, t, n).Split? && HasSplice(g, op, post, t, n)
    requires RunAfter(sem, g, ExecOp(sem, op, s, f), post, t, f) == r
    ensures k >= f && RunTerm(sem, g, Splice(op, post, t, n).term, s, k) == r
  {
    match op {
      case CondIf(c, a, b) =>
        k := f + 2;
        CondIfFwd(sem, g, c, a, b, post, t, n, s, f);
      case LoopWhile(e, b) =>
        k := 2 * f + f + 1;
        WhileFwd(sem, g, e, b, post, t, n, s, f, f, r);
      case Repeat(b, e) =>
        k := f + f + 1;
        RepeatFwd(sem, g, b, e, post, t, n, s, f, f, r);
    }
  }

  lemma {:induction false} SpliceBwd(sem: Sem, g: Cfg, pre: seq<Op>, op: Op, post: seq<Op>, t: Term, n: BlockId, s: St,
      f: nat)
    requires IsStructured(op)
    requires Splice(op, post, t, n).Split? && HasSplice(g, op, post, t, n)
    requires Definite(RunCode(sem, g, pre, Splice(op, post, t, n).term, s, f))
    ensures RunCode(sem, g, pre + [op] + post, t, s, f) == RunCode(sem, g, pre, Splice(op, post, t, n).term, s, f)
  {
    assert pre + [op] + post == pre + ([op] + post);
    ExecOpsAppend(sem, pre, [op] + post, s, f);
    var o := ExecOps(sem, pre, s, f);
    if o.Normal? {
      match op {
        case CondIf(c, a, b) => CondIfBwd(sem, g, c, a, b, post, t, n, o.st, f);
        case LoopWhile(e, b) => WhileBwd(sem, g, e, b, post, t, n, o.st, f);
        case Repeat(b, e) => RepeatBwd(sem, g, b, e, post, t, n, o.st, f);
      }
    }
  }

  // ----- Replacing one block of a graph

  function Targets(t: Term): set<BlockId> {
    match t
    case Br(d) => {d}
    case CondBr(_, d1, d2) => {d1, d2}
    case _ => {}
  }

  /** Every block number in use is below `n`, and every branch stays in the graph. */
  ghost predicate Closed(g: Cfg, n: BlockId) {
    (forall d :: d in g ==> d < n) && forall d {:trigger Targets(g[d].term)} :: d in g ==> Targets(g[d].term) <= g.Keys
  }

  /** Lowering the op at position `i` of block `b`, with new blocks numbered from `n`. */
  function SpliceAt(g: Cfg, b: BlockId, i: nat, n: BlockId): Split {
    if b in g && i < |g[b].ops| && IsStructured(g[b].ops[i])
    then Splice(g[b].ops[i], g[b].ops[i + 1..], g[b].term, n)
    else Malformed
  }

  function Spliced(g: Cfg, b: BlockId, i: nat, n: BlockId): Cfg
    requires SpliceAt(g, b, i, n).Split?
  {
    g[b := Block(g[b].ops[..i], SpliceAt(g, b, i, n).term)] + SpliceAt(g, b, i, n).added
  }

  /** `g'` is `g` with the op at position `i` of block `b` spliced out. */
  ghost predicate Replaces(g: Cfg, g': Cfg, b: BlockId, i: nat, n: BlockId) {
    && SpliceAt(g, b, i, n).Split?
    && HasSplice(g', g[b].ops[i], g[b].ops[i + 1..], g[b].term, n)
    && Has(g', b, g[b].ops[..i], SpliceAt(g, b, i, n).term)
    && (forall d :: d in g ==> d in g' && (d != b ==> g'[d] == g[d]))
    && (forall d :: d in g ==> Targets(g[d].term) <= g.Keys)
  }

  lemma SplicedReplaces(g: Cfg, b: BlockId, i: nat, n: BlockId)
    requires Closed(g, n) && SpliceAt(g, b, i, n).Split?
    ensures Replaces(g, Spliced(g, b, i, n), b, i, n)
  {
    var g' := Spliced(g, b, i, n);
    var sp := SpliceAt(g, b, i, n);
    assert forall d :: d in sp.added ==> g'[d] == sp.added[d];
    assert n in sp.added && n + 1 in sp.added && (!g[b].ops[i].Repeat? ==> n + 2 in sp.added);
    assert forall d :: d in g ==> d !in sp.added;
  }

  lemma {:induction false} ReplacedFwd(sem: Sem, g: Cfg, g': Cfg, b: BlockId, i: nat, n: BlockId, ops: seq<Op>, t: Term,
      s: St, f: nat)
    requires Replaces(g, g', b, i, n) && Targets(t) <= g.Keys
    requires Definite(RunCode(sem, g, ops, t, s, f))
    ensures CodeRuns(sem, g', ops, t, s, RunCode(sem, g, ops, t, s, f))
    decreases f
  {
    var r := RunCode(sem, g, ops, t, s, f);
    var o := ExecOps(sem, ops, s, f);
    if o.Normal? && Leave(t, o.st).To? {
      var d := Leave(t, o.st).dest;
      ReplacedFwd(sem, g, g', b, i, n, g[d].ops, g[d].term, o.st, f - 1);
      if d == b {
        assert g[b].ops == g[b].ops[..i] + [g[b].ops[i]] + g[b].ops[i + 1..];
        SpliceFwd(sem, g', g[b].ops[..i], g[b].ops[i], g[b].ops[i + 1..], g[b].term, n, o.st, r);
      }
      CodeRunsTo(sem, g', ops, t, s, f, d, r);
    } else {
      assert RunCode(sem, g', ops, t, s, f) == r;
    }
  }

  lemma {:induction false} ReplacedBwd(sem: Sem, g: Cfg, g': Cfg, b: BlockId, i: nat, n: BlockId, ops: seq<Op>, t: Term,
      s: St, f: nat)
    requires Replaces(g, g', b, i, n) && Targets(t) <= g.Keys
    requires Definite(RunCode(sem, g', ops, t, s, f))
    ensures CodeRuns(sem, g, ops, t, s, RunCode(sem, g', ops, t, s, f))
    decreases f
  {
    var r := RunCode(sem, g', ops, t, s, f);
    var o := ExecOps(sem, ops, s, f);
    if o.Normal? && Leave(t, o.st).To? {
      var d := Leave(t, o.st).dest;
      if d == b {
        assert g[b].ops == g[b].ops[..i] + [g[b].ops[i]] + g[b].ops[i + 1..];
        SpliceBwd(sem, g', g[b].ops[..i], g[b].ops[i], g[b].ops[i + 1..], g[b].term, n, o.st, f - 1);
      }
      ReplacedBwd(sem, g, g', b, i, n, g[d].ops, g[d].term, o.st, f - 1);
      CodeRunsTo(sem, g, ops, t, s, f, d, r);
    } else {
      assert RunCode(sem, g, ops, t, s, f) == r;
    }
  }

  /** Lowering one op leaves every outcome of every function run as it was. */
  lemma SplicedSame(sem: Sem, g: Cfg, b: BlockId, i: nat, n: BlockId, entry: BlockId, s: St, r: Out)
    requires Closed(g, n) && SpliceAt(g, b, i, n).Split?
    requires entry in g
    ensures Runs(sem, g, entry, s, r) <==> Runs(sem, Spliced(g, b, i, n), entry, s, r)
  {
    var g' := Spliced(g, b, i, n);
    SplicedReplaces(g, b, i, n);
    if Runs(sem, g, entry, s, r) {
      var f: nat :| Call(sem, g, entry, s, f) == r;
      ReplacedFwd(sem, g, g', b, i, n, [], Br(entry), s, f);
      var k: nat :| RunCode(sem, g', [], Br(entry), s, k) == r;
      assert Call(sem, g', entry, s, k) == r;
    }
    if Runs(sem, g', entry, s, r) {
      var f: nat :| Call(sem, g', entry, s, f) == r;
      ReplacedBwd(sem, g, g', b, i, n, [], Br(entry), s, f);
      var k: nat :| RunCode(sem, g, [], Br(entry), s, k) == r;
      assert Call(sem, g, entry, s, k) == r;
    }
  }
}
