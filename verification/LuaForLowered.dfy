/** The lowered `for` loops are code that the control-flow patterns take further. */
module LuaForLowered {
  import opened LuaIr
  import opened LuaLowerAll
  import LuaNumericFor
  import LuaGenericFor

  lemma {:induction false} EachWf(ops: seq<Op>)
    requires forall i :: 0 <= i < |ops| ==> WfOp(ops[i])
    ensures WfOps(ops)
    decreases |ops|
  {
    if ops != [] {
      EachWf(ops[1..]);
    }
  }

  /** With a well-formed body the ops of the pattern are well formed, so that the loop that comes out is
      one that `lowerLoopWhile` accepts. */
  lemma NumericWf(l: LuaNumericFor.Loop)
    requires WfOps(l.body)
    ensures WfOps(LuaNumericFor.LoweredOps(l))
  {
    EachWf(LuaNumericFor.Tail(l));
    WfOpsAppend(l.body, LuaNumericFor.Tail(l));
    EachWf(LuaNumericFor.Eval(l).ops);
    assert WfOp(LuaNumericFor.While(l));
    EachWf(LuaNumericFor.LoweredOps(l));
  }

  lemma {:induction false} CopiesWf(l: LuaGenericFor.Loop, i: nat)
    requires |l.ns| == |l.ps| && i <= |l.ps|
    ensures WfOps(LuaGenericFor.Copies(l, i))
    decreases |l.ps| - i
  {
    if i < |l.ps| {
      CopiesWf(l, i + 1);
      assert LuaGenericFor.Copies(l, i)[1..] == LuaGenericFor.Copies(l, i + 1);
    }
  }

  lemma GenericWf(l: LuaGenericFor.Loop)
    requires l.ps != [] && |l.ns| == |l.ps| && WfOps(l.body)
    ensures WfOps(LuaGenericFor.LoweredOps(l))
  {
    CopiesWf(l, 0);
    assert LuaGenericFor.Tail(l)[1..] == LuaGenericFor.Copies(l, 0);
    assert WfOps(LuaGenericFor.Tail(l));
    WfOpsAppend(l.body, LuaGenericFor.Tail(l));
    EachWf(LuaGenericFor.Eval(l).ops);
    assert WfOp(LuaGenericFor.While(l));
    EachWf(LuaGenericFor.LoweredOps(l));
  }
}
