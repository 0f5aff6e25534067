/** The indentation of generated code, by the rule of section 2.1.8 of The Python Language Reference. */
module FormatIndent {
  // Python keeps a stack of levels.  A line at the top level goes on with the block, a deeper one opens
  // a block, and a less deep one closes blocks down to its own level, which must be on the stack.

  import opened FormatAccepted
  import opened FormatGrammar
  import opened FormatResolve
  import opened FormatCode

  function Top(stack: seq<nat>): nat
    requires stack != []
  {
    stack[|stack| - 1]
  }

  /** The levels above `level` have been closed. */
  function Popped(stack: seq<nat>, level: nat): (r: seq<nat>)
    requires level in stack
    ensures r != [] && Top(r) == level
  {
    if Top(stack) == level then stack else Popped(stack[..|stack| - 1], level)
  }

  /** A deeper line comes after a line that ends in a colon, and nowhere else. */
  predicate Accepts(lines: seq<Line>, stack: seq<nat>, within: bool)
    requires stack != []
  {
    if lines == [] then !within
    else if within
      then lines[0].indent > Top(stack) && Accepts(lines[1..], stack + [lines[0].indent], lines[0].opens)
    else lines[0].indent in stack && Accepts(lines[1..], Popped(stack, lines[0].indent), lines[0].opens)
  }

  predicate Stepwise(stack: seq<nat>) { forall i :: 0 <= i < |stack| ==> stack[i] == 4 * i }

  lemma {:induction false} PoppedStepwise(stack: seq<nat>, level: nat)
    requires Stepwise(stack) && level in stack
    ensures Stepwise(Popped(stack, level))
    decreases |stack|
  {
    if Top(stack) != level {
      PoppedStepwise(stack[..|stack| - 1], level);
    }
  }

  /** What follows a line at the top of the stack. */
  predicate Ready(lines: seq<Line>, stack: seq<nat>, within: bool) {
    && stack != [] && Stepwise(stack)
    && (forall k :: 0 <= k < |lines| ==> lines[k].indent % 4 == 0)
    && (forall k :: 0 <= k < |lines| - 1 ==> Follows(lines[k], lines[k + 1]))
    && (if lines == [] then !within
        else !lines[|lines| - 1].opens
             && if within then lines[0].indent == Top(stack) + 4 else lines[0].indent <= Top(stack))
  }

  lemma ReadyNext(lines: seq<Line>, stack: seq<nat>)
    requires lines != [] && stack != [] && Stepwise(stack) && Top(stack) == lines[0].indent
    requires (forall k :: 0 <= k < |lines| ==> lines[k].indent % 4 == 0) && !lines[|lines| - 1].opens
    requires forall k :: 0 <= k < |lines| - 1 ==> Follows(lines[k], lines[k + 1])
    ensures Ready(lines[1..], stack, lines[0].opens)
  {
    var rest := lines[1..];
    forall k | 0 <= k < |rest| - 1
      ensures Follows(rest[k], rest[k + 1])
    {
      assert Follows(lines[k + 1], lines[k + 2]);
    }
    if rest != [] {
      assert Follows(lines[0], lines[1]);
    }
  }

  lemma {:induction false} ReadyAccepted(lines: seq<Line>, stack: seq<nat>, within: bool)
    requires Ready(lines, stack, within)
    ensures Accepts(lines, stack, within)
    decreases |lines|
  {
    if lines != [] {
      var level := lines[0].indent;
      if within {
        ReadyNext(lines, stack + [level]);
        ReadyAccepted(lines[1..], stack + [level], lines[0].opens);
      } else {
        assert stack[level / 4] == level;
        PoppedStepwise(stack, level);
        ReadyNext(lines, Popped(stack, level));
        ReadyAccepted(lines[1..], Popped(stack, level), lines[0].opens);
      }
    }
  }

  /** A block without a line is an error, wherever it stands. */
  lemma {:induction false} BrokenRefused(lines: seq<Line>, stack: seq<nat>, within: bool)
    requires stack != [] && Broken(lines)
    ensures !Accepts(lines, stack, within)
    decreases |lines|
  {
    var k :| 0 <= k < |lines| - 1 && Empty(lines[k], lines[k + 1]);
    if k == 0 {
      assert lines[1..][0] == lines[1];
    } else {
      assert lines[1..][k - 1] == lines[k] && lines[1..][k] == lines[k + 1];
      assert Broken(lines[1..]);
      if within {
        BrokenRefused(lines[1..], stack + [lines[0].indent], lines[0].opens);
      } else if lines[0].indent in stack {
        BrokenRefused(lines[1..], Popped(stack, lines[0].indent), lines[0].opens);
      }
    }
  }

  /** For every accepted format: Python accepts the indentation of the generated parser exactly when no
      optional group holds a single element. */
  lemma PythonExact(op: OpInfo, f: Format)
    requires Sized(op, f)
    ensures Accepts(ParserCode(op, f), [0], false) <==> forall e :: e in f.elements ==> NotLone(e)
  {
    if forall e :: e in f.elements ==> NotLone(e) {
      BlocksFit(op, f);
      BlocksReady(ParserCode(op, f));
      ReadyAccepted(ParserCode(op, f), [0], false);
    } else {
      BlocksBreak(op, f);
      BrokenRefused(ParserCode(op, f), [0], false);
    }
  }

  lemma BlocksReady(lines: seq<Line>)
    requires Blocks(lines, 0)
    ensures Ready(lines, [0], false)
  {
  }
}
