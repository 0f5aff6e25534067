/** The values of the numeric `for`: the 64-bit recurrence of the lowered loop, against section 3.3.5 of
    the Lua 5.3 Reference Manual. */
module LuaLoops {
  const MIN: int := -0x8000_0000_0000_0000
  const MAX: int := 0x7fff_ffff_ffff_ffff

  predicate IsI64(x: int) { MIN <= x <= MAX }

  /** Two's complement 64-bit wrap-around. */
  function Wrap64(x: int): (r: int)
    ensures IsI64(r)
  {
    (x - MIN) % 0x1_0000_0000_0000_0000 + MIN
  }

  lemma Wrap64Is(x: int, r: int, k: int)
    requires IsI64(r) && x == r + k * 0x1_0000_0000_0000_0000
    ensures Wrap64(x) == r
  {
  }

  /** The loop values seen so far, and whether the loop has ended. */
  datatype Visits = Visits(values: seq<int>, done: bool)

  /** The lowered loop, for at most `tests` evaluations of `i <= upper`; the sign of the step plays
      no part, and the increment wraps. */
  function Lowered(i: int, upper: int, step: int, tests: nat): Visits
    decreases tests
  {
    if tests == 0 then Visits([], false)
    else if i > upper then Visits([], true)
    else
      var rest := Lowered(Wrap64(i + step), upper, step, tests - 1);
      Visits([i] + rest.values, rest.done)
  }

  function Values(lower: int, step: int, n: nat): seq<int>
    decreases n
  {
    if n == 0 then [] else [lower] + Values(lower + step, step, n - 1)
  }

  lemma {:induction false} ValuesSize(lower: int, step: int, n: nat)
    ensures |Values(lower, step, n)| == n
    decreases n
  {
    if n > 0 {
      ValuesSize(lower + step, step, n - 1);
    }
  }

  /** How often the manual runs the body. */
  function Count(lower: int, upper: int, step: int): nat
    requires step != 0
  {
    if step > 0 then (if lower > upper then 0 else (upper - lower) / step + 1)
    else (if lower < upper then 0 else (lower - upper) / -step + 1)
  }

  lemma CountBounds(lower: int, upper: int, step: int)
    requires step > 0 && lower <= upper
    ensures var n := Count(lower, upper, step);
            n > 0 && lower + (n - 1) * step <= upper < lower + n * step
  {
    var q := (upper - lower) / step;
    var r := (upper - lower) % step;
    assert upper - lower == q * step + r;
    assert (q + 1) * step == q * step + step;
  }

  lemma MulLess(a: int, b: int, s: int)
    requires s > 0 && a * s < b * s
    ensures a < b
  {
  }

  lemma CountNext(lower: int, upper: int, step: int)
    requires step > 0 && lower <= upper
    ensures Count(lower + step, upper, step) == Count(lower, upper, step) - 1
  {
    var n := Count(lower, upper, step);
    CountBounds(lower, upper, step);
    if lower + step > upper {
      assert (n - 1) * step < 1 * step;
      MulLess(n - 1, 1, step);
    } else {
      var m := Count(lower + step, upper, step);
      CountBounds(lower + step, upper, step);
      assert (m - 1) * step + step == m * step && m * step + step == (m + 1) * step;
      assert m * step < n * step && (n - 1) * step < (m + 1) * step;
      MulLess(m, n, step);
      MulLess(n - 1, m + 1, step);
    }
  }

  /** When the value after the last one fits, the loop is the manual's. */
  lemma {:induction false} NumericForUpward(lower: int, upper: int, step: int, tests: nat)
    requires IsI64(lower) && IsI64(upper) && step > 0
    requires var n := Count(lower, upper, step); tests > n && (lower > upper || lower + n * step <= MAX)
    ensures var n := Count(lower, upper, step);
            Lowered(lower, upper, step, tests) == Visits(Values(lower, step, n), true)
    decreases tests
  {
    if lower <= upper {
      var n := Count(lower, upper, step);
      CountBounds(lower, upper, step);
      CountNext(lower, upper, step);
      assert lower + n * step == lower + step + (n - 1) * step;
      assert lower + step <= MAX by {
        assert (n - 1) * step >= 0;
      }
      Wrap64Is(lower + step, lower + step, 0);
      NumericForUpward(lower + step, upper, step, tests - 1);
    }
  }

  /** When it does not fit, it wraps to a value below the limit and the body runs again. */
  lemma {:induction false} NumericForOverflow(lower: int, upper: int, step: int)
    requires IsI64(lower) && IsI64(upper) && 0 < step <= MAX && lower <= upper
    requires lower + Count(lower, upper, step) * step > MAX
    ensures |Lowered(lower, upper, step, Count(lower, upper, step) + 1).values| > Count(lower, upper, step)
    decreases upper - lower
  {
    var n := Count(lower, upper, step);
    CountBounds(lower, upper, step);
    CountNext(lower, upper, step);
    if n == 1 {
      assert n * step == step;
      RunsAgain(lower, upper, step);
    } else {
      MulMono(1, n - 1, step);
      Wrap64Is(lower + step, lower + step, 0);
      assert lower + n * step == lower + step + (n - 1) * step;
      NumericForOverflow(lower + step, upper, step);
    }
  }

  lemma RunsAgain(lower: int, upper: int, step: int)
    requires IsI64(lower) && IsI64(upper) && 0 < step <= MAX && lower <= upper && lower + step > MAX
    ensures |Lowered(lower, upper, step, 2).values| == 2
  {
    var wrapped := lower + step - 0x1_0000_0000_0000_0000;
    Wrap64Is(lower + step, wrapped, 1);
    assert |Lowered(wrapped, upper, step, 1).values| == 1;
  }

  /** A caller can check this before the loop: the value after the last one must not overflow; and
      a downward loop is right only where its single step leaves the 64-bit range. */
  predicate LoopFits(lower: int, upper: int, step: int)
    requires step != 0
  {
    if step > 0 then lower > upper || lower + Count(lower, upper, step) * step <= MAX
    else lower == upper && lower + step < MIN
  }

  /** The lowered loop runs the body with the manual's values, and ends, exactly when `LoopFits`. */
  lemma NumericForExact(lower: int, upper: int, step: int)
    requires IsI64(lower) && IsI64(upper) && IsI64(step) && step != 0
    ensures var n := Count(lower, upper, step);
            (forall tests: nat :: tests > n ==>
               Lowered(lower, upper, step, tests) == Visits(Values(lower, step, n), true))
            <==> LoopFits(lower, upper, step)
  {
    var n := Count(lower, upper, step);
    ValuesSize(lower, step, n);
    if step > 0 {
      if LoopFits(lower, upper, step) {
        forall tests: nat | tests > n
          ensures Lowered(lower, upper, step, tests) == Visits(Values(lower, step, n), true)
        {
          NumericForUpward(lower, upper, step, tests);
        }
      } else {
        NumericForOverflow(lower, upper, step);
      }
    } else {
      NumericForDownward(lower, upper, step);
    }
  }

  lemma NumericForDownward(lower: int, upper: int, step: int)
    requires IsI64(lower) && IsI64(upper) && IsI64(step) && step < 0
    ensures var n := Count(lower, upper, step);
            (forall tests: nat :: tests > n ==>
               Lowered(lower, upper, step, tests) == Visits(Values(lower, step, n), true))
            <==> LoopFits(lower, upper, step)
  {
    var n := Count(lower, upper, step);
    ValuesSize(lower, step, n);
    if lower == upper {
      assert n == 1;
      assert Values(lower, step, 1) == [lower];
      if lower + step < MIN {
        Wrap64Is(lower + step, lower + step + 0x1_0000_0000_0000_0000, -1);
        forall tests: nat | tests > 1
          ensures Lowered(lower, upper, step, tests) == Visits([lower], true)
        {
          assert Lowered(Wrap64(lower + step), upper, step, tests - 1) == Visits([], true);
        }
      } else {
        Wrap64Is(lower + step, lower + step, 0);
        assert |Lowered(lower + step, upper, step, 1).values| == 1;
        assert |Lowered(lower, upper, step, 2).values| == 2;
      }
    } else if lower > upper {
      assert n >= 1 by {
        assert (lower - upper) / -step >= 0;
      }
      assert Lowered(lower, upper, step, n + 1).values == [];
    } else {
      assert |Lowered(lower, upper, step, n + 1).values| >= 1;
    }
  }

  lemma IndexBound(lower: int, upper: int, step: int, k: nat)
    requires step > 0 && lower <= upper && k < Count(lower, upper, step) && LoopFits(lower, upper, step)
    ensures lower + (k + 1) * step <= MAX && lower + k * step + step == lower + (k + 1) * step
    ensures k + 1 < Count(lower, upper, step) <==> lower + (k + 1) * step <= upper
  {
    var n := Count(lower, upper, step);
    CountBounds(lower, upper, step);
    assert k * step + step == (k + 1) * step;
    MulMono(k + 1, n, step);
    if k + 1 < n {
      MulMono(k + 1, n - 1, step);
    }
  }

  lemma MulMono(a: int, b: int, s: int)
    requires s > 0 && a <= b
    ensures a * s <= b * s
  {
  }

  // ----- Inputs for which the lowered loop is not the manual's

  /** `for i = 2^63 - 1, 2^63 - 1, 1`: the value after the last one wraps, and the body runs again. */
  lemma OverflowingLoop()
    ensures Count(MAX, MAX, 1) == 1 && !LoopFits(MAX, MAX, 1) && |Lowered(MAX, MAX, 1, 2).values| == 2
  {
    RunsAgain(MAX, MAX, 1);
  }

  /** `for i = 3, 1, -1`: three times in the manual, not at all here. */
  lemma DownwardLoop()
    ensures Values(3, -1, Count(3, 1, -1)) == [3, 2, 1] && !LoopFits(3, 1, -1)
    ensures Lowered(3, 1, -1, 1) == Visits([], true)
  {
    assert Values(1, -1, 1) == [1] && Values(2, -1, 2) == [2, 1];
  }
}
