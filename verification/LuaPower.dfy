/** Integer power as the runtime computes it: 64-bit arguments, but each half power held in a
    32-bit `int`. */
module LuaPower {
  const INT_MIN: int := -0x8000_0000
  const INT_MAX: int := 0x7fff_ffff
  const LONG_MIN: int := -0x8000_0000_0000_0000
  const LONG_MAX: int := 0x7fff_ffff_ffff_ffff

  predicate IsInt(x: int) { INT_MIN <= x <= INT_MAX }
  predicate IsLong(x: int) { LONG_MIN <= x <= LONG_MAX }

  datatype Option<T> = None | Some(value: T)

  /** Storing a 64-bit value in an `int` keeps its low 32 bits. */
  function ToInt(x: int): (r: int)
    ensures IsInt(r)
  {
    (x - INT_MIN) % 0x1_0000_0000 + INT_MIN
  }

  function Abs(x: int): nat { if x < 0 then -x else x }

  /** Division and remainder that truncate toward zero, by two. */
  function Half(p: int): int { if p >= 0 then p / 2 else -(-p / 2) }

  /** `None` is a signed overflow, which leaves the result undefined. */
  function IPow(x: int, p: int): Option<int>
    decreases Abs(p)
  {
    if p == 0 then Some(1)
    else if p == 1 then Some(x)
    else
      match IPow(x, Half(p))
      case None => None
      case Some(h) =>
        var tmp := ToInt(h);
        if p == 2 * Half(p) then (if IsInt(tmp * tmp) then Some(tmp * tmp) else None)
        else if IsLong(x * tmp) && IsLong(x * tmp * tmp) then Some(x * tmp * tmp)
        else None
  }

  function Pow(x: int, p: nat): int { if p == 0 then 1 else x * Pow(x, p - 1) }

  lemma {:induction false} PowAdd(x: int, a: nat, b: nat)
    ensures Pow(x, a + b) == Pow(x, a) * Pow(x, b)
    decreases a
  {
    if a > 0 {
      PowAdd(x, a - 1, b);
      MulAssoc(x, Pow(x, a - 1), Pow(x, b));
    }
  }

  lemma MulAssoc(a: int, b: int, c: int)
    ensures a * (b * c) == (a * b) * c
  {
  }

  /** The half power is held in an `int`, and so is an even power itself. */
  predicate Fits(x: int, p: nat) {
    if p < 2 then true
    else if p % 2 == 0 then IsInt(Pow(x, p))
    else IsInt(Pow(x, p / 2)) && IsLong(Pow(x, p))
  }

  lemma AbsMul(a: int, b: int)
    ensures Abs(a * b) == Abs(a) * Abs(b)
  {
    if a < 0 && b < 0 {
      assert a * b == (-a) * (-b);
    } else if a < 0 {
      assert -(a * b) == (-a) * b;
    } else if b < 0 {
      assert -(a * b) == a * (-b);
    }
  }

  lemma MulGrows(a: nat, b: nat)
    requires b > 0
    ensures a <= a * b
  {
  }

  lemma {:induction false} PowZero(x: int, p: nat)
    ensures Pow(x, p) == 0 ==> x == 0 && p > 0
    ensures x == 0 && p > 0 ==> Pow(x, p) == 0
    decreases p
  {
    if p > 0 {
      PowZero(x, p - 1);
    }
  }

  /** Powers do not shrink. */
  lemma PowGrows(x: int, a: nat, b: nat)
    requires x != 0
    ensures Abs(Pow(x, a)) <= Abs(Pow(x, a + b))
  {
    PowAdd(x, a, b);
    PowZero(x, b);
    AbsMul(Pow(x, a), Pow(x, b));
    MulGrows(Abs(Pow(x, a)), Abs(Pow(x, b)));
  }

  lemma Square(x: int, p: nat)
    ensures p % 2 == 0 ==> Pow(x, p) == Pow(x, p / 2) * Pow(x, p / 2)
    ensures p % 2 == 1 ==> Pow(x, p) == x * Pow(x, p / 2) * Pow(x, p / 2)
  {
    var h := p / 2;
    PowAdd(x, h, h);
    if p % 2 == 1 {
      assert p == 1 + (h + h);
      MulAssoc(x, Pow(x, h), Pow(x, h));
    }
  }

  /** An `int` square has a root below 46341. */
  lemma SquareFits(t: int)
    requires IsInt(t * t)
    ensures Abs(t) < 46341
  {
    AbsMul(t, t);
    if Abs(t) >= 46341 {
      MulMono(46341, Abs(t), 46341, Abs(t));
    }
  }

  lemma MulMono(a: int, b: int, c: int, d: int)
    requires 0 <= a <= b && 0 <= c <= d
    ensures a * c <= b * d
  {
    assert a * c <= a * d <= b * d;
  }

  lemma ToIntIs(x: int)
    requires IsInt(x)
    ensures ToInt(x) == x
  {
  }

  /** The half of a power that fits an `int` lies within the `int` range: the power of a base other
      than 0, 1 and -1 at an odd exponent is at least twice as far from zero. */
  lemma OddHalf(x: int, p: nat)
    requires p >= 2 && p % 2 == 1 && IsInt(Pow(x, p))
    ensures IsInt(Pow(x, p / 2))
  {
    var h := p / 2;
    Square(x, p);
    PowZero(x, h);
    if x != 0 {
      var t := Pow(x, h);
      MulAssoc(x, t, t);
      SquareBelow(x, t);
    }
  }

  lemma SquareBelow(x: int, t: int)
    requires x != 0 && IsInt(x * (t * t))
    ensures IsInt(t)
  {
    AbsMul(x, t * t);
    AbsMul(t, t);
    MulMono(1, Abs(x), Abs(t) * Abs(t), Abs(t) * Abs(t));
    if Abs(t) >= 46342 {
      MulMono(46342, Abs(t), 46342, Abs(t));
    }
  }

  /** Whatever power fits an `int` is within the reach of the algorithm. */
  lemma IntFits(x: int, p: nat)
    requires IsInt(Pow(x, p))
    ensures Fits(x, p)
  {
    if p >= 2 && p % 2 == 1 {
      OddHalf(x, p);
    }
  }

  lemma HalfFits(x: int, p: nat)
    requires p >= 2 && Fits(x, p)
    ensures IsInt(Pow(x, p / 2))
  {
    if p % 2 == 0 {
      Square(x, p);
      SquareFits(Pow(x, p / 2));
    }
  }

  /** No intermediate product of a fitting power overflows. */
  lemma {:induction false} IPowFits(x: int, p: nat)
    requires Fits(x, p)
    ensures IPow(x, p) == Some(Pow(x, p))
    decreases p
  {
    if p >= 2 {
      var h := p / 2;
      HalfFits(x, p);
      IntFits(x, h);
      IPowFits(x, h);
      ToIntIs(Pow(x, h));
      Square(x, p);
      if p % 2 == 1 {
        BasePower(x, h);
        PartProductFits(x, Pow(x, h));
      }
    } else if p == 1 {
      assert Pow(x, 1) == x * Pow(x, 0);
    }
  }

  lemma BasePower(x: int, h: nat)
    requires h > 0
    ensures x == 0 || Abs(x) <= Abs(Pow(x, h))
  {
    if x != 0 {
      PowGrows(x, 1, h - 1);
      assert Pow(x, 1) == x * Pow(x, 0);
    }
  }

  lemma PartProductFits(x: int, t: int)
    requires IsLong(x * t * t) && (x == 0 || Abs(x) <= Abs(t)) && IsInt(t)
    ensures IsLong(x * t)
  {
    AbsMul(x, t);
    if x != 0 {
      assert Abs(x) * Abs(t) <= 0x8000_0000 * 0x8000_0000 by {
        MulMono(Abs(x), 0x8000_0000, Abs(t), 0x8000_0000);
      }
    }
  }

  /** 2^31 is not a power of -2 (nor of any base at an even exponent). */
  lemma NoPowerAtLimit(h: nat)
    ensures Pow(-2, h) != 0x8000_0000
  {
    Square(-2, h);
    NotTheLimit(Pow(-2, h / 2));
    MulAssoc(-2, Pow(-2, h / 2), Pow(-2, h / 2));
  }

  lemma NotTheLimit(s: int)
    ensures s * s != 0x8000_0000 && -2 * (s * s) != 0x8000_0000
  {
    AbsMul(s, s);
    if Abs(s) >= 46341 {
      MulMono(46341, Abs(s), 46341, Abs(s));
    } else {
      MulMono(Abs(s), 46340, Abs(s), 46340);
    }
  }

  /** Two roots of one square differ at most in sign. */
  lemma SameRoots(a: int, b: int)
    requires a * a == b * b
    ensures a == b || a == -b
  {
    assert (a - b) * (a + b) == 0;
  }

  lemma OddNeeds(x: int, h: nat, tmp: int)
    requires x != 0 && h > 0 && IsInt(tmp) && x * tmp * tmp == x * Pow(x, h) * Pow(x, h) && IsLong(x * tmp * tmp)
    ensures IsInt(Pow(x, h))
  {
    var t := Pow(x, h);
    MulAssoc(x, tmp, tmp);
    MulAssoc(x, t, t);
    Cancel(x, tmp * tmp, t * t);
    SameRoots(tmp, t);
    if t == 0x8000_0000 {
      if x == -2 {
        NoPowerAtLimit(h);
      } else {
        PowUnit(x, h);
      }
    }
  }

  lemma Cancel(x: int, a: int, b: int)
    requires x != 0 && x * a == x * b
    ensures a == b
  {
    assert x * (a - b) == 0;
  }

  lemma {:induction false} PowUnit(x: int, h: nat)
    requires Abs(x) <= 1
    ensures Abs(Pow(x, h)) <= 1
    decreases h
  {
    if h > 0 {
      PowUnit(x, h - 1);
      AbsMul(x, Pow(x, h - 1));
    }
  }

  /** For every exponent from zero up, the result is the power exactly when `Fits` holds. */
  lemma IPowExact(x: int, p: nat)
    requires IsLong(x)
    ensures IPow(x, p) == Some(Pow(x, p)) <==> Fits(x, p)
  {
    if Fits(x, p) {
      IPowFits(x, p);
    } else {
      var h := p / 2;
      Square(x, p);
      PowZero(x, p);
      PowZero(x, h);
      match IPow(x, h) {
        case None =>
        case Some(v) =>
          var tmp := ToInt(v);
          if p % 2 == 1 && IPow(x, p) == Some(Pow(x, p)) {
            OddNeeds(x, h, tmp);
          }
      }
    }
  }

  /** In particular for every power that fits an `int`. */
  lemma IPowInt(x: int, p: nat)
    requires IsInt(Pow(x, p))
    ensures IPow(x, p) == Some(Pow(x, p))
  {
    IntFits(x, p);
    IPowFits(x, p);
  }

  /** The sign of the exponent is ignored: x^-p comes out as x^p. */
  lemma {:induction false} IPowNegative(x: int, p: int)
    requires IsLong(x) && p >= 0
    ensures IPow(x, -p) == IPow(x, p)
    decreases p
  {
    if p == 1 {
      assert Half(-1) == 0;
      assert ToInt(1) == 1;
    } else if p >= 2 {
      assert Half(-p) == -Half(p);
      IPowNegative(x, p / 2);
    }
  }

  lemma UnitProduct(v: int, t: int)
    ensures v * t == 1 ==> Abs(v) == 1 && Abs(t) == 1 && v == t
    ensures v == t && Abs(t) == 1 ==> v * t == 1
  {
    AbsMul(v, t);
    if v * t == 1 {
      MulGrows(Abs(v), Abs(t));
      MulGrows(Abs(t), Abs(v));
    }
  }

  /** So the result is the inverse of the power exactly for the bases 1 and -1. */
  lemma IPowNegativeExact(x: int, p: int)
    requires IsLong(x) && p > 0
    ensures (IPow(x, -p).Some? && IPow(x, -p).value * Pow(x, p) == 1) <==> Abs(x) == 1
  {
    var t := Pow(x, p);
    IPowNegative(x, p);
    BasePower(x, p);
    PowZero(x, p);
    UnitProduct(if IPow(x, p).Some? then IPow(x, p).value else 0, t);
    if Abs(x) == 1 {
      PowUnit(x, p);
      IPowInt(x, p);
    }
  }

  /** 2^32 overflows, although 64 bits hold it. */
  lemma IPowOverflows()
    ensures IPow(2, 32) == None && IsLong(Pow(2, 32))
  {
    hide Pow, IPow;
    PowersOfTwo();
    IPowInt(2, 16);
    TooWide();
  }

  lemma PowersOfTwo()
    ensures Pow(2, 16) == 0x1_0000 && Pow(2, 32) == 0x1_0000_0000
  {
    assert Pow(2, 4) == 16;
    PowAdd(2, 4, 4);
    PowAdd(2, 8, 8);
    PowAdd(2, 16, 16);
    hide Pow;
  }

  lemma TooWide()
    requires IPow(2, 16) == Some(0x1_0000)
    ensures IPow(2, 32) == None
  {
    assert Half(32) == 16 && ToInt(0x1_0000) == 0x1_0000;
  }

  /** 2^-1 comes out as 2. */
  lemma IPowInverse()
    ensures IPow(2, -1) == Some(2)
  {
    IPowNegative(2, 1);
  }
}
