/**
 The reals that the patterns of IEEE 754 stand for, and that `OfSingle` and `OfDouble` keep them: a
 number is held in the form in which it is packed, and in no other.
 */
module NumberReals {
  import opened Basics
  import opened LuaValues
  import Doubles

  // ---- powers of two ----------------------------------------------------------------

  function Two(k: int): (r: real)
    ensures r > 0.0
    decreases if k < 0 then -k else k
  {
    if k == 0 then 1.0 else if k > 0 then 2.0 * Two(k - 1) else Two(k + 1) / 2.0
  }

  lemma TwoNext(k: int)
    ensures Two(k + 1) == 2.0 * Two(k)
  {
  }

  lemma TwoZero()
    ensures Two(0) == 1.0
  {
  }

  lemma {:induction false} TwoSum(a: int, b: int)
    ensures Two(a + b) == Two(a) * Two(b)
    decreases if a < 0 then -a else a
  {
    hide Two;
    if a == 0 {
      TwoZero();
    } else if a > 0 {
      TwoSum(a - 1, b);
      TwoNext(a - 1);
      TwoNext(a - 1 + b);
      Twice(Two(a - 1), Two(b));
    } else {
      TwoSum(a + 1, b);
      TwoNext(a + b);
      TwoNext(a);
      Twice(Two(a), Two(b));
    }
  }

  lemma Twice(x: real, y: real)
    ensures 2.0 * (x * y) == (2.0 * x) * y
  {
  }

  lemma {:induction false} TwoMonotone(a: int, b: int)
    requires a <= b
    ensures Two(a) <= Two(b)
    decreases b - a
  {
    if a < b {
      TwoMonotone(a, b - 1);
      TwoNext(b - 1);
    }
  }

  /** 2^k as a number of the shifts. */
  lemma {:induction false} ShlTwo(n: nat, k: nat)
    ensures Shl(n, k) as real == n as real * Two(k)
  {
    if k > 0 {
      ShlTwo(n, k - 1);
      TwoNext(k - 1);
      assert n as real * (2.0 * Two(k - 1)) == 2.0 * (n as real * Two(k - 1));
    }
  }

  lemma {:induction false} ShrDiv(n: nat, k: nat)
    ensures Shl(1, k) > 0 && Shr(n, k) == n / Shl(1, k)
  {
    if k > 0 {
      ShrDiv(n, k - 1);
      Halve(n, Shl(1, k - 1));
    }
  }

  lemma Halve(n: nat, d: nat)
    requires d > 0
    ensures n / d / 2 == n / (2 * d)
  {
    var q := n / d;
    assert n == d * q + n % d;
    assert d * q == d * (2 * (q / 2) + q % 2);
    assert n == q / 2 * (2 * d) + (d * (q % 2) + n % d);
    if q % 2 == 1 {
      Quotient(n, 2 * d, q / 2, d + n % d);
    } else {
      Quotient(n, 2 * d, q / 2, n % d);
    }
  }

  lemma Constants()
    ensures Shl(1, 23) == 0x80_0000 && Shl(1, 29) == 0x2000_0000 && Shl(1, 31) == 0x8000_0000
    ensures Shl(1, 52) == 0x10_0000_0000_0000 && Shl(1, 63) == 0x8000_0000_0000_0000
  {
    Doubling(0);
    Doubling(10);
    Doubling(20);
    Doubling(30);
    Doubling(40);
    Doubling(50);
    assert Shl(1, 21) == 2 * Shl(1, 20) && Shl(1, 22) == 2 * Shl(1, 21) && Shl(1, 23) == 2 * Shl(1, 22);
    assert Shl(1, 30) == 2 * Shl(1, 29) && Shl(1, 31) == 2 * Shl(1, 30);
    assert Shl(1, 51) == 2 * Shl(1, 50) && Shl(1, 52) == 2 * Shl(1, 51);
    assert Shl(1, 61) == 2 * Shl(1, 60) && Shl(1, 62) == 2 * Shl(1, 61) && Shl(1, 63) == 2 * Shl(1, 62);
  }

  lemma Doubling(k: nat)
    ensures Shl(1, k + 10) == 1024 * Shl(1, k)
  {
    assert Shl(1, k + 2) == 2 * Shl(1, k + 1) && Shl(1, k + 1) == 2 * Shl(1, k);
    assert Shl(1, k + 4) == 2 * Shl(1, k + 3) && Shl(1, k + 3) == 2 * Shl(1, k + 2);
    assert Shl(1, k + 6) == 2 * Shl(1, k + 5) && Shl(1, k + 5) == 2 * Shl(1, k + 4);
    assert Shl(1, k + 8) == 2 * Shl(1, k + 7) && Shl(1, k + 7) == 2 * Shl(1, k + 6);
    assert Shl(1, k + 10) == 2 * Shl(1, k + 9) && Shl(1, k + 9) == 2 * Shl(1, k + 8);
  }

  // ---- what a pattern stands for ----------------------------------------------------

  function WithSign(sign: nat, r: real): real {
    if sign == 1 then -r else r
  }

  /** M * 2^x */
  function Scale(M: nat, x: int): real { M as real * Two(x) }

  /** A 32-bit pattern: 1 bit of sign, 8 of exponent, 23 of mantissa. */
  function FloatSign(bits: nat): nat { bits / 0x8000_0000 }

  function FloatExponent(bits: nat): nat { bits / 0x80_0000 % 0x100 }

  function FloatMantissa(bits: nat): nat { bits % 0x80_0000 }

  function FloatReal(bits: nat): real {
    var e, m := FloatExponent(bits), FloatMantissa(bits);
    WithSign(FloatSign(bits), if e == 0 then Scale(m, -149) else Scale(0x80_0000 + m, e - 150))
  }

  /** A 64-bit pattern: 1 bit of sign, 11 of exponent, 52 of mantissa. */
  function DoubleSign(bits: nat): nat { bits / 0x8000_0000_0000_0000 }

  function DoubleExponent(bits: nat): nat { bits / 0x10_0000_0000_0000 % 0x800 }

  function DoubleMantissa(bits: nat): nat { bits % 0x10_0000_0000_0000 }

  function DoubleReal(bits: nat): real {
    var e, m := DoubleExponent(bits), DoubleMantissa(bits);
    WithSign(DoubleSign(bits), if e == 0 then Scale(m, -1074) else Scale(0x10_0000_0000_0000 + m, e - 1075))
  }

  /** The real that a number stands for, if it is finite. */
  function NumberReal(n: Number): real {
    match n
    case Int(i) => i as real
    case Single(b) => FloatReal(b)
    case Double(b) => DoubleReal(b)
  }

  predicate IsInt64(r: real) {
    r.Floor as real == r && -0x8000_0000_0000_0000 <= r.Floor < 0x8000_0000_0000_0000
  }

  // ---- a mantissa times a power of two ----------------------------------------------

  lemma ScaleTimes(M: nat, k: nat, p: nat)
    ensures Shl(1, p) > 0 && Scale(M, k - p) * Shl(1, p) as real == Shl(M, k) as real
  {
    hide Shl, Two;
    ShrDiv(0, p);
    ShlTwo(M, k);
    ShlTwo(1, p);
    TwoSum(k - p, p);
    Product(M as real, Two(k - p), Two(p), Two(k), Shl(M, k) as real, Shl(1, p) as real);
  }

  lemma Product(m: real, a: real, b: real, c: real, x: real, d: real)
    requires c == a * b && x == m * c && d == 1.0 * b
    ensures m * a * d == x
  {
  }

  /** M * 2^(k - p): whole exactly if M << k has p zeros at its end. */
  lemma Scaled(M: nat, k: nat, p: nat)
    ensures Shl(1, p) > 0
    ensures var v := Scale(M, k - p);
            && (v.Floor as real == v <==> Shl(M, k) % Shl(1, p) == 0)
            && (Shl(M, k) % Shl(1, p) == 0 ==> v == (Shl(M, k) / Shl(1, p)) as real)
  {
    hide Shl, Two, Scale;
    ScaleTimes(M, k, p);
    WholeQuotient(Scale(M, k - p), Shl(M, k), Shl(1, p));
  }

  lemma WholeQuotient(v: real, x: nat, d: nat)
    requires d > 0 && v * d as real == x as real
    ensures v.Floor as real == v <==> x % d == 0
    ensures x % d == 0 ==> v == (x / d) as real
  {
    if v.Floor as real == v {
      assert v.Floor * d == x by {
        assert (v.Floor * d) as real == v.Floor as real * d as real;
      }
      Quotient(x, d, v.Floor, 0);
    }
    if x % d == 0 {
      var q := x / d;
      assert x == q * d;
      assert (q * d) as real == q as real * d as real;
      assert v == q as real by {
        assert (v - q as real) * d as real == 0.0;
      }
    }
  }

  /** Above 0 and below 1. */
  lemma ScaledSmall(M: nat, x: int, p: nat)
    requires 0 < M < 2 * Shl(1, p) && x <= -(p as int) - 1
    ensures 0.0 < Scale(M, x) < 1.0
  {
    hide Shl, Two;
    TwoZero();
    ShlTwo(1, p);
    TwoNext(p);
    TwoMonotone(x, -(p as int) - 1);
    TwoSum(p + 1, -(p as int) - 1);
    Below(M as real, Two(x), Two(p + 1), Two(-(p as int) - 1), Scale(M, x));
  }

  lemma NotNegative(x: real, y: real)
    requires x >= 0.0 && y >= 0.0
    ensures x * y >= 0.0
  {
  }

  lemma Positive(x: real, y: real)
    requires x > 0.0 && y > 0.0
    ensures x * y > 0.0
  {
  }

  lemma Below(m: real, t: real, b: real, c: real, v: real)
    requires 0.0 < m < b && 0.0 < t <= c && b * c == 1.0 && v == m * t
    ensures 0.0 < v < 1.0
  {
    NotNegative(m, c - t);
    Positive(b - m, c);
    Positive(m, t);
    Distribute(m, c, t);
    Distribute(c, b, m);
  }

  lemma Distribute(x: real, a: real, b: real)
    ensures x * (a - b) == x * a - x * b
  {
  }

  /** 2^63 or more. */
  lemma ScaledLarge(M: nat, x: int, p: nat)
    requires p <= 63 && M >= Shl(1, p) && x >= 63 - p
    ensures Scale(M, x) >= 0x8000_0000_0000_0000 as real
    ensures Scale(M, x) == 0x8000_0000_0000_0000 as real <==> M == Shl(1, p) && x == 63 - p
  {
    hide Shl, Two;
    Constants();
    ShlTwo(1, p);
    ShlTwo(1, 63);
    TwoSum(p, 63 - p);
    TwoMonotone(63 - p, x);
    if x > 63 - p {
      TwoNext(63 - p);
      TwoMonotone(63 - p + 1, x);
    }
    AtLeastProduct(M as real, Two(x), Shl(1, p) as real, Two(63 - p));
  }

  lemma AtLeastProduct(m: real, x: real, a: real, t: real)
    requires m >= a > 0.0 && x >= t > 0.0
    ensures m * x >= a * t && (m * x == a * t <==> m == a && x == t)
  {
    assert m * x - a * t == (m - a) * x + a * (x - t);
    assert (m - a) * x >= 0.0 && a * (x - t) >= 0.0;
    if m > a {
      assert (m - a) * x > 0.0;
    }
    if x > t {
      assert a * (x - t) > 0.0;
    }
  }

  /** Below 2^63. */
  lemma ScaledBound(M: nat, x: int, p: nat)
    requires M < 2 * Shl(1, p) && x <= 62 - p
    ensures 0.0 <= Scale(M, x) < 0x8000_0000_0000_0000 as real
  {
    hide Shl, Two;
    Constants();
    ShlTwo(1, p);
    TwoNext(p);
    ShlTwo(1, 63);
    TwoMonotone(x, 62 - p);
    TwoSum(p + 1, 62 - p);
    BelowBound(M as real, Two(x), Two(p + 1), Two(62 - p), Scale(M, x), Two(63));
  }

  lemma BelowBound(m: real, t: real, b: real, c: real, v: real, bound: real)
    requires 0.0 <= m < b && 0.0 < t <= c && b * c == bound && v == m * t
    ensures 0.0 <= v < bound
  {
    NotNegative(m, c - t);
    Positive(b - m, c);
    NotNegative(m, t);
    Distribute(m, c, t);
    Distribute(c, b, m);
  }

  /** n stands for r, and is an integer exactly if r is an int64. */
  predicate Keeps(n: Number, r: real) {
    NumberReal(n) == r && (n.Int? <==> IsInt64(r))
  }

  // ---- which of them are int64 ------------------------------------------------------

  lemma SmallIsNoInt(sign: nat, M: nat, x: int, p: nat)
    requires 0 < M < 2 * Shl(1, p) && x <= -(p as int) - 1
    ensures !IsInt64(WithSign(sign, Scale(M, x)))
  {
    hide Shl, Scale;
    ScaledSmall(M, x, p);
    var v := Scale(M, x);
    assert v.Floor == 0;
    assert (-v).Floor == -1;
  }

  lemma MiddleIsInt(sign: nat, M: nat, k: nat, p: nat)
    requires M < 2 * Shl(1, p) && k <= 62
    ensures Shl(1, p) > 0
    ensures IsInt64(WithSign(sign, Scale(M, k - p))) <==> Shl(M, k) % Shl(1, p) == 0
    ensures Shl(M, k) % Shl(1, p) == 0 ==>
              WithSign(sign, Scale(M, k - p)) == Signed(sign == 1, Shl(M, k) / Shl(1, p)) as real
  {
    hide Shl, Scale;
    ScaledBound(M, k - p, p);
    Scaled(M, k, p);
    NegatedWhole(Scale(M, k - p));
  }

  lemma NegatedWhole(v: real)
    ensures (-v).Floor as real == -v <==> v.Floor as real == v
  {
    if v.Floor as real == v {
      assert -v == (-v.Floor) as real;
    }
    if (-v).Floor as real == -v {
      assert v == (-(-v).Floor) as real;
    }
  }

  lemma LargeIsMostNegative(sign: nat, M: nat, x: int, p: nat)
    requires p <= 63 && M >= Shl(1, p) && x >= 63 - p
    ensures IsInt64(WithSign(sign, Scale(M, x))) <==> sign == 1 && M == Shl(1, p) && x == 63 - p
    ensures sign == 1 && M == Shl(1, p) && x == 63 - p ==>
              WithSign(sign, Scale(M, x)) == (-0x8000_0000_0000_0000) as real
  {
    hide Shl, Scale;
    ScaledLarge(M, x, p);
  }

  lemma ScaleZero(x: int)
    ensures Scale(0, x) == 0.0
  {
  }

  // ---- floats -----------------------------------------------------------------------

  lemma FloatFields(bits: nat)
    ensures Shr(bits, 31) == FloatSign(bits) && Shr(bits, 23) % 0x100 == FloatExponent(bits) < 0x100
    ensures FloatMantissa(bits) == bits % 0x80_0000 < 0x80_0000
    ensures bits < 0x1_0000_0000 ==>
              FloatSign(bits) <= 1
              && bits == FloatSign(bits) * 0x8000_0000 + FloatExponent(bits) * 0x80_0000 + FloatMantissa(bits)
  {
    hide Shr, Shl;
    Constants();
    ShrDiv(bits, 31);
    ShrDiv(bits, 23);
  }

  /** OfSingle by the fields of the pattern. */
  lemma SingleCases(bits: nat)
    requires bits < 0x1_0000_0000 && FloatExponent(bits) != 0xff
    ensures var sign, e, m := FloatSign(bits), FloatExponent(bits), FloatMantissa(bits);
            OfSingle(bits) ==
              if e == 0 && m == 0 then Int(0)
              else if 127 <= e < 190 && Shl(0x80_0000 + m, e - 127) % 0x80_0000 == 0 then
                Int(Signed(sign == 1, Shl(0x80_0000 + m, e - 127) / 0x80_0000))
              else if sign == 1 && e == 190 && m == 0 then Int(-0x8000_0000_0000_0000)
              else Single(bits)
  {
    hide Shr, Shl;
    FloatFields(bits);
    Constants();
    var e, m := FloatExponent(bits), FloatMantissa(bits);
    if 127 <= e < 190 {
      ShrDiv(Shl(0x80_0000 + m, e - 127), 23);
    }
  }

  lemma SingleTiny(bits: nat)
    requires bits < 0x1_0000_0000 && FloatExponent(bits) == 0
    ensures Keeps(OfSingle(bits), FloatReal(bits))
  {
    FloatFields(bits);
    SingleCases(bits);
    Constants();
    hide OfSingle, Scale, IsInt64, Shr, Shl, FloatSign, FloatExponent, FloatMantissa, WithSign;
    var sign, m := FloatSign(bits), FloatMantissa(bits);
    if m == 0 {
      ScaleZero(-149);
      ZeroIsInt(sign);
    } else {
      SmallIsNoInt(sign, m, -149, 23);
    }
  }

  lemma SingleSmall(bits: nat)
    requires bits < 0x1_0000_0000 && 0 < FloatExponent(bits) < 127
    ensures Keeps(OfSingle(bits), FloatReal(bits))
  {
    FloatFields(bits);
    SingleCases(bits);
    Constants();
    hide OfSingle, Scale, IsInt64, Shr, Shl, FloatSign, FloatExponent, FloatMantissa, WithSign;
    var x := FloatExponent(bits) as int - 150;
    SmallIsNoInt(FloatSign(bits), 0x80_0000 + FloatMantissa(bits), x, 23);
  }

  lemma SingleMiddle(bits: nat)
    requires bits < 0x1_0000_0000 && 127 <= FloatExponent(bits) < 190
    ensures Keeps(OfSingle(bits), FloatReal(bits))
  {
    FloatFields(bits);
    SingleCases(bits);
    Constants();
    hide OfSingle, Scale, IsInt64, Shr, Shl, FloatSign, FloatExponent, FloatMantissa, WithSign;
    MiddleIsInt(FloatSign(bits), 0x80_0000 + FloatMantissa(bits), FloatExponent(bits) - 127, 23);
  }

  lemma SingleLarge(bits: nat)
    requires bits < 0x1_0000_0000 && 190 <= FloatExponent(bits) != 0xff
    ensures Keeps(OfSingle(bits), FloatReal(bits))
  {
    FloatFields(bits);
    SingleCases(bits);
    Constants();
    hide OfSingle, Scale, IsInt64, Shr, Shl, FloatSign, FloatExponent, FloatMantissa, WithSign;
    LargeIsMostNegative(FloatSign(bits), 0x80_0000 + FloatMantissa(bits), FloatExponent(bits) - 150, 23);
  }

  /** What a finite float is read as stands for the same real, and it is an integer exactly if that real
      is an int64. */
  lemma SingleKeeps(bits: nat)
    requires bits < 0x1_0000_0000 && FloatExponent(bits) != 0xff
    ensures NumberReal(OfSingle(bits)) == FloatReal(bits) && (OfSingle(bits).Int? <==> IsInt64(FloatReal(bits)))
    ensures OfSingle(bits).Int? || OfSingle(bits) == Single(bits)
  {
    SingleCases(bits);
    hide OfSingle, FloatReal, FloatExponent, IsInt64, NumberReal;
    if FloatExponent(bits) == 0 {
      SingleTiny(bits);
    } else if FloatExponent(bits) < 127 {
      SingleSmall(bits);
    } else if FloatExponent(bits) < 190 {
      SingleMiddle(bits);
    } else {
      SingleLarge(bits);
    }
  }

  lemma ZeroIsInt(sign: nat)
    ensures IsInt64(WithSign(sign, 0.0)) && WithSign(sign, 0.0) == 0.0
  {
  }

  /** Infinities stay themselves, and a NaN stays one. */
  lemma SingleSpecial(bits: nat)
    requires bits < 0x1_0000_0000 && FloatExponent(bits) == 0xff
    ensures if FloatMantissa(bits) == 0 then OfSingle(bits) == Single(bits) else OfSingle(bits).IsNan()
  {
    hide Shr, Shl;
    FloatFields(bits);
    Constants();
    var sign, m := FloatSign(bits), FloatMantissa(bits);
    if m != 0 {
      ShlMul(sign, 63);
      ShlMul(0x7ff, 52);
      ShlMul(m, 29);
      NanFields(sign, m);
      ShrDiv(sign * 0x8000_0000_0000_0000 + 0x7ff * 0x10_0000_0000_0000 + m * 0x2000_0000, 52);
    }
  }

  lemma NanFields(sign: nat, m: nat)
    requires sign <= 1 && 0 < m < 0x80_0000
    ensures var x := sign * 0x8000_0000_0000_0000 + 0x7ff * 0x10_0000_0000_0000 + m * 0x2000_0000;
            x / 0x10_0000_0000_0000 % 0x800 == 0x7ff && x % 0x10_0000_0000_0000 != 0
  {
    var x := sign * 0x8000_0000_0000_0000 + 0x7ff * 0x10_0000_0000_0000 + m * 0x2000_0000;
    Quotient(x, 0x10_0000_0000_0000, sign * 0x800 + 0x7ff, m * 0x2000_0000);
  }

  lemma {:induction false} ShlMul(n: nat, k: nat)
    ensures Shl(n, k) == n * Shl(1, k)
  {
    if k > 0 {
      ShlMul(n, k - 1);
      TwiceNat(n, Shl(1, k - 1));
    }
  }

  // ---- doubles ----------------------------------------------------------------------

  lemma DoubleFields(bits: nat)
    ensures Shr(bits, 63) == DoubleSign(bits) && Shr(bits, 52) % 0x800 == DoubleExponent(bits)
    ensures bits < 0x1_0000_0000_0000_0000 ==>
              DoubleSign(bits) <= 1
              && bits == DoubleSign(bits) * 0x8000_0000_0000_0000 + DoubleExponent(bits) * 0x10_0000_0000_0000
                         + DoubleMantissa(bits)
  {
    hide Shr, Shl;
    Constants();
    ShrDiv(bits, 63);
    ShrDiv(bits, 52);
  }

  lemma DoubleRange(bits: nat)
    ensures DoubleExponent(bits) < 0x800 && DoubleMantissa(bits) < 0x10_0000_0000_0000
    ensures DoubleMantissa(bits) == bits % 0x10_0000_0000_0000
  {
  }

  function Bit(k: nat): (r: nat)
    ensures r > 0
  {
    ShlBound(0, k);
    Shl(1, k)
  }

  /** The pattern of the float that a double is packed as, if there is one. */
  function Narrowed(sign: nat, e: nat, m: nat): Option<nat> {
    if 897 <= e <= 1150 && m % 0x2000_0000 == 0 then
      Some(sign * 0x8000_0000 + (e - 896) * 0x80_0000 + m / 0x2000_0000)
    else if 874 <= e < 897 && m % Bit(926 - e) == 0 then
      Some(sign * 0x8000_0000 + Bit(e - 874) + m / Bit(926 - e))
    else None
  }

  lemma ShiftedBack(m: nat, k: nat)
    ensures Shl(1, k) > 0 && Shr(m, k) == m / Shl(1, k) && (Shl(Shr(m, k), k) == m <==> m % Shl(1, k) == 0)
  {
    hide Shl, Shr;
    ShrDiv(m, k);
    ShlMul(m / Shl(1, k), k);
    var d := Shl(1, k);
    assert m == m / d * d + m % d;
  }

  /** OfDouble by the fields of the pattern. */
  lemma DoubleCases(bits: nat)
    requires bits < 0x1_0000_0000_0000_0000 && DoubleExponent(bits) != 0x7ff
    ensures var sign, e, m := DoubleSign(bits), DoubleExponent(bits), DoubleMantissa(bits);
            OfDouble(bits) ==
              if e == 0 && m == 0 then Int(0)
              else if 1023 <= e < 1086 && Shl(0x10_0000_0000_0000 + m, e - 1023) % 0x10_0000_0000_0000 == 0 then
                Int(Signed(sign == 1, Shl(0x10_0000_0000_0000 + m, e - 1023) / 0x10_0000_0000_0000))
              else if sign == 1 && e == 1086 && m == 0 then Int(-0x8000_0000_0000_0000)
              else if Narrowed(sign, e, m).Some? then Single(Narrowed(sign, e, m).value) else Double(bits)
  {
    hide Shr, Shl;
    DoubleFields(bits);
    Constants();
    var sign, e, m := DoubleSign(bits), DoubleExponent(bits), DoubleMantissa(bits);
    if 1023 <= e < 1086 {
      ShrDiv(Shl(0x10_0000_0000_0000 + m, e - 1023), 52);
    }
    ShlMul(sign, 31);
    if 897 <= e <= 1150 {
      ShlMul(e - 896, 23);
      ShrDiv(m, 29);
    } else if 874 <= e < 897 {
      ShiftedBack(m, 926 - e);
    }
  }

  lemma ScaleShift(a: nat, k: nat, x: int)
    ensures Scale(a * Shl(1, k), x) == Scale(a, x + k)
  {
    hide Shl, Two;
    ShlTwo(1, k);
    TwoSum(k, x);
    assert (a * Shl(1, k)) as real == a as real * Shl(1, k) as real;
    Regroup(a as real, Shl(1, k) as real, Two(k), Two(x));
  }

  lemma Regroup(a: real, s: real, t: real, x: real)
    requires s == 1.0 * t
    ensures a * s * x == a * (t * x)
  {
  }

  lemma TwiceNat(x: nat, y: nat)
    ensures 2 * (x * y) == (2 * x) * y && 2 * (x * y) == x * (2 * y)
  {
  }

  lemma ShlZero()
    ensures Shl(1, 0) == 1
  {
  }

  lemma {:induction false} ShlSum(a: nat, b: nat)
    ensures Shl(1, a + b) == Shl(1, a) * Shl(1, b)
  {
    hide Shl;
    if a == 0 {
      ShlZero();
    } else {
      ShlSum(a - 1, b);
      OneMore(a - 1);
      OneMore(a - 1 + b);
      TwiceNat(Shl(1, a - 1), Shl(1, b));
    }
  }

  lemma {:induction false} ShlBound(a: nat, b: nat)
    requires a <= b
    ensures 0 < Shl(1, a) <= Shl(1, b)
  {
    if a < b {
      ShlBound(a, b - 1);
    } else if a > 0 {
      ShlBound(a - 1, b - 1);
    }
  }

  lemma FieldsOf(sign: nat, e: nat, m: nat)
    requires sign <= 1 && e < 0x100 && m < 0x80_0000
    ensures var f := sign * 0x8000_0000 + e * 0x80_0000 + m;
            && f < 0x1_0000_0000 && FloatSign(f) == sign && FloatExponent(f) == e && FloatMantissa(f) == m
  {
    var f := sign * 0x8000_0000 + e * 0x80_0000 + m;
    Quotient(f, 0x8000_0000, sign, e * 0x80_0000 + m);
    Quotient(f, 0x80_0000, sign * 0x100 + e, m);
  }

  lemma WholeMantissa(m: nat)
    requires m < 0x10_0000_0000_0000 && m % 0x2000_0000 == 0
    ensures m / 0x2000_0000 < 0x80_0000 && (0x80_0000 + m / 0x2000_0000) * 0x2000_0000 == 0x10_0000_0000_0000 + m
  {
  }

  /** The float has the value of the double. */
  lemma NarrowedNormal(sign: nat, e: nat, m: nat)
    requires sign <= 1 && 897 <= e <= 1150 && m < 0x10_0000_0000_0000 && m % 0x2000_0000 == 0
    ensures var f := Narrowed(sign, e, m).value;
            && f < 0x1_0000_0000 && FloatExponent(f) != 0xff
            && FloatReal(f) == WithSign(sign, Scale(0x10_0000_0000_0000 + m, e - 1075))
  {
    hide Shl, Scale, WithSign, FloatSign, FloatExponent, FloatMantissa;
    var q, f := m / 0x2000_0000, Narrowed(sign, e, m).value;
    WholeMantissa(m);
    FieldsOf(sign, e - 896, q);
    Constants();
    ScaleShift(0x80_0000 + q, 29, e - 1075);
  }

  lemma NarrowedSmall(sign: nat, e: nat, m: nat)
    requires sign <= 1 && 874 <= e < 897 && m < 0x10_0000_0000_0000 && Narrowed(sign, e, m).Some?
    ensures var f := Narrowed(sign, e, m).value;
            && f < 0x1_0000_0000 && FloatExponent(f) != 0xff
            && FloatReal(f) == WithSign(sign, Scale(0x10_0000_0000_0000 + m, e - 1075))
  {
    hide Shl, Scale, WithSign, FloatSign, FloatExponent, FloatMantissa;
    var h, j := e - 874, 926 - e;
    ShrDiv(0, j);
    ShlSum(j, h);
    Constants();
    ShlBound(h, 22);
    assert Shl(1, 23) == 2 * Shl(1, 22) by {
      OneMore(22);
    }
    SmallMantissa(m, Shl(1, j), Shl(1, h));
    var r := m / Shl(1, j);
    FieldsOf(sign, 0, Shl(1, h) + r);
    ScaleShift(Shl(1, h) + r, j, e - 1075);
    assert (Shl(1, h) + r) * Shl(1, j) == 0x10_0000_0000_0000 + m;
  }

  lemma OneMore(k: nat)
    ensures Shl(1, k + 1) == 2 * Shl(1, k)
  {
  }

  lemma SmallMantissa(m: nat, d: nat, h: nat)
    requires d > 0 && m % d == 0 && m < d * h
    ensures m / d < h && m == m / d * d
  {
    if m / d >= h {
      NotLess(m / d, h, d);
    }
  }

  lemma NotLess(a: nat, b: nat, d: nat)
    requires a >= b
    ensures a * d >= d * b
  {
  }

  lemma NarrowedKeeps(sign: nat, e: nat, m: nat)
    requires sign <= 1 && m < 0x10_0000_0000_0000
    ensures Narrowed(sign, e, m).Some? ==>
              var f := Narrowed(sign, e, m).value;
              && f < 0x1_0000_0000 && FloatExponent(f) != 0xff
              && FloatReal(f) == WithSign(sign, Scale(0x10_0000_0000_0000 + m, e - 1075))
  {
    if Narrowed(sign, e, m) == None {
    } else if e >= 897 {
      NarrowedNormal(sign, e, m);
    } else {
      NarrowedSmall(sign, e, m);
    }
  }

  lemma DoubleTiny(bits: nat)
    requires bits < 0x1_0000_0000_0000_0000 && DoubleExponent(bits) == 0
    ensures Keeps(OfDouble(bits), DoubleReal(bits))
  {
    DoubleFields(bits);
    DoubleRange(bits);
    DoubleCases(bits);
    Constants();
    hide OfDouble, Scale, IsInt64, Shr, Shl, DoubleSign, DoubleExponent, DoubleMantissa, FloatReal, WithSign;
    var sign, m := DoubleSign(bits), DoubleMantissa(bits);
    if m == 0 {
      ScaleZero(-1074);
      ZeroIsInt(sign);
    } else {
      SmallIsNoInt(sign, m, -1074, 52);
    }
  }

  lemma DoubleSmall(bits: nat)
    requires bits < 0x1_0000_0000_0000_0000 && 0 < DoubleExponent(bits) < 1023
    ensures Keeps(OfDouble(bits), DoubleReal(bits))
  {
    DoubleFields(bits);
    DoubleRange(bits);
    DoubleCases(bits);
    Constants();
    hide OfDouble, Scale, IsInt64, Shr, Shl, DoubleSign, DoubleExponent, DoubleMantissa, Narrowed, FloatReal, WithSign;
    var sign, e, m := DoubleSign(bits), DoubleExponent(bits), DoubleMantissa(bits);
    var x := e as int - 1075;
    SmallIsNoInt(sign, 0x10_0000_0000_0000 + m, x, 52);
    NarrowedKeeps(sign, e, m);
  }

  lemma DoubleMiddle(bits: nat)
    requires bits < 0x1_0000_0000_0000_0000 && 1023 <= DoubleExponent(bits) < 1086
    ensures Keeps(OfDouble(bits), DoubleReal(bits))
  {
    DoubleFields(bits);
    DoubleRange(bits);
    DoubleCases(bits);
    Constants();
    hide OfDouble, Scale, IsInt64, Shr, Shl, DoubleSign, DoubleExponent, DoubleMantissa, Narrowed, FloatReal, WithSign;
    var sign, e, m := DoubleSign(bits), DoubleExponent(bits), DoubleMantissa(bits);
    MiddleIsInt(sign, 0x10_0000_0000_0000 + m, e - 1023, 52);
    NarrowedKeeps(sign, e, m);
  }

  lemma DoubleLarge(bits: nat)
    requires bits < 0x1_0000_0000_0000_0000 && 1086 <= DoubleExponent(bits) != 0x7ff
    ensures Keeps(OfDouble(bits), DoubleReal(bits))
  {
    DoubleFields(bits);
    DoubleRange(bits);
    DoubleCases(bits);
    Constants();
    hide OfDouble, Scale, IsInt64, Shr, Shl, DoubleSign, DoubleExponent, DoubleMantissa, Narrowed, FloatReal, WithSign;
    var sign, e, m := DoubleSign(bits), DoubleExponent(bits), DoubleMantissa(bits);
    LargeIsMostNegative(sign, 0x10_0000_0000_0000 + m, e - 1075, 52);
    if sign != 1 || e != 1086 || m != 0 {
      NarrowedKeeps(sign, e, m);
    }
  }

  /** What a finite double is read as stands for the same real, and it is an integer exactly if that real
      is an int64; it is a finite float or the double itself otherwise. */
  lemma DoubleKeeps(bits: nat)
    requires bits < 0x1_0000_0000_0000_0000 && DoubleExponent(bits) != 0x7ff
    ensures NumberReal(OfDouble(bits)) == DoubleReal(bits) && (OfDouble(bits).Int? <==> IsInt64(DoubleReal(bits)))
    ensures OfDouble(bits).Single? ==> OfDouble(bits).bits < 0x1_0000_0000 && FloatExponent(OfDouble(bits).bits) != 0xff
    ensures OfDouble(bits).Double? ==> OfDouble(bits) == Double(bits)
  {
    DoubleFields(bits);
    DoubleRange(bits);
    DoubleCases(bits);
    hide OfDouble, DoubleReal, DoubleExponent, DoubleMantissa, DoubleSign, IsInt64, NumberReal, Narrowed, FloatExponent;
    NarrowedKeeps(DoubleSign(bits), DoubleExponent(bits), DoubleMantissa(bits));
    if DoubleExponent(bits) == 0 {
      DoubleTiny(bits);
    } else if DoubleExponent(bits) < 1023 {
      DoubleSmall(bits);
    } else if DoubleExponent(bits) < 1086 {
      DoubleMiddle(bits);
    } else {
      DoubleLarge(bits);
    }
  }

  /** Infinities are packed as floats, and a NaN stays itself. */
  lemma DoubleSpecial(bits: nat)
    requires bits < 0x1_0000_0000_0000_0000 && DoubleExponent(bits) == 0x7ff
    ensures OfDouble(bits) ==
            if DoubleMantissa(bits) != 0 then Double(bits) else Single(DoubleSign(bits) * 0x8000_0000 + 0x7f80_0000)
    ensures DoubleMantissa(bits) != 0 ==> OfDouble(bits).IsNan()
  {
    hide Shr, Shl;
    DoubleFields(bits);
    Constants();
    ShlMul(DoubleSign(bits), 31);
    ShlMul(0xff, 23);
  }

  // ---- integers ---------------------------------------------------------------------

  lemma MostPositive()
    ensures FloatReal(0x5f00_0000) == 0x8000_0000_0000_0000 as real && !IsInt64(0x8000_0000_0000_0000 as real)
    ensures Doubles.IsWholeDouble(0x8000_0000_0000_0000)
  {
    Constants();
    FieldsOf(0, 190, 0);
    hide FloatSign, FloatExponent, FloatMantissa, Shl, Scale;
    ScaledLarge(0x80_0000, 40, 23);
    assert 0x8000_0000_0000_0000 == Shl(1, 63);
  }

  /** An int64 is read as the double closest to it: the integer itself if it is a double. */
  lemma IntKeeps(i: int)
    requires -0x8000_0000_0000_0000 <= i < 0x8000_0000_0000_0000
    ensures var r := Signed(i < 0, Rounded(if i < 0 then -i else i));
            NumberReal(OfInt(i)) == r as real && (OfInt(i).Int? <==> IsInt64(r as real))
    ensures Doubles.IsWholeDouble(if i < 0 then -i else i) <==> OfInt(i) == Int(i)
  {
    hide Rounded, FloatReal, Doubles.IsWholeDouble;
    MostPositive();
    var n := if i < 0 then -i else i;
    Doubles.RoundedNearest(n, 0x8000_0000_0000_0000);
    Doubles.RoundedExactly(n);
    var r := Signed(i < 0, Rounded(n));
    assert (r as real).Floor == r;
  }

  /** A whole multiple of a power of two has no more than 53 bits besides its zeros. */
  lemma WholeIsDouble(M: nat, k: nat)
    requires M < 0x20_0000_0000_0000 && Shl(M, k) % 0x10_0000_0000_0000 == 0
    ensures Doubles.IsWholeDouble(Shl(M, k) / 0x10_0000_0000_0000)
  {
    hide Shl;
    Constants();
    ShlMul(M, k);
    var x := Shl(M, k) / 0x10_0000_0000_0000;
    if k >= 52 {
      ShlMul(M, k - 52);
      ShlSum(k - 52, 52);
      Grouped(M, Shl(1, k - 52), 0x10_0000_0000_0000);
      Quotient(Shl(M, k), 0x10_0000_0000_0000, Shl(M, k - 52), 0);
      assert x == Shl(M, k - 52);
    } else {
      ShlBound(k, 52);
      StaysBelow(M, Shl(1, k));
      Doubles.ShlNext(x, 0);
      assert x == Shl(x, 0);
    }
  }

  lemma Grouped(a: nat, b: nat, c: nat)
    ensures a * (b * c) == (a * b) * c
  {
  }

  lemma StaysBelow(M: nat, s: nat)
    requires M < 0x20_0000_0000_0000 && s <= 0x10_0000_0000_0000
    ensures M * s / 0x10_0000_0000_0000 < 0x20_0000_0000_0000
  {
    NotLess(0x10_0000_0000_0000, s, M);
  }

  lemma SignedSize(negative: bool, n: nat)
    ensures var i := Signed(negative, n); (if i < 0 then -i else i) == n
  {
  }

  lemma IntOfDouble(bits: nat)
    requires bits < 0x1_0000_0000_0000_0000 && DoubleExponent(bits) != 0x7ff && OfDouble(bits).Int?
    ensures var i := OfDouble(bits).i; Doubles.IsWholeDouble(if i < 0 then -i else i)
  {
    DoubleFields(bits);
    DoubleRange(bits);
    DoubleCases(bits);
    hide OfDouble, Shl, DoubleSign, DoubleExponent, DoubleMantissa, Narrowed, Doubles.IsWholeDouble, FloatReal, Signed;
    var e, m := DoubleExponent(bits), DoubleMantissa(bits);
    if e == 0 && m == 0 {
      WholeIsDouble(0, 0);
      Doubles.ShlNext(0, 0);
    } else if 1023 <= e < 1086 {
      WholeIsDouble(0x10_0000_0000_0000 + m, e - 1023);
      SignedSize(DoubleSign(bits) == 1, Shl(0x10_0000_0000_0000 + m, e - 1023) / 0x10_0000_0000_0000);
    } else {
      MostPositive();
    }
  }

  /** The form of a double, and so of every number that Lua has, is one that packing keeps. */
  lemma EveryDouble(bits: nat)
    requires bits < 0x1_0000_0000_0000_0000
    ensures OfDouble(bits).Wf()
  {
    DoubleFields(bits);
    if DoubleExponent(bits) == 0x7ff {
      DoubleSpecial(bits);
      FieldsOf(DoubleSign(bits), 0xff, 0);
      hide OfDouble, OfSingle, DoubleSign, DoubleExponent, DoubleMantissa, FloatSign, FloatExponent, FloatMantissa;
      if DoubleMantissa(bits) == 0 {
        SingleSpecial(OfDouble(bits).bits);
      }
    } else {
      DoubleKeeps(bits);
      hide OfDouble, OfSingle, OfInt, DoubleExponent, FloatExponent, FloatReal, DoubleReal;
      match OfDouble(bits) {
        case Int(i) =>
          IntOfDouble(bits);
          IntKeeps(i);
        case Single(f) => SingleKeeps(f);
        case Double(_) =>
      }
    }
  }

  // ---- a double is packed as a float if any float has its value ---------------------

  /** The highest bit of m. */
  function High(m: nat): (h: nat)
    requires m > 0
    ensures Shl(1, h) <= m < 2 * Shl(1, h)
  {
    if m == 1 then 0 else High(m / 2) + 1
  }

  /** A float as a double: the exponent and the mantissa that it has then. */
  lemma Widened(f: nat) returns (e: nat, m: nat)
    requires f < 0x1_0000_0000 && FloatExponent(f) != 0xff && FloatReal(f) != 0.0
    ensures 874 <= e <= 1150 && m < 0x10_0000_0000_0000
    ensures forall sign :: Narrowed(sign, e, m).Some?
    ensures FloatReal(f) == WithSign(FloatSign(f), Scale(0x10_0000_0000_0000 + m, e - 1075))
  {
    FloatFields(f);
    var ef, mf := FloatExponent(f), FloatMantissa(f);
    Constants();
    if ef != 0 {
      hide Shl, Scale;
      e, m := ef + 896, mf * 0x2000_0000;
      ScaleShift(0x80_0000 + mf, 29, e - 1075);
      assert (0x80_0000 + mf) * 0x2000_0000 == 0x10_0000_0000_0000 + m;
      Quotient(m, 0x2000_0000, mf, 0);
    } else {
      if mf == 0 {
        ScaleZero(-149);
      }
      e, m := WidenedSmall(mf);
    }
  }

  lemma Placed(r: nat, d: nat, b: nat)
    requires d > 0 && r < b && b * d == 0x10_0000_0000_0000
    ensures r * d < 0x10_0000_0000_0000 && r * d % d == 0 && (b + r) * d == 0x10_0000_0000_0000 + r * d
  {
    Quotient(r * d, d, r, 0);
    assert (b - r) * d >= d;
  }

  lemma WidenedSmall(mf: nat) returns (e: nat, m: nat)
    requires 0 < mf < 0x80_0000
    ensures 874 <= e < 897 && m < 0x10_0000_0000_0000 && m % Bit(926 - e) == 0
    ensures Scale(mf, -149) == Scale(0x10_0000_0000_0000 + m, e - 1075)
  {
    hide Shl, Scale, High;
    var h := High(mf);
    Constants();
    if h >= 23 {
      ShlBound(23, h);
    }
    var r, b, d := mf - Shl(1, h), Shl(1, h), Shl(1, 52 - h);
    ShlSum(h, 52 - h);
    ShrDiv(0, 52 - h);
    Placed(r, d, b);
    e, m := h + 874, r * d;
    ScaleShift(mf, 52 - h, e - 1075);
  }

  lemma Ordered(a: real, x: real, c: real, b: real, y: real)
    requires 0.0 < a < 2.0 * c && c <= b && 0.0 < 2.0 * x <= y
    ensures a * x < b * y
  {
    Positive(2.0 * c - a, x);
    NotNegative(b - c, y);
    NotNegative(c, y - 2.0 * x);
    assert (2.0 * c - a) * x == 2.0 * c * x - a * x;
    assert (b - c) * y == b * y - c * y;
    assert c * (y - 2.0 * x) == c * y - 2.0 * c * x;
  }

  lemma NotZero(r: real)
    requires !IsInt64(r)
    ensures r != 0.0
  {
  }

  // ---- one form for each real -------------------------------------------------------

  lemma SameSign(s: nat, a: real, t: nat, b: real)
    requires s <= 1 && t <= 1 && a > 0.0 && b > 0.0 && WithSign(s, a) == WithSign(t, b)
    ensures s == t && a == b
  {
  }

  /** The magnitude of a pattern, given by exponent and mantissa: with p = 0x80_0000 or 2^52, and x the
      power of two that belongs to exponent 1. */
  function Magnitude(p: nat, x: int, e: nat, m: nat): real {
    if e == 0 then Scale(m, x) else Scale(p + m, x + e - 1)
  }

  lemma LessTimes(a: real, b: real, t: real)
    requires a < b && t > 0.0
    ensures a * t < b * t
  {
    Positive(b - a, t);
    assert (b - a) * t == b * t - a * t;
  }

  lemma ScaleLess(M1: nat, M2: nat, x: int)
    requires M1 < M2
    ensures Scale(M1, x) < Scale(M2, x)
  {
    hide Two;
    LessTimes(M1 as real, M2 as real, Two(x));
  }

  lemma ScaleFar(p: nat, M1: nat, x1: int, M2: nat, x2: int)
    requires x1 < x2 && 0 < M1 < 2 * p && p <= M2
    ensures Scale(M1, x1) < Scale(M2, x2)
  {
    hide Two;
    TwoNext(x1);
    TwoMonotone(x1 + 1, x2);
    Ordered(M1 as real, Two(x1), p as real, M2 as real, Two(x2));
  }

  lemma ScaleOrder(p: nat, M1: nat, x1: int, M2: nat, x2: int)
    requires (x1 == x2 && M1 < M2) || (x1 < x2 && M1 < 2 * p && 0 < p <= M2)
    ensures 0.0 <= Scale(M1, x1) < Scale(M2, x2)
  {
    hide Two, Scale;
    ScaleZero(x1);
    ScaleZero(x2);
    if M1 > 0 {
      ScaleLess(0, M1, x1);
    }
    if x1 == x2 {
      ScaleLess(M1, M2, x1);
    } else if M1 == 0 {
      ScaleLess(0, M2, x2);
    } else {
      ScaleFar(p, M1, x1, M2, x2);
    }
  }

  lemma MagnitudeOrder(p: nat, x: int, e1: nat, m1: nat, e2: nat, m2: nat)
    requires m1 < p && m2 < p && (e1 < e2 || (e1 == e2 && m1 < m2))
    ensures 0.0 <= Magnitude(p, x, e1, m1) < Magnitude(p, x, e2, m2)
  {
    hide Scale;
    var M1, x1 := if e1 == 0 then m1 else p + m1, if e1 == 0 then x else x + e1 - 1;
    var M2, x2 := if e2 == 0 then m2 else p + m2, if e2 == 0 then x else x + e2 - 1;
    ScaleOrder(p, M1, x1, M2, x2);
  }

  lemma FloatInjective(f: nat, g: nat)
    requires f < 0x1_0000_0000 && FloatExponent(f) != 0xff && g < 0x1_0000_0000 && FloatExponent(g) != 0xff
    requires FloatReal(f) == FloatReal(g) != 0.0
    ensures f == g
  {
    FloatFields(f);
    FloatFields(g);
    ScaleZero(-149);
    var e1, m1, e2, m2 := FloatExponent(f), FloatMantissa(f), FloatExponent(g), FloatMantissa(g);
    SameFields(FloatSign(f), e1, m1, FloatSign(g), e2, m2, 0x80_0000, -149);
  }

  lemma SameFields(s1: nat, e1: nat, m1: nat, s2: nat, e2: nat, m2: nat, p: nat, x: int)
    requires s1 <= 1 && s2 <= 1 && m1 < p && m2 < p
    requires WithSign(s1, Magnitude(p, x, e1, m1)) == WithSign(s2, Magnitude(p, x, e2, m2)) != 0.0
    ensures s1 == s2 && e1 == e2 && m1 == m2
  {
    var a, b := Magnitude(p, x, e1, m1), Magnitude(p, x, e2, m2);
    MagnitudeSign(p, x, e1, m1);
    MagnitudeSign(p, x, e2, m2);
    hide Magnitude;
    SameSign(s1, a, s2, b);
    if e1 < e2 || (e1 == e2 && m1 < m2) {
      MagnitudeOrder(p, x, e1, m1, e2, m2);
    } else if e2 < e1 || m2 < m1 {
      MagnitudeOrder(p, x, e2, m2, e1, m1);
    }
  }

  lemma MagnitudeSign(p: nat, x: int, e: nat, m: nat)
    ensures Magnitude(p, x, e, m) >= 0.0
  {
    NotNegative((if e == 0 then m else p + m) as real, Two(if e == 0 then x else x + e - 1));
  }

  lemma DoubleInjective(a: nat, b: nat)
    requires a < 0x1_0000_0000_0000_0000 && DoubleExponent(a) != 0x7ff
    requires b < 0x1_0000_0000_0000_0000 && DoubleExponent(b) != 0x7ff
    requires DoubleReal(a) == DoubleReal(b) != 0.0
    ensures a == b
  {
    DoubleFields(a);
    DoubleFields(b);
    DoubleRange(a);
    DoubleRange(b);
    var e1, m1, e2, m2 := DoubleExponent(a), DoubleMantissa(a), DoubleExponent(b), DoubleMantissa(b);
    SameFields(DoubleSign(a), e1, m1, DoubleSign(b), e2, m2, 0x10_0000_0000_0000, -1074);
  }

  /** If a float has the value of a double that is no int64, the double is packed as a float. */
  lemma DoubleIsSingle(bits: nat, f: nat)
    requires bits < 0x1_0000_0000_0000_0000 && DoubleExponent(bits) != 0x7ff
    requires f < 0x1_0000_0000 && FloatExponent(f) != 0xff
    requires FloatReal(f) == DoubleReal(bits) && !IsInt64(DoubleReal(bits))
    ensures OfDouble(bits).Single?
  {
    DoubleRange(bits);
    DoubleFields(bits);
    FloatFields(f);
    DoubleCases(bits);
    DoubleKeeps(bits);
    NotZero(DoubleReal(bits));
    var e, m := Widened(f);
    hide OfDouble, Scale, Narrowed, IsInt64, DoubleSign, DoubleExponent, DoubleMantissa, FloatSign, FloatReal, Shl;
    SameFields(FloatSign(f), e, m, DoubleSign(bits), DoubleExponent(bits), DoubleMantissa(bits),
               0x10_0000_0000_0000, -1074);
  }

  predicate IsFinite(n: Number) {
    match n
    case Int(_) => true
    case Single(b) => FloatExponent(b) != 0xff
    case Double(b) => DoubleExponent(b) != 0x7ff
  }

  lemma FormOfReal(n: Number)
    requires n.Wf() && IsFinite(n)
    ensures n.Int? <==> IsInt64(NumberReal(n))
  {
    match n
    case Int(i) => assert (i as real).Floor == i;
    case Single(b) => SingleKeeps(b);
    case Double(b) => DoubleKeeps(b);
  }

  /** No two numbers stand for the same real: its form is int64 if it is one, else float if it is one,
      else double. */
  lemma OneForm(a: Number, b: Number)
    requires a.Wf() && b.Wf() && IsFinite(a) && IsFinite(b) && NumberReal(a) == NumberReal(b)
    ensures a == b
  {
    FormOfReal(a);
    FormOfReal(b);
    hide IsInt64, OfSingle, OfDouble, OfInt, FloatReal, DoubleReal, FloatExponent, DoubleExponent;
    match (a, b) {
      case (Single(x), Single(y)) =>
        NotZero(FloatReal(x));
        FloatInjective(x, y);
      case (Double(x), Double(y)) =>
        NotZero(DoubleReal(x));
        DoubleInjective(x, y);
      case (Double(x), Single(y)) => DoubleIsSingle(x, y);
      case (Single(x), Double(y)) => DoubleIsSingle(y, x);
      case _ =>
    }
  }
}
