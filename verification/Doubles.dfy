/**
 Counting down on doubles, as c_onTimer does with the number of calls that are left
 (lualib/env.lua:68-69).
 */
module Doubles {
  import opened Basics
  import opened LuaValues

  /** 2^53 */
  const EXACT := 0x20_0000_0000_0000

  // ---- rounding to a double ---------------------------------------------------------

  /** A mantissa of 53 bits times a power of two. */
  ghost predicate IsWholeDouble(x: nat) { exists m: nat, k: nat :: m < EXACT && x == Shl(m, k) }

  lemma ShlNext(m: nat, k: nat)
    ensures Shl(m, 0) == m && Shl(m, k + 1) == 2 * Shl(m, k)
  {
  }

  lemma UlpNext(n: nat)
    ensures Ulp(n) == if n < EXACT then 1 else 2 * Ulp(n / 2)
  {
  }

  lemma {:induction false} ShlIsMultiple(m: nat, k: nat)
    requires m < EXACT
    ensures Shl(m, k) % Ulp(Shl(m, k)) == 0
  {
    hide Ulp, Shl;
    var x := Shl(m, k);
    UlpNext(x);
    if k == 0 {
      ShlNext(m, 0);
    } else if x >= EXACT {
      ShlNext(m, k - 1);
      ShlIsMultiple(m, k - 1);
      Doubled(x / 2, Ulp(x / 2));
    }
  }

  lemma {:induction false} MultipleIsShl(x: nat)
    requires x % Ulp(x) == 0
    ensures IsWholeDouble(x)
  {
    hide Ulp, Shl;
    UlpNext(x);
    if x < EXACT {
      ShlNext(x, 0);
      assert x == Shl(x, 0);
    } else {
      Halved(x, Ulp(x / 2));
      MultipleIsShl(x / 2);
      var m: nat, k: nat :| m < EXACT && x / 2 == Shl(m, k);
      ShlNext(m, k);
      assert x == Shl(m, k + 1);
    }
  }

  lemma MultipleRounds(x: nat)
    requires x % Ulp(x) == 0
    ensures Rounded(x) == x
  {
  }

  /** Rounding leaves just the doubles alone. */
  lemma RoundedExactly(x: nat)
    ensures Rounded(x) == x <==> IsWholeDouble(x)
  {
    hide Rounded, Ulp, Shl;
    if IsWholeDouble(x) {
      var m: nat, k: nat :| m < EXACT && x == Shl(m, k);
      ShlIsMultiple(m, k);
      MultipleRounds(x);
    }
    if Rounded(x) == x {
      RoundedIsMultiple(x);
      MultipleIsShl(x);
    }
  }

  lemma {:induction false} UlpDivides(a: nat, b: nat)
    requires a <= b
    ensures Ulp(b) % Ulp(a) == 0
  {
    hide Ulp;
    UlpNext(a);
    UlpNext(b);
    if a >= EXACT {
      UlpDivides(a / 2, b / 2);
      Doubled(Ulp(b / 2), Ulp(a / 2));
    }
  }

  lemma MultipleOfDivisor(x: nat, u: nat, v: nat)
    requires u > 0 && v > 0 && u % v == 0 && x % u == 0
    ensures x % v == 0
  {
    var q, k := x / u, u / v;
    assert x == q * (k * v) == q * k * v;
    Quotient(x, v, q * k, 0);
  }

  /** The doubles around n. */
  function Low(n: nat): nat { Multiple(n, Ulp(n)) }

  function High(n: nat): nat { Low(n) + Ulp(n) }

  /** The largest multiple of u up to n. */
  function Multiple(n: nat, u: nat): nat
    requires u > 0
  {
    n / u * u
  }

  lemma MultipleIs(n: nat, u: nat)
    requires u > 0
    ensures var x := Multiple(n, u);
            && x <= n < x + u && n - x == n % u && x % u == 0 && (x + u) % u == 0
            && x / u == n / u && (x + u) / u == n / u + 1
  {
    var q := n / u;
    assert n == q * u + n % u;
    Quotient(q * u, u, q, 0);
    assert (q + 1) * u == q * u + u;
    Quotient((q + 1) * u, u, q + 1, 0);
  }

  lemma LowHigh(n: nat)
    ensures Low(n) <= n < High(n) == Low(n) + Ulp(n) && Low(n) % Ulp(n) == 0 && High(n) % Ulp(n) == 0
  {
    hide Ulp, Multiple;
    MultipleIs(n, Ulp(n));
  }

  lemma Halfway(n: nat, v: nat)
    requires v > 0
    ensures n / (2 * v) == n / 2 / v
  {
    var q := n / 2 / v;
    assert n / 2 == q * v + n / 2 % v;
    Quotient(n, 2 * v, q, 2 * (n / 2 % v) + n % 2);
  }

  lemma LowHighNext(n: nat)
    requires n >= EXACT
    ensures Low(n) == 2 * Low(n / 2) && High(n) == 2 * High(n / 2)
  {
    hide Ulp;
    UlpNext(n);
    var v := Ulp(n / 2);
    Halfway(n, v);
    var q := n / 2 / v;
    assert q * (2 * v) == 2 * (q * v) && (q + 1) * (2 * v) == 2 * ((q + 1) * v);
  }

  lemma {:induction false} LowKeepsUlp(n: nat)
    ensures Ulp(Low(n)) == Ulp(n)
  {
    hide Low, High, Ulp;
    UlpNext(n);
    UlpNext(Low(n));
    if n >= EXACT {
      LowKeepsUlp(n / 2);
      LowHighNext(n);
      LowAtLeast(n / 2);
      assert Low(n) / 2 == Low(n / 2);
    } else {
      LowHigh(n);
    }
  }

  /** The lower neighbour does not leave the range of its exponent. */
  lemma {:induction false} LowAtLeast(h: nat)
    requires h >= EXACT / 2
    ensures Low(h) >= EXACT / 2
  {
    hide Low, High, Ulp;
    LowHigh(h);
    UlpNext(h);
    if h >= EXACT {
      LowHighNext(h);
      LowAtLeast(h / 2);
    }
  }

  lemma {:induction false} HighIsDouble(n: nat)
    ensures High(n) % Ulp(High(n)) == 0
  {
    hide Low, High, Ulp;
    LowHigh(n);
    UlpNext(n);
    UlpNext(High(n));
    UlpNext(High(n) / 2);
    if n >= EXACT {
      HighIsDouble(n / 2);
      LowHighNext(n);
      Doubled(High(n / 2), Ulp(High(n / 2)));
    }
  }

  /** What is rounded is one of the two neighbours: the closer one, and the one with an even mantissa
      if none is closer. */
  lemma RoundedIs(n: nat)
    ensures Rounded(n) == if n - Low(n) < High(n) - n || (n - Low(n) == High(n) - n && Low(n) / Ulp(n) % 2 == 0)
                          then Low(n) else High(n)
  {
    hide Ulp;
    LowHigh(n);
    var u, q := Ulp(n), n / Ulp(n);
    Quotient(q * u, u, q, 0);
    assert n == q * u + n % u;
  }

  /** A number is rounded to a double, no double is closer to it, and of two that are as close the one
      with the even mantissa is taken. */
  lemma RoundedNearest(n: nat, x: nat)
    requires IsWholeDouble(x)
    ensures Rounded(n) >= 0 && IsWholeDouble(Rounded(n))
    ensures Distance(Rounded(n), n) <= Distance(x, n)
    ensures Distance(Rounded(n), n) == Distance(x, n) && x != Rounded(n) ==> Rounded(n) / Ulp(n) % 2 == 0
  {
    hide Rounded, Ulp, Shl, Low, High, IsWholeDouble;
    RoundedIs(n);
    LowHigh(n);
    LowKeepsUlp(n);
    HighIsDouble(n);
    if Rounded(n) == Low(n) {
      MultipleIsShl(Low(n));
    } else {
      MultipleIsShl(High(n));
    }
    NoneBetween(n, x);
    EvenOrNext(n);
  }

  function Distance(a: int, b: int): int { if a < b then b - a else a - b }

  lemma EvenOrNext(n: nat)
    ensures High(n) / Ulp(n) == Low(n) / Ulp(n) + 1
  {
    hide Ulp, Multiple;
    MultipleIs(n, Ulp(n));
  }

  lemma NoneBetween(n: nat, x: nat)
    requires IsWholeDouble(x)
    ensures x <= Low(n) || x >= High(n)
  {
    LowHigh(n);
    LowKeepsUlp(n);
    hide Ulp, Shl, Low, High;
    if x > Low(n) {
      var m: nat, k: nat :| m < EXACT && x == Shl(m, k);
      ShlIsMultiple(m, k);
      UlpDivides(Low(n), x);
      MultipleOfDivisor(x, Ulp(x), Ulp(n));
      StepUp(Low(n), x, Ulp(n));
    }
  }

  lemma StepUp(a: nat, b: nat, u: nat)
    requires u > 0 && a % u == 0 && b % u == 0 && a < b
    ensures b >= a + u
  {
    var p, q := a / u, b / u;
    assert a == p * u && b == q * u && b - a == u * (q - p);
    if q <= p {
      NotMore(q, p, u);
    } else {
      AtLeast(u, q - p);
    }
  }

  lemma NotMore(q: nat, p: nat, u: nat)
    requires q <= p
    ensures q * u <= p * u
  {
    assert p * u == q * u + (p - q) * u;
  }

  // ---- counting down ----------------------------------------------------------------

  lemma {:induction false} UlpForms(n: nat)
    ensures var u := Ulp(n); (n < EXACT ==> u == 1) && (n >= EXACT ==> u == 2 || u % 4 == 0)
  {
    if n >= EXACT {
      UlpForms(n / 2);
    }
  }

  lemma Halved(x: nat, u: nat)
    requires u > 0 && x % (2 * u) == 0
    ensures x % 2 == 0 && x / 2 % u == 0
  {
    var q := x / (2 * u);
    assert x == 2 * (q * u);
    Quotient(q * u, u, q, 0);
  }

  lemma Doubled(y: nat, u: nat)
    requires u > 0 && y % u == 0
    ensures 2 * y % (2 * u) == 0
  {
    assert 2 * y == y / u * (2 * u);
    Quotient(2 * y, 2 * u, y / u, 0);
  }

  lemma RoundedIsMultiple(x: nat)
    requires Rounded(x) == x
    ensures x % Ulp(x) == 0
  {
    var u := Ulp(x);
    var q := if x == x / u * u then x / u else x / u + 1;
    Quotient(x, u, q, 0);
  }

  /** A double is a multiple of the distance of the doubles just below it. */
  lemma {:induction false} UlpBelow(x: nat)
    requires x > 0 && x % Ulp(x) == 0
    ensures x % Ulp(x - 1) == 0
  {
    if x - 1 >= EXACT {
      Halved(x, Ulp(x / 2));
      UlpBelow(x / 2);
      Doubled(x / 2, Ulp(x / 2 - 1));
      assert (x - 1) / 2 == x / 2 - 1;
    }
  }

  lemma JustBelow(x: nat, u: nat)
    requires x > 0 && u > 1 && x % u == 0
    ensures (x - 1) / u == x / u - 1 && (x - 1) % u == u - 1 && x / u * u == x
  {
    assert x - 1 == (x / u - 1) * u + (u - 1);
    Quotient(x - 1, u, x / u - 1, u - 1);
  }

  lemma FourDivides(x: nat, u: nat)
    requires u > 0 && u % 4 == 0 && x % u == 0
    ensures x % 4 == 0
  {
    assert x == x / u * (u / 4) * 4;
    Quotient(x, 4, x / u * (u / 4), 0);
  }

  lemma JustBelowLarge(x: nat)
    requires x > EXACT && x % Ulp(x - 1) == 0
    ensures Rounded(x - 1) == if x % 4 == 0 then x else x - 2
  {
    UlpForms(x - 1);
    var u := Ulp(x - 1);
    hide Ulp;
    JustBelow(x, u);
    assert (x / u - 1) * u == x - u;
    if u != 2 {
      FourDivides(x, u);
    }
  }

  lemma Exact(n: nat)
    requires n < EXACT
    ensures Rounded(n) == n
  {
  }

  /** One less than a whole double x is computed up to 2^53 only. */
  lemma CountsDown(x: nat)
    requires x > 0 && Rounded(x) == x
    ensures Rounded(x - 1) == if x <= EXACT then x - 1 else if x % 4 == 0 then x else x - 2
  {
    RoundedIsMultiple(x);
    UlpBelow(x);
    hide Rounded, Ulp;
    if x > EXACT {
      JustBelowLarge(x);
    } else {
      Exact(x - 1);
    }
  }

  /** So large doubles are even, and from 2^54 on multiples of 4. */
  lemma LargeEven(n: nat)
    requires n > EXACT && Rounded(n) == n
    ensures n % 4 == 0 || (n % 4 == 2 && n < 2 * EXACT)
  {
    RoundedIsMultiple(n);
    UlpLarge(n);
    hide Rounded, Ulp;
    if n >= 2 * EXACT {
      FourDivides(n, Ulp(n));
    }
  }

  lemma UlpLarge(n: nat)
    requires n >= EXACT
    ensures Ulp(n) == 2 * Ulp(n / 2) && (n < 2 * EXACT ==> Ulp(n) == 2) && (n >= 2 * EXACT ==> Ulp(n) % 4 == 0)
  {
    hide Ulp;
    UlpNext(n);
    UlpForms(n / 2);
  }

  lemma EvenRounds(n: nat)
    requires EXACT <= n < 2 * EXACT && n % 2 == 0
    ensures Rounded(n) == n
  {
    UlpLarge(n);
    hide Ulp;
  }

  /** A number of Lua. */
  datatype Num = Nan | Infinite(negative: bool) | Finite(r: real)
  {
    /** From 2^53 on a double is whole, and it is one that rounding leaves alone. */
    predicate Wf() { Finite? && r > EXACT as real ==> Whole() && Rounded(r.Floor) == r.Floor }

    predicate Whole() { Finite? && r.Floor as real == r }

    /** `<= 0` */
    predicate Done() { (Finite? && r <= 0.0) || (Infinite? && negative) }
  }

  /** `x - 1`.  Below 1 the difference may be rounded, but it is not above 0 and nothing else is asked
      of it. */
  function Less(x: Num): Num {
    if !x.Finite? then x
    else if x.r <= EXACT as real then Finite(x.r - 1.0)
    else Finite(Rounded(x.r.Floor - 1) as real)
  }

  function Power(e: nat): (p: nat)
    ensures p > 0
  {
    if e == 0 then 1 else 2 * Power(e - 1)
  }

  lemma NotNegative(x: real, y: real)
    requires x >= 0.0 && y >= 0.0
    ensures x * y >= 0.0
  {
  }

  /** m / 2^e with a mantissa of 53 bits. */
  predicate IsDouble(x: real, m: nat, e: nat) { m <= EXACT && x * Power(e) as real == m as real }

  /** From 1 up to 2^53 the difference is a double itself, so it is not rounded. */
  lemma LessIsExact(x: real, m: nat, e: nat)
    requires IsDouble(x, m, e) && 1.0 <= x <= EXACT as real
    ensures m >= Power(e) && IsDouble(x - 1.0, m - Power(e), e)
  {
    var p := Power(e) as real;
    assert (x - 1.0) * p == x * p - p;
    NotNegative(x - 1.0, p);
  }

  /** What is left after k calls. */
  function Left(x: Num, k: nat): Num {
    if k == 0 then x else Less(Left(x, k - 1))
  }

  function Ceiling(r: real): int { if r.Floor as real == r then r.Floor else r.Floor + 1 }

  /** The count gets to 0. */
  predicate Ends(x: Num) {
    match x
    case Nan => false
    case Infinite(negative) => negative
    case Finite(r) => r <= EXACT as real || r == (EXACT + 2) as real
  }

  /** How many calls that takes: max(1, x), x rounded up, but one less for 2^53 + 2. */
  function Times(x: Num): nat
    requires Ends(x)
  {
    if x.Infinite? || x.r <= 1.0 then 1 else if x.r <= EXACT as real then Ceiling(x.r) else EXACT + 1
  }

  lemma {:induction false} LeftSmall(x: Num, k: nat)
    requires x.Finite? && x.r <= EXACT as real
    ensures Left(x, k) == Finite(x.r - k as real)
  {
    if k > 0 {
      LeftSmall(x, k - 1);
    }
  }

  lemma {:induction false} LeftStays(x: Num, k: nat)
    requires Less(x) == x
    ensures Left(x, k) == x
  {
    if k > 0 {
      LeftStays(x, k - 1);
    }
  }

  lemma {:induction false} LeftLater(x: Num, k: nat)
    requires k > 0
    ensures Left(x, k) == Left(Less(x), k - 1)
  {
    if k > 1 {
      LeftLater(x, k - 1);
    }
  }

  lemma LessLarge(x: Num)
    requires x.Wf() && x.Finite? && x.r > EXACT as real
    ensures Less(x) == if x.r.Floor % 4 == 0 then x else Finite(x.r - 2.0)
    ensures x.r.Floor % 4 == 0 || (x.r.Floor % 4 == 2 && Less(x).Wf())
  {
    hide Rounded, Ulp;
    CountsDown(x.r.Floor);
    LargeEven(x.r.Floor);
    if x.r.Floor % 4 == 2 {
      EvenRounds(x.r.Floor - 2);
    }
  }

  /** The whole count, for every number. */
  lemma CountIs(x: Num, k: nat)
    requires x.Wf()
    ensures !x.Finite? ==> Left(x, k) == x
    ensures x.Finite? && x.r <= EXACT as real ==> Left(x, k) == Finite(x.r - k as real)
    ensures x == Finite((EXACT + 2) as real) && k > 0 ==> Left(x, k) == Finite((EXACT + 1 - k) as real)
    ensures x.Finite? && x.r > (EXACT + 2) as real && k > 0 ==>
              Left(x, k) == if x.r.Floor % 4 == 0 then x else Finite(x.r - 2.0)
  {
    hide Rounded;
    if !x.Finite? {
      LeftStays(x, k);
    } else if x.r <= EXACT as real {
      LeftSmall(x, k);
    } else if k > 0 {
      LessLarge(x);
      LeftLater(x, k);
      if x.r == (EXACT + 2) as real {
        LeftSmall(Less(x), k - 1);
      } else {
        if x.r.Floor % 4 == 2 {
          LessLarge(Less(x));
        }
        LeftStays(Less(x), k - 1);
      }
    }
  }

  /** The count is at 0 after `Times` calls and not before, or never. */
  lemma EndsExactly(x: Num, k: nat)
    requires x.Wf() && k > 0
    ensures Left(x, k).Done() <==> Ends(x) && k >= Times(x)
  {
    CountIs(x, k);
    if x.Finite? && x.r > EXACT as real {
      LessLarge(x);
    }
  }

  /** The calls are max(1, x), x rounded up, exactly for x up to 2^53. */
  lemma RightCount(x: Num)
    requires x.Wf() && x.Finite?
    ensures Ends(x) && Times(x) == (if x.r <= 1.0 then 1 else Ceiling(x.r)) <==> x.r <= EXACT as real
  {
  }
}
