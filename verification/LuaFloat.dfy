/** The binary64 value (IEEE 754) of a decimal integer numeral that is too large for a Lua integer. */
module LuaFloat {

  /** A whole binary64 number `mantissa * 2^exponent`, or an infinity. */
  datatype Float = Finite(negative: bool, mantissa: nat, exponent: nat) | Infinite(negative: bool)

  const PRECISION := 0x20_0000_0000_0000    // 2^53
  const MAX_EXPONENT := 971

  function Power2(e: nat): (p: nat)
    ensures p > 0
  {
    if e == 0 then 1 else 2 * Power2(e - 1)
  }

  /** How many binary digits of `n` do not fit the mantissa. */
  function Shift(n: nat): nat {
    if n < PRECISION then 0 else 1 + Shift(n / 2)
  }

  /** Division by `u` to the nearest, and to the even one of two nearest. */
  function RoundedQuotient(n: nat, u: nat): nat
    requires u > 0
  {
    var q, rem := n / u, n % u;
    if 2 * rem > u || (2 * rem == u && q % 2 == 1) then q + 1 else q
  }

  /** What `strtod` reads for the digits of `n`. */
  function Nearest(n: nat): Float {
    var e := Shift(n);
    var m := RoundedQuotient(n, Power2(e));
    var carried := m >= PRECISION;
    if (if carried then e + 1 else e) > MAX_EXPONENT then Infinite(false)
    else Finite(false, if carried then m / 2 else m, if carried then e + 1 else e)
  }

  function Opposite(f: Float): Float {
    f.(negative := !f.negative)
  }

  function Magnitude(f: Float): nat
    requires f.Finite?
  {
    f.mantissa * Power2(f.exponent)
  }

  function Distance(a: int, b: int): nat {
    if a <= b then b - a else a - b
  }

  // ----- It is the nearest one -----

  lemma {:induction false} ShiftBounds(n: nat)
    ensures n < PRECISION * Power2(Shift(n))
    ensures Shift(n) > 0 ==> PRECISION / 2 * Power2(Shift(n)) <= n
  {
    if n < PRECISION {
    } else {
      ShiftBounds(n / 2);
      assert Power2(Shift(n)) == 2 * Power2(Shift(n / 2));
    }
  }

  lemma {:induction false} PowersMultiply(d: nat, e: nat)
    ensures Power2(d + e) == Power2(d) * Power2(e)
  {
    if d == 0 {
    } else {
      PowersMultiply(d - 1, e);
    }
  }

  lemma Divided(n: nat, u: nat)
    requires u > 0
    ensures n == n / u * u + n % u && 0 <= n % u < u
  { }

  lemma AtMost(a: int, b: int, u: nat)
    requires a <= b
    ensures a * u <= b * u
  { }

  lemma Next(q: nat, u: nat)
    ensures (q + 1) * u == q * u + u
  { }

  /** No multiple of `u` is nearer than the rounded quotient, which is at most half a step away. */
  lemma NearestMultiple(n: nat, u: nat, c: nat)
    requires u > 0
    ensures Distance(n, RoundedQuotient(n, u) * u) <= Distance(n, c * u)
    ensures Distance(n, RoundedQuotient(n, u) * u) <= n % u
  {
    var q := n / u;
    Divided(n, u);
    Next(q, u);
    if c <= q {
      AtMost(c, q, u);
    } else {
      AtMost(q + 1, c, u);
    }
  }

  lemma QuotientBetween(n: nat, u: nat, low: nat, high: nat)
    requires u > 0 && low * u <= n < high * u
    ensures low <= n / u < high
  {
    var q := n / u;
    Divided(n, u);
    if q < low {
      Next(q, u);
      AtMost(q + 1, low, u);
    } else if q >= high {
      AtMost(high, q, u);
    }
  }

  lemma QuotientBounds(n: nat)
    ensures var q := n / Power2(Shift(n)); q < PRECISION && (Shift(n) > 0 ==> q >= PRECISION / 2)
  {
    ShiftBounds(n);
    QuotientBetween(n, Power2(Shift(n)), if Shift(n) > 0 then PRECISION / 2 else 0, PRECISION);
  }

  lemma QuotientCarries(n: nat)
    ensures RoundedQuotient(n, Power2(Shift(n))) <= PRECISION
  {
    QuotientBounds(n);
  }

  lemma MagnitudeOfNearest(n: nat)
    requires Nearest(n).Finite?
    ensures Magnitude(Nearest(n)) == RoundedQuotient(n, Power2(Shift(n))) * Power2(Shift(n))
    ensures Nearest(n).mantissa < PRECISION && Nearest(n).exponent <= MAX_EXPONENT
  {
    QuotientCarries(n);
    Doubled(RoundedQuotient(n, Power2(Shift(n))), Shift(n));
  }

  lemma Doubled(m: nat, e: nat)
    ensures m == PRECISION ==> m / 2 * Power2(e + 1) == m * Power2(e)
  {
    var p := Power2(e);
    assert Power2(e + 1) == 2 * p;
  }

  /** A binary64 number of a smaller exponent lies below every one that needs the larger exponent. */
  lemma FinerIsSmaller(mantissa: nat, exponent: nat, e: nat)
    requires mantissa < PRECISION && exponent < e
    ensures mantissa * Power2(exponent) <= PRECISION / 2 * Power2(e)
  {
    var d := e - 1 - exponent;
    PowersMultiply(d, exponent);
    assert Power2(e) == 2 * Power2(e - 1);
    Scaled(mantissa, Power2(exponent), Power2(d));
  }

  lemma Scaled(m: nat, p: nat, w: nat)
    requires m < PRECISION && w > 0
    ensures m * p <= PRECISION * (w * p)
  {
    AtMost(m, PRECISION, p);
    AtMost(1, w, p);
  }

  lemma CoarserIsMultiple(n: nat, mantissa: nat, d: nat, e: nat)
    ensures var u := Power2(e);
            Distance(n, RoundedQuotient(n, u) * u) <= Distance(n, mantissa * Power2(d + e))
  {
    PowersMultiply(d, e);
    Regroup(mantissa, Power2(d), Power2(e));
    NearestMultiple(n, Power2(e), mantissa * Power2(d));
  }

  lemma Regroup(a: nat, b: nat, c: nat)
    ensures a * (b * c) == a * b * c
  { }

  lemma FinerIsFarther(n: nat, mantissa: nat, exponent: nat)
    requires mantissa < PRECISION && exponent < Shift(n)
    ensures var u := Power2(Shift(n));
            Distance(n, RoundedQuotient(n, u) * u) <= Distance(n, mantissa * Power2(exponent))
  {
    var u := Power2(Shift(n));
    QuotientBounds(n);
    FinerIsSmaller(mantissa, exponent, Shift(n));
    AtMost(PRECISION / 2, n / u, u);
    Divided(n, u);
    NearestMultiple(n, u, 0);
  }

  /** No whole binary64 number is nearer to `n` than what its digits are read as. */
  lemma NearestIsNearest(n: nat, mantissa: nat, exponent: nat)
    requires Nearest(n).Finite? && mantissa < PRECISION
    ensures Nearest(n).mantissa < PRECISION && Nearest(n).exponent <= MAX_EXPONENT
    ensures Distance(n, Magnitude(Nearest(n))) <= Distance(n, mantissa * Power2(exponent))
  {
    MagnitudeOfNearest(n);
    if exponent >= Shift(n) {
      CoarserIsMultiple(n, mantissa, exponent - Shift(n), Shift(n));
    } else {
      FinerIsFarther(n, mantissa, exponent);
    }
  }

  lemma {:induction false} PowersGrow(d: nat, e: nat)
    requires d <= e
    ensures Power2(d) <= Power2(e)
  {
    if d == e {
    } else {
      PowersGrow(d, e - 1);
    }
  }

  /** At the largest exponent the quotient carries exactly from half a step below the carry on. */
  lemma CarriesExactly(n: nat, u: nat)
    requires u > 0 && n / u < PRECISION
    ensures RoundedQuotient(n, u) >= PRECISION <==> 2 * n >= (2 * PRECISION - 1) * u
  {
    var q := n / u;
    Divided(n, u);
    if q + 1 < PRECISION {
      Next(q, u);
      AtMost(q + 1, PRECISION - 1, u);
    }
  }

  /** Below the largest exponent the carry bound is not reached, above it it is passed. */
  lemma ShiftDecides(n: nat, top: nat)
    ensures Shift(n) < top ==> 2 * n < (2 * PRECISION - 1) * Power2(top)
    ensures Shift(n) > top ==> 2 * n >= (2 * PRECISION - 1) * Power2(top)
  {
    var e := Shift(n);
    ShiftBounds(n);
    if e < top {
      PowersGrow(e + 1, top);
    } else if e > top {
      PowersGrow(top + 1, e);
    }
  }

  /** Only digits from half a step above the largest finite number on are read as an infinity. */
  lemma InfiniteExactly(n: nat, top: nat)
    requires top == MAX_EXPONENT
    ensures Nearest(n).Infinite? <==> 2 * n >= (2 * PRECISION - 1) * Power2(top)
  {
    ShiftDecides(n, top);
    if Shift(n) == top {
      QuotientBounds(n);
      CarriesExactly(n, Power2(top));
    }
  }
}
