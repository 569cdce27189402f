/** Finite IEEE 754 binary64 numbers, and how integers are rounded to them. */
module Binary64 {
  const TWO_52: int := 0x10_0000_0000_0000
  const TWO_53: int := 0x20_0000_0000_0000

  datatype Binary = Binary(mantissa: int, exponent: int)

  function Abs(n: int): nat { if n < 0 then -n else n }

  /** Every finite number has one form: a full mantissa, or the least exponent. */
  predicate IsFinite(b: Binary) {
    || (TWO_52 <= Abs(b.mantissa) < TWO_53 && -1074 <= b.exponent <= 971)
    || (Abs(b.mantissa) < TWO_52 && b.exponent == -1074)
  }

  type Float64 = b: Binary | IsFinite(b) witness Binary(0, -1074)

  function Power(n: nat): (p: int)
    ensures p > 0
  {
    if n == 0 then 1 else 2 * Power(n - 1)
  }

  function Value(b: Binary): real {
    if b.exponent >= 0 then (b.mantissa * Power(b.exponent)) as real
    else b.mantissa as real / Power(-b.exponent) as real
  }

  // ----- Integers

  /** The distance between neighbouring numbers around `n`: one up to 53 bits, then a power of two. */
  function Step(n: nat): (u: int)
    ensures u > 0
  {
    if n < TWO_53 then 1 else 2 * Step(n / 2)
  }

  /** The nearest multiple of `u`; of two that are equally near, the even one. */
  function Nearest(n: nat, u: int): int
    requires u > 0
  {
    var (q, r) := (n / u, n % u);
    if 2 * r < u || (2 * r == u && q % 2 == 0) then q * u else (q + 1) * u
  }

  /** What converting an integer to binary64 yields. */
  function Rounded(n: int): int {
    if n < 0 then -Nearest(-n, Step(-n)) else Nearest(n, Step(n))
  }

  /** Up to 53 bits nothing is rounded. */
  lemma RoundedExact(n: int)
    requires Abs(n) <= TWO_53
    ensures Rounded(n) == n
  {
    assert Step(TWO_53) == 2;
  }

  // ----- Rounding keeps the order

  lemma Scaled(a: int, b: int, u: int)
    requires u > 0 && a <= b
    ensures a * u <= b * u
  {
    assert b * u - a * u == (b - a) * u;
    assert (b - a) * u >= 0;
  }

  lemma Quotient(n: nat, u: int)
    requires u > 0
    ensures n / u >= 0 && 0 <= n % u < u && n == n / u * u + n % u && (n / u + 1) * u == n / u * u + u
    ensures n / u * u <= Nearest(n, u) <= (n / u + 1) * u
  {
  }

  lemma QuotientGrows(n: nat, m: nat, u: int)
    requires u > 0 && n <= m
    ensures n / u <= m / u
  {
    Quotient(n, u);
    Quotient(m, u);
    if m / u < n / u {
      Scaled(m / u + 1, n / u, u);
      assert false;
    }
  }

  lemma NearestGrows(n: nat, m: nat, u: int)
    requires u > 0 && n <= m
    ensures Nearest(n, u) <= Nearest(m, u)
  {
    Quotient(n, u);
    Quotient(m, u);
    QuotientGrows(n, m, u);
    if n / u < m / u {
      Scaled(n / u + 1, m / u, u);
    }
  }

  /** A multiple of the step on one side of a number stays on that side of its rounding. */
  lemma NearestSide(n: nat, u: int, k: nat)
    requires u > 0
    ensures Nearest(k * u, u) == k * u
    ensures n <= k * u ==> Nearest(n, u) <= k * u
    ensures n >= k * u ==> Nearest(n, u) >= k * u
  {
    Quotient(k * u, u);
    MultipleHasNoRest(k, u);
    if n <= k * u { NearestGrows(n, k * u, u); }
    if n >= k * u { NearestGrows(k * u, n, u); }
  }

  lemma MultipleHasNoRest(k: nat, u: int)
    requires u > 0
    ensures k * u / u == k && k * u % u == 0
  {
    var (q, r) := (k * u / u, k * u % u);
    assert k * u == q * u + r;
    if q < k {
      Scaled(q + 1, k, u);
      assert false;
    } else if k < q {
      Scaled(k + 1, q, u);
      assert false;
    }
  }

  lemma {:induction false} StepRange(n: nat)
    ensures n < TWO_53 * Step(n) && (Step(n) > 1 ==> TWO_52 * Step(n) <= n)
  {
    if n >= TWO_53 {
      StepRange(n / 2);
    }
  }

  lemma {:induction false} StepMultiple(n: nat, m: nat) returns (c: nat)
    requires n <= m
    ensures c >= 1 && Step(m) == c * Step(n)
  {
    if n < TWO_53 {
      c := Step(m);
    } else {
      c := StepMultiple(n / 2, m / 2);
      assert 2 * (c * Step(n / 2)) == c * (2 * Step(n / 2));
    }
  }

  lemma CoarserGrows(n: nat, m: nat, u: int, v: int, c: nat, w: nat)
    requires u > 0 && v > 0 && v == c * u && c >= 2
    requires n <= 2 * w * u && w * v <= m
    ensures Nearest(n, u) <= Nearest(m, v)
  {
    assert w * c * u == w * v by { assert w * (c * u) == w * c * u; }
    assert 2 * w <= w * c;
    Scaled(2 * w, w * c, u);
    NearestSide(n, u, w * c);
    NearestSide(m, v, w);
  }

  lemma MagnitudeGrows(n: nat, m: nat)
    requires n <= m
    ensures Nearest(n, Step(n)) <= Nearest(m, Step(m))
  {
    var c := StepMultiple(n, m);
    if c == 1 {
      NearestGrows(n, m, Step(n));
    } else {
      StepRange(n);
      StepRange(m);
      Scaled(2, c, Step(n));
      CoarserGrows(n, m, Step(n), Step(m), c, TWO_52);
    }
  }

  lemma NearestIsNatural(n: nat, u: int)
    requires u > 0
    ensures Nearest(n, u) >= 0
  {
    Quotient(n, u);
    Scaled(0, n / u, u);
  }

  /** Rounding never swaps two integers. */
  lemma RoundedGrows(n: int, m: int)
    requires n <= m
    ensures Rounded(n) <= Rounded(m)
  {
    if n >= 0 {
      MagnitudeGrows(n, m);
    } else if m < 0 {
      MagnitudeGrows(-m, -n);
    } else {
      NearestIsNatural(-n, Step(-n));
      NearestIsNatural(m, Step(m));
    }
  }

  /** Comparing rounded integers is comparing them, but for those that round to one number. */
  lemma RoundedOrder(n: int, m: int)
    ensures Rounded(n) < Rounded(m) <==> n < m && Rounded(n) != Rounded(m)
  {
    if n <= m { RoundedGrows(n, m); } else { RoundedGrows(m, n); }
  }

  // ----- One form per number

  lemma {:induction false} PowerAdds(m: nat, n: nat)
    ensures Power(m + n) == Power(m) * Power(n)
  {
    if m > 0 {
      PowerAdds(m - 1, n);
      assert 2 * (Power(m - 1) * Power(n)) == 2 * Power(m - 1) * Power(n);
    }
  }

  lemma {:induction false} RealProduct(x: int, y: nat)
    ensures (x * y) as real == x as real * y as real
  {
    if y > 0 {
      RealProduct(x, y - 1);
      assert x * y == x * (y - 1) + x;
      RealPush(x as real, (y - 1) as real);
    }
  }

  lemma RealPush(x: real, y: real)
    ensures x * y + x == x * (y + 1.0)
  {
  }

  lemma Regrouped(x: int, y: int, z: int)
    ensures x * y * z == x * (y * z)
  {
  }

  lemma Cleared(x: real, d: real, p: real)
    requires d > 0.0
    ensures x / d * (d * p) == x * p
  {
    assert x / d * (d * p) == x / d * d * p;
  }

  lemma ScaledUp(m: int, p: int, q: nat, full: int)
    requires full == p * q
    ensures (m * p) as real * q as real == (m * full) as real
  {
    Regrouped(m, p, q);
    RealProduct(m * p, q);
  }

  lemma ScaledDown(m: int, d: int, full: nat, q: int)
    requires d > 0 && q == d * full
    ensures m as real / d as real * q as real == (m * full) as real
  {
    RealProduct(d, full);
    Cleared(m as real, d as real, full as real);
    RealProduct(m, full);
  }

  /** `n` is the value times `q`. */
  predicate IsScaled(value: real, q: int, n: int) { value * q as real == n as real }

  lemma LargeScaled(b: Binary, q: nat, full: int)
    requires b.exponent >= 0 && full == Power(b.exponent) * q
    ensures IsScaled(Value(b), q, b.mantissa * full)
  {
    ScaledUp(b.mantissa, Power(b.exponent), q, full);
  }

  lemma SmallScaled(b: Binary, q: int, full: nat)
    requires b.exponent < 0 && q == Power(-b.exponent) * full
    ensures IsScaled(Value(b), q, b.mantissa * full)
  {
    ScaledDown(b.mantissa, Power(-b.exponent), full, q);
  }

  /** A value times a power of two that clears its denominator. */
  lemma ValueScaled(b: Binary, shift: nat)
    requires b.exponent + shift >= 0
    ensures IsScaled(Value(b), Power(shift), b.mantissa * Power(b.exponent + shift))
  {
    if b.exponent >= 0 {
      PowerAdds(b.exponent, shift);
      LargeScaled(b, Power(shift), Power(b.exponent + shift));
    } else {
      PowerAdds(-b.exponent, b.exponent + shift);
      SmallScaled(b, Power(shift), Power(b.exponent + shift));
    }
  }

  lemma ScaledOnce(value: real, q: int, n: int, m: int)
    requires IsScaled(value, q, n) && IsScaled(value, q, m)
    ensures n == m
  {
  }

  /** A smaller exponent would need a fuller mantissa than there is. */
  lemma ShiftedIsFuller(a: Binary, b: Binary, p: int)
    requires IsFinite(a) && IsFinite(b) && a.exponent < b.exponent && p >= 2
    ensures a.mantissa != b.mantissa * p
  {
    if b.mantissa > 0 {
      Scaled(2, p, b.mantissa);
    } else {
      Scaled(2, p, -b.mantissa);
      Negated(p, b.mantissa);
    }
  }

  lemma Negated(p: int, m: int)
    ensures p * -m == -(m * p)
  {
  }

  lemma NoCommonMultiple(a: Binary, b: Binary, low: int, gap: int, full: int)
    requires IsFinite(a) && IsFinite(b) && a.exponent < b.exponent && low > 0 && gap >= 2 && full == gap * low
    ensures a.mantissa * low != b.mantissa * full
  {
    Regrouped(b.mantissa, gap, low);
    ShiftedIsFuller(a, b, gap);
    if a.mantissa * low == b.mantissa * full {
      Cancels(a.mantissa, b.mantissa * gap, low);
    }
  }

  lemma LesserExponentDiffers(a: Binary, b: Binary)
    requires IsFinite(a) && IsFinite(b) && a.exponent < b.exponent
    ensures Value(a) != Value(b)
  {
    var shift: nat := if a.exponent < 0 then -a.exponent else 0;
    var (low, gap) := (a.exponent + shift, b.exponent - a.exponent);
    ValueScaled(a, shift);
    ValueScaled(b, shift);
    PowerAdds(gap, low);
    assert Power(gap) == 2 * Power(gap - 1);
    NoCommonMultiple(a, b, Power(low), Power(gap), Power(gap + low));
    if Value(a) == Value(b) {
      ScaledOnce(Value(a), Power(shift), a.mantissa * Power(low), b.mantissa * Power(gap + low));
    }
  }

  lemma Cancels(a: int, b: int, u: int)
    requires u > 0 && a * u == b * u
    ensures a == b
  {
    if a < b {
      Scaled(a + 1, b, u);
    } else if b < a {
      Scaled(b + 1, a, u);
    }
  }

  /** Numbers of one value are one number. */
  lemma ValueUnique(a: Float64, b: Float64)
    ensures Value(a) == Value(b) <==> a == b
  {
    if a.exponent < b.exponent {
      LesserExponentDiffers(a, b);
    } else if b.exponent < a.exponent {
      LesserExponentDiffers(b, a);
    } else if Value(a) == Value(b) {
      var shift: nat := if a.exponent < 0 then -a.exponent else 0;
      ValueScaled(a, shift);
      ValueScaled(b, shift);
      var low := Power(a.exponent + shift);
      ScaledOnce(Value(a), Power(shift), a.mantissa * low, b.mantissa * low);
      Cancels(a.mantissa, b.mantissa, low);
    }
  }

  /** One as a floating point number. */
  const ONE: Float64 := Binary(TWO_52, -52)

  lemma OneIsOne()
    ensures Value(ONE) == 1.0
  {
    assert Power(13) == 8192;
    PowerAdds(13, 13);
    PowerAdds(26, 26);
  }
}
