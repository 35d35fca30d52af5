/** Decimal scalars and the test that a value fits a NUMERIC(precision, scale)
    column, written on the digits of the normalised decimal. */
module DecimalScalar {
  import opened Decimals
  import opened Options

  /** Digits kept by the default decimal context. */
  const CONTEXT_DIGITS: nat := 28

  /** A parsed scalar: coefficient times ten to the exponent, or a non-finite. */
  datatype Dec = Finite(negative: bool, coefficient: nat, exponent: int) | NonFinite

  function NumDigits(n: nat): (d: nat)
    ensures d > 0
  {
    if n < 10 then 1 else 1 + NumDigits(n / 10)
  }

  // ------------------------------------------------------------- normalisation

  /** Coefficient and exponent of a positive value. */
  datatype Scaled = Scaled(c: nat, e: int)

  /** Rounds half to even onto the context's digits. */
  function Rounded(s: Scaled): (r: Scaled) {
    var n := NumDigits(s.c);
    if n <= CONTEXT_DIGITS then s else
      var unit := Pow10(n - CONTEXT_DIGITS);
      var q, rest := s.c / unit, s.c % unit;
      var up := 2 * rest > unit || (2 * rest == unit && q % 2 == 1);
      Scaled(if up then q + 1 else q, s.e + (n - CONTEXT_DIGITS))
  }

  function Stripped(s: Scaled): (r: Scaled)
    ensures s.c > 0 ==> r.c > 0 && r.c % 10 != 0
    decreases s.c
  {
    if s.c > 0 && s.c % 10 == 0 then Stripped(Scaled(s.c / 10, s.e + 1)) else s
  }

  /** `normalize()` of a positive decimal. */
  function Normalized(s: Scaled): (r: Scaled)
    requires s.c > 0
  {
    Stripped(Rounded(s))
  }

  // ------------------------------------------------------------------ the test

  /** The digit count of the source, on the normalised value. */
  predicate FitsColumn(n: Scaled, precision: nat, scale: nat) {
    var digits := NumDigits(n.c);
    var decimalPlaces := if n.e >= 0 then 0 else -n.e;
    var wholeDigits := if n.e >= 0 then digits + n.e
                       else if digits + n.e > 0 then digits + n.e else 0;
    decimalPlaces <= scale && wholeDigits <= precision - scale
  }

  /** The value is greater than an integer bound. */
  predicate Exceeds(s: Scaled, maximum: nat) {
    if s.e >= 0 then s.c * Pow10(s.e) > maximum else s.c > maximum * Pow10(-s.e)
  }

  /** Whether a present scalar is accepted. */
  predicate Accepted(d: Dec, precision: nat, scale: nat, maximum: Option<nat>) {
    && d.Finite? && !d.negative && d.coefficient > 0
    && var s := Scaled(d.coefficient, d.exponent);
       && (maximum.Some? ==> !Exceeds(s, maximum.value))
       && FitsColumn(Normalized(s), precision, scale)
  }

  // --------------------------------------------------------- what it should mean

  /** The value is k / 10^scale. */
  ghost predicate EqualsScaled(s: Scaled, k: nat, scale: nat) {
    if s.e + scale >= 0 then k == s.c * Pow10(s.e + scale) else s.c == k * Pow10(-(s.e + scale))
  }

  ghost predicate Representable(s: Scaled, precision: nat, scale: nat) {
    exists k: nat :: 0 < k < Pow10(precision) && EqualsScaled(s, k, scale)
  }

  // ------------------------------------------------------------ digit arithmetic

  lemma {:induction false} PowAdd(a: nat, b: nat)
    ensures Pow10(a + b) == Pow10(a) * Pow10(b)
  {
    if a == 0 {
    } else {
      PowAdd(a - 1, b);
      assert Pow10(a + b) == 10 * Pow10(a - 1 + b);
    }
  }

  lemma {:induction false} PowMono(a: nat, b: nat)
    requires a <= b
    ensures Pow10(a) <= Pow10(b)
  {
    if a < b { PowMono(a, b - 1); }
  }

  lemma {:induction false} DigitsBracket(n: nat)
    requires n > 0
    ensures Pow10(NumDigits(n) - 1) <= n < Pow10(NumDigits(n))
  {
    if n < 10 {
    } else {
      DigitsBracket(n / 10);
    }
  }

  /** Fewer than `p` powers of ten exactly when at most `p` digits. */
  lemma DigitsIffBelow(n: nat, p: nat)
    requires n > 0
    ensures n < Pow10(p) <==> NumDigits(n) <= p
  {
    DigitsBracket(n);
    if NumDigits(n) <= p {
      PowMono(NumDigits(n), p);
    } else {
      PowMono(p, NumDigits(n) - 1);
    }
  }

  lemma {:induction false} DigitsTimesPow(n: nat, k: nat)
    requires n > 0
    ensures n * Pow10(k) > 0 && NumDigits(n * Pow10(k)) == NumDigits(n) + k
  {
    if k == 0 {
    } else {
      DigitsTimesPow(n, k - 1);
      PowStep(n, k);
      OneMoreDigit(n * Pow10(k - 1));
    }
  }

  lemma PowStep(n: nat, k: nat)
    requires k > 0
    ensures n * Pow10(k) == 10 * (n * Pow10(k - 1))
  {
  }

  lemma OneMoreDigit(m: nat)
    requires m > 0
    ensures NumDigits(10 * m) == NumDigits(m) + 1
  {
    assert 10 * m / 10 == m;
  }

  lemma TimesPowDivisible(k: nat, m: nat)
    requires m > 0
    ensures (k * Pow10(m)) % 10 == 0
  {
    assert k * Pow10(m) == 10 * (k * Pow10(m - 1));
  }

  // ------------------------------------------------------- value is preserved

  /** Stripping zeros keeps the value. */
  lemma {:induction false} StrippedSameValue(s: Scaled, k: nat, scale: nat)
    requires s.c > 0
    ensures EqualsScaled(s, k, scale) <==> EqualsScaled(Stripped(s), k, scale)
    decreases s.c
  {
    if s.c % 10 == 0 {
      var t := Scaled(s.c / 10, s.e + 1);
      ShiftSameValue(s, t, k, scale);
      StrippedSameValue(t, k, scale);
    }
  }

  lemma ShiftSameValue(s: Scaled, t: Scaled, k: nat, scale: nat)
    requires s.c == 10 * t.c && t.e == s.e + 1
    ensures EqualsScaled(s, k, scale) <==> EqualsScaled(t, k, scale)
  {
    if s.e + scale >= 0 {
      assert Pow10(t.e + scale) == 10 * Pow10(s.e + scale);
      assert t.c * Pow10(t.e + scale) == s.c * Pow10(s.e + scale);
    } else {
      var m := -(s.e + scale) - 1;
      assert Pow10(m + 1) == 10 * Pow10(m);
      assert k * Pow10(m + 1) == 10 * (k * Pow10(m));
      if m == 0 { assert Pow10(t.e + scale) == 1; }
    }
  }

  /** A value without trailing zeros fits the column exactly when it is an
      integer multiple of the unit below the column's bound. */
  lemma FitsIffRepresentable(n: Scaled, precision: nat, scale: nat)
    requires n.c > 0 && n.c % 10 != 0 && scale <= precision
    ensures FitsColumn(n, precision, scale) <==> Representable(n, precision, scale)
  {
    if n.e + scale >= 0 {
      var k := n.c * Pow10(n.e + scale);
      DigitsTimesPow(n.c, n.e + scale);
      DigitsIffBelow(k, precision);
      assert EqualsScaled(n, k, scale);
    } else {
      forall k: nat ensures !EqualsScaled(n, k, scale) {
        TimesPowDivisible(k, -(n.e + scale));
      }
    }
  }

  // ---------------------------------------------------------------- main results

  /** Without a maximum a scalar is accepted exactly when its value, rounded to
      28 digits, is k / 10^scale for an integer 0 < k < 10^precision. */
  lemma AcceptedIffRounded(d: Dec, precision: nat, scale: nat)
    requires scale <= precision
    ensures Accepted(d, precision, scale, None) <==>
            d.Finite? && !d.negative && d.coefficient > 0 &&
            Representable(Rounded(Scaled(d.coefficient, d.exponent)), precision, scale)
  {
    if d.Finite? && d.coefficient > 0 {
      var s := Scaled(d.coefficient, d.exponent);
      var r := Rounded(s);
      RoundedPositive(s);
      StrippedRepresentable(r, precision, scale);
      FitsIffRepresentable(Stripped(r), precision, scale);
    }
  }

  lemma StrippedRepresentable(s: Scaled, precision: nat, scale: nat)
    requires s.c > 0
    ensures Representable(s, precision, scale) <==> Representable(Stripped(s), precision, scale)
  {
    forall k: nat ensures EqualsScaled(s, k, scale) <==> EqualsScaled(Stripped(s), k, scale) {
      StrippedSameValue(s, k, scale);
    }
  }

  lemma RoundedPositive(s: Scaled)
    requires s.c > 0
    ensures Rounded(s).c > 0
  {
    var n := NumDigits(s.c);
    if n > CONTEXT_DIGITS {
      DigitsBracket(s.c);
      PowMono(n - CONTEXT_DIGITS, n - 1);
    }
  }

  // ----------------------------------------------- values the context can hold

  /** Significant digits: those left when trailing zeros are dropped. */
  ghost function Significant(s: Scaled): nat { NumDigits(Stripped(s).c) }

  /** `s` is its stripped form times a power of ten. */
  lemma {:induction false} StrippedFactor(s: Scaled)
    requires s.c > 0
    ensures var t := Stripped(s);
            t.e >= s.e && s.c == t.c * Pow10(t.e - s.e) && NumDigits(s.c) == NumDigits(t.c) + (t.e - s.e)
    decreases s.c
  {
    if s.c % 10 == 0 {
      var u := Scaled(s.c / 10, s.e + 1);
      StrippedFactor(u);
      var t := Stripped(s);
      assert Pow10(t.e - s.e) == 10 * Pow10(t.e - u.e);
      assert s.c == 10 * (t.c * Pow10(t.e - u.e));
    } else {
      assert Pow10(0) == 1;
    }
  }

  /** Rounding to the context changes nothing but trailing zeros. */
  lemma RoundingIsExact(s: Scaled)
    requires s.c > 0 && Significant(s) <= CONTEXT_DIGITS
    ensures Stripped(Rounded(s)) == Stripped(s)
  {
    if NumDigits(s.c) > CONTEXT_DIGITS {
      var drop, pad := Padding(s);
      PaddedRounding(s, Stripped(s), drop, pad);
    }
  }

  lemma Padding(s: Scaled) returns (drop: nat, pad: nat)
    requires s.c > 0 && Significant(s) <= CONTEXT_DIGITS < NumDigits(s.c)
    ensures drop > 0 && NumDigits(s.c) == CONTEXT_DIGITS + drop
    ensures s.e + drop + pad == Stripped(s).e && s.c == Stripped(s).c * Pow10(drop + pad)
  {
    StrippedFactor(s);
    drop := NumDigits(s.c) - CONTEXT_DIGITS;
    pad := Stripped(s).e - s.e - drop;
  }

  lemma PaddedRounding(s: Scaled, t: Scaled, drop: nat, pad: nat)
    requires t.c > 0 && t.c % 10 != 0 && s.e + drop + pad == t.e
    requires drop > 0 && NumDigits(s.c) == CONTEXT_DIGITS + drop && s.c == t.c * Pow10(drop + pad)
    ensures Stripped(Rounded(s)) == t
  {
    RoundingOfPadded(s, t.c, drop, pad);
    StripPadding(t, pad);
  }

  lemma RoundingOfPadded(s: Scaled, c: nat, drop: nat, pad: nat)
    requires drop > 0 && NumDigits(s.c) == CONTEXT_DIGITS + drop && s.c == c * Pow10(drop + pad)
    ensures Rounded(s) == Scaled(c * Pow10(pad), s.e + drop)
  {
    PowAdd(drop, pad);
    MulRegroup(c, Pow10(drop), Pow10(pad));
    RoundedMultiple(s, c * Pow10(pad));
  }

  lemma MulRegroup(a: nat, b: nat, c: nat)
    ensures a * (b * c) == (a * c) * b
  {
  }

  lemma RoundedMultiple(s: Scaled, q: nat)
    requires NumDigits(s.c) > CONTEXT_DIGITS && s.c == q * Pow10(NumDigits(s.c) - CONTEXT_DIGITS)
    ensures Rounded(s) == Scaled(q, s.e + (NumDigits(s.c) - CONTEXT_DIGITS))
  {
    DivExact(q, Pow10(NumDigits(s.c) - CONTEXT_DIGITS));
  }

  lemma DivExact(q: nat, u: nat)
    requires u > 0
    ensures (q * u) / u == q && (q * u) % u == 0
  {
    var d, r := (q * u) / u, (q * u) % u;
    assert (q - d) * u == r;
    SmallMultiple(q - d, u);
  }

  lemma SmallMultiple(x: int, u: nat)
    requires 0 <= x * u < u
    ensures x == 0
  {
  }

  /** Stripping removes padding zeros again. */
  lemma {:induction false} StripPadding(t: Scaled, k: nat)
    requires t.c > 0 && t.c % 10 != 0
    ensures Stripped(Scaled(t.c * Pow10(k), t.e - k)) == t
  {
    if k == 0 {
    } else {
      PowStep(t.c, k);
      StripOne(t.c * Pow10(k - 1), t.e - k);
      StripPadding(t, k - 1);
    }
  }

  lemma StripOne(c: nat, e: int)
    requires c > 0
    ensures Stripped(Scaled(10 * c, e)) == Stripped(Scaled(c, e + 1))
  {
    assert 10 * c / 10 == c && 10 * c % 10 == 0;
  }

  /** For values of at most 28 significant digits the test is exact: accepted if
      and only if the column can hold the value. */
  lemma AcceptedIffRepresentable(d: Dec, precision: nat, scale: nat)
    requires scale <= precision
    requires d.Finite? && d.coefficient > 0 ==> Significant(Scaled(d.coefficient, d.exponent)) <= CONTEXT_DIGITS
    ensures Accepted(d, precision, scale, None) <==>
            d.Finite? && !d.negative && d.coefficient > 0 &&
            Representable(Scaled(d.coefficient, d.exponent), precision, scale)
  {
    if d.Finite? && d.coefficient > 0 {
      var s := Scaled(d.coefficient, d.exponent);
      RoundingIsExact(s);
      StrippedRepresentable(s, precision, scale);
      FitsIffRepresentable(Stripped(s), precision, scale);
    }
  }

  /** Beyond 28 significant digits no column of at most 28 digits can hold the
      value, so whatever is still accepted was accepted for its rounding. */
  lemma WideIsNeverRepresentable(s: Scaled, precision: nat, scale: nat)
    requires s.c > 0 && scale <= precision <= CONTEXT_DIGITS && Significant(s) > CONTEXT_DIGITS
    ensures !Representable(s, precision, scale)
  {
    var t := Stripped(s);
    StrippedRepresentable(s, precision, scale);
    FitsIffRepresentable(t, precision, scale);
  }

  /** Such a value exists: 1 + 10^-28 passes as a NUMERIC(20, 6). */
  lemma WideValueAccepted(k: nat)
    requires k == CONTEXT_DIGITS
    ensures var d := Finite(false, Pow10(k) + 1, 0 - k);
            && Accepted(d, 20, 6, None)
            && !Representable(Scaled(d.coefficient, d.exponent), 20, 6)
  {
    var c := Pow10(k) + 1;
    var s := Scaled(c, 0 - k);
    DigitsIffBelow(c, k);
    DigitsIffBelow(c, k + 1);
    assert Pow10(k + 1) == 10 * Pow10(k) && Pow10(k) == 10 * Pow10(k - 1);
    RoundsDown(s, k);
    StripPadding(Scaled(1, 0), k - 1);
    assert 1 * Pow10(k - 1) == Pow10(k - 1);
    assert c % 10 == 1;
    WideIsNeverRepresentable(s, 20, 6);
  }

  lemma RoundsDown(s: Scaled, k: nat)
    requires k == CONTEXT_DIGITS && NumDigits(s.c) == k + 1 && s.c == 10 * Pow10(k - 1) + 1
    ensures Rounded(s) == Scaled(Pow10(k - 1), s.e + 1)
  {
    assert Pow10(1) == 10 * Pow10(0) == 10;
  }
}
