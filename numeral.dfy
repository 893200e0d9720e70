/** The two input fields: the numeral syntax both must follow, the
    validation that rejects everything else, and the exact decimal values
    they denote. */
module Numeral {
  import opened Common

  /** The field without its optional leading sign. */
  function Body(s: string): (b: string)
    ensures |b| <= |s| && b == s[|s| - |b|..]
  {
    if |s| > 0 && (s[0] == '-' || s[0] == '+') then s[1..] else s
  }

  predicate HasMinus(s: string) {
    |s| > 0 && s[0] == '-'
  }

  /** `[0-9]+` */
  predicate IntForm(b: string) {
    |b| >= 1 && AllDigits(b)
  }

  /** `[0-9]+\.` */
  predicate IntDotForm(b: string) {
    |b| >= 2 && b[|b| - 1] == '.' && AllDigits(b[..|b| - 1])
  }

  /** `\.[0-9]+` */
  predicate DotFracForm(b: string) {
    |b| >= 2 && b[0] == '.' && AllDigits(b[1..])
  }

  /** `[0-9]+\.[0-9]+` */
  predicate IntFracForm(b: string) {
    exists i :: 0 < i < |b| - 1 && b[i] == '.' && AllDigits(b[..i]) && AllDigits(b[i + 1..])
  }

  /** `isNumber`: the whole field matches
      `^[-+]?([0-9]+\.?|\.[0-9]+|[0-9]+\.[0-9]+)$`. */
  predicate IsNumber(s: string) {
    var b := Body(s);
    IntForm(b) || IntDotForm(b) || DotFracForm(b) || IntFracForm(b)
  }

  /** The same language described without alternatives: after the sign,
      only digits and points, at most one point, at least one digit. */
  predicate NumeralShape(b: string) {
    && (forall i :: 0 <= i < |b| ==> IsDigit(b[i]) || b[i] == '.')
    && (forall i, j :: 0 <= i < j < |b| && b[i] == '.' ==> b[j] != '.')
    && (exists i :: 0 <= i < |b| && IsDigit(b[i]))
  }

  /** A run of digits, then a point, then a run of digits (either run may
      be empty), has the shape. */
  lemma {:induction false} SplitHasShape(b: string, k: nat)
    requires k < |b| && b[k] == '.' && AllDigits(b[..k]) && AllDigits(b[k + 1..])
    requires k > 0 || k < |b| - 1
    ensures NumeralShape(b)
  {
    var left, right := b[..k], b[k + 1..];
    assert forall i :: 0 <= i < k ==> b[i] == left[i];
    assert forall i :: k < i < |b| ==> b[i] == right[i - k - 1];
    if k > 0 {
      assert IsDigit(b[0]);
    } else {
      assert IsDigit(b[k + 1]);
    }
  }

  lemma {:induction false} FormsHaveShape(b: string)
    requires IntForm(b) || IntDotForm(b) || DotFracForm(b) || IntFracForm(b)
    ensures NumeralShape(b)
  {
    if IntForm(b) {
      assert IsDigit(b[0]);
    } else if IntDotForm(b) {
      assert b[|b| - 1 + 1..] == [];
      SplitHasShape(b, |b| - 1);
    } else if DotFracForm(b) {
      assert b[..0] == [];
      SplitHasShape(b, 0);
    } else {
      var k :| 0 < k < |b| - 1 && b[k] == '.' && AllDigits(b[..k]) && AllDigits(b[k + 1..]);
      SplitHasShape(b, k);
    }
  }

  lemma {:induction false} ShapeHasForm(b: string)
    requires NumeralShape(b)
    ensures IntForm(b) || IntDotForm(b) || DotFracForm(b) || IntFracForm(b)
  {
    if !AllDigits(b) {
      var k :| 0 <= k < |b| && !IsDigit(b[k]);
      var left, right := b[..k], b[k + 1..];
      assert AllDigits(left) by {
        forall i | 0 <= i < |left| ensures IsDigit(left[i]) {
          assert left[i] == b[i];
        }
      }
      assert AllDigits(right) by {
        forall i | 0 <= i < |right| ensures IsDigit(right[i]) {
          assert right[i] == b[k + 1 + i];
        }
      }
      if k == 0 {
        assert DotFracForm(b);
      } else if k == |b| - 1 {
        assert IntDotForm(b);
      } else {
        assert IntFracForm(b);
      }
    } else {
      var d :| 0 <= d < |b| && IsDigit(b[d]);
    }
  }

  lemma IsNumberShape(s: string)
    ensures IsNumber(s) <==> NumeralShape(Body(s))
  {
    var b := Body(s);
    if IsNumber(s) { FormsHaveShape(b); }
    if NumeralShape(b) { ShapeHasForm(b); }
  }

  /** `validate`: both fields must be numerals, and the exponent must not
      contain a decimal point at all (so "7." is refused even though it
      denotes an integer). */
  function Validate(coef: string, exp: string): (r: Option<ConversionError>)
    ensures r.None? <==> IsNumber(coef) && IsNumber(exp) && '.' !in exp
    ensures r == Some(InvalidNumber) <==> !IsNumber(coef) || !IsNumber(exp)
    ensures r == Some(FractionalExponent) <==> IsNumber(coef) && IsNumber(exp) && '.' in exp
  {
    if !IsNumber(coef) || !IsNumber(exp) then Some(InvalidNumber)
    else if '.' in exp then Some(FractionalExponent)
    else None
  }

  lemma OneDigitIsNumber(c: char)
    requires IsDigit(c)
    ensures IsNumber([c]) && '.' !in [c]
  {
    OneDigitForm(c);
    UnsignedBody([c]);
  }

  lemma OneDigitForm(c: char)
    requires IsDigit(c)
    ensures IntForm([c])
  {
  }

  /** A field that starts with neither sign is its own body. */
  lemma UnsignedBody(s: string)
    requires s == [] || (s[0] != '-' && s[0] != '+')
    ensures Body(s) == s
  {
  }

  lemma DigitPointIsNumber(c: char)
    requires IsDigit(c)
    ensures IsNumber([c, '.']) && '.' in [c, '.']
  {
    var p := [c, '.'];
    assert Body(p) == p;
    assert p[..1] == [c];
    assert IntDotForm(p);
  }

  /** A character other than a digit or a point after the first one rules
      a field out. */
  lemma {:induction false} StrayCharRefused(s: string, i: nat)
    requires 0 < i < |s| && !IsDigit(s[i]) && s[i] != '.'
    ensures !IsNumber(s)
  {
    var b := Body(s);
    var j := i - (|s| - |b|);
    assert b[j] == s[i];
    IsNumberShape(s);
  }

  /** "7." passes the numeral syntax but is refused as an exponent, while
      "7" is accepted and "1.5e3" is not a numeral at all. */
  lemma PointedExponentRefused()
    ensures IsNumber("7.") && Validate("1", "7.") == Some(FractionalExponent)
    ensures Validate("1", "7") == None
    ensures Validate("1.5e3", "7") == Some(InvalidNumber)
  {
    OneDigitIsNumber('1');
    OneDigitIsNumber('7');
    DigitPointIsNumber('7');
    assert "7." == ['7', '.'];
    StrayCharRefused("1.5e3", 3);
  }

  /** An exact non-negative decimal: mant / 10^frac. */
  datatype Decimal = Decimal(mant: nat, frac: nat)

  /** a and b denote the same number. */
  predicate SameValue(a: Decimal, b: Decimal) {
    a.mant * Pow10(b.frac) == b.mant * Pow10(a.frac)
  }

  /** No trailing zero in the fraction, as the arbitrary-precision decimal
      type keeps its digits. */
  predicate Canonical(d: Decimal) {
    d.frac == 0 || d.mant % 10 != 0
  }

  function Canon(d: Decimal): (c: Decimal)
    ensures Canonical(c) && SameValue(c, d) && c.frac <= d.frac
    decreases d.frac
  {
    if d.frac > 0 && d.mant % 10 == 0 then
      var c := Canon(Decimal(d.mant / 10, d.frac - 1));
      assert d.mant == (d.mant / 10) * 10;
      assert Pow10(d.frac) == 10 * Pow10(d.frac - 1);
      ScaleByTen(c.mant, Pow10(d.frac - 1), d.mant / 10, Pow10(c.frac));
      c
    else d
  }

  lemma ScaleByTen(a: nat, p: nat, q: nat, b: nat)
    requires a * p == q * b
    ensures a * (10 * p) == (q * 10) * b
  {
  }

  /** Position of the decimal point in a field body, or its length when it
      has none. */
  function PointIndex(b: string): (k: nat)
    ensures k <= |b|
    ensures k < |b| ==> b[k] == '.'
    ensures forall i :: 0 <= i < k ==> b[i] != '.'
  {
    if b == [] then 0
    else if b[0] == '.' then 0
    else 1 + PointIndex(b[1..])
  }

  lemma ShapeSplits(b: string)
    requires NumeralShape(b)
    ensures var k := PointIndex(b);
      AllDigits(b[..k]) && (k < |b| ==> AllDigits(b[k + 1..]))
  {
    var k := PointIndex(b);
    var left := b[..k];
    forall i | 0 <= i < k ensures IsDigit(left[i]) {
      assert left[i] == b[i];
    }
    if k < |b| {
      var right := b[k + 1..];
      forall i | 0 <= i < |right| ensures IsDigit(right[i]) {
        assert right[i] == b[k + 1 + i];
      }
    }
  }

  /** The digits of a numeral with the point removed, and how many of them
      follow the point. */
  function IntDigits(b: string): string {
    b[..PointIndex(b)]
  }

  function FracDigits(b: string): string {
    var k := PointIndex(b);
    if k < |b| then b[k + 1..] else []
  }

  /** The digits of a numeral field with its sign and point removed. */
  function Digits(s: string): string {
    IntDigits(Body(s)) + FracDigits(Body(s))
  }

  lemma NumeralDigits(s: string)
    requires IsNumber(s)
    ensures AllDigits(Digits(s))
  {
    var b := Body(s);
    IsNumberShape(s);
    ShapeSplits(b);
    ValueAppend(IntDigits(b), FracDigits(b));
  }

  /** `new BigNumber(coef)` followed by `abs()`: the magnitude of the
      coefficient field, in canonical form. */
  function ParseMagnitude(s: string): (d: Decimal)
    requires IsNumber(s)
    ensures Canonical(d)
    ensures AllDigits(Digits(s))
    ensures SameValue(d, Decimal(Value(Digits(s)), |FracDigits(Body(s))|))
  {
    NumeralDigits(s);
    Canon(Decimal(Value(Digits(s)), |FracDigits(Body(s))|))
  }

  /** The field's digits read as one signed integer, the point ignored: the
      number the field denotes times a positive power of ten, so it has the
      same sign. */
  function SignedMant(s: string): int
    requires IsNumber(s)
  {
    NumeralDigits(s);
    if HasMinus(s) then -(Value(Digits(s)) as int) else Value(Digits(s))
  }

  /** `this.coef.lt(0)`: the number the field denotes is below zero, so a
      minus sign in front of zero digits ("-0", "-.00") is not negative. */
  function ParseNegative(s: string): (neg: bool)
    requires IsNumber(s)
    ensures neg <==> SignedMant(s) < 0
  {
    var d := ParseMagnitude(s);
    var v := Value(Digits(s));
    assert d.mant == 0 <==> v == 0 by {
      ZeroScaled(d.mant, Pow10(|FracDigits(Body(s))|), v, Pow10(d.frac));
    }
    HasMinus(s) && d.mant != 0
  }

  /** With positive scales, one side of a*p == b*q is zero iff the other is. */
  lemma ZeroScaled(a: nat, p: nat, b: nat, q: nat)
    requires p > 0 && q > 0 && a * p == b * q
    ensures a == 0 <==> b == 0
  {
    if a > 0 { MulMono(1, a, p); }
    if b > 0 { MulMono(1, b, q); }
  }

  /** `new BigNumber(exp)` for a field `validate` accepted: a signed integer. */
  function ParseExponent(s: string): (e: int)
    requires IsNumber(s) && '.' !in s
    ensures AllDigits(Body(s))
  {
    var b := Body(s);
    assert AllDigits(b) by {
      IsNumberShape(s);
      forall i | 0 <= i < |b| ensures IsDigit(b[i]) {
        assert b[i] == s[|s| - |b| + i];
      }
    }
    if HasMinus(s) then -(Value(b) as int) else Value(b)
  }

  /** How an integer exponent is written: a minus sign when it is negative,
      then the digits of its absolute value. */
  function ExponentField(e: int): string {
    (if e < 0 then "-" else "") + DecimalString(if e < 0 then -e else e)
  }

  /** Every integer exponent, written out, passes validation with any
      numeral coefficient and parses back to itself. */
  lemma ExponentRoundTrip(e: int)
    ensures IsNumber(ExponentField(e)) && '.' !in ExponentField(e)
    ensures forall c :: IsNumber(c) ==> Validate(c, ExponentField(e)).None?
    ensures ParseExponent(ExponentField(e)) == e
  {
    var n: nat := if e < 0 then -e else e;
    var d := DecimalString(n);
    var s := ExponentField(e);
    DigitsHaveNoPoint(d);
    if e < 0 {
      assert s == ['-'] + d;
      assert s[0] == '-' && s[1..] == d;
      assert Body(s) == d;
    } else {
      assert s == d && IsDigit(d[0]);
      UnsignedBody(d);
    }
    assert IntForm(d);
  }

  lemma DigitsHaveNoPoint(d: string)
    requires AllDigits(d)
    ensures '.' !in d
  {
  }
}
