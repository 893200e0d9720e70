/** The first half of `convert`: the sign is taken off, a coefficient of 10
    or more is shifted into [1, 10) with the shift moved into the exponent,
    and the significance floor `expLow` is derived from the digits left
    after the point. */
module Normalisation {
  import opened Common
  import opened Numeral

  /** The integer part of a decimal. */
  function IntPart(d: Decimal): nat {
    NatDiv(d.mant, Pow10(d.frac))
  }

  /** `coef.e` for a coefficient of at least 1: the number of its integer
      digits less one, i.e. the largest e with 10^e <= coef. */
  function Magnitude(d: Decimal): nat {
    |DecimalString(IntPart(d))| - 1
  }

  /** The normalised coefficient and exponent: unchanged below 10, otherwise
      `coef.shiftedBy(-e)` and `exp + e`. */
  datatype Scaled = Scaled(coef: Decimal, exp: int)

  function Normalise(m: Decimal, exp: int): Scaled {
    if IntPart(m) >= 10 then
      var extra := Magnitude(m);
      Scaled(Canon(Decimal(m.mant, m.frac + extra)), exp + extra)
    else Scaled(m, exp)
  }

  lemma IntPartBounds(d: Decimal)
    ensures IntPart(d) * Pow10(d.frac) <= d.mant < (IntPart(d) + 1) * Pow10(d.frac)
  {
  }

  /** After normalisation the coefficient lies in [0, 10), it is at least 1
      when it was, and coef * 10^exp is unchanged: the exponent grew by as
      many places as the coefficient was divided by. */
  lemma NormaliseSpec(m: Decimal, exp: int)
    ensures var n := Normalise(m, exp);
      && n.exp >= exp
      && n.coef.mant < 10 * Pow10(n.coef.frac)
      && (m.mant >= Pow10(m.frac) ==> n.coef.mant >= Pow10(n.coef.frac))
      && n.coef.mant * Pow10(n.exp - exp) * Pow10(m.frac) == m.mant * Pow10(n.coef.frac)
  {
    if IntPart(m) >= 10 {
      NormaliseWide(m, exp);
    } else {
      IntPartBounds(m);
      MulMono(IntPart(m) + 1, 10, Pow10(m.frac));
    }
  }

  /** A coefficient of 10 or more is divided by 10^e, e its number of
      integer digits less one, and e is added to the exponent. */
  lemma NormaliseWide(m: Decimal, exp: int)
    requires IntPart(m) >= 10
    ensures var n := Normalise(m, exp);
      && n.exp >= exp
      && n.coef.mant < 10 * Pow10(n.coef.frac)
      && (m.mant >= Pow10(m.frac) ==> n.coef.mant >= Pow10(n.coef.frac))
      && n.coef.mant * Pow10(n.exp - exp) * Pow10(m.frac) == m.mant * Pow10(n.coef.frac)
  {
    var n := Normalise(m, exp);
    IntPartBounds(m);
    var q := IntPart(m);
    var p := Pow10(m.frac);
    var e := Magnitude(m);
    var wide := Decimal(m.mant, m.frac + e);
    var s := DecimalString(q);
    ValueBound(s);
    DecimalStringLength(q);
    var pe := Pow10(e);
    assert pe <= q < 10 * pe;
    Pow10Add(m.frac, e);
    var pw := Pow10(wide.frac);
    assert pw == p * pe;
    ScaledBounds(m.mant, q, p, pe, pw);
    CanonBounds(wide);
    assert n.coef.mant * pw == m.mant * Pow10(n.coef.frac);
    assert n.coef.mant * Pow10(n.exp - exp) * p == n.coef.mant * pw by {
      assert n.exp - exp == e;
      MulAssoc(n.coef.mant, pe, p);
    }
  }

  /** With q the integer part of mant / p and 10^e <= q < 10^(e+1),
      mant / (p * 10^e) lies in [1, 10). */
  lemma ScaledBounds(mant: nat, q: nat, p: nat, pe: nat, pw: nat)
    requires q * p <= mant < (q + 1) * p
    requires pe <= q < 10 * pe && pw == p * pe
    ensures pw <= mant < 10 * pw
  {
    MulMono(q + 1, 10 * pe, p);
    MulAssoc(10, pe, p);
    MulMono(pe, q, p);
  }

  /** Canonical form keeps the value, so it keeps the bounds [1, 10). */
  lemma {:induction false} CanonBounds(d: Decimal)
    ensures var c := Canon(d);
      (d.mant < 10 * Pow10(d.frac) ==> c.mant < 10 * Pow10(c.frac))
      && (d.mant >= Pow10(d.frac) ==> c.mant >= Pow10(c.frac))
  {
    var c := Canon(d);
    var k := d.frac - c.frac;
    Pow10Add(c.frac, k);
    var pk := Pow10(k);
    assert c.mant * (Pow10(c.frac) * pk) == d.mant * Pow10(c.frac);
    assert c.mant * pk == d.mant by {
      MulAssoc(c.mant, pk, Pow10(c.frac));
      CancelRight(c.mant * pk, d.mant, Pow10(c.frac));
    }
    var pc := Pow10(c.frac);
    assert Pow10(d.frac) == pc * pk;
    MulAssoc(10, pc, pk);
    CancelLess(c.mant, 10 * pc, pk);
    CancelLess(c.mant, pc, pk);
  }

  lemma CancelRight(a: nat, b: nat, c: nat)
    requires c > 0 && a * c == b * c
    ensures a == b
  {
    if a < b { MulLess(a, b, c); } else if b < a { MulLess(b, a, c); }
  }

  lemma CancelLess(a: nat, b: nat, c: nat)
    requires c > 0
    ensures a * c < b * c ==> a < b
    ensures a * c >= b * c ==> a >= b
  {
    if a >= b { MulMono(b, a, c); }
    if a < b { MulLess(a, b, c); }
  }

  /** The last `len` decimal digits of n, zero-padded on the left. */
  function FixedDigits(n: nat, len: nat): (s: string)
    ensures |s| == len && AllDigits(s)
  {
    if len == 0 then [] else FixedDigits(n / 10, len - 1) + [DigitChar(n % 10)]
  }

  /** `coef.toString()` in plain notation: the integer part, then the point
      and the fraction digits when there are any. */
  function CoefString(c: Decimal): string {
    DecimalString(IntPart(c))
      + (if c.frac == 0 then [] else ['.'] + FixedDigits(c.mant % Pow10(c.frac), c.frac))
  }

  /** `Math.max(coef.toString().length - 2, 0)`. */
  function CoefLen(c: Decimal): nat {
    var n := |CoefString(c)| - 2;
    if n < 0 then 0 else n
  }

  /** For a coefficient below 10 the length is one integer digit, the point
      and the fraction: coefLen counts the digits after the point. */
  lemma CoefLenCountsFraction(c: Decimal)
    requires c.mant < 10 * Pow10(c.frac)
    ensures CoefLen(c) == c.frac
  {
    IntPartBounds(c);
    if IntPart(c) >= 10 {
      MulMono(10, IntPart(c), Pow10(c.frac));
    }
    assert |DecimalString(IntPart(c))| == 1;
  }

  /** `exp.minus(coefLen)`, raised to 0 when negative. */
  function ExpLow(exp: int, coefLen: nat): (low: nat)
    ensures low == 0 <==> exp <= coefLen
    ensures low > 0 ==> low == exp - coefLen
  {
    if exp - coefLen < 0 then 0 else exp - coefLen
  }

  /** `exp.mod(7)` as the decimal library computes it by default: the
      remainder keeps the sign of the dividend. */
  function TruncMod7(exp: int): (r: int)
    ensures -7 < r < 7
    ensures exp >= 0 ==> r == exp % 7
    ensures exp < 0 ==> r <= 0 && (exp - r) % 7 == 0
  {
    if exp >= 0 then exp % 7 else -((-exp) % 7)
  }
}
