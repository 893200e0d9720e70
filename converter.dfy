/** The converter object: it holds the two input fields and the state
    `convert` fills in (the normalised coefficient, the exponent, the
    significance floor, the sign and the chunk list), and `output` turns
    that state into the token buffer. */
module Converter {
  import opened Common
  import opened Scales
  import opened ScaleDecomposer
  import opened Numeral
  import opened Normalisation
  import opened Chunks
  import opened Render

  /** What `convert` derives from valid input before it decomposes the
      exponent: the sign, the coefficient in [0, 10), the exponent, the
      floor and the first shift. */
  datatype Prepared = Prepared(negative: bool, coef: Decimal, exp: int, expLow: nat, mod: int)

  function Prepare(coefIn: string, expIn: string): Prepared
    requires Validate(coefIn, expIn).None?
  {
    PrepareParsed(ParseMagnitude(coefIn), ParseExponent(expIn), ParseNegative(coefIn))
  }

  /** The same from the parsed magnitude, exponent and sign. */
  function PrepareParsed(m: Decimal, e: int, neg: bool): Prepared {
    var n := Normalise(m, e);
    Prepared(neg, n.coef, n.exp, ExpLow(n.exp, CoefLen(n.coef)), TruncMod7(n.exp))
  }

  /** c * 10^x and m * 10^e are the same number, with x >= e. */
  ghost predicate SameMagnitude(c: Decimal, x: int, m: Decimal, e: int) {
    x >= e && c.mant * Pow10(x - e) * Pow10(m.frac) == m.mant * Pow10(c.frac)
  }

  /** After preparation the coefficient lies in [0, 10), the sign is that
      of a non-zero magnitude, the exponent only grew and coef * 10^exp is
      still the magnitude of the input, with no trailing fraction zero (so
      `frac` counts the fraction digits `toString` prints), the floor is the
      exponent less the fraction digits (at least 0), and the first shift is
      `exp mod 7` with the sign of the exponent. */
  lemma PrepareSpec(coefIn: string, expIn: string)
    requires Validate(coefIn, expIn).None?
    ensures var p := Prepare(coefIn, expIn);
      && p.coef.mant < 10 * Pow10(p.coef.frac)
      && Canonical(p.coef)
      && (p.negative <==> SignedMant(coefIn) < 0)
      && SameMagnitude(p.coef, p.exp, ParseMagnitude(coefIn), ParseExponent(expIn))
      && (p.expLow == 0 <==> p.exp <= p.coef.frac)
      && (p.expLow > 0 ==> p.expLow == p.exp - p.coef.frac)
      && (p.exp >= 0 ==> 0 <= p.mod <= 6 && p.mod == p.exp % 7)
      && (p.exp < 0 ==> -6 <= p.mod <= 0)
      && p.mod == TruncMod7(p.exp)
  {
    PrepareParsedSpec(ParseMagnitude(coefIn), ParseExponent(expIn), ParseNegative(coefIn));
  }

  lemma PrepareParsedSpec(m: Decimal, e: int, neg: bool)
    ensures var p := PrepareParsed(m, e, neg);
      && p.negative == neg
      && p.coef.mant < 10 * Pow10(p.coef.frac)
      && (Canonical(m) ==> Canonical(p.coef))
      && SameMagnitude(p.coef, p.exp, m, e)
      && (p.expLow == 0 <==> p.exp <= p.coef.frac)
      && (p.expLow > 0 ==> p.expLow == p.exp - p.coef.frac)
      && (p.exp >= 0 ==> 0 <= p.mod <= 6 && p.mod == p.exp % 7)
      && (p.exp < 0 ==> -6 <= p.mod <= 0)
      && p.mod == TruncMod7(p.exp)
  {
    NormaliseSpec(m, e);
    CoefLenCountsFraction(Normalise(m, e).coef);
  }

  /** The values `convert` computes step by step are those of `Prepare`. */
  lemma PreparedFrom(coefIn: string, expIn: string, m: Decimal, e: int, neg: bool,
                     c: Decimal, x: int, low: int, mod: int) returns (p: Prepared)
    requires Validate(coefIn, expIn).None?
    requires m == ParseMagnitude(coefIn) && e == ParseExponent(expIn) && neg == ParseNegative(coefIn)
    requires Normalise(m, e) == Scaled(c, x)
    requires low == (if x - CoefLen(c) < 0 then 0 else x - CoefLen(c)) && mod == TruncMod7(x)
    ensures p == Prepare(coefIn, expIn) && p == Prepared(neg, c, x, low, mod)
  {
    p := Prepare(coefIn, expIn);
  }

  /** The `if` in `convert` computes `Normalise`. */
  lemma NormaliseStep(m: Decimal, e: int, c: Decimal, x: int)
    requires IntPart(m) >= 10 ==> c == Canon(Decimal(m.mant, m.frac + Magnitude(m))) && x == e + Magnitude(m)
    requires IntPart(m) < 10 ==> c == m && x == e
    ensures Normalise(m, e) == Scaled(c, x)
  {
  }

  /** The decomposition overflows: only possible for a non-negative
      exponent, since a negative one yields no slots at all. */
  ghost predicate Overflows(p: Prepared) {
    p.exp >= 0 && TooLarge(p.exp)
  }

  /** The slots `getScale(exp, 0)` returns. */
  ghost function Slots(p: Prepared): seq<Slot>
    requires !Overflows(p)
  {
    if p.exp >= 0 then Decompose(p.exp, 0, p.expLow) else []
  }

  /** The chunks are the base-10^7 digits of coef * 10^exp. The slots
      start with every multiple of 7 from 7*floor(exp/7) down to the lowest
      one the floor cannot prune, 7*k0; the chunks under those slots, read as
      one number, plus a pure-fraction remainder, are coef * 10^(exp - 7*k0).
      A floor within the lowest chunk prunes nothing. A higher floor sits at
      or above 7*k0 and at the last fraction digit of the coefficient, so
      nothing is left there: every slot pruned or not below it gets 0, and
      there is no trailing chunk. */
  lemma ChunksSpellValue(coefIn: string, expIn: string)
    requires Validate(coefIn, expIn).None?
    requires var p := Prepare(coefIn, expIn); !Overflows(p) && p.exp >= 7
    ensures SpellsTop(Prepare(coefIn, expIn))
  {
    PrepareSpec(coefIn, expIn);
    SpellTop(Prepare(coefIn, expIn));
  }

  /** What `ChunksSpellValue` states about a prepared state. */
  ghost predicate SpellsTop(p: Prepared)
    requires !Overflows(p) && p.exp >= 7 && p.mod >= 0
  {
    SpelledBy(p.coef, p.exp, p.expLow, p.mod, Slots(p))
  }

  /** The first n slots sit at 7*floor(exp/7), ..., 7*k0 and their chunks
      spell coef * 10^(exp - 7*k0); a floor within the lowest chunk prunes
      no slot, a higher one leaves nothing below the first n slots. */
  ghost predicate SpelledBy(coef: Decimal, exp: nat, expLow: nat, mod: nat, slots: seq<Slot>)
    requires exp >= 7
  {
    var k0 := FirstKept(expLow);
    var n := exp / 7 - k0 + 1;
    && 1 <= n <= |slots|
    && (forall i :: 0 <= i < n ==> slots[i].pos == 7 * (exp / 7 - i))
    && 7 * k0 <= exp
    && SpellsValue(coef, exp - 7 * k0, Peel(coef.mant, coef.frac, mod, slots[..n]))
    && (expLow < 7 ==> n == |slots|)
    && (expLow >= 7 ==> NothingBelow(coef, mod, slots, n))
  }

  /** coef * 10^shift is the peeled chunks read in base 10^7 followed by
      the remainder, all over 10^frac, and the remainder is a pure
      fraction. */
  ghost predicate SpellsValue(coef: Decimal, shift: nat, q: Peeled) {
    && coef.mant * Pow10(shift) == Pow10(coef.frac) * Combined(q.entries) + q.rest
    && q.rest < Pow10(coef.frac)
  }

  /** Nothing is left after the first n slots: every later chunk is 0 and
      no trailing chunk follows. */
  ghost predicate NothingBelow(coef: Decimal, mod: nat, slots: seq<Slot>, n: nat)
    requires n <= |slots|
  {
    var r := Chunk(coef.mant, coef.frac, mod, slots);
    && Peel(coef.mant, coef.frac, mod, slots[..n]).rest == 0
    && |r| == |slots|
    && (forall i :: n <= i < |slots| ==> r[i].num == 0)
  }

  /** The same for any prepared state whose first shift is `exp mod 7` and
      whose floor is 0 or the exponent less the fraction digits. */
  lemma SpellTop(p: Prepared)
    requires !Overflows(p) && p.exp >= 7 && p.mod == p.exp % 7
    requires p.expLow == 0 || p.expLow == p.exp - p.coef.frac
    ensures SpellsTop(p)
  {
    DecomposeHead(p.exp, p.expLow);
    SpellFrom(p.coef, p.exp, p.expLow, p.mod, Slots(p));
  }

  /** The same for any slot list that starts with the unpruned prefix. */
  lemma SpellFrom(coef: Decimal, exp: nat, expLow: nat, mod: nat, slots: seq<Slot>)
    requires exp >= 7 && mod == exp % 7 && (expLow == 0 || expLow == exp - coef.frac)
    requires var k0 := FirstKept(expLow); var n := exp / 7 - k0 + 1;
      && 1 <= n <= |slots| && 7 * k0 <= exp
      && (forall i :: 0 <= i < n ==> slots[i].pos == 7 * (exp / 7 - i))
      && (expLow < 7 ==> n == |slots|)
    ensures SpelledBy(coef, exp, expLow, mod, slots)
  {
    var k0 := FirstKept(expLow);
    var n := exp / 7 - k0 + 1;
    var shift := exp - 7 * k0;
    assert shift == mod + 7 * (n - 1) by {
      DivMod(exp, 7);
    }
    SpellPrefix(coef, mod, slots, n, shift);
    if expLow >= 7 {
      NothingLeft(coef, mod, slots, n, shift);
    }
  }

  /** The first n chunks, the first shifted by `mod` and the others by 7,
      spell the coefficient shifted by mod + 7(n - 1). */
  lemma SpellPrefix(coef: Decimal, mod: nat, slots: seq<Slot>, n: nat, shift: nat)
    requires 0 < n <= |slots| && shift == mod + 7 * (n - 1)
    ensures SpellsValue(coef, shift, Peel(coef.mant, coef.frac, mod, slots[..n]))
  {
    PeelConserves(coef.mant, coef.frac, mod, slots[..n]);
  }

  /** When the shifted coefficient is a whole number the remainder after
      the first n slots is 0, and so is everything after it. */
  lemma NothingLeft(coef: Decimal, mod: nat, slots: seq<Slot>, n: nat, shift: nat)
    requires 0 < n <= |slots| && shift >= coef.frac
    requires SpellsValue(coef, shift, Peel(coef.mant, coef.frac, mod, slots[..n]))
    ensures NothingBelow(coef, mod, slots, n)
  {
    var q := Peel(coef.mant, coef.frac, mod, slots[..n]);
    WholeRest(coef.mant, coef.frac, shift, Combined(q.entries), q.rest);
    PeelZeroStays(coef.mant, coef.frac, mod, slots, n);
    ChunkShape(coef.mant, coef.frac, mod, slots);
  }

  /** A whole number written as a multiple of 10^frac plus something below
      10^frac: that something is 0. */
  lemma WholeRest(num: nat, frac: nat, shift: nat, c: nat, r: nat)
    requires shift >= frac
    requires num * Pow10(shift) == Pow10(frac) * c + r && r < Pow10(frac)
    ensures r == 0
  {
    var d := Pow10(frac);
    var y := num * Pow10(shift - frac);
    assert num * Pow10(shift) == d * y by {
      Pow10Add(frac, shift - frac);
      MulAssoc(num, Pow10(shift - frac), d);
    }
    if y > c {
      MulMono(c + 1, y, d);
    } else {
      MulMono(y, c, d);
    }
  }

  /** Every chunk `convert` produces fits seven digits. */
  lemma ChunksFit(coefIn: string, expIn: string)
    requires Validate(coefIn, expIn).None?
    requires !Overflows(Prepare(coefIn, expIn))
    ensures var p := Prepare(coefIn, expIn);
      forall e :: e in Chunk(p.coef.mant, p.coef.frac, p.mod, Slots(p)) ==> e.num < Pow10(7)
  {
    var p := Prepare(coefIn, expIn);
    PrepareSpec(coefIn, expIn);
    ChunkBounds(p.coef.mant, p.coef.frac, p.mod, Slots(p));
  }

  class Converter {
    const coefInput: string
    const expInput: string
    var coef: Decimal
    var exp: int
    var expLow: nat
    var negative: bool
    var result: seq<Entry>

    /** The fields start out as zero values; the source leaves them null
        until `convert` runs. */
    constructor (coefIn: string, expIn: string)
      ensures coefInput == coefIn && expInput == expIn
      ensures coef == Decimal(0, 0) && exp == 0 && expLow == 0
      ensures !negative && result == []
    {
      coefInput := coefIn;
      expInput := expIn;
      coef := Decimal(0, 0);
      exp := 0;
      expLow := 0;
      negative := false;
      result := [];
    }

    /** `convert`: invalid input is refused before anything changes. Valid
        input sets the sign (it is never reset), the normalised coefficient,
        the exponent and the floor; an overflow in the decomposition stops
        there, otherwise one entry per slot and possibly a trailing one are
        appended to `result`, and `coef` keeps what is left. */
    method Convert() returns (err: Option<ConversionError>)
      modifies this
      ensures Validate(coefInput, expInput).Some? ==>
        err == Validate(coefInput, expInput) && unchanged(this)
      ensures Validate(coefInput, expInput).None? ==>
        var p := Prepare(coefInput, expInput);
        && exp == p.exp && expLow == p.expLow
        && negative == (old(negative) || p.negative)
        && (Overflows(p) ==> err == Some(MagnitudeTooLarge) && coef == p.coef && result == old(result))
        && (!Overflows(p) ==>
              && err.None?
              && result == old(result) + Chunk(p.coef.mant, p.coef.frac, p.mod, Slots(p))
              && coef == Decimal(Peel(p.coef.mant, p.coef.frac, p.mod, Slots(p)).rest, p.coef.frac))
    {
      err := Validate(coefInput, expInput);
      if err.Some? {
        return;
      }
      var m := ParseMagnitude(coefInput);
      var e := ParseExponent(expInput);
      var neg := ParseNegative(coefInput);
      if neg {
        negative := true;
      }

      var c, x := m, e;
      if IntPart(c) >= 10 {
        var extra := Magnitude(c);
        c := Canon(Decimal(c.mant, c.frac + extra));
        x := x + extra;
      }
      NormaliseStep(m, e, c, x);
      var coefLen := CoefLen(c);
      var low := x - coefLen;
      if low < 0 {
        low := 0;
      }
      var mod := TruncMod7(x);
      ghost var p := PreparedFrom(coefInput, expInput, m, e, neg, c, x, low, mod);
      coef, exp, expLow := c, x, low;

      var scales: seq<Slot> := [];
      if exp >= 0 {
        var r := GetScale(exp, 0, expLow);
        if r.Err? {
          return Some(r.error);
        }
        scales := r.value;
      }
      assert scales == Slots(p);
      assert scales != [] ==> mod >= 0;

      Spread(scales, mod);
    }

    /** The loop of `convert` over the slots: each slot takes the next
        chunk of the coefficient and, once the slots are used up, what is
        left (if anything) becomes a trailing entry. */
    method Spread(scales: seq<Slot>, mod0: int)
      requires scales != [] ==> mod0 >= 0
      modifies this
      ensures var q := Peel(old(coef).mant, old(coef).frac, mod0, scales);
        && result == old(result) + Chunk(old(coef).mant, old(coef).frac, mod0, scales)
        && coef == Decimal(q.rest, old(coef).frac)
      ensures exp == old(exp) && expLow == old(expLow) && negative == old(negative)
    {
      ghost var start := result;
      ghost var added: seq<Entry> := [];
      var c, frac := coef.mant, coef.frac;
      var mod := mod0;
      var i := 0;
      assert scales[..0] == [];
      while i < |scales|
        invariant 0 <= i <= |scales|
        invariant result == start + added
        invariant Peel(c, frac, mod0, scales[..i]) == Peeled(added, coef.mant, mod)
        invariant coef.frac == frac
        invariant exp == old(exp) && expLow == old(expLow) && negative == old(negative)
      {
        PeelStep(c, frac, mod0, scales, i);
        var head := Head(coef.mant, frac, mod);
        result := result + [Named(scales[i], head)];
        added := added + [Named(scales[i], head)];
        coef := Decimal(Rest(coef.mant, frac, mod), frac);
        mod := 7;
        i := i + 1;
      }
      assert scales[..i] == scales;
      ghost var rest := coef.mant;

      if coef.mant != 0 {
        result := result + [Ones(Head(coef.mant, frac, mod))];
      }
      ChunkFromPeel(c, frac, mod0, scales, added, rest, mod);
    }

    /** `output` without the page: the token buffer it joins. */
    method Output(opts: Options) returns (buf: seq<Token>)
      ensures buf == Rendered(negative, result, expLow, opts)
    {
      buf := [];
      if negative {
        if opts.allInKanji {
          buf := buf + [TextNode(Negative, opts)];
        } else {
          buf := buf + [TextNode(Minus, opts)];
        }
      }

      var i := 0;
      while i < |result|
        invariant 0 <= i <= |result|
        invariant buf == SignTokens(negative, opts) + EntriesTokens(result[..i], expLow, opts)
      {
        EntriesStep(result, i, expLow, opts);
        JoinAssoc(SignTokens(negative, opts), EntriesTokens(result[..i], expLow, opts), EntryTokens(result[i], expLow, opts));
        buf := PushEntry(buf, result[i], expLow, opts);
        i := i + 1;
      }
      assert result[..i] == result;

      if |result| == 0 {
        if opts.allInKanji {
          buf := buf + [WordToken(Zero, opts)];
        } else {
          buf := buf + [Text("0")];
        }
      }
    }
  }
}
