/** A worked instance: the input ("1.0", "7") traced through validation,
    preparation, decomposition, chunking and rendering. */
module Sample {
  import opened Common
  import opened Scales
  import opened ScaleDecomposer
  import opened Numeral
  import opened Normalisation
  import opened Chunks
  import opened Render
  import opened Converter

  /** A digit, a point and a digit form a numeral whose digits are the two
      digits, one of them after the point. */
  lemma PointedSplit(a: char, b: char)
    requires IsDigit(a) && IsDigit(b)
    ensures IsNumber([a, '.', b]) && '.' in [a, '.', b]
    ensures Body([a, '.', b]) == [a, '.', b]
    ensures IntDigits([a, '.', b]) == [a] && FracDigits([a, '.', b]) == [b]
  {
    var s := [a, '.', b];
    UnsignedBody(s);
    assert s[..1] == [a] && s[2..] == [b];
    assert IntFracForm(s);
    assert s[1..] == ['.', b];
    assert PointIndex(s) == 1;
  }

  lemma TwoDigitValue(a: char, b: char)
    requires IsDigit(a) && IsDigit(b)
    ensures Value([a, b]) == 10 * DigitValue(a) + DigitValue(b)
  {
    assert [a, b][..1] == [a];
    assert Value([a]) == DigitValue(a) by {
      assert [a][..0] == [];
    }
  }

  lemma PointedMagnitude(a: char, b: char)
    requires IsDigit(a) && IsDigit(b)
    ensures IsNumber([a, '.', b])
    ensures ParseMagnitude([a, '.', b]) == Canon(Decimal(10 * DigitValue(a) + DigitValue(b), 1))
  {
    var s := [a, '.', b];
    PointedSplit(a, b);
    TwoDigitValue(a, b);
    assert [a] + [b] == [a, b];
    assert ParseMagnitude(s) == Canon(Decimal(Value([a, b]), |[b]|));
  }

  lemma DigitExponent(c: char)
    requires IsDigit(c)
    ensures IsNumber([c]) && '.' !in [c] && ParseExponent([c]) == DigitValue(c)
  {
    var d := DigitValue(c);
    assert DigitChar(d) == c;
    assert ExponentField(d) == [c];
    ExponentRoundTrip(d);
  }

  lemma ParseOnePointZero()
    ensures Validate("1.0", "7") == None
    ensures ParseMagnitude("1.0") == Decimal(1, 0)
    ensures ParseExponent("7") == 7 && !ParseNegative("1.0")
  {
    ValidExample();
    MagnitudeExample();
    DigitExponent('7');
    PointedUnsigned('1', '0');
  }

  /** A field that starts with a digit is never negative. */
  lemma PointedUnsigned(a: char, b: char)
    requires IsDigit(a) && IsDigit(b)
    ensures IsNumber([a, '.', b]) && !ParseNegative([a, '.', b])
  {
    PointedSplit(a, b);
    assert !HasMinus([a, '.', b]);
  }

  lemma ValidExample()
    ensures Validate("1.0", "7") == None
  {
    PointedSplit('1', '0');
    DigitExponent('7');
  }

  lemma MagnitudeExample()
    ensures IsNumber("1.0") && ParseMagnitude("1.0") == Decimal(1, 0)
  {
    PointedMagnitude('1', '0');
    assert Canon(Decimal(10, 1)) == Decimal(1, 0);
  }

  lemma SevenPlaces()
    ensures !TooLarge(7) && Decompose(7, 0, 7) == [Slot(0, 7)]
  {
    Log2IntSelects(7);
    assert Log2Int(1) == 0;
    TooLargeIff(7);
  }

  lemma PrepareExample()
    ensures Validate("1.0", "7") == None
    ensures Prepare("1.0", "7") == Prepared(false, Decimal(1, 0), 7, 7, 0)
  {
    ParseOnePointZero();
    PrepareParsedExample();
  }

  lemma PrepareParsedExample()
    ensures PrepareParsed(Decimal(1, 0), 7, false) == Prepared(false, Decimal(1, 0), 7, 7, 0)
  {
    assert IntPart(Decimal(1, 0)) == 1;
    assert Normalise(Decimal(1, 0), 7) == Scaled(Decimal(1, 0), 7);
    CoefLenCountsFraction(Decimal(1, 0));
  }

  lemma ChunkExample()
    ensures Chunk(1, 0, 0, [Slot(0, 7)]) == [Named(Slot(0, 7), 1)]
  {
    assert Peel(1, 0, 0, [Slot(0, 7)]) == Peeled([Named(Slot(0, 7), 1)], 0, 7) by {
      assert [Slot(0, 7)][..0] == [];
    }
  }

  /** A chunk of one non-zero digit is that numeral alone. */
  lemma DigitChunkTokens(d: nat, opts: Options)
    requires 0 < d < 10 && !opts.allInKanji
    ensures ChunkTokens(d, opts) == [Text([DigitChar(d)])]
  {
    var s := DecimalString(d);
    assert s == [DigitChar(d)];
    BasicScalesOnePart(s, opts.rakushaToComma);
    assert StripZeros(s) == s;
    var parts := [Part(Some(s), None)];
    assert ChunkParts(d, opts) == parts;
    assert PartsTokens(parts, opts) == PartsTokens([], opts) + PartTokens(parts[0], opts) by {
      assert parts[..0] == [];
    }
    assert PartTokens(parts[0], opts) == [Text(s)];
  }

  /** A named entry with a non-zero chunk is always followed by its scale word. */
  lemma NamedScaleSuffix(s: Slot, num: nat, expLow: int, opts: Options)
    requires num != 0
    ensures ScaleSuffix(Named(s, num), expLow, opts) == ScaleTokens(s.ord, opts)
  {
  }

  /** With readings and spacing on, a scale word comes with its reading and
      a space. */
  lemma SpacedScaleTokens(ord: nat, opts: Options)
    requires opts.ruby && opts.spacing
    ensures ScaleTokens(ord, opts) == [Word(ScaleWord(ord), true), Text(" ")]
  {
    var w := WordToken(ScaleWord(ord), opts);
    assert w == Word(ScaleWord(ord), true);
  }

  /** Without a sign, a single entry renders as that entry's tokens. */
  lemma SingleEntryRendered(e: Entry, expLow: int, opts: Options)
    ensures Rendered(false, [e], expLow, opts) == EntryTokens(e, expLow, opts)
  {
    var t := EntryTokens(e, expLow, opts);
    assert EntriesTokens([e], expLow, opts) == EntriesTokens([], expLow, opts) + t by {
      assert [e][..0] == [];
    }
    assert SignTokens(false, opts) == [] && ZeroTokens([e], opts) == [];
    EmptyEnds(t);
  }

  lemma EmptyEnds(t: seq<Token>)
    ensures [] + ([] + t) + [] == t
  {
  }

  /** A one-digit chunk under a scale, with readings and spacing on: the
      numeral, the scale word with its reading, a space. */
  lemma DigitEntryTokens(slot: Slot, d: nat, expLow: int, opts: Options)
    requires 0 < d < 10 && !opts.allInKanji && opts.ruby && opts.spacing
    ensures EntryTokens(Named(slot, d), expLow, opts)
         == [Text([DigitChar(d)]), Word(ScaleWord(slot.ord), true), Text(" ")]
  {
    DigitChunkTokens(d, opts);
    NamedScaleSuffix(slot, d, expLow, opts);
    SpacedScaleTokens(slot.ord, opts);
  }

  lemma RenderExample()
    ensures Rendered(false, [Named(Slot(0, 7), 1)], 7, DefaultOptions)
         == [Text("1"), Word(ScaleWord(0), true), Text(" ")]
  {
    SingleEntryRendered(Named(Slot(0, 7), 1), 7, DefaultOptions);
    DigitEntryTokens(Slot(0, 7), 1, 7, DefaultOptions);
    assert [DigitChar(1)] == "1";
  }

  /** ("1.0", "7") is one 倶胝 (10^7): a single chunk 1 under scale 0,
      rendered with the default options as the numeral "1", the scale word
      with its reading and a space. */
  lemma OneKuteiExample()
    ensures Validate("1.0", "7") == None
    ensures var p := Prepare("1.0", "7");
      && p == Prepared(false, Decimal(1, 0), 7, 7, 0)
      && !Overflows(p)
      && Chunk(p.coef.mant, p.coef.frac, p.mod, Slots(p)) == [Named(Slot(0, 7), 1)]
      && Rendered(false, [Named(Slot(0, 7), 1)], 7, DefaultOptions)
         == [Text("1"), Word(ScaleWord(0), true), Text(" ")]
  {
    PrepareExample();
    SevenPlaces();
    ChunkExample();
    RenderExample();
  }
}
