/** Rendering of the chunk list into output tokens: each chunk in numerals
    split at 洛叉 (10^5) or by a comma, or fully in kanji with 万 and 洛叉
    markers; the scale words with their suppression rule; the sign prefix
    and the lone zero. The literal words are referred to by name. */
module Render {
  import opened Common
  import opened ScaleDecomposer
  import opened Chunks

  /** The display options: readings (ruby), full kanji, comma in place of
      洛叉, a space after each scale word. */
  datatype Options = Options(ruby: bool, allInKanji: bool, rakushaToComma: bool, spacing: bool)

  const DefaultOptions := Options(true, false, false, true)

  /** A word of the output, by identity: a digit word from place table
      `place` (ones, tens, hundreds, thousands), 万, 洛叉, the comma, the
      zero word, the negative word 負, the minus glyph, or a scale word of
      the table. */
  datatype Name =
    | Digit(place: nat, d: nat)
    | Man
    | Rakusha
    | Comma
    | Zero
    | Negative
    | Minus
    | ScaleWord(ord: nat)

  /** The digit 0 has no word in any place table. */
  predicate HasName(n: Name) {
    !(n.Digit? && n.d == 0)
  }

  /** The comma and the minus glyph have no reading. */
  predicate HasReading(n: Name) {
    HasName(n) && !n.Comma? && !n.Minus?
  }

  /** An element of the output buffer: a plain string, a JavaScript null
      (which joins as nothing), or a word, carrying its reading or not. */
  datatype Token = Text(s: string) | Null | Word(name: Name, withReading: bool)

  /** `getTextNode`: the word, with its reading only when readings are on
      and the word has one. */
  function TextNode(n: Name, opts: Options): (t: Token)
    ensures t.Word? && t.name == n
    ensures t.withReading <==> opts.ruby && HasReading(n)
  {
    Word(n, opts.ruby && HasReading(n))
  }

  /** `outputBasicScale` / `outputScale`: a word without a name becomes
      null. */
  function WordToken(n: Name, opts: Options): (t: Token)
    ensures HasName(n) ==> t == TextNode(n, opts)
    ensures !HasName(n) ==> t == Null
  {
    if HasName(n) then TextNode(n, opts) else Null
  }

  /** An entry of a basic-scale list: a numeral string (absent in kanji
      mode) and the word that follows it, if any. */
  datatype Part = Part(num: Option<string>, word: Option<Name>)

  /** The last five characters (`slice(-5)`), or all of a shorter string. */
  function Low5(s: string): (r: string)
    ensures |r| == if |s| >= 5 then 5 else |s|
    ensures s == s[..|s| - |r|] + r
  {
    if |s| >= 5 then s[|s| - 5..] else s
  }

  /** The digits above the last five, leading zeros removed; empty when
      there are none. */
  function High(s: string): string {
    if |s| > 5 then StripZeros(s[..|s| - 5]) else []
  }

  /** `getBasicScales`: split a chunk's decimal string at 10^5. When the
      part above is non-zero it comes first, followed by 洛叉 or a comma;
      the lower five digits keep their zeros only in comma mode. */
  function BasicScales(s: string, comma: bool): seq<Part> {
    var low := Low5(s);
    var high := High(s);
    if high != [] then
      [Part(Some(high), Some(if comma then Comma else Rakusha)),
       Part(Some(if comma then low else StripZeros(low)), None)]
    else
      [Part(Some(StripZeros(low)), None)]
  }

  lemma StripZerosAfterZeros(z: string, s: string)
    requires AllZeros(z)
    ensures StripZeros(z + s) == StripZeros(s)
    decreases |z|
  {
    if z != [] {
      assert (z + s)[1..] == z[1..] + s;
      StripZerosAfterZeros(z[1..], s);
    } else {
      assert z + s == s;
    }
  }

  /** Stripping leaves nothing exactly when the string is all zeros. */
  lemma StripZerosEmpty(z: string)
    ensures StripZeros(z) == [] <==> AllZeros(z)
  {
    var r := StripZeros(z);
    if r == [] {
      assert z[..|z|] == z;
    }
  }

  /** A string of at most five digits, or one whose digits above the last
      five are all zeros, gives a single unlabelled part, the whole string
      without its leading zeros; otherwise two parts, the first labelled. */
  lemma {:induction false} BasicScalesOnePart(s: string, comma: bool)
    ensures |BasicScales(s, comma)| == 1 <==> |s| <= 5 || AllZeros(s[..|s| - 5])
    ensures |s| <= 5 || AllZeros(s[..|s| - 5]) ==>
      BasicScales(s, comma) == [Part(Some(StripZeros(s)), None)]
    ensures |BasicScales(s, comma)| == 2 ==> BasicScales(s, comma)[0].word.Some?
  {
    if |s| > 5 {
      var z, low := s[..|s| - 5], Low5(s);
      StripZerosEmpty(z);
      if AllZeros(z) {
        StripZerosAfterZeros(z, low);
      }
    }
  }

  /** In comma mode the two parts read back the chunk: joined, they give
      the string without its leading zeros. */
  lemma {:induction false} CommaSplitRoundTrip(s: string)
    requires |s| > 5 && High(s) != []
    ensures var p := BasicScales(s, true);
      |p| == 2 && p[0].word == Some(Comma) && p[1].word == None
      && p[0].num.value + p[1].num.value == StripZeros(s)
  {
    StripJoin(s[..|s| - 5], Low5(s));
  }

  /** Leading zeros lie wholly in a part that is not all zeros. */
  lemma {:induction false} StripJoin(z: string, low: string)
    requires StripZeros(z) != []
    ensures StripZeros(z + low) == StripZeros(z) + low
  {
    var w := z + low;
    assert w[0] == z[0];
    if z[0] == '0' {
      assert w[1..] == z[1..] + low;
      assert StripZeros(z) == StripZeros(z[1..]);
      StripJoin(z[1..], low);
      assert StripZeros(w) == StripZeros(w[1..]);
    } else {
      assert StripZeros(z) == z;
      assert StripZeros(w) == w;
    }
  }

  /** In 洛叉 mode the two parts weigh back to the chunk's value:
      value(high) * 10^5 + value(low) = value(s). */
  lemma {:induction false} RakushaSplitValue(s: string)
    requires AllDigits(s) && |s| > 5 && High(s) != []
    ensures var p := BasicScales(s, false);
      |p| == 2 && p[0].word == Some(Rakusha) && p[1].word == None
      && AllDigits(p[0].num.value) && AllDigits(p[1].num.value)
      && Value(p[0].num.value) * Pow10(5) + Value(p[1].num.value) == Value(s)
  {
    var z, low := s[..|s| - 5], s[|s| - 5..];
    DigitsSplit(s, |s| - 5);
    StripZerosValue(z);
    StripZerosValue(low);
    assert s == z + low;
    ValueAppend(z, low);
  }

  /** A part never carries the numeral "0" when the chunk is a decimal
      string without leading zeros: the split halves are either stripped or
      five characters long. */
  lemma {:induction false} BasicScalesNoZeroText(s: string, comma: bool)
    requires |s| >= 1 && s[0] != '0'
    ensures forall p :: p in BasicScales(s, comma) ==> p.num != Some("0")
  {
    var low := Low5(s);
    var high := High(s);
    if high == [] && |s| <= 5 {
      assert low == s;
    }
  }

  /** The parts for the digit at index `idx` from the right, in output
      order: places 0-3 and 6 use the combined place tables, index 4 adds 万
      after a non-zero digit, index 5 always adds 洛叉. */
  function Group(idx: nat, d: char): seq<Part>
    requires IsDigit(d)
  {
    var v := DigitValue(d);
    if idx < 4 then [Part(None, Some(Digit(idx, v)))]
    else if idx == 4 then [Part(None, Some(Digit(0, v)))] + (if v != 0 then [Part(None, Some(Man))] else [])
    else if idx == 5 then [Part(None, Some(Digit(0, v))), Part(None, Some(Rakusha))]
    else if idx == 6 then [Part(None, Some(Digit(1, v)))]
    else []
  }

  /** The full-kanji parts of a digit string, highest digit first. */
  function KanjiSpec(s: string): seq<Part>
    requires AllDigits(s)
  {
    if s == [] then [] else Group(|s| - 1, s[0]) + KanjiSpec(s[1..])
  }

  /** `getBasicScalesByKanji`: walk the digits from the lowest and unshift
      each digit's parts in front of what is there. */
  method ByKanji(s: string) returns (scales: seq<Part>)
    requires AllDigits(s)
    ensures scales == KanjiSpec(s)
  {
    scales := [];
    var idx := 0;
    while idx < |s|
      invariant 0 <= idx <= |s|
      invariant scales == KanjiSpec(s[|s| - idx..])
    {
      var d := s[|s| - 1 - idx];
      KanjiSpecStep(s, idx);
      if idx < 4 {
        scales := [Part(None, Some(Digit(idx, DigitValue(d))))] + scales;
      } else if idx == 4 {
        if DigitValue(d) != 0 {
          scales := [Part(None, Some(Man))] + scales;
        }
        scales := [Part(None, Some(Digit(0, DigitValue(d))))] + scales;
      } else if idx == 5 {
        scales := [Part(None, Some(Rakusha))] + scales;
        scales := [Part(None, Some(Digit(0, DigitValue(d))))] + scales;
      } else if idx == 6 {
        scales := [Part(None, Some(Digit(1, DigitValue(d))))] + scales;
      }
      idx := idx + 1;
    }
    assert s[|s| - idx..] == s;
  }

  /** Taking one more digit from the left puts its group in front. */
  lemma KanjiSpecStep(s: string, idx: nat)
    requires AllDigits(s) && idx < |s|
    ensures KanjiSpec(s[|s| - 1 - idx..]) == Group(idx, s[|s| - 1 - idx]) + KanjiSpec(s[|s| - idx..])
  {
    assert s[|s| - 1 - idx..][1..] == s[|s| - idx..];
  }

  /** The digits the digit words of a part list stand for, in order. */
  function DigitsRead(parts: seq<Part>): seq<nat> {
    if parts == [] then []
    else
      var head := if parts[0].word.Some? && parts[0].word.value.Digit? then [parts[0].word.value.d] else [];
      head + DigitsRead(parts[1..])
  }

  /** The digit values of a digit string, highest first. */
  function DigitValues(s: string): (r: seq<nat>)
    requires AllDigits(s)
    ensures |r| == |s|
  {
    if s == [] then [] else [DigitValue(s[0])] + DigitValues(s[1..])
  }

  lemma {:induction false} DigitsReadAppend(a: seq<Part>, b: seq<Part>)
    ensures DigitsRead(a + b) == DigitsRead(a) + DigitsRead(b)
  {
    if a != [] {
      assert (a + b)[1..] == a[1..] + b;
      DigitsReadAppend(a[1..], b);
    } else {
      assert a + b == b;
    }
  }

  lemma GroupDigit(idx: nat, d: char)
    requires IsDigit(d) && idx <= 6
    ensures DigitsRead(Group(idx, d)) == [DigitValue(d)]
  {
    var g := Group(idx, d);
    if |g| == 2 {
      assert g[1..][1..] == [];
      assert DigitsRead(g[1..]) == [];
    } else {
      assert g[1..] == [];
    }
  }

  /** For the up-to-seven-digit chunks this is used on: one digit word per
      digit, highest digit first; 万 exactly when the fifth digit from the
      right is not 0; 洛叉 exactly when there are at least six digits. */
  lemma {:induction false} KanjiSpecShape(s: string)
    requires AllDigits(s) && |s| <= 7
    ensures DigitsRead(KanjiSpec(s)) == DigitValues(s)
    ensures Part(None, Some(Man)) in KanjiSpec(s) <==> |s| >= 5 && s[|s| - 5] != '0'
    ensures Part(None, Some(Rakusha)) in KanjiSpec(s) <==> |s| >= 6
  {
    if s != [] {
      var g := Group(|s| - 1, s[0]);
      KanjiSpecShape(s[1..]);
      DigitsReadAppend(g, KanjiSpec(s[1..]));
      GroupDigit(|s| - 1, s[0]);
      if |s| >= 6 {
        assert s[1..][|s| - 1 - 5] == s[|s| - 5];
      }
      assert DigitValue(s[0]) != 0 <==> s[0] != '0';
    }
  }

  /** The tokens `output` pushes for a list of parts: the numeral (null in
      kanji mode), then the word when there is one. */
  function PartTokens(p: Part, opts: Options): seq<Token> {
    [if p.num.Some? then Text(p.num.value) else Null]
      + (if p.word.Some? then [WordToken(p.word.value, opts)] else [])
  }

  function PartsTokens(parts: seq<Part>, opts: Options): seq<Token> {
    if parts == [] then [] else PartsTokens(parts[..|parts| - 1], opts) + PartTokens(parts[|parts| - 1], opts)
  }

  /** The inner `forEach` of `output`: push each part's numeral and word. */
  method PushParts(buf: seq<Token>, parts: seq<Part>, opts: Options) returns (out: seq<Token>)
    ensures out == buf + PartsTokens(parts, opts)
  {
    out := buf;
    var j := 0;
    while j < |parts|
      invariant 0 <= j <= |parts|
      invariant out == buf + PartsTokens(parts[..j], opts)
    {
      assert parts[..j + 1][..j] == parts[..j];
      var part := parts[j];
      if part.num.Some? {
        out := out + [Text(part.num.value)];
      } else {
        out := out + [Null];
      }
      if part.word.Some? {
        out := out + [WordToken(part.word.value, opts)];
      }
      j := j + 1;
    }
    assert parts[..j] == parts;
  }

  /** The parts for a non-zero chunk in the chosen mode. */
  function ChunkParts(num: nat, opts: Options): seq<Part> {
    if opts.allInKanji then KanjiSpec(DecimalString(num))
    else BasicScales(DecimalString(num), opts.rakushaToComma)
  }

  /** The scale word of a named entry and the space after it. */
  function ScaleTokens(ord: nat, opts: Options): seq<Token> {
    [WordToken(ScaleWord(ord), opts)] + (if opts.spacing then [Text(" ")] else [])
  }

  /** The tokens of a chunk: nothing for 0, otherwise its parts. */
  function ChunkTokens(num: nat, opts: Options): seq<Token> {
    if num != 0 then PartsTokens(ChunkParts(num, opts), opts) else []
  }

  /** The scale word of a named entry, unless its chunk is 0 at a position
      at or above the floor. */
  function ScaleSuffix(e: Entry, expLow: int, opts: Options): seq<Token> {
    if e.Named? && !(e.num == 0 && e.slot.pos >= expLow) then ScaleTokens(e.slot.ord, opts) else []
  }

  /** The tokens for one entry of `result`: the chunk, then its scale word. */
  function EntryTokens(e: Entry, expLow: int, opts: Options): seq<Token> {
    ChunkTokens(e.num, opts) + ScaleSuffix(e, expLow, opts)
  }

  function EntriesTokens(result: seq<Entry>, expLow: int, opts: Options): seq<Token> {
    if result == [] then []
    else EntriesTokens(result[..|result| - 1], expLow, opts) + EntryTokens(result[|result| - 1], expLow, opts)
  }

  /** The chunk half of one pass of `output`'s loop: nothing for 0,
      otherwise the parts of its digits. */
  method PushChunk(buf: seq<Token>, num: nat, opts: Options) returns (out: seq<Token>)
    ensures out == buf + ChunkTokens(num, opts)
  {
    out := buf;
    if num != 0 {
      var parts: seq<Part>;
      if opts.allInKanji {
        parts := ByKanji(DecimalString(num));
      } else {
        parts := BasicScales(DecimalString(num), opts.rakushaToComma);
      }
      assert parts == ChunkParts(num, opts);
      out := PushParts(buf, parts, opts);
    }
  }

  /** The scale half of one pass of `output`'s loop: the scale word of a
      named entry and the space after it. */
  method PushScale(buf: seq<Token>, e: Entry, expLow: int, opts: Options) returns (out: seq<Token>)
    ensures out == buf + ScaleSuffix(e, expLow, opts)
  {
    out := buf;
    if e.Named? && !(e.num == 0 && e.slot.pos >= expLow) {
      out := out + [WordToken(ScaleWord(e.slot.ord), opts)];
      if opts.spacing {
        out := out + [Text(" ")];
      }
    }
  }

  /** One pass of `output`'s loop over `result`: the chunk, then its scale
      word, appended to the buffer. */
  method PushEntry(buf: seq<Token>, e: Entry, expLow: int, opts: Options) returns (out: seq<Token>)
    ensures out == buf + EntryTokens(e, expLow, opts)
  {
    var mid := PushChunk(buf, e.num, opts);
    out := PushScale(mid, e, expLow, opts);
    JoinAssoc(buf, ChunkTokens(e.num, opts), ScaleSuffix(e, expLow, opts));
  }

  lemma EntriesStep(result: seq<Entry>, i: nat, expLow: int, opts: Options)
    requires i < |result|
    ensures EntriesTokens(result[..i + 1], expLow, opts)
      == EntriesTokens(result[..i], expLow, opts) + EntryTokens(result[i], expLow, opts)
  {
    assert result[..i + 1][..i] == result[..i];
  }

  function SignTokens(negative: bool, opts: Options): seq<Token> {
    if !negative then []
    else if opts.allInKanji then [TextNode(Negative, opts)]
    else [TextNode(Minus, opts)]
  }

  function ZeroTokens(result: seq<Entry>, opts: Options): seq<Token> {
    if |result| != 0 then []
    else if opts.allInKanji then [WordToken(Zero, opts)]
    else [Text("0")]
  }

  /** The whole buffer `output` builds before joining it. */
  function Rendered(negative: bool, result: seq<Entry>, expLow: int, opts: Options): seq<Token> {
    SignTokens(negative, opts) + EntriesTokens(result, expLow, opts) + ZeroTokens(result, opts)
  }

  /** The sign is the only difference between a negative and a positive
      rendering: 負 in kanji mode, the minus glyph otherwise. */
  lemma SignOnlyPrefix(result: seq<Entry>, expLow: int, opts: Options)
    ensures Rendered(true, result, expLow, opts)
      == [if opts.allInKanji then Word(Negative, opts.ruby) else Word(Minus, false)]
         + Rendered(false, result, expLow, opts)
  {
    var sign := if opts.allInKanji then Word(Negative, opts.ruby) else Word(Minus, false);
    var body := EntriesTokens(result, expLow, opts);
    var zero := ZeroTokens(result, opts);
    assert SignTokens(true, opts) == [sign] && SignTokens(false, opts) == [];
    JoinAssoc([sign], body, zero);
    assert [] + body + zero == body + zero;
  }

  /** A named entry with chunk 0 gives nothing at or above the floor, and
      only its scale word (and space) below it. */
  lemma ZeroEntryTokens(slot: Slot, expLow: int, opts: Options)
    ensures slot.pos >= expLow ==> EntryTokens(Named(slot, 0), expLow, opts) == []
    ensures slot.pos < expLow ==>
      EntryTokens(Named(slot, 0), expLow, opts)
        == [Word(ScaleWord(slot.ord), opts.ruby)] + (if opts.spacing then [Text(" ")] else [])
  {
  }

  /** Every word in the sequence carries a reading only when readings are on
      and the word has one. */
  predicate ReadingsAllowed(t: seq<Token>, opts: Options) {
    forall i :: 0 <= i < |t| && t[i].Word? && t[i].withReading ==> opts.ruby && HasReading(t[i].name)
  }

  /** Every scale word is directly followed by a space. */
  predicate SpaceAfterScales(t: seq<Token>) {
    forall i :: 0 <= i < |t| && t[i].Word? && t[i].name.ScaleWord? ==> i + 1 < |t| && t[i + 1] == Text(" ")
  }

  lemma {:induction false} JoinKeeps(a: seq<Token>, b: seq<Token>, opts: Options)
    ensures ReadingsAllowed(a, opts) && ReadingsAllowed(b, opts) ==> ReadingsAllowed(a + b, opts)
    ensures SpaceAfterScales(a) && SpaceAfterScales(b) ==> SpaceAfterScales(a + b)
  {
    var t := a + b;
    if ReadingsAllowed(a, opts) && ReadingsAllowed(b, opts) {
      forall i | 0 <= i < |t| && t[i].Word? && t[i].withReading
        ensures opts.ruby && HasReading(t[i].name)
      {
        if i < |a| { assert t[i] == a[i]; } else { assert t[i] == b[i - |a|]; }
      }
    }
    if SpaceAfterScales(a) && SpaceAfterScales(b) {
      forall i | 0 <= i < |t| && t[i].Word? && t[i].name.ScaleWord?
        ensures i + 1 < |t| && t[i + 1] == Text(" ")
      {
        if i < |a| {
          assert t[i] == a[i];
          assert t[i + 1] == a[i + 1];
        } else {
          assert t[i] == b[i - |a|];
          assert t[i + 1] == b[i - |a| + 1];
        }
      }
    }
  }

  /** A part holds neither a scale word nor the zero word, nor the
      numeral "0". */
  predicate BasicPart(p: Part) {
    (p.word.Some? ==> !p.word.value.ScaleWord? && !p.word.value.Zero?) && p.num != Some("0")
  }

  /** Every token is clean: it respects the reading rule and is not a zero
      token; with spacing on, every scale word is followed by a space. */
  predicate Clean(t: seq<Token>, opts: Options) {
    && ReadingsAllowed(t, opts)
    && (opts.spacing ==> SpaceAfterScales(t))
    && (forall x :: x in t ==> NotZero(x))
  }

  lemma JoinClean(a: seq<Token>, b: seq<Token>, opts: Options)
    requires Clean(a, opts) && Clean(b, opts)
    ensures Clean(a + b, opts)
  {
    JoinKeeps(a, b, opts);
  }

  lemma {:induction false} PartsTokensClean(parts: seq<Part>, opts: Options)
    requires forall p :: p in parts ==> BasicPart(p)
    ensures Clean(PartsTokens(parts, opts), opts)
  {
    if parts != [] {
      var init := parts[..|parts| - 1];
      assert forall p :: p in init ==> p in parts;
      PartsTokensClean(init, opts);
      var last := parts[|parts| - 1];
      assert last in parts;
      assert Clean(PartTokens(last, opts), opts);
      JoinClean(PartsTokens(init, opts), PartTokens(last, opts), opts);
    }
  }

  lemma BasicScalesParts(s: string, comma: bool)
    requires |s| >= 1 && s[0] != '0'
    ensures forall p :: p in BasicScales(s, comma) ==> BasicPart(p)
  {
    BasicScalesNoZeroText(s, comma);
    BasicScalesWords(s, comma);
  }

  /** The only words of a basic-scale list are 洛叉 and the comma. */
  lemma BasicScalesWords(s: string, comma: bool)
    ensures forall p :: p in BasicScales(s, comma) ==> p.word.None? || p.word.value.Comma? || p.word.value.Rakusha?
  {
  }

  lemma {:induction false} KanjiParts(s: string)
    requires AllDigits(s)
    ensures forall p :: p in KanjiSpec(s) ==> BasicPart(p) && p.num.None?
  {
    if s != [] {
      KanjiParts(s[1..]);
    }
  }

  lemma ChunkTokensClean(num: nat, opts: Options)
    ensures Clean(ChunkTokens(num, opts), opts)
  {
    if num != 0 {
      var s := DecimalString(num);
      if opts.allInKanji {
        KanjiParts(s);
      } else {
        BasicScalesParts(s, opts.rakushaToComma);
      }
      PartsTokensClean(ChunkParts(num, opts), opts);
    }
  }

  lemma ScaleSuffixClean(e: Entry, expLow: int, opts: Options)
    ensures Clean(ScaleSuffix(e, expLow, opts), opts)
  {
  }

  lemma EntryTokensClean(e: Entry, expLow: int, opts: Options)
    ensures Clean(EntryTokens(e, expLow, opts), opts)
  {
    ChunkTokensClean(e.num, opts);
    ScaleSuffixClean(e, expLow, opts);
    JoinClean(ChunkTokens(e.num, opts), ScaleSuffix(e, expLow, opts), opts);
  }

  lemma {:induction false} EntriesClean(result: seq<Entry>, expLow: int, opts: Options)
    ensures Clean(EntriesTokens(result, expLow, opts), opts)
  {
    if result != [] {
      var init := result[..|result| - 1];
      EntriesClean(init, expLow, opts);
      EntryTokensClean(result[|result| - 1], expLow, opts);
      JoinClean(EntriesTokens(init, expLow, opts), EntryTokens(result[|result| - 1], expLow, opts), opts);
    }
  }

  /** Over the whole buffer: a reading only where readings are on and the
      word has one, and with spacing on a space after every scale word. */
  lemma RenderedClean(negative: bool, result: seq<Entry>, expLow: int, opts: Options)
    ensures ReadingsAllowed(Rendered(negative, result, expLow, opts), opts)
    ensures opts.spacing ==> SpaceAfterScales(Rendered(negative, result, expLow, opts))
  {
    EntriesClean(result, expLow, opts);
    var sign := SignTokens(negative, opts);
    var body := EntriesTokens(result, expLow, opts);
    var zero := ZeroTokens(result, opts);
    EndsClean(negative, result, opts);
    JoinKeeps(sign, body, opts);
    JoinKeeps(sign + body, zero, opts);
  }

  lemma EndsClean(negative: bool, result: seq<Entry>, opts: Options)
    ensures ReadingsAllowed(SignTokens(negative, opts), opts) && SpaceAfterScales(SignTokens(negative, opts))
    ensures ReadingsAllowed(ZeroTokens(result, opts), opts) && SpaceAfterScales(ZeroTokens(result, opts))
  {
  }

  /** The token standing for zero in the chosen mode. */
  function ZeroToken(opts: Options): Token {
    if opts.allInKanji then Word(Zero, opts.ruby) else Text("0")
  }

  /** Neither the zero word nor the numeral "0" appears in a token. */
  predicate NotZero(t: Token) {
    !(t.Word? && t.name.Zero?) && t != Text("0")
  }

  /** The zero token is produced exactly when the result is empty: a
      non-zero chunk never renders as the lone zero. */
  lemma {:induction false} ZeroOnlyWhenEmpty(negative: bool, result: seq<Entry>, expLow: int, opts: Options)
    ensures ZeroToken(opts) in Rendered(negative, result, expLow, opts) <==> |result| == 0
  {
    var sign := SignTokens(negative, opts);
    var body := EntriesTokens(result, expLow, opts);
    var zeros := ZeroTokens(result, opts);
    EntriesClean(result, expLow, opts);
    assert ZeroToken(opts) !in body;
    assert ZeroToken(opts) !in sign;
    assert ZeroToken(opts) in zeros <==> |result| == 0;
  }
}
