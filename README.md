# BuddhaNumConv in Dafny

BuddhaNumConv writes a number given as a coefficient and a power of ten
(`coef × 10^exp`) in the Buddhist large-numeral system. The system has 123
scale words (倶胝, 阿庾多, 那由他, …). Scale word `k` stands for `10^(7·2^k)`.
A number is spelled as 7-digit chunks, each followed by the scale word of
its position. Chunks in between are filled in recursively, so one position
may be spelled with several nested scale words.

This project models the conversion engine in `buddha-num-conv.js`:

- **Validation** (`numeral.dfy`): the numeral syntax of both input fields,
  and the refusal of an exponent with a decimal point.
- **Parsing and normalisation** (`numeral.dfy`, `normalise.dfy`):
  - Numbers are exact decimals `mant / 10^frac`.
  - A coefficient of 10 or more is shifted into `[1, 10)`, and the shift is
    added to the exponent.
  - The significance floor `expLow` is derived from the coefficient's
    fraction digits.
  - The first shift `exp mod 7` keeps the sign of the exponent, as in the
    decimal library the source uses.
- **Scale selection** (`scales.dfy`, `decompose.dfy`):
  - `log2Int` picks the scale for a remaining exponent.
  - `getScale` builds the list of slots (scale, position), highest first.
    It recurses into the range below each scale unless that range lies
    under the floor.
  - It overflows past the last table entry.
- **Chunking** (`chunks.dfy`, `converter.dfy`): `convert`'s loop takes one
  7-digit integer chunk off the coefficient per slot, then adds a trailing
  unnamed chunk if anything is left.
- **Rendering** (`render.dfy`, `converter.dfy`): `output` builds a token
  buffer.
  - The sign comes first.
  - Each chunk is written in numerals, split at 洛叉 (10^5) or by a comma,
    or fully in kanji with 万 and 洛叉.
  - Each scale word follows its chunk, subject to the suppression rule.
  - A lone zero is written when there are no chunks.
  - `getTextNode` decides whether a word carries its reading.

`convert` and `output` are methods of the `Converter` class. Its fields are
the source object's fields, and the methods update them in place. Each
method is proved against pure specification functions: `Prepare`,
`Decompose`, `Peel`/`Chunk` and `Rendered`. The lemmas about those
functions carry the properties.

`sample.dfy` traces the input ("1.0", "7") through every stage. The
coefficient "1.0" has no significant fraction digit, so it gives one chunk,
1, under 倶胝 (10^7). The result renders as `1`, `倶胝` with its reading,
and a space. This is the input the page fills in by default (coefficient "1.0",
exponent "7", main.js:10-11).

## Model

| member | source | states |
|---|---|---|
| Numeral.IsNumberShape | buddha-num-conv.js:268-270 | The four alternatives of the numeral pattern accept exactly these fields: an optional sign, then only digits and points, with at most one point and at least one digit. |
| Numeral.Validate | buddha-num-conv.js:41-48 | Three iffs. Valid iff both fields are numerals and the exponent has no point. The invalid-number error iff either field is not a numeral. The integer-exponent error iff both are numerals but the exponent has a point. |
| Numeral.StrayCharRefused | buddha-num-conv.js:268-270 | A character other than a digit or a point after the first position makes a field invalid. |
| Numeral.PointedExponentRefused | buddha-num-conv.js:41-48 | "7." is a numeral but is refused as an exponent. ("1", "7") is accepted. "1.5e3" is not a numeral. |
| Numeral.Canon | buddha-num-conv.js:53 | The decimal's canonical form has no trailing fraction zero, denotes the same value and has no more fraction digits. |
| Numeral.ParseMagnitude | buddha-num-conv.js:53-59 | The magnitude of the coefficient field is canonical and equals the value of its digits over 10^(number of digits after the point). |
| Numeral.ParseNegative | buddha-num-conv.js:53-57 | The coefficient is negative iff the field's digits, read as one signed integer with the point ignored, are below zero. So "-0" and "-.00" are not negative. |
| Numeral.ExponentRoundTrip | buddha-num-conv.js:41-54 | Every integer exponent, written as an optional minus and its digits, passes validation with any numeral coefficient and parses back to itself. |
| Normalisation.NormaliseSpec | buddha-num-conv.js:62-67 | After normalisation the coefficient is below 10. It is at least 1 if it was before. The exponent grew by exactly the number of places the coefficient was divided by, so coef × 10^exp is unchanged. |
| Normalisation.CanonBounds | buddha-num-conv.js:65 | Canonical form keeps the bounds 1 ≤ coef < 10. |
| Normalisation.CoefLenCountsFraction | buddha-num-conv.js:70 | For a coefficient below 10, `max(length of its string − 2, 0)` is the number of its fraction digits. |
| Normalisation.ExpLow | buddha-num-conv.js:69-74 | The floor is 0 iff exp ≤ coefLen, and otherwise exp − coefLen. |
| Normalisation.TruncMod7 | buddha-num-conv.js:77 | The remainder lies in (−7, 7). It is exp % 7 for exp ≥ 0, and non-positive with exp − r divisible by 7 for exp < 0. |
| Scales.ZerosDouble | buddha-num-conv.js:335-459 | Each scale has twice the zeros of the previous one. |
| Scales.Log2IntBounds | buddha-num-conv.js:263-266 | `log2Int` is the floor of log2: 2^r ≤ x < 2^(r+1). |
| Scales.Log2Brackets | buddha-num-conv.js:117 | The ordinal chosen for exp ≥ 7 has zeros(ord) ≤ exp < 2·zeros(ord). |
| Scales.OrdinalUnique | buddha-num-conv.js:117 | At most one ordinal brackets a given exponent. |
| Scales.Log2IntSelects | buddha-num-conv.js:117 | `log2Int(exp / 7)` is that unique ordinal. |
| Scales.SelectOrdinalIsLargest | buddha-num-conv.js:117 | zeros(o) ≤ exp iff o ≤ the chosen ordinal: the largest scale that fits is picked. |
| Scales.TooLargeIff | buddha-num-conv.js:118-123 | The table runs out iff floor(exp/7) ≥ 2^123, i.e. iff exp ≥ 7·2^123. |
| ScaleDecomposer.NotTooLargeBelow | buddha-num-conv.js:125-134 | If an exponent fits the table, every smaller one does, so the recursive and later steps never overflow. |
| ScaleDecomposer.ScaleOrdinal | buddha-num-conv.js:117 | Computes the bracketing ordinal of the remaining exponent. |
| ScaleDecomposer.GetScale | buddha-num-conv.js:108-139 | Fails iff the exponent is too large for the table, with the overflow error. Otherwise returns exactly the decomposition `Decompose`. |
| ScaleDecomposer.DecomposeOrdered | buddha-num-conv.js:108-139 | Slots come in strictly descending positions, all within (pos, pos + exp], and name ordinals 0..122. |
| ScaleDecomposer.DecomposeFirst | buddha-num-conv.js:133-135 | The first slot sits at pos + exp − exp mod 7, which is why the first chunk is shifted by `exp mod 7`. |
| ScaleDecomposer.DecomposeComplete | buddha-num-conv.js:125-135 | With the floor not above pos, the positions are exactly pos + 7·⌊exp/7⌋, …, pos + 14, pos + 7, each once. |
| ScaleDecomposer.SlotAtOrAboveFloor | buddha-num-conv.js:128-129 | Pruning drops only positions whose whole chunk lies under the floor: every multiple of 7 in range with position + 6 ≥ floor has a slot. |
| ScaleDecomposer.DecomposeHead | buddha-num-conv.js:125-135 | From the top call, the first slots are every multiple of 7 from 7·⌊exp/7⌋ down to 7·k0, in order, where 7·k0 is the lowest chunk the floor cannot prune (k0 = max(1, ⌊floor/7⌋)). A floor below 7 prunes nothing. |
| Chunks.PeelStep | buddha-num-conv.js:83-94 | One more slot peels one more named entry off what is left, and the shift becomes 7. |
| Chunks.StepConserves | buddha-num-conv.js:84-92 | One step conserves value: coef·10^shift = head + coef′, with 0 ≤ coef′ < 1. |
| Chunks.PeelConserves | buddha-num-conv.js:83-94 | The coefficient shifted by mod + 7(k−1) equals the k chunks read in base 10^7, plus the remainder below 1. |
| Chunks.PeelBounds | buddha-num-conv.js:83-94 | For a coefficient below 10 and a first shift of at most 6, every chunk is below 10^7. |
| Chunks.ChunkBounds | buddha-num-conv.js:83-103 | Every entry of the chunk list, the trailing one included, is below 10^7. |
| Chunks.PeelZeroStays | buddha-num-conv.js:83-94 | Once nothing is left, every later chunk is 0 and the remainder stays 0. |
| Chunks.PeelSlots | buddha-num-conv.js:86-90 | Entry i names slot i. |
| Chunks.ChunkShape | buddha-num-conv.js:96-103 | The result has one entry per slot. It has a trailing unnamed entry iff the remainder is non-zero. |
| Converter.PrepareSpec | buddha-num-conv.js:50-77 | From valid input: the coefficient is below 10 and has no trailing fraction zero, so its fraction digits are those `toString` prints. The sign is negative iff the field's signed digits are. coef·10^exp is the input magnitude. The floor is exp − fraction digits, or 0. The first shift is `TruncMod7(exp)`: exp % 7 for exp ≥ 0, and in −6..0 for exp < 0. |
| Converter.ChunksSpellValue | buddha-num-conv.js:76-103 | For exp ≥ 7 and any floor: the slots start at 7·⌊exp/7⌋, …, 7·k0, and their chunks read as one base-10^7 number, plus a pure-fraction remainder, are coef·10^(exp − 7·k0). With a floor of 7 or more nothing is left there: every later chunk is 0 and no trailing chunk is added. With a lower floor those are all the slots. |
| Converter.ChunksFit | buddha-num-conv.js:83-103 | Every chunk `convert` produces from valid input has at most seven digits. |
| Converter.Converter.constructor | buddha-num-conv.js:17-32 | Keeps the input fields and starts with an empty result and a non-negative sign. |
| Converter.Converter.Convert | buddha-num-conv.js:50-106 | Invalid input: returns the validation error and changes nothing. Otherwise it sets the exponent, floor and sign (the sign is never reset). On overflow it returns the error with the result untouched. Otherwise it appends `Chunk` of the prepared state to the result and leaves the remainder in `coef`. |
| Converter.Converter.Spread | buddha-num-conv.js:83-103 | The loop over the slots appends exactly `Chunk(coef, mod, slots)` and leaves the peeled remainder as `coef`. No other field changes. |
| Converter.Converter.Output | buddha-num-conv.js:179-231 | The buffer is `Rendered`: the sign, each entry's tokens in order, then the zero token if the result is empty. |
| Render.Low5 | buddha-num-conv.js:165 | The last five characters, or the whole shorter string, as a suffix. |
| Render.BasicScalesOnePart | buddha-num-conv.js:164-177 | One part iff the digits above the last five are absent or all zero. In that case the part is the chunk without leading zeros. With two parts, the first is labelled. |
| Render.CommaSplitRoundTrip | buddha-num-conv.js:164-173 | In comma mode, the two parts joined give back the chunk without its leading zeros. |
| Render.RakushaSplitValue | buddha-num-conv.js:164-173 | In 洛叉 mode: value(high)·10^5 + value(low) = value(chunk). |
| Render.BasicScalesNoZeroText | buddha-num-conv.js:164-177 | For a chunk without leading zeros, no part is the numeral "0". |
| Render.BasicScalesWords | buddha-num-conv.js:168-173 | The only words in a numeral split are 洛叉 and the comma. |
| Render.ByKanji | buddha-num-conv.js:141-162 | The loop that unshifts each digit's words yields `KanjiSpec`: each digit's group, highest digit first. |
| Render.GroupDigit | buddha-num-conv.js:146-159 | Each of the seven digit places contributes exactly one digit word, for its digit. |
| Render.KanjiSpecShape | buddha-num-conv.js:141-162 | For chunks of up to seven digits: the digit words read back the digits. 万 appears iff the fifth digit from the right is non-zero. 洛叉 appears iff there are at least six digits. |
| Render.PushParts | buddha-num-conv.js:202-207 | Appends each part's numeral, then its word, in order. |
| Render.PushChunk | buddha-num-conv.js:195-208 | A zero chunk adds nothing. Otherwise it adds the parts of its decimal string, in the chosen mode. |
| Render.PushScale | buddha-num-conv.js:210-219 | A named entry adds its scale word and, with spacing on, a space, unless its chunk is 0 at or above the floor. |
| Render.PushEntry | buddha-num-conv.js:192-220 | One pass of the loop adds the entry's chunk tokens, then its scale suffix. |
| Render.SignOnlyPrefix | buddha-num-conv.js:184-190 | A negative rendering is the positive one with 負 (kanji mode, with its reading if readings are on) or the minus glyph in front. |
| Render.ZeroEntryTokens | buddha-num-conv.js:210-219 | A zero chunk under a scale gives nothing at or above the floor. Below the floor it gives only the scale word (and a space). |
| Render.RenderedClean | buddha-num-conv.js:179-259 | Across the whole buffer, a word has a reading only if readings are on and it has one (`getTextNode` through `TextNode`, `outputScale` and `outputBasicScale` through `WordToken`). With spacing on, every scale word is followed by a space. |
| Render.ZeroOnlyWhenEmpty | buddha-num-conv.js:222-229 | The zero token appears in the buffer iff the result is empty. |
| Sample.OneKuteiExample | buddha-num-conv.js:50-106 | ("1.0", "7") is valid and prepares to coefficient 1, exponent 7, floor 7, shift 0. It decomposes to the single slot 倶胝 at position 7, chunks to [1 under 倶胝] and renders as "1", 倶胝 with reading, " ". |

## Left out

- The page side of `output` is left out: emptying the result element and assigning the joined HTML (lines 180 and 230). The model stops at the token buffer the source joins.
- The ruby markup is not modelled. A word is a token that records whether it carries its reading; the HTML string built from it is left out.
- The literal kanji, their kana readings, the error message texts and the scale table's names are left out. Words are identified by kind and ordinal, and errors by kind.
- `setOptions` is left out. The options are passed to `Output` as a value, and the defaults at lines 10-15 are `DefaultOptions`.
- The arbitrary-precision decimal library is not modelled; its operations are stated on exact decimals. `coef.e`, `shiftedBy`, `decimalPlaces(0, ROUND_DOWN)`, `mod` and `toString` are written out as integer arithmetic. `toString` is modelled in plain notation only. With the library's default settings a coefficient below 10^-6 prints in exponential notation (`1e-7`), so line 70 gives the source a different `coefLen` and `expLow` for it; the model does not follow that case.
- Converter.Converter.constructor: the source sets `coef`, `exp` and `expLow` to null until `convert` runs; the model uses zero values.
- Converter.ChunksSpellValue: stated only for exp ≥ 7. Below that there are no slots and the only chunk is the trailing one.
- Chunks and scale words are rendered from the entry list that `Convert` leaves. The model does not prove a single end-to-end statement linking the input strings to the final buffer; `Sample.OneKuteiExample` does that for one input.
- Values below 1 are followed as the code handles them. Examples are ("5", "-1") or ("0.5", "0"): no slots, one trailing chunk 0, and an empty rendering. The model reproduces this behaviour as written.
- `main.js` is not part of this model. It covers the page form, option checkboxes and error display.
