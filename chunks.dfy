/** The second half of `convert`: 7-digit integer chunks are peeled off the
    normalised coefficient, one per slot of the decomposition, and whatever
    is left becomes an unnamed trailing chunk. The coefficient is kept as
    `num / 10^frac` with `frac` fixed throughout. */
module Chunks {
  import opened Common
  import opened ScaleDecomposer

  /** An entry of `result`: a chunk under a named scale at a position, or
      the trailing chunk that has no scale. */
  datatype Entry = Named(slot: Slot, num: nat) | Ones(num: nat)

  /** The entries pushed so far, the numerator of what is left of the
      coefficient, and the shift the next step applies (`mod`). */
  datatype Peeled = Peeled(entries: seq<Entry>, rest: nat, shift: int)

  /** `coef.shiftedBy(shift).decimalPlaces(0, ROUND_DOWN)` for
      coef = num / 10^frac. */
  function Head(num: nat, frac: nat, shift: int): nat {
    if shift >= 0 then NatDiv(num * Pow10(shift), Pow10(frac))
    else NatDiv(NatDiv(num, Pow10(frac)), Pow10(-shift))
  }

  /** The remaining numerator after `coef.shiftedBy(shift).minus(head)`. */
  function Rest(num: nat, frac: nat, shift: nat): nat {
    (num * Pow10(shift)) % Pow10(frac)
  }

  /** The `forEach` over the slots, first to last: the first step shifts by
      `mod`, every later one by 7. */
  function Peel(num: nat, frac: nat, mod: int, slots: seq<Slot>): (p: Peeled)
    requires slots != [] ==> mod >= 0
    ensures |p.entries| == |slots|
    ensures slots == [] ==> p == Peeled([], num, mod)
    ensures slots != [] ==> p.shift == 7
  {
    if slots == [] then Peeled([], num, mod)
    else
      var prev := Peel(num, frac, mod, slots[..|slots| - 1]);
      var t := prev.shift;
      assert t >= 0;
      Peeled(prev.entries + [Named(slots[|slots| - 1], Head(prev.rest, frac, t))],
             Rest(prev.rest, frac, t), 7)
  }

  /** One more slot peels one more entry off what is left. */
  lemma PeelStep(num: nat, frac: nat, mod: int, slots: seq<Slot>, i: nat)
    requires slots != [] ==> mod >= 0
    requires i < |slots|
    ensures var prev := Peel(num, frac, mod, slots[..i]);
      && prev.shift >= 0
      && Peel(num, frac, mod, slots[..i + 1])
         == Peeled(prev.entries + [Named(slots[i], Head(prev.rest, frac, prev.shift))], Rest(prev.rest, frac, prev.shift), 7)
  {
    assert slots[..i + 1][..i] == slots[..i];
  }

  /** The whole chunk list: the peeled entries, then a trailing unnamed
      chunk exactly when something is left. */
  function Chunk(num: nat, frac: nat, mod: int, slots: seq<Slot>): seq<Entry>
    requires slots != [] ==> mod >= 0
  {
    var p := Peel(num, frac, mod, slots);
    p.entries + (if p.rest != 0 then [Ones(Head(p.rest, frac, p.shift))] else [])
  }

  lemma ChunkFromPeel(num: nat, frac: nat, mod: int, slots: seq<Slot>, entries: seq<Entry>, rest: nat, shift: int)
    requires slots != [] ==> mod >= 0
    requires Peel(num, frac, mod, slots) == Peeled(entries, rest, shift)
    ensures Chunk(num, frac, mod, slots) == entries + (if rest != 0 then [Ones(Head(rest, frac, shift))] else [])
  {
  }

  /** The base-10^7 number the heads spell. */
  function Combined(entries: seq<Entry>): nat {
    if entries == [] then 0
    else Combined(entries[..|entries| - 1]) * Pow10(7) + entries[|entries| - 1].num
  }

  lemma DivMod(a: nat, b: nat)
    requires b > 0
    ensures a == b * (a / b) + a % b && a % b < b
  {
  }

  /** One step conserves value: coef * 10^shift = head + coef'. */
  lemma StepConserves(num: nat, frac: nat, shift: nat)
    ensures num * Pow10(shift) == Pow10(frac) * Head(num, frac, shift) + Rest(num, frac, shift)
    ensures Rest(num, frac, shift) < Pow10(frac)
  {
    DivMod(num * Pow10(shift), Pow10(frac));
  }

  /** Peeling conserves value: the coefficient shifted by mod + 7(k-1) equals
      the chunks read as one number plus what is left, all over 10^frac. */
  lemma {:induction false} PeelConserves(num: nat, frac: nat, mod: nat, slots: seq<Slot>)
    requires slots != []
    ensures var p := Peel(num, frac, mod, slots);
      num * Pow10(mod + 7 * (|slots| - 1)) == Pow10(frac) * Combined(p.entries) + p.rest
      && p.rest < Pow10(frac)
    decreases |slots|
  {
    var k := |slots|;
    var init := slots[..k - 1];
    var prev := Peel(num, frac, mod, init);
    var p := Peel(num, frac, mod, slots);
    PeelStep(num, frac, mod, slots, k - 1);
    assert slots[..k] == slots;
    var h := Head(prev.rest, frac, prev.shift);
    CombinedSnoc(prev.entries, Named(slots[k - 1], h));
    StepConserves(prev.rest, frac, prev.shift);
    if k == 1 {
      assert prev == Peeled([], num, mod);
      ConserveFirst(num, mod, mod + 7 * (|slots| - 1), Pow10(frac), Combined(p.entries), h, p.rest);
    } else {
      PeelConserves(num, frac, mod, init);
      ConserveStep(num, mod + 7 * (|init| - 1), mod + 7 * (|slots| - 1), Pow10(frac),
                   Combined(prev.entries), Combined(p.entries), prev.rest, h, p.rest);
    }
  }

  lemma CombinedSnoc(entries: seq<Entry>, e: Entry)
    ensures Combined(entries + [e]) == Combined(entries) * Pow10(7) + e.num
  {
    assert (entries + [e])[..|entries|] == entries;
  }

  /** The arithmetic of the first step: nothing peeled before, so the
      chunks spell just the first head. */
  lemma ConserveFirst(num: nat, e: nat, e': nat, d: nat, comb: nat, h: nat, r': nat)
    requires e' == e && comb == 0 * Pow10(7) + h
    requires num * Pow10(e) == d * h + r'
    ensures num * Pow10(e') == d * comb + r'
  {
  }

  /** The arithmetic of one full step: a value spelled as c chunks and r
      left over, shifted by seven more places, is spelled as c followed by
      the head h and r' left over. */
  lemma ConserveStep(num: nat, e: nat, e': nat, d: nat, c: nat, comb: nat, r: nat, h: nat, r': nat)
    requires e' == e + 7 && comb == c * Pow10(7) + h
    requires num * Pow10(e) == d * c + r
    requires r * Pow10(7) == d * h + r'
    ensures num * Pow10(e') == d * comb + r'
  {
    var w := Pow10(7);
    Pow10Add(e, 7);
    MulAssoc(num, Pow10(e), w);
    ShiftChunk(d, c, r, w, h, r');
  }

  lemma ShiftChunk(d: nat, c: nat, r: nat, w: nat, h: nat, r': nat)
    requires r * w == d * h + r'
    ensures (d * c + r) * w == d * (c * w + h) + r'
  {
    calc {
      (d * c + r) * w;
      d * c * w + r * w;
      d * (c * w) + (d * h + r');
      d * (c * w + h) + r';
    }
  }

  /** Every head is a 7-digit chunk, and what is left is below the
      denominator, provided the coefficient is below 10 and the first shift
      at most 6. */
  lemma {:induction false} PeelBounds(num: nat, frac: nat, mod: int, slots: seq<Slot>)
    requires slots != [] ==> 0 <= mod <= 6
    requires num < 10 * Pow10(frac)
    ensures var p := Peel(num, frac, mod, slots);
      (forall i :: 0 <= i < |p.entries| ==> p.entries[i].num < Pow10(7))
      && (slots != [] ==> p.rest < Pow10(frac))
    decreases |slots|
  {
    if slots != [] {
      var k := |slots|;
      var init := slots[..k - 1];
      var prev := Peel(num, frac, mod, init);
      PeelBounds(num, frac, mod, init);
      StepConserves(prev.rest, frac, prev.shift);
      assert (prev.rest < 10 * Pow10(frac) && 0 <= prev.shift <= 6) || (prev.rest < Pow10(frac) && prev.shift == 7);
      HeadBound(prev.rest, frac, prev.shift);
    }
  }

  /** A quotient is below any bound the dividend is below in multiples of
      the divisor. */
  lemma QuotientBelow(x: nat, d: nat, bound: nat)
    requires d > 0 && x < d * bound
    ensures x / d < bound
  {
    if x / d >= bound {
      MulMono(bound, x / d, d);
      DivMod(x, d);
    }
  }

  /** A head taken with a shift of at most 7 from what is below 10^frac
      (or below 10 * 10^frac for a shift of at most 6) fits seven digits. */
  lemma HeadBound(x: nat, frac: nat, shift: int)
    requires (shift == 7 && x < Pow10(frac)) || (shift <= 6 && x < 10 * Pow10(frac))
    ensures Head(x, frac, shift) < Pow10(7)
  {
    if shift >= 0 {
      ShiftedBelow(x, Pow10(frac), shift);
    } else {
      ScaledDownBelow(x, Pow10(frac), Pow10(-shift));
    }
  }

  lemma ShiftedBelow(x: nat, d: nat, shift: nat)
    requires d > 0 && shift <= 7
    requires (shift == 7 && x < d) || (shift <= 6 && x < 10 * d)
    ensures x * Pow10(shift) / d < Pow10(7)
  {
    var w := Pow10(7);
    if shift == 7 {
      MulLess(x, d, w);
      QuotientBelow(x * w, d, w);
    } else {
      var m := Pow10(shift);
      Pow10Monotone(shift + 1, 7);
      assert Pow10(shift + 1) == 10 * m;
      MulLess(x, 10 * d, m);
      assert 10 * d * m == d * (10 * m);
      MulMono(10 * m, w, d);
      QuotientBelow(x * m, d, w);
    }
  }

  lemma ScaledDownBelow(x: nat, d: nat, q: nat)
    requires d > 0 && q > 0 && x < 10 * d
    ensures x / d / q < Pow10(7)
  {
    QuotientBelow(x, d, 10);
    assert x / d / q <= x / d;
  }

  /** Every entry of the chunk list, the trailing one included, is a
      7-digit chunk: what the full-kanji rendering handles. */
  lemma ChunkBounds(num: nat, frac: nat, mod: int, slots: seq<Slot>)
    requires slots != [] ==> mod >= 0
    requires mod <= 6 && num < 10 * Pow10(frac)
    ensures forall e :: e in Chunk(num, frac, mod, slots) ==> e.num < Pow10(7)
  {
    var p := Peel(num, frac, mod, slots);
    PeelBounds(num, frac, mod, slots);
    if p.rest != 0 {
      HeadBound(p.rest, frac, p.shift);
    }
    assert forall e :: e in p.entries ==> e.num < Pow10(7);
  }

  /** Once nothing is left, nothing more is produced: every later head is 0
      and the remainder stays 0. */
  lemma {:induction false} PeelZeroStays(num: nat, frac: nat, mod: int, slots: seq<Slot>, j: nat)
    requires slots != [] ==> mod >= 0
    requires 0 < j <= |slots| && Peel(num, frac, mod, slots[..j]).rest == 0
    ensures var p := Peel(num, frac, mod, slots);
      p.rest == 0 && forall i :: j <= i < |slots| ==> p.entries[i].num == 0
    decreases |slots|
  {
    var k := |slots|;
    var p := Peel(num, frac, mod, slots);
    if j == k {
      assert slots[..j] == slots;
    } else {
      var init := slots[..k - 1];
      assert init[..j] == slots[..j];
      PeelZeroStays(num, frac, mod, init, j);
      var prev := Peel(num, frac, mod, init);
      assert p.entries[..k - 1] == prev.entries;
      assert Head(0, frac, 7) == 0 && Rest(0, frac, 7) == 0;
      forall i | j <= i < k ensures p.entries[i].num == 0 {
        if i < k - 1 {
          assert p.entries[i] == prev.entries[i];
        }
      }
    }
  }

  /** The trailing chunk is appended exactly when something is left, so the
      result has one entry per slot, plus one. */
  lemma ChunkShape(num: nat, frac: nat, mod: int, slots: seq<Slot>)
    requires slots != [] ==> mod >= 0
    ensures var p := Peel(num, frac, mod, slots);
      var r := Chunk(num, frac, mod, slots);
      && r[..|slots|] == p.entries
      && (|r| == |slots| + 1 <==> p.rest != 0)
      && (|r| == |slots| <==> p.rest == 0)
      && (forall i :: 0 <= i < |slots| ==> r[i] == Named(slots[i], r[i].num))
      && (p.rest != 0 ==> r[|slots|].Ones?)
  {
    PeelSlots(num, frac, mod, slots);
  }

  /** Entry i of the peeled list names slot i. */
  lemma {:induction false} PeelSlots(num: nat, frac: nat, mod: int, slots: seq<Slot>)
    requires slots != [] ==> mod >= 0
    ensures var p := Peel(num, frac, mod, slots);
      forall i :: 0 <= i < |slots| ==> p.entries[i] == Named(slots[i], p.entries[i].num)
    decreases |slots|
  {
    if slots != [] {
      var k := |slots|;
      var init := slots[..k - 1];
      PeelSlots(num, frac, mod, init);
      var prev := Peel(num, frac, mod, init);
      var p := Peel(num, frac, mod, slots);
      forall i | 0 <= i < k ensures p.entries[i] == Named(slots[i], p.entries[i].num) {
        if i < k - 1 {
          assert p.entries[i] == prev.entries[i];
          assert init[i] == slots[i];
        }
      }
    }
  }
}
