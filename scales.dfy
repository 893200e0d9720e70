/** The table of Buddhist scale words. Entry `ord` (0 <= ord <= 122) stands
    for 10^Zeros(ord); the words and their readings are opaque data here and
    are referred to by ordinal. */
module Scales {
  import opened Common

  const MaxOrdinal: nat := 122

  /** The zero count of the scale with this ordinal: 7, 14, 28, ... */
  function Zeros(ord: nat): nat {
    7 * Pow2(ord)
  }

  lemma ZerosDouble(ord: nat)
    ensures Zeros(ord + 1) == 2 * Zeros(ord)
  {
  }

  lemma ZerosMonotone(a: nat, b: nat)
    requires a <= b
    ensures Zeros(a) <= Zeros(b)
  {
    Pow2Monotone(a, b);
  }

  /** Length of the base-2 rendering of n, as `n.toString(2).length`
      (the rendering of 0 is "0", of length 1). */
  function BinaryLength(n: nat): nat {
    if n < 2 then 1 else 1 + BinaryLength(n / 2)
  }

  /** `log2Int`: the integer part of log2 of the (truncated) argument. */
  function Log2Int(x: nat): int {
    BinaryLength(x) - 1
  }

  /** The binary length brackets n between two consecutive powers of two, so
      `log2Int` is the floor of the base-2 logarithm. */
  lemma {:induction false} Log2IntBounds(x: nat)
    requires x >= 1
    ensures Log2Int(x) >= 0
    ensures Pow2(Log2Int(x)) <= x < Pow2(Log2Int(x) + 1)
  {
    if x >= 2 {
      Log2IntBounds(x / 2);
    }
  }

  /** Scale `ord` is the largest one that fits in `exp` zeros. */
  predicate Brackets(exp: nat, ord: nat) {
    Zeros(ord) <= exp < 2 * Zeros(ord)
  }

  /** The ordinal one step of `getScale` should pick for the remaining
      exponent: the one whose zero count does not exceed it while twice that
      count does. The ordinal may lie beyond the table; the caller reports
      that as an overflow. */
  ghost function SelectOrdinal(exp: nat): (ord: nat)
    requires exp >= 7
    ensures Zeros(ord) <= exp < 2 * Zeros(ord)
  {
    Log2Brackets(exp);
    assert Brackets(exp, Log2Int(exp / 7));
    var ord: nat :| Brackets(exp, ord);
    ord
  }

  lemma Log2Brackets(exp: nat)
    requires exp >= 7
    ensures Log2Int(exp / 7) >= 0
    ensures var o := Log2Int(exp / 7); Zeros(o) <= exp < 2 * Zeros(o)
  {
    Log2IntBounds(exp / 7);
    var o := Log2Int(exp / 7);
    var q := exp / 7;
    assert q <= Pow2(o + 1) - 1;
    assert exp < 7 * (q + 1);
  }

  lemma {:induction false} OrdinalUnique(exp: nat, o1: nat, o2: nat)
    requires Zeros(o1) <= exp < 2 * Zeros(o1)
    requires Zeros(o2) <= exp < 2 * Zeros(o2)
    ensures o1 == o2
  {
    if o1 < o2 {
      ZerosMonotone(o1 + 1, o2);
      ZerosDouble(o1);
    } else if o2 < o1 {
      ZerosMonotone(o2 + 1, o1);
      ZerosDouble(o2);
    }
  }

  /** What the source computes, `log2Int(floor(exp / 7))`, is that ordinal. */
  lemma Log2IntSelects(exp: nat)
    requires exp >= 7
    ensures Log2Int(exp / 7) == SelectOrdinal(exp)
  {
    Log2Brackets(exp);
    var o := Log2Int(exp / 7);
    OrdinalUnique(exp, o, SelectOrdinal(exp));
  }

  /** No larger scale fits: the selected ordinal is the unique greatest one
      whose zero count is at most `exp`. */
  lemma {:induction false} SelectOrdinalIsLargest(exp: nat, o: nat)
    requires exp >= 7
    ensures Zeros(o) <= exp <==> o <= SelectOrdinal(exp)
  {
    var ord := SelectOrdinal(exp);
    if o <= ord {
      ZerosMonotone(o, ord);
    } else {
      ZerosMonotone(ord + 1, o);
      ZerosDouble(ord);
    }
  }

  /** The magnitude needs a scale past the end of the table. */
  ghost predicate TooLarge(exp: nat) {
    exp >= 7 && SelectOrdinal(exp) > MaxOrdinal
  }

  /** Overflow happens exactly when floor(exp / 7) reaches 2^123, i.e. when
      `exp` is at least the zero count one step past the last entry. */
  lemma {:induction false} TooLargeIff(exp: nat)
    ensures TooLarge(exp) <==> exp / 7 >= Pow2(MaxOrdinal + 1)
    ensures TooLarge(exp) <==> exp >= Zeros(MaxOrdinal + 1)
  {
    if exp >= 7 {
      var ord := SelectOrdinal(exp);
      if ord > MaxOrdinal {
        Pow2Monotone(MaxOrdinal + 1, ord);
      } else {
        Pow2Monotone(ord + 1, MaxOrdinal + 1);
      }
    } else {
      assert Pow2(MaxOrdinal + 1) >= 1;
      assert Zeros(MaxOrdinal + 1) >= 7;
    }
  }
}
