/** `getScale`: which scale words apply to a normalised exponent, and at
    which cumulative digit position each one sits, highest first. */
module ScaleDecomposer {
  import opened Common
  import opened Scales

  /** One named slot: the scale ordinal and the position (power of ten) at
      which its 7-digit chunk sits. */
  datatype Slot = Slot(ord: nat, pos: nat)

  lemma {:induction false} NotTooLargeBelow(a: nat, b: nat)
    requires a <= b && !TooLarge(b)
    ensures !TooLarge(a)
  {
    TooLargeIff(a);
    TooLargeIff(b);
  }

  lemma SubtractChunks(x: nat, a: nat)
    requires 7 * a <= x
    ensures (x - 7 * a) / 7 == x / 7 - a && (x - 7 * a) % 7 == x % 7
  {
    var q, r := x / 7, x % 7;
    assert x - 7 * a == 7 * (q - a) + r;
  }

  /** Arithmetic facts about one step of the selection, kept in one place. */
  lemma StepFacts(exp: nat)
    requires exp >= 7
    ensures var ord := SelectOrdinal(exp); var a := Pow2(ord); var z := Zeros(ord);
      z == 7 * a && 7 <= z <= exp < 2 * z
      && (exp - z) / 7 == exp / 7 - a
      && (ord > 0 <==> a >= 2) && (ord > 0 ==> (z - 1) / 7 == a - 1)
  {
    var ord := SelectOrdinal(exp);
    var a := Pow2(ord);
    SubtractChunks(exp, a);
    if ord > 0 {
      assert 7 * a - 1 == 7 * (a - 1) + 6;
    }
  }

  /** The same step leaves the remainder modulo 7 alone. */
  lemma StepKeepsShift(exp: nat)
    requires exp >= 7
    ensures var z := Zeros(SelectOrdinal(exp));
      (exp - z) % 7 == exp % 7 && (exp - z < 7 ==> exp % 7 == exp - z)
  {
    SubtractChunks(exp, Pow2(SelectOrdinal(exp)));
  }

  /** The slot list `getScale(exp, pos)` returns when it does not overflow.
      Each step takes the largest scale that fits, first fills in the
      positions below it (unless that whole range lies under the floor
      `low`), then continues with what is left of the exponent above it; the
      slots found later are placed in front. */
  ghost function Decompose(exp: nat, pos: nat, low: nat): seq<Slot>
    requires !TooLarge(exp)
    decreases exp
  {
    if exp < 7 then []
    else
      var ord := SelectOrdinal(exp);
      var z := Zeros(ord);
      NotTooLargeBelow(z - 1, exp);
      NotTooLargeBelow(exp - z, exp);
      var sub := if ord > 0 && z - 1 + pos >= low then Decompose(z - 1, pos, low) else [];
      Decompose(exp - z, pos + z, low) + [Slot(ord, pos + z)] + sub
  }

  /** One step of the definition, unfolded, with its pieces named. */
  lemma Unfold(exp: nat, pos: nat, low: nat) returns (ord: nat, z: nat, a: nat, later: seq<Slot>, sub: seq<Slot>)
    requires !TooLarge(exp) && exp >= 7
    ensures ord == SelectOrdinal(exp) && a == Pow2(ord) && z == Zeros(ord)
    ensures z == 7 * a && 7 <= z <= exp < 2 * z && ord <= MaxOrdinal
    ensures 1 <= a <= exp / 7 && (exp - z) / 7 == exp / 7 - a
    ensures (ord > 0 <==> a >= 2) && (ord > 0 ==> (z - 1) / 7 == a - 1)
    ensures !TooLarge(exp - z) && later == Decompose(exp - z, pos + z, low)
    ensures ord > 0 && z - 1 + pos >= low ==> !TooLarge(z - 1) && sub == Decompose(z - 1, pos, low)
    ensures !(ord > 0 && z - 1 + pos >= low) ==> sub == []
    ensures Decompose(exp, pos, low) == later + [Slot(ord, pos + z)] + sub
  {
    ord := SelectOrdinal(exp);
    a := Pow2(ord);
    z := Zeros(ord);
    StepFacts(exp);
    NotTooLargeBelow(z - 1, exp);
    NotTooLargeBelow(exp - z, exp);
    later := Decompose(exp - z, pos + z, low);
    sub := if ord > 0 && z - 1 + pos >= low then Decompose(z - 1, pos, low) else [];
  }

  /** `currExp.div(7).log2Int()`: the ordinal of the largest scale that
      fits, which may lie past the end of the table. */
  method ScaleOrdinal(currExp: nat) returns (ord: nat)
    requires currExp >= 7
    ensures ord == SelectOrdinal(currExp)
    ensures Zeros(ord) <= currExp < 2 * Zeros(ord)
  {
    Log2IntSelects(currExp);
    ord := Log2Int(currExp / 7);
  }

  /** One step of the definition for a caller that already holds the
      ordinal `ord`, its zero count `z` and the list `below` for the range
      under it. */
  lemma DecomposeStep(exp: nat, pos: nat, low: nat, ord: nat, z: nat, below: seq<Slot>)
    requires !TooLarge(exp) && exp >= 7 && ord == SelectOrdinal(exp) && z == Zeros(ord)
    requires ord > 0 && z - 1 + pos >= low ==> !TooLarge(z - 1) && below == Decompose(z - 1, pos, low)
    requires !(ord > 0 && z - 1 + pos >= low) ==> below == []
    ensures !TooLarge(exp - z)
    ensures Decompose(exp, pos, low) == Decompose(exp - z, pos + z, low) + [Slot(ord, pos + z)] + below
  {
    NotTooLargeBelow(exp - z, exp);
  }

  /** What one pass of the loop in GetScale preserves: `mid` is the list
      after the range below the chosen scale was prepended, `next` the list
      after the scale's own slot was. */
  lemma LoopStep(exp: nat, pos: nat, low: nat, currExp: nat, currPos: nat, ord: nat, z: nat,
                 before: seq<Slot>, below: seq<Slot>, mid: seq<Slot>, next: seq<Slot>)
    requires !TooLarge(exp) && currExp >= 7 && ord == SelectOrdinal(currExp) && z == Zeros(ord)
    requires !TooLarge(currExp) && Decompose(exp, pos, low) == Decompose(currExp, currPos, low) + before
    requires ord > 0 && z - 1 + currPos >= low ==> !TooLarge(z - 1) && below == Decompose(z - 1, currPos, low)
    requires !(ord > 0 && z - 1 + currPos >= low) ==> below == []
    requires mid == below + before && next == [Slot(ord, currPos + z)] + mid
    ensures !TooLarge(currExp - z)
    ensures Decompose(exp, pos, low) == Decompose(currExp - z, currPos + z, low) + next
  {
    DecomposeStep(currExp, currPos, low, ord, z, below);
    var later := Decompose(currExp - z, currPos + z, low);
    JoinAssoc(later + [Slot(ord, currPos + z)], below, before);
    JoinAssoc(later, [Slot(ord, currPos + z)], below + before);
  }

  /** `getScale`: the source's `while (true)` loop, which picks a scale per
      step, recurses into the range below it and prepends what it finds. It
      fails exactly when the first scale needed lies past ordinal 122. */
  method GetScale(exp: nat, pos: nat, expLow: nat) returns (r: Result<seq<Slot>, ConversionError>)
    ensures r.Err? <==> TooLarge(exp)
    ensures r.Err? ==> r.error == MagnitudeTooLarge
    ensures r.Ok? ==> r.value == Decompose(exp, pos, expLow)
    decreases exp
  {
    var currExp: nat, currPos: nat := exp, pos;
    var scales: seq<Slot> := [];
    while true
      invariant currExp <= exp
      invariant TooLarge(exp) ==> currExp == exp
      invariant !TooLarge(exp) ==>
        (!TooLarge(currExp) && Decompose(exp, pos, expLow) == Decompose(currExp, currPos, expLow) + scales)
      decreases currExp
    {
      if currExp < 7 { break; }
      var ord := ScaleOrdinal(currExp);
      if ord > MaxOrdinal {
        return Err(MagnitudeTooLarge);
      }
      var z := Zeros(ord);
      NotTooLargeBelow(z - 1, exp);
      ghost var before := scales;
      ghost var below: seq<Slot> := [];
      if ord > 0 {
        var nextExp := z - 1;
        if nextExp + currPos >= expLow {
          var sub := GetScale(nextExp, currPos, expLow);
          if sub.Err? { assert false; }
          below := sub.value;
          scales := sub.value + scales;
        }
      }
      assert scales == below + before by {
        if below == [] { assert below + before == before; }
      }
      assert !TooLarge(exp);
      LoopStep(exp, pos, expLow, currExp, currPos, ord, z, before, below, scales, [Slot(ord, currPos + z)] + scales);
      currExp := currExp - z;
      currPos := currPos + z;
      scales := [Slot(ord, currPos)] + scales;
    }
    return Ok(scales);
  }

  function Positions(s: seq<Slot>): (r: seq<nat>)
    ensures |r| == |s|
  {
    if s == [] then [] else [s[0].pos] + Positions(s[1..])
  }

  lemma {:induction false} PositionsAppend(a: seq<Slot>, b: seq<Slot>)
    ensures Positions(a + b) == Positions(a) + Positions(b)
  {
    if a != [] {
      assert (a + b)[1..] == a[1..] + b;
      PositionsAppend(a[1..], b);
    } else {
      assert a + b == b;
    }
  }

  /** Positions strictly decrease along the list. */
  predicate Descending(d: seq<Slot>) {
    forall i, j :: 0 <= i < j < |d| ==> d[i].pos > d[j].pos
  }

  /** Every slot sits in (lo, hi] and names an entry of the table. */
  predicate Within(d: seq<Slot>, lo: nat, hi: nat) {
    forall i :: 0 <= i < |d| ==> lo < d[i].pos <= hi && d[i].ord <= MaxOrdinal
  }

  lemma {:induction false} JoinDescending(later: seq<Slot>, s: Slot, sub: seq<Slot>, lo: nat, hi: nat, loLater: nat, hiLater: nat, hiSub: nat)
    requires lo < s.pos <= hi && s.ord <= MaxOrdinal && loLater == s.pos && hiLater == hi && hiSub < s.pos
    requires Descending(later) && Within(later, loLater, hiLater)
    requires Descending(sub) && Within(sub, lo, hiSub)
    ensures Descending(later + [s] + sub) && Within(later + [s] + sub, lo, hi)
  {
    var d := later + [s] + sub;
    forall i | 0 <= i < |d| ensures lo < d[i].pos <= hi && d[i].ord <= MaxOrdinal {
      if i < |later| { assert d[i] == later[i]; }
      else if i > |later| { assert d[i] == sub[i - |later| - 1]; }
    }
    forall i, j | 0 <= i < j < |d| ensures d[i].pos > d[j].pos {
      if j < |later| {
        assert d[i] == later[i] && d[j] == later[j];
      } else if i > |later| {
        assert d[i] == sub[i - |later| - 1] && d[j] == sub[j - |later| - 1];
      } else if i < |later| {
        assert d[i] == later[i];
      } else {
        assert d[j] == sub[j - |later| - 1];
      }
    }
  }

  /** Every slot lies strictly above `pos` and at most `pos + exp` and names
      an entry of the table, and positions strictly decrease ("ordering
      higher to lower"). */
  lemma {:induction false} DecomposeOrdered(exp: nat, pos: nat, low: nat)
    requires !TooLarge(exp)
    ensures Descending(Decompose(exp, pos, low))
    ensures Within(Decompose(exp, pos, low), pos, pos + exp)
    decreases exp
  {
    if exp >= 7 {
      var ord, z, a, later, sub := Unfold(exp, pos, low);
      DecomposeOrdered(exp - z, pos + z, low);
      if ord > 0 && z - 1 + pos >= low {
        DecomposeOrdered(z - 1, pos, low);
        JoinDescending(later, Slot(ord, pos + z), sub, pos, pos + exp, pos + z, pos + z + (exp - z), pos + (z - 1));
      } else {
        assert Descending([]) && Within([], pos, pos);
        JoinDescending(later, Slot(ord, pos + z), [], pos, pos + exp, pos + z, pos + z + (exp - z), pos);
      }
    }
  }

  /** For exp >= 7 the first (highest) slot sits at the largest multiple of 7
      that is at most `exp` above `pos`; so the first chunk is shifted by
      `exp mod 7`, the `mod` the caller computes. */
  lemma {:induction false} DecomposeFirst(exp: nat, pos: nat, low: nat)
    requires !TooLarge(exp) && exp >= 7
    ensures var d := Decompose(exp, pos, low);
      |d| > 0 && d[0].pos == pos + exp - exp % 7
    decreases exp
  {
    var ord, z, a, later, sub := Unfold(exp, pos, low);
    StepKeepsShift(exp);
    if exp - z >= 7 {
      DecomposeFirst(exp - z, pos + z, low);
      assert (later + [Slot(ord, pos + z)] + sub)[0] == later[0];
    } else {
      assert later == [];
      assert (later + [Slot(ord, pos + z)] + sub)[0] == Slot(ord, pos + z);
    }
  }

  /** Multiples of 7 above `pos`, from `pos + 7*k` down to `pos + 7`. */
  function Countdown(pos: nat, k: nat): (r: seq<nat>)
    ensures |r| == k
  {
    if k == 0 then [] else [pos + 7 * k] + Countdown(pos, k - 1)
  }

  lemma {:induction false} CountdownSplit(pos: nat, a: nat, m: nat)
    ensures Countdown(pos + 7 * a, m) + Countdown(pos, a) == Countdown(pos, a + m)
  {
    if m > 0 {
      CountdownSplit(pos, a, m - 1);
      assert pos + 7 * a + 7 * m == pos + 7 * (a + m);
    }
  }

  lemma {:induction false} JoinCountdown(later: seq<Slot>, s: Slot, sub: seq<Slot>, pos: nat, z: nat, m: nat, k: nat, n: nat)
    requires z == 7 * (k + 1) && s.pos == pos + z && n == k + 1 + m
    requires Positions(later) == Countdown(pos + z, m)
    requires Positions(sub) == Countdown(pos, k)
    ensures Positions(later + [s] + sub) == Countdown(pos, n)
  {
    PositionsAppend(later + [s], sub);
    PositionsAppend(later, [s]);
    assert Positions([s]) == [s.pos];
    assert [s.pos] + Countdown(pos, k) == Countdown(pos, k + 1);
    CountdownSplit(pos, k + 1, m);
  }

  /** With no floor in the way (`low <= pos`, e.g. expLow = 0 at the top
      call), the positions are exactly pos + 7*floor(exp/7), ..., pos + 14,
      pos + 7, each once. */
  lemma {:induction false} DecomposeComplete(exp: nat, pos: nat, low: nat)
    requires !TooLarge(exp) && low <= pos
    ensures Positions(Decompose(exp, pos, low)) == Countdown(pos, exp / 7)
    decreases exp
  {
    if exp >= 7 {
      var ord, z, a, later, sub := Unfold(exp, pos, low);
      DecomposeComplete(exp - z, pos + z, low);
      if ord > 0 {
        DecomposeComplete(z - 1, pos, low);
        JoinCountdown(later, Slot(ord, pos + z), sub, pos, z, (exp - z) / 7, (z - 1) / 7, exp / 7);
      } else {
        JoinCountdown(later, Slot(ord, pos + z), sub, pos, z, (exp - z) / 7, 0, exp / 7);
      }
    }
  }

  /** A position found in one of the three parts is found in the joined list. */
  lemma InJoin(later: seq<Slot>, s: Slot, sub: seq<Slot>, part: nat, j: nat, p: nat) returns (i: nat)
    requires part == 0 ==> j < |later| && later[j].pos == p
    requires part == 1 ==> s.pos == p
    requires part == 2 ==> j < |sub| && sub[j].pos == p
    requires part <= 2
    ensures i < |later + [s] + sub| && (later + [s] + sub)[i].pos == p
  {
    var d := later + [s] + sub;
    if part == 0 {
      i := j;
      assert d[i] == later[j];
    } else if part == 1 {
      i := |later|;
      assert d[i] == s;
    } else {
      i := |later| + 1 + j;
      assert d[i] == sub[j];
    }
  }

  /** Pruning only drops positions whose whole seven-digit chunk lies
      under the floor: every multiple of 7 in range whose chunk reaches
      `low` has its slot, found at index `i`. */
  lemma {:induction false} DecomposeCovers(exp: nat, pos: nat, low: nat, k: nat) returns (i: nat)
    requires !TooLarge(exp)
    requires 1 <= k <= exp / 7 && pos + 7 * k + 6 >= low
    ensures i < |Decompose(exp, pos, low)| && Decompose(exp, pos, low)[i].pos == pos + 7 * k
    decreases exp
  {
    var ord, z, a, later, sub := Unfold(exp, pos, low);
    var s := Slot(ord, pos + z);
    if k > a {
      var j := DecomposeCovers(exp - z, pos + z, low, k - a);
      i := InJoin(later, s, sub, 0, j, pos + 7 * k);
    } else if k < a {
      var j := DecomposeCovers(z - 1, pos, low, k);
      i := InJoin(later, s, sub, 2, j, pos + 7 * k);
    } else {
      i := InJoin(later, s, sub, 1, 0, pos + 7 * k);
    }
  }

  /** The omitted multiples of 7 all lie more than six places below the
      floor: any one in range whose chunk reaches the floor is the position
      of some slot. */
  lemma SlotAtOrAboveFloor(exp: nat, pos: nat, low: nat, k: nat)
    requires !TooLarge(exp)
    requires 1 <= k <= exp / 7 && pos + 7 * k + 6 >= low
    ensures exists i :: 0 <= i < |Decompose(exp, pos, low)| && Decompose(exp, pos, low)[i].pos == pos + 7 * k
  {
    var i := DecomposeCovers(exp, pos, low, k);
  }

  /** Every position lies a whole number of chunks above `pos`. */
  predicate OnSevens(d: seq<Slot>, pos: nat) {
    forall i :: 0 <= i < |d| ==> d[i].pos % 7 == pos % 7
  }

  lemma {:induction false} JoinSevens(later: seq<Slot>, s: Slot, sub: seq<Slot>, pos: nat, z: nat)
    requires z % 7 == 0 && s.pos == pos + z
    requires OnSevens(later, pos + z) && OnSevens(sub, pos)
    ensures OnSevens(later + [s] + sub, pos)
  {
    var d := later + [s] + sub;
    forall i | 0 <= i < |d| ensures d[i].pos % 7 == pos % 7 {
      if i < |later| {
        assert d[i] == later[i];
      } else if i > |later| {
        assert d[i] == sub[i - |later| - 1];
      }
    }
  }

  lemma {:induction false} DecomposeSevens(exp: nat, pos: nat, low: nat)
    requires !TooLarge(exp)
    ensures OnSevens(Decompose(exp, pos, low), pos)
    decreases exp
  {
    if exp >= 7 {
      var ord, z, a, later, sub := Unfold(exp, pos, low);
      DecomposeSevens(exp - z, pos + z, low);
      if ord > 0 && z - 1 + pos >= low {
        DecomposeSevens(z - 1, pos, low);
      }
      JoinSevens(later, Slot(ord, pos + z), sub, pos, z);
    }
  }

  /** The lowest chunk index the floor cannot prune: `floor(low / 7)`, and
      at least 1. */
  function FirstKept(low: nat): (k: nat)
    ensures k >= 1 && 7 * k + 6 >= low
    ensures low >= 7 ==> 7 * k <= low
  {
    if low < 7 then 1 else low / 7
  }

  /** From the top call, the list starts with every multiple of 7 from
      7*floor(exp/7) down to the lowest chunk the floor keeps, in order:
      slot i sits at 7*(floor(exp/7) - i). */
  lemma {:induction false} DecomposeTop(exp: nat, low: nat, i: nat)
    requires !TooLarge(exp) && low <= exp && exp >= 7
    requires i <= exp / 7 - FirstKept(low)
    ensures var d := Decompose(exp, 0, low);
      i < |d| && d[i].pos == 7 * (exp / 7 - i)
  {
    var d := Decompose(exp, 0, low);
    var n := exp / 7;
    if i == 0 {
      DecomposeFirst(exp, 0, low);
    } else {
      DecomposeTop(exp, low, i - 1);
      var j := DecomposeCovers(exp, 0, low, n - i);
      DecomposeOrdered(exp, 0, low);
      DecomposeSevens(exp, 0, low);
      assert j >= i;
      assert d[i].pos >= d[j].pos;
      assert d[i].pos < d[i - 1].pos && d[i].pos % 7 == 0;
      NextSeven(d[i - 1].pos, d[i].pos, 7 * (n - i));
    }
  }

  /** A multiple of 7 below lo + 7 and at least lo, a multiple of 7, is lo. */
  lemma NextSeven(prev: nat, cur: nat, lo: nat)
    requires cur < prev && prev == lo + 7 && lo <= cur && cur % 7 == 0 && lo % 7 == 0
    ensures cur == lo
  {
  }

  /** A floor within the lowest chunk prunes nothing: the list is exactly
      the multiples of 7 from 7*floor(exp/7) down to 7. */
  lemma DecomposeTopAll(exp: nat, low: nat)
    requires !TooLarge(exp) && low <= exp && exp >= 7 && low < 7
    ensures |Decompose(exp, 0, low)| == exp / 7
  {
    var d := Decompose(exp, 0, low);
    var n := exp / 7;
    DecomposeTop(exp, low, n - 1);
    DecomposeOrdered(exp, 0, low);
    DecomposeSevens(exp, 0, low);
    var last := |d| - 1;
    SevensBelow(d, n, last);
    assert d[last].pos >= 7 by {
      assert d[last].pos > 0 && d[last].pos % 7 == 0;
    }
  }

  /** In a descending list of multiples of 7 that starts at or below 7n,
      slot i sits at or below 7(n - i). */
  lemma {:induction false} SevensBelow(d: seq<Slot>, n: nat, i: nat)
    requires Descending(d) && OnSevens(d, 0) && i < |d| && d[0].pos <= 7 * n
    ensures d[i].pos + 7 * i <= 7 * n
  {
    if i > 0 {
      SevensBelow(d, n, i - 1);
      assert d[i].pos < d[i - 1].pos;
      assert d[i].pos % 7 == 0 && d[i - 1].pos % 7 == 0;
    }
  }

  /** The prefix the floor cannot prune, as one statement: its length n,
      its positions, and that it is the whole list for a floor within the
      lowest chunk. */
  lemma DecomposeHead(exp: nat, low: nat)
    requires !TooLarge(exp) && low <= exp && exp >= 7
    ensures var d := Decompose(exp, 0, low);
      var n := exp / 7 - FirstKept(low) + 1;
      && 1 <= n <= |d| && 7 * FirstKept(low) <= exp
      && (forall i :: 0 <= i < n ==> d[i].pos == 7 * (exp / 7 - i))
      && (low < 7 ==> n == |d|)
  {
    var d := Decompose(exp, 0, low);
    var k0 := FirstKept(low);
    var n := exp / 7 - k0 + 1;
    assert k0 <= exp / 7;
    DecomposeTop(exp, low, n - 1);
    forall i | 0 <= i < n ensures d[i].pos == 7 * (exp / 7 - i) {
      DecomposeTop(exp, low, i);
    }
    if low < 7 {
      DecomposeTopAll(exp, low);
    }
  }
}
