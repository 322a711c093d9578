/** Bits of unbounded naturals: shifts, masks and reversal by recursion on the bits, and
    the word-parallel loop of rev in dict.c. */
module ReverseBits {
  import opened Prelude

  /** x & (2^a - 1). */
  function Low(x: nat, a: nat): (r: nat)
    ensures r < Pow2(a) && r <= x
  {
    if a == 0 then 0 else x % 2 + 2 * Low(x / 2, a - 1)
  }

  /** x >> a. */
  function Shr(x: nat, a: nat): nat {
    if a == 0 then x else Shr(x / 2, a - 1)
  }

  /** x << a. */
  function Shl(x: nat, a: nat): nat {
    if a == 0 then x else 2 * Shl(x, a - 1)
  }

  /** The low w bits of x in reverse order. */
  function Rev(x: nat, w: nat): (r: nat)
    ensures r < Pow2(w)
  {
    if w == 0 then 0 else (if x % 2 == 1 then Pow2(w - 1) else 0) + Rev(x / 2, w - 1)
  }

  // ----- masks and remainders ---------------------------------------------------

  lemma MulMonotone(d: nat, a: int, b: int)
    requires a <= b
    ensures d * a <= d * b
  {
    assert d * (b - a) >= 0;
  }

  lemma DivUnique(x: nat, d: nat, q: nat, r: nat)
    requires d > 0 && r < d && x == d * q + r
    ensures x / d == q && x % d == r
  {
    var q' := x / d;
    assert d * q' <= x < d * q' + d;
    if q' < q {
      MulMonotone(d, q' + 1, q);
    } else if q < q' {
      MulMonotone(d, q + 1, q');
    }
  }

  lemma ModDouble(x: nat, p: nat)
    requires p > 0
    ensures x % (2 * p) == x % 2 + 2 * (x / 2 % p)
  {
    var q, r := x / 2 / p, x / 2 % p;
    assert x / 2 == p * q + r;
    assert 2 * (p * q) == 2 * p * q;
    DivUnique(x, 2 * p, q, x % 2 + 2 * r);
  }

  /** A bucket index, h & sizemask, is the remainder by the size. */
  lemma {:induction false} LowIsMod(x: nat, a: nat)
    ensures Low(x, a) == x % Pow2(a)
  {
    if a == 0 {
      assert Pow2(0) == 1;
    } else {
      LowIsMod(x / 2, a - 1);
      ModDouble(x, Pow2(a - 1));
    }
  }

  lemma {:induction false} LowSmall(x: nat, a: nat)
    requires x < Pow2(a)
    ensures Low(x, a) == x
  {
    if a > 0 { LowSmall(x / 2, a - 1); }
  }

  lemma {:induction false} ShrSmall(x: nat, a: nat)
    requires x < Pow2(a)
    ensures Shr(x, a) == 0
  {
    if a > 0 { ShrSmall(x / 2, a - 1); }
  }

  lemma {:induction false} LowLow(x: nat, j: nat, w: nat)
    requires j <= w
    ensures Low(Low(x, w), j) == Low(x, j)
  {
    if j > 0 {
      LowLow(x / 2, j - 1, w - 1);
      assert Low(x, w) / 2 == Low(x / 2, w - 1);
    }
  }

  lemma {:induction false} ShrLow(x: nat, a: nat, b: nat)
    ensures Low(Shr(x, a), b) == Shr(Low(x, a + b), a)
  {
    if a > 0 {
      ShrLow(x / 2, a - 1, b);
      assert a - 1 + b == a + b - 1;
    }
  }

  lemma {:induction false} ShlAdd(x: nat, y: nat, c: nat)
    ensures Shl(x + y, c) == Shl(x, c) + Shl(y, c)
  {
    if c > 0 { ShlAdd(x, y, c - 1); }
  }

  lemma {:induction false} ShlPow2(a: nat, c: nat)
    ensures Shl(Pow2(a), c) == Pow2(a + c)
    ensures Shl(1, c) == Pow2(c)
    ensures Shl(0, c) == 0
  {
    if c > 0 {
      ShlPow2(a, c - 1);
      assert a + c - 1 == a + (c - 1);
    }
  }

  /** Multiples of 2^c one apart are 2^c apart. */
  lemma ShlNext(x: nat, c: nat)
    ensures Shl(x + 1, c) == Shl(x, c) + Pow2(c)
  {
    ShlAdd(x, 1, c);
    ShlPow2(0, c);
  }

  lemma ShlMonotone(x: nat, y: nat, c: nat)
    requires x <= y
    ensures Shl(x, c) <= Shl(y, c)
  {
    ShlAdd(x, y - x, c);
  }

  /** Splitting and joining words. */
  lemma {:induction false} Join(low: nat, y: nat, a: nat)
    requires low < Pow2(a)
    ensures Low(low + Shl(y, a), a) == low && Shr(low + Shl(y, a), a) == y
  {
    if a > 0 {
      Join(low / 2, y, a - 1);
      assert (low + Shl(y, a)) / 2 == low / 2 + Shl(y, a - 1);
      assert (low + Shl(y, a)) % 2 == low % 2;
    }
  }

  lemma {:induction false} LowShl(q: nat, a: nat, c: nat)
    ensures Low(Shl(q, c), a + c) == Shl(Low(q, a), c)
  {
    if c > 0 {
      LowShl(q, a, c - 1);
      assert a + c - 1 == a + (c - 1);
      assert Shl(q, c) / 2 == Shl(q, c - 1) && Shl(q, c) % 2 == 0;
    }
  }

  // ----- reversal -----------------------------------------------------------------

  /** Reversing a + c bits puts the reversed low a bits on top. */
  lemma {:induction false} RevSplit(x: nat, a: nat, c: nat)
    ensures Rev(x, a + c) == Shl(Rev(x, a), c) + Rev(Shr(x, a), c)
  {
    if a == 0 {
      ShlPow2(0, c);
    } else {
      var top := if x % 2 == 1 then Pow2(a - 1) else 0;
      RevSplit(x / 2, a - 1, c);
      ShlAdd(top, Rev(x / 2, a - 1), c);
      ShlPow2(a - 1, c);
      assert a - 1 + c == a + c - 1;
    }
  }

  /** Only the low w bits matter, and they are recovered from the reversal. */
  lemma {:induction false} RevInjective(x: nat, y: nat, w: nat)
    ensures Rev(x, w) == Rev(y, w) <==> Low(x, w) == Low(y, w)
  {
    if w > 0 { RevInjective(x / 2, y / 2, w - 1); }
  }

  /** Reversing one more bit at the top appends it at the bottom. */
  lemma RevTop(q: nat, b: nat, w: nat)
    requires q < Pow2(w) && b < 2
    ensures Rev(q + Shl(b, w), w + 1) == 2 * Rev(q, w) + b
  {
    var r := q + Shl(b, w);
    assert Rev(r, w + 1) == Shl(Rev(r, w), 1) + Rev(Shr(r, w), 1) by { RevSplit(r, w, 1); }
    assert Low(r, w) == q && Shr(r, w) == b by { Join(q, b, w); }
    assert Rev(r, w) == Rev(q, w) by {
      LowSmall(q, w);
      RevInjective(r, q, w);
    }
    assert Shl(Rev(r, w), 1) == 2 * Shl(Rev(r, w), 0);
    assert Rev(b, 1) == (if b % 2 == 1 then Pow2(0) else 0) + Rev(b / 2, 0);
  }

  lemma {:induction false} RevRev(x: nat, w: nat)
    ensures Rev(Rev(x, w), w) == Low(x, w)
  {
    if w > 0 {
      var q, b := Rev(x / 2, w - 1), x % 2;
      assert Rev(x, w) == q + Shl(b, w - 1) by { ShlPow2(0, w - 1); }
      RevTop(q, b, w - 1);
      RevRev(x / 2, w - 1);
    }
  }

  lemma {:induction false} RevOnes(w: nat)
    ensures Rev(Pow2(w) - 1, w) == Pow2(w) - 1
  {
    if w > 0 {
      RevOnes(w - 1);
      var x := Pow2(w) - 1;
      assert x / 2 == Pow2(w - 1) - 1 && x % 2 == 1;
    }
  }

  lemma {:induction false} RevZero(w: nat)
    ensures Rev(0, w) == 0 && Low(0, w) == 0
  {
    if w > 0 { RevZero(w - 1); }
  }

  // ----- the loop of rev ------------------------------------------------------------

  /** A machine word of 64 bits, bit 0 first. */
  type Word = w: seq<bool> | |w| == 64 witness seq(64, i => false)

  function ShiftLeft(x: Word, s: nat): Word { seq(64, i requires 0 <= i < 64 => i >= s && x[i - s]) }
  function ShiftRight(x: Word, s: nat): Word { seq(64, i requires 0 <= i < 64 => i + s < 64 && x[i + s]) }
  function Xor(x: Word, y: Word): Word { seq(64, i requires 0 <= i < 64 => x[i] != y[i]) }
  function And(x: Word, y: Word): Word { seq(64, i requires 0 <= i < 64 => x[i] && y[i]) }
  function Or(x: Word, y: Word): Word { seq(64, i requires 0 <= i < 64 => x[i] || y[i]) }
  function Not(x: Word): Word { seq(64, i requires 0 <= i < 64 => !x[i]) }

  /** Where bit i comes from once blocks of s bits stand in reverse order. */
  function BlockSource(i: nat, s: nat): int
    requires s > 0
  {
    64 - s - i + 2 * (i % s)
  }

  /** The mask that selects the lower block of each pair of blocks of s bits. */
  predicate SelectsLower(mask: Word, s: nat)
    requires s > 0
  {
    forall i :: 0 <= i < 64 ==> (mask[i] <==> i / s % 2 == 0)
  }

  predicate BlocksReversed(v: Word, v0: Word, s: nat)
    requires s > 0
  {
    forall i :: 0 <= i < 64 ==> 0 <= BlockSource(i, s) < 64 && v[i] == v0[BlockSource(i, s)]
  }

  predicate IsBlockSize(s: nat) {
    s == 1 || s == 2 || s == 4 || s == 8 || s == 16 || s == 32
  }

  /** Blocks of s bits within blocks of 2s bits. */
  lemma HalfBlock(i: nat, s: nat)
    requires s > 0
    ensures i / s == 2 * (i / (2 * s)) + (if i % (2 * s) < s then 0 else 1)
    ensures i % s == i % (2 * s) - (if i % (2 * s) < s then 0 else s)
  {
    var q, r := i / (2 * s), i % (2 * s);
    assert i == 2 * s * q + r;
    if r < s {
      assert s * (2 * q) == 2 * s * q;
      DivUnique(i, s, 2 * q, r);
    } else {
      assert s * (2 * q + 1) == 2 * s * q + s;
      DivUnique(i, s, 2 * q + 1, r - s);
    }
  }

  /** The last block of 2s bits ends where the word does. */
  lemma LastBlock(i: nat, s: nat)
    requires IsBlockSize(s) && i < 64
    ensures i % (2 * s) + (64 - 2 * s) >= i
  {
    if s == 1 {
      assert i % (2 * s) == i % 2;
    } else if s == 2 {
      assert i % (2 * s) == i % 4;
    } else if s == 4 {
      assert i % (2 * s) == i % 8;
    } else if s == 8 {
      assert i % (2 * s) == i % 16;
    } else if s == 16 {
      assert i % (2 * s) == i % 32;
    } else {
      assert i % (2 * s) == i % 64;
    }
  }

  lemma ModShift(x: nat, k: int, d: nat)
    requires d > 0 && x + k >= 0 && 0 <= x % d + k < d
    ensures (x + k) / d == x / d && (x + k) % d == x % d + k
  {
    DivUnique(x + k, d, x / d, x % d + k);
  }

  lemma ModBack(x: nat, d: nat)
    requires d > 0 && x >= d
    ensures (x - d) / d == x / d - 1 && (x - d) % d == x % d
  {
    var q := x / d;
    assert d * (q - 1) == d * q - d;
    DivUnique(x - d, d, q - 1, x % d);
  }

  lemma BelowDivisor(i: nat, d: nat)
    requires i < d
    ensures i % d == i
  {
    DivUnique(i, d, 0, i);
  }

  lemma ShiftedBlock(i: nat, s: nat, d: nat)
    requires s > 0 && d == 2 * s && s <= i
    ensures (i - s) / d == if i % d < s then i / d - 1 else i / d
  {
    if i % d < s {
      if i < d { BelowDivisor(i, d); }
      ModBack(i, d);
      ModShift(i - d, s, d);
    } else {
      ModShift(i, 0 - s, d);
    }
  }

  lemma HalvedBit(s: nat, i: nat)
    requires IsBlockSize(s) && i < 64
    ensures (i / (2 * s) % 2 == 0) != (i >= s && (i - s) / (2 * s) % 2 == 0) <==> i / s % 2 == 0
  {
    HalfBlock(i, s);
    var q, low := i / (2 * s), i % (2 * s) < s;
    if i >= s {
      ShiftedBlock(i, s, 2 * s);
    } else {
      BelowDivisor(i, 2 * s);
    }
    assert i / s % 2 == if low then 0 else 1;
  }

  lemma HalvedMask(mask: Word, s: nat, i: nat)
    requires IsBlockSize(s) && SelectsLower(mask, 2 * s) && i < 64
    ensures Xor(mask, ShiftLeft(mask, s))[i] <==> i / s % 2 == 0
  {
    HalvedBit(s, i);
  }

  lemma BlockParity(s: nat, i: nat)
    requires IsBlockSize(s) && i < 64
    ensures i / s % 2 == 0 <==> i % (2 * s) < s
    ensures i % s == i % (2 * s) - (if i % (2 * s) < s then 0 else s)
    ensures i % (2 * s) + (64 - 2 * s) >= i >= i % (2 * s)
  {
    HalfBlock(i, s);
    LastBlock(i, s);
  }

  lemma SwapSource(s: nat, i: nat)
    requires IsBlockSize(s) && i < 64
    ensures var j := if i / s % 2 == 0 then i + s else i - s;
            0 <= j < 64 && BlockSource(j, 2 * s) == BlockSource(i, s) && 0 <= BlockSource(i, s) < 64
  {
    BlockParity(s, i);
    var d := 2 * s;
    var r := i % d;
    if r < s { ModShift(i, s, d); } else { ModShift(i, 0 - s, d); }
  }

  lemma SwappedBlocks(v: Word, v0: Word, mask: Word, s: nat, i: nat)
    requires IsBlockSize(s) && SelectsLower(mask, s) && BlocksReversed(v, v0, 2 * s) && i < 64
    ensures 0 <= BlockSource(i, s) < 64
    ensures Or(And(ShiftRight(v, s), mask), And(ShiftLeft(v, s), Not(mask)))[i] == v0[BlockSource(i, s)]
  {
    SwapSource(s, i);
  }

  lemma NextMask(mask: Word, s: nat)
    requires IsBlockSize(s) && SelectsLower(mask, 2 * s)
    ensures SelectsLower(Xor(mask, ShiftLeft(mask, s)), s)
  {
    forall i | 0 <= i < 64 ensures Xor(mask, ShiftLeft(mask, s))[i] <==> i / s % 2 == 0 {
      HalvedMask(mask, s, i);
    }
  }

  lemma NextBlocks(v: Word, v0: Word, mask: Word, s: nat)
    requires IsBlockSize(s) && SelectsLower(mask, s) && BlocksReversed(v, v0, 2 * s)
    ensures BlocksReversed(Or(And(ShiftRight(v, s), mask), And(ShiftLeft(v, s), Not(mask))), v0, s)
  {
    var w := Or(And(ShiftRight(v, s), mask), And(ShiftLeft(v, s), Not(mask)));
    forall i | 0 <= i < 64 ensures 0 <= BlockSource(i, s) < 64 && w[i] == v0[BlockSource(i, s)] {
      SwappedBlocks(v, v0, mask, s, i);
    }
  }

  /** One turn of the loop of rev. */
  method SwapBlocks(v: Word, mask: Word, s: nat, ghost v0: Word) returns (w: Word, m: Word)
    requires IsBlockSize(s) && SelectsLower(mask, 2 * s) && BlocksReversed(v, v0, 2 * s)
    ensures SelectsLower(m, s) && BlocksReversed(w, v0, s)
  {
    m := Xor(mask, ShiftLeft(mask, s));
    NextMask(mask, s);
    w := Or(And(ShiftRight(v, s), m), And(ShiftLeft(v, s), Not(m)));
    NextBlocks(v, v0, m, s);
  }

  lemma HalfSize(s: nat, t: nat)
    requires (s == 64 || IsBlockSize(s)) && s > 1 && t == s / 2
    ensures IsBlockSize(t) && 2 * t == s
  {
  }

  lemma WholeMask(mask: Word)
    requires forall i :: 0 <= i < 64 ==> mask[i]
    ensures SelectsLower(mask, 64)
  {
  }

  lemma Unblocked(v: Word, v0: Word)
    ensures BlocksReversed(v0, v0, 64)
    ensures BlocksReversed(v, v0, 1) ==> forall i :: 0 <= i < 64 ==> v[i] == v0[63 - i]
  {
    forall i | 0 <= i < 64 ensures BlockSource(i, 64) == i && BlockSource(i, 1) == 63 - i {
      assert i % 64 == i && i % 1 == 0;
    }
  }

  /** rev: swap halves, then quarters, and so on down to single bits. */
  method ReverseWord(v0: Word) returns (v: Word)
    ensures forall i :: 0 <= i < 64 ==> v[i] == v0[63 - i]
  {
    v := v0;
    Unblocked(v, v0);
    var s: nat := 64;
    var mask: Word := seq(64, i => true);
    WholeMask(mask);
    while s > 1
      invariant s == 64 || IsBlockSize(s)
      invariant SelectsLower(mask, s) && BlocksReversed(v, v0, s)
      decreases s
    {
      HalfSize(s, s / 2);
      s := s / 2;
      v, mask := SwapBlocks(v, mask, s, v0);
    }
    Unblocked(v, v0);
  }

  function ToNat(w: seq<bool>): nat {
    if w == [] then 0 else (if w[0] then 1 else 0) + 2 * ToNat(w[1..])
  }

  lemma {:induction false} ToNatAppend(w: seq<bool>, b: bool)
    ensures ToNat(w + [b]) == ToNat(w) + if b then Pow2(|w|) else 0
  {
    if w != [] {
      ToNatAppend(w[1..], b);
      assert (w + [b])[1..] == w[1..] + [b];
    } else {
      assert (w + [b])[1..] == [];
    }
  }

  /** Reversed bits are the bits of the reversed number: the loop computes Rev. */
  lemma {:induction false} ReversedBits(v: seq<bool>, r: seq<bool>)
    requires |r| == |v| && forall i :: 0 <= i < |v| ==> r[i] == v[|v| - 1 - i]
    ensures ToNat(r) == Rev(ToNat(v), |v|)
  {
    if v != [] {
      var n := |v| - 1;
      assert r == r[..n] + [r[n]];
      ToNatAppend(r[..n], r[n]);
      ReversedBits(v[1..], r[..n]);
    }
  }
}
