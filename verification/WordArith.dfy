/** The bitwise operators and the 64-bit conversions of C on unbounded integers. */
module WordArith {
  import opened Prelude
  import opened ReverseBits

  const TWO64 := 0x1_0000_0000_0000_0000
  const TWO63 := 0x8000_0000_0000_0000

  /** Conversion to uint64_t. */
  function U64(x: int): (r: nat)
    ensures r < TWO64
  {
    x % TWO64
  }

  /** Conversion to int64_t, in two's complement. */
  function I64(x: int): (r: int)
    ensures 0 - TWO63 <= r < TWO63
  {
    if U64(x) < TWO63 then U64(x) else U64(x) - TWO64
  }

  function BitAnd(x: nat, y: nat): (r: nat) {
    if x == 0 || y == 0 then 0
    else 2 * BitAnd(x / 2, y / 2) + if x % 2 == 1 && y % 2 == 1 then 1 else 0
  }

  function BitOr(x: nat, y: nat): (r: nat) {
    if x == 0 && y == 0 then 0
    else 2 * BitOr(x / 2, y / 2) + if x % 2 == 1 || y % 2 == 1 then 1 else 0
  }

  /** The width of a 64-bit word. */
  predicate IsWordSize(w: nat) {
    w > 0 && Pow2(w) == TWO64 && Pow2(w - 1) == TWO63
  }

  /** v is a parameter so that Pow2 is not unrolled 64 times. */
  lemma {:induction false} Size64(v: nat)
    requires v == 64
    ensures Pow2(v) == TWO64
  {
    var e := v / 8;
    assert Pow2(e) == 256 by { assert Pow2(8) == 256; }
    Square(e, 2 * e, 256);
    Square(2 * e, 4 * e, 0x10000);
    Square(4 * e, v, 0x1_0000_0000);
  }

  lemma Square(n: nat, m: nat, p: nat)
    requires m == n + n && Pow2(n) == p
    ensures Pow2(m) == p * p
  {
    Pow2Add(n, n);
  }

  lemma WordSize(bits: nat) returns (w: nat)
    requires bits <= 64
    ensures bits <= w && IsWordSize(w) && (bits < 64 ==> bits < w)
  {
    w := 64;
    assert Pow2(w) == TWO64 by { Size64(w); }
  }

  lemma WordSizeUnique(w: nat)
    requires IsWordSize(w)
    ensures w == 64
  {
    var v := 64;
    assert Pow2(v) == TWO64 by { Size64(v); }
    if w < v { Pow2StrictlyMonotone(w, v); } else if v < w { Pow2StrictlyMonotone(v, w); }
  }

  lemma {:induction false} OrZero(x: nat)
    ensures BitOr(x, 0) == x && BitOr(0, x) == x
  {
    if x > 0 { OrZero(x / 2); }
  }

  /** Shifting left by one and putting a bit in. */
  lemma OrLastBit(x: nat, b: nat)
    requires b <= 1
    ensures BitOr(2 * x, b) == 2 * x + b
  {
    OrZero(x);
  }

  lemma {:induction false} AndLow(x: nat, n: nat)
    ensures BitAnd(x, Pow2(n) - 1) == Low(x, n)
  {
    if n == 0 {
    } else if x == 0 {
      LowSmall(0, n);
    } else {
      AndLow(x / 2, n - 1);
      assert (Pow2(n) - 1) / 2 == Pow2(n - 1) - 1;
    }
  }

  lemma {:induction false} AndPow2(x: nat, n: nat)
    ensures BitAnd(x, Pow2(n)) == if Shr(x, n) % 2 == 1 then Pow2(n) else 0
  {
    if x == 0 {
      ShrZero(n);
    } else if n == 0 {
      assert BitAnd(x / 2, 0) == 0;
    } else {
      AndPow2(x / 2, n - 1);
    }
  }

  lemma {:induction false} ShrZero(n: nat)
    ensures Shr(0, n) == 0
  {
    if n > 0 { ShrZero(n - 1); }
  }

  /** The mask of the bits n .. w-1. */
  function OnesFrom(n: nat, w: nat): nat
    requires n <= w
  {
    Pow2Monotone(n, w);
    Pow2(w) - Pow2(n)
  }

  lemma {:induction false} OrOnes(x: nat, w: nat)
    requires x < Pow2(w)
    ensures BitOr(x, Pow2(w) - 1) == Pow2(w) - 1
  {
    if w > 0 {
      OrOnes(x / 2, w - 1);
      OrOdd(x, Pow2(w - 1) - 1);
    }
  }

  lemma OrOdd(x: nat, m: nat)
    ensures BitOr(x, 2 * m + 1) == 2 * BitOr(x / 2, m) + 1
  {
    assert (2 * m + 1) / 2 == m;
  }

  lemma OrEven(x: nat, m: nat)
    ensures BitOr(x, 2 * m) == 2 * BitOr(x / 2, m) + x % 2
  {
    assert 2 * m / 2 == m;
    if x == 0 && m == 0 { assert BitOr(0, 0) == 0; }
  }

  /** Setting all bits from n on, in a word of w bits. */
  lemma {:induction false} OrHigh(x: nat, n: nat, w: nat)
    requires n <= w && x < Pow2(w)
    ensures BitOr(x, OnesFrom(n, w)) == OnesFrom(n, w) + Low(x, n)
  {
    if n == 0 {
      OrOnes(x, w);
    } else {
      OrHigh(x / 2, n - 1, w - 1);
      OrEven(x, OnesFrom(n - 1, w - 1));
    }
  }

  // ----- bits of bytes ------------------------------------------------------------------------

  /** byteval &= ~(1 << i); byteval |= v << i; in a word of w bits. */
  function PutBit(x: nat, w: nat, i: nat, v: nat): nat
    requires i < w && v <= 1
  {
    Pow2StrictlyMonotone(i, w);
    BitOr(BitAnd(x, Pow2(w) - 1 - Pow2(i)), Shl(v, i))
  }

  lemma AndButLast(x: nat, w: nat)
    requires 0 < w && x < Pow2(w)
    ensures BitAnd(x, Pow2(w) - 2) == 2 * (x / 2)
  {
    AndLow(x / 2, w - 1);
    LowSmall(x / 2, w - 1);
    assert (Pow2(w) - 2) / 2 == Pow2(w - 1) - 1;
  }

  lemma PutBitZero(x: nat, w: nat, v: nat)
    requires 0 < w && v <= 1 && x < Pow2(w)
    ensures PutBit(x, w, 0, v) == 2 * (x / 2) + v
  {
    AndButLast(x, w);
    OrLastBit(x / 2, v);
  }

  lemma PutBitNext(x: nat, w: nat, i: nat, v: nat)
    requires 0 < i < w && v <= 1 && x < Pow2(w)
    ensures PutBit(x, w, i, v) == 2 * PutBit(x / 2, w - 1, i - 1, v) + x % 2
  {
    Pow2StrictlyMonotone(i, w);
    var m := Pow2(w) - 1 - Pow2(i);
    assert m / 2 == Pow2(w - 1) - 1 - Pow2(i - 1) && m % 2 == 1;
    if x > 0 {
      assert BitAnd(x, m) == 2 * BitAnd(x / 2, m / 2) + x % 2;
    }
    OrZero(Shl(v, i));
  }

  /** The same bit by bit. */
  function SetBit(x: nat, i: nat, v: nat): nat {
    if i == 0 then 2 * (x / 2) + v else 2 * SetBit(x / 2, i - 1, v) + x % 2
  }

  lemma {:induction false} PutBitSets(x: nat, w: nat, i: nat, v: nat)
    requires i < w && v <= 1 && x < Pow2(w)
    ensures PutBit(x, w, i, v) == SetBit(x, i, v)
  {
    if i == 0 {
      PutBitZero(x, w, v);
    } else {
      PutBitNext(x, w, i, v);
      PutBitSets(x / 2, w - 1, i - 1, v);
    }
  }

  lemma {:induction false} SetBitSets(x: nat, i: nat, v: nat, k: nat)
    requires v <= 1
    ensures Shr(SetBit(x, i, v), k) % 2 == if k == i then v else Shr(x, k) % 2
  {
    ShrHalves(x / 2, x % 2, k);
    if i == 0 {
      ShrHalves(x / 2, v, k);
    } else {
      ShrHalves(SetBit(x / 2, i - 1, v), x % 2, k);
      if k > 0 { SetBitSets(x / 2, i - 1, v, k - 1); }
    }
  }

  lemma ShrHalves(q: nat, b: nat, k: nat)
    requires b <= 1
    ensures Shr(2 * q + b, k) == if k == 0 then 2 * q + b else Shr(q, k - 1)
  {
    assert (2 * q + b) / 2 == q;
  }

  /** It stays within the word. */
  lemma {:induction false} PutBitFits(x: nat, w: nat, i: nat, v: nat)
    requires i < w && v <= 1 && x < Pow2(w)
    ensures PutBit(x, w, i, v) < Pow2(w)
  {
    if i == 0 {
      PutBitZero(x, w, v);
    } else {
      PutBitNext(x, w, i, v);
      PutBitFits(x / 2, w - 1, i - 1, v);
    }
  }

  /** It puts v at bit i and leaves the other bits alone. */
  lemma PutBitPuts(x: nat, w: nat, i: nat, v: nat, k: nat)
    requires i < w && k < w && v <= 1 && x < Pow2(w)
    ensures Shr(PutBit(x, w, i, v), k) % 2 == if k == i then v else Shr(x, k) % 2
  {
    PutBitSets(x, w, i, v);
    SetBitSets(x, i, v, k);
  }

  /** Low bits determine, and are determined by, the bits below n. */
  lemma {:induction false} SameBitsSameLow(x: nat, y: nat, n: nat)
    requires forall k :: 0 <= k < n ==> Shr(x, k) % 2 == Shr(y, k) % 2
    ensures Low(x, n) == Low(y, n)
  {
    if n > 0 {
      assert Shr(x, 0) == x && Shr(y, 0) == y;
      forall k | 0 <= k < n - 1 ensures Shr(x / 2, k) % 2 == Shr(y / 2, k) % 2 {
        assert Shr(x, k + 1) % 2 == Shr(y, k + 1) % 2;
      }
      SameBitsSameLow(x / 2, y / 2, n - 1);
    }
  }
}
