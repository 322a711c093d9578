/** redisBitpos: the first bit of a given value in a string, found a word at a time. */
module Bitpos {
  import opened Prelude
  import opened ReverseBits
  import opened WordArith
  import opened Bitfield

  function SkipByte(bit: nat): Byte {
    if bit == 1 then 0 else 255
  }

  /** The value of an unsigned long whose bytes, in memory order, are b. */
  function LittleEndian(b: seq<Byte>): nat {
    if b == [] then 0 else b[0] + 256 * LittleEndian(b[1..])
  }

  /** The same bytes with the first one most significant. */
  function BigEndian(b: seq<Byte>): nat {
    if b == [] then 0 else 256 * BigEndian(b[..|b| - 1]) + b[|b| - 1]
  }

  predicate AllAre(s: seq<Byte>, x: Byte) {
    forall i :: 0 <= i < |s| ==> s[i] == x
  }

  /** All n bytes 255. */
  function Ones(n: nat): nat {
    if n == 0 then 0 else 255 + 256 * Ones(n - 1)
  }

  lemma {:induction false} WordBelow(b: seq<Byte>)
    ensures LittleEndian(b) <= Ones(|b|)
    decreases |b|
  {
    if b != [] { WordBelow(b[1..]); }
  }

  /** Comparing a whole word with 0 or ULONG_MAX compares all its bytes. */
  lemma {:induction false} WordExtremes(b: seq<Byte>)
    ensures LittleEndian(b) == 0 <==> AllAre(b, 0)
    ensures LittleEndian(b) == Ones(|b|) <==> AllAre(b, 255)
    decreases |b|
  {
    if b != [] {
      WordExtremes(b[1..]);
      WordBelow(b[1..]);
      assert b == [b[0]] + b[1..];
    }
  }

  // ----- the bits of a word ---------------------------------------------------------------

  lemma {:induction false} OrByte(x: nat, b: nat, n: nat)
    requires b < Pow2(n)
    ensures BitOr(Shl(x, n), b) == Shl(x, n) + b
  {
    if n == 0 {
      OrZero(x);
    } else {
      OrByte(x, b / 2, n - 1);
      var y := Shl(x, n - 1);
      assert (2 * y) / 2 == y && (2 * y) % 2 == 0;
      if Shl(x, n) == 0 && b == 0 { OrZero(0); }
    }
  }

  lemma {:induction false} ShrPast(low: nat, x: nat, n: nat, m: nat)
    requires low < Pow2(n) && m >= n
    ensures Shr(low + Shl(x, n), m) == Shr(x, m - n)
  {
    if n > 0 {
      ShrPast(low / 2, x, n - 1, m - 1);
      assert (low + 2 * Shl(x, n - 1)) / 2 == low / 2 + Shl(x, n - 1);
    }
  }

  lemma {:induction false} ShrWithin(low: nat, x: nat, n: nat, m: nat)
    requires low < Pow2(n) && m < n
    ensures Shr(low + Shl(x, n), m) % 2 == Shr(low, m) % 2
  {
    assert (low + 2 * Shl(x, n - 1)) / 2 == low / 2 + Shl(x, n - 1);
    if m > 0 { ShrWithin(low / 2, x, n - 1, m - 1); }
  }

  // Below, n is the number of bits of a byte, as a parameter: with the literal 8 the recursive
  // functions on bits would be unrolled eight times in every proof.

  lemma ShlEight(x: nat, n: nat)
    requires n == 8
    ensures Pow2(n) == 256 && Shl(x, n) == 256 * x
  {
    assert Pow2(4) == 16 && Pow2(8) == 16 * Pow2(4);
    assert Shl(x, 0) == x;
    assert Shl(x, 2) == 4 * x;
    assert Shl(x, 4) == 4 * Shl(x, 2);
    assert Shl(x, 6) == 4 * Shl(x, 4);
  }

  lemma OrInByte(x: nat, b: Byte, n: nat)
    requires n == 8
    ensures BitOr(256 * x, b) == 256 * x + b
  {
    ShlEight(x, n);
    OrByte(x, b, n);
  }

  lemma ByteShift(n: nat, x: nat, b: Byte, m: nat)
    requires n == 8
    ensures m >= n ==> Shr(256 * x + b, m) == Shr(x, m - n)
    ensures m < n ==> Shr(256 * x + b, m) % 2 == Shr(b, m) % 2
  {
    ShlEight(x, n);
    if m >= n { ShrPast(b, x, n, m); } else { ShrWithin(b, x, n, m); }
  }

  /** The bits of the big-endian value, from the top, are the bits of the string. */
  lemma {:induction false} BigEndianBits(b: seq<Byte>, k: nat, n: nat)
    requires k < 8 * |b| && n == 8
    ensures Shr(BigEndian(b), 8 * |b| - 1 - k) % 2 == BitAt(b, k)
    decreases |b|
  {
    var init, last := b[..|b| - 1], b[|b| - 1];
    ByteShift(n, BigEndian(init), last, 8 * |b| - 1 - k);
    if k < 8 * |init| {
      BigEndianBits(init, k, n);
      assert init[k / 8] == b[k / 8];
    }
  }

  function Uniform(v: nat): Byte {
    if v == 0 then 0 else 255
  }

  predicate BitsAre(x: nat, n: nat, v: nat) {
    forall m :: 0 <= m < n ==> Shr(x, m) % 2 == v
  }

  /** A byte all of whose bits are v is 0 or 255. */
  lemma UniformByte(b: Byte, v: nat, n: nat)
    requires n == 8 && v <= 1
    ensures BitsAre(b, n, v) <==> b == Uniform(v)
  {
    var u := Uniform(v);
    ShlEight(0, n);
    UniformBits(n, v, u);
    if BitsAre(b, n, v) {
      SameBitsSameLow(b, u, n);
      LowSmall(b, n);
      LowSmall(u, n);
    }
  }

  lemma UniformBits(n: nat, v: nat, u: nat)
    requires v <= 1 && u == if v == 0 then 0 else Pow2(n) - 1
    ensures BitsAre(u, n, v)
  {
    forall m | 0 <= m < n ensures Shr(u, m) % 2 == v {
      UniformBit(n, v, u, m);
    }
  }

  lemma {:induction false} UniformBit(n: nat, v: nat, u: nat, m: nat)
    requires v <= 1 && (u == if v == 0 then 0 else Pow2(n) - 1) && m < n
    ensures Shr(u, m) % 2 == v
  {
    if m > 0 { UniformBit(n - 1, v, u / 2, m - 1); }
  }

  /** A string all of whose bits are v has all its bytes 0 or 255. */
  lemma UniformString(s: seq<Byte>, v: nat)
    requires v <= 1
    ensures (forall k :: 0 <= k < 8 * |s| ==> BitAt(s, k) == v) <==> AllAre(s, Uniform(v))
  {
    if AllAre(s, Uniform(v)) {
      forall k | 0 <= k < 8 * |s| ensures BitAt(s, k) == v { UniformBitAt(s, v, k, 8); }
    }
    if forall k :: 0 <= k < 8 * |s| ==> BitAt(s, k) == v {
      forall i | 0 <= i < |s| ensures s[i] == Uniform(v) { UniformAt(s, v, i, 8); }
    }
  }

  lemma UniformBitAt(s: seq<Byte>, v: nat, k: nat, n: nat)
    requires v <= 1 && k < 8 * |s| && n == 8 && AllAre(s, Uniform(v))
    ensures BitAt(s, k) == v
  {
    UniformByte(s[k / 8], v, n);
    assert BitsAre(s[k / 8], n, v) && 0 <= 7 - k % 8 < n;
  }

  lemma UniformAt(s: seq<Byte>, v: nat, i: nat, n: nat)
    requires v <= 1 && i < |s| && n == 8 && forall k :: 0 <= k < 8 * |s| ==> BitAt(s, k) == v
    ensures s[i] == Uniform(v)
  {
    forall m | 0 <= m < n ensures Shr(s[i], m) % 2 == v {
      assert BitAt(s, 8 * i + (7 - m)) == v;
    }
    assert BitsAre(s[i], n, v);
    UniformByte(s[i], v, n);
  }

  // ----- the search ---------------------------------------------------------------------------

  /** pos is the answer: the first bit of that value, all bits beyond the string being zero;
      -1 when a one is sought and there is none. */
  predicate First(s: seq<Byte>, bit: nat, pos: int)
    requires bit <= 1
  {
    if pos < 0 then pos == -1 && bit == 1 && forall k :: 0 <= k < 8 * |s| ==> BitAt(s, k) == 0
    else
      && pos <= 8 * |s|
      && (forall k :: 0 <= k < pos ==> BitAt(s, k) != bit)
      && (if pos < 8 * |s| then BitAt(s, pos) == bit else bit == 0)
  }

  /** Skips bytes up to the first address that is aligned to a word. */
  method SkipBytes(s: seq<Byte>, address: nat, bit: nat) returns (i: nat)
    requires bit <= 1
    ensures i <= |s| && AllAre(s[..i], SkipByte(bit))
  {
    i := 0;
    while (address + i) % 8 != 0 && i < |s|
      invariant i <= |s| && AllAre(s[..i], SkipByte(bit))
      decreases |s| - i
    {
      if s[i] != SkipByte(bit) { break; }
      i := i + 1;
    }
  }

  /** Skips whole words; what is left is short or starts with a word worth looking at. */
  method SkipWords(s: seq<Byte>, start: nat, bit: nat) returns (i: nat)
    requires bit <= 1 && start <= |s| && AllAre(s[..start], SkipByte(bit))
    ensures start <= i <= |s| && AllAre(s[..i], SkipByte(bit))
    ensures |s| - i < 8 || !AllAre(s[i..i + 8], SkipByte(bit))
  {
    i := start;
    var skipval := if bit == 1 then 0 else Ones(8);
    while |s| - i >= 8
      invariant start <= i <= |s| && AllAre(s[..i], SkipByte(bit))
    {
      WordExtremes(s[i..i + 8]);
      if LittleEndian(s[i..i + 8]) != skipval { break; }
      assert s[..i + 8] == s[..i] + s[i..i + 8];
      i := i + 8;
    }
  }

  /** The last window of eight bytes, padded with zeros on the right. */
  function Window(s: seq<Byte>, i: nat): seq<Byte>
    requires i <= |s|
  {
    ZeroPadded(s[i..], 8)
  }

  lemma BigEndianSnoc(w: seq<Byte>, j: nat)
    requires j < |w|
    ensures BigEndian(w[..j + 1]) == 256 * BigEndian(w[..j]) + w[j]
    ensures BitOr(256 * BigEndian(w[..j]), w[j]) == BigEndian(w[..j + 1])
  {
    assert w[..j + 1][..j] == w[..j];
    OrInByte(BigEndian(w[..j]), w[j], 8);
  }

  lemma {:induction false} BigEndianBelow(b: seq<Byte>)
    ensures BigEndian(b) <= Ones(|b|)
    decreases |b|
  {
    if b != [] { BigEndianBelow(b[..|b| - 1]); }
  }

  lemma BigEndianFits(b: seq<Byte>)
    requires |b| < 8
    ensures 256 * BigEndian(b) < TWO64
  {
    BigEndianBelow(b);
    OnesMonotone(|b|, 7);
    assert 256 * Ones(7) < TWO64;
  }

  lemma {:induction false} OnesMonotone(a: nat, b: nat)
    requires a <= b
    ensures Ones(a) <= Ones(b)
    decreases b
  {
    if a < b { OnesMonotone(a, b - 1); }
  }

  lemma ShiftedFits(w: seq<Byte>, j: nat, word: nat)
    requires j < 8 == |w| && word == BigEndian(w[..j])
    ensures U64(256 * word) == 256 * word
  {
    BigEndianFits(w[..j]);
  }

  /** word <<= 8; word |= b. */
  method ShiftInByte(word: nat, b: Byte, ghost w: seq<Byte>, ghost j: nat) returns (r: nat)
    requires j < 8 == |w| && word == BigEndian(w[..j]) && w[j] == b
    ensures r == BigEndian(w[..j + 1])
  {
    var shifted := U64(256 * word);
    assert shifted == 256 * word by { ShiftedFits(w, j, word); }
    r := BitOr(shifted, b);
    assert r == BigEndian(w[..j + 1]) by { BigEndianSnoc(w, j); }
  }

  /** Loads up to eight bytes, the first one most significant. */
  method LoadWord(s: seq<Byte>, start: nat) returns (word: nat)
    requires start <= |s|
    ensures word == BigEndian(Window(s, start))
  {
    word := 0;
    var i, j := start, 0;
    ghost var w := Window(s, start);
    while j < 8
      invariant j <= 8 && i == (if start + j <= |s| then start + j else |s|)
      invariant word == BigEndian(w[..j])
    {
      word := ShiftInByte(word, if i < |s| then s[i] else 0, w, j);
      if i < |s| { i := i + 1; }
      j := j + 1;
    }
    assert w[..8] == w;
  }

  /** Bit k of a word of w bits, from the top. */
  function FromTop(word: nat, k: nat, w: nat): nat
    requires k < w
  {
    Shr(word, w - 1 - k) % 2
  }

  /** Scans the bits of a word from the top.  The loop always finds one, so the panic after it
      is never reached. */
  method ScanWord(word: nat, bit: nat, ghost w: nat, ghost there: nat) returns (k: nat)
    requires IsWordSize(w) && bit <= 1 && there < w && FromTop(word, there, w) == bit
    ensures k < w && FromTop(word, k, w) == bit
    ensures forall j :: 0 <= j < k ==> FromTop(word, j, w) != bit
  {
    var one := U64(TWO64 - 1 - (TWO64 - 1) / 2);
    k := 0;
    while one != 0
      invariant k <= there && one == Pow2(w - 1 - k)
      invariant forall j :: 0 <= j < k ==> FromTop(word, j, w) != bit
      decreases one
    {
      DigitTest(word, w - 1 - k);
      if (if BitAnd(word, one) != 0 then 1 else 0) == bit { return; }
      one := one / 2;
      k := k + 1;
    }
    assert false;
  }

  lemma WindowBit(b: seq<Byte>, k: nat, w: nat)
    requires |b| == 8 && k < 64 && IsWordSize(w)
    ensures k < w && FromTop(BigEndian(b), k, w) == BitAt(b, k)
  {
    WordSizeUnique(w);
    BigEndianBits(b, k, 8);
  }

  /** The first bit of a window that has the value sought. */
  method ScanWindow(word: nat, bit: nat, ghost b: seq<Byte>, ghost there: nat) returns (k: nat)
    requires |b| == 8 && word == BigEndian(b) && bit <= 1 && there < 64 && BitAt(b, there) == bit
    ensures k < 64 && BitAt(b, k) == bit
    ensures forall j :: 0 <= j < k ==> BitAt(b, j) != bit
  {
    ghost var w := WordSize(0);
    WindowBit(b, there, w);
    k := ScanWord(word, bit, w, there);
    assert k < 64 by { WordSizeUnique(w); }
    WindowBit(b, k, w);
    forall j | 0 <= j < k ensures BitAt(b, j) != bit { WindowBit(b, j, w); }
  }

  /** The window shows the string from byte i on, and zeros beyond its end. */
  lemma WindowShows(s: seq<Byte>, i: nat, k: nat)
    requires i <= |s| && k < 64
    ensures BitAt(Window(s, i), k) == if 8 * i + k < 8 * |s| then BitAt(s, 8 * i + k) else 0
  {
    assert (8 * i + k) / 8 == i + k / 8 && (8 * i + k) % 8 == k % 8;
    if i + k / 8 < |s| {
      assert s[i..][k / 8] == s[i + k / 8];
    } else {
      ShrZero(7 - k % 8);
    }
  }

  lemma {:induction false} BigEndianZero(b: seq<Byte>)
    ensures BigEndian(b) == 0 <==> AllAre(b, 0)
    decreases |b|
  {
    if b != [] {
      BigEndianZero(b[..|b| - 1]);
      assert b == b[..|b| - 1] + [b[|b| - 1]];
    }
  }

  /** A window of which some byte is not uniformly the other bit has the bit. */
  lemma BitThere(b: seq<Byte>, bit: nat) returns (k: nat)
    requires |b| == 8 && bit <= 1 && !AllAre(b, SkipByte(bit))
    ensures k < 64 && BitAt(b, k) == bit
  {
    UniformString(b, 1 - bit);
    k :| 0 <= k < 8 * |b| && BitAt(b, k) != 1 - bit;
  }

  lemma WindowNotUniform(s: seq<Byte>, i: nat, bit: nat)
    requires i <= |s| && bit <= 1 && (|s| - i < 8 || !AllAre(s[i..i + 8], SkipByte(bit)))
    ensures bit == 0 || |s| - i >= 8 ==> !AllAre(Window(s, i), SkipByte(bit))
  {
    if |s| - i >= 8 {
      assert Window(s, i) == s[i..i + 8];
    } else {
      assert Window(s, i)[7] == 0;
    }
  }

  /** Everything before the window is uniform, so its first such bit is the string's. */
  lemma FirstFromWindow(s: seq<Byte>, i: nat, bit: nat, k: nat)
    requires i <= |s| && bit <= 1 && AllAre(s[..i], SkipByte(bit)) && k < 64
    requires BitAt(Window(s, i), k) == bit && forall j :: 0 <= j < k ==> BitAt(Window(s, i), j) != bit
    ensures First(s, bit, 8 * i + k)
  {
    var end := 8 * |s| - 8 * i;
    WindowShows(s, i, k);
    if end < k { WindowShows(s, i, end); }
    forall q | 0 <= q < 8 * i + k ensures q < 8 * |s| && BitAt(s, q) != bit { BeforeWindow(s, i, bit, k, q); }
  }

  lemma BeforeWindow(s: seq<Byte>, i: nat, bit: nat, k: nat, q: nat)
    requires i <= |s| && bit <= 1 && AllAre(s[..i], SkipByte(bit)) && k < 64 && 8 * i + k <= 8 * |s|
    requires forall j :: 0 <= j < k ==> BitAt(Window(s, i), j) != bit
    requires q < 8 * i + k
    ensures BitAt(s, q) != bit
  {
    if q < 8 * i {
      UniformString(s[..i], 1 - bit);
      assert BitAt(s[..i], q) == 1 - bit;
    } else {
      WindowShows(s, i, q - 8 * i);
    }
  }

  lemma NoneInString(s: seq<Byte>, i: nat)
    requires i <= |s| && AllAre(s[..i], 0) && AllAre(Window(s, i), 0) && |s| - i < 8
    ensures First(s, 1, -1)
  {
    forall j | 0 <= j < |s| ensures s[j] == 0 {
      if j < i { assert s[j] == s[..i][j]; } else { assert s[j] == Window(s, i)[j - i]; }
    }
    UniformString(s, 0);
  }

  /** redisBitpos, for a string at any address. */
  method FindBit(s: seq<Byte>, address: nat, bit: nat) returns (pos: int)
    requires bit <= 1
    ensures First(s, bit, pos)
  {
    var i := SkipBytes(s, address, bit);
    i := SkipWords(s, i, bit);
    var word := LoadWord(s, i);
    ghost var window := Window(s, i);
    BigEndianZero(window);
    WindowNotUniform(s, i, bit);
    if bit == 1 && word == 0 {
      NoneInString(s, i);
      return -1;
    }
    ghost var there := BitThere(window, bit);
    var k := ScanWindow(word, bit, window, there);
    FirstFromWindow(s, i, bit, k);
    pos := 8 * i + k;
  }

  /** There is only one answer. */
  lemma FirstIsUnique(s: seq<Byte>, bit: nat, p: int, q: int)
    requires bit <= 1 && First(s, bit, p) && First(s, bit, q)
    ensures p == q
  {
  }
}
