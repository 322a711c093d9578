/** redisPopcount: the number of one bits in a string, 28 bytes at a time. */
module Popcount {
  import opened Prelude
  import opened ReverseBits
  import opened WordArith
  import opened Bitfield
  import opened Bitpos

  /** Number of one bits of a number. */
  function Count(x: nat): nat {
    if x == 0 then 0 else x % 2 + Count(x / 2)
  }

  // ----- the masks, by repetition --------------------------------------------------------------

  function Mask55(n: nat): nat { if n == 0 then 0 else 1 + 4 * Mask55(n - 1) }
  function Mask33(n: nat): nat { if n == 0 then 0 else 3 + 16 * Mask33(n - 1) }
  function Mask0F(n: nat): nat { if n == 0 then 0 else 15 + 256 * Mask0F(n - 1) }

  lemma And0(b: nat, y: nat, m: nat)
    requires b <= 1
    ensures BitAnd(b + 2 * y, 2 * m) == 2 * BitAnd(y, m)
  {
    assert (b + 2 * y) / 2 == y;
  }

  lemma And1(b: nat, y: nat, m: nat)
    requires b <= 1
    ensures BitAnd(b + 2 * y, 1 + 2 * m) == b + 2 * BitAnd(y, m)
  {
    assert (b + 2 * y) / 2 == y;
  }

  lemma AndSkip(a: nat, y: nat, m: nat)
    requires a < 4
    ensures BitAnd(a + 4 * y, 4 * m) == 4 * BitAnd(y, m)
  {
    var z := a / 2 + 2 * y;
    assert a + 4 * y == a % 2 + 2 * z;
    And0(a % 2, z, 2 * m);
    And0(a / 2, y, m);
  }

  lemma AndKeep(a: nat, y: nat, m: nat)
    requires a < 4
    ensures BitAnd(a + 4 * y, 3 + 4 * m) == a + 4 * BitAnd(y, m)
  {
    var z := a / 2 + 2 * y;
    assert a + 4 * y == a % 2 + 2 * z;
    And1(a % 2, z, 1 + 2 * m);
    And1(a / 2, y, m);
  }

  lemma AndFirst(a: nat, y: nat, m: nat)
    requires a < 4
    ensures BitAnd(a + 4 * y, 1 + 4 * m) == a % 2 + 4 * BitAnd(y, m)
  {
    var z := a / 2 + 2 * y;
    assert a + 4 * y == a % 2 + 2 * z;
    And1(a % 2, z, 2 * m);
    And0(a / 2, y, m);
  }

  lemma And33(a: nat, b: nat, y: nat, m: nat)
    requires a < 4 && b < 4
    ensures BitAnd(a + 4 * b + 16 * y, 3 + 16 * m) == a + 16 * BitAnd(y, m)
  {
    var z := b + 4 * y;
    AndKeep(a, z, 4 * m);
    AndSkip(b, y, m);
    assert a + 4 * b + 16 * y == a + 4 * z;
  }

  lemma AndKeep4(a: nat, y: nat, m: nat)
    requires a < 16
    ensures BitAnd(a + 16 * y, 15 + 16 * m) == a + 16 * BitAnd(y, m)
  {
    var z := a / 4 + 4 * y;
    assert a + 16 * y == a % 4 + 4 * z;
    AndKeep(a % 4, z, 3 + 4 * m);
    AndKeep(a / 4, y, m);
  }

  lemma AndSkip4(b: nat, y: nat, m: nat)
    requires b < 16
    ensures BitAnd(b + 16 * y, 16 * m) == 16 * BitAnd(y, m)
  {
    var z := b / 4 + 4 * y;
    assert b + 16 * y == b % 4 + 4 * z;
    AndSkip(b % 4, z, 4 * m);
    AndSkip(b / 4, y, m);
  }

  lemma And0F(a: nat, b: nat, y: nat, m: nat)
    requires a < 16 && b < 16
    ensures BitAnd(a + 16 * b + 256 * y, 15 + 256 * m) == a + 256 * BitAnd(y, m)
  {
    var z := b + 16 * y;
    AndKeep4(a, z, 16 * m);
    AndSkip4(b, y, m);
    assert a + 16 * b + 256 * y == a + 16 * z;
  }

  // ----- the three steps, on any number of bytes -------------------------------------------------

  /** Every two bits replaced by their number of ones. */
  function Pairs(x: nat, n: nat): nat {
    if n == 0 then 0 else x % 2 + x / 2 % 2 + 4 * Pairs(x / 4, n - 1)
  }

  /** Every two digits in base four replaced by their sum. */
  function Nibbles(x: nat, n: nat): nat {
    if n == 0 then 0 else x % 4 + x / 4 % 4 + 16 * Nibbles(x / 16, n - 1)
  }

  /** Every two digits in base sixteen replaced by their sum. */
  function Bytes(x: nat, n: nat): nat {
    if n == 0 then 0 else x % 16 + x / 16 % 16 + 256 * Bytes(x / 256, n - 1)
  }

  function Pow4(n: nat): nat { if n == 0 then 1 else 4 * Pow4(n - 1) }

  lemma PairDigits(x: nat) returns (a: nat, b: nat, y: nat, c: nat, z: nat)
    ensures a == x % 2 && b == x / 2 % 2 && y == x / 4 && z == y / 2 && c < 2
    ensures x == a + 2 * b + 4 * y && x / 2 == (b + 2 * c) + 4 * z
  {
    a, b, y, c, z := x % 2, x / 2 % 2, x / 4, x / 4 % 2, x / 4 / 2;
  }

  lemma PairsDigit(x: nat, y: nat, z: nat, b: nat, c: nat, n: nat)
    requires n > 0 && b <= 1 && c <= 1 && x / 2 == (b + 2 * c) + 4 * z
    ensures BitAnd(x / 2, Mask55(n)) == b + 4 * BitAnd(z, Mask55(n - 1))
  {
    AndFirst(b + 2 * c, z, Mask55(n - 1));
  }

  lemma {:induction false} PairsStep(x: nat, n: nat)
    requires x < Pow4(n)
    ensures x - BitAnd(x / 2, Mask55(n)) == Pairs(x, n)
  {
    if n > 0 {
      var a, b, y, c, z := PairDigits(x);
      PairsStep(y, n - 1);
      PairsDigit(x, y, z, b, c, n);
    }
  }

  lemma NibbleDigits(x: nat) returns (a: nat, b: nat, y: nat, c: nat, z: nat)
    ensures a == x % 4 && b == x / 4 % 4 && y == x / 16 && z == y / 4 && c < 4
    ensures x == a + 4 * b + 16 * y && x / 4 == b + 4 * c + 16 * z
  {
    a, b, y, c, z := x % 4, x / 4 % 4, x / 16, x / 16 % 4, x / 16 / 4;
  }

  lemma AddDigits(x: nat, q: nat, a: nat, b: nat, c: nat, y: nat, z: nat, n: nat)
    requires n > 0 && a < 4 && b < 4 && c < 4 && x == a + 4 * b + 16 * y && q == b + 4 * c + 16 * z
    ensures BitAnd(x, Mask33(n)) + BitAnd(q, Mask33(n))
         == a + b + 16 * (BitAnd(y, Mask33(n - 1)) + BitAnd(z, Mask33(n - 1)))
  {
    And33(a, b, y, Mask33(n - 1));
    And33(b, c, z, Mask33(n - 1));
  }

  lemma {:induction false} NibblesStep(x: nat, n: nat)
    ensures BitAnd(x, Mask33(n)) + BitAnd(x / 4, Mask33(n)) == Nibbles(x, n)
  {
    if n > 0 {
      var a, b, y, c, z := NibbleDigits(x);
      NibblesStep(y, n - 1);
      AddDigits(x, x / 4, a, b, c, y, z, n);
    }
  }

  /** All digits of x in base sixteen are at most four. */
  predicate SmallNibbles(x: nat) {
    x == 0 || (x % 16 <= 4 && SmallNibbles(x / 16))
  }

  lemma SmallDigits(x: nat)
    requires SmallNibbles(x)
    ensures x % 16 <= 4 && x / 16 % 16 <= 4 && x / 256 % 16 <= 4 && SmallNibbles(x / 256)
  {
    assert SmallNibbles(x / 16);
    assert x / 16 / 16 == x / 256;
    assert SmallNibbles(x / 256);
  }

  lemma {:induction false} BytesStep(x: nat, n: nat)
    requires SmallNibbles(x)
    ensures BitAnd(x + x / 16, Mask0F(n)) == Bytes(x, n)
  {
    if n > 0 {
      var a, b, y, c, z := ByteDigits(x);
      BytesStep(y, n - 1);
      And0F(a + b, b + c, z, Mask0F(n - 1));
    }
  }

  lemma ByteDigits(x: nat) returns (a: nat, b: nat, y: nat, c: nat, z: nat)
    requires SmallNibbles(x)
    ensures a == x % 16 <= 4 && b == x / 16 % 16 <= 4 && c <= 4
    ensures y == x / 256 && SmallNibbles(y) && z == y + y / 16
    ensures x + x / 16 == (a + b) + 16 * (b + c) + 256 * z
  {
    SmallDigits(x);
    a, b, y := x % 16, x / 16 % 16, x / 256;
    assert x / 16 == b + 16 * y;
    c := y % 16;
    z := y + y / 16;
  }

  // ----- all three together ----------------------------------------------------------------------

  lemma CountBit(x: nat, b: nat, y: nat)
    requires b <= 1 && x == b + 2 * y
    ensures Count(x) == b + Count(y)
  {
    assert x / 2 == y && x % 2 == b;
  }

  lemma PairsBit(a: nat, b: nat, y: nat, n: nat)
    requires a <= 1 && b <= 1 && n > 0
    ensures Pairs(a + 2 * b + 4 * y, n) == a + b + 4 * Pairs(y, n - 1)
  {
    var x := a + 2 * b + 4 * y;
    assert x % 2 == a && x / 2 % 2 == b && x / 4 == y;
  }

  lemma NibblesDigit(a: nat, b: nat, y: nat, n: nat)
    requires a < 4 && b < 4 && n > 0
    ensures Nibbles(a + 4 * b + 16 * y, n) == a + b + 16 * Nibbles(y, n - 1)
  {
    var x := a + 4 * b + 16 * y;
    assert x % 4 == a && x / 4 % 4 == b && x / 16 == y;
  }

  lemma BytesDigit(a: nat, b: nat, y: nat, n: nat)
    requires a < 16 && b < 16 && n > 0
    ensures Bytes(a + 16 * b + 256 * y, n) == a + b + 256 * Bytes(y, n - 1)
  {
    var x := a + 16 * b + 256 * y;
    assert x % 16 == a && x / 16 % 16 == b && x / 256 == y;
  }

  lemma FourBits(x: nat) returns (a: nat, b: nat, c: nat, d: nat)
    requires x < 16
    ensures a <= 1 && b <= 1 && c <= 1 && d <= 1 && x == a + 2 * b + 4 * c + 8 * d
  {
    a, b, c, d := x % 2, x / 2 % 2, x / 4 % 2, x / 8;
  }

  lemma CountTwo(x: nat, a: nat, b: nat, y: nat)
    requires a <= 1 && b <= 1 && x == a + 2 * b + 4 * y
    ensures Count(x) == a + b + Count(y)
  {
    var z := b + 2 * y;
    CountBit(z, b, y);
    CountBit(x, a, z);
  }

  lemma CountFour(x: nat, a: nat, b: nat, c: nat, d: nat, y: nat)
    requires a <= 1 && b <= 1 && c <= 1 && d <= 1 && x == a + 2 * b + 4 * c + 8 * d + 16 * y
    ensures Count(x) == a + b + c + d + Count(y)
  {
    var z := c + 2 * d + 4 * y;
    CountTwo(z, c, d, y);
    CountTwo(x, a, b, z);
  }

  lemma PairsFour(a: nat, b: nat, c: nat, d: nat, y: nat, n: nat)
    requires a <= 1 && b <= 1 && c <= 1 && d <= 1 && n >= 2
    ensures Pairs(a + 2 * b + 4 * c + 8 * d + 16 * y, n) == (a + b) + 4 * (c + d) + 16 * Pairs(y, n - 2)
  {
    PairsBit(c, d, y, n - 1);
    PairsBit(a, b, c + 2 * d + 4 * y, n);
  }

  lemma NibbleFour(a: nat, b: nat, c: nat, d: nat, y: nat, n: nat)
    requires a <= 1 && b <= 1 && c <= 1 && d <= 1 && n > 0
    ensures Nibbles(Pairs(a + 2 * b + 4 * c + 8 * d + 16 * y, 2 * n), n)
         == a + b + c + d + 16 * Nibbles(Pairs(y, 2 * n - 2), n - 1)
  {
    PairsFour(a, b, c, d, y, 2 * n);
    NibblesDigit(a + b, c + d, Pairs(y, 2 * n - 2), n);
  }

  /** The first two steps on n groups of four bits. */
  function FourByFour(x: nat, n: nat): nat {
    Nibbles(Pairs(x, 2 * n), n)
  }

  /** They count the ones of every four bits. */
  lemma {:induction false} NibbleCounts(x: nat, h: nat, y: nat, n: nat)
    requires h < 16 && n > 0 && x == h + 16 * y
    ensures FourByFour(x, n) == Count(h) + 16 * FourByFour(y, n - 1)
    ensures Count(h) <= 4
  {
    var a, b, c, d := FourBits(h);
    NibbleFour(a, b, c, d, y, n);
    CountFour(h, a, b, c, d, 0);
  }

  lemma CountNibbles(h: nat, y: nat)
    requires h < 16
    ensures Count(h + 16 * y) == Count(h) + Count(y)
  {
    var a, b, c, d := FourBits(h);
    CountFour(h + 16 * y, a, b, c, d, y);
    CountFour(h, a, b, c, d, 0);
  }

  function Halfway(x: nat, n: nat): nat {
    FourByFour(x, 2 * n)
  }

  lemma HalfwayDigits(x: nat, l: nat, h: nat, z: nat, y: nat, n: nat)
    requires n > 0 && l < 16 && h < 16 && x == l + 16 * z && z == h + 16 * y
    ensures Halfway(x, n) == Count(l) + 16 * (Count(h) + 16 * Halfway(y, n - 1))
    ensures Count(l) <= 4 && Count(h) <= 4
  {
    NibbleCounts(x, l, z, 2 * n);
    NibbleCounts(z, h, y, 2 * n - 1);
  }

  lemma HalfwayByte(b: Byte, y: nat, n: nat)
    requires n > 0
    ensures Halfway(b + 256 * y, n) == Count(b % 16) + 16 * Count(b / 16) + 256 * Halfway(y, n - 1)
    ensures Count(b % 16) <= 4 && Count(b / 16) <= 4
    ensures Count(b) == Count(b % 16) + Count(b / 16)
  {
    var l, h := b % 16, b / 16;
    HalfwayDigits(b + 256 * y, l, h, h + 16 * y, y, n);
    CountNibbles(l, h);
  }

  /** The ones of every byte. */
  function Counts(b: seq<Byte>): (r: seq<Byte>)
    ensures |r| == |b|
    decreases |b|
  {
    if b == [] then []
    else
      HalfwayByte(b[0], 0, 1);
      [Count(b[0])] + Counts(b[1..])
  }

  lemma SmallJoin(a: nat, b: nat, y: nat)
    requires a <= 4 && b <= 4 && SmallNibbles(y)
    ensures SmallNibbles(a + 16 * b + 256 * y)
  {
    var z := b + 16 * y;
    assert z / 16 == y && z % 16 == b;
    assert SmallNibbles(z);
    assert (a + 16 * z) / 16 == z && (a + 16 * z) % 16 == a;
  }

  lemma LaneStep(b: Byte, y: nat, n: nat)
    requires n > 0 && SmallNibbles(Halfway(y, n - 1))
    ensures SmallNibbles(Halfway(b + 256 * y, n))
    ensures Bytes(Halfway(b + 256 * y, n), n) == Count(b) + 256 * Bytes(Halfway(y, n - 1), n - 1)
  {
    var l, h, z := Count(b % 16), Count(b / 16), Halfway(y, n - 1);
    HalfwayByte(b, y, n);
    SmallJoin(l, h, z);
    BytesDigit(l, h, z, n);
  }

  /** The whole computation puts in every byte of a word the number of ones of that byte. */
  lemma {:induction false} LaneCounts(b: seq<Byte>, n: nat)
    requires n == |b|
    ensures SmallNibbles(Halfway(LittleEndian(b), n)) && Bytes(Halfway(LittleEndian(b), n), n) == LittleEndian(Counts(b))
    decreases n
  {
    if b != [] {
      LaneCounts(b[1..], n - 1);
      LaneStep(b[0], LittleEndian(b[1..]), n);
      assert Counts(b)[1..] == Counts(b[1..]);
    }
  }

  function Top44(n: nat): nat { if n == 0 then 0 else 0x44 + 256 * Top44(n - 1) }

  lemma {:induction false} HalfwayBelow(b: seq<Byte>, n: nat)
    requires n == |b|
    ensures Halfway(LittleEndian(b), n) <= Top44(n)
    decreases n
  {
    if b != [] {
      HalfwayBelow(b[1..], n - 1);
      HalfwayByte(b[0], LittleEndian(b[1..]), n);
    }
  }

  // ----- the words of a block -------------------------------------------------------------------

  const TWO32 := 0x1_0000_0000

  function U32(x: nat): nat {
    x % TWO32
  }

  /** The numbers in the four bytes of a word. */
  datatype Lanes = Lanes(c0: nat, c1: nat, c2: nat, c3: nat)

  function Packed(l: Lanes): nat {
    l.c0 + 0x100 * l.c1 + 0x10000 * l.c2 + 0x1000000 * l.c3
  }

  function Sum(l: Lanes): nat {
    l.c0 + l.c1 + l.c2 + l.c3
  }

  predicate AtMost(l: Lanes, n: nat) {
    l.c0 <= n && l.c1 <= n && l.c2 <= n && l.c3 <= n
  }

  lemma AddLanes(a: Lanes, b: Lanes, n: nat) returns (l: Lanes)
    requires AtMost(a, n) && AtMost(b, 8)
    ensures AtMost(l, n + 8) && Packed(l) == Packed(a) + Packed(b) && Sum(l) == Sum(a) + Sum(b)
  {
    l := Lanes(a.c0 + b.c0, a.c1 + b.c1, a.c2 + b.c2, a.c3 + b.c3);
  }

  lemma TopByte(low: nat, sum: nat, high: nat)
    requires low < 0x1000000 && sum < 256
    ensures U32(low + 0x1000000 * sum + TWO32 * high) / 0x1000000 == sum
  {
    assert U32(low + 0x1000000 * sum + TWO32 * high) == low + 0x1000000 * sum;
  }

  lemma Multiplied(l: Lanes, low: nat, high: nat)
    requires low == l.c0 + 0x100 * (l.c0 + l.c1) + 0x10000 * (l.c0 + l.c1 + l.c2)
    requires high == (l.c1 + l.c2 + l.c3) + 0x100 * (l.c2 + l.c3) + 0x10000 * l.c3
    ensures Packed(l) * 0x01010101 == low + 0x1000000 * Sum(l) + TWO32 * high
  {
  }

  lemma LowPart(l: Lanes) returns (low: nat, high: nat)
    requires AtMost(l, 56)
    ensures low < 0x1000000 && Sum(l) <= 224
    ensures Packed(l) * 0x01010101 == low + 0x1000000 * Sum(l) + TWO32 * high
  {
    low := l.c0 + 0x100 * (l.c0 + l.c1) + 0x10000 * (l.c0 + l.c1 + l.c2);
    high := (l.c1 + l.c2 + l.c3) + 0x100 * (l.c2 + l.c3) + 0x10000 * l.c3;
    Multiplied(l, low, high);
  }

  lemma PackedFits(l: Lanes)
    requires AtMost(l, 56)
    ensures U32(Packed(l)) == Packed(l)
  {
  }

  /** Multiplying by 0x01010101 adds the four bytes up in the top one: seven words of counts
      of at most 8 make at most 224 there, so nothing is carried out of it. */
  lemma Gather(l: Lanes, product: nat)
    requires AtMost(l, 56) && product == Packed(l) * 0x01010101
    ensures U32(product) / 0x1000000 == Sum(l) <= 224
  {
    var low, high := LowPart(l);
    TopByte(low, Sum(l), high);
  }

  /** Number of ones of a string, byte by byte. */
  function OnesIn(s: seq<Byte>): nat {
    if s == [] then 0 else Count(s[0]) + OnesIn(s[1..])
  }

  lemma {:induction false} OnesInConcat(a: seq<Byte>, b: seq<Byte>)
    ensures OnesIn(a + b) == OnesIn(a) + OnesIn(b)
    decreases |a|
  {
    if a == [] {
      assert a + b == b;
    } else {
      assert (a + b)[1..] == a[1..] + b;
      OnesInConcat(a[1..], b);
    }
  }

  lemma CountByte(b: Byte)
    ensures Count(b) <= 8
  {
    HalfwayByte(b, 0, 1);
  }

  lemma FourLanes(b: seq<Byte>) returns (l: Lanes)
    requires |b| == 4
    ensures l == Lanes(Count(b[0]), Count(b[1]), Count(b[2]), Count(b[3])) && AtMost(l, 8)
    ensures LittleEndian(Counts(b)) == Packed(l) && OnesIn(b) == Sum(l)
  {
    l := Lanes(Count(b[0]), Count(b[1]), Count(b[2]), Count(b[3]));
    CountByte(b[0]);
    CountByte(b[1]);
    CountByte(b[2]);
    CountByte(b[3]);
    FourCounts(b[0], b[1], b[2], b[3], b);
  }

  lemma {:induction false} FourCounts(p: Byte, q: Byte, r: Byte, t: Byte, b: seq<Byte>)
    requires b == [p, q, r, t]
    ensures LittleEndian(Counts(b)) == Count(p) + 256 * (Count(q) + 256 * (Count(r) + 256 * Count(t)))
    ensures OnesIn(b) == Count(p) + (Count(q) + (Count(r) + Count(t)))
  {
    var b0: seq<Byte> := [];
    var b1 := [t] + b0;
    var b2 := [r] + b1;
    var b3 := [q] + b2;
    OneMore(t, b0, b1);
    OneMore(r, b1, b2);
    OneMore(q, b2, b3);
    assert b == [p] + b3;
    OneMore(p, b3, b);
    assert LittleEndian(Counts(b0)) == 0 && OnesIn(b0) == 0;
  }

  lemma OneMore(p: Byte, rest: seq<Byte>, b: seq<Byte>)
    requires b == [p] + rest
    ensures LittleEndian(Counts(b)) == Count(p) + 256 * LittleEndian(Counts(rest))
    ensures OnesIn(b) == Count(p) + OnesIn(rest)
  {
    assert b[1..] == rest;
    assert Counts(b)[1..] == Counts(rest);
  }

  lemma {:induction false} LittleEndianBelow(b: seq<Byte>, n: nat)
    requires n == |b|
    ensures LittleEndian(b) < Pow4(4 * n)
    decreases n
  {
    if b != [] {
      LittleEndianBelow(b[1..], n - 1);
      FourTimes(n);
    }
  }

  lemma {:induction false} FourTimes(n: nat)
    requires n > 0
    ensures Pow4(4 * n) == 256 * Pow4(4 * (n - 1))
  {
    FourMore(4 * (n - 1));
  }

  lemma FourMore(m: nat)
    ensures Pow4(m + 4) == 256 * Pow4(m)
  {
    assert Pow4(m + 2) == 16 * Pow4(m);
    assert Pow4(m + 4) == 16 * Pow4(m + 2);
  }

  lemma MaskValues()
    ensures Mask55(16) == 0x55555555 && Mask33(8) == 0x33333333
    ensures Mask0F(4) == 0x0F0F0F0F && Top44(4) == 0x44444444
  {
    assert Mask55(8) == 0x5555;
    assert Mask55(16) == 0x55555555;
  }

  /** The bit table, sixteen entries a row. */
  function Row(h: nat): seq<nat> {
    match h
    case 0 => [0, 1, 1, 2, 1, 2, 2, 3, 1, 2, 2, 3, 2, 3, 3, 4]
    case 1 => [1, 2, 2, 3, 2, 3, 3, 4, 2, 3, 3, 4, 3, 4, 4, 5]
    case 2 => [1, 2, 2, 3, 2, 3, 3, 4, 2, 3, 3, 4, 3, 4, 4, 5]
    case 3 => [2, 3, 3, 4, 3, 4, 4, 5, 3, 4, 4, 5, 4, 5, 5, 6]
    case 4 => [1, 2, 2, 3, 2, 3, 3, 4, 2, 3, 3, 4, 3, 4, 4, 5]
    case 5 => [2, 3, 3, 4, 3, 4, 4, 5, 3, 4, 4, 5, 4, 5, 5, 6]
    case 6 => [2, 3, 3, 4, 3, 4, 4, 5, 3, 4, 4, 5, 4, 5, 5, 6]
    case 7 => [3, 4, 4, 5, 4, 5, 5, 6, 4, 5, 5, 6, 5, 6, 6, 7]
    case 8 => [1, 2, 2, 3, 2, 3, 3, 4, 2, 3, 3, 4, 3, 4, 4, 5]
    case 9 => [2, 3, 3, 4, 3, 4, 4, 5, 3, 4, 4, 5, 4, 5, 5, 6]
    case 10 => [2, 3, 3, 4, 3, 4, 4, 5, 3, 4, 4, 5, 4, 5, 5, 6]
    case 11 => [3, 4, 4, 5, 4, 5, 5, 6, 4, 5, 5, 6, 5, 6, 6, 7]
    case 12 => [2, 3, 3, 4, 3, 4, 4, 5, 3, 4, 4, 5, 4, 5, 5, 6]
    case 13 => [3, 4, 4, 5, 4, 5, 5, 6, 4, 5, 5, 6, 5, 6, 6, 7]
    case 14 => [3, 4, 4, 5, 4, 5, 5, 6, 4, 5, 5, 6, 5, 6, 6, 7]
    case _ => [4, 5, 5, 6, 5, 6, 6, 7, 5, 6, 6, 7, 6, 7, 7, 8]
  }

  function BitsInByte(b: Byte): nat
  {
    var row := Row(b / 16);
    if b % 16 < |row| then row[b % 16] else 0
  }

  lemma RowIs(h: nat, l: nat)
    requires h < 16 && l < 16
    ensures |Row(h)| == 16 && Row(h)[l] == Row(0)[h] + Row(0)[l]
  {
    if h < 3 { RowA(h, l); } else if h < 6 { RowB(h, l); } else if h < 9 { RowC(h, l); }
    else if h < 12 { RowD(h, l); } else if h < 14 { RowE(h, l); } else { RowF(h, l); }
  }

  lemma RowA(h: nat, l: nat)
    requires 0 <= h < 3 && l < 16
    ensures |Row(h)| == 16 && Row(h)[l] == Row(0)[h] + Row(0)[l]
  {
  }

  lemma RowB(h: nat, l: nat)
    requires 3 <= h < 6 && l < 16
    ensures |Row(h)| == 16 && Row(h)[l] == Row(0)[h] + Row(0)[l]
  {
  }

  lemma RowC(h: nat, l: nat)
    requires 6 <= h < 9 && l < 16
    ensures |Row(h)| == 16 && Row(h)[l] == Row(0)[h] + Row(0)[l]
  {
  }

  lemma RowD(h: nat, l: nat)
    requires 9 <= h < 12 && l < 16
    ensures |Row(h)| == 16 && Row(h)[l] == Row(0)[h] + Row(0)[l]
  {
  }

  lemma RowE(h: nat, l: nat)
    requires 12 <= h < 14 && l < 16
    ensures |Row(h)| == 16 && Row(h)[l] == Row(0)[h] + Row(0)[l]
  {
  }

  lemma RowF(h: nat, l: nat)
    requires 14 <= h < 16 && l < 16
    ensures |Row(h)| == 16 && Row(h)[l] == Row(0)[h] + Row(0)[l]
  {
  }

  lemma FirstRow(l: nat)
    requires l < 16
    ensures |Row(0)| == 16 && Row(0)[l] == Count(l)
  {
    if l < 8 { FirstHalf(l); } else { SecondHalf(l); }
  }

  lemma FirstHalf(l: nat)
    requires l < 8
    ensures Row(0)[l] == Count(l)
  {
    if l == 0 { assert Count(0) == 0; }
    else if l == 1 { assert Count(1) == 1; }
    else if l == 2 { assert Count(2) == 1; }
    else if l == 3 { assert Count(3) == 2; }
    else if l == 4 { assert Count(4) == 1; }
    else if l == 5 { assert Count(5) == 2; }
    else if l == 6 { assert Count(6) == 2; }
    else if l == 7 { assert Count(7) == 3; }
  }

  lemma {:induction false} SecondHalf(l: nat)
    requires 8 <= l < 16
    ensures Row(0)[l] == Count(l)
  {
    if l == 8 { assert Count(8) == 1; }
    else if l == 9 { assert Count(9) == 2; }
    else if l == 10 { assert Count(10) == 2; }
    else if l == 11 { assert Count(11) == 3; }
    else if l == 12 { assert Count(12) == 2; }
    else if l == 13 { assert Count(13) == 3; }
    else if l == 14 { assert Count(14) == 3; }
    else if l == 15 { assert Count(15) == 4; }
  }

  /** The table holds the number of ones of every byte. */
  lemma {:induction false} TableCounts(b: Byte)
    ensures BitsInByte(b) == Count(b)
  {
    var h, l := b / 16, b % 16;
    RowIs(h, l);
    TableRow(h, l);
    assert b == l + 16 * h;
  }

  lemma TableRow(h: nat, l: nat)
    requires h < 16 && l < 16
    ensures |Row(0)| == 16 && Row(0)[h] + Row(0)[l] == Count(l + 16 * h)
  {
    FirstRow(h);
    FirstRow(l);
    CountNibbles(l, h);
  }

  // ----- the function -------------------------------------------------------------------------

  lemma WordPairs(b: seq<Byte>, x: nat, n: nat, m55: nat)
    requires n == |b| && x == LittleEndian(b) && m55 == Mask55(4 * n)
    ensures x - BitAnd(x / 2, m55) == Pairs(x, 4 * n)
  {
    LittleEndianBelow(b, n);
    PairsStep(x, 4 * n);
  }

  lemma WordBytes(b: seq<Byte>, n: nat, half: nat, m0f: nat)
    requires n == |b| && half == Halfway(LittleEndian(b), n) && m0f == Mask0F(n)
    ensures half <= Top44(n) && BitAnd(half + half / 16, m0f) == LittleEndian(Counts(b))
  {
    LaneCounts(b, n);
    HalfwayBelow(b, n);
    BytesStep(half, n);
  }

  /** n bytes are as wide as the masks of the code. */
  predicate Wide(n: nat) {
    && Mask55(4 * n) == 0x55555555 && Mask33(2 * n) == 0x33333333 && Mask0F(n) == 0x0F0F0F0F
    && Top44(n) == 0x44444444
  }

  lemma FourIsWide(n: nat)
    requires n == 4
    ensures Wide(n)
  {
    MaskValues();
  }

  lemma WordSteps(b: seq<Byte>, x: nat, pairs: nat, sum: nat)
    requires Wide(|b|) && x == LittleEndian(b) && pairs == Pairs(x, 4 * |b|)
    requires sum == BitAnd(pairs, 0x33333333) + BitAnd(pairs / 4, 0x33333333)
    ensures sum <= 0x44444444 && BitAnd(sum + sum / 16, 0x0F0F0F0F) == LittleEndian(Counts(b))
  {
    NibblesStep(pairs, 2 * |b|);
    WordBytes(b, |b|, sum, 0x0F0F0F0F);
  }

  lemma SmallWord(half: nat)
    requires half <= 0x44444444
    ensures U32(half) == half && U32(half + half / 16) == half + half / 16
  {
  }

  method CountLanes(x: nat, ghost b: seq<Byte>) returns (aux: nat)
    requires Wide(|b|) && x == LittleEndian(b)
    ensures aux == LittleEndian(Counts(b))
  {
    WordPairs(b, x, |b|, 0x55555555);
    var pairs: nat := x - BitAnd(x / 2, 0x55555555);
    var sum := BitAnd(pairs, 0x33333333) + BitAnd(pairs / 4, 0x33333333);
    WordSteps(b, x, pairs, sum);
    SmallWord(sum);
    var half := U32(sum);
    aux := BitAnd(U32(half + half / 16), 0x0F0F0F0F);
  }

  /** One word: the numbers of ones of its bytes, in its bytes. */
  method CountWord(x: nat, ghost b: seq<Byte>) returns (aux: nat, ghost l: Lanes)
    requires |b| == 4 && x == LittleEndian(b)
    ensures AtMost(l, 8) && aux == Packed(l) && Sum(l) == OnesIn(b)
  {
    FourIsWide(|b|);
    aux := CountLanes(x, b);
    l := FourLanes(b);
  }

  function WordAt(s: seq<Byte>, i: nat): seq<Byte>
    requires i + 4 <= |s|
  {
    s[i..i + 4]
  }

  lemma OnesInNext(s: seq<Byte>, i: nat, k: nat)
    requires i <= k && k + 4 <= |s|
    ensures OnesIn(s[i..k + 4]) == OnesIn(s[i..k]) + OnesIn(WordAt(s, k))
  {
    assert s[i..k + 4] == s[i..k] + s[k..k + 4];
    OnesInConcat(s[i..k], s[k..k + 4]);
  }

  lemma BlockOnes(s: seq<Byte>, i: nat)
    requires i + 28 <= |s|
    ensures OnesIn(s[i..i + 28]) == OnesIn(WordAt(s, i)) + OnesIn(WordAt(s, i + 4)) + OnesIn(WordAt(s, i + 8))
      + OnesIn(WordAt(s, i + 12)) + OnesIn(WordAt(s, i + 16)) + OnesIn(WordAt(s, i + 20)) + OnesIn(WordAt(s, i + 24))
  {
    assert OnesIn(s[i..i]) == 0;
    OnesInNext(s, i, i);
    OnesInNext(s, i, i + 4);
    OnesInNext(s, i, i + 8);
    OnesInNext(s, i, i + 12);
    OnesInNext(s, i, i + 16);
    OnesInNext(s, i, i + 20);
    OnesInNext(s, i, i + 24);
  }

  /** The counts of seven words, still in their four bytes. */
  method CountSeven(s: seq<Byte>, i: nat) returns (sum: nat, ghost l: Lanes)
    requires i + 28 <= |s|
    ensures AtMost(l, 56) && sum == Packed(l) && Sum(l) == OnesIn(s[i..i + 28])
  {
    BlockOnes(s, i);
    var aux1, l1 := CountWord(LittleEndian(s[i..i + 4]), WordAt(s, i));
    var aux2, l2 := CountWord(LittleEndian(s[i + 4..i + 8]), WordAt(s, i + 4));
    var aux3, l3 := CountWord(LittleEndian(s[i + 8..i + 12]), WordAt(s, i + 8));
    var aux4, l4 := CountWord(LittleEndian(s[i + 12..i + 16]), WordAt(s, i + 12));
    var aux5, l5 := CountWord(LittleEndian(s[i + 16..i + 20]), WordAt(s, i + 16));
    var aux6, l6 := CountWord(LittleEndian(s[i + 20..i + 24]), WordAt(s, i + 20));
    var aux7, l7 := CountWord(LittleEndian(s[i + 24..i + 28]), WordAt(s, i + 24));
    sum := aux1 + aux2 + aux3 + aux4 + aux5 + aux6 + aux7;
    l := AddLanes(l1, l2, 8);
    l := AddLanes(l, l3, 16);
    l := AddLanes(l, l4, 24);
    l := AddLanes(l, l5, 32);
    l := AddLanes(l, l6, 40);
    l := AddLanes(l, l7, 48);
  }

  /** The body of the loop over 28 bytes. */
  method CountBlock(s: seq<Byte>, i: nat) returns (bits: nat)
    requires i + 28 <= |s|
    ensures bits == OnesIn(s[i..i + 28])
  {
    var sum, l := CountSeven(s, i);
    PackedFits(l);
    Gather(l, sum * 0x01010101);
    bits := U32(U32(sum) * 0x01010101) / 0x1000000;
  }

  lemma OnesInByte(s: seq<Byte>, i: nat)
    requires i < |s|
    ensures OnesIn(s[..i + 1]) == OnesIn(s[..i]) + Count(s[i])
  {
    assert s[..i + 1] == s[..i] + [s[i]];
    OnesInConcat(s[..i], [s[i]]);
    assert OnesIn([s[i]]) == Count(s[i]) + OnesIn([]);
  }

  /** Bytes before the first address that is aligned to a 32-bit word. */
  method CountHead(s: seq<Byte>, address: nat) returns (i: nat, bits: nat)
    ensures i <= |s| && bits == OnesIn(s[..i])
  {
    i, bits := 0, 0;
    while (address + i) % 4 != 0 && i < |s|
      invariant i <= |s| && bits == OnesIn(s[..i])
      decreases |s| - i
    {
      OnesInByte(s, i);
      TableCounts(s[i]);
      bits := bits + BitsInByte(s[i]);
      i := i + 1;
    }
  }

  method CountBlocks(s: seq<Byte>, start: nat, before: nat) returns (i: nat, bits: nat)
    requires start <= |s| && before == OnesIn(s[..start])
    ensures i <= |s| && bits == OnesIn(s[..i])
  {
    i, bits := start, before;
    while |s| - i >= 28
      invariant i <= |s| && bits == OnesIn(s[..i])
    {
      var more := CountBlock(s, i);
      OnesInConcat(s[..i], s[i..i + 28]);
      assert s[..i + 28] == s[..i] + s[i..i + 28];
      bits := bits + more;
      i := i + 28;
    }
  }

  /** redisPopcount, for a string at any address. */
  method CountOnes(s: seq<Byte>, address: nat) returns (bits: nat)
    ensures bits == BitSum(s, 8 * |s|)
  {
    var i;
    i, bits := CountHead(s, address);
    i, bits := CountBlocks(s, i, bits);
    while i < |s|
      invariant i <= |s| && bits == OnesIn(s[..i])
    {
      OnesInByte(s, i);
      TableCounts(s[i]);
      bits := bits + BitsInByte(s[i]);
      i := i + 1;
    }
    OnesInBits(s, |s|, 8 * |s|);
    assert s[..i] == s[..|s|];
  }

  // ----- bit by bit ---------------------------------------------------------------------------

  /** Number of ones among the first k bits of a string. */
  function BitSum(s: seq<Byte>, k: nat): nat
    requires k <= 8 * |s|
  {
    if k == 0 then 0 else BitSum(s, k - 1) + BitAt(s, k - 1)
  }

  lemma {:induction false} ShrHalf(x: nat, m: nat)
    ensures Shr(x, m) / 2 == Shr(x, m + 1)
  {
    if m > 0 { ShrHalf(x / 2, m - 1); } else { assert Shr(x / 2, 0) == x / 2; }
  }

  /** Bits of one byte from the top, counted one by one. */
  lemma {:induction false} BitSumInByte(s: seq<Byte>, i: nat, j: nat)
    requires i < |s| && j <= 8
    ensures BitSum(s, 8 * i + j) == BitSum(s, 8 * i) + Count(Shr(s[i], 8 - j))
  {
    var b := s[i];
    if j == 0 {
      ShrByte(b, 8);
    } else {
      BitSumInByte(s, i, j - 1);
      ShrHalf(b, 8 - j);
      var k := 8 * i + j - 1;
      assert k / 8 == i && k % 8 == j - 1;
    }
  }

  lemma ShrByte(b: Byte, n: nat)
    requires n == 8
    ensures Shr(b, n) == 0
  {
    ShrSmall(b, n);
  }

  lemma ByteAdds(s: seq<Byte>, i: nat, n: nat)
    requires i < |s| && n == 8 * i + 8
    ensures BitSum(s, n) == BitSum(s, n - 8) + Count(s[i])
  {
    BitSumInByte(s, i, 8);
    assert Shr(s[i], 0) == s[i];
  }

  lemma {:induction false} OnesInBits(s: seq<Byte>, i: nat, n: nat)
    requires i <= |s| && n == 8 * i
    ensures OnesIn(s[..i]) == BitSum(s, n)
    decreases i
  {
    if i > 0 {
      OnesInBits(s, i - 1, n - 8);
      ByteAdds(s, i - 1, n);
      OnesInByte(s, i - 1);
    }
  }
}
