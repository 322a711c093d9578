/** The bitfields of bitops.c: fields of up to 64 bits at any bit offset of a byte buffer, and
    their arithmetic with wrapping, saturation and failure on overflow. */
module Bitfield {
  import opened Prelude
  import opened ReverseBits
  import opened WordArith

  // ----- the bits of a buffer -------------------------------------------------------------

  /** Bit k of a buffer: bit 7 of byte 0 comes first. */
  function BitAt(s: seq<Byte>, k: nat): (b: nat)
    requires k < 8 * |s|
    ensures b <= 1
  {
    Shr(s[k / 8], 7 - k % 8) % 2
  }

  /** The number whose binary digits these are, most significant first. */
  function ValueOf(bits: seq<nat>): nat {
    if bits == [] then 0 else 2 * ValueOf(bits[..|bits| - 1]) + bits[|bits| - 1]
  }

  /** The low n binary digits of v, most significant first. */
  function Digits(v: nat, n: nat): (d: seq<nat>)
    ensures |d| == n
  {
    seq(n, j requires 0 <= j < n => Shr(v, n - 1 - j) % 2)
  }

  function Field(s: seq<Byte>, offset: nat, bits: nat): (f: seq<nat>)
    requires offset + bits <= 8 * |s|
    ensures |f| == bits && forall j :: 0 <= j < bits ==> f[j] == BitAt(s, offset + j)
    ensures forall j :: 0 <= j < bits ==> f[j] <= 1
  {
    seq<nat>(bits, j requires 0 <= j < bits => BitAt(s, offset + j))
  }

  lemma DigitsSplit(v: nat, n: nat)
    requires n > 0
    ensures Digits(v, n)[..n - 1] == Digits(v / 2, n - 1) && Digits(v, n)[n - 1] == v % 2
  {
    forall j | 0 <= j < n - 1 ensures Digits(v, n)[j] == Digits(v / 2, n - 1)[j] {
      assert Shr(v, n - 1 - j) == Shr(v / 2, n - 1 - j - 1);
    }
    assert Shr(v, 0) == v;
  }

  lemma {:induction false} DigitsValue(v: nat, n: nat)
    ensures ValueOf(Digits(v, n)) == Low(v, n)
  {
    if n > 0 {
      DigitsSplit(v, n);
      DigitsValue(v / 2, n - 1);
    }
  }

  lemma {:induction false} ValueBelow(bits: seq<nat>)
    requires forall j :: 0 <= j < |bits| ==> bits[j] <= 1
    ensures ValueOf(bits) < Pow2(|bits|)
    decreases |bits|
  {
    if bits != [] { ValueBelow(bits[..|bits| - 1]); }
  }

  lemma FieldSnoc(s: seq<Byte>, offset: nat, j: nat)
    requires offset + j + 1 <= 8 * |s|
    ensures ValueOf(Field(s, offset, j + 1)) == 2 * ValueOf(Field(s, offset, j)) + BitAt(s, offset + j)
    ensures ValueOf(Field(s, offset, j + 1)) < Pow2(j + 1)
  {
    ValueBelow(Field(s, offset, j + 1));
    assert Field(s, offset, j + 1)[..j] == Field(s, offset, j);
  }

  // ----- reading and writing fields ----------------------------------------------------------

  lemma {:induction false} ShiftIn(value: nat, b: nat)
    requires b <= 1 && 2 * value + b < TWO64
    ensures BitOr(U64(2 * value), b) == 2 * value + b
  {
    OrLastBit(value, b);
  }

  lemma NextBit(s: seq<Byte>, offset: nat, j: nat, w: nat)
    requires offset + j + 1 <= 8 * |s| && j < w && IsWordSize(w)
    ensures BitOr(U64(2 * ValueOf(Field(s, offset, j))), BitAt(s, offset + j)) == ValueOf(Field(s, offset, j + 1))
    ensures ValueOf(Field(s, offset, j + 1)) < Pow2(j + 1)
  {
    var value, b := ValueOf(Field(s, offset, j)), BitAt(s, offset + j);
    FieldSnoc(s, offset, j);
    Pow2Monotone(j + 1, w);
    ShiftIn(value, b);
  }

  /** getUnsignedBitfield. */
  method GetUnsigned(p: array<Byte>, offset: nat, bits: nat) returns (value: nat)
    requires offset + bits <= 8 * p.Length && bits <= 64
    ensures value == ValueOf(Field(p[..], offset, bits)) && value < Pow2(bits)
  {
    value := 0;
    var at, j := offset, 0;
    ghost var w := WordSize(bits);
    while j < bits
      invariant j <= bits && at == offset + j
      invariant value == ValueOf(Field(p[..], offset, j)) && value < Pow2(j)
    {
      var bitval := Shr(p[at / 8], 7 - at % 8) % 2;
      assert bitval == BitAt(p[..], offset + j);
      NextBit(p[..], offset, j, w);
      value := BitOr(U64(2 * value), bitval);
      at, j := at + 1, j + 1;
    }
  }

  /** The buffer s after the bits from offset on were replaced by d. */
  predicate Replaced(s: seq<Byte>, offset: nat, d: seq<nat>, s': seq<Byte>) {
    && |s'| == |s|
    && forall k :: 0 <= k < 8 * |s| ==>
      BitAt(s', k) == if offset <= k < offset + |d| then d[k - offset] else BitAt(s, k)
  }

  lemma PutByte(b: Byte, i: nat, v: nat)
    requires i < 8 && v <= 1
    ensures PutBit(b, 8, i, v) < 256
    ensures forall k :: 0 <= k < 8 ==> Shr(PutBit(b, 8, i, v), k) % 2 == if k == i then v else Shr(b, k) % 2
  {
    PutBitInByte(b, 8, i, v);
  }

  /** The same with the width as a parameter, so that nothing is unrolled on the literal 8. */
  lemma PutBitInByte(b: Byte, w: nat, i: nat, v: nat)
    requires w == 8 && i < w && v <= 1
    ensures PutBit(b, w, i, v) < 256
    ensures forall k :: 0 <= k < w ==> Shr(PutBit(b, w, i, v), k) % 2 == if k == i then v else Shr(b, k) % 2
  {
    assert Pow2(w) == 256 by { assert Pow2(4) == 16; assert Pow2(8) == 16 * Pow2(4); }
    forall k | 0 <= k < w ensures Shr(PutBit(b, w, i, v), k) % 2 == if k == i then v else Shr(b, k) % 2 {
      PutBitPuts(b, w, i, v, k);
    }
    PutBitPuts(b, w, i, v, i);
    PutBitFits(b, w, i, v);
  }

  /** Writing one bit of one byte changes that bit of the buffer and no other. */
  lemma PutBitAt(s: seq<Byte>, at: nat, v: nat, b: Byte, k: nat)
    requires at < 8 * |s| && k < 8 * |s| && v <= 1 && b == PutBit(s[at / 8], 8, 7 - at % 8, v)
    ensures BitAt(s[at / 8 := b], k) == if k == at then v else BitAt(s, k)
  {
    PutByte(s[at / 8], 7 - at % 8, v);
  }

  lemma ReplacedStep(s: seq<Byte>, offset: nat, d: seq<nat>, s': seq<Byte>, v: nat, b: Byte)
    requires Replaced(s, offset, d, s') && offset + |d| < 8 * |s| && v <= 1
    requires b == PutBit(s'[(offset + |d|) / 8], 8, 7 - (offset + |d|) % 8, v)
    ensures Replaced(s, offset, d + [v], s'[(offset + |d|) / 8 := b])
  {
    var at, d' := offset + |d|, d + [v];
    var s'': seq<Byte> := s'[at / 8 := b];
    forall k | 0 <= k < 8 * |s|
      ensures BitAt(s'', k) == if offset <= k < offset + |d'| then d'[k - offset] else BitAt(s, k)
    {
      PutBitAt(s', at, v, b, k);
    }
    assert Replaced(s, offset, d', s'');
  }

  lemma DigitTest(value: nat, i: nat)
    ensures (BitAnd(value, Pow2(i)) != 0) == (Shr(value, i) % 2 == 1)
  {
    AndPow2(value, i);
  }

  /** One turn of the loop of setUnsignedBitfield. */
  method PutOneBit(p: array<Byte>, at: nat, v: nat, ghost s: seq<Byte>, ghost offset: nat, ghost d: seq<nat>)
    requires v <= 1 && at == offset + |d| < 8 * p.Length && Replaced(s, offset, d, p[..])
    modifies p
    ensures Replaced(s, offset, d + [v], p[..])
  {
    var byte, bit := at / 8, 7 - at % 8;
    PutByte(p[byte], bit, v);
    var byteval: Byte := PutBit(p[byte], 8, bit, v);
    ReplacedStep(s, offset, d, p[..], v, byteval);
    ghost var new_ := p[..][byte := byteval];
    p[byte] := byteval;
    assert p[..] == new_;
  }

  /** setUnsignedBitfield. */
  method SetUnsigned(p: array<Byte>, offset: nat, bits: nat, value: nat)
    requires offset + bits <= 8 * p.Length && bits <= 64 && value < TWO64
    modifies p
    ensures Replaced(old(p[..]), offset, Digits(value, bits), p[..])
  {
    var at, j := offset, 0;
    while j < bits
      invariant j <= bits && at == offset + j
      invariant Replaced(old(p[..]), offset, Digits(value, bits)[..j], p[..])
    {
      var bitval := if BitAnd(value, Pow2(bits - 1 - j)) != 0 then 1 else 0;
      DigitTest(value, bits - 1 - j);
      assert Digits(value, bits)[..j + 1] == Digits(value, bits)[..j] + [bitval];
      PutOneBit(p, at, bitval, old(p[..]), offset, Digits(value, bits)[..j]);
      at, j := at + 1, j + 1;
    }
    assert Digits(value, bits)[..j] == Digits(value, bits);
  }

  lemma ReplacedField(s: seq<Byte>, offset: nat, d: seq<nat>, s': seq<Byte>)
    requires offset + |d| <= 8 * |s| && Replaced(s, offset, d, s')
    ensures Field(s', offset, |d|) == d
  {
    forall j | 0 <= j < |d| ensures Field(s', offset, |d|)[j] == d[j] {
      assert BitAt(s', offset + j) == d[j];
    }
  }

  /** What is read back after writing value: its remainder by 2^bits. */
  lemma ReplacedValue(s: seq<Byte>, offset: nat, bits: nat, value: nat, s': seq<Byte>)
    requires offset + bits <= 8 * |s| && Replaced(s, offset, Digits(value, bits), s')
    ensures ValueOf(Field(s', offset, bits)) == value % Pow2(bits)
  {
    ReplacedField(s, offset, Digits(value, bits), s');
    DigitsValue(value, bits);
    LowIsMod(value, bits);
  }

  // ----- signed fields --------------------------------------------------------------------------

  function Greatest(sign: bool, bits: nat): nat
    requires bits > 0
  {
    if sign then Pow2(bits - 1) - 1 else Pow2(bits) - 1
  }

  function Least(sign: bool, bits: nat): int
    requires bits > 0
  {
    if sign then 0 - Pow2(bits - 1) else 0
  }

  predicate Fits(x: int, sign: bool, bits: nat)
    requires bits > 0
  {
    Least(sign, bits) <= x <= Greatest(sign, bits)
  }

  /** The value of a field whose digits spell u. */
  function Meaning(u: nat, sign: bool, bits: nat): int
    requires bits > 0
  {
    if sign && u >= Pow2(bits - 1) then u - Pow2(bits) else u
  }

  /** (uint64_t)-1 << bits. */
  function HighMask(bits: nat): nat {
    U64(Shl(TWO64 - 1, bits))
  }

  lemma HighMaskIs(bits: nat, w: nat)
    requires bits < w && IsWordSize(w)
    ensures HighMask(bits) == OnesFrom(bits, w) && TWO64 - 1 - HighMask(bits) == Pow2(bits) - 1
  {
    ShlAdd(TWO64 - 1, 1, bits);
    ShlPow2(w, bits);
    Pow2Add(w, bits);
    Pow2StrictlyMonotone(bits, w);
    var p := Pow2(bits);
    assert Shl(TWO64 - 1, bits) == TWO64 * (p - 1) + (TWO64 - p);
  }

  lemma {:induction false} TopBit(x: nat, n: nat)
    requires n > 0
    ensures Shr(x, n - 1) % 2 == 1 <==> Low(x, n) >= Pow2(n - 1)
  {
    if n > 1 { TopBit(x / 2, n - 1); } else { assert Low(x / 2, 0) == 0; }
  }

  /** The sign extension that ends getSignedBitfield and the signed wrap-around. */
  function SignExtend(c: nat, bits: nat): int
    requires bits > 0
  {
    if BitAnd(c, Pow2(bits - 1)) != 0 then I64(BitOr(c, HighMask(bits)))
    else I64(BitAnd(c, TWO64 - 1 - HighMask(bits)))
  }

  lemma NegativeWord(p: nat, low: nat)
    requires low < p <= TWO63
    ensures I64(TWO64 - p + low) == low - p && I64(low) == low
  {
  }

  lemma SignBit(c: nat, bits: nat)
    requires bits > 0
    ensures BitAnd(c, Pow2(bits - 1)) != 0 <==> Low(c, bits) >= Pow2(bits - 1)
  {
    AndPow2(c, bits - 1);
    TopBit(c, bits);
  }

  lemma MaskedWord(c: nat, bits: nat, w: nat)
    requires bits < w && IsWordSize(w) && c < TWO64
    ensures BitOr(c, HighMask(bits)) == TWO64 - Pow2(bits) + Low(c, bits)
    ensures BitAnd(c, TWO64 - 1 - HighMask(bits)) == Low(c, bits)
  {
    HighMaskIs(bits, w);
    OrHigh(c, bits, w);
    AndLow(c, bits);
  }

  lemma {:induction false} SignExtends(c: nat, bits: nat, w: nat)
    requires 0 < bits < w && IsWordSize(w) && c < TWO64
    ensures SignExtend(c, bits) == Meaning(Low(c, bits), true, bits)
    ensures Fits(SignExtend(c, bits), true, bits)
  {
    SignBit(c, bits);
    MaskedWord(c, bits, w);
    Pow2Monotone(bits, w - 1);
    NegativeWord(Pow2(bits), Low(c, bits));
  }

  /** getSignedBitfield. */
  method GetSigned(p: array<Byte>, offset: nat, bits: nat) returns (value: int)
    requires offset + bits <= 8 * p.Length && 0 < bits < 64
    ensures value == Meaning(ValueOf(Field(p[..], offset, bits)), true, bits)
    ensures Fits(value, true, bits)
  {
    var u := GetUnsigned(p, offset, bits);
    ghost var w := WordSize(bits);
    Pow2StrictlyMonotone(bits, w);
    LowSmall(u, bits);
    SignExtends(u, bits, w);
    AndLow(u, bits);
    HighMaskIs(bits, w);
    value := if BitAnd(u, Pow2(bits - 1)) != 0 then I64(BitOr(u, HighMask(bits))) else I64(u);
  }

  // ----- overflow -------------------------------------------------------------------------------

  datatype Overflow = Wrap | Sat | Fail

  /** The value returned, 0, 1 or -1, and the limit stored; FAIL stores none. */
  datatype Check = Check(flag: int, limit: Option<int>)

  /** The limit both checks store once they know on which side the result overflows. */
  function Limited(side: int, max: int, min: int, wrapped: int, ow: Overflow): Check {
    if side == 0 then Check(0, None)
    else
      match ow
      case Wrap => Check(1, Some(wrapped))
      case Sat => Check(side, Some(if side == 1 then max else min))
      case Fail => Check(side, None)
  }

  function UnsignedSide(value: nat, incr: int, max: int): int {
    var maxincr := I64(max - value);
    var minincr := I64(0 - value);
    if value > max || (incr > 0 && incr > maxincr) then 1
    else if incr < 0 && incr < minincr then -1
    else 0
  }

  /** handle_wrap of checkUnsignedBitfieldOverflow. */
  function WrapUnsigned(value: nat, incr: int, bits: nat): int {
    BitAnd(U64(value + incr), TWO64 - 1 - HighMask(bits))
  }

  function CheckUnsigned(value: nat, incr: int, bits: nat, ow: Overflow): Check {
    var max := Pow2(bits) - 1;
    Limited(UnsignedSide(value, incr, max), max, 0, WrapUnsigned(value, incr, bits), ow)
  }

  function SignedSide(value: int, incr: int, max: int, bits: nat): int {
    var min := (0 - max) - 1;
    var maxincr := I64(max - value);
    var minincr := I64(min - value);
    if value > max || (bits != 64 && incr > maxincr) || (value >= 0 && incr > 0 && incr > maxincr) then 1
    else if value < min || (bits != 64 && incr < minincr) || (value < 0 && incr < 0 && incr < minincr) then -1
    else 0
  }

  /** handle_wrap of checkSignedBitfieldOverflow. */
  function WrapSigned(value: int, incr: int, bits: nat): int
    requires bits > 0
  {
    SignExtend(U64(U64(value) + U64(incr)), bits)
  }

  function CheckSigned(value: int, incr: int, bits: nat, ow: Overflow): Check
    requires bits > 0
  {
    var max := Pow2(bits - 1) - 1;
    Limited(SignedSide(value, incr, max, bits), max, (0 - max) - 1, WrapSigned(value, incr, bits), ow)
  }

  /** r is what storing x in a field leaves: x itself, or by the overflow mode its only value
      congruent to x that fits, the bound nearest to it, or nothing. */
  predicate Stores(r: Option<int>, x: int, sign: bool, bits: nat, ow: Overflow)
    requires bits > 0
  {
    if Fits(x, sign, bits) then r == Some(x)
    else
      match ow
      case Wrap => r.Some? && Fits(r.value, sign, bits) && (r.value - x) % Pow2(bits) == 0
      case Sat => r == Some(if x > Greatest(sign, bits) then Greatest(sign, bits) else Least(sign, bits))
      case Fail => r.None?
  }

  function Outcome(c: Check, exact: int): Option<int> {
    if c.flag == 0 then Some(exact) else c.limit
  }

  lemma CongruentSum(p: nat, rest: int, q: int, k: int, u: int, low: int, x: int)
    requires p > 0 && u == p * k + low && x == p * rest * q + u
    ensures (low - x) % p == 0
  {
    var m := 0 - k - rest * q;
    assert low - x == p * m;
    MultipleOf(p, m);
  }

  lemma MultipleOf(d: nat, k: int)
    requires d > 0
    ensures (d * k) % d == 0
  {
    var q, r := (d * k) / d, (d * k) % d;
    assert d * k == d * q + r && 0 <= r < d;
    if q < k { MulMonotone(d, q + 1, k); } else if q > k { MulMonotone(d, k + 1, q); }
  }

  lemma ModCongruent(u: nat, p: nat, rest: nat, t: nat, q: int, x: int)
    requires p > 0 && t == p * rest && x == t * q + u
    ensures (u % p - x) % p == 0
  {
    assert t * q == p * rest * q;
    CongruentSum(p, rest, q, u / p, u, u % p, x);
  }

  lemma WordMultiple(bits: nat, w: nat) returns (rest: nat)
    requires bits < w && IsWordSize(w)
    ensures TWO64 == Pow2(bits) * rest
  {
    rest := Pow2(w - bits);
    Pow2Add(bits, w - bits);
    assert bits + (w - bits) == w;
  }

  lemma U64Congruent(x: int, u: nat, p: nat, rest: nat)
    requires u == U64(x) && p > 0 && TWO64 == p * rest
    ensures (u % p - x) % p == 0
  {
    ModCongruent(u, p, rest, TWO64, x / TWO64, x);
  }

  /** Reducing to 64 bits first does not change the low bits. */
  lemma {:induction false} LowCongruent(x: int, bits: nat, w: nat)
    requires bits < w && IsWordSize(w)
    ensures (Low(U64(x), bits) - x) % Pow2(bits) == 0
  {
    LowIsMod(U64(x), bits);
    var rest := WordMultiple(bits, w);
    U64Congruent(x, U64(x), Pow2(bits), rest);
  }

  lemma {:induction false} MeaningCongruent(u: nat, x: int, bits: nat)
    requires bits > 0 && (u - x) % Pow2(bits) == 0
    ensures (Meaning(u, true, bits) - x) % Pow2(bits) == 0
  {
    ModMinus(u - x, Pow2(bits));
  }

  lemma ModMinus(d: int, p: nat)
    requires p > 0 && d % p == 0
    ensures (d - p) % p == 0
  {
    var k := d / p;
    assert d - p == p * (k - 1);
    MultipleOf(p, k - 1);
  }

  /** On which side of the bounds x lies. */
  function Side(x: int, max: int, min: int): int {
    if x > max then 1 else if x < min then -1 else 0
  }

  lemma LimitedStores(x: int, side: int, wrapped: int, sign: bool, bits: nat, ow: Overflow)
    requires bits > 0 && side == Side(x, Greatest(sign, bits), Least(sign, bits))
    requires Fits(wrapped, sign, bits) && (wrapped - x) % Pow2(bits) == 0
    ensures var c := Limited(side, Greatest(sign, bits), Least(sign, bits), wrapped, ow);
            c.flag == Reported(side, ow) && Stores(Outcome(c, x), x, sign, bits, ow)
  {
  }

  lemma UnsignedSideExact(value: nat, incr: int, max: int)
    requires 0 <= max < TWO63 && value < TWO64 && 0 - TWO63 <= incr < TWO63
    requires value <= max || incr == 0
    ensures UnsignedSide(value, incr, max) == Side(value + incr, max, 0)
  {
  }

  lemma {:induction false} WrapUnsignedWraps(value: nat, incr: int, bits: nat, w: nat)
    requires 0 < bits < w && IsWordSize(w)
    ensures Fits(WrapUnsigned(value, incr, bits), false, bits)
    ensures (WrapUnsigned(value, incr, bits) - (value + incr)) % Pow2(bits) == 0
  {
    HighMaskIs(bits, w);
    AndLow(U64(value + incr), bits);
    LowCongruent(value + incr, bits, w);
  }

  lemma BoundsBelow(bits: nat, w: nat)
    requires 0 < bits < w && IsWordSize(w)
    ensures 1 < Pow2(bits) <= TWO63 && Pow2(bits) == 2 * Pow2(bits - 1)
  {
    Pow2Monotone(bits, w - 1);
  }

  /** What the checks return for a result on that side: 0 if it fits; WRAP always returns 1. */
  function Reported(side: int, ow: Overflow): int {
    if side != 0 && ow == Wrap then 1 else side
  }

  /** Overflow is reported exactly when the exact result does not fit, on the right side save
      that WRAP always returns 1, and what is stored is what the mode asks for. */
  lemma CheckUnsignedExact(value: nat, incr: int, bits: nat, ow: Overflow, w: nat)
    requires 0 < bits < w && IsWordSize(w) && value < TWO64 && 0 - TWO63 <= incr < TWO63
    requires Fits(value, false, bits) || incr == 0
    ensures var c := CheckUnsigned(value, incr, bits, ow);
            && c.flag == Reported(Side(value + incr, Greatest(false, bits), Least(false, bits)), ow)
            && Stores(Outcome(c, value + incr), value + incr, false, bits, ow)
  {
    BoundsBelow(bits, w);
    UnsignedSideExact(value, incr, Greatest(false, bits));
    WrapUnsignedWraps(value, incr, bits, w);
    LimitedStores(value + incr, UnsignedSide(value, incr, Greatest(false, bits)), WrapUnsigned(value, incr, bits), false, bits, ow);
  }

  lemma SignedSideExact(value: int, incr: int, max: int, bits: nat)
    requires 0 <= max && (if bits == 64 then max == TWO63 - 1 else max < TWO63 / 2) && 0 - TWO63 <= incr < TWO63
    requires 0 - max - 1 <= value <= max
    ensures SignedSide(value, incr, max, bits) == Side(value + incr, max, 0 - max - 1)
  {
  }

  lemma U64Sum(a: int, b: int)
    ensures U64(U64(a) + U64(b)) == U64(a + b)
  {
  }

  lemma {:induction false} ExtendedCongruent(x: int, bits: nat, w: nat)
    requires 0 < bits < w && IsWordSize(w)
    ensures Fits(SignExtend(U64(x), bits), true, bits)
    ensures (SignExtend(U64(x), bits) - x) % Pow2(bits) == 0
  {
    SignExtends(U64(x), bits, w);
    LowCongruent(x, bits, w);
    MeaningCongruent(Low(U64(x), bits), x, bits);
  }

  lemma {:induction false} WrapSignedWraps(value: int, incr: int, bits: nat, w: nat)
    requires 0 < bits < w && IsWordSize(w)
    ensures Fits(WrapSigned(value, incr, bits), true, bits)
    ensures (WrapSigned(value, incr, bits) - (value + incr)) % Pow2(bits) == 0
  {
    U64Sum(value, incr);
    ExtendedCongruent(value + incr, bits, w);
  }

  lemma CheckSignedIs(value: int, incr: int, bits: nat, ow: Overflow)
    requires bits > 0
    ensures CheckSigned(value, incr, bits, ow)
         == Limited(SignedSide(value, incr, Greatest(true, bits), bits), Greatest(true, bits), Least(true, bits),
                    WrapSigned(value, incr, bits), ow)
  {
  }

  lemma {:induction false} CheckSignedExact(value: int, incr: int, bits: nat, ow: Overflow, w: nat)
    requires 0 < bits < w && IsWordSize(w) && bits < 64 && 0 - TWO63 <= incr < TWO63 && Fits(value, true, bits)
    ensures var c := CheckSigned(value, incr, bits, ow);
            && c.flag == Reported(Side(value + incr, Greatest(true, bits), Least(true, bits)), ow)
            && Stores(Outcome(c, value + incr), value + incr, true, bits, ow)
  {
    var max := Greatest(true, bits);
    var side, wrapped := SignedSide(value, incr, max, bits), WrapSigned(value, incr, bits);
    assert side == Side(value + incr, max, Least(true, bits)) by {
      BoundsBelow(bits, w);
      SignedSideExact(value, incr, max, bits);
    }
    WrapSignedWraps(value, incr, bits, w);
    LimitedStores(value + incr, side, wrapped, true, bits, ow);
    CheckSignedIs(value, incr, bits, ow);
  }

  /** The values for which checkSignedBitfieldOverflow computes max - value without overflow. */
  predicate BoundExact(value: int, bits: nat)
    requires bits > 0
  {
    Greatest(true, bits) - value < TWO63
  }

  lemma SignedSideOfValue(value: int, max: int, bits: nat)
    requires 0 <= max < TWO63 / 2 && bits < 64 && 0 - TWO63 <= value < TWO63
    ensures SignedSide(value, 0, max, bits)
         == if max - value < TWO63 then Side(value, max, 0 - max - 1) else 1
  {
  }

  /** Storing a given number checks it with a zero increment.  The bound max - value then
      overflows for the numbers below max - INT64_MAX, which are taken for too large: only
      saturation shows it, and stores the greatest value instead of the least. */
  lemma SignedSetExactly(value: int, bits: nat, ow: Overflow, w: nat)
    requires 0 < bits < w && IsWordSize(w) && bits < 64 && 0 - TWO63 <= value < TWO63
    ensures var r := Outcome(CheckSigned(value, 0, bits, ow), value);
            && (Stores(r, value, true, bits, ow) <==> ow != Sat || BoundExact(value, bits))
            && (!BoundExact(value, bits) && ow == Sat ==>
                  value < Least(true, bits) && r == Some(Greatest(true, bits)))
  {
    BoundsBelow(bits, w);
    var max := Greatest(true, bits);
    SignedSideOfValue(value, max, bits);
    WrapSignedWraps(value, 0, bits, w);
    if BoundExact(value, bits) {
      LimitedStores(value, SignedSide(value, 0, max, bits), WrapSigned(value, 0, bits), true, bits, ow);
    }
  }

  lemma SaturatingSetStoresMaximum()
    ensures Outcome(CheckSigned(0 - TWO63, 0, 8, Sat), 0 - TWO63) == Some(127)
  {
    assert Pow2(7) == 128;
  }

  // ----- the operations of BITFIELD -------------------------------------------------------------

  function FieldValue(s: seq<Byte>, offset: nat, bits: nat, sign: bool): int
    requires offset + bits <= 8 * |s| && bits > 0
  {
    Meaning(ValueOf(Field(s, offset, bits)), sign, bits)
  }

  lemma SmallMultiple(d: int, p: nat)
    requires p > 0 && d % p == 0 && 0 - p < d < 2 * p
    ensures d == 0 || d == p
  {
    var k := d / p;
    assert d == p * k;
    if k >= 2 { MulMonotone(p, 2, k); } else if k <= -1 { MulMonotone(p, k, -1); }
  }

  /** A number that fits is read back as it was stored. */
  lemma FittingReadBack(v: int, bits: nat, sign: bool, w: nat)
    requires 0 < bits < w && IsWordSize(w) && Fits(v, sign, bits)
    ensures Meaning(Low(U64(v), bits), sign, bits) == v
  {
    LowCongruent(v, bits, w);
    SmallMultiple(Low(U64(v), bits) - v, Pow2(bits));
  }

  /** s' is s with the field set to the stored number, if any, and no other bit changed. */
  predicate Updated(s: seq<Byte>, offset: nat, bits: nat, sign: bool, stored: Option<int>, s': seq<Byte>)
    requires offset + bits <= 8 * |s| && bits > 0
  {
    && |s'| == |s|
    && FieldValue(s', offset, bits, sign) == (if stored.Some? then stored.value else FieldValue(s, offset, bits, sign))
    && forall k :: 0 <= k < 8 * |s| && !(offset <= k < offset + bits) ==> BitAt(s', k) == BitAt(s, k)
  }

  lemma ReplacedUpdates(s: seq<Byte>, offset: nat, bits: nat, sign: bool, v: int, s': seq<Byte>, w: nat)
    requires offset + bits <= 8 * |s| && 0 < bits < w && IsWordSize(w) && Fits(v, sign, bits)
    requires Replaced(s, offset, Digits(U64(v), bits), s')
    ensures Updated(s, offset, bits, sign, Some(v), s')
  {
    FittingReadBack(v, bits, sign, w);
    LowIsMod(U64(v), bits);
    ReplacedValue(s, offset, bits, U64(v), s');
  }

  method GetField(p: array<Byte>, offset: nat, bits: nat, sign: bool) returns (v: int)
    requires offset + bits <= 8 * p.Length && 0 < bits < 64
    ensures v == FieldValue(p[..], offset, bits, sign) && Fits(v, sign, bits)
  {
    if sign {
      v := GetSigned(p, offset, bits);
    } else {
      v := GetUnsigned(p, offset, bits);
    }
  }

  /** setSignedBitfield and setUnsignedBitfield of a checked value, or nothing on failure. */
  method StoreField(p: array<Byte>, offset: nat, bits: nat, sign: bool, stored: Option<int>)
    requires offset + bits <= 8 * p.Length && 0 < bits < 64
    requires stored.Some? ==> Fits(stored.value, sign, bits)
    modifies p
    ensures Updated(old(p[..]), offset, bits, sign, stored, p[..])
  {
    if stored.Some? {
      ghost var w := WordSize(bits);
      SetUnsigned(p, offset, bits, U64(stored.value));
      ReplacedUpdates(old(p[..]), offset, bits, sign, stored.value, p[..], w);
    }
  }

  function CheckedSum(v: int, incr: int, bits: nat, sign: bool, ow: Overflow): Option<int>
    requires bits > 0 && (!sign ==> v >= 0)
  {
    Outcome(if sign then CheckSigned(v, incr, bits, ow) else CheckUnsigned(v, incr, bits, ow), v + incr)
  }

  lemma CheckedSumStores(v: int, incr: int, bits: nat, sign: bool, ow: Overflow)
    requires 0 < bits < 64 && 0 - TWO63 <= incr < TWO63 && Fits(v, sign, bits)
    ensures Stores(CheckedSum(v, incr, bits, sign, ow), v + incr, sign, bits, ow)
  {
    var w := WordSize(bits);
    BoundsBelow(bits, w);
    if sign { CheckSignedExact(v, incr, bits, ow, w); } else { CheckUnsignedExact(v, incr, bits, ow, w); }
  }

  /** BITFIELD INCRBY: the field takes the exact sum, what the overflow mode makes of it, or
      stays; the reply is the new value, or nil when nothing was written. */
  method IncrBy(p: array<Byte>, offset: nat, bits: nat, sign: bool, incr: int, ow: Overflow) returns (reply: Option<int>)
    requires offset + bits <= 8 * p.Length && 0 < bits < 64 && 0 - TWO63 <= incr < TWO63
    modifies p
    ensures Stores(reply, old(FieldValue(p[..], offset, bits, sign)) + incr, sign, bits, ow)
    ensures Updated(old(p[..]), offset, bits, sign, reply, p[..])
  {
    var oldval := GetField(p, offset, bits, sign);
    reply := CheckedSum(oldval, incr, bits, sign, ow);
    CheckedSumStores(oldval, incr, bits, sign, ow);
    StoreField(p, offset, bits, sign, reply);
  }

  /** What SET stores: unsigned fields take the given number as a uint64_t. */
  function Given(value: int, sign: bool): int {
    if sign then value else U64(value)
  }

  function CheckedValue(value: int, bits: nat, sign: bool, ow: Overflow): Option<int>
    requires bits > 0
  {
    if sign then Outcome(CheckSigned(value, 0, bits, ow), value)
    else Outcome(CheckUnsigned(U64(value), 0, bits, ow), U64(value))
  }

  lemma CheckedValueStores(value: int, bits: nat, sign: bool, ow: Overflow)
    requires 0 < bits < 64 && 0 - TWO63 <= value < TWO63
    ensures var r := CheckedValue(value, bits, sign, ow);
            && (r.Some? ==> Fits(r.value, sign, bits))
            && (Stores(r, Given(value, sign), sign, bits, ow) <==> !sign || ow != Sat || BoundExact(value, bits))
  {
    var w := WordSize(bits);
    BoundsBelow(bits, w);
    if sign { SignedSetExactly(value, bits, ow, w); } else { CheckUnsignedExact(U64(value), 0, bits, ow, w); }
  }

  /** BITFIELD SET replies with the old value. */
  method SetField(p: array<Byte>, offset: nat, bits: nat, sign: bool, value: int, ow: Overflow) returns (reply: Option<int>)
    requires offset + bits <= 8 * p.Length && 0 < bits < 64 && 0 - TWO63 <= value < TWO63
    modifies p
    ensures var stored := CheckedValue(value, bits, sign, ow);
            && Updated(old(p[..]), offset, bits, sign, stored, p[..])
            && reply == if stored.Some? then Some(old(FieldValue(p[..], offset, bits, sign))) else None
  {
    var oldval := GetField(p, offset, bits, sign);
    var stored := CheckedValue(value, bits, sign, ow);
    CheckedValueStores(value, bits, sign, ow);
    StoreField(p, offset, bits, sign, stored);
    reply := if stored.Some? then Some(oldval) else None;
  }

  /** The string as if it went on with zero bytes for ever, up to n bytes. */
  function ZeroPadded(s: seq<Byte>, n: nat): (r: seq<Byte>)
    ensures |r| == n
  {
    seq<Byte>(n, i requires 0 <= i < n => if i < |s| then s[i] else 0)
  }

  lemma FieldInWindow(s: seq<Byte>, t: seq<Byte>, offset: nat, bits: nat, n: nat)
    requires |t| == 9 && bits <= 64 && offset + bits <= 8 * n && offset / 8 + 9 <= n
    requires forall i :: 0 <= i < 9 ==> t[i] == ZeroPadded(s, n)[offset / 8 + i]
    ensures Field(t, offset - offset / 8 * 8, bits) == Field(ZeroPadded(s, n), offset, bits)
  {
    var window, whole := Field(t, offset - offset / 8 * 8, bits), Field(ZeroPadded(s, n), offset, bits);
    forall j | 0 <= j < bits ensures window[j] == whole[j] {
      assert (offset + j) / 8 == offset / 8 + (offset % 8 + j) / 8;
    }
  }

  method CopyPadded(s: seq<Byte>, byte: nat) returns (buf: array<Byte>)
    ensures fresh(buf) && buf.Length == 9
    ensures forall k :: 0 <= k < 9 ==> buf[k] == ZeroPadded(s, byte + 9)[byte + k]
  {
    buf := new Byte[9](i => 0);
    var i := 0;
    while i < 9 && i + byte < |s|
      invariant i <= 9
      invariant forall k :: 0 <= k < i ==> k + byte < |s| && buf[k] == s[k + byte]
      invariant forall k :: i <= k < 9 ==> buf[k] == 0
    {
      buf[i] := s[i + byte];
      i := i + 1;
    }
  }

  /** BITFIELD GET works on a copy of nine bytes, which makes a field beyond the end of the
      string, or only partly inside it, read as zeros there. */
  method GetPadded(s: seq<Byte>, offset: nat, bits: nat, sign: bool) returns (v: int)
    requires 0 < bits < 64
    ensures v == FieldValue(ZeroPadded(s, offset / 8 + 9), offset, bits, sign)
  {
    var byte := offset / 8;
    var buf := CopyPadded(s, byte);
    FieldInWindow(s, buf[..], offset, bits, offset / 8 + 9);
    v := GetField(buf, offset - byte * 8, bits, sign);
  }
}
