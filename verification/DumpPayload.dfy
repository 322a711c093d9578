/** The payload of DUMP: a serialized value, the version of its format and a checksum. */
module DumpPayload {
  import opened Crc64

  const RDB_VERSION: bv16 := 7

  /** Byte j of a checksum in little-endian order. */
  function ByteOf(c: bv64, j: nat): bv8
    requires j < 8
  {
    match j
    case 0 => (c & 0xff) as bv8
    case 1 => ((c >> 8) & 0xff) as bv8
    case 2 => ((c >> 16) & 0xff) as bv8
    case 3 => ((c >> 24) & 0xff) as bv8
    case 4 => ((c >> 32) & 0xff) as bv8
    case 5 => ((c >> 40) & 0xff) as bv8
    case 6 => ((c >> 48) & 0xff) as bv8
    case _ => (c >> 56) as bv8
  }

  function LittleEndian8(c: bv64): (r: seq<bv8>)
    ensures |r| == 8
  {
    seq(8, j requires 0 <= j < 8 => ByteOf(c, j))
  }

  function Footed(tab: Table, body: seq<bv8>): seq<bv8> {
    body + LittleEndian8(Crc(tab, 0, body))
  }

  /** What createDumpPayload makes of a serialized value. */
  function Created(tab: Table, value: seq<bv8>): seq<bv8> {
    Footed(tab, value + [(RDB_VERSION & 0xff) as bv8, ((RDB_VERSION >> 8) & 0xff) as bv8])
  }

  function Version(p: seq<bv8>): bv16
    requires |p| >= 10
  {
    ((p[|p| - 9] as bv16) << 8) | (p[|p| - 10] as bv16)
  }

  /** What verifyDumpPayload accepts. */
  predicate Verifies(tab: Table, p: seq<bv8>) {
    && |p| >= 10 && Version(p) <= RDB_VERSION
    && p[|p| - 8..] == LittleEndian8(Crc(tab, 0, p[..|p| - 8]))
  }

  /** Every payload that is created verifies. */
  lemma CreatedVerifies(tab: Table, value: seq<bv8>)
    ensures Verifies(tab, Created(tab, value))
  {
    var v: seq<bv8> := [(RDB_VERSION & 0xff) as bv8, ((RDB_VERSION >> 8) & 0xff) as bv8];
    var body := value + v;
    var p := Created(tab, value);
    assert p[..|p| - 8] == body;
    assert p[|p| - 10] == v[0] && p[|p| - 9] == v[1];
  }

  function Low8(v: bv16): bv8 {
    (v & 0xff) as bv8
  }

  function High8(v: bv16): bv8 {
    ((v >> 8) & 0xff) as bv8
  }

  lemma TwoBytes(v: bv16)
    ensures ((High8(v) as bv16) << 8) | (Low8(v) as bv16) == v
  {
  }

  /** A payload of any version with the right checksum verifies if and only if its version is not
      newer than this server's. */
  lemma VersionDecides(tab: Table, value: seq<bv8>, v: bv16)
    ensures Verifies(tab, Footed(tab, value + [Low8(v), High8(v)])) <==> v <= RDB_VERSION
  {
    var body := value + [Low8(v), High8(v)];
    var p := Footed(tab, body);
    assert p[..|p| - 8] == body;
    assert p[|p| - 10] == Low8(v) && p[|p| - 9] == High8(v);
    TwoBytes(v);
  }

  lemma AgreeMore(c: bv64, d: bv64, k: nat)
    requires 0 < k <= 8 && Agree(c, d, k - 1) && ByteOf(c, 8 - k) == ByteOf(d, 8 - k)
    ensures Agree(c, d, k)
  {
  }

  /** Checksums whose last k bytes agree agree in their k most significant bytes. */
  lemma {:induction false} LastBytesAgree(c: bv64, d: bv64, k: nat)
    requires k <= 8 && forall j :: 8 - k <= j < 8 ==> ByteOf(c, j) == ByteOf(d, j)
    ensures Agree(c, d, k)
  {
    if k > 0 {
      LastBytesAgree(c, d, k - 1);
      AgreeMore(c, d, k);
    } else {
      NoBytes(c, d);
    }
  }

  lemma NoBytes(c: bv64, d: bv64)
    ensures Agree(c, d, 0)
  {
  }

  /** p and q have the same length and differ at most in the eight bytes from i on. */
  predicate DifferWithin(p: seq<bv8>, q: seq<bv8>, i: nat) {
    |p| == |q| && forall j :: 0 <= j < |p| && !(i <= j < i + 8) ==> p[j] == q[j]
  }

  /** The last eight bytes are the checksum of the first n. */
  predicate Checked(tab: Table, p: seq<bv8>, n: nat) {
    |p| == n + 8 && p[n..] == LittleEndian8(Crc(tab, 0, p[..n]))
  }

  /** A window that ends in the body: equal checksums mean equal states behind it. */
  lemma WindowInside(tab: Table, p: seq<bv8>, q: seq<bv8>, e: nat, n: nat)
    requires Distinct(tab) && e <= n <= |p| && n <= |q| && p[e..n] == q[e..n]
    requires Crc(tab, 0, p[..n]) == Crc(tab, 0, q[..n])
    ensures Crc(tab, 0, p[..e]) == Crc(tab, 0, q[..e])
  {
    var tail := p[e..n];
    assert p[..n] == p[..e] + tail && q[..n] == q[..e] + tail;
    CrcConcat(tab, 0, p[..e], tail);
    CrcConcat(tab, 0, q[..e], tail);
    CrcInjective(tab, Crc(tab, 0, p[..e]), Crc(tab, 0, q[..e]), tail);
  }

  /** A window that reaches k bytes into the body: the checksums share their last k bytes. */
  lemma ChecksumsAgree(tab: Table, p: seq<bv8>, q: seq<bv8>, i: nat, n: nat, k: nat)
    requires Checked(tab, p, n) && Checked(tab, q, n) && DifferWithin(p, q, i)
    requires k <= 8 && i + k <= n && i + 8 <= n + (8 - k)
    ensures Agree(Crc(tab, 0, p[..n]), Crc(tab, 0, q[..n]), k)
  {
    var c, d := Crc(tab, 0, p[..n]), Crc(tab, 0, q[..n]);
    forall j | 8 - k <= j < 8 ensures ByteOf(c, j) == ByteOf(d, j) {
      assert p[n..][j] == p[n + j] && q[n..][j] == q[n + j];
    }
    LastBytesAgree(c, d, k);
  }

  /** A window inside the body leaves equal states behind it. */
  lemma StatesEqual(tab: Table, p: seq<bv8>, q: seq<bv8>, i: nat, n: nat)
    requires Distinct(tab) && Checked(tab, p, n) && Checked(tab, q, n) && DifferWithin(p, q, i) && i + 8 <= n
    ensures Crc(tab, 0, p[..i + 8]) == Crc(tab, 0, q[..i + 8])
  {
    ChecksumsAgree(tab, p, q, i, n, 8);
    AgreeAll(Crc(tab, 0, p[..n]), Crc(tab, 0, q[..n]));
    assert p[i + 8..n] == q[i + 8..n];
    WindowInside(tab, p, q, i + 8, n);
  }

  /** The states where the window leaves the body agree in as many bytes as it covers there. */
  lemma StatesAgree(tab: Table, p: seq<bv8>, q: seq<bv8>, i: nat, n: nat, e: nat)
    requires Distinct(tab) && Checked(tab, p, n) && Checked(tab, q, n) && DifferWithin(p, q, i)
    requires i <= n && e == if i + 8 <= n then i + 8 else n
    ensures Agree(Crc(tab, 0, p[..e]), Crc(tab, 0, q[..e]), e - i)
  {
    if i + 8 <= n {
      StatesEqual(tab, p, q, i, n);
      AgreeAll(Crc(tab, 0, p[..e]), Crc(tab, 0, q[..e]));
    } else {
      ChecksumsAgree(tab, p, q, i, n, n - i);
    }
  }

  /** Where the states agree in as many bytes as differ, no byte differs. */
  lemma SameBeginning(tab: Table, p: seq<bv8>, q: seq<bv8>, i: nat, e: nat)
    requires Distinct(tab) && i <= e <= |p| && e <= |q| && e - i <= 8 && p[..i] == q[..i]
    requires Agree(Crc(tab, 0, p[..e]), Crc(tab, 0, q[..e]), e - i)
    ensures p[..e] == q[..e]
  {
    assert p[..e] == p[..i] + p[i..e] && q[..e] == p[..i] + q[i..e];
    SameWindow(tab, p[..i], p[i..e], q[i..e]);
  }

  /** If the window begins in the body, the bodies are the same. */
  lemma SameBody(tab: Table, p: seq<bv8>, q: seq<bv8>, i: nat, n: nat)
    requires Distinct(tab) && Checked(tab, p, n) && Checked(tab, q, n) && DifferWithin(p, q, i) && i <= n
    ensures p[..n] == q[..n]
  {
    var e := if i + 8 <= n then i + 8 else n;
    StatesAgree(tab, p, q, i, n, e);
    SameBeginning(tab, p, q, i, e);
    assert p[..n] == p[..e] + p[e..n] && q[..n] == q[..e] + q[e..n];
  }

  lemma SameWindow(tab: Table, head: seq<bv8>, a: seq<bv8>, b: seq<bv8>)
    requires Distinct(tab) && |a| == |b| <= 8
    requires Agree(Crc(tab, 0, head + a), Crc(tab, 0, head + b), |a|)
    ensures a == b
  {
    CrcConcat(tab, 0, head, a);
    CrcConcat(tab, 0, head, b);
    BurstDetermined(tab, Crc(tab, 0, head), a, b);
  }

  /** Two payloads that verify and differ within eight bytes do not differ. */
  lemma VerifiedEqual(tab: Table, p: seq<bv8>, q: seq<bv8>, i: nat)
    requires Distinct(tab) && Verifies(tab, p) && Verifies(tab, q) && DifferWithin(p, q, i)
    ensures p == q
  {
    var n := |p| - 8;
    if i <= n {
      SameBody(tab, p, q, i, n);
    } else {
      assert p[..n] == q[..n];
    }
    assert p == p[..n] + p[n..] && q == q[..n] + q[n..];
  }

  /** A payload that verifies no longer does after any change confined to eight consecutive
      bytes, be they value, version or checksum. */
  lemma BurstFails(p: seq<bv8>, q: seq<bv8>, i: nat)
    requires Verifies(Tab, p) && DifferWithin(p, q, i) && p != q
    ensures !Verifies(Tab, q)
  {
    TableDistinct();
    if Verifies(Tab, q) { VerifiedEqual(Tab, p, q, i); }
  }

  /** Changing any single byte makes a payload fail. */
  lemma ByteChangeFails(p: seq<bv8>, i: nat, b: bv8)
    requires Verifies(Tab, p) && i < |p| && b != p[i]
    ensures !Verifies(Tab, p[i := b])
  {
    var q := p[i := b];
    assert q[i] != p[i];
    BurstFails(p, q, i);
  }

  /** createDumpPayload, from the serialized value on. */
  method CreatePayload(tab: Table, value: seq<bv8>) returns (p: seq<bv8>)
    ensures p == Created(tab, value)
  {
    p := value + [(RDB_VERSION & 0xff) as bv8, ((RDB_VERSION >> 8) & 0xff) as bv8];
    var crc := ComputeCrc(tab, 0, p);
    p := p + LittleEndian8(crc);
  }

  /** verifyDumpPayload. */
  method VerifyPayload(tab: Table, p: seq<bv8>) returns (ok: bool)
    ensures ok == Verifies(tab, p)
  {
    if |p| < 10 { return false; }
    var footer := p[|p| - 10..];
    var rdbver := ((footer[1] as bv16) << 8) | (footer[0] as bv16);
    if rdbver > RDB_VERSION { return false; }
    var crc := ComputeCrc(tab, 0, p[..|p| - 8]);
    assert footer[2..] == p[|p| - 8..];
    ok := LittleEndian8(crc) == footer[2..];
  }
}
