/** The text of the append-only file: the printer catAppendOnlyGenericCommand and the reader
    loadAppendOnlyFile, with its recovery from a truncated tail. */
module AofCodec {
  import opened Prelude

  type Bytes = seq<Byte>

  /** A command is the list of its arguments. */
  type Command = seq<Bytes>

  const STAR := 42
  const DOLLAR := 36
  const CR := 13
  const LF := 10
  const LINE_MAX := 127   // fgets(buf, 128, fp)

  // ----- decimal numbers ----------------------------------------------------------------

  predicate IsDigit(b: Byte) {
    48 <= b <= 57
  }

  /** ll2string on a non-negative number. */
  function Dec(n: nat): (r: Bytes)
    ensures r != [] && forall i :: 0 <= i < |r| ==> IsDigit(r[i])
    ensures n > 0 ==> r[0] != 48
  {
    if n < 10 then [48 + n] else Dec(n / 10) + [48 + n % 10]
  }

  /** The value of the digits that s starts with, after the digits already read. */
  function ReadDigits(s: Bytes, acc: nat): nat {
    if s == [] || !IsDigit(s[0]) then acc else ReadDigits(s[1..], 10 * acc + (s[0] - 48))
  }

  predicate IsSpace(b: Byte) {
    b == 32 || 9 <= b <= 13
  }

  /** atoi and strtol in base ten. */
  function ParseInt(s: Bytes): int {
    if s == [] then 0
    else if IsSpace(s[0]) then ParseInt(s[1..])
    else if s[0] == 45 then 0 - ReadDigits(s[1..], 0)
    else if s[0] == 43 then ReadDigits(s[1..], 0)
    else ReadDigits(s, 0)
  }

  lemma {:induction false} ReadDigitsSplit(s: Bytes, t: Bytes, acc: nat)
    requires forall i :: 0 <= i < |s| ==> IsDigit(s[i])
    ensures ReadDigits(s + t, acc) == ReadDigits(t, ReadDigits(s, acc))
  {
    if s == [] {
      assert s + t == t;
    } else {
      assert (s + t)[1..] == s[1..] + t;
      ReadDigitsSplit(s[1..], t, 10 * acc + (s[0] - 48));
    }
  }

  lemma {:induction false} ReadDigitsDec(n: nat)
    ensures ReadDigits(Dec(n), 0) == n
  {
    if n < 10 {
      assert ReadDigits([48 + n][1..], n) == n;
    } else {
      ReadDigitsDec(n / 10);
      ReadDigitsSplit(Dec(n / 10), [48 + n % 10], 0);
      assert ReadDigits([48 + n % 10], n / 10) == ReadDigits([], 10 * (n / 10) + n % 10);
    }
  }

  /** A printed number is read back, whatever non-digit follows it. */
  lemma ParseDec(n: nat, t: Bytes)
    requires t == [] || !IsDigit(t[0])
    ensures ParseInt(Dec(n) + t) == n
  {
    var s := Dec(n) + t;
    assert s[0] == Dec(n)[0];
    ReadDigitsSplit(Dec(n), t, 0);
    ReadDigitsDec(n);
  }

  lemma {:induction false} ReadDigitsGrow(s: Bytes, acc: nat)
    ensures ReadDigits(s, acc) >= acc
  {
    if s != [] && IsDigit(s[0]) { ReadDigitsGrow(s[1..], 10 * acc + (s[0] - 48)); }
  }

  /** A non-empty beginning of a printed positive number reads as a positive number. */
  lemma ParseDecPrefix(n: nat, k: nat, t: Bytes)
    requires n > 0 && 0 < k <= |Dec(n)|
    ensures ParseInt(Dec(n)[..k] + t) >= 1
  {
    var s := Dec(n)[..k] + t;
    assert s[0] == Dec(n)[0];
    ReadDigitsGrow(s[1..], s[0] - 48);
  }

  /** Any beginning of a printed number, even an empty one, reads as a non-negative number. */
  lemma ParseDecBeginning(n: nat, k: nat, t: Bytes)
    requires k <= |Dec(n)| && (t == [] || t == [CR])
    ensures ParseInt(Dec(n)[..k] + t) >= 0
  {
    var s := Dec(n)[..k] + t;
    if k > 0 {
      assert s[0] == Dec(n)[0];
    } else if t == [CR] {
      assert s == [CR] && s[1..] == [];
    }
  }

  function Pow10(k: nat): nat {
    if k == 0 then 1 else 10 * Pow10(k - 1)
  }

  lemma {:induction false} DecLength(n: nat, k: nat)
    requires k > 0 && n < Pow10(k)
    ensures |Dec(n)| <= k
  {
    if n >= 10 {
      assert k > 1 by { assert Pow10(1) == 10; }
      DecLength(n / 10, k - 1);
    }
  }

  const INT_MAX := 2147483647
  const LONG_MAX := 9223372036854775807

  lemma NumbersFitLine(n: nat)
    requires n <= LONG_MAX
    ensures |Dec(n)| <= 19
  {
    assert Pow10(4) == 10000;
    assert Pow10(8) == 10000 * Pow10(4);
    assert Pow10(12) == 10000 * Pow10(8);
    assert Pow10(16) == 10000 * Pow10(12);
    assert Pow10(19) == 1000 * Pow10(16);
    DecLength(n, 19);
  }

  // ----- the printer -----------------------------------------------------------------------

  function Header(c: Byte, n: nat): Bytes {
    [c] + Dec(n) + [CR, LF]
  }

  function EncodeArg(a: Bytes): Bytes {
    Header(DOLLAR, |a|) + a + [CR, LF]
  }

  function EncodeArgs(args: seq<Bytes>): Bytes {
    if args == [] then [] else EncodeArg(args[0]) + EncodeArgs(args[1..])
  }

  function Encode(c: Command): Bytes {
    Header(STAR, |c|) + EncodeArgs(c)
  }

  function EncodeAll(cs: seq<Command>): Bytes {
    if cs == [] then [] else Encode(cs[0]) + EncodeAll(cs[1..])
  }

  /** What the types of the source allow: argc is an int, an argument's length a long. */
  predicate Printable(c: Command) {
    0 < |c| <= INT_MAX && forall i :: 0 <= i < |c| ==> |c[i]| <= LONG_MAX
  }

  // ----- the reader ------------------------------------------------------------------------

  /** Length of the line fgets reads: up to and including the first newline, at most 127. */
  function LineLength(s: Bytes, room: nat): (n: nat)
    ensures n <= |s| && n <= room
    ensures s != [] && room > 0 ==> n > 0
    decreases |s|
  {
    if s == [] || room == 0 then 0
    else if s[0] == LF then 1
    else 1 + LineLength(s[1..], room - 1)
  }

  /** The read that returned s ran into the end of the file. */
  predicate AtEof(s: Bytes) {
    var n := LineLength(s, LINE_MAX);
    n == |s| && n < LINE_MAX && (n == 0 || s[n - 1] != LF)
  }

  datatype Args = Got(args: seq<Bytes>, rest: Bytes) | ShortRead | BadFormat | Unreadable

  function Cons(a: Bytes, r: Args): Args {
    if r.Got? then Got([a] + r.args, r.rest) else r
  }

  /** One argument: its header line, its bytes and the CRLF behind them. */
  function ReadOne(s: Bytes): (r: Args)
    ensures r.Got? ==> |r.args| == 1 && |r.rest| < |s|
  {
    if s == [] then ShortRead
    else if s[0] != DOLLAR then BadFormat
    else
      var k := LineLength(s, LINE_MAX);
      var len := ParseInt(s[1..k]);
      if len < 0 then Unreadable
      else if |s| < k + len + 2 then ShortRead   // fread of the argument, or of its CRLF, fails
      else Got([s[k..k + len]], s[k + len + 2..])
  }

  /** The loop over the arguments of one command. */
  function ReadArgs(s: Bytes, n: nat): (r: Args)
    ensures r.Got? ==> |r.rest| <= |s|
    decreases n
  {
    if n == 0 then Got([], s)
    else
      var one := ReadOne(s);
      if one.Got? then Cons(one.args[0], ReadArgs(one.rest, n - 1)) else one
  }

  /** One command from the rest of the file. */
  function ReadCommand(s: Bytes): (r: Args)
    ensures r.Got? ==> |r.rest| < |s|
  {
    var k := LineLength(s, LINE_MAX);
    if s == [] then ShortRead
    else if s[0] != STAR then BadFormat
    else if k == 1 || s[1] == 0 then (if AtEof(s) then ShortRead else Unreadable)
    else
      var argc := ParseInt(s[1..k]);
      if argc < 1 then BadFormat else ReadArgs(s[k..], argc)
  }

  /** How the reading loop ends, and the commands run until then.  A short read reports the
      offset of the end of the last command. */
  datatype Loaded = Loaded(cmds: seq<Command>, end: End)
  datatype End = Complete | TruncatedAt(offset: nat) | FormatError | ReadError

  type Reader = Bytes -> Args

  /** The loading loop over what `read` makes of the rest of the file; a reader that gets a
      command without consuming anything would be an error, and ReadCommand is not one. */
  function LoadFrom(read: Reader, s: Bytes, offset: nat): Loaded
    decreases |s|
  {
    if s == [] then Loaded([], Complete)
    else
      match read(s)
      case Got(c, rest) =>
        if |rest| >= |s| then Loaded([], ReadError)
        else
          var r := LoadFrom(read, rest, offset + (|s| - |rest|));
          Loaded([c] + r.cmds, r.end)
      case ShortRead => Loaded([], TruncatedAt(offset))
      case BadFormat => Loaded([], FormatError)
      case Unreadable => Loaded([], ReadError)
  }

  // ----- reading what was printed --------------------------------------------------------------

  lemma {:induction false} LineOfDigits(d: Bytes, t: Bytes, room: nat)
    requires forall i :: 0 <= i < |d| ==> IsDigit(d[i])
    requires |d| + 2 <= room
    ensures LineLength(d + [CR, LF] + t, room) == |d| + 2
    decreases |d|
  {
    var s := d + [CR, LF] + t;
    if d == [] {
      assert s[0] == CR && s[1..][0] == LF;
      assert LineLength(s[1..], room - 1) == 1;
    } else {
      assert s[1..] == d[1..] + [CR, LF] + t;
      LineOfDigits(d[1..], t, room - 1);
    }
  }

  lemma HeaderLine(c: Byte, n: nat, t: Bytes)
    requires c != LF && n <= LONG_MAX
    ensures var s := Header(c, n) + t;
            && LineLength(s, LINE_MAX) == |Header(c, n)| && s[0] == c
            && s[1..|Header(c, n)|] == Dec(n) + [CR, LF] && s[|Header(c, n)|..] == t
  {
    NumbersFitLine(n);
    var s := Header(c, n) + t;
    assert s[1..] == Dec(n) + [CR, LF] + t;
    LineOfDigits(Dec(n), t, LINE_MAX - 1);
  }

  lemma Slices(h: Bytes, a: Bytes, crlf: Bytes, t: Bytes)
    requires |crlf| == 2
    ensures var s := h + (a + crlf + t);
            s[|h|..|h| + |a|] == a && s[|h| + |a| + 2..] == t && |s| >= |h| + |a| + 2
  {
  }

  lemma ReadPrintedOne(a: Bytes, t: Bytes)
    requires |a| <= LONG_MAX
    ensures ReadOne(EncodeArg(a) + t) == Got([a], t)
  {
    var h := Header(DOLLAR, |a|);
    var s := h + (a + [CR, LF] + t);
    assert EncodeArg(a) + t == s;
    Slices(h, a, [CR, LF], t);
    HeaderLine(DOLLAR, |a|, a + [CR, LF] + t);
    ParseDec(|a|, [CR, LF]);
  }

  lemma ReadOneArg(a: Bytes, t: Bytes, n: nat)
    requires |a| <= LONG_MAX && n > 0
    ensures ReadArgs(EncodeArg(a) + t, n) == Cons(a, ReadArgs(t, n - 1))
  {
    ReadPrintedOne(a, t);
  }

  lemma {:induction false} ReadPrintedArgs(args: seq<Bytes>, t: Bytes)
    requires forall i :: 0 <= i < |args| ==> |args[i]| <= LONG_MAX
    ensures ReadArgs(EncodeArgs(args) + t, |args|) == Got(args, t)
    decreases |args|
  {
    if args == [] {
      assert EncodeArgs(args) + t == t;
    } else {
      ReadPrintedArgs(args[1..], t);
      ReadOneArg(args[0], EncodeArgs(args[1..]) + t, |args|);
      assert EncodeArgs(args) + t == EncodeArg(args[0]) + (EncodeArgs(args[1..]) + t);
      assert [args[0]] + args[1..] == args;
    }
  }

  lemma ReadPrintedCommand(c: Command, t: Bytes)
    requires Printable(c)
    ensures ReadCommand(Encode(c) + t) == Got(c, t)
  {
    var s := Encode(c) + t;
    assert s == Header(STAR, |c|) + (EncodeArgs(c) + t);
    HeaderLine(STAR, |c|, EncodeArgs(c) + t);
    ParseDec(|c|, [CR, LF]);
    ReadPrintedArgs(c, t);
    assert s[1] == Dec(|c|)[0];
  }

  /** One turn of the loading loop. */
  lemma LoadTurn(read: Reader, s: Bytes, c: Command, t: Bytes, offset: nat, r: Loaded)
    requires s != [] && read(s) == Got(c, t) && |t| < |s|
    requires LoadFrom(read, t, offset + (|s| - |t|)) == r
    ensures LoadFrom(read, s, offset) == Loaded([c] + r.cmds, r.end)
  {
  }

  /** The reader undoes the printer, whatever follows. */
  ghost predicate Undoes(read: Reader) {
    forall c: Command, t: Bytes :: Printable(c) ==> read(Encode(c) + t) == Got(c, t)
  }

  lemma ReadCommandUndoes()
    ensures Undoes(ReadCommand)
  {
    forall c: Command, t: Bytes | Printable(c) ensures ReadCommand(Encode(c) + t) == Got(c, t) {
      ReadPrintedCommand(c, t);
    }
  }

  lemma EncodeSome(c: Command)
    ensures |Encode(c)| > 0
  {
  }

  lemma LoadStep(read: Reader, c: Command, t: Bytes, s: Bytes, offset: nat, r: Loaded)
    requires Undoes(read) && Printable(c) && s == Encode(c) + t
    requires LoadFrom(read, t, offset + |Encode(c)|) == r
    ensures LoadFrom(read, s, offset) == Loaded([c] + r.cmds, r.end)
  {
    EncodeSome(c);
    LoadTurn(read, s, c, t, offset, r);
  }

  lemma EncodeAllSplit(c: Command, cs: seq<Command>)
    ensures EncodeAll([c] + cs) == Encode(c) + EncodeAll(cs)
  {
    assert ([c] + cs)[1..] == cs;
  }

  lemma {:induction false} EncodeAllConcat(a: seq<Command>, b: seq<Command>)
    ensures EncodeAll(a + b) == EncodeAll(a) + EncodeAll(b)
    decreases |a|
  {
    if a == [] {
      assert a + b == b;
    } else {
      TailOfConcat(a, b);
      EncodeAllConcat(a[1..], b);
      Assoc(Encode(a[0]), EncodeAll(a[1..]), EncodeAll(b));
    }
  }

  lemma EncodeAllOne(a: Command)
    ensures EncodeAll([a]) == Encode(a)
  {
    EncodeAllSplit(a, []);
    assert [a] + [] == [a] && Encode(a) + [] == Encode(a);
  }

  // ----- reading a truncated file ---------------------------------------------------------------

  lemma {:induction false} LineWithoutNewline(d: Bytes, room: nat)
    requires forall i :: 0 <= i < |d| ==> d[i] != LF
    requires |d| <= room
    ensures LineLength(d, room) == |d|
    decreases |d|
  {
    if d != [] { LineWithoutNewline(d[1..], room - 1); }
  }

  /** The digits, and perhaps the CR, that a cut before the newline leaves. */
  function CutDigits(d: Bytes, k: nat): Bytes
    requires 0 < k < |d| + 3
  {
    if k <= 1 + |d| then d[..k - 1] + [] else d[..|d|] + [CR]
  }

  lemma CutDigitsAre(c: Byte, d: Bytes, k: nat)
    requires 0 < k < |d| + 3
    ensures ([c] + d + [CR, LF])[..k] == [c] + CutDigits(d, k)
  {
    var p, q := ([c] + d + [CR, LF])[..k], [c] + CutDigits(d, k);
    assert |p| == |q| == k;
    forall i | 0 <= i < k ensures p[i] == q[i] {}
  }

  lemma CutDigitsHaveNoNewline(c: Byte, d: Bytes, k: nat)
    requires 0 < k < |d| + 3 && c != LF && forall i :: 0 <= i < |d| ==> IsDigit(d[i])
    ensures forall i :: 0 <= i < k ==> ([c] + CutDigits(d, k))[i] != LF
  {
  }

  /** A header cut before its newline: some of its digits, and perhaps the CR. */
  lemma CutHeader(c: Byte, n: nat, k: nat)
    requires c != LF && n <= LONG_MAX && 0 < k < |Header(c, n)|
    ensures var p := Header(c, n)[..k];
            && p != [] && p[0] == c && LineLength(p, LINE_MAX) == k && |p| == k < LINE_MAX
            && p[k - 1] != LF && p[1..k] == CutDigits(Dec(n), k)
  {
    NumbersFitLine(n);
    var d := Dec(n);
    CutDigitsAre(c, d, k);
    CutDigitsHaveNoNewline(c, d, k);
    LineWithoutNewline([c] + CutDigits(d, k), LINE_MAX);
  }

  /** Reading an argument that the end of the file cuts short. */
  lemma {:induction false} CutArg(a: Bytes, k: nat, n: nat)
    requires |a| <= LONG_MAX && n > 0 && k < |EncodeArg(a)|
    ensures ReadArgs(EncodeArg(a)[..k], n) == ShortRead
  {
    var h, e := Header(DOLLAR, |a|), EncodeArg(a);
    var p := e[..k];
    if k > 0 {
      if k < |h| {
        CutHeader(DOLLAR, |a|, k);
        assert p == h[..k];
        var d := |Dec(|a|)|;
        ParseDecBeginning(|a|, if k <= 1 + d then k - 1 else d, if k <= 1 + d then [] else [CR]);
      } else {
        assert p == h + p[|h|..];
        HeaderLine(DOLLAR, |a|, p[|h|..]);
        ParseDec(|a|, [CR, LF]);
      }
    }
  }

  lemma {:induction false} CutArgs(args: seq<Bytes>, k: nat)
    requires forall i :: 0 <= i < |args| ==> |args[i]| <= LONG_MAX
    requires k < |EncodeArgs(args)|
    ensures ReadArgs(EncodeArgs(args)[..k], |args|) == ShortRead
    decreases |args|
  {
    var e, rest := EncodeArg(args[0]), EncodeArgs(args[1..]);
    if k < |e| {
      TakeWithin(e, rest, k);
      CutArg(args[0], k, |args|);
    } else {
      CutArgs(args[1..], k - |e|);
      CutLaterArg(args[0], rest, k, |args|);
    }
  }

  lemma CutLaterArg(a: Bytes, rest: Bytes, k: nat, n: nat)
    requires |a| <= LONG_MAX && n > 0 && |EncodeArg(a)| <= k <= |EncodeArg(a) + rest|
    requires ReadArgs(rest[..k - |EncodeArg(a)|], n - 1) == ShortRead
    ensures ReadArgs((EncodeArg(a) + rest)[..k], n) == ShortRead
  {
    TakePast(EncodeArg(a), rest, k);
    ReadOneArg(a, rest[..k - |EncodeArg(a)|], n);
  }

  /** A command that the end of the file cuts short, wherever it does, is a short read. */
  lemma CutCommand(c: Command, k: nat)
    requires Printable(c) && 0 < k < |Encode(c)|
    ensures ReadCommand(Encode(c)[..k]) == ShortRead
  {
    var h := Header(STAR, |c|);
    if k < |h| {
      assert Encode(c)[..k] == h[..k];
      CutStar(c, k);
    } else {
      var t := EncodeArgs(c)[..k - |h|];
      assert Encode(c)[..k] == h + t;
      CutArgs(c, k - |h|);
      CutBehindStar(c, t);
    }
  }

  /** The cut falls into the first line. */
  lemma CutStar(c: Command, k: nat)
    requires Printable(c) && 0 < k < |Header(STAR, |c|)|
    ensures ReadCommand(Header(STAR, |c|)[..k]) == ShortRead
  {
    var p := Header(STAR, |c|)[..k];
    CutHeader(STAR, |c|, k);
    if k > 1 {
      var d := |Dec(|c|)|;
      ParseDecPrefix(|c|, if k <= 1 + d then k - 1 else d, if k <= 1 + d then [] else [CR]);
      assert p[1] == Dec(|c|)[0];
      assert p[k..] == [];
    }
  }

  /** The cut falls behind it, so that the arguments are cut. */
  lemma CutBehindStar(c: Command, t: Bytes)
    requires Printable(c) && ReadArgs(t, |c|) == ShortRead
    ensures ReadCommand(Header(STAR, |c|) + t) == ShortRead
  {
    var p := Header(STAR, |c|) + t;
    HeaderLine(STAR, |c|, t);
    ParseDec(|c|, [CR, LF]);
    assert p[1] == Dec(|c|)[0];
  }

  /** Number of commands that lie wholly inside the first n bytes. */
  function Whole(cs: seq<Command>, n: nat): (w: nat)
    ensures w <= |cs|
  {
    if cs == [] || n < |Encode(cs[0])| then 0 else 1 + Whole(cs[1..], n - |Encode(cs[0])|)
  }

  lemma {:induction false} WholeIsGreatest(cs: seq<Command>, n: nat)
    ensures |EncodeAll(cs[..Whole(cs, n)])| <= n
    ensures Whole(cs, n) < |cs| ==> n < |EncodeAll(cs[..Whole(cs, n) + 1])|
    decreases |cs|
  {
    if cs != [] && n >= |Encode(cs[0])| {
      WholeIsGreatest(cs[1..], n - |Encode(cs[0])|);
      PrintedBeginning(cs, Whole(cs, n));
      if Whole(cs, n) < |cs| { PrintedBeginning(cs, Whole(cs, n) + 1); }
    } else if cs != [] {
      PrintedBeginning(cs, 1);
    }
  }

  lemma PrintedBeginning(cs: seq<Command>, w: nat)
    requires 0 < w <= |cs|
    ensures |EncodeAll(cs[..w])| == |Encode(cs[0])| + |EncodeAll(cs[1..][..w - 1])|
  {
    assert cs[..w] == [cs[0]] + cs[1..][..w - 1];
    EncodeAllSplit(cs[0], cs[1..][..w - 1]);
  }

  /** The beginning of a command that the first n bytes end with. */
  function Cut(cs: seq<Command>, n: nat): Bytes
    requires n <= |EncodeAll(cs)|
  {
    WholeIsGreatest(cs, n);
    var w, size := Whole(cs, n), |EncodeAll(cs[..Whole(cs, n)])|;
    if w == |cs| then [] else CutInside(cs, n, w); Encode(cs[w])[..n - size]
  }

  lemma CutInside(cs: seq<Command>, n: nat, w: nat)
    requires w < |cs| && |EncodeAll(cs[..w])| <= n < |EncodeAll(cs[..w + 1])|
    ensures n - |EncodeAll(cs[..w])| < |Encode(cs[w])|
  {
    assert cs[..w + 1] == cs[..w] + [cs[w]];
    EncodeAllConcat(cs[..w], [cs[w]]);
    EncodeAllOne(cs[w]);
  }

  /** The first n bytes are the commands wholly inside and the beginning of another. */
  lemma CutSplit(cs: seq<Command>, n: nat)
    requires n <= |EncodeAll(cs)|
    ensures EncodeAll(cs)[..n] == EncodeAll(cs[..Whole(cs, n)]) + Cut(cs, n)
  {
    var w := Whole(cs, n);
    WholeIsGreatest(cs, n);
    if w == |cs| {
      assert cs[..w] == cs;
      assert EncodeAll(cs)[..n] == EncodeAll(cs) + [];
    } else {
      CutSplitInside(cs, n, w);
    }
  }

  lemma CutSplitInside(cs: seq<Command>, n: nat, w: nat)
    requires w < |cs| && |EncodeAll(cs[..w])| <= n < |EncodeAll(cs[..w + 1])|
    ensures |EncodeAll(cs)| >= n && n - |EncodeAll(cs[..w])| <= |Encode(cs[w])|
    ensures EncodeAll(cs)[..n] == EncodeAll(cs[..w]) + Encode(cs[w])[..n - |EncodeAll(cs[..w])|]
  {
    CutInside(cs, n, w);
    var before, c, after := cs[..w], cs[w], cs[w + 1..];
    assert cs == before + ([c] + after);
    CutAt(cs, before, c, after, n);
  }

  lemma CutAt(cs: seq<Command>, before: seq<Command>, c: Command, after: seq<Command>, n: nat)
    requires cs == before + ([c] + after)
    requires |EncodeAll(before)| <= n < |EncodeAll(before)| + |Encode(c)|
    ensures n <= |EncodeAll(cs)|
    ensures EncodeAll(cs)[..n] == EncodeAll(before) + Encode(c)[..n - |EncodeAll(before)|]
  {
    EncodeAllConcat(before, [c] + after);
    EncodeAllSplit(c, after);
    TakeInside(EncodeAll(before), Encode(c), EncodeAll(after), n);
  }

  lemma TakeInside(a: Bytes, b: Bytes, c: Bytes, n: nat)
    requires |a| <= n < |a| + |b|
    ensures (a + (b + c))[..n] == a + b[..n - |a|]
  {
  }

  /** Whole commands are run before the rest decides how loading ends. */
  lemma {:induction false} LoadThenCut(read: Reader, cs: seq<Command>, p: Bytes, s: Bytes, offset: nat, at: nat, end: End)
    requires forall i :: 0 <= i < |cs| ==> Printable(cs[i])
    requires s == EncodeAll(cs) + p && at == offset + |EncodeAll(cs)|
    requires Undoes(read) && LoadFrom(read, p, at) == Loaded([], end)
    ensures LoadFrom(read, s, offset) == Loaded(cs, end)
    decreases |cs|
  {
    if cs == [] {
      assert s == p;
    } else {
      var rest := cs[1..];
      assert |EncodeAll(cs)| == |Encode(cs[0])| + |EncodeAll(rest)|;
      LoadThenCut(read, rest, p, EncodeAll(rest) + p, offset + |Encode(cs[0])|, at, end);
      LoadOneMore(read, cs, rest, p, s, offset, end);
    }
  }

  lemma LoadOneMore(read: Reader, cs: seq<Command>, rest: seq<Command>, p: Bytes, s: Bytes, offset: nat, end: End)
    requires Undoes(read) && cs != [] && rest == cs[1..] && Printable(cs[0]) && s == EncodeAll(cs) + p
    requires LoadFrom(read, EncodeAll(rest) + p, offset + |Encode(cs[0])|) == Loaded(rest, end)
    ensures LoadFrom(read, s, offset) == Loaded(cs, end)
  {
    PrintedThen(cs[0], rest, cs, p);
    LoadStep(read, cs[0], EncodeAll(rest) + p, s, offset, Loaded(rest, end));
    assert [cs[0]] + rest == cs;
  }

  lemma PrintedThen(c: Command, rest: seq<Command>, cs: seq<Command>, p: Bytes)
    requires cs != [] && c == cs[0] && rest == cs[1..]
    ensures EncodeAll(cs) + p == Encode(c) + (EncodeAll(rest) + p)
    ensures |EncodeAll(cs)| == |Encode(c)| + |EncodeAll(rest)|
  {
    assert Encode(c) + EncodeAll(rest) + p == Encode(c) + (EncodeAll(rest) + p);
  }

  /** The reader finds a command that is cut short to be a short read. */
  ghost predicate CutsShort(read: Reader) {
    forall c: Command, k: nat :: Printable(c) && 0 < k < |Encode(c)| ==> read(Encode(c)[..k]) == ShortRead
  }

  lemma ReadCommandCutsShort()
    ensures CutsShort(ReadCommand)
  {
    forall c: Command, k: nat | Printable(c) && 0 < k < |Encode(c)| ensures ReadCommand(Encode(c)[..k]) == ShortRead {
      CutCommand(c, k);
    }
  }

  /** The beginning of a command runs nothing. */
  lemma LoadCutCommand(read: Reader, c: Command, k: nat, offset: nat)
    requires CutsShort(read) && Printable(c) && k < |Encode(c)|
    ensures LoadFrom(read, Encode(c)[..k], offset) == Loaded([], if k == 0 then Complete else TruncatedAt(offset))
  {
    var p := Encode(c)[..k];
    assert |p| == k;
  }

  lemma LoadLastCut(read: Reader, cs: seq<Command>, n: nat, size: nat)
    requires CutsShort(read) && (forall i :: 0 <= i < |cs| ==> Printable(cs[i])) && n <= |EncodeAll(cs)|
    requires size == |EncodeAll(cs[..Whole(cs, n)])|
    ensures LoadFrom(read, Cut(cs, n), size) == Loaded([], if n == size then Complete else TruncatedAt(size))
  {
    var w := Whole(cs, n);
    WholeIsGreatest(cs, n);
    if w < |cs| {
      CutInside(cs, n, w);
      LoadCutCommand(read, cs[w], n - size, size);
    } else {
      assert cs[..w] == cs;
    }
  }

  lemma LoadCut(read: Reader, cs: seq<Command>, n: nat, size: nat, end: End)
    requires Undoes(read) && (forall i :: 0 <= i < |cs| ==> Printable(cs[i])) && n <= |EncodeAll(cs)|
    requires size == |EncodeAll(cs[..Whole(cs, n)])| && LoadFrom(read, Cut(cs, n), size) == Loaded([], end)
    ensures LoadFrom(read, EncodeAll(cs)[..n], 0) == Loaded(cs[..Whole(cs, n)], end)
  {
    CutSplit(cs, n);
    LoadThenCut(read, cs[..Whole(cs, n)], Cut(cs, n), EncodeAll(cs)[..n], 0, size, end);
  }

  /** What loadAppendOnlyFile makes of a file. */
  datatype Outcome =
    | EmptyFile                                     // C_ERR
    | Ok(cmds: seq<Command>, keep: nat)             // C_OK, the file being cut to `keep` bytes
    | Exit                                          // the server exits

  /** Every command is one that the server knows. */
  predicate AllKnown(cs: seq<Command>, known: Command -> bool) {
    forall i :: 0 <= i < |cs| ==> known(cs[i])
  }

  /** `truncates` says whether cutting the file off succeeds. */
  function Load(file: Bytes, loadTruncated: bool, known: Command -> bool, truncates: bool): Outcome {
    if file == [] then EmptyFile
    else
      var r := LoadFrom(ReadCommand, file, 0);
      if !AllKnown(r.cmds, known) then Exit
      else
        match r.end
        case Complete => Ok(r.cmds, |file|)
        case TruncatedAt(at) => if loadTruncated && truncates then Ok(r.cmds, at) else Exit
        case FormatError => Exit
        case ReadError => Exit
  }

  /** Loading the printed form of any list of commands runs exactly that list, if the server
      knows them all, and ends in its exit otherwise. */
  lemma LoadUndoesPrint(cs: seq<Command>, loadTruncated: bool, known: Command -> bool, truncates: bool)
    requires cs != [] && forall i :: 0 <= i < |cs| ==> Printable(cs[i])
    ensures Load(EncodeAll(cs), loadTruncated, known, truncates) == if AllKnown(cs, known) then Ok(cs, |EncodeAll(cs)|) else Exit
  {
    EncodeSome(cs[0]);
    ReadCommandUndoes();
    assert EncodeAll(cs) + [] == EncodeAll(cs);
    LoadThenCut(ReadCommand, cs, [], EncodeAll(cs), 0, |EncodeAll(cs)|, Complete);
  }

  /** Loading any non-empty beginning of it, with aof-load-truncated, runs exactly the
      commands that lie wholly inside and cuts the file after the last of them, if the server
      knows those and can cut the file where it must, and ends in its exit otherwise. */
  lemma LoadRecoversTruncated(cs: seq<Command>, n: nat, known: Command -> bool, truncates: bool)
    requires (forall i :: 0 <= i < |cs| ==> Printable(cs[i])) && 0 < n <= |EncodeAll(cs)|
    ensures var w := Whole(cs, n);
            var size := |EncodeAll(cs[..w])|;
            Load(EncodeAll(cs)[..n], true, known, truncates) ==
              if AllKnown(cs[..w], known) && (n == size || truncates) then Ok(cs[..w], size) else Exit
    ensures |EncodeAll(cs[..Whole(cs, n)])| <= n
    ensures Whole(cs, n) < |cs| ==> n < |EncodeAll(cs[..Whole(cs, n) + 1])|
  {
    WholeIsGreatest(cs, n);
    var size := |EncodeAll(cs[..Whole(cs, n)])|;
    ReadCommandCutsShort();
    LoadLastCut(ReadCommand, cs, n, size);
    ReadCommandUndoes();
    LoadCut(ReadCommand, cs, n, size, if n == size then Complete else TruncatedAt(size));
  }

  // ----- the loops of the source -----------------------------------------------------------

  // ----- damage that is not a cut tail ---------------------------------------------------------

  /** Where a command should begin, t begins otherwise; or it announces no argument; or behind
      fewer arguments than it announces something else follows. */
  predicate Damaged(t: Bytes, n: nat, args: seq<Bytes>, u: Bytes) {
    && u != [] && n <= INT_MAX && (forall i :: 0 <= i < |args| ==> |args[i]| <= LONG_MAX)
    && ((t == u && u[0] != STAR)
        || (n == 0 && t == Header(STAR, n) + u)
        || (|args| < n && t == Header(STAR, n) + (EncodeArgs(args) + u) && u[0] != DOLLAR))
  }

  lemma {:induction false} ReadDamagedArgs(args: seq<Bytes>, u: Bytes, s: Bytes, n: nat)
    requires s == EncodeArgs(args) + u && |args| < n && u != [] && u[0] != DOLLAR && forall i :: 0 <= i < |args| ==> |args[i]| <= LONG_MAX
    ensures ReadArgs(s, n) == BadFormat
    decreases |args|
  {
    if args == [] {
      assert s == u;
      ReadNoArgument(s, n);
    } else {
      var more := EncodeArgs(args[1..]);
      ReadDamagedArgs(args[1..], u, more + u, n - 1);
      DamagedLater(args[0], more, u, s, n);
    }
  }

  lemma DamagedLater(a: Bytes, more: Bytes, u: Bytes, s: Bytes, n: nat)
    requires n > 0 && |a| <= LONG_MAX && ReadArgs(more + u, n - 1) == BadFormat && s == EncodeArg(a) + more + u
    ensures ReadArgs(s, n) == BadFormat
  {
    Assoc(EncodeArg(a), more, u);
    ReadOneArg(a, more + u, n);
  }

  lemma ReadNoArgument(u: Bytes, n: nat)
    requires n > 0 && u != [] && u[0] != DOLLAR
    ensures ReadArgs(u, n) == BadFormat
  {
  }

  lemma ReadDamaged(t: Bytes, n: nat, args: seq<Bytes>, u: Bytes)
    requires Damaged(t, n, args, u)
    ensures t != [] && ReadCommand(t) == BadFormat
  {
    if t != u {
      var s := if n == 0 then u else EncodeArgs(args) + u;
      HeaderLine(STAR, n, s);
      ParseDec(n, [CR, LF]);
      assert t[1] == Dec(n)[0];
      if n > 0 { ReadDamagedArgs(args, u, s, n); }
    }
  }

  /** A file that is damaged anywhere but by being cut is never taken for a truncated one: whatever
      is loaded before, the server exits. */
  lemma DamageIsFatal(cs: seq<Command>, t: Bytes, n: nat, args: seq<Bytes>, u: Bytes,
                      loadTruncated: bool, known: Command -> bool, truncates: bool)
    requires (forall i :: 0 <= i < |cs| ==> Printable(cs[i])) && Damaged(t, n, args, u)
    ensures Load(EncodeAll(cs) + t, loadTruncated, known, truncates) == Exit
  {
    ReadDamaged(t, n, args, u);
    ReadCommandUndoes();
    LoadThenCut(ReadCommand, cs, t, EncodeAll(cs) + t, 0, |EncodeAll(cs)|, FormatError);
  }

  lemma {:induction false} EncodeArgsSnoc(args: seq<Bytes>, a: Bytes)
    ensures EncodeArgs(args + [a]) == EncodeArgs(args) + EncodeArg(a)
    decreases |args|
  {
    if args == [] {
      assert (args + [a])[1..] == [];
    } else {
      assert (args + [a])[1..] == args[1..] + [a];
      EncodeArgsSnoc(args[1..], a);
    }
  }

  /** One turn of the loop of catAppendOnlyGenericCommand. */
  method CatArgument(dst: Bytes, a: Bytes, ghost base: Bytes, ghost args: seq<Bytes>) returns (out: Bytes)
    requires dst == base + EncodeArgs(args)
    ensures out == base + EncodeArgs(args + [a])
  {
    out := dst + ([DOLLAR] + Dec(|a|) + [CR, LF]);
    out := out + a;
    out := out + [CR, LF];
    PrintedSnoc(base, args, a);
  }

  lemma PrintedSnoc(base: Bytes, args: seq<Bytes>, a: Bytes)
    ensures base + EncodeArgs(args) + Header(DOLLAR, |a|) + a + [CR, LF] == base + EncodeArgs(args + [a])
  {
    EncodeArgsSnoc(args, a);
    var x := base + EncodeArgs(args);
    Assoc(base, EncodeArgs(args), EncodeArg(a));
    Assoc(x, Header(DOLLAR, |a|) + a, [CR, LF]);
    Assoc(x, Header(DOLLAR, |a|), a);
  }

  /** catAppendOnlyGenericCommand. */
  method CatGenericCommand(dst: Bytes, argv: Command) returns (out: Bytes)
    ensures out == dst + Encode(argv)
  {
    out := dst + ([STAR] + Dec(|argv|) + [CR, LF]);
    ghost var base := out;
    var j := 0;
    while j < |argv|
      invariant j <= |argv| && out == base + EncodeArgs(argv[..j])
    {
      out := CatArgument(out, argv[j], base, argv[..j]);
      assert argv[..j + 1] == argv[..j] + [argv[j]];
      j := j + 1;
    }
    assert argv[..j] == argv;
  }

  /** fgets on the unread rest of the file: how many bytes it takes. */
  method GetLine(s: Bytes) returns (k: nat)
    ensures k == LineLength(s, LINE_MAX)
  {
    k := 0;
    var done := false;
    while !done && k < LINE_MAX && k < |s|
      invariant k <= LINE_MAX && k <= |s|
      invariant LineLength(s, LINE_MAX) == k + if done then 0 else LineLength(s[k..], LINE_MAX - k)
      decreases LINE_MAX - k
    {
      assert s[k..][1..] == s[k + 1..];
      done := s[k] == LF;
      k := k + 1;
    }
  }

  function Prepend(args: seq<Bytes>, r: Args): Args {
    if r.Got? then Got(args + r.args, r.rest) else r
  }

  lemma PrependCons(args: seq<Bytes>, a: Bytes, r: Args)
    ensures Prepend(args, Cons(a, r)) == Prepend(args + [a], r)
  {
    if r.Got? { assert args + ([a] + r.args) == args + [a] + r.args; }
  }

  /** Reads one argument. */
  method ReadArgument(s: Bytes) returns (r: Args)
    ensures r == ReadOne(s)
  {
    var k := GetLine(s);
    if k == 0 { return ShortRead; }
    if s[0] != DOLLAR { return BadFormat; }
    var len := ParseInt(s[1..k]);
    if len < 0 { return Unreadable; }
    if len > 0 && |s| - k < len { return ShortRead; }
    var a := s[k..k + len];
    if |s| - k - len < 2 { return ShortRead; }
    r := Got([a], s[k + len + 2..]);
  }

  /** What is still to be read, after args, gives `all`. */
  ghost predicate ArgsLeft(all: Args, args: seq<Bytes>, rest: Bytes, n: nat) {
    all == Prepend(args, ReadArgs(rest, n))
  }

  lemma ArgsLeftStep(all: Args, args: seq<Bytes>, rest: Bytes, n: nat, a: Bytes, rest': Bytes)
    requires ArgsLeft(all, args, rest, n) && n > 0
    requires ReadArgs(rest, n) == Cons(a, ReadArgs(rest', n - 1))
    ensures ArgsLeft(all, args + [a], rest', n - 1)
  {
    PrependCons(args, a, ReadArgs(rest', n - 1));
  }

  lemma ArgsLeftNone(all: Args, args: seq<Bytes>, rest: Bytes)
    requires ArgsLeft(all, args, rest, 0)
    ensures all == Got(args, rest)
  {
    assert args + [] == args;
  }

  /** One turn of the loop over the arguments. */
  method ReadNextArgument(s: Bytes, args: seq<Bytes>, ghost n: nat, ghost all: Args) returns (r: Args)
    requires n > 0 && ArgsLeft(all, args, s, n)
    ensures r.Got? ==> ArgsLeft(all, r.args, r.rest, n - 1)
    ensures !r.Got? ==> r == all
  {
    var one := ReadArgument(s);
    if !one.Got? { return one; }
    ArgsLeftStep(all, args, s, n, one.args[0], one.rest);
    r := Got(args + [one.args[0]], one.rest);
  }

  /** The loop over the arguments of one command. */
  method ReadArguments(s: Bytes, argc: nat) returns (r: Args)
    ensures r == ReadArgs(s, argc)
  {
    r := Got([], s);
    ghost var all := ReadArgs(s, argc);
    var j := 0;
    while j < argc
      invariant j <= argc && r.Got? && ArgsLeft(all, r.args, r.rest, argc - j)
    {
      r := ReadNextArgument(r.rest, r.args, argc - j, all);
      if !r.Got? { return; }
      j := j + 1;
    }
    ArgsLeftNone(all, r.args, r.rest);
  }

  /** The body of the loading loop up to the point where the command is run. */
  method ReadOneCommand(s: Bytes) returns (r: Args)
    requires s != []
    ensures r == ReadCommand(s)
  {
    var k := GetLine(s);
    if s[0] != STAR { return BadFormat; }
    if k == 1 || s[1] == 0 {
      if AtEof(s) { return ShortRead; } else { return Unreadable; }
    }
    var argc := ParseInt(s[1..k]);
    if argc < 1 { return BadFormat; }
    r := ReadArguments(s[k..], argc);
  }

  /** What is still to be loaded from offset on, after `ran`, gives `all`. */
  ghost predicate LoadLeft(read: Reader, all: Loaded, ran: seq<Command>, s: Bytes, offset: nat) {
    var r := LoadFrom(read, s, offset);
    all == Loaded(ran + r.cmds, r.end)
  }

  lemma LoadLeftStep(read: Reader, all: Loaded, ran: seq<Command>, s: Bytes, offset: nat, c: Command, t: Bytes)
    requires LoadLeft(read, all, ran, s, offset) && s != [] && read(s) == Got(c, t) && |t| < |s|
    ensures LoadLeft(read, all, ran + [c], t, offset + (|s| - |t|))
  {
    var r := LoadFrom(read, t, offset + (|s| - |t|));
    LoadTurn(read, s, c, t, offset, r);
    assert ran + ([c] + r.cmds) == ran + [c] + r.cmds;
  }

  /** How loading ends when a read gives r. */
  function EndOf(r: Args, offset: nat): End {
    if r.ShortRead? then TruncatedAt(offset) else if r.BadFormat? then FormatError else ReadError
  }

  lemma LoadLeftEnd(read: Reader, all: Loaded, ran: seq<Command>, s: Bytes, offset: nat)
    requires LoadLeft(read, all, ran, s, offset) && (s == [] || !read(s).Got?)
    ensures all == Loaded(ran, if s == [] then Complete else EndOf(read(s), offset))
  {
    assert ran + [] == ran;
  }

  /** One turn of the loading loop. */
  method LoadNext(s: Bytes, ghost read: Reader, ghost ran: seq<Command>, ghost offset: nat, ghost all: Loaded) returns (r: Args)
    requires s != [] && read(s) == ReadCommand(s) && LoadLeft(read, all, ran, s, offset)
    ensures r.Got? ==> |r.rest| < |s| && LoadLeft(read, all, ran + [r.args], r.rest, offset + (|s| - |r.rest|))
    ensures !r.Got? ==> all == Loaded(ran, EndOf(r, offset))
  {
    r := ReadOneCommand(s);
    if r.Got? {
      LoadLeftStep(read, all, ran, s, offset, r.args, r.rest);
    } else {
      LoadLeftEnd(read, all, ran, s, offset);
    }
  }

  /** What the loop reports of the load that it performs: an unknown command, or the commands
      run and how it ended. */
  predicate Reports(all: Loaded, loadTruncated: bool, known: Command -> bool, unknown: bool, ran: seq<Command>, end: End) {
    if unknown then !AllKnown(all.cmds, known)
    else all.cmds == ran && AllKnown(ran, known)
         && (all.end == end || (!loadTruncated && end.TruncatedAt? && all.end.TruncatedAt?))
  }

  /** The loop has run the commands `ran`, all known, and s is still to be read. */
  ghost predicate Loading(read: Reader, all: Loaded, ran: seq<Command>, s: Bytes, offset: nat, known: Command -> bool) {
    AllKnown(ran, known) && LoadLeft(read, all, ran, s, offset)
  }

  /** ReadCommand, by a name that the proof of the loop does not look through: that the reader
      is ReadCommand matters to one turn of the loop and not to the loop. */
  ghost function NamedReader(n: nat): Reader {
    if n == 0 then ReadCommand else NamedReader(n - 1)
  }

  lemma NamedReaderReads(n: nat)
    ensures NamedReader(n) == ReadCommand
  {
  }

  /** One turn of the loop, with the lookup of the command. */
  method LoadTurnKnown(s: Bytes, ran: seq<Command>, known: Command -> bool, ghost offset: nat, ghost n: nat,
                       ghost read: Reader, ghost all: Loaded)
      returns (r: Args, unknown: bool)
    requires s != [] && read == NamedReader(n) && Loading(read, all, ran, s, offset, known)
    ensures unknown ==> !AllKnown(all.cmds, known)
    ensures !unknown && r.Got? ==> |r.rest| < |s| && Loading(read, all, ran + [r.args], r.rest, offset + (|s| - |r.rest|), known)
    ensures !unknown && !r.Got? ==> all == Loaded(ran, EndOf(r, offset)) && AllKnown(ran, known)
  {
    NamedReaderReads(n);
    r := LoadNext(s, read, ran, offset, all);
    unknown := false;
    if r.Got? && !known(r.args) {
      assert all.cmds[|ran|] == r.args;
      unknown := true;
    }
  }

  /** The loading loop, running a command being adding it to `ran`.  Without
      aof-load-truncated the offset of a short read is not kept. */
  method LoadCommands(file: Bytes, loadTruncated: bool, known: Command -> bool, ghost n: nat, ghost read: Reader, ghost all: Loaded)
      returns (unknown: bool, ran: seq<Command>, end: End)
    requires read == NamedReader(n) && all == LoadFrom(read, file, 0)
    ensures Reports(all, loadTruncated, known, unknown, ran, end)
  {
    var rest, at: nat, validUpTo: nat := file, 0, 0;
    ran := [];
    assert Loading(read, all, ran, file, 0, known) by { assert [] + all.cmds == all.cmds; }
    while rest != []
      invariant loadTruncated ==> validUpTo == at
      invariant Loading(read, all, ran, rest, at, known)
      decreases |rest|
    {
      var r;
      r, unknown := LoadTurnKnown(rest, ran, known, at, n, read, all);
      if unknown { return true, ran, ReadError; }
      if !r.Got? { return false, ran, EndOf(r, validUpTo); }
      at := at + (|rest| - |r.rest|);
      ran, rest := ran + [r.args], r.rest;
      if loadTruncated { validUpTo := at; }
    }
    assert all == Loaded(ran, Complete) by { LoadLeftEnd(read, all, ran, rest, at); }
    return false, ran, Complete;
  }

  /** loadAppendOnlyFile. */
  method LoadFile(file: Bytes, loadTruncated: bool, known: Command -> bool, truncates: bool) returns (o: Outcome)
    ensures o == Load(file, loadTruncated, known, truncates)
  {
    if |file| == 0 { return EmptyFile; }
    var unknown, ran, end := LoadCommands(file, loadTruncated, known, 0, ReadCommand, LoadFrom(ReadCommand, file, 0));
    if unknown { return Exit; }
    match end {
      case Complete => o := Ok(ran, |file|);
      case TruncatedAt(at) => o := if loadTruncated && truncates then Ok(ran, at) else Exit;
      case _ => o := Exit;
    }
  }
}
