/** The append-only log of a running server: feedAppendOnlyFile, flushAppendOnlyFile and what
    replaying the file they leave behind executes. */
module AofLog {
  import opened Prelude
  import opened AofCodec

  datatype Policy = Always | EverySec | Never

  /** The commands that the log translates, and all others. */
  datatype Kind = Expire | PExpire | ExpireAt | SetEx | PSetEx | Other

  /** One call of feedAppendOnlyFile; now is the clock in milliseconds. */
  datatype Feed = Feed(kind: Kind, db: nat, argv: Command, now: int)

  /** What one flush meets: its argument, a background fsync, the clock in seconds, how many
      bytes write(2) takes (None: it fails) and whether ftruncate(2) succeeds. */
  datatype Io = Io(force: bool, syncing: bool, now: int, written: Option<nat>, truncates: bool)

  datatype Log = Log(file: Bytes, buf: Bytes, size: nat, selectedDb: int, postponed: int, ok: bool, alive: bool)

  const SELECT: Bytes := [83, 69, 76, 69, 67, 84]
  const SET: Bytes := [83, 69, 84]
  const PEXPIREAT: Bytes := [80, 69, 88, 80, 73, 82, 69, 65, 84]

  // ----- feeding ---------------------------------------------------------------------------

  function DecInt(n: int): Bytes {
    if n < 0 then [45] + Dec(0 - n) else Dec(n)
  }

  /** The absolute expire time, in milliseconds, that the log records. */
  function When(f: Feed): int
    requires |f.argv| >= 3
  {
    var t := ParseInt(f.argv[2]);
    var ms := if f.kind in {Expire, SetEx, ExpireAt} then 1000 * t else t;
    if f.kind in {Expire, PExpire, SetEx, PSetEx} then ms + f.now else ms
  }

  predicate IsSelect(c: Command) {
    |c| == 2 && |c[0]| == 6 && forall i :: 0 <= i < 6 ==> c[0][i] == SELECT[i] || c[0][i] == SELECT[i] + 32
  }

  /** What the callers ensure: the arity of the translated commands, sizes and times that fit
      their C types, and no SELECT among the commands, since it is not a write. */
  predicate FeedOk(f: Feed) {
    && Printable(f.argv) && !IsSelect(f.argv) && f.db <= INT_MAX
    && (f.kind != Other ==> |f.argv| >= 3 && 0 - LONG_MAX <= When(f) <= LONG_MAX)
    && (f.kind in {SetEx, PSetEx} ==> |f.argv| >= 4)
  }

  /** The commands that the log holds for a fed command. */
  function Translate(f: Feed): seq<Command>
    requires FeedOk(f)
  {
    match f.kind
    case Other => [f.argv]
    case SetEx => [[SET, f.argv[1], f.argv[3]], [PEXPIREAT, f.argv[1], DecInt(When(f))]]
    case PSetEx => [[SET, f.argv[1], f.argv[3]], [PEXPIREAT, f.argv[1], DecInt(When(f))]]
    case _ => [[PEXPIREAT, f.argv[1], DecInt(When(f))]]
  }

  /** What one feed adds to the log of a server whose last fed command was in selectedDb. */
  function Written(selectedDb: int, f: Feed): seq<Command>
    requires FeedOk(f)
  {
    (if f.db != selectedDb then [[SELECT, Dec(f.db)]] else []) + Translate(f)
  }

  // ----- flushing ---------------------------------------------------------------------------

  function Truncated(file: Bytes, size: nat): Bytes {
    if size <= |file| then file[..size] else file + seq(size - |file|, i => 0)
  }

  predicate Postpones(p: Policy, l: Log, io: Io) {
    p == EverySec && !io.force && io.syncing && (l.postponed == 0 || io.now - l.postponed < 2)
  }

  /** Bytes that write(2) takes; it never takes more than it is given. */
  function Taken(l: Log, io: Io): (n: nat)
    ensures n <= |l.buf|
  {
    if io.written.None? then 0 else if io.written.value <= |l.buf| then io.written.value else |l.buf|
  }

  /** What a flush that is not postponed does. */
  function Write(p: Policy, l: Log, io: Io): Log {
    var n := Taken(l, io);
    var file := l.file + l.buf[..n];
    if io.written.Some? && n == |l.buf| then
      l.(file := file, buf := [], size := l.size + n, postponed := 0, ok := true)
    else
      var undone := io.written.Some? && io.truncates;
      var left := if undone then Truncated(file, l.size) else file;
      var m := if undone then 0 else n;
      if p == Always then l.(file := left, postponed := 0, alive := false)
      else l.(file := left, buf := l.buf[m..], size := l.size + m, postponed := 0, ok := false)
  }

  function Flush(p: Policy, l: Log, io: Io): Log {
    if l.buf == [] then l
    else if Postpones(p, l, io) then
      if l.postponed == 0 then l.(postponed := io.now) else l
    else Write(p, l, io)
  }

  // ----- runs ------------------------------------------------------------------------------

  datatype Event = Fed(feed: Feed) | Flushed(io: Io) | Forked

  predicate EventOk(e: Event) {
    e.Fed? ==> FeedOk(e.feed)
  }

  predicate RunOk(run: seq<Event>) {
    forall i :: 0 <= i < |run| ==> EventOk(run[i])
  }

  /** One event; a server that has exited does nothing any more.  Starting a rewrite forgets
      the selected database, so that the difference it collects starts with a SELECT. */
  function Exec(p: Policy, l: Log, e: Event): Log
    requires EventOk(e)
  {
    if !l.alive then l
    else
      match e
      case Fed(f) => l.(buf := l.buf + EncodeAll(Written(l.selectedDb, f)), selectedDb := f.db)
      case Flushed(io) => Flush(p, l, io)
      case Forked => l.(selectedDb := -1)
  }

  function State(p: Policy, l: Log, run: seq<Event>): Log
    requires RunOk(run)
    decreases |run|
  {
    if run == [] then l else Exec(p, State(p, l, run[..|run| - 1]), run[|run| - 1])
  }

  /** Commands one event adds to the log, and what they are meant to execute. */
  function Adds(l: Log, e: Event): seq<Command>
    requires EventOk(e)
  {
    if l.alive && e.Fed? then Written(l.selectedDb, e.feed) else []
  }

  function InDb(db: int, cs: seq<Command>): (r: seq<(int, Command)>)
    ensures |r| == |cs| && forall i :: 0 <= i < |r| ==> r[i] == (db, cs[i])
  {
    seq(|cs|, i requires 0 <= i < |cs| => (db, cs[i]))
  }

  function Means(l: Log, e: Event): seq<(int, Command)>
    requires EventOk(e)
  {
    if l.alive && e.Fed? then InDb(e.feed.db, Translate(e.feed)) else []
  }

  /** All commands that a run puts in the log. */
  function AllAdded(p: Policy, l: Log, run: seq<Event>): seq<Command>
    requires RunOk(run)
    decreases |run|
  {
    if run == [] then []
    else
      var before := run[..|run| - 1];
      AllAdded(p, l, before) + Adds(State(p, l, before), run[|run| - 1])
  }

  /** Everything a run means to execute: each fed command in the database it targeted. */
  function AllMeant(p: Policy, l: Log, run: seq<Event>): seq<(int, Command)>
    requires RunOk(run)
    decreases |run|
  {
    if run == [] then []
    else
      var before := run[..|run| - 1];
      AllMeant(p, l, before) + Means(State(p, l, before), run[|run| - 1])
  }

  // ----- conservation ------------------------------------------------------------------------

  /** The file and the buffer hold exactly the bytes fed, and the recorded size is the file's;
      the file of a server that exited is a beginning of them. */
  predicate Conserved(l: Log, fed: Bytes) {
    if l.alive then l.file + l.buf == fed && l.size == |l.file| else l.file <= fed
  }

  lemma FlushConserves(p: Policy, l: Log, io: Io, fed: Bytes)
    requires l.alive && Conserved(l, fed)
    ensures Conserved(Flush(p, l, io), fed)
  {
    var n := Taken(l, io);
    var file := l.file + l.buf[..n];
    assert file[..l.size] == l.file;
    assert file + l.buf[n..] == fed by { assert l.buf[..n] + l.buf[n..] == l.buf; }
    assert l.file <= fed && file <= fed;
  }

  lemma ExecConserves(p: Policy, l: Log, e: Event, fed: Bytes)
    requires EventOk(e) && Conserved(l, fed)
    ensures Conserved(Exec(p, l, e), fed + EncodeAll(Adds(l, e)))
  {
    if l.alive {
      match e {
        case Fed(f) =>
          var more := EncodeAll(Written(l.selectedDb, f));
          assert l.file + (l.buf + more) == l.file + l.buf + more;
        case Flushed(io) =>
          FlushConserves(p, l, io, fed);
          assert fed + EncodeAll([]) == fed;
        case Forked =>
          assert fed + EncodeAll([]) == fed;
      }
    } else {
      assert fed + EncodeAll([]) == fed;
    }
  }

  /** What one flush does, exactly.  It waits for a background fsync only under EverySec, unless it
      is forced, and for less than two seconds.  Otherwise it writes; if that takes everything the
      buffer is empty; if not, the server exits under Always, and else keeps what the file did not
      take, or all of it when it could cut the file back. */
  lemma FlushExactly(p: Policy, l: Log, io: Io)
    requires l.alive && l.buf != [] && l.size == |l.file|
    ensures var l', n := Flush(p, l, io), Taken(l, io);
            var since := if l.postponed == 0 then io.now else l.postponed;
            var waits := p == EverySec && !io.force && io.syncing && (l.postponed == 0 || io.now - since < 2);
            && (waits ==> l' == l.(postponed := since))
            && (!waits && io.written.Some? && n == |l.buf| ==>
                  (l'.alive && l'.ok && l'.buf == [] && l'.file == l.file + l.buf && l'.size == |l'.file|))
            && (!waits && (io.written.None? || n < |l.buf|) ==>
                  (if p == Always then !l'.alive
                   else
                     && l'.alive && !l'.ok && l'.postponed == 0 && l'.size == |l'.file|
                     && var kept := if io.written.Some? && io.truncates then 0 else n;
                        l'.file == l.file + l.buf[..kept] && l'.buf == l.buf[kept..]))
  {
    assert l.file + l.buf[..0] == l.file;
    assert (l.file + l.buf[..Taken(l, io)])[..l.size] == l.file;
    assert l.buf[..|l.buf|] == l.buf;
  }

  /** A server that has just opened a file holding the commands `base`. */
  function Opened(base: seq<Command>): Log {
    Log(EncodeAll(base), [], |EncodeAll(base)|, -1, 0, true, true)
  }

  /** Across every run of feeds, postponed flushes, failed and short writes and truncations,
      no byte fed is lost, repeated or reordered. */
  lemma {:induction false} LogConserves(p: Policy, base: seq<Command>, run: seq<Event>)
    requires RunOk(run)
    ensures Conserved(State(p, Opened(base), run), EncodeAll(base + AllAdded(p, Opened(base), run)))
    decreases |run|
  {
    var l := Opened(base);
    if run == [] {
      assert base + AllAdded(p, l, run) == base;
    } else {
      var before, e := run[..|run| - 1], run[|run| - 1];
      LogConserves(p, base, before);
      var cs, s := AllAdded(p, l, before), State(p, l, before);
      ConservedStep(p, s, e, base, cs);
    }
  }

  lemma ConservedStep(p: Policy, s: Log, e: Event, base: seq<Command>, cs: seq<Command>)
    requires EventOk(e) && Conserved(s, EncodeAll(base + cs))
    ensures Conserved(Exec(p, s, e), EncodeAll(base + (cs + Adds(s, e))))
  {
    ExecConserves(p, s, e, EncodeAll(base + cs));
    EncodeAllConcat(base + cs, Adds(s, e));
    Assoc(base, cs, Adds(s, e));
  }

  // ----- replay ---------------------------------------------------------------------------------

  /** What replaying commands executes, starting in database db: SELECT changes the database
      and every other command runs in the current one. */
  function Replay(cs: seq<Command>, db: int): seq<(int, Command)> {
    if cs == [] then []
    else if IsSelect(cs[0]) then Replay(cs[1..], ParseInt(cs[0][1]))
    else [(db, cs[0])] + Replay(cs[1..], db)
  }

  function EndDb(cs: seq<Command>, db: int): int {
    if cs == [] then db
    else EndDb(cs[1..], if IsSelect(cs[0]) then ParseInt(cs[0][1]) else db)
  }

  lemma {:induction false} ReplayConcat(a: seq<Command>, b: seq<Command>, db: int)
    ensures Replay(a + b, db) == Replay(a, db) + Replay(b, EndDb(a, db))
    ensures EndDb(a + b, db) == EndDb(b, EndDb(a, db))
    decreases |a|
  {
    if a == [] {
      assert a + b == b;
    } else {
      TailOfConcat(a, b);
      ReplayConcat(a[1..], b, if IsSelect(a[0]) then ParseInt(a[0][1]) else db);
    }
  }

  lemma {:induction false} ReplayPlain(cs: seq<Command>, db: int)
    requires forall i :: 0 <= i < |cs| ==> !IsSelect(cs[i])
    ensures Replay(cs, db) == InDb(db, cs) && EndDb(cs, db) == db
    decreases |cs|
  {
    if cs != [] {
      ReplayPlain(cs[1..], db);
      assert [(db, cs[0])] + InDb(db, cs[1..]) == InDb(db, cs);
    }
  }

  lemma ReplaySelect(n: nat, db: int)
    ensures Replay([[SELECT, Dec(n)]], db) == [] && EndDb([[SELECT, Dec(n)]], db) == n
  {
    var c: Command := [SELECT, Dec(n)];
    var cs: seq<Command> := [c];
    assert cs[1..] == [];
    assert Dec(n) + [] == Dec(n);
    ParseDec(n, []);
  }

  lemma TranslatePlain(f: Feed)
    requires FeedOk(f)
    ensures forall i :: 0 <= i < |Translate(f)| ==> !IsSelect(Translate(f)[i])
  {
  }

  lemma ReplayWritten(selected: int, f: Feed, db: int)
    requires FeedOk(f) && (selected == -1 || selected == db)
    ensures Replay(Written(selected, f), db) == InDb(f.db, Translate(f))
    ensures EndDb(Written(selected, f), db) == f.db
  {
    TranslatePlain(f);
    ReplayPlain(Translate(f), f.db);
    if f.db != selected {
      ReplaySelect(f.db, db);
      ReplayConcat([[SELECT, Dec(f.db)]], Translate(f), db);
      assert [] + InDb(f.db, Translate(f)) == InDb(f.db, Translate(f));
    } else {
      assert [] + Translate(f) == Translate(f);
    }
  }

  /** The log so far, read from database db, executes what was meant and ends in the database
      that the server has selected, if it knows one. */
  predicate Faithful(selected: int, cs: seq<Command>, meant: seq<(int, Command)>, db: int) {
    Replay(cs, db) == meant && (selected == -1 || selected == EndDb(cs, db))
  }

  lemma ExecSelects(p: Policy, l: Log, e: Event)
    requires EventOk(e)
    ensures Exec(p, l, e).selectedDb ==
      if l.alive && e.Fed? then e.feed.db else if l.alive && e.Forked? then -1 else l.selectedDb
  {
  }

  lemma FaithfulStep(p: Policy, l: Log, e: Event, cs: seq<Command>, meant: seq<(int, Command)>, db: int)
    requires EventOk(e) && Faithful(l.selectedDb, cs, meant, db)
    ensures Faithful(Exec(p, l, e).selectedDb, cs + Adds(l, e), meant + Means(l, e), db)
  {
    ExecSelects(p, l, e);
    if l.alive && e.Fed? {
      ReplayConcat(cs, Adds(l, e), db);
      ReplayWritten(l.selectedDb, e.feed, EndDb(cs, db));
    } else {
      assert cs + [] == cs && meant + [] == meant;
    }
  }

  /** Whatever database the replay starts in, it executes each command where it belongs. */
  lemma {:induction false} ReplayMeans(p: Policy, l: Log, run: seq<Event>, db: int)
    requires RunOk(run) && l.selectedDb == -1
    ensures Faithful(State(p, l, run).selectedDb, AllAdded(p, l, run), AllMeant(p, l, run), db)
    decreases |run|
  {
    if run != [] {
      var before, e := run[..|run| - 1], run[|run| - 1];
      ReplayMeans(p, l, before, db);
      FaithfulStep(p, State(p, l, before), e, AllAdded(p, l, before), AllMeant(p, l, before), db);
    }
  }

  // ----- recovery ---------------------------------------------------------------------------------

  lemma DecIntFits(n: int)
    requires 0 - LONG_MAX <= n <= LONG_MAX
    ensures |DecInt(n)| <= 20
  {
    NumbersFitLine(if n < 0 then 0 - n else n);
  }

  predicate AllPrintable(cs: seq<Command>) {
    forall i :: 0 <= i < |cs| ==> Printable(cs[i])
  }

  lemma WrittenPrintable(selected: int, f: Feed)
    requires FeedOk(f)
    ensures AllPrintable(Written(selected, f))
  {
    NumbersFitLine(f.db);
    if f.kind != Other { DecIntFits(When(f)); }
  }

  lemma {:induction false} AddedPrintable(p: Policy, l: Log, run: seq<Event>)
    requires RunOk(run)
    ensures AllPrintable(AllAdded(p, l, run))
    decreases |run|
  {
    if run != [] {
      var before, e := run[..|run| - 1], run[|run| - 1];
      AddedPrintable(p, l, before);
      var s := State(p, l, before);
      if s.alive && e.Fed? { WrittenPrintable(s.selectedDb, e.feed); }
    }
  }

  /** Replaying a beginning executes a beginning. */
  lemma ReplayBeginning(cs: seq<Command>, w: nat, db: int)
    requires w <= |cs|
    ensures Replay(cs[..w], db) <= Replay(cs, db)
  {
    assert cs[..w] + cs[w..] == cs;
    ReplayConcat(cs[..w], cs[w..], db);
  }

  /** The whole log, base and all, executes what it is meant to. */
  lemma ReplayWhole(p: Policy, base: seq<Command>, run: seq<Event>, db: int)
    requires RunOk(run)
    ensures Replay(base + AllAdded(p, Opened(base), run), db) == Replay(base, db) + AllMeant(p, Opened(base), run)
  {
    ReplayConcat(base, AllAdded(p, Opened(base), run), db);
    ReplayMeans(p, Opened(base), run, EndDb(base, db));
  }

  /** Whatever became of its writes, the file is a beginning of the printed log. */
  lemma FileIsBeginning(p: Policy, base: seq<Command>, run: seq<Event>)
    requires RunOk(run)
    ensures State(p, Opened(base), run).file <= EncodeAll(base + AllAdded(p, Opened(base), run))
  {
    LogConserves(p, base, run);
  }

  lemma {:induction false} LoadBeginning(cs: seq<Command>, file: Bytes, known: Command -> bool)
    requires AllPrintable(cs) && AllKnown(cs, known) && file != [] && file <= EncodeAll(cs)
    ensures Load(file, true, known, true).Ok? && Load(file, true, known, true).cmds == cs[..Whole(cs, |file|)]
  {
    assert file == EncodeAll(cs)[..|file|];
    LoadRecoversTruncated(cs, |file|, known, true);
  }

  /** A server that stops at any moment, whatever became of its writes, leaves a file that
      loads and executes a beginning of what was meant. */
  lemma RecoveryExecutesPrefix(p: Policy, base: seq<Command>, run: seq<Event>, db: int, known: Command -> bool)
    requires RunOk(run) && AllPrintable(base) && AllKnown(base + AllAdded(p, Opened(base), run), known)
    requires State(p, Opened(base), run).file != []
    ensures var o := Load(State(p, Opened(base), run).file, true, known, true);
            o.Ok? && Replay(o.cmds, db) <= Replay(base, db) + AllMeant(p, Opened(base), run)
  {
    var file, cs := State(p, Opened(base), run).file, base + AllAdded(p, Opened(base), run);
    FileIsBeginning(p, base, run);
    AddedPrintable(p, Opened(base), run);
    LoadBeginning(cs, file, known);
    ReplayBeginning(cs, Whole(cs, |file|), db);
    ReplayWhole(p, base, run, db);
  }

  /** Once everything fed is flushed, the file loads and executes exactly what was meant. */
  lemma FlushedLogExecutesAll(p: Policy, base: seq<Command>, run: seq<Event>, db: int, loadTruncated: bool,
                                                 known: Command -> bool, truncates: bool)
    requires RunOk(run) && AllPrintable(base) && AllKnown(base + AllAdded(p, Opened(base), run), known)
    requires var s := State(p, Opened(base), run); s.alive && s.buf == [] && s.file != []
    ensures var s := State(p, Opened(base), run);
            var o := Load(s.file, loadTruncated, known, truncates);
            && o.Ok? && o.keep == s.size
            && Replay(o.cmds, db) == Replay(base, db) + AllMeant(p, Opened(base), run)
  {
    var l := Opened(base);
    var s, cs := State(p, l, run), AllAdded(p, l, run);
    LogConserves(p, base, run);
    AddedPrintable(p, l, run);
    assert s.file == EncodeAll(base + cs);
    LoadUndoesPrint(base + cs, loadTruncated, known, truncates);
    ReplayWhole(p, base, run, db);
  }

  // ----- the server's own code ------------------------------------------------------------------

  lemma EncodeAllTwo(a: Command, b: Command)
    ensures EncodeAll([a, b]) == Encode(a) + Encode(b)
  {
    EncodeAllSplit(a, [b]);
    assert [a] + [b] == [a, b];
    EncodeAllOne(b);
  }

  lemma EncodeArgsTwo(a: Bytes, b: Bytes)
    ensures EncodeArgs([a, b]) == EncodeArg(a) + EncodeArg(b)
  {
    var both: Command, last: Command := [a, b], [b];
    assert both[1..] == last && last[1..] == [];
    assert EncodeArgs(last) == EncodeArg(b) + [];
  }

  lemma SelectHeaders()
    ensures Header(STAR, 2) == [STAR, 50, CR, LF] && Header(DOLLAR, 6) == [DOLLAR, 54, CR, LF]
  {
  }

  /** The literal text printed before a command for another database. */
  lemma SelectText(seldb: Bytes, c: Command)
    requires c == [SELECT, seldb]
    ensures [STAR, 50, CR, LF] + ([DOLLAR, 54, CR, LF] + SELECT + [CR, LF]) + EncodeArg(seldb) == Encode(c)
  {
    EncodeArgsTwo(SELECT, seldb);
    SelectHeaders();
  }

  class Server {
    var file: Bytes
    var aofBuf: Bytes
    var aofCurrentSize: nat
    var aofSelectedDb: int
    var postponedStart: int
    var lastWriteOk: bool
    var running: bool
    var rewriting: bool          // a child is rewriting the file
    var rewriteBuf: Bytes        // what was fed since that began
    const policy: Policy

    ghost function Value(): Log reads this {
      Log(file, aofBuf, aofCurrentSize, aofSelectedDb, postponedStart, lastWriteOk, running)
    }

    constructor (p: Policy, held: Bytes, ghost base: seq<Command>)
      requires held == EncodeAll(base)
      ensures policy == p && Value() == Opened(base) && !rewriting && rewriteBuf == []
    {
      policy := p;
      file, aofBuf, aofCurrentSize, aofSelectedDb := held, [], |held|, -1;
      postponedStart, lastWriteOk, running := 0, true, true;
      rewriting, rewriteBuf := false, [];
    }

    /** catAppendOnlyExpireAtCommand. */
    method CatExpireAt(buf: Bytes, f: Feed) returns (out: Bytes)
      requires |f.argv| >= 3
      ensures out == buf + Encode([PEXPIREAT, f.argv[1], DecInt(When(f))])
      ensures When(f) == (match f.kind
                          case Expire => f.now + 1000 * ParseInt(f.argv[2])
                          case SetEx => f.now + 1000 * ParseInt(f.argv[2])
                          case PExpire => f.now + ParseInt(f.argv[2])
                          case PSetEx => f.now + ParseInt(f.argv[2])
                          case ExpireAt => 1000 * ParseInt(f.argv[2])
                          case Other => ParseInt(f.argv[2]))
    {
      var when := ParseInt(f.argv[2]);
      if f.kind == Expire || f.kind == SetEx || f.kind == ExpireAt { when := when * 1000; }
      if f.kind == Expire || f.kind == PExpire || f.kind == SetEx || f.kind == PSetEx { when := when + f.now; }
      out := CatGenericCommand(buf, [PEXPIREAT, f.argv[1], DecInt(when)]);
    }

    /** SETEX and PSETEX are printed as SET and PEXPIREAT. */
    method CatSetWithExpiry(buf: Bytes, f: Feed) returns (out: Bytes)
      requires |f.argv| >= 4
      ensures out == buf + EncodeAll([[SET, f.argv[1], f.argv[3]], [PEXPIREAT, f.argv[1], DecInt(When(f))]])
    {
      var tmpargv := [SET, f.argv[1], f.argv[3]];
      out := CatGenericCommand(buf, tmpargv);
      out := CatExpireAt(out, f);
      EncodeAllTwo(tmpargv, [PEXPIREAT, f.argv[1], DecInt(When(f))]);
    }

    /** The part of feedAppendOnlyFile that prints the command itself. */
    method CatTranslated(buf: Bytes, f: Feed) returns (out: Bytes)
      requires FeedOk(f)
      ensures out == buf + EncodeAll(Translate(f))
    {
      if f.kind == Expire || f.kind == PExpire || f.kind == ExpireAt {
        out := CatExpireAt(buf, f);
        EncodeAllOne([PEXPIREAT, f.argv[1], DecInt(When(f))]);
      } else if f.kind == SetEx || f.kind == PSetEx {
        out := CatSetWithExpiry(buf, f);
      } else {
        out := CatGenericCommand(buf, f.argv);
        EncodeAllOne(f.argv);
      }
    }

    /** The part of feedAppendOnlyFile that prints SELECT. */
    method CatSelect(db: nat) returns (out: Bytes)
      modifies this`aofSelectedDb
      ensures aofSelectedDb == db
      ensures out == EncodeAll(if db != old(aofSelectedDb) then [[SELECT, Dec(db)]] else [])
    {
      out := [];
      if db != aofSelectedDb {
        var seldb := Dec(db);
        out := [STAR, 50, CR, LF] + ([DOLLAR, 54, CR, LF] + SELECT + [CR, LF])
               + ([DOLLAR] + Dec(|seldb|) + [CR, LF] + seldb + [CR, LF]);
        SelectText(seldb, [SELECT, seldb]);
        EncodeAllOne([SELECT, Dec(db)]);
        aofSelectedDb := db;
      }
    }

    /** feedAppendOnlyFile with the log on. */
    method FeedCommand(f: Feed)
      requires FeedOk(f) && running
      modifies this`aofBuf, this`aofSelectedDb, this`rewriteBuf
      ensures Value() == Exec(policy, old(Value()), Fed(f))
      ensures rewriteBuf == old(rewriteBuf) + if rewriting then EncodeAll(Written(old(aofSelectedDb), f)) else []
    {
      var buf := CatSelect(f.db);
      EncodeAllConcat(if f.db != old(aofSelectedDb) then [[SELECT, Dec(f.db)]] else [], Translate(f));
      buf := CatTranslated(buf, f);
      aofBuf := aofBuf + buf;
      if rewriting { rewriteBuf := rewriteBuf + buf; }
    }

    /** The write of flushAppendOnlyFile and the handling of its failure. */
    method WriteBuffer(io: Io)
      requires running && aofBuf != []
      modifies this`file, this`aofBuf, this`aofCurrentSize, this`postponedStart, this`lastWriteOk, this`running
      ensures Value() == Write(policy, old(Value()), io)
    {
      var nwritten: int := -1;
      if io.written.Some? {
        nwritten := if io.written.value <= |aofBuf| then io.written.value else |aofBuf|;
        file := file + aofBuf[..nwritten];
      }
      postponedStart := 0;
      if nwritten != |aofBuf| {
        if nwritten != -1 && io.truncates {
          file := Truncated(file, aofCurrentSize);
          nwritten := -1;
        }
        if policy == Always {
          running := false;
          return;
        }
        lastWriteOk := false;
        if nwritten > 0 {
          aofCurrentSize := aofCurrentSize + nwritten;
          aofBuf := aofBuf[nwritten..];
        }
        return;
      }
      lastWriteOk := true;
      aofCurrentSize := aofCurrentSize + nwritten;
      aofBuf := [];
    }

    /** flushAppendOnlyFile. */
    method FlushBuffer(io: Io)
      requires running
      modifies this`file, this`aofBuf, this`aofCurrentSize, this`postponedStart, this`lastWriteOk, this`running
      ensures Value() == Exec(policy, old(Value()), Flushed(io))
    {
      if |aofBuf| == 0 { return; }
      if policy == EverySec && !io.force {
        if io.syncing {
          if postponedStart == 0 {
            postponedStart := io.now;
            return;
          } else if io.now - postponedStart < 2 {
            return;
          }
        }
      }
      WriteBuffer(io);
    }
  }
}
