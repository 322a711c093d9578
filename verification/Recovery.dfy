/** What a server that loads its append-only file has in its keyspace, compared with what the
    server that wrote the file had. */
module Recovery {
  import opened Prelude
  import opened AofCodec
  import opened AofLog
  import opened Keyspace

  // ----- the feeds of a run -----------------------------------------------------------------

  function FeedsIn(run: seq<Event>): seq<Feed>
    decreases |run|
  {
    if run == [] then []
    else
      var last := run[|run| - 1];
      FeedsIn(run[..|run| - 1]) + if last.Fed? then [last.feed] else []
  }

  lemma {:induction false} FeedsInFeedable(run: seq<Event>)
    requires RunOk(run)
    ensures Feedable(FeedsIn(run))
    decreases |run|
  {
    if run != [] { FeedsInFeedable(run[..|run| - 1]); }
  }

  lemma MeantByMore(fs: seq<Feed>, f: Feed)
    requires Feedable(fs) && FeedOk(f)
    ensures MeantBy(fs + [f]) == MeantBy(fs) + InDb(f.db, Translate(f))
  {
    MeantByConcat(fs, [f]);
    MeantByOne(f);
  }

  /** A run means what its feeds mean, up to where the server exits. */
  lemma {:induction false} RunMeansFeeds(p: Policy, l: Log, run: seq<Event>)
    requires RunOk(run)
    ensures Feedable(FeedsIn(run)) && AllMeant(p, l, run) <= MeantBy(FeedsIn(run))
    ensures State(p, l, run).alive ==> AllMeant(p, l, run) == MeantBy(FeedsIn(run))
    decreases |run|
  {
    FeedsInFeedable(run);
    if run != [] {
      var before, e := run[..|run| - 1], run[|run| - 1];
      RunMeansFeeds(p, l, before);
      if e.Fed? {
        MeantByMore(FeedsIn(before), e.feed);
      } else {
        assert FeedsIn(before) + [] == FeedsIn(before);
      }
      var meant := AllMeant(p, l, before);
      assert meant + [] == meant;
    }
  }

  // ----- commands that do not look at the clock ------------------------------------------------

  /** Executed while loading, the command does the same at all times. */
  predicate ClockFree(c: Command) {
    KindOf(c) in {ExpireAt, Other} && !IsTimedSet(c)
  }

  predicate AllClockFree(xs: seq<(int, Command)>) {
    forall i :: 0 <= i < |xs| ==> ClockFree(xs[i].1)
  }

  lemma SameAtAllTimes(ks: Keys, db: int, c: Command, s: int, t: int, others: Others)
    requires ClockFree(c)
    ensures Apply(ks, db, c, s, true, others) == Apply(ks, db, c, t, true, others)
  {
  }

  lemma {:induction false} AllSameAtAllTimes(ks: Keys, xs: seq<(int, Command)>, a: nat -> int, m: nat, b: nat -> int, n: nat,
                                             others: Others)
    requires AllClockFree(xs)
    ensures ApplyAll(ks, xs, a, m, others) == ApplyAll(ks, xs, b, n, others)
    decreases |xs|
  {
    if xs != [] {
      SameAtAllTimes(ks, xs[0].0, xs[0].1, a(m), b(n), others);
      AllSameAtAllTimes(Apply(ks, xs[0].0, xs[0].1, a(m), true, others), xs[1..], a, m + 1, b, n + 1, others);
    }
  }

  /** The keys of a server that loaded the commands base. */
  function Stored(base: seq<Command>, db: int, others: Others): Keys {
    ApplyAll(map[], Replay(base, db), (i: nat) => 0, 0, others)
  }

  /** The run is that of a server that loaded base and then executed the calls. */
  predicate Serves(base: seq<Command>, run: seq<Event>, calls: seq<Call>, db: int, others: Others) {
    && RunOk(run) && AllPrintable(base) && AllClockFree(Replay(base, db))
    && FeedsIn(run) == AllFeeds(Stored(base, db, others), calls, others)
  }

  /** Loading base and then more. */
  lemma LoadedThen(base: seq<Command>, zs: seq<(int, Command)>, clock: nat -> int, db: int, others: Others)
    requires AllClockFree(Replay(base, db))
    ensures ApplyAll(map[], Replay(base, db) + zs, clock, 0, others)
         == ApplyAll(Stored(base, db, others), zs, clock, |Replay(base, db)|, others)
  {
    ApplyAllConcat(map[], Replay(base, db), zs, clock, 0, others);
    AllSameAtAllTimes(map[], Replay(base, db), clock, 0, (i: nat) => 0, 0, others);
  }

  /** Once everything is flushed, a restart restores exactly the keys, values and deadlines that the
      server had, whenever it is and however long it takes, if no SET gave a relative time and the
      clock did not tick between a relative expiry and its feed. */
  lemma RestartRestoresKeys(p: Policy, base: seq<Command>, run: seq<Event>, calls: seq<Call>, db: int, others: Others,
                            loadTruncated: bool, known: Command -> bool, truncates: bool, clock: nat -> int)
    requires Serves(base, run, calls, db, others) && AllKnown(base + AllAdded(p, Opened(base), run), known)
    requires Steady(calls)
    requires var s := State(p, Opened(base), run); s.alive && s.buf == [] && s.file != []
    ensures var o := Load(State(p, Opened(base), run).file, loadTruncated, known, truncates);
            o.Ok? && ApplyAll(map[], Replay(o.cmds, db), clock, 0, others) == Live(Stored(base, db, others), calls, others)
  {
    FlushedLogExecutesAll(p, base, run, db, loadTruncated, known, truncates);
    RunMeansFeeds(p, Opened(base), run);
    var zs := AllMeant(p, Opened(base), run);
    LoadedThen(base, zs, clock, db, others);
    CallsRecover(Stored(base, db, others), calls, clock, |Replay(base, db)|, others);
  }

  // ----- after a crash ---------------------------------------------------------------------------

  /** The file never becomes shorter than what it held when it was opened. */
  lemma {:induction false} FileKeepsBase(p: Policy, base: seq<Command>, run: seq<Event>)
    requires RunOk(run)
    ensures |EncodeAll(base)| <= |State(p, Opened(base), run).file|
    decreases |run|
  {
    if run != [] {
      var before, e := run[..|run| - 1], run[|run| - 1];
      FileKeepsBase(p, base, before);
      LogConserves(p, base, before);
      FileGrows(p, State(p, Opened(base), before), e);
    }
  }

  lemma FileGrows(p: Policy, l: Log, e: Event)
    requires EventOk(e) && (l.alive ==> l.size == |l.file|)
    ensures |l.file| <= |Exec(p, l, e).file|
  {
  }

  lemma BaseIsWhole(base: seq<Command>, rest: seq<Command>, n: nat)
    requires |EncodeAll(base)| <= n
    ensures |base| <= Whole(base + rest, n)
  {
    var w := Whole(base + rest, n);
    WholeIsGreatest(base + rest, n);
    if w < |base| {
      TakeWithin(base, rest, w + 1);
      assert base[..w + 1] + base[w + 1..] == base;
      EncodeAllConcat(base[..w + 1], base[w + 1..]);
    }
  }

  /** The file of a server that stops loads as the base and a beginning of what was added. */
  lemma CrashLoads(p: Policy, base: seq<Command>, run: seq<Event>, db: int, known: Command -> bool)
    returns (m: nat)
    requires RunOk(run) && AllPrintable(base) && AllKnown(base + AllAdded(p, Opened(base), run), known)
    requires State(p, Opened(base), run).file != []
    ensures var o := Load(State(p, Opened(base), run).file, true, known, true);
            && o.Ok? && m <= |AllMeant(p, Opened(base), run)|
            && Replay(o.cmds, db) == Replay(base, db) + AllMeant(p, Opened(base), run)[..m]
  {
    var l := Opened(base);
    var added, file := AllAdded(p, l, run), State(p, l, run).file;
    FileIsBeginning(p, base, run);
    FileKeepsBase(p, base, run);
    AddedPrintable(p, l, run);
    LoadBeginning(base + added, file, known);
    var w := Whole(base + added, |file|);
    BaseIsWhole(base, added, |file|);
    TakePast(base, added, w);
    m := |Replay(added[..w - |base|], EndDb(base, db))|;
    ReplayConcat(base, added[..w - |base|], db);
    ReplayBeginning(added, w - |base|, EndDb(base, db));
    ReplayMeans(p, l, run, EndDb(base, db));
  }

  /** Whenever the server stops, whatever became of its writes, a restart restores the keys, values
      and deadlines after a beginning of its calls; or that and the value of one SETEX without its
      deadline, if the file ends between the two commands that SETEX became. */
  lemma CrashRestoresBeginning(p: Policy, base: seq<Command>, run: seq<Event>, calls: seq<Call>, db: int, others: Others,
                               known: Command -> bool, clock: nat -> int) returns (i: nat, half: bool)
    requires Serves(base, run, calls, db, others) && AllKnown(base + AllAdded(p, Opened(base), run), known)
    requires Steady(calls) && State(p, Opened(base), run).file != []
    ensures i <= |calls| && (half ==> Cuttable(calls, i))
    ensures var o := Load(State(p, Opened(base), run).file, true, known, true);
            var live := Live(Stored(base, db, others), calls[..i], others);
            o.Ok? && ApplyAll(map[], Replay(o.cmds, db), clock, 0, others) == if half then Halfway(live, calls[i]) else live
  {
    var m := CrashLoads(p, base, run, db, known);
    RunMeansFeeds(p, Opened(base), run);
    var zs := MeantBy(FeedsIn(run));
    assert AllMeant(p, Opened(base), run)[..m] == zs[..m];
    LoadedThen(base, zs[..m], clock, db, others);
    var ks := Stored(base, db, others);
    i, half := BeginningRecovers(ks, calls, zs, m, clock, |Replay(base, db)|, others);
    BeginningIsLive(ks, calls, i, half, others);
  }
}
