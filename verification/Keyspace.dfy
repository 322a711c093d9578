/** What commands do to the keys, their values and their deadlines, and what a log of translated
    commands therefore restores.  Times are in milliseconds. */
module Keyspace {
  import opened Prelude
  import opened AofCodec
  import opened AofLog

  datatype Item = Item(value: Bytes, deadline: Option<int>)

  /** The keys of all databases. */
  type Keys = map<(int, Bytes), Item>

  /** What all the commands do that are not described below; they do not look at the clock. */
  type Others = (Keys, int, Command) -> Keys

  // ----- names and numbers ------------------------------------------------------------------

  const EXPIRE: Bytes := [69, 88, 80, 73, 82, 69]
  const PEXPIRE: Bytes := [80, 69, 88, 80, 73, 82, 69]
  const EXPIREAT: Bytes := [69, 88, 80, 73, 82, 69, 65, 84]
  const SETEX: Bytes := [83, 69, 84, 69, 88]
  const PSETEX: Bytes := [80, 83, 69, 84, 69, 88]
  const DEL: Bytes := [68, 69, 76]

  /** Equal up to the case of letters. */
  predicate Same(a: Bytes, name: Bytes) {
    |a| == |name| && forall i :: 0 <= i < |a| ==> a[i] == name[i] || (65 <= name[i] <= 90 && a[i] == name[i] + 32)
  }

  predicate Named(c: Command, name: Bytes) {
    c != [] && Same(c[0], name)
  }

  /** The implementation that the command table gives, as far as the log looks at it; a wrong
      number of arguments is refused before. */
  function KindOf(c: Command): Kind {
    if |c| == 3 && Named(c, EXPIRE) then Expire
    else if |c| == 3 && Named(c, PEXPIRE) then PExpire
    else if |c| == 3 && Named(c, EXPIREAT) then ExpireAt
    else if |c| == 4 && Named(c, SETEX) then SetEx
    else if |c| == 4 && Named(c, PSETEX) then PSetEx
    else Other
  }

  predicate IsExpireAtMs(c: Command) {
    |c| == 3 && Named(c, PEXPIREAT)
  }

  predicate IsDel(c: Command) {
    |c| >= 2 && Named(c, DEL)
  }

  predicate IsSet(c: Command) {
    |c| >= 3 && Named(c, SET)
  }

  predicate AllDigits(s: Bytes) {
    forall i :: 0 <= i < |s| ==> IsDigit(s[i])
  }

  /** getLongLongFromObject: the whole argument is a number that fits. */
  function NumberOf(s: Bytes): Option<int> {
    var digits := if s != [] && s[0] in {43, 45} then s[1..] else s;
    if (s == [] || digits != []) && AllDigits(digits) && 0 - LONG_MAX - 1 <= ParseInt(s) <= LONG_MAX
    then Some(ParseInt(s)) else None
  }

  // ----- single commands -----------------------------------------------------------------------

  /** expireGenericCommand: a deadline of base + unit * t for a key that exists.  A master that is
      not loading deletes the key instead if that has passed. */
  function Expires(ks: Keys, key: (int, Bytes), t: Option<int>, unit: int, base: int, now: int, follows: bool): Keys {
    if t.None? || key !in ks then ks
    else if base + unit * t.value <= now && !follows then ks - {key}
    else ks[key := ks[key].(deadline := Some(base + unit * t.value))]
  }

  /** setGenericCommand without conditions: the value, and a deadline t units from now. */
  function SetsFor(ks: Keys, key: (int, Bytes), value: Bytes, t: Option<int>, unit: int, now: int): Keys {
    if t.None? || t.value <= 0 then ks else ks[key := Item(value, Some(now + unit * t.value))]
  }

  /** The options of SET: NX, XX, and the time of EX or PX. */
  datatype Options = Options(nx: bool, xx: bool, time: Option<Bytes>, seconds: bool)

  predicate IsOption(a: Bytes, first: Byte, second: Byte) {
    Same(a, [first, second])
  }

  /** The loop of setCommand over the arguments from j on; None is a syntax error. */
  function ReadOptions(c: Command, j: nat, o: Options): Option<Options>
    decreases |c| - j
  {
    if j >= |c| then Some(o)
    else if IsOption(c[j], 78, 88) && !o.xx then ReadOptions(c, j + 1, o.(nx := true))
    else if IsOption(c[j], 88, 88) && !o.nx then ReadOptions(c, j + 1, o.(xx := true))
    else if IsOption(c[j], 69, 88) && (o.time.None? || o.seconds) && j + 1 < |c| then
      ReadOptions(c, j + 2, o.(time := Some(c[j + 1]), seconds := true))
    else if IsOption(c[j], 80, 88) && (o.time.None? || !o.seconds) && j + 1 < |c| then
      ReadOptions(c, j + 2, o.(time := Some(c[j + 1]), seconds := false))
    else None
  }

  function OptionsOf(c: Command): Option<Options> {
    ReadOptions(c, 3, Options(false, false, None, false))
  }

  /** SET does not take effect: bad options or time, or its condition does not hold. */
  predicate SetRefused(ks: Keys, key: (int, Bytes), o: Option<Options>) {
    o.None? || (o.value.nx && key in ks) || (o.value.xx && key !in ks)
    || (o.value.time.Some? && (NumberOf(o.value.time.value).None? || NumberOf(o.value.time.value).value <= 0))
  }

  function Sets(ks: Keys, key: (int, Bytes), value: Bytes, o: Option<Options>, now: int): Keys {
    if SetRefused(ks, key, o) then ks
    else if o.value.time.None? then ks[key := Item(value, None)]
    else SetsFor(ks, key, value, NumberOf(o.value.time.value), if o.value.seconds then 1000 else 1, now)
  }

  function Deleted(ks: Keys, db: int, names: seq<Bytes>): Keys {
    map k | k in ks && !(k.0 == db && k.1 in names) :: ks[k]
  }

  /** A command executed at time now, by a master, or by a server that follows what it is given:
      a slave, or one that is loading its log. */
  function Apply(ks: Keys, db: int, c: Command, now: int, follows: bool, others: Others): Keys {
    match KindOf(c)
    case Expire => Expires(ks, (db, c[1]), NumberOf(c[2]), 1000, now, now, follows)
    case PExpire => Expires(ks, (db, c[1]), NumberOf(c[2]), 1, now, now, follows)
    case ExpireAt => Expires(ks, (db, c[1]), NumberOf(c[2]), 1000, 0, now, follows)
    case SetEx => SetsFor(ks, (db, c[1]), c[3], NumberOf(c[2]), 1000, now)
    case PSetEx => SetsFor(ks, (db, c[1]), c[3], NumberOf(c[2]), 1, now)
    case Other =>
      if IsExpireAtMs(c) then Expires(ks, (db, c[1]), NumberOf(c[2]), 1, 0, now, follows)
      else if IsDel(c) then Deleted(ks, db, c[1..])
      else if IsSet(c) then Sets(ks, (db, c[1]), c[2], OptionsOf(c), now)
      else others(ks, db, c)
  }

  /** The server executes a client's command at one time and feeds the log at another, not
      earlier one. */
  datatype Call = Call(db: nat, argv: Command, at: int, fed: int)

  function Done(ks: Keys, call: Call, others: Others): Keys {
    Apply(ks, call.db, call.argv, call.at, false, others)
  }

  /** What an expiring command feeds: nothing if it had no effect, DEL if it deleted the key. */
  function ExpiryFed(ks: Keys, call: Call, when: Option<int>): seq<Feed>
    requires |call.argv| >= 2
  {
    if when.None? || (call.db, call.argv[1]) !in ks then []
    else if when.value <= call.at then [Feed(Other, call.db, [DEL, call.argv[1]], call.fed)]
    else [Feed(KindOf(call.argv), call.db, call.argv, call.fed)]
  }

  function Scaled(t: Option<int>, unit: int, base: int): Option<int> {
    if t.None? then None else Some(base + unit * t.value)
  }

  /** What a call feeds to the log. */
  function FeedsOf(ks: Keys, call: Call): seq<Feed> {
    var c := call.argv;
    var whole := [Feed(KindOf(c), call.db, c, call.fed)];
    match KindOf(c)
    case Expire => ExpiryFed(ks, call, Scaled(NumberOf(c[2]), 1000, call.at))
    case PExpire => ExpiryFed(ks, call, Scaled(NumberOf(c[2]), 1, call.at))
    case ExpireAt => ExpiryFed(ks, call, Scaled(NumberOf(c[2]), 1000, 0))
    case SetEx => if NumberOf(c[2]).None? || NumberOf(c[2]).value <= 0 then [] else whole
    case PSetEx => if NumberOf(c[2]).None? || NumberOf(c[2]).value <= 0 then [] else whole
    case Other =>
      if IsExpireAtMs(c) then ExpiryFed(ks, call, Scaled(NumberOf(c[2]), 1, 0))
      else if IsSet(c) && SetRefused(ks, (call.db, c[1]), OptionsOf(c)) then []
      else whole
  }

  // ----- replay ----------------------------------------------------------------------------------

  /** What feeds mean to the one who replays them. */
  function MeantBy(fs: seq<Feed>): seq<(int, Command)>
    requires forall i :: 0 <= i < |fs| ==> FeedOk(fs[i])
  {
    if fs == [] then [] else InDb(fs[0].db, Translate(fs[0])) + MeantBy(fs[1..])
  }

  /** Commands executed while loading, the i-th at clock(n + i). */
  function ApplyAll(ks: Keys, xs: seq<(int, Command)>, clock: nat -> int, n: nat, others: Others): Keys
    decreases |xs|
  {
    if xs == [] then ks
    else ApplyAll(Apply(ks, xs[0].0, xs[0].1, clock(n), true, others), xs[1..], clock, n + 1, others)
  }

  lemma ReadDecInt(n: int)
    ensures ParseInt(DecInt(n)) == n
  {
    var m := if n < 0 then 0 - n else n;
    ParseDec(m, []);
    assert Dec(m) + [] == Dec(m);
    if n < 0 {
      assert DecInt(n)[1..] == Dec(m) && DecInt(n)[0] == 45;
      ReadDigitsDec(m);
    }
  }

  lemma NumberOfDecInt(n: int)
    requires 0 - LONG_MAX <= n <= LONG_MAX
    ensures NumberOf(DecInt(n)) == Some(n)
  {
    ReadDecInt(n);
    var s := DecInt(n);
    if n < 0 {
      assert s[1..] == Dec(0 - n);
    } else {
      assert IsDigit(s[0]);
    }
  }

  /** The commands that the log writes are read as what they are. */
  lemma WrittenKinds(c: Command)
    requires c != []
    ensures c[0] == PEXPIREAT && |c| == 3 ==> KindOf(c) == Other && IsExpireAtMs(c)
    ensures c[0] == SET && |c| == 3 ==> KindOf(c) == Other && !IsExpireAtMs(c) && !IsDel(c) && IsSet(c)
    ensures c[0] == DEL && |c| == 2 ==> KindOf(c) == Other && !IsExpireAtMs(c) && IsDel(c)
  {
    assert PEXPIREAT[0] == 80 && SET[0] == 83 && DEL[0] == 68;
  }

  /** PEXPIREAT, as the log writes it. */
  lemma ReplayDeadline(ks: Keys, db: int, key: Bytes, when: int, now: int, others: Others)
    requires 0 - LONG_MAX <= when <= LONG_MAX
    ensures Apply(ks, db, [PEXPIREAT, key, DecInt(when)], now, true, others)
         == if (db, key) in ks then ks[(db, key) := ks[(db, key)].(deadline := Some(when))] else ks
  {
    NumberOfDecInt(when);
    WrittenKinds([PEXPIREAT, key, DecInt(when)]);
  }

  /** SET without options. */
  lemma ReplayValue(ks: Keys, db: int, key: Bytes, value: Bytes, now: int, others: Others)
    ensures Apply(ks, db, [SET, key, value], now, true, others) == ks[(db, key) := Item(value, None)]
  {
    WrittenKinds([SET, key, value]);
  }

  lemma ApplyOne(ks: Keys, db: int, c: Command, clock: nat -> int, n: nat, others: Others)
    ensures ApplyAll(ks, [(db, c)], clock, n, others) == Apply(ks, db, c, clock(n), true, others)
  {
    var x := [(db, c)];
    assert x[1..] == [];
  }

  lemma {:induction false} ApplyAllConcat(ks: Keys, xs: seq<(int, Command)>, ys: seq<(int, Command)>,
                                          clock: nat -> int, n: nat, others: Others)
    ensures ApplyAll(ks, xs + ys, clock, n, others)
         == ApplyAll(ApplyAll(ks, xs, clock, n, others), ys, clock, n + |xs|, others)
    decreases |xs|
  {
    if xs == [] {
      assert xs + ys == ys;
    } else {
      TailOfConcat(xs, ys);
      ApplyAllConcat(Apply(ks, xs[0].0, xs[0].1, clock(n), true, others), xs[1..], ys, clock, n + 1, others);
    }
  }

  lemma MeantByOne(f: Feed)
    requires FeedOk(f)
    ensures MeantBy([f]) == InDb(f.db, Translate(f))
  {
    var fs := [f];
    assert fs[1..] == [];
    assert InDb(f.db, Translate(f)) + [] == InDb(f.db, Translate(f));
  }

  /** A feed whose translation is the one command c. */
  lemma ReplayOne(ks: Keys, f: Feed, c: Command, clock: nat -> int, n: nat, others: Others)
    requires FeedOk(f) && Translate(f) == [c]
    ensures ApplyAll(ks, MeantBy([f]), clock, n, others) == Apply(ks, f.db, c, clock(n), true, others)
  {
    MeantByOne(f);
    assert InDb(f.db, [c]) == [(f.db as int, c)];
    ApplyOne(ks, f.db, c, clock, n, others);
  }

  lemma ReplayTwo(ks: Keys, f: Feed, c: Command, d: Command, clock: nat -> int, n: nat, others: Others)
    requires FeedOk(f) && Translate(f) == [c, d]
    ensures ApplyAll(ks, MeantBy([f]), clock, n, others)
         == Apply(Apply(ks, f.db, c, clock(n), true, others), f.db, d, clock(n + 1), true, others)
  {
    MeantByOne(f);
    assert InDb(f.db, [c, d]) == [(f.db as int, c)] + [(f.db as int, d)];
    ApplyAllConcat(ks, [(f.db as int, c)], [(f.db as int, d)], clock, n, others);
    ApplyOne(ks, f.db, c, clock, n, others);
    ApplyOne(Apply(ks, f.db, c, clock(n), true, others), f.db, d, clock, n + 1, others);
  }

  predicate Feedable(fs: seq<Feed>) {
    forall i :: 0 <= i < |fs| ==> FeedOk(fs[i])
  }

  function KeyOf(call: Call): (int, Bytes) {
    (call.db, if |call.argv| > 1 then call.argv[1] else [])
  }

  /** The deadline of a key put off by delta. */
  function PutOff(ks: Keys, key: (int, Bytes), delta: int): Keys {
    if key in ks && ks[key].deadline.Some?
    then ks[key := ks[key].(deadline := Some(ks[key].deadline.value + delta))] else ks
  }

  /** SET with EX or PX. */
  predicate IsTimedSet(c: Command) {
    IsSet(c) && OptionsOf(c).Some? && OptionsOf(c).value.time.Some?
  }

  /** By how much a replay at the given time puts off the deadline that a call set: relative
      times are made absolute when the log is fed, but those of SET are not. */
  function Drift(ks: Keys, call: Call, replayed: int): int {
    if FeedsOf(ks, call) == [] then 0
    else if KindOf(call.argv) in {Expire, PExpire, SetEx, PSetEx} then call.fed - call.at
    else if IsTimedSet(call.argv) then replayed - call.at
    else 0
  }

  /** Replaying what a call fed. */
  function Replayed(ks: Keys, call: Call, clock: nat -> int, n: nat, others: Others): Keys
    requires Feedable(FeedsOf(ks, call))
  {
    ApplyAll(ks, MeantBy(FeedsOf(ks, call)), clock, n, others)
  }

  // ----- one feed ----------------------------------------------------------------------------------

  /** The translated times, said command by command. */
  lemma WhenIs(f: Feed)
    requires |f.argv| >= 3
    ensures f.kind in {Expire, SetEx} ==> When(f) == f.now + 1000 * ParseInt(f.argv[2])
    ensures f.kind in {PExpire, PSetEx} ==> When(f) == f.now + ParseInt(f.argv[2])
    ensures f.kind == ExpireAt ==> When(f) == 1000 * ParseInt(f.argv[2])
  {
  }

  lemma ReplayExpiry(ks: Keys, f: Feed, clock: nat -> int, n: nat, others: Others)
    requires FeedOk(f) && f.kind in {Expire, PExpire, ExpireAt}
    ensures ApplyAll(ks, MeantBy([f]), clock, n, others) ==
            var key := (f.db as int, f.argv[1]);
            if key in ks then ks[key := ks[key].(deadline := Some(When(f)))] else ks
  {
    ReplayOne(ks, f, [PEXPIREAT, f.argv[1], DecInt(When(f))], clock, n, others);
    ReplayDeadline(ks, f.db, f.argv[1], When(f), clock(n), others);
  }

  lemma ReplaySetting(ks: Keys, f: Feed, clock: nat -> int, n: nat, others: Others)
    requires FeedOk(f) && f.kind in {SetEx, PSetEx}
    ensures ApplyAll(ks, MeantBy([f]), clock, n, others)
         == ks[(f.db as int, f.argv[1]) := Item(f.argv[3], Some(When(f)))]
  {
    var key, value := f.argv[1], f.argv[3];
    var ks1 := ks[(f.db as int, key) := Item(value, None)];
    ReplayTwo(ks, f, [SET, key, value], [PEXPIREAT, key, DecInt(When(f))], clock, n, others);
    ReplayValue(ks, f.db, key, value, clock(n), others);
    ReplayDeadline(ks1, f.db, key, When(f), clock(n + 1), others);
    assert ks1[(f.db as int, key) := Item(value, Some(When(f)))] == ks[(f.db as int, key) := Item(value, Some(When(f)))];
  }

  lemma ReplayOther(ks: Keys, f: Feed, clock: nat -> int, n: nat, others: Others)
    requires FeedOk(f) && f.kind == Other
    ensures ApplyAll(ks, MeantBy([f]), clock, n, others) == Apply(ks, f.db, f.argv, clock(n), true, others)
  {
    ReplayOne(ks, f, f.argv, clock, n, others);
  }

  lemma ReplayDel(ks: Keys, f: Feed, key: Bytes, clock: nat -> int, n: nat, others: Others)
    requires FeedOk(f) && f.kind == Other && f.argv == [DEL, key]
    ensures ApplyAll(ks, MeantBy([f]), clock, n, others) == ks - {(f.db as int, key)}
  {
    ReplayOther(ks, f, clock, n, others);
    WrittenKinds([DEL, key]);
    assert f.argv[1..] == [key];
    assert Deleted(ks, f.db, [key]) == ks - {(f.db as int, key)};
  }

  // ----- one call ----------------------------------------------------------------------------------

  /** What a replay of the call's feeds at these times leaves: the live keys, but for the
      deadline that the call set. */
  predicate Recovers(ks: Keys, call: Call, clock: nat -> int, n: nat, others: Others)
    requires Feedable(FeedsOf(ks, call))
  {
    Replayed(ks, call, clock, n, others) == PutOff(Done(ks, call, others), KeyOf(call), Drift(ks, call, clock(n)))
  }

  lemma NothingPutOff(ks: Keys, key: (int, Bytes))
    ensures PutOff(ks, key, 0) == ks
  {
  }

  lemma NothingFed(ks: Keys, call: Call, clock: nat -> int, n: nat, others: Others)
    requires FeedsOf(ks, call) == [] && Done(ks, call, others) == ks
    ensures Recovers(ks, call, clock, n, others)
  {
    NothingPutOff(ks, KeyOf(call));
  }

  /** EXPIRE, PEXPIRE and EXPIREAT: the deadline is base + unit * t at the call. */
  lemma ExpiryRecovers(ks: Keys, call: Call, unit: int, base: int, clock: nat -> int, n: nat, others: Others)
    requires KindOf(call.argv) in {Expire, PExpire, ExpireAt} && Feedable(FeedsOf(ks, call))
    requires unit == if KindOf(call.argv) == PExpire then 1 else 1000
    requires base == if KindOf(call.argv) == ExpireAt then 0 else call.at
    ensures Recovers(ks, call, clock, n, others)
  {
    var c, key := call.argv, KeyOf(call);
    var t := NumberOf(c[2]);
    assert FeedsOf(ks, call) == ExpiryFed(ks, call, Scaled(t, unit, base));
    assert Done(ks, call, others) == Expires(ks, key, t, unit, base, call.at, false);
    if t.None? || key !in ks {
      NothingFed(ks, call, clock, n, others);
    } else if base + unit * t.value <= call.at {
      ReplayDel(ks, FeedsOf(ks, call)[0], c[1], clock, n, others);
    } else {
      ExpiryKept(ks, call, base + unit * t.value, clock, n, others);
    }
  }

  /** The key got the deadline when. */
  lemma ExpiryKept(ks: Keys, call: Call, when: int, clock: nat -> int, n: nat, others: Others)
    requires KindOf(call.argv) in {Expire, PExpire, ExpireAt} && KeyOf(call) in ks
    requires FeedsOf(ks, call) == [Feed(KindOf(call.argv), call.db, call.argv, call.fed)] && Feedable(FeedsOf(ks, call))
    requires Done(ks, call, others) == ks[KeyOf(call) := ks[KeyOf(call)].(deadline := Some(when))]
    requires var t := ParseInt(call.argv[2]);
             when == if KindOf(call.argv) == Expire then call.at + 1000 * t
                     else if KindOf(call.argv) == PExpire then call.at + t else 1000 * t
    ensures Recovers(ks, call, clock, n, others)
  {
    var f := FeedsOf(ks, call)[0];
    WhenIs(f);
    ReplayExpiry(ks, f, clock, n, others);
    DeadlinePutOff(ks, KeyOf(call), when, Drift(ks, call, clock(n)));
  }

  lemma DeadlinePutOff(ks: Keys, key: (int, Bytes), when: int, delta: int)
    requires key in ks
    ensures PutOff(ks[key := ks[key].(deadline := Some(when))], key, delta)
         == ks[key := ks[key].(deadline := Some(when + delta))]
  {
  }

  lemma SettingRecovers(ks: Keys, call: Call, unit: int, clock: nat -> int, n: nat, others: Others)
    requires KindOf(call.argv) in {SetEx, PSetEx} && Feedable(FeedsOf(ks, call))
    requires unit == if KindOf(call.argv) == PSetEx then 1 else 1000
    ensures Recovers(ks, call, clock, n, others)
  {
    var c, key := call.argv, KeyOf(call);
    var t := NumberOf(c[2]);
    assert Done(ks, call, others) == SetsFor(ks, key, c[3], t, unit, call.at);
    if t.None? || t.value <= 0 {
      NothingFed(ks, call, clock, n, others);
    } else {
      SettingKept(ks, call, call.at + unit * t.value, clock, n, others);
    }
  }

  lemma SettingKept(ks: Keys, call: Call, when: int, clock: nat -> int, n: nat, others: Others)
    requires KindOf(call.argv) in {SetEx, PSetEx}
    requires FeedsOf(ks, call) == [Feed(KindOf(call.argv), call.db, call.argv, call.fed)] && Feedable(FeedsOf(ks, call))
    requires Done(ks, call, others) == ks[KeyOf(call) := Item(call.argv[3], Some(when))]
    requires when == call.at + (if KindOf(call.argv) == SetEx then 1000 else 1) * ParseInt(call.argv[2])
    ensures Recovers(ks, call, clock, n, others)
  {
    var f := FeedsOf(ks, call)[0];
    WhenIs(f);
    ReplaySetting(ks, f, clock, n, others);
    SettingPutOff(ks, KeyOf(call), call.argv[3], when, Drift(ks, call, clock(n)));
  }

  lemma SettingPutOff(ks: Keys, key: (int, Bytes), value: Bytes, when: int, delta: int)
    ensures PutOff(ks[key := Item(value, Some(when))], key, delta) == ks[key := Item(value, Some(when + delta))]
  {
  }

  lemma DeadlineRecovers(ks: Keys, call: Call, clock: nat -> int, n: nat, others: Others)
    requires KindOf(call.argv) == Other && IsExpireAtMs(call.argv) && Feedable(FeedsOf(ks, call))
    ensures Recovers(ks, call, clock, n, others)
  {
    var c, key := call.argv, KeyOf(call);
    var t := NumberOf(c[2]);
    NothingPutOff(Done(ks, call, others), key);
    if t.None? || key !in ks {
      NothingFed(ks, call, clock, n, others);
    } else if t.value <= call.at {
      ReplayDel(ks, FeedsOf(ks, call)[0], c[1], clock, n, others);
    } else {
      ReplayOther(ks, FeedsOf(ks, call)[0], clock, n, others);
    }
  }

  lemma SetRecovers(ks: Keys, call: Call, clock: nat -> int, n: nat, others: Others)
    requires var c := call.argv; KindOf(c) == Other && !IsExpireAtMs(c) && !IsDel(c) && IsSet(c)
    requires Feedable(FeedsOf(ks, call))
    ensures Recovers(ks, call, clock, n, others)
  {
    var c, key := call.argv, KeyOf(call);
    if SetRefused(ks, key, OptionsOf(c)) {
      NothingFed(ks, call, clock, n, others);
    } else {
      ReplayOther(ks, FeedsOf(ks, call)[0], clock, n, others);
      NothingPutOff(Done(ks, call, others), key);
    }
  }

  lemma NamesDiffer(c: Command)
    ensures !(IsExpireAtMs(c) && IsSet(c)) && !(IsDel(c) && IsSet(c)) && !(IsDel(c) && IsExpireAtMs(c))
  {
    assert SET[0] == 83 && DEL[0] == 68;
  }

  /** Replaying what a call fed sets every key, value and deadline as the call did, except that a
      relative time counts from when the log was fed, and one that SET takes from the replay. */
  lemma CallRecovers(ks: Keys, call: Call, clock: nat -> int, n: nat, others: Others)
    requires Feedable(FeedsOf(ks, call))
    ensures Recovers(ks, call, clock, n, others)
  {
    var c := call.argv;
    NamesDiffer(c);
    match KindOf(c)
    case Expire => ExpiryRecovers(ks, call, 1000, call.at, clock, n, others);
    case PExpire => ExpiryRecovers(ks, call, 1, call.at, clock, n, others);
    case ExpireAt => ExpiryRecovers(ks, call, 1000, 0, clock, n, others);
    case SetEx => SettingRecovers(ks, call, 1000, clock, n, others);
    case PSetEx => SettingRecovers(ks, call, 1, clock, n, others);
    case Other =>
      if IsExpireAtMs(c) {
        DeadlineRecovers(ks, call, clock, n, others);
      } else if IsSet(c) {
        SetRecovers(ks, call, clock, n, others);
      } else {
        ReplayOther(ks, FeedsOf(ks, call)[0], clock, n, others);
        NothingPutOff(Done(ks, call, others), KeyOf(call));
      }
  }

  /** The replay restores exactly what the call did, if and only if the deadline was not put off,
      or there is none. */
  lemma CallRecoversExactly(ks: Keys, call: Call, clock: nat -> int, n: nat, others: Others)
    requires Feedable(FeedsOf(ks, call))
    ensures var live := Done(ks, call, others);
            Replayed(ks, call, clock, n, others) == live
            <==> Drift(ks, call, clock(n)) == 0 || KeyOf(call) !in live || live[KeyOf(call)].deadline.None?
  {
    CallRecovers(ks, call, clock, n, others);
  }

  /** SET with EX or PX is logged as it is: replayed later than it was executed, it keeps the key
      longer, by just as much. */
  lemma TimedSetDrifts(ks: Keys, call: Call, clock: nat -> int, n: nat, others: Others)
    requires Feedable(FeedsOf(ks, call)) && KindOf(call.argv) == Other && IsTimedSet(call.argv)
    requires !SetRefused(ks, KeyOf(call), OptionsOf(call.argv))
    ensures var live, again, key := Done(ks, call, others), Replayed(ks, call, clock, n, others), KeyOf(call);
            && key in live && live[key].deadline.Some? && key in again && again[key].deadline.Some?
            && again[key].deadline.value - live[key].deadline.value == clock(n) - call.at
            && (again == live <==> clock(n) == call.at)
  {
    NamesDiffer(call.argv);
    CallRecovers(ks, call, clock, n, others);
  }

  // ----- many calls ----------------------------------------------------------------------------------

  function Live(ks: Keys, calls: seq<Call>, others: Others): Keys
    decreases |calls|
  {
    if calls == [] then ks else Live(Done(ks, calls[0], others), calls[1..], others)
  }

  function AllFeeds(ks: Keys, calls: seq<Call>, others: Others): seq<Feed>
    decreases |calls|
  {
    if calls == [] then [] else FeedsOf(ks, calls[0]) + AllFeeds(Done(ks, calls[0], others), calls[1..], others)
  }

  /** No SET with a relative time, and no tick of the clock between a call with one and its feed. */
  predicate Steady(calls: seq<Call>) {
    forall i :: 0 <= i < |calls| ==>
      && !IsTimedSet(calls[i].argv)
      && (KindOf(calls[i].argv) in {Expire, PExpire, SetEx, PSetEx} ==> calls[i].fed == calls[i].at)
  }

  lemma SteadyRecovers(ks: Keys, call: Call, clock: nat -> int, n: nat, others: Others)
    requires Feedable(FeedsOf(ks, call)) && Steady([call])
    ensures Replayed(ks, call, clock, n, others) == Done(ks, call, others)
  {
    assert [call][0] == call;
    CallRecovers(ks, call, clock, n, others);
    NothingPutOff(Done(ks, call, others), KeyOf(call));
  }

  lemma {:induction false} MeantByConcat(a: seq<Feed>, b: seq<Feed>)
    requires Feedable(a) && Feedable(b)
    ensures MeantBy(a + b) == MeantBy(a) + MeantBy(b)
    decreases |a|
  {
    if a == [] {
      assert a + b == b;
    } else {
      TailOfConcat(a, b);
      MeantByConcat(a[1..], b);
      Assoc(InDb(a[0].db, Translate(a[0])), MeantBy(a[1..]), MeantBy(b));
    }
  }

  /** What the feeds of the first call mean, and those of the rest. */
  lemma MeantByCalls(ks: Keys, calls: seq<Call>, others: Others)
    requires calls != [] && Feedable(AllFeeds(ks, calls, others))
    ensures Feedable(FeedsOf(ks, calls[0])) && Feedable(AllFeeds(Done(ks, calls[0], others), calls[1..], others))
    ensures MeantBy(AllFeeds(ks, calls, others))
         == MeantBy(FeedsOf(ks, calls[0])) + MeantBy(AllFeeds(Done(ks, calls[0], others), calls[1..], others))
  {
    var a, b := FeedsOf(ks, calls[0]), AllFeeds(Done(ks, calls[0], others), calls[1..], others);
    assert forall i :: 0 <= i < |a| ==> (a + b)[i] == a[i];
    assert forall i :: 0 <= i < |b| ==> (a + b)[|a| + i] == b[i];
    MeantByConcat(a, b);
  }

  /** Replaying all that was fed restores the keys. */
  lemma {:induction false} CallsRecover(ks: Keys, calls: seq<Call>, clock: nat -> int, n: nat, others: Others)
    requires Feedable(AllFeeds(ks, calls, others)) && Steady(calls)
    ensures ApplyAll(ks, MeantBy(AllFeeds(ks, calls, others)), clock, n, others) == Live(ks, calls, others)
    decreases |calls|
  {
    if calls != [] {
      MeantByCalls(ks, calls, others);
      var ks1, xs := Done(ks, calls[0], others), MeantBy(FeedsOf(ks, calls[0]));
      SteadyRecovers(ks, calls[0], clock, n, others);
      ApplyAllConcat(ks, xs, MeantBy(AllFeeds(ks1, calls[1..], others)), clock, n, others);
      CallsRecover(ks1, calls[1..], clock, n + |xs|, others);
    }
  }

  /** The value without its deadline: what a log that ends between the two commands of SETEX
      leaves of it. */
  function Halfway(ks: Keys, call: Call): Keys
    requires |call.argv| >= 4
  {
    ks[KeyOf(call) := Item(call.argv[3], None)]
  }

  /** The i-th call can be cut in the middle. */
  predicate Cuttable(calls: seq<Call>, i: nat) {
    i < |calls| && KindOf(calls[i].argv) in {SetEx, PSetEx}
  }

  /** The keys after the first i calls, or that and half of the next one, a SETEX. */
  function Beginning(ks: Keys, calls: seq<Call>, i: nat, half: bool, others: Others): Keys
    requires i <= |calls| && (half ==> Cuttable(calls, i))
    decreases i
  {
    if i > 0 then Beginning(Done(ks, calls[0], others), calls[1..], i - 1, half, others)
    else if half then Halfway(ks, calls[0])
    else ks
  }

  lemma {:induction false} BeginningIsLive(ks: Keys, calls: seq<Call>, i: nat, half: bool, others: Others)
    requires i <= |calls| && (half ==> Cuttable(calls, i))
    ensures Beginning(ks, calls, i, half, others)
         == if half then Halfway(Live(ks, calls[..i], others), calls[i]) else Live(ks, calls[..i], others)
    decreases i
  {
    if i > 0 {
      BeginningIsLive(Done(ks, calls[0], others), calls[1..], i - 1, half, others);
      assert calls[..i][1..] == calls[1..][..i - 1];
    }
  }

  /** A feed is one command, or the two of SETEX. */
  lemma FeedSizes(ks: Keys, call: Call)
    requires Feedable(FeedsOf(ks, call))
    ensures |MeantBy(FeedsOf(ks, call))| <= 2
    ensures |MeantBy(FeedsOf(ks, call))| == 2 ==>
              (KindOf(call.argv) in {SetEx, PSetEx}
               && MeantBy(FeedsOf(ks, call))[0] == (call.db as int, [SET, call.argv[1], call.argv[3]]))
  {
    if FeedsOf(ks, call) != [] { MeantByOne(FeedsOf(ks, call)[0]); }
  }

  lemma HalfReplayed(ks: Keys, call: Call, clock: nat -> int, n: nat, others: Others)
    requires Feedable(FeedsOf(ks, call)) && |MeantBy(FeedsOf(ks, call))| == 2
    ensures KindOf(call.argv) in {SetEx, PSetEx}
    ensures ApplyAll(ks, MeantBy(FeedsOf(ks, call))[..1], clock, n, others) == Halfway(ks, call)
  {
    FeedSizes(ks, call);
    var c: Command := [SET, call.argv[1], call.argv[3]];
    assert MeantBy(FeedsOf(ks, call))[..1] == [(call.db as int, c)];
    ApplyOne(ks, call.db, c, clock, n, others);
    ReplayValue(ks, call.db, call.argv[1], call.argv[3], clock(n), others);
  }

  /** r are the keys after a beginning of the calls. */
  predicate IsBeginning(ks: Keys, calls: seq<Call>, i: nat, half: bool, others: Others, r: Keys) {
    i <= |calls| && (half ==> Cuttable(calls, i)) && r == Beginning(ks, calls, i, half, others)
  }

  /** Replaying a beginning of what was fed restores the keys after a beginning of the calls. */
  lemma {:induction false} BeginningRecovers(ks: Keys, calls: seq<Call>, zs: seq<(int, Command)>, m: nat,
                                             clock: nat -> int, n: nat, others: Others) returns (i: nat, half: bool)
    requires Feedable(AllFeeds(ks, calls, others)) && Steady(calls)
    requires zs == MeantBy(AllFeeds(ks, calls, others)) && m <= |zs|
    ensures IsBeginning(ks, calls, i, half, others, ApplyAll(ks, zs[..m], clock, n, others))
    decreases |calls|, 1
  {
    if m == 0 {
      i, half := NoneReached(ks, calls, zs, clock, n, others);
    } else {
      var xs, ys := SplitMeaning(ks, calls, zs, others);
      FirstReplayed(ks, calls[0], xs, clock, n, others);
      if m < |xs| {
        i, half := HalfReached(ks, calls, Done(ks, calls[0], others), m, xs, ys, zs, clock, n, others);
      } else {
        i, half := RestReached(ks, calls, Done(ks, calls[0], others), m, xs, ys, zs, clock, n, others);
      }
    }
  }

  lemma NoneReached(ks: Keys, calls: seq<Call>, zs: seq<(int, Command)>, clock: nat -> int, n: nat, others: Others)
      returns (i: nat, half: bool)
    ensures IsBeginning(ks, calls, i, half, others, ApplyAll(ks, zs[..0], clock, n, others))
  {
    i, half := 0, false;
  }

  lemma HalfReached(ks: Keys, calls: seq<Call>, ks1: Keys, m: nat, xs: seq<(int, Command)>, ys: seq<(int, Command)>,
                    zs: seq<(int, Command)>, clock: nat -> int, n: nat, others: Others) returns (i: nat, half: bool)
    requires calls != [] && zs == xs + ys && 0 < m < |xs| && Plays(ks, calls[0], ks1, xs, clock, n, others)
    ensures IsBeginning(ks, calls, i, half, others, ApplyAll(ks, zs[..m], clock, n, others))
  {
    TakeWithin(xs, ys, m);
    i, half := 0, true;
  }

  lemma {:induction false} RestReached(ks: Keys, calls: seq<Call>, ks1: Keys, m: nat, xs: seq<(int, Command)>,
                                       ys: seq<(int, Command)>, zs: seq<(int, Command)>,
                                       clock: nat -> int, n: nat, others: Others) returns (i: nat, half: bool)
    requires calls != [] && Steady(calls[1..]) && ks1 == Done(ks, calls[0], others)
    requires zs == xs + ys && |xs| <= m <= |zs| && ApplyAll(ks, xs, clock, n, others) == ks1
    requires Feedable(AllFeeds(ks1, calls[1..], others)) && ys == MeantBy(AllFeeds(ks1, calls[1..], others))
    ensures IsBeginning(ks, calls, i, half, others, ApplyAll(ks, zs[..m], clock, n, others))
    decreases |calls|, 0
  {
    i, half := BeginningRecovers(ks1, calls[1..], ys, m - |xs|, clock, n + |xs|, others);
    OneCallMore(ks, ks1, m, xs, ys, clock, n, others);
    i := ReachedMore(ks, calls, ks1, i, half, others, ApplyAll(ks1, ys[..m - |xs|], clock, n + |xs|, others),
                     ApplyAll(ks, zs[..m], clock, n, others));
  }

  lemma ReachedMore(ks: Keys, calls: seq<Call>, ks1: Keys, i: nat, half: bool, others: Others, r: Keys, r': Keys)
      returns (i': nat)
    requires calls != [] && ks1 == Done(ks, calls[0], others) && IsBeginning(ks1, calls[1..], i, half, others, r) && r' == r
    ensures IsBeginning(ks, calls, i', half, others, r')
  {
    i' := i + 1;
  }

  /** What one call fed, replayed: the whole is the call, and half of it is half a SETEX. */
  ghost predicate Plays(ks: Keys, call: Call, ks1: Keys, xs: seq<(int, Command)>, clock: nat -> int, n: nat, others: Others) {
    && |xs| <= 2 && ApplyAll(ks, xs, clock, n, others) == ks1
    && (|xs| == 2 ==> KindOf(call.argv) in {SetEx, PSetEx} && ApplyAll(ks, xs[..1], clock, n, others) == Halfway(ks, call))
  }

  lemma FirstReplayed(ks: Keys, call: Call, xs: seq<(int, Command)>, clock: nat -> int, n: nat, others: Others)
    requires Feedable(FeedsOf(ks, call)) && xs == MeantBy(FeedsOf(ks, call)) && Steady([call])
    ensures Plays(ks, call, Done(ks, call, others), xs, clock, n, others)
  {
    FeedSizes(ks, call);
    SteadyRecovers(ks, call, clock, n, others);
    if |xs| == 2 { HalfReplayed(ks, call, clock, n, others); }
  }

  lemma SplitMeaning(ks: Keys, calls: seq<Call>, zs: seq<(int, Command)>, others: Others)
      returns (xs: seq<(int, Command)>, ys: seq<(int, Command)>)
    requires calls != [] && Feedable(AllFeeds(ks, calls, others)) && Steady(calls)
    requires zs == MeantBy(AllFeeds(ks, calls, others))
    ensures Feedable(FeedsOf(ks, calls[0])) && xs == MeantBy(FeedsOf(ks, calls[0])) && zs == xs + ys
    ensures var feeds := AllFeeds(Done(ks, calls[0], others), calls[1..], others); Feedable(feeds) && ys == MeantBy(feeds)
    ensures Steady(calls[1..]) && Steady([calls[0]])
  {
    MeantByCalls(ks, calls, others);
    xs, ys := MeantBy(FeedsOf(ks, calls[0])), MeantBy(AllFeeds(Done(ks, calls[0], others), calls[1..], others));
  }

  lemma OneCallMore(ks: Keys, ks1: Keys, m: nat, xs: seq<(int, Command)>, ys: seq<(int, Command)>,
                    clock: nat -> int, n: nat, others: Others)
    requires ApplyAll(ks, xs, clock, n, others) == ks1 && |xs| <= m <= |xs + ys|
    ensures ApplyAll(ks, (xs + ys)[..m], clock, n, others) == ApplyAll(ks1, ys[..m - |xs|], clock, n + |xs|, others)
  {
    TakePast(xs, ys, m);
    ApplyAllConcat(ks, xs, ys[..m - |xs|], clock, n, others);
  }
}
