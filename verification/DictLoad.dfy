/** When and to what size the tables of the dictionary change, how much work a rehash call does,
    and how full the tables can become in any run. */
module DictLoad {
  import opened Prelude
  import opened DictModel
  import opened ReverseBits

  function Entries<K, V>(d: Dict<K, V>): nat {
    d.t0.used + d.t1.used
  }

  /** The table that takes new entries. */
  function Newest<K, V>(d: Dict<K, V>): Table<K, V> {
    if IsRehashing(d) then d.t1 else d.t0
  }

  /** p is the least power of two that is at least 4 and at least n. */
  ghost predicate LeastPower(p: nat, n: nat) {
    IsPow2(p) && p >= 4 && p >= n && forall q: nat :: IsPow2(q) && q >= 4 && q >= n ==> p <= q
  }

  lemma NextPowerLeast(n: nat)
    ensures LeastPower(NextPower(n), n)
  {
    NextPowerIsPower(n);
    NextPowerIsLeast(n);
  }

  // ----- the triggers ------------------------------------------------------------------------

  /** A migration to a table of p buckets begins, the first table staying as it was. */
  predicate Begins<K, V>(d: Dict<K, V>, d': Dict<K, V>, p: nat) {
    && IsRehashing(d') && d'.rehashidx == 0 && d'.t0.used == d.t0.used && |d'.t0.buckets| == |d.t0.buckets|
    && |d'.t1.buckets| == p
  }

  /** The numbers of buckets stay and no migration begins or ends. */
  predicate SameSizes<K, V>(d: Dict<K, V>, d': Dict<K, V>) {
    && |d'.t0.buckets| == |d.t0.buckets| && |d'.t1.buckets| == |d.t1.buckets| && d'.rehashidx == d.rehashidx
  }

  /** A dictionary in this state grows when it is asked to take an entry: it is not migrating,
      and its one table holds as many entries as buckets or, where resizing is to be avoided,
      so many that the quotient exceeds 5. */
  predicate GrowthIsDue<K, V>(d: Dict<K, V>, canResize: bool) {
    && !IsRehashing(d) && d.t0.buckets != []
    && |d.t0.buckets| <= d.t0.used && (canResize || 6 * |d.t0.buckets| <= d.t0.used)
  }

  lemma QuotientExceeds(u: nat, n: nat)
    requires n > 0
    ensures u / n > FORCE_RESIZE_RATIO <==> u >= 6 * n
  {
    assert u == n * (u / n) + u % n;
    if u / n >= 6 { assert n * (u / n - 6) >= 0; } else { assert n * (5 - u / n) >= 0; }
  }

  /** The automatic growth: a table of 4 buckets where there is none, a migration to the least
      power of two not below twice the entries exactly when that is due, and nothing else. */
  lemma GrowsExactly<K(!new), V>(d: Dict<K, V>, h: K -> nat, canResize: bool)
    requires Inv(d, h)
    ensures var d' := ExpandIfNeeded(d, canResize).0;
            && Entries(d') == Entries(d) && d'.iterators == d.iterators
            && (GrowthIsDue(d, canResize) ==>
                  Begins(d, d', |d'.t1.buckets|) && LeastPower(|d'.t1.buckets|, 2 * d.t0.used))
            && (d.t0.buckets == [] ==> !IsRehashing(d') && |d'.t0.buckets| == 4)
            && (d.t0.buckets != [] && !GrowthIsDue(d, canResize) ==> d' == d)
  {
    if d.t0.buckets == [] {
      TotalZero(d.t0.buckets);
      assert NextPower(INITIAL_SIZE) == 4;
    } else {
      QuotientExceeds(d.t0.used, |d.t0.buckets|);
      if GrowthIsDue(d, canResize) { ExpandBegins(d, 2 * d.t0.used); }
    }
  }

  /** A request for more than there are buckets begins a migration. */
  lemma ExpandBegins<K, V>(d: Dict<K, V>, size: nat)
    requires !IsRehashing(d) && d.t0.buckets != [] && d.t0.used <= size && |d.t0.buckets| < size
    ensures var d' := Expand(d, size).0;
            && Begins(d, d', |d'.t1.buckets|) && LeastPower(|d'.t1.buckets|, size)
            && Entries(d') == d.t0.used && d'.iterators == d.iterators
  {
    NextPowerLeast(size);
  }

  /** What dictAdd leaves of the sizes: its rehash step may end a migration; then it begins one
      exactly when growth is due, and otherwise changes no size. */
  lemma AddGrowsExactly<K(!new), V>(d: Dict<K, V>, h: K -> nat, canResize: bool, k: K, v: V)
    requires Inv(d, h)
    ensures Inv(Stepped(d, h), h)
    ensures var d1, (d', ok) := Stepped(d, h), Add(d, h, canResize, k, v);
            && (GrowthIsDue(d1, canResize) ==>
                  Begins(d1, d', |d'.t1.buckets|) && LeastPower(|d'.t1.buckets|, 2 * d1.t0.used))
            && (d1.t0.buckets == [] ==> !IsRehashing(d') && |d'.t0.buckets| == 4)
            && (d1.t0.buckets != [] && !GrowthIsDue(d1, canResize) ==> SameSizes(d1, d'))
  {
    SteppedKeeps(d, h);
    GrowsExactly(Stepped(d, h), h, canResize);
    ExpandIfNeededSucceeds(Stepped(d, h), h, canResize);
  }

  /** dictResize: refused exactly when resizing is off, a migration is under way or the table
      has the right size already; otherwise the new table has the least power of two that is
      not below the entries. */
  lemma ResizesExactly<K(!new), V>(d: Dict<K, V>, h: K -> nat, canResize: bool, p: nat)
    requires Inv(d, h) && LeastPower(p, d.t0.used)
    ensures var (d', ok) := Resize(d, canResize);
            && (ok <==> canResize && !IsRehashing(d) && |d.t0.buckets| != p)
            && (!ok ==> d' == d)
            && (ok && d.t0.buckets != [] ==> Begins(d, d', p))
            && (ok && d.t0.buckets == [] ==> !IsRehashing(d') && |d'.t0.buckets| == p)
            && Entries(d') == Entries(d)
  {
    var size := if d.t0.used < INITIAL_SIZE then INITIAL_SIZE else d.t0.used;
    NextPowerLeast(size);
    assert NextPower(size) == p;
    TotalZero(d.t0.buckets);
  }

  // ----- the work of one rehash call ------------------------------------------------------------

  /** Number of buckets from i to j that hold entries. */
  function Filled<K, V>(b: seq<Chain<K, V>>, i: nat, j: nat): nat
    requires j <= |b|
    decreases j - i
  {
    if i >= j then 0 else (if b[i] == [] then 0 else 1) + Filled(b, i + 1, j)
  }

  lemma {:induction false} FilledSplit<K, V>(b: seq<Chain<K, V>>, i: nat, m: nat, j: nat)
    requires i <= m <= j <= |b|
    ensures Filled(b, i, j) == Filled(b, i, m) + Filled(b, m, j)
    decreases m - i
  {
    if i < m { FilledSplit(b, i + 1, m, j); }
  }

  lemma {:induction false} FilledNone<K, V>(b: seq<Chain<K, V>>, i: nat, j: nat)
    requires i <= j <= |b| && forall x :: i <= x < j ==> b[x] == []
    ensures Filled(b, i, j) == 0
    decreases j - i
  {
    if i < j { FilledNone(b, i + 1, j); }
  }

  lemma {:induction false} FilledSame<K, V>(b: seq<Chain<K, V>>, b': seq<Chain<K, V>>, i: nat, j: nat)
    requires j <= |b| == |b'| && forall x :: i <= x < j ==> b[x] == b'[x]
    ensures Filled(b, i, j) == Filled(b', i, j)
    decreases j - i
  {
    if i < j { FilledSame(b, b', i + 1, j); }
  }

  /** After a call with n moves and `visits` empty visits: either all filled buckets are moved,
      and they were at most n, or it stopped at a later bucket because it had moved n filled
      buckets, or because its visits to empty ones had run out. */
  ghost predicate Worked<K, V>(d: Dict<K, V>, d': Dict<K, V>, n: nat, visits: nat)
    requires 0 <= d.rehashidx <= |d.t0.buckets|
  {
    var b, i := d.t0.buckets, d.rehashidx;
    if !IsRehashing(d') then Filled(b, i, |b|) <= n
    else
      && i <= d'.rehashidx <= |b|
      && var moved := Filled(b, i, d'.rehashidx);
         var empty := d'.rehashidx - i - moved;
         && moved <= n && 0 <= empty <= visits && (moved == n || empty == visits)
  }

  lemma {:induction false} SkipCounts<K, V>(b: seq<Chain<K, V>>, i: nat, visits: nat)
    requires i <= |b| && visits > 0
    ensures SkipEmpty(b, i, visits).0 - i == visits - SkipEmpty(b, i, visits).1
    decreases |b| - i
  {
    if i < |b| && b[i] == [] && visits > 1 { SkipCounts(b, i + 1, visits - 1); }
  }

  lemma AllMoved<K(!new), V>(d: Dict<K, V>, h: K -> nat)
    requires Inv(d, h) && d.rehashidx >= 0 && d.t0.used == 0
    ensures Filled(d.t0.buckets, d.rehashidx, |d.t0.buckets|) == 0
  {
    TotalZero(d.t0.buckets);
    FilledNone(d.t0.buckets, d.rehashidx, |d.t0.buckets|);
  }

  /** One turn of the loop and the rest of it. */
  lemma TurnWorked<K, V>(d: Dict<K, V>, d2: Dict<K, V>, d': Dict<K, V>, i: nat, n: nat, visits: nat, left: nat)
    requires 0 <= d.rehashidx <= i < |d.t0.buckets| && d.t0.buckets[i] != [] && n > 0
    requires (forall x :: d.rehashidx <= x < i ==> d.t0.buckets[x] == []) && i - d.rehashidx == visits - left
    requires d2.t0.buckets == d.t0.buckets[i := []] && d2.rehashidx == i + 1
    requires Worked(d2, d', n - 1, left)
    ensures Worked(d, d', n, visits)
  {
    var b, j := d.t0.buckets, if IsRehashing(d') then d'.rehashidx else |d.t0.buckets|;
    FilledSplit(b, d.rehashidx, i, j);
    FilledNone(b, d.rehashidx, i);
    FilledSame(b, d2.t0.buckets, i + 1, j);
    assert Filled(b, i, j) == 1 + Filled(b, i + 1, j);
  }

  lemma {:induction false} LoopWorked<K(!new), V>(d: Dict<K, V>, h: K -> nat, n: nat, visits: nat)
    requires Inv(d, h) && d.rehashidx >= 0 && visits > 0
    ensures Worked(d, RehashLoop(d, h, n, visits), n, visits)
    decreases n
  {
    if d.t0.used == 0 {
      AllMoved(d, h);
    } else if n > 0 {
      var (i, left) := SkipEmpty(d.t0.buckets, d.rehashidx, visits);
      SkipCounts(d.t0.buckets, d.rehashidx, visits);
      SkipKeeps(d, h, visits, i, left);
      if left == 0 {
        FilledNone(d.t0.buckets, d.rehashidx, i);
      } else {
        TurnMigrates(d, h, visits, i, left);
        var d2 := MoveBucket(d.(rehashidx := i), h);
        LoopWorked(d2, h, n - 1, left);
        TurnWorked(d, d2, RehashLoop(d2, h, n - 1, left), i, n, visits, left);
      }
    }
  }

  /** dictRehash(n) is incremental: it moves n filled buckets, unless fewer are left or it has
      passed 10 n empty ones first, and goes no further. */
  lemma RehashIsIncremental<K(!new), V>(d: Dict<K, V>, h: K -> nat, n: nat)
    requires Inv(d, h) && IsRehashing(d) && n > 0
    ensures Worked(d, Rehash(d, h, n), n, 10 * n)
  {
    LoopWorked(d, h, n, 10 * n);
  }

  // ----- how full the tables become ----------------------------------------------------------------

  /** f is 1 for calls that allow resizing, and 6 for others. */
  predicate Factor(f: nat, canResize: bool) {
    f == 6 || (f == 1 && canResize)
  }

  /** Buckets that the migration has not come to. */
  function Left<K, V>(d: Dict<K, V>): int {
    |d.t0.buckets| - d.rehashidx
  }

  /** No more than f entries per bucket of the newest table, and while a migration to a larger
      table goes on, room in it for an entry per bucket that is left. */
  predicate Loaded<K, V>(d: Dict<K, V>, f: nat) {
    if IsRehashing(d)
    then 0 < Left(d) && |d.t0.buckets| < |d.t1.buckets| && Entries(d) + Left(d) <= f * |d.t1.buckets| + 1
    else Entries(d) <= f * |d.t0.buckets|
  }

  /** The same with room for one more while migrating, as a rehash step makes it. */
  predicate Roomy<K, V>(d: Dict<K, V>, f: nat) {
    Loaded(d, f) && (IsRehashing(d) ==> Entries(d) + Left(d) <= f * |d.t1.buckets|)
  }

  lemma MigratedLoaded<K(!new), V>(d: Dict<K, V>, d': Dict<K, V>, h: K -> nat, f: nat)
    requires Inv(d, h) && Loaded(d, f) && IsRehashing(d) && Migrated(d, d', h)
    requires IsRehashing(d') ==> d'.rehashidx < |d'.t0.buckets|
    ensures Loaded(d', f)
    ensures !IsRehashing(d') || d.rehashidx < d'.rehashidx ==> Roomy(d', f)
  {
  }

  lemma SteppedLoaded<K(!new), V>(d: Dict<K, V>, h: K -> nat, f: nat)
    requires Inv(d, h) && Loaded(d, f) && d.iterators == 0
    ensures Inv(Stepped(d, h), h) && Roomy(Stepped(d, h), f) && Stepped(d, h).iterators == 0
  {
    SteppedKeeps(d, h);
    RehashKeeps(d, h, 1);
    if IsRehashing(d) { MigratedLoaded(d, Stepped(d, h), h, f); }
  }

  lemma RehashLoaded<K(!new), V>(d: Dict<K, V>, h: K -> nat, n: nat, f: nat)
    requires Inv(d, h) && Loaded(d, f)
    ensures Loaded(Rehash(d, h, n), f)
  {
    RehashKeeps(d, h, n);
    if IsRehashing(d) { MigratedLoaded(d, Rehash(d, h, n), h, f); }
  }

  lemma GrowthLoaded<K, V>(d: Dict<K, V>, d': Dict<K, V>, f: nat)
    requires d.t0.used > 0 && 1 <= f <= 6 && !IsRehashing(d) && d.t0.buckets != [] && Entries(d) == d.t0.used
    requires Begins(d, d', |d'.t1.buckets|) && |d'.t1.buckets| >= 2 * d.t0.used && d.t0.used >= |d.t0.buckets|
    requires Entries(d') == Entries(d)
    ensures Loaded(d', f) && Entries(d') + 1 + Left(d') <= f * |d'.t1.buckets| + 1
  {
    assert f * |d'.t1.buckets| >= |d'.t1.buckets|;
  }

  /** After the automatic growth there is room for the entry to be added. */
  lemma GrownLoaded<K(!new), V>(d: Dict<K, V>, h: K -> nat, canResize: bool, f: nat)
    requires Inv(d, h) && Roomy(d, f) && Factor(f, canResize)
    ensures var d' := ExpandIfNeeded(d, canResize).0;
            && Loaded(d', f)
            && (if IsRehashing(d') then Entries(d') + 1 + Left(d') <= f * |d'.t1.buckets| + 1
                else Entries(d') + 1 <= f * |d'.t0.buckets|)
  {
    GrowsExactly(d, h, canResize);
    if GrowthIsDue(d, canResize) {
      GrowthLoaded(d, ExpandIfNeeded(d, canResize).0, f);
    }
  }

  lemma AddLoaded<K(!new), V>(d: Dict<K, V>, h: K -> nat, canResize: bool, k: K, v: V, f: nat)
    requires Inv(d, h) && Loaded(d, f) && d.iterators == 0 && Factor(f, canResize)
    ensures Loaded(Add(d, h, canResize, k, v).0, f)
  {
    SteppedLoaded(d, h, f);
    ExpandIfNeededSucceeds(Stepped(d, h), h, canResize);
    GrownLoaded(Stepped(d, h), h, canResize, f);
  }

  lemma FindLoaded<K(!new), V>(d: Dict<K, V>, h: K -> nat, k: K, f: nat)
    requires Inv(d, h) && Loaded(d, f) && d.iterators == 0
    ensures Loaded(Find(d, h, k).0, f)
  {
    SteppedLoaded(d, h, f);
  }

  lemma ReplaceLoaded<K(!new), V>(d: Dict<K, V>, h: K -> nat, canResize: bool, k: K, v: V, f: nat)
    requires Inv(d, h) && Loaded(d, f) && d.iterators == 0 && Factor(f, canResize)
    ensures Loaded(Replace(d, h, canResize, k, v).0, f)
  {
    AddLoaded(d, h, canResize, k, v, f);
    AddKeeps(d, h, canResize, k, v);
    var (d1, added) := Add(d, h, canResize, k, v);
    if !added { SetLoaded(d1, h, k, v, f); }
  }

  lemma SetLoaded<K(!new), V>(d: Dict<K, V>, h: K -> nat, k: K, v: V, f: nat)
    requires Inv(d, h) && Loaded(d, f) && d.iterators == 0
    ensures Inv(Find(d, h, k).0, h) && Loaded(Overwrite(Find(d, h, k).0, h, k, v), f)
  {
    FindLoaded(d, h, k, f);
    FindKeeps(d, h, k);
    OverwriteLoaded(Find(d, h, k).0, h, k, v, f);
  }

  lemma OverwriteLoaded<K(!new), V>(d: Dict<K, V>, h: K -> nat, k: K, v: V, f: nat)
    requires Inv(d, h) && Loaded(d, f)
    ensures Loaded(Overwrite(d, h, k, v), f)
  {
  }

  lemma RemoveLoaded<K(!new), V>(d: Dict<K, V>, h: K -> nat, k: K, f: nat)
    requires Inv(d, h) && Loaded(d, f)
    ensures Loaded(Remove(d, h, k).0, f)
  {
    if TableFind(d.t0, h, k).Some? { TableFindUsed(d.t0, h, k); }
    else if TableFind(d.t1, h, k).Some? { TableFindUsed(d.t1, h, k); }
  }

  lemma DeleteLoaded<K(!new), V>(d: Dict<K, V>, h: K -> nat, k: K, f: nat)
    requires Inv(d, h) && Loaded(d, f) && d.iterators == 0
    ensures Loaded(Delete(d, h, k).0, f)
  {
    SteppedLoaded(d, h, f);
    RemoveLoaded(Stepped(d, h), h, k, f);
  }

  /** The size that an explicit call asks for. */
  function Asked<K, V>(d: Dict<K, V>, op: Op<K, V>): nat
    requires op.ExpandOp? || op.ResizeOp?
  {
    if op.ExpandOp? then op.size else d.t0.used
  }

  /** The call does not begin a migration to a smaller table. */
  predicate NoShrink<K, V>(d: Dict<K, V>, c: Call<K, V>) {
    (c.op.ExpandOp? || c.op.ResizeOp?) && !IsRehashing(d) ==> |d.t0.buckets| <= NextPower(Asked(d, c.op))
  }

  lemma DoublePower(m: nat, n: nat)
    requires IsPow2(m) && IsPow2(n) && m < n
    ensures 2 * m <= n
  {
    var a: nat :| m == Pow2(a);
    var b: nat :| n == Pow2(b);
    if b <= a { Pow2Monotone(b, a); }
    Pow2Monotone(a + 1, b);
  }

  lemma RoomInDouble(u: nat, m: nat, n: nat, f: nat)
    requires u <= f * m && 2 * m <= n && f >= 1
    ensures u + m <= f * n
  {
    assert f * n >= f * (2 * m) by { MulMonotone(f, 2 * m, n); }
    assert f * (2 * m) == f * m + f * m;
    assert f * m >= m by { MulMonotone(m, 1, f); }
  }

  lemma ExpandLoaded<K(!new), V>(d: Dict<K, V>, h: K -> nat, size: nat, f: nat)
    requires Inv(d, h) && Loaded(d, f) && 1 <= f && (!IsRehashing(d) ==> |d.t0.buckets| <= NextPower(size))
    ensures Loaded(Expand(d, size).0, f)
  {
    ExpandSucceedsExactly(d, size);
    TotalZero(d.t0.buckets);
    if Expand(d, size).1 && d.t0.buckets != [] {
      DoublePower(|d.t0.buckets|, NextPower(size));
      RoomInDouble(d.t0.used, |d.t0.buckets|, NextPower(size), f);
    }
  }

  lemma ExecLoaded<K(!new), V>(d: Dict<K, V>, h: K -> nat, c: Call<K, V>, f: nat)
    requires Inv(d, h) && Loaded(d, f) && d.iterators == 0 && Factor(f, c.canResize) && NoShrink(d, c)
    ensures Loaded(Exec(d, h, c).0, f)
  {
    match c.op
    case AddOp(k, v) => AddLoaded(d, h, c.canResize, k, v, f);
    case ReplaceOp(k, v) => ReplaceLoaded(d, h, c.canResize, k, v, f);
    case FindOp(k) => FindLoaded(d, h, k, f);
    case DeleteOp(k) => DeleteLoaded(d, h, k, f);
    case ExpandOp(size) => ExpandLoaded(d, h, size, f);
    case ResizeOp => ResizeLoaded(d, h, c.canResize, f);
    case RehashOp(n) => RehashLoaded(d, h, n, f);
  }

  lemma ResizeLoaded<K(!new), V>(d: Dict<K, V>, h: K -> nat, canResize: bool, f: nat)
    requires Inv(d, h) && Loaded(d, f) && 1 <= f && (!IsRehashing(d) ==> |d.t0.buckets| <= NextPower(d.t0.used))
    ensures Loaded(Resize(d, canResize).0, f)
  {
    var size := if d.t0.used < INITIAL_SIZE then INITIAL_SIZE else d.t0.used;
    NextPowerLeast(d.t0.used);
    NextPowerLeast(size);
    ExpandLoaded(d, h, size, f);
  }

  /** No call of the run shrinks the table. */
  ghost predicate NeverShrinks<K(!new), V>(d: Dict<K, V>, h: K -> nat, cs: seq<Call<K, V>>)
    requires Inv(d, h)
    decreases |cs|
  {
    cs != [] ==> NoShrink(d, cs[0]) && (ExecInv(d, h, cs[0]); NeverShrinks(Exec(d, h, cs[0]).0, h, cs[1..]))
  }

  lemma {:induction false} RunLoaded<K(!new), V>(d: Dict<K, V>, h: K -> nat, cs: seq<Call<K, V>>, f: nat)
    requires Inv(d, h) && Loaded(d, f) && d.iterators == 0 && NeverShrinks(d, h, cs)
    requires forall i :: 0 <= i < |cs| ==> Factor(f, cs[i].canResize)
    ensures Loaded(Run(d, h, cs).0, f)
    decreases |cs|
  {
    if cs != [] {
      ExecInv(d, h, cs[0]);
      ExecLoaded(d, h, cs[0], f);
      RunLoaded(Exec(d, h, cs[0]).0, h, cs[1..], f);
    }
  }

  /** The load factor: after every sequence of calls on a new dictionary that never shrinks it,
      the table that takes new entries has at least as many buckets as there are entries, if the
      calls allow resizing, and at least a sixth of that in any case. */
  lemma LoadIsBounded<K(!new), V>(h: K -> nat, cs: seq<Call<K, V>>)
    ensures Inv(EmptyDict<K, V>(), h)
    ensures NeverShrinks(EmptyDict<K, V>(), h, cs) ==>
              var d := Run(EmptyDict<K, V>(), h, cs).0;
              && Entries(d) <= 6 * |Newest(d).buckets|
              && ((forall i :: 0 <= i < |cs| ==> cs[i].canResize) ==> Entries(d) <= |Newest(d).buckets|)
  {
    var e := EmptyDict<K, V>();
    EmptyDictRepresents<K, V>(h);
    if NeverShrinks(e, h, cs) {
      RunLoaded(e, h, cs, 6);
      if forall i :: 0 <= i < |cs| ==> cs[i].canResize { RunLoaded(e, h, cs, 1); }
    }
  }

  // ----- shrinking ---------------------------------------------------------------------------------

  /** In any run at all, an add that allows resizing and does not leave a migration where it found
      it leaves a bucket per entry; while a migration goes on, even to a smaller table, each add
      moves at least one bucket, so that entries and buckets left together do not become more. */
  lemma AddLeavesRoom<K(!new), V>(d: Dict<K, V>, h: K -> nat, k: K, v: V)
    requires Inv(d, h) && d.iterators == 0
    ensures Inv(Stepped(d, h), h)
    ensures var d' := Add(d, h, true, k, v).0;
            && (!IsRehashing(Stepped(d, h)) ==> Entries(d') <= |Newest(d').buckets|)
            && (IsRehashing(Stepped(d, h)) ==> IsRehashing(d') && Entries(d') + Left(d') <= Entries(d) + Left(d))
  {
    AddGrowsExactly(d, h, true, k, v);
    AddKeeps(d, h, true, k, v);
    SteppedKeeps(d, h);
    RehashKeeps(d, h, 1);
    TotalZero(Stepped(d, h).t0.buckets);
  }

  lemma FilledTwo<K, V>(b: seq<Chain<K, V>>, i: nat, x: nat, y: nat)
    requires i <= x < y < |b| && b[x] != [] && b[y] != []
    ensures Filled(b, i, |b|) >= 2
  {
    FilledSplit(b, i, x, |b|);
    FilledSplit(b, x + 1, y, |b|);
  }

  /** Two filled buckets are not moved by one step. */
  lemma StepIsNotEnough<K(!new), V>(d: Dict<K, V>, h: K -> nat, a: K, b: K)
    requires Inv(d, h) && IsRehashing(d) && TableFind(d.t0, h, a).Some? && TableFind(d.t0, h, b).Some?
    requires h(a) % |d.t0.buckets| < h(b) % |d.t0.buckets|
    ensures IsRehashing(Rehash(d, h, 1))
  {
    RehashIsIncremental(d, h, 1);
    KeepsEmptyBelow(d, h, a);
    FilledTwo(d.t0.buckets, d.rehashidx, h(a) % |d.t0.buckets|, h(b) % |d.t0.buckets|);
  }

  /** The bound does fail for runs that shrink: a table with four or more entries, a power of two
      of them, in more buckets than that, not all in one, is resized and gets one more entry. */
  lemma ShrinkingOverfills<K(!new), V>(d: Dict<K, V>, h: K -> nat, a: K, b: K, k: K, v: V)
    requires Inv(d, h) && !IsRehashing(d) && d.iterators == 0
    requires LeastPower(d.t0.used, d.t0.used) && d.t0.used < |d.t0.buckets|
    requires Lookup(d, h, a).Some? && Lookup(d, h, b).Some? && Lookup(d, h, k).None?
    requires h(a) % |d.t0.buckets| < h(b) % |d.t0.buckets|
    ensures Inv(Resize(d, true).0, h)
    ensures var d' := Add(Resize(d, true).0, h, true, k, v).0;
            IsRehashing(d') && Entries(d') == |d'.t1.buckets| + 1
  {
    var d1 := Resize(d, true).0;
    ResizeKeeps(d, h, true);
    ResizesExactly(d, h, true, d.t0.used);
    assert d1.t0 == d.t0;
    StepIsNotEnough(d1, h, a, b);
    AddGrowsExactly(d1, h, true, k, v);
    AddKeeps(d1, h, true, k, v);
    SteppedKeeps(d1, h);
  }

  lemma {:induction false} RunSnoc<K(!new), V>(d: Dict<K, V>, h: K -> nat, cs: seq<Call<K, V>>, c: Call<K, V>)
    requires Inv(d, h)
    ensures Run(d, h, cs + [c]).0 == Exec(Run(d, h, cs).0, h, c).0
    decreases |cs|
  {
    if cs == [] {
      assert (cs + [c])[1..] == [];
    } else {
      ExecInv(d, h, cs[0]);
      assert (cs + [c])[1..] == cs[1..] + [c];
      RunSnoc(Exec(d, h, cs[0]).0, h, cs[1..], c);
    }
  }

  /** The first n naturals in a table of eight buckets. */
  ghost predicate Holds(d: Dict<nat, nat>, h: nat -> nat, n: nat) {
    && Inv(d, h) && !IsRehashing(d) && d.iterators == 0 && |d.t0.buckets| == 8 && d.t0.used == n
    && forall k: nat :: Lookup(d, h, k).Some? <==> k < n
  }

  /** A run of calls that allow resizing takes a new dictionary to d. */
  ghost predicate Reaches(h: nat -> nat, cs: seq<Call<nat, nat>>, d: Dict<nat, nat>) {
    && (forall i :: 0 <= i < |cs| ==> cs[i].canResize)
    && Inv(EmptyDict<nat, nat>(), h) && Run(EmptyDict<nat, nat>(), h, cs).0 == d
  }

  lemma ReachesMore(h: nat -> nat, cs: seq<Call<nat, nat>>, d: Dict<nat, nat>, c: Call<nat, nat>)
    requires Reaches(h, cs, d) && c.canResize
    ensures Inv(d, h) && Reaches(h, cs + [c], Exec(d, h, c).0)
  {
    RunSnoc(EmptyDict<nat, nat>(), h, cs, c);
  }

  lemma ReachesAdd(h: nat -> nat, cs: seq<Call<nat, nat>>, d: Dict<nat, nat>, k: nat) returns (cs': seq<Call<nat, nat>>)
    requires Reaches(h, cs, d)
    ensures Inv(d, h) && Reaches(h, cs', Add(d, h, true, k, 0).0)
  {
    var c: Call<nat, nat> := Call(AddOp(k, 0), true);
    cs' := cs + [c];
    ReachesMore(h, cs, d, c);
  }

  /** dictExpand, or dictResize without a size. */
  lemma ReachesSized(h: nat -> nat, cs: seq<Call<nat, nat>>, d: Dict<nat, nat>, size: Option<nat>)
      returns (cs': seq<Call<nat, nat>>)
    requires Reaches(h, cs, d)
    ensures Inv(d, h) && Reaches(h, cs', if size.Some? then Expand(d, size.value).0 else Resize(d, true).0)
  {
    var c: Call<nat, nat> := Call(if size.Some? then ExpandOp(size.value) else ResizeOp, true);
    cs' := cs + [c];
    ReachesMore(h, cs, d, c);
  }

  lemma ReachesNew(h: nat -> nat, size: nat) returns (cs: seq<Call<nat, nat>>, d: Dict<nat, nat>)
    requires size == 8
    ensures Reaches(h, cs, d) && Holds(d, h, 0)
  {
    ReachesNothing(h);
    cs := ReachesSized(h, [], EmptyDict<nat, nat>(), Some(size));
    NewTable(EmptyDict<nat, nat>(), h, size);
    d := Expand(EmptyDict<nat, nat>(), size).0;
  }

  lemma ReachesNothing(h: nat -> nat)
    ensures Reaches(h, [], EmptyDict<nat, nat>())
  {
    EmptyDictRepresents<nat, nat>(h);
  }

  lemma {:induction false} Filling(h: nat -> nat, n: nat) returns (cs: seq<Call<nat, nat>>, d: Dict<nat, nat>)
    requires n <= 4
    ensures Reaches(h, cs, d) && Holds(d, h, n)
  {
    if n == 0 {
      cs, d := ReachesNew(h, 8);
    } else {
      cs, d := Filling(h, n - 1);
      OneMore(d, h, n - 1);
      cs := ReachesAdd(h, cs, d, n - 1);
      d := Add(d, h, true, n - 1, 0).0;
    }
  }

  lemma NewTable(e: Dict<nat, nat>, h: nat -> nat, size: nat)
    requires e == EmptyDict<nat, nat>() && Inv(e, h) && size == 8
    ensures Holds(Expand(e, size).0, h, 0)
  {
    ExpandKeeps(e, h, size);
    assert NextPower(8) == 8;
  }

  lemma OneMore(d: Dict<nat, nat>, h: nat -> nat, n: nat)
    requires Holds(d, h, n) && n < 8
    ensures Holds(Add(d, h, true, n, 0).0, h, n + 1)
  {
    AddKeeps(d, h, true, n, 0);
    AddGrowsExactly(d, h, true, n, 0);
  }

  lemma FullOverfills(d: Dict<nat, nat>, h: nat -> nat, n: nat)
    requires Holds(d, h, n) && n == 4 && forall x :: h(x) == x
    ensures Inv(Resize(d, true).0, h)
    ensures var d' := Add(Resize(d, true).0, h, true, n, 0).0; Entries(d') > |Newest(d').buckets|
  {
    NextPowerLeast(n);
    assert NextPower(4) == 4;
    ShrinkingOverfills(d, h, 0, 1, n, 0);
  }

  lemma ResizedOverfills(h: nat -> nat, cs: seq<Call<nat, nat>>, d: Dict<nat, nat>, n: nat)
      returns (cs': seq<Call<nat, nat>>, d': Dict<nat, nat>)
    requires Reaches(h, cs, d) && Holds(d, h, n) && n == 4 && forall x :: h(x) == x
    ensures Reaches(h, cs', d') && Entries(d') > |Newest(d').buckets|
  {
    FullOverfills(d, h, n);
    cs' := ReachesSized(h, cs, d, None);
    cs' := ReachesAdd(h, cs', Resize(d, true).0, n);
    d' := Add(Resize(d, true).0, h, true, n, 0).0;
  }

  /** Such a table is reached by a run that allows resizing throughout: eight buckets, four
      entries, dictResize, one more entry. */
  lemma ShrinkingRunOverfills(h: nat -> nat) returns (cs: seq<Call<nat, nat>>, d: Dict<nat, nat>)
    requires forall x :: h(x) == x
    ensures Reaches(h, cs, d) && Entries(d) > |Newest(d).buckets|
  {
    cs, d := Filling(h, 4);
    cs, d := ResizedOverfills(h, cs, d, 4);
  }
}
