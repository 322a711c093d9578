/** dictScan: what one call emits, and what a whole scan emits whatever happens to the
    dictionary between its calls. */
module DictScan {
  import opened Prelude
  import opened DictModel
  import opened ReverseBits
  import opened ScanCursor
  import DictTable

  function Log2(n: nat): nat {
    if n <= 1 then 0 else 1 + Log2(n / 2)
  }

  lemma {:induction false} Log2Pow2(e: nat)
    ensures Log2(Pow2(e)) == e
  {
    if e > 0 { Log2Pow2(e - 1); }
  }

  lemma IsPow2Log2(n: nat)
    requires IsPow2(n)
    ensures n == Pow2(Log2(n))
  {
    var e: nat :| n == Pow2(e);
    Log2Pow2(e);
  }

  lemma {:induction false} Log2Monotone(m: nat, n: nat)
    requires m <= n
    ensures Log2(m) <= Log2(n)
  {
    if m > 1 { Log2Monotone(m / 2, n / 2); }
  }

  /** The table whose mask the cursor counts with, and the other one. */
  function Small<K, V>(d: Dict<K, V>): Table<K, V> {
    if IsRehashing(d) && |d.t0.buckets| > |d.t1.buckets| then d.t1 else d.t0
  }

  function Large<K, V>(d: Dict<K, V>): Table<K, V> {
    if IsRehashing(d) && |d.t0.buckets| > |d.t1.buckets| then d.t0 else d.t1
  }

  function SmallBits<K, V>(d: Dict<K, V>): nat {
    Log2(|Small(d).buckets|)
  }

  function LargeBits<K, V>(d: Dict<K, V>): nat {
    Log2(|Large(d).buckets|)
  }

  /** Sizes are machine words of W bits. */
  predicate Fits<K, V>(d: Dict<K, V>, W: nat) {
    SmallBits(d) <= W && LargeBits(d) <= W
  }

  lemma Sizes<K(!new), V>(d: Dict<K, V>, h: K -> nat)
    requires Inv(d, h)
    ensures Small(d).buckets != [] ==> |Small(d).buckets| == Pow2(SmallBits(d))
    ensures IsRehashing(d) ==> |Large(d).buckets| == Pow2(LargeBits(d)) && SmallBits(d) <= LargeBits(d)
    ensures IsRehashing(d) ==> Small(d).buckets != [] && Large(d).buckets != []
  {
    if Small(d).buckets != [] { IsPow2Log2(|Small(d).buckets|); }
    if IsRehashing(d) {
      IsPow2Log2(|Large(d).buckets|);
      Log2Monotone(|Small(d).buckets|, |Large(d).buckets|);
    }
  }

  // ----- the loop over the larger table -------------------------------------------

  /** v = (((v | m0) + 1) & ~m0) | (v & m0). */
  function BumpHigh(v: nat, a: nat, W: nat): nat
    requires a <= W
  {
    Low(v, a) + Shl(Low(Shr(v, a) + 1, W - a), a)
  }

  lemma {:induction false} LowSucc(x: nat, w: nat)
    ensures Low(x + 1, w) == if Low(x, w) + 1 == Pow2(w) then 0 else Low(x, w) + 1
  {
    if w > 0 {
      if x % 2 == 1 {
        LowSucc(x / 2, w - 1);
        assert (x + 1) / 2 == x / 2 + 1;
      } else {
        assert (x + 1) / 2 == x / 2;
      }
    }
  }

  lemma {:induction false} BumpHighFacts(v: nat, a: nat, b: nat, W: nat)
    requires a <= b <= W
    ensures Low(BumpHigh(v, a, W), a) == Low(v, a)
    ensures High(BumpHigh(v, a, W), a, b) == if High(v, a, b) + 1 == Pow2(b - a) then 0 else High(v, a, b) + 1
  {
    Bumped(Low(v, a), Shr(v, a), BumpHigh(v, a, W), a, b - a, W - a);
  }

  lemma {:induction false} Bumped(low: nat, x: nat, u: nat, a: nat, w: nat, c: nat)
    requires low < Pow2(a) && w <= c && u == low + Shl(Low(x + 1, c), a)
    ensures Low(u, a) == low && Low(Shr(u, a), w) == if Low(x, w) + 1 == Pow2(w) then 0 else Low(x, w) + 1
  {
    Join(low, Low(x + 1, c), a);
    LowLow(x + 1, w, c);
    LowSucc(x, w);
  }

  /** Indices of the larger table in the order the loop visits them. */
  function Expansions(v: nat, a: nat, b: nat, W: nat): seq<nat>
    requires a <= b <= W
    decreases Pow2(b - a) - High(v, a, b)
  {
    BumpHighFacts(v, a, b, W);
    var v' := BumpHigh(v, a, W);
    if High(v', a, b) != 0 then [Low(v, b)] + Expansions(v', a, b, W) else [Low(v, b)]
  }

  /** The low b bits are the low a bits and the bits between. */
  lemma {:induction false} LowSplit(x: nat, v: nat, a: nat, b: nat)
    requires a <= b
    ensures Low(x, b) == Low(v, b) <==> Low(x, a) == Low(v, a) && High(x, a, b) == High(v, a, b)
    decreases a
  {
    if a > 0 { LowSplit(x / 2, v / 2, a - 1, b - 1); }
  }

  predicate InRange(idx: seq<nat>, n: nat) {
    forall j :: 0 <= j < |idx| ==> idx[j] < n
  }

  lemma {:induction false} ExpansionsVisit(v: nat, x: nat, a: nat, b: nat, W: nat)
    requires a <= b <= W
    ensures Low(x, b) in Expansions(v, a, b, W) <==> VisitsExpansion(v, x, a, b)
    ensures InRange(Expansions(v, a, b, W), Pow2(b))
    decreases Pow2(b - a) - High(v, a, b)
  {
    BumpHighFacts(v, a, b, W);
    LowSplit(x, v, a, b);
    var v' := BumpHigh(v, a, W);
    if High(v', a, b) != 0 { ExpansionsVisit(v', x, a, b, W); }
  }

  // ----- one call -------------------------------------------------------------------

  function Gather<K, V>(b: seq<Chain<K, V>>, idx: seq<nat>): Chain<K, V>
    requires InRange(idx, |b|)
  {
    if idx == [] then [] else b[idx[0]] + Gather(b, idx[1..])
  }

  /** The entries a call hands to its callback. */
  ghost function Emission<K(!new), V>(d: Dict<K, V>, h: K -> nat, v: nat, W: nat): Chain<K, V>
    requires Inv(d, h) && Fits(d, W)
  {
    Sizes(d, h);
    if d.t0.used + d.t1.used == 0 || Small(d).buckets == [] then []
    else if !IsRehashing(d) then d.t0.buckets[Low(v, SmallBits(d))]
    else
      ExpansionsVisit(v, v, SmallBits(d), LargeBits(d), W);
      Small(d).buckets[Low(v, SmallBits(d))]
      + Gather(Large(d).buckets, Expansions(v, SmallBits(d), LargeBits(d), W))
  }

  /** The cursor a call returns. */
  function CursorFrom<K, V>(d: Dict<K, V>, v: nat, W: nat): nat
    requires Fits(d, W)
  {
    if d.t0.used + d.t1.used == 0 then 0 else NextCursor(v, SmallBits(d), W)
  }

  lemma {:induction false} ChainFindConcat<K, V>(c: Chain<K, V>, c': Chain<K, V>, k: K)
    ensures ChainFind(c + c', k).Some? <==> ChainFind(c, k).Some? || ChainFind(c', k).Some?
  {
    if c == [] {
      assert c + c' == c';
    } else {
      ChainFindConcat(c[1..], c', k);
      assert (c + c')[1..] == c[1..] + c';
    }
  }

  lemma {:induction false} GatherFind<K(!new), V>(t: Table<K, V>, h: K -> nat, idx: seq<nat>, k: K)
    requires TableInv(t, h) && t.buckets != [] && InRange(idx, |t.buckets|)
    ensures ChainFind(Gather(t.buckets, idx), k).Some?
            <==> TableFind(t, h, k).Some? && h(k) % |t.buckets| in idx
  {
    if idx != [] {
      var i := idx[0];
      ChainFindConcat(t.buckets[i], Gather(t.buckets, idx[1..]), k);
      GatherFind(t, h, idx[1..], k);
      BucketFind(t, h, i, k);
    }
  }

  lemma BucketFind<K(!new), V>(t: Table<K, V>, h: K -> nat, i: nat, k: K)
    requires TableInv(t, h) && i < |t.buckets|
    ensures ChainFind(t.buckets[i], k).Some? <==> TableFind(t, h, k).Some? && h(k) % |t.buckets| == i
  {
  }

  /** k is among the entries a call emits. */
  ghost predicate Emits<K(!new), V>(d: Dict<K, V>, h: K -> nat, v: nat, k: K, W: nat)
    requires Inv(d, h) && Fits(d, W)
  {
    ChainFind(Emission(d, h, v, W), k).Some?
  }

  lemma EmitsExactly<K(!new), V>(d: Dict<K, V>, h: K -> nat, v: nat, k: K, W: nat)
    requires Inv(d, h) && Fits(d, W) && Lookup(d, h, k).Some?
    ensures IsRehashing(d) ==> SmallBits(d) <= LargeBits(d)
    ensures Emits(d, h, v, k, W) <==>
            if !IsRehashing(d) || TableFind(Small(d), h, k).Some? then Low(h(k), SmallBits(d)) == Low(v, SmallBits(d))
            else VisitsExpansion(v, h(k), SmallBits(d), LargeBits(d))
  {
    var a, b := SmallBits(d), LargeBits(d);
    Sizes(d, h);
    TotalZero(d.t0.buckets);
    TotalZero(d.t1.buckets);
    assert Small(d).buckets != [];
    LowIsMod(h(k), a);
    BucketFind(Small(d), h, Low(v, a), k);
    if IsRehashing(d) {
      LowIsMod(h(k), b);
      ExpansionsVisit(v, v, a, b, W);
      ExpansionsVisit(v, h(k), a, b, W);
      GatherFind(Large(d), h, Expansions(v, a, b, W), k);
      ChainFindConcat(Small(d).buckets[Low(v, a)], Gather(Large(d).buckets, Expansions(v, a, b, W)), k);
    }
  }

  /** The condition under which a call covers its bucket from the cursor on. */
  predicate CallIsSound<K, V>(d: Dict<K, V>, v: nat) {
    IsRehashing(d) ==> SmallBits(d) <= LargeBits(d) && IsLowRun(High(v, SmallBits(d), LargeBits(d)))
  }

  /** A stored key at or after the cursor is emitted, or still lies at or after the cursor
      that the call returns. */
  lemma CallKeepsKey<K(!new), V>(d: Dict<K, V>, h: K -> nat, v: nat, k: K, W: nat)
    requires Inv(d, h) && Fits(d, W) && Lookup(d, h, k).Some? && CallIsSound(d, v)
    requires Position(h(k), W) >= Position(v, W) && !Emits(d, h, v, k, W)
    ensures CursorFrom(d, v, W) != 0 && Position(h(k), W) >= Position(CursorFrom(d, v, W), W)
  {
    var a, b := SmallBits(d), LargeBits(d);
    EmitsExactly(d, h, v, k, W);
    TotalZero(d.t0.buckets);
    TotalZero(d.t1.buckets);
    if Low(h(k), a) == Low(v, a) {
      LowRunCovers(v, h(k), a, b, W);
    } else {
      NextCursorSkipsOnlyItsBucket(h(k), v, a, W);
    }
  }

  // ----- whole scans ------------------------------------------------------------------

  /** The cursors of a scan whose i-th call finds the dictionary ds[i]: anything may have
      happened in between. */
  ghost predicate IsScan<K(!new), V>(ds: seq<Dict<K, V>>, h: K -> nat, vs: seq<nat>, W: nat) {
    && |vs| == |ds| + 1 && vs[0] == 0
    && (forall i :: 0 <= i < |ds| ==> Inv(ds[i], h) && Fits(ds[i], W))
    && (forall i :: 0 <= i < |ds| ==> vs[i + 1] == CursorFrom(ds[i], vs[i], W))
  }

  lemma {:induction false} NotYetEmitted<K(!new), V>(ds: seq<Dict<K, V>>, h: K -> nat, vs: seq<nat>, n: nat, k: K, W: nat)
    requires IsScan(ds, h, vs, W) && n <= |ds|
    requires forall i :: 0 <= i < n ==> Lookup(ds[i], h, k).Some? && CallIsSound(ds[i], vs[i])
    requires forall i :: 0 <= i < n ==> !Emits(ds[i], h, vs[i], k, W)
    ensures Position(h(k), W) >= Position(vs[n], W)
    ensures n > 0 ==> vs[n] != 0
  {
    if n == 0 {
      RevZero(W);
    } else {
      NotYetEmitted(ds, h, vs, n - 1, k, W);
      CallKeepsKey(ds[n - 1], h, vs[n - 1], k, W);
    }
  }

  /** Completeness: a scan that comes back to cursor 0 has emitted every key that each of
      its calls found stored, provided each call made during a migration enters with a low
      run of cursor bits between the two masks. */
  lemma ScanComplete<K(!new), V>(ds: seq<Dict<K, V>>, h: K -> nat, vs: seq<nat>, k: K, W: nat)
    requires IsScan(ds, h, vs, W) && ds != [] && vs[|ds|] == 0
    requires forall i :: 0 <= i < |ds| ==> Lookup(ds[i], h, k).Some? && CallIsSound(ds[i], vs[i])
    ensures exists i :: 0 <= i < |ds| && Emits(ds[i], h, vs[i], k, W)
  {
    if forall i :: 0 <= i < |ds| ==> !Emits(ds[i], h, vs[i], k, W) {
      NotYetEmitted(ds, h, vs, |ds|, k, W);
    }
  }

  /** The smaller mask never shrinks from one call to the next. */
  ghost predicate NeverShrinks<K(!new), V>(ds: seq<Dict<K, V>>) {
    forall i {:trigger ds[i]} :: 0 < i < |ds| ==> SmallBits(ds[i - 1]) <= SmallBits(ds[i])
  }

  lemma NoHighBits(v: nat, a: nat, b: nat)
    requires a <= b && v < Pow2(a)
    ensures High(v, a, b) == 0 && IsLowRun(High(v, a, b))
  {
    ShrSmall(v, a);
    RevZero(b - a);
    assert TrailingOnes(0) == 0 && Pow2(0) == 1;
  }

  lemma CursorFits<K(!new), V>(ds: seq<Dict<K, V>>, h: K -> nat, vs: seq<nat>, i: nat, W: nat)
    requires IsScan(ds, h, vs, W) && NeverShrinks(ds) && i < |ds|
    ensures vs[i] < Pow2(SmallBits(ds[i]))
  {
    if i > 0 {
      var a := SmallBits(ds[i - 1]);
      assert vs[i] == CursorFrom(ds[i - 1], vs[i - 1], W);
      NextCursorBucket(vs[i - 1], a, W);
      assert SmallBits(ds[i - 1]) <= SmallBits(ds[i]);
      Pow2Monotone(a, SmallBits(ds[i]));
    }
  }

  /** In particular nothing is missed by a scan during which the smaller table never
      shrinks, whatever inserts, deletes, rehash steps and growth happen between calls. */
  lemma ScanCompleteWhenGrowing<K(!new), V>(ds: seq<Dict<K, V>>, h: K -> nat, vs: seq<nat>, k: K, W: nat)
    requires IsScan(ds, h, vs, W) && ds != [] && vs[|ds|] == 0 && NeverShrinks(ds)
    requires forall i :: 0 <= i < |ds| ==> Lookup(ds[i], h, k).Some?
    ensures exists i :: 0 <= i < |ds| && Emits(ds[i], h, vs[i], k, W)
  {
    forall i | 0 <= i < |ds| ensures CallIsSound(ds[i], vs[i]) {
      CursorFits(ds, h, vs, i, W);
      Sizes(ds[i], h);
      if IsRehashing(ds[i]) { NoHighBits(vs[i], SmallBits(ds[i]), LargeBits(ds[i])); }
    }
    ScanComplete(ds, h, vs, k, W);
  }

  /** While the smaller table keeps 2^a buckets, a scan of a non-empty dictionary is over
      after exactly 2^a calls. */
  lemma {:induction false} ScanLength<K(!new), V>(ds: seq<Dict<K, V>>, h: K -> nat, vs: seq<nat>, a: nat, n: nat, W: nat)
    requires IsScan(ds, h, vs, W) && n <= |ds| && n <= Pow2(a) && a <= W
    requires forall i :: 0 <= i < |ds| ==> SmallBits(ds[i]) == a && ds[i].t0.used + ds[i].t1.used > 0
    ensures vs[n] == CursorAfter(n, a, W)
    ensures n > 0 ==> (vs[n] == 0 <==> n == Pow2(a))
    decreases n
  {
    if n > 0 {
      ScanLength(ds, h, vs, a, n - 1, W);
      CursorCycle(n, a, W);
    }
  }

  // ----- scans over histories of calls ---------------------------------------------------

  lemma ExecKeepsKey<K(!new), V>(d: Dict<K, V>, h: K -> nat, c: Call<K, V>, k: K)
    requires Inv(d, h) && Lookup(d, h, k).Some? && c.op != DeleteOp(k)
    ensures Inv(Exec(d, h, c).0, h) && Lookup(Exec(d, h, c).0, h, k).Some?
  {
    ExecInv(d, h, c);
    match c.op
    case AddOp(q, v) => AddKeeps(d, h, c.canResize, q, v);
    case ReplaceOp(q, v) => ReplaceKeeps(d, h, c.canResize, q, v);
    case FindOp(q) => FindKeeps(d, h, q);
    case DeleteOp(q) => DeleteKeeps(d, h, q);
    case ExpandOp(size) => ExpandKeeps(d, h, size);
    case ResizeOp => ResizeKeeps(d, h, c.canResize);
    case RehashOp(n) => RehashKeeps(d, h, n);
  }

  lemma {:induction false} RunKeepsKey<K(!new), V>(d: Dict<K, V>, h: K -> nat, cs: seq<Call<K, V>>, k: K)
    requires Inv(d, h) && Lookup(d, h, k).Some?
    requires forall i :: 0 <= i < |cs| ==> cs[i].op != DeleteOp(k)
    ensures Lookup(Run(d, h, cs).0, h, k).Some?
    decreases |cs|
  {
    if cs != [] {
      ExecKeepsKey(d, h, cs[0], k);
      RunKeepsKey(Exec(d, h, cs[0]).0, h, cs[1..], k);
    }
  }

  /** ds[i + 1] is what the calls css[i] made after the i-th scan call leave of ds[i]. */
  ghost predicate IsHistory<K(!new), V>(ds: seq<Dict<K, V>>, h: K -> nat, css: seq<seq<Call<K, V>>>) {
    && |ds| == |css| + 1
    && (forall i :: 0 <= i < |ds| ==> Inv(ds[i], h))
    && (forall i :: 0 <= i < |css| ==> ds[i + 1] == Run(ds[i], h, css[i]).0)
  }

  lemma {:induction false} HistoryKeepsKey<K(!new), V>(ds: seq<Dict<K, V>>, h: K -> nat, css: seq<seq<Call<K, V>>>, k: K, n: nat)
    requires IsHistory(ds, h, css) && n < |ds| && Lookup(ds[0], h, k).Some?
    requires forall i, j :: 0 <= i < |css| && 0 <= j < |css[i]| ==> css[i][j].op != DeleteOp(k)
    ensures Lookup(ds[n], h, k).Some?
  {
    if n > 0 {
      HistoryKeepsKey(ds, h, css, k, n - 1);
      RunKeepsKey(ds[n - 1], h, css[n - 1], k);
      assert ds[n - 1 + 1] == Run(ds[n - 1], h, css[n - 1]).0;
    }
  }

  /** A scan interleaved with arbitrary calls emits every key that was stored at its start
      and that none of the calls deletes, as long as its own calls are sound. */
  lemma ScanCompleteOverHistory<K(!new), V>(ds: seq<Dict<K, V>>, h: K -> nat, css: seq<seq<Call<K, V>>>, vs: seq<nat>, k: K, W: nat)
    requires IsHistory(ds, h, css) && IsScan(ds, h, vs, W) && vs[|ds|] == 0
    requires Lookup(ds[0], h, k).Some?
    requires forall i, j :: 0 <= i < |css| && 0 <= j < |css[i]| ==> css[i][j].op != DeleteOp(k)
    requires NeverShrinks(ds) || forall i :: 0 <= i < |ds| ==> CallIsSound(ds[i], vs[i])
    ensures exists i :: 0 <= i < |ds| && Emits(ds[i], h, vs[i], k, W)
  {
    forall i | 0 <= i < |ds| ensures Lookup(ds[i], h, k).Some? {
      HistoryKeepsKey(ds, h, css, k, i);
    }
    if NeverShrinks(ds) {
      ScanCompleteWhenGrowing(ds, h, vs, k, W);
    } else {
      ScanComplete(ds, h, vs, k, W);
    }
  }

  // ----- a scan that misses a key -----------------------------------------------------------

  /** One entry, of hash 4, in a table of 16 buckets. */
  function Sparse(): Dict<nat, nat> {
    EmptyDict<nat, nat>().(t0 := TableInsert(EmptyTable<nat, nat>(16), (x: nat) => x, Entry(4, 0)))
  }

  lemma SparseFacts()
    ensures var h := (x: nat) => x;
            var d := Sparse();
            && Inv(d, h) && !IsRehashing(d) && TableFind(d.t0, h, 4) == Some(0)
            && |d.t0.buckets| == 16 && d.t0.used == 1 && d.t1 == Table([], 0)
  {
    var h := (x: nat) => x;
    assert Pow2(4) == 16;
    EmptyTableInv<nat, nat>(16, h);
    TableInsertFind(EmptyTable<nat, nat>(16), h, Entry(4, 0));
    EmptyDictRepresents<nat, nat>(h);
  }

  lemma ShrinksToFour(d: Dict<nat, nat>)
    requires !IsRehashing(d) && d.t0.used <= 4 && |d.t0.buckets| == 16
    ensures Resize(d, true).0 == d.(t1 := EmptyTable(4), rehashidx := 0)
  {
    assert NextPower(4) == 4;
  }

  lemma SparseSizes(d: Dict<nat, nat>)
    requires IsRehashing(d) && |d.t0.buckets| == 16 && |d.t1.buckets| == 4
    ensures SmallBits(d) == 2 && LargeBits(d) == 4 && Small(d) == d.t1
  {
    assert Log2(16) == 4 && Log2(4) == 2;
  }

  /** The same dictionary once it began to shrink to 4 buckets. */
  lemma SparseShrinking()
    ensures var h := (x: nat) => x;
            var d := Resize(Sparse(), true).0;
            && Inv(d, h) && IsRehashing(d) && Lookup(d, h, 4) == Some(0) && d.t0.used == 1
            && SmallBits(d) == 2 && LargeBits(d) == 4 && TableFind(Small(d), h, 4) == None
  {
    var h := (x: nat) => x;
    SparseFacts();
    ResizeKeeps(Sparse(), h, true);
    ShrinksToFour(Sparse());
    EmptyTableInv<nat, nat>(4, h) by { assert Pow2(2) == 4; }
    SparseSizes(Resize(Sparse(), true).0);
  }

  /** A call of the scan: it leaves the stored key k out and returns n. */
  ghost predicate Skips(d: Dict<nat, nat>, h: nat -> nat, v: nat, k: nat, n: nat, W: nat) {
    && Inv(d, h) && Fits(d, W) && Lookup(d, h, k).Some?
    && CursorFrom(d, v, W) == n && !Emits(d, h, v, k, W)
  }

  lemma CallSkips(d: Dict<nat, nat>, h: nat -> nat, v: nat, k: nat, n: nat, a: nat, b: nat, W: nat)
    requires Inv(d, h) && Lookup(d, h, k).Some? && a == SmallBits(d) <= W && b == LargeBits(d) <= W
    requires if !IsRehashing(d) || TableFind(Small(d), h, k).Some? then Low(h(k), a) != Low(v, a)
             else a <= b && !VisitsExpansion(v, h(k), a, b)
    requires Rev(Low(Rev(v, a) + 1, a), a) == n
    ensures Skips(d, h, v, k, n, W)
  {
    EmitsExactly(d, h, v, k, W);
    NextCursorBucket(v, a, W);
    TotalZero(d.t0.buckets);
    TotalZero(d.t1.buckets);
  }

  // From here on the constants of the example (its key 4, its table sizes 2^a and 2^b with a == 2
  // and b == 4, its cursors v and n) are parameters, and literals only where the bit functions
  // are to be evaluated on them.

  lemma {:induction false} SparseFirstCall(d: Dict<nat, nat>, h: nat -> nat, v: nat, k: nat, n: nat, a: nat, W: nat)
    requires d == Sparse() && h == ((x: nat) => x) && k == 4 && W >= 4 && a == 4
    requires Low(k, a) != Low(v, a) && Rev(Low(Rev(v, a) + 1, a), a) == n
    ensures Skips(d, h, v, k, n, W)
  {
    SparseFacts();
    assert SmallBits(d) == a by { assert Log2(16) == 4; }
    assert LargeBits(d) == 0;
    CallSkips(d, h, v, k, n, a, 0, W);
  }

  lemma SparseLaterCall(d: Dict<nat, nat>, h: nat -> nat, v: nat, k: nat, n: nat, a: nat, b: nat, W: nat)
    requires d == Resize(Sparse(), true).0 && h == ((x: nat) => x) && k == 4 && W >= 4 && a == 2 && b == 4
    requires Low(k, a) != Low(v, a) || High(k, a, b) < High(v, a, b)
    requires Rev(Low(Rev(v, a) + 1, a), a) == n
    ensures Skips(d, h, v, k, n, W)
  {
    SparseShrinking();
    CallSkips(d, h, v, k, n, a, b, W);
  }

  /** The scan 0, 8, 2, 1, 3 of the sparse table: 16 buckets at its first call, shrinking to
      4 at the others. */
  ghost predicate InOrbit(v: nat, n: nat) {
    (v == 8 && n == 2) || (v == 2 && n == 1) || (v == 1 && n == 3) || (v == 3 && n == 0)
  }

  lemma OrbitMisses(v: nat, k: nat, n: nat, a: nat, b: nat)
    requires k == 4 && a == 2 && b == 4 && InOrbit(v, n)
    ensures Low(k, a) != Low(v, a) || High(k, a, b) < High(v, a, b)
  {
    if v == 8 {
      assert High(4, 2, 4) < High(8, 2, 4);
    } else if v == 2 {
      assert Low(4, 2) != Low(2, 2);
    } else if v == 1 {
      assert Low(4, 2) != Low(1, 2);
    } else {
      assert Low(4, 2) != Low(3, 2);
    }
  }

  lemma OrbitStep(v: nat, n: nat, a: nat)
    requires a == 2 && InOrbit(v, n)
    ensures Rev(Low(Rev(v, a) + 1, a), a) == n
  {
    if v == 8 || v == 2 { OrbitStepEven(v, n, a); } else { OrbitStepOdd(v, n, a); }
  }

  lemma OrbitStepEven(v: nat, n: nat, a: nat)
    requires a == 2 && ((v == 8 && n == 2) || (v == 2 && n == 1))
    ensures Rev(Low(Rev(v, a) + 1, a), a) == n
  {
    if v == 8 {
      assert Rev(Low(Rev(8, 2) + 1, 2), 2) == 2;
    } else {
      assert Rev(Low(Rev(2, 2) + 1, 2), 2) == 1;
    }
  }

  lemma OrbitStepOdd(v: nat, n: nat, a: nat)
    requires a == 2 && ((v == 1 && n == 3) || (v == 3 && n == 0))
    ensures Rev(Low(Rev(v, a) + 1, a), a) == n
  {
    if v == 1 {
      assert Rev(Low(Rev(1, 2) + 1, 2), 2) == 3;
    } else {
      assert Rev(Low(Rev(3, 2) + 1, 2), 2) == 0;
    }
  }

  lemma OrbitStart(v: nat, k: nat, n: nat, a: nat)
    requires v == 0 && k == 4 && n == 8 && a == 4
    ensures Low(k, a) != Low(v, a) && Rev(Low(Rev(v, a) + 1, a), a) == n
  {
    assert Low(4, 4) != Low(0, 4) && Rev(Low(Rev(0, 4) + 1, 4), 4) == 8;
  }

  /** Every call of that scan leaves out the stored key 4. */
  lemma OrbitSkips(d: Dict<nat, nat>, d': Dict<nat, nat>, h: nat -> nat, k: nat, W: nat)
    requires d == Sparse() && d' == Resize(d, true).0 && h == ((x: nat) => x) && k == 4 && W >= 4
    ensures forall v, n :: v == 0 && n == 8 ==> Skips(d, h, v, k, n, W)
    ensures forall v, n :: InOrbit(v, n) ==> Skips(d', h, v, k, n, W)
  {
    var a: nat, b: nat :| a == 2 && b == 4;
    forall v: nat, n: nat | v == 0 && n == 8 ensures Skips(d, h, v, k, n, W) {
      OrbitStart(v, k, n, b);
      SparseFirstCall(d, h, v, k, n, b, W);
    }
    forall v, n | InOrbit(v, n) ensures Skips(d', h, v, k, n, W) {
      OrbitMisses(v, k, n, a, b);
      OrbitStep(v, n, a);
      SparseLaterCall(d', h, v, k, n, a, b, W);
    }
  }

  /** Calls that leave k out one after the other, from cursor 0 on, are a scan without k. */
  lemma SkippingScan(ds: seq<Dict<nat, nat>>, h: nat -> nat, vs: seq<nat>, k: nat, W: nat)
    requires |vs| == |ds| + 1 && vs[0] == 0
    requires forall i :: 0 <= i < |ds| ==> Skips(ds[i], h, vs[i], k, vs[i + 1], W)
    ensures IsScan(ds, h, vs, W)
    ensures forall i :: 0 <= i < |ds| ==> Lookup(ds[i], h, k).Some? && !Emits(ds[i], h, vs[i], k, W)
  {
    forall i | 0 <= i < |ds|
      ensures Inv(ds[i], h) && Fits(ds[i], W) && vs[i + 1] == CursorFrom(ds[i], vs[i], W)
      ensures Lookup(ds[i], h, k).Some? && !Emits(ds[i], h, vs[i], k, W)
    {
      assert Skips(ds[i], h, vs[i], k, vs[i + 1], W);
    }
  }

  /** The cursors of that scan. */
  ghost predicate OrbitCursors(vs: seq<nat>) {
    |vs| == 6 && vs[0] == 0 && vs[1] == 8 && forall i :: 1 <= i < 5 ==> InOrbit(vs[i], vs[i + 1])
  }

  lemma OrbitEnds(vs: seq<nat>)
    requires OrbitCursors(vs)
    ensures vs[5] == 0
  {
    assert InOrbit(vs[1], vs[2]) && InOrbit(vs[2], vs[3]) && InOrbit(vs[3], vs[4]) && InOrbit(vs[4], vs[5]);
  }

  lemma OrbitCall(d: Dict<nat, nat>, d': Dict<nat, nat>, at: Dict<nat, nat>, h: nat -> nat, vs: seq<nat>,
                                     k: nat, i: nat, W: nat)
    requires d == Sparse() && d' == Resize(d, true).0 && h == ((x: nat) => x) && k == 4 && W >= 4
    requires OrbitCursors(vs) && i < 5 && at == if i == 0 then d else d'
    ensures Skips(at, h, vs[i], k, vs[i + 1], W)
  {
    var v, n := vs[i], vs[i + 1];
    assert if i == 0 then v == 0 && n == 8 else InOrbit(v, n);
    OrbitSkips(d, d', h, k, W);
  }

  /** Completeness fails without the condition on the cursor: a scan 0, 8, 2, 1, 3, 0 of a table
      that begins to shrink after its first call comes back to cursor 0 and has never emitted a
      key that was stored throughout.  Its call at cursor 8 enters with the bits 10 between the
      masks. */
  lemma ShrinkingScanMisses(ds: seq<Dict<nat, nat>>, vs: seq<nat>, h: nat -> nat, k: nat, W: nat)
    requires h == ((x: nat) => x) && k == 4 && W >= 4 && OrbitCursors(vs)
    requires |ds| == 5 && ds[0] == Sparse() && forall i :: 1 <= i < 5 ==> ds[i] == Resize(Sparse(), true).0
    ensures IsScan(ds, h, vs, W) && vs[|ds|] == 0
    ensures forall i :: 0 <= i < |ds| ==> Lookup(ds[i], h, k).Some? && !Emits(ds[i], h, vs[i], k, W)
  {
    var d, d' := Sparse(), Resize(Sparse(), true).0;
    forall i | 0 <= i < |ds| ensures Skips(ds[i], h, vs[i], k, vs[i + 1], W) {
      OrbitCall(d, d', if i == 0 then d else d', h, vs, k, i, W);
    }
    SkippingScan(ds, h, vs, k, W);
    OrbitEnds(vs);
  }

  /** More generally, any call made during a migration whose cursor violates the condition
      passes over the hash Missed: a key of the larger table with that hash is not emitted,
      lies at or after the cursor, and before the cursor that the call returns.  A later call
      may still emit it if the table shrinks to fewer buckets than that. */
  lemma UnsoundCallLoses<K(!new), V>(d: Dict<K, V>, h: K -> nat, v: nat, k: K, W: nat)
    requires Inv(d, h) && Fits(d, W) && IsRehashing(d) && SmallBits(d) <= LargeBits(d) && !CallIsSound(d, v)
    requires TableFind(Large(d), h, k).Some? && h(k) == Missed(v, SmallBits(d), LargeBits(d))
    ensures Lookup(d, h, k).Some? && !Emits(d, h, v, k, W)
    ensures Position(h(k), W) >= Position(v, W)
    ensures CursorFrom(d, v, W) == 0 || Position(h(k), W) < Position(CursorFrom(d, v, W), W)
  {
    var a, b := SmallBits(d), LargeBits(d);
    MissedIsSmaller(v, a, b);
    MissedIsLater(v, a, b, W);
    assert TableFind(Small(d), h, k).None?;
    EmitsExactly(d, h, v, k, W);
    TotalZero(d.t0.buckets);
    TotalZero(d.t1.buckets);
    PassedOver(h(k), v, a, W);
  }

  /** Unless it wrapped, the next cursor has passed every hash of the cursor's bucket. */
  lemma {:induction false} PassedOver(x: nat, v: nat, a: nat, W: nat)
    requires a <= W && Low(x, a) == Low(v, a)
    ensures NextCursor(v, a, W) == 0 || Position(x, W) < Position(NextCursor(v, a, W), W)
  {
    assert Rev(x, a) == Rev(v, a) by { RevInjective(x, v, a); }
    if Rev(v, a) + 1 == Pow2(a) {
      NextCursorBucket(v, a, W);
    } else {
      NextCursorPosition(v, a, W);
      PositionInterval(x, a, W);
    }
  }

  // ----- the call as a loop over the table ----------------------------------------------------

  lemma GatherHead<K, V>(b: seq<Chain<K, V>>, i: nat, idx: seq<nat>)
    requires i < |b| && InRange(idx, |b|)
    ensures InRange([i] + idx, |b|)
    ensures Gather(b, [i] + idx) == b[i] + Gather(b, idx)
  {
    assert ([i] + idx)[1..] == idx;
  }

  lemma ExpansionsUnfold<K, V>(buckets: seq<Chain<K, V>>, u: nat, a: nat, b: nat, W: nat)
    requires a <= b <= W && |buckets| == Pow2(b)
    ensures InRange(Expansions(u, a, b, W), |buckets|) && InRange(Expansions(BumpHigh(u, a, W), a, b, W), |buckets|)
    ensures Low(u, b) < |buckets| && Low(BumpHigh(u, a, W), a) == Low(u, a)
    ensures Gather(buckets, Expansions(u, a, b, W)) ==
            buckets[Low(u, b)] + (if High(BumpHigh(u, a, W), a, b) == 0 then []
                                  else Gather(buckets, Expansions(BumpHigh(u, a, W), a, b, W)))
  {
    BumpHighFacts(u, a, b, W);
    ExpansionsVisit(u, u, a, b, W);
    ExpansionsVisit(BumpHigh(u, a, W), u, a, b, W);
    GatherHead(buckets, Low(u, b), []);
    GatherHead(buckets, Low(u, b), Expansions(BumpHigh(u, a, W), a, b, W));
  }

  /** The do-while loop over the expansions of the cursor in the larger table. */
  method ScanExpansions<K, V>(buckets: seq<Chain<K, V>>, v: nat, a: nat, b: nat, W: nat) returns (u: nat, out: Chain<K, V>)
    requires a <= b <= W && |buckets| == Pow2(b)
    ensures Low(u, a) == Low(v, a)
    ensures InRange(Expansions(v, a, b, W), |buckets|)
    ensures out == Gather(buckets, Expansions(v, a, b, W))
  {
    u, out := v, [];
    ExpansionsUnfold(buckets, v, a, b, W);
    var more := true;
    while more
      invariant Low(u, a) == Low(v, a)
      invariant more ==> InRange(Expansions(u, a, b, W), |buckets|)
      invariant Gather(buckets, Expansions(v, a, b, W)) ==
                out + if more then Gather(buckets, Expansions(u, a, b, W)) else []
      decreases more, Pow2(b - a) - High(u, a, b)
    {
      ExpansionsUnfold(buckets, u, a, b, W);
      BumpHighFacts(u, a, b, W);
      out := out + buckets[Low(u, b)];
      u := BumpHigh(u, a, W);
      more := High(u, a, b) != 0;
    }
  }

  lemma {:induction false} CursorSeesLowBits(u: nat, v: nat, a: nat, W: nat)
    requires a <= W && Low(u, a) == Low(v, a)
    ensures NextCursor(u, a, W) == NextCursor(v, a, W)
  {
  }

  /** dictScan. */
  method Scan<K(==, !new), V>(t: DictTable.HashTable<K, V>, v: nat, W: nat) returns (next: nat, out: Chain<K, V>)
    requires t.Valid() && Fits(t.State(), W)
    ensures next == CursorFrom(t.State(), v, W)
    ensures out == Emission(t.State(), t.hash, v, W)
  {
    Sizes(t.State(), t.hash);
    TotalZero(t.ht0.buckets);
    if t.ht0.used + t.ht1.used == 0 { return 0, []; }
    var small, large := t.ht0, t.ht1;
    if t.rehashidx != -1 && |small.buckets| > |large.buckets| {
      small, large := large, small;
    }
    var a := Log2(|small.buckets|);
    out := small.buckets[Low(v, a)];
    var u := v;
    if t.rehashidx != -1 {
      var rest;
      u, rest := ScanExpansions(large.buckets, v, a, Log2(|large.buckets|), W);
      out := out + rest;
    }
    CursorSeesLowBits(u, v, a, W);
    next := NextCursor(u, a, W);
  }
}
