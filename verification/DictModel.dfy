/** The hash table of dict.c as a value: two chained tables, the index of the next
    bucket to migrate and the number of live safe iterators.  Every operation is a
    function on that value; the loops of the source are methods of DictTable, proved
    equal to these functions. */
module DictModel {
  import opened Prelude

  datatype Entry<K, V> = Entry(key: K, val: V)

  type Chain<K, V> = seq<Entry<K, V>>

  datatype Table<K, V> = Table(buckets: seq<Chain<K, V>>, used: nat)

  datatype Dict<K, V> = Dict(t0: Table<K, V>, t1: Table<K, V>, rehashidx: int, iterators: nat)

  const INITIAL_SIZE := 4
  const FORCE_RESIZE_RATIO := 5

  // ----- chains ---------------------------------------------------------------

  function ChainFind<K(==), V>(c: Chain<K, V>, k: K): Option<V> {
    if c == [] then None
    else if c[0].key == k then Some(c[0].val)
    else ChainFind(c[1..], k)
  }

  /** Unlinks the first entry that holds k. */
  function ChainRemove<K(==), V>(c: Chain<K, V>, k: K): Chain<K, V> {
    if c == [] then []
    else if c[0].key == k then c[1..]
    else [c[0]] + ChainRemove(c[1..], k)
  }

  /** Overwrites the value of the first entry that holds k. */
  function ChainUpdate<K(==), V>(c: Chain<K, V>, k: K, v: V): Chain<K, V> {
    if c == [] then []
    else if c[0].key == k then [Entry(k, v)] + c[1..]
    else [c[0]] + ChainUpdate(c[1..], k, v)
  }

  predicate DistinctKeys<K(==), V>(c: Chain<K, V>) {
    c == [] || (ChainFind(c[1..], c[0].key).None? && DistinctKeys(c[1..]))
  }

  lemma ChainPush<K, V>(e: Entry<K, V>, c: Chain<K, V>, k: K)
    ensures ChainFind([e] + c, k) == if k == e.key then Some(e.val) else ChainFind(c, k)
    ensures DistinctKeys([e] + c) <==> ChainFind(c, e.key).None? && DistinctKeys(c)
  {
    assert ([e] + c)[1..] == c;
  }

  lemma {:induction false} ChainRemoveFind<K, V>(c: Chain<K, V>, k: K, q: K)
    requires DistinctKeys(c)
    ensures ChainFind(ChainRemove(c, k), q) == if q == k then None else ChainFind(c, q)
    ensures DistinctKeys(ChainRemove(c, k))
    ensures |ChainRemove(c, k)| == |c| - (if ChainFind(c, k).Some? then 1 else 0)
  {
    if c != [] && c[0].key != k {
      ChainRemoveFind(c[1..], k, q);
      ChainRemoveFind(c[1..], k, c[0].key);
      ChainPush(c[0], ChainRemove(c[1..], k), q);
    }
  }

  lemma {:induction false} ChainUpdateFind<K, V>(c: Chain<K, V>, k: K, v: V, q: K)
    requires DistinctKeys(c)
    ensures ChainFind(ChainUpdate(c, k, v), q) ==
            if q == k && ChainFind(c, k).Some? then Some(v) else ChainFind(c, q)
    ensures DistinctKeys(ChainUpdate(c, k, v))
    ensures |ChainUpdate(c, k, v)| == |c|
  {
    if c != [] {
      if c[0].key == k {
        ChainPush(Entry(k, v), c[1..], q);
      } else {
        ChainUpdateFind(c[1..], k, v, q);
        ChainUpdateFind(c[1..], k, v, c[0].key);
        ChainPush(c[0], ChainUpdate(c[1..], k, v), q);
      }
    }
  }

  // ----- tables ---------------------------------------------------------------

  /** Number of entries held by all the buckets. */
  function Total<K, V>(b: seq<Chain<K, V>>): nat {
    if b == [] then 0 else |b[0]| + Total(b[1..])
  }

  lemma {:induction false} TotalUpdate<K, V>(b: seq<Chain<K, V>>, i: nat, c: Chain<K, V>)
    requires i < |b|
    ensures Total(b[i := c]) == Total(b) - |b[i]| + |c|
    ensures |b[i]| <= Total(b)
  {
    if i == 0 {
      assert b[i := c][1..] == b[1..];
    } else {
      TotalUpdate(b[1..], i - 1, c);
      assert b[i := c][1..] == b[1..][i - 1 := c];
    }
  }

  lemma {:induction false} TotalZero<K, V>(b: seq<Chain<K, V>>)
    ensures Total(b) == 0 <==> forall i :: 0 <= i < |b| ==> b[i] == []
  {
    if b != [] {
      TotalZero(b[1..]);
      if Total(b) == 0 {
        forall i | 0 <= i < |b| ensures b[i] == [] {
          if i > 0 { assert b[1..][i - 1] == b[i]; }
        }
      } else if b[0] == [] {
        var i :| 0 <= i < |b[1..]| && b[1..][i] != [];
        assert b[i + 1] != [];
      }
    }
  }

  function TableFind<K(==), V>(t: Table<K, V>, h: K -> nat, k: K): Option<V> {
    if t.buckets == [] then None else ChainFind(t.buckets[h(k) % |t.buckets|], k)
  }

  function EmptyTable<K, V>(size: nat): (t: Table<K, V>) {
    Table(seq(size, i => []), 0)
  }

  function TableInsert<K(==), V>(t: Table<K, V>, h: K -> nat, e: Entry<K, V>): Table<K, V>
    requires t.buckets != []
  {
    var i := h(e.key) % |t.buckets|;
    Table(t.buckets[i := [e] + t.buckets[i]], t.used + 1)
  }

  function TableRemove<K(==), V>(t: Table<K, V>, h: K -> nat, k: K): Table<K, V>
    requires TableFind(t, h, k).Some? && t.used > 0
  {
    var i := h(k) % |t.buckets|;
    Table(t.buckets[i := ChainRemove(t.buckets[i], k)], t.used - 1)
  }

  function TableUpdate<K(==), V>(t: Table<K, V>, h: K -> nat, k: K, v: V): Table<K, V>
    requires TableFind(t, h, k).Some?
  {
    var i := h(k) % |t.buckets|;
    t.(buckets := t.buckets[i := ChainUpdate(t.buckets[i], k, v)])
  }

  ghost predicate TableInv<K(!new), V>(t: Table<K, V>, h: K -> nat) {
    && t.used == Total(t.buckets)
    && (t.buckets == [] || IsPow2(|t.buckets|))
    && (forall i :: 0 <= i < |t.buckets| ==> DistinctKeys(t.buckets[i]))
    && (forall i, k :: 0 <= i < |t.buckets| && ChainFind(t.buckets[i], k).Some?
          ==> h(k) % |t.buckets| == i)
  }

  lemma EmptyTableInv<K(!new), V>(size: nat, h: K -> nat)
    requires size == 0 || IsPow2(size)
    ensures TableInv(EmptyTable<K, V>(size), h)
    ensures forall k :: TableFind(EmptyTable<K, V>(size), h, k) == None
  {
    TotalZero(EmptyTable<K, V>(size).buckets);
  }

  lemma TableInsertFind<K(!new), V>(t: Table<K, V>, h: K -> nat, e: Entry<K, V>)
    requires TableInv(t, h) && t.buckets != [] && TableFind(t, h, e.key).None?
    ensures TableInv(TableInsert(t, h, e), h)
    ensures forall q :: TableFind(TableInsert(t, h, e), h, q) ==
                        if q == e.key then Some(e.val) else TableFind(t, h, q)
  {
    var i := h(e.key) % |t.buckets|;
    TotalUpdate(t.buckets, i, [e] + t.buckets[i]);
    forall q ensures ChainFind([e] + t.buckets[i], q) ==
                     if q == e.key then Some(e.val) else ChainFind(t.buckets[i], q) {
      ChainPush(e, t.buckets[i], q);
    }
    ChainPush(e, t.buckets[i], e.key);
  }

  lemma TableFindUsed<K(!new), V>(t: Table<K, V>, h: K -> nat, k: K)
    requires TableInv(t, h) && TableFind(t, h, k).Some?
    ensures t.used > 0
  {
    TotalZero(t.buckets);
  }

  lemma TableRemoveFind<K(!new), V>(t: Table<K, V>, h: K -> nat, k: K)
    requires TableInv(t, h) && TableFind(t, h, k).Some?
    ensures t.used > 0
    ensures TableInv(TableRemove(t, h, k), h)
    ensures forall q :: TableFind(TableRemove(t, h, k), h, q) ==
                        if q == k then None else TableFind(t, h, q)
  {
    TableFindUsed(t, h, k);
    var i := h(k) % |t.buckets|;
    var c := t.buckets[i];
    TotalUpdate(t.buckets, i, ChainRemove(c, k));
    forall q ensures ChainFind(ChainRemove(c, k), q) == if q == k then None else ChainFind(c, q) {
      ChainRemoveFind(c, k, q);
    }
    ChainRemoveFind(c, k, k);
  }

  lemma TableUpdateFind<K(!new), V>(t: Table<K, V>, h: K -> nat, k: K, v: V)
    requires TableInv(t, h) && TableFind(t, h, k).Some?
    ensures TableInv(TableUpdate(t, h, k, v), h)
    ensures forall q :: TableFind(TableUpdate(t, h, k, v), h, q) ==
                        if q == k then Some(v) else TableFind(t, h, q)
  {
    var i := h(k) % |t.buckets|;
    var c := t.buckets[i];
    TotalUpdate(t.buckets, i, ChainUpdate(c, k, v));
    forall q ensures ChainFind(ChainUpdate(c, k, v), q) == if q == k then Some(v) else ChainFind(c, q) {
      ChainUpdateFind(c, k, v, q);
    }
    ChainUpdateFind(c, k, v, k);
  }

  // ----- the dictionary -------------------------------------------------------

  function EmptyDict<K, V>(): Dict<K, V> {
    Dict(Table([], 0), Table([], 0), -1, 0)
  }

  predicate IsRehashing<K, V>(d: Dict<K, V>) {
    d.rehashidx != -1
  }

  function Lookup<K(==), V>(d: Dict<K, V>, h: K -> nat, k: K): Option<V> {
    var r := TableFind(d.t0, h, k);
    if r.Some? then r else TableFind(d.t1, h, k)
  }

  /** What every operation keeps: both tables well formed, no key in both, the second
      table present exactly while rehashing, and every bucket below rehashidx empty. */
  ghost predicate Inv<K(!new), V>(d: Dict<K, V>, h: K -> nat) {
    && TableInv(d.t0, h)
    && TableInv(d.t1, h)
    && (forall k :: TableFind(d.t0, h, k).None? || TableFind(d.t1, h, k).None?)
    && -1 <= d.rehashidx
    && (d.rehashidx == -1 ==> d.t1 == Table([], 0))
    && (d.rehashidx >= 0 ==>
          && d.t0.buckets != [] && d.t1.buckets != []
          && d.rehashidx <= |d.t0.buckets|
          && forall i :: 0 <= i < d.rehashidx ==> d.t0.buckets[i] == [])
  }

  /** d stores exactly the finite map m. */
  ghost predicate Represents<K(!new), V>(d: Dict<K, V>, h: K -> nat, m: map<K, V>) {
    && d.t0.used + d.t1.used == |m|
    && forall k :: Lookup(d, h, k) == if k in m then Some(m[k]) else None
  }

  // ----- resizing -------------------------------------------------------------

  /** Doubles i until it reaches size. */
  function NextPowerFrom(i: nat, size: nat): (p: nat)
    requires i > 0
    decreases size - i
  {
    if i >= size then i else NextPowerFrom(2 * i, size)
  }

  function NextPower(size: nat): nat {
    NextPowerFrom(INITIAL_SIZE, size)
  }

  lemma {:induction false} NextPowerFromIsPower(i: nat, size: nat)
    requires i > 0 && IsPow2(i)
    ensures IsPow2(NextPowerFrom(i, size)) && NextPowerFrom(i, size) >= size
    ensures NextPowerFrom(i, size) >= i
    ensures NextPowerFrom(i, size) == i || NextPowerFrom(i, size) < 2 * size
    decreases size - i
  {
    if i < size {
      var e: nat :| i == Pow2(e);
      assert 2 * i == Pow2(e + 1);
      NextPowerFromIsPower(2 * i, size);
    }
  }

  lemma {:induction false} NextPowerFromIsLeast(i: nat, size: nat, q: nat)
    requires i > 0 && IsPow2(i) && IsPow2(q) && q >= i && q >= size
    ensures NextPowerFrom(i, size) <= q
    decreases size - i
  {
    if i < size {
      var a: nat :| i == Pow2(a);
      var b: nat :| q == Pow2(b);
      assert b > a by { if b <= a { Pow2Monotone(b, a); } }
      Pow2Monotone(a + 1, b);
      assert 2 * i == Pow2(a + 1);
      NextPowerFromIsLeast(2 * i, size, q);
    }
  }

  lemma NextPowerIsLeast(size: nat)
    ensures forall q: nat :: IsPow2(q) && q >= size && q >= INITIAL_SIZE ==> NextPower(size) <= q
  {
    assert INITIAL_SIZE == Pow2(2);
    forall q: nat | IsPow2(q) && q >= size && q >= INITIAL_SIZE ensures NextPower(size) <= q {
      NextPowerFromIsLeast(INITIAL_SIZE, size, q);
    }
  }

  lemma NextPowerIsPower(size: nat)
    ensures IsPow2(NextPower(size)) && NextPower(size) >= size && NextPower(size) >= INITIAL_SIZE
    ensures size > INITIAL_SIZE ==> NextPower(size) < 2 * size
  {
    assert INITIAL_SIZE == Pow2(2);
    NextPowerFromIsPower(INITIAL_SIZE, size);
  }

  /** dictExpand: returns the new state and whether it succeeded. */
  function Expand<K, V>(d: Dict<K, V>, size: nat): (Dict<K, V>, bool) {
    var fit := NextPower(size);
    if IsRehashing(d) || d.t0.used > size then (d, false)
    else if fit == |d.t0.buckets| then (d, false)
    else if d.t0.buckets == [] then (d.(t0 := EmptyTable(fit)), true)
    else (d.(t1 := EmptyTable(fit), rehashidx := 0), true)
  }

  /** dictResize: shrink or grow to the smallest size that holds the entries. */
  function Resize<K, V>(d: Dict<K, V>, canResize: bool): (Dict<K, V>, bool) {
    if !canResize || IsRehashing(d) then (d, false)
    else Expand(d, if d.t0.used < INITIAL_SIZE then INITIAL_SIZE else d.t0.used)
  }

  function ExpandIfNeeded<K, V>(d: Dict<K, V>, canResize: bool): (Dict<K, V>, bool) {
    if IsRehashing(d) then (d, true)
    else if d.t0.buckets == [] then Expand(d, INITIAL_SIZE)
    else if d.t0.used >= |d.t0.buckets| &&
            (canResize || d.t0.used / |d.t0.buckets| > FORCE_RESIZE_RATIO)
    then Expand(d, d.t0.used * 2)
    else (d, true)
  }

  lemma ExpandKeeps<K(!new), V>(d: Dict<K, V>, h: K -> nat, size: nat)
    requires Inv(d, h)
    ensures var d' := Expand(d, size).0;
            && Inv(d', h)
            && (forall k :: Lookup(d', h, k) == Lookup(d, h, k))
            && d'.t0.used + d'.t1.used == d.t0.used + d.t1.used
            && d'.iterators == d.iterators
  {
    NextPowerIsPower(size);
    EmptyTableInv<K, V>(NextPower(size), h);
    assert d.t0.buckets == [] ==> forall k :: Lookup(d, h, k) == None;
  }

  /** dictExpand is refused, and changes nothing, while rehashing, for a size below the number
      of entries and for the size the table has.  Otherwise a table of the least power of two
      that is at least 4 and at least the size becomes the first one, or the target of a new
      migration. */
  lemma ExpandSucceedsExactly<K, V>(d: Dict<K, V>, size: nat)
    ensures var (d', ok) := Expand(d, size);
            && (ok <==> !IsRehashing(d) && d.t0.used <= size && |d.t0.buckets| != NextPower(size))
            && (!ok ==> d' == d)
            && (ok ==> var t := if d.t0.buckets == [] then d'.t0 else d'.t1;
                       && t.used == 0 && |t.buckets| == NextPower(size) && Total(t.buckets) == 0
                       && (IsRehashing(d') <==> d.t0.buckets != []))
    ensures IsPow2(NextPower(size)) && NextPower(size) >= size && NextPower(size) >= INITIAL_SIZE
    ensures forall q: nat :: IsPow2(q) && q >= size && q >= INITIAL_SIZE ==> NextPower(size) <= q
  {
    NextPowerIsPower(size);
    NextPowerIsLeast(size);
    EmptyTotal<K, V>(NextPower(size));
  }

  lemma {:induction false} EmptyTotal<K, V>(n: nat)
    ensures Total(EmptyTable<K, V>(n).buckets) == 0
  {
    if n > 0 {
      EmptyTotal<K, V>(n - 1);
      assert EmptyTable<K, V>(n).buckets[1..] == EmptyTable<K, V>(n - 1).buckets;
    }
  }

  lemma ResizeKeeps<K(!new), V>(d: Dict<K, V>, h: K -> nat, canResize: bool)
    requires Inv(d, h)
    ensures var d' := Resize(d, canResize).0;
            && Inv(d', h)
            && (forall k :: Lookup(d', h, k) == Lookup(d, h, k))
            && d'.t0.used + d'.t1.used == d.t0.used + d.t1.used
            && d'.iterators == d.iterators
  {
    ExpandKeeps(d, h, if d.t0.used < INITIAL_SIZE then INITIAL_SIZE else d.t0.used);
  }

  /** Growing on demand never reports an error, and leaves a first table to insert into. */
  lemma ExpandIfNeededSucceeds<K(!new), V>(d: Dict<K, V>, h: K -> nat, canResize: bool)
    requires Inv(d, h)
    ensures var (d', ok) := ExpandIfNeeded(d, canResize);
            && ok && Inv(d', h) && d'.t0.buckets != []
            && (forall k :: Lookup(d', h, k) == Lookup(d, h, k))
            && d'.t0.used + d'.t1.used == d.t0.used + d.t1.used
            && d'.iterators == d.iterators
  {
    ExpandKeeps(d, h, INITIAL_SIZE);
    ExpandKeeps(d, h, d.t0.used * 2);
    NextPowerIsPower(d.t0.used * 2);
    NextPowerIsPower(INITIAL_SIZE);
    TotalZero(d.t0.buckets);
  }

  // ----- incremental rehashing ------------------------------------------------

  /** Pushes the entries of a chain, head first, onto their buckets of t. */
  function MoveChain<K(==), V>(c: Chain<K, V>, t: Table<K, V>, h: K -> nat): (r: Table<K, V>)
    requires t.buckets != []
    ensures |r.buckets| == |t.buckets| && r.used == t.used + |c|
  {
    if c == [] then t else MoveChain(c[1..], TableInsert(t, h, c[0]), h)
  }

  lemma {:induction false} MoveChainFind<K(!new), V>(c: Chain<K, V>, t: Table<K, V>, h: K -> nat)
    requires TableInv(t, h) && t.buckets != [] && DistinctKeys(c)
    requires forall k :: ChainFind(c, k).None? || TableFind(t, h, k).None?
    ensures TableInv(MoveChain(c, t, h), h)
    ensures forall k :: TableFind(MoveChain(c, t, h), h, k) ==
                        if ChainFind(c, k).Some? then ChainFind(c, k) else TableFind(t, h, k)
  {
    if c != [] {
      var e := c[0];
      assert ChainFind(c, e.key).Some?;
      TableInsertFind(t, h, e);
      forall k ensures ChainFind(c, k) == if k == e.key then Some(e.val) else ChainFind(c[1..], k) {}
      forall k ensures ChainFind(c[1..], k).None? || TableFind(TableInsert(t, h, e), h, k).None? {
        assert k == e.key ==> ChainFind(c[1..], k).None?;
      }
      MoveChainFind(c[1..], TableInsert(t, h, e), h);
    }
  }

  /** Migrates the whole bucket at rehashidx and steps past it. */
  function MoveBucket<K(==), V>(d: Dict<K, V>, h: K -> nat): (d': Dict<K, V>)
    requires 0 <= d.rehashidx < |d.t0.buckets| && d.t1.buckets != []
    requires |d.t0.buckets[d.rehashidx]| <= d.t0.used
  {
    var c := d.t0.buckets[d.rehashidx];
    Dict(Table(d.t0.buckets[d.rehashidx := []], d.t0.used - |c|),
         MoveChain(c, d.t1, h), d.rehashidx + 1, d.iterators)
  }

  lemma MoveBucketKeeps<K(!new), V>(d: Dict<K, V>, h: K -> nat)
    requires Inv(d, h) && 0 <= d.rehashidx < |d.t0.buckets|
    ensures |d.t0.buckets[d.rehashidx]| <= d.t0.used
    ensures var d' := MoveBucket(d, h);
            && Inv(d', h)
            && (forall k :: Lookup(d', h, k) == Lookup(d, h, k))
            && d'.t0.used + d'.t1.used == d.t0.used + d.t1.used
  {
    var i := d.rehashidx;
    var c := d.t0.buckets[i];
    TotalUpdate(d.t0.buckets, i, []);
    forall k ensures ChainFind(c, k).None? || TableFind(d.t1, h, k).None? {
      assert ChainFind(c, k).Some? ==> h(k) % |d.t0.buckets| == i;
    }
    MoveChainFind(c, d.t1, h);
    var d' := MoveBucket(d, h);
    forall k ensures TableFind(d'.t0, h, k) == if h(k) % |d.t0.buckets| == i then None else TableFind(d.t0, h, k) {}
    forall k ensures ChainFind(c, k) == if h(k) % |d.t0.buckets| == i then TableFind(d.t0, h, k) else None {}
  }

  /** Index of the first non-empty bucket from i on, and the empty visits left; the walk
      stops early, with no visits left, when the allowance runs out. */
  function SkipEmpty<K, V>(b: seq<Chain<K, V>>, i: nat, visits: nat): (r: (nat, nat))
    requires i <= |b| && visits > 0
    ensures i <= r.0 <= |b| && r.1 <= visits
    ensures forall j :: i <= j < r.0 ==> b[j] == []
    ensures r.1 > 0 ==> r.0 == |b| || b[r.0] != []
    ensures r.1 == 0 ==> r.0 > i
    decreases |b| - i
  {
    if i < |b| && b[i] == [] then
      if visits == 1 then (i + 1, 0) else SkipEmpty(b, i + 1, visits - 1)
    else (i, visits)
  }

  /** Installs the second table once the first one holds nothing. */
  function FinishRehash<K, V>(d: Dict<K, V>): Dict<K, V> {
    if d.t0.used == 0 then Dict(d.t1, Table([], 0), -1, d.iterators) else d
  }

  /** The outer loop of dictRehash with n bucket moves and `visits` empty visits left. */
  function RehashLoop<K(==), V>(d: Dict<K, V>, h: K -> nat, n: nat, visits: nat): Dict<K, V>
    requires 0 <= d.rehashidx <= |d.t0.buckets| && d.t1.buckets != [] && visits > 0
    decreases n
  {
    if n == 0 || d.t0.used == 0 then FinishRehash(d)
    else
      var (i, left) := SkipEmpty(d.t0.buckets, d.rehashidx, visits);
      var d1 := d.(rehashidx := i);
      if left == 0 || i == |d.t0.buckets| || |d.t0.buckets[i]| > d.t0.used then d1
      else RehashLoop(MoveBucket(d1, h), h, n - 1, left)
  }

  lemma RehashLoopEnds<K, V>(d: Dict<K, V>, h: K -> nat, n: nat, visits: nat)
    requires 0 <= d.rehashidx <= |d.t0.buckets| && d.t1.buckets != [] && visits > 0
    requires n == 0 || d.t0.used == 0
    ensures RehashLoop(d, h, n, visits) == FinishRehash(d)
  {
  }

  /** dictRehash(d, n). */
  function Rehash<K(==), V>(d: Dict<K, V>, h: K -> nat, n: nat): Dict<K, V>
    requires IsRehashing(d) ==> 0 <= d.rehashidx <= |d.t0.buckets| && d.t1.buckets != []
  {
    if !IsRehashing(d) then d
    else if n == 0 then FinishRehash(d)
    else RehashLoop(d, h, n, 10 * n)
  }

  lemma SomeBucketLeft<K(!new), V>(d: Dict<K, V>, h: K -> nat)
    requires Inv(d, h) && d.rehashidx >= 0 && d.t0.used != 0
    ensures d.rehashidx < |d.t0.buckets|
    ensures exists i :: d.rehashidx <= i < |d.t0.buckets| && d.t0.buckets[i] != []
  {
    TotalZero(d.t0.buckets);
  }

  /** d' is d after some migration: same contents, same iterators, and the migration is
      either over or at a later bucket of the same first table. */
  ghost predicate Migrated<K(!new), V>(d: Dict<K, V>, d': Dict<K, V>, h: K -> nat) {
    && Inv(d', h)
    && (forall k :: Lookup(d', h, k) == Lookup(d, h, k))
    && d'.t0.used + d'.t1.used == d.t0.used + d.t1.used
    && d'.iterators == d.iterators
    && (IsRehashing(d') ==> |d'.t0.buckets| == |d.t0.buckets|
                            && |d'.t1.buckets| == |d.t1.buckets|
                            && d.rehashidx <= d'.rehashidx)
    && (IsRehashing(d) && !IsRehashing(d') ==> |d'.t0.buckets| == |d.t1.buckets|)
  }

  lemma FinishRehashKeeps<K(!new), V>(d: Dict<K, V>, h: K -> nat)
    requires Inv(d, h) && d.rehashidx >= 0
    ensures Migrated(d, FinishRehash(d), h)
  {
    TotalZero(d.t0.buckets);
    EmptyTableInv<K, V>(0, h);
    assert EmptyTable<K, V>(0) == Table([], 0);
  }

  lemma MigratedTrans<K(!new), V>(d: Dict<K, V>, d1: Dict<K, V>, d2: Dict<K, V>, h: K -> nat)
    requires Migrated(d, d1, h) && Migrated(d1, d2, h) && IsRehashing(d1)
    ensures Migrated(d, d2, h)
  {
  }

  /** Skipping empty buckets, which ends at a bucket that holds an entry or when the visits run
      out. */
  lemma SkipKeeps<K(!new), V>(d: Dict<K, V>, h: K -> nat, visits: nat, i: nat, left: nat)
    requires Inv(d, h) && d.rehashidx >= 0 && d.t0.used != 0 && visits > 0
    requires (i, left) == SkipEmpty(d.t0.buckets, d.rehashidx, visits)
    ensures Migrated(d, d.(rehashidx := i), h)
    ensures left == 0 ==> i > d.rehashidx
    ensures left > 0 ==> i < |d.t0.buckets| && d.t0.buckets[i] != []
  {
    SomeBucketLeft(d, h);
  }

  lemma MoveMigrates<K(!new), V>(d: Dict<K, V>, h: K -> nat)
    requires Inv(d, h) && 0 <= d.rehashidx < |d.t0.buckets|
    ensures |d.t0.buckets[d.rehashidx]| <= d.t0.used
    ensures Migrated(d, MoveBucket(d, h), h) && MoveBucket(d, h).rehashidx == d.rehashidx + 1
  {
    MoveBucketKeeps(d, h);
  }

  /** d' is d after the loop of a call with n: later in the migration if n > 0, or done. */
  ghost predicate Looped<K(!new), V>(d: Dict<K, V>, d': Dict<K, V>, h: K -> nat, n: nat) {
    Migrated(d, d', h) && (IsRehashing(d') ==> d'.t0.used != 0 && (n > 0 ==> d.rehashidx < d'.rehashidx))
  }

  /** One turn of the loop that reaches a bucket. */
  lemma TurnMigrates<K(!new), V>(d: Dict<K, V>, h: K -> nat, visits: nat, i: nat, left: nat)
    requires Inv(d, h) && d.rehashidx >= 0 && d.t0.used != 0 && visits > 0 && left > 0
    requires (i, left) == SkipEmpty(d.t0.buckets, d.rehashidx, visits)
    ensures i < |d.t0.buckets| && |d.t0.buckets[i]| <= d.t0.used
    ensures var d' := MoveBucket(d.(rehashidx := i), h);
            Migrated(d, d', h) && d.rehashidx < d'.rehashidx && IsRehashing(d')
  {
    var d1 := d.(rehashidx := i);
    SkipKeeps(d, h, visits, i, left);
    MoveMigrates(d1, h);
    MigratedTrans(d, d1, MoveBucket(d1, h), h);
  }

  lemma TurnThenRest<K(!new), V>(d: Dict<K, V>, d2: Dict<K, V>, d': Dict<K, V>, h: K -> nat, n: nat)
    requires n > 0 && Migrated(d, d2, h) && d.rehashidx < d2.rehashidx && IsRehashing(d2)
    requires Looped(d2, d', h, n - 1)
    ensures Looped(d, d', h, n)
  {
    MigratedTrans(d, d2, d', h);
  }

  lemma {:induction false} RehashLoopKeeps<K(!new), V>(d: Dict<K, V>, h: K -> nat, n: nat, visits: nat)
    requires Inv(d, h) && d.rehashidx >= 0 && visits > 0
    ensures Looped(d, RehashLoop(d, h, n, visits), h, n)
    decreases n
  {
    if n == 0 || d.t0.used == 0 {
      FinishRehashKeeps(d, h);
    } else {
      var (i, left) := SkipEmpty(d.t0.buckets, d.rehashidx, visits);
      SkipKeeps(d, h, visits, i, left);
      if left > 0 {
        TurnMigrates(d, h, visits, i, left);
        var d2 := MoveBucket(d.(rehashidx := i), h);
        RehashLoopKeeps(d2, h, n - 1, left);
        TurnThenRest(d, d2, RehashLoop(d2, h, n - 1, left), h, n);
      }
    }
  }

  /** A rehash call leaves the stored map alone, and a call with n > 0 on a table that is
      being migrated makes progress: it ends the migration or advances rehashidx, be it only
      past empty buckets. */
  lemma RehashKeeps<K(!new), V>(d: Dict<K, V>, h: K -> nat, n: nat)
    requires Inv(d, h)
    ensures Migrated(d, Rehash(d, h, n), h)
    ensures n > 0 && IsRehashing(d) && IsRehashing(Rehash(d, h, n))
            ==> d.rehashidx < Rehash(d, h, n).rehashidx && Rehash(d, h, n).rehashidx < |d.t0.buckets|
  {
    if IsRehashing(d) {
      if n == 0 {
        FinishRehashKeeps(d, h);
      } else {
        RehashLoopKeeps(d, h, n, 10 * n);
        if IsRehashing(Rehash(d, h, n)) {
          SomeBucketLeft(Rehash(d, h, n), h);
        }
      }
    }
  }

  /** The rehash step that ordinary operations perform: one bucket, and none at all while
      a safe iterator is live. */
  function Stepped<K(==, !new), V>(d: Dict<K, V>, h: K -> nat): Dict<K, V>
    requires Inv(d, h)
  {
    if IsRehashing(d) && d.iterators == 0 then Rehash(d, h, 1) else d
  }

  lemma SteppedKeeps<K(!new), V>(d: Dict<K, V>, h: K -> nat)
    requires Inv(d, h)
    ensures Migrated(d, Stepped(d, h), h)
  {
    RehashKeeps(d, h, 1);
  }

  // ----- operations -----------------------------------------------------------

  /** Puts an absent key into the table that takes new entries. */
  function Insert<K(==, !new), V>(d: Dict<K, V>, h: K -> nat, k: K, v: V): Dict<K, V>
    requires Inv(d, h) && (if IsRehashing(d) then d.t1 else d.t0).buckets != []
  {
    if IsRehashing(d) then d.(t1 := TableInsert(d.t1, h, Entry(k, v)))
    else d.(t0 := TableInsert(d.t0, h, Entry(k, v)))
  }

  /** dictAdd: refuses a key that is already stored, otherwise pushes the new entry onto
      the table that is being filled. */
  function Add<K(==, !new), V>(d: Dict<K, V>, h: K -> nat, canResize: bool, k: K, v: V): (Dict<K, V>, bool)
    requires Inv(d, h)
  {
    SteppedKeeps(d, h);
    var d1 := Stepped(d, h);
    ExpandIfNeededSucceeds(d1, h, canResize);
    var (d2, ok) := ExpandIfNeeded(d1, canResize);
    if !ok || Lookup(d2, h, k).Some? then (d2, false) else (Insert(d2, h, k, v), true)
  }

  function Find<K(==, !new), V>(d: Dict<K, V>, h: K -> nat, k: K): (Dict<K, V>, Option<V>)
    requires Inv(d, h)
  {
    if d.t0.used + d.t1.used == 0 then (d, None)
    else (Stepped(d, h), Lookup(Stepped(d, h), h, k))
  }

  /** Overwrites the value stored under k, wherever its entry is. */
  function Overwrite<K(==, !new), V>(d: Dict<K, V>, h: K -> nat, k: K, v: V): Dict<K, V>
    requires Inv(d, h)
  {
    if TableFind(d.t0, h, k).Some? then d.(t0 := TableUpdate(d.t0, h, k, v))
    else if TableFind(d.t1, h, k).Some? then d.(t1 := TableUpdate(d.t1, h, k, v))
    else d
  }

  /** dictReplace: add, or find (with one more rehash step) and overwrite. */
  function Replace<K(==, !new), V>(d: Dict<K, V>, h: K -> nat, canResize: bool, k: K, v: V): (Dict<K, V>, bool)
    requires Inv(d, h)
  {
    AddKeeps(d, h, canResize, k, v);
    var (d1, added) := Add(d, h, canResize, k, v);
    if added then (d1, true)
    else
      SteppedKeeps(d1, h);
      (Overwrite(Find(d1, h, k).0, h, k, v), false)
  }

  /** Unlinks k from the table that has it. */
  function Remove<K(==, !new), V>(d: Dict<K, V>, h: K -> nat, k: K): (Dict<K, V>, bool)
    requires Inv(d, h)
  {
    if TableFind(d.t0, h, k).Some? then
      TableFindUsed(d.t0, h, k);
      (d.(t0 := TableRemove(d.t0, h, k)), true)
    else if IsRehashing(d) && TableFind(d.t1, h, k).Some? then
      TableFindUsed(d.t1, h, k);
      (d.(t1 := TableRemove(d.t1, h, k)), true)
    else (d, false)
  }

  /** dictDelete. */
  function Delete<K(==, !new), V>(d: Dict<K, V>, h: K -> nat, k: K): (Dict<K, V>, bool)
    requires Inv(d, h)
  {
    if d.t0.buckets == [] then (d, false)
    else
      SteppedKeeps(d, h);
      Remove(Stepped(d, h), h, k)
  }

  lemma InsertFirst<K(!new), V>(d: Dict<K, V>, h: K -> nat, k: K, v: V)
    requires Inv(d, h) && !IsRehashing(d) && d.t0.buckets != [] && Lookup(d, h, k).None?
    ensures Inv(d.(t0 := TableInsert(d.t0, h, Entry(k, v))), h)
  {
    TableInsertFind(d.t0, h, Entry(k, v));
  }

  lemma InsertBelow<K(!new), V>(d: Dict<K, V>, h: K -> nat, k: K, v: V)
    requires Inv(d, h) && IsRehashing(d) && Lookup(d, h, k).None?
    ensures Inv(d.(t1 := TableInsert(d.t1, h, Entry(k, v))), h)
  {
    TableInsertFind(d.t1, h, Entry(k, v));
  }

  lemma InsertKeeps<K(!new), V>(d: Dict<K, V>, h: K -> nat, k: K, v: V)
    requires Inv(d, h) && d.t0.buckets != [] && Lookup(d, h, k).None?
    ensures var d' := Insert(d, h, k, v);
            && (forall q :: Lookup(d', h, q) == if q == k then Some(v) else Lookup(d, h, q))
            && d'.t0.used + d'.t1.used == d.t0.used + d.t1.used + 1
            && d'.iterators == d.iterators
    ensures Inv(Insert(d, h, k, v), h)
  {
    if IsRehashing(d) {
      TableInsertFind(d.t1, h, Entry(k, v));
      InsertBelow(d, h, k, v);
    } else {
      TableInsertFind(d.t0, h, Entry(k, v));
      InsertFirst(d, h, k, v);
    }
  }

  lemma AddKeeps<K(!new), V>(d: Dict<K, V>, h: K -> nat, canResize: bool, k: K, v: V)
    requires Inv(d, h)
    ensures var (d', ok) := Add(d, h, canResize, k, v);
            && Inv(d', h)
            && (ok <==> Lookup(d, h, k).None?)
            && (forall q :: Lookup(d', h, q) == if ok && q == k then Some(v) else Lookup(d, h, q))
            && d'.t0.used + d'.t1.used == d.t0.used + d.t1.used + (if ok then 1 else 0)
            && d'.iterators == d.iterators
  {
    SteppedKeeps(d, h);
    var d1 := Stepped(d, h);
    ExpandIfNeededSucceeds(d1, h, canResize);
    var d2 := ExpandIfNeeded(d1, canResize).0;
    if Lookup(d2, h, k).None? { InsertKeeps(d2, h, k, v); }
  }

  lemma FindKeeps<K(!new), V>(d: Dict<K, V>, h: K -> nat, k: K)
    requires Inv(d, h)
    ensures Migrated(d, Find(d, h, k).0, h)
    ensures Find(d, h, k).1 == Lookup(d, h, k)
  {
    SteppedKeeps(d, h);
    TotalZero(d.t0.buckets);
    TotalZero(d.t1.buckets);
  }

  lemma OverwriteKeeps<K(!new), V>(d: Dict<K, V>, h: K -> nat, k: K, v: V)
    requires Inv(d, h)
    ensures var d' := Overwrite(d, h, k, v);
            && Inv(d', h)
            && (forall q :: Lookup(d', h, q) ==
                  if q == k && Lookup(d, h, k).Some? then Some(v) else Lookup(d, h, q))
            && d'.t0.used == d.t0.used && d'.t1.used == d.t1.used
            && d'.iterators == d.iterators
  {
    if TableFind(d.t0, h, k).Some? {
      TableUpdateFind(d.t0, h, k, v);
      KeepsEmptyBelow(d, h, k);
    } else if TableFind(d.t1, h, k).Some? {
      TableUpdateFind(d.t1, h, k, v);
    }
  }

  /** An entry of the first table lies at or above rehashidx. */
  lemma KeepsEmptyBelow<K(!new), V>(d: Dict<K, V>, h: K -> nat, k: K)
    requires Inv(d, h) && TableFind(d.t0, h, k).Some?
    ensures d.rehashidx <= h(k) % |d.t0.buckets|
  {
  }

  lemma RemoveFirst<K(!new), V>(d: Dict<K, V>, h: K -> nat, k: K)
    requires Inv(d, h) && TableFind(d.t0, h, k).Some?
    ensures d.t0.used > 0 && Inv(d.(t0 := TableRemove(d.t0, h, k)), h)
    ensures forall q :: Lookup(d.(t0 := TableRemove(d.t0, h, k)), h, q) == if q == k then None else Lookup(d, h, q)
  {
    TableRemoveFind(d.t0, h, k);
    KeepsEmptyBelow(d, h, k);
  }

  lemma RemoveSecond<K(!new), V>(d: Dict<K, V>, h: K -> nat, k: K)
    requires Inv(d, h) && TableFind(d.t0, h, k).None? && TableFind(d.t1, h, k).Some?
    ensures d.t1.used > 0 && IsRehashing(d) && Inv(d.(t1 := TableRemove(d.t1, h, k)), h)
    ensures forall q :: Lookup(d.(t1 := TableRemove(d.t1, h, k)), h, q) == if q == k then None else Lookup(d, h, q)
  {
    TableRemoveFind(d.t1, h, k);
  }

  lemma ReplaceKeeps<K(!new), V>(d: Dict<K, V>, h: K -> nat, canResize: bool, k: K, v: V)
    requires Inv(d, h)
    ensures var (d', added) := Replace(d, h, canResize, k, v);
            && Inv(d', h)
            && (added <==> Lookup(d, h, k).None?)
            && (forall q :: Lookup(d', h, q) == if q == k then Some(v) else Lookup(d, h, q))
            && d'.t0.used + d'.t1.used == d.t0.used + d.t1.used + (if added then 1 else 0)
            && d'.iterators == d.iterators
  {
    AddKeeps(d, h, canResize, k, v);
    var (d1, added) := Add(d, h, canResize, k, v);
    if !added {
      FindKeeps(d1, h, k);
      OverwriteKeeps(Find(d1, h, k).0, h, k, v);
    }
  }

  lemma RemoveKeeps<K(!new), V>(d: Dict<K, V>, h: K -> nat, k: K)
    requires Inv(d, h)
    ensures var (d', ok) := Remove(d, h, k);
            && Inv(d', h)
            && (ok <==> Lookup(d, h, k).Some?)
            && (forall q :: Lookup(d', h, q) == if q == k then None else Lookup(d, h, q))
            && d'.t0.used + d'.t1.used == d.t0.used + d.t1.used - (if ok then 1 else 0)
            && d'.iterators == d.iterators
  {
    if TableFind(d.t0, h, k).Some? {
      RemoveFirst(d, h, k);
    } else if TableFind(d.t1, h, k).Some? {
      RemoveSecond(d, h, k);
    }
  }

  lemma DeleteKeeps<K(!new), V>(d: Dict<K, V>, h: K -> nat, k: K)
    requires Inv(d, h)
    ensures var (d', ok) := Delete(d, h, k);
            && Inv(d', h)
            && (ok <==> Lookup(d, h, k).Some?)
            && (forall q :: Lookup(d', h, q) == if q == k then None else Lookup(d, h, q))
            && d'.t0.used + d'.t1.used == d.t0.used + d.t1.used - (if ok then 1 else 0)
            && d'.iterators == d.iterators
  {
    if d.t0.buckets != [] {
      SteppedKeeps(d, h);
      RemoveKeeps(Stepped(d, h), h, k);
    }
  }

  // ----- runs -----------------------------------------------------------------

  datatype Op<K, V> =
    | AddOp(k: K, v: V)
    | ReplaceOp(k: K, v: V)
    | FindOp(k: K)
    | DeleteOp(k: K)
    | ExpandOp(size: nat)
    | ResizeOp
    | RehashOp(n: nat)

  /** What an operation tells its caller about the stored map. */
  datatype Answer<V> = Flag(ok: bool) | Value(found: Option<V>) | Silent

  /** One call, with the global dict_can_resize as the call finds it. */
  datatype Call<K, V> = Call(op: Op<K, V>, canResize: bool)

  function Exec<K(==, !new), V>(d: Dict<K, V>, h: K -> nat, c: Call<K, V>): (Dict<K, V>, Answer<V>)
    requires Inv(d, h)
  {
    match c.op
    case AddOp(k, v) => var (d', ok) := Add(d, h, c.canResize, k, v); (d', Flag(ok))
    case ReplaceOp(k, v) => var (d', added) := Replace(d, h, c.canResize, k, v); (d', Flag(added))
    case FindOp(k) => var (d', r) := Find(d, h, k); (d', Value(r))
    case DeleteOp(k) => var (d', ok) := Delete(d, h, k); (d', Flag(ok))
    case ExpandOp(size) => (Expand(d, size).0, Silent)
    case ResizeOp => (Resize(d, c.canResize).0, Silent)
    case RehashOp(n) => (Rehash(d, h, n), Silent)
  }

  function Without<K, V>(m: map<K, V>, k: K): map<K, V> {
    m - {k}
  }

  /** The same call on a finite map. */
  function MapExec<K, V>(m: map<K, V>, op: Op<K, V>): (map<K, V>, Answer<V>) {
    match op
    case AddOp(k, v) => if k in m then (m, Flag(false)) else (m[k := v], Flag(true))
    case ReplaceOp(k, v) => (m[k := v], Flag(k !in m))
    case FindOp(k) => (m, Value(if k in m then Some(m[k]) else None))
    case DeleteOp(k) => (Without(m, k), Flag(k in m))
    case ExpandOp(_) => (m, Silent)
    case ResizeOp => (m, Silent)
    case RehashOp(_) => (m, Silent)
  }

  lemma UnchangedRepresents<K(!new), V>(d: Dict<K, V>, d': Dict<K, V>, h: K -> nat, m: map<K, V>)
    requires Represents(d, h, m)
    requires d'.t0.used + d'.t1.used == d.t0.used + d.t1.used
    requires forall q :: Lookup(d', h, q) == Lookup(d, h, q)
    ensures Represents(d', h, m)
  {
  }

  lemma PutRepresents<K(!new), V>(d: Dict<K, V>, d': Dict<K, V>, h: K -> nat, m: map<K, V>, k: K, v: V)
    requires Represents(d, h, m)
    requires d'.t0.used + d'.t1.used == d.t0.used + d.t1.used + (if Lookup(d, h, k).None? then 1 else 0)
    requires forall q :: Lookup(d', h, q) == if q == k then Some(v) else Lookup(d, h, q)
    ensures Represents(d', h, m[k := v])
  {
    assert Lookup(d, h, k).None? <==> k !in m;
    PutSize(m, k, v);
  }

  lemma PutSize<K, V>(m: map<K, V>, k: K, v: V)
    ensures |m[k := v]| == |m| + if k in m then 0 else 1
  {
    assert m[k := v].Keys == m.Keys + {k};
    assert |m[k := v].Keys| == |m[k := v]|;
  }

  lemma DropRepresents<K(!new), V>(d: Dict<K, V>, d': Dict<K, V>, h: K -> nat, m: map<K, V>, k: K)
    requires Represents(d, h, m)
    requires d'.t0.used + d'.t1.used == d.t0.used + d.t1.used - (if Lookup(d, h, k).Some? then 1 else 0)
    requires forall q :: Lookup(d', h, q) == if q == k then None else Lookup(d, h, q)
    ensures Represents(d', h, Without(m, k))
  {
    assert Lookup(d, h, k).None? <==> k !in m;
    assert (m - {k}).Keys == m.Keys - {k};
    assert |m - {k}| == |(m - {k}).Keys|;
  }

  lemma AddRefines<K(!new), V>(d: Dict<K, V>, h: K -> nat, canResize: bool, k: K, v: V, m: map<K, V>)
    requires Inv(d, h) && Represents(d, h, m)
    ensures var (d', ok) := Add(d, h, canResize, k, v);
            ok == (k !in m) && Represents(d', h, if k in m then m else m[k := v])
  {
    AddKeeps(d, h, canResize, k, v);
    var d' := Add(d, h, canResize, k, v).0;
    assert Lookup(d, h, k).None? <==> k !in m;
    if k in m { UnchangedRepresents(d, d', h, m); } else { PutRepresents(d, d', h, m, k, v); }
  }

  lemma ReplaceRefines<K(!new), V>(d: Dict<K, V>, h: K -> nat, canResize: bool, k: K, v: V, m: map<K, V>)
    requires Inv(d, h) && Represents(d, h, m)
    ensures var (d', added) := Replace(d, h, canResize, k, v);
            added == (k !in m) && Represents(d', h, m[k := v])
  {
    ReplaceKeeps(d, h, canResize, k, v);
    assert Lookup(d, h, k).None? <==> k !in m;
    PutRepresents(d, Replace(d, h, canResize, k, v).0, h, m, k, v);
  }

  lemma DeleteRefines<K(!new), V>(d: Dict<K, V>, h: K -> nat, k: K, m: map<K, V>)
    requires Inv(d, h) && Represents(d, h, m)
    ensures var (d', ok) := Delete(d, h, k);
            ok == (k in m) && Represents(d', h, Without(m, k))
  {
    DeleteKeeps(d, h, k);
    assert Lookup(d, h, k).None? <==> k !in m;
    DropRepresents(d, Delete(d, h, k).0, h, m, k);
  }

  lemma FindRefines<K(!new), V>(d: Dict<K, V>, h: K -> nat, k: K, m: map<K, V>)
    requires Inv(d, h) && Represents(d, h, m)
    ensures var (d', r) := Find(d, h, k);
            r == (if k in m then Some(m[k]) else None) && Represents(d', h, m)
  {
    FindKeeps(d, h, k);
    UnchangedRepresents(d, Find(d, h, k).0, h, m);
  }

  lemma ReorganisationRefines<K(!new), V>(d: Dict<K, V>, h: K -> nat, canResize: bool, n: nat, m: map<K, V>)
    requires Inv(d, h) && Represents(d, h, m)
    ensures Represents(Expand(d, n).0, h, m)
    ensures Represents(Resize(d, canResize).0, h, m)
    ensures Represents(Rehash(d, h, n), h, m)
  {
    ExpandKeeps(d, h, n);
    UnchangedRepresents(d, Expand(d, n).0, h, m);
    ResizeKeeps(d, h, canResize);
    UnchangedRepresents(d, Resize(d, canResize).0, h, m);
    RehashKeeps(d, h, n);
    UnchangedRepresents(d, Rehash(d, h, n), h, m);
  }

  ghost predicate Agrees<K(!new), V>(r: (Dict<K, V>, Answer<V>), h: K -> nat, s: (map<K, V>, Answer<V>)) {
    Represents(r.0, h, s.0) && r.1 == s.1
  }

  lemma AddAgrees<K(!new), V>(d: Dict<K, V>, h: K -> nat, canResize: bool, k: K, v: V, m: map<K, V>)
    requires Inv(d, h) && Represents(d, h, m)
    ensures Agrees(Exec(d, h, Call(AddOp(k, v), canResize)), h, MapExec(m, AddOp(k, v)))
  {
    AddRefines(d, h, canResize, k, v, m);
  }

  lemma ReplaceAgrees<K(!new), V>(d: Dict<K, V>, h: K -> nat, canResize: bool, k: K, v: V, m: map<K, V>)
    requires Inv(d, h) && Represents(d, h, m)
    ensures Agrees(Exec(d, h, Call(ReplaceOp(k, v), canResize)), h, MapExec(m, ReplaceOp(k, v)))
  {
    ReplaceRefines(d, h, canResize, k, v, m);
  }

  lemma DeleteAgrees<K(!new), V>(d: Dict<K, V>, h: K -> nat, canResize: bool, k: K, m: map<K, V>)
    requires Inv(d, h) && Represents(d, h, m)
    ensures Agrees(Exec(d, h, Call(DeleteOp(k), canResize)), h, MapExec(m, DeleteOp(k)))
  {
    DeleteRefines(d, h, k, m);
  }

  lemma FindAgrees<K(!new), V>(d: Dict<K, V>, h: K -> nat, canResize: bool, k: K, m: map<K, V>)
    requires Inv(d, h) && Represents(d, h, m)
    ensures Agrees(Exec(d, h, Call(FindOp(k), canResize)), h, MapExec(m, FindOp(k)))
  {
    FindRefines(d, h, k, m);
  }

  lemma ReorganisationAgrees<K(!new), V>(d: Dict<K, V>, h: K -> nat, c: Call<K, V>, m: map<K, V>)
    requires Inv(d, h) && Represents(d, h, m) && (c.op.ExpandOp? || c.op.ResizeOp? || c.op.RehashOp?)
    ensures Agrees(Exec(d, h, c), h, MapExec(m, c.op))
  {
    ReorganisationRefines(d, h, c.canResize, if c.op.ExpandOp? then c.op.size else if c.op.RehashOp? then c.op.n else 0, m);
  }

  /** Every call answers as the finite map does and keeps representing it. */
  lemma ExecRefines<K(!new), V>(d: Dict<K, V>, h: K -> nat, c: Call<K, V>, m: map<K, V>)
    requires Inv(d, h) && Represents(d, h, m)
    ensures Agrees(Exec(d, h, c), h, MapExec(m, c.op))
  {
    match c.op
    case AddOp(k, v) => AddAgrees(d, h, c.canResize, k, v, m);
    case ReplaceOp(k, v) => ReplaceAgrees(d, h, c.canResize, k, v, m);
    case FindOp(k) => FindAgrees(d, h, c.canResize, k, m);
    case DeleteOp(k) => DeleteAgrees(d, h, c.canResize, k, m);
    case _ => ReorganisationAgrees(d, h, c, m);
  }

  ghost function Run<K(!new), V>(d: Dict<K, V>, h: K -> nat, cs: seq<Call<K, V>>): (r: (Dict<K, V>, seq<Answer<V>>))
    requires Inv(d, h)
    ensures Inv(r.0, h)
    decreases |cs|
  {
    if cs == [] then (d, [])
    else
      ExecInv(d, h, cs[0]);
      var (d1, a) := Exec(d, h, cs[0]);
      var (d2, rest) := Run(d1, h, cs[1..]);
      (d2, [a] + rest)
  }

  ghost function MapRun<K, V>(m: map<K, V>, cs: seq<Call<K, V>>): (map<K, V>, seq<Answer<V>>)
    decreases |cs|
  {
    if cs == [] then (m, [])
    else
      var (m1, a) := MapExec(m, cs[0].op);
      var (m2, rest) := MapRun(m1, cs[1..]);
      (m2, [a] + rest)
  }

  lemma UpdateInv<K(!new), V>(d: Dict<K, V>, h: K -> nat, c: Call<K, V>)
    requires Inv(d, h) && (c.op.AddOp? || c.op.ReplaceOp? || c.op.DeleteOp?)
    ensures Inv(Exec(d, h, c).0, h)
    ensures Exec(d, h, c).0.iterators == d.iterators
  {
    match c.op
    case AddOp(k, v) => AddKeeps(d, h, c.canResize, k, v);
    case ReplaceOp(k, v) => ReplaceKeeps(d, h, c.canResize, k, v);
    case DeleteOp(k) => DeleteKeeps(d, h, k);
  }

  lemma ReorganisationInv<K(!new), V>(d: Dict<K, V>, h: K -> nat, c: Call<K, V>)
    requires Inv(d, h) && (c.op.ExpandOp? || c.op.ResizeOp? || c.op.RehashOp?)
    ensures Inv(Exec(d, h, c).0, h)
    ensures Exec(d, h, c).0.iterators == d.iterators
  {
    match c.op
    case ExpandOp(size) => ExpandKeeps(d, h, size);
    case ResizeOp => ResizeKeeps(d, h, c.canResize);
    case RehashOp(n) => RehashKeeps(d, h, n);
  }

  lemma ExecInv<K(!new), V>(d: Dict<K, V>, h: K -> nat, c: Call<K, V>)
    requires Inv(d, h)
    ensures Inv(Exec(d, h, c).0, h)
    ensures Exec(d, h, c).0.iterators == d.iterators
  {
    match c.op
    case FindOp(k) => FindKeeps(d, h, k);
    case ExpandOp(_) => ReorganisationInv(d, h, c);
    case ResizeOp => ReorganisationInv(d, h, c);
    case RehashOp(_) => ReorganisationInv(d, h, c);
    case _ => UpdateInv(d, h, c);
  }

  /** Refinement over whole runs: whatever the calls, the answers are those of a finite
      map, and the tables represent that map at the end. */
  lemma {:induction false} RunRefinesMap<K(!new), V>(d: Dict<K, V>, h: K -> nat, m: map<K, V>, cs: seq<Call<K, V>>)
    requires Inv(d, h) && Represents(d, h, m)
    ensures Run(d, h, cs).1 == MapRun(m, cs).1
    ensures Represents(Run(d, h, cs).0, h, MapRun(m, cs).0)
    decreases |cs|
  {
    if cs != [] {
      ExecInv(d, h, cs[0]);
      ExecRefines(d, h, cs[0], m);
      RunRefinesMap(Exec(d, h, cs[0]).0, h, MapExec(m, cs[0].op).0, cs[1..]);
    }
  }

  lemma EmptyDictRepresents<K(!new), V>(h: K -> nat)
    ensures Inv(EmptyDict<K, V>(), h)
    ensures Represents(EmptyDict<K, V>(), h, map[])
  {
    EmptyTableInv<K, V>(0, h);
    assert EmptyTable<K, V>(0) == Table([], 0);
  }

  // ----- progress of the migration --------------------------------------------

  /** Number of rehash steps a call is sure to perform. */
  function StepsOf<K(==, !new), V>(d: Dict<K, V>, c: Call<K, V>): nat {
    if !IsRehashing(d) || d.iterators != 0 then 0
    else match c.op
      case AddOp(_, _) => 1
      case ReplaceOp(_, _) => 1
      case FindOp(_) => if d.t0.used + d.t1.used == 0 then 0 else 1
      case DeleteOp(_) => 1
      case ExpandOp(_) => 0
      case ResizeOp => 0
      case RehashOp(n) => if n > 0 then 1 else 0
  }

  /** The migration under way in d ends during the call.  The same call may begin another
      one, so this is not a question about the state it leaves. */
  ghost predicate EndsMigration<K(!new), V>(d: Dict<K, V>, h: K -> nat, c: Call<K, V>)
    requires Inv(d, h)
  {
    IsRehashing(d) &&
    match c.op
    case AddOp(_, _) => !IsRehashing(Stepped(d, h))
    case ReplaceOp(k, v) =>
      AddKeeps(d, h, c.canResize, k, v);
      var (d1, added) := Add(d, h, c.canResize, k, v);
      !IsRehashing(Stepped(d, h)) || (!added && !IsRehashing(Find(d1, h, k).0))
    case FindOp(k) => !IsRehashing(Find(d, h, k).0)
    case DeleteOp(_) => !IsRehashing(Stepped(d, h))
    case ExpandOp(_) => false
    case ResizeOp => false
    case RehashOp(n) => !IsRehashing(Rehash(d, h, n))
  }

  /** The same migration goes on in d', at least `steps` buckets further. */
  ghost predicate Advanced<K, V>(d: Dict<K, V>, d': Dict<K, V>, steps: nat) {
    && IsRehashing(d')
    && |d'.t0.buckets| == |d.t0.buckets|
    && d.rehashidx + steps <= d'.rehashidx
    && (steps > 0 ==> d'.rehashidx < |d.t0.buckets|)
  }

  lemma SteppedAdvances<K(!new), V>(d: Dict<K, V>, h: K -> nat)
    requires Inv(d, h) && IsRehashing(d) && d.iterators == 0
    ensures Inv(Stepped(d, h), h)
    ensures IsRehashing(Stepped(d, h)) ==> Advanced(d, Stepped(d, h), 1)
  {
    RehashKeeps(d, h, 1);
  }

  lemma AddAdvances<K(!new), V>(d: Dict<K, V>, h: K -> nat, canResize: bool, k: K, v: V)
    requires Inv(d, h) && IsRehashing(d) && d.iterators == 0 && IsRehashing(Stepped(d, h))
    ensures Advanced(d, Add(d, h, canResize, k, v).0, 1)
  {
    SteppedAdvances(d, h);
  }

  lemma ReplaceAdvances<K(!new), V>(d: Dict<K, V>, h: K -> nat, canResize: bool, k: K, v: V)
    requires Inv(d, h) && IsRehashing(d) && d.iterators == 0
    requires !EndsMigration(d, h, Call(ReplaceOp(k, v), canResize))
    ensures Advanced(d, Replace(d, h, canResize, k, v).0, 1)
  {
    AddAdvances(d, h, canResize, k, v);
    AddKeeps(d, h, canResize, k, v);
    var (d1, added) := Add(d, h, canResize, k, v);
    if !added { SteppedAdvances(d1, h); }
  }

  lemma DeleteAdvances<K(!new), V>(d: Dict<K, V>, h: K -> nat, k: K)
    requires Inv(d, h) && IsRehashing(d) && d.iterators == 0 && IsRehashing(Stepped(d, h))
    ensures Advanced(d, Delete(d, h, k).0, 1)
  {
    SteppedAdvances(d, h);
  }

  /** Each call ends the migration or takes it further by the steps it performs. */
  lemma ExecAdvances<K(!new), V>(d: Dict<K, V>, h: K -> nat, c: Call<K, V>)
    requires Inv(d, h) && IsRehashing(d) && d.iterators == 0
    requires !EndsMigration(d, h, c)
    ensures Advanced(d, Exec(d, h, c).0, StepsOf(d, c))
  {
    match c.op
    case AddOp(k, v) => AddAdvances(d, h, c.canResize, k, v);
    case ReplaceOp(k, v) => ReplaceAdvances(d, h, c.canResize, k, v);
    case FindOp(k) => SteppedAdvances(d, h);
    case DeleteOp(k) => DeleteAdvances(d, h, k);
    case ExpandOp(_) =>
    case ResizeOp =>
    case RehashOp(n) => RehashKeeps(d, h, n);
  }

  /** Some call of the run ends the migration under way in d. */
  ghost predicate EndsWithin<K(!new), V>(d: Dict<K, V>, h: K -> nat, cs: seq<Call<K, V>>)
    requires Inv(d, h)
    decreases |cs|
  {
    cs != [] && (EndsMigration(d, h, cs[0])
                 || (ExecInv(d, h, cs[0]); EndsWithin(Exec(d, h, cs[0]).0, h, cs[1..])))
  }

  ghost function Steps<K(!new), V>(d: Dict<K, V>, h: K -> nat, cs: seq<Call<K, V>>): nat
    requires Inv(d, h)
    decreases |cs|
  {
    if cs == [] then 0
    else
      ExecInv(d, h, cs[0]);
      StepsOf(d, cs[0]) + Steps(Exec(d, h, cs[0]).0, h, cs[1..])
  }

  lemma {:induction false} UnfinishedStepsBounded<K(!new), V>(d: Dict<K, V>, h: K -> nat, cs: seq<Call<K, V>>)
    requires Inv(d, h) && IsRehashing(d) && d.iterators == 0
    requires !EndsWithin(d, h, cs)
    ensures Steps(d, h, cs) == 0 || d.rehashidx + Steps(d, h, cs) < |d.t0.buckets|
    decreases |cs|
  {
    if cs != [] {
      ExecInv(d, h, cs[0]);
      ExecAdvances(d, h, cs[0]);
      UnfinishedStepsBounded(Exec(d, h, cs[0]).0, h, cs[1..]);
    }
  }

  /** With no safe iterator live, a migration that has just begun is over once as many
      rehash steps were performed as the first table has buckets, whatever the calls. */
  lemma MigrationEnds<K(!new), V>(d: Dict<K, V>, h: K -> nat, cs: seq<Call<K, V>>)
    requires Inv(d, h) && IsRehashing(d) && d.iterators == 0
    requires Steps(d, h, cs) >= |d.t0.buckets| - d.rehashidx && Steps(d, h, cs) > 0
    ensures EndsWithin(d, h, cs)
  {
    if !EndsWithin(d, h, cs) {
      UnfinishedStepsBounded(d, h, cs);
    }
  }
}
