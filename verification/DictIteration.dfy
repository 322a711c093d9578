/** Safe iterators of dict.c.  The iterator holds a position and the key of its saved
    nextEntry; following the links from that entry is following the live chain. */
module DictIteration {
  import opened Prelude
  import opened DictModel
  import DictTable

  /** `walking` says that the iterator's entry is not NULL; `next` is its nextEntry. */
  datatype Iter<K> = Iter(table: nat, index: int, walking: bool, next: Option<K>)

  function FreshIter<K>(): Iter<K> {
    Iter(0, -1, false, None)
  }

  function Tab<K, V>(d: Dict<K, V>, table: nat): Table<K, V> {
    if table == 0 then d.t0 else d.t1
  }

  /** The chain from the entry that holds k on. */
  function Suffix<K(==), V>(c: Chain<K, V>, k: K): Chain<K, V> {
    if c == [] || c[0].key == k then c else Suffix(c[1..], k)
  }

  /** First non-empty bucket at or after (table, i): its position and its chain; the
      chain is empty when both tables are exhausted. */
  function Seek<K, V>(d: Dict<K, V>, table: nat, i: nat): (r: (nat, nat, Chain<K, V>))
    requires table <= 1 && (table == 1 ==> IsRehashing(d))
    ensures r.0 <= 1 && (r.0 == 1 ==> IsRehashing(d))
    ensures r.2 != [] ==> r.1 < |Tab(d, r.0).buckets| && r.2 == Tab(d, r.0).buckets[r.1]
    decreases 1 - table, |Tab(d, table).buckets| - i
  {
    if i >= |Tab(d, table).buckets| then
      if table == 0 && IsRehashing(d) then Seek(d, 1, 0) else (table, i, [])
    else if Tab(d, table).buckets[i] != [] then (table, i, Tab(d, table).buckets[i])
    else Seek(d, table, i + 1)
  }

  function Land<K, V>(table: nat, index: nat, c: Chain<K, V>): (Iter<K>, Option<K>) {
    if c == [] then (Iter(table, index, false, None), None)
    else (Iter(table, index, true, if |c| > 1 then Some(c[1].key) else None), Some(c[0].key))
  }

  /** dictNext on a safe iterator: the dictionary (whose count of live iterators the first
      call raises), the iterator, and the key of the entry returned. */
  function Next<K(==), V>(d: Dict<K, V>, it: Iter<K>): (Dict<K, V>, Iter<K>, Option<K>)
    requires IterInv(d, it)
  {
    var d' := if !it.walking && it.index == -1 && it.table == 0 then d.(iterators := d.iterators + 1) else d;
    if it.walking && it.next.Some? then
      var (it', k) := Land(it.table, it.index, Suffix(Tab(d, it.table).buckets[it.index], it.next.value));
      (d', it', k)
    else
      var (table, index, c) := Seek(d, it.table, it.index + 1);
      var (it', k) := Land(table, index, c);
      (d', it', k)
  }

  ghost predicate IterInv<K, V>(d: Dict<K, V>, it: Iter<K>) {
    && it.table <= 1 && -1 <= it.index
    && (it.table == 1 ==> IsRehashing(d))
    && (it != FreshIter() ==> d.iterators > 0 && it.index >= 0)
    && (it.walking ==>
          && 0 <= it.index < |Tab(d, it.table).buckets|
          && (it.next.Some? ==> ChainFind(Tab(d, it.table).buckets[it.index], it.next.value).Some?))
  }

  /** x is in the part of the chain c that starts at the entry of n. */
  function InSuffix<K(==), V>(c: Chain<K, V>, n: K, x: K): bool {
    ChainFind(Suffix(c, n), x).Some?
  }

  ghost predicate PendingIn<K, V>(t: Table<K, V>, h: K -> nat, it: Iter<K>, x: K) {
    TableFind(t, h, x).Some? &&
    var b := h(x) % |t.buckets|;
    b > it.index || (b == it.index && it.walking && it.next.Some? && InSuffix(t.buckets[b], it.next.value, x))
  }

  /** The iterator has yet to return x. */
  ghost predicate Pending<K, V>(d: Dict<K, V>, h: K -> nat, it: Iter<K>, x: K) {
    (it.table == 0 && TableFind(d.t1, h, x).Some?) || PendingIn(Tab(d, it.table), h, it, x)
  }

  // ----- one call to dictNext -------------------------------------------------

  lemma {:induction false} SuffixFacts<K, V>(c: Chain<K, V>, n: K, x: K)
    requires ChainFind(c, n).Some? && DistinctKeys(c)
    ensures Suffix(c, n) != [] && Suffix(c, n)[0].key == n && DistinctKeys(Suffix(c, n))
    ensures ChainFind(Suffix(c, n), x).Some? ==> ChainFind(c, x).Some?
  {
    if c[0].key != n {
      SuffixFacts(c[1..], n, x);
    }
  }

  /** The saved next entry is where the rest of the suffix starts. */
  lemma {:induction false} SuffixNext<K, V>(c: Chain<K, V>, n: K, m: K)
    requires ChainFind(c, n).Some? && DistinctKeys(c)
    requires |Suffix(c, n)| > 1 && Suffix(c, n)[1].key == m
    ensures ChainFind(c, m).Some? && Suffix(c, m) == Suffix(c, n)[1..]
  {
    if c[0].key == n {
      assert c[1].key == m && c[1..][0].key == m;
      assert Suffix(c[1..], m) == c[1..];
    } else {
      SuffixNext(c[1..], n, m);
      assert c[0].key != m;
    }
  }

  /** Landing on a suffix that starts the pending part of a bucket returns its head and
      leaves the rest of the suffix pending. */
  lemma LandPending<K(!new), V>(d: Dict<K, V>, h: K -> nat, table: nat, index: nat, n: K, x: K)
    requires Inv(d, h) && table <= 1 && index < |Tab(d, table).buckets|
    requires ChainFind(Tab(d, table).buckets[index], n).Some?
    ensures var c := Suffix(Tab(d, table).buckets[index], n);
            var (it', k) := Land(table, index, c);
            && k == Some(n) && it'.walking && it'.table == table && it'.index == index
            && (it'.next.Some? ==> ChainFind(Tab(d, table).buckets[index], it'.next.value).Some?)
            && (ChainFind(c, x).Some? && x != n <==>
                  it'.next.Some? && InSuffix(Tab(d, table).buckets[index], it'.next.value, x))
  {
    var b := Tab(d, table).buckets[index];
    SuffixFacts(b, n, x);
    var c := Suffix(b, n);
    if |c| > 1 {
      SuffixNext(b, n, c[1].key);
    } else {
      assert c[1..] == [];
    }
  }

  lemma NextWalking<K(!new), V>(d: Dict<K, V>, h: K -> nat, it: Iter<K>, x: K)
    requires Inv(d, h) && IterInv(d, it) && it.walking && it.next.Some?
    ensures var (d', it', k) := Next(d, it);
            && d' == d && IterInv(d, it') && k.Some? && it' != FreshIter()
            && Pending(d, h, it, k.value)
            && (Pending(d, h, it', x) <==> Pending(d, h, it, x) && x != k.value)
  {
    var n := it.next.value;
    var b := Tab(d, it.table).buckets[it.index];
    LandPending(d, h, it.table, it.index, n, x);
    SuffixFacts(b, n, x);
    SuffixFacts(b, n, n);
    assert ChainFind(b, n).Some?;
    assert h(n) % |Tab(d, it.table).buckets| == it.index;
    assert it.table == 0 ==> TableFind(d.t1, h, n).None?;
  }

  /** No entry lies in the buckets that a seek passes over. */
  lemma {:induction false} SeekSkipsEmpty<K(!new), V>(d: Dict<K, V>, h: K -> nat, table: nat, i: nat, x: K)
    requires Inv(d, h) && table <= 1 && (table == 1 ==> IsRehashing(d))
    ensures var (t', i', c) := Seek(d, table, i);
            var here := Iter(table, i - 1, false, None);
            var there := Iter(t', i' - 1, false, None);
            && (c != [] ==> (Pending(d, h, here, x) <==> Pending(d, h, there, x)))
            && (c == [] ==> !Pending(d, h, here, x))
    decreases 1 - table, |Tab(d, table).buckets| - i
  {
    var t := Tab(d, table);
    if i >= |t.buckets| {
      if table == 0 && IsRehashing(d) {
        SeekSkipsEmpty(d, h, 1, 0, x);
      }
      BehindLast(d, h, table, i, x);
    } else if t.buckets[i] == [] {
      SeekSkipsEmpty(d, h, table, i + 1, x);
      NothingInEmpty(d, h, table, i, x);
    }
  }

  lemma BehindLast<K(!new), V>(d: Dict<K, V>, h: K -> nat, table: nat, i: nat, x: K)
    requires Inv(d, h) && table <= 1 && (table == 1 ==> IsRehashing(d)) && i >= |Tab(d, table).buckets|
    ensures Pending(d, h, Iter(table, i - 1, false, None), x)
            <==> table == 0 && IsRehashing(d) && Pending(d, h, Iter(1, -1, false, None), x)
  {
  }

  lemma NothingInEmpty<K(!new), V>(d: Dict<K, V>, h: K -> nat, table: nat, i: nat, x: K)
    requires Inv(d, h) && table <= 1 && i < |Tab(d, table).buckets| && Tab(d, table).buckets[i] == []
    ensures Pending(d, h, Iter(table, i - 1, false, None), x) <==> Pending(d, h, Iter(table, i, false, None), x)
  {
  }

  /** Landing on the whole bucket that a seek stopped at. */
  lemma LandOnBucket<K(!new), V>(d: Dict<K, V>, h: K -> nat, table: nat, index: nat, x: K)
    requires Inv(d, h) && table <= 1 && (table == 1 ==> IsRehashing(d))
    requires index < |Tab(d, table).buckets| && Tab(d, table).buckets[index] != []
    ensures var c := Tab(d, table).buckets[index];
            var before := Iter(table, index - 1, false, None);
            var (it', k) := Land(table, index, c);
            && k.Some? && it'.walking && it'.table == table && it'.index == index
            && (it'.next.Some? ==> ChainFind(c, it'.next.value).Some?)
            && Pending(d, h, before, k.value)
            && (Pending(d, h, it', x) <==> Pending(d, h, before, x) && x != k.value)
  {
    var c := Tab(d, table).buckets[index];
    var n := c[0].key;
    assert Suffix(c, n) == c && ChainFind(c, n).Some?;
    LandPending(d, h, table, index, n, x);
    assert h(n) % |Tab(d, table).buckets| == index;
    assert table == 0 ==> TableFind(d.t1, h, n).None?;
  }

  /** A seek that finds nothing leaves nothing pending; one that stops at a bucket does so
      before everything pending. */
  lemma SeekFrom<K(!new), V>(d: Dict<K, V>, h: K -> nat, it: Iter<K>, x: K)
    requires Inv(d, h) && IterInv(d, it) && !(it.walking && it.next.Some?)
    ensures var (table, index, c) := Seek(d, it.table, it.index + 1);
            && (c == [] ==> !Pending(d, h, it, x))
            && (c != [] ==> (Pending(d, h, it, x) <==> Pending(d, h, Iter(table, index - 1, false, None), x)))
  {
    PendingByPlace(d, h, it, x);
    SeekSkipsEmpty(d, h, it.table, it.index + 1, x);
  }

  lemma SeekThenLand<K(!new), V>(d: Dict<K, V>, h: K -> nat, it: Iter<K>, x: K)
    requires Inv(d, h) && IterInv(d, it) && !(it.walking && it.next.Some?)
    ensures var (table, index, c) := Seek(d, it.table, it.index + 1);
            var (it', k) := Land(table, index, c);
            && (c == [] ==> !Pending(d, h, it, x))
            && (c != [] ==> Pending(d, h, it, k.value)
                            && (Pending(d, h, it', x) <==> Pending(d, h, it, x) && x != k.value))
  {
    var (table, index, c) := Seek(d, it.table, it.index + 1);
    SeekFrom(d, h, it, x);
    if c != [] {
      SeekFrom(d, h, it, c[0].key);
      LandOnBucket(d, h, table, index, x);
    }
  }

  lemma NextSeeking<K(!new), V>(d: Dict<K, V>, h: K -> nat, it: Iter<K>, x: K)
    requires Inv(d, h) && IterInv(d, it) && !(it.walking && it.next.Some?)
    ensures var (d', it', k) := Next(d, it);
            && IterInv(d', it') && it' != FreshIter()
            && (k.None? ==> !Pending(d, h, it, x))
            && (k.Some? ==> Pending(d, h, it, k.value))
            && (k.Some? ==> (Pending(d, h, it', x) <==> Pending(d, h, it, x) && x != k.value))
  {
    SeekThenLand(d, h, it, x);
    var (table, index, c) := Seek(d, it.table, it.index + 1);
    LandKeeps(Next(d, it).0, table, index, c);
  }

  lemma LandKeeps<K, V>(d: Dict<K, V>, table: nat, index: nat, c: Chain<K, V>)
    requires table <= 1 && (table == 1 ==> IsRehashing(d)) && d.iterators > 0
    requires c != [] ==> index < |Tab(d, table).buckets| && c == Tab(d, table).buckets[index]
    ensures IterInv(d, Land(table, index, c).0) && Land(table, index, c).0 != FreshIter()
  {
    assert |c| > 1 ==> ChainFind(c, c[1].key).Some?;
  }

  /** An iterator that has no next entry in its bucket is pending on what lies behind it. */
  lemma PendingByPlace<K(!new), V>(d: Dict<K, V>, h: K -> nat, it: Iter<K>, x: K)
    requires Inv(d, h) && IterInv(d, it) && !(it.walking && it.next.Some?)
    ensures Pending(d, h, it, x) <==> Pending(d, h, Iter(it.table, it.index, false, None), x)
  {
  }

  lemma NextReturnsPending<K(!new), V>(d: Dict<K, V>, h: K -> nat, it: Iter<K>, x: K)
    requires Inv(d, h) && IterInv(d, it)
    ensures var (d', it', k) := Next(d, it);
            && Inv(d', h) && IterInv(d', it') && it' != FreshIter()
            && (k.None? ==> !Pending(d, h, it, x))
            && (k.Some? ==> Pending(d, h, it, k.value))
            && (k.Some? ==> (Pending(d', h, it', x) <==> Pending(d, h, it, x) && x != k.value))
  {
    if it.walking && it.next.Some? {
      NextWalking(d, h, it, x);
    } else {
      NextSeeking(d, h, it, x);
      var (d', it', k) := Next(d, it);
      assert Pending(d', h, it', x) <==> Pending(d, h, it', x);
    }
  }

  // ----- calls made between two calls to dictNext ------------------------------

  lemma SuffixPush<K, V>(e: Entry<K, V>, c: Chain<K, V>, n: K)
    requires e.key != n
    ensures Suffix([e] + c, n) == Suffix(c, n)
  {
    assert ([e] + c)[1..] == c;
  }

  lemma {:induction false} SuffixRemove<K, V>(c: Chain<K, V>, q: K, n: K, x: K)
    requires ChainFind(c, n).Some? && DistinctKeys(c) && q != n && q != x
    ensures InSuffix(ChainRemove(c, q), n, x) == InSuffix(c, n, x)
  {
    if c[0].key == n {
      ChainRemoveFind(c, q, x);
      assert Suffix(ChainRemove(c, q), n) == ChainRemove(c, q);
    } else if c[0].key != q {
      SuffixRemove(c[1..], q, n, x);
      SuffixPush(c[0], ChainRemove(c[1..], q), n);
    }
  }

  lemma {:induction false} SuffixUpdate<K, V>(c: Chain<K, V>, q: K, v: V, n: K, x: K)
    requires DistinctKeys(c)
    ensures InSuffix(ChainUpdate(c, q, v), n, x) == InSuffix(c, n, x)
  {
    if c != [] {
      if c[0].key == n {
        ChainUpdateFind(c, q, v, x);
        assert ChainUpdate(c, q, v)[0].key == n;
      } else if c[0].key == q {
        SuffixPush(Entry(q, v), c[1..], n);
      } else {
        SuffixUpdate(c[1..], q, v, n, x);
        SuffixPush(c[0], ChainUpdate(c[1..], q, v), n);
      }
    }
  }

  lemma PendingInInsert<K(!new), V>(t: Table<K, V>, h: K -> nat, it: Iter<K>, e: Entry<K, V>, x: K)
    requires TableInv(t, h) && t.buckets != [] && TableFind(t, h, e.key).None?
    requires it.walking && it.next == Some(e.key) ==> it.index != h(e.key) % |t.buckets|
    requires x != e.key
    ensures PendingIn(TableInsert(t, h, e), h, it, x) <==> PendingIn(t, h, it, x)
  {
    TableInsertFind(t, h, e);
    var b := h(e.key) % |t.buckets|;
    if it.walking && it.next.Some? && it.next.value != e.key {
      SuffixPush(e, t.buckets[b], it.next.value);
    }
  }

  lemma PendingInRemove<K(!new), V>(t: Table<K, V>, h: K -> nat, it: Iter<K>, q: K, x: K)
    requires TableInv(t, h) && TableFind(t, h, q).Some? && t.used > 0 && x != q
    requires it.walking && it.next.Some? && it.index == h(q) % |t.buckets|
             ==> it.next.value != q && ChainFind(t.buckets[it.index], it.next.value).Some?
    ensures PendingIn(TableRemove(t, h, q), h, it, x) <==> PendingIn(t, h, it, x)
  {
    TableRemoveFind(t, h, q);
    var b := h(q) % |t.buckets|;
    if it.walking && it.next.Some? && it.index == b {
      SuffixRemove(t.buckets[b], q, it.next.value, x);
    }
  }

  lemma PendingInUpdate<K(!new), V>(t: Table<K, V>, h: K -> nat, it: Iter<K>, q: K, v: V, x: K)
    requires TableInv(t, h) && TableFind(t, h, q).Some?
    ensures PendingIn(TableUpdate(t, h, q, v), h, it, x) <==> PendingIn(t, h, it, x)
  {
    TableUpdateFind(t, h, q, v);
    if it.walking && it.next.Some? {
      SuffixUpdate(t.buckets[h(q) % |t.buckets|], q, v, it.next.value, x);
    }
  }

  /** it stays a proper iterator over d', and x, unless it is the key k being inserted or
      removed, is pending there exactly if it was. */
  ghost predicate Undisturbed<K(!new), V>(d: Dict<K, V>, d': Dict<K, V>, h: K -> nat, it: Iter<K>, k: Option<K>, x: K) {
    IterInv(d', it) && (k != Some(x) ==> (Pending(d', h, it, x) <==> Pending(d, h, it, x)))
  }

  lemma FreshPending<K(!new), V>(d: Dict<K, V>, h: K -> nat, x: K)
    requires Inv(d, h)
    ensures Pending(d, h, FreshIter(), x) <==> Lookup(d, h, x).Some?
  {
  }

  lemma ExpandPending<K(!new), V>(d: Dict<K, V>, h: K -> nat, it: Iter<K>, size: nat, x: K)
    requires Inv(d, h) && IterInv(d, it)
    ensures Undisturbed(d, Expand(d, size).0, h, it, None, x)
  {
    NextPowerIsPower(size);
    EmptyTableInv<K, V>(NextPower(size), h);
  }

  lemma ExpandIfNeededPending<K(!new), V>(d: Dict<K, V>, h: K -> nat, it: Iter<K>, canResize: bool, x: K)
    requires Inv(d, h) && IterInv(d, it)
    ensures Undisturbed(d, ExpandIfNeeded(d, canResize).0, h, it, None, x)
  {
    ExpandPending(d, h, it, INITIAL_SIZE, x);
    ExpandPending(d, h, it, d.t0.used * 2, x);
  }

  lemma InsertPending<K(!new), V>(d: Dict<K, V>, h: K -> nat, it: Iter<K>, k: K, v: V, x: K)
    requires Inv(d, h) && IterInv(d, it) && it != FreshIter()
    requires Lookup(d, h, k).None? && d.t0.buckets != []
    ensures var d' := if IsRehashing(d) then d.(t1 := TableInsert(d.t1, h, Entry(k, v)))
                      else d.(t0 := TableInsert(d.t0, h, Entry(k, v)));
            Undisturbed(d, d', h, it, Some(k), x)
  {
    var e := Entry(k, v);
    if IsRehashing(d) {
      TableInsertFind(d.t1, h, e);
      if x != k { PendingInInsert(d.t1, h, it, e, x); }
      if it.walking && it.next.Some? { ChainPush(e, d.t1.buckets[h(k) % |d.t1.buckets|], it.next.value); }
    } else {
      TableInsertFind(d.t0, h, e);
      if x != k { PendingInInsert(d.t0, h, it, e, x); }
      if it.walking && it.next.Some? { ChainPush(e, d.t0.buckets[h(k) % |d.t0.buckets|], it.next.value); }
    }
  }

  /** The key that adding k inserts, if any. */
  function Inserted<K(==), V>(d: Dict<K, V>, h: K -> nat, k: K): Option<K> {
    if Lookup(d, h, k).None? then Some(k) else None
  }

  lemma AddPending<K(!new), V>(d: Dict<K, V>, h: K -> nat, it: Iter<K>, canResize: bool, k: K, v: V, x: K)
    requires Inv(d, h) && IterInv(d, it)
    ensures Undisturbed(d, Add(d, h, canResize, k, v).0, h, it, Inserted(d, h, k), x)
  {
    AddKeeps(d, h, canResize, k, v);
    if it == FreshIter() {
      FreshPending(d, h, x);
      FreshPending(Add(d, h, canResize, k, v).0, h, x);
    } else {
      ExpandIfNeededSucceeds(d, h, canResize);
      ExpandIfNeededPending(d, h, it, canResize, x);
      var d2 := ExpandIfNeeded(d, canResize).0;
      if Lookup(d2, h, k).None? { InsertPending(d2, h, it, k, v, x); }
    }
  }

  lemma OverwritePending<K(!new), V>(d: Dict<K, V>, h: K -> nat, it: Iter<K>, k: K, v: V, x: K)
    requires Inv(d, h) && IterInv(d, it) && it != FreshIter()
    ensures Undisturbed(d, Overwrite(d, h, k, v), h, it, None, x)
  {
    if TableFind(d.t0, h, k).Some? {
      UpdatePending(d.t0, h, it, k, v, x);
    } else if TableFind(d.t1, h, k).Some? {
      UpdatePending(d.t1, h, it, k, v, x);
    }
  }

  lemma UpdatePending<K(!new), V>(t: Table<K, V>, h: K -> nat, it: Iter<K>, k: K, v: V, x: K)
    requires TableInv(t, h) && TableFind(t, h, k).Some?
    ensures PendingIn(TableUpdate(t, h, k, v), h, it, x) <==> PendingIn(t, h, it, x)
    ensures TableFind(TableUpdate(t, h, k, v), h, x).Some? == TableFind(t, h, x).Some?
    ensures |TableUpdate(t, h, k, v).buckets| == |t.buckets|
    ensures forall i, q :: 0 <= i < |t.buckets| ==>
              ChainFind(TableUpdate(t, h, k, v).buckets[i], q).Some? == ChainFind(t.buckets[i], q).Some?
  {
    TableUpdateFind(t, h, k, v);
    PendingInUpdate(t, h, it, k, v, x);
    var b := h(k) % |t.buckets|;
    forall q ensures ChainFind(ChainUpdate(t.buckets[b], k, v), q).Some? == ChainFind(t.buckets[b], q).Some? {
      ChainUpdateFind(t.buckets[b], k, v, q);
    }
  }

  lemma ReplacePending<K(!new), V>(d: Dict<K, V>, h: K -> nat, it: Iter<K>, canResize: bool, k: K, v: V, x: K)
    requires Inv(d, h) && IterInv(d, it)
    ensures Undisturbed(d, Replace(d, h, canResize, k, v).0, h, it, Inserted(d, h, k), x)
  {
    AddPending(d, h, it, canResize, k, v, x);
    AddKeeps(d, h, canResize, k, v);
    if it == FreshIter() {
      ReplaceKeeps(d, h, canResize, k, v);
      FreshPending(d, h, x);
      FreshPending(Replace(d, h, canResize, k, v).0, h, x);
    } else {
      var (d1, added) := Add(d, h, canResize, k, v);
      if !added { OverwritePending(d1, h, it, k, v, x); }
    }
  }

  lemma RemovePending<K(!new), V>(t: Table<K, V>, h: K -> nat, it: Iter<K>, k: K, x: K)
    requires TableInv(t, h) && TableFind(t, h, k).Some? && t.used > 0
    requires it.walking && it.next.Some? && it.index == h(k) % |t.buckets|
             ==> it.next.value != k && ChainFind(t.buckets[it.index], it.next.value).Some?
    ensures x != k ==> (PendingIn(TableRemove(t, h, k), h, it, x) <==> PendingIn(t, h, it, x))
    ensures x != k ==> TableFind(TableRemove(t, h, k), h, x).Some? == TableFind(t, h, x).Some?
    ensures |TableRemove(t, h, k).buckets| == |t.buckets|
    ensures forall i, q :: 0 <= i < |t.buckets| && q != k ==>
              ChainFind(TableRemove(t, h, k).buckets[i], q).Some? == ChainFind(t.buckets[i], q).Some?
  {
    TableRemoveFind(t, h, k);
    if x != k { PendingInRemove(t, h, it, k, x); }
    var b := h(k) % |t.buckets|;
    forall q | q != k ensures ChainFind(ChainRemove(t.buckets[b], k), q).Some? == ChainFind(t.buckets[b], q).Some? {
      ChainRemoveFind(t.buckets[b], k, q);
    }
  }

  /** Deleting any entry but the saved next one disturbs no other entry. */
  lemma DeletePending<K(!new), V>(d: Dict<K, V>, h: K -> nat, it: Iter<K>, k: K, x: K)
    requires Inv(d, h) && IterInv(d, it)
    requires it.walking ==> it.next != Some(k)
    ensures Undisturbed(d, Delete(d, h, k).0, h, it, Some(k), x)
  {
    DeleteKeeps(d, h, k);
    if it == FreshIter() {
      FreshPending(d, h, x);
      FreshPending(Delete(d, h, k).0, h, x);
    } else if TableFind(d.t0, h, k).Some? {
      TableFindUsed(d.t0, h, k);
      RemoveFirstPending(d, h, it, k, x);
    } else if TableFind(d.t1, h, k).Some? {
      TableFindUsed(d.t1, h, k);
      RemoveSecondPending(d, h, it, k, x);
    }
  }

  lemma RemoveFirstPending<K(!new), V>(d: Dict<K, V>, h: K -> nat, it: Iter<K>, k: K, x: K)
    requires Inv(d, h) && IterInv(d, it) && it != FreshIter() && (it.walking ==> it.next != Some(k))
    requires TableFind(d.t0, h, k).Some? && d.t0.used > 0
    ensures Undisturbed(d, d.(t0 := TableRemove(d.t0, h, k)), h, it, Some(k), x)
  {
    RemovePending(d.t0, h, if it.table == 0 then it else FreshIter(), k, x);
  }

  lemma RemoveSecondPending<K(!new), V>(d: Dict<K, V>, h: K -> nat, it: Iter<K>, k: K, x: K)
    requires Inv(d, h) && IterInv(d, it) && it != FreshIter() && (it.walking ==> it.next != Some(k))
    requires TableFind(d.t1, h, k).Some? && d.t1.used > 0
    ensures Undisturbed(d, d.(t1 := TableRemove(d.t1, h, k)), h, it, Some(k), x)
  {
    RemovePending(d.t1, h, if it.table == 1 then it else FreshIter(), k, x);
  }

  // ----- whole iterations -------------------------------------------------------

  datatype Event<K, V> = NextEvent | CallEvent(call: Call<K, V>)

  /** Calls that may be made while the iterator is live: anything but an explicit
      dictRehash and the deletion of the entry saved as nextEntry. */
  predicate Allowed<K(==), V>(it: Iter<K>, op: Op<K, V>) {
    match op
    case DeleteOp(q) => it.walking ==> it.next != Some(q)
    case RehashOp(_) => false
    case _ => true
  }

  /** The key whose presence the call changes, if any. */
  function Touched<K(==, !new), V>(d: Dict<K, V>, h: K -> nat, op: Op<K, V>): Option<K> {
    match op
    case AddOp(k, _) => Inserted(d, h, k)
    case ReplaceOp(k, _) => Inserted(d, h, k)
    case DeleteOp(k) => Some(k)
    case _ => None
  }

  lemma FindPending<K(!new), V>(d: Dict<K, V>, h: K -> nat, it: Iter<K>, k: K, x: K)
    requires Inv(d, h) && IterInv(d, it)
    ensures Undisturbed(d, Find(d, h, k).0, h, it, None, x)
  {
    FindKeeps(d, h, k);
    if it == FreshIter() {
      FreshPending(d, h, x);
      FreshPending(Find(d, h, k).0, h, x);
    }
  }

  lemma CallPending<K(!new), V>(d: Dict<K, V>, h: K -> nat, it: Iter<K>, c: Call<K, V>, x: K)
    requires Inv(d, h) && IterInv(d, it) && Allowed(it, c.op)
    ensures Inv(Exec(d, h, c).0, h)
    ensures Undisturbed(d, Exec(d, h, c).0, h, it, Touched(d, h, c.op), x)
  {
    ExecInv(d, h, c);
    match c.op
    case AddOp(k, v) => AddPending(d, h, it, c.canResize, k, v, x);
    case ReplaceOp(k, v) => ReplacePending(d, h, it, c.canResize, k, v, x);
    case FindOp(k) => FindPending(d, h, it, k, x);
    case DeleteOp(k) => DeletePending(d, h, it, k, x);
    case ExpandOp(size) => ExpandPending(d, h, it, size, x);
    case ResizeOp =>
      ExpandPending(d, h, it, if d.t0.used < INITIAL_SIZE then INITIAL_SIZE else d.t0.used, x);
  }

  lemma CallKeepsIter<K(!new), V>(d: Dict<K, V>, h: K -> nat, it: Iter<K>, c: Call<K, V>)
    requires Inv(d, h) && IterInv(d, it) && Allowed(it, c.op)
    ensures Inv(Exec(d, h, c).0, h) && IterInv(Exec(d, h, c).0, it)
  {
    ExecInv(d, h, c);
    match c.op
    case AddOp(k, v) => CallPending(d, h, it, c, k);
    case ReplaceOp(k, v) => CallPending(d, h, it, c, k);
    case FindOp(k) => CallPending(d, h, it, c, k);
    case DeleteOp(k) => CallPending(d, h, it, c, k);
    case ExpandOp(size) =>
    case ResizeOp =>
  }

  lemma NextKeepsIter<K(!new), V>(d: Dict<K, V>, h: K -> nat, it: Iter<K>)
    requires Inv(d, h) && IterInv(d, it)
    ensures Inv(Next(d, it).0, h)
    ensures Next(d, it).2.Some? ==> IterInv(Next(d, it).0, Next(d, it).1)
  {
    if Next(d, it).2.Some? {
      NextReturnsPending(d, h, it, Next(d, it).2.value);
    }
  }

  /** The events are a legal iteration that ends with dictNext returning NULL. */
  ghost predicate Complete<K(!new), V>(d: Dict<K, V>, h: K -> nat, it: Iter<K>, evs: seq<Event<K, V>>)
    requires Inv(d, h) && IterInv(d, it)
    decreases |evs|
  {
    evs != [] &&
    match evs[0]
    case NextEvent =>
      NextKeepsIter(d, h, it);
      var (d', it', k) := Next(d, it);
      if k.None? then |evs| == 1 else Complete(d', h, it', evs[1..])
    case CallEvent(c) =>
      Allowed(it, c.op) &&
      (CallKeepsIter(d, h, it, c); Complete(Exec(d, h, c).0, h, it, evs[1..]))
  }

  /** x is not inserted during the events, and not deleted before it was returned. */
  ghost predicate LeftAlone<K(!new), V>(d: Dict<K, V>, h: K -> nat, it: Iter<K>, evs: seq<Event<K, V>>, x: K)
    requires Inv(d, h) && IterInv(d, it) && Complete(d, h, it, evs)
    decreases |evs|
  {
    match evs[0]
    case NextEvent =>
      NextKeepsIter(d, h, it);
      var (d', it', k) := Next(d, it);
      k.None? || LeftAlone(d', h, it', evs[1..], x)
    case CallEvent(c) =>
      CallKeepsIter(d, h, it, c);
      && (Touched(d, h, c.op) == Some(x) ==> c.op.DeleteOp? && !Pending(d, h, it, x))
      && LeftAlone(Exec(d, h, c).0, h, it, evs[1..], x)
  }

  /** How often the events return x. */
  ghost function Returns<K(!new), V>(d: Dict<K, V>, h: K -> nat, it: Iter<K>, evs: seq<Event<K, V>>, x: K): nat
    requires Inv(d, h) && IterInv(d, it) && Complete(d, h, it, evs)
    decreases |evs|
  {
    match evs[0]
    case NextEvent =>
      NextKeepsIter(d, h, it);
      var (d', it', k) := Next(d, it);
      if k.None? then 0
      else (if k.value == x then 1 else 0) + Returns(d', h, it', evs[1..], x)
    case CallEvent(c) =>
      CallKeepsIter(d, h, it, c);
      Returns(Exec(d, h, c).0, h, it, evs[1..], x)
  }

  lemma DeletedNotPending<K(!new), V>(d: Dict<K, V>, h: K -> nat, it: Iter<K>, x: K)
    requires Inv(d, h)
    ensures !Pending(Delete(d, h, x).0, h, it, x)
  {
    DeleteKeeps(d, h, x);
    assert Lookup(Delete(d, h, x).0, h, x) == None;
  }

  lemma {:induction false} ReturnsPendingOnce<K(!new), V>(d: Dict<K, V>, h: K -> nat, it: Iter<K>, evs: seq<Event<K, V>>, x: K)
    requires Inv(d, h) && IterInv(d, it) && Complete(d, h, it, evs) && LeftAlone(d, h, it, evs, x)
    ensures Returns(d, h, it, evs, x) == if Pending(d, h, it, x) then 1 else 0
    decreases |evs|
  {
    match evs[0]
    case NextEvent =>
      NextKeepsIter(d, h, it);
      NextReturnsPending(d, h, it, x);
      var (d', it', k) := Next(d, it);
      if k.Some? { ReturnsPendingOnce(d', h, it', evs[1..], x); }
    case CallEvent(c) =>
      CallKeepsIter(d, h, it, c);
      CallPending(d, h, it, c, x);
      ReturnsPendingOnce(Exec(d, h, c).0, h, it, evs[1..], x);
      if Touched(d, h, c.op) == Some(x) { DeletedNotPending(d, h, it, x); }
  }

  /** A complete iteration with a safe iterator returns every entry present at its start
      exactly once, whatever is added, replaced or looked up on the way, and even if
      entries are deleted once returned: adds may begin a migration half way through. */
  lemma SafeIterationExactlyOnce<K(!new), V>(d: Dict<K, V>, h: K -> nat, evs: seq<Event<K, V>>, x: K)
    requires Inv(d, h) && Complete(d, h, FreshIter(), evs)
    requires LeftAlone(d, h, FreshIter(), evs, x)
    ensures Returns(d, h, FreshIter(), evs, x) == if Lookup(d, h, x).Some? then 1 else 0
  {
    ReturnsPendingOnce(d, h, FreshIter(), evs, x);
    FreshPending(d, h, x);
  }

  // ----- the iterator as an object ----------------------------------------------

  class SafeIterator<K(==, !new), V> {
    const d: DictTable.HashTable<K, V>
    var table: nat
    var index: int
    var walking: bool
    var next: Option<K>

    ghost function Position(): Iter<K>
      reads this
    {
      Iter(table, index, walking, next)
    }

    ghost predicate Valid()
      reads this, d
    {
      d.Valid() && IterInv(d.State(), Position())
    }

    /** dictGetSafeIterator. */
    constructor (d: DictTable.HashTable<K, V>)
      requires d.Valid()
      ensures this.d == d && Valid() && Position() == FreshIter<K>()
    {
      this.d := d;
      table, index, walking, next := 0, -1, false, None;
    }

    /** The loop of dictNext over empty buckets. */
    method SeekBucket() returns (c: Chain<K, V>)
      requires Valid()
      modifies this`table, this`index
      ensures (table, index, c) == Seek(d.State(), old(table), old(index) + 1)
      ensures c != [] ==> index < |Tab(d.State(), table).buckets|
    {
      index := index + 1;
      c := [];
      while true
        invariant table <= 1 && index >= 0 && (table == 1 ==> IsRehashing(d.State()))
        invariant Seek(d.State(), table, index) == Seek(d.State(), old(table), old(index) + 1)
        decreases 1 - table, |Tab(d.State(), table).buckets| - index
      {
        var t := if table == 0 then d.ht0 else d.ht1;
        if index >= |t.buckets| {
          if d.rehashidx == -1 || table != 0 { return; }
          table, index := 1, 0;
        } else if t.buckets[index] != [] {
          c := t.buckets[index];
          return;
        } else {
          index := index + 1;
        }
      }
    }

    /** Follows the chain to the saved next entry. */
    method WalkToNext() returns (c: Chain<K, V>)
      requires Valid() && walking && next.Some? && table <= 1 && 0 <= index < |Tab(d.State(), table).buckets|
      requires ChainFind(Tab(d.State(), table).buckets[index], next.value).Some?
      ensures c != [] && c == Suffix(Tab(d.State(), table).buckets[index], next.value)
    {
      ghost var b := Tab(d.State(), table).buckets[index];
      c := (if table == 0 then d.ht0 else d.ht1).buckets[index];
      while c[0].key != next.value
        invariant ChainFind(c, next.value).Some?
        invariant Suffix(c, next.value) == Suffix(b, next.value)
        decreases |c|
      {
        c := c[1..];
      }
    }

    /** The chain that dictNext continues in. */
    method NextChain() returns (c: Chain<K, V>)
      requires Valid()
      modifies this`table, this`index, d`iterators
      ensures d.iterators == old(d.iterators) + if !walking && old(index) == -1 && old(table) == 0 then 1 else 0
      ensures (table, index, c) ==
              if walking && next.Some?
              then (old(table), old(index), Suffix(Tab(old(d.State()), old(table)).buckets[old(index)], next.value))
              else Seek(old(d.State()), old(table), old(index) + 1)
    {
      if walking && next.Some? {
        c := WalkToNext();
      } else {
        var first := !walking && index == -1 && table == 0;
        c := SeekBucket();
        if first { d.iterators := d.iterators + 1; }
      }
    }

    method LandIn(c: Chain<K, V>) returns (k: Option<K>)
      requires index >= 0
      modifies this`walking, this`next
      ensures (Position(), k) == Land(table, index, c)
    {
      if c == [] {
        walking, next, k := false, None, None;
      } else {
        walking, next, k := true, if |c| > 1 then Some(c[1].key) else None, Some(c[0].key);
      }
    }

    /** dictNext. */
    method NextKey() returns (k: Option<K>)
      requires Valid()
      modifies this`table, this`index, this`walking, this`next, d`iterators
      ensures d.Valid()
      ensures (d.State(), Position(), k) == Next(old(d.State()), old(Position()))
      ensures k.Some? ==> Valid()
    {
      NextKeepsIter(d.State(), d.hash, Position());
      ghost var goal := Next(d.State(), Position());
      var c := NextChain();
      assert goal.0 == d.State() && (goal.1, goal.2) == Land(table, index, c);
      k := LandIn(c);
    }

    /** dictReleaseIterator: gives back what the first dictNext took, so that migration may go
        on once no iterator is live. */
    method Release()
      requires d.Valid() && (Position() != FreshIter() ==> d.iterators > 0)
      requires Position() != FreshIter() ==> !(index == -1 && table == 0)
      modifies d`iterators
      ensures d.Valid()
      ensures d.State() == if Position() == FreshIter<K>() then old(d.State())
                           else old(d.State()).(iterators := old(d.iterators) - 1)
    {
      if !(index == -1 && table == 0) {
        d.iterators := d.iterators - 1;
      }
    }
  }
}
