/** The loops of dict.c over a mutable table, each proved to compute the corresponding
    function of DictModel.  A bucket array is a sequence of chains that the methods
    reassign; a chain is the sequence of entries that its links would visit. */
module DictTable {
  import opened Prelude
  import opened DictModel
  import DictLoad

  /** _dictNextPower. */
  method ComputeNextPower(size: nat) returns (p: nat)
    ensures p == NextPower(size)
    ensures IsPow2(p) && p >= size && p >= INITIAL_SIZE
    ensures forall q: nat :: IsPow2(q) && q >= size && q >= INITIAL_SIZE ==> p <= q
  {
    p := INITIAL_SIZE;
    while p < size
      invariant p > 0 && NextPowerFrom(p, size) == NextPower(size)
      decreases size - p
    {
      p := p * 2;
    }
    NextPowerIsPower(size);
    NextPowerIsLeast(size);
  }

  /** Walks a chain as dictFind does: the index of the entry that holds k, or the length. */
  method SearchChain<K(==), V>(c: Chain<K, V>, k: K) returns (i: nat)
    ensures i <= |c|
    ensures i < |c| ==> c[i].key == k && ChainFind(c, k) == Some(c[i].val)
    ensures i == |c| ==> ChainFind(c, k) == None
    ensures forall j :: 0 <= j < i ==> c[j].key != k
  {
    i := 0;
    while i < |c| && c[i].key != k
      invariant i <= |c|
      invariant ChainFind(c[i..], k) == ChainFind(c, k)
      invariant forall j :: 0 <= j < i ==> c[j].key != k
    {
      assert c[i..][1..] == c[i + 1..];
      i := i + 1;
    }
  }

  /** Removing or overwriting at the index found by the walk is removal or update by key. */
  lemma {:induction false} ChainEdit<K, V>(c: Chain<K, V>, k: K, v: V, i: nat)
    requires i < |c| && c[i].key == k
    requires forall j :: 0 <= j < i ==> c[j].key != k
    ensures c[..i] + c[i + 1..] == ChainRemove(c, k)
    ensures c[i := Entry(k, v)] == ChainUpdate(c, k, v)
  {
    if i > 0 {
      var d := c[1..];
      ChainEdit(d, k, v, i - 1);
      assert c[..i] == [c[0]] + d[..i - 1] && c[i + 1..] == d[i..];
      Assoc([c[0]], d[..i - 1], d[i..]);
      assert c[i := Entry(k, v)] == [c[0]] + d[i - 1 := Entry(k, v)];
    }
  }

  class HashTable<K(==, !new), V> {
    const hash: K -> nat
    var ht0: Table<K, V>
    var ht1: Table<K, V>
    var rehashidx: int
    var iterators: nat

    ghost function State(): Dict<K, V>
      reads this
    {
      Dict(ht0, ht1, rehashidx, iterators)
    }

    ghost predicate Valid()
      reads this
    {
      Inv(State(), hash)
    }

    constructor (hash: K -> nat)
      ensures Valid() && State() == EmptyDict<K, V>() && this.hash == hash
      ensures Represents(State(), hash, map[])
    {
      this.hash := hash;
      ht0 := Table([], 0);
      ht1 := Table([], 0);
      rehashidx := -1;
      iterators := 0;
      new;
      EmptyDictRepresents<K, V>(hash);
    }

    /** dictExpand. */
    method ExpandTo(size: nat) returns (ok: bool)
      requires Valid()
      modifies this`ht0, this`ht1, this`rehashidx
      ensures Valid() && (State(), ok) == Expand(old(State()), size)
    {
      ExpandKeeps(State(), hash, size);
      var p := ComputeNextPower(size);
      if rehashidx != -1 || ht0.used > size { return false; }
      if p == |ht0.buckets| { return false; }
      var fresh0 := Table(seq(p, i => []), 0);
      assert fresh0.buckets == EmptyTable<K, V>(p).buckets;
      if ht0.buckets == [] {
        ht0 := fresh0;
      } else {
        ht1 := fresh0;
        rehashidx := 0;
      }
      return true;
    }

    /** Skips the empty buckets; false when the allowance of empty visits ran out. */
    method SkipEmptyBuckets(visits: nat) returns (left: nat)
      requires Valid() && rehashidx >= 0 && ht0.used != 0 && visits > 0
      modifies this`rehashidx
      ensures Valid()
      ensures (rehashidx, left) == SkipEmpty(old(ht0.buckets), old(rehashidx), visits)
      ensures left > 0 ==> rehashidx < |ht0.buckets|
    {
      left := visits;
      SomeBucketLeft(State(), hash);
      while ht0.buckets[rehashidx] == []
        invariant Valid() && 0 <= rehashidx < |ht0.buckets| && left > 0
        invariant SkipEmpty(ht0.buckets, rehashidx, left) == SkipEmpty(ht0.buckets, old(rehashidx), visits)
        decreases |ht0.buckets| - rehashidx
      {
        rehashidx := rehashidx + 1;
        left := left - 1;
        if left == 0 { return; }
        SomeBucketLeft(State(), hash);
      }
    }

    /** Relinks the entries of a chain into the second table. */
    method RelinkChain(c: Chain<K, V>)
      requires ht1.buckets != [] && |c| <= ht0.used
      modifies this`ht0, this`ht1
      ensures ht1 == MoveChain(c, old(ht1), hash)
      ensures ht0 == old(ht0).(used := old(ht0.used) - |c|)
    {
      var de := c;
      while de != []
        invariant ht1.buckets != [] && |de| <= |c|
        invariant MoveChain(de, ht1, hash) == MoveChain(c, old(ht1), hash)
        invariant ht0 == old(ht0).(used := old(ht0.used) - (|c| - |de|))
        decreases |de|
      {
        var i := hash(de[0].key) % |ht1.buckets|;
        ht1 := Table(ht1.buckets[i := [de[0]] + ht1.buckets[i]], ht1.used + 1);
        ht0 := ht0.(used := ht0.used - 1);
        de := de[1..];
      }
    }

    /** Relinks every entry of the bucket at rehashidx into the second table. */
    method MoveOneBucket()
      requires Valid() && 0 <= rehashidx < |ht0.buckets|
      modifies this`ht0, this`ht1, this`rehashidx
      ensures Valid()
      ensures |old(ht0.buckets[rehashidx])| <= old(ht0.used)
      ensures State() == MoveBucket(old(State()), hash)
    {
      MoveBucketKeeps(State(), hash);
      RelinkChain(ht0.buckets[rehashidx]);
      ht0 := ht0.(buckets := ht0.buckets[rehashidx := []]);
      rehashidx := rehashidx + 1;
    }

    /** Drops the first table once it is empty. */
    method Finish() returns (more: bool)
      requires Valid() && rehashidx >= 0
      modifies this`ht0, this`ht1, this`rehashidx
      ensures Valid() && State() == FinishRehash(old(State()))
      ensures more == IsRehashing(State())
    {
      FinishRehashKeeps(State(), hash);
      more := ht0.used != 0;
      if !more {
        ht0, ht1, rehashidx := ht1, Table([], 0), -1;
      }
    }

    /** With n moves and `visits` visits left, the loop of dictRehash is on its way to goal. */
    ghost predicate Heading(n: nat, visits: nat, goal: Dict<K, V>)
      reads this
    {
      Valid() && rehashidx >= 0 && visits > 0 && RehashLoop(State(), hash, n, visits) == goal
    }

    /** One turn of dictRehash's loop: skip, then move a bucket unless the visits ran out. */
    method RehashTurn(ghost n: nat, visits: nat, ghost goal: Dict<K, V>) returns (left: nat)
      requires Heading(n, visits, goal) && ht0.used != 0 && n > 0
      modifies this`ht0, this`ht1, this`rehashidx
      ensures if left == 0 then Valid() && rehashidx >= 0 && State() == goal else Heading(n - 1, left, goal)
    {
      left := SkipEmptyBuckets(visits);
      if left > 0 {
        MoveBucketKeeps(State(), hash);
        MoveOneBucket();
      }
    }

    /** The check after the loop of dictRehash. */
    method FinishLoop(ghost n: nat, ghost visits: nat, ghost goal: Dict<K, V>) returns (more: bool)
      requires Heading(n, visits, goal) && (n == 0 || ht0.used == 0)
      modifies this`ht0, this`ht1, this`rehashidx
      ensures Valid() && State() == goal && more == IsRehashing(State())
    {
      RehashLoopEnds(State(), hash, n, visits);
      more := Finish();
    }

    /** The loop of dictRehash, and the check after it. */
    method RehashBuckets(n: nat, emptyVisits: nat, ghost goal: Dict<K, V>) returns (more: bool)
      requires n > 0 && Heading(n, emptyVisits, goal)
      modifies this`ht0, this`ht1, this`rehashidx
      ensures Valid() && State() == goal && more == IsRehashing(State())
    {
      var todo, visits := n, emptyVisits;
      while todo > 0 && ht0.used != 0
        invariant Heading(todo, visits, goal)
        decreases todo
      {
        visits := RehashTurn(todo, visits, goal);
        if visits == 0 { return true; }
        todo := todo - 1;
      }
      more := FinishLoop(todo, visits, goal);
    }

    /** dictRehash(d, n): true while entries remain to be moved. */
    method RehashSteps(n: nat) returns (more: bool)
      requires Valid()
      modifies this`ht0, this`ht1, this`rehashidx
      ensures Valid() && State() == Rehash(old(State()), hash, n)
      ensures more == IsRehashing(State())
      ensures forall k :: Lookup(State(), hash, k) == old(Lookup(State(), hash, k))
    {
      RehashKeeps(State(), hash, n);
      if rehashidx == -1 { return false; }
      if n == 0 {
        more := Finish();
      } else {
        more := RehashBuckets(n, 10 * n, RehashLoop(State(), hash, n, 10 * n));
      }
    }

    /** _dictRehashStep, guarded as its callers guard it. */
    method Step()
      requires Valid()
      modifies this`ht0, this`ht1, this`rehashidx
      ensures Valid() && State() == Stepped(old(State()), hash)
    {
      if rehashidx != -1 && iterators == 0 {
        var _ := RehashSteps(1);
      }
    }

    /** dictFind: the table (0 or 1), bucket and position of the entry, or found == false. */
    method Locate(k: K) returns (found: bool, table: nat, b: nat, i: nat)
      requires Valid() && ht0.buckets != []
      ensures found == Lookup(State(), hash, k).Some?
      ensures found ==> table <= 1
      ensures found ==> (table == 0 <==> TableFind(ht0, hash, k).Some?)
      ensures found ==> var t := if table == 0 then ht0 else ht1;
                        && t.buckets != [] && b == hash(k) % |t.buckets| && i < |t.buckets[b]|
                        && t.buckets[b][i].key == k
                        && Lookup(State(), hash, k) == Some(t.buckets[b][i].val)
                        && forall j :: 0 <= j < i ==> t.buckets[b][j].key != k
    {
      table := 0;
      b := hash(k) % |ht0.buckets|;
      i := SearchChain(ht0.buckets[b], k);
      found := i < |ht0.buckets[b]|;
      if !found && rehashidx != -1 {
        table := 1;
        b := hash(k) % |ht1.buckets|;
        i := SearchChain(ht1.buckets[b], k);
        found := i < |ht1.buckets[b]|;
      }
    }

    /** dictFetchValue. */
    method FindKey(k: K) returns (r: Option<V>)
      requires Valid()
      modifies this`ht0, this`ht1, this`rehashidx
      ensures Valid() && (State(), r) == Find(old(State()), hash, k)
      ensures r == old(Lookup(State(), hash, k))
    {
      FindKeeps(State(), hash, k);
      if ht0.used + ht1.used == 0 { return None; }
      Step();
      if ht0.buckets == [] {
        r := None;
      } else {
        var found, table, b, i := Locate(k);
        r := if !found then None
             else Some((if table == 0 then ht0 else ht1).buckets[b][i].val);
      }
    }

    /** _dictExpandIfNeeded. */
    method ExpandWhenNeeded(canResize: bool) returns (ok: bool)
      requires Valid()
      modifies this`ht0, this`ht1, this`rehashidx
      ensures Valid() && (State(), ok) == ExpandIfNeeded(old(State()), canResize)
      ensures ok && ht0.buckets != []
      ensures old(rehashidx) == -1 && old(ht0.buckets) != [] ==>
                (rehashidx != -1 <==> |ht0.buckets| <= ht0.used && (canResize || 6 * |ht0.buckets| <= ht0.used))
      ensures old(rehashidx) == -1 && rehashidx != -1 ==>
                ht0 == old(ht0) && rehashidx == 0 && ht1.used == 0 && DictLoad.LeastPower(|ht1.buckets|, 2 * ht0.used)
    {
      ExpandIfNeededSucceeds(State(), hash, canResize);
      DictLoad.GrowsExactly(State(), hash, canResize);
      ok := true;
      if rehashidx == -1 {
        if ht0.buckets == [] {
          ok := ExpandTo(INITIAL_SIZE);
        } else if ht0.used >= |ht0.buckets| && (canResize || ht0.used / |ht0.buckets| > FORCE_RESIZE_RATIO) {
          ok := ExpandTo(ht0.used * 2);
        }
      }
    }

    /** dictAdd. */
    method AddKey(k: K, v: V, canResize: bool) returns (ok: bool)
      requires Valid()
      modifies this`ht0, this`ht1, this`rehashidx
      ensures Valid() && (State(), ok) == Add(old(State()), hash, canResize, k, v)
      ensures ok == old(Lookup(State(), hash, k)).None?
    {
      ghost var d := State();
      Step();
      ok := ExpandWhenNeeded(canResize);
      var found, _, _, _ := Locate(k);
      if found {
        ok := false;
      } else if rehashidx != -1 {
        var i := hash(k) % |ht1.buckets|;
        ht1 := Table(ht1.buckets[i := [Entry(k, v)] + ht1.buckets[i]], ht1.used + 1);
      } else {
        var i := hash(k) % |ht0.buckets|;
        ht0 := Table(ht0.buckets[i := [Entry(k, v)] + ht0.buckets[i]], ht0.used + 1);
      }
      assert (State(), ok) == Add(d, hash, canResize, k, v);
      AddKeeps(d, hash, canResize, k, v);
    }

    /** Sets the value of the entry that holds k, in place. */
    method SetValue(k: K, v: V)
      requires Valid() && ht0.buckets != []
      modifies this`ht0, this`ht1
      ensures Valid() && State() == Overwrite(old(State()), hash, k, v)
    {
      OverwriteKeeps(State(), hash, k, v);
      var found, table, b, i := Locate(k);
      if found {
        if table == 0 {
          ChainEdit(ht0.buckets[b], k, v, i);
          ht0 := ht0.(buckets := ht0.buckets[b := ht0.buckets[b][i := Entry(k, v)]]);
        } else {
          ChainEdit(ht1.buckets[b], k, v, i);
          ht1 := ht1.(buckets := ht1.buckets[b := ht1.buckets[b][i := Entry(k, v)]]);
        }
      }
    }

    /** dictReplace: true when the key was added from scratch. */
    method ReplaceKey(k: K, v: V, canResize: bool) returns (added: bool)
      requires Valid()
      modifies this`ht0, this`ht1, this`rehashidx
      ensures Valid() && (State(), added) == Replace(old(State()), hash, canResize, k, v)
      ensures Lookup(State(), hash, k) == Some(v)
    {
      ReplaceKeeps(State(), hash, canResize, k, v);
      AddKeeps(State(), hash, canResize, k, v);
      added := AddKey(k, v, canResize);
      if !added {
        FindKeeps(State(), hash, k);
        var _ := FindKey(k);
        assert ht0.buckets != [] by { assert Lookup(State(), hash, k).Some?; }
        SetValue(k, v);
      }
    }

    /** Unlinks the entry that holds k from the table that has it. */
    method Unlink(k: K) returns (ok: bool)
      requires Valid() && ht0.buckets != []
      modifies this`ht0, this`ht1
      ensures (State(), ok) == Remove(old(State()), hash, k)
    {
      var found, table, b, i := Locate(k);
      ok := found;
      if found {
        var c := (if table == 0 then ht0 else ht1).buckets[b];
        ChainEdit(c, k, c[i].val, i);
        if table == 0 {
          TableFindUsed(ht0, hash, k);
          ht0 := Table(ht0.buckets[b := c[..i] + c[i + 1..]], ht0.used - 1);
        } else {
          TableFindUsed(ht1, hash, k);
          ht1 := Table(ht1.buckets[b := c[..i] + c[i + 1..]], ht1.used - 1);
        }
      }
    }

    /** dictDelete: true if the entry was there. */
    method DeleteKey(k: K) returns (ok: bool)
      requires Valid()
      modifies this`ht0, this`ht1, this`rehashidx
      ensures Valid() && (State(), ok) == Delete(old(State()), hash, k)
      ensures ok == old(Lookup(State(), hash, k)).Some?
    {
      DeleteKeeps(State(), hash, k);
      if ht0.buckets == [] { return false; }
      SteppedKeeps(State(), hash);
      Step();
      ok := Unlink(k);
    }
  }
}
