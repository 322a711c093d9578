/** The cursor of dictScan, for words of W bits.  A table of 2^a buckets places a hash by
    its low a bits; the scan visits buckets in the order of their reversed index.
    Position(x) is the place of a hash, or of a cursor, in that order. */
module ScanCursor {
  import opened Prelude
  import opened ReverseBits

  function Position(x: nat, W: nat): nat {
    Rev(x, W)
  }

  /** The end of dictScan: set the bits above the mask, reverse, increment (a W-bit
      addition that may wrap), reverse. */
  function NextCursor(v: nat, a: nat, W: nat): nat
    requires a <= W
  {
    Pow2Monotone(a, W);
    Rev(Low(Rev(Low(v, a) + (Pow2(W) - Pow2(a)), W) + 1, W), W)
  }

  /** The a high bits of a position number the bucket: positions of one bucket are an interval. */
  lemma PositionInterval(x: nat, a: nat, W: nat)
    requires a <= W
    ensures Shl(Rev(x, a), W - a) <= Position(x, W) < Shl(Rev(x, a) + 1, W - a)
  {
    RevSplit(x, a, W - a);
    ShlNext(Rev(x, a), W - a);
  }

  /** Reversing the masked cursor fills everything below the bucket number with ones. */
  lemma MaskedReversal(v: nat, a: nat, W: nat)
    requires a <= W
    ensures Pow2(a) <= Pow2(W)
    ensures Rev(Low(v, a) + (Pow2(W) - Pow2(a)), W) + 1 == Shl(Rev(v, a) + 1, W - a)
  {
    var c := W - a;
    Pow2Monotone(a, W);
    ShlNext(Pow2(c) - 1, a);
    ShlPow2(c, a);
    FilledReversal(v, a, c, Low(v, a) + Shl(Pow2(c) - 1, a));
  }

  lemma FilledReversal(v: nat, a: nat, c: nat, u: nat)
    requires u == Low(v, a) + Shl(Pow2(c) - 1, a)
    ensures Rev(u, a + c) + 1 == Shl(Rev(v, a) + 1, c)
  {
    assert Rev(u, a + c) == Shl(Rev(v, a), c) + (Pow2(c) - 1) by {
      Join(Low(v, a), Pow2(c) - 1, a);
      RevSplit(u, a, c);
      RevInjective(u, v, a);
      RevOnes(c);
    }
    ShlNext(Rev(v, a), c);
  }

  /** The next cursor is the bucket whose reversed number comes next; it is 0 exactly when
      the cursor was in the last bucket. */
  lemma NextCursorBucket(v: nat, a: nat, W: nat)
    requires a <= W
    ensures NextCursor(v, a, W) == Rev(Low(Rev(v, a) + 1, a), a)
    ensures NextCursor(v, a, W) < Pow2(a)
    ensures NextCursor(v, a, W) == 0 <==> Rev(v, a) + 1 == Pow2(a)
  {
    var c, q := W - a, Rev(v, a) + 1;
    var t := Shl(Low(q, a), c);
    assert NextCursor(v, a, W) == Rev(t, W) by {
      MaskedReversal(v, a, W);
      LowShl(q, a, c);
    }
    assert Rev(t, W) == Rev(Low(q, a), a) by { RevShifted(Low(q, a), c, a); }
    NextBucket(q, a);
  }

  lemma RevShifted(q: nat, c: nat, a: nat)
    ensures Rev(Shl(q, c), c + a) == Rev(q, a)
  {
    var t := Shl(q, c);
    RevSplit(t, c, a);
    assert Low(t, c) == 0 && Shr(t, c) == q by { Join(0, q, c); }
    assert Rev(t, c) == 0 by {
      RevZero(c);
      RevInjective(t, 0, c);
    }
    ShlPow2(0, a);
  }

  lemma NextBucket(q: nat, a: nat)
    requires 0 < q <= Pow2(a)
    ensures Rev(Low(q, a), a) == 0 <==> q == Pow2(a)
  {
    RevZero(a);
    RevInjective(Low(q, a), 0, a);
    LowLow(q, a, a);
    if q == Pow2(a) {
      ShlPow2(0, a);
      Join(0, 1, a);
    } else {
      LowSmall(q, a);
    }
  }

  /** Unless it wrapped, the next cursor is where the interval of the cursor's bucket ends. */
  lemma {:induction false} NextCursorPosition(v: nat, a: nat, W: nat)
    requires a <= W && Rev(v, a) + 1 != Pow2(a)
    ensures Position(NextCursor(v, a, W), W) == Shl(Rev(v, a) + 1, W - a)
  {
    MaskedReversal(v, a, W);
    IntervalEnd(Rev(v, a) + 1, a, W - a);
  }

  lemma IntervalEnd(q: nat, a: nat, c: nat)
    requires q < Pow2(a)
    ensures Rev(Rev(Low(Shl(q, c), a + c), a + c), a + c) == Shl(q, c)
  {
    assert Low(Shl(q, c), a + c) == Shl(q, c) by {
      LowSmall(q, a);
      LowShl(q, a, c);
    }
    RevRev(Shl(q, c), a + c);
  }

  /** Points of distinct intervals compare as the intervals do. */
  lemma IntervalOrder(m: nat, n: nat, p: nat, q: nat, c: nat)
    requires m != n && q >= p
    requires Shl(m, c) <= p < Shl(m + 1, c) && Shl(n, c) <= q < Shl(n + 1, c)
    ensures m < n && q >= Shl(m + 1, c)
  {
    if n < m {
      ShlMonotone(n + 1, m, c);
    } else {
      ShlMonotone(m + 1, n, c);
    }
  }

  /** What lies at or after the cursor and outside its bucket lies at or after the next
      cursor, which is then not 0. */
  lemma NextCursorSkipsOnlyItsBucket(x: nat, v: nat, a: nat, W: nat)
    requires a <= W && Position(x, W) >= Position(v, W) && Low(x, a) != Low(v, a)
    ensures NextCursor(v, a, W) != 0 && Position(x, W) >= Position(NextCursor(v, a, W), W)
  {
    LaterInterval(x, v, a, W);
    assert NextCursor(v, a, W) != 0 by { NextCursorBucket(v, a, W); }
    NextCursorPosition(v, a, W);
  }

  lemma {:induction false} LaterInterval(x: nat, v: nat, a: nat, W: nat)
    requires a <= W && Position(x, W) >= Position(v, W) && Low(x, a) != Low(v, a)
    ensures Rev(v, a) < Rev(x, a) && Position(x, W) >= Shl(Rev(v, a) + 1, W - a)
  {
    assert Rev(v, a) != Rev(x, a) by { RevInjective(x, v, a); }
    PositionInterval(x, a, W);
    PositionInterval(v, a, W);
    IntervalOrder(Rev(v, a), Rev(x, a), Position(v, W), Position(x, W), W - a);
  }

  // ----- the two tables of a migration -----------------------------------------

  /** The bits of x between the smaller mask (a bits) and the larger one (b bits). */
  function High(x: nat, a: nat, b: nat): nat
    requires a <= b
  {
    Low(Shr(x, a), b - a)
  }

  function TrailingOnes(n: nat): nat {
    if n % 2 == 0 then 0 else 1 + TrailingOnes(n / 2)
  }

  /** n is 0, 1, 11, 111, ... in binary; n & (n + 1) == 0. */
  predicate IsLowRun(n: nat) {
    n == Pow2(TrailingOnes(n)) - 1
  }

  lemma {:induction false} TrailingOnesFacts(n: nat)
    ensures Low(n, TrailingOnes(n)) == Pow2(TrailingOnes(n)) - 1
    ensures Low(n, TrailingOnes(n) + 1) == Pow2(TrailingOnes(n)) - 1
    ensures n >= Pow2(TrailingOnes(n)) - 1
  {
    if n % 2 == 1 {
      TrailingOnesFacts(n / 2);
    } else {
      assert Low(n, 1) == n % 2 + 2 * Low(n / 2, 0);
    }
  }

  /** The expansions that a call visits in the larger table: it counts up from the cursor's
      own high bits, in plain order, until they wrap. */
  predicate VisitsExpansion(v: nat, x: nat, a: nat, b: nat)
    requires a <= b
  {
    Low(x, a) == Low(v, a) && High(x, a, b) >= High(v, a, b)
  }

  /** Everything of the cursor's bucket that lies at or after the cursor is visited. */
  ghost predicate CallCovers(v: nat, a: nat, b: nat, W: nat)
    requires a <= b
  {
    forall x: nat :: Low(x, a) == Low(v, a) && Position(x, W) >= Position(v, W) ==> VisitsExpansion(v, x, a, b)
  }

  /** Within one bucket, positions compare as the reversed higher bits do. */
  lemma {:induction false} PositionWithinBucket(x: nat, v: nat, a: nat, W: nat)
    requires a <= W && Low(x, a) == Low(v, a)
    ensures Position(x, W) >= Position(v, W) <==> Rev(Shr(x, a), W - a) >= Rev(Shr(v, a), W - a)
  {
    RevSplit(x, a, W - a);
    RevSplit(v, a, W - a);
    RevInjective(x, v, a);
  }

  /** Words ordered by their reversals are ordered by the reversals of their low j bits. */
  lemma RevOrderLow(y: nat, z: nat, j: nat, c: nat)
    ensures Rev(z, j + c) >= Rev(y, j + c) ==> Rev(z, j) >= Rev(y, j)
    ensures Rev(z, j) > Rev(y, j) ==> Rev(z, j + c) >= Rev(y, j + c)
  {
    RevSplit(y, j, c);
    RevSplit(z, j, c);
    ShlNext(Rev(y, j), c);
    ShlNext(Rev(z, j), c);
    if Rev(z, j) < Rev(y, j) { ShlMonotone(Rev(z, j) + 1, Rev(y, j), c); }
    if Rev(z, j) > Rev(y, j) { ShlMonotone(Rev(y, j) + 1, Rev(z, j), c); }
  }

  lemma AllOnes(y: nat, z: nat, j: nat)
    requires Low(y, j) == Pow2(j) - 1 && Rev(z, j) >= Rev(y, j)
    ensures Low(z, j) == Pow2(j) - 1
  {
    RevOnes(j);
    LowSmall(Pow2(j) - 1, j);
    RevInjective(y, Pow2(j) - 1, j);
    RevInjective(z, Pow2(j) - 1, j);
  }

  lemma TrailingOnesFit(n: nat, w: nat)
    requires n < Pow2(w)
    ensures TrailingOnes(n) <= w
  {
    TrailingOnesFacts(n);
    if TrailingOnes(n) > w { Pow2StrictlyMonotone(w, TrailingOnes(n)); }
  }

  /** In one bucket, the order of positions shows on any number j of the bits above it. */
  lemma {:induction false} PositionOrderAbove(x: nat, v: nat, a: nat, j: nat, W: nat)
    requires a + j <= W && Low(x, a) == Low(v, a)
    ensures Position(x, W) >= Position(v, W) ==> Rev(Shr(x, a), j) >= Rev(Shr(v, a), j)
    ensures Rev(Shr(x, a), j) > Rev(Shr(v, a), j) ==> Position(x, W) >= Position(v, W)
  {
    PositionWithinBucket(x, v, a, W);
    RevOrderLow(Shr(v, a), Shr(x, a), j, W - a - j);
  }

  lemma LowRunBits(y: nat, w: nat, j: nat)
    requires j == TrailingOnes(Low(y, w)) && j <= w
    ensures Low(y, j) == Pow2(j) - 1
  {
    TrailingOnesFacts(Low(y, w));
    LowLow(y, j, w);
  }

  lemma RunIsLeast(y: nat, z: nat, w: nat, j: nat)
    requires j == TrailingOnes(Low(y, w)) && j <= w && IsLowRun(Low(y, w))
    requires Rev(z, j) >= Rev(y, j)
    ensures Low(z, w) >= Low(y, w)
  {
    LowRunBits(y, w, j);
    AllOnes(y, z, j);
    LowLow(z, j, w);
  }

  lemma {:induction false} LowRunCovers(v: nat, x: nat, a: nat, b: nat, W: nat)
    requires a <= b <= W && IsLowRun(High(v, a, b))
    requires Low(x, a) == Low(v, a) && Position(x, W) >= Position(v, W)
    ensures VisitsExpansion(v, x, a, b)
  {
    RunOrder(v, x, a, b - a, W);
  }

  lemma RunOrder(v: nat, x: nat, a: nat, w: nat, W: nat)
    requires a + w <= W && IsLowRun(Low(Shr(v, a), w))
    requires Low(x, a) == Low(v, a) && Position(x, W) >= Position(v, W)
    ensures Low(Shr(x, a), w) >= Low(Shr(v, a), w)
  {
    var y, z := Shr(v, a), Shr(x, a);
    var j := TrailingOnes(Low(y, w));
    TrailingOnesFit(Low(y, w), w);
    assert Rev(z, j) >= Rev(y, j) by { PositionOrderAbove(x, v, a, j, W); }
    RunIsLeast(y, z, w, j);
  }

  /** The hash that a call misses when the cursor's high bits are not a low run. */
  function Missed(v: nat, a: nat, b: nat): nat
    requires a <= b
  {
    Low(v, a) + Shl(Pow2(TrailingOnes(High(v, a, b)) + 1) - 1, a)
  }

  lemma NoLowRun(n: nat, w: nat)
    requires n < Pow2(w) && !IsLowRun(n)
    ensures Pow2(TrailingOnes(n) + 1) <= n && TrailingOnes(n) + 1 <= w
  {
    var i := TrailingOnes(n);
    TrailingOnesFacts(n);
    if n < Pow2(i + 1) {
      LowSmall(n, i + 1);
      assert false;
    }
    if i + 1 > w {
      Pow2Monotone(w, i + 1);
      assert false;
    }
  }

  lemma MissedIsSmaller(v: nat, a: nat, b: nat)
    requires a <= b && !IsLowRun(High(v, a, b))
    ensures TrailingOnes(High(v, a, b)) + 1 <= b - a
    ensures Low(Missed(v, a, b), a) == Low(v, a)
    ensures Shr(Missed(v, a, b), a) == Pow2(TrailingOnes(High(v, a, b)) + 1) - 1
    ensures High(Missed(v, a, b), a, b) < High(v, a, b)
  {
    var hv := High(v, a, b);
    var i, w := TrailingOnes(hv), b - a;
    NoLowRun(hv, w);
    Join(Low(v, a), Pow2(i + 1) - 1, a);
    Pow2Monotone(i + 1, w);
    LowSmall(Pow2(i + 1) - 1, w);
  }

  lemma MoreOnesLater(y: nat, w: nat, i: nat)
    requires i == TrailingOnes(Low(y, w)) && i + 1 <= w
    ensures Rev(Pow2(i + 1) - 1, i + 1) > Rev(y, i + 1)
  {
    assert Low(y, i + 1) == Pow2(i) - 1 by {
      TrailingOnesFacts(Low(y, w));
      LowLow(y, i + 1, w);
    }
    NotAllOnes(y, i + 1);
  }

  lemma NotAllOnes(y: nat, j: nat)
    requires Low(y, j) != Pow2(j) - 1
    ensures Rev(Pow2(j) - 1, j) > Rev(y, j)
  {
    LowSmall(Pow2(j) - 1, j);
    RevOnes(j);
    RevInjective(y, Pow2(j) - 1, j);
  }

  lemma MissedIsLater(v: nat, a: nat, b: nat, W: nat)
    requires a <= b <= W && !IsLowRun(High(v, a, b))
    ensures Position(Missed(v, a, b), W) >= Position(v, W)
  {
    var i := TrailingOnes(High(v, a, b));
    MissedIsSmaller(v, a, b);
    MoreOnesLater(Shr(v, a), b - a, i);
    PositionOrderAbove(Missed(v, a, b), v, a, i + 1, W);
  }

  /** A call made during a migration covers the rest of its bucket if and only if the
      cursor's bits between the two masks are a low run; no bits at all is the usual case. */
  lemma CallCoversExactly(v: nat, a: nat, b: nat, W: nat)
    requires a <= b <= W
    ensures CallCovers(v, a, b, W) <==> IsLowRun(High(v, a, b))
  {
    if IsLowRun(High(v, a, b)) {
      forall x: nat | Low(x, a) == Low(v, a) && Position(x, W) >= Position(v, W)
        ensures VisitsExpansion(v, x, a, b)
      {
        LowRunCovers(v, x, a, b, W);
      }
    } else {
      MissedIsSmaller(v, a, b);
      MissedIsLater(v, a, b, W);
      assert !VisitsExpansion(v, Missed(v, a, b), a, b);
    }
  }

  // ----- an unchanged table ------------------------------------------------------

  /** The cursor after n calls on a table of 2^a buckets, from cursor 0. */
  function CursorAfter(n: nat, a: nat, W: nat): nat
    requires a <= W
    decreases n
  {
    if n == 0 then 0 else NextCursor(CursorAfter(n - 1, a, W), a, W)
  }

  lemma {:induction false} CursorAfterReversed(n: nat, a: nat, W: nat)
    requires a <= W && n < Pow2(a)
    ensures Rev(CursorAfter(n, a, W), a) == n
    decreases n
  {
    if n == 0 {
      RevZero(a);
    } else {
      CursorAfterReversed(n - 1, a, W);
      NextCursorBucket(CursorAfter(n - 1, a, W), a, W);
      LowSmall(n, a);
      RevRev(n, a);
    }
  }

  /** On an unchanged table of 2^a buckets the cursor returns to 0 after exactly 2^a calls. */
  lemma CursorCycle(n: nat, a: nat, W: nat)
    requires a <= W && 0 < n <= Pow2(a)
    ensures CursorAfter(n, a, W) == 0 <==> n == Pow2(a)
  {
    CursorAfterReversed(n - 1, a, W);
    NextCursorBucket(CursorAfter(n - 1, a, W), a, W);
  }
}
