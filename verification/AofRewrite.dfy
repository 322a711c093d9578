/** The background rewrite of the append-only file: the parent collects what is fed after the
    fork in a list of blocks and sends it through a pipe; the child writes its snapshot,
    then what it received; the parent appends the rest. */
module AofRewrite {
  import opened Prelude

  /** A block holds `data` and has room for `free` more bytes.  Sending from the front makes
      `data` shorter and does not give room back. */
  datatype Block = Block(data: seq<Byte>, free: nat)

  const BLOCK_SIZE := 10485760

  function Concat(bs: seq<Block>): seq<Byte> {
    if bs == [] then [] else bs[0].data + Concat(bs[1..])
  }

  lemma {:induction false} ConcatAppend(bs: seq<Block>, cs: seq<Block>)
    ensures Concat(bs + cs) == Concat(bs) + Concat(cs)
  {
    if bs == [] {
      assert bs + cs == cs;
    } else {
      TailOfConcat(bs, cs);
      ConcatAppend(bs[1..], cs);
      Assoc(bs[0].data, Concat(bs[1..]), Concat(cs));
    }
  }

  lemma ConcatOne(b: Block)
    ensures Concat([b]) == b.data
  {
    assert Concat([b][1..]) == [];
  }

  predicate BlocksOk(bs: seq<Block>) {
    forall i :: 0 <= i < |bs| ==> |bs[i].data| + bs[i].free <= BLOCK_SIZE
  }

  datatype Phase = Writing | AskedToStop | Drained | Exited

  /** The two processes.  `pipe` is what the parent wrote and the child has not read; `asked`
      and `acked` are the two one-byte messages in flight; `fed` and `snapshot` record what
      was fed since the fork and what the child wrote on its own. */
  datatype State = State(blocks: seq<Block>, stop: bool, pipe: seq<Byte>, asked: bool, acked: bool,
                         childDiff: seq<Byte>, phase: Phase, file: seq<Byte>,
                         snapshot: seq<Byte>, fed: seq<Byte>)

  datatype Action =
    | Feed(bytes: seq<Byte>)            // feedAppendOnlyFile while the child runs
    | ParentSend(n: nat)                // one write(2) of aofChildWriteDiffData
    | ChildSnapshot(bytes: seq<Byte>)   // the child writes part of the data set
    | ChildRead(n: nat)                 // one read(2) of aofReadDiffFromParent
    | ChildAsk                          // the child asks the parent to stop
    | ParentAck                         // aofChildPipeReadable
    | ChildDrain                        // the ack arrived: read until the pipe is empty
    | ChildExit                         // append the received diff and exit

  // ----- the buffer of blocks as functions ---------------------------------------------

  /** Copies x into the last block. */
  function Fill(bs: seq<Block>, x: seq<Byte>): seq<Block>
    requires bs != [] && |x| <= bs[|bs| - 1].free
  {
    var last := bs[|bs| - 1];
    bs[..|bs| - 1] + [Block(last.data + x, last.free - |x|)]
  }

  /** aofRewriteBufferAppend. */
  function Append(bs: seq<Block>, s: seq<Byte>): seq<Block>
    decreases |s|, if bs == [] || bs[|bs| - 1].free == 0 then 1 else 0
  {
    if s == [] then bs
    else if bs == [] || bs[|bs| - 1].free == 0 then Append(bs + [Block([], BLOCK_SIZE)], s)
    else
      var last := bs[|bs| - 1];
      var n := if last.free < |s| then last.free else |s|;
      Append(Fill(bs, s[..n]), s[n..])
  }

  lemma ConcatSnoc(init: seq<Block>, b: Block)
    ensures Concat(init + [b]) == Concat(init) + b.data
  {
    ConcatAppend(init, [b]);
    ConcatOne(b);
  }

  lemma ConcatExtendLast(init: seq<Block>, last: Block, x: seq<Byte>, free: nat)
    ensures Concat(init + [Block(last.data + x, free)]) == Concat(init + [last]) + x
  {
    ConcatSnoc(init, last);
    ConcatSnoc(init, Block(last.data + x, free));
    Assoc(Concat(init), last.data, x);
  }

  lemma FillAdds(bs: seq<Block>, x: seq<Byte>)
    requires BlocksOk(bs) && bs != [] && |x| <= bs[|bs| - 1].free
    ensures BlocksOk(Fill(bs, x)) && Concat(Fill(bs, x)) == Concat(bs) + x
  {
    var init, last := bs[..|bs| - 1], bs[|bs| - 1];
    FillConcat(bs, init, last, x);
    FillFits(bs, x);
  }

  lemma FillFits(bs: seq<Block>, x: seq<Byte>)
    requires BlocksOk(bs) && bs != [] && |x| <= bs[|bs| - 1].free
    ensures BlocksOk(Fill(bs, x))
  {
    var r := Fill(bs, x);
    assert |r| == |bs| && forall i :: 0 <= i < |bs| - 1 ==> r[i] == bs[i];
  }

  lemma FillConcat(bs: seq<Block>, init: seq<Block>, last: Block, x: seq<Byte>)
    requires bs == init + [last] && |x| <= last.free
    ensures Concat(Fill(bs, x)) == Concat(bs) + x
  {
    assert Fill(bs, x) == init + [Block(last.data + x, last.free - |x|)];
    ConcatExtendLast(init, last, x, last.free - |x|);
  }

  lemma NewBlockAdds(bs: seq<Block>)
    requires BlocksOk(bs)
    ensures BlocksOk(bs + [Block([], BLOCK_SIZE)]) && Concat(bs + [Block([], BLOCK_SIZE)]) == Concat(bs)
  {
    ConcatSnoc(bs, Block([], BLOCK_SIZE));
  }

  /** Appending adds exactly the bytes, at the end, and no block outgrows its size. */
  lemma {:induction false} AppendAdds(bs: seq<Block>, s: seq<Byte>)
    requires BlocksOk(bs)
    ensures BlocksOk(Append(bs, s)) && Concat(Append(bs, s)) == Concat(bs) + s
    decreases |s|, if bs == [] || bs[|bs| - 1].free == 0 then 1 else 0
  {
    if s == [] {
      assert Concat(bs) + s == Concat(bs);
    } else if bs == [] || bs[|bs| - 1].free == 0 {
      NewBlockAdds(bs);
      AppendAdds(bs + [Block([], BLOCK_SIZE)], s);
    } else {
      var free := bs[|bs| - 1].free;
      var n := if free < |s| then free else |s|;
      FillAdds(bs, s[..n]);
      AppendAdds(Fill(bs, s[..n]), s[n..]);
      assert s == s[..n] + s[n..];
      assert Concat(bs) + s[..n] + s[n..] == Concat(bs) + s;
    }
  }

  /** The first block loses the n bytes that were written, and goes when it is empty. */
  function Sent(bs: seq<Block>, n: nat): seq<Block>
    requires bs != [] && n <= |bs[0].data|
  {
    var b := bs[0];
    if n == |b.data| then bs[1..] else [Block(b.data[n..], b.free)] + bs[1..]
  }

  lemma SentRemovesFront(bs: seq<Block>, n: nat)
    requires bs != [] && n <= |bs[0].data| && BlocksOk(bs)
    ensures BlocksOk(Sent(bs, n)) && bs[0].data[..n] + Concat(Sent(bs, n)) == Concat(bs)
  {
    var b := bs[0];
    assert b.data == b.data[..n] + b.data[n..];
    if n < |b.data| {
      ConcatAppend([Block(b.data[n..], b.free)], bs[1..]);
      ConcatOne(Block(b.data[n..], b.free));
      assert b.data[..n] + (b.data[n..] + Concat(bs[1..])) == b.data + Concat(bs[1..]);
    }
  }

  // ----- the protocol ----------------------------------------------------------------------

  predicate Enabled(st: State, a: Action) {
    match a
    case Feed(_) => true
    case ParentSend(n) => !st.stop && st.blocks != [] && n <= |st.blocks[0].data|
    case ChildSnapshot(_) => st.phase == Writing
    case ChildRead(n) => (st.phase == Writing || st.phase == AskedToStop) && n <= |st.pipe|
    case ChildAsk => st.phase == Writing
    case ParentAck => st.asked
    case ChildDrain => st.phase == AskedToStop && st.acked
    case ChildExit => st.phase == Drained
  }

  function Do(st: State, a: Action): State
    requires Enabled(st, a)
  {
    match a
    case Feed(s) => st.(blocks := Append(st.blocks, s), fed := st.fed + s)
    case ParentSend(n) =>
      st.(pipe := st.pipe + st.blocks[0].data[..n], blocks := Sent(st.blocks, n))
    case ChildSnapshot(s) => st.(file := st.file + s, snapshot := st.snapshot + s)
    case ChildRead(n) => st.(childDiff := st.childDiff + st.pipe[..n], pipe := st.pipe[n..])
    case ChildAsk => st.(asked := true, phase := AskedToStop)
    case ParentAck => st.(asked := false, stop := true, acked := true)
    case ChildDrain => st.(acked := false, childDiff := st.childDiff + st.pipe, pipe := [], phase := Drained)
    case ChildExit => st.(file := st.file + st.childDiff, phase := Exited)
  }

  /** Right after the fork. */
  predicate Init(st: State) {
    st == State([], false, [], false, false, [], Writing, [], [], [])
  }

  ghost predicate IsRun(sts: seq<State>, acts: seq<Action>) {
    && |sts| == |acts| + 1 && Init(sts[0])
    && forall t :: 0 <= t < |acts| ==> Enabled(sts[t], acts[t]) && sts[t + 1] == Do(sts[t], acts[t])
  }

  /** backgroundRewriteDoneHandler on success: the parent appends the blocks that are left. */
  function Rewritten(st: State): seq<Byte> {
    st.file + Concat(st.blocks)
  }

  ghost predicate Inv(st: State) {
    && BlocksOk(st.blocks)
    // every byte fed is in exactly one place, in order
    && st.childDiff + st.pipe + Concat(st.blocks) == st.fed
    // an ack, or its being consumed, means that the parent has stopped sending
    && (st.acked || st.phase == Drained || st.phase == Exited ==> st.stop)
    && (st.phase == Drained || st.phase == Exited ==> st.pipe == [])
    && st.file == if st.phase == Exited then st.snapshot + st.childDiff else st.snapshot
  }

  lemma FeedKeeps(st: State, s: seq<Byte>)
    requires Inv(st)
    ensures Inv(Do(st, Feed(s)))
  {
    AppendAdds(st.blocks, s);
    var x := st.childDiff + st.pipe;
    assert x + (Concat(st.blocks) + s) == x + Concat(st.blocks) + s;
  }

  lemma SendKeeps(st: State, n: nat)
    requires Inv(st) && Enabled(st, ParentSend(n))
    ensures Inv(Do(st, ParentSend(n)))
  {
    SentRemovesFront(st.blocks, n);
    var front, rest := st.blocks[0].data[..n], Concat(Sent(st.blocks, n));
    assert st.childDiff + (st.pipe + front) + rest == st.childDiff + st.pipe + (front + rest);
  }

  lemma ReadKeeps(st: State, n: nat)
    requires Inv(st) && Enabled(st, ChildRead(n))
    ensures Inv(Do(st, ChildRead(n)))
  {
    assert st.pipe == st.pipe[..n] + st.pipe[n..];
    assert st.childDiff + st.pipe[..n] + st.pipe[n..] == st.childDiff + st.pipe;
  }

  lemma StepKeeps(st: State, a: Action)
    requires Inv(st) && Enabled(st, a)
    ensures Inv(Do(st, a))
  {
    match a
    case Feed(s) => FeedKeeps(st, s);
    case ParentSend(n) => SendKeeps(st, n);
    case ChildRead(n) => ReadKeeps(st, n);
    case ChildDrain => assert st.childDiff + st.pipe + [] == st.childDiff + st.pipe;
    case _ =>
  }

  lemma {:induction false} RunInv(sts: seq<State>, acts: seq<Action>, t: nat)
    requires IsRun(sts, acts) && t < |sts|
    ensures Inv(sts[t])
  {
    if t > 0 {
      RunInv(sts, acts, t - 1);
      StepKeeps(sts[t - 1], acts[t - 1]);
      assert sts[t - 1 + 1] == Do(sts[t - 1], acts[t - 1]);
    }
  }

  /** Nothing is lost or duplicated: in every run, once the child has exited, the rewritten
      file is the child's snapshot followed by every byte fed since the fork, in order. */
  lemma RewriteIsExact(sts: seq<State>, acts: seq<Action>, t: nat)
    requires IsRun(sts, acts) && t < |sts| && sts[t].phase == Exited
    ensures Rewritten(sts[t]) == sts[t].snapshot + sts[t].fed
  {
    RunInv(sts, acts, t);
    var st := sts[t];
    assert st.childDiff + [] + Concat(st.blocks) == st.childDiff + Concat(st.blocks);
    assert st.snapshot + st.childDiff + Concat(st.blocks) == st.snapshot + (st.childDiff + Concat(st.blocks));
  }

  lemma CutShort(a: seq<Byte>, b: seq<Byte>, c: seq<Byte>, n: nat)
    requires n < |b|
    ensures a + b[..n] <= a + (b + c) && a + b[..n] != a + (b + c)
  {
    assert |a + b[..n]| < |a + (b + c)|;
    assert (a + (b + c))[..|a| + n] == a + b[..n];
  }

  // ----- the loops over the parent's list of blocks --------------------------------------------

  class RewriteBuffer {
    var blocks: seq<Block>
    var stopSending: bool

    constructor ()
      ensures blocks == [] && !stopSending
    {
      blocks, stopSending := [], false;
    }

    ghost predicate Valid()
      reads this
    {
      BlocksOk(blocks)
    }

    /** aofRewriteBufferAppend. */
    method AppendBytes(s: seq<Byte>)
      requires Valid()
      modifies this`blocks
      ensures Valid() && blocks == Append(old(blocks), s)
      ensures Concat(blocks) == old(Concat(blocks)) + s
    {
      AppendAdds(blocks, s);
      var rest := s;
      while rest != []
        invariant Append(blocks, rest) == Append(old(blocks), s)
        decreases |rest|, if blocks == [] || blocks[|blocks| - 1].free == 0 then 1 else 0
      {
        if blocks != [] && blocks[|blocks| - 1].free > 0 {
          var last := blocks[|blocks| - 1];
          var n := if last.free < |rest| then last.free else |rest|;
          blocks := blocks[..|blocks| - 1] + [Block(last.data + rest[..n], last.free - n)];
          assert |rest[..n]| == n;
          rest := rest[n..];
        } else {
          blocks := blocks + [Block([], BLOCK_SIZE)];
        }
      }
    }

    /** aofChildWriteDiffData: `accepts` says how many bytes each write(2) takes; a write that
        takes none ends the loop, and nothing else does while bytes are left.  What left the blocks
        is what entered the pipe. */
    method SendDiff(accepts: seq<nat>) returns (written: seq<Byte>)
      requires Valid()
      modifies this`blocks
      ensures Valid() && written + Concat(blocks) == old(Concat(blocks))
      ensures stopSending ==> written == [] && blocks == old(blocks)
      ensures !stopSending && old(Concat(blocks)) != [] && accepts != [] && accepts[0] > 0 ==> written != []
      ensures !stopSending && |old(Concat(blocks))| <= |accepts| && (forall k :: 0 <= k < |accepts| ==> accepts[k] > 0)
              ==> blocks == []
    {
      written := [];
      var i := 0;
      while blocks != [] && !stopSending
        invariant Valid() && written + Concat(blocks) == old(Concat(blocks))
        invariant i <= |accepts|
        invariant stopSending ==> written == [] && blocks == old(blocks)
        invariant i > 0 ==> written != []
        invariant (forall k :: 0 <= k < |accepts| ==> accepts[k] > 0) ==> i <= |written|
        decreases |accepts| - i, |blocks|
      {
        var b := blocks[0];
        var n := 0;
        if |b.data| > 0 {
          if i == |accepts| { return; }
          n := if accepts[i] < |b.data| then accepts[i] else |b.data|;
          i := i + 1;
          if n == 0 { return; }
        }
        var part := SendFront(n);
        Assoc(written, part, Concat(blocks));
        written := written + part;
      }
    }

    /** One write: n bytes of the first block leave, and the block with its last byte. */
    method SendFront(n: nat) returns (part: seq<Byte>)
      requires Valid() && blocks != [] && n <= |blocks[0].data|
      modifies this`blocks
      ensures Valid() && part + Concat(blocks) == old(Concat(blocks)) && |part| == n
      ensures |blocks| <= |old(blocks)| && (n == |old(blocks[0].data)| ==> |blocks| < |old(blocks)|)
    {
      SentRemovesFront(blocks, n);
      part := blocks[0].data[..n];
      blocks := Sent(blocks, n);
    }

    /** aofRewriteBufferWrite: all the blocks or an error; `accepts` as above. */
    method WriteAll(accepts: seq<nat>) returns (count: int, written: seq<Byte>)
      requires Valid()
      ensures written <= Concat(blocks)
      ensures count == if written == Concat(blocks) then |written| else -1
      ensures (forall k :: 0 <= k < |accepts| ==> accepts[k] >= BLOCK_SIZE) ==> written == Concat(blocks)
    {
      count, written := 0, [];
      var w := 0;
      for i := 0 to |blocks|
        invariant written + Concat(blocks[i..]) == Concat(blocks) && count == |written|
      {
        var b := blocks[i];
        assert Concat(blocks[i..]) == b.data + Concat(blocks[i + 1..]) by { assert blocks[i..][1..] == blocks[i + 1..]; }
        if |b.data| > 0 {
          var n := if w < |accepts| && accepts[w] < |b.data| then accepts[w] else |b.data|;
          w := w + 1;
          if n != |b.data| {
            CutShort(written, b.data, Concat(blocks[i + 1..]), n);
            return -1, written + b.data[..n];
          }
          assert written + b.data + Concat(blocks[i + 1..]) == written + (b.data + Concat(blocks[i + 1..]));
          written := written + b.data;
          count := count + n;
        }
      }
      assert Concat(blocks[|blocks|..]) == [];
    }
  }
}
