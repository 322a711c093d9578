/** Repair of colliding configuration epochs (clusterHandleConfigEpochCollision) among n
    masters.  Nodes are numbered in the order of their IDs, so a greater number is a greater
    ID.  Packets are never consumed: they may arrive late, repeatedly, or not at all.

    `past` records the configuration epochs a node has had; no step reads it. */
module EpochCollision {
  import opened Prelude

  /** What a master knows: the cluster's current epoch, its own configuration epoch, and
      the configuration epoch it last heard of for every node. */
  datatype Node = Node(currentEpoch: nat, configEpoch: nat, known: seq<nat>)

  datatype Packet = Packet(sender: nat, currentEpoch: nat, configEpoch: nat)

  datatype State = State(nodes: seq<Node>, sent: set<Packet>, past: seq<set<nat>>)

  datatype Action = Send(from: nat) | Deliver(to: nat, packet: Packet)

  /** The epoch part of clusterProcessPacket, with the collision handler at its end. */
  function Receive(n: Node, me: nat, p: Packet): Node
    requires p.sender < |n.known|
  {
    var current := Max(n.currentEpoch, p.currentEpoch);
    var known := n.known[p.sender := Max(n.known[p.sender], p.configEpoch)];
    if p.configEpoch == n.configEpoch && known[p.sender] == n.configEpoch && p.sender > me
    then Node(current + 1, current + 1, known)
    else Node(current, n.configEpoch, known)
  }

  function PacketOf(st: State, j: nat): Packet
    requires j < |st.nodes|
  {
    Packet(j, st.nodes[j].currentEpoch, st.nodes[j].configEpoch)
  }

  predicate Enabled(st: State, a: Action) {
    match a
    case Send(j) => j < |st.nodes|
    case Deliver(i, p) => i < |st.nodes| && p in st.sent && p.sender != i && p.sender < |st.nodes[i].known|
                          && |st.past| == |st.nodes|
  }

  function Do(st: State, a: Action): State
    requires Enabled(st, a)
  {
    match a
    case Send(j) => st.(sent := st.sent + {PacketOf(st, j)})
    case Deliver(i, p) =>
      var n' := Receive(st.nodes[i], i, p);
      st.(nodes := st.nodes[i := n'], past := st.past[i := st.past[i] + {n'.configEpoch}])
  }

  /** Any epochs at all, colliding or not, as long as nobody is ahead of its own packets. */
  ghost predicate Init(st: State) {
    && |st.past| == |st.nodes| && st.sent == {}
    && (forall i :: 0 <= i < |st.nodes| ==>
          && st.nodes[i].configEpoch <= st.nodes[i].currentEpoch
          && st.past[i] == {st.nodes[i].configEpoch}
          && |st.nodes[i].known| == |st.nodes|)
    && (forall i, j :: 0 <= i < |st.nodes| && 0 <= j < |st.nodes|
          ==> st.nodes[i].known[j] <= st.nodes[j].configEpoch)
  }

  ghost predicate IsRun(sts: seq<State>, acts: seq<Action>) {
    && |sts| == |acts| + 1 && Init(sts[0])
    && (forall t :: 0 <= t < |acts| ==> Enabled(sts[t], acts[t]) && sts[t + 1] == Do(sts[t], acts[t]))
  }

  // ----- the invariant --------------------------------------------------------------

  /** Epochs that some node from i on has had. */
  ghost function PastFrom(past: seq<set<nat>>, i: nat): set<nat>
    decreases |past| - i
  {
    if i >= |past| then {} else past[i] + PastFrom(past, i + 1)
  }

  ghost predicate NodeOk(st: State, i: nat)
    requires i < |st.nodes| && |st.past| == |st.nodes|
  {
    var n := st.nodes[i];
    && n.configEpoch <= n.currentEpoch && |n.known| == |st.nodes|
    && n.configEpoch in st.past[i]
    && (forall c :: c in st.past[i] ==> c <= n.configEpoch)
    && (forall j :: 0 <= j < |st.nodes| ==> n.known[j] <= st.nodes[j].configEpoch)
    // whatever a node has given up was, or had been, the epoch of a greater node
    && st.past[i] <= PastFrom(st.past, i + 1) + {n.configEpoch}
  }

  ghost predicate Inv(st: State) {
    && |st.past| == |st.nodes|
    && (forall i :: 0 <= i < |st.nodes| ==> NodeOk(st, i))
    && (forall p :: p in st.sent ==> p.sender < |st.nodes| && p.configEpoch in st.past[p.sender])
  }

  lemma {:induction false} PastFromHas(past: seq<set<nat>>, i: nat, j: nat)
    requires i <= j < |past|
    ensures past[j] <= PastFrom(past, i)
    decreases j - i
  {
    if i < j { PastFromHas(past, i + 1, j); }
  }

  lemma {:induction false} PastFromGrows(past: seq<set<nat>>, k: nat, s: set<nat>, i: nat)
    requires k < |past| && past[k] <= s
    ensures PastFrom(past, i) <= PastFrom(past[k := s], i)
    decreases |past| - i
  {
    if i < |past| { PastFromGrows(past, k, s, i + 1); }
  }

  lemma DeliverKeepsNode(st: State, i: nat, p: Packet, k: nat)
    requires Inv(st) && Enabled(st, Deliver(i, p)) && k < |st.nodes|
    ensures NodeOk(Do(st, Deliver(i, p)), k)
  {
    var st' := Do(st, Deliver(i, p));
    assert NodeOk(st, k) && NodeOk(st, i) && NodeOk(st, p.sender);
    PastFromGrows(st.past, i, st'.past[i], k + 1);
    if k == i && st'.nodes[i].configEpoch != st.nodes[i].configEpoch {
      PastFromHas(st.past, i + 1, p.sender);
    }
  }

  lemma StepKeeps(st: State, a: Action)
    requires Inv(st) && Enabled(st, a)
    ensures Inv(Do(st, a))
  {
    var st' := Do(st, a);
    match a
    case Send(j) =>
      assert NodeOk(st, j);
      forall i | 0 <= i < |st'.nodes| ensures NodeOk(st', i) { assert NodeOk(st, i); }
    case Deliver(i, p) =>
      forall k | 0 <= k < |st'.nodes| ensures NodeOk(st', k) { DeliverKeepsNode(st, i, p, k); }
  }

  lemma InitInv(st: State)
    requires Init(st)
    ensures Inv(st)
  {
  }

  lemma {:induction false} RunInv(sts: seq<State>, acts: seq<Action>, t: nat)
    requires IsRun(sts, acts) && t < |sts|
    ensures Inv(sts[t]) && |sts[t].nodes| == |sts[0].nodes|
  {
    if t == 0 {
      InitInv(sts[0]);
    } else {
      RunInv(sts, acts, t - 1);
      StepKeeps(sts[t - 1], acts[t - 1]);
      assert sts[t - 1 + 1] == Do(sts[t - 1], acts[t - 1]);
    }
  }

  // ----- how often a node can move ------------------------------------------------------

  lemma {:induction false} PastFromIsSmall(st: State, i: nat)
    requires Inv(st) && i <= |st.nodes|
    ensures |PastFrom(st.past, i)| <= |st.nodes| - i
    decreases |st.nodes| - i
  {
    if i < |st.nodes| {
      PastFromIsSmall(st, i + 1);
      assert NodeOk(st, i);
      var rest, c := PastFrom(st.past, i + 1), st.nodes[i].configEpoch;
      assert PastFrom(st.past, i) == rest + {c};
      assert |rest + {c}| <= |rest| + 1;
    }
  }

  lemma PastIsSmall(st: State, i: nat)
    requires Inv(st) && i < |st.nodes|
    ensures |st.past[i]| <= |st.nodes| - i
  {
    PastFromIsSmall(st, i);
    PastFromHas(st.past, i, i);
    SubsetSize(st.past[i], PastFrom(st.past, i));
  }

  /** Number of times node i gave itself a new configuration epoch in the first t steps. */
  ghost function Bumps(sts: seq<State>, i: nat, t: nat): nat
    requires t < |sts| && forall u :: 0 <= u < |sts| ==> i < |sts[u].nodes|
  {
    if t == 0 then 0
    else Bumps(sts, i, t - 1) + if sts[t].nodes[i].configEpoch != sts[t - 1].nodes[i].configEpoch then 1 else 0
  }

  /** A node that moves moves to an epoch it has not had. */
  lemma MoveIsNew(st: State, a: Action, i: nat)
    requires Inv(st) && Enabled(st, a) && i < |st.nodes|
    ensures var st' := Do(st, a);
            |st'.past| == |st.past| && |st'.nodes| == |st.nodes| && |st'.past[i]| == |st.past[i]|
              + if st'.nodes[i].configEpoch != st.nodes[i].configEpoch then 1 else 0
  {
    assert NodeOk(st, i);
    if a.Deliver? && a.to == i {
      var c := Do(st, a).nodes[i].configEpoch;
      assert c == st.nodes[i].configEpoch ==> st.past[i] + {c} == st.past[i];
    }
  }

  lemma {:induction false} BumpsArePast(sts: seq<State>, acts: seq<Action>, i: nat, t: nat)
    requires IsRun(sts, acts) && t < |sts|
    requires forall u :: 0 <= u < |sts| ==> i < |sts[u].nodes|
    ensures |sts[t].past| == |sts[t].nodes| && |sts[t].past[i]| == 1 + Bumps(sts, i, t)
  {
    if t > 0 {
      BumpsArePast(sts, acts, i, t - 1);
      RunMoveIsNew(sts, acts, i, t - 1);
    }
  }

  lemma RunMoveIsNew(sts: seq<State>, acts: seq<Action>, i: nat, t: nat)
    requires IsRun(sts, acts) && t < |acts| && i < |sts[t].nodes| && i < |sts[t + 1].nodes|
    ensures |sts[t].past| == |sts[t].nodes| && |sts[t + 1].past| == |sts[t + 1].nodes|
    ensures |sts[t + 1].past[i]| == |sts[t].past[i]|
              + if sts[t + 1].nodes[i].configEpoch != sts[t].nodes[i].configEpoch then 1 else 0
  {
    RunInv(sts, acts, t);
    MoveIsNew(sts[t], acts[t], i);
  }

  lemma RunKeepsSize(sts: seq<State>, acts: seq<Action>)
    requires IsRun(sts, acts)
    ensures forall u :: 0 <= u < |sts| ==> |sts[u].nodes| == |sts[0].nodes|
  {
    forall u | 0 <= u < |sts| ensures |sts[u].nodes| == |sts[0].nodes| {
      RunInv(sts, acts, u);
    }
  }

  /** Termination of the repair: in every run among n masters, however stale the packets, the
      node with the k-th greatest ID moves at most k - 1 times.  In particular the greatest
      never moves. */
  lemma MovesAreBounded(sts: seq<State>, acts: seq<Action>, k: nat, t: nat)
    requires IsRun(sts, acts) && t < |sts| && 1 <= k <= |sts[0].nodes|
    ensures (RunKeepsSize(sts, acts); Bumps(sts, |sts[0].nodes| - k, t) <= k - 1)
    ensures (RunKeepsSize(sts, acts); Bumps(sts, |sts[0].nodes| - k, t) <= Pow2(k - 1) - 1)
  {
    RunKeepsSize(sts, acts);
    var i := |sts[0].nodes| - k;
    RunInv(sts, acts, t);
    BumpsArePast(sts, acts, i, t);
    PastIsSmall(sts[t], i);
    BelowPow2(k - 1);
  }

  lemma {:induction false} BelowPow2(k: nat)
    ensures k < Pow2(k)
  {
    if k > 0 { BelowPow2(k - 1); }
  }

  /** A node's current epoch covers that of every packet it was handed. */
  lemma {:induction false} HeardIsCovered(sts: seq<State>, acts: seq<Action>, u: nat, t: nat, i: nat, p: Packet)
    requires IsRun(sts, acts) && u < t < |sts| && acts[u] == Deliver(i, p)
    ensures i < |sts[t].nodes| && p.currentEpoch <= sts[t].nodes[i].currentEpoch
    decreases t
  {
    RunInv(sts, acts, t - 1);
    assert sts[t - 1 + 1] == Do(sts[t - 1], acts[t - 1]);
    if u < t - 1 { HeardIsCovered(sts, acts, u, t - 1, i, p); }
  }

  /** When a node moves, it moves to an epoch greater than every epoch it has ever heard of, and
      than its own up to then. */
  lemma MovesPastAllHeard(sts: seq<State>, acts: seq<Action>, t: nat, i: nat)
    requires IsRun(sts, acts) && t < |acts| && i < |sts[t].nodes| && i < |sts[t + 1].nodes|
    requires sts[t + 1].nodes[i].configEpoch != sts[t].nodes[i].configEpoch
    ensures sts[t + 1].nodes[i].configEpoch == sts[t + 1].nodes[i].currentEpoch > sts[t].nodes[i].currentEpoch
    ensures forall u :: 0 <= u <= t && acts[u].Deliver? && acts[u].to == i ==>
              acts[u].packet.currentEpoch < sts[t + 1].nodes[i].configEpoch
  {
    RunInv(sts, acts, t);
    forall u | 0 <= u <= t && acts[u].Deliver? && acts[u].to == i
      ensures acts[u].packet.currentEpoch < sts[t + 1].nodes[i].configEpoch
    {
      if u < t { HeardIsCovered(sts, acts, u, t, i, acts[u].packet); }
    }
  }

  /** No node would move if it heard the others' current epochs. */
  ghost predicate Settled(st: State)
    requires Inv(st)
  {
    forall i, j :: 0 <= i < |st.nodes| && 0 <= j < |st.nodes| && i != j ==>
      (assert NodeOk(st, i); Receive(st.nodes[i], i, PacketOf(st, j)).configEpoch == st.nodes[i].configEpoch)
  }

  /** The repair rests exactly when all configuration epochs are distinct. */
  lemma SettledExactly(st: State)
    requires Inv(st)
    ensures Settled(st) <==>
            forall i, j :: 0 <= i < j < |st.nodes| ==> st.nodes[i].configEpoch != st.nodes[j].configEpoch
  {
    forall i, j | 0 <= i < |st.nodes| && 0 <= j < |st.nodes| && i != j
      ensures |st.nodes[i].known| == |st.nodes|
      ensures Receive(st.nodes[i], i, PacketOf(st, j)).configEpoch == st.nodes[i].configEpoch
              <==> !(i < j && st.nodes[i].configEpoch == st.nodes[j].configEpoch)
    {
      assert NodeOk(st, i) && NodeOk(st, j);
    }
    if Settled(st) {
      forall i, j | 0 <= i < j < |st.nodes| ensures st.nodes[i].configEpoch != st.nodes[j].configEpoch {
        assert Receive(st.nodes[i], i, PacketOf(st, j)).configEpoch == st.nodes[i].configEpoch;
      }
    }
  }

  // ----- the handler -----------------------------------------------------------------------

  class ClusterMaster {
    const me: nat
    var currentEpoch: nat
    var configEpoch: nat
    var known: seq<nat>

    constructor (me: nat, currentEpoch: nat, configEpoch: nat, known: seq<nat>)
      ensures this.me == me && View() == Node(currentEpoch, configEpoch, known)
    {
      this.me, this.currentEpoch, this.configEpoch, this.known := me, currentEpoch, configEpoch, known;
    }

    ghost function View(): Node
      reads this
    {
      Node(currentEpoch, configEpoch, known)
    }

    /** clusterHandleConfigEpochCollision. */
    method HandleCollision(sender: nat)
      requires sender < |known|
      modifies this`currentEpoch, this`configEpoch
      ensures View() == if known[sender] == old(configEpoch) && sender > me
                        then Node(old(currentEpoch) + 1, old(currentEpoch) + 1, known) else old(View())
    {
      if known[sender] != configEpoch { return; }
      if sender <= me { return; }
      currentEpoch := currentEpoch + 1;
      configEpoch := currentEpoch;
    }

    /** The epoch handling of clusterProcessPacket for a ping from a known master. */
    method ProcessPing(p: Packet)
      requires p.sender < |known|
      modifies this
      ensures View() == Receive(old(View()), me, p)
    {
      if p.currentEpoch > currentEpoch { currentEpoch := p.currentEpoch; }
      if p.configEpoch > known[p.sender] { known := known[p.sender := p.configEpoch]; }
      if p.configEpoch == configEpoch { HandleCollision(p.sender); }
    }
  }
}
