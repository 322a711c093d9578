/** Slot ownership as one node sees it: the table of owners, the bitmap and counter that each
    node record keeps beside it, and the handling of slot claims received from masters. */
module SlotTable {
  import opened Prelude

  type NodeId = nat

  datatype NodeRec = NodeRec(configEpoch: nat, slots: seq<bool>, numslots: nat)

  datatype Cluster = Cluster(slots: seq<Option<NodeId>>, nodes: map<NodeId, NodeRec>)

  // ----- bitmaps ------------------------------------------------------------------

  function CountTrue(b: seq<bool>): nat {
    if b == [] then 0 else (if b[0] then 1 else 0) + CountTrue(b[1..])
  }

  lemma {:induction false} CountTrueUpdate(b: seq<bool>, j: nat, v: bool)
    requires j < |b|
    ensures CountTrue(b[j := v]) == CountTrue(b) - (if b[j] then 1 else 0) + (if v then 1 else 0)
  {
    if j == 0 {
      assert b[j := v][1..] == b[1..];
    } else {
      CountTrueUpdate(b[1..], j - 1, v);
      assert b[j := v][1..] == b[1..][j - 1 := v];
    }
  }

  /** clusterNodeSetSlotBit. */
  function SetBit(n: NodeRec, j: nat): NodeRec
    requires j < |n.slots|
  {
    if n.slots[j] then n else n.(slots := n.slots[j := true], numslots := n.numslots + 1)
  }

  /** clusterNodeClearSlotBit. */
  function ClearBit(n: NodeRec, j: nat): NodeRec
    requires j < |n.slots|
  {
    if n.slots[j] && n.numslots > 0 then n.(slots := n.slots[j := false], numslots := n.numslots - 1)
    else n.(slots := n.slots[j := false])
  }

  // ----- the bookkeeping invariant --------------------------------------------------

  ghost predicate RecOk(c: Cluster, n: NodeId)
    requires n in c.nodes
  {
    var r := c.nodes[n];
    && |r.slots| == |c.slots| && r.numslots == CountTrue(r.slots)
    && forall j :: 0 <= j < |c.slots| ==> (r.slots[j] <==> c.slots[j] == Some(n))
  }

  /** Bit j of node n is set exactly if slot j belongs to n, the counters count the bits, and
      every owner is a known node. */
  ghost predicate Agree(c: Cluster) {
    && (forall n :: n in c.nodes ==> RecOk(c, n))
    && (forall j :: 0 <= j < |c.slots| && c.slots[j].Some? ==> c.slots[j].value in c.nodes)
  }

  // ----- single slots -----------------------------------------------------------------

  /** clusterAddSlot: refused when the slot has an owner. */
  function AddSlot(c: Cluster, n: NodeId, j: nat): Cluster
    requires j < |c.slots| && n in c.nodes && |c.nodes[n].slots| == |c.slots|
  {
    if c.slots[j].Some? then c
    else Cluster(c.slots[j := Some(n)], c.nodes[n := SetBit(c.nodes[n], j)])
  }

  /** clusterDelSlot. */
  function DelSlot(c: Cluster, j: nat): Cluster
    requires j < |c.slots|
    requires c.slots[j].Some? ==> c.slots[j].value in c.nodes && |c.nodes[c.slots[j].value].slots| == |c.slots|
  {
    if c.slots[j].None? then c
    else
      var n := c.slots[j].value;
      Cluster(c.slots[j := None], c.nodes[n := ClearBit(c.nodes[n], j)])
  }

  function Epochs(c: Cluster): map<NodeId, nat> {
    map n | n in c.nodes :: c.nodes[n].configEpoch
  }

  /** A record may change without its epoch, and so may the slots. */
  lemma SameEpochs(c: Cluster, n: NodeId, r: NodeRec, slots: seq<Option<NodeId>>)
    requires n in c.nodes && r.configEpoch == c.nodes[n].configEpoch
    ensures Epochs(Cluster(slots, c.nodes[n := r])) == Epochs(c)
  {
  }

  lemma AddSlotRec(c: Cluster, n: NodeId, j: nat, m: NodeId)
    requires Agree(c) && j < |c.slots| && c.slots[j].None? && n in c.nodes && |c.nodes[n].slots| == |c.slots| && m in c.nodes
    ensures m in AddSlot(c, n, j).nodes && RecOk(AddSlot(c, n, j), m)
  {
    assert RecOk(c, m);
    if m == n { CountTrueUpdate(c.nodes[n].slots, j, true); }
  }

  lemma AddSlotKeeps(c: Cluster, n: NodeId, j: nat)
    requires Agree(c) && j < |c.slots| && n in c.nodes
    ensures RecOk(c, n)
    ensures var c' := AddSlot(c, n, j);
            && Agree(c') && Epochs(c') == Epochs(c)
            && c'.slots == if c.slots[j].None? then c.slots[j := Some(n)] else c.slots
  {
    assert RecOk(c, n);
    if c.slots[j].None? {
      SameEpochs(c, n, SetBit(c.nodes[n], j), c.slots[j := Some(n)]);
      forall m | m in AddSlot(c, n, j).nodes ensures RecOk(AddSlot(c, n, j), m) { AddSlotRec(c, n, j, m); }
    }
  }

  /** The assertion of clusterDelSlot holds: the owner's bit is set. */
  lemma OwnersBitIsSet(c: Cluster, j: nat)
    requires Agree(c) && j < |c.slots| && c.slots[j].Some?
    ensures c.slots[j].value in c.nodes && RecOk(c, c.slots[j].value) && c.nodes[c.slots[j].value].slots[j]
  {
    assert RecOk(c, c.slots[j].value);
  }

  lemma DelSlotRec(c: Cluster, j: nat, m: NodeId)
    requires Agree(c) && j < |c.slots| && c.slots[j].Some? && m in c.nodes
    requires c.slots[j].value in c.nodes && |c.nodes[c.slots[j].value].slots| == |c.slots|
    ensures m in DelSlot(c, j).nodes && RecOk(DelSlot(c, j), m)
  {
    assert RecOk(c, m);
    if m == c.slots[j].value { CountTrueUpdate(c.nodes[m].slots, j, false); }
  }

  lemma DelSlotKeeps(c: Cluster, j: nat)
    requires Agree(c) && j < |c.slots|
    ensures c.slots[j].Some? ==> c.slots[j].value in c.nodes && RecOk(c, c.slots[j].value)
                                 && c.nodes[c.slots[j].value].slots[j]
    ensures var c' := DelSlot(c, j);
            Agree(c') && Epochs(c') == Epochs(c) && c'.slots == c.slots[j := None]
  {
    if c.slots[j].Some? {
      var n := c.slots[j].value;
      OwnersBitIsSet(c, j);
      SameEpochs(c, n, ClearBit(c.nodes[n], j), c.slots[j := None]);
      forall m | m in DelSlot(c, j).nodes ensures RecOk(DelSlot(c, j), m) { DelSlotRec(c, j, m); }
    }
  }

  /** Slot j changes hands. */
  function Rebind(c: Cluster, n: NodeId, j: nat): Cluster
    requires Agree(c) && j < |c.slots| && n in c.nodes
  {
    DelSlotKeeps(c, j);
    AddSlotKeeps(DelSlot(c, j), n, j);
    AddSlot(DelSlot(c, j), n, j)
  }

  lemma RebindKeeps(c: Cluster, n: NodeId, j: nat)
    requires Agree(c) && j < |c.slots| && n in c.nodes
    ensures var c' := Rebind(c, n, j);
            Agree(c') && Epochs(c') == Epochs(c) && c'.slots == c.slots[j := Some(n)]
  {
    DelSlotKeeps(c, j);
    AddSlotKeeps(DelSlot(c, j), n, j);
  }

  // ----- a node's view of the cluster, updated in place -----------------------------------

  /** Whether a claim takes slot j: claimed, not owned by the claimer, not being imported,
      and unassigned or held under an older configuration epoch. */
  predicate Takes(c: Cluster, sender: NodeId, epoch: nat, claim: seq<bool>, importing: seq<bool>, j: nat)
    requires j < |c.slots| && |claim| == |c.slots| && |importing| == |c.slots|
    requires c.slots[j].Some? ==> c.slots[j].value in c.nodes
  {
    && claim[j] && c.slots[j] != Some(sender) && !importing[j]
    && (c.slots[j].None? || c.nodes[c.slots[j].value].configEpoch < epoch)
  }

  /** Slot j goes from owner to the sender of the claim. */
  ghost predicate TakesFrom(c: Cluster, owner: NodeId, sender: NodeId, epoch: nat, claim: seq<bool>, importing: seq<bool>, j: nat)
    requires j < |c.slots| && |claim| == |c.slots| && |importing| == |c.slots|
    requires c.slots[j].Some? ==> c.slots[j].value in c.nodes
  {
    c.slots[j] == Some(owner) && Takes(c, sender, epoch, claim, importing, j)
  }

  /** A slot below j is taken from owner. */
  ghost predicate LosesSlot(c: Cluster, owner: NodeId, sender: NodeId, epoch: nat, claim: seq<bool>, importing: seq<bool>, j: nat)
    requires Agree(c) && |claim| == |c.slots| && |importing| == |c.slots| && j <= |c.slots|
  {
    j > 0 && (TakesFrom(c, owner, sender, epoch, claim, importing, j - 1)
              || LosesSlot(c, owner, sender, epoch, claim, importing, j - 1))
  }

  /** Such a slot exists exactly if one of owner's slots is claimed under a greater epoch by another
      node, and is not being imported. */
  lemma {:induction false} LosesSlotExactly(c: Cluster, owner: NodeId, sender: NodeId, epoch: nat, claim: seq<bool>,
                                            importing: seq<bool>, j: nat)
    requires Agree(c) && |claim| == |c.slots| && |importing| == |c.slots| && j <= |c.slots| && owner in c.nodes
    ensures LosesSlot(c, owner, sender, epoch, claim, importing, j) <==>
              owner != sender && c.nodes[owner].configEpoch < epoch
              && exists i :: 0 <= i < j && c.slots[i] == Some(owner) && claim[i] && !importing[i]
  {
    if j > 0 { LosesSlotExactly(c, owner, sender, epoch, claim, importing, j - 1); }
  }

  /** The slots below j that are taken from me while they hold keys. */
  ghost function DirtySlots(c: Cluster, me: NodeId, sender: NodeId, epoch: nat, claim: seq<bool>, importing: seq<bool>,
                            hasKeys: seq<bool>, j: nat): (r: seq<nat>)
    requires Agree(c) && |claim| == |c.slots| && |importing| == |c.slots| && |hasKeys| == |c.slots| && j <= |c.slots|
    ensures forall i :: i in r <==> 0 <= i < j && hasKeys[i] && TakesFrom(c, me, sender, epoch, claim, importing, i)
  {
    if j == 0 then []
    else
      var r := DirtySlots(c, me, sender, epoch, claim, importing, hasKeys, j - 1);
      if hasKeys[j - 1] && TakesFrom(c, me, sender, epoch, claim, importing, j - 1) then r + [j - 1] else r
  }

  /** c' is c after the slots below j that the claim takes went to the sender. */
  ghost predicate Claimed(c: Cluster, sender: NodeId, epoch: nat, claim: seq<bool>, importing: seq<bool>, j: nat, c': Cluster)
    requires Agree(c) && |claim| == |c.slots| && |importing| == |c.slots| && j <= |c.slots|
  {
    && Agree(c') && |c'.slots| == |c.slots| && Epochs(c') == Epochs(c) && sender in c'.nodes
    && forall i :: 0 <= i < |c.slots| ==>
         c'.slots[i] == if i < j && Takes(c, sender, epoch, claim, importing, i) then Some(sender) else c.slots[i]
  }

  lemma TakesSame(c: Cluster, d: Cluster, sender: NodeId, epoch: nat, claim: seq<bool>, importing: seq<bool>, j: nat)
    requires Agree(c) && Agree(d) && |claim| == |c.slots| == |d.slots| == |importing| && j < |c.slots|
    requires Epochs(d) == Epochs(c) && d.slots[j] == c.slots[j]
    ensures Takes(d, sender, epoch, claim, importing, j) == Takes(c, sender, epoch, claim, importing, j)
  {
    EpochsAgree(c, d);
  }

  lemma ClaimTaken(c: Cluster, sender: NodeId, epoch: nat, claim: seq<bool>, importing: seq<bool>, j: nat, d: Cluster)
    requires Agree(c) && |claim| == |c.slots| && |importing| == |c.slots| && 0 < j <= |c.slots|
    requires Claimed(c, sender, epoch, claim, importing, j - 1, d) && Takes(c, sender, epoch, claim, importing, j - 1)
    ensures Claimed(c, sender, epoch, claim, importing, j, Rebind(d, sender, j - 1))
  {
    RebindKeeps(d, sender, j - 1);
    RebindKnows(d, sender, j - 1);
    OneMoreTaken(c, sender, epoch, claim, importing, j, d, Rebind(d, sender, j - 1));
  }

  lemma OneMoreTaken(c: Cluster, sender: NodeId, epoch: nat, claim: seq<bool>, importing: seq<bool>, j: nat,
                     d: Cluster, d': Cluster)
    requires Agree(c) && |claim| == |c.slots| && |importing| == |c.slots| && 0 < j <= |c.slots|
    requires Claimed(c, sender, epoch, claim, importing, j - 1, d) && Takes(c, sender, epoch, claim, importing, j - 1)
    requires Agree(d') && Epochs(d') == Epochs(d) && sender in d'.nodes && d'.slots == d.slots[j - 1 := Some(sender)]
    ensures Claimed(c, sender, epoch, claim, importing, j, d')
  {
  }

  lemma ClaimStep(c: Cluster, sender: NodeId, epoch: nat, claim: seq<bool>, importing: seq<bool>, j: nat, d: Cluster)
    requires Agree(c) && |claim| == |c.slots| && |importing| == |c.slots| && 0 < j <= |c.slots|
    requires Claimed(c, sender, epoch, claim, importing, j - 1, d)
    ensures if Takes(d, sender, epoch, claim, importing, j - 1)
            then Claimed(c, sender, epoch, claim, importing, j, Rebind(d, sender, j - 1))
            else Claimed(c, sender, epoch, claim, importing, j, d)
  {
    TakesSame(c, d, sender, epoch, claim, importing, j - 1);
    if Takes(d, sender, epoch, claim, importing, j - 1) {
      ClaimTaken(c, sender, epoch, claim, importing, j, d);
    }
  }

  lemma RebindKnows(c: Cluster, n: NodeId, j: nat)
    requires Agree(c) && j < |c.slots| && n in c.nodes
    ensures n in Rebind(c, n, j).nodes
  {
  }

  /** The loop of clusterUpdateSlotsConfigWith over the slots below j. */
  ghost function ApplyClaim(c: Cluster, sender: NodeId, epoch: nat, claim: seq<bool>, importing: seq<bool>, j: nat): (c': Cluster)
    requires Agree(c) && sender in c.nodes && |claim| == |c.slots| && |importing| == |c.slots| && j <= |c.slots|
    ensures Agree(c') && |c'.slots| == |c.slots| && Epochs(c') == Epochs(c) && sender in c'.nodes
    ensures forall i :: 0 <= i < |c.slots| ==>
              c'.slots[i] == if i < j && Takes(c, sender, epoch, claim, importing, i) then Some(sender) else c.slots[i]
  {
    if j == 0 then c
    else
      var d := ApplyClaim(c, sender, epoch, claim, importing, j - 1);
      ClaimStep(c, sender, epoch, claim, importing, j, d);
      if Takes(d, sender, epoch, claim, importing, j - 1) then Rebind(d, sender, j - 1) else d
  }

  lemma EpochsAgree(c: Cluster, d: Cluster)
    requires Epochs(c) == Epochs(d)
    ensures c.nodes.Keys == d.nodes.Keys
    ensures forall n :: n in c.nodes ==> n in d.nodes && d.nodes[n].configEpoch == c.nodes[n].configEpoch
  {
    assert Epochs(c).Keys == c.nodes.Keys && Epochs(d).Keys == d.nodes.Keys;
    forall n | n in c.nodes ensures n in d.nodes && d.nodes[n].configEpoch == c.nodes[n].configEpoch {
      assert n in Epochs(d) && Epochs(d)[n] == Epochs(c)[n];
    }
  }

  /** r is t with n gone from the first j entries. */
  ghost predicate Purged(t: seq<Option<NodeId>>, n: NodeId, j: nat, r: seq<Option<NodeId>>) {
    |r| == |t| && forall i :: 0 <= i < |t| ==> r[i] == if i < j && t[i] == Some(n) then None else t[i]
  }

  class ClusterView {
    var slots: seq<Option<NodeId>>
    var nodes: map<NodeId, NodeRec>
    var importingFrom: seq<Option<NodeId>>
    var migratingTo: seq<Option<NodeId>>

    ghost function View(): Cluster
      reads this
    {
      Cluster(slots, nodes)
    }

    /** A view of `size` unassigned slots and no nodes. */
    constructor (size: nat)
      ensures Agree(View()) && slots == seq(size, j => None) && nodes == map[]
      ensures importingFrom == slots && migratingTo == slots
    {
      slots := seq(size, j => None);
      importingFrom, migratingTo := seq(size, j => None), seq(size, j => None);
      nodes := map[];
    }

    /** createClusterNode and clusterAddNode. */
    method AddNode(n: NodeId, configEpoch: nat)
      requires Agree(View()) && n !in nodes
      modifies this`nodes
      ensures Agree(View()) && nodes == old(nodes)[n := NodeRec(configEpoch, seq(|slots|, j => false), 0)]
    {
      var r := NodeRec(configEpoch, seq(|slots|, j => false), 0);
      NoneTrue(r.slots);
      ghost var c := View();
      nodes := nodes[n := r];
      forall m | m in nodes ensures RecOk(View(), m) {
        if m != n { assert RecOk(c, m); }
      }
    }

    method Add(n: NodeId, j: nat) returns (ok: bool)
      requires Agree(View()) && j < |slots| && n in nodes
      modifies this`slots, this`nodes
      ensures Agree(View()) && Epochs(View()) == old(Epochs(View()))
      ensures ok == old(slots)[j].None?
      ensures slots == if ok then old(slots)[j := Some(n)] else old(slots)
    {
      AddSlotKeeps(View(), n, j);
      ok := slots[j].None?;
      if ok {
        nodes := nodes[n := SetBit(nodes[n], j)];
        slots := slots[j := Some(n)];
      }
    }

    method Del(j: nat) returns (ok: bool)
      requires Agree(View()) && j < |slots|
      modifies this`slots, this`nodes
      ensures Agree(View()) && Epochs(View()) == old(Epochs(View()))
      ensures ok == old(slots)[j].Some? && slots == old(slots)[j := None]
    {
      DelSlotKeeps(View(), j);
      ok := slots[j].Some?;
      if ok {
        var n := slots[j].value;
        var bit := nodes[n].slots[j];
        assert bit;  // serverAssert(clusterNodeClearSlotBit(n,slot) == 1)
        nodes := nodes[n := ClearBit(nodes[n], j)];
        slots := slots[j := None];
      }
    }

    /** One turn of the loop of clusterDelNodeSlots. */
    method Release(n: NodeId, j: nat)
      requires Agree(View()) && n in nodes && j < |slots|
      modifies this`slots, this`nodes
      ensures Agree(View()) && Epochs(View()) == old(Epochs(View())) && n in nodes
      ensures slots == old(slots)[j := if old(slots)[j] == Some(n) then None else old(slots)[j]]
    {
      assert RecOk(View(), n);
      ghost var c := View();
      if nodes[n].slots[j] { var _ := Del(j); }
      EpochsAgree(c, View());
    }

    /** clusterDelNodeSlots.  The number it returns is that of the slots visited, not of the
        slots deleted. */
    method DelNodeSlots(n: NodeId) returns (deleted: nat)
      requires Agree(View()) && n in nodes
      modifies this`slots, this`nodes
      ensures Agree(View()) && Epochs(View()) == old(Epochs(View()))
      ensures |slots| == |old(slots)| && deleted == |slots|
      ensures forall j :: 0 <= j < |slots| ==> slots[j] == if old(slots)[j] == Some(n) then None else old(slots)[j]
    {
      deleted := 0;
      for j := 0 to |slots|
        invariant Agree(View()) && Epochs(View()) == old(Epochs(View())) && n in nodes
        invariant deleted == j && Purged(old(slots), n, j, slots)
      {
        Release(n, j);
        deleted := deleted + 1;
      }
    }

    /** One turn of the loop of clusterDelNode. */
    method ForgetInSlot(n: NodeId, j: nat)
      requires Agree(View()) && j < |slots| && |importingFrom| == |migratingTo| == |slots|
      modifies this
      ensures Agree(View()) && Epochs(View()) == old(Epochs(View()))
      ensures slots == old(slots)[j := if old(slots)[j] == Some(n) then None else old(slots)[j]]
      ensures importingFrom == old(importingFrom)[j := if old(importingFrom)[j] == Some(n) then None else old(importingFrom)[j]]
      ensures migratingTo == old(migratingTo)[j := if old(migratingTo)[j] == Some(n) then None else old(migratingTo)[j]]
    {
      if importingFrom[j] == Some(n) { importingFrom := importingFrom[j := None]; }
      if migratingTo[j] == Some(n) { migratingTo := migratingTo[j := None]; }
      if slots[j] == Some(n) { var _ := Del(j); }
    }

    /** The loop of clusterDelNode. */
    method ForgetInSlots(n: NodeId)
      requires Agree(View()) && |importingFrom| == |migratingTo| == |slots|
      modifies this
      ensures Agree(View()) && Epochs(View()) == old(Epochs(View()))
      ensures Purged(old(slots), n, |slots|, slots)
      ensures Purged(old(importingFrom), n, |slots|, importingFrom)
      ensures Purged(old(migratingTo), n, |slots|, migratingTo)
    {
      for j := 0 to |slots|
        invariant Agree(View()) && Epochs(View()) == old(Epochs(View()))
        invariant Purged(old(slots), n, j, slots)
        invariant Purged(old(importingFrom), n, j, importingFrom)
        invariant Purged(old(migratingTo), n, j, migratingTo)
      {
        ForgetInSlot(n, j);
      }
    }

    /** The slot part of clusterDelNode, and the removal of the node record. */
    method DelNode(n: NodeId)
      requires Agree(View()) && n in nodes && |importingFrom| == |migratingTo| == |slots|
      modifies this
      ensures Agree(View()) && nodes.Keys == old(nodes).Keys - {n}
      ensures forall m :: m in nodes ==> nodes[m].configEpoch == old(nodes)[m].configEpoch
      ensures Purged(old(slots), n, |slots|, slots)
      ensures Purged(old(importingFrom), n, |slots|, importingFrom)
      ensures Purged(old(migratingTo), n, |slots|, migratingTo)
    {
      ForgetInSlots(n);
      ghost var c := View();
      EpochsAgree(old(View()), c);
      nodes := nodes - {n};
      ForgetOwnerless(c, n);
    }

    /** Moves slot j to n, whoever had it. */
    method Move(n: NodeId, j: nat)
      requires Agree(View()) && j < |slots| && n in nodes
      modifies this`slots, this`nodes
      ensures View() == Rebind(old(View()), n, j)
      ensures Agree(View()) && Epochs(View()) == old(Epochs(View())) && slots == old(slots)[j := Some(n)]
    {
      RebindKeeps(View(), n, j);
      DelSlotKeeps(View(), j);
      ghost var c := DelSlot(View(), j);
      AddSlotKeeps(c, n, j);
      if slots[j].Some? {
        var m := slots[j].value;
        nodes := nodes[m := ClearBit(nodes[m], j)];
        slots := slots[j := None];
      }
      nodes := nodes[n := SetBit(nodes[n], j)];
      slots := slots[j := Some(n)];
    }

    /** One turn of the loop of clusterFailoverReplaceYourMaster. */
    method TakeOver(me: NodeId, oldmaster: NodeId, j: nat)
      requires Agree(View()) && me in nodes && oldmaster in nodes && j < |slots|
      modifies this`slots, this`nodes
      ensures Agree(View()) && Epochs(View()) == old(Epochs(View())) && me in nodes && oldmaster in nodes
      ensures slots == old(slots)[j := if old(slots)[j] == Some(oldmaster) then Some(me) else old(slots)[j]]
    {
      assert RecOk(View(), oldmaster);
      ghost var c := View();
      if nodes[oldmaster].slots[j] { Move(me, j); }
      EpochsAgree(c, View());
    }

    /** clusterFailoverReplaceYourMaster: the slots of the old master become ours. */
    method ReplaceMaster(me: NodeId, oldmaster: NodeId)
      requires Agree(View()) && me in nodes && oldmaster in nodes && me != oldmaster
      modifies this`slots, this`nodes
      ensures Agree(View()) && Epochs(View()) == old(Epochs(View())) && |slots| == |old(slots)|
      ensures forall j :: 0 <= j < |slots| ==>
                slots[j] == if old(slots)[j] == Some(oldmaster) then Some(me) else old(slots)[j]
    {
      for j := 0 to |slots|
        invariant Agree(View()) && Epochs(View()) == old(Epochs(View())) && me in nodes && oldmaster in nodes
        invariant |slots| == |old(slots)|
        invariant forall i :: 0 <= i < |slots| ==>
          slots[i] == if i < j && old(slots)[i] == Some(oldmaster) then Some(me) else old(slots)[i]
      {
        TakeOver(me, oldmaster, j);
      }
    }

    /** One turn of the loop of clusterUpdateSlotsConfigWith. */
    method TakeSlot(sender: NodeId, epoch: nat, claim: seq<bool>, importing: seq<bool>, j: nat) returns (taken: bool)
      requires Agree(View()) && sender in nodes && j < |slots| && |claim| == |slots| && |importing| == |slots|
      modifies this`slots, this`nodes
      ensures taken == old(Takes(View(), sender, epoch, claim, importing, j))
      ensures View() == if taken then Rebind(old(View()), sender, j) else old(View())
    {
      taken := claim[j] && slots[j] != Some(sender) && !importing[j]
               && (slots[j].None? || nodes[slots[j].value].configEpoch < epoch);
      if taken { Move(sender, j); }
    }

    /** The loop of clusterUpdateSlotsConfigWith. */
    method TakeSlots(sender: NodeId, epoch: nat, claim: seq<bool>, importing: seq<bool>,
                     me: NodeId, curmaster: NodeId, hasKeys: seq<bool>)
        returns (fromMaster: bool, dirty: seq<nat>)
      requires Agree(View()) && sender in nodes
      requires |claim| == |slots| && |importing| == |slots| && |hasKeys| == |slots|
      modifies this`slots, this`nodes
      ensures View() == ApplyClaim(old(View()), sender, epoch, claim, importing, |old(slots)|)
      ensures fromMaster == LosesSlot(old(View()), curmaster, sender, epoch, claim, importing, |old(slots)|)
      ensures dirty == DirtySlots(old(View()), me, sender, epoch, claim, importing, hasKeys, |old(slots)|)
    {
      fromMaster, dirty := false, [];
      ghost var c := View();
      for j := 0 to |slots|
        invariant View() == ApplyClaim(c, sender, epoch, claim, importing, j)
        invariant fromMaster == LosesSlot(c, curmaster, sender, epoch, claim, importing, j)
        invariant dirty == DirtySlots(c, me, sender, epoch, claim, importing, hasKeys, j)
      {
        ClaimAt(c, View(), sender, epoch, claim, importing, j);
        var owner := slots[j];
        var taken := TakeSlot(sender, epoch, claim, importing, j);
        if taken && owner == Some(me) && hasKeys[j] { dirty := dirty + [j]; }
        if taken && owner == Some(curmaster) { fromMaster := true; }
      }
    }

    /** clusterUpdateSlotsConfigWith, up to the change of role: rebinds every slot that the
        claim takes; reports whether one was taken from curmaster, and the slots of this node
        that were taken while they held keys.  A claim in this node's own name is discarded. */
    method UpdateSlots(sender: NodeId, epoch: nat, claim: seq<bool>, importing: seq<bool>,
                       me: NodeId, curmaster: NodeId, hasKeys: seq<bool>)
        returns (fromMaster: bool, dirty: seq<nat>)
      requires Agree(View()) && sender in nodes
      requires |claim| == |slots| && |importing| == |slots| && |hasKeys| == |slots|
      modifies this`slots, this`nodes
      ensures sender == me ==> View() == old(View()) && !fromMaster && dirty == []
      ensures sender != me ==> View() == ApplyClaim(old(View()), sender, epoch, claim, importing, |old(slots)|)
      ensures sender != me ==>
                fromMaster == LosesSlot(old(View()), curmaster, sender, epoch, claim, importing, |old(slots)|)
      ensures sender != me ==>
                dirty == DirtySlots(old(View()), me, sender, epoch, claim, importing, hasKeys, |old(slots)|)
    {
      fromMaster, dirty := false, [];
      if sender != me {
        fromMaster, dirty := TakeSlots(sender, epoch, claim, importing, me, curmaster, hasKeys);
      }
    }
  }

  /** The loop decides slot j as the state before the loop does. */
  lemma ClaimAt(c: Cluster, d: Cluster, sender: NodeId, epoch: nat, claim: seq<bool>, importing: seq<bool>, j: nat)
    requires Agree(c) && sender in c.nodes && |claim| == |c.slots| && |importing| == |c.slots| && j < |c.slots|
    requires d == ApplyClaim(c, sender, epoch, claim, importing, j)
    ensures d.slots[j] == c.slots[j]
    ensures Takes(d, sender, epoch, claim, importing, j) == Takes(c, sender, epoch, claim, importing, j)
  {
    EpochsAgree(c, d);
  }

  lemma {:induction false} NoneTrue(b: seq<bool>)
    requires forall j :: 0 <= j < |b| ==> !b[j]
    ensures CountTrue(b) == 0
  {
    if b != [] { NoneTrue(b[1..]); }
  }

  // ----- every sequence of operations keeps the bookkeeping -------------------------------

  datatype Op =
    | OpAddSlot(n: NodeId, j: nat)
    | OpDelSlot(j: nat)
    | OpMoveSlot(n: NodeId, j: nat)          // CLUSTER SETSLOT NODE
    | OpClaim(n: NodeId, epoch: nat, claim: seq<bool>, importing: seq<bool>)
    | OpEpoch(n: NodeId, epoch: nat)         // a newer configEpoch of n is heard of
    | OpNewNode(n: NodeId, epoch: nat)
    | OpDropNode(n: NodeId)

  function WithEpoch(c: Cluster, n: NodeId, epoch: nat): Cluster
    requires n in c.nodes
  {
    if epoch > c.nodes[n].configEpoch then c.(nodes := c.nodes[n := c.nodes[n].(configEpoch := epoch)]) else c
  }

  /** c' is c with the slots of n below j unassigned. */
  ghost predicate Released(c: Cluster, n: NodeId, j: nat, c': Cluster)
    requires j <= |c.slots|
  {
    && Agree(c') && |c'.slots| == |c.slots| && c'.nodes.Keys == c.nodes.Keys
    && forall i :: 0 <= i < |c.slots| ==> c'.slots[i] == if i < j && c.slots[i] == Some(n) then None else c.slots[i]
  }

  lemma ReleaseStep(c: Cluster, n: NodeId, j: nat, d: Cluster)
    requires 0 < j <= |c.slots| && Released(c, n, j - 1, d)
    ensures Released(c, n, j, if d.slots[j - 1] == Some(n) then DelSlot(d, j - 1) else d)
  {
    if d.slots[j - 1] == Some(n) { DelSlotKeeps(d, j - 1); }
  }

  /** Unassigns the slots of n below j. */
  ghost function ReleaseSlots(c: Cluster, n: NodeId, j: nat): (c': Cluster)
    requires Agree(c) && j <= |c.slots|
    ensures Agree(c') && |c'.slots| == |c.slots| && c'.nodes.Keys == c.nodes.Keys
    ensures forall i :: 0 <= i < |c.slots| ==>
              c'.slots[i] == if i < j && c.slots[i] == Some(n) then None else c.slots[i]
  {
    if j == 0 then c
    else
      var d := ReleaseSlots(c, n, j - 1);
      ReleaseStep(c, n, j, d);
      if d.slots[j - 1] == Some(n) then DelSlot(d, j - 1) else d
  }

  predicate Applies(c: Cluster, op: Op) {
    match op
    case OpAddSlot(n, j) => j < |c.slots| && n in c.nodes
    case OpDelSlot(j) => j < |c.slots|
    case OpMoveSlot(n, j) => j < |c.slots| && n in c.nodes
    case OpClaim(n, _, claim, importing) => n in c.nodes && |claim| == |c.slots| && |importing| == |c.slots|
    case OpEpoch(n, _) => n in c.nodes
    case OpNewNode(n, _) => n !in c.nodes
    case OpDropNode(n) => n in c.nodes
  }

  /** clusterDelNode, as far as slots go. */
  ghost function DropNode(c: Cluster, n: NodeId): Cluster
    requires Agree(c)
  {
    var d := ReleaseSlots(c, n, |c.slots|);
    d.(nodes := d.nodes - {n})
  }

  ghost function Exec(c: Cluster, op: Op): Cluster
    requires Agree(c) && Applies(c, op)
  {
    match op
    case OpAddSlot(n, j) => AddSlotKeeps(c, n, j); AddSlot(c, n, j)
    case OpDelSlot(j) => DelSlotKeeps(c, j); DelSlot(c, j)
    case OpMoveSlot(n, j) => Rebind(c, n, j)
    case OpClaim(n, epoch, claim, importing) => ApplyClaim(c, n, epoch, claim, importing, |c.slots|)
    case OpEpoch(n, epoch) => WithEpoch(c, n, epoch)
    case OpNewNode(n, epoch) => c.(nodes := c.nodes[n := NodeRec(epoch, seq(|c.slots|, j => false), 0)])
    case OpDropNode(n) => DropNode(c, n)
  }

  lemma WithEpochKeeps(c: Cluster, n: NodeId, epoch: nat)
    requires Agree(c) && n in c.nodes
    ensures Agree(WithEpoch(c, n, epoch))
  {
    var c' := WithEpoch(c, n, epoch);
    forall m | m in c'.nodes ensures RecOk(c', m) { assert RecOk(c, m); }
  }

  lemma NewNodeKeeps(c: Cluster, n: NodeId, epoch: nat)
    requires Agree(c) && n !in c.nodes
    ensures Agree(c.(nodes := c.nodes[n := NodeRec(epoch, seq(|c.slots|, j => false), 0)]))
  {
    var r := NodeRec(epoch, seq(|c.slots|, j => false), 0);
    var c' := c.(nodes := c.nodes[n := r]);
    NoneTrue(r.slots);
    forall m | m in c'.nodes ensures RecOk(c', m) {
      if m != n { assert RecOk(c, m); }
    }
  }

  lemma DropNodeKeeps(c: Cluster, n: NodeId)
    requires Agree(c) && n in c.nodes
    ensures Agree(DropNode(c, n))
  {
    ForgetOwnerless(ReleaseSlots(c, n, |c.slots|), n);
  }

  /** The record of a node that owns no slot may go. */
  lemma ForgetOwnerless(c: Cluster, n: NodeId)
    requires Agree(c) && forall j :: 0 <= j < |c.slots| ==> c.slots[j] != Some(n)
    ensures Agree(c.(nodes := c.nodes - {n}))
  {
    var c' := c.(nodes := c.nodes - {n});
    forall m | m in c'.nodes ensures RecOk(c', m) { assert RecOk(c, m); }
  }

  lemma ExecKeeps(c: Cluster, op: Op)
    requires Agree(c) && Applies(c, op)
    ensures Agree(Exec(c, op))
  {
    match op
    case OpAddSlot(n, j) => AddSlotKeeps(c, n, j);
    case OpDelSlot(j) => DelSlotKeeps(c, j);
    case OpMoveSlot(n, j) => RebindKeeps(c, n, j);
    case OpClaim(n, epoch, claim, importing) =>
    case OpEpoch(n, epoch) => WithEpochKeeps(c, n, epoch);
    case OpNewNode(n, epoch) => NewNodeKeeps(c, n, epoch);
    case OpDropNode(n) => DropNodeKeeps(c, n);
  }

  /** A sequence of operations; one that does not apply is refused. */
  ghost function Run(c: Cluster, ops: seq<Op>): Cluster
    requires Agree(c)
    decreases |ops|
  {
    if ops == [] then c
    else if !Applies(c, ops[0]) then Run(c, ops[1..])
    else ExecKeeps(c, ops[0]); Run(Exec(c, ops[0]), ops[1..])
  }

  /** After any sequence of slot and node operations, bitmaps, counters and owners agree: bit
      j of n is set exactly if n owns slot j, and numslots is the number of slots n owns. */
  lemma {:induction false} BookkeepingAgrees(c: Cluster, ops: seq<Op>)
    requires Agree(c)
    ensures Agree(Run(c, ops))
    decreases |ops|
  {
    if ops != [] {
      if Applies(c, ops[0]) {
        ExecKeeps(c, ops[0]);
        BookkeepingAgrees(Exec(c, ops[0]), ops[1..]);
      } else {
        BookkeepingAgrees(c, ops[1..]);
      }
    }
  }

  // ----- claims converge ---------------------------------------------------------------------

  /** One fixed claim of a master: its configuration epoch and its bitmap. */
  datatype Claim = Claim(epoch: nat, slots: seq<bool>)

  ghost predicate ClaimsOk(claims: map<NodeId, Claim>, size: nat) {
    && (forall m :: m in claims ==> |claims[m].slots| == size)
    && (forall m, n :: m in claims && n in claims && m != n ==> claims[m].epoch != claims[n].epoch)
  }

  /** The slots that the node is importing, and their owners, which no claim changes. */
  datatype Imports = Imports(slots: seq<bool>, owners: seq<Option<NodeId>>)

  ghost predicate Held(im: Imports, c: Cluster) {
    && |im.slots| == |im.owners| == |c.slots|
    && forall j :: 0 <= j < |c.slots| && im.slots[j] ==> c.slots[j] == im.owners[j]
  }

  /** What clusterProcessPacket does with a ping of a master. */
  ghost function Ping(c: Cluster, m: NodeId, claim: Claim, importing: seq<bool>): Cluster
    requires Agree(c) && m in c.nodes && |claim.slots| == |c.slots| == |importing|
  {
    WithEpochKeeps(c, m, claim.epoch);
    var c1 := WithEpoch(c, m, claim.epoch);
    if c1.nodes[m].slots == claim.slots then c1
    else ApplyClaim(c1, m, claim.epoch, claim.slots, importing, |c.slots|)
  }

  /** o is the owner that the claims of `heard` call for at slot j. */
  ghost predicate Rightful(claims: map<NodeId, Claim>, heard: set<NodeId>, j: nat, o: Option<NodeId>)
    requires heard <= claims.Keys && forall m :: m in claims ==> j < |claims[m].slots|
  {
    match o
    case None => forall m :: m in heard ==> !claims[m].slots[j]
    case Some(n) =>
      && n in heard && claims[n].slots[j]
      && forall m :: m in heard && claims[m].slots[j] ==> claims[m].epoch <= claims[n].epoch
  }

  ghost predicate Converging(c: Cluster, claims: map<NodeId, Claim>, heard: set<NodeId>, im: Imports) {
    && Agree(c) && ClaimsOk(claims, |c.slots|) && heard <= claims.Keys && claims.Keys <= c.nodes.Keys
    && (forall m :: m in claims ==> c.nodes[m].configEpoch <= claims[m].epoch)
    && (forall m :: m in heard ==> c.nodes[m].configEpoch == claims[m].epoch)
    && Held(im, c)
    && (forall j :: 0 <= j < |c.slots| && !im.slots[j] ==> Rightful(claims, heard, j, c.slots[j]))
  }

  /** What a ping does to slot j, in terms of the claims. */
  ghost predicate SlotAfterPing(c: Cluster, c': Cluster, claims: map<NodeId, Claim>, heard: set<NodeId>, im: Imports, m: NodeId, j: nat)
    requires |im.slots| == |c.slots| && ClaimsOk(claims, |c.slots|) && heard <= claims.Keys && m in claims && j < |c.slots| == |c'.slots|
  {
    var o := c.slots[j];
    if im.slots[j] then c'.slots[j] == o
    else
      && (o.Some? ==> o.value in heard)
      && c'.slots[j] == if claims[m].slots[j] && o != Some(m) && (o.None? || claims[o.value].epoch < claims[m].epoch)
                        then Some(m) else o
  }

  lemma OwnersAreHeard(c: Cluster, claims: map<NodeId, Claim>, heard: set<NodeId>, im: Imports, j: nat)
    requires Converging(c, claims, heard, im) && j < |c.slots| && !im.slots[j] && c.slots[j].Some?
    ensures c.slots[j].value in heard && c.slots[j].value in c.nodes
    ensures c.nodes[c.slots[j].value].configEpoch == claims[c.slots[j].value].epoch
  {
    assert Rightful(claims, heard, j, c.slots[j]);
  }

  /** The epochs after a ping. */
  lemma PingEpochs(c: Cluster, m: NodeId, claim: Claim, importing: seq<bool>)
    requires Agree(c) && m in c.nodes && |claim.slots| == |c.slots| == |importing|
    ensures var c' := Ping(c, m, claim, importing);
            && Agree(c') && |c'.slots| == |c.slots| && c'.nodes.Keys == c.nodes.Keys
            && forall n :: n in c.nodes ==>
                 c'.nodes[n].configEpoch == WithEpoch(c, m, claim.epoch).nodes[n].configEpoch
  {
    WithEpochKeeps(c, m, claim.epoch);
    EpochsAgree(WithEpoch(c, m, claim.epoch), Ping(c, m, claim, importing));
  }

  /** The owners after a ping. */
  lemma PingSlots(c: Cluster, m: NodeId, claim: Claim, importing: seq<bool>, j: nat)
    requires Agree(c) && m in c.nodes && |claim.slots| == |c.slots| == |importing| && j < |c.slots|
    requires c.slots[j].Some? ==> c.slots[j].value in c.nodes
    ensures |Ping(c, m, claim, importing).slots| == |c.slots|
    ensures var c1 := WithEpoch(c, m, claim.epoch);
            var o := c.slots[j];
            Ping(c, m, claim, importing).slots[j] ==
              if claim.slots[j] && !importing[j] && o != Some(m) && (o.None? || c1.nodes[o.value].configEpoch < claim.epoch) then Some(m) else o
  {
    var c1 := WithEpoch(c, m, claim.epoch);
    WithEpochKeeps(c, m, claim.epoch);
    assert RecOk(c1, m);
  }

  lemma PingEffect(c: Cluster, claims: map<NodeId, Claim>, heard: set<NodeId>, im: Imports, m: NodeId)
    requires Converging(c, claims, heard, im) && m in claims
    ensures var c' := Ping(c, m, claims[m], im.slots);
            && Agree(c') && |c'.slots| == |c.slots| && c'.nodes.Keys == c.nodes.Keys
            && (forall n :: n in c.nodes ==>
                  c'.nodes[n].configEpoch == if n == m then claims[m].epoch else c.nodes[n].configEpoch)
            && (forall j :: 0 <= j < |c.slots| ==> SlotAfterPing(c, c', claims, heard, im, m, j))
  {
    PingEpochs(c, m, claims[m], im.slots);
    forall j | 0 <= j < |c.slots| ensures SlotAfterPing(c, Ping(c, m, claims[m], im.slots), claims, heard, im, m, j) {
      PingSlot(c, claims, heard, im, m, j);
    }
  }

  lemma PingSlot(c: Cluster, claims: map<NodeId, Claim>, heard: set<NodeId>, im: Imports, m: NodeId, j: nat)
    requires Converging(c, claims, heard, im) && m in claims && j < |c.slots|
    ensures |Ping(c, m, claims[m], im.slots).slots| == |c.slots|
    ensures SlotAfterPing(c, Ping(c, m, claims[m], im.slots), claims, heard, im, m, j)
  {
    if c.slots[j].Some? && !im.slots[j] { OwnersAreHeard(c, claims, heard, im, j); }
    PingSlots(c, m, claims[m], im.slots, j);
  }

  lemma RightfulAfterPing(c: Cluster, c': Cluster, claims: map<NodeId, Claim>, heard: set<NodeId>, im: Imports, m: NodeId, j: nat)
    requires |im.slots| == |c.slots| && ClaimsOk(claims, |c.slots|) && heard <= claims.Keys && m in claims && j < |c.slots| == |c'.slots|
    requires !im.slots[j] && Rightful(claims, heard, j, c.slots[j]) && SlotAfterPing(c, c', claims, heard, im, m, j)
    ensures Rightful(claims, heard + {m}, j, c'.slots[j])
  {
  }

  lemma PingConverges(c: Cluster, claims: map<NodeId, Claim>, heard: set<NodeId>, im: Imports, m: NodeId)
    requires Converging(c, claims, heard, im) && m in claims
    ensures Converging(Ping(c, m, claims[m], im.slots), claims, heard + {m}, im)
  {
    PingEffect(c, claims, heard, im, m);
    PingRights(c, Ping(c, m, claims[m], im.slots), claims, heard, im, m);
  }

  lemma PingRights(c: Cluster, c': Cluster, claims: map<NodeId, Claim>, heard: set<NodeId>, im: Imports, m: NodeId)
    requires Held(im, c) && ClaimsOk(claims, |c.slots|) && heard <= claims.Keys && m in claims && |c'.slots| == |c.slots|
    requires forall j :: 0 <= j < |c.slots| && !im.slots[j] ==> Rightful(claims, heard, j, c.slots[j])
    requires forall j :: 0 <= j < |c.slots| ==> SlotAfterPing(c, c', claims, heard, im, m, j)
    ensures Held(im, c')
    ensures forall j :: 0 <= j < |c.slots| && !im.slots[j] ==> Rightful(claims, heard + {m}, j, c'.slots[j])
  {
    forall j | 0 <= j < |c'.slots| && im.slots[j] ensures c'.slots[j] == im.owners[j] {
      assert SlotAfterPing(c, c', claims, heard, im, m, j);
    }
    forall j | 0 <= j < |c'.slots| && !im.slots[j] ensures Rightful(claims, heard + {m}, j, c'.slots[j]) {
      RightfulAfterPing(c, c', claims, heard, im, m, j);
    }
  }

  /** The view after the pings of `order`, in that order. */
  ghost function Deliver(c: Cluster, claims: map<NodeId, Claim>, heard: set<NodeId>, im: Imports, order: seq<NodeId>): Cluster
    requires Converging(c, claims, heard, im) && forall i :: 0 <= i < |order| ==> order[i] in claims
    decreases |order|
  {
    if order == [] then c
    else
      PingConverges(c, claims, heard, im, order[0]);
      Deliver(Ping(c, order[0], claims[order[0]], im.slots), claims, heard + {order[0]}, im, order[1..])
  }

  /** The masters heard after the pings of `order`. */
  function Heard(heard: set<NodeId>, order: seq<NodeId>): set<NodeId>
    decreases |order|
  {
    if order == [] then heard else Heard(heard + {order[0]}, order[1..])
  }

  lemma {:induction false} HeardHas(heard: set<NodeId>, order: seq<NodeId>, m: NodeId)
    ensures m in Heard(heard, order) <==> m in heard || m in order
    decreases |order|
  {
    if order != [] { HeardHas(heard + {order[0]}, order[1..], m); }
  }

  lemma {:induction false} DeliverConverges(c: Cluster, claims: map<NodeId, Claim>, heard: set<NodeId>, im: Imports, order: seq<NodeId>)
    requires Converging(c, claims, heard, im) && forall i :: 0 <= i < |order| ==> order[i] in claims
    ensures Converging(Deliver(c, claims, heard, im, order), claims, Heard(heard, order), im)
    ensures |Deliver(c, claims, heard, im, order).slots| == |c.slots|
    decreases |order|
  {
    if order != [] {
      var m := order[0];
      PingConverges(c, claims, heard, im, m);
      assert |Ping(c, m, claims[m], im.slots).slots| == |c.slots| by { PingEpochs(c, m, claims[m], im.slots); }
      DeliverConverges(Ping(c, m, claims[m], im.slots), claims, heard + {m}, im, order[1..]);
    }
  }

  lemma EverybodyHeard(claims: map<NodeId, Claim>, order: seq<NodeId>)
    requires forall i :: 0 <= i < |order| ==> order[i] in claims
    requires forall m :: m in claims ==> m in order
    ensures Heard({}, order) == claims.Keys
  {
    forall m ensures m in Heard({}, order) <==> m in claims { HeardHas({}, order, m); }
  }

  /** A view in which only slots being imported have owners. */
  lemma ConvergingAtFirst(c: Cluster, claims: map<NodeId, Claim>, im: Imports)
    requires Agree(c) && ClaimsOk(claims, |c.slots|) && claims.Keys <= c.nodes.Keys
    requires forall m :: m in claims ==> c.nodes[m].configEpoch <= claims[m].epoch
    requires Held(im, c) && forall i :: 0 <= i < |c.slots| && !im.slots[i] ==> c.slots[i] == None
    ensures Converging(c, claims, {}, im)
  {
  }

  /** Convergence: a node that knows of no owner ends up, once it has heard every master's claim
      at least once, with each slot owned by the claimant of the greatest epoch, and unassigned if
      there is none, whatever the order and repetition; but a slot that it is importing stays as it
      is, whoever claims it. */
  lemma ClaimsConverge(c: Cluster, claims: map<NodeId, Claim>, im: Imports, order: seq<NodeId>, j: nat)
    requires Agree(c) && ClaimsOk(claims, |c.slots|) && claims.Keys <= c.nodes.Keys
    requires forall m :: m in claims ==> c.nodes[m].configEpoch <= claims[m].epoch
    requires Held(im, c) && forall i :: 0 <= i < |c.slots| && !im.slots[i] ==> c.slots[i] == None
    requires forall i :: 0 <= i < |order| ==> order[i] in claims
    requires forall m :: m in claims ==> m in order
    requires j < |c.slots|
    ensures Converging(c, claims, {}, im)
    ensures |Deliver(c, claims, {}, im, order).slots| == |c.slots|
    ensures var o := Deliver(c, claims, {}, im, order).slots[j];
            if im.slots[j] then o == c.slots[j] else Rightful(claims, claims.Keys, j, o)
  {
    ConvergingAtFirst(c, claims, im);
    EverybodyHeard(claims, order);
    DeliverConverges(c, claims, {}, im, order);
  }
}
