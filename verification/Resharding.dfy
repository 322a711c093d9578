/** Routing of commands (getNodeByQuery), CLUSTER SETSLOT, and the migration of a slot from
    one node to another. */
module Resharding {
  import opened Prelude

  type NodeId = nat
  type Key = nat

  /** The routing state of a node: owner, migration target and import source of each slot. */
  datatype Router = Router(me: NodeId, masterOf: Option<NodeId>, owner: seq<Option<NodeId>>,
                           migrating: seq<Option<NodeId>>, importing: seq<Option<NodeId>>, up: bool)

  predicate Sized(r: Router) {
    |r.owner| == |r.migrating| == |r.importing|
  }

  /** A command, or a whole MULTI block: the keys of each of its parts, and the flags that
      routing looks at. */
  datatype Query = Query(parts: seq<seq<Key>>, asking: bool, isMigrate: bool, readOnly: bool, bareExec: bool)

  datatype Error = CrossSlot | Unstable | DownUnbound | DownState

  datatype Route = Serve | Ask(to: NodeId) | Moved(to: NodeId) | Refuse(error: Error)

  function Flatten(parts: seq<seq<Key>>): seq<Key> {
    if parts == [] then [] else parts[0] + Flatten(parts[1..])
  }

  /** What getNodeByQuery decides, in terms of all the keys of the query. */
  function Decide(r: Router, slotOf: Key -> nat, db: set<Key>, q: Query): Route
    requires Sized(r) && forall k :: slotOf(k) < |r.owner|
  {
    var keys := Flatten(q.parts);
    if q.bareExec || keys == [] then Serve
    else
      var slot := slotOf(keys[0]);
      if r.owner[slot].None? then Refuse(DownUnbound)
      else if exists k :: k in keys && slotOf(k) != slot then Refuse(CrossSlot)
      else if !r.up then Refuse(DownState)
      else
        var n := r.owner[slot].value;
        var leaving := n == r.me && r.migrating[slot].Some?;
        var arriving := !leaving && r.importing[slot].Some?;
        var missing := exists k :: k in keys && k !in db;
        if (leaving || arriving) && q.isMigrate then Serve
        else if leaving && missing then Ask(r.migrating[slot].value)
        else if arriving && q.asking then
          if (exists k :: k in keys && k != keys[0]) && missing then Refuse(Unstable) else Serve
        else if q.readOnly && r.masterOf == Some(n) then Serve
        else if n != r.me then Moved(n)
        else Serve
  }

  // ----- what the decisions mean ------------------------------------------------------

  function KeysOf(q: Query): set<Key> {
    set k | k in Flatten(q.parts)
  }

  /** The query names keys, and is not an EXEC outside MULTI. */
  predicate Keyed(q: Query) {
    !q.bareExec && Flatten(q.parts) != []
  }

  /** All keys of the query lie in slot s, which has an owner. */
  ghost predicate InSlot(r: Router, slotOf: Key -> nat, q: Query, s: nat) {
    s < |r.owner| && r.owner[s].Some? && Keyed(q) && forall k :: k in KeysOf(q) ==> slotOf(k) == s
  }

  /** The slot is ours and on its way to n. */
  predicate Leaves(r: Router, s: nat, n: NodeId)
    requires Sized(r) && s < |r.owner|
  {
    r.owner[s] == Some(r.me) && r.migrating[s] == Some(n)
  }

  /** The slot is on its way to us. */
  predicate Arrives(r: Router, s: nat)
    requires Sized(r) && s < |r.owner|
  {
    r.importing[s].Some? && !(r.owner[s] == Some(r.me) && r.migrating[s].Some?)
  }

  predicate IsOpen(r: Router, s: nat)
    requires Sized(r) && s < |r.owner|
  {
    r.importing[s].Some? || (r.owner[s] == Some(r.me) && r.migrating[s].Some?)
  }

  /** One key, once or repeated. */
  lemma OneKeyOnly(q: Query)
    requires Keyed(q)
    ensures Flatten(q.parts)[0] in KeysOf(q)
    ensures |KeysOf(q)| == 1 <==> forall k :: k in Flatten(q.parts) ==> k == Flatten(q.parts)[0]
  {
    var first := Flatten(q.parts)[0];
    if forall k :: k in Flatten(q.parts) ==> k == first {
      assert KeysOf(q) == {first};
    } else {
      var k :| k in Flatten(q.parts) && k != first;
      SubsetSize({k, first}, KeysOf(q));
    }
  }

  /** The errors, each with its exact condition: the slot of the first key has no owner; it has
      one and the keys are in several slots; they are in one and the cluster is down; it is up
      and several keys are asked for in an importing slot, and not all of them are here. */
  lemma RefusedExactly(r: Router, slotOf: Key -> nat, db: set<Key>, q: Query)
    requires Sized(r) && Keyed(q) && forall k :: slotOf(k) < |r.owner|
    ensures var route, first := Decide(r, slotOf, db, q), slotOf(Flatten(q.parts)[0]);
            && (route == Refuse(DownUnbound) <==> r.owner[first].None?)
            && (route == Refuse(CrossSlot) <==>
                  r.owner[first].Some? && exists k, k' :: k in KeysOf(q) && k' in KeysOf(q) && slotOf(k) != slotOf(k'))
            && (route == Refuse(DownState) <==> InSlot(r, slotOf, q, first) && !r.up)
            && (route == Refuse(Unstable) <==>
                  InSlot(r, slotOf, q, first) && r.up && Arrives(r, first)
                  && q.asking && !q.isMigrate && |KeysOf(q)| > 1 && !(KeysOf(q) <= db))
  {
    OneKeyOnly(q);
  }

  /** The redirections: ASK to where an own slot is going if some key is not here any more (but
      MIGRATE works where it is); MOVED to the owner, unless the slot is being imported and the
      query says ASKING or is MIGRATE, or a read-only query finds a slave of that owner. */
  lemma RedirectedExactly(r: Router, slotOf: Key -> nat, db: set<Key>, q: Query, s: nat, n: NodeId)
    requires Sized(r) && (forall k :: slotOf(k) < |r.owner|) && InSlot(r, slotOf, q, s) && r.up
    ensures Decide(r, slotOf, db, q) == Ask(n) <==> Leaves(r, s, n) && !q.isMigrate && !(KeysOf(q) <= db)
    ensures Decide(r, slotOf, db, q) == Moved(n) <==>
              && r.owner[s] == Some(n) && n != r.me
              && !(Arrives(r, s) && (q.asking || q.isMigrate)) && !(q.readOnly && r.masterOf == Some(n))
  {
    OneKeyOnly(q);
  }

  /** A query that is executed here has all its keys in one slot, of which this node is the owner,
      or the importer and the client asks for it, or a slave of the owner and the client only
      reads; and if the slot is open, all keys are here, or it is but one and not leaving, or the
      query is MIGRATE.  Those are the only conditions. */
  lemma ServedExactly(r: Router, slotOf: Key -> nat, db: set<Key>, q: Query, s: nat)
    requires Sized(r) && (forall k :: slotOf(k) < |r.owner|) && Keyed(q) && s == slotOf(Flatten(q.parts)[0])
    ensures Decide(r, slotOf, db, q) == Serve <==>
              && InSlot(r, slotOf, q, s) && r.up
              && (|| r.owner[s] == Some(r.me)
                  || (Arrives(r, s) && (q.asking || q.isMigrate))
                  || (q.readOnly && r.masterOf == r.owner[s]))
              && (IsOpen(r, s) && !q.isMigrate && (Arrives(r, s) ==> q.asking)
                  ==> KeysOf(q) <= db || (Arrives(r, s) && |KeysOf(q)| == 1))
  {
    OneKeyOnly(q);
  }

  /** Queries without keys are always executed where they arrive. */
  lemma KeylessServed(r: Router, slotOf: Key -> nat, db: set<Key>, q: Query)
    requires Sized(r) && (forall k :: slotOf(k) < |r.owner|) && !Keyed(q)
    ensures Decide(r, slotOf, db, q) == Serve
  {
  }

  datatype SetSlotCmd = SetMigrating(to: NodeId) | SetImporting(from: NodeId) | SetStable | SetNode(n: NodeId)

  /** CLUSTER SETSLOT: the new state and whether the command was accepted. */
  function SetSlot(r: Router, slot: nat, cmd: SetSlotCmd, known: set<NodeId>, keysInSlot: nat): (Router, bool)
    requires Sized(r) && slot < |r.owner|
  {
    if r.masterOf.Some? then (r, false)
    else match cmd
      case SetMigrating(n) =>
        if r.owner[slot] != Some(r.me) || n !in known then (r, false)
        else (r.(migrating := r.migrating[slot := Some(n)]), true)
      case SetImporting(n) =>
        if r.owner[slot] == Some(r.me) || n !in known then (r, false)
        else (r.(importing := r.importing[slot := Some(n)]), true)
      case SetStable =>
        (r.(importing := r.importing[slot := None], migrating := r.migrating[slot := None]), true)
      case SetNode(n) =>
        if n !in known then (r, false)
        else if r.owner[slot] == Some(r.me) && n != r.me && keysInSlot != 0 then (r, false)
        else
          var r1 := if keysInSlot == 0 then r.(migrating := r.migrating[slot := None]) else r;
          var r2 := if n == r.me then r1.(importing := r1.importing[slot := None]) else r1;
          (r2.(owner := r2.owner[slot := Some(n)]), true)
  }

  /** The three tables agree but for one slot. */
  predicate OtherSlotsKept(r: Router, r': Router, slot: nat) {
    && |r'.owner| == |r.owner| && |r'.migrating| == |r.migrating| && |r'.importing| == |r.importing|
    && (forall j :: 0 <= j < |r.owner| && j != slot ==> r'.owner[j] == r.owner[j])
    && (forall j :: 0 <= j < |r.migrating| && j != slot ==> r'.migrating[j] == r.migrating[j])
    && (forall j :: 0 <= j < |r.importing| && j != slot ==> r'.importing[j] == r.importing[j])
  }

  /** CLUSTER SETSLOT: only a master takes it, and only for nodes it knows; it migrates only own
      slots, imports only others, and gives none away that holds keys.  What it gives away is no
      longer migrating, and what it takes is no longer importing. */
  lemma SetSlotExactly(r: Router, slot: nat, cmd: SetSlotCmd, known: set<NodeId>, keysInSlot: nat)
    requires Sized(r) && slot < |r.owner|
    ensures var (r', ok) := SetSlot(r, slot, cmd, known, keysInSlot);
            var mine := r.owner[slot] == Some(r.me);
            && (ok <==> r.masterOf.None? && match cmd
                  case SetMigrating(n) => mine && n in known
                  case SetImporting(n) => !mine && n in known
                  case SetStable => true
                  case SetNode(n) => n in known && (mine && n != r.me ==> keysInSlot == 0))
            && (!ok ==> r' == r)
            && (r'.me, r'.masterOf, r'.up) == (r.me, r.masterOf, r.up) && OtherSlotsKept(r, r', slot)
            && (r'.owner[slot] != r.owner[slot] ==> cmd == SetNode(r'.owner[slot].value))
            && (ok && cmd.SetMigrating? ==> r'.migrating[slot] == Some(cmd.to) && r'.importing[slot] == r.importing[slot])
            && (ok && cmd.SetImporting? ==> r'.importing[slot] == Some(cmd.from) && r'.migrating[slot] == r.migrating[slot])
            && (ok && cmd.SetStable? ==> r'.importing[slot] == None && r'.migrating[slot] == None)
            && (ok && cmd.SetNode? ==>
                  (r'.owner[slot] == Some(cmd.n)
                   && r'.migrating[slot] == (if keysInSlot == 0 then None else r.migrating[slot])
                   && r'.importing[slot] == (if cmd.n == r.me then None else r.importing[slot])))
  {
  }

  // ----- the code on a node's fields --------------------------------------------------

  lemma FlattenHas(parts: seq<seq<Key>>, done: seq<Key>, rest: seq<seq<Key>>, part: seq<Key>)
    requires Flatten(parts) == done + Flatten(rest) && rest != [] && rest[0] == part
    ensures Flatten(parts) == done + part + Flatten(rest[1..])
  {
    assert done + (part + Flatten(rest[1..])) == done + part + Flatten(rest[1..]);
  }

  class RoutingNode {
    const me: NodeId
    var masterOf: Option<NodeId>
    var owner: seq<Option<NodeId>>
    var migrating: seq<Option<NodeId>>
    var importing: seq<Option<NodeId>>
    var up: bool
    const slotOf: Key -> nat

    ghost function View(): Router
      reads this
    {
      Router(me, masterOf, owner, migrating, importing, up)
    }

    ghost predicate Valid()
      reads this
    {
      Sized(View()) && forall k :: slotOf(k) < |owner|
    }

    constructor (me: NodeId, size: nat, slotOf: Key -> nat)
      requires forall k :: slotOf(k) < size
      ensures Valid() && this.me == me && this.slotOf == slotOf
      ensures View() == Router(me, None, seq(size, i => None), seq(size, i => None), seq(size, i => None), false)
    {
      this.me, this.slotOf, masterOf, up := me, slotOf, None, false;
      owner, migrating, importing := seq(size, i => None), seq(size, i => None), seq(size, i => None);
    }

    /** CLUSTER SETSLOT.  `bumps` says that the node has to give itself a new configuration
        epoch: it takes over a slot that it was importing. */
    method SetSlotState(slot: nat, cmd: SetSlotCmd, known: set<NodeId>, keysInSlot: nat) returns (ok: bool, bumps: bool)
      requires Valid() && slot < |owner|
      modifies this`owner, this`migrating, this`importing
      ensures Valid() && (View(), ok) == SetSlot(old(View()), slot, cmd, known, keysInSlot)
      ensures bumps <==> ok && cmd == SetNode(me) && old(importing[slot]).Some?
    {
      ok, bumps := false, false;
      if masterOf.Some? { return; }
      match cmd {
        case SetMigrating(n) =>
          if owner[slot] != Some(me) || n !in known { return; }
          migrating := migrating[slot := Some(n)];
        case SetImporting(n) =>
          if owner[slot] == Some(me) || n !in known { return; }
          importing := importing[slot := Some(n)];
        case SetStable =>
          importing := importing[slot := None];
          migrating := migrating[slot := None];
        case SetNode(n) =>
          if n !in known { return; }
          if owner[slot] == Some(me) && n != me && keysInSlot != 0 { return; }
          if keysInSlot == 0 { migrating := migrating[slot := None]; }
          assert importing[slot].None? ==> importing[slot := None] == importing;
          if n == me && importing[slot].Some? {
            bumps := true;
            importing := importing[slot := None];
          }
          owner := owner[slot := Some(n)];
      }
      ok := true;
    }

    /** The accumulators after the keys `done` were looked at. */
    ghost predicate Scanned(done: seq<Key>, db: set<Key>, acc: Acc)
      requires Valid()
      reads this
    {
      if done == [] then acc == Acc(None, 0, false, false, false, 0)
      else
        && acc.first == Some(done[0]) && acc.slot == slotOf(done[0]) && owner[acc.slot].Some?
        && (forall k :: k in done ==> slotOf(k) == acc.slot)
        && acc.several == (exists k :: k in done && k != done[0])
        && acc.leaving == (owner[acc.slot] == Some(me) && migrating[acc.slot].Some?)
        && acc.arriving == (!acc.leaving && importing[acc.slot].Some?)
        && (acc.leaving || acc.arriving ==> (acc.missing > 0 <==> exists k :: k in done && k !in db))
    }

    /** One turn of the inner loop; an error ends the routing. */
    method Look(ghost done: seq<Key>, db: set<Key>, acc: Acc, k: Key) returns (r: Acc, error: Option<Error>)
      requires Valid() && Scanned(done, db, acc)
      ensures error.None? ==> Scanned(done + [k], db, r)
      ensures error.Some? ==> error.value == DownUnbound || error.value == CrossSlot
      ensures error == Some(DownUnbound) ==> done == [] && owner[slotOf(k)].None?
      ensures error == Some(CrossSlot) ==> done != [] && owner[slotOf(done[0])].Some? && slotOf(k) != slotOf(done[0])
    {
      r, error := acc, None;
      if r.first.None? {
        r := r.(first := Some(k), slot := slotOf(k));
        if owner[r.slot].None? { return r, Some(DownUnbound); }
        var leaving := owner[r.slot] == Some(me) && migrating[r.slot].Some?;
        r := r.(leaving := leaving, arriving := !leaving && importing[r.slot].Some?);
      } else if k != r.first.value {
        if slotOf(k) != r.slot { return r, Some(CrossSlot); }
        r := r.(several := true);
      }
      if (r.leaving || r.arriving) && k !in db { r := r.(missing := r.missing + 1); }
      ghost var d := done + [k];
      assert forall x :: x in d <==> x in done || x == k;
      assert d[0] == if done == [] then k else done[0];
      assert (exists x :: x in d && x !in db) <==> (exists x :: x in done && x !in db) || k !in db by {
        assert k in d;
      }
      assert (exists x :: x in d && x != d[0]) <==> (done != [] && exists x :: x in done && x != done[0]) || k != d[0] by {
        assert k in d;
      }
    }

    /** What follows the loops of getNodeByQuery. */
    method Conclude(q: Query, db: set<Key>, acc: Acc) returns (route: Route)
      requires Valid() && !q.bareExec && Scanned(Flatten(q.parts), db, acc)
      ensures route == Decide(View(), slotOf, db, q)
    {
      if acc.first.None? { return Serve; }
      var n := owner[acc.slot].value;
      if !up { return Refuse(DownState); }
      if (acc.leaving || acc.arriving) && q.isMigrate { return Serve; }
      if acc.leaving && acc.missing > 0 { return Ask(migrating[acc.slot].value); }
      if acc.arriving && q.asking {
        if acc.several && acc.missing > 0 { return Refuse(Unstable); }
        return Serve;
      }
      if q.readOnly && masterOf == Some(n) { return Serve; }
      if n != me { return Moved(n); }
      return Serve;
    }

    /** getNodeByQuery: two nested loops over the keys with accumulating flags. */
    method GetNodeByQuery(q: Query, db: set<Key>) returns (route: Route)
      requires Valid()
      ensures route == Decide(View(), slotOf, db, q)
    {
      if q.bareExec { return Serve; }
      var acc, error := Acc(None, 0, false, false, false, 0), None;
      ghost var keys, done: seq<Key> := Flatten(q.parts), [];
      assert q.parts[0..] == q.parts;
      for i := 0 to |q.parts|
        invariant keys == done + Flatten(q.parts[i..]) && Scanned(done, db, acc)
      {
        FlattenHas(q.parts, done, q.parts[i..], q.parts[i]);
        assert q.parts[i..][1..] == q.parts[i + 1..];
        ghost var before := done;
        for j := 0 to |q.parts[i]|
          invariant done == before + q.parts[i][..j] && Scanned(done, db, acc)
        {
          var k := q.parts[i][j];
          PrefixStep(keys, before, q.parts[i], Flatten(q.parts[i + 1..]), j);
          acc, error := Look(done, db, acc, k);
          if error.Some? { return Refuse(error.value); }
          done := done + [k];
        }
        assert q.parts[i][..|q.parts[i]|] == q.parts[i];
      }
      assert done == keys;
      route := Conclude(q, db, acc);
    }
  }

  datatype Acc = Acc(first: Option<Key>, slot: nat, several: bool, leaving: bool, arriving: bool, missing: nat)

  lemma PrefixStep(keys: seq<Key>, before: seq<Key>, part: seq<Key>, rest: seq<Key>, j: nat)
    requires keys == before + part + rest && j < |part|
    ensures before + part[..j] + [part[j]] == before + part[..j + 1]
    ensures keys != [] && part[j] in keys
    ensures keys[0] == if before + part[..j] == [] then part[j] else (before + part[..j])[0]
  {
    assert part[..j + 1] == part[..j] + [part[j]];
    assert keys[|before| + j] == part[j];
  }
}
