/** Moving one slot from node A to node B: A is set MIGRATING, B is set IMPORTING, keys move
    one at a time, clients follow redirections, and finally both nodes assign the slot to B.
    Every command, with however many keys, goes through the routing of getNodeByQuery, every
    administrative step through CLUSTER SETSLOT. */
module SlotMigration {
  import opened Prelude
  import opened Resharding

  /** The routing states of A and B, the keys of the slot that each holds, and the sets of keys
      for which some client was told to ask at B. */
  datatype Sys = Sys(a: Router, b: Router, keysA: set<Key>, keysB: set<Key>, asks: set<set<Key>>)

  /** What a command does where it is executed. */
  datatype Effect = Effect(created: set<Key>, deleted: set<Key>)

  datatype Action =
    | StartImport                     // SETSLOT IMPORTING at B
    | StartMigrate                    // SETSLOT MIGRATING at A
    | MoveKey(k: Key)                 // MIGRATE, taken as atomic
    | FinishB                         // SETSLOT NODE B at B
    | FinishA                         // SETSLOT NODE B at A
    | LearnA                          // A hears B's claim of the slot
    | Command(atA: bool, q: Query, effect: Effect)

  datatype Setting = Setting(slot: nat, slotOf: Key -> nat)

  ghost predicate Fits(g: Setting, r: Router) {
    Sized(r) && g.slot < |r.owner| && r.masterOf == None && forall k :: g.slotOf(k) < |r.owner|
  }

  /** The query's first key lies in the slot; others may not. */
  ghost predicate Addresses(g: Setting, q: Query) {
    Keyed(q) && g.slotOf(Flatten(q.parts)[0]) == g.slot && !q.isMigrate
  }

  /** All its keys do. */
  ghost predicate Within(g: Setting, q: Query) {
    Keyed(q) && !q.isMigrate && forall k :: k in KeysOf(q) ==> g.slotOf(k) == g.slot
  }

  /** Where the command goes when it arrives at A or at B. */
  ghost function RouteAt(g: Setting, s: Sys, atA: bool, q: Query): Route
    requires Fits(g, s.a) && Fits(g, s.b)
  {
    if atA then Decide(s.a, g.slotOf, s.keysA, q) else Decide(s.b, g.slotOf, s.keysB, q)
  }

  /** A no longer creates keys in the slot: it is migrating it, or has given it away. */
  predicate Closing(g: Setting, s: Sys)
    requires g.slot < |s.a.owner| && |s.a.migrating| == |s.a.owner|
  {
    s.a.owner[g.slot] == Some(s.b.me) || s.a.migrating[g.slot].Some?
  }

  /** The discipline of the administrator and of the clients: keys are moved only from a
      migrating A to a B that accepts them, B is given the slot only once A is empty, and a
      client sends ASKING only for keys for which an ASK redirection told it to. */
  ghost predicate Enabled(g: Setting, s: Sys, act: Action)
    requires Fits(g, s.a) && Fits(g, s.b)
  {
    match act
    case StartImport => true
    case StartMigrate => true
    case MoveKey(k) =>
      && k in s.keysA && s.a.owner[g.slot] == Some(s.a.me) && s.a.migrating[g.slot].Some?
      && (s.b.importing[g.slot].Some? || s.b.owner[g.slot] == Some(s.b.me))
    case FinishB => s.keysA == {} && Closing(g, s)
    case FinishA => true
    case LearnA => s.b.owner[g.slot] == Some(s.b.me)
    case Command(atA, q, e) =>
      && Addresses(g, q) && (q.asking && !atA ==> KeysOf(q) in s.asks)
      && e.created <= KeysOf(q) && e.deleted <= KeysOf(q)
  }

  function Apply(keys: set<Key>, e: Effect): set<Key> {
    keys - e.deleted + e.created
  }

  ghost function Do(g: Setting, s: Sys, act: Action): Sys
    requires Fits(g, s.a) && Fits(g, s.b)
  {
    var known := {s.a.me, s.b.me};
    match act
    case StartImport => s.(b := SetSlot(s.b, g.slot, SetImporting(s.a.me), known, |s.keysB|).0)
    case StartMigrate => s.(a := SetSlot(s.a, g.slot, SetMigrating(s.b.me), known, |s.keysA|).0)
    case MoveKey(k) => s.(keysA := s.keysA - {k}, keysB := s.keysB + {k})
    case FinishB => s.(b := SetSlot(s.b, g.slot, SetNode(s.b.me), known, |s.keysB|).0)
    case FinishA => s.(a := SetSlot(s.a, g.slot, SetNode(s.b.me), known, |s.keysA|).0)
    case LearnA => s.(a := s.a.(owner := s.a.owner[g.slot := Some(s.b.me)]))
    case Command(atA, q, e) =>
      match RouteAt(g, s, atA, q)
      case Serve => if atA then s.(keysA := Apply(s.keysA, e)) else s.(keysB := Apply(s.keysB, e))
      case Ask(_) => s.(asks := s.asks + {KeysOf(q)})
      case Moved(_) => s
      case Refuse(_) => s
  }

  /** Before the migration: A owns the slot and holds its keys, B holds none of them. */
  ghost predicate Init(g: Setting, s: Sys) {
    && s.a.me != s.b.me && Fits(g, s.a) && Fits(g, s.b)
    && s.a.owner[g.slot] == Some(s.a.me) && s.b.owner[g.slot] == Some(s.a.me)
    && s.a.migrating[g.slot] == None && s.a.importing[g.slot] == None
    && s.b.migrating[g.slot] == None && s.b.importing[g.slot] == None
    && s.keysB == {} && s.asks == {}
  }

  ghost predicate Inv(g: Setting, s: Sys) {
    && s.a.me != s.b.me && Fits(g, s.a) && Fits(g, s.b)
    && (s.a.owner[g.slot] == Some(s.a.me) || s.a.owner[g.slot] == Some(s.b.me))
    && (s.b.owner[g.slot] == Some(s.a.me) || s.b.owner[g.slot] == Some(s.b.me))
    && (s.a.migrating[g.slot] == None || s.a.migrating[g.slot] == Some(s.b.me))
    && s.a.importing[g.slot] == None && s.b.migrating[g.slot] == None
    && (s.b.owner[g.slot] == Some(s.b.me) ==> s.b.importing[g.slot] == None)
    // a key is in one place, and not at A if A no longer owns the slot or B already does
    && s.keysA !! s.keysB
    && (s.a.owner[g.slot] == Some(s.b.me) ==> s.keysA == {})
    && (s.b.owner[g.slot] == Some(s.b.me) ==> s.keysA == {})
    // keys at B can be reached there
    && (s.keysB != {} ==> s.b.importing[g.slot].Some? || s.b.owner[g.slot] == Some(s.b.me))
    // keys reach B, and clients are sent there, only once A creates keys no more
    && (s.keysB != {} || s.asks != {} || s.b.owner[g.slot] == Some(s.b.me) ==> Closing(g, s))
    && (forall ks :: ks in s.asks ==> !(ks <= s.keysA))
  }

  ghost predicate IsRun(g: Setting, ss: seq<Sys>, acts: seq<Action>) {
    && |ss| == |acts| + 1 && Init(g, ss[0])
    && forall t :: 0 <= t < |acts| ==>
         Fits(g, ss[t].a) && Fits(g, ss[t].b) && Enabled(g, ss[t], acts[t]) && ss[t + 1] == Do(g, ss[t], acts[t])
  }

  // ----- routing during a migration ----------------------------------------------------------------

  /** What routing amounts to at A, the old owner. */
  lemma RoutesAtA(g: Setting, s: Sys, q: Query)
    requires Inv(g, s) && Within(g, q)
    ensures RouteAt(g, s, true, q) ==
              if !s.a.up then Refuse(DownState)
              else if s.a.owner[g.slot] == Some(s.b.me) then Moved(s.b.me)
              else if s.a.migrating[g.slot].Some? && !(KeysOf(q) <= s.keysA) then Ask(s.b.me)
              else Serve
  {
    RefusedExactly(s.a, g.slotOf, s.keysA, q);
    ServedExactly(s.a, g.slotOf, s.keysA, q, g.slot);
    if s.a.up {
      RedirectedExactly(s.a, g.slotOf, s.keysA, q, g.slot, s.b.me);
    }
  }

  /** And at B, the new one. */
  lemma RoutesAtB(g: Setting, s: Sys, q: Query)
    requires Inv(g, s) && Within(g, q)
    ensures RouteAt(g, s, false, q) ==
              var arriving := s.b.importing[g.slot].Some? && q.asking;
              if !s.b.up then Refuse(DownState)
              else if arriving && |KeysOf(q)| > 1 && !(KeysOf(q) <= s.keysB) then Refuse(Unstable)
              else if arriving || s.b.owner[g.slot] == Some(s.b.me) then Serve
              else Moved(s.a.me)
  {
    OneKeyOnly(q);
    RefusedExactly(s.b, g.slotOf, s.keysB, q);
    ServedExactly(s.b, g.slotOf, s.keysB, q, g.slot);
    if s.b.up { RedirectedExactly(s.b, g.slotOf, s.keysB, q, g.slot, s.a.me); }
  }

  /** A query with keys in several slots is refused. */
  lemma CrossSlotRefused(g: Setting, s: Sys, atA: bool, q: Query)
    requires Inv(g, s) && Addresses(g, q) && !Within(g, q)
    ensures RouteAt(g, s, atA, q) == Refuse(CrossSlot)
  {
    var first :| first in KeysOf(q) && g.slotOf(first) == g.slot;
    var other :| other in KeysOf(q) && g.slotOf(other) != g.slot;
    if atA {
      RefusedExactly(s.a, g.slotOf, s.keysA, q);
    } else {
      RefusedExactly(s.b, g.slotOf, s.keysB, q);
    }
  }

  /** A command that is executed has none of its keys at the other node. */
  lemma NoKeyElsewhere(g: Setting, s: Sys, atA: bool, q: Query)
    requires Inv(g, s) && Addresses(g, q) && (q.asking && !atA ==> KeysOf(q) in s.asks)
    requires RouteAt(g, s, atA, q) == Serve
    ensures Within(g, q) && KeysOf(q) !! (if atA then s.keysB else s.keysA)
    ensures atA && Closing(g, s) ==> KeysOf(q) <= s.keysA
    ensures !atA ==> Closing(g, s)
  {
    if !Within(g, q) { CrossSlotRefused(g, s, atA, q); }
    if atA {
      RoutesAtA(g, s, q);
    } else {
      RoutesAtB(g, s, q);
      if q.asking { AskedElsewhere(g, s, q); }
    }
  }

  /** A single key that a client was told to ask for is not at A. */
  lemma AskedElsewhere(g: Setting, s: Sys, q: Query)
    requires Inv(g, s) && Keyed(q) && KeysOf(q) in s.asks
    ensures |KeysOf(q)| == 1 ==> KeysOf(q) !! s.keysA
  {
    OneKeyOnly(q);
  }

  // ----- what every step keeps ---------------------------------------------------------------------

  lemma CommandKeeps(g: Setting, s: Sys, act: Action)
    requires Inv(g, s) && Enabled(g, s, act) && act.Command?
    ensures Inv(g, Do(g, s, act))
    ensures Closing(g, s) ==> Closing(g, Do(g, s, act)) && Do(g, s, act).keysA <= s.keysA
  {
    match RouteAt(g, s, act.atA, act.q)
    case Serve => NoKeyElsewhere(g, s, act.atA, act.q);
    case Ask(_) => AskKeeps(g, s, act.atA, act.q);
    case _ =>
  }

  /** ASK comes from A, and only while some key is not there. */
  lemma AskKeeps(g: Setting, s: Sys, atA: bool, q: Query)
    requires Inv(g, s) && Addresses(g, q) && RouteAt(g, s, atA, q).Ask?
    ensures atA && Closing(g, s) && !(KeysOf(q) <= s.keysA)
  {
    if !Within(g, q) { CrossSlotRefused(g, s, atA, q); }
    if atA { RoutesAtA(g, s, q); } else { RoutesAtB(g, s, q); }
  }

  lemma StepKeeps(g: Setting, s: Sys, act: Action)
    requires Inv(g, s) && Enabled(g, s, act)
    ensures Inv(g, Do(g, s, act))
    ensures Closing(g, s) ==> Closing(g, Do(g, s, act)) && Do(g, s, act).keysA <= s.keysA
  {
    if act.Command? { CommandKeeps(g, s, act); }
  }

  lemma {:induction false} RunInv(g: Setting, ss: seq<Sys>, acts: seq<Action>, t: nat)
    requires IsRun(g, ss, acts) && t < |ss|
    ensures Inv(g, ss[t])
  {
    if t > 0 {
      RunInv(g, ss, acts, t - 1);
      StepKeeps(g, ss[t - 1], acts[t - 1]);
      assert ss[t - 1 + 1] == Do(g, ss[t - 1], acts[t - 1]);
    }
  }

  /** In every run no key is at both nodes, and a command that is executed, with however many keys,
      has none of them at the other node. */
  lemma KeysStayInOnePlace(g: Setting, ss: seq<Sys>, acts: seq<Action>, t: nat)
    requires IsRun(g, ss, acts) && t < |acts|
    ensures ss[t].keysA !! ss[t].keysB && ss[t + 1].keysA !! ss[t + 1].keysB
    ensures acts[t].Command? && RouteAt(g, ss[t], acts[t].atA, acts[t].q) == Serve ==>
              KeysOf(acts[t].q) !! (if acts[t].atA then ss[t].keysB else ss[t].keysA)
  {
    RunInv(g, ss, acts, t);
    RunInv(g, ss, acts, t + 1);
    if acts[t].Command? && RouteAt(g, ss[t], acts[t].atA, acts[t].q) == Serve {
      NoKeyElsewhere(g, ss[t], acts[t].atA, acts[t].q);
    }
  }

  /** MIGRATE and the RESTORE with ASKING that it sends are executed where they have to be. */
  lemma MoveIsRouted(g: Setting, s: Sys, k: Key, q: Query)
    requires Inv(g, s) && Enabled(g, s, MoveKey(k)) && g.slotOf(k) == g.slot && s.a.up && s.b.up
    requires !q.bareExec && Flatten(q.parts) == [k]
    ensures q.isMigrate ==> RouteAt(g, s, true, q) == Serve
    ensures q.asking && !q.isMigrate ==> RouteAt(g, s, false, q) == Serve
  {
    OneKeyOnly(q);
    ServedExactly(s.a, g.slotOf, s.keysA, q, g.slot);
    ServedExactly(s.b, g.slotOf, s.keysB, q, g.slot);
  }

  // ----- clients that follow redirections ---------------------------------------------------------

  function Asking(q: Query, asking: bool): Query {
    q.(asking := asking)
  }

  lemma SameKeys(q: Query, asking: bool)
    ensures KeysOf(Asking(q, asking)) == KeysOf(q)
  {
  }

  /** Where a client ends that sends a query to A or to B and follows at most `hops` redirections:
      whether it is A that serves it, or None.  After ASK it says ASKING. */
  ghost function Follow(g: Setting, s: Sys, atA: bool, q: Query, hops: nat): Option<bool>
    requires Fits(g, s.a) && Fits(g, s.b)
    decreases hops
  {
    match RouteAt(g, s, atA, q)
    case Serve => Some(atA)
    case Ask(to) =>
      if hops == 0 || (to != s.a.me && to != s.b.me) then None
      else Follow(g, s, to == s.a.me, Asking(q, true), hops - 1)
    case Moved(to) =>
      if hops == 0 || (to != s.a.me && to != s.b.me) then None
      else Follow(g, s, to == s.a.me, Asking(q, false), hops - 1)
    case Refuse(_) => None
  }

  /** Each node takes the other one for the owner. */
  predicate Disowned(g: Setting, s: Sys)
    requires g.slot < |s.a.owner| && g.slot < |s.b.owner|
  {
    s.a.owner[g.slot] == Some(s.b.me) && s.b.owner[g.slot] == Some(s.a.me)
  }

  /** A sends clients on to B, which does not accept them yet. */
  predicate NotImporting(g: Setting, s: Sys)
    requires Fits(g, s.a) && Fits(g, s.b)
  {
    && s.a.owner[g.slot] == Some(s.a.me) && s.a.migrating[g.slot].Some?
    && s.b.owner[g.slot] == Some(s.a.me) && s.b.importing[g.slot].None?
  }

  /** A is migrating the slot and B importing it. */
  predicate Moving(g: Setting, s: Sys)
    requires Fits(g, s.a) && Fits(g, s.b)
  {
    && s.a.owner[g.slot] == Some(s.a.me) && s.a.migrating[g.slot].Some?
    && s.b.owner[g.slot] == Some(s.a.me) && s.b.importing[g.slot].Some?
  }

  /** One hop of a client. */
  lemma Hop(g: Setting, s: Sys, atA: bool, q: Query, hops: nat)
    requires Inv(g, s) && s.a.up && s.b.up && Within(g, q)
    ensures Follow(g, s, atA, q, hops) ==
              match RouteAt(g, s, atA, q)
              case Serve => Some(atA)
              case Ask(_) => if hops == 0 then None else Follow(g, s, !atA, Asking(q, true), hops - 1)
              case Moved(_) => if hops == 0 then None else Follow(g, s, !atA, Asking(q, false), hops - 1)
              case Refuse(_) => None
  {
    if atA { RoutesAtA(g, s, q); } else { RoutesAtB(g, s, q); }
  }

  /** Where a query is served: at A while all its keys are there or A still creates keys, else at B;
      nowhere in the cases that Served excludes. */
  predicate Served(g: Setting, s: Sys, q: Query)
    requires Fits(g, s.a) && Fits(g, s.b)
  {
    && !Disowned(g, s)
    && (NotImporting(g, s) ==> KeysOf(q) <= s.keysA)
    && (Moving(g, s) ==> KeysOf(q) <= s.keysA || KeysOf(q) <= s.keysB || |KeysOf(q)| == 1)
  }

  predicate ServedAtA(g: Setting, s: Sys, q: Query)
    requires Fits(g, s.a) && Fits(g, s.b)
  {
    s.a.owner[g.slot] == Some(s.a.me) && (s.a.migrating[g.slot].Some? ==> KeysOf(q) <= s.keysA)
  }

  /** A client that was told to ask at B. */
  lemma AskedAtB(g: Setting, s: Sys, q: Query, hops: nat)
    requires Inv(g, s) && s.a.up && s.b.up && Within(g, q) && q.asking
    requires s.a.owner[g.slot] == Some(s.a.me) && s.a.migrating[g.slot].Some? && !(KeysOf(q) <= s.keysA)
    ensures !NotImporting(g, s) ==> Follow(g, s, false, q, hops) == if Served(g, s, q) then Some(false) else None
  {
    Hop(g, s, false, q, hops);
    RoutesAtB(g, s, q);
    OneKeyOnly(q);
  }

  lemma FromA(g: Setting, s: Sys, q: Query, hops: nat)
    requires Inv(g, s) && s.a.up && s.b.up && Within(g, q) && !q.asking && hops >= 1
    requires !Disowned(g, s) && !NotImporting(g, s)
    ensures Follow(g, s, true, q, hops) == if Served(g, s, q) then Some(ServedAtA(g, s, q)) else None
  {
    Hop(g, s, true, q, hops);
    RoutesAtA(g, s, q);
    if s.a.owner[g.slot] == Some(s.b.me) {
      Hop(g, s, false, Asking(q, false), hops - 1);
      SameKeys(q, false);
      RoutesAtB(g, s, Asking(q, false));
    } else if s.a.migrating[g.slot].Some? && !(KeysOf(q) <= s.keysA) {
      SameKeys(q, true);
      AskedAtB(g, s, Asking(q, true), hops - 1);
    }
  }

  lemma FromB(g: Setting, s: Sys, q: Query)
    requires Inv(g, s) && s.a.up && s.b.up && Within(g, q) && !q.asking
    requires !Disowned(g, s) && !NotImporting(g, s)
    ensures Follow(g, s, false, q, 2) == if Served(g, s, q) then Some(ServedAtA(g, s, q)) else None
  {
    Hop(g, s, false, q, 2);
    RoutesAtB(g, s, q);
    OneKeyOnly(q);
    if s.b.owner[g.slot] != Some(s.b.me) {
      SameKeys(q, false);
      assert Asking(q, false) == q;
      FromA(g, s, q, 1);
    }
  }

  /** From a node that disowns the slot for the other a client is sent to and fro for ever. */
  lemma {:induction false} DisownedLoops(g: Setting, s: Sys, atA: bool, q: Query, hops: nat)
    requires Inv(g, s) && s.a.up && s.b.up && Within(g, q) && Disowned(g, s) && (!q.asking || atA)
    ensures Follow(g, s, atA, q, hops) == None
    decreases hops
  {
    Hop(g, s, atA, q, hops);
    if atA { RoutesAtA(g, s, q); } else { RoutesAtB(g, s, q); }
    SameKeys(q, false);
    if hops > 0 { DisownedLoops(g, s, !atA, Asking(q, false), hops - 1); }
  }

  /** And from an A that is migrating to a B that is not importing, for a key that A has not got. */
  lemma {:induction false} NotImportingLoops(g: Setting, s: Sys, atA: bool, q: Query, hops: nat)
    requires Inv(g, s) && s.a.up && s.b.up && Within(g, q) && NotImporting(g, s) && !(KeysOf(q) <= s.keysA)
    ensures Follow(g, s, atA, q, hops) == None
    decreases hops
  {
    Hop(g, s, atA, q, hops);
    if atA { RoutesAtA(g, s, q); } else { RoutesAtB(g, s, q); }
    if hops > 0 {
      SameKeys(q, true);
      SameKeys(q, false);
      NotImportingLoops(g, s, !atA, Asking(q, true), hops - 1);
      NotImportingLoops(g, s, !atA, Asking(q, false), hops - 1);
    }
  }

  lemma NotImportingServed(g: Setting, s: Sys, atA: bool, q: Query)
    requires Inv(g, s) && s.a.up && s.b.up && Within(g, q) && !q.asking && NotImporting(g, s) && KeysOf(q) <= s.keysA
    ensures Follow(g, s, atA, q, 2) == Some(true)
  {
    RoutesAtA(g, s, q);
    RoutesAtB(g, s, q);
    Hop(g, s, atA, q, 2);
    Hop(g, s, true, q, 1);
    assert Asking(q, false) == q;
  }

  /** In every reachable state with both nodes up, a client that sends a query on the slot to either
      node and follows at most two redirections is served in all cases but three: the nodes disown
      the slot; A is migrating it to a B that is not importing it yet, and has not got all the keys;
      it is on its way and several keys are asked for of which neither node has all.  It is served at
      A if A owns the slot and has all the keys or is not migrating it, and else at B. */
  lemma QueryServedExactly(g: Setting, ss: seq<Sys>, acts: seq<Action>, t: nat, atA: bool, q: Query)
    requires IsRun(g, ss, acts) && t < |ss| && ss[t].a.up && ss[t].b.up && Within(g, q) && !q.asking
    ensures Inv(g, ss[t])
    ensures Follow(g, ss[t], atA, q, 2) == if Served(g, ss[t], q) then Some(ServedAtA(g, ss[t], q)) else None
  {
    RunInv(g, ss, acts, t);
    var s := ss[t];
    if Disowned(g, s) {
      DisownedLoops(g, s, atA, q, 2);
    } else if NotImporting(g, s) {
      if KeysOf(q) <= s.keysA { NotImportingServed(g, s, atA, q); } else { NotImportingLoops(g, s, atA, q, 2); }
    } else if atA {
      FromA(g, s, q, 2);
    } else {
      FromB(g, s, q);
    }
  }

  /** Keys that one node holds: the query is served there, unless each node takes the other for the
      owner; then it never is. */
  lemma HeldKeysServedExactly(g: Setting, ss: seq<Sys>, acts: seq<Action>, t: nat, atA: bool, q: Query)
    requires IsRun(g, ss, acts) && t < |ss| && ss[t].a.up && ss[t].b.up && Within(g, q) && !q.asking
    requires KeysOf(q) <= ss[t].keysA || KeysOf(q) <= ss[t].keysB
    ensures Inv(g, ss[t])
    ensures Follow(g, ss[t], atA, q, 2) == Some(KeysOf(q) <= ss[t].keysA) <==> !Disowned(g, ss[t])
    ensures Disowned(g, ss[t]) ==> forall hops: nat :: Follow(g, ss[t], atA, q, hops) == None
  {
    QueryServedExactly(g, ss, acts, t, atA, q);
    OneKeyOnly(q);
    if Disowned(g, ss[t]) {
      forall hops: nat ensures Follow(g, ss[t], atA, q, hops) == None {
        DisownedLoops(g, ss[t], atA, q, hops);
      }
    }
  }

  /** Keys that are split between the nodes: the query is served by neither until they are together
      again, and the client that follows the redirections is told to try again. */
  lemma SplitKeysNotServed(g: Setting, ss: seq<Sys>, acts: seq<Action>, t: nat, atA: bool, q: Query)
    requires IsRun(g, ss, acts) && t < |ss| && ss[t].a.up && ss[t].b.up && Within(g, q) && !q.asking
    requires !(KeysOf(q) !! ss[t].keysA) && !(KeysOf(q) !! ss[t].keysB)
    ensures Inv(g, ss[t]) && Moving(g, ss[t]) && Follow(g, ss[t], atA, q, 2) == None
    ensures RouteAt(g, ss[t], true, q) == Ask(ss[t].b.me)
    ensures RouteAt(g, ss[t], false, Asking(q, true)) == Refuse(Unstable)
  {
    QueryServedExactly(g, ss, acts, t, atA, q);
    OneKeyOnly(q);
    SameKeys(q, true);
    RoutesAtA(g, ss[t], q);
    RoutesAtB(g, ss[t], Asking(q, true));
  }

  /** Once A is migrating the slot, a key that A does not hold never comes back to A. */
  lemma {:induction false} KeysNeverReturn(g: Setting, ss: seq<Sys>, acts: seq<Action>, t: nat, u: nat)
    requires IsRun(g, ss, acts) && t <= u < |ss|
    requires Fits(g, ss[t].a) && Closing(g, ss[t])
    ensures Inv(g, ss[u]) && Closing(g, ss[u]) && ss[u].keysA <= ss[t].keysA
    decreases u - t
  {
    if t == u {
      RunInv(g, ss, acts, u);
    } else {
      KeysNeverReturn(g, ss, acts, t, u - 1);
      StepKeeps(g, ss[u - 1], acts[u - 1]);
      assert ss[u - 1 + 1] == Do(g, ss[u - 1], acts[u - 1]);
    }
  }

  /** A migration can be carried out: from any start with one key, the steps are possible and
      leave the key at B and the slot with B, as both nodes see it. */
  lemma MigrationCanFinish(g: Setting, s0: Sys, k: Key) returns (ss: seq<Sys>, acts: seq<Action>)
    requires Init(g, s0) && s0.keysA == {k}
    ensures IsRun(g, ss, acts) && ss[0] == s0
    ensures ss[|acts|].keysA == {} && ss[|acts|].keysB == {k}
    ensures var s := ss[|acts|];
            Inv(g, s) && s.a.owner[g.slot] == Some(s0.b.me) && s.b.owner[g.slot] == Some(s0.b.me)
  {
    var s1 := Do(g, s0, StartImport);
    var s2 := Do(g, s1, StartMigrate);
    var s3 := Do(g, s2, MoveKey(k));
    assert s3.keysA == {} && s3.keysB == {k};
    var s4 := Do(g, s3, FinishB);
    var s5 := Do(g, s4, FinishA);
    acts, ss := [StartImport, StartMigrate, MoveKey(k), FinishB, FinishA], [s0, s1, s2, s3, s4, s5];
    RunInv(g, ss, acts, 5);
  }

  /** The exception is real: a run that finishes at A before it does at B leaves the key at B
      and each node taking the other for the owner. */
  lemma DisownedCanHappen(g: Setting, s0: Sys, k: Key) returns (ss: seq<Sys>, acts: seq<Action>)
    requires Init(g, s0) && s0.keysA == {k}
    ensures IsRun(g, ss, acts) && ss[0] == s0
    ensures Inv(g, ss[|acts|]) && ss[|acts|].keysB == {k} && Disowned(g, ss[|acts|])
  {
    var s1 := Do(g, s0, StartImport);
    var s2 := Do(g, s1, StartMigrate);
    var s3 := Do(g, s2, MoveKey(k));
    assert s3.keysA == {} && s3.keysB == {k};
    var s4 := Do(g, s3, FinishA);
    acts, ss := [StartImport, StartMigrate, MoveKey(k), FinishA], [s0, s1, s2, s3, s4];
    RunInv(g, ss, acts, 4);
  }
}
