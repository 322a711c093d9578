/** Failover elections of cluster.c as a distributed protocol: voting masters, slaves that
    ask for votes, and a bag of messages that may be delayed, reordered or lost.

    The fields `votes`, `counted`, `stale` and `wins` record the past; no step reads them. */
module Election {
  import opened Prelude

  type NodeId = nat

  datatype Master = Master(currentEpoch: nat, lastVoteEpoch: nat)

  /** failover_auth_epoch, failover_auth_count and failover_auth_sent of a slave. */
  datatype Slave = Slave(currentEpoch: nat, authEpoch: nat, authCount: nat, authSent: bool,
                         configEpoch: nat, promoted: bool)

  /** What a slave says of its failed master when it asks for votes: the slots, their configuration
      epoch, and whether the vote is to be given although that master has not failed. */
  datatype Claim = Claim(slots: seq<bool>, configEpoch: nat, force: bool)

  /** What a master knows when it is asked: the configuration epoch of the owner of each slot, who
      asks, and the clock. */
  datatype Sight = Sight(isSlave: bool, numslots: nat, known: seq<Option<nat>>,
                         askerIsMaster: bool, askerMaster: Option<NodeId>, masterFailed: bool,
                         now: int, lastVote: int, nodeTimeout: int)

  /** Every message carries its sender's currentEpoch. */
  datatype Msg =
    | Request(slave: NodeId, master: NodeId, epoch: nat, claim: Claim)
    | Ack(master: NodeId, slave: NodeId, epoch: nat)
    | Heartbeat(to: NodeId, epoch: nat)

  datatype State = State(
    masters: map<NodeId, Master>,
    slaves: map<NodeId, Slave>,
    bag: multiset<Msg>,
    votes: map<(NodeId, nat), NodeId>,
    counted: map<NodeId, set<NodeId>>,
    stale: map<NodeId, nat>,
    wins: map<(NodeId, nat), Victory>)

  /** What a slave's count was made of when it won: the masters whose votes for this election
      it had counted, and the number of votes that were for an earlier one. */
  datatype Victory = Victory(voters: set<NodeId>, stale: nat)

  datatype Action =
    | Schedule(s: NodeId)                    // reset the count, plan a new election
    | Ask(s: NodeId, claim: Claim)           // start the election: new epoch, broadcast requests
    | Vote(req: Msg, sight: Sight)           // a master handles a request
    | Count(ack: Msg)                        // a slave handles a vote
    | Win(s: NodeId)                         // a slave with a quorum takes over
    | Beat(from: NodeId, to: NodeId)         // any other packet, as far as epochs go
    | Hear(beat: Msg)
    | Bump(n: NodeId)                        // a node raises its currentEpoch on its own
    | Lose(msg: Msg)

  function Quorum(st: State): nat {
    |st.masters.Keys| / 2 + 1
  }

  /** Nothing of an election of s is in flight. */
  predicate Silent(st: State, s: NodeId) {
    forall m :: m in st.bag ==> !(m.Request? && m.slave == s) && !(m.Ack? && m.slave == s)
  }

  function EpochOf(st: State, n: NodeId): nat
    requires n in st.masters || n in st.slaves
  {
    if n in st.masters then st.masters[n].currentEpoch else st.slaves[n].currentEpoch
  }

  function RaisedMaster(ms: map<NodeId, Master>, n: NodeId, e: nat): map<NodeId, Master> {
    if n in ms then ms[n := ms[n].(currentEpoch := Max(ms[n].currentEpoch, e))] else ms
  }

  function RaisedSlave(ss: map<NodeId, Slave>, n: NodeId, e: nat): map<NodeId, Slave> {
    if n in ss then ss[n := ss[n].(currentEpoch := Max(ss[n].currentEpoch, e))] else ss
  }

  /** Node n hears of epoch e. */
  function WithEpoch(st: State, n: NodeId, e: nat): State {
    st.(masters := RaisedMaster(st.masters, n, e), slaves := RaisedSlave(st.slaves, n, e))
  }

  predicate CanAsk(st: State, s: NodeId) {
    s in st.slaves && !st.slaves[s].promoted && !st.slaves[s].authSent
  }

  predicate CanVote(st: State, req: Msg) {
    req in st.bag && req.Request? && req.master in st.masters
  }

  /** The guards of the steps, as the code has them. */
  predicate Possible(st: State, a: Action) {
    match a
    case Schedule(s) => s in st.slaves && !st.slaves[s].promoted
    case Ask(s, _) => CanAsk(st, s)
    case Vote(req, _) => CanVote(st, req)
    case Count(ack) => ack in st.bag && ack.Ack? && ack.slave in st.slaves
    case Win(s) => s in st.slaves && !st.slaves[s].promoted && st.slaves[s].authSent
                   && st.slaves[s].authCount >= Quorum(st)
    case Beat(from, to) => from in st.masters || from in st.slaves
    case Hear(beat) => beat in st.bag && beat.Heartbeat?
    case Bump(n) => n in st.masters || n in st.slaves
    case Lose(msg) => msg in st.bag
  }

  /** The guard that the code lacks: a vote is counted only by a slave that has asked for
      votes since it last reset its count. */
  predicate Guarded(st: State, a: Action) {
    (a.Count? && a.ack.Ack? && a.ack.slave in st.slaves && a.ack.epoch >= st.slaves[a.ack.slave].authEpoch)
    ==> st.slaves[a.ack.slave].authSent
  }

  /** The timing that auth_retry_time stands for: a slave resets its count only when nothing
      from its previous election is in flight any more. */
  predicate Timed(st: State, a: Action) {
    a.Schedule? ==> Silent(st, a.s)
  }

  function Requests(masters: set<NodeId>, s: NodeId, e: nat, claim: Claim): set<Msg> {
    set m | m in masters :: Request(s, m, e, claim)
  }

  // ----- what the steps do to one node --------------------------------------------

  /** No claimed slot is known to belong to a newer configuration. */
  predicate ClaimIsRecent(known: seq<Option<nat>>, claim: Claim) {
    forall j :: 0 <= j < |claim.slots| && j < |known| && claim.slots[j] && known[j].Some? ==>
      known[j].value <= claim.configEpoch
  }

  /** The checks that depend on what the master knows of the slave: a slave of a failed master (or
      forcing it), the delay between votes for slaves of that master, and a recent claim. */
  predicate Willing(v: Sight, claim: Claim) {
    && !v.isSlave && v.numslots != 0
    && !v.askerIsMaster && v.askerMaster.Some? && (v.masterFailed || claim.force)
    && v.now - v.lastVote >= v.nodeTimeout * 2
    && ClaimIsRecent(v.known, claim)
  }

  /** Does the master grant its vote? */
  predicate Grants(m: Master, epoch: nat, willing: bool) {
    var cur := Max(m.currentEpoch, epoch);
    willing && epoch >= cur && m.lastVoteEpoch != cur
  }

  function Voted(m: Master, epoch: nat, willing: bool): Master {
    var cur := Max(m.currentEpoch, epoch);
    if Grants(m, epoch, willing) then Master(cur, cur) else m.(currentEpoch := cur)
  }

  function Scheduled(s: Slave): Slave {
    s.(authCount := 0, authSent := false)
  }

  function Asked(s: Slave): Slave {
    var e := s.currentEpoch + 1;
    s.(currentEpoch := e, authEpoch := e, authSent := true)
  }

  function Counted(s: Slave, epoch: nat): Slave {
    s.(currentEpoch := Max(s.currentEpoch, epoch), authCount := s.authCount + if epoch >= s.authEpoch then 1 else 0)
  }

  function Won(s: Slave): Slave {
    s.(configEpoch := Max(s.configEpoch, s.authEpoch), promoted := true)
  }

  // ----- the protocol ---------------------------------------------------------------

  /** A vote that s counts is recorded with its voter if s has asked for votes since its last
      reset, and as stale otherwise. */
  function CountedAfter(counted: map<NodeId, set<NodeId>>, s: Slave, ack: Msg): map<NodeId, set<NodeId>>
    requires ack.Ack?
  {
    if ack.epoch >= s.authEpoch && s.authSent && ack.slave in counted
    then counted[ack.slave := counted[ack.slave] + {ack.master}] else counted
  }

  function StaleAfter(stale: map<NodeId, nat>, s: Slave, ack: Msg): map<NodeId, nat>
    requires ack.Ack?
  {
    if ack.epoch >= s.authEpoch && !s.authSent && ack.slave in stale
    then stale[ack.slave := stale[ack.slave] + 1] else stale
  }

  function DoSchedule(st: State, s: NodeId): State
    requires Possible(st, Schedule(s))
  {
    st.(slaves := st.slaves[s := Scheduled(st.slaves[s])], counted := st.counted[s := {}], stale := st.stale[s := 0])
  }

  function DoAsk(st: State, s: NodeId, claim: Claim): State
    requires CanAsk(st, s)
  {
    var a := Asked(st.slaves[s]);
    st.(slaves := st.slaves[s := a], bag := st.bag + multiset(Requests(st.masters.Keys, s, a.authEpoch, claim)))
  }

  function DoVote(st: State, req: Msg, willing: bool): State
    requires CanVote(st, req)
  {
    var m := Voted(st.masters[req.master], req.epoch, willing);
    var rest := st.bag - multiset{req};
    if Grants(st.masters[req.master], req.epoch, willing) then
      st.(masters := st.masters[req.master := m],
          bag := rest + multiset{Ack(req.master, req.slave, m.currentEpoch)},
          votes := st.votes[(req.master, m.currentEpoch) := req.slave])
    else
      st.(masters := st.masters[req.master := m], bag := rest)
  }

  function DoCount(st: State, ack: Msg): State
    requires Possible(st, Count(ack))
  {
    var s := st.slaves[ack.slave];
    st.(slaves := st.slaves[ack.slave := Counted(s, ack.epoch)], bag := st.bag - multiset{ack},
        counted := CountedAfter(st.counted, s, ack), stale := StaleAfter(st.stale, s, ack))
  }

  function DoWin(st: State, s: NodeId): State
    requires Possible(st, Win(s))
  {
    var w := st.slaves[s];
    var v := if s in st.counted && s in st.stale then Victory(st.counted[s], st.stale[s]) else Victory({}, w.authCount);
    st.(slaves := st.slaves[s := Won(w)], wins := st.wins[(s, w.authEpoch) := v])
  }

  function Do(st: State, a: Action): State
    requires Possible(st, a)
  {
    match a
    case Schedule(s) => DoSchedule(st, s)
    case Ask(s, claim) => DoAsk(st, s, claim)
    case Vote(req, sight) => DoVote(st, req, Willing(sight, req.claim))
    case Count(ack) => DoCount(st, ack)
    case Win(s) => DoWin(st, s)
    case Beat(from, to) => st.(bag := st.bag + multiset{Heartbeat(to, EpochOf(st, from))})
    case Hear(beat) => WithEpoch(st.(bag := st.bag - multiset{beat}), beat.to, beat.epoch)
    case Bump(n) => WithEpoch(st, n, EpochOf(st, n) + 1)
    case Lose(msg) => st.(bag := st.bag - multiset{msg})
  }

  /** A cluster that has not held an election yet, with any epochs. */
  ghost predicate Init(st: State) {
    && st.masters.Keys !! st.slaves.Keys
    && (forall m :: m in st.masters ==> st.masters[m].lastVoteEpoch <= st.masters[m].currentEpoch)
    && (forall s :: s in st.slaves ==>
          !st.slaves[s].authSent && st.slaves[s].authCount == 0 && st.slaves[s].authEpoch <= st.slaves[s].currentEpoch)
    && st.bag == multiset{} && st.votes == map[] && st.wins == map[]
    && st.counted == (map s | s in st.slaves :: {}) && st.stale == (map s | s in st.slaves :: 0)
  }

  /** Any interleaving of steps that the code can take. */
  ghost predicate IsRun(sts: seq<State>, acts: seq<Action>) {
    && |sts| == |acts| + 1 && Init(sts[0])
    && (forall i :: 0 <= i < |acts| ==> Possible(sts[i], acts[i]) && sts[i + 1] == Do(sts[i], acts[i]))
  }

  // ----- the invariant ------------------------------------------------------------

  predicate VotedFor(st: State, m: NodeId, e: nat, s: NodeId) {
    (m, e) in st.votes && st.votes[(m, e)] == s
  }

  /** A master votes at most once per epoch, and never for an epoch it has left behind. */
  ghost predicate VotesInv(st: State) {
    && (forall m :: m in st.masters ==> st.masters[m].lastVoteEpoch <= st.masters[m].currentEpoch)
    && (forall v :: v in st.votes ==> v.0 in st.masters && v.1 <= st.masters[v.0].lastVoteEpoch)
  }

  /** What is in flight of an election is not of a later epoch than the slave's; a vote in
      flight was given, and occurs once. */
  ghost predicate MsgOk(st: State, m: Msg) {
    match m
    case Request(s, _, e, _) => s in st.slaves && e <= st.slaves[s].authEpoch
    case Ack(p, s, e) =>
      && s in st.slaves && e <= st.slaves[s].authEpoch
      && p in st.masters && VotedFor(st, p, e, s) && st.bag[m] == 1
    case Heartbeat(_, _) => true
  }

  ghost predicate FlightInv(st: State) {
    forall m :: m in st.bag ==> MsgOk(st, m)
  }

  /** p's vote for s at its current epoch was given and has arrived. */
  ghost predicate Arrived(st: State, s: NodeId, p: NodeId)
    requires s in st.slaves
  {
    && p in st.masters && VotedFor(st, p, st.slaves[s].authEpoch, s)
    && Ack(p, s, st.slaves[s].authEpoch) !in st.bag
  }

  /** The count of a slave is the number of masters that voted for it at its epoch and whose
      vote has arrived, and of stale votes. */
  ghost predicate SlaveOk(st: State, s: NodeId)
    requires s in st.slaves && s in st.counted && s in st.stale
  {
    && st.slaves[s].authCount == |st.counted[s]| + st.stale[s]
    && st.slaves[s].authEpoch <= st.slaves[s].currentEpoch
    && (!st.slaves[s].authSent ==> st.counted[s] == {})
    && forall p :: p in st.counted[s] ==> Arrived(st, s, p)
  }

  /** The records cover exactly the slaves. */
  ghost predicate Booked(st: State) {
    st.counted.Keys == st.slaves.Keys && st.stale.Keys == st.slaves.Keys
  }

  ghost predicate CountInv(st: State) {
    && Booked(st)
    && forall s :: s in st.slaves ==> SlaveOk(st, s)
  }

  /** Behind every win there is a quorum of votes for that slave at that epoch, but for the
      stale ones. */
  ghost predicate WinOk(st: State, w: (NodeId, nat))
    requires w in st.wins
  {
    && |st.wins[w].voters| + st.wins[w].stale >= Quorum(st) && st.wins[w].voters <= st.masters.Keys
    && forall p :: p in st.wins[w].voters ==> VotedFor(st, p, w.1, w.0)
  }

  ghost predicate WinsInv(st: State) {
    forall w :: w in st.wins ==> WinOk(st, w)
  }

  ghost predicate Inv(st: State) {
    st.masters.Keys !! st.slaves.Keys && VotesInv(st) && FlightInv(st) && CountInv(st) && WinsInv(st)
  }

  lemma InitInv(st: State)
    requires Init(st)
    ensures Inv(st)
  {
  }

  // ----- what a step that does not touch elections keeps -----------------------------

  ghost predicate SlavesAgree(st: State, st': State) {
    && st'.slaves.Keys == st.slaves.Keys
    && forall s :: s in st.slaves ==> SameElection(st.slaves[s], st'.slaves[s])
  }

  predicate SameElection(a: Slave, b: Slave) {
    && b.authSent == a.authSent && b.authEpoch == a.authEpoch && b.authCount == a.authCount
    && b.currentEpoch >= a.currentEpoch
  }

  /** Same masters, and no vote is forgotten or changed. */
  ghost predicate VotesGrow(st: State, st': State) {
    && st'.masters.Keys == st.masters.Keys
    && forall v :: v in st.votes ==> v in st'.votes && st'.votes[v] == st.votes[v]
  }

  ghost predicate NoNewElectionMessage(st: State, st': State) {
    forall m :: m in st'.bag && !m.Heartbeat? ==> m in st.bag && st'.bag[m] <= st.bag[m]
  }

  lemma MsgFrame(st: State, st': State, m: Msg)
    requires FlightInv(st) && SlavesAgree(st, st') && VotesGrow(st, st')
    requires m.Heartbeat? || (m in st.bag && 0 < st'.bag[m] <= st.bag[m])
    ensures MsgOk(st', m)
  {
    if !m.Heartbeat? { assert MsgOk(st, m); }
  }

  lemma SlaveFrame(st: State, st': State, s: NodeId)
    requires s in st.slaves && s in st.counted && s in st.stale && SlaveOk(st, s)
    requires s in st'.slaves && s in st'.counted && s in st'.stale
    requires SameElection(st.slaves[s], st'.slaves[s])
    requires st'.counted[s] == st.counted[s] && st'.stale[s] == st.stale[s]
    requires VotesGrow(st, st')
    requires forall p :: p in st.counted[s] && Ack(p, s, st.slaves[s].authEpoch) in st'.bag
                         ==> Ack(p, s, st.slaves[s].authEpoch) in st.bag
    ensures SlaveOk(st', s)
  {
    forall p | p in st'.counted[s] ensures Arrived(st', s, p) {
      assert Arrived(st, s, p);
    }
  }

  lemma WinsFrame(st: State, st': State)
    requires WinsInv(st) && VotesGrow(st, st') && st'.wins == st.wins
    ensures WinsInv(st')
  {
    forall w | w in st'.wins ensures WinOk(st', w) {
      assert WinOk(st, w);
    }
  }

  lemma Frame(st: State, st': State)
    requires Inv(st) && SlavesAgree(st, st') && VotesGrow(st, st') && NoNewElectionMessage(st, st')
    requires st'.counted == st.counted && st'.stale == st.stale && st'.wins == st.wins && VotesInv(st')
    ensures Inv(st')
  {
    forall m | m in st'.bag ensures MsgOk(st', m) {
      MsgFrame(st, st', m);
    }
    forall s | s in st'.slaves ensures SlaveOk(st', s) {
      SlaveFrame(st, st', s);
    }
    WinsFrame(st, st');
  }

  lemma EpochKeeps(st: State, n: NodeId, e: nat)
    requires Inv(st)
    ensures Inv(WithEpoch(st, n, e))
  {
    var st' := WithEpoch(st, n, e);
    RaisedMasterVotes(st, n, e);
    RaisedSlaveSame(st.slaves, n, e);
    Frame(st, st');
  }

  lemma RaisedMasterVotes(st: State, n: NodeId, e: nat)
    requires VotesInv(st)
    ensures RaisedMaster(st.masters, n, e).Keys == st.masters.Keys
    ensures VotesInv(WithEpoch(st, n, e))
  {
  }

  lemma RaisedSlaveSame(ss: map<NodeId, Slave>, n: NodeId, e: nat)
    ensures RaisedSlave(ss, n, e).Keys == ss.Keys
    ensures forall s :: s in ss ==> SameElection(ss[s], RaisedSlave(ss, n, e)[s])
  {
  }

  lemma FewerMessagesKeeps(st: State, msg: Msg)
    requires Inv(st) && msg in st.bag
    ensures Inv(st.(bag := st.bag - multiset{msg}))
  {
    Frame(st, st.(bag := st.bag - multiset{msg}));
  }

  lemma BeatKeeps(st: State, from: NodeId, to: NodeId)
    requires Inv(st) && Possible(st, Beat(from, to))
    ensures Inv(Do(st, Beat(from, to)))
  {
    Frame(st, Do(st, Beat(from, to)));
  }

  lemma PromotedKeeps(st: State, s: NodeId, mid: State)
    requires Inv(st) && Possible(st, Win(s)) && mid == st.(slaves := st.slaves[s := Won(st.slaves[s])])
    ensures Inv(mid)
  {
    Frame(st, mid);
  }

  lemma WinKeeps(st: State, s: NodeId)
    requires Inv(st) && Possible(st, Win(s))
    ensures Inv(DoWin(st, s))
  {
    var mid := st.(slaves := st.slaves[s := Won(st.slaves[s])]);
    assert Inv(mid) by { PromotedKeeps(st, s, mid); }
    RecordWin(mid, DoWin(st, s), s);
  }

  lemma RecordWin(st: State, st': State, s: NodeId)
    requires Inv(st) && s in st.slaves && st.slaves[s].authCount >= Quorum(st)
    requires st' == st.(wins := st.wins[(s, st.slaves[s].authEpoch) := Victory(st.counted[s], st.stale[s])])
    ensures Inv(st')
  {
    forall w | w in st'.wins ensures WinOk(st', w) {
      if w == (s, st.slaves[s].authEpoch) { NewWinOk(st, st', s); } else { assert WinOk(st, w); }
    }
    forall m | m in st'.bag ensures MsgOk(st', m) { assert MsgOk(st, m); }
    forall t | t in st'.slaves ensures SlaveOk(st', t) { SlaveFrame(st, st', t); }
  }

  lemma NewWinOk(st: State, st': State, s: NodeId)
    requires Inv(st) && s in st.slaves && st.slaves[s].authCount >= Quorum(st)
    requires st' == st.(wins := st.wins[(s, st.slaves[s].authEpoch) := Victory(st.counted[s], st.stale[s])])
    ensures WinOk(st', (s, st.slaves[s].authEpoch))
  {
    assert SlaveOk(st, s);
    forall p | p in st.counted[s] ensures p in st.masters && VotedFor(st', p, st.slaves[s].authEpoch, s) {
      assert Arrived(st, s, p);
    }
  }

  // ----- the steps of an election -------------------------------------------------------

  lemma ScheduleSlaves(st: State, s: NodeId)
    requires Inv(st) && Possible(st, Schedule(s))
    ensures CountInv(DoSchedule(st, s))
  {
    var st' := DoSchedule(st, s);
    ScheduledSlave(st, s);
    forall t | t in st'.slaves ensures SlaveOk(st', t) {
      if t != s { SlaveFrame(st, st', t); }
    }
  }

  lemma ScheduledSlave(st: State, s: NodeId)
    requires Inv(st) && Possible(st, Schedule(s))
    ensures Booked(DoSchedule(st, s)) && SlaveOk(DoSchedule(st, s), s)
  {
    assert SlaveOk(st, s);
  }

  lemma ScheduleKeeps(st: State, s: NodeId)
    requires Inv(st) && Possible(st, Schedule(s))
    ensures Inv(DoSchedule(st, s))
  {
    var st' := DoSchedule(st, s);
    assert WinsInv(st') by { WinsFrame(st, st'); }
    ScheduleSlaves(st, s);
    forall m | m in st'.bag ensures MsgOk(st', m) {
      assert MsgOk(st, m);
    }
  }

  lemma AskedBag(st: State, s: NodeId, claim: Claim, m: Msg)
    requires CanAsk(st, s) && m in DoAsk(st, s, claim).bag
    ensures m !in st.bag ==> m.Request? && m.slave == s && m.epoch == st.slaves[s].currentEpoch + 1 && m.claim == claim
    ensures m.Ack? ==> m in st.bag && DoAsk(st, s, claim).bag[m] == st.bag[m]
  {
    var rs := Requests(st.masters.Keys, s, st.slaves[s].currentEpoch + 1, claim);
    assert m in st.bag || m in rs;
    assert m.Ack? ==> m !in rs;
  }

  lemma AskKeeps(st: State, s: NodeId, claim: Claim)
    requires Inv(st) && CanAsk(st, s)
    ensures Inv(DoAsk(st, s, claim))
  {
    var st' := DoAsk(st, s, claim);
    WinsFrame(st, st');
    assert SlaveOk(st, s);
    forall m | m in st'.bag ensures MsgOk(st', m) {
      AskedBag(st, s, claim, m);
      if m in st.bag { assert MsgOk(st, m); }
    }
    forall t | t in st'.slaves ensures SlaveOk(st', t) {
      AskSlave(st, s, claim, t);
    }
  }

  lemma AskSlave(st: State, s: NodeId, claim: Claim, t: NodeId)
    requires Inv(st) && CanAsk(st, s) && t in st.slaves
    ensures SlaveOk(DoAsk(st, s, claim), t)
  {
    var st' := DoAsk(st, s, claim);
    assert SlaveOk(st, t);
    if t == s {
      assert st.counted[s] == {};
    } else {
      forall p | p in st.counted[t] ensures Arrived(st', t, p) {
        assert Arrived(st, t, p);
        var ack := Ack(p, t, st.slaves[t].authEpoch);
        if ack in st'.bag { AskedBag(st, s, claim, ack); }
      }
    }
  }

  /** A vote is given for an epoch for which the master has given none. */
  lemma GrantIsNew(st: State, req: Msg)
    requires Inv(st) && CanVote(st, req) && Grants(st.masters[req.master], req.epoch, true)
    ensures Max(st.masters[req.master].currentEpoch, req.epoch) == req.epoch
    ensures (req.master, req.epoch) !in st.votes
    ensures Ack(req.master, req.slave, req.epoch) !in st.bag
    ensures req.slave in st.slaves && req.epoch <= st.slaves[req.slave].authEpoch
    ensures req.epoch == st.slaves[req.slave].authEpoch ==> req.master !in st.counted[req.slave]
  {
    assert MsgOk(st, req) && SlaveOk(st, req.slave);
    var ack := Ack(req.master, req.slave, req.epoch);
    assert ack in st.bag ==> MsgOk(st, ack);
    assert req.master in st.counted[req.slave] ==> Arrived(st, req.slave, req.master);
  }

  /** A granted vote, in two steps: recorded, and put in flight. */
  lemma GrantInTwo(st: State, req: Msg, quiet: State)
    requires CanVote(st, req) && Grants(st.masters[req.master], req.epoch, true)
    requires quiet == st.(masters := st.masters[req.master := Master(req.epoch, req.epoch)],
                          bag := st.bag - multiset{req}, votes := st.votes[(req.master, req.epoch) := req.slave])
    ensures DoVote(st, req, true) == quiet.(bag := quiet.bag + multiset{Ack(req.master, req.slave, req.epoch)})
  {
  }

  /** Recording the vote of a granted request. */
  lemma GrantedVotes(st: State, req: Msg, ms: map<NodeId, Master>, vs: map<(NodeId, nat), NodeId>)
    requires VotesInv(st) && req.Request? && req.master in st.masters && (req.master, req.epoch) !in st.votes
    requires req.epoch >= st.masters[req.master].currentEpoch
    requires ms == st.masters[req.master := Master(req.epoch, req.epoch)]
    requires vs == st.votes[(req.master, req.epoch) := req.slave]
    ensures ms.Keys == st.masters.Keys && forall m :: m in ms ==> ms[m].lastVoteEpoch <= ms[m].currentEpoch
    ensures forall v :: v in vs ==> v.0 in ms && v.1 <= ms[v.0].lastVoteEpoch
    ensures forall v :: v in st.votes ==> v in vs && vs[v] == st.votes[v]
  {
  }

  lemma QuietKeeps(st: State, req: Msg, quiet: State)
    requires Inv(st) && CanVote(st, req) && Grants(st.masters[req.master], req.epoch, true)
    requires quiet == st.(masters := st.masters[req.master := Master(req.epoch, req.epoch)],
                          bag := st.bag - multiset{req}, votes := st.votes[(req.master, req.epoch) := req.slave])
    ensures Inv(quiet)
  {
    GrantIsNew(st, req);
    GrantedVotes(st, req, quiet.masters, quiet.votes);
    Frame(st, quiet);
  }

  lemma GrantKeeps(st: State, req: Msg)
    requires Inv(st) && CanVote(st, req) && Grants(st.masters[req.master], req.epoch, true)
    ensures Inv(DoVote(st, req, true))
  {
    var quiet := st.(masters := st.masters[req.master := Master(req.epoch, req.epoch)],
                     bag := st.bag - multiset{req}, votes := st.votes[(req.master, req.epoch) := req.slave]);
    assert Inv(quiet) by { QuietKeeps(st, req, quiet); }
    GrantIsNew(st, req);
    GrantInTwo(st, req, quiet);
    PutInFlight(quiet, DoVote(st, req, true), Ack(req.master, req.slave, req.epoch));
  }

  /** A vote that was recorded and neither counted nor in flight may be put in flight. */
  lemma PutInFlight(st: State, st': State, ack: Msg)
    requires Inv(st) && ack.Ack? && ack !in st.bag && st' == st.(bag := st.bag + multiset{ack})
    requires ack.slave in st.slaves && ack.epoch <= st.slaves[ack.slave].authEpoch
    requires ack.master in st.masters && VotedFor(st, ack.master, ack.epoch, ack.slave)
    requires ack.epoch == st.slaves[ack.slave].authEpoch ==> ack.master !in st.counted[ack.slave]
    ensures Inv(st')
  {
    forall m | m in st'.bag ensures MsgOk(st', m) {
      if m != ack { assert MsgOk(st, m) && st'.bag[m] == st.bag[m]; }
    }
    forall t | t in st'.slaves ensures SlaveOk(st', t) { SlaveFrame(st, st', t); }
    WinsFrame(st, st');
  }

  lemma RefusalKeeps(st: State, req: Msg, willing: bool)
    requires Inv(st) && CanVote(st, req) && !Grants(st.masters[req.master], req.epoch, willing)
    ensures Inv(DoVote(st, req, willing))
  {
    RefusalVotes(st, req, willing);
    Frame(st, DoVote(st, req, willing));
  }

  lemma RefusalVotes(st: State, req: Msg, willing: bool)
    requires VotesInv(st) && CanVote(st, req) && !Grants(st.masters[req.master], req.epoch, willing)
    ensures VotesInv(DoVote(st, req, willing)) && VotesGrow(st, DoVote(st, req, willing))
  {
  }

  lemma VoteKeeps(st: State, req: Msg, willing: bool)
    requires Inv(st) && CanVote(st, req)
    ensures Inv(DoVote(st, req, willing))
  {
    if Grants(st.masters[req.master], req.epoch, willing) {
      GrantKeeps(st, req);
    } else {
      RefusalKeeps(st, req, willing);
    }
  }

  /** Recording a vote touches the records of its slave only. */
  lemma RecordsAfter(st: State, ack: Msg)
    requires Possible(st, Count(ack)) && Booked(st)
    ensures var c, d := CountedAfter(st.counted, st.slaves[ack.slave], ack), StaleAfter(st.stale, st.slaves[ack.slave], ack);
            && c.Keys == st.slaves.Keys && d.Keys == st.slaves.Keys
            && forall t :: t in st.slaves && t != ack.slave ==> c[t] == st.counted[t] && d[t] == st.stale[t]
  {
  }

  /** What counting a vote leaves alone. */
  lemma CountLeaves(st: State, ack: Msg)
    requires Inv(st) && Possible(st, Count(ack))
    ensures var st' := DoCount(st, ack);
            && st'.bag == st.bag - multiset{ack} && ack !in st'.bag
            && st'.slaves.Keys == st.slaves.Keys && Booked(st')
            && forall t :: t in st.slaves && t != ack.slave ==>
                 st'.slaves[t] == st.slaves[t] && st'.counted[t] == st.counted[t] && st'.stale[t] == st.stale[t]
  {
    assert st.bag[ack] == 1 by { assert MsgOk(st, ack); }
    RecordsAfter(st, ack);
  }

  lemma CountFlight(st: State, ack: Msg)
    requires Inv(st) && Possible(st, Count(ack))
    ensures FlightInv(DoCount(st, ack))
  {
    CountLeaves(st, ack);
    var st' := DoCount(st, ack);
    forall m | m in st'.bag ensures MsgOk(st', m) {
      assert MsgOk(st, m) && st'.bag[m] == st.bag[m];
    }
  }

  lemma CountSlaves(st: State, ack: Msg)
    requires Inv(st) && Possible(st, Count(ack))
    ensures CountInv(DoCount(st, ack))
  {
    var st' := DoCount(st, ack);
    CountLeaves(st, ack);
    forall t | t in st'.slaves ensures SlaveOk(st', t) {
      if t == ack.slave { CountSlave(st, ack); } else { SlaveFrame(st, st', t); }
    }
  }

  lemma CountKeeps(st: State, ack: Msg)
    requires Inv(st) && Possible(st, Count(ack))
    ensures Inv(DoCount(st, ack))
  {
    CountFlight(st, ack);
    CountSlaves(st, ack);
    CountLeaves(st, ack);
    assert WinsInv(DoCount(st, ack)) by { WinsFrame(st, DoCount(st, ack)); }
  }

  /** The vote counted is of the slave's epoch or an older one, and new to it. */
  lemma CountedIsNew(st: State, ack: Msg)
    requires Inv(st) && Possible(st, Count(ack))
    ensures ack.slave in st.slaves && ack.epoch <= st.slaves[ack.slave].authEpoch
    ensures ack.epoch == st.slaves[ack.slave].authEpoch ==>
              VotedFor(st, ack.master, ack.epoch, ack.slave) && ack.master in st.masters && ack.master !in st.counted[ack.slave]
  {
    assert MsgOk(st, ack) && SlaveOk(st, ack.slave);
    assert ack.master in st.counted[ack.slave] ==> Arrived(st, ack.slave, ack.master);
  }

  lemma CountedVoters(st: State, ack: Msg)
    requires Inv(st) && Possible(st, Count(ack))
    ensures Booked(DoCount(st, ack)) && ack.slave in DoCount(st, ack).slaves
    ensures forall p :: p in DoCount(st, ack).counted[ack.slave] ==> Arrived(DoCount(st, ack), ack.slave, p)
  {
    var st', s := DoCount(st, ack), ack.slave;
    CountLeaves(st, ack);
    CountedIsNew(st, ack);
    assert SlaveOk(st, s);
    forall p | p in st'.counted[s] ensures Arrived(st', s, p) { StaysArrived(st, ack, p); }
  }

  lemma StaysArrived(st: State, ack: Msg, p: NodeId)
    requires Inv(st) && Possible(st, Count(ack)) && p in DoCount(st, ack).counted[ack.slave]
    ensures ack.slave in DoCount(st, ack).slaves && Arrived(DoCount(st, ack), ack.slave, p)
  {
    CountLeaves(st, ack);
    CountedIsNew(st, ack);
    assert SlaveOk(st, ack.slave);
    if p in st.counted[ack.slave] { assert Arrived(st, ack.slave, p); }
  }

  lemma CountSlave(st: State, ack: Msg)
    requires Inv(st) && Possible(st, Count(ack))
    ensures Booked(DoCount(st, ack)) && ack.slave in DoCount(st, ack).slaves && SlaveOk(DoCount(st, ack), ack.slave)
  {
    CountedVoters(st, ack);
    CountLeaves(st, ack);
    CountedIsNew(st, ack);
    assert SlaveOk(st, ack.slave);
  }

  lemma HearKeeps(st: State, beat: Msg)
    requires Inv(st) && Possible(st, Hear(beat))
    ensures Inv(Do(st, Hear(beat)))
  {
    FewerMessagesKeeps(st, beat);
    EpochKeeps(st.(bag := st.bag - multiset{beat}), beat.to, beat.epoch);
  }

  lemma BumpKeeps(st: State, n: NodeId)
    requires Inv(st) && Possible(st, Bump(n))
    ensures Inv(Do(st, Bump(n)))
  {
    var e := EpochOf(st, n) + 1;
    assert Do(st, Bump(n)) == WithEpoch(st, n, e);
    assert Inv(WithEpoch(st, n, e)) by { EpochKeeps(st, n, e); }
  }

  lemma LoseKeeps(st: State, msg: Msg)
    requires Inv(st) && Possible(st, Lose(msg))
    ensures Inv(Do(st, Lose(msg)))
  {
    FewerMessagesKeeps(st, msg);
  }

  lemma ElectionStepKeeps(st: State, a: Action)
    requires Inv(st) && Possible(st, a) && (a.Schedule? || a.Ask? || a.Vote? || a.Count? || a.Win?)
    ensures Inv(Do(st, a))
  {
    match a
    case Schedule(s) => ScheduleKeeps(st, s);
    case Ask(s, claim) => AskKeeps(st, s, claim);
    case Vote(req, sight) => VoteKeeps(st, req, Willing(sight, req.claim));
    case Count(ack) => CountKeeps(st, ack);
    case Win(s) => WinKeeps(st, s);
  }

  lemma StepKeeps(st: State, a: Action)
    requires Inv(st) && Possible(st, a)
    ensures Inv(Do(st, a))
  {
    match a
    case Beat(from, to) => BeatKeeps(st, from, to);
    case Hear(beat) => HearKeeps(st, beat);
    case Bump(n) => BumpKeeps(st, n);
    case Lose(msg) => LoseKeeps(st, msg);
    case _ => ElectionStepKeeps(st, a);
  }

  lemma {:induction false} RunInv(sts: seq<State>, acts: seq<Action>, n: nat)
    requires IsRun(sts, acts) && n < |sts|
    ensures Inv(sts[n])
  {
    if n == 0 {
      InitInv(sts[0]);
    } else {
      RunInv(sts, acts, n - 1);
      StepKeeps(sts[n - 1], acts[n - 1]);
      assert sts[n - 1 + 1] == Do(sts[n - 1], acts[n - 1]);
    }
  }

  // ----- what the count is worth -----------------------------------------------------------

  /** In every run the count of a slave is the number of distinct masters whose votes for its
      present election have arrived, if and only if it has counted no stale vote. */
  lemma CountIsExact(sts: seq<State>, acts: seq<Action>, n: nat, s: NodeId)
    requires IsRun(sts, acts) && n < |sts| && s in sts[n].slaves
    ensures s in sts[n].counted && s in sts[n].stale
    ensures forall p :: p in sts[n].counted[s] ==> Arrived(sts[n], s, p)
    ensures sts[n].slaves[s].authCount == |sts[n].counted[s]| <==> sts[n].stale[s] == 0
  {
    RunInv(sts, acts, n);
    assert SlaveOk(sts[n], s);
  }

  /** No slave has counted a stale vote. */
  ghost predicate Clean(st: State) {
    forall s :: s in st.stale ==> st.stale[s] == 0
  }

  /** A step that is not part of an election. */
  predicate IsOther(a: Action) {
    a.Beat? || a.Hear? || a.Bump? || a.Lose?
  }

  /** What such a step leaves alone. */
  lemma OthersKeepRecords(st: State, a: Action)
    requires Possible(st, a) && IsOther(a)
    ensures Do(st, a).stale == st.stale && Do(st, a).wins == st.wins
  {
    match a
    case Hear(beat) => WithEpochKeepsRecords(st.(bag := st.bag - multiset{beat}), beat.to, beat.epoch);
    case Bump(n) => WithEpochKeepsRecords(st, n, EpochOf(st, n) + 1);
    case _ =>
  }

  lemma WithEpochKeepsRecords(st: State, n: NodeId, e: nat)
    ensures WithEpoch(st, n, e).stale == st.stale && WithEpoch(st, n, e).wins == st.wins
  {
  }

  lemma OthersSendNothing(st: State, a: Action, m: Msg)
    requires Possible(st, a) && IsOther(a) && m in Do(st, a).bag && !m.Heartbeat?
    ensures m in st.bag
  {
  }

  lemma OthersKeepSlaves(st: State, a: Action)
    requires Possible(st, a) && IsOther(a)
    ensures Do(st, a).slaves.Keys == st.slaves.Keys
    ensures forall s :: s in st.slaves ==> Do(st, a).slaves[s].authSent == st.slaves[s].authSent
  {
    match a
    case Hear(beat) => RaisedSlaveSame(st.slaves, beat.to, beat.epoch);
    case Bump(n) => RaisedSlaveSame(st.slaves, n, EpochOf(st, n) + 1);
    case _ =>
  }

  /** Only a reset and the counting of a vote touch the stale votes; a vote makes one more
      exactly if it is counted against the guard. */
  lemma StaleAfterStep(st: State, a: Action)
    requires Booked(st) && Possible(st, a)
    ensures Do(st, a).stale ==
              if a.Schedule? then st.stale[a.s := 0]
              else if !Guarded(st, a) then st.stale[a.ack.slave := st.stale[a.ack.slave] + 1]
              else st.stale
  {
    match a
    case Schedule(s) => ScheduleStale(st, s);
    case Count(ack) => StaleAfterCount(st, ack);
    case _ => StaleKept(st, a);
  }

  lemma ScheduleStale(st: State, s: NodeId)
    requires Possible(st, Schedule(s))
    ensures DoSchedule(st, s).stale == st.stale[s := 0]
  {
  }

  lemma StaleKept(st: State, a: Action)
    requires Possible(st, a) && !a.Schedule? && !a.Count?
    ensures Do(st, a).stale == st.stale && Guarded(st, a)
  {
    match a
    case Ask(s, claim) => AskStale(st, s, claim);
    case Vote(req, sight) => VoteStale(st, req, Willing(sight, req.claim));
    case Win(s) => WinStale(st, s);
    case _ => OthersKeepRecords(st, a);
  }

  lemma AskStale(st: State, s: NodeId, claim: Claim)
    requires CanAsk(st, s)
    ensures DoAsk(st, s, claim).stale == st.stale
  {
  }

  lemma VoteStale(st: State, req: Msg, willing: bool)
    requires CanVote(st, req)
    ensures DoVote(st, req, willing).stale == st.stale
  {
  }

  lemma WinStale(st: State, s: NodeId)
    requires Possible(st, Win(s))
    ensures DoWin(st, s).stale == st.stale
  {
  }

  lemma StaleAfterCount(st: State, ack: Msg)
    requires Booked(st) && Possible(st, Count(ack))
    ensures DoCount(st, ack).stale ==
              if Guarded(st, Count(ack)) then st.stale else st.stale[ack.slave := st.stale[ack.slave] + 1]
  {
  }

  lemma GuardedKeepsClean(st: State, a: Action)
    requires Inv(st) && Possible(st, a) && Guarded(st, a) && Clean(st)
    ensures Clean(Do(st, a))
  {
    StaleAfterStep(st, a);
  }

  lemma UnguardedStains(st: State, a: Action)
    requires Inv(st) && Possible(st, a) && !Guarded(st, a)
    ensures !Clean(Do(st, a))
  {
    StaleAfterStep(st, a);
    assert a.ack.slave in Do(st, a).stale;
  }

  lemma StaysCleanOnce(sts: seq<State>, acts: seq<Action>, i: nat)
    requires IsRun(sts, acts) && i < |acts| && Guarded(sts[i], acts[i]) && Clean(sts[i])
    ensures Clean(sts[i + 1])
  {
    RunInv(sts, acts, i);
    assert Possible(sts[i], acts[i]) && sts[i + 1] == Do(sts[i], acts[i]);
    GuardedKeepsClean(sts[i], acts[i]);
  }

  lemma {:induction false} StaysClean(sts: seq<State>, acts: seq<Action>, n: nat)
    requires IsRun(sts, acts) && n < |sts| && forall i :: 0 <= i < n ==> Guarded(sts[i], acts[i])
    ensures Clean(sts[n])
  {
    if n > 0 {
      StaysClean(sts, acts, n - 1);
      StaysCleanOnce(sts, acts, n - 1);
    }
  }

  /** The counts are exact throughout a run if and only if each of its steps obeys the guard. */
  lemma ExactCountsExactly(sts: seq<State>, acts: seq<Action>)
    requires IsRun(sts, acts)
    ensures (forall n :: 0 <= n < |sts| ==> Clean(sts[n])) <==> (forall i :: 0 <= i < |acts| ==> Guarded(sts[i], acts[i]))
  {
    if forall i :: 0 <= i < |acts| ==> Guarded(sts[i], acts[i]) {
      forall n | 0 <= n < |sts| ensures Clean(sts[n]) { StaysClean(sts, acts, n); }
    }
    if forall n :: 0 <= n < |sts| ==> Clean(sts[n]) {
      forall i | 0 <= i < |acts| ensures Guarded(sts[i], acts[i]) {
        RunInv(sts, acts, i);
        assert Clean(sts[i + 1]) && sts[i + 1] == Do(sts[i], acts[i]);
        if !Guarded(sts[i], acts[i]) { UnguardedStains(sts[i], acts[i]); }
      }
    }
  }

  // ----- safety -------------------------------------------------------------------------

  lemma QuorumsMeet(all: set<NodeId>, p: set<NodeId>, q: set<NodeId>)
    requires p <= all && q <= all && p !! q
    ensures |p| + |q| <= |all|
  {
    assert |p + q| == |p| + |q|;
    SubsetSize(p + q, all);
  }

  /** Two slaves that win the same epoch have counted stale votes: at least one between them,
      and at least two if the number of masters is even. */
  lemma TwoWinnersNeedStaleVotes(sts: seq<State>, acts: seq<Action>, n: nat, s: NodeId, t: NodeId, e: nat)
    requires IsRun(sts, acts) && n < |sts| && s != t
    requires (s, e) in sts[n].wins && (t, e) in sts[n].wins
    ensures sts[n].wins[(s, e)].stale + sts[n].wins[(t, e)].stale >= if |sts[n].masters| % 2 == 0 then 2 else 1
  {
    RunInv(sts, acts, n);
    var st := sts[n];
    var v, w := st.wins[(s, e)], st.wins[(t, e)];
    assert WinOk(st, (s, e)) && WinOk(st, (t, e));
    assert forall p :: p in v.voters ==> VotedFor(st, p, e, s);
    assert forall p :: p in w.voters ==> VotedFor(st, p, e, t);
    assert v.voters !! w.voters;
    QuorumsMeet(st.masters.Keys, v.voters, w.voters);
    assert |st.masters.Keys| == |st.masters|;
  }

  /** Election safety: in every run, at most one slave wins any given epoch, as far as winners
      have counted no stale vote. */
  lemma AtMostOneWinner(sts: seq<State>, acts: seq<Action>, n: nat, s: NodeId, t: NodeId, e: nat)
    requires IsRun(sts, acts) && n < |sts|
    requires (s, e) in sts[n].wins && sts[n].wins[(s, e)].stale == 0
    requires (t, e) in sts[n].wins && sts[n].wins[(t, e)].stale == 0
    ensures s == t
  {
    if s != t { TwoWinnersNeedStaleVotes(sts, acts, n, s, t, e); }
  }

  lemma WinsAfter(st: State, a: Action)
    requires Booked(st) && Possible(st, a)
    ensures Do(st, a).wins ==
              if a.Win? then st.wins[(a.s, st.slaves[a.s].authEpoch) := Victory(st.counted[a.s], st.stale[a.s])]
              else st.wins
  {
    match a
    case Schedule(s) => assert DoSchedule(st, s).wins == st.wins;
    case Ask(s, claim) => AskWins(st, s, claim);
    case Vote(req, sight) => VoteWins(st, req, Willing(sight, req.claim));
    case Count(ack) => CountWins(st, ack);
    case Win(s) => WinWins(st, s);
    case _ => OthersKeepRecords(st, a);
  }

  lemma AskWins(st: State, s: NodeId, claim: Claim)
    requires CanAsk(st, s)
    ensures DoAsk(st, s, claim).wins == st.wins
  {
  }

  lemma VoteWins(st: State, req: Msg, willing: bool)
    requires CanVote(st, req)
    ensures DoVote(st, req, willing).wins == st.wins
  {
  }

  lemma CountWins(st: State, ack: Msg)
    requires Possible(st, Count(ack))
    ensures DoCount(st, ack).wins == st.wins
  {
  }

  lemma WinWins(st: State, s: NodeId)
    requires Booked(st) && Possible(st, Win(s))
    ensures DoWin(st, s).wins == st.wins[(s, st.slaves[s].authEpoch) := Victory(st.counted[s], st.stale[s])]
  {
  }

  /** No winner had counted a stale vote. */
  ghost predicate WonClean(st: State) {
    forall w :: w in st.wins ==> st.wins[w].stale == 0
  }

  lemma CleanWin(st: State, a: Action)
    requires Booked(st) && Possible(st, a) && Clean(st) && WonClean(st)
    ensures WonClean(Do(st, a))
  {
    WinsAfter(st, a);
  }

  lemma CleanWinInRun(sts: seq<State>, acts: seq<Action>, i: nat)
    requires IsRun(sts, acts) && i < |acts| && Clean(sts[i]) && WonClean(sts[i])
    ensures WonClean(sts[i + 1])
  {
    assert Booked(sts[i]) by { RunInv(sts, acts, i); }
    assert Possible(sts[i], acts[i]) && sts[i + 1] == Do(sts[i], acts[i]);
    CleanWin(sts[i], acts[i]);
  }

  lemma {:induction false} CleanWins(sts: seq<State>, acts: seq<Action>, n: nat)
    requires IsRun(sts, acts) && n < |sts|
    requires forall i :: 0 <= i < |acts| ==> Guarded(sts[i], acts[i])
    ensures WonClean(sts[n])
  {
    if n > 0 {
      CleanWins(sts, acts, n - 1);
      StaysClean(sts, acts, n - 1);
      CleanWinInRun(sts, acts, n - 1);
    }
  }

  /** With the guard, any two winners of an epoch are the same. */
  lemma GuardedElectionsAreSafe(sts: seq<State>, acts: seq<Action>, n: nat, s: NodeId, t: NodeId, e: nat)
    requires IsRun(sts, acts) && n < |sts| && forall i :: 0 <= i < |acts| ==> Guarded(sts[i], acts[i])
    requires (s, e) in sts[n].wins && (t, e) in sts[n].wins
    ensures s == t
  {
    CleanWins(sts, acts, n);
    AtMostOneWinner(sts, acts, n, s, t, e);
  }

  // ----- what the votes behind a victory were given for ---------------------------------------

  /** The epoch for which s asks in this state, if it does. */
  function AskedEpoch(st: State, s: NodeId): nat
    requires s in st.slaves
  {
    st.slaves[s].currentEpoch + 1
  }

  /** Slave s begins the election of epoch e, claiming these slots. */
  ghost predicate Begins(st: State, a: Action, s: NodeId, e: nat, claim: Claim) {
    a == Ask(s, claim) && s in st.slaves && AskedEpoch(st, s) == e
  }

  /** A step that p takes: it votes for s at epoch e, and as it does, it is a master with slots, it
      takes s for a slave of a failed master (or one that forces the vote), it has not voted for a
      slave of that master for a while, and it knows of no claimed slot under a greater epoch. */
  ghost predicate VotesOnGrounds(a: Action, p: NodeId, s: NodeId, e: nat, claim: Claim) {
    && a.Vote? && a.req == Request(s, p, e, claim)
    && var v := a.sight;
       && !v.isSlave && v.numslots > 0
       && !v.askerIsMaster && v.askerMaster.Some? && (v.masterFailed || claim.force)
       && v.now >= v.lastVote + 2 * v.nodeTimeout
       && forall j :: 0 <= j < |claim.slots| && j < |v.known| && claim.slots[j] ==>
            v.known[j].None? || v.known[j].value <= claim.configEpoch
  }

  lemma VotesOf(st: State, a: Action)
    requires Possible(st, a)
    ensures Do(st, a).votes ==
              if a.Vote? && Grants(st.masters[a.req.master], a.req.epoch, Willing(a.sight, a.req.claim))
              then st.votes[(a.req.master, Max(st.masters[a.req.master].currentEpoch, a.req.epoch)) := a.req.slave]
              else st.votes
  {
    match a
    case Vote(req, sight) => VotesAfterVote(st, req, Willing(sight, req.claim));
    case Schedule(s) => assert DoSchedule(st, s).votes == st.votes;
    case Ask(s, claim) => assert DoAsk(st, s, claim).votes == st.votes;
    case Count(ack) => assert DoCount(st, ack).votes == st.votes;
    case Win(s) => assert DoWin(st, s).votes == st.votes;
    case _ => OthersKeepVotes(st, a);
  }

  lemma VotesAfterVote(st: State, req: Msg, willing: bool)
    requires CanVote(st, req)
    ensures DoVote(st, req, willing).votes ==
              if Grants(st.masters[req.master], req.epoch, willing)
              then st.votes[(req.master, Max(st.masters[req.master].currentEpoch, req.epoch)) := req.slave]
              else st.votes
  {
  }

  lemma OthersKeepVotes(st: State, a: Action)
    requires Possible(st, a) && IsOther(a)
    ensures Do(st, a).votes == st.votes
  {
    match a
    case Beat(from, to) =>
    case Hear(beat) =>
    case Bump(n) =>
    case Lose(msg) =>
  }

  /** Every vote was given on grounds. */
  lemma {:induction false} VoteHasCause(sts: seq<State>, acts: seq<Action>, n: nat, p: NodeId, e: nat) returns (i: nat)
    requires IsRun(sts, acts) && n < |sts| && (p, e) in sts[n].votes
    ensures i < n && acts[i].Vote? && acts[i].req in sts[i].bag && acts[i].req.Request?
    ensures VotesOnGrounds(acts[i], p, sts[n].votes[(p, e)], e, acts[i].req.claim)
  {
    if n > 0 {
      assert sts[n - 1 + 1] == Do(sts[n - 1], acts[n - 1]);
      if (p, e) in sts[n - 1].votes && sts[n - 1].votes[(p, e)] == sts[n].votes[(p, e)] {
        i := VoteHasCause(sts, acts, n - 1, p, e);
      } else {
        NewVote(sts[n - 1], acts[n - 1], p, e);
        i := n - 1;
      }
    }
  }

  lemma NewVote(st: State, a: Action, p: NodeId, e: nat)
    requires Possible(st, a) && (p, e) in Do(st, a).votes
    requires (p, e) !in st.votes || st.votes[(p, e)] != Do(st, a).votes[(p, e)]
    ensures a.Vote? && a.req in st.bag && a.req.Request? && VotesOnGrounds(a, p, Do(st, a).votes[(p, e)], e, a.req.claim)
  {
    VotesOf(st, a);
  }

  lemma NewRequest(st: State, a: Action, m: Msg)
    requires Possible(st, a) && m in Do(st, a).bag && m !in st.bag && m.Request?
    ensures m.slave in st.slaves && Begins(st, a, m.slave, m.epoch, m.claim)
  {
    NewMessage(st, a, m);
  }

  /** Every request was sent at the beginning of its election. */
  lemma {:induction false} RequestHasCause(sts: seq<State>, acts: seq<Action>, n: nat, m: Msg) returns (j: nat)
    requires IsRun(sts, acts) && n < |sts| && m in sts[n].bag && m.Request?
    ensures j < n && Begins(sts[j], acts[j], m.slave, m.epoch, m.claim)
  {
    if n > 0 {
      assert sts[n - 1 + 1] == Do(sts[n - 1], acts[n - 1]);
      if m in sts[n - 1].bag {
        j := RequestHasCause(sts, acts, n - 1, m);
      } else {
        NewRequest(sts[n - 1], acts[n - 1], m);
        j := n - 1;
      }
    }
  }

  lemma EpochsGrow(st: State, a: Action, s: NodeId)
    requires Possible(st, a) && s in st.slaves
    ensures s in Do(st, a).slaves && st.slaves[s].currentEpoch <= Do(st, a).slaves[s].currentEpoch
    ensures a.Ask? && a.s == s ==> st.slaves[s].currentEpoch < Do(st, a).slaves[s].currentEpoch
  {
    if IsOther(a) {
      OthersGrow(st, a, s);
    } else {
      SlavesAfterStep(st, a);
      SlavesAfterGrow(st, a, s);
    }
  }

  lemma OthersGrow(st: State, a: Action, s: NodeId)
    requires Possible(st, a) && IsOther(a) && s in st.slaves
    ensures s in Do(st, a).slaves && st.slaves[s].currentEpoch <= Do(st, a).slaves[s].currentEpoch
  {
    OthersKeepSlaves(st, a);
  }

  lemma SlavesAfterGrow(st: State, a: Action, s: NodeId)
    requires Possible(st, a) && s in st.slaves
    ensures s in SlavesAfter(st, a) && st.slaves[s].currentEpoch <= SlavesAfter(st, a)[s].currentEpoch
    ensures a.Ask? && a.s == s ==> st.slaves[s].currentEpoch < SlavesAfter(st, a)[s].currentEpoch
  {
  }

  lemma {:induction false} EpochsGrowInRun(sts: seq<State>, acts: seq<Action>, i: nat, n: nat, s: NodeId)
    requires IsRun(sts, acts) && i <= n < |sts| && s in sts[i].slaves
    ensures s in sts[n].slaves && sts[i].slaves[s].currentEpoch <= sts[n].slaves[s].currentEpoch
    decreases n - i
  {
    if i < n {
      EpochsGrowInRun(sts, acts, i, n - 1, s);
      EpochsGrow(sts[n - 1], acts[n - 1], s);
      assert sts[n - 1 + 1] == Do(sts[n - 1], acts[n - 1]);
    }
  }

  /** A slave begins at most one election of an epoch. */
  lemma OneBeginning(sts: seq<State>, acts: seq<Action>, i: nat, j: nat, s: NodeId, e: nat, c: Claim, d: Claim)
    requires IsRun(sts, acts) && i < |acts| && j < |acts|
    requires Begins(sts[i], acts[i], s, e, c) && Begins(sts[j], acts[j], s, e, d)
    ensures i == j && c == d
  {
    if i < j {
      BeginsLater(sts, acts, i, j, s);
    } else if j < i {
      BeginsLater(sts, acts, j, i, s);
    }
  }

  lemma BeginsLater(sts: seq<State>, acts: seq<Action>, i: nat, j: nat, s: NodeId)
    requires IsRun(sts, acts) && i < j < |acts| && acts[i].Ask? && acts[i].s == s && s in sts[i].slaves
    ensures s in sts[j].slaves && AskedEpoch(sts[i], s) < AskedEpoch(sts[j], s)
  {
    EpochsGrow(sts[i], acts[i], s);
    EpochsGrowInRun(sts, acts, i + 1, j, s);
  }

  /** Behind every winner that has counted no stale vote stands a quorum of masters.  Each of them
      voted for it in this election and for what it claimed when the election began; and at that
      moment none of them knew of a claimed slot under a greater configuration epoch, nor held its
      master for alive (unless it forced the vote). */
  lemma WinnersHaveGrounds(sts: seq<State>, acts: seq<Action>, n: nat, s: NodeId, e: nat) returns (j: nat, claim: Claim)
    requires IsRun(sts, acts) && n < |sts| && (s, e) in sts[n].wins && sts[n].wins[(s, e)].stale == 0
    ensures j < n && Begins(sts[j], acts[j], s, e, claim)
    ensures var voters := sts[n].wins[(s, e)].voters;
            && voters <= sts[n].masters.Keys && 2 * |voters| > |sts[n].masters.Keys|
            && forall p :: p in voters ==> exists i :: j < i < n && VotesOnGrounds(acts[i], p, s, e, claim)
  {
    var voters := sts[n].wins[(s, e)].voters;
    assert WinOk(sts[n], (s, e)) by { RunInv(sts, acts, n); }
    var q :| q in voters;
    var k;
    j, k, claim := VoterHasGrounds(sts, acts, n, q, s, e);
    forall p | p in voters ensures exists i :: j < i < n && VotesOnGrounds(acts[i], p, s, e, claim) {
      var j', i, claim' := VoterHasGrounds(sts, acts, n, p, s, e);
      OneBeginning(sts, acts, j, j', s, e, claim, claim');
    }
  }

  lemma VoterHasGrounds(sts: seq<State>, acts: seq<Action>, n: nat, p: NodeId, s: NodeId, e: nat)
      returns (j: nat, i: nat, claim: Claim)
    requires IsRun(sts, acts) && n < |sts| && VotedFor(sts[n], p, e, s)
    ensures j < i < n && Begins(sts[j], acts[j], s, e, claim) && VotesOnGrounds(acts[i], p, s, e, claim)
  {
    i := VoteHasCause(sts, acts, n, p, e);
    j := RequestHasCause(sts, acts, i, acts[i].req);
    claim := acts[i].req.claim;
  }

  // ----- the timing implies the guard ----------------------------------------------------------

  /** While a slave has not asked for votes, nothing of its elections is in flight. */
  ghost predicate QuietWhenIdle(st: State) {
    forall s :: s in st.slaves && !st.slaves[s].authSent ==> Silent(st, s)
  }

  lemma QuietIsGuarded(st: State, a: Action)
    requires Possible(st, a) && QuietWhenIdle(st)
    ensures Guarded(st, a)
  {
    if a.Count? { assert st.slaves[a.ack.slave].authSent || Silent(st, a.ack.slave); }
  }

  /** Only a reset makes a slave idle. */
  lemma IdleBefore(st: State, a: Action, s: NodeId)
    requires Possible(st, a) && s in Do(st, a).slaves && !Do(st, a).slaves[s].authSent
    ensures s in st.slaves && (a != Schedule(s) ==> !st.slaves[s].authSent && !(a.Ask? && a.s == s))
  {
    if IsOther(a) { OthersKeepSlaves(st, a); } else { SlavesAfterStep(st, a); ElectionIdle(st, a, s); }
  }

  /** The slaves after a step of an election. */
  ghost function SlavesAfter(st: State, a: Action): map<NodeId, Slave>
    requires Possible(st, a)
  {
    match a
    case Schedule(s) => st.slaves[s := Scheduled(st.slaves[s])]
    case Ask(s, _) => st.slaves[s := Asked(st.slaves[s])]
    case Count(ack) => st.slaves[ack.slave := Counted(st.slaves[ack.slave], ack.epoch)]
    case Win(s) => st.slaves[s := Won(st.slaves[s])]
    case _ => st.slaves
  }

  lemma SlavesAfterStep(st: State, a: Action)
    requires Possible(st, a) && !IsOther(a)
    ensures Do(st, a).slaves == SlavesAfter(st, a)
  {
    match a
    case Schedule(s) => assert DoSchedule(st, s).slaves == st.slaves[s := Scheduled(st.slaves[s])];
    case Ask(s, claim) => AskedSlaves(st, s, claim);
    case Vote(req, sight) => VotedSlaves(st, req, Willing(sight, req.claim));
    case Count(ack) => CountedSlaves(st, ack);
    case Win(s) => WonSlaves(st, s);
  }

  lemma AskedSlaves(st: State, s: NodeId, claim: Claim)
    requires CanAsk(st, s)
    ensures DoAsk(st, s, claim).slaves == st.slaves[s := Asked(st.slaves[s])]
  {
  }

  lemma VotedSlaves(st: State, req: Msg, willing: bool)
    requires CanVote(st, req)
    ensures DoVote(st, req, willing).slaves == st.slaves
  {
  }

  lemma CountedSlaves(st: State, ack: Msg)
    requires Possible(st, Count(ack))
    ensures DoCount(st, ack).slaves == st.slaves[ack.slave := Counted(st.slaves[ack.slave], ack.epoch)]
  {
  }

  lemma WonSlaves(st: State, s: NodeId)
    requires Possible(st, Win(s))
    ensures DoWin(st, s).slaves == st.slaves[s := Won(st.slaves[s])]
  {
  }

  lemma ElectionIdle(st: State, a: Action, s: NodeId)
    requires Possible(st, a) && !IsOther(a) && s in SlavesAfter(st, a) && !SlavesAfter(st, a)[s].authSent
    ensures s in st.slaves && (a != Schedule(s) ==> !st.slaves[s].authSent && !(a.Ask? && a.s == s))
  {
  }

  lemma TimedKeepsQuiet(st: State, a: Action, s: NodeId)
    requires Possible(st, a) && Timed(st, a) && QuietWhenIdle(st)
    requires s in Do(st, a).slaves && !Do(st, a).slaves[s].authSent
    ensures Silent(Do(st, a), s)
  {
    IdleBefore(st, a, s);
    assert Silent(st, s);
    forall m | m in Do(st, a).bag ensures !(m.Request? && m.slave == s) && !(m.Ack? && m.slave == s) {
      if m !in st.bag && !m.Heartbeat? { NewMessage(st, a, m); }
    }
  }

  /** Only Ask and Vote send messages of an election, and a vote goes to the slave whose
      request was in flight. */
  lemma NewMessage(st: State, a: Action, m: Msg)
    requires Possible(st, a) && m in Do(st, a).bag && m !in st.bag && !m.Heartbeat?
    ensures (m.Request? && a == Ask(m.slave, m.claim) && m.epoch == st.slaves[m.slave].currentEpoch + 1) || (m.Ack? && a.Vote? && a.req in st.bag && a.req.Request? && a.req.slave == m.slave)
  {
    match a
    case Schedule(_) =>
    case Ask(s, claim) => AskedBag(st, s, claim, m);
    case Vote(req, sight) => VotedBag(st, req, Willing(sight, req.claim), m);
    case Count(ack) => CountedBag(st, ack);
    case Win(_) =>
    case _ => OthersSendNothing(st, a, m);
  }

  lemma VotedBag(st: State, req: Msg, willing: bool, m: Msg)
    requires CanVote(st, req) && m in DoVote(st, req, willing).bag && m !in st.bag
    ensures m.Ack? && req.slave == m.slave
  {
  }

  lemma CountedBag(st: State, ack: Msg)
    requires Possible(st, Count(ack))
    ensures DoCount(st, ack).bag == st.bag - multiset{ack}
  {
  }

  lemma {:induction false} QuietRun(sts: seq<State>, acts: seq<Action>, n: nat)
    requires IsRun(sts, acts) && n < |sts| && forall i :: 0 <= i < |acts| ==> Timed(sts[i], acts[i])
    ensures QuietWhenIdle(sts[n])
  {
    if n > 0 {
      QuietRun(sts, acts, n - 1);
      assert sts[n - 1 + 1] == Do(sts[n - 1], acts[n - 1]);
      forall s | s in sts[n].slaves && !sts[n].slaves[s].authSent ensures Silent(sts[n], s) {
        TimedKeepsQuiet(sts[n - 1], acts[n - 1], s);
      }
    }
  }

  /** If nothing of an old election is in flight whenever a count is reset, every step obeys
      the guard, and elections are safe. */
  lemma TimedElectionsAreSafe(sts: seq<State>, acts: seq<Action>, n: nat, s: NodeId, t: NodeId, e: nat)
    requires IsRun(sts, acts) && n < |sts| && forall i :: 0 <= i < |acts| ==> Timed(sts[i], acts[i])
    requires (s, e) in sts[n].wins && (t, e) in sts[n].wins
    ensures (forall i :: 0 <= i < |acts| ==> Guarded(sts[i], acts[i])) && s == t
  {
    forall i | 0 <= i < |acts| ensures Guarded(sts[i], acts[i]) {
      QuietRun(sts, acts, i);
      QuietIsGuarded(sts[i], acts[i]);
    }
    GuardedElectionsAreSafe(sts, acts, n, s, t, e);
  }

  // ----- why the guard is needed ----------------------------------------------------------------

  /** st' follows from st by a step of the code. */
  ghost predicate Untimed(st: State, a: Action, st': State) {
    Possible(st, a) && st' == Do(st, a)
  }

  /** In the example runs the claims are empty and the master has no objection. */
  const NO_CLAIM := Claim([], 0, false)
  const CONSENT := Sight(false, 1, [], false, Some(0), true, 0, 0, 0)

  /** One master p and two slaves s and t. */
  ghost predicate Shape(st: State, p: NodeId, m: Master, s: NodeId, a: Slave, t: NodeId, b: Slave,
                        bag: multiset<Msg>, won: set<(NodeId, nat)>)
  {
    && st.masters.Keys == {p} && st.masters[p] == m && s != t
    && s in st.slaves && st.slaves[s] == a && t in st.slaves && st.slaves[t] == b
    && st.bag == bag && st.wins.Keys == won
  }

  lemma AskStep(st: State, p: NodeId, m: Master, s: NodeId, a: Slave, t: NodeId, b: Slave,
                bag: multiset<Msg>, won: set<(NodeId, nat)>)
    requires Shape(st, p, m, s, a, t, b, bag, won) && !a.promoted && !a.authSent
    ensures Possible(st, Ask(s, NO_CLAIM))
    ensures var e := a.currentEpoch + 1;
            Shape(Do(st, Ask(s, NO_CLAIM)), p, m, s, a.(currentEpoch := e, authEpoch := e, authSent := true), t, b,
                  bag + multiset{Request(s, p, e, NO_CLAIM)}, won)
  {
    var e := a.currentEpoch + 1;
    assert Requests({p}, s, e, NO_CLAIM) == {Request(s, p, e, NO_CLAIM)};
  }

  lemma VoteStep(st: State, p: NodeId, m: Master, s: NodeId, a: Slave, t: NodeId, b: Slave,
                 bag: multiset<Msg>, won: set<(NodeId, nat)>, e: nat)
    requires Shape(st, p, m, s, a, t, b, bag, won) && Request(s, p, e, NO_CLAIM) in bag
    requires e >= m.currentEpoch && m.lastVoteEpoch != e
    ensures Possible(st, Vote(Request(s, p, e, NO_CLAIM), CONSENT))
    ensures Shape(Do(st, Vote(Request(s, p, e, NO_CLAIM), CONSENT)), p, Master(e, e), s, a, t, b,
                  bag - multiset{Request(s, p, e, NO_CLAIM)} + multiset{Ack(p, s, e)}, won)
  {
  }

  lemma CountStep(st: State, p: NodeId, m: Master, s: NodeId, a: Slave, t: NodeId, b: Slave,
                  bag: multiset<Msg>, won: set<(NodeId, nat)>, e: nat)
    requires Shape(st, p, m, s, a, t, b, bag, won) && Ack(p, s, e) in bag
    requires e >= a.authEpoch && a.currentEpoch >= e
    ensures Possible(st, Count(Ack(p, s, e)))
    ensures Shape(Do(st, Count(Ack(p, s, e))), p, m, s, a.(authCount := a.authCount + 1), t, b,
                  bag - multiset{Ack(p, s, e)}, won)
  {
  }

  lemma WinStep(st: State, p: NodeId, m: Master, s: NodeId, a: Slave, t: NodeId, b: Slave,
                bag: multiset<Msg>, won: set<(NodeId, nat)>)
    requires Shape(st, p, m, s, a, t, b, bag, won) && !a.promoted && a.authSent && a.authCount >= 1
    ensures Possible(st, Win(s))
    ensures Shape(Do(st, Win(s)), p, m, s, a.(configEpoch := Max(a.configEpoch, a.authEpoch), promoted := true),
                  t, b, bag, won + {(s, a.authEpoch)})
  {
    assert |st.masters.Keys| == 1;
  }

  lemma ScheduleStep(st: State, p: NodeId, m: Master, s: NodeId, a: Slave, t: NodeId, b: Slave,
                     bag: multiset<Msg>, won: set<(NodeId, nat)>)
    requires Shape(st, p, m, s, a, t, b, bag, won) && !a.promoted
    ensures Possible(st, Schedule(s))
    ensures Shape(Do(st, Schedule(s)), p, m, s, a.(authCount := 0, authSent := false), t, b, bag, won)
  {
  }

  lemma Swap(st: State, p: NodeId, m: Master, s: NodeId, a: Slave, t: NodeId, b: Slave,
             bag: multiset<Msg>, won: set<(NodeId, nat)>)
    requires Shape(st, p, m, s, a, t, b, bag, won)
    ensures Shape(st, p, m, t, b, s, a, bag, won)
  {
  }

  /** The states sts follow from one another by the steps acts. */
  ghost predicate Trace(sts: seq<State>, acts: seq<Action>, first: State, last: State) {
    && |sts| == |acts| + 1 && sts[0] == first && sts[|acts|] == last
    && forall i :: 0 <= i < |acts| ==> Untimed(sts[i], acts[i], sts[i + 1])
  }

  lemma TraceOne(st: State, a: Action)
    requires Possible(st, a)
    ensures Trace([st, Do(st, a)], [a], st, Do(st, a))
  {
  }

  lemma TraceMore(sts: seq<State>, acts: seq<Action>, first: State, mid: State, a: Action)
    requires Trace(sts, acts, first, mid) && Possible(mid, a)
    ensures Trace(sts + [Do(mid, a)], acts + [a], first, Do(mid, a))
  {
    TraceOne(mid, a);
    Chain(sts, acts, [mid, Do(mid, a)], [a], first, mid, Do(mid, a));
    assert [mid, Do(mid, a)][1..] == [Do(mid, a)];
  }

  lemma Chain(sts1: seq<State>, acts1: seq<Action>, sts2: seq<State>, acts2: seq<Action>,
              first: State, mid: State, last: State)
    requires Trace(sts1, acts1, first, mid) && Trace(sts2, acts2, mid, last)
    ensures Trace(sts1 + sts2[1..], acts1 + acts2, first, last)
  {
    var sts, acts := sts1 + sts2[1..], acts1 + acts2;
    forall i | 0 <= i < |acts| ensures Untimed(sts[i], acts[i], sts[i + 1]) {
      if i < |acts1| {
        assert Untimed(sts1[i], acts1[i], sts1[i + 1]);
      } else {
        assert Untimed(sts2[i - |acts1|], acts2[i - |acts1|], sts2[i - |acts1| + 1]);
      }
    }
  }

  lemma FirstVote(st0: State, p: NodeId, s: NodeId, t: NodeId, b: Slave)
      returns (st2: State, acts: seq<Action>, sts: seq<State>)
    requires Shape(st0, p, Master(0, 0), s, Slave(0, 0, 0, false, 0, false), t, b, multiset{}, {})
    ensures Shape(st2, p, Master(1, 1), s, Slave(1, 1, 0, true, 0, false), t, b, multiset{Ack(p, s, 1)}, {})
    ensures Trace(sts, acts, st0, st2)
  {
    var req, ack, a1 := Request(s, p, 1, NO_CLAIM), Ack(p, s, 1), Slave(1, 1, 0, true, 0, false);
    AskStep(st0, p, Master(0, 0), s, Slave(0, 0, 0, false, 0, false), t, b, multiset{}, {});
    var st1 := Do(st0, Ask(s, NO_CLAIM));
    assert multiset{} + multiset{req} == multiset{req};
    VoteStep(st1, p, Master(0, 0), s, a1, t, b, multiset{req}, {}, 1);
    st2 := Do(st1, Vote(req, CONSENT));
    assert multiset{req} - multiset{req} + multiset{ack} == multiset{ack};
    TraceOne(st0, Ask(s, NO_CLAIM));
    TraceMore([st0, st1], [Ask(s, NO_CLAIM)], st0, st1, Vote(req, CONSENT));
    acts, sts := [Ask(s, NO_CLAIM)] + [Vote(req, CONSENT)], [st0, st1] + [st2];
  }

  /** The count of s is reset while the vote it got for epoch 1 is in flight. */
  lemma ResetTooEarly(st0: State, p: NodeId, s: NodeId, t: NodeId, b: Slave)
      returns (st3: State, acts: seq<Action>, sts: seq<State>)
    requires Shape(st0, p, Master(0, 0), s, Slave(0, 0, 0, false, 0, false), t, b, multiset{}, {})
    ensures Shape(st3, p, Master(1, 1), s, Slave(1, 1, 0, false, 0, false), t, b, multiset{Ack(p, s, 1)}, {})
    ensures Trace(sts, acts, st0, st3)
  {
    var st2, acts1, sts1 := FirstVote(st0, p, s, t, b);
    ScheduleStep(st2, p, Master(1, 1), s, Slave(1, 1, 0, true, 0, false), t, b, multiset{Ack(p, s, 1)}, {});
    st3 := Do(st2, Schedule(s));
    assert Trace([st2, st3], [Schedule(s)], st2, st3);
    Chain(sts1, acts1, [st2, st3], [Schedule(s)], st0, st2, st3);
    acts, sts := acts1 + [Schedule(s)], sts1 + [st2, st3][1..];
  }

  lemma LateVoteCounts(st0: State, p: NodeId, s: NodeId, t: NodeId, b: Slave)
      returns (st2: State, acts: seq<Action>, sts: seq<State>)
    requires Shape(st0, p, Master(1, 1), s, Slave(1, 1, 0, false, 0, false), t, b, multiset{Ack(p, s, 1)}, {})
    ensures Shape(st2, p, Master(1, 1), s, Slave(2, 2, 1, true, 0, false), t, b, multiset{Request(s, p, 2, NO_CLAIM)}, {})
    ensures Trace(sts, acts, st0, st2)
  {
    var ack, req := Ack(p, s, 1), Request(s, p, 2, NO_CLAIM);
    CountStep(st0, p, Master(1, 1), s, Slave(1, 1, 0, false, 0, false), t, b, multiset{ack}, {}, 1);
    var st1 := Do(st0, Count(ack));
    assert multiset{ack} - multiset{ack} == multiset{};
    AskStep(st1, p, Master(1, 1), s, Slave(1, 1, 1, false, 0, false), t, b, multiset{}, {});
    st2 := Do(st1, Ask(s, NO_CLAIM));
    assert multiset{} + multiset{req} == multiset{req};
    TraceOne(st0, Count(ack));
    TraceMore([st0, st1], [Count(ack)], st0, st1, Ask(s, NO_CLAIM));
    acts, sts := [Count(ack)] + [Ask(s, NO_CLAIM)], [st0, st1] + [st2];
  }

  /** That vote is counted towards the next election of s, which s wins at epoch 2. */
  lemma LateVoteWins(st0: State, p: NodeId, s: NodeId, t: NodeId, b: Slave)
      returns (st3: State, acts: seq<Action>, sts: seq<State>)
    requires Shape(st0, p, Master(1, 1), s, Slave(1, 1, 0, false, 0, false), t, b, multiset{Ack(p, s, 1)}, {})
    ensures Shape(st3, p, Master(1, 1), s, Slave(2, 2, 1, true, 2, true), t, b,
                  multiset{Request(s, p, 2, NO_CLAIM)}, {(s, 2)})
    ensures Trace(sts, acts, st0, st3)
  {
    var st2, acts2, sts2 := LateVoteCounts(st0, p, s, t, b);
    WinStep(st2, p, Master(1, 1), s, Slave(2, 2, 1, true, 0, false), t, b, multiset{Request(s, p, 2, NO_CLAIM)}, {});
    assert {} + {(s, 2)} == {(s, 2)};
    TraceMore(sts2, acts2, st0, st2, Win(s));
    st3, acts, sts := Do(st2, Win(s)), acts2 + [Win(s)], sts2 + [Do(st2, Win(s))];
  }

  ghost predicate NoSchedule(acts: seq<Action>) {
    forall i :: 0 <= i < |acts| ==> !acts[i].Schedule?
  }

  lemma RivalAsks(st0: State, p: NodeId, t: NodeId, s: NodeId, a: Slave, bag: multiset<Msg>, won: set<(NodeId, nat)>)
      returns (st2: State, acts: seq<Action>, sts: seq<State>)
    requires Shape(st0, p, Master(1, 1), t, Slave(1, 0, 0, false, 0, false), s, a, bag, won)
    ensures Shape(st2, p, Master(2, 2), t, Slave(2, 2, 0, true, 0, false), s, a, bag + multiset{Ack(p, t, 2)}, won)
    ensures Trace(sts, acts, st0, st2) && NoSchedule(acts)
  {
    var req, ack, b1 := Request(t, p, 2, NO_CLAIM), Ack(p, t, 2), Slave(2, 2, 0, true, 0, false);
    AskStep(st0, p, Master(1, 1), t, Slave(1, 0, 0, false, 0, false), s, a, bag, won);
    var st1 := Do(st0, Ask(t, NO_CLAIM));
    VoteStep(st1, p, Master(1, 1), t, b1, s, a, bag + multiset{req}, won, 2);
    st2 := Do(st1, Vote(req, CONSENT));
    assert bag + multiset{req} - multiset{req} + multiset{ack} == bag + multiset{ack};
    acts, sts := [Ask(t, NO_CLAIM), Vote(req, CONSENT)], [st0, st1, st2];
  }

  lemma RivalCounts(st2: State, p: NodeId, t: NodeId, s: NodeId, a: Slave, bag: multiset<Msg>, won: set<(NodeId, nat)>)
      returns (st4: State, acts: seq<Action>, sts: seq<State>)
    requires Shape(st2, p, Master(2, 2), t, Slave(2, 2, 0, true, 0, false), s, a, bag + multiset{Ack(p, t, 2)}, won)
    ensures st4.wins.Keys == won + {(t, 2)}
    ensures Trace(sts, acts, st2, st4) && NoSchedule(acts)
  {
    var ack, b1 := Ack(p, t, 2), Slave(2, 2, 0, true, 0, false);
    CountStep(st2, p, Master(2, 2), t, b1, s, a, bag + multiset{ack}, won, 2);
    var st3 := Do(st2, Count(ack));
    WinStep(st3, p, Master(2, 2), t, b1.(authCount := 1), s, a, bag + multiset{ack} - multiset{ack}, won);
    st4 := Do(st3, Win(t));
    acts, sts := [Count(ack), Win(t)], [st2, st3, st4];
  }

  /** The slave t then wins the same epoch, with a proper vote. */
  lemma RivalWins(st0: State, p: NodeId, t: NodeId, s: NodeId, a: Slave, bag: multiset<Msg>, won: set<(NodeId, nat)>)
      returns (st4: State, acts: seq<Action>, sts: seq<State>)
    requires Shape(st0, p, Master(1, 1), t, Slave(1, 0, 0, false, 0, false), s, a, bag, won)
    ensures st4.wins.Keys == won + {(t, 2)}
    ensures Trace(sts, acts, st0, st4) && NoSchedule(acts)
  {
    var st2, acts1, sts1 := RivalAsks(st0, p, t, s, a, bag, won);
    var last, acts2, sts2 := RivalCounts(st2, p, t, s, a, bag, won);
    Chain(sts1, acts1, sts2, acts2, st0, st2, last);
    st4, acts, sts := last, acts1 + acts2, sts1 + sts2[1..];
  }

  lemma TraceIsRun(sts: seq<State>, acts: seq<Action>, first: State, last: State)
    requires Trace(sts, acts, first, last) && Init(first)
    ensures IsRun(sts, acts)
  {
    forall i | 0 <= i < |acts| ensures Possible(sts[i], acts[i]) && sts[i + 1] == Do(sts[i], acts[i]) {
      assert Untimed(sts[i], acts[i], sts[i + 1]);
    }
  }

  /** The code lacks the guard, and safety fails: with one master and two slaves, a vote of
      epoch 1 that arrives after the reset is counted towards epoch 2, and both slaves win
      epoch 2.  One stale vote is enough, as it must be. */
  lemma TwoWinnersWithoutGuard(st: State, p: NodeId, s: NodeId, t: NodeId)
    requires Init(st) && Shape(st, p, Master(0, 0), s, Slave(0, 0, 0, false, 0, false),
                               t, Slave(1, 0, 0, false, 0, false), multiset{}, {})
    ensures exists sts: seq<State>, acts: seq<Action> ::
              IsRun(sts, acts) && sts[0] == st && (s, 2) in sts[|acts|].wins && (t, 2) in sts[|acts|].wins
  {
    var b := Slave(1, 0, 0, false, 0, false);
    var mid, acts1, sts1 := ResetTooEarly(st, p, s, t, b);
    var first, acts2, sts2 := LateVoteWins(mid, p, s, t, b);
    var a := Slave(2, 2, 1, true, 2, true);
    var bag := multiset{Request(s, p, 2, NO_CLAIM)};
    Swap(first, p, Master(1, 1), s, a, t, b, bag, {(s, 2)});
    var last, acts3, sts3 := RivalWins(first, p, t, s, a, bag, {(s, 2)});
    Chain(sts1, acts1, sts2, acts2, st, mid, first);
    Chain(sts1 + sts2[1..], acts1 + acts2, sts3, acts3, st, first, last);
    TraceIsRun(sts1 + sts2[1..] + sts3[1..], acts1 + acts2 + acts3, st, last);
    assert (s, 2) in last.wins && (t, 2) in last.wins;
  }

  /** Elections can be won: a run, with its timing kept, at whose end a slave has won. */
  lemma ElectionCanBeWon(st: State, p: NodeId, s: NodeId, t: NodeId, a: Slave)
    requires Init(st) && Shape(st, p, Master(1, 1), t, Slave(1, 0, 0, false, 0, false), s, a, multiset{}, {})
    ensures exists sts: seq<State>, acts: seq<Action> ::
              && IsRun(sts, acts) && sts[0] == st && (t, 2) in sts[|acts|].wins
              && forall i :: 0 <= i < |acts| ==> Timed(sts[i], acts[i])
  {
    var last, acts, sts := RivalWins(st, p, t, s, a, multiset{}, {});
    TraceIsRun(sts, acts, st, last);
    assert (t, 2) in last.wins;
  }

  /** There are such states to start from. */
  lemma ElectionCanStart(p: NodeId, s: NodeId, t: NodeId)
    requires p != s && p != t && s != t
    ensures exists st, a :: Init(st) && Shape(st, p, Master(1, 1), t, Slave(1, 0, 0, false, 0, false), s, a, multiset{}, {})
  {
    var a := Slave(1, 0, 0, false, 0, false);
    var slaves := map[s := a, t := a];
    var counted: map<NodeId, set<NodeId>> := map x | x in slaves :: {};
    var stale: map<NodeId, nat> := map x | x in slaves :: 0;
    var st := State(map[p := Master(1, 1)], slaves, multiset{}, map[], counted, stale, map[]);
    assert st.masters.Keys == {p} && st.slaves.Keys == {s, t};
    assert Init(st) && Shape(st, p, Master(1, 1), t, a, s, a, multiset{}, {});
  }
}
