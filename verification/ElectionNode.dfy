/** The handlers of cluster.c that take part in an election, on the fields they update.  Each
    changes its node as the functions Voted, Counted, Scheduled, Asked and Won say, which the
    lemmas at the end equate with what the steps of the Election protocol do to that node. */
module ElectionNode {
  import opened Prelude
  import opened Election

  const CLUSTER_SLOTS := 16384

  /** The sender of a request as the master's own table knows it. */
  datatype Asker = Asker(isMaster: bool, master: Option<NodeId>, masterFailed: bool)

  /** clusterSendFailoverAuthIfNeeded and the epoch update that precedes it. */
  class Voter {
    var currentEpoch: nat
    var lastVoteEpoch: nat
    var isSlave: bool
    var numslots: nat
    var slotEpoch: seq<Option<nat>>   // configEpoch of the owner of each slot
    var votedTime: map<NodeId, int>   // when this node last voted for a slave of each master
    const nodeTimeout: int

    constructor (currentEpoch: nat, isSlave: bool, numslots: nat, slotEpoch: seq<Option<nat>>, nodeTimeout: int)
      requires |slotEpoch| == CLUSTER_SLOTS
      ensures AsMaster() == Master(currentEpoch, 0) && Valid()
    {
      this.currentEpoch, lastVoteEpoch, this.isSlave := currentEpoch, 0, isSlave;
      this.numslots, this.slotEpoch, this.nodeTimeout, votedTime := numslots, slotEpoch, nodeTimeout, map[];
    }

    ghost function AsMaster(): Master
      reads this
    {
      Master(currentEpoch, lastVoteEpoch)
    }

    ghost predicate Valid()
      reads this
    {
      |slotEpoch| == CLUSTER_SLOTS
    }

    function LastVote(master: NodeId): int
      reads this
    {
      if master in votedTime then votedTime[master] else 0
    }

    /** What this node knows when it is asked. */
    ghost function Seen(q: Asker, now: int): Sight
      reads this
    {
      Sight(isSlave, numslots, slotEpoch, q.isMaster, q.master, q.masterFailed, now,
            if q.master.Some? then LastVote(q.master.value) else 0, nodeTimeout)
    }

    /** The loop over the slots the slave claims. */
    method CheckClaim(claimed: seq<bool>, configEpoch: nat) returns (ok: bool)
      requires Valid() && |claimed| == CLUSTER_SLOTS
      ensures ok <==> forall j :: 0 <= j < CLUSTER_SLOTS && claimed[j] ==>
                        slotEpoch[j].None? || slotEpoch[j].value <= configEpoch
    {
      for j := 0 to CLUSTER_SLOTS
        invariant forall i :: 0 <= i < j && claimed[i] ==> slotEpoch[i].None? || slotEpoch[i].value <= configEpoch
      {
        if claimed[j] && slotEpoch[j].Some? && slotEpoch[j].value > configEpoch { return false; }
      }
      ok := true;
    }

    /** The vote is given exactly to a slave of a failed master, or that forces it, by a master with
        slots, for a current epoch in which it has not voted, not too soon after its last vote for a
        slave of that master, and if it knows of no claimed slot under a greater epoch. */
    method OnAuthRequest(epoch: nat, claim: Claim, q: Asker, now: int) returns (granted: bool)
      requires Valid() && |claim.slots| == CLUSTER_SLOTS
      modifies this`currentEpoch, this`lastVoteEpoch, this`votedTime
      ensures granted <==>
                && !isSlave && numslots != 0 && epoch >= old(currentEpoch) && old(lastVoteEpoch) != epoch
                && !q.isMaster && q.master.Some? && (q.masterFailed || claim.force)
                && now - old(LastVote(q.master.value)) >= 2 * nodeTimeout
                && forall j :: 0 <= j < CLUSTER_SLOTS && claim.slots[j] && slotEpoch[j].Some? ==>
                     slotEpoch[j].value <= claim.configEpoch
      ensures granted == Grants(old(AsMaster()), epoch, Willing(old(Seen(q, now)), claim))
      ensures AsMaster() == Voted(old(AsMaster()), epoch, Willing(old(Seen(q, now)), claim))
      ensures votedTime == if granted then old(votedTime)[q.master.value := now] else old(votedTime)
    {
      if epoch > currentEpoch { currentEpoch := epoch; }
      granted := false;
      if isSlave || numslots == 0 { return; }
      if epoch < currentEpoch { return; }
      if lastVoteEpoch == currentEpoch { return; }
      if q.isMaster || q.master.None? || (!q.masterFailed && !claim.force) { return; }
      if now - LastVote(q.master.value) < nodeTimeout * 2 { return; }
      var recent := CheckClaim(claim.slots, claim.configEpoch);
      if !recent { return; }
      granted := true;
      votedTime := votedTime[q.master.value := now];
      lastVoteEpoch := currentEpoch;
    }
  }

  datatype Outcome = Nothing | Schedules | Asks | Wins

  /** Conditions that clusterHandleSlaveFailover reads but does not set. */
  datatype Env = Env(now: int, nodeTimeout: int, clusterSize: nat, hasMaster: bool, masterFailed: bool,
                     masterSlots: nat, mfEnd: bool, mfCanStart: bool, dataTooOld: bool, delay: int, rank: int)
  {
    predicate ManualFailover() { mfEnd && mfCanStart }
  }

  class Candidate {
    var currentEpoch: nat
    var authEpoch: nat
    var authCount: nat
    var authSent: bool
    var authTime: int
    var authRank: int
    var configEpoch: nat
    var isMaster: bool

    constructor (currentEpoch: nat, configEpoch: nat)
      ensures AsSlave() == Slave(currentEpoch, 0, 0, false, configEpoch, false)
    {
      this.currentEpoch, this.configEpoch, isMaster := currentEpoch, configEpoch, false;
      authEpoch, authCount, authSent, authTime, authRank := 0, 0, false, 0, 0;
    }

    ghost function AsSlave(): Slave
      reads this
    {
      Slave(currentEpoch, authEpoch, authCount, authSent, configEpoch, isMaster)
    }

    /** FAILOVER_AUTH_ACK in clusterProcessPacket. */
    method OnAck(senderVotes: bool, epoch: nat)
      modifies this`currentEpoch, this`authCount
      ensures AsSlave() == if senderVotes then Counted(old(AsSlave()), epoch)
                           else old(AsSlave()).(currentEpoch := Max(old(currentEpoch), epoch))
    {
      if epoch > currentEpoch { currentEpoch := epoch; }
      if senderVotes && epoch >= authEpoch { authCount := authCount + 1; }
    }

    /** The preconditions of a failover: a slave whose master fails or hands over, and whose
        data is recent enough. */
    ghost predicate Eligible(env: Env)
      reads this
    {
      && !isMaster && env.hasMaster && (env.masterFailed || env.ManualFailover()) && env.masterSlots > 0
      && (!env.dataTooOld || env.ManualFailover())
    }

    /** clusterHandleSlaveFailover: the outcome names the protocol step taken, and each is taken
        exactly when its conditions hold.  A plan that is older than four node timeouts (or four
        seconds) is made anew; each rank by which others turn out to be ahead puts a plan off by a
        second; an election that has been asked for is won by a majority of the masters, if that
        comes within two node timeouts (or two seconds) of the plan. */
    method HandleFailover(env: Env) returns (outcome: Outcome)
      modifies this
      ensures var age, timeout := env.now - old(authTime), (if 2 * env.nodeTimeout < 2000 then 2000 else 2 * env.nodeTimeout);
              var later := if !old(authSent) && !env.mfEnd && env.rank > old(authRank) then env.rank - old(authRank) else 0;
              var due := old(Eligible(env)) && age <= timeout && env.now >= old(authTime) + 1000 * later;
              && (outcome == Schedules <==> old(Eligible(env)) && age > 2 * timeout)
              && (outcome == Asks <==> due && !old(authSent))
              && (outcome == Wins <==> due && old(authSent) && 2 * old(authCount) > env.clusterSize)
              && (outcome != Schedules && old(Eligible(env)) ==>
                    authTime == old(authTime) + 1000 * later && authRank == old(authRank) + later)
              && (!old(Eligible(env)) ==> authTime == old(authTime) && authRank == old(authRank))
      ensures outcome == Nothing ==> AsSlave() == old(AsSlave())
      ensures outcome == Schedules ==>
                && AsSlave() == Scheduled(old(AsSlave()))
                && (authTime, authRank) == if env.mfEnd then (env.now, 0)
                                           else (env.now + 500 + env.delay + env.rank * 1000, env.rank)
      ensures outcome == Asks ==> AsSlave() == Asked(old(AsSlave()))
      ensures outcome == Wins ==> AsSlave() == Won(old(AsSlave()))
    {
      var authAge := env.now - authTime;
      var neededQuorum := env.clusterSize / 2 + 1;
      var authTimeout := env.nodeTimeout * 2;
      if authTimeout < 2000 { authTimeout := 2000; }
      var authRetryTime := authTimeout * 2;

      if isMaster || !env.hasMaster || (!env.masterFailed && !env.ManualFailover()) || env.masterSlots == 0 {
        return Nothing;
      }
      if env.dataTooOld && !env.ManualFailover() { return Nothing; }

      if authAge > authRetryTime {
        authTime := env.now + 500 + env.delay;
        authCount := 0;
        authSent := false;
        authRank := env.rank;
        authTime := authTime + authRank * 1000;
        if env.mfEnd {
          authTime := env.now;
          authRank := 0;
        }
        return Schedules;
      }
      if !authSent && !env.mfEnd && env.rank > authRank {
        authTime := authTime + (env.rank - authRank) * 1000;
        authRank := env.rank;
      }
      if env.now < authTime { return Nothing; }
      if authAge > authTimeout { return Nothing; }
      if !authSent {
        currentEpoch := currentEpoch + 1;
        authEpoch := currentEpoch;
        authSent := true;
        return Asks;
      }
      if authCount >= neededQuorum {
        if configEpoch < authEpoch { configEpoch := authEpoch; }
        isMaster := true;
        return Wins;
      }
      return Nothing;
    }
  }

  // ----- the handlers take the steps of the protocol -------------------------------------------

  /** OnAuthRequest: the voter changes as the protocol's master does, no other node changes,
      and a vote is sent exactly if it was granted. */
  lemma VoteIsStep(st: State, req: Msg, sight: Sight)
    requires Possible(st, Vote(req, sight))
    ensures var st', m, willing := Do(st, Vote(req, sight)), st.masters[req.master], Willing(sight, req.claim);
            && st'.masters == st.masters[req.master := Voted(m, req.epoch, willing)] && st'.slaves == st.slaves
            && st'.bag == st.bag - multiset{req}
                 + if Grants(m, req.epoch, willing) then multiset{Ack(req.master, req.slave, req.epoch)} else multiset{}
  {
    var willing := Willing(sight, req.claim);
    var m := Voted(st.masters[req.master], req.epoch, willing);
    assert Grants(st.masters[req.master], req.epoch, willing) ==> m.currentEpoch == req.epoch;
    assert Do(st, Vote(req, sight)) == DoVote(st, req, willing);
  }

  /** OnAck, from a sender that votes. */
  lemma CountIsStep(st: State, ack: Msg)
    requires Possible(st, Count(ack))
    ensures var st' := Do(st, Count(ack));
            && st'.slaves == st.slaves[ack.slave := Counted(st.slaves[ack.slave], ack.epoch)]
            && st'.masters == st.masters && st'.bag == st.bag - multiset{ack}
  {
  }

  /** HandleFailover, by its outcome: what it finds makes the step possible, and it changes the
      slave as the step does. */
  lemma FailoverIsStep(st: State, s: NodeId, outcome: Outcome, claim: Claim)
    requires s in st.slaves && !st.slaves[s].promoted
    requires outcome == Asks ==> !st.slaves[s].authSent
    requires outcome == Wins ==> st.slaves[s].authSent && st.slaves[s].authCount >= |st.masters.Keys| / 2 + 1
    ensures outcome == Schedules ==>
              Possible(st, Schedule(s)) && Do(st, Schedule(s)).slaves == st.slaves[s := Scheduled(st.slaves[s])]
              && Do(st, Schedule(s)).bag == st.bag
    ensures outcome == Asks ==>
              Possible(st, Ask(s, claim)) && Do(st, Ask(s, claim)).slaves == st.slaves[s := Asked(st.slaves[s])]
              && Do(st, Ask(s, claim)).bag
                 == st.bag + multiset(Requests(st.masters.Keys, s, Asked(st.slaves[s]).authEpoch, claim))
    ensures outcome == Wins ==>
              Possible(st, Win(s)) && Do(st, Win(s)).slaves == st.slaves[s := Won(st.slaves[s])]
              && Do(st, Win(s)).bag == st.bag
  {
  }
}
