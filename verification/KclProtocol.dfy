/** The MultiLangDaemon protocol as the Kinesis client keeps it: the state machine, what each
    event does to it, and what every run of events guarantees. */
module KclProtocol {
  import opened Prelude

  datatype State =
    | Start | Initializing | Ready | Processing | Checkpointing
    | ShuttingDown | FinalCheckpointing | End | Error

  datatype Input =
    | BeginInitialize | FinishInitialize | BeginProcessRecords | FinishProcessRecords
    | BeginShutdown | FinishShutdown | BeginCheckpoint | FinishCheckpoint | Cleanup | Failure

  /** The transition table; an input that a state does not name leads to Error. */
  function Next(s: State, i: Input): State {
    match (s, i)
    case (Start, BeginInitialize) => Initializing
    case (Initializing, FinishInitialize) => Ready
    case (Ready, BeginProcessRecords) => Processing
    case (Ready, BeginShutdown) => ShuttingDown
    case (Processing, BeginCheckpoint) => Checkpointing
    case (Processing, FinishProcessRecords) => Ready
    case (Checkpointing, FinishCheckpoint) => Processing
    case (ShuttingDown, BeginCheckpoint) => FinalCheckpointing
    case (ShuttingDown, FinishShutdown) => End
    case (FinalCheckpointing, FinishCheckpoint) => ShuttingDown
    case (End, Cleanup) => End
    case _ => Error
  }

  /** The three actions that the record processor carries out. */
  datatype Kind = Initialize | ProcessRecords | Shutdown

  function Begin(t: Kind): Input {
    match t
    case Initialize => BeginInitialize
    case ProcessRecords => BeginProcessRecords
    case Shutdown => BeginShutdown
  }

  function Finish(t: Kind): Input {
    match t
    case Initialize => FinishInitialize
    case ProcessRecords => FinishProcessRecords
    case Shutdown => FinishShutdown
  }

  /** A function of the user, or none where the user passed none. */
  type Callback = Option<nat>

  /** What happens, in order: an action is handed to the record processor, a status or a
      checkpoint is sent to the daemon, a response is passed on, a call is turned down. */
  datatype Entry =
    | Delivered(kind: Kind)
    | Status(kind: Kind)
    | Requested(sequence: Option<nat>, callback: Callback)
    | Answered(callback: Callback)
    | Refused(callback: Callback)

  datatype Kcl = Kcl(state: State, listening: bool, callback: Callback, log: seq<Entry>)

  /** What can happen to the client, in any order: actions of the daemon, the user's calls of
      the callbacks handed out and of the checkpointer, failed writes, the end of the input. */
  datatype Event =
    | Action(kind: Kind)
    | CheckpointResponse
    | InvalidAction
    | Finished(kind: Kind)
    | CheckpointCall(sequence: Option<nat>, callback: Callback)
    | WriteFailed
    | EndOfInput

  /** The state machine refuses an input: clean up and throw. */
  function Fail(k: Kcl): Kcl {
    k.(state := Error, listening := false)
  }

  function Moved(k: Kcl, i: Input, e: Entry): Kcl {
    if Next(k.state, i) == Error then Fail(k) else k.(state := Next(k.state, i), log := k.log + [e])
  }

  function Exec(k: Kcl, e: Event): Kcl {
    match e
    case Action(t) => if !k.listening then k else Moved(k, Begin(t), Delivered(t))
    case CheckpointResponse =>
      if !k.listening then k
      else if Next(k.state, FinishCheckpoint) == Error then Fail(k)
      else Moved(k, FinishCheckpoint, Answered(k.callback)).(callback := None)
    case InvalidAction => k
    case Finished(t) => Moved(k, Finish(t), Status(t))
    case CheckpointCall(n, f) =>
      if k.callback.Some? then k.(log := k.log + [Refused(f)])
      else Moved(k.(callback := f), BeginCheckpoint, Requested(n, f))
    case WriteFailed => Fail(k)
    case EndOfInput =>
      if !k.listening then k
      else if Next(k.state, Cleanup) == Error then Fail(k)
      else k.(listening := false)
  }

  /** After run(). */
  const STARTED := Kcl(Start, true, None, [])

  function Run(events: seq<Event>): Kcl
    decreases |events|
  {
    if events == [] then STARTED else Exec(Run(events[..|events| - 1]), events[|events| - 1])
  }

  // ----- what the log says -----------------------------------------------------------------------

  /** Kinds of the actions delivered, and of the statuses sent. */
  function Deliveries(log: seq<Entry>): seq<Kind> {
    if log == [] then []
    else
      var last := log[|log| - 1];
      Deliveries(log[..|log| - 1]) + if last.Delivered? then [last.kind] else []
  }

  function Statuses(log: seq<Entry>): seq<Kind> {
    if log == [] then []
    else
      var last := log[|log| - 1];
      Statuses(log[..|log| - 1]) + if last.Status? then [last.kind] else []
  }

  /** Callbacks of the checkpoints sent, and of the responses passed on. */
  function Requests(log: seq<Entry>): seq<Callback> {
    if log == [] then []
    else
      var last := log[|log| - 1];
      Requests(log[..|log| - 1]) + if last.Requested? then [last.callback] else []
  }

  function Answers(log: seq<Entry>): seq<Callback> {
    if log == [] then []
    else
      var last := log[|log| - 1];
      Answers(log[..|log| - 1]) + if last.Answered? then [last.callback] else []
  }

  /** Messages sent to the daemon. */
  function Sent(log: seq<Entry>): seq<Entry> {
    if log == [] then []
    else
      var last := log[|log| - 1];
      Sent(log[..|log| - 1]) + if last.Status? || last.Requested? then [last] else []
  }

  lemma LogSnoc(log: seq<Entry>, e: Entry)
    ensures Deliveries(log + [e]) == Deliveries(log) + if e.Delivered? then [e.kind] else []
    ensures Statuses(log + [e]) == Statuses(log) + if e.Status? then [e.kind] else []
    ensures Requests(log + [e]) == Requests(log) + if e.Requested? then [e.callback] else []
    ensures Answers(log + [e]) == Answers(log) + if e.Answered? then [e.callback] else []
    ensures Sent(log + [e]) == Sent(log) + if e.Status? || e.Requested? then [e] else []
  {
    assert (log + [e])[..|log + [e]| - 1] == log;
  }

  // ----- the protocol, said without the state machine ------------------------------------------------

  predicate Acknowledged(log: seq<Entry>) {
    Statuses(log) == Deliveries(log)
  }

  predicate Quiet(log: seq<Entry>) {
    Answers(log) == Requests(log)
  }

  /** The action being carried out: delivered and not yet acknowledged. */
  predicate Busy(log: seq<Entry>, t: Kind) {
    Deliveries(log) == Statuses(log) + [t]
  }

  /** When an entry may follow a log.  An action is delivered only when all before it are
      acknowledged; first initialize, and only once; nothing after shutdown.  A status answers
      the one action under way, with no checkpoint pending.  A checkpoint is requested only
      while records or the shutdown are processed and no other is pending.  A response goes to
      the callback of the one pending request. */
  predicate MayFollow(log: seq<Entry>, e: Entry) {
    match e
    case Delivered(t) =>
      Acknowledged(log) && Quiet(log) && Shutdown !in Deliveries(log) && (t == Initialize <==> Deliveries(log) == [])
    case Status(t) => Busy(log, t) && Quiet(log)
    case Requested(_, f) => (Busy(log, ProcessRecords) || Busy(log, Shutdown)) && Quiet(log)
    case Answered(f) => Requests(log) == Answers(log) + [f]
    case Refused(_) => true
  }

  predicate LogOk(log: seq<Entry>) {
    forall i :: 0 <= i < |log| ==> MayFollow(log[..i], log[i])
  }

  lemma LogOkSnoc(log: seq<Entry>, e: Entry)
    requires LogOk(log) && MayFollow(log, e)
    ensures LogOk(log + [e])
  {
    var log' := log + [e];
    forall i | 0 <= i < |log'| ensures MayFollow(log'[..i], log'[i]) {
      if i < |log| { assert log'[..i] == log[..i]; } else { assert log'[..i] == log; }
    }
  }

  // ----- the invariant -----------------------------------------------------------------------------

  /** What the state says about the log. */
  predicate Matches(s: State, log: seq<Entry>) {
    match s
    case Start => Deliveries(log) == [] && Acknowledged(log) && Quiet(log)
    case Initializing => Deliveries(log) == [Initialize] && Busy(log, Initialize) && Quiet(log)
    case Ready => Deliveries(log) != [] && Shutdown !in Deliveries(log) && Acknowledged(log) && Quiet(log)
    case Processing => Busy(log, ProcessRecords) && Shutdown !in Statuses(log) && Quiet(log)
    case Checkpointing => Busy(log, ProcessRecords) && Shutdown !in Statuses(log)
    case ShuttingDown => Busy(log, Shutdown) && Quiet(log)
    case FinalCheckpointing => Busy(log, Shutdown)
    case End => Shutdown in Deliveries(log) && Acknowledged(log) && Quiet(log)
    case Error => true
  }

  predicate Pending(s: State) {
    s == Checkpointing || s == FinalCheckpointing
  }

  /** The stored callback is that of the one pending checkpoint; without one there is none. */
  predicate CallbackOk(k: Kcl) {
    if Pending(k.state) then Requests(k.log) == Answers(k.log) + [k.callback]
    else k.state != Error ==> k.callback == None
  }

  predicate Inv(k: Kcl) {
    LogOk(k.log) && Matches(k.state, k.log) && CallbackOk(k)
  }

  /** The entry that an input makes. */
  predicate Records(i: Input, e: Entry, stored: Callback) {
    match e
    case Delivered(t) => i == Begin(t)
    case Status(t) => i == Finish(t)
    case Requested(_, f) => i == BeginCheckpoint
    case Answered(f) => i == FinishCheckpoint && f == stored
    case Refused(_) => false
  }

  lemma BusyWithOne(log: seq<Entry>)
    ensures forall t :: Busy(log, t) ==> |Deliveries(log)| == |Statuses(log)| + 1 && Deliveries(log)[|Statuses(log)|] == t
  {
  }

  lemma DeliveryAccepted(k: Kcl, t: Kind)
    requires Inv(k) && k.state != Error
    ensures Next(k.state, Begin(t)) != Error <==> MayFollow(k.log, Delivered(t))
  {
    BusyWithOne(k.log);
  }

  lemma StatusAccepted(k: Kcl, t: Kind)
    requires Inv(k) && k.state != Error
    ensures Next(k.state, Finish(t)) != Error <==> MayFollow(k.log, Status(t))
  {
    BusyWithOne(k.log);
  }

  lemma RequestAccepted(k: Kcl, n: Option<nat>, f: Callback)
    requires Inv(k) && k.state != Error
    ensures Next(k.state, BeginCheckpoint) != Error <==> MayFollow(k.log, Requested(n, f))
  {
    BusyWithOne(k.log);
  }

  lemma ResponseAccepted(k: Kcl)
    requires Inv(k) && k.state != Error
    ensures Next(k.state, FinishCheckpoint) != Error <==> MayFollow(k.log, Answered(k.callback))
  {
  }

  lemma EntryAllowed(k: Kcl, i: Input, e: Entry)
    requires Inv(k) && Next(k.state, i) != Error && Records(i, e, k.callback)
    ensures MayFollow(k.log, e)
  {
    match e
    case Delivered(t) => DeliveryAccepted(k, t);
    case Status(t) => StatusAccepted(k, t);
    case Requested(n, f) => RequestAccepted(k, n, f);
    case Answered(_) => ResponseAccepted(k);
  }

  lemma MatchesAfterDelivery(k: Kcl, t: Kind, log: seq<Entry>)
    requires Matches(k.state, k.log) && Next(k.state, Begin(t)) != Error && log == k.log + [Delivered(t)]
    ensures Matches(Next(k.state, Begin(t)), log)
  {
    LogSnoc(k.log, Delivered(t));
  }

  lemma MatchesAfterStatus(k: Kcl, t: Kind, log: seq<Entry>)
    requires Matches(k.state, k.log) && Next(k.state, Finish(t)) != Error && log == k.log + [Status(t)]
    ensures Matches(Next(k.state, Finish(t)), log)
  {
    LogSnoc(k.log, Status(t));
  }

  lemma MatchesAfterCheckpoint(k: Kcl, i: Input, e: Entry, log: seq<Entry>)
    requires Inv(k) && Next(k.state, i) != Error && log == k.log + [e] && Records(i, e, k.callback)
    requires e.Requested? || e.Answered?
    ensures Matches(Next(k.state, i), log)
  {
    LogSnoc(k.log, e);
  }

  lemma NewStateMatches(k: Kcl, i: Input, e: Entry, log: seq<Entry>)
    requires Inv(k) && Next(k.state, i) != Error && log == k.log + [e] && Records(i, e, k.callback)
    ensures Matches(Next(k.state, i), log)
  {
    match e {
      case Delivered(t) => MatchesAfterDelivery(k, t, log);
      case Status(t) => MatchesAfterStatus(k, t, log);
      case _ => MatchesAfterCheckpoint(k, i, e, log);
    }
  }

  lemma StateAndLogKept(k: Kcl, i: Input, e: Entry)
    requires Inv(k) && Next(k.state, i) != Error && Records(i, e, k.callback)
    ensures LogOk(k.log + [e]) && Matches(Next(k.state, i), k.log + [e])
  {
    EntryAllowed(k, i, e);
    LogOkSnoc(k.log, e);
    NewStateMatches(k, i, e, k.log + [e]);
  }

  lemma ExecKeeps(k: Kcl, e: Event)
    requires Inv(k)
    ensures Inv(Exec(k, e))
  {
    match e {
      case Action(t) => MovedKeeps(k, Begin(t), Delivered(t));
      case CheckpointResponse => ResponseKeeps(k);
      case InvalidAction =>
      case Finished(t) => MovedKeeps(k, Finish(t), Status(t));
      case CheckpointCall(n, f) => CallKeeps(k, n, f);
      case WriteFailed =>
      case EndOfInput =>
    }
  }

  lemma MovedKeeps(k: Kcl, i: Input, e: Entry)
    requires Inv(k) && (e.Delivered? || e.Status?) && Records(i, e, k.callback)
    ensures Inv(Moved(k, i, e))
  {
    if Next(k.state, i) != Error { StateAndLogKept(k, i, e); }
  }

  lemma ResponseKeeps(k: Kcl)
    requires Inv(k)
    ensures Inv(Exec(k, CheckpointResponse))
  {
    if Next(k.state, FinishCheckpoint) != Error { StateAndLogKept(k, FinishCheckpoint, Answered(k.callback)); }
  }

  lemma RefusedChangesNothing(log: seq<Entry>, f: Callback)
    ensures var log' := log + [Refused(f)];
            && Deliveries(log') == Deliveries(log) && Statuses(log') == Statuses(log)
            && Requests(log') == Requests(log) && Answers(log') == Answers(log)
  {
    LogSnoc(log, Refused(f));
  }

  lemma SameMatches(s: State, log: seq<Entry>, log': seq<Entry>)
    requires Deliveries(log') == Deliveries(log) && Statuses(log') == Statuses(log)
    requires Requests(log') == Requests(log) && Answers(log') == Answers(log)
    ensures Matches(s, log') == Matches(s, log)
  {
  }

  lemma RefusedKeeps(k: Kcl, f: Callback)
    requires Inv(k)
    ensures Inv(k.(log := k.log + [Refused(f)]))
  {
    LogOkSnoc(k.log, Refused(f));
    RefusedChangesNothing(k.log, f);
    SameMatches(k.state, k.log, k.log + [Refused(f)]);
  }

  lemma RequestKeeps(k: Kcl, n: Option<nat>, f: Callback)
    requires Inv(k) && Next(k.state, BeginCheckpoint) != Error
    ensures Inv(Kcl(Next(k.state, BeginCheckpoint), k.listening, f, k.log + [Requested(n, f)]))
  {
    StateAndLogKept(k, BeginCheckpoint, Requested(n, f));
    RequestAccepted(k, n, f);
    RequestAwaits(k.log, n, f);
    BeginsPending(k.state);
  }

  lemma RequestAwaits(log: seq<Entry>, n: Option<nat>, f: Callback)
    requires Quiet(log)
    ensures var log' := log + [Requested(n, f)]; Requests(log') == Answers(log') + [f]
  {
    LogSnoc(log, Requested(n, f));
  }

  lemma BeginsPending(s: State)
    ensures Next(s, BeginCheckpoint) == Error || Pending(Next(s, BeginCheckpoint))
  {
  }

  lemma FailKeeps(k: Kcl)
    requires LogOk(k.log)
    ensures Inv(Fail(k))
  {
  }

  lemma CallIs(k: Kcl, n: Option<nat>, f: Callback)
    ensures Exec(k, CheckpointCall(n, f)) ==
            if k.callback.Some? then k.(log := k.log + [Refused(f)])
            else if Next(k.state, BeginCheckpoint) == Error then Fail(k.(callback := f))
            else Kcl(Next(k.state, BeginCheckpoint), k.listening, f, k.log + [Requested(n, f)])
  {
  }

  lemma CallKeeps(k: Kcl, n: Option<nat>, f: Callback)
    requires Inv(k)
    ensures Inv(Exec(k, CheckpointCall(n, f)))
  {
    CallIs(k, n, f);
    if k.callback.Some? {
      RefusedKeeps(k, f);
    } else if Next(k.state, BeginCheckpoint) != Error {
      RequestKeeps(k, n, f);
    } else {
      FailKeeps(k.(callback := f));
    }
  }

  lemma {:induction false} RunInv(events: seq<Event>)
    ensures Inv(Run(events))
    decreases |events|
  {
    if events != [] {
      RunInv(events[..|events| - 1]);
      ExecKeeps(Run(events[..|events| - 1]), events[|events| - 1]);
    }
  }

  // ----- the protocol accepts what the client accepts ---------------------------------------------------

  /** The callback of the request that is not answered yet. */
  function Awaiting(log: seq<Entry>): Callback {
    if Quiet(log) || Requests(log) == [] then None else Requests(log)[|Requests(log)| - 1]
  }

  lemma StoredIsAwaiting(k: Kcl)
    requires Inv(k) && k.state != Error
    ensures k.callback == Awaiting(k.log)
  {
  }

  /** An event that makes an entry of the log, or would like to; the others are InvalidAction,
      WriteFailed and EndOfInput. */
  predicate Attempts(e: Event) {
    e.Action? || e.CheckpointResponse? || e.Finished? || e.CheckpointCall?
  }

  /** That entry: a call of the checkpointer is turned down while another awaits its answer. */
  function Attempt(log: seq<Entry>, e: Event): Entry
    requires Attempts(e)
  {
    match e
    case Action(t) => Delivered(t)
    case CheckpointResponse => Answered(Awaiting(log))
    case Finished(t) => Status(t)
    case CheckpointCall(n, f) => if Awaiting(log).Some? then Refused(f) else Requested(n, f)
  }

  /** A session with the daemon as its log tells it: no state but the log. */
  datatype Session = Session(log: seq<Entry>, listening: bool) | Broken

  /** What an event makes of a session, by the protocol alone.  The input may end only once
      shutdown is acknowledged; what comes from the daemon after that is not heard. */
  function After(s: Session, e: Event): Session {
    if s.Broken? then Broken
    else if (e.Action? || e.CheckpointResponse? || e.EndOfInput?) && !s.listening then s
    else match e
      case InvalidAction => s
      case WriteFailed => Broken
      case EndOfInput => if Shutdown in Deliveries(s.log) && Acknowledged(s.log) && Quiet(s.log) then Session(s.log, false) else Broken
      case _ =>
        if MayFollow(s.log, Attempt(s.log, e)) then Session(s.log + [Attempt(s.log, e)], s.listening) else Broken
  }

  function SessionOf(events: seq<Event>): Session
    decreases |events|
  {
    if events == [] then Session([], true) else After(SessionOf(events[..|events| - 1]), events[|events| - 1])
  }

  function Seen(k: Kcl): Session {
    if k.state == Error then Broken else Session(k.log, k.listening)
  }

  lemma MovedAsProtocol(k: Kcl, i: Input, e: Entry)
    requires k.state != Error && (Next(k.state, i) != Error <==> MayFollow(k.log, e))
    ensures Seen(Moved(k, i, e)) == if MayFollow(k.log, e) then Session(k.log + [e], k.listening) else Broken
  {
  }

  lemma ResponseAsProtocol(k: Kcl)
    requires Inv(k) && k.state != Error
    ensures Seen(Exec(k, CheckpointResponse)) == After(Seen(k), CheckpointResponse)
  {
    StoredIsAwaiting(k);
    ResponseAccepted(k);
    MovedAsProtocol(k, FinishCheckpoint, Answered(k.callback));
  }

  lemma CallAsProtocol(k: Kcl, n: Option<nat>, f: Callback)
    requires Inv(k) && k.state != Error
    ensures Seen(Exec(k, CheckpointCall(n, f))) == After(Seen(k), CheckpointCall(n, f))
  {
    StoredIsAwaiting(k);
    RequestAccepted(k, n, f);
    CallIs(k, n, f);
  }

  lemma EndAccepted(k: Kcl)
    requires Inv(k) && k.state != Error
    ensures Next(k.state, Cleanup) != Error <==> Shutdown in Deliveries(k.log) && Acknowledged(k.log) && Quiet(k.log)
  {
    BusyWithOne(k.log);
  }

  lemma ExecAsProtocol(k: Kcl, e: Event)
    requires Inv(k) && (k.state == Error ==> !k.listening)
    ensures Seen(Exec(k, e)) == After(Seen(k), e)
  {
    if k.state == Error {
      ErrorIsFinal(k, e);
    } else {
      match e {
        case Action(t) =>
          DeliveryAccepted(k, t);
          MovedAsProtocol(k, Begin(t), Delivered(t));
        case CheckpointResponse => ResponseAsProtocol(k);
        case InvalidAction =>
        case Finished(t) =>
          StatusAccepted(k, t);
          MovedAsProtocol(k, Finish(t), Status(t));
        case CheckpointCall(n, f) => CallAsProtocol(k, n, f);
        case WriteFailed =>
        case EndOfInput => EndAccepted(k);
      }
    }
  }

  /** The client is the protocol: in every run it accepts an action, a status, a checkpoint or a
      response exactly when the log so far lets that entry follow, and otherwise breaks off. */
  lemma {:induction false} ClientIsProtocol(events: seq<Event>)
    ensures Seen(Run(events)) == SessionOf(events)
    decreases |events|
  {
    if events != [] {
      var before, e := events[..|events| - 1], events[|events| - 1];
      ClientIsProtocol(before);
      RunInv(before);
      ErrorStopsListening(before);
      ExecAsProtocol(Run(before), e);
    }
  }

  // ----- the results ----------------------------------------------------------------------------------

  /** In every run the log obeys the protocol, entry by entry. */
  lemma ProtocolObeyed(events: seq<Event>, i: nat)
    requires i < |Run(events).log|
    ensures MayFollow(Run(events).log[..i], Run(events).log[i])
  {
    RunInv(events);
  }

  lemma {:induction false} PairedLogs(log: seq<Entry>)
    requires LogOk(log)
    ensures Statuses(log) <= Deliveries(log) && |Deliveries(log)| <= |Statuses(log)| + 1
    ensures Answers(log) <= Requests(log) && |Requests(log)| <= |Answers(log)| + 1
    decreases |log|
  {
    if log != [] {
      var before, e := log[..|log| - 1], log[|log| - 1];
      assert forall i :: 0 <= i < |before| ==> before[..i] == log[..i];
      PairedLogs(before);
      assert log == before + [e];
      LogSnoc(before, e);
    }
  }

  /** Checkpoints sent less responses passed on is 1 exactly in the two checkpointing states, 0
      in the other states but Error; every response goes to the callback of its own request, in
      order; the statuses sent are, kind by kind, a beginning of the actions delivered. */
  lemma CheckpointsBalance(events: seq<Event>)
    ensures var k := Run(events);
            && Answers(k.log) <= Requests(k.log)
            && (k.state != Error ==> |Requests(k.log)| - |Answers(k.log)| == if Pending(k.state) then 1 else 0)
            && Statuses(k.log) <= Deliveries(k.log) && |Deliveries(k.log)| - |Statuses(k.log)| <= 1
  {
    RunInv(events);
    PairedLogs(Run(events).log);
  }

  /** While a checkpoint is pending the stored callback is the one given with it: it is null
      exactly when the user passed none. */
  lemma CallbackStored(events: seq<Event>)
    ensures var k := Run(events);
            Pending(k.state) ==> Requests(k.log) != [] && k.callback == Requests(k.log)[|Requests(k.log)| - 1]
    ensures var k := Run(events);
            k.state != Error && !Pending(k.state) ==> k.callback == None
  {
    RunInv(events);
  }

  predicate AlwaysWithCallback(events: seq<Event>) {
    forall i :: 0 <= i < |events| && events[i].CheckpointCall? ==> events[i].callback.Some?
  }

  /** The only event that adds a request is a call with that callback. */
  lemma ExecRequests(k: Kcl, e: Event)
    ensures Requests(Exec(k, e).log) == Requests(k.log) || (e.CheckpointCall? && Requests(Exec(k, e).log) == Requests(k.log) + [e.callback])
  {
    match e {
      case Action(t) => MovedRequests(k, Begin(t), Delivered(t));
      case CheckpointResponse => MovedRequests(k, FinishCheckpoint, Answered(k.callback));
      case Finished(t) => MovedRequests(k, Finish(t), Status(t));
      case CheckpointCall(n, f) => CallRequests(k, n, f);
      case _ =>
    }
  }

  lemma MovedRequests(k: Kcl, i: Input, e: Entry)
    requires !e.Requested?
    ensures Requests(Moved(k, i, e).log) == Requests(k.log)
  {
    LogSnoc(k.log, e);
  }

  lemma CallRequests(k: Kcl, n: Option<nat>, f: Callback)
    ensures var log := Exec(k, CheckpointCall(n, f)).log;
            Requests(log) == Requests(k.log) || Requests(log) == Requests(k.log) + [f]
  {
    LogSnoc(k.log, Requested(n, f));
    LogSnoc(k.log, Refused(f));
  }

  lemma {:induction false} RequestsHaveCallbacks(events: seq<Event>)
    requires AlwaysWithCallback(events)
    ensures None !in Requests(Run(events).log)
    decreases |events|
  {
    if events != [] {
      var before, e := events[..|events| - 1], events[|events| - 1];
      RequestsHaveCallbacks(before);
      ExecRequests(Run(before), e);
    }
  }

  /** A user who always passes a callback always has one stored while a checkpoint is pending,
      so that a response never calls null. */
  lemma CallbackNeverNull(events: seq<Event>)
    requires AlwaysWithCallback(events) && Pending(Run(events).state)
    ensures Run(events).callback.Some?
  {
    CallbackStored(events);
    RequestsHaveCallbacks(events);
  }

  /** Without a callback the response does find null. */
  lemma CallbackMayBeNull()
    ensures var k := Run([Action(Initialize), Finished(Initialize), Action(ProcessRecords), CheckpointCall(None, None)]);
            k.state == Checkpointing && k.callback == None
  {
    var e1 := [Action(Initialize)];
    var e2 := e1 + [Finished(Initialize)];
    var e3 := e2 + [Action(ProcessRecords)];
    var e4 := e3 + [CheckpointCall(None, None)];
    assert e1[..0] == [] && e2[..1] == e1 && e3[..2] == e2 && e4[..3] == e3;
    assert e4 == [Action(Initialize), Finished(Initialize), Action(ProcessRecords), CheckpointCall(None, None)];
    assert Run(e1).state == Initializing && Run(e1).listening && Run(e1).callback == None;
    assert Run(e2).state == Ready && Run(e2).listening && Run(e2).callback == None;
    assert Run(e3).state == Processing && Run(e3).callback == None;
  }

  /** Records are delivered only after initialize is acknowledged, and never once shutdown has
      begun. */
  lemma RecordsInBetween(events: seq<Event>, i: nat)
    requires i < |Run(events).log| && Run(events).log[i] == Delivered(ProcessRecords)
    ensures Initialize in Statuses(Run(events).log[..i])
    ensures Shutdown !in Deliveries(Run(events).log[..i])
  {
    var log := Run(events).log;
    RunInv(events);
    assert MayFollow(log[..i], log[i]);
    assert LogOk(log[..i]) by {
      forall j | 0 <= j < i ensures MayFollow(log[..i][..j], log[..i][j]) { assert log[..i][..j] == log[..j]; }
    }
    InitializeFirst(log[..i]);
  }

  lemma {:induction false} InitializeFirst(log: seq<Entry>)
    requires LogOk(log) && Deliveries(log) != []
    ensures Deliveries(log)[0] == Initialize
    decreases |log|
  {
    var before, e := log[..|log| - 1], log[|log| - 1];
    assert LogOk(before) by {
      forall j | 0 <= j < |before| ensures MayFollow(before[..j], before[j]) { assert before[..j] == log[..j]; }
    }
    if Deliveries(before) != [] { InitializeFirst(before); }
  }

  /** Error is final, and nothing is sent or delivered after it. */
  lemma ErrorIsFinal(k: Kcl, e: Event)
    requires k.state == Error && !k.listening
    ensures Exec(k, e).state == Error && !Exec(k, e).listening
    ensures Sent(Exec(k, e).log) == Sent(k.log) && Deliveries(Exec(k, e).log) == Deliveries(k.log)
  {
    if e.CheckpointCall? { LogSnoc(k.log, Refused(e.callback)); }
  }

  lemma {:induction false} ErrorStopsListening(events: seq<Event>)
    ensures Run(events).state == Error ==> !Run(events).listening
    decreases |events|
  {
    if events != [] { ErrorStopsListening(events[..|events| - 1]); }
  }

  /** Whatever happens after an error, nothing more is sent. */
  lemma {:induction false} NothingAfterError(before: seq<Event>, after: seq<Event>)
    requires Run(before).state == Error
    ensures var k := Run(before + after);
            && k.state == Error && Sent(k.log) == Sent(Run(before).log)
            && Deliveries(k.log) == Deliveries(Run(before).log)
    decreases |after|
  {
    if after == [] {
      assert before + after == before;
    } else {
      var init, e := after[..|after| - 1], after[|after| - 1];
      NothingAfterError(before, init);
      assert (before + after)[..|before + after| - 1] == before + init;
      NothingAtError(before + init, e, Run(before + after));
    }
  }

  lemma NothingAtError(events: seq<Event>, e: Event, k: Kcl)
    requires Run(events).state == Error && k == Exec(Run(events), e)
    ensures k.state == Error && Sent(k.log) == Sent(Run(events).log)
    ensures Deliveries(k.log) == Deliveries(Run(events).log)
  {
    ErrorStopsListening(events);
    ErrorIsFinal(Run(events), e);
  }
}
