/** The objects of the Kinesis client: the manager with its state machine and the checkpointer.
    Every handler calls into user code only as its last act, so a user function that calls
    back at once is the next event.  A method that would throw returns thrown. */
module KclManager {
  import opened Prelude
  import opened KclProtocol

  class Checkpointer {
    var callback: Callback
    var manager: Manager?

    constructor ()
      ensures callback == None && manager == null
    {
      callback, manager := None, null;
    }

    /** checkpoint: turns a call down while another checkpoint is in progress; else stores the
        callback and has the manager send the request. */
    method Checkpoint(n: Option<nat>, f: Callback) returns (thrown: bool)
      requires manager != null && manager.checkpointer == this
      modifies this`callback, manager`state, manager`listening, manager`log
      ensures manager.Value() == Exec(old(manager.Value()), CheckpointCall(n, f))
    {
      if callback.Some? {
        manager.Call(Refused(f));
        return f.None?;
      }
      callback := f;
      thrown := manager.SendCheckpoint(n);
    }

    /** onCheckpointerResponse: clears the stored callback and then calls it. */
    method OnResponse() returns (thrown: bool)
      requires manager != null && manager.checkpointer == this
      modifies this`callback, manager`log
      ensures callback == None && manager.log == old(manager.log) + [Answered(old(callback))]
      ensures thrown <==> old(callback) == None
    {
      var f := callback;
      callback := None;
      manager.Call(Answered(f));
      thrown := f.None?;
    }
  }

  class Manager {
    var state: State
    var listening: bool
    var log: seq<Entry>
    const checkpointer: Checkpointer

    ghost function Value(): Kcl
      reads this, checkpointer
    {
      Kcl(state, listening, checkpointer.callback, log)
    }

    /** The manager and its checkpointer know each other. */
    ghost predicate Valid()
      reads this, checkpointer
    {
      checkpointer.manager == this
    }

    /** The manager after run(). */
    constructor ()
      ensures Valid() && Value() == STARTED && fresh(checkpointer)
    {
      state, listening, log := Start, true, [];
      checkpointer := new Checkpointer();
      new;
      checkpointer.manager := this;
    }

    /** A call into user code, which is the last act of a handler. */
    method Call(e: Entry)
      modifies this`log
      ensures log == old(log) + [e]
    {
      log := log + [e];
    }

    /** _handleStateInput: the state machine handles the input; when it refuses, clean up. */
    method HandleStateInput(input: Input) returns (thrown: bool)
      modifies this`state, this`listening
      ensures thrown == (Next(old(state), input) == Error)
      ensures state == Next(old(state), input)
      ensures listening == (old(listening) && !thrown)
    {
      var result := true;
      match state {
        case Start => if input == BeginInitialize { state := Initializing; } else { state, result := Error, false; }
        case Initializing => if input == FinishInitialize { state := Ready; } else { state, result := Error, false; }
        case Ready =>
          if input == BeginProcessRecords { state := Processing; }
          else if input == BeginShutdown { state := ShuttingDown; }
          else { state, result := Error, false; }
        case Processing =>
          if input == BeginCheckpoint { state := Checkpointing; }
          else if input == FinishProcessRecords { state := Ready; }
          else { state, result := Error, false; }
        case Checkpointing => if input == FinishCheckpoint { state := Processing; } else { state, result := Error, false; }
        case ShuttingDown =>
          if input == BeginCheckpoint { state := FinalCheckpointing; }
          else if input == FinishShutdown { state := End; }
          else { state, result := Error, false; }
        case FinalCheckpointing => if input == FinishCheckpoint { state := ShuttingDown; } else { state, result := Error, false; }
        case End => if input != Cleanup { state, result := Error, false; }
        case Error => result := false;
      }
      if !result { listening := false; }
      thrown := !result;
    }

    /** _onRecordProcessorAction. */
    method OnRecordProcessorAction(t: Kind) returns (thrown: bool)
      requires listening
      modifies this
      ensures Value() == Exec(old(Value()), Action(t))
    {
      thrown := HandleStateInput(Begin(t));
      if thrown { return; }
      log := log + [Delivered(t)];
    }

    /** _recordProcessorCallback. */
    method RecordProcessorCallback(t: Kind) returns (thrown: bool)
      modifies this
      ensures Value() == Exec(old(Value()), Finished(t))
    {
      thrown := HandleStateInput(Finish(t));
      if thrown { return; }
      log := log + [Status(t)];
    }

    /** Manager.checkpoint. */
    method SendCheckpoint(n: Option<nat>) returns (thrown: bool)
      modifies this`state, this`listening, this`log
      ensures checkpointer.callback == old(checkpointer.callback)
      ensures Value() == Moved(old(Value()), BeginCheckpoint, Requested(n, checkpointer.callback))
    {
      thrown := HandleStateInput(BeginCheckpoint);
      if thrown { return; }
      log := log + [Requested(n, checkpointer.callback)];
    }

    /** _onCheckpointAction. */
    method OnCheckpointAction() returns (thrown: bool)
      requires Valid() && listening
      modifies this, checkpointer`callback
      ensures Valid() && Value() == Exec(old(Value()), CheckpointResponse)
      ensures thrown <==> state == Error || old(checkpointer.callback) == None
    {
      thrown := HandleStateInput(FinishCheckpoint);
      if thrown { return; }
      thrown := checkpointer.OnResponse();
    }

    /** _onActionEnd. */
    method OnActionEnd() returns (thrown: bool)
      requires listening
      modifies this
      ensures Value() == Exec(old(Value()), EndOfInput)
    {
      thrown := HandleStateInput(Cleanup);
      listening := false;
    }

    /** The error callback of a write to the daemon. */
    method OnWriteError() returns (thrown: bool)
      modifies this
      ensures Value() == Exec(old(Value()), WriteFailed)
    {
      thrown := HandleStateInput(Failure);
    }
  }
}
