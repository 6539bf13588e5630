/**
 * The remote side of an action: the table of goals, the thread that executes
 * each goal, and the plugin's callbacks.
 */
module ActionClient {
  import opened Types
  import opened GoalScripts
  import R = RemoteGoal

  /** Calls of the plugin. */
  datatype LocalCall = SendGoal(data: Bytes) | CancelGoal

  /** What a pass over a message asks of the plugin. */
  function CallsFor(limits: Limits, flags: Flags, m: Message, available: bool): seq<LocalCall> {
    match Decide(flags, m.op)
    case StartGoal => if Refused(limits, m, available) then [] else [SendGoal(m.content.value)]
    case StartCancel => [CancelGoal]
    case _ => []
  }

  /** What a pass over a message sends. */
  function SendsFor(limits: Limits, flags: Flags, m: Message, available: bool, gid: Bytes): seq<Message> {
    if Decide(flags, m.op).StartGoal? && Refused(limits, m, available) then [Message(GoalReject, gid, Some([]))] else []
  }

  /** What the plugin was asked between two states of a goal. */
  function AskedBetween(h: R.Handle, h': R.Handle): seq<LocalCall> {
    (if |h'.asked| > |h.asked| then [SendGoal(h'.asked[|h.asked|])] else [])
    + (if h'.cancelCalls > h.cancelCalls then [CancelGoal] else [])
  }

  lemma RefusalEmits(h: R.Handle)
    requires h.stage == R.Refusing(REFUSE)
    ensures R.RefusalRun(h).emitted == h.emitted + [Message(GoalReject, h.gid, Some([]))]
    ensures R.RefusalRun(h).asked == h.asked && R.RefusalRun(h).cancelCalls == h.cancelCalls
  {
  }

  lemma ExecutingAsks(h: R.Handle, limits: Limits, available: bool)
    requires h.stage.InGoal?
    ensures var refused, h' := Refused(limits, h.stage.message, available), R.GoalExecuted(h, limits, available);
            && h'.cancelCalls == h.cancelCalls
            && h'.asked == h.asked + (if refused then [] else [h.stage.message.content.value])
            && h'.emitted == h.emitted + (if refused then [Message(GoalReject, h.gid, Some([]))] else [])
  {
    var checked := R.Step(h, R.CheckGoal(limits, available));
    if checked.stage.Refusing? { RefusalEmits(checked); }
  }

  /**
   * What a pass calls and sends is what the goal's history records, so the
   * theorems about that history are about the calls of the plugin.
   */
  lemma PassIsRecorded(h: R.Handle, limits: Limits, available: bool)
    requires h.stage.AtLoopHead? && !h.flags.done && h.waitQueue != []
    ensures var m, h' := h.waitQueue[0], R.Pass(h, limits, available);
            && AskedBetween(h, h') == CallsFor(limits, h.flags, m, available)
            && h'.emitted == h.emitted + SendsFor(limits, h.flags, m, available, h.gid)
  {
    var decided := R.Step(R.Step(h, R.Take), R.Dispatch);
    if decided.stage.InGoal? { ExecutingAsks(decided, limits, available); }
  }

  /** `goal` is the remote goal this handle stands for; the fields are its flags and queue. */
  class ServiceActionHandle {
    const gID: Bytes
    var handlingGoal: bool
    var handlingCancel: bool
    var done: bool
    var waitQueue: seq<Message>
    ghost var goal: R.Handle

    constructor (gID: Bytes, message: Message)
      requires message.gid == gID
      ensures this.gID == gID && Matches() && goal == R.NewHandle(message)
    {
      this.gID := gID;
      handlingGoal, handlingCancel, done, waitQueue := false, false, false, [message];
      goal := R.NewHandle(message);
    }

    ghost predicate Matches()
      reads this
    {
      goal.gid == gID && goal.flags == Flags(handlingGoal, handlingCancel, done) && goal.waitQueue == waitQueue
    }
  }

  /**
   * Every method performs steps of the goal its handle stands for, one for each
   * access in its body. Frames say that no other goal changes.
   */
  class Client {
    var handles: map<Bytes, ServiceActionHandle>
    var toRemove: seq<ServiceActionHandle>
    var sent: seq<Message>
    var local: seq<LocalCall>
    const limits: Limits

    ghost predicate Valid()
      reads this
    {
      forall gid <- handles :: handles[gid].gID == gid
    }

    /** The goal of a handle, with its place in the table. */
    ghost function GoalOf(h: ServiceActionHandle): R.Handle
      reads this, h
    {
      h.goal.(inTable := h.gID in handles && handles[h.gID] == h)
    }

    constructor (limits: Limits)
      ensures Valid() && handles == map[] && toRemove == [] && sent == [] && local == [] && this.limits == limits
    {
      handles, toRemove, sent, local := map[], [], [], [];
      this.limits := limits;
    }

    /** A message from the other side, outside of stopping. */
    method HandleMessage(message: Message)
      requires Valid() && (message.gid in handles ==> handles[message.gid].Matches())
      modifies this`handles, this`sent, if message.gid in handles then {handles[message.gid]} else {}
      ensures Valid()
      ensures message.op.GoalRequest? && message.gid !in old(handles) ==>
                && message.gid in handles && fresh(handles[message.gid])
                && handles == old(handles)[message.gid := handles[message.gid]]
                && handles[message.gid].Matches() && GoalOf(handles[message.gid]) == R.NewHandle(message)
      ensures message.op.CancelRequest? && message.gid in old(handles) ==>
                var h := old(handles[message.gid]);
                handles == old(handles) && h.Matches()
                && GoalOf(h) == R.Push(old(GoalOf(handles[message.gid])), message)
      ensures sent == old(sent) + if (message.op.GoalRequest? && message.gid in old(handles))
                                     || (message.op.CancelRequest? && message.gid !in old(handles))
                                  then [Message(GoalReject, message.gid, Some([]))] else []
      ensures (message.op.GoalRequest? && message.gid !in old(handles)) || handles == old(handles)
      ensures message.gid in old(handles) && !message.op.CancelRequest? ==>
                GoalOf(handles[message.gid]) == old(GoalOf(handles[message.gid]))
    {
      if message.op.GoalRequest? {
        if message.gid in handles {
          sent := sent + [Message(GoalReject, message.gid, Some([]))];
          return;
        }
        var handle := new ServiceActionHandle(message.gid, message);
        handles := handles[message.gid := handle];
      } else if message.op.CancelRequest? {
        if message.gid !in handles {
          sent := sent + [Message(GoalReject, message.gid, Some([]))];
          return;
        }
        var it := handles[message.gid];
        it.waitQueue := it.waitQueue + [message];
        it.goal := R.Push(GoalOf(it), message);
      }
    }

    method Send(handle: ServiceActionHandle, op: Op, data: Bytes)
      modifies this`sent
      ensures sent == old(sent) + [Message(op, handle.gID, Some(data))]
    {
      sent := sent + [Message(op, handle.gID, Some(data))];
    }

    // The callbacks of the plugin.

    method GoalAccepted(handle: ServiceActionHandle)
      requires handle.Matches() && handle.goal.goalCb.Due?
      modifies this`sent, handle
      ensures handle.Matches() && GoalOf(handle) == R.GoalAnswered(old(GoalOf(handle)), true)
      ensures sent == old(sent) + [Message(GoalAccept, handle.gID, Some([]))]
      ensures handle.goal.emitted == old(handle.goal.emitted) + [Message(GoalAccept, handle.gID, Some([]))]
    {
      handle.goal := R.Step(GoalOf(handle), R.AnswerGoal(true));
      Send(handle, GoalAccept, []);
      handle.goal := R.Step(handle.goal, R.RunGoalCallback);
      handle.handlingGoal := false;
      handle.goal := R.Step(handle.goal, R.RunGoalCallback);
    }

    method GoalRejected(handle: ServiceActionHandle)
      requires handle.Matches() && handle.goal.goalCb.Due?
      modifies this`sent, handle
      ensures handle.Matches() && GoalOf(handle) == R.GoalAnswered(old(GoalOf(handle)), false)
      ensures sent == old(sent) + [Message(GoalAccept, handle.gID, Some([]))]
      ensures handle.goal.emitted == old(handle.goal.emitted) + [Message(GoalAccept, handle.gID, Some([]))]
    {
      handle.goal := R.Step(GoalOf(handle), R.AnswerGoal(false));
      Send(handle, GoalAccept, []);
      handle.goal := R.Step(handle.goal, R.RunGoalCallback);
      handle.done := true;
      handle.goal := R.Step(handle.goal, R.RunGoalCallback);
      handle.handlingGoal := false;
      handle.goal := R.Step(handle.goal, R.RunGoalCallback);
    }

    method CancelAccepted(handle: ServiceActionHandle)
      requires handle.Matches() && handle.goal.cancelCb.Due?
      modifies this`sent, handle
      ensures handle.Matches() && GoalOf(handle) == R.CancelAnswered(old(GoalOf(handle)), true)
      ensures sent == old(sent) + [Message(CancelAccept, handle.gID, Some([]))]
      ensures handle.goal.emitted == old(handle.goal.emitted) + [Message(CancelAccept, handle.gID, Some([]))]
    {
      handle.goal := R.Step(GoalOf(handle), R.AnswerCancel(true));
      Send(handle, CancelAccept, []);
      handle.goal := R.Step(handle.goal, R.RunCancelCallback);
      handle.done := true;
      handle.goal := R.Step(handle.goal, R.RunCancelCallback);
      handle.handlingCancel := false;
      handle.goal := R.Step(handle.goal, R.RunCancelCallback);
    }

    method CancelRejected(handle: ServiceActionHandle)
      requires handle.Matches() && handle.goal.cancelCb.Due?
      modifies this`sent, handle
      ensures handle.Matches() && GoalOf(handle) == R.CancelAnswered(old(GoalOf(handle)), false)
      ensures sent == old(sent) + [Message(CancelReject, handle.gID, Some([]))]
      ensures handle.goal.emitted == old(handle.goal.emitted) + [Message(CancelReject, handle.gID, Some([]))]
    {
      handle.goal := R.Step(GoalOf(handle), R.AnswerCancel(false));
      Send(handle, CancelReject, []);
      handle.goal := R.Step(handle.goal, R.RunCancelCallback);
      handle.handlingCancel := false;
      handle.goal := R.Step(handle.goal, R.RunCancelCallback);
    }

    /** resultSucceeded, resultCanceled and resultAborted differ in the op-code only. */
    method Result(handle: ServiceActionHandle, op: Op, data: Bytes)
      requires handle.Matches() && R.Enabled(GoalOf(handle), R.LocalResult(op, data))
      modifies this`sent, handle
      ensures handle.Matches() && GoalOf(handle) == R.ResultReported(old(GoalOf(handle)), op, data)
      ensures sent == old(sent) + [Message(op, handle.gID, Some(data))]
      ensures handle.goal.emitted == old(handle.goal.emitted) + [Message(op, handle.gID, Some(data))]
    {
      handle.goal := R.Step(GoalOf(handle), R.LocalResult(op, data));
      Send(handle, op, data);
      handle.goal := R.Step(handle.goal, R.RunResultCallback);
      handle.done := true;
      handle.goal := R.Step(handle.goal, R.RunResultCallback);
    }

    method Feedback(handle: ServiceActionHandle, data: Bytes)
      requires handle.Matches() && R.Enabled(GoalOf(handle), R.LocalFeedback(data))
      modifies this`sent, handle`goal
      ensures handle.Matches() && GoalOf(handle) == R.Step(old(GoalOf(handle)), R.LocalFeedback(data))
      ensures sent == old(sent) + R.Sent(old(GoalOf(handle)), R.LocalFeedback(data))
    {
      handle.goal := R.Step(GoalOf(handle), R.LocalFeedback(data));
      Send(handle, Types.Feedback, data);
    }

    // The executing thread.

    /** One pass of executeHandle outside of stopping; false when the thread exits or has to wait. */
    method Iterate(handle: ServiceActionHandle, available: bool) returns (more: bool)
      requires handle.Matches() && handle.goal.stage.AtLoopHead?
      modifies this`sent, this`local, this`toRemove, handle
      ensures handle.Matches() && GoalOf(handle) == R.Pass(old(GoalOf(handle)), limits, available)
      ensures more <==> !old(handle.done) && old(handle.waitQueue) != []
      ensures local == old(local)
                       + if !more then []
                         else CallsFor(limits, old(handle.goal.flags), old(handle.waitQueue)[0], available)
      ensures sent == old(sent)
                      + if !more then []
                        else SendsFor(limits, old(handle.goal.flags), old(handle.waitQueue)[0], available, handle.gID)
      ensures toRemove == old(toRemove) + if old(handle.done) then [handle] else []
    {
      handle.goal := R.Step(GoalOf(handle), R.Take);
      if handle.done {
        toRemove := toRemove + [handle];
        return false;
      }
      if handle.waitQueue == [] { return false; }
      var message := handle.waitQueue[0];
      handle.waitQueue := handle.waitQueue[1..];
      more := true;
      Handle(message, handle, available);
    }

    /** What the thread does with a message it has dequeued. */
    method Handle(message: Message, handle: ServiceActionHandle, available: bool)
      requires handle.Matches() && handle.goal.stage == R.Holding(message)
      modifies this`sent, this`local, handle
      ensures handle.Matches()
      ensures var decided := R.Step(old(GoalOf(handle)), R.Dispatch);
              GoalOf(handle) == if decided.stage.Requeuing? then R.Step(decided, R.PutBack)
                                else if decided.stage.InGoal? then R.GoalExecuted(decided, limits, available)
                                else decided
      ensures local == old(local) + CallsFor(limits, old(handle.goal.flags), message, available)
      ensures sent == old(sent) + SendsFor(limits, old(handle.goal.flags), message, available, handle.gID)
    {
      if message.op.GoalRequest? {
        HandleGoal(message, handle, available);
      } else if message.op.CancelRequest? {
        HandleCancel(message, handle);
      } else {
        handle.goal := R.Step(GoalOf(handle), R.Dispatch);
      }
    }

    /** A dequeued goal: dropped while another request is in progress. */
    method HandleGoal(message: Message, handle: ServiceActionHandle, available: bool)
      requires handle.Matches() && handle.goal.stage == R.Holding(message) && message.op.GoalRequest?
      modifies this`sent, this`local, handle
      ensures handle.Matches()
      ensures var decided := R.Step(old(GoalOf(handle)), R.Dispatch);
              GoalOf(handle) == if decided.stage.InGoal? then R.GoalExecuted(decided, limits, available) else decided
      ensures local == old(local) + CallsFor(limits, old(handle.goal.flags), message, available)
      ensures sent == old(sent) + SendsFor(limits, old(handle.goal.flags), message, available, handle.gID)
    {
      handle.goal := R.Step(GoalOf(handle), R.Dispatch);
      if handle.handlingGoal || handle.handlingCancel { return; }
      handle.handlingGoal := true;
      ExecuteGoal(message, handle, available);
    }

    /** A dequeued cancel: put back while the goal is undecided, dropped while another is in progress. */
    method HandleCancel(message: Message, handle: ServiceActionHandle)
      requires handle.Matches() && handle.goal.stage == R.Holding(message) && message.op.CancelRequest?
      modifies this`local, handle
      ensures handle.Matches()
      ensures var decided := R.Step(old(GoalOf(handle)), R.Dispatch);
              GoalOf(handle) == if decided.stage.Requeuing? then R.Step(decided, R.PutBack) else decided
      ensures local == old(local) + if Decide(old(handle.goal.flags), message.op).StartCancel? then [CancelGoal] else []
    {
      handle.goal := R.Step(GoalOf(handle), R.Dispatch);
      if handle.handlingGoal {
        handle.waitQueue := handle.waitQueue + [message];
        handle.goal := R.Step(handle.goal, R.PutBack);
        return;
      }
      if handle.handlingCancel { return; }
      ExecuteCancel(handle);
    }

    method ExecuteCancel(handle: ServiceActionHandle)
      modifies this`local, handle`handlingCancel
      ensures handle.handlingCancel && local == old(local) + [CancelGoal]
    {
      handle.handlingCancel := true;
      local := local + [CancelGoal];
    }

    /** executeGoal once its flag is up. */
    method ExecuteGoal(message: Message, handle: ServiceActionHandle, available: bool)
      requires handle.Matches() && handle.goal.stage == R.InGoal(message)
      modifies this`sent, this`local, handle
      ensures handle.Matches() && GoalOf(handle) == R.GoalExecuted(old(GoalOf(handle)), limits, available)
      ensures var refused := message.content.None? || !available
                             || !(limits.dynamicSize || |message.content.value| == limits.expectedSize);
              && local == old(local) + (if refused then [] else [SendGoal(message.content.value)])
              && sent == old(sent) + (if refused then [Message(GoalReject, handle.gID, Some([]))] else [])
    {
      handle.goal := R.Step(GoalOf(handle), R.CheckGoal(limits, available));
      if message.content.None? {
        Refuse(handle);
        return;
      }
      if !limits.dynamicSize && |message.content.value| != limits.expectedSize {
        Refuse(handle);
        return;
      }
      if !available {
        Refuse(handle);
        return;
      }
      local := local + [SendGoal(message.content.value)];
    }

    method Refuse(handle: ServiceActionHandle)
      requires handle.Matches() && handle.goal.stage == R.Refusing(REFUSE)
      modifies this`sent, handle
      ensures handle.Matches() && GoalOf(handle) == R.RefusalRun(old(GoalOf(handle)))
      ensures sent == old(sent) + [Message(GoalReject, handle.gID, Some([]))]
    {
      Send(handle, GoalReject, []);
      handle.goal := R.Step(GoalOf(handle), R.RunRefusal);
      handle.handlingGoal := false;
      handle.goal := R.Step(handle.goal, R.RunRefusal);
      handle.done := true;
      handle.goal := R.Step(handle.goal, R.RunRefusal);
    }

    /** The removal thread, until it would block: handles leave the table by gid. */
    method ExecuteRemove()
      requires Valid()
      modifies this`toRemove, this`handles
      ensures Valid() && toRemove == []
      ensures handles == old(handles) - set h | h in old(toRemove) :: h.gID
      ensures forall h <- old(toRemove) :: h.goal.stage.Exited? ==> GoalOf(h) == R.Step(old(GoalOf(h)), R.EraseHandle)
    {
      ghost var removed: seq<ServiceActionHandle> := [];
      while toRemove != []
        invariant Valid() && removed + toRemove == old(toRemove)
        invariant handles == old(handles) - set h | h in removed :: h.gID
        decreases |toRemove|
      {
        var handle := toRemove[0];
        toRemove := toRemove[1..];
        removed := removed + [handle];
        handles := handles - {handle.gID};
      }
      assert removed == old(toRemove);
    }
  }
}
