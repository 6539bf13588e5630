/**
 * The originating side of an action: sendGoalAndWait, sendCancelAndWait,
 * handleAccepted and the delivery of responses.
 */
module ActionServer {
  import opened Types
  import opened Handshake
  import opened GoalTrace

  datatype Response = Reject | Accept

  /** The fields of one ServiceActionHandle that the server side uses. */
  datatype Handle = Handle(
    goal: Slot, cancel: Slot, waitQueue: seq<Message>, handlingWait: bool, done: bool, threadStarted: bool)

  const NewHandle := Handle(EmptySlot, EmptySlot, [], false, false, false)

  /** Answers to a goal or cancel request; everything else is queued for executeAccepted. */
  predicate IsAnswer(op: Op) {
    op.GoalReject? || op.GoalAccept? || op.CancelReject? || op.CancelAccept?
  }

  /** handle() for a message whose gid is in the table. */
  function Delivered(h: Handle, m: Message): Handle {
    match m.op
    case GoalReject => h.(goal := Offer(h.goal, m))
    case GoalAccept => h.(goal := Offer(h.goal, m))
    case CancelReject => h.(cancel := Offer(h.cancel, m))
    case CancelAccept => h.(cancel := Offer(h.cancel, m))
    case _ => h.(waitQueue := h.waitQueue + [m])
  }

  /** How a waiting call returns: the answer, whether it sends a cancel, whether it gives up the handle. */
  datatype Return = Return(response: Response, sendsCancel: bool, removes: bool)

  /** sendGoalAndWait after the wait; no response means the ten seconds have passed. */
  function GoalReturn(h: Handle): Return {
    match h.goal.response
    case None => Return(Reject, true, true)
    case Some(m) => if m.op.GoalAccept? then Return(Accept, false, false) else Return(Reject, false, true)
  }

  /** sendCancelAndWait after the wait. */
  function CancelReturn(h: Handle): Return {
    match h.cancel.response
    case None => Return(Reject, false, false)
    case Some(m) => if m.op.CancelAccept? then Return(Accept, false, !h.handlingWait) else Return(Reject, false, false)
  }

  // ---------- one goal on the originating side ----------

  /** Where the call of sendGoalAndWait for a goal stands. */
  datatype GoalCall = NotCalled | Inserted | FlagRaised | Waiting | Answered(response: Response) | TimedOut

  datatype Thread = NotStarted | Looping | Ended

  /**
   * A goal id and everything the server side holds for it. The last fields are
   * history: what was pushed to the wait queue, what executeAccepted took, the
   * calls it made, how many CANCELs were sent, and whether a cancel call was
   * accepted.
   */
  datatype Goal = Goal(
    gid: Bytes, handle: Handle, call: GoalCall, inTable: bool, toRemove: bool,
    cancelsRaised: nat, cancelsWaiting: nat, thread: Thread,
    arrived: seq<Message>, consumed: seq<Message>, calls: seq<Call>, cancels: nat, cancelAccepted: bool)

  function NewGoal(gid: Bytes): Goal {
    Goal(gid, NewHandle, NotCalled, false, false, 0, 0, NotStarted, [], [], [], 0, false)
  }

  /** Steps of the server side; each is what happens between two lock or atomic accesses. */
  datatype Event =
    | InsertHandle                      // sendGoalAndWait: a fresh goal id enters the table
    | RaiseGoalFlag
    | SendGoalRequest(content: Option<Bytes>)
    | ReturnFromGoal                    // on a response, or after ten seconds without one
    | RaiseCancelFlag                   // sendCancelAndWait, any number of times once accepted
    | SendCancelRequest
    | ReturnFromCancel
    | AcceptedCallback                  // handleAccepted
    | TakeMessage                       // one iteration of executeAccepted
    | EraseHandle                       // one iteration of executeRemove

  function CancelMessage(gid: Bytes): Message {
    Message(CancelRequest, gid, Some([]))
  }

  predicate Enabled(g: Goal, e: Event) {
    match e
    case InsertHandle => g.call.NotCalled?
    case RaiseGoalFlag => g.call.Inserted?
    case SendGoalRequest(_) => g.call.FlagRaised?
    case ReturnFromGoal => g.call.Waiting?
    case RaiseCancelFlag => g.call == Answered(Accept) && g.inTable
    case SendCancelRequest => g.cancelsRaised > 0
    case ReturnFromCancel => g.cancelsWaiting > 0
    case AcceptedCallback => g.call == Answered(Accept)
    case TakeMessage => g.thread.Looping? && g.handle.waitQueue != []
    case EraseHandle => g.toRemove && g.inTable
  }

  function GoalReturned(g: Goal): (Goal, seq<Message>) {
    var r := GoalReturn(g.handle);
    var g' := g.(handle := g.handle.(goal := Close(g.handle.goal)), toRemove := g.toRemove || r.removes);
    if r.sendsCancel then (g'.(call := TimedOut, cancels := g.cancels + 1), [CancelMessage(g.gid)])
    else (g'.(call := Answered(r.response)), [])
  }

  function CancelReturned(g: Goal): Goal
    requires g.cancelsWaiting > 0
  {
    var r := CancelReturn(g.handle);
    g.(handle := g.handle.(cancel := Close(g.handle.cancel)), cancelsWaiting := g.cancelsWaiting - 1,
       toRemove := g.toRemove || r.removes, cancelAccepted := g.cancelAccepted || r.response.Accept?)
  }

  /** One message taken by executeAccepted. */
  function Taken(g: Goal): Goal
    requires g.handle.waitQueue != []
  {
    var m := g.handle.waitQueue[0];
    var (made, ends) := Reaction(m);
    var g' := g.(handle := g.handle.(waitQueue := g.handle.waitQueue[1..]),
                 consumed := g.consumed + [m], calls := g.calls + made);
    if !ends then g'
    else g'.(handle := g'.handle.(done := true, handlingWait := false), toRemove := true, thread := Ended)
  }

  function CancelRaised(g: Goal): Goal {
    g.(handle := g.handle.(cancel := Arm(g.handle.cancel)), cancelsRaised := g.cancelsRaised + 1)
  }

  /** handleAccepted: starts the thread once; otherwise a CANCEL is sent. */
  function Accepted(g: Goal): (Goal, seq<Message>) {
    if !g.inTable then (g.(cancels := g.cancels + 1), [CancelMessage(g.gid)])
    else if g.handle.threadStarted then (g.(cancels := g.cancels + 1, toRemove := true), [CancelMessage(g.gid)])
    else (g.(handle := g.handle.(handlingWait := true, threadStarted := true), thread := Looping), [])
  }

  /** One step: the new state and the messages sent. A step that is not enabled does nothing. */
  function Step(g: Goal, e: Event): (Goal, seq<Message>) {
    if !Enabled(g, e) then (g, [])
    else match e
      case InsertHandle => (g.(call := Inserted, inTable := true), [])
      case RaiseGoalFlag => (g.(call := FlagRaised, handle := g.handle.(goal := Arm(g.handle.goal))), [])
      case SendGoalRequest(content) => (g.(call := Waiting), [Message(GoalRequest, g.gid, content)])
      case ReturnFromGoal => GoalReturned(g)
      case RaiseCancelFlag => (CancelRaised(g), [])
      case SendCancelRequest =>
        (g.(cancelsRaised := g.cancelsRaised - 1, cancelsWaiting := g.cancelsWaiting + 1, cancels := g.cancels + 1),
         [CancelMessage(g.gid)])
      case ReturnFromCancel => (CancelReturned(g), [])
      case AcceptedCallback => Accepted(g)
      case TakeMessage => (Taken(g), [])
      case EraseHandle => (g.(inTable := false), [])
  }

  /** handle() for this goal id: dropped when the handle has left the table. */
  function Deliver(g: Goal, m: Message): Goal {
    if !g.inTable then g
    else g.(handle := Delivered(g.handle, m), arrived := if IsAnswer(m.op) then g.arrived else g.arrived + [m])
  }

  // ---------- the objects ----------

  /**
   * `goal` is the goal this handle stands for; the fields are its handle and the calls made on the
   * local goal handle.
   */
  class ServiceActionHandle {
    const gID: Bytes
    var goalResponse: Option<Message>
    var handlingGoal: bool
    var cancelResponse: Option<Message>
    var handlingCancel: bool
    var waitQueue: seq<Message>
    var handlingWait: bool
    var done: bool
    var threadStarted: bool   // thread.joinable()
    var calls: seq<Call>
    ghost var goal: Goal

    constructor (gID: Bytes)
      ensures this.gID == gID && Matches() && goal == Step(NewGoal(gID), InsertHandle).0
    {
      this.gID := gID;
      goalResponse, handlingGoal, cancelResponse, handlingCancel := None, false, None, false;
      waitQueue, handlingWait, done, threadStarted, calls := [], false, false, false, [];
      goal := Step(NewGoal(gID), InsertHandle).0;
    }

    ghost function State(): Handle
      reads this
    {
      Handle(Slot(goalResponse, handlingGoal), Slot(cancelResponse, handlingCancel),
             waitQueue, handlingWait, done, threadStarted)
    }

    ghost predicate Matches()
      reads this
    {
      goal.gid == gID && goal.handle == State() && goal.calls == calls
    }
  }

  /**
   * Every method performs one step of the goal its handle stands for. Frames
   * say that no other goal changes, except that two handles of one gid share
   * its place in the table.
   */
  class Server {
    var handles: map<Bytes, ServiceActionHandle>
    var toRemove: seq<ServiceActionHandle>
    var sent: seq<Message>

    ghost predicate Valid()
      reads this
    {
      forall gid <- handles :: handles[gid].gID == gid
    }

    /** The goal of a handle, with its place in the table. */
    ghost function GoalOf(h: ServiceActionHandle): Goal
      reads this, h
    {
      h.goal.(inTable := h.gID in handles && handles[h.gID] == h)
    }

    constructor ()
      ensures Valid() && handles == map[] && toRemove == [] && sent == []
    {
      handles, toRemove, sent := map[], [], [];
    }

    method Send(op: Op, gid: Bytes, data: Bytes)
      modifies this`sent
      ensures sent == old(sent) + [Message(op, gid, Some(data))]
    {
      sent := sent + [Message(op, gid, Some(data))];
    }

    method RemoveHandle(handle: ServiceActionHandle)
      modifies this`toRemove
      ensures toRemove == old(toRemove) + [handle]
    {
      toRemove := toRemove + [handle];
    }

    /** A message from the other side; an unknown gid changes nothing. */
    method HandleMessage(message: Message)
      requires Valid() && (message.gid in handles ==> handles[message.gid].Matches())
      modifies if message.gid in handles then {handles[message.gid]} else {}
      ensures Valid()
      ensures message.gid in handles ==>
                var h := handles[message.gid]; h.Matches() && GoalOf(h) == Deliver(old(GoalOf(h)), message)
    {
      if message.gid !in handles { return; }
      var it := handles[message.gid];
      if message.op.GoalReject? || message.op.GoalAccept? {
        if it.handlingGoal { it.goalResponse := Some(message); }
      } else if message.op.CancelAccept? || message.op.CancelReject? {
        if it.handlingCancel { it.cancelResponse := Some(message); }
      } else {
        it.waitQueue := it.waitQueue + [message];
      }
      it.goal := Deliver(GoalOf(it), message);
    }

    /** sendGoalAndWait, up to the table: a known gid is not replaced, and the new handle is in nobody's reach. */
    method Enter(gid: Bytes) returns (handle: ServiceActionHandle)
      requires Valid()
      modifies this`handles
      ensures Valid() && fresh(handle) && handle.gID == gid && handle.Matches()
      ensures handles == if gid in old(handles) then old(handles) else old(handles)[gid := handle]
      ensures GoalOf(handle) == Step(NewGoal(gid), InsertHandle).0.(inTable := gid !in old(handles))
    {
      handle := new ServiceActionHandle(gid);
      if gid !in handles { handles := handles[gid := handle]; }
    }

    method RaiseFlag(handle: ServiceActionHandle)
      requires Valid() && handle.Matches() && Enabled(GoalOf(handle), RaiseGoalFlag)
      modifies handle
      ensures Valid() && handle.Matches() && GoalOf(handle) == Step(old(GoalOf(handle)), RaiseGoalFlag).0
    {
      handle.goalResponse := None;
      handle.handlingGoal := true;
      handle.goal := Step(GoalOf(handle), RaiseGoalFlag).0;
    }

    method SendGoal(handle: ServiceActionHandle, data: Bytes)
      requires Valid() && handle.Matches() && Enabled(GoalOf(handle), SendGoalRequest(Some(data)))
      modifies this`sent, handle`goal
      ensures Valid() && handle.Matches() && GoalOf(handle) == Step(old(GoalOf(handle)), SendGoalRequest(Some(data))).0
      ensures sent == old(sent) + Step(old(GoalOf(handle)), SendGoalRequest(Some(data))).1
    {
      Send(GoalRequest, handle.gID, data);
      handle.goal := Step(GoalOf(handle), SendGoalRequest(Some(data))).0;
    }

    /** sendGoalAndWait from the end of the wait on. */
    method ReturnGoal(handle: ServiceActionHandle) returns (response: Response)
      requires Valid() && handle.Matches() && Enabled(GoalOf(handle), ReturnFromGoal)
      modifies this`sent, this`toRemove, handle
      ensures Valid() && handle.Matches() && GoalOf(handle) == Step(old(GoalOf(handle)), ReturnFromGoal).0
      ensures sent == old(sent) + Step(old(GoalOf(handle)), ReturnFromGoal).1
      ensures response.Accept? <==> old(handle.goalResponse).Some? && old(handle.goalResponse).value.op.GoalAccept?
      ensures toRemove == old(toRemove) + if response.Accept? then [] else [handle]
    {
      handle.goal := Step(GoalOf(handle), ReturnFromGoal).0;
      if handle.goalResponse.None? {
        Send(CancelRequest, handle.gID, []);
        handle.handlingGoal := false;
        RemoveHandle(handle);
        return Reject;
      }
      if handle.goalResponse.value.op.GoalAccept? {
        handle.handlingGoal := false;
        return Accept;
      }
      handle.handlingGoal := false;
      RemoveHandle(handle);
      return Reject;
    }

    /** sendCancelAndWait, up to the flag; None when the gid is unknown. */
    method RaiseCancel(gid: Bytes) returns (found: Option<ServiceActionHandle>)
      requires Valid() && (gid in handles ==> handles[gid].Matches())
      modifies if gid in handles then {handles[gid]} else {}
      ensures Valid() && (found.Some? <==> gid in handles)
      ensures found.Some? ==>
                && found.value == handles[gid] && found.value.Matches()
                && GoalOf(found.value) == CancelRaised(old(GoalOf(handles[gid])))
    {
      if gid !in handles { return None; }
      var handle := handles[gid];
      handle.cancelResponse := None;
      handle.handlingCancel := true;
      handle.goal := CancelRaised(GoalOf(handle));
      return Some(handle);
    }

    method SendCancel(handle: ServiceActionHandle)
      requires Valid() && handle.Matches() && Enabled(GoalOf(handle), SendCancelRequest)
      modifies this`sent, handle`goal
      ensures Valid() && handle.Matches() && GoalOf(handle) == Step(old(GoalOf(handle)), SendCancelRequest).0
      ensures sent == old(sent) + Step(old(GoalOf(handle)), SendCancelRequest).1
    {
      Send(CancelRequest, handle.gID, []);
      handle.goal := Step(GoalOf(handle), SendCancelRequest).0;
    }

    /** sendCancelAndWait from the end of the wait on. */
    method ReturnCancel(handle: ServiceActionHandle) returns (response: Response)
      requires Valid() && handle.Matches() && Enabled(GoalOf(handle), ReturnFromCancel)
      modifies this`toRemove, handle
      ensures Valid() && handle.Matches() && GoalOf(handle) == Step(old(GoalOf(handle)), ReturnFromCancel).0
      ensures response.Accept? <==>
                old(handle.cancelResponse).Some? && old(handle.cancelResponse).value.op.CancelAccept?
      ensures toRemove == old(toRemove) + if response.Accept? && !old(handle.handlingWait) then [handle] else []
    {
      handle.goal := Step(GoalOf(handle), ReturnFromCancel).0;
      if handle.cancelResponse.None? {
        handle.handlingCancel := false;
        return Reject;
      }
      if handle.cancelResponse.value.op.CancelAccept? {
        handle.handlingCancel := false;
        if !handle.handlingWait { RemoveHandle(handle); }
        return Accept;
      }
      handle.handlingCancel := false;
      return Reject;
    }

    /**
     * handleAccepted for the goal of `of`: true when the thread that runs
     * executeAccepted was started. Its handle may have left the table.
     */
    method HandleAccepted(gid: Bytes, ghost of: ServiceActionHandle) returns (started: bool)
      requires Valid() && of.Matches() && of.gID == gid && (gid in handles ==> handles[gid] == of)
      modifies this`sent, this`toRemove, of
      ensures Valid() && of.Matches() && GoalOf(of) == Accepted(old(GoalOf(of))).0
      ensures sent == old(sent) + Accepted(old(GoalOf(of))).1
      ensures started <==> gid in handles && !old(of.threadStarted)
      ensures toRemove == old(toRemove) + if gid in handles && !started then [of] else []
    {
      of.goal := Accepted(GoalOf(of)).0;
      if gid !in handles {
        Send(CancelRequest, gid, []);
        return false;
      }
      var it := handles[gid];
      if it.threadStarted {
        Send(CancelRequest, it.gID, []);
        RemoveHandle(it);
        return false;
      }
      it.handlingWait := true;
      it.threadStarted := true;
      return true;
    }

    /** One iteration of executeAccepted with a message to take; true when the loop returns. */
    method ProcessMessage(handle: ServiceActionHandle) returns (finished: bool)
      requires Valid() && handle.Matches() && Enabled(GoalOf(handle), TakeMessage)
      modifies this`toRemove, handle
      ensures Valid() && handle.Matches() && GoalOf(handle) == Step(old(GoalOf(handle)), TakeMessage).0
      ensures toRemove == old(toRemove) + if finished then [handle] else []
      ensures finished <==> old(handle.waitQueue)[0].op.IsResult()
    {
      handle.goal := Step(GoalOf(handle), TakeMessage).0;
      var message := handle.waitQueue[0];
      handle.waitQueue := handle.waitQueue[1..];
      var made, ends := React(message);
      handle.calls := handle.calls + made;
      finished := ends;
      if finished {
        handle.done := true;
        handle.handlingWait := false;
        RemoveHandle(handle);
      }
    }

    /** The removal thread, until it would block: handles leave the table by gid. */
    method ExecuteRemove()
      requires Valid()
      modifies this`toRemove, this`handles
      ensures Valid() && toRemove == []
      ensures handles == old(handles) - set h | h in old(toRemove) :: h.gID
      ensures forall h <- old(toRemove) :: h.goal.toRemove ==> GoalOf(h) == Step(old(GoalOf(h)), EraseHandle).0
    {
      ghost var removed: seq<ServiceActionHandle> := [];
      while toRemove != []
        invariant Valid() && removed + toRemove == old(toRemove)
        invariant handles == old(handles) - set h | h in removed :: h.gID
        decreases |toRemove|
      {
        var handle := toRemove[0];
        toRemove := toRemove[1..];
        removed := removed + [handle];
        handles := handles - {handle.gID};
      }
      assert removed == old(toRemove);
    }
  }
}
