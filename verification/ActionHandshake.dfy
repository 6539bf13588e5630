/**
 * The answers sendGoalAndWait and sendCancelAndWait return, as a function of
 * what arrived and when: each reads a slot whose history is part of the run.
 */
module ActionHandshake {
  import opened Types
  import opened Sequences
  import opened Handshake
  import opened GoalTrace
  import opened GoalLink
  import L = ActionServer
  import R = RemoteGoal
  import S = ActionSystem

  /** What happens to one goal on the originating side: a step of its own, or a delivered message. */
  datatype Input = Does(event: L.Event) | Hears(message: Message)

  function Next(g: L.Goal, i: Input): L.Goal {
    match i
    case Does(e) => L.Step(g, e).0
    case Hears(m) => L.Deliver(g, m)
  }

  function After(gid: Bytes, inputs: seq<Input>): L.Goal
    decreases |inputs|
  {
    if inputs == [] then L.NewGoal(gid) else Next(After(gid, inputs[..|inputs| - 1]), inputs[|inputs| - 1])
  }

  /**
   * What an input does to the goal slot: only calls of sendGoalAndWait and verdicts for a handle in
   * the table touch it.
   */
  function OnGoalSlot(g: L.Goal, i: Input): seq<SlotEvent> {
    match i
    case Does(e) =>
      if !L.Enabled(g, e) then []
      else if e.RaiseGoalFlag? then [Armed]
      else if e.ReturnFromGoal? then [Closed]
      else []
    case Hears(m) => if g.inTable && (m.op.GoalAccept? || m.op.GoalReject?) then [Offered(m)] else []
  }

  function OnCancelSlot(g: L.Goal, i: Input): seq<SlotEvent> {
    match i
    case Does(e) =>
      if !L.Enabled(g, e) then []
      else if e.RaiseCancelFlag? then [Armed]
      else if e.ReturnFromCancel? then [Closed]
      else []
    case Hears(m) => if g.inTable && (m.op.CancelAccept? || m.op.CancelReject?) then [Offered(m)] else []
  }

  function GoalSlotEvents(gid: Bytes, inputs: seq<Input>): seq<SlotEvent>
    decreases |inputs|
  {
    if inputs == [] then []
    else
      var before := inputs[..|inputs| - 1];
      GoalSlotEvents(gid, before) + OnGoalSlot(After(gid, before), inputs[|inputs| - 1])
  }

  function CancelSlotEvents(gid: Bytes, inputs: seq<Input>): seq<SlotEvent>
    decreases |inputs|
  {
    if inputs == [] then []
    else
      var before := inputs[..|inputs| - 1];
      CancelSlotEvents(gid, before) + OnCancelSlot(After(gid, before), inputs[|inputs| - 1])
  }

  // Each input changes a slot as its slot event says.

  predicate Follows(slot: Slot, es: seq<SlotEvent>, after: Slot) {
    |es| <= 1 && after == if es == [] then slot else SlotStep(slot, es[0])
  }

  predicate IsCallEvent(e: L.Event) {
    e.InsertHandle? || e.RaiseGoalFlag? || e.SendGoalRequest? || e.ReturnFromGoal?
  }

  lemma CallEventFollows(g: L.Goal, e: L.Event)
    requires IsCallEvent(e)
    ensures Follows(g.handle.goal, OnGoalSlot(g, Does(e)), L.Step(g, e).0.handle.goal)
    ensures Follows(g.handle.cancel, OnCancelSlot(g, Does(e)), L.Step(g, e).0.handle.cancel)
  {
  }

  lemma CancelEventFollows(g: L.Goal, e: L.Event)
    requires e.RaiseCancelFlag? || e.SendCancelRequest? || e.ReturnFromCancel?
    ensures Follows(g.handle.goal, OnGoalSlot(g, Does(e)), L.Step(g, e).0.handle.goal)
    ensures Follows(g.handle.cancel, OnCancelSlot(g, Does(e)), L.Step(g, e).0.handle.cancel)
  {
  }

  lemma OtherEventFollows(g: L.Goal, e: L.Event)
    requires e.AcceptedCallback? || e.TakeMessage? || e.EraseHandle?
    ensures Follows(g.handle.goal, OnGoalSlot(g, Does(e)), L.Step(g, e).0.handle.goal)
    ensures Follows(g.handle.cancel, OnCancelSlot(g, Does(e)), L.Step(g, e).0.handle.cancel)
  {
  }

  lemma DeliveryFollows(g: L.Goal, m: Message)
    ensures Follows(g.handle.goal, OnGoalSlot(g, Hears(m)), L.Deliver(g, m).handle.goal)
    ensures Follows(g.handle.cancel, OnCancelSlot(g, Hears(m)), L.Deliver(g, m).handle.cancel)
  {
  }

  lemma InputFollows(g: L.Goal, i: Input)
    ensures Follows(g.handle.goal, OnGoalSlot(g, i), Next(g, i).handle.goal)
    ensures Follows(g.handle.cancel, OnCancelSlot(g, i), Next(g, i).handle.cancel)
  {
    match i
    case Hears(m) => DeliveryFollows(g, m);
    case Does(e) =>
      if IsCallEvent(e) { CallEventFollows(g, e); }
      else if e.AcceptedCallback? || e.TakeMessage? || e.EraseHandle? { OtherEventFollows(g, e); }
      else { CancelEventFollows(g, e); }
  }

  lemma SlotExtends(before: seq<SlotEvent>, es: seq<SlotEvent>)
    requires |es| <= 1
    ensures SlotAfter(before + es) == if es == [] then SlotAfter(before) else SlotStep(SlotAfter(before), es[0])
  {
    if es == [] { assert before + es == before; } else { assert (before + es)[..|before|] == before; }
  }

  lemma {:induction false} GoalSlotIsHistory(gid: Bytes, inputs: seq<Input>)
    ensures After(gid, inputs).handle.goal == SlotAfter(GoalSlotEvents(gid, inputs))
    decreases |inputs|
  {
    if inputs != [] {
      var before := inputs[..|inputs| - 1];
      GoalSlotIsHistory(gid, before);
      InputFollows(After(gid, before), inputs[|inputs| - 1]);
      SlotExtends(GoalSlotEvents(gid, before), OnGoalSlot(After(gid, before), inputs[|inputs| - 1]));
    }
  }

  lemma {:induction false} CancelSlotIsHistory(gid: Bytes, inputs: seq<Input>)
    ensures After(gid, inputs).handle.cancel == SlotAfter(CancelSlotEvents(gid, inputs))
    decreases |inputs|
  {
    if inputs != [] {
      var before := inputs[..|inputs| - 1];
      CancelSlotIsHistory(gid, before);
      InputFollows(After(gid, before), inputs[|inputs| - 1]);
      SlotExtends(CancelSlotEvents(gid, before), OnCancelSlot(After(gid, before), inputs[|inputs| - 1]));
    }
  }

  /** Some response with this op-code is the last one that arrived while the flag was up. */
  ghost predicate LastAnswerIs(es: seq<SlotEvent>, op: Op) {
    exists j :: 0 <= j < |es| && LastHeard(es, j) && es[j].Offered? && es[j].message.op == op
  }

  lemma AnswerIsLast(es: seq<SlotEvent>, op: Op)
    ensures LastAnswerIs(es, op) <==> SlotAfter(es).response.Some? && SlotAfter(es).response.value.op == op
  {
    if SlotAfter(es).response.Some? && SlotAfter(es).response.value.op == op {
      ResponseIsLastHeard(es, SlotAfter(es).response.value);
    }
    if LastAnswerIs(es, op) {
      var j :| 0 <= j < |es| && LastHeard(es, j) && es[j].Offered? && es[j].message.op == op;
      assert es[j] == Offered(es[j].message);
      ResponseIsLastHeard(es, es[j].message);
    }
  }

  /**
   * sendGoalAndWait returns ACCEPT exactly when the last verdict that arrived
   * for its handle while handlingGoal was up is GOAL_ACCEPT.
   */
  lemma GoalAcceptedIffHeard(gid: Bytes, inputs: seq<Input>)
    requires After(gid, inputs).call.Waiting?
    ensures Next(After(gid, inputs), Does(L.ReturnFromGoal)).call == L.Answered(L.Accept)
       <==> LastAnswerIs(GoalSlotEvents(gid, inputs), GoalAccept)
  {
    GoalSlotIsHistory(gid, inputs);
    AnswerIsLast(GoalSlotEvents(gid, inputs), GoalAccept);
  }

  /**
   * sendCancelAndWait returns ACCEPT exactly when the last answer that arrived while handlingCancel
   * was up is CANCEL_ACCEPT.
   */
  lemma CancelAcceptedIffHeard(gid: Bytes, inputs: seq<Input>)
    ensures L.CancelReturn(After(gid, inputs).handle).response.Accept?
       <==> LastAnswerIs(CancelSlotEvents(gid, inputs), CancelAccept)
    ensures After(gid, inputs).cancelsWaiting > 0 ==>
              (Next(After(gid, inputs), Does(L.ReturnFromCancel)).cancelAccepted
               <==> After(gid, inputs).cancelAccepted || LastAnswerIs(CancelSlotEvents(gid, inputs), CancelAccept))
  {
    CancelSlotIsHistory(gid, inputs);
    AnswerIsLast(CancelSlotEvents(gid, inputs), CancelAccept);
  }

  predicate Returned(g: L.Goal) {
    (g.call.Answered? || g.call.TimedOut?) && !g.handle.goal.handling
  }

  lemma CallEventIsOver(g: L.Goal, e: L.Event)
    requires Returned(g) && IsCallEvent(e)
    ensures L.Step(g, e).0 == g
  {
  }

  lemma OtherEventKeepsCall(g: L.Goal, e: L.Event)
    requires !IsCallEvent(e)
    ensures L.Step(g, e).0.call == g.call
  {
  }

  lemma OutcomeStays(g: L.Goal, i: Input)
    requires Returned(g)
    ensures Next(g, i).call == g.call && Next(g, i).handle.goal == g.handle.goal
  {
    InputFollows(g, i);
    if i.Does? {
      if IsCallEvent(i.event) { CallEventIsOver(g, i.event); } else { OtherEventKeepsCall(g, i.event); }
    }
  }

  /** The same outcome, from the same response. */
  predicate SameOutcome(g: L.Goal, g': L.Goal) {
    g'.call == g.call && g'.handle.goal == g.handle.goal
  }

  /** An outcome, once returned, survives every later step and message, and so does the response it came from. */
  lemma {:induction false} OutcomeSurvives(gid: Bytes, inputs: seq<Input>, more: seq<Input>)
    requires Returned(After(gid, inputs))
    ensures SameOutcome(After(gid, inputs), After(gid, inputs + more))
    decreases |more|
  {
    if more == [] {
      AppendNothing(inputs);
    } else {
      var before, i := more[..|more| - 1], more[|more| - 1];
      assert more == before + [i];
      Assoc(inputs, before, [i]);
      OutcomeSurvives(gid, inputs, before);
      OutcomeStays(After(gid, inputs + before), i);
      AfterExtends(gid, inputs + before, [i]);
    }
  }

  // ---------- when a handle is given up ----------

  /** The wait of sendGoalAndWait ends with anything but an acceptance: a refusal, or ten seconds of silence. */
  ghost predicate EndsUnaccepted(gid: Bytes, before: seq<Input>, i: Input) {
    && i == Does(L.ReturnFromGoal) && After(gid, before).call.Waiting?
    && !LastAnswerIs(GoalSlotEvents(gid, before), GoalAccept)
  }

  /** A cancel call returns an acceptance while executeAccepted is not waiting for messages. */
  ghost predicate CancelledIdle(gid: Bytes, before: seq<Input>, i: Input) {
    && i == Does(L.ReturnFromCancel) && After(gid, before).cancelsWaiting > 0
    && LastAnswerIs(CancelSlotEvents(gid, before), CancelAccept)
    && !After(gid, before).thread.Looping?
  }

  /** handleAccepted for a goal whose thread was started before. */
  ghost predicate AcceptedAgain(gid: Bytes, before: seq<Input>, i: Input) {
    var g := After(gid, before);
    i == Does(L.AcceptedCallback) && g.call == L.Answered(L.Accept) && g.inTable && !g.thread.NotStarted?
  }

  ghost predicate TakesResult(gid: Bytes, before: seq<Input>, i: Input) {
    var g := After(gid, before);
    && i == Does(L.TakeMessage) && g.thread.Looping?
    && g.handle.waitQueue != [] && g.handle.waitQueue[0].op.IsResult()
  }

  ghost predicate GivesUp(gid: Bytes, before: seq<Input>, i: Input) {
    || EndsUnaccepted(gid, before, i) || CancelledIdle(gid, before, i)
    || AcceptedAgain(gid, before, i) || TakesResult(gid, before, i)
  }

  ghost predicate GaveUp(gid: Bytes, inputs: seq<Input>) {
    exists j :: 0 <= j < |inputs| && GivesUp(gid, inputs[..j], inputs[j])
  }

  lemma GaveUpSnoc(gid: Bytes, inputs: seq<Input>)
    requires inputs != []
    ensures var before := inputs[..|inputs| - 1];
            GaveUp(gid, inputs) <==> GaveUp(gid, before) || GivesUp(gid, before, inputs[|inputs| - 1])
  {
    var last := |inputs| - 1;
    var before := inputs[..last];
    forall j | 0 <= j < last ensures before[..j] == inputs[..j] && before[j] == inputs[j] {}
    if GaveUp(gid, before) {
      var j :| 0 <= j < last && GivesUp(gid, before[..j], before[j]);
      assert GivesUp(gid, inputs[..j], inputs[j]);
    }
    if GaveUp(gid, inputs) {
      var j :| 0 <= j < |inputs| && GivesUp(gid, inputs[..j], inputs[j]);
      if j < last { assert GivesUp(gid, before[..j], before[j]); }
    }
  }

  /** The thread of executeAccepted as the handle's fields show it. */
  predicate ThreadShows(g: L.Goal) {
    && (g.handle.handlingWait <==> g.thread.Looping?)
    && (g.handle.threadStarted <==> !g.thread.NotStarted?)
    && (g.handle.done <==> g.thread.Ended?) && (g.thread.Ended? ==> g.toRemove)
    && (g.cancelsWaiting > 0 || g.cancelsRaised > 0 || !g.thread.NotStarted? ==> g.call == L.Answered(L.Accept))
  }

  lemma CallEventKeepsThread(g: L.Goal, e: L.Event)
    requires ThreadShows(g) && IsCallEvent(e)
    ensures ThreadShows(L.Step(g, e).0)
  {
  }

  lemma OtherEventKeepsThread(g: L.Goal, e: L.Event)
    requires ThreadShows(g) && !IsCallEvent(e)
    ensures ThreadShows(L.Step(g, e).0)
  {
  }

  lemma DeliveryKeepsThread(g: L.Goal, m: Message)
    requires ThreadShows(g)
    ensures ThreadShows(L.Deliver(g, m))
  {
  }

  lemma {:induction false} ThreadIsShown(gid: Bytes, inputs: seq<Input>)
    ensures ThreadShows(After(gid, inputs)) && After(gid, inputs).gid == gid
    decreases |inputs|
  {
    if inputs != [] {
      var g := After(gid, inputs[..|inputs| - 1]);
      ThreadIsShown(gid, inputs[..|inputs| - 1]);
      match inputs[|inputs| - 1]
      case Hears(m) => DeliveryKeepsThread(g, m);
      case Does(e) => if IsCallEvent(e) { CallEventKeepsThread(g, e); } else { OtherEventKeepsThread(g, e); }
    }
  }

  lemma ReturnGivesUp(g: L.Goal, accepted: bool)
    requires accepted <==> g.handle.goal.response.Some? && g.handle.goal.response.value.op.GoalAccept?
    ensures L.Step(g, L.ReturnFromGoal).0.toRemove <==> g.toRemove || (g.call.Waiting? && !accepted)
  {
  }

  lemma CancelGivesUp(g: L.Goal, accepted: bool)
    requires ThreadShows(g)
    requires accepted <==> g.handle.cancel.response.Some? && g.handle.cancel.response.value.op.CancelAccept?
    ensures L.Step(g, L.ReturnFromCancel).0.toRemove
       <==> g.toRemove || (g.cancelsWaiting > 0 && accepted && !g.thread.Looping?)
  {
  }

  lemma ThreadGivesUp(g: L.Goal)
    requires ThreadShows(g)
    ensures L.Step(g, L.AcceptedCallback).0.toRemove
       <==> g.toRemove || (g.call == L.Answered(L.Accept) && g.inTable && !g.thread.NotStarted?)
    ensures L.Step(g, L.TakeMessage).0.toRemove
       <==> g.toRemove || (g.thread.Looping? && g.handle.waitQueue != [] && g.handle.waitQueue[0].op.IsResult())
  {
  }

  lemma OthersKeepHandle(g: L.Goal, i: Input)
    requires i.Hears? || i.event.InsertHandle? || i.event.RaiseGoalFlag? || i.event.SendGoalRequest?
             || i.event.RaiseCancelFlag? || i.event.SendCancelRequest? || i.event.EraseHandle?
    ensures Next(g, i).toRemove == g.toRemove
  {
  }

  lemma InputGivesUp(gid: Bytes, before: seq<Input>, i: Input)
    ensures Next(After(gid, before), i).toRemove <==> After(gid, before).toRemove || GivesUp(gid, before, i)
  {
    var g := After(gid, before);
    ThreadIsShown(gid, before);
    GoalSlotIsHistory(gid, before);
    AnswerIsLast(GoalSlotEvents(gid, before), GoalAccept);
    CancelSlotIsHistory(gid, before);
    AnswerIsLast(CancelSlotEvents(gid, before), CancelAccept);
    if i == Does(L.ReturnFromGoal) { ReturnGivesUp(g, LastAnswerIs(GoalSlotEvents(gid, before), GoalAccept)); }
    else if i == Does(L.ReturnFromCancel) {
      CancelGivesUp(g, LastAnswerIs(CancelSlotEvents(gid, before), CancelAccept));
    }
    else if i == Does(L.AcceptedCallback) || i == Does(L.TakeMessage) { ThreadGivesUp(g); }
    else { OthersKeepHandle(g, i); }
  }

  /**
   * A handle is queued for removal exactly when sendGoalAndWait ended without
   * an acceptance, a cancel was accepted while no thread waits, a result was
   * taken, or handleAccepted found the thread started.
   */
  lemma {:induction false} RemovedIffGivenUp(gid: Bytes, inputs: seq<Input>)
    ensures After(gid, inputs).toRemove <==> GaveUp(gid, inputs)
    decreases |inputs|
  {
    if inputs != [] {
      var before := inputs[..|inputs| - 1];
      RemovedIffGivenUp(gid, before);
      InputGivesUp(gid, before, inputs[|inputs| - 1]);
      GaveUpSnoc(gid, inputs);
    }
  }

  predicate KeptInTable(g: L.Goal) {
    !g.toRemove && !g.call.NotCalled? ==> g.inTable
  }

  lemma InputKeepsTable(g: L.Goal, i: Input)
    requires KeptInTable(g)
    ensures KeptInTable(Next(g, i))
  {
    if i.Does? && !IsCallEvent(i.event) { OtherEventKeepsCall(g, i.event); }
  }

  /** A handle that was never given up is in the table from the start of its call on. */
  lemma {:induction false} KeptUnlessGivenUp(gid: Bytes, inputs: seq<Input>)
    ensures KeptInTable(After(gid, inputs))
    ensures !GaveUp(gid, inputs) && !After(gid, inputs).call.NotCalled? ==> After(gid, inputs).inTable
    decreases |inputs|
  {
    if inputs != [] {
      KeptUnlessGivenUp(gid, inputs[..|inputs| - 1]);
      InputKeepsTable(After(gid, inputs[..|inputs| - 1]), inputs[|inputs| - 1]);
    }
    RemovedIffGivenUp(gid, inputs);
  }

  predicate Gone(g: L.Goal) {
    !g.inTable && !g.call.NotCalled?
  }

  lemma GoneStays(g: L.Goal, i: Input)
    requires Gone(g)
    ensures Gone(Next(g, i))
  {
    if i.Does? && !IsCallEvent(i.event) { OtherEventKeepsCall(g, i.event); }
  }

  lemma {:induction false} GoneForGood(gid: Bytes, inputs: seq<Input>, more: seq<Input>)
    requires Gone(After(gid, inputs))
    ensures Gone(After(gid, inputs + more))
    decreases |more|
  {
    if more == [] {
      AppendNothing(inputs);
    } else {
      var before, i := more[..|more| - 1], more[|more| - 1];
      assert more == before + [i];
      Assoc(inputs, before, [i]);
      GoneForGood(gid, inputs, before);
      GoneStays(After(gid, inputs + before), i);
      AfterExtends(gid, inputs + before, [i]);
    }
  }

  lemma ErasingRemoves(g: L.Goal)
    requires g.toRemove && !g.call.NotCalled?
    ensures Gone(L.Step(g, L.EraseHandle).0)
  {
  }

  /** A handle that was given up can be erased, and then the goal is out of the table for good. */
  lemma ErasedForGood(gid: Bytes, inputs: seq<Input>, more: seq<Input>)
    requires GaveUp(gid, inputs) && !After(gid, inputs).call.NotCalled?
    ensures !After(gid, inputs + [Does(L.EraseHandle)] + more).inTable
  {
    RemovedIffGivenUp(gid, inputs);
    ErasingRemoves(After(gid, inputs));
    AfterExtends(gid, inputs, [Does(L.EraseHandle)]);
    GoneForGood(gid, inputs + [Does(L.EraseHandle)], more);
  }

  // ---------- what a returning call answers and sends ----------

  /**
   * The outcome of sendGoalAndWait is the last verdict heard while its flag was
   * up; without one it gives the goal up and sends the one CANCEL of a timeout.
   */
  lemma OutcomeIsLastVerdict(gid: Bytes, inputs: seq<Input>)
    requires After(gid, inputs).call.Waiting?
    ensures var (g, sent) := L.Step(After(gid, inputs), L.ReturnFromGoal);
            var accepted := LastAnswerIs(GoalSlotEvents(gid, inputs), GoalAccept);
            var rejected := LastAnswerIs(GoalSlotEvents(gid, inputs), GoalReject);
            && (g.call == L.Answered(L.Accept) <==> accepted)
            && (g.call == L.Answered(L.Reject) <==> rejected)
            && (g.call == L.TimedOut <==> !accepted && !rejected)
            && sent == if accepted || rejected then [] else [Message(CancelRequest, gid, Some([]))]
  {
    GoalSlotIsHistory(gid, inputs);
    AnswerIsLast(GoalSlotEvents(gid, inputs), GoalAccept);
    AnswerIsLast(GoalSlotEvents(gid, inputs), GoalReject);
    SlotHoldsVerdict(gid, inputs);
    ThreadIsShown(gid, inputs);
  }

  lemma {:induction false} SlotHoldsVerdict(gid: Bytes, inputs: seq<Input>)
    ensures var r := After(gid, inputs).handle.goal.response;
            r.Some? ==> r.value.op.GoalAccept? || r.value.op.GoalReject?
    decreases |inputs|
  {
    if inputs != [] {
      var before := inputs[..|inputs| - 1];
      SlotHoldsVerdict(gid, before);
      InputFollows(After(gid, before), inputs[|inputs| - 1]);
    }
  }

  /** An input that makes the originating side send a CANCEL. */
  ghost predicate AsksToCancel(gid: Bytes, before: seq<Input>, i: Input) {
    var g := After(gid, before);
    || (i == Does(L.SendCancelRequest) && g.cancelsRaised > 0)
    || (i == Does(L.ReturnFromGoal) && g.call.Waiting?
        && !LastAnswerIs(GoalSlotEvents(gid, before), GoalAccept)
        && !LastAnswerIs(GoalSlotEvents(gid, before), GoalReject))
    || (i == Does(L.AcceptedCallback) && g.call == L.Answered(L.Accept) && !(g.inTable && g.thread.NotStarted?))
  }

  ghost function CancelsAsked(gid: Bytes, inputs: seq<Input>): nat
    decreases |inputs|
  {
    if inputs == [] then 0
    else
      var before := inputs[..|inputs| - 1];
      CancelsAsked(gid, before) + if AsksToCancel(gid, before, inputs[|inputs| - 1]) then 1 else 0
  }

  lemma ReturnSendsCancel(g: L.Goal)
    ensures L.Step(g, L.ReturnFromGoal).0.cancels == g.cancels
            + if g.call.Waiting? && g.handle.goal.response.None? then 1 else 0
  {
  }

  lemma CallbackSendsCancel(g: L.Goal)
    requires ThreadShows(g)
    ensures L.Step(g, L.AcceptedCallback).0.cancels == g.cancels
            + if g.call == L.Answered(L.Accept) && !(g.inTable && g.thread.NotStarted?) then 1 else 0
    ensures L.Step(g, L.AcceptedCallback).0.thread.Looping?
       <==> g.thread.Looping? || (g.call == L.Answered(L.Accept) && g.inTable && g.thread.NotStarted?)
  {
  }

  lemma OthersSendNoCancel(g: L.Goal, i: Input)
    requires i != Does(L.ReturnFromGoal) && i != Does(L.AcceptedCallback) && i != Does(L.SendCancelRequest)
    ensures Next(g, i).cancels == g.cancels
  {
  }

  /**
   * The CANCELs sent for a goal: one for every sendCancelAndWait that got to
   * sending, for a timeout, and for every handleAccepted that finds the goal
   * gone or its thread started.
   */
  lemma {:induction false} CancelsAreAsked(gid: Bytes, inputs: seq<Input>)
    ensures After(gid, inputs).cancels == CancelsAsked(gid, inputs)
    decreases |inputs|
  {
    if inputs != [] {
      var before, i := inputs[..|inputs| - 1], inputs[|inputs| - 1];
      var g := After(gid, before);
      CancelsAreAsked(gid, before);
      ThreadIsShown(gid, before);
      GoalSlotIsHistory(gid, before);
      SlotHoldsVerdict(gid, before);
      AnswerIsLast(GoalSlotEvents(gid, before), GoalAccept);
      AnswerIsLast(GoalSlotEvents(gid, before), GoalReject);
      if i == Does(L.ReturnFromGoal) { ReturnSendsCancel(g); }
      else if i == Does(L.AcceptedCallback) { CallbackSendsCancel(g); }
      else if i != Does(L.SendCancelRequest) { OthersSendNoCancel(g, i); }
    }
  }

  // ---------- in the whole system ----------

  /** What a system event is for one goal on the originating side. */
  function InputOf(s: S.System, e: S.Event, gid: Bytes): seq<Input> {
    match e
    case AtServer(tag, le) => if tag == gid then [Does(le)] else []
    case ToServer => if s.toServer != [] && s.toServer[0].gid == gid then [Hears(s.toServer[0])] else []
    case _ => []
  }

  function InputsOf(es: seq<S.Event>, gid: Bytes): seq<Input>
    decreases |es|
  {
    if es == [] then []
    else InputsOf(es[..|es| - 1], gid) + InputOf(S.Run(es[..|es| - 1]), es[|es| - 1], gid)
  }

  lemma AfterExtends(gid: Bytes, inputs: seq<Input>, more: seq<Input>)
    requires |more| <= 1
    ensures After(gid, inputs + more) == if more == [] then After(gid, inputs) else Next(After(gid, inputs), more[0])
  {
    if more == [] { assert inputs + more == inputs; } else { assert (inputs + more)[..|inputs|] == inputs; }
  }

  lemma ServerStepIsInput(s: S.System, tag: Bytes, le: L.Event, gid: Bytes)
    ensures S.GoalOf(S.Step(s, S.AtServer(tag, le)), gid)
         == if tag == gid then L.Step(S.GoalOf(s, gid), le).0 else S.GoalOf(s, gid)
  {
  }

  lemma ClientStepKeepsGoals(s: S.System, tag: Bytes, re: R.Event, gid: Bytes)
    ensures S.GoalOf(S.Step(s, S.AtClient(tag, re)), gid) == S.GoalOf(s, gid)
  {
  }

  lemma ReceiveKeepsGoals(s: S.System, gid: Bytes)
    ensures S.GoalOf(S.Step(s, S.ToClient), gid) == S.GoalOf(s, gid)
  {
  }

  lemma StepIsInput(s: S.System, e: S.Event, gid: Bytes)
    requires S.Tagged(s, gid)
    ensures var i := InputOf(s, e, gid);
            && |i| <= 1
            && S.GoalOf(S.Step(s, e), gid) == if i == [] then S.GoalOf(s, gid) else Next(S.GoalOf(s, gid), i[0])
  {
    match e
    case AtServer(tag, le) => ServerStepIsInput(s, tag, le, gid);
    case AtClient(tag, re) => ClientStepKeepsGoals(s, tag, re, gid);
    case ToClient => ReceiveKeepsGoals(s, gid);
    case ToServer => if s.toServer != [] { S.OnlyInQueue(s, gid); }
  }

  /** The goals of the whole system are such histories, so the answers above are the answers of every system run. */
  lemma {:induction false} SystemGoalIsHistory(es: seq<S.Event>, gid: Bytes)
    ensures S.GoalOf(S.Run(es), gid) == After(gid, InputsOf(es, gid))
    decreases |es|
  {
    if es != [] {
      var before, e := es[..|es| - 1], es[|es| - 1];
      SystemGoalIsHistory(before, gid);
      S.SystemInv(before, gid);
      S.InvTags(S.Run(before), gid);
      StepIsInput(S.Run(before), e, gid);
      AfterExtends(gid, InputsOf(before, gid), InputOf(S.Run(before), e, gid));
    }
  }

  /**
   * In every run of the system a goal that was not given up - accepted, not
   * cancelled while idle, without a result so far - is in the table, and every
   * feedback and result the remote side sent for it has arrived or is on its
   * way, in order.
   */
  lemma KeptGoalMissesNothing(es: seq<S.Event>, gid: Bytes)
    requires !GaveUp(gid, InputsOf(es, gid))
    ensures var s := S.Run(es);
            var g := S.GoalOf(s, gid);
            var produced := R.Stream(Emitted(S.View(s, gid)));
            && !g.toRemove && (!g.call.NotCalled? ==> g.inTable) && !g.thread.Ended?
            && g.arrived + R.Stream(S.Only(s.toServer, gid)) == produced
            && (g.handle.waitQueue == [] && R.Stream(S.Only(s.toServer, gid)) == [] ==> g.calls == Trace(produced))
  {
    SystemGoalIsHistory(es, gid);
    RemovedIffGivenUp(gid, InputsOf(es, gid));
    KeptUnlessGivenUp(gid, InputsOf(es, gid));
    ThreadIsShown(gid, InputsOf(es, gid));
    S.SystemInv(es, gid);
    KeptStream(S.View(S.Run(es), gid));
  }

  lemma KeptStream(p: Pair)
    requires Inv(p) && (p.goal.call.NotCalled? || p.goal.inTable)
    ensures p.goal.arrived + R.Stream(p.up) == R.Stream(Emitted(p))
    ensures p.goal.handle.waitQueue == [] && R.Stream(p.up) == [] ==> p.goal.calls == Trace(R.Stream(Emitted(p)))
  {
    if p.goal.handle.waitQueue == [] && R.Stream(p.up) == [] {
      assert p.goal.consumed + [] + [] == p.goal.consumed;
    }
  }

  /** In every run of the system a goal is queued for removal exactly when its history gives it up. */
  lemma RemovalInSystem(es: seq<S.Event>, gid: Bytes)
    ensures S.GoalOf(S.Run(es), gid).toRemove <==> GaveUp(gid, InputsOf(es, gid))
    ensures S.GoalOf(S.Run(es), gid).cancels == CancelsAsked(gid, InputsOf(es, gid))
  {
    SystemGoalIsHistory(es, gid);
    RemovedIffGivenUp(gid, InputsOf(es, gid));
    CancelsAreAsked(gid, InputsOf(es, gid));
  }
}
