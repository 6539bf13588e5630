/**
 * One goal id across both sides: the originating handle, the remote handle and
 * the messages between them, which arrive in order in each direction. Requests
 * travel down, answers travel up.
 */
module GoalLink {
  import opened Types
  import opened Sequences
  import opened GoalTrace
  import L = ActionServer
  import R = RemoteGoal

  /** `bounced` counts CANCELs that arrived while the remote table had no such goal. */
  datatype Pair = Pair(goal: L.Goal, down: seq<Message>, up: seq<Message>, remote: Option<R.Handle>, bounced: nat)

  function NewPair(gid: Bytes): Pair {
    Pair(L.NewGoal(gid), [], [], None, 0)
  }

  datatype Act = Local(le: L.Event) | Remote(re: R.Event) | DeliverDown | DeliverUp

  function Reject(gid: Bytes): Message {
    Message(GoalReject, gid, Some([]))
  }

  /** handle() of the remote side. An unknown gid in a CANCEL is answered with GOAL_REJECT. */
  function Receive(p: Pair, m: Message): Pair {
    var known := p.remote.Some? && p.remote.value.inTable;
    if m.op.GoalRequest? then
      if known then p.(up := p.up + [Reject(m.gid)]) else p.(remote := Some(R.NewHandle(m)))
    else if m.op.CancelRequest? then
      if known then p.(remote := Some(R.Push(p.remote.value, m)))
      else p.(up := p.up + [Reject(m.gid)], bounced := p.bounced + 1)
    else p
  }

  function Step(p: Pair, a: Act): Pair {
    match a
    case Local(e) =>
      var (goal, sent) := L.Step(p.goal, e);
      p.(goal := goal, down := p.down + sent)
    case Remote(e) =>
      if p.remote.None? then p
      else p.(remote := Some(R.Step(p.remote.value, e)), up := p.up + R.Sent(p.remote.value, e))
    case DeliverDown =>
      if p.down == [] then p else Receive(p.(down := p.down[1..]), p.down[0])
    case DeliverUp =>
      if p.up == [] then p else p.(up := p.up[1..], goal := L.Deliver(p.goal, p.up[0]))
  }

  // ---------- the originating side ----------

  /** sendGoalAndWait has not sent its GOAL. */
  predicate Early(g: L.Goal) {
    g.call.NotCalled? || g.call.Inserted? || g.call.FlagRaised?
  }

  predicate CallPoint(g: L.Goal) {
    && (g.handle.goal.handling <==> g.call.FlagRaised? || g.call.Waiting?)
    && (Early(g) ==> g.handle.goal.response.None? && g.handle.waitQueue == [] && g.arrived == [])
    && (g.call.NotCalled? ==> !g.inTable)
    && (g.call.Answered? ==> g.handle.goal.response.Some? && g.call.response == L.GoalReturn(g.handle).response)
    && (g.call.TimedOut? ==> g.handle.goal.response.None?)
    && (g.handle.goal.response.Some? ==> R.IsVerdict(g.handle.goal.response.value.op))
  }

  predicate CancelsPoint(g: L.Goal) {
    && (g.call != L.Answered(L.Accept) ==>
          && g.cancelsRaised == 0 && g.cancelsWaiting == 0 && g.thread.NotStarted? && !g.cancelAccepted
          && g.handle.cancel.response.None?
          && !g.handle.cancel.handling
          && g.cancels == if g.call.TimedOut? then 1 else 0)
    && (g.handle.threadStarted <==> !g.thread.NotStarted?)
  }

  predicate TracePoint(g: L.Goal) {
    && g.consumed + g.handle.waitQueue == g.arrived
    && g.calls == Trace(g.consumed)
    && (g.thread.NotStarted? ==> g.consumed == [])
    && (g.thread.Ended? <==> HasResult(g.consumed))
  }

  predicate LocalInv(g: L.Goal) {
    CallPoint(g) && CancelsPoint(g) && TracePoint(g)
  }

  lemma TakeExtends(consumed: seq<Message>, queue: seq<Message>)
    requires queue != [] && !HasResult(consumed)
    ensures consumed + queue == consumed + [queue[0]] + queue[1..]
    ensures Trace(consumed + [queue[0]]) == Trace(consumed) + Reaction(queue[0]).0
    ensures HasResult(consumed + [queue[0]]) <==> Reaction(queue[0]).1
  {
    TraceSnoc(consumed, queue[0]);
  }

  lemma TakeKeepsInv(g: L.Goal)
    requires LocalInv(g)
    ensures LocalInv(L.Step(g, L.TakeMessage).0)
  {
    if L.Enabled(g, L.TakeMessage) { TakeExtends(g.consumed, g.handle.waitQueue); }
  }

  lemma GoalStepKeepsInv(g: L.Goal, e: L.Event)
    requires LocalInv(g) && (e.InsertHandle? || e.RaiseGoalFlag? || e.SendGoalRequest? || e.ReturnFromGoal?)
    ensures LocalInv(L.Step(g, e).0)
  {
  }

  lemma CancelStepKeepsInv(g: L.Goal, e: L.Event)
    requires LocalInv(g) && (e.RaiseCancelFlag? || e.SendCancelRequest? || e.ReturnFromCancel?)
    ensures LocalInv(L.Step(g, e).0)
  {
  }

  lemma OtherStepKeepsInv(g: L.Goal, e: L.Event)
    requires LocalInv(g) && (e.AcceptedCallback? || e.EraseHandle?)
    ensures LocalInv(L.Step(g, e).0)
  {
  }

  lemma LocalStepKeepsInv(g: L.Goal, e: L.Event)
    requires LocalInv(g)
    ensures LocalInv(L.Step(g, e).0)
  {
    if e.TakeMessage? { TakeKeepsInv(g); }
    else if e.AcceptedCallback? || e.EraseHandle? { OtherStepKeepsInv(g, e); }
    else if e.RaiseCancelFlag? || e.SendCancelRequest? || e.ReturnFromCancel? { CancelStepKeepsInv(g, e); }
    else { GoalStepKeepsInv(g, e); }
  }

  lemma DeliverKeepsCall(g: L.Goal, m: Message)
    requires CallPoint(g) && CancelsPoint(g) && !Early(g)
    ensures CallPoint(L.Deliver(g, m)) && CancelsPoint(L.Deliver(g, m))
  {
  }

  lemma DeliverKeepsInv(g: L.Goal, m: Message)
    requires LocalInv(g) && !Early(g)
    ensures LocalInv(L.Deliver(g, m))
  {
    DeliverKeepsCall(g, m);
    DeliverKeepsTrace(g, m);
  }

  lemma DeliverKeepsTrace(g: L.Goal, m: Message)
    requires TracePoint(g)
    ensures TracePoint(L.Deliver(g, m))
  {
    assert g.consumed + (g.handle.waitQueue + [m]) == g.consumed + g.handle.waitQueue + [m];
  }

  /** The outcome of sendGoalAndWait never changes once it has returned. */
  predicate Returned(g: L.Goal) {
    g.call.Answered? || g.call.TimedOut?
  }

  lemma OutcomeIsFrozen(p: Pair, a: Act)
    requires Returned(p.goal)
    ensures Step(p, a).goal.call == p.goal.call
  {
  }

  // ---------- both sides ----------

  function Emitted(p: Pair): seq<Message> {
    if p.remote.None? then [] else p.remote.value.emitted
  }

  function Accepts(p: Pair): nat {
    if p.remote.None? then 0 else p.remote.value.cancelAccepts
  }

  function Received(p: Pair): nat {
    if p.remote.None? then 0 else p.remote.value.received
  }

  predicate GoalInTransit(p: Pair) {
    !Early(p.goal) && p.remote.None?
  }

  /** The GOAL travels first, alone ahead of every CANCEL. */
  predicate DownPoint(p: Pair) {
    && (Early(p.goal) ==> p.down == [] && p.remote.None?)
    && (p.remote.None? ==> p.up == [] && p.bounced == 0)
    && (GoalInTransit(p) ==>
          && p.down != [] && p.down[0].op.GoalRequest? && p.down[0].gid == p.goal.gid
          && R.AllCancels(p.down[1..]))
    && (p.remote.Some? ==>
          R.AllCancels(p.down) && (p.bounced > 0 ==> !p.remote.value.inTable))
    && forall i :: 0 <= i < |p.down| ==> p.down[i].gid == p.goal.gid
  }

  /** Every CANCEL sent is in transit, was pushed to the remote handle, or bounced. */
  predicate CancelsConserved(p: Pair) {
    p.goal.cancels + R.One(GoalInTransit(p)) == |p.down| + Received(p) + p.bounced
  }

  /** A message on its way up says what is true of the remote handle. */
  predicate True(p: Pair, m: Message) {
    && m.gid == p.goal.gid && m.op.Code() >= 4 && !m.op.CancelRequest?
    && (m.op.GoalAccept? ==> R.Verdicts(Emitted(p)) == [GoalAccept])
    && (m.op.GoalReject? && p.bounced == 0 ==> R.Verdicts(Emitted(p)) == [GoalReject])
    && (m.op.CancelAccept? ==> Accepts(p) > 0)
  }

  predicate UpPoint(p: Pair) {
    forall i :: 0 <= i < |p.up| ==> True(p, p.up[i])
  }

  /** What the originating side believes is true as well. */
  predicate Believed(p: Pair) {
    && (p.goal.handle.goal.response.Some? ==> R.Verdicts(Emitted(p)) == [p.goal.handle.goal.response.value.op])
    && (p.goal.handle.cancel.response.Some? && p.goal.handle.cancel.response.value.op.CancelAccept? ==> Accepts(p) > 0)
    && (p.goal.cancelAccepted ==> Accepts(p) > 0)
  }

  /** Feedback and results arrive in the order sent, none twice and none lost while the handle is in the table. */
  predicate Streamed(p: Pair) {
    && (p.goal.inTable ==> p.goal.arrived + R.Stream(p.up) == R.Stream(Emitted(p)))
    && p.goal.arrived <= R.Stream(Emitted(p))
  }

  predicate RemoteInv(p: Pair) {
    p.remote.Some? ==> R.Inv(p.remote.value) && p.remote.value.gid == p.goal.gid
  }

  predicate Inv(p: Pair) {
    && LocalInv(p.goal) && RemoteInv(p) && DownPoint(p) && CancelsConserved(p)
    && UpPoint(p) && Believed(p) && Streamed(p)
  }

  lemma NewPairInv(gid: Bytes)
    ensures Inv(NewPair(gid))
  {
  }

  // ---------- local steps ----------

  lemma LocalKeepsHistory(g: L.Goal, e: L.Event)
    ensures var (g', sent) := L.Step(g, e);
            g'.gid == g.gid && g'.arrived == g.arrived && |sent| <= 1 && forall m <- sent :: m.gid == g.gid
  {
  }

  lemma GoalIsSentOnce(g: L.Goal, e: L.Event)
    requires LocalInv(g) && Early(g) && !Early(L.Step(g, e).0)
    ensures var (g', sent) := L.Step(g, e);
            |sent| == 1 && sent[0].op.GoalRequest? && g'.cancels == g.cancels == 0
  {
  }

  predicate Counted(g: L.Goal, e: L.Event) {
    var (g', sent) := L.Step(g, e);
    g'.cancels == g.cancels + |sent| && R.AllCancels(sent)
  }

  lemma GoalEventIsCounted(g: L.Goal, e: L.Event)
    requires e.InsertHandle? || e.RaiseGoalFlag? || e.ReturnFromGoal?
    ensures Counted(g, e)
  {
  }

  lemma CancelEventIsCounted(g: L.Goal, e: L.Event)
    requires e.RaiseCancelFlag? || e.SendCancelRequest? || e.ReturnFromCancel?
    ensures Counted(g, e)
  {
  }

  lemma OtherEventIsCounted(g: L.Goal, e: L.Event)
    requires e.AcceptedCallback? || e.TakeMessage? || e.EraseHandle?
    ensures Counted(g, e)
  {
  }

  lemma CancelsAreCounted(g: L.Goal, e: L.Event)
    requires Early(g) ==> Early(L.Step(g, e).0)
    ensures Counted(g, e)
  {
    if e.InsertHandle? || e.RaiseGoalFlag? || e.ReturnFromGoal? { GoalEventIsCounted(g, e); }
    else if e.RaiseCancelFlag? || e.SendCancelRequest? || e.ReturnFromCancel? { CancelEventIsCounted(g, e); }
    else if !e.SendGoalRequest? { OtherEventIsCounted(g, e); }
  }

  lemma LocalSends(g: L.Goal, e: L.Event)
    requires LocalInv(g)
    ensures var (g', sent) := L.Step(g, e);
            if Early(g) && !Early(g') then |sent| == 1 && sent[0].op.GoalRequest? && g'.cancels == g.cancels == 0
            else g'.cancels == g.cancels + |sent| && R.AllCancels(sent)
  {
    if Early(g) && !Early(L.Step(g, e).0) { GoalIsSentOnce(g, e); } else { CancelsAreCounted(g, e); }
  }

  lemma LocalStaysLate(g: L.Goal, e: L.Event)
    requires LocalInv(g)
    ensures var (g', sent) := L.Step(g, e);
            && (Early(g') ==> Early(g) && sent == [])
            && (g'.inTable && !g.inTable ==> Early(g))
  {
  }

  /** A local step never puts a response into a slot. */
  predicate KeepsSlots(g: L.Goal, g': L.Goal) {
    && (g'.handle.goal.response == g.handle.goal.response || g'.handle.goal.response.None?)
    && (g'.handle.cancel.response == g.handle.cancel.response || g'.handle.cancel.response.None?)
  }

  lemma GoalEventKeepsSlots(g: L.Goal, e: L.Event)
    requires e.InsertHandle? || e.RaiseGoalFlag? || e.SendGoalRequest?
    ensures KeepsSlots(g, L.Step(g, e).0)
  {
  }

  lemma ReturnKeepsSlots(g: L.Goal)
    ensures KeepsSlots(g, L.Step(g, L.ReturnFromGoal).0) && KeepsSlots(g, L.Step(g, L.ReturnFromCancel).0)
  {
  }

  lemma CancelEventKeepsSlots(g: L.Goal, e: L.Event)
    requires e.RaiseCancelFlag? || e.SendCancelRequest? || e.AcceptedCallback? || e.EraseHandle?
    ensures KeepsSlots(g, L.Step(g, e).0)
  {
  }

  lemma TakeKeepsSlots(g: L.Goal)
    ensures KeepsSlots(g, L.Step(g, L.TakeMessage).0)
  {
  }

  lemma LocalKeepsSlots(g: L.Goal, e: L.Event)
    ensures KeepsSlots(g, L.Step(g, e).0)
  {
    if e.InsertHandle? || e.RaiseGoalFlag? || e.SendGoalRequest? { GoalEventKeepsSlots(g, e); }
    else if e.ReturnFromGoal? || e.ReturnFromCancel? { ReturnKeepsSlots(g); }
    else if e.TakeMessage? { TakeKeepsSlots(g); }
    else { CancelEventKeepsSlots(g, e); }
  }

  lemma AcceptedByResponse(g: L.Goal, e: L.Event)
    requires LocalInv(g) && !g.cancelAccepted && L.Step(g, e).0.cancelAccepted
    ensures g.handle.cancel.response.Some? && g.handle.cancel.response.value.op.CancelAccept?
  {
  }

  lemma LocalKeepsInv(p: Pair, e: L.Event)
    requires Inv(p)
    ensures Inv(Step(p, Local(e)))
  {
    LocalStepKeepsInv(p.goal, e);
    LocalKeepsDown(p, e);
    LocalKeepsUp(p, e);
    LocalKeepsHistory(p.goal, e);
  }

  lemma LocalKeepsDown(p: Pair, e: L.Event)
    requires LocalInv(p.goal) && DownPoint(p) && CancelsConserved(p)
    ensures DownPoint(Step(p, Local(e))) && CancelsConserved(Step(p, Local(e)))
  {
    LocalKeepsHistory(p.goal, e);
    LocalSends(p.goal, e);
    LocalStaysLate(p.goal, e);
    var (goal, sent) := L.Step(p.goal, e);
    DownGrows(p, goal, sent);
  }

  /** The originating side moves on and sends: its GOAL once and first, CANCELs otherwise. */
  lemma DownGrows(p: Pair, goal: L.Goal, sent: seq<Message>)
    requires DownPoint(p) && CancelsConserved(p)
    requires goal.gid == p.goal.gid && |sent| <= 1 && forall m <- sent :: m.gid == p.goal.gid
    requires Early(goal) ==> Early(p.goal) && sent == []
    requires if Early(p.goal) && !Early(goal)
             then |sent| == 1 && sent[0].op.GoalRequest? && goal.cancels == p.goal.cancels == 0
             else goal.cancels == p.goal.cancels + |sent| && R.AllCancels(sent)
    ensures var p' := p.(goal := goal, down := p.down + sent); DownPoint(p') && CancelsConserved(p')
  {
    if GoalInTransit(p) { assert (p.down + sent)[1..] == p.down[1..] + sent; }
  }

  lemma LocalKeepsUp(p: Pair, e: L.Event)
    requires LocalInv(p.goal) && DownPoint(p) && UpPoint(p) && Believed(p) && Streamed(p)
    ensures UpPoint(Step(p, Local(e))) && Believed(Step(p, Local(e))) && Streamed(Step(p, Local(e)))
  {
    LocalKeepsHistory(p.goal, e);
    LocalStaysLate(p.goal, e);
    LocalKeepsSlots(p.goal, e);
    if !p.goal.cancelAccepted && L.Step(p.goal, e).0.cancelAccepted { AcceptedByResponse(p.goal, e); }
    var p' := Step(p, Local(e));
    forall i | 0 <= i < |p'.up| ensures True(p', p'.up[i]) { assert True(p, p.up[i]); }
  }

  // ---------- remote steps ----------

  lemma RemoteKeepsInv(p: Pair, e: R.Event)
    requires Inv(p)
    ensures Inv(Step(p, Remote(e)))
  {
    if p.remote.Some? {
      R.StepKeepsInv(p.remote.value, e);
      R.SentIsEmitted(p.remote.value, e);
      R.SentIsTrue(p.remote.value, e);
      RemoteKeepsUp(p, e);
      RemoteKeepsStream(p, e);
    }
  }

  lemma RemoteKeepsUp(p: Pair, e: R.Event)
    requires UpPoint(p) && Believed(p) && p.remote.Some? && p.remote.value.gid == p.goal.gid
    requires var h, h' := p.remote.value, R.Step(p.remote.value, e);
             && R.FromRemote(h.gid, R.Sent(h, e))
             && (R.Verdicts(h.emitted) != [] ==> R.Verdicts(h'.emitted) == R.Verdicts(h.emitted))
             && (forall m <- R.Sent(h, e) ::
                   && (R.IsVerdict(m.op) ==> R.Verdicts(h'.emitted) == [m.op])
                   && (m.op.CancelAccept? ==> h'.cancelAccepts > 0))
    ensures UpPoint(Step(p, Remote(e))) && Believed(Step(p, Remote(e)))
  {
    var sent, p' := R.Sent(p.remote.value, e), Step(p, Remote(e));
    R.SentIsEmitted(p.remote.value, e);
    forall i | 0 <= i < |p'.up| ensures True(p', p'.up[i]) {
      if i < |p.up| { assert True(p, p.up[i]); } else { assert p'.up[i] == sent[i - |p.up|]; }
    }
  }

  lemma RemoteKeepsStream(p: Pair, e: R.Event)
    requires Streamed(p) && p.remote.Some?
    ensures Streamed(Step(p, Remote(e)))
  {
    var sent := R.Sent(p.remote.value, e);
    R.SentSplits(p.remote.value, e);
    GatherConcat(R.StreamIn, p.up, sent);
    assert p.goal.arrived + (R.Stream(p.up) + R.Stream(sent)) == p.goal.arrived + R.Stream(p.up) + R.Stream(sent);
  }

  // ---------- deliveries ----------

  lemma DownKeepsInv(p: Pair)
    requires Inv(p)
    ensures Inv(Step(p, DeliverDown))
  {
    if p.down != [] {
      if p.remote.None? {
        R.NewHandleInv(p.down[0]);
      } else if p.remote.value.inTable {
        R.PushKeepsInv(p.remote.value, p.down[0]);
      }
      DownKeepsOrder(p);
      DownKeepsUp(p);
    }
  }

  lemma DownKeepsOrder(p: Pair)
    requires DownPoint(p) && CancelsConserved(p) && p.down != []
    ensures DownPoint(Step(p, DeliverDown)) && CancelsConserved(Step(p, DeliverDown))
    ensures p.remote.Some? ==> p.down[0].op.CancelRequest?
    ensures p.remote.None? ==> p.down[0].op.GoalRequest? && p.down[0].gid == p.goal.gid
  {
  }

  lemma DownKeepsUp(p: Pair)
    requires DownPoint(p) && UpPoint(p) && Believed(p) && Streamed(p) && p.down != []
    ensures UpPoint(Step(p, DeliverDown)) && Believed(Step(p, DeliverDown)) && Streamed(Step(p, DeliverDown))
  {
    var p' := Step(p, DeliverDown);
    forall i | 0 <= i < |p'.up| ensures True(p', p'.up[i]) {
      if i < |p.up| { assert True(p, p.up[i]); }
    }
    GatherSnoc(R.StreamIn, p.up, Reject(p.down[0].gid));
    assert R.Stream(p.up) + [] == R.Stream(p.up);
  }

  lemma UpKeepsInv(p: Pair)
    requires Inv(p)
    ensures Inv(Step(p, DeliverUp))
  {
    if p.up != [] {
      DeliverKeepsInv(p.goal, p.up[0]);
      UpKeepsBelief(p);
      UpKeepsStream(p);
      UpKeepsUp(p);
    }
  }

  lemma UpKeepsUp(p: Pair)
    requires DownPoint(p) && CancelsConserved(p) && UpPoint(p) && p.up != []
    ensures DownPoint(Step(p, DeliverUp)) && CancelsConserved(Step(p, DeliverUp)) && UpPoint(Step(p, DeliverUp))
  {
    var p' := Step(p, DeliverUp);
    forall i | 0 <= i < |p'.up| ensures True(p', p'.up[i]) { assert True(p, p.up[i + 1]); }
  }

  lemma NoBounceWhileWaiting(p: Pair)
    requires LocalInv(p.goal) && CancelsConserved(p) && p.remote.Some? && p.goal.handle.goal.handling
    ensures p.bounced == 0
  {
  }

  /** Delivery stores at most the delivered message in a slot, and a verdict only while the call waits. */
  lemma DeliverStores(g: L.Goal, m: Message)
    ensures var g' := L.Deliver(g, m);
            && (g'.handle.goal.response == g.handle.goal.response
                || (g'.handle.goal.response == Some(m) && R.IsVerdict(m.op) && g.handle.goal.handling))
            && (g'.handle.cancel.response == g.handle.cancel.response || g'.handle.cancel.response == Some(m))
            && g'.cancelAccepted == g.cancelAccepted
  {
  }

  lemma UpKeepsBelief(p: Pair)
    requires LocalInv(p.goal) && DownPoint(p) && CancelsConserved(p) && UpPoint(p) && Believed(p) && p.up != []
    ensures Believed(Step(p, DeliverUp))
  {
    assert True(p, p.up[0]);
    DeliverStores(p.goal, p.up[0]);
    if p.goal.handle.goal.handling { NoBounceWhileWaiting(p); }
  }

  lemma DeliverArrives(g: L.Goal, m: Message)
    requires m.op.Code() >= 4 && !m.op.CancelRequest?
    ensures L.Deliver(g, m).arrived == g.arrived + if g.inTable then R.StreamIn(m) else []
    ensures L.Deliver(g, m).inTable == g.inTable
  {
    assert g.arrived + [] == g.arrived;
  }

  lemma StreamHead(arrived: seq<Message>, up: seq<Message>, emitted: seq<Message>)
    requires up != [] && arrived + R.Stream(up) == emitted
    ensures arrived + R.StreamIn(up[0]) + R.Stream(up[1..]) == emitted
    ensures arrived + R.StreamIn(up[0]) <= emitted
  {
    GatherHead(R.StreamIn, up);
    assert arrived + (R.StreamIn(up[0]) + R.Stream(up[1..])) == arrived + R.StreamIn(up[0]) + R.Stream(up[1..]);
  }

  lemma UpKeepsStream(p: Pair)
    requires UpPoint(p) && Streamed(p) && p.up != []
    ensures Streamed(Step(p, DeliverUp))
  {
    assert True(p, p.up[0]);
    DeliverArrives(p.goal, p.up[0]);
    if p.goal.inTable { StreamHead(p.goal.arrived, p.up, R.Stream(Emitted(p))); }
  }

  lemma StepKeepsInv(p: Pair, a: Act)
    requires Inv(p)
    ensures Inv(Step(p, a))
  {
    match a
    case Local(e) => LocalKeepsInv(p, e);
    case Remote(e) => RemoteKeepsInv(p, e);
    case DeliverDown => DownKeepsInv(p);
    case DeliverUp => UpKeepsInv(p);
  }

  /** A GOAL_REJECT that answers a bounced cancel changes nothing on the originating side. */
  lemma BouncedRejectIsIgnored(p: Pair)
    requires Inv(p) && p.bounced > 0 && p.up != [] && p.up[0].op.GoalReject?
    ensures Step(p, DeliverUp).goal == p.goal
  {
    if p.goal.handle.goal.handling { NoBounceWhileWaiting(p); }
  }
}
