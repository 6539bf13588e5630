/**
 * Progress of an action: whatever the remote side sent can be delivered and
 * acted on, and a timed-out goal does not run on behind its caller's back.
 */
module ActionProgress {
  import opened Types
  import opened Sequences
  import opened GoalTrace
  import opened GoalLink
  import opened ActionSystem
  import L = ActionServer
  import R = RemoteGoal

  // ---------- what arrived is acted on ----------

  lemma ProjectedStep(es: seq<Event>, e: Event, gid: Bytes)
    ensures Inv(View(Run(es), gid)) && Inv(View(Run(es + [e]), gid))
    ensures Run(es + [e]) == ActionSystem.Step(Run(es), e)
    ensures var s := Run(es);
            View(Run(es + [e]), gid)
            == if About(s, e) == Some(gid) then GoalLink.Step(View(s, gid), ActOf(e)) else View(s, gid)
  {
    SystemInv(es, gid);
    SystemInv(es + [e], gid);
    InvTags(Run(es), gid);
    if e.AtServer? || e.AtClient? {
      SystemInv(es, e.gid);
      InvTags(Run(es), e.gid);
    }
    RunSnoc(es, e);
    StepProjects(Run(es), e, gid);
  }

  /** q is p, or p after this act. */
  predicate OneAct(p: Pair, a: Act, q: Pair) {
    q == p || q == GoalLink.Step(p, a)
  }

  lemma StepOrSame(es: seq<Event>, e: Event, gid: Bytes)
    ensures OneAct(View(Run(es), gid), ActOf(e), View(Run(es + [e]), gid))
  {
    ProjectedStep(es, e, gid);
  }

  /** q is p with what was on its way up delivered in part: the thread and what was sent are the same. */
  predicate MoreDelivered(p: Pair, q: Pair) {
    q.goal.thread == p.goal.thread && q.goal.inTable == p.goal.inTable && q.remote == p.remote
  }

  lemma DeliveredOrSame(p: Pair, q: Pair)
    requires OneAct(p, DeliverUp, q)
    ensures MoreDelivered(p, q)
  {
  }

  lemma HearingShrinks(es: seq<Event>)
    requires Run(es).toServer != []
    ensures |Run(es + [ToServer]).toServer| == |Run(es).toServer| - 1
  {
    RunSnoc(es, ToServer);
  }

  lemma HearingDelivers(es: seq<Event>, gid: Bytes)
    ensures MoreDelivered(View(Run(es), gid), View(Run(es + [ToServer]), gid))
  {
    StepOrSame(es, ToServer, gid);
    DeliveredOrSame(View(Run(es), gid), View(Run(es + [ToServer]), gid));
  }

  /** Everything on its way to the originating side can be delivered. */
  lemma {:induction false} DeliverAll(es: seq<Event>, gid: Bytes) returns (more: seq<Event>)
    ensures forall e <- more :: e == ToServer
    ensures Run(es + more).toServer == [] && MoreDelivered(View(Run(es), gid), View(Run(es + more), gid))
    decreases |Run(es).toServer|
  {
    if Run(es).toServer == [] {
      more := [];
      AppendNothing(es);
    } else {
      HearingShrinks(es);
      HearingDelivers(es, gid);
      var rest := DeliverAll(es + [ToServer], gid);
      more := [ToServer] + rest;
      Assoc(es, [ToServer], rest);
    }
  }

  /** executeAccepted has ended, or has nothing left to take. */
  predicate CaughtUp(g: L.Goal) {
    g.thread.Ended? || (g.thread.Looping? && g.handle.waitQueue == [])
  }

  /** q is p after some turns of executeAccepted. */
  predicate MoreTaken(p: Pair, q: Pair) {
    q.remote == p.remote && q.up == p.up && q.goal.inTable == p.goal.inTable
  }

  lemma TakingTakes(p: Pair)
    requires p.goal.thread.Looping? && p.goal.handle.waitQueue != []
    ensures var q := GoalLink.Step(p, Local(L.TakeMessage));
            && MoreTaken(p, q)
            && q.goal.handle.waitQueue == p.goal.handle.waitQueue[1..]
            && (q.goal.thread.Looping? || q.goal.thread.Ended?)
            && q.goal.consumed == p.goal.consumed + [p.goal.handle.waitQueue[0]]
  {
  }

  lemma TakeOne(es: seq<Event>, gid: Bytes)
    requires var g := View(Run(es), gid).goal; g.thread.Looping? && g.handle.waitQueue != []
    ensures var p, q := View(Run(es), gid), View(Run(es + [AtServer(gid, L.TakeMessage)]), gid);
            && MoreTaken(p, q) && (q.goal.thread.Looping? || q.goal.thread.Ended?)
            && |q.goal.handle.waitQueue| == |p.goal.handle.waitQueue| - 1
    ensures Run(es + [AtServer(gid, L.TakeMessage)]).toServer == Run(es).toServer
  {
    ProjectedStep(es, AtServer(gid, L.TakeMessage), gid);
    TakingTakes(View(Run(es), gid));
  }

  lemma {:induction false} TakeAll(es: seq<Event>, gid: Bytes) returns (more: seq<Event>)
    requires View(Run(es), gid).goal.thread.Looping?
    ensures forall e <- more :: e == AtServer(gid, L.TakeMessage)
    ensures CaughtUp(View(Run(es + more), gid).goal) && MoreTaken(View(Run(es), gid), View(Run(es + more), gid))
    ensures Run(es + more).toServer == Run(es).toServer
    decreases |View(Run(es), gid).goal.handle.waitQueue|
  {
    var p := View(Run(es), gid);
    if CaughtUp(p.goal) {
      more := [];
      AppendNothing(es);
    } else {
      var e := AtServer(gid, L.TakeMessage);
      TakeOne(es, gid);
      if View(Run(es + [e]), gid).goal.thread.Ended? {
        more := [e];
      } else {
        var rest := TakeAll(es + [e], gid);
        more := [e] + rest;
        Assoc(es, [e], rest);
      }
    }
  }

  /**
   * The caller can always catch up: while executeAccepted runs and its handle is
   * in the table, deliveries and its own turns lead to a state in which the
   * calls made are those of everything the remote action has produced.
   */
  lemma CallerCatchesUp(es: seq<Event>, gid: Bytes) returns (more: seq<Event>)
    requires var g := GoalOf(Run(es), gid); g.thread.Looping? && g.inTable
    ensures forall e <- more :: e == ToServer || e == AtServer(gid, L.TakeMessage)
    ensures Emitted(View(Run(es + more), gid)) == Emitted(View(Run(es), gid))
    ensures GoalOf(Run(es + more), gid).calls == Trace(R.Stream(Emitted(View(Run(es), gid))))
  {
    var delivered := DeliverAll(es, gid);
    var taken := TakeAll(es + delivered, gid);
    more := delivered + taken;
    Assoc(es, delivered, taken);
    NothingLeft(es + more, gid);
  }

  lemma NothingLeft(es: seq<Event>, gid: Bytes)
    requires Run(es).toServer == [] && View(Run(es), gid).goal.inTable && CaughtUp(View(Run(es), gid).goal)
    ensures View(Run(es), gid).goal.calls == Trace(R.Stream(Emitted(View(Run(es), gid))))
  {
    CallsFollowRemote(es, gid);
  }

  // ---------- a timed-out goal does not run on ----------

  function CallbackWork(c: R.Callback): nat {
    match c
    case Idle => 0
    case Due => 5
    case Running(script) => |script| + 1
  }

  function StageWork(stage: R.Stage): nat {
    match stage
    case Exited => 0
    case AtLoopHead => 1
    case Refusing(script) => |script| + 2
    case InGoal(_) => 8
    case Holding(_) => 18
    case Requeuing(_) => 22
  }

  /** What is left for the thread and the callbacks of a remote goal. */
  function Work(h: R.Handle): nat {
    20 * |h.waitQueue| + StageWork(h.stage)
    + CallbackWork(h.goalCb) + CallbackWork(h.cancelCb) + CallbackWork(h.resultCb)
  }

  /**
   * One way to go on: callbacks first, then the thread. The local action
   * decides as `accepts` says and the checks of executeGoal come out as given.
   */
  function NextStep(h: R.Handle, accepts: bool, limits: Limits, available: bool): R.Event {
    if h.goalCb.Due? then R.AnswerGoal(accepts)
    else if h.goalCb.Running? then R.RunGoalCallback
    else if h.cancelCb.Due? then R.AnswerCancel(accepts)
    else if h.cancelCb.Running? then R.RunCancelCallback
    else if h.resultCb.Running? then R.RunResultCallback
    else match h.stage
      case Refusing(_) => R.RunRefusal
      case InGoal(_) => R.CheckGoal(limits, available)
      case Holding(_) => R.Dispatch
      case Requeuing(_) => R.PutBack
      case _ => R.Take
  }

  /** The thread has left, or waits for messages with nothing else going on. */
  predicate Resting(h: R.Handle) {
    || h.stage.Exited?
    || (h.stage.AtLoopHead? && !h.flags.done && h.waitQueue == [])
  }

  lemma GoalCallbackWorks(h: R.Handle, accepts: bool, limits: Limits, available: bool)
    requires R.Inv(h) && !h.goalCb.Idle?
    ensures Work(R.Step(h, NextStep(h, accepts, limits, available))) < Work(h)
  {
  }

  lemma OtherCallbackWorks(h: R.Handle, accepts: bool, limits: Limits, available: bool)
    requires R.Inv(h) && h.goalCb.Idle? && !(h.cancelCb.Idle? && h.resultCb.Idle?)
    ensures Work(R.Step(h, NextStep(h, accepts, limits, available))) < Work(h)
  {
  }

  lemma GoalStageWorks(h: R.Handle, accepts: bool, limits: Limits, available: bool)
    requires R.Inv(h) && h.goalCb.Idle? && h.cancelCb.Idle? && h.resultCb.Idle?
    requires h.stage.Refusing? || h.stage.InGoal?
    ensures Work(R.Step(h, NextStep(h, accepts, limits, available))) < Work(h)
  {
  }

  lemma ThreadStepWorks(h: R.Handle, accepts: bool, limits: Limits, available: bool)
    requires R.Inv(h) && !Resting(h) && h.goalCb.Idle? && h.cancelCb.Idle? && h.resultCb.Idle?
    requires !h.stage.Refusing? && !h.stage.InGoal?
    ensures Work(R.Step(h, NextStep(h, accepts, limits, available))) < Work(h)
  {
  }

  /** A goal that does not rest has a step to make, and less to do after it. */
  lemma NextStepWorks(h: R.Handle, accepts: bool, limits: Limits, available: bool)
    requires R.Inv(h) && !Resting(h)
    ensures Work(R.Step(h, NextStep(h, accepts, limits, available))) < Work(h)
  {
    if !h.goalCb.Idle? { GoalCallbackWorks(h, accepts, limits, available); }
    else if !(h.cancelCb.Idle? && h.resultCb.Idle?) { OtherCallbackWorks(h, accepts, limits, available); }
    else if h.stage.Refusing? || h.stage.InGoal? { GoalStageWorks(h, accepts, limits, available); }
    else { ThreadStepWorks(h, accepts, limits, available); }
  }

  lemma RestingHoldsNothing(h: R.Handle)
    requires R.Inv(h) && Resting(h)
    ensures h.flags.done || R.CancelsHeld(h) == 0
  {
  }

  /** The remote goal of a pair rests. */
  predicate RemoteRests(p: Pair) {
    p.remote.Some? && Resting(p.remote.value)
  }

  function RemoteWork(p: Pair): nat {
    if p.remote.None? then 0 else Work(p.remote.value)
  }

  /** The next step of a pair's remote goal. */
  function RemoteNext(p: Pair, accepts: bool, limits: Limits, available: bool): R.Event
    requires p.remote.Some?
  {
    NextStep(p.remote.value, accepts, limits, available)
  }

  lemma RemoteNextWorks(p: Pair, accepts: bool, limits: Limits, available: bool)
    requires Inv(p) && p.remote.Some? && !RemoteRests(p)
    ensures var q := GoalLink.Step(p, Remote(RemoteNext(p, accepts, limits, available)));
            q.remote.Some? && RemoteWork(q) < RemoteWork(p) && q.goal == p.goal && q.down == p.down
  {
    NextStepWorks(p.remote.value, accepts, limits, available);
  }

  /** A step of the remote side or of the link, which the originating side has no part in. */
  predicate IsRemote(e: Event) {
    e.AtClient? || e.ToClient?
  }

  lemma RemoteStepWorks(es: seq<Event>, gid: Bytes, accepts: bool, limits: Limits, available: bool) returns (e: Event)
    requires View(Run(es), gid).remote.Some? && !RemoteRests(View(Run(es), gid))
    ensures IsRemote(e)
    ensures var p, q := View(Run(es), gid), View(Run(es + [e]), gid);
            q.remote.Some? && RemoteWork(q) < RemoteWork(p) && q.goal == p.goal && q.down == p.down
  {
    var p := View(Run(es), gid);
    e := AtClient(gid, RemoteNext(p, accepts, limits, available));
    ProjectedStep(es, e, gid);
    RemoteNextWorks(p, accepts, limits, available);
  }

  /** Left to itself the remote side of a goal comes to rest, whatever its action decides. */
  lemma {:induction false} RemoteComesToRest(es: seq<Event>, gid: Bytes, accepts: bool, limits: Limits, available: bool)
    returns (more: seq<Event>)
    requires View(Run(es), gid).remote.Some?
    ensures forall e <- more :: IsRemote(e)
    ensures RemoteRests(View(Run(es + more), gid))
    ensures View(Run(es + more), gid).goal == View(Run(es), gid).goal
    ensures View(Run(es + more), gid).down == View(Run(es), gid).down
    decreases RemoteWork(View(Run(es), gid))
  {
    if RemoteRests(View(Run(es), gid)) {
      more := [];
      AppendNothing(es);
    } else {
      var e := RemoteStepWorks(es, gid, accepts, limits, available);
      var rest := RemoteComesToRest(es + [e], gid, accepts, limits, available);
      more := [e] + rest;
      Assoc(es, [e], rest);
    }
  }

  lemma ReceivingShrinks(es: seq<Event>)
    requires Run(es).toClient != []
    ensures |Run(es + [ToClient]).toClient| == |Run(es).toClient| - 1
  {
    RunSnoc(es, ToClient);
  }

  lemma ReceivingKeepsGoal(es: seq<Event>, gid: Bytes)
    ensures View(Run(es + [ToClient]), gid).goal == View(Run(es), gid).goal
  {
    StepOrSame(es, ToClient, gid);
    DownKeepsGoal(View(Run(es), gid), View(Run(es + [ToClient]), gid));
  }

  lemma DownKeepsGoal(p: Pair, q: Pair)
    requires OneAct(p, DeliverDown, q)
    ensures q.goal == p.goal
  {
  }

  /** Everything on its way to the remote side can be received. */
  lemma {:induction false} ReceiveAll(es: seq<Event>, gid: Bytes) returns (more: seq<Event>)
    ensures forall e <- more :: IsRemote(e)
    ensures Run(es + more).toClient == [] && View(Run(es + more), gid).goal == View(Run(es), gid).goal
    decreases |Run(es).toClient|
  {
    if Run(es).toClient == [] {
      more := [];
      AppendNothing(es);
    } else {
      ReceivingShrinks(es);
      ReceivingKeepsGoal(es, gid);
      var rest := ReceiveAll(es + [ToClient], gid);
      more := [ToClient] + rest;
      Assoc(es, [ToClient], rest);
    }
  }

  lemma SentHasArrived(p: Pair)
    requires Inv(p) && p.down == [] && !Early(p.goal)
    ensures p.remote.Some?
  {
  }

  /** With nothing in transit and the remote side at rest, a CANCEL was handed on, or the goal is done. */
  lemma RestingIsCancelled(p: Pair)
    requires Inv(p) && p.down == [] && RemoteRests(p) && p.goal.cancels > 0
    ensures p.remote.value.flags.done || p.remote.value.cancelCalls > 0
  {
    RestingHoldsNothing(p.remote.value);
  }

  /**
   * No timed-out goal runs on: from every state in which sendGoalAndWait has
   * given up - or its caller cancelled - the link and the remote side alone lead
   * to a state in which the remote action was asked to cancel or the remote goal
   * is done, whether the action accepts or rejects what it is asked meanwhile.
   */
  lemma CancelReachesAction(es: seq<Event>, gid: Bytes, accepts: bool, limits: Limits, available: bool)
    returns (more: seq<Event>)
    requires GoalOf(Run(es), gid).cancels > 0 && !Early(GoalOf(Run(es), gid))
    ensures forall e <- more :: IsRemote(e)
    ensures var s := Run(es + more);
            gid in s.remotes && (s.remotes[gid].flags.done || s.remotes[gid].cancelCalls > 0)
  {
    var received := ReceiveAll(es, gid);
    var mid := View(Run(es + received), gid);
    SystemInv(es + received, gid);
    SentHasArrived(mid);
    var rest := RemoteComesToRest(es + received, gid, accepts, limits, available);
    more := received + rest;
    Assoc(es, received, rest);
    SystemInv(es + more, gid);
    RestingIsCancelled(View(Run(es + more), gid));
  }

  /** A goal whose call timed out has sent a CANCEL, so this holds of it. */
  lemma TimeoutReachesAction(es: seq<Event>, gid: Bytes, accepts: bool, limits: Limits, available: bool)
    returns (more: seq<Event>)
    requires GoalOf(Run(es), gid).call.TimedOut?
    ensures forall e <- more :: IsRemote(e)
    ensures var s := Run(es + more);
            gid in s.remotes && (s.remotes[gid].flags.done || s.remotes[gid].cancelCalls > 0)
  {
    NoOrphanedGoal(es, gid);
    more := CancelReachesAction(es, gid, accepts, limits, available);
  }
}
