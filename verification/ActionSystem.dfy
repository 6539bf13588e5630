/**
 * Both sides of an action with any number of goals, over one connection: the
 * goal table and the remote table, and one ordered queue in each direction
 * shared by all goals. Goal ids are UUIDs, so each names one call of
 * sendGoalAndWait.
 */
module ActionSystem {
  import opened Types
  import opened Sequences
  import opened GoalTrace
  import opened GoalLink
  import L = ActionServer
  import R = RemoteGoal

  datatype System = System(
    goals: map<Bytes, L.Goal>, remotes: map<Bytes, R.Handle>, bounces: map<Bytes, nat>,
    toClient: seq<Message>, toServer: seq<Message>)

  datatype Event = AtServer(gid: Bytes, le: L.Event) | AtClient(gid: Bytes, re: R.Event) | ToClient | ToServer

  const Initial := System(map[], map[], map[], [], [])

  function GoalOf(s: System, gid: Bytes): L.Goal {
    if gid in s.goals then s.goals[gid] else L.NewGoal(gid)
  }

  function RemoteOf(s: System, gid: Bytes): Option<R.Handle> {
    if gid in s.remotes then Some(s.remotes[gid]) else None
  }

  function BouncesOf(s: System, gid: Bytes): nat {
    if gid in s.bounces then s.bounces[gid] else 0
  }

  /** handle() of the action client. */
  function Receive(s: System, m: Message): System {
    var known := m.gid in s.remotes && s.remotes[m.gid].inTable;
    if m.op.GoalRequest? then
      if known then s.(toServer := s.toServer + [Reject(m.gid)])
      else s.(remotes := s.remotes[m.gid := R.NewHandle(m)])
    else if m.op.CancelRequest? then
      if known then s.(remotes := s.remotes[m.gid := R.Push(s.remotes[m.gid], m)])
      else s.(toServer := s.toServer + [Reject(m.gid)], bounces := s.bounces[m.gid := BouncesOf(s, m.gid) + 1])
    else s
  }

  function Step(s: System, e: Event): System {
    match e
    case AtServer(gid, le) =>
      var (goal, sent) := L.Step(GoalOf(s, gid), le);
      s.(goals := s.goals[gid := goal], toClient := s.toClient + sent)
    case AtClient(gid, re) =>
      if gid !in s.remotes then s
      else s.(remotes := s.remotes[gid := R.Step(s.remotes[gid], re)],
              toServer := s.toServer + R.Sent(s.remotes[gid], re))
    case ToClient =>
      if s.toClient == [] then s else Receive(s.(toClient := s.toClient[1..]), s.toClient[0])
    case ToServer =>
      if s.toServer == [] then s else Hear(s.(toServer := s.toServer[1..]), s.toServer[0])
  }

  /** handle() of the action server. */
  function Hear(s: System, m: Message): System {
    if m.gid !in s.goals then s else s.(goals := s.goals[m.gid := L.Deliver(s.goals[m.gid], m)])
  }

  function Run(es: seq<Event>): System
    decreases |es|
  {
    if es == [] then Initial else Step(Run(es[..|es| - 1]), es[|es| - 1])
  }

  // ---------- one goal id in the system ----------

  function OfGid(m: Message, gid: Bytes): seq<Message> {
    if m.gid == gid then [m] else []
  }

  function Only(ms: seq<Message>, gid: Bytes): seq<Message> {
    Gather((m: Message) => OfGid(m, gid), ms)
  }

  function View(s: System, gid: Bytes): Pair {
    Pair(GoalOf(s, gid), Only(s.toClient, gid), Only(s.toServer, gid), RemoteOf(s, gid), BouncesOf(s, gid))
  }

  /** The goal id an event is about. */
  function About(s: System, e: Event): Option<Bytes> {
    match e
    case AtServer(gid, _) => Some(gid)
    case AtClient(gid, _) => Some(gid)
    case ToClient => if s.toClient == [] then None else Some(s.toClient[0].gid)
    case ToServer => if s.toServer == [] then None else Some(s.toServer[0].gid)
  }

  function ActOf(e: Event): Act {
    match e
    case AtServer(_, le) => Local(le)
    case AtClient(_, re) => Remote(re)
    case ToClient => DeliverDown
    case ToServer => DeliverUp
  }

  lemma {:induction false} OnlyTagged(ms: seq<Message>, gid: Bytes, tag: Bytes)
    requires forall i :: 0 <= i < |ms| ==> ms[i].gid == tag
    ensures Only(ms, gid) == if gid == tag then ms else []
  {
    if ms != [] {
      OnlyTagged(ms[1..], gid, tag);
      assert ms == [ms[0]] + ms[1..];
    }
  }

  lemma OnlyExtends(ms: seq<Message>, sent: seq<Message>, gid: Bytes, tag: Bytes)
    requires forall m <- sent :: m.gid == tag
    ensures Only(ms + sent, gid) == Only(ms, gid) + if gid == tag then sent else []
  {
    GatherConcat((m: Message) => OfGid(m, gid), ms, sent);
    OnlyTagged(sent, gid, tag);
  }

  lemma OnlyHead(ms: seq<Message>, gid: Bytes)
    requires ms != []
    ensures Only(ms, gid) == OfGid(ms[0], gid) + Only(ms[1..], gid)
  {
    GatherHead((m: Message) => OfGid(m, gid), ms);
  }

  lemma ServerStepProjects(s: System, tag: Bytes, le: L.Event, gid: Bytes)
    requires GoalOf(s, tag).gid == tag
    ensures View(Step(s, AtServer(tag, le)), gid)
         == if gid == tag then GoalLink.Step(View(s, gid), Local(le)) else View(s, gid)
  {
    LocalKeepsHistory(GoalOf(s, tag), le);
    OnlyExtends(s.toClient, L.Step(GoalOf(s, tag), le).1, gid, tag);
  }

  lemma ClientStepProjects(s: System, tag: Bytes, re: R.Event, gid: Bytes)
    requires tag in s.remotes ==> s.remotes[tag].gid == tag
    ensures View(Step(s, AtClient(tag, re)), gid)
         == if gid == tag then GoalLink.Step(View(s, gid), Remote(re)) else View(s, gid)
  {
    if tag in s.remotes { OnlyExtends(s.toServer, R.Sent(s.remotes[tag], re), gid, tag); }
  }

  /** What receiving m does to the queue from the client. */
  function Bounce(s: System, m: Message): seq<Message> {
    var known := m.gid in s.remotes && s.remotes[m.gid].inTable;
    if (m.op.GoalRequest? && known) || (m.op.CancelRequest? && !known) then [Reject(m.gid)] else []
  }

  lemma ReceiveBounces(s: System, m: Message, gid: Bytes)
    ensures Receive(s, m).toServer == s.toServer + Bounce(s, m)
    ensures Only(Receive(s, m).toServer, gid) == Only(s.toServer, gid) + if m.gid == gid then Bounce(s, m) else []
  {
    OnlyExtends(s.toServer, Bounce(s, m), gid, m.gid);
  }

  lemma ReceiveIsOwn(s: System, m: Message)
    ensures View(Receive(s, m), m.gid) == GoalLink.Receive(View(s, m.gid), m)
  {
    ReceiveBounces(s, m, m.gid);
  }

  lemma ReceiveSparesOthers(s: System, m: Message, gid: Bytes)
    requires gid != m.gid
    ensures View(Receive(s, m), gid) == View(s, gid)
  {
    ReceiveBounces(s, m, gid);
    assert Only(s.toServer, gid) + [] == Only(s.toServer, gid);
  }

  lemma ToOwnClientProjects(s: System, gid: Bytes)
    requires s.toClient != [] && s.toClient[0].gid == gid
    ensures View(Step(s, ToClient), gid) == GoalLink.Step(View(s, gid), DeliverDown)
  {
    var m, rest := s.toClient[0], s.(toClient := s.toClient[1..]);
    OnlyHead(s.toClient, gid);
    ReceiveIsOwn(rest, m);
    assert View(s, gid).down == [m] + Only(s.toClient[1..], gid);
    assert View(rest, gid) == View(s, gid).(down := View(s, gid).down[1..]);
  }

  lemma ToOtherClientProjects(s: System, gid: Bytes)
    requires s.toClient != [] && s.toClient[0].gid != gid
    ensures View(Step(s, ToClient), gid) == View(s, gid)
  {
    var m, rest := s.toClient[0], s.(toClient := s.toClient[1..]);
    OnlyHead(s.toClient, gid);
    ReceiveSparesOthers(rest, m, gid);
    assert [] + Only(s.toClient[1..], gid) == Only(s.toClient[1..], gid);
  }

  lemma ToClientProjects(s: System, gid: Bytes)
    ensures View(Step(s, ToClient), gid)
         == if About(s, ToClient) == Some(gid) then GoalLink.Step(View(s, gid), DeliverDown) else View(s, gid)
  {
    if s.toClient != [] {
      if s.toClient[0].gid == gid { ToOwnClientProjects(s, gid); } else { ToOtherClientProjects(s, gid); }
    }
  }

  lemma HearProjects(s: System, m: Message, gid: Bytes)
    requires m.gid == gid ==> gid in s.goals
    ensures View(Hear(s, m), gid)
         == View(s, gid).(goal := if m.gid == gid then L.Deliver(GoalOf(s, gid), m) else GoalOf(s, gid))
  {
  }

  lemma ToServerProjects(s: System, gid: Bytes)
    requires About(s, ToServer) == Some(gid) ==> gid in s.goals
    ensures View(Step(s, ToServer), gid)
         == if About(s, ToServer) == Some(gid) then GoalLink.Step(View(s, gid), DeliverUp) else View(s, gid)
  {
    if s.toServer != [] {
      var m, rest := s.toServer[0], s.(toServer := s.toServer[1..]);
      OnlyHead(s.toServer, gid);
      HearProjects(rest, m, gid);
      if m.gid == gid {
        assert View(s, gid).up == [m] + Only(s.toServer[1..], gid);
        assert View(rest, gid) == View(s, gid).(up := View(s, gid).up[1..]);
      } else {
        assert View(rest, gid) == View(s, gid);
      }
    }
  }

  /**
   * The shared tables and queues refine one independent pair per goal id: an
   * event is a step of the pair it is about and leaves every other pair as it is.
   */
  lemma StepProjects(s: System, e: Event, gid: Bytes)
    requires e.AtServer? || e.AtClient? ==> Tagged(s, e.gid)
    requires Tagged(s, gid)
    ensures View(Step(s, e), gid)
         == if About(s, e) == Some(gid) then GoalLink.Step(View(s, gid), ActOf(e)) else View(s, gid)
  {
    match e
    case AtServer(tag, le) => ServerStepProjects(s, tag, le, gid);
    case AtClient(tag, re) => ClientStepProjects(s, tag, re, gid);
    case ToClient => ToClientProjects(s, gid);
    case ToServer =>
      OnlyInQueue(s, gid);
      ToServerProjects(s, gid);
  }

  /** A goal id is filed under itself, and nothing is on its way up before its goal exists. */
  predicate Tagged(s: System, gid: Bytes) {
    && GoalOf(s, gid).gid == gid
    && (gid in s.remotes ==> s.remotes[gid].gid == gid)
    && (gid !in s.goals ==> Only(s.toServer, gid) == [])
  }

  lemma OnlyInQueue(s: System, gid: Bytes)
    requires Tagged(s, gid)
    ensures About(s, ToServer) == Some(gid) ==> gid in s.goals
  {
    if s.toServer != [] { OnlyHead(s.toServer, gid); }
  }

  lemma GidStays(p: Pair, a: Act)
    ensures GoalLink.Step(p, a).goal.gid == p.goal.gid
  {
  }

  lemma InvTags(s: System, gid: Bytes)
    requires Inv(View(s, gid)) && GoalOf(s, gid).gid == gid
    ensures Tagged(s, gid)
  {
  }

  /** In every run the invariant of the pair holds for every goal id. */
  lemma {:induction false} SystemInv(es: seq<Event>, gid: Bytes)
    ensures Inv(View(Run(es), gid)) && GoalOf(Run(es), gid).gid == gid
    decreases |es|
  {
    if es == [] {
      NewPairInv(gid);
    } else {
      var s, e := Run(es[..|es| - 1]), es[|es| - 1];
      SystemInv(es[..|es| - 1], gid);
      InvTags(s, gid);
      if e.AtServer? || e.AtClient? {
        SystemInv(es[..|es| - 1], e.gid);
        InvTags(s, e.gid);
      }
      SystemStepInv(s, e, gid);
    }
  }

  lemma SystemStepInv(s: System, e: Event, gid: Bytes)
    requires Inv(View(s, gid)) && GoalOf(s, gid).gid == gid && Tagged(s, gid)
    requires e.AtServer? || e.AtClient? ==> Tagged(s, e.gid)
    ensures Inv(View(Step(s, e), gid)) && GoalOf(Step(s, e), gid).gid == gid
  {
    var p, p' := View(s, gid), View(Step(s, e), gid);
    StepProjects(s, e, gid);
    if About(s, e) == Some(gid) {
      GoalLink.StepKeepsInv(p, ActOf(e));
      GidStays(p, ActOf(e));
      assert p' == GoalLink.Step(p, ActOf(e));
    } else {
      assert p' == p;
    }
    assert p'.goal.gid == p.goal.gid;
  }

  // ---------- no goal is orphaned ----------

  function CancelIn(m: Message): seq<Message> {
    if m.op.CancelRequest? then [m] else []
  }

  /** CANCELs for a goal id that have not reached the client. */
  function CancelsInTransit(s: System, gid: Bytes): nat {
    |Gather(CancelIn, Only(s.toClient, gid))|
  }

  function CancelsHeld(s: System, gid: Bytes): nat {
    if gid in s.remotes then R.CancelsHeld(s.remotes[gid]) else 0
  }

  function CancelsHandedOn(s: System, gid: Bytes): nat {
    if gid in s.remotes then s.remotes[gid].cancelCalls else 0
  }

  function CancelsAbsorbed(s: System, gid: Bytes): nat {
    if gid in s.remotes then s.remotes[gid].absorbed else 0
  }

  lemma {:induction false} AllCancelsCount(ms: seq<Message>)
    requires R.AllCancels(ms)
    ensures |Gather(CancelIn, ms)| == |ms|
  {
    if ms != [] { AllCancelsCount(ms[1..]); }
  }

  lemma TransitCount(p: Pair)
    requires DownPoint(p)
    ensures |Gather(CancelIn, p.down)| == |p.down| - R.One(GoalInTransit(p))
  {
    if GoalInTransit(p) {
      AllCancelsCount(p.down[1..]);
      GatherHead(CancelIn, p.down);
    } else {
      AllCancelsCount(p.down);
    }
  }

  /**
   * Conservation of cancels in every run: each CANCEL sent for a goal is in
   * exactly one place - in transit, waiting in the remote handle, handed to the
   * local action, absorbed by one that was, or bounced off a handle that was
   * done and removed.
   */
  lemma CancelConservation(es: seq<Event>, gid: Bytes)
    ensures var s := Run(es);
            && GoalOf(s, gid).cancels
               == CancelsInTransit(s, gid) + CancelsHeld(s, gid) + CancelsHandedOn(s, gid)
                  + CancelsAbsorbed(s, gid) + BouncesOf(s, gid)
            && (CancelsAbsorbed(s, gid) > 0 ==> CancelsHandedOn(s, gid) > 0)
            && (BouncesOf(s, gid) > 0 ==> gid in s.remotes && s.remotes[gid].flags.done && !s.remotes[gid].inTable)
  {
    SystemInv(es, gid);
    TransitCount(View(Run(es), gid));
  }

  /**
   * No remote goal is orphaned by a timeout: once sendGoalAndWait has given up,
   * it has sent one CANCEL, and that CANCEL is on its way, held by the remote
   * handle, handed to the local action, or arrived after the remote handle was
   * done and removed.
   */
  lemma NoOrphanedGoal(es: seq<Event>, gid: Bytes)
    requires GoalOf(Run(es), gid).call.TimedOut?
    ensures var s := Run(es);
            && GoalOf(s, gid).cancels == 1
            && CancelsInTransit(s, gid) + CancelsHeld(s, gid) + CancelsHandedOn(s, gid) + BouncesOf(s, gid) == 1
            && (BouncesOf(s, gid) == 1 ==> gid in s.remotes && s.remotes[gid].flags.done && !s.remotes[gid].inTable)
  {
    CancelConservation(es, gid);
    SystemInv(es, gid);
  }

  // ---------- verdicts agree ----------

  lemma VerdictMeans(h: R.Handle)
    requires R.Inv(h)
    ensures R.Verdicts(h.emitted) == [GoalAccept] ==> h.goalCalls == 1 && h.verdict.Some?
    ensures R.Verdicts(h.emitted) == [GoalReject] ==> h.goalCalls == 0 && h.verdict.None? && R.WasRefused(h)
  {
  }

  /**
   * Agreement in every run: an accepted goal was handed to the remote action,
   * which answered; a rejected goal was refused by executeGoal and never handed
   * on; an accepted cancel was accepted by the remote action.
   */
  lemma VerdictsAgree(es: seq<Event>, gid: Bytes)
    ensures var s := Run(es);
            var g := GoalOf(s, gid);
            && (g.call == L.Answered(L.Accept) ==>
                  gid in s.remotes && s.remotes[gid].goalCalls == 1 && s.remotes[gid].verdict.Some?)
            && (g.call == L.Answered(L.Reject) ==>
                  && gid in s.remotes && s.remotes[gid].goalCalls == 0
                  && s.remotes[gid].verdict.None? && R.WasRefused(s.remotes[gid]))
            && (g.cancelAccepted ==> gid in s.remotes && s.remotes[gid].cancelAccepts > 0)
  {
    SystemInv(es, gid);
    if gid in Run(es).remotes { VerdictMeans(Run(es).remotes[gid]); }
    AnswerIsVerdict(View(Run(es), gid));
  }

  /** The reject paths of executeGoal always yield REJECT: such a goal is never accepted, now or later. */
  lemma {:induction false} RefusedGoalIsNeverAccepted(es: seq<Event>, more: seq<Event>, gid: Bytes)
    requires gid in Run(es).remotes && R.WasRefused(Run(es).remotes[gid])
    ensures gid in Run(es + more).remotes && R.WasRefused(Run(es + more).remotes[gid])
    ensures GoalOf(Run(es + more), gid).call != L.Answered(L.Accept)
    decreases |more|
  {
    if more == [] {
      assert es + more == es;
    } else {
      var before, e := es + more[..|more| - 1], more[|more| - 1];
      assert (es + more)[..|es + more| - 1] == before && (es + more)[|es + more| - 1] == e;
      RefusedGoalIsNeverAccepted(es, more[..|more| - 1], gid);
      RefusalStaysInSystem(before, e, gid);
    }
    VerdictsAgree(es + more, gid);
  }

  lemma RefusalStays(p: Pair, a: Act)
    requires DownPoint(p) && RemoteInv(p) && p.remote.Some? && R.WasRefused(p.remote.value)
    ensures GoalLink.Step(p, a).remote.Some? && R.WasRefused(GoalLink.Step(p, a).remote.value)
  {
    if a.Remote? { R.RefusalIsFinal(p.remote.value, a.re); }
    if a.DeliverDown? && p.down != [] { PushedStaysRefused(p.remote.value, p.down[0]); }
  }

  lemma PushedStaysRefused(h: R.Handle, m: Message)
    requires R.WasRefused(h)
    ensures R.WasRefused(R.Push(h, m))
  {
  }

  lemma RefusalStaysInSystem(es: seq<Event>, e: Event, gid: Bytes)
    requires gid in Run(es).remotes && R.WasRefused(Run(es).remotes[gid])
    ensures gid in Step(Run(es), e).remotes && R.WasRefused(Step(Run(es), e).remotes[gid])
  {
    var s := Run(es);
    SystemInv(es, gid);
    InvTags(s, gid);
    if e.AtServer? || e.AtClient? {
      SystemInv(es, e.gid);
      InvTags(s, e.gid);
    }
    StepProjects(s, e, gid);
    RefusalStays(View(s, gid), ActOf(e));
    assert RemoteOf(Step(s, e), gid) == View(Step(s, e), gid).remote;
  }

  lemma AnswerIsVerdict(p: Pair)
    requires LocalInv(p.goal) && Believed(p)
    ensures p.goal.call == L.Answered(L.Accept) ==> R.Verdicts(Emitted(p)) == [GoalAccept]
    ensures p.goal.call == L.Answered(L.Reject) ==> R.Verdicts(Emitted(p)) == [GoalReject]
    ensures p.goal.cancelAccepted ==> Accepts(p) > 0
  {
  }

  /**
   * No outcome depends on a bounced cancel: once one bounced, a GOAL_REJECT
   * that arrives for its goal leaves the goal as it is.
   */
  lemma BouncedCancelsChangeNothing(es: seq<Event>, gid: Bytes)
    requires var s := Run(es);
             BouncesOf(s, gid) > 0 && s.toServer != [] && s.toServer[0].gid == gid && s.toServer[0].op.GoalReject?
    ensures GoalOf(Step(Run(es), ToServer), gid) == GoalOf(Run(es), gid)
  {
    var s := Run(es);
    SystemInv(es, gid);
    InvTags(s, gid);
    OnlyHead(s.toServer, gid);
    StepProjects(s, ToServer, gid);
    BouncedRejectIsIgnored(View(s, gid));
    assert View(s, gid).up[0] == s.toServer[0];
  }

  // ---------- the trace, end to end ----------

  lemma {:induction false} TraceGrows(ms: seq<Message>, more: seq<Message>)
    ensures Trace(ms) <= Trace(ms + more)
    decreases |more|
  {
    if more == [] {
      assert ms + more == ms;
    } else {
      var last := |more| - 1;
      TraceGrows(ms, more[..last]);
      assert ms + more == ms + more[..last] + [more[last]];
      if HasResult(ms + more[..last]) {
        TraceStops(ms + more[..last], [more[last]]);
      } else {
        TraceSnoc(ms + more[..last], more[last]);
      }
    }
  }

  lemma TraceOfPrefix(consumed: seq<Message>, produced: seq<Message>)
    requires consumed <= produced
    ensures Trace(consumed) <= Trace(produced)
    ensures HasResult(consumed) ==> HasResult(produced) && Trace(consumed) == Trace(produced)
  {
    var rest := produced[|consumed|..];
    assert produced == consumed + rest;
    TraceGrows(consumed, rest);
    if HasResult(consumed) {
      HasResultGrows(consumed, rest);
      TraceStops(consumed, rest);
    }
  }

  /**
   * The calls made on an accepted goal follow what the remote action produced:
   * in every run they are a prefix of the trace of everything the remote side
   * sent, and the whole of it once executeAccepted has returned or caught up.
   */
  lemma CallsFollowRemote(es: seq<Event>, gid: Bytes)
    ensures var s := Run(es);
            var g := GoalOf(s, gid);
            var produced := R.Stream(Emitted(View(s, gid)));
            && g.calls <= Trace(produced)
            && (g.thread.Ended? ==> HasResult(produced) && g.calls == Trace(produced))
            && (g.inTable && g.handle.waitQueue == [] && R.Stream(Only(s.toServer, gid)) == [] ==>
                  g.calls == Trace(produced))
  {
    var p := View(Run(es), gid);
    SystemInv(es, gid);
    ConsumedIsPrefix(p);
    TraceOfPrefix(p.goal.consumed, R.Stream(Emitted(p)));
  }

  lemma ConsumedIsPrefix(p: Pair)
    requires LocalInv(p.goal) && Streamed(p)
    ensures p.goal.consumed <= R.Stream(Emitted(p))
    ensures p.goal.inTable && p.goal.handle.waitQueue == [] && R.Stream(p.up) == [] ==>
              p.goal.consumed == R.Stream(Emitted(p))
  {
  }

  // ---------- a goal the remote action rejects ----------

  predicate RejectedRemotely(p: Pair) {
    p.remote.Some? && p.remote.value.verdict == Some(false)
  }

  lemma AnswerStays(h: R.Handle, e: R.Event)
    requires R.Inv(h) && h.verdict.Some?
    ensures R.Step(h, e).verdict == h.verdict
  {
    R.SentIsEmitted(h, e);
  }

  lemma RejectionStays(p: Pair, a: Act)
    requires DownPoint(p) && RemoteInv(p) && RejectedRemotely(p)
    ensures RejectedRemotely(GoalLink.Step(p, a))
  {
    if a.Remote? { AnswerStays(p.remote.value, a.re); }
  }

  lemma NothingFollowsRejection(p: Pair)
    requires Inv(p) && RejectedRemotely(p)
    ensures p.goal.calls == [] && !p.goal.thread.Ended?
  {
    assert R.Stream(Emitted(p)) == [];
    ConsumedIsPrefix(p);
  }

  /**
   * goalRejected answers with GOAL_ACCEPT, so a goal rejected by the remote
   * action can be accepted here; however the run goes on, no call is ever made
   * on it and executeAccepted never returns.
   */
  lemma {:induction false} RejectedGoalNeverEnds(es: seq<Event>, more: seq<Event>, gid: Bytes)
    requires RejectedRemotely(View(Run(es), gid))
    ensures RejectedRemotely(View(Run(es + more), gid))
    ensures GoalOf(Run(es + more), gid).calls == [] && !GoalOf(Run(es + more), gid).thread.Ended?
    decreases |more|
  {
    if more == [] {
      assert es + more == es;
    } else {
      var shorter, e := es + more[..|more| - 1], more[|more| - 1];
      assert (es + more)[..|es + more| - 1] == shorter && (es + more)[|es + more| - 1] == e;
      RejectedGoalNeverEnds(es, more[..|more| - 1], gid);
      RejectionStaysInSystem(shorter, e, gid);
    }
    SystemInv(es + more, gid);
    NothingFollowsRejection(View(Run(es + more), gid));
  }

  lemma RejectionStaysInSystem(es: seq<Event>, e: Event, gid: Bytes)
    requires RejectedRemotely(View(Run(es), gid))
    ensures RejectedRemotely(View(Step(Run(es), e), gid))
  {
    var s := Run(es);
    SystemInv(es, gid);
    InvTags(s, gid);
    if e.AtServer? || e.AtClient? {
      SystemInv(es, e.gid);
      InvTags(s, e.gid);
    }
    StepProjects(s, e, gid);
    RejectionStays(View(s, gid), ActOf(e));
  }

  lemma RunSnoc(es: seq<Event>, e: Event)
    ensures Run(es + [e]) == Step(Run(es), e)
  {
    assert (es + [e])[..|es|] == es;
  }

  /** Sends the goal, and lets the client take it up and hand it to the local action. */
  function Request(gid: Bytes): seq<Event> {
    [AtServer(gid, L.InsertHandle)] + [AtServer(gid, L.RaiseGoalFlag)]
    + [AtServer(gid, L.SendGoalRequest(Some([])))] + [ToClient]
  }

  function Asked(gid: Bytes): seq<Event> {
    Request(gid) + [AtClient(gid, R.Take)] + [AtClient(gid, R.Dispatch)]
    + [AtClient(gid, R.CheckGoal(Limits(0, true), true))]
  }

  function Decline(gid: Bytes): seq<Event> {
    Asked(gid) + [AtClient(gid, R.AnswerGoal(false))] + [AtClient(gid, R.RunGoalCallback)]
  }

  function Divergence(gid: Bytes): seq<Event> {
    Decline(gid) + [ToServer] + [AtServer(gid, L.ReturnFromGoal)] + [AtServer(gid, L.AcceptedCallback)]
  }

  lemma RequestArrives(gid: Bytes)
    ensures var s := Run(Request(gid));
            && gid in s.goals && gid in s.remotes && s.toClient == [] && s.toServer == []
            && s.remotes[gid] == R.NewHandle(Message(GoalRequest, gid, Some([])))
            && s.goals[gid].call.Waiting? && s.goals[gid].inTable && s.goals[gid].handle.goal.handling
            && s.goals[gid].thread.NotStarted? && !s.goals[gid].handle.threadStarted
  {
    var a := [AtServer(gid, L.InsertHandle)];
    var b := a + [AtServer(gid, L.RaiseGoalFlag)];
    var c := b + [AtServer(gid, L.SendGoalRequest(Some([])))];
    RunSnoc([], a[0]);
    RunSnoc(a, AtServer(gid, L.RaiseGoalFlag));
    RunSnoc(b, AtServer(gid, L.SendGoalRequest(Some([]))));
    RunSnoc(c, ToClient);
  }

  lemma ActionIsAsked(gid: Bytes)
    ensures var s, r := Run(Asked(gid)), Run(Request(gid));
            && gid in s.remotes && s.goals == r.goals && s.toServer == []
            && s.remotes[gid].gid == gid && s.remotes[gid].goalCb.Due?
  {
    RequestArrives(gid);
    var a := Request(gid) + [AtClient(gid, R.Take)];
    var b := a + [AtClient(gid, R.Dispatch)];
    RunSnoc(Request(gid), AtClient(gid, R.Take));
    RunSnoc(a, AtClient(gid, R.Dispatch));
    RunSnoc(b, AtClient(gid, R.CheckGoal(Limits(0, true), true)));
  }

  lemma DeclineAnswersAccept(gid: Bytes)
    ensures var s := Run(Decline(gid));
            && gid in s.goals && gid in s.remotes && s.toServer == [Message(GoalAccept, gid, Some([]))]
            && s.remotes[gid].verdict == Some(false)
            && s.goals == Run(Request(gid)).goals
  {
    RequestArrives(gid);
    ActionIsAsked(gid);
    var a := Asked(gid) + [AtClient(gid, R.AnswerGoal(false))];
    DecliningSendsAccept(Run(Asked(gid)), gid);
    RunSnoc(Asked(gid), AtClient(gid, R.AnswerGoal(false)));
    RunSnoc(a, AtClient(gid, R.RunGoalCallback));
  }

  lemma DecliningSendsAccept(s: System, gid: Bytes)
    requires gid in s.remotes && s.remotes[gid].gid == gid && s.remotes[gid].goalCb.Due? && s.toServer == []
    ensures var s' := Step(Step(s, AtClient(gid, R.AnswerGoal(false))), AtClient(gid, R.RunGoalCallback));
            && gid in s'.remotes && s'.toServer == [Message(GoalAccept, gid, Some([]))]
            && s'.remotes[gid].verdict == Some(false) && s'.goals == s.goals
  {
  }

  lemma AcceptStartsThread(g: L.Goal, m: Message)
    requires g.call.Waiting? && g.inTable && g.handle.goal.handling && !g.handle.threadStarted && m.op.GoalAccept?
    ensures var g' := L.Step(L.Step(L.Deliver(g, m), L.ReturnFromGoal).0, L.AcceptedCallback).0;
            g'.call == L.Answered(L.Accept) && g'.thread.Looping?
  {
  }

  /** The divergence happens: a run in which the remote action rejects and this side accepts and starts its thread. */
  lemma RejectedGoalIsAccepted(gid: Bytes)
    ensures var s := Run(Divergence(gid));
            && gid in s.goals && gid in s.remotes && s.remotes[gid].verdict == Some(false)
            && s.goals[gid].call == L.Answered(L.Accept) && s.goals[gid].thread.Looping?
  {
    RequestArrives(gid);
    DeclineAnswersAccept(gid);
    var a := Decline(gid) + [ToServer];
    var b := a + [AtServer(gid, L.ReturnFromGoal)];
    var g := Run(Decline(gid)).goals[gid];
    AcceptStartsThread(g, Message(GoalAccept, gid, Some([])));
    RunSnoc(Decline(gid), ToServer);
    assert Run(a).goals[gid] == L.Deliver(g, Message(GoalAccept, gid, Some([])));
    RunSnoc(a, AtServer(gid, L.ReturnFromGoal));
    assert Run(b).goals[gid] == L.Step(Run(a).goals[gid], L.ReturnFromGoal).0;
    RunSnoc(b, AtServer(gid, L.AcceptedCallback));
  }

  /** Whether an answered call says what the remote action decided; an unasked action counts as not accepting. */
  predicate Agreed(p: Pair)
    requires p.goal.call.Answered?
  {
    p.goal.call.response == L.Accept <==> (p.remote.Some? && p.remote.value.verdict == Some(true))
  }

  lemma AgreedUnlessRejected(p: Pair)
    requires p.goal.call.Answered?
    requires p.goal.call == L.Answered(L.Accept) ==> p.remote.Some? && p.remote.value.verdict.Some?
    requires p.goal.call == L.Answered(L.Reject) ==> p.remote.Some? && p.remote.value.verdict.None?
    ensures Agreed(p) <==> !RejectedRemotely(p)
  {
    assert p.goal.call == L.Answered(p.goal.call.response);
    if p.goal.call.response.Accept? {
      if p.remote.value.verdict.value { assert p.remote.value.verdict == Some(true); }
      else { assert p.remote.value.verdict == Some(false); }
    }
  }

  /** The remote action's decision reaches the caller unless that action rejects the goal: exactly then they differ. */
  lemma OutcomeDiffersExactlyOnRejection(es: seq<Event>, gid: Bytes)
    requires View(Run(es), gid).goal.call.Answered?
    ensures Agreed(View(Run(es), gid)) <==> !RejectedRemotely(View(Run(es), gid))
  {
    VerdictsAgree(es, gid);
    AgreedUnlessRejected(View(Run(es), gid));
  }

  // ---------- op-codes ----------

  lemma {:induction false} StreamIsStream(ms: seq<Message>)
    ensures forall m <- R.Stream(ms) :: m.op.Feedback? || m.op.IsResult()
  {
    if ms != [] { StreamIsStream(ms[1..]); }
  }

  lemma {:induction false} OnlyKeepsMembers(ms: seq<Message>, i: nat)
    requires i < |ms|
    ensures ms[i] in Only(ms, ms[i].gid)
  {
    OnlyHead(ms, ms[i].gid);
    if i > 0 { OnlyKeepsMembers(ms[1..], i - 1); }
  }

  /**
   * Op-code closure in every run: only GOAL and CANCEL travel to a client and
   * only answers, feedback and results to a server; client wait queues hold
   * GOAL and CANCEL, server wait queues feedback and results, so no
   * unknown-op-code branch is reached.
   */
  lemma OpCodesAreClosed(es: seq<Event>, gid: Bytes)
    ensures var s := Run(es);
            && (forall m <- s.toClient :: m.op.GoalRequest? || m.op.CancelRequest?)
            && (forall m <- s.toServer :: m.op.Code() >= 4 && !m.op.CancelRequest?)
            && (forall m <- GoalOf(s, gid).arrived :: m.op.Feedback? || m.op.IsResult())
            && (forall m <- GoalOf(s, gid).handle.waitQueue :: m.op.Feedback? || m.op.IsResult())
            && (gid in s.remotes ==> s.remotes[gid].unexpected == 0)
            && (gid in s.remotes ==> forall m <- s.remotes[gid].waitQueue :: m.op.GoalRequest? || m.op.CancelRequest?)
  {
    var s := Run(es);
    QueuesAreClosed(es);
    SystemInv(es, gid);
    StreamIsStream(Emitted(View(s, gid)));
    ArrivedIsStream(View(s, gid));
    if gid in s.remotes { RemoteQueueIsClosed(s.remotes[gid]); }
  }

  lemma QueuesAreClosed(es: seq<Event>)
    ensures forall m <- Run(es).toClient :: m.op.GoalRequest? || m.op.CancelRequest?
    ensures forall m <- Run(es).toServer :: m.op.Code() >= 4 && !m.op.CancelRequest?
  {
    var s := Run(es);
    forall m <- s.toClient ensures m.op.GoalRequest? || m.op.CancelRequest? {
      var i :| 0 <= i < |s.toClient| && s.toClient[i] == m;
      SystemInv(es, m.gid);
      OnlyKeepsMembers(s.toClient, i);
      DownIsClosed(View(s, m.gid), m);
    }
    forall m <- s.toServer ensures m.op.Code() >= 4 && !m.op.CancelRequest? {
      var i :| 0 <= i < |s.toServer| && s.toServer[i] == m;
      SystemInv(es, m.gid);
      OnlyKeepsMembers(s.toServer, i);
      var j :| 0 <= j < |View(s, m.gid).up| && View(s, m.gid).up[j] == m;
      assert True(View(s, m.gid), View(s, m.gid).up[j]);
    }
  }

  lemma DownIsClosed(p: Pair, m: Message)
    requires DownPoint(p) && m in p.down
    ensures m.op.GoalRequest? || m.op.CancelRequest?
  {
    var i :| 0 <= i < |p.down| && p.down[i] == m;
    if GoalInTransit(p) && i > 0 { assert p.down[1..][i - 1] == m; }
  }

  lemma ArrivedIsStream(p: Pair)
    requires LocalInv(p.goal) && Streamed(p)
    requires forall m <- R.Stream(Emitted(p)) :: m.op.Feedback? || m.op.IsResult()
    ensures forall m <- p.goal.arrived :: m.op.Feedback? || m.op.IsResult()
    ensures forall m <- p.goal.handle.waitQueue :: m.op.Feedback? || m.op.IsResult()
  {
    forall m <- p.goal.arrived ensures m in R.Stream(Emitted(p)) {}
    forall m <- p.goal.handle.waitQueue ensures m in p.goal.arrived {}
  }

  lemma RemoteQueueIsClosed(h: R.Handle)
    requires R.Ordered(h)
    ensures forall m <- h.waitQueue :: m.op.GoalRequest? || m.op.CancelRequest?
  {
    forall m <- h.waitQueue ensures m.op.GoalRequest? || m.op.CancelRequest? {
      var i :| 0 <= i < |h.waitQueue| && h.waitQueue[i] == m;
      if h.taken == [] && i > 0 { assert h.waitQueue[1..][i - 1] == m; }
    }
  }
}
