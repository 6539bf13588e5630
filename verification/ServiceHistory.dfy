/**
 * The state of a service's two sides as a function of what happened to them:
 * what each sent, which calls and requests have ended, and what the removal
 * threads leave in the tables.
 */
module ServiceHistory {
  import opened Types
  import opened Sequences
  import SS = ServiceServer
  import SC = ServiceClient

  // ---------- the originating side ----------

  /** The response of a call can be handed to its caller. */
  predicate Usable(c: SS.Call) {
    && c.slot.response.Some? && c.slot.response.value.content.Some?
    && (c.limits.dynamicSize || |c.slot.response.value.content.value| == c.limits.expectedSize)
  }

  /** What an event sends: a request, or the cancel of a call that got no response in time. */
  function SentAt(s: SS.ServerState, e: SS.Event): seq<Message> {
    match e
    case Ask(id, data) =>
      if id < |s.calls| && s.calls[id].stage.FlagRaised? then [Message(ServiceToClient, s.calls[id].gid, Some(data))]
      else []
    case Return(id) =>
      if id < |s.calls| && s.calls[id].stage.Waiting? && s.calls[id].slot.response.None?
      then [Message(ServiceToClientCancel, s.calls[id].gid, Some([]))]
      else []
    case _ => []
  }

  function SentBy(es: seq<SS.Event>): seq<Message>
    decreases |es|
  {
    if es == [] then [] else SentBy(es[..|es| - 1]) + SentAt(SS.Run(es[..|es| - 1]), es[|es| - 1])
  }

  lemma StepSends(s: SS.ServerState, e: SS.Event)
    ensures SS.Step(s, e).sent == s.sent + SentAt(s, e)
  {
    AppendNothing(s.sent);
  }

  /** A service server sends the data of every call in order, and one cancel for each that timed out. */
  lemma {:induction false} SentIsHistory(es: seq<SS.Event>)
    ensures SS.Run(es).sent == SentBy(es)
    decreases |es|
  {
    if es != [] {
      SentIsHistory(es[..|es| - 1]);
      StepSends(SS.Run(es[..|es| - 1]), es[|es| - 1]);
    }
  }

  /** A call ends with done(), or when its wait returns without a usable response. */
  predicate Ends(s: SS.ServerState, e: SS.Event, id: nat) {
    && id < |s.calls|
    && ((e == SS.Finish(id) && s.calls[id].stage.Returned?)
        || (e == SS.Return(id) && s.calls[id].stage.Waiting? && !Usable(s.calls[id])))
  }

  predicate HasEnded(es: seq<SS.Event>, id: nat)
    decreases |es|
  {
    es != [] && (HasEnded(es[..|es| - 1], id) || Ends(SS.Run(es[..|es| - 1]), es[|es| - 1], id))
  }

  predicate IsOver(s: SS.ServerState, id: nat) {
    id < |s.calls| && s.calls[id].stage.Over?
  }

  lemma StepEnds(s: SS.ServerState, e: SS.Event, id: nat)
    ensures IsOver(SS.Step(s, e), id) <==> IsOver(s, id) || Ends(s, e, id)
  {
  }

  lemma {:induction false} OverIffEnded(es: seq<SS.Event>, id: nat)
    ensures IsOver(SS.Run(es), id) <==> HasEnded(es, id)
    decreases |es|
  {
    if es != [] {
      OverIffEnded(es[..|es| - 1], id);
      StepEnds(SS.Run(es[..|es| - 1]), es[|es| - 1], id);
    }
  }

  /** In the removal queue, or popped from it. */
  predicate CallQueued(s: SS.ServerState, id: nat) {
    id in s.toRemove || s.removing == Some(id)
  }

  predicate OverIsQueued(s: SS.ServerState) {
    forall id: nat :: id < |s.calls| && s.calls[id].stage.Over? && SS.Linked(s, id) ==> CallQueued(s, id)
  }

  lemma EndingQueues(s: SS.ServerState, e: SS.Event)
    requires OverIsQueued(s) && (e.Return? || e.Finish?)
    ensures OverIsQueued(SS.Step(s, e))
  {
    var s' := SS.Step(s, e);
    forall id: nat | id < |s'.calls| && s'.calls[id].stage.Over? && SS.Linked(s', id)
      ensures CallQueued(s', id)
    {
      if s.calls[id].stage.Over? { assert SS.Linked(s, id); }
    }
  }

  lemma OtherStepQueues(s: SS.ServerState, e: SS.Event)
    requires SS.Inv(s) && OverIsQueued(s) && !e.Return? && !e.Finish?
    ensures OverIsQueued(SS.Step(s, e))
  {
    var s' := SS.Step(s, e);
    forall id: nat | id < |s'.calls| && s'.calls[id].stage.Over? && SS.Linked(s', id)
      ensures CallQueued(s', id)
    {
      assert id < |s.calls| && s.calls[id].stage.Over? && SS.Linked(s, id);
      assert CallQueued(s, id);
    }
  }

  /**
   * In every run a call that has ended while the table holds its handle is
   * queued for removal or being removed: done() and every failing exit of
   * sendAndWait hand it over.
   */
  lemma {:induction false} EndedCallsAreQueued(es: seq<SS.Event>)
    ensures OverIsQueued(SS.Run(es))
    decreases |es|
  {
    if es != [] {
      var s, e := SS.Run(es[..|es| - 1]), es[|es| - 1];
      EndedCallsAreQueued(es[..|es| - 1]);
      SS.RunInv(es[..|es| - 1]);
      if e.Return? || e.Finish? { EndingQueues(s, e); } else { OtherStepQueues(s, e); }
    }
  }

  predicate IsCallRemoval(es: seq<SS.Event>) {
    forall i :: 0 <= i < |es| ==> es[i].PopRemoval? || es[i].EraseRemoved?
  }

  lemma CallRunSnoc(es: seq<SS.Event>, e: SS.Event)
    ensures SS.Run(es + [e]) == SS.Step(SS.Run(es), e)
    ensures SS.FreshRun(es) && !e.Begin? ==> SS.FreshRun(es + [e])
  {
    assert (es + [e])[..|es|] == es;
  }

  /** Draining the removal queue is a run of its thread, and it leaves the queue empty. */
  lemma {:induction false} DrainingIsRun(es: seq<SS.Event>) returns (more: seq<SS.Event>)
    requires SS.Run(es).removing.None?
    ensures IsCallRemoval(more) && SS.Run(es + more) == SS.Drained(SS.Run(es))
    ensures SS.FreshRun(es) ==> SS.FreshRun(es + more)
    ensures var s, s' := SS.Run(es), SS.Run(es + more);
            s'.toRemove == [] && s'.removing.None? && s'.calls == s.calls
    decreases |SS.Run(es).toRemove|
  {
    SS.RunInv(es);
    if SS.Run(es).toRemove == [] {
      more := [];
      AppendNothing(es);
    } else {
      var a := es + [SS.PopRemoval];
      CallRunSnoc(es, SS.PopRemoval);
      CallRunSnoc(a, SS.EraseRemoved);
      var rest := DrainingIsRun(a + [SS.EraseRemoved]);
      more := [SS.PopRemoval] + [SS.EraseRemoved] + rest;
      Assoc(es, [SS.PopRemoval], [SS.EraseRemoved]);
      Assoc(es, [SS.PopRemoval] + [SS.EraseRemoved], rest);
    }
  }

  /** A call that has begun and not ended. */
  predicate InProgress(s: SS.ServerState, gid: Bytes, id: nat) {
    id < |s.calls| && s.calls[id].gid == gid && !s.calls[id].stage.Over?
  }

  lemma TableOfDrained(s: SS.ServerState, gid: Bytes)
    requires SS.Inv(s) && OverIsQueued(s) && s.toRemove == [] && s.removing.None?
    ensures gid in s.table ==> exists id: nat :: InProgress(s, gid, id)
    ensures SS.AllLinked(s) ==> (gid in s.table <==> exists id: nat :: InProgress(s, gid, id))
  {
    if gid in s.table {
      assert SS.Filed(s, gid);
      var id := s.table[gid];
      assert SS.Linked(s, id);
      assert s.calls[id].stage.Over? ==> CallQueued(s, id);
      assert InProgress(s, gid, id);
    }
    if SS.AllLinked(s) && exists id: nat :: InProgress(s, gid, id) {
      var id: nat :| InProgress(s, gid, id);
      assert SS.Linked(s, id);
    }
  }

  /**
   * Once the removal thread has caught up the table holds calls in progress
   * only, in every run; and exactly those when gids were fresh.
   */
  lemma DrainedTableIsInProgress(es: seq<SS.Event>, gid: Bytes)
    requires SS.Run(es).removing.None?
    ensures var s := SS.Drained(SS.Run(es));
            && s.calls == SS.Run(es).calls
            && (gid in s.table ==> exists id: nat :: InProgress(s, gid, id))
            && (SS.FreshRun(es) ==> (gid in s.table <==> exists id: nat :: InProgress(s, gid, id)))
  {
    var more := DrainingIsRun(es);
    SS.RunInv(es + more);
    EndedCallsAreQueued(es + more);
    if SS.FreshRun(es) { SS.FreshCallsAreLinked(es + more); }
    TableOfDrained(SS.Run(es + more), gid);
  }

  /**
   * A gid can be used again: when every call with it has ended and the removal
   * thread has caught up, the next call with this gid gets the table's entry,
   * so it can be answered.
   */
  lemma EndedGidIsFree(es: seq<SS.Event>, gid: Bytes, limits: Limits)
    requires SS.Run(es).removing.None?
    requires forall id: nat :: id < |SS.Run(es).calls| && SS.Run(es).calls[id].gid == gid ==> HasEnded(es, id)
    ensures var s := SS.Drained(SS.Run(es));
            var s' := SS.Step(s, SS.Begin(gid, limits));
            && gid !in s.table
            && |s'.calls| == |SS.Run(es).calls| + 1 && SS.Linked(s', |s.calls|) && s'.calls[|s.calls|].gid == gid
  {
    DrainedTableIsInProgress(es, gid);
    var s := SS.Drained(SS.Run(es));
    forall id: nat | InProgress(s, gid, id) ensures false { OverIffEnded(es, id); }
  }

  // ---------- the remote side: which requests have ended ----------

  /** executeHandle hands the request on. */
  predicate Acceptable(setup: SC.Setup, m: Message, available: bool, throws: bool) {
    && m.content.Some? && available && !throws
    && (setup.limits.dynamicSize || |m.content.value| == setup.limits.expectedSize)
  }

  /** The thread of a request ends: after an error reply, or woken by its callback or by a cancel. */
  predicate Leaves(setup: SC.Setup, c: SC.ClientState, e: SC.Event, id: nat) {
    && id < |c.requests|
    && var r := c.requests[id];
       || (e.Examine? && e.id == id && r.stage.Checking?
           && !Acceptable(setup, r.message, e.available, e.throws))
       || (e == SC.Wake(id) && r.stage.Pending? && (r.done || r.cancels > 0))
  }

  predicate HasLeft(setup: SC.Setup, es: seq<SC.Event>, id: nat)
    decreases |es|
  {
    && es != []
    && (HasLeft(setup, es[..|es| - 1], id)
        || Leaves(setup, SC.Run(setup, es[..|es| - 1]), es[|es| - 1], id))
  }

  predicate IsLeft(c: SC.ClientState, id: nat) {
    id < |c.requests| && c.requests[id].stage.Left?
  }

  lemma StepLeaves(setup: SC.Setup, c: SC.ClientState, e: SC.Event, id: nat)
    ensures IsLeft(SC.Step(setup, c, e), id) <==> IsLeft(c, id) || Leaves(setup, c, e, id)
  {
  }

  lemma {:induction false} LeftIffLeaves(setup: SC.Setup, es: seq<SC.Event>, id: nat)
    ensures IsLeft(SC.Run(setup, es), id) <==> HasLeft(setup, es, id)
    decreases |es|
  {
    if es != [] {
      LeftIffLeaves(setup, es[..|es| - 1], id);
      StepLeaves(setup, SC.Run(setup, es[..|es| - 1]), es[|es| - 1], id);
    }
  }

  /** A cancel for the gid the table names this request by. */
  predicate Cancels(c: SC.ClientState, e: SC.Event, id: nat) {
    e.CancelArrives? && e.gid in c.table && c.table[e.gid] == id && id < |c.requests|
  }

  function CancelsHeard(setup: SC.Setup, es: seq<SC.Event>, id: nat): nat
    decreases |es|
  {
    if es == [] then 0
    else
      CancelsHeard(setup, es[..|es| - 1], id)
      + if Cancels(SC.Run(setup, es[..|es| - 1]), es[|es| - 1], id) then 1 else 0
  }

  /** The callback of a request comes to its end. */
  predicate Completes(c: SC.ClientState, e: SC.Event, id: nat) {
    e == SC.CallbackEnds(id) && id < |c.requests| && c.requests[id].callback.Sent?
  }

  predicate Completed(setup: SC.Setup, es: seq<SC.Event>, id: nat)
    decreases |es|
  {
    && es != []
    && (Completed(setup, es[..|es| - 1], id) || Completes(SC.Run(setup, es[..|es| - 1]), es[|es| - 1], id))
  }

  /** The thread of a request wakes while the callback has not ended. */
  predicate Abandons(c: SC.ClientState, e: SC.Event, id: nat) {
    && e == SC.Wake(id) && id < |c.requests| && c.requests[id].stage.Pending?
    && c.requests[id].cancels > 0 && !c.requests[id].done
  }

  predicate Abandoned(setup: SC.Setup, es: seq<SC.Event>, id: nat)
    decreases |es|
  {
    && es != []
    && (Abandoned(setup, es[..|es| - 1], id) || Abandons(SC.Run(setup, es[..|es| - 1]), es[|es| - 1], id))
  }

  predicate Recorded(c: SC.ClientState, id: nat, cancels: nat, completed: bool, abandoned: bool) {
    if id < |c.requests| then
      var r := c.requests[id];
      && r.cancels == cancels && r.cancelled == abandoned
      && (r.done <==> completed || abandoned)
    else cancels == 0 && !completed && !abandoned
  }

  lemma StepRecords(setup: SC.Setup, c: SC.ClientState, e: SC.Event, id: nat, n: nat, completed: bool, abandoned: bool)
    requires SC.Inv(c) && Recorded(c, id, n, completed, abandoned)
    ensures Recorded(SC.Step(setup, c, e), id, n + (if Cancels(c, e, id) then 1 else 0),
                     completed || Completes(c, e, id), abandoned || Abandons(c, e, id))
  {
  }

  /**
   * What a request's handle shows: as many waiting cancels as were heard for it,
   * done once its callback ended or its thread gave it up, and the local service
   * is told to cancel exactly when the thread wakes for a cancel before that.
   */
  lemma {:induction false} RequestIsHistory(setup: SC.Setup, es: seq<SC.Event>, id: nat)
    ensures Recorded(SC.Run(setup, es), id,
                     CancelsHeard(setup, es, id), Completed(setup, es, id), Abandoned(setup, es, id))
    decreases |es|
  {
    if es != [] {
      var before := es[..|es| - 1];
      RequestIsHistory(setup, before, id);
      SC.RunInv(setup, before);
      StepRecords(setup, SC.Run(setup, before), es[|es| - 1], id,
                  CancelsHeard(setup, before, id), Completed(setup, before, id), Abandoned(setup, before, id));
    }
  }

  predicate RequestLinked(c: SC.ClientState, id: nat)
    requires id < |c.requests|
  {
    c.requests[id].message.gid in c.table && c.table[c.requests[id].message.gid] == id
  }

  predicate RequestQueued(c: SC.ClientState, id: nat) {
    id in c.toRemove || c.removing == Some(id)
  }

  /** A request whose thread has started and not ended. */
  predicate Live(r: SC.Request) {
    r.stage.Checking? || r.stage.Pending?
  }

  /** Each request in the table is live or waits for its removal; a live one is in the table. */
  predicate Tidy(c: SC.ClientState) {
    && (forall gid <- c.table ::
          var id := c.table[gid];
          id < |c.requests| && c.requests[id].message.gid == gid && !c.requests[id].stage.Duplicate?)
    && (forall id: nat :: id < |c.requests| ==>
          && (Live(c.requests[id]) ==> RequestLinked(c, id))
          && (c.requests[id].stage.Left? && RequestLinked(c, id) ==> RequestQueued(c, id)))
    && (forall id <- c.toRemove :: IsLeft(c, id) && RequestLinked(c, id))
    && (c.removing.Some? ==> IsLeft(c, c.removing.value) && RequestLinked(c, c.removing.value))
    && (forall i, j :: 0 <= i < j < |c.toRemove| ==> c.toRemove[i] != c.toRemove[j])
    && (c.removing.Some? ==> c.removing.value !in c.toRemove)
  }

  /** Replacing one request by another that is as live as before. */
  lemma UpdateKeepsTidy(c: SC.ClientState, id: nat, r: SC.Request, replies: seq<SC.Reply>)
    requires Tidy(c) && id < |c.requests|
    requires r.message == c.requests[id].message && (Live(r) <==> Live(c.requests[id]))
    requires r.stage.Left? <==> c.requests[id].stage.Left?
    ensures Tidy(SC.Put(c, id, r).(replies := replies))
  {
    var c' := SC.Put(c, id, r).(replies := replies);
    assert forall k: nat :: k < |c.requests| ==> (RequestLinked(c', k) <==> RequestLinked(c, k));
  }

  lemma LeavingKeepsTidy(c: SC.ClientState, id: nat, r: SC.Request, replies: seq<SC.Reply>)
    requires Tidy(c) && id < |c.requests| && Live(c.requests[id])
    requires r.message == c.requests[id].message && r.stage.Left?
    ensures Tidy(SC.Put(c, id, r).(replies := replies, toRemove := c.toRemove + [id]))
  {
    var c' := SC.Put(c, id, r).(replies := replies, toRemove := c.toRemove + [id]);
    assert forall k: nat :: k < |c.requests| ==> (RequestLinked(c', k) <==> RequestLinked(c, k));
    assert c'.toRemove[|c.toRemove|] == id;
  }

  lemma KnownKeepsTidy(setup: SC.Setup, c: SC.ClientState, m: Message)
    requires Tidy(c) && m.op.ServiceToClient? && m.gid in c.table
    ensures Tidy(SC.Step(setup, c, SC.Arrive(m)))
  {
    var c' := SC.Step(setup, c, SC.Arrive(m));
    assert forall k: nat :: k < |c.requests| ==> (RequestLinked(c', k) <==> RequestLinked(c, k));
  }

  lemma NewKeepsTidy(setup: SC.Setup, c: SC.ClientState, m: Message)
    requires Tidy(c) && m.op.ServiceToClient? && m.gid !in c.table
    ensures Tidy(SC.Step(setup, c, SC.Arrive(m)))
  {
    var c' := SC.Step(setup, c, SC.Arrive(m));
    assert forall k: nat :: k < |c.requests| ==> (RequestLinked(c', k) <==> RequestLinked(c, k));
  }

  lemma ArrivalKeepsTidy(setup: SC.Setup, c: SC.ClientState, m: Message)
    requires Tidy(c)
    ensures Tidy(SC.Step(setup, c, SC.Arrive(m)))
  {
    if m.op.ServiceToClient? {
      if m.gid in c.table { KnownKeepsTidy(setup, c, m); } else { NewKeepsTidy(setup, c, m); }
    }
  }

  lemma PopKeepsTidy(setup: SC.Setup, c: SC.ClientState)
    requires Tidy(c)
    ensures Tidy(SC.Step(setup, c, SC.PopRemoval))
  {
    var c' := SC.Step(setup, c, SC.PopRemoval);
    if c.removing.None? && c.toRemove != [] {
      assert forall k: nat :: k < |c.requests| ==> (RequestLinked(c', k) <==> RequestLinked(c, k));
      assert forall i :: 0 <= i < |c'.toRemove| ==> c'.toRemove[i] == c.toRemove[i + 1];
      assert c.toRemove[0] in c.toRemove;
      forall id <- c'.toRemove ensures id in c.toRemove {}
    }
  }

  lemma EraseKeepsTidy(setup: SC.Setup, c: SC.ClientState)
    requires Tidy(c)
    ensures Tidy(SC.Step(setup, c, SC.EraseRemoved))
  {
    var c' := SC.Step(setup, c, SC.EraseRemoved);
    if c.removing.Some? {
      assert forall k: nat :: k < |c.requests| && k != c.removing.value ==>
                                (RequestLinked(c', k) <==> RequestLinked(c, k));
    }
  }

  lemma StepKeepsTidy(setup: SC.Setup, c: SC.ClientState, e: SC.Event)
    requires Tidy(c)
    ensures Tidy(SC.Step(setup, c, e))
  {
    if SC.Enabled(c, e) {
      var c' := SC.Step(setup, c, e);
      match e
      case Arrive(m) => ArrivalKeepsTidy(setup, c, m);
      case PopRemoval => PopKeepsTidy(setup, c);
      case EraseRemoved => EraseKeepsTidy(setup, c);
      case CancelArrives(gid) => UpdateKeepsTidy(c, c.table[gid], c'.requests[c.table[gid]], c'.replies);
      case CallbackSends(id, _) => UpdateKeepsTidy(c, id, c'.requests[id], c'.replies);
      case CallbackEnds(id) => UpdateKeepsTidy(c, id, c'.requests[id], c'.replies);
      case Wake(id) => LeavingKeepsTidy(c, id, c'.requests[id], c'.replies);
      case Examine(id, _, _) =>
        if c'.requests[id].stage.Left? { LeavingKeepsTidy(c, id, c'.requests[id], c'.replies); }
        else { UpdateKeepsTidy(c, id, c'.requests[id], c'.replies); }
    }
  }

  /**
   * In every run a request whose thread has ended while the table holds its
   * handle is queued for removal or being removed, and a live one keeps its
   * place in the table.
   */
  lemma {:induction false} RequestsStayTidy(setup: SC.Setup, es: seq<SC.Event>)
    ensures Tidy(SC.Run(setup, es))
    decreases |es|
  {
    if es != [] {
      RequestsStayTidy(setup, es[..|es| - 1]);
      StepKeepsTidy(setup, SC.Run(setup, es[..|es| - 1]), es[|es| - 1]);
    }
  }

  lemma RequestRunSnoc(setup: SC.Setup, es: seq<SC.Event>, e: SC.Event)
    ensures SC.Run(setup, es + [e]) == SC.Step(setup, SC.Run(setup, es), e)
  {
    assert (es + [e])[..|es|] == es;
  }

  predicate IsRequestRemoval(es: seq<SC.Event>) {
    forall i :: 0 <= i < |es| ==> es[i].PopRemoval? || es[i].EraseRemoved?
  }

  lemma ClearOneStep(setup: SC.Setup, c: SC.ClientState)
    requires Tidy(c) && c.toRemove != [] && c.removing.None?
    ensures var c' := SC.Step(setup, SC.Step(setup, c, SC.PopRemoval), SC.EraseRemoved);
            && c'.toRemove == c.toRemove[1..] && c'.removing.None?
            && c'.requests == c.requests && c'.replies == c.replies
            && SC.Drained(setup, c') == SC.Drained(setup, c)
  {
    assert c.toRemove[0] in c.toRemove;
  }

  lemma ClearOne(setup: SC.Setup, es: seq<SC.Event>)
    requires SC.Run(setup, es).toRemove != [] && SC.Run(setup, es).removing.None?
    ensures var c, c' := SC.Run(setup, es), SC.Run(setup, es + [SC.PopRemoval, SC.EraseRemoved]);
            && |c'.toRemove| == |c.toRemove| - 1 && c'.removing.None?
            && c'.requests == c.requests && c'.replies == c.replies
            && SC.Drained(setup, c') == SC.Drained(setup, c)
  {
    RequestsStayTidy(setup, es);
    RequestRunSnoc(setup, es, SC.PopRemoval);
    RequestRunSnoc(setup, es + [SC.PopRemoval], SC.EraseRemoved);
    assert es + [SC.PopRemoval] + [SC.EraseRemoved] == es + [SC.PopRemoval, SC.EraseRemoved];
    ClearOneStep(setup, SC.Run(setup, es));
  }

  /** Draining the removal queue is a run of its thread, and it leaves the queue empty. */
  lemma {:induction false} ClearingIsRun(setup: SC.Setup, es: seq<SC.Event>) returns (more: seq<SC.Event>)
    requires SC.Run(setup, es).removing.None?
    ensures IsRequestRemoval(more) && SC.Run(setup, es + more) == SC.Drained(setup, SC.Run(setup, es))
    ensures var c, c' := SC.Run(setup, es), SC.Run(setup, es + more);
            c'.toRemove == [] && c'.removing.None? && c'.requests == c.requests && c'.replies == c.replies
    decreases |SC.Run(setup, es).toRemove|
  {
    if SC.Run(setup, es).toRemove == [] {
      more := [];
      AppendNothing(es);
    } else {
      ClearOne(setup, es);
      var one := [SC.PopRemoval, SC.EraseRemoved];
      var rest := ClearingIsRun(setup, es + one);
      more := one + rest;
      Assoc(es, one, rest);
    }
  }

  /** A request with this gid whose thread has started and not ended. */
  predicate Serving(c: SC.ClientState, gid: Bytes, id: nat) {
    id < |c.requests| && c.requests[id].message.gid == gid && Live(c.requests[id])
  }

  lemma TableOfCleared(c: SC.ClientState, gid: Bytes)
    requires Tidy(c) && c.toRemove == [] && c.removing.None?
    ensures gid in c.table <==> exists id: nat :: Serving(c, gid, id)
  {
    if gid in c.table {
      var id := c.table[gid];
      assert RequestLinked(c, id);
      assert !RequestQueued(c, id);
      assert Serving(c, gid, id);
    }
    if exists id: nat :: Serving(c, gid, id) {
      var id: nat :| Serving(c, gid, id);
      assert RequestLinked(c, id);
    }
  }

  /** Once the removal thread has caught up the table names exactly the requests still being served, in every run. */
  lemma ClearedTableIsServing(setup: SC.Setup, es: seq<SC.Event>, gid: Bytes)
    requires SC.Run(setup, es).removing.None?
    ensures var c := SC.Drained(setup, SC.Run(setup, es));
            && c.requests == SC.Run(setup, es).requests
            && (gid in c.table <==> exists id: nat :: Serving(c, gid, id))
  {
    var more := ClearingIsRun(setup, es);
    RequestsStayTidy(setup, es + more);
    TableOfCleared(SC.Run(setup, es + more), gid);
  }

  /** So a request whose gid is served no more gets a handle of its own instead of the duplicate's error. */
  lemma NextRequestIsServed(setup: SC.Setup, es: seq<SC.Event>, m: Message)
    requires SC.Run(setup, es).removing.None? && m.op.ServiceToClient?
    requires forall id: nat :: id < |SC.Run(setup, es).requests| && SC.Run(setup, es).requests[id].message.gid == m.gid
               ==> HasLeft(setup, es, id) || SC.Run(setup, es).requests[id].stage.Duplicate?
    ensures var c := SC.Drained(setup, SC.Run(setup, es));
            var c' := SC.Step(setup, c, SC.Arrive(m));
            && |c'.requests| == |c.requests| + 1 && c'.replies == c.replies
            && RequestLinked(c', |c.requests|) && c'.requests[|c.requests|].message == m
            && c'.requests[|c.requests|].stage.Checking?
  {
    ClearedTableIsServing(setup, es, m.gid);
    var c := SC.Drained(setup, SC.Run(setup, es));
    forall id: nat | Serving(c, m.gid, id) ensures false { LeftIffLeaves(setup, es, id); }
    var more := ClearingIsRun(setup, es);
  }

  // ---------- the remote side: what it replies ----------

  /** A request is turned away: its gid is known when it arrives, or executeHandle refuses it. */
  predicate TurnsAway(setup: SC.Setup, c: SC.ClientState, e: SC.Event, id: nat) {
    || (e.Arrive? && e.message.op.ServiceToClient? && e.message.gid in c.table && id == |c.requests|)
    || (e.Examine? && e.id == id && id < |c.requests| && c.requests[id].stage.Checking?
        && !Acceptable(setup, c.requests[id].message, e.available, e.throws))
  }

  predicate TurnedAway(setup: SC.Setup, es: seq<SC.Event>, id: nat)
    decreases |es|
  {
    && es != []
    && (TurnedAway(setup, es[..|es| - 1], id)
        || TurnsAway(setup, SC.Run(setup, es[..|es| - 1]), es[|es| - 1], id))
  }

  /** The callback of a request that was handed on answers it with this data. */
  predicate Provides(c: SC.ClientState, e: SC.Event, id: nat, data: Bytes) {
    e == SC.CallbackSends(id, data) && id < |c.requests| && c.requests[id].callback.Due?
  }

  predicate Provided(setup: SC.Setup, es: seq<SC.Event>, id: nat, data: Bytes)
    decreases |es|
  {
    && es != []
    && (Provided(setup, es[..|es| - 1], id, data)
        || Provides(SC.Run(setup, es[..|es| - 1]), es[|es| - 1], id, data))
  }

  /** Some reply to this request carries this data. */
  predicate RepliedWith(c: SC.ClientState, id: nat, data: Bytes) {
    exists k :: 0 <= k < |c.replies| && c.replies[k].id == id && c.replies[k].message.content == Some(data)
  }

  lemma RepliedAppend(c: SC.ClientState, c': SC.ClientState, y: SC.Reply, id: nat, data: Bytes)
    requires c'.replies == c.replies + [y]
    ensures RepliedWith(c', id, data) <==> RepliedWith(c, id, data) || (y.id == id && y.message.content == Some(data))
  {
    if RepliedWith(c, id, data) {
      var k :| 0 <= k < |c.replies| && c.replies[k].id == id && c.replies[k].message.content == Some(data);
      assert c'.replies[k] == c.replies[k];
    }
    assert c'.replies[|c.replies|] == y;
  }

  lemma StepReplies(setup: SC.Setup, c: SC.ClientState, e: SC.Event, id: nat, data: Bytes)
    ensures RepliedWith(SC.Step(setup, c, e), id, data)
       <==> || RepliedWith(c, id, data) || Provides(c, e, id, data)
            || (TurnsAway(setup, c, e, id) && data == setup.error)
  {
    var c' := SC.Step(setup, c, e);
    if |c'.replies| > |c.replies| {
      RepliedAppend(c, c', c'.replies[|c.replies|], id, data);
    } else {
      assert c'.replies == c.replies;
    }
  }

  /**
   * What ServiceClient replies: in every run a request is answered with what
   * the local service's callback provided for it, or with the configured error
   * exactly when it was turned away.
   */
  lemma {:induction false} RepliesAreHistory(setup: SC.Setup, es: seq<SC.Event>, id: nat, data: Bytes)
    ensures RepliedWith(SC.Run(setup, es), id, data)
       <==> Provided(setup, es, id, data) || (TurnedAway(setup, es, id) && data == setup.error)
    decreases |es|
  {
    if es != [] {
      RepliesAreHistory(setup, es[..|es| - 1], id, data);
      StepReplies(setup, SC.Run(setup, es[..|es| - 1]), es[|es| - 1], id, data);
    }
  }

  /** The two are exclusive: nothing is provided for a request that was turned away. */
  predicate NothingDue(c: SC.ClientState, id: nat) {
    id < |c.requests| && c.requests[id].callback.NotAsked? && !c.requests[id].stage.Checking?
  }

  lemma NothingDueStays(setup: SC.Setup, c: SC.ClientState, e: SC.Event, id: nat)
    requires NothingDue(c, id)
    ensures NothingDue(SC.Step(setup, c, e), id)
  {
  }

  lemma {:induction false} TurnedAwayIsNotAsked(setup: SC.Setup, es: seq<SC.Event>, id: nat)
    requires TurnedAway(setup, es, id)
    ensures NothingDue(SC.Run(setup, es), id)
    decreases |es|
  {
    var c, e := SC.Run(setup, es[..|es| - 1]), es[|es| - 1];
    SC.RunInv(setup, es[..|es| - 1]);
    if TurnedAway(setup, es[..|es| - 1], id) {
      TurnedAwayIsNotAsked(setup, es[..|es| - 1], id);
      NothingDueStays(setup, c, e, id);
    }
  }

  /** Every reply in a run has the content its request's history gives it. */
  lemma ReplyContent(setup: SC.Setup, es: seq<SC.Event>, k: nat)
    requires k < |SC.Run(setup, es).replies|
    ensures var y := SC.Run(setup, es).replies[k];
            && y.message.content.Some?
            && (if TurnedAway(setup, es, y.id) then y.message.content.value == setup.error
                else Provided(setup, es, y.id, y.message.content.value))
  {
    var y := SC.Run(setup, es).replies[k];
    RepliesHaveContent(setup, es);
    RepliesAreHistory(setup, es, y.id, y.message.content.value);
    if TurnedAway(setup, es, y.id) {
      RepliesAreHistory(setup, es, y.id, setup.error);
      SC.RunInv(setup, es);
      var j :| 0 <= j < |SC.Run(setup, es).replies| && SC.Run(setup, es).replies[j].id == y.id
               && SC.Run(setup, es).replies[j].message.content == Some(setup.error);
      assert j == k;
    }
  }

  lemma {:induction false} RepliesHaveContent(setup: SC.Setup, es: seq<SC.Event>)
    ensures forall y <- SC.Run(setup, es).replies :: y.message.content.Some?
    decreases |es|
  {
    if es != [] { RepliesHaveContent(setup, es[..|es| - 1]); }
  }
}
