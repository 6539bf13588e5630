/**
 * The data that crosses an action, end to end: the goal's data reaches the
 * remote action as the caller gave it, and its feedback and results reach the
 * caller as the remote action gave them.
 */
module ActionData {
  import opened Types
  import opened Sequences
  import opened GoalTrace
  import opened GoalLink
  import L = ActionServer
  import R = RemoteGoal
  import H = RemoteHistory
  import S = ActionSystem
  import A = ActionHandshake

  // ---------- one goal ----------

  /** The content a call of sendGoalAndWait sends, when it does. */
  function RequestBy(g: L.Goal, a: Act): Option<Option<Bytes>> {
    if a.Local? && a.le.SendGoalRequest? && g.call.FlagRaised? then Some(a.le.content) else None
  }

  function Requested(request: Option<Option<Bytes>>, g: L.Goal, a: Act): Option<Option<Bytes>> {
    if RequestBy(g, a).Some? then RequestBy(g, a) else request
  }

  function FeedbackBy(p: Pair, a: Act): seq<Message> {
    if a.Remote? && p.remote.Some? then H.FeedbackBy(p.remote.value, a.re) else []
  }

  function ResultBy(p: Pair, a: Act): seq<Message> {
    if a.Remote? && p.remote.Some? then H.ResultBy(p.remote.value, a.re) else []
  }

  predicate DataPoint(p: Pair, request: Option<Option<Bytes>>, feedback: seq<Message>, results: seq<Message>) {
    && (request.None? <==> Early(p.goal))
    && (request.Some? ==> forall m <- p.down :: m.op.GoalRequest? ==> m.content == request.value)
    && (p.remote.None? ==> feedback == [] && results == [])
    && (p.remote.Some? ==> request.Some? && H.Faithful(p.remote.value, request.value, feedback, results))
  }

  lemma SendingIsRequest(g: L.Goal, e: L.Event)
    ensures forall m <- L.Step(g, e).1 :: m.op.GoalRequest? ==> RequestBy(g, Local(e)) == Some(m.content)
  {
  }

  lemma EarlyUntilRequested(g: L.Goal, e: L.Event)
    ensures Early(L.Step(g, e).0) <==> Early(g) && RequestBy(g, Local(e)).None?
  {
  }

  lemma LocalKeepsData(
      p: Pair, e: L.Event, request: Option<Option<Bytes>>, feedback: seq<Message>, results: seq<Message>)
    requires Inv(p) && DataPoint(p, request, feedback, results)
    ensures DataPoint(Step(p, Local(e)), Requested(request, p.goal, Local(e)), feedback, results)
  {
    SendingIsRequest(p.goal, e);
    EarlyUntilRequested(p.goal, e);
  }

  lemma RemoteKeepsData(
      p: Pair, e: R.Event, request: Option<Option<Bytes>>, feedback: seq<Message>, results: seq<Message>)
    requires Inv(p) && DataPoint(p, request, feedback, results)
    ensures var a := Remote(e);
            DataPoint(Step(p, a), request, feedback + FeedbackBy(p, a), results + ResultBy(p, a))
  {
    AppendNothing(feedback);
    AppendNothing(results);
    if p.remote.Some? { H.StepIsFaithful(p.remote.value, e, request.value, feedback, results); }
  }

  lemma DownKeepsData(p: Pair, request: Option<Option<Bytes>>, feedback: seq<Message>, results: seq<Message>)
    requires Inv(p) && DataPoint(p, request, feedback, results)
    ensures DataPoint(Step(p, DeliverDown), request, feedback, results)
  {
    if p.down != [] {
      var m := p.down[0];
      assert m in p.down;
      DownKeepsOrder(p);
      if p.remote.None? { H.NewIsFaithful(m); }
      else if p.remote.value.inTable { H.PushIsFaithful(p.remote.value, m, request.value, feedback, results); }
    }
  }

  lemma UpKeepsData(p: Pair, request: Option<Option<Bytes>>, feedback: seq<Message>, results: seq<Message>)
    requires DataPoint(p, request, feedback, results)
    ensures DataPoint(Step(p, DeliverUp), request, feedback, results)
  {
  }

  lemma StepKeepsData(
      p: Pair, a: Act, request: Option<Option<Bytes>>, feedback: seq<Message>, results: seq<Message>)
    requires Inv(p) && DataPoint(p, request, feedback, results)
    ensures DataPoint(Step(p, a), Requested(request, p.goal, a), feedback + FeedbackBy(p, a), results + ResultBy(p, a))
  {
    AppendNothing(feedback);
    AppendNothing(results);
    match a
    case Local(e) => LocalKeepsData(p, e, request, feedback, results);
    case Remote(e) => RemoteKeepsData(p, e, request, feedback, results);
    case DeliverDown => DownKeepsData(p, request, feedback, results);
    case DeliverUp => UpKeepsData(p, request, feedback, results);
  }

  // ---------- in the whole system ----------

  /** What an event is for one goal id. */
  function ActFor(s: S.System, e: S.Event, gid: Bytes): seq<Act> {
    if S.About(s, e) == Some(gid) then [S.ActOf(e)] else []
  }

  /** The content that was sent with this goal id's GOAL, if it was sent. */
  function RequestOf(es: seq<S.Event>, gid: Bytes): Option<Option<Bytes>>
    decreases |es|
  {
    if es == [] then None
    else
      var before, e := es[..|es| - 1], es[|es| - 1];
      var acts := ActFor(S.Run(before), e, gid);
      if acts == [] then RequestOf(before, gid)
      else Requested(RequestOf(before, gid), S.GoalOf(S.Run(before), gid), acts[0])
  }

  /** The feedback the remote action gave for this goal id. */
  function FeedbackGiven(es: seq<S.Event>, gid: Bytes): seq<Message>
    decreases |es|
  {
    if es == [] then []
    else
      var before, e := es[..|es| - 1], es[|es| - 1];
      var acts := ActFor(S.Run(before), e, gid);
      FeedbackGiven(before, gid) + if acts == [] then [] else FeedbackBy(S.View(S.Run(before), gid), acts[0])
  }

  /** The results it reported. */
  function ResultsGiven(es: seq<S.Event>, gid: Bytes): seq<Message>
    decreases |es|
  {
    if es == [] then []
    else
      var before, e := es[..|es| - 1], es[|es| - 1];
      var acts := ActFor(S.Run(before), e, gid);
      ResultsGiven(before, gid) + if acts == [] then [] else ResultBy(S.View(S.Run(before), gid), acts[0])
  }

  lemma SystemStepProjects(es: seq<S.Event>, e: S.Event, gid: Bytes)
    ensures Inv(S.View(S.Run(es), gid))
    ensures var s := S.Run(es);
            var acts := ActFor(s, e, gid);
            S.View(S.Step(s, e), gid) == if acts == [] then S.View(s, gid) else Step(S.View(s, gid), acts[0])
  {
    S.SystemInv(es, gid);
    S.InvTags(S.Run(es), gid);
    if e.AtServer? || e.AtClient? {
      S.SystemInv(es, e.gid);
      S.InvTags(S.Run(es), e.gid);
    }
    S.StepProjects(S.Run(es), e, gid);
  }

  lemma {:induction false} DataIsKept(es: seq<S.Event>, gid: Bytes)
    ensures DataPoint(S.View(S.Run(es), gid), RequestOf(es, gid), FeedbackGiven(es, gid), ResultsGiven(es, gid))
    decreases |es|
  {
    if es != [] {
      var before, e := es[..|es| - 1], es[|es| - 1];
      DataIsKept(before, gid);
      SystemStepProjects(before, e, gid);
      var acts := ActFor(S.Run(before), e, gid);
      AppendNothing(FeedbackGiven(before, gid));
      AppendNothing(ResultsGiven(before, gid));
      if acts != [] {
        StepKeepsData(S.View(S.Run(before), gid), acts[0],
                      RequestOf(before, gid), FeedbackGiven(before, gid), ResultsGiven(before, gid));
      }
    }
  }

  /**
   * In every run the remote action is asked at most once for a goal, with the
   * data its caller sent; the feedback sent for it is the action's own, in
   * order, and so are the results, but for one whose callback has not come to
   * send it.
   */
  lemma DataCrossesUnchanged(es: seq<S.Event>, gid: Bytes)
    requires gid in S.Run(es).remotes
    ensures var h := S.Run(es).remotes[gid];
            && RequestOf(es, gid).Some?
            && |h.asked| <= 1 && (forall data <- h.asked :: RequestOf(es, gid).value == Some(data))
            && H.Feedbacks(h.emitted) == FeedbackGiven(es, gid)
            && H.Results(h.emitted) + H.PendingResult(h) == ResultsGiven(es, gid)
            && H.CancelsAnswered(h) && H.DoneWhen(h)
  {
    DataIsKept(es, gid);
    S.SystemInv(es, gid);
    assert S.View(S.Run(es), gid).remote == Some(S.Run(es).remotes[gid]);
  }

  // ---------- what the caller's goal is told ----------

  function FeedbackCall(c: Call): seq<Bytes> {
    if c.SendFeedback? then [c.data] else []
  }

  /** The data of the feedback calls among some calls. */
  function FeedbackCalls(calls: seq<Call>): seq<Bytes> {
    Gather(FeedbackCall, calls)
  }

  function DataOf(m: Message): seq<Bytes> {
    if m.content.Some? then [m.content.value] else []
  }

  function AllDataOf(ms: seq<Message>): seq<Bytes> {
    Gather(DataOf, ms)
  }

  lemma {:induction false} FeedbackCallsOf(ms: seq<Message>)
    ensures FeedbackCalls(Gather(FeedbackOf, ms)) == AllDataOf(H.Feedbacks(ms))
  {
    if ms != [] {
      FeedbackCallsOf(ms[1..]);
      GatherConcat(FeedbackCall, FeedbackOf(ms[0]), Gather(FeedbackOf, ms[1..]));
      GatherConcat(DataOf, H.FeedbackIn(ms[0]), H.Feedbacks(ms[1..]));
      if FeedbackOf(ms[0]) != [] { GatherOne(FeedbackCall, FeedbackOf(ms[0])[0]); }
      if H.FeedbackIn(ms[0]) != [] { GatherOne(DataOf, ms[0]); }
    }
  }

  lemma {:induction false} FeedbacksOfStream(ms: seq<Message>)
    ensures H.Feedbacks(R.Stream(ms)) == H.Feedbacks(ms)
  {
    if ms != [] {
      FeedbacksOfStream(ms[1..]);
      GatherConcat(H.FeedbackIn, R.StreamIn(ms[0]), R.Stream(ms[1..]));
      if R.StreamIn(ms[0]) != [] { GatherOne(H.FeedbackIn, ms[0]); }
    }
  }

  lemma {:induction false} ResultsOfStream(ms: seq<Message>)
    ensures H.Results(R.Stream(ms)) == H.Results(ms)
  {
    if ms != [] {
      ResultsOfStream(ms[1..]);
      GatherConcat(H.ResultIn, R.StreamIn(ms[0]), R.Stream(ms[1..]));
      if R.StreamIn(ms[0]) != [] { GatherOne(H.ResultIn, ms[0]); }
    }
  }

  lemma GatherPrefix<T, U>(f: T -> seq<U>, a: seq<T>, b: seq<T>)
    requires a <= b
    ensures Gather(f, a) <= Gather(f, b)
  {
    GatherConcat(f, a, b[|a|..]);
    assert b == a + b[|a|..];
  }

  lemma {:induction false} FirstResultIsHead(ms: seq<Message>)
    requires FirstResult(ms) < |ms|
    ensures H.Results(ms) != [] && H.Results(ms)[0] == ms[FirstResult(ms)]
  {
    if !ms[0].op.IsResult() { FirstResultIsHead(ms[1..]); }
  }

  /** The feedback in a trace is feedback of the stream, in order. */
  lemma TraceFeedback(ms: seq<Message>)
    ensures FeedbackCalls(Trace(ms)) <= AllDataOf(H.Feedbacks(ms))
  {
    var k := FirstResult(ms);
    var end := if k < |ms| then [TerminalOf(ms[k])] else [];
    GatherConcat(FeedbackCall, Gather(FeedbackOf, ms[..k]), end);
    if end != [] { GatherOne(FeedbackCall, end[0]); }
    FeedbackCallsOf(ms[..k]);
    GatherPrefix(H.FeedbackIn, ms[..k], ms);
    GatherPrefix(DataOf, H.Feedbacks(ms[..k]), H.Feedbacks(ms));
  }

  lemma TraceTerminal(ms: seq<Message>, c: Call)
    requires c in Trace(ms) && c.IsTerminal()
    ensures FirstResult(ms) < |ms| && H.Results(ms) != [] && c == TerminalOf(ms[FirstResult(ms)])
    ensures ms[FirstResult(ms)] == H.Results(ms)[0]
  {
    FeedbackIsNotTerminal(ms[..FirstResult(ms)]);
    FirstResultIsHead(ms);
  }

  /** A result as the remote action reports it. */
  predicate Reported(m: Message) {
    m.content.Some? && (m.op.ResultSucceeded? || m.op.ResultAborted? || m.op.ResultCanceled?)
  }

  lemma {:induction false} ResultsAreReported(es: seq<S.Event>, gid: Bytes)
    ensures forall m <- ResultsGiven(es, gid) :: Reported(m)
    decreases |es|
  {
    if es != [] { ResultsAreReported(es[..|es| - 1], gid); }
  }

  /** The terminal call that tells the caller of a result. */
  predicate Tells(c: Call, m: Message) {
    && m.content.Some?
    && var data := m.content.value;
       match m.op
       case ResultSucceeded => c == Succeed(data)
       case ResultCanceled => c == Cancel(data)
       case _ => c == Abort(data)
  }

  /**
   * What the caller is told, in every run: the feedback calls made on its goal
   * carry, in order and from the first on, what the remote action gave as
   * feedback, and a terminal call tells the first result that action reported.
   */
  lemma CallerIsToldByAction(es: seq<S.Event>, gid: Bytes)
    ensures var g := S.GoalOf(S.Run(es), gid);
            && FeedbackCalls(g.calls) <= AllDataOf(FeedbackGiven(es, gid))
            && (forall c <- g.calls :: c.IsTerminal() ==>
                  ResultsGiven(es, gid) != [] && Tells(c, ResultsGiven(es, gid)[0]))
  {
    var s := S.Run(es);
    var g, emitted := S.GoalOf(s, gid), Emitted(S.View(s, gid));
    S.CallsFollowRemote(es, gid);
    DataIsKept(es, gid);
    TraceFeedback(R.Stream(emitted));
    FeedbacksOfStream(emitted);
    ResultsOfStream(emitted);
    GatherPrefix(FeedbackCall, g.calls, Trace(R.Stream(emitted)));
    ResultsAreReported(es, gid);
    forall c <- g.calls | c.IsTerminal()
      ensures ResultsGiven(es, gid) != [] && Tells(c, ResultsGiven(es, gid)[0])
    {
      TraceTerminal(R.Stream(emitted), c);
      SentResultIsGiven(S.View(s, gid), RequestOf(es, gid), FeedbackGiven(es, gid), ResultsGiven(es, gid));
      assert Reported(ResultsGiven(es, gid)[0]);
    }
  }

  lemma SentResultIsGiven(p: Pair, request: Option<Option<Bytes>>, feedback: seq<Message>, results: seq<Message>)
    requires DataPoint(p, request, feedback, results) && H.Results(Emitted(p)) != []
    ensures results != [] && results[0] == H.Results(Emitted(p))[0]
  {
  }

  lemma UnfinishedFeedback(ms: seq<Message>)
    requires !HasResult(ms)
    ensures FeedbackCalls(Trace(ms)) == AllDataOf(H.Feedbacks(ms))
  {
    assert FirstResult(ms) == |ms|;
    assert ms[..|ms|] == ms;
    AppendNothing(Gather(FeedbackOf, ms));
    FeedbackCallsOf(ms);
  }

  lemma UnfinishedCalls(p: Pair)
    requires Inv(p) && (p.goal.call.NotCalled? || p.goal.inTable) && !p.goal.thread.Ended?
    requires p.goal.handle.waitQueue == [] && R.Stream(p.up) == []
    ensures FeedbackCalls(p.goal.calls) == AllDataOf(H.Feedbacks(Emitted(p)))
  {
    var produced := R.Stream(Emitted(p));
    A.KeptStream(p);
    AppendNothing(p.goal.arrived);
    AppendNothing(p.goal.consumed);
    assert p.goal.consumed == produced;
    UnfinishedFeedback(produced);
    FeedbacksOfStream(Emitted(p));
  }

  /** A caller that has not given its goal up and has caught up was told of all feedback. */
  lemma CallerMissesNothing(es: seq<S.Event>, gid: Bytes)
    requires !A.GaveUp(gid, A.InputsOf(es, gid))
    requires S.GoalOf(S.Run(es), gid).handle.waitQueue == [] && R.Stream(S.Only(S.Run(es).toServer, gid)) == []
    ensures FeedbackCalls(S.GoalOf(S.Run(es), gid).calls) == AllDataOf(FeedbackGiven(es, gid))
  {
    A.KeptGoalMissesNothing(es, gid);
    S.SystemInv(es, gid);
    DataIsKept(es, gid);
    UnfinishedCalls(S.View(S.Run(es), gid));
  }
}
