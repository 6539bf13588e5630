/**
 * What the remote side of a goal does with data: the goal's data as the local
 * action gets it, the action's feedback and results as they are sent, and when
 * the handle counts as done.
 */
module RemoteHistory {
  import opened Types
  import opened Sequences
  import opened GoalScripts
  import opened RemoteGoal

  // ---------- the goal's data ----------

  /** Whatever the handle holds of its goal, and asked the local action with, is this content. */
  predicate Carries(h: Handle, content: Option<Bytes>) {
    && (forall m <- h.waitQueue :: m.op.GoalRequest? ==> m.content == content)
    && (h.stage.Holding? && h.stage.message.op.GoalRequest? ==> h.stage.message.content == content)
    && (h.stage.Requeuing? && h.stage.message.op.GoalRequest? ==> h.stage.message.content == content)
    && (h.stage.InGoal? ==> h.stage.message.content == content)
    && (forall a <- h.asked :: content == Some(a))
    && |h.asked| == h.goalCalls
  }

  lemma ThreadCarries(h: Handle, e: Event, content: Option<Bytes>)
    requires Carries(h, content) && (e.Take? || e.Dispatch? || e.PutBack?)
    ensures Carries(Step(h, e), content)
  {
    if e.Take? && h.waitQueue != [] { assert h.waitQueue[0] in h.waitQueue; }
  }

  lemma CheckCarries(h: Handle, limits: Limits, available: bool, content: Option<Bytes>)
    requires Carries(h, content)
    ensures Carries(Step(h, CheckGoal(limits, available)), content)
  {
  }

  lemma OtherStepCarries(h: Handle, e: Event, content: Option<Bytes>)
    requires Carries(h, content) && !e.Take? && !e.Dispatch? && !e.PutBack? && !e.CheckGoal?
    ensures Carries(Step(h, e), content)
  {
  }

  lemma StepCarries(h: Handle, e: Event, content: Option<Bytes>)
    requires Carries(h, content)
    ensures Carries(Step(h, e), content)
  {
    if e.Take? || e.Dispatch? || e.PutBack? { ThreadCarries(h, e, content); }
    else if e.CheckGoal? { CheckCarries(h, e.limits, e.available, content); }
    else { OtherStepCarries(h, e, content); }
  }

  // ---------- feedback and results ----------

  function FeedbackIn(m: Message): seq<Message> {
    if m.op.Feedback? then [m] else []
  }

  function Feedbacks(ms: seq<Message>): seq<Message> {
    Gather(FeedbackIn, ms)
  }

  function ResultIn(m: Message): seq<Message> {
    if m.op.IsResult() then [m] else []
  }

  function Results(ms: seq<Message>): seq<Message> {
    Gather(ResultIn, ms)
  }

  function RejectIn(m: Message): seq<Message> {
    if m.op.CancelReject? then [m] else []
  }

  function CancelRejects(ms: seq<Message>): seq<Message> {
    Gather(RejectIn, ms)
  }

  /** The feedback of an action that accepted the goal. */
  function FeedbackBy(h: Handle, e: Event): seq<Message> {
    if e.LocalFeedback? && h.verdict == Some(true) then [Message(Feedback, h.gid, Some(e.data))] else []
  }

  /** Its result, reported when no report is under way. */
  function ResultBy(h: Handle, e: Event): seq<Message> {
    if e.LocalResult? && h.verdict == Some(true) && h.resultCb.Idle?
       && (e.op.ResultSucceeded? || e.op.ResultAborted? || e.op.ResultCanceled?)
    then [Message(e.op, h.gid, Some(e.data))]
    else []
  }

  /** A result whose callback has not sent it. */
  function PendingResult(h: Handle): seq<Message> {
    if h.resultCb.Running? && h.resultCb.script != [] && h.resultCb.script[0].Emit?
    then [Message(h.resultCb.script[0].op, h.gid, Some(h.resultCb.script[0].data))]
    else []
  }

  /** Extending what was sent by at most one message. */
  lemma SentExtends(before: seq<Message>, sent: seq<Message>)
    requires |sent| <= 1
    ensures Feedbacks(before + sent) == Feedbacks(before) + if sent == [] then [] else FeedbackIn(sent[0])
    ensures Results(before + sent) == Results(before) + if sent == [] then [] else ResultIn(sent[0])
    ensures CancelRejects(before + sent) == CancelRejects(before) + if sent == [] then [] else RejectIn(sent[0])
    ensures CancelAccepts(before + sent) == CancelAccepts(before) + if sent == [] then [] else AcceptIn(sent[0])
  {
    GatherConcat(FeedbackIn, before, sent);
    GatherConcat(ResultIn, before, sent);
    GatherConcat(RejectIn, before, sent);
    GatherConcat(AcceptIn, before, sent);
    if sent != [] {
      assert sent == [sent[0]];
      GatherOne(FeedbackIn, sent[0]);
      GatherOne(ResultIn, sent[0]);
      GatherOne(RejectIn, sent[0]);
      GatherOne(AcceptIn, sent[0]);
    }
  }

  /** The message a step sends, as the action's outputs give it. */
  predicate Sends(h: Handle, e: Event, sent: seq<Message>) {
    && |sent| <= 1
    && (if sent == [] then FeedbackBy(h, e) == [] else FeedbackIn(sent[0]) == FeedbackBy(h, e))
    && PendingResult(h) + ResultBy(h, e)
       == (if sent == [] then [] else ResultIn(sent[0])) + PendingResult(Step(h, e))
  }

  lemma ScriptSends(h: Handle, e: Event)
    requires Control(h) && (e.RunRefusal? || e.RunGoalCallback? || e.RunCancelCallback?)
    ensures Sends(h, e, Sent(h, e))
  {
  }

  lemma OutputSends(h: Handle, e: Event)
    requires Control(h) && (e.LocalFeedback? || e.LocalResult? || e.RunResultCallback?)
    ensures Sends(h, e, Sent(h, e))
  {
  }

  lemma SilentSends(h: Handle, e: Event)
    requires Control(h) && !MakesAccess(e) && !e.LocalResult?
    ensures Sends(h, e, Sent(h, e))
  {
  }

  lemma StepSends(h: Handle, e: Event)
    requires Control(h)
    ensures Sends(h, e, Sent(h, e))
  {
    if e.RunRefusal? || e.RunGoalCallback? || e.RunCancelCallback? { ScriptSends(h, e); }
    else if e.LocalFeedback? || e.LocalResult? || e.RunResultCallback? { OutputSends(h, e); }
    else { SilentSends(h, e); }
  }

  /**
   * Every step sends the action's own data: feedback as it is given, and a
   * result once its callback has come to send it.
   */
  lemma StepProduces(h: Handle, e: Event)
    requires Control(h)
    ensures var h' := Step(h, e);
            && Feedbacks(h'.emitted) == Feedbacks(h.emitted) + FeedbackBy(h, e)
            && Results(h'.emitted) + PendingResult(h') == Results(h.emitted) + PendingResult(h) + ResultBy(h, e)
  {
    StepSends(h, e);
    SentIsEmitted(h, e);
    SentExtends(h.emitted, Sent(h, e));
    var sent := if Sent(h, e) == [] then [] else ResultIn(Sent(h, e)[0]);
    AppendNothing(Feedbacks(h.emitted));
    Assoc(Results(h.emitted), PendingResult(h), ResultBy(h, e));
    Assoc(Results(h.emitted), sent, PendingResult(Step(h, e)));
  }

  // ---------- answers to cancels ----------

  /** An accepted cancel is answered with CANCEL_ACCEPT, a rejected one with CANCEL_REJECT, each once. */
  predicate CancelsAnswered(h: Handle) {
    && |CancelAccepts(h.emitted)| + One(h.cancelCb.Running? && |h.cancelCb.script| == 3) == h.cancelAccepts
    && |CancelRejects(h.emitted)| + One(h.cancelCb.Running? && |h.cancelCb.script| == 2 && h.cancelCb.script[0].Emit?)
       + h.cancelAccepts + One(h.cancelCb.Due?) == h.cancelCalls
  }

  lemma CallbackAnswers(h: Handle)
    requires Control(h) && CancelsAnswered(h)
    ensures CancelsAnswered(Step(h, RunCancelCallback))
  {
    SentIsEmitted(h, RunCancelCallback);
    SentExtends(h.emitted, Sent(h, RunCancelCallback));
  }

  /** A step that sends nothing about cancels and leaves their callback alone. */
  lemma AnswersStay(h: Handle, h': Handle, sent: seq<Message>)
    requires CancelsAnswered(h) && |sent| <= 1 && h'.emitted == h.emitted + sent
    requires forall m <- sent :: !m.op.CancelAccept? && !m.op.CancelReject?
    requires h'.cancelCb == h.cancelCb && h'.cancelAccepts == h.cancelAccepts && h'.cancelCalls == h.cancelCalls
    ensures CancelsAnswered(h')
  {
    SentExtends(h.emitted, sent);
  }

  lemma ScriptSaysNothingOfCancels(h: Handle, e: Event)
    requires Control(h) && (e.RunRefusal? || e.RunGoalCallback? || e.LocalFeedback? || e.RunResultCallback?)
    ensures forall m <- Sent(h, e) :: !m.op.CancelAccept? && !m.op.CancelReject?
    ensures var h' := Step(h, e);
            h'.cancelCb == h.cancelCb && h'.cancelAccepts == h.cancelAccepts && h'.cancelCalls == h.cancelCalls
  {
  }

  lemma DecisionAnswers(h: Handle, e: Event)
    requires Control(h) && CancelsAnswered(h) && (e.AnswerCancel? || e.Dispatch?)
    ensures CancelsAnswered(Step(h, e))
  {
    SilentSaysNothing(h, e);
  }

  lemma SilentAnswers(h: Handle, e: Event)
    requires Control(h) && CancelsAnswered(h) && !MakesAccess(e) && !e.AnswerCancel? && !e.Dispatch?
    ensures CancelsAnswered(Step(h, e))
  {
    SilentSaysNothing(h, e);
    AppendNothing(h.emitted);
    AnswersStay(h, Step(h, e), []);
  }

  lemma StepAnswersCancels(h: Handle, e: Event)
    requires Control(h) && CancelsAnswered(h)
    ensures CancelsAnswered(Step(h, e))
  {
    if e.RunCancelCallback? { CallbackAnswers(h); }
    else if MakesAccess(e) {
      ScriptSaysNothingOfCancels(h, e);
      SentIsEmitted(h, e);
      AnswersStay(h, Step(h, e), Sent(h, e));
    }
    else if e.AnswerCancel? || e.Dispatch? { DecisionAnswers(h, e); }
    else { SilentAnswers(h, e); }
  }

  // ---------- when a goal is done ----------

  /** The reject path has come to its last store. */
  predicate RefusalStored(h: Handle) {
    h.goalCalls == 0 && !BeforeVerdict(h)
  }

  predicate RejectionStored(h: Handle) {
    h.verdict == Some(false) && (h.goalCb.Running? ==> |h.goalCb.script| == 1)
  }

  /** An accepted cancel whose callback has not stored it. */
  predicate CancelComing(h: Handle) {
    && h.cancelCb.Running?
    && (|h.cancelCb.script| == 3 || (|h.cancelCb.script| == 2 && h.cancelCb.script[0] == SetDone))
  }

  /** A sent result whose callback has not stored it. */
  predicate ResultComing(h: Handle) {
    h.resultCb.Running? && |h.resultCb.script| == 1
  }

  predicate CancelStored(h: Handle) {
    h.cancelAccepts > One(CancelComing(h))
  }

  predicate ResultStored(h: Handle) {
    |Results(h.emitted)| > One(ResultComing(h))
  }

  /** A goal is done exactly when it was refused, rejected, cancelled, or has its result. */
  predicate DoneWhen(h: Handle) {
    && (h.flags.done <==> RefusalStored(h) || RejectionStored(h) || CancelStored(h) || ResultStored(h))
    && (CancelComing(h) ==> h.cancelAccepts > 0)
    && (ResultComing(h) ==> |Results(h.emitted)| > 0)
  }

  /** A step without a result keeps their number. */
  lemma NoNewResult(h: Handle, e: Event)
    requires Control(h) && !e.LocalResult? && !e.RunResultCallback?
    ensures Results(Step(h, e).emitted) == Results(h.emitted) && Step(h, e).resultCb == h.resultCb
  {
    StepSends(h, e);
    SentIsEmitted(h, e);
    SentExtends(h.emitted, Sent(h, e));
    AppendNothing(Results(h.emitted));
  }

  lemma ScriptKeepsDone(h: Handle, e: Event)
    requires Control(h) && DoneWhen(h) && (e.RunRefusal? || e.RunGoalCallback?)
    ensures DoneWhen(Step(h, e))
  {
    NoNewResult(h, e);
  }

  /** What a step leaves as it is when it has nothing to do with results. */
  predicate SameElsewhere(h: Handle, h': Handle) {
    && (RefusalStored(h') <==> RefusalStored(h)) && (RejectionStored(h') <==> RejectionStored(h))
    && (ResultStored(h') <==> ResultStored(h)) && (ResultComing(h') <==> ResultComing(h))
    && |Results(h'.emitted)| == |Results(h.emitted)|
  }

  lemma CancelLeavesTheRest(h: Handle, e: Event)
    requires Control(h) && (e.RunCancelCallback? || e.AnswerCancel?)
    ensures SameElsewhere(h, Step(h, e))
  {
    NoNewResult(h, e);
  }

  lemma CallbackStoresCancel(h: Handle)
    requires Control(h) && (CancelComing(h) ==> h.cancelAccepts > 0)
    ensures var h' := Step(h, RunCancelCallback);
            && (h.flags.done ==> h'.flags.done) && (CancelStored(h) ==> CancelStored(h'))
            && (CancelStored(h') ==> CancelStored(h) || h'.flags.done)
            && (CancelComing(h') ==> h'.cancelAccepts > 0)
            && (h'.flags.done ==> h.flags.done || CancelStored(h'))
  {
  }

  lemma AnswerLeavesCancels(h: Handle, accepted: bool)
    requires Control(h) && (CancelComing(h) ==> h.cancelAccepts > 0)
    ensures var h' := Step(h, AnswerCancel(accepted));
            && h'.flags.done == h.flags.done && (CancelStored(h') <==> CancelStored(h))
            && (CancelComing(h') ==> h'.cancelAccepts > 0)
  {
  }

  lemma CancelKeepsDone(h: Handle, e: Event)
    requires Control(h) && DoneWhen(h) && (e.RunCancelCallback? || e.AnswerCancel?)
    ensures DoneWhen(Step(h, e))
  {
    CancelLeavesTheRest(h, e);
    if e.AnswerCancel? { AnswerLeavesCancels(h, e.accepted); } else { CallbackStoresCancel(h); }
  }

  /** The parts of DoneWhen that results do not touch. */
  predicate SameButResults(h: Handle, h': Handle) {
    && (RefusalStored(h') <==> RefusalStored(h)) && (RejectionStored(h') <==> RejectionStored(h))
    && (CancelStored(h') <==> CancelStored(h)) && (CancelComing(h') <==> CancelComing(h))
    && h'.cancelAccepts == h.cancelAccepts
  }

  lemma ResultLeavesTheRest(h: Handle, e: Event)
    requires Control(h) && (e.LocalResult? || e.RunResultCallback?)
    ensures SameButResults(h, Step(h, e))
  {
  }

  lemma ReportedIsNotStored(h: Handle, op: Op, data: Bytes)
    requires Control(h) && (ResultComing(h) ==> |Results(h.emitted)| > 0)
    ensures var h' := Step(h, LocalResult(op, data));
            && h'.flags.done == h.flags.done && (ResultStored(h') <==> ResultStored(h))
            && (ResultComing(h') ==> |Results(h'.emitted)| > 0)
  {
    SilentSaysNothing(h, LocalResult(op, data));
  }

  lemma ResultCallbackSends(h: Handle)
    requires Control(h) && Enabled(h, RunResultCallback)
    ensures var h' := Step(h, RunResultCallback);
            && |Results(h'.emitted)| == |Results(h.emitted)| + One(|h.resultCb.script| == 2)
            && (h'.flags.done <==> h.flags.done || |h.resultCb.script| == 1)
            && h'.resultCb == if |h.resultCb.script| == 2 then Running(h.resultCb.script[1..]) else Idle
  {
    SentIsEmitted(h, RunResultCallback);
    SentExtends(h.emitted, Sent(h, RunResultCallback));
  }

  lemma ResultIsStored(h: Handle, e: Event)
    requires Control(h) && (ResultComing(h) ==> |Results(h.emitted)| > 0) && (e.LocalResult? || e.RunResultCallback?)
    ensures var h' := Step(h, e);
            && (h'.flags.done ==> h.flags.done || ResultStored(h'))
            && (h.flags.done ==> h'.flags.done)
            && (ResultStored(h) ==> ResultStored(h')) && (ResultStored(h') ==> ResultStored(h) || h'.flags.done)
            && (ResultComing(h') ==> |Results(h'.emitted)| > 0)
  {
    if e.LocalResult? { ReportedIsNotStored(h, e.op, e.data); }
    else if Enabled(h, e) { ResultCallbackSends(h); }
  }

  lemma ResultKeepsDone(h: Handle, e: Event)
    requires Control(h) && DoneWhen(h) && (e.LocalResult? || e.RunResultCallback?)
    ensures DoneWhen(Step(h, e))
  {
    ResultLeavesTheRest(h, e);
    ResultIsStored(h, e);
  }

  lemma ThreadKeepsDone(h: Handle, e: Event)
    requires Control(h) && DoneWhen(h) && (e.Take? || e.PutBack? || e.Dispatch?)
    ensures DoneWhen(Step(h, e))
  {
    NoNewResult(h, e);
  }

  lemma OtherStepKeepsDone(h: Handle, e: Event)
    requires Control(h) && DoneWhen(h) && (e.CheckGoal? || e.AnswerGoal? || e.LocalFeedback? || e.EraseHandle?)
    ensures DoneWhen(Step(h, e))
  {
    NoNewResult(h, e);
  }

  lemma StepKeepsDone(h: Handle, e: Event)
    requires Control(h) && DoneWhen(h)
    ensures DoneWhen(Step(h, e))
  {
    if e.RunRefusal? || e.RunGoalCallback? { ScriptKeepsDone(h, e); }
    else if e.RunCancelCallback? || e.AnswerCancel? { CancelKeepsDone(h, e); }
    else if e.LocalResult? || e.RunResultCallback? { ResultKeepsDone(h, e); }
    else if e.Take? || e.PutBack? || e.Dispatch? { ThreadKeepsDone(h, e); }
    else { OtherStepKeepsDone(h, e); }
  }

  // ---------- runs ----------

  function InputFeedback(h: Handle, i: Input): seq<Message> {
    match i
    case Do(e) => FeedbackBy(h, e)
    case Arrives(_) => []
  }

  function InputResult(h: Handle, i: Input): seq<Message> {
    match i
    case Do(e) => ResultBy(h, e)
    case Arrives(_) => []
  }

  /** The feedback the local action gave over a run, and its results. */
  function FeedbackGiven(goal: Message, inputs: seq<Input>): seq<Message>
    decreases |inputs|
  {
    if inputs == [] then []
    else
      var before := inputs[..|inputs| - 1];
      FeedbackGiven(goal, before) + InputFeedback(After(goal, before), inputs[|inputs| - 1])
  }

  function ResultsGiven(goal: Message, inputs: seq<Input>): seq<Message>
    decreases |inputs|
  {
    if inputs == [] then []
    else
      var before := inputs[..|inputs| - 1];
      ResultsGiven(goal, before) + InputResult(After(goal, before), inputs[|inputs| - 1])
  }

  /** Everything above, for one state. */
  predicate Faithful(h: Handle, content: Option<Bytes>, feedback: seq<Message>, results: seq<Message>) {
    && Carries(h, content) && CancelsAnswered(h) && DoneWhen(h)
    && Feedbacks(h.emitted) == feedback
    && Results(h.emitted) + PendingResult(h) == results
  }

  lemma NewIsFaithful(goal: Message)
    ensures Faithful(NewHandle(goal), goal.content, [], [])
  {
  }

  lemma StepIsFaithful(h: Handle, e: Event, content: Option<Bytes>, feedback: seq<Message>, results: seq<Message>)
    requires Control(h) && Faithful(h, content, feedback, results)
    ensures Faithful(Step(h, e), content, feedback + FeedbackBy(h, e), results + ResultBy(h, e))
  {
    StepCarries(h, e, content);
    StepProduces(h, e);
    StepAnswersCancels(h, e);
    StepKeepsDone(h, e);
  }

  lemma PushIsFaithful(h: Handle, m: Message, content: Option<Bytes>, feedback: seq<Message>, results: seq<Message>)
    requires Control(h) && Faithful(h, content, feedback, results) && m.op.CancelRequest?
    ensures Faithful(Push(h, m), content, feedback, results)
  {
  }

  /**
   * Data integrity of the remote side, in every run: the local action is asked
   * with the goal's data, its feedback is sent unchanged and in order, its
   * results too once their callbacks have got to it, each cancel gets the answer
   * the action gave, and the goal is done exactly when it was refused, rejected,
   * cancelled or has its result.
   */
  lemma {:induction false} RemoteDataIntegrity(goal: Message, inputs: seq<Input>)
    requires goal.op.GoalRequest?
    ensures Faithful(After(goal, inputs), goal.content, FeedbackGiven(goal, inputs), ResultsGiven(goal, inputs))
    decreases |inputs|
  {
    if inputs == [] {
      NewIsFaithful(goal);
    } else {
      var before := inputs[..|inputs| - 1];
      var h := After(goal, before);
      AfterInv(goal, before);
      RemoteDataIntegrity(goal, before);
      match inputs[|inputs| - 1]
      case Do(e) => StepIsFaithful(h, e, goal.content, FeedbackGiven(goal, before), ResultsGiven(goal, before));
      case Arrives(m) =>
        AppendNothing(FeedbackGiven(goal, before));
        AppendNothing(ResultsGiven(goal, before));
        if m.op.CancelRequest? {
          PushIsFaithful(h, m, goal.content, FeedbackGiven(goal, before), ResultsGiven(goal, before));
        }
    }
  }

  /** A handle leaves the table only after its thread, and then it can. */
  lemma ExitedIsErased(h: Handle, e: Event)
    requires Control(h) && h.inTable
    ensures !Step(h, e).inTable <==> e == EraseHandle && h.stage.Exited?
  {
  }

  /** The executing thread leaves exactly when it finds the goal done. */
  lemma ThreadLeavesWhenDone(h: Handle)
    requires Control(h) && h.stage.AtLoopHead?
    ensures Step(h, Take).stage.Exited? <==> h.flags.done
    ensures !h.flags.done && h.waitQueue != [] ==> Step(h, Take).stage == Holding(h.waitQueue[0])
  {
  }
}
