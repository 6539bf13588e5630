/**
 * One goal on the remote side, step by step: its executing thread and the
 * plugin's callbacks, which run on other threads. Steps end at lock and atomic
 * accesses; a step that is not enabled changes nothing.
 */
module RemoteGoal {
  import opened Types
  import opened Sequences
  import opened GoalScripts

  /** Where executeHandle stands. */
  datatype Stage =
    | AtLoopHead
    | Holding(message: Message)     // dequeued, not yet looked at
    | Requeuing(message: Message)   // a cancel that came before the verdict
    | InGoal(message: Message)      // executeGoal, with handlingGoal raised
    | Refusing(script: Script)      // a reject path of executeGoal
    | Exited

  /** A callback of the plugin: not pending, pending, or part-way through its script. */
  datatype Callback = Idle | Due | Running(script: Script)

  /**
   * A handle and what its threads are doing. From `taken` on the fields are
   * history: op-codes dequeued, messages sent, the plugin's verdict, calls of
   * asyncSendGoal and asyncCancelGoal, cancels answered, accepted, dropped because
   * one was in progress, pushed by handle(), unexpected messages, and the data
   * asyncSendGoal was called with.
   */
  datatype Handle = Handle(
    gid: Bytes, flags: Flags, waitQueue: seq<Message>, stage: Stage,
    goalCb: Callback, cancelCb: Callback, resultCb: Callback, inTable: bool,
    taken: seq<Op>, emitted: seq<Message>, verdict: Option<bool>, goalCalls: nat, cancelCalls: nat,
    cancelReturns: nat, cancelAccepts: nat, absorbed: nat, received: nat, unexpected: nat,
    asked: seq<Bytes>)

  function NewHandle(goal: Message): Handle {
    Handle(goal.gid, Flags(false, false, false), [goal], AtLoopHead, Idle, Idle, Idle, true,
           [], [], None, 0, 0, 0, 0, 0, 0, 0, [])
  }

  datatype Event =
    | Take                                        // the wait returns: exit if done, else dequeue
    | Dispatch
    | PutBack
    | CheckGoal(limits: Limits, available: bool)
    | RunRefusal
    | AnswerGoal(accepted: bool)                  // the local action decides
    | RunGoalCallback
    | AnswerCancel(accepted: bool)
    | RunCancelCallback
    | LocalFeedback(data: Bytes)
    | LocalResult(op: Op, data: Bytes)
    | RunResultCallback
    | EraseHandle

  predicate Enabled(h: Handle, e: Event) {
    match e
    case Take => h.stage.AtLoopHead? && (h.flags.done || h.waitQueue != [])
    case Dispatch => h.stage.Holding?
    case PutBack => h.stage.Requeuing?
    case CheckGoal(_, _) => h.stage.InGoal?
    case RunRefusal => h.stage.Refusing? && h.stage.script != []
    case AnswerGoal(_) => h.goalCb.Due?
    case RunGoalCallback => h.goalCb.Running? && h.goalCb.script != []
    case AnswerCancel(_) => h.cancelCb.Due?
    case RunCancelCallback => h.cancelCb.Running? && h.cancelCb.script != []
    case LocalFeedback(_) => h.verdict == Some(true)
    case LocalResult(op, _) => h.verdict == Some(true) && h.resultCb.Idle? && op.IsResult() && !op.ResultUnknown?
    case RunResultCallback => h.resultCb.Running? && h.resultCb.script != []
    case EraseHandle => h.stage.Exited? && h.inTable
  }

  /** One access of a script. */
  function Perform(h: Handle, m: Micro): Handle {
    h.(flags := Stored(h.flags, m), emitted := h.emitted + SentBy(h.gid, m))
  }

  function Rest(s: Script): Callback
    requires s != []
  {
    if |s| == 1 then Idle else Running(s[1..])
  }

  function Step(h: Handle, e: Event): Handle {
    if !Enabled(h, e) then h
    else match e
      case Take =>
        if h.flags.done then h.(stage := Exited)
        else h.(stage := Holding(h.waitQueue[0]), waitQueue := h.waitQueue[1..], taken := h.taken + [h.waitQueue[0].op])
      case Dispatch => Dispatched(h, Decide(h.flags, h.stage.message.op))
      case PutBack => h.(waitQueue := h.waitQueue + [h.stage.message], stage := AtLoopHead)
      case CheckGoal(limits, available) =>
        if Refused(limits, h.stage.message, available) then h.(stage := Refusing(REFUSE))
        else
          h.(stage := AtLoopHead, goalCb := Due,
             goalCalls := h.goalCalls + 1, asked := h.asked + [h.stage.message.content.value])
      case RunRefusal =>
        var s := h.stage.script;
        Perform(h, s[0]).(stage := if |s| == 1 then AtLoopHead else Refusing(s[1..]))
      case AnswerGoal(accepted) =>
        h.(goalCb := Running(if accepted then GOAL_ACCEPTED else GOAL_REJECTED), verdict := Some(accepted))
      case RunGoalCallback => Perform(h, h.goalCb.script[0]).(goalCb := Rest(h.goalCb.script))
      case AnswerCancel(accepted) =>
        h.(cancelCb := Running(if accepted then CANCEL_ACCEPTED else CANCEL_REJECTED),
           cancelAccepts := h.cancelAccepts + if accepted then 1 else 0)
      case RunCancelCallback =>
        Perform(h, h.cancelCb.script[0]).(cancelCb := Rest(h.cancelCb.script),
                                          cancelReturns := h.cancelReturns + if |h.cancelCb.script| == 1 then 1 else 0)
      case LocalFeedback(data) => Perform(h, Emit(Feedback, data))
      case LocalResult(op, data) => h.(resultCb := Running(ResultScript(op, data)))
      case RunResultCallback => Perform(h, h.resultCb.script[0]).(resultCb := Rest(h.resultCb.script))
      case EraseHandle => h.(inTable := false)
  }

  function Dispatched(h: Handle, d: Decision): Handle
    requires h.stage.Holding?
  {
    match d
    case StartGoal => h.(flags := h.flags.(handlingGoal := true), stage := InGoal(h.stage.message))
    case Requeue => h.(stage := Requeuing(h.stage.message))
    case Absorb => h.(stage := AtLoopHead, absorbed := h.absorbed + 1)
    case StartCancel =>
      h.(flags := h.flags.(handlingCancel := true), stage := AtLoopHead,
         cancelCb := Due, cancelCalls := h.cancelCalls + 1)
    case DropGoal => h.(stage := AtLoopHead, unexpected := h.unexpected + 1)
    case DropUnknown => h.(stage := AtLoopHead, unexpected := h.unexpected + 1)
  }

  /** handle() pushes a message to the wait queue. */
  function Push(h: Handle, m: Message): Handle {
    h.(waitQueue := h.waitQueue + [m], received := h.received + 1)
  }

  // ---------- projections of what was sent ----------

  predicate IsVerdict(op: Op) {
    op.GoalAccept? || op.GoalReject?
  }

  function VerdictIn(m: Message): seq<Op> {
    if IsVerdict(m.op) then [m.op] else []
  }

  /** The verdicts among some messages, in order. */
  function Verdicts(ms: seq<Message>): seq<Op> {
    Gather(VerdictIn, ms)
  }

  function StreamIn(m: Message): seq<Message> {
    if m.op.Feedback? || m.op.IsResult() then [m] else []
  }

  /** Feedback and results, in order. */
  function Stream(ms: seq<Message>): seq<Message> {
    Gather(StreamIn, ms)
  }

  function AcceptIn(m: Message): seq<Op> {
    if m.op.CancelAccept? then [m.op] else []
  }

  function CancelAccepts(ms: seq<Message>): seq<Op> {
    Gather(AcceptIn, ms)
  }

  lemma ProjectionsGrow(ms: seq<Message>, m: Message)
    ensures Verdicts(ms + [m]) == Verdicts(ms) + VerdictIn(m)
    ensures Stream(ms + [m]) == Stream(ms) + StreamIn(m)
    ensures CancelAccepts(ms + [m]) == CancelAccepts(ms) + AcceptIn(m)
  {
    GatherSnoc(VerdictIn, ms, m);
    GatherSnoc(StreamIn, ms, m);
    GatherSnoc(AcceptIn, ms, m);
  }

  lemma PerformProjects(h: Handle, m: Micro)
    ensures var sent := SentBy(h.gid, m);
            var after := Perform(h, m).emitted;
            && Verdicts(after) == Verdicts(h.emitted) + (if sent == [] then [] else VerdictIn(sent[0]))
            && Stream(after) == Stream(h.emitted) + (if sent == [] then [] else StreamIn(sent[0]))
            && CancelAccepts(after) == CancelAccepts(h.emitted) + (if sent == [] then [] else AcceptIn(sent[0]))
  {
    if m.Emit? {
      ProjectionsGrow(h.emitted, SentBy(h.gid, m)[0]);
    } else {
      assert h.emitted + [] == h.emitted;
    }
  }

  // ---------- the invariant ----------

  predicate AllCancels(ms: seq<Message>) {
    forall i :: 0 <= i < |ms| ==> ms[i].op.CancelRequest?
  }

  predicate GoalFirst(ops: seq<Op>) {
    ops != [] ==> ops[0].GoalRequest? && forall i :: 1 <= i < |ops| ==> ops[i].CancelRequest?
  }

  /** The one GOAL leaves the queue first; what follows are CANCELs. */
  predicate Ordered(h: Handle) {
    && GoalFirst(h.taken)
    && (h.taken == [] ==>
          && h.stage.AtLoopHead? && h.waitQueue != []
          && h.waitQueue[0].op.GoalRequest? && AllCancels(h.waitQueue[1..]))
    && (h.taken != [] ==> AllCancels(h.waitQueue))
    && (h.stage.Holding? ==>
          if |h.taken| == 1 then h.stage.message.op.GoalRequest? else h.stage.message.op.CancelRequest?)
    && (h.stage.Requeuing? ==> h.stage.message.op.CancelRequest?)
    && (h.stage.Requeuing? || h.stage.InGoal? || h.stage.Refusing? || h.stage.Exited? ==> h.taken != [])
  }

  /** The goal has not reached executeGoal. */
  predicate Untouched(h: Handle) {
    h.taken == [] || (h.stage.Holding? && h.stage.message.op.GoalRequest?)
  }

  predicate BeforeVerdict(h: Handle) {
    Untouched(h) || h.stage.InGoal? || h.stage.Refusing?
  }

  /** Until executeGoal ends nothing but its own script touches the handle. */
  predicate Quiet(h: Handle) {
    BeforeVerdict(h) ==>
      && h.goalCb.Idle? && h.cancelCb.Idle? && h.resultCb.Idle? && h.verdict.None?
      && h.goalCalls == 0 && h.cancelCalls == 0 && h.absorbed == 0
      && !h.flags.handlingCancel && !h.flags.done
  }

  // What is left of a script: its length says how far the thread got.

  predicate RefusalTail(s: Script) {
    || (|s| == 3 && s[0] == Emit(GoalReject, []) && s[1] == ClearGoal && s[2] == SetDone)
    || (|s| == 2 && s[0] == ClearGoal && s[1] == SetDone)
    || (|s| == 1 && s[0] == SetDone)
  }

  predicate GoalTail(accepted: bool, s: Script) {
    || (|s| == 3 && !accepted && s[0] == Emit(GoalAccept, []) && s[1] == SetDone && s[2] == ClearGoal)
    || (|s| == 2 && s[0] == (if accepted then Emit(GoalAccept, []) else SetDone) && s[1] == ClearGoal)
    || (|s| == 1 && s[0] == ClearGoal)
  }

  predicate CancelTail(s: Script) {
    || (|s| == 3 && s[0] == Emit(CancelAccept, []) && s[1] == SetDone && s[2] == ClearCancel)
    || (|s| == 2 && (s[0] == SetDone || s[0] == Emit(CancelReject, [])) && s[1] == ClearCancel)
    || (|s| == 1 && s[0] == ClearCancel)
  }

  predicate RefusalPoint(h: Handle) {
    h.stage.Refusing? ==> RefusalTail(h.stage.script)
  }

  predicate GoalPoint(h: Handle) {
    && (h.goalCb.Due? ==> h.verdict.None?)
    && (h.goalCb.Running? ==>
          h.verdict.Some? && GoalTail(h.verdict.value, h.goalCb.script))
    && (!h.goalCb.Idle? ==> h.goalCalls == 1)
    && (h.goalCalls == 1 && h.goalCb.Idle? ==> h.verdict.Some?)
    && (h.goalCalls == 0 ==> h.verdict.None?)
    && h.goalCalls <= 1
  }

  /** The goal flag is up from executeGoal until the verdict is out. */
  predicate GoalFlag(h: Handle) {
    h.flags.handlingGoal <==>
      h.stage.InGoal? || (h.stage.Refusing? && |h.stage.script| >= 2) || !h.goalCb.Idle?
  }

  /** The verdict sent so far. */
  function VerdictSent(h: Handle): seq<Op> {
    if Untouched(h) || h.stage.InGoal? || (h.stage.Refusing? && |h.stage.script| == 3) then []
    else if h.goalCalls == 0 then [GoalReject]
    else if h.goalCb.Due? || (h.goalCb.Running? && h.goalCb.script != [] && h.goalCb.script[0].Emit?) then []
    else [GoalAccept]
  }

  function One(b: bool): nat {
    if b then 1 else 0
  }

  predicate CancelPoint(h: Handle) {
    && (h.flags.handlingCancel <==> !h.cancelCb.Idle?)
    && (h.cancelCb.Running? ==> CancelTail(h.cancelCb.script))
    && (h.cancelCb.Running? && |h.cancelCb.script| == 3 ==> h.cancelAccepts > 0)
    && h.cancelCalls == h.cancelReturns + One(!h.cancelCb.Idle?)
    && (h.cancelCalls > 0 ==> VerdictSent(h) != [])
    && (h.absorbed > 0 ==> h.cancelCalls > 0)
  }

  predicate ResultPoint(h: Handle) {
    && (h.resultCb.Due? ==> false)
    && (h.resultCb.Running? ==>
          || (h.resultCb.script == [SetDone])
          || (&& |h.resultCb.script| == 2 && h.resultCb.script[0].Emit? && h.resultCb.script[0].op.IsResult()
              && h.resultCb.script[1] == SetDone))
    && (h.verdict != Some(true) ==> h.resultCb.Idle?)
  }

  /** CANCELs that wait in the handle: in the queue or in the hand of its thread. */
  function CancelsHeld(h: Handle): nat {
    |h.waitQueue| - One(h.taken == [] && h.waitQueue != [])
    + One(h.stage.Requeuing? || (h.stage.Holding? && h.stage.message.op.CancelRequest?))
  }

  predicate Leaving(h: Handle) {
    && (h.goalCalls == 0 && !BeforeVerdict(h) ==> h.flags.done)
    && (h.stage.Exited? ==> h.flags.done)
    && (!h.inTable ==> h.stage.Exited?)
  }

  /** The part of the invariant about control and counts. */
  predicate Control(h: Handle) {
    && Ordered(h) && Quiet(h) && RefusalPoint(h) && GoalPoint(h) && GoalFlag(h)
    && CancelPoint(h) && ResultPoint(h) && Leaving(h)
    && h.received == CancelsHeld(h) + h.cancelCalls + h.absorbed
    && h.unexpected == 0
  }

  predicate FromRemote(gid: Bytes, ms: seq<Message>) {
    forall i :: 0 <= i < |ms| ==> ms[i].gid == gid && ms[i].op.Code() >= 4 && !ms[i].op.CancelRequest?
  }

  /** The part about what was sent. */
  predicate Said(h: Handle) {
    && Verdicts(h.emitted) == VerdictSent(h)
    && (CancelAccepts(h.emitted) != [] ==> h.cancelAccepts > 0)
    && (h.verdict != Some(true) ==> Stream(h.emitted) == [])
    && FromRemote(h.gid, h.emitted)
  }

  predicate Inv(h: Handle) {
    Control(h) && Said(h)
  }

  lemma NewHandleInv(goal: Message)
    requires goal.op.GoalRequest?
    ensures Inv(NewHandle(goal))
  {
  }

  lemma PushKeepsInv(h: Handle, m: Message)
    requires Inv(h) && m.op.CancelRequest?
    ensures Inv(Push(h, m))
  {
    if h.taken == [] { assert (h.waitQueue + [m])[1..] == h.waitQueue[1..] + [m]; }
  }

  predicate MakesAccess(e: Event) {
    e.RunRefusal? || e.RunGoalCallback? || e.RunCancelCallback? || e.LocalFeedback? || e.RunResultCallback?
  }

  lemma TakeKeepsOrder(h: Handle)
    requires Ordered(h) && (h.taken == [] ==> !h.flags.done)
    ensures Ordered(Step(h, Take))
  {
  }

  lemma TakeKeepsControl(h: Handle)
    requires Control(h)
    ensures Control(Step(h, Take))
  {
    TakeKeepsOrder(h);
  }

  lemma PutBackKeepsControl(h: Handle)
    requires Control(h)
    ensures Control(Step(h, PutBack))
  {
  }

  lemma CheckKeepsControl(h: Handle, e: Event)
    requires Control(h) && (e.EraseHandle? || e.CheckGoal?)
    ensures Control(Step(h, e))
  {
  }

  lemma DispatchKeepsOrder(h: Handle)
    requires Ordered(h)
    ensures Ordered(Step(h, Dispatch))
  {
  }

  lemma DispatchKeepsControl(h: Handle)
    requires Control(h)
    ensures Control(Step(h, Dispatch))
  {
    DispatchKeepsOrder(h);
  }

  lemma AnswerKeepsControl(h: Handle, e: Event)
    requires Control(h) && (e.AnswerGoal? || e.AnswerCancel? || e.LocalResult?)
    ensures Control(Step(h, e))
  {
  }

  lemma RefusalKeepsControl(h: Handle)
    requires Control(h)
    ensures Control(Step(h, RunRefusal))
  {
  }

  lemma GoalCallbackKeepsControl(h: Handle)
    requires Control(h)
    ensures Control(Step(h, RunGoalCallback))
  {
  }

  lemma CancelCallbackKeepsControl(h: Handle)
    requires Control(h)
    ensures Control(Step(h, RunCancelCallback))
  {
  }

  lemma OutputKeepsControl(h: Handle, e: Event)
    requires Control(h) && (e.LocalFeedback? || e.RunResultCallback?)
    ensures Control(Step(h, e))
  {
  }

  lemma ThreadIsSilent(h: Handle, e: Event)
    requires Control(h) && (e.Take? || e.Dispatch? || e.PutBack?)
    ensures VerdictSent(Step(h, e)) == VerdictSent(h)
  {
  }

  lemma AnswersAreSilent(h: Handle, e: Event)
    requires Control(h) && !MakesAccess(e) && !e.Take? && !e.Dispatch? && !e.PutBack?
    ensures VerdictSent(Step(h, e)) == VerdictSent(h)
  {
  }

  lemma SilentSaysNothing(h: Handle, e: Event)
    requires Control(h) && !MakesAccess(e)
    ensures var h' := Step(h, e);
            && h'.emitted == h.emitted && h'.gid == h.gid && h'.cancelAccepts >= h.cancelAccepts
            && (h.verdict == Some(true) ==> h'.verdict == Some(true))
  {
  }

  lemma SaidCarriesOver(h: Handle, h': Handle)
    requires Said(h) && VerdictSent(h') == VerdictSent(h)
    requires h'.emitted == h.emitted && h'.gid == h.gid && h'.cancelAccepts >= h.cancelAccepts
    requires h.verdict == Some(true) ==> h'.verdict == Some(true)
    ensures Said(h')
  {
  }

  lemma SilentKeepsSaid(h: Handle, e: Event)
    requires Inv(h) && !MakesAccess(e)
    ensures Said(Step(h, e))
  {
    SilentSaysNothing(h, e);
    if e.Take? || e.Dispatch? || e.PutBack? { ThreadIsSilent(h, e); } else { AnswersAreSilent(h, e); }
    SaidCarriesOver(h, Step(h, e));
  }

  function VerdictOf(m: Micro): seq<Op> {
    if m.Emit? then VerdictIn(Message(m.op, [], None)) else []
  }

  /** What an access may send. */
  predicate Sayable(h: Handle, m: Micro) {
    m.Emit? ==>
      && m.op.Code() >= 4 && !m.op.CancelRequest?
      && (m.op.CancelAccept? ==> h.cancelAccepts > 0)
      && (m.op.Feedback? || m.op.IsResult() ==> h.verdict == Some(true))
  }

  lemma SayingKeepsSaid(h: Handle, m: Micro, h': Handle)
    requires Said(h) && Sayable(h, m)
    requires h'.gid == h.gid && h'.emitted == Perform(h, m).emitted
    requires h'.cancelAccepts == h.cancelAccepts && h'.verdict == h.verdict
    requires VerdictSent(h') == VerdictSent(h) + VerdictOf(m)
    ensures Said(h')
  {
    PerformProjects(h, m);
  }

  lemma RefusalSays(h: Handle)
    requires Control(h) && Enabled(h, RunRefusal)
    ensures Sayable(h, h.stage.script[0])
    ensures VerdictSent(Step(h, RunRefusal)) == VerdictSent(h) + VerdictOf(h.stage.script[0])
  {
  }

  lemma GoalCallbackSays(h: Handle)
    requires Control(h) && Enabled(h, RunGoalCallback)
    ensures Sayable(h, h.goalCb.script[0])
    ensures VerdictSent(Step(h, RunGoalCallback)) == VerdictSent(h) + VerdictOf(h.goalCb.script[0])
  {
  }

  lemma CancelCallbackSays(h: Handle)
    requires Control(h) && Enabled(h, RunCancelCallback)
    ensures Sayable(h, h.cancelCb.script[0])
    ensures VerdictSent(Step(h, RunCancelCallback)) == VerdictSent(h) + VerdictOf(h.cancelCb.script[0])
  {
  }

  lemma ResultSays(h: Handle)
    requires Control(h) && Enabled(h, RunResultCallback)
    ensures Sayable(h, h.resultCb.script[0])
    ensures VerdictSent(Step(h, RunResultCallback)) == VerdictSent(h) + VerdictOf(h.resultCb.script[0])
  {
  }

  lemma AccessKeepsSaid(h: Handle, e: Event)
    requires Inv(h) && MakesAccess(e)
    ensures Said(Step(h, e))
  {
    if Enabled(h, e) {
      match e
      case RunRefusal =>
        RefusalSays(h);
        SayingKeepsSaid(h, h.stage.script[0], Step(h, e));
      case RunGoalCallback =>
        GoalCallbackSays(h);
        SayingKeepsSaid(h, h.goalCb.script[0], Step(h, e));
      case RunCancelCallback =>
        CancelCallbackSays(h);
        SayingKeepsSaid(h, h.cancelCb.script[0], Step(h, e));
      case LocalFeedback(data) =>
        SayingKeepsSaid(h, Emit(Feedback, data), Step(h, e));
      case RunResultCallback =>
        ResultSays(h);
        SayingKeepsSaid(h, h.resultCb.script[0], Step(h, e));
    }
  }

  /** Every step keeps the invariant. */
  lemma StepKeepsInv(h: Handle, e: Event)
    requires Inv(h)
    ensures Inv(Step(h, e))
  {
    if MakesAccess(e) { AccessKeepsSaid(h, e); } else { SilentKeepsSaid(h, e); }
    match e
    case Dispatch => DispatchKeepsControl(h);
    case RunRefusal => RefusalKeepsControl(h);
    case RunGoalCallback => GoalCallbackKeepsControl(h);
    case RunCancelCallback => CancelCallbackKeepsControl(h);
    case LocalFeedback(_) => OutputKeepsControl(h, e);
    case RunResultCallback => OutputKeepsControl(h, e);
    case AnswerGoal(_) => AnswerKeepsControl(h, e);
    case AnswerCancel(_) => AnswerKeepsControl(h, e);
    case LocalResult(_, _) => AnswerKeepsControl(h, e);
    case Take => TakeKeepsControl(h);
    case PutBack => PutBackKeepsControl(h);
    case _ => CheckKeepsControl(h, e);
  }

  // ---------- runs ----------

  /** A step, or a CANCEL pushed by handle(). */
  datatype Input = Do(event: Event) | Arrives(cancel: Message)

  function After(goal: Message, inputs: seq<Input>): Handle
    decreases |inputs|
  {
    if inputs == [] then NewHandle(goal)
    else
      var h := After(goal, inputs[..|inputs| - 1]);
      match inputs[|inputs| - 1]
      case Do(e) => Step(h, e)
      case Arrives(m) => if m.op.CancelRequest? then Push(h, m) else h
  }

  lemma {:induction false} AfterInv(goal: Message, inputs: seq<Input>)
    requires goal.op.GoalRequest?
    ensures Inv(After(goal, inputs))
    decreases |inputs|
  {
    if inputs == [] {
      NewHandleInv(goal);
    } else {
      var h := After(goal, inputs[..|inputs| - 1]);
      AfterInv(goal, inputs[..|inputs| - 1]);
      match inputs[|inputs| - 1]
      case Do(e) => StepKeepsInv(h, e);
      case Arrives(m) => if m.op.CancelRequest? { PushKeepsInv(h, m); }
    }
  }

  /**
   * Remote goal ordering, in every run: the one GOAL is dequeued before any
   * CANCEL, the unexpected-goal branch is never taken, the local action is asked
   * at most once, at most one verdict is sent, cancels reach the local action
   * only after the verdict and never while another is outstanding, and every
   * CANCEL pushed is held, handed on or absorbed by one in progress.
   */
  lemma RemoteGoalOrdering(goal: Message, inputs: seq<Input>)
    requires goal.op.GoalRequest?
    ensures var h := After(goal, inputs);
            && GoalFirst(h.taken) && h.unexpected == 0
            && h.goalCalls <= 1 && |Verdicts(h.emitted)| <= 1
            && (h.cancelCalls > 0 ==> |Verdicts(h.emitted)| == 1)
            && h.cancelReturns <= h.cancelCalls <= h.cancelReturns + 1
            && h.received == CancelsHeld(h) + h.cancelCalls + h.absorbed
            && (h.absorbed > 0 ==> h.cancelCalls > 0)
  {
    AfterInv(goal, inputs);
  }

  /** A refused goal: executeGoal took one of its reject paths. */
  predicate WasRefused(h: Handle) {
    h.goalCalls == 0 && !Untouched(h) && !h.stage.InGoal?
  }

  lemma RefusalStays(h: Handle, e: Event)
    requires Control(h) && WasRefused(h)
    ensures WasRefused(Step(h, e))
  {
    if e.Take? { TakeKeepsOrder(h); }
  }

  /** After a reject path the only verdict is GOAL_REJECT and the local action is never asked, whatever follows. */
  lemma RefusalIsFinal(h: Handle, e: Event)
    requires Inv(h) && WasRefused(h)
    ensures WasRefused(Step(h, e)) && Verdicts(Step(h, e).emitted) in {[], [GoalReject]}
  {
    RefusalStays(h, e);
    StepKeepsInv(h, e);
  }

  /**
   * executeGoal refuses exactly on an undecodable goal, a wrong size, or an
   * absent action; otherwise the action is asked with the goal's data.
   */
  lemma RefusedWhen(h: Handle, limits: Limits, available: bool)
    requires Inv(h) && h.stage.InGoal?
    ensures var m, h' := h.stage.message, Step(h, CheckGoal(limits, available));
            var acceptable := m.content.Some? && available
                              && (limits.dynamicSize || |m.content.value| == limits.expectedSize);
            && (WasRefused(h') <==> !acceptable)
            && (acceptable ==> h'.asked == h.asked + [m.content.value] && h'.goalCb.Due?)
            && (!acceptable ==> h'.asked == h.asked)
  {
  }

  /** A waiting CANCEL is acted on once the verdict is out and the thread takes it. */
  lemma CancelIsActedOn(h: Handle)
    requires Inv(h) && h.stage.AtLoopHead? && h.taken != [] && h.waitQueue != []
    requires !h.flags.done && !h.flags.handlingGoal
    ensures var h' := Step(Step(h, Take), Dispatch);
            && h'.cancelCalls > 0 && CancelsHeld(h') == CancelsHeld(h) - 1
            && (h.cancelCb.Idle? <==> h'.cancelCalls == h.cancelCalls + 1)
  {
  }

  // ---------- undisturbed pieces ----------

  // What the steps of one callback, of the reject path and of one pass of the
  // thread add up to when nothing runs in between.

  function GoalAnswered(h: Handle, accepted: bool): Handle {
    var sent := Step(Step(h, AnswerGoal(accepted)), RunGoalCallback);
    var stored := Step(sent, RunGoalCallback);
    if accepted then stored else Step(stored, RunGoalCallback)
  }

  function CancelAnswered(h: Handle, accepted: bool): Handle {
    var sent := Step(Step(h, AnswerCancel(accepted)), RunCancelCallback);
    var stored := Step(sent, RunCancelCallback);
    if accepted then Step(stored, RunCancelCallback) else stored
  }

  function ResultReported(h: Handle, op: Op, data: Bytes): Handle {
    Step(Step(Step(h, LocalResult(op, data)), RunResultCallback), RunResultCallback)
  }

  function RefusalRun(h: Handle): Handle {
    Step(Step(Step(h, RunRefusal), RunRefusal), RunRefusal)
  }

  /** executeGoal, from its checks on. */
  function GoalExecuted(h: Handle, limits: Limits, available: bool): Handle {
    var checked := Step(h, CheckGoal(limits, available));
    if checked.stage.Refusing? then RefusalRun(checked) else checked
  }

  /** One pass of executeHandle; a thread that has to wait stays where it is. */
  function Pass(h: Handle, limits: Limits, available: bool): Handle {
    var taken := Step(h, Take);
    if !taken.stage.Holding? then taken
    else
      var decided := Step(taken, Dispatch);
      if decided.stage.Requeuing? then Step(decided, PutBack)
      else if decided.stage.InGoal? then GoalExecuted(decided, limits, available)
      else decided
  }

  // ---------- what the other side sees of a step ----------

  /** The messages a step sends. */
  function Sent(h: Handle, e: Event): seq<Message> {
    if !Enabled(h, e) then []
    else match e
      case RunRefusal => SentBy(h.gid, h.stage.script[0])
      case RunGoalCallback => SentBy(h.gid, h.goalCb.script[0])
      case RunCancelCallback => SentBy(h.gid, h.cancelCb.script[0])
      case LocalFeedback(data) => SentBy(h.gid, Emit(Feedback, data))
      case RunResultCallback => SentBy(h.gid, h.resultCb.script[0])
      case _ => []
  }

  lemma SentIsEmitted(h: Handle, e: Event)
    ensures |Sent(h, e)| <= 1 && Step(h, e).emitted == h.emitted + Sent(h, e)
    ensures Step(h, e).gid == h.gid && Step(h, e).received == h.received
    ensures !h.inTable ==> !Step(h, e).inTable
    ensures Step(h, e).cancelAccepts >= h.cancelAccepts
    ensures Step(h, e).verdict == h.verdict || e.AnswerGoal?
  {
    assert h.emitted + [] == h.emitted;
  }

  lemma SentSplits(h: Handle, e: Event)
    ensures var after := Step(h, e).emitted;
            && Verdicts(after) == Verdicts(h.emitted) + Verdicts(Sent(h, e))
            && Stream(after) == Stream(h.emitted) + Stream(Sent(h, e))
            && CancelAccepts(after) == CancelAccepts(h.emitted) + CancelAccepts(Sent(h, e))
  {
    SentIsEmitted(h, e);
    GatherConcat(VerdictIn, h.emitted, Sent(h, e));
    GatherConcat(StreamIn, h.emitted, Sent(h, e));
    GatherConcat(AcceptIn, h.emitted, Sent(h, e));
  }

  lemma AtMostOne<T>(a: seq<T>, b: seq<T>)
    requires |a + b| <= 1
    ensures a != [] ==> a + b == a
    ensures b != [] ==> a + b == b
  {
  }

  lemma SentVerdict(h: Handle, e: Event)
    requires Inv(h)
    ensures var h' := Step(h, e);
            && Inv(h')
            && (Verdicts(h.emitted) != [] ==> Verdicts(h'.emitted) == Verdicts(h.emitted))
            && (Verdicts(Sent(h, e)) != [] ==> Verdicts(h'.emitted) == Verdicts(Sent(h, e)))
            && (CancelAccepts(Sent(h, e)) != [] ==> h'.cancelAccepts > 0)
  {
    SentSplits(h, e);
    StepKeepsInv(h, e);
    AtMostOne(Verdicts(h.emitted), Verdicts(Sent(h, e)));
  }

  /** A sent message says what is true of the handle afterwards, and verdicts are never taken back. */
  lemma SentIsTrue(h: Handle, e: Event)
    requires Inv(h)
    ensures var h' := Step(h, e);
            && FromRemote(h.gid, Sent(h, e))
            && (Verdicts(h.emitted) != [] ==> Verdicts(h'.emitted) == Verdicts(h.emitted))
            && (forall m <- Sent(h, e) ::
                  && (IsVerdict(m.op) ==> Verdicts(h'.emitted) == [m.op])
                  && (m.op.CancelAccept? ==> h'.cancelAccepts > 0))
  {
    SentVerdict(h, e);
    SentIsEmitted(h, e);
    if Sent(h, e) != [] {
      var m := Sent(h, e)[0];
      assert Sent(h, e) == [m];
      GatherOne(VerdictIn, m);
      GatherOne(AcceptIn, m);
      assert Step(h, e).emitted[|h.emitted|] == m;
    }
  }
}
