/**
 * The calls made on an accepted goal, as a function of the messages that
 * arrived for it.
 */
module GoalTrace {
  import opened Types
  import opened Sequences

  /** A call of the plugin's goal handle. */
  datatype Call = SendFeedback(data: Bytes) | Succeed(data: Bytes) | Cancel(data: Bytes) | Abort(data: Bytes) {
    predicate IsTerminal() {
      !SendFeedback?
    }
  }

  // ---------- the reference ----------

  /** The position of the first result; the length if there is none. */
  function FirstResult(ms: seq<Message>): (k: nat)
    ensures k <= |ms|
    ensures forall i :: 0 <= i < k ==> !ms[i].op.IsResult()
    ensures k < |ms| ==> ms[k].op.IsResult()
  {
    if ms == [] || ms[0].op.IsResult() then 0 else 1 + FirstResult(ms[1..])
  }

  function FeedbackOf(m: Message): seq<Call> {
    if m.op.Feedback? && m.content.Some? then [SendFeedback(m.content.value)] else []
  }

  /** The op-code chooses the terminal call; an undecodable result aborts with no data. */
  function TerminalOf(m: Message): (c: Call)
    requires m.op.IsResult()
    ensures c.IsTerminal()
  {
    match m.content
    case None => Abort([])
    case Some(data) =>
      if m.op.ResultSucceeded? then Succeed(data)
      else if m.op.ResultCanceled? then Cancel(data)
      else Abort(data)
  }

  /** The decodable feedback before the first result, then that result's terminal call, then nothing. */
  function Trace(ms: seq<Message>): seq<Call> {
    var k := FirstResult(ms);
    Gather(FeedbackOf, ms[..k]) + if k < |ms| then [TerminalOf(ms[k])] else []
  }

  predicate HasResult(ms: seq<Message>) {
    exists i :: 0 <= i < |ms| && ms[i].op.IsResult()
  }

  lemma {:induction false} FeedbackIsNotTerminal(ms: seq<Message>)
    ensures forall c <- Gather(FeedbackOf, ms) :: !c.IsTerminal()
  {
    if ms != [] { FeedbackIsNotTerminal(ms[1..]); }
  }

  /** At most one terminal call, only as the last one, and exactly one when a result arrived. */
  lemma AtMostOneTerminal(ms: seq<Message>)
    ensures var t := Trace(ms);
            && (forall i :: 0 <= i < |t| - 1 ==> !t[i].IsTerminal())
            && ((exists i :: 0 <= i < |t| && t[i].IsTerminal()) <==> HasResult(ms))
  {
    var k := FirstResult(ms);
    FeedbackIsNotTerminal(ms[..k]);
    var g := Gather(FeedbackOf, ms[..k]);
    assert forall i :: 0 <= i < |g| ==> g[i] in g;
    if k < |ms| { assert Trace(ms)[|g|].IsTerminal(); }
  }

  // ---------- one iteration of the loop ----------

  /** What the body of executeAccepted calls for one message, and whether it returns. */
  function Reaction(m: Message): (r: (seq<Call>, bool))
    ensures r.1 <==> m.op.IsResult()
  {
    match m.content
    case None => if m.op.IsResult() then ([Abort([])], true) else ([], false)
    case Some(data) =>
      match m.op
      case Feedback => ([SendFeedback(data)], false)
      case ResultSucceeded => ([Succeed(data)], true)
      case ResultCanceled => ([Cancel(data)], true)
      case ResultAborted => ([Abort(data)], true)
      case ResultUnknown => ([Abort(data)], true)
      case _ => ([], false)
  }

  /** The two switches of executeAccepted: the calls made for a message, and whether the loop returns. */
  method React(message: Message) returns (made: seq<Call>, ends: bool)
    ensures (made, ends) == Reaction(message)
  {
    if message.content.None? {
      match message.op
      case Feedback => return [], false;
      case ResultSucceeded => return [Abort([])], true;
      case ResultCanceled => return [Abort([])], true;
      case ResultAborted => return [Abort([])], true;
      case ResultUnknown => return [Abort([])], true;
      case _ => return [], false;
    }
    var data := message.content.value;
    match message.op
    case Feedback => return [SendFeedback(data)], false;
    case ResultSucceeded => return [Succeed(data)], true;
    case ResultCanceled => return [Cancel(data)], true;
    case ResultAborted => return [Abort(data)], true;
    case ResultUnknown => return [Abort(data)], true;
    case _ => return [], false;
  }

  lemma {:induction false} FirstResultSnoc(ms: seq<Message>, m: Message)
    ensures FirstResult(ms + [m])
         == if FirstResult(ms) < |ms| then FirstResult(ms) else if m.op.IsResult() then |ms| else |ms| + 1
  {
    if ms != [] && !ms[0].op.IsResult() {
      FirstResultSnoc(ms[1..], m);
      assert (ms + [m])[1..] == ms[1..] + [m];
    }
  }

  lemma ReactionIsReference(m: Message)
    ensures Reaction(m).0 == if m.op.IsResult() then [TerminalOf(m)] else FeedbackOf(m)
  {
  }

  lemma HasResultSnoc(ms: seq<Message>, m: Message)
    ensures HasResult(ms + [m]) <==> HasResult(ms) || m.op.IsResult()
  {
    if HasResult(ms) {
      var i :| 0 <= i < |ms| && ms[i].op.IsResult();
      assert (ms + [m])[i].op.IsResult();
    }
    assert (ms + [m])[|ms|] == m;
  }

  /** Processing one more message extends the trace by the loop's reaction to it. */
  lemma TraceSnoc(ms: seq<Message>, m: Message)
    requires !HasResult(ms)
    ensures Trace(ms + [m]) == Trace(ms) + Reaction(m).0
    ensures HasResult(ms + [m]) <==> Reaction(m).1
  {
    HasResultSnoc(ms, m);
    ReactionIsReference(m);
    FirstResultSnoc(ms, m);
    NoResultTrace(ms);
    if m.op.IsResult() {
      assert (ms + [m])[..|ms|] == ms;
    } else {
      NoResultTrace(ms + [m]);
      GatherSnoc(FeedbackOf, ms, m);
    }
  }

  lemma NoResultTrace(ms: seq<Message>)
    requires FirstResult(ms) == |ms|
    ensures Trace(ms) == Gather(FeedbackOf, ms)
  {
    assert ms[..|ms|] == ms;
  }

  /** Messages after the first result change nothing. */
  lemma {:induction false} TraceStops(ms: seq<Message>, more: seq<Message>)
    requires HasResult(ms)
    ensures Trace(ms + more) == Trace(ms)
  {
    FirstResultStops(ms, more);
    var k := FirstResult(ms);
    assert (ms + more)[..k] == ms[..k] && (ms + more)[k] == ms[k];
  }

  lemma {:induction false} FirstResultStops(ms: seq<Message>, more: seq<Message>)
    requires HasResult(ms)
    ensures FirstResult(ms + more) == FirstResult(ms) < |ms|
  {
    if !ms[0].op.IsResult() {
      var i :| 0 <= i < |ms| && ms[i].op.IsResult();
      assert ms[1..][i - 1].op.IsResult();
      FirstResultStops(ms[1..], more);
      assert (ms + more)[1..] == ms[1..] + more;
    }
  }

  // ---------- the loop ----------

  /** What the environment does around one iteration: stop before the loop head, deliver, or stop during the wait. */
  datatype Turn = Turn(stopBefore: bool, arrivals: seq<Message>, stopWhileWaiting: bool)

  datatype Exit = StillWaiting | Finished | StoppedAtLoopHead | StoppedWhileWaiting

  function Arrivals(turns: seq<Turn>): seq<Message> {
    Gather((t: Turn) => t.arrivals, turns)
  }

  /** One accepted goal: the fields of its handle that the loop uses, and the calls on its goal handle. */
  class AcceptedGoal {
    var waitQueue: seq<Message>
    var handlingWait: bool
    var done: bool
    var removals: nat       // how often the handle was given to removeHandle
    var calls: seq<Call>
    ghost var arrived: seq<Message>
    ghost var consumed: seq<Message>

    /** While the loop runs: the calls so far are the trace of the messages consumed so far. */
    ghost predicate Running()
      reads this
    {
      && consumed + waitQueue == arrived && !HasResult(consumed) && calls == Trace(consumed)
      && !done && handlingWait && removals == 0
    }

    /** `queued` arrived before the goal was accepted. */
    constructor (queued: seq<Message>)
      ensures Running() && arrived == queued
    {
      waitQueue, handlingWait, done, removals, calls := queued, true, false, 0, [];
      arrived, consumed := queued, [];
    }

    /** handle() pushes feedback and results under the wait mutex. */
    method Arrive(messages: seq<Message>)
      modifies this`waitQueue, this`arrived
      ensures waitQueue == old(waitQueue) + messages && arrived == old(arrived) + messages
      ensures old(Running()) ==> Running()
    {
      assert consumed + (waitQueue + messages) == (consumed + waitQueue) + messages;
      waitQueue := waitQueue + messages;
      arrived := arrived + messages;
    }

    /** Takes one message and reacts to it; true when the loop returns. */
    method Process() returns (finished: bool)
      requires Running() && waitQueue != []
      modifies this
      ensures arrived == old(arrived) && consumed + waitQueue == arrived
      ensures consumed == old(consumed) + [old(waitQueue)[0]]
      ensures !finished ==> Running()
      ensures finished ==> HasResult(consumed) && calls == Trace(consumed) == Trace(arrived)
      ensures finished ==> done && !handlingWait && removals == 1
    {
      var message := waitQueue[0];
      assert consumed + waitQueue == consumed + [message] + waitQueue[1..];
      waitQueue := waitQueue[1..];
      TraceSnoc(consumed, message);
      consumed := consumed + [message];
      var made, ends := React(message);
      calls := calls + made;
      finished := ends;
      if finished {
        TraceStops(consumed, waitQueue);
        done, handlingWait, removals := true, false, 1;
      }
    }

    /** Stopped during the wait: abort with no data if ROS still runs. */
    method StopWaiting(rosOk: bool)
      requires Running()
      modifies this`handlingWait, this`removals, this`calls
      ensures calls == Trace(consumed) + if rosOk then [Abort([])] else []
      ensures removals == 1 && !handlingWait
    {
      handlingWait, removals := false, removals + 1;
      if rosOk { calls := calls + [Abort([])]; }
    }

    /**
     * The loop of executeAccepted under any environment, given turn by turn;
     * when the turns run out the thread is still waiting. Whatever the
     * interleaving, the calls are the trace of what arrived, one abort is added
     * when stopped while waiting, and none when stopped at the loop head.
     */
    method ExecuteAccepted(turns: seq<Turn>, rosOk: bool) returns (exit: Exit, used: nat)
      requires Running()
      modifies this
      ensures used <= |turns| && arrived == old(arrived) + Arrivals(turns[..used])
      ensures consumed + waitQueue == arrived && (HasResult(consumed) <==> exit.Finished?)
      ensures exit == StillWaiting ==> used == |turns| && Running()
      ensures exit == Finished ==> calls == Trace(arrived) && HasResult(arrived)
      ensures exit == StoppedAtLoopHead ==> calls == Trace(consumed)
      ensures exit == StoppedWhileWaiting ==> calls == Trace(consumed) + (if rosOk then [Abort([])] else [])
      ensures removals == if exit == Finished || exit == StoppedWhileWaiting then 1 else 0
      ensures OnlyLastIsTerminal(calls)
      ensures Concluded(calls) <==> exit == Finished || (exit == StoppedWhileWaiting && rosOk)
    {
      used := 0;
      assert Arrivals(turns[..0]) == [];
      while used < |turns|
        invariant used <= |turns| && Running()
        invariant arrived == old(arrived) + Arrivals(turns[..used])
      {
        var turn := turns[used];
        if turn.stopBefore {
          TerminalCalls(consumed, false);
          assert calls == Trace(consumed) + [];
          return StoppedAtLoopHead, used;
        }
        ArrivalsSnoc(turns, used);
        Arrive(turn.arrivals);
        used := used + 1;
        if turn.stopWhileWaiting {
          TerminalCalls(consumed, rosOk);
          StopWaiting(rosOk);
          return StoppedWhileWaiting, used;
        }
        if waitQueue == [] { continue; }
        var finished := Process();
        if finished {
          HasResultGrows(consumed, waitQueue);
          TerminalCalls(consumed, false);
          assert calls == Trace(consumed) + [];
          return Finished, used;
        }
      }
      TerminalCalls(consumed, false);
      assert calls == Trace(consumed) + [];
      exit := StillWaiting;
    }
  }

  lemma HasResultGrows(ms: seq<Message>, more: seq<Message>)
    requires HasResult(ms)
    ensures HasResult(ms + more)
  {
    var i :| 0 <= i < |ms| && ms[i].op.IsResult();
    assert (ms + more)[i].op.IsResult();
  }

  lemma ArrivalsSnoc(turns: seq<Turn>, i: nat)
    requires i < |turns|
    ensures Arrivals(turns[..i + 1]) == Arrivals(turns[..i]) + turns[i].arrivals
  {
    assert turns[..i + 1] == turns[..i] + [turns[i]];
    GatherSnoc((t: Turn) => t.arrivals, turns[..i], turns[i]);
  }

  /** Some call is terminal: the last one, and no other. */
  predicate Concluded(calls: seq<Call>) {
    calls != [] && calls[|calls| - 1].IsTerminal()
  }

  predicate OnlyLastIsTerminal(calls: seq<Call>) {
    forall i :: 0 <= i < |calls| - 1 ==> !calls[i].IsTerminal()
  }

  /** A trace, followed by an abort if the loop was stopped while waiting, has at most one terminal call. */
  lemma TerminalCalls(consumed: seq<Message>, aborted: bool)
    requires aborted ==> !HasResult(consumed)
    ensures var calls := Trace(consumed) + if aborted then [Abort([])] else [];
            OnlyLastIsTerminal(calls) && (Concluded(calls) <==> HasResult(consumed) || aborted)
  {
    var t := Trace(consumed);
    AtMostOneTerminal(consumed);
    if !HasResult(consumed) { assert forall i :: 0 <= i < |t| ==> !t[i].IsTerminal(); }
  }
}
