/**
 * The remote side of a service: one thread per request, which replies with an
 * error or hands the request to the local service, whose callback replies.
 */
module ServiceClient {
  import opened Types

  /** executeHandle: whether a request gets an error reply; `throws` is asyncSendRequest failing on the data. */
  predicate Refused(limits: Limits, m: Message, available: bool, throws: bool) {
    m.content.None? || !Fits(limits, m.content.value) || !available || throws
  }

  // ---------- all requests, step by step ----------

  /** What the plugin configures: the sizes it expects and its error reply. */
  datatype Setup = Setup(limits: Limits, error: Bytes)

  datatype Stage = Duplicate | Checking | Pending | Left

  /** The plugin's callback: it runs at most once, and only after asyncSendRequest returned normally. */
  datatype Callback = NotAsked | Due | Sent | Finished

  /** A received SERVICE_TO_CLIENT and its thread, if it got one. */
  datatype Request = Request(
    message: Message, stage: Stage, callback: Callback, done: bool, cancels: nat, cancelled: bool)

  /** A reply with the index of the request it answers. */
  datatype Reply = Reply(id: nat, message: Message)

  /** `table` and the removal queue name requests by their position. `removing` is popped but not yet erased. */
  datatype ClientState = ClientState(
    requests: seq<Request>, table: map<Bytes, nat>, toRemove: seq<nat>, removing: Option<nat>, replies: seq<Reply>)

  const Initial := ClientState([], map[], [], None, [])

  datatype Event =
    | Arrive(message: Message)
    | CancelArrives(gid: Bytes)
    | Examine(id: nat, available: bool, throws: bool)
    | CallbackSends(id: nat, data: Bytes)
    | CallbackEnds(id: nat)
    | Wake(id: nat)
    | PopRemoval
    | EraseRemoved

  predicate Enabled(s: ClientState, e: Event) {
    match e
    case Arrive(m) => m.op.ServiceToClient?
    case CancelArrives(gid) => gid in s.table && s.table[gid] < |s.requests|
    case Examine(id, _, _) => id < |s.requests| && s.requests[id].stage.Checking?
    case CallbackSends(id, _) => id < |s.requests| && s.requests[id].callback.Due?
    case CallbackEnds(id) => id < |s.requests| && s.requests[id].callback.Sent?
    case Wake(id) =>
      id < |s.requests| && s.requests[id].stage.Pending? && (s.requests[id].done || s.requests[id].cancels > 0)
    case PopRemoval => s.removing.None? && s.toRemove != []
    case EraseRemoved => s.removing.Some? && s.removing.value < |s.requests|
  }

  function Put(s: ClientState, id: nat, r: Request): ClientState
    requires id < |s.requests|
  {
    s.(requests := s.requests[id := r])
  }

  function ReplyTo(id: nat, gid: Bytes, data: Bytes): Reply {
    Reply(id, Message(ServiceToServer, gid, Some(data)))
  }

  function Answer(s: ClientState, id: nat, data: Bytes): ClientState
    requires id < |s.requests|
  {
    s.(replies := s.replies + [ReplyTo(id, s.requests[id].message.gid, data)])
  }

  function Opening(m: Message, known: bool): Request {
    Request(m, if known then Duplicate else Checking, NotAsked, false, 0, false)
  }

  function Step(setup: Setup, s: ClientState, e: Event): ClientState {
    if !Enabled(s, e) then s
    else match e
      case Arrive(m) =>
        var known := m.gid in s.table;
        var s' := s.(requests := s.requests + [Opening(m, known)]);
        if known then Answer(s', |s.requests|, setup.error) else s'.(table := s.table[m.gid := |s.requests|])
      case CancelArrives(gid) =>
        var id := s.table[gid];
        Put(s, id, s.requests[id].(cancels := s.requests[id].cancels + 1))
      case Examine(id, available, throws) =>
        var r := s.requests[id];
        if Refused(setup.limits, r.message, available, throws) then
          Answer(Put(s, id, r.(stage := Left)).(toRemove := s.toRemove + [id]), id, setup.error)
        else Put(s, id, r.(stage := Pending, callback := Due))
      case CallbackSends(id, data) => Answer(Put(s, id, s.requests[id].(callback := Sent)), id, data)
      case CallbackEnds(id) => Put(s, id, s.requests[id].(callback := Finished, done := true))
      case Wake(id) =>
        var r := s.requests[id];
        Put(s, id, r.(stage := Left, done := true, cancelled := !r.done)).(toRemove := s.toRemove + [id])
      case PopRemoval => s.(removing := Some(s.toRemove[0]), toRemove := s.toRemove[1..])
      case EraseRemoved => s.(table := s.table - {s.requests[s.removing.value].message.gid}, removing := None)
  }

  function Run(setup: Setup, es: seq<Event>): ClientState
    decreases |es|
  {
    if es == [] then Initial else Step(setup, Run(setup, es[..|es| - 1]), es[|es| - 1])
  }

  /** The removal thread from one wait to the next. */
  function Drained(setup: Setup, s: ClientState): ClientState
    decreases |s.toRemove|
  {
    if s.toRemove == [] || s.removing.Some? then s
    else
      var popped := Step(setup, s, PopRemoval);
      if popped.removing.value < |s.requests| then Drained(setup, Step(setup, popped, EraseRemoved)) else popped
  }

  // ---------- the object ----------

  /** `id` is the request's position among all requests; the ghost fields say where its thread and callback stand. */
  class ServiceActionHandle {
    const gID: Bytes
    var waitQueue: seq<Message>
    var done: bool
    ghost const id: nat
    ghost const request: Message
    ghost var stage: Stage
    ghost var callback: Callback
    ghost var cancelled: bool

    constructor (gID: Bytes, ghost id: nat, ghost request: Message)
      requires request.gid == gID
      ensures this.gID == gID && this.id == id && this.request == request && Abs() == Opening(request, false)
    {
      this.gID, this.id, this.request := gID, id, request;
      waitQueue, done, stage, callback, cancelled := [], false, Checking, NotAsked, false;
    }

    ghost function Abs(): Request
      reads this
    {
      Request(request, stage, callback, done, |waitQueue|, cancelled)
    }
  }

  /** A request has a thread unless its gid was known. */
  datatype Task = Thread(handle: ServiceActionHandle) | Refusal(message: Message)

  /** Every method performs the step of the same name on the state it stands for. */
  class Client {
    var handles: map<Bytes, ServiceActionHandle>
    var toRemove: seq<ServiceActionHandle>
    var sent: seq<Message>
    var requests: seq<Bytes>     // asyncSendRequest of the plugin
    var cancelled: seq<int>      // cancel of the plugin, by request id
    const error: Bytes
    const limits: Limits
    ghost var removing: Option<ServiceActionHandle>
    ghost var tasks: seq<Task>   // every request received
    ghost var replies: seq<Reply>

    ghost predicate Tracked(h: ServiceActionHandle)
      reads this
    {
      h.id < |tasks| && tasks[h.id] == Thread(h) && h.request.gid == h.gID
    }

    ghost predicate Valid()
      reads this
    {
      && (forall i :: 0 <= i < |tasks| && tasks[i].Thread? ==> tasks[i].handle.id == i)
      && (forall gid <- handles :: Tracked(handles[gid]))
      && (forall i :: 0 <= i < |toRemove| ==> Tracked(toRemove[i]))
      && (removing.Some? ==> Tracked(removing.value))
      && |sent| == |replies| && (forall i :: 0 <= i < |sent| ==> sent[i] == replies[i].message)
    }

    ghost function Threads(): set<object>
      reads this
    {
      set i | 0 <= i < |tasks| && tasks[i].Thread? :: tasks[i].handle as object
    }

    ghost function TaskAt(i: nat): Request
      requires i < |tasks|
      reads this, Threads()
    {
      match tasks[i]
      case Thread(h) => h.Abs()
      case Refusal(m) => Opening(m, true)
    }

    ghost function State(): ClientState
      reads this, Threads()
    {
      ClientState(
        seq(|tasks|, i requires 0 <= i < |tasks| reads this, Threads() => TaskAt(i)),
        map gid | gid in handles :: handles[gid].id,
        seq(|toRemove|, i requires 0 <= i < |toRemove| reads this => toRemove[i].id),
        if removing.None? then None else Some(removing.value.id),
        replies)
    }

    ghost function Configured(): Setup {
      Setup(limits, error)
    }

    constructor (limits: Limits, error: Bytes)
      ensures Valid() && State() == Initial && Configured() == Setup(limits, error)
      ensures requests == [] && cancelled == []
    {
      handles, toRemove, sent, requests, cancelled := map[], [], [], [], [];
      removing, tasks, replies := None, [], [];
      this.limits, this.error := limits, error;
    }

    /** A SERVICE_TO_SERVER message, recorded with the request it answers. */
    method Send(gid: Bytes, data: Bytes, ghost id: nat)
      requires Valid()
      modifies this`sent, this`replies
      ensures Valid() && State() == old(State()).(replies := old(State()).replies + [ReplyTo(id, gid, data)])
    {
      sent := sent + [Message(ServiceToServer, gid, Some(data))];
      replies := replies + [ReplyTo(id, gid, data)];
    }

    /** handle() of a request: a known gid is answered with the error, a new one gets a handle. */
    method HandleRequest(message: Message) returns (started: Option<ServiceActionHandle>)
      requires Valid() && message.op.ServiceToClient?
      modifies this`handles, this`tasks, this`sent, this`replies
      ensures Valid() && State() == Step(Configured(), old(State()), Arrive(message))
      ensures started.Some? <==> message.gid !in old(handles)
      ensures started.Some? ==> fresh(started.value) && Tracked(started.value) && started.value.request == message
    {
      if message.gid in handles {
        Note(message);
        Send(message.gid, error, |tasks| - 1);
        return None;
      }
      var handle := Spawn(message);
      File(handle);
      started := Some(handle);
    }

    method File(handle: ServiceActionHandle)
      requires Valid() && Tracked(handle)
      modifies this`handles
      ensures Valid() && State() == old(State()).(table := old(State()).table[handle.gID := handle.id])
    {
      handles := handles[handle.gID := handle];
    }

    /** Records a request that gets no thread. */
    ghost method Note(message: Message)
      requires Valid()
      modifies this`tasks
      ensures Valid() && tasks == old(tasks) + [Refusal(message)]
      ensures State() == old(State()).(requests := old(State()).requests + [Opening(message, true)])
    {
      tasks := tasks + [Refusal(message)];
      assert State().requests == old(State()).requests + [Opening(message, true)];
    }

    method Spawn(message: Message) returns (handle: ServiceActionHandle)
      requires Valid()
      modifies this`tasks
      ensures Valid() && fresh(handle) && Tracked(handle) && handle.request == message && handle.id == |old(tasks)|
      ensures State() == old(State()).(requests := old(State()).requests + [Opening(message, false)])
    {
      handle := new ServiceActionHandle(message.gid, |tasks|, message);
      tasks := tasks + [Thread(handle)];
      assert State().requests == old(State()).requests + [Opening(message, false)];
    }

    /** handle() of a cancel: it joins the queue of a known handle. */
    method HandleCancel(message: Message)
      requires Valid() && message.op.ServiceToClientCancel?
      modifies if message.gid in handles then {handles[message.gid]} else {}
      ensures Valid() && State() == Step(Configured(), old(State()), CancelArrives(message.gid))
    {
      if message.gid !in handles { return; }
      var it := handles[message.gid];
      it.waitQueue := it.waitQueue + [message];
    }

    /** executeHandle up to the wait. */
    method ExecuteHandle(message: Message, handle: ServiceActionHandle, available: bool, throws: bool)
      returns (waits: bool)
      requires Valid() && Tracked(handle) && handle.stage.Checking? && message == handle.request
      modifies this`sent, this`replies, this`toRemove, this`requests, handle`stage, handle`callback
      ensures Valid() && State() == Step(Configured(), old(State()), Examine(handle.id, available, throws))
      ensures waits <==> message.content.Some? && available && !throws
                         && (limits.dynamicSize || |message.content.value| == limits.expectedSize)
      ensures requests == old(requests) + if waits then [message.content.value] else []
    {
      waits := false;
      if message.content.None? {
        Reject(message, handle);
        return;
      }
      if !limits.dynamicSize && |message.content.value| != limits.expectedSize {
        Reject(message, handle);
        return;
      }
      if !available {
        Reject(message, handle);
        return;
      }
      if throws {
        Reject(message, handle);
        return;
      }
      PassOn(message.content.value, handle);
      waits := true;
    }

    /** asyncSendRequest returned normally: from now on the callback may run. */
    method PassOn(data: Bytes, handle: ServiceActionHandle)
      requires Valid() && Tracked(handle)
      modifies this`requests, handle`stage, handle`callback
      ensures Valid() && requests == old(requests) + [data]
      ensures var s := old(State());
              State() == Put(s, handle.id, s.requests[handle.id].(stage := Pending, callback := Due))
    {
      requests := requests + [data];
      handle.stage, handle.callback := Pending, Due;
    }

    method Reject(message: Message, handle: ServiceActionHandle)
      requires Valid() && Tracked(handle) && message == handle.request
      modifies this`sent, this`replies, this`toRemove, handle`stage
      ensures Valid() && requests == old(requests)
      ensures var s := old(State());
              var left := Put(s, handle.id, s.requests[handle.id].(stage := Left));
              State() == Answer(left.(toRemove := s.toRemove + [handle.id]), handle.id, error)
    {
      Send(message.gid, error, handle.id);
      handle.stage := Left;
      toRemove := toRemove + [handle];
    }

    /** executeHandle from the end of the wait on. */
    method Leave(handle: ServiceActionHandle, requestId: int)
      requires Valid() && Tracked(handle) && handle.stage.Pending? && (handle.waitQueue != [] || handle.done)
      modifies this`toRemove, this`cancelled, handle
      ensures Valid() && State() == Step(Configured(), old(State()), Wake(handle.id))
      ensures cancelled == old(cancelled) + if old(handle.done) then [] else [requestId]
    {
      ghost var before := State();
      if handle.done {
        toRemove := toRemove + [handle];
        handle.stage, handle.cancelled := Left, false;
      } else {
        cancelled := cancelled + [requestId];
        handle.done := true;
        toRemove := toRemove + [handle];
        handle.stage, handle.cancelled := Left, true;
      }
      ghost var r := before.requests[handle.id];
      assert State().requests == before.requests[handle.id := r.(stage := Left, done := true, cancelled := !r.done)];
    }

    /** sendAndDone, access by access. */
    method SendAndDone(data: Bytes, handle: ServiceActionHandle)
      requires Valid() && Tracked(handle) && handle.callback.Due?
      modifies this`sent, this`replies, handle
      ensures Valid()
      ensures var replied := Step(Configured(), old(State()), CallbackSends(handle.id, data));
              State() == Step(Configured(), replied, CallbackEnds(handle.id))
    {
      SendReply(data, handle);
      MarkDone(handle);
    }

    method SendReply(data: Bytes, handle: ServiceActionHandle)
      requires Valid() && Tracked(handle) && handle.callback.Due?
      modifies this`sent, this`replies, handle`callback
      ensures Valid() && handle.callback.Sent?
      ensures State() == Step(Configured(), old(State()), CallbackSends(handle.id, data))
    {
      Send(handle.gID, data, handle.id);
      handle.callback := Sent;
    }

    method MarkDone(handle: ServiceActionHandle)
      requires Valid() && Tracked(handle) && handle.callback.Sent?
      modifies handle`callback, handle`done
      ensures Valid() && State() == Step(Configured(), old(State()), CallbackEnds(handle.id))
    {
      handle.done := true;
      handle.callback := Finished;
    }

    /** The removal thread, until it would block. */
    method ExecuteRemove()
      requires Valid() && removing.None?
      modifies this`toRemove, this`handles, this`removing
      ensures Valid() && removing.None? && State() == Drained(Configured(), old(State()))
    {
      while toRemove != []
        invariant Valid() && removing.None?
        invariant Drained(Configured(), State()) == Drained(Configured(), old(State()))
        decreases |toRemove|
      {
        ghost var before := State();
        var handle := Pop();
        Erase(handle);
        assert State() == Step(Configured(), Step(Configured(), before, PopRemoval), EraseRemoved);
      }
    }

    method Pop() returns (handle: ServiceActionHandle)
      requires Valid() && removing.None? && toRemove != []
      modifies this`toRemove, this`removing
      ensures Valid() && removing == Some(handle) && |toRemove| == |old(toRemove)| - 1
      ensures State() == Step(Configured(), old(State()), PopRemoval)
    {
      handle := toRemove[0];
      toRemove, removing := toRemove[1..], Some(handle);
    }

    method Erase(handle: ServiceActionHandle)
      requires Valid() && removing == Some(handle)
      modifies this`handles, this`removing
      ensures Valid() && removing.None? && toRemove == old(toRemove)
      ensures State() == Step(Configured(), old(State()), EraseRemoved)
    {
      handles, removing := handles - {handle.gID}, None;
    }
  }

  // ---------- one reply per request ----------

  /** No reply has been sent for this request. */
  predicate Open(r: Request) {
    r.stage.Checking? || r.callback.Due?
  }

  predicate RequestInv(r: Request) {
    && r.message.op.ServiceToClient?
    && (r.stage.Checking? || r.stage.Duplicate? ==> r.callback.NotAsked? && !r.done && !r.cancelled)
    && (r.stage.Pending? ==> !r.callback.NotAsked? && !r.cancelled && (r.done ==> r.callback.Finished?))
    && (r.callback.Due? && r.stage.Left? ==> r.cancelled)
  }

  predicate ReplyInv(s: ClientState, k: nat)
    requires k < |s.replies|
  {
    var y := s.replies[k];
    && y.id < |s.requests| && !Open(s.requests[y.id])
    && y.message.op.ServiceToServer? && y.message.gid == s.requests[y.id].message.gid
  }

  predicate Answered(s: ClientState, id: nat) {
    exists k :: 0 <= k < |s.replies| && s.replies[k].id == id
  }

  predicate Inv(s: ClientState) {
    && (forall id: nat :: id < |s.requests| ==> RequestInv(s.requests[id]) && (Open(s.requests[id]) || Answered(s, id)))
    && (forall k: nat :: k < |s.replies| ==> ReplyInv(s, k))
    && (forall j, k :: 0 <= j < k < |s.replies| ==> s.replies[j].id != s.replies[k].id)
    && (forall gid <- s.table :: s.table[gid] < |s.requests|)
  }

  lemma UpdateKeepsInv(s: ClientState, id: nat, r: Request)
    requires Inv(s) && id < |s.requests|
    requires RequestInv(r) && r.message == s.requests[id].message && (Open(r) <==> Open(s.requests[id]))
    ensures Inv(Put(s, id, r))
  {
    var s' := Put(s, id, r);
    forall i: nat | i < |s'.requests| ensures RequestInv(s'.requests[i]) && (Open(s'.requests[i]) || Answered(s', i)) {
      assert Answered(s, i) ==> Answered(s', i);
    }
    forall k: nat | k < |s'.replies| ensures ReplyInv(s', k) { assert ReplyInv(s, k); }
  }

  lemma AnswerKeepsInv(s: ClientState, id: nat, r: Request, data: Bytes)
    requires Inv(s) && id < |s.requests| && Open(s.requests[id])
    requires RequestInv(r) && r.message == s.requests[id].message && !Open(r)
    ensures Inv(Answer(Put(s, id, r), id, data))
  {
    var s' := Answer(Put(s, id, r), id, data);
    forall k: nat | k < |s'.replies| ensures ReplyInv(s', k) {
      if k < |s.replies| { assert ReplyInv(s, k); }
    }
    assert s'.replies[|s.replies|].id == id;
    forall i: nat | i < |s'.requests| ensures RequestInv(s'.requests[i]) && (Open(s'.requests[i]) || Answered(s', i)) {
      if i != id && Answered(s, i) { AnsweredStays(s, s', i); }
    }
    forall k: nat | k < |s.replies| ensures s'.replies[k].id != id { assert ReplyInv(s, k); }
  }

  lemma AnsweredStays(s: ClientState, s': ClientState, id: nat)
    requires Answered(s, id) && s.replies <= s'.replies
    ensures Answered(s', id)
  {
    var k :| 0 <= k < |s.replies| && s.replies[k].id == id;
    assert s'.replies[k].id == id;
  }

  lemma ArriveKeepsInv(s: ClientState, m: Message, setup: Setup)
    requires Inv(s) && m.op.ServiceToClient?
    ensures Inv(Step(setup, s, Arrive(m)))
  {
    var s' := Step(setup, s, Arrive(m));
    forall k: nat | k < |s'.replies| ensures ReplyInv(s', k) {
      if k < |s.replies| { assert ReplyInv(s, k); }
    }
    if m.gid in s.table { assert s'.replies[|s.replies|].id == |s.requests|; }
    forall i: nat | i < |s'.requests| ensures RequestInv(s'.requests[i]) && (Open(s'.requests[i]) || Answered(s', i)) {
      if i < |s.requests| && Answered(s, i) { AnsweredStays(s, s', i); }
    }
    forall k: nat | k < |s.replies| ensures s'.replies[k].id < |s.requests| { assert ReplyInv(s, k); }
  }

  /** The table and the removal queue say nothing about replies. */
  lemma TablesKeepInv(s: ClientState, table: map<Bytes, nat>, toRemove: seq<nat>, removing: Option<nat>)
    requires Inv(s) && forall gid <- table :: table[gid] < |s.requests|
    ensures Inv(s.(table := table, toRemove := toRemove, removing := removing))
  {
    var s' := s.(table := table, toRemove := toRemove, removing := removing);
    forall i: nat | i < |s'.requests| ensures Open(s'.requests[i]) || Answered(s', i) {
      if Answered(s, i) { AnsweredStays(s, s', i); }
    }
    forall k: nat | k < |s'.replies| ensures ReplyInv(s', k) { assert ReplyInv(s, k); }
  }

  lemma ThreadKeepsInv(s: ClientState, e: Event, setup: Setup)
    requires Inv(s) && Enabled(s, e) && (e.Examine? || e.Wake?)
    ensures Inv(Step(setup, s, e))
  {
    var id, s' := e.id, Step(setup, s, e);
    if e.Examine? && Refused(setup.limits, s.requests[id].message, e.available, e.throws) {
      AnswerKeepsInv(s, id, s'.requests[id], setup.error);
      TablesKeepInv(Answer(Put(s, id, s'.requests[id]), id, setup.error), s.table, s'.toRemove, s.removing);
    } else {
      UpdateKeepsInv(s, id, s'.requests[id]);
      TablesKeepInv(Put(s, id, s'.requests[id]), s.table, s'.toRemove, s.removing);
    }
  }

  lemma StepKeepsInv(s: ClientState, e: Event, setup: Setup)
    requires Inv(s)
    ensures Inv(Step(setup, s, e))
  {
    if Enabled(s, e) {
      var s' := Step(setup, s, e);
      match e
      case Arrive(m) => ArriveKeepsInv(s, m, setup);
      case CancelArrives(gid) => UpdateKeepsInv(s, s.table[gid], s'.requests[s.table[gid]]);
      case Examine(_, _, _) => ThreadKeepsInv(s, e, setup);
      case CallbackSends(id, data) => AnswerKeepsInv(s, id, s'.requests[id], data);
      case CallbackEnds(id) => UpdateKeepsInv(s, id, s'.requests[id]);
      case Wake(_) => ThreadKeepsInv(s, e, setup);
      case _ => TablesKeepInv(s, s'.table, s'.toRemove, s'.removing);
    }
  }

  lemma {:induction false} RunInv(setup: Setup, es: seq<Event>)
    ensures Inv(Run(setup, es))
    decreases |es|
  {
    if es != [] {
      RunInv(setup, es[..|es| - 1]);
      StepKeepsInv(Run(setup, es[..|es| - 1]), es[|es| - 1], setup);
    }
  }

  lemma {:induction false} Pigeonhole(xs: seq<nat>, n: nat)
    requires forall i :: 0 <= i < |xs| ==> xs[i] < n
    requires forall i, j :: 0 <= i < j < |xs| ==> xs[i] != xs[j]
    ensures |xs| <= n
  {
    if xs != [] {
      assert 0 <= xs[0] < n;
      if n - 1 in xs {
        var k :| 0 <= k < |xs| && xs[k] == n - 1;
        var rest := xs[..k] + xs[k + 1..];
        forall i | 0 <= i < |rest| ensures rest[i] < n - 1 { assert rest[i] == xs[if i < k then i else i + 1]; }
        Pigeonhole(rest, n - 1);
      } else {
        forall i | 0 <= i < |xs| ensures xs[i] < n - 1 { assert xs[i] in xs; }
        Pigeonhole(xs, n - 1);
      }
    }
  }

  /**
   * In every run each reply answers its own received SERVICE_TO_CLIENT, with
   * that request's gid, and no request is answered twice; so there are at most
   * as many replies as requests.
   */
  lemma AtMostOneReply(setup: Setup, es: seq<Event>)
    ensures var s := Run(setup, es);
            && (forall k: nat :: k < |s.replies| ==> ReplyInv(s, k))
            && (forall j, k :: 0 <= j < k < |s.replies| ==> s.replies[j].id != s.replies[k].id)
            && |s.replies| <= |s.requests|
  {
    var s := Run(setup, es);
    RunInv(setup, es);
    var ids := seq(|s.replies|, k requires 0 <= k < |s.replies| => s.replies[k].id);
    forall i | 0 <= i < |ids| ensures ids[i] < |s.requests| { assert ReplyInv(s, i); }
    Pigeonhole(ids, |s.requests|);
  }

  /** A request whose thread has left without a reply was cancelled while the local service had it. */
  lemma UnansweredWasCancelled(setup: Setup, es: seq<Event>, id: nat)
    requires id < |Run(setup, es).requests| && !Answered(Run(setup, es), id)
    ensures var r := Run(setup, es).requests[id];
            && Open(r) && !r.stage.Duplicate?
            && (r.stage.Left? ==> r.cancelled && r.callback.Due?)
  {
    RunInv(setup, es);
  }
}
