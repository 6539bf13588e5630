/**
 * The originating side of a service. Calls are identified by the writer's gid
 * alone, several calls may share one, the table keeps the first, and removal
 * erases by gid.
 */
module ServiceServer {
  import opened Types
  import opened Sequences
  import opened Handshake

  /** How sendAndWait ends. */
  datatype Outcome = TimedOut | Undecodable | WrongSize | Success(data: Bytes)

  function OutcomeOf(response: Option<Message>, limits: Limits): (o: Outcome)
    ensures o.Success? <==> response.Some? && response.value.content.Some? && Fits(limits, response.value.content.value)
    ensures o.Success? ==> response.value.content == Some(o.data)
  {
    match response
    case None => TimedOut
    case Some(m) =>
      if m.content.None? then Undecodable
      else if !Fits(limits, m.content.value) then WrongSize
      else Success(m.content.value)
  }

  // ---------- all calls, step by step ----------

  datatype Stage = Entered | FlagRaised | Waiting | Returned | Over

  /** One call of sendAndWait. `filed` says that its handle entered the table, `asked` that its request was sent. */
  datatype Call = Call(gid: Bytes, limits: Limits, slot: Slot, stage: Stage, filed: bool, asked: bool)

  /**
   * `table` and the removal queue name calls by their position. `removing` is
   * popped but not yet erased, `sent` is what was handed to the connection, and
   * `askers` names the calls whose requests were sent, in order.
   */
  datatype ServerState = ServerState(
    calls: seq<Call>, table: map<Bytes, nat>, toRemove: seq<nat>, removing: Option<nat>,
    sent: seq<Message>, askers: seq<nat>)

  const Initial := ServerState([], map[], [], None, [], [])

  datatype Event =
    | Begin(gid: Bytes, limits: Limits)
    | RaiseFlag(id: nat)
    | Ask(id: nat, data: Bytes)
    | Return(id: nat)      // with a response, or after maxExecTime without one
    | Finish(id: nat)      // done()
    | Deliver(message: Message)
    | PopRemoval
    | EraseRemoved

  predicate Enabled(s: ServerState, e: Event) {
    match e
    case Begin(_, _) => true
    case RaiseFlag(id) => id < |s.calls| && s.calls[id].stage.Entered?
    case Ask(id, _) => id < |s.calls| && s.calls[id].stage.FlagRaised?
    case Return(id) => id < |s.calls| && s.calls[id].stage.Waiting?
    case Finish(id) => id < |s.calls| && s.calls[id].stage.Returned?
    case Deliver(m) => m.op.ServiceToServer? && m.gid in s.table && s.table[m.gid] < |s.calls|
    case PopRemoval => s.removing.None? && s.toRemove != []
    case EraseRemoved => s.removing.Some? && s.removing.value < |s.calls|
  }

  function Put(s: ServerState, id: nat, c: Call): ServerState
    requires id < |s.calls|
  {
    s.(calls := s.calls[id := c])
  }

  function Opening(gid: Bytes, limits: Limits, free: bool): Call {
    Call(gid, limits, EmptySlot, Entered, free, false)
  }

  /** A call after its wait: in the caller's hands on success, given up otherwise. */
  function Ended(c: Call): Call {
    c.(slot := Close(c.slot), stage := if OutcomeOf(c.slot.response, c.limits).Success? then Returned else Over)
  }

  function CancelOf(c: Call): seq<Message> {
    if c.slot.response.None? then [Message(ServiceToClientCancel, c.gid, Some([]))] else []
  }

  function Step(s: ServerState, e: Event): ServerState {
    if !Enabled(s, e) then s
    else match e
      case Begin(gid, limits) =>
        var free := gid !in s.table;
        s.(calls := s.calls + [Opening(gid, limits, free)],
           table := if free then s.table[gid := |s.calls|] else s.table)
      case RaiseFlag(id) => Put(s, id, s.calls[id].(slot := Arm(s.calls[id].slot), stage := FlagRaised))
      case Ask(id, data) =>
        Put(s, id, s.calls[id].(stage := Waiting, asked := true))
          .(sent := s.sent + [Message(ServiceToClient, s.calls[id].gid, Some(data))], askers := s.askers + [id])
      case Return(id) =>
        var c := Ended(s.calls[id]);
        Put(s, id, c).(toRemove := s.toRemove + (if c.stage.Over? then [id] else []),
                       sent := s.sent + CancelOf(s.calls[id]))
      case Finish(id) =>
        Put(s, id, s.calls[id].(slot := Close(s.calls[id].slot), stage := Over)).(toRemove := s.toRemove + [id])
      case Deliver(m) =>
        var id := s.table[m.gid];
        Put(s, id, s.calls[id].(slot := Offer(s.calls[id].slot, m)))
      case PopRemoval => s.(removing := Some(s.toRemove[0]), toRemove := s.toRemove[1..])
      case EraseRemoved => s.(table := s.table - {s.calls[s.removing.value].gid}, removing := None)
  }

  function Run(es: seq<Event>): ServerState
    decreases |es|
  {
    if es == [] then Initial else Step(Run(es[..|es| - 1]), es[|es| - 1])
  }

  /** The removal thread from one wait to the next. */
  function Drained(s: ServerState): ServerState
    decreases |s.toRemove|
  {
    if s.toRemove == [] || s.removing.Some? then s
    else
      var popped := Step(s, PopRemoval);
      if popped.removing.value < |s.calls| then Drained(Step(popped, EraseRemoved)) else popped
  }

  // ---------- the object ----------

  /** `id` is the handle's position among all calls; the ghost fields say where its call stands. */
  class ServiceActionHandle {
    const gID: Bytes
    const sequenceNumber: int
    var goalResponse: Option<Message>
    var handlingGoal: bool
    ghost const id: nat
    ghost const limits: Limits
    ghost const filed: bool
    ghost var stage: Stage
    ghost var asked: bool

    constructor (gID: Bytes, sequenceNumber: int, ghost id: nat, ghost limits: Limits, ghost filed: bool)
      ensures this.gID == gID && this.sequenceNumber == sequenceNumber && this.id == id
      ensures Abs() == Opening(gID, limits, filed)
    {
      this.gID, this.sequenceNumber := gID, sequenceNumber;
      goalResponse, handlingGoal := None, false;
      this.id, this.limits, this.filed, stage, asked := id, limits, filed, Entered, false;
    }

    ghost function Abs(): Call
      reads this
    {
      Call(gID, limits, Slot(goalResponse, handlingGoal), stage, filed, asked)
    }
  }

  /** Every method performs the step of the same name on the state it stands for. */
  class Server {
    var handles: map<Bytes, ServiceActionHandle>
    var toRemove: seq<ServiceActionHandle>
    var sent: seq<Message>
    ghost var removing: Option<ServiceActionHandle>
    ghost var calls: seq<ServiceActionHandle>   // every handle ever made
    ghost var askers: seq<nat>

    ghost predicate Tracked(h: ServiceActionHandle)
      reads this
    {
      h.id < |calls| && calls[h.id] == h
    }

    ghost predicate Valid()
      reads this
    {
      && (forall i :: 0 <= i < |calls| ==> calls[i].id == i)
      && (forall gid <- handles :: Tracked(handles[gid]))
      && (forall i :: 0 <= i < |toRemove| ==> Tracked(toRemove[i]))
      && (removing.Some? ==> Tracked(removing.value))
    }

    ghost function State(): ServerState
      reads this, calls
    {
      ServerState(
        seq(|calls|, i requires 0 <= i < |calls| reads this, calls => calls[i].Abs()),
        map gid | gid in handles :: handles[gid].id,
        seq(|toRemove|, i requires 0 <= i < |toRemove| reads this => toRemove[i].id),
        if removing.None? then None else Some(removing.value.id),
        sent, askers)
    }

    constructor ()
      ensures Valid() && State() == Initial
    {
      handles, toRemove, sent, removing, calls, askers := map[], [], [], None, [], [];
    }

    /** handle(): only a SERVICE_TO_SERVER for a known gid whose flag is up is stored. */
    method HandleMessage(message: Message)
      requires Valid()
      modifies if message.gid in handles then {handles[message.gid]} else {}
      ensures Valid() && State() == Step(old(State()), Deliver(message))
    {
      if !message.op.ServiceToServer? || message.gid !in handles { return; }
      var it := handles[message.gid];
      if !it.handlingGoal { return; }
      it.goalResponse := Some(message);
    }

    /** The first lines of sendAndWait: map insertion does not replace. */
    method Enter(gid: Bytes, sequenceNumber: int, ghost limits: Limits) returns (handle: ServiceActionHandle)
      requires Valid()
      modifies this`handles, this`calls
      ensures Valid() && State() == Step(old(State()), Begin(gid, limits))
      ensures fresh(handle) && Tracked(handle) && handle.id == |old(calls)| && handle.gID == gid
    {
      handle := new ServiceActionHandle(gid, sequenceNumber, |calls|, limits, gid !in handles);
      ghost var before := State();
      calls := calls + [handle];
      assert Valid() && State() == before.(calls := before.calls + [handle.Abs()]);
      File(handle);
    }

    /** std::map::insert. */
    method File(handle: ServiceActionHandle)
      requires Valid() && Tracked(handle)
      modifies this`handles
      ensures Valid()
      ensures State() == if handle.gID in old(handles) then old(State())
                         else old(State()).(table := old(State()).table[handle.gID := handle.id])
    {
      if handle.gID !in handles { handles := handles[handle.gID := handle]; }
    }

    method Raise(handle: ServiceActionHandle)
      requires Valid() && Tracked(handle) && handle.stage.Entered?
      modifies handle
      ensures Valid() && State() == Step(old(State()), RaiseFlag(handle.id))
    {
      handle.goalResponse := None;
      handle.handlingGoal := true;
      handle.stage := FlagRaised;
    }

    method SendRequest(handle: ServiceActionHandle, data: Bytes)
      requires Valid() && Tracked(handle) && handle.stage.FlagRaised?
      modifies this`sent, this`askers, handle
      ensures Valid() && State() == Step(old(State()), Ask(handle.id, data))
    {
      askers := askers + [handle.id];
      sent := sent + [Message(ServiceToClient, handle.gID, Some(data))];
      handle.stage, handle.asked := Waiting, true;
    }

    /** sendAndWait from the end of the wait on: the data of a usable response, or None with the handle given up. */
    method EndWait(handle: ServiceActionHandle, limits: Limits) returns (response: Option<Bytes>)
      requires Valid() && Tracked(handle) && handle.stage.Waiting? && limits == handle.limits
      modifies this`sent, this`toRemove, handle
      ensures Valid() && State() == Step(old(State()), Return(handle.id))
      ensures var o := OutcomeOf(old(handle.goalResponse), limits);
              response == if o.Success? then Some(o.data) else None
    {
      ghost var before := State();
      response := Examine(handle, limits);
      handle.stage := if response.Some? then Returned else Over;
      assert State().calls == before.calls[handle.id := Ended(before.calls[handle.id])];
    }

    /** Each exit of sendAndWait after the wait lowers the flag; all but the last give the handle up. */
    method Examine(handle: ServiceActionHandle, limits: Limits) returns (response: Option<Bytes>)
      modifies this`sent, this`toRemove, handle`handlingGoal
      ensures var o := OutcomeOf(handle.goalResponse, limits);
              && response == (if o.Success? then Some(o.data) else None)
              && toRemove == old(toRemove) + (if o.Success? then [] else [handle])
      ensures sent == old(sent) + CancelOf(old(handle.Abs())) && !handle.handlingGoal
    {
      if handle.goalResponse.None? {
        sent := sent + [Message(ServiceToClientCancel, handle.gID, Some([]))];
        handle.handlingGoal := false;
        toRemove := toRemove + [handle];
        return None;
      }
      if handle.goalResponse.value.content.None? {
        handle.handlingGoal := false;
        toRemove := toRemove + [handle];
        return None;
      }
      var data := handle.goalResponse.value.content.value;
      if !limits.dynamicSize && |data| != limits.expectedSize {
        handle.handlingGoal := false;
        toRemove := toRemove + [handle];
        return None;
      }
      handle.handlingGoal := false;
      return Some(data);
    }

    method Done(handle: ServiceActionHandle)
      requires Valid() && Tracked(handle) && handle.stage.Returned?
      modifies this`toRemove, handle
      ensures Valid() && State() == Step(old(State()), Finish(handle.id))
    {
      handle.handlingGoal := false;
      handle.stage := Over;
      toRemove := toRemove + [handle];
    }

    /** The removal thread, until it would block. */
    method ExecuteRemove()
      requires Valid() && removing.None?
      modifies this`toRemove, this`handles, this`removing
      ensures Valid() && removing.None? && State() == Drained(old(State()))
    {
      while toRemove != []
        invariant Valid() && removing.None?
        invariant Drained(State()) == Drained(old(State()))
        decreases |toRemove|
      {
        ghost var before := State();
        var handle := Pop();
        Erase(handle);
        assert State() == Step(Step(before, PopRemoval), EraseRemoved);
      }
    }

    method Pop() returns (handle: ServiceActionHandle)
      requires Valid() && removing.None? && toRemove != []
      modifies this`toRemove, this`removing
      ensures Valid() && removing == Some(handle) && |toRemove| == |old(toRemove)| - 1
      ensures State() == Step(old(State()), PopRemoval)
    {
      handle := toRemove[0];
      toRemove, removing := toRemove[1..], Some(handle);
    }

    method Erase(handle: ServiceActionHandle)
      requires Valid() && removing == Some(handle)
      modifies this`handles, this`removing
      ensures Valid() && removing.None? && toRemove == old(toRemove)
      ensures State() == Step(old(State()), EraseRemoved)
    {
      handles, removing := handles - {handle.gID}, None;
    }
  }

  // ---------- what a returned response is ----------

  /** A stored response answers this gid, only filed calls store one, and a returned one is usable. */
  predicate CallInv(c: Call) {
    && (c.slot.response.Some? ==>
          c.filed && c.slot.response.value.op.ServiceToServer? && c.slot.response.value.gid == c.gid)
    && (c.slot.handling <==> c.stage.FlagRaised? || c.stage.Waiting?)
    && (c.stage.Returned? ==> OutcomeOf(c.slot.response, c.limits).Success?)
    && (c.stage.Entered? ==> c.slot.response.None?)
    && (c.stage.Waiting? || c.stage.Returned? || c.stage.Over? <==> c.asked)
  }

  predicate Filed(s: ServerState, gid: Bytes) {
    gid in s.table ==> s.table[gid] < |s.calls| && s.calls[s.table[gid]].gid == gid && s.calls[s.table[gid]].filed
  }

  predicate Inv(s: ServerState) {
    && (forall id: nat :: id < |s.calls| ==> CallInv(s.calls[id]))
    && (forall gid <- s.table :: Filed(s, gid))
    && (forall i :: 0 <= i < |s.toRemove| ==> s.toRemove[i] < |s.calls|)
    && (s.removing.Some? ==> s.removing.value < |s.calls|)
  }

  lemma StepKeepsCalls(s: ServerState, e: Event)
    requires Inv(s)
    ensures forall id: nat :: id < |Step(s, e).calls| ==> CallInv(Step(s, e).calls[id])
  {
    if Enabled(s, e) && e.Deliver? { assert Filed(s, e.message.gid); }
  }

  lemma CallsOnlyGrow(s: ServerState, e: Event)
    ensures |s.calls| <= |Step(s, e).calls|
    ensures forall id: nat :: id < |s.calls| ==>
              var c, c' := s.calls[id], Step(s, e).calls[id];
              c'.gid == c.gid && c'.filed == c.filed && (c.asked ==> c'.asked)
  {
  }

  lemma StepKeepsInv(s: ServerState, e: Event)
    requires Inv(s)
    ensures Inv(Step(s, e))
  {
    StepKeepsCalls(s, e);
    CallsOnlyGrow(s, e);
    var s' := Step(s, e);
    forall gid <- s'.table ensures Filed(s', gid) {
      if gid in s.table { assert Filed(s, gid); }
    }
  }

  lemma {:induction false} RunInv(es: seq<Event>)
    ensures Inv(Run(es))
    decreases |es|
  {
    if es != [] {
      RunInv(es[..|es| - 1]);
      StepKeepsInv(Run(es[..|es| - 1]), es[|es| - 1]);
    }
  }

  /**
   * In every run sendAndWait returns a handle only with a decodable
   * SERVICE_TO_SERVER response of its own gid and the expected size, and only
   * for a call whose handle entered the table.
   */
  lemma ReturnedResponseFits(es: seq<Event>, id: nat)
    requires id < |Run(es).calls| && Run(es).calls[id].stage.Returned?
    ensures var c := Run(es).calls[id];
            && c.filed && c.slot.response.Some?
            && var m := c.slot.response.value;
            m.op.ServiceToServer? && m.gid == c.gid && m.content.Some? && Fits(c.limits, m.content.value)
  {
    RunInv(es);
  }

  /** The response is frozen until done(). */
  lemma FrozenUntilDone(s: ServerState, e: Event, id: nat)
    requires Inv(s) && id < |s.calls| && s.calls[id].stage.Returned? && e != Finish(id)
    ensures id < |Step(s, e).calls| && Step(s, e).calls[id] == s.calls[id]
  {
  }

  // ---------- which calls can be answered ----------

  predicate Linked(s: ServerState, id: nat)
    requires id < |s.calls|
  {
    s.calls[id].gid in s.table && s.table[s.calls[id].gid] == id
  }

  /** A call whose handle is not in the table never gets there and never gets a response. */
  lemma UnlinkedStays(s: ServerState, e: Event, id: nat)
    requires Inv(s) && id < |s.calls| && !Linked(s, id) && s.calls[id].slot.response.None?
    ensures var s' := Step(s, e);
            id < |s'.calls| && !Linked(s', id) && s'.calls[id].slot.response.None?
  {
    if Enabled(s, e) && e.Deliver? { assert Filed(s, e.message.gid); }
  }

  /** A shadowed or wrongly erased call can only time out, whatever follows. */
  lemma {:induction false} UnlinkedNeverAnswered(es: seq<Event>, more: seq<Event>, id: nat)
    requires id < |Run(es).calls| && !Linked(Run(es), id) && Run(es).calls[id].slot.response.None?
    ensures id < |Run(es + more).calls| && !Linked(Run(es + more), id) && Run(es + more).calls[id].slot.response.None?
    ensures !Run(es + more).calls[id].stage.Returned?
    decreases |more|
  {
    if more == [] {
      assert es + more == es;
    } else {
      var last := |more| - 1;
      UnlinkedNeverAnswered(es, more[..last], id);
      RunInv(es + more[..last]);
      UnlinkedStays(Run(es + more[..last]), more[last], id);
      assert (es + more)[..|es + more| - 1] == es + more[..last];
    }
    RunInv(es + more);
  }

  /** A linked, waiting call stores the next response for its gid. */
  lemma LinkedIsAnswered(s: ServerState, id: nat, m: Message)
    requires Inv(s) && id < |s.calls| && Linked(s, id) && s.calls[id].slot.handling
    requires m.op.ServiceToServer? && m.gid == s.calls[id].gid
    ensures Step(s, Deliver(m)).calls[id].slot == Slot(Some(m), true)
  {
  }

  /** Calls that are not over, and those waiting for removal, are the table's own. */
  predicate AllLinked(s: ServerState) {
    && (forall id: nat :: id < |s.calls| && !s.calls[id].stage.Over? ==> Linked(s, id))
    && (forall i :: 0 <= i < |s.toRemove| ==>
          s.toRemove[i] < |s.calls| && s.calls[s.toRemove[i]].stage.Over? && Linked(s, s.toRemove[i]))
    && (forall i, j :: 0 <= i < j < |s.toRemove| ==> s.toRemove[i] != s.toRemove[j])
    && (s.removing.Some? ==>
          && s.removing.value < |s.calls| && s.calls[s.removing.value].stage.Over?
          && Linked(s, s.removing.value) && s.removing.value !in s.toRemove)
  }

  lemma UpdateKeepsLinked(s: ServerState, id: nat, c: Call)
    requires AllLinked(s) && id < |s.calls| && c.gid == s.calls[id].gid && (c.stage.Over? <==> s.calls[id].stage.Over?)
    ensures AllLinked(Put(s, id, c))
  {
    var s' := Put(s, id, c);
    assert forall k: nat :: k < |s.calls| ==> (Linked(s', k) <==> Linked(s, k));
  }

  lemma RetireKeepsLinked(s: ServerState, id: nat, c: Call)
    requires AllLinked(s) && id < |s.calls| && !s.calls[id].stage.Over?
    requires c.gid == s.calls[id].gid && c.stage.Over?
    ensures AllLinked(Put(s, id, c).(toRemove := s.toRemove + [id]))
  {
    var s' := Put(s, id, c).(toRemove := s.toRemove + [id]);
    assert forall k: nat :: k < |s.calls| ==> (Linked(s', k) <==> Linked(s, k));
  }

  lemma PopKeepsLinked(s: ServerState)
    requires AllLinked(s) && s.removing.None? && s.toRemove != []
    ensures AllLinked(s.(removing := Some(s.toRemove[0]), toRemove := s.toRemove[1..]))
  {
    var s' := s.(removing := Some(s.toRemove[0]), toRemove := s.toRemove[1..]);
    assert forall k: nat :: k < |s.calls| ==> (Linked(s', k) <==> Linked(s, k));
    assert forall i :: 0 <= i < |s'.toRemove| ==> s'.toRemove[i] == s.toRemove[i + 1];
  }

  lemma EraseKeepsLinked(s: ServerState)
    requires AllLinked(s) && s.removing.Some?
    ensures AllLinked(Step(s, EraseRemoved))
  {
    var s' := Step(s, EraseRemoved);
    assert forall k: nat :: k < |s.calls| && Linked(s, k) && k != s.removing.value ==> Linked(s', k);
  }

  lemma SentKeepsLinked(s: ServerState, sent: seq<Message>, askers: seq<nat>)
    requires AllLinked(s)
    ensures AllLinked(s.(sent := sent, askers := askers))
  {
    var s' := s.(sent := sent, askers := askers);
    assert forall k: nat :: k < |s.calls| ==> (Linked(s', k) <==> Linked(s, k));
  }

  lemma ReturnKeepsLinked(s: ServerState, id: nat)
    requires AllLinked(s) && Enabled(s, Return(id))
    ensures AllLinked(Step(s, Return(id)))
  {
    var c, sent := Ended(s.calls[id]), s.sent + CancelOf(s.calls[id]);
    if c.stage.Over? {
      RetireKeepsLinked(s, id, c);
      SentKeepsLinked(Put(s, id, c).(toRemove := s.toRemove + [id]), sent, s.askers);
    } else {
      UpdateKeepsLinked(s, id, c);
      SentKeepsLinked(Put(s, id, c), sent, s.askers);
      assert s.toRemove + [] == s.toRemove;
    }
  }

  /** Every event but Begin keeps all calls linked. */
  lemma StepKeepsLinked(s: ServerState, e: Event)
    requires Inv(s) && AllLinked(s) && !e.Begin?
    ensures AllLinked(Step(s, e))
  {
    if Enabled(s, e) {
      match e
      case RaiseFlag(id) => UpdateKeepsLinked(s, id, Step(s, e).calls[id]);
      case Ask(id, _) =>
        UpdateKeepsLinked(s, id, Step(s, e).calls[id]);
        SentKeepsLinked(Put(s, id, Step(s, e).calls[id]), Step(s, e).sent, Step(s, e).askers);
      case Return(id) => ReturnKeepsLinked(s, id);
      case Finish(id) => RetireKeepsLinked(s, id, Step(s, e).calls[id]);
      case Deliver(m) => UpdateKeepsLinked(s, s.table[m.gid], Step(s, e).calls[s.table[m.gid]]);
      case PopRemoval => PopKeepsLinked(s);
      case EraseRemoved => EraseKeepsLinked(s);
    }
  }

  /**
   * Begin keeps them linked exactly when no handle with this gid is in the table; so none is in the
   * removal queue either.
   */
  lemma BeginKeepsLinkedIff(s: ServerState, gid: Bytes, limits: Limits)
    requires Inv(s) && AllLinked(s)
    ensures AllLinked(Step(s, Begin(gid, limits))) <==> gid !in s.table
    ensures gid !in s.table ==> forall i :: 0 <= i < |s.toRemove| ==> s.calls[s.toRemove[i]].gid != gid
  {
    var s' := Step(s, Begin(gid, limits));
    if gid in s.table {
      assert Filed(s, gid);
      assert !Linked(s', |s.calls|);
    } else {
      forall id: nat | id < |s.calls| && Linked(s, id) ensures Linked(s', id) {}
    }
  }

  /** With fresh gids every call in progress can be answered. */
  lemma {:induction false} FreshCallsAreLinked(es: seq<Event>)
    requires FreshRun(es)
    ensures AllLinked(Run(es))
    decreases |es|
  {
    if es != [] {
      var before, e := es[..|es| - 1], es[|es| - 1];
      FreshCallsAreLinked(before);
      RunInv(before);
      if e.Begin? { BeginKeepsLinkedIff(Run(before), e.gid, e.limits); } else { StepKeepsLinked(Run(before), e); }
    }
  }

  // ---------- whose response it is ----------

  function RequestIn(m: Message, gid: Bytes): seq<Message> {
    if m.op.ServiceToClient? && m.gid == gid then [m] else []
  }

  /** The requests sent with a gid. */
  function Asks(s: ServerState, gid: Bytes): nat {
    |Gather((m: Message) => RequestIn(m, gid), s.sent)|
  }

  function ResponseIn(e: Event, gid: Bytes): seq<Event> {
    if e.Deliver? && e.message.op.ServiceToServer? && e.message.gid == gid then [e] else []
  }

  /** The responses that arrived with a gid, stored or not. */
  function Replies(es: seq<Event>, gid: Bytes): nat {
    |Gather((e: Event) => ResponseIn(e, gid), es)|
  }

  /** The other side replies at most once to each request, so responses never outnumber requests. */
  predicate OneReplyRun(es: seq<Event>)
    decreases |es|
  {
    es != [] ==>
      var before, e := es[..|es| - 1], es[|es| - 1];
      && OneReplyRun(before)
      && (e.Deliver? && e.message.op.ServiceToServer? ==>
            Replies(before, e.message.gid) < Asks(Run(before), e.message.gid))
  }

  /** Every call begins while no handle with its gid is in the table. */
  predicate FreshRun(es: seq<Event>)
    decreases |es|
  {
    es != [] ==>
      && FreshRun(es[..|es| - 1])
      && (es[|es| - 1].Begin? ==> es[|es| - 1].gid !in Run(es[..|es| - 1]).table)
  }

  lemma AsksGrow(s: ServerState, e: Event, gid: Bytes)
    ensures Asks(Step(s, e), gid)
         == Asks(s, gid) + if Enabled(s, e) && e.Ask? && s.calls[e.id].gid == gid then 1 else 0
  {
    var s' := Step(s, e);
    if Enabled(s, e) && e.Ask? {
      GatherSnoc((m: Message) => RequestIn(m, gid), s.sent, Message(ServiceToClient, s.calls[e.id].gid, Some(e.data)));
    } else if Enabled(s, e) && e.Return? && s.calls[e.id].slot.response.None? {
      GatherSnoc((m: Message) => RequestIn(m, gid), s.sent,
                 Message(ServiceToClientCancel, s.calls[e.id].gid, Some([])));
    } else {
      assert s'.sent == s.sent;
    }
  }

  lemma RepliesGrow(es: seq<Event>, e: Event, gid: Bytes)
    ensures Replies(es + [e], gid) == Replies(es, gid) + |ResponseIn(e, gid)|
  {
    GatherSnoc((e: Event) => ResponseIn(e, gid), es, e);
  }

  lemma {:induction false} RepliesAreBounded(es: seq<Event>, gid: Bytes)
    requires OneReplyRun(es)
    ensures Replies(es, gid) <= Asks(Run(es), gid)
    decreases |es|
  {
    if es != [] {
      var before, e := es[..|es| - 1], es[|es| - 1];
      assert es == before + [e];
      RepliesAreBounded(before, gid);
      RepliesGrow(before, e, gid);
      AsksGrow(Run(before), e, gid);
    }
  }

  /** Until a call has sent its request it holds no response. */
  predicate NothingEarly(s: ServerState, id: nat) {
    id < |s.calls| && (s.calls[id].slot.response.Some? ==> s.calls[id].asked)
  }

  /** The call has not asked, and every request with its gid has been answered. */
  predicate Quiet(s: ServerState, replies: nat, id: nat) {
    && id < |s.calls| && !s.calls[id].asked && s.calls[id].slot.response.None?
    && replies == Asks(s, s.calls[id].gid)
  }

  lemma StaysQuiet(s: ServerState, replies: nat, e: Event, id: nat)
    requires Inv(s) && AllLinked(s) && Quiet(s, replies, id)
    requires ResponseIn(e, s.calls[id].gid) == []
    ensures Step(s, e).calls[id].asked || Quiet(Step(s, e), replies, id)
  {
    var gid := s.calls[id].gid;
    AsksGrow(s, e, gid);
    if Enabled(s, e) && e.Ask? && s.calls[e.id].gid == gid {
      assert Linked(s, id) && Linked(s, e.id);
    } else if Enabled(s, e) && e.Deliver? {
      assert Filed(s, e.message.gid);
    }
  }

  /** The run in which a call begins, and what follows. */
  function Begun(pre: seq<Event>, gid: Bytes, limits: Limits, more: seq<Event>): seq<Event> {
    pre + [Begin(gid, limits)] + more
  }

  lemma {:induction false} QuietUntilAsked(pre: seq<Event>, gid: Bytes, limits: Limits, more: seq<Event>)
    requires FreshRun(Begun(pre, gid, limits, more)) && OneReplyRun(Begun(pre, gid, limits, more))
    requires Replies(pre, gid) == Asks(Run(pre), gid)
    ensures var es, id := Begun(pre, gid, limits, more), |Run(pre).calls|;
            && id < |Run(es).calls| && Run(es).calls[id].gid == gid
            && (Run(es).calls[id].asked || Quiet(Run(es), Replies(es, gid), id))
    decreases |more|
  {
    var es, id := Begun(pre, gid, limits, more), |Run(pre).calls|;
    if more == [] {
      assert es == pre + [Begin(gid, limits)] && es[..|pre|] == pre;
      RepliesGrow(pre, Begin(gid, limits), gid);
      AsksGrow(Run(pre), Begin(gid, limits), gid);
    } else {
      var before, e := Begun(pre, gid, limits, more[..|more| - 1]), more[|more| - 1];
      assert es == before + [e] && es[..|es| - 1] == before;
      QuietUntilAsked(pre, gid, limits, more[..|more| - 1]);
      RunInv(before);
      FreshCallsAreLinked(before);
      RepliesGrow(before, e, gid);
      CallsOnlyGrow(Run(before), e);
      if !Run(before).calls[id].asked { StaysQuiet(Run(before), Replies(before, gid), e, id); }
    }
  }

  lemma RunSnoc(es: seq<Event>, e: Event)
    requires FreshRun(es) && OneReplyRun(es)
    requires e.Begin? ==> e.gid !in Run(es).table
    requires e.Deliver? && e.message.op.ServiceToServer? ==> Replies(es, e.message.gid) < Asks(Run(es), e.message.gid)
    ensures Run(es + [e]) == Step(Run(es), e) && FreshRun(es + [e]) && OneReplyRun(es + [e])
  {
    assert (es + [e])[..|es|] == es;
  }

  /** A step that neither asks nor hears keeps the counts and the assumptions about the run. */
  lemma QuietSnoc(es: seq<Event>, e: Event, gid: Bytes)
    requires FreshRun(es) && OneReplyRun(es) && !e.Ask? && !e.Deliver? && (e.Begin? ==> e.gid !in Run(es).table)
    ensures Run(es + [e]) == Step(Run(es), e) && FreshRun(es + [e]) && OneReplyRun(es + [e])
    ensures Asks(Run(es + [e]), gid) == Asks(Run(es), gid) && Replies(es + [e], gid) == Replies(es, gid)
  {
    RunSnoc(es, e);
    AsksGrow(Run(es), e, gid);
    RepliesGrow(es, e, gid);
  }

  lemma BeginRaiseDeliver(s: ServerState, gid: Bytes, limits: Limits, late: Message)
    requires gid !in s.table && late.op.ServiceToServer? && late.gid == gid
    ensures var s' := Step(Step(Step(s, Begin(gid, limits)), RaiseFlag(|s.calls|)), Deliver(late));
            && |s.calls| < |s'.calls|
            && s'.calls[|s.calls|] == Call(gid, limits, Slot(Some(late), true), FlagRaised, true, false)
  {
  }

  /** A response that is still owed reaches the next call with its gid before that call has asked. */
  lemma OwedResponseComesEarly(pre: seq<Event>, gid: Bytes, limits: Limits, late: Message)
    requires FreshRun(pre) && OneReplyRun(pre) && gid !in Run(pre).table && Replies(pre, gid) < Asks(Run(pre), gid)
    requires late.op.ServiceToServer? && late.gid == gid
    ensures var id := |Run(pre).calls|;
            var es := Begun(pre, gid, limits, [RaiseFlag(id), Deliver(late)]);
            && FreshRun(es) && OneReplyRun(es) && id < |Run(es).calls|
            && Run(es).calls[id] == Call(gid, limits, Slot(Some(late), true), FlagRaised, true, false)
  {
    var id := |Run(pre).calls|;
    var a := pre + [Begin(gid, limits)];
    var b := a + [RaiseFlag(id)];
    QuietSnoc(pre, Begin(gid, limits), gid);
    QuietSnoc(a, RaiseFlag(id), gid);
    RunSnoc(b, Deliver(late));
    BeginRaiseDeliver(Run(pre), gid, limits, late);
    assert Begun(pre, gid, limits, [RaiseFlag(id), Deliver(late)]) == b + [Deliver(late)];
  }

  /**
   * Correlation, exactly. A call begins while no handle with its gid is in the
   * table. In every continuation it holds nothing before its own request was
   * sent if and only if, when it begins, every earlier request with this gid
   * has been answered.
   */
  lemma ResponseFollowsRequestIff(pre: seq<Event>, gid: Bytes, limits: Limits)
    requires FreshRun(pre) && OneReplyRun(pre) && gid !in Run(pre).table
    ensures (forall more :: FreshRun(Begun(pre, gid, limits, more)) && OneReplyRun(Begun(pre, gid, limits, more))
                 ==> NothingEarly(Run(Begun(pre, gid, limits, more)), |Run(pre).calls|))
       <==> Replies(pre, gid) == Asks(Run(pre), gid)
  {
    var id := |Run(pre).calls|;
    if Replies(pre, gid) == Asks(Run(pre), gid) {
      forall more | FreshRun(Begun(pre, gid, limits, more)) && OneReplyRun(Begun(pre, gid, limits, more))
        ensures NothingEarly(Run(Begun(pre, gid, limits, more)), id)
      {
        QuietUntilAsked(pre, gid, limits, more);
      }
    } else {
      var late := Message(ServiceToServer, gid, None);
      RepliesAreBounded(pre, gid);
      OwedResponseComesEarly(pre, gid, limits, late);
      assert !NothingEarly(Run(Begun(pre, gid, limits, [RaiseFlag(id), Deliver(late)])), id);
    }
  }

  lemma AskThenReturn(s: ServerState, id: nat, request: Bytes)
    requires id < |s.calls| && s.calls[id].stage.FlagRaised?
    requires OutcomeOf(s.calls[id].slot.response, s.calls[id].limits).Success?
    ensures var s' := Step(Step(s, Ask(id, request)), Return(id));
            id < |s'.calls| && s'.calls[id].stage.Returned? && s'.calls[id].slot.response == s.calls[id].slot.response
  {
  }

  /** And what came early is what the call returns: any owed response that fits. */
  lemma LateResponseIsReturned(pre: seq<Event>, gid: Bytes, limits: Limits, data: Bytes, request: Bytes)
    requires FreshRun(pre) && OneReplyRun(pre) && gid !in Run(pre).table && Replies(pre, gid) < Asks(Run(pre), gid)
    requires Fits(limits, data)
    ensures var late, id := Message(ServiceToServer, gid, Some(data)), |Run(pre).calls|;
            var es := Begun(pre, gid, limits, [RaiseFlag(id), Deliver(late)]) + [Ask(id, request)] + [Return(id)];
            && FreshRun(es) && OneReplyRun(es) && id < |Run(es).calls|
            && Run(es).calls[id].stage.Returned? && Run(es).calls[id].slot.response == Some(late)
  {
    var late, id := Message(ServiceToServer, gid, Some(data)), |Run(pre).calls|;
    var early := Begun(pre, gid, limits, [RaiseFlag(id), Deliver(late)]);
    OwedResponseComesEarly(pre, gid, limits, late);
    AskThenReturn(Run(early), id, request);
    RunSnoc(early, Ask(id, request));
    RunSnoc(early + [Ask(id, request)], Return(id));
  }

  /** A run in which a response is owed although its gid is free again: the first call timed out and was removed. */
  function Abandoned(gid: Bytes, limits: Limits): seq<Event> {
    [Begin(gid, limits)] + [RaiseFlag(0)] + [Ask(0, [])] + [Return(0)] + [PopRemoval] + [EraseRemoved]
  }

  function Alone(
      c: Call, table: map<Bytes, nat>, toRemove: seq<nat>, removing: Option<nat>, sent: seq<Message>): ServerState
  {
    ServerState([c], table, toRemove, removing, sent, if c.asked then [0] else [])
  }

  // Its six steps, each on the state the one before it leaves.

  lemma AbandonedBegins(gid: Bytes, limits: Limits)
    ensures Step(Initial, Begin(gid, limits)) == Alone(Opening(gid, limits, true), map[gid := 0], [], None, [])
  {
  }

  lemma AbandonedRaises(gid: Bytes, limits: Limits)
    ensures Step(Alone(Opening(gid, limits, true), map[gid := 0], [], None, []), RaiseFlag(0))
         == Alone(Call(gid, limits, Slot(None, true), FlagRaised, true, false), map[gid := 0], [], None, [])
  {
  }

  lemma AbandonedAsks(gid: Bytes, limits: Limits)
    ensures Step(Alone(Call(gid, limits, Slot(None, true), FlagRaised, true, false), map[gid := 0], [], None, []),
                 Ask(0, []))
         == Alone(Call(gid, limits, Slot(None, true), Waiting, true, true), map[gid := 0], [], None,
                  [Message(ServiceToClient, gid, Some([]))])
  {
  }

  function GivenUp(gid: Bytes): seq<Message> {
    [Message(ServiceToClient, gid, Some([])), Message(ServiceToClientCancel, gid, Some([]))]
  }

  lemma AbandonedTimesOut(gid: Bytes, limits: Limits)
    ensures Step(Alone(Call(gid, limits, Slot(None, true), Waiting, true, true), map[gid := 0], [], None,
                       [Message(ServiceToClient, gid, Some([]))]), Return(0))
         == Alone(Call(gid, limits, EmptySlot, Over, true, true), map[gid := 0], [0], None, GivenUp(gid))
  {
  }

  lemma AbandonedIsRemoved(gid: Bytes, limits: Limits)
    ensures var over := Call(gid, limits, EmptySlot, Over, true, true);
            var queued := Alone(over, map[gid := 0], [0], None, GivenUp(gid));
            Step(Step(queued, PopRemoval), EraseRemoved) == Alone(over, map[], [], None, GivenUp(gid))
  {
    var over := Call(gid, limits, EmptySlot, Over, true, true);
    assert Step(Alone(over, map[gid := 0], [0], None, GivenUp(gid)), PopRemoval)
        == Alone(over, map[gid := 0], [], Some(0), GivenUp(gid));
  }

  lemma AbandonedLeaves(gid: Bytes, limits: Limits)
    ensures var es := Abandoned(gid, limits);
            && FreshRun(es) && OneReplyRun(es)
            && Run(es) == Alone(Call(gid, limits, EmptySlot, Over, true, true), map[], [], None, GivenUp(gid))
  {
    var a := [Begin(gid, limits)];
    var b := a + [RaiseFlag(0)];
    var c := b + [Ask(0, [])];
    var d := c + [Return(0)];
    AbandonedBegins(gid, limits);
    AbandonedRaises(gid, limits);
    AbandonedAsks(gid, limits);
    AbandonedTimesOut(gid, limits);
    AbandonedIsRemoved(gid, limits);
    RunSnoc([], a[0]);
    assert [] + a == a;
    RunSnoc(a, RaiseFlag(0));
    RunSnoc(b, Ask(0, []));
    RunSnoc(c, Return(0));
    RunSnoc(d, PopRemoval);
    RunSnoc(d + [PopRemoval], EraseRemoved);
  }

  lemma AbandonedOwes(gid: Bytes, limits: Limits)
    ensures var es := Abandoned(gid, limits);
            && FreshRun(es) && OneReplyRun(es) && gid !in Run(es).table
            && Replies(es, gid) < Asks(Run(es), gid)
  {
    AbandonedLeaves(gid, limits);
    GatherOne((m: Message) => RequestIn(m, gid), GivenUp(gid)[0]);
    GatherSnoc((m: Message) => RequestIn(m, gid), [GivenUp(gid)[0]], GivenUp(gid)[1]);
    assert GivenUp(gid) == [GivenUp(gid)[0]] + [GivenUp(gid)[1]];
    NoDeliveryNoReply(Abandoned(gid, limits), gid);
  }

  lemma {:induction false} NoDeliveryNoReply(es: seq<Event>, gid: Bytes)
    requires forall i :: 0 <= i < |es| ==> !es[i].Deliver?
    ensures Replies(es, gid) == 0
  {
    if es != [] { NoDeliveryNoReply(es[1..], gid); }
  }
}
