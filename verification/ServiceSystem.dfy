/**
 * Both sides of a service over one connection, with any number of calls and
 * any reuse of gids. Messages arrive in order in each direction.
 */
module ServiceSystem {
  import opened Types
  import opened Sequences
  import SS = ServiceServer
  import SC = ServiceClient

  /** `taken` of the server's messages have reached the client, `heard` of the client's replies the server. */
  datatype System = System(server: SS.ServerState, client: SC.ClientState, taken: nat, heard: nat)

  const Initial := System(SS.Initial, SC.Initial, 0, 0)

  datatype Event =
    | AtServer(se: SS.Event)
    | AtClient(ce: SC.Event)
    | ToClient
    | ToServer

  /** Messages get to an endpoint by delivery only. */
  predicate IsLocal(e: Event) {
    match e
    case AtServer(se) => !se.Deliver?
    case AtClient(ce) => !ce.Arrive? && !ce.CancelArrives?
    case _ => true
  }

  predicate Underway(s: System, e: Event) {
    match e
    case ToClient => s.taken < |s.server.sent|
    case ToServer => s.heard < |s.client.replies|
    case _ => true
  }

  /** What a message from the server is for the client. */
  function Arrival(m: Message): SC.Event {
    if m.op.ServiceToClient? then SC.Arrive(m) else SC.CancelArrives(m.gid)
  }

  /** The client receives the oldest message under way to it. */
  function Take(setup: SC.Setup, s: System, m: Message): System {
    s.(client := SC.Step(setup, s.client, Arrival(m)), taken := s.taken + 1)
  }

  /** The server hears the oldest reply under way to it. */
  function Hear(s: System, m: Message): System {
    s.(server := SS.Step(s.server, SS.Deliver(m)), heard := s.heard + 1)
  }

  function Step(setup: SC.Setup, s: System, e: Event): System {
    if !IsLocal(e) || !Underway(s, e) then s
    else match e
      case AtServer(se) => s.(server := SS.Step(s.server, se))
      case AtClient(ce) => s.(client := SC.Step(setup, s.client, ce))
      case ToClient => Take(setup, s, s.server.sent[s.taken])
      case ToServer => Hear(s, s.client.replies[s.heard].message)
  }

  function Run(setup: SC.Setup, es: seq<Event>): System
    decreases |es|
  {
    if es == [] then Initial else Step(setup, Run(setup, es[..|es| - 1]), es[|es| - 1])
  }

  // ---------- each side's run ----------

  function ServerEvent(s: System, e: Event): seq<SS.Event> {
    if !IsLocal(e) || !Underway(s, e) then []
    else match e
      case AtServer(se) => [se]
      case ToServer => [SS.Deliver(s.client.replies[s.heard].message)]
      case _ => []
  }

  /** What a run is for the server. */
  function ServerEvents(setup: SC.Setup, es: seq<Event>): seq<SS.Event>
    decreases |es|
  {
    if es == [] then [] else ServerEvents(setup, es[..|es| - 1]) + ServerEvent(Run(setup, es[..|es| - 1]), es[|es| - 1])
  }

  lemma ServerRunExtends(before: seq<SS.Event>, more: seq<SS.Event>)
    requires |more| <= 1
    ensures SS.Run(before + more) == if more == [] then SS.Run(before) else SS.Step(SS.Run(before), more[0])
  {
    if more == [] { assert before + more == before; } else { assert (before + more)[..|before|] == before; }
  }

  lemma {:induction false} ServerIsRun(setup: SC.Setup, es: seq<Event>)
    ensures Run(setup, es).server == SS.Run(ServerEvents(setup, es))
    decreases |es|
  {
    if es != [] {
      var before := es[..|es| - 1];
      ServerIsRun(setup, before);
      ServerRunExtends(ServerEvents(setup, before), ServerEvent(Run(setup, before), es[|es| - 1]));
    }
  }

  // ---------- which call a request belongs to ----------

  function RequestOf(m: Message): seq<Message> {
    if m.op.ServiceToClient? then [m] else []
  }

  /** The requests among some messages, in order. */
  function Requests(ms: seq<Message>): seq<Message> {
    Gather(RequestOf, ms)
  }

  /** The requests the client has received, in order. */
  function Received(c: SC.ClientState): seq<Message> {
    seq(|c.requests|, i requires 0 <= i < |c.requests| => c.requests[i].message)
  }

  /** Request number i is that of call askers[i], and each call asks once. */
  predicate AskersInv(s: SS.ServerState) {
    && |s.askers| == |Requests(s.sent)|
    && (forall i :: 0 <= i < |s.askers| ==>
          && s.askers[i] < |s.calls| && s.calls[s.askers[i]].asked
          && Requests(s.sent)[i].gid == s.calls[s.askers[i]].gid)
    && (forall i, j :: 0 <= i < j < |s.askers| ==> s.askers[i] != s.askers[j])
  }

  lemma RequestsGrow(s: SS.ServerState, e: SS.Event)
    ensures Requests(SS.Step(s, e).sent)
         == Requests(s.sent)
            + if SS.Enabled(s, e) && e.Ask? then [Message(ServiceToClient, s.calls[e.id].gid, Some(e.data))] else []
    ensures SS.Step(s, e).askers == s.askers + if SS.Enabled(s, e) && e.Ask? then [e.id] else []
    ensures s.sent <= SS.Step(s, e).sent
  {
    if SS.Enabled(s, e) && e.Ask? {
      GatherSnoc(RequestOf, s.sent, Message(ServiceToClient, s.calls[e.id].gid, Some(e.data)));
    } else if SS.Enabled(s, e) && e.Return? && s.calls[e.id].slot.response.None? {
      GatherSnoc(RequestOf, s.sent, Message(ServiceToClientCancel, s.calls[e.id].gid, Some([])));
    } else {
      assert SS.Step(s, e).sent == s.sent;
    }
  }

  lemma AskersStep(s: SS.ServerState, e: SS.Event)
    requires SS.Inv(s) && AskersInv(s)
    ensures AskersInv(SS.Step(s, e))
  {
    RequestsGrow(s, e);
    SS.CallsOnlyGrow(s, e);
    if SS.Enabled(s, e) && e.Ask? {
      assert SS.CallInv(s.calls[e.id]);
    }
  }

  lemma ReceivedGrows(setup: SC.Setup, c: SC.ClientState, e: SC.Event)
    ensures Received(SC.Step(setup, c, e)) == Received(c) + if e.Arrive? && SC.Enabled(c, e) then [e.message] else []
    ensures c.replies <= SC.Step(setup, c, e).replies
  {
    assert Received(c) + [] == Received(c);
  }

  /** The client's requests are the server's, as far as they have travelled. */
  predicate Inv(s: System) {
    && s.taken <= |s.server.sent| && s.heard <= |s.client.replies|
    && SS.Inv(s.server) && SC.Inv(s.client) && AskersInv(s.server)
    && Received(s.client) == Requests(s.server.sent[..s.taken])
  }

  lemma ServerStepInv(setup: SC.Setup, s: System, se: SS.Event)
    requires Inv(s)
    ensures Inv(s.(server := SS.Step(s.server, se)))
  {
    SS.StepKeepsInv(s.server, se);
    AskersStep(s.server, se);
    RequestsGrow(s.server, se);
    assert SS.Step(s.server, se).sent[..s.taken] == s.server.sent[..s.taken];
  }

  lemma ArrivalInv(setup: SC.Setup, s: System)
    requires Inv(s) && s.taken < |s.server.sent|
    ensures Inv(Step(setup, s, ToClient))
  {
    var m := s.server.sent[s.taken];
    SC.StepKeepsInv(s.client, Arrival(m), setup);
    ReceivedGrows(setup, s.client, Arrival(m));
    GatherSnoc(RequestOf, s.server.sent[..s.taken], m);
    assert s.server.sent[..s.taken + 1] == s.server.sent[..s.taken] + [m];
  }

  lemma StepKeepsInv(setup: SC.Setup, s: System, e: Event)
    requires Inv(s)
    ensures Inv(Step(setup, s, e))
  {
    if IsLocal(e) && Underway(s, e) {
      match e
      case AtServer(se) => ServerStepInv(setup, s, se);
      case AtClient(ce) =>
        SC.StepKeepsInv(s.client, ce, setup);
        ReceivedGrows(setup, s.client, ce);
      case ToClient => ArrivalInv(setup, s);
      case ToServer => ServerStepInv(setup, s, SS.Deliver(s.client.replies[s.heard].message));
    }
  }

  lemma {:induction false} RunInv(setup: SC.Setup, es: seq<Event>)
    ensures Inv(Run(setup, es))
    decreases |es|
  {
    if es != [] {
      RunInv(setup, es[..|es| - 1]);
      StepKeepsInv(setup, Run(setup, es[..|es| - 1]), es[|es| - 1]);
    }
  }

  /** Reply number k answers a request, and a call sent that request. */
  lemma ReplyHasAsker(s: System, k: nat)
    requires Inv(s) && k < |s.client.replies|
    ensures var y := s.client.replies[k];
            && y.id < |s.server.askers| && s.server.askers[y.id] < |s.server.calls|
            && s.server.calls[s.server.askers[y.id]].asked && s.server.calls[s.server.askers[y.id]].gid == y.message.gid
  {
    var y := s.client.replies[k];
    assert SC.ReplyInv(s.client, k);
    RequestsPrefix(s);
    assert Received(s.client)[y.id] == Requests(s.server.sent)[y.id];
  }

  lemma RequestsPrefix(s: System)
    requires Inv(s)
    ensures Received(s.client) <= Requests(s.server.sent)
  {
    GatherConcat(RequestOf, s.server.sent[..s.taken], s.server.sent[s.taken..]);
    assert s.server.sent == s.server.sent[..s.taken] + s.server.sent[s.taken..];
  }

  /** The call whose request reply k answers. */
  function AskerOf(s: System, k: nat): nat
    requires Inv(s) && k < |s.client.replies|
    ensures AskerOf(s, k) < |s.server.calls|
  {
    ReplyHasAsker(s, k);
    s.server.askers[s.client.replies[k].id]
  }

  // ---------- what a response is ----------

  predicate Heard(s: System, k: nat, m: Message) {
    k < |s.client.replies| && s.client.replies[k].message == m
  }

  /** The call holds no response, or a reply that has been heard. */
  predicate FromClient(s: System, id: nat) {
    id < |s.server.calls| && s.server.calls[id].slot.response.Some? ==>
      exists k: nat :: k < s.heard && Heard(s, k, s.server.calls[id].slot.response.value)
  }

  lemma LocalStoresNothing(s: SS.ServerState, e: SS.Event, id: nat)
    requires !e.Deliver? && id < |SS.Step(s, e).calls| && SS.Step(s, e).calls[id].slot.response.Some?
    ensures id < |s.calls| && SS.Step(s, e).calls[id].slot.response == s.calls[id].slot.response
  {
  }

  lemma DeliveryStores(s: SS.ServerState, m: Message, id: nat)
    requires id < |SS.Step(s, SS.Deliver(m)).calls|
    ensures id < |s.calls|
    ensures var c, c' := s.calls[id], SS.Step(s, SS.Deliver(m)).calls[id];
            || c'.slot.response == c.slot.response
            || (c'.slot.response == Some(m) && c.slot.handling && m.gid in s.table && s.table[m.gid] == id)
  {
  }

  lemma StepFromClient(setup: SC.Setup, s: System, e: Event, id: nat)
    requires Inv(s) && FromClient(s, id)
    ensures FromClient(Step(setup, s, e), id)
  {
    var s' := Step(setup, s, e);
    if IsLocal(e) && Underway(s, e) && id < |s'.server.calls| && s'.server.calls[id].slot.response.Some? {
      match e {
        case AtServer(se) => LocalStoresNothing(s.server, se, id);
        case AtClient(ce) => ReceivedGrows(setup, s.client, ce);
        case ToClient => ReceivedGrows(setup, s.client, Arrival(s.server.sent[s.taken]));
        case ToServer => DeliveryStores(s.server, s.client.replies[s.heard].message, id);
      }
      var m := s'.server.calls[id].slot.response.value;
      if s.server.calls[id].slot.response == Some(m) {
        var k: nat :| k < s.heard && Heard(s, k, m);
        assert Heard(s', k, m);
      } else {
        assert Heard(s', s.heard, m);
      }
    }
  }

  lemma {:induction false} ResponsesAreReplies(setup: SC.Setup, es: seq<Event>, id: nat)
    ensures FromClient(Run(setup, es), id)
    decreases |es|
  {
    if es != [] {
      ResponsesAreReplies(setup, es[..|es| - 1], id);
      RunInv(setup, es[..|es| - 1]);
      StepFromClient(setup, Run(setup, es[..|es| - 1]), es[|es| - 1], id);
    }
  }

  /**
   * In every run, with whatever reuse of gids, a response sendAndWait returns
   * is a reply that ServiceClient made to a request some call with the same gid had sent.
   */
  lemma ReturnedResponseIsReply(setup: SC.Setup, es: seq<Event>, id: nat)
    requires id < |Run(setup, es).server.calls| && Run(setup, es).server.calls[id].stage.Returned?
    ensures var s := Run(setup, es);
            Inv(s) && exists k: nat ::
              && k < s.heard && Some(s.client.replies[k].message) == s.server.calls[id].slot.response
              && s.server.calls[AskerOf(s, k)].asked && s.server.calls[AskerOf(s, k)].gid == s.server.calls[id].gid
  {
    var s := Run(setup, es);
    RunInv(setup, es);
    ResponsesAreReplies(setup, es, id);
    assert SS.CallInv(s.server.calls[id]);
    var k: nat :| k < s.heard && Heard(s, k, s.server.calls[id].slot.response.value);
    ReplyHasAsker(s, k);
  }

  // ---------- at most one reply per request, across the connection ----------

  function One(b: bool): nat {
    if b then 1 else 0
  }

  /** How many of the first n replies have this gid. */
  function RepliedWith(replies: seq<SC.Reply>, n: nat, gid: Bytes): nat
    requires n <= |replies|
  {
    if n == 0 then 0 else RepliedWith(replies, n - 1, gid) + One(replies[n - 1].message.gid == gid)
  }

  /** The requests they answer. */
  function AnsweredBy(replies: seq<SC.Reply>, n: nat, gid: Bytes): set<nat>
    requires n <= |replies|
  {
    set k: nat | k < n && replies[k].message.gid == gid :: replies[k].id
  }

  lemma OneMoreAnswer(replies: seq<SC.Reply>, n: nat, gid: Bytes)
    requires n < |replies|
    ensures AnsweredBy(replies, n + 1, gid)
         == AnsweredBy(replies, n, gid) + if replies[n].message.gid == gid then {replies[n].id} else {}
  {
  }

  lemma {:induction false} AnswersAreDistinct(replies: seq<SC.Reply>, n: nat, gid: Bytes)
    requires n <= |replies|
    requires forall j, k :: 0 <= j < k < |replies| ==> replies[j].id != replies[k].id
    ensures |AnsweredBy(replies, n, gid)| == RepliedWith(replies, n, gid)
  {
    if n > 0 {
      AnswersAreDistinct(replies, n - 1, gid);
      OneMoreAnswer(replies, n - 1, gid);
      assert replies[n - 1].id !in AnsweredBy(replies, n - 1, gid);
    }
  }

  /** The numbers of the requests with this gid. */
  function RequestsWith(requests: seq<Message>, gid: Bytes): set<nat> {
    set i: nat | i < |requests| && requests[i].gid == gid
  }

  lemma {:induction false} AsksAreRequests(ms: seq<Message>, gid: Bytes)
    ensures |RequestsWith(Requests(ms), gid)| == |Gather((m: Message) => SS.RequestIn(m, gid), ms)|
    decreases |ms|
  {
    if ms != [] {
      var before, m := ms[..|ms| - 1], ms[|ms| - 1];
      assert ms == before + [m];
      AsksAreRequests(before, gid);
      GatherSnoc(RequestOf, before, m);
      GatherSnoc((m: Message) => SS.RequestIn(m, gid), before, m);
      OneMoreRequest(Requests(before), m, gid);
    }
  }

  lemma OneMoreRequest(requests: seq<Message>, m: Message, gid: Bytes)
    ensures RequestsWith(requests + RequestOf(m), gid)
         == RequestsWith(requests, gid) + if m.op.ServiceToClient? && m.gid == gid then {|requests|} else {}
    ensures |requests| !in RequestsWith(requests, gid)
  {
    if !m.op.ServiceToClient? { assert requests + [] == requests; }
  }

  lemma {:induction false} RepliesAreHeard(setup: SC.Setup, es: seq<Event>, gid: Bytes)
    ensures Inv(Run(setup, es))
    ensures SS.Replies(ServerEvents(setup, es), gid)
         == RepliedWith(Run(setup, es).client.replies, Run(setup, es).heard, gid)
    decreases |es|
  {
    RunInv(setup, es);
    if es != [] {
      var before, e := es[..|es| - 1], es[|es| - 1];
      var s := Run(setup, before);
      RepliesAreHeard(setup, before, gid);
      StepHears(setup, s, e, ServerEvents(setup, before), gid);
    }
  }

  lemma StepHears(setup: SC.Setup, s: System, e: Event, before: seq<SS.Event>, gid: Bytes)
    requires Inv(s) && Inv(Step(setup, s, e))
    requires SS.Replies(before, gid) == RepliedWith(s.client.replies, s.heard, gid)
    ensures SS.Replies(before + ServerEvent(s, e), gid)
         == RepliedWith(Step(setup, s, e).client.replies, Step(setup, s, e).heard, gid)
  {
    var s' := Step(setup, s, e);
    if ServerEvent(s, e) == [] {
      assert before + [] == before;
    } else {
      SS.RepliesGrow(before, ServerEvent(s, e)[0], gid);
      assert ServerEvent(s, e) == [ServerEvent(s, e)[0]];
    }
    if e.ToServer? && Underway(s, e) { assert SC.ReplyInv(s.client, s.heard); }
    if e.AtClient? && IsLocal(e) { ReceivedGrows(setup, s.client, e.ce); }
    if e.ToClient? && Underway(s, e) { ReceivedGrows(setup, s.client, Arrival(s.server.sent[s.taken])); }
    RepliedWithPrefix(s.client.replies, s'.client.replies, s.heard, gid);
  }

  lemma {:induction false} RepliedWithPrefix(a: seq<SC.Reply>, b: seq<SC.Reply>, n: nat, gid: Bytes)
    requires n <= |a| && a <= b
    ensures RepliedWith(a, n, gid) == RepliedWith(b, n, gid)
  {
    if n > 0 { RepliedWithPrefix(a, b, n - 1, gid); }
  }

  /** Heard replies answer distinct requests of their gid. */
  lemma AnsweredAreAsked(s: System, n: nat, gid: Bytes)
    requires Inv(s) && n <= |s.client.replies|
    ensures AnsweredBy(s.client.replies, n, gid) <= RequestsWith(Requests(s.server.sent), gid)
    ensures RepliedWith(s.client.replies, n, gid) <= SS.Asks(s.server, gid)
  {
    var answered, asked := AnsweredBy(s.client.replies, n, gid), RequestsWith(Requests(s.server.sent), gid);
    forall id | id in answered ensures id in asked {
      var k: nat :| k < n && s.client.replies[k].message.gid == gid && s.client.replies[k].id == id;
      ReplyHasAsker(s, k);
    }
    AnswersAreDistinct(s.client.replies, n, gid);
    AsksAreRequests(s.server.sent, gid);
    Smaller(answered, asked);
  }

  lemma Smaller(a: set<nat>, b: set<nat>)
    requires a <= b
    ensures |a| <= |b|
    ensures |a| == |b| ==> a == b
  {
    assert b == a + (b - a);
  }

  lemma OneReplyExtends(events: seq<SS.Event>, more: seq<SS.Event>)
    requires SS.OneReplyRun(events) && |more| <= 1
    requires more != [] && more[0].Deliver? && more[0].message.op.ServiceToServer? ==>
               SS.Replies(events, more[0].message.gid) < SS.Asks(SS.Run(events), more[0].message.gid)
    ensures SS.OneReplyRun(events + more)
  {
    if more == [] { assert events + more == events; } else { assert (events + more)[..|events|] == events; }
  }

  lemma NextReplyIsOwed(setup: SC.Setup, es: seq<Event>)
    requires Run(setup, es).heard < |Run(setup, es).client.replies|
    ensures var s := Run(setup, es);
            var gid := s.client.replies[s.heard].message.gid;
            SS.Replies(ServerEvents(setup, es), gid) < SS.Asks(s.server, gid)
  {
    var s := Run(setup, es);
    RepliesAreHeard(setup, es, s.client.replies[s.heard].message.gid);
    NextIsCounted(s);
  }

  lemma NextIsCounted(s: System)
    requires Inv(s) && s.heard < |s.client.replies|
    ensures var gid := s.client.replies[s.heard].message.gid;
            RepliedWith(s.client.replies, s.heard, gid) < SS.Asks(s.server, gid)
  {
    AnsweredAreAsked(s, s.heard + 1, s.client.replies[s.heard].message.gid);
  }

  /**
   * What the server hears in any run is one reply per request at most: ServiceClient meets what the
   * server relies on.
   */
  lemma {:induction false} ServerHearsOneReply(setup: SC.Setup, es: seq<Event>)
    ensures SS.OneReplyRun(ServerEvents(setup, es))
    decreases |es|
  {
    if es != [] {
      var before, e := es[..|es| - 1], es[|es| - 1];
      ServerHearsOneReply(setup, before);
      ServerIsRun(setup, before);
      if e.ToServer? && Underway(Run(setup, before), e) { NextReplyIsOwed(setup, before); }
      OneReplyExtends(ServerEvents(setup, before), ServerEvent(Run(setup, before), e));
    }
  }

  // ---------- a call's own response ----------

  /** Of the first `base` requests those with this gid are answered by the first `mark` replies. */
  predicate Settled(s: System, gid: Bytes, base: nat, mark: nat) {
    && base <= |Requests(s.server.sent)| && mark <= |s.client.replies|
    && forall i: nat :: i < base && Requests(s.server.sent)[i].gid == gid ==>
         i in AnsweredBy(s.client.replies, mark, gid)
  }

  /** Later requests with this call's gid are its own, as long as it goes on. */
  predicate AsksAlone(s: SS.ServerState, id: nat, base: nat)
    requires id < |s.calls| && AskersInv(s)
  {
    !s.calls[id].stage.Over? ==>
      forall i :: base <= i < |s.askers| && s.calls[s.askers[i]].gid == s.calls[id].gid ==> s.askers[i] == id
  }

  /** The call holds no response, or the reply to its own request. */
  predicate Own(s: System, id: nat)
    requires Inv(s)
  {
    && id < |s.server.calls|
    && (s.server.calls[id].slot.response.Some? ==>
          exists k: nat :: k < s.heard && Heard(s, k, s.server.calls[id].slot.response.value) && AskerOf(s, k) == id)
  }

  lemma SettledStays(setup: SC.Setup, s: System, e: Event, gid: Bytes, base: nat, mark: nat)
    requires Inv(s) && Settled(s, gid, base, mark)
    ensures Settled(Step(setup, s, e), gid, base, mark)
  {
    var s' := Step(setup, s, e);
    StepGrows(setup, s, e);
    assert AnsweredBy(s.client.replies, mark, gid) == AnsweredBy(s'.client.replies, mark, gid);
  }

  /** Histories only grow. */
  lemma StepGrows(setup: SC.Setup, s: System, e: Event)
    ensures var s' := Step(setup, s, e);
            && s.client.replies <= s'.client.replies && s.server.askers <= s'.server.askers
            && Requests(s.server.sent) <= Requests(s'.server.sent) && s.heard <= s'.heard
            && |s.server.calls| <= |s'.server.calls|
            && forall id: nat :: id < |s.server.calls| ==> s'.server.calls[id].gid == s.server.calls[id].gid
  {
    if IsLocal(e) && Underway(s, e) {
      match e
      case AtServer(se) =>
        RequestsGrow(s.server, se);
        SS.CallsOnlyGrow(s.server, se);
      case AtClient(ce) => ReceivedGrows(setup, s.client, ce);
      case ToClient => ReceivedGrows(setup, s.client, Arrival(s.server.sent[s.taken]));
      case ToServer =>
        RequestsGrow(s.server, SS.Deliver(s.client.replies[s.heard].message));
        SS.CallsOnlyGrow(s.server, SS.Deliver(s.client.replies[s.heard].message));
    }
  }

  lemma AsksAloneStays(s: SS.ServerState, e: SS.Event, id: nat, base: nat)
    requires SS.Inv(s) && SS.AllLinked(s) && AskersInv(s) && AskersInv(SS.Step(s, e))
    requires id < |s.calls| && base <= |s.askers| && AsksAlone(s, id, base)
    ensures id < |SS.Step(s, e).calls| && AsksAlone(SS.Step(s, e), id, base)
  {
    var s' := SS.Step(s, e);
    RequestsGrow(s, e);
    SS.CallsOnlyGrow(s, e);
    if s.calls[id].stage.Over? { OverStays(s, e, id); }
    if !s'.calls[id].stage.Over? && SS.Enabled(s, e) && e.Ask? && s.calls[e.id].gid == s.calls[id].gid {
      assert SS.Linked(s, id) && SS.Linked(s, e.id);
    }
  }

  lemma OverStays(s: SS.ServerState, e: SS.Event, id: nat)
    requires id < |s.calls| && s.calls[id].stage.Over?
    ensures SS.Step(s, e).calls[id].stage.Over?
  {
  }

  /** After the settled replies, a reply with the call's gid answers its own request. */
  lemma LaterReplyIsOwn(s: System, id: nat, base: nat, mark: nat, k: nat)
    requires Inv(s) && id < |s.server.calls| && Settled(s, s.server.calls[id].gid, base, mark)
    requires AsksAlone(s.server, id, base) && !s.server.calls[id].stage.Over?
    requires mark <= k < |s.client.replies| && s.client.replies[k].message.gid == s.server.calls[id].gid
    ensures AskerOf(s, k) == id
  {
    var gid, y := s.server.calls[id].gid, s.client.replies[k];
    ReplyHasAsker(s, k);
    assert y.id !in AnsweredBy(s.client.replies, mark, gid);
    assert y.id >= base;
  }

  lemma AskerStays(setup: SC.Setup, s: System, e: Event, k: nat)
    requires Inv(s) && Inv(Step(setup, s, e)) && k < |s.client.replies|
    ensures k < |Step(setup, s, e).client.replies| && Step(setup, s, e).client.replies[k] == s.client.replies[k]
    ensures AskerOf(Step(setup, s, e), k) == AskerOf(s, k)
  {
    StepGrows(setup, s, e);
    ReplyHasAsker(s, k);
  }

  lemma OwnStays(setup: SC.Setup, s: System, e: Event, id: nat, base: nat, mark: nat)
    requires Inv(s) && Inv(Step(setup, s, e)) && Own(s, id) && mark <= s.heard
    requires Settled(s, s.server.calls[id].gid, base, mark) && AsksAlone(s.server, id, base)
    ensures Own(Step(setup, s, e), id)
  {
    var s' := Step(setup, s, e);
    StepGrows(setup, s, e);
    if s'.server.calls[id].slot.response.Some? {
      if s'.server.calls[id].slot.response == s.server.calls[id].slot.response {
        var k: nat :| k < s.heard && Heard(s, k, s.server.calls[id].slot.response.value) && AskerOf(s, k) == id;
        AskerStays(setup, s, e, k);
      } else {
        NewResponseIsHeard(setup, s, e, id);
        assert SS.CallInv(s.server.calls[id]);
        LaterReplyIsOwn(s, id, base, mark, s.heard);
        AskerStays(setup, s, e, s.heard);
      }
    }
  }

  /** A response appears only by hearing the next reply, while the call's flag is up. */
  lemma NewResponseIsHeard(setup: SC.Setup, s: System, e: Event, id: nat)
    requires Inv(s) && id < |s.server.calls| && id < |Step(setup, s, e).server.calls|
    requires Step(setup, s, e).server.calls[id].slot.response.Some?
    requires Step(setup, s, e).server.calls[id].slot.response != s.server.calls[id].slot.response
    ensures e.ToServer? && s.heard < |s.client.replies| && s.server.calls[id].slot.handling
    ensures Step(setup, s, e).heard == s.heard + 1
    ensures Step(setup, s, e).server.calls[id].slot.response == Some(s.client.replies[s.heard].message)
    ensures s.client.replies[s.heard].message.gid == s.server.calls[id].gid
  {
    if e.AtServer? && IsLocal(e) { LocalStoresNothing(s.server, e.se, id); }
    if e.ToServer? && Underway(s, e) {
      var m := s.client.replies[s.heard].message;
      DeliveryStores(s.server, m, id);
      if m.gid in s.server.table { assert SS.Filed(s.server, m.gid); }
    }
  }

  /** The run in which a call begins, and what follows. */
  function Begun(pre: seq<Event>, gid: Bytes, limits: Limits, more: seq<Event>): seq<Event> {
    pre + [AtServer(SS.Begin(gid, limits))] + more
  }

  /** No call begins while a handle with its gid is in the table. */
  predicate FreshRun(setup: SC.Setup, es: seq<Event>) {
    SS.FreshRun(ServerEvents(setup, es))
  }

  /** Every request with this gid has been answered, and the answer heard. */
  predicate NothingOwed(setup: SC.Setup, es: seq<Event>, gid: Bytes) {
    SS.Replies(ServerEvents(setup, es), gid) == SS.Asks(Run(setup, es).server, gid)
  }

  lemma RunSnoc(setup: SC.Setup, es: seq<Event>, e: Event)
    ensures Run(setup, es + [e]) == Step(setup, Run(setup, es), e)
    ensures ServerEvents(setup, es + [e]) == ServerEvents(setup, es) + ServerEvent(Run(setup, es), e)
  {
    assert (es + [e])[..|es|] == es;
  }

  lemma FreshPrefix(events: seq<SS.Event>, more: seq<SS.Event>)
    requires |more| <= 1 && SS.FreshRun(events + more)
    ensures SS.FreshRun(events)
  {
    if more == [] { assert events + more == events; } else { assert (events + more)[..|events|] == events; }
  }

  lemma FreshExtends(events: seq<SS.Event>, more: seq<SS.Event>)
    requires SS.FreshRun(events) && |more| <= 1
    requires more != [] && more[0].Begin? ==> more[0].gid !in SS.Run(events).table
    ensures SS.FreshRun(events + more)
  {
    if more == [] { assert events + more == events; } else { assert (events + more)[..|events|] == events; }
  }

  lemma FreshIsLinked(setup: SC.Setup, es: seq<Event>)
    requires FreshRun(setup, es)
    ensures SS.AllLinked(Run(setup, es).server)
  {
    ServerIsRun(setup, es);
    SS.FreshCallsAreLinked(ServerEvents(setup, es));
  }

  lemma NothingOwedIsSettled(setup: SC.Setup, es: seq<Event>, gid: Bytes)
    requires NothingOwed(setup, es, gid)
    ensures var s := Run(setup, es); Inv(s) && Settled(s, gid, |s.server.askers|, s.heard)
  {
    var s := Run(setup, es);
    RepliesAreHeard(setup, es, gid);
    AnsweredAreAsked(s, s.heard, gid);
    AnswersAreDistinct(s.client.replies, s.heard, gid);
    AsksAreRequests(s.server.sent, gid);
    Smaller(AnsweredBy(s.client.replies, s.heard, gid), RequestsWith(Requests(s.server.sent), gid));
  }

  predicate OwnState(s: System, id: nat, gid: Bytes, base: nat, mark: nat) {
    && Inv(s) && id < |s.server.calls| && s.server.calls[id].gid == gid
    && base <= |s.server.askers| && mark <= s.heard
    && Settled(s, gid, base, mark) && AsksAlone(s.server, id, base) && Own(s, id)
  }

  lemma BeginIsOwn(setup: SC.Setup, pre: seq<Event>, gid: Bytes, limits: Limits)
    requires NothingOwed(setup, pre, gid)
    ensures var s := Run(setup, pre);
            OwnState(Step(setup, s, AtServer(SS.Begin(gid, limits))), |s.server.calls|, gid, |s.server.askers|, s.heard)
  {
    var s, e := Run(setup, pre), AtServer(SS.Begin(gid, limits));
    NothingOwedIsSettled(setup, pre, gid);
    StepKeepsInv(setup, s, e);
    SettledStays(setup, s, e, gid, |s.server.askers|, s.heard);
  }

  lemma OwnStateStays(setup: SC.Setup, s: System, e: Event, id: nat, gid: Bytes, base: nat, mark: nat)
    requires OwnState(s, id, gid, base, mark) && SS.AllLinked(s.server)
    ensures OwnState(Step(setup, s, e), id, gid, base, mark)
  {
    StepKeepsInv(setup, s, e);
    StepGrows(setup, s, e);
    SettledStays(setup, s, e, gid, base, mark);
    OwnStays(setup, s, e, id, base, mark);
    if e.AtServer? { AsksAloneStays(s.server, e.se, id, base); }
    if e.ToServer? && Underway(s, e) {
      AsksAloneStays(s.server, SS.Deliver(s.client.replies[s.heard].message), id, base);
    }
  }

  lemma NextIsOwn(setup: SC.Setup, before: seq<Event>, e: Event, id: nat, gid: Bytes, base: nat, mark: nat)
    requires FreshRun(setup, before) && OwnState(Run(setup, before), id, gid, base, mark)
    ensures OwnState(Run(setup, before + [e]), id, gid, base, mark)
  {
    RunSnoc(setup, before, e);
    FreshIsLinked(setup, before);
    OwnStateStays(setup, Run(setup, before), e, id, gid, base, mark);
  }

  lemma WasFresh(setup: SC.Setup, before: seq<Event>, e: Event)
    requires FreshRun(setup, before + [e])
    ensures FreshRun(setup, before)
  {
    RunSnoc(setup, before, e);
    FreshPrefix(ServerEvents(setup, before), ServerEvent(Run(setup, before), e));
  }

  lemma {:induction false} OwnInEveryContinuation(
      setup: SC.Setup, pre: seq<Event>, gid: Bytes, limits: Limits, more: seq<Event>)
    requires FreshRun(setup, Begun(pre, gid, limits, more)) && NothingOwed(setup, pre, gid)
    ensures var s := Run(setup, pre);
            OwnState(Run(setup, Begun(pre, gid, limits, more)), |s.server.calls|, gid, |s.server.askers|, s.heard)
    decreases |more|
  {
    var s := Run(setup, pre);
    if more == [] {
      assert Begun(pre, gid, limits, more) == pre + [AtServer(SS.Begin(gid, limits))];
      RunSnoc(setup, pre, AtServer(SS.Begin(gid, limits)));
      BeginIsOwn(setup, pre, gid, limits);
    } else {
      var before, e := Begun(pre, gid, limits, more[..|more| - 1]), more[|more| - 1];
      assert Begun(pre, gid, limits, more) == before + [e];
      WasFresh(setup, before, e);
      OwnInEveryContinuation(setup, pre, gid, limits, more[..|more| - 1]);
      NextIsOwn(setup, before, e, |s.server.calls|, gid, |s.server.askers|, s.heard);
    }
  }

  // ---------- an owed response reaches the wrong call ----------

  /** Another run of the same server: more of the connection and the client, nothing new for the server. */
  predicate SameServer(setup: SC.Setup, es: seq<Event>, es': seq<Event>) {
    var s, s' := Run(setup, es), Run(setup, es');
    && s'.server == s.server && s'.heard == s.heard && s.client.replies <= s'.client.replies
    && ServerEvents(setup, es') == ServerEvents(setup, es)
  }

  /** Everything sent can be delivered. */
  lemma {:induction false} DeliverAll(setup: SC.Setup, es: seq<Event>) returns (more: seq<Event>)
    ensures SameServer(setup, es, es + more) && Run(setup, es + more).taken == |Run(setup, es + more).server.sent|
    decreases |Run(setup, es).server.sent| - Run(setup, es).taken
  {
    var s := Run(setup, es);
    RunInv(setup, es);
    if s.taken == |s.server.sent| {
      more := [];
      assert es + more == es;
    } else {
      DeliverOne(setup, es);
      var rest := DeliverAll(setup, es + [ToClient]);
      more := [ToClient] + rest;
      Assoc(es, [ToClient], rest);
      SameServerTwice(setup, es, es + [ToClient], es + more);
    }
  }

  lemma SameServerTwice(setup: SC.Setup, a: seq<Event>, b: seq<Event>, c: seq<Event>)
    requires SameServer(setup, a, b) && SameServer(setup, b, c)
    ensures SameServer(setup, a, c)
  {
  }

  lemma DeliverOne(setup: SC.Setup, es: seq<Event>)
    requires Inv(Run(setup, es)) && Run(setup, es).taken < |Run(setup, es).server.sent|
    ensures SameServer(setup, es, es + [ToClient]) && Run(setup, es + [ToClient]).taken == Run(setup, es).taken + 1
  {
    RunSnoc(setup, es, ToClient);
    StepGrows(setup, Run(setup, es), ToClient);
    assert ServerEvents(setup, es) + [] == ServerEvents(setup, es);
  }

  /** Reply k is still to be heard and has this gid. */
  predicate ToHear(s: System, gid: Bytes, k: nat) {
    s.heard <= k < |s.client.replies| && s.client.replies[k].message.gid == gid
  }

  /** An owed request that has arrived and is not answered is open, so the client may answer it now. */
  lemma OpenRequest(s: System, gid: Bytes) returns (i: nat)
    requires Inv(s) && s.taken == |s.server.sent|
    requires RepliedWith(s.client.replies, s.heard, gid) < SS.Asks(s.server, gid)
    requires forall k: nat :: !ToHear(s, gid, k)
    ensures i < |s.client.requests| && s.client.requests[i].message.gid == gid && SC.Open(s.client.requests[i])
  {
    var answered, asked := AnsweredBy(s.client.replies, s.heard, gid), RequestsWith(Requests(s.server.sent), gid);
    AnswersAreDistinct(s.client.replies, s.heard, gid);
    AsksAreRequests(s.server.sent, gid);
    if asked <= answered { Smaller(asked, answered); }
    i :| i in asked && i !in answered;
    assert s.server.sent[..s.taken] == s.server.sent;
    assert Received(s.client)[i].gid == gid;
    forall k: nat | k < |s.client.replies| ensures s.client.replies[k].id != i {
      assert SC.ReplyInv(s.client, k);
      assert !ToHear(s, gid, k);
    }
  }

  /** The event by which the client answers an open request. */
  function AnswerEvent(r: SC.Request, i: nat): SC.Event {
    if r.stage.Checking? then SC.Examine(i, false, false) else SC.CallbackSends(i, [])
  }

  lemma AnswerEventAnswers(setup: SC.Setup, c: SC.ClientState, i: nat)
    requires i < |c.requests| && SC.Open(c.requests[i])
    ensures var c' := SC.Step(setup, c, AnswerEvent(c.requests[i], i));
            |c'.replies| == |c.replies| + 1 && c.replies <= c'.replies
            && c'.replies[|c.replies|].message.gid == c.requests[i].message.gid
  {
  }

  lemma AnswerOwed(setup: SC.Setup, es: seq<Event>, gid: Bytes) returns (more: seq<Event>, k: nat)
    requires Run(setup, es).taken == |Run(setup, es).server.sent|
    requires SS.Replies(ServerEvents(setup, es), gid) < SS.Asks(Run(setup, es).server, gid)
    ensures SameServer(setup, es, es + more) && ToHear(Run(setup, es + more), gid, k)
  {
    var s := Run(setup, es);
    RunInv(setup, es);
    RepliesAreHeard(setup, es, gid);
    if j: nat :| ToHear(s, gid, j) {
      more, k := [], j;
      assert es + more == es;
    } else {
      var i := OpenRequest(s, gid);
      var e := AtClient(AnswerEvent(s.client.requests[i], i));
      more, k := [e], |s.client.replies|;
      RunSnoc(setup, es, e);
      AnswerEventAnswers(setup, s.client, i);
      assert ServerEvents(setup, es) + [] == ServerEvents(setup, es);
    }
  }

  /** The call is the table's own and waits for a response. */
  predicate Listening(s: SS.ServerState, id: nat, gid: Bytes) {
    && id < |s.calls| && s.calls[id].gid == gid && SS.Linked(s, id)
    && s.calls[id].slot.handling && !s.calls[id].asked
  }

  lemma HearOne(setup: SC.Setup, s: System, id: nat, gid: Bytes)
    requires Inv(s) && s.heard < |s.client.replies| && Listening(s.server, id, gid)
    ensures var s' := Step(setup, s, ToServer);
            && Listening(s'.server, id, gid) && s'.client == s.client
            && (s.client.replies[s.heard].message.gid == gid ==> s'.server.calls[id].slot.response.Some?)
  {
    assert SC.ReplyInv(s.client, s.heard);
    var m := s.client.replies[s.heard].message;
    if m.gid in s.server.table { assert SS.Filed(s.server, m.gid); }
  }

  lemma {:induction false} HearUntil(setup: SC.Setup, es: seq<Event>, id: nat, gid: Bytes, k: nat)
    returns (more: seq<Event>)
    requires FreshRun(setup, es) && Listening(Run(setup, es).server, id, gid) && ToHear(Run(setup, es), gid, k)
    ensures FreshRun(setup, es + more)
    ensures var s := Run(setup, es + more);
            id < |s.server.calls| && s.server.calls[id].slot.response.Some? && !s.server.calls[id].asked
    decreases k - Run(setup, es).heard
  {
    HearNext(setup, es, id, gid, k);
    if Run(setup, es).client.replies[Run(setup, es).heard].message.gid == gid {
      more := [ToServer];
    } else {
      var rest := HearUntil(setup, es + [ToServer], id, gid, k);
      more := [ToServer] + rest;
      Assoc(es, [ToServer], rest);
    }
  }

  lemma HearingIsFresh(setup: SC.Setup, es: seq<Event>)
    requires FreshRun(setup, es)
    ensures FreshRun(setup, es + [ToServer])
  {
    RunSnoc(setup, es, ToServer);
    FreshExtends(ServerEvents(setup, es), ServerEvent(Run(setup, es), ToServer));
  }

  /** What hearing one reply does to a listening call: it has its response now, or goes on listening. */
  predicate HeardOn(s: System, s': System, id: nat, gid: Bytes, k: nat)
    requires s.heard < |s.client.replies|
  {
    && s'.heard == s.heard + 1 && Listening(s'.server, id, gid)
    && if s.client.replies[s.heard].message.gid == gid then s'.server.calls[id].slot.response.Some?
       else ToHear(s', gid, k)
  }

  lemma HearStep(setup: SC.Setup, s: System, id: nat, gid: Bytes, k: nat)
    requires Inv(s) && Listening(s.server, id, gid) && ToHear(s, gid, k)
    ensures HeardOn(s, Step(setup, s, ToServer), id, gid, k)
  {
    HearOne(setup, s, id, gid);
  }

  lemma HearNext(setup: SC.Setup, es: seq<Event>, id: nat, gid: Bytes, k: nat)
    requires FreshRun(setup, es) && Listening(Run(setup, es).server, id, gid) && ToHear(Run(setup, es), gid, k)
    ensures FreshRun(setup, es + [ToServer])
    ensures HeardOn(Run(setup, es), Run(setup, es + [ToServer]), id, gid, k)
  {
    RunInv(setup, es);
    RunSnoc(setup, es, ToServer);
    HearStep(setup, Run(setup, es), id, gid, k);
    HearingIsFresh(setup, es);
  }

  /** A step of the server that neither asks nor hears leaves what is owed as it is. */
  lemma LocalKeepsOwed(setup: SC.Setup, es: seq<Event>, se: SS.Event, gid: Bytes)
    requires !se.Deliver? && !se.Ask?
    ensures Run(setup, es + [AtServer(se)]) == Run(setup, es).(server := SS.Step(Run(setup, es).server, se))
    ensures ServerEvents(setup, es + [AtServer(se)]) == ServerEvents(setup, es) + [se]
    ensures SS.Asks(Run(setup, es + [AtServer(se)]).server, gid) == SS.Asks(Run(setup, es).server, gid)
    ensures SS.Replies(ServerEvents(setup, es + [AtServer(se)]), gid) == SS.Replies(ServerEvents(setup, es), gid)
  {
    RunSnoc(setup, es, AtServer(se));
    SS.AsksGrow(Run(setup, es).server, se, gid);
    SS.RepliesGrow(ServerEvents(setup, es), se, gid);
  }

  lemma LocalIsFresh(setup: SC.Setup, es: seq<Event>, se: SS.Event)
    requires FreshRun(setup, es) && !se.Deliver? && (se.Begin? ==> se.gid !in Run(setup, es).server.table)
    ensures FreshRun(setup, es + [AtServer(se)])
  {
    RunSnoc(setup, es, AtServer(se));
    ServerIsRun(setup, es);
    FreshExtends(ServerEvents(setup, es), [se]);
  }

  lemma RaisedListens(s: SS.ServerState, gid: Bytes, limits: Limits)
    requires gid !in s.table
    ensures Listening(SS.Step(SS.Step(s, SS.Begin(gid, limits)), SS.RaiseFlag(|s.calls|)), |s.calls|, gid)
  {
  }

  lemma BeginListens(setup: SC.Setup, pre: seq<Event>, gid: Bytes, limits: Limits)
    requires FreshRun(setup, pre) && gid !in Run(setup, pre).server.table
    ensures var id := |Run(setup, pre).server.calls|;
            var es := Begun(pre, gid, limits, [AtServer(SS.RaiseFlag(id))]);
            && FreshRun(setup, es) && Listening(Run(setup, es).server, id, gid)
            && SS.Asks(Run(setup, es).server, gid) == SS.Asks(Run(setup, pre).server, gid)
            && SS.Replies(ServerEvents(setup, es), gid) == SS.Replies(ServerEvents(setup, pre), gid)
  {
    var b, r := SS.Begin(gid, limits), SS.RaiseFlag(|Run(setup, pre).server.calls|);
    LocalKeepsOwed(setup, pre, b, gid);
    LocalIsFresh(setup, pre, b);
    LocalKeepsOwed(setup, pre + [AtServer(b)], r, gid);
    LocalIsFresh(setup, pre + [AtServer(b)], r);
    RaisedListens(Run(setup, pre).server, gid, limits);
  }

  /** If a response is owed, some continuation gives the new call a response before it has asked. */
  lemma OwedReachesNewCall(setup: SC.Setup, pre: seq<Event>, gid: Bytes, limits: Limits) returns (more: seq<Event>)
    requires FreshRun(setup, pre) && gid !in Run(setup, pre).server.table
    requires SS.Replies(ServerEvents(setup, pre), gid) < SS.Asks(Run(setup, pre).server, gid)
    ensures FreshRun(setup, Begun(pre, gid, limits, more))
    ensures var s, id := Run(setup, Begun(pre, gid, limits, more)), |Run(setup, pre).server.calls|;
            id < |s.server.calls| && s.server.calls[id].slot.response.Some? && !s.server.calls[id].asked
  {
    var id := |Run(setup, pre).server.calls|;
    var raise := [AtServer(SS.RaiseFlag(id))];
    var es := Begun(pre, gid, limits, raise);
    BeginListens(setup, pre, gid, limits);
    var delivered := DeliverAll(setup, es);
    var answered, k := AnswerOwed(setup, es + delivered, gid);
    SameServerTwice(setup, es, es + delivered, es + delivered + answered);
    var heard := HearUntil(setup, es + delivered + answered, id, gid, k);
    more := raise + delivered + answered + heard;
    Regroup(pre + [AtServer(SS.Begin(gid, limits))], raise, delivered, answered, heard);
    assert es == pre + [AtServer(SS.Begin(gid, limits))] + raise;
  }

  lemma Regroup(a: seq<Event>, b: seq<Event>, c: seq<Event>, d: seq<Event>, e: seq<Event>)
    ensures a + (b + c + d + e) == a + b + c + d + e
  {
    Assoc(a, b + c + d, e);
    Assoc(a, b + c, d);
    Assoc(a, b, c);
  }

  /** The call holds no response but the reply to its own request. */
  predicate Correlated(s: System, id: nat) {
    Inv(s) && Own(s, id)
  }

  /**
   * Correlation across the connection, exactly. A call begins while no handle
   * with its gid is in the table. In every continuation whatever response it
   * holds is the client's reply to its own request if and only if, when it
   * begins, every earlier request with this gid has been answered and heard.
   */
  lemma CorrelatedIffNothingOwed(setup: SC.Setup, pre: seq<Event>, gid: Bytes, limits: Limits)
    requires FreshRun(setup, pre) && gid !in Run(setup, pre).server.table
    ensures (forall more :: FreshRun(setup, Begun(pre, gid, limits, more))
                 ==> Correlated(Run(setup, Begun(pre, gid, limits, more)), |Run(setup, pre).server.calls|))
       <==> NothingOwed(setup, pre, gid)
  {
    var id := |Run(setup, pre).server.calls|;
    if NothingOwed(setup, pre, gid) {
      forall more | FreshRun(setup, Begun(pre, gid, limits, more))
        ensures Correlated(Run(setup, Begun(pre, gid, limits, more)), id)
      {
        OwnInEveryContinuation(setup, pre, gid, limits, more);
      }
    } else {
      ServerHearsOneReply(setup, pre);
      ServerIsRun(setup, pre);
      SS.RepliesAreBounded(ServerEvents(setup, pre), gid);
      var more := OwedReachesNewCall(setup, pre, gid, limits);
      EarlyIsNotOwn(Run(setup, Begun(pre, gid, limits, more)), id);
    }
  }

  lemma EarlyIsNotOwn(s: System, id: nat)
    requires id < |s.server.calls| && s.server.calls[id].slot.response.Some? && !s.server.calls[id].asked
    ensures !Correlated(s, id)
  {
    if Inv(s) && Own(s, id) {
      var k: nat :| k < s.heard && Heard(s, k, s.server.calls[id].slot.response.value) && AskerOf(s, k) == id;
      ReplyHasAsker(s, k);
      assert false;
    }
  }

  // ---------- a request with a known gid ----------

  /**
   * Two calls at once with one gid: the client answers the second request with
   * its error, and that reply is stored by the call the table names, which is the first.
   */
  lemma DuplicateErrorReachesEarlierCall(setup: SC.Setup, s: System, first: nat)
    requires Inv(s) && first < |s.server.calls| && SS.Linked(s.server, first) && s.server.calls[first].slot.handling
    requires s.heard == |s.client.replies| && s.taken < |s.server.sent|
    requires var m := s.server.sent[s.taken];
             m.op.ServiceToClient? && m.gid == s.server.calls[first].gid && m.gid in s.client.table
    ensures var s' := Step(setup, Step(setup, s, ToClient), ToServer);
            && first < |s'.server.calls|
            && s'.server.calls[first].slot.response
            == Some(Message(ServiceToServer, s.server.calls[first].gid, Some(setup.error)))
  {
    var m := s.server.sent[s.taken];
    var arrived := Step(setup, s, ToClient);
    assert arrived.client.replies == s.client.replies + [SC.ReplyTo(|s.client.requests|, m.gid, setup.error)];
    assert arrived.client.replies[s.heard].message == Message(ServiceToServer, m.gid, Some(setup.error));
  }
}
