/**
 * What sendAndWait returns, end to end: the data the local service on the
 * other side provided for a request, or its error reply.
 */
module ServiceContent {
  import opened Types
  import opened Sequences
  import opened ServiceSystem
  import H = ServiceHistory
  import SS = ServiceServer
  import SC = ServiceClient

  // ---------- the client's part of a run ----------

  function ClientEvent(s: System, e: Event): seq<SC.Event> {
    if !IsLocal(e) || !Underway(s, e) then []
    else match e
      case AtClient(ce) => [ce]
      case ToClient => [Arrival(s.server.sent[s.taken])]
      case _ => []
  }

  /** What a run is for the client. */
  function ClientEvents(setup: SC.Setup, es: seq<Event>): seq<SC.Event>
    decreases |es|
  {
    if es == [] then [] else ClientEvents(setup, es[..|es| - 1]) + ClientEvent(Run(setup, es[..|es| - 1]), es[|es| - 1])
  }

  lemma ClientRunExtends(setup: SC.Setup, before: seq<SC.Event>, more: seq<SC.Event>)
    requires |more| <= 1
    ensures SC.Run(setup, before + more)
         == if more == [] then SC.Run(setup, before) else SC.Step(setup, SC.Run(setup, before), more[0])
  {
    if more == [] { AppendNothing(before); } else { H.RequestRunSnoc(setup, before, more[0]); }
  }

  lemma {:induction false} ClientIsRun(setup: SC.Setup, es: seq<Event>)
    ensures Run(setup, es).client == SC.Run(setup, ClientEvents(setup, es))
    decreases |es|
  {
    if es != [] {
      var before := es[..|es| - 1];
      ClientIsRun(setup, before);
      ClientRunExtends(setup, ClientEvents(setup, before), ClientEvent(Run(setup, before), es[|es| - 1]));
    }
  }

  // ---------- what a request carries ----------

  /** The call sends its request with this data. */
  predicate Asks(s: SS.ServerState, e: SS.Event, id: nat, data: Bytes) {
    e == SS.Ask(id, data) && id < |s.calls| && s.calls[id].stage.FlagRaised?
  }

  predicate Asked(es: seq<SS.Event>, id: nat, data: Bytes)
    decreases |es|
  {
    es != [] && (Asked(es[..|es| - 1], id, data) || Asks(SS.Run(es[..|es| - 1]), es[|es| - 1], id, data))
  }

  /** Request number i carries what its call asked with. */
  ghost predicate CarriesAsked(s: SS.ServerState, es: seq<SS.Event>, i: nat)
    requires i < |s.askers| && i < |Requests(s.sent)|
  {
    exists data :: Requests(s.sent)[i].content == Some(data) && Asked(es, s.askers[i], data)
  }

  lemma CarriesOn(s: SS.ServerState, s': SS.ServerState, before: seq<SS.Event>, es: seq<SS.Event>, i: nat)
    requires i < |s.askers| && s.askers <= s'.askers && i < |Requests(s.sent)| && Requests(s.sent) <= Requests(s'.sent)
    requires es != [] && es[..|es| - 1] == before && CarriesAsked(s, before, i)
    ensures CarriesAsked(s', es, i)
  {
    var data :| Requests(s.sent)[i].content == Some(data) && Asked(before, s.askers[i], data);
    assert Asked(es, s'.askers[i], data);
  }

  lemma NewCarriesAsked(s: SS.ServerState, e: SS.Event, es: seq<SS.Event>)
    requires AskersInv(s) && es != [] && SS.Run(es[..|es| - 1]) == s && es[|es| - 1] == e
    requires |s.askers| < |SS.Step(s, e).askers| && |s.askers| < |Requests(SS.Step(s, e).sent)|
    ensures CarriesAsked(SS.Step(s, e), es, |s.askers|)
  {
    RequestsGrow(s, e);
    assert Asked(es, e.id, e.data);
  }

  lemma {:induction false} RequestsCarryAsked(es: seq<SS.Event>)
    ensures AskersInv(SS.Run(es))
    ensures forall i: nat :: i < |SS.Run(es).askers| ==> CarriesAsked(SS.Run(es), es, i)
    decreases |es|
  {
    if es != [] {
      var before, e := es[..|es| - 1], es[|es| - 1];
      var s := SS.Run(before);
      RequestsCarryAsked(before);
      SS.RunInv(before);
      AskersStep(s, e);
      RequestsGrow(s, e);
      forall i: nat | i < |SS.Run(es).askers| ensures CarriesAsked(SS.Run(es), es, i) {
        if i < |s.askers| { CarriesOn(s, SS.Step(s, e), before, es, i); } else { NewCarriesAsked(s, e, es); }
      }
    }
  }

  // ---------- what a call returns ----------

  /** Reply k answers a request its call sent with `asked`, and carries `answer`. */
  ghost predicate Answers(setup: SC.Setup, es: seq<Event>, k: nat, asked: Bytes, answer: Bytes) {
    var s := Run(setup, es);
    && Inv(s) && k < s.heard
    && var id := s.client.replies[k].id;
    && id < |s.client.requests|
    && s.client.requests[id].message
       == Message(ServiceToClient, s.server.calls[AskerOf(s, k)].gid, Some(asked))
    && Asked(ServerEvents(setup, es), AskerOf(s, k), asked)
    && (if H.TurnedAway(setup, ClientEvents(setup, es), id) then answer == setup.error
        else H.Provided(setup, ClientEvents(setup, es), id, answer))
  }

  lemma ReplyAnswers(setup: SC.Setup, es: seq<Event>, k: nat) returns (asked: Bytes, answer: Bytes)
    requires k < Run(setup, es).heard
    ensures Answers(setup, es, k, asked, answer)
    ensures Run(setup, es).client.replies[k].message.content == Some(answer)
  {
    var s := Run(setup, es);
    RunInv(setup, es);
    ServerIsRun(setup, es);
    ClientIsRun(setup, es);
    var y := s.client.replies[k];
    H.ReplyContent(setup, ClientEvents(setup, es), k);
    answer := y.message.content.value;
    asked := AskedOf(setup, es, k);
  }

  /** The data reply k's request carried from its call to the client. */
  lemma AskedOf(setup: SC.Setup, es: seq<Event>, k: nat) returns (asked: Bytes)
    requires Inv(Run(setup, es)) && k < Run(setup, es).heard
    ensures var s := Run(setup, es);
            && s.client.replies[k].id < |s.client.requests|
            && s.client.requests[s.client.replies[k].id].message
               == Message(ServiceToClient, s.server.calls[AskerOf(s, k)].gid, Some(asked))
            && Asked(ServerEvents(setup, es), AskerOf(s, k), asked)
  {
    var s, events := Run(setup, es), ServerEvents(setup, es);
    ServerIsRun(setup, es);
    ReplyHasAsker(s, k);
    RequestsPrefix(s);
    RequestsCarryAsked(events);
    var id := s.client.replies[k].id;
    assert SC.ReplyInv(s.client, k);
    assert Received(s.client)[id] == Requests(s.server.sent)[id];
    assert CarriesAsked(s.server, events, id);
    asked :| Requests(s.server.sent)[id].content == Some(asked) && Asked(events, s.server.askers[id], asked);
    RequestsAreRequests(s.server.sent, id);
  }

  lemma {:induction false} RequestsAreRequests(ms: seq<Message>, i: nat)
    requires i < |Requests(ms)|
    ensures Requests(ms)[i].op.ServiceToClient?
  {
    GatherHead(RequestOf, ms);
    if i >= |RequestOf(ms[0])| { RequestsAreRequests(ms[1..], i - |RequestOf(ms[0])|); }
  }

  /** What a call holds is the content of a reply to the request of a call with its gid. */
  ghost predicate Returns(setup: SC.Setup, es: seq<Event>, id: nat, k: nat, asked: Bytes, answer: Bytes) {
    var s := Run(setup, es);
    && Inv(s) && id < |s.server.calls| && k < s.heard
    && s.server.calls[AskerOf(s, k)].gid == s.server.calls[id].gid
    && s.server.calls[id].slot.response
       == Some(Message(ServiceToServer, s.server.calls[id].gid, Some(answer)))
    && Answers(setup, es, k, asked, answer)
  }

  /**
   * In every run, with whatever reuse of gids, what sendAndWait returns is what
   * the other side's local service provided for the data some call with this
   * gid asked with, or the error exactly if that request was turned away.
   */
  lemma ReturnedIsProvided(setup: SC.Setup, es: seq<Event>, id: nat)
    requires id < |Run(setup, es).server.calls| && Run(setup, es).server.calls[id].stage.Returned?
    ensures exists k: nat, asked, answer :: Returns(setup, es, id, k, asked, answer)
  {
    var s := Run(setup, es);
    ReturnedResponseIsReply(setup, es, id);
    var k: nat :| k < s.heard && Some(s.client.replies[k].message) == s.server.calls[id].slot.response
                  && s.server.calls[AskerOf(s, k)].gid == s.server.calls[id].gid;
    var asked, answer := ReplyAnswers(setup, es, k);
    HeldReply(s, id, k, answer);
    assert Returns(setup, es, id, k, asked, answer);
  }

  lemma HeldReply(s: System, id: nat, k: nat, answer: Bytes)
    requires Inv(s) && id < |s.server.calls| && k < |s.client.replies|
    requires s.server.calls[id].slot.response == Some(s.client.replies[k].message)
    requires s.client.replies[k].message.content == Some(answer)
    ensures s.server.calls[id].slot.response == Some(Message(ServiceToServer, s.server.calls[id].gid, Some(answer)))
  {
    assert SS.CallInv(s.server.calls[id]);
    assert SC.ReplyInv(s.client, k);
  }

  /**
   * And when nothing was owed for a fresh gid as the call began, it is the
   * answer to the data this very call asked with.
   */
  lemma OwnAnswerIsReturned(setup: SC.Setup, pre: seq<Event>, gid: Bytes, limits: Limits, more: seq<Event>)
    requires FreshRun(setup, Begun(pre, gid, limits, more)) && NothingOwed(setup, pre, gid)
    requires var s := Run(setup, Begun(pre, gid, limits, more));
             |Run(setup, pre).server.calls| < |s.server.calls|
             && s.server.calls[|Run(setup, pre).server.calls|].stage.Returned?
    ensures var es, id := Begun(pre, gid, limits, more), |Run(setup, pre).server.calls|;
            exists k: nat, asked, answer ::
              Returns(setup, es, id, k, asked, answer) && AskerOf(Run(setup, es), k) == id
  {
    var es, id := Begun(pre, gid, limits, more), |Run(setup, pre).server.calls|;
    var s := Run(setup, es);
    OwnInEveryContinuation(setup, pre, gid, limits, more);
    assert SS.CallInv(s.server.calls[id]);
    var k: nat :| k < s.heard && Heard(s, k, s.server.calls[id].slot.response.value) && AskerOf(s, k) == id;
    var asked, answer := ReplyAnswers(setup, es, k);
    HeldReply(s, id, k, answer);
    assert Returns(setup, es, id, k, asked, answer);
  }
}
