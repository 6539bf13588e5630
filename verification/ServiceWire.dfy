/**
 * The service system over two connections, byte by byte, as `ActionWire` has
 * it for actions: each step is a step of the service system or invisible to it.
 */
module ServiceWire {
  import opened Types
  import opened Transport
  import opened Routing
  import opened Paths
  import SS = ServiceServer
  import SC = ServiceClient
  import S = ServiceSystem

  /** The endpoints of both sides and the two paths between them. */
  datatype OverWire = OverWire(ends: S.System, down: Path, up: Path)

  const Idle := OverWire(S.Initial, Path(IdleLink, []), Path(IdleLink, []))

  datatype Event =
    | Endpoint(event: S.Event)     // a local step of either side
    | DownTraffic(le: LinkEvent)
    | UpTraffic(le: LinkEvent)
    | RouteDown                    // one iteration of the client side's manager
    | RouteUp

  /** Writer gids have a fixed size that fits the length byte. */
  predicate IsGid(gid: Bytes) {
    1 <= |gid| <= 255
  }

  predicate Occurs(e: S.Event) {
    match e
    case AtServer(se) => !se.Deliver? && (se.Begin? ==> IsGid(se.gid))
    case AtClient(ce) => !ce.Arrive? && !ce.CancelArrives?
    case _ => false
  }

  function Messages(replies: seq<SC.Reply>): (ms: seq<Message>)
    ensures |ms| == |replies|
  {
    seq(|replies|, i requires 0 <= i < |replies| => replies[i].message)
  }

  function Added<T>(before: seq<T>, after: seq<T>): seq<T> {
    if |before| <= |after| then after[|before|..] else []
  }

  predicate Fit(kind: Kind, m: Message) {
    m.content.Some? && IsGid(m.gid) && KindOf(m.op) == kind
  }

  predicate Sendable(kind: Kind, ms: seq<Message>) {
    |ms| <= 1 && forall m <- ms :: Fit(kind, m)
  }

  /** What the endpoints sent in a step goes onto the paths. */
  function Flush(w: Wiring, o: OverWire, ends: S.System): OverWire {
    var down := Added(o.ends.server.sent, ends.server.sent);
    var up := Messages(Added(o.ends.client.replies, ends.client.replies));
    OverWire(ends,
             if Sendable(ServiceClients, down) then Put(w, o.down, down) else o.down,
             if Sendable(ServiceServers, up) then Put(w, o.up, up) else o.up)
  }

  function Step(w: Wiring, setup: SC.Setup, o: OverWire, e: Event): OverWire {
    match e
    case Endpoint(event) => if Occurs(event) then Flush(w, o, S.Step(setup, o.ends, event)) else o
    case DownTraffic(le) => o.(down := Carry(w, ServiceClients, o.down, le))
    case UpTraffic(le) => o.(up := Carry(w, ServiceServers, o.up, le))
    case RouteDown =>
      if o.down.queue == [] then o
      else
        var rest := o.(down := o.down.(queue := o.down.queue[1..]));
        var ms := InMessage(w, ServiceClients, o.down.queue[0]);
        if ms == [] then rest else Flush(w, rest, S.Take(setup, rest.ends, ms[0]))
    case RouteUp =>
      if o.up.queue == [] then o
      else
        var rest := o.(up := o.up.(queue := o.up.queue[1..]));
        var ms := InMessage(w, ServiceServers, o.up.queue[0]);
        if ms == [] then rest else Flush(w, rest, S.Hear(rest.ends, ms[0]))
  }

  /** What a wired event is for the service system. */
  function Meaning(w: Wiring, o: OverWire, e: Event): seq<S.Event> {
    match e
    case Endpoint(event) => if Occurs(event) then [event] else []
    case DownTraffic(_) => []
    case UpTraffic(_) => []
    case RouteDown =>
      if o.down.queue != [] && InMessage(w, ServiceClients, o.down.queue[0]) != [] then [S.ToClient] else []
    case RouteUp => if o.up.queue != [] && InMessage(w, ServiceServers, o.up.queue[0]) != [] then [S.ToServer] else []
  }

  function Advance(setup: SC.Setup, s: S.System, es: seq<S.Event>): S.System {
    if es == [] then s else S.Step(setup, s, es[0])
  }

  function Run(w: Wiring, setup: SC.Setup, es: seq<Event>): OverWire
    decreases |es|
  {
    if es == [] then Idle else Step(w, setup, Run(w, setup, es[..|es| - 1]), es[|es| - 1])
  }

  function Meanings(w: Wiring, setup: SC.Setup, es: seq<Event>): seq<S.Event>
    decreases |es|
  {
    if es == [] then []
    else Meanings(w, setup, es[..|es| - 1]) + Meaning(w, Run(w, setup, es[..|es| - 1]), es[|es| - 1])
  }

  // ---------- everything sent fits the wire ----------

  predicate Fitting(s: S.System) {
    && (forall i :: 0 <= i < |s.server.sent| ==> Fit(ServiceClients, s.server.sent[i]))
    && (forall i :: 0 <= i < |s.client.replies| ==> Fit(ServiceServers, s.client.replies[i].message))
    && (forall id: nat :: id < |s.server.calls| ==> IsGid(s.server.calls[id].gid))
    && (forall id: nat :: id < |s.client.requests| ==> IsGid(s.client.requests[id].message.gid))
  }

  lemma ServerStepFits(s: S.System, se: SS.Event)
    requires Fitting(s) && (se.Begin? ==> IsGid(se.gid))
    ensures Fitting(s.(server := SS.Step(s.server, se)))
    ensures s.server.sent <= SS.Step(s.server, se).sent && |SS.Step(s.server, se).sent| <= |s.server.sent| + 1
  {
  }

  lemma ClientStepFits(setup: SC.Setup, s: S.System, ce: SC.Event)
    requires Fitting(s) && (ce.Arrive? ==> IsGid(ce.message.gid))
    ensures Fitting(s.(client := SC.Step(setup, s.client, ce)))
    ensures var replies := SC.Step(setup, s.client, ce).replies;
            s.client.replies <= replies && |replies| <= |s.client.replies| + 1
  {
  }

  // ---------- refinement ----------

  /** The paths hold what was sent and not yet received. */
  predicate Carried(w: Wiring, o: OverWire) {
    && LinkInv(o.down.link) && LinkInv(o.up.link) && Fitting(o.ends)
    && o.ends.taken <= |o.ends.server.sent| && o.ends.heard <= |o.ends.client.replies|
    && Flying(w, ServiceClients, o.down) == o.ends.server.sent[o.ends.taken..]
    && Flying(w, ServiceServers, o.up) == Messages(o.ends.client.replies[o.ends.heard..])
  }

  lemma SuffixGrows<T>(a: seq<T>, b: seq<T>, n: nat)
    requires a <= b && n <= |a|
    ensures b[n..] == a[n..] + Added(a, b)
  {
  }

  lemma MessagesGrow(a: seq<SC.Reply>, b: seq<SC.Reply>)
    ensures Messages(a + b) == Messages(a) + Messages(b)
  {
  }

  lemma DownFlies(w: Wiring, p: Path, before: seq<Message>, after: seq<Message>, n: nat)
    requires w.codec.Lawful() && LinkInv(p.link) && before <= after && |after| <= |before| + 1 && n <= |before|
    requires Flying(w, ServiceClients, p) == before[n..]
    requires forall i :: 0 <= i < |after| ==> Fit(ServiceClients, after[i])
    ensures Sendable(ServiceClients, Added(before, after))
    ensures LinkInv(Put(w, p, Added(before, after)).link)
    ensures Flying(w, ServiceClients, Put(w, p, Added(before, after))) == after[n..]
  {
    forall m <- Added(before, after) ensures Fit(ServiceClients, m) { assert m == after[|before|]; }
    PutFlies(w, ServiceClients, p, Added(before, after));
    SuffixGrows(before, after, n);
  }

  lemma UpFlies(w: Wiring, p: Path, before: seq<SC.Reply>, after: seq<SC.Reply>, n: nat)
    requires w.codec.Lawful() && LinkInv(p.link) && before <= after && |after| <= |before| + 1 && n <= |before|
    requires Flying(w, ServiceServers, p) == Messages(before[n..])
    requires forall i :: 0 <= i < |after| ==> Fit(ServiceServers, after[i].message)
    ensures Sendable(ServiceServers, Messages(Added(before, after)))
    ensures LinkInv(Put(w, p, Messages(Added(before, after))).link)
    ensures Flying(w, ServiceServers, Put(w, p, Messages(Added(before, after)))) == Messages(after[n..])
  {
    var ms := Messages(Added(before, after));
    forall m <- ms ensures Fit(ServiceServers, m) { assert m == after[|before|].message; }
    PutFlies(w, ServiceServers, p, ms);
    SuffixGrows(before, after, n);
    MessagesGrow(before[n..], Added(before, after));
  }

  /** After a step of the endpoints, flushing puts exactly what they sent onto the paths. */
  lemma FlushCarries(w: Wiring, o: OverWire, ends: S.System)
    requires w.codec.Lawful() && LinkInv(o.down.link) && LinkInv(o.up.link) && Fitting(ends)
    requires o.ends.server.sent <= ends.server.sent && |ends.server.sent| <= |o.ends.server.sent| + 1
    requires o.ends.client.replies <= ends.client.replies && |ends.client.replies| <= |o.ends.client.replies| + 1
    requires ends.taken <= |o.ends.server.sent| && ends.heard <= |o.ends.client.replies|
    requires Flying(w, ServiceClients, o.down) == o.ends.server.sent[ends.taken..]
    requires Flying(w, ServiceServers, o.up) == Messages(o.ends.client.replies[ends.heard..])
    ensures Carried(w, Flush(w, o, ends)) && Flush(w, o, ends).ends == ends
  {
    DownFlies(w, o.down, o.ends.server.sent, ends.server.sent, ends.taken);
    UpFlies(w, o.up, o.ends.client.replies, ends.client.replies, ends.heard);
  }

  lemma EndpointCarries(w: Wiring, setup: SC.Setup, o: OverWire, e: S.Event)
    requires w.codec.Lawful() && Carried(w, o) && Occurs(e)
    ensures Carried(w, Flush(w, o, S.Step(setup, o.ends, e)))
    ensures Flush(w, o, S.Step(setup, o.ends, e)).ends == S.Step(setup, o.ends, e)
  {
    match e {
      case AtServer(se) => ServerStepFits(o.ends, se);
      case AtClient(ce) => ClientStepFits(setup, o.ends, ce);
    }
    FlushCarries(w, o, S.Step(setup, o.ends, e));
  }

  lemma SuffixTaken<T>(xs: seq<T>, n: nat)
    requires n < |xs|
    ensures xs[n..] != [] && xs[n..][0] == xs[n] && xs[n..][1..] == xs[n + 1..]
  {
  }

  lemma MessagesTaken(replies: seq<SC.Reply>, n: nat)
    requires n < |replies|
    ensures var ms := Messages(replies[n..]);
            ms != [] && ms[0] == replies[n].message && ms[1..] == Messages(replies[n + 1..])
  {
  }

  /** The request at the head of the manager's queue is the server's oldest message under way. */
  lemma NextRequest(w: Wiring, o: OverWire)
    requires Carried(w, o) && o.down.queue != [] && InMessage(w, ServiceClients, o.down.queue[0]) != []
    ensures var rest, n := o.down.(queue := o.down.queue[1..]), o.ends.taken;
            && n < |o.ends.server.sent| && InMessage(w, ServiceClients, o.down.queue[0])[0] == o.ends.server.sent[n]
            && Flying(w, ServiceClients, rest) == o.ends.server.sent[n + 1..]
  {
    TakenFlies(w, ServiceClients, o.down);
    SuffixTaken(o.ends.server.sent, o.ends.taken);
  }

  lemma NextReply(w: Wiring, o: OverWire)
    requires Carried(w, o) && o.up.queue != [] && InMessage(w, ServiceServers, o.up.queue[0]) != []
    ensures var rest, n := o.up.(queue := o.up.queue[1..]), o.ends.heard;
            && n < |o.ends.client.replies|
            && InMessage(w, ServiceServers, o.up.queue[0])[0] == o.ends.client.replies[n].message
            && Flying(w, ServiceServers, rest) == Messages(o.ends.client.replies[n + 1..])
  {
    TakenFlies(w, ServiceServers, o.up);
    MessagesTaken(o.ends.client.replies, o.ends.heard);
  }

  // Receiving the head of a queue is the system's reception.

  lemma TakeIsStep(setup: SC.Setup, s: S.System, m: Message)
    requires Fitting(s) && s.taken < |s.server.sent| && m == s.server.sent[s.taken]
    ensures var s' := S.Take(setup, s, m);
            && s' == S.Step(setup, s, S.ToClient) && Fitting(s') && s'.server == s.server
            && s'.taken == s.taken + 1 && s'.heard == s.heard
            && s.client.replies <= s'.client.replies && |s'.client.replies| <= |s.client.replies| + 1
  {
    ClientStepFits(setup, s, S.Arrival(m));
  }

  lemma HearIsStep(setup: SC.Setup, s: S.System, m: Message)
    requires Fitting(s) && s.heard < |s.client.replies| && m == s.client.replies[s.heard].message
    ensures var s' := S.Hear(s, m);
            && s' == S.Step(setup, s, S.ToServer) && Fitting(s') && s'.client == s.client
            && s'.taken == s.taken && s'.heard == s.heard + 1
            && s.server.sent <= s'.server.sent && |s'.server.sent| <= |s.server.sent| + 1
  {
    ServerStepFits(s, SS.Deliver(m));
  }

  lemma RouteDownStep(w: Wiring, setup: SC.Setup, o: OverWire)
    requires o.down.queue != [] && InMessage(w, ServiceClients, o.down.queue[0]) != []
    ensures Step(w, setup, o, RouteDown)
         == Flush(w, o.(down := o.down.(queue := o.down.queue[1..])),
                  S.Take(setup, o.ends, InMessage(w, ServiceClients, o.down.queue[0])[0]))
  {
  }

  lemma RouteUpStep(w: Wiring, setup: SC.Setup, o: OverWire)
    requires o.up.queue != [] && InMessage(w, ServiceServers, o.up.queue[0]) != []
    ensures Step(w, setup, o, RouteUp)
         == Flush(w, o.(up := o.up.(queue := o.up.queue[1..])),
                  S.Hear(o.ends, InMessage(w, ServiceServers, o.up.queue[0])[0]))
  {
  }

  lemma RequestCarries(w: Wiring, setup: SC.Setup, o: OverWire)
    requires w.codec.Lawful() && Carried(w, o) && o.down.queue != []
    requires InMessage(w, ServiceClients, o.down.queue[0]) != []
    ensures Carried(w, Step(w, setup, o, RouteDown))
    ensures Step(w, setup, o, RouteDown).ends == S.Step(setup, o.ends, S.ToClient)
  {
    var m := InMessage(w, ServiceClients, o.down.queue[0])[0];
    RouteDownStep(w, setup, o);
    NextRequest(w, o);
    TakeIsStep(setup, o.ends, m);
    FlushCarries(w, o.(down := o.down.(queue := o.down.queue[1..])), S.Take(setup, o.ends, m));
  }

  lemma ReplyCarries(w: Wiring, setup: SC.Setup, o: OverWire)
    requires w.codec.Lawful() && Carried(w, o) && o.up.queue != [] && InMessage(w, ServiceServers, o.up.queue[0]) != []
    ensures Carried(w, Step(w, setup, o, RouteUp))
    ensures Step(w, setup, o, RouteUp).ends == S.Step(setup, o.ends, S.ToServer)
  {
    var m := InMessage(w, ServiceServers, o.up.queue[0])[0];
    RouteUpStep(w, setup, o);
    NextReply(w, o);
    HearIsStep(setup, o.ends, m);
    FlushCarries(w, o.(up := o.up.(queue := o.up.queue[1..])), S.Hear(o.ends, m));
  }

  lemma StepCarries(w: Wiring, setup: SC.Setup, o: OverWire, e: Event)
    requires w.codec.Lawful() && Carried(w, o)
    ensures Carried(w, Step(w, setup, o, e))
    ensures Step(w, setup, o, e).ends == Advance(setup, o.ends, Meaning(w, o, e))
  {
    match e
    case Endpoint(event) => if Occurs(event) { EndpointCarries(w, setup, o, event); }
    case DownTraffic(le) => CarryKeepsFlying(w, ServiceClients, o.down, le);
    case UpTraffic(le) => CarryKeepsFlying(w, ServiceServers, o.up, le);
    case RouteDown =>
      if o.down.queue != [] {
        if InMessage(w, ServiceClients, o.down.queue[0]) == [] { TakenFlies(w, ServiceClients, o.down); }
        else { RequestCarries(w, setup, o); }
      }
    case RouteUp =>
      if o.up.queue != [] {
        if InMessage(w, ServiceServers, o.up.queue[0]) == [] { TakenFlies(w, ServiceServers, o.up); }
        else { ReplyCarries(w, setup, o); }
      }
  }

  lemma AdvanceRun(setup: SC.Setup, es: seq<S.Event>, more: seq<S.Event>)
    requires |more| <= 1
    ensures S.Run(setup, es + more) == Advance(setup, S.Run(setup, es), more)
  {
    if more == [] { assert es + more == es; } else { assert (es + more)[..|es|] == es && more == [more[0]]; }
  }

  /**
   * Refinement: every run over the two connections, interleaved with any other
   * traffic and under every compression profile, is a run of the service
   * system, and the connections hold exactly what that system has under way.
   */
  lemma {:induction false} WireRefinesSystem(w: Wiring, setup: SC.Setup, es: seq<Event>)
    requires w.codec.Lawful()
    ensures Carried(w, Run(w, setup, es)) && Run(w, setup, es).ends == S.Run(setup, Meanings(w, setup, es))
    decreases |es|
  {
    if es == [] {
      assert Carried(w, Idle);
    } else {
      var before, e := es[..|es| - 1], es[|es| - 1];
      WireRefinesSystem(w, setup, before);
      StepCarries(w, setup, Run(w, setup, before), e);
      AdvanceRun(setup, Meanings(w, setup, before), Meaning(w, Run(w, setup, before), e));
    }
  }

  /** So over the wire, too, a returned response is a reply the client made to a request with the call's gid. */
  lemma ReturnedOverWireIsReply(w: Wiring, setup: SC.Setup, es: seq<Event>, id: nat)
    requires w.codec.Lawful()
    requires id < |Run(w, setup, es).ends.server.calls| && Run(w, setup, es).ends.server.calls[id].stage.Returned?
    ensures var s := Run(w, setup, es).ends;
            S.Inv(s) && exists k: nat ::
              && k < s.heard && Some(s.client.replies[k].message) == s.server.calls[id].slot.response
              && s.server.calls[S.AskerOf(s, k)].asked && s.server.calls[S.AskerOf(s, k)].gid == s.server.calls[id].gid
  {
    WireRefinesSystem(w, setup, es);
    S.ReturnedResponseIsReply(setup, Meanings(w, setup, es), id);
  }
}
