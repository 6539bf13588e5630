/** From the read loop to the endpoints: dispatch on the first byte, then on the op-code and channel. */
module Routing {
  import opened Types
  import opened Sequences
  import opened Wire

  // ---------- the read loop ----------

  datatype Consumer = ToLog | ToSubscriberManager | ToServiceActionManager | ToPublisherManager

  /** processMessage. */
  function ConsumerOf(channel: byte): Consumer {
    if channel == NOTIFICATION then ToLog
    else if channel == SUBSCRIPTION then ToSubscriberManager
    else if channel == SERVICE_ACTION then ToServiceActionManager
    else ToPublisherManager
  }

  /** The first byte alone decides: 249, 250 and 251 have their consumers, all others are topics. */
  lemma ConsumersByCode(channel: byte)
    ensures ConsumerOf(channel) == ToLog <==> channel == 249
    ensures ConsumerOf(channel) == ToSubscriberManager <==> channel == 250
    ensures ConsumerOf(channel) == ToServiceActionManager <==> channel == 251
    ensures ConsumerOf(channel) == ToPublisherManager <==> channel <= 248 || channel >= 252
  {
  }

  class Dispatcher {
    var logged: seq<Rcl>
    var toSubscribe: seq<Rcl>
    var toHandle: seq<Rcl>
    var toPublish: seq<Rcl>

    constructor ()
      ensures logged == [] && toSubscribe == [] && toHandle == [] && toPublish == []
    {
      logged, toSubscribe, toHandle, toPublish := [], [], [], [];
    }

    ghost function Queue(c: Consumer): seq<Rcl>
      reads this
    {
      match c
      case ToLog => logged
      case ToSubscriberManager => toSubscribe
      case ToServiceActionManager => toHandle
      case ToPublisherManager => toPublish
    }

    /** One completed read: the message joins one queue and leaves the others alone. */
    method OnRead(frame: Bytes)
      requires Readable(frame)
      modifies this
      ensures forall c :: Queue(c) == old(Queue(c)) + if c == ConsumerOf(frame[0]) then [FromFlatBuffer(frame)] else []
    {
      var message := FromFlatBuffer(frame);
      if message.channel == NOTIFICATION {
        logged := logged + [message];
      } else if message.channel == SUBSCRIPTION {
        toSubscribe := toSubscribe + [message];
      } else if message.channel == SERVICE_ACTION {
        toHandle := toHandle + [message];
      } else {
        toPublish := toPublish + [message];
      }
    }
  }

  // ---------- the service and action manager ----------

  datatype Kind = ServiceServers | ServiceClients | ActionClients | ActionServers

  function KindOf(op: Op): Kind {
    match op
    case ServiceToServer => ServiceServers
    case ServiceToClient => ServiceClients
    case ServiceToClientCancel => ServiceClients
    case GoalRequest => ActionClients
    case CancelRequest => ActionClients
    case _ => ActionServers
  }

  type Inbox = map<byte, seq<Service>>

  /** The messages handed to each endpoint. A channel is present when an endpoint of that kind is configured on it. */
  datatype Inboxes = Inboxes(serviceServers: Inbox, serviceClients: Inbox, actionClients: Inbox, actionServers: Inbox) {
    function Of(kind: Kind): Inbox {
      match kind
      case ServiceServers => serviceServers
      case ServiceClients => serviceClients
      case ActionClients => actionClients
      case ActionServers => actionServers
    }
  }

  function Added(inbox: Inbox, m: Service): Inbox {
    if m.serviceChannel in inbox then inbox[m.serviceChannel := inbox[m.serviceChannel] + [m]] else inbox
  }

  /** One iteration of run(). */
  function Dispatch(inboxes: Inboxes, m: Rcl): Inboxes {
    match FromMessage(m)
    case None => inboxes
    case Some(s) =>
      match KindOf(s.op)
      case ServiceServers => inboxes.(serviceServers := Added(inboxes.serviceServers, s))
      case ServiceClients => inboxes.(serviceClients := Added(inboxes.serviceClients, s))
      case ActionClients => inboxes.(actionClients := Added(inboxes.actionClients, s))
      case ActionServers => inboxes.(actionServers := Added(inboxes.actionServers, s))
  }

  function DispatchAll(inboxes: Inboxes, ms: seq<Rcl>): Inboxes
    decreases |ms|
  {
    if ms == [] then inboxes else DispatchAll(Dispatch(inboxes, ms[0]), ms[1..])
  }

  class ServiceActionManager {
    var toHandle: seq<Rcl>
    var serviceServers: Inbox
    var serviceClients: Inbox
    var actionClients: Inbox
    var actionServers: Inbox

    /** init(): one endpoint per configured channel of each kind. */
    constructor (servers: set<byte>, clients: set<byte>, goalClients: set<byte>, goalServers: set<byte>)
      ensures toHandle == []
      ensures serviceServers == (map c | c in servers :: []) && serviceClients == (map c | c in clients :: [])
      ensures actionClients == (map c | c in goalClients :: []) && actionServers == (map c | c in goalServers :: [])
    {
      toHandle := [];
      serviceServers := map c | c in servers :: [];
      serviceClients := map c | c in clients :: [];
      actionClients := map c | c in goalClients :: [];
      actionServers := map c | c in goalServers :: [];
    }

    ghost function State(): Inboxes
      reads this
    {
      Inboxes(serviceServers, serviceClients, actionClients, actionServers)
    }

    method HandleMessage(message: Rcl)
      modifies this`toHandle
      ensures toHandle == old(toHandle) + [message]
    {
      toHandle := toHandle + [message];
    }

    /** run(), until it would block. */
    method Run()
      modifies this
      ensures toHandle == [] && State() == DispatchAll(old(State()), old(toHandle))
    {
      while toHandle != []
        invariant DispatchAll(State(), toHandle) == DispatchAll(old(State()), old(toHandle))
        decreases |toHandle|
      {
        var message := toHandle[0];
        toHandle := toHandle[1..];
        Route(message);
      }
    }

    method Route(message: Rcl)
      modifies this`serviceServers, this`serviceClients, this`actionClients, this`actionServers
      ensures State() == Dispatch(old(State()), message)
    {
      var parsed := FromMessage(message);
      if parsed.None? { return; }
      var m := parsed.value;
      var channel := m.serviceChannel;
      if m.op.ServiceToServer? {
        if channel in serviceServers { serviceServers := serviceServers[channel := serviceServers[channel] + [m]]; }
      } else if m.op.ServiceToClient? || m.op.ServiceToClientCancel? {
        if channel in serviceClients { serviceClients := serviceClients[channel := serviceClients[channel] + [m]]; }
      } else if m.op.GoalRequest? || m.op.CancelRequest? {
        if channel in actionClients { actionClients := actionClients[channel := actionClients[channel] + [m]]; }
      } else {
        if channel in actionServers { actionServers := actionServers[channel := actionServers[channel] + [m]]; }
      }
    }
  }

  // ---------- what routing means ----------

  /** What a message contributes to one endpoint. */
  function RoutedTo(key: (Kind, byte), m: Rcl): seq<Service> {
    match FromMessage(m)
    case None => []
    case Some(s) => if (KindOf(s.op), s.serviceChannel) == key then [s] else []
  }

  function Routed(key: (Kind, byte), ms: seq<Rcl>): seq<Service> {
    Gather((m: Rcl) => RoutedTo(key, m), ms)
  }

  lemma DispatchAdds(inboxes: Inboxes, m: Rcl, kind: Kind, channel: byte)
    requires channel in inboxes.Of(kind)
    ensures channel in Dispatch(inboxes, m).Of(kind)
    ensures Dispatch(inboxes, m).Of(kind)[channel] == inboxes.Of(kind)[channel] + RoutedTo((kind, channel), m)
  {
    var before := inboxes.Of(kind)[channel];
    assert before + [] == before;
  }

  lemma RoutedHead(key: (Kind, byte), ms: seq<Rcl>, before: seq<Service>)
    requires ms != []
    ensures before + RoutedTo(key, ms[0]) + Routed(key, ms[1..]) == before + Routed(key, ms)
  {
    GatherHead((m: Rcl) => RoutedTo(key, m), ms);
    Assoc(before, RoutedTo(key, ms[0]), Routed(key, ms[1..]));
  }

  /** Every configured endpoint gets exactly its own messages, in arrival order. */
  lemma {:induction false} EndpointsGetTheirOwn(inboxes: Inboxes, ms: seq<Rcl>, kind: Kind, channel: byte)
    requires channel in inboxes.Of(kind)
    ensures channel in DispatchAll(inboxes, ms).Of(kind)
    ensures DispatchAll(inboxes, ms).Of(kind)[channel] == inboxes.Of(kind)[channel] + Routed((kind, channel), ms)
    decreases |ms|
  {
    if ms != [] {
      DispatchAdds(inboxes, ms[0], kind, channel);
      EndpointsGetTheirOwn(Dispatch(inboxes, ms[0]), ms[1..], kind, channel);
      RoutedHead((kind, channel), ms, inboxes.Of(kind)[channel]);
    }
  }

  lemma DispatchKeepsEndpoints(inboxes: Inboxes, m: Rcl, kind: Kind, channel: byte)
    ensures channel in Dispatch(inboxes, m).Of(kind) <==> channel in inboxes.Of(kind)
  {
  }

  /** No endpoint appears or disappears. */
  lemma {:induction false} EndpointsStay(inboxes: Inboxes, ms: seq<Rcl>, kind: Kind, channel: byte)
    ensures channel in DispatchAll(inboxes, ms).Of(kind) <==> channel in inboxes.Of(kind)
    decreases |ms|
  {
    if ms != [] {
      DispatchKeepsEndpoints(inboxes, ms[0], kind, channel);
      EndpointsStay(Dispatch(inboxes, ms[0]), ms[1..], kind, channel);
    }
  }

  /** A message the parser accepts is for exactly one kind of endpoint on one channel; a refused one is for none. */
  lemma ExactlyOneEndpoint(m: Rcl)
    ensures FromMessage(m).Some? <==> exists key :: RoutedTo(key, m) != []
    ensures forall key, other :: RoutedTo(key, m) != [] && RoutedTo(other, m) != [] ==> key == other
    ensures forall key :: |RoutedTo(key, m)| <= 1
  {
    if FromMessage(m).Some? {
      var s := FromMessage(m).value;
      assert RoutedTo((KindOf(s.op), s.serviceChannel), m) == [s];
    }
  }

  /** The op-codes each kind of endpoint is given. */
  lemma {:induction false} InboxOpCodes(key: (Kind, byte), ms: seq<Rcl>)
    ensures forall m <- Routed(key, ms) ::
              && m.serviceChannel == key.1
              && match key.0
                 case ServiceServers => m.op.Code() == 2
                 case ServiceClients => m.op.Code() <= 1
                 case ActionClients => m.op.Code() == 3 || m.op.Code() == 6
                 case ActionServers => m.op.Code() in {4, 5, 7, 8, 9, 10, 11, 12, 13}
  {
    if ms != [] { InboxOpCodes(key, ms[1..]); }
  }

  /**
   * From one endpoint's send to its peer's inbox: for every op-code, channel,
   * gid of 1 to 255 bytes, data and profile, the frame is dispatched to the
   * manager and routed to the peer on the same channel, whose reading of it is
   * the message sent.
   */
  lemma SendReachesPeer(codec: Codec, profile: Profile, channel: byte, op: Op, gid: Bytes, data: Bytes)
    requires codec.Lawful() && 1 <= |gid| <= 255
    ensures var m := FromFlatBuffer(SendService(codec, profile, channel, op, gid, data));
            && ConsumerOf(m.channel) == ToServiceActionManager
            && (forall key :: RoutedTo(key, m) != [] <==> key == (KindOf(op), channel))
            && |RoutedTo((KindOf(op), channel), m)| == 1
            && Opened(codec, RoutedTo((KindOf(op), channel), m)[0]) == Message(op, gid, Some(data))
  {
    ServiceRoundTripExact(codec, profile, channel, op, gid, data);
    var frame := SendService(codec, profile, channel, op, gid, data);
    assert ReceiveService(codec, frame) == Some((channel, Message(op, gid, Some(data))));
    var s := FromMessage(FromFlatBuffer(frame)).value;
    assert Opened(codec, s).op == s.op == op && s.serviceChannel == channel;
  }
}
