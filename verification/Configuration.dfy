/**
 * The configuration: initializeParameters' channel checks and value ranges, the
 * predefined TF and CLOCK topics, and the publisher map built from them.
 */
module Configuration {
  import opened Types
  import opened Wire
  import opened Routing

  /**
   * A configured subscriber, publisher, service or action; `topic` is its topic
   * or type. `wellFormed` is the outcome of the JSON, type, QoS and compression
   * checks, `creatable` that of creating it once.
   */
  datatype Entry = Entry(channel: int, topic: string, wellFormed: bool, creatable: bool)

  datatype Topic = Topic(channel: byte, topic: string)

  datatype Flags = Flags(publishTf: bool, subscribeTf: bool, publishClock: bool, subscribeClock: bool)

  /** The authentication parameters; `loads` is the outcome of loading the named plugin once. */
  datatype Authentication = Unauthenticated | Authenticated(timeout: int, plugin: bool, loads: bool, omit: bool)

  /** `definitionsOk` is the outcome of reading the QoS and compression definitions. */
  datatype Parameters = Parameters(
    definitionsOk: bool, subs: seq<Entry>, pubs: seq<Entry>,
    serviceServers: seq<Entry>, serviceClients: seq<Entry>, actionServers: seq<Entry>, actionClients: seq<Entry>,
    flags: Flags, fragmentationSize: int, authentication: Authentication)

  const OP_CODE_MIN := 249
  const OP_CODE_MAX := 255

  // ---------- the checks ----------

  class Config {
    var subscriber: seq<Topic>
    var publisher: seq<Topic>
    var serviceServer: seq<byte>   // the channels of the endpoints
    var serviceClient: seq<byte>
    var actionServer: seq<byte>
    var actionClient: seq<byte>

    constructor ()
      ensures subscriber == [] && publisher == []
      ensures serviceServer == [] && serviceClient == [] && actionServer == [] && actionClient == []
    {
      subscriber, publisher := [], [];
      serviceServer, serviceClient, actionServer, actionClient := [], [], [], [];
    }

    /** Searches a list of channels. */
    method Knows(known: seq<byte>, channel: int) returns (found: bool)
      ensures found <==> exists i :: 0 <= i < |known| && known[i] as int == channel
    {
      var k := 0;
      while k < |known|
        invariant k <= |known|
        invariant forall i :: 0 <= i < k ==> known[i] as int != channel
      {
        if known[k] as int == channel { return true; }
        k := k + 1;
      }
      return false;
    }

    method HoldsChannel(topics: seq<Topic>, channel: int) returns (found: bool)
      ensures found <==> exists i :: 0 <= i < |topics| && topics[i].channel as int == channel
    {
      var k := 0;
      while k < |topics|
        invariant k <= |topics|
        invariant forall i :: 0 <= i < k ==> topics[i].channel as int != channel
      {
        if topics[k].channel as int == channel { return true; }
        k := k + 1;
      }
      return false;
    }

    /** One of the two topic lists, checked against itself and against the topics of the other side. */
    method ReadTopics(entries: seq<Entry>, others: seq<Topic>) returns (ok: bool, topics: seq<Topic>)
      ensures ok <==> (forall i :: 0 <= i < |entries| ==> Valid(entries[i]))
                      && (forall i, j :: 0 <= i < j < |entries| ==> entries[i].channel != entries[j].channel)
                      && (forall i, j :: 0 <= i < |entries| && 0 <= j < |others| ==>
                            entries[i].channel != others[j].channel as int)
      ensures ok ==> topics == TopicsOf(entries)
    {
      var known: seq<byte> := [];
      topics := [];
      var n := 0;
      while n < |entries|
        invariant n <= |entries| && |known| == |topics| == n
        invariant forall i :: 0 <= i < n ==> Valid(entries[i]) && known[i] as int == entries[i].channel
        invariant forall i :: 0 <= i < n ==> topics[i] == TopicOf(entries[i])
        invariant forall i, j :: 0 <= i < j < n ==> entries[i].channel != entries[j].channel
        invariant forall i, j :: 0 <= i < n && 0 <= j < |others| ==> entries[i].channel != others[j].channel as int
      {
        var e := entries[n];
        if !e.wellFormed || Predefined(e.topic) { return false, topics; }
        if e.channel < 0 || e.channel > 255 { return false, topics; }
        if OP_CODE_MIN <= e.channel <= OP_CODE_MAX { return false, topics; }
        var again := Knows(known, e.channel);
        if again {
          var i :| 0 <= i < |known| && known[i] as int == e.channel;
          assert entries[i].channel == entries[n].channel;
          return false, topics;
        }
        var clash := HoldsChannel(others, e.channel);
        if clash { return false, topics; }
        known := known + [e.channel];
        if !e.creatable { return false, topics; }
        topics := topics + [TopicOf(e)];
        n := n + 1;
      }
      assert topics == TopicsOf(entries);
      ok := true;
    }

    /** One of the four endpoint lists; clients are checked against the servers of their kind as well. */
    method ReadEndpoints(entries: seq<Entry>, servers: seq<byte>) returns (ok: bool, known: seq<byte>)
      ensures ok <==> ValidEndpoints(entries)
                      && (forall i, j :: 0 <= i < |entries| && 0 <= j < |servers| ==>
                            entries[i].channel != servers[j] as int)
      ensures ok ==> known == ChannelsOf(entries)
    {
      known := [];
      var n := 0;
      while n < |entries|
        invariant n <= |entries| && |known| == n
        invariant forall i :: 0 <= i < n ==> ValidEndpoint(entries[i]) && known[i] as int == entries[i].channel
        invariant forall i, j :: 0 <= i < j < n ==> entries[i].channel != entries[j].channel
        invariant forall i, j :: 0 <= i < n && 0 <= j < |servers| ==> entries[i].channel != servers[j] as int
      {
        var e := entries[n];
        if !e.wellFormed { return false, known; }
        if e.channel < 0 || e.channel > 255 { return false, known; }
        var again := Knows(known, e.channel);
        if again {
          var i :| 0 <= i < |known| && known[i] as int == e.channel;
          assert entries[i].channel == entries[n].channel;
          return false, known;
        }
        var clash := Knows(servers, e.channel);
        if clash { return false, known; }
        known := known + [e.channel];
        if !e.creatable { return false, known; }
        n := n + 1;
      }
      ok := true;
    }

    /** initializeParameters: true exactly for the configurations `Accepted` describes. */
    method InitializeParameters(p: Parameters) returns (ok: bool)
      requires subscriber == [] && publisher == []
      modifies this
      ensures ok <==> Accepted(p)
      ensures ok ==> subscriber == Subscribers(p.subs, p.flags) && publisher == Publishers(p.pubs, p.flags)
      ensures ok ==> serviceServer == ChannelsOf(p.serviceServers) && serviceClient == ChannelsOf(p.serviceClients)
      ensures ok ==> actionServer == ChannelsOf(p.actionServers) && actionClient == ChannelsOf(p.actionClients)
    {
      if !p.definitionsOk { return false; }
      ok := InitializeTopics(p.subs, p.pubs);
      if !ok { return; }
      ok := InitializeEndpoints(p);
      if !ok { return; }
      if p.flags.publishTf && p.flags.subscribeTf { return false; }
      if p.flags.publishClock && p.flags.subscribeClock { return false; }
      if p.flags.publishClock { publisher := publisher + [CLOCK_TOPIC]; }
      if p.flags.publishTf { publisher := publisher + [TF_TOPIC, TF_STATIC_TOPIC]; }
      if p.flags.subscribeTf { subscriber := subscriber + [TF_TOPIC, TF_STATIC_TOPIC]; }
      if p.fragmentationSize < 8 { return false; }
      if p.authentication.Authenticated? {
        if p.authentication.timeout <= 0 { return false; }
        if p.authentication.plugin && !p.authentication.loads { return false; }
        if !p.authentication.omit && !p.authentication.plugin { return false; }
      }
      ok := true;
    }

    /** The two topic lists. */
    method InitializeTopics(subs: seq<Entry>, pubs: seq<Entry>) returns (ok: bool)
      requires subscriber == [] && publisher == []
      modifies this`subscriber, this`publisher
      ensures ok <==> AcceptedTopics(subs, pubs)
      ensures ok ==> subscriber == TopicsOf(subs) && publisher == TopicsOf(pubs)
    {
      var read, topics := ReadTopics(subs, []);
      if !read { return false; }
      subscriber := topics;
      assert forall i :: 0 <= i < |subs| ==> subscriber[i].channel as int == subs[i].channel;
      read, topics := ReadTopics(pubs, subscriber);
      if !read { return false; }
      publisher := topics;
      ok := true;
    }

    /** The four endpoint lists. */
    method InitializeEndpoints(p: Parameters) returns (ok: bool)
      modifies this`serviceServer, this`serviceClient, this`actionServer, this`actionClient
      ensures ok <==> AcceptedEndpoints(p.serviceServers, p.serviceClients)
                      && AcceptedEndpoints(p.actionServers, p.actionClients)
      ensures ok ==> serviceServer == ChannelsOf(p.serviceServers) && serviceClient == ChannelsOf(p.serviceClients)
      ensures ok ==> actionServer == ChannelsOf(p.actionServers) && actionClient == ChannelsOf(p.actionClients)
    {
      ok, serviceServer, serviceClient := ReadBothSides(p.serviceServers, p.serviceClients);
      if !ok { return; }
      ok, actionServer, actionClient := ReadBothSides(p.actionServers, p.actionClients);
    }

    method ReadBothSides(servers: seq<Entry>, clients: seq<Entry>) returns (ok: bool, s: seq<byte>, c: seq<byte>)
      ensures ok <==> AcceptedEndpoints(servers, clients)
      ensures ok ==> s == ChannelsOf(servers) && c == ChannelsOf(clients)
    {
      c := [];
      ok, s := ReadEndpoints(servers, []);
      if !ok { return; }
      assert forall i :: 0 <= i < |servers| ==> s[i] as int == servers[i].channel;
      ok, c := ReadEndpoints(clients, s);
    }
  }

  // ---------- the specification ----------

  const CLOCK_TOPIC := Topic(CLOCK, "/clock")
  const TF_TOPIC := Topic(TF, "/tf")
  const TF_STATIC_TOPIC := Topic(TF_STATIC, "/tf_static")

  predicate Predefined(topic: string) {
    topic == "/tf" || topic == "/tf_static" || topic == "/clock"
  }

  predicate Valid(e: Entry) {
    e.wellFormed && e.creatable && !Predefined(e.topic) && 0 <= e.channel < OP_CODE_MIN
  }

  function TopicOf(e: Entry): Topic
    requires Valid(e)
  {
    Topic(e.channel, e.topic)
  }

  function TopicsOf(entries: seq<Entry>): seq<Topic>
    requires forall i :: 0 <= i < |entries| ==> Valid(entries[i])
  {
    seq(|entries|, i requires 0 <= i < |entries| => TopicOf(entries[i]))
  }

  predicate AcceptedTopics(subs: seq<Entry>, pubs: seq<Entry>) {
    && (forall i :: 0 <= i < |subs| ==> Valid(subs[i]))
    && (forall i :: 0 <= i < |pubs| ==> Valid(pubs[i]))
    && (forall i, j :: 0 <= i < j < |subs| ==> subs[i].channel != subs[j].channel)
    && (forall i, j :: 0 <= i < j < |pubs| ==> pubs[i].channel != pubs[j].channel)
    && (forall i, j :: 0 <= i < |pubs| && 0 <= j < |subs| ==> pubs[i].channel != subs[j].channel)
  }

  predicate ValidEndpoint(e: Entry) {
    e.wellFormed && e.creatable && 0 <= e.channel <= 255
  }

  predicate ValidEndpoints(entries: seq<Entry>) {
    && (forall i :: 0 <= i < |entries| ==> ValidEndpoint(entries[i]))
    && (forall i, j :: 0 <= i < j < |entries| ==> entries[i].channel != entries[j].channel)
  }

  function ChannelsOf(entries: seq<Entry>): seq<byte>
    requires ValidEndpoints(entries)
  {
    seq(|entries|, i requires 0 <= i < |entries| => entries[i].channel)
  }

  predicate AcceptedEndpoints(servers: seq<Entry>, clients: seq<Entry>) {
    && ValidEndpoints(servers) && ValidEndpoints(clients)
    && (forall i, j :: 0 <= i < |clients| && 0 <= j < |servers| ==> clients[i].channel != servers[j].channel)
  }

  predicate AcceptedFlags(flags: Flags) {
    !(flags.publishTf && flags.subscribeTf) && !(flags.publishClock && flags.subscribeClock)
  }

  /** Authentication needs a timeout, and a plugin that loads unless validation is omitted. */
  predicate AcceptedAuthentication(a: Authentication) {
    a.Authenticated? ==> a.timeout >= 1 && (a.plugin ==> a.loads) && (a.omit || a.plugin)
  }

  predicate Accepted(p: Parameters) {
    && p.definitionsOk && AcceptedTopics(p.subs, p.pubs) && AcceptedFlags(p.flags)
    && AcceptedEndpoints(p.serviceServers, p.serviceClients) && AcceptedEndpoints(p.actionServers, p.actionClients)
    && p.fragmentationSize >= 8 && AcceptedAuthentication(p.authentication)
  }

  function Subscribers(subs: seq<Entry>, flags: Flags): seq<Topic>
    requires forall i :: 0 <= i < |subs| ==> Valid(subs[i])
  {
    TopicsOf(subs) + if flags.subscribeTf then [TF_TOPIC, TF_STATIC_TOPIC] else []
  }

  function Publishers(pubs: seq<Entry>, flags: Flags): seq<Topic>
    requires forall i :: 0 <= i < |pubs| ==> Valid(pubs[i])
  {
    TopicsOf(pubs) + (if flags.publishClock then [CLOCK_TOPIC] else [])
    + (if flags.publishTf then [TF_TOPIC, TF_STATIC_TOPIC] else [])
  }

  predicate DistinctChannels(topics: seq<Topic>) {
    forall i, j :: 0 <= i < j < |topics| ==> topics[i].channel != topics[j].channel
  }

  predicate IsControl(channel: byte) {
    channel == NOTIFICATION || channel == SUBSCRIPTION || channel == SERVICE_ACTION || channel == AUTHENTICATION
  }

  lemma DistinctConcat(a: seq<Topic>, b: seq<Topic>)
    requires DistinctChannels(a) && DistinctChannels(b)
    requires forall i, j :: 0 <= i < |a| && 0 <= j < |b| ==> a[i].channel != b[j].channel
    ensures DistinctChannels(a + b)
  {
  }

  predicate IsTopicChannel(channel: byte) {
    channel < 249 || channel == CLOCK || channel == TF || channel == TF_STATIC
  }

  lemma ListsAreDistinct(subs: seq<Entry>, pubs: seq<Entry>, flags: Flags)
    requires AcceptedTopics(subs, pubs) && AcceptedFlags(flags)
    ensures DistinctChannels(Subscribers(subs, flags)) && DistinctChannels(Publishers(pubs, flags))
    ensures forall t <- Subscribers(subs, flags) :: IsTopicChannel(t.channel)
    ensures forall t <- Publishers(pubs, flags) :: IsTopicChannel(t.channel)
  {
    var tf := [TF_TOPIC, TF_STATIC_TOPIC];
    var clock := if flags.publishClock then [CLOCK_TOPIC] else [];
    DistinctConcat(TopicsOf(subs), if flags.subscribeTf then tf else []);
    DistinctConcat(TopicsOf(pubs), clock);
    DistinctConcat(TopicsOf(pubs) + clock, if flags.publishTf then tf else []);
  }

  /** In an accepted configuration all topic channels are distinct and none is a control op-code. */
  lemma AcceptedChannelsAreDistinct(subs: seq<Entry>, pubs: seq<Entry>, flags: Flags)
    requires AcceptedTopics(subs, pubs) && AcceptedFlags(flags)
    ensures DistinctChannels(Subscribers(subs, flags) + Publishers(pubs, flags))
    ensures forall t <- Subscribers(subs, flags) + Publishers(pubs, flags) :: !IsControl(t.channel)
  {
    var s, p := Subscribers(subs, flags), Publishers(pubs, flags);
    ListsAreDistinct(subs, pubs, flags);
    forall i, j | 0 <= i < |s| && 0 <= j < |p| ensures s[i].channel != p[j].channel {
      SidesDiffer(subs, pubs, flags, i, j);
    }
    DistinctConcat(s, p);
  }

  lemma SidesDiffer(subs: seq<Entry>, pubs: seq<Entry>, flags: Flags, i: nat, j: nat)
    requires AcceptedTopics(subs, pubs) && AcceptedFlags(flags)
    requires i < |Subscribers(subs, flags)| && j < |Publishers(pubs, flags)|
    ensures Subscribers(subs, flags)[i].channel != Publishers(pubs, flags)[j].channel
  {
    if i >= |subs| {
      assert flags.subscribeTf && !flags.publishTf;
      assert Subscribers(subs, flags)[i].channel in {TF, TF_STATIC};
    }
  }

  // ---------- the publisher map ----------

  /** PublisherManager's init: inserting a present channel keeps the old entry. Publishers are named by their index. */
  method InitPublishers(topics: seq<Topic>) returns (publishers: map<byte, nat>)
    ensures publishers == Inserted(topics)
  {
    publishers := map[];
    var n := 0;
    while n < |topics|
      invariant n <= |topics| && publishers == Inserted(topics[..n])
    {
      assert topics[..n + 1][..n] == topics[..n];
      if topics[n].channel !in publishers { publishers := publishers[topics[n].channel := n]; }
      n := n + 1;
    }
    assert topics[..n] == topics;
  }

  function Inserted(topics: seq<Topic>): map<byte, nat>
    decreases |topics|
  {
    if topics == [] then map[]
    else
      var last := |topics| - 1;
      var before := Inserted(topics[..last]);
      if topics[last].channel in before then before else before[topics[last].channel := last]
  }

  /** The map holds, for each channel that occurs, its first position. */
  lemma {:induction false} InsertedIsFirst(topics: seq<Topic>, c: byte)
    ensures c in Inserted(topics) <==> exists i :: 0 <= i < |topics| && topics[i].channel == c
    ensures c in Inserted(topics) ==>
              var i := Inserted(topics)[c];
              i < |topics| && topics[i].channel == c && forall j :: 0 <= j < i ==> topics[j].channel != c
    decreases |topics|
  {
    if topics != [] {
      var last := |topics| - 1;
      InsertedIsFirst(topics[..last], c);
      if i :| 0 <= i < |topics| && topics[i].channel == c && i < last { assert topics[..last][i].channel == c; }
      if c in Inserted(topics[..last]) {
        var i := Inserted(topics[..last])[c];
        assert topics[i] == topics[..last][i];
        forall j | 0 <= j < i ensures topics[j].channel != c { assert topics[j] == topics[..last][j]; }
      }
    }
  }

  /** Every publisher is in the map exactly when the channels are distinct. */
  lemma NoPublisherLostIff(topics: seq<Topic>)
    ensures (forall i :: 0 <= i < |topics| ==>
               topics[i].channel in Inserted(topics) && Inserted(topics)[topics[i].channel] == i)
       <==> DistinctChannels(topics)
  {
    forall i | 0 <= i < |topics| ensures topics[i].channel in Inserted(topics) {
      InsertedIsFirst(topics, topics[i].channel);
    }
    if DistinctChannels(topics) {
      forall i | 0 <= i < |topics| ensures Inserted(topics)[topics[i].channel] == i {
        InsertedIsFirst(topics, topics[i].channel);
      }
    }
  }

  /**
   * In an accepted configuration a frame on a publisher's channel is dispatched
   * to the publisher manager, and the map leads to exactly that publisher.
   */
  lemma FramesReachTheirPublisher(subs: seq<Entry>, pubs: seq<Entry>, flags: Flags, i: nat, frame: Bytes)
    requires AcceptedTopics(subs, pubs) && AcceptedFlags(flags) && i < |Publishers(pubs, flags)|
    requires Readable(frame) && frame[0] == Publishers(pubs, flags)[i].channel
    ensures ConsumerOf(frame[0]) == ToPublisherManager
    ensures frame[0] in Inserted(Publishers(pubs, flags)) && Inserted(Publishers(pubs, flags))[frame[0]] == i
  {
    ListsAreDistinct(subs, pubs, flags);
    NoPublisherLostIff(Publishers(pubs, flags));
    assert Publishers(pubs, flags)[i] in Publishers(pubs, flags);
  }

  /** The channels of the endpoints of one kind are distinct, and so are those of servers and clients together. */
  lemma EndpointChannelsAreDistinct(servers: seq<Entry>, clients: seq<Entry>)
    requires AcceptedEndpoints(servers, clients)
    ensures var all := ChannelsOf(servers) + ChannelsOf(clients);
            forall i, j :: 0 <= i < j < |all| ==> all[i] != all[j]
  {
    var s, c := ChannelsOf(servers), ChannelsOf(clients);
    forall i, j | 0 <= i < j < |s + c| ensures (s + c)[i] != (s + c)[j] {
      if i < |s| && |s| <= j { assert clients[j - |s|].channel != servers[i].channel; }
    }
  }

  // ---------- what is accepted, and what is configured ----------

  predicate Distinct(entries: seq<Entry>) {
    forall i, j :: 0 <= i < j < |entries| ==> entries[i].channel != entries[j].channel
  }

  /** Topics may use the channels below the op-codes, and not the names of the predefined topics. */
  predicate TopicEntry(e: Entry) {
    && e.wellFormed && e.creatable && e.topic !in {"/tf", "/tf_static", "/clock"}
    && 0 <= e.channel <= 248
  }

  predicate EndpointEntry(e: Entry) {
    e.wellFormed && e.creatable && 0 <= e.channel <= 255
  }

  lemma DistinctParts(a: seq<Entry>, b: seq<Entry>)
    ensures Distinct(a + b) <==>
              && Distinct(a) && Distinct(b)
              && (forall i, j :: 0 <= i < |b| && 0 <= j < |a| ==> b[i].channel != a[j].channel)
  {
    if Distinct(a + b) {
      forall i, j | 0 <= i < j < |a| ensures a[i].channel != a[j].channel {
        assert (a + b)[i] == a[i] && (a + b)[j] == a[j];
      }
      forall i, j | 0 <= i < j < |b| ensures b[i].channel != b[j].channel {
        assert (a + b)[|a| + i] == b[i] && (a + b)[|a| + j] == b[j];
      }
      forall i, j | 0 <= i < |b| && 0 <= j < |a| ensures b[i].channel != a[j].channel {
        assert (a + b)[|a| + i] == b[i] && (a + b)[j] == a[j];
      }
    }
  }

  predicate AuthenticationOk(a: Authentication) {
    a.Unauthenticated? || (a.timeout > 0 && if a.plugin then a.loads else a.omit)
  }

  lemma TopicsAcceptedExactly(subs: seq<Entry>, pubs: seq<Entry>)
    ensures AcceptedTopics(subs, pubs) <==> (forall e <- subs + pubs :: TopicEntry(e)) && Distinct(subs + pubs)
  {
    DistinctParts(subs, pubs);
    forall e | e in subs + pubs ensures Valid(e) <==> TopicEntry(e) {}
    if forall e <- subs + pubs :: TopicEntry(e) {
      forall i | 0 <= i < |subs| ensures Valid(subs[i]) { assert subs[i] in subs + pubs; }
      forall i | 0 <= i < |pubs| ensures Valid(pubs[i]) { assert pubs[i] in subs + pubs; }
    }
  }

  lemma EndpointsAcceptedExactly(servers: seq<Entry>, clients: seq<Entry>)
    ensures AcceptedEndpoints(servers, clients)
       <==> (forall e <- servers + clients :: EndpointEntry(e)) && Distinct(servers + clients)
  {
    DistinctParts(servers, clients);
    if forall e <- servers + clients :: EndpointEntry(e) {
      forall i | 0 <= i < |servers| ensures ValidEndpoint(servers[i]) { assert servers[i] in servers + clients; }
      forall i | 0 <= i < |clients| ensures ValidEndpoint(clients[i]) { assert clients[i] in servers + clients; }
    }
  }

  /**
   * A configuration is accepted exactly when all topics of both sides have
   * channels of their own from 0 to 248 and no predefined name, all services
   * and all actions channels of their own per kind, TF and CLOCK go one way at
   * most, fragments have at least eight bytes, and authentication has a timeout
   * and a plugin that loads, or none and leave to do without.
   */
  lemma AcceptedExactly(p: Parameters)
    ensures Accepted(p) <==>
              && p.definitionsOk
              && (forall e <- p.subs + p.pubs :: TopicEntry(e)) && Distinct(p.subs + p.pubs)
              && (forall e <- p.serviceServers + p.serviceClients :: EndpointEntry(e))
              && Distinct(p.serviceServers + p.serviceClients)
              && (forall e <- p.actionServers + p.actionClients :: EndpointEntry(e))
              && Distinct(p.actionServers + p.actionClients)
              && (p.flags.publishTf ==> !p.flags.subscribeTf) && (p.flags.publishClock ==> !p.flags.subscribeClock)
              && p.fragmentationSize > 7 && AuthenticationOk(p.authentication)
  {
    TopicsAcceptedExactly(p.subs, p.pubs);
    EndpointsAcceptedExactly(p.serviceServers, p.serviceClients);
    EndpointsAcceptedExactly(p.actionServers, p.actionClients);
  }

  /** An entry names this topic. */
  predicate Names(e: Entry, t: Topic) {
    e.channel == t.channel as int && e.topic == t.topic
  }

  lemma TopicsOfEntries(entries: seq<Entry>, t: Topic)
    requires forall i :: 0 <= i < |entries| ==> Valid(entries[i])
    ensures t in TopicsOf(entries) <==> exists e :: e in entries && Names(e, t)
  {
    if t in TopicsOf(entries) {
      var i :| 0 <= i < |entries| && TopicsOf(entries)[i] == t;
      assert entries[i] in entries && Names(entries[i], t);
    }
    if e :| e in entries && Names(e, t) {
      var i :| 0 <= i < |entries| && entries[i] == e;
      assert TopicsOf(entries)[i] == t;
    }
  }

  /** The topics on either side are the configured ones, in order, and the predefined ones the flags ask for. */
  lemma TopicsAreConfigured(subs: seq<Entry>, pubs: seq<Entry>, flags: Flags, t: Topic)
    requires AcceptedTopics(subs, pubs)
    ensures t in Subscribers(subs, flags) <==>
              || (exists e :: e in subs && Names(e, t))
              || (flags.subscribeTf && (t == Topic(252, "/tf") || t == Topic(253, "/tf_static")))
    ensures t in Publishers(pubs, flags) <==>
              || (exists e :: e in pubs && Names(e, t))
              || (flags.publishClock && t == Topic(254, "/clock"))
              || (flags.publishTf && (t == Topic(252, "/tf") || t == Topic(253, "/tf_static")))
    ensures |Subscribers(subs, flags)| == |subs| + (if flags.subscribeTf then 2 else 0)
    ensures |Publishers(pubs, flags)|
         == |pubs| + (if flags.publishClock then 1 else 0) + (if flags.publishTf then 2 else 0)
    ensures forall i :: 0 <= i < |subs| ==> Names(subs[i], Subscribers(subs, flags)[i])
    ensures forall i :: 0 <= i < |pubs| ==> Names(pubs[i], Publishers(pubs, flags)[i])
  {
    TopicsOfEntries(subs, t);
    TopicsOfEntries(pubs, t);
  }
}
