/**
 * The end-to-end path of one topic channel: threaded subscriber, connection,
 * publisher manager, threaded publisher. Other channels share the connection
 * and the manager's queue.
 */
module Topics {
  import opened Types
  import opened Wire
  import opened Transport
  import opened Sequences
  import opened Routing
  import Subscription

  datatype Route = Route(codec: Codec, profile: Profile, channel: byte)

  /**
   * These first bytes never reach the publisher manager; authentication messages are answered by
   * the connection itself.
   */
  predicate HandledElsewhere(channel: byte) {
    ConsumerOf(channel) != ToPublisherManager || channel == AUTHENTICATION
  }

  // ---------- stages ----------

  datatype Pipeline = Pipeline(
    captured: seq<Bytes>,         // history: what the local subscription delivered
    toSend: seq<Bytes>,           // ThreadedSubscriber::toSend
    compressing: Option<Bytes>,   // taken by ThreadedSubscriber::run, not yet sent
    link: Link,
    toPublish: seq<Rcl>,          // PublisherManager::toPublish, every channel
    routing: Option<Rcl>,         // taken by PublisherManager::run
    queued: seq<Rcl>,             // ThreadedPublisher::toPublish
    publishing: Option<Rcl>,      // taken by ThreadedPublisher::run
    published: seq<Bytes>,        // history: what the local publisher published
    undecodable: nat)             // history: messages dropped by ThreadedPublisher::run

  const EmptyPipeline := Pipeline([], [], None, IdleLink, [], None, [], None, [], 0)

  datatype Event =
    | Capture(payload: Bytes)
    | TakeToSend
    | Send
    | LinkEvent(event: LinkEvent)
    | TakeToPublish
    | RouteMessage
    | TakeQueued
    | Publish

  predicate Enabled(r: Route, p: Pipeline, e: Event) {
    match e
    case Capture(_) => true
    case TakeToSend => p.compressing.None? && p.toSend != []
    case Send => p.compressing.Some?
    case LinkEvent(le) => LinkEnabled(p.link, le) && (le.Post? ==> le.frame[0] != r.channel)
    case TakeToPublish => p.routing.None? && p.toPublish != []
    case RouteMessage => p.routing.Some?
    case TakeQueued => p.publishing.None? && p.queued != []
    case Publish => p.publishing.Some?
  }

  /** asyncRead and processMessage for the frame at the head of the wire. */
  function Dispatch(p: Pipeline): Pipeline
    requires p.link.wire != [] && Readable(p.link.wire[0])
  {
    var m := FromFlatBuffer(p.link.wire[0]);
    if HandledElsewhere(m.channel) then p else p.(toPublish := p.toPublish + [m])
  }

  function Step(r: Route, p: Pipeline, e: Event): Pipeline
    requires LinkInv(p.link)
  {
    if !Enabled(r, p, e) then p
    else match e
      case Capture(payload) => p.(captured := p.captured + [payload], toSend := p.toSend + [payload])
      case TakeToSend => p.(compressing := Some(p.toSend[0]), toSend := p.toSend[1..])
      case Send =>
        p.(compressing := None,
           link := LinkStep(p.link, Post(SendTopic(r.codec, r.profile, r.channel, p.compressing.value))))
      case LinkEvent(le) => (if le.Receive? then Dispatch(p) else p).(link := LinkStep(p.link, le))
      case TakeToPublish => p.(routing := Some(p.toPublish[0]), toPublish := p.toPublish[1..])
      case RouteMessage =>
        // a message of another channel goes to another publisher or is dropped
        p.(routing := None,
           queued := if p.routing.value.channel == r.channel then p.queued + [p.routing.value] else p.queued)
      case TakeQueued => p.(publishing := Some(p.queued[0]), queued := p.queued[1..])
      case Publish =>
        match Payload(r.codec, p.publishing.value)
        case None => p.(publishing := None, undecodable := p.undecodable + 1)
        case Some(payload) => p.(publishing := None, published := p.published + [payload])
  }

  // ---------- what a stage holds ----------

  // A stage's content is a sequence of decoding results, None for an
  // undecodable message, so equality with the captured payloads rules those out.
  type Content = seq<Option<Bytes>>

  function Lift(payloads: seq<Bytes>): (c: Content)
    ensures |c| == |payloads|
  {
    seq(|payloads|, i requires 0 <= i < |payloads| => Some(payloads[i]))
  }

  function OfMessages(r: Route, ms: seq<Rcl>): Content {
    Gather((m: Rcl) => OfMessage(r, m), ms)
  }

  function OfMessage(r: Route, m: Rcl): Content {
    if m.channel == r.channel then [Payload(r.codec, m)] else []
  }

  function OfFrames(r: Route, frames: seq<Bytes>): Content {
    Gather((f: Bytes) => OfFrame(r, f), frames)
  }

  /** An unreadable frame counts as undecodable. */
  function OfFrame(r: Route, frame: Bytes): Content {
    [if Readable(frame) then ReceiveTopic(r.codec, frame) else None]
  }

  function Held<T>(x: Option<T>): seq<T> {
    if x.None? then [] else [x.value]
  }

  lemma OfMessagesSnoc(r: Route, ms: seq<Rcl>, m: Rcl)
    ensures OfMessages(r, ms + [m]) == OfMessages(r, ms) + OfMessage(r, m)
    ensures OfMessages(r, [m]) == OfMessage(r, m)
  {
    GatherSnoc((x: Rcl) => OfMessage(r, x), ms, m);
    GatherOne((x: Rcl) => OfMessage(r, x), m);
  }

  lemma OfMessagesHead(r: Route, ms: seq<Rcl>)
    requires ms != []
    ensures OfMessages(r, ms) == OfMessage(r, ms[0]) + OfMessages(r, ms[1..])
    ensures OfMessages(r, [ms[0]]) == OfMessage(r, ms[0])
  {
    GatherHead((x: Rcl) => OfMessage(r, x), ms);
    GatherOne((x: Rcl) => OfMessage(r, x), ms[0]);
  }

  lemma OfFramesSnoc(r: Route, frames: seq<Bytes>, frame: Bytes)
    ensures OfFrames(r, frames + [frame]) == OfFrames(r, frames) + OfFrame(r, frame)
  {
    GatherSnoc((f: Bytes) => OfFrame(r, f), frames, frame);
  }

  lemma OfFramesHead(r: Route, frames: seq<Bytes>)
    requires frames != []
    ensures OfFrames(r, frames) == OfFrame(r, frames[0]) + OfFrames(r, frames[1..])
  {
    GatherHead((f: Bytes) => OfFrame(r, f), frames);
  }

  function Sending(p: Pipeline): Content {
    Lift(Held(p.compressing)) + Lift(p.toSend)
  }

  function Travelling(r: Route, p: Pipeline): Content {
    OfFrames(r, Only(OnTheWay(p.link), r.channel))
  }

  function Receiving(r: Route, p: Pipeline): Content {
    OfMessages(r, Held(p.publishing)) + OfMessages(r, p.queued)
    + OfMessages(r, Held(p.routing)) + OfMessages(r, p.toPublish)
  }

  // ---------- conservation ----------

  predicate Inv(r: Route, p: Pipeline) {
    && LinkInv(p.link)
    && (p.publishing.Some? ==> p.publishing.value.channel == r.channel)
    && (forall i :: 0 <= i < |p.queued| ==> p.queued[i].channel == r.channel)
    && Lift(p.captured) == Lift(p.published) + Receiving(r, p) + Travelling(r, p) + Sending(p)
    && p.undecodable == 0
  }

  lemma LiftSnoc(payloads: seq<Bytes>, x: Bytes)
    ensures Lift(payloads + [x]) == Lift(payloads) + [Some(x)]
  {
  }

  lemma LiftHead(payloads: seq<Bytes>)
    requires payloads != []
    ensures Lift(payloads) == [Some(payloads[0])] + Lift(payloads[1..])
  {
  }

  lemma CaptureKeepsInv(r: Route, p: Pipeline, x: Bytes)
    requires Inv(r, p)
    ensures Inv(r, Step(r, p, Capture(x)))
  {
    var p' := Step(r, p, Capture(x));
    LiftSnoc(p.captured, x);
    LiftSnoc(p.toSend, x);
    assert Sending(p') == Sending(p) + [Some(x)];
  }

  lemma TakeToSendKeepsInv(r: Route, p: Pipeline)
    requires Inv(r, p)
    ensures Inv(r, Step(r, p, TakeToSend))
  {
    if Enabled(r, p, TakeToSend) {
      LiftHead(p.toSend);
      assert Sending(Step(r, p, TakeToSend)) == Sending(p);
    }
  }

  lemma SendKeepsInv(r: Route, p: Pipeline)
    requires r.codec.Lawful() && Inv(r, p) && !HandledElsewhere(r.channel)
    ensures Inv(r, Step(r, p, Send))
  {
    if p.compressing.Some? {
      var p' := Step(r, p, Send);
      var frame := SendTopic(r.codec, r.profile, r.channel, p.compressing.value);
      TopicRoundTrip(r.codec, r.profile, r.channel, p.compressing.value);
      LinkIsFifo(p.link, Post(frame), r.channel);
      OfFramesSnoc(r, Only(OnTheWay(p.link), r.channel), frame);
      var x := [Some(p.compressing.value)];
      assert Travelling(r, p') == Travelling(r, p) + x;
      assert Sending(p) == x + Sending(p');
      Regroup(Lift(p.published) + Receiving(r, p), Travelling(r, p), x, Sending(p'));
    }
  }

  lemma Regroup(a: Content, b: Content, x: Content, c: Content)
    ensures a + (b + x) + c == a + b + (x + c)
  {
  }

  /** A read takes this channel's oldest frame off the link, or none of this channel's. */
  lemma ReadTakes(r: Route, p: Pipeline)
    requires LinkInv(p.link) && !HandledElsewhere(r.channel) && p.link.wire != []
    ensures var taken := if p.link.wire[0][0] == r.channel then [ReceiveTopic(r.codec, p.link.wire[0])] else [];
            Travelling(r, p) == taken + OfFrames(r, Only(OnTheWay(LinkStep(p.link, Receive)), r.channel))
  {
    LinkIsFifo(p.link, Receive, r.channel);
    var rest := Only(OnTheWay(LinkStep(p.link, Receive)), r.channel);
    if p.link.wire[0][0] == r.channel {
      OfFramesHead(r, [p.link.wire[0]] + rest);
      assert ([p.link.wire[0]] + rest)[1..] == rest;
    } else {
      assert [] + rest == rest && [] + OfFrames(r, rest) == OfFrames(r, rest);
    }
  }

  lemma QueueGrows(a: Content, b: Content, c: Content, d: Content, x: Content)
    ensures a + b + c + (d + x) == a + b + c + d + x
  {
  }

  /** A dispatched message joins the stages of its own channel only. */
  lemma DispatchAdds(r: Route, p: Pipeline, m: Rcl)
    ensures Receiving(r, p.(toPublish := p.toPublish + [m])) == Receiving(r, p) + OfMessage(r, m)
  {
    OfMessagesSnoc(r, p.toPublish, m);
    QueueGrows(OfMessages(r, Held(p.publishing)), OfMessages(r, p.queued), OfMessages(r, Held(p.routing)),
               OfMessages(r, p.toPublish), OfMessage(r, m));
  }

  lemma ReceiveOwnKeepsInv(r: Route, p: Pipeline)
    requires Inv(r, p) && !HandledElsewhere(r.channel) && p.link.wire != [] && p.link.wire[0][0] == r.channel
    ensures Inv(r, Step(r, p, LinkEvent(Receive)))
  {
    var m := FromFlatBuffer(p.link.wire[0]);
    LinkStepKeepsInv(p.link, Receive);
    ReadTakes(r, p);
    DispatchAdds(r, p, m);
    ShiftLeft(Lift(p.published), Receiving(r, p), OfMessage(r, m),
              OfFrames(r, Only(OnTheWay(LinkStep(p.link, Receive)), r.channel)), Sending(p));
  }

  lemma ReceiveForeignKeepsInv(r: Route, p: Pipeline)
    requires Inv(r, p) && !HandledElsewhere(r.channel) && p.link.wire != [] && p.link.wire[0][0] != r.channel
    ensures Inv(r, Step(r, p, LinkEvent(Receive)))
  {
    var m := FromFlatBuffer(p.link.wire[0]);
    var rest := OfFrames(r, Only(OnTheWay(LinkStep(p.link, Receive)), r.channel));
    LinkStepKeepsInv(p.link, Receive);
    ReadTakes(r, p);
    DispatchAdds(r, p, m);
    assert [] + rest == rest && Receiving(r, p) + [] == Receiving(r, p);
  }

  lemma ReceiveKeepsInv(r: Route, p: Pipeline)
    requires Inv(r, p) && !HandledElsewhere(r.channel) && p.link.wire != []
    ensures Inv(r, Step(r, p, LinkEvent(Receive)))
  {
    if p.link.wire[0][0] == r.channel { ReceiveOwnKeepsInv(r, p); } else { ReceiveForeignKeepsInv(r, p); }
  }

  lemma ShiftLeft(a: Content, b: Content, x: Content, c: Content, d: Content)
    ensures a + (b + x) + c + d == a + b + (x + c) + d
  {
  }

  lemma LinkStepKeepsPipeline(r: Route, p: Pipeline, le: LinkEvent)
    requires Inv(r, p) && !HandledElsewhere(r.channel)
    ensures Inv(r, Step(r, p, LinkEvent(le)))
  {
    if Enabled(r, p, LinkEvent(le)) {
      if le.Receive? {
        ReceiveKeepsInv(r, p);
      } else {
        QuietStepTravels(r, p, le);
      }
    }
  }

  /** A link step without a frame of this channel leaves what travels as it is. */
  lemma QuietStepTravels(r: Route, p: Pipeline, le: LinkEvent)
    requires LinkInv(p.link) && !HandledElsewhere(r.channel) && Enabled(r, p, LinkEvent(le)) && !le.Receive?
    ensures LinkInv(LinkStep(p.link, le))
    ensures Only(OnTheWay(LinkStep(p.link, le)), r.channel) == Only(OnTheWay(p.link), r.channel)
  {
    LinkIsFifo(p.link, le, r.channel);
    var before := Only(OnTheWay(p.link), r.channel);
    assert before + [] == before;
  }

  lemma TakeToPublishKeepsInv(r: Route, p: Pipeline)
    requires Inv(r, p)
    ensures Inv(r, Step(r, p, TakeToPublish))
  {
    if Enabled(r, p, TakeToPublish) {
      OfMessagesHead(r, p.toPublish);
      assert Receiving(r, Step(r, p, TakeToPublish)) == Receiving(r, p);
    }
  }

  lemma Moves(a: Content, b: Content, x: Content, c: Content)
    ensures a + (b + x) + [] + c == a + b + x + c
  {
  }

  /** Routing moves this channel's message one stage on, and drops another channel's. */
  lemma RouteReceiving(r: Route, p: Pipeline)
    requires LinkInv(p.link) && p.routing.Some?
    ensures Receiving(r, Step(r, p, RouteMessage)) == Receiving(r, p)
  {
    var m := p.routing.value;
    OfMessagesSnoc(r, p.queued, m);
    OfMessagesSnoc(r, [], m);
    Moves(OfMessages(r, Held(p.publishing)), OfMessages(r, p.queued), OfMessage(r, m), OfMessages(r, p.toPublish));
  }

  lemma RouteKeepsInv(r: Route, p: Pipeline)
    requires Inv(r, p)
    ensures Inv(r, Step(r, p, RouteMessage))
  {
    if p.routing.Some? { RouteReceiving(r, p); }
  }

  lemma TakeQueuedKeepsInv(r: Route, p: Pipeline)
    requires Inv(r, p)
    ensures Inv(r, Step(r, p, TakeQueued))
  {
    if Enabled(r, p, TakeQueued) {
      OfMessagesHead(r, p.queued);
      assert Receiving(r, Step(r, p, TakeQueued)) == Receiving(r, p);
    }
  }

  lemma PublishReceiving(r: Route, p: Pipeline)
    requires p.publishing.Some? && p.publishing.value.channel == r.channel
    ensures Receiving(r, p) == [Payload(r.codec, p.publishing.value)] + Receiving(r, p.(publishing := None))
  {
    OfMessagesHead(r, Held(p.publishing));
    var x, a := [Payload(r.codec, p.publishing.value)], OfMessages(r, p.queued);
    var b, c := OfMessages(r, Held(p.routing)), OfMessages(r, p.toPublish);
    assert OfMessages(r, []) + a == a;
    assert x + a + b + c == x + (a + b + c);
  }

  /** The oldest content that is not yet published is the next captured payload. */
  lemma NextPublished(captured: seq<Bytes>, published: seq<Bytes>, x: Option<Bytes>, b: Content, c: Content, d: Content)
    requires Lift(captured) == Lift(published) + ([x] + b) + c + d
    ensures x.Some? && Lift(captured) == Lift(published + [x.value]) + b + c + d
  {
    assert Lift(captured)[|published|] == x;
    LiftSnoc(published, x.value);
  }

  lemma PublishKeepsInv(r: Route, p: Pipeline)
    requires Inv(r, p)
    ensures Inv(r, Step(r, p, Publish))
  {
    if p.publishing.Some? {
      PublishReceiving(r, p);
      NextPublished(p.captured, p.published, Payload(r.codec, p.publishing.value), Receiving(r, p.(publishing := None)),
                    Travelling(r, p), Sending(p));
      assert Receiving(r, Step(r, p, Publish)) == Receiving(r, p.(publishing := None));
    }
  }

  lemma StepKeepsInv(r: Route, p: Pipeline, e: Event)
    requires r.codec.Lawful() && Inv(r, p) && !HandledElsewhere(r.channel)
    ensures Inv(r, Step(r, p, e))
  {
    match e
    case Capture(x) => CaptureKeepsInv(r, p, x);
    case TakeToSend => TakeToSendKeepsInv(r, p);
    case Send => SendKeepsInv(r, p);
    case LinkEvent(le) => LinkStepKeepsPipeline(r, p, le);
    case TakeToPublish => TakeToPublishKeepsInv(r, p);
    case RouteMessage => RouteKeepsInv(r, p);
    case TakeQueued => TakeQueuedKeepsInv(r, p);
    case Publish => PublishKeepsInv(r, p);
  }

  lemma StepKeepsLink(r: Route, p: Pipeline, e: Event)
    requires LinkInv(p.link)
    ensures LinkInv(Step(r, p, e).link)
  {
    match e
    case Send =>
      if Enabled(r, p, e) {
        LinkStepKeepsInv(p.link, Post(SendTopic(r.codec, r.profile, r.channel, p.compressing.value)));
      }
    case LinkEvent(le) => LinkStepKeepsInv(p.link, le);
    case _ =>
  }

  function Run(r: Route, es: seq<Event>): (p: Pipeline)
    ensures LinkInv(p.link)
    decreases |es|
  {
    if es == [] then EmptyPipeline
    else
      var before := Run(r, es[..|es| - 1]);
      StepKeepsLink(r, before, es[|es| - 1]);
      Step(r, before, es[|es| - 1])
  }

  lemma {:induction false} RunInv(r: Route, es: seq<Event>)
    requires r.codec.Lawful() && !HandledElsewhere(r.channel)
    ensures Inv(r, Run(r, es))
    decreases |es|
  {
    if es == [] {
      assert Inv(r, EmptyPipeline);
    } else {
      RunInv(r, es[..|es| - 1]);
      StepKeepsInv(r, Run(r, es[..|es| - 1]), es[|es| - 1]);
    }
  }

  /**
   * The pipeline loses, duplicates and reorders nothing: after every run, under
   * every compression profile and whatever other traffic shares the
   * connection, the published payloads followed by what the stages hold,
   * decoded, are the captured payloads; and no message was undecodable.
   */
  lemma PipelineConserves(r: Route, es: seq<Event>)
    requires r.codec.Lawful() && !HandledElsewhere(r.channel)
    ensures var p := Run(r, es);
            && Lift(p.captured) == Lift(p.published) + Receiving(r, p) + Travelling(r, p) + Sending(p)
            && p.undecodable == 0
            && p.published <= p.captured
  {
    var p := Run(r, es);
    RunInv(r, es);
    assert |p.published| <= |p.captured|;
    forall i | 0 <= i < |p.published|
      ensures p.published[i] == p.captured[i]
    {
      assert Lift(p.captured)[i] == Lift(p.published)[i];
    }
  }

  /** Once drained, everything captured has been published, in order. */
  lemma DrainedMeansDelivered(r: Route, es: seq<Event>)
    requires r.codec.Lawful() && !HandledElsewhere(r.channel)
    requires var p := Run(r, es);
             && p.toSend == [] && p.compressing.None? && OnTheWay(p.link) == []
             && p.toPublish == [] && p.routing.None? && p.queued == [] && p.publishing.None?
    ensures Run(r, es).published == Run(r, es).captured
  {
    PipelineConserves(r, es);
    var p := Run(r, es);
    assert Lift(p.captured) == Lift(p.published);
    assert |p.captured| == |p.published|;
  }

  // ---------- the objects ----------

  function Frames(r: Route, payloads: seq<Bytes>): seq<Bytes> {
    if payloads == [] then []
    else [SendTopic(r.codec, r.profile, r.channel, payloads[0])] + Frames(r, payloads[1..])
  }

  /** The frames a subscriber sends decode to its payloads, in order. */
  lemma {:induction false} FramesDecode(r: Route, payloads: seq<Bytes>)
    requires r.codec.Lawful()
    ensures OfFrames(r, Frames(r, payloads)) == Lift(payloads)
  {
    if payloads == [] {
    } else {
      TopicRoundTrip(r.codec, r.profile, r.channel, payloads[0]);
      FramesDecode(r, payloads[1..]);
      LiftHead(payloads);
    }
  }

  class ThreadedSubscriber {
    const channel: byte
    const compression: Profile
    var toSend: seq<Bytes>   // payloads of the queued VectorMessages
    var sent: seq<Bytes>     // what was handed to the connection

    constructor (channel: byte, compression: Profile)
      ensures this.channel == channel && this.compression == compression && toSend == [] && sent == []
    {
      this.channel, this.compression, toSend, sent := channel, compression, [], [];
    }

    method Callback(serializedMessage: Bytes)
      modifies this`toSend
      ensures toSend == old(toSend) + [serializedMessage]
    {
      toSend := toSend + [serializedMessage];
    }

    /** The run loop, until it would block on an empty queue. */
    method Run(codec: Codec)
      modifies this
      ensures toSend == []
      ensures sent == old(sent) + Frames(Route(codec, compression, channel), old(toSend))
      ensures codec.Lawful() ==>
                var r := Route(codec, compression, channel); OfFrames(r, Frames(r, old(toSend))) == Lift(old(toSend))
    {
      ghost var r := Route(codec, compression, channel);
      if codec.Lawful() { FramesDecode(r, toSend); }
      while toSend != []
        invariant sent + Frames(r, toSend) == old(sent) + Frames(r, old(toSend))
        decreases |toSend|
      {
        var message := toSend[0];
        toSend := toSend[1..];
        var combinedVector :=
          if compression.compressor.Raw? then TopicBytes(channel, message)
          else SendTopic(codec, compression, channel, message);
        sent := sent + [combinedVector];
      }
    }
  }

  function OfChannel(ms: seq<Rcl>, channel: byte): seq<Rcl> {
    Gather((m: Rcl) => if m.channel == channel then [m] else [], ms)
  }

  lemma OfChannelSnoc(ms: seq<Rcl>, m: Rcl, channel: byte)
    ensures OfChannel(ms + [m], channel) == OfChannel(ms, channel) + if m.channel == channel then [m] else []
  {
    GatherSnoc((x: Rcl) => if x.channel == channel then [x] else [], ms, m);
  }

  /** One message handed on: to the publisher of its channel, or to nobody. */
  function HandedOn(publishers: map<byte, seq<Rcl>>, m: Rcl): map<byte, seq<Rcl>> {
    if m.channel in publishers then publishers[m.channel := publishers[m.channel] + [m]] else publishers
  }

  function AllHandedOn(publishers: map<byte, seq<Rcl>>, ms: seq<Rcl>): map<byte, seq<Rcl>>
    decreases |ms|
  {
    if ms == [] then publishers else HandedOn(AllHandedOn(publishers, ms[..|ms| - 1]), ms[|ms| - 1])
  }

  lemma {:induction false} PublishersGetTheirOwn(publishers: map<byte, seq<Rcl>>, ms: seq<Rcl>, c: byte)
    ensures c in AllHandedOn(publishers, ms) <==> c in publishers
    ensures c in publishers ==> AllHandedOn(publishers, ms)[c] == publishers[c] + OfChannel(ms, c)
    decreases |ms|
  {
    if ms != [] {
      var before, m := ms[..|ms| - 1], ms[|ms| - 1];
      PublishersGetTheirOwn(publishers, before, c);
      OfChannelSnoc(before, m, c);
      assert ms == before + [m];
    }
  }

  class PublisherManager {
    var toPublish: seq<Rcl>
    var publishers: map<byte, seq<Rcl>>   // per channel, what its publisher was handed

    /** The run loop: every message reaches exactly the publisher of its channel, in order. */
    method Run()
      modifies this
      ensures toPublish == [] && publishers == AllHandedOn(old(publishers), old(toPublish))
      ensures forall c :: c in publishers <==> c in old(publishers)
      ensures forall c <- publishers :: publishers[c] == old(publishers)[c] + OfChannel(old(toPublish), c)
    {
      ghost var all, n := toPublish, 0;
      while toPublish != []
        invariant n <= |all| && toPublish == all[n..]
        invariant publishers == AllHandedOn(old(publishers), all[..n])
        decreases |toPublish|
      {
        var message := toPublish[0];
        toPublish := toPublish[1..];
        assert all[..n + 1][..n] == all[..n] && all[..n + 1][n] == message;
        if message.channel in publishers {
          publishers := publishers[message.channel := publishers[message.channel] + [message]];
        }
        n := n + 1;
      }
      assert all[..n] == all;
      forall c: byte
        ensures c in publishers <==> c in old(publishers)
        ensures c in publishers ==> publishers[c] == old(publishers)[c] + OfChannel(all, c)
      {
        PublishersGetTheirOwn(old(publishers), all, c);
      }
    }
  }

  function Decoded(codec: Codec, m: Rcl): seq<Bytes> {
    match Payload(codec, m)
    case None => []
    case Some(payload) => [payload]
  }

  function Decodable(codec: Codec, ms: seq<Rcl>): seq<Bytes> {
    Gather((m: Rcl) => Decoded(codec, m), ms)
  }

  /** What happens around one iteration of the publisher's loop: deliveries before it wakes, and the poll it makes. */
  datatype Turn = Turn(arrivals: seq<Rcl>, poll: Subscription.Poll)

  function ArrivalsOf(turns: seq<Turn>): seq<Rcl> {
    Gather((t: Turn) => t.arrivals, turns)
  }

  function PollsOf(turns: seq<Turn>): seq<Subscription.Poll> {
    seq(|turns|, i requires 0 <= i < |turns| => turns[i].poll)
  }

  /** A threaded publisher: its queue, what it published, its hysteresis, and the notifications it sent. */
  datatype Publishing = Publishing(
    queue: seq<Rcl>, published: seq<Bytes>, base: Subscription.Publisher, notified: seq<bool>)

  /** One iteration of the loop. */
  function AfterTurn(codec: Codec, p: Publishing, turn: Turn): Publishing {
    var queue := p.queue + turn.arrivals;
    Publishing(if queue == [] then [] else queue[1..],
               p.published + (if queue == [] then [] else Decoded(codec, queue[0])),
               Subscription.Polled(p.base, turn.poll).0,
               p.notified + Subscription.NotedBy(Subscription.Polled(p.base, turn.poll).1))
  }

  function AfterTurns(codec: Codec, p: Publishing, turns: seq<Turn>): Publishing
    decreases |turns|
  {
    if turns == [] then p else AfterTurn(codec, AfterTurns(codec, p, turns[..|turns| - 1]), turns[|turns| - 1])
  }

  /** How many messages some turns consume, of those queued and arriving: one per turn, as long as there is one. */
  function Takes(queued: nat, turns: seq<Turn>): nat
    decreases |turns|
  {
    if turns == [] then 0
    else
      var before := Takes(queued, turns[..|turns| - 1]);
      if before < queued + |ArrivalsOf(turns)| then before + 1 else before
  }

  /** The first n of these messages are consumed, the rest is queued. */
  predicate Consumed(codec: Codec, published: seq<Bytes>, all: seq<Rcl>, n: nat, q: Publishing) {
    n <= |all| && q.queue == all[n..] && q.published == published + Decodable(codec, all[..n])
  }

  lemma DecodableSnoc(codec: Codec, published: seq<Bytes>, all: seq<Rcl>, n: nat)
    requires n < |all|
    ensures published + Decodable(codec, all[..n + 1])
         == published + Decodable(codec, all[..n]) + Decoded(codec, all[n])
  {
    GatherSnoc((m: Rcl) => Decoded(codec, m), all[..n], all[n]);
    Assoc(published, Decodable(codec, all[..n]), Decoded(codec, all[n]));
    assert all[..n + 1] == all[..n] + [all[n]];
  }

  lemma MoreArrive(codec: Codec, published: seq<Bytes>, all: seq<Rcl>, n: nat, q: Publishing, arrivals: seq<Rcl>)
    requires Consumed(codec, published, all, n, q)
    ensures Consumed(codec, published, all + arrivals, n, q.(queue := q.queue + arrivals))
  {
    assert (all + arrivals)[..n] == all[..n] && (all + arrivals)[n..] == all[n..] + arrivals;
  }

  /** A turn that finds a message consumes exactly the oldest one. */
  lemma TurnConsumes(codec: Codec, published: seq<Bytes>, all: seq<Rcl>, n: nat, q: Publishing, turn: Turn)
    requires Consumed(codec, published, all, n, q)
    ensures var all' := all + turn.arrivals;
            Consumed(codec, published, all', if n < |all'| then n + 1 else n, AfterTurn(codec, q, turn))
  {
    var all' := all + turn.arrivals;
    MoreArrive(codec, published, all, n, q, turn.arrivals);
    if n < |all'| {
      DecodableSnoc(codec, published, all', n);
      assert all'[n..][1..] == all'[n + 1..];
    } else {
      AppendNothing(q.published);
    }
  }

  /**
   * Progress: over any turns the loop has consumed, one message in every turn
   * that found one, the first of all that were queued or arrived; their
   * decodable payloads are what it published, and the rest is still queued.
   */
  lemma {:induction false} PublisherLoopConsumes(codec: Codec, p: Publishing, turns: seq<Turn>)
    ensures Consumed(codec, p.published, p.queue + ArrivalsOf(turns), Takes(|p.queue|, turns),
                     AfterTurns(codec, p, turns))
    decreases |turns|
  {
    if turns == [] {
      AppendNothing(p.queue);
      AppendNothing(p.published);
    } else {
      var before, turn := turns[..|turns| - 1], turns[|turns| - 1];
      PublisherLoopConsumes(codec, p, before);
      AfterTurnsLast(codec, p, turns);
      ArrivalsLast(p.queue, turns);
      TurnConsumes(codec, p.published, p.queue + ArrivalsOf(before), Takes(|p.queue|, before),
                   AfterTurns(codec, p, before), turn);
    }
  }

  lemma {:induction false} IdleTurns(queued: nat, turns: seq<Turn>, idle: seq<Turn>)
    requires Takes(queued, turns) <= queued + |ArrivalsOf(turns)| && ArrivalsOf(idle) == []
    ensures var all := queued + |ArrivalsOf(turns)|;
            && ArrivalsOf(turns + idle) == ArrivalsOf(turns)
            && Takes(queued, turns + idle)
               == if Takes(queued, turns) + |idle| < all then Takes(queued, turns) + |idle| else all
    decreases |idle|
  {
    GatherConcat((t: Turn) => t.arrivals, turns, idle);
    AppendNothing(ArrivalsOf(turns));
    if idle == [] {
      AppendNothing(turns);
    } else {
      var last := |idle| - 1;
      GatherConcat((t: Turn) => t.arrivals, idle[..last], idle[last..]);
      assert idle == idle[..last] + idle[last..];
      IdleTurns(queued, turns, idle[..last]);
      assert (turns + idle)[..|turns + idle| - 1] == turns + idle[..last];
    }
  }

  lemma EnoughIdleTurns(queued: nat, turns: seq<Turn>, idle: seq<Turn>)
    requires Takes(queued, turns) <= queued + |ArrivalsOf(turns)| && ArrivalsOf(idle) == []
    requires queued + |ArrivalsOf(turns)| - Takes(queued, turns) <= |idle|
    ensures ArrivalsOf(turns + idle) == ArrivalsOf(turns)
    ensures Takes(queued, turns + idle) == queued + |ArrivalsOf(turns)|
  {
    IdleTurns(queued, turns, idle);
  }

  /**
   * Nothing stays unpublished: as many turns without arrivals as there are
   * messages left empty the queue, and then every decodable payload is out.
   */
  lemma EverythingIsPublished(codec: Codec, p: Publishing, turns: seq<Turn>, idle: seq<Turn>)
    requires ArrivalsOf(idle) == [] && |AfterTurns(codec, p, turns).queue| <= |idle|
    ensures var q := AfterTurns(codec, p, turns + idle);
            q.queue == [] && q.published == p.published + Decodable(codec, p.queue + ArrivalsOf(turns))
  {
    QueueIsRest(codec, p, turns);
    EnoughIdleTurns(|p.queue|, turns, idle);
    AllConsumed(codec, p, turns + idle);
  }

  lemma QueueIsRest(codec: Codec, p: Publishing, turns: seq<Turn>)
    ensures |AfterTurns(codec, p, turns).queue| == |p.queue| + |ArrivalsOf(turns)| - Takes(|p.queue|, turns)
  {
    PublisherLoopConsumes(codec, p, turns);
  }

  lemma AllConsumed(codec: Codec, p: Publishing, turns: seq<Turn>)
    requires Takes(|p.queue|, turns) == |p.queue| + |ArrivalsOf(turns)|
    ensures var q := AfterTurns(codec, p, turns);
            q.queue == [] && q.published == p.published + Decodable(codec, p.queue + ArrivalsOf(turns))
  {
    var all := p.queue + ArrivalsOf(turns);
    PublisherLoopConsumes(codec, p, turns);
    assert all[..|all|] == all;
  }

  function Parsed(frames: seq<Bytes>): seq<Rcl>
    requires forall f <- frames :: Readable(f)
  {
    seq(|frames|, i requires 0 <= i < |frames| => FromFlatBuffer(frames[i]))
  }

  /** The frames a subscriber sends are all decodable, and what is published for them is what was captured. */
  lemma {:induction false} SentIsPublished(r: Route, payloads: seq<Bytes>)
    requires r.codec.Lawful()
    ensures forall f <- Frames(r, payloads) :: Readable(f)
    ensures Decodable(r.codec, Parsed(Frames(r, payloads))) == payloads
  {
    if payloads != [] {
      var frame, rest := SendTopic(r.codec, r.profile, r.channel, payloads[0]), Frames(r, payloads[1..]);
      TopicRoundTrip(r.codec, r.profile, r.channel, payloads[0]);
      SentIsPublished(r, payloads[1..]);
      assert Frames(r, payloads) == [frame] + rest;
      forall f <- Frames(r, payloads) ensures Readable(f) { assert f == frame || f in rest; }
      assert Parsed(Frames(r, payloads)) == [FromFlatBuffer(frame)] + Parsed(rest);
      GatherHead((m: Rcl) => Decoded(r.codec, m), Parsed(Frames(r, payloads)));
      assert payloads == [payloads[0]] + payloads[1..];
    }
  }

  class ThreadedPublisher {
    const base: Subscription.PublisherBase
    var toPublish: seq<Rcl>
    var published: seq<Bytes>

    ghost function State(): Publishing
      reads this, base
    {
      Publishing(toPublish, published, base.State(), base.notified)
    }

    constructor ()
      ensures fresh(base) && State() == Publishing([], [], Subscription.NewPublisher, [])
    {
      base := new Subscription.PublisherBase();
      toPublish, published := [], [];
    }

    method Publish(message: Rcl)
      modifies this`toPublish
      ensures toPublish == old(toPublish) + [message]
    {
      toPublish := toPublish + [message];
    }

    /**
     * The run loop under any environment, given turn by turn: every iteration
     * takes a message if there is one, polls for subscribers, then decompresses
     * and publishes.
     */
    method Run(codec: Codec, turns: seq<Turn>)
      modifies this, base
      ensures State() == AfterTurns(codec, old(State()), turns)
      ensures Consumed(codec, old(published), old(toPublish) + ArrivalsOf(turns), Takes(|old(toPublish)|, turns),
                       State())
    {
      PublisherLoopConsumes(codec, State(), turns);
      assert turns[..0] == [];
      for i := 0 to |turns|
        invariant State() == AfterTurns(codec, old(State()), turns[..i])
      {
        assert turns[..i + 1][..i] == turns[..i];
        toPublish := toPublish + turns[i].arrivals;
        var message: Option<Rcl> := None;
        if toPublish != [] {
          message := Some(toPublish[0]);
          toPublish := toPublish[1..];
        }
        base.TestForSubscriber(turns[i].poll.count, turns[i].poll.now);
        if message.Some? { PublishOne(codec, message.value); }
        assert State() == AfterTurn(codec, AfterTurns(codec, old(State()), turns[..i]), turns[i]);
      }
      assert turns[..|turns|] == turns;
    }

    /** Decompress in place and publish; what cannot be decompressed is dropped. */
    method PublishOne(codec: Codec, message: Rcl)
      modifies this`published
      ensures published == old(published) + Decoded(codec, message)
    {
      var plain := message;
      if !plain.compressor.Raw? {
        var decompressed := Decompressed(codec, plain);
        if decompressed.None? { return; }
        plain := decompressed.value;
      }
      published := published + [plain.buffer];
    }
  }

  lemma DecodableHead(codec: Codec, queue: seq<Rcl>, published: seq<Bytes>)
    requires queue != []
    ensures published + Decoded(codec, queue[0]) + Decodable(codec, queue[1..]) == published + Decodable(codec, queue)
  {
    GatherHead((m: Rcl) => Decoded(codec, m), queue);
    Assoc(published, Decoded(codec, queue[0]), Decodable(codec, queue[1..]));
  }

  lemma DecodableConcat(codec: Codec, queue: seq<Rcl>, more: seq<Rcl>, published: seq<Bytes>)
    ensures published + Decodable(codec, queue + more) == published + Decodable(codec, queue) + Decodable(codec, more)
  {
    GatherConcat((m: Rcl) => Decoded(codec, m), queue, more);
    Assoc(published, Decodable(codec, queue), Decodable(codec, more));
  }

  lemma TurnConserves(codec: Codec, p: Publishing, turn: Turn)
    ensures var p' := AfterTurn(codec, p, turn);
            p'.published + Decodable(codec, p'.queue)
            == p.published + Decodable(codec, p.queue) + Decodable(codec, turn.arrivals)
  {
    var queue := p.queue + turn.arrivals;
    DecodableConcat(codec, p.queue, turn.arrivals, p.published);
    if queue != [] { DecodableHead(codec, queue, p.published); } else { assert p.published + [] == p.published; }
  }

  lemma ArrivalsLast(queue: seq<Rcl>, turns: seq<Turn>)
    requires turns != []
    ensures queue + ArrivalsOf(turns) == queue + ArrivalsOf(turns[..|turns| - 1]) + turns[|turns| - 1].arrivals
  {
    var before, turn := turns[..|turns| - 1], turns[|turns| - 1];
    GatherSnoc((t: Turn) => t.arrivals, before, turn);
    Assoc(queue, ArrivalsOf(before), turn.arrivals);
    assert turns == before + [turn];
  }

  lemma AfterTurnsLast(codec: Codec, p: Publishing, turns: seq<Turn>)
    requires turns != []
    ensures AfterTurns(codec, p, turns)
         == AfterTurn(codec, AfterTurns(codec, p, turns[..|turns| - 1]), turns[|turns| - 1])
  {
  }

  /** Over any turns the loop publishes the decodable payloads in the order they were queued, losing none. */
  lemma {:induction false} PublisherLoopConserves(codec: Codec, p: Publishing, turns: seq<Turn>)
    ensures var p' := AfterTurns(codec, p, turns);
            p'.published + Decodable(codec, p'.queue) == p.published + Decodable(codec, p.queue + ArrivalsOf(turns))
    decreases |turns|
  {
    if turns == [] {
      assert p.queue + ArrivalsOf(turns) == p.queue;
    } else {
      var before, arrivals := turns[..|turns| - 1], turns[|turns| - 1].arrivals;
      PublisherLoopConserves(codec, p, before);
      TurnConserves(codec, AfterTurns(codec, p, before), turns[|turns| - 1]);
      DecodableConcat(codec, p.queue + ArrivalsOf(before), arrivals, p.published);
      ArrivalsLast(p.queue, turns);
      AfterTurnsLast(codec, p, turns);
    }
  }

  /** q is what the polls of some turns make of p. */
  predicate PollsBy(p: Publishing, q: Publishing, turns: seq<Turn>) {
    && q.base == Subscription.PolledAll(p.base, PollsOf(turns))
    && q.notified == p.notified + Subscription.NotesOf(p.base, PollsOf(turns))
  }

  lemma PollsLast(p: Subscription.Publisher, turns: seq<Turn>)
    requires turns != []
    ensures var before, poll := PollsOf(turns[..|turns| - 1]), turns[|turns| - 1].poll;
            var polled := Subscription.PolledAll(p, before);
            && Subscription.PolledAll(p, PollsOf(turns)) == Subscription.Polled(polled, poll).0
            && Subscription.NotesOf(p, PollsOf(turns))
               == Subscription.NotesOf(p, before) + Subscription.NotedBy(Subscription.Polled(polled, poll).1)
  {
    assert PollsOf(turns)[..|turns| - 1] == PollsOf(turns[..|turns| - 1]);
    assert PollsOf(turns)[|turns| - 1] == turns[|turns| - 1].poll;
  }

  lemma OneMorePoll(codec: Codec, p: Publishing, q: Publishing, turns: seq<Turn>)
    requires turns != [] && PollsBy(p, q, turns[..|turns| - 1])
    ensures PollsBy(p, AfterTurn(codec, q, turns[|turns| - 1]), turns)
  {
    PollsLast(p.base, turns);
    Assoc(p.notified, Subscription.NotesOf(p.base, PollsOf(turns[..|turns| - 1])),
          Subscription.NotedBy(Subscription.Polled(q.base, turns[|turns| - 1].poll).1));
  }

  lemma NoTurnsNoPolls(p: Publishing)
    ensures PollsBy(p, p, [])
  {
    assert PollsOf([]) == [] && p.notified + [] == p.notified;
  }

  /** It polls once in every turn, with a message or without, so its notifications are those of the hysteresis. */
  lemma {:induction false} PublisherLoopPolls(codec: Codec, p: Publishing, turns: seq<Turn>)
    ensures PollsBy(p, AfterTurns(codec, p, turns), turns)
    decreases |turns|
  {
    if turns == [] {
      NoTurnsNoPolls(p);
    } else {
      PublisherLoopPolls(codec, p, turns[..|turns| - 1]);
      OneMorePoll(codec, p, AfterTurns(codec, p, turns[..|turns| - 1]), turns);
      AfterTurnsLast(codec, p, turns);
    }
  }
}
