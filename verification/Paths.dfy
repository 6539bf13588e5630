/**
 * One direction of a connection as an endpoint sees it: compression, framing,
 * strand, write pump, wire, read loop, and the manager that parses and routes,
 * shared with other traffic, are one queue of messages.
 */
module Paths {
  import opened Types
  import opened Sequences
  import opened Wire
  import opened Transport
  import opened Routing

  datatype Wiring = Wiring(codec: Codec, profile: Profile, channel: byte)

  /** The connection and the receiving manager's toHandle queue. */
  datatype Path = Path(link: Link, queue: seq<Rcl>)

  /** What a queued message is for the endpoint of this kind on this channel. */
  function InMessage(w: Wiring, kind: Kind, m: Rcl): seq<Message> {
    match FromMessage(m)
    case None => []
    case Some(s) => if KindOf(s.op) == kind && s.serviceChannel == w.channel then [Opened(w.codec, s)] else []
  }

  function InFrame(w: Wiring, kind: Kind, frame: Bytes): seq<Message> {
    if Readable(frame) then InMessage(w, kind, FromFlatBuffer(frame)) else []
  }

  function Queued(w: Wiring, kind: Kind, ms: seq<Rcl>): seq<Message> {
    Gather((m: Rcl) => InMessage(w, kind, m), ms)
  }

  function Framed(w: Wiring, kind: Kind, frames: seq<Bytes>): seq<Message> {
    Gather((f: Bytes) => InFrame(w, kind, f), frames)
  }

  /** Every message for this endpoint that is under way, oldest first. */
  function Flying(w: Wiring, kind: Kind, p: Path): seq<Message> {
    Queued(w, kind, p.queue) + Framed(w, kind, Only(OnTheWay(p.link), SERVICE_ACTION))
  }

  function FrameOf(w: Wiring, m: Message): (frame: Bytes)
    requires m.content.Some?
    ensures Readable(frame) && frame[0] == SERVICE_ACTION
  {
    SendService(w.codec, w.profile, w.channel, m.op, m.gid, m.content.value)
  }

  /** An endpoint's send. */
  function Put(w: Wiring, p: Path, ms: seq<Message>): Path
    requires forall m <- ms :: m.content.Some?
  {
    if ms == [] then p else p.(link := LinkStep(p.link, Post(FrameOf(w, ms[0]))))
  }

  /** The read loop hands this frame to the service and action manager. */
  predicate ForManager(frame: Bytes) {
    Readable(frame) && ConsumerOf(frame[0]) == ToServiceActionManager
  }

  /** Link steps; other endpoints' posts never address this one. */
  function Carry(w: Wiring, kind: Kind, p: Path, le: LinkEvent): Path {
    if le.Post? && InFrame(w, kind, le.frame) != [] then p
    else if le.Receive? && p.link.wire != [] && ForManager(p.link.wire[0]) then
      Path(LinkStep(p.link, le), p.queue + [FromFlatBuffer(p.link.wire[0])])
    else p.(link := LinkStep(p.link, le))
  }

  lemma FrameReadsBack(w: Wiring, kind: Kind, m: Message)
    requires w.codec.Lawful() && m.content.Some? && 1 <= |m.gid| <= 255 && KindOf(m.op) == kind
    ensures InFrame(w, kind, FrameOf(w, m)) == [m]
  {
    ServiceRoundTripExact(w.codec, w.profile, w.channel, m.op, m.gid, m.content.value);
    assert ReceiveService(w.codec, FrameOf(w, m)) == Some((w.channel, m));
  }

  lemma FramedConcat(w: Wiring, kind: Kind, a: seq<Bytes>, b: seq<Bytes>)
    ensures Framed(w, kind, a + b) == Framed(w, kind, a) + Framed(w, kind, b)
  {
    GatherConcat((f: Bytes) => InFrame(w, kind, f), a, b);
  }

  lemma FramedOne(w: Wiring, kind: Kind, frame: Bytes)
    ensures Framed(w, kind, [frame]) == InFrame(w, kind, frame)
  {
    GatherOne((f: Bytes) => InFrame(w, kind, f), frame);
  }

  lemma QueuedSnoc(w: Wiring, kind: Kind, ms: seq<Rcl>, m: Rcl)
    ensures Queued(w, kind, ms + [m]) == Queued(w, kind, ms) + InMessage(w, kind, m)
  {
    GatherSnoc((m: Rcl) => InMessage(w, kind, m), ms, m);
  }

  /** A frame that starts on its way joins the end. */
  lemma PostFlies(w: Wiring, kind: Kind, p: Path, frame: Bytes)
    requires LinkInv(p.link) && Readable(frame) && frame[0] == SERVICE_ACTION
    ensures var link := LinkStep(p.link, Post(frame));
            LinkInv(link) && Flying(w, kind, p.(link := link)) == Flying(w, kind, p) + InFrame(w, kind, frame)
  {
    LinkIsFifo(p.link, Post(frame), SERVICE_ACTION);
    var before := Only(OnTheWay(p.link), SERVICE_ACTION);
    FramedConcat(w, kind, before, [frame]);
    FramedOne(w, kind, frame);
    Assoc(Queued(w, kind, p.queue), Framed(w, kind, before), InFrame(w, kind, frame));
  }

  lemma PutFlies(w: Wiring, kind: Kind, p: Path, ms: seq<Message>)
    requires w.codec.Lawful() && LinkInv(p.link) && |ms| <= 1
    requires forall m <- ms :: m.content.Some? && 1 <= |m.gid| <= 255 && KindOf(m.op) == kind
    ensures LinkInv(Put(w, p, ms).link) && Flying(w, kind, Put(w, p, ms)) == Flying(w, kind, p) + ms
  {
    if ms == [] {
      assert Flying(w, kind, p) + [] == Flying(w, kind, p);
    } else {
      FrameReadsBack(w, kind, ms[0]);
      PostFlies(w, kind, p, FrameOf(w, ms[0]));
      assert ms == [ms[0]];
    }
  }

  /** A step that leaves the service traffic of the link alone. */
  lemma OtherTrafficFlies(w: Wiring, kind: Kind, p: Path, le: LinkEvent)
    requires LinkInv(p.link)
    requires le.Post? ==> !Readable(le.frame) || le.frame[0] != SERVICE_ACTION
    requires le.Receive? && p.link.wire != [] ==> p.link.wire[0][0] != SERVICE_ACTION
    ensures LinkInv(LinkStep(p.link, le)) && Flying(w, kind, p.(link := LinkStep(p.link, le))) == Flying(w, kind, p)
  {
    LinkIsFifo(p.link, le, SERVICE_ACTION);
    var before, after := Only(OnTheWay(p.link), SERVICE_ACTION), Only(OnTheWay(LinkStep(p.link, le)), SERVICE_ACTION);
    assert before + [] == before && [] + after == after;
    assert after == before;
  }

  lemma ReceiveFlies(w: Wiring, kind: Kind, p: Path)
    requires LinkInv(p.link) && p.link.wire != [] && p.link.wire[0][0] == SERVICE_ACTION
    ensures LinkInv(LinkStep(p.link, Receive))
    ensures Flying(w, kind, Path(LinkStep(p.link, Receive), p.queue + [FromFlatBuffer(p.link.wire[0])]))
         == Flying(w, kind, p)
  {
    var frame := p.link.wire[0];
    ReceiveTakesOldest(p.link);
    var after := Only(OnTheWay(LinkStep(p.link, Receive)), SERVICE_ACTION);
    FramedConcat(w, kind, [frame], after);
    FramedOne(w, kind, frame);
    QueuedSnoc(w, kind, p.queue, FromFlatBuffer(frame));
    Assoc(Queued(w, kind, p.queue), InFrame(w, kind, frame), Framed(w, kind, after));
  }

  lemma CarryKeepsFlying(w: Wiring, kind: Kind, p: Path, le: LinkEvent)
    requires LinkInv(p.link)
    ensures LinkInv(Carry(w, kind, p, le).link) && Flying(w, kind, Carry(w, kind, p, le)) == Flying(w, kind, p)
  {
    if le.Post? && Readable(le.frame) && le.frame[0] == SERVICE_ACTION {
      if InFrame(w, kind, le.frame) == [] {
        PostFlies(w, kind, p, le.frame);
        assert Flying(w, kind, p) + [] == Flying(w, kind, p);
      }
    } else if le.Receive? && p.link.wire != [] && p.link.wire[0][0] == SERVICE_ACTION {
      ReceiveFlies(w, kind, p);
    } else {
      OtherTrafficFlies(w, kind, p, le);
    }
  }

  lemma TakeFlies(w: Wiring, kind: Kind, p: Path)
    requires p.queue != []
    ensures Flying(w, kind, p) == InMessage(w, kind, p.queue[0]) + Flying(w, kind, p.(queue := p.queue[1..]))
  {
    GatherHead((m: Rcl) => InMessage(w, kind, m), p.queue);
    Assoc(InMessage(w, kind, p.queue[0]), Queued(w, kind, p.queue[1..]),
          Framed(w, kind, Only(OnTheWay(p.link), SERVICE_ACTION)));
  }

  lemma Uncons<T>(x: T, rest: seq<T>)
    ensures ([x] + rest)[0] == x && ([x] + rest)[1..] == rest && [] + rest == rest
  {
  }

  /** Routing takes the oldest message, or one that is for somebody else. */
  lemma TakenFlies(w: Wiring, kind: Kind, p: Path)
    requires p.queue != []
    ensures var ms, all := InMessage(w, kind, p.queue[0]), Flying(w, kind, p);
            var rest := Flying(w, kind, p.(queue := p.queue[1..]));
            if ms == [] then all == rest else all != [] && all[0] == ms[0] && all[1..] == rest
  {
    TakeFlies(w, kind, p);
    var ms, rest := InMessage(w, kind, p.queue[0]), Flying(w, kind, p.(queue := p.queue[1..]));
    if ms == [] {
      assert [] + rest == rest;
    } else {
      assert ms == [ms[0]];
      Uncons(ms[0], rest);
    }
  }
}
