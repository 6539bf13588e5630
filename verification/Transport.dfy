/**
 * The sending half of a connection (sendingQueue and the self-re-arming
 * asyncWrite) and the link it makes with the strand and the wire.
 */
module Transport {
  import opened Types
  import opened Wire
  import opened Sequences

  // ---------- the write pump ----------

  datatype Life = Connecting | Open | Closed

  /**
   * `inFlight` holds the buffers handed to async_write whose completion handler
   * has not run. The last three fields are history: frames queued since the
   * stream opened, frames popped by completion handlers, and whether a write
   * ever failed.
   */
  datatype Pump = Pump(
    life: Life, sendingQueue: seq<Bytes>, inFlight: seq<Bytes>,
    accepted: seq<Bytes>, completed: seq<Bytes>, failed: bool)

  const IdlePump := Pump(Connecting, [], [], [], [], false)

  datatype PumpEvent =
    | Queue(frame: Bytes)
    | Written(ok: bool)   // the completion handler of the oldest outstanding write
    | StreamOpened
    | StreamClosed

  predicate PumpEnabled(p: Pump, e: PumpEvent) {
    match e
    case Queue(_) => true
    case Written(_) => p.inFlight != []
    case StreamOpened => p.life.Connecting?
    case StreamClosed => p.life.Open?
  }

  /** asyncWrite: a stream that is not open empties the queue instead. */
  function StartWrite(p: Pump): Pump {
    if !p.life.Open? || p.sendingQueue == [] then p.(sendingQueue := [])
    else p.(inFlight := p.inFlight + [p.sendingQueue[0]])
  }

  /** queueMessage: a write is started only when the queue was empty. */
  function Enqueue(p: Pump, frame: Bytes): Pump {
    var q := p.(sendingQueue := p.sendingQueue + [frame],
                accepted := if p.life.Open? then p.accepted + [frame] else p.accepted);
    if |q.sendingQueue| == 1 then StartWrite(q) else q
  }

  /** The completion handler: pop, then stop on error or re-arm. */
  function FinishWrite(p: Pump, ok: bool): Pump
    requires p.inFlight != []
  {
    var popped := if p.sendingQueue == [] then [] else p.sendingQueue[..1];
    var q := p.(inFlight := p.inFlight[1..], sendingQueue := p.sendingQueue[|popped|..],
                completed := p.completed + popped);
    if !ok then q.(failed := true)
    else if q.sendingQueue != [] then StartWrite(q)
    else q
  }

  /** An event that is not enabled does not happen. */
  function PumpStep(p: Pump, e: PumpEvent): Pump {
    if !PumpEnabled(p, e) then p
    else match e
      case Queue(frame) => Enqueue(p, frame)
      case Written(ok) => FinishWrite(p, ok)
      case StreamOpened => p.(life := Open)
      case StreamClosed => p.(life := Closed)
  }

  function PumpRun(p: Pump, es: seq<PumpEvent>): Pump
    decreases |es|
  {
    if es == [] then p else PumpStep(PumpRun(p, es[..|es| - 1]), es[|es| - 1])
  }

  predicate PumpInv(p: Pump) {
    && (p.inFlight == [] || (p.sendingQueue != [] && p.inFlight == [p.sendingQueue[0]]))
    && (!p.failed && p.sendingQueue != [] ==> p.inFlight != [])
    && (p.life.Connecting? ==> p.sendingQueue == [] && p.inFlight == [] && p.accepted == [] && p.completed == [])
    && (p.life.Open? ==> p.accepted == p.completed + p.sendingQueue)
  }

  lemma PumpStepKeepsInv(p: Pump, e: PumpEvent)
    requires PumpInv(p)
    ensures PumpInv(PumpStep(p, e))
  {
    if PumpEnabled(p, e) {
      match e
      case Queue(frame) =>
        assert p.completed + p.sendingQueue + [frame] == p.completed + (p.sendingQueue + [frame]);
      case Written(ok) =>
        assert p.sendingQueue == p.sendingQueue[..1] + p.sendingQueue[1..];
        assert p.completed + p.sendingQueue == p.completed + p.sendingQueue[..1] + p.sendingQueue[1..];
      case _ =>
    }
  }

  /**
   * Write pump safety over every run: a handler never pops an empty queue, at
   * most one write is outstanding and it is the front, without a write error
   * the queue is non-empty exactly while a write is outstanding (so a
   * non-empty idle queue means an earlier error), and while the stream is open
   * what was queued is what completed followed by what is queued.
   */
  lemma {:induction false} PumpSafe(es: seq<PumpEvent>)
    ensures var p := PumpRun(IdlePump, es);
            && PumpInv(p)
            && |p.inFlight| <= 1
            && (p.inFlight != [] ==> p.sendingQueue != [] && p.inFlight == p.sendingQueue[..1])
            && (!p.failed ==> (p.sendingQueue != [] <==> p.inFlight != []))
            && (p.sendingQueue != [] && p.inFlight == [] ==> p.failed)
            && (p.life.Open? ==> p.accepted == p.completed + p.sendingQueue)
    decreases |es|
  {
    if es != [] {
      PumpSafe(es[..|es| - 1]);
      PumpStepKeepsInv(PumpRun(IdlePump, es[..|es| - 1]), es[|es| - 1]);
    }
  }

  /** An open pump whose writes succeed completes everything queued, in order. */
  lemma {:induction false} WritesCompleteQueue(p: Pump) returns (es: seq<PumpEvent>)
    requires PumpInv(p) && p.life.Open? && !p.failed
    ensures |es| == |p.sendingQueue| && forall e <- es :: e == Written(true)
    ensures var q := PumpRun(p, es);
            q.sendingQueue == [] && q.inFlight == [] && q.completed == p.completed + p.sendingQueue
    decreases |p.sendingQueue|
  {
    if p.sendingQueue == [] {
      es := [];
      assert p.completed + [] == p.completed;
    } else {
      var p' := PumpStep(p, Written(true));
      PumpStepKeepsInv(p, Written(true));
      var rest := WritesCompleteQueue(p');
      es := [Written(true)] + rest;
      PumpRunCons(p, Written(true), rest);
      Assoc(p.completed, [p.sendingQueue[0]], p.sendingQueue[1..]);
      assert p.sendingQueue[..1] == [p.sendingQueue[0]];
      assert p.sendingQueue == [p.sendingQueue[0]] + p.sendingQueue[1..];
    }
  }

  lemma {:induction false} PumpRunCons(p: Pump, e: PumpEvent, es: seq<PumpEvent>)
    ensures PumpRun(p, [e] + es) == PumpRun(PumpStep(p, e), es)
    decreases |es|
  {
    if es == [] {
      assert [e] + es == [e] && [e][..0] == [];
    } else {
      var before := es[..|es| - 1];
      PumpRunCons(p, e, before);
      assert ([e] + es)[..|[e] + es| - 1] == [e] + before;
    }
  }

  /** A write error with a frame behind it strands the queue: non-empty, and nothing outstanding. */
  predicate Stranded(p: Pump) {
    p.sendingQueue != [] && p.inFlight == []
  }

  /** A run that strands it: two frames are queued and the first write fails. */
  function FailingRun(first: Bytes, second: Bytes): seq<PumpEvent> {
    [StreamOpened] + [Queue(first)] + [Queue(second)] + [Written(false)]
  }

  lemma PumpRunSnoc(p: Pump, es: seq<PumpEvent>, e: PumpEvent)
    ensures PumpRun(p, es + [e]) == PumpStep(PumpRun(p, es), e)
  {
    assert (es + [e])[..|es|] == es;
  }

  lemma ErrorStrandsQueue(first: Bytes, second: Bytes)
    ensures var p := PumpRun(IdlePump, FailingRun(first, second));
            Stranded(p) && p.failed && p.sendingQueue == [second] && p.completed == [first]
  {
    var a := [StreamOpened];
    PumpRunSnoc(IdlePump, [], StreamOpened);
    assert [] + a == a;
    PumpRunSnoc(IdlePump, a, Queue(first));
    PumpRunSnoc(IdlePump, a + [Queue(first)], Queue(second));
    PumpRunSnoc(IdlePump, a + [Queue(first)] + [Queue(second)], Written(false));
  }

  /** And it stays stranded in every continuation: no further frame is ever written, however many are queued. */
  lemma {:induction false} StuckAfterError(p: Pump, es: seq<PumpEvent>)
    requires PumpInv(p) && Stranded(p)
    ensures var q := PumpRun(p, es);
            q.failed && Stranded(q) && p.sendingQueue <= q.sendingQueue && q.completed == p.completed
    decreases |es|
  {
    if es != [] {
      var before := PumpRun(p, es[..|es| - 1]);
      StuckAfterError(p, es[..|es| - 1]);
      StillConnected(p, es[..|es| - 1]);
    }
  }

  /** A stream that has been opened never goes back to connecting. */
  lemma {:induction false} StillConnected(p: Pump, es: seq<PumpEvent>)
    requires !p.life.Connecting?
    ensures !PumpRun(p, es).life.Connecting?
    decreases |es|
  {
    if es != [] { StillConnected(p, es[..|es| - 1]); }
  }

  /** The connection object: every method performs one pump event. */
  class Connection {
    var isOpen: bool
    var sendingQueue: seq<Bytes>
    var inFlight: seq<Bytes>
    ghost var life: Life
    ghost var accepted: seq<Bytes>
    ghost var completed: seq<Bytes>
    ghost var failed: bool

    ghost function State(): Pump
      reads this
    {
      Pump(life, sendingQueue, inFlight, accepted, completed, failed)
    }

    ghost predicate Valid()
      reads this
    {
      PumpInv(State()) && (isOpen <==> life.Open?)
    }

    constructor ()
      ensures Valid() && State() == IdlePump
    {
      isOpen, sendingQueue, inFlight := false, [], [];
      life, accepted, completed, failed := Connecting, [], [], false;
    }

    method QueueMessage(combinedVector: Bytes)
      requires Valid()
      modifies this
      ensures Valid() && State() == PumpStep(old(State()), Queue(combinedVector))
    {
      PumpStepKeepsInv(State(), Queue(combinedVector));
      if isOpen { accepted := accepted + [combinedVector]; }
      sendingQueue := sendingQueue + [combinedVector];
      if |sendingQueue| == 1 { AsyncWrite(); }
    }

    method AsyncWrite()
      requires isOpen <==> life.Open?
      requires sendingQueue != []
      modifies this`sendingQueue, this`inFlight
      ensures State() == StartWrite(old(State()))
    {
      if !isOpen {
        while sendingQueue != []
          invariant inFlight == old(inFlight)
          decreases |sendingQueue|
        {
          sendingQueue := sendingQueue[1..];
        }
        return;
      }
      var combinedVector := sendingQueue[0];
      inFlight := inFlight + [combinedVector];
    }

    /** The completion handler bound in asyncWrite; true asks the manager to stop this connection. */
    method OnWritten(ok: bool) returns (stop: bool)
      requires Valid() && inFlight != []
      modifies this
      ensures Valid() && State() == PumpStep(old(State()), Written(ok))
      ensures stop == !ok
    {
      PumpStepKeepsInv(State(), Written(ok));
      inFlight := inFlight[1..];
      completed := completed + sendingQueue[..1];
      sendingQueue := sendingQueue[1..];
      if !ok {
        failed := true;
      } else if sendingQueue != [] {
        AsyncWrite();
      }
      stop := !ok;
    }
  }

  // ---------- the link: strand, pump and wire ----------

  /**
   * An open, error-free connection from one side to the other. `posted` holds
   * the queueMessage handlers posted to the strand; `transmitted` says that
   * the outstanding write has already reached the wire.
   */
  datatype Link = Link(posted: seq<Bytes>, pump: Pump, transmitted: bool, wire: seq<Bytes>)

  datatype LinkEvent =
    | Post(frame: Bytes)     // send() from another thread
    | Direct(frame: Bytes)   // send() from inside the strand: authentication replies
    | RunPosted
    | Transmit
    | WriteDone
    | Receive

  const IdleLink := Link([], IdlePump.(life := Open), false, [])

  predicate LinkEnabled(l: Link, e: LinkEvent) {
    match e
    case Post(frame) => Readable(frame)
    case Direct(frame) => Readable(frame) && frame[0] == AUTHENTICATION
    case RunPosted => l.posted != []
    case Transmit => l.pump.inFlight != [] && !l.transmitted
    case WriteDone => l.pump.inFlight != [] && l.transmitted
    case Receive => l.wire != []
  }

  function LinkStep(l: Link, e: LinkEvent): Link {
    if !LinkEnabled(l, e) then l
    else match e
      case Post(frame) => l.(posted := l.posted + [frame])
      case Direct(frame) => l.(pump := PumpStep(l.pump, Queue(frame)))
      case RunPosted => l.(posted := l.posted[1..], pump := PumpStep(l.pump, Queue(l.posted[0])))
      case Transmit => l.(wire := l.wire + [l.pump.inFlight[0]], transmitted := true)
      case WriteDone => l.(pump := PumpStep(l.pump, Written(true)), transmitted := false)
      case Receive => l.(wire := l.wire[1..])
  }

  predicate AllReadable(frames: seq<Bytes>) {
    forall i :: 0 <= i < |frames| ==> Readable(frames[i])
  }

  /** Queued frames that have not reached the wire. */
  function Unsent(l: Link): seq<Bytes> {
    if l.transmitted && l.pump.sendingQueue != [] then l.pump.sendingQueue[1..] else l.pump.sendingQueue
  }

  /** Everything between send() and the peer's read loop, oldest first. */
  function OnTheWay(l: Link): seq<Bytes> {
    l.wire + Unsent(l) + l.posted
  }

  predicate LinkInv(l: Link) {
    && PumpInv(l.pump) && l.pump.life.Open? && !l.pump.failed
    && (l.transmitted ==> l.pump.inFlight != [])
    && AllReadable(l.wire) && AllReadable(l.pump.sendingQueue) && AllReadable(l.posted)
  }

  /** The frames of one channel, in order. */
  function Only(frames: seq<Bytes>, channel: byte): seq<Bytes> {
    Gather((f: Bytes) => OnlyOf(f, channel), frames)
  }

  function OnlyOf(frame: Bytes, channel: byte): seq<Bytes> {
    if frame != [] && frame[0] == channel then [frame] else []
  }

  lemma OnlySnoc(frames: seq<Bytes>, frame: Bytes, channel: byte)
    ensures Only(frames + [frame], channel) == Only(frames, channel) + OnlyOf(frame, channel)
  {
    GatherSnoc((f: Bytes) => OnlyOf(f, channel), frames, frame);
  }

  lemma OnlyHead(frames: seq<Bytes>, channel: byte)
    requires frames != []
    ensures Only(frames, channel) == OnlyOf(frames[0], channel) + Only(frames[1..], channel)
  {
    GatherHead((f: Bytes) => OnlyOf(f, channel), frames);
  }

  lemma OnlySkips(head: seq<Bytes>, frame: Bytes, tail: seq<Bytes>, channel: byte)
    requires OnlyOf(frame, channel) == []
    ensures Only(head + [frame] + tail, channel) == Only(head + tail, channel)
  {
    GatherSkip((f: Bytes) => OnlyOf(f, channel), head, frame, tail);
  }

  /** What one link event does to the traffic of a channel. */
  predicate FifoStep(l: Link, e: LinkEvent, l': Link, channel: byte) {
    var before, after := Only(OnTheWay(l), channel), Only(OnTheWay(l'), channel);
    if !LinkEnabled(l, e) then after == before
    else match e
      case Post(frame) => after == before + OnlyOf(frame, channel)
      case Receive => before == OnlyOf(l.wire[0], channel) + after
      case _ => after == before
  }

  lemma LinkStepKeepsInv(l: Link, e: LinkEvent)
    requires LinkInv(l)
    ensures LinkInv(LinkStep(l, e))
  {
    if LinkEnabled(l, e) {
      match e
      case Direct(frame) => PumpStepKeepsInv(l.pump, Queue(frame));
      case RunPosted => PumpStepKeepsInv(l.pump, Queue(l.posted[0]));
      case WriteDone => PumpStepKeepsInv(l.pump, Written(true));
      case _ =>
    }
  }

  /**
   * The strand, the queue with its outstanding front, and the wire together
   * behave as one FIFO queue for every channel but AUTHENTICATION.
   */
  lemma LinkIsFifo(l: Link, e: LinkEvent, channel: byte)
    requires LinkInv(l) && channel != AUTHENTICATION
    ensures LinkInv(LinkStep(l, e)) && FifoStep(l, e, LinkStep(l, e), channel)
  {
    LinkStepKeepsInv(l, e);
    match e
    case Post(frame) =>
      if LinkEnabled(l, e) {
        assert OnTheWay(LinkStep(l, e)) == OnTheWay(l) + [frame];
        OnlySnoc(OnTheWay(l), frame, channel);
      }
    case Direct(frame) =>
      if LinkEnabled(l, e) { DirectKeepsOthers(l, frame, channel); }
    case Receive =>
      if LinkEnabled(l, e) {
        assert OnTheWay(l)[1..] == OnTheWay(LinkStep(l, e));
        OnlyHead(OnTheWay(l), channel);
      }
    case _ => MoveKeepsOrder(l, e);
  }

  /** Receiving takes the oldest frame of its channel. */
  lemma ReceiveTakesOldest(l: Link)
    requires LinkInv(l) && l.wire != [] && l.wire[0][0] != AUTHENTICATION
    ensures LinkInv(LinkStep(l, Receive))
    ensures var channel := l.wire[0][0];
            Only(OnTheWay(l), channel) == [l.wire[0]] + Only(OnTheWay(LinkStep(l, Receive)), channel)
  {
    LinkIsFifo(l, Receive, l.wire[0][0]);
  }

  /** A frame sent from inside the strand joins the sending queue, ahead of what is still posted. */
  lemma DirectOvertakesPosted(l: Link, frame: Bytes)
    requires LinkInv(l) && LinkEnabled(l, Direct(frame))
    ensures OnTheWay(LinkStep(l, Direct(frame))) == l.wire + Unsent(l) + [frame] + l.posted
  {
    EnqueueExtendsUnsent(l, frame);
  }

  lemma DirectKeepsOthers(l: Link, frame: Bytes, channel: byte)
    requires LinkInv(l) && channel != AUTHENTICATION && LinkEnabled(l, Direct(frame))
    ensures LinkInv(LinkStep(l, Direct(frame)))
    ensures Only(OnTheWay(LinkStep(l, Direct(frame))), channel) == Only(OnTheWay(l), channel)
  {
    LinkStepKeepsInv(l, Direct(frame));
    EnqueueExtendsUnsent(l, frame);
    OnlySkips(l.wire + Unsent(l), frame, l.posted, channel);
    assert OnTheWay(LinkStep(l, Direct(frame))) == l.wire + Unsent(l) + [frame] + l.posted;
  }

  lemma EnqueueExtendsUnsent(l: Link, frame: Bytes)
    requires LinkInv(l)
    ensures Unsent(l.(pump := PumpStep(l.pump, Queue(frame)))) == Unsent(l) + [frame]
  {
    if l.transmitted { assert (l.pump.sendingQueue + [frame])[1..] == l.pump.sendingQueue[1..] + [frame]; }
  }

  lemma RunPostedKeepsOrder(l: Link)
    requires LinkInv(l) && l.posted != []
    ensures OnTheWay(LinkStep(l, RunPosted)) == OnTheWay(l)
  {
    EnqueueExtendsUnsent(l, l.posted[0]);
    Assoc(l.wire, Unsent(l), [l.posted[0]]);
    Assoc(l.wire + Unsent(l), [l.posted[0]], l.posted[1..]);
    assert l.posted == [l.posted[0]] + l.posted[1..];
  }

  lemma TransmitKeepsOrder(l: Link)
    requires LinkInv(l) && LinkEnabled(l, Transmit)
    ensures OnTheWay(LinkStep(l, Transmit)) == OnTheWay(l)
  {
    var frame, l' := l.pump.inFlight[0], LinkStep(l, Transmit);
    assert Unsent(l) == [frame] + Unsent(l');
    Assoc(l.wire, [frame], Unsent(l'));
  }

  lemma WriteDoneKeepsOrder(l: Link)
    requires LinkInv(l) && LinkEnabled(l, WriteDone)
    ensures OnTheWay(LinkStep(l, WriteDone)) == OnTheWay(l)
  {
    assert Unsent(LinkStep(l, WriteDone)) == Unsent(l);
  }

  lemma MoveKeepsOrder(l: Link, e: LinkEvent)
    requires LinkInv(l) && (e.RunPosted? || e.Transmit? || e.WriteDone?)
    ensures OnTheWay(LinkStep(l, e)) == OnTheWay(l)
  {
    if LinkEnabled(l, e) {
      match e
      case RunPosted => RunPostedKeepsOrder(l);
      case Transmit => TransmitKeepsOrder(l);
      case WriteDone => WriteDoneKeepsOrder(l);
    }
  }

  // ---------- progress ----------

  function One(b: bool): nat {
    if b then 1 else 0
  }

  /** Each frame counts the steps it has before it, and a transmitted one has one less. */
  function LinkWork(l: Link): int {
    8 * |l.posted| + 7 * |l.pump.sendingQueue| - 6 * One(l.transmitted) + 5 * |l.wire|
  }

  lemma LinkWorkIsNatural(l: Link)
    requires LinkInv(l)
    ensures LinkWork(l) >= 5 * |l.wire|
  {
  }

  /** A step that moves a frame on. */
  predicate Moves(le: LinkEvent) {
    le.RunPosted? || le.Transmit? || le.WriteDone? || le.Receive?
  }

  /** Every such step leaves less to do, and a read takes five. */
  lemma LinkMoves(l: Link, le: LinkEvent)
    requires LinkInv(l) && LinkEnabled(l, le) && Moves(le)
    ensures LinkInv(LinkStep(l, le))
    ensures LinkWork(LinkStep(l, le)) <= LinkWork(l) - if le.Receive? then 5 else 1
  {
    LinkStepKeepsInv(l, le);
  }

  /** The stage nearest to the reader that has something to do. */
  function BusiestStage(l: Link): LinkEvent {
    if l.wire != [] then Receive
    else if l.transmitted then WriteDone
    else if l.pump.inFlight != [] then Transmit
    else RunPosted
  }

  /** Nothing is queued, posted or on the wire. */
  predicate Quiet(l: Link) {
    l.wire == [] && l.pump.sendingQueue == [] && l.posted == []
  }

  /** A link that holds anything is not stuck. */
  lemma LinkIsNeverStuck(l: Link)
    requires LinkInv(l) && !Quiet(l)
    ensures LinkEnabled(l, BusiestStage(l)) && Moves(BusiestStage(l))
  {
  }
}
