/**
 * On-demand subscription: a publisher announces that local subscribers appear
 * and go away (with a ten-second hysteresis), and the peer creates and destroys
 * the matching subscriber.
 */
module Subscription {
  import opened Types
  import opened Wire
  import opened Transport
  import opened Sequences
  import Routing

  // ---------- hysteresis ----------

  const TEN_SECONDS := 10_000_000_000

  /** PublisherBase; `goneAway` is 0 while no gone-away time is stored. */
  datatype Publisher = Publisher(hasSubscriber: bool, goneAway: int)

  const NewPublisher := Publisher(false, 0)

  /** One call of testForSubscriber: the subscription count and the clock reading. */
  datatype Poll = Poll(count: nat, now: int)

  function Polled(p: Publisher, poll: Poll): (Publisher, Option<bool>) {
    if p.hasSubscriber && poll.count == 0 then
      if p.goneAway == 0 then (p.(goneAway := poll.now), None)
      else if poll.now - p.goneAway >= TEN_SECONDS then (p.(hasSubscriber := false), Some(false))
      else (p, None)
    else if p.hasSubscriber && p.goneAway > 0 && poll.count > 0 then (p.(goneAway := 0), None)
    else if !p.hasSubscriber && poll.count > 0 then (Publisher(true, 0), Some(true))
    else (p, None)
  }

  class PublisherBase {
    var hasSubscriber: bool
    var subscriberGoneAwayTimePoint: int
    var notified: seq<bool>   // the notifications sent, in order

    ghost function State(): Publisher
      reads this
    {
      Publisher(hasSubscriber, subscriberGoneAwayTimePoint)
    }

    constructor ()
      ensures State() == NewPublisher && notified == []
    {
      hasSubscriber, subscriberGoneAwayTimePoint, notified := false, 0, [];
    }

    method TestForSubscriber(subscriptionCount: nat, now: int)
      modifies this
      ensures State() == Polled(old(State()), Poll(subscriptionCount, now)).0
      ensures notified == old(notified) + NotedBy(Polled(old(State()), Poll(subscriptionCount, now)).1)
    {
      if hasSubscriber && subscriptionCount == 0 {
        if subscriberGoneAwayTimePoint == 0 {
          subscriberGoneAwayTimePoint := now;
        } else if now - subscriberGoneAwayTimePoint >= TEN_SECONDS {
          notified := notified + [false];
          hasSubscriber := false;
        }
      } else if hasSubscriber && subscriberGoneAwayTimePoint > 0 && subscriptionCount > 0 {
        subscriberGoneAwayTimePoint := 0;
      } else if !hasSubscriber && subscriptionCount > 0 {
        notified := notified + [true];
        subscriberGoneAwayTimePoint := 0;
        hasSubscriber := true;
      }
    }
  }

  function PolledAll(p: Publisher, polls: seq<Poll>): Publisher
    decreases |polls|
  {
    if polls == [] then p else Polled(PolledAll(p, polls[..|polls| - 1]), polls[|polls| - 1]).0
  }

  function NotedBy(note: Option<bool>): seq<bool> {
    if note.None? then [] else [note.value]
  }

  /** The notifications a publisher sends over some polls. */
  function NotesOf(p: Publisher, polls: seq<Poll>): seq<bool>
    decreases |polls|
  {
    if polls == [] then []
    else NotesOf(p, polls[..|polls| - 1]) + NotedBy(Polled(PolledAll(p, polls[..|polls| - 1]), polls[|polls| - 1]).1)
  }

  function After(polls: seq<Poll>): Publisher
    decreases |polls|
  {
    if polls == [] then NewPublisher else Polled(After(polls[..|polls| - 1]), polls[|polls| - 1]).0
  }

  /** The notification sent by poll i, if any. */
  function NotifiedAt(polls: seq<Poll>, i: nat): Option<bool>
    requires i < |polls|
  {
    Polled(After(polls[..i]), polls[i]).1
  }

  function Notified(polls: seq<Poll>): seq<bool>
    decreases |polls|
  {
    if polls == [] then []
    else
      var last := |polls| - 1;
      Notified(polls[..last]) + match NotifiedAt(polls, last) case None => [] case Some(value) => [value]
  }

  /** Notifications alternate, starting with true; the last one is the current state. */
  lemma {:induction false} NotificationsAlternate(polls: seq<Poll>)
    ensures forall k :: 0 <= k < |Notified(polls)| ==> Notified(polls)[k] == (k % 2 == 0)
    ensures After(polls).hasSubscriber <==> |Notified(polls)| % 2 == 1
    decreases |polls|
  {
    if polls != [] { NotificationsAlternate(polls[..|polls| - 1]); }
  }

  /** Every poll from j on, up to and including i, counted no subscriber. */
  predicate ZeroWindow(polls: seq<Poll>, j: nat, i: nat)
    requires i < |polls|
  {
    j <= i && forall k :: j <= k <= i ==> polls[k].count == 0
  }

  predicate Readings(polls: seq<Poll>) {
    forall k :: 0 <= k < |polls| ==> 0 <= polls[k].now
  }

  predicate Clock(polls: seq<Poll>) {
    forall j, k :: 0 <= j <= k < |polls| ==> 0 < polls[j].now <= polls[k].now
  }

  /** A stored gone-away time is the reading of a poll since which nobody was counted. */
  lemma {:induction false} GoneAwayIsAReading(polls: seq<Poll>) returns (j: nat)
    requires Readings(polls) && After(polls).hasSubscriber && After(polls).goneAway != 0
    ensures j < |polls| && ZeroWindow(polls, j, |polls| - 1) && polls[j].now == After(polls).goneAway
    decreases |polls|
  {
    var last := |polls| - 1;
    var before := polls[..last];
    if After(before).hasSubscriber && After(before).goneAway != 0 {
      j := GoneAwayIsAReading(before);
      NonNegative(before);
    } else {
      j := last;
    }
  }

  lemma {:induction false} NonNegative(polls: seq<Poll>)
    requires Readings(polls)
    ensures After(polls).goneAway >= 0
    decreases |polls|
  {
    if polls != [] { NonNegative(polls[..|polls| - 1]); }
  }

  /** The hysteresis: nobody is reported gone before ten seconds without a single subscriber counted. */
  lemma GoneOnlyAfterTenSeconds(polls: seq<Poll>, i: nat)
    requires i < |polls| && Readings(polls) && NotifiedAt(polls, i) == Some(false)
    ensures exists j :: 0 <= j < i && ZeroWindow(polls, j, i) && polls[i].now - polls[j].now >= TEN_SECONDS
  {
    var j := GoneAwayIsAReading(polls[..i]);
    assert ZeroWindow(polls, j, i) && polls[i].now - polls[j].now >= TEN_SECONDS;
  }

  /** With a running clock the first poll of an empty window has stored its time. */
  lemma {:induction false} EmptyWindowIsStored(polls: seq<Poll>, j: nat)
    requires Clock(polls) && After(polls).hasSubscriber
    requires j < |polls| && ZeroWindow(polls, j, |polls| - 1)
    ensures 0 < After(polls).goneAway <= polls[j].now
    decreases |polls|
  {
    var last := |polls| - 1;
    var before := polls[..last];
    if j < last {
      EmptyWindowIsStored(before, j);
    } else if After(before).goneAway != 0 {
      NonNegative(before);
      var k := GoneAwayIsAReading(before);
      assert polls[k].now <= polls[last].now;
    }
  }

  /** With a running clock the report is sent exactly when ten empty seconds have been seen. */
  lemma GoneExactlyAfterTenSeconds(polls: seq<Poll>, i: nat)
    requires i < |polls| && Clock(polls)
    ensures NotifiedAt(polls, i) == Some(false) <==>
            && After(polls[..i]).hasSubscriber
            && exists j :: 0 <= j < i && ZeroWindow(polls, j, i) && polls[i].now - polls[j].now >= TEN_SECONDS
  {
    if NotifiedAt(polls, i) == Some(false) {
      assert Readings(polls);
      GoneOnlyAfterTenSeconds(polls, i);
    } else if After(polls[..i]).hasSubscriber {
      forall j | 0 <= j < i && ZeroWindow(polls, j, i)
        ensures polls[i].now - polls[j].now < TEN_SECONDS
      {
        EmptyWindowIsStored(polls[..i], j);
      }
    }
  }

  /** The poll whose reading is stored as the gone-away time; None while no time is stored. */
  function StoredBy(polls: seq<Poll>): Option<nat>
    decreases |polls|
  {
    if polls == [] then None
    else
      var last := |polls| - 1;
      var before, p := After(polls[..last]), polls[last];
      if before.hasSubscriber && p.count == 0 && before.goneAway == 0 then (if p.now == 0 then None else Some(last))
      else if After(polls).goneAway == 0 then None
      else StoredBy(polls[..last])
  }

  lemma {:induction false} StoredReading(polls: seq<Poll>)
    ensures StoredBy(polls).Some? <==> After(polls).goneAway != 0
    ensures StoredBy(polls).Some? ==>
              StoredBy(polls).value < |polls| && polls[StoredBy(polls).value].now == After(polls).goneAway
    decreases |polls|
  {
    if polls != [] { StoredReading(polls[..|polls| - 1]); }
  }

  /** The last poll reports false, by the reading that poll j stored. */
  predicate ReportsBy(polls: seq<Poll>, j: nat) {
    polls != [] && StoredBy(polls[..|polls| - 1]) == Some(j) && NotifiedAt(polls, |polls| - 1) == Some(false)
  }

  /** Nothing but zero-count polls from poll j to the last one, and ten seconds between them. */
  predicate TenSecondWindow(polls: seq<Poll>, j: nat) {
    && j < |polls| && ZeroWindow(polls, j, |polls| - 1)
    && polls[|polls| - 1].now - polls[j].now >= TEN_SECONDS
  }

  /** While a positive reading stays stored, nobody was counted since the poll that stored it. */
  lemma {:induction false} PositiveReadingGuards(pre: seq<Poll>, more: seq<Poll>)
    requires pre != [] && StoredBy(pre) == Some(|pre| - 1) && After(pre).hasSubscriber && pre[|pre| - 1].now > 0
    requires StoredBy(pre + more) == Some(|pre| - 1) && After(pre + more).hasSubscriber
    ensures forall k :: |pre| <= k < |pre + more| ==> (pre + more)[k].count == 0
    decreases |more|
  {
    if more != [] {
      var all, shorter := pre + more, pre + more[..|more| - 1];
      assert all[..|all| - 1] == shorter;
      StoredReading(all);
      StoredReading(shorter);
      PositiveReadingGuards(pre, more[..|more| - 1]);
    }
  }

  /** A negative reading is kept although somebody is counted, and reported ten seconds after it. */
  lemma NegativeReadingIsKept(pre: seq<Poll>)
    requires pre != [] && StoredBy(pre) == Some(|pre| - 1) && After(pre).hasSubscriber && pre[|pre| - 1].now < 0
    ensures var t := pre[|pre| - 1].now;
            ReportsBy(pre + [Poll(1, t), Poll(0, t + TEN_SECONDS)], |pre| - 1)
  {
    var t := pre[|pre| - 1].now;
    var seen, all := pre + [Poll(1, t)], pre + [Poll(1, t), Poll(0, t + TEN_SECONDS)];
    StoredReading(pre);
    assert seen[..|pre|] == pre && all[..|pre| + 1] == seen;
    assert After(seen) == After(pre);
  }

  /**
   * The window guarantee for arbitrary clock readings. A poll stores a reading
   * other than zero. In every continuation a false reported by that reading comes after
   * ten seconds of nothing but zero-count polls if and only if the reading is positive.
   */
  lemma WindowHoldsIffPositive(pre: seq<Poll>)
    requires pre != [] && StoredBy(pre) == Some(|pre| - 1) && After(pre).hasSubscriber
    ensures (forall more :: ReportsBy(pre + more, |pre| - 1) ==> TenSecondWindow(pre + more, |pre| - 1))
       <==> pre[|pre| - 1].now > 0
  {
    var j := |pre| - 1;
    var t := pre[j].now;
    if t > 0 {
      forall more | ReportsBy(pre + more, j) ensures TenSecondWindow(pre + more, j) {
        ReportedWindow(pre, more);
      }
    } else {
      StoredReading(pre);
      NegativeReadingIsKept(pre);
      var more := [Poll(1, t), Poll(0, t + TEN_SECONDS)];
      assert (pre + more)[j + 1].count == 1;
      assert !TenSecondWindow(pre + more, j);
    }
  }

  lemma ReportedWindow(pre: seq<Poll>, more: seq<Poll>)
    requires pre != [] && StoredBy(pre) == Some(|pre| - 1) && After(pre).hasSubscriber && pre[|pre| - 1].now > 0
    requires ReportsBy(pre + more, |pre| - 1)
    ensures TenSecondWindow(pre + more, |pre| - 1)
  {
    var all := pre + more;
    StoredReading(all[..|all| - 1]);
    var shorter := more[..|more| - 1];
    LastOfSum(pre, more);
    StoringCountsNobody(pre);
    ReportCountsNobody(all, |pre| - 1);
    PositiveReadingGuards(pre, shorter);
    WindowOfParts(pre, shorter, all);
  }

  lemma LastOfSum(pre: seq<Poll>, more: seq<Poll>)
    requires more != []
    ensures (pre + more)[..|pre + more| - 1] == pre + more[..|more| - 1]
  {
  }

  /** The poll that reports counted nobody, and the publisher was announced until then. */
  lemma ReportCountsNobody(all: seq<Poll>, j: nat)
    requires ReportsBy(all, j)
    ensures all[|all| - 1].count == 0 && After(all[..|all| - 1]).hasSubscriber
    ensures j < |all| && all[|all| - 1].now - all[j].now >= TEN_SECONDS
  {
    StoredReading(all[..|all| - 1]);
  }

  lemma WindowOfParts(pre: seq<Poll>, shorter: seq<Poll>, all: seq<Poll>)
    requires pre != [] && pre[|pre| - 1].count == 0
    requires all != [] && all[..|all| - 1] == pre + shorter && all[|all| - 1].count == 0
    requires forall k :: |pre| <= k < |pre + shorter| ==> (pre + shorter)[k].count == 0
    ensures ZeroWindow(all, |pre| - 1, |all| - 1)
  {
    forall k | |pre| - 1 <= k < |all| ensures all[k].count == 0 {
      if k < |all| - 1 { assert all[k] == (pre + shorter)[k]; }
    }
  }

  /** The poll that stores counted nobody. */
  lemma StoringCountsNobody(pre: seq<Poll>)
    requires pre != [] && StoredBy(pre) == Some(|pre| - 1)
    ensures pre[|pre| - 1].count == 0
  {
    StoredReading(pre[..|pre| - 1]);
  }

  // ---------- the subscriber manager ----------

  datatype Topic = Topic(channel: byte, permanent: bool)

  datatype Outcome =
    | NotASubscription | ClockSwitched | UnknownChannel
    | Subscribed | AlreadySubscribed
    | Unsubscribed | NotSubscribed | KeptPermanent

  function FindTopic(topics: seq<Topic>, channel: byte): (t: Option<Topic>)
    ensures t.Some? ==> t.value in topics && t.value.channel == channel
    ensures t.None? ==> forall x <- topics :: x.channel != channel
  {
    if topics == [] then None
    else if topics[0].channel == channel then Some(topics[0])
    else FindTopic(topics[1..], channel)
  }

  /** toSubscription reads two bytes without checking. */
  predicate Legible(m: Rcl) {
    m.channel == SUBSCRIPTION ==> |m.buffer| >= 2
  }

  /** One iteration of the run loop. */
  function Handled(topics: seq<Topic>, subscribers: set<byte>, m: Rcl): (set<byte>, Outcome)
    requires Legible(m)
  {
    if m.channel != SUBSCRIPTION then (subscribers, NotASubscription)
    else
      var (channel, wanted) := ToSubscription(m);
      if channel == CLOCK then (subscribers, ClockSwitched)
      else
        match FindTopic(topics, channel)
        case None => (subscribers, UnknownChannel)
        case Some(topic) =>
          if wanted then
            if channel in subscribers then (subscribers, AlreadySubscribed) else (subscribers + {channel}, Subscribed)
          else if channel !in subscribers then (subscribers, NotSubscribed)
          else if topic.permanent then (subscribers, KeptPermanent)
          else (subscribers - {channel}, Unsubscribed)
  }

  function Permanent(topics: seq<Topic>): set<byte> {
    set t | t in topics && t.permanent :: t.channel
  }

  function HandledAll(topics: seq<Topic>, subscribers: set<byte>, ms: seq<Rcl>): set<byte>
    requires forall i :: 0 <= i < |ms| ==> Legible(ms[i])
    decreases |ms|
  {
    if ms == [] then subscribers else HandledAll(topics, Handled(topics, subscribers, ms[0]).0, ms[1..])
  }

  /**
   * Whether the clock subscriber runs after some messages: the last CLOCK notification decides, if
   * clock subscription is enabled.
   */
  function ClockAfter(subscribeClock: bool, runs: bool, ms: seq<Rcl>): bool
    requires forall i :: 0 <= i < |ms| ==> Legible(ms[i])
    decreases |ms|
  {
    if ms == [] then runs
    else
      var m, before := ms[|ms| - 1], ClockAfter(subscribeClock, runs, ms[..|ms| - 1]);
      assert Legible(m);
      if m.channel == SUBSCRIPTION && ToSubscription(m).0 == CLOCK && subscribeClock then ToSubscription(m).1
      else before
  }

  class SubscriberManager {
    const topics: seq<Topic>
    var subscribers: set<byte>
    var toSubscribe: seq<Rcl>
    var clockRuns: bool

    constructor (topics: seq<Topic>)
      ensures this.topics == topics && subscribers == {} && toSubscribe == []
    {
      this.topics, subscribers, toSubscribe, clockRuns := topics, {}, [], false;
    }

    /** Creates all permanent subscribers. */
    method Init()
      modifies this`subscribers
      ensures subscribers == old(subscribers) + Permanent(topics)
    {
      for i := 0 to |topics|
        invariant subscribers == old(subscribers) + Permanent(topics[..i])
      {
        assert topics[..i + 1] == topics[..i] + [topics[i]];
        if topics[i].permanent { subscribers := subscribers + {topics[i].channel}; }
      }
      assert topics[..|topics|] == topics;
    }

    method Subscribe(message: Rcl)
      modifies this`toSubscribe
      ensures toSubscribe == old(toSubscribe) + [message]
    {
      toSubscribe := toSubscribe + [message];
    }

    /** The run loop, until it would block on an empty queue. */
    method Run(subscribeClock: bool)
      requires forall i :: 0 <= i < |toSubscribe| ==> Legible(toSubscribe[i])
      modifies this
      ensures toSubscribe == []
      ensures subscribers == HandledAll(topics, old(subscribers), old(toSubscribe))
      ensures clockRuns == ClockAfter(subscribeClock, old(clockRuns), old(toSubscribe))
    {
      ghost var all, n := toSubscribe, 0;
      while toSubscribe != []
        invariant n <= |all| && toSubscribe == all[n..]
        invariant HandledAll(topics, subscribers, toSubscribe) == HandledAll(topics, old(subscribers), all)
        invariant clockRuns == ClockAfter(subscribeClock, old(clockRuns), all[..n])
        decreases |toSubscribe|
      {
        var message := toSubscribe[0];
        toSubscribe := toSubscribe[1..];
        assert all[..n + 1][..n] == all[..n] && all[..n + 1][n] == message;
        n := n + 1;
        if message.channel != SUBSCRIPTION { continue; }
        var (channel, wanted) := ToSubscription(message);
        if channel == CLOCK {
          if subscribeClock { clockRuns := wanted; }
          continue;
        }
        var topic: Option<Topic> := None;
        var i := 0;
        while i < |topics| && topic.None?
          invariant i <= |topics|
          invariant topic.None? ==> FindTopic(topics, channel) == FindTopic(topics[i..], channel)
          invariant topic.Some? ==> FindTopic(topics, channel) == topic
          decreases |topics| - i, topic.None?
        {
          if topics[i].channel == channel { topic := Some(topics[i]); } else { i := i + 1; }
        }
        if topic.None? { continue; }
        if wanted {
          if channel !in subscribers { subscribers := subscribers + {channel}; }
        } else if channel in subscribers && !topic.value.permanent {
          subscribers := subscribers - {channel};
        }
      }
      assert all[..n] == all;
    }
  }

  // ---------- distributed agreement ----------

  /**
   * The publishing side, the announcements on their way to the peer, and the
   * peer's subscriber manager.
   */
  datatype System = System(
    publishers: map<byte, Publisher>,
    flight: seq<Bytes>,
    toSubscribe: seq<Rcl>,
    subscribers: set<byte>,
    log: seq<(byte, Outcome)>)   // history: what the manager did with each notification

  datatype Event =
    | PollEvent(channel: byte, poll: Poll)
    | Arrive
    | HandleOne

  function Initial(publishers: set<byte>, topics: seq<Topic>): System {
    System(map c | c in publishers :: NewPublisher, [], [], Permanent(topics), [])
  }

  function Announced(s: System, c: byte, poll: Poll): seq<Bytes> {
    if c !in s.publishers then []
    else match Polled(s.publishers[c], poll).1
      case None => []
      case Some(value) => [SubscriptionBytes(c, value)]
  }

  /** An event that cannot happen leaves the state as it is. */
  function Step(topics: seq<Topic>, s: System, e: Event): System {
    match e
    case PollEvent(c, poll) =>
      if c !in s.publishers then s
      else s.(publishers := s.publishers[c := Polled(s.publishers[c], poll).0],
              flight := s.flight + Announced(s, c, poll))
    case Arrive =>
      if s.flight == [] || !Readable(s.flight[0]) then s
      else s.(flight := s.flight[1..], toSubscribe := s.toSubscribe + [FromFlatBuffer(s.flight[0])])
    case HandleOne =>
      if s.toSubscribe == [] || !Legible(s.toSubscribe[0]) then s
      else
        var m := s.toSubscribe[0];
        var (subscribers, outcome) := Handled(topics, s.subscribers, m);
        s.(toSubscribe := s.toSubscribe[1..], subscribers := subscribers,
           log := if m.channel == SUBSCRIPTION then s.log + [(ToSubscription(m).0, outcome)] else s.log)
  }

  /** Notifications toggle: starting from `start`, each reverses the state, ending in `end`. */
  predicate Toggles(start: bool, notes: seq<bool>, end: bool)
    decreases |notes|
  {
    if notes == [] then start == end else notes[0] == !start && Toggles(notes[0], notes[1..], end)
  }

  lemma {:induction false} TogglesSnoc(start: bool, notes: seq<bool>, end: bool)
    requires Toggles(start, notes, end)
    ensures Toggles(start, notes + [!end], !end)
    decreases |notes|
  {
    if notes == [] {
    } else {
      TogglesSnoc(notes[0], notes[1..], end);
      assert (notes + [!end])[1..] == notes[1..] + [!end];
    }
  }

  /** A frame as notifyAboutSubscriber builds it, and the message it is read as. */
  predicate IsAnnouncement(frame: Bytes) {
    |frame| == 4 && frame[0] == SUBSCRIPTION && frame[1] == 0
  }

  predicate IsNotification(m: Rcl) {
    m.channel == SUBSCRIPTION && |m.buffer| == 2
  }

  function NoteOf(m: Rcl, channel: byte): seq<bool> {
    if IsNotification(m) && m.buffer[0] == channel then [m.buffer[1] == 1] else []
  }

  function NoteIn(frame: Bytes, channel: byte): seq<bool> {
    if IsAnnouncement(frame) && frame[2] == channel then [frame[3] == 1] else []
  }

  function QueuedNotes(ms: seq<Rcl>, channel: byte): seq<bool> {
    Gather((m: Rcl) => NoteOf(m, channel), ms)
  }

  function FlyingNotes(frames: seq<Bytes>, channel: byte): seq<bool> {
    Gather((f: Bytes) => NoteIn(f, channel), frames)
  }

  /** Everything under way is a notification the manager can read. */
  predicate Shape(s: System) {
    && (forall i :: 0 <= i < |s.flight| ==> IsAnnouncement(s.flight[i]))
    && (forall i :: 0 <= i < |s.toSubscribe| ==> IsNotification(s.toSubscribe[i]))
  }

  /** The notifications of a channel not yet carried out, oldest first. */
  function Pending(s: System, channel: byte): seq<bool> {
    QueuedNotes(s.toSubscribe, channel) + FlyingNotes(s.flight, channel)
  }

  /** A channel whose subscriber exists only on demand. */
  predicate OnDemand(topics: seq<Topic>, publishers: set<byte>, channel: byte) {
    channel != CLOCK && channel in publishers
    && FindTopic(topics, channel).Some? && !FindTopic(topics, channel).value.permanent
  }

  /**
   * "A subscriber exists" with the pending notifications applied is the
   * publisher's state, and every notification so far was carried out.
   */
  predicate Agreed(s: System, channel: byte) {
    && Shape(s) && channel in s.publishers
    && Toggles(channel in s.subscribers, Pending(s, channel), s.publishers[channel].hasSubscriber)
    && (forall i :: 0 <= i < |s.log| && s.log[i].0 == channel ==>
          s.log[i].1 == Subscribed || s.log[i].1 == Unsubscribed)
  }

  lemma AnnouncePending(s: System, frame: Bytes, channel: byte)
    requires Shape(s) && IsAnnouncement(frame)
    ensures var s' := s.(flight := s.flight + [frame]);
            && Shape(s')
            && Pending(s', channel) == Pending(s, channel) + NoteIn(frame, channel)
  {
    GatherSnoc((f: Bytes) => NoteIn(f, channel), s.flight, frame);
  }

  lemma PollKeepsAgreed(topics: seq<Topic>, s: System, c: byte, poll: Poll, d: byte)
    requires Agreed(s, d)
    ensures Agreed(Step(topics, s, PollEvent(c, poll)), d)
  {
    var frames := Announced(s, c, poll);
    if frames == [] {
      assert s.flight + [] == s.flight;
    } else {
      AnnouncePending(s, frames[0], d);
      if d == c {
        TogglesSnoc(d in s.subscribers, Pending(s, d), s.publishers[d].hasSubscriber);
      } else {
        assert Pending(s, d) + [] == Pending(s, d);
      }
    }
  }

  lemma ArrivePending(s: System, channel: byte)
    requires Shape(s) && s.flight != []
    ensures Readable(s.flight[0])
    ensures var s' := s.(flight := s.flight[1..], toSubscribe := s.toSubscribe + [FromFlatBuffer(s.flight[0])]);
            Shape(s') && Pending(s', channel) == Pending(s, channel)
  {
    assert IsAnnouncement(s.flight[0]);
    var m := FromFlatBuffer(s.flight[0]);
    assert IsNotification(m) && m.buffer == s.flight[0][2..];
    GatherSnoc((x: Rcl) => NoteOf(x, channel), s.toSubscribe, m);
    GatherHead((f: Bytes) => NoteIn(f, channel), s.flight);
    var q, f := QueuedNotes(s.toSubscribe, channel), FlyingNotes(s.flight[1..], channel);
    var note := NoteIn(s.flight[0], channel);
    assert q + (note + f) == (q + note) + f;
  }

  lemma ArriveKeepsAgreed(topics: seq<Topic>, s: System, d: byte)
    requires Agreed(s, d)
    ensures Agreed(Step(topics, s, Arrive), d)
  {
    if s.flight != [] { ArrivePending(s, d); }
  }

  /** Handling the oldest notification of an on-demand channel carries it out. */
  lemma HandledToggles(topics: seq<Topic>, subscribers: set<byte>, m: Rcl, rest: seq<bool>, d: byte, end: bool)
    requires d != CLOCK && FindTopic(topics, d).Some? && !FindTopic(topics, d).value.permanent
    requires IsNotification(m) && Toggles(d in subscribers, NoteOf(m, d) + rest, end)
    ensures Toggles(d in Handled(topics, subscribers, m).0, rest, end)
    ensures m.buffer[0] == d ==>
              Handled(topics, subscribers, m).1 == Subscribed || Handled(topics, subscribers, m).1 == Unsubscribed
  {
    assert (NoteOf(m, d) + rest)[|NoteOf(m, d)|..] == rest;
  }

  lemma HandlePending(s: System, channel: byte)
    requires Shape(s) && s.toSubscribe != []
    ensures var s' := s.(toSubscribe := s.toSubscribe[1..]);
            && IsNotification(s.toSubscribe[0]) && Shape(s')
            && Pending(s, channel) == NoteOf(s.toSubscribe[0], channel) + Pending(s', channel)
  {
    assert IsNotification(s.toSubscribe[0]);
    GatherHead((m: Rcl) => NoteOf(m, channel), s.toSubscribe);
    var n, f := NoteOf(s.toSubscribe[0], channel), FlyingNotes(s.flight, channel);
    var q := QueuedNotes(s.toSubscribe[1..], channel);
    assert (n + q) + f == n + (q + f);
  }

  lemma HandleKeepsAgreed(topics: seq<Topic>, s: System, d: byte)
    requires Agreed(s, d) && OnDemand(topics, s.publishers.Keys, d)
    ensures Agreed(Step(topics, s, HandleOne), d)
  {
    if s.toSubscribe != [] {
      HandlePending(s, d);
      HandledToggles(topics, s.subscribers, s.toSubscribe[0], Pending(s.(toSubscribe := s.toSubscribe[1..]), d), d,
                     s.publishers[d].hasSubscriber);
    }
  }

  predicate UniqueChannels(topics: seq<Topic>) {
    forall i, j :: 0 <= i < j < |topics| ==> topics[i].channel != topics[j].channel
  }

  lemma PermanentIsFound(topics: seq<Topic>, d: byte)
    requires UniqueChannels(topics) && d in Permanent(topics)
    ensures FindTopic(topics, d).Some? && FindTopic(topics, d).value.permanent
  {
    var t :| t in topics && t.permanent && t.channel == d;
    assert FindTopic(topics, d).value == t;
  }

  lemma StepKeepsAgreed(topics: seq<Topic>, s: System, e: Event, channel: byte)
    requires Agreed(s, channel) && OnDemand(topics, s.publishers.Keys, channel)
    ensures Agreed(Step(topics, s, e), channel)
  {
    match e
    case PollEvent(c, poll) => PollKeepsAgreed(topics, s, c, poll, channel);
    case Arrive => ArriveKeepsAgreed(topics, s, channel);
    case HandleOne => HandleKeepsAgreed(topics, s, channel);
  }

  function Run(publishers: set<byte>, topics: seq<Topic>, es: seq<Event>): (s: System)
    ensures s.publishers.Keys == publishers
    decreases |es|
  {
    if es == [] then Initial(publishers, topics)
    else Step(topics, Run(publishers, topics, es[..|es| - 1]), es[|es| - 1])
  }

  /**
   * Agreement over every run: for an on-demand channel, "a subscriber exists"
   * with the pending notifications applied is the publisher's hasSubscriber, so
   * the two agree once drained; and the manager never finds a notification
   * already or not yet carried out.
   */
  lemma {:induction false} SubscriptionAgreement(
      publishers: set<byte>, topics: seq<Topic>, es: seq<Event>, channel: byte)
    requires UniqueChannels(topics) && OnDemand(topics, publishers, channel)
    ensures var s := Run(publishers, topics, es);
            && Agreed(s, channel)
            && (Pending(s, channel) == [] ==> (channel in s.subscribers <==> s.publishers[channel].hasSubscriber))
            && forall i :: 0 <= i < |s.log| && s.log[i].0 == channel ==>
                 s.log[i].1 != AlreadySubscribed && s.log[i].1 != NotSubscribed
    decreases |es|
  {
    if es == [] {
      if channel in Permanent(topics) { PermanentIsFound(topics, channel); }
    } else {
      SubscriptionAgreement(publishers, topics, es[..|es| - 1], channel);
      StepKeepsAgreed(topics, Run(publishers, topics, es[..|es| - 1]), es[|es| - 1], channel);
    }
  }

  /** A permanent channel stays subscribed from init on, whatever the peer announces. */
  lemma {:induction false} PermanentStaysSubscribed(
      publishers: set<byte>, topics: seq<Topic>, es: seq<Event>, channel: byte)
    requires UniqueChannels(topics) && exists t :: t in topics && t.permanent && t.channel == channel
    ensures channel in Run(publishers, topics, es).subscribers
    decreases |es|
  {
    assert channel in Permanent(topics);
    if es != [] {
      PermanentStaysSubscribed(publishers, topics, es[..|es| - 1], channel);
      PermanentIsFound(topics, channel);
    }
  }

  // ---------- the same system over a real link ----------

  /** Announcements travel over a link they share with all other traffic. */
  datatype OverLink = OverLink(rest: System, link: Link)

  datatype LinkedEvent = Local(event: Event) | OnLink(linkEvent: LinkEvent)

  /** The read loop hands this frame to the subscriber manager. */
  predicate ForManager(frame: Bytes) {
    Readable(frame) && Routing.ConsumerOf(frame[0]) == Routing.ToSubscriberManager
  }

  function Linked(topics: seq<Topic>, o: OverLink, e: LinkedEvent): OverLink {
    match e
    case Local(PollEvent(c, poll)) =>
      var frames := Announced(o.rest, c, poll);
      OverLink(Step(topics, o.rest, e.event).(flight := []),
               if frames == [] then o.link else LinkStep(o.link, Post(frames[0])))
    case Local(HandleOne) => o.(rest := Step(topics, o.rest, HandleOne))
    case Local(Arrive) => o
    case OnLink(le) =>
      if le.Post? && Readable(le.frame) && le.frame[0] == SUBSCRIPTION then o   // only polls announce subscriptions
      else if le.Receive? && o.link.wire != [] && ForManager(o.link.wire[0]) then
        OverLink(o.rest.(toSubscribe := o.rest.toSubscribe + [FromFlatBuffer(o.link.wire[0])]), LinkStep(o.link, le))
      else o.(link := LinkStep(o.link, le))
  }

  /** The system a linked state stands for: what is in flight is the link's subscription traffic. */
  function Seen(o: OverLink): System
    requires LinkInv(o.link)
  {
    o.rest.(flight := Only(OnTheWay(o.link), SUBSCRIPTION))
  }

  /** The event of the abstract system a linked event amounts to; None leaves it unchanged. */
  function Meaning(o: OverLink, e: LinkedEvent): Option<Event>
    requires LinkInv(o.link)
  {
    match e
    case Local(Arrive) => None
    case Local(event) => Some(event)
    case OnLink(le) =>
      if le.Receive? && o.link.wire != [] && ForManager(o.link.wire[0]) then Some(Arrive) else None
  }

  /** The link implements the flight: every linked step is one step of the system, or none. */
  lemma LinkedStepRefines(topics: seq<Topic>, o: OverLink, e: LinkedEvent)
    requires LinkInv(o.link)
    ensures LinkInv(Linked(topics, o, e).link)
    ensures Seen(Linked(topics, o, e)) ==
            match Meaning(o, e) case None => Seen(o) case Some(event) => Step(topics, Seen(o), event)
  {
    match e
    case Local(PollEvent(c, poll)) =>
      var frames := Announced(o.rest, c, poll);
      if frames != [] {
        LinkIsFifo(o.link, Post(frames[0]), SUBSCRIPTION);
      } else {
        assert Only(OnTheWay(o.link), SUBSCRIPTION) + [] == Only(OnTheWay(o.link), SUBSCRIPTION);
      }
    case Local(HandleOne) =>
    case Local(Arrive) =>
    case OnLink(le) =>
      if Meaning(o, e).Some? {
        ReceiveTakesOldest(o.link);
      } else {
        LinkIsFifo(o.link, le, SUBSCRIPTION);
      }
  }

  function LinkedRun(publishers: set<byte>, topics: seq<Topic>, es: seq<LinkedEvent>): OverLink
    decreases |es|
  {
    if es == [] then OverLink(Initial(publishers, topics), IdleLink)
    else Linked(topics, LinkedRun(publishers, topics, es[..|es| - 1]), es[|es| - 1])
  }

  /** Agreement for every run over a real link, interleaved with any other traffic. */
  lemma {:induction false} LinkedAgreement(
      publishers: set<byte>, topics: seq<Topic>, es: seq<LinkedEvent>, channel: byte)
    requires UniqueChannels(topics) && OnDemand(topics, publishers, channel)
    ensures var o := LinkedRun(publishers, topics, es);
            && LinkInv(o.link) && Seen(o).publishers.Keys == publishers
            && Agreed(Seen(o), channel)
    decreases |es|
  {
    if es == [] {
      SubscriptionAgreement(publishers, topics, [], channel);
      assert Seen(LinkedRun(publishers, topics, es)) == Initial(publishers, topics);
    } else {
      var o, e := LinkedRun(publishers, topics, es[..|es| - 1]), es[|es| - 1];
      LinkedAgreement(publishers, topics, es[..|es| - 1], channel);
      LinkedStepRefines(topics, o, e);
      if Meaning(o, e).Some? { StepKeepsAgreed(topics, Seen(o), Meaning(o, e).value, channel); }
    }
  }
}
