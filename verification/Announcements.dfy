/**
 * When a publisher announces its subscribers, and what that makes of the
 * peer's subscriber once the announcements have been carried out.
 */
module Announcements {
  import opened Types
  import opened Wire
  import opened Transport
  import opened Sequences
  import opened Subscription

  // ---------- when a subscriber is announced ----------

  /** Poll j announced a subscriber, and no poll between it and n took that back. */
  predicate AnnouncedSince(polls: seq<Poll>, j: nat, n: nat)
    requires j < n <= |polls|
  {
    NotifiedAt(polls, j) == Some(true) && forall k :: j < k < n ==> NotifiedAt(polls, k) != Some(false)
  }

  lemma NotifiedPrefix(polls: seq<Poll>, n: nat, k: nat)
    requires k < n <= |polls|
    ensures NotifiedAt(polls[..n], k) == NotifiedAt(polls, k)
  {
    assert polls[..n][..k] == polls[..k];
  }

  lemma AnnouncedPrefix(polls: seq<Poll>, j: nat, n: nat)
    requires j < n <= |polls|
    ensures AnnouncedSince(polls[..n], j, n) <==> AnnouncedSince(polls, j, n)
  {
    forall k | 0 <= k < n ensures NotifiedAt(polls[..n], k) == NotifiedAt(polls, k) { NotifiedPrefix(polls, n, k); }
  }

  /** The publisher's state is what it announced last. */
  lemma {:induction false} SubscribedIffAnnounced(polls: seq<Poll>)
    ensures After(polls).hasSubscriber <==> exists j :: 0 <= j < |polls| && AnnouncedSince(polls, j, |polls|)
    decreases |polls|
  {
    if polls != [] {
      var last := |polls| - 1;
      var before := polls[..last];
      SubscribedIffAnnounced(before);
      forall j | 0 <= j < last
        ensures AnnouncedSince(polls, j, |polls|) <==>
                AnnouncedSince(before, j, last) && NotifiedAt(polls, last) != Some(false)
      {
        AnnouncedPrefix(polls, j, last);
      }
      if After(before).hasSubscriber && NotifiedAt(polls, last) != Some(false) {
        var j :| 0 <= j < last && AnnouncedSince(before, j, last);
        assert AnnouncedSince(polls, j, |polls|);
      }
      if NotifiedAt(polls, last) == Some(true) { assert AnnouncedSince(polls, last, |polls|); }
    }
  }

  /**
   * A poll announces a subscriber exactly when it counts one and every earlier
   * announcement has been taken back since.
   */
  lemma AnnouncedExactlyWhenNew(polls: seq<Poll>, i: nat)
    requires i < |polls|
    ensures NotifiedAt(polls, i) == Some(true) <==>
            && polls[i].count > 0
            && forall j :: 0 <= j < i && NotifiedAt(polls, j) == Some(true) ==>
                 exists k :: j < k < i && NotifiedAt(polls, k) == Some(false)
  {
    SubscribedIffAnnounced(polls[..i]);
    forall j | 0 <= j < i ensures AnnouncedSince(polls[..i], j, i) <==> AnnouncedSince(polls, j, i) {
      AnnouncedPrefix(polls, j, i);
    }
    assert NotifiedAt(polls, i) == Some(true) <==> polls[i].count > 0 && !After(polls[..i]).hasSubscriber;
    if After(polls[..i]).hasSubscriber {
      var j :| 0 <= j < i && AnnouncedSince(polls[..i], j, i);
      assert AnnouncedSince(polls, j, i);
    } else {
      forall j | 0 <= j < i && NotifiedAt(polls, j) == Some(true)
        ensures exists k :: j < k < i && NotifiedAt(polls, k) == Some(false)
      {
        assert !AnnouncedSince(polls[..i], j, i);
      }
    }
  }

  /** Whatever the clock reads, a publisher whose last poll counted somebody is announced. */
  lemma CountedIsAnnounced(polls: seq<Poll>)
    requires polls != [] && polls[|polls| - 1].count > 0
    ensures After(polls).hasSubscriber
  {
  }

  lemma GoneIsLongAgo(polls: seq<Poll>, j: nat)
    requires Clock(polls) && j < |polls| && polls[j].count > 0
    requires NotifiedAt(polls, |polls| - 1) == Some(false)
    ensures polls[|polls| - 1].now - polls[j].now >= TEN_SECONDS
  {
    var last := |polls| - 1;
    assert Readings(polls);
    GoneOnlyAfterTenSeconds(polls, last);
    var k :| 0 <= k < last && ZeroWindow(polls, k, last) && polls[last].now - polls[k].now >= TEN_SECONDS;
    assert j < k && polls[j].now <= polls[k].now;
  }

  /** With a running clock, so is one that counted somebody in the last ten seconds. */
  lemma {:induction false} RecentlyCountedIsAnnounced(polls: seq<Poll>, j: nat)
    requires Clock(polls) && j < |polls| && polls[j].count > 0
    requires polls[|polls| - 1].now - polls[j].now < TEN_SECONDS
    ensures After(polls).hasSubscriber
    decreases |polls|
  {
    var last := |polls| - 1;
    if j < last {
      RecentlyCountedIsAnnounced(polls[..last], j);
      if NotifiedAt(polls, last) == Some(false) { GoneIsLongAgo(polls, j); }
    }
  }

  /** And nobody is announced who was never counted. */
  lemma {:induction false} NeverCountedIsSilent(polls: seq<Poll>)
    requires forall i :: 0 <= i < |polls| ==> polls[i].count == 0
    ensures !After(polls).hasSubscriber && Notified(polls) == []
    decreases |polls|
  {
    if polls != [] { NeverCountedIsSilent(polls[..|polls| - 1]); }
  }

  /** What the loop of a publisher notifies is what its polls announce. */
  lemma {:induction false} NotesOfNewPublisher(polls: seq<Poll>)
    ensures PolledAll(NewPublisher, polls) == After(polls) && NotesOf(NewPublisher, polls) == Notified(polls)
    decreases |polls|
  {
    if polls != [] { NotesOfNewPublisher(polls[..|polls| - 1]); }
  }

  // ---------- what the peer ends up with ----------

  function PollIn(e: Event, channel: byte): seq<Poll> {
    if e.PollEvent? && e.channel == channel then [e.poll] else []
  }

  /** The polls of one publisher, in order. */
  function PollsOf(es: seq<Event>, channel: byte): seq<Poll>
    decreases |es|
  {
    if es == [] then [] else PollsOf(es[..|es| - 1], channel) + PollIn(es[|es| - 1], channel)
  }

  lemma AfterSnoc(polls: seq<Poll>, more: seq<Poll>)
    requires |more| <= 1
    ensures After(polls + more) == if more == [] then After(polls) else Polled(After(polls), more[0]).0
  {
    if more == [] { AppendNothing(polls); } else { assert (polls + more)[..|polls|] == polls; }
  }

  lemma {:induction false} PublisherIsPolled(publishers: set<byte>, topics: seq<Topic>, es: seq<Event>, channel: byte)
    requires channel in publishers
    ensures Run(publishers, topics, es).publishers[channel] == After(PollsOf(es, channel))
    decreases |es|
  {
    if es != [] {
      PublisherIsPolled(publishers, topics, es[..|es| - 1], channel);
      AfterSnoc(PollsOf(es[..|es| - 1], channel), PollIn(es[|es| - 1], channel));
    }
  }

  /** Somebody was counted by the last poll, or, with a running clock, in the last ten seconds. */
  predicate Wanted(polls: seq<Poll>) {
    && polls != []
    && (polls[|polls| - 1].count > 0
        || (Clock(polls)
            && exists j :: 0 <= j < |polls| && polls[j].count > 0
                           && polls[|polls| - 1].now - polls[j].now < TEN_SECONDS))
  }

  lemma WantedIsAnnounced(polls: seq<Poll>)
    requires Wanted(polls)
    ensures After(polls).hasSubscriber
  {
    if polls[|polls| - 1].count > 0 {
      CountedIsAnnounced(polls);
    } else {
      var j :| 0 <= j < |polls| && polls[j].count > 0 && polls[|polls| - 1].now - polls[j].now < TEN_SECONDS;
      RecentlyCountedIsAnnounced(polls, j);
    }
  }

  /**
   * On-demand subscription works: once no notification is pending, the peer has
   * a subscriber for every channel somebody locally subscribes to, keeps it for
   * ten seconds, and has none for a channel nobody ever subscribed to.
   */
  lemma WantedIsSubscribed(publishers: set<byte>, topics: seq<Topic>, es: seq<Event>, channel: byte)
    requires UniqueChannels(topics) && OnDemand(topics, publishers, channel)
    requires Pending(Run(publishers, topics, es), channel) == []
    ensures var polls, subscribers := PollsOf(es, channel), Run(publishers, topics, es).subscribers;
            && (channel in subscribers <==> After(polls).hasSubscriber)
            && (Wanted(polls) ==> channel in subscribers)
            && ((forall i :: 0 <= i < |polls| ==> polls[i].count == 0) ==> channel !in subscribers)
  {
    var polls := PollsOf(es, channel);
    SubscriptionAgreement(publishers, topics, es, channel);
    PublisherIsPolled(publishers, topics, es, channel);
    if Wanted(polls) { WantedIsAnnounced(polls); }
    if forall i :: 0 <= i < |polls| ==> polls[i].count == 0 { NeverCountedIsSilent(polls); }
  }

  function LinkedPollsOf(es: seq<LinkedEvent>, channel: byte): seq<Poll>
    decreases |es|
  {
    if es == [] then []
    else
      var e := es[|es| - 1];
      LinkedPollsOf(es[..|es| - 1], channel) + if e.Local? then PollIn(e.event, channel) else []
  }

  lemma {:induction false} LinkedPublisherIsPolled(
      publishers: set<byte>, topics: seq<Topic>, es: seq<LinkedEvent>, channel: byte)
    requires channel in publishers
    ensures var o := LinkedRun(publishers, topics, es);
            && o.rest.publishers.Keys == publishers
            && o.rest.publishers[channel] == After(LinkedPollsOf(es, channel))
    decreases |es|
  {
    if es != [] {
      var e := es[|es| - 1];
      LinkedPublisherIsPolled(publishers, topics, es[..|es| - 1], channel);
      AfterSnoc(LinkedPollsOf(es[..|es| - 1], channel), if e.Local? then PollIn(e.event, channel) else []);
    }
  }

  /** The same over a real link: nothing pending is nothing on the link and nothing in the manager's queue. */
  lemma WantedIsSubscribedOverLink(publishers: set<byte>, topics: seq<Topic>, es: seq<LinkedEvent>, channel: byte)
    requires UniqueChannels(topics) && OnDemand(topics, publishers, channel)
    requires LinkInv(LinkedRun(publishers, topics, es).link)
    requires Pending(Seen(LinkedRun(publishers, topics, es)), channel) == []
    ensures var polls, subscribers := LinkedPollsOf(es, channel), LinkedRun(publishers, topics, es).rest.subscribers;
            && (channel in subscribers <==> After(polls).hasSubscriber)
            && (Wanted(polls) ==> channel in subscribers)
  {
    LinkedAgreement(publishers, topics, es, channel);
    LinkedPublisherIsPolled(publishers, topics, es, channel);
    if Wanted(LinkedPollsOf(es, channel)) { WantedIsAnnounced(LinkedPollsOf(es, channel)); }
  }

  // ---------- what the manager does with one message ----------

  /**
   * After one message a channel has a subscriber exactly when the message asks
   * for one on this configured channel, or it had one and the message does not
   * take it back from an on-demand channel. CLOCK is no topic of the manager.
   */
  lemma HandledExactly(topics: seq<Topic>, subscribers: set<byte>, m: Rcl, d: byte)
    requires Legible(m)
    ensures var addressed := m.channel == SUBSCRIPTION && m.buffer[0] == d && d != CLOCK
                             && exists t :: t in topics && t.channel == d;
            d in Handled(topics, subscribers, m).0 <==>
              if addressed && m.buffer[1] == 1 then true
              else if addressed then d in subscribers && FindTopic(topics, d).value.permanent
              else d in subscribers
  {
    var found := FindTopic(topics, d);
  }

  /** The loop's result is that of handling the queue message by message, each as the system does. */
  lemma {:induction false} QueueIsHandledInOrder(topics: seq<Topic>, s: System)
    requires forall i :: 0 <= i < |s.toSubscribe| ==> Legible(s.toSubscribe[i])
    ensures HandledAll(topics, s.subscribers, s.toSubscribe)
         == HandleEach(topics, s, |s.toSubscribe|).subscribers
    ensures HandleEach(topics, s, |s.toSubscribe|).toSubscribe == []
    decreases |s.toSubscribe|
  {
    if s.toSubscribe != [] {
      assert Legible(s.toSubscribe[0]);
      var s' := Step(topics, s, HandleOne);
      forall i | 0 <= i < |s'.toSubscribe| ensures Legible(s'.toSubscribe[i]) {
        assert s'.toSubscribe[i] == s.toSubscribe[i + 1];
      }
      QueueIsHandledInOrder(topics, s');
    }
  }

  function HandleEach(topics: seq<Topic>, s: System, n: nat): System
    decreases n
  {
    if n == 0 then s else HandleEach(topics, Step(topics, s, HandleOne), n - 1)
  }

  /** A notification for the clock. */
  predicate ForClock(m: Rcl) {
    m.channel == SUBSCRIPTION && |m.buffer| >= 2 && m.buffer[0] == CLOCK
  }

  /** The last notification for the clock among some messages. */
  predicate IsLastForClock(ms: seq<Rcl>, j: nat) {
    j < |ms| && ForClock(ms[j]) && forall k :: j < k < |ms| ==> !ForClock(ms[k])
  }

  /** The clock subscriber runs if the last notification for it says so; without one, or disabled, it stays as it is. */
  lemma {:induction false} LastClockNotificationDecides(subscribeClock: bool, runs: bool, ms: seq<Rcl>)
    requires forall i :: 0 <= i < |ms| ==> Legible(ms[i])
    ensures !subscribeClock || (forall i :: 0 <= i < |ms| ==> !ForClock(ms[i])) ==>
              ClockAfter(subscribeClock, runs, ms) == runs
    ensures forall j: nat :: subscribeClock && IsLastForClock(ms, j) ==>
              ClockAfter(subscribeClock, runs, ms) == (ms[j].buffer[1] == 1)
    decreases |ms|
  {
    if ms != [] {
      var last := |ms| - 1;
      assert Legible(ms[last]);
      LastClockNotificationDecides(subscribeClock, runs, ms[..last]);
      forall j: nat | subscribeClock && IsLastForClock(ms, j)
        ensures ClockAfter(subscribeClock, runs, ms) == (ms[j].buffer[1] == 1)
      {
        if j < last {
          assert !ForClock(ms[last]);
          assert IsLastForClock(ms[..last], j);
        }
      }
    }
  }
}
