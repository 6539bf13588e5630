/**
 * Progress of the topic pipeline: no stage can hold a message for ever unless
 * its thread stops, and every schedule of the threads publishes everything.
 */
module TopicProgress {
  import opened Types
  import opened Sequences
  import opened Wire
  import opened Transport
  import opened Topics

  /** New work: a captured payload, or traffic of others on the same connection. */
  predicate IsInput(e: Event) {
    e.Capture? || (e.LinkEvent? && (e.event.Post? || e.event.Direct?))
  }

  /** Nothing is left anywhere between the local subscription and the local publisher. */
  predicate Empty(p: Pipeline) {
    && p.toSend == [] && p.compressing.None? && OnTheWay(p.link) == []
    && p.toPublish == [] && p.routing.None? && p.queued == [] && p.publishing.None?
  }

  /** Nor is a write outstanding. */
  predicate Settled(p: Pipeline) {
    Empty(p) && p.link.pump.sendingQueue == []
  }

  /** Each message counts the steps it has before it. */
  function Work(p: Pipeline): int {
    10 * |p.toSend| + 9 * One(p.compressing.Some?) + LinkWork(p.link)
    + 4 * |p.toPublish| + 3 * One(p.routing.Some?) + 2 * |p.queued| + One(p.publishing.Some?)
  }

  lemma WorkIsNatural(p: Pipeline)
    requires LinkInv(p.link)
    ensures Work(p) >= 0
  {
    LinkWorkIsNatural(p.link);
  }

  lemma LinkStepWorks(r: Route, p: Pipeline, le: LinkEvent)
    requires LinkInv(p.link) && LinkEnabled(p.link, le) && !IsInput(LinkEvent(le))
    ensures Work(Step(r, p, LinkEvent(le))) < Work(p)
  {
    LinkMoves(p.link, le);
  }

  lemma SendingWorks(r: Route, p: Pipeline, e: Event)
    requires LinkInv(p.link) && Enabled(r, p, e) && (e.TakeToSend? || e.Send?)
    ensures Work(Step(r, p, e)) < Work(p)
  {
  }

  lemma PublishingWorks(r: Route, p: Pipeline, e: Event)
    requires LinkInv(p.link) && Enabled(r, p, e)
    requires e.TakeToPublish? || e.RouteMessage? || e.TakeQueued? || e.Publish?
    ensures Work(Step(r, p, e)) < Work(p)
  {
  }

  /** Every step that is not new work leaves less to do. */
  lemma StepsWork(r: Route, p: Pipeline, e: Event)
    requires LinkInv(p.link) && Enabled(r, p, e) && !IsInput(e)
    ensures Work(Step(r, p, e)) < Work(p) && Step(r, p, e).captured == p.captured
  {
    if e.LinkEvent? { LinkStepWorks(r, p, e.event); }
    else if e.TakeToSend? || e.Send? { SendingWorks(r, p, e); }
    else { PublishingWorks(r, p, e); }
  }

  /** The stage nearest to the publisher that has something to do. */
  function Busiest(p: Pipeline): Event {
    if p.publishing.Some? then Publish
    else if p.queued != [] then TakeQueued
    else if p.routing.Some? then RouteMessage
    else if p.toPublish != [] then TakeToPublish
    else if !Quiet(p.link) then LinkEvent(BusiestStage(p.link))
    else if p.compressing.Some? then Send
    else TakeToSend
  }

  /** No pipeline that holds anything is stuck. */
  lemma NeverStuck(r: Route, p: Pipeline)
    requires LinkInv(p.link) && !Settled(p)
    ensures Enabled(r, p, Busiest(p)) && !IsInput(Busiest(p))
  {
    if !Quiet(p.link) { LinkIsNeverStuck(p.link); }
  }

  // ---------- runs ----------


  /** Every event happens: it is enabled when its turn comes. */
  predicate Schedule(r: Route, es: seq<Event>, more: seq<Event>)
    decreases |more|
  {
    more != [] ==>
      && Schedule(r, es, more[..|more| - 1])
      && Enabled(r, Run(r, es + more[..|more| - 1]), more[|more| - 1])
      && !IsInput(more[|more| - 1])
  }

  lemma RunSnoc(r: Route, es: seq<Event>, e: Event)
    ensures Run(r, es + [e]) == Step(r, Run(r, es), e)
  {
    assert (es + [e])[..|es|] == es;
  }

  function WorkLeft(r: Route, es: seq<Event>): (w: nat) {
    WorkIsNatural(Run(r, es));
    Work(Run(r, es))
  }

  lemma NextWorks(r: Route, es: seq<Event>, e: Event)
    requires Enabled(r, Run(r, es), e) && !IsInput(e)
    ensures WorkLeft(r, es + [e]) < WorkLeft(r, es) && Run(r, es + [e]).captured == Run(r, es).captured
  {
    RunSnoc(r, es, e);
    StepsWork(r, Run(r, es), e);
  }

  /** Whatever order the threads run in, they stop after at most Work steps. */
  lemma {:induction false} SchedulesEnd(r: Route, es: seq<Event>, more: seq<Event>)
    requires Schedule(r, es, more)
    ensures |more| + WorkLeft(r, es + more) <= WorkLeft(r, es)
    ensures Run(r, es + more).captured == Run(r, es).captured
    decreases |more|
  {
    if more == [] {
      AppendNothing(es);
    } else {
      var sooner, e := more[..|more| - 1], more[|more| - 1];
      assert more == sooner + [e];
      Assoc(es, sooner, [e]);
      SchedulesEnd(r, es, sooner);
      NextWorks(r, es + sooner, e);
    }
  }

  lemma ScheduleSnoc(r: Route, es: seq<Event>, more: seq<Event>, e: Event)
    requires Schedule(r, es, more) && Enabled(r, Run(r, es + more), e) && !IsInput(e)
    ensures Schedule(r, es, more + [e])
  {
    assert (more + [e])[..|more|] == more;
  }

  /** Every schedule that has not emptied the pipeline goes on to one that has. */
  lemma {:induction false} SchedulesFinish(r: Route, es: seq<Event>, more: seq<Event>) returns (all: seq<Event>)
    requires Schedule(r, es, more)
    ensures more <= all && Schedule(r, es, all) && Settled(Run(r, es + all))
    decreases WorkLeft(r, es + more)
  {
    var p := Run(r, es + more);
    if Settled(p) {
      all := more;
    } else {
      NeverStuck(r, p);
      ScheduleSnoc(r, es, more, Busiest(p));
      NextWorks(r, es + more, Busiest(p));
      Assoc(es, more, [Busiest(p)]);
      all := SchedulesFinish(r, es, more + [Busiest(p)]);
    }
  }

  /**
   * From every reachable state, by every schedule that cannot go on, the
   * pipeline publishes all that was captured; such schedules exist, and none
   * is longer than the work that was left.
   */
  lemma EveryScheduleDelivers(r: Route, es: seq<Event>, more: seq<Event>)
    requires r.codec.Lawful() && !HandledElsewhere(r.channel) && Schedule(r, es, more)
    ensures |more| <= WorkLeft(r, es)
    ensures (forall e :: Enabled(r, Run(r, es + more), e) ==> IsInput(e)) ==>
              Run(r, es + more).published == Run(r, es).captured
    ensures exists all :: more <= all && Schedule(r, es, all) && Run(r, es + all).published == Run(r, es).captured
  {
    SchedulesEnd(r, es, more);
    var p := Run(r, es + more);
    if forall e :: Enabled(r, p, e) ==> IsInput(e) {
      if !Settled(p) { NeverStuck(r, p); }
      DrainedMeansDelivered(r, es + more);
    }
    var all := SchedulesFinish(r, es, more);
    SchedulesEnd(r, es, all);
    DrainedMeansDelivered(r, es + all);
  }
}
