/**
 * The action system over two connections, byte by byte: every message is
 * compressed, framed, queued, written, read, parsed, routed by op-code and
 * channel, and opened, while other traffic shares the connections. Each step
 * is a step of the action system or invisible to it.
 */
module ActionWire {
  import opened Types
  import opened Sequences
  import opened Transport
  import opened Routing
  import opened Paths
  import L = ActionServer
  import R = RemoteGoal
  import S = ActionSystem

  // ---------- the system over two paths ----------

  /** The tables of both sides; their queues are the two paths. */
  datatype OverWire = OverWire(tables: S.System, down: Path, up: Path)

  const Idle := OverWire(S.Initial, Path(IdleLink, []), Path(IdleLink, []))

  datatype Event =
    | Endpoint(event: S.Event)     // a local step of either side
    | DownTraffic(le: LinkEvent)
    | UpTraffic(le: LinkEvent)
    | RouteDown                    // one iteration of the client side's manager
    | RouteUp

  /** Goal ids are 16-byte UUIDs. */
  predicate IsUuid(gid: Bytes) {
    |gid| == 16
  }

  /** Local steps that occur: for a UUID, sending real data. */
  predicate Occurs(e: S.Event) {
    match e
    case AtServer(gid, le) => IsUuid(gid) && (le.SendGoalRequest? ==> le.content.Some?)
    case AtClient(gid, _) => IsUuid(gid)
    case _ => false
  }

  predicate Sendable(kind: Kind, ms: seq<Message>) {
    |ms| <= 1 && forall m <- ms :: m.content.Some? && IsUuid(m.gid) && KindOf(m.op) == kind
  }

  /** After a local step or a routed message the messages it sent go onto the paths. */
  function Flush(w: Wiring, o: OverWire, s: S.System): OverWire {
    OverWire(s.(toClient := [], toServer := []),
             if Sendable(ActionClients, s.toClient) then Put(w, o.down, s.toClient) else o.down,
             if Sendable(ActionServers, s.toServer) then Put(w, o.up, s.toServer) else o.up)
  }

  function Step(w: Wiring, o: OverWire, e: Event): OverWire {
    match e
    case Endpoint(event) => if Occurs(event) then Flush(w, o, S.Step(o.tables, event)) else o
    case DownTraffic(le) => o.(down := Carry(w, ActionClients, o.down, le))
    case UpTraffic(le) => o.(up := Carry(w, ActionServers, o.up, le))
    case RouteDown =>
      if o.down.queue == [] then o
      else
        var rest := o.(down := o.down.(queue := o.down.queue[1..]));
        var ms := InMessage(w, ActionClients, o.down.queue[0]);
        if ms == [] then rest else Flush(w, rest, S.Receive(rest.tables, ms[0]))
    case RouteUp =>
      if o.up.queue == [] then o
      else
        var rest := o.(up := o.up.(queue := o.up.queue[1..]));
        var ms := InMessage(w, ActionServers, o.up.queue[0]);
        if ms == [] then rest else rest.(tables := S.Hear(rest.tables, ms[0]))
  }

  /** The action system a wired state stands for. */
  function Seen(w: Wiring, o: OverWire): S.System {
    o.tables.(toClient := Flying(w, ActionClients, o.down), toServer := Flying(w, ActionServers, o.up))
  }

  /** What a wired event is for the action system. */
  function Meaning(w: Wiring, o: OverWire, e: Event): seq<S.Event> {
    match e
    case Endpoint(event) => if Occurs(event) then [event] else []
    case DownTraffic(_) => []
    case UpTraffic(_) => []
    case RouteDown =>
      if o.down.queue != [] && InMessage(w, ActionClients, o.down.queue[0]) != [] then [S.ToClient] else []
    case RouteUp => if o.up.queue != [] && InMessage(w, ActionServers, o.up.queue[0]) != [] then [S.ToServer] else []
  }

  function Advance(s: S.System, es: seq<S.Event>): S.System {
    if es == [] then s else S.Step(s, es[0])
  }

  predicate LinksInv(o: OverWire) {
    LinkInv(o.down.link) && LinkInv(o.up.link) && o.tables.toClient == [] && o.tables.toServer == []
  }

  lemma FlushSeen(w: Wiring, o: OverWire, s: S.System)
    requires w.codec.Lawful() && LinksInv(o)
    requires Sendable(ActionClients, s.toClient) && Sendable(ActionServers, s.toServer)
    ensures LinksInv(Flush(w, o, s))
    ensures Seen(w, Flush(w, o, s))
         == s.(toClient := Flying(w, ActionClients, o.down) + s.toClient,
               toServer := Flying(w, ActionServers, o.up) + s.toServer)
  {
    PutFlies(w, ActionClients, o.down, s.toClient);
    PutFlies(w, ActionServers, o.up, s.toServer);
  }

  /** Steps and receptions do not look at what the queues already hold. */
  lemma StepAppends(s: S.System, e: S.Event, down: seq<Message>, up: seq<Message>)
    requires (e.AtServer? || e.AtClient?) && s.toClient == [] && s.toServer == []
    ensures var s' := S.Step(s, e);
            S.Step(s.(toClient := down, toServer := up), e)
            == s'.(toClient := down + s'.toClient, toServer := up + s'.toServer)
  {
    assert down + [] == down && up + [] == up;
  }

  lemma ReceiveAppends(s: S.System, m: Message, down: seq<Message>, up: seq<Message>)
    requires s.toClient == [] && s.toServer == []
    ensures var s' := S.Receive(s, m);
            && s'.toClient == []
            && S.Receive(s.(toClient := down, toServer := up), m) == s'.(toClient := down, toServer := up + s'.toServer)
  {
    assert up + [] == up;
  }

  // ---------- refinement ----------

  predicate AllUuids(ms: seq<Message>) {
    forall i :: 0 <= i < |ms| ==> IsUuid(ms[i].gid)
  }

  lemma ServerSends(g: L.Goal, e: L.Event)
    requires e.SendGoalRequest? ==> e.content.Some?
    ensures var sent := L.Step(g, e).1;
            |sent| <= 1 && forall m <- sent :: m.content.Some? && m.gid == g.gid && KindOf(m.op) == ActionClients
  {
  }

  lemma SentHasContent(h: R.Handle, e: R.Event)
    ensures |R.Sent(h, e)| <= 1 && forall m <- R.Sent(h, e) :: m.content.Some?
  {
  }

  lemma AnswersGoToServers(op: Op)
    requires op.Code() >= 4 && !op.CancelRequest?
    ensures KindOf(op) == ActionServers
  {
  }

  lemma ClientSends(h: R.Handle, e: R.Event)
    requires R.Inv(h)
    ensures var sent := R.Sent(h, e);
            |sent| <= 1 && forall m <- sent :: m.content.Some? && m.gid == h.gid && KindOf(m.op) == ActionServers
  {
    R.SentIsTrue(h, e);
    SentHasContent(h, e);
    if R.Sent(h, e) != [] { AnswersGoToServers(R.Sent(h, e)[0].op); }
  }

  /** Everything a local step sends fits the wire. */
  lemma EndpointSends(s: S.System, e: S.Event)
    requires Occurs(e) && s.toClient == [] && s.toServer == []
    requires S.GoalOf(s, e.gid).gid == e.gid
    requires (e.gid in s.remotes ==> R.Inv(s.remotes[e.gid]) && s.remotes[e.gid].gid == e.gid)
    ensures var s' := S.Step(s, e); Sendable(ActionClients, s'.toClient) && Sendable(ActionServers, s'.toServer)
  {
    match e
    case AtServer(gid, le) => ServerSends(S.GoalOf(s, gid), le);
    case AtClient(gid, re) => if gid in s.remotes { ClientSends(s.remotes[gid], re); }
  }

  lemma EndpointRefines(w: Wiring, o: OverWire, e: S.Event)
    requires w.codec.Lawful() && LinksInv(o) && Occurs(e) && AllUuids(Seen(w, o).toClient)
    requires var s := o.tables;
             && S.GoalOf(s, e.gid).gid == e.gid
             && (e.gid in s.remotes ==> R.Inv(s.remotes[e.gid]) && s.remotes[e.gid].gid == e.gid)
    ensures var o' := Step(w, o, Endpoint(e));
            LinksInv(o') && Seen(w, o') == S.Step(Seen(w, o), e) && AllUuids(Seen(w, o').toClient)
  {
    var s' := S.Step(o.tables, e);
    EndpointSends(o.tables, e);
    FlushSeen(w, o, s');
    StepAppends(o.tables, e, Flying(w, ActionClients, o.down), Flying(w, ActionServers, o.up));
    UuidsAppend(Flying(w, ActionClients, o.down), s'.toClient);
  }

  lemma UuidsAppend(a: seq<Message>, b: seq<Message>)
    requires AllUuids(a) && forall m <- b :: IsUuid(m.gid)
    ensures AllUuids(a + b)
  {
  }

  /** A reception sends at most the bounced answer. */
  lemma ReceptionSends(s: S.System, m: Message)
    requires s.toClient == [] && s.toServer == [] && IsUuid(m.gid)
    ensures var s' := S.Receive(s, m); s'.toClient == [] && Sendable(ActionServers, s'.toServer)
  {
    S.ReceiveBounces(s, m, m.gid);
  }

  /** The client's manager hands the oldest message to the action client. */
  lemma ReceptionRefines(w: Wiring, rest: OverWire, m: Message)
    requires w.codec.Lawful() && LinksInv(rest) && IsUuid(m.gid)
    ensures var o' := Flush(w, rest, S.Receive(rest.tables, m));
            LinksInv(o') && Seen(w, o') == S.Receive(Seen(w, rest), m)
  {
    var down, up := Flying(w, ActionClients, rest.down), Flying(w, ActionServers, rest.up);
    ReceptionSends(rest.tables, m);
    ReceiveAppends(rest.tables, m, down, up);
    FlushSeen(w, rest, S.Receive(rest.tables, m));
    AppendNothing(down);
  }

  lemma RoutedKeepsUuids(s: S.System, es: seq<S.Event>)
    requires AllUuids(s.toClient) && (es == [] || es == [S.ToClient] || es == [S.ToServer])
    ensures AllUuids(Advance(s, es).toClient)
  {
  }

  /** The oldest message leaves the path towards the client. */
  lemma TakenFromDown(w: Wiring, o: OverWire)
    requires o.down.queue != []
    ensures var rest := o.(down := o.down.(queue := o.down.queue[1..]));
            var ms, all := InMessage(w, ActionClients, o.down.queue[0]), Seen(w, o).toClient;
            if ms == [] then Seen(w, rest) == Seen(w, o)
            else all != [] && all[0] == ms[0] && Seen(w, rest) == Seen(w, o).(toClient := all[1..])
  {
    TakenFlies(w, ActionClients, o.down);
  }

  lemma RouteDownStep(w: Wiring, o: OverWire)
    requires o.down.queue != []
    ensures var rest := o.(down := o.down.(queue := o.down.queue[1..]));
            var ms := InMessage(w, ActionClients, o.down.queue[0]);
            Step(w, o, RouteDown) == if ms == [] then rest else Flush(w, rest, S.Receive(rest.tables, ms[0]))
  {
  }

  lemma ReceiveFirst(s: S.System)
    requires s.toClient != []
    ensures S.Step(s, S.ToClient) == S.Receive(s.(toClient := s.toClient[1..]), s.toClient[0])
  {
  }

  lemma SkippedRefines(w: Wiring, o: OverWire)
    requires LinksInv(o) && o.down.queue != [] && InMessage(w, ActionClients, o.down.queue[0]) == []
    ensures LinksInv(Step(w, o, RouteDown)) && Seen(w, Step(w, o, RouteDown)) == Seen(w, o)
  {
    RouteDownStep(w, o);
    TakenFromDown(w, o);
  }

  lemma RequestRefines(w: Wiring, o: OverWire)
    requires w.codec.Lawful() && LinksInv(o) && AllUuids(Seen(w, o).toClient)
    requires o.down.queue != [] && InMessage(w, ActionClients, o.down.queue[0]) != []
    ensures LinksInv(Step(w, o, RouteDown)) && Seen(w, Step(w, o, RouteDown)) == S.Step(Seen(w, o), S.ToClient)
  {
    RouteDownStep(w, o);
    TakenFromDown(w, o);
    ReceiveFirst(Seen(w, o));
    ReceptionRefines(w, o.(down := o.down.(queue := o.down.queue[1..])),
                     InMessage(w, ActionClients, o.down.queue[0])[0]);
  }

  lemma RouteDownRefines(w: Wiring, o: OverWire)
    requires w.codec.Lawful() && LinksInv(o) && AllUuids(Seen(w, o).toClient)
    ensures LinksInv(Step(w, o, RouteDown))
    ensures Seen(w, Step(w, o, RouteDown)) == Advance(Seen(w, o), Meaning(w, o, RouteDown))
  {
    if o.down.queue != [] {
      if InMessage(w, ActionClients, o.down.queue[0]) == [] { SkippedRefines(w, o); } else { RequestRefines(w, o); }
    }
  }

  lemma TakenFromUp(w: Wiring, o: OverWire)
    requires o.up.queue != []
    ensures var rest := o.(up := o.up.(queue := o.up.queue[1..]));
            var ms, all := InMessage(w, ActionServers, o.up.queue[0]), Seen(w, o).toServer;
            if ms == [] then Seen(w, rest) == Seen(w, o)
            else all != [] && all[0] == ms[0] && Seen(w, rest) == Seen(w, o).(toServer := all[1..])
  {
    TakenFlies(w, ActionServers, o.up);
  }

  lemma HearingRefines(w: Wiring, rest: OverWire, m: Message)
    ensures Seen(w, rest.(tables := S.Hear(rest.tables, m))) == S.Hear(Seen(w, rest), m)
  {
  }

  lemma RouteUpStep(w: Wiring, o: OverWire)
    requires o.up.queue != []
    ensures var rest := o.(up := o.up.(queue := o.up.queue[1..]));
            var ms := InMessage(w, ActionServers, o.up.queue[0]);
            Step(w, o, RouteUp) == if ms == [] then rest else rest.(tables := S.Hear(rest.tables, ms[0]))
  {
  }

  lemma HearFirst(s: S.System)
    requires s.toServer != []
    ensures S.Step(s, S.ToServer) == S.Hear(s.(toServer := s.toServer[1..]), s.toServer[0])
  {
  }

  lemma ForeignRefines(w: Wiring, o: OverWire)
    requires o.up.queue != [] && InMessage(w, ActionServers, o.up.queue[0]) == []
    ensures Seen(w, Step(w, o, RouteUp)) == Seen(w, o)
  {
    RouteUpStep(w, o);
    TakenFromUp(w, o);
  }

  lemma AnswerRefines(w: Wiring, o: OverWire)
    requires o.up.queue != [] && InMessage(w, ActionServers, o.up.queue[0]) != []
    ensures Seen(w, Step(w, o, RouteUp)) == S.Step(Seen(w, o), S.ToServer)
  {
    RouteUpStep(w, o);
    TakenFromUp(w, o);
    HearFirst(Seen(w, o));
    HearingRefines(w, o.(up := o.up.(queue := o.up.queue[1..])), InMessage(w, ActionServers, o.up.queue[0])[0]);
  }

  lemma RouteUpRefines(w: Wiring, o: OverWire)
    ensures Seen(w, Step(w, o, RouteUp)) == Advance(Seen(w, o), Meaning(w, o, RouteUp))
  {
    if o.up.queue == [] {
      assert Step(w, o, RouteUp) == o;
    } else if InMessage(w, ActionServers, o.up.queue[0]) == [] {
      ForeignRefines(w, o);
      assert Meaning(w, o, RouteUp) == [];
    } else {
      AnswerRefines(w, o);
      assert Meaning(w, o, RouteUp) == [S.ToServer];
    }
  }

  function Run(w: Wiring, es: seq<Event>): OverWire
    decreases |es|
  {
    if es == [] then Idle else Step(w, Run(w, es[..|es| - 1]), es[|es| - 1])
  }

  /** The run of the action system that a wired run amounts to. */
  function Meanings(w: Wiring, es: seq<Event>): seq<S.Event>
    decreases |es|
  {
    if es == [] then [] else Meanings(w, es[..|es| - 1]) + Meaning(w, Run(w, es[..|es| - 1]), es[|es| - 1])
  }

  lemma RunLast(w: Wiring, es: seq<Event>)
    requires es != []
    ensures var o := Run(w, es[..|es| - 1]);
            && Run(w, es) == Step(w, o, es[|es| - 1])
            && Meanings(w, es) == Meanings(w, es[..|es| - 1]) + Meaning(w, o, es[|es| - 1])
  {
  }

  lemma AdvanceRun(es: seq<S.Event>, more: seq<S.Event>)
    requires |more| <= 1
    ensures S.Run(es + more) == Advance(S.Run(es), more)
  {
    if more == [] { assert es + more == es; } else { assert (es + more)[..|es|] == es && more == [more[0]]; }
  }

  /** The tables of a wired state satisfy what the abstract run guarantees. */
  lemma TablesAreSound(w: Wiring, o: OverWire, es: seq<S.Event>, gid: Bytes)
    requires Seen(w, o) == S.Run(es)
    ensures S.GoalOf(o.tables, gid).gid == gid
    ensures gid in o.tables.remotes ==> R.Inv(o.tables.remotes[gid]) && o.tables.remotes[gid].gid == gid
  {
    S.SystemInv(es, gid);
    assert S.GoalOf(o.tables, gid) == S.GoalOf(S.Run(es), gid);
    assert S.RemoteOf(o.tables, gid) == S.RemoteOf(S.Run(es), gid);
  }

  lemma StepRefines(w: Wiring, o: OverWire, e: Event, es: seq<S.Event>)
    requires w.codec.Lawful() && LinksInv(o) && AllUuids(Seen(w, o).toClient) && Seen(w, o) == S.Run(es)
    ensures LinksInv(Step(w, o, e)) && AllUuids(Seen(w, Step(w, o, e)).toClient)
    ensures Seen(w, Step(w, o, e)) == Advance(Seen(w, o), Meaning(w, o, e))
  {
    match e
    case Endpoint(event) =>
      if Occurs(event) {
        TablesAreSound(w, o, es, event.gid);
        EndpointRefines(w, o, event);
      }
    case DownTraffic(le) => CarryKeepsFlying(w, ActionClients, o.down, le);
    case UpTraffic(le) => CarryKeepsFlying(w, ActionServers, o.up, le);
    case RouteDown =>
      RouteDownRefines(w, o);
      RoutedKeepsUuids(Seen(w, o), Meaning(w, o, e));
    case RouteUp =>
      RouteUpRefines(w, o);
      RoutedKeepsUuids(Seen(w, o), Meaning(w, o, e));
  }

  lemma NextRefines(w: Wiring, o: OverWire, e: Event, es: seq<S.Event>)
    requires w.codec.Lawful() && LinksInv(o) && AllUuids(Seen(w, o).toClient) && Seen(w, o) == S.Run(es)
    ensures LinksInv(Step(w, o, e)) && AllUuids(Seen(w, Step(w, o, e)).toClient)
    ensures Seen(w, Step(w, o, e)) == S.Run(es + Meaning(w, o, e))
  {
    StepRefines(w, o, e, es);
    AdvanceRun(es, Meaning(w, o, e));
  }

  /**
   * Refinement: over every run of the two connections, interleaved with any
   * other traffic and under every compression profile, the tables together with
   * the messages under way are a state of the action system, reached by the
   * meaning of the run. So whatever holds in every run of the action system
   * holds of the bytes on the wire.
   */
  lemma {:induction false} WireRefinesSystem(w: Wiring, es: seq<Event>)
    requires w.codec.Lawful()
    ensures LinksInv(Run(w, es)) && AllUuids(Seen(w, Run(w, es)).toClient)
    ensures Seen(w, Run(w, es)) == S.Run(Meanings(w, es))
    decreases |es|
  {
    if es == [] {
      assert Seen(w, Idle) == S.Initial;
    } else {
      WireRefinesSystem(w, es[..|es| - 1]);
      NextRefines(w, Run(w, es[..|es| - 1]), es[|es| - 1], Meanings(w, es[..|es| - 1]));
      RunLast(w, es);
    }
  }

  /** For one: no goal is orphaned over the wire. */
  lemma NoOrphanOverWire(w: Wiring, es: seq<Event>, gid: Bytes)
    requires w.codec.Lawful() && S.GoalOf(Run(w, es).tables, gid).call.TimedOut?
    ensures var o := Run(w, es);
            var s := Seen(w, o);
            && S.GoalOf(o.tables, gid).cancels == 1
            && 1 == S.CancelsInTransit(s, gid) + S.CancelsHeld(o.tables, gid)
                    + S.CancelsHandedOn(o.tables, gid) + S.BouncesOf(o.tables, gid)
            && (S.BouncesOf(o.tables, gid) == 1 ==>
                  gid in o.tables.remotes && o.tables.remotes[gid].flags.done && !o.tables.remotes[gid].inTable)
  {
    WireRefinesSystem(w, es);
    S.NoOrphanedGoal(Meanings(w, es), gid);
  }
}
