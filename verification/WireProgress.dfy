/**
 * Progress over the wire: in both protocols everything that was sent can be
 * carried, routed and received, whatever other traffic the connections hold.
 */
module WireProgress {
  import opened Types
  import opened Sequences
  import opened Transport
  import opened Routing
  import opened Paths
  import A = ActionSystem
  import AW = ActionWire
  import V = ServiceSystem
  import VW = ServiceWire
  import SS = ServiceServer
  import SC = ServiceClient

  // ---------- one direction ----------

  function PathWork(p: Path): int {
    LinkWork(p.link) + 4 * |p.queue|
  }

  /** Nothing is under way and nothing waits to be routed. */
  predicate Drained(p: Path) {
    p.queue == [] && Quiet(p.link)
  }

  lemma PathWorkIsNatural(p: Path)
    requires LinkInv(p.link)
    ensures PathWork(p) >= 0
  {
    LinkWorkIsNatural(p.link);
  }

  lemma CarryWorks(w: Wiring, kind: Kind, p: Path)
    requires LinkInv(p.link) && p.queue == [] && !Drained(p)
    ensures Moves(BusiestStage(p.link))
    ensures var p' := Carry(w, kind, p, BusiestStage(p.link)); LinkInv(p'.link) && PathWork(p') < PathWork(p)
  {
    LinkIsNeverStuck(p.link);
    LinkMoves(p.link, BusiestStage(p.link));
  }

  lemma RoutingWorks(p: Path)
    requires p.queue != []
    ensures PathWork(p.(queue := p.queue[1..])) < PathWork(p)
  {
  }

  lemma DrainedHoldsNothing(w: Wiring, kind: Kind, p: Path)
    requires LinkInv(p.link) && Drained(p)
    ensures Flying(w, kind, p) == []
  {
    assert OnTheWay(p.link) == [];
  }

  // ---------- actions ----------

  function NextDown(o: AW.OverWire): AW.Event {
    if o.down.queue != [] then AW.RouteDown else AW.DownTraffic(BusiestStage(o.down.link))
  }

  function NextUp(o: AW.OverWire): AW.Event {
    if o.up.queue != [] then AW.RouteUp else AW.UpTraffic(BusiestStage(o.up.link))
  }

  /** A step of the connections and managers, without new traffic. */
  predicate IsTransport(e: AW.Event) {
    match e
    case Endpoint(_) => false
    case DownTraffic(le) => Moves(le)
    case UpTraffic(le) => Moves(le)
    case _ => true
  }

  lemma RoutedKeepsDown(w: Wiring, o: AW.OverWire)
    requires AW.LinksInv(o) && o.down.queue != []
    ensures AW.Step(w, o, AW.RouteDown).down == o.down.(queue := o.down.queue[1..])
  {
  }

  lemma DownWorks(w: Wiring, o: AW.OverWire)
    requires AW.LinksInv(o) && !Drained(o.down)
    ensures IsTransport(NextDown(o)) && PathWork(AW.Step(w, o, NextDown(o)).down) < PathWork(o.down)
  {
    if o.down.queue == [] {
      CarryWorks(w, ActionClients, o.down);
    } else {
      RoutedKeepsDown(w, o);
      RoutingWorks(o.down);
    }
  }

  lemma UpWorks(w: Wiring, o: AW.OverWire)
    requires AW.LinksInv(o) && !Drained(o.up)
    ensures IsTransport(NextUp(o))
    ensures var o' := AW.Step(w, o, NextUp(o)); PathWork(o'.up) < PathWork(o.up) && o'.down == o.down
  {
    if o.up.queue == [] { CarryWorks(w, ActionServers, o.up); } else { RoutingWorks(o.up); }
  }

  lemma ActionRunSnoc(w: Wiring, es: seq<AW.Event>, e: AW.Event)
    ensures AW.Run(w, es + [e]) == AW.Step(w, AW.Run(w, es), e)
  {
    assert (es + [e])[..|es|] == es;
  }

  function DownWork(w: Wiring, es: seq<AW.Event>): (n: nat)
    requires w.codec.Lawful()
  {
    AW.WireRefinesSystem(w, es);
    PathWorkIsNatural(AW.Run(w, es).down);
    PathWork(AW.Run(w, es).down)
  }

  function UpWork(w: Wiring, es: seq<AW.Event>): (n: nat)
    requires w.codec.Lawful()
  {
    AW.WireRefinesSystem(w, es);
    PathWorkIsNatural(AW.Run(w, es).up);
    PathWork(AW.Run(w, es).up)
  }

  lemma {:induction false} DownDrains(w: Wiring, es: seq<AW.Event>) returns (more: seq<AW.Event>)
    requires w.codec.Lawful()
    ensures forall e <- more :: IsTransport(e)
    ensures Drained(AW.Run(w, es + more).down)
    decreases DownWork(w, es)
  {
    if Drained(AW.Run(w, es).down) {
      more := [];
      AppendNothing(es);
    } else {
      var e := NextDown(AW.Run(w, es));
      AW.WireRefinesSystem(w, es);
      DownWorks(w, AW.Run(w, es));
      ActionRunSnoc(w, es, e);
      var rest := DownDrains(w, es + [e]);
      more := [e] + rest;
      Assoc(es, [e], rest);
    }
  }

  lemma {:induction false} UpDrains(w: Wiring, es: seq<AW.Event>) returns (more: seq<AW.Event>)
    requires w.codec.Lawful() && Drained(AW.Run(w, es).down)
    ensures forall e <- more :: IsTransport(e)
    ensures Drained(AW.Run(w, es + more).down) && Drained(AW.Run(w, es + more).up)
    decreases UpWork(w, es)
  {
    if Drained(AW.Run(w, es).up) {
      more := [];
      AppendNothing(es);
    } else {
      var e := NextUp(AW.Run(w, es));
      AW.WireRefinesSystem(w, es);
      UpWorks(w, AW.Run(w, es));
      ActionRunSnoc(w, es, e);
      var rest := UpDrains(w, es + [e]);
      more := [e] + rest;
      Assoc(es, [e], rest);
    }
  }

  /**
   * From every state of the byte-level action system the connections and the
   * managers alone can bring everything under way to its endpoint, bounced
   * cancels' answers included.
   */
  lemma ActionMessagesArrive(w: Wiring, es: seq<AW.Event>) returns (more: seq<AW.Event>)
    requires w.codec.Lawful()
    ensures forall e <- more :: IsTransport(e)
    ensures var s := AW.Seen(w, AW.Run(w, es + more)); s.toClient == [] && s.toServer == []
  {
    var down := DownDrains(w, es);
    var up := UpDrains(w, es + down);
    more := down + up;
    Assoc(es, down, up);
    AW.WireRefinesSystem(w, es + more);
    DrainedHoldsNothing(w, ActionClients, AW.Run(w, es + more).down);
    DrainedHoldsNothing(w, ActionServers, AW.Run(w, es + more).up);
  }

  // ---------- services ----------

  function NextRequest(o: VW.OverWire): VW.Event {
    if o.down.queue != [] then VW.RouteDown else VW.DownTraffic(BusiestStage(o.down.link))
  }

  function NextReply(o: VW.OverWire): VW.Event {
    if o.up.queue != [] then VW.RouteUp else VW.UpTraffic(BusiestStage(o.up.link))
  }

  predicate IsCarriage(e: VW.Event) {
    match e
    case Endpoint(_) => false
    case DownTraffic(le) => Moves(le)
    case UpTraffic(le) => Moves(le)
    case _ => true
  }

  lemma RequestsWork(w: Wiring, setup: SC.Setup, o: VW.OverWire)
    requires LinkInv(o.down.link) && !Drained(o.down)
    ensures IsCarriage(NextRequest(o))
    ensures PathWork(VW.Step(w, setup, o, NextRequest(o)).down) < PathWork(o.down)
  {
    if o.down.queue == [] { CarryWorks(w, ServiceClients, o.down); } else { RoutingWorks(o.down); }
  }

  lemma RepliesWork(w: Wiring, setup: SC.Setup, o: VW.OverWire)
    requires LinkInv(o.up.link) && !Drained(o.up)
    ensures IsCarriage(NextReply(o))
    ensures var o' := VW.Step(w, setup, o, NextReply(o)); PathWork(o'.up) < PathWork(o.up) && o'.down == o.down
  {
    if o.up.queue == [] { CarryWorks(w, ServiceServers, o.up); } else { RoutingWorks(o.up); }
  }

  lemma ServiceRunSnoc(w: Wiring, setup: SC.Setup, es: seq<VW.Event>, e: VW.Event)
    ensures VW.Run(w, setup, es + [e]) == VW.Step(w, setup, VW.Run(w, setup, es), e)
  {
    assert (es + [e])[..|es|] == es;
  }

  function RequestWork(w: Wiring, setup: SC.Setup, es: seq<VW.Event>): (n: nat)
    requires w.codec.Lawful()
  {
    VW.WireRefinesSystem(w, setup, es);
    PathWorkIsNatural(VW.Run(w, setup, es).down);
    PathWork(VW.Run(w, setup, es).down)
  }

  function ReplyWork(w: Wiring, setup: SC.Setup, es: seq<VW.Event>): (n: nat)
    requires w.codec.Lawful()
  {
    VW.WireRefinesSystem(w, setup, es);
    PathWorkIsNatural(VW.Run(w, setup, es).up);
    PathWork(VW.Run(w, setup, es).up)
  }

  lemma {:induction false} RequestsDrain(w: Wiring, setup: SC.Setup, es: seq<VW.Event>) returns (more: seq<VW.Event>)
    requires w.codec.Lawful()
    ensures forall e <- more :: IsCarriage(e)
    ensures Drained(VW.Run(w, setup, es + more).down)
    decreases RequestWork(w, setup, es)
  {
    if Drained(VW.Run(w, setup, es).down) {
      more := [];
      AppendNothing(es);
    } else {
      var e := NextRequest(VW.Run(w, setup, es));
      VW.WireRefinesSystem(w, setup, es);
      RequestsWork(w, setup, VW.Run(w, setup, es));
      ServiceRunSnoc(w, setup, es, e);
      var rest := RequestsDrain(w, setup, es + [e]);
      more := [e] + rest;
      Assoc(es, [e], rest);
    }
  }

  lemma {:induction false} RepliesDrain(w: Wiring, setup: SC.Setup, es: seq<VW.Event>) returns (more: seq<VW.Event>)
    requires w.codec.Lawful() && Drained(VW.Run(w, setup, es).down)
    ensures forall e <- more :: IsCarriage(e)
    ensures Drained(VW.Run(w, setup, es + more).down) && Drained(VW.Run(w, setup, es + more).up)
    decreases ReplyWork(w, setup, es)
  {
    if Drained(VW.Run(w, setup, es).up) {
      more := [];
      AppendNothing(es);
    } else {
      var e := NextReply(VW.Run(w, setup, es));
      VW.WireRefinesSystem(w, setup, es);
      RepliesWork(w, setup, VW.Run(w, setup, es));
      ServiceRunSnoc(w, setup, es, e);
      var rest := RepliesDrain(w, setup, es + [e]);
      more := [e] + rest;
      Assoc(es, [e], rest);
    }
  }

  /** The same for services: every request is taken by the client and every reply heard by the server. */
  lemma ServiceMessagesArrive(w: Wiring, setup: SC.Setup, es: seq<VW.Event>) returns (more: seq<VW.Event>)
    requires w.codec.Lawful()
    ensures forall e <- more :: IsCarriage(e)
    ensures var s := VW.Run(w, setup, es + more).ends;
            s.taken == |s.server.sent| && s.heard == |s.client.replies|
  {
    var down := RequestsDrain(w, setup, es);
    var up := RepliesDrain(w, setup, es + down);
    more := down + up;
    Assoc(es, down, up);
    VW.WireRefinesSystem(w, setup, es + more);
    DrainedHoldsNothing(w, ServiceClients, VW.Run(w, setup, es + more).down);
    DrainedHoldsNothing(w, ServiceServers, VW.Run(w, setup, es + more).up);
  }
}
