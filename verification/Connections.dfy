/** The set of live connections: starting, stopping one, stopping all, and the close callback that re-enters. */
module Connections {
  import opened Sequences

  class Connection {
    const endpoint: string

    constructor (endpoint: string)
      ensures this.endpoint == endpoint
    {
      this.endpoint := endpoint;
    }
  }

  /** What is done to connections, in order. */
  datatype Action = StopThread(c: Connection) | JoinThread(c: Connection) | Close(c: Connection) | CloseCallback

  /** The close callback: none set, or one that shuts everything down. */
  datatype Callback = Nothing | ShutDown

  function Closing(c: Connection): seq<Action> {
    [StopThread(c), JoinThread(c), Close(c)]
  }

  function ClosingAll(cs: seq<Connection>): seq<Action> {
    Gather(Closing, cs)
  }

  /** The position of the first occurrence; the length if there is none. */
  function Find(cs: seq<Connection>, c: Connection): (k: nat)
    ensures k <= |cs| && (forall i :: 0 <= i < k ==> cs[i] != c)
    ensures k < |cs| <==> c in cs
    ensures k < |cs| ==> cs[k] == c
  {
    if cs == [] || cs[0] == c then 0 else 1 + Find(cs[1..], c)
  }

  function Without(cs: seq<Connection>, c: Connection): (rest: seq<Connection>)
    ensures |rest| == if c in cs then |cs| - 1 else |cs|
  {
    var k := Find(cs, c);
    if k < |cs| then cs[..k] + cs[k + 1..] else cs
  }

  // ---------- the object ----------

  class ConnectionManager {
    var connections: seq<Connection>
    var callback: Callback
    ghost var log: seq<Action>

    constructor (callback: Callback)
      ensures connections == [] && log == [] && this.callback == callback
    {
      connections, log := [], [];
      this.callback := callback;
    }

    ghost function State(): Manager
      reads this
    {
      Manager(connections, log)
    }

    /** `starts` is the result of the connection's own start(). */
    method StartConnection(c: Connection, starts: bool)
      modifies this`connections
      ensures State() == Step(callback, old(State()), Start(c, starts))
    {
      if starts { connections := connections + [c]; }
    }

    method StopConnectionInternal(c: Connection, callCallback: bool)
      modifies this`connections, this`log
      ensures State() == StopOne(callback, old(State()), c, callCallback)
      decreases |connections|, if callCallback then 1 else 0
    {
      var k := 0;
      while k < |connections|
        invariant k <= |connections| && (forall i :: 0 <= i < k ==> connections[i] != c)
        invariant State() == old(State())
      {
        if connections[k] == c {
          assert Find(connections, c) == k;
          connections := connections[..k] + connections[k + 1..];
          log := log + [StopThread(c)];
          log := log + [JoinThread(c)];
          log := log + [Close(c)];
          assert log == old(log) + Closing(c);
          if callCallback { RunCallback(); }
          return;
        }
        k := k + 1;
      }
    }

    method RunCallback()
      modifies this`connections, this`log
      ensures State() == AfterCallback(callback, old(State()))
      decreases |connections|, 3
    {
      log := log + [CloseCallback];
      if callback.ShutDown? { StopAllConnections(); }
    }

    method StopAllConnections()
      modifies this`connections, this`log
      ensures State() == StopEvery(old(State()))
      decreases |connections|, 2
    {
      ghost var all := connections;
      ghost var n := 0;
      while connections != []
        invariant n <= |all| && connections == all[n..]
        invariant log == old(log) + ClosingAll(all[..n])
        decreases |connections|
      {
        assert Find(connections, connections[0]) == 0;
        ClosingSnoc(all, n);
        StopConnectionInternal(connections[0], false);
        n := n + 1;
      }
      assert all[..n] == all;
    }
  }

  lemma ClosingSnoc(all: seq<Connection>, n: nat)
    requires n < |all|
    ensures ClosingAll(all[..n + 1]) == ClosingAll(all[..n]) + Closing(all[n])
  {
    assert all[..n + 1] == all[..n] + [all[n]];
    GatherSnoc(Closing, all[..n], all[n]);
  }

  // ---------- the specification ----------

  datatype Manager = Manager(connections: seq<Connection>, log: seq<Action>)

  datatype Event = Start(c: Connection, starts: bool) | Stop(c: Connection) | StopAll

  function StopEvery(m: Manager): Manager {
    Manager([], m.log + ClosingAll(m.connections))
  }

  function AfterCallback(callback: Callback, m: Manager): Manager {
    var called := m.(log := m.log + [CloseCallback]);
    if callback.ShutDown? then StopEvery(called) else called
  }

  function StopOne(callback: Callback, m: Manager, c: Connection, callCallback: bool): Manager {
    if c !in m.connections then m
    else
      var closed := Manager(Without(m.connections, c), m.log + Closing(c));
      if callCallback then AfterCallback(callback, closed) else closed
  }

  function Step(callback: Callback, m: Manager, e: Event): Manager {
    match e
    case Start(c, starts) => if starts then m.(connections := m.connections + [c]) else m
    case Stop(c) => StopOne(callback, m, c, true)
    case StopAll => StopEvery(m)
  }

  function Run(callback: Callback, es: seq<Event>): Manager
    decreases |es|
  {
    if es == [] then Manager([], []) else Step(callback, Run(callback, es[..|es| - 1]), es[|es| - 1])
  }

  /** The connections that came under management, in order. */
  function Started(es: seq<Event>): seq<Connection> {
    Gather((e: Event) => if e.Start? && e.starts then [e.c] else [], es)
  }

  function ClosedBy(a: Action): seq<Connection> {
    if a.Close? then [a.c] else []
  }

  /** The connections closed, in order. */
  function Closed(log: seq<Action>): seq<Connection> {
    Gather(ClosedBy, log)
  }

  function IsCall(a: Action): seq<Action> {
    if a.CloseCallback? then [] else [a]
  }

  /** The log without callback runs. */
  function Calls(log: seq<Action>): seq<Action> {
    Gather(IsCall, log)
  }

  lemma ClosingProjects(c: Connection)
    ensures Closed(Closing(c)) == [c] && Calls(Closing(c)) == Closing(c)
  {
    assert Closing(c) == [StopThread(c)] + [JoinThread(c)] + [Close(c)];
    GatherSnoc(ClosedBy, [StopThread(c)] + [JoinThread(c)], Close(c));
    GatherSnoc(ClosedBy, [StopThread(c)], JoinThread(c));
    GatherSnoc(IsCall, [StopThread(c)] + [JoinThread(c)], Close(c));
    GatherSnoc(IsCall, [StopThread(c)], JoinThread(c));
  }

  lemma {:induction false} ClosingAllProjects(cs: seq<Connection>)
    ensures Closed(ClosingAll(cs)) == cs && Calls(ClosingAll(cs)) == ClosingAll(cs)
  {
    if cs != [] {
      ClosingAllProjects(cs[1..]);
      ClosingProjects(cs[0]);
      GatherConcat(ClosedBy, Closing(cs[0]), ClosingAll(cs[1..]));
      GatherConcat(IsCall, Closing(cs[0]), ClosingAll(cs[1..]));
    }
  }

  lemma WithoutMultiset(cs: seq<Connection>, c: Connection)
    requires c in cs
    ensures multiset(cs) == multiset(Without(cs, c)) + multiset{c}
  {
    var k := Find(cs, c);
    assert cs == cs[..k] + [cs[k]] + cs[k + 1..];
  }

  /** Everything done to connections is stop, join, close, one connection after the other. */
  predicate Orderly(log: seq<Action>) {
    Calls(log) == ClosingAll(Closed(log))
  }

  lemma AppendOrderly(log: seq<Action>, cs: seq<Connection>)
    requires Orderly(log)
    ensures Orderly(log + ClosingAll(cs)) && Closed(log + ClosingAll(cs)) == Closed(log) + cs
  {
    ClosingAllProjects(cs);
    GatherConcat(ClosedBy, log, ClosingAll(cs));
    GatherConcat(IsCall, log, ClosingAll(cs));
    GatherConcat(Closing, Closed(log), cs);
  }

  lemma AppendOne(log: seq<Action>, c: Connection)
    requires Orderly(log)
    ensures Orderly(log + Closing(c)) && Closed(log + Closing(c)) == Closed(log) + [c]
  {
    GatherOne(Closing, c);
    AppendOrderly(log, [c]);
  }

  lemma AppendCallback(log: seq<Action>)
    requires Orderly(log)
    ensures Orderly(log + [CloseCallback]) && Closed(log + [CloseCallback]) == Closed(log)
  {
    GatherSnoc(ClosedBy, log, CloseCallback);
    GatherSnoc(IsCall, log, CloseCallback);
    assert Closed(log) + [] == Closed(log) && Calls(log) + [] == Calls(log);
  }

  /** All connections a manager has ever managed. */
  function Accounted(m: Manager): multiset<Connection> {
    multiset(m.connections) + multiset(Closed(m.log))
  }

  lemma StopEveryAccounts(m: Manager)
    requires Orderly(m.log)
    ensures Orderly(StopEvery(m).log) && Accounted(StopEvery(m)) == Accounted(m)
  {
    AppendOrderly(m.log, m.connections);
  }

  lemma StopOneAccounts(callback: Callback, m: Manager, c: Connection)
    requires Orderly(m.log)
    ensures var m' := StopOne(callback, m, c, true);
            Orderly(m'.log) && Accounted(m') == Accounted(m)
  {
    if c in m.connections {
      var closed := Manager(Without(m.connections, c), m.log + Closing(c));
      AppendOne(m.log, c);
      WithoutMultiset(m.connections, c);
      assert Accounted(closed) == Accounted(m);
      AppendCallback(closed.log);
      var called := closed.(log := closed.log + [CloseCallback]);
      if callback.ShutDown? { StopEveryAccounts(called); }
    }
  }

  /**
   * Over every run of starts, stops and stop-alls, with a close callback that
   * may re-enter: each time a connection came under management it is either
   * still managed or was stopped, joined and closed exactly once, in that order.
   */
  lemma {:induction false} EveryConnectionClosedOnce(callback: Callback, es: seq<Event>)
    ensures var m := Run(callback, es);
            Orderly(m.log) && multiset(Started(es)) == multiset(m.connections) + multiset(Closed(m.log))
    decreases |es|
  {
    if es != [] {
      var before, e := es[..|es| - 1], es[|es| - 1];
      var m := Run(callback, before);
      assert es == before + [e];
      EveryConnectionClosedOnce(callback, before);
      GatherSnoc((e: Event) => if e.Start? && e.starts then [e.c] else [], before, e);
      match e
      case Start(c, starts) =>
      case Stop(c) => StopOneAccounts(callback, m, c);
      case StopAll => StopEveryAccounts(m);
    }
  }

  /**
   * After a stop-all, or a stop whose callback shuts down, nothing is managed and everything
   * started has been closed.
   */
  lemma ShutDownClosesAll(callback: Callback, es: seq<Event>, e: Event)
    requires e.StopAll? || (e.Stop? && callback.ShutDown? && e.c in Run(callback, es).connections)
    ensures var m := Run(callback, es + [e]);
            m.connections == [] && multiset(Closed(m.log)) == multiset(Started(es))
  {
    assert (es + [e])[..|es|] == es;
    EveryConnectionClosedOnce(callback, es + [e]);
    GatherSnoc((e: Event) => if e.Start? && e.starts then [e.c] else [], es, e);
    assert Started(es) + [] == Started(es);
  }

  /** Stopping a connection that is not managed does nothing. */
  lemma UnmanagedStopIsNoOp(callback: Callback, es: seq<Event>, c: Connection)
    ensures Step(callback, Run(callback, es), Stop(c)) == Run(callback, es) <==> c !in Run(callback, es).connections
  {
    var m := Run(callback, es);
    if c in m.connections { assert |StopOne(callback, m, c, true).log| > |m.log|; }
  }

  // ---------- what one stop does ----------

  /** The first connection equal to c is taken out of before, and nothing else. */
  predicate TakenOut(before: seq<Connection>, c: Connection, k: nat, after: seq<Connection>) {
    && k < |before| && before[k] == c && (forall i :: 0 <= i < k ==> before[i] != c)
    && after == before[..k] + before[k + 1..]
  }

  /**
   * c is closed and the callback runs once: the others stay managed in their
   * order, or are closed after c in that order when the callback shuts down.
   */
  predicate StoppedAt(callback: Callback, m: Manager, c: Connection, k: nat, m': Manager) {
    && k < |m.connections|
    && var rest := m.connections[..k] + m.connections[k + 1..];
    && TakenOut(m.connections, c, k, rest)
    && m'.connections == (if callback.ShutDown? then [] else rest)
    && m.log + [StopThread(c), JoinThread(c), Close(c), CloseCallback] <= m'.log
    && Closed(m'.log) == Closed(m.log) + [c] + (if callback.ShutDown? then rest else [])
    && Calls(m'.log) == ClosingAll(Closed(m'.log))
  }

  lemma CalledAfterClosing(log: seq<Action>, c: Connection)
    requires Orderly(log)
    ensures var called := log + Closing(c) + [CloseCallback];
            && called == log + [StopThread(c), JoinThread(c), Close(c), CloseCallback]
            && Orderly(called) && Closed(called) == Closed(log) + [c]
  {
    AppendOne(log, c);
    AppendCallback(log + Closing(c));
  }

  lemma StoppedAlone(m: Manager, c: Connection)
    requires Orderly(m.log) && c in m.connections
    ensures var called := m.log + Closing(c) + [CloseCallback];
            StoppedAt(Nothing, m, c, Find(m.connections, c), Manager(Without(m.connections, c), called))
  {
    CalledAfterClosing(m.log, c);
    AppendNothing(Closed(m.log) + [c]);
  }

  lemma StoppedWithAll(m: Manager, c: Connection)
    requires Orderly(m.log) && c in m.connections
    ensures var called := m.log + Closing(c) + [CloseCallback];
            StoppedAt(ShutDown, m, c, Find(m.connections, c),
                      Manager([], called + ClosingAll(Without(m.connections, c))))
  {
    CalledAfterClosing(m.log, c);
    AppendOrderly(m.log + Closing(c) + [CloseCallback], Without(m.connections, c));
  }

  lemma StopDoes(callback: Callback, m: Manager, c: Connection)
    requires c in m.connections
    ensures var rest := Without(m.connections, c);
            var called := m.log + Closing(c) + [CloseCallback];
            StopOne(callback, m, c, true)
            == if callback.ShutDown? then Manager([], called + ClosingAll(rest)) else Manager(rest, called)
  {
  }

  /** In every run a stop of a managed connection closes that one, its first occurrence. */
  lemma StopClosesThatConnection(callback: Callback, es: seq<Event>, c: Connection) returns (k: nat)
    requires c in Run(callback, es).connections
    ensures StoppedAt(callback, Run(callback, es), c, k, Run(callback, es + [Stop(c)]))
  {
    var m := Run(callback, es);
    k := Find(m.connections, c);
    assert (es + [Stop(c)])[..|es|] == es;
    EveryConnectionClosedOnce(callback, es);
    StopDoes(callback, m, c);
    match callback
    case Nothing => StoppedAlone(m, c);
    case ShutDown => StoppedWithAll(m, c);
  }

  /** A stop-all closes the managed connections in their order. */
  lemma StopAllClosesInOrder(callback: Callback, es: seq<Event>)
    ensures var m, m' := Run(callback, es), Run(callback, es + [StopAll]);
            && m'.connections == []
            && Closed(m'.log) == Closed(m.log) + m.connections && Calls(m'.log) == ClosingAll(Closed(m'.log))
            && |m'.log| == |m.log| + 3 * |m.connections|
  {
    var m := Run(callback, es);
    assert (es + [StopAll])[..|es|] == es;
    EveryConnectionClosedOnce(callback, es);
    AppendOrderly(m.log, m.connections);
    ThreeEach(m.connections);
  }

  lemma {:induction false} ThreeEach(cs: seq<Connection>)
    ensures |ClosingAll(cs)| == 3 * |cs|
  {
    if cs != [] { ThreeEach(cs[1..]); }
  }
}
