/**
  A worked run of the registry and three channel sessions, as a client of the
  session and registry contracts alone.
 */
module BroadcastScenario {
  import opened OutboundQueue
  import opened Broadcast

  /**
    Sessions a, b and c complete their handshakes in that order; a receives
    "hello" and broadcasts it. Every member, a included, gets it exactly once.
    Then b's write fails and its read fails, so b is destroyed and leaves;
    leaving again changes nothing. c's delivery still completes, and a later
    broadcast from c reaches a and c but not b.
   */
  method ThreeSessions() returns (registry: SharedState, a: WebSocketSession, b: WebSocketSession, c: WebSocketSession)
    ensures registry.sessions == {a, c} && a != b && b != c && a != c
    ensures a.queue == ["hello", "bye"] && a.inFlight == ["hello"]
    ensures b.queue == ["hello"] && b.inFlight == []
    ensures c.queue == ["bye"] && c.inFlight == ["bye"]
  {
    registry, a, b, c := ThreeJoined();
    a.OnRead(true, "hello");
    assert "" + "hello" == "hello";
    assert a.queue == b.queue == c.queue == ["hello"];
    assert a.inFlight == b.inFlight == c.inFlight == ["hello"];

    FailAndLeave(b);
    assert registry.sessions == {a, c};

    c.OnWrite(true);
    assert c.Outbox() == Idle && c.buffer == [];
    c.OnRead(true, "bye");
    assert "" + "bye" == "bye";
  }

  /** Three distinct sessions join a new registry, each reading with nothing queued. */
  method ThreeJoined() returns (registry: SharedState, a: WebSocketSession, b: WebSocketSession, c: WebSocketSession)
    ensures fresh(registry) && fresh(a) && fresh(b) && fresh(c)
    ensures registry.Valid() && registry.sessions == {a, b, c}
    ensures a != b && b != c && a != c
    ensures a.registry == registry && b.registry == registry && c.registry == registry
    ensures a.Outbox() == b.Outbox() == c.Outbox() == Idle
    ensures a.Lifecycle() == b.Lifecycle() == c.Lifecycle() == LifecycleState(false, true, [])
  {
    registry := new SharedState("www");
    a := Connect(registry);
    b := Connect(registry);
    c := Connect(registry);
  }

  /** A session that has completed its handshake and is reading, with nothing queued. */
  method Connect(registry: SharedState) returns (s: WebSocketSession)
    requires registry.Valid()
    modifies registry
    ensures registry.Valid() && fresh(s) && s.registry == registry
    ensures registry.sessions == old(registry.sessions) + {s}
    ensures s.Valid() && s.Outbox() == Idle && s.Lifecycle() == LifecycleState(false, true, [])
  {
    s := new WebSocketSession(registry);
    s.Run();
    s.OnAccept(true);
  }

  /**
    The session's write fails, then its read fails; with no handler pending it
    is destroyed and leaves the registry. A second leave changes nothing.
   */
  method FailAndLeave(s: WebSocketSession)
    requires s.registry.Valid() && s in s.registry.sessions
    requires s.Valid() && s.reading && !s.accepting && s.inFlight != []
    modifies s, s.registry, s.registry.sessions
    ensures s.registry.Valid()
    ensures s.registry.sessions == old(s.registry.sessions) - {s}
    ensures s.Outbox() == Complete(old(s.Outbox()), false)
    ensures forall t :: t in s.registry.sessions ==> t.Outbox() == old(t.Outbox()) && t.Lifecycle() == old(t.Lifecycle())
  {
    var registry := s.registry;
    s.OnWrite(false);
    assert registry.Valid();
    s.OnRead(false, "");
    s.Destroy();
    var once := registry.sessions;
    registry.Leave(s);
    assert registry.sessions == once;
  }
}
