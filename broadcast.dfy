/**
  The broadcast registry and the channel (WebSocket) sessions it fans out to.

  Both live in one module because each calls the other: a session joins and
  leaves the registry, and the registry hands every message to each member
  session. Sessions are objects, so the registry's members are identified by
  reference, as the program does with pointers. Handlers run one at a time.
 */
module Broadcast {
  import opened OutboundQueue

  /** The registry of live channel sessions, plus the document root it was built with. */
  class SharedState {
    const documentRoot: string
    var sessions: set<WebSocketSession>

    /** Every member keeps its own write discipline. */
    ghost predicate Valid()
      reads this, sessions
    {
      forall s :: s in sessions ==> s.Valid()
    }

    constructor (documentRoot: string)
      ensures this.documentRoot == documentRoot
      ensures sessions == {} && Valid()
    {
      this.documentRoot := documentRoot;
      sessions := {};
    }

    /** Adds a session; adding a member again changes nothing. */
    method Join(session: WebSocketSession)
      requires Valid() && session.Valid()
      modifies this
      ensures Valid()
      ensures sessions == old(sessions) + {session}
    {
      sessions := sessions + {session};
    }

    /** Removes a session; removing a non-member changes nothing. */
    method Leave(session: WebSocketSession)
      requires Valid()
      modifies this
      ensures Valid()
      ensures sessions == old(sessions) - {session}
    {
      sessions := sessions - {session};
    }

    /**
      Hands `message` once to every member, the sender included. Membership is
      left as it was, and only members are touched.
     */
    method Send(message: string)
      requires Valid()
      modifies sessions
      ensures Valid() && sessions == old(sessions)
      ensures forall s :: s in sessions ==> s.Outbox() == Enqueue(old(s.Outbox()), message)
      ensures forall s :: s in sessions ==> s.Lifecycle() == old(s.Lifecycle())
    {
      var pending := sessions;
      while pending != {}
        invariant pending <= sessions
        invariant Valid()
        invariant forall s :: s in sessions && s !in pending ==> s.Outbox() == Enqueue(old(s.Outbox()), message)
        invariant forall s :: s in pending ==> s.Outbox() == old(s.Outbox())
        invariant forall s :: s in sessions ==> s.Lifecycle() == old(s.Lifecycle())
        decreases pending
      {
        var s :| s in pending;
        s.OnSend(message);
        pending := pending - {s};
      }
    }
  }

  /** The handshake, read and write state of a session, apart from its outbound queue. */
  datatype LifecycleState = LifecycleState(accepting: bool, reading: bool, buffer: string)

  /**
    One upgraded connection. `accepting`, `reading` and `inFlight` stand for the
    asynchronous handshake, read and write operations the session has started
    and whose completion handlers have not yet run.
   */
  class WebSocketSession {
    const registry: SharedState
    var accepting: bool
    var reading: bool
    var buffer: string
    var queue: seq<string>
    var inFlight: seq<string>
    /** Whether run has been called; the handshake is started once per session. */
    ghost var started: bool

    ghost predicate Valid()
      reads this
    {
      Inv(Outbox()) && !(accepting && reading)
    }

    function Outbox(): Writer
      reads this
    {
      Writer(queue, inFlight)
    }

    function Lifecycle(): LifecycleState
      reads this
    {
      LifecycleState(accepting, reading, buffer)
    }

    /** A session is created with the connection taken over from the HTTP session. */
    constructor (registry: SharedState)
      ensures this.registry == registry && Valid()
      ensures Outbox() == Idle && Lifecycle() == LifecycleState(false, false, []) && !started
    {
      this.registry := registry;
      started := false;
      accepting, reading, buffer := false, false, [];
      queue, inFlight := [], [];
    }

    /** run: starts the handshake on the upgrade request. */
    method Run()
      requires Valid() && !started && !accepting && !reading
      modifies this`accepting, this`started
      ensures Valid() && accepting && started
    {
      accepting, started := true, true;
    }

    /** onAccept: a failed handshake ends the session unregistered; a good one joins and reads. */
    method OnAccept(ok: bool)
      requires Valid() && accepting && registry.Valid()
      modifies this`accepting, this`reading, registry
      ensures Valid() && registry.Valid() && !accepting
      ensures ok ==> registry.sessions == old(registry.sessions) + {this} && reading
      ensures !ok ==> registry.sessions == old(registry.sessions) && !reading
    {
      accepting := false;
      if !ok {
        return;
      }
      registry.Join(this);
      reading := true;
    }

    /**
      onRead: the read appended `received` to the buffer. On success the whole
      buffer goes once to every member, the buffer is emptied and the next read
      starts; on failure the read loop ends and nothing is sent.
     */
    method OnRead(ok: bool, received: string)
      requires Valid() && reading && registry.Valid()
      modifies this`reading, this`buffer, registry.sessions
      ensures Valid() && registry.Valid() && registry.sessions == old(registry.sessions)
      ensures ok ==> Lifecycle() == old(Lifecycle()).(reading := true, buffer := [])
      ensures !ok ==> Lifecycle() == old(Lifecycle()).(reading := false)
      ensures this !in registry.sessions ==> Outbox() == old(Outbox())
      ensures ok ==> forall s :: s in registry.sessions ==>
        s.Outbox() == Enqueue(old(s.Outbox()), old(buffer) + received)
      ensures !ok ==> forall s :: s in registry.sessions ==> s.Outbox() == old(s.Outbox())
      ensures forall s :: s in registry.sessions && s != this ==> s.Lifecycle() == old(s.Lifecycle())
    {
      if !ok {
        reading := false;
        return;
      }
      buffer := buffer + received;
      registry.Send(buffer);
      buffer := [];
    }

    /** onSend: queue the message and start writing it if nothing else is queued. */
    method OnSend(message: string)
      requires Valid()
      modifies this`queue, this`inFlight
      ensures Valid()
      ensures Outbox() == Enqueue(old(Outbox()), message)
    {
      queue := queue + [message];
      if |queue| > 1 {
        return;
      }
      DoWrite();
    }

    /** doWrite: starts writing the front of the queue. */
    method DoWrite()
      requires queue != [] && inFlight == []
      modifies this`inFlight
      ensures inFlight == [queue[0]]
    {
      inFlight := inFlight + [queue[0]];
    }

    /** onWrite: the outstanding write completed with or without error. */
    method OnWrite(ok: bool)
      requires Valid() && inFlight != []
      modifies this`queue, this`inFlight
      ensures Valid()
      ensures Outbox() == Complete(old(Outbox()), ok)
    {
      inFlight := inFlight[1..];
      if !ok {
        return;
      }
      queue := queue[1..];
      if queue != [] {
        DoWrite();
      }
    }

    /** The destructor runs once no handler is pending, and deregisters the session. */
    method Destroy()
      requires !accepting && !reading && inFlight == []
      requires registry.Valid()
      modifies registry
      ensures registry.Valid()
      ensures registry.sessions == old(registry.sessions) - {this}
    {
      registry.Leave(this);
    }
  }
}
