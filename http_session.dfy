/**
  The HTTP session: one connection driven through read/respond cycles until the
  peer closes it, an operation fails, the response asks for the connection to
  be closed, or the request upgrades the connection to a channel session.
 */
module HttpServer {
  import opened Http
  import opened OutboundQueue
  import opened Broadcast

  /** The settings a freshly constructed request parser starts with. */
  datatype Parser = Parser(bodyLimit: nat)

  /**
    Where the session stands. `Reading` and `Writing` have an asynchronous
    operation outstanding; the last three are final: nothing more is issued.
   */
  datatype Phase =
    | Created
    | Reading
    | Writing(response: Response)
    | ShutDown      // the sending side has been shut down
    | Stopped       // an operation failed; the session just ends
    | HandedOff     // the socket now belongs to a channel session

  /** How a read completes: the peer closed, an error (a timeout among them), or a parsed request. */
  datatype ReadOutcome =
    | EndOfStream
    | ReadError
    | Received(request: Request, upgrade: bool)

  class HttpSession {
    const registry: SharedState
    var phase: Phase
    var parser: Option<Parser>

    constructor (registry: SharedState)
      ensures this.registry == registry
      ensures phase == Created && parser == None
    {
      this.registry := registry;
      phase := Created;
      parser := None;
    }

    /** run: issue the first read. */
    method Run()
      requires phase == Created
      modifies this
      ensures phase == Reading && parser == Some(Parser(MaxBodySize))
    {
      DoRead();
    }

    /** doRead: a fresh parser with the body cap, then a read. */
    method DoRead()
      requires phase == Created || phase.Writing?
      modifies this
      ensures phase == Reading && parser == Some(Parser(MaxBodySize))
    {
      parser := Some(Parser(MaxBodySize));
      phase := Reading;
    }

    /**
      onRead. End of stream shuts the sending side and reads no more; any other
      error stops the session; an upgrade request hands the connection to a new
      channel session that starts its handshake, and no HTTP response is
      written; any other request is answered with the response the decision
      chain gives for the document root. `fs` is what opening each local file
      would report.
     */
    method OnRead(outcome: ReadOutcome, fs: string -> OpenResult) returns (channel: WebSocketSession?)
      requires phase == Reading
      modifies this
      ensures outcome == EndOfStream ==> phase == ShutDown && channel == null
      ensures outcome == ReadError ==> phase == Stopped && channel == null
      ensures outcome.Received? && outcome.upgrade ==>
        && phase == HandedOff
        && channel != null && fresh(channel)
        && channel.registry == registry && channel.Valid()
        && channel.accepting && !channel.reading && channel.Outbox() == Idle
      ensures outcome.Received? && !outcome.upgrade ==>
        && phase == Writing(HandleRequest(registry.documentRoot, outcome.request, fs))
        && channel == null
      ensures parser == old(parser)
    {
      channel := null;
      match outcome
      case EndOfStream =>
        phase := ShutDown;
      case ReadError =>
        phase := Stopped;
      case Received(request, upgrade) =>
        if upgrade {
          channel := new WebSocketSession(registry);
          channel.Run();
          phase := HandedOff;
        } else {
          var response := HandleRequest(registry.documentRoot, request, fs);
          phase := Writing(response);
        }
    }

    /**
      onWrite. A failed write stops the session; a written response that needs
      the connection closed shuts the sending side; otherwise the next request
      is read with a fresh parser.
     */
    method OnWrite(ok: bool)
      requires phase.Writing?
      modifies this
      ensures !ok ==> phase == Stopped && parser == old(parser)
      ensures ok && NeedEof(old(phase).response) ==> phase == ShutDown && parser == old(parser)
      ensures ok && !NeedEof(old(phase).response) ==>
        phase == Reading && parser == Some(Parser(MaxBodySize))
    {
      if !ok {
        phase := Stopped;
        return;
      }
      if NeedEof(phase.response) {
        phase := ShutDown;
        return;
      }
      DoRead();
    }
  }

  /**
    After a response the connection is read again exactly when the request
    asked to keep it alive, whatever the status of the response.
   */
  lemma KeepAliveDecidesNextRead(root: string, req: Request, fs: string -> OpenResult)
    ensures NeedEof(HandleRequest(root, req, fs)) <==> !req.keepAlive
  {
  }
}
