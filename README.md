# A verified model of a chat/broadcast server's connection core

The server accepts TCP connections, answers plain HTTP requests for static
files from a document root, and upgrades WebSocket requests to channel
sessions. Every message a channel session reads is broadcast through a shared
registry to every registered session, the sender included. Each session writes
its messages out one at a time, in order.

The model covers three parts of that core:

- **Static-request decisions** (`http.dfy`, module `Http`, with properties in
  `http_properties.dfy`, module `HttpProperties`): the content type guessed
  from a path's last extension, the joining of the document root with a
  request target, and the decision chain that turns a request into a
  400/404/500/200 response.
- **The HTTP session** (`http_session.dfy`, module `HttpServer`): a class
  whose phase moves between reading and writing. It ends on end-of-stream, on
  an error, when the response needs the connection closed, or when the
  request is an upgrade and the socket goes to a new channel session.
- **Channel sessions and the registry** (`outbound_queue.dfy`, module
  `OutboundQueue`; `broadcast.dfy`, module `Broadcast`;
  `broadcast_scenario.dfy`, module `BroadcastScenario`). The outbound queue
  is specified on values first: a `Writer` holds the queue and the writes
  handed to the connection but not yet completed. The `WebSocketSession` and
  `SharedState` classes are then proved against that specification. The
  registry holds its members as a set of session objects, so identity is by
  reference, as the C++ pointers are.

Modelling choices:

- Asynchronous I/O becomes events. Each completion handler is a method that
  receives the operation's outcome as a parameter:
  - a read outcome for the HTTP session;
  - `ok` plus the received text for a channel read;
  - `ok` for a write or a handshake.
  
  The fields `accepting`, `reading` and `inFlight`, and the `Reading` and
  `Writing` phases, record which operations have been started and not yet
  completed.
- The file system becomes a parameter `fs: string -> OpenResult`. It gives the
  outcome of opening each path: `Opened(size)`, `NoSuchFile` or
  `OpenFailed(message)`.
- Handlers run one at a time. The registry calls each member's `OnSend`
  directly. In the program, `WebSocketSession::send` posts `onSend` to the
  session's strand, which serialises the same calls.
- `need_eof()` of a response is modelled as "not keep-alive". Every response
  the server builds carries a Content-Length, so that is the only reason left
  for closing the connection.
- `iequals(ext, key)` is modelled as equality after ASCII lower-casing
  (`IEquals`). The if-chain of extensions is modelled as a table searched in
  order, `MimeTable`. The first matching entry wins, as the first matching
  `if` does.
- Strings (`string`, a sequence of `char`) stand for the program's byte
  strings, one character per byte. So `|text|` is the Content-Length that
  `prepare_payload` computes for a string body.
- The 500 response's body keeps the program's text exactly, including the
  spelling "occured" and the unmatched closing quote.

## Model

| member | source | states |
|---|---|---|
| `Http.LastDot` | server/src/http_session.cpp:19-23 | no result exactly when the path has no '.'; otherwise the position holds a '.' and no '.' follows it |
| `Http.Extension` | server/src/http_session.cpp:17-24 | empty when the path has no '.'; otherwise a suffix of the path that starts with '.' and holds no other '.' |
| `Http.Lookup` | server/src/http_session.cpp:26-47 | the content type is the default "application/text" or the value of some table entry |
| `Http.PathConcatenate` | server/src/http_session.cpp:51-79 | an empty base gives the target unchanged; otherwise the result ends with the target, and what precedes it is the base with its trailing '/' dropped exactly when it has one |
| `Http.HandleRequest` | server/src/http_session.cpp:86-197 | the method is checked before the target; 400 exactly for a method other than GET/HEAD or an empty, relative or ".."-containing target; 404, 500 and 200 exactly for the three outcomes of opening the resolved path; the 404 body names the target and the 500 body carries the open error's message; a 200 has the file's size as Content-Length and the path's content type; HEAD has an empty body and GET the file body; version and keep-alive are always the request's |
| `Http.ToLowerAscii` | server/src/http_session.cpp:16 | an upper-case ASCII letter maps to its lower-case letter, 32 code points on; every other character is left alone |
| `Http.Lower` | server/src/http_session.cpp:16 | lower-casing keeps the length and lower-cases each character in place |
| `Http.IEquals` | server/src/http_session.cpp:16 | the `iequals` comparison: equal after ASCII lower-casing; `HttpProperties.IEqualsCharwise` states what that means |
| `HttpProperties.IEqualsCharwise` | server/src/http_session.cpp:16 | two strings are equal ignoring case exactly when they have the same length and each pair of characters agrees after lower-casing |
| `Http.MimeType` | server/src/http_session.cpp:14-48 | the content type is the default or one of the table's values; what it is, case-blind and first-match, is stated by `MimeTypeFollowsTable`, `MimeTypeDefault`, `MimeTypeWithoutDot` and `MimeTypeIgnoresCase` below |
| `HttpProperties.LookupFirstMatch` | server/src/http_session.cpp:26-46 | when entry i is the first whose key matches the extension ignoring case, the result is entry i's value, whatever later entries hold |
| `HttpProperties.LookupNoMatch` | server/src/http_session.cpp:47 | when no key matches the extension ignoring case, the result is "application/text" |
| `Http.LegalTarget` | server/src/http_session.cpp:142-147 | a target is served only if it is non-empty, starts with '/' and holds no two dots in a row; `HttpProperties.TargetLegality` shows examples either side |
| `HttpProperties.TargetLegality` | server/src/http_session.cpp:142-147 | "/" and "/a.b/c.html" are legal; "" and "index.html" are not; "/../etc/passwd" is rejected, and so is "/notes..txt", because any ".." is refused, even inside a name |
| `Http.FilePath` | server/src/http_session.cpp:149-153 | the resolved path ends with the target, followed by "index.html" when the target ends in '/'; it is exactly that when the root is empty; otherwise what precedes it is the root with its trailing '/' dropped exactly when it has one |
| `Http.TextResponse` | server/src/http_session.cpp:94-134 | a text response has the given status and body, the body's length as Content-Length, type text/html, and the request's version and keep-alive |
| `Http.BadRequestResponse` | server/src/http_session.cpp:94-106 | a 400 whose body is the reason given, with its length as Content-Length, text/html, and the request's version and keep-alive |
| `Http.NotFoundResponse` | server/src/http_session.cpp:108-120 | a 404 whose body is "The resource '", the target, then "' was not found", with Content-Length the target's length plus 29 |
| `Http.ServerErrorResponse` | server/src/http_session.cpp:122-134 | a 500 whose body is "An error occured: ", the error text, then a lone "'", with Content-Length the error text's length plus 19 |
| `Http.NeedEof` | server/src/http_session.cpp:286 | a response needs the connection closed exactly when it is not keep-alive; `KeepAliveDecidesNextRead` ties it to the request |
| `HttpProperties.MimeTypeIgnoresCase` | server/src/http_session.cpp:14-48 | two paths that differ only in ASCII case get the same content type |
| `HttpProperties.MimeTypeFollowsTable` | server/src/http_session.cpp:26-46 | an extension equal to a table key, ignoring case, gets that key's content type (the keys are distinct, so no earlier entry shadows it) |
| `HttpProperties.MimeTypeDefault` | server/src/http_session.cpp:47 | an extension that matches no key gets "application/text" |
| `HttpProperties.MimeTypeWithoutDot` | server/src/http_session.cpp:17-47 | a path with no '.' gets "application/text" |
| `HttpProperties.ExtensionOfSuffix` | server/src/http_session.cpp:17-24 | whatever precedes it, a last part that starts with its only '.' is the extension |
| `HttpProperties.MimeTypeOfDottedDirectory` | server/src/http_session.cpp:17-24 | "/a.b/file" has extension ".b/file" and so gets "application/text" |
| `HttpProperties.HtmlFile` | server/src/http_session.cpp:27 | a path whose extension is ".html" is served as text/html |
| `HttpProperties.RejectedRequestOpensNothing` | server/src/http_session.cpp:136-147 | a request rejected for its method or target gets 400 whatever the file system holds |
| `HttpProperties.HeadIsGetWithoutBody` | server/src/http_session.cpp:173-192 | HEAD gets the status, length, type and keep-alive that GET gets; on success HEAD has an empty body and GET a file body, and otherwise the two responses are identical |
| `HttpProperties.ResolvedPathStaysUnderRoot` | server/src/http_session.cpp:142-153 | a legal target resolves to the document root (its trailing '/' dropped) followed by a part that starts with '/' and holds no "..", even after "index.html" is appended |
| `HttpProperties.RootTargetServesIndex` | server/src/http_session.cpp:149-192 | GET "/" serves the root's index.html as text/html with the file's size, when that file opens |
| `HttpServer.HttpSession.constructor` | server/src/http_session.cpp:201-206 | a new session keeps the registry it was given and has issued nothing |
| `HttpServer.HttpSession.Run` | server/src/http_session.cpp:208-211 | running a new session starts a read with a fresh parser capped at 10,000 body bytes |
| `HttpServer.HttpSession.DoRead` | server/src/http_session.cpp:222-243 | a read is issued only from a new session or after a written response, never after the session has ended, and it starts with a fresh parser capped at 10,000 body bytes |
| `HttpServer.HttpSession.OnRead` | server/src/http_session.cpp:245-289 | end-of-stream shuts the sending side and reads no more; another error stops the session; an upgrade creates a fresh channel session, with an empty queue, that has started its handshake, and writes no HTTP response; any other request moves to writing the response HandleRequest gives for the registry's document root |
| `HttpServer.HttpSession.OnWrite` | server/src/http_session.cpp:291-307 | a failed write stops the session; a response that needs the connection closed shuts the sending side; otherwise a fresh read with a new 10,000-byte parser |
| `HttpServer.KeepAliveDecidesNextRead` | server/src/http_session.cpp:291-306 | whatever the status, the connection is read again exactly when the request asked for keep-alive |
| `OutboundQueue.Enqueue` | server/src/websocket_session.cpp:83-96 | the message always goes to the back of the queue; a write of it starts exactly when the queue was empty; keeps "at most one write, of the front", keeps "write outstanding iff queue non-empty", and keeps a stalled writer stalled |
| `OutboundQueue.Complete` | server/src/websocket_session.cpp:108-122 | success removes exactly the front and leaves a write outstanding iff messages remain; failure leaves the queue as it was and starts no write |
| `OutboundQueue.Step` | server/src/websocket_session.cpp:83-122 | any handler run keeps at most one write outstanding, and that write is of the queue's front |
| `OutboundQueue.Run` | server/src/websocket_session.cpp:83-122 | the same holds after any feasible schedule of deliveries and completions |
| `OutboundQueue.WrittenInOrder` | server/src/websocket_session.cpp:87-121 | for any schedule, the messages written followed by those still queued are the initial queue followed by the messages delivered: none lost, none duplicated, none reordered |
| `OutboundQueue.WrittenIsPrefixOfDelivered` | server/src/websocket_session.cpp:87-121 | from an empty session, the written messages are a prefix of the delivered ones |
| `OutboundQueue.HealthyWithoutFailures` | server/src/websocket_session.cpp:89-121 | while no write fails, a write is outstanding exactly when the queue is non-empty |
| `OutboundQueue.StalledForever` | server/src/websocket_session.cpp:110-113 | after a failed write, later messages are queued but never written and no completion arrives |
| `OutboundQueue.OneMessagePerCompletion` | server/src/websocket_session.cpp:115-121 | while no write fails, the number of written messages equals the number of completions |
| `Broadcast.SharedState.constructor` | server/src/shared_state.cpp:10-12 | the registry keeps the document root unchanged and starts with no members |
| `Broadcast.SharedState.Join` | server/src/shared_state.cpp:14-17 | the members afterwards are the old members plus the session; joining twice is joining once, and no other session's membership changes |
| `Broadcast.SharedState.Leave` | server/src/shared_state.cpp:19-22 | the members afterwards are the old members minus the session; leaving an absent session changes nothing, and no other session's membership changes |
| `Broadcast.SharedState.Send` | server/src/shared_state.cpp:24-38 | every member, the sender included, gets the message appended to its queue exactly once, by the onSend rule; membership is unchanged; only members are modified, and no session changes its handshake or read state |
| `Broadcast.WebSocketSession.constructor` | server/src/websocket_session.cpp:5-10 | a new session has an empty queue, no outstanding operation and the shared registry |
| `Broadcast.WebSocketSession.Run` | server/include/websocket_session.hpp:52-75 | run starts the handshake, and only once per session, so a session whose handshake failed never joins later |
| `Broadcast.WebSocketSession.OnAccept` | server/src/websocket_session.cpp:28-40 | a failed handshake leaves the registry unchanged and starts no read; a successful one joins the registry and starts reading |
| `Broadcast.WebSocketSession.OnRead` | server/src/websocket_session.cpp:52-67 | success broadcasts the buffer contents once to every member, empties the buffer and reads again; failure ends the read loop and changes no queue; membership is unchanged |
| `Broadcast.WebSocketSession.OnSend` | server/src/websocket_session.cpp:83-96 | the session's queue and outstanding write change exactly as Enqueue says |
| `Broadcast.WebSocketSession.DoWrite` | server/src/websocket_session.cpp:98-106 | a write is started only when none is outstanding, and it writes the queue's front |
| `Broadcast.WebSocketSession.OnWrite` | server/src/websocket_session.cpp:108-122 | the session's queue and outstanding write change exactly as Complete says |
| `Broadcast.WebSocketSession.Destroy` | server/src/websocket_session.cpp:12-16 | destroying a session with no pending operation removes it from the registry and touches no other member |
| `BroadcastScenario.Connect` | server/src/websocket_session.cpp:28-40 | a new session that completes its handshake is a member, is reading, and has nothing queued |
| `BroadcastScenario.FailAndLeave` | server/src/shared_state.cpp:19-22 | after its write and read fail, a member is destroyed and leaves; leaving a second time changes nothing, and other members are untouched |
| `BroadcastScenario.ThreeSessions` | server/src/shared_state.cpp:24-38 | with sessions a, b and c joined, a broadcasts "hello" and all three, a included, queue it once. b's write fails and b leaves, while c's delivery still completes. A later broadcast from c reaches a and c but not b |

## Left out

- Boost.Beast/Asio I/O is not modelled. That covers `async_read`, `async_write`, `async_accept`, socket shutdown and `release_socket`. Their outcomes are parameters of the handler methods.
- The 30-second read timeout is not modelled. Its expiry arrives as an ordinary read error (`ReadError`).
- HTTP request parsing and the upgrade test (`websocket::is_upgrade`) are library code. The parsed request and the upgrade flag are inputs to `OnRead`.
- The parser's body cap is recorded as the parser's setting (`Parser(MaxBodySize)`). Enforcing it is the library parser's job, and an oversized body reaches the model as a read error.
- The WebSocket handshake options and the server-header decorator are library configuration. `WebSocketSession.Run` keeps only the start of the handshake. The upgrade request itself is not carried into the channel session.
- The `Server` header (`BOOST_BEAST_VERSION_STRING`) is not in the modelled responses. It is a library constant.
- Real file contents and sizes are not modelled. Opening a file is the abstract outcome `fs(path)`.
- An empty document root confines nothing: `FilePath("", "/etc/passwd")` is "/etc/passwd". The program accepts any document root from its command line; `ResolvedPathStaysUnderRoot` holds for the empty root too, but there the "root" prefix is empty.
- `Http.PathConcatenate`: only the POSIX separator '/' is modelled. The MSVC branch, which uses '\\' and rewrites every '/', is compiled only on Windows.
- Concurrency is not modelled. That covers the strand post in `WebSocketSession::send` and any multi-threaded access to the registry. Handlers run one at a time.
- `Broadcast.SharedState.Send`: the claim that non-members receive nothing is carried by the `modifies sessions` frame, and is not a separate postcondition. `BroadcastScenario.ThreeSessions` shows it for a session that has left.
- Logging is not modelled: the `fail` helpers' filtering of aborted operations, console output, and the timestamp printed by `send`.
- Object lifetime through `shared_from_this` is not modelled. The destructor is the method `Destroy`, which requires that no handler is pending.
- The process entry point, the listener and the client programs are not part of this model.
