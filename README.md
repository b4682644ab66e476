# Signaling relay: a Dafny model

This project models the WebSocket signaling relay built by `createWebSocketServer`
(`src/lib/server/webSocket.ts`). The relay brokers one *streamer* connection to any number
of *viewer* connections. Its whole state is two variables shared by the handlers of every
connection: a nullable `streamer` and a `Set` of `viewers`. Two handlers act on that state:

- the `message` handler classifies each payload. It may be invalid JSON, or have a missing
  or invalid `type`. It may be a `streamer` registration, which is accepted or turned away
  with close code 4000. It may be a `viewer` registration. Any other `type` is relayed by
  the sender's role: from the streamer to every open viewer, otherwise to the open streamer.
- the `close` handler either clears the streamer and tells the open viewers
  `broadcaster-closed`, or removes the closed connection from the viewer set.

The model has two layers.

- `Signaling` is the relay as a pure state machine. `HandleMessage` and `HandleClose` map the
  state before an event to the state after it, plus the `send`/`close` calls made, in order.
  `Run` folds them over a sequence of events.
- `WebSocketServer.RelayServer` is the relay as the source runs it. It is a class whose
  fields are updated in place. Its `forEach` broadcasts are loops. Every call it makes is
  appended to an `outbox`. Each handler method is proved to do exactly what the matching
  function of `Signaling` says.

`SignalingProperties` proves what the relay guarantees, per event and along any run.

Modelling choices:

- A connection is an opaque identity (`Conn`), compared as `===` compares the handles.
- `readyState` belongs to the transport. Each handler gets the set of connections that are
  OPEN while it runs (`open`).
- The viewer `Set` is a sequence without repetitions. A JavaScript `Set` iterates in
  insertion order, so broadcasts are modelled in the order the code makes them.
  `Registry.Add` and `Registry.Remove` are `add` and `delete`.
- The outbox records calls, not deliveries. The reply to the sender is recorded whatever
  the sender's state, because the code does not check it.
- Replies are the exact strings `JSON.stringify` produces (`Text`). A relayed message is
  the received `data` itself (`Raw`), never re-encoded.
- `JSON.parse` is not modelled. The handler is given the parse outcome: invalid, the
  document `null`, or any other document with the value of its `type` property.
  Truthiness and `typeof` are modelled on that value.
- On the document `null`, reading `.type` throws before any effect (`Threw`). A run of
  events ends there.

What the code does not do:

- The file has no `offer`/`answer`/`candidate` cases and no "unknown type" error. Every
  other non-empty string `type` is relayed by role.
- Roles are not exclusive. A viewer may register as streamer (`ViewerMayAlsoBecomeStreamer`),
  and the streamer may join as viewer (`StreamerMayAlsoJoinAsViewer`). When such a connection
  closes, only the streamer branch runs, so it stays in the viewer set
  (`DualRoleCloseKeepsViewer`).
- A registered streamer that sends `streamer` again is itself turned away and closed
  (`StreamerRegistration`). No exception is made for the same connection.

## Model

| member | source | states |
|---|---|---|
| Json.MessageType | src/lib/server/webSocket.ts:40-43 | The type guard lets a message through exactly when its `type` is a non-empty string, and yields that string |
| Registry.Add | src/lib/server/webSocket.ts:58 | Set `add`: members afterwards are the old ones plus the new one, no repetition appears, an existing member leaves the set unchanged, the set grows by at most one and the old members keep their order |
| Registry.Remove | src/lib/server/webSocket.ts:92 | Set `delete`: members afterwards are the old ones except the deleted one, no repetition appears, deleting a non-member changes nothing |
| Registry.RemoveKeepsOrder | src/lib/server/webSocket.ts:92 | Set `delete` cuts the deleted member out of its position; the other members keep their order |
| Signaling.Broadcast | src/lib/server/webSocket.ts:66-70 | A `forEach` with the OPEN check makes no more sends than there are viewers, and sends only the given frame, only to viewers that are open |
| Signaling.HandleMessage | src/lib/server/webSocket.ts:31-79 | The handler throws exactly on the `null` document. It changes the streamer only from none to the sender. The only close it issues is of the sender with code 4000. Invalid JSON gets one `Invalid JSON` reply to the sender and no state change |
| Signaling.HandleClose | src/lib/server/webSocket.ts:81-95 | A close clears the streamer exactly when the closing connection is the streamer. Its only sends are `broadcaster-closed` to open viewers |
| WebSocketServer.RelayServer.constructor | src/lib/server/webSocket.ts:25-26 | The relay starts with no streamer, no viewers and nothing sent |
| WebSocketServer.RelayServer.SendToOpenViewers | src/lib/server/webSocket.ts:85-89 | The in-place `forEach` loop appends exactly the sends of `Broadcast` over the current viewers |
| WebSocketServer.RelayServer.OnMessage | src/lib/server/webSocket.ts:31-79 | The in-place handler reaches the state of `HandleMessage` and appends its calls to the outbox, or reports the throw with nothing changed; the viewer set keeps no repetitions |
| WebSocketServer.RelayServer.OnClose | src/lib/server/webSocket.ts:81-95 | The in-place handler reaches the state of `HandleClose` and appends its calls to the outbox; the viewer set keeps no repetitions |
| SignalingProperties.BroadcastReachesEachOpenViewerOnce | src/lib/server/webSocket.ts:66-70 | A broadcast sends the frame exactly once to each open viewer and never to anyone else |
| SignalingProperties.MissingTypeAnsweredToSenderOnly | src/lib/server/webSocket.ts:40-43 | A `type` that is missing, falsy or not a string gets one `Missing or invalid message type` reply to the sender, with no state change and nothing to others |
| SignalingProperties.StreamerRegistration | src/lib/server/webSocket.ts:46-55 | With a streamer registered (the sender included) a `streamer` message gets the error reply and a close with 4000 and `Streamer already connected`, and the state is unchanged. Otherwise the sender becomes streamer and gets `streamer-ack` |
| SignalingProperties.ViewerJoin | src/lib/server/webSocket.ts:57-61 | A `viewer` message adds the sender to the set, grows it by one exactly when the sender was new, leaves the streamer alone and replies `viewer-ack` |
| SignalingProperties.ViewerJoinIdempotent | src/lib/server/webSocket.ts:57-59 | A second `viewer` message from the same connection changes no state and only repeats `viewer-ack` |
| SignalingProperties.RelayFromStreamer | src/lib/server/webSocket.ts:63-70 | Any other `type` from the streamer sends the raw payload unchanged, once, to each open viewer and to no one else, with no state change |
| SignalingProperties.RelayToStreamer | src/lib/server/webSocket.ts:71-76 | Any other `type` from another connection sends the raw payload unchanged to the streamer exactly when one is registered and open, and otherwise sends nothing, not even to the sender |
| SignalingProperties.CloseOfStreamer | src/lib/server/webSocket.ts:82-90 | Closing the streamer clears it, keeps the viewer set, and sends exactly one `broadcaster-closed` to each open viewer and nothing else |
| SignalingProperties.CloseOfOther | src/lib/server/webSocket.ts:91-94 | Closing another connection removes it from the viewer set and changes and sends nothing else. A repeated close has no effect |
| SignalingProperties.StreamerChange | src/lib/server/webSocket.ts:46-83 | One event changes the streamer only from none to the sender of a `streamer` message, or to none when the streamer's own connection closes |
| SignalingProperties.StreamerKeptUntilItCloses | src/lib/server/webSocket.ts:46-83 | Along any run, a registered streamer is never replaced until its own connection closes |
| SignalingProperties.StreamerRegisteredItself | src/lib/server/webSocket.ts:46-53 | The streamer at the end of any run was already registered, or sent a `streamer` message itself during the run |
| SignalingProperties.RunKeepsViewersDistinct | src/lib/server/webSocket.ts:57-93 | No run puts a connection into the viewer set twice |
| SignalingProperties.ViewerMayAlsoBecomeStreamer | src/lib/server/webSocket.ts:46-61 | From any state with no streamer, a viewer that sends `streamer` is registered as streamer and acked while staying a viewer, because no role check exists |
| SignalingProperties.StreamerMayAlsoJoinAsViewer | src/lib/server/webSocket.ts:57-61 | From any state, the streamer that sends `viewer` stays streamer and enters the viewer set, because no role check exists |
| SignalingProperties.DualRoleCloseKeepsViewer | src/lib/server/webSocket.ts:81-94 | From any state, closing a connection that is both streamer and viewer clears the streamer but leaves the viewer set, that connection included, unchanged |
| SignalingProperties.StreamingSession | src/lib/server/webSocket.ts:31-95 | Streamer registers, viewer joins, the streamer sends an offer and disconnects. The streamer gets `streamer-ack`; the viewer gets `viewer-ack`, the offer unchanged and `broadcaster-closed`, in that order |

## Left out

- The transport: creating the WebSocket server, accepting connections, and performing
  `send` and `close`. Sends and closes are recorded as calls. `readyState` is supplied by
  the environment, and its change to CLOSING after `close` is the environment's.
- Whether a relayed `data` goes out as a text or a binary frame. That choice belongs to
  the transport library.
- `JSON.parse` and `JSON.stringify`, which are library calls. The parse outcome is an
  input, and the stringified replies are constants.
- What the runtime does after the handler throws on the document `null`. The model stops
  the run there.
- Console logging at lines 29, 54, 60, 90, 93 and 102, and the `error` handler (lines
  97-99), which only logs. The `connection` handler only installs the three handlers and
  logs, so it changes no relay state.
- Concurrency. The event loop runs each handler to completion, so each event is one
  atomic step.
- `wsServer.js` and `src/lib/server/wsServer.js`: HTTP bootstrap and `listen`, which are
  I/O plumbing.
- `src/routes/api/token/+server.ts`: a wrapper over an external token library, independent
  of the relay.
- `vite.config.ts`: build configuration.
