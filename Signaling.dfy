/**
 * The signaling relay of `createWebSocketServer` as a pure state machine:
 * the shared state is the registered streamer and the viewer set, and each
 * event handler is a function from the state before the event to the state
 * after it together with the sends and closes it issues, in order.
 */
module Signaling {
  import opened Wrappers
  import opened Json
  import opened Registry

  /** The identity of one WebSocket connection (the handle compared with `===`). */
  type Conn = nat

  newtype byte = x: int | 0 <= x < 256

  /** The raw `data` of a message event, as received. */
  type Payload = seq<byte>

  /** What `send` is called with: a string produced by `JSON.stringify`, or the received data itself. */
  datatype Frame = Text(text: string) | Raw(bytes: Payload)

  /** One call the relay makes on a connection. */
  datatype Action =
    | Send(to: Conn, frame: Frame)
    | Close(conn: Conn, code: int, reason: string)

  /** The two variables the handlers share: `streamer` (null is `None`) and `viewers`. */
  datatype RelayState = RelayState(streamer: Option<Conn>, viewers: seq<Conn>)

  /** The effect of one handler run: the new state and the calls made, or an exception thrown before any effect. */
  datatype Step = Step(next: RelayState, sent: seq<Action>) | Threw

  const StreamerRole := "streamer"
  const ViewerRole := "viewer"

  const InvalidJsonReply := "{\"error\":\"Invalid JSON\"}"
  const MissingTypeReply := "{\"error\":\"Missing or invalid message type\"}"
  const StreamerTakenReply := "{\"error\":\"Streamer already connected\"}"
  const StreamerAck := "{\"type\":\"streamer-ack\"}"
  const ViewerAck := "{\"type\":\"viewer-ack\"}"
  const BroadcasterClosed := "{\"type\":\"broadcaster-closed\"}"

  /** Close code and reason used to turn away a second streamer. */
  const StreamerTakenCode := 4000
  const StreamerTakenReason := "Streamer already connected"

  const InitialState := RelayState(None, [])

  /**
   * `viewers.forEach` with a `readyState === OPEN` check before each send:
   * one send of `frame` per open viewer, in the set's iteration order.
   */
  function Broadcast(viewers: seq<Conn>, open: set<Conn>, frame: Frame): (r: seq<Action>)
    ensures |r| <= |viewers|
    ensures forall a :: a in r ==> a.Send? && a.frame == frame && a.to in viewers && a.to in open
  {
    if viewers == [] then []
    else
      var last := viewers[|viewers| - 1];
      Broadcast(viewers[..|viewers| - 1], open, frame) + (if last in open then [Send(last, frame)] else [])
  }

  /**
   * The `message` handler run on connection `ws` with raw payload `data`,
   * whose parse is `msg`; `open` holds the connections whose `readyState` is
   * OPEN while the handler runs.
   */
  function HandleMessage(s: RelayState, ws: Conn, data: Payload, msg: Incoming, open: set<Conn>): (r: Step)
    ensures r.Threw? <==> msg.JsonNull?
    ensures r.Step? ==> r.next.streamer == s.streamer || (s.streamer.None? && r.next.streamer == Some(ws))
    ensures r.Step? ==> forall a :: a in r.sent && a.Close? ==> a.conn == ws && a.code == StreamerTakenCode
    ensures r.Step? && !msg.Parsed? ==> r.next == s && r.sent == [Send(ws, Text(InvalidJsonReply))]
  {
    match msg
    case InvalidJson => Step(s, [Send(ws, Text(InvalidJsonReply))])
    case JsonNull => Threw
    case Parsed(typeField) =>
      match MessageType(typeField)
      case None => Step(s, [Send(ws, Text(MissingTypeReply))])
      case Some(ty) =>
        if ty == StreamerRole then
          if s.streamer.Some? then
            Step(s, [Send(ws, Text(StreamerTakenReply)), Close(ws, StreamerTakenCode, StreamerTakenReason)])
          else
            Step(s.(streamer := Some(ws)), [Send(ws, Text(StreamerAck))])
        else if ty == ViewerRole then
          Step(s.(viewers := Add(s.viewers, ws)), [Send(ws, Text(ViewerAck))])
        else if s.streamer == Some(ws) then
          Step(s, Broadcast(s.viewers, open, Raw(data)))
        else if s.streamer.Some? && s.streamer.value in open then
          Step(s, [Send(s.streamer.value, Raw(data))])
        else
          Step(s, [])
  }

  /** The `close` handler run for connection `ws`. */
  function HandleClose(s: RelayState, ws: Conn, open: set<Conn>): (r: Step)
    ensures r.Step?
    ensures r.next.streamer == (if s.streamer == Some(ws) then None else s.streamer)
    ensures forall a :: a in r.sent ==> a.Send? && a.frame == Text(BroadcasterClosed) && a.to in s.viewers && a.to in open
  {
    if s.streamer == Some(ws) then
      Step(s.(streamer := None), Broadcast(s.viewers, open, Text(BroadcasterClosed)))
    else
      Step(s.(viewers := Remove(s.viewers, ws)), [])
  }

  /** An event delivered to the relay by the transport. */
  datatype Event =
    | Message(from: Conn, data: Payload, msg: Incoming, open: set<Conn>)
    | Disconnect(conn: Conn, open: set<Conn>)

  function Apply(s: RelayState, e: Event): Step {
    match e
    case Message(from, data, msg, open) => HandleMessage(s, from, data, msg, open)
    case Disconnect(conn, open) => HandleClose(s, conn, open)
  }

  /** The state after a sequence of events and every call made on the way; a throw ends the run. */
  datatype RunResult = RunResult(final: RelayState, sent: seq<Action>)

  function Run(s: RelayState, events: seq<Event>): RunResult
    decreases |events|
  {
    if events == [] then RunResult(s, [])
    else
      match Apply(s, events[0])
      case Threw => RunResult(s, [])
      case Step(next, sent) =>
        var rest := Run(next, events[1..]);
        RunResult(rest.final, sent + rest.sent)
  }
}
