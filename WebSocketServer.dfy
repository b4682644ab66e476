/**
 * The relay as the source runs it: the state captured by the handlers of
 * `createWebSocketServer`, updated in place by the `message` and `close`
 * handlers, with every `send` and `close` call appended to an outbox.
 */
module WebSocketServer {
  import opened Wrappers
  import opened Json
  import opened Registry
  import opened Signaling

  class RelayServer {
    var streamer: Option<Conn>
    var viewers: seq<Conn>
    /** Every `send` and `close` call made so far, in order. */
    var outbox: seq<Action>

    /** A `Set` never holds a member twice. */
    ghost predicate Valid()
      reads this
    {
      Distinct(viewers)
    }

    function State(): RelayState
      reads this
    {
      RelayState(streamer, viewers)
    }

    /** `let streamer = null; const viewers = new Set()`. */
    constructor ()
      ensures Valid()
      ensures State() == InitialState && outbox == []
    {
      streamer := None;
      viewers := [];
      outbox := [];
    }

    /** One `viewers.forEach` pass that sends `frame` to each viewer whose state is OPEN. */
    method SendToOpenViewers(frame: Frame, open: set<Conn>)
      modifies this`outbox
      ensures outbox == old(outbox) + Broadcast(viewers, open, frame)
    {
      var i := 0;
      while i < |viewers|
        invariant 0 <= i <= |viewers|
        invariant outbox == old(outbox) + Broadcast(viewers[..i], open, frame)
      {
        var viewer := viewers[i];
        if viewer in open {
          outbox := outbox + [Send(viewer, frame)];
        }
        assert viewers[..i + 1][..i] == viewers[..i];
        i := i + 1;
      }
      assert viewers[..i] == viewers;
    }

    /** The `message` handler; `threw` reports the exception raised on a `null` document. */
    method OnMessage(ws: Conn, data: Payload, msg: Incoming, open: set<Conn>) returns (threw: bool)
      requires Valid()
      modifies this
      ensures Valid()
      ensures match HandleMessage(old(State()), ws, data, msg, open)
        case Threw => threw && State() == old(State()) && outbox == old(outbox)
        case Step(next, sent) => !threw && State() == next && outbox == old(outbox) + sent
    {
      threw := false;
      match msg {
        case InvalidJson =>
          outbox := outbox + [Send(ws, Text(InvalidJsonReply))];
          return;
        case JsonNull =>
          threw := true;
          return;
        case Parsed(typeField) =>
          var ty := MessageType(typeField);
          if ty.None? {
            outbox := outbox + [Send(ws, Text(MissingTypeReply))];
            return;
          }
          if ty.value == StreamerRole {
            if streamer.Some? {
              outbox := outbox + [Send(ws, Text(StreamerTakenReply))];
              outbox := outbox + [Close(ws, StreamerTakenCode, StreamerTakenReason)];
              return;
            }
            streamer := Some(ws);
            outbox := outbox + [Send(ws, Text(StreamerAck))];
          } else if ty.value == ViewerRole {
            viewers := Add(viewers, ws);
            outbox := outbox + [Send(ws, Text(ViewerAck))];
          } else if streamer == Some(ws) {
            SendToOpenViewers(Raw(data), open);
          } else if streamer.Some? && streamer.value in open {
            outbox := outbox + [Send(streamer.value, Raw(data))];
          }
      }
    }

    /** The `close` handler. */
    method OnClose(ws: Conn, open: set<Conn>)
      requires Valid()
      modifies this
      ensures Valid()
      ensures State() == HandleClose(old(State()), ws, open).next
      ensures outbox == old(outbox) + HandleClose(old(State()), ws, open).sent
    {
      if streamer == Some(ws) {
        streamer := None;
        SendToOpenViewers(Text(BroadcasterClosed), open);
      } else {
        viewers := Remove(viewers, ws);
      }
    }
  }
}
