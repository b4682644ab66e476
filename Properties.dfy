/**
 * What the relay guarantees, stated over the handler functions of module
 * Signaling: per message kind, per close, and along any run of events.
 */
module SignalingProperties {
  import opened Wrappers
  import opened Json
  import opened Registry
  import opened Signaling

  /** A parsed message whose `type` field is the string `ty`. */
  function Typed(ty: string): Incoming {
    Parsed(Some(JString(ty)))
  }

  /** A `type` that falls to the `default` branch of the switch and is relayed. */
  predicate Relayed(ty: string) {
    ty != "" && ty != StreamerRole && ty != ViewerRole
  }

  predicate ClosesConn(e: Event, c: Conn) {
    e.Disconnect? && e.conn == c
  }

  /** A broadcast reaches each open viewer exactly once and nobody else. */
  lemma {:induction false} BroadcastReachesEachOpenViewerOnce(viewers: seq<Conn>, open: set<Conn>, frame: Frame, c: Conn)
    requires Distinct(viewers)
    ensures multiset(Broadcast(viewers, open, frame))[Send(c, frame)] == if c in viewers && c in open then 1 else 0
  {
    if viewers != [] {
      var init, last := viewers[..|viewers| - 1], viewers[|viewers| - 1];
      assert viewers == init + [last];
      assert last !in init;
      BroadcastReachesEachOpenViewerOnce(init, open, frame, c);
    }
  }

  /** A `type` that is missing, falsy or not a string is answered to the sender alone, with no state change. */
  lemma MissingTypeAnsweredToSenderOnly(s: RelayState, ws: Conn, data: Payload, typeField: Option<JsonValue>, open: set<Conn>)
    requires !(typeField.Some? && typeField.value.JString? && typeField.value.str != "")
    ensures HandleMessage(s, ws, data, Parsed(typeField), open) == Step(s, [Send(ws, Text(MissingTypeReply))])
  {
  }

  /**
   * A `streamer` message registers the sender when no streamer is registered;
   * otherwise, even when the sender is the registered streamer itself, it is
   * answered with an error and closed with code 4000.
   */
  lemma StreamerRegistration(s: RelayState, ws: Conn, data: Payload, open: set<Conn>)
    ensures var r := HandleMessage(s, ws, data, Typed(StreamerRole), open);
      if s.streamer.Some? then
        r == Step(s, [Send(ws, Text(StreamerTakenReply)), Close(ws, StreamerTakenCode, StreamerTakenReason)])
      else
        r == Step(RelayState(Some(ws), s.viewers), [Send(ws, Text(StreamerAck))])
  {
  }

  /** A `viewer` message adds the sender to the set (growing it by at most one) and acknowledges. */
  lemma ViewerJoin(s: RelayState, ws: Conn, data: Payload, open: set<Conn>)
    requires Distinct(s.viewers)
    ensures var r := HandleMessage(s, ws, data, Typed(ViewerRole), open);
      && r.Step?
      && r.sent == [Send(ws, Text(ViewerAck))]
      && r.next.streamer == s.streamer
      && (forall c :: c in r.next.viewers <==> c in s.viewers || c == ws)
      && Distinct(r.next.viewers)
      && |r.next.viewers| == |s.viewers| + (if ws in s.viewers then 0 else 1)
  {
  }

  /** Joining twice leaves the state as the first join left it; only the acknowledgement repeats. */
  lemma ViewerJoinIdempotent(s: RelayState, ws: Conn, data: Payload, data': Payload, open: set<Conn>, open': set<Conn>)
    ensures var r := HandleMessage(s, ws, data, Typed(ViewerRole), open);
      && r.Step?
      && HandleMessage(r.next, ws, data', Typed(ViewerRole), open') == Step(r.next, [Send(ws, Text(ViewerAck))])
  {
  }

  /** A relayed message from the streamer goes, unchanged, once to each open viewer and to no one else. */
  lemma RelayFromStreamer(s: RelayState, ws: Conn, data: Payload, ty: string, open: set<Conn>)
    requires Relayed(ty) && s.streamer == Some(ws) && Distinct(s.viewers)
    ensures var r := HandleMessage(s, ws, data, Typed(ty), open);
      && r.Step? && r.next == s
      && (forall a :: a in r.sent ==> a.Send? && a.frame == Raw(data) && a.to in s.viewers && a.to in open)
      && (forall c :: multiset(r.sent)[Send(c, Raw(data))] == if c in s.viewers && c in open then 1 else 0)
  {
    forall c: Conn
      ensures multiset(Broadcast(s.viewers, open, Raw(data)))[Send(c, Raw(data))] == if c in s.viewers && c in open then 1 else 0
    {
      BroadcastReachesEachOpenViewerOnce(s.viewers, open, Raw(data), c);
    }
  }

  /**
   * A relayed message from any other connection goes, unchanged, to the
   * streamer when one is registered and open, and otherwise to nobody.
   */
  lemma RelayToStreamer(s: RelayState, ws: Conn, data: Payload, ty: string, open: set<Conn>)
    requires Relayed(ty) && s.streamer != Some(ws)
    ensures var r := HandleMessage(s, ws, data, Typed(ty), open);
      && r.Step? && r.next == s && |r.sent| <= 1
      && (r.sent != [] <==> s.streamer.Some? && s.streamer.value in open)
      && (forall a :: a in r.sent ==> s.streamer.Some? && a == Send(s.streamer.value, Raw(data)))
  {
  }

  /**
   * Closing the streamer clears it, keeps the viewer set, and sends exactly
   * one `broadcaster-closed` to each open viewer and nothing else.
   */
  lemma CloseOfStreamer(s: RelayState, ws: Conn, open: set<Conn>)
    requires s.streamer == Some(ws) && Distinct(s.viewers)
    ensures var r := HandleClose(s, ws, open);
      && r.next == RelayState(None, s.viewers)
      && (forall a :: a in r.sent ==> a.Send? && a.frame == Text(BroadcasterClosed))
      && (forall c :: multiset(r.sent)[Send(c, Text(BroadcasterClosed))] == if c in s.viewers && c in open then 1 else 0)
  {
    forall c: Conn
      ensures multiset(Broadcast(s.viewers, open, Text(BroadcasterClosed)))[Send(c, Text(BroadcasterClosed))]
        == if c in s.viewers && c in open then 1 else 0
    {
      BroadcastReachesEachOpenViewerOnce(s.viewers, open, Text(BroadcasterClosed), c);
    }
  }

  /**
   * Closing any other connection removes it from the viewer set, sends
   * nothing and changes nothing else; closing it again has no effect.
   */
  lemma CloseOfOther(s: RelayState, ws: Conn, open: set<Conn>, open': set<Conn>)
    requires s.streamer != Some(ws) && Distinct(s.viewers)
    ensures var r := HandleClose(s, ws, open);
      && r.sent == []
      && r.next.streamer == s.streamer
      && (forall c :: c in r.next.viewers <==> c in s.viewers && c != ws)
      && Distinct(r.next.viewers)
      && (ws !in s.viewers ==> r.next == s)
      && HandleClose(r.next, ws, open') == Step(r.next, [])
  {
  }

  /**
   * One event changes the streamer only from none to the sender of a
   * `streamer` message, or from a connection to none when that connection closes.
   */
  lemma StreamerChange(s: RelayState, e: Event)
    ensures match Apply(s, e)
      case Threw => true
      case Step(next, _) =>
        || next.streamer == s.streamer
        || (s.streamer.None? && e.Message? && e.msg == Typed(StreamerRole) && next.streamer == Some(e.from))
        || (e.Disconnect? && s.streamer == Some(e.conn) && next.streamer.None?)
  {
    if e.Message? && e.msg.Parsed? && MessageType(e.msg.typeField) == Some(StreamerRole) {
      assert e.msg == Typed(StreamerRole);
    }
  }

  /** Once registered, a streamer stays registered, whatever happens, until its own connection closes. */
  lemma {:induction false} StreamerKeptUntilItCloses(s: RelayState, events: seq<Event>, c: Conn)
    requires s.streamer == Some(c)
    requires forall i :: 0 <= i < |events| ==> !ClosesConn(events[i], c)
    ensures Run(s, events).final.streamer == Some(c)
    decreases |events|
  {
    if events != [] {
      StreamerChange(s, events[0]);
      match Apply(s, events[0])
      case Threw =>
      case Step(next, _) =>
        assert !ClosesConn(events[0], c);
        StreamerKeptUntilItCloses(next, events[1..], c);
    }
  }

  /** The streamer at the end of a run was already registered, or registered itself with a `streamer` message during the run. */
  lemma {:induction false} StreamerRegisteredItself(s: RelayState, events: seq<Event>)
    ensures var t := Run(s, events).final.streamer;
      t.Some? ==>
        || t == s.streamer
        || exists i :: 0 <= i < |events| && events[i].Message? && events[i].from == t.value && events[i].msg == Typed(StreamerRole)
    decreases |events|
  {
    if events != [] {
      StreamerChange(s, events[0]);
      match Apply(s, events[0])
      case Threw =>
      case Step(next, _) =>
        StreamerRegisteredItself(next, events[1..]);
        var t := Run(s, events).final.streamer;
        assert t == Run(next, events[1..]).final.streamer;
        if t.Some? && t != next.streamer {
          var i :| 0 <= i < |events[1..]| && events[1..][i].Message? && events[1..][i].from == t.value
            && events[1..][i].msg == Typed(StreamerRole);
          assert events[i + 1] == events[1..][i];
        } else if t.Some? && t != s.streamer {
          assert events[0].Message? && events[0].from == t.value && events[0].msg == Typed(StreamerRole);
        }
    }
  }

  /** No run ever puts a connection into the viewer set twice. */
  lemma {:induction false} RunKeepsViewersDistinct(s: RelayState, events: seq<Event>)
    requires Distinct(s.viewers)
    ensures Distinct(Run(s, events).final.viewers)
    decreases |events|
  {
    if events != [] {
      match Apply(s, events[0])
      case Threw =>
      case Step(next, _) =>
        assert Distinct(next.viewers);
        RunKeepsViewersDistinct(next, events[1..]);
    }
  }

  /** Nothing stops a viewer from also registering as streamer: it becomes streamer and stays a viewer. */
  lemma ViewerMayAlsoBecomeStreamer(s: RelayState, ws: Conn, data: Payload, open: set<Conn>)
    requires s.streamer.None? && ws in s.viewers
    ensures var r := HandleMessage(s, ws, data, Typed(StreamerRole), open);
      && r == Step(RelayState(Some(ws), s.viewers), [Send(ws, Text(StreamerAck))])
      && ws in r.next.viewers
  {
  }

  /** Nothing stops the streamer from also joining as viewer: it stays streamer and enters the viewer set. */
  lemma StreamerMayAlsoJoinAsViewer(s: RelayState, ws: Conn, data: Payload, open: set<Conn>)
    requires s.streamer == Some(ws)
    ensures var r := HandleMessage(s, ws, data, Typed(ViewerRole), open);
      && r.Step?
      && r.next.streamer == Some(ws)
      && ws in r.next.viewers
  {
  }

  /** A connection holding both roles that closes is no longer streamer but stays in the viewer set. */
  lemma DualRoleCloseKeepsViewer(s: RelayState, ws: Conn, open: set<Conn>)
    requires s.streamer == Some(ws) && ws in s.viewers
    ensures var r := HandleClose(s, ws, open);
      && r.next == RelayState(None, s.viewers)
      && ws in r.next.viewers
  {
  }

  /** A run of one event that does not throw. */
  lemma RunOne(s: RelayState, e: Event, rest: seq<Event>)
    requires Apply(s, e).Step?
    ensures Run(s, [e] + rest)
      == RunResult(Run(Apply(s, e).next, rest).final, Apply(s, e).sent + Run(Apply(s, e).next, rest).sent)
  {
  }

  /** The first three events of the session below: registration, join and offer. */
  lemma SessionMessages(offer: Payload, d1: Payload, d2: Payload)
    ensures Apply(InitialState, Message(1, d1, Typed(StreamerRole), {1, 2}))
      == Step(RelayState(Some(1), []), [Send(1, Text(StreamerAck))])
    ensures Apply(RelayState(Some(1), []), Message(2, d2, Typed(ViewerRole), {1, 2}))
      == Step(RelayState(Some(1), [2]), [Send(2, Text(ViewerAck))])
    ensures Apply(RelayState(Some(1), [2]), Message(1, offer, Typed("offer"), {1, 2}))
      == Step(RelayState(Some(1), [2]), [Send(2, Raw(offer))])
  {
    assert Broadcast([2], {1, 2}, Raw(offer)) == [Send(2, Raw(offer))];
  }

  /** The last event of the session below: the streamer disconnects. */
  lemma SessionClose()
    ensures Apply(RelayState(Some(1), [2]), Disconnect(1, {2}))
      == Step(RelayState(None, [2]), [Send(2, Text(BroadcasterClosed))])
  {
    assert Broadcast([2], {2}, Text(BroadcasterClosed)) == [Send(2, Text(BroadcasterClosed))];
  }

  /**
   * A session: C1 registers as streamer, C2 as viewer, C1 sends an offer,
   * C1 disconnects. C2 gets its acknowledgement, the offer unchanged, and the
   * notice that the broadcaster left.
   */
  lemma StreamingSession(offer: Payload, d1: Payload, d2: Payload)
    ensures
      var c1, c2 := 1, 2;
      Run(InitialState, [
        Message(c1, d1, Typed(StreamerRole), {c1, c2}),
        Message(c2, d2, Typed(ViewerRole), {c1, c2}),
        Message(c1, offer, Typed("offer"), {c1, c2}),
        Disconnect(c1, {c2})])
      == RunResult(RelayState(None, [c2]), [
        Send(c1, Text(StreamerAck)),
        Send(c2, Text(ViewerAck)),
        Send(c2, Raw(offer)),
        Send(c2, Text(BroadcasterClosed))])
  {
    var c1, c2 := 1, 2;
    var s1, s2 := RelayState(Some(c1), []), RelayState(Some(c1), [c2]);
    var e1 := Message(c1, d1, Typed(StreamerRole), {c1, c2});
    var e2 := Message(c2, d2, Typed(ViewerRole), {c1, c2});
    var e3 := Message(c1, offer, Typed("offer"), {c1, c2});
    var e4 := Disconnect(c1, {c2});
    SessionMessages(offer, d1, d2);
    SessionClose();
    RunOne(s2, e4, []);
    RunOne(s2, e3, [e4]);
    RunOne(s1, e2, [e3, e4]);
    RunOne(InitialState, e1, [e2, e3, e4]);
    assert [e1, e2, e3, e4] == [e1] + [e2, e3, e4];
    assert [e2, e3, e4] == [e2] + [e3, e4];
    assert [e3, e4] == [e3] + [e4];
    assert [e4] == [e4] + [];
  }
}
