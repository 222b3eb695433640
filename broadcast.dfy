/**
 * The broadcaster: a module-level slot holding at most one websocket, and a
 * send that wraps a console command in the panel's JSON envelope
 * `{"event": "send command", "args": [data, "list"]}`.
 *
 * The slot is a `Broadcaster` object and a websocket is a `Socket`, whose
 * only state here is the list of text frames sent on it so far and whether
 * it has been closed.
 */
module Broadcasting {
  import opened Wrappers
  import Json
  import opened Minecraft

  /** A websocket as the relay uses it: the frames sent on it, in order, and whether it was closed. */
  class Socket {
    var sent: seq<string>
    var closed: bool

    constructor()
      ensures sent == [] && !closed
    {
      sent := [];
      closed := false;
    }

    /** `ws.send(message)` */
    method Send(message: string)
      modifies this
      ensures sent == old(sent) + [message] && closed == old(closed)
    {
      sent := sent + [message];
    }

    /** `ws.close()` */
    method Close()
      modifies this
      ensures closed && sent == old(sent)
    {
      closed := true;
    }
  }

  const EnvelopeHead: string := "{\"event\": \"send command\", \"args\": ["
  const EnvelopeTail: string := ", \"list\"]}"

  /** `json.dumps({"event": "send command", "args": [data, 'list']})` with the default separators. */
  function Envelope(data: string): string {
    EnvelopeHead + Json.Quote(data) + EnvelopeTail
  }

  /** Reads the command back out of an envelope; None for any other text. */
  function OpenEnvelope(message: string): Option<string> {
    if !(EnvelopeHead <= message) then None
    else
      var q :- Json.Unquote(message[|EnvelopeHead|..]);
      if q.1 == EnvelopeTail then Some(q.0) else None
  }

  /** The panel reads back exactly the command that was wrapped, whatever characters it holds. */
  lemma EnvelopeRoundTrip(data: string)
    ensures OpenEnvelope(Envelope(data)) == Some(data)
  {
    var m := Envelope(data);
    assert m == EnvelopeHead + (Json.Quote(data) + EnvelopeTail);
    assert m[|EnvelopeHead|..] == Json.Quote(data) + EnvelopeTail;
    Json.QuoteRoundTrip(data, EnvelopeTail);
  }

  /** Different commands are never sent as the same frame. */
  lemma EnvelopeInjective(a: string, b: string)
    requires Envelope(a) == Envelope(b)
    ensures a == b
  {
    EnvelopeRoundTrip(a);
    EnvelopeRoundTrip(b);
  }

  /** The `_global_websocket` slot and the two functions that use it. */
  class Broadcaster {
    var current: Socket?

    /** At import time the slot is empty. */
    constructor()
      ensures current == null
    {
      current := null;
    }

    /** `set_global_websocket`: the last socket set replaces any earlier one. */
    method SetGlobalWebsocket(ws: Socket?)
      modifies this
      ensures current == ws
    {
      current := ws;
    }

    /**
     * `broadcast_to_all`: one envelope on the socket in the slot, if there is
     * one.  The origin server and `except_origin` do not change what is sent
     * or where.
     */
    method BroadcastToAll(server: Server, data: string, exceptOrigin: bool)
      modifies current
      ensures current != null ==> current.sent == old(current.sent) + [Envelope(data)]
      ensures current != null ==> current.closed == old(current.closed)
    {
      if current != null {
        current.Send(Envelope(data));
      }
    }

    /** Makes the `broadcast_to_all` call that a relayed line requests, if it requests one. */
    method Deliver(request: Option<Minecraft.Broadcast>)
      modifies current
      ensures current != null ==> current.sent == old(current.sent) + Frames(request)
      ensures current != null ==> current.closed == old(current.closed)
    {
      if request.Some? {
        BroadcastToAll(request.value.origin, request.value.data, request.value.exceptOrigin);
      }
    }
  }

  /** The frames a requested broadcast puts on the socket in the slot. */
  function Frames(request: Option<Minecraft.Broadcast>): (r: seq<string>)
    ensures |r| == if request.Some? then 1 else 0
    ensures request.Some? ==> OpenEnvelope(r[0]) == Some(request.value.data)
  {
    match request
    case Some(b) => EnvelopeRoundTrip(b.data); [Envelope(b.data)]
    case None => []
  }
}
