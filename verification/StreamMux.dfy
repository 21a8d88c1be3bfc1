/** The daemon's end of the tunnelled document streams: one codec and one loopback socket per stream id. */
module StreamMux {
  import opened Codecs = DocumentStreamCodec

  datatype Outgoing =
    | Data(frame: Frame)
    | DataAck(number: nat)
    | Close

  /** One stream as a value. `written` is what `loopback.send` has accepted, in order. */
  datatype Endpoint = Endpoint(
    codec: CodecState,
    loopbackOpen: bool,
    paused: bool,
    pendingInbound: seq<Bytes>,
    pendingInboundBytes: nat,
    written: seq<Bytes>)

  const FreshEndpoint := Endpoint(FreshCodec, false, false, [], 0, [])

  function DataOf(frames: seq<Frame>): (r: seq<Outgoing>)
    ensures |r| == |frames| && forall i :: 0 <= i < |r| ==> r[i] == Data(frames[i])
  {
    seq(|frames|, i requires 0 <= i < |frames| => Data(frames[i]))
  }

  // ---------------------------------------------------------------------------
  // Event handlers as functions on one endpoint
  // ---------------------------------------------------------------------------

  function Flushed(e: Endpoint, limits: Limits): (Endpoint, seq<Outgoing>) {
    var (frames, codec) := Pulled(e.codec, limits);
    (e.(codec := codec, paused := codec.outbound != []), DataOf(frames))
  }

  function OnLoopbackMessage(e: Endpoint, limits: Limits, bytes: Bytes): (Endpoint, seq<Outgoing>)
    requires limits.Valid()
  {
    Flushed(e.(codec := Enqueued(e.codec, limits, bytes)), limits)
  }

  function OnDataAck(e: Endpoint, limits: Limits, number: nat): (Endpoint, seq<Outgoing>) {
    Flushed(e.(codec := Acked(e.codec, number)), limits)
  }

  /** The outcome of an inbound event: the stream goes on, or it is torn down with a close message. */
  datatype Outcome = Live(endpoint: Endpoint, reply: seq<Outgoing>) | Torn(written: seq<Bytes>)

  /** `accepts` says whether `loopback.send` returns or throws. */
  function OnData(e: Endpoint, limits: Limits, frame: Frame, accepts: bool): Outcome {
    var (result, codec) := Ingested(e.codec, limits, frame);
    var next := e.(codec := codec);
    match result
    case Oversize => Torn(e.written)
    case Buffered => Live(next, [DataAck(frame.number)])
    case Complete(message) =>
      if e.loopbackOpen then
        if accepts then Live(next.(written := e.written + [message]), [DataAck(frame.number)])
        else Torn(e.written)
      else if e.pendingInboundBytes + |message| > limits.windowBytes then Torn(e.written)
      else Live(next.(pendingInbound := e.pendingInbound + [message],
                      pendingInboundBytes := e.pendingInboundBytes + |message|),
                [DataAck(frame.number)])
  }

  /** `accepted` counts the buffered messages the loopback takes before `send` throws. */
  function OnLoopbackOpen(e: Endpoint, accepted: nat): Outcome {
    if accepted < |e.pendingInbound| then Torn(e.written + e.pendingInbound[..accepted])
    else Live(e.(loopbackOpen := true, written := e.written + e.pendingInbound,
                 pendingInbound := [], pendingInboundBytes := 0), [])
  }

  // ---------------------------------------------------------------------------
  // The multiplexer
  // ---------------------------------------------------------------------------

  /** One open stream. Its methods return what the multiplexer hands to `deps.send`. */
  class MuxStream {
    const codec: DocumentStreamCodec
    var loopbackOpen: bool
    var paused: bool
    var pendingInbound: seq<Bytes>
    var pendingInboundBytes: nat
    var written: seq<Bytes>

    ghost predicate Valid()
      reads this, codec
    {
      codec.Valid()
    }

    ghost function State(): Endpoint
      reads this, codec
    {
      Endpoint(codec.State(), loopbackOpen, paused, pendingInbound, pendingInboundBytes, written)
    }

    constructor (limits: Limits)
      requires limits.Valid()
      ensures Valid() && State() == FreshEndpoint && codec.limits == limits && fresh(codec)
    {
      codec := new DocumentStreamCodec(limits);
      loopbackOpen, paused, pendingInbound, pendingInboundBytes, written := false, false, [], 0, [];
    }

    method Flush() returns (sent: seq<Outgoing>)
      requires Valid()
      modifies this, codec
      ensures Valid() && (State(), sent) == Flushed(old(State()), codec.limits)
    {
      var frames := codec.PullSendable();
      sent := DataOf(frames);
      var pending := codec.HasPendingOutbound();
      if pending && !paused {
        paused := true;
      } else if !pending && paused {
        paused := false;
      }
    }

    method Message(bytes: Bytes) returns (sent: seq<Outgoing>)
      requires Valid()
      modifies this, codec
      ensures Valid() && (State(), sent) == OnLoopbackMessage(old(State()), codec.limits, bytes)
    {
      codec.Enqueue(bytes);
      sent := Flush();
    }

    method Ack(number: nat) returns (sent: seq<Outgoing>)
      requires Valid()
      modifies this, codec
      ensures Valid() && (State(), sent) == OnDataAck(old(State()), codec.limits, number)
    {
      codec.OnAck(number);
      sent := Flush();
    }

    /** `live` is false when the stream has to be torn down. */
    method Receive(frame: Frame, accepts: bool) returns (live: bool, sent: seq<Outgoing>)
      requires Valid()
      modifies this, codec
      ensures Valid()
      ensures (if live then Live(State(), sent) else Torn(written)) ==
        OnData(old(State()), codec.limits, frame, accepts)
    {
      var ack := [DataAck(frame.number)];
      var result := codec.Ingest(frame);
      match result {
        case Oversize =>
          return false, [];
        case Buffered =>
          return true, ack;
        case Complete(message) =>
          if loopbackOpen {
            if !accepts { return false, []; }
            written := written + [message];
            return true, ack;
          }
          if pendingInboundBytes + |message| > codec.limits.windowBytes { return false, []; }
          pendingInbound := pendingInbound + [message];
          pendingInboundBytes := pendingInboundBytes + |message|;
          return true, ack;
      }
    }

    method LoopbackOpened(accepted: nat) returns (live: bool)
      requires Valid()
      modifies this
      ensures Valid()
      ensures (if live then Live(State(), []) else Torn(written)) == OnLoopbackOpen(old(State()), accepted)
    {
      loopbackOpen := true;
      var i := 0;
      while i < |pendingInbound|
        invariant 0 <= i <= |pendingInbound| && i <= accepted
        invariant written == old(written) + pendingInbound[..i]
        invariant State() == old(State()).(loopbackOpen := true, written := written)
      {
        if i == accepted { return false; }
        assert pendingInbound[..i + 1] == pendingInbound[..i] + [pendingInbound[i]];
        written := written + [pendingInbound[i]];
        i := i + 1;
      }
      assert pendingInbound[..i] == pendingInbound;
      pendingInbound, pendingInboundBytes := [], 0;
      live := true;
    }
  }

  /** The streams by id, and everything handed to `deps.send` with the stream it belongs to. */
  class StreamMux {
    const limits: Limits
    var streams: map<string, MuxStream>
    var outbox: seq<(string, Outgoing)>

    ghost predicate Valid()
      reads this, streams.Values, set s | s in streams.Values :: s.codec
    {
      && limits.Valid()
      && (forall id :: id in streams ==> streams[id].Valid() && streams[id].codec.limits == limits)
      && (forall i, j :: i in streams && j in streams && i != j ==>
            streams[i] != streams[j] && streams[i].codec != streams[j].codec)
    }

    constructor (limits: Limits)
      requires limits.Valid()
      ensures Valid() && streams == map[] && outbox == [] && this.limits == limits
    {
      this.limits := limits;
      streams, outbox := map[], [];
    }

    method HandleOpen(id: string)
      requires Valid()
      modifies this`streams
      ensures Valid() && id in streams
      ensures id in old(streams) ==> streams == old(streams)
      ensures id !in old(streams) ==>
        streams == old(streams)[id := streams[id]] && fresh(streams[id]) && streams[id].State() == FreshEndpoint
    {
      if id in streams { return; }
      var stream := new MuxStream(limits);
      streams := streams[id := stream];
    }

    method LoopbackMessage(id: string, bytes: Bytes)
      requires Valid() && id in streams
      modifies this`outbox, streams[id], streams[id].codec
      ensures Valid()
      ensures var (next, sent) := OnLoopbackMessage(old(streams[id].State()), limits, bytes);
        streams[id].State() == next && outbox == old(outbox) + Tagged(id, sent)
    {
      var sent := streams[id].Message(bytes);
      outbox := outbox + Tagged(id, sent);
    }

    method HandleDataAck(id: string, number: nat)
      requires Valid()
      modifies this`outbox, if id in streams then {streams[id], streams[id].codec} else {}
      ensures Valid() && (id !in streams ==> outbox == old(outbox))
      ensures id in streams ==>
        var (next, sent) := OnDataAck(old(streams[id].State()), limits, number);
        streams[id].State() == next && outbox == old(outbox) + Tagged(id, sent)
    {
      if id !in streams { return; }
      var sent := streams[id].Ack(number);
      outbox := outbox + Tagged(id, sent);
    }

    method HandleData(id: string, frame: Frame, accepts: bool)
      requires Valid()
      modifies this, if id in streams then {streams[id], streams[id].codec} else {}
      ensures Valid()
      ensures id !in old(streams) ==> streams == old(streams) && outbox == old(outbox)
      ensures id in old(streams) ==>
        match OnData(old(streams[id].State()), limits, frame, accepts)
        case Live(next, reply) =>
          streams == old(streams) && streams[id].State() == next && outbox == old(outbox) + Tagged(id, reply)
        case Torn(_) => streams == old(streams) - {id} && outbox == old(outbox) + [(id, Close)]
    {
      if id !in streams { return; }
      var live, sent := streams[id].Receive(frame, accepts);
      if !live {
        TearDown(id);
        return;
      }
      outbox := outbox + Tagged(id, sent);
    }

    method LoopbackOpened(id: string, accepted: nat)
      requires Valid() && id in streams
      modifies this, streams[id]
      ensures Valid()
      ensures match OnLoopbackOpen(old(streams[id].State()), accepted)
        case Live(next, _) => streams == old(streams) && streams[id].State() == next && outbox == old(outbox)
        case Torn(written) =>
          streams == old(streams) - {id} && outbox == old(outbox) + [(id, Close)] && old(streams[id]).written == written
    {
      var live := streams[id].LoopbackOpened(accepted);
      if !live {
        TearDown(id);
      }
    }

    method LoopbackClosed(id: string)
      requires Valid()
      modifies this
      ensures Valid() && streams == old(streams) - {id}
      ensures outbox == old(outbox) + if id in old(streams) then [(id, Close)] else []
    {
      if id !in streams { return; }
      TearDown(id);
    }

    method HandleClose(id: string)
      requires Valid()
      modifies this`streams
      ensures Valid() && streams == old(streams) - {id}
    {
      streams := streams - {id};
    }

    method TearDown(id: string)
      requires Valid() && id in streams
      modifies this
      ensures Valid() && streams == old(streams) - {id} && outbox == old(outbox) + [(id, Close)]
    {
      streams := streams - {id};
      outbox := outbox + [(id, Close)];
    }
  }

  function Tagged(id: string, sent: seq<Outgoing>): (r: seq<(string, Outgoing)>)
    ensures |r| == |sent| && forall i :: 0 <= i < |r| ==> r[i] == (id, sent[i])
  {
    seq(|sent|, i requires 0 <= i < |sent| => (id, sent[i]))
  }
}
