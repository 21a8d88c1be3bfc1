/** HTTP responses sent in chunks that fit a tunnel frame, one acknowledged chunk after another. */
module HttpResponses {
  type Bytes = seq<bv8>

  const FRAME_BYTE_LIMIT: nat := 256 * 1024

  // ---------------------------------------------------------------------------
  // Frame sizes
  // ---------------------------------------------------------------------------

  function Digits(n: nat): (d: nat)
    ensures d >= 1
  {
    if n < 10 then 1 else 1 + Digits(n / 10)
  }

  /** The length of the JSON text of a chunk without its body; `idBytes` is that of the request id in quotes. */
  function EmptyChunkBytes(idBytes: nat, sequence: nat): nat {
    |"{\"type\":\"http.response.chunk\",\"id\":"| + idBytes + |",\"sequence\":"| + Digits(sequence) + |",\"bodyB64\":\"\"}"|
  }

  /** Three bytes are four characters of base64, the last group being padded. */
  function Base64Length(n: nat): nat { (n + 2) / 3 * 4 }

  function ChunkFrameBytes(idBytes: nat, sequence: nat, chunk: Bytes): nat {
    EmptyChunkBytes(idBytes, sequence) + Base64Length(|chunk|)
  }

  /** The bytes a chunk may carry: with negative room the division floors, and the result is not positive. */
  function ChunkRoom(idBytes: nat, sequence: nat): int { (FRAME_BYTE_LIMIT - EmptyChunkBytes(idBytes, sequence)) / 4 * 3 }

  lemma ChunkFits(idBytes: nat, sequence: nat, chunk: Bytes)
    requires |chunk| <= ChunkRoom(idBytes, sequence)
    ensures ChunkFrameBytes(idBytes, sequence, chunk) <= FRAME_BYTE_LIMIT
  {
    hide EmptyChunkBytes;
  }

  /** A chunk with one more group of bytes would not fit: the room is used as far as it goes. */
  lemma RoomIsUsed(idBytes: nat, sequence: nat, chunk: Bytes)
    requires ChunkRoom(idBytes, sequence) >= 0 && |chunk| > ChunkRoom(idBytes, sequence)
    ensures ChunkFrameBytes(idBytes, sequence, chunk) > FRAME_BYTE_LIMIT
  {
    hide EmptyChunkBytes;
  }

  lemma {:induction false} DigitsGrow(m: nat, n: nat)
    requires m <= n
    ensures Digits(m) <= Digits(n)
    decreases n
  {
    if n >= 10 && m >= 10 {
      DigitsGrow(m / 10, n / 10);
    }
  }

  lemma RoomShrinks(idBytes: nat, m: nat, n: nat)
    requires m <= n
    ensures ChunkRoom(idBytes, n) <= ChunkRoom(idBytes, m)
  {
    DigitsGrow(m, n);
  }

  // ---------------------------------------------------------------------------
  // Splitting a body
  // ---------------------------------------------------------------------------

  function Concat(chunks: seq<Bytes>): Bytes {
    if chunks == [] then [] else Concat(chunks[..|chunks| - 1]) + chunks[|chunks| - 1]
  }

  function TotalBytes(chunks: seq<Bytes>): nat {
    if chunks == [] then 0 else TotalBytes(chunks[..|chunks| - 1]) + |chunks[|chunks| - 1]|
  }

  ghost predicate AllFit(idBytes: nat, chunks: seq<Bytes>) {
    forall k :: 0 <= k < |chunks| ==> chunks[k] != [] && ChunkFrameBytes(idBytes, k, chunks[k]) <= FRAME_BYTE_LIMIT
  }

  datatype Message =
    | Whole(body: Bytes)
    | ResponseStart(totalBytes: nat)
    | ResponseChunk(sequence: nat, bytes: Bytes)
    | ResponseEnd(chunks: nat)

  /** Cuts the body into the chunks that are sent: they rebuild it, each fits a frame, none is empty. It
      fails exactly when the first chunk that would have no room is reached before the end of the body. */
  method SplitBody(idBytes: nat, body: Bytes) returns (chunks: seq<Bytes>, complete: bool)
    ensures AllFit(idBytes, chunks)
    ensures Concat(chunks) <= body && TotalBytes(chunks) == |Concat(chunks)|
    ensures complete <==> Concat(chunks) == body
    ensures !complete ==> ChunkRoom(idBytes, |chunks|) <= 0
    ensures forall k :: 0 <= k < |chunks| ==> ChunkRoom(idBytes, k) > 0
  {
    hide ChunkRoom, ChunkFrameBytes;
    chunks := [];
    var sequence, offset := 0, 0;
    while offset < |body|
      invariant 0 <= offset <= |body| && sequence == |chunks|
      invariant Concat(chunks) == body[..offset] && TotalBytes(chunks) == offset
      invariant AllFit(idBytes, chunks)
      invariant forall k :: 0 <= k < sequence ==> ChunkRoom(idBytes, k) > 0
      decreases |body| - offset
    {
      var chunkBytes := ChunkRoom(idBytes, sequence);
      if chunkBytes <= 0 {
        return chunks, false;
      }
      var end := if offset + chunkBytes < |body| then offset + chunkBytes else |body|;
      var chunk := body[offset..end];
      ChunkFits(idBytes, sequence, chunk);
      assert (chunks + [chunk])[..|chunks|] == chunks;
      assert body[..end] == body[..offset] + chunk;
      chunks := chunks + [chunk];
      offset := offset + |chunk|;
      sequence := sequence + 1;
    }
    assert body[..offset] == body;
    complete := true;
  }

  /** Whether splitting succeeds can be told from the last chunk alone: a body of which chunk `last` is
      the last one is split whenever that chunk has room. */
  lemma RoomAtTheEnd(idBytes: nat, last: nat)
    requires ChunkRoom(idBytes, last) > 0
    ensures forall k :: 0 <= k <= last ==> ChunkRoom(idBytes, k) > 0
  {
    forall k | 0 <= k <= last
      ensures ChunkRoom(idBytes, k) > 0
    {
      RoomShrinks(idBytes, k, last);
    }
  }

  /** The messages of one response, unacknowledged: a response that fits one frame goes as a whole, any
      other as a start with its size, its chunks, and an end with their number. */
  method SendHttpResponse(idBytes: nat, envelopeBytes: nat, body: Bytes) returns (sent: seq<Message>, failed: bool)
    ensures envelopeBytes + Base64Length(|body|) <= FRAME_BYTE_LIMIT || body == [] ==> sent == [Whole(body)] && !failed
    ensures body != [] && envelopeBytes + Base64Length(|body|) > FRAME_BYTE_LIMIT ==>
      && sent != [] && sent[0] == ResponseStart(|body|)
      && (failed <==> !sent[|sent| - 1].ResponseEnd?)
      && exists chunks :: AllFit(idBytes, chunks) && Concat(chunks) <= body && TotalBytes(chunks) == |Concat(chunks)|
           && (!failed <==> Concat(chunks) == body)
           && sent == [ResponseStart(|body|)] + ChunkMessages(chunks) + if failed then [] else [ResponseEnd(|chunks|)]
  {
    if body == [] || envelopeBytes + Base64Length(|body|) <= FRAME_BYTE_LIMIT {
      return [Whole(body)], false;
    }
    var chunks, complete := SplitBody(idBytes, body);
    failed := !complete;
    sent := [ResponseStart(|body|)] + ChunkMessages(chunks) + if failed then [] else [ResponseEnd(|chunks|)];
    hide AllFit, Concat, TotalBytes;
  }

  function ChunkMessages(chunks: seq<Bytes>): (messages: seq<Message>)
    ensures |messages| == |chunks|
    ensures forall k :: 0 <= k < |chunks| ==> messages[k] == ResponseChunk(k, chunks[k])
  {
    seq(|chunks|, k requires 0 <= k < |chunks| => ResponseChunk(k, chunks[k]))
  }

  // ---------------------------------------------------------------------------
  // Acknowledged chunks
  // ---------------------------------------------------------------------------

  datatype Event = Sent(id: string, sequence: nat) | Acknowledged(id: string, sequence: nat)

  datatype Stage = Ready | Waiting | Finished | Failed

  /** A response that is being sent: how many chunks it has, and the next one to be acknowledged. */
  datatype Transfer = Transfer(chunks: nat, next: nat, stage: Stage)

  /** `pending` are the chunk acknowledgements waited for, one per request id. */
  datatype State = State(transfers: map<string, Transfer>, pending: map<string, nat>, events: seq<Event>)

  const Initial := State(map[], map[], [])

  datatype Step =
    | BeginResponse(id: string, chunks: nat)
    | SendChunk(id: string)
    | AckArrives(id: string, sequence: nat)
    | AckFails(id: string)

  function Stopped(s: State, id: string): State {
    s.(pending := s.pending - {id},
       transfers := if id in s.transfers then s.transfers[id := s.transfers[id].(stage := Failed)] else s.transfers)
  }

  /** `sendHttpResponseChunk` up to its wait; a second wait for the same id is an error. */
  function SendNext(s: State, id: string): State {
    if id !in s.transfers || s.transfers[id].stage != Ready then s
    else
      var t := s.transfers[id];
      if t.next >= t.chunks then s.(transfers := s.transfers[id := t.(stage := Finished)])
      else if id in s.pending then s.(transfers := s.transfers[id := t.(stage := Failed)])
      else s.(pending := s.pending[id := t.next], transfers := s.transfers[id := t.(stage := Waiting)],
              events := s.events + [Sent(id, t.next)])
  }

  /** `resolveHttpResponseChunkAck`; an acknowledgement of another chunk fails the response. */
  function Acked(s: State, id: string, sequence: nat): State {
    if id !in s.pending then s
    else if s.pending[id] != sequence then Stopped(s, id)
    else if id !in s.transfers then s.(pending := s.pending - {id})
    else
      var t := s.transfers[id];
      s.(pending := s.pending - {id}, transfers := s.transfers[id := t.(next := t.next + 1, stage := Ready)],
         events := s.events + [Acknowledged(id, sequence)])
  }

  /** A response is begun once for each request id; an acknowledgement fails by a timeout, a cancelled
      request or a closed control connection. */
  function Next(s: State, step: Step): State {
    match step
    case BeginResponse(id, chunks) =>
      if id in s.transfers then s else s.(transfers := s.transfers[id := Transfer(chunks, 0, Ready)])
    case SendChunk(id) => SendNext(s, id)
    case AckArrives(id, sequence) => Acked(s, id, sequence)
    case AckFails(id) => if id in s.pending then Stopped(s, id) else s
  }

  function Run(s: State, steps: seq<Step>): State
    decreases |steps|
  {
    if steps == [] then s else Run(Next(s, steps[0]), steps[1..])
  }

  function EventsOf(events: seq<Event>, id: string): seq<Event> {
    if events == [] then []
    else EventsOf(events[..|events| - 1], id) + if events[|events| - 1].id == id then [events[|events| - 1]] else []
  }

  /** Chunk after chunk, each sent only after the one before it was acknowledged. */
  function StopAndWait(id: string, acknowledged: nat): seq<Event> {
    if acknowledged == 0 then []
    else StopAndWait(id, acknowledged - 1) + [Sent(id, acknowledged - 1), Acknowledged(id, acknowledged - 1)]
  }

  ghost predicate Disciplined(s: State, id: string) {
    if id !in s.transfers then id !in s.pending && EventsOf(s.events, id) == []
    else
      var t := s.transfers[id];
      && t.next <= t.chunks && (t.stage == Waiting ==> t.next < t.chunks)
      && (id in s.pending <==> t.stage == Waiting) && (id in s.pending ==> s.pending[id] == t.next)
      && match t.stage
         case Ready => EventsOf(s.events, id) == StopAndWait(id, t.next)
         case Finished => EventsOf(s.events, id) == StopAndWait(id, t.chunks) && t.next == t.chunks
         case Waiting => EventsOf(s.events, id) == StopAndWait(id, t.next) + [Sent(id, t.next)]
         case Failed => EventsOf(s.events, id) == StopAndWait(id, t.next) + [Sent(id, t.next)]
  }

  ghost predicate Inv(s: State) { forall id :: Disciplined(s, id) }

  lemma EventsOfMore(events: seq<Event>, e: Event, id: string)
    ensures EventsOf(events + [e], id) == EventsOf(events, id) + if e.id == id then [e] else []
  {
    assert (events + [e])[..|events|] == events;
  }

  /** A step on one response leaves the others as they are. */
  lemma OthersUntouched(s: State, step: Step, id: string)
    requires id != step.id
    ensures var t := Next(s, step);
      && (id in t.transfers <==> id in s.transfers) && (id in s.transfers ==> t.transfers[id] == s.transfers[id])
      && (id in t.pending <==> id in s.pending) && (id in s.pending ==> t.pending[id] == s.pending[id])
      && EventsOf(t.events, id) == EventsOf(s.events, id)
  {
    var t := Next(s, step);
    if |t.events| > |s.events| {
      EventsOfMore(s.events, t.events[|s.events|], id);
    }
    hide EventsOf;
  }

  lemma SendKeepsDiscipline(s: State, id: string)
    requires Disciplined(s, id)
    ensures Disciplined(SendNext(s, id), id)
  {
    if id in s.transfers {
      EventsOfMore(s.events, Sent(id, s.transfers[id].next), id);
    }
    hide EventsOf, StopAndWait;
  }

  lemma AckKeepsDiscipline(s: State, id: string, sequence: nat)
    requires Disciplined(s, id)
    ensures Disciplined(Acked(s, id, sequence), id)
  {
    EventsOfMore(s.events, Acknowledged(id, sequence), id);
    hide EventsOf;
    if id in s.pending {
      var n := s.transfers[id].next;
      assert StopAndWait(id, n) + [Sent(id, n)] + [Acknowledged(id, n)] == StopAndWait(id, n + 1);
    }
    hide StopAndWait;
  }

  lemma StepKeepsDiscipline(s: State, step: Step, id: string)
    requires Disciplined(s, id)
    ensures Disciplined(Next(s, step), id)
  {
    if id != step.id {
      OthersUntouched(s, step, id);
      hide Next, EventsOf, StopAndWait;
    } else {
      match step
      case SendChunk(_) => SendKeepsDiscipline(s, id);
      case AckArrives(_, sequence) => AckKeepsDiscipline(s, id, sequence);
      case _ => hide EventsOf;
    }
  }

  lemma {:induction false} RunKeepsInv(s: State, steps: seq<Step>)
    requires Inv(s)
    ensures Inv(Run(s, steps))
    decreases |steps|
  {
    if steps != [] {
      forall id
        ensures Disciplined(Next(s, steps[0]), id)
      {
        StepKeepsDiscipline(s, steps[0], id);
      }
      hide Disciplined;
      RunKeepsInv(Next(s, steps[0]), steps[1..]);
    }
  }

  /** Stop and wait. In every run, with any number of responses under way, the chunks of each response are
      sent in order, each only after the one before it was acknowledged; at most one of them is
      outstanding, and the error of a second wait for the same request cannot occur. */
  lemma ChunksStopAndWait(steps: seq<Step>, id: string)
    ensures var s := Run(Initial, steps);
      && (id in s.transfers ==>
            var t := s.transfers[id];
            && (EventsOf(s.events, id) == StopAndWait(id, t.next)
                || EventsOf(s.events, id) == StopAndWait(id, t.next) + [Sent(id, t.next)])
            && (t.stage == Ready ==> id !in s.pending)
            && (t.stage == Finished ==> EventsOf(s.events, id) == StopAndWait(id, t.chunks)))
      && (id in s.pending ==> EventsOf(s.events, id) == StopAndWait(id, s.pending[id]) + [Sent(id, s.pending[id])])
  {
    assert Inv(Initial);
    RunKeepsInv(Initial, steps);
    assert Disciplined(Run(Initial, steps), id);
    hide Run, EventsOf, StopAndWait;
  }

  /** A response begins with its first chunk to be sent; a request that has one gets no second. */
  lemma ResponseBegins(s: State, id: string, chunks: nat)
    ensures Next(s, BeginResponse(id, chunks)) ==
      if id in s.transfers then s else s.(transfers := s.transfers[id := Transfer(chunks, 0, Ready)])
  {
  }

  /** A response that is ready sends its next chunk and waits for it, or is finished when there is none. */
  lemma ReadyResponseGoesOn(s: State, id: string)
    requires Disciplined(s, id) && id in s.transfers && s.transfers[id].stage == Ready
    ensures var t, next, chunks := Next(s, SendChunk(id)), s.transfers[id].next, s.transfers[id].chunks;
      if next < chunks then
        && t.events == s.events + [Sent(id, next)] && t.pending == s.pending[id := next]
        && t.transfers == s.transfers[id := Transfer(chunks, next, Waiting)]
      else t == s.(transfers := s.transfers[id := Transfer(chunks, next, Finished)])
  {
    hide EventsOf, StopAndWait;
  }

  /** The acknowledgement that is awaited lets the response go on; any other one fails it, and one that nobody awaits
      changes nothing. */
  lemma AwaitedAckGoesOn(s: State, id: string, sequence: nat)
    requires Disciplined(s, id)
    ensures var t := Next(s, AckArrives(id, sequence));
      if id !in s.pending then t == s
      else
        && id in s.transfers && t.pending == s.pending - {id}
        && t.transfers == s.transfers[id :=
             if sequence == s.transfers[id].next then Transfer(s.transfers[id].chunks, s.transfers[id].next + 1, Ready)
             else s.transfers[id].(stage := Failed)]
  {
    hide EventsOf, StopAndWait;
  }

  /** What the two sides do from the chunk `next` on if nothing fails. */
  function Exchange(id: string, next: nat, chunks: nat): seq<Step>
    decreases chunks - next
  {
    if next >= chunks then [SendChunk(id)] else [SendChunk(id), AckArrives(id, next)] + Exchange(id, next + 1, chunks)
  }

  lemma TwoThenRun(s: State, a: Step, b: Step, more: seq<Step>)
    ensures Run(s, [a, b] + more) == Run(Next(Next(s, a), b), more)
  {
    assert ([a, b] + more)[1..] == [b] + more && ([b] + more)[1..] == more;
    hide Next;
  }

  /** If every chunk is acknowledged, the response gets to its end with all of them sent. */
  lemma {:induction false} ResponseFinishes(s: State, id: string)
    requires Disciplined(s, id) && id in s.transfers && s.transfers[id].stage == Ready
    ensures var t, chunks := Run(s, Exchange(id, s.transfers[id].next, s.transfers[id].chunks)), s.transfers[id].chunks;
      && id in t.transfers && t.transfers[id] == Transfer(chunks, chunks, Finished)
      && EventsOf(t.events, id) == StopAndWait(id, chunks)
    decreases s.transfers[id].chunks - s.transfers[id].next
  {
    var next, chunks := s.transfers[id].next, s.transfers[id].chunks;
    ReadyResponseGoesOn(s, id);
    StepKeepsDiscipline(s, SendChunk(id), id);
    var u := Next(s, SendChunk(id));
    if next < chunks {
      AwaitedAckGoesOn(u, id, next);
      StepKeepsDiscipline(u, AckArrives(id, next), id);
      var v := Next(u, AckArrives(id, next));
      assert v.transfers[id] == Transfer(chunks, next + 1, Ready);
      hide Next, EventsOf, StopAndWait, Disciplined;
      ResponseFinishes(v, id);
      TwoThenRun(s, SendChunk(id), AckArrives(id, next), Exchange(id, next + 1, chunks));
    } else {
      assert [SendChunk(id)][1..] == [] && Run(u, []) == u;
      hide EventsOf, StopAndWait;
    }
  }
}
