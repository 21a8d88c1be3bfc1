/** The per-stream codec of the tunnel: messages cut into numbered frames behind a byte window, and put together again. */
module DocumentStreamCodec {
  // A frame carries its raw chunk here; base64 is an invertible encoding and is left out.

  type Byte = x: int | 0 <= x < 256
  type Bytes = seq<Byte>

  const DATA_CHUNK_BYTES: nat := (256 * 1024 - 1024) / 4 * 3
  const DATA_WINDOW_BYTES: nat := 4 * 1024 * 1024
  const DATA_MESSAGE_BYTE_LIMIT: nat := 8 * 1024 * 1024

  datatype Frame = Frame(number: nat, bytes: Bytes, fin: bool)

  /** `chunkBytes` must be positive: with zero the splitting loop would never advance. */
  datatype Limits = Limits(chunkBytes: nat, windowBytes: nat, messageBytes: nat) {
    predicate Valid() { chunkBytes >= 1 }
  }

  datatype CodecState = CodecState(
    txSeq: nat,
    unacked: nat,
    unackedBySeq: map<nat, nat>,
    outbound: seq<Frame>,
    inbound: seq<Bytes>,
    inboundBytes: nat)

  const FreshCodec := CodecState(0, 0, map[], [], [], 0)

  function Flatten(chunks: seq<Bytes>): Bytes {
    if chunks == [] then [] else chunks[0] + Flatten(chunks[1..])
  }

  lemma {:induction false} FlattenAppend(chunks: seq<Bytes>, last: Bytes)
    ensures Flatten(chunks + [last]) == Flatten(chunks) + last
  {
    if chunks == [] {
      assert [last][1..] == [];
    } else {
      FlattenAppend(chunks[1..], last);
      assert (chunks + [last])[1..] == chunks[1..] + [last];
    }
  }

  // ---------------------------------------------------------------------------
  // What each operation does to the codec, as functions
  // ---------------------------------------------------------------------------

  /** The frames of one message. An empty message is one empty final frame. */
  function Split(bytes: Bytes, chunkBytes: nat, number: nat): (frames: seq<Frame>)
    requires chunkBytes >= 1
  {
    if |bytes| <= chunkBytes then
      [Frame(number, bytes, true)]
    else
      [Frame(number, bytes[..chunkBytes], false)] + Split(bytes[chunkBytes..], chunkBytes, number + 1)
  }

  function Enqueued(s: CodecState, limits: Limits, bytes: Bytes): CodecState
    requires limits.Valid()
  {
    var frames := Split(bytes, limits.chunkBytes, s.txSeq);
    s.(outbound := s.outbound + frames, txSeq := s.txSeq + |frames|)
  }

  predicate CanPull(s: CodecState, limits: Limits) {
    s.outbound != [] && (s.unacked == 0 || s.unacked + |s.outbound[0].bytes| <= limits.windowBytes)
  }

  function PullOne(s: CodecState): CodecState
    requires s.outbound != []
  {
    var next := s.outbound[0];
    s.(outbound := s.outbound[1..],
       unacked := s.unacked + |next.bytes|,
       unackedBySeq := if |next.bytes| > 0 then s.unackedBySeq[next.number := |next.bytes|] else s.unackedBySeq)
  }

  function Pulled(s: CodecState, limits: Limits): (r: (seq<Frame>, CodecState))
    decreases |s.outbound|
  {
    if CanPull(s, limits) then
      var (frames, after) := Pulled(PullOne(s), limits);
      ([s.outbound[0]] + frames, after)
    else
      ([], s)
  }

  datatype IngestResult = Oversize | Buffered | Complete(message: Bytes)

  function Ingested(s: CodecState, limits: Limits, frame: Frame): (IngestResult, CodecState) {
    if s.inboundBytes + |frame.bytes| > limits.messageBytes then
      (Oversize, s.(inbound := [], inboundBytes := 0))
    else if !frame.fin then
      (Buffered, s.(inbound := s.inbound + [frame.bytes], inboundBytes := s.inboundBytes + |frame.bytes|))
    else
      (Complete(Flatten(s.inbound + [frame.bytes])), s.(inbound := [], inboundBytes := 0))
  }

  function Acked(s: CodecState, number: nat): CodecState {
    if number !in s.unackedBySeq then s
    else
      var bytes := s.unackedBySeq[number];
      s.(unackedBySeq := s.unackedBySeq - {number},
         unacked := if s.unacked >= bytes then s.unacked - bytes else 0)
  }

  // ---------------------------------------------------------------------------
  // The codec itself
  // ---------------------------------------------------------------------------

  method ConcatBytes(chunks: seq<Bytes>, totalBytes: nat) returns (result: array<Byte>)
    requires |Flatten(chunks)| == totalBytes
    ensures fresh(result) && result[..] == Flatten(chunks)
  {
    result := new Byte[totalBytes](_ => 0);
    var offset := 0;
    var i := 0;
    while i < |chunks|
      invariant 0 <= i <= |chunks| && 0 <= offset <= totalBytes
      invariant result[..offset] + Flatten(chunks[i..]) == Flatten(chunks)
    {
      ghost var before := result[..offset];
      var chunk := chunks[i];
      assert Flatten(chunks[i..]) == chunk + Flatten(chunks[i + 1..]) by { assert chunks[i..][1..] == chunks[i + 1..]; }
      assert offset + |chunk| + |Flatten(chunks[i + 1..])| == totalBytes;
      forall k | 0 <= k < |chunk| { result[offset + k] := chunk[k]; }
      assert result[..offset + |chunk|] == before + chunk;
      assert before + (chunk + Flatten(chunks[i + 1..])) == (before + chunk) + Flatten(chunks[i + 1..]);
      offset := offset + |chunk|;
      i := i + 1;
    }
    assert chunks[i..] == [];
    assert result[..offset] == Flatten(chunks);
  }

  class DocumentStreamCodec {
    const limits: Limits
    var txSeq: nat
    var unacked: nat
    var unackedBySeq: map<nat, nat>
    var outbound: seq<Frame>
    var inbound: seq<Bytes>
    var inboundBytes: nat

    ghost predicate Valid()
      reads this
    {
      limits.Valid() && inboundBytes == |Flatten(inbound)|
    }

    ghost function State(): CodecState
      reads this
    {
      CodecState(txSeq, unacked, unackedBySeq, outbound, inbound, inboundBytes)
    }

    constructor (limits: Limits)
      requires limits.Valid()
      ensures Valid() && State() == FreshCodec && this.limits == limits
    {
      this.limits := limits;
      txSeq, unacked, unackedBySeq := 0, 0, map[];
      outbound, inbound, inboundBytes := [], [], 0;
    }

    method Enqueue(bytes: Bytes)
      requires Valid()
      modifies this
      ensures Valid() && State() == Enqueued(old(State()), limits, bytes)
    {
      if |bytes| == 0 {
        outbound := outbound + [Frame(txSeq, [], true)];
        txSeq := txSeq + 1;
        assert bytes == [];
        return;
      }
      var offset := 0;
      ghost var frames := Split(bytes, limits.chunkBytes, txSeq);
      while offset < |bytes|
        invariant 0 <= offset <= |bytes|
        invariant old(txSeq) <= txSeq
        invariant State() == old(State()).(outbound := outbound, txSeq := txSeq)
        invariant offset < |bytes| ==>
          outbound + Split(bytes[offset..], limits.chunkBytes, txSeq) == old(outbound) + frames
        invariant offset < |bytes| ==>
          txSeq + |Split(bytes[offset..], limits.chunkBytes, txSeq)| == old(txSeq) + |frames|
        invariant offset == |bytes| ==> outbound == old(outbound) + frames && txSeq == old(txSeq) + |frames|
      {
        var end := if offset + limits.chunkBytes <= |bytes| then offset + limits.chunkBytes else |bytes|;
        var chunk := bytes[offset..end];
        ghost var left := bytes[offset..];
        assert left[..|chunk|] == chunk && left[|chunk|..] == bytes[end..];
        assert end == |bytes| ==> chunk == left;
        offset := offset + |chunk|;
        outbound := outbound + [Frame(txSeq, chunk, offset >= |bytes|)];
        txSeq := txSeq + 1;
      }
    }

    method PullSendable() returns (out: seq<Frame>)
      requires Valid()
      modifies this
      ensures Valid() && (out, State()) == Pulled(old(State()), limits)
    {
      out := [];
      while |outbound| > 0
        invariant Valid()
        invariant out + Pulled(State(), limits).0 == Pulled(old(State()), limits).0
        invariant Pulled(State(), limits).1 == Pulled(old(State()), limits).1
        decreases |outbound|
      {
        var next := outbound[0];
        if unacked > 0 && unacked + |next.bytes| > limits.windowBytes { break; }
        outbound := outbound[1..];
        unacked := unacked + |next.bytes|;
        if |next.bytes| > 0 { unackedBySeq := unackedBySeq[next.number := |next.bytes|]; }
        out := out + [next];
      }
      assert Pulled(State(), limits) == ([], State());
      assert out + [] == out;
    }

    method HasPendingOutbound() returns (pending: bool)
      ensures pending == (outbound != [])
    {
      pending := |outbound| > 0;
    }

    method Ingest(frame: Frame) returns (r: IngestResult)
      requires Valid()
      modifies this
      ensures Valid() && (r, State()) == Ingested(old(State()), limits, frame)
    {
      var chunk := frame.bytes;
      if inboundBytes + |chunk| > limits.messageBytes {
        inbound, inboundBytes := [], 0;
        return Oversize;
      }
      FlattenAppend(inbound, chunk);
      inbound := inbound + [chunk];
      inboundBytes := inboundBytes + |chunk|;
      if !frame.fin { return Buffered; }
      var message := ConcatBytes(inbound, inboundBytes);
      inbound, inboundBytes := [], 0;
      return Complete(message[..]);
    }

    method OnAck(number: nat)
      requires Valid()
      modifies this
      ensures Valid() && State() == Acked(old(State()), number)
    {
      if number !in unackedBySeq { return; }
      var bytes := unackedBySeq[number];
      unackedBySeq := unackedBySeq - {number};
      unacked := if unacked >= bytes then unacked - bytes else 0;
    }
  }

  // ---------------------------------------------------------------------------
  // The send window
  // ---------------------------------------------------------------------------

  ghost function Total(m: map<nat, nat>): nat {
    if m == map[] then 0 else
      var k :| k in m;
      m[k] + Total(m - {k})
  }

  lemma {:induction false} TotalWithout(m: map<nat, nat>, k: nat)
    requires k in m
    ensures Total(m) == m[k] + Total(m - {k})
    decreases m.Keys
  {
    var j :| j in m && Total(m) == m[j] + Total(m - {j});
    if j != k {
      TotalWithout(m - {j}, k);
      TotalWithout(m - {k}, j);
      assert m - {j} - {k} == m - {k} - {j};
    }
  }

  lemma TotalWith(m: map<nat, nat>, k: nat, v: nat)
    requires k !in m
    ensures Total(m[k := v]) == Total(m) + v
  {
    TotalWithout(m[k := v], k);
    assert m[k := v] - {k} == m;
  }

  /** Every frame number at or above this one still waits in `outbound`. */
  function FirstQueued(s: CodecState): int { s.txSeq - |s.outbound| }

  /** The send side keeps its books straight: the counter is the sum of the outstanding frames, the
      window is overrun only by a single oversized frame, and queued frames are numbered in order. */
  ghost predicate SendInv(s: CodecState, limits: Limits) {
    && s.unacked == Total(s.unackedBySeq)
    && FirstQueued(s) >= 0
    && (forall i :: 0 <= i < |s.outbound| ==>
          s.outbound[i].number == FirstQueued(s) + i && |s.outbound[i].bytes| <= limits.chunkBytes)
    && (forall k :: k in s.unackedBySeq ==> k < FirstQueued(s) && 0 < s.unackedBySeq[k] <= limits.chunkBytes)
    && s.unacked <= (if limits.windowBytes >= limits.chunkBytes then limits.windowBytes else limits.chunkBytes)
    && (s.unacked > limits.windowBytes ==> exists k :: s.unackedBySeq.Keys == {k})
  }

  lemma TotalZero(m: map<nat, nat>)
    requires Total(m) == 0 && forall k :: k in m ==> m[k] > 0
    ensures m == map[]
  {
  }

  lemma {:induction false} SplitShape(bytes: Bytes, chunkBytes: nat, number: nat)
    requires chunkBytes >= 1
    ensures var frames := Split(bytes, chunkBytes, number);
      && |frames| >= 1
      && (forall i :: 0 <= i < |frames| ==>
            frames[i].number == number + i && |frames[i].bytes| <= chunkBytes && frames[i].fin == (i == |frames| - 1))
  {
    if |bytes| > chunkBytes {
      SplitShape(bytes[chunkBytes..], chunkBytes, number + 1);
    }
  }

  lemma EnqueueKeepsSendInv(s: CodecState, limits: Limits, bytes: Bytes)
    requires limits.Valid() && SendInv(s, limits)
    ensures SendInv(Enqueued(s, limits, bytes), limits)
  {
    SplitShape(bytes, limits.chunkBytes, s.txSeq);
  }

  lemma PullOneKeepsSendInv(s: CodecState, limits: Limits)
    requires SendInv(s, limits) && CanPull(s, limits)
    ensures SendInv(PullOne(s), limits)
  {
    var next := s.outbound[0];
    var t := PullOne(s);
    assert next.number == FirstQueued(s);
    assert forall i :: 0 <= i < |t.outbound| ==> t.outbound[i] == s.outbound[i + 1];
    if |next.bytes| > 0 {
      TotalWith(s.unackedBySeq, next.number, |next.bytes|);
      if s.unacked == 0 {
        TotalZero(s.unackedBySeq);
        assert t.unackedBySeq.Keys == {next.number};
      }
    }
  }

  lemma {:induction false} PullKeepsSendInv(s: CodecState, limits: Limits)
    requires SendInv(s, limits)
    ensures SendInv(Pulled(s, limits).1, limits)
    decreases |s.outbound|
  {
    if CanPull(s, limits) {
      PullOneKeepsSendInv(s, limits);
      PullKeepsSendInv(PullOne(s), limits);
    }
  }

  /** An acknowledgement gives back exactly the bytes it was charged (the clamp at zero never acts);
      an unknown or repeated one changes nothing. */
  lemma AckKeepsSendInv(s: CodecState, limits: Limits, number: nat)
    requires SendInv(s, limits)
    ensures SendInv(Acked(s, number), limits)
    ensures Acked(Acked(s, number), number) == Acked(s, number)
    ensures number in s.unackedBySeq ==> Acked(s, number).unacked == s.unacked - s.unackedBySeq[number]
    ensures number !in s.unackedBySeq ==> Acked(s, number) == s
  {
    if number in s.unackedBySeq {
      TotalWithout(s.unackedBySeq, number);
    }
  }

  /** What a pull takes and leaves: a prefix of the queue leaves it, nothing else does, and it only
      stops when the next frame would overrun a window that is already in use. */
  lemma {:induction false} PullTakesPrefix(s: CodecState, limits: Limits)
    ensures var (frames, after) := Pulled(s, limits);
      && frames + after.outbound == s.outbound
      && after.txSeq == s.txSeq && after.inbound == s.inbound && after.inboundBytes == s.inboundBytes
      && !CanPull(after, limits)
      && (after.outbound != [] ==> after.unacked > 0)
    decreases |s.outbound|
  {
    if CanPull(s, limits) {
      PullTakesPrefix(PullOne(s), limits);
    }
  }

  /** A run of codec operations, as the multiplexer may issue them in any order. */
  datatype CodecOp = OpEnqueue(bytes: Bytes) | OpPull | OpIngest(frame: Frame) | OpAck(number: nat)

  function RunCodec(s: CodecState, limits: Limits, ops: seq<CodecOp>): CodecState
    requires limits.Valid()
    decreases |ops|
  {
    if ops == [] then s else
      var next := match ops[0]
        case OpEnqueue(bytes) => Enqueued(s, limits, bytes)
        case OpPull => Pulled(s, limits).1
        case OpIngest(frame) => Ingested(s, limits, frame).1
        case OpAck(number) => Acked(s, number);
      RunCodec(next, limits, ops[1..])
  }

  /** Window safety over every run: any enqueues, pulls and acknowledgements (unknown, repeated or
      reordered ones included) keep the unacknowledged bytes equal to the outstanding frames and
      within the window, or within one chunk when that single chunk is larger than the window. */
  lemma {:induction false} WindowNeverOverrun(s: CodecState, limits: Limits, ops: seq<CodecOp>)
    requires limits.Valid() && SendInv(s, limits)
    ensures SendInv(RunCodec(s, limits, ops), limits)
    decreases |ops|
  {
    if ops != [] {
      match ops[0]
      case OpEnqueue(bytes) =>
        EnqueueKeepsSendInv(s, limits, bytes);
        WindowNeverOverrun(Enqueued(s, limits, bytes), limits, ops[1..]);
      case OpPull =>
        PullKeepsSendInv(s, limits);
        WindowNeverOverrun(Pulled(s, limits).1, limits, ops[1..]);
      case OpIngest(frame) =>
        WindowNeverOverrun(Ingested(s, limits, frame).1, limits, ops[1..]);
      case OpAck(number) =>
        AckKeepsSendInv(s, limits, number);
        WindowNeverOverrun(Acked(s, number), limits, ops[1..]);
    }
  }

  // ---------------------------------------------------------------------------
  // What a stream of frames means
  // ---------------------------------------------------------------------------

  /** The messages spelled by `frames` after `partial` has already been buffered, and the bytes left over. */
  function Decode(partial: Bytes, frames: seq<Frame>): (seq<Bytes>, Bytes)
    decreases |frames|
  {
    if frames == [] then ([], partial)
    else if frames[0].fin then
      var (messages, rest) := Decode([], frames[1..]);
      ([partial + frames[0].bytes] + messages, rest)
    else
      Decode(partial + frames[0].bytes, frames[1..])
  }

  lemma {:induction false} DecodeConcat(partial: Bytes, left: seq<Frame>, right: seq<Frame>)
    ensures var (first, middle) := Decode(partial, left);
      && Decode(partial, left + right).0 == first + Decode(middle, right).0
      && Decode(partial, left + right).1 == Decode(middle, right).1
    decreases |left|
  {
    if left == [] {
      assert left + right == right;
    } else {
      assert (left + right)[1..] == left[1..] + right;
      if left[0].fin {
        DecodeConcat([], left[1..], right);
      } else {
        DecodeConcat(partial + left[0].bytes, left[1..], right);
      }
    }
  }

  /** Splitting and decoding are inverse: the frames of a message spell that one message, exactly. */
  lemma {:induction false} SplitSpellsMessage(partial: Bytes, bytes: Bytes, chunkBytes: nat, number: nat)
    requires chunkBytes >= 1
    ensures Decode(partial, Split(bytes, chunkBytes, number)) == ([partial + bytes], [])
    decreases |bytes|
  {
    if |bytes| <= chunkBytes {
      var last := [Frame(number, bytes, true)];
      assert last[1..] == [];
      assert [partial + bytes] + [] == [partial + bytes];
    } else {
      SplitSpellsMessage(partial + bytes[..chunkBytes], bytes[chunkBytes..], chunkBytes, number + 1);
      assert Split(bytes, chunkBytes, number)[1..] == Split(bytes[chunkBytes..], chunkBytes, number + 1);
      assert partial + bytes[..chunkBytes] + bytes[chunkBytes..] == partial + bytes;
    }
  }

  /** A frame that is not yet complete belongs to a message at least as long as what is known of it. */
  lemma {:induction false} DecodeHead(partial: Bytes, frames: seq<Frame>)
    requires frames != [] && (frames[0].fin || |partial| + |frames[0].bytes| > 0)
    requires Decode(partial, frames).1 == []
    ensures Decode(partial, frames).0 != []
    ensures |Decode(partial, frames).0[0]| >= |partial| + |frames[0].bytes|
    decreases |frames|
  {
    if frames != [] && !frames[0].fin {
      DecodeHead(partial + frames[0].bytes, frames[1..]);
    }
  }
}
