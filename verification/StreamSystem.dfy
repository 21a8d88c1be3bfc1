/** Two multiplexer ends of one stream joined by a FIFO channel in each direction. */
module StreamSystem {
  import opened Codecs = DocumentStreamCodec
  import opened StreamMux

  // Either side may be handed a message by its loopback, may see its loopback open (and fail while it
  // drains the backlog), may receive the next message of its incoming channel, or may lose its loopback.
  // Data, acknowledgements and close messages of one direction share that direction's channel.

  /** One end: `said` are the messages its loopback handed over, `heard` those its loopback accepted. */
  datatype Party = Party(limits: Limits, alive: bool, end: Endpoint, said: seq<Bytes>, heard: seq<Bytes>)

  function FreshParty(limits: Limits): Party { Party(limits, true, FreshEndpoint, [], []) }

  function Say(p: Party, bytes: Bytes): (Party, seq<Outgoing>)
    requires p.limits.Valid()
  {
    if !p.alive then (p, []) else
      var (end, sent) := OnLoopbackMessage(p.end, p.limits, bytes);
      (p.(end := end, said := p.said + [bytes]), sent)
  }

  function Settle(p: Party, outcome: Outcome): (Party, seq<Outgoing>) {
    match outcome
    case Live(end, reply) => (p.(end := end, heard := end.written), reply)
    case Torn(written) => (p.(alive := false, heard := written), [Close])
  }

  function OpenLoopback(p: Party, accepted: nat): (Party, seq<Outgoing>) {
    if !p.alive || p.end.loopbackOpen then (p, []) else Settle(p, OnLoopbackOpen(p.end, accepted))
  }

  function Hangup(p: Party): (Party, seq<Outgoing>) {
    if !p.alive then (p, []) else (p.(alive := false), [Close])
  }

  /** A message for a stream that is gone is dropped. */
  function Receive(p: Party, message: Outgoing, accepts: bool): (Party, seq<Outgoing>) {
    if !p.alive then (p, []) else
      match message
      case Data(frame) => Settle(p, OnData(p.end, p.limits, frame, accepts))
      case DataAck(number) =>
        var (end, sent) := OnDataAck(p.end, p.limits, number);
        (p.(end := end), sent)
      case Close => (p.(alive := false), [])
  }

  datatype System = System(left: Party, right: Party, toLeft: seq<Outgoing>, toRight: seq<Outgoing>)

  datatype Action = ASay(bytes: Bytes) | AOpen(accepted: nat) | AHangup | AReceive(accepts: bool)

  /** `onLeft` names the side that acts. */
  datatype Step = Step(onLeft: bool, action: Action)

  function Mirror(s: System): System { System(s.right, s.left, s.toRight, s.toLeft) }

  function LeftStep(s: System, action: Action): System
    requires s.left.limits.Valid()
  {
    match action
    case ASay(bytes) =>
      var (p, sent) := Say(s.left, bytes);
      s.(left := p, toRight := s.toRight + sent)
    case AOpen(accepted) =>
      var (p, sent) := OpenLoopback(s.left, accepted);
      s.(left := p, toRight := s.toRight + sent)
    case AHangup =>
      var (p, sent) := Hangup(s.left);
      s.(left := p, toRight := s.toRight + sent)
    case AReceive(accepts) =>
      if s.toLeft == [] then s else
        var (p, sent) := Receive(s.left, s.toLeft[0], accepts);
        s.(left := p, toLeft := s.toLeft[1..], toRight := s.toRight + sent)
  }

  predicate Configured(s: System) { s.left.limits.Valid() && s.right.limits.Valid() }

  function Next(s: System, step: Step): (r: System)
    requires Configured(s)
    ensures Configured(r)
  {
    if step.onLeft then LeftStep(s, step.action) else Mirror(LeftStep(Mirror(s), step.action))
  }

  function Run(s: System, steps: seq<Step>): (r: System)
    requires Configured(s)
    ensures Configured(r)
    decreases |steps|
  {
    if steps == [] then s else Run(Next(s, steps[0]), steps[1..])
  }

  /** A chunk size of at least one byte is all that is asked of the settings. */
  type WorkingLimits = l: Limits | l.Valid() witness Limits(1, 1, 1)

  function Start(left: WorkingLimits, right: WorkingLimits): System {
    System(FreshParty(left), FreshParty(right), [], [])
  }

  // ---------------------------------------------------------------------------
  // One direction of the stream: from `src` over `ch` to `dst`, acknowledged over `rev`
  // ---------------------------------------------------------------------------

  function Frames(ch: seq<Outgoing>): seq<Frame> {
    if ch == [] then []
    else (if ch[0].Data? then [ch[0].frame] else []) + Frames(ch[1..])
  }

  function Acks(ch: seq<Outgoing>): seq<nat> {
    if ch == [] then []
    else (if ch[0].DataAck? then [ch[0].number] else []) + Acks(ch[1..])
  }

  function Numbers(frames: seq<Frame>): (r: seq<nat>)
    ensures |r| == |frames| && forall i :: 0 <= i < |r| ==> r[i] == frames[i].number
  {
    seq(|frames|, i requires 0 <= i < |frames| => frames[i].number)
  }

  function Undelivered(src: Party, ch: seq<Outgoing>): seq<Frame> {
    Frames(ch) + if src.alive then src.end.codec.outbound else []
  }

  /** The messages a live receiver accounts for: written, waiting for its loopback, and still to be spelled. */
  function Account(src: Party, ch: seq<Outgoing>, dst: Party): (seq<Bytes>, Bytes) {
    var (coming, rest) := Decode(Flatten(dst.end.codec.inbound), Undelivered(src, ch));
    (dst.heard + dst.end.pendingInbound + coming, rest)
  }

  ghost predicate Exact(src: Party, ch: seq<Outgoing>, dst: Party) {
    && dst.heard <= src.said
    && (dst.alive ==> Account(src, ch, dst).0 <= src.said)
    && (dst.alive && src.alive ==> Account(src, ch, dst) == (src.said, []))
  }

  ghost predicate Consecutive(numbers: seq<nat>, end: nat) {
    forall i :: 0 <= i < |numbers| ==> numbers[i] + |numbers| == end + i
  }

  /** The numbers awaiting an acknowledgement, oldest first (acknowledged but not yet seen, in flight,
      queued), are consecutive up to the next number, and contain everything counted as unacknowledged. */
  ghost predicate Awaiting(codec: CodecState, undelivered: seq<Frame>, acks: seq<nat>) {
    && Consecutive(acks + Numbers(undelivered), codec.txSeq)
    && forall k :: k in codec.unackedBySeq ==> k + |acks| + |undelivered| >= codec.txSeq
  }

  ghost predicate Tracked(src: Party, ch: seq<Outgoing>, rev: seq<Outgoing>) {
    Awaiting(src.end.codec, Frames(ch) + src.end.codec.outbound, Acks(rev))
  }

  ghost predicate EndInv(p: Party) {
    && p.limits.Valid()
    && (p.alive ==>
          && p.heard == p.end.written
          && SendInv(p.end.codec, p.limits)
          && p.end.codec.inboundBytes == |Flatten(p.end.codec.inbound)|
          && p.end.paused == (p.end.codec.outbound != [])
          && !CanPull(p.end.codec, p.limits)
          && (p.end.loopbackOpen ==> p.end.pendingInbound == []))
  }

  ghost predicate Flow(src: Party, ch: seq<Outgoing>, rev: seq<Outgoing>, dst: Party) {
    && Exact(src, ch, dst)
    && (src.alive && dst.alive ==> Tracked(src, ch, rev))
    && (src.alive ==> forall i :: 0 <= i < |ch| ==> !ch[i].Close?)
  }

  ghost predicate Inv(s: System) {
    && EndInv(s.left) && EndInv(s.right)
    && Flow(s.left, s.toRight, s.toLeft, s.right)
    && Flow(s.right, s.toLeft, s.toRight, s.left)
  }

  // ---------------------------------------------------------------------------
  // Channels
  // ---------------------------------------------------------------------------

  lemma {:induction false} FramesConcat(a: seq<Outgoing>, b: seq<Outgoing>)
    ensures Frames(a + b) == Frames(a) + Frames(b)
  {
    if a == [] {
      assert a + b == b;
    } else {
      FramesConcat(a[1..], b);
      assert (a + b)[0] == a[0] && (a + b)[1..] == a[1..] + b;
      var head := if a[0].Data? then [a[0].frame] else [];
      assert head + (Frames(a[1..]) + Frames(b)) == head + Frames(a[1..]) + Frames(b);
    }
  }

  lemma {:induction false} AcksConcat(a: seq<Outgoing>, b: seq<Outgoing>)
    ensures Acks(a + b) == Acks(a) + Acks(b)
  {
    if a == [] {
      assert a + b == b;
    } else {
      AcksConcat(a[1..], b);
      assert (a + b)[0] == a[0] && (a + b)[1..] == a[1..] + b;
      var head := if a[0].DataAck? then [a[0].number] else [];
      assert head + (Acks(a[1..]) + Acks(b)) == head + Acks(a[1..]) + Acks(b);
    }
  }

  lemma {:induction false} ChannelOfData(frames: seq<Frame>)
    ensures Frames(DataOf(frames)) == frames && Acks(DataOf(frames)) == []
  {
    if frames != [] {
      ChannelOfData(frames[1..]);
      assert DataOf(frames)[1..] == DataOf(frames[1..]);
    }
  }

  /** Sending pulled frames moves them from the queue into the channel and changes nothing else. */
  lemma FlushMovesFrames(end: Endpoint, limits: Limits, ch: seq<Outgoing>)
    ensures var (after, sent) := Flushed(end, limits);
      && Frames(ch + sent) + after.codec.outbound == Frames(ch) + end.codec.outbound
      && Acks(ch + sent) == Acks(ch)
      && !CanPull(after.codec, limits)
      && after.codec.txSeq == end.codec.txSeq
      && after.codec.inbound == end.codec.inbound && after.codec.inboundBytes == end.codec.inboundBytes
  {
    var (frames, codec) := Pulled(end.codec, limits);
    PullTakesPrefix(end.codec, limits);
    FramesConcat(ch, DataOf(frames));
    AcksConcat(ch, DataOf(frames));
    ChannelOfData(frames);
    hide Pulled, Frames, Acks, DataOf;
    assert Frames(ch) + frames + codec.outbound == Frames(ch) + (frames + codec.outbound);
    assert Acks(ch) + [] == Acks(ch);
  }

  lemma {:induction false} PullKeys(s: CodecState, limits: Limits)
    requires SendInv(s, limits)
    ensures forall k :: k in Pulled(s, limits).1.unackedBySeq ==> k in s.unackedBySeq || k >= FirstQueued(s)
    decreases |s.outbound|
  {
    if CanPull(s, limits) {
      PullOneKeepsSendInv(s, limits);
      PullKeys(PullOne(s), limits);
    }
  }

  // ---------------------------------------------------------------------------
  // Each event preserves both directions
  // ---------------------------------------------------------------------------

  lemma SayKeepsOutgoing(p: Party, bytes: Bytes, ch: seq<Outgoing>, rev: seq<Outgoing>, dst: Party)
    requires EndInv(p) && EndInv(dst) && Flow(p, ch, rev, dst)
    ensures var (q, sent) := Say(p, bytes); EndInv(q) && Flow(q, ch + sent, rev, dst)
  {
    if p.alive {
      var enq := Enqueued(p.end.codec, p.limits, bytes);
      var frames := Split(bytes, p.limits.chunkBytes, p.end.codec.txSeq);
      EnqueueKeepsSendInv(p.end.codec, p.limits, bytes);
      PullKeepsSendInv(enq, p.limits);
      var (q, sent) := Say(p, bytes);
      FlushMovesFrames(p.end.(codec := enq), p.limits, ch);
      if dst.alive {
        var partial := Flatten(dst.end.codec.inbound);
        assert Undelivered(q, ch + sent) == Undelivered(p, ch) + frames;
        DecodeConcat(partial, Undelivered(p, ch), frames);
        SplitSpellsMessage([], bytes, p.limits.chunkBytes, p.end.codec.txSeq);
        assert [] + bytes == bytes;
        assert Account(q, ch + sent, dst).0 == p.said + [bytes];
        SayKeepsTracked(p, bytes, ch, rev);
      }
    } else {
      assert ch + [] == ch;
    }
  }

  lemma ConsecutiveGrows(numbers: seq<nat>, end: nat, more: seq<nat>)
    requires Consecutive(numbers, end)
    requires forall i :: 0 <= i < |more| ==> more[i] == end + i
    ensures Consecutive(numbers + more, end + |more|)
  {
  }

  lemma EnqueueKeepsAwaiting(codec: CodecState, limits: Limits, bytes: Bytes, sent: seq<Frame>, acks: seq<nat>)
    requires limits.Valid() && Awaiting(codec, sent + codec.outbound, acks)
    ensures var enq := Enqueued(codec, limits, bytes); Awaiting(enq, sent + enq.outbound, acks)
  {
    var frames := Split(bytes, limits.chunkBytes, codec.txSeq);
    SplitShape(bytes, limits.chunkBytes, codec.txSeq);
    ConsecutiveGrows(acks + Numbers(sent + codec.outbound), codec.txSeq, Numbers(frames));
    assert acks + Numbers(sent + (codec.outbound + frames)) ==
      acks + Numbers(sent + codec.outbound) + Numbers(frames);
  }

  lemma FlushKeepsAwaiting(end: Endpoint, limits: Limits, ch: seq<Outgoing>, acks: seq<nat>)
    requires SendInv(end.codec, limits) && Awaiting(end.codec, Frames(ch) + end.codec.outbound, acks)
    ensures var (after, sent) := Flushed(end, limits);
      Awaiting(after.codec, Frames(ch + sent) + after.codec.outbound, acks)
  {
    FlushMovesFrames(end, limits, ch);
    PullKeys(end.codec, limits);
  }

  lemma SayKeepsTracked(p: Party, bytes: Bytes, ch: seq<Outgoing>, rev: seq<Outgoing>)
    requires p.limits.Valid() && p.alive && SendInv(p.end.codec, p.limits) && Tracked(p, ch, rev)
    ensures var (q, sent) := Say(p, bytes); Tracked(q, ch + sent, rev)
  {
    EnqueueKeepsAwaiting(p.end.codec, p.limits, bytes, Frames(ch), Acks(rev));
    EnqueueKeepsSendInv(p.end.codec, p.limits, bytes);
    FlushKeepsAwaiting(p.end.(codec := Enqueued(p.end.codec, p.limits, bytes)), p.limits, ch, Acks(rev));
  }

  /** A sender that says nothing new, and perhaps stops: what it emits carries no document data. */
  lemma QuietSender(p: Party, q: Party, ch: seq<Outgoing>, sent: seq<Outgoing>, rev: seq<Outgoing>, dst: Party)
    requires Flow(p, ch, rev, dst) && Frames(sent) == []
    requires q.said == p.said && (q.alive ==> p.alive && forall i :: 0 <= i < |sent| ==> !sent[i].Close?)
    requires q.end.codec.txSeq == p.end.codec.txSeq && q.end.codec.outbound == p.end.codec.outbound
    requires q.end.codec.unackedBySeq == p.end.codec.unackedBySeq
    ensures Flow(q, ch + sent, rev, dst)
  {
    FramesConcat(ch, sent);
    assert Frames(ch + sent) == Frames(ch);
    if dst.alive && !q.alive && p.alive {
      DecodeConcat(Flatten(dst.end.codec.inbound), Frames(ch), p.end.codec.outbound);
      assert Undelivered(q, ch + sent) == Frames(ch);
    } else if q.alive == p.alive {
      assert Undelivered(q, ch + sent) == Undelivered(p, ch);
    }
  }

  /** A receiver that takes no document data, and perhaps stops: what it emits acknowledges nothing. */
  lemma QuietReceiver(src: Party, ch: seq<Outgoing>, rev: seq<Outgoing>, sent: seq<Outgoing>, p: Party, q: Party)
    requires Flow(src, ch, rev, p) && Acks(sent) == []
    requires q.heard == p.heard && (q.alive ==> p.alive)
    requires q.end.codec.inbound == p.end.codec.inbound && q.end.pendingInbound == p.end.pendingInbound
    ensures Flow(src, ch, rev + sent, q)
  {
    AcksConcat(rev, sent);
    assert Acks(rev + sent) == Acks(rev);
  }

  lemma NothingInClose()
    ensures Frames([Close]) == [] && Acks([Close]) == []
  {
    assert [Close][1..] == [];
  }

  lemma SayKeepsIncoming(p: Party, bytes: Bytes, src: Party, ch: seq<Outgoing>, rev: seq<Outgoing>)
    requires EndInv(p) && Flow(src, ch, rev, p)
    ensures var (q, sent) := Say(p, bytes); Flow(src, ch, rev + sent, q)
  {
    var (q, sent) := Say(p, bytes);
    if p.alive {
      var enq := Enqueued(p.end.codec, p.limits, bytes);
      FlushMovesFrames(p.end.(codec := enq), p.limits, []);
      assert [] + sent == sent;
    }
    QuietReceiver(src, ch, rev, sent, p, q);
  }

  lemma HangupKeepsFlow(p: Party, ch: seq<Outgoing>, rev: seq<Outgoing>, other: Party)
    requires EndInv(p) && EndInv(other) && Flow(p, ch, rev, other) && Flow(other, rev, ch, p)
    ensures var (q, sent) := Hangup(p);
      EndInv(q) && Flow(q, ch + sent, rev, other) && Flow(other, rev, ch + sent, q)
  {
    NothingInClose();
    var (q, sent) := Hangup(p);
    QuietSender(p, q, ch, sent, rev, other);
    QuietReceiver(other, rev, ch, sent, p, q);
  }

  lemma OpenKeepsFlow(p: Party, accepted: nat, ch: seq<Outgoing>, rev: seq<Outgoing>, other: Party)
    requires EndInv(p) && EndInv(other) && Flow(p, ch, rev, other) && Flow(other, rev, ch, p)
    ensures var (q, sent) := OpenLoopback(p, accepted);
      EndInv(q) && Flow(q, ch + sent, rev, other) && Flow(other, rev, ch + sent, q)
  {
    NothingInClose();
    var (q, sent) := OpenLoopback(p, accepted);
    QuietSender(p, q, ch, sent, rev, other);
    AcksConcat(ch, sent);
    assert Acks(ch + sent) == Acks(ch);
    if p.alive && !p.end.loopbackOpen {
      var (coming, rest) := Decode(Flatten(p.end.codec.inbound), Undelivered(other, rev));
      hide Decode;
      if q.alive {
        assert q.heard + [] + coming == p.heard + p.end.pendingInbound + coming;
      } else {
        assert q.heard <= p.heard + p.end.pendingInbound + coming;
      }
    }
  }

  // ---------------------------------------------------------------------------
  // Receiving
  // ---------------------------------------------------------------------------

  lemma MoveToFront(heard: seq<Bytes>, pending: seq<Bytes>, message: Bytes, coming: seq<Bytes>)
    ensures heard + (pending + [message]) + coming == heard + pending + ([message] + coming)
    ensures pending == [] ==> (heard + [message]) + pending + coming == heard + pending + ([message] + coming)
  {
  }

  /** A frame that is taken moves from the channel into what the receiver holds or has written. */
  lemma DataKeepsAccount(p: Party, frame: Frame, accepts: bool, src: Party, ch: seq<Outgoing>)
    requires p.alive && EndInv(p) && ch != [] && ch[0] == Data(frame)
    ensures var q := Receive(p, ch[0], accepts).0;
      && (q.alive ==> Account(src, ch[1..], q) == Account(src, ch, p))
      && (!q.alive ==> q.heard == p.heard)
  {
    var q := Receive(p, ch[0], accepts).0;
    var frames := Undelivered(src, ch);
    assert frames[0] == frame && frames[1..] == Undelivered(src, ch[1..]);
    FlattenAppend(p.end.codec.inbound, frame.bytes);
    if q.alive && frame.fin {
      MoveToFront(p.heard, p.end.pendingInbound, Flatten(p.end.codec.inbound) + frame.bytes, Decode([], frames[1..]).0);
    }
  }

  lemma DataKeepsExact(p: Party, frame: Frame, accepts: bool, src: Party, ch: seq<Outgoing>)
    requires p.alive && EndInv(p) && ch != [] && ch[0] == Data(frame) && Exact(src, ch, p)
    ensures Exact(src, ch[1..], Receive(p, ch[0], accepts).0)
  {
    DataKeepsAccount(p, frame, accepts, src, ch);
  }

  lemma DataKeepsTracked(p: Party, frame: Frame, accepts: bool, src: Party, ch: seq<Outgoing>, rev: seq<Outgoing>)
    requires p.alive && ch != [] && ch[0] == Data(frame) && Tracked(src, ch, rev)
    ensures var (q, sent) := Receive(p, ch[0], accepts); q.alive ==> Tracked(src, ch[1..], rev + sent)
  {
    var (q, sent) := Receive(p, ch[0], accepts);
    if q.alive {
      assert sent == [DataAck(frame.number)];
      assert Acks(sent) == [frame.number] by { assert sent[1..] == []; }
      AcksConcat(rev, sent);
      var before, after := Frames(ch) + src.end.codec.outbound, Frames(ch[1..]) + src.end.codec.outbound;
      assert before == [frame] + after;
      assert Acks(rev) + Numbers(before) == Acks(rev + sent) + Numbers(after);
    }
  }

  lemma DataKeepsFlow(p: Party, frame: Frame, accepts: bool, ch: seq<Outgoing>, rev: seq<Outgoing>, other: Party)
    requires p.alive && EndInv(p) && EndInv(other) && rev != [] && rev[0] == Data(frame)
    requires Flow(p, ch, rev, other) && Flow(other, rev, ch, p)
    ensures var (q, sent) := Receive(p, rev[0], accepts);
      EndInv(q) && Flow(q, ch + sent, rev[1..], other) && Flow(other, rev[1..], ch + sent, q)
  {
    var (q, sent) := Receive(p, rev[0], accepts);
    FlattenAppend(p.end.codec.inbound, frame.bytes);
    DataKeepsExact(p, frame, accepts, other, rev);
    if other.alive {
      DataKeepsTracked(p, frame, accepts, other, rev, ch);
    }
    assert Frames(sent) == [] by { assert sent[1..] == []; }
    assert Acks(rev[1..]) == Acks(rev);
    QuietSender(p, q, ch, sent, rev[1..], other);
  }

  lemma AckKeepsAwaiting(codec: CodecState, limits: Limits, undelivered: seq<Frame>, acks: seq<nat>)
    requires SendInv(codec, limits) && acks != [] && Awaiting(codec, undelivered, acks)
    ensures Awaiting(Acked(codec, acks[0]), undelivered, acks[1..])
  {
    var numbers := acks + Numbers(undelivered);
    assert numbers[1..] == acks[1..] + Numbers(undelivered);
    assert numbers[0] == acks[0];
  }

  lemma AckKeepsOutgoing(p: Party, number: nat, ch: seq<Outgoing>, rev: seq<Outgoing>, other: Party)
    requires p.alive && EndInv(p) && rev != [] && rev[0] == DataAck(number) && Flow(p, ch, rev, other)
    ensures var (q, sent) := Receive(p, rev[0], true); EndInv(q) && Flow(q, ch + sent, rev[1..], other)
  {
    var (q, sent) := Receive(p, rev[0], true);
    var acked := p.end.(codec := Acked(p.end.codec, number));
    AckKeepsSendInv(p.end.codec, p.limits, number);
    PullKeepsSendInv(acked.codec, p.limits);
    FlushMovesFrames(acked, p.limits, ch);
    assert Undelivered(q, ch + sent) == Undelivered(p, ch);
    if other.alive {
      assert Acks(rev) == [number] + Acks(rev[1..]);
      AckKeepsAwaiting(p.end.codec, p.limits, Frames(ch) + p.end.codec.outbound, Acks(rev));
      FlushKeepsAwaiting(acked, p.limits, ch, Acks(rev)[1..]);
    }
  }

  lemma AckKeepsIncoming(p: Party, number: nat, ch: seq<Outgoing>, rev: seq<Outgoing>, other: Party)
    requires p.alive && rev != [] && rev[0] == DataAck(number) && Flow(other, rev, ch, p)
    ensures var (q, sent) := Receive(p, rev[0], true); Flow(other, rev[1..], ch + sent, q)
  {
    var (q, sent) := Receive(p, rev[0], true);
    FlushMovesFrames(p.end.(codec := Acked(p.end.codec, number)), p.limits, []);
    assert [] + sent == sent;
    assert Frames(rev[1..]) == Frames(rev);
    QuietReceiver(other, rev[1..], ch, sent, p, q);
  }

  lemma DropKeepsFlow(p: Party, ch: seq<Outgoing>, rev: seq<Outgoing>, other: Party)
    requires !p.alive && rev != [] && Flow(p, ch, rev, other) && Flow(other, rev, ch, p)
    ensures Flow(p, ch + [], rev[1..], other) && Flow(other, rev[1..], ch + [], p)
  {
    assert ch + [] == ch;
  }

  lemma CloseKeepsFlow(p: Party, ch: seq<Outgoing>, rev: seq<Outgoing>, other: Party)
    requires p.alive && EndInv(p) && EndInv(other) && rev != [] && rev[0].Close?
    requires Flow(p, ch, rev, other) && Flow(other, rev, ch, p)
    ensures var q := p.(alive := false);
      EndInv(q) && Flow(q, ch + [], rev[1..], other) && Flow(other, rev[1..], ch + [], q)
  {
    var q := p.(alive := false);
    QuietSender(p, q, ch, [], rev, other);
    assert ch + [] == ch;
    assert Acks(rev[1..]) == Acks(rev);
  }

  lemma LeftStepKeepsInv(s: System, action: Action)
    requires Inv(s)
    ensures Inv(LeftStep(s, action))
  {
    match action
    case ASay(bytes) =>
      SayKeepsOutgoing(s.left, bytes, s.toRight, s.toLeft, s.right);
      SayKeepsIncoming(s.left, bytes, s.right, s.toLeft, s.toRight);
    case AOpen(accepted) =>
      OpenKeepsFlow(s.left, accepted, s.toRight, s.toLeft, s.right);
    case AHangup =>
      HangupKeepsFlow(s.left, s.toRight, s.toLeft, s.right);
    case AReceive(accepts) =>
      if s.toLeft != [] {
        if !s.left.alive {
          DropKeepsFlow(s.left, s.toRight, s.toLeft, s.right);
        } else {
          match s.toLeft[0]
          case Data(frame) => DataKeepsFlow(s.left, frame, accepts, s.toRight, s.toLeft, s.right);
          case DataAck(number) =>
            AckKeepsOutgoing(s.left, number, s.toRight, s.toLeft, s.right);
            AckKeepsIncoming(s.left, number, s.toRight, s.toLeft, s.right);
          case Close => CloseKeepsFlow(s.left, s.toRight, s.toLeft, s.right);
        }
      }
  }

  lemma {:induction false} RunKeepsInv(s: System, steps: seq<Step>)
    requires Inv(s)
    ensures Inv(Run(s, steps))
    decreases |steps|
  {
    if steps != [] {
      LeftStepKeepsInv(if steps[0].onLeft then s else Mirror(s), steps[0].action);
      RunKeepsInv(Next(s, steps[0]), steps[1..]);
    }
  }

  lemma StartInv(left: WorkingLimits, right: WorkingLimits)
    ensures Inv(Start(left, right))
  {
  }

  // ---------------------------------------------------------------------------
  // The promises of the stream, over every run
  // ---------------------------------------------------------------------------

  /** In every run, under any interleaving, each loopback has been handed a prefix of what the other side
      said, in order, whole and without repetition; and while both ends live, what was written, then the
      backlog, then what the buffered chunks, the frames in flight and the queued frames spell is exactly
      everything that was said. */
  lemma StreamsAreExact(left: WorkingLimits, right: WorkingLimits, steps: seq<Step>)
    ensures var s := Run(Start(left, right), steps);
      && s.right.heard <= s.left.said && s.left.heard <= s.right.said
      && (s.left.alive && s.right.alive ==>
            && Account(s.left, s.toRight, s.right) == (s.left.said, [])
            && Account(s.right, s.toLeft, s.left) == (s.right.said, []))
  {
    StartInv(left, right);
    RunKeepsInv(Start(left, right), steps);
  }

  ghost predicate WindowHolds(p: Party) {
    var codec := p.end.codec;
    && codec.unacked == Total(codec.unackedBySeq)
    && codec.unacked <= (if p.limits.windowBytes >= p.limits.chunkBytes then p.limits.windowBytes else p.limits.chunkBytes)
    && (codec.unacked > p.limits.windowBytes ==> exists k :: codec.unackedBySeq.Keys == {k})
    && p.end.paused == (codec.outbound != [])
    && (codec.outbound != [] ==> codec.unackedBySeq != map[])
  }

  /** In every run each live end keeps its window, and pauses its loopback exactly while frames wait,
      and then at least one of its frames is unacknowledged. */
  lemma WindowsHold(left: WorkingLimits, right: WorkingLimits, steps: seq<Step>)
    ensures var s := Run(Start(left, right), steps);
      (s.left.alive ==> WindowHolds(s.left)) && (s.right.alive ==> WindowHolds(s.right))
  {
    StartInv(left, right);
    RunKeepsInv(Start(left, right), steps);
  }

  function ChannelWork(ch: seq<Outgoing>): nat { |ch| + |Frames(ch)| }

  function PartyWork(p: Party): nat { if p.alive then 3 * |p.end.codec.outbound| else 0 }

  function Work(s: System): nat {
    PartyWork(s.left) + PartyWork(s.right) + ChannelWork(s.toLeft) + ChannelWork(s.toRight)
  }

  lemma FlushKeepsWork(end: Endpoint, limits: Limits, ch: seq<Outgoing>)
    ensures var (after, sent) := Flushed(end, limits);
      3 * |after.codec.outbound| + ChannelWork(ch + sent) <= 3 * |end.codec.outbound| + ChannelWork(ch)
  {
    var (frames, codec) := Pulled(end.codec, limits);
    PullTakesPrefix(end.codec, limits);
    FramesConcat(ch, DataOf(frames));
    ChannelOfData(frames);
  }

  lemma SmallReplyWork(ch: seq<Outgoing>, reply: Outgoing)
    requires !reply.Data?
    ensures ChannelWork(ch + [reply]) == ChannelWork(ch) + 1
    ensures ChannelWork(ch + []) == ChannelWork(ch)
  {
    FramesConcat(ch, [reply]);
    assert [reply][1..] == [];
    assert ch + [] == ch;
  }

  lemma DeliveryShrinksWork(s: System, accepts: bool)
    requires Configured(s) && s.toLeft != []
    ensures Work(LeftStep(s, AReceive(accepts))) < Work(s)
  {
    SmallReplyWork(s.toRight, Close);
    if s.left.alive {
      match s.toLeft[0]
      case Data(frame) => SmallReplyWork(s.toRight, DataAck(frame.number));
      case DataAck(number) =>
        FlushKeepsWork(s.left.end.(codec := Acked(s.left.end.codec, number)), s.left.limits, s.toRight);
      case Close =>
    }
  }

  /** A schedule that only delivers: every step takes a message that is there. */
  ghost predicate OnlyDelivers(s: System, steps: seq<Step>)
    requires Configured(s)
    decreases |steps|
  {
    steps == [] || (
      && steps[0].action.AReceive?
      && (if steps[0].onLeft then s.toLeft != [] else s.toRight != [])
      && OnlyDelivers(Next(s, steps[0]), steps[1..]))
  }

  /** No livelock: from any state, any schedule of deliveries whatever is finite, and bounded by the work left. */
  lemma {:induction false} DeliveriesAreBounded(s: System, steps: seq<Step>)
    requires Configured(s) && OnlyDelivers(s, steps)
    ensures |steps| + Work(Run(s, steps)) <= Work(s)
    decreases |steps|
  {
    if steps != [] {
      DeliveryShrinksWork(if steps[0].onLeft then s else Mirror(s), steps[0].action.accepts);
      DeliveriesAreBounded(Next(s, steps[0]), steps[1..]);
    }
  }

  /** Nothing of `src` waits anywhere: all it said has reached the other loopback, or its backlog. */
  ghost predicate Through(src: Party, dst: Party) {
    && src.end.codec.outbound == [] && src.end.codec.unacked == 0 && !src.end.paused
    && src.said == dst.heard + dst.end.pendingInbound
    && (dst.end.loopbackOpen ==> src.said == dst.heard)
  }

  lemma EmptyChannelsAreThrough(src: Party, dst: Party)
    requires src.alive && dst.alive && EndInv(src) && EndInv(dst) && Flow(src, [], [], dst)
    ensures Through(src, dst)
  {
    var codec := src.end.codec;
    assert Awaiting(codec, [] + codec.outbound, []);
    assert codec.unackedBySeq == map[];
    assert codec.outbound == [];
    var partial := Flatten(dst.end.codec.inbound);
    assert Decode(partial, []) == ([], partial);
    assert dst.heard + dst.end.pendingInbound + [] == dst.heard + dst.end.pendingInbound;
  }

  /** No stall: in every reachable state in which both ends live, either a message can be delivered, or
      nothing is queued, unacknowledged or paused and every message said has reached the other side's
      loopback or, while that is not open yet, its backlog. */
  lemma NeverStalls(left: WorkingLimits, right: WorkingLimits, steps: seq<Step>)
    ensures var s := Run(Start(left, right), steps);
      s.left.alive && s.right.alive && s.toLeft == [] && s.toRight == [] ==>
        Through(s.left, s.right) && Through(s.right, s.left)
  {
    StartInv(left, right);
    RunKeepsInv(Start(left, right), steps);
    var s := Run(Start(left, right), steps);
    if s.left.alive && s.right.alive && s.toLeft == [] && s.toRight == [] {
      EmptyChannelsAreThrough(s.left, s.right);
      EmptyChannelsAreThrough(s.right, s.left);
    }
  }

  /** Why a live end may have to give up while the other end lives. */
  ghost predicate HasCause(s: System, action: Action) {
    var p := s.left;
    match action
    case AHangup => true
    case AOpen(accepted) => accepted < |p.end.pendingInbound|
    case AReceive(accepts) =>
      if p.end.loopbackOpen then !accepts
      else exists m :: m in s.right.said && p.end.pendingInboundBytes + |m| > p.limits.windowBytes
    case ASay(_) => false
  }

  /** What one received frame can do to a live end whose peer keeps within the message limit. */
  lemma ReceiptHasCause(s: System, frame: Frame, accepts: bool)
    requires s.left.limits.Valid() && s.left.alive && s.right.alive && s.toLeft != [] && s.toLeft[0] == Data(frame)
    requires forall m :: m in s.right.said ==> |m| <= s.left.limits.messageBytes
    requires frame.fin ==> Flatten(s.left.end.codec.inbound + [frame.bytes]) in s.right.said
    requires frame.fin || s.left.end.codec.inboundBytes + |frame.bytes| > 0 ==>
      exists m :: m in s.right.said && s.left.end.codec.inboundBytes + |frame.bytes| <= |m|
    requires !LeftStep(s, AReceive(accepts)).left.alive
    ensures HasCause(s, AReceive(accepts))
  {
    hide Flushed;
  }

  /** A stream within the receiver's message limit is never torn down as oversized: in every reachable
      state with both ends live and every message said within the limit, an end dies only because its
      loopback hung up or refused a write, or because the backlog of a loopback that is not open yet
      would pass the window. */
  lemma TornOnlyWithCause(left: WorkingLimits, right: WorkingLimits, steps: seq<Step>, action: Action)
    ensures var s := Run(Start(left, right), steps);
      && s.left.alive && s.right.alive
      && (forall m :: m in s.right.said ==> |m| <= s.left.limits.messageBytes)
      && !LeftStep(s, action).left.alive
      ==> HasCause(s, action)
  {
    StartInv(left, right);
    RunKeepsInv(Start(left, right), steps);
    var s := Run(Start(left, right), steps);
    if s.left.alive && s.right.alive && action.AReceive? && s.toLeft != [] && s.toLeft[0].Data?
      && (forall m :: m in s.right.said ==> |m| <= s.left.limits.messageBytes)
      && !LeftStep(s, action).left.alive
    {
      MessageInProgress(s.left, s.toLeft[0].frame, s.right, s.toLeft);
      ReceiptHasCause(s, s.toLeft[0].frame, action.accepts);
    }
    hide Run, Inv;
  }

  /** Whatever is buffered with the next frame is part of a message that was said. */
  lemma MessageInProgress(p: Party, frame: Frame, src: Party, ch: seq<Outgoing>)
    requires p.alive && src.alive && EndInv(p) && Exact(src, ch, p) && ch != [] && ch[0] == Data(frame)
    ensures frame.fin ==> Flatten(p.end.codec.inbound + [frame.bytes]) in src.said
    ensures frame.fin || p.end.codec.inboundBytes + |frame.bytes| > 0 ==>
      exists m :: m in src.said && p.end.codec.inboundBytes + |frame.bytes| <= |m|
  {
    var partial, frames := Flatten(p.end.codec.inbound), Undelivered(src, ch);
    assert frames[0] == frame;
    FlattenAppend(p.end.codec.inbound, frame.bytes);
    if frame.fin || |partial| + |frame.bytes| > 0 {
      DecodeHead(partial, frames);
      assert src.said[|p.heard| + |p.end.pendingInbound|] == Decode(partial, frames).0[0];
    }
  }
}
