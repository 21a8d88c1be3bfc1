/** What the steps of a stream decide: what was said, what an open loopback is handed, and who is told of the end. */
module StreamOutcomes {
  import opened Codecs = DocumentStreamCodec
  import opened StreamMux
  import opened StreamSystem

  function Side(s: System, onLeft: bool): Party { if onLeft then s.left else s.right }

  function ChannelTo(s: System, onLeft: bool): seq<Outgoing> { if onLeft then s.toLeft else s.toRight }

  // ---------------------------------------------------------------------------
  // What was said
  // ---------------------------------------------------------------------------

  /** The messages handed over on one side while it lived, read from the steps. */
  function SaidBy(s: System, steps: seq<Step>, onLeft: bool): seq<Bytes>
    requires Configured(s)
    decreases |steps|
  {
    if steps == [] then []
    else
      (if steps[0].onLeft == onLeft && steps[0].action.ASay? && Side(s, onLeft).alive then [steps[0].action.bytes] else [])
      + SaidBy(Next(s, steps[0]), steps[1..], onLeft)
  }

  lemma StepSays(s: System, step: Step, onLeft: bool)
    requires Configured(s)
    ensures Side(Next(s, step), onLeft).said == Side(s, onLeft).said + SaidBy(s, [step], onLeft)
  {
    assert SaidBy(Next(s, step), [step][1..], onLeft) == [];
    hide Flushed, OnData;
  }

  lemma {:induction false} SaidSoFar(s: System, steps: seq<Step>, onLeft: bool)
    requires Configured(s)
    ensures Side(Run(s, steps), onLeft).said == Side(s, onLeft).said + SaidBy(s, steps, onLeft)
    decreases |steps|
  {
    if steps != [] {
      StepSays(s, steps[0], onLeft);
      SaidSoFar(Next(s, steps[0]), steps[1..], onLeft);
      hide Next;
      assert SaidBy(Next(s, steps[0]), [steps[0]][1..], onLeft) == [];
    }
  }

  // ---------------------------------------------------------------------------
  // Loopbacks that are open
  // ---------------------------------------------------------------------------

  /** The backlog is counted exactly and fits the window; an open loopback has none. */
  ghost predicate Backlogged(p: Party) {
    p.alive ==>
      && p.end.pendingInboundBytes == |Flatten(p.end.pendingInbound)|
      && p.end.pendingInboundBytes <= p.limits.windowBytes
      && (p.end.loopbackOpen ==> p.end.pendingInbound == [])
  }

  ghost predicate Opened(p: Party) { p.alive ==> p.end.loopbackOpen }

  lemma FlushKeepsBacklog(e: Endpoint, limits: Limits)
    ensures var f := Flushed(e, limits).0; f == e.(codec := f.codec, paused := f.paused)
  {
    hide Pulled;
  }

  lemma ReceiptKeepsBacklog(p: Party, message: Outgoing, accepts: bool)
    requires Backlogged(p)
    ensures var q := Receive(p, message, accepts).0; Backlogged(q) && (Opened(p) ==> Opened(q)) && (q.alive ==> p.alive)
  {
    hide Flushed;
    if p.alive && message.Data? {
      FlattenAppend(p.end.pendingInbound, Flatten(p.end.codec.inbound + [message.frame.bytes]));
      hide Flatten;
    } else if p.alive && message.DataAck? {
      FlushKeepsBacklog(p.end.(codec := Acked(p.end.codec, message.number)), p.limits);
      hide Acked, Flatten;
    }
  }

  lemma StepKeepsBacklog(s: System, action: Action)
    requires Configured(s) && Backlogged(s.left)
    ensures var t := LeftStep(s, action);
      && Backlogged(t.left) && t.right == s.right && (Opened(s.left) ==> Opened(t.left))
      && (t.left.alive ==> s.left.alive)
  {
    match action
    case ASay(bytes) =>
      FlushKeepsBacklog(s.left.end.(codec := Enqueued(s.left.end.codec, s.left.limits, bytes)), s.left.limits);
      hide Flushed, Enqueued, Flatten;
    case AOpen(_) => assert Flatten([]) == [];
    case AHangup =>
    case AReceive(accepts) =>
      if s.toLeft != [] {
        ReceiptKeepsBacklog(s.left, s.toLeft[0], accepts);
        hide Receive, Backlogged, Opened;
      }
  }

  lemma {:induction false} BacklogSoFar(s: System, steps: seq<Step>, onLeft: bool)
    requires Configured(s) && Backlogged(s.left) && Backlogged(s.right)
    ensures var t := Run(s, steps);
      && Backlogged(t.left) && Backlogged(t.right)
      && (Opened(Side(s, onLeft)) ==> Opened(Side(t, onLeft)))
      && (Side(t, onLeft).alive ==> Side(s, onLeft).alive)
    decreases |steps|
  {
    if steps != [] {
      var u := if steps[0].onLeft then s else Mirror(s);
      StepKeepsBacklog(u, steps[0].action);
      hide LeftStep, Backlogged, Opened;
      BacklogSoFar(Next(s, steps[0]), steps[1..], onLeft);
    }
  }

  /** What an end gets from a loopback that opens and takes the whole backlog. */
  ghost predicate OpensFully(s: System, step: Step) {
    && step.action.AOpen? && Side(s, step.onLeft).alive
    && step.action.accepted >= |Side(s, step.onLeft).end.pendingInbound|
  }

  lemma OpeningOpens(s: System, step: Step)
    requires Configured(s) && Backlogged(s.left) && Backlogged(s.right) && OpensFully(s, step)
    ensures var p, q := Side(s, step.onLeft), Side(Next(s, step), step.onLeft);
      && q.alive && Opened(q) && q.end.pendingInbound == []
      && q.heard == (if p.end.loopbackOpen then p.heard else p.end.written + p.end.pendingInbound)
  {
  }

  /** The next message is for an open end, completes a message, and is taken. */
  lemma OpenEndWrites(s: System, accepts: bool)
    requires Configured(s) && Backlogged(s.left) && Opened(s.left) && s.left.alive && s.toLeft != [] && s.toLeft[0].Data?
    requires s.left.heard == s.left.end.written
    ensures var frame, t := s.toLeft[0].frame, LeftStep(s, AReceive(accepts));
      t.left.alive ==>
        t.left.heard == s.left.heard + if frame.fin then [Flatten(s.left.end.codec.inbound + [frame.bytes])] else []
  {
    hide Flushed, Flatten;
  }

  lemma ReachedInv(left: WorkingLimits, right: WorkingLimits, steps: seq<Step>)
    ensures var s := Run(Start(left, right), steps); Inv(s) && Backlogged(s.left) && Backlogged(s.right)
  {
    StartInv(left, right);
    RunKeepsInv(Start(left, right), steps);
    BacklogSoFar(Start(left, right), steps, true);
  }

  /** Once a loopback has opened and taken the whole backlog, its end hands on at once whatever it completes for as
      long as it lives: it has no backlog, every message that the next frame completes is written right then, and
      when nothing is under way between two live ends the loopback has been handed everything that was said. */
  lemma OpenLoopbackGetsEverything(left: WorkingLimits, right: WorkingLimits, before: seq<Step>, step: Step, after: seq<Step>)
    requires OpensFully(Run(Start(left, right), before), step)
    ensures var u := Next(Run(Start(left, right), before), step);
      var t := Run(u, after);
      var p, src := Side(t, step.onLeft), Side(t, !step.onLeft);
      && Side(u, step.onLeft).alive && Side(u, step.onLeft).heard == Side(u, step.onLeft).end.written
      && (p.alive ==> p.end.pendingInbound == [])
      && (p.alive && src.alive && t.toLeft == [] && t.toRight == [] ==> src.said == p.heard)
      && (p.alive && ChannelTo(t, step.onLeft) != [] && ChannelTo(t, step.onLeft)[0].Data? ==> WritesAtOnce(t, step.onLeft))
  {
    var s := Run(Start(left, right), before);
    var u := Next(s, step);
    var t := Run(u, after);
    ReachedInv(left, right, before);
    OpeningOpens(s, step);
    RunKeepsInv(s, [step]);
    assert Run(s, [step]) == u by { assert Run(u, [step][1..]) == u; }
    StepKeepsBacklog(if step.onLeft then s else Mirror(s), step.action);
    BacklogSoFar(u, after, step.onLeft);
    RunKeepsInv(u, after);
    hide Run, Next, Flow, EndInv;
    if t.left.alive && t.right.alive && t.toLeft == [] && t.toRight == [] {
      EmptyChannelsAreThrough(t.left, t.right);
      EmptyChannelsAreThrough(t.right, t.left);
    }
    if Side(t, step.onLeft).alive && ChannelTo(t, step.onLeft) != [] && ChannelTo(t, step.onLeft)[0].Data? {
      NextIsWritten(t, step.onLeft);
    }
  }

  /** The next frame for an end: a message that it completes is written, if the end goes on. */
  ghost predicate WritesAtOnce(s: System, onLeft: bool)
    requires Configured(s) && ChannelTo(s, onLeft) != [] && ChannelTo(s, onLeft)[0].Data?
  {
    var p, frame := Side(s, onLeft), ChannelTo(s, onLeft)[0].frame;
    forall accepts :: var q := Side(Next(s, Step(onLeft, AReceive(accepts))), onLeft);
      q.alive ==> q.heard == p.heard + if frame.fin then [Flatten(p.end.codec.inbound + [frame.bytes])] else []
  }

  lemma NextIsWritten(s: System, onLeft: bool)
    requires Configured(s) && Backlogged(Side(s, onLeft)) && EndInv(Side(s, onLeft)) && Opened(Side(s, onLeft))
    requires Side(s, onLeft).alive && ChannelTo(s, onLeft) != [] && ChannelTo(s, onLeft)[0].Data?
    ensures WritesAtOnce(s, onLeft)
  {
    var u := if onLeft then s else Mirror(s);
    forall accepts
      ensures var p, q := Side(s, onLeft), Side(Next(s, Step(onLeft, AReceive(accepts))), onLeft);
        var frame := ChannelTo(s, onLeft)[0].frame;
        q.alive ==> q.heard == p.heard + if frame.fin then [Flatten(p.end.codec.inbound + [frame.bytes])] else []
    {
      OpenEndWrites(u, accepts);
      hide LeftStep, Flatten;
    }
    hide Next, Flatten;
  }

  // ---------------------------------------------------------------------------
  // The end of a stream
  // ---------------------------------------------------------------------------

  /** What ends a live end, told from what it holds and what happens to it. */
  ghost predicate Ends(s: System, action: Action) {
    var p := s.left;
    match action
    case ASay(_) => false
    case AHangup => true
    case AOpen(accepted) => !p.end.loopbackOpen && accepted < |p.end.pendingInbound|
    case AReceive(accepts) =>
      s.toLeft != []
      && match s.toLeft[0]
         case Close => true
         case DataAck(_) => false
         case Data(frame) =>
           || |Flatten(p.end.codec.inbound)| + |frame.bytes| > p.limits.messageBytes
           || (frame.fin && if p.end.loopbackOpen then !accepts
               else |Flatten(p.end.pendingInbound)| + |Flatten(p.end.codec.inbound)| + |frame.bytes| > p.limits.windowBytes)
  }

  /** A live end ends exactly for such a cause: a message over the limit is refused as soon as it is too long, a
      backlog over the window likewise. It then announces it, unless it was told so itself; and an end that has
      ended says nothing more. */
  lemma EndsExactlyIff(left: WorkingLimits, right: WorkingLimits, steps: seq<Step>, action: Action)
    ensures var s := Run(Start(left, right), steps);
      var t := LeftStep(s, action);
      && (s.left.alive ==> (!t.left.alive <==> Ends(s, action)))
      && (s.left.alive && !t.left.alive ==>
            t.toRight == s.toRight + if action.AReceive? && s.toLeft[0].Close? then [] else [Close])
      && (!s.left.alive ==> !t.left.alive && t.toRight == s.toRight && t.left.heard == s.left.heard)
  {
    ReachedInv(left, right, steps);
    var s := Run(Start(left, right), steps);
    hide Run, Flow;
    EndsIff(s, action);
  }

  lemma EndsIff(s: System, action: Action)
    requires EndInv(s.left) && Backlogged(s.left)
    ensures var t := LeftStep(s, action);
      && (s.left.alive ==> (!t.left.alive <==> Ends(s, action)))
      && (s.left.alive && !t.left.alive ==>
            t.toRight == s.toRight + if action.AReceive? && s.toLeft[0].Close? then [] else [Close])
      && (!s.left.alive ==> !t.left.alive && t.toRight == s.toRight && t.left.heard == s.left.heard)
  {
    hide Flushed;
    if action.AReceive? && s.toLeft != [] && s.toLeft[0].Data? && s.left.alive {
      FlattenAppend(s.left.end.codec.inbound, s.toLeft[0].frame.bytes);
    }
    hide Flatten, SendInv, CanPull;
  }

  /** An end that has ended while the other one lives has told it so. */
  ghost predicate Told(src: Party, ch: seq<Outgoing>, dst: Party) {
    !src.alive && dst.alive ==> exists i :: 0 <= i < |ch| && ch[i].Close?
  }

  lemma TellsMore(src: Party, ch: seq<Outgoing>, more: seq<Outgoing>, dst: Party)
    requires Told(src, ch, dst)
    ensures Told(src, ch + more, dst)
  {
    if !src.alive && dst.alive {
      var i :| 0 <= i < |ch| && ch[i].Close?;
      assert (ch + more)[i].Close?;
    }
  }

  lemma StepTells(s: System, action: Action)
    requires Inv(s) && Backlogged(s.left) && Told(s.left, s.toRight, s.right) && Told(s.right, s.toLeft, s.left)
    ensures var t := LeftStep(s, action); Told(t.left, t.toRight, t.right) && Told(t.right, t.toLeft, t.left)
  {
    var t := LeftStep(s, action);
    EndsIff(s, action);
    assert t.right == s.right && s.toRight <= t.toRight by { hide Flushed, OnData; }
    assert t.toLeft == (if action.AReceive? && s.toLeft != [] then s.toLeft[1..] else s.toLeft) by { hide Flushed, OnData; }
    hide LeftStep;
    TellsMore(s.left, s.toRight, t.toRight[|s.toRight|..], s.right);
    assert s.toRight + t.toRight[|s.toRight|..] == t.toRight;
    if s.left.alive && !t.left.alive && !(action.AReceive? && s.toLeft[0].Close?) {
      assert t.toRight[|s.toRight|] == Close;
    }
    if !s.right.alive && t.left.alive {
      var i :| 0 <= i < |s.toLeft| && s.toLeft[i].Close?;
      if action.AReceive? {
        assert i > 0;
        assert t.toLeft[i - 1].Close?;
      }
    }
  }

  lemma {:induction false} ToldSoFar(s: System, steps: seq<Step>)
    requires Inv(s) && Backlogged(s.left) && Backlogged(s.right)
    requires Told(s.left, s.toRight, s.right) && Told(s.right, s.toLeft, s.left)
    ensures var t := Run(s, steps); Told(t.left, t.toRight, t.right) && Told(t.right, t.toLeft, t.left)
    decreases |steps|
  {
    if steps != [] {
      var u := if steps[0].onLeft then s else Mirror(s);
      StepTells(u, steps[0].action);
      StepKeepsBacklog(u, steps[0].action);
      LeftStepKeepsInv(u, steps[0].action);
      hide LeftStep, Backlogged, Told, EndInv, Flow;
      ToldSoFar(Next(s, steps[0]), steps[1..]);
    }
  }

  /** The end of one side reaches the other: whenever nothing is under way any more, both live or neither does. */
  lemma EndsTogether(left: WorkingLimits, right: WorkingLimits, steps: seq<Step>)
    ensures var s := Run(Start(left, right), steps);
      s.toLeft == [] && s.toRight == [] ==> s.left.alive == s.right.alive
  {
    StartInv(left, right);
    ToldSoFar(Start(left, right), steps);
  }

  /** What each side has said is what its loopback handed over while it lived, in order, read from the steps. */
  lemma SaidIsHandedOver(left: WorkingLimits, right: WorkingLimits, steps: seq<Step>, onLeft: bool)
    ensures Side(Run(Start(left, right), steps), onLeft).said == SaidBy(Start(left, right), steps, onLeft)
  {
    SaidSoFar(Start(left, right), steps, onLeft);
    var said := SaidBy(Start(left, right), steps, onLeft);
    assert [] + said == said;
  }

  // ---------------------------------------------------------------------------
  // Nothing is held back
  // ---------------------------------------------------------------------------

  /** All frames of a message but the last are as long as frames may be, and the last one is not empty unless the
      message is. */
  lemma {:induction false} FramesAreFull(bytes: Bytes, chunkBytes: nat, number: nat)
    requires chunkBytes >= 1
    ensures var frames := Split(bytes, chunkBytes, number);
      && frames != [] && (forall i :: 0 <= i < |frames| - 1 ==> |frames[i].bytes| == chunkBytes)
      && |frames[|frames| - 1].bytes| <= chunkBytes && (bytes != [] ==> frames[|frames| - 1].bytes != [])
    decreases |bytes|
  {
    if |bytes| > chunkBytes {
      FramesAreFull(bytes[chunkBytes..], chunkBytes, number + 1);
    }
  }

  /** In every run a live end keeps a frame waiting only if the next one does not fit the window beside what is
      unacknowledged, so that the window is used as far as it goes. */
  lemma WindowIsUsed(left: WorkingLimits, right: WorkingLimits, steps: seq<Step>, onLeft: bool)
    ensures var p := Side(Run(Start(left, right), steps), onLeft);
      p.alive && p.end.codec.outbound != [] ==>
        p.end.codec.unacked > 0 && p.end.codec.unacked + |p.end.codec.outbound[0].bytes| > p.limits.windowBytes
  {
    ReachedInv(left, right, steps);
    hide Run, Flow, SendInv, Flatten;
  }

  /** A message that is too long leaves nothing behind: the next one is taken for itself. */
  lemma OversizeIsForgotten(s: CodecState, limits: Limits, frame: Frame, next: Frame)
    requires Ingested(s, limits, frame).0.Oversize? && next.fin && |next.bytes| <= limits.messageBytes
    ensures Ingested(Ingested(s, limits, frame).1, limits, next).0 == Complete(next.bytes)
  {
    assert [next.bytes][1..] == [] && Flatten([next.bytes]) == next.bytes + Flatten([]);
    assert [] + [next.bytes] == [next.bytes];
  }
}
