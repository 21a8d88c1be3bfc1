/** How a document session saves: the persist loop, `flush`, and the save acknowledgements that wait for it. */
module Persistence {
  import opened Wrappers

  // A document is the sequence of edits made to it. One step is the code between two awaits; the end of the
  // loop, its `finally` and the flushes that resume there are one step. Nobody else writes the file.

  type Edit = nat
  type Text = seq<Edit>

  /** Where the persist loop is suspended: reading the file, writing it, writing the state snapshot after the
      file, or writing the state snapshot after taking over a changed file. */
  datatype Phase =
    | Idle
    | Reading(content: Text)
    | Writing(content: Text)
    | Snapshotting(content: Text)
    | Reconciling

  /** A flush that waits for the loop: the document when it was called, whether an acknowledgement hangs on
      it, and whether it has asked for a retry already. */
  datatype Waiter = Waiter(needs: Text, isSave: bool, retried: bool)

  /** `deferred` are saves whose flush failed; `resolved` are flushes that returned; `acked` are saves that
      were acknowledged. Each is kept with the document it answers for. `poll` is what the session's own check of
      the file has read and not compared yet. */
  datatype State = State(
    doc: Text,
    disk: Text,
    lastWritten: Text,
    requested: bool,
    phase: Phase,
    loopFailed: bool,
    failed: bool,
    waiters: map<nat, Waiter>,
    deferred: map<nat, Text>,
    resolved: map<nat, Text>,
    acked: map<nat, Text>,
    nextId: nat,
    poll: Option<Text>)

  function Opened(content: Text): State {
    State(content, content, content, false, Idle, false, false, map[], map[], map[], map[], 0, None)
  }

  // ---------------------------------------------------------------------------
  // The loop
  // ---------------------------------------------------------------------------

  /** `requestPersist`: a new loop runs up to its first read at once. */
  function Requested(s: State): State {
    if s.phase == Idle then s.(phase := Reading(s.doc), requested := false) else s.(requested := true)
  }

  function Edited(s: State, edit: Edit): State { Requested(s.(doc := s.doc + [edit])) }

  /** The next turn of the loop, or its end. */
  function LoopTurn(s: State): State {
    if s.requested then s.(requested := false, phase := Reading(s.doc)) else LoopEnd(s)
  }

  function Retrying(s: State): set<nat> { set id | id in s.waiters && !s.waiters[id].retried && s.failed }

  /** The promise of the loop settles. If it is rejected, every waiting flush fails, and a save's
      acknowledgement is put off. Otherwise a flush that finds a failure asks for another persist, once, and
      every other flush returns. */
  function LoopEnd(s: State): State {
    if s.loopFailed then
      s.(phase := Idle, loopFailed := false, waiters := map[],
         deferred := s.deferred + map id | id in s.waiters && s.waiters[id].isSave :: s.waiters[id].needs)
    else
      var retrying := Retrying(s);
      var done := map id | id in s.waiters && id !in retrying :: s.waiters[id].needs;
      var t := s.(phase := Idle, resolved := s.resolved + done,
                  acked := s.acked + map id | id in done && s.waiters[id].isSave :: done[id],
                  waiters := map id | id in retrying :: s.waiters[id].(retried := true));
      if retrying == {} then t else t.(phase := Reading(t.doc), requested := |retrying| > 1)
  }

  function Failed(s: State): State { LoopTurn(s.(failed := true, loopFailed := true)) }

  /** The file was read. If it is not what was written last, it is taken for a change from outside: the
      document is made to read like the file. */
  function ReadReturned(s: State): State
    requires s.phase.Reading?
  {
    if s.disk != s.lastWritten then s.(doc := s.disk, lastWritten := s.disk, phase := Reconciling)
    else s.(phase := Writing(s.phase.content))
  }

  function WriteReturned(s: State): State
    requires s.phase.Writing?
  {
    s.(disk := s.phase.content, phase := Snapshotting(s.phase.content))
  }

  /** The write is complete: `content-persisted` is emitted, which sends the acknowledgements put off. */
  function Persisted(s: State): State
    requires s.phase.Snapshotting?
  {
    LoopTurn(s.(lastWritten := s.phase.content, failed := false, acked := s.acked + s.deferred, deferred := map[]))
  }

  // ---------------------------------------------------------------------------
  // The session's own check of the file
  // ---------------------------------------------------------------------------

  function PollRead(s: State): State { if s.poll.Some? then s else s.(poll := Some(s.disk)) }

  /** Neither what was written last nor what is being written now. */
  predicate LooksForeign(s: State, content: Text) {
    content != s.lastWritten && !((s.phase.Writing? || s.phase.Snapshotting?) && s.phase.content == content)
  }

  /** What the check has read is compared only now, and taken over if it looks foreign. */
  function PollCompared(s: State): State
    requires s.poll.Some?
  {
    if LooksForeign(s, s.poll.value) then s.(doc := s.poll.value, lastWritten := s.poll.value, poll := None)
    else s.(poll := None)
  }

  // ---------------------------------------------------------------------------
  // Flushes and saves
  // ---------------------------------------------------------------------------

  function Flushed(s: State, isSave: bool): State {
    var id := s.nextId;
    var t := s.(nextId := id + 1);
    if s.phase != Idle then t.(waiters := s.waiters[id := Waiter(s.doc, isSave, false)])
    else if s.failed then Requested(t.(waiters := s.waiters[id := Waiter(s.doc, isSave, true)]))
    else t.(resolved := s.resolved[id := s.doc], acked := if isSave then s.acked[id := s.doc] else s.acked)
  }

  /** An update that asks for an acknowledgement is applied and flushed. */
  function Saved(s: State, edit: Edit): State { Flushed(Edited(s, edit), true) }

  datatype Step =
    | Edits(edit: Edit)
    | Saves(edit: Edit)
    | Flushes
    | ReadReturns(ok: bool)
    | WriteReturns(ok: bool)
    | SnapshotReturns(ok: bool)
    | ReconcileReturns(ok: bool)
    | PollReads
    | PollCompares
    | Disconnects(ids: set<nat>)

  predicate Possible(s: State, step: Step) {
    match step
    case ReadReturns(_) => s.phase.Reading?
    case WriteReturns(_) => s.phase.Writing?
    case SnapshotReturns(_) => s.phase.Snapshotting?
    case ReconcileReturns(_) => s.phase.Reconciling?
    case PollCompares => s.poll.Some?
    case _ => true
  }

  function Next(s: State, step: Step): State
    requires Possible(s, step)
  {
    match step
    case Edits(edit) => Edited(s, edit)
    case Saves(edit) => Saved(s, edit)
    case Flushes => Flushed(s, false)
    case ReadReturns(ok) => if ok then ReadReturned(s) else Failed(s)
    case WriteReturns(ok) => if ok then WriteReturned(s) else Failed(s)
    case SnapshotReturns(ok) => if ok then Persisted(s) else Failed(s)
    case ReconcileReturns(ok) => if ok then LoopTurn(s) else Failed(s)
    case PollReads => PollRead(s)
    case PollCompares => PollCompared(s)
    case Disconnects(ids) => s.(deferred := s.deferred - ids)
  }

  predicate Happens(s: State, steps: seq<Step>)
    decreases |steps|
  {
    steps == [] || (Possible(s, steps[0]) && Happens(Next(s, steps[0]), steps[1..]))
  }

  function Run(s: State, steps: seq<Step>): State
    requires Happens(s, steps)
    decreases |steps|
  {
    if steps == [] then s else Run(Next(s, steps[0]), steps[1..])
  }

  // ---------------------------------------------------------------------------
  // What every run keeps
  // ---------------------------------------------------------------------------

  /** A read of the file, by the loop or by the check, that takes the session's own write for a change from
      outside and drops what was typed since. */
  predicate Lossy(s: State, step: Step) {
    || (step == ReadReturns(true) && s.disk != s.lastWritten && s.doc != s.disk)
    || (step == PollCompares && s.poll.Some? && LooksForeign(s, s.poll.value) && s.doc != s.poll.value)
  }

  predicate Lossless(s: State, steps: seq<Step>)
    requires Happens(s, steps)
    decreases |steps|
  {
    steps == [] || (!Lossy(s, steps[0]) && Lossless(Next(s, steps[0]), steps[1..]))
  }

  ghost predicate AllWithin(needs: map<nat, Text>, text: Text) { forall id :: id in needs ==> needs[id] <= text }

  ghost predicate WaitersWithin(waiters: map<nat, Waiter>, text: Text) {
    forall id :: id in waiters ==> waiters[id].needs <= text
  }

  /** A captured content is the document of its time, so it lacks nothing unless a new persist is requested. */
  ghost predicate PhaseInv(s: State) {
    match s.phase
    case Idle => !s.requested && !s.loopFailed && s.waiters == map[] && (!s.failed ==> s.disk == s.doc)
    case Reading(c) => s.disk <= c <= s.doc && (!s.requested ==> c == s.doc) && AllWithin(s.deferred, c)
    case Writing(c) => s.disk <= c <= s.doc && (!s.requested ==> c == s.doc) && AllWithin(s.deferred, c)
    case Snapshotting(c) => s.disk == c <= s.doc && (!s.requested ==> c == s.doc) && AllWithin(s.deferred, c)
    case Reconciling => !s.requested ==> s.disk == s.doc
  }

  ghost predicate Inv(s: State) {
    && s.disk <= s.doc && PhaseInv(s)
    && WaitersWithin(s.waiters, s.doc) && AllWithin(s.deferred, s.doc)
    && AllWithin(s.resolved, s.disk) && AllWithin(s.acked, s.disk)
    && PollInv(s)
  }

  ghost predicate PollInv(s: State) { s.poll.Some? ==> s.poll.value <= s.disk }

  /** A rejected loop: what waited is put off or fails. */
  lemma RejectionKeepsInv(s: State)
    requires s.disk <= s.doc && !s.requested && s.loopFailed && (s.disk == s.doc || s.failed)
    requires WaitersWithin(s.waiters, s.doc) && AllWithin(s.deferred, s.doc)
    requires AllWithin(s.resolved, s.disk) && AllWithin(s.acked, s.disk) && PollInv(s)
    ensures Inv(LoopEnd(s))
  {
    assert AllWithin(LoopEnd(s).deferred, s.doc);
    hide AllWithin;
  }

  /** A loop that ends well: everything is on disk. */
  lemma ResolutionKeepsInv(s: State)
    requires s.disk == s.doc && !s.requested && !s.loopFailed
    requires WaitersWithin(s.waiters, s.doc) && AllWithin(s.deferred, s.doc)
    requires AllWithin(s.resolved, s.disk) && AllWithin(s.acked, s.disk) && PollInv(s)
    ensures Inv(LoopEnd(s))
  {
    var t := LoopEnd(s);
    assert WaitersWithin(t.waiters, s.doc) && AllWithin(t.resolved, s.disk) && AllWithin(t.acked, s.disk);
    hide AllWithin, WaitersWithin;
  }

  /** The loop may end: if the last turn did not fail, everything is on disk. */
  lemma LoopEndKeepsInv(s: State)
    requires s.disk <= s.doc && !s.requested
    requires WaitersWithin(s.waiters, s.doc) && AllWithin(s.deferred, s.doc)
    requires AllWithin(s.resolved, s.disk) && AllWithin(s.acked, s.disk) && PollInv(s)
    requires s.disk == s.doc || (s.failed && s.loopFailed)
    ensures Inv(LoopEnd(s))
  {
    hide AllWithin, WaitersWithin, LoopEnd, Inv;
    if s.loopFailed {
      RejectionKeepsInv(s);
    } else {
      ResolutionKeepsInv(s);
    }
  }

  lemma LoopTurnKeepsInv(s: State)
    requires s.disk <= s.doc
    requires WaitersWithin(s.waiters, s.doc) && AllWithin(s.deferred, s.doc)
    requires AllWithin(s.resolved, s.disk) && AllWithin(s.acked, s.disk) && PollInv(s)
    requires s.requested || s.disk == s.doc || (s.failed && s.loopFailed)
    ensures Inv(LoopTurn(s))
  {
    if !s.requested {
      LoopEndKeepsInv(s);
    }
    hide LoopEnd;
  }

  lemma GrownWithin(needs: map<nat, Text>, text: Text, longer: Text)
    requires AllWithin(needs, text) && text <= longer
    ensures AllWithin(needs, longer)
  {
  }

  lemma EditKeepsInv(s: State, edit: Edit)
    requires Inv(s)
    ensures Inv(Edited(s, edit))
  {
    GrownWithin(s.deferred, s.doc, s.doc + [edit]);
    assert WaitersWithin(s.waiters, s.doc + [edit]);
    hide AllWithin, WaitersWithin;
  }

  lemma OneMoreWithin(needs: map<nat, Text>, id: nat, need: Text, text: Text)
    requires AllWithin(needs, text) && need <= text
    ensures AllWithin(needs[id := need], text)
  {
  }

  lemma FlushKeepsInv(s: State, isSave: bool)
    requires Inv(s)
    ensures Inv(Flushed(s, isSave))
  {
    if s.phase == Idle && !s.failed {
      OneMoreWithin(s.resolved, s.nextId, s.doc, s.disk);
      OneMoreWithin(s.acked, s.nextId, s.doc, s.disk);
    }
    hide AllWithin;
  }

  lemma PersistedKeepsInv(s: State)
    requires Inv(s) && s.phase.Snapshotting?
    ensures Inv(Persisted(s))
  {
    LoopTurnKeepsInv(s.(lastWritten := s.phase.content, failed := false, acked := s.acked + s.deferred, deferred := map[]));
    hide LoopTurn;
  }

  lemma WriteKeepsInv(s: State)
    requires Inv(s) && s.phase.Writing?
    ensures Inv(WriteReturned(s))
  {
    GrownWithin(s.resolved, s.disk, s.phase.content);
    GrownWithin(s.acked, s.disk, s.phase.content);
    hide AllWithin;
  }

  lemma FailureKeepsInv(s: State)
    requires Inv(s) && s.phase != Idle
    ensures Inv(Failed(s))
  {
    LoopTurnKeepsInv(s.(failed := true, loopFailed := true));
    hide LoopTurn, PhaseInv, AllWithin, WaitersWithin;
  }

  lemma ReadKeepsInv(s: State)
    requires Inv(s) && s.phase.Reading? && !Lossy(s, ReadReturns(true))
    ensures Inv(ReadReturned(s))
  {
    var t := ReadReturned(s);
    assert t == s.(lastWritten := t.lastWritten, phase := t.phase);
    assert t.phase == Writing(s.phase.content) || (t.phase == Reconciling && s.doc == s.disk);
    hide AllWithin, WaitersWithin, ReadReturned, Lossy, PollInv;
  }

  lemma PollKeepsInv(s: State)
    requires Inv(s)
    ensures Inv(PollRead(s))
    ensures s.poll.Some? && !Lossy(s, PollCompares) ==> Inv(PollCompared(s))
  {
    hide AllWithin, WaitersWithin;
  }

  lemma ReconcileKeepsInv(s: State)
    requires Inv(s) && s.phase.Reconciling?
    ensures Inv(LoopTurn(s))
  {
    LoopTurnKeepsInv(s);
    hide LoopTurn, AllWithin, WaitersWithin;
  }

  lemma DisconnectKeepsInv(s: State, ids: set<nat>)
    requires Inv(s)
    ensures Inv(s.(deferred := s.deferred - ids))
  {
    assert forall text :: AllWithin(s.deferred, text) ==> AllWithin(s.deferred - ids, text);
    hide AllWithin, WaitersWithin;
  }

  lemma StepKeepsInv(s: State, step: Step)
    requires Inv(s) && Possible(s, step) && !Lossy(s, step)
    ensures Inv(Next(s, step))
  {
    hide Inv, Edited, Flushed, WriteReturned, ReadReturned, Persisted, LoopTurn, Failed, PollRead, PollCompared, Lossy;
    match step
    case Edits(edit) => EditKeepsInv(s, edit);
    case Saves(edit) =>
      EditKeepsInv(s, edit);
      FlushKeepsInv(Edited(s, edit), true);
    case Flushes => FlushKeepsInv(s, false);
    case ReadReturns(ok) => if ok { ReadKeepsInv(s); } else { FailureKeepsInv(s); }
    case WriteReturns(ok) => if ok { WriteKeepsInv(s); } else { FailureKeepsInv(s); }
    case SnapshotReturns(ok) => if ok { PersistedKeepsInv(s); } else { FailureKeepsInv(s); }
    case ReconcileReturns(ok) => if ok { ReconcileKeepsInv(s); } else { FailureKeepsInv(s); }
    case PollReads => PollKeepsInv(s);
    case PollCompares => PollKeepsInv(s);
    case Disconnects(ids) => DisconnectKeepsInv(s, ids);
  }

  lemma {:induction false} RunKeepsInv(s: State, steps: seq<Step>)
    requires Inv(s) && Happens(s, steps) && Lossless(s, steps)
    ensures Inv(Run(s, steps))
    decreases |steps|
  {
    if steps != [] {
      StepKeepsInv(s, steps[0]);
      RunKeepsInv(Next(s, steps[0]), steps[1..]);
    }
  }

  // ---------------------------------------------------------------------------
  // Guarantees
  // ---------------------------------------------------------------------------

  /** Coalescing loses nothing. In every run without a lossy read the file is always an earlier state of the
      document; it is the document itself whenever no persist is running and none has failed. A flush
      returns, and a save is acknowledged at once or later, only when the file holds every edit that was
      made before the call. */
  lemma NothingIsLost(content: Text, steps: seq<Step>)
    requires Happens(Opened(content), steps) && Lossless(Opened(content), steps)
    ensures var s := Run(Opened(content), steps);
      && s.disk <= s.doc
      && (s.phase == Idle && !s.failed ==> s.disk == s.doc)
      && (forall id :: id in s.resolved ==> s.resolved[id] <= s.disk)
      && (forall id :: id in s.acked ==> s.acked[id] <= s.disk)
      && (s.phase == Idle ==> s.waiters == map[])
  {
    RunKeepsInv(Opened(content), steps);
    hide Run, Lossless, Happens;
  }

  lemma LoopKeepsDocument(s: State)
    ensures LoopTurn(s).doc == s.doc && LoopTurn(s).disk == s.disk && LoopTurn(s).lastWritten == s.lastWritten
  {
    hide Retrying;
  }

  lemma LoopStepsKeepDocument(s: State, step: Step)
    requires Possible(s, step) && !step.Edits? && !step.Saves? && step != ReadReturns(true) && step != PollCompares
    ensures Next(s, step).doc == s.doc
  {
    hide LoopTurn;
    LoopKeepsDocument(s.(failed := true, loopFailed := true));
    if step.ReconcileReturns? {
      LoopKeepsDocument(s);
    } else if step.SnapshotReturns? {
      LoopKeepsDocument(s.(lastWritten := s.phase.content, failed := false, acked := s.acked + s.deferred, deferred := map[]));
    }
  }

  /** What takes over the document is an earlier state of it, so it only keeps it by being the same. */
  lemma EarlierIsSameOrShorter(earlier: Text, later: Text)
    requires earlier <= later
    ensures later <= earlier <==> later == earlier
  {
  }

  /** An edit leaves the document exactly at a lossy read. */
  lemma EditsGoExactlyAtLossyReads(s: State, step: Step)
    requires Inv(s) && Possible(s, step)
    ensures s.doc <= Next(s, step).doc <==> !Lossy(s, step)
  {
    hide PhaseInv, AllWithin, WaitersWithin, LoopTurn, Flushed, Requested;
    if step.Edits? || step.Saves? {
      RequestLeavesTheFile(s.(doc := s.doc + [step.edit]));
      FlushLeavesTheFile(Edited(s, step.edit), true);
      assert Next(s, step).doc == s.doc + [step.edit];
    } else if step == ReadReturns(true) {
      EarlierIsSameOrShorter(s.disk, s.doc);
    } else if step == PollCompares {
      EarlierIsSameOrShorter(s.poll.value, s.doc);
    } else {
      LoopStepsKeepDocument(s, step);
      hide Next;
    }
  }

  ghost predicate NeverShrinks(s: State, steps: seq<Step>)
    requires Happens(s, steps)
    decreases |steps|
  {
    steps == [] || (s.doc <= Next(s, steps[0]).doc && NeverShrinks(Next(s, steps[0]), steps[1..]))
  }

  /** So the document keeps every edit through a run if and only if the run has no lossy read. */
  lemma {:induction false} RunsKeepEditsIffLossless(s: State, steps: seq<Step>)
    requires Inv(s) && Happens(s, steps)
    ensures NeverShrinks(s, steps) <==> Lossless(s, steps)
    decreases |steps|
  {
    if steps != [] {
      EditsGoExactlyAtLossyReads(s, steps[0]);
      if !Lossy(s, steps[0]) {
        StepKeepsInv(s, steps[0]);
        RunsKeepEditsIffLossless(Next(s, steps[0]), steps[1..]);
      }
    }
  }

  predicate SnapshotsSucceed(steps: seq<Step>) { forall i :: 0 <= i < |steps| ==> steps[i] != SnapshotReturns(false) }

  /** No check compares what it read before the file was written anew. */
  predicate PollsAreFresh(s: State, steps: seq<Step>)
    requires Happens(s, steps)
    decreases |steps|
  {
    steps == [] || ((steps[0] == PollCompares ==> s.poll == Some(s.disk)) && PollsAreFresh(Next(s, steps[0]), steps[1..]))
  }

  ghost predicate Synchronous(s: State) { s.disk == s.lastWritten || s.phase.Snapshotting? }

  ghost predicate SameFile(s: State, t: State) {
    t.disk == s.disk && t.lastWritten == s.lastWritten && (s.phase.Snapshotting? ==> t.phase == s.phase)
  }

  lemma RequestLeavesTheFile(s: State)
    ensures SameFile(s, Requested(s)) && Requested(s).doc == s.doc
  {
  }

  lemma FlushLeavesTheFile(s: State, isSave: bool)
    ensures SameFile(s, Flushed(s, isSave)) && Flushed(s, isSave).doc == s.doc
  {
    if s.phase == Idle && s.failed {
      RequestLeavesTheFile(s.(nextId := s.nextId + 1, waiters := s.waiters[s.nextId := Waiter(s.doc, isSave, true)]));
    }
    hide Requested;
  }

  lemma ClientsLeaveTheFile(s: State, step: Step)
    requires step.Edits? || step.Saves? || step.Flushes? || step.Disconnects?
    ensures SameFile(s, Next(s, step))
  {
    if step.Edits? || step.Saves? {
      RequestLeavesTheFile(s.(doc := s.doc + [step.edit]));
      FlushLeavesTheFile(Edited(s, step.edit), true);
    } else if step.Flushes? {
      FlushLeavesTheFile(s, false);
    }
    hide Requested, Flushed;
  }

  lemma StepStaysSynchronous(s: State, step: Step)
    requires Synchronous(s) && Possible(s, step) && step != SnapshotReturns(false)
    requires s.phase.Snapshotting? ==> s.phase.content == s.disk
    requires step == PollCompares ==> s.poll == Some(s.disk)
    ensures Synchronous(Next(s, step)) && !Lossy(s, step)
  {
    hide LoopTurn;
    if step.Edits? || step.Saves? || step.Flushes? || step.Disconnects? {
      ClientsLeaveTheFile(s, step);
      hide Next;
    } else if step.SnapshotReturns? {
      LoopKeepsDocument(s.(lastWritten := s.phase.content, failed := false, acked := s.acked + s.deferred, deferred := map[]));
    } else if !step.PollReads? && !step.PollCompares? {
      LoopKeepsDocument(s);
      LoopKeepsDocument(s.(failed := true, loopFailed := true));
    }
  }

  /** There are two causes of a lossy read: a state snapshot that failed after its file was written, and a check
      that compares what it read before the file was written anew. */
  lemma {:induction false} LossyReadsHaveTwoCauses(s: State, steps: seq<Step>)
    requires Synchronous(s) && Inv(s) && Happens(s, steps) && SnapshotsSucceed(steps) && PollsAreFresh(s, steps)
    ensures Lossless(s, steps)
    decreases |steps|
  {
    if steps != [] {
      StepStaysSynchronous(s, steps[0]);
      StepKeepsInv(s, steps[0]);
      assert SnapshotsSucceed(steps[1..]);
      LossyReadsHaveTwoCauses(Next(s, steps[0]), steps[1..]);
    }
  }

  // ---------------------------------------------------------------------------
  // Where the guarantee ends
  // ---------------------------------------------------------------------------

  lemma {:induction false} RunsFurther(s: State, steps: seq<Step>, step: Step)
    requires Happens(s, steps) && Possible(Run(s, steps), step)
    ensures Happens(s, steps + [step]) && Run(s, steps + [step]) == Next(Run(s, steps), step)
    decreases |steps|
  {
    if steps == [] {
      assert (steps + [step])[1..] == [];
    } else {
      assert (steps + [step])[1..] == steps[1..] + [step];
      RunsFurther(Next(s, steps[0]), steps[1..], step);
    }
  }

  lemma {:induction false} LosslessFurther(s: State, steps: seq<Step>, step: Step)
    requires Happens(s, steps) && Lossless(s, steps) && Possible(Run(s, steps), step) && !Lossy(Run(s, steps), step)
    ensures Happens(s, steps + [step]) && Lossless(s, steps + [step])
    decreases |steps|
  {
    RunsFurther(s, steps, step);
    if steps == [] {
      assert (steps + [step])[1..] == [];
    } else {
      assert (steps + [step])[1..] == steps[1..] + [step];
      LosslessFurther(Next(s, steps[0]), steps[1..], step);
    }
  }

  /** After the dropped edit: the file has edit 1, and the save of edit 2 waits for the next write. */
  const Dropped: State := State([1], [1], [1], false, Idle, false, true, map[], map[0 := [1, 2]], map[], map[], 1, None)

  const Before: State := State([1], [1], [], false, Snapshotting([1]), false, false, map[], map[], map[], map[], 0, None)

  lemma ReachBefore() returns (steps: seq<Step>)
    ensures Happens(Opened([]), steps) && Run(Opened([]), steps) == Before
  {
    var s := Opened([]);
    assert s.doc + [1] == [1];
    RunsFurther(s, [], Edits(1));
    assert Run(s, [] + [Edits(1)]) == s.(doc := [1], phase := Reading([1]));
    RunsFurther(s, [] + [Edits(1)], ReadReturns(true));
    hide Run, Happens;
    RunsFurther(s, [] + [Edits(1)] + [ReadReturns(true)], WriteReturns(true));
    steps := [] + [Edits(1)] + [ReadReturns(true)] + [WriteReturns(true)];
  }

  lemma DropEdit(steps: seq<Step>) returns (more: seq<Step>)
    requires Happens(Opened([]), steps) && Run(Opened([]), steps) == Before
    ensures Happens(Opened([]), more) && Run(Opened([]), more) == Dropped
  {
    var s := Opened([]);
    RunsFurther(s, steps, Saves(2));
    more := steps + [Saves(2)];
    assert Run(s, more).doc == [1, 2];
    RunsFurther(s, more, SnapshotReturns(false));
    more := more + [SnapshotReturns(false)];
    hide Run, Happens;
    RunsFurther(s, more, ReadReturns(true));
    more := more + [ReadReturns(true)];
    RunsFurther(s, more, ReconcileReturns(true));
    more := more + [ReconcileReturns(true)];
    assert Run(s, more).deferred == map[0 := [1, 2]];
  }

  lemma WriteAnother(steps: seq<Step>) returns (more: seq<Step>)
    requires Happens(Opened([]), steps) && Run(Opened([]), steps) == Dropped
    ensures Happens(Opened([]), more)
    ensures Run(Opened([]), more) ==
      Dropped.(doc := [1, 3], disk := [1, 3], lastWritten := [1, 3], failed := false, deferred := map[], acked := map[0 := [1, 2]])
  {
    var s := Opened([]);
    hide Run, Happens;
    assert Dropped.doc + [3] == [1, 3];
    RunsFurther(s, steps, Edits(3));
    more := steps + [Edits(3)];
    assert Run(s, more) == Dropped.(doc := [1, 3], phase := Reading([1, 3]));
    RunsFurther(s, more, ReadReturns(true));
    more := more + [ReadReturns(true)];
    RunsFurther(s, more, WriteReturns(true));
    more := more + [WriteReturns(true)];
    RunsFurther(s, more, SnapshotReturns(true));
    more := more + [SnapshotReturns(true)];
  }

  /** A save is acknowledged although its edit is nowhere. The first write reaches the file, but its state
      snapshot fails while edit 2 is made; the next read takes the file for a change from outside and drops
      edit 2. Its acknowledgement was put off, and the write of edit 3 sends it. */
  lemma AcknowledgedEditIsLost() returns (steps: seq<Step>)
    ensures Happens(Opened([]), steps)
    ensures var s := Run(Opened([]), steps);
      0 in s.acked && 2 in s.acked[0] && 2 !in s.disk && 2 !in s.doc && s.phase == Idle && !s.failed
  {
    steps := ReachBefore();
    steps := DropEdit(steps);
    steps := WriteAnother(steps);
    hide Run, Happens;
  }

  /** Everything is on disk, nothing runs, nothing has failed, and yet a save is not acknowledged. */
  ghost predicate Stuck(s: State, id: nat) {
    s.phase == Idle && !s.failed && s.disk == s.doc && id in s.deferred && s.deferred[id] <= s.disk
  }

  const Retried: State :=
    State([1, 2], [], [], false, Reading([1, 2]), true, true, map[0 := Waiter([1], true, false)], map[], map[], map[], 1, None)

  lemma ReachRetried() returns (steps: seq<Step>)
    ensures Happens(Opened([]), steps) && Run(Opened([]), steps) == Retried && Lossless(Opened([]), steps)
  {
    var s := Opened([]);
    assert s.doc + [1] == [1] && [1] + [2] == [1, 2];
    LosslessFurther(s, [], Saves(1));
    RunsFurther(s, [], Saves(1));
    LosslessFurther(s, [] + [Saves(1)], Edits(2));
    RunsFurther(s, [] + [Saves(1)], Edits(2));
    assert Run(s, [] + [Saves(1)] + [Edits(2)]).doc == [1, 2];
    assert Run(s, [] + [Saves(1)] + [Edits(2)]).waiters == map[0 := Waiter([1], true, false)];
    hide Run, Happens, Lossless;
    LosslessFurther(s, [] + [Saves(1)] + [Edits(2)], ReadReturns(false));
    RunsFurther(s, [] + [Saves(1)] + [Edits(2)], ReadReturns(false));
    steps := [] + [Saves(1)] + [Edits(2)] + [ReadReturns(false)];
  }

  /** How a save gets there: a persist fails, and a later turn of the same loop succeeds. Its
      `content-persisted` comes before the loop is rejected, and only the rejection puts the save off. */
  lemma SavedButNotAcknowledged() returns (steps: seq<Step>)
    ensures Happens(Opened([]), steps) && Lossless(Opened([]), steps)
    ensures Stuck(Run(Opened([]), steps), 0)
  {
    var s := Opened([]);
    steps := ReachRetried();
    hide Run, Happens, Lossless;
    LosslessFurther(s, steps, ReadReturns(true));
    RunsFurther(s, steps, ReadReturns(true));
    steps := steps + [ReadReturns(true)];
    LosslessFurther(s, steps, WriteReturns(true));
    RunsFurther(s, steps, WriteReturns(true));
    steps := steps + [WriteReturns(true)];
    LosslessFurther(s, steps, SnapshotReturns(true));
    RunsFurther(s, steps, SnapshotReturns(true));
    steps := steps + [SnapshotReturns(true)];
  }

  /** A flush that waits for a save fails because its loop failed, although its last turn wrote the file. */
  predicate PutsOffForGood(s: State, step: Step, id: nat) {
    step == SnapshotReturns(true) && !s.requested && s.loopFailed && id in s.waiters && s.waiters[id].isSave
  }

  predicate Untouched(step: Step, id: nat) {
    !step.Edits? && !step.Saves? && !(step.Disconnects? && id in step.ids)
  }

  /** While nothing has failed the file is what was written last; a foreign file means a failure. */
  ghost predicate Settled(s: State) {
    && (!s.failed && !s.phase.Snapshotting? ==> s.disk == s.lastWritten)
    && (s.phase.Reconciling? ==> s.failed)
  }

  lemma LoopTurnStaysSettled(s: State)
    requires !s.failed ==> s.disk == s.lastWritten
    ensures Settled(LoopTurn(s)) && LoopTurn(s).failed == s.failed
  {
    hide Retrying;
  }

  lemma FlushStaysSettled(s: State, isSave: bool)
    requires Settled(s)
    ensures Settled(Flushed(s, isSave))
  {
  }

  lemma StaysSettled(s: State, step: Step)
    requires Inv(s) && Settled(s) && Possible(s, step) && !Lossy(s, step)
    ensures Settled(Next(s, step))
  {
    hide LoopTurn, AllWithin, WaitersWithin, Flushed;
    match step
    case Edits(_) =>
    case Saves(edit) => FlushStaysSettled(Edited(s, edit), true);
    case Flushes => FlushStaysSettled(s, false);
    case SnapshotReturns(ok) =>
      if ok {
        LoopTurnStaysSettled(s.(lastWritten := s.phase.content, failed := false, acked := s.acked + s.deferred, deferred := map[]));
      } else {
        LoopTurnStaysSettled(s.(failed := true, loopFailed := true));
      }
    case ReconcileReturns(ok) =>
      LoopTurnStaysSettled(s);
      LoopTurnStaysSettled(s.(failed := true, loopFailed := true));
    case ReadReturns(ok) => LoopTurnStaysSettled(s.(failed := true, loopFailed := true));
    case WriteReturns(ok) => LoopTurnStaysSettled(s.(failed := true, loopFailed := true));
    case _ =>
  }

  /** A loop ends idle and without a failure only after its last write was complete. */
  lemma LoopTurnStuck(s: State, id: nat)
    requires s.requested || s.disk == s.doc || s.failed
    requires WaitersWithin(s.waiters, s.doc)
    ensures Stuck(LoopTurn(s), id) <==>
      !s.requested && !s.failed && s.disk == s.doc
      && (if s.loopFailed then (id in s.waiters && s.waiters[id].isSave) || (id in s.deferred && s.deferred[id] <= s.disk)
          else id in s.deferred && s.deferred[id] <= s.disk)
  {
  }

  lemma ClientStepStuck(s: State, step: Step, id: nat)
    requires Inv(s) && Possible(s, step) && (step.Edits? || step.Saves? || step.Flushes? || step.Disconnects?)
    ensures Stuck(Next(s, step), id) <==> Stuck(s, id) && Untouched(step, id)
  {
    hide AllWithin, WaitersWithin;
  }

  lemma CheckStepStuck(s: State, step: Step, id: nat)
    requires Inv(s) && Settled(s) && Possible(s, step) && !Lossy(s, step) && (step.PollReads? || step.PollCompares?)
    ensures Stuck(Next(s, step), id) <==> Stuck(s, id)
  {
    hide AllWithin, WaitersWithin, PhaseInv;
  }

  lemma LoopStepStuck(s: State, step: Step, id: nat)
    requires Inv(s) && Settled(s) && Possible(s, step)
    requires step.ReadReturns? || step.WriteReturns? || step.SnapshotReturns? || step.ReconcileReturns?
    ensures Stuck(Next(s, step), id) <==> PutsOffForGood(s, step, id)
  {
    hide LoopTurn, AllWithin;
    match step
    case SnapshotReturns(ok) =>
      if ok {
        LoopTurnStuck(s.(lastWritten := s.phase.content, failed := false, acked := s.acked + s.deferred, deferred := map[]), id);
      } else {
        LoopTurnStuck(s.(failed := true, loopFailed := true), id);
      }
    case ReadReturns(ok) => if !ok { LoopTurnStuck(s.(failed := true, loopFailed := true), id); }
    case WriteReturns(ok) => if !ok { LoopTurnStuck(s.(failed := true, loopFailed := true), id); }
    case ReconcileReturns(ok) => LoopTurnStuck(if ok then s else s.(failed := true, loopFailed := true), id);
  }

  /** In a run without lossy reads a save is stuck after a step exactly if it was stuck and nothing touches it,
      or the step is the end of a loop that failed once and then wrote everything. */
  lemma StuckStepIff(s: State, step: Step, id: nat)
    requires Inv(s) && Settled(s) && Possible(s, step) && !Lossy(s, step)
    ensures Stuck(Next(s, step), id) <==> (Stuck(s, id) && Untouched(step, id)) || PutsOffForGood(s, step, id)
  {
    hide Inv, Next;
    match step
    case PollReads => CheckStepStuck(s, step, id);
    case PollCompares => CheckStepStuck(s, step, id);
    case Edits(_) => ClientStepStuck(s, step, id);
    case Saves(_) => ClientStepStuck(s, step, id);
    case Flushes => ClientStepStuck(s, step, id);
    case Disconnects(_) => ClientStepStuck(s, step, id);
    case _ => LoopStepStuck(s, step, id);
  }

  predicate AllUntouched(steps: seq<Step>, id: nat) { forall i :: 0 <= i < |steps| ==> Untouched(steps[i], id) }

  /** Somewhere in the run the save is put off for good, and nothing touches it afterwards. */
  ghost predicate GetsStuck(s: State, steps: seq<Step>, id: nat)
    requires Happens(s, steps)
    decreases |steps|
  {
    steps != [] &&
      ((PutsOffForGood(s, steps[0], id) && AllUntouched(steps[1..], id)) || GetsStuck(Next(s, steps[0]), steps[1..], id))
  }

  lemma {:induction false} StuckRunIff(s: State, steps: seq<Step>, id: nat)
    requires Inv(s) && Settled(s) && Happens(s, steps) && Lossless(s, steps)
    ensures Stuck(Run(s, steps), id) <==> (Stuck(s, id) && AllUntouched(steps, id)) || GetsStuck(s, steps, id)
    decreases |steps|
  {
    if steps != [] {
      var t := Next(s, steps[0]);
      StepKeepsInv(s, steps[0]);
      StaysSettled(s, steps[0]);
      StuckStepIff(s, steps[0], id);
      StuckRunIff(t, steps[1..], id);
      assert AllUntouched(steps, id) <==> Untouched(steps[0], id) && AllUntouched(steps[1..], id) by {
        assert steps == [steps[0]] + steps[1..];
      }
      hide Inv, Settled, Stuck, Lossy, Possible, Next, PutsOffForGood, Untouched, AllUntouched;
    }
  }

  /** When a save on disk is not acknowledged. After any run without lossy reads a save whose edits are on disk
      waits, with nothing running and nothing failed, if and only if somewhere in the run the loop it waited
      for failed in one turn and wrote everything in its last one, and since then nobody has edited the
      document and the client has not gone away. */
  lemma SavesStuckIff(content: Text, steps: seq<Step>, id: nat)
    requires Happens(Opened(content), steps) && Lossless(Opened(content), steps)
    ensures Stuck(Run(Opened(content), steps), id) <==> GetsStuck(Opened(content), steps, id)
  {
    StuckRunIff(Opened(content), steps, id);
    hide Run, GetsStuck, Happens, Lossless, AllUntouched;
  }

  /** The file was read before edit 1 was written, and is not compared yet. */
  const Stale: State := State([1], [1], [1], false, Idle, false, false, map[], map[], map[], map[], 0, Some([]))

  lemma ReachStaleRead() returns (steps: seq<Step>)
    ensures Happens(Opened([]), steps) && SnapshotsSucceed(steps)
    ensures Run(Opened([]), steps) == Opened([]).(doc := [1], phase := Reading([1]), poll := Some([]))
  {
    var s := Opened([]);
    assert s.doc + [1] == [1];
    RunsFurther(s, [], Edits(1));
    assert Run(s, [] + [Edits(1)]) == s.(doc := [1], phase := Reading([1]));
    steps := [] + [Edits(1)];
    hide Run, Happens;
    RunsFurther(s, steps, PollReads);
    steps := steps + [PollReads];
  }

  lemma ReachStale() returns (steps: seq<Step>)
    ensures Happens(Opened([]), steps) && SnapshotsSucceed(steps) && Run(Opened([]), steps) == Stale
  {
    var s := Opened([]);
    steps := ReachStaleRead();
    hide Run, Happens;
    RunsFurther(s, steps, ReadReturns(true));
    steps := steps + [ReadReturns(true)];
    RunsFurther(s, steps, WriteReturns(true));
    steps := steps + [WriteReturns(true)];
    RunsFurther(s, steps, SnapshotReturns(true));
    steps := steps + [SnapshotReturns(true)];
  }

  /** Without any failure, a check can undo an edit that is already in the file: it read the file before the
      write and compares after it. */
  lemma StaleCheckDropsEdit() returns (steps: seq<Step>)
    ensures Happens(Opened([]), steps) && SnapshotsSucceed(steps)
    ensures var s := Run(Opened([]), steps);
      s.phase == Idle && !s.failed && s.disk == [1] && s.doc == []
  {
    steps := ReachStale();
    hide Run, Happens;
    RunsFurther(Opened([]), steps, PollCompares);
    steps := steps + [PollCompares];
  }
}
