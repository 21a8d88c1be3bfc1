/** Every save and every flush is accounted for: what becomes of each one that the steps of a run issue. */
module SaveLedger {
  import opened Wrappers
  import opened Persistence

  /** A call of `flush`, with the document when it was made; a save hangs an acknowledgement on it. */
  datatype Call = Call(needs: Text, isSave: bool)

  /** What the steps of a run say: the calls by their number, whether a turn of the running loop has failed, the calls
      that waited for a loop that ended after a failed turn, and the saves whose client went away after that. */
  datatype Ledger = Ledger(calls: map<nat, Call>, next: nat, turnFailed: bool, rejected: set<nat>, gone: set<nat>)

  const NoCalls := Ledger(map[], 0, false, {}, {})

  predicate FailsTurn(step: Step) {
    step == ReadReturns(false) || step == WriteReturns(false) || step == SnapshotReturns(false) || step == ReconcileReturns(false)
  }

  /** The loop has nothing left to do. */
  predicate EndsLoop(s: State, step: Step) {
    !s.requested && (FailsTurn(step) || step == SnapshotReturns(true) || step == ReconcileReturns(true))
  }

  function Issued(l: Ledger, s: State, step: Step): Ledger {
    match step
    case Saves(edit) => l.(calls := l.calls[l.next := Call(s.doc + [edit], true)], next := l.next + 1)
    case Flushes => l.(calls := l.calls[l.next := Call(s.doc, false)], next := l.next + 1)
    case _ => l
  }

  /** The ledger after a step, told from the step and from who waits. */
  function Entered(l: Ledger, s: State, step: Step): Ledger {
    var failed := l.turnFailed || FailsTurn(step);
    Issued(l, s, step).(
      turnFailed := failed && !EndsLoop(s, step),
      rejected := if failed && EndsLoop(s, step) then l.rejected + s.waiters.Keys else l.rejected,
      gone := if step.Disconnects? then l.gone + s.deferred.Keys * step.ids else l.gone)
  }

  function LedgerAfter(l: Ledger, s: State, steps: seq<Step>): Ledger
    requires Happens(s, steps)
    decreases |steps|
  {
    if steps == [] then l else LedgerAfter(Entered(l, s, steps[0]), Next(s, steps[0]), steps[1..])
  }

  // ---------------------------------------------------------------------------
  // What becomes of a call
  // ---------------------------------------------------------------------------

  predicate Waits(s: State, call: Call, id: nat) {
    id in s.waiters && s.waiters[id].needs == call.needs && s.waiters[id].isSave == call.isSave
  }

  predicate Acknowledged(s: State, call: Call, id: nat) { id in s.acked && s.acked[id] == call.needs }

  /** It has returned, and a save is acknowledged with its document. */
  predicate Returned(s: State, call: Call, id: nat) {
    id in s.resolved && s.resolved[id] == call.needs && (call.isSave ==> Acknowledged(s, call, id))
  }

  /** Its loop failed: a save is put off until it is acknowledged or its client is gone. */
  predicate FailedWithLoop(s: State, l: Ledger, call: Call, id: nat) {
    id in l.rejected
    && (call.isSave ==> (id in s.deferred && s.deferred[id] == call.needs) || Acknowledged(s, call, id) || id in l.gone)
  }

  ghost predicate Accounted(s: State, l: Ledger, id: nat)
    requires id in l.calls
  {
    Waits(s, l.calls[id], id) || Returned(s, l.calls[id], id) || FailedWithLoop(s, l, l.calls[id], id)
  }

  /** Nothing has two outcomes, and nothing is answered that was not asked. */
  ghost predicate Apart(s: State, l: Ledger) {
    && s.nextId == l.next && (forall id: nat :: id in l.calls <==> id < l.next)
    && s.waiters.Keys <= l.calls.Keys && s.resolved.Keys <= l.calls.Keys && l.rejected <= l.calls.Keys
    && s.waiters.Keys !! s.resolved.Keys && s.waiters.Keys !! l.rejected && s.resolved.Keys !! l.rejected
    && s.acked.Keys <= s.resolved.Keys + l.rejected && s.deferred.Keys + l.gone <= l.rejected
    && s.deferred.Keys !! s.acked.Keys && s.deferred.Keys !! l.gone
    && (s.phase == Idle ==> s.waiters == map[])
    && s.loopFailed == l.turnFailed && (s.phase == Idle ==> !s.loopFailed)
  }

  /** Only saves are acknowledged or put off. */
  ghost predicate OnlySaves(s: State, l: Ledger) {
    && (forall id :: id in s.acked ==> id in l.calls && l.calls[id].isSave)
    && (forall id :: id in s.deferred ==> id in l.calls && l.calls[id].isSave)
    && (forall id :: id in s.waiters ==> id in l.calls && Waits(s, l.calls[id], id))
  }

  ghost predicate Kept(s: State, l: Ledger) { Apart(s, l) && OnlySaves(s, l) && forall id :: id in l.calls ==> Accounted(s, l, id) }

  lemma OpenedKept(content: Text)
    ensures Kept(Opened(content), NoCalls)
  {
    var s := Opened(content);
    assert s.waiters.Keys == {} && s.resolved.Keys == {} && s.acked.Keys == {} && s.deferred.Keys == {};
    assert Apart(s, NoCalls);
  }

  // ---------------------------------------------------------------------------
  // Every step
  // ---------------------------------------------------------------------------

  function Turned(l: Ledger, s: State): Ledger {
    if s.requested then l
    else l.(turnFailed := false, rejected := if l.turnFailed then l.rejected + s.waiters.Keys else l.rejected)
  }

  lemma RejectionKeeps(s: State, l: Ledger)
    requires Kept(s, l) && !s.requested && s.loopFailed
    ensures Kept(LoopTurn(s), Turned(l, s))
  {
    var t, m := LoopTurn(s), Turned(l, s);
    forall id | id in m.calls
      ensures Accounted(t, m, id)
    {
      assert Accounted(s, l, id);
    }
  }

  /** Whom a loop that ends well answers: everybody but those who ask for a retry. */
  function Answered(s: State): map<nat, Text> { map id | id in s.waiters && id !in Retrying(s) :: s.waiters[id].needs }

  lemma LoopResolves(s: State)
    requires !s.loopFailed
    ensures var t, done := LoopEnd(s), Answered(s);
      && t == s.(phase := t.phase, requested := t.requested, resolved := s.resolved + done,
                 acked := s.acked + map id | id in done && s.waiters[id].isSave :: done[id],
                 waiters := map id | id in Retrying(s) :: s.waiters[id].(retried := true))
      && (t.phase == Idle || t.phase == Reading(s.doc)) && (t.phase == Idle ==> Retrying(s) == {})
  {
    hide Retrying;
  }

  lemma RetryingWait(s: State)
    ensures Retrying(s) <= s.waiters.Keys
  {
  }

  lemma ResolutionAccounts(s: State, l: Ledger, id: nat)
    requires Kept(s, l) && !s.requested && !s.loopFailed && id in l.calls
    ensures Accounted(LoopEnd(s), l.(turnFailed := false), id)
  {
    LoopResolves(s);
    RetryingWait(s);
    assert Accounted(s, l, id);
    hide LoopEnd, Retrying;
  }

  lemma ResolutionApart(s: State, l: Ledger)
    requires Kept(s, l) && !s.requested && !s.loopFailed
    ensures Apart(LoopEnd(s), l.(turnFailed := false))
  {
    LoopResolves(s);
    RetryingWait(s);
    hide LoopEnd, Retrying, Accounted, OnlySaves;
    var t := LoopEnd(s);
    assert t.phase == Idle ==> t.waiters == map[];
  }

  lemma ResolutionOnlySaves(s: State, l: Ledger)
    requires Kept(s, l) && !s.requested && !s.loopFailed
    ensures OnlySaves(LoopEnd(s), l.(turnFailed := false))
  {
    LoopResolves(s);
    RetryingWait(s);
    hide LoopEnd, Retrying, Accounted, Apart;
  }

  lemma ResolutionKeeps(s: State, l: Ledger)
    requires Kept(s, l) && !s.requested && !s.loopFailed
    ensures Kept(LoopTurn(s), Turned(l, s))
  {
    var t, m := LoopEnd(s), l.(turnFailed := false);
    forall id | id in m.calls
      ensures Accounted(t, m, id)
    {
      ResolutionAccounts(s, l, id);
    }
    ResolutionApart(s, l);
    ResolutionOnlySaves(s, l);
    hide LoopEnd, Accounted, Apart, OnlySaves;
    assert Kept(t, m);
    assert LoopTurn(s) == t;
    assert !l.turnFailed by { assert Apart(s, l); ApartLoop(s, l); }
  }

  lemma ApartLoop(s: State, l: Ledger)
    requires Apart(s, l)
    ensures s.loopFailed == l.turnFailed
  {
  }

  lemma TurnKeeps(s: State, l: Ledger)
    requires Kept(s, l) && s.phase != Idle
    ensures Kept(LoopTurn(s), Turned(l, s))
  {
    if s.requested {
      forall id | id in l.calls
        ensures Accounted(LoopTurn(s), l, id)
      {
        assert Accounted(s, l, id);
      }
    } else if s.loopFailed {
      RejectionKeeps(s, l);
    } else {
      ResolutionKeeps(s, l);
    }
  }

  function Called(l: Ledger, call: Call): Ledger { l.(calls := l.calls[l.next := call], next := l.next + 1) }

  /** A flush waits, or returns at once when nothing runs and nothing has failed. */
  lemma FlushWaitsOrReturns(s: State, isSave: bool)
    ensures var t, id := Flushed(s, isSave), s.nextId;
      && t.nextId == id + 1 && t.deferred == s.deferred && t.loopFailed == s.loopFailed && t.doc == s.doc
      && if s.phase == Idle && !s.failed then
           t.waiters == s.waiters && t.phase == Idle && t.resolved == s.resolved[id := s.doc]
           && t.acked == if isSave then s.acked[id := s.doc] else s.acked
         else
           t.waiters == s.waiters[id := Waiter(s.doc, isSave, s.phase == Idle)] && t.phase != Idle
           && t.resolved == s.resolved && t.acked == s.acked
  {
    if s.phase == Idle && s.failed {
      var t := s.(nextId := s.nextId + 1, waiters := s.waiters[s.nextId := Waiter(s.doc, isSave, true)]);
      assert Flushed(s, isSave) == t.(phase := Reading(t.doc), requested := false);
      hide Requested;
    }
  }

  lemma FlushAccounts(s: State, l: Ledger, isSave: bool, id: nat)
    requires Kept(s, l) && id in Called(l, Call(s.doc, isSave)).calls
    ensures Accounted(Flushed(s, isSave), Called(l, Call(s.doc, isSave)), id)
  {
    FlushWaitsOrReturns(s, isSave);
    if id in l.calls {
      assert Accounted(s, l, id);
    }
    hide Flushed, OnlySaves;
  }

  lemma FlushApart(s: State, l: Ledger, isSave: bool)
    requires Kept(s, l)
    ensures Apart(Flushed(s, isSave), Called(l, Call(s.doc, isSave)))
  {
    FlushWaitsOrReturns(s, isSave);
    hide Accounted, Flushed, OnlySaves;
  }

  lemma FlushOnlySaves(s: State, l: Ledger, isSave: bool)
    requires Kept(s, l)
    ensures OnlySaves(Flushed(s, isSave), Called(l, Call(s.doc, isSave)))
  {
    FlushWaitsOrReturns(s, isSave);
    hide Accounted, Flushed;
  }

  lemma FlushKeeps(s: State, l: Ledger, isSave: bool)
    requires Kept(s, l)
    ensures Kept(Flushed(s, isSave), Called(l, Call(s.doc, isSave)))
  {
    var t, m := Flushed(s, isSave), Called(l, Call(s.doc, isSave));
    forall id | id in m.calls
      ensures Accounted(t, m, id)
    {
      FlushAccounts(s, l, isSave, id);
    }
    FlushApart(s, l, isSave);
    FlushOnlySaves(s, l, isSave);
    hide Accounted, Flushed, Apart, OnlySaves, Called;
  }

  lemma EditChanges(s: State, edit: Edit)
    ensures var t := Edited(s, edit); t == s.(doc := t.doc, phase := t.phase, requested := t.requested) && !t.phase.Idle?
  {
  }

  lemma EditKeeps(s: State, l: Ledger, edit: Edit)
    requires Kept(s, l)
    ensures Kept(Edited(s, edit), l)
  {
    EditChanges(s, edit);
    var t := Edited(s, edit);
    hide Edited;
    forall id | id in l.calls
      ensures Accounted(t, l, id)
    {
      SameCallAccounts(s, t, l, id);
    }
    hide Accounted;
  }

  lemma SameCallAccounts(s: State, t: State, l: Ledger, id: nat)
    requires id in l.calls && Accounted(s, l, id)
    requires t.waiters == s.waiters && t.resolved == s.resolved && t.acked == s.acked && t.deferred == s.deferred
    ensures Accounted(t, l, id)
  {
  }

  lemma SameCallsKeep(s: State, t: State, l: Ledger)
    requires Kept(s, l) && SameCalls(s, t)
    ensures Kept(t, l)
  {
    forall id | id in l.calls
      ensures Accounted(t, l, id)
    {
      SameCallAccounts(s, t, l, id);
    }
    hide Accounted;
  }

  lemma FailureKeeps(s: State, l: Ledger)
    requires Kept(s, l) && s.phase != Idle
    ensures Kept(Persistence.Failed(s), Turned(l.(turnFailed := true), s))
  {
    var t, m := s.(failed := true, loopFailed := true), l.(turnFailed := true);
    forall id | id in l.calls
      ensures Accounted(t, m, id)
    {
      assert Accounted(s, l, id);
    }
    hide LoopTurn, Turned, Accounted;
    TurnKeeps(t, m);
    assert Turned(m, t) == Turned(m, s) by { TurnedBy(m, t, s); }
  }

  lemma TurnedBy(l: Ledger, s: State, t: State)
    requires t.requested == s.requested && t.waiters == s.waiters
    ensures Turned(l, s) == Turned(l, t)
  {
  }

  /** The write is complete: what was put off is acknowledged. */
  lemma PersistKeeps(s: State, l: Ledger)
    requires Kept(s, l) && s.phase.Snapshotting?
    ensures Kept(Persisted(s), Turned(l, s))
  {
    var t := s.(lastWritten := s.phase.content, failed := false, acked := s.acked + s.deferred, deferred := map[]);
    forall id | id in l.calls
      ensures Accounted(t, l, id)
    {
      assert Accounted(s, l, id);
    }
    assert Kept(t, l);
    hide LoopTurn, Turned, Kept;
    TurnKeeps(t, l);
    assert Turned(l, t) == Turned(l, s) by { TurnedBy(l, t, s); }
  }

  lemma DisconnectKeeps(s: State, l: Ledger, ids: set<nat>)
    requires Kept(s, l)
    ensures Kept(s.(deferred := s.deferred - ids), l.(gone := l.gone + s.deferred.Keys * ids))
  {
    var t, m := s.(deferred := s.deferred - ids), l.(gone := l.gone + s.deferred.Keys * ids);
    forall id | id in l.calls
      ensures Accounted(t, m, id)
    {
      assert Accounted(s, l, id);
    }
  }

  lemma StepKeeps(s: State, l: Ledger, step: Step)
    requires Kept(s, l) && Possible(s, step)
    ensures Kept(Next(s, step), Entered(l, s, step))
  {
    var m := Entered(l, s, step);
    hide Kept, LoopTurn, Flushed, Edited, Persistence.Failed, Persisted, PollRead, PollCompared;
    match step
    case Edits(edit) => EditKeeps(s, l, edit); EnteredQuietly(s, l, step);
    case Saves(edit) => SaveKeeps(s, l, edit);
    case Flushes => FlushKeeps(s, l, false); EnteredQuietly(s, l, step);
    case ReadReturns(ok) => if ok { QuietKeeps(s, l, step); } else { FailureKeeps(s, l); EnteredTurned(s, l, step); }
    case WriteReturns(ok) => if ok { QuietKeeps(s, l, step); } else { FailureKeeps(s, l); EnteredTurned(s, l, step); }
    case SnapshotReturns(ok) => if ok { PersistKeeps(s, l); } else { FailureKeeps(s, l); } EnteredTurned(s, l, step);
    case ReconcileReturns(ok) => if ok { TurnKeeps(s, l); } else { FailureKeeps(s, l); } EnteredTurned(s, l, step);
    case PollReads => QuietKeeps(s, l, step);
    case PollCompares => QuietKeeps(s, l, step);
    case Disconnects(ids) => DisconnectKeeps(s, l, ids); EnteredQuietly(s, l, step);
  }

  lemma SaveKeeps(s: State, l: Ledger, edit: Edit)
    requires Kept(s, l)
    ensures Kept(Saved(s, edit), Entered(l, s, Saves(edit)))
  {
    var t := Edited(s, edit);
    assert t.doc == s.doc + [edit];
    hide Kept, Edited, Flushed;
    EditKeeps(s, l, edit);
    FlushKeeps(t, l, true);
    EnteredQuietly(s, l, Saves(edit));
  }

  lemma EnteredQuietly(s: State, l: Ledger, step: Step)
    requires Possible(s, step) && !FailsTurn(step) && step != SnapshotReturns(true) && step != ReconcileReturns(true)
    ensures Entered(l, s, step) == Issued(l, s, step).(gone := if step.Disconnects? then l.gone + s.deferred.Keys * step.ids else l.gone)
  {
  }

  lemma EnteredTurned(s: State, l: Ledger, step: Step)
    requires Possible(s, step) && (FailsTurn(step) || step == SnapshotReturns(true) || step == ReconcileReturns(true))
    ensures Entered(l, s, step) == Turned(l.(turnFailed := l.turnFailed || FailsTurn(step)), s)
  {
  }

  /** The calls and their answers stay. */
  ghost predicate SameCalls(s: State, t: State) {
    && t.waiters == s.waiters && t.resolved == s.resolved && t.acked == s.acked && t.deferred == s.deferred
    && t.nextId == s.nextId && t.loopFailed == s.loopFailed && (t.phase.Idle? <==> s.phase.Idle?)
  }

  lemma ReadChanges(s: State)
    requires s.phase.Reading?
    ensures SameCalls(s, ReadReturned(s))
  {
  }

  lemma WriteChanges(s: State)
    requires s.phase.Writing?
    ensures SameCalls(s, WriteReturned(s))
  {
  }

  lemma CheckChanges(s: State)
    ensures SameCalls(s, PollRead(s)) && (s.poll.Some? ==> SameCalls(s, PollCompared(s)))
  {
    hide LooksForeign;
  }

  lemma QuietKeeps(s: State, l: Ledger, step: Step)
    requires Kept(s, l) && Possible(s, step)
    requires step == ReadReturns(true) || step == WriteReturns(true) || step == PollReads || step == PollCompares
    ensures Kept(Next(s, step), Entered(l, s, step))
  {
    EnteredQuietly(s, l, step);
    if step == ReadReturns(true) {
      ReadChanges(s);
    } else if step == WriteReturns(true) {
      WriteChanges(s);
    } else {
      CheckChanges(s);
    }
    hide Kept, Entered, ReadReturned, WriteReturned, PollRead, PollCompared, SameCalls;
    hide Edited, Saved, Flushed, LoopTurn, Persisted, Persistence.Failed;
    SameCallsKeep(s, Next(s, step), l);
  }

  /** When a loop ends well although an earlier failure stands, each call that waits for it asks for one more try, once;
      the others return. The first of these asks starts a loop, and any more of them ask that loop for another turn. */
  lemma FailureIsRetriedOnce(s: State, step: Step)
    requires Possible(s, step) && EndsLoop(s, step) && !s.loopFailed && !FailsTurn(step)
    ensures var t := Next(s, step);
      var again := set id | id in s.waiters && !s.waiters[id].retried && s.failed && step != SnapshotReturns(true);
      && (forall id :: id in t.waiters <==> id in again) && (forall id :: id in again ==> t.waiters[id] == s.waiters[id].(retried := true))
      && (forall id :: id in s.waiters && id !in again ==> id in t.resolved && t.resolved[id] == s.waiters[id].needs)
      && (again == {} ==> t.phase == Idle && !t.requested)
      && (again != {} ==> t.phase == Reading(t.doc) && (t.requested <==> |again| > 1))
  {
    var u := if step == SnapshotReturns(true)
             then s.(lastWritten := s.phase.content, failed := false, acked := s.acked + s.deferred, deferred := map[]) else s;
    assert Next(s, step) == LoopEnd(u);
    var again := set id | id in s.waiters && !s.waiters[id].retried && s.failed && step != SnapshotReturns(true);
    assert Retrying(u) == again;
    hide Next, Retrying;
  }

  // ---------------------------------------------------------------------------
  // Every run
  // ---------------------------------------------------------------------------

  lemma {:induction false} KeptSoFar(s: State, l: Ledger, steps: seq<Step>)
    requires Kept(s, l) && Happens(s, steps)
    ensures Kept(Run(s, steps), LedgerAfter(l, s, steps))
    decreases |steps|
  {
    hide Kept, Next, Possible, Entered;
    if steps != [] {
      StepKeeps(s, l, steps[0]);
      KeptSoFar(Next(s, steps[0]), Entered(l, s, steps[0]), steps[1..]);
    }
  }

  /** In every run each save and each flush that the steps issue has exactly one of three fates: it still waits for a
      loop; it has returned, and a save is acknowledged with its document; or its loop ended after a failed turn, and a
      save is then put off, acknowledged later with its document, or without a client. Nothing else is answered. */
  lemma EveryCallIsAccounted(content: Text, steps: seq<Step>, id: nat)
    requires Happens(Opened(content), steps)
    ensures var s, l := Run(Opened(content), steps), LedgerAfter(NoCalls, Opened(content), steps);
      && (id in l.calls ==>
            var call := l.calls[id];
            && (Waits(s, call, id) || Returned(s, call, id) || FailedWithLoop(s, l, call, id))
            && (id in s.waiters ==> id !in s.resolved && id !in s.acked && id !in s.deferred && id !in l.rejected)
            && (id in s.resolved ==> id !in l.rejected && id !in s.deferred)
            && (id in s.acked ==> call.isSave && id !in s.deferred))
      && (id !in l.calls ==> id !in s.waiters && id !in s.resolved && id !in s.acked && id !in s.deferred)
  {
    OpenedKept(content);
    KeptSoFar(Opened(content), NoCalls, steps);
  }

  /** So when nothing runs and nothing has failed, in a run without lossy reads, every flush has returned or failed
      with its loop, and every save is acknowledged with its document, unless it was put off for good or its client
      went away while it was put off. */
  lemma IdleSavesAreAcknowledged(content: Text, steps: seq<Step>, id: nat)
    requires Happens(Opened(content), steps) && Lossless(Opened(content), steps)
    ensures var s, l := Run(Opened(content), steps), LedgerAfter(NoCalls, Opened(content), steps);
      s.phase == Idle && !s.failed && id in l.calls ==>
        if l.calls[id].isSave then
          Acknowledged(s, l.calls[id], id) || GetsStuck(Opened(content), steps, id) || id in l.gone
        else Returned(s, l.calls[id], id) || id in l.rejected
  {
    OpenedKept(content);
    KeptSoFar(Opened(content), NoCalls, steps);
    EveryCallIsAccounted(content, steps, id);
    SavesStuckIff(content, steps, id);
    RunKeepsInv(Opened(content), steps);
    hide Run, LedgerAfter, Happens, Lossless, GetsStuck;
  }
}
