/** One turn of the persist loop, and the check of the file beside it: what is written is the document that the turn
    took, and a change that a check took over is not taken over again. */
module SaveTurns {
  import opened Wrappers
  import opened Persistence

  predicate IsTurnStep(step: Step) { step.ReadReturns? || step.WriteReturns? || step.SnapshotReturns? || step.ReconcileReturns? }

  /** What clients and the check of the file do meanwhile. */
  predicate AllAside(steps: seq<Step>) { forall i :: 0 <= i < |steps| ==> !IsTurnStep(steps[i]) }

  lemma EditStaysAside(s: State, edit: Edit)
    ensures var t := Edited(s, edit); t.poll == s.poll && t.disk == s.disk && (s.phase != Idle ==> t.phase == s.phase)
  {
  }

  lemma FlushStaysAside(s: State, isSave: bool)
    ensures var t := Flushed(s, isSave); t.poll == s.poll && t.disk == s.disk && (s.phase != Idle ==> t.phase == s.phase)
  {
  }

  lemma CallStaysAside(s: State, step: Step)
    requires step.Edits? || step.Saves? || step.Flushes?
    ensures var t := Next(s, step); t.poll == s.poll && t.disk == s.disk && (s.phase != Idle ==> t.phase == s.phase)
  {
    hide Edited, Flushed;
    match step
    case Edits(edit) => EditStaysAside(s, edit);
    case Saves(edit) => EditStaysAside(s, edit); FlushStaysAside(Edited(s, edit), true);
    case Flushes => FlushStaysAside(s, false);
  }

  lemma ComparingStaysAside(s: State)
    requires s.poll.Some?
    ensures PollCompared(s).phase == s.phase && PollCompared(s).disk == s.disk
  {
    assert PollCompared(s) == s.(poll := None)
      || PollCompared(s) == s.(doc := s.poll.value, lastWritten := s.poll.value, poll := None);
    hide *;
  }

  lemma AsideKeepsTurn(s: State, step: Step)
    requires Possible(s, step) && !IsTurnStep(step) && s.phase != Idle
    ensures Next(s, step).phase == s.phase && Next(s, step).disk == s.disk
  {
    if s.poll.Some? {
      ComparingStaysAside(s);
    }
    hide PollCompared;
    if step.Edits? || step.Saves? || step.Flushes? {
      CallStaysAside(s, step);
      hide Next;
    }
  }

  lemma {:induction false} AsideKeepsTurns(s: State, steps: seq<Step>)
    requires Happens(s, steps) && AllAside(steps) && s.phase != Idle
    ensures Run(s, steps).phase == s.phase && Run(s, steps).disk == s.disk
    decreases |steps|
  {
    if steps != [] {
      AsideKeepsTurn(s, steps[0]);
      hide Next, Possible, IsTurnStep;
      AsideKeepsTurns(Next(s, steps[0]), steps[1..]);
    }
  }

  /** A turn of the loop begins with the document of that moment. */
  lemma TurnTakesDocument(s: State, step: Step)
    requires Possible(s, step) && (IsTurnStep(step) || s.phase == Idle)
    ensures var t := Next(s, step); t.phase.Reading? ==> t.phase.content == t.doc
  {
    if IsTurnStep(step) {
      TurnStepTakesDocument(s, step);
      hide Next;
    } else if step.Edits? || step.Saves? || step.Flushes? {
      CallTakesDocument(s, step);
      hide Next;
    } else {
      hide LooksForeign;
    }
  }

  lemma TurnStepTakesDocument(s: State, step: Step)
    requires Possible(s, step) && IsTurnStep(step)
    ensures var t := Next(s, step); t.phase.Reading? ==> t.phase.content == t.doc
  {
    if step.ReadReturns? || step.WriteReturns? {
      EarlyStepTakesDocument(s, step);
    } else {
      LateStepTakesDocument(s, step);
    }
    hide Next;
  }

  lemma EarlyStepTakesDocument(s: State, step: Step)
    requires Possible(s, step) && (step.ReadReturns? || step.WriteReturns?)
    ensures var t := Next(s, step); t.phase.Reading? ==> t.phase.content == t.doc
  {
    FailureTakesDocument(s);
    hide LoopTurn, Failed, Persisted;
  }

  lemma LateStepTakesDocument(s: State, step: Step)
    requires Possible(s, step) && (step.SnapshotReturns? || step.ReconcileReturns?)
    ensures var t := Next(s, step); t.phase.Reading? ==> t.phase.content == t.doc
  {
    FailureTakesDocument(s);
    TurnsTakeDocuments(s);
    if s.phase.Snapshotting? {
      SuccessTakesDocument(s);
    }
    hide LoopTurn, Failed, Persisted;
  }

  lemma FailureTakesDocument(s: State)
    ensures var t := Failed(s); t.phase.Reading? ==> t.phase.content == t.doc
  {
    TurnsTakeDocuments(s.(failed := true, loopFailed := true));
    hide LoopTurn;
  }

  lemma SuccessTakesDocument(s: State)
    requires s.phase.Snapshotting?
    ensures var t := Persisted(s); t.phase.Reading? ==> t.phase.content == t.doc
  {
    TurnsTakeDocuments(s.(lastWritten := s.phase.content, failed := false, acked := s.acked + s.deferred, deferred := map[]));
    hide LoopTurn;
  }

  lemma CallTakesDocument(s: State, step: Step)
    requires (step.Edits? || step.Saves? || step.Flushes?) && s.phase == Idle
    ensures var t := Next(s, step); t.phase.Reading? ==> t.phase.content == t.doc
  {
    if step.Saves? {
      var t := Edited(s, step.edit);
      FlushStaysAside(t, true);
      assert t.phase == Reading(t.doc) && Flushed(t, true).doc == t.doc;
      hide Flushed;
    }
  }

  lemma TurnsTakeDocuments(s: State)
    ensures var t := LoopTurn(s); t.phase.Reading? ==> t.phase.content == t.doc
  {
    hide Retrying;
  }

  /** Whatever is edited meanwhile, a turn that finds the file as it was last written writes the document that it took
      when it began, and what came later is left to the next turn. */
  lemma TurnWritesWhatItTook(s: State, reading: seq<Step>, writing: seq<Step>)
    requires s.phase.Reading? && Happens(s, reading) && AllAside(reading)
    requires var u := Run(s, reading); u.disk == u.lastWritten && Possible(u, ReadReturns(true))
    requires var v := Next(Run(s, reading), ReadReturns(true)); Happens(v, writing) && AllAside(writing)
    ensures var w := Run(Next(Run(s, reading), ReadReturns(true)), writing);
      && Possible(w, WriteReturns(true)) && Next(w, WriteReturns(true)).disk == s.phase.content
      && Next(w, WriteReturns(true)).doc == w.doc
  {
    AsideKeepsTurns(s, reading);
    hide Run, Happens, AllAside;
    AsideKeepsTurns(Next(Run(s, reading), ReadReturns(true)), writing);
  }

  // ---------------------------------------------------------------------------
  // The check of the file
  // ---------------------------------------------------------------------------

  /** What a check under way has read, told from a step: the file as it was when the check began. */
  function CheckAfter(check: Option<Text>, s: State, step: Step): Option<Text> {
    match step
    case PollReads => if check.None? then Some(s.disk) else check
    case PollCompares => None
    case _ => check
  }

  function Checked(check: Option<Text>, s: State, steps: seq<Step>): Option<Text>
    requires Happens(s, steps)
    decreases |steps|
  {
    if steps == [] then check else Checked(CheckAfter(check, s, steps[0]), Next(s, steps[0]), steps[1..])
  }

  lemma CheckFollowsStep(s: State, step: Step)
    requires Possible(s, step)
    ensures Next(s, step).poll == CheckAfter(s.poll, s, step)
  {
    if step.Edits? || step.Saves? || step.Flushes? {
      CallStaysAside(s, step);
      hide Next;
    } else if IsTurnStep(step) {
      TurnsKeepCheck(s);
      TurnsKeepCheck(s.(failed := true, loopFailed := true));
      if s.phase.Snapshotting? {
        TurnsKeepCheck(s.(lastWritten := s.phase.content, failed := false, acked := s.acked + s.deferred, deferred := map[]));
      }
      hide LoopTurn;
    } else {
      hide LooksForeign;
    }
  }

  lemma TurnsKeepCheck(s: State)
    ensures LoopTurn(s).poll == s.poll
  {
    hide Retrying;
  }

  /** Every check compares what it read itself, and ends with that. */
  lemma {:induction false} ChecksFollowSteps(s: State, steps: seq<Step>)
    requires Happens(s, steps)
    ensures Run(s, steps).poll == Checked(s.poll, s, steps)
    decreases |steps|
  {
    hide Next, Possible, CheckAfter;
    if steps != [] {
      CheckFollowsStep(s, steps[0]);
      ChecksFollowSteps(Next(s, steps[0]), steps[1..]);
    }
  }

  /** What was written last or is being written is no change from outside. Any other content is taken over. */
  lemma ChangeIsTakenOver(s: State)
    requires s.poll.Some?
    ensures var t, read := Next(s, PollCompares), s.poll.value;
      && (read == s.lastWritten || s.phase == Writing(read) || s.phase == Snapshotting(read) ==> t == s.(poll := None))
      && (s.phase == Idle && read != s.lastWritten ==> t == s.(doc := read, lastWritten := read, poll := None))
  {
  }

  /** If the file still has a content that was taken over, the next turn finds it known and writes what has been edited
      on top of it. */
  lemma ChangeIsTakenOnce(s: State, edit: Edit)
    requires s.poll.Some? && s.phase == Idle && s.poll.value != s.lastWritten && s.disk == s.poll.value
    ensures var t := Edited(PollCompared(s), edit); t.phase.Reading? && ReadReturned(t).phase == Writing(s.poll.value + [edit])
  {
    ChangeIsTakenOver(s);
    hide PollCompared;
  }
}
