/** What the head of the queue can always do while no circle is closed, and what it can never do once one is
    closed and it awaits a barrier. */
module SessionProgress {
  import opened Wrappers
  import opened VaultPaths
  import opened SessionProtocol
  import opened SessionMutations
  import opened SessionStragglers
  import opened SessionGuarantees
  import opened SessionWaiting

  // ---------------------------------------------------------------------------
  // Deadlocks
  // ---------------------------------------------------------------------------

  /** The head awaits a barrier that is not released. */
  ghost predicate Deadlocked(s: State) { Pending(s, Awaited(s.phase)) }

  /** After a run that closes no circle the head always has something to do. */
  lemma HeadCanProceed(steps: seq<Step>) returns (step: Step)
    requires Happens(Initial, steps) && ClosesNoCircle(Initial, steps) && Run(Initial, steps).queue != []
    ensures Advances(Run(Initial, steps), step) && !Deadlocked(Run(Initial, steps))
  {
    InitialInOrder();
    RunStaysInOrder(Initial, steps);
    WaitsForEarlierIff(Run(Initial, steps));
    hide Run, Happens, ClosesNoCircle, Advances, Ordered, WaitsForEarlier;
    step := HeadStep(Run(Initial, steps));
  }

  /** An operation that is bound to wait for a later one is suspended on it as soon as it begins. */
  lemma BoundHeadDeadlocks(s: State, j: nat, order: seq<Path>)
    requires s.queue != [] && s.phase.Queued? && 0 < j < |s.queue| && BoundToWait(s, 0, j)
    requires s.queue[j].ticket != s.queue[0].ticket
    ensures var t := Begin(s, order);
      && Deadlocked(t) && t.queue == s.queue && s.queue[j].ticket in Awaited(t.phase)
      && exists b :: b in t.barriers && b.1 == s.queue[j].ticket
  {
    var StablePath(path, eager) := s.queue[0].job;
    var t := Begin(s, order);
    var b :| b in s.barriers && b.1 == s.queue[j].ticket;
    if eager.Some? && s.sessions[path] == eager.value.sid {
      assert b in t.barriers && b.1 in Awaited(t.phase);
    } else {
      var u := ReleaseBarrier(s, s.queue[0].ticket);
      assert s.queue[j].ticket in BarriersOn(s, s.sessions[path]);
      var c :| c in s.barriers && c.0 == s.sessions[path] && c.1 == s.queue[j].ticket;
      assert c in u.barriers && c in t.barriers && c.1 in Awaited(t.phase);
    }
  }

  /** Neither the queue loses anything nor a barrier goes, and the head stays where it is. */
  ghost predicate NothingSettles(s: State, t: State) {
    t.phase == s.phase && s.queue <= t.queue && s.barriers <= t.barriers
  }

  lemma ClientsSettleNothing(s: State, step: Step)
    requires Possible(s, step) && IsClientStep(step)
    ensures NothingSettles(s, Next(s, step))
  {
    hide InUse, Reserved, PathOf, Increment, Decrement, GetSession, ScheduleIdleClose;
    match step
    case Touch(path) => GetSessionFinds(s, path);
    case ClientAttaches(path) => GetSessionFinds(s, path);
    case OperationBegins(path) => GetSessionFinds(s, path);
    case ClientReleases(lease) => ReleaseSettlesNothing(s, lease);
    case OperationEnds(operation) => ReleaseSettlesNothing(s, operation);
  }

  lemma SchedulingSettlesNothing(s: State, path: Path)
    ensures NothingSettles(s, ScheduleIdleClose(s, path))
  {
    hide InUse;
  }

  lemma ReleaseSettlesNothing(s: State, hold: nat)
    ensures NothingSettles(s, Release(s, hold)) && NothingSettles(s, EndOperation(s, hold))
  {
    hide InUse, PathOf, Decrement, ScheduleIdleClose;
    if hold in s.leases {
      var t := s.(leases := s.leases - {hold}, clientCounts := Decrement(s.clientCounts, s.leases[hold].sid));
      SchedulingSettlesNothing(t, PathOf(t, s.leases[hold].sid, s.leases[hold].path));
    }
    if hold in s.operations {
      var t := s.(operations := s.operations - {hold}, operationCounts := Decrement(s.operationCounts, s.operations[hold].sid));
      SchedulingSettlesNothing(t, PathOf(t, s.operations[hold].sid, s.operations[hold].path));
    }
  }

  lemma OutsideSettlesNothing(s: State, step: Step)
    requires Possible(s, step) && !IsClientStep(step) && !IsHeadStep(step)
    ensures NothingSettles(s, Next(s, step))
  {
    hide InUse, Reserved, BarriersOn;
    if step.StragglerMoves? && step.straggler in s.stragglers {
      LateState(s, step.straggler);
      hide StragglerRekeyed, Arrives;
    }
  }

  /** A deadlock lasts: whatever happens, the head stays suspended and the queue only grows behind it. */
  lemma DeadlockStays(s: State, step: Step)
    requires Deadlocked(s) && Possible(s, step)
    ensures var t := Next(s, step);
      Deadlocked(t) && t.phase == s.phase && s.queue <= t.queue
  {
    if IsHeadStep(step) {
      assert step.StableReturns? || step.OpensReturn?;
      assert Next(s, step) == s;
    } else if IsClientStep(step) {
      ClientsSettleNothing(s, step);
      hide Next;
      MorePending(s, Next(s, step));
    } else {
      OutsideSettlesNothing(s, step);
      hide Next;
      MorePending(s, Next(s, step));
    }
    hide Next, Pending, IsHeadStep, IsClientStep;
  }

  lemma MorePending(s: State, t: State)
    requires NothingSettles(s, t)
    ensures Deadlocked(s) ==> Deadlocked(t)
  {
  }

  lemma {:induction false} DeadlockIsForever(s: State, steps: seq<Step>)
    requires Deadlocked(s) && Happens(s, steps)
    ensures var t := Run(s, steps);
      Deadlocked(t) && t.phase == s.phase && s.queue <= t.queue
    decreases |steps|
  {
    if steps != [] {
      DeadlockStays(s, steps[0]);
      DeadlockIsForever(Next(s, steps[0]), steps[1..]);
    }
  }

  // ---------------------------------------------------------------------------
  // Progress
  // ---------------------------------------------------------------------------

  lemma StablePathFits(s: State, order: seq<Path>)
    requires s.queue != [] && s.phase.Queued? && s.queue[0].job.StablePath?
    ensures HeadFits(Begin(s, order))
  {
    hide ReleaseBarrier, BarriersOn;
  }

  lemma DeletionFits(s: State, path: Path, rest: seq<Path>)
    ensures HeadFits(BeginDelete(s, path, rest))
  {
  }

  lemma BeginningFits(s: State, order: seq<Path>)
    requires s.queue != [] && s.phase.Queued?
    ensures HeadFits(Begin(s, order))
  {
    hide BeginDelete, InUse, ReleaseBarrier, BarriersOn;
    match s.queue[0].job
    case StablePath(_, _) => StablePathFits(s, order);
    case DeleteFile(path) => DeletionFits(s, path, []);
    case DeleteSubtree(_) => if order != [] { DeletionFits(s, order[0], order[1..]); }
    case IdleClose(path) => SettledIsQueued(CancelTimer(s, path)); hide Settle;
    case _ =>
  }

  lemma StatFits(s: State, found: bool)
    requires HeadFits(s) && s.queue != [] && s.phase.Statting?
    ensures HeadFits(AfterStat(s, found))
  {
    StatGoes(s, found);
    SettledIsQueued(s);
    hide AfterStat, Settle, Picked;
  }

  lemma OpenFits(s: State, ok: bool)
    requires s.queue != [] && s.phase.Opening?
    ensures HeadFits(AfterOpen(s, ok))
  {
    SettledIsQueued(s);
    SettledIsQueued(s.(live := s.live + (s.phase.targets.Values - s.deleted)));
    hide Settle, Pending;
  }

  lemma MoveFits(s: State, path: Path)
    requires s.queue != [] && s.phase.Moving?
    ensures HeadFits(MoveCompleted(s, path)) && HeadFits(CompletionFailed(s, path))
  {
    SettledIsQueued(s);
    if path in s.phase.targets {
      var target, sid := Destination(s.queue[0].job, path), s.phase.targets[path];
      RekeyMovesIn(s, path, target, sid);
      SettledIsQueued(Rekeyed(s, path, target, sid));
    }
    hide Settle, Rekeyed, Destination;
  }

  lemma DeleteFits(s: State, ok: bool)
    requires s.queue != [] && s.phase.Deleting?
    ensures HeadFits(AfterDelete(s, ok))
  {
    var Deleting(path, target, rest) := s.phase;
    var u := Without(s, path, target);
    SettledIsQueued(s);
    assert ok ==> AfterDelete(s, ok) == if rest == [] then u.(phase := DiskOnly) else BeginDelete(u, rest[0], rest[1..]);
    hide Settle, Without, BeginDelete;
    if ok && rest != [] {
      hide AfterDelete;
      DeletionFits(u, rest[0], rest[1..]);
    }
  }

  lemma CloseFits(s: State, ok: bool)
    requires HeadFits(s) && s.queue != [] && s.phase.Closing?
    ensures HeadFits(AfterClose(s, ok))
  {
  }

  lemma HeadStepFits(s: State, step: Step)
    requires HeadFits(s) && Possible(s, step) && IsHeadStep(step)
    ensures HeadFits(Next(s, step))
  {
    hide Begin, AfterStat, AfterOpen, MoveCompleted, AfterDelete, AfterClose, CompletionFailed, Settle, IsOrder, Disjoint, Pending;
    SettledIsQueued(s);
    match step
    case MutationBegins(order) => BeginningFits(s, order);
    case StatReturns(found) => StatFits(s, found);
    case OpensReturn(ok) => OpenFits(s, ok);
    case SessionMoved(path) => MoveFits(s, path);
    case SessionMoveFails(path) => MoveFits(s, path);
    case DeleteReturns(ok) => DeleteFits(s, ok);
    case CloseReturns(ok) => CloseFits(s, ok);
    case _ =>
  }

  lemma StepHeadFits(s: State, step: Step)
    requires HeadFits(s) && Possible(s, step)
    ensures HeadFits(Next(s, step))
  {
    if IsHeadStep(step) {
      HeadStepFits(s, step);
    } else if IsClientStep(step) {
      ClientsSettleNothing(s, step);
    } else {
      OutsideSettlesNothing(s, step);
    }
    hide Next;
  }

  lemma {:induction false} RunHeadFits(s: State, steps: seq<Step>)
    requires HeadFits(s) && Happens(s, steps)
    ensures HeadFits(Run(s, steps))
    decreases |steps|
  {
    hide HeadFits, Possible, Next;
    if steps != [] {
      StepHeadFits(s, steps[0]);
      RunHeadFits(Next(s, steps[0]), steps[1..]);
    }
  }

  /** The head works through the schedule and no step of it closes a circle. */
  ghost predicate Proceeds(s: State, steps: seq<Step>)
    decreases |steps|
  {
    steps == [] || (Advances(s, steps[0]) && !ClosesCircle(s, steps[0]) && Proceeds(Next(s, steps[0]), steps[1..]))
  }

  lemma ProceedsCloser(s: State, step: Step)
    requires Ordered(s) && WaitsForEarlier(s) && HeadFits(s) && Advances(s, step) && !ClosesCircle(s, step)
    ensures var t := Next(s, step);
      CloserToSettled(t, s) && Ordered(t) && WaitsForEarlier(t) && HeadFits(t)
  {
    hide Ordered, WaitsForEarlier, ClosesCircle, CloserToSettled, IsHeadStep;
    StepClosesCircleIff(s, step);
    StepHeadFits(s, step);
    WaitsForEarlierIff(s);
    AdvancesFrom(s, step);
    hide Next;
  }

  lemma {:induction false} ProceedsOnlySoFar(s: State, schedule: nat -> Step) returns (n: nat)
    requires Ordered(s) && WaitsForEarlier(s) && HeadFits(s)
    ensures !Proceeds(s, Prefix(schedule, n))
    decreases |s.queue|, Stage(s.phase), Remaining(s.phase)
  {
    hide Ordered, WaitsForEarlier, HeadFits, Next, Stage, Remaining, Possible, IsHeadStep, ClosesCircle, Prefix;
    var later := (k: nat) => schedule(k + 1);
    if Advances(s, schedule(0)) && !ClosesCircle(s, schedule(0)) {
      ProceedsCloser(s, schedule(0));
      var m := ProceedsOnlySoFar(Next(s, schedule(0)), later);
      n := m + 1;
      PrefixOfLater(schedule, later, m);
    } else {
      n := 1;
      PrefixOfLater(schedule, later, 0);
    }
  }

  /** After any run that closes no circle, calm or not, no schedule of head steps goes on for ever: it comes to
      its end, or it closes a circle. */
  lemma SchedulesEndOrCloseCircle(run: seq<Step>, schedule: nat -> Step) returns (n: nat)
    requires Happens(Initial, run) && ClosesNoCircle(Initial, run)
    ensures !Proceeds(Run(Initial, run), Prefix(schedule, n))
  {
    InitialInOrder();
    RunStaysInOrder(Initial, run);
    RunHeadFits(Initial, run);
    hide *;
    n := ProceedsOnlySoFar(Run(Initial, run), schedule);
  }

  lemma {:induction false} ProceedingHappens(s: State, steps: seq<Step>)
    requires Ordered(s) && WaitsForEarlier(s) && Proceeds(s, steps)
    ensures Happens(s, steps) && Ordered(Run(s, steps))
    decreases |steps|
  {
    hide Ordered, WaitsForEarlier, ClosesCircle, Next, IsHeadStep;
    if steps != [] {
      StepClosesCircleIff(s, steps[0]);
      ProceedingHappens(Next(s, steps[0]), steps[1..]);
    }
  }

  /** Such a schedule that has come to its end has emptied the queue and released every barrier. */
  lemma EndedScheduleDrains(run: seq<Step>, steps: seq<Step>)
    requires Happens(Initial, run) && ClosesNoCircle(Initial, run) && Proceeds(Run(Initial, run), steps)
    ensures var s := Run(Initial, run);
      && Happens(s, steps)
      && ((forall step :: !Advances(Run(s, steps), step)) ==> Run(s, steps).queue == [] && Run(s, steps).barriers == {})
  {
    InitialInOrder();
    RunStaysInOrder(Initial, run);
    var s := Run(Initial, run);
    ProceedingHappens(s, steps);
    var t := Run(s, steps);
    hide Run, Happens, ClosesNoCircle, Proceeds, Advances, WaitsForEarlier;
    if t.queue != [] {
      var step := HeadStep(t);
    } else {
      assert forall b :: b in t.barriers ==> InQueue(t, b.1);
    }
  }
}
