/** The books of the session manager against the steps: every hold that is handed out is entered, once and under the
    right session, and stays until it is given back. */
module SessionBooks {
  import opened Wrappers
  import opened VaultPaths
  import opened SessionProtocol
  import opened SessionSafety
  import opened SessionMutations
  import opened SessionGuarantees
  import opened SessionOwnership

  /** Leases and operations that are out, by the number under which they were handed out, the sessions whose last
      attempt to save failed, and the completions of failed folder moves that are still out. */
  datatype Books = Books(leases: map<nat, Hold>, operations: map<nat, Hold>, next: nat, failing: set<SessionId>,
                         late: set<Straggler>)

  /** A step that hands something out, told from the step and the state in which it happens: it asks for a path
      that nobody has reserved. */
  predicate HandsOut(s: State, step: Step) {
    (step.ClientAttaches? || step.OperationBegins?) && !Reserved(s, step.path)
  }

  /** Who is handed out: the session under the path, or a new one. */
  function HandedOut(s: State, path: Path): SessionId { if path in s.sessions then s.sessions[path] else s.nextSession }

  /** What a folder move leaves behind when the completion for `path` fails: those for its other sessions. */
  function LeftBehind(s: State, path: Path): set<Straggler> {
    if s.queue == [] || !s.phase.Moving? || path !in s.phase.targets then {}
    else
      var targets := s.phase.targets - {path};
      set p | p in targets :: Straggler(p, Destination(s.queue[0].job, p), targets[p])
  }

  /** The books after a step, told from the step. */
  function Entered(books: Books, s: State, step: Step): Books {
    if step.ClientAttaches? && HandsOut(s, step) then
      books.(leases := books.leases[books.next := Hold(HandedOut(s, step.path), step.path)], next := books.next + 1)
    else if step.OperationBegins? && HandsOut(s, step) then
      books.(operations := books.operations[books.next := Hold(HandedOut(s, step.path), step.path)], next := books.next + 1)
    else if step.ClientReleases? then books.(leases := books.leases - {step.lease})
    else if step.OperationEnds? then books.(operations := books.operations - {step.operation})
    else if step.PersistFails? then books.(failing := books.failing + {step.sid})
    else if step.PersistRecovers? then books.(failing := books.failing - {step.sid})
    else if step.SessionMoveFails? then books.(late := books.late + LeftBehind(s, step.path))
    else if step.StragglerMoves? || step.StragglerFails? then books.(late := books.late - {step.straggler})
    else books
  }

  ghost function BooksAfter(books: Books, s: State, steps: seq<Step>): Books
    requires Happens(s, steps)
    decreases |steps|
  {
    if steps == [] then books else BooksAfter(Entered(books, s, steps[0]), Next(s, steps[0]), steps[1..])
  }

  predicate Agrees(s: State, books: Books) {
    s.leases == books.leases && s.operations == books.operations && s.nextHold == books.next && s.failing == books.failing
    && s.stragglers == books.late
  }

  function BooksOf(s: State): Books { Books(s.leases, s.operations, s.nextHold, s.failing, s.stragglers) }

  lemma GetSessionHandsOut(s: State, path: Path)
    ensures var (t, sid) := GetSession(s, path);
      && sid == HandedOut(s, path) && path in t.sessions && t.sessions[path] == sid
      && t == s.(sessions := t.sessions, nextSession := t.nextSession, timers := t.timers)
      && (forall p :: p in s.sessions ==> p in t.sessions && t.sessions[p] == s.sessions[p]) && path !in t.timers
  {
  }

  /** One step, on the books and on the map: what is handed out on an unreserved path is entered under the next
      number, with the session that is under the path then, which is counted once more and has no idle timer. */
  lemma HandingOutIsEntered(s: State, step: Step)
    requires Possible(s, step) && HandsOut(s, step)
    ensures var t, sid := Next(s, step), HandedOut(s, step.path);
      && step.path in t.sessions && t.sessions[step.path] == sid && step.path !in t.timers
      && (forall p :: p in s.sessions ==> p in t.sessions && t.sessions[p] == s.sessions[p])
      && (step.ClientAttaches? ==>
            && t.leases == s.leases[s.nextHold := Hold(sid, step.path)] && t.operations == s.operations
            && t.clientCounts == s.clientCounts[sid := (if sid in s.clientCounts then s.clientCounts[sid] else 0) + 1])
      && (step.OperationBegins? ==>
            && t.operations == s.operations[s.nextHold := Hold(sid, step.path)] && t.leases == s.leases
            && t.operationCounts == s.operationCounts[sid := (if sid in s.operationCounts then s.operationCounts[sid] else 0) + 1])
  {
    GetSessionHandsOut(s, step.path);
    hide Reserved, GetSession;
  }

  /** A path that is only looked up gets its session too, without a hold. */
  lemma LookingUpHoldsNothing(s: State, path: Path)
    ensures var t := Next(s, Touch(path));
      if Reserved(s, path) then t == s else
        && path in t.sessions && t.sessions[path] == HandedOut(s, path) && path !in t.timers
        && (forall p :: p in s.sessions ==> p in t.sessions && t.sessions[p] == s.sessions[p])
        && t.leases == s.leases && t.operations == s.operations && t.live == s.live && t.queue == s.queue
  {
    GetSessionHandsOut(s, path);
    hide Reserved, GetSession;
  }

  /** A caller that is refused leaves the state alone, but that an operation cancels the idle timer of its path. */
  lemma RefusalChangesNothing(s: State, step: Step)
    requires (step.ClientAttaches? || step.OperationBegins?) && Reserved(s, step.path)
    ensures Next(s, step) == s.(timers := if step.OperationBegins? then s.timers - {step.path} else s.timers)
  {
    hide Reserved;
  }

  lemma SchedulingKeepsBooks(s: State, path: Path)
    ensures SameBooks(s, ScheduleIdleClose(s, path))
  {
    hide InUse;
  }

  lemma ReleaseIsEntered(s: State, hold: nat)
    ensures var t := Release(s, hold);
      t.leases == s.leases - {hold} && t.operations == s.operations && t.nextHold == s.nextHold && SameSessions(s, t)
    ensures var t := EndOperation(s, hold);
      t.operations == s.operations - {hold} && t.leases == s.leases && t.nextHold == s.nextHold && SameSessions(s, t)
  {
    hide InUse, PathOf, Decrement, ScheduleIdleClose;
    if hold in s.leases {
      var t := s.(leases := s.leases - {hold}, clientCounts := Decrement(s.clientCounts, s.leases[hold].sid));
      SchedulingKeepsBooks(t, PathOf(t, s.leases[hold].sid, s.leases[hold].path));
    }
    if hold in s.operations {
      var t := s.(operations := s.operations - {hold}, operationCounts := Decrement(s.operationCounts, s.operations[hold].sid));
      SchedulingKeepsBooks(t, PathOf(t, s.operations[hold].sid, s.operations[hold].path));
    }
  }

  lemma ClientStepAgrees(s: State, step: Step)
    requires Possible(s, step) && IsClientStep(step)
    ensures var t, books := Next(s, step), Entered(BooksOf(s), s, step); Agrees(t, books) && SameSessions(s, t)
  {
    hide Reserved, GetSession, Increment, Release, EndOperation;
    match step
    case Touch(path) => GetSessionHandsOut(s, path);
    case ClientAttaches(path) => GetSessionHandsOut(s, path);
    case OperationBegins(path) => GetSessionHandsOut(s, path);
    case ClientReleases(lease) => ReleaseIsEntered(s, lease);
    case OperationEnds(operation) => ReleaseIsEntered(s, operation);
  }

  /** Who fails to save or is late is the same, and who was open still is, unless deleted. */
  ghost predicate SameSessions(s: State, t: State) {
    t.failing == s.failing && t.stragglers == s.stragglers && s.deleted <= t.deleted && s.live <= t.live + t.deleted
  }

  ghost predicate SameBooks(s: State, t: State) {
    && t.leases == s.leases && t.operations == s.operations && t.nextHold == s.nextHold
    && t.clientCounts == s.clientCounts && t.operationCounts == s.operationCounts && SameSessions(s, t)
  }

  /** The same books, but for who fails to save or is late. */
  ghost predicate SameBooksBut(s: State, step: Step)
    requires Possible(s, step)
  {
    var t, books := Next(s, step), Entered(BooksOf(s), s, step);
    SameBooks(s, t.(failing := s.failing, stragglers := s.stragglers)) && t.failing == books.failing && t.stragglers == books.late
  }

  lemma SettlingKeepsBooks(s: State)
    requires s.queue != []
    ensures SameBooks(s, Settle(s))
  {
  }

  lemma BeginDeleteKeepsBooks(s: State, path: Path, rest: seq<Path>)
    ensures SameBooks(s, BeginDelete(s, path, rest))
  {
  }

  lemma IdleClosingKeepsBooks(s: State, order: seq<Path>)
    requires s.queue != [] && s.phase.Queued? && s.queue[0].job.IdleClose?
    ensures SameBooks(s, Begin(s, order))
  {
    SettlingKeepsBooks(CancelTimer(s, s.queue[0].job.path));
    hide Settle, InUse;
  }

  lemma BeginningKeepsBooks(s: State, order: seq<Path>)
    requires s.queue != [] && s.phase.Queued?
    ensures SameBooks(s, Begin(s, order))
  {
    var job := s.queue[0].job;
    if job.StablePath? {
      StablePathBegins(s, order);
      hide Begin;
    } else if job.IdleClose? {
      IdleClosingKeepsBooks(s, order);
    } else if job.DeleteFile? {
      hide BeginDelete;
      BeginDeleteKeepsBooks(s, job.path, []);
    } else if job.DeleteSubtree? && order != [] {
      hide BeginDelete;
      BeginDeleteKeepsBooks(s, order[0], order[1..]);
    } else {
      hide BeginDelete;
    }
  }

  lemma StatKeepsBooks(s: State, found: bool)
    requires s.queue != [] && s.phase.Statting?
    ensures SameBooks(s, AfterStat(s, found))
  {
    StatGoes(s, found);
    SettlingKeepsBooks(s);
    hide AfterStat, Settle, Picked;
  }

  lemma OpeningKeepsBooks(s: State, ok: bool)
    requires s.queue != [] && s.phase.Opening?
    ensures SameBooks(s, AfterOpen(s, ok))
  {
    var u := s.(live := s.live + (s.phase.targets.Values - s.deleted));
    OpenGoes(s, ok);
    SettlingKeepsBooks(s);
    SettlingKeepsBooks(u);
    hide AfterOpen, Settle;
  }

  lemma MovingKeepsBooks(s: State, path: Path)
    requires s.queue != [] && s.phase.Moving?
    ensures SameBooks(s, MoveCompleted(s, path)) && SameBooks(s, CompletionFailed(s, path).(stragglers := s.stragglers))
    ensures CompletionFailed(s, path).stragglers == s.stragglers + LeftBehind(s, path)
  {
    SettlingKeepsBooks(s);
    if path in s.phase.targets {
      var target, sid := Destination(s.queue[0].job, path), s.phase.targets[path];
      RekeyMovesIn(s, path, target, sid);
      SettlingKeepsBooks(Rekeyed(s, path, target, sid));
    }
    hide Settle, Rekeyed, Destination;
  }

  lemma DeletionKeepsBooks(s: State, ok: bool)
    requires s.queue != [] && s.phase.Deleting?
    ensures SameBooks(s, AfterDelete(s, ok))
  {
    SettlingKeepsBooks(s);
    hide Settle, AwaitOpen;
    var Deleting(path, target, rest) := s.phase;
    DeletionLeaves(s, path, target);
    var t := if target.Some? then ExternallyDeleted(s, target.value) else s;
    var u := t.(sessions := t.sessions - {path});
    assert ok && rest != [] ==> AfterDelete(s, ok) == BeginDelete(u, rest[0], rest[1..]);
    assert ok && rest == [] ==> AfterDelete(s, ok) == u.(phase := DiskOnly);
    assert !ok ==> AfterDelete(s, ok) == Settle(s);
    hide AfterDelete, BeginDelete;
    if ok && rest != [] {
      BeginDeleteKeepsBooks(u, rest[0], rest[1..]);
    }
  }

  lemma ClosingKeepsBooks(s: State, ok: bool)
    requires s.queue != [] && s.phase.Closing?
    ensures SameBooks(s, AfterClose(s, ok))
  {
    SettlingKeepsBooks(s);
    if s.queue[0].job.IdleClose? {
      SettlingKeepsBooks(s.(sessions := s.sessions[s.queue[0].job.path := s.phase.sid]));
    }
    hide Settle;
  }

  lemma HeadKeepsBooks(s: State, step: Step)
    requires Possible(s, step) && IsHeadStep(step)
    ensures SameBooksBut(s, step)
  {
    hide Begin, AfterStat, AfterOpen, MoveCompleted, AfterDelete, AfterClose, CompletionFailed, Settle, Pending, IsOrder, Disjoint;
    match step
    case MutationBegins(order) => BeginningKeepsBooks(s, order);
    case StatReturns(found) => StatKeepsBooks(s, found);
    case OpensReturn(ok) => OpeningKeepsBooks(s, ok);
    case SessionMoved(path) => MovingKeepsBooks(s, path);
    case SessionMoveFails(path) => MovingKeepsBooks(s, path);
    case DeleteReturns(ok) => DeletionKeepsBooks(s, ok);
    case CloseReturns(ok) => ClosingKeepsBooks(s, ok);
    case _ => SettlingKeepsBooks(s);
  }

  lemma OutsideKeepsBooks(s: State, step: Step)
    requires Possible(s, step) && !IsHeadStep(step) && !IsClientStep(step)
    ensures SameBooksBut(s, step)
  {
    hide Reserved, BarriersOn, Rekeyed;
    if step.StragglerMoves? {
      var g := step.straggler;
      RekeyMovesIn(s.(stragglers := s.stragglers - {g}), g.source, g.target, g.sid);
    }
  }

  lemma StepAgrees(s: State, step: Step)
    requires Possible(s, step)
    ensures Agrees(Next(s, step), Entered(BooksOf(s), s, step))
  {
    if IsClientStep(step) {
      ClientStepAgrees(s, step);
    } else if IsHeadStep(step) {
      HeadKeepsBooks(s, step);
    } else {
      OutsideKeepsBooks(s, step);
    }
    hide Next, Reserved;
  }

  // ---------------------------------------------------------------------------
  // The counts
  // ---------------------------------------------------------------------------

  /** The counts are those of the books, and every number in them was handed out. */
  ghost predicate Counted(s: State) {
    && CountsMatch(s.clientCounts, s.leases) && CountsMatch(s.operationCounts, s.operations)
    && (forall h :: h in s.leases ==> h < s.nextHold) && (forall h :: h in s.operations ==> h < s.nextHold)
  }

  lemma ReleaseCounts(s: State, hold: nat)
    requires Counted(s)
    ensures Counted(Release(s, hold)) && Counted(EndOperation(s, hold))
  {
    hide CountMatches, CountsMatch, InUse, PathOf, ScheduleIdleClose;
    if hold in s.leases {
      var t := s.(leases := s.leases - {hold}, clientCounts := Decrement(s.clientCounts, s.leases[hold].sid));
      HolderRemoved(s.clientCounts, s.leases, hold);
      SchedulingTrims(t, PathOf(t, s.leases[hold].sid, s.leases[hold].path));
    }
    if hold in s.operations {
      var t := s.(operations := s.operations - {hold}, operationCounts := Decrement(s.operationCounts, s.operations[hold].sid));
      HolderRemoved(s.operationCounts, s.operations, hold);
      SchedulingTrims(t, PathOf(t, s.operations[hold].sid, s.operations[hold].path));
    }
  }

  lemma ClientStepCounts(s: State, step: Step)
    requires Counted(s) && Possible(s, step) && IsClientStep(step)
    ensures Counted(Next(s, step))
  {
    hide Reserved, GetSession, Release, EndOperation, CountsMatch, Increment;
    match step
    case Touch(path) => GetSessionHandsOut(s, path);
    case ClientAttaches(path) =>
      GetSessionHandsOut(s, path);
      HolderAdded(s.clientCounts, s.leases, s.nextHold, Hold(HandedOut(s, path), path));
    case OperationBegins(path) =>
      GetSessionHandsOut(s, path);
      HolderAdded(s.operationCounts, s.operations, s.nextHold, Hold(HandedOut(s, path), path));
    case ClientReleases(lease) => ReleaseCounts(s, lease);
    case OperationEnds(operation) => ReleaseCounts(s, operation);
  }

  lemma SameBooksCount(s: State, step: Step)
    requires Counted(s) && Possible(s, step) && SameBooksBut(s, step)
    ensures Counted(Next(s, step))
  {
    var t := Next(s, step);
    assert t.leases == s.leases && t.operations == s.operations && t.nextHold == s.nextHold
      && t.clientCounts == s.clientCounts && t.operationCounts == s.operationCounts;
    hide Next, Possible, Entered, CountsMatch, SameBooksBut;
  }

  lemma StepCounts(s: State, step: Step)
    requires Counted(s) && Possible(s, step)
    ensures Counted(Next(s, step))
  {
    hide Next, Counted, SameBooksBut;
    if IsClientStep(step) {
      ClientStepCounts(s, step);
    } else if IsHeadStep(step) {
      HeadKeepsBooks(s, step);
      SameBooksCount(s, step);
    } else {
      OutsideKeepsBooks(s, step);
      SameBooksCount(s, step);
    }
  }

  // ---------------------------------------------------------------------------
  // Every run
  // ---------------------------------------------------------------------------

  const NoBooks := Books(map[], map[], 0, {}, {})

  lemma {:induction false} BooksSoFar(s: State, steps: seq<Step>)
    requires Counted(s) && Happens(s, steps)
    ensures Counted(Run(s, steps))
    ensures Agrees(Run(s, steps), BooksAfter(BooksOf(s), s, steps))
    decreases |steps|
  {
    hide Next, Possible, Entered, Counted;
    if steps != [] {
      StepAgrees(s, steps[0]);
      StepCounts(s, steps[0]);
      BooksSoFar(Next(s, steps[0]), steps[1..]);
    }
  }

  lemma InitialCounted()
    ensures Counted(Initial)
  {
    forall sid
      ensures CountMatches(Initial.clientCounts, Initial.leases, sid)
    {
    }
  }

  /** In every run, calm or not, the manager's books are those that the steps make, and a session is counted exactly
      as often as it was handed out and not given back. */
  lemma BooksFollowSteps(steps: seq<Step>)
    requires Happens(Initial, steps)
    ensures var s, books := Run(Initial, steps), BooksAfter(NoBooks, Initial, steps);
      && s.leases == books.leases && s.operations == books.operations && s.failing == books.failing && s.stragglers == books.late
      && forall sid ::
           && (if sid in s.clientCounts then s.clientCounts[sid] else 0) == |Holders(books.leases, sid)|
           && (if sid in s.operationCounts then s.operationCounts[sid] else 0) == |Holders(books.operations, sid)|
  {
    InitialCounted();
    BooksSoFar(Initial, steps);
    var s := Run(Initial, steps);
    hide Run, BooksAfter;
    forall sid
      ensures (if sid in s.clientCounts then s.clientCounts[sid] else 0) == |Holders(s.leases, sid)|
      ensures (if sid in s.operationCounts then s.operationCounts[sid] else 0) == |Holders(s.operations, sid)|
    {
      assert CountMatches(s.clientCounts, s.leases, sid) && CountMatches(s.operationCounts, s.operations, sid);
    }
  }

  /** In every run an idle close only ever takes a session that nobody was handed without giving it back, and whose last
      save did not fail. */
  lemma IdleCloseTakesUnheld(steps: seq<Step>, order: seq<Path>)
    requires Happens(Initial, steps) && Possible(Run(Initial, steps), MutationBegins(order))
    ensures var books, t := BooksAfter(NoBooks, Initial, steps), Next(Run(Initial, steps), MutationBegins(order));
      t.phase.Closing? ==>
        && (forall h :: h in books.leases ==> books.leases[h].sid != t.phase.sid)
        && (forall h :: h in books.operations ==> books.operations[h].sid != t.phase.sid)
        && t.phase.sid !in books.failing
  {
    InitialCounted();
    BooksSoFar(Initial, steps);
    var s := Run(Initial, steps);
    hide Run, BooksAfter;
    var t := Next(s, MutationBegins(order));
    if t.phase.Closing? {
      assert !InUse(s, t.phase.sid) && t.phase.sid !in s.failing by { ClosingIsUnused(s, order); }
      hide Next;
      forall h | h in s.leases
        ensures s.leases[h].sid != t.phase.sid
      {
        HolderCounts(s.clientCounts, s.leases, h);
      }
      forall h | h in s.operations
        ensures s.operations[h].sid != t.phase.sid
      {
        HolderCounts(s.operationCounts, s.operations, h);
      }
    }
  }

  lemma ClosingIsUnused(s: State, order: seq<Path>)
    requires s.queue != [] && s.phase.Queued? && Begin(s, order).phase.Closing?
    ensures var sid := Begin(s, order).phase.sid; !InUse(s, sid) && sid !in s.failing
  {
    if s.queue[0].job.IdleClose? {
      TimersDoNotHold(s, CancelTimer(s, s.queue[0].job.path));
      hide InUse, Settle;
      SettledIsQueued(CancelTimer(s, s.queue[0].job.path));
    } else {
      BeginningLeads(s, order);
    }
  }

  lemma BeginningLeads(s: State, order: seq<Path>)
    requires s.queue != [] && s.phase.Queued? && !s.queue[0].job.IdleClose?
    ensures !Begin(s, order).phase.Closing?
  {
    var job := s.queue[0].job;
    if job.StablePath? {
      StablePathBegins(s, order);
      hide Begin;
    } else if job.DeleteFile? {
      BeginDeleteFrame(s, job.path, []);
      hide BeginDelete;
    } else if job.DeleteSubtree? && order != [] {
      BeginDeleteFrame(s, order[0], order[1..]);
      hide BeginDelete;
    } else {
      hide BeginDelete;
    }
  }

  /** And where no step takes a session from its holder, what an idle close has taken stays unheld. */
  lemma ClosingStaysUnheld(steps: seq<Step>)
    requires Happens(Initial, steps) && DispossessesNobody(Initial, steps)
    ensures var s, books := Run(Initial, steps), BooksAfter(NoBooks, Initial, steps);
      s.phase.Closing? ==>
        && (forall h :: h in books.leases ==> books.leases[h].sid != s.phase.sid)
        && (forall h :: h in books.operations ==> books.operations[h].sid != s.phase.sid)
  {
    BooksFollowSteps(steps);
    OwnershipIsSafe(steps);
    hide Run, BooksAfter, DispossessesNobody, Happens;
  }

  // ---------------------------------------------------------------------------
  // Open sessions
  // ---------------------------------------------------------------------------

  lemma StepKeepsOpen(s: State, step: Step)
    requires Possible(s, step)
    ensures var t := Next(s, step); s.deleted <= t.deleted && s.live <= t.live + t.deleted
  {
    if IsClientStep(step) {
      ClientStepAgrees(s, step);
    } else if IsHeadStep(step) {
      HeadKeepsBooks(s, step);
    } else {
      OutsideKeepsBooks(s, step);
    }
    hide Next;
  }

  lemma {:induction false} OpenSoFar(s: State, steps: seq<Step>, sid: SessionId)
    requires Happens(s, steps) && (sid in s.live || sid in s.deleted)
    ensures var t := Run(s, steps); sid in t.live || sid in t.deleted
    decreases |steps|
  {
    if steps != [] {
      StepKeepsOpen(s, steps[0]);
      hide Next, Possible;
      OpenSoFar(Next(s, steps[0]), steps[1..], sid);
    }
  }

  /** A session that has been opened is open until it is deleted, whatever else happens. */
  lemma OpenedStaysOpen(before: seq<Step>, sid: SessionId, after: seq<Step>)
    requires Happens(Initial, before) && Possible(Run(Initial, before), SessionOpens(sid))
    requires Happens(Next(Run(Initial, before), SessionOpens(sid)), after)
    ensures var t := Run(Next(Run(Initial, before), SessionOpens(sid)), after); sid in t.live || sid in t.deleted
  {
    var s := Next(Run(Initial, before), SessionOpens(sid));
    assert sid in s.live;
    OpenSoFar(s, after, sid);
  }
}
