/** What the session manager guarantees, and exactly which event of a run ends the guarantees.

    Ownership and waiting are told apart, with the exact condition for each, in `SessionOwnership` and
    `SessionWaiting`. */
module SessionGuarantees {
  import opened Wrappers
  import opened VaultPaths
  import opened SessionProtocol
  import opened SessionSafety
  import opened SessionMutations
  import opened SessionStragglers

  /** `steps` can happen one after the other from `s`. */
  ghost predicate Happens(s: State, steps: seq<Step>)
    decreases |steps|
  {
    steps == [] || (Possible(s, steps[0]) && Happens(Next(s, steps[0]), steps[1..]))
  }

  /** No late completion of the run disturbs anything. */
  ghost predicate Calm(s: State, steps: seq<Step>)
    requires Happens(s, steps)
    decreases |steps|
  {
    steps == [] || (!Disturbs(s, steps[0]) && Calm(Next(s, steps[0]), steps[1..]))
  }

  ghost function Run(s: State, steps: seq<Step>): State
    requires Happens(s, steps)
    decreases |steps|
  {
    if steps == [] then s else Run(Next(s, steps[0]), steps[1..])
  }

  lemma {:induction false} RunKeepsInv(s: State, steps: seq<Step>)
    requires Inv(s) && Happens(s, steps) && Calm(s, steps)
    ensures Inv(Run(s, steps))
    decreases |steps|
  {
    if steps != [] {
      StepKeepsInv(s, steps[0]);
      RunKeepsInv(Next(s, steps[0]), steps[1..]);
    }
  }

  lemma InitialInv()
    ensures Inv(Initial)
  {
    forall sid
      ensures CountMatches(Initial.clientCounts, Initial.leases, sid)
    {
    }
  }

  // ---------------------------------------------------------------------------
  // Ownership
  // ---------------------------------------------------------------------------

  /** What the manager promises at any time. A session is under at most one path, and one that is held and not
      deleted is under a path; the counts are the outstanding holds. What the running mutation has picked is
      where it was found or nowhere, and the places it is moved to are free. What is being closed is under no
      path and held by nobody, and its path stays empty. A session under a stable-open barrier is nowhere but
      at the path of the queued operation that installed it, and no earlier mutation covers that path. */
  ghost predicate Promises(s: State) {
    && Injective(s.sessions) && NoneLost(s)
    && CountsMatch(s.clientCounts, s.leases) && CountsMatch(s.operationCounts, s.operations)
    && PicksInPlace(s) && ClosingInv(s) && BarriersInv(s)
  }

  lemma InvPromises(s: State)
    requires Inv(s)
    ensures Promises(s)
  {
    InvPicks(s);
  }

  lemma DisturbingBreaksPromises(s: State, g: Straggler)
    requires Inv(s) && g in s.stragglers && DisturbsAt(s, g)
    ensures !Promises(StragglerRekeyed(s, g))
  {
    var t := StragglerRekeyed(s, g);
    LateState(s, g);
    InvPicks(s);
    LateKeepsPlaces(s, g, t);
    LateKeepsOnePath(s, g, t);
    LateKeepsPicks(s, g, t);
    LateKeepsEmpty(s, g, t);
    if Arrives(s, g) && EscapesBarrier(s, g) {
      LateBreaksBarriers(s, g, t);
    }
    hide Late, PicksInPlace, ClosingInv, BarriersInv, NoneLost, Injective, StragglerRekeyed, CountsMatch;
    hide Evicts, Arrives, Doubles, MixesUp, Intrudes, EscapesBarrier;
  }

  /** A late completion keeps the promises if and only if it disturbs nothing. */
  lemma LateCompletionKeepsPromisesIff(s: State, g: Straggler)
    requires Inv(s) && g in s.stragglers
    ensures Promises(StragglerRekeyed(s, g)) <==> !DisturbsAt(s, g)
  {
    if DisturbsAt(s, g) {
      DisturbingBreaksPromises(s, g);
    } else {
      LateKeepsInv(s, g);
      InvPromises(StragglerRekeyed(s, g));
    }
    hide Promises, DisturbsAt, StragglerRekeyed;
  }

  ghost predicate PromisesKept(s: State, steps: seq<Step>)
    requires Happens(s, steps)
    decreases |steps|
  {
    Promises(s) && (steps == [] || PromisesKept(Next(s, steps[0]), steps[1..]))
  }

  lemma StepDecides(s: State, step: Step)
    requires Inv(s) && Possible(s, step)
    ensures Promises(s)
    ensures if Disturbs(s, step) then !Promises(Next(s, step)) else Inv(Next(s, step))
  {
    InvPromises(s);
    hide Promises, DisturbsAt, Inv;
    if Disturbs(s, step) {
      DisturbingBreaksPromises(s, step.straggler);
    } else {
      StepKeepsInv(s, step);
    }
  }

  lemma {:induction false} KeptIffCalm(s: State, steps: seq<Step>)
    requires Inv(s) && Happens(s, steps)
    ensures PromisesKept(s, steps) <==> Calm(s, steps)
    decreases |steps|
  {
    hide Promises, Disturbs, Inv, Possible, Next;
    if steps == [] {
      InvPromises(s);
    } else {
      StepDecides(s, steps[0]);
      if !Disturbs(s, steps[0]) {
        KeptIffCalm(Next(s, steps[0]), steps[1..]);
      }
    }
  }

  /** The manager keeps its promises through a run if and only if no late completion of the run disturbs
      anything. Nothing is asked of the run but that it can happen. */
  lemma PromisesKeptIffCalm(steps: seq<Step>)
    requires Happens(Initial, steps)
    ensures PromisesKept(Initial, steps) <==> Calm(Initial, steps)
  {
    InitialInv();
    KeptIffCalm(Initial, steps);
  }

  // ---------------------------------------------------------------------------
  // Frames of the head
  // ---------------------------------------------------------------------------

  /** The barriers that the head is suspended on. */
  function Awaited(phase: Phase): set<Ticket> {
    match phase
    case Opening(_, waits, _) => waits
    case Stabilizing(_, waits) => waits
    case _ => {}
  }

  /** The head awaits no barrier, and is suspended where its job leads. */
  ghost predicate Ready(s: State) { !Pending(s, Awaited(s.phase)) && HeadFits(s) }

  ghost predicate HeadFits(s: State) {
    && (s.phase.Closing? ==> s.queue != [] && s.queue[0].job.IdleClose?)
    && (s.phase.Statting? ==> s.queue != [] && (s.queue[0].job.MoveFile? || s.queue[0].job.MoveSubtree?))
  }

  function Stage(phase: Phase): nat {
    match phase
    case Queued => 4
    case Statting(_) => 3
    case Opening(_, _, _) => 2
    case Deleting(_, _, _) => 2
    case Stabilizing(_, _) => 2
    case Moving(_) => 1
    case Closing(_) => 1
    case Operating => 1
    case DiskOnly => 0
  }

  function Remaining(phase: Phase): nat {
    match phase
    case Opening(_, _, rest) => 2 * |rest| + 1
    case Deleting(_, _, rest) => 2 * |rest|
    case Moving(targets) => |targets|
    case _ => 0
  }

  ghost predicate CloserToSettled(t: State, s: State) {
    || |t.queue| < |s.queue|
    || (|t.queue| == |s.queue| && Stage(t.phase) < Stage(s.phase))
    || (|t.queue| == |s.queue| && Stage(t.phase) == Stage(s.phase) && Remaining(t.phase) < Remaining(s.phase))
  }

  /** Nobody gains or loses a session, and the head has settled or is suspended somewhere new. */
  ghost predicate SettledOrSuspended(s: State, t: State)
    requires s.queue != []
  {
    && t.leases == s.leases && t.operations == s.operations
    && (t.queue == s.queue[1..] || (t.queue == s.queue && Stage(t.phase) < Stage(s.phase)))
  }

  lemma BeginStablePathFrame(s: State, order: seq<Path>)
    requires s.queue != [] && s.phase.Queued? && s.queue[0].job.StablePath?
    ensures SettledOrSuspended(s, Begin(s, order))
  {
    hide BarriersOn;
  }

  lemma BeginMoveFrame(s: State, order: seq<Path>)
    requires s.queue != [] && s.phase.Queued? && (s.queue[0].job.MoveFile? || s.queue[0].job.MoveSubtree?)
    ensures SettledOrSuspended(s, Begin(s, order))
  {
  }

  lemma BeginDeleteFrame(s: State, path: Path, rest: seq<Path>)
    requires s.queue != [] && (s.phase.Queued? || s.phase.Deleting?)
    ensures var t := BeginDelete(s, path, rest);
      && t.leases == s.leases && t.operations == s.operations && t.queue == s.queue
      && (t.phase.Opening? || t.phase.Deleting?) && t.phase.rest == rest
  {
  }

  lemma BeginIdleCloseFrame(s: State, order: seq<Path>)
    requires s.queue != [] && s.phase.Queued? && s.queue[0].job.IdleClose?
    ensures SettledOrSuspended(s, Begin(s, order))
  {
  }

  lemma BeginFrame(s: State, order: seq<Path>)
    requires s.queue != [] && s.phase.Queued?
    ensures SettledOrSuspended(s, Begin(s, order))
  {
    match s.queue[0].job
    case StablePath(_, _) => BeginStablePathFrame(s, order);
    case MoveFile(_, _) => BeginMoveFrame(s, order);
    case MoveSubtree(_, _) => BeginMoveFrame(s, order);
    case DeleteFile(path) => BeginDeleteFrame(s, path, []);
    case DeleteSubtree(_) => if order != [] { BeginDeleteFrame(s, order[0], order[1..]); }
    case IdleClose(_) => BeginIdleCloseFrame(s, order);
  }

  lemma StatMoveFileFrame(s: State, found: bool)
    requires s.queue != [] && s.phase.Statting? && s.queue[0].job.MoveFile?
    ensures SettledOrSuspended(s, AfterStat(s, found))
  {
  }

  lemma StatMoveSubtreeFrame(s: State, found: bool)
    requires s.queue != [] && s.phase.Statting? && s.queue[0].job.MoveSubtree?
    ensures SettledOrSuspended(s, AfterStat(s, found))
  {
  }

  lemma SettleFrame(s: State)
    requires s.queue != []
    ensures Settle(s).queue == s.queue[1..] && Settle(s).leases == s.leases && Settle(s).operations == s.operations
  {
  }

  lemma SettledIsQueued(s: State)
    requires s.queue != []
    ensures Settle(s).phase == Queued
  {
  }

  lemma MoveOpenFrame(s: State, ok: bool)
    requires s.queue != [] && s.phase.Opening? && !Pending(s, s.phase.waits)
    requires s.queue[0].job.MoveFile? || s.queue[0].job.MoveSubtree?
    ensures var t := AfterOpen(s, ok);
      && t.leases == s.leases && t.operations == s.operations && CloserToSettled(t, s)
  {
    SettleFrame(s);
    hide Pending, Settle;
  }

  lemma DeleteOpenFrame(s: State, ok: bool)
    requires s.queue != [] && s.phase.Opening? && !Pending(s, s.phase.waits)
    requires !s.queue[0].job.MoveFile? && !s.queue[0].job.MoveSubtree?
    ensures var t := AfterOpen(s, ok);
      && t.leases == s.leases && t.operations == s.operations && CloserToSettled(t, s)
  {
    SettleFrame(s);
    SettleFrame(s.(live := s.live + (s.phase.targets.Values - s.deleted)));
    hide Pending, Settle;
  }

  lemma OpenFrame(s: State, ok: bool)
    requires s.queue != [] && s.phase.Opening? && !Pending(s, s.phase.waits)
    ensures var t := AfterOpen(s, ok);
      && t.leases == s.leases && t.operations == s.operations && CloserToSettled(t, s)
  {
    if s.queue[0].job.MoveFile? || s.queue[0].job.MoveSubtree? {
      MoveOpenFrame(s, ok);
    } else {
      DeleteOpenFrame(s, ok);
    }
  }

  lemma MoveFrame(s: State, path: Path)
    requires s.queue != [] && s.phase.Moving?
    ensures var t := MoveCompleted(s, path);
      && t.leases == s.leases && t.operations == s.operations
      && (path in s.phase.targets ==> CloserToSettled(t, s))
  {
    var targets := s.phase.targets;
    if path in targets {
      assert targets.Keys == (targets - {path}).Keys + {path};
      RekeyMovesIn(s, path, Destination(s.queue[0].job, path), targets[path]);
    }
  }

  lemma DeleteNextFrame(s: State, t: State, rest: seq<Path>)
    requires s.queue != [] && s.phase.Deleting? && s.phase.rest == rest && rest != []
    requires t.queue == s.queue && t.phase == s.phase && t.leases == s.leases && t.operations == s.operations
    ensures var u := BeginDelete(t, rest[0], rest[1..]);
      u.leases == s.leases && u.operations == s.operations && CloserToSettled(u, s)
  {
    BeginDeleteFrame(t, rest[0], rest[1..]);
    hide BeginDelete;
  }

  lemma DeleteFrame(s: State, ok: bool)
    requires s.queue != [] && s.phase.Deleting?
    ensures var t := AfterDelete(s, ok);
      && t.leases == s.leases && t.operations == s.operations && CloserToSettled(t, s)
  {
    hide BeginDelete;
    var Deleting(path, target, rest) := s.phase;
    var t := if target.Some? then ExternallyDeleted(s, target.value) else s;
    var u := t.(sessions := t.sessions - {path});
    if ok && rest != [] {
      DeleteNextFrame(s, u, rest);
      assert AfterDelete(s, ok) == BeginDelete(u, rest[0], rest[1..]);
    }
  }

  lemma CompletionFailedFrame(s: State, path: Path)
    requires s.queue != [] && s.phase.Moving?
    ensures var t := CompletionFailed(s, path);
      && t.leases == s.leases && t.operations == s.operations && (path in s.phase.targets ==> CloserToSettled(t, s))
  {
  }

  lemma CloseFrame(s: State, ok: bool)
    requires s.queue != [] && s.phase.Closing? && s.queue[0].job.IdleClose?
    ensures var t := AfterClose(s, ok);
      && t.leases == s.leases && t.operations == s.operations && CloserToSettled(t, s)
  {
    SettleFrame(s);
    SettleFrame(s.(sessions := s.sessions[s.queue[0].job.path := s.phase.sid]));
    hide Settle;
  }

  lemma StableFrame(s: State, ok: bool)
    requires s.queue != [] && s.phase.Stabilizing? && !Pending(s, s.phase.waits)
    ensures var t := AfterStable(s, ok);
      && t.leases == s.leases && t.operations == s.operations && CloserToSettled(t, s)
  {
  }

  /** The remaining answers settle the mutation or start its operation. */
  lemma AnswerFrame(s: State, step: Step)
    requires Ready(s) && Possible(s, step)
    requires step.DiskMoveFails? || step.SessionMoveFails? || step.CloseReturns? || step.StableReturns?
      || step.OperationReturns? || step.DiskReturns?
    ensures var t := Next(s, step);
      && t.leases == s.leases && t.operations == s.operations
      && ((step.SessionMoveFails? ==> step.path in s.phase.targets) ==> CloserToSettled(t, s))
  {
    hide Begin, AfterStat, AfterOpen, MoveCompleted, AfterDelete, AfterClose, AfterStable, CompletionFailed;
    match step
    case SessionMoveFails(path) => CompletionFailedFrame(s, path);
    case CloseReturns(ok) => CloseFrame(s, ok);
    case StableReturns(ok) => StableFrame(s, ok);
    case _ =>
  }

  /** What the head picks after it has looked at the disk. */
  function Picked(s: State): map<Path, SessionId>
    requires s.queue != [] && s.phase.Statting?
  {
    if s.queue[0].job.MoveSubtree? then Below(s, s.queue[0].job.source) else s.phase.captured
  }

  lemma StatGoes(s: State, found: bool)
    requires s.queue != [] && s.phase.Statting?
    ensures AfterStat(s, found) in {s, Settle(s), s.(phase := DiskOnly), AwaitOpen(s, Picked(s), [])}
  {
    hide Settle, AwaitOpen, Below, AtOrUnder;
  }

  lemma StatHoldsNothing(s: State, found: bool)
    requires s.queue != [] && s.phase.Statting?
    ensures AfterStat(s, found).leases == s.leases && AfterStat(s, found).operations == s.operations
  {
    SettleFrame(s);
    StatGoes(s, found);
    hide AfterStat, Settle, Picked;
  }

  lemma OpenHoldsNothing(s: State, ok: bool)
    requires s.queue != [] && s.phase.Opening?
    ensures AfterOpen(s, ok).leases == s.leases && AfterOpen(s, ok).operations == s.operations
  {
    SettleFrame(s);
    SettleFrame(s.(live := s.live + (s.phase.targets.Values - s.deleted)));
    hide Pending, Settle;
  }

  lemma AnswerHoldsNothing(s: State, step: Step)
    requires Possible(s, step) && (step.DiskMoveFails? || step.CloseReturns? || step.StableReturns?
      || step.OperationReturns? || step.DiskReturns?)
    ensures Next(s, step).leases == s.leases && Next(s, step).operations == s.operations
  {
    SettleFrame(s);
    if step.CloseReturns? && s.queue[0].job.IdleClose? {
      SettleFrame(s.(sessions := s.sessions[s.queue[0].job.path := s.phase.sid]));
    }
    hide Settle, Pending;
  }

  lemma HeadHoldsNothing(s: State, step: Step)
    requires Possible(s, step) && IsHeadStep(step)
    ensures Next(s, step).leases == s.leases && Next(s, step).operations == s.operations
  {
    hide Begin, AfterStat, AfterOpen, MoveCompleted, AfterDelete, AfterClose, AfterStable, CompletionFailed;
    match step
    case MutationBegins(order) => BeginFrame(s, order);
    case StatReturns(found) => StatHoldsNothing(s, found);
    case OpensReturn(ok) => OpenHoldsNothing(s, ok);
    case SessionMoved(path) => MoveFrame(s, path);
    case SessionMoveFails(path) => CompletionFailedFrame(s, path);
    case DeleteReturns(ok) => DeleteFrame(s, ok);
    case _ => AnswerHoldsNothing(s, step);
  }

  lemma GetSessionFinds(s: State, path: Path)
    ensures var (t, sid) := GetSession(s, path);
      && t == s.(sessions := t.sessions, nextSession := t.nextSession, timers := t.timers)
      && path in t.sessions && t.sessions[path] == sid
  {
  }

  lemma AttachHandsOut(s: State, path: Path)
    ensures var t := Attach(s, path);
      && t.operations == s.operations
      && forall h :: h in t.leases && h !in s.leases ==>
           t.leases[h].path == path && !Reserved(s, path) && path in t.sessions && t.sessions[path] == t.leases[h].sid
  {
    GetSessionFinds(s, path);
    hide Reserved, GetSession, Increment;
  }

  lemma BeginOperationHandsOut(s: State, path: Path)
    ensures var t := BeginOperation(s, path);
      && t.leases == s.leases
      && forall h :: h in t.operations && h !in s.operations ==>
           t.operations[h].path == path && !Reserved(s, path) && path in t.sessions
           && t.sessions[path] == t.operations[h].sid
  {
    GetSessionFinds(s, path);
    hide Reserved, GetSession, Increment;
  }

  lemma EndingHoldsNothing(s: State, hold: nat)
    ensures Release(s, hold).leases.Keys <= s.leases.Keys && Release(s, hold).operations == s.operations
    ensures EndOperation(s, hold).operations.Keys <= s.operations.Keys && EndOperation(s, hold).leases == s.leases
  {
    hide InUse, PathOf;
  }

  lemma RekeyHoldsNothing(s: State, source: Path, target: Path, sid: SessionId)
    ensures var t := Rekeyed(s, source, target, sid); t.leases == s.leases && t.operations == s.operations
  {
    hide InUse;
  }

  lemma OthersHoldNothing(s: State, step: Step)
    requires Possible(s, step) && !IsHeadStep(step) && !step.ClientAttaches? && !step.OperationBegins?
    ensures Next(s, step).leases.Keys <= s.leases.Keys && Next(s, step).operations.Keys <= s.operations.Keys
  {
    hide Reserved, Begin, AfterStat, AfterOpen, MoveCompleted, AfterDelete, AfterClose, AfterStable, CompletionFailed;
    hide Release, EndOperation, InUse, Rekeyed, BarriersOn;
    if step.ClientReleases? {
      EndingHoldsNothing(s, step.lease);
    } else if step.OperationEnds? {
      EndingHoldsNothing(s, step.operation);
    } else if step.StragglerMoves? {
      var g := step.straggler;
      RekeyHoldsNothing(s.(stragglers := s.stragglers - {g}), g.source, g.target, g.sid);
    }
  }

  /** Nothing is handed out under a reservation, in any state whatever: a step only creates a lease or starts an
      operation on a path that no queued or running mutation covers, and then on the session of that very path. */
  lemma NothingHandedOutWhileReserved(s: State, step: Step)
    requires Possible(s, step)
    ensures var t := Next(s, step);
      && (forall h :: h in t.leases && h !in s.leases ==>
            !Reserved(s, t.leases[h].path) && t.leases[h].path in t.sessions
            && t.sessions[t.leases[h].path] == t.leases[h].sid)
      && (forall h :: h in t.operations && h !in s.operations ==>
            !Reserved(s, t.operations[h].path) && t.operations[h].path in t.sessions
            && t.sessions[t.operations[h].path] == t.operations[h].sid)
  {
    hide Reserved, Attach, BeginOperation;
    hide Begin, AfterStat, AfterOpen, MoveCompleted, AfterDelete, AfterClose, AfterStable, CompletionFailed;
    hide Release, EndOperation, SubmitStablePath, FireTimer, StragglerRekeyed;
    if IsHeadStep(step) {
      HeadHoldsNothing(s, step);
    } else if step.ClientAttaches? {
      AttachHandsOut(s, step.path);
    } else if step.OperationBegins? {
      BeginOperationHandsOut(s, step.path);
    } else {
      OthersHoldNothing(s, step);
    }
  }

  // ---------------------------------------------------------------------------
  // Progress
  // ---------------------------------------------------------------------------

  /** A head step that names work the head actually has. */
  ghost predicate Advances(s: State, step: Step) {
    && IsHeadStep(step) && Possible(s, step)
    && (step.SessionMoved? ==> step.path in s.phase.targets)
    && (step.SessionMoveFails? ==> step.path in s.phase.targets)
  }

  lemma InvIsReady(s: State)
    requires Inv(s)
    ensures Ready(s)
  {
  }

  lemma AdvancesFrom(s: State, step: Step)
    requires Ready(s) && Advances(s, step)
    ensures CloserToSettled(Next(s, step), s)
  {
    hide Begin, AfterStat, AfterOpen, MoveCompleted, AfterDelete, AfterClose, AfterStable;
    match step
    case MutationBegins(order) => BeginFrame(s, order);
    case StatReturns(found) =>
      if s.queue[0].job.MoveFile? { StatMoveFileFrame(s, found); } else { StatMoveSubtreeFrame(s, found); }
    case OpensReturn(ok) => OpenFrame(s, ok);
    case SessionMoved(path) => MoveFrame(s, path);
    case DeleteReturns(ok) => DeleteFrame(s, ok);
    case _ => AnswerFrame(s, step);
  }

  /** Whatever the disk and the sessions answer, every step of the head brings it closer to settling. */
  lemma AdvancingSettles(run: seq<Step>, step: Step)
    requires Happens(Initial, run) && Calm(Initial, run) && Advances(Run(Initial, run), step)
    ensures CloserToSettled(Next(Run(Initial, run), step), Run(Initial, run))
  {
    InitialInv();
    RunKeepsInv(Initial, run);
    InvIsReady(Run(Initial, run));
    hide Inv, Calm, Happens, Run, Advances, CloserToSettled;
    AdvancesFrom(Run(Initial, run), step);
  }

  /** What the head does next, be it with success. */
  lemma HeadStep(s: State) returns (step: Step)
    requires s.queue != []
    ensures Advances(s, step)
  {
    match s.phase
    case Queued =>
      if s.queue[0].job.DeleteSubtree? {
        var order := OrderOf(Below(s, s.queue[0].job.folder).Keys);
        step := MutationBegins(order);
      } else {
        step := MutationBegins([]);
      }
    case Statting(_) => step := StatReturns(true);
    case Opening(_, _, _) => step := OpensReturn(true);
    case Moving(_) => step := DiskMoveFails;
    case Deleting(_, _, _) => step := DeleteReturns(true);
    case Closing(_) => step := CloseReturns(true);
    case Stabilizing(_, _) => step := StableReturns(true);
    case Operating => step := OperationReturns;
    case DiskOnly => step := DiskReturns;
  }

  lemma {:induction false} OrderOf(keys: set<Path>) returns (order: seq<Path>)
    ensures forall p :: p in order <==> p in keys
    ensures forall i, j :: 0 <= i < j < |order| ==> order[i] != order[j]
    decreases |keys|
  {
    if keys == {} {
      order := [];
    } else {
      var p :| p in keys;
      var rest := OrderOf(keys - {p});
      order := [p] + rest;
    }
  }

  ghost predicate OnlyAdvances(s: State, steps: seq<Step>)
    decreases |steps|
  {
    steps == [] || (Advances(s, steps[0]) && OnlyAdvances(Next(s, steps[0]), steps[1..]))
  }

  lemma {:induction false} DrainsFrom(s: State) returns (steps: seq<Step>)
    requires Inv(s)
    ensures OnlyAdvances(s, steps) && Happens(s, steps)
    ensures Run(s, steps).queue == [] && Run(s, steps).barriers == {}
    ensures forall p :: !Reserved(Run(s, steps), p)
    decreases |s.queue|, Stage(s.phase), Remaining(s.phase)
  {
    if s.queue == [] {
      steps := [];
    } else {
      var step := HeadStep(s);
      HeadStepGoesOn(s, step);
      var rest := DrainsFrom(Next(s, step));
      steps := [step] + rest;
      assert steps[1..] == rest;
    }
  }

  /** After every calm run the queued mutations, by themselves, run to the end: the queue empties, every
      reservation is dropped and every barrier is released. No client has to do anything for it. */
  lemma QueueDrains(run: seq<Step>) returns (steps: seq<Step>)
    requires Happens(Initial, run) && Calm(Initial, run)
    ensures var s := Run(Initial, run);
      && OnlyAdvances(s, steps) && Happens(s, steps)
      && Run(s, steps).queue == [] && Run(s, steps).barriers == {}
      && forall p :: !Reserved(Run(s, steps), p)
  {
    InitialInv();
    RunKeepsInv(Initial, run);
    hide *;
    steps := DrainsFrom(Run(Initial, run));
  }

  ghost function Prefix(schedule: nat -> Step, n: nat): seq<Step> { seq(n, i requires 0 <= i < n => schedule(i)) }

  lemma PrefixOfLater(schedule: nat -> Step, later: nat -> Step, n: nat)
    requires forall k: nat :: later(k) == schedule(k + 1)
    ensures |Prefix(schedule, n + 1)| == n + 1
    ensures Prefix(schedule, n + 1)[0] == schedule(0) && Prefix(schedule, n + 1)[1..] == Prefix(later, n)
  {
  }

  lemma HeadStepGoesOn(s: State, step: Step)
    requires Inv(s) && Advances(s, step)
    ensures CloserToSettled(Next(s, step), s) && Inv(Next(s, step))
  {
    InvIsReady(s);
    AdvancesFrom(s, step);
    StepKeepsInv(s, step);
    hide Inv, Next, CloserToSettled;
  }

  lemma {:induction false} EndsFrom(s: State, schedule: nat -> Step) returns (n: nat)
    requires Inv(s)
    ensures !OnlyAdvances(s, Prefix(schedule, n))
    decreases |s.queue|, Stage(s.phase), Remaining(s.phase)
  {
    hide Inv, Next, Stage, Remaining, Possible, IsHeadStep, Prefix;
    var later := (k: nat) => schedule(k + 1);
    if Advances(s, schedule(0)) {
      HeadStepGoesOn(s, schedule(0));
      var m := EndsFrom(Next(s, schedule(0)), later);
      n := m + 1;
      PrefixOfLater(schedule, later, m);
    } else {
      n := 1;
      PrefixOfLater(schedule, later, 0);
    }
  }

  /** After a calm run no schedule of head steps goes on for ever, whatever order they come in and whatever is
      answered. */
  lemma EveryScheduleEnds(run: seq<Step>, schedule: nat -> Step) returns (n: nat)
    requires Happens(Initial, run) && Calm(Initial, run)
    ensures !OnlyAdvances(Run(Initial, run), Prefix(schedule, n))
  {
    InitialInv();
    RunKeepsInv(Initial, run);
    hide *;
    n := EndsFrom(Run(Initial, run), schedule);
  }

  lemma {:induction false} FinishedFrom(s: State, steps: seq<Step>)
    requires Inv(s) && OnlyAdvances(s, steps)
    ensures Happens(s, steps)
    ensures (forall step :: !Advances(Run(s, steps), step)) ==> Run(s, steps).queue == []
    decreases |steps|
  {
    if steps != [] {
      StepKeepsInv(s, steps[0]);
      FinishedFrom(Next(s, steps[0]), steps[1..]);
    } else if s.queue != [] {
      var step := HeadStep(s);
    }
  }

  /** After a calm run a schedule of head steps that has nothing left to do has emptied the queue. */
  lemma FinishedScheduleDrains(run: seq<Step>, steps: seq<Step>)
    requires Happens(Initial, run) && Calm(Initial, run) && OnlyAdvances(Run(Initial, run), steps)
    ensures var s := Run(Initial, run);
      && Happens(s, steps)
      && ((forall step :: !Advances(Run(s, steps), step)) ==> Run(s, steps).queue == [])
  {
    InitialInv();
    RunKeepsInv(Initial, run);
    hide *;
    FinishedFrom(Run(Initial, run), steps);
  }

  // ---------------------------------------------------------------------------
  // Late completions that do harm
  // ---------------------------------------------------------------------------

  /** `t` is reached from `s` by `steps`. */
  ghost predicate Reaches(s: State, steps: seq<Step>, t: State)
    decreases |steps|
  {
    if steps == [] then s == t else Possible(s, steps[0]) && Reaches(Next(s, steps[0]), steps[1..], t)
  }

  lemma {:induction false} ReachesFurther(s: State, steps: seq<Step>, t: State, step: Step)
    requires Reaches(s, steps, t) && Possible(t, step)
    ensures Reaches(s, steps + [step], Next(t, step))
    decreases |steps|
  {
    if steps == [] {
      assert (steps + [step])[1..] == [];
    } else {
      ReachesFurther(Next(s, steps[0]), steps[1..], t, step);
      assert (steps + [step])[1..] == steps[1..] + [step];
    }
  }

  lemma TwoSessionsBegin() returns (steps: seq<Step>, t: State)
    ensures Reaches(Initial, steps, t)
    ensures t == Initial.(sessions := map[["a", "x"] := 0, ["a", "y"] := 1], nextSession := 2, nextTicket := 1,
                          queue := [Mutation(0, MoveSubtree(["a"], ["b"]))], phase := Statting(map[]))
  {
    var x, y := ["a", "x"], ["a", "y"];
    assert x[1] != y[1];
    var job := MoveSubtree(["a"], ["b"]);
    var s1 := Next(Initial, Touch(x));
    ReachesFurther(Initial, [], Initial, Touch(x));
    var s2 := Next(s1, Touch(y));
    ReachesFurther(Initial, [Touch(x)], s1, Touch(y));
    assert [Touch(x)] + [Touch(y)] == [Touch(x), Touch(y)];
    var s3 := Next(s2, MutationSubmitted(job));
    ReachesFurther(Initial, [Touch(x), Touch(y)], s2, MutationSubmitted(job));
    steps := [Touch(x), Touch(y)] + [MutationSubmitted(job)] + [MutationBegins([])];
    t := Next(s3, MutationBegins([]));
    ReachesFurther(Initial, [Touch(x), Touch(y)] + [MutationSubmitted(job)], s3, MutationBegins([]));
    assert s3.timers == map[];
  }

  lemma TwoSessionsStat(s: State)
    requires s.queue == [Mutation(0, MoveSubtree(["a"], ["b"]))] && s.phase == Statting(map[]) && s.barriers == {}
    requires s.sessions == map[["a", "x"] := 0, ["a", "y"] := 1]
    ensures AfterStat(s, true) == s.(phase := Opening(s.sessions, {}, []))
  {
    var folder := ["a"];
    assert folder < ["a", "x"] && folder < ["a", "y"];
    assert s.queue[0].job == MoveSubtree(folder, ["b"]);
    assert Below(s, folder) == s.sessions && ["a", "x"] in s.sessions;
    HeadOpensWithoutWaiting(s, s.sessions, []);
    hide AwaitOpen, Below;
    assert forall p :: p in s.sessions ==> p[0] == "a";
    assert forall p :: p in s.sessions ==> !AtOrUnder(["b"], p);
  }

  lemma TwoSessionsOpen(s: State)
    requires s.queue == [Mutation(0, MoveSubtree(["a"], ["b"]))] && s.live == {} && s.deleted == {}
    requires s.phase == Opening(map[["a", "x"] := 0, ["a", "y"] := 1], {}, [])
    ensures AfterOpen(s, true) == s.(live := {0, 1}, phase := Moving(map[["a", "x"] := 0, ["a", "y"] := 1]))
  {
    var both := map[["a", "x"] := 0, ["a", "y"] := 1];
    assert both.Values == {0, 1} by {
      assert both[["a", "x"]] == 0 && both[["a", "y"]] == 1;
    }
    assert s.phase.targets == both && s.phase.waits == {};
    assert s.live + (both.Values - s.deleted) == {0, 1};
    assert !Pending(s, {});
    assert AfterOpen(s, true).live == s.live + (s.phase.targets.Values - s.deleted);
    assert AfterOpen(s, true).live == {0, 1};
    assert AfterOpen(s, true) == s.(live := {0, 1}, phase := Moving(both));
  }

  /** Two sessions below folder `a` whose move to folder `b` is on disk and about to be completed. */
  lemma TwoSessionsMoving() returns (steps: seq<Step>, t: State)
    ensures Reaches(Initial, steps, t)
    ensures t == Initial.(sessions := map[["a", "x"] := 0, ["a", "y"] := 1], nextSession := 2, nextTicket := 1,
                          queue := [Mutation(0, MoveSubtree(["a"], ["b"]))],
                          live := {0, 1}, phase := Moving(map[["a", "x"] := 0, ["a", "y"] := 1]))
  {
    var begun, s4 := TwoSessionsBegin();
    TwoSessionsStat(s4);
    hide Begin, AfterStat, MoveCompleted, AfterDelete, AfterClose, AfterStable, CompletionFailed;
    var both := map[["a", "x"] := 0, ["a", "y"] := 1];
    var s5 := Next(s4, StatReturns(true));
    TwoSessionsOpen(s5);
    ReachesFurther(Initial, begun, s4, StatReturns(true));
    t := Next(s5, OpensReturn(true));
    ReachesFurther(Initial, begun + [StatReturns(true)], s5, OpensReturn(true));
    steps := begun + [StatReturns(true)] + [OpensReturn(true)];
  }

  lemma YGoesToB()
    ensures Destination(MoveSubtree(["a"], ["b"]), ["a", "y"]) == ["b", "y"]
  {
    assert ["a", "y"][1..] == ["y"];
  }

  lemma NothingToRelease(s: State)
    requires s.queue != [] && s.barriers == {}
    ensures Settle(s) == s.(queue := s.queue[1..], phase := Queued)
  {
  }

  /** The completion of `a/x` fails while the one of `a/y` is still running. */
  lemma FirstCompletionFails(s: State)
    requires s.phase == Moving(map[["a", "x"] := 0, ["a", "y"] := 1]) && s.barriers == {} && s.stragglers == {}
    requires s.queue != [] && s.queue[0] == Mutation(0, MoveSubtree(["a"], ["b"]))
    ensures Next(s, SessionMoveFails(["a", "x"])) ==
      s.(queue := s.queue[1..], phase := Queued, stragglers := {Straggler(["a", "y"], ["b", "y"], 1)})
  {
    hide Begin, AfterStat, AfterOpen, MoveCompleted, AfterDelete, AfterClose, AfterStable, Destination, Settle;
    var x, y := ["a", "x"], ["a", "y"];
    var targets := s.phase.targets;
    assert x[1] != y[1];
    YGoesToB();
    assert (set p | p in targets && p != x :: Straggler(p, Destination(s.queue[0].job, p), targets[p])) ==
      {Straggler(y, ["b", "y"], 1)};
    NothingToRelease(s);
  }

  lemma FreshClientAtTarget(s: State, target: Path)
    requires s.queue == [] && s.nextSession == 2 && s.nextHold == 0 && s.leases == map[] && target !in s.sessions
    requires s.clientCounts == map[]
    ensures Attach(s, target) == s.(sessions := s.sessions[target := 2], nextSession := 3, nextHold := 1,
      leases := map[0 := Hold(2, target)], clientCounts := map[2 := 1], timers := s.timers - {target})
  {
    assert !Reserved(s, target);
  }

  lemma RekeyTakesTarget(s: State, source: Path, target: Path, sid: SessionId)
    ensures var t := Rekeyed(s, source, target, sid);
      target in t.sessions ==> t.sessions[target] == sid
  {
    hide InUse;
  }

  lemma StragglerTakesPath(s: State)
    requires s.queue == [] && s.nextSession == 2 && s.nextHold == 0 && s.leases == map[] && s.deleted == {}
    requires s.sessions == map[["a", "x"] := 0, ["a", "y"] := 1] && s.clientCounts == map[]
    requires s.stragglers == {Straggler(["a", "y"], ["b", "y"], 1)}
    ensures var attached := Next(s, ClientAttaches(["b", "y"]));
      var t := Next(attached, StragglerMoves(Straggler(["a", "y"], ["b", "y"], 1)));
      && 0 in t.leases && t.leases[0].sid !in t.deleted
      && forall p :: p in t.sessions ==> t.sessions[p] != t.leases[0].sid
  {
    hide Begin, AfterStat, AfterOpen, MoveCompleted, AfterDelete, AfterClose, AfterStable, CompletionFailed;
    hide Reserved, GetSession, Increment, InUse, Attach, Rekeyed;
    var target := ["b", "y"];
    assert target[0] != ["a", "x"][0] && target[0] != ["a", "y"][0];
    FreshClientAtTarget(s, target);
    var attached := Next(s, ClientAttaches(target));
    assert attached.stragglers - {Straggler(["a", "y"], target, 1)} == {};
    RekeyMovesIn(attached.(stragglers := {}), ["a", "y"], target, 1);
    RekeyTakesTarget(attached.(stragglers := {}), ["a", "y"], target, 1);
  }

  /** How ownership is lost. The completion of the first session's move fails, so the mutation
      settles and `b/y` is free again. A client attaches there and is given a fresh session; then the
      second session's completion ends and takes over the path. The client is left with a session that was
      never deleted and is under no path. */
  lemma StragglerLosesHeldSession() returns (steps: seq<Step>, t: State)
    ensures Reaches(Initial, steps, t)
    ensures 0 in t.leases && t.leases[0].sid !in t.deleted
    ensures forall p :: p in t.sessions ==> t.sessions[p] != t.leases[0].sid
  {
    hide Begin, AfterStat, AfterOpen, MoveCompleted, AfterDelete, AfterClose, AfterStable;
    var x, target := ["a", "x"], ["b", "y"];
    var before, s := TwoSessionsMoving();
    FirstCompletionFails(s);
    ReachesFurther(Initial, before, s, SessionMoveFails(x));
    steps := before + [SessionMoveFails(x)];
    var failed := Next(s, SessionMoveFails(x));
    StragglerTakesPath(failed);
    ReachesFurther(Initial, steps, failed, ClientAttaches(target));
    steps := steps + [ClientAttaches(target)];
    var attached := Next(failed, ClientAttaches(target));
    var straggler := Straggler(["a", "y"], target, 1);
    ReachesFurther(Initial, steps, attached, StragglerMoves(straggler));
    steps := steps + [StragglerMoves(straggler)];
    t := Next(attached, StragglerMoves(straggler));
  }
}
