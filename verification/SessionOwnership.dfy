/** Who has which session, and exactly which steps take a session from its holder. */
module SessionOwnership {
  import opened Wrappers
  import opened VaultPaths
  import opened SessionProtocol
  import opened SessionSafety
  import opened SessionMutations
  import opened SessionStragglers
  import opened SessionGuarantees

  // ---------------------------------------------------------------------------
  // What the steps keep
  // ---------------------------------------------------------------------------

  /** Sessions are known by number wherever they appear, and the counts are the outstanding holds. */
  ghost predicate Known(s: State) {
    && IdsInv(s) && CountsMatch(s.clientCounts, s.leases) && CountsMatch(s.operationCounts, s.operations)
    && PicksKnown(s) && StragglersInv(s)
    && (s.phase.Closing? ==> s.phase.sid < s.nextSession && s.queue != [] && s.queue[0].job.IdleClose?)
  }

  ghost predicate PicksKnown(s: State) { forall f :: f in Targets(s) ==> Targets(s)[f] < s.nextSession }

  // ---------------------------------------------------------------------------
  // Ownership
  // ---------------------------------------------------------------------------

  /** What an idle close has taken is held by nobody and is under no path, and its path stays empty. */
  ghost predicate ClosesApart(s: State) {
    s.phase.Closing? && s.queue != [] && s.queue[0].job.IdleClose? ==>
      !Placed(s, s.phase.sid) && !InUse(s, s.phase.sid) && s.queue[0].job.path !in s.sessions
  }

  /** A session is under at most one path, and one that is held and not deleted is under a path. */
  ghost predicate Owned(s: State) { Injective(s.sessions) && NoneLost(s) && ClosesApart(s) }

  /** The session comes back to where a close keeps it, or another one, away. */
  predicate MeetsClose(s: State, g: Straggler) {
    s.phase.Closing? && s.queue != [] && s.queue[0].job.IdleClose? && (s.phase.sid == g.sid || s.queue[0].job.path == g.target)
  }

  /** A moved session takes the place of one that is held, or is by now under a third path, or meets a close. */
  predicate Ousts(s: State, g: Straggler) {
    Evicts(s, g, g.source) || Evicts(s, g, g.target) || (Arrives(s, g) && (Doubles(s, g) || MeetsClose(s, g)))
  }

  /** The file is deleted from under a session that the deletion has not picked. */
  predicate Orphans(s: State, path: Path, target: Option<SessionId>) {
    path in s.sessions && target != Some(s.sessions[path]) && InUse(s, s.sessions[path]) && s.sessions[path] !in s.deleted
  }

  /** What ends ownership, to be checked before the step: a completed move, in time or late, or a deletion. */
  predicate Dispossesses(s: State, step: Step) {
    match step
    case StragglerMoves(g) => g in s.stragglers && Ousts(s, g)
    case SessionMoved(path) =>
      s.queue != [] && s.phase.Moving? && path in s.phase.targets
      && Ousts(s, Straggler(path, Destination(s.queue[0].job, path), s.phase.targets[path]))
    case DeleteReturns(ok) => s.queue != [] && s.phase.Deleting? && ok && Orphans(s, s.phase.path, s.phase.target)
    case _ => false
  }

  // ---------------------------------------------------------------------------
  // Steps in which sessions only leave the map
  // ---------------------------------------------------------------------------

  /** Nobody's holds change, and nothing new is in the map. */
  ghost predicate Leaves(s: State, t: State) {
    && t.nextSession == s.nextSession && t.nextHold == s.nextHold
    && t.leases == s.leases && t.operations == s.operations
    && t.clientCounts == s.clientCounts && t.operationCounts == s.operationCounts
    && s.deleted <= t.deleted
    && (forall p :: p in t.sessions ==> p in s.sessions && t.sessions[p] == s.sessions[p])
  }

  /** Besides, a session that is held and not deleted stays where it is. */
  ghost predicate LeavesHeld(s: State, t: State) {
    && Leaves(s, t)
    && (forall p :: p in s.sessions && InUse(s, s.sessions[p]) && s.sessions[p] !in t.deleted ==> p in t.sessions)
  }

  /** The head, its picks, the barriers and the late completions are of known sessions, and no close is new. */
  ghost predicate KnowsHead(s: State, t: State) {
    && (forall b :: b in t.barriers ==> b.0 < s.nextSession) && PicksKnown(t) && StragglersInv(t)
    && (t.phase.Closing? ==> t.phase == s.phase && t.queue != [] && s.queue != [] && t.queue[0] == s.queue[0])
  }

  lemma LeavingKeepsKnown(s: State, t: State)
    requires Known(s) && Leaves(s, t) && KnowsHead(s, t)
    ensures Known(t)
  {
    hide CountsMatch, PicksKnown;
  }

  lemma LeavingKeepsOwned(s: State, t: State)
    requires Known(s) && Owned(s) && LeavesHeld(s, t) && KnowsHead(s, t)
    ensures Known(t) && Owned(t)
  {
    forall sid | InUse(t, sid) && sid !in t.deleted
      ensures Placed(t, sid)
    {
      assert InUse(s, sid);
      var p :| p in s.sessions && s.sessions[p] == sid;
      assert p in t.sessions && t.sessions[p] == sid;
    }
    hide CountsMatch, PicksKnown, InUse;
  }

  lemma EnqueueLeaves(s: State, t: State)
    requires Known(s) && t == s.(queue := t.queue, nextTicket := t.nextTicket, timers := t.timers, barriers := t.barriers)
    requires s.queue <= t.queue && forall b :: b in t.barriers ==> b.0 < s.nextSession
    ensures LeavesHeld(s, t) && KnowsHead(s, t)
  {
    assert Targets(t) == Targets(s);
    hide InUse, CountsMatch, Targets;
  }

  lemma SubmitJoins(s: State, path: Path)
    requires (forall p :: p in s.sessions ==> s.sessions[p] < s.nextSession) && forall b :: b in s.barriers ==> b.0 < s.nextSession
    ensures var t := SubmitStablePath(s, path);
      && t == s.(queue := t.queue, nextTicket := t.nextTicket, barriers := t.barriers) && s.queue <= t.queue
      && forall b :: b in t.barriers ==> b.0 < s.nextSession
  {
    hide Reserved, BarriersOn;
  }

  lemma SubmitLeaves(s: State, path: Path)
    requires Known(s)
    ensures LeavesHeld(s, SubmitStablePath(s, path)) && KnowsHead(s, SubmitStablePath(s, path))
  {
    SubmitJoins(s, path);
    hide Known, LeavesHeld, KnowsHead, SubmitStablePath;
    EnqueueLeaves(s, SubmitStablePath(s, path));
  }

  lemma SubmissionLeaves(s: State, step: Step)
    requires Known(s) && Possible(s, step)
    requires step.StablePathSubmitted? || step.MutationSubmitted? || step.TimerFires?
    ensures LeavesHeld(s, Next(s, step)) && KnowsHead(s, Next(s, step))
  {
    if step.StablePathSubmitted? {
      SubmitLeaves(s, step.path);
    } else {
      assert forall b :: b in s.barriers ==> b.0 < s.nextSession;
      hide Known, LeavesHeld, KnowsHead, SubmitStablePath;
      EnqueueLeaves(s, Next(s, step));
    }
  }

  lemma OutsideLeaves(s: State, step: Step)
    requires Known(s) && Possible(s, step)
    requires step.SessionOpens? || step.SessionDeleted? || step.PersistFails? || step.PersistRecovers? || step.StragglerFails?
    ensures LeavesHeld(s, Next(s, step)) && KnowsHead(s, Next(s, step))
  {
    var t := Next(s, step);
    assert t.phase == s.phase && Targets(t) == Targets(s);
    hide InUse, CountsMatch, Targets;
  }

  lemma SettlingLeaves(s: State)
    requires Known(s) && s.queue != []
    ensures LeavesHeld(s, Settle(s)) && KnowsHead(s, Settle(s))
  {
    hide InUse, CountsMatch;
  }

  lemma LeavesTwice(s: State, t: State, u: State)
    requires LeavesHeld(s, t) && LeavesHeld(t, u)
    ensures LeavesHeld(s, u)
  {
    assert forall sid :: InUse(t, sid) == InUse(s, sid);
    hide InUse;
  }

  /** The head is suspended somewhere else, and holds what it picked from the map. */
  ghost predicate Suspends(s: State, t: State) {
    && t == s.(phase := t.phase, barriers := t.barriers, live := t.live)
    && (forall b :: b in t.barriers ==> b.0 < s.nextSession)
    && (forall f :: f in Targets(t) ==> Targets(t)[f] < s.nextSession) && !t.phase.Closing?
  }

  lemma SuspendingLeaves(s: State, t: State)
    requires Known(s) && Suspends(s, t)
    ensures LeavesHeld(s, t) && KnowsHead(s, t)
  {
    hide InUse, CountsMatch, Targets;
  }

  lemma ReleasingTakesBarriers(s: State, ticket: Ticket)
    ensures var t := ReleaseBarrier(s, ticket); t == s.(barriers := t.barriers) && t.barriers <= s.barriers
  {
  }

  lemma StablePathBegins(s: State, order: seq<Path>)
    requires s.queue != [] && s.phase.Queued? && s.queue[0].job.StablePath?
    ensures var t, path := Begin(s, order), s.queue[0].job.path;
      && t == s.(phase := t.phase, barriers := t.barriers) && (t.phase.Stabilizing? || t.phase.Operating?)
      && forall b :: b in t.barriers ==> b in s.barriers || (path in s.sessions && b.0 == s.sessions[path])
  {
    ReleasingTakesBarriers(s, s.queue[0].ticket);
    hide ReleaseBarrier, BarriersOn;
  }

  lemma StablePathSuspends(s: State, order: seq<Path>)
    requires Known(s) && s.queue != [] && s.phase.Queued? && s.queue[0].job.StablePath?
    ensures Suspends(s, Begin(s, order))
  {
    StablePathBegins(s, order);
    hide Begin, CountsMatch;
  }

  lemma DeleteSuspends(s: State, path: Path, rest: seq<Path>)
    requires Known(s) && s.queue != []
    ensures Suspends(s, BeginDelete(s, path, rest))
  {
    hide CountsMatch;
  }

  lemma ClosingOwns(s: State, t: State, path: Path)
    requires Known(s) && Owned(s) && path in s.sessions && !InUse(s, s.sessions[path])
    requires t == s.(sessions := s.sessions - {path}, phase := Closing(s.sessions[path]), timers := t.timers)
    requires s.queue != [] && s.queue[0].job == IdleClose(path)
    ensures Known(t) && Owned(t)
  {
    hide CountsMatch;
    assert forall held :: InUse(t, held) == InUse(s, held);
    forall held | InUse(t, held) && held !in t.deleted
      ensures Placed(t, held)
    {
      var p :| p in s.sessions && s.sessions[p] == held;
      assert p in t.sessions && t.sessions[p] == held;
    }
    hide InUse;
  }

  lemma IdleCloseOwns(s: State, order: seq<Path>)
    requires Known(s) && Owned(s) && s.queue != [] && s.phase.Queued? && s.queue[0].job.IdleClose?
    ensures Known(Begin(s, order)) && Owned(Begin(s, order))
  {
    var t, path := Begin(s, order), s.queue[0].job.path;
    var u := CancelTimer(s, path);
    hide Known, Owned, InUse, Settle;
    if t.phase.Closing? {
      assert !InUse(s, s.sessions[path]) by { TimersDoNotHold(s, u); }
      ClosingOwns(s, t, path);
    } else {
      CancellingLeaves(s, path);
      LeavingKeepsOwned(s, u);
      SettlingLeaves(u);
      LeavingKeepsOwned(u, Settle(u));
      assert t == Settle(u) by { SettledIsQueued(u); }
    }
  }

  lemma TimersDoNotHold(s: State, t: State)
    requires t == s.(timers := t.timers)
    ensures forall sid :: InUse(t, sid) == InUse(s, sid)
  {
  }

  lemma CancellingLeaves(s: State, path: Path)
    requires Known(s)
    ensures LeavesHeld(s, CancelTimer(s, path)) && KnowsHead(s, CancelTimer(s, path))
  {
    assert Targets(CancelTimer(s, path)) == Targets(s);
    hide InUse, CountsMatch, Targets;
  }

  lemma BeginningSuspends(s: State, order: seq<Path>)
    requires Known(s) && s.queue != [] && s.phase.Queued? && !s.queue[0].job.IdleClose?
    ensures Suspends(s, Begin(s, order))
  {
    var job := s.queue[0].job;
    if job.StablePath? {
      StablePathSuspends(s, order);
    } else if job.DeleteFile? {
      hide Known, BeginDelete, Suspends;
      DeleteSuspends(s, job.path, []);
    } else if job.DeleteSubtree? && order != [] {
      hide Known, BeginDelete, Suspends;
      DeleteSuspends(s, order[0], order[1..]);
    } else {
      MoveSuspends(s, order);
    }
  }

  lemma MoveSuspends(s: State, order: seq<Path>)
    requires Known(s) && s.queue != [] && s.phase.Queued?
    requires s.queue[0].job.MoveFile? || s.queue[0].job.MoveSubtree? || (s.queue[0].job.DeleteSubtree? && order == [])
    ensures Suspends(s, Begin(s, order))
  {
    hide CountsMatch;
  }

  lemma SuspendingOwns(s: State, t: State)
    requires Known(s) && Owned(s) && Suspends(s, t)
    ensures Known(t) && Owned(t)
  {
    hide Known, Owned, Suspends, LeavesHeld, KnowsHead;
    SuspendingLeaves(s, t);
    LeavingKeepsOwned(s, t);
  }

  lemma SettlingOwns(s: State)
    requires Known(s) && Owned(s) && s.queue != []
    ensures Known(Settle(s)) && Owned(Settle(s))
  {
    hide Known, Owned, Settle, LeavesHeld, KnowsHead;
    SettlingLeaves(s);
    LeavingKeepsOwned(s, Settle(s));
  }

  lemma BeginningOwns(s: State, order: seq<Path>)
    requires Known(s) && Owned(s) && s.queue != [] && s.phase.Queued?
    ensures Known(Begin(s, order)) && Owned(Begin(s, order))
  {
    hide Known, Owned, Suspends, Begin;
    if s.queue[0].job.IdleClose? {
      IdleCloseOwns(s, order);
    } else {
      BeginningSuspends(s, order);
      SuspendingOwns(s, Begin(s, order));
    }
  }

  lemma PickedIsKnown(s: State, targets: map<Path, SessionId>)
    requires PicksKnown(s) && Targets(s) == targets
    ensures forall f :: f in targets ==> targets[f] < s.nextSession
  {
  }

  lemma OpeningSuspends(s: State, targets: map<Path, SessionId>, rest: seq<Path>)
    requires Known(s) && forall f :: f in targets ==> targets[f] < s.nextSession
    ensures Suspends(s, AwaitOpen(s, targets, rest))
  {
    hide CountsMatch;
  }

  lemma PickedAreKnown(s: State)
    requires Known(s) && s.queue != [] && s.phase.Statting?
    ensures forall f :: f in Picked(s) ==> Picked(s)[f] < s.nextSession
  {
    PickedIsKnown(s, s.phase.captured);
    hide CountsMatch;
  }

  lemma StatOwns(s: State, found: bool)
    requires Known(s) && Owned(s) && s.queue != [] && s.phase.Statting?
    ensures Known(AfterStat(s, found)) && Owned(AfterStat(s, found))
  {
    var t, u := s.(phase := DiskOnly), AwaitOpen(s, Picked(s), []);
    StatGoes(s, found);
    PickedAreKnown(s);
    hide AfterStat, Picked, AwaitOpen, Settle, Owned;
    SettlingOwns(s);
    OpeningSuspends(s, Picked(s), []);
    assert Suspends(s, t) by { hide CountsMatch; }
    hide Known, Suspends;
    SuspendingOwns(s, t);
    SuspendingOwns(s, u);
  }

  lemma OpenGoes(s: State, ok: bool)
    requires s.queue != [] && s.phase.Opening?
    ensures var t := AfterOpen(s, ok);
      var u := s.(live := s.live + (s.phase.targets.Values - s.deleted));
      || t == s || t == Settle(s) || t == Settle(u)
      || (t == u.(phase := t.phase) && !t.phase.Closing?
          && forall f :: f in Targets(t) ==> f in s.phase.targets && Targets(t)[f] == s.phase.targets[f])
  {
    hide Settle, Pending;
  }

  lemma OpenOwns(s: State, ok: bool)
    requires Known(s) && Owned(s) && s.queue != [] && s.phase.Opening?
    ensures Known(AfterOpen(s, ok)) && Owned(AfterOpen(s, ok))
  {
    var t := AfterOpen(s, ok);
    var u := s.(live := s.live + (s.phase.targets.Values - s.deleted));
    OpenGoes(s, ok);
    PickedIsKnown(s, s.phase.targets);
    assert forall b :: b in s.barriers ==> b.0 < s.nextSession;
    assert Targets(u) == s.phase.targets;
    hide Known, Owned, AfterOpen, Settle, Targets;
    assert Suspends(s, u);
    SettlingOwns(s);
    SuspendingOwns(s, u);
    SettlingOwns(u);
    if t != s && t != Settle(s) && t != Settle(u) {
      assert Suspends(s, t);
      SuspendingOwns(s, t);
    }
  }

  lemma StableOwns(s: State, ok: bool)
    requires Known(s) && Owned(s) && s.queue != [] && s.phase.Stabilizing?
    ensures Known(AfterStable(s, ok)) && Owned(AfterStable(s, ok))
  {
    var t := s.(phase := Operating);
    assert Suspends(s, t) by { hide CountsMatch; }
    hide Known, Owned, Suspends, Settle, Pending;
    SettlingOwns(s);
    SuspendingOwns(s, t);
  }

  lemma FailedMoveOwns(s: State, path: Path)
    requires Known(s) && Owned(s) && s.queue != [] && s.phase.Moving?
    ensures Known(CompletionFailed(s, path)) && Owned(CompletionFailed(s, path))
  {
    if path in s.phase.targets {
      var t, u := Settle(s), CompletionFailed(s, path);
      assert forall p :: p in s.phase.targets ==> p in Targets(s) && s.phase.targets[p] < s.nextSession;
      SettlingOwns(s);
      assert LeavesHeld(t, u) && KnowsHead(t, u) by { hide InUse, CountsMatch, Destination; }
      hide Known, Owned, LeavesHeld, KnowsHead, Settle, CompletionFailed;
      LeavingKeepsOwned(t, u);
    }
  }

  // ---------------------------------------------------------------------------
  // Steps that can take a session from its holder
  // ---------------------------------------------------------------------------

  lemma SameMap(s: State, t: State)
    requires t.sessions == s.sessions && t.deleted == s.deleted
    requires t.clientCounts == s.clientCounts && t.operationCounts == s.operationCounts
    ensures NoneLost(t) <==> NoneLost(s)
    ensures ClosesApart(s) && t.phase == s.phase && t.queue == s.queue ==> ClosesApart(t)
  {
    assert forall sid :: InUse(t, sid) == InUse(s, sid);
    assert forall sid :: Placed(t, sid) == Placed(s, sid);
    hide InUse, Placed;
  }

  lemma PuttingMeetsClose(s: State, g: Straggler, t: State)
    requires Late(s, g, t) && ClosesApart(s)
    ensures ClosesApart(t) <==> !(Arrives(s, g) && MeetsClose(s, g))
  {
    assert forall sid :: InUse(t, sid) == InUse(s, sid);
    if Arrives(s, g) {
      assert t.sessions[g.target] == g.sid;
      assert Placed(t, g.sid);
    }
    hide InUse, Arrives;
  }

  lemma LateOwnedIff(s: State, g: Straggler, t: State)
    requires Known(s) && Owned(s) && Late(s, g, t) && g.sid < s.nextSession
    ensures Known(t) && (Owned(t) <==> !Ousts(s, g))
  {
    LateKeepsPlaces(s, g, t);
    LateKeepsOnePath(s, g, t);
    PuttingMeetsClose(s, g, t);
    assert Targets(t) == Targets(s);
    hide Evicts, Arrives, Doubles, MeetsClose, NoneLost, Injective, ClosesApart, CountsMatch, Targets;
  }

  lemma RekeyedIsLate(s: State, g: Straggler)
    ensures var t := Rekeyed(s, g.source, g.target, g.sid);
      && t == s.(sessions := t.sessions, timers := t.timers)
      && Late(s.(stragglers := {g}), g, t.(stragglers := {}))
  {
    RekeyMovesIn(s, g.source, g.target, g.sid);
    assert {g} - {g} == {};
  }

  /** A rekeying keeps ownership if and only if it ousts nobody. */
  lemma RekeyOwnedIff(s: State, g: Straggler)
    requires Known(s) && Owned(s) && g.sid < s.nextSession
    ensures var t := Rekeyed(s, g.source, g.target, g.sid);
      Known(t) && (Owned(t) <==> !Ousts(s, g))
  {
    var u, t := s.(stragglers := {g}), Rekeyed(s, g.source, g.target, g.sid);
    var v := t.(stragglers := {});
    RekeyedIsLate(s, g);
    hide Rekeyed, Late;
    assert StragglersInv(t);
    hide Known, Owned, Ousts;
    OwnedIgnoresStragglers(s, u);
    LateOwnedIff(u, g, v);
    OwnedIgnoresStragglers(v, t);
    OustsIgnoresStragglers(s, u, g);
  }

  lemma OwnedIgnoresStragglers(s: State, t: State)
    requires t == s.(stragglers := t.stragglers)
    ensures Owned(t) <==> Owned(s)
    ensures Known(s) && StragglersInv(t) ==> Known(t)
  {
    SameMap(s, t);
    SameMap(t, s);
    assert Targets(t) == Targets(s);
    hide NoneLost, ClosesApart, Injective, CountsMatch, Targets;
  }

  lemma OustsIgnoresStragglers(s: State, t: State, g: Straggler)
    requires t == s.(stragglers := t.stragglers)
    ensures Ousts(t, g) <==> Ousts(s, g)
  {
  }

  lemma StragglerOwnedIff(s: State, g: Straggler)
    requires Known(s) && Owned(s)
    ensures var t := StragglerRekeyed(s, g);
      Known(t) && (Owned(t) <==> !Dispossesses(s, StragglerMoves(g)))
  {
    if g in s.stragglers {
      var u := s.(stragglers := s.stragglers - {g});
      OwnedIgnoresStragglers(s, u);
      OustsIgnoresStragglers(s, u, g);
      assert g.sid < u.nextSession && StragglersInv(u);
      hide Known, Owned, Ousts, Rekeyed;
      RekeyOwnedIff(u, g);
    }
  }

  /** What follows a completed move takes nobody's session. */
  ghost predicate MovesOn(s: State, t: State) {
    && t == s.(phase := t.phase, queue := t.queue, barriers := t.barriers)
    && t.barriers <= s.barriers && !t.phase.Closing? && !s.phase.Closing?
    && forall f :: f in Targets(t) ==> f in Targets(s) && Targets(t)[f] == Targets(s)[f]
  }

  lemma MovingOnOwnedIff(s: State, t: State)
    requires Known(s) && MovesOn(s, t)
    ensures Known(t) && (Owned(t) <==> Owned(s))
  {
    SameMap(s, t);
    hide NoneLost, Injective, CountsMatch, Targets;
  }

  lemma CompletedMovesOn(s: State, u: State, path: Path)
    requires s.queue != [] && s.phase.Moving? && path in s.phase.targets && u == s.(sessions := u.sessions, timers := u.timers)
    ensures MovesOn(u, u.(phase := Moving(s.phase.targets - {path}))) && MovesOn(u, Settle(u))
  {
  }

  lemma MoveOwnedIff(s: State, path: Path)
    requires Known(s) && Owned(s) && s.queue != [] && s.phase.Moving?
    ensures var t := MoveCompleted(s, path);
      Known(t) && (Owned(t) <==> !Dispossesses(s, SessionMoved(path)))
  {
    var targets := s.phase.targets;
    if path in targets {
      var g := Straggler(path, Destination(s.queue[0].job, path), targets[path]);
      var u, t := Rekeyed(s, g.source, g.target, g.sid), MoveCompleted(s, path);
      PickedIsKnown(s, targets);
      RekeyedIsLate(s, g);
      hide Rekeyed, Late, Destination, Known, Owned, Ousts, Settle, MovesOn;
      RekeyOwnedIff(s, g);
      CompletedMovesOn(s, u, path);
      assert t == Settle(u) || t == u.(phase := Moving(targets - {path}));
      hide MoveCompleted;
      MovingOnOwnedIff(u, t);
    }
  }

  lemma OrphanedIsLost(s: State, t: State, path: Path, target: Option<SessionId>)
    requires Owned(s) && Leaves(s, t) && Orphans(s, path, target) && path !in t.sessions
    requires t.deleted == s.deleted + if target.Some? then {target.value} else {}
    ensures !NoneLost(t)
  {
    var sid := s.sessions[path];
    assert InUse(t, sid) && sid !in t.deleted;
    assert !Placed(t, sid) by { assert Injective(s.sessions); }
  }

  lemma DeletionLeaves(s: State, path: Path, target: Option<SessionId>)
    ensures var t := if target.Some? then ExternallyDeleted(s, target.value) else s;
      var u := t.(sessions := t.sessions - {path});
      && Leaves(s, u) && path !in u.sessions && (!Orphans(s, path, target) ==> LeavesHeld(s, u))
      && u == s.(sessions := u.sessions, deleted := u.deleted, live := u.live)
      && u.deleted == s.deleted + if target.Some? then {target.value} else {}
  {
    hide InUse;
  }

  lemma SameHead(s: State, t: State)
    requires Known(s) && t.phase == s.phase && t.queue == s.queue && t.barriers == s.barriers
    requires t.stragglers == s.stragglers && t.nextSession == s.nextSession
    ensures KnowsHead(s, t)
  {
    assert Targets(t) == Targets(s);
    hide CountsMatch, Targets;
  }

  lemma DeletionOwnedIff(s: State, u: State, path: Path, target: Option<SessionId>)
    requires Known(s) && Owned(s) && Leaves(s, u) && KnowsHead(s, u) && path !in u.sessions
    requires u.deleted == s.deleted + if target.Some? then {target.value} else {}
    requires !Orphans(s, path, target) ==> LeavesHeld(s, u)
    ensures Known(u) && (Owned(u) <==> !Orphans(s, path, target))
  {
    if Orphans(s, path, target) {
      LeavingKeepsKnown(s, u);
      OrphanedIsLost(s, u, path, target);
    } else {
      LeavingKeepsOwned(s, u);
    }
    hide Known, Orphans, Leaves, LeavesHeld, KnowsHead, NoneLost;
  }

  lemma DeleteOwnedIff(s: State, ok: bool)
    requires Known(s) && Owned(s) && s.queue != [] && s.phase.Deleting?
    ensures var t := AfterDelete(s, ok);
      Known(t) && (Owned(t) <==> !Dispossesses(s, DeleteReturns(ok)))
  {
    hide Known, Owned, BeginDelete, Leaves, LeavesHeld, KnowsHead, Orphans, Suspends, Settle;
    var Deleting(path, target, rest) := s.phase;
    if ok {
      var v := if target.Some? then ExternallyDeleted(s, target.value) else s;
      var u := v.(sessions := v.sessions - {path});
      DeletionLeaves(s, path, target);
      SameHead(s, u);
      DeletionOwnedIff(s, u, path, target);
      NextDeletionSuspends(u, rest);
      assert AfterDelete(s, ok) == if rest == [] then u.(phase := DiskOnly) else BeginDelete(u, rest[0], rest[1..]);
      hide AfterDelete;
      SuspendingOwnedIff(u, AfterDelete(s, ok));
    } else {
      SettlingOwns(s);
    }
  }

  lemma NextDeletionSuspends(s: State, rest: seq<Path>)
    requires Known(s) && s.queue != []
    ensures Suspends(s, if rest == [] then s.(phase := DiskOnly) else BeginDelete(s, rest[0], rest[1..]))
  {
    if rest != [] {
      DeleteSuspends(s, rest[0], rest[1..]);
    }
    hide CountsMatch, BeginDelete;
  }

  lemma SuspendingOwnedIff(s: State, t: State)
    requires Known(s) && Suspends(s, t) && !s.phase.Closing?
    ensures Known(t) && (Owned(t) <==> Owned(s))
  {
    SameMap(s, t);
    hide NoneLost, Injective, CountsMatch, Targets;
  }

  lemma CloseOwns(s: State, ok: bool)
    requires Known(s) && Owned(s) && s.queue != [] && s.phase.Closing?
    ensures Known(AfterClose(s, ok)) && Owned(AfterClose(s, ok))
  {
    var path, sid := s.queue[0].job.path, s.phase.sid;
    var u := s.(sessions := s.sessions[path := sid], phase := Queued);
    assert Known(u) by { hide CountsMatch; }
    assert Injective(u.sessions);
    assert NoneLost(u) by {
      forall held | InUse(u, held) && held !in u.deleted
        ensures Placed(u, held)
      {
        assert InUse(s, held);
        var p :| p in s.sessions && s.sessions[p] == held;
        assert p in u.sessions && u.sessions[p] == held;
      }
    }
    assert Owned(u);
    hide Known, Owned;
    SettlingOwns(s);
    SettlingOwns(u);
  }

  // ---------------------------------------------------------------------------
  // Clients and operations
  // ---------------------------------------------------------------------------

  lemma GetSessionClosesApart(s: State, path: Path)
    requires Known(s) && ClosesApart(s) && !Reserved(s, path)
    ensures ClosesApart(GetSession(s, path).0)
  {
    var t := GetSession(s, path).0;
    if s.phase.Closing? {
      assert Covers(s.queue[0].job, s.queue[0].job.path) && path != s.queue[0].job.path;
      assert forall held :: InUse(t, held) == InUse(s, held);
      hide InUse, Reserved, CountsMatch;
    }
  }

  lemma GetSessionShape(s: State, path: Path)
    ensures var (t, sid) := GetSession(s, path);
      && t == s.(sessions := t.sessions, nextSession := t.nextSession, timers := t.timers) && t.nextSession >= s.nextSession
      && path in t.sessions && t.sessions[path] == sid
  {
  }

  lemma StaysKnown(s: State, t: State)
    requires Known(s) && OwnershipInv(t) && t.phase == s.phase && t.queue == s.queue && t.stragglers == s.stragglers
    requires t.nextSession >= s.nextSession
    ensures Known(t)
  {
    assert Targets(t) == Targets(s);
    hide CountsMatch, Targets, IdsInv, Injective;
  }

  lemma GetSessionOwns(s: State, path: Path)
    requires Known(s) && Owned(s) && !Reserved(s, path)
    ensures var (t, sid) := GetSession(s, path);
      && Known(t) && Owned(t) && path in t.sessions && t.sessions[path] == sid
      && t == s.(sessions := t.sessions, nextSession := t.nextSession, timers := t.timers)
  {
    var (t, sid) := GetSession(s, path);
    assert OwnershipInv(s) && NoneLost(s);
    GetSessionShape(s, path);
    hide GetSession, NoneLost, ClosesApart, CountsMatch, Injective, Reserved, InUse, IdsInv, PicksKnown;
    GetSessionKeepsOwnership(s, path);
    GetSessionKeepsPlaces(s, path);
    GetSessionClosesApart(s, path);
    StaysKnown(s, t);
  }

  /** One more hold on the session of a path. */
  lemma HoldingOwns(s: State, t: State, path: Path)
    requires Known(s) && Owned(s) && path in s.sessions
    requires t == s.(leases := t.leases, operations := t.operations, clientCounts := t.clientCounts,
                     operationCounts := t.operationCounts, nextHold := s.nextHold + 1)
    requires forall h :: h in t.leases ==> (h in s.leases && t.leases[h] == s.leases[h]) || (h == s.nextHold && t.leases[h].sid == s.sessions[path])
    requires forall h :: h in t.operations ==>
      (h in s.operations && t.operations[h] == s.operations[h]) || (h == s.nextHold && t.operations[h].sid == s.sessions[path])
    requires CountsMatch(t.clientCounts, t.leases) && CountsMatch(t.operationCounts, t.operations)
    requires forall sid :: InUse(t, sid) ==> InUse(s, sid) || sid == s.sessions[path]
    ensures Known(t) && Owned(t)
  {
    HoldKeepsPlaces(s, t, path);
    assert PicksKnown(t) by { assert Targets(t) == Targets(s); }
    assert Placed(s, s.sessions[path]);
    assert forall sid :: Placed(t, sid) == Placed(s, sid);
    hide InUse, CountsMatch, NoneLost, Injective, PicksKnown, Placed;
  }

  lemma AttachOwns(s: State, path: Path)
    requires Known(s) && Owned(s)
    ensures Known(Attach(s, path)) && Owned(Attach(s, path))
  {
    if !Reserved(s, path) {
      var (t, sid) := GetSession(s, path);
      var u := Attach(s, path);
      GetSessionOwns(s, path);
      HolderAdded(t.clientCounts, t.leases, t.nextHold, Hold(sid, path));
      hide Owned, GetSession, CountsMatch, Reserved;
      HoldingOwns(t, u, path);
    }
  }

  lemma BeginOperationOwns(s: State, path: Path)
    requires Known(s) && Owned(s)
    ensures Known(BeginOperation(s, path)) && Owned(BeginOperation(s, path))
  {
    if Reserved(s, path) {
      CancellingLeaves(s, path);
      LeavingKeepsOwned(s, CancelTimer(s, path));
    } else {
      var (t, sid) := GetSession(s, path);
      var u := BeginOperation(s, path);
      GetSessionOwns(s, path);
      HolderAdded(t.operationCounts, t.operations, t.nextHold, Hold(sid, path));
      hide Owned, GetSession, CountsMatch, Reserved;
      HoldingOwns(t, u, path);
    }
  }

  /** Fewer holds, same map. */
  lemma UnholdingOwns(s: State, t: State)
    requires Known(s) && Owned(s)
    requires t == s.(leases := t.leases, operations := t.operations,
                     clientCounts := t.clientCounts, operationCounts := t.operationCounts)
    requires forall h :: h in t.leases ==> h in s.leases && t.leases[h] == s.leases[h]
    requires forall h :: h in t.operations ==> h in s.operations && t.operations[h] == s.operations[h]
    requires CountsMatch(t.clientCounts, t.leases) && CountsMatch(t.operationCounts, t.operations)
    requires forall sid :: InUse(t, sid) ==> InUse(s, sid)
    ensures Known(t) && Owned(t)
  {
    assert forall sid :: Placed(t, sid) == Placed(s, sid);
    assert PicksKnown(t) by { assert Targets(t) == Targets(s); }
    hide InUse, CountsMatch, Placed, Injective, PicksKnown;
  }

  lemma ScheduleOwns(s: State, path: Path)
    requires Known(s) && Owned(s)
    ensures Known(ScheduleIdleClose(s, path)) && Owned(ScheduleIdleClose(s, path))
  {
    var t := ScheduleIdleClose(s, path);
    SchedulingTrims(s, path);
    assert t.queue == s.queue && t.phase == s.phase && t.barriers == s.barriers && t.stragglers == s.stragglers;
    hide ScheduleIdleClose;
    SameHead(s, t);
    hide Known, Owned, KnowsHead, InUse;
    LeavingKeepsOwned(s, t);
  }

  lemma ReleaseOwns(s: State, lease: nat)
    requires Known(s) && Owned(s)
    ensures Known(Release(s, lease)) && Owned(Release(s, lease))
  {
    if lease in s.leases {
      var hold := s.leases[lease];
      var t := s.(leases := s.leases - {lease}, clientCounts := Decrement(s.clientCounts, hold.sid));
      HolderCounts(s.clientCounts, s.leases, lease);
      HolderRemoved(s.clientCounts, s.leases, lease);
      hide Owned, CountsMatch;
      UnholdingOwns(s, t);
      hide Known;
      ScheduleOwns(t, PathOf(t, hold.sid, hold.path));
      hide ScheduleIdleClose, PathOf, InUse;
    }
  }

  lemma EndOperationOwns(s: State, operation: nat)
    requires Known(s) && Owned(s)
    ensures Known(EndOperation(s, operation)) && Owned(EndOperation(s, operation))
  {
    if operation in s.operations {
      var hold := s.operations[operation];
      var t := s.(operations := s.operations - {operation}, operationCounts := Decrement(s.operationCounts, hold.sid));
      HolderCounts(s.operationCounts, s.operations, operation);
      HolderRemoved(s.operationCounts, s.operations, operation);
      hide Owned, CountsMatch;
      UnholdingOwns(s, t);
      hide Known;
      ScheduleOwns(t, PathOf(t, hold.sid, hold.path));
      hide ScheduleIdleClose, PathOf, InUse;
    }
  }

  // ---------------------------------------------------------------------------
  // Every step and every run
  // ---------------------------------------------------------------------------

  lemma ClientOwns(s: State, step: Step)
    requires Known(s) && Owned(s) && Possible(s, step) && IsClientStep(step)
    ensures Known(Next(s, step)) && Owned(Next(s, step))
  {
    hide Known, Owned, Reserved, GetSession, Attach, Release, BeginOperation, EndOperation;
    match step
    case Touch(path) => if !Reserved(s, path) { GetSessionOwns(s, path); }
    case ClientAttaches(path) => AttachOwns(s, path);
    case ClientReleases(lease) => ReleaseOwns(s, lease);
    case OperationBegins(path) => BeginOperationOwns(s, path);
    case OperationEnds(operation) => EndOperationOwns(s, operation);
  }

  lemma HeadOwnedIff(s: State, step: Step)
    requires Known(s) && Owned(s) && Possible(s, step) && IsHeadStep(step)
    ensures var t := Next(s, step); Known(t) && (Owned(t) <==> !Dispossesses(s, step))
  {
    hide Known, Owned, Ousts, Orphans, Settle, IsOrder, Disjoint;
    hide Begin, AfterStat, AfterOpen, MoveCompleted, AfterDelete, AfterClose, AfterStable, CompletionFailed;
    match step
    case MutationBegins(order) => BeginningOwns(s, order);
    case StatReturns(found) => StatOwns(s, found);
    case OpensReturn(ok) => OpenOwns(s, ok);
    case SessionMoved(path) => MoveOwnedIff(s, path);
    case SessionMoveFails(path) => FailedMoveOwns(s, path);
    case DeleteReturns(ok) => DeleteOwnedIff(s, ok);
    case CloseReturns(ok) => CloseOwns(s, ok);
    case StableReturns(ok) => StableOwns(s, ok);
    case _ => SettlingOwns(s);
  }

  /** A step ends ownership if and only if it takes a session from its holder, whatever happened before. */
  lemma StepOwnedIff(s: State, step: Step)
    requires Known(s) && Owned(s) && Possible(s, step)
    ensures var t := Next(s, step); Known(t) && (Owned(t) <==> !Dispossesses(s, step))
  {
    hide Known, Owned, LeavesHeld, KnowsHead;
    if IsHeadStep(step) {
      HeadOwnedIff(s, step);
    } else if IsClientStep(step) {
      ClientOwns(s, step);
    } else if step.StragglerMoves? {
      StragglerOwnedIff(s, step.straggler);
    } else {
      if step.StablePathSubmitted? || step.MutationSubmitted? || step.TimerFires? {
        SubmissionLeaves(s, step);
      } else {
        OutsideLeaves(s, step);
      }
      LeavingKeepsOwned(s, Next(s, step));
    }
  }

  ghost predicate AlwaysOwned(s: State, steps: seq<Step>)
    requires Happens(s, steps)
    decreases |steps|
  {
    Owned(s) && (steps == [] || AlwaysOwned(Next(s, steps[0]), steps[1..]))
  }

  ghost predicate DispossessesNobody(s: State, steps: seq<Step>)
    requires Happens(s, steps)
    decreases |steps|
  {
    steps == [] || (!Dispossesses(s, steps[0]) && DispossessesNobody(Next(s, steps[0]), steps[1..]))
  }

  lemma {:induction false} AlwaysOwnedFrom(s: State, steps: seq<Step>)
    requires Known(s) && Owned(s) && Happens(s, steps)
    ensures AlwaysOwned(s, steps) <==> DispossessesNobody(s, steps)
    ensures DispossessesNobody(s, steps) ==> Known(Run(s, steps)) && Owned(Run(s, steps))
    decreases |steps|
  {
    hide Known, Owned, Dispossesses, Possible, Next;
    if steps != [] {
      StepOwnedIff(s, steps[0]);
      if !Dispossesses(s, steps[0]) {
        AlwaysOwnedFrom(Next(s, steps[0]), steps[1..]);
      }
    }
  }

  lemma InitialOwned()
    ensures Known(Initial) && Owned(Initial)
  {
    forall sid
      ensures CountMatches(Initial.clientCounts, Initial.leases, sid)
    {
    }
  }

  /** Ownership, exactly. Through any run that can happen, calm or not, every session is under at most one path,
      every held one has a path unless it was deleted, and a close is apart from everybody, if and only if no step
      of the run takes a session from its holder. */
  lemma AlwaysOwnedIff(steps: seq<Step>)
    requires Happens(Initial, steps)
    ensures AlwaysOwned(Initial, steps) <==> DispossessesNobody(Initial, steps)
  {
    InitialOwned();
    AlwaysOwnedFrom(Initial, steps);
  }

  /** What a run without such a step ends in: a session is the session of at most one path; the counts are exactly the
      outstanding leases and running operations; a session that is held and was not deleted is still the
      session of its path; and a session that an idle close has taken is held by nobody, is under no path,
      and its path has no other session. */
  lemma OwnershipIsSafe(steps: seq<Step>)
    requires Happens(Initial, steps) && DispossessesNobody(Initial, steps)
    ensures var s := Run(Initial, steps);
      && (forall p, q :: p in s.sessions && q in s.sessions && s.sessions[p] == s.sessions[q] ==> p == q)
      && (forall h :: h in s.leases && s.leases[h].sid !in s.deleted ==>
            exists p :: p in s.sessions && s.sessions[p] == s.leases[h].sid)
      && (forall h :: h in s.operations && s.operations[h].sid !in s.deleted ==>
            exists p :: p in s.sessions && s.sessions[p] == s.operations[h].sid)
      && (forall sid :: sid in s.clientCounts ==> s.clientCounts[sid] == |Holders(s.leases, sid)|)
      && (forall sid :: sid in s.operationCounts ==> s.operationCounts[sid] == |Holders(s.operations, sid)|)
      && (s.phase.Closing? ==>
            && (forall h :: h in s.leases ==> s.leases[h].sid != s.phase.sid)
            && (forall h :: h in s.operations ==> s.operations[h].sid != s.phase.sid)
            && (forall p :: p in s.sessions ==> s.sessions[p] != s.phase.sid)
            && s.queue != [] && s.queue[0].job.IdleClose? && s.queue[0].job.path !in s.sessions)
  {
    InitialOwned();
    AlwaysOwnedFrom(Initial, steps);
    var s := Run(Initial, steps);
    forall h | h in s.leases
      ensures InUse(s, s.leases[h].sid)
    {
      HolderCounts(s.clientCounts, s.leases, h);
    }
    forall h | h in s.operations
      ensures InUse(s, s.operations[h].sid)
    {
      HolderCounts(s.operationCounts, s.operations, h);
    }
    forall sid | sid in s.clientCounts
      ensures s.clientCounts[sid] == |Holders(s.leases, sid)|
    {
      assert CountMatches(s.clientCounts, s.leases, sid);
    }
    forall sid | sid in s.operationCounts
      ensures s.operationCounts[sid] == |Holders(s.operations, sid)|
    {
      assert CountMatches(s.operationCounts, s.operations, sid);
    }
  }

  lemma {:induction false} CalmIsAlwaysOwned(s: State, steps: seq<Step>)
    requires Inv(s) && Happens(s, steps) && Calm(s, steps)
    ensures AlwaysOwned(s, steps)
    decreases |steps|
  {
    InvIsOwned(s);
    hide Inv, Owned, Disturbs, Possible, Next;
    if steps != [] {
      StepKeepsInv(s, steps[0]);
      CalmIsAlwaysOwned(Next(s, steps[0]), steps[1..]);
    }
  }

  lemma InvIsOwned(s: State)
    requires Inv(s)
    ensures Owned(s)
  {
  }

  /** Where no late completion disturbs anything, no step takes a session from its holder. */
  lemma CalmRunsDispossessNobody(steps: seq<Step>)
    requires Happens(Initial, steps) && Calm(Initial, steps)
    ensures DispossessesNobody(Initial, steps)
  {
    InitialInv();
    CalmIsAlwaysOwned(Initial, steps);
    AlwaysOwnedIff(steps);
  }
}
