/** What each kind of structure mutation achieves when nothing fails, and what it leaves when it is refused.

    Each law is about the head of the queue and the steps that carry it to its end: a move of a file, a
    deletion of a file, an idle close, an operation on a stable path, a move of a folder and a deletion
    of a folder. The laws say where every session is afterwards, in terms of the request alone, and that
    everything else is as it was.

    Steps of clients in between are left to the laws for all runs. */
module SessionEffects {
  import opened Wrappers
  import opened VaultPaths
  import opened SessionProtocol
  import opened SessionSafety
  import opened SessionMutations
  import opened SessionStragglers
  import opened SessionGuarantees
  import opened SessionOwnership

  /** The head is `job` and has not begun. */
  predicate About(s: State, job: Job) { s.queue != [] && s.phase == Queued && s.queue[0].job == job }

  /** The head has settled; the books and everything about the sessions but their places are as before. */
  ghost predicate SettledFrom(s: State, t: State) {
    && s.queue != [] && t.queue == s.queue[1..] && t.phase == Queued
    && t.leases == s.leases && t.operations == s.operations && t.clientCounts == s.clientCounts
    && t.operationCounts == s.operationCounts && t.nextSession == s.nextSession && t.stragglers == s.stragglers
    && t.barriers == set b | b in s.barriers && b.1 != s.queue[0].ticket
  }

  lemma OpenIsNotAwaited(s: State, targets: map<Path, SessionId>, rest: seq<Path>)
    requires forall p :: p in targets ==> targets[p] in s.live
    ensures AwaitOpen(s, targets, rest) == s.(phase := Opening(targets, {}, rest))
  {
    var waits := set p, b | p in targets && b in s.barriers && b.0 == targets[p] && b.0 !in s.live :: b.1;
    assert waits == {};
  }

  lemma SettlingIs(s: State)
    requires s.queue != []
    ensures Settle(s) == s.(queue := s.queue[1..], phase := Queued, barriers := set b | b in s.barriers && b.1 != s.queue[0].ticket)
  {
  }

  // ---------------------------------------------------------------------------
  // Moving one file
  // ---------------------------------------------------------------------------

  lemma RekeyingPuts(s: State, source: Path, target: Path, sid: SessionId)
    requires sid in s.live
    ensures var t := Rekeyed(s, source, target, sid);
      && t == s.(sessions := (s.sessions - {source})[target := sid], timers := t.timers)
      && (source != target ==> source !in t.timers) && (InUse(s, sid) <==> target !in t.timers)
  {
    hide InUse;
    var moved := s.(timers := s.timers - {source, target}, sessions := (s.sessions - {source})[target := sid]);
    SameHolds(s, moved);
  }

  lemma SameHolds(s: State, t: State)
    requires t.clientCounts == s.clientCounts && t.operationCounts == s.operationCounts
    ensures forall sid :: InUse(t, sid) == InUse(s, sid)
  {
  }

  function MovingOne(s: State, source: Path): State
    requires source in s.sessions
  {
    s.(phase := Moving(map[source := s.sessions[source]]), live := s.live + ({s.sessions[source]} - s.deleted))
  }

  lemma MoveFileBegins(s: State, source: Path, target: Path)
    requires About(s, MoveFile(source, target)) && source in s.sessions
    ensures Next(s, MutationBegins([])) == s.(phase := Statting(map[source := s.sessions[source]]))
  {
  }

  lemma MoveFileFinds(s: State, source: Path, target: Path)
    requires s.queue != [] && s.queue[0].job == MoveFile(source, target) && target !in s.sessions
    requires source in s.sessions && s.sessions[source] in s.live && s.phase == Statting(map[source := s.sessions[source]])
    ensures AfterStat(s, true) == s.(phase := Opening(map[source := s.sessions[source]], {}, []))
  {
    var picked := map[source := s.sessions[source]];
    assert source in picked && picked != map[];
    OpenIsNotAwaited(s, picked, []);
    hide AwaitOpen, Settle;
  }

  lemma MoveFileOpens(s: State, source: Path, target: Path)
    requires s.queue != [] && s.queue[0].job == MoveFile(source, target)
    requires source in s.sessions && s.phase == Opening(map[source := s.sessions[source]], {}, [])
    ensures AfterOpen(s, true) == MovingOne(s, source)
  {
    var picked := map[source := s.sessions[source]];
    assert picked[source] == s.sessions[source] && picked.Values == {s.sessions[source]};
    assert !Pending(s, {});
  }

  /** A file move takes the open session of its source to its target, where it is idle if nobody uses it. */
  lemma MoveFileMoves(s: State, source: Path, target: Path) returns (steps: seq<Step>, t: State)
    requires About(s, MoveFile(source, target)) && source in s.sessions && s.sessions[source] in s.live
    requires target !in s.sessions
    ensures Reaches(s, steps, t) && SettledFrom(s, t)
    ensures t.sessions == (s.sessions - {source})[target := s.sessions[source]]
    ensures source !in t.timers && (InUse(s, s.sessions[source]) <==> target !in t.timers)
  {
    hide Reaches, InUse, Rekeyed, AwaitOpen, Settle, Begin, AfterStat, AfterOpen;
    var sid := s.sessions[source];
    var picked := map[source := sid];
    var s1, s2, s3 := s.(phase := Statting(picked)), s.(phase := Opening(picked, {}, [])), MovingOne(s, source);
    MoveFileBegins(s, source, target);
    MoveFileFinds(s1, source, target);
    MoveFileOpens(s2, source, target);
    assert MovingOne(s2, source) == s3;
    OneFileMoves(s3, source, target);
    t := Next(s3, SessionMoved(source));
    steps := FourSteps(s, s1, s2, s3, t, MutationBegins([]), StatReturns(true), OpensReturn(true), SessionMoved(source));
    SameHolds(s, s3);
  }

  lemma OneFileMoves(s: State, source: Path, target: Path)
    requires s.queue != [] && s.queue[0].job == MoveFile(source, target) && source != target
    requires source in s.sessions && s.sessions[source] in s.live && s.phase == Moving(map[source := s.sessions[source]])
    ensures var t := Next(s, SessionMoved(source));
      && SettledFrom(s, t) && t.sessions == (s.sessions - {source})[target := s.sessions[source]]
      && source !in t.timers && (InUse(s, s.sessions[source]) <==> target !in t.timers)
  {
    hide InUse, Rekeyed, Settle;
    var sid := s.sessions[source];
    var picked := map[source := sid];
    assert source in picked && picked[source] == sid && picked - {source} == map[];
    RekeyingPuts(s, source, target, sid);
    SettlingIs(Rekeyed(s, source, target, sid));
  }

  lemma FourSteps(s: State, s1: State, s2: State, s3: State, t: State, a: Step, b: Step, c: Step, d: Step) returns (steps: seq<Step>)
    requires Possible(s, a) && Next(s, a) == s1 && Possible(s1, b) && Next(s1, b) == s2
    requires Possible(s2, c) && Next(s2, c) == s3 && Possible(s3, d) && Next(s3, d) == t
    ensures steps == [a, b, c, d] && Reaches(s, steps, t)
  {
    hide Possible, Next;
    steps := [a, b, c, d];
    assert steps[1..] == [b, c, d] && [b, c, d][1..] == [c, d] && [c, d][1..] == [d] && [d][1..] == [];
    assert Reaches(t, [], t) && Reaches(s3, [d], t) && Reaches(s2, [c, d], t) && Reaches(s1, [b, c, d], t);
  }

  /** A file move onto a path that another session has is refused and changes nothing. */
  lemma MoveFileIsRefused(s: State, source: Path, target: Path) returns (t: State)
    requires About(s, MoveFile(source, target)) && target in s.sessions
    requires source !in s.sessions || s.sessions[target] != s.sessions[source]
    ensures Reaches(s, [MutationBegins([]), StatReturns(true)], t) && SettledFrom(s, t)
    ensures t.sessions == s.sessions && t.timers == s.timers && t.live == s.live && t.deleted == s.deleted
  {
    var s1 := Next(s, MutationBegins([]));
    hide Settle;
    SettlingIs(s1);
    t := Next(s1, StatReturns(true));
    assert t == Settle(s1);
    var steps := [MutationBegins([]), StatReturns(true)];
    assert steps[1..] == [StatReturns(true)] && [StatReturns(true)][1..] == [];
    assert Reaches(t, [], t) && Reaches(s1, [StatReturns(true)], t);
  }

  // ---------------------------------------------------------------------------
  // Deleting one file, and closing an idle session
  // ---------------------------------------------------------------------------

  lemma DeleteFileBegins(s: State, path: Path)
    requires About(s, DeleteFile(path)) && path in s.sessions && s.sessions[path] in s.live
    ensures Next(s, MutationBegins([])) == s.(phase := Opening(map[path := s.sessions[path]], {}, []))
  {
    OpenIsNotAwaited(s, map[path := s.sessions[path]], []);
    hide AwaitOpen;
  }

  lemma PickedFileOpens(s: State, path: Path, sid: SessionId, rest: seq<Path>)
    requires s.queue != [] && (s.queue[0].job.DeleteFile? || s.queue[0].job.DeleteSubtree?)
    requires s.phase == Opening(map[path := sid], {}, rest)
    ensures AfterOpen(s, true) == s.(phase := Deleting(path, Some(sid), rest), live := s.live + ({sid} - s.deleted))
  {
    var picked := map[path := sid];
    assert path in picked && picked[path] == sid && picked.Values == {sid} && picked.Keys == {path};
    assert AnyKey(picked) == path && !Pending(s, {});
    hide Settle;
  }

  /** The sessions after one is deleted. */
  ghost predicate Loses(s: State, t: State, sid: SessionId) {
    && (forall p :: p in t.sessions <==> p in s.sessions && s.sessions[p] != sid)
    && (forall p :: p in t.sessions ==> t.sessions[p] == s.sessions[p])
    && sid in t.deleted && sid !in t.live && t.deleted == s.deleted + {sid}
  }

  /** Deleting a file deletes its session: it is under no path any more and is not open. */
  lemma DeleteFileDeletes(s: State, path: Path) returns (steps: seq<Step>, t: State)
    requires About(s, DeleteFile(path)) && path in s.sessions && s.sessions[path] in s.live
    ensures Reaches(s, steps, t) && SettledFrom(s, t) && Loses(s, t, s.sessions[path])
  {
    var sid := s.sessions[path];
    var s1 := s.(phase := Opening(map[path := sid], {}, []));
    var s2 := s.(phase := Deleting(path, Some(sid), []), live := s.live + ({sid} - s.deleted));
    DeleteFileBegins(s, path);
    PickedFileOpens(s1, path, sid, []);
    DeletionAnswers(s2, path, sid, []);
    hide Reaches, AwaitOpen, Settle, AfterOpen, AfterDelete;
    var s3 := AfterDelete(s2, true);
    t := Settle(s3);
    DeletionSettles(s, s2, s3, sid);
    steps := [MutationBegins([]), OpensReturn(true), DeleteReturns(true), DiskReturns];
    assert s1 == Begin(s, []);
    hide Begin, Loses, SettledFrom;
    FileDeletionSteps(s, s1, s2, s3);
  }

  lemma FileDeletionSteps(s: State, s1: State, s2: State, s3: State)
    requires Possible(s, MutationBegins([])) && s1 == Begin(s, [])
    requires s1.queue != [] && s1.phase.Opening? && s2 == AfterOpen(s1, true)
    requires s2.queue != [] && s2.phase.Deleting? && s3 == AfterDelete(s2, true) && s3.queue != [] && s3.phase.DiskOnly?
    ensures Reaches(s, [MutationBegins([]), OpensReturn(true), DeleteReturns(true), DiskReturns], Settle(s3))
  {
    hide Begin, AfterOpen, AfterDelete, Settle, Reaches, IsOrder;
    var steps := FourSteps(s, s1, s2, s3, Settle(s3), MutationBegins([]), OpensReturn(true), DeleteReturns(true), DiskReturns);
  }

  lemma DeletionSettles(s: State, s2: State, s3: State, sid: SessionId)
    requires s.queue != [] && s2 == s.(phase := s2.phase, live := s2.live) && Loses(s2, s3, sid) && SameBut(s2, s3)
    ensures SettledFrom(s, Settle(s3)) && Loses(s, Settle(s3), sid)
  {
    SettlingIs(s3);
    hide Settle;
  }

  /** Nothing but the phase, the places and the life of sessions is different. */
  ghost predicate SameBut(s: State, t: State) {
    t == s.(phase := t.phase, sessions := t.sessions, live := t.live, deleted := t.deleted)
  }

  lemma IdleCloseBegins(s: State, path: Path)
    requires About(s, IdleClose(path)) && path in s.sessions
    ensures var u, sid := CancelTimer(s, path), s.sessions[path];
      Next(s, MutationBegins([])) ==
        if InUse(s, sid) || sid in s.failing then Settle(u) else u.(sessions := s.sessions - {path}, phase := Closing(sid))
  {
    SameHolds(s, CancelTimer(s, path));
    hide InUse, Settle;
  }

  /** An idle close takes an unused session out of the map for good; a session that is in use stays, and so does one
      that cannot be saved. */
  lemma IdleCloseCloses(s: State, path: Path) returns (steps: seq<Step>, t: State)
    requires About(s, IdleClose(path)) && path in s.sessions
    ensures Reaches(s, steps, t) && SettledFrom(s, t) && path !in t.timers
    ensures t.sessions == if InUse(s, s.sessions[path]) || s.sessions[path] in s.failing then s.sessions else s.sessions - {path}
  {
    IdleCloseBegins(s, path);
    hide InUse, Settle, Begin;
    var sid := s.sessions[path];
    SettlingIs(CancelTimer(s, path));
    var s1 := Next(s, MutationBegins([]));
    if InUse(s, sid) || sid in s.failing {
      t := s1;
      steps := [MutationBegins([])];
      assert steps[1..] == [] && Reaches(t, [], t);
    } else {
      SettlingIs(s1);
      t := Next(s1, CloseReturns(true));
      assert t == Settle(s1);
      steps := [MutationBegins([]), CloseReturns(true)];
      assert steps[1..] == [CloseReturns(true)] && [CloseReturns(true)][1..] == [];
      assert Reaches(t, [], t) && Reaches(s1, [CloseReturns(true)], t);
    }
  }

  // ---------------------------------------------------------------------------
  // Stable-path operations
  // ---------------------------------------------------------------------------

  lemma StablePathStabilizes(s: State, path: Path, eager: Option<Eager>)
    requires About(s, StablePath(path, eager)) && path in s.sessions
    requires forall b :: b in s.barriers && b.0 == s.sessions[path] ==> b.1 == s.queue[0].ticket
    requires eager.Some? ==> eager.value.waits == {} && (eager.value.sid, s.queue[0].ticket) in s.barriers
    ensures var t, ticket, sid := Begin(s, []), s.queue[0].ticket, s.sessions[path];
      && t == s.(phase := Stabilizing(sid, {}), barriers := t.barriers) && (sid, ticket) in t.barriers
      && (set b | b in t.barriers && b.1 != ticket) == set b | b in s.barriers && b.1 != ticket
  {
    var ticket, sid := s.queue[0].ticket, s.sessions[path];
    if !(eager.Some? && eager.value.sid == sid) {
      assert BarriersOn(ReleaseBarrier(s, ticket), sid) == {};
    }
    hide BarriersOn;
  }

  lemma OperationRuns(s: State, sid: SessionId)
    requires s.queue != [] && s.phase == Stabilizing(sid, {})
    ensures AfterStable(s, true) == s.(phase := Operating)
  {
    assert !Pending(s, {});
  }

  /** An operation runs with its own barrier on the session of its path, and releases it at its end. */
  lemma StablePathOperates(s: State, path: Path, eager: Option<Eager>) returns (running: State, t: State)
    requires About(s, StablePath(path, eager)) && path in s.sessions
    requires forall b :: b in s.barriers && b.0 == s.sessions[path] ==> b.1 == s.queue[0].ticket
    requires eager.Some? ==> eager.value.waits == {} && (eager.value.sid, s.queue[0].ticket) in s.barriers
    ensures Reaches(s, [MutationBegins([]), StableReturns(true)], running) && running.phase == Operating && running.queue == s.queue
    ensures (s.sessions[path], s.queue[0].ticket) in running.barriers
    ensures Reaches(running, [OperationReturns], t) && SettledFrom(s, t)
    ensures t.sessions == s.sessions && t.timers == s.timers
  {
    StablePathStabilizes(s, path, eager);
    var s1 := Begin(s, []);
    hide Begin, Settle, AfterStable, Reaches;
    OperationRuns(s1, s.sessions[path]);
    running := s1.(phase := Operating);
    SettlingIs(running);
    t := Settle(running);
    TwoThenOne(s, s1, running, t);
  }

  lemma TwoThenOne(s: State, s1: State, s2: State, t: State)
    requires Possible(s, MutationBegins([])) && s1 == Begin(s, []) && Possible(s1, StableReturns(true)) && s2 == AfterStable(s1, true)
    requires Possible(s2, OperationReturns) && t == Settle(s2)
    ensures Reaches(s, [MutationBegins([]), StableReturns(true)], s2) && Reaches(s2, [OperationReturns], t)
  {
    hide Begin, AfterStable, Settle;
    assert [MutationBegins([]), StableReturns(true)][1..] == [StableReturns(true)];
    assert [StableReturns(true)][1..] == [] && [OperationReturns][1..] == [];
    assert Reaches(s2, [], s2) && Reaches(t, [], t) && Reaches(s1, [StableReturns(true)], s2);
  }

  // ---------------------------------------------------------------------------
  // Letting go
  // ---------------------------------------------------------------------------

  /** The session that a step lets go of. */
  function LetGo(s: State, step: Step): Option<SessionId> {
    if step.ClientReleases? && step.lease in s.leases then Some(s.leases[step.lease].sid)
    else if step.OperationEnds? && step.operation in s.operations then Some(s.operations[step.operation].sid)
    else None
  }

  lemma SchedulingStarts(s: State, path: Path)
    requires path in s.sessions && !InUse(s, s.sessions[path])
    ensures var t := ScheduleIdleClose(s, path);
      if s.sessions[path] in s.live then t == s.(timers := s.timers[path := true])
      else t == s.(sessions := s.sessions - {path}, timers := s.timers - {path})
  {
    hide InUse;
  }

  lemma OnlyPath(s: State, path: Path, fallback: Path)
    requires Injective(s.sessions) && path in s.sessions
    ensures PathOf(s, s.sessions[path], fallback) == path
  {
  }

  /** Whoever lets go of a session last starts the idle timer of the path it has by then, if it is open; one that was
      never opened is dropped at once. While anybody else holds it, nothing happens to it. */
  lemma LastHolderSchedules(s: State, step: Step, path: Path)
    requires Injective(s.sessions) && path in s.sessions && LetGo(s, step) == Some(s.sessions[path])
    ensures var t, sid := Next(s, step), s.sessions[path];
      if InUse(t, sid) then t.sessions == s.sessions && t.timers == s.timers
      else if sid in s.live then t.sessions == s.sessions && t.timers == s.timers[path := true]
      else t.sessions == s.sessions - {path} && t.timers == s.timers - {path}
  {
    var sid := s.sessions[path];
    var u := if step.ClientReleases?
      then s.(leases := s.leases - {step.lease}, clientCounts := Decrement(s.clientCounts, sid))
      else s.(operations := s.operations - {step.operation}, operationCounts := Decrement(s.operationCounts, sid));
    var fallback := if step.ClientReleases? then s.leases[step.lease].path else s.operations[step.operation].path;
    OnlyPath(u, path, fallback);
    hide InUse, PathOf, Decrement, ScheduleIdleClose;
    assert Next(s, step) == if InUse(u, sid) then u else ScheduleIdleClose(u, path);
    hide Next;
    if !InUse(u, sid) {
      SchedulingStarts(u, path);
      SameHolds(u, Next(s, step));
    }
  }

  // ---------------------------------------------------------------------------
  // Whole folders
  // ---------------------------------------------------------------------------

  /** Every picked session is under its destination, and all others are where they were. */
  ghost predicate AllMoved(s: State, t: State, targets: map<Path, SessionId>, job: Job) {
    && (forall f :: f in targets ==> Destination(job, f) in t.sessions && t.sessions[Destination(job, f)] == targets[f])
    && (forall q :: q in s.sessions && q !in targets ==> q in t.sessions && t.sessions[q] == s.sessions[q])
    && (forall q :: q in t.sessions ==> (q in s.sessions && q !in targets) || exists f :: f in targets && Destination(job, f) == q)
  }

  /** What a folder move finds when its disk move is over. */
  ghost predicate ReadyToMove(s: State, targets: map<Path, SessionId>) {
    && s.queue != [] && s.queue[0].job.MoveSubtree? && Disjoint(s.queue[0].job) && s.phase == Moving(targets) && targets != map[]
    && (forall f :: f in targets ==> s.queue[0].job.source < f && targets[f] in s.live && f in s.sessions && s.sessions[f] == targets[f])
    && (forall f :: f in targets ==> Destination(s.queue[0].job, f) !in s.sessions)
  }

  function Completions(order: seq<Path>): (steps: seq<Step>)
    ensures |steps| == |order| && forall i :: 0 <= i < |order| ==> steps[i] == SessionMoved(order[i])
  {
    seq(|order|, i requires 0 <= i < |order| => SessionMoved(order[i]))
  }

  lemma DestinationsApart(targets: map<Path, SessionId>, job: Job, path: Path)
    requires job.MoveSubtree? && Disjoint(job) && path in targets && forall f :: f in targets ==> job.source < f
    ensures forall f :: f in targets && f != path ==>
      Destination(job, f) != Destination(job, path) && Destination(job, path) != f && Destination(job, f) != path
  {
    forall f | f in targets && f != path
      ensures Destination(job, f) != Destination(job, path) && Destination(job, path) != f && Destination(job, f) != path
    {
      DestinationsDiffer(job, path, f);
      DestinationsDiffer(job, f, path);
    }
  }

  lemma OneMoves(s: State, targets: map<Path, SessionId>, path: Path) returns (t: State)
    requires ReadyToMove(s, targets) && path in targets
    ensures t == Next(s, SessionMoved(path))
    ensures var job := s.queue[0].job;
      && t.sessions == (s.sessions - {path})[Destination(job, path) := targets[path]]
      && (targets - {path} == map[] ==> SettledFrom(s, t))
      && (targets - {path} != map[] ==> t.queue == s.queue && ReadyToMove(t, targets - {path}) && SameButPlaces(s, t))
  {
    var job := s.queue[0].job;
    var target := Destination(job, path);
    var u := Rekeyed(s, path, target, targets[path]);
    OneMovesTo(s, targets, path);
    RekeyingPuts(s, path, target, targets[path]);
    hide Rekeyed, Settle, Destination, Next, InUse, Disjoint;
    t := Next(s, SessionMoved(path));
    if targets - {path} == map[] {
      SettlingIs(u);
    } else {
      OthersAreReady(s, t, targets, path);
      hide ReadyToMove;
    }
  }

  lemma OthersAreReady(s: State, t: State, targets: map<Path, SessionId>, path: Path)
    requires ReadyToMove(s, targets) && path in targets && targets - {path} != map[]
    requires t == s.(phase := Moving(targets - {path}), timers := t.timers,
                     sessions := (s.sessions - {path})[Destination(s.queue[0].job, path) := targets[path]])
    ensures ReadyToMove(t, targets - {path})
  {
    DestinationsApart(targets, s.queue[0].job, path);
    hide Destination, Disjoint;
  }

  lemma OneMovesTo(s: State, targets: map<Path, SessionId>, path: Path)
    requires s.queue != [] && s.phase == Moving(targets) && path in targets && Possible(s, SessionMoved(path))
    ensures var u := Rekeyed(s, path, Destination(s.queue[0].job, path), targets[path]);
      && (targets - {path} == map[] ==> u.queue == s.queue && Next(s, SessionMoved(path)) == Settle(u))
      && (targets - {path} != map[] ==> Next(s, SessionMoved(path)) == u.(phase := Moving(targets - {path})))
  {
    hide Rekeyed, Destination, Disjoint;
    RekeyMovesIn(s, path, Destination(s.queue[0].job, path), targets[path]);
    hide Settle;
  }

  /** Nothing but the phase, the places and the timers is different. */
  ghost predicate SameButPlaces(s: State, t: State) {
    t == s.(phase := t.phase, sessions := t.sessions, timers := t.timers)
  }

  lemma OneMoreMoved(s: State, u: State, t: State, targets: map<Path, SessionId>, path: Path, job: Job)
    requires path in targets && job.MoveSubtree? && Disjoint(job) && forall f :: f in targets ==> job.source < f
    requires u.sessions == (s.sessions - {path})[Destination(job, path) := targets[path]]
    requires AllMoved(u, t, targets - {path}, job) && Destination(job, path) !in s.sessions
    ensures AllMoved(s, t, targets, job)
  {
    var rest := targets - {path};
    forall f | f in rest
      ensures Destination(job, path) != f && Destination(job, path) != Destination(job, f)
    {
      DestinationsDiffer(job, path, f);
    }
    assert Destination(job, path) !in rest;
    hide Destination;
    forall q | q in t.sessions
      ensures (q in s.sessions && q !in targets) || exists f :: f in targets && Destination(job, f) == q
    {
      if !(q in s.sessions && q !in targets) && q != Destination(job, path) {
        assert exists f :: f in rest && Destination(job, f) == q;
      }
    }
  }

  ghost predicate Lists(order: seq<Path>, targets: map<Path, SessionId>) {
    (forall p :: p in order <==> p in targets) && forall i, j :: 0 <= i < j < |order| ==> order[i] != order[j]
  }

  lemma ListsRest(order: seq<Path>, targets: map<Path, SessionId>)
    requires Lists(order, targets) && targets != map[]
    ensures order != [] && order[0] in targets && Lists(order[1..], targets - {order[0]})
    ensures targets - {order[0]} == map[] ==> order[1..] == []
  {
    var f :| f in targets;
    assert f in order;
    var rest, left := order[1..], targets - {order[0]};
    forall p
      ensures p in rest <==> p in left
    {
      assert p in order <==> p == order[0] || p in rest;
    }
    assert rest != [] ==> rest[0] in left;
  }

  lemma CompletionsOfRest(order: seq<Path>)
    requires order != []
    ensures Completions(order) != [] && Completions(order)[0] == SessionMoved(order[0]) && Completions(order)[1..] == Completions(order[1..])
    ensures Completions([]) == []
  {
  }

  /** In whatever order the completions come, a folder move takes every picked session to its place below the target,
      leaves all others alone, and settles with the last one. */
  lemma {:induction false} MoveSubtreeMoves(s: State, targets: map<Path, SessionId>, order: seq<Path>) returns (t: State)
    requires ReadyToMove(s, targets) && Lists(order, targets)
    ensures Reaches(s, Completions(order), t) && SettledFrom(s, t) && AllMoved(s, t, targets, s.queue[0].job)
    decreases |order|
  {
    ListsRest(order, targets);
    var path, rest := order[0], order[1..];
    var left := targets - {path};
    CompletionsOfRest(order);
    var u := OneMoves(s, targets, path);
    assert Possible(s, SessionMoved(path)) && targets.Keys != {} && path in targets;
    assert Destination(s.queue[0].job, path) !in s.sessions && s.queue[0].job.MoveSubtree? && Disjoint(s.queue[0].job);
    assert forall f :: f in targets ==> s.queue[0].job.source < f;
    hide Next, Rekeyed, Possible, Lists, AllMoved, Completions;
    if left == map[] {
      t := u;
      NothingElseMoved(s, t, targets, path);
      assert Reaches(t, Completions(rest), t);
    } else {
      hide ReadyToMove, Destination, Disjoint;
      t := MoveSubtreeMoves(u, left, rest);
      OneMoreMoved(s, u, t, targets, path, s.queue[0].job);
      assert Reaches(s, Completions(order), t);
    }
  }

  lemma NothingElseMoved(s: State, t: State, targets: map<Path, SessionId>, path: Path)
    requires ReadyToMove(s, targets) && path in targets && targets - {path} == map[]
    requires t.sessions == (s.sessions - {path})[Destination(s.queue[0].job, path) := targets[path]]
    ensures AllMoved(s, t, targets, s.queue[0].job)
  {
    assert forall f :: f in targets ==> f == path by {
      forall f | f in targets
        ensures f == path
      {
        assert f in targets - {path} || f == path;
      }
    }
    hide Destination;
  }

  lemma BelowIsThere(s: State, source: Path)
    ensures forall p :: p in Below(s, source) <==> p in s.sessions && source < p
    ensures forall p :: p in Below(s, source) ==> Below(s, source)[p] == s.sessions[p]
  {
  }

  lemma MoveSubtreeFinds(s: State, source: Path, target: Path)
    requires s.queue != [] && s.queue[0].job == MoveSubtree(source, target) && s.phase.Statting? && Below(s, source) != map[]
    requires forall p :: p in s.sessions && source < p ==> s.sessions[p] in s.live
    requires forall p :: p in s.sessions ==> !AtOrUnder(target, p)
    ensures AfterStat(s, true) == s.(phase := Opening(Below(s, source), {}, []))
  {
    BelowIsThere(s, source);
    OpenIsNotAwaited(s, Below(s, source), []);
    hide AwaitOpen, Settle, Below, AtOrUnder;
  }

  lemma MoveSubtreeOpens(s: State, targets: map<Path, SessionId>)
    requires s.queue != [] && s.queue[0].job.MoveSubtree? && s.phase == Opening(targets, {}, [])
    ensures AfterOpen(s, true) == s.(phase := Moving(targets), live := s.live + (targets.Values - s.deleted))
  {
    assert !Pending(s, {});
  }

  lemma BelowGoesUnder(s: State, source: Path, target: Path, f: Path)
    requires source < f && forall p :: p in s.sessions ==> !AtOrUnder(target, p)
    ensures Destination(MoveSubtree(source, target), f) !in s.sessions
  {
    assert AtOrUnder(target, target + f[|source|..]);
  }

  lemma TargetsAreReady(s: State, source: Path, target: Path, t: State)
    requires s.queue != [] && s.queue[0].job == MoveSubtree(source, target) && Disjoint(MoveSubtree(source, target))
    requires Below(s, source) != map[] && forall p :: p in s.sessions && source < p ==> s.sessions[p] in s.live
    requires forall p :: p in s.sessions ==> !AtOrUnder(target, p)
    requires t == s.(phase := Moving(Below(s, source)), live := t.live) && s.live <= t.live
    ensures ReadyToMove(t, Below(s, source))
  {
    BelowIsThere(s, source);
    forall f | f in Below(s, source)
      ensures Destination(MoveSubtree(source, target), f) !in s.sessions
    {
      BelowGoesUnder(s, source, target, f);
    }
    hide Destination, Below, AtOrUnder;
  }

  lemma ThreeSteps(s: State, s1: State, s2: State, t: State, a: Step, b: Step, c: Step)
    requires Possible(s, a) && Next(s, a) == s1 && Possible(s1, b) && Next(s1, b) == s2 && Possible(s2, c) && Next(s2, c) == t
    ensures Reaches(s, [a, b, c], t)
  {
    hide Possible, Next;
    var steps := [a, b, c];
    assert steps[1..] == [b, c] && [b, c][1..] == [c] && [c][1..] == [];
    assert Reaches(t, [], t) && Reaches(s2, [c], t) && Reaches(s1, [b, c], t);
  }

  lemma MoveSubtreeBegins(s: State, source: Path, target: Path)
    requires About(s, MoveSubtree(source, target))
    ensures Possible(s, MutationBegins([])) && Next(s, MutationBegins([])) == s.(phase := Statting(map[]))
  {
  }

  /** A folder move picks every session below its source. */
  lemma MoveSubtreePrepares(s: State, source: Path, target: Path) returns (t: State)
    requires About(s, MoveSubtree(source, target)) && Disjoint(MoveSubtree(source, target)) && Below(s, source) != map[]
    requires forall p :: p in s.sessions && source < p ==> s.sessions[p] in s.live
    requires forall p :: p in s.sessions ==> !AtOrUnder(target, p)
    ensures Reaches(s, [MutationBegins([]), StatReturns(true), OpensReturn(true)], t)
    ensures ReadyToMove(t, Below(s, source)) && t == s.(phase := Moving(Below(s, source)), live := t.live)
  {
    hide Begin, AfterStat, AfterOpen, Disjoint, AtOrUnder, Reaches, ReadyToMove, IsOrder;
    var targets := Below(s, source);
    var s1, s2 := s.(phase := Statting(map[])), s.(phase := Opening(targets, {}, []));
    MoveSubtreeBegins(s, source, target);
    assert Below(s1, source) == targets;
    hide Below;
    MoveSubtreeFinds(s1, source, target);
    MoveSubtreeOpens(s2, targets);
    t := AfterOpen(s2, true);
    TargetsAreReady(s, source, target, t);
    ThreeSteps(s, s1, s2, t, MutationBegins([]), StatReturns(true), OpensReturn(true));
  }

  // ---------------------------------------------------------------------------
  // Deleting a folder
  // ---------------------------------------------------------------------------

  function Deletions(n: nat): seq<Step> {
    if n == 0 then [] else [OpensReturn(true), DeleteReturns(true)] + Deletions(n - 1)
  }

  /** The sessions of the listed paths are gone, and no other. */
  ghost predicate AllDeleted(s: State, t: State, order: seq<Path>) {
    && (forall p :: p in t.sessions <==> p in s.sessions && p !in order)
    && (forall p :: p in t.sessions ==> t.sessions[p] == s.sessions[p])
    && (forall p :: p in order && p in s.sessions ==> s.sessions[p] in t.deleted)
  }

  /** A folder deletion is about to delete the first of the listed paths. */
  ghost predicate ReadyToDelete(s: State, order: seq<Path>) {
    && s.queue != [] && s.queue[0].job.DeleteSubtree? && order != [] && Injective(s.sessions)
    && (forall i :: 0 <= i < |order| ==> order[i] in s.sessions && s.sessions[order[i]] in s.live)
    && (forall i, j :: 0 <= i < j < |order| ==> order[i] != order[j])
    && s.phase == Opening(map[order[0] := s.sessions[order[0]]], {}, order[1..])
  }

  lemma DeletionAnswers(s: State, path: Path, sid: SessionId, rest: seq<Path>)
    requires s.queue != [] && s.phase == Deleting(path, Some(sid), rest) && path in s.sessions && s.sessions[path] == sid
    ensures var t := AfterDelete(s, true);
      && Loses(s, t, sid) && SameBut(s, t)
      && (rest == [] ==> t.phase == DiskOnly)
      && (rest != [] && rest[0] in s.sessions && s.sessions[rest[0]] != sid && s.sessions[rest[0]] in s.live ==>
            t.phase == Opening(map[rest[0] := s.sessions[rest[0]]], {}, rest[1..]))
  {
    var v := ExternallyDeleted(s, sid);
    var w := v.(sessions := v.sessions - {path});
    assert Loses(s, w, sid) && w == s.(sessions := w.sessions, live := s.live - {sid}, deleted := w.deleted);
    hide AwaitOpen, ExternallyDeleted, Settle;
    if rest != [] && rest[0] in w.sessions && w.sessions[rest[0]] in w.live {
      OpenIsNotAwaited(w, map[rest[0] := w.sessions[rest[0]]], rest[1..]);
    }
    assert AfterDelete(s, true) == if rest == [] then w.(phase := DiskOnly) else BeginDelete(w, rest[0], rest[1..]) by {
      DeletionGoesOn(s, path, sid, rest);
    }
    hide AfterDelete;
    if rest != [] && rest[0] !in w.sessions {
      assert BeginDelete(w, rest[0], rest[1..]) == w.(phase := Deleting(rest[0], None, rest[1..]));
    } else if rest != [] {
      assert BeginDelete(w, rest[0], rest[1..]) == AwaitOpen(w, map[rest[0] := w.sessions[rest[0]]], rest[1..]);
      AwaitingKeepsRest(w, map[rest[0] := w.sessions[rest[0]]], rest[1..]);
    }
  }

  lemma AwaitingKeepsRest(s: State, targets: map<Path, SessionId>, rest: seq<Path>)
    ensures var t := AwaitOpen(s, targets, rest); t == s.(phase := t.phase)
  {
  }

  lemma DeletionGoesOn(s: State, path: Path, sid: SessionId, rest: seq<Path>)
    requires s.queue != [] && s.phase == Deleting(path, Some(sid), rest)
    ensures var v := ExternallyDeleted(s, sid);
      var w := v.(sessions := v.sessions - {path});
      AfterDelete(s, true) == if rest == [] then w.(phase := DiskOnly) else BeginDelete(w, rest[0], rest[1..])
  {
    hide BeginDelete, ExternallyDeleted;
  }

  const ONE_DELETION := [OpensReturn(true), DeleteReturns(true)]

  lemma TwoSteps(s: State, u: State, t: State)
    requires s.queue != [] && s.phase.Opening? && u == AfterOpen(s, true)
    requires u.queue != [] && u.phase.Deleting? && t == AfterDelete(u, true)
    ensures Reaches(s, ONE_DELETION, t)
  {
    hide AfterOpen, AfterDelete;
    assert ONE_DELETION[1..] == [DeleteReturns(true)] && [DeleteReturns(true)][1..] == [];
    assert Reaches(t, [], t) && Reaches(u, [DeleteReturns(true)], t);
  }

  function UnderDeletion(s: State, path: Path, sid: SessionId, rest: seq<Path>): State {
    s.(phase := Deleting(path, Some(sid), rest), live := s.live + ({sid} - s.deleted))
  }

  lemma DeletionIsReached(s: State, path: Path, sid: SessionId, rest: seq<Path>)
    requires s.queue != [] && s.queue[0].job.DeleteSubtree? && s.phase == Opening(map[path := sid], {}, rest)
    ensures Reaches(s, ONE_DELETION, AfterDelete(UnderDeletion(s, path, sid, rest), true))
  {
    hide AfterOpen, AfterDelete, Reaches;
    PickedFileOpens(s, path, sid, rest);
    TwoSteps(s, UnderDeletion(s, path, sid, rest), AfterDelete(UnderDeletion(s, path, sid, rest), true));
  }

  lemma OneIsDeleted(s: State, order: seq<Path>) returns (t: State)
    requires ReadyToDelete(s, order)
    ensures Reaches(s, ONE_DELETION, t) && Loses(s, t, s.sessions[order[0]]) && SameBut(s, t)
    ensures if |order| == 1 then t.phase == DiskOnly else ReadyToDelete(t, order[1..])
  {
    var path, rest := order[0], order[1..];
    var sid := s.sessions[path];
    DeletionIsReached(s, path, sid, rest);
    var u := UnderDeletion(s, path, sid, rest);
    t := AfterDelete(u, true);
    DeletionAnswers(u, path, sid, rest);
    hide AfterDelete, Reaches, AllDeleted;
    if rest != [] {
      assert rest[0] == order[1] && s.sessions[rest[0]] != sid && rest[1..] == order[2..];
      StillReady(s, t, order);
      hide ReadyToDelete;
    }
  }

  lemma StillReady(s: State, t: State, order: seq<Path>)
    requires ReadyToDelete(s, order) && |order| > 1 && Loses(s, t, s.sessions[order[0]]) && SameBut(s, t)
    requires s.live - {s.sessions[order[0]]} <= t.live
    requires t.phase == Opening(map[order[1] := s.sessions[order[1]]], {}, order[2..])
    ensures ReadyToDelete(t, order[1..])
  {
    var rest := order[1..];
    forall i | 0 <= i < |rest|
      ensures rest[i] in t.sessions && t.sessions[rest[i]] in t.live && t.sessions[rest[i]] == s.sessions[rest[i]]
    {
      assert rest[i] == order[i + 1] && order[i + 1] != order[0];
    }
    assert rest[1..] == order[2..];
  }

  lemma StepFirst(s: State, step: Step, rest: seq<Step>, u: State)
    requires Possible(s, step) && Reaches(Next(s, step), rest, u)
    ensures Reaches(s, [step] + rest, u)
  {
    hide Possible, Next;
    assert ([step] + rest)[1..] == rest;
  }

  lemma {:induction false} ReachesOn(s: State, steps: seq<Step>, t: State, more: seq<Step>, u: State)
    requires Reaches(s, steps, t) && Reaches(t, more, u)
    ensures Reaches(s, steps + more, u)
    decreases |steps|
  {
    hide Possible, Next;
    if steps == [] {
      assert s == t;
      assert steps + more == more;
      hide Reaches;
    } else {
      var step, rest := steps[0], steps[1..];
      assert Possible(s, step) && Reaches(Next(s, step), rest, t);
      hide Reaches;
      ReachesOn(Next(s, step), rest, t, more, u);
      StepFirst(s, step, rest + more, u);
      assert [step] + (rest + more) == steps + more;
    }
  }

  ghost predicate Deleted(s: State, t: State, order: seq<Path>) {
    AllDeleted(s, t, order) && SameBut(s, t) && s.deleted <= t.deleted
  }

  lemma FirstDeleted(s: State, w: State, t: State, order: seq<Path>)
    requires ReadyToDelete(s, order) && Loses(s, w, s.sessions[order[0]]) && SameBut(s, w) && Deleted(w, t, order[1..])
    ensures Deleted(s, t, order)
  {
    RestDeleted(s, w, t, order);
    hide AllDeleted, ReadyToDelete;
  }

  lemma NothingDeleted(s: State)
    ensures Deleted(s, s, [])
  {
  }

  lemma DeletionsOfRest(n: nat)
    requires n > 0
    ensures Deletions(n) == ONE_DELETION + Deletions(n - 1)
  {
  }

  lemma {:induction false} EachIsDeleted(s: State, order: seq<Path>) returns (u: State)
    requires ReadyToDelete(s, order)
    ensures Reaches(s, Deletions(|order|), u) && u.phase == DiskOnly && Deleted(s, u, order)
    decreases |order|
  {
    hide *;
    ReadyIsSome(s, order);
    DeletionsOfRest(|order|);
    var w := OneIsDeleted(s, order);
    if |order| == 1 {
      u := w;
      NoMoreDeletions(u);
      NothingDeleted(u);
      assert order[1..] == [];
    } else {
      u := EachIsDeleted(w, order[1..]);
    }
    ReachesOn(s, ONE_DELETION, w, Deletions(|order| - 1), u);
    FirstDeleted(s, w, u, order);
  }

  lemma ReadyIsSome(s: State, order: seq<Path>)
    requires ReadyToDelete(s, order)
    ensures order != [] && s.queue != []
  {
  }

  lemma DeletedSettles(s: State, u: State, order: seq<Path>)
    requires s.queue != [] && Deleted(s, u, order) && u.phase == DiskOnly
    ensures Possible(u, DiskReturns) && Next(u, DiskReturns) == Settle(u)
    ensures SettledFrom(s, Settle(u)) && AllDeleted(s, Settle(u), order)
  {
    SettlingIs(u);
    hide Settle;
  }

  /** A folder deletion deletes the sessions of the listed paths one after the other, and then the folder itself. */
  lemma DeleteSubtreeDeletes(s: State, order: seq<Path>) returns (t: State)
    requires ReadyToDelete(s, order)
    ensures Reaches(s, Deletions(|order|) + [DiskReturns], t) && SettledFrom(s, t) && AllDeleted(s, t, order)
  {
    ReadyIsSome(s, order);
    var u := EachIsDeleted(s, order);
    DeletedSettles(s, u, order);
    hide Settle, Reaches, Deletions, Deleted, AllDeleted, SettledFrom, ReadyToDelete, Possible;
    t := Next(u, DiskReturns);
    ReachesFurther(s, Deletions(|order|), u, DiskReturns);
  }

  lemma NoMoreDeletions(s: State)
    ensures Reaches(s, Deletions(0), s)
  {
  }

  lemma RestDeleted(s: State, w: State, t: State, order: seq<Path>)
    requires ReadyToDelete(s, order) && Loses(s, w, s.sessions[order[0]]) && AllDeleted(w, t, order[1..]) && w.deleted <= t.deleted
    ensures AllDeleted(s, t, order)
  {
    assert forall p :: p in order <==> p == order[0] || p in order[1..];
  }

  lemma DeleteSubtreeBegins(s: State, folder: Path, order: seq<Path>)
    requires About(s, DeleteSubtree(folder)) && IsOrder(s, order) && Injective(s.sessions)
    requires forall p :: p in s.sessions && folder < p ==> s.sessions[p] in s.live
    ensures var t := Next(s, MutationBegins(order));
      t == s.(phase := t.phase) && if order == [] then t.phase == DiskOnly else ReadyToDelete(t, order)
  {
    hide AwaitOpen;
    forall i | 0 <= i < |order|
      ensures order[i] in s.sessions && s.sessions[order[i]] in s.live
    {
      assert order[i] in order;
    }
    if order != [] {
      var picked := map[order[0] := s.sessions[order[0]]];
      OpenIsNotAwaited(s, picked, order[1..]);
      assert Begin(s, order) == s.(phase := Opening(picked, {}, order[1..]));
      hide Begin;
    }
  }

  /** Deleting a folder deletes every session below it, and no other. */
  lemma DeleteSubtreeEmpties(s: State, folder: Path, order: seq<Path>) returns (steps: seq<Step>, t: State)
    requires About(s, DeleteSubtree(folder)) && IsOrder(s, order) && Injective(s.sessions)
    requires forall p :: p in s.sessions && folder < p ==> s.sessions[p] in s.live
    ensures Reaches(s, steps, t) && SettledFrom(s, t)
    ensures forall p :: p in t.sessions <==> p in s.sessions && !(folder < p)
    ensures forall p :: p in t.sessions ==> t.sessions[p] == s.sessions[p]
    ensures forall p :: p in s.sessions && folder < p ==> s.sessions[p] in t.deleted
  {
    DeleteSubtreeBegins(s, folder, order);
    assert forall p :: p in order <==> p in s.sessions && folder < p;
    hide Reaches, SettledFrom, ReadyToDelete, Injective, IsOrder;
    var begin := MutationBegins(order);
    var u := Next(s, begin);
    assert Reaches(s, [begin], u) by { OneStep(s, begin); }
    if order == [] {
      NothingDeleted(u);
      DeletedSettles(u, u, []);
      hide Next, Possible;
      t := Settle(u);
      steps := [begin] + [DiskReturns];
      ReachesFurther(s, [begin], u, DiskReturns);
    } else {
      t := DeleteSubtreeDeletes(u, order);
      hide Next, Possible;
      steps := [begin] + (Deletions(|order|) + [DiskReturns]);
      ReachesOn(s, [begin], u, Deletions(|order|) + [DiskReturns], t);
    }
    SettledFromBoth(s, u, t);
  }

  lemma OneStep(s: State, step: Step)
    requires Possible(s, step)
    ensures Reaches(s, [step], Next(s, step))
  {
    hide Possible, Next;
    assert [step][1..] == [] && Reaches(Next(s, step), [], Next(s, step));
  }

  lemma SettledFromBoth(s: State, u: State, t: State)
    requires u == s.(phase := u.phase) && SettledFrom(u, t)
    ensures SettledFrom(s, t)
  {
  }
}
