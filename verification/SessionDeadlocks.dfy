/** Two runs into a deadlock. In the first one the late completion closes the circle; in the second one an ordinary
    move does, long after it. */
module SessionDeadlocks {
  import opened Wrappers
  import opened VaultPaths
  import opened SessionProtocol
  import opened SessionMutations
  import opened SessionStragglers
  import opened SessionGuarantees
  import opened SessionWaiting
  import opened SessionProgress
  import opened SessionOwnership

  // ---------------------------------------------------------------------------
  // The late completion closes the circle
  // ---------------------------------------------------------------------------

  // While folder `a` is moved to `b`, a delete of note `c` and an operation on `b/y` are
  // queued behind the move. The completion of `a/x` fails, and the delete begins. An operation on `a/y` is
  // submitted: nothing covers that path, so it gets its barrier at once. The late completion takes the session
  // from `a/y` to `b/y`. The delete ends, and the operation on `b/y` begins and finds the session there.

  const AY: Path := ["a", "y"]
  const BY: Path := ["b", "y"]
  const LATE := Straggler(AY, BY, 1)

  /** The two operations and the delete are queued, the delete is running, and the late session is still to come. */
  ghost predicate BeforeLate(s: State) {
    && s.sessions == map[["a", "x"] := 0, AY := 1] && s.live == {0, 1} && s.nextSession == 2
    && s.clientCounts == map[] && s.operationCounts == map[] && s.timers == map[]
    && s.queue == [Mutation(1, DeleteFile(["c"])), Mutation(2, StablePath(BY, None)), Mutation(3, StablePath(AY, Some(Eager(1, {}))))]
    && s.phase == Deleting(["c"], None, []) && s.barriers == {(1, 3)} && s.stragglers == {Straggler(AY, BY, 1)}
  }

  lemma QueueBehindMove(before: seq<Step>, s: State) returns (steps: seq<Step>, t: State)
    requires Reaches(Initial, before, s)
    requires s.queue == [Mutation(0, MoveSubtree(["a"], ["b"]))] && s.nextTicket == 1
    requires s.sessions == map[["a", "x"] := 0, AY := 1]
    ensures Reaches(Initial, steps, t)
    ensures t == s.(queue := s.queue + [Mutation(1, DeleteFile(["c"]))] + [Mutation(2, StablePath(BY, None))], nextTicket := 3)
  {
    hide Begin, AfterStat, AfterOpen, MoveCompleted, AfterDelete, AfterClose, AfterStable, CompletionFailed, Reserved;
    var delete := MutationSubmitted(DeleteFile(["c"]));
    ReachesFurther(Initial, before, s, delete);
    var u := Next(s, delete);
    assert BY[0] != ["a", "x"][0] && BY[0] != AY[0];
    assert BY !in u.sessions;
    ReachesFurther(Initial, before + [delete], u, StablePathSubmitted(BY));
    t := Next(u, StablePathSubmitted(BY));
    steps := before + [delete] + [StablePathSubmitted(BY)];
  }

  lemma EagerOperationFollows(s: State)
    requires s.sessions == map[["a", "x"] := 0, AY := 1] && s.barriers == {} && s.nextTicket == 3
    requires s.queue == [Mutation(1, DeleteFile(["c"])), Mutation(2, StablePath(BY, None))]
    ensures Next(s, StablePathSubmitted(AY)) ==
      s.(queue := s.queue + [Mutation(3, StablePath(AY, Some(Eager(1, {}))))], nextTicket := 4, barriers := {(1, 3)})
  {
    hide Begin, AfterStat, AfterOpen, MoveCompleted, AfterDelete, AfterClose, AfterStable, CompletionFailed;
    assert AY[0] != ["c"][0] && AY[0] != BY[0] && AY[1] != ["a", "x"][1];
    assert !Reserved(s, AY);
    assert BarriersOn(s, 1) == {};
  }

  lemma ReachBeforeLate() returns (steps: seq<Step>, t: State)
    ensures Reaches(Initial, steps, t) && BeforeLate(t)
  {
    var moving, s := TwoSessionsMoving();
    var queued, u := QueueBehindMove(moving, s);
    hide Reaches, AfterStat, AfterOpen, MoveCompleted, AfterDelete, AfterClose, AfterStable, CompletionFailed;
    FirstCompletionFails(u);
    assert u.queue[1..] == [Mutation(1, DeleteFile(["c"])), Mutation(2, StablePath(BY, None))];
    ReachesFurther(Initial, queued, u, SessionMoveFails(["a", "x"]));
    steps := queued + [SessionMoveFails(["a", "x"])];
    var v := Next(u, SessionMoveFails(["a", "x"]));
    assert ["c"][0] != "a";
    assert Begin(v, []) == v.(phase := Deleting(["c"], None, []));
    ReachesFurther(Initial, steps, v, MutationBegins([]));
    steps := steps + [MutationBegins([])];
    var w := Next(v, MutationBegins([]));
    hide Begin;
    EagerOperationFollows(w);
    ReachesFurther(Initial, steps, w, StablePathSubmitted(AY));
    steps := steps + [StablePathSubmitted(AY)];
    t := Next(w, StablePathSubmitted(AY));
  }

  /** The late completion takes a session from nobody, but its own is under the barrier of an operation elsewhere. */
  lemma LateArrives(s: State)
    requires BeforeLate(s)
    ensures var t := StragglerRekeyed(s, LATE);
      && BY in t.sessions && t.sessions[BY] == 1 && t.queue == s.queue && t.phase == s.phase && t.barriers == s.barriers
    ensures ClosesCircle(s, StragglerMoves(LATE))
    ensures !Dispossesses(s, StragglerMoves(LATE))
  {
    assert AY[0] != BY[0] && AY[1] != ["a", "x"][1];
    RekeyedPuts(s.(stragglers := {}), LATE);
    assert s.stragglers - {LATE} == {};
    hide StragglerRekeyed;
    assert StragglerRekeyed(s, LATE) == Rekeyed(s.(stragglers := {}), AY, BY, 1) by { LateIsRekeyed(s); }
    assert Approaches(s, 1, BY, 1) && s.queue[2].ticket == 3;
  }

  lemma LateIsRekeyed(s: State)
    requires s.stragglers == {LATE}
    ensures StragglerRekeyed(s, LATE) == Rekeyed(s.(stragglers := {}), AY, BY, 1)
  {
    assert s.stragglers - {LATE} == {};
    hide Rekeyed;
  }

  /** The delete ends, and the operation on the target begins. */
  lemma OperationMeetsLate(s: State)
    requires s.queue == [Mutation(1, DeleteFile(["c"])), Mutation(2, StablePath(BY, None)), Mutation(3, StablePath(AY, Some(Eager(1, {}))))]
    requires s.phase == Deleting(["c"], None, []) && s.barriers == {(1, 3)} && BY in s.sessions && s.sessions[BY] == 1
    ensures var t := AfterDelete(s, false);
      && t.queue == s.queue[1..] && t.phase == Queued && MutualWait(Begin(t, []), 2, 3)
  {
    var t := AfterDelete(s, false);
    assert t.barriers == {(1, 3)};
    assert t.queue == [Mutation(2, StablePath(BY, None)), Mutation(3, StablePath(AY, Some(Eager(1, {}))))];
    assert (1, 3) in t.barriers && 3 in BarriersOn(t, 1);
    assert BoundToWait(t, 0, 1);
    hide AfterDelete;
    BoundHeadDeadlocks(t, 1, []);
    hide Begin;
    assert Begin(t, []).queue[1].ticket == 3;
  }

  /** Two operations are left in the queue: the head awaits the other's barrier, and the other its turn. */
  ghost predicate MutualWait(t: State, first: Ticket, second: Ticket) {
    && |t.queue| == 2 && t.queue[0].ticket == first && t.queue[1].ticket == second
    && Deadlocked(t) && WaitsFor(t, 0, 1) && WaitsFor(t, 1, 0)
  }

  lemma ReachDeadlock() returns (steps: seq<Step>, t: State)
    ensures Reaches(Initial, steps, t) && MutualWait(t, 2, 3)
  {
    var before, s := ReachBeforeLate();
    var late := StragglerMoves(LATE);
    LateArrives(s);
    ReachesFurther(Initial, before, s, late);
    var u := Next(s, late);
    OperationMeetsLate(u);
    hide Reaches, Begin, AfterDelete, StragglerRekeyed, AfterStat, AfterOpen, MoveCompleted, AfterClose, AfterStable, CompletionFailed;
    hide MutualWait;
    ReachesFurther(Initial, before + [late], u, DeleteReturns(false));
    var v := Next(u, DeleteReturns(false));
    ReachesFurther(Initial, before + [late] + [DeleteReturns(false)], v, MutationBegins([]));
    t := Next(v, MutationBegins([]));
    steps := before + [late] + [DeleteReturns(false)] + [MutationBegins([])];
  }

  /** How waiting becomes circular. The operation on `b/y` waits for the barrier of the one on `a/y`, which waits
      for its turn behind it, and neither is ever over. */
  lemma StragglerDeadlocks() returns (steps: seq<Step>, t: State)
    ensures Reaches(Initial, steps, t)
    ensures |t.queue| == 2 && WaitsFor(t, 0, 1) && WaitsFor(t, 1, 0)
    ensures forall more :: Happens(t, more) ==> Run(t, more).phase == t.phase && t.queue <= Run(t, more).queue
  {
    steps, t := ReachDeadlock();
    hide Reaches, Happens, Run;
    forall more | Happens(t, more)
      ensures Run(t, more).phase == t.phase && t.queue <= Run(t, more).queue
    {
      DeadlockIsForever(t, more);
    }
  }

  // ---------------------------------------------------------------------------
  // A move closes the circle
  // ---------------------------------------------------------------------------

  // Behind the same folder move a delete of note `c`, a move of `b/y` to `w` and an operation on `w` are queued. The
  // completion of `a/x` fails, the delete begins, and an operation on `a/y` gets its barrier. The late completion
  // takes the session to `b/y`, where no operation is queued. The delete ends, and the move of `b/y` goes as it
  // should: it takes the session, which is open, to `w`, and there the operation behind it finds it.

  const W: Path := ["w"]

  const MovesAway: seq<Mutation> := [Mutation(2, MoveFile(BY, W)), Mutation(3, StablePath(W, None))]
  const LastOperation := Mutation(4, StablePath(AY, Some(Eager(1, {}))))

  lemma QueueMoveAway(before: seq<Step>, s: State) returns (steps: seq<Step>, t: State)
    requires Reaches(Initial, before, s)
    requires s.queue == [Mutation(0, MoveSubtree(["a"], ["b"]))] && s.nextTicket == 1
    ensures Reaches(Initial, steps, t)
    ensures t == s.(queue := s.queue + [Mutation(1, DeleteFile(["c"]))] + MovesAway, nextTicket := 4)
  {
    hide Begin, AfterStat, AfterOpen, MoveCompleted, AfterDelete, AfterClose, AfterStable, CompletionFailed;
    var delete, move := MutationSubmitted(DeleteFile(["c"])), MutationSubmitted(MoveFile(BY, W));
    ReachesFurther(Initial, before, s, delete);
    var u := Next(s, delete);
    ReachesFurther(Initial, before + [delete], u, move);
    var v := Next(u, move);
    assert v.queue[2].job == MoveFile(BY, W) && Reserved(v, W);
    hide Reserved;
    ReachesFurther(Initial, before + [delete] + [move], v, StablePathSubmitted(W));
    t := Next(v, StablePathSubmitted(W));
    assert t.queue == s.queue + [Mutation(1, DeleteFile(["c"]))] + MovesAway;
    steps := before + [delete] + [move] + [StablePathSubmitted(W)];
  }

  lemma EagerOperationComesLast(s: State)
    requires s.sessions == map[["a", "x"] := 0, AY := 1] && s.barriers == {} && s.nextTicket == 4
    requires s.queue == [Mutation(1, DeleteFile(["c"]))] + MovesAway
    ensures Next(s, StablePathSubmitted(AY)) == s.(queue := s.queue + [LastOperation], nextTicket := 5, barriers := {(1, 4)})
  {
    hide Begin, AfterStat, AfterOpen, MoveCompleted, AfterDelete, AfterClose, AfterStable, CompletionFailed;
    assert AY[0] != ["c"][0] && AY[0] != BY[0] && AY[0] != W[0];
    assert !Reserved(s, AY);
    assert BarriersOn(s, 1) == {};
  }

  /** The late session is still at `a/y`, under the barrier of the last operation. */
  ghost predicate BeforeLateMove(s: State) {
    && s.sessions == map[["a", "x"] := 0, AY := 1] && s.live == {0, 1} && s.deleted == {} && s.timers == map[]
    && s.clientCounts == map[] && s.operationCounts == map[]
    && s.queue == [Mutation(1, DeleteFile(["c"]))] + MovesAway + [LastOperation]
    && s.phase == Deleting(["c"], None, []) && s.barriers == {(1, 4)} && s.stragglers == {LATE}
  }

  lemma ReachBeforeLateMove() returns (steps: seq<Step>, t: State)
    ensures Reaches(Initial, steps, t) && BeforeLateMove(t)
  {
    var moving, s := TwoSessionsMoving();
    var queued, u := QueueMoveAway(moving, s);
    hide Reaches, AfterStat, AfterOpen, MoveCompleted, AfterDelete, AfterClose, AfterStable, CompletionFailed;
    FirstCompletionFails(u);
    assert u.queue[1..] == [Mutation(1, DeleteFile(["c"]))] + MovesAway;
    ReachesFurther(Initial, queued, u, SessionMoveFails(["a", "x"]));
    steps := queued + [SessionMoveFails(["a", "x"])];
    var v := Next(u, SessionMoveFails(["a", "x"]));
    assert ["c"][0] != "a";
    assert Begin(v, []) == v.(phase := Deleting(["c"], None, []));
    ReachesFurther(Initial, steps, v, MutationBegins([]));
    steps := steps + [MutationBegins([])];
    var w := Next(v, MutationBegins([]));
    hide Begin;
    EagerOperationComesLast(w);
    ReachesFurther(Initial, steps, w, StablePathSubmitted(AY));
    steps := steps + [StablePathSubmitted(AY)];
    t := Next(w, StablePathSubmitted(AY));
  }

  /** The session is at `path`, open and used by nobody. */
  ghost predicate At(s: State, path: Path) {
    && s.sessions == map[["a", "x"] := 0, path := 1] && s.live == {0, 1} && s.deleted == {}
    && s.clientCounts == map[] && s.operationCounts == map[] && s.barriers == {(1, 4)}
  }

  lemma RekeyingGoes(s: State, source: Path, target: Path)
    requires At(s, source) && source != ["a", "x"] && target != ["a", "x"] && source != target
    ensures var t := Rekeyed(s, source, target, 1);
      At(t, target) && t.queue == s.queue && t.phase == s.phase
  {
    RekeyedPuts(s, Straggler(source, target, 1));
    var t := Rekeyed(s, source, target, 1);
    assert t.sessions == map[["a", "x"] := 0, target := 1];
  }

  /** The late completion closes no circle. */
  lemma LateGoesToB(s: State)
    requires BeforeLateMove(s)
    ensures !ClosesCircle(s, StragglerMoves(LATE))
    ensures var t := Next(s, StragglerMoves(LATE)); At(t, BY) && t.queue == s.queue && t.phase == s.phase
  {
    var u := s.(stragglers := {});
    assert AY[1] != "x" && BY[0] != "a" && s.queue[2].job == StablePath(W, None) && W[0] != BY[0];
    LateIsRekeyed(s);
    hide Rekeyed, StragglerRekeyed;
    RekeyingGoes(u, AY, BY);
    assert forall i :: 0 <= i < |s.queue| && s.queue[i].job.StablePath? ==> s.queue[i].job.path != BY;
  }

  lemma MoveBegins(s: State)
    requires At(s, BY) && s.queue == MovesAway + [LastOperation] && s.phase == Queued
    ensures Next(s, MutationBegins([])) == s.(phase := Statting(map[BY := 1]))
  {
    hide AfterStat, AfterOpen, MoveCompleted, AfterDelete, AfterClose, AfterStable, CompletionFailed;
    assert BY[0] != "a" && s.queue[0].job == MoveFile(BY, W);
  }

  lemma MoveIsFound(s: State)
    requires At(s, BY) && s.queue == MovesAway + [LastOperation] && s.phase == Statting(map[BY := 1])
    ensures AfterStat(s, true) == s.(phase := Opening(map[BY := 1], {}, []))
  {
    assert W[0] != ["a", "x"][0] && W[0] != BY[0] && s.queue[0].job == MoveFile(BY, W);
    assert W !in s.sessions && BY in s.phase.captured && map[BY := 1][BY] in s.live;
    OpenSessionIsNotAwaited(s, map[BY := 1]);
    hide AwaitOpen;
  }

  lemma MoveIsOpen(s: State)
    requires At(s, BY) && s.queue == MovesAway + [LastOperation] && s.phase == Opening(map[BY := 1], {}, [])
    ensures AfterOpen(s, true) == s.(phase := Moving(map[BY := 1]))
  {
    assert s.queue[0].job == MoveFile(BY, W) && !Pending(s, {});
    assert map[BY := 1].Values == {1} by { assert map[BY := 1][BY] == 1; }
    assert s.live + ({1} - s.deleted) == s.live;
  }

  /** The move of the file goes as it should. */
  lemma MoveGoesToW(s: State)
    requires At(s, BY) && s.queue == MovesAway + [LastOperation] && s.phase == Queued
    ensures var begun := Next(s, MutationBegins([]));
      var found := Next(begun, StatReturns(true));
      var open := Next(found, OpensReturn(true));
      && begun == s.(phase := Statting(map[BY := 1]))
      && found == s.(phase := Opening(map[BY := 1], {}, []))
      && open == s.(phase := Moving(map[BY := 1]))
  {
    hide Begin, AfterStat, AfterOpen, MoveCompleted, AfterDelete, AfterClose, AfterStable, CompletionFailed;
    MoveBegins(s);
    MoveIsFound(s.(phase := Statting(map[BY := 1])));
    MoveIsOpen(s.(phase := Opening(map[BY := 1], {}, [])));
  }

  lemma OpenSessionIsNotAwaited(s: State, targets: map<Path, SessionId>)
    requires forall p :: p in targets ==> targets[p] in s.live
    ensures AwaitOpen(s, targets, []) == s.(phase := Opening(targets, {}, []))
  {
    var waits := set p, b | p in targets && b in s.barriers && b.0 == targets[p] && b.0 !in s.live :: b.1;
    assert waits == {};
  }

  /** Until the move completes nobody waits for a later one. */
  lemma InOrderBefore(s: State)
    requires At(s, BY) && s.queue == MovesAway + [LastOperation] && s.phase == Moving(map[BY := 1])
    ensures WaitsForEarlier(s)
  {
    assert s.queue[1] == MovesAway[1] && s.queue[2] == LastOperation && W !in s.sessions && AY !in s.sessions by {
      assert BY[0] != "a" && W[0] != "a" && W[0] != BY[0] && AY[1] != "x" && AY[0] != BY[0];
    }
  }

  /** The completed move closes the circle. */
  lemma MoveClosesCircle(s: State)
    requires At(s, BY) && s.queue == MovesAway + [LastOperation] && s.phase == Moving(map[BY := 1])
    ensures ClosesCircle(s, SessionMoved(BY))
    ensures var t := Next(s, SessionMoved(BY));
      At(t, W) && t.queue == [MovesAway[1], LastOperation] && t.phase == Queued
  {
    hide Begin, AfterStat, AfterOpen, AfterDelete, AfterClose, AfterStable, CompletionFailed;
    assert BY[0] != "a" && W[0] != "a" && W[0] != BY[0];
    assert s.queue[0] == MovesAway[0] && s.queue[1] == MovesAway[1] && s.queue[2] == LastOperation;
    assert Approaches(s, 1, W, 1) && (1, s.queue[2].ticket) in s.barriers;
    var u := Rekeyed(s, BY, W, 1);
    RekeyingGoes(s, BY, W);
    hide Rekeyed;
    assert map[BY := 1] - {BY} == map[];
    assert Settle(u).barriers == {(1, 4)};
    assert s.queue[1..] == [MovesAway[1], LastOperation];
  }

  lemma OperationMeetsMoved(s: State)
    requires At(s, W) && s.queue == [MovesAway[1], LastOperation] && s.phase == Queued
    ensures MutualWait(Next(s, MutationBegins([])), 3, 4)
  {
    hide AfterStat, AfterOpen, MoveCompleted, AfterDelete, AfterClose, AfterStable, CompletionFailed;
    assert W[0] != "a";
    assert (1, 4) in s.barriers && 4 in BarriersOn(s, 1);
    assert BoundToWait(s, 0, 1);
    BoundHeadDeadlocks(s, 1, []);
    hide Begin;
    assert Begin(s, []).queue[1].ticket == 4;
  }

  lemma ReachOpenMove() returns (steps: seq<Step>, t: State)
    ensures Reaches(Initial, steps, t)
    ensures At(t, BY) && t.queue == MovesAway + [LastOperation] && t.phase == Moving(map[BY := 1])
  {
    hide Begin, AfterStat, AfterOpen, MoveCompleted, AfterClose, AfterStable, CompletionFailed, StragglerRekeyed;
    var before, s := ReachBeforeLateMove();
    LateGoesToB(s);
    ReachesFurther(Initial, before, s, StragglerMoves(LATE));
    steps := before + [StragglerMoves(LATE)];
    var u := Next(s, StragglerMoves(LATE));
    hide Reaches;
    ReachesFurther(Initial, steps, u, DeleteReturns(false));
    steps := steps + [DeleteReturns(false)];
    var v := Next(u, DeleteReturns(false));
    assert v.barriers == {(1, 4)} && u.queue[1..] == MovesAway + [LastOperation];
    hide AfterDelete;
    MoveGoesToW(v);
    ReachesFurther(Initial, steps, v, MutationBegins([]));
    steps := steps + [MutationBegins([])];
    var begun := Next(v, MutationBegins([]));
    ReachesFurther(Initial, steps, begun, StatReturns(true));
    steps := steps + [StatReturns(true)];
    var found := Next(begun, StatReturns(true));
    ReachesFurther(Initial, steps, found, OpensReturn(true));
    steps := steps + [OpensReturn(true)];
    t := Next(found, OpensReturn(true));
  }

  /** How an ordinary move makes the waiting circular. Here the late completion closes no circle; the move that
      completes after it does. The operation on `w` then waits for ever for the barrier of the one behind it. */
  lemma MoveDeadlocks() returns (steps: seq<Step>, s: State, t: State)
    ensures Reaches(Initial, steps, s) && WaitsForEarlier(s)
    ensures Possible(s, SessionMoved(BY)) && ClosesCircle(s, SessionMoved(BY))
    ensures Reaches(s, [SessionMoved(BY), MutationBegins([])], t) && MutualWait(t, 3, 4)
    ensures forall more :: Happens(t, more) ==> Run(t, more).phase == t.phase && t.queue <= Run(t, more).queue
  {
    hide Happens, Run, Begin, AfterStat, AfterOpen, MoveCompleted, AfterDelete, AfterClose, AfterStable, CompletionFailed;
    steps, s := ReachOpenMove();
    InOrderBefore(s);
    MoveClosesCircle(s);
    var moved := Next(s, SessionMoved(BY));
    OperationMeetsMoved(moved);
    t := Next(moved, MutationBegins([]));
    assert Reaches(s, [SessionMoved(BY)] + [MutationBegins([])], t) by {
      ReachesFurther(s, [], s, SessionMoved(BY));
      ReachesFurther(s, [SessionMoved(BY)], moved, MutationBegins([]));
    }
    assert [SessionMoved(BY)] + [MutationBegins([])] == [SessionMoved(BY), MutationBegins([])];
    hide Reaches, WaitsForEarlier, ClosesCircle, MutualWait;
    forall more | Happens(t, more)
      ensures Run(t, more).phase == t.phase && t.queue <= Run(t, more).queue
    {
      DeadlockIsForever(t, more);
    }
  }
}
