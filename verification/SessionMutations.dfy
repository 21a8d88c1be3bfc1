/** The structure mutations of the session manager keep the invariant.

    The head of the queue is the only mutation that runs. For every place where it can be suspended there is a
    lemma for the step that resumes it: the start, the check of the disk, the awaited opens, one completed
    move, one deleted session, the close, and the stable operation.

    Two kinds of facts carry over a step: what the map and the counts say of the sessions (ownership), and what
    the head has picked out (its targets, where they will go, and what it still has to visit). Steps that only
    trim the map or move one session in it are treated once and for all.

    The last lemmas put the cases together for every step of the protocol. */
module SessionMutations {
  import opened Wrappers
  import opened VaultPaths
  import opened SessionProtocol
  import opened SessionSafety

  lemma SettleKeepsBarriers(s: State)
    requires s.queue != [] && BarriersInv(s) && TicketsInv(s)
    ensures BarriersInv(Settle(s)) && TicketsInv(Settle(s))
  {
    var t := Settle(s);
    forall b | b in t.barriers
      ensures exists i :: 0 <= i < |t.queue| && Owns(t, i, b)
    {
      var i :| 0 <= i < |s.queue| && Owns(s, i, b);
      assert i > 0;
      assert t.queue[i - 1] == s.queue[i];
      assert forall j :: 0 <= j < i - 1 ==> t.queue[j] == s.queue[j + 1];
      assert Owns(t, i - 1, b);
    }
  }

  /** Whatever the head was doing, once it settles the rest of the queue is in order. */
  lemma SettleKeepsInv(s: State)
    requires s.queue != [] && OwnershipInv(s) && NoneLost(s) && BarriersInv(s) && TicketsInv(s) && StragglersInv(s)
    ensures Inv(Settle(s))
  {
    var t := Settle(s);
    SettleKeepsBarriers(s);
    TrimmedPlaces(s, t);
  }

  /** The head mutation finds no barrier of another mutation on a session under a path that it covers:
      barriers of later mutations are only installed on paths that no earlier mutation covers. */
  lemma HeadFindsNoBarrier(s: State, path: Path)
    requires s.queue != [] && BarriersInv(s) && path in s.sessions && Covers(s.queue[0].job, path)
    ensures forall b :: b in s.barriers && b.0 == s.sessions[path] ==> b.1 == s.queue[0].ticket && s.queue[0].job.StablePath?
  {
    forall b | b in s.barriers && b.0 == s.sessions[path]
      ensures b.1 == s.queue[0].ticket && s.queue[0].job.StablePath?
    {
      var i :| 0 <= i < |s.queue| && Owns(s, i, b);
      assert path == s.queue[i].job.path;
      assert i == 0;
    }
  }

  /** Changing only the phase keeps the barriers rightly owned, provided the head still needs its own. */
  lemma PhaseKeepsBarriers(s: State, phase: Phase)
    requires BarriersInv(s) && !phase.Queued?
    ensures BarriersInv(s.(phase := phase))
  {
    var t := s.(phase := phase);
    forall b | b in t.barriers
      ensures exists i :: 0 <= i < |t.queue| && Owns(t, i, b)
    {
      var i :| 0 <= i < |s.queue| && Owns(s, i, b);
      assert Owns(t, i, b);
    }
  }

  lemma PhaseKeepsInv(s: State, phase: Phase)
    requires s.queue != [] && OwnershipInv(s) && NoneLost(s) && TicketsInv(s) && BarriersInv(s) && StragglersInv(s)
    requires var t := s.(phase := phase);
      !phase.Queued? && TargetsInv(t) && DestinationsInv(t) && PhaseInv(t) && RestInv(t) && ClosingInv(t)
    ensures Inv(s.(phase := phase))
  {
    PhaseKeepsBarriers(s, phase);
    TrimmedPlaces(s, s.(phase := phase));
  }

  // ---------------------------------------------------------------------------
  // Stable-path operations
  // ---------------------------------------------------------------------------

  lemma BeginStablePathKeepsInv(s: State)
    requires Inv(s) && s.queue != [] && s.phase.Queued? && s.queue[0].job.StablePath?
    ensures Inv(Begin(s, []))
  {
    var path, eager := s.queue[0].job.path, s.queue[0].job.eager;
    if eager.Some? && path in s.sessions && s.sessions[path] == eager.value.sid {
      PhaseKeepsInv(s, Stabilizing(eager.value.sid, eager.value.waits));
    } else {
      BeginWithoutBarrierKeepsInv(s, ReleaseBarrier(s, s.queue[0].ticket), path);
    }
  }

  /** The barrier reserved for another session (or none) is given up before the operation looks again. */
  lemma BeginWithoutBarrierKeepsInv(s: State, t: State, path: Path)
    requires OwnershipInv(s) && NoneLost(s) && TicketsInv(s) && BarriersInv(s) && StragglersInv(s)
    requires s.queue != [] && s.phase.Queued? && s.queue[0].job.StablePath? && s.queue[0].job.path == path
    requires t == ReleaseBarrier(s, s.queue[0].ticket)
    ensures path !in t.sessions ==> Inv(t.(phase := Operating))
    ensures path in t.sessions ==>
      var sid := t.sessions[path];
      Inv(t.(phase := Stabilizing(sid, BarriersOn(t, sid)), barriers := t.barriers + {(sid, s.queue[0].ticket)}))
  {
    ReleaseKeepsBarriers(s);
    TrimmedPlaces(s, t);
    if path !in t.sessions {
      PhaseKeepsInv(t, Operating);
    } else {
      LazyBarrierKeepsInv(t, path);
    }
  }

  lemma ReleaseKeepsBarriers(s: State)
    requires s.queue != [] && BarriersInv(s)
    ensures BarriersInv(ReleaseBarrier(s, s.queue[0].ticket))
  {
    var t := ReleaseBarrier(s, s.queue[0].ticket);
    forall b | b in t.barriers
      ensures exists i :: 0 <= i < |t.queue| && Owns(t, i, b)
    {
      var i :| 0 <= i < |s.queue| && Owns(s, i, b);
      assert Owns(t, i, b);
    }
  }

  /** A barrier installed when the operation runs finds no other barrier to wait for. */
  lemma LazyBarrierKeepsInv(t: State, path: Path)
    requires t.queue != [] && OwnershipInv(t) && NoneLost(t) && TicketsInv(t) && BarriersInv(t) && StragglersInv(t)
    requires t.queue[0].job.StablePath? && t.queue[0].job.path == path && path in t.sessions
    requires forall b :: b in t.barriers ==> b.1 != t.queue[0].ticket
    ensures BarriersOn(t, t.sessions[path]) == {}
    ensures Inv(t.(phase := Stabilizing(t.sessions[path], {}),
                   barriers := t.barriers + {(t.sessions[path], t.queue[0].ticket)}))
  {
    var sid := t.sessions[path];
    HeadFindsNoBarrier(t, path);
    var u := t.(phase := Stabilizing(sid, {}));
    PhaseKeepsInv(t, u.phase);
    var mine := (sid, t.queue[0].ticket);
    var v := u.(barriers := u.barriers + {mine});
    forall b | b in v.barriers
      ensures exists i :: 0 <= i < |v.queue| && Owns(v, i, b)
    {
      if b == mine {
        assert Owns(v, 0, b);
      } else {
        var i :| 0 <= i < |u.queue| && Owns(u, i, b);
        assert Owns(v, i, b);
      }
    }
    TrimmedPlaces(u, v);
  }

  lemma StableStepKeepsInv(s: State, ok: bool)
    requires Inv(s) && s.queue != [] && s.phase.Stabilizing?
    ensures Inv(AfterStable(s, ok))
    ensures !Pending(s, s.phase.waits)
  {
    if ok {
      PhaseKeepsInv(s, Operating);
    } else {
      SettleKeepsInv(s);
    }
  }

  // ---------------------------------------------------------------------------
  // Moves
  // ---------------------------------------------------------------------------

  /** Sessions found under covered paths, by a mutation that owns no barrier, make good targets. */
  lemma FoundTargets(s: State, t: State, targets: map<Path, SessionId>)
    requires s.queue != [] && OwnershipInv(s) && BarriersInv(s) && !s.queue[0].job.StablePath?
    requires t == s.(phase := t.phase) && Targets(t) == targets
    requires forall f :: f in targets ==>
      && f in s.sessions && targets[f] == s.sessions[f]
      && Covers(s.queue[0].job, f) && Covers(s.queue[0].job, Destination(s.queue[0].job, f))
    ensures TargetsInv(t)
    ensures forall f, b :: f in targets && b in s.barriers ==> b.0 != targets[f]
  {
    forall f, b | f in targets && b in s.barriers
      ensures b.0 != targets[f]
    {
      HeadFindsNoBarrier(s, f);
    }
    forall p, q | p in targets && q in targets && targets[p] == targets[q]
      ensures p == q
    {
      assert s.sessions[p] == s.sessions[q];
    }
  }

  lemma BeginMoveFileKeepsInv(s: State)
    requires Inv(s) && s.queue != [] && s.phase.Queued? && s.queue[0].job.MoveFile?
    ensures Inv(Begin(s, []))
  {
    var t := Begin(s, []);
    FoundTargets(s, t, Lookup(s, s.queue[0].job.source));
    PhaseKeepsInv(s, t.phase);
  }

  /** An open awaited by the head mutation waits for no barrier. */
  lemma HeadOpensWithoutWaiting(s: State, targets: map<Path, SessionId>, rest: seq<Path>)
    requires forall f, b :: f in targets && b in s.barriers ==> b.0 != targets[f]
    ensures AwaitOpen(s, targets, rest) == s.(phase := Opening(targets, {}, rest))
  {
    var waits := set p, b | p in targets && b in s.barriers && b.0 == targets[p] && b.0 !in s.live :: b.1;
    assert waits == {};
  }

  /** Moving a file that is not there, or of which no session was captured. */
  lemma MoveNothingKeepsInv(s: State, found: bool)
    requires Inv(s) && s.queue != [] && s.phase.Statting? && s.queue[0].job.MoveFile?
    requires !found || s.phase.captured == map[]
    ensures Inv(AfterStat(s, found))
  {
    if found && s.queue[0].job.target in s.sessions {
      SettleKeepsInv(s);
    } else {
      PhaseKeepsInv(s, DiskOnly);
    }
  }

  lemma MoveFileStatKeepsInv(s: State, found: bool)
    requires Inv(s) && s.queue != [] && s.phase.Statting? && s.queue[0].job.MoveFile?
    ensures Inv(AfterStat(s, found))
  {
    var job, captured := s.queue[0].job, s.phase.captured;
    if !found || captured == map[] {
      MoveNothingKeepsInv(s, found);
    } else if job.target in s.sessions && s.sessions[job.target] != captured[job.source] {
      SettleKeepsInv(s);
    } else {
      HeadOpensWithoutWaiting(s, captured, []);
      PhaseKeepsInv(s, Opening(captured, {}, []));
    }
  }

  lemma SubtreeDestinationsFree(s: State, t: State, source: Path, target: Path)
    requires s.queue != [] && s.queue[0].job == MoveSubtree(source, target) && OwnershipInv(s)
    requires forall p :: p in s.sessions && AtOrUnder(target, p) ==> s.sessions[p] in Below(s, source).Values
    requires t == s.(phase := Opening(Below(s, source), {}, []))
    ensures DestinationsInv(t)
  {
    var matches := Below(s, source);
    forall f | Disjoint(s.queue[0].job) && f in matches && Destination(s.queue[0].job, f) in s.sessions
      ensures s.sessions[Destination(s.queue[0].job, f)] == matches[f]
    {
      var d := Destination(s.queue[0].job, f);
      assert AtOrUnder(target, d);
      var q :| q in matches && matches[q] == s.sessions[d];
      assert q == d;
      SameFolder(source, target, d);
      assert f == source + f[|source|..];
    }
  }

  /** Folders of which neither strictly contains the other and that share a path are the same folder. */
  lemma SameFolder(source: Path, target: Path, path: Path)
    requires source <= path && target <= path && !(source < target) && !(target < source)
    ensures source == target
  {
    assert source == path[..|source|] && target == path[..|target|];
  }

  lemma MoveSubtreeStatKeepsInv(s: State, found: bool)
    requires Inv(s) && s.queue != [] && s.phase.Statting? && s.queue[0].job.MoveSubtree?
    ensures Inv(AfterStat(s, found))
  {
    var source, target := s.queue[0].job.source, s.queue[0].job.target;
    var matches := Below(s, source);
    PhaseKeepsInv(s, DiskOnly);
    hide Inv, Settle, AwaitOpen, Below, AtOrUnder;
    if found {
      if exists p :: p in s.sessions && AtOrUnder(target, p) && s.sessions[p] !in matches.Values {
        SettleKeepsInv(s);
      } else if matches != map[] {
        MoveSubtreeOpensKeepInv(s, source, target);
      }
    }
  }

  lemma MoveSubtreeOpensKeepInv(s: State, source: Path, target: Path)
    requires Inv(s) && s.queue != [] && s.phase.Statting? && s.queue[0].job == MoveSubtree(source, target)
    requires forall p :: p in s.sessions && AtOrUnder(target, p) ==> s.sessions[p] in Below(s, source).Values
    requires Below(s, source) != map[]
    ensures Inv(AwaitOpen(s, Below(s, source), []))
  {
    var matches := Below(s, source);
    var t := s.(phase := Opening(matches, {}, []));
    FoundTargets(s, t, matches);
    HeadOpensWithoutWaiting(s, matches, []);
    SubtreeDestinationsFree(s, t, source, target);
    PhaseKeepsInv(s, t.phase);
  }

  lemma MoveOpenKeepsInv(s: State, ok: bool)
    requires Inv(s) && s.queue != [] && s.phase.Opening? && (s.queue[0].job.MoveFile? || s.queue[0].job.MoveSubtree?)
    ensures Inv(AfterOpen(s, ok))
  {
    if ok {
      var t := s.(live := s.live + (s.phase.targets.Values - s.deleted));
      TrimKeepsInv(s, t);
      PhaseKeepsInv(t, Moving(t.phase.targets));
    } else {
      SettleKeepsInv(s);
    }
  }

  /** Rebinding one picked session: it leaves its old path and takes the free path it is moved to. */
  lemma RekeyKeepsOwnership(s: State, source: Path, target: Path, sid: SessionId)
    requires OwnershipInv(s) && NoneLost(s) && sid < s.nextSession
    requires forall p :: p in s.sessions && s.sessions[p] == sid ==> p == source
    requires source in s.sessions ==> s.sessions[source] == sid
    requires target in s.sessions ==> s.sessions[target] == sid
    ensures OwnershipInv(Rekeyed(s, source, target, sid)) && NoneLost(Rekeyed(s, source, target, sid))
  {
    var moved := s.(timers := s.timers - {source, target}, sessions := (s.sessions - {source})[target := sid]);
    FreshKeepsInjective(s.sessions - {source}, target, sid);
    forall held | InUse(moved, held) && held !in moved.deleted
      ensures Placed(moved, held)
    {
      assert InUse(s, held);
      if held == sid {
        assert moved.sessions[target] == sid;
      } else {
        var p :| p in s.sessions && s.sessions[p] == held;
        assert p in moved.sessions && moved.sessions[p] == held;
      }
    }
    ScheduleKeepsOwnership(moved, target);
  }

  lemma TrimKeepsPlaces(s: State, t: State)
    requires NoneLost(s) && Trims(s, t)
    ensures NoneLost(t)
  {
    forall held | InUse(t, held) && held !in t.deleted
      ensures Placed(t, held)
    {
      assert InUse(s, held) && held !in s.deleted;
      var p :| p in s.sessions && s.sessions[p] == held;
      assert p in t.sessions && t.sessions[p] == held;
    }
  }

  lemma SchedulingTrims(s: State, path: Path)
    ensures Trims(s, ScheduleIdleClose(s, path))
  {
    hide InUse;
  }

  lemma ScheduleKeepsOwnership(s: State, path: Path)
    requires OwnershipInv(s) && NoneLost(s)
    ensures OwnershipInv(ScheduleIdleClose(s, path)) && NoneLost(ScheduleIdleClose(s, path))
  {
    var t := ScheduleIdleClose(s, path);
    SchedulingTrims(s, path);
    TrimKeepsPlaces(s, t);
    hide InUse, NoneLost, CountsMatch, ScheduleIdleClose, Placed;
  }

  /** The map after a rekeying: the old path is gone, the new one holds the session, nothing else is new. */
  ghost predicate MovedIn(s: State, t: State, source: Path, target: Path, sid: SessionId) {
    && t == s.(sessions := t.sessions, timers := t.timers)
    && forall p :: p in t.sessions ==>
         (p == target && t.sessions[p] == sid) || (p != source && p in s.sessions && t.sessions[p] == s.sessions[p])
  }

  lemma RekeyMovesIn(s: State, source: Path, target: Path, sid: SessionId)
    ensures MovedIn(s, Rekeyed(s, source, target, sid), source, target, sid)
  {
  }

  lemma MovedInKeepsBarriers(s: State, t: State, source: Path, target: Path, sid: SessionId)
    requires BarriersInv(s) && MovedIn(s, t, source, target, sid) && forall b :: b in s.barriers ==> b.0 != sid
    ensures BarriersInv(t)
  {
    forall b | b in t.barriers
      ensures exists i :: 0 <= i < |t.queue| && Owns(t, i, b)
    {
      var i :| 0 <= i < |s.queue| && Owns(s, i, b);
      assert Owns(t, i, b);
    }
  }

  /** What a completed move of `path` does to the map while other targets remain. */
  lemma RekeyKeepsRest(s: State, path: Path)
    requires Inv(s) && s.queue != [] && s.phase.Moving? && path in s.phase.targets && Disjoint(s.queue[0].job)
    ensures var sid := s.phase.targets[path];
      var target := Destination(s.queue[0].job, path);
      var t := Rekeyed(s, path, target, sid);
      && OwnershipInv(t) && NoneLost(t) && BarriersInv(t) && TicketsInv(t)
      && MovedIn(s, t, path, target, sid)
  {
    var sid, target := s.phase.targets[path], Destination(s.queue[0].job, path);
    assert path in Targets(s);
    RekeyKeepsOwnership(s, path, target, sid);
    RekeyMovesIn(s, path, target, sid);
    MovedInKeepsBarriers(s, Rekeyed(s, path, target, sid), path, target, sid);
  }

  lemma DestinationsDiffer(job: Job, p: Path, q: Path)
    requires job.MoveSubtree? && Disjoint(job) && job.source < p && job.source < q && p != q
    ensures Destination(job, p) != Destination(job, q)
    ensures Destination(job, p) != q
  {
    assert p == job.source + p[|job.source|..] && q == job.source + q[|job.source|..];
    var d := Destination(job, p);
    assert d[|job.target|..] == p[|job.source|..];
    assert Destination(job, q)[|job.target|..] == q[|job.source|..];
    if d == q {
      SameFolder(job.source, job.target, q);
    }
  }

  /** With more than one target the move is a folder move, and its targets lie below the folder. */
  lemma SeveralTargets(s: State, path: Path, other: Path)
    requires PhaseInv(s) && s.queue != [] && s.phase.Moving? && path in s.phase.targets && other in s.phase.targets
    requires path != other
    ensures s.queue[0].job.MoveSubtree? && s.queue[0].job.source < path && s.queue[0].job.source < other
  {
  }

  lemma OthersStayInPlace(s: State, t: State, path: Path, f: Path)
    requires Inv(s) && s.queue != [] && s.phase.Moving? && Disjoint(s.queue[0].job)
    requires path in s.phase.targets && f in s.phase.targets && f != path
    requires MovedIn(s, t, path, Destination(s.queue[0].job, path), s.phase.targets[path])
    ensures f in t.sessions ==> t.sessions[f] == s.phase.targets[f]
    ensures Destination(s.queue[0].job, f) in t.sessions ==> t.sessions[Destination(s.queue[0].job, f)] == s.phase.targets[f]
    ensures forall p :: p in t.sessions && t.sessions[p] == s.phase.targets[f] ==> p == f
  {
    assert Targets(s) == s.phase.targets;
    SeveralTargets(s, path, f);
    DestinationsDiffer(s.queue[0].job, path, f);
    assert s.phase.targets[f] != s.phase.targets[path];
  }

  lemma RestStaysTargeted(s: State, t: State, path: Path)
    requires Inv(s) && s.queue != [] && s.phase.Moving? && Disjoint(s.queue[0].job)
    requires path in s.phase.targets && s.phase.targets - {path} != map[]
    requires MovedIn(s, t, path, Destination(s.queue[0].job, path), s.phase.targets[path])
    ensures var u := t.(phase := Moving(s.phase.targets - {path}));
      TargetsInv(u) && DestinationsInv(u) && PhaseInv(u) && ClosingInv(u)
  {
    var targets := s.phase.targets;
    var u := t.(phase := Moving(targets - {path}));
    assert Targets(s) == targets && Targets(u) == targets - {path};
    forall f | f in targets - {path}
      ensures f in u.sessions ==> u.sessions[f] == targets[f]
      ensures Destination(u.queue[0].job, f) in u.sessions ==> u.sessions[Destination(u.queue[0].job, f)] == targets[f]
      ensures forall p :: p in u.sessions && u.sessions[p] == targets[f] ==> p == f
    {
      OthersStayInPlace(s, t, path, f);
    }
  }

  lemma MoveCompletedKeepsInv(s: State, path: Path)
    requires Inv(s) && s.queue != [] && s.phase.Moving? && Disjoint(s.queue[0].job)
    ensures Inv(MoveCompleted(s, path))
  {
    var targets := s.phase.targets;
    if path in targets {
      var t := Rekeyed(s, path, Destination(s.queue[0].job, path), targets[path]);
      RekeyKeepsRest(s, path);
      if targets - {path} == map[] {
        SettleKeepsInv(t);
      } else {
        RestStaysTargeted(s, t, path);
        PhaseKeepsInv(t, Moving(targets - {path}));
      }
    }
  }

  /** When one completion fails the mutation settles, and the others are left behind as stragglers. */
  lemma CompletionFailedKeepsInv(s: State, path: Path)
    requires Inv(s) && s.queue != [] && s.phase.Moving?
    ensures Inv(CompletionFailed(s, path))
  {
    if path in s.phase.targets {
      SettleKeepsInv(s);
      var t, u := Settle(s), CompletionFailed(s, path);
      forall g | g in u.stragglers
        ensures g.sid < u.nextSession
      {
        if g !in s.stragglers {
          var p :| p in s.phase.targets && g == Straggler(p, Destination(s.queue[0].job, p), s.phase.targets[p]);
          assert p in Targets(s);
        }
      }
      MoreStragglersKeepInv(t, u);
    }
  }

  /** What is still to come changes nothing yet. */
  lemma MoreStragglersKeepInv(s: State, t: State)
    requires Inv(s) && t == s.(stragglers := t.stragglers) && StragglersInv(t)
    ensures Inv(t)
  {
    SameProtocol(s, t);
    TrimmedPlaces(s, t);
  }

  lemma SameProtocol(s: State, t: State)
    requires Inv(s) && t == s.(stragglers := t.stragglers) && StragglersInv(t)
    ensures ProtocolInv(t)
  {
    forall b | b in t.barriers
      ensures exists i :: 0 <= i < |t.queue| && Owns(t, i, b)
    {
      var i :| 0 <= i < |s.queue| && Owns(s, i, b);
      assert Owns(t, i, b);
    }
  }

  // ---------------------------------------------------------------------------
  // Deletes and idle closes
  // ---------------------------------------------------------------------------

  lemma BeginDeleteKeepsInv(s: State, path: Path, rest: seq<Path>)
    requires s.queue != [] && OwnershipInv(s) && NoneLost(s) && TicketsInv(s) && BarriersInv(s) && StragglersInv(s)
    requires s.queue[0].job.DeleteFile? || s.queue[0].job.DeleteSubtree?
    requires Covers(s.queue[0].job, path) && forall p :: p in rest ==> Covers(s.queue[0].job, p)
    ensures Inv(BeginDelete(s, path, rest))
  {
    if path in s.sessions {
      var targets := map[path := s.sessions[path]];
      var t := s.(phase := Opening(targets, {}, rest));
      FoundTargets(s, t, targets);
      HeadOpensWithoutWaiting(s, targets, rest);
      PhaseKeepsInv(s, t.phase);
    } else {
      PhaseKeepsInv(s, Deleting(path, None, rest));
    }
  }

  lemma OpenedKeepsInv(s: State, targets: map<Path, SessionId>)
    requires Inv(s)
    ensures Inv(s.(live := s.live + (targets.Values - s.deleted)))
  {
    TrimKeepsInv(s, s.(live := s.live + (targets.Values - s.deleted)));
  }

  lemma DeletingKeepsInv(t: State, path: Path)
    requires Inv(t) && t.queue != [] && t.phase.Opening? && (t.queue[0].job.DeleteFile? || t.queue[0].job.DeleteSubtree?)
    requires path in t.phase.targets
    ensures Inv(t.(phase := Deleting(path, Some(t.phase.targets[path]), t.phase.rest)))
  {
    var sid := t.phase.targets[path];
    var u := t.(phase := Deleting(path, Some(sid), t.phase.rest));
    assert Targets(t) == t.phase.targets && Targets(u) == map[path := sid];
    assert TargetsInv(u);
    PhaseKeepsInv(t, u.phase);
  }

  lemma DeleteOpenKeepsInv(s: State, ok: bool)
    requires Inv(s) && s.queue != [] && s.phase.Opening? && (s.queue[0].job.DeleteFile? || s.queue[0].job.DeleteSubtree?)
    ensures Inv(AfterOpen(s, ok))
  {
    if ok {
      var targets := s.phase.targets;
      var t := s.(live := s.live + (targets.Values - s.deleted));
      OpenedKeepsInv(s, targets);
      assert t.phase == s.phase;
      DeletingKeepsInv(t, AnyKey(targets));
    } else {
      SettleKeepsInv(s);
    }
  }

  /** After its session is deleted nothing is left under the path: the path was reserved all along. */
  lemma DeletedPathIsFree(s: State)
    requires s.phase.Deleting? && TargetsInv(s) && ClosingInv(s)
    ensures var t := if s.phase.target.Some? then ExternallyDeleted(s, s.phase.target.value) else s;
      s.phase.path !in t.sessions
  {
    if s.phase.target.Some? {
      assert s.phase.path in Targets(s);
    }
  }

  lemma ExternallyDeletedKeepsInv(s: State, sid: SessionId)
    requires Inv(s)
    ensures Inv(ExternallyDeleted(s, sid))
  {
    TrimKeepsInv(s, ExternallyDeleted(s, sid));
  }

  lemma DeletedKeepsInv(s: State)
    requires Inv(s) && s.queue != [] && s.phase.Deleting?
    ensures var t := if s.phase.target.Some? then ExternallyDeleted(s, s.phase.target.value) else s;
      Inv(t) && t.(sessions := t.sessions - {s.phase.path}) == t && t.queue == s.queue && t.phase == s.phase
  {
    if s.phase.target.Some? {
      ExternallyDeletedKeepsInv(s, s.phase.target.value);
    }
    DeletedPathIsFree(s);
    var t := if s.phase.target.Some? then ExternallyDeleted(s, s.phase.target.value) else s;
    hide Inv;
    assert t.sessions - {s.phase.path} == t.sessions;
  }

  lemma AfterDeleteKeepsInv(s: State, ok: bool)
    requires Inv(s) && s.queue != [] && s.phase.Deleting?
    ensures Inv(AfterDelete(s, ok))
  {
    var rest := s.phase.rest;
    if ok {
      DeletedKeepsInv(s);
      var t := if s.phase.target.Some? then ExternallyDeleted(s, s.phase.target.value) else s;
      hide ExternallyDeleted, BeginDelete;
      if rest == [] {
        PhaseKeepsInv(t, DiskOnly);
      } else {
        BeginDeleteKeepsInv(t, rest[0], rest[1..]);
      }
    } else {
      SettleKeepsInv(s);
    }
  }

  lemma BeginIdleCloseKeepsInv(s: State)
    requires Inv(s) && s.queue != [] && s.phase.Queued? && s.queue[0].job.IdleClose?
    ensures Inv(Begin(s, []))
  {
    var path := s.queue[0].job.path;
    var t := CancelTimer(s, path);
    TrimKeepsInv(s, t);
    if path !in t.sessions || InUse(t, t.sessions[path]) || t.sessions[path] in t.failing {
      SettleKeepsInv(t);
    } else {
      var sid := t.sessions[path];
      var u := t.(sessions := t.sessions - {path});
      HeadFindsNoBarrier(t, path);
      TrimKeepsInv(t, u);
      ClosingBegins(t, path);
      PhaseKeepsInv(u, Closing(sid));
    }
  }

  /** A session that leaves the map for closing is held by nobody and under no other path. */
  lemma ClosingBegins(t: State, path: Path)
    requires Inv(t) && t.queue != [] && t.phase.Queued? && t.queue[0].job == IdleClose(path) && path in t.sessions
    requires !InUse(t, t.sessions[path]) && forall b :: b in t.barriers ==> b.0 != t.sessions[path]
    ensures var v := t.(sessions := t.sessions - {path}, phase := Closing(t.sessions[path]));
      TargetsInv(v) && DestinationsInv(v) && PhaseInv(v) && RestInv(v) && ClosingInv(v)
  {
  }

  /** A session that could not be closed goes back to its path, which nobody else could take meanwhile. */
  lemma AfterCloseKeepsInv(s: State, ok: bool)
    requires Inv(s) && s.queue != [] && s.phase.Closing?
    ensures Inv(AfterClose(s, ok))
  {
    var path, sid := s.queue[0].job.path, s.phase.sid;
    SettleKeepsInv(s);
    if !ok && sid in s.failing {
      var t := s.(sessions := s.sessions[path := sid]);
      FreshKeepsInjective(s.sessions, path, sid);
      forall held | InUse(t, held) && held !in t.deleted
        ensures Placed(t, held)
      {
        assert InUse(s, held);
        var p :| p in s.sessions && s.sessions[p] == held;
        assert p in t.sessions && t.sessions[p] == held;
      }
      MovedInKeepsBarriers(s, t, path, path, sid);
      SettleKeepsInv(t);
    }
  }

  lemma BeginKeepsInv(s: State, order: seq<Path>)
    requires Inv(s) && s.queue != [] && s.phase.Queued? && IsOrder(s, order)
    ensures Inv(Begin(s, order))
  {
    match s.queue[0].job
    case StablePath(_, _) =>
      BeginStablePathKeepsInv(s);
    case MoveFile(_, _) =>
      BeginMoveFileKeepsInv(s);
    case MoveSubtree(_, _) =>
      PhaseKeepsInv(s, Statting(map[]));
    case DeleteFile(path) =>
      BeginDeleteKeepsInv(s, path, []);
    case DeleteSubtree(_) =>
      if order == [] {
        PhaseKeepsInv(s, DiskOnly);
      } else {
        assert order[0] in order && forall p :: p in order[1..] ==> p in order;
        BeginDeleteKeepsInv(s, order[0], order[1..]);
      }
    case IdleClose(_) =>
      BeginIdleCloseKeepsInv(s);
  }

  // ---------------------------------------------------------------------------
  // Every step
  // ---------------------------------------------------------------------------

  lemma OutsideStepKeepsInv(s: State, step: Step)
    requires Inv(s) && Possible(s, step)
    requires step.SessionOpens? || step.SessionDeleted? || step.PersistFails? || step.PersistRecovers? || step.TimerFires?
    ensures Inv(Next(s, step))
  {
    if step.TimerFires? && step.path in s.timers && s.timers[step.path] {
      var t := s.(timers := s.timers[step.path := false]);
      TrimKeepsInv(s, t);
      EnqueueKeepsInv(t, IdleClose(step.path));
    } else {
      TrimKeepsInv(s, Next(s, step));
    }
  }

  lemma StatKeepsInv(s: State, found: bool)
    requires Inv(s) && s.queue != [] && s.phase.Statting?
    ensures Inv(AfterStat(s, found))
  {
    if s.queue[0].job.MoveFile? {
      MoveFileStatKeepsInv(s, found);
    } else {
      MoveSubtreeStatKeepsInv(s, found);
    }
  }

  lemma OpensKeepInv(s: State, ok: bool)
    requires Inv(s) && s.queue != [] && s.phase.Opening?
    ensures Inv(AfterOpen(s, ok))
  {
    if s.queue[0].job.DeleteFile? || s.queue[0].job.DeleteSubtree? {
      DeleteOpenKeepsInv(s, ok);
    } else {
      MoveOpenKeepsInv(s, ok);
    }
  }

  predicate IsClientStep(step: Step) {
    step.Touch? || step.ClientAttaches? || step.ClientReleases? || step.OperationBegins? || step.OperationEnds?
  }

  lemma ClientStepKeepsInv(s: State, step: Step)
    requires Inv(s) && Possible(s, step) && IsClientStep(step)
    ensures Inv(Next(s, step))
  {
    match step
    case Touch(path) => if !Reserved(s, path) { GetSessionKeepsInv(s, path); }
    case ClientAttaches(path) => AttachKeepsInv(s, path);
    case ClientReleases(lease) => ReleaseKeepsInv(s, lease);
    case OperationBegins(path) => BeginOperationKeepsInv(s, path);
    case OperationEnds(operation) => EndOperationKeepsInv(s, operation);
  }

  /** The steps by which the mutation at the head of the queue advances. */
  predicate IsHeadStep(step: Step) {
    || step.MutationBegins? || step.StatReturns? || step.OpensReturn? || step.DiskMoveFails? || step.SessionMoved?
    || step.SessionMoveFails? || step.DeleteReturns? || step.CloseReturns? || step.StableReturns?
    || step.OperationReturns? || step.DiskReturns?
  }

  lemma HeadStepKeepsInv(s: State, step: Step)
    requires Inv(s) && Possible(s, step) && IsHeadStep(step)
    ensures Inv(Next(s, step))
  {
    match step
    case MutationBegins(order) => BeginKeepsInv(s, order);
    case StatReturns(found) => StatKeepsInv(s, found);
    case OpensReturn(ok) => OpensKeepInv(s, ok);
    case DiskMoveFails => SettleKeepsInv(s);
    case SessionMoved(path) => MoveCompletedKeepsInv(s, path);
    case SessionMoveFails(path) => CompletionFailedKeepsInv(s, path);
    case DeleteReturns(ok) => AfterDeleteKeepsInv(s, ok);
    case CloseReturns(ok) => AfterCloseKeepsInv(s, ok);
    case StableReturns(ok) => StableStepKeepsInv(s, ok);
    case OperationReturns => SettleKeepsInv(s);
    case DiskReturns => SettleKeepsInv(s);
  }

  /** Every step but a late completion. */
  lemma OrderlyStepKeepsInv(s: State, step: Step)
    requires Inv(s) && Possible(s, step) && !step.StragglerMoves?
    ensures Inv(Next(s, step))
  {
    if IsClientStep(step) {
      ClientStepKeepsInv(s, step);
    } else if IsHeadStep(step) {
      HeadStepKeepsInv(s, step);
    } else if step.StablePathSubmitted? {
      SubmitStablePathKeepsInv(s, step.path);
    } else if step.MutationSubmitted? {
      EnqueueKeepsInv(s, step.job);
    } else if step.StragglerFails? {
      MoreStragglersKeepInv(s, Next(s, step));
    } else {
      OutsideStepKeepsInv(s, step);
    }
  }
}
