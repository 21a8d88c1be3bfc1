/** The invariant of the session manager, and the steps of its clients: ownership, reservations and barriers.

    It describes every state of a run in which no late completion disturbs anything. What is decided in
    all runs is in `SessionOwnership` and `SessionWaiting`. */
module SessionSafety {
  import opened Wrappers
  import opened VaultPaths
  import opened SessionProtocol

  // ---------------------------------------------------------------------------
  // The invariant
  // ---------------------------------------------------------------------------

  function Holders(holds: map<nat, Hold>, sid: SessionId): set<nat> {
    set h | h in holds && holds[h].sid == sid
  }

  /** A count is the number of outstanding holders, and is absent when there are none. */
  ghost predicate CountMatches(counts: map<SessionId, nat>, holds: map<nat, Hold>, sid: SessionId) {
    (sid in counts <==> Holders(holds, sid) != {}) && (sid in counts ==> counts[sid] == |Holders(holds, sid)|)
  }

  ghost predicate CountsMatch(counts: map<SessionId, nat>, holds: map<nat, Hold>) {
    forall sid :: CountMatches(counts, holds, sid)
  }

  ghost predicate Injective(m: map<Path, SessionId>) {
    forall p, q :: p in m && q in m && m[p] == m[q] ==> p == q
  }

  ghost predicate IdsInv(s: State) {
    && (forall p :: p in s.sessions ==> s.sessions[p] < s.nextSession)
    && (forall h :: h in s.leases ==> h < s.nextHold && s.leases[h].sid < s.nextSession)
    && (forall h :: h in s.operations ==> h < s.nextHold && s.operations[h].sid < s.nextSession)
    && (forall b :: b in s.barriers ==> b.0 < s.nextSession)
  }

  ghost predicate OwnershipInv(s: State) {
    && IdsInv(s)
    && Injective(s.sessions)
    && CountsMatch(s.clientCounts, s.leases)
    && CountsMatch(s.operationCounts, s.operations)
  }

  /** A session that somebody holds and that was not deleted is the session of a path. */
  ghost predicate NoneLost(s: State) {
    forall sid :: InUse(s, sid) && sid !in s.deleted ==> Placed(s, sid)
  }

  ghost predicate Placed(s: State, sid: SessionId) {
    exists p :: p in s.sessions && s.sessions[p] == sid
  }

  /** The sessions the head mutation has picked out, by the path where it found them. */
  function Targets(s: State): map<Path, SessionId> {
    match s.phase
    case Statting(captured) => captured
    case Opening(targets, _, _) => targets
    case Moving(targets) => targets
    case Deleting(path, Some(sid), _) => map[path := sid]
    case _ => map[]
  }

  /** Picked sessions are still where they were found, or nowhere, and carry no barrier. */
  ghost predicate TargetsInv(s: State) {
    var targets := Targets(s);
    targets != map[] ==>
      && s.queue != []
      && Injective(targets)
      && (forall f :: f in targets ==>
            && Covers(s.queue[0].job, f) && Covers(s.queue[0].job, Destination(s.queue[0].job, f))
            && targets[f] < s.nextSession
            && (f in s.sessions ==> s.sessions[f] == targets[f])
            && (forall b :: b in s.barriers ==> b.0 != targets[f])
            && (forall p :: p in s.sessions && s.sessions[p] == targets[f] ==> p == f))
  }

  /** The place a session is moved to is free for it. */
  ghost predicate DestinationsInv(s: State) {
    var targets := Targets(s);
    (s.phase.Opening? || s.phase.Moving?) && s.queue != [] && Disjoint(s.queue[0].job) ==>
      forall f :: f in targets && Destination(s.queue[0].job, f) in s.sessions ==>
        s.sessions[Destination(s.queue[0].job, f)] == targets[f]
  }

  ghost predicate PhaseInv(s: State) {
    && (s.queue == [] ==> s.phase.Queued?)
    && (s.queue != [] ==>
          var job := s.queue[0].job;
          match s.phase
          case Statting(captured) => (job.MoveSubtree? && captured == map[]) || (job.MoveFile? && captured.Keys <= {job.source})
          case Opening(targets, waits, _) => waits == {} && JobMovesOrDeletes(job) && targets != map[] && KeysFit(job, targets)
          case Moving(targets) => (job.MoveFile? || job.MoveSubtree?) && targets != map[] && KeysFit(job, targets)
          case Deleting(path, _, _) => (job.DeleteFile? || job.DeleteSubtree?) && Covers(job, path)
          case Closing(_) => job.IdleClose?
          case Stabilizing(_, waits) => waits == {} && job.StablePath?
          case Operating => job.StablePath?
          case _ => true)
  }

  predicate JobMovesOrDeletes(job: Job) { !job.StablePath? && !job.IdleClose? }

  ghost predicate KeysFit(job: Job, targets: map<Path, SessionId>) {
    match job
    case MoveFile(source, _) => targets.Keys <= {source}
    case MoveSubtree(source, _) => forall p :: p in targets ==> source < p
    case _ => forall p :: p in targets ==> Covers(job, p)
  }

  ghost predicate RestInv(s: State) {
    s.queue != [] ==>
      match s.phase
      case Opening(_, _, rest) => forall p :: p in rest ==> Covers(s.queue[0].job, p)
      case Deleting(_, _, rest) => forall p :: p in rest ==> Covers(s.queue[0].job, p)
      case _ => true
  }

  /** A session being closed by the idle close is nobody's: in no path, held by none, under no barrier.
      A path being deleted without a session stays without one. */
  ghost predicate ClosingInv(s: State) {
    && (s.phase.Closing? && s.queue != [] && s.queue[0].job.IdleClose? ==>
          && s.phase.sid < s.nextSession && !Placed(s, s.phase.sid) && !InUse(s, s.phase.sid)
          && s.queue[0].job.path !in s.sessions
          && forall b :: b in s.barriers ==> b.0 != s.phase.sid)
    && (s.phase.Deleting? && s.phase.target.None? ==> s.phase.path !in s.sessions)
  }

  ghost predicate TicketsInv(s: State) {
    && (forall i :: 0 <= i < |s.queue| ==> s.queue[i].ticket < s.nextTicket)
    && (forall i, j :: 0 <= i < j < |s.queue| ==> s.queue[i].ticket < s.queue[j].ticket)
    && (forall i :: 0 <= i < |s.queue| && s.queue[i].job.StablePath? && s.queue[i].job.eager.Some? ==>
          s.queue[i].job.eager.value.waits == {})
  }

  /** The mutation at `i` rightly owns barrier `b`: it is a stable-path operation on the path where the
      session is, and until it runs no earlier mutation in the queue covers that path. */
  ghost predicate Owns(s: State, i: nat, b: (SessionId, Ticket))
    requires i < |s.queue|
  {
    && s.queue[i].ticket == b.1
    && s.queue[i].job.StablePath?
    && (forall p :: p in s.sessions && s.sessions[p] == b.0 ==> p == s.queue[i].job.path)
    && (forall j :: 0 <= j < i ==> !Covers(s.queue[j].job, s.queue[i].job.path))
    && (i > 0 || s.phase.Queued? ==> s.queue[i].job.eager.Some? && s.queue[i].job.eager.value.sid == b.0)
  }

  ghost predicate BarriersInv(s: State) {
    forall b :: b in s.barriers ==> exists i :: 0 <= i < |s.queue| && Owns(s, i, b)
  }

  ghost predicate ProtocolInv(s: State) {
    && TargetsInv(s) && DestinationsInv(s) && PhaseInv(s) && RestInv(s) && ClosingInv(s)
    && TicketsInv(s) && BarriersInv(s)
    && StragglersInv(s)
  }

  /** Late completions are of sessions that there are; nothing else is known of them. */
  ghost predicate StragglersInv(s: State) { forall g :: g in s.stragglers ==> g.sid < s.nextSession }

  ghost predicate Inv(s: State) {
    OwnershipInv(s) && NoneLost(s) && ProtocolInv(s)
  }

  // ---------------------------------------------------------------------------
  // Reference counts
  // ---------------------------------------------------------------------------

  lemma OneMoreHolder(holds: map<nat, Hold>, id: nat, hold: Hold, sid: SessionId)
    requires id !in holds
    ensures Holders(holds[id := hold], sid) == if sid == hold.sid then Holders(holds, sid) + {id} else Holders(holds, sid)
    ensures id !in Holders(holds, sid)
  {
  }

  lemma HolderAdded(counts: map<SessionId, nat>, holds: map<nat, Hold>, id: nat, hold: Hold)
    requires CountsMatch(counts, holds) && id !in holds
    ensures CountsMatch(Increment(counts, hold.sid), holds[id := hold])
  {
    var after, held := Increment(counts, hold.sid), holds[id := hold];
    forall sid
      ensures CountMatches(after, held, sid)
    {
      assert CountMatches(counts, holds, sid);
      OneMoreHolder(holds, id, hold, sid);
      hide Holders;
    }
  }

  lemma HolderRemoved(counts: map<SessionId, nat>, holds: map<nat, Hold>, id: nat)
    requires CountsMatch(counts, holds) && id in holds
    ensures CountsMatch(Decrement(counts, holds[id].sid), holds - {id})
  {
    forall sid
      ensures CountMatches(Decrement(counts, holds[id].sid), holds - {id}, sid)
    {
      assert CountMatches(counts, holds, sid);
      var left := Holders(holds - {id}, sid);
      if sid == holds[id].sid {
        assert id in Holders(holds, sid);
        assert Holders(holds, sid) == left + {id};
        assert |Holders(holds, sid)| == |left| + 1;
      } else {
        assert left == Holders(holds, sid);
      }
    }
  }

  lemma HolderCounts(counts: map<SessionId, nat>, holds: map<nat, Hold>, id: nat)
    requires CountsMatch(counts, holds) && id in holds
    ensures holds[id].sid in counts && counts[holds[id].sid] > 0
  {
    assert CountMatches(counts, holds, holds[id].sid);
    assert id in Holders(holds, holds[id].sid);
  }

  // ---------------------------------------------------------------------------
  // What everyone but the head mutation may do to the map
  // ---------------------------------------------------------------------------

  /** Entries disappear, or fresh sessions appear under paths nobody has reserved; the queue is untouched. */
  ghost predicate Harmless(s: State, t: State) {
    && t.queue == s.queue && t.phase == s.phase && t.barriers == s.barriers && t.stragglers == s.stragglers
    && t.nextTicket == s.nextTicket && t.nextSession >= s.nextSession
    && (forall p :: p in t.sessions ==>
          (p in s.sessions && t.sessions[p] == s.sessions[p]) || (t.sessions[p] >= s.nextSession && !Reserved(s, p)))
  }

  lemma HarmlessKeepsBarriers(s: State, t: State)
    requires IdsInv(s) && BarriersInv(s) && Harmless(s, t)
    ensures BarriersInv(t)
  {
    forall b | b in t.barriers
      ensures exists i :: 0 <= i < |t.queue| && Owns(t, i, b)
    {
      var i :| 0 <= i < |s.queue| && Owns(s, i, b);
      assert Owns(t, i, b);
    }
  }

  lemma HarmlessKeepsTargets(s: State, t: State)
    requires TargetsInv(s) && DestinationsInv(s) && Harmless(s, t)
    ensures TargetsInv(t) && DestinationsInv(t)
  {
    assert Targets(t) == Targets(s);
    if Targets(s) != map[] {
      assert forall f :: f in Targets(s) ==> Reserved(s, f) && Reserved(s, Destination(s.queue[0].job, f)) by {
        assert forall p :: Covers(s.queue[0].job, p) ==> Reserved(s, p);
      }
    }
    hide Targets, Reserved, Covers, Destination, Disjoint;
  }

  lemma HarmlessKeepsProtocol(s: State, t: State)
    requires IdsInv(s) && ProtocolInv(s) && Harmless(s, t)
    requires s.phase.Closing? ==> !InUse(t, s.phase.sid)
    ensures ProtocolInv(t)
  {
    HarmlessKeepsBarriers(s, t);
    HarmlessKeepsTargets(s, t);
    assert ClosingInv(t) by {
      if s.phase.Closing? && s.queue != [] && s.queue[0].job.IdleClose? {
        assert Covers(s.queue[0].job, s.queue[0].job.path);
      }
    }
  }

  lemma FreshKeepsInjective(m: map<Path, SessionId>, path: Path, sid: SessionId)
    requires Injective(m) && forall p :: p in m ==> m[p] != sid
    ensures Injective(m[path := sid])
  {
    var n := m[path := sid];
    forall p, q | p in n && q in n && n[p] == n[q]
      ensures p == q
    {
      if p != path && q != path {
        assert m[p] == m[q];
      }
    }
  }

  lemma GetSessionKeepsOwnership(s: State, path: Path)
    requires OwnershipInv(s)
    ensures OwnershipInv(GetSession(s, path).0)
  {
    FreshKeepsInjective(s.sessions, path, s.nextSession);
  }

  lemma GetSessionKeepsPlaces(s: State, path: Path)
    requires NoneLost(s) && OwnershipInv(s)
    ensures NoneLost(GetSession(s, path).0)
  {
    var (t, sid) := GetSession(s, path);
    forall held | InUse(t, held) && held !in t.deleted
      ensures Placed(t, held)
    {
      var p :| p in s.sessions && s.sessions[p] == held;
      assert p in t.sessions && t.sessions[p] == held;
    }
  }

  lemma GetSessionIsHarmless(s: State, path: Path)
    requires !Reserved(s, path)
    ensures var (t, sid) := GetSession(s, path);
      && Harmless(s, t) && path in t.sessions && t.sessions[path] == sid
      && forall held :: InUse(t, held) <==> InUse(s, held)
  {
    hide Reserved;
  }

  lemma GetSessionKeepsInv(s: State, path: Path)
    requires Inv(s) && !Reserved(s, path)
    ensures var (t, sid) := GetSession(s, path);
      Inv(t) && Harmless(s, t) && path in t.sessions && t.sessions[path] == sid
  {
    var (t, sid) := GetSession(s, path);
    GetSessionIsHarmless(s, path);
    GetSessionKeepsOwnership(s, path);
    GetSessionKeepsPlaces(s, path);
    hide GetSession, Harmless, Reserved, NoneLost, Injective, CountsMatch;
    HarmlessKeepsProtocol(s, t);
    hide ProtocolInv, OwnershipInv;
  }

  /** Entries leave the map, but none of a session that is held and not deleted. */
  ghost predicate Trims(s: State, t: State) {
    && t == s.(sessions := t.sessions, timers := t.timers, live := t.live, deleted := t.deleted, failing := t.failing)
    && s.deleted <= t.deleted
    && (forall p :: p in t.sessions ==> p in s.sessions && t.sessions[p] == s.sessions[p])
    && (forall p :: p in s.sessions && InUse(s, s.sessions[p]) && s.sessions[p] !in t.deleted ==> p in t.sessions)
  }

  lemma TrimKeepsInv(s: State, t: State)
    requires Inv(s) && Trims(s, t)
    ensures Inv(t)
  {
    forall sid | InUse(t, sid) && sid !in t.deleted
      ensures Placed(t, sid)
    {
      var p :| p in s.sessions && s.sessions[p] == sid;
      assert p in t.sessions && t.sessions[p] == sid;
    }
    HarmlessKeepsProtocol(s, t);
  }

  lemma ScheduleKeepsInv(s: State, path: Path)
    requires Inv(s)
    ensures Inv(ScheduleIdleClose(s, path))
  {
    TrimKeepsInv(s, ScheduleIdleClose(s, path));
  }

  lemma AttachKeepsInv(s: State, path: Path)
    requires Inv(s)
    ensures Inv(Attach(s, path))
  {
    if !Reserved(s, path) {
      var (t, sid) := GetSession(s, path);
      var u := Attach(s, path);
      GetSessionKeepsInv(s, path);
      HolderAdded(t.clientCounts, t.leases, t.nextHold, Hold(sid, path));
      assert NoneLost(u) by { HoldKeepsPlaces(t, u, path); }
      HarmlessKeepsProtocol(t, u);
    }
  }

  lemma HoldKeepsPlaces(t: State, u: State, path: Path)
    requires NoneLost(t) && path in t.sessions && u.sessions == t.sessions && u.deleted == t.deleted
    requires forall sid :: InUse(u, sid) ==> InUse(t, sid) || sid == t.sessions[path]
    ensures NoneLost(u)
  {
    forall sid | InUse(u, sid) && sid !in u.deleted
      ensures Placed(u, sid)
    {
      if sid == t.sessions[path] {
        assert path in u.sessions && u.sessions[path] == sid;
      } else {
        var p :| p in t.sessions && t.sessions[p] == sid;
        assert p in u.sessions && u.sessions[p] == sid;
      }
    }
  }

  lemma BeginOperationKeepsInv(s: State, path: Path)
    requires Inv(s)
    ensures Inv(BeginOperation(s, path))
  {
    if Reserved(s, path) {
      TrimKeepsInv(s, CancelTimer(s, path));
    } else {
      var (t, sid) := GetSession(s, path);
      var u := BeginOperation(s, path);
      GetSessionKeepsInv(s, path);
      HolderAdded(t.operationCounts, t.operations, t.nextHold, Hold(sid, path));
      assert NoneLost(u) by { HoldKeepsPlaces(t, u, path); }
      HarmlessKeepsProtocol(t, u);
    }
  }

  /** Fewer holders, same map. */
  lemma UnholdKeepsInv(s: State, t: State)
    requires Inv(s)
    requires t == s.(leases := t.leases, operations := t.operations,
                     clientCounts := t.clientCounts, operationCounts := t.operationCounts)
    requires forall h :: h in t.leases ==> h in s.leases && t.leases[h] == s.leases[h]
    requires forall h :: h in t.operations ==> h in s.operations && t.operations[h] == s.operations[h]
    requires CountsMatch(t.clientCounts, t.leases) && CountsMatch(t.operationCounts, t.operations)
    requires forall sid :: InUse(t, sid) ==> InUse(s, sid)
    ensures Inv(t)
  {
    forall sid | InUse(t, sid) && sid !in t.deleted
      ensures Placed(t, sid)
    {
      var p :| p in s.sessions && s.sessions[p] == sid;
      assert p in t.sessions && t.sessions[p] == sid;
    }
    HarmlessKeepsProtocol(s, t);
  }

  lemma ReleaseKeepsInv(s: State, lease: nat)
    requires Inv(s)
    ensures Inv(Release(s, lease))
  {
    if lease in s.leases {
      var hold := s.leases[lease];
      var t := s.(leases := s.leases - {lease}, clientCounts := Decrement(s.clientCounts, hold.sid));
      HolderCounts(s.clientCounts, s.leases, lease);
      HolderRemoved(s.clientCounts, s.leases, lease);
      UnholdKeepsInv(s, t);
      ScheduleKeepsInv(t, PathOf(t, hold.sid, hold.path));
    }
  }

  lemma EndOperationKeepsInv(s: State, operation: nat)
    requires Inv(s)
    ensures Inv(EndOperation(s, operation))
  {
    if operation in s.operations {
      var hold := s.operations[operation];
      var t := s.(operations := s.operations - {operation},
                  operationCounts := Decrement(s.operationCounts, hold.sid));
      HolderCounts(s.operationCounts, s.operations, operation);
      HolderRemoved(s.operationCounts, s.operations, operation);
      UnholdKeepsInv(s, t);
      ScheduleKeepsInv(t, PathOf(t, hold.sid, hold.path));
    }
  }

  // ---------------------------------------------------------------------------
  // Joining the queue
  // ---------------------------------------------------------------------------

  lemma OwnsAfterEnqueue(s: State, job: Job, i: nat, b: (SessionId, Ticket))
    requires i < |s.queue| && Owns(s, i, b)
    ensures Owns(Enqueue(s, job), i, b)
  {
  }

  lemma EnqueueKeepsBarriers(s: State, job: Job)
    requires BarriersInv(s)
    ensures BarriersInv(Enqueue(s, job))
  {
    var t := Enqueue(s, job);
    forall b | b in t.barriers
      ensures exists i :: 0 <= i < |t.queue| && Owns(t, i, b)
    {
      var i :| 0 <= i < |s.queue| && Owns(s, i, b);
      OwnsAfterEnqueue(s, job, i, b);
    }
  }

  lemma EnqueueKeepsInv(s: State, job: Job)
    requires Inv(s) && (job.StablePath? && job.eager.Some? ==> job.eager.value.waits == {})
    ensures Inv(Enqueue(s, job))
  {
    EnqueueKeepsBarriers(s, job);
    EnqueueKeepsHead(s, job);
    TrimmedPlaces(s, Enqueue(s, job));
    hide BarriersInv, NoneLost, CountsMatch, InUse, Placed, TargetsInv, DestinationsInv, ClosingInv, PhaseInv, RestInv;
  }

  lemma EnqueueKeepsHead(s: State, job: Job)
    requires TargetsInv(s) && DestinationsInv(s) && PhaseInv(s) && RestInv(s) && ClosingInv(s)
    ensures var t := Enqueue(s, job);
      TargetsInv(t) && DestinationsInv(t) && PhaseInv(t) && RestInv(t) && ClosingInv(t)
  {
    assert s.queue != [] ==> Enqueue(s, job).queue[0] == s.queue[0];
    hide Destination, Covers, Disjoint;
  }

  lemma TrimmedPlaces(s: State, t: State)
    requires NoneLost(s) && t.sessions == s.sessions && t.deleted == s.deleted
    requires t.clientCounts == s.clientCounts && t.operationCounts == s.operationCounts
    ensures NoneLost(t)
  {
    forall sid | InUse(t, sid) && sid !in t.deleted
      ensures Placed(t, sid)
    {
      assert InUse(s, sid);
      var p :| p in s.sessions && s.sessions[p] == sid;
      assert p in t.sessions && t.sessions[p] == sid;
    }
  }

  /** A session at an unreserved path carries no barrier, so an eager barrier never queues behind another. */
  lemma UnreservedHasNoBarrier(s: State, path: Path)
    requires BarriersInv(s) && path in s.sessions && !Reserved(s, path)
    ensures forall b :: b in s.barriers ==> b.0 != s.sessions[path]
  {
    forall b | b in s.barriers
      ensures b.0 != s.sessions[path]
    {
      var i :| 0 <= i < |s.queue| && Owns(s, i, b);
      assert !Covers(s.queue[i].job, path);
    }
  }

  lemma SubmitStablePathKeepsInv(s: State, path: Path)
    requires Inv(s)
    ensures Inv(SubmitStablePath(s, path))
  {
    if !Reserved(s, path) && path in s.sessions {
      var sid := s.sessions[path];
      UnreservedHasNoBarrier(s, path);
      assert BarriersOn(s, sid) == {};
      var job := StablePath(path, Some(Eager(sid, {})));
      var t := Enqueue(s, job);
      EnqueueKeepsInv(s, job);
      EagerBarrierKeepsInv(s, t, path);
    } else {
      EnqueueKeepsInv(s, StablePath(path, None));
    }
  }

  ghost predicate EagerlySubmitted(s: State, t: State, path: Path) {
    && path in s.sessions && !Reserved(s, path)
    && t == Enqueue(s, StablePath(path, Some(Eager(s.sessions[path], {}))))
  }

  lemma EagerBarrierKeepsBarriers(s: State, t: State, path: Path)
    requires EagerlySubmitted(s, t, path) && Injective(t.sessions) && BarriersInv(t)
    ensures BarriersInv(t.(barriers := t.barriers + {(s.sessions[path], s.nextTicket)}))
  {
    var mine := (s.sessions[path], s.nextTicket);
    var u := t.(barriers := t.barriers + {mine});
    forall b | b in u.barriers
      ensures exists i :: 0 <= i < |u.queue| && Owns(u, i, b)
    {
      if b == mine {
        assert forall j :: 0 <= j < |s.queue| ==> !Covers(s.queue[j].job, path);
        assert Owns(u, |s.queue|, b);
      } else {
        var i :| 0 <= i < |t.queue| && Owns(t, i, b);
        assert Owns(u, i, b);
      }
    }
  }

  /** A barrier on a session that the head mutation has not picked. */
  lemma BarrierElsewhereKeepsTargets(t: State, mine: (SessionId, Ticket))
    requires TargetsInv(t) && forall f :: f in Targets(t) ==> Targets(t)[f] != mine.0
    ensures TargetsInv(t.(barriers := t.barriers + {mine}))
  {
    assert Targets(t.(barriers := t.barriers + {mine})) == Targets(t);
  }

  lemma EagerBarrierKeepsTargets(s: State, t: State, path: Path)
    requires EagerlySubmitted(s, t, path) && TargetsInv(t) && (s.queue == [] ==> s.phase.Queued?)
    ensures TargetsInv(t.(barriers := t.barriers + {(s.sessions[path], s.nextTicket)}))
  {
    forall f | f in Targets(t)
      ensures Targets(t)[f] != s.sessions[path]
    {
      assert t.queue[0] == s.queue[0] && !Covers(s.queue[0].job, path);
      assert path != f;
    }
    BarrierElsewhereKeepsTargets(t, (s.sessions[path], s.nextTicket));
  }

  lemma EagerBarrierKeepsClosing(s: State, t: State, path: Path)
    requires EagerlySubmitted(s, t, path) && ClosingInv(t) && (s.queue == [] ==> s.phase.Queued?)
    ensures ClosingInv(t.(barriers := t.barriers + {(s.sessions[path], s.nextTicket)}))
  {
    assert t.sessions[path] == s.sessions[path];
    if t.phase.Closing? && t.queue[0].job.IdleClose? {
      assert t.queue[0] == s.queue[0];
      assert Placed(t, s.sessions[path]);
    }
  }

  lemma EagerBarrierKeepsInv(s: State, t: State, path: Path)
    requires Inv(t) && EagerlySubmitted(s, t, path) && (s.queue == [] ==> s.phase.Queued?)
    ensures Inv(t.(barriers := t.barriers + {(s.sessions[path], s.nextTicket)}))
  {
    EagerBarrierKeepsBarriers(s, t, path);
    EagerBarrierKeepsTargets(s, t, path);
    EagerBarrierKeepsClosing(s, t, path);
    TrimmedPlaces(t, t.(barriers := t.barriers + {(s.sessions[path], s.nextTicket)}));
  }
}
