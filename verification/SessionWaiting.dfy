module SessionWaiting {
  // Who waits for whom in the queue of the session manager, and exactly which steps make the waiting circular.

  import opened Wrappers
  import opened VaultPaths
  import opened SessionProtocol
  import opened SessionSafety
  import opened SessionMutations
  import opened SessionStragglers
  import opened SessionGuarantees

  // ---------------------------------------------------------------------------
  // Waiting
  // ---------------------------------------------------------------------------

  /** The mutation at `i` waits for the one at `j`: for its turn in the queue, or, at the head, for a
      stable-open barrier that the other owns. */
  ghost predicate WaitsFor(s: State, i: nat, j: nat)
    requires i < |s.queue| && j < |s.queue|
  {
    || (i > 0 && j == i - 1)
    || (i == 0 && s.queue[j].ticket in Awaited(s.phase) && exists b :: b in s.barriers && b.1 == s.queue[j].ticket)
  }

  /** The barriers that a stable-path operation would wait for if it began now. */
  function AwaitedAtStart(s: State, i: nat): set<Ticket>
    requires i < |s.queue|
  {
    match s.queue[i].job
    case StablePath(path, eager) =>
      if path !in s.sessions then {}
      else if eager.Some? && s.sessions[path] == eager.value.sid then eager.value.waits
      else BarriersOn(s, s.sessions[path]) - {s.queue[i].ticket}
    case _ => {}
  }

  /** The operation at `i` has not begun, and once it begins it waits for a barrier of the one at `j`. */
  ghost predicate BoundToWait(s: State, i: nat, j: nat)
    requires i < |s.queue| && j < |s.queue|
  {
    && (i > 0 || s.phase.Queued?)
    && s.queue[j].ticket in AwaitedAtStart(s, i) && exists b :: b in s.barriers && b.1 == s.queue[j].ticket
  }

  /** Whoever waits, or is bound to, waits for an earlier one. */
  ghost predicate WaitsForEarlier(s: State) {
    forall i, j :: 0 <= i < |s.queue| && 0 <= j < |s.queue| && (WaitsFor(s, i, j) || BoundToWait(s, i, j)) ==> j < i
  }

  // ---------------------------------------------------------------------------
  // What the steps keep
  // ---------------------------------------------------------------------------

  /** Tickets grow along the queue, and every barrier belongs to a mutation in it. */
  ghost predicate TicketsGrow(s: State) {
    && (forall i :: 0 <= i < |s.queue| ==> s.queue[i].ticket < s.nextTicket)
    && (forall i, j :: 0 <= i < j < |s.queue| ==> s.queue[i].ticket < s.queue[j].ticket)
    && (forall b :: b in s.barriers ==> InQueue(s, b.1))
  }

  ghost predicate InQueue(s: State, ticket: Ticket) { exists i :: 0 <= i < |s.queue| && s.queue[i].ticket == ticket }

  /** What an eager barrier waits for is older than its operation, and what the head awaits was there before. */
  ghost predicate WaitsAreOlder(s: State) {
    && (forall i :: 0 <= i < |s.queue| ==> EagerIsOlder(s.queue[i]))
    && (forall w :: w in Awaited(s.phase) ==> w < s.nextTicket)
  }

  predicate EagerIsOlder(m: Mutation) {
    m.job.StablePath? && m.job.eager.Some? ==> forall w :: w in m.job.eager.value.waits ==> w < m.ticket
  }

  ghost predicate Ordered(s: State) { TicketsGrow(s) && WaitsAreOlder(s) }

  // ---------------------------------------------------------------------------
  // What a step can do to the waiting
  // ---------------------------------------------------------------------------

  /** The operation at `i` has not begun, is on `path`, and has no eager barrier on the session. */
  predicate Approaches(s: State, i: nat, path: Path, sid: SessionId)
    requires i < |s.queue|
  {
    && (i > 0 || s.phase.Queued?) && s.queue[i].job.StablePath? && s.queue[i].job.path == path
    && !(s.queue[i].job.eager.Some? && s.queue[i].job.eager.value.sid == sid)
  }

  /** Under `path` the session would be met by an operation that is queued before the owner of one of its barriers. */
  predicate Meets(s: State, path: Path, sid: SessionId) {
    exists i, j :: 0 <= i < j < |s.queue| && Approaches(s, i, path, sid) && (sid, s.queue[j].ticket) in s.barriers
  }

  /** Opening the session waits for a barrier. */
  predicate OpensUnderBarrier(s: State, sid: SessionId) { sid !in s.live && exists b :: b in s.barriers && b.0 == sid }

  predicate DeletesUnderBarrier(s: State, path: Path) { path in s.sessions && OpensUnderBarrier(s, s.sessions[path]) }

  /** What a move is going to open, if its source is there and its target is not taken. */
  function ToBeMoved(s: State): map<Path, SessionId>
    requires s.queue != [] && s.phase.Statting?
  {
    match s.queue[0].job
    case MoveFile(source, target) =>
      if target in s.sessions && (source !in s.phase.captured || s.sessions[target] != s.phase.captured[source]) then map[]
      else s.phase.captured
    case MoveSubtree(source, target) =>
      if exists p :: p in s.sessions && AtOrUnder(target, p) && s.sessions[p] !in Below(s, source).Values then map[]
      else Below(s, source)
    case _ => map[]
  }

  /** A moved session is put under its target, unless it is unused and not open. */
  predicate PutsBefore(s: State, g: Straggler) { Arrives(s, g) && Meets(s, g.target, g.sid) }

  /** What can make the waiting circular, to be checked before the step. A completed move, in time or late, or a
      failed close puts a session under the path of an operation that is queued before the owner of one of its
      barriers. An operation gets an eager barrier on a session that is also under the path of another one. Or a
      move or a delete opens a session under a barrier. */
  predicate ClosesCircle(s: State, step: Step) {
    match step
    case StragglerMoves(g) => g in s.stragglers && PutsBefore(s, g)
    case SessionMoved(path) =>
      s.queue != [] && s.phase.Moving? && path in s.phase.targets
      && PutsBefore(s, Straggler(path, Destination(s.queue[0].job, path), s.phase.targets[path]))
    case CloseReturns(ok) =>
      s.queue != [] && s.phase.Closing? && s.queue[0].job.IdleClose? && !ok && s.phase.sid in s.failing
      && Meets(s, s.queue[0].job.path, s.phase.sid)
    case StablePathSubmitted(path) =>
      !Reserved(s, path) && path in s.sessions
      && AnyMeetsNow(s, s.sessions[path])
    case MutationBegins(order) =>
      s.queue != []
      && (match s.queue[0].job
          case DeleteFile(path) => DeletesUnderBarrier(s, path)
          case DeleteSubtree(_) => order != [] && DeletesUnderBarrier(s, order[0])
          case _ => false)
    case StatReturns(found) =>
      s.queue != [] && s.phase.Statting? && found
      && exists p :: p in ToBeMoved(s) && OpensUnderBarrier(s, ToBeMoved(s)[p])
    case DeleteReturns(ok) =>
      s.queue != [] && s.phase.Deleting? && ok && s.phase.rest != []
      && var next := s.phase.rest[0];
         next != s.phase.path && next in s.sessions && s.phase.target != Some(s.sessions[next])
         && DeletesUnderBarrier(s, next)
    case _ => false
  }

  /** The operation at `i` is going to meet the session. */
  predicate MeetsNow(s: State, i: nat, sid: SessionId)
    requires i < |s.queue|
  {
    && s.queue[i].job.StablePath? && Approaches(s, i, s.queue[i].job.path, sid)
    && s.queue[i].job.path in s.sessions && s.sessions[s.queue[i].job.path] == sid
  }

  predicate AnyMeetsNow(s: State, sid: SessionId) { exists i :: 0 <= i < |s.queue| && MeetsNow(s, i, sid) }

  // ---------------------------------------------------------------------------
  // Waiting told from the map
  // ---------------------------------------------------------------------------

  /** No session under a path meets an operation too early. */
  ghost predicate NoneMet(s: State) { forall p :: p in s.sessions ==> !Meets(s, p, s.sessions[p]) }

  lemma MetIsBound(s: State, p: Path)
    requires Ordered(s) && p in s.sessions && Meets(s, p, s.sessions[p])
    ensures !WaitsForEarlier(s)
  {
    var i, j :| 0 <= i < j < |s.queue| && Approaches(s, i, p, s.sessions[p]) && (s.sessions[p], s.queue[j].ticket) in s.barriers;
    var b := (s.sessions[p], s.queue[j].ticket);
    assert b in s.barriers && s.queue[i].ticket != s.queue[j].ticket;
    assert s.queue[j].ticket in BarriersOn(s, s.sessions[p]);
    assert BoundToWait(s, i, j);
  }

  lemma BoundIsMet(s: State, i: nat, j: nat)
    requires Ordered(s) && NoneMet(s) && i < |s.queue| && j < |s.queue| && BoundToWait(s, i, j)
    ensures j < i
  {
    var StablePath(path, eager) := s.queue[i].job;
    if eager.Some? && s.sessions[path] == eager.value.sid {
      assert EagerIsOlder(s.queue[i]) && s.queue[j].ticket < s.queue[i].ticket;
    } else {
      assert s.queue[j].ticket in BarriersOn(s, s.sessions[path]) && s.queue[j].ticket != s.queue[i].ticket;
      var b :| b in s.barriers && b.0 == s.sessions[path] && b.1 == s.queue[j].ticket;
      assert (s.sessions[path], s.queue[j].ticket) in s.barriers;
      if i < j {
        assert Approaches(s, i, path, s.sessions[path]);
      }
    }
  }

  /** Waiting is in order if and only if the head awaits nothing and no session is met too early. */
  lemma WaitsForEarlierIff(s: State)
    requires Ordered(s)
    ensures WaitsForEarlier(s) <==> !Pending(s, Awaited(s.phase)) && NoneMet(s)
  {
    hide AwaitedAtStart, Meets;
    if Pending(s, Awaited(s.phase)) {
      var b :| b in s.barriers && b.1 in Awaited(s.phase);
      assert InQueue(s, b.1);
      var j :| 0 <= j < |s.queue| && s.queue[j].ticket == b.1;
      assert WaitsFor(s, 0, j);
    }
    if !NoneMet(s) {
      var p :| p in s.sessions && Meets(s, p, s.sessions[p]);
      MetIsBound(s, p);
    }
    if !Pending(s, Awaited(s.phase)) && NoneMet(s) {
      forall i, j | 0 <= i < |s.queue| && 0 <= j < |s.queue| && (WaitsFor(s, i, j) || BoundToWait(s, i, j))
        ensures j < i
      {
        if BoundToWait(s, i, j) {
          BoundIsMet(s, i, j);
        }
      }
    }
  }

  // ---------------------------------------------------------------------------
  // Steps that leave the queue alone
  // ---------------------------------------------------------------------------

  /** The queue, the barriers and the head stay, and sessions appear only under paths that nobody reserves. */
  ghost predicate StaysQueued(s: State, t: State) {
    && t.queue == s.queue && t.phase == s.phase && t.barriers == s.barriers && t.nextTicket == s.nextTicket
    && forall p :: p in t.sessions ==> (p in s.sessions && t.sessions[p] == s.sessions[p]) || !Reserved(s, p)
  }

  lemma UnreservedIsNotMet(s: State, path: Path, sid: SessionId)
    requires !Reserved(s, path)
    ensures !Meets(s, path, sid)
  {
  }

  lemma MeetsTheSame(s: State, t: State, path: Path, sid: SessionId)
    requires t.queue == s.queue && t.phase.Queued? == s.phase.Queued? && t.barriers == s.barriers
    ensures Meets(t, path, sid) <==> Meets(s, path, sid)
  {
    assert forall i :: 0 <= i < |s.queue| ==> Approaches(t, i, path, sid) == Approaches(s, i, path, sid);
    hide Approaches;
  }

  lemma StaysOrdered(s: State, t: State)
    requires Ordered(s) && t.queue == s.queue && t.nextTicket == s.nextTicket
    requires forall b :: b in t.barriers ==> b in s.barriers || InQueue(s, b.1)
    requires forall w :: w in Awaited(t.phase) ==> w < t.nextTicket
    ensures Ordered(t)
  {
    assert forall b :: b in t.barriers && InQueue(s, b.1) ==> InQueue(t, b.1);
    hide InQueue, Awaited, EagerIsOlder;
  }

  lemma StaysInOrder(s: State, t: State)
    requires Ordered(s) && WaitsForEarlier(s) && StaysQueued(s, t)
    ensures Ordered(t) && WaitsForEarlier(t)
  {
    WaitsForEarlierIff(s);
    StaysOrdered(s, t);
    hide Meets, Ordered, Reserved, Awaited, WaitsForEarlier;
    forall p | p in t.sessions
      ensures !Meets(t, p, t.sessions[p])
    {
      MeetsTheSame(s, t, p, t.sessions[p]);
      if !Reserved(s, p) {
        UnreservedIsNotMet(s, p, t.sessions[p]);
      }
    }
    WaitsForEarlierIff(t);
  }

  lemma GetSessionStays(s: State, path: Path)
    requires !Reserved(s, path)
    ensures StaysQueued(s, GetSession(s, path).0)
  {
    hide Reserved;
  }

  lemma ReleaseStays(s: State, hold: nat)
    ensures StaysQueued(s, Release(s, hold)) && StaysQueued(s, EndOperation(s, hold))
  {
    hide InUse, PathOf, Decrement, Reserved;
  }

  lemma ClientStays(s: State, step: Step)
    requires Possible(s, step) && IsClientStep(step)
    ensures StaysQueued(s, Next(s, step))
  {
    hide InUse, Reserved, PathOf, Increment, Decrement, GetSession, Release, EndOperation;
    match step
    case Touch(path) => if !Reserved(s, path) { GetSessionStays(s, path); }
    case ClientAttaches(path) => if !Reserved(s, path) { GetSessionStays(s, path); }
    case OperationBegins(path) => if !Reserved(s, path) { GetSessionStays(s, path); }
    case ClientReleases(lease) => ReleaseStays(s, lease);
    case OperationEnds(operation) => ReleaseStays(s, operation);
  }

  lemma OutsideStays(s: State, step: Step)
    requires Possible(s, step) && (step.SessionOpens? || step.SessionDeleted? || step.PersistFails? || step.PersistRecovers?
      || step.StragglerFails?)
    ensures StaysQueued(s, Next(s, step))
  {
    hide Reserved;
  }

  // ---------------------------------------------------------------------------
  // Steps that add to the queue
  // ---------------------------------------------------------------------------

  lemma NoBarrierYet(s: State, sid: SessionId)
    requires TicketsGrow(s)
    ensures (sid, s.nextTicket) !in s.barriers
  {
    assert forall b :: b in s.barriers ==> InQueue(s, b.1);
    assert !InQueue(s, s.nextTicket);
  }

  lemma MeetsBeforeLast(s: State, t: State, job: Job, path: Path, sid: SessionId)
    requires TicketsGrow(s) && t.queue == s.queue + [Mutation(s.nextTicket, job)]
    requires t.phase == s.phase && t.barriers == s.barriers
    ensures Meets(t, path, sid) <==> Meets(s, path, sid)
  {
    assert forall i :: 0 <= i < |s.queue| ==> Approaches(t, i, path, sid) == Approaches(s, i, path, sid);
    assert forall j :: 0 <= j < |s.queue| ==> t.queue[j] == s.queue[j];
    NoBarrierYet(s, sid);
    assert t.queue[|s.queue|].ticket == s.nextTicket;
    hide Approaches, TicketsGrow;
    if Meets(s, path, sid) {
      var i, j :| 0 <= i < j < |s.queue| && Approaches(s, i, path, sid) && (sid, s.queue[j].ticket) in s.barriers;
      assert Approaches(t, i, path, sid) && (sid, t.queue[j].ticket) in t.barriers;
    }
  }

  lemma EnqueueStaysOrdered(s: State, job: Job)
    requires Ordered(s) && EagerIsOlder(Mutation(s.nextTicket, job))
    ensures Ordered(Enqueue(s, job))
  {
    var t := Enqueue(s, job);
    forall b | b in t.barriers
      ensures InQueue(t, b.1)
    {
      assert InQueue(s, b.1);
      var i :| 0 <= i < |s.queue| && s.queue[i].ticket == b.1;
      assert t.queue[i] == s.queue[i];
    }
    hide EagerIsOlder;
  }

  lemma EnqueueStaysInOrder(s: State, job: Job)
    requires Ordered(s) && WaitsForEarlier(s) && EagerIsOlder(Mutation(s.nextTicket, job))
    ensures Ordered(Enqueue(s, job)) && WaitsForEarlier(Enqueue(s, job))
  {
    var t := Enqueue(s, job);
    EnqueueStaysOrdered(s, job);
    WaitsForEarlierIff(s);
    forall p | p in t.sessions
      ensures !Meets(t, p, t.sessions[p])
    {
      MeetsBeforeLast(s, t, job, p, t.sessions[p]);
      hide TicketsGrow, Meets;
    }
    hide Meets, Ordered, WaitsForEarlier, Awaited;
    WaitsForEarlierIff(t);
  }

  lemma EagerIsEnqueued(s: State, path: Path)
    requires Ordered(s) && !Reserved(s, path) && path in s.sessions
    ensures var sid := s.sessions[path];
      var t := Enqueue(s, StablePath(path, Some(Eager(sid, BarriersOn(s, sid)))));
      && SubmitStablePath(s, path) == t.(barriers := s.barriers + {(sid, s.nextTicket)})
      && EagerIsOlder(Mutation(s.nextTicket, StablePath(path, Some(Eager(sid, BarriersOn(s, sid))))))
  {
    var sid := s.sessions[path];
    forall w | w in BarriersOn(s, sid)
      ensures w < s.nextTicket
    {
      assert (sid, w) in s.barriers && InQueue(s, (sid, w).1);
    }
    hide Reserved;
  }

  /** A new eager barrier: its owner is the last of the queue, so whoever is to meet its session stands before it. */
  lemma NewBarrierMeets(s: State, job: Job, sid: SessionId, u: State, t: State, p: Path)
    requires TicketsGrow(s) && WaitsForEarlier(u) && Ordered(u) && p in s.sessions
    requires job.StablePath? && job.eager.Some? && job.eager.value.sid == sid
    requires u == Enqueue(s, job) && t == u.(barriers := s.barriers + {(sid, s.nextTicket)})
    ensures Meets(t, p, s.sessions[p]) <==>
      s.sessions[p] == sid && exists i :: 0 <= i < |s.queue| && Approaches(s, i, p, sid)
  {
    WaitsForEarlierIff(u);
    var last := |s.queue|;
    assert forall i :: 0 <= i < last ==> Approaches(t, i, p, s.sessions[p]) == Approaches(s, i, p, s.sessions[p]);
    assert forall i :: 0 <= i <= last ==> Approaches(t, i, p, s.sessions[p]) == Approaches(u, i, p, s.sessions[p]);
    assert !Meets(u, p, u.sessions[p]);
    assert forall i :: 0 <= i < last ==> t.queue[i].ticket != s.nextTicket;
    hide Approaches, Ordered, WaitsForEarlier, TicketsGrow;
    if s.sessions[p] == sid && exists i :: 0 <= i < last && Approaches(s, i, p, sid) {
      var i :| 0 <= i < last && Approaches(s, i, p, sid);
      assert Approaches(t, i, p, sid) && (sid, t.queue[last].ticket) in t.barriers;
    }
    if Meets(t, p, s.sessions[p]) {
      var i, j :| 0 <= i < j < |t.queue| && Approaches(t, i, p, s.sessions[p]) && (s.sessions[p], t.queue[j].ticket) in t.barriers;
      assert Approaches(u, i, p, s.sessions[p]);
      assert (s.sessions[p], u.queue[j].ticket) !in u.barriers;
    }
  }

  lemma NewBarrierMeetsIff(s: State, job: Job, sid: SessionId, u: State, t: State)
    requires TicketsGrow(s) && WaitsForEarlier(u) && Ordered(u)
    requires job.StablePath? && job.eager.Some? && job.eager.value.sid == sid
    requires u == Enqueue(s, job) && t == u.(barriers := s.barriers + {(sid, s.nextTicket)})
    ensures NoneMet(t) <==> !AnyMeetsNow(s, sid)
  {
    forall p | p in t.sessions
      ensures Meets(t, p, t.sessions[p]) <==>
        s.sessions[p] == sid && exists i :: 0 <= i < |s.queue| && Approaches(s, i, p, sid)
    {
      NewBarrierMeets(s, job, sid, u, t, p);
    }
    hide Meets, Ordered, WaitsForEarlier, TicketsGrow;
    if AnyMeetsNow(s, sid) {
      var i :| 0 <= i < |s.queue| && MeetsNow(s, i, sid);
      assert Approaches(s, i, s.queue[i].job.path, sid);
    } else {
      forall p | p in t.sessions
        ensures !Meets(t, p, t.sessions[p])
      {
        assert forall i :: 0 <= i < |s.queue| && s.sessions[p] == sid && Approaches(s, i, p, sid) ==> MeetsNow(s, i, sid);
      }
    }
  }

  lemma EagerClosesCircleIff(s: State, path: Path)
    requires Ordered(s) && WaitsForEarlier(s) && !Reserved(s, path) && path in s.sessions
    ensures var t := SubmitStablePath(s, path);
      Ordered(t) && (WaitsForEarlier(t) <==> !AnyMeetsNow(s, s.sessions[path]))
  {
    var sid := s.sessions[path];
    var job := StablePath(path, Some(Eager(sid, BarriersOn(s, sid))));
    var u, t := Enqueue(s, job), SubmitStablePath(s, path);
    EagerIsEnqueued(s, path);
    assert u.queue[|u.queue| - 1].ticket == s.nextTicket && u.barriers == s.barriers && u.phase == s.phase;
    hide Ordered, WaitsForEarlier, Awaited, SubmitStablePath, Enqueue, BarriersOn, Reserved, MeetsNow, NoneMet;
    EnqueueStaysInOrder(s, job);
    NewBarrierStaysOrdered(s, u, t, sid);
    WaitsForEarlierIff(s);
    WaitsForEarlierIff(t);
    NewBarrierIsNotAwaited(s, t, sid);
    assert TicketsGrow(s) by { OrderedGrows(s); }
    NewBarrierMeetsIff(s, job, sid, u, t);
  }

  lemma OrderedGrows(s: State)
    requires Ordered(s)
    ensures TicketsGrow(s)
  {
  }

  lemma NewBarrierStaysOrdered(s: State, u: State, t: State, sid: SessionId)
    requires Ordered(u) && u.queue != [] && u.queue[|u.queue| - 1].ticket == s.nextTicket && u.barriers == s.barriers
    requires t == u.(barriers := s.barriers + {(sid, s.nextTicket)})
    ensures Ordered(t)
  {
    assert forall b :: b in u.barriers ==> InQueue(u, b.1);
    assert InQueue(u, s.nextTicket);
    assert forall w :: InQueue(u, w) ==> InQueue(t, w);
    hide InQueue, EagerIsOlder, Awaited;
  }

  lemma NewBarrierIsNotAwaited(s: State, t: State, sid: SessionId)
    requires Ordered(s) && t.phase == s.phase && t.barriers == s.barriers + {(sid, s.nextTicket)}
    ensures Pending(t, Awaited(t.phase)) <==> Pending(s, Awaited(s.phase))
  {
    hide TicketsGrow, Awaited;
    if Pending(s, Awaited(s.phase)) {
      var b :| b in s.barriers && b.1 in Awaited(s.phase);
      assert b in t.barriers;
    }
  }

  lemma SubmissionClosesCircleIff(s: State, step: Step)
    requires Ordered(s) && WaitsForEarlier(s) && Possible(s, step)
    requires step.StablePathSubmitted? || step.MutationSubmitted? || step.TimerFires?
    ensures var t := Next(s, step); Ordered(t) && (WaitsForEarlier(t) <==> !ClosesCircle(s, step))
  {
    hide Reserved, Meets, Ordered, WaitsForEarlier;
    match step
    case StablePathSubmitted(path) =>
      if !Reserved(s, path) && path in s.sessions {
        EagerClosesCircleIff(s, path);
      } else {
        EnqueueStaysInOrder(s, StablePath(path, None));
      }
    case MutationSubmitted(job) => EnqueueStaysInOrder(s, job);
    case TimerFires(path) =>
      if path in s.timers && s.timers[path] {
        var u := s.(timers := s.timers[path := false]);
        TimersDoNotMatter(s, u);
        EnqueueStaysInOrder(u, IdleClose(path));
      }
  }

  lemma TimersDoNotMatter(s: State, t: State)
    requires Ordered(s) && WaitsForEarlier(s) && t == s.(timers := t.timers)
    ensures Ordered(t) && WaitsForEarlier(t)
  {
    assert StaysQueued(s, t) by { hide Reserved; }
    hide StaysQueued, Ordered, WaitsForEarlier;
    StaysInOrder(s, t);
  }

  // ---------------------------------------------------------------------------
  // Steps that put a session under a path
  // ---------------------------------------------------------------------------

  /** The session `g.sid` goes to `g.target`, or is dropped there. */
  ghost predicate Puts(s: State, g: Straggler, t: State) {
    && t.queue == s.queue && t.phase == s.phase && t.barriers == s.barriers && t.nextTicket == s.nextTicket
    && t.sessions == if Arrives(s, g) then (s.sessions - {g.source})[g.target := g.sid]
                     else s.sessions - {g.source, g.target}
  }

  lemma RekeyedPuts(s: State, g: Straggler)
    ensures Puts(s, g, Rekeyed(s, g.source, g.target, g.sid))
  {
  }

  lemma PuttingMeetsIff(s: State, g: Straggler, t: State)
    requires Puts(s, g, t) && NoneMet(s)
    ensures NoneMet(t) <==> !PutsBefore(s, g)
  {
    hide Meets, Arrives;
    forall p | p in t.sessions
      ensures Meets(t, p, t.sessions[p]) <==> Meets(s, p, t.sessions[p])
    {
      MeetsTheSame(s, t, p, t.sessions[p]);
    }
    if PutsBefore(s, g) {
      assert g.target in t.sessions && t.sessions[g.target] == g.sid;
    }
  }

  lemma StragglerClosesCircleIff(s: State, g: Straggler)
    requires Ordered(s) && WaitsForEarlier(s)
    ensures var t := StragglerRekeyed(s, g);
      Ordered(t) && (WaitsForEarlier(t) <==> !ClosesCircle(s, StragglerMoves(g)))
  {
    var u, t := s.(stragglers := s.stragglers - {g}), StragglerRekeyed(s, g);
    if g in s.stragglers {
      WaitsForEarlierIff(s);
      RekeyedPuts(u, g);
      StaysOrdered(s, t);
      assert Puts(s, g, t) by { hide Rekeyed; }
      hide Puts, Rekeyed, Meets, Arrives, Ordered, NoneMet, WaitsForEarlier, Awaited;
      PuttingMeetsIff(s, g, t);
      WaitsForEarlierIff(t);
      assert t.phase == s.phase && t.barriers == s.barriers by { PutKeepsBarriers(s, g, t); }
    }
  }

  lemma PutKeepsBarriers(s: State, g: Straggler, t: State)
    requires Puts(s, g, t)
    ensures t.queue == s.queue && t.phase == s.phase && t.barriers == s.barriers && t.nextTicket == s.nextTicket
  {
  }

  // ---------------------------------------------------------------------------
  // Steps of the head
  // ---------------------------------------------------------------------------

  lemma MeetsAfterSettling(s: State, path: Path, sid: SessionId)
    requires s.queue != [] && TicketsGrow(s)
    ensures Meets(Settle(s), path, sid) ==> Meets(s, path, sid)
    ensures !s.phase.Queued? && Meets(s, path, sid) ==> Meets(Settle(s), path, sid)
  {
    var t := Settle(s);
    assert forall i :: 0 <= i < |t.queue| ==> Approaches(t, i, path, sid) == Approaches(s, i + 1, path, sid);
    assert !s.phase.Queued? ==> !Approaches(s, 0, path, sid);
    hide Approaches;
    if Meets(t, path, sid) {
      var i, j :| 0 <= i < j < |t.queue| && Approaches(t, i, path, sid) && (sid, t.queue[j].ticket) in t.barriers;
      assert Approaches(s, i + 1, path, sid) && (sid, s.queue[j + 1].ticket) in s.barriers;
    }
    if !s.phase.Queued? && Meets(s, path, sid) {
      var i, j :| 0 <= i < j < |s.queue| && Approaches(s, i, path, sid) && (sid, s.queue[j].ticket) in s.barriers;
      assert s.queue[j].ticket != s.queue[0].ticket;
      assert Approaches(t, i - 1, path, sid) && (sid, t.queue[j - 1].ticket) in t.barriers;
    }
  }

  lemma SettlingStaysOrdered(s: State)
    requires s.queue != [] && TicketsGrow(s) && forall i :: 0 <= i < |s.queue| ==> EagerIsOlder(s.queue[i])
    ensures Ordered(Settle(s))
  {
    var t := Settle(s);
    forall b | b in t.barriers
      ensures InQueue(t, b.1)
    {
      assert InQueue(s, b.1);
      var i :| 0 <= i < |s.queue| && s.queue[i].ticket == b.1;
      assert t.queue[i - 1] == s.queue[i];
    }
    hide EagerIsOlder, InQueue;
  }

  lemma SettlingStaysInOrder(s: State)
    requires s.queue != [] && Ordered(s)
    ensures Ordered(Settle(s))
    ensures NoneMet(s) ==> WaitsForEarlier(Settle(s))
    ensures !s.phase.Queued? ==> (WaitsForEarlier(Settle(s)) <==> NoneMet(s))
  {
    var t := Settle(s);
    SettlingStaysOrdered(s);
    assert t.sessions == s.sessions && Awaited(t.phase) == {};
    forall p | p in s.sessions
      ensures Meets(t, p, s.sessions[p]) ==> Meets(s, p, s.sessions[p])
      ensures !s.phase.Queued? && Meets(s, p, s.sessions[p]) ==> Meets(t, p, s.sessions[p])
    {
      MeetsAfterSettling(s, p, s.sessions[p]);
    }
    hide Meets, Ordered, Settle, WaitsForEarlier;
    WaitsForEarlierIff(t);
  }

  /** The head goes on, perhaps under a barrier of its own, and sessions only leave the map. */
  ghost predicate GoesOn(s: State, t: State) {
    && t.queue == s.queue && t.nextTicket == s.nextTicket && s.queue != [] && !t.phase.Queued?
    && (forall b :: b in t.barriers ==> b in s.barriers || b.1 == s.queue[0].ticket)
    && (forall p :: p in t.sessions ==> p in s.sessions && t.sessions[p] == s.sessions[p])
    && (forall w :: w in Awaited(t.phase) ==> w < t.nextTicket)
  }

  lemma MeetsLess(s: State, t: State, path: Path, sid: SessionId)
    requires TicketsGrow(s) && GoesOn(s, t)
    ensures Meets(t, path, sid) ==> Meets(s, path, sid)
  {
    assert forall i :: 0 <= i < |s.queue| && Approaches(t, i, path, sid) ==> Approaches(s, i, path, sid);
    assert forall j :: 0 < j < |s.queue| ==> s.queue[j].ticket != s.queue[0].ticket;
    hide Approaches, TicketsGrow;
  }

  lemma GoesOnInOrder(s: State, t: State)
    requires Ordered(s) && NoneMet(s) && GoesOn(s, t)
    ensures Ordered(t) && (WaitsForEarlier(t) <==> !Pending(t, Awaited(t.phase)))
  {
    assert InQueue(s, s.queue[0].ticket);
    StaysOrdered(s, t);
    forall p | p in t.sessions
      ensures !Meets(t, p, t.sessions[p])
    {
      MeetsLess(s, t, p, t.sessions[p]);
    }
    hide Meets, Awaited, Ordered, WaitsForEarlier;
    WaitsForEarlierIff(t);
  }

  lemma BarriersAreOld(s: State, b: (SessionId, Ticket))
    requires TicketsGrow(s) && b in s.barriers
    ensures s.queue != [] && s.queue[0].ticket <= b.1 < s.nextTicket
  {
    assert InQueue(s, b.1);
  }

  /** What an operation awaits when it begins was there before it, and is released by now. */
  lemma OperationBeginsInOrder(s: State, order: seq<Path>)
    requires Ordered(s) && WaitsForEarlier(s) && s.queue != [] && s.phase.Queued? && s.queue[0].job.StablePath?
    ensures Ordered(Begin(s, order)) && WaitsForEarlier(Begin(s, order))
  {
    var t := Begin(s, order);
    var StablePath(path, eager) := s.queue[0].job;
    WaitsForEarlierIff(s);
    assert EagerIsOlder(s.queue[0]);
    forall b | b in s.barriers
      ensures s.queue[0].ticket <= b.1 < s.nextTicket
    {
      BarriersAreOld(s, b);
    }
    if path in s.sessions && !(eager.Some? && s.sessions[path] == eager.value.sid) {
      OwnBarrierOnly(s, path, s.sessions[path]);
    }
    hide Meets, Ordered, WaitsForEarlier;
    assert GoesOn(s, t) && !Pending(t, Awaited(t.phase));
    hide Begin, GoesOn, Pending, Awaited;
    GoesOnInOrder(s, t);
  }

  lemma OwnBarrierOnly(s: State, path: Path, sid: SessionId)
    requires TicketsGrow(s) && s.queue != [] && Approaches(s, 0, path, sid) && !Meets(s, path, sid)
    ensures BarriersOn(ReleaseBarrier(s, s.queue[0].ticket), sid) == {}
  {
    hide Approaches;
    forall b | b in s.barriers && b.0 == sid
      ensures b.1 == s.queue[0].ticket
    {
      assert InQueue(s, b.1);
      var j :| 0 <= j < |s.queue| && s.queue[j].ticket == b.1;
      assert b == (sid, s.queue[j].ticket);
    }
  }

  lemma AwaitingIff(s: State, targets: map<Path, SessionId>, rest: seq<Path>)
    requires TicketsGrow(s)
    ensures var t := AwaitOpen(s, targets, rest);
      && (Pending(t, Awaited(t.phase)) <==> exists p :: p in targets && OpensUnderBarrier(s, targets[p]))
      && (forall w :: w in Awaited(t.phase) ==> w < t.nextTicket)
  {
    var t := AwaitOpen(s, targets, rest);
    if exists p :: p in targets && OpensUnderBarrier(s, targets[p]) {
      var p :| p in targets && OpensUnderBarrier(s, targets[p]);
      var b :| b in s.barriers && b.0 == targets[p];
      assert b.1 in t.phase.waits;
    }
    forall w | w in Awaited(t.phase)
      ensures w < t.nextTicket
    {
      var b :| b in s.barriers && b.1 == w;
      BarriersAreOld(s, b);
    }
    hide TicketsGrow;
  }

  /** Opening what the head has picked, perhaps after some sessions have left the map. */
  lemma OpeningClosesCircleIff(s: State, u: State, targets: map<Path, SessionId>, rest: seq<Path>)
    requires Ordered(s) && NoneMet(s) && s.queue != [] && u.queue == s.queue && u.barriers == s.barriers && u.nextTicket == s.nextTicket
    requires forall p :: p in u.sessions ==> p in s.sessions && u.sessions[p] == s.sessions[p]
    ensures var t := AwaitOpen(u, targets, rest);
      Ordered(t) && (WaitsForEarlier(t) <==> !exists p :: p in targets && OpensUnderBarrier(u, targets[p]))
  {
    var t := AwaitOpen(u, targets, rest);
    assert TicketsGrow(u) by {
      assert forall w :: InQueue(s, w) ==> InQueue(u, w);
    }
    AwaitingIff(u, targets, rest);
    assert GoesOn(s, t);
    hide AwaitOpen, GoesOn, Ordered, WaitsForEarlier, NoneMet, TicketsGrow, OpensUnderBarrier, Pending, Awaited;
    GoesOnInOrder(s, t);
  }

  lemma DeletionClosesCircleIff(s: State, u: State, path: Path, rest: seq<Path>)
    requires Ordered(s) && NoneMet(s) && s.queue != [] && u.queue == s.queue && u.barriers == s.barriers && u.nextTicket == s.nextTicket
    requires forall p :: p in u.sessions ==> p in s.sessions && u.sessions[p] == s.sessions[p]
    ensures var t := BeginDelete(u, path, rest);
      Ordered(t) && (WaitsForEarlier(t) <==> !DeletesUnderBarrier(u, path))
  {
    hide Ordered, WaitsForEarlier, NoneMet, OpensUnderBarrier, AwaitOpen;
    if path in u.sessions {
      OpeningClosesCircleIff(s, u, map[path := u.sessions[path]], rest);
      assert path in map[path := u.sessions[path]];
    } else {
      var t := BeginDelete(u, path, rest);
      assert GoesOn(s, t) && !Pending(t, Awaited(t.phase));
      GoesOnInOrder(s, t);
    }
  }

  lemma IdleCloseBeginsInOrder(s: State, order: seq<Path>)
    requires Ordered(s) && WaitsForEarlier(s) && s.queue != [] && s.phase.Queued? && s.queue[0].job.IdleClose?
    ensures Ordered(Begin(s, order)) && WaitsForEarlier(Begin(s, order))
  {
    var t := Begin(s, order);
    var u := CancelTimer(s, s.queue[0].job.path);
    WaitsForEarlierIff(s);
    TimersDoNotMatter(s, u);
    WaitsForEarlierIff(u);
    hide Ordered, WaitsForEarlier, NoneMet, InUse, Settle;
    if t.phase.Closing? {
      assert GoesOn(u, t) && !Pending(t, Awaited(t.phase));
      GoesOnInOrder(u, t);
    } else {
      SettlingStaysInOrder(u);
    }
  }

  lemma DeletionBeginsIff(s: State, order: seq<Path>)
    requires Ordered(s) && WaitsForEarlier(s) && s.queue != [] && s.phase.Queued?
    requires s.queue[0].job.DeleteFile? || s.queue[0].job.DeleteSubtree?
    ensures var t := Begin(s, order);
      Ordered(t) && (WaitsForEarlier(t) <==> !ClosesCircle(s, MutationBegins(order)))
  {
    WaitsForEarlierIff(s);
    hide Ordered, WaitsForEarlier, NoneMet, DeletesUnderBarrier, BeginDelete;
    var job := s.queue[0].job;
    if job.DeleteFile? {
      DeletionClosesCircleIff(s, s, job.path, []);
    } else if order != [] {
      DeletionClosesCircleIff(s, s, order[0], order[1..]);
    } else {
      StandsInOrder(s, Begin(s, order));
    }
  }

  lemma BeginningClosesCircleIff(s: State, order: seq<Path>)
    requires Ordered(s) && WaitsForEarlier(s) && s.queue != [] && s.phase.Queued?
    ensures var t := Begin(s, order);
      Ordered(t) && (WaitsForEarlier(t) <==> !ClosesCircle(s, MutationBegins(order)))
  {
    var job := s.queue[0].job;
    hide Ordered, WaitsForEarlier, NoneMet, DeletesUnderBarrier, BeginDelete;
    if job.StablePath? {
      OperationBeginsInOrder(s, order);
    } else if job.IdleClose? {
      IdleCloseBeginsInOrder(s, order);
    } else if job.DeleteFile? || job.DeleteSubtree? {
      DeletionBeginsIff(s, order);
    } else {
      WaitsForEarlierIff(s);
      StandsInOrder(s, Begin(s, order));
    }
  }

  /** The head goes on and awaits nothing. */
  lemma StandsInOrder(s: State, t: State)
    requires Ordered(s) && NoneMet(s) && s.queue != [] && t == s.(phase := t.phase, live := t.live)
    requires !t.phase.Queued? && Awaited(t.phase) == {}
    ensures Ordered(t) && WaitsForEarlier(t)
  {
    assert GoesOn(s, t) && !Pending(t, Awaited(t.phase));
    hide Ordered, WaitsForEarlier, NoneMet, GoesOn, Pending, Awaited;
    GoesOnInOrder(s, t);
  }

  lemma StatClosesCircleIff(s: State, found: bool)
    requires Ordered(s) && WaitsForEarlier(s) && s.queue != [] && s.phase.Statting?
    ensures var t := AfterStat(s, found);
      Ordered(t) && (WaitsForEarlier(t) <==> !ClosesCircle(s, StatReturns(found)))
  {
    WaitsForEarlierIff(s);
    var t := AfterStat(s, found);
    hide Ordered, WaitsForEarlier, NoneMet, OpensUnderBarrier, AwaitOpen, Below, AtOrUnder, Settle;
    SettlingStaysInOrder(s);
    StandsInOrder(s, s.(phase := DiskOnly));
    if found && ToBeMoved(s) != map[] {
      OpeningClosesCircleIff(s, s, ToBeMoved(s), []);
      assert t == AwaitOpen(s, ToBeMoved(s), []);
    } else {
      assert t == Settle(s) || t == s.(phase := DiskOnly) || t == s;
    }
  }

  lemma OpenedInOrder(s: State, ok: bool)
    requires Ordered(s) && WaitsForEarlier(s) && s.queue != [] && s.phase.Opening?
    ensures Ordered(AfterOpen(s, ok)) && WaitsForEarlier(AfterOpen(s, ok))
  {
    var t := AfterOpen(s, ok);
    var u := s.(live := s.live + (s.phase.targets.Values - s.deleted));
    WaitsForEarlierIff(s);
    hide Ordered, WaitsForEarlier, NoneMet, Settle, Pending;
    if Pending(s, s.phase.waits) {
      assert t == s;
    } else if !ok {
      SettlingStaysInOrder(s);
    } else if t.phase.Queued? {
      LiveDoesNotMatter(s, u);
      SettlingStaysInOrder(u);
      assert t == Settle(u) by { SettlingIsQueued(s, ok); }
    } else {
      StandsInOrder(s, t);
    }
  }

  lemma SettlingIsQueued(s: State, ok: bool)
    requires s.queue != [] && s.phase.Opening? && ok && !Pending(s, s.phase.waits) && AfterOpen(s, ok).phase.Queued?
    ensures AfterOpen(s, ok) == Settle(s.(live := s.live + (s.phase.targets.Values - s.deleted)))
  {
    hide Pending, Settle;
  }

  lemma LiveDoesNotMatter(s: State, t: State)
    requires Ordered(s) && NoneMet(s) && t == s.(live := t.live)
    ensures Ordered(t) && NoneMet(t)
  {
    forall p | p in t.sessions
      ensures !Meets(t, p, t.sessions[p])
    {
      MeetsTheSame(s, t, p, t.sessions[p]);
    }
    StaysOrdered(s, t);
    hide Meets;
  }

  lemma RekeyingMeetsIff(s: State, g: Straggler)
    requires Ordered(s) && WaitsForEarlier(s) && (Awaited(s.phase) == {})
    ensures var u := Rekeyed(s, g.source, g.target, g.sid);
      && Ordered(u) && (NoneMet(u) <==> !PutsBefore(s, g))
      && u.queue == s.queue && u.phase == s.phase
  {
    var u := Rekeyed(s, g.source, g.target, g.sid);
    WaitsForEarlierIff(s);
    RekeyedPuts(s, g);
    hide Rekeyed, Arrives, NoneMet, WaitsForEarlier;
    PutKeepsBarriers(s, g, u);
    hide Puts;
    StaysOrdered(s, u);
    hide Ordered;
    PuttingMeetsIff(s, g, u);
  }

  lemma MoveClosesCircleIff(s: State, path: Path)
    requires Ordered(s) && WaitsForEarlier(s) && s.queue != [] && s.phase.Moving?
    ensures var t := MoveCompleted(s, path);
      Ordered(t) && (WaitsForEarlier(t) <==> !ClosesCircle(s, SessionMoved(path)))
  {
    hide Rekeyed, Ordered, WaitsForEarlier, NoneMet, Destination, Settle, PutsBefore;
    var targets := s.phase.targets;
    if path in targets {
      var g := Straggler(path, Destination(s.queue[0].job, path), targets[path]);
      var u := Rekeyed(s, g.source, g.target, g.sid);
      RekeyingMeetsIff(s, g);
      SettlingStaysInOrder(u);
      PhaseStaysInOrder(u, Moving(targets - {path}));
      assert MoveCompleted(s, path) == if targets - {path} == map[] then Settle(u) else u.(phase := Moving(targets - {path}));
    }
  }

  lemma PhaseStaysInOrder(s: State, phase: Phase)
    requires Ordered(s) && !s.phase.Queued? && !phase.Queued? && Awaited(phase) == {}
    ensures var t := s.(phase := phase); Ordered(t) && (WaitsForEarlier(t) <==> NoneMet(s))
  {
    var t := s.(phase := phase);
    forall p | p in t.sessions
      ensures Meets(t, p, t.sessions[p]) <==> Meets(s, p, t.sessions[p])
    {
      MeetsTheSame(s, t, p, t.sessions[p]);
    }
    StaysOrdered(s, t);
    hide Meets, Ordered, WaitsForEarlier, Awaited;
    WaitsForEarlierIff(t);
  }

  lemma FailedMoveInOrder(s: State, path: Path)
    requires Ordered(s) && WaitsForEarlier(s) && s.queue != [] && s.phase.Moving?
    ensures Ordered(CompletionFailed(s, path)) && WaitsForEarlier(CompletionFailed(s, path))
  {
    if path in s.phase.targets {
      WaitsForEarlierIff(s);
      SettlingStaysInOrder(s);
      assert StaysQueued(Settle(s), CompletionFailed(s, path)) by { hide Reserved; }
      hide Ordered, WaitsForEarlier, NoneMet, Settle, StaysQueued, CompletionFailed;
      StaysInOrder(Settle(s), CompletionFailed(s, path));
    }
  }

  /** The sessions and files that are left when one file is deleted. */
  function Without(s: State, path: Path, target: Option<SessionId>): State {
    var t := if target.Some? then ExternallyDeleted(s, target.value) else s;
    t.(sessions := t.sessions - {path})
  }

  lemma WithoutLeaves(s: State, path: Path, target: Option<SessionId>, next: Path)
    ensures var u := Without(s, path, target);
      && u.queue == s.queue && u.barriers == s.barriers && u.nextTicket == s.nextTicket && u.phase == s.phase
      && (forall p :: p in u.sessions ==> p in s.sessions && u.sessions[p] == s.sessions[p])
      && (DeletesUnderBarrier(u, next) <==>
            next != path && next in s.sessions && target != Some(s.sessions[next]) && DeletesUnderBarrier(s, next))
  {
  }

  lemma DeleteClosesCircleIff(s: State, ok: bool)
    requires Ordered(s) && WaitsForEarlier(s) && s.queue != [] && s.phase.Deleting?
    ensures var t := AfterDelete(s, ok);
      Ordered(t) && (WaitsForEarlier(t) <==> !ClosesCircle(s, DeleteReturns(ok)))
  {
    var Deleting(path, target, rest) := s.phase;
    var u := Without(s, path, target);
    assert ok ==> AfterDelete(s, ok) == if rest == [] then u.(phase := DiskOnly) else BeginDelete(u, rest[0], rest[1..]);
    WaitsForEarlierIff(s);
    WithoutLeaves(s, path, target, if rest == [] then path else rest[0]);
    hide Without, Ordered, WaitsForEarlier, NoneMet, BeginDelete, Settle, DeletesUnderBarrier;
    if ok && rest == [] {
      var t := u.(phase := DiskOnly);
      assert GoesOn(s, t) && !Pending(t, Awaited(t.phase));
      hide AfterDelete;
      GoesOnInOrder(s, t);
    } else if ok {
      hide AfterDelete;
      DeletionClosesCircleIff(s, u, rest[0], rest[1..]);
    } else {
      SettlingStaysInOrder(s);
    }
  }

  lemma PutBackMeetsIff(s: State, path: Path, sid: SessionId)
    requires Ordered(s) && NoneMet(s)
    ensures var u := s.(sessions := s.sessions[path := sid]);
      Ordered(u) && (NoneMet(u) <==> !Meets(s, path, sid))
  {
    var u := s.(sessions := s.sessions[path := sid]);
    assert Ordered(u) by {
      hide InQueue;
      assert forall w :: InQueue(u, w) <==> InQueue(s, w) by { assert u.queue == s.queue; QueueDecides(s, u); }
    }
    hide Ordered;
    forall p | p in u.sessions
      ensures Meets(u, p, u.sessions[p]) <==> Meets(s, p, u.sessions[p])
    {
      MeetsTheSame(s, u, p, u.sessions[p]);
    }
    hide Meets;
    assert u.sessions[path] == sid;
  }

  lemma QueueDecides(s: State, t: State)
    requires t.queue == s.queue
    ensures forall w :: InQueue(t, w) <==> InQueue(s, w)
  {
  }

  lemma IdleCloseReturnsIff(s: State, path: Path, sid: SessionId)
    requires Ordered(s) && WaitsForEarlier(s) && s.queue != [] && !s.phase.Queued?
    ensures Ordered(Settle(s)) && WaitsForEarlier(Settle(s))
    ensures var t := Settle(s.(sessions := s.sessions[path := sid]));
      Ordered(t) && (WaitsForEarlier(t) <==> !Meets(s, path, sid))
  {
    hide Ordered, WaitsForEarlier, NoneMet, Settle, Meets, Awaited, Pending;
    WaitsForEarlierIff(s);
    PutBackMeetsIff(s, path, sid);
    SettlingStaysInOrder(s);
    SettlingStaysInOrder(s.(sessions := s.sessions[path := sid]));
  }

  lemma CloseClosesCircleIff(s: State, ok: bool)
    requires Ordered(s) && WaitsForEarlier(s) && s.queue != [] && s.phase.Closing?
    ensures var t := AfterClose(s, ok);
      Ordered(t) && (WaitsForEarlier(t) <==> !ClosesCircle(s, CloseReturns(ok)))
  {
    hide Ordered, WaitsForEarlier, Settle, Meets;
    if s.queue[0].job.IdleClose? {
      IdleCloseReturnsIff(s, s.queue[0].job.path, s.phase.sid);
    }
  }

  lemma StableInOrder(s: State, ok: bool)
    requires Ordered(s) && WaitsForEarlier(s) && s.queue != [] && s.phase.Stabilizing?
    ensures Ordered(AfterStable(s, ok)) && WaitsForEarlier(AfterStable(s, ok))
  {
    WaitsForEarlierIff(s);
    hide Ordered, WaitsForEarlier, NoneMet, Settle, Pending;
    SettlingStaysInOrder(s);
    StandsInOrder(s, s.(phase := Operating));
  }

  lemma HeadClosesCircleIff(s: State, step: Step)
    requires Ordered(s) && WaitsForEarlier(s) && Possible(s, step) && IsHeadStep(step)
    ensures var t := Next(s, step); Ordered(t) && (WaitsForEarlier(t) <==> !ClosesCircle(s, step))
  {
    WaitsForEarlierIff(s);
    hide Ordered, WaitsForEarlier, NoneMet, Settle, Meets, PutsBefore, OpensUnderBarrier, DeletesUnderBarrier, ToBeMoved;
    hide Begin, AfterStat, AfterOpen, MoveCompleted, AfterDelete, AfterClose, AfterStable, CompletionFailed, IsOrder, Disjoint;
    match step
    case MutationBegins(order) => BeginningClosesCircleIff(s, order);
    case StatReturns(found) => StatClosesCircleIff(s, found);
    case OpensReturn(ok) => OpenedInOrder(s, ok);
    case SessionMoved(path) => MoveClosesCircleIff(s, path);
    case SessionMoveFails(path) => FailedMoveInOrder(s, path);
    case DeleteReturns(ok) => DeleteClosesCircleIff(s, ok);
    case CloseReturns(ok) => CloseClosesCircleIff(s, ok);
    case StableReturns(ok) => StableInOrder(s, ok);
    case _ => SettlingStaysInOrder(s);
  }

  // ---------------------------------------------------------------------------
  // Every step and every run
  // ---------------------------------------------------------------------------

  /** A step makes the waiting circular if and only if it closes a circle, whatever happened before. */
  lemma StepClosesCircleIff(s: State, step: Step)
    requires Ordered(s) && WaitsForEarlier(s) && Possible(s, step)
    ensures var t := Next(s, step); Ordered(t) && (WaitsForEarlier(t) <==> !ClosesCircle(s, step))
  {
    hide Ordered, WaitsForEarlier, StaysQueued, Meets;
    if IsHeadStep(step) {
      HeadClosesCircleIff(s, step);
    } else if IsClientStep(step) {
      ClientStays(s, step);
      StaysInOrder(s, Next(s, step));
    } else if step.StragglerMoves? {
      StragglerClosesCircleIff(s, step.straggler);
    } else if step.StablePathSubmitted? || step.MutationSubmitted? || step.TimerFires? {
      SubmissionClosesCircleIff(s, step);
    } else {
      OutsideStays(s, step);
      StaysInOrder(s, Next(s, step));
    }
  }

  ghost predicate NeverCircular(s: State, steps: seq<Step>)
    requires Happens(s, steps)
    decreases |steps|
  {
    WaitsForEarlier(s) && (steps == [] || NeverCircular(Next(s, steps[0]), steps[1..]))
  }

  ghost predicate ClosesNoCircle(s: State, steps: seq<Step>)
    requires Happens(s, steps)
    decreases |steps|
  {
    steps == [] || (!ClosesCircle(s, steps[0]) && ClosesNoCircle(Next(s, steps[0]), steps[1..]))
  }

  lemma {:induction false} NeverCircularFrom(s: State, steps: seq<Step>)
    requires Ordered(s) && WaitsForEarlier(s) && Happens(s, steps)
    ensures NeverCircular(s, steps) <==> ClosesNoCircle(s, steps)
    decreases |steps|
  {
    hide Ordered, WaitsForEarlier, ClosesCircle, Possible, Next;
    if steps != [] {
      StepClosesCircleIff(s, steps[0]);
      if !ClosesCircle(s, steps[0]) {
        NeverCircularFrom(Next(s, steps[0]), steps[1..]);
      }
    }
  }

  lemma InitialInOrder()
    ensures Ordered(Initial) && WaitsForEarlier(Initial)
  {
  }

  /** No circular waiting, exactly. Through any run that can happen, calm or not, everybody only ever waits for
      earlier mutations if and only if no step of the run closes a circle. */
  lemma NeverCircularIff(steps: seq<Step>)
    requires Happens(Initial, steps)
    ensures NeverCircular(Initial, steps) <==> ClosesNoCircle(Initial, steps)
  {
    InitialInOrder();
    NeverCircularFrom(Initial, steps);
  }

  lemma {:induction false} RunStaysInOrder(s: State, steps: seq<Step>)
    requires Ordered(s) && WaitsForEarlier(s) && Happens(s, steps) && ClosesNoCircle(s, steps)
    ensures Ordered(Run(s, steps)) && WaitsForEarlier(Run(s, steps))
    decreases |steps|
  {
    hide Ordered, WaitsForEarlier, ClosesCircle, Possible, Next;
    if steps != [] {
      StepClosesCircleIff(s, steps[0]);
      RunStaysInOrder(Next(s, steps[0]), steps[1..]);
    }
  }

  /** What a run without such a step ends in: a mutation only waits for earlier ones, or is bound to, so the head
      waits for none, and every barrier belongs to a mutation that is still in the queue. */
  lemma NoCircularWaiting(steps: seq<Step>)
    requires Happens(Initial, steps) && ClosesNoCircle(Initial, steps)
    ensures var s := Run(Initial, steps);
      && WaitsForEarlier(s)
      && (forall b :: b in s.barriers ==> exists i :: 0 <= i < |s.queue| && s.queue[i].ticket == b.1)
      && (s.queue == [] ==> s.barriers == {})
  {
    InitialInOrder();
    RunStaysInOrder(Initial, steps);
    var s := Run(Initial, steps);
    hide WaitsForEarlier;
    forall b | b in s.barriers
      ensures exists i :: 0 <= i < |s.queue| && s.queue[i].ticket == b.1
    {
      assert InQueue(s, b.1);
    }
  }

  /** A session under the path of a stable-path operation carries no barrier of a later mutation. */
  lemma BoundForEarlier(s: State, i: nat, j: nat)
    requires BarriersInv(s) && TicketsInv(s) && i < |s.queue| && j < |s.queue| && BoundToWait(s, i, j)
    ensures j < i
  {
    var path := s.queue[i].job.path;
    assert s.queue[j].ticket in BarriersOn(s, s.sessions[path]) - {s.queue[i].ticket};
    var b :| b in s.barriers && b.0 == s.sessions[path] && b.1 == s.queue[j].ticket;
    var k :| 0 <= k < |s.queue| && Owns(s, k, b);
    assert k == j;
    assert path == s.queue[k].job.path;
    assert i != j && Covers(s.queue[i].job, path);
  }

  lemma InvWaitsForEarlier(s: State)
    requires Inv(s)
    ensures WaitsForEarlier(s)
  {
    forall i, j | 0 <= i < |s.queue| && 0 <= j < |s.queue| && (WaitsFor(s, i, j) || BoundToWait(s, i, j))
      ensures j < i
    {
      if BoundToWait(s, i, j) {
        BoundForEarlier(s, i, j);
      }
    }
  }

  lemma {:induction false} CalmIsNeverCircular(s: State, steps: seq<Step>)
    requires Inv(s) && Happens(s, steps) && Calm(s, steps)
    ensures NeverCircular(s, steps)
    decreases |steps|
  {
    InvWaitsForEarlier(s);
    hide Inv, WaitsForEarlier, Disturbs, Possible, Next;
    if steps != [] {
      StepKeepsInv(s, steps[0]);
      CalmIsNeverCircular(Next(s, steps[0]), steps[1..]);
    }
  }

  /** Where no late completion disturbs anything, no step closes a circle. */
  lemma CalmRunsCloseNoCircle(steps: seq<Step>)
    requires Happens(Initial, steps) && Calm(Initial, steps)
    ensures ClosesNoCircle(Initial, steps)
  {
    InitialInv();
    CalmIsNeverCircular(Initial, steps);
    NeverCircularIff(steps);
  }
}
