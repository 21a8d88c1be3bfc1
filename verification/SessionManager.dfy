/** The session manager's bookkeeping as an object: the code between two awaits, one method each,
    proved against the steps of the protocol. */
module SessionManager {
  import opened Wrappers
  import opened VaultPaths
  import opened SessionProtocol

  ghost predicate OnePathEach(sessions: map<Path, SessionId>) {
    forall p, q :: p in sessions && q in sessions && sessions[p] == sessions[q] ==> p == q
  }

  /** Cancelling the timer before looking for the session changes nothing else about an operation's start. */
  lemma CancelTwice(s: State, path: Path)
    ensures Reserved(CancelTimer(s, path), path) == Reserved(s, path)
    ensures !Reserved(s, path) ==> BeginOperation(CancelTimer(s, path), path) == BeginOperation(s, path)
  {
    assert s.timers - {path} - {path} == s.timers - {path};
    if !Reserved(s, path) {
      assert SessionProtocol.GetSession(CancelTimer(s, path), path) == SessionProtocol.GetSession(s, path);
    }
  }

  class DocumentSessionManager {
    var sessions: map<Path, SessionId>
    var nextSession: SessionId
    var live: set<SessionId>
    var deleted: set<SessionId>
    var failing: set<SessionId>
    var barriers: set<(SessionId, Ticket)>
    var clientCounts: map<SessionId, nat>
    var operationCounts: map<SessionId, nat>
    var leases: map<nat, Hold>
    var operations: map<nat, Hold>
    var nextHold: nat
    var idleCloseTimers: map<Path, bool>
    var queue: seq<Mutation>
    var nextTicket: Ticket
    var phase: Phase
    var stragglers: set<Straggler>

    ghost function State(): State
      reads this
    {
      SessionProtocol.State.State(sessions, nextSession, live, deleted, failing, barriers, clientCounts, operationCounts, leases,
                  operations, nextHold, idleCloseTimers, queue, nextTicket, phase, stragglers)
    }

    constructor ()
      ensures State() == Initial
    {
      sessions, nextSession, live, deleted, failing, barriers := map[], 0, {}, {}, {}, {};
      clientCounts, operationCounts, leases, operations, nextHold := map[], map[], map[], map[], 0;
      idleCloseTimers, queue, nextTicket, phase, stragglers := map[], [], 0, Queued, {};
    }

    method HasPathReservation(path: Path) returns (reserved: bool)
      ensures reserved == Reserved(State(), path)
    {
      reserved := false;
      var i := 0;
      while i < |queue|
        invariant 0 <= i <= |queue|
        invariant reserved == exists k :: 0 <= k < i && Covers(queue[k].job, path)
      {
        if Covers(queue[i].job, path) { reserved := true; }
        i := i + 1;
      }
    }

    method IsSessionInUse(sid: SessionId) returns (inUse: bool)
      ensures inUse == InUse(State(), sid)
    {
      var clients := if sid in clientCounts then clientCounts[sid] else 0;
      var running := if sid in operationCounts then operationCounts[sid] else 0;
      inUse := clients > 0 || running > 0;
    }

    method FindSessionPath(sid: SessionId) returns (found: Option<Path>)
      ensures found.Some? ==> found.value in sessions && sessions[found.value] == sid
      ensures found.None? ==> forall p :: p in sessions ==> sessions[p] != sid
    {
      var entries := sessions.Keys;
      while entries != {}
        invariant entries <= sessions.Keys
        invariant forall p :: p in sessions && p !in entries ==> sessions[p] != sid
        decreases |entries|
      {
        var p :| p in entries;
        if sessions[p] == sid { return Some(p); }
        entries := entries - {p};
      }
      found := None;
    }

    method CancelIdleClose(path: Path)
      modifies this`idleCloseTimers
      ensures State() == CancelTimer(old(State()), path)
    {
      idleCloseTimers := idleCloseTimers - {path};
    }

    method ScheduleIdleClose(path: Path)
      modifies this`idleCloseTimers, this`sessions
      ensures State() == SessionProtocol.ScheduleIdleClose(old(State()), path)
    {
      if path !in sessions { return; }
      var sid := sessions[path];
      var inUse := IsSessionInUse(sid);
      if inUse { return; }
      CancelIdleClose(path);
      if sid !in live {
        sessions := sessions - {path};
        return;
      }
      idleCloseTimers := idleCloseTimers[path := true];
    }

    method RekeySession(source: Path, target: Path, sid: SessionId)
      modifies this`idleCloseTimers, this`sessions
      ensures State() == Rekeyed(old(State()), source, target, sid)
    {
      CancelIdleClose(source);
      CancelIdleClose(target);
      sessions := sessions - {source};
      sessions := sessions[target := sid];
      assert idleCloseTimers == old(idleCloseTimers) - {source, target};
      var inUse := IsSessionInUse(sid);
      if !inUse {
        ScheduleIdleClose(target);
      }
    }

    method GetSession(path: Path) returns (sid: SessionId)
      modifies this`idleCloseTimers, this`sessions, this`nextSession
      ensures (State(), sid) == SessionProtocol.GetSession(old(State()), path)
    {
      CancelIdleClose(path);
      if path in sessions { return sessions[path]; }
      sid := nextSession;
      nextSession := nextSession + 1;
      sessions := sessions[path := sid];
    }

    /** `None` sends the caller back to waiting for the reservations on the path. */
    method TryAttachClient(path: Path) returns (lease: Option<nat>)
      modifies this
      ensures State() == Attach(old(State()), path)
      ensures lease.None? <==> Reserved(old(State()), path)
      ensures lease.Some? ==> lease.value == old(nextHold)
    {
      var reserved := HasPathReservation(path);
      if reserved { return None; }
      var sid := GetSession(path);
      clientCounts := clientCounts[sid := (if sid in clientCounts then clientCounts[sid] else 0) + 1];
      leases := leases[nextHold := Hold(sid, path)];
      nextHold := nextHold + 1;
      lease := Some(nextHold - 1);
    }

    method ReleaseClient(lease: nat)
      requires OnePathEach(sessions)
      modifies this
      ensures State() == Release(old(State()), lease)
    {
      if lease !in leases { return; }
      var sid, path := leases[lease].sid, leases[lease].path;
      leases := leases - {lease};
      var current := FindSessionPath(sid);
      var currentPath := if current.Some? then current.value else path;
      var count := if sid in clientCounts then clientCounts[sid] else 1;
      if count > 1 {
        clientCounts := clientCounts[sid := count - 1];
        return;
      }
      clientCounts := clientCounts - {sid};
      assert PathOf(State(), sid, path) == currentPath;
      var inUse := IsSessionInUse(sid);
      if !inUse {
        ScheduleIdleClose(currentPath);
      }
    }

    method StartOperation(path: Path) returns (operation: nat)
      requires !Reserved(State(), path)
      modifies this
      ensures State() == BeginOperation(old(State()), path)
    {
      var sid := GetSession(path);
      operationCounts := operationCounts[sid := (if sid in operationCounts then operationCounts[sid] else 0) + 1];
      operations := operations[nextHold := Hold(sid, path)];
      operation := nextHold;
      nextHold := nextHold + 1;
    }

    method TryBeginOperation(path: Path) returns (operation: Option<nat>)
      modifies this
      ensures State() == BeginOperation(old(State()), path)
      ensures operation.None? <==> Reserved(old(State()), path)
    {
      CancelIdleClose(path);
      CancelTwice(old(State()), path);
      var reserved := HasPathReservation(path);
      if reserved { return None; }
      var started := StartOperation(path);
      operation := Some(started);
    }

    method EndOperation(operation: nat)
      requires OnePathEach(sessions)
      modifies this
      ensures State() == SessionProtocol.EndOperation(old(State()), operation)
    {
      if operation !in operations { return; }
      var sid, path := operations[operation].sid, operations[operation].path;
      operations := operations - {operation};
      var count := if sid in operationCounts then operationCounts[sid] else 1;
      if count > 1 {
        operationCounts := operationCounts[sid := count - 1];
      } else {
        operationCounts := operationCounts - {sid};
      }
      var current := FindSessionPath(sid);
      var currentPath := if current.Some? then current.value else path;
      assert PathOf(State(), sid, path) == currentPath;
      var inUse := IsSessionInUse(sid);
      if !inUse {
        ScheduleIdleClose(currentPath);
      }
    }

    /** Reserving a stable path: the barrier goes in at once only on a path nobody has reserved. */
    method ReserveStablePath(path: Path)
      modifies this
      ensures State() == SubmitStablePath(old(State()), path)
    {
      var alreadyReserved := HasPathReservation(path);
      var eager: Option<Eager> := None;
      if !alreadyReserved && path in sessions {
        var sid := sessions[path];
        eager := Some(Eager(sid, set b | b in barriers && b.0 == sid :: b.1));
        barriers := barriers + {(sid, nextTicket)};
      }
      queue := queue + [Mutation(nextTicket, StablePath(path, eager))];
      nextTicket := nextTicket + 1;
    }

    method TimerFires(path: Path)
      modifies this
      ensures State() == FireTimer(old(State()), path)
    {
      if path !in idleCloseTimers || !idleCloseTimers[path] { return; }
      idleCloseTimers := idleCloseTimers[path := false];
      queue := queue + [Mutation(nextTicket, IdleClose(path))];
      nextTicket := nextTicket + 1;
    }

    method SettleHead()
      requires queue != []
      modifies this`queue, this`phase, this`barriers
      ensures State() == Settle(old(State()))
    {
      barriers := set b | b in barriers && b.1 != queue[0].ticket;
      queue := queue[1..];
      phase := Queued;
    }

    /** `closeSessionUnlocked` up to its await: the session leaves the map before it is closed. */
    method BeginIdleClose()
      requires queue != [] && queue[0].job.IdleClose? && phase.Queued?
      modifies this
      ensures State() == Begin(old(State()), [])
    {
      var path := queue[0].job.path;
      CancelIdleClose(path);
      if path !in sessions {
        SettleHead();
        return;
      }
      var sid := sessions[path];
      var inUse := IsSessionInUse(sid);
      if inUse || sid in failing {
        SettleHead();
        return;
      }
      sessions := sessions - {path};
      phase := Closing(sid);
    }

    method FinishIdleClose(ok: bool)
      requires queue != [] && queue[0].job.IdleClose? && phase.Closing?
      modifies this
      ensures State() == AfterClose(old(State()), ok)
    {
      if !ok && phase.sid in failing {
        sessions := sessions[queue[0].job.path := phase.sid];
      }
      SettleHead();
    }

    /** The part of `moveSession` after the source was inspected on disk. */
    method ContinueMove(found: bool)
      requires queue != [] && queue[0].job.MoveFile? && phase.Statting?
      modifies this
      ensures State() == AfterStat(old(State()), found)
    {
      var source, target, captured := queue[0].job.source, queue[0].job.target, phase.captured;
      if !found {
        phase := DiskOnly;
        return;
      }
      if target in sessions && (source !in captured || sessions[target] != captured[source]) {
        SettleHead();
        return;
      }
      if captured == map[] {
        phase := DiskOnly;
        return;
      }
      phase := Opening(captured, set p, b | p in captured && b in barriers && b.0 == captured[p] && b.0 !in live :: b.1, []);
    }

    /** A session's completed move, followed by its rekeying. */
    method CompleteMove(path: Path)
      requires queue != [] && phase.Moving? && path in phase.targets
      modifies this
      ensures State() == MoveCompleted(old(State()), path)
    {
      var targets := phase.targets;
      RekeySession(path, Destination(queue[0].job, path), targets[path]);
      if targets - {path} == map[] {
        SettleHead();
      } else {
        phase := Moving(targets - {path});
      }
    }
  }
}
