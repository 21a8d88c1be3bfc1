/** The document session manager as a protocol: path reservations, the serial queue of structure
    mutations, reference counts, idle closes and stable-open barriers.

    One step is the code between two awaits. Microtask chains that no other work can interrupt (a
    mutation's end, the release of its reservation and the start of the next one; a session's completed
    move and its rekeying) are one step. A mutation's reservation is made in the same tick as the
    mutation is queued and dropped when it settles, so the reservations are those of the queue. */
module SessionProtocol {
  import opened Wrappers
  import opened VaultPaths

  type SessionId = nat
  type Ticket = nat

  /** `eager` is the barrier installed when a stable-path operation was reserved: on which session, and
      the unreleased barriers that were already on it. */
  datatype Eager = Eager(sid: SessionId, waits: set<Ticket>)

  datatype Job =
    | StablePath(path: Path, eager: Option<Eager>)
    | MoveFile(source: Path, target: Path)
    | MoveSubtree(source: Path, target: Path)
    | DeleteFile(path: Path)
    | DeleteSubtree(folder: Path)
    | IdleClose(path: Path)

  predicate AtOrUnder(folder: Path, path: Path) { folder <= path }

  /** The paths a mutation reserves while it is queued or running. */
  predicate Covers(job: Job, path: Path) {
    match job
    case StablePath(p, _) => path == p
    case MoveFile(source, target) => path == source || path == target
    case MoveSubtree(source, target) => AtOrUnder(source, path) || AtOrUnder(target, path)
    case DeleteFile(p) => path == p
    case DeleteSubtree(folder) => AtOrUnder(folder, path)
    case IdleClose(p) => path == p
  }

  datatype Mutation = Mutation(ticket: Ticket, job: Job)

  /** Where the mutation at the head of the queue is suspended. */
  datatype Phase =
    | Queued
    | Statting(captured: map<Path, SessionId>)
    | Opening(targets: map<Path, SessionId>, waits: set<Ticket>, rest: seq<Path>)
    | Moving(targets: map<Path, SessionId>)
    | Deleting(path: Path, target: Option<SessionId>, rest: seq<Path>)
    | Closing(sid: SessionId)
    | Stabilizing(sid: SessionId, waits: set<Ticket>)
    | Operating
    | DiskOnly

  /** A client lease or a running operation: the session it holds and the path it asked for. */
  datatype Hold = Hold(sid: SessionId, path: Path)

  /** A session's completion of a subtree move that is still running after the mutation has failed. */
  datatype Straggler = Straggler(source: Path, target: Path, sid: SessionId)

  datatype State = State(
    sessions: map<Path, SessionId>,
    nextSession: SessionId,
    live: set<SessionId>,
    deleted: set<SessionId>,
    failing: set<SessionId>,
    barriers: set<(SessionId, Ticket)>,
    clientCounts: map<SessionId, nat>,
    operationCounts: map<SessionId, nat>,
    leases: map<nat, Hold>,
    operations: map<nat, Hold>,
    nextHold: nat,
    timers: map<Path, bool>,
    queue: seq<Mutation>,
    nextTicket: Ticket,
    phase: Phase,
    stragglers: set<Straggler>)

  const Initial := State(map[], 0, {}, {}, {}, {}, map[], map[], map[], map[], 0, map[], [], 0, Queued, {})

  // ---------------------------------------------------------------------------
  // Lookups and shared helpers
  // ---------------------------------------------------------------------------

  predicate Reserved(s: State, path: Path) {
    exists i :: 0 <= i < |s.queue| && Covers(s.queue[i].job, path)
  }

  predicate InUse(s: State, sid: SessionId) {
    (sid in s.clientCounts && s.clientCounts[sid] > 0) || (sid in s.operationCounts && s.operationCounts[sid] > 0)
  }

  /** The unreleased barriers on a session, which is what its `stableOpenTail` still waits for. */
  function BarriersOn(s: State, sid: SessionId): set<Ticket> {
    set b | b in s.barriers && b.0 == sid :: b.1
  }

  predicate Pending(s: State, waits: set<Ticket>) {
    exists b :: b in s.barriers && b.1 in waits
  }

  function CancelTimer(s: State, path: Path): State { s.(timers := s.timers - {path}) }

  function ScheduleIdleClose(s: State, path: Path): State {
    if path !in s.sessions || InUse(s, s.sessions[path]) then s
    else if s.sessions[path] !in s.live then CancelTimer(s, path).(sessions := s.sessions - {path})
    else s.(timers := s.timers[path := true])
  }

  ghost function PathOf(s: State, sid: SessionId, fallback: Path): Path {
    if p :| p in s.sessions && s.sessions[p] == sid then p else fallback
  }

  function Rekeyed(s: State, source: Path, target: Path, sid: SessionId): State {
    var moved := s.(timers := s.timers - {source, target}, sessions := (s.sessions - {source})[target := sid]);
    if InUse(moved, sid) then moved else ScheduleIdleClose(moved, target)
  }

  /** The session under `path`, created if there is none. */
  function GetSession(s: State, path: Path): (State, SessionId) {
    if path in s.sessions then (CancelTimer(s, path), s.sessions[path])
    else (CancelTimer(s, path).(sessions := s.sessions[path := s.nextSession], nextSession := s.nextSession + 1),
          s.nextSession)
  }

  function Increment(counts: map<SessionId, nat>, sid: SessionId): map<SessionId, nat> {
    counts[sid := (if sid in counts then counts[sid] else 0) + 1]
  }

  function Decrement(counts: map<SessionId, nat>, sid: SessionId): map<SessionId, nat> {
    if sid in counts && counts[sid] > 1 then counts[sid := counts[sid] - 1] else counts - {sid}
  }

  // ---------------------------------------------------------------------------
  // Clients, operations, timers and the outside world
  // ---------------------------------------------------------------------------

  /** A reserved path makes the caller wait and try again: nothing is handed out. */
  function Attach(s: State, path: Path): State {
    if Reserved(s, path) then s else
      var (t, sid) := GetSession(s, path);
      t.(clientCounts := Increment(t.clientCounts, sid),
         leases := t.leases[t.nextHold := Hold(sid, path)], nextHold := t.nextHold + 1)
  }

  ghost function Release(s: State, lease: nat): State {
    if lease !in s.leases then s else
      var hold := s.leases[lease];
      var t := s.(leases := s.leases - {lease}, clientCounts := Decrement(s.clientCounts, hold.sid));
      if InUse(t, hold.sid) then t else ScheduleIdleClose(t, PathOf(t, hold.sid, hold.path))
  }

  function BeginOperation(s: State, path: Path): State {
    if Reserved(s, path) then CancelTimer(s, path) else
      var (t, sid) := GetSession(s, path);
      t.(operationCounts := Increment(t.operationCounts, sid),
         operations := t.operations[t.nextHold := Hold(sid, path)], nextHold := t.nextHold + 1)
  }

  ghost function EndOperation(s: State, operation: nat): State {
    if operation !in s.operations then s else
      var hold := s.operations[operation];
      var t := s.(operations := s.operations - {operation},
                  operationCounts := Decrement(s.operationCounts, hold.sid));
      if InUse(t, hold.sid) then t else ScheduleIdleClose(t, PathOf(t, hold.sid, hold.path))
  }

  function Enqueue(s: State, job: Job): State {
    s.(queue := s.queue + [Mutation(s.nextTicket, job)], nextTicket := s.nextTicket + 1)
  }

  /** A barrier is installed at once only when no earlier reservation covers the path. */
  function SubmitStablePath(s: State, path: Path): State {
    if !Reserved(s, path) && path in s.sessions then
      var sid := s.sessions[path];
      var t := Enqueue(s, StablePath(path, Some(Eager(sid, BarriersOn(s, sid)))));
      t.(barriers := s.barriers + {(sid, s.nextTicket)})
    else Enqueue(s, StablePath(path, None))
  }

  function FireTimer(s: State, path: Path): State {
    if path in s.timers && s.timers[path] then Enqueue(s.(timers := s.timers[path := false]), IdleClose(path)) else s
  }

  /** A session that finds its file gone reports `doc-deleted` and leaves the map. */
  function ExternallyDeleted(s: State, sid: SessionId): State {
    s.(deleted := s.deleted + {sid}, live := s.live - {sid},
       sessions := map p | p in s.sessions && s.sessions[p] != sid :: s.sessions[p])
  }

  function StragglerRekeyed(s: State, g: Straggler): State {
    if g !in s.stragglers then s
    else Rekeyed(s.(stragglers := s.stragglers - {g}), g.source, g.target, g.sid)
  }

  // ---------------------------------------------------------------------------
  // The mutation at the head of the queue
  // ---------------------------------------------------------------------------

  function ReleaseBarrier(s: State, ticket: Ticket): State {
    s.(barriers := set b | b in s.barriers && b.1 != ticket)
  }

  /** The mutation settles: its reservation and barrier are gone and the next mutation may start. */
  function Settle(s: State): State
    requires s.queue != []
  {
    ReleaseBarrier(s, s.queue[0].ticket).(queue := s.queue[1..], phase := Queued)
  }

  function Lookup(s: State, path: Path): map<Path, SessionId> {
    if path in s.sessions then map[path := s.sessions[path]] else map[]
  }

  /** Every `open()` of a path transition returns at once on an open session, and otherwise waits for the
      barriers on its session at the time of the call. */
  function AwaitOpen(s: State, targets: map<Path, SessionId>, rest: seq<Path>): State {
    s.(phase := Opening(targets, set p, b | p in targets && b in s.barriers && b.0 == targets[p] && b.0 !in s.live :: b.1, rest))
  }

  function BeginDelete(s: State, path: Path, rest: seq<Path>): State {
    if path in s.sessions then AwaitOpen(s, map[path := s.sessions[path]], rest)
    else s.(phase := Deleting(path, None, rest))
  }

  function Begin(s: State, order: seq<Path>): State
    requires s.queue != []
  {
    var ticket := s.queue[0].ticket;
    match s.queue[0].job
    case StablePath(path, eager) =>
      if eager.Some? && path in s.sessions && s.sessions[path] == eager.value.sid then
        s.(phase := Stabilizing(eager.value.sid, eager.value.waits))
      else
        var t := ReleaseBarrier(s, ticket);
        if path !in t.sessions then t.(phase := Operating)
        else
          var sid := t.sessions[path];
          t.(phase := Stabilizing(sid, BarriersOn(t, sid)), barriers := t.barriers + {(sid, ticket)})
    case MoveFile(source, _) => s.(phase := Statting(Lookup(s, source)))
    case MoveSubtree(_, _) => s.(phase := Statting(map[]))
    case DeleteFile(path) => BeginDelete(s, path, [])
    case DeleteSubtree(_) =>
      if order == [] then s.(phase := DiskOnly) else BeginDelete(s, order[0], order[1..])
    case IdleClose(path) =>
      var t := CancelTimer(s, path);
      if path !in t.sessions || InUse(t, t.sessions[path]) || t.sessions[path] in t.failing then Settle(t)
      else t.(sessions := t.sessions - {path}, phase := Closing(t.sessions[path]))
  }

  /** The sessions strictly below a folder, which is what `startsWith(folder + '/')` selects. */
  function Below(s: State, folder: Path): map<Path, SessionId> {
    map p | p in s.sessions && folder < p :: s.sessions[p]
  }

  function AfterStat(s: State, found: bool): State
    requires s.queue != [] && s.phase.Statting?
  {
    match s.queue[0].job
    case MoveFile(source, target) =>
      var captured := s.phase.captured;
      if !found then s.(phase := DiskOnly)
      else if target in s.sessions && (source !in captured || s.sessions[target] != captured[source]) then Settle(s)
      else if captured == map[] then s.(phase := DiskOnly)
      else AwaitOpen(s, captured, [])
    case MoveSubtree(source, target) =>
      var matches := Below(s, source);
      if !found then s.(phase := DiskOnly)
      else if exists p :: p in s.sessions && AtOrUnder(target, p) && s.sessions[p] !in matches.Values then Settle(s)
      else if matches == map[] then s.(phase := DiskOnly)
      else AwaitOpen(s, matches, [])
    case _ => s
  }

  /** A delete opens one session at a time. */
  ghost function AnyKey(targets: map<Path, SessionId>): (path: Path)
    requires targets != map[]
    ensures path in targets
  {
    var path :| path in targets; path
  }

  /** The awaited opens and flushes are over; `open()` could be refused, which fails the mutation. */
  ghost function AfterOpen(s: State, ok: bool): State
    requires s.queue != [] && s.phase.Opening?
  {
    var Opening(targets, waits, rest) := s.phase;
    if Pending(s, waits) then s
    else if !ok then Settle(s)
    else
      var t := s.(live := s.live + (targets.Values - s.deleted));
      match s.queue[0].job
      case MoveFile(_, _) => t.(phase := Moving(targets))
      case MoveSubtree(_, _) => t.(phase := Moving(targets))
      case _ =>
        if targets == map[] then Settle(t)
        else t.(phase := Deleting(AnyKey(targets), Some(targets[AnyKey(targets)]), rest))
  }

  function Destination(job: Job, path: Path): Path {
    match job
    case MoveFile(_, target) => target
    case MoveSubtree(source, target) => if source <= path then target + path[|source|..] else path
    case _ => path
  }

  /** The disk move failed, so every completion fails before anything was rebound. */
  function MoveFailed(s: State): State
    requires s.queue != [] && s.phase.Moving?
  {
    Settle(s)
  }

  function MoveCompleted(s: State, path: Path): State
    requires s.queue != [] && s.phase.Moving?
  {
    var targets := s.phase.targets;
    if path !in targets then s else
      var t := Rekeyed(s, path, Destination(s.queue[0].job, path), targets[path]);
      if targets - {path} == map[] then Settle(t) else t.(phase := Moving(targets - {path}))
  }

  /** One completion fails after the disk move. `Promise.all` rejects at once, so the mutation settles
      while the other completions go on. */
  function CompletionFailed(s: State, path: Path): State
    requires s.queue != [] && s.phase.Moving?
  {
    var targets := s.phase.targets;
    if path !in targets then s else
      var job := s.queue[0].job;
      Settle(s).(stragglers := s.stragglers +
        (set p | p in targets && p != path :: Straggler(p, Destination(job, p), targets[p])))
  }

  function AfterDelete(s: State, ok: bool): State
    requires s.queue != [] && s.phase.Deleting?
  {
    var Deleting(path, target, rest) := s.phase;
    if !ok then Settle(s) else
      var t := if target.Some? then ExternallyDeleted(s, target.value) else s;
      var u := t.(sessions := t.sessions - {path});
      if rest == [] then u.(phase := DiskOnly) else BeginDelete(u, rest[0], rest[1..])
  }

  function AfterClose(s: State, ok: bool): State
    requires s.queue != [] && s.phase.Closing?
  {
    var sid := s.phase.sid;
    match s.queue[0].job
    case IdleClose(path) =>
      if !ok && sid in s.failing then Settle(s.(sessions := s.sessions[path := sid])) else Settle(s)
    case _ => s
  }

  function AfterStable(s: State, ok: bool): State
    requires s.queue != [] && s.phase.Stabilizing?
  {
    if Pending(s, s.phase.waits) then s else if ok then s.(phase := Operating) else Settle(s)
  }

  // ---------------------------------------------------------------------------
  // Steps and runs
  // ---------------------------------------------------------------------------

  datatype Step =
    | Touch(path: Path)
    | ClientAttaches(path: Path)
    | ClientReleases(lease: nat)
    | OperationBegins(path: Path)
    | OperationEnds(operation: nat)
    | SessionOpens(sid: SessionId)
    | SessionDeleted(sid: SessionId)
    | PersistFails(sid: SessionId)
    | PersistRecovers(sid: SessionId)
    | TimerFires(path: Path)
    | StablePathSubmitted(path: Path)
    | MutationSubmitted(job: Job)
    | MutationBegins(order: seq<Path>)
    | StatReturns(found: bool)
    | OpensReturn(ok: bool)
    | DiskMoveFails
    | SessionMoved(path: Path)
    | SessionMoveFails(path: Path)
    | DeleteReturns(ok: bool)
    | CloseReturns(ok: bool)
    | StableReturns(ok: bool)
    | OperationReturns
    | DiskReturns
    | StragglerMoves(straggler: Straggler)
    | StragglerFails(straggler: Straggler)

  /** The keys of the sessions below the folder, in the order in which they are deleted. */
  ghost predicate IsOrder(s: State, order: seq<Path>) {
    s.queue != [] && s.queue[0].job.DeleteSubtree? ==>
      && (forall p :: p in order <==> p in s.sessions && s.queue[0].job.folder < p)
      && (forall i, j :: 0 <= i < j < |order| ==> order[i] != order[j])
  }

  /** What the environment may do in a state. A disk move succeeds only between folders of which
      neither contains the other. */
  ghost predicate Possible(s: State, step: Step) {
    match step
    case SessionOpens(sid) => sid < s.nextSession && sid !in s.deleted
    case SessionDeleted(sid) => sid < s.nextSession
    case MutationSubmitted(job) => job.MoveFile? || job.MoveSubtree? || job.DeleteFile? || job.DeleteSubtree?
    case MutationBegins(order) => s.queue != [] && s.phase.Queued? && IsOrder(s, order)
    case StatReturns(_) => s.queue != [] && s.phase.Statting?
    case OpensReturn(_) => s.queue != [] && s.phase.Opening?
    case DiskMoveFails => s.queue != [] && s.phase.Moving?
    case SessionMoved(_) => s.queue != [] && s.phase.Moving? && Disjoint(s.queue[0].job)
    case SessionMoveFails(_) => s.queue != [] && s.phase.Moving? && Disjoint(s.queue[0].job)
    case DeleteReturns(_) => s.queue != [] && s.phase.Deleting?
    case CloseReturns(_) => s.queue != [] && s.phase.Closing?
    case StableReturns(_) => s.queue != [] && s.phase.Stabilizing?
    case OperationReturns => s.queue != [] && s.phase.Operating?
    case DiskReturns => s.queue != [] && s.phase.DiskOnly?
    case _ => true
  }

  predicate Disjoint(job: Job) {
    job.MoveSubtree? ==> !(job.source < job.target) && !(job.target < job.source)
  }

  ghost function Next(s: State, step: Step): State
    requires Possible(s, step)
  {
    match step
    case Touch(path) => if Reserved(s, path) then s else GetSession(s, path).0
    case ClientAttaches(path) => Attach(s, path)
    case ClientReleases(lease) => Release(s, lease)
    case OperationBegins(path) => BeginOperation(s, path)
    case OperationEnds(operation) => EndOperation(s, operation)
    case SessionOpens(sid) => s.(live := s.live + {sid})
    case SessionDeleted(sid) => ExternallyDeleted(s, sid)
    case PersistFails(sid) => s.(failing := s.failing + {sid})
    case PersistRecovers(sid) => s.(failing := s.failing - {sid})
    case TimerFires(path) => FireTimer(s, path)
    case StablePathSubmitted(path) => SubmitStablePath(s, path)
    case MutationSubmitted(job) => Enqueue(s, job)
    case MutationBegins(order) => Begin(s, order)
    case StatReturns(found) => AfterStat(s, found)
    case OpensReturn(ok) => AfterOpen(s, ok)
    case DiskMoveFails => MoveFailed(s)
    case SessionMoved(path) => MoveCompleted(s, path)
    case SessionMoveFails(path) => CompletionFailed(s, path)
    case DeleteReturns(ok) => AfterDelete(s, ok)
    case CloseReturns(ok) => AfterClose(s, ok)
    case StableReturns(ok) => AfterStable(s, ok)
    case OperationReturns => Settle(s)
    case DiskReturns => Settle(s)
    case StragglerMoves(g) => StragglerRekeyed(s, g)
    case StragglerFails(g) => s.(stragglers := s.stragglers - {g})
  }
}
