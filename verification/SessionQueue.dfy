/** The queue of structure mutations against the steps: what is submitted is queued, in order, and leaves only at the
    head. */
module SessionQueue {
  import opened Wrappers
  import opened VaultPaths
  import opened SessionProtocol
  import opened SessionMutations
  import opened SessionGuarantees
  import opened SessionOwnership
  import opened SessionBooks

  /** A stable-path operation without its reservation. */
  function Asked(job: Job): Job { if job.StablePath? then StablePath(job.path, None) else job }

  /** What a step submits: a mutation, or the idle close of a path whose timer is set. */
  function SubmittedAt(s: State, step: Step): seq<Job> {
    match step
    case MutationSubmitted(job) => [job]
    case StablePathSubmitted(path) => [StablePath(path, None)]
    case TimerFires(path) => if path in s.timers && s.timers[path] then [IdleClose(path)] else []
    case _ => []
  }

  ghost function Submitted(s: State, steps: seq<Step>): seq<Job>
    requires Happens(s, steps)
    decreases |steps|
  {
    if steps == [] then [] else SubmittedAt(s, steps[0]) + Submitted(Next(s, steps[0]), steps[1..])
  }

  // ---------------------------------------------------------------------------
  // One step
  // ---------------------------------------------------------------------------

  /** The queue after a step: one more at its end, or perhaps one less at its head. */
  ghost predicate QueueMoves(s: State, step: Step, t: State) {
    var submitted := SubmittedAt(s, step);
    if submitted == [] then Drops(s, t) && (t.queue != s.queue ==> IsHeadStep(step))
    else
      && t.nextTicket == s.nextTicket + 1 && |t.queue| == |s.queue| + 1 && t.queue[..|s.queue|] == s.queue
      && t.queue[|s.queue|].ticket == s.nextTicket && Asked(t.queue[|s.queue|].job) == submitted[0]
  }

  ghost predicate Drops(s: State, t: State) {
    t.nextTicket == s.nextTicket && (t.queue == s.queue || (s.queue != [] && t.queue == s.queue[1..]))
  }

  lemma SettlingDrops(s: State)
    requires s.queue != []
    ensures Drops(s, Settle(s)) && Settle(s).queue == s.queue[1..] && Settle(s).phase == Queued
  {
  }

  lemma AwaitingStays(s: State, targets: map<Path, SessionId>, rest: seq<Path>)
    ensures var t := AwaitOpen(s, targets, rest); t.queue == s.queue && t.nextTicket == s.nextTicket
  {
    var t := AwaitOpen(s, targets, rest);
    assert t == s.(phase := t.phase);
    hide AwaitOpen;
  }

  lemma BeginDeleteStays(s: State, path: Path, rest: seq<Path>)
    ensures var t := BeginDelete(s, path, rest); t.queue == s.queue && t.nextTicket == s.nextTicket
  {
    hide AwaitOpen;
    if path in s.sessions {
      AwaitingStays(s, map[path := s.sessions[path]], rest);
    }
  }

  lemma BeginningDrops(s: State, order: seq<Path>)
    requires s.queue != [] && s.phase.Queued?
    ensures Drops(s, Begin(s, order))
  {
    var job := s.queue[0].job;
    if job.StablePath? {
      StablePathBegins(s, order);
      hide Begin;
    } else if job.IdleClose? {
      SettlingDrops(CancelTimer(s, job.path));
      hide Settle, InUse;
    } else {
      hide BeginDelete;
      BeginDeleteStays(s, if job.DeleteFile? then job.path else if order == [] then [] else order[0], if order == [] || job.DeleteFile? then [] else order[1..]);
    }
  }

  lemma OpeningDrops(s: State, ok: bool)
    requires s.queue != [] && s.phase.Opening?
    ensures Drops(s, AfterOpen(s, ok))
  {
    var u := s.(live := s.live + (s.phase.targets.Values - s.deleted));
    OpenGoes(s, ok);
    SettlingDrops(s);
    SettlingDrops(u);
    hide AfterOpen, Settle;
  }

  lemma MovingDrops(s: State, path: Path)
    requires s.queue != [] && s.phase.Moving?
    ensures Drops(s, MoveCompleted(s, path)) && Drops(s, CompletionFailed(s, path))
  {
    SettlingDrops(s);
    if path in s.phase.targets {
      var target, sid := Destination(s.queue[0].job, path), s.phase.targets[path];
      RekeyMovesIn(s, path, target, sid);
      SettlingDrops(Rekeyed(s, path, target, sid));
    }
    hide Settle, Rekeyed, Destination;
  }

  lemma DeletionDrops(s: State, ok: bool)
    requires s.queue != [] && s.phase.Deleting?
    ensures Drops(s, AfterDelete(s, ok))
  {
    var Deleting(path, target, rest) := s.phase;
    var t := if target.Some? then ExternallyDeleted(s, target.value) else s;
    var u := t.(sessions := t.sessions - {path});
    SettlingDrops(s);
    hide Settle, BeginDelete;
    BeginDeleteStays(u, if rest == [] then [] else rest[0], if rest == [] then [] else rest[1..]);
  }

  lemma ClosingDrops(s: State, ok: bool)
    requires s.queue != [] && s.phase.Closing?
    ensures Drops(s, AfterClose(s, ok))
  {
    SettlingDrops(s);
    if s.queue[0].job.IdleClose? {
      SettlingDrops(s.(sessions := s.sessions[s.queue[0].job.path := s.phase.sid]));
    }
    hide Settle;
  }

  lemma HeadDrops(s: State, step: Step)
    requires Possible(s, step) && IsHeadStep(step)
    ensures Drops(s, Next(s, step))
  {
    hide Begin, AfterStat, AfterOpen, MoveCompleted, AfterDelete, AfterClose, CompletionFailed, Settle, Pending, IsOrder, Disjoint;
    SettlingDrops(s);
    match step
    case MutationBegins(order) => BeginningDrops(s, order);
    case StatReturns(found) => StatGoes(s, found);
    case OpensReturn(ok) => OpeningDrops(s, ok);
    case SessionMoved(path) => MovingDrops(s, path);
    case SessionMoveFails(path) => MovingDrops(s, path);
    case DeleteReturns(ok) => DeletionDrops(s, ok);
    case CloseReturns(ok) => ClosingDrops(s, ok);
    case _ =>
  }

  lemma ClientsStay(s: State, step: Step)
    requires Possible(s, step) && IsClientStep(step)
    ensures Next(s, step).queue == s.queue && Next(s, step).nextTicket == s.nextTicket
  {
    hide Reserved, GetSession, Increment, InUse, PathOf, Decrement;
    match step
    case Touch(path) => GetSessionHandsOut(s, path);
    case ClientAttaches(path) => GetSessionHandsOut(s, path);
    case OperationBegins(path) => GetSessionHandsOut(s, path);
    case _ =>
  }

  /** What is submitted joins the end of the queue under the next ticket. A stable-path operation on a path with a
      session that no queued mutation covers also puts a barrier on it at once, which waits for those already there. */
  lemma SubmissionJoins(s: State, step: Step)
    requires Possible(s, step) && SubmittedAt(s, step) != []
    ensures QueueMoves(s, step, Next(s, step))
    ensures step.StablePathSubmitted? ==>
      var t, path := Next(s, step), step.path;
      if !Reserved(s, path) && path in s.sessions then
        && t.queue[|s.queue|].job.eager == Some(Eager(s.sessions[path], BarriersOn(s, s.sessions[path])))
        && t.barriers == s.barriers + {(s.sessions[path], s.nextTicket)}
      else t.queue[|s.queue|].job.eager == None && t.barriers == s.barriers
    ensures step.TimerFires? ==> step.path in Next(s, step).timers && !Next(s, step).timers[step.path]
  {
    hide Reserved, BarriersOn;
  }

  lemma StepMovesQueue(s: State, step: Step)
    requires Possible(s, step)
    ensures QueueMoves(s, step, Next(s, step))
  {
    if SubmittedAt(s, step) != [] {
      SubmissionJoins(s, step);
    } else if IsClientStep(step) {
      ClientsStay(s, step);
    } else if IsHeadStep(step) {
      HeadDrops(s, step);
    } else {
      OutsideStaysQueued(s, step);
    }
    hide Next;
  }

  lemma OutsideStaysQueued(s: State, step: Step)
    requires Possible(s, step) && !IsHeadStep(step) && !IsClientStep(step) && SubmittedAt(s, step) == []
    ensures Next(s, step).queue == s.queue && Next(s, step).nextTicket == s.nextTicket
  {
    hide Reserved, BarriersOn, Rekeyed;
    if step.StragglerMoves? {
      var g := step.straggler;
      RekeyMovesIn(s.(stragglers := s.stragglers - {g}), g.source, g.target, g.sid);
    }
  }

  // ---------------------------------------------------------------------------
  // Every run
  // ---------------------------------------------------------------------------

  /** The queue is the end of what was submitted, with the tickets counting the submissions. */
  ghost predicate IsTail(s: State, submitted: seq<Job>) {
    && s.nextTicket == |submitted| && |s.queue| <= |submitted|
    && forall i :: 0 <= i < |s.queue| ==>
         var ticket := |submitted| - |s.queue| + i;
         s.queue[i].ticket == ticket && Asked(s.queue[i].job) == submitted[ticket]
  }

  lemma JoiningKeepsTail(s: State, t: State, job: Job, submitted: seq<Job>)
    requires IsTail(s, submitted)
    requires t.nextTicket == s.nextTicket + 1 && |t.queue| == |s.queue| + 1 && t.queue[..|s.queue|] == s.queue
    requires t.queue[|s.queue|].ticket == s.nextTicket && Asked(t.queue[|s.queue|].job) == job
    ensures IsTail(t, submitted + [job])
  {
    assert forall i :: 0 <= i < |s.queue| ==> t.queue[i] == t.queue[..|s.queue|][i] == s.queue[i];
    hide Asked;
  }

  lemma DroppingKeepsTail(s: State, t: State, submitted: seq<Job>)
    requires IsTail(s, submitted) && Drops(s, t)
    ensures IsTail(t, submitted)
  {
    hide Asked;
  }

  lemma StepKeepsTail(s: State, step: Step, submitted: seq<Job>)
    requires Possible(s, step) && IsTail(s, submitted)
    ensures IsTail(Next(s, step), submitted + SubmittedAt(s, step))
  {
    var t, more := Next(s, step), SubmittedAt(s, step);
    StepMovesQueue(s, step);
    assert |more| <= 1;
    hide Next, SubmittedAt, Asked, IsHeadStep, IsTail;
    if more != [] {
      JoiningKeepsTail(s, t, more[0], submitted);
      assert more == [more[0]];
    } else {
      DroppingKeepsTail(s, t, submitted);
      assert submitted + more == submitted;
    }
  }

  lemma {:induction false} TailSoFar(s: State, steps: seq<Step>, submitted: seq<Job>)
    requires Happens(s, steps) && IsTail(s, submitted)
    ensures IsTail(Run(s, steps), submitted + Submitted(s, steps))
    decreases |steps|
  {
    hide Next, Possible, SubmittedAt, IsTail;
    if steps != [] {
      StepKeepsTail(s, steps[0], submitted);
      TailSoFar(Next(s, steps[0]), steps[1..], submitted + SubmittedAt(s, steps[0]));
      assert submitted + SubmittedAt(s, steps[0]) + Submitted(Next(s, steps[0]), steps[1..])
        == submitted + (SubmittedAt(s, steps[0]) + Submitted(Next(s, steps[0]), steps[1..]));
    } else {
      assert submitted + [] == submitted;
    }
  }

  /** First come, first served. In every run the queue is exactly the mutations submitted last, in the order in which
      they were submitted: nothing is lost, doubled or overtaken, and only the head ever leaves. */
  lemma QueueIsFifo(steps: seq<Step>)
    requires Happens(Initial, steps)
    ensures IsTail(Run(Initial, steps), Submitted(Initial, steps))
  {
    TailSoFar(Initial, steps, []);
    assert [] + Submitted(Initial, steps) == Submitted(Initial, steps);
  }

  // ---------------------------------------------------------------------------
  // What is reserved
  // ---------------------------------------------------------------------------

  predicate Worded(path: Path) { path != [] && SlashFree(path) }

  /** `text === folder || text.startsWith(folder + "/")` */
  predicate InFolder(folder: string, text: string) { text == folder || folder + "/" <= text }

  /** Whether a mutation names a path: itself, or a folder that it lies in. */
  predicate Names(job: Job, text: string) {
    match job
    case StablePath(path, _) => text == Join(path)
    case MoveFile(source, target) => text == Join(source) || text == Join(target)
    case MoveSubtree(source, target) => InFolder(Join(source), text) || InFolder(Join(target), text)
    case DeleteFile(path) => text == Join(path)
    case DeleteSubtree(folder) => InFolder(Join(folder), text)
    case IdleClose(path) => text == Join(path)
  }

  predicate WordedJob(job: Job) {
    match job
    case MoveFile(source, target) => Worded(source) && Worded(target)
    case MoveSubtree(source, target) => Worded(source) && Worded(target)
    case DeleteSubtree(folder) => Worded(folder)
    case _ => Worded(job.path)
  }

  lemma SameText(left: Path, right: Path)
    requires Worded(left) && Worded(right)
    ensures Join(left) == Join(right) <==> left == right
    ensures InFolder(Join(left), Join(right)) <==> left <= right
  {
    if Join(left) == Join(right) {
      JoinInjective(left, right);
    }
    RelativeDescendantIsPrefix(left, right);
    hide Join, SlashFree;
  }

  lemma CoversWhatItNames(job: Job, path: Path)
    requires WordedJob(job) && Worded(path)
    ensures Covers(job, path) <==> Names(job, Join(path))
  {
    match job
    case MoveFile(source, target) => SameText(source, path); SameText(target, path);
    case MoveSubtree(source, target) => SameText(source, path); SameText(target, path);
    case DeleteSubtree(folder) => SameText(folder, path);
    case _ => SameText(job.path, path);
    hide Join, SlashFree;
  }

  /** In every run a path is reserved exactly if one of the submitted mutations that have not left the queue names its
      text. */
  lemma ReservedIffNamed(steps: seq<Step>, path: Path)
    requires Happens(Initial, steps) && Worded(path)
    requires forall k :: 0 <= k < |Submitted(Initial, steps)| ==> WordedJob(Submitted(Initial, steps)[k])
    ensures var s, submitted := Run(Initial, steps), Submitted(Initial, steps);
      && |s.queue| <= |submitted|
      && (Reserved(s, path) <==>
           exists k :: |submitted| - |s.queue| <= k < |submitted| && Names(submitted[k], Join(path)))
  {
    QueueIsFifo(steps);
    var s, submitted := Run(Initial, steps), Submitted(Initial, steps);
    hide Run, Submitted, Happens;
    var left := |submitted| - |s.queue|;
    forall i | 0 <= i < |s.queue|
      ensures Covers(s.queue[i].job, path) <==> Names(submitted[left + i], Join(path))
    {
      assert s.queue[i].ticket == left + i && Asked(s.queue[i].job) == submitted[left + i];
      CoversWhatItNames(submitted[left + i], path);
    }
    hide Covers, Names, Join, Asked;
    if k :| left <= k < |submitted| && Names(submitted[k], Join(path)) {
      assert Covers(s.queue[k - left].job, path);
    }
  }
}
