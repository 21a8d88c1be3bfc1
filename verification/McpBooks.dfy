/** The books of the MCP endpoint against the steps: what it admits is tracked until it is over, and its timers close
    exactly the sessions that they should. */
module McpBooks {
  import opened Wrappers
  import opened McpEndpoint

  // ---------------------------------------------------------------------------
  // Requests and operations
  // ---------------------------------------------------------------------------

  /** What is under way, told from the steps: requests by their number, whether they are event streams, and the
      operations that run or are still tracked. */
  datatype Book = Book(requests: map<RequestId, bool>, next: RequestId, closed: bool,
                       running: set<OperationId>, tracked: set<OperationId>, nextOperation: OperationId)

  const EmptyBook := Book(map[], 0, false, {}, {}, 0)

  function Entered(b: Book, s: State, step: Step): Book {
    match step
    case RequestArrives(isGet, _) => if b.closed then b else b.(requests := b.requests[b.next := isGet], next := b.next + 1)
    case ResponseConsumed(id) => b.(requests := b.requests - {id})
    case OperationStarts =>
      if s.acceptingOperations then
        b.(running := b.running + {b.nextOperation}, tracked := b.tracked + {b.nextOperation}, nextOperation := b.nextOperation + 1)
      else b
    case OperationReturns(operation) => b.(running := b.running - {operation})
    case OperationSettles(operation) => if operation in b.running then b else b.(tracked := b.tracked - {operation})
    case Closes => b.(closed := true)
    case _ => b
  }

  function BookAfter(b: Book, s: State, steps: seq<Step>): Book
    decreases |steps|
  {
    if steps == [] then b else BookAfter(Entered(b, s, steps[0]), Next(s, steps[0]), steps[1..])
  }

  ghost predicate Agrees(s: State, b: Book) {
    && (forall id :: id in s.requests <==> id in b.requests) && (forall id :: id in b.requests ==> s.requests[id].isGet == b.requests[id])
    && (forall id :: id in s.activeHttp <==> id in b.requests && !b.requests[id]) && s.nextRequest == b.next
    && s.acceptingRequests == !b.closed && (s.closing == Open <==> !b.closed)
    && s.running == b.running && s.active == b.tracked && s.nextOperation == b.nextOperation
    && (forall id :: id in b.requests ==> id < b.next)
  }

  lemma StepAgrees(s: State, b: Book, step: Step)
    requires Agrees(s, b)
    ensures Agrees(Next(s, step), Entered(b, s, step))
  {
    hide Admitted, Consumed, CloseContinues;
    match step
    case RequestArrives(isGet, session) => ArrivalAgrees(s, b, isGet, session);
    case ResponseConsumed(id) => ConsumedAgrees(s, b, id);
    case CloseGoesOn => CloseAgrees(s, b);
    case _ =>
  }

  lemma ArrivalAgrees(s: State, b: Book, isGet: bool, session: Option<SessionId>)
    requires Agrees(s, b)
    ensures Agrees(Admitted(s, isGet, session), Entered(b, s, RequestArrives(isGet, session)))
  {
  }

  lemma ConsumedAgrees(s: State, b: Book, id: RequestId)
    requires Agrees(s, b)
    ensures Agrees(Consumed(s, id), b.(requests := b.requests - {id}))
  {
  }

  lemma CloseAgrees(s: State, b: Book)
    requires Agrees(s, b)
    ensures Agrees(CloseContinues(s), b)
  {
  }

  lemma {:induction false} BookSoFar(s: State, b: Book, steps: seq<Step>)
    requires Agrees(s, b)
    ensures Agrees(Run(s, steps), BookAfter(b, s, steps))
    decreases |steps|
  {
    if steps != [] {
      StepAgrees(s, b, steps[0]);
      hide Agrees, Next, Entered;
      BookSoFar(Next(s, steps[0]), Entered(b, s, steps[0]), steps[1..]);
    }
  }

  /** In every run the endpoint tracks exactly the requests that arrived before it was closed and whose response has
      not been consumed, and exactly the operations that it let start and that have not settled; and it lets
      operations start as long as any of those requests but an event stream is under way. */
  lemma BooksFollowSteps(steps: seq<Step>)
    ensures var s, b := Run(Initial, steps), BookAfter(EmptyBook, Initial, steps);
      && (forall id :: id in s.requests <==> id in b.requests) && (forall id :: id in b.requests ==> s.requests[id].isGet == b.requests[id])
      && (forall id :: id in s.activeHttp <==> id in b.requests && !b.requests[id])
      && s.running == b.running && s.active == b.tracked && s.acceptingRequests == !b.closed
      && ((exists id :: id in b.requests && !b.requests[id]) ==> s.acceptingOperations)
  {
    BookSoFar(Initial, EmptyBook, steps);
    InitialInv();
    RunKeepsInv(Initial, steps);
    GatesOpen(Initial, steps);
    hide Run, BookAfter;
  }

  /** The second gate is closed only by `close()`, and then nothing but event streams is left. */
  ghost predicate GateFits(s: State) { !s.acceptingOperations <==> s.closing.DrainingOperations? || s.closing.TornDown? }

  lemma {:induction false} GatesOpen(s: State, steps: seq<Step>)
    requires GateFits(s)
    ensures GateFits(Run(s, steps))
    decreases |steps|
  {
    if steps != [] {
      GatesOpen(Next(s, steps[0]), steps[1..]);
    }
  }

  // ---------------------------------------------------------------------------
  // Timers
  // ---------------------------------------------------------------------------

  /** An open session that no unfinished request uses has its idle timer set, once it was used. */
  ghost predicate IdleTimed(s: State) {
    forall sid :: sid in s.sessions ==> sid in s.records && (s.records[sid].activeRequests == 0 ==> s.records[sid].idleTimer)
  }

  lemma StepKeepsTimed(s: State, step: Step)
    requires IdleTimed(s) && SessionInv(s)
    ensures IdleTimed(Next(s, step))
  {
    hide Counted;
  }

  lemma {:induction false} TimedSoFar(s: State, steps: seq<Step>)
    requires IdleTimed(s) && SessionInv(s) && GateInv(s)
    ensures IdleTimed(Run(s, steps))
    decreases |steps|
  {
    if steps != [] {
      StepKeepsTimed(s, steps[0]);
      StepKeepsSessions(s, steps[0]);
      StepKeepsGates(s, steps[0]);
      hide IdleTimed, SessionInv, GateInv, Next;
      TimedSoFar(Next(s, steps[0]), steps[1..]);
    }
  }

  /** In every run an open session that no unfinished request uses is about to be closed: its idle timer is set, and
      when it fires the session is gone. */
  lemma UnusedSessionsAreClosed(steps: seq<Step>, sid: SessionId)
    ensures var s := Run(Initial, steps);
      sid in s.sessions && Counting(s.requests, sid) == {} ==>
        sid in s.records && s.records[sid].idleTimer && Next(s, IdleTimerFires(sid)).sessions == s.sessions - {sid}
  {
    InitialInv();
    RunKeepsInv(Initial, steps);
    TimedSoFar(Initial, steps);
    var s := Run(Initial, steps);
    hide Run;
    if sid in s.records {
      assert Counted(s, sid);
    }
  }

  /** The initialization timer is set for every new session, and closes it if nobody acknowledges it. */
  lemma NewSessionsAreTimed(s: State, id: RequestId)
    requires id in s.requests && !s.requests[id].isGet && s.requests[id].session.None?
    ensures var t, sid := Next(s, SessionStarts(id)), s.nextSession;
      && t.sessions == s.sessions + {sid} && t.records[sid] == Record(1, false, true) && t.requests[id].session == Some(sid)
      && Next(t, InitializationTimerFires(sid)).sessions == t.sessions - {sid}
  {
  }

  ghost predicate WasAcknowledged(s: State, sid: SessionId) { sid in s.records && !s.records[sid].initializationTimer }

  lemma StepStaysAcknowledged(s: State, step: Step, sid: SessionId)
    requires SessionInv(s) && WasAcknowledged(s, sid)
    ensures WasAcknowledged(Next(s, step), sid)
  {
    hide Counted;
  }

  lemma {:induction false} StaysAcknowledged(s: State, steps: seq<Step>, sid: SessionId)
    requires SessionInv(s) && GateInv(s) && WasAcknowledged(s, sid)
    ensures WasAcknowledged(Run(s, steps), sid)
    decreases |steps|
  {
    if steps != [] {
      StepKeepsSessions(s, steps[0]);
      StepKeepsGates(s, steps[0]);
      StepStaysAcknowledged(s, steps[0], sid);
      hide SessionInv, GateInv, Next, WasAcknowledged;
      StaysAcknowledged(Next(s, steps[0]), steps[1..], sid);
    }
  }

  /** Once a session has been acknowledged its initialization timer never closes it any more. */
  lemma AcknowledgedSessionsStay(before: seq<Step>, sid: SessionId, after: seq<Step>)
    requires sid in Run(Initial, before).records
    ensures var s := Run(Next(Run(Initial, before), InitializationAcknowledged(sid)), after);
      Next(s, InitializationTimerFires(sid)) == s
  {
    InitialInv();
    RunKeepsInv(Initial, before);
    var s := Run(Initial, before);
    var t := Next(s, InitializationAcknowledged(sid));
    StepKeepsSessions(s, InitializationAcknowledged(sid));
    StepKeepsGates(s, InitializationAcknowledged(sid));
    StaysAcknowledged(t, after, sid);
  }

  /** A request for a known session is counted for it and stops its idle timer. */
  lemma RequestsStopTheTimer(s: State, isGet: bool, sid: SessionId)
    requires s.acceptingRequests && sid in s.sessions && sid in s.records
    ensures var t := Next(s, RequestArrives(isGet, Some(sid)));
      && t.requests[s.nextRequest] == Request(isGet, Some(sid)) && !t.records[sid].idleTimer
      && t.records[sid].activeRequests == s.records[sid].activeRequests + 1
  {
  }

  ghost predicate Untimed(s: State, sids: set<SessionId>) {
    s.closing == TornDown && s.sessions == {}
    && forall sid :: sid in sids ==> sid in s.records && !s.records[sid].idleTimer && !s.records[sid].initializationTimer
  }

  lemma TornDownIsUntimed(s: State)
    requires SessionInv(s) && GateInv(s) && Next(s, CloseGoesOn).closing == TornDown && s.sessions != {}
    ensures Untimed(Next(s, CloseGoesOn), s.sessions)
  {
    hide Counted;
  }

  lemma StepStaysUntimed(s: State, step: Step, sids: set<SessionId>)
    requires GateInv(s) && SessionInv(s) && Untimed(s, sids)
    ensures Untimed(Next(s, step), sids)
  {
    hide Counted;
  }

  lemma {:induction false} StaysUntimed(s: State, steps: seq<Step>, sids: set<SessionId>)
    requires GateInv(s) && SessionInv(s) && Untimed(s, sids)
    ensures Untimed(Run(s, steps), sids)
    decreases |steps|
  {
    if steps != [] {
      StepKeepsSessions(s, steps[0]);
      StepKeepsGates(s, steps[0]);
      StepStaysUntimed(s, steps[0], sids);
      hide SessionInv, GateInv, Next, Untimed;
      StaysUntimed(Next(s, steps[0]), steps[1..], sids);
    }
  }

  /** The step that tears the endpoint down clears both timers of every open session, and none is set again. */
  lemma TearDownStopsTimers(before: seq<Step>, after: seq<Step>, sid: SessionId)
    requires var s := Run(Initial, before); sid in s.sessions && Next(s, CloseGoesOn).closing == TornDown
    ensures var t := Run(Next(Run(Initial, before), CloseGoesOn), after);
      && sid in t.records && Next(t, IdleTimerFires(sid)) == t && Next(t, InitializationTimerFires(sid)) == t
  {
    InitialInv();
    RunKeepsInv(Initial, before);
    var s := Run(Initial, before);
    StepKeepsSessions(s, CloseGoesOn);
    StepKeepsGates(s, CloseGoesOn);
    TornDownIsUntimed(s);
    hide GateInv, SessionInv;
    StaysUntimed(Next(s, CloseGoesOn), after, s.sessions);
  }
}
