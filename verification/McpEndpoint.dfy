/** The local MCP endpoint: two gates, the requests and operations behind them, and the sessions' timers. */
module McpEndpoint {
  import opened Wrappers

  type RequestId = nat
  type SessionId = nat
  type OperationId = nat

  /** A request under way, with the session it counts for until its response has been consumed. */
  datatype Request = Request(isGet: bool, session: Option<SessionId>)

  datatype Record = Record(activeRequests: nat, idleTimer: bool, initializationTimer: bool)

  datatype Closing = Open | DrainingRequests(requests: set<RequestId>) | DrainingOperations(operations: set<OperationId>) | TornDown

  /** `records` keeps the record of every session there was; `sessions` are those still in the map. `active`
      are the tracked operations, and `running` those whose tool has not returned. */
  datatype State = State(
    acceptingRequests: bool,
    acceptingOperations: bool,
    closing: Closing,
    requests: map<RequestId, Request>,
    activeHttp: set<RequestId>,
    active: set<OperationId>,
    running: set<OperationId>,
    sessions: set<SessionId>,
    records: map<SessionId, Record>,
    nextRequest: RequestId,
    nextSession: SessionId,
    nextOperation: OperationId)

  const Initial := State(true, true, Open, map[], {}, {}, {}, {}, map[], 0, 0, 0)

  // ---------------------------------------------------------------------------
  // Steps
  // ---------------------------------------------------------------------------

  function Admitted(s: State, isGet: bool, session: Option<SessionId>): State {
    if !s.acceptingRequests then s
    else
      var id := s.nextRequest;
      var known := session.Some? && session.value in s.sessions && session.value in s.records;
      var t := s.(nextRequest := id + 1, activeHttp := if isGet then s.activeHttp else s.activeHttp + {id},
                  requests := s.requests[id := Request(isGet, if known then session else None)]);
      if !known then t
      else
        var record := s.records[session.value];
        t.(records := s.records[session.value := record.(activeRequests := record.activeRequests + 1, idleTimer := false)])
  }

  /** An initialize request has been answered: its session starts with this request counted. */
  function SessionStarted(s: State, id: RequestId): State {
    if id !in s.requests || s.requests[id].isGet || s.requests[id].session.Some? then s
    else
      var sid := s.nextSession;
      s.(nextSession := sid + 1, sessions := s.sessions + {sid}, records := s.records[sid := Record(1, false, true)],
         requests := s.requests[id := s.requests[id].(session := Some(sid))])
  }

  /** `finishSessionRequest` */
  function SessionRequestFinished(s: State, sid: SessionId): State {
    if sid !in s.records then s
    else
      var record := s.records[sid];
      var left := if record.activeRequests == 0 then 0 else record.activeRequests - 1;
      s.(records := s.records[sid := record.(activeRequests := left,
           idleTimer := if sid !in s.sessions || left > 0 then record.idleTimer else true)])
  }

  /** The response has been consumed, cancelled or failed: the session's count goes first, then the gate's. */
  function Consumed(s: State, id: RequestId): State {
    if id !in s.requests then s
    else
      var request := s.requests[id];
      var t := s.(requests := s.requests - {id}, activeHttp := s.activeHttp - {id});
      if request.session.Some? then SessionRequestFinished(t, request.session.value) else t
  }

  function OperationStarted(s: State): State {
    if !s.acceptingOperations then s
    else
      s.(nextOperation := s.nextOperation + 1, active := s.active + {s.nextOperation}, running := s.running + {s.nextOperation})
  }

  function IdleFired(s: State, sid: SessionId): State {
    if sid !in s.records || !s.records[sid].idleTimer then s
    else
      var t := s.(records := s.records[sid := s.records[sid].(idleTimer := false)]);
      if sid !in s.sessions || s.records[sid].activeRequests > 0 then t else t.(sessions := s.sessions - {sid})
  }

  function InitializationFired(s: State, sid: SessionId): State {
    if sid !in s.records || !s.records[sid].initializationTimer then s
    else s.(records := s.records[sid := s.records[sid].(initializationTimer := false)], sessions := s.sessions - {sid})
  }

  function Acknowledged(s: State, sid: SessionId): State {
    if sid !in s.records then s else s.(records := s.records[sid := s.records[sid].(initializationTimer := false)])
  }

  function CloseCalled(s: State): State {
    if s.closing != Open then s else s.(acceptingRequests := false, closing := DrainingRequests(s.activeHttp))
  }

  /** `close()` goes on when everything it waits for has finished. */
  function CloseContinues(s: State): State {
    match s.closing
    case DrainingRequests(requests) =>
      if requests * s.activeHttp != {} then s
      else s.(acceptingOperations := false, closing := DrainingOperations(s.active))
    case DrainingOperations(operations) =>
      if operations * s.active != {} then s
      else
        s.(closing := TornDown, sessions := {},
           records := map sid | sid in s.records ::
             if sid in s.sessions then s.records[sid].(idleTimer := false, initializationTimer := false) else s.records[sid])
    case _ => s
  }

  datatype Step =
    | RequestArrives(isGet: bool, session: Option<SessionId>)
    | SessionStarts(id: RequestId)
    | ResponseConsumed(id: RequestId)
    | OperationStarts
    | OperationReturns(operation: OperationId)
    | OperationSettles(operation: OperationId)
    | IdleTimerFires(sid: SessionId)
    | InitializationTimerFires(sid: SessionId)
    | InitializationAcknowledged(sid: SessionId)
    | Closes
    | CloseGoesOn

  /** An operation stays tracked until after its tool has returned. */
  function Next(s: State, step: Step): State {
    match step
    case RequestArrives(isGet, session) => Admitted(s, isGet, session)
    case SessionStarts(id) => SessionStarted(s, id)
    case ResponseConsumed(id) => Consumed(s, id)
    case OperationStarts => OperationStarted(s)
    case OperationReturns(operation) => s.(running := s.running - {operation})
    case OperationSettles(operation) => if operation in s.running then s else s.(active := s.active - {operation})
    case IdleTimerFires(sid) => IdleFired(s, sid)
    case InitializationTimerFires(sid) => InitializationFired(s, sid)
    case InitializationAcknowledged(sid) => Acknowledged(s, sid)
    case Closes => CloseCalled(s)
    case CloseGoesOn => CloseContinues(s)
  }

  function Run(s: State, steps: seq<Step>): State
    decreases |steps|
  {
    if steps == [] then s else Run(Next(s, steps[0]), steps[1..])
  }

  // ---------------------------------------------------------------------------
  // What every run keeps
  // ---------------------------------------------------------------------------

  function Counting(requests: map<RequestId, Request>, sid: SessionId): set<RequestId> {
    set id | id in requests && requests[id].session == Some(sid)
  }

  ghost predicate Counted(s: State, sid: SessionId) {
    && sid in s.records && s.records[sid].activeRequests == |Counting(s.requests, sid)|
    && (s.records[sid].idleTimer ==> s.records[sid].activeRequests == 0)
  }

  /** The gates: what is tracked is known, and what `close()` waits for covers what is left. */
  ghost predicate GateInv(s: State) {
    && s.running <= s.active
    && (forall id :: id in s.requests ==> id < s.nextRequest && (!s.requests[id].isGet ==> id in s.activeHttp))
    && (forall id :: id in s.activeHttp ==> id in s.requests)
    && (forall op :: op in s.active ==> op < s.nextOperation)
    && match s.closing
       case Open => true
       case DrainingRequests(requests) => !s.acceptingRequests && s.activeHttp <= requests
       case DrainingOperations(operations) =>
         !s.acceptingRequests && !s.acceptingOperations && s.activeHttp == {} && s.active <= operations
       case TornDown =>
         !s.acceptingRequests && !s.acceptingOperations && s.activeHttp == {} && s.active == {} && s.sessions == {}
  }

  ghost predicate SessionInv(s: State) {
    && (forall sid :: sid in s.sessions ==> sid in s.records)
    && (forall sid :: sid in s.records ==> sid < s.nextSession && Counted(s, sid))
    && (forall id :: id in s.requests && s.requests[id].session.Some? ==> s.requests[id].session.value in s.records)
    && (forall id :: id in s.requests ==> id < s.nextRequest)
  }

  lemma StepKeepsGates(s: State, step: Step)
    requires GateInv(s)
    ensures GateInv(Next(s, step))
  {
  }

  lemma OneMoreRequest(requests: map<RequestId, Request>, id: RequestId, request: Request, sid: SessionId)
    requires id !in requests
    ensures Counting(requests[id := request], sid) == Counting(requests, sid) + if request.session == Some(sid) then {id} else {}
    ensures id !in Counting(requests, sid)
  {
  }

  lemma AdmittedCounts(s: State, isGet: bool, session: Option<SessionId>, sid: SessionId)
    requires Counted(s, sid) && s.nextRequest !in s.requests
    ensures Counted(Admitted(s, isGet, session), sid)
  {
    if s.acceptingRequests {
      var t := Admitted(s, isGet, session);
      var request := t.requests[s.nextRequest];
      OneMoreRequest(s.requests, s.nextRequest, request, sid);
      var before, after := Counting(s.requests, sid), Counting(t.requests, sid);
      assert t.requests == s.requests[s.nextRequest := request];
      hide Counting;
      if request.session == Some(sid) {
        assert |after| == |before| + 1;
        assert t.records[sid].activeRequests == s.records[sid].activeRequests + 1;
      } else {
        assert after == before;
        assert t.records[sid] == s.records[sid];
      }
    }
  }

  lemma AdmittedKeepsSessions(s: State, isGet: bool, session: Option<SessionId>)
    requires SessionInv(s)
    ensures SessionInv(Admitted(s, isGet, session))
  {
    var t := Admitted(s, isGet, session);
    assert t.records.Keys == s.records.Keys;
    hide Counted;
    forall sid | sid in t.records
      ensures Counted(t, sid)
    {
      AdmittedCounts(s, isGet, session, sid);
    }
  }

  lemma StartedKeepsSessions(s: State, id: RequestId)
    requires SessionInv(s)
    ensures SessionInv(SessionStarted(s, id))
  {
    var t := SessionStarted(s, id);
    if t != s {
      forall sid | sid in t.records
        ensures Counted(t, sid)
      {
        if sid == s.nextSession {
          assert Counting(t.requests, sid) == {id};
        } else {
          assert Counted(s, sid);
          assert Counting(t.requests, sid) == Counting(s.requests, sid);
        }
      }
    }
  }

  /** The clamp at zero never fires: the request that finishes is counted. */
  lemma ConsumedKeepsSessions(s: State, id: RequestId)
    requires SessionInv(s)
    ensures SessionInv(Consumed(s, id))
    ensures id in s.requests && s.requests[id].session.Some? ==>
      s.records[s.requests[id].session.value].activeRequests > 0
  {
    var t := Consumed(s, id);
    if id in s.requests {
      forall sid | sid in t.records
        ensures Counted(t, sid)
      {
        assert Counted(s, sid);
        var before, after := Counting(s.requests, sid), Counting(t.requests, sid);
        if s.requests[id].session == Some(sid) {
          assert id in before && after == before - {id};
        } else {
          assert after == before;
        }
      }
      if s.requests[id].session.Some? {
        assert Counted(s, s.requests[id].session.value);
        assert id in Counting(s.requests, s.requests[id].session.value);
      }
    }
  }

  /** Timers and gates change no count. */
  ghost predicate OnlyTimers(s: State, t: State) {
    && t.requests == s.requests && t.sessions <= s.sessions && t.records.Keys == s.records.Keys
    && t.nextRequest == s.nextRequest && t.nextSession == s.nextSession
    && forall sid :: sid in s.records ==>
         t.records[sid].activeRequests == s.records[sid].activeRequests && (t.records[sid].idleTimer ==> s.records[sid].idleTimer)
  }

  lemma TimersKeepSessions(s: State, t: State)
    requires SessionInv(s) && OnlyTimers(s, t)
    ensures SessionInv(t)
  {
    forall sid | sid in t.records
      ensures Counted(t, sid)
    {
      assert Counted(s, sid);
    }
    hide Counting, Counted;
  }

  lemma StepKeepsSessions(s: State, step: Step)
    requires SessionInv(s)
    ensures SessionInv(Next(s, step))
  {
    hide SessionInv;
    match step
    case RequestArrives(isGet, session) => AdmittedKeepsSessions(s, isGet, session);
    case SessionStarts(id) => StartedKeepsSessions(s, id);
    case ResponseConsumed(id) => ConsumedKeepsSessions(s, id);
    case _ =>
      assert OnlyTimers(s, Next(s, step));
      TimersKeepSessions(s, Next(s, step));
  }

  lemma {:induction false} RunKeepsInv(s: State, steps: seq<Step>)
    requires GateInv(s) && SessionInv(s)
    ensures GateInv(Run(s, steps)) && SessionInv(Run(s, steps))
    decreases |steps|
  {
    if steps != [] {
      StepKeepsGates(s, steps[0]);
      StepKeepsSessions(s, steps[0]);
      RunKeepsInv(Next(s, steps[0]), steps[1..]);
    }
  }

  lemma InitialInv()
    ensures GateInv(Initial) && SessionInv(Initial)
  {
  }

  // ---------------------------------------------------------------------------
  // Guarantees
  // ---------------------------------------------------------------------------

  /** Shutdown drains. From the moment the sessions are torn down, in every run, no tool operation is running
      and none can start, every request but an event stream has finished, and no session can appear again. */
  lemma TearDownIsQuiet(steps: seq<Step>)
    ensures var s := Run(Initial, steps);
      s.closing == TornDown ==>
        && s.running == {} && s.active == {} && OperationStarted(s) == s
        && (forall id :: id in s.requests ==> s.requests[id].isGet)
        && s.sessions == {} && (forall id :: SessionStarted(s, id).sessions == {})
  {
    InitialInv();
    RunKeepsInv(Initial, steps);
    hide Run;
  }

  /** A session's count is the number of its unfinished requests, and its idle timer only closes it when
      there are none: a timer that is set says so already. */
  lemma BusySessionsAreKept(steps: seq<Step>, sid: SessionId)
    ensures var s := Run(Initial, steps);
      && (sid in s.records ==> s.records[sid].activeRequests == |Counting(s.requests, sid)|)
      && (sid in s.records && s.records[sid].idleTimer ==> Counting(s.requests, sid) == {})
      && (sid in s.sessions && Counting(s.requests, sid) != {} ==> sid in IdleFired(s, sid).sessions)
  {
    InitialInv();
    RunKeepsInv(Initial, steps);
    var s := Run(Initial, steps);
    hide Run;
    if sid in s.records {
      assert Counted(s, sid);
    }
  }

  /** The shutdown goes on as soon as its requests and operations are over, and then at once to the end. */
  lemma ShutdownCompletes(s: State)
    requires GateInv(s) && s.closing != Open && s.activeHttp == {} && s.active == {}
    ensures CloseContinues(CloseContinues(s)).closing == TornDown
  {
  }

  // ---------------------------------------------------------------------------
  // The endpoint
  // ---------------------------------------------------------------------------

  /** The variables that the endpoint's closures share. */
  class LocalMcpEndpoint {
    var acceptingRequests: bool
    var acceptingOperations: bool
    var closing: Closing
    var requests: map<RequestId, Request>
    var activeHttpRequests: set<RequestId>
    var activeOperations: set<OperationId>
    var running: set<OperationId>
    var sessions: set<SessionId>
    var records: map<SessionId, Record>
    var nextRequest: RequestId
    var nextSession: SessionId
    var nextOperation: OperationId

    ghost function Abstract(): State
      reads this
    {
      State(acceptingRequests, acceptingOperations, closing, requests, activeHttpRequests, activeOperations, running,
            sessions, records, nextRequest, nextSession, nextOperation)
    }

    constructor ()
      ensures Abstract() == Initial
    {
      acceptingRequests, acceptingOperations, closing := true, true, Open;
      requests, activeHttpRequests, activeOperations, running, sessions, records := map[], {}, {}, {}, {}, map[];
      nextRequest, nextSession, nextOperation := 0, 0, 0;
    }

    method HandleRequest(isGet: bool, session: Option<SessionId>) returns (admitted: bool)
      modifies this
      ensures admitted == old(acceptingRequests)
      ensures Abstract() == Admitted(old(Abstract()), isGet, session)
    {
      if !acceptingRequests { return false; }
      admitted := true;
      var id := nextRequest;
      nextRequest := id + 1;
      if !isGet { activeHttpRequests := activeHttpRequests + {id}; }
      if session.Some? && session.value in sessions && session.value in records {
        var record := records[session.value];
        records := records[session.value := record.(activeRequests := record.activeRequests + 1, idleTimer := false)];
        requests := requests[id := Request(isGet, session)];
      } else {
        requests := requests[id := Request(isGet, None)];
      }
    }

    method FinishSessionRequest(sid: SessionId)
      modifies this
      ensures Abstract() == SessionRequestFinished(old(Abstract()), sid)
    {
      if sid !in records { return; }
      var record := records[sid];
      var left := if record.activeRequests == 0 then 0 else record.activeRequests - 1;
      records := records[sid := record.(activeRequests := left)];
      if sid !in sessions || left > 0 { return; }
      records := records[sid := records[sid].(idleTimer := true)];
    }

    method FinishRequest(id: RequestId)
      modifies this
      ensures Abstract() == Consumed(old(Abstract()), id)
    {
      if id !in requests { return; }
      var session := requests[id].session;
      requests := requests - {id};
      activeHttpRequests := activeHttpRequests - {id};
      if session.Some? { FinishSessionRequest(session.value); }
    }

    /** An operation is refused once the second gate is closed. */
    method TrackOperation() returns (operation: Option<OperationId>)
      modifies this
      ensures operation.Some? <==> old(acceptingOperations)
      ensures Abstract() == OperationStarted(old(Abstract()))
    {
      if !acceptingOperations { return None; }
      operation := Some(nextOperation);
      activeOperations := activeOperations + {nextOperation};
      running := running + {nextOperation};
      nextOperation := nextOperation + 1;
    }

    method IdleTimer(sid: SessionId)
      modifies this
      ensures Abstract() == IdleFired(old(Abstract()), sid)
    {
      if sid !in records || !records[sid].idleTimer { return; }
      var record := records[sid];
      records := records[sid := record.(idleTimer := false)];
      if sid !in sessions || record.activeRequests > 0 { return; }
      sessions := sessions - {sid};
    }

    method Close()
      modifies this
      ensures Abstract() == CloseCalled(old(Abstract()))
    {
      if closing == Open {
        acceptingRequests := false;
        closing := DrainingRequests(activeHttpRequests);
      }
    }

    /** The rest of `close()`, each time something it waits for may be over. */
    method ContinueClose()
      modifies this
      ensures Abstract() == CloseContinues(old(Abstract()))
    {
      match closing
      case DrainingRequests(waits) =>
        if waits * activeHttpRequests == {} {
          acceptingOperations := false;
          closing := DrainingOperations(activeOperations);
        }
      case DrainingOperations(waits) =>
        if waits * activeOperations == {} {
          var torn := sessions;
          sessions := {};
          records := map sid | sid in records ::
            if sid in torn then records[sid].(idleTimer := false, initializationTimer := false) else records[sid];
          closing := TornDown;
        }
      case _ =>
    }

    /** The session of an initialize request that has been answered. */
    method StartSession(id: RequestId)
      modifies this
      ensures Abstract() == SessionStarted(old(Abstract()), id)
    {
      if id !in requests || requests[id].isGet || requests[id].session.Some? { return; }
      var sid := nextSession;
      nextSession := sid + 1;
      sessions := sessions + {sid};
      records := records[sid := Record(1, false, true)];
      requests := requests[id := requests[id].(session := Some(sid))];
    }

    /** The timer of a session that was never acknowledged, or its acknowledgement. */
    method EndInitialization(sid: SessionId, acknowledged: bool)
      modifies this
      ensures Abstract() == if acknowledged then Acknowledged(old(Abstract()), sid) else InitializationFired(old(Abstract()), sid)
    {
      if sid !in records || (!acknowledged && !records[sid].initializationTimer) { return; }
      records := records[sid := records[sid].(initializationTimer := false)];
      if !acknowledged { sessions := sessions - {sid}; }
    }

    /** Whatever happens next is done by one of the methods above, so that every run of the protocol is a run of
        the endpoint. */
    method Take(step: Step)
      modifies this
      ensures Abstract() == Next(old(Abstract()), step)
    {
      match step
      case RequestArrives(isGet, session) => var admitted := HandleRequest(isGet, session);
      case SessionStarts(id) => StartSession(id);
      case ResponseConsumed(id) => FinishRequest(id);
      case OperationStarts => var operation := TrackOperation();
      case OperationReturns(operation) => running := running - {operation};
      case OperationSettles(operation) => if operation !in running { activeOperations := activeOperations - {operation}; }
      case IdleTimerFires(sid) => IdleTimer(sid);
      case InitializationTimerFires(sid) => EndInitialization(sid, false);
      case InitializationAcknowledged(sid) => EndInitialization(sid, true);
      case Closes => Close();
      case CloseGoesOn => ContinueClose();
    }
  }
}
