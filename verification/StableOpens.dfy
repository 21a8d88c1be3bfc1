/** Opening one session beside stable-path operations: what an operation is told of the session stays true until the
    operation ends. */
module StableOpens {
  // One step is the code between two awaits. An `open()` waits for the barriers that are there when it is called; an
  // operation waits for those that were there when it was reserved, so for every earlier operation. Continuations run
  // in the order in which they were registered: an `open()` that was called before an operation was reserved goes on
  // before that operation does.

  type Ticket = nat

  /** A reserved operation: not run yet, waiting for earlier ones, waiting for a load, or running on what it was told. */
  datatype Operation = Reserved | Waiting | AwaitingLoad | Running(told: bool)

  /** `calls` are the calls of `open()` that have not gone on, by the number of operations reserved before them;
      `operations` are the unreleased ones. */
  datatype State = State(isOpen: bool, loading: bool, calls: multiset<nat>, operations: map<Ticket, Operation>, next: Ticket)

  const Closed := State(false, false, multiset{}, map[], 0)

  /** No operation reserved before `bound` is unreleased. */
  predicate Released(s: State, bound: Ticket) { forall t :: t in s.operations ==> t >= bound }

  datatype Step =
    | OpenCalled
    | OpenGoesOn(before: nat)
    | LoadReturns(ok: bool)
    | Reserves
    | Runs(ticket: Ticket)
    | GoesOn(ticket: Ticket)
    | LoadSeen(ticket: Ticket, ok: bool)
    | Returns(ticket: Ticket)
    | Releases(ticket: Ticket)

  predicate Possible(s: State, step: Step) {
    match step
    case OpenCalled => true
    case OpenGoesOn(before) => before in s.calls && Released(s, before)
    case LoadReturns(_) => s.loading
    case Reserves => true
    case Runs(t) => t in s.operations && s.operations[t] == Reserved
    case GoesOn(t) => t in s.operations && s.operations[t] == Waiting && Released(s, t) && forall c :: c in s.calls ==> c > t
    case LoadSeen(t, _) => t in s.operations && s.operations[t] == AwaitingLoad && !s.loading
    case Returns(t) => t in s.operations && s.operations[t].Running?
    case Releases(t) => t in s.operations && s.operations[t] == Reserved
  }

  /** A load that fails other than by a missing file fails the operation that waits for it. */
  function Next(s: State, step: Step): State
    requires Possible(s, step)
  {
    match step
    case OpenCalled => if s.isOpen then s else s.(calls := s.calls + multiset{s.next})
    case OpenGoesOn(before) =>
      s.(calls := s.calls - multiset{before}, loading := s.loading || !s.isOpen)
    case LoadReturns(ok) => s.(loading := false, isOpen := s.isOpen || ok)
    case Reserves => s.(operations := s.operations[s.next := Reserved], next := s.next + 1)
    case Runs(t) => s.(operations := s.operations[t := Waiting])
    case GoesOn(t) => s.(operations := s.operations[t := if s.loading then AwaitingLoad else Running(s.isOpen)])
    case LoadSeen(t, ok) =>
      if ok then s.(operations := s.operations[t := Running(s.isOpen)]) else s.(operations := s.operations - {t})
    case Returns(t) => s.(operations := s.operations - {t})
    case Releases(t) => s.(operations := s.operations - {t})
  }

  predicate Happens(s: State, steps: seq<Step>)
    decreases |steps|
  {
    steps == [] || (Possible(s, steps[0]) && Happens(Next(s, steps[0]), steps[1..]))
  }

  function Run(s: State, steps: seq<Step>): State
    requires Happens(s, steps)
    decreases |steps|
  {
    if steps == [] then s else Run(Next(s, steps[0]), steps[1..])
  }

  // ---------------------------------------------------------------------------
  // What every run keeps
  // ---------------------------------------------------------------------------

  predicate Begun(op: Operation) { op == AwaitingLoad || op.Running? }

  /** An operation that has begun is the oldest, every call still to go on comes after it, and what a running one was
      told is so. */
  ghost predicate Inv(s: State) {
    && (forall t :: t in s.operations ==> t < s.next) && (forall c :: c in s.calls ==> c <= s.next)
    && (forall t :: t in s.operations && Begun(s.operations[t]) ==> Released(s, t) && forall c :: c in s.calls ==> c > t)
    && (forall t :: t in s.operations && s.operations[t].Running? ==> !s.loading && s.isOpen == s.operations[t].told)
    && (s.loading ==> !s.isOpen)
  }

  lemma OpeningKeepsInv(s: State, step: Step)
    requires Inv(s) && Possible(s, step) && (step.OpenCalled? || step.OpenGoesOn? || step.LoadReturns?)
    ensures Inv(Next(s, step))
  {
    var t := Next(s, step);
    assert t.operations == s.operations && t.next == s.next;
    assert forall c :: c in t.calls ==> c in s.calls || c == s.next;
  }

  lemma OperationKeepsInv(s: State, step: Step, ticket: Ticket)
    requires Inv(s) && Possible(s, step)
    requires step in {Runs(ticket), GoesOn(ticket), LoadSeen(ticket, true)}
    ensures Inv(Next(s, step))
  {
    var t := Next(s, step);
    assert t == s.(operations := s.operations[ticket := t.operations[ticket]]);
    assert Begun(t.operations[ticket]) ==> Released(s, ticket) && forall c :: c in s.calls ==> c > ticket;
    assert t.operations.Keys == s.operations.Keys;
    assert forall u: Ticket :: Released(t, u) <==> Released(s, u);
    hide Next, Released;
  }

  lemma EndKeepsInv(s: State, ticket: Ticket)
    requires Inv(s)
    ensures Inv(s.(operations := s.operations - {ticket}))
  {
    var t := s.(operations := s.operations - {ticket});
    assert forall u: Ticket :: Released(s, u) ==> Released(t, u);
    hide Released;
  }

  lemma ReservationKeepsInv(s: State)
    requires Inv(s)
    ensures Inv(Next(s, Reserves))
  {
  }

  lemma StepKeepsInv(s: State, step: Step)
    requires Inv(s) && Possible(s, step)
    ensures Inv(Next(s, step))
  {
    hide Inv;
    match step
    case Reserves => ReservationKeepsInv(s);
    case Runs(t) => OperationKeepsInv(s, step, t);
    case GoesOn(t) => OperationKeepsInv(s, step, t);
    case LoadSeen(t, ok) => if ok { OperationKeepsInv(s, step, t); } else { EndKeepsInv(s, t); }
    case Returns(t) => EndKeepsInv(s, t);
    case Releases(t) => EndKeepsInv(s, t);
    case _ => OpeningKeepsInv(s, step);
  }

  lemma {:induction false} RunKeepsInv(s: State, steps: seq<Step>)
    requires Inv(s) && Happens(s, steps)
    ensures Inv(Run(s, steps))
    decreases |steps|
  {
    if steps != [] {
      StepKeepsInv(s, steps[0]);
      hide Inv, Next, Possible;
      RunKeepsInv(Next(s, steps[0]), steps[1..]);
    }
  }

  /** Stable open state. In every run at most one operation has begun at a time, and from when it was told whether the
      session is open until it ends, that stays so and no load is under way. */
  lemma ToldStaysTrue(steps: seq<Step>)
    requires Happens(Closed, steps)
    ensures var s := Run(Closed, steps);
      && (forall t, u :: t in s.operations && u in s.operations && Begun(s.operations[t]) && Begun(s.operations[u]) ==> t == u)
      && (forall t :: t in s.operations && s.operations[t].Running? ==> s.operations[t].told == s.isOpen && !s.loading)
  {
    RunKeepsInv(Closed, steps);
    hide Run;
  }

  /** What is left to do without anybody's help. */
  predicate Pending(s: State) {
    s.loading || s.calls != multiset{} || exists t :: t in s.operations && s.operations[t] != Reserved
  }

  /** Nobody waits for ever: whenever something is left to do, something can be done, unless the oldest operation has
      only been reserved, which its caller runs or releases. */
  lemma SomethingGoesOn(steps: seq<Step>) returns (step: Step)
    requires Happens(Closed, steps) && Pending(Run(Closed, steps))
    requires var s := Run(Closed, steps);
      s.operations != map[] ==> exists t :: t in s.operations && s.operations[t] != Reserved && Released(s, t)
    ensures Possible(Run(Closed, steps), step) && !step.OpenCalled? && !step.Reserves? && !step.Runs? && !step.Releases?
  {
    RunKeepsInv(Closed, steps);
    var s := Run(Closed, steps);
    hide Run;
    if s.loading {
      step := LoadReturns(true);
    } else if s.operations == map[] {
      var before :| before in s.calls;
      step := OpenGoesOn(before);
    } else {
      var t :| t in s.operations && s.operations[t] != Reserved && Released(s, t);
      match s.operations[t]
      case Waiting =>
        if exists c :: c in s.calls && c <= t {
          var c :| c in s.calls && c <= t;
          step := OpenGoesOn(c);
        } else {
          step := GoesOn(t);
        }
      case AwaitingLoad => step := LoadSeen(t, true);
      case Running(_) => step := Returns(t);
    }
  }

  /** A call of `open()` that goes on leaves the session open or loading, and a load that succeeds leaves it open. An
      operation waits for the load that it finds, and without one is told at once; ending it lets the next one go on. */
  lemma StepsLead(s: State, step: Step)
    requires Inv(s) && Possible(s, step)
    ensures var t := Next(s, step);
      && (step.OpenCalled? && !s.isOpen ==> t.calls == s.calls + multiset{s.next})
      && (step.OpenGoesOn? ==> (t.isOpen || t.loading) && t.calls == s.calls - multiset{step.before})
      && (step == LoadReturns(true) ==> t.isOpen && !t.loading) && (step == LoadReturns(false) ==> !t.isOpen && !t.loading)
      && (step.Reserves? ==> s.next in t.operations && t.operations[s.next] == Reserved && t.next == s.next + 1)
      && (step.Runs? ==> step.ticket in t.operations && t.operations[step.ticket] == Waiting)
      && (step.GoesOn? ==> t.operations == s.operations[step.ticket := if s.loading then AwaitingLoad else Running(s.isOpen)])
      && (step.Returns? || step.Releases? ==> t.operations == s.operations - {step.ticket})
  {
    hide Released;
  }
}
