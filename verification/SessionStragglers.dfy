/** A completion of a folder move that ends after its mutation: exactly when it breaks what the manager promises. */
module SessionStragglers {
  import opened Wrappers
  import opened VaultPaths
  import opened SessionProtocol
  import opened SessionSafety
  import opened SessionMutations

  // ---------------------------------------------------------------------------
  // What a late completion disturbs
  // ---------------------------------------------------------------------------

  /** The late session is put under its target; an unused one that is not open is dropped instead. */
  predicate Arrives(s: State, g: Straggler) { InUse(s, g.sid) || g.sid in s.live }

  /** Somebody holds another session under a path that the late completion empties or takes. */
  predicate Evicts(s: State, g: Straggler, path: Path) {
    path in s.sessions && s.sessions[path] != g.sid && InUse(s, s.sessions[path]) && s.sessions[path] !in s.deleted
  }

  /** The late session is by now the session of a third path. */
  predicate Doubles(s: State, g: Straggler) {
    exists q :: q in s.sessions && q != g.source && q != g.target && s.sessions[q] == g.sid
  }

  /** The running mutation has picked the late session at another path or another session at the target, or
      it is going to move another session to the target. */
  predicate MixesUp(s: State, g: Straggler) {
    exists f :: f in Targets(s) &&
      (if Targets(s)[f] == g.sid then f != g.target
       else f == g.target || (GoesSomewhere(s) && Destination(s.queue[0].job, f) == g.target))
  }

  predicate GoesSomewhere(s: State) {
    (s.phase.Opening? || s.phase.Moving?) && s.queue != [] && Disjoint(s.queue[0].job)
  }

  /** The late session is being closed, or its target is kept empty by the running close or delete. */
  predicate Intrudes(s: State, g: Straggler) {
    || (s.phase.Closing? && s.queue != [] && s.queue[0].job.IdleClose?
        && (s.phase.sid == g.sid || s.queue[0].job.path == g.target))
    || (s.phase.Deleting? && s.phase.target.None? && s.phase.path == g.target)
  }

  /** The late session is under a stable-open barrier of an operation on another path. */
  predicate EscapesBarrier(s: State, g: Straggler) {
    exists i :: 0 <= i < |s.queue| && s.queue[i].job.StablePath? && s.queue[i].job.path != g.target
      && (g.sid, s.queue[i].ticket) in s.barriers
  }

  /** What a caller of the completion could check before it rekeys its session. */
  predicate DisturbsAt(s: State, g: Straggler) {
    || Evicts(s, g, g.source) || Evicts(s, g, g.target)
    || (Arrives(s, g) && (Doubles(s, g) || MixesUp(s, g) || Intrudes(s, g) || EscapesBarrier(s, g)))
  }

  predicate Disturbs(s: State, step: Step) {
    step.StragglerMoves? && step.straggler in s.stragglers && DisturbsAt(s, step.straggler)
  }

  // ---------------------------------------------------------------------------
  // The state after a late completion
  // ---------------------------------------------------------------------------

  ghost predicate Late(s: State, g: Straggler, t: State) {
    && t == s.(sessions := t.sessions, timers := t.timers, stragglers := s.stragglers - {g})
    && t.sessions == if Arrives(s, g) then (s.sessions - {g.source})[g.target := g.sid]
                     else s.sessions - {g.source, g.target}
  }

  lemma LateState(s: State, g: Straggler)
    requires g in s.stragglers
    ensures Late(s, g, StragglerRekeyed(s, g))
  {
  }

  lemma LateKeepsPlace(s: State, g: Straggler, t: State, sid: SessionId)
    requires Late(s, g, t) && Injective(s.sessions) && NoneLost(s) && InUse(s, sid) && sid !in s.deleted
    ensures Placed(t, sid) <==>
      !(Evicts(s, g, g.source) && s.sessions[g.source] == sid) && !(Evicts(s, g, g.target) && s.sessions[g.target] == sid)
  {
    hide InUse;
    var p :| p in s.sessions && s.sessions[p] == sid;
    if sid == g.sid {
      assert t.sessions[g.target] == sid;
    } else if p != g.source && p != g.target {
      assert t.sessions[p] == sid;
    }
  }

  lemma LateKeepsPlaces(s: State, g: Straggler, t: State)
    requires Late(s, g, t) && Injective(s.sessions) && NoneLost(s)
    ensures NoneLost(t) <==> !Evicts(s, g, g.source) && !Evicts(s, g, g.target)
  {
    hide Placed;
    assert forall sid :: InUse(t, sid) <==> InUse(s, sid);
    forall sid | InUse(s, sid) && sid !in s.deleted
      ensures Placed(t, sid) <==>
        !(Evicts(s, g, g.source) && s.sessions[g.source] == sid) && !(Evicts(s, g, g.target) && s.sessions[g.target] == sid)
    {
      LateKeepsPlace(s, g, t, sid);
    }
    if Evicts(s, g, g.source) {
      assert !Placed(t, s.sessions[g.source]);
    }
    if Evicts(s, g, g.target) {
      assert !Placed(t, s.sessions[g.target]);
    }
  }

  lemma LateKeepsOnePath(s: State, g: Straggler, t: State)
    requires Late(s, g, t) && Injective(s.sessions)
    ensures Injective(t.sessions) <==> !(Arrives(s, g) && Doubles(s, g))
  {
    hide InUse;
    if Arrives(s, g) && Doubles(s, g) {
      var q :| q in s.sessions && q != g.source && q != g.target && s.sessions[q] == g.sid;
      assert t.sessions[q] == t.sessions[g.target] == g.sid;
    }
  }

  /** Of the promises about the running mutation, what concerns the paths it has picked. */
  ghost predicate PicksInPlace(s: State) {
    && (forall f :: f in Targets(s) && f in s.sessions ==> s.sessions[f] == Targets(s)[f])
    && (forall f, p :: f in Targets(s) && p in s.sessions && s.sessions[p] == Targets(s)[f] ==> p == f)
    && DestinationsInv(s)
  }

  lemma LateKeepsPicks(s: State, g: Straggler, t: State)
    requires Late(s, g, t) && PicksInPlace(s)
    ensures PicksInPlace(t) <==> !(Arrives(s, g) && MixesUp(s, g))
  {
    assert Targets(t) == Targets(s) && GoesSomewhere(t) == GoesSomewhere(s);
    hide Arrives, Targets;
    if Arrives(s, g) && MixesUp(s, g) {
      var f :| f in Targets(s) &&
        (if Targets(s)[f] == g.sid then f != g.target
         else f == g.target || (GoesSomewhere(s) && Destination(s.queue[0].job, f) == g.target));
      assert t.sessions[g.target] == g.sid;
      hide Disjoint, Destination;
    }
  }

  lemma LateKeepsTargets(s: State, g: Straggler, t: State)
    requires Late(s, g, t) && TargetsInv(s) && PicksInPlace(t)
    ensures TargetsInv(t) && DestinationsInv(t)
  {
    assert Targets(t) == Targets(s);
    hide Arrives, DestinationsInv;
  }

  lemma LateKeepsEmpty(s: State, g: Straggler, t: State)
    requires Late(s, g, t) && ClosingInv(s)
    ensures ClosingInv(t) <==> !(Arrives(s, g) && Intrudes(s, g))
  {
    assert forall sid :: InUse(t, sid) <==> InUse(s, sid);
    if Arrives(s, g) {
      assert t.sessions[g.target] == g.sid;
      assert Placed(t, g.sid);
    }
    hide InUse, Arrives;
  }

  lemma LateKeepsBarriers(s: State, g: Straggler, t: State)
    requires Late(s, g, t) && BarriersInv(s) && !(Arrives(s, g) && (Doubles(s, g) || EscapesBarrier(s, g)))
    ensures BarriersInv(t)
  {
    hide Arrives;
    forall b | b in t.barriers
      ensures exists i :: 0 <= i < |t.queue| && Owns(t, i, b)
    {
      var i :| 0 <= i < |s.queue| && Owns(s, i, b);
      assert Owns(t, i, b);
    }
  }

  lemma LateBreaksBarriers(s: State, g: Straggler, t: State)
    requires Late(s, g, t) && TicketsInv(s) && Arrives(s, g) && EscapesBarrier(s, g)
    ensures !BarriersInv(t)
  {
    hide Arrives;
    var i :| 0 <= i < |s.queue| && s.queue[i].job.StablePath? && s.queue[i].job.path != g.target
      && (g.sid, s.queue[i].ticket) in s.barriers;
    var b := (g.sid, s.queue[i].ticket);
    assert t.sessions[g.target] == g.sid;
    forall k | 0 <= k < |t.queue|
      ensures !Owns(t, k, b)
    {
      if k != i {
        assert s.queue[k].ticket != s.queue[i].ticket;
      }
    }
  }

  // ---------------------------------------------------------------------------
  // Every step
  // ---------------------------------------------------------------------------

  lemma InvPicks(s: State)
    requires Inv(s)
    ensures PicksInPlace(s)
  {
  }

  lemma LateKeepsInv(s: State, g: Straggler)
    requires Inv(s) && g in s.stragglers && !DisturbsAt(s, g)
    ensures Inv(StragglerRekeyed(s, g))
  {
    var t := StragglerRekeyed(s, g);
    LateState(s, g);
    InvPicks(s);
    LateKeepsPlaces(s, g, t);
    LateKeepsOnePath(s, g, t);
    LateKeepsPicks(s, g, t);
    LateKeepsTargets(s, g, t);
    LateKeepsEmpty(s, g, t);
    LateKeepsBarriers(s, g, t);
    LateKeepsRest(s, g, t);
    hide Late, PicksInPlace, TargetsInv, DestinationsInv, ClosingInv, BarriersInv, NoneLost, Injective, StragglerRekeyed;
  }

  lemma LateKeepsRest(s: State, g: Straggler, t: State)
    requires Inv(s) && Late(s, g, t) && g in s.stragglers
    ensures IdsInv(t) && PhaseInv(t) && RestInv(t) && TicketsInv(t) && StragglersInv(t)
    ensures t.clientCounts == s.clientCounts && t.leases == s.leases
    ensures t.operationCounts == s.operationCounts && t.operations == s.operations
  {
    hide Arrives;
  }

  lemma StepKeepsInv(s: State, step: Step)
    requires Inv(s) && Possible(s, step) && !Disturbs(s, step)
    ensures Inv(Next(s, step))
  {
    if step.StragglerMoves? {
      if step.straggler in s.stragglers {
        LateKeepsInv(s, step.straggler);
      }
      hide Inv, DisturbsAt;
    } else {
      OrderlyStepKeepsInv(s, step);
    }
  }
}
