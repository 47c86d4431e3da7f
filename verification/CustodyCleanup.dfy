/**
What a run of the custody protocol leaves behind, and what it never does without
having been told or having checked.
*/
module CustodyCleanup {
  import opened Custody
  import opened CustodyProofs

  // ---------- a supervisor that returns leaves nothing ----------

  predicate Spawned(w: World) { !w.leader.NoLeader? }

  /** Nothing of the group runs, and nothing can be started in it. */
  predicate Quenched(w: World) {
    NothingRuns(w) && (Spawned(w) || !w.custodian.Running?)
  }

  lemma QuenchedByEnvironment(w: World, resumed: bool, supervised: bool, e: Step)
    requires Quenched(w) && !e.CustodianStep? && !e.SupervisorStep? && !e.SupervisorDies?
    ensures Quenched(EnvironmentMove(w, resumed, supervised, e).w)
  {
  }

  lemma QuenchedByRetirement(w: World, c: CustodianState, ch: Choice)
    requires Quenched(w) && w.custodian.Running?
    ensures Quenched(RetireStep(w, c, ch).w)
  {
  }

  lemma QuenchedByService(w: World, c: CustodianState, ch: Choice)
    requires Quenched(w) && w.custodian.Running?
    ensures Quenched(ServeStep(w, c, ch).w) && Quenched(SpawnStep(w, c, ch).w)
  {
  }

  lemma QuenchedByCustodian(w: World, c: CustodianState, ch: Choice)
    requires Quenched(w) && w.custodian.Running?
    ensures Quenched(CustodianMove(w, c, ch).w)
  {
    QuenchedByRetirement(w, c, ch);
    QuenchedByService(w, c, ch);
  }

  /** The supervisor starts nothing, and revives nothing. */
  predicate Subsides(w: World, w': World) {
    && w'.live <= w.live && (Spawned(w') <==> Spawned(w))
    && (w'.leader.LeaderAlive? ==> w.leader.LeaderAlive?)
    && (w'.anchor.AnchorAlive? ==> w.anchor.AnchorAlive?)
    && (w'.custodian.Running? ==> w.custodian.Running?)
  }

  lemma SubsidesByWatching(w: World, s: SupervisorState, ch: Choice)
    requires s.pc.Top? || s.pc.ObserveAnchor? || s.pc.ReadIntent? || s.pc.Judge?
    ensures Subsides(w, SupervisorMove(w, s, ch, AnchorFirst).w)
  {
  }

  lemma SubsidesByRecovery(w: World, s: SupervisorState, ch: Choice)
    requires s.pc.RecoverKill? || s.pc.RecoverReap?
    ensures Subsides(w, SupervisorMove(w, s, ch, AnchorFirst).w)
  {
  }

  lemma SubsidesByKilling(w: World, s: SupervisorState, ch: Choice)
    requires s.pc.KillCustodian? || s.pc.KillAnchorGroup?
    ensures Subsides(w, CleanupMove(w, s, ch).w)
  {
  }

  /** After the kills the supervisor reads no more intent, and only moves on. */
  lemma SubsidesByReaping(w: World, s: SupervisorState, ch: Choice)
    requires s.pc.CleanCustodian? || s.pc.CleanAnchor?
    ensures var a := CleanupMove(w, s, ch);
            Subsides(w, a.w) && PastKill(a.s.pc) && a.s.intentSeen == s.intentSeen && a.w.intent == w.intent
  {
  }

  lemma SubsidesByLooking(w: World, s: SupervisorState, ch: Choice)
    requires s.pc.CleanTop? || s.pc.Probe? || s.pc.Return? || s.pc.Finished? || s.pc.Lost?
    ensures var a := CleanupMove(w, s, ch);
            a.w == w && (PastKill(s.pc) ==> PastKill(a.s.pc)) && a.s.intentSeen == s.intentSeen
  {
  }

  lemma SubsidesBySupervisor(w: World, s: SupervisorState, ch: Choice)
    ensures Subsides(w, SupervisorMove(w, s, ch, AnchorFirst).w)
  {
    if s.pc.Top? || s.pc.ObserveAnchor? || s.pc.ReadIntent? || s.pc.Judge? {
      SubsidesByWatching(w, s, ch);
    } else if s.pc.RecoverKill? || s.pc.RecoverReap? {
      SubsidesByRecovery(w, s, ch);
    } else if s.pc.KillCustodian? || s.pc.KillAnchorGroup? {
      SubsidesByKilling(w, s, ch);
    } else if s.pc.CleanCustodian? || s.pc.CleanAnchor? {
      SubsidesByReaping(w, s, ch);
    } else {
      SubsidesByLooking(w, s, ch);
    }
  }

  lemma QuenchedSubsides(w: World, w': World)
    requires Quenched(w) && Subsides(w, w')
    ensures Quenched(w')
  {
  }

  lemma QuenchedBySupervisor(w: World, s: SupervisorState, ch: Choice)
    requires Quenched(w)
    ensures Quenched(SupervisorMove(w, s, ch, AnchorFirst).w)
  {
    SubsidesBySupervisor(w, s, ch);
    QuenchedSubsides(w, SupervisorMove(w, s, ch, AnchorFirst).w);
  }

  lemma QuenchedByMove(st: State, e: Step)
    requires Quenched(st.w)
    ensures Quenched(Move(st, e, AnchorFirst).w)
  {
    if e.CustodianStep? {
      if st.w.custodian.Running? {
        QuenchedByCustodian(st.w, st.c, e.choice);
      }
    } else if e.SupervisorStep? {
      QuenchedBySupervisor(st.w, st.s, e.choice);
    } else if !e.SupervisorDies? {
      QuenchedByEnvironment(st.w, st.c.resumed, SupervisorRuns(st.s), e);
    }
  }

  lemma {:induction false} QuenchedForever(st: State, steps: seq<Step>)
    requires Quenched(st.w)
    ensures Quenched(RunFrom(st, steps, AnchorFirst).w)
    decreases |steps|
  {
    if steps != [] {
      QuenchedByMove(st, steps[0]);
      QuenchedForever(Move(st, steps[0], AnchorFirst), steps[1..]);
    }
  }

  /** The system refuses a group kill of the supervisor. */
  predicate RefusesSupervisor(st: State, e: Step) {
    e == SupervisorStep(Fault) && (st.s.pc.RecoverKill? || st.s.pc.KillAnchorGroup?)
  }

  /** The system refuses the group kill of the custodian's retirement. */
  predicate RefusesCustodian(st: State, e: Step) {
    e == CustodianStep(Fault) && st.c.pc.RetireKill?
  }

  /** No group kill of the supervisor is refused; anything else may fail. */
  predicate SupervisorObeyed(st: State, steps: seq<Step>)
    decreases |steps|
  {
    steps == [] || (!RefusesSupervisor(st, steps[0]) && SupervisorObeyed(Move(st, steps[0], AnchorFirst), steps[1..]))
  }

  predicate CustodianObeyed(st: State, steps: seq<Step>)
    decreases |steps|
  {
    steps == [] || (!RefusesCustodian(st, steps[0]) && CustodianObeyed(Move(st, steps[0], AnchorFirst), steps[1..]))
  }

  predicate PastKill(pc: SupervisorPc) {
    pc.CleanTop? || pc.CleanCustodian? || pc.CleanAnchor? || pc.Probe? || pc.Return? || pc.Finished?
  }

  /** How far the supervisor's kills have reached. */
  predicate Reach(w: World, s: SupervisorState) {
    && (Announced(w, s) ==> Spawned(w))
    && (PastKill(s.pc) || s.pc.RecoverReap? || s.anchorReaped ==> Quenched(w))
    && (s.pc.RecoverKill? ==> Spawned(w))
    && (s.pc.KillAnchorGroup? ==> !w.custodian.Running?)
  }

  lemma ReachByEnvironment(w: World, c: CustodianState, s: SupervisorState, e: Step)
    requires Reach(w, s) && !e.CustodianStep? && !e.SupervisorStep? && !e.SupervisorDies?
    ensures Reach(EnvironmentMove(w, c.resumed, SupervisorRuns(s), e).w, s)
  {
    if Quenched(w) {
      QuenchedByEnvironment(w, c.resumed, SupervisorRuns(s), e);
    }
  }

  /** What the custodian leaves as it is: a leader, and an intent pipe unless it has
      spawned. */
  lemma CustodianAnnounces(w: World, c: CustodianState, s: SupervisorState, ch: Choice)
    requires Good(w, c, s) && w.custodian.Running?
    ensures var w' := CustodianMove(w, c, ch).w;
            && (Spawned(w) ==> Spawned(w'))
            && w'.intent >= w.intent && (w'.intent > w.intent ==> Spawned(w'))
  {
  }

  lemma ReachByCustodian(w: World, c: CustodianState, s: SupervisorState, ch: Choice)
    requires Good(w, c, s) && Reach(w, s) && w.custodian.Running?
    ensures Reach(CustodianMove(w, c, ch).w, s)
  {
    CustodianAnnounces(w, c, s, ch);
    if Quenched(w) {
      QuenchedByCustodian(w, c, ch);
    }
  }

  lemma ReachByLooking(w: World, c: CustodianState, s: SupervisorState, ch: Choice)
    requires Good(w, c, s) && Reach(w, s) && (s.pc.Top? || s.pc.ObserveAnchor?)
    ensures var a := SupervisorMove(w, s, ch, AnchorFirst); Reach(a.w, a.s)
  {
    if Quenched(w) {
      QuenchedBySupervisor(w, s, ch);
    }
  }

  lemma ReachByReading(w: World, c: CustodianState, s: SupervisorState, ch: Choice)
    requires Good(w, c, s) && Reach(w, s) && s.pc.ReadIntent?
    ensures var a := SupervisorMove(w, s, ch, AnchorFirst); Reach(a.w, a.s)
  {
    if Quenched(w) {
      QuenchedBySupervisor(w, s, ch);
    }
  }

  lemma ReachByJudging(w: World, c: CustodianState, s: SupervisorState, ch: Choice)
    requires Good(w, c, s) && Reach(w, s) && s.pc.Judge?
    ensures var a := SupervisorMove(w, s, ch, AnchorFirst); Reach(a.w, a.s)
  {
  }

  lemma ReachByRecovery(w: World, c: CustodianState, s: SupervisorState, ch: Choice)
    requires Good(w, c, s) && Reach(w, s) && (s.pc.RecoverReap? || (s.pc.RecoverKill? && !ch.Fault?))
    ensures var a := SupervisorMove(w, s, ch, AnchorFirst); Reach(a.w, a.s)
  {
    if Quenched(w) {
      QuenchedBySupervisor(w, s, ch);
    }
  }

  lemma ReachByKilling(w: World, c: CustodianState, s: SupervisorState, ch: Choice)
    requires Good(w, c, s) && Reach(w, s) && (s.pc.KillCustodian? || (s.pc.KillAnchorGroup? && !ch.Fault?))
    ensures var a := SupervisorMove(w, s, ch, AnchorFirst); Reach(a.w, a.s)
  {
    if Quenched(w) {
      QuenchedBySupervisor(w, s, ch);
    }
  }

  lemma ReachByCleanup(w: World, c: CustodianState, s: SupervisorState, ch: Choice)
    requires Reach(w, s) && PastKill(s.pc)
    ensures var a := CleanupMove(w, s, ch); Reach(a.w, a.s)
  {
    var a := CleanupMove(w, s, ch);
    if s.pc.CleanCustodian? || s.pc.CleanAnchor? {
      SubsidesByReaping(w, s, ch);
      QuenchedSubsides(w, a.w);
    } else {
      SubsidesByLooking(w, s, ch);
    }
  }

  lemma ReachBySupervisor(w: World, c: CustodianState, s: SupervisorState, ch: Choice)
    requires Good(w, c, s) && Reach(w, s) && SupervisorRuns(s)
    requires ch.Fault? ==> !s.pc.RecoverKill? && !s.pc.KillAnchorGroup?
    ensures var a := SupervisorMove(w, s, ch, AnchorFirst); Reach(a.w, a.s)
  {
    if s.pc.Top? || s.pc.ObserveAnchor? {
      ReachByLooking(w, c, s, ch);
    } else if s.pc.ReadIntent? {
      ReachByReading(w, c, s, ch);
    } else if s.pc.Judge? {
      ReachByJudging(w, c, s, ch);
    } else if s.pc.RecoverKill? || s.pc.RecoverReap? {
      ReachByRecovery(w, c, s, ch);
    } else if s.pc.KillCustodian? || s.pc.KillAnchorGroup? {
      ReachByKilling(w, c, s, ch);
    } else {
      ReachByCleanup(w, c, s, ch);
    }
  }

  lemma ReachByMove(st: State, e: Step)
    requires Invariant(st) && Reach(st.w, st.s) && !RefusesSupervisor(st, e)
    ensures var next := Move(st, e, AnchorFirst); Reach(next.w, next.s)
  {
    if e.CustodianStep? {
      if st.w.custodian.Running? {
        ReachByCustodian(st.w, st.c, st.s, e.choice);
      }
    } else if e.SupervisorStep? {
      if SupervisorRuns(st.s) {
        ReachBySupervisor(st.w, st.c, st.s, e.choice);
      }
    } else if !e.SupervisorDies? {
      ReachByEnvironment(st.w, st.c, st.s, e);
    }
  }

  lemma {:induction false} ReachOfRun(st: State, steps: seq<Step>)
    requires Invariant(st) && Reach(st.w, st.s) && SupervisorObeyed(st, steps)
    ensures var end := RunFrom(st, steps, AnchorFirst); Reach(end.w, end.s)
    decreases |steps|
  {
    if steps != [] {
      InvariantOfMove(st, steps[0]);
      ReachByMove(st, steps[0]);
      ReachOfRun(Move(st, steps[0], AnchorFirst), steps[1..]);
    }
  }

  /** A supervisor that returns, whatever its code, leaves nothing of the group
      running, then or at any later time, unless the system refused one of its group
      kills. (Codes 0 and 1 say so even then.) */
  lemma FinishedLeavesNothing(steps: seq<Step>, later: seq<Step>)
    requires SupervisorObeyed(START, steps) && Run(steps).s.pc.Finished?
    ensures NothingRuns(Run(steps + later).w)
  {
    InvariantOfRun([]);
    ReachOfRun(START, steps);
    RunFromConcat(START, steps, later);
    QuenchedForever(Run(steps), later);
  }

  // ---------- a custodian that exits leaves no target ----------

  /** Neither the leader nor any member it started runs. */
  predicate TargetDown(w: World) { !w.leader.LeaderAlive? && w.live == 0 }

  predicate AfterRetirement(pc: CustodianPc) {
    pc.RetireReap? || pc.RetireProbe? || pc.SendExit? || pc.SendFinal? || pc.Exiting?
  }

  /** How far the custodian's retirement has reached. */
  predicate Retiring(w: World, c: CustodianState) {
    && (w.live > 0 ==> c.resumed)
    && (c.reaped || AfterRetirement(c.pc) || (c.pc.RetireLeader? && c.owned) ==> TargetDown(w))
    && (AfterRetirement(c.pc) && !c.child ==> !Spawned(w))
  }

  lemma RetiringByEnvironment(w: World, c: CustodianState, s: SupervisorState, e: Step)
    requires Good(w, c, s) && Retiring(w, c) && !e.CustodianStep? && !e.SupervisorStep? && !e.SupervisorDies?
    ensures Retiring(EnvironmentMove(w, c.resumed, SupervisorRuns(s), e).w, c)
  {
  }

  lemma RetiringBySupervisor(w: World, c: CustodianState, s: SupervisorState, ch: Choice)
    requires Retiring(w, c)
    ensures Retiring(SupervisorMove(w, s, ch, AnchorFirst).w, c)
  {
    SubsidesBySupervisor(w, s, ch);
    RetiringSubsides(w, SupervisorMove(w, s, ch, AnchorFirst).w, c);
  }

  lemma RetiringSubsides(w: World, w': World, c: CustodianState)
    requires Retiring(w, c) && Subsides(w, w')
    ensures Retiring(w', c)
  {
  }

  lemma RetiringByStarting(w: World, c: CustodianState, s: SupervisorState, ch: Choice)
    requires Good(w, c, s) && Retiring(w, c) && w.custodian.Running?
    requires c.pc.Verifying? || c.pc.SendVerified? || c.pc.AwaitGo? || c.pc.SendCancelled? || c.pc.Spawning?
             || c.pc.Checking? || c.pc.Resuming? || c.pc.SendStarted?
    ensures var a := CustodianMove(w, c, ch); Retiring(a.w, a.c)
  {
  }

  lemma RetiringByServing(w: World, c: CustodianState, s: SupervisorState, ch: Choice)
    requires Good(w, c, s) && Retiring(w, c) && w.custodian.Running?
    requires c.pc.Serving? || c.pc.DeclareKill? || c.pc.SendKill? || c.pc.Done?
    ensures var a := CustodianMove(w, c, ch); Retiring(a.w, a.c)
  {
  }

  lemma RetiringByRetirement(w: World, c: CustodianState, s: SupervisorState, ch: Choice)
    requires Good(w, c, s) && Retiring(w, c) && w.custodian.Running?
    requires c.pc.RetireDeclare? || (c.pc.RetireKill? && !ch.Fault?) || c.pc.RetireLeader?
    ensures var a := CustodianMove(w, c, ch); Retiring(a.w, a.c)
  {
  }

  lemma RetiringByReaping(w: World, c: CustodianState, s: SupervisorState, ch: Choice)
    requires Good(w, c, s) && Retiring(w, c) && w.custodian.Running? && AfterRetirement(c.pc)
    ensures var a := CustodianMove(w, c, ch); Retiring(a.w, a.c)
  {
  }

  lemma RetiringByCustodian(w: World, c: CustodianState, s: SupervisorState, ch: Choice)
    requires Good(w, c, s) && Retiring(w, c) && w.custodian.Running?
    requires ch.Fault? ==> !c.pc.RetireKill?
    ensures var a := CustodianMove(w, c, ch); Retiring(a.w, a.c)
  {
    if AfterRetirement(c.pc) {
      RetiringByReaping(w, c, s, ch);
    } else if c.pc.RetireDeclare? || c.pc.RetireKill? || c.pc.RetireLeader? {
      RetiringByRetirement(w, c, s, ch);
    } else if c.pc.Serving? || c.pc.DeclareKill? || c.pc.SendKill? || c.pc.Done? {
      RetiringByServing(w, c, s, ch);
    } else {
      RetiringByStarting(w, c, s, ch);
    }
  }

  lemma RetiringByMove(st: State, e: Step)
    requires Invariant(st) && Retiring(st.w, st.c) && !RefusesCustodian(st, e)
    ensures var next := Move(st, e, AnchorFirst); Retiring(next.w, next.c)
  {
    if e.CustodianStep? {
      if st.w.custodian.Running? {
        RetiringByCustodian(st.w, st.c, st.s, e.choice);
      }
    } else if e.SupervisorStep? {
      RetiringBySupervisor(st.w, st.c, st.s, e.choice);
    } else if !e.SupervisorDies? {
      RetiringByEnvironment(st.w, st.c, st.s, e);
    }
  }

  lemma {:induction false} RetiringOfRun(st: State, steps: seq<Step>)
    requires Invariant(st) && Retiring(st.w, st.c) && CustodianObeyed(st, steps)
    ensures var end := RunFrom(st, steps, AnchorFirst); Retiring(end.w, end.c)
    decreases |steps|
  {
    if steps != [] {
      InvariantOfMove(st, steps[0]);
      RetiringByMove(st, steps[0]);
      RetiringOfRun(Move(st, steps[0], AnchorFirst), steps[1..]);
    }
  }

  /** A custodian that exits, whatever its code and whatever its last message, leaves
      no process of its target running, unless the system refused its group kill. */
  lemma ExitedLeavesNoTarget(steps: seq<Step>)
    requires CustodianObeyed(START, steps)
    requires !Run(steps).w.custodian.Running? && Run(steps).w.custodian.status.Exited?
    ensures TargetDown(Run(steps).w)
  {
    InvariantOfRun([]);
    RetiringOfRun(START, steps);
    InvariantOfRun(steps);
  }
}
