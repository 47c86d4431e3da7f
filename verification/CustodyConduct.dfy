/**
What the parties of the custody protocol must have been told, must have checked,
or must answer, over whole runs.
*/
module CustodyConduct {
  import opened Custody
  import opened CustodyProofs
  import opened CustodyCleanup

  // ---------- nothing starts unchecked ----------

  /** What a custodian goes through before its target runs: both verifications, the
      message, GO, the suspended spawn and the resume. */
  const CHECKS: seq<CustodianPc> := [Verifying, SendVerified, AwaitGo, Spawning, Checking, Resuming]

  /** At some point of the run the living custodian passed `pc` successfully. */
  ghost predicate Passed(steps: seq<Step>, pc: CustodianPc) {
    exists i :: 0 <= i < |steps| && steps[i] == CustodianStep(Ok)
                && Run(steps[..i]).c.pc == pc && Run(steps[..i]).w.custodian.Running?
  }

  /** How many of the checks lie behind. */
  function Depth(c: CustodianState): nat {
    match c.pc
    case Verifying => 0
    case SendVerified => 1
    case AwaitGo | SendCancelled => 2
    case Spawning => 3
    case Checking => 4
    case Resuming => 5
    case _ => if c.resumed then 6 else if c.owned then 4 else if c.child then 3 else 0
  }

  lemma DepthOfStarting(w: World, c: CustodianState, ch: Choice)
    requires Starting(c.pc) && CustodianShape(c)
    ensures var c' := CustodianMove(w, c, ch).c;
            Depth(c') <= Depth(c) || (Depth(c') == Depth(c) + 1 <= 6 && ch.Ok? && c.pc == CHECKS[Depth(c)])
  {
  }

  predicate Starting(pc: CustodianPc) {
    pc.Verifying? || pc.SendVerified? || pc.AwaitGo? || pc.SendCancelled? || pc.Spawning? || pc.Checking? || pc.Resuming?
  }

  /** What every statement of the custodian keeps to. */
  predicate Conducts(w: World, c: CustodianState, a: CustodianAct) {
    && a.w.live <= w.live
    && (c.resumed ==> a.c.resumed)
    && (a.w.intent > w.intent ==> a.entries == [KillDeclared])
    && (c.commands <= 32 ==> c.commands <= a.c.commands <= 32)
    && (!Starting(c.pc) ==>
          !Starting(a.c.pc) && a.c.resumed == c.resumed && a.c.child == c.child && a.c.owned == c.owned)
    && (CustodianShape(c) && c.owned ==> a.c.owned)
    && (CustodianShape(c) && |a.entries| == 1 && a.entries[0].GroupSignal? ==> c.owned && a.entries[0].party.Custodian?)
    && |a.entries| <= 1
    && (Over(c.pc) ==> Over(a.c.pc))
  }

  /** Service has ended: what is left is retirement, a last message and the exit. */
  predicate Over(pc: CustodianPc) {
    || pc.Done? || pc.RetireDeclare? || pc.RetireKill? || pc.RetireLeader? || pc.RetireReap? || pc.RetireProbe?
    || pc.SendExit? || pc.SendFinal? || pc.Exiting?
  }

  lemma ConductOfHolding(w: World, c: CustodianState, ch: Choice)
    requires c.pc.Verifying? || c.pc.SendVerified? || c.pc.AwaitGo? || c.pc.SendCancelled?
    ensures Conducts(w, c, CustodianMove(w, c, ch))
  {
  }

  lemma ConductOfSpawning(w: World, c: CustodianState, ch: Choice)
    requires c.pc.Spawning? || c.pc.Checking? || c.pc.Resuming?
    ensures Conducts(w, c, CustodianMove(w, c, ch))
  {
  }

  lemma ConductOfServing(w: World, c: CustodianState, ch: Choice)
    requires c.pc.Serving?
    ensures Conducts(w, c, CustodianMove(w, c, ch))
  {
  }

  lemma ConductOfKilling(w: World, c: CustodianState, ch: Choice)
    requires c.pc.SendStarted? || c.pc.DeclareKill? || c.pc.SendKill? || c.pc.Done?
    ensures Conducts(w, c, CustodianMove(w, c, ch))
  {
  }

  lemma ConductOfRetiring(w: World, c: CustodianState, ch: Choice)
    requires c.pc.RetireDeclare? || c.pc.RetireKill? || c.pc.RetireLeader?
    ensures Conducts(w, c, CustodianMove(w, c, ch))
  {
  }

  lemma ConductOfReaping(w: World, c: CustodianState, ch: Choice)
    requires c.pc.RetireReap? || c.pc.RetireProbe?
    ensures Conducts(w, c, CustodianMove(w, c, ch))
  {
  }

  lemma ConductOfEnding(w: World, c: CustodianState, ch: Choice)
    requires c.pc.SendExit? || c.pc.SendFinal? || c.pc.Exiting?
    ensures Conducts(w, c, CustodianMove(w, c, ch))
  {
  }

  lemma ConductOfCustodian(w: World, c: CustodianState, ch: Choice)
    ensures Conducts(w, c, CustodianMove(w, c, ch))
  {
    match c.pc
    case Verifying | SendVerified | AwaitGo | SendCancelled => ConductOfHolding(w, c, ch);
    case Spawning | Checking | Resuming => ConductOfSpawning(w, c, ch);
    case Serving => ConductOfServing(w, c, ch);
    case SendStarted | DeclareKill | SendKill | Done => ConductOfKilling(w, c, ch);
    case RetireDeclare(_) | RetireKill(_) | RetireLeader(_) => ConductOfRetiring(w, c, ch);
    case RetireReap(_) | RetireProbe(_) => ConductOfReaping(w, c, ch);
    case SendExit | SendFinal(_) | Exiting(_) => ConductOfEnding(w, c, ch);
  }

  lemma DepthOfMove(st: State, e: Step)
    requires CustodianShape(st.c)
    ensures var c' := Move(st, e, AnchorFirst).c;
            Depth(c') <= Depth(st.c)
            || (Depth(c') == Depth(st.c) + 1 <= 6 && e == CustodianStep(Ok) && st.w.custodian.Running?
                && st.c.pc == CHECKS[Depth(st.c)])
  {
    if e.CustodianStep? && st.w.custodian.Running? {
      if Starting(st.c.pc) {
        DepthOfStarting(st.w, st.c, e.choice);
      } else {
        ConductOfCustodian(st.w, st.c, e.choice);
      }
    }
  }

  lemma PassedGrows(steps: seq<Step>, e: Step, pc: CustodianPc)
    requires Passed(steps, pc)
    ensures Passed(steps + [e], pc)
  {
    var i :| 0 <= i < |steps| && steps[i] == CustodianStep(Ok)
             && Run(steps[..i]).c.pc == pc && Run(steps[..i]).w.custodian.Running?;
    assert (steps + [e])[i] == steps[i] && (steps + [e])[..i] == steps[..i];
  }

  lemma PassedNow(steps: seq<Step>, pc: CustodianPc)
    requires Run(steps).c.pc == pc && Run(steps).w.custodian.Running?
    ensures Passed(steps + [CustodianStep(Ok)], pc)
  {
    var longer := steps + [CustodianStep(Ok)];
    assert longer[..|steps|] == steps && longer[|steps|] == CustodianStep(Ok);
  }

  lemma RunLast(steps: seq<Step>, e: Step)
    ensures Run(steps + [e]) == Move(Run(steps), e, AnchorFirst)
  {
    RunFromConcat(START, steps, [e]);
    OneStep(Run(steps), e);
  }

  lemma {:induction false} ChecksOfRun(steps: seq<Step>)
    ensures Depth(Run(steps).c) <= 6
    ensures forall k | 0 <= k < Depth(Run(steps).c) :: Passed(steps, CHECKS[k])
  {
    if steps != [] {
      var n := |steps| - 1;
      var init, e := steps[..n], steps[n];
      assert steps == init + [e];
      ChecksOfRun(init);
      InvariantOfRun(init);
      RunLast(init, e);
      DepthOfMove(Run(init), e);
      forall k | 0 <= k < Depth(Run(steps).c)
        ensures Passed(steps, CHECKS[k])
      {
        if k < Depth(Run(init).c) {
          PassedGrows(init, e, CHECKS[k]);
        } else {
          PassedNow(init, CHECKS[k]);
        }
      }
    }
  }

  /** A target is spawned only after the custodian verified what it was given, said
      VERIFIED and read GO, and it is resumed only after a second verification. */
  lemma NothingStartsUnchecked(steps: seq<Step>)
    ensures !Run(steps).w.leader.NoLeader? ==>
              Passed(steps, Verifying) && Passed(steps, SendVerified) && Passed(steps, AwaitGo)
    ensures Run(steps).c.resumed || Run(steps).w.live > 0 ==> forall pc | pc in CHECKS :: Passed(steps, pc)
  {
    InvariantOfRun(steps);
    ChecksOfRun(steps);
    MembersAreResumed(steps);
    var c := Run(steps).c;
    if c.child {
      assert Passed(steps, CHECKS[0]) && Passed(steps, CHECKS[1]) && Passed(steps, CHECKS[2]);
    }
  }

  lemma {:induction false} MembersAreResumed(steps: seq<Step>)
    ensures Run(steps).w.live > 0 ==> Run(steps).c.resumed
  {
    if steps != [] {
      var n := |steps| - 1;
      assert steps == steps[..n] + [steps[n]];
      MembersAreResumed(steps[..n]);
      RunLast(steps[..n], steps[n]);
      MembersOfMove(Run(steps[..n]), steps[n]);
    }
  }

  lemma MembersOfMove(st: State, e: Step)
    requires st.w.live > 0 ==> st.c.resumed
    ensures var next := Move(st, e, AnchorFirst); next.w.live > 0 ==> next.c.resumed
  {
    if e.CustodianStep? {
      if st.w.custodian.Running? {
        ConductOfCustodian(st.w, st.c, e.choice);
      }
    } else if e.SupervisorStep? {
      SubsidesBySupervisor(st.w, st.s, e.choice);
    }
  }

  /** The custodian signals the group only after a spawn whose group it verified. */
  lemma SignalsNeedOwnership(steps: seq<Step>, x: Entry)
    requires x in Run(steps).log && IsSignal(x, Custodian)
    ensures Passed(steps, Spawning)
  {
    SignalsAreOwned(steps);
    ChecksOfRun(steps);
    InvariantOfRun(steps);
    assert Depth(Run(steps).c) > 3;
    assert Passed(steps, CHECKS[3]);
  }

  lemma {:induction false} SignalsAreOwned(steps: seq<Step>)
    ensures Owned(Run(steps).log, Run(steps).c)
  {
    if steps != [] {
      var n := |steps| - 1;
      assert steps == steps[..n] + [steps[n]];
      SignalsAreOwned(steps[..n]);
      InvariantOfRun(steps[..n]);
      RunLast(steps[..n], steps[n]);
      OwnedByMove(Run(steps[..n]), steps[n]);
    }
  }

  predicate Owned(log: seq<Entry>, c: CustodianState) {
    forall x | x in log && IsSignal(x, Custodian) :: c.owned
  }

  lemma OwnedGrows(log: seq<Entry>, entries: seq<Entry>, c: CustodianState, c': CustodianState)
    requires Owned(log, c) && |entries| <= 1 && (c.owned ==> c'.owned)
    requires |entries| == 1 && IsSignal(entries[0], Custodian) ==> c.owned
    ensures Owned(log + entries, c')
  {
  }

  lemma OwnedBySupervisor(w: World, c: CustodianState, s: SupervisorState, ch: Choice)
    requires Good(w, c, s) && SupervisorRuns(s)
    ensures var a := SupervisorMove(w, s, ch, AnchorFirst);
            |a.entries| <= 1 && (|a.entries| == 1 ==> !IsSignal(a.entries[0], Custodian))
  {
    KeptBySupervisor(w, c, s, ch);
  }

  lemma OwnedByMove(st: State, e: Step)
    requires Invariant(st) && Owned(st.log, st.c)
    ensures var next := Move(st, e, AnchorFirst); Owned(next.log, next.c)
  {
    if e.CustodianStep? {
      if st.w.custodian.Running? {
        var a := CustodianMove(st.w, st.c, e.choice);
        ConductOfCustodian(st.w, st.c, e.choice);
        OwnedGrows(st.log, a.entries, st.c, a.c);
      }
    } else if e.SupervisorStep? {
      if SupervisorRuns(st.s) {
        OwnedBySupervisor(st.w, st.c, st.s, e.choice);
        OwnedGrows(st.log, SupervisorMove(st.w, st.s, e.choice, AnchorFirst).entries, st.c, st.c);
      }
    } else if !e.SupervisorDies? {
      OwnedGrows(st.log, EnvironmentMove(st.w, st.c.resumed, SupervisorRuns(st.s), e).entries, st.c, st.c);
    }
  }

  // ---------- a KILL command is carried out ----------

  predicate Silent(steps: seq<Step>) { forall e | e in steps :: !e.CustodianStep? }

  lemma {:induction false} OthersKeepCustodian(st: State, steps: seq<Step>)
    requires Silent(steps)
    ensures RunFrom(st, steps, AnchorFirst).c == st.c
    decreases |steps|
  {
    if steps != [] {
      assert steps[0] in steps;
      OthersKeepCustodian(Move(st, steps[0], AnchorFirst), steps[1..]);
    }
  }

  /** A custodian that reads KILL or CANCEL while it serves declares the kill and
      sends it with its next two statements: whatever the others do meanwhile, if it
      lives to run them and the kill is not refused, nothing of the group runs then
      or at any later time. */
  lemma KillCommandLeavesNoSurvivor(before: seq<Step>, command: Choice, a: seq<Step>, x: Choice, b: seq<Step>, y: Choice,
                                    later: seq<Step>)
    requires Run(before).c.pc.Serving? && Run(before).c.commands < 32 && (command.Kill? || command.Cancel?)
    requires Silent(a) && Silent(b) && !y.Fault?
    requires var read := RunFrom(Move(Run(before), CustodianStep(command), AnchorFirst), a, AnchorFirst);
             RunFrom(Move(read, CustodianStep(x), AnchorFirst), b, AnchorFirst).w.custodian.Running?
    ensures var read := RunFrom(Move(Run(before), CustodianStep(command), AnchorFirst), a, AnchorFirst);
            var declared := RunFrom(Move(read, CustodianStep(x), AnchorFirst), b, AnchorFirst);
            NothingRuns(RunFrom(Move(declared, CustodianStep(y), AnchorFirst), later, AnchorFirst).w)
  {
    var s0 := Run(before);
    var s2 := RunFrom(Move(s0, CustodianStep(command), AnchorFirst), a, AnchorFirst);
    var s4 := RunFrom(Move(s2, CustodianStep(x), AnchorFirst), b, AnchorFirst);
    InvariantOfRun(before);
    RunningBefore(s2, CustodianStep(x), b);
    CommandRead(s0, command, a);
    KillDeclaredNext(s2, x, b);
    SendsKill(s4, y);
    QuenchedForever(Move(s4, CustodianStep(y), AnchorFirst), later);
  }

  lemma RunningBefore(st: State, e: Step, steps: seq<Step>)
    requires RunFrom(Move(st, e, AnchorFirst), steps, AnchorFirst).w.custodian.Running?
    ensures st.w.custodian.Running?
  {
    RatchetOfMove(st, e);
    RatchetOfRun(Move(st, e, AnchorFirst), steps);
  }

  lemma CommandRead(st: State, command: Choice, a: seq<Step>)
    requires Invariant(st) && st.c.pc.Serving? && st.c.commands < 32 && (command.Kill? || command.Cancel?) && Silent(a)
    requires RunFrom(Move(st, CustodianStep(command), AnchorFirst), a, AnchorFirst).w.custodian.Running?
    ensures var next := RunFrom(Move(st, CustodianStep(command), AnchorFirst), a, AnchorFirst);
            Invariant(next) && next.c.pc.DeclareKill?
  {
    RunningBefore(st, CustodianStep(command), a);
    InvariantOfMove(st, CustodianStep(command));
    InvariantOfRunFrom(Move(st, CustodianStep(command), AnchorFirst), a);
    OthersKeepCustodian(Move(st, CustodianStep(command), AnchorFirst), a);
    ReadsKill(st.w, st.c, command);
  }

  lemma KillDeclaredNext(st: State, x: Choice, b: seq<Step>)
    requires Invariant(st) && st.c.pc.DeclareKill? && Silent(b)
    requires RunFrom(Move(st, CustodianStep(x), AnchorFirst), b, AnchorFirst).w.custodian.Running?
    ensures var next := RunFrom(Move(st, CustodianStep(x), AnchorFirst), b, AnchorFirst);
            Invariant(next) && next.c.pc.SendKill?
  {
    RunningBefore(st, CustodianStep(x), b);
    InvariantOfMove(st, CustodianStep(x));
    InvariantOfRunFrom(Move(st, CustodianStep(x), AnchorFirst), b);
    OthersKeepCustodian(Move(st, CustodianStep(x), AnchorFirst), b);
    DeclaresKill(st.w, st.c, x);
  }

  lemma ReadsKill(w: World, c: CustodianState, command: Choice)
    requires c.pc.Serving? && c.commands < 32 && (command.Kill? || command.Cancel?)
    ensures CustodianMove(w, c, command).c.pc == DeclareKill
  {
  }

  lemma DeclaresKill(w: World, c: CustodianState, x: Choice)
    requires c.pc.DeclareKill?
    ensures CustodianMove(w, c, x).c.pc == SendKill
  {
  }

  lemma SendsKill(st: State, y: Choice)
    requires Invariant(st) && st.c.pc.SendKill? && st.w.custodian.Running? && !y.Fault?
    ensures Quenched(Move(st, CustodianStep(y), AnchorFirst).w)
  {
  }

  // ---------- commands are bounded ----------

  /** A custodian carries out at most 32 commands. */
  lemma {:induction false} CommandsAreBounded(steps: seq<Step>)
    ensures Run(steps).c.commands <= 32
  {
    if steps != [] {
      var n := |steps| - 1;
      assert steps == steps[..n] + [steps[n]];
      CommandsAreBounded(steps[..n]);
      RunLast(steps[..n], steps[n]);
      if steps[n].CustodianStep? {
        ConductOfCustodian(Run(steps[..n]).w, Run(steps[..n]).c, steps[n].choice);
      }
    }
  }

  // ---------- service ends for good ----------

  /** What ends service: the leader has finished, the deadline has passed, an error,
      anything but a command, a TERM that is refused, and the 33rd command. */
  predicate EndsService(w: World, c: CustodianState, ch: Choice) {
    || (ch.Finish? && w.leader.LeaderZombie?)
    || ch.Expired? || ch.Fault? || ch.Ok? || ch.Unowned? || ch.TermRefused?
    || (c.commands == 32 && (ch.Term? || ch.Kill? || ch.Cancel?))
  }

  lemma ServiceEnds(w: World, c: CustodianState, ch: Choice)
    requires c.pc.Serving? && c.commands <= 32
    ensures Over(CustodianMove(w, c, ch).c.pc) <==> EndsService(w, c, ch)
  {
  }

  lemma {:induction false} OverForever(st: State, steps: seq<Step>)
    requires Over(st.c.pc)
    ensures Over(RunFrom(st, steps, AnchorFirst).c.pc)
    decreases |steps|
  {
    if steps != [] {
      if steps[0].CustodianStep? {
        ConductOfCustodian(st.w, st.c, steps[0].choice);
      }
      OverForever(Move(st, steps[0], AnchorFirst), steps[1..]);
    }
  }

  /** A living custodian that serves goes on serving, or on to a kill it was told of,
      unless something ends service; once that happens it never serves again. */
  lemma ServiceEndsForGood(steps: seq<Step>, ch: Choice, later: seq<Step>)
    requires Run(steps).c.pc.Serving? && Run(steps).w.custodian.Running?
    ensures var next := Move(Run(steps), CustodianStep(ch), AnchorFirst);
            if EndsService(Run(steps).w, Run(steps).c, ch) then Over(RunFrom(next, later, AnchorFirst).c.pc)
            else next.c.pc.Serving? || next.c.pc.DeclareKill?
  {
    CommandsAreBounded(steps);
    ServiceEnds(Run(steps).w, Run(steps).c, ch);
    if EndsService(Run(steps).w, Run(steps).c, ch) {
      OverForever(Move(Run(steps), CustodianStep(ch), AnchorFirst), later);
    }
  }

  // ---------- an undeclared loss is never excused ----------

  /** Whatever the supervisor has read or may read was declared. */
  ghost predicate Heard(st: State) {
    Announced(st.w, st.s) ==> KillDeclared in st.log
  }

  lemma HeardOfSupervisor(w: World, s: SupervisorState, ch: Choice)
    requires s.pc.ReadIntent?
    ensures var a := SupervisorMove(w, s, ch, AnchorFirst); Announced(a.w, a.s) ==> Announced(w, s)
  {
  }

  lemma OnlyReadingHears(w: World, s: SupervisorState, ch: Choice)
    requires s.pc.Top? || s.pc.ObserveAnchor? || s.pc.Judge? || s.pc.RecoverKill? || s.pc.RecoverReap?
    ensures var a := SupervisorMove(w, s, ch, AnchorFirst); a.w.intent == w.intent && a.s.intentSeen == s.intentSeen
  {
  }

  lemma KillingHearsNothing(w: World, s: SupervisorState, ch: Choice)
    requires s.pc.KillCustodian? || s.pc.KillAnchorGroup?
    ensures var a := CleanupMove(w, s, ch); a.w.intent == w.intent && a.s.intentSeen == s.intentSeen
  {
  }

  lemma CleanupHearsNothing(w: World, s: SupervisorState, ch: Choice)
    requires PastKill(s.pc) || s.pc.KillCustodian? || s.pc.KillAnchorGroup? || s.pc.Lost?
    ensures var a := CleanupMove(w, s, ch); a.w.intent == w.intent && a.s.intentSeen == s.intentSeen
  {
    if s.pc.KillCustodian? || s.pc.KillAnchorGroup? {
      KillingHearsNothing(w, s, ch);
    } else if s.pc.CleanCustodian? || s.pc.CleanAnchor? {
      SubsidesByReaping(w, s, ch);
    } else {
      SubsidesByLooking(w, s, ch);
    }
  }

  lemma HeardOfMove(st: State, e: Step)
    requires Heard(st)
    ensures Heard(Move(st, e, AnchorFirst))
  {
    if e.CustodianStep? {
      if st.w.custodian.Running? {
        ConductOfCustodian(st.w, st.c, e.choice);
      }
    } else if e.SupervisorStep? {
      if st.s.pc.ReadIntent? {
        HeardOfSupervisor(st.w, st.s, e.choice);
      } else if st.s.pc.Top? || st.s.pc.ObserveAnchor? || st.s.pc.Judge? || st.s.pc.RecoverKill? || st.s.pc.RecoverReap? {
        OnlyReadingHears(st.w, st.s, e.choice);
      } else {
        CleanupHearsNothing(st.w, st.s, e.choice);
      }
    }
  }

  lemma {:induction false} HeardOfRun(st: State, steps: seq<Step>)
    requires Heard(st)
    ensures Heard(RunFrom(st, steps, AnchorFirst))
    decreases |steps|
  {
    if steps != [] {
      HeardOfMove(st, steps[0]);
      HeardOfRun(Move(st, steps[0], AnchorFirst), steps[1..]);
    }
  }

  /** The supervisor is about to judge a loss nobody declared, or has judged it. */
  predicate Condemns(s: SupervisorState) {
    || s.unexpected || s.pc.Lost?
    || (s.pc.Judge? && s.anchorExited && !s.anchorReaped && !s.custodianDone && !s.intentSeen)
  }

  lemma CondemnsForever(w: World, c: CustodianState, s: SupervisorState, ch: Choice)
    requires Good(w, c, s) && SupervisorRuns(s) && Condemns(s)
    ensures Condemns(SupervisorMove(w, s, ch, AnchorFirst).s)
  {
    KeptBySupervisor(w, c, s, ch);
  }

  lemma {:induction false} CondemnedRun(st: State, steps: seq<Step>)
    requires Invariant(st) && Condemns(st.s)
    ensures Condemns(RunFrom(st, steps, AnchorFirst).s)
    decreases |steps|
  {
    if steps != [] {
      InvariantOfMove(st, steps[0]);
      if steps[0].SupervisorStep? && SupervisorRuns(st.s) {
        CondemnsForever(st.w, st.c, st.s, steps[0].choice);
      }
      CondemnedRun(Move(st, steps[0], AnchorFirst), steps[1..]);
    }
  }

  /** An anchor seen dead while the custodian is not reaped and no kill was declared
      is never excused: whatever follows, the supervisor returns 2 or not at all. */
  lemma UndeclaredLossIsNeverExcused(steps: seq<Step>, later: seq<Step>, code: int)
    requires Run(steps).s.pc.Judge? && Run(steps).s.anchorExited && !Run(steps).s.anchorReaped
    requires !Run(steps).s.custodianDone && KillDeclared !in Run(steps).log
    requires Run(steps + later).s.pc == Finished(code)
    ensures code == 2
  {
    HeardOfRun(START, steps);
    InvariantOfRun(steps);
    CondemnedRun(Run(steps), later);
    RunFromConcat(START, steps, later);
    InvariantOfRun(steps + later);
  }
}
