/**
Two concrete runs of the custody protocol. One shows that the order of the
supervisor's two observations is necessary; the other that exit code 2 does not
exclude a custodian that ended cleanly.
*/
module CustodyExamples {
  import opened Custody
  import opened CustodyProofs

  const GO := CustodianStep(Ok)
  const WATCH := SupervisorStep(Ok)

  lemma {:induction false} RunSnoc(st: State, steps: seq<Step>, e: Step, order: Order)
    ensures RunFrom(st, steps + [e], order) == Move(RunFrom(st, steps, order), e, order)
    decreases |steps|
  {
    if steps == [] {
      assert [e][1..] == [];
      assert RunFrom(st, [e], order) == RunFrom(Move(st, e, order), [], order);
      assert steps + [e] == [e];
    } else {
      assert (steps + [e])[1..] == steps[1..] + [e];
      RunSnoc(Move(st, steps[0], order), steps[1..], e, order);
    }
  }

  /** Extends a run by one step to the state it is known to lead to. */
  lemma Then(steps: seq<Step>, order: Order, st: State, e: Step, next: State) returns (longer: seq<Step>)
    requires RunFrom(START, steps, order) == st
    requires Move(st, e, order) == next
    ensures longer == steps + [e]
    ensures RunFrom(START, longer, order) == next
  {
    RunSnoc(START, steps, e, order);
    longer := steps + [e];
  }

  function At(st: State, pc: CustodianPc): State { st.(c := st.c.(pc := pc)) }

  function Watches(st: State, pc: SupervisorPc): State { st.(s := st.s.(pc := pc)) }

  function Tells(st: State, x: Entry): State { st.(log := st.log + [x]) }

  lemma ReachSpawning(order: Order) returns (steps: seq<Step>)
    ensures RunFrom(START, steps, order) == Tells(At(START, Spawning), Sent(Verified))
  {
    var b, c := At(START, SendVerified), Tells(At(START, AwaitGo), Sent(Verified));
    steps := Then([], order, START, GO, b);
    steps := Then(steps, order, b, GO, c);
    steps := Then(steps, order, c, GO, At(c, Spawning));
  }

  /** The target runs and the custodian serves commands. */
  const SERVING := State(
    START.w.(leader := LeaderAlive),
    START.c.(pc := Serving, child := true, owned := true, resumed := true),
    START.s,
    [Sent(Verified), Sent(Started)])

  lemma ReachServing(order: Order) returns (steps: seq<Step>)
    ensures RunFrom(START, steps, order) == SERVING
  {
    steps := ReachSpawning(order);
    var a := Tells(At(START, Spawning), Sent(Verified));
    var b := State(SERVING.w, SERVING.c.(pc := Checking, resumed := false), START.s, a.log);
    var c := At(b, Resuming);
    var d := b.(c := SERVING.c.(pc := SendStarted));
    steps := Then(steps, order, a, GO, b);
    steps := Then(steps, order, b, GO, c);
    steps := Then(steps, order, c, GO, d);
    steps := Then(steps, order, d, GO, SERVING);
  }

  /** The pipe was read while empty; then the custodian declared and killed. */
  const KILLED := State(
    World(AnchorZombie(ByCustodian), LeaderZombie(Signaled(9)), 0, 0, false, Running, 1, false),
    SERVING.c.(commands := 1),
    START.s.(pc := ObserveAnchor),
    [Sent(Verified), Sent(Started), KillDeclared, GroupSignal(Custodian, true, false)])

  lemma ReachSilence() returns (steps: seq<Step>)
    ensures RunFrom(START, steps, IntentFirst) == Watches(SERVING, ObserveAnchor)
  {
    steps := ReachServing(IntentFirst);
    var read := Watches(SERVING, ReadIntent);
    steps := Then(steps, IntentFirst, SERVING, WATCH, read);
    steps := Then(steps, IntentFirst, read, WATCH, Watches(SERVING, ObserveAnchor));
  }

  lemma ReachAsked() returns (steps: seq<Step>)
    ensures RunFrom(START, steps, IntentFirst)
         == Watches(SERVING, ObserveAnchor).(c := SERVING.c.(pc := DeclareKill, commands := 1))
  {
    steps := ReachSilence();
    var silent := Watches(SERVING, ObserveAnchor);
    steps := Then(steps, IntentFirst, silent, CustodianStep(Kill),
                  silent.(c := SERVING.c.(pc := DeclareKill, commands := 1)));
  }

  lemma ReachKilled() returns (steps: seq<Step>)
    ensures RunFrom(START, steps, IntentFirst) == KILLED
  {
    steps := ReachAsked();
    var asked := Watches(SERVING, ObserveAnchor).(c := SERVING.c.(pc := DeclareKill, commands := 1));
    var declared := Tells(At(asked, SendKill).(w := SERVING.w.(intent := 1)), KillDeclared);
    steps := Then(steps, IntentFirst, asked, GO, declared);
    steps := Then(steps, IntentFirst, declared, GO, KILLED);
  }

  const SEEN := State(KILLED.w, KILLED.c, START.s.(pc := Judge, anchorExited := true), KILLED.log)

  const MISJUDGED := State(
    KILLED.w, KILLED.c, START.s.(pc := KillCustodian, anchorExited := true, unexpected := true),
    [Sent(Verified), Sent(Started), KillDeclared, GroupSignal(Custodian, true, false), AnchorLossUnexpected(ByCustodian)])

  lemma ReachSeen() returns (steps: seq<Step>)
    ensures RunFrom(START, steps, IntentFirst) == SEEN
  {
    steps := ReachKilled();
    steps := Then(steps, IntentFirst, KILLED, WATCH, SEEN);
  }

  lemma ReachMisjudged() returns (steps: seq<Step>)
    ensures RunFrom(START, steps, IntentFirst) == MISJUDGED
  {
    steps := ReachSeen();
    steps := Then(steps, IntentFirst, SEEN, WATCH, MISJUDGED);
  }

  /** With the two observations swapped, a kill that the custodian declared first
      can still be judged an unexpected loss: the pipe is read while it is empty,
      then the custodian declares and kills, then the dead anchor is seen. */
  lemma SwappedObservationsMisjudge() returns (steps: seq<Step>)
    ensures AnchorLossUnexpected(ByCustodian) in RunFrom(START, steps, IntentFirst).log
  {
    steps := ReachMisjudged();
    assert MISJUDGED.log[4] == AnchorLossUnexpected(ByCustodian);
  }

  lemma ReachHold() returns (steps: seq<Step>)
    ensures Run(steps) == Tells(At(START, AwaitGo), Sent(Verified))
  {
    var b := At(START, SendVerified);
    steps := Then([], AnchorFirst, START, GO, b);
    steps := Then(steps, AnchorFirst, b, GO, Tells(At(START, AwaitGo), Sent(Verified)));
  }

  /** The supervisor has looked at the custodian, which is then told to cancel. */
  lemma ReachCancelling() returns (steps: seq<Step>)
    ensures Run(steps) == Tells(Watches(At(START, SendCancelled), ObserveAnchor), Sent(Verified))
  {
    var c := Tells(At(START, AwaitGo), Sent(Verified));
    var d := Watches(c, ObserveAnchor);
    steps := ReachHold();
    steps := Then(steps, AnchorFirst, c, WATCH, d);
    steps := Then(steps, AnchorFirst, d, CustodianStep(Cancel), At(d, SendCancelled));
  }

  /** The custodian has exited 0 after CANCELLED. */
  const LEFT := State(
    START.w.(custodian := CustodianZombie(Exited(0))),
    START.c.(pc := Exiting(0)),
    START.s.(pc := ObserveAnchor),
    [Sent(Verified), Sent(Cancelled)])

  lemma ReachLeft() returns (steps: seq<Step>)
    ensures Run(steps) == LEFT
  {
    steps := ReachCancelling();
    var e := Tells(Watches(At(START, SendCancelled), ObserveAnchor), Sent(Verified));
    var f := Tells(At(e, Exiting(0)), Sent(Cancelled));
    steps := Then(steps, AnchorFirst, e, GO, f);
    steps := Then(steps, AnchorFirst, f, GO, LEFT);
  }

  /** ... and the anchor's watchdog has killed the group before the supervisor
      looked again. */
  lemma ReachCancelled() returns (steps: seq<Step>)
    ensures Run(steps) == CANCELLED
  {
    steps := ReachLeft();
    var h := LEFT.(w := LEFT.w.(eof := true));
    steps := Then(steps, AnchorFirst, LEFT, AnchorSeesEof, h);
    steps := Then(steps, AnchorFirst, h, AnchorKills, CANCELLED);
  }

  const CANCELLED := State(
    START.w.(anchor := AnchorZombie(ByAnchor), custodian := CustodianZombie(Exited(0)), eof := true),
    START.c.(pc := Exiting(0)),
    START.s.(pc := ObserveAnchor),
    [Sent(Verified), Sent(Cancelled), GroupSignal(Anchor, true, false)])

  /** The supervisor's view once the loss was judged unexpected and both children reaped. */
  const CLEANED := State(
    CANCELLED.w.(anchor := AnchorGone(ByAnchor), custodian := CustodianGone(Exited(0))),
    CANCELLED.c,
    START.s.(pc := CleanTop, anchorExited := true, unexpected := true, custodianDone := true, anchorReaped := true),
    CANCELLED.log + [AnchorLossUnexpected(ByAnchor), GroupSignal(Supervisor, true, false),
                     CustodianReaped(Exited(0)), AnchorReaped])

  lemma ReachJudged() returns (steps: seq<Step>, st: State)
    ensures Run(steps) == st
    ensures st == Tells(CANCELLED.(s := START.s.(pc := KillCustodian, anchorExited := true, unexpected := true)),
                        AnchorLossUnexpected(ByAnchor))
  {
    steps := ReachCancelled();
    var seen := CANCELLED.(s := START.s.(pc := ReadIntent, anchorExited := true));
    var silent := Watches(seen, Judge);
    st := Tells(silent.(s := silent.s.(pc := KillCustodian, unexpected := true)), AnchorLossUnexpected(ByAnchor));
    steps := Then(steps, AnchorFirst, CANCELLED, WATCH, seen);
    steps := Then(steps, AnchorFirst, seen, WATCH, silent);
    steps := Then(steps, AnchorFirst, silent, WATCH, st);
  }

  /** The supervisor kills the group once more before it reaps. */
  const KILLED_AGAIN := State(
    CANCELLED.w, CANCELLED.c,
    START.s.(pc := CleanTop, anchorExited := true, unexpected := true),
    CANCELLED.log + [AnchorLossUnexpected(ByAnchor), GroupSignal(Supervisor, true, false)])

  lemma ReachKilledAgain() returns (steps: seq<Step>)
    ensures Run(steps) == KILLED_AGAIN
  {
    var st: State;
    steps, st := ReachJudged();
    var b := Watches(st, KillAnchorGroup);
    steps := Then(steps, AnchorFirst, st, WATCH, b);
    steps := Then(steps, AnchorFirst, b, WATCH, KILLED_AGAIN);
  }

  lemma ReachCleanup() returns (steps: seq<Step>)
    ensures Run(steps) == Watches(KILLED_AGAIN, CleanCustodian)
  {
    steps := ReachKilledAgain();
    steps := Then(steps, AnchorFirst, KILLED_AGAIN, WATCH, Watches(KILLED_AGAIN, CleanCustodian));
  }

  lemma ReachCleaned() returns (steps: seq<Step>)
    ensures Run(steps) == CLEANED
  {
    steps := ReachCleanup();
    var d := Watches(KILLED_AGAIN, CleanCustodian);
    var e := Tells(d.(w := CANCELLED.w.(custodian := CustodianGone(Exited(0))),
                      s := d.s.(pc := CleanAnchor, custodianDone := true)), CustodianReaped(Exited(0)));
    steps := Then(steps, AnchorFirst, d, WATCH, e);
    steps := Then(steps, AnchorFirst, e, WATCH, CLEANED);
  }

  const RETURNED := State(
    CLEANED.w, CLEANED.c, CLEANED.s.(pc := Finished(2), absent := true),
    CLEANED.log + [SawAbsent(Supervisor), Returned(2)])

  lemma ReachReturned() returns (steps: seq<Step>)
    ensures Run(steps) == RETURNED
  {
    steps := ReachCleaned();
    var b := Watches(CLEANED, Probe);
    var c := Tells(b.(s := b.s.(pc := Return, absent := true)), SawAbsent(Supervisor));
    steps := Then(steps, AnchorFirst, CLEANED, WATCH, b);
    steps := Then(steps, AnchorFirst, b, WATCH, c);
    steps := Then(steps, AnchorFirst, c, WATCH, RETURNED);
  }

  /** A custodian's own success is not enough: the supervisor may answer 2 about
      one that exited 0 after CANCELLED, when the watchdog kills the anchor between
      its look at the custodian and its look at the anchor. */
  lemma CleanCancelMayReturnTwo() returns (steps: seq<Step>)
    ensures Run(steps).s.pc == Finished(2)
    ensures Run(steps).w.custodian == CustodianGone(Exited(0))
    ensures Messages(Run(steps).log) == [Verified, Cancelled]
  {
    steps := ReachReturned();
    assert RETURNED.log[0] == Sent(Verified) && RETURNED.log[1] == Sent(Cancelled);
    ClosedTrace(steps, RETURNED);
  }

  lemma ClosedTrace(steps: seq<Step>, st: State)
    requires Run(steps) == st && Sent(Verified) in st.log && Sent(Cancelled) in st.log
    ensures Messages(st.log) == [Verified, Cancelled]
  {
    StatusStreamIsHonest(steps);
    SaidInOrder(st.log, Cancelled);
  }

  lemma {:induction false} SaidInOrder(log: seq<Entry>, m: Status)
    requires Sent(m) in log
    ensures m in Messages(log)
  {
    var init := log[..|log| - 1];
    assert log == init + [log[|log| - 1]];
    if Sent(m) in init {
      SaidInOrder(init, m);
    }
  }
}
