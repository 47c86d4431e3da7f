/**
Whatever status the target ends with, some run of the custody protocol reports
that status and returns 0, so the proofs about exit code 0 are about something.
*/
module CustodySuccess {
  import opened Custody
  import opened CustodyProofs
  import opened CustodyExamples

  /** The leader has ended with `x` and was retired; the group's anchor died of the
      declared kill. */
  function Retiring(x: ExitStatus): State {
    State(
      KillGroup(SERVING.w.(leader := LeaderZombie(x), intent := 1), ByCustodian),
      SERVING.c.(pc := RetireLeader(true)),
      START.s,
      SERVING.log + [KillDeclared, GroupSignal(Custodian, true, false)])
  }

  function Retired(x: ExitStatus): State {
    State(
      Retiring(x).w.(leader := LeaderGone(x)),
      SERVING.c.(pc := RetireProbe(true), reaped := true, status := x),
      START.s,
      Retiring(x).log + [LeaderReaped(x)])
  }

  function Ended(x: ExitStatus): State {
    SERVING.(w := SERVING.w.(leader := LeaderZombie(x)), c := SERVING.c.(pc := RetireDeclare(true)))
  }

  lemma ReachEnded(x: ExitStatus) returns (steps: seq<Step>)
    ensures Run(steps) == Ended(x)
  {
    steps := ReachServing(AnchorFirst);
    var a := SERVING.(w := SERVING.w.(leader := LeaderZombie(x)));
    steps := Then(steps, AnchorFirst, SERVING, LeaderExits(x), a);
    steps := Then(steps, AnchorFirst, a, CustodianStep(Finish), Ended(x));
  }

  lemma ReachRetiring(x: ExitStatus) returns (steps: seq<Step>)
    ensures Run(steps) == Retiring(x)
  {
    steps := ReachEnded(x);
    var c := Tells(At(Ended(x), RetireKill(true)).(w := Ended(x).w.(intent := 1)), KillDeclared);
    steps := Then(steps, AnchorFirst, Ended(x), GO, c);
    steps := Then(steps, AnchorFirst, c, GO, Retiring(x));
  }

  lemma ReachRetired(x: ExitStatus) returns (steps: seq<Step>)
    ensures Run(steps) == Retired(x)
  {
    steps := ReachRetiring(x);
    var b := At(Retiring(x), RetireReap(true));
    steps := Then(steps, AnchorFirst, Retiring(x), GO, b);
    steps := Then(steps, AnchorFirst, b, GO, Retired(x));
  }

  /** The supervisor has seen the anchor dead and the kill declared. */
  function Judged(x: ExitStatus): State {
    Retired(x).(w := Retired(x).w.(intent := 0),
                s := START.s.(pc := RecoverKill, anchorExited := true, intentSeen := true))
  }

  lemma ReachJudgement(x: ExitStatus) returns (steps: seq<Step>)
    ensures Run(steps) == Judged(x)
  {
    steps := ReachRetired(x);
    var r := Retired(x);
    var a := Watches(r, ObserveAnchor);
    var b := r.(s := START.s.(pc := ReadIntent, anchorExited := true));
    var c := Watches(Judged(x), Judge);
    steps := Then(steps, AnchorFirst, r, WATCH, a);
    steps := Then(steps, AnchorFirst, a, WATCH, b);
    steps := Then(steps, AnchorFirst, b, WATCH, c);
    steps := Then(steps, AnchorFirst, c, WATCH, Judged(x));
  }

  /** The supervisor has reaped the anchor. */
  function Recovered(x: ExitStatus): State {
    State(
      Judged(x).w.(anchor := AnchorGone(ByCustodian)),
      Judged(x).c,
      Judged(x).s.(pc := Top, anchorReaped := true),
      Judged(x).log + [GroupSignal(Supervisor, true, false), AnchorReaped])
  }

  lemma ReachRecovered(x: ExitStatus) returns (steps: seq<Step>)
    ensures Run(steps) == Recovered(x)
  {
    steps := ReachJudgement(x);
    var a := Tells(Watches(Judged(x), RecoverReap), GroupSignal(Supervisor, true, false));
    steps := Then(steps, AnchorFirst, Judged(x), WATCH, a);
    steps := Then(steps, AnchorFirst, a, WATCH, Recovered(x));
  }

  /** The custodian has proved absence, sent EXIT and exited 0. */
  function Reported(x: ExitStatus): State {
    State(
      Recovered(x).w.(custodian := CustodianZombie(Exited(0))),
      Recovered(x).c.(pc := Exiting(0)),
      Recovered(x).s,
      Recovered(x).log + [SawAbsent(Custodian), Sent(Exit(x))])
  }

  lemma ReachProven(x: ExitStatus) returns (steps: seq<Step>)
    ensures Run(steps) == Tells(At(Recovered(x), SendExit), SawAbsent(Custodian))
  {
    steps := ReachRecovered(x);
    steps := Then(steps, AnchorFirst, Recovered(x), GO, Tells(At(Recovered(x), SendExit), SawAbsent(Custodian)));
  }

  lemma ReachReported(x: ExitStatus) returns (steps: seq<Step>)
    ensures Run(steps) == Reported(x)
  {
    steps := ReachProven(x);
    var a := Tells(At(Recovered(x), SendExit), SawAbsent(Custodian));
    var b := Tells(At(a, Exiting(0)), Sent(Exit(x)));
    steps := Then(steps, AnchorFirst, a, GO, b);
    steps := Then(steps, AnchorFirst, b, GO, Reported(x));
  }

  /** The supervisor has reaped the custodian and begins its cleanup. */
  function Reaped(x: ExitStatus): State {
    State(
      Reported(x).w.(custodian := CustodianGone(Exited(0))),
      Reported(x).c,
      Reported(x).s.(pc := ObserveAnchor, custodianDone := true, custodianStatus := Exited(0)),
      Reported(x).log + [CustodianReaped(Exited(0))])
  }

  lemma ReachReaped(x: ExitStatus) returns (steps: seq<Step>)
    ensures Run(steps) == Watches(Reaped(x), Top)
  {
    steps := ReachReported(x);
    var r := Reaped(x);
    steps := Then(steps, AnchorFirst, Reported(x), WATCH, r);
    steps := Then(steps, AnchorFirst, r, WATCH, Watches(r, ReadIntent));
    steps := Then(steps, AnchorFirst, Watches(r, ReadIntent), WATCH, Watches(r, Judge));
    steps := Then(steps, AnchorFirst, Watches(r, Judge), WATCH, Watches(r, Top));
  }

  lemma ReachProbe(x: ExitStatus) returns (steps: seq<Step>)
    ensures Run(steps) == Watches(Reaped(x), Probe)
  {
    steps := ReachReaped(x);
    var r := Reaped(x);
    steps := Then(steps, AnchorFirst, Watches(r, Top), WATCH, Watches(r, KillCustodian));
    steps := Then(steps, AnchorFirst, Watches(r, KillCustodian), WATCH, Watches(r, KillAnchorGroup));
    steps := Then(steps, AnchorFirst, Watches(r, KillAnchorGroup), WATCH, Watches(r, CleanTop));
    steps := Then(steps, AnchorFirst, Watches(r, CleanTop), WATCH, Watches(r, Probe));
  }

  function Succeeded(x: ExitStatus): State {
    Reaped(x).(s := Reaped(x).s.(pc := Finished(0), absent := true),
               log := Reaped(x).log + [SawAbsent(Supervisor), Returned(0)])
  }

  function Absent(x: ExitStatus): State {
    Tells(Reaped(x).(s := Reaped(x).s.(pc := Return, absent := true)), SawAbsent(Supervisor))
  }

  lemma ReachAbsent(x: ExitStatus) returns (steps: seq<Step>)
    ensures Run(steps) == Absent(x)
  {
    steps := ReachProbe(x);
    steps := Then(steps, AnchorFirst, Watches(Reaped(x), Probe), WATCH, Absent(x));
  }

  lemma ReachSuccess(x: ExitStatus) returns (steps: seq<Step>)
    ensures Run(steps) == Succeeded(x)
  {
    steps := ReachAbsent(x);
    steps := Then(steps, AnchorFirst, Absent(x), WATCH, Succeeded(x));
  }

  /** For every status of the target there is a run that reports exactly that
      status and returns 0. */
  lemma EveryStatusCanBeReported(x: ExitStatus) returns (steps: seq<Step>)
    ensures Run(steps).s.pc == Finished(0)
    ensures Messages(Run(steps).log) == [Verified, Started, Exit(x)]
  {
    steps := ReachSuccess(x);
    StatusStreamIsHonest(steps);
    ReportedStatus(x);
  }

  lemma ReportedStatus(x: ExitStatus)
    requires WellOrdered(Messages(Succeeded(x).log))
    ensures Messages(Succeeded(x).log) == [Verified, Started, Exit(x)]
  {
    var log := Succeeded(x).log;
    assert Reported(x).log <= Reaped(x).log <= log;
    var n := |Recovered(x).log| + 1;
    assert Reported(x).log[n] == Sent(Exit(x));
    assert log[n] == Sent(Exit(x));
    SaidInOrder(log, Exit(x));
  }
}
