/**
What every run of the custody protocol keeps, and what its results prove.
*/
module CustodyProofs {
  import opened Custody

  // ---------- reading the log ----------

  ghost predicate Precedes(log: seq<Entry>, a: Entry, b: Entry) {
    exists i, j :: 0 <= i < j < |log| && log[i] == a && log[j] == b
  }

  predicate IsSignal(e: Entry, party: Party) { e.GroupSignal? && e.party == party }

  /** The statuses written to the public stream, in order. */
  function Messages(log: seq<Entry>): seq<Status> {
    if log == [] then []
    else
      var e := log[|log| - 1];
      Messages(log[..|log| - 1]) + (if e.Sent? then [e.message] else [])
  }

  predicate Terminal(m: Status) { !m.Verified? && !m.Started? }

  /** VERIFIED, then STARTED, then at most one terminal status, each terminal
      status only where the protocol allows it. */
  predicate WellOrdered(t: seq<Status>) {
    || t == [] || t == [Verified] || t == [Verified, Started]
    || t == [Refused] || t == [Verified, Refused] || t == [Verified, Cancelled]
    || t == [Verified, Uncertain] || t == [Verified, Started, Uncertain]
    || (|t| == 3 && t[..2] == [Verified, Started] && t[2].Exit?)
  }

  // ---------- what every state of every run satisfies ----------

  /** Where the custodian is, and which of its variables are set there. */
  predicate CustodianShape(c: CustodianState) {
    && (c.reaped || c.owned || c.resumed ==> c.child)
    && (c.resumed ==> c.owned)
    && match c.pc
       case Verifying | SendVerified | AwaitGo | SendCancelled | Spawning => !c.child
       case Checking | Resuming => c.owned && !c.reaped && !c.resumed
       case SendStarted | Serving | DeclareKill | SendKill => c.resumed && !c.reaped
       case RetireDeclare(n) => c.child && !c.reaped && (n ==> c.resumed)
       case RetireKill(n) => c.owned && !c.reaped && (n ==> c.resumed)
       case RetireLeader(n) => c.child && !c.reaped && (n ==> c.resumed)
       case RetireReap(n) => c.child && !c.reaped && (n ==> c.resumed)
       case RetireProbe(n) => c.owned && c.reaped && (n ==> c.resumed)
       case SendExit => c.resumed && c.reaped
       case Done => c.reaped ==> c.resumed
       case SendFinal(m) => (m.Refused? && !c.resumed) || (m.Uncertain? && c.child)
       case Exiting(code) => code == 0 || code == 1
  }

  predicate SupervisorShape(w: World, s: SupervisorState) {
    && (s.custodianDone <==> w.custodian.CustodianGone?)
    && (s.custodianDone ==> w.custodian.status == s.custodianStatus)
    && (s.anchorReaped ==> w.anchor.AnchorGone?)
    && (SupervisorRuns(s) && w.anchor.AnchorGone? ==> s.anchorReaped)
    && (s.anchorExited ==> !w.anchor.AnchorAlive?)
    && (s.pc.RecoverKill? || s.pc.RecoverReap? ==> s.anchorExited && !s.anchorReaped)
    && (s.pc.Probe? ==> s.custodianDone && s.anchorReaped)
    && (s.absent ==> s.custodianDone && s.anchorReaped && !GroupHeld(w))
    && (s.pc.Finished? ==> s.pc.code == ReturnCode(s))
  }

  /** How the kernel's view agrees with the custodian's variables. */
  predicate KernelShape(w: World, c: CustodianState) {
    && (w.stranger ==> !GroupHeld(w))
    && (c.child <==> !w.leader.NoLeader?)
    && (w.leader.NoLeader? ==> w.live == 0 && w.dead == 0)
    && (c.reaped ==> w.leader == LeaderGone(c.status))
    && (w.custodian.Running? && w.leader.LeaderGone? ==> c.reaped)
    && (w.eof ==> !w.custodian.Running?)
    && (AnchorDead(w) && w.anchor.cause == ByAnchor ==> !w.custodian.Running? && NothingRuns(w))
    && (!w.custodian.Running? && w.custodian.status.Exited? ==> c.pc == Exiting(w.custodian.status.code))
  }

  predicate AnchorDead(w: World) { !w.anchor.AnchorAlive? }

  predicate Announced(w: World, s: SupervisorState) { s.intentSeen || w.intent > 0 }

  /** Intent is declared before the kill it announces, and a supervisor that has
      read an empty pipe after seeing the anchor dead may trust the silence. */
  predicate IntentShape(w: World, c: CustodianState, s: SupervisorState) {
    && (AnchorDead(w) && w.anchor.cause == ByCustodian ==> Announced(w, s))
    && (c.pc.SendKill? || c.pc.RetireKill? ==> Announced(w, s))
    && (s.pc.Judge? && s.anchorExited && !s.intentSeen ==> AnchorCause(w) != ByCustodian)
  }

  predicate Good(w: World, c: CustodianState, s: SupervisorState) {
    CustodianShape(c) && KernelShape(w, c) && SupervisorShape(w, s) && IntentShape(w, c, s)
  }

  /** The statuses already sent, given where the custodian is. */
  predicate TraceAt(c: CustodianState, t: seq<Status>) {
    match c.pc
    case Verifying | SendVerified => t == []
    case AwaitGo | SendCancelled | Spawning | Checking | Resuming | SendStarted => t == [Verified]
    case Serving | DeclareKill | SendKill | SendExit => t == [Verified, Started]
    case Exiting(code) => WellOrdered(t) && (code == 0 ==> Clean(t))
    case _ =>
      && (t == [] || t == [Verified] || t == [Verified, Started])
      && (c.child ==> t != [])
      && (!c.resumed ==> |t| < 2)
      && (c.pc.RetireDeclare? && c.pc.natural ==> |t| == 2)
      && (c.pc.RetireKill? && c.pc.natural ==> |t| == 2)
      && (c.pc.RetireLeader? && c.pc.natural ==> |t| == 2)
      && (c.pc.RetireReap? && c.pc.natural ==> |t| == 2)
      && (c.pc.RetireProbe? && c.pc.natural ==> |t| == 2)
  }

  /** The run ended with a result: EXIT, or CANCELLED before any target. */
  predicate Clean(t: seq<Status>) {
    |t| > 0 && (t[|t| - 1].Exit? || t[|t| - 1].Cancelled?)
  }

  // ---------- what one statement may add to the record ----------

  /** The custodian has just proved its target retired. */
  predicate Proven(c: CustodianState) {
    c.pc.SendExit? || (c.pc == SendFinal(Refused) && c.child)
  }

  predicate CustodianEntry(c: CustodianState, c': CustodianState, x: Entry) {
    match x
    case GroupSignal(p, pinned, stranger) => p.Custodian? && pinned && !stranger && !c.reaped
    case KillDeclared => true
    case LeaderReaped(y) => !c.reaped && c'.reaped && c'.status == y
    case SawAbsent(p) => p.Custodian? && c.reaped
    case Sent(m) =>
      && (m.Exit? ==> c.pc.SendExit? && m.status == c.status)
      && (m.Refused? ==> c.pc == SendFinal(Refused))
      && (Terminal(m) ==> c'.pc.Exiting? && c' == c.(pc := c'.pc))
    case _ => false
  }

  function Said(entries: seq<Entry>): seq<Status> {
    if |entries| == 1 && entries[0].Sent? then [entries[0].message] else []
  }

  predicate CustodianAdds(c: CustodianState, a: CustodianAct) {
    && |a.entries| <= 1
    && (|a.entries| == 1 ==> CustodianEntry(c, a.c, a.entries[0]))
    && (c.reaped ==> a.c.reaped && a.c.status == c.status)
    && (a.c.reaped && !c.reaped ==> a.entries == [LeaderReaped(a.c.status)])
    && (Proven(a.c) ==> c.reaped && a.entries == [SawAbsent(Custodian)])
    && (c.pc.Exiting? ==> a.c == c && a.entries == [])
  }

  /** A group that is gone cannot come back, and absence is only reported of a
      group that is gone. */
  predicate StaysGone(w: World, w': World, entries: seq<Entry>) {
    && (!GroupHeld(w) ==> !GroupHeld(w'))
    && (|entries| == 1 && entries[0].SawAbsent? ==> !GroupHeld(w'))
  }

  ghost predicate CustodianKeeps(w: World, c: CustodianState, s: SupervisorState, a: CustodianAct) {
    && Good(a.w, a.c, s)
    && CustodianAdds(c, a)
    && StaysGone(w, a.w, a.entries)
    && forall t :: TraceAt(c, t) ==> TraceAt(a.c, t + Said(a.entries))
  }

  lemma KeptBeforeSpawn(w: World, c: CustodianState, s: SupervisorState, ch: Choice)
    requires Good(w, c, s) && w.custodian.Running?
    requires c.pc.Verifying? || c.pc.SendVerified? || c.pc.AwaitGo? || c.pc.SendCancelled?
    ensures CustodianKeeps(w, c, s, CustodianMove(w, c, ch))
  {
  }

  lemma KeptBySpawn(w: World, c: CustodianState, s: SupervisorState, ch: Choice)
    requires Good(w, c, s) && w.custodian.Running?
    requires c.pc.Spawning?
    ensures CustodianKeeps(w, c, s, CustodianMove(w, c, ch))
  {
  }

  lemma KeptByRelease(w: World, c: CustodianState, s: SupervisorState, ch: Choice)
    requires Good(w, c, s) && w.custodian.Running?
    requires c.pc.Checking? || c.pc.Resuming? || c.pc.SendStarted? || c.pc.DeclareKill?
    ensures CustodianKeeps(w, c, s, CustodianMove(w, c, ch))
  {
  }

  lemma KeptByServing(w: World, c: CustodianState, s: SupervisorState, ch: Choice)
    requires Good(w, c, s) && w.custodian.Running?
    requires c.pc.Serving?
    ensures CustodianKeeps(w, c, s, CustodianMove(w, c, ch))
  {
  }

  lemma KeptByKill(w: World, c: CustodianState, s: SupervisorState, ch: Choice)
    requires Good(w, c, s) && w.custodian.Running?
    requires c.pc.SendKill? || c.pc.RetireKill?
    ensures CustodianKeeps(w, c, s, CustodianMove(w, c, ch))
  {
  }

  lemma KeptByRetirement(w: World, c: CustodianState, s: SupervisorState, ch: Choice)
    requires Good(w, c, s) && w.custodian.Running?
    requires c.pc.RetireDeclare? || c.pc.RetireLeader?
    ensures CustodianKeeps(w, c, s, CustodianMove(w, c, ch))
  {
  }

  lemma KeptByReap(w: World, c: CustodianState, s: SupervisorState, ch: Choice)
    requires Good(w, c, s) && w.custodian.Running?
    requires c.pc.RetireReap?
    ensures CustodianKeeps(w, c, s, CustodianMove(w, c, ch))
  {
  }

  lemma KeptByProbe(w: World, c: CustodianState, s: SupervisorState, ch: Choice)
    requires Good(w, c, s) && w.custodian.Running?
    requires c.pc.RetireProbe?
    ensures CustodianKeeps(w, c, s, CustodianMove(w, c, ch))
  {
  }

  lemma KeptBySending(w: World, c: CustodianState, s: SupervisorState, ch: Choice)
    requires Good(w, c, s) && w.custodian.Running?
    requires c.pc.SendFinal?
    ensures CustodianKeeps(w, c, s, CustodianMove(w, c, ch))
  {
  }

  lemma KeptByReporting(w: World, c: CustodianState, s: SupervisorState, ch: Choice)
    requires Good(w, c, s) && w.custodian.Running?
    requires c.pc.SendExit?
    ensures CustodianKeeps(w, c, s, CustodianMove(w, c, ch))
  {
  }

  lemma KeptByDone(w: World, c: CustodianState, s: SupervisorState, ch: Choice)
    requires Good(w, c, s) && w.custodian.Running?
    requires c.pc.Done?
    ensures CustodianKeeps(w, c, s, CustodianMove(w, c, ch))
  {
  }

  lemma KeptByExiting(w: World, c: CustodianState, s: SupervisorState, ch: Choice)
    requires Good(w, c, s) && w.custodian.Running?
    requires c.pc.Exiting?
    ensures CustodianKeeps(w, c, s, CustodianMove(w, c, ch))
  {
  }

  predicate SupervisorEntry(s: SupervisorState, s': SupervisorState, x: Entry) {
    match x
    case GroupSignal(p, pinned, stranger) => p.Supervisor? && pinned && !stranger && !s.anchorReaped
    case CustodianReaped(y) => !s.custodianDone && s'.custodianDone && s'.custodianStatus == y
    case AnchorReaped => !s.anchorReaped && s'.anchorReaped
    case SawAbsent(p) => p.Supervisor? && s.custodianDone && s.anchorReaped && s'.absent
    case AnchorLossUnexpected(cause) => cause != ByCustodian && s'.unexpected
    case Returned(code) => true
    case _ => false
  }

  predicate SupervisorAdds(s: SupervisorState, a: SupervisorAct) {
    && |a.entries| <= 1
    && (|a.entries| == 1 ==> SupervisorEntry(s, a.s, a.entries[0]))
    && (s.custodianDone ==> a.s.custodianDone && a.s.custodianStatus == s.custodianStatus)
    && (a.s.custodianDone && !s.custodianDone ==> a.entries == [CustodianReaped(a.s.custodianStatus)])
    && (s.anchorReaped ==> a.s.anchorReaped)
    && (a.s.anchorReaped && !s.anchorReaped ==> a.entries == [AnchorReaped])
    && (s.absent ==> a.s.absent)
    && (a.s.absent && !s.absent ==> a.entries == [SawAbsent(Supervisor)])
    && (s.unexpected ==> a.s.unexpected)
    && (a.s.unexpected && !s.unexpected ==> |a.entries| == 1 && a.entries[0].AnchorLossUnexpected?)
  }

  predicate SupervisorKeeps(w: World, c: CustodianState, s: SupervisorState, a: SupervisorAct) {
    Good(a.w, c, a.s) && SupervisorAdds(s, a) && StaysGone(w, a.w, a.entries)
  }

  /** Program points of the supervisor that carry no obligation of their own. */
  predicate Free(pc: SupervisorPc) {
    && !pc.Judge? && !pc.RecoverKill? && !pc.RecoverReap?
    && !pc.Probe? && !pc.Finished? && !pc.Lost?
  }

  lemma KeptByMovingOn(w: World, c: CustodianState, s: SupervisorState, next: SupervisorPc)
    requires Good(w, c, s) && SupervisorRuns(s) && Free(next)
    ensures SupervisorKeeps(w, c, s, SupervisorAt(w, s, next))
  {
  }

  lemma KeptByReapingCustodian(w: World, c: CustodianState, s: SupervisorState, next: SupervisorPc)
    requires Good(w, c, s) && SupervisorRuns(s) && Free(next)
    ensures SupervisorKeeps(w, c, s, ReapCustodian(w, s, next))
  {
    if !w.custodian.CustodianZombie? {
      KeptByMovingOn(w, c, s, next);
    }
  }

  lemma KeptByTop(w: World, c: CustodianState, s: SupervisorState, ch: Choice)
    requires Good(w, c, s)
    requires s.pc.Top?
    ensures SupervisorKeeps(w, c, s, SupervisorMove(w, s, ch, AnchorFirst))
  {
    KeptByMovingOn(w, c, s, KillCustodian);
    KeptByMovingOn(w, c, s, ObserveAnchor);
    KeptByReapingCustodian(w, c, s, ObserveAnchor);
  }

  lemma KeptByObservingAnchor(w: World, c: CustodianState, s: SupervisorState, ch: Choice)
    requires Good(w, c, s)
    requires s.pc.ObserveAnchor?
    ensures SupervisorKeeps(w, c, s, SupervisorMove(w, s, ch, AnchorFirst))
  {
  }

  /** Silence read after the anchor was seen dead: nothing was announced. */
  lemma KeptBySilence(w: World, c: CustodianState, s: SupervisorState)
    requires Good(w, c, s) && SupervisorRuns(s) && (s.intentSeen || w.intent == 0)
    ensures SupervisorKeeps(w, c, s, SupervisorAt(w, s, Judge))
  {
  }

  lemma KeptByConsuming(w: World, c: CustodianState, s: SupervisorState)
    requires Good(w, c, s) && SupervisorRuns(s) && w.intent > 0
    ensures SupervisorKeeps(w, c, s, SupervisorAct(w.(intent := w.intent - 1), s.(intentSeen := true, pc := Judge), []))
  {
  }

  lemma KeptByReadingIntent(w: World, c: CustodianState, s: SupervisorState, ch: Choice)
    requires Good(w, c, s)
    requires s.pc.ReadIntent?
    ensures SupervisorKeeps(w, c, s, SupervisorMove(w, s, ch, AnchorFirst))
  {
    if s.intentSeen || w.intent == 0 {
      KeptBySilence(w, c, s);
    } else {
      KeptByConsuming(w, c, s);
    }
    KeptByMovingOn(w, c, s, KillCustodian);
  }

  lemma KeptByJudging(w: World, c: CustodianState, s: SupervisorState, ch: Choice)
    requires Good(w, c, s)
    requires s.pc.Judge?
    ensures SupervisorKeeps(w, c, s, SupervisorMove(w, s, ch, AnchorFirst))
  {
  }

  lemma KeptByRecovery(w: World, c: CustodianState, s: SupervisorState, ch: Choice)
    requires Good(w, c, s)
    requires s.pc.RecoverKill? || s.pc.RecoverReap?
    ensures SupervisorKeeps(w, c, s, SupervisorMove(w, s, ch, AnchorFirst))
  {
  }

  lemma KeptByKilling(w: World, c: CustodianState, s: SupervisorState, ch: Choice)
    requires Good(w, c, s)
    requires s.pc.KillCustodian? || s.pc.KillAnchorGroup?
    ensures SupervisorKeeps(w, c, s, SupervisorMove(w, s, ch, AnchorFirst))
  {
  }

  lemma KeptByCleanTop(w: World, c: CustodianState, s: SupervisorState, ch: Choice)
    requires Good(w, c, s)
    requires s.pc.CleanTop?
    ensures SupervisorKeeps(w, c, s, SupervisorMove(w, s, ch, AnchorFirst))
  {
  }

  lemma KeptByCleaningCustodian(w: World, c: CustodianState, s: SupervisorState, ch: Choice)
    requires Good(w, c, s)
    requires s.pc.CleanCustodian?
    ensures SupervisorKeeps(w, c, s, SupervisorMove(w, s, ch, AnchorFirst))
  {
    KeptByMovingOn(w, c, s, CleanAnchor);
    KeptByMovingOn(w, c, s, Return);
    KeptByReapingCustodian(w, c, s, CleanAnchor);
  }

  lemma KeptByCleaningAnchor(w: World, c: CustodianState, s: SupervisorState, ch: Choice)
    requires Good(w, c, s)
    requires s.pc.CleanAnchor?
    ensures SupervisorKeeps(w, c, s, SupervisorMove(w, s, ch, AnchorFirst))
  {
  }

  lemma KeptByReturning(w: World, c: CustodianState, s: SupervisorState, ch: Choice)
    requires Good(w, c, s)
    requires s.pc.Probe? || s.pc.Return?
    ensures SupervisorKeeps(w, c, s, SupervisorMove(w, s, ch, AnchorFirst))
  {
  }

  lemma KeptByEnvironment(w: World, c: CustodianState, s: SupervisorState, e: Step)
    requires Good(w, c, s)
    requires !e.CustodianStep? && !e.SupervisorStep? && !e.SupervisorDies?
    ensures var a := EnvironmentMove(w, c.resumed, SupervisorRuns(s), e);
            && Good(a.w, c, s)
            && StaysGone(w, a.w, a.entries)
            && (a.entries == [] || a.entries == [GroupSignal(Anchor, true, false)])
  {
  }

  /** SIGKILL of the supervisor leaves every fact in place. */
  lemma KeptBySupervisorDeath(w: World, c: CustodianState, s: SupervisorState)
    requires Good(w, c, s)
    ensures Good(w, c, s.(pc := Lost))
  {
  }

  lemma KeptByCustodian(w: World, c: CustodianState, s: SupervisorState, ch: Choice)
    requires Good(w, c, s) && w.custodian.Running?
    ensures CustodianKeeps(w, c, s, CustodianMove(w, c, ch))
  {
    match c.pc
    case Verifying | SendVerified | AwaitGo | SendCancelled => KeptBeforeSpawn(w, c, s, ch);
    case Spawning => KeptBySpawn(w, c, s, ch);
    case Checking | Resuming | SendStarted | DeclareKill => KeptByRelease(w, c, s, ch);
    case Serving => KeptByServing(w, c, s, ch);
    case SendKill | RetireKill(_) => KeptByKill(w, c, s, ch);
    case RetireDeclare(_) | RetireLeader(_) => KeptByRetirement(w, c, s, ch);
    case RetireReap(_) => KeptByReap(w, c, s, ch);
    case RetireProbe(_) => KeptByProbe(w, c, s, ch);
    case SendExit => KeptByReporting(w, c, s, ch);
    case SendFinal(_) => KeptBySending(w, c, s, ch);
    case Done => KeptByDone(w, c, s, ch);
    case Exiting(_) => KeptByExiting(w, c, s, ch);
  }

  lemma KeptBySupervisor(w: World, c: CustodianState, s: SupervisorState, ch: Choice)
    requires Good(w, c, s) && SupervisorRuns(s)
    ensures SupervisorKeeps(w, c, s, SupervisorMove(w, s, ch, AnchorFirst))
  {
    match s.pc
    case Top => KeptByTop(w, c, s, ch);
    case ObserveAnchor => KeptByObservingAnchor(w, c, s, ch);
    case ReadIntent => KeptByReadingIntent(w, c, s, ch);
    case Judge => KeptByJudging(w, c, s, ch);
    case RecoverKill | RecoverReap => KeptByRecovery(w, c, s, ch);
    case KillCustodian | KillAnchorGroup => KeptByKilling(w, c, s, ch);
    case CleanTop => KeptByCleanTop(w, c, s, ch);
    case CleanCustodian => KeptByCleaningCustodian(w, c, s, ch);
    case CleanAnchor => KeptByCleaningAnchor(w, c, s, ch);
    case Probe | Return => KeptByReturning(w, c, s, ch);
  }

  // ---------- what the record of every run satisfies ----------

  /** After its own reap a party sends no signal to the numeric group. */
  predicate SilentAfterReap(log: seq<Entry>) {
    forall i, j | 0 <= i < j < |log| ::
      && (log[i].AnchorReaped? ==> !IsSignal(log[j], Supervisor))
      && (log[i].LeaderReaped? ==> !IsSignal(log[j], Custodian))
  }

  /** Every group signal is pinned, none meets a stranger, and no loss that the
      custodian announced is called unexpected. */
  predicate SafeEntry(x: Entry) {
    && (x.GroupSignal? ==> x.pinned && !x.stranger)
    && (x.AnchorLossUnexpected? ==> x.cause != ByCustodian)
  }

  /** EXIT carries a status reaped before the group was seen absent; REFUSED is
      sent only when no target ran and any target spawned was proved gone. */
  ghost predicate HonestMessage(log: seq<Entry>, n: nat, c: CustodianState)
    requires n < |log|
  {
    && (log[n].Sent? && log[n].message.Exit? ==>
          Precedes(log[..n], LeaderReaped(log[n].message.status), SawAbsent(Custodian)))
    && (log[n] == Sent(Refused) ==>
          !c.resumed && (c.child ==> Precedes(log[..n], LeaderReaped(c.status), SawAbsent(Custodian))))
  }

  /** The parties' flags and the record tell the same story. */
  ghost predicate Recorded(log: seq<Entry>, c: CustodianState, s: SupervisorState) {
    && (c.reaped <==> LeaderReaped(c.status) in log)
    && (forall x | x in log && x.LeaderReaped? :: c.reaped)
    && (s.anchorReaped <==> AnchorReaped in log)
    && (s.custodianDone ==> CustodianReaped(s.custodianStatus) in log)
    && (s.absent ==> Precedes(log, CustodianReaped(s.custodianStatus), SawAbsent(Supervisor)))
    && (s.absent ==> Precedes(log, AnchorReaped, SawAbsent(Supervisor)))
    && (Proven(c) ==> Precedes(log, LeaderReaped(c.status), SawAbsent(Custodian)))
  }

  ghost predicate LogShape(log: seq<Entry>, c: CustodianState, s: SupervisorState) {
    && (forall x | x in log :: SafeEntry(x))
    && SilentAfterReap(log)
    && (forall n | 0 <= n < |log| :: HonestMessage(log, n, c))
    && (forall n | 0 <= n < |log| && log[n].Sent? && Terminal(log[n].message) :: c.pc.Exiting?)
    && Recorded(log, c, s)
    && TraceAt(c, Messages(log))
  }

  lemma MessagesGrow(log: seq<Entry>, entries: seq<Entry>)
    requires |entries| <= 1
    ensures Messages(log + entries) == Messages(log) + Said(entries)
  {
    if entries == [] {
      assert log + entries == log;
    } else {
      assert (log + entries)[..|log|] == log;
    }
  }

  lemma PrecedesGrows(log: seq<Entry>, entries: seq<Entry>, a: Entry, b: Entry)
    requires Precedes(log, a, b)
    ensures Precedes(log + entries, a, b)
  {
    var i, j :| 0 <= i < j < |log| && log[i] == a && log[j] == b;
    assert (log + entries)[i] == a && (log + entries)[j] == b;
  }

  lemma PrecedesLast(log: seq<Entry>, a: Entry, b: Entry)
    requires a in log
    ensures Precedes(log + [b], a, b)
  {
    var i :| 0 <= i < |log| && log[i] == a;
    assert (log + [b])[i] == a && (log + [b])[|log|] == b;
  }

  lemma SilenceGrows(log: seq<Entry>, x: Entry)
    requires SilentAfterReap(log)
    requires IsSignal(x, Supervisor) ==> AnchorReaped !in log
    requires IsSignal(x, Custodian) ==> forall y | y in log :: !y.LeaderReaped?
    ensures SilentAfterReap(log + [x])
  {
  }

  lemma HonestyGrows(log: seq<Entry>, x: Entry, c: CustodianState, c': CustodianState)
    requires forall n | 0 <= n < |log| :: HonestMessage(log, n, c)
    requires forall n | 0 <= n < |log| && log[n] == Sent(Refused) ::
               c'.resumed == c.resumed && c'.child == c.child && c'.status == c.status
    requires HonestMessage(log + [x], |log|, c')
    ensures forall n | 0 <= n < |log + [x]| :: HonestMessage(log + [x], n, c')
  {
    forall n | 0 <= n < |log|
      ensures HonestMessage(log + [x], n, c')
    {
      assert HonestMessage(log, n, c);
      assert (log + [x])[..n] == log[..n];
    }
  }

  lemma RecordOfCustodian(log: seq<Entry>, c: CustodianState, s: SupervisorState, a: CustodianAct)
    requires Recorded(log, c, s) && CustodianAdds(c, a)
    ensures Recorded(log + a.entries, a.c, s)
  {
    if Proven(a.c) {
      PrecedesLast(log, LeaderReaped(c.status), SawAbsent(Custodian));
    }
    if s.absent {
      PrecedesGrows(log, a.entries, CustodianReaped(s.custodianStatus), SawAbsent(Supervisor));
      PrecedesGrows(log, a.entries, AnchorReaped, SawAbsent(Supervisor));
    }
  }

  lemma RecordOfSupervisor(log: seq<Entry>, c: CustodianState, s: SupervisorState, a: SupervisorAct)
    requires Recorded(log, c, s) && SupervisorAdds(s, a)
    requires s.absent ==> s.custodianDone
    requires a.s.absent ==> a.s.custodianDone && a.s.anchorReaped
    ensures Recorded(log + a.entries, c, a.s)
  {
    if Proven(c) {
      PrecedesGrows(log, a.entries, LeaderReaped(c.status), SawAbsent(Custodian));
    }
    if a.s.absent {
      if s.absent {
        PrecedesGrows(log, a.entries, CustodianReaped(s.custodianStatus), SawAbsent(Supervisor));
        PrecedesGrows(log, a.entries, AnchorReaped, SawAbsent(Supervisor));
      } else {
        PrecedesLast(log, CustodianReaped(s.custodianStatus), SawAbsent(Supervisor));
        PrecedesLast(log, AnchorReaped, SawAbsent(Supervisor));
      }
    }
  }

  /** Once a terminal status is out, the custodian's variables are final. */
  lemma SettledAfterTerminal(log: seq<Entry>, c: CustodianState, s: SupervisorState, a: CustodianAct)
    requires LogShape(log, c, s) && CustodianAdds(c, a)
    ensures forall n | 0 <= n < |log| && log[n].Sent? && Terminal(log[n].message) :: a.c == c && a.entries == []
  {
  }

  lemma HonestyOfCustodian(log: seq<Entry>, c: CustodianState, s: SupervisorState, a: CustodianAct)
    requires LogShape(log, c, s) && CustodianAdds(c, a) && CustodianShape(c)
    requires |a.entries| == 1
    ensures forall n | 0 <= n < |log + a.entries| :: HonestMessage(log + a.entries, n, a.c)
  {
    var x := a.entries[0];
    assert a.entries == [x];
    SettledAfterTerminal(log, c, s, a);
    assert (log + [x])[..|log|] == log;
    assert HonestMessage(log + [x], |log|, a.c);
    HonestyGrows(log, x, c, a.c);
  }

  lemma SafetyOfCustodian(log: seq<Entry>, c: CustodianState, s: SupervisorState, a: CustodianAct)
    requires LogShape(log, c, s) && CustodianAdds(c, a)
    requires |a.entries| == 1
    ensures SilentAfterReap(log + a.entries)
    ensures forall x | x in log + a.entries :: SafeEntry(x)
    ensures forall n | 0 <= n < |log + a.entries| && (log + a.entries)[n].Sent? && Terminal((log + a.entries)[n].message)
              :: a.c.pc.Exiting?
  {
    var x := a.entries[0];
    assert a.entries == [x];
    SettledAfterTerminal(log, c, s, a);
    SilenceGrows(log, x);
  }

  lemma LogOfCustodian(log: seq<Entry>, c: CustodianState, s: SupervisorState, a: CustodianAct)
    requires LogShape(log, c, s) && CustodianAdds(c, a)
    requires CustodianShape(c)
    requires TraceAt(a.c, Messages(log) + Said(a.entries))
    ensures LogShape(log + a.entries, a.c, s)
  {
    RecordOfCustodian(log, c, s, a);
    MessagesGrow(log, a.entries);
    if a.entries == [] {
      assert log + a.entries == log;
      SettledAfterTerminal(log, c, s, a);
      forall n | 0 <= n < |log|
        ensures HonestMessage(log, n, a.c)
      {
        assert HonestMessage(log, n, c);
      }
    } else {
      HonestyOfCustodian(log, c, s, a);
      SafetyOfCustodian(log, c, s, a);
    }
  }

  lemma LogOfOthers(log: seq<Entry>, x: Entry, c: CustodianState, s: SupervisorState)
    requires LogShape(log, c, s) && SafeEntry(x) && !x.Sent?
    requires IsSignal(x, Supervisor) ==> !s.anchorReaped
    requires !IsSignal(x, Custodian)
    ensures forall y | y in log + [x] :: SafeEntry(y)
    ensures SilentAfterReap(log + [x])
    ensures forall n | 0 <= n < |log + [x]| :: HonestMessage(log + [x], n, c)
    ensures forall n | 0 <= n < |log + [x]| && (log + [x])[n].Sent? && Terminal((log + [x])[n].message) :: c.pc.Exiting?
    ensures TraceAt(c, Messages(log + [x]))
  {
    SilenceGrows(log, x);
    HonestyGrows(log, x, c, c);
    MessagesGrow(log, [x]);
    assert Messages(log) + [] == Messages(log);
  }

  lemma LogOfSupervisor(log: seq<Entry>, c: CustodianState, s: SupervisorState, a: SupervisorAct)
    requires LogShape(log, c, s) && SupervisorAdds(s, a)
    requires s.absent ==> s.custodianDone
    requires a.s.absent ==> a.s.custodianDone && a.s.anchorReaped
    ensures LogShape(log + a.entries, c, a.s)
  {
    RecordOfSupervisor(log, c, s, a);
    if a.entries == [] {
      assert log + a.entries == log;
    } else {
      assert a.entries == [a.entries[0]];
      LogOfOthers(log, a.entries[0], c, s);
    }
  }

  lemma LogOfAnchor(log: seq<Entry>, c: CustodianState, s: SupervisorState)
    requires LogShape(log, c, s)
    ensures LogShape(log + [GroupSignal(Anchor, true, false)], c, s)
  {
    var x := GroupSignal(Anchor, true, false);
    LogOfOthers(log, x, c, s);
    if Proven(c) {
      PrecedesGrows(log, [x], LeaderReaped(c.status), SawAbsent(Custodian));
    }
    if s.absent {
      PrecedesGrows(log, [x], CustodianReaped(s.custodianStatus), SawAbsent(Supervisor));
      PrecedesGrows(log, [x], AnchorReaped, SawAbsent(Supervisor));
    }
  }

  /** What the supervisor has recorded it still remembers. */
  predicate Remembered(s: SupervisorState, x: Entry) {
    match x
    case CustodianReaped(y) => s.custodianDone && s.custodianStatus == y
    case SawAbsent(p) => p.Supervisor? ==> s.absent
    case AnchorLossUnexpected(_) => s.unexpected
    case _ => true
  }

  ghost predicate Memory(log: seq<Entry>, s: SupervisorState) {
    && (forall x | x in log :: Remembered(s, x))
    && (s.unexpected ==> exists x :: x in log && x.AnchorLossUnexpected?)
  }

  lemma MemoryOfSupervisor(log: seq<Entry>, s: SupervisorState, a: SupervisorAct)
    requires Memory(log, s) && SupervisorAdds(s, a)
    ensures Memory(log + a.entries, a.s)
  {
    forall x | x in log + a.entries
      ensures Remembered(a.s, x)
    {
      if x in log {
        assert Remembered(s, x);
      }
    }
    if s.unexpected {
      var x :| x in log && x.AnchorLossUnexpected?;
      assert x in log + a.entries;
    } else if a.s.unexpected {
      assert a.entries[0] in log + a.entries;
    }
  }

  lemma MemoryOfOthers(log: seq<Entry>, s: SupervisorState, entries: seq<Entry>)
    requires Memory(log, s) && forall x | x in entries :: Remembered(s, x)
    ensures Memory(log + entries, s)
  {
    if s.unexpected {
      var x :| x in log && x.AnchorLossUnexpected?;
      assert x in log + entries;
    }
  }

  // ---------- every run ----------

  ghost predicate Invariant(st: State) {
    && Good(st.w, st.c, st.s)
    && LogShape(st.log, st.c, st.s)
    && Memory(st.log, st.s)
    && (forall x | x in st.log && x.SawAbsent? :: !GroupHeld(st.w))
  }

  lemma InvariantOfCustodian(st: State, ch: Choice)
    requires Invariant(st)
    ensures Invariant(Move(st, CustodianStep(ch), AnchorFirst))
  {
    if st.w.custodian.Running? {
      InvariantOfCustodianAct(st, ch);
    }
  }

  lemma InvariantOfCustodianAct(st: State, ch: Choice)
    requires Invariant(st) && st.w.custodian.Running?
    ensures var a := CustodianMove(st.w, st.c, ch); Invariant(State(a.w, a.c, st.s, st.log + a.entries))
  {
    KeptByCustodian(st.w, st.c, st.s, ch);
    LogOfCustodian(st.log, st.c, st.s, CustodianMove(st.w, st.c, ch));
    MemoryOfOthers(st.log, st.s, CustodianMove(st.w, st.c, ch).entries);
  }

  lemma InvariantOfSupervisor(st: State, ch: Choice)
    requires Invariant(st)
    ensures Invariant(Move(st, SupervisorStep(ch), AnchorFirst))
  {
    if SupervisorRuns(st.s) {
      InvariantOfSupervisorAct(st, ch);
    }
  }

  lemma InvariantOfSupervisorAct(st: State, ch: Choice)
    requires Invariant(st) && SupervisorRuns(st.s)
    ensures var a := SupervisorMove(st.w, st.s, ch, AnchorFirst); Invariant(State(a.w, st.c, a.s, st.log + a.entries))
  {
    KeptBySupervisor(st.w, st.c, st.s, ch);
    LogOfSupervisor(st.log, st.c, st.s, SupervisorMove(st.w, st.s, ch, AnchorFirst));
    MemoryOfSupervisor(st.log, st.s, SupervisorMove(st.w, st.s, ch, AnchorFirst));
  }

  lemma InvariantOfEnvironment(st: State, e: Step)
    requires Invariant(st) && !e.CustodianStep? && !e.SupervisorStep? && !e.SupervisorDies?
    ensures Invariant(Move(st, e, AnchorFirst))
  {
    KeptByEnvironment(st.w, st.c, st.s, e);
    LogOfAnchor(st.log, st.c, st.s);
    MemoryOfOthers(st.log, st.s, [GroupSignal(Anchor, true, false)]);
    assert st.log + [] == st.log;
  }

  lemma InvariantOfSupervisorDeath(st: State)
    requires Invariant(st)
    ensures Invariant(Move(st, SupervisorDies, AnchorFirst))
  {
    KeptBySupervisorDeath(st.w, st.c, st.s);
  }

  lemma InvariantOfMove(st: State, e: Step)
    requires Invariant(st)
    ensures Invariant(Move(st, e, AnchorFirst))
  {
    match e
    case CustodianStep(ch) => InvariantOfCustodian(st, ch);
    case SupervisorStep(ch) => InvariantOfSupervisor(st, ch);
    case SupervisorDies => InvariantOfSupervisorDeath(st);
    case _ => InvariantOfEnvironment(st, e);
  }

  lemma {:induction false} InvariantOfRunFrom(st: State, steps: seq<Step>)
    requires Invariant(st)
    ensures Invariant(RunFrom(st, steps, AnchorFirst))
    decreases |steps|
  {
    if steps != [] {
      InvariantOfMove(st, steps[0]);
      InvariantOfRunFrom(Move(st, steps[0], AnchorFirst), steps[1..]);
    }
  }

  lemma InvariantOfRun(steps: seq<Step>)
    ensures Invariant(Run(steps))
  {
    assert Messages([]) == [];
    InvariantOfRunFrom(START, steps);
  }

  // ---------- theorems ----------

  /** Exit code 0 or 1 is proof of cleanup: the custodian was reaped with that
      very status, the anchor was reaped, its loss was not unexpected, and the
      group was seen absent after both reaps, so nothing of the target is left.
      Code 0 moreover means that the last public status was EXIT or CANCELLED. */
  lemma ReturnCodeIsProof(steps: seq<Step>, code: int)
    requires Run(steps).s.pc == Finished(code)
    requires code == 0 || code == 1
    ensures var st := Run(steps);
            && st.w.custodian == CustodianGone(Exited(code))
            && st.w.anchor.AnchorGone?
            && !st.s.unexpected
            && !GroupHeld(st.w) && NothingRuns(st.w)
            && Precedes(st.log, CustodianReaped(Exited(code)), SawAbsent(Supervisor))
            && Precedes(st.log, AnchorReaped, SawAbsent(Supervisor))
            && (code == 0 ==> Clean(Messages(st.log)))
  {
    InvariantOfRun(steps);
  }

  /** ... and the code is exact: a finished run returned 0 or 1 if and only if the
      record shows the custodian reaped with that status and the anchor reaped,
      both before the group was seen absent, and no unexpected loss. */
  lemma ReturnCodeIsExact(steps: seq<Step>, code: int, k: int)
    requires Run(steps).s.pc == Finished(code)
    requires k == 0 || k == 1
    ensures var log := Run(steps).log;
            code == k <==>
            && Precedes(log, CustodianReaped(Exited(k)), SawAbsent(Supervisor))
            && Precedes(log, AnchorReaped, SawAbsent(Supervisor))
            && forall x | x in log :: !x.AnchorLossUnexpected?
  {
    InvariantOfRun(steps);
    var st := Run(steps);
    if Precedes(st.log, CustodianReaped(Exited(k)), SawAbsent(Supervisor)) {
      assert Remembered(st.s, CustodianReaped(Exited(k))) && Remembered(st.s, SawAbsent(Supervisor));
    }
  }

  /** Absence, once reported by either party, is final: no later step of the
      run, however long, can bring a process of the group back. */
  lemma AbsenceIsFinal(steps: seq<Step>, p: Party)
    requires SawAbsent(p) in Run(steps).log
    ensures !GroupHeld(Run(steps).w) && NothingRuns(Run(steps).w)
  {
    InvariantOfRun(steps);
  }

  /** No signal from any party ever reaches a stranger that took the number: each
      is sent while an unreaped process known to its sender pins the number, and
      after its own reap a party only probes. */
  lemma SignalsArePinned(steps: seq<Step>, j: nat)
    requires j < |Run(steps).log| && Run(steps).log[j].GroupSignal?
    ensures var log := Run(steps).log;
            && log[j].pinned && !log[j].stranger
            && (log[j].party.Supervisor? ==> AnchorReaped !in log[..j])
            && (log[j].party.Custodian? ==> forall x | x in log[..j] :: !x.LeaderReaped?)
  {
    InvariantOfRun(steps);
    var log := Run(steps).log;
    assert SafeEntry(log[j]);
    forall x | x in log[..j]
      ensures !(x.AnchorReaped? && log[j].party.Supervisor?) && !(x.LeaderReaped? && log[j].party.Custodian?)
    {
      var i :| 0 <= i < j && log[i] == x;
      assert IsSignal(log[j], log[j].party);
    }
  }

  /** A loss of the anchor that the custodian's own group kill caused is never
      judged unexpected, however the steps interleave. */
  lemma DeclaredKillIsNeverUnexpected(steps: seq<Step>, x: Entry)
    requires x in Run(steps).log && x.AnchorLossUnexpected?
    ensures x.cause != ByCustodian
  {
    InvariantOfRun(steps);
    assert SafeEntry(x);
  }

  /** The public status stream of every run is ordered, and honest: EXIT follows
      the reap of a leader with that status and then an observed absence, and
      REFUSED means that no target was resumed and none that was spawned is left. */
  lemma StatusStreamIsHonest(steps: seq<Step>)
    ensures var st := Run(steps);
            && WellOrdered(Messages(st.log))
            && (forall n | 0 <= n < |st.log| && st.log[n].Sent? && st.log[n].message.Exit? ::
                  Precedes(st.log[..n], LeaderReaped(st.log[n].message.status), SawAbsent(Custodian)))
            && (Sent(Refused) in st.log ==>
                  !st.c.resumed && (st.w.leader.NoLeader? || !GroupHeld(st.w)))
  {
    InvariantOfRun(steps);
    var st := Run(steps);
    OrderedTrace(st.c, Messages(st.log));
    forall n | 0 <= n < |st.log| && st.log[n].Sent? && st.log[n].message.Exit?
      ensures Precedes(st.log[..n], LeaderReaped(st.log[n].message.status), SawAbsent(Custodian))
    {
      assert HonestMessage(st.log, n, st.c);
    }
    if Sent(Refused) in st.log {
      RefusedIsProof(st);
    }
  }

  lemma OrderedTrace(c: CustodianState, t: seq<Status>)
    requires TraceAt(c, t)
    ensures WellOrdered(t)
  {
  }

  lemma RefusedIsProof(st: State)
    requires Invariant(st) && Sent(Refused) in st.log
    ensures !st.c.resumed && (st.w.leader.NoLeader? || !GroupHeld(st.w))
  {
    var n :| 0 <= n < |st.log| && st.log[n] == Sent(Refused);
    assert HonestMessage(st.log, n, st.c);
    if st.c.child {
      assert SawAbsent(Custodian) in st.log[..n];
    }
  }

  // ---------- recovery by the anchor alone ----------

  /** What no step takes back: an anchor's death with its cause, a custodian's end,
      and the end of the watchdog pipe once the anchor has read it. */
  predicate Ratchet(w: World, w': World) {
    && (AnchorDead(w) ==> AnchorDead(w') && w'.anchor.cause == w.anchor.cause)
    && (!w.custodian.Running? ==> !w'.custodian.Running?)
    && (w.eof ==> w'.eof)
  }

  lemma RatchetOfRetirement(w: World, c: CustodianState, ch: Choice)
    requires w.custodian.Running?
    ensures Ratchet(w, RetireStep(w, c, ch).w)
  {
  }

  lemma RatchetOfService(w: World, c: CustodianState, ch: Choice)
    requires w.custodian.Running?
    ensures Ratchet(w, ServeStep(w, c, ch).w) && Ratchet(w, SpawnStep(w, c, ch).w)
  {
  }

  lemma RatchetOfCustodian(w: World, c: CustodianState, ch: Choice)
    requires w.custodian.Running?
    ensures Ratchet(w, CustodianMove(w, c, ch).w)
  {
    RatchetOfRetirement(w, c, ch);
    RatchetOfService(w, c, ch);
  }

  lemma RatchetOfKilling(w: World, s: SupervisorState, ch: Choice)
    requires s.pc.KillCustodian? || s.pc.KillAnchorGroup? || s.pc.CleanTop? || s.pc.Probe? || s.pc.Return?
    ensures Ratchet(w, CleanupMove(w, s, ch).w)
  {
  }

  lemma RatchetOfReaping(w: World, s: SupervisorState, ch: Choice)
    requires !s.pc.KillCustodian? && !s.pc.KillAnchorGroup? && !s.pc.CleanTop? && !s.pc.Probe? && !s.pc.Return?
    ensures Ratchet(w, CleanupMove(w, s, ch).w)
  {
  }

  lemma RatchetOfWatching(w: World, s: SupervisorState, ch: Choice)
    requires s.pc.Top? || s.pc.ObserveAnchor? || s.pc.ReadIntent? || s.pc.Judge?
    ensures Ratchet(w, SupervisorMove(w, s, ch, AnchorFirst).w)
  {
  }

  lemma RatchetOfRecovery(w: World, s: SupervisorState, ch: Choice)
    requires s.pc.RecoverKill? || s.pc.RecoverReap?
    ensures Ratchet(w, SupervisorMove(w, s, ch, AnchorFirst).w)
  {
  }

  lemma RatchetOfSupervisor(w: World, s: SupervisorState, ch: Choice)
    ensures Ratchet(w, SupervisorMove(w, s, ch, AnchorFirst).w)
  {
    if s.pc.Top? || s.pc.ObserveAnchor? || s.pc.ReadIntent? || s.pc.Judge? {
      RatchetOfWatching(w, s, ch);
    } else if s.pc.RecoverKill? || s.pc.RecoverReap? {
      RatchetOfRecovery(w, s, ch);
    } else if s.pc.KillCustodian? || s.pc.KillAnchorGroup? || s.pc.CleanTop? || s.pc.Probe? || s.pc.Return? {
      RatchetOfKilling(w, s, ch);
    } else {
      RatchetOfReaping(w, s, ch);
    }
  }

  lemma RatchetOfMove(st: State, e: Step)
    ensures Ratchet(st.w, Move(st, e, AnchorFirst).w)
  {
    if e.CustodianStep? {
      if st.w.custodian.Running? {
        RatchetOfCustodian(st.w, st.c, e.choice);
      }
    } else if e.SupervisorStep? {
      RatchetOfSupervisor(st.w, st.s, e.choice);
    }
  }

  lemma {:induction false} RatchetOfRun(st: State, steps: seq<Step>)
    ensures Ratchet(st.w, RunFrom(st, steps, AnchorFirst).w)
    decreases |steps|
  {
    if steps != [] {
      RatchetOfMove(st, steps[0]);
      RatchetOfRun(Move(st, steps[0], AnchorFirst), steps[1..]);
    }
  }

  lemma {:induction false} RunFromConcat(st: State, a: seq<Step>, b: seq<Step>)
    ensures RunFrom(st, a + b, AnchorFirst) == RunFrom(RunFrom(st, a, AnchorFirst), b, AnchorFirst)
    decreases |a|
  {
    if a == [] {
      assert a + b == b;
    } else {
      assert (a + b)[1..] == a[1..] + b;
      RunFromConcat(Move(st, a[0], AnchorFirst), a[1..], b);
    }
  }

  /** Once the anchor has died of its own kill, nothing of the group ever runs again. */
  lemma WatchdogKillIsFinal(steps: seq<Step>)
    requires !Run(steps).w.anchor.AnchorAlive? && Run(steps).w.anchor.cause == ByAnchor
    ensures NothingRuns(Run(steps).w)
  {
    InvariantOfRun(steps);
  }

  /** Abrupt loss of the custodian is recovered by the anchor alone, whether or not a
      supervisor exists. When the anchor reads its pipe after the custodian is gone,
      anything at all may happen before its next statement; if it lives to run that,
      nothing of the group runs then or at any later time. */
  lemma WatchdogLeavesNoSurvivor(before: seq<Step>, between: seq<Step>, later: seq<Step>)
    requires !Run(before).w.custodian.Running?
    requires Run(before + [AnchorSeesEof] + between).w.anchor.AnchorAlive?
    ensures NothingRuns(Run(before + [AnchorSeesEof] + between + [AnchorKills] + later).w)
  {
    var st := Run(before + [AnchorSeesEof] + between);
    ReadIsRemembered(before, between);
    var killed := Move(st, AnchorKills, AnchorFirst);
    RunFromConcat(START, before + [AnchorSeesEof] + between, [AnchorKills]);
    OneStep(st, AnchorKills);
    RunFromConcat(START, before + [AnchorSeesEof] + between + [AnchorKills], later);
    RatchetOfRun(killed, later);
    WatchdogKillIsFinal(before + [AnchorSeesEof] + between + [AnchorKills] + later);
  }

  lemma OneStep(st: State, e: Step)
    ensures RunFrom(st, [e], AnchorFirst) == Move(st, e, AnchorFirst)
  {
    assert [e][1..] == [];
    assert RunFrom(Move(st, e, AnchorFirst), [], AnchorFirst) == Move(st, e, AnchorFirst);
  }

  lemma ReadIsRemembered(before: seq<Step>, between: seq<Step>)
    requires !Run(before).w.custodian.Running?
    requires Run(before + [AnchorSeesEof] + between).w.anchor.AnchorAlive?
    ensures Run(before + [AnchorSeesEof] + between).w.eof
  {
    var st := Run(before);
    var seen := Move(st, AnchorSeesEof, AnchorFirst);
    RunFromConcat(START, before + [AnchorSeesEof], between);
    RunFromConcat(START, before, [AnchorSeesEof]);
    OneStep(st, AnchorSeesEof);
    RatchetOfRun(seen, between);
    RatchetOfMove(st, AnchorSeesEof);
  }
}
