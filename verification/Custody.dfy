/**
The process-custody protocol of native/claude-code-process-v1.c.

Four parties share one numeric process group: a supervisor, the group's anchor,
a custodian and the target it spawns. Each party is a program counter plus the
variables its C function updates; the kernel is the record `World`. A run is any
sequence of steps of the parties and of their environment, in any order.
*/
module Custody {

  // ---------- the kernel's view ----------

  datatype ExitStatus = Exited(code: int) | Signaled(number: int)

  datatype Party = Supervisor | Anchor | Custodian

  /** Who sent the signal that ended the anchor. */
  datatype Cause = BySupervisor | ByAnchor | ByCustodian | ByOutside

  datatype AnchorProcess =
    | AnchorAlive
    | AnchorZombie(cause: Cause)
    | AnchorGone(cause: Cause)

  datatype Leader =
    | NoLeader
    | LeaderAlive
    | LeaderZombie(status: ExitStatus)
    | LeaderGone(status: ExitStatus)

  datatype CustodianProcess =
    | Running
    | CustodianZombie(status: ExitStatus)
    | CustodianGone(status: ExitStatus)

  /** `live` and `dead` count the group members other than the anchor and the
      leader (dead ones are not yet reaped). `stranger` says that an unrelated
      process group now carries the anchor's number. `intent` counts unread
      bytes of the cleanup-intent pipe; `eof` says that the anchor has read the
      end of the watchdog pipe. */
  datatype World = World(
    anchor: AnchorProcess,
    leader: Leader,
    live: nat,
    dead: nat,
    stranger: bool,
    custodian: CustodianProcess,
    intent: nat,
    eof: bool)

  /** The number cannot be reused while any unreaped process of ours holds it. */
  predicate GroupHeld(w: World) {
    || !w.anchor.AnchorGone?
    || w.leader.LeaderAlive? || w.leader.LeaderZombie?
    || w.live > 0 || w.dead > 0
  }

  /** Nothing of ours can still run in the group. */
  predicate NothingRuns(w: World) {
    !w.anchor.AnchorAlive? && !w.leader.LeaderAlive? && w.live == 0
  }

  /** kill(-group, SIGKILL): every live member dies and waits to be reaped. */
  function KillGroup(w: World, cause: Cause): World {
    w.(anchor := if w.anchor.AnchorAlive? then AnchorZombie(cause) else w.anchor,
       leader := if w.leader.LeaderAlive? then LeaderZombie(Signaled(9)) else w.leader,
       dead := w.dead + w.live,
       live := 0)
  }

  /** A group kill may also be refused as a whole. */
  function KillUnless(refused: bool, w: World, cause: Cause): World {
    if refused then w else KillGroup(w, cause)
  }

  // ---------- the public and private record of a run ----------

  datatype Status = Verified | Started | Exit(status: ExitStatus) | Refused | Uncertain | Cancelled

  /** One entry per observable act. A group signal records whether an unreaped
      process known to its sender pinned the number, and whether a stranger
      carried the number when the signal was sent. */
  datatype Entry =
    | GroupSignal(party: Party, pinned: bool, stranger: bool)
    | KillDeclared
    | LeaderReaped(status: ExitStatus)
    | CustodianReaped(status: ExitStatus)
    | AnchorReaped
    | SawAbsent(party: Party)
    | AnchorLossUnexpected(cause: Cause)
    | Sent(message: Status)
    | Returned(code: int)

  // ---------- the parties ----------

  /** `natural` marks a retirement begun because the leader finished. */
  datatype CustodianPc =
    | Verifying | SendVerified | AwaitGo | SendCancelled
    | Spawning | Checking | Resuming | SendStarted
    | Serving | DeclareKill | SendKill
    | RetireDeclare(natural: bool) | RetireKill(natural: bool) | RetireLeader(natural: bool)
    | RetireReap(natural: bool) | RetireProbe(natural: bool)
    | SendExit | Done | SendFinal(message: Status) | Exiting(code: int)

  datatype CustodianState = CustodianState(
    pc: CustodianPc,
    child: bool,
    reaped: bool,
    owned: bool,
    resumed: bool,
    commands: nat,
    status: ExitStatus)

  datatype SupervisorPc =
    | Top | ObserveAnchor | ReadIntent | Judge | RecoverKill | RecoverReap
    | KillCustodian | KillAnchorGroup | CleanTop | CleanCustodian | CleanAnchor
    | Probe | Return | Finished(code: int) | Lost

  datatype SupervisorState = SupervisorState(
    pc: SupervisorPc,
    custodianDone: bool,
    custodianStatus: ExitStatus,
    anchorExited: bool,
    anchorReaped: bool,
    intentSeen: bool,
    unexpected: bool,
    absent: bool)

  datatype State = State(w: World, c: CustodianState, s: SupervisorState, log: seq<Entry>)

  const START := State(
    World(AnchorAlive, NoLeader, 0, 0, false, Running, 0, false),
    CustodianState(Verifying, false, false, false, false, 0, Exited(0)),
    SupervisorState(Top, false, Exited(0), false, false, false, false, false),
    [])

  /** What the outside world answers at a step: success, an error, an
      interruption, a deadline that has passed, or the command read. */
  datatype Choice = Ok | Fault | Interrupted | Expired | Unowned | Finish | Term | TermRefused | Kill | Cancel

  /** The supervisor observes the anchor before it reads the intent pipe. The
      other order is kept only to show that the source's order matters. */
  datatype Order = AnchorFirst | IntentFirst

  datatype Step =
    | AnchorDies | CustodianDies(number: int) | SupervisorDies
    | LeaderExits(status: ExitStatus) | TargetForks | MemberExits | MemberReaped
    | InitReapsAnchor | InitReapsLeader | StrangerArrives | StrangerLeaves
    | AnchorSeesEof | AnchorKills
    | CustodianStep(choice: Choice)
    | SupervisorStep(choice: Choice)

  predicate SupervisorRuns(s: SupervisorState) { !s.pc.Finished? && !s.pc.Lost? }

  /** What one statement of a party does: the world and the party's own
      variables after it, and the entries it adds to the record. */
  datatype CustodianAct = CustodianAct(w: World, c: CustodianState, entries: seq<Entry>)
  datatype SupervisorAct = SupervisorAct(w: World, s: SupervisorState, entries: seq<Entry>)
  datatype WorldAct = WorldAct(w: World, entries: seq<Entry>)

  // ---------- environment and anchor ----------

  /** `resumed` and `supervised` are all the environment's moves depend on. */
  function EnvironmentMove(w: World, resumed: bool, supervised: bool, e: Step): WorldAct
    requires !e.CustodianStep? && !e.SupervisorStep? && !e.SupervisorDies?
  {
    match e
    case AnchorDies =>
      WorldAct(if w.anchor.AnchorAlive? then w.(anchor := AnchorZombie(ByOutside)) else w, [])
    case CustodianDies(n) =>
      WorldAct(if w.custodian.Running? then w.(custodian := CustodianZombie(Signaled(n))) else w, [])
    case LeaderExits(status) =>
      WorldAct(if w.leader.LeaderAlive? then w.(leader := LeaderZombie(status)) else w, [])
    case TargetForks =>
      WorldAct(if (w.leader.LeaderAlive? && resumed) || w.live > 0 then w.(live := w.live + 1) else w, [])
    case MemberExits =>
      WorldAct(if w.live > 0 then w.(live := w.live - 1, dead := w.dead + 1) else w, [])
    case MemberReaped =>
      WorldAct(if w.dead > 0 then w.(dead := w.dead - 1) else w, [])
    case InitReapsAnchor =>
      WorldAct(if w.anchor.AnchorZombie? && !supervised then w.(anchor := AnchorGone(w.anchor.cause)) else w, [])
    case InitReapsLeader =>
      WorldAct(if w.leader.LeaderZombie? && !w.custodian.Running?
               then w.(leader := LeaderGone(w.leader.status)) else w, [])
    case StrangerArrives =>
      WorldAct(if !GroupHeld(w) then w.(stranger := true) else w, [])
    case StrangerLeaves =>
      WorldAct(w.(stranger := false), [])
    case AnchorSeesEof =>
      WorldAct(if w.anchor.AnchorAlive? && !w.custodian.Running? then w.(eof := true) else w, [])
    case AnchorKills =>
      if w.anchor.AnchorAlive? && w.eof
      then WorldAct(KillGroup(w, ByAnchor), [GroupSignal(Anchor, w.anchor.AnchorAlive?, w.stranger)])
      else WorldAct(w, [])
  }

  // ---------- custodian ----------

  predicate LeaderUnreaped(w: World) { w.leader.LeaderAlive? || w.leader.LeaderZombie? }

  function CustodianSignal(w: World): Entry {
    GroupSignal(Custodian, LeaderUnreaped(w), w.stranger)
  }

  function CustodianAt(w: World, c: CustodianState, pc: CustodianPc): CustodianAct {
    CustodianAct(w, c.(pc := pc), [])
  }

  function SendThen(w: World, c: CustodianState, ok: bool, message: Status, sent: CustodianPc, unsent: CustodianPc)
    : CustodianAct
  {
    if ok then CustodianAct(w, c.(pc := sent), [Sent(message)]) else CustodianAt(w, c, unsent)
  }

  /** declare_cleanup_intent: one byte, readable as long as the reader exists. */
  function Declare(w: World): World { w.(intent := w.intent + 1) }

  /** A failed retirement: `goto done` from the serving loop, otherwise UNCERTAIN. */
  function RetireFailed(natural: bool): CustodianPc {
    if natural then Done else SendFinal(Uncertain)
  }

  function RetireStep(w: World, c: CustodianState, ch: Choice): CustodianAct {
    match c.pc
    case RetireDeclare(n) =>
      if c.owned then CustodianAct(Declare(w), c.(pc := RetireKill(n)), [KillDeclared])
      else CustodianAt(w, c, RetireLeader(n))
    case RetireKill(n) =>
      CustodianAct(KillUnless(ch.Fault?, w, ByCustodian), c.(pc := RetireLeader(n)), [CustodianSignal(w)])
    case RetireLeader(n) =>
      CustodianAt(if w.leader.LeaderAlive? then w.(leader := LeaderZombie(Signaled(9))) else w, c, RetireReap(n))
    case RetireReap(n) =>
      if ch.Interrupted? || (ch.Ok? && !w.leader.LeaderZombie?) then CustodianAt(w, c, c.pc)
      else if !ch.Ok? then CustodianAt(w, c, RetireFailed(n))
      else
        var status := w.leader.status;
        CustodianAct(w.(leader := LeaderGone(status)),
                     c.(reaped := true, status := status, pc := if c.owned then RetireProbe(n) else RetireFailed(n)),
                     [LeaderReaped(status)])
    case RetireProbe(n) =>
      if ch.Expired? then CustodianAt(w, c, RetireFailed(n))
      else if GroupHeld(w) || w.stranger then CustodianAt(w, c, c.pc)
      else CustodianAct(w, c.(pc := if n then SendExit else SendFinal(if c.resumed then Uncertain else Refused)),
                        [SawAbsent(Custodian)])
    case _ => CustodianAt(w, c, c.pc)
  }

  function ServeStep(w: World, c: CustodianState, ch: Choice): CustodianAct {
    match ch
    case Finish => CustodianAt(w, c, if w.leader.LeaderZombie? then RetireDeclare(true) else Serving)
    case Interrupted => CustodianAt(w, c, Serving)
    case Term | TermRefused =>
      if c.commands >= 32 then CustodianAt(w, c, Done)
      else CustodianAct(w, c.(commands := c.commands + 1, pc := if ch.Term? then Serving else Done),
                        [CustodianSignal(w)])
    case Kill | Cancel =>
      if c.commands >= 32 then CustodianAt(w, c, Done)
      else CustodianAct(w, c.(commands := c.commands + 1, pc := DeclareKill), [])
    case _ => CustodianAt(w, c, Done)
  }

  /** Spawning joins the anchored group and fails once that group is gone. */
  function SpawnStep(w: World, c: CustodianState, ch: Choice): CustodianAct {
    if (ch.Ok? || ch.Unowned?) && GroupHeld(w) && w.leader.NoLeader? then
      CustodianAct(w.(leader := LeaderAlive),
                   c.(child := true, owned := ch.Ok?, pc := if ch.Ok? then Checking else Done), [])
    else CustodianAt(w, c, Done)
  }

  function CustodianMove(w: World, c: CustodianState, ch: Choice): CustodianAct {
    match c.pc
    case Verifying => CustodianAt(w, c, if ch.Ok? then SendVerified else Done)
    case SendVerified => SendThen(w, c, ch.Ok?, Verified, AwaitGo, Done)
    case AwaitGo => CustodianAt(w, c, if ch.Ok? then Spawning else if ch.Cancel? then SendCancelled else Done)
    case SendCancelled => SendThen(w, c, ch.Ok?, Cancelled, Exiting(0), Exiting(1))
    case Spawning => SpawnStep(w, c, ch)
    case Checking => CustodianAt(w, c, if ch.Ok? then Resuming else Done)
    case Resuming =>
      if ch.Ok? then CustodianAct(w, c.(resumed := true, pc := SendStarted), []) else CustodianAt(w, c, Done)
    case SendStarted => SendThen(w, c, ch.Ok?, Started, Serving, Done)
    case Serving => ServeStep(w, c, ch)
    case DeclareKill => CustodianAct(Declare(w), c.(pc := SendKill), [KillDeclared])
    case SendKill =>
      CustodianAct(KillUnless(ch.Fault?, w, ByCustodian), c.(pc := if ch.Ok? then Serving else Done), [CustodianSignal(w)])
    case SendExit => SendThen(w, c, ch.Ok?, Exit(c.status), Exiting(0), Exiting(1))
    case Done =>
      CustodianAt(w, c, if c.child && !c.reaped then RetireDeclare(false)
                        else SendFinal(if c.resumed then Uncertain else Refused))
    case SendFinal(message) => SendThen(w, c, ch.Ok?, message, Exiting(1), Exiting(1))
    case Exiting(code) => CustodianAct(w.(custodian := CustodianZombie(Exited(code))), c, [])
    case _ => RetireStep(w, c, ch)
  }

  // ---------- supervisor ----------

  function SupervisorSignal(w: World): Entry {
    GroupSignal(Supervisor, !w.anchor.AnchorGone?, w.stranger)
  }

  function SupervisorAt(w: World, s: SupervisorState, pc: SupervisorPc): SupervisorAct {
    SupervisorAct(w, s.(pc := pc), [])
  }

  /** waitpid(custodian, WNOHANG). */
  function ReapCustodian(w: World, s: SupervisorState, next: SupervisorPc): SupervisorAct {
    if w.custodian.CustodianZombie? then
      var status := w.custodian.status;
      SupervisorAct(w.(custodian := CustodianGone(status)),
                    s.(custodianDone := true, custodianStatus := status, pc := next),
                    [CustodianReaped(status)])
    else SupervisorAt(w, s, next)
  }

  /** waitpid(anchor, WNOHANG). */
  function ReapAnchor(w: World, s: SupervisorState, next: SupervisorPc): SupervisorAct {
    if w.anchor.AnchorZombie? then
      SupervisorAct(w.(anchor := AnchorGone(w.anchor.cause)), s.(anchorReaped := true, pc := next), [AnchorReaped])
    else SupervisorAt(w, s, next)
  }

  function ObserveStep(w: World, s: SupervisorState, ch: Choice, next: SupervisorPc): SupervisorAct {
    if s.anchorExited then SupervisorAt(w, s, next)
    else if ch.Fault? then SupervisorAt(w, s, KillCustodian)
    else SupervisorAct(w, s.(anchorExited := ch.Ok? && w.anchor.AnchorZombie?, pc := next), [])
  }

  function IntentStep(w: World, s: SupervisorState, ch: Choice, next: SupervisorPc): SupervisorAct {
    if s.intentSeen then SupervisorAt(w, s, next)
    else if ch.Fault? then SupervisorAt(w, s, KillCustodian)
    else if w.intent > 0 then SupervisorAct(w.(intent := w.intent - 1), s.(intentSeen := true, pc := next), [])
    else SupervisorAt(w, s, next)
  }

  function AnchorCause(w: World): Cause {
    if w.anchor.AnchorAlive? then ByOutside else w.anchor.cause
  }

  function JudgeStep(w: World, s: SupervisorState): SupervisorAct {
    if s.anchorExited && !s.anchorReaped && !s.custodianDone then
      if s.intentSeen then SupervisorAt(w, s, RecoverKill)
      else SupervisorAct(w, s.(unexpected := true, pc := KillCustodian), [AnchorLossUnexpected(AnchorCause(w))])
    else SupervisorAt(w, s, Top)
  }

  function ReturnCode(s: SupervisorState): int {
    if !s.absent || !s.custodianDone || !s.anchorReaped || s.unexpected then 2
    else if s.custodianStatus == Exited(0) then 0
    else if s.custodianStatus == Exited(1) then 1
    else 2
  }

  function CleanupMove(w: World, s: SupervisorState, ch: Choice): SupervisorAct {
    match s.pc
    case KillCustodian =>
      SupervisorAt(if !s.custodianDone && w.custodian.Running?
                   then w.(custodian := CustodianZombie(Signaled(9))) else w, s, KillAnchorGroup)
    case KillAnchorGroup =>
      if s.anchorReaped then SupervisorAt(w, s, CleanTop)
      else SupervisorAct(KillUnless(ch.Fault?, w, BySupervisor), s.(pc := CleanTop), [SupervisorSignal(w)])
    case CleanTop =>
      SupervisorAt(w, s, if s.custodianDone && s.anchorReaped then Probe
                         else if ch.Expired? then Return else CleanCustodian)
    case CleanCustodian =>
      if s.custodianDone || ch.Interrupted? then SupervisorAt(w, s, CleanAnchor)
      else if ch.Fault? then SupervisorAt(w, s, Return)
      else ReapCustodian(w, s, CleanAnchor)
    case CleanAnchor =>
      if s.anchorReaped || ch.Interrupted? then SupervisorAt(w, s, CleanTop)
      else if ch.Fault? then SupervisorAt(w, s, Return)
      else ReapAnchor(w, s, CleanTop)
    case Probe =>
      if ch.Expired? then SupervisorAt(w, s, Return)
      else if GroupHeld(w) || w.stranger then SupervisorAt(w, s, Probe)
      else SupervisorAct(w, s.(absent := true, pc := Return), [SawAbsent(Supervisor)])
    case Return =>
      SupervisorAct(w, s.(pc := Finished(ReturnCode(s))), [Returned(ReturnCode(s))])
    case _ => SupervisorAt(w, s, s.pc)
  }

  function SupervisorMove(w: World, s: SupervisorState, ch: Choice, order: Order): SupervisorAct {
    match s.pc
    case Top =>
      var next := if order.AnchorFirst? then ObserveAnchor else ReadIntent;
      if s.custodianDone || ch.Expired? || ch.Fault? then SupervisorAt(w, s, KillCustodian)
      else if ch.Interrupted? then SupervisorAt(w, s, next)
      else ReapCustodian(w, s, next)
    case ObserveAnchor => ObserveStep(w, s, ch, if order.AnchorFirst? then ReadIntent else Judge)
    case ReadIntent => IntentStep(w, s, ch, if order.AnchorFirst? then Judge else ObserveAnchor)
    case Judge => JudgeStep(w, s)
    case RecoverKill =>
      SupervisorAct(KillUnless(ch.Fault?, w, BySupervisor), s.(pc := RecoverReap), [SupervisorSignal(w)])
    case RecoverReap => if ch.Ok? then ReapAnchor(w, s, Top) else SupervisorAt(w, s, KillCustodian)
    case _ => CleanupMove(w, s, ch)
  }

  // ---------- runs ----------

  function Move(st: State, e: Step, order: Order): State {
    match e
    case CustodianStep(ch) =>
      if !st.w.custodian.Running? then st
      else
        var act := CustodianMove(st.w, st.c, ch);
        State(act.w, act.c, st.s, st.log + act.entries)
    case SupervisorStep(ch) =>
      if !SupervisorRuns(st.s) then st
      else
        var act := SupervisorMove(st.w, st.s, ch, order);
        State(act.w, st.c, act.s, st.log + act.entries)
    case SupervisorDies =>
      if SupervisorRuns(st.s) then State(st.w, st.c, st.s.(pc := Lost), st.log) else st
    case _ =>
      var act := EnvironmentMove(st.w, st.c.resumed, SupervisorRuns(st.s), e);
      State(act.w, st.c, st.s, st.log + act.entries)
  }

  /** Every run of the program as written: any interleaving of any length. */
  function Run(steps: seq<Step>): State {
    RunFrom(START, steps, AnchorFirst)
  }

  function RunFrom(st: State, steps: seq<Step>, order: Order): State
    decreases |steps|
  {
    if steps == [] then st else RunFrom(Move(st, steps[0], order), steps[1..], order)
  }
}
