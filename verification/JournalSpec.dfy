/**
What one command of an installation-journal session does to the journal
directory (native/installation-journal-session-v1.c), as a function of the
state, the command and the kernel's answers.
*/
module JournalSpec {
  import opened Bytes
  import opened Wrappers
  import opened JournalNames
  import opened JournalList

  /** st_dev and st_ino. The number of a file that is neither named nor held may
      be given to a new file. */
  datatype Ident = Ident(device: nat, inode: nat)

  datatype Inode = Inode(regular: bool, bytes: seq<byte>, durable: bool)

  /** created_file.state: 0, 1 and 2. */
  datatype Phase = Fresh | Written | Synced

  datatype CreatedFile = CreatedFile(name: Name, id: Ident, phase: Phase)

  datatype Operation = ReadSession | InspectSession | AppendSession

  datatype Command =
    | List
    | Stat(name: Name)
    | Read(name: Name, maximum: nat)
    | Create(name: Name)
    | Write(name: Name, id: Ident, payload: seq<byte>, maximum: nat)
    | SyncFile(name: Name, id: Ident)
    | Link(name: Name, target: Name, id: Ident)
    | Unlink(name: Name, id: Ident, allowMissing: bool)
    | SyncDirectory
    | VerifyRoot
    | Close

  /** `accepted` is the history of commands answered so far, with their replies. */
  datatype State = State(
    dir: map<Name, Ident>,
    inodes: map<Ident, Inode>,
    created: seq<CreatedFile>,
    accepted: seq<Exchange>)

  /** The kernel's answers to one command: the system call that fails or is
      reached after the deadline (0 for none), the number given to a new file,
      how much of an interrupted write was done, and the entries readdir yields. */
  datatype Kernel = Kernel(fault: nat, number: Ident, partial: nat, entries: seq<Name>)

  datatype Exchange = Exchange(command: Command, reply: Reply)

  datatype Payload =
    | NoPayload
    | Identity(id: Ident)
    | Attributes(found: Option<Inode>)
    | Contents(file: Inode)
    | Names(bytes: seq<byte>)

  datatype Reply = Reply(status: nat, ordinal: nat, payload: Payload)

  /** Any result below zero ends the session; what was done so far stays done. */
  datatype Outcome = Replied(s: State, reply: Reply) | Failed(s: State)

  datatype Session = Session(op: Operation, id: Name)

  const MAX_CREATED := 4
  const MAX_PLAN_BYTES := 65536
  const MAX_WITNESS_BYTES := 1024

  function MaximumFor(name: Name): nat {
    if WitnessName(name) then MAX_WITNESS_BYTES else MAX_PLAN_BYTES
  }

  predicate Removable(name: Name) { TemporaryName(name) || WitnessName(name) }

  predicate Permitted(op: Operation, c: Command) {
    if c.List? || c.Stat? || c.Read? || c.VerifyRoot? || c.Close? then true
    else if op.InspectSession? then false
    else if c.Unlink? || c.SyncDirectory? then true
    else op.AppendSession?
  }

  /** find_created: the first slot with this name and identity. */
  function FindCreated(created: seq<CreatedFile>, name: Name, id: Ident): (r: Option<nat>)
    ensures r.Some? ==> r.value < |created| && created[r.value].name == name && created[r.value].id == id
    ensures r.Some? ==> forall j | 0 <= j < r.value :: !(created[j].name == name && created[j].id == id)
    ensures r.None? ==> forall i | 0 <= i < |created| :: !(created[i].name == name && created[i].id == id)
  {
    if created == [] then None
    else if created[0].name == name && created[0].id == id then Some(0)
    else
      match FindCreated(created[1..], name, id)
      case None => None
      case Some(i) => Some(i + 1)
  }

  predicate Held(s: State, id: Ident) { exists i | 0 <= i < |s.created| :: s.created[i].id == id }

  predicate Live(s: State, id: Ident) { id in s.dir.Values || Held(s, id) }

  predicate NamedBy(s: State, name: Name, id: Ident) { name in s.dir && s.dir[name] == id }

  function SetPhase(s: State, i: nat, phase: Phase): State
    requires i < |s.created|
  {
    s.(created := s.created[i := s.created[i].(phase := phase)])
  }

  function SetInode(s: State, id: Ident, node: Inode): State {
    s.(inodes := s.inodes[id := node])
  }

  /** next_ordinal is an unsigned 32-bit counter. */
  function Ordinal(n: nat): nat { n % 4294967296 }

  function Accept(s: State, c: Command, status: nat, payload: Payload): Outcome {
    var reply := Reply(status, Ordinal(|s.accepted| + 1), payload);
    Replied(s.(accepted := s.accepted + [Exchange(c, reply)]), reply)
  }

  // ---------- the commands ----------

  function DoCreate(s: State, c: Command, k: Kernel): Outcome
    requires c.Create?
  {
    if |s.created| >= MAX_CREATED || !Removable(c.name) || k.fault == 1 then Failed(s)
    else if c.name in s.dir then Accept(s, c, 1, NoPayload)
    else if Live(s, k.number) then Failed(s)
    else
      var made := s.(dir := s.dir[c.name := k.number], inodes := s.inodes[k.number := Inode(true, [], false)]);
      if k.fault == 2 then Failed(made)
      else
        var held := made.(created := made.created + [CreatedFile(c.name, k.number, Fresh)]);
        if k.fault == 3 then Failed(held) else Accept(held, c, 0, Identity(k.number))
  }

  function DoWrite(s: State, c: Command, k: Kernel): Outcome
    requires c.Write?
  {
    match FindCreated(s.created, c.name, c.id)
    case None => Failed(s)
    case Some(i) =>
      if !s.created[i].phase.Fresh? || c.maximum != MaximumFor(c.name) || |c.payload| < 1
         || |c.payload| > c.maximum || k.fault == 1
      then Failed(s)
      else if k.fault == 2 then
        var done := if k.partial < |c.payload| then k.partial else |c.payload|;
        Failed(SetInode(s, c.id, Inode(true, c.payload[..done], false)))
      else
        var full := SetInode(s, c.id, Inode(true, c.payload, false));
        if k.fault == 3 || !NamedBy(s, c.name, c.id) then Failed(full)
        else if k.fault == 4 then Failed(SetPhase(full, i, Written))
        else Accept(SetPhase(full, i, Written), c, 0, NoPayload)
  }

  function DoSyncFile(s: State, c: Command, k: Kernel): Outcome
    requires c.SyncFile?
  {
    match FindCreated(s.created, c.name, c.id)
    case None => Failed(s)
    case Some(i) =>
      if !s.created[i].phase.Written? || k.fault == 1 || c.id !in s.inodes then Failed(s)
      else
        var synced := SetInode(s, c.id, s.inodes[c.id].(durable := true));
        if k.fault == 2 || !NamedBy(s, c.name, c.id) then Failed(synced)
        else if k.fault == 3 then Failed(SetPhase(synced, i, Synced))
        else Accept(SetPhase(synced, i, Synced), c, 0, NoPayload)
  }

  function DoLink(s: State, c: Command, k: Kernel): Outcome
    requires c.Link?
  {
    match FindCreated(s.created, c.name, c.id)
    case None => Failed(s)
    case Some(i) =>
      if !TemporaryName(c.name) || !TargetName(c.target) || !s.created[i].phase.Synced?
         || !NamedBy(s, c.name, c.id) || k.fault == 1
      then Failed(s)
      else if c.target in s.dir then Accept(s, c, 1, NoPayload)
      else
        var linked := s.(dir := s.dir[c.target := c.id]);
        if k.fault == 2 then Failed(linked) else Accept(linked, c, 0, NoPayload)
  }

  function DoUnlink(s: State, c: Command, k: Kernel): Outcome
    requires c.Unlink?
  {
    if !Removable(c.name) || k.fault == 1 then Failed(s)
    else if c.name !in s.dir then if c.allowMissing then Accept(s, c, 0, NoPayload) else Failed(s)
    else if c.id !in s.inodes || !s.inodes[c.id].regular || s.dir[c.name] != c.id then Failed(s)
    else
      var removed := s.(dir := s.dir - {c.name});
      if k.fault == 2 then Failed(removed) else Accept(removed, c, 0, NoPayload)
  }

  function NodeOf(s: State, name: Name): Option<Inode> {
    if name in s.dir && s.dir[name] in s.inodes then Some(s.inodes[s.dir[name]]) else None
  }

  /** readdir yields "." and ".." and every name of the directory once. */
  predicate Enumerates(entries: seq<Name>, dir: map<Name, Ident>) {
    && (forall n | n in Visible(entries) :: n in dir)
    && (forall n | n in dir :: n in Visible(entries))
    && (forall i, j | 0 <= i < j < |Visible(entries)| :: Visible(entries)[i] != Visible(entries)[j])
  }

  /** LIST, STAT, READ, SYNC_DIRECTORY, VERIFY_ROOT and CLOSE change nothing. */
  function Observe(s: State, c: Command, k: Kernel): Outcome
    requires c.List? || c.Stat? || c.Read? || c.SyncDirectory? || c.VerifyRoot? || c.Close?
  {
    if k.fault > 0 then Failed(s)
    else
      match c
      case List =>
        if Enumerates(k.entries, s.dir) && Listable(Visible(k.entries))
        then Accept(s, c, 0, Names(EncodeList(Visible(k.entries)))) else Failed(s)
      case Stat(name) => Accept(s, c, 0, Attributes(NodeOf(s, name)))
      case Read(name, maximum) =>
        var node := NodeOf(s, name);
        if maximum != MaximumFor(name) || node.None? || !node.value.regular
           || |node.value.bytes| < 1 || |node.value.bytes| > maximum
        then Failed(s) else Accept(s, c, 0, Contents(node.value))
      case _ => Accept(s, c, 0, NoPayload)
  }

  function Execute(s: State, c: Command, k: Kernel): Outcome {
    match c
    case Create(_) => DoCreate(s, c, k)
    case Write(_, _, _, _) => DoWrite(s, c, k)
    case SyncFile(_, _) => DoSyncFile(s, c, k)
    case Link(_, _, _) => DoLink(s, c, k)
    case Unlink(_, _, _) => DoUnlink(s, c, k)
    case _ => Observe(s, c, k)
  }

  /** Every name a command carries must be a journal name of this installation. */
  ghost predicate NamesValid(id: Name, c: Command) {
    match c
    case List | SyncDirectory | VerifyRoot | Close => true
    case Link(name, target, _) => IsJournalName(id, name) && IsJournalName(id, target)
    case _ => IsJournalName(id, c.name)
  }

  ghost function Handle(session: Session, s: State, c: Command, k: Kernel): Outcome {
    if Permitted(session.op, c) && NamesValid(session.id, c) then Execute(s, c, k) else Failed(s)
  }

  // ---------- whole sessions ----------

  datatype Ending = Open | Closed | Broken

  datatype Result = Result(s: State, replies: seq<Reply>, ending: Ending)

  /** A failure or the last command ends the session; otherwise the rest follows. */
  function Chain(o: Outcome, last: bool, rest: Result): Result {
    match o
    case Failed(s) => Result(s, [], Broken)
    case Replied(s, reply) =>
      if last then Result(s, [reply], Closed) else Result(rest.s, [reply] + rest.replies, rest.ending)
  }

  /** The session loop over commands. */
  ghost function Run(session: Session, s: State, steps: seq<(Command, Kernel)>): Result
    decreases |steps|
  {
    if steps == [] then Result(s, [], Open)
    else
      var o := Handle(session, s, steps[0].0, steps[0].1);
      Chain(o, steps[0].0.Close?, Run(session, o.s, steps[1..]))
  }

  /** A directory as a session finds it. */
  predicate Initial(s: State) {
    s.created == [] && s.accepted == [] && forall n | n in s.dir :: s.dir[n] in s.inodes
  }
}
