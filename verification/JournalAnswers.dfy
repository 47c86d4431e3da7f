/**
What the answers of an installation-journal session say about its directory, and
what a client can rely on.
*/
module JournalAnswers {
  import opened Bytes
  import opened Wrappers
  import opened JournalNames
  import opened JournalList
  import opened JournalSpec
  import opened JournalProofs

  /** Everything but the history of commands is as it was. */
  predicate SameFiles(s: State, s': State) {
    s'.dir == s.dir && s'.inodes == s.inodes && s'.created == s.created
  }

  // ---------- reading ----------

  /** The file a name leads to. */
  predicate LeadsTo(s: State, n: Name, node: Inode) {
    n in s.dir && s.dir[n] in s.inodes && s.inodes[s.dir[n]] == node
  }

  /** READ is answered exactly when the name is a journal name that leads to a
      regular file within the limit of its kind, and then with that whole file. */
  lemma ReadAnswersTheFile(session: Session, s: State, n: Name, maximum: nat, k: Kernel)
    ensures var o := Handle(session, s, Read(n, maximum), k);
            var limit := if EndsWith(n, Ascii(".publish.json")) then 1024 else 65536;
            && (o.Replied? <==>
                  && IsJournalName(session.id, n) && k.fault == 0 && maximum == limit
                  && exists node :: LeadsTo(s, n, node) && node.regular && 1 <= |node.bytes| <= limit)
            && (o.Replied? ==>
                  o.reply.status == 0 && o.reply.payload.Contents? && LeadsTo(s, n, o.reply.payload.file))
            && SameFiles(s, o.s)
  {
    if n in s.dir && s.dir[n] in s.inodes {
      assert LeadsTo(s, n, s.inodes[s.dir[n]]);
    }
  }

  /** STAT is answered for every journal name, with the file it leads to, if any. */
  lemma StatAnswersTheFile(session: Session, s: State, n: Name, k: Kernel)
    requires Sound(s)
    ensures var o := Handle(session, s, Stat(n), k);
            && (o.Replied? <==> IsJournalName(session.id, n) && k.fault == 0)
            && (o.Replied? ==>
                  && o.reply.status == 0 && o.reply.payload.Attributes?
                  && (o.reply.payload.found.Some? <==> n in s.dir)
                  && (n in s.dir ==> LeadsTo(s, n, o.reply.payload.found.value)))
            && SameFiles(s, o.s)
  {
  }

  /** LIST is answered when readdir yields the directory and it is within the limits. */
  lemma ListAnswersTheDirectory(session: Session, s: State, k: Kernel)
    ensures var o := Handle(session, s, List, k);
            && (o.Replied? <==>
                  && k.fault == 0 && Enumerates(k.entries, s.dir) && |Visible(k.entries)| <= 10000
                  && forall n | n in Visible(k.entries) :: |n| <= 255)
            && (o.Replied? ==> o.reply.status == 0 && DecodeList(o.reply.payload.bytes) == Some(Visible(k.entries)))
            && SameFiles(s, o.s)
  {
    if Listable(Visible(k.entries)) {
      ListRoundTrip(Visible(k.entries));
    }
  }

  /** Which commands each kind of session answers. */
  lemma SessionsAnswerTheirOwn(session: Session, s: State, c: Command, k: Kernel)
    requires Handle(session, s, c, k).Replied?
    ensures session.op.InspectSession? ==> c.List? || c.Stat? || c.Read? || c.VerifyRoot? || c.Close?
    ensures session.op.ReadSession? ==> !c.Create? && !c.Write? && !c.SyncFile? && !c.Link?
  {
  }

  /** The commands without a file are answered whenever the session has them and no
      call fails, and change nothing. */
  lemma PlainCommandsAreAnswered(session: Session, s: State, c: Command, k: Kernel)
    requires c.SyncDirectory? || c.VerifyRoot? || c.Close?
    ensures var o := Handle(session, s, c, k);
            && (o.Replied? <==> k.fault == 0 && (c.SyncDirectory? ==> !session.op.InspectSession?))
            && (o.Replied? ==> o.reply.status == 0 && o.reply.payload == NoPayload)
            && SameFiles(s, o.s)
  {
  }

  // ---------- taken names ----------

  predicate Taking(c: Command) { c.Create? || c.Link? }

  /** The name a CREATE or a LINK would bind. */
  function Taken(c: Command): Name
    requires Taking(c)
  {
    if c.Create? then c.name else c.target
  }

  /** CREATE and LINK answer 1 exactly when the name is taken, and then change
      nothing; nobody's name is ever rebound. */
  lemma TakenNamesAreKept(session: Session, s: State, c: Command, k: Kernel)
    requires Taking(c)
    ensures var o := Handle(session, s, c, k);
            && (o.Replied? ==> o.reply.status == if Taken(c) in s.dir then 1 else 0)
            && (Taken(c) in s.dir ==> SameFiles(s, o.s))
            && (forall n | n in s.dir :: n in o.s.dir && o.s.dir[n] == s.dir[n])
  {
    if Permitted(session.op, c) && NamesValid(session.id, c) {
      HandledIsExecuted(session, s, c, k);
      if c.Create? {
        CreateKeepsTaken(s, c, k);
      } else {
        LinkKeepsTaken(s, c, k);
      }
    }
  }

  predicate KeepsTaken(s: State, n: Name, o: Outcome) {
    && (o.Replied? ==> o.reply.status == if n in s.dir then 1 else 0)
    && (n in s.dir ==> SameFiles(s, o.s))
    && (forall m | m in s.dir :: m in o.s.dir && o.s.dir[m] == s.dir[m])
  }

  lemma CreateKeepsTaken(s: State, c: Command, k: Kernel)
    requires c.Create?
    ensures KeepsTaken(s, c.name, DoCreate(s, c, k))
  {
  }

  lemma LinkKeepsTaken(s: State, c: Command, k: Kernel)
    requires c.Link?
    ensures KeepsTaken(s, c.target, DoLink(s, c, k))
  {
  }

  /** UNLINK removes no name but its own, and that only while it leads to the file
      named; it is answered when it did, or when a missing name was allowed. */
  lemma UnlinkRemovesItsOwn(session: Session, s: State, name: Name, id: Ident, allowMissing: bool, k: Kernel)
    ensures var o := Handle(session, s, Unlink(name, id, allowMissing), k);
            && (o.s.dir != s.dir ==> o.s.dir == s.dir - {name} && NamedBy(s, name, id) && LeadsToRegular(s, id) && Removable(name))
            && o.s.inodes == s.inodes && o.s.created == s.created
            && (o.Replied? ==>
                  o.reply.status == 0 && name !in o.s.dir && (name in s.dir || allowMissing))
            && (k.fault == 0 && Permitted(session.op, Unlink(name, id, allowMissing)) && IsJournalName(session.id, name)
                && Removable(name) && (if name in s.dir then NamedBy(s, name, id) && LeadsToRegular(s, id) else allowMissing)
                ==> o.Replied?)
  {
  }

  predicate LeadsToRegular(s: State, id: Ident) { id in s.inodes && s.inodes[id].regular }

  /** The phase a file must be in for a command, and the one it is in afterwards. */
  predicate Advances(c: Command, before: Phase, after: Phase) {
    match c
    case Write(_, _, _, _) => before == Fresh && after == Written
    case SyncFile(_, _) => before == Written && after == Synced
    case _ => before == Synced && after == Synced
  }

  /** WRITE, SYNC_FILE and LINK are answered only for a held file that its name still
      leads to, in the phase they need: a file is written once, within the limit of
      its kind, then synced once, and only then linked, from a temporary name to a
      target. */
  lemma AnsweredFilesAreNamed(session: Session, s: State, c: Command, k: Kernel)
    requires (c.Write? || c.SyncFile? || c.Link?) && Handle(session, s, c, k).Replied?
    ensures NamedBy(s, c.name, c.id)
    ensures exists i :: 0 <= i < |s.created| && s.created[i].name == c.name && s.created[i].id == c.id
              && i < |Handle(session, s, c, k).s.created|
              && Advances(c, s.created[i].phase, Handle(session, s, c, k).s.created[i].phase)
    ensures c.Write? ==>
              c.maximum == (if WitnessName(c.name) then 1024 else 65536) && 1 <= |c.payload| <= c.maximum
    ensures c.Link? ==> TemporaryName(c.name) && TargetName(c.target)
  {
    HandledIsExecuted(session, s, c, k);
    var i := FindCreated(s.created, c.name, c.id).value;
    assert s.created[i].name == c.name && s.created[i].id == c.id;
    if c.Write? {
      WriteAdvances(s, c, k);
    } else if c.SyncFile? {
      SyncAdvances(s, c, k);
    } else {
      LinkAdvances(s, c, k);
    }
  }

  /** The slot `i` before and after. */
  predicate SlotAdvances(s: State, c: Command, o: Outcome, i: nat) {
    i < |s.created| && i < |o.s.created| && Advances(c, s.created[i].phase, o.s.created[i].phase)
  }

  lemma WriteAdvances(s: State, c: Command, k: Kernel)
    requires c.Write? && DoWrite(s, c, k).Replied?
    ensures NamedBy(s, c.name, c.id) && FindCreated(s.created, c.name, c.id).Some?
    ensures SlotAdvances(s, c, DoWrite(s, c, k), FindCreated(s.created, c.name, c.id).value)
    ensures c.maximum == (if WitnessName(c.name) then 1024 else 65536) && 1 <= |c.payload| <= c.maximum
  {
  }

  lemma SyncAdvances(s: State, c: Command, k: Kernel)
    requires c.SyncFile? && DoSyncFile(s, c, k).Replied?
    ensures NamedBy(s, c.name, c.id) && FindCreated(s.created, c.name, c.id).Some?
    ensures SlotAdvances(s, c, DoSyncFile(s, c, k), FindCreated(s.created, c.name, c.id).value)
  {
  }

  lemma LinkAdvances(s: State, c: Command, k: Kernel)
    requires c.Link? && DoLink(s, c, k).Replied?
    ensures NamedBy(s, c.name, c.id) && FindCreated(s.created, c.name, c.id).Some?
    ensures SlotAdvances(s, c, DoLink(s, c, k), FindCreated(s.created, c.name, c.id).value)
    ensures TemporaryName(c.name) && TargetName(c.target)
  {
  }

  // ---------- what a failure may leave ----------

  /** CREATE, answered or not, leaves the directory as it was or adds an empty new
      file under its name. */
  lemma CreateAddsAnEmptyFile(session: Session, s: State, name: Name, k: Kernel)
    ensures var o := Handle(session, s, Create(name), k);
            || (o.s.dir == s.dir && o.s.inodes == s.inodes)
            || (name !in s.dir && o.s.dir == s.dir[name := k.number]
                && o.s.inodes == s.inodes[k.number := Inode(true, [], false)])
  {
  }

  /** WRITE, answered or not, changes no name, and of the files only its own, to a
      beginning of its payload. */
  lemma WriteLeavesAPrefix(session: Session, s: State, c: Command, k: Kernel)
    requires c.Write?
    ensures var o := Handle(session, s, c, k);
            && o.s.dir == s.dir
            && (o.s.inodes == s.inodes
                || exists n :: 0 <= n <= |c.payload| && o.s.inodes == s.inodes[c.id := Inode(true, c.payload[..n], false)])
            && (o.Replied? ==> o.s.inodes == s.inodes[c.id := Inode(true, c.payload, false)])
  {
    if Permitted(session.op, c) && NamesValid(session.id, c) {
      HandledIsExecuted(session, s, c, k);
      DoWriteLeavesAPrefix(s, c, k);
    }
  }

  lemma DoWriteLeavesAPrefix(s: State, c: Command, k: Kernel)
    requires c.Write?
    ensures var o := DoWrite(s, c, k);
            && o.s.dir == s.dir
            && (o.s.inodes == s.inodes
                || exists n :: 0 <= n <= |c.payload| && o.s.inodes == s.inodes[c.id := Inode(true, c.payload[..n], false)])
            && (o.Replied? ==> o.s.inodes == s.inodes[c.id := Inode(true, c.payload, false)])
  {
    var o := DoWrite(s, c, k);
    assert c.payload[..|c.payload|] == c.payload;
    if o.s.inodes != s.inodes && k.fault == 2 {
      var done := if k.partial < |c.payload| then k.partial else |c.payload|;
      assert o.s.inodes == s.inodes[c.id := Inode(true, c.payload[..done], false)];
    }
  }

  // ---------- a publication succeeds ----------

  /** The kernel gives a number that no name and no held descriptor carries. */
  predicate Grants(s: State, k: Kernel) { k.fault == 0 && !Live(s, k.number) }

  /** Where the file of the last slot stands. */
  predicate Stands(s: State, s': State, tmp: Name, id: Ident, phase: Phase, node: Inode) {
    && tmp !in s.dir && s'.dir == s.dir[tmp := id] && s'.inodes == s.inodes[id := node]
    && s'.created == s.created + [CreatedFile(tmp, id, phase)]
    && forall i | 0 <= i < |s.created| :: s.created[i].id != id
  }

  /** A permitted command with valid names is executed. */
  lemma HandledIsExecuted(session: Session, s: State, c: Command, k: Kernel)
    requires Permitted(session.op, c) && NamesValid(session.id, c)
    ensures Handle(session, s, c, k) == Execute(s, c, k)
  {
  }

  lemma CreateStands(s: State, tmp: Name, k: Kernel)
    requires TemporaryName(tmp) && |s.created| < 4 && tmp !in s.dir && Grants(s, k)
    ensures var o := DoCreate(s, Create(tmp), k);
            && o.Replied? && o.reply.payload == Identity(k.number)
            && Stands(s, o.s, tmp, k.number, Fresh, Inode(true, [], false))
  {
    forall i | 0 <= i < |s.created|
      ensures s.created[i].id != k.number
    {
      assert Held(s, s.created[i].id);
    }
  }

  /** The slot is found by its name and identity. */
  lemma LastSlotIsFound(created: seq<CreatedFile>, f: CreatedFile)
    requires forall i | 0 <= i < |created| :: created[i].id != f.id
    ensures FindCreated(created + [f], f.name, f.id) == Some(|created|)
  {
    var all := created + [f];
    assert all[|created|] == f;
    var slot := FindCreated(all, f.name, f.id);
    assert slot.Some?;
  }

  lemma WriteStands(s: State, s': State, c: Command, k: Kernel)
    requires c.Write? && c.maximum == 65536 && TemporaryName(c.name) && k.fault == 0
    requires Stands(s, s', c.name, c.id, Fresh, Inode(true, [], false)) && 1 <= |c.payload| <= 65536
    ensures var o := DoWrite(s', c, k);
            o.Replied? && Stands(s, o.s, c.name, c.id, Written, Inode(true, c.payload, false))
  {
    LastSlotIsFound(s.created, CreatedFile(c.name, c.id, Fresh));
    TemporaryIsNoWitness(c.name);
    var full := SetInode(s', c.id, Inode(true, c.payload, false));
    assert full.inodes == s.inodes[c.id := Inode(true, c.payload, false)];
  }

  lemma TemporaryIsNoWitness(tmp: Name)
    requires TemporaryName(tmp)
    ensures !WitnessName(tmp)
  {
    if |tmp| >= 13 {
      assert tmp[|tmp| - 4..][3] == tmp[|tmp| - 1] == tmp[|tmp| - 13..][12];
    }
  }

  lemma SyncStands(s: State, s': State, c: Command, payload: seq<byte>, k: Kernel)
    requires c.SyncFile? && k.fault == 0 && Stands(s, s', c.name, c.id, Written, Inode(true, payload, false))
    ensures var o := DoSyncFile(s', c, k);
            o.Replied? && Stands(s, o.s, c.name, c.id, Synced, Inode(true, payload, true))
  {
    LastSlotIsFound(s.created, CreatedFile(c.name, c.id, Written));
    var node := Inode(true, payload, true);
    assert s'.inodes[c.id].(durable := true) == node;
    assert s'.inodes[c.id := node] == s.inodes[c.id := node];
  }

  lemma LinkStands(s: State, s': State, c: Command, node: Inode, k: Kernel)
    requires c.Link? && TemporaryName(c.name) && TargetName(c.target) && k.fault == 0
    requires Stands(s, s', c.name, c.id, Synced, node) && c.target !in s'.dir
    ensures var o := DoLink(s', c, k);
            o.Replied? && o.s.dir == s'.dir[c.target := c.id] && o.s.inodes == s'.inodes
  {
    LastSlotIsFound(s.created, CreatedFile(c.name, c.id, Synced));
  }

  /** The file stands published under both names: removing the temporary one leaves
      the directory as it was, with the target added. */
  lemma UnlinkStands(s: State, s': State, c: Command, target: Name, k: Kernel)
    requires c.Unlink? && TemporaryName(c.name) && k.fault == 0 && LeadsToRegular(s', c.id)
    requires c.name !in s.dir && c.name != target && s'.dir == s.dir[c.name := c.id][target := c.id]
    ensures var o := DoUnlink(s', c, k); o.Replied? && o.s.dir == s.dir[target := c.id] && o.s.inodes == s'.inodes
  {
    assert s'.dir - {c.name} == s.dir[target := c.id];
  }

  lemma ReadStands(s: State, target: Name, node: Inode, k: Kernel)
    requires !WitnessName(target) && k.fault == 0
    requires LeadsTo(s, target, node) && node.regular && 1 <= |node.bytes| <= 65536
    ensures var o := Observe(s, Read(target, 65536), k); o.Replied? && o.reply.payload == Contents(node)
  {
  }

  /** The six outcomes, one after the other. */
  ghost predicate Publishes(s: State, tmp: Name, target: Name, payload: seq<byte>, id: Ident,
                            o0: Outcome, o1: Outcome, o2: Outcome, o3: Outcome, o4: Outcome, o5: Outcome)
  {
    && o0.Replied? && o1.Replied? && o2.Replied? && o3.Replied? && o4.Replied?
    && o0.reply.payload == Identity(id)
    && o4.s.dir == s.dir[target := id] && o4.s.inodes == s.inodes[id := Inode(true, payload, true)]
    && o5.Replied? && o5.reply.payload == Contents(Inode(true, payload, true))
  }

  lemma PublicationExecutes(s: State, tmp: Name, target: Name, payload: seq<byte>,
                            k0: Kernel, k1: Kernel, k2: Kernel, k3: Kernel, k4: Kernel, k5: Kernel)
    requires TemporaryName(tmp) && tmp !in s.dir && TargetName(target) && target !in s.dir
    requires |s.created| < 4 && 1 <= |payload| <= 65536 && Grants(s, k0)
    requires k1.fault == k2.fault == k3.fault == k4.fault == k5.fault == 0
    ensures var id := k0.number;
            var o0 := DoCreate(s, Create(tmp), k0);
            var o1 := DoWrite(o0.s, Write(tmp, id, payload, 65536), k1);
            var o2 := DoSyncFile(o1.s, SyncFile(tmp, id), k2);
            var o3 := DoLink(o2.s, Link(tmp, target, id), k3);
            var o4 := DoUnlink(o3.s, Unlink(tmp, id, false), k4);
            var o5 := Observe(o4.s, Read(target, 65536), k5);
            Publishes(s, tmp, target, payload, id, o0, o1, o2, o3, o4, o5)
  {
    var id, node := k0.number, Inode(true, payload, true);
    CreateStands(s, tmp, k0);
    var s0 := DoCreate(s, Create(tmp), k0).s;
    WriteStands(s, s0, Write(tmp, id, payload, 65536), k1);
    var s1 := DoWrite(s0, Write(tmp, id, payload, 65536), k1).s;
    SyncStands(s, s1, SyncFile(tmp, id), payload, k2);
    var s2 := DoSyncFile(s1, SyncFile(tmp, id), k2).s;
    TargetAndTemporaryDiffer(tmp, target);
    LinkStands(s, s2, Link(tmp, target, id), node, k3);
    var s3 := DoLink(s2, Link(tmp, target, id), k3).s;
    UnlinkStands(s, s3, Unlink(tmp, id, false), target, k4);
    ReadStands(DoUnlink(s3, Unlink(tmp, id, false), k4).s, target, node, k5);
  }

  lemma ChangesAreExecuted(session: Session, tmp: Name, id: Ident, payload: seq<byte>,
                           s0: State, k0: Kernel, s1: State, k1: Kernel, s2: State, k2: Kernel)
    requires session.op.AppendSession? && IsJournalName(session.id, tmp)
    ensures Handle(session, s0, Create(tmp), k0) == DoCreate(s0, Create(tmp), k0)
    ensures Handle(session, s1, Write(tmp, id, payload, 65536), k1) == DoWrite(s1, Write(tmp, id, payload, 65536), k1)
    ensures Handle(session, s2, SyncFile(tmp, id), k2) == DoSyncFile(s2, SyncFile(tmp, id), k2)
  {
    HandledIsExecuted(session, s0, Create(tmp), k0);
    HandledIsExecuted(session, s1, Write(tmp, id, payload, 65536), k1);
    HandledIsExecuted(session, s2, SyncFile(tmp, id), k2);
  }

  lemma NamesAreExecuted(session: Session, tmp: Name, target: Name, id: Ident,
                         s3: State, k3: Kernel, s4: State, k4: Kernel, s5: State, k5: Kernel)
    requires session.op.AppendSession? && IsJournalName(session.id, tmp) && IsJournalName(session.id, target)
    ensures Handle(session, s3, Link(tmp, target, id), k3) == DoLink(s3, Link(tmp, target, id), k3)
    ensures Handle(session, s4, Unlink(tmp, id, false), k4) == DoUnlink(s4, Unlink(tmp, id, false), k4)
    ensures Handle(session, s5, Read(target, 65536), k5) == Observe(s5, Read(target, 65536), k5)
  {
    HandledIsExecuted(session, s3, Link(tmp, target, id), k3);
    HandledIsExecuted(session, s4, Unlink(tmp, id, false), k4);
    HandledIsExecuted(session, s5, Read(target, 65536), k5);
  }

  /** In an append session with room for a file, publishing `payload` under free
      names is answered at every step, and leaves in the directory exactly the new
      target, leading to a durable file that holds exactly the payload; a READ of it
      then returns that payload. */
  lemma PublicationSucceeds(session: Session, s: State, tmp: Name, target: Name, payload: seq<byte>,
                            k0: Kernel, k1: Kernel, k2: Kernel, k3: Kernel, k4: Kernel, k5: Kernel)
    requires session.op.AppendSession?
    requires IsJournalName(session.id, tmp) && TemporaryName(tmp) && tmp !in s.dir
    requires IsJournalName(session.id, target) && TargetName(target) && target !in s.dir
    requires |s.created| < 4 && 1 <= |payload| <= 65536 && Grants(s, k0)
    requires k1.fault == k2.fault == k3.fault == k4.fault == k5.fault == 0
    ensures var id := k0.number;
            var o0 := Handle(session, s, Create(tmp), k0);
            var o1 := Handle(session, o0.s, Write(tmp, id, payload, 65536), k1);
            var o2 := Handle(session, o1.s, SyncFile(tmp, id), k2);
            var o3 := Handle(session, o2.s, Link(tmp, target, id), k3);
            var o4 := Handle(session, o3.s, Unlink(tmp, id, false), k4);
            var o5 := Handle(session, o4.s, Read(target, 65536), k5);
            Publishes(s, tmp, target, payload, id, o0, o1, o2, o3, o4, o5)
  {
    var id := k0.number;
    var o0 := DoCreate(s, Create(tmp), k0);
    var o1 := DoWrite(o0.s, Write(tmp, id, payload, 65536), k1);
    var o2 := DoSyncFile(o1.s, SyncFile(tmp, id), k2);
    var o3 := DoLink(o2.s, Link(tmp, target, id), k3);
    var o4 := DoUnlink(o3.s, Unlink(tmp, id, false), k4);
    ChangesAreExecuted(session, tmp, id, payload, s, k0, o0.s, k1, o1.s, k2);
    NamesAreExecuted(session, tmp, target, id, o2.s, k3, o3.s, k4, o4.s, k5);
    PublicationExecutes(s, tmp, target, payload, k0, k1, k2, k3, k4, k5);
  }

  lemma TargetAndTemporaryDiffer(tmp: Name, target: Name)
    requires TemporaryName(tmp) && TargetName(target)
    ensures tmp != target && !WitnessName(target)
  {
    assert tmp[|tmp| - 4..][3] == tmp[|tmp| - 1];
    assert target[|target| - 5..][4] == target[|target| - 1];
  }

  // ---------- whole sessions ----------

  predicate SizedWrite(x: Exchange) {
    x.command.Write? ==> 1 <= |x.command.payload| <= if WitnessName(x.command.name) then 1024 else 65536
  }

  /** The journal names of the installation. */
  ghost function NamesOf(session: Session): iset<Name> {
    iset n: Name | IsJournalName(session.id, n)
  }

  /** A session holds at most four files, creates none but temporary and witness
      ones, adds no name but those `known`, and writes nothing empty or over the
      limit. */
  ghost predicate Tidy(known: iset<Name>, init: State, s: State) {
    && |s.created| <= 4
    && (forall f | f in s.created :: Removable(f.name) && f.name in known)
    && (forall n | n in s.dir && n !in init.dir :: n in known && (Removable(n) || TargetName(n)))
    && (forall x | x in s.accepted :: SizedWrite(x))
  }

  lemma TidyAfterCreate(known: iset<Name>, init: State, s: State, c: Command, k: Kernel)
    requires Tidy(known, init, s) && c.Create? && c.name in known
    ensures Tidy(known, init, DoCreate(s, c, k).s)
  {
  }

  lemma TidyAfterWrite(known: iset<Name>, init: State, s: State, c: Command, k: Kernel)
    requires Tidy(known, init, s) && c.Write?
    ensures Tidy(known, init, DoWrite(s, c, k).s)
  {
  }

  lemma TidyAfterSync(known: iset<Name>, init: State, s: State, c: Command, k: Kernel)
    requires Tidy(known, init, s) && c.SyncFile?
    ensures Tidy(known, init, DoSyncFile(s, c, k).s)
  {
  }

  lemma TidyAfterLink(known: iset<Name>, init: State, s: State, c: Command, k: Kernel)
    requires Tidy(known, init, s) && c.Link? && c.target in known
    ensures Tidy(known, init, DoLink(s, c, k).s)
  {
  }

  lemma TidyAfterUnlink(known: iset<Name>, init: State, s: State, c: Command, k: Kernel)
    requires Tidy(known, init, s) && c.Unlink?
    ensures Tidy(known, init, DoUnlink(s, c, k).s)
  {
  }

  lemma TidyAfterLook(known: iset<Name>, init: State, s: State, c: Command, k: Kernel)
    requires Tidy(known, init, s)
    requires c.List? || c.Stat? || c.Read? || c.SyncDirectory? || c.VerifyRoot? || c.Close?
    ensures Tidy(known, init, Observe(s, c, k).s)
  {
  }

  lemma TidyAfter(known: iset<Name>, init: State, s: State, c: Command, k: Kernel)
    requires Tidy(known, init, s)
    requires c.Create? ==> c.name in known
    requires c.Link? ==> c.target in known
    ensures Tidy(known, init, Execute(s, c, k).s)
  {
    match c
    case Create(_) => TidyAfterCreate(known, init, s, c, k);
    case Write(_, _, _, _) => TidyAfterWrite(known, init, s, c, k);
    case SyncFile(_, _) => TidyAfterSync(known, init, s, c, k);
    case Link(_, _, _) => TidyAfterLink(known, init, s, c, k);
    case Unlink(_, _, _) => TidyAfterUnlink(known, init, s, c, k);
    case _ => TidyAfterLook(known, init, s, c, k);
  }

  lemma TidyHandled(session: Session, init: State, s: State, c: Command, k: Kernel)
    requires Tidy(NamesOf(session), init, s)
    ensures Tidy(NamesOf(session), init, Handle(session, s, c, k).s)
  {
    if Permitted(session.op, c) && NamesValid(session.id, c) {
      HandledIsExecuted(session, s, c, k);
      TidyAfter(NamesOf(session), init, s, c, k);
    }
  }

  lemma {:induction false} TidyRun(session: Session, init: State, s: State, steps: seq<(Command, Kernel)>)
    requires Tidy(NamesOf(session), init, s)
    ensures Tidy(NamesOf(session), init, Run(session, s, steps).s)
    decreases |steps|, 1
  {
    if steps != [] {
      TidyHandled(session, init, s, steps[0].0, steps[0].1);
      TidyChain(session, init, Handle(session, s, steps[0].0, steps[0].1), steps[0].0.Close?, steps[1..]);
    }
  }

  lemma TidyChain(session: Session, init: State, o: Outcome, last: bool, steps: seq<(Command, Kernel)>)
    requires Tidy(NamesOf(session), init, o.s)
    ensures Tidy(NamesOf(session), init, Chain(o, last, Run(session, o.s, steps)).s)
    decreases |steps|, 2
  {
    TidyRun(session, init, o.s, steps);
  }

  /** Whatever the commands and however the kernel answers, a session stays tidy. */
  lemma SessionStaysTidy(session: Session, init: State, steps: seq<(Command, Kernel)>)
    requires Initial(init)
    ensures Tidy(NamesOf(session), init, Run(session, init, steps).s)
  {
    TidyRun(session, init, init, steps);
  }

  /** A target that a session has linked can be read in it, and an answered READ
      returns the payload of the one accepted WRITE of its file. */
  lemma LinkedTargetReadsBack(session: Session, init: State, steps: seq<(Command, Kernel)>, t: Name, k: Kernel)
    returns (b: nat)
    requires Initial(init)
    requires t in Run(session, init, steps).s.dir && TargetName(t) && t !in init.dir
    ensures var s := Run(session, init, steps).s;
            var o := Handle(session, s, Read(t, 65536), k);
            && b < |s.accepted| && IsWrite(s.accepted[b]) && s.accepted[b].command.id == s.dir[t]
            && (forall j | 0 <= j < |s.accepted| && IsWrite(s.accepted[j]) && s.accepted[j].command.id == s.dir[t] :: j == b)
            && (o.Replied? <==> k.fault == 0)
            && (o.Replied? ==> o.reply.payload == Contents(Inode(true, s.accepted[b].command.payload, true)))
  {
    var i, a, d;
    i, a, b, d := LinkedTargetHasLineage(session, init, steps, t);
    SessionStaysTidy(session, init, steps);
    PublishedReadsBack(session, init, Run(session, init, steps).s, t, i, a, b, d, k);
  }

  lemma PublishedReadsBack(session: Session, init: State, s: State, t: Name, i: nat, a: nat, b: nat, d: nat, k: Kernel)
    requires Backed(s, t, i, a, b, d) && Tidy(NamesOf(session), init, s) && TargetName(t) && t !in init.dir
    ensures var o := Handle(session, s, Read(t, 65536), k);
            && (o.Replied? <==> k.fault == 0)
            && (o.Replied? ==> o.reply.payload == Contents(Inode(true, s.accepted[b].command.payload, true)))
  {
    assert s.accepted[b] in s.accepted && SizedWrite(s.accepted[b]);
    assert LeadsTo(s, t, s.inodes[s.dir[t]]);
    ReadAnswersTheFile(session, s, t, 65536, k);
  }
}
