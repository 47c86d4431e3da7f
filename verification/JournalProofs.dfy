/**
What every installation-journal session keeps.
*/
module JournalProofs {
  import opened Bytes
  import opened Wrappers
  import opened JournalNames
  import opened JournalList
  import opened JournalSpec

  // ---------- files held and names published ----------

  /** Held descriptors keep identities distinct, and every name leads to a file. */
  predicate WellHeld(s: State) {
    && (forall n | n in s.dir :: s.dir[n] in s.inodes)
    && (forall i | 0 <= i < |s.created| :: s.created[i].id in s.inodes)
    && (forall i, j | 0 <= i < j < |s.created| :: s.created[i].id != s.created[j].id)
  }

  /** A published name never leads to a file that may still be written. */
  predicate PublishedIsFinal(s: State) {
    forall t, i | t in s.dir && TargetName(t) && 0 <= i < |s.created| && s.created[i].id == s.dir[t] ::
      s.created[i].phase.Synced?
  }

  predicate Sound(s: State) { WellHeld(s) && PublishedIsFinal(s) }

  /** Every published target keeps its name, its file and its bytes. */
  predicate Keeps(s: State, s': State) {
    forall t | t in s.dir && TargetName(t) && s.dir[t] in s.inodes ::
      t in s'.dir && s'.dir[t] == s.dir[t] && s.dir[t] in s'.inodes && s'.inodes[s.dir[t]] == s.inodes[s.dir[t]]
  }

  lemma RemovableIsNoTarget(name: Name)
    requires Removable(name)
    ensures !TargetName(name)
  {
    if |name| >= 5 {
      assert name[|name| - 5..][4] == name[|name| - 1];
      assert name[|name| - 4..][3] == name[|name| - 1];
    }
  }

  lemma SoundAfterNew(s: State, name: Name, id: Ident)
    requires Sound(s) && !TargetName(name) && name !in s.dir && !Live(s, id)
    ensures var made := s.(dir := s.dir[name := id], inodes := s.inodes[id := Inode(true, [], false)]);
            && Sound(made) && Keeps(s, made)
            && var held := made.(created := made.created + [CreatedFile(name, id, Fresh)]);
            Sound(held) && Keeps(s, held)
  {
  }

  lemma SoundAfterCreate(s: State, c: Command, k: Kernel)
    requires Sound(s) && c.Create?
    ensures Sound(DoCreate(s, c, k).s) && Keeps(s, DoCreate(s, c, k).s)
  {
    if Removable(c.name) && c.name !in s.dir && !Live(s, k.number) {
      RemovableIsNoTarget(c.name);
      SoundAfterNew(s, c.name, k.number);
    }
  }

  lemma SoundAfterInode(s: State, id: Ident, node: Inode, i: nat)
    requires Sound(s) && i < |s.created| && s.created[i].id == id && !s.created[i].phase.Synced?
    ensures Sound(SetInode(s, id, node)) && Keeps(s, SetInode(s, id, node))
  {
  }

  lemma SoundAfterPhase(s: State, i: nat, phase: Phase)
    requires Sound(s) && i < |s.created| && !s.created[i].phase.Synced?
    ensures Sound(SetPhase(s, i, phase)) && Keeps(s, SetPhase(s, i, phase))
  {
  }

  lemma SoundAfterWrite(s: State, c: Command, k: Kernel)
    requires Sound(s) && c.Write?
    ensures Sound(DoWrite(s, c, k).s) && Keeps(s, DoWrite(s, c, k).s)
  {
    var slot := FindCreated(s.created, c.name, c.id);
    if slot.Some? && s.created[slot.value].phase.Fresh? {
      var i := slot.value;
      var done := if k.partial < |c.payload| then k.partial else |c.payload|;
      SoundAfterInode(s, c.id, Inode(true, c.payload[..done], false), i);
      var full := SetInode(s, c.id, Inode(true, c.payload, false));
      SoundAfterInode(s, c.id, Inode(true, c.payload, false), i);
      SoundAfterPhase(full, i, Written);
    }
  }

  lemma SoundAfterSync(s: State, c: Command, k: Kernel)
    requires Sound(s) && c.SyncFile?
    ensures Sound(DoSyncFile(s, c, k).s) && Keeps(s, DoSyncFile(s, c, k).s)
  {
    var slot := FindCreated(s.created, c.name, c.id);
    if slot.Some? && s.created[slot.value].phase.Written? && c.id in s.inodes {
      var i := slot.value;
      var node := s.inodes[c.id].(durable := true);
      SoundAfterInode(s, c.id, node, i);
      SoundAfterPhase(SetInode(s, c.id, node), i, Synced);
    }
  }

  lemma SoundAfterLink(s: State, c: Command, k: Kernel)
    requires Sound(s) && c.Link?
    ensures Sound(DoLink(s, c, k).s) && Keeps(s, DoLink(s, c, k).s)
  {
  }

  lemma SoundAfterUnlink(s: State, c: Command, k: Kernel)
    requires Sound(s) && c.Unlink?
    ensures Sound(DoUnlink(s, c, k).s) && Keeps(s, DoUnlink(s, c, k).s)
  {
    if Removable(c.name) {
      RemovableIsNoTarget(c.name);
    }
  }

  lemma SoundAfter(s: State, c: Command, k: Kernel)
    requires Sound(s)
    ensures Sound(Execute(s, c, k).s) && Keeps(s, Execute(s, c, k).s)
  {
    match c
    case Create(_) => SoundAfterCreate(s, c, k);
    case Write(_, _, _, _) => SoundAfterWrite(s, c, k);
    case SyncFile(_, _) => SoundAfterSync(s, c, k);
    case Link(_, _, _) => SoundAfterLink(s, c, k);
    case Unlink(_, _, _) => SoundAfterUnlink(s, c, k);
    case _ =>
  }

  // ---------- the history of a published file ----------

  /** The `a`-th accepted command is the CREATE that returned this identity. */
  predicate CreatedBy(s: State, name: Name, id: Ident, a: nat) {
    a < |s.accepted| && s.accepted[a].command == Create(name)
    && s.accepted[a].reply.status == 0 && s.accepted[a].reply.payload == Identity(id)
  }

  predicate WriteAt(s: State, name: Name, id: Ident, b: nat) {
    b < |s.accepted| && s.accepted[b].command.Write?
    && s.accepted[b].command.name == name && s.accepted[b].command.id == id
  }

  predicate WrittenBy(s: State, name: Name, id: Ident, a: nat, b: nat) {
    && a < b && CreatedBy(s, name, id, a) && WriteAt(s, name, id, b)
    && id in s.inodes && s.inodes[id] == Inode(true, s.accepted[b].command.payload, false)
  }

  /** Three accepted commands in order: this file was created under `name`,
      written once with what it still holds, and synced after that. */
  predicate Lineage(s: State, name: Name, id: Ident, a: nat, b: nat, d: nat) {
    && a < b < d < |s.accepted| && CreatedBy(s, name, id, a) && WriteAt(s, name, id, b)
    && s.accepted[d].command == SyncFile(name, id)
    && id in s.inodes && s.inodes[id] == Inode(true, s.accepted[b].command.payload, true)
  }

  /** The accepted commands explain the state of every created file. */
  ghost predicate Told(s: State, f: CreatedFile) {
    match f.phase
    case Fresh => exists a :: CreatedBy(s, f.name, f.id, a)
    case Written => exists a, b :: WrittenBy(s, f.name, f.id, a, b)
    case Synced => exists a, b, d :: Lineage(s, f.name, f.id, a, b, d)
  }

  predicate IsWrite(x: Exchange) { x.command.Write? }

  /** No file is written by two accepted commands. */
  predicate WrittenOnce(s: State) {
    && (forall j | 0 <= j < |s.accepted| && IsWrite(s.accepted[j]) ::
          exists i | 0 <= i < |s.created| :: s.created[i].id == s.accepted[j].command.id && !s.created[i].phase.Fresh?)
    && OneWriteEach(s)
  }

  predicate OneWriteEach(s: State) {
    forall j, j' | 0 <= j < j' < |s.accepted| && IsWrite(s.accepted[j]) && IsWrite(s.accepted[j']) ::
      s.accepted[j].command.id != s.accepted[j'].command.id
  }

  /** The file `t` leads to is held in slot `i`, and its story is complete. */
  predicate Backed(s: State, t: Name, i: nat, a: nat, b: nat, d: nat) {
    && t in s.dir && i < |s.created| && s.created[i].id == s.dir[t] && s.created[i].phase.Synced?
    && Lineage(s, s.created[i].name, s.dir[t], a, b, d)
  }

  /** The `e`-th accepted command is the LINK that bound `t` to the file of slot `i`. */
  predicate LinkedBy(s: State, t: Name, i: nat, e: nat) {
    && t in s.dir && i < |s.created| && e < |s.accepted|
    && s.accepted[e].command == Link(s.created[i].name, t, s.dir[t]) && s.accepted[e].reply.status == 0
  }

  ghost predicate TargetTold(s: State, t: Name) {
    exists i: nat, a: nat, b: nat, d: nat, e: nat :: Backed(s, t, i, a, b, d) && LinkedBy(s, t, i, e) && d < e
  }

  /** ... or the LINK was the command that failed last. */
  ghost predicate TargetBegun(s: State, t: Name, last: Command) {
    exists i: nat, a: nat, b: nat, d: nat :: Backed(s, t, i, a, b, d) && last == Link(s.created[i].name, t, s.dir[t])
  }

  /** The invariant of an open session that began in `init`. */
  ghost predicate Explained(init: State, s: State) {
    && Sound(s)
    && WrittenOnce(s)
    && (forall f | f in s.created :: Told(s, f))
    && (forall t | t in s.dir && TargetName(t) && t !in init.dir :: TargetTold(s, t))
  }

  lemma LineageKept(s: State, s': State, name: Name, id: Ident, a: nat, b: nat, d: nat)
    requires Lineage(s, name, id, a, b, d)
    requires s.accepted <= s'.accepted && id in s'.inodes && s'.inodes[id] == s.inodes[id]
    ensures Lineage(s', name, id, a, b, d)
  {
  }

  lemma WrittenKept(s: State, s': State, name: Name, id: Ident, a: nat, b: nat)
    requires WrittenBy(s, name, id, a, b)
    requires s.accepted <= s'.accepted && id in s'.inodes && s'.inodes[id] == s.inodes[id]
    ensures WrittenBy(s', name, id, a, b)
  {
  }

  /** A file whose inode is untouched keeps its story as the history grows. */
  lemma ToldKept(s: State, s': State, f: CreatedFile)
    requires Told(s, f) && s.accepted <= s'.accepted
    requires f.id in s.inodes && f.id in s'.inodes && s'.inodes[f.id] == s.inodes[f.id]
    ensures Told(s', f)
  {
    match f.phase
    case Fresh =>
      var a :| CreatedBy(s, f.name, f.id, a);
      assert CreatedBy(s', f.name, f.id, a);
    case Written =>
      var a, b :| WrittenBy(s, f.name, f.id, a, b);
      WrittenKept(s, s', f.name, f.id, a, b);
    case Synced =>
      var a, b, d :| Lineage(s, f.name, f.id, a, b, d);
      LineageKept(s, s', f.name, f.id, a, b, d);
  }

  /** Slots stay where they are, and a synced one does not change. */
  predicate SlotsStay(s: State, s': State) {
    && |s.created| <= |s'.created|
    && forall i | 0 <= i < |s.created| ::
         && s'.created[i].name == s.created[i].name && s'.created[i].id == s.created[i].id
         && (s.created[i].phase.Synced? ==> s'.created[i].phase.Synced?)
  }

  lemma SlotsStayAfter(s: State, c: Command, k: Kernel)
    ensures SlotsStay(s, Execute(s, c, k).s)
  {
    match c
    case Create(_) =>
    case Write(_, _, _, _) => assert SlotsStay(s, DoWrite(s, c, k).s);
    case SyncFile(_, _) => assert SlotsStay(s, DoSyncFile(s, c, k).s);
    case _ =>
  }

  lemma BackedKept(s: State, s': State, t: Name, i: nat, a: nat, b: nat, d: nat)
    requires Backed(s, t, i, a, b, d) && TargetName(t)
    requires Keeps(s, s') && s.accepted <= s'.accepted && SlotsStay(s, s')
    ensures Backed(s', t, i, a, b, d)
  {
    LineageKept(s, s', s.created[i].name, s.dir[t], a, b, d);
  }

  lemma TargetToldKept(s: State, s': State, t: Name)
    requires TargetTold(s, t) && TargetName(t)
    requires Keeps(s, s') && s.accepted <= s'.accepted && SlotsStay(s, s')
    ensures TargetTold(s', t)
  {
    var i, a, b, d, e :| Backed(s, t, i, a, b, d) && LinkedBy(s, t, i, e) && d < e;
    BackedKept(s, s', t, i, a, b, d);
    assert LinkedBy(s', t, i, e);
  }

  /** A name that appears as a target was linked to a file held in a slot, whose
      story was complete before. */
  lemma NewTargetIsBacked(init: State, s: State, c: Command, k: Kernel, t: Name)
    requires Explained(init, s) && t in Execute(s, c, k).s.dir && TargetName(t) && t !in s.dir
    ensures var o := Execute(s, c, k); if o.Replied? then TargetTold(o.s, t) else TargetBegun(o.s, t, c)
  {
    var o := Execute(s, c, k);
    NewTargetIsLinked(s, c, k, t);
    AcceptedGrows(s, c, k);
    SlotsStayAfter(s, c, k);
    var i := FindCreated(s.created, c.name, c.id).value;
    assert Told(s, s.created[i]);
    var a, b, d :| Lineage(s, c.name, c.id, a, b, d);
    LineageKept(s, o.s, c.name, c.id, a, b, d);
    assert Backed(o.s, t, i, a, b, d);
    if o.Replied? {
      assert LinkedBy(o.s, t, i, |s.accepted|);
    }
  }

  /** Published names keep their story through any command. */
  lemma TargetsToldAfter(init: State, s: State, c: Command, k: Kernel)
    requires Explained(init, s)
    ensures var o := Execute(s, c, k);
            forall t | t in o.s.dir && TargetName(t) && t !in init.dir ::
              TargetTold(o.s, t) || (o.Failed? && TargetBegun(o.s, t, c))
  {
    var o := Execute(s, c, k);
    SoundAfter(s, c, k);
    AcceptedGrows(s, c, k);
    SlotsStayAfter(s, c, k);
    forall t | t in o.s.dir && TargetName(t) && t !in init.dir
      ensures TargetTold(o.s, t) || (o.Failed? && TargetBegun(o.s, t, c))
    {
      if t in s.dir {
        TargetToldKept(s, o.s, t);
      } else {
        NewTargetIsBacked(init, s, c, k, t);
      }
    }
  }

  predicate Counted(s: State, c: Command, o: Outcome) {
    && o.s.accepted == (if o.Replied? then s.accepted + [Exchange(c, o.reply)] else s.accepted)
    && (o.Replied? ==> o.reply.ordinal == Ordinal(|s.accepted| + 1))
  }

  lemma ChangesCounted(s: State, c: Command, k: Kernel)
    ensures c.Create? ==> Counted(s, c, DoCreate(s, c, k))
    ensures c.Write? ==> Counted(s, c, DoWrite(s, c, k))
    ensures c.SyncFile? ==> Counted(s, c, DoSyncFile(s, c, k))
  {
  }

  lemma NamesCounted(s: State, c: Command, k: Kernel)
    ensures c.Link? ==> Counted(s, c, DoLink(s, c, k))
    ensures c.Unlink? ==> Counted(s, c, DoUnlink(s, c, k))
  {
  }

  lemma LooksCounted(s: State, c: Command, k: Kernel)
    requires c.List? || c.Stat? || c.Read? || c.SyncDirectory? || c.VerifyRoot? || c.Close?
    ensures Counted(s, c, Observe(s, c, k))
  {
  }

  lemma AcceptedGrows(s: State, c: Command, k: Kernel)
    ensures Counted(s, c, Execute(s, c, k))
  {
    ChangesCounted(s, c, k);
    NamesCounted(s, c, k);
    if c.List? || c.Stat? || c.Read? || c.SyncDirectory? || c.VerifyRoot? || c.Close? {
      LooksCounted(s, c, k);
    }
  }

  /** Only LINK makes a target name appear, of a synced file, and it leaves every
      inode and every slot as it was. */
  lemma NewTargetIsLinked(s: State, c: Command, k: Kernel, t: Name)
    requires t in Execute(s, c, k).s.dir && TargetName(t) && t !in s.dir
    ensures c.Link? && c.target == t && Execute(s, c, k).s.dir[t] == c.id
    ensures Execute(s, c, k).s.inodes == s.inodes && Execute(s, c, k).s.created == s.created
    ensures Execute(s, c, k).Replied? ==> Execute(s, c, k).reply.status == 0
    ensures var slot := FindCreated(s.created, c.name, c.id); slot.Some? && s.created[slot.value].phase.Synced?
    ensures TemporaryName(c.name)
  {
    if c.Create? && Removable(c.name) {
      RemovableIsNoTarget(c.name);
    }
  }

  // ---------- accepted commands keep the invariant ----------

  /** Commands that touch no slot and no inode. */
  lemma ExplainedAfterQuiet(init: State, s: State, c: Command, k: Kernel)
    requires Explained(init, s) && !c.Write?
    requires Execute(s, c, k).Replied?
    requires Execute(s, c, k).s.created == s.created && Execute(s, c, k).s.inodes == s.inodes
    ensures Explained(init, Execute(s, c, k).s)
  {
    var s' := Execute(s, c, k).s;
    SoundAfter(s, c, k);
    TargetsToldAfter(init, s, c, k);
    AcceptedGrows(s, c, k);
    forall f | f in s'.created
      ensures Told(s', f)
    {
      ToldKept(s, s', f);
    }
    WrittenOnceAfterCreate(s, s', Exchange(c, Execute(s, c, k).reply));
  }

  lemma ExplainedAfterCreate(init: State, s: State, c: Command, k: Kernel)
    requires Explained(init, s) && c.Create? && DoCreate(s, c, k).Replied? && c.name !in s.dir
    ensures Explained(init, DoCreate(s, c, k).s)
  {
    var s' := DoCreate(s, c, k).s;
    assert Execute(s, c, k).s == s';
    SoundAfter(s, c, k);
    TargetsToldAfter(init, s, c, k);
    assert s'.accepted == s.accepted + [Exchange(c, DoCreate(s, c, k).reply)];
    forall f | f in s'.created
      ensures Told(s', f)
    {
      ToldAfterCreate(s, c, k, f);
    }
    WrittenOnceAfterCreate(s, s', Exchange(c, DoCreate(s, c, k).reply));
  }

  lemma ToldAfterCreate(s: State, c: Command, k: Kernel, f: CreatedFile)
    requires WellHeld(s) && (forall g | g in s.created :: Told(s, g))
    requires c.Create? && DoCreate(s, c, k).Replied? && c.name !in s.dir
    requires f in DoCreate(s, c, k).s.created
    ensures Told(DoCreate(s, c, k).s, f)
  {
    var s' := DoCreate(s, c, k).s;
    if f in s.created {
      ToldKept(s, s', f);
    } else {
      assert CreatedBy(s', f.name, f.id, |s.accepted|);
    }
  }

  lemma WrittenOnceAfterCreate(s: State, s': State, x: Exchange)
    requires WrittenOnce(s) && !IsWrite(x) && s'.accepted == s.accepted + [x] && s.created <= s'.created
    ensures WrittenOnce(s')
  {
    forall j | 0 <= j < |s'.accepted| && IsWrite(s'.accepted[j])
      ensures exists i | 0 <= i < |s'.created| ::
                s'.created[i].id == s'.accepted[j].command.id && !s'.created[i].phase.Fresh?
    {
      assert s'.accepted[j] == s.accepted[j];
      var i :| 0 <= i < |s.created| && s.created[i].id == s.accepted[j].command.id && !s.created[i].phase.Fresh?;
      assert s'.created[i] == s.created[i];
    }
  }

  /** Only the slot of the file written or synced changes phase. */
  lemma SlotsAfter(s: State, i: nat, phase: Phase, f: CreatedFile)
    requires WellHeld(s) && i < |s.created| && f in SetPhase(s, i, phase).created
    ensures f == s.created[i].(phase := phase) || (f in s.created && f.id != s.created[i].id)
  {
  }

  lemma ExplainedAfterWrite(init: State, s: State, c: Command, k: Kernel)
    requires Explained(init, s) && c.Write? && DoWrite(s, c, k).Replied?
    ensures Explained(init, DoWrite(s, c, k).s)
  {
    var s' := DoWrite(s, c, k).s;
    var i := FindCreated(s.created, c.name, c.id).value;
    assert Execute(s, c, k).s == s';
    SoundAfter(s, c, k);
    TargetsToldAfter(init, s, c, k);
    var x := Exchange(c, DoWrite(s, c, k).reply);
    assert s'.accepted == s.accepted + [x];
    forall f | f in s'.created
      ensures Told(s', f)
    {
      SlotsAfter(SetInode(s, c.id, Inode(true, c.payload, false)), i, Written, f);
      if f.id == c.id {
        assert Told(s, s.created[i]);
        var a :| CreatedBy(s, c.name, c.id, a);
        assert CreatedBy(s', c.name, c.id, a) && WriteAt(s', c.name, c.id, |s.accepted|);
        assert WrittenBy(s', f.name, f.id, a, |s.accepted|);
      } else {
        ToldKept(s, s', f);
      }
    }
    WrittenOnceAfterWrite(s, s', x, i);
  }

  lemma WrittenOnceAfterWrite(s: State, s': State, x: Exchange, i: nat)
    requires WellHeld(s) && WrittenOnce(s) && IsWrite(x) && i < |s.created|
    requires s.created[i].id == x.command.id && s.created[i].phase.Fresh?
    requires s'.accepted == s.accepted + [x] && s'.created == SetPhase(s, i, Written).created
    ensures WrittenOnce(s')
  {
    forall j | 0 <= j < |s'.accepted| && IsWrite(s'.accepted[j])
      ensures exists i | 0 <= i < |s'.created| ::
                s'.created[i].id == s'.accepted[j].command.id && !s'.created[i].phase.Fresh?
    {
      if j == |s.accepted| {
        assert s'.created[i].id == x.command.id && !s'.created[i].phase.Fresh?;
      } else {
        var p :| 0 <= p < |s.created| && s.created[p].id == s.accepted[j].command.id && !s.created[p].phase.Fresh?;
        assert s'.created[p] == s.created[p];
      }
    }
    forall j | 0 <= j < |s.accepted| && IsWrite(s.accepted[j])
      ensures s.accepted[j].command.id != x.command.id
    {
      var p :| 0 <= p < |s.created| && s.created[p].id == s.accepted[j].command.id && !s.created[p].phase.Fresh?;
      assert p < i || i < p;
    }
  }

  lemma ExplainedAfterSync(init: State, s: State, c: Command, k: Kernel)
    requires Explained(init, s) && c.SyncFile? && DoSyncFile(s, c, k).Replied?
    ensures Explained(init, DoSyncFile(s, c, k).s)
  {
    var s' := DoSyncFile(s, c, k).s;
    var i := FindCreated(s.created, c.name, c.id).value;
    var node := s.inodes[c.id].(durable := true);
    assert Execute(s, c, k).s == s';
    SoundAfter(s, c, k);
    TargetsToldAfter(init, s, c, k);
    var x := Exchange(c, DoSyncFile(s, c, k).reply);
    assert s'.accepted == s.accepted + [x];
    forall f | f in s'.created
      ensures Told(s', f)
    {
      SlotsAfter(SetInode(s, c.id, node), i, Synced, f);
      if f.id == c.id {
        assert Told(s, s.created[i]);
        var a, b :| WrittenBy(s, c.name, c.id, a, b);
        assert s'.accepted[|s.accepted|] == x;
        assert Lineage(s', f.name, f.id, a, b, |s.accepted|);
      } else {
        ToldKept(s, s', f);
      }
    }
    WrittenOnceAfterSync(s, s', x, i);
  }

  lemma WrittenOnceAfterSync(s: State, s': State, x: Exchange, i: nat)
    requires WrittenOnce(s) && !IsWrite(x) && i < |s.created|
    requires s'.accepted == s.accepted + [x] && s'.created == SetPhase(s, i, Synced).created
    ensures WrittenOnce(s')
  {
    forall j | 0 <= j < |s'.accepted| && IsWrite(s'.accepted[j])
      ensures exists i | 0 <= i < |s'.created| ::
                s'.created[i].id == s'.accepted[j].command.id && !s'.created[i].phase.Fresh?
    {
      assert s'.accepted[j] == s.accepted[j];
      var p :| 0 <= p < |s.created| && s.created[p].id == s.accepted[j].command.id && !s.created[p].phase.Fresh?;
      assert s'.created[p].id == s.created[p].id && !s'.created[p].phase.Fresh?;
    }
  }

  lemma ExplainedAfter(init: State, s: State, c: Command, k: Kernel)
    requires Explained(init, s) && Execute(s, c, k).Replied?
    ensures Explained(init, Execute(s, c, k).s)
  {
    match c
    case Create(name) =>
      if name in s.dir { ExplainedAfterQuiet(init, s, c, k); } else { ExplainedAfterCreate(init, s, c, k); }
    case Write(_, _, _, _) => ExplainedAfterWrite(init, s, c, k);
    case SyncFile(_, _) => ExplainedAfterSync(init, s, c, k);
    case _ => ExplainedAfterQuiet(init, s, c, k);
  }

  // ---------- whole sessions ----------

  lemma KeepsTransitive(s: State, s': State, s'': State)
    requires Keeps(s, s') && Keeps(s', s'')
    ensures Keeps(s, s'')
  {
    forall t | t in s.dir && TargetName(t) && s.dir[t] in s.inodes
      ensures t in s''.dir && s''.dir[t] == s.dir[t] && s.dir[t] in s''.inodes
              && s''.inodes[s.dir[t]] == s.inodes[s.dir[t]]
    {
      assert t in s'.dir && s'.dir[t] == s.dir[t];
    }
  }

  lemma {:induction false} RunIsSound(session: Session, s: State, steps: seq<(Command, Kernel)>)
    requires Sound(s)
    ensures Sound(Run(session, s, steps).s) && Keeps(s, Run(session, s, steps).s)
    decreases |steps|
  {
    if steps != [] {
      var o := Handle(session, s, steps[0].0, steps[0].1);
      SoundAfter(s, steps[0].0, steps[0].1);
      if o.Replied? && !steps[0].0.Close? {
        RunIsSound(session, o.s, steps[1..]);
        KeepsTransitive(s, o.s, Run(session, o.s, steps[1..]).s);
      }
    }
  }

  /** One result followed by another. */
  function Joined(r: Result, rest: Result): Result {
    Result(rest.s, r.replies + rest.replies, rest.ending)
  }

  lemma ChainJoined(o: Outcome, last: bool, r: Result, rest: Result)
    requires Chain(o, last, r).ending.Open?
    ensures o.Replied? && !last && r.ending.Open? && Chain(o, last, r).s == r.s
    ensures Chain(o, last, Joined(r, rest)) == Joined(Chain(o, last, r), rest)
  {
    if o.Replied? {
      assert [o.reply] + (r.replies + rest.replies) == [o.reply] + r.replies + rest.replies;
    }
  }

  lemma JoinedToNothing(s: State, r: Result)
    ensures Joined(Result(s, [], Open), r) == r
  {
    assert [] + r.replies == r.replies;
  }

  lemma {:induction false} RunConcat(session: Session, s: State, before: seq<(Command, Kernel)>, later: seq<(Command, Kernel)>)
    requires Run(session, s, before).ending.Open?
    ensures Run(session, s, before + later)
         == Joined(Run(session, s, before), Run(session, Run(session, s, before).s, later))
    decreases |before|, 0
  {
    if before == [] {
      assert before + later == later;
      JoinedToNothing(s, Run(session, s, later));
    } else {
      RunConcatFrom(session, s, before, later);
    }
  }

  lemma RunConcatFrom(session: Session, s: State, before: seq<(Command, Kernel)>, later: seq<(Command, Kernel)>)
    requires before != [] && Run(session, s, before).ending.Open?
    ensures Run(session, s, before + later)
         == Joined(Run(session, s, before), Run(session, Run(session, s, before).s, later))
    decreases |before| - 1, 2
  {
    var o := RunFirst(session, s, before, later);
    RunConcatAfter(session, o, before[0].0.Close?, before[1..], later);
  }

  /** Two runs that begin with the same command begin with the same outcome. */
  lemma RunFirst(session: Session, s: State, before: seq<(Command, Kernel)>, later: seq<(Command, Kernel)>)
    returns (o: Outcome)
    requires before != []
    ensures Run(session, s, before) == Chain(o, before[0].0.Close?, Run(session, o.s, before[1..]))
    ensures Run(session, s, before + later) == Chain(o, before[0].0.Close?, Run(session, o.s, before[1..] + later))
  {
    o := Handle(session, s, before[0].0, before[0].1);
    assert (before + later)[1..] == before[1..] + later;
  }

  lemma RunConcatAfter(session: Session, o: Outcome, last: bool,
                       before: seq<(Command, Kernel)>, later: seq<(Command, Kernel)>)
    requires Chain(o, last, Run(session, o.s, before)).ending.Open?
    ensures var r := Chain(o, last, Run(session, o.s, before));
            Chain(o, last, Run(session, o.s, before + later)) == Joined(r, Run(session, r.s, later))
    decreases |before|, 1
  {
    var r := Run(session, o.s, before);
    RunConcat(session, o.s, before, later);
    ChainJoined(o, last, r, Run(session, r.s, later));
  }

  /** Every published target present at some point of a session keeps its name,
      its file and its bytes for the rest of that session, whatever the commands
      and however the kernel answers them. */
  lemma PublishedNeverChanges(session: Session, init: State, before: seq<(Command, Kernel)>, later: seq<(Command, Kernel)>)
    requires Initial(init) && Run(session, init, before).ending.Open?
    ensures Keeps(Run(session, init, before).s, Run(session, init, before + later).s)
  {
    RunIsSound(session, init, before);
    RunIsSound(session, Run(session, init, before).s, later);
    RunConcat(session, init, before, later);
  }

  /** What is left of the invariant once the command `last` has failed half-way. */
  ghost predicate EndsExplained(init: State, s: State, last: Option<Command>) {
    && (forall t | t in s.dir && TargetName(t) && t !in init.dir ::
          TargetTold(s, t) || (last.Some? && TargetBegun(s, t, last.value)))
    && OneWriteEach(s)
  }

  lemma HandledIsExplained(session: Session, init: State, s: State, c: Command, k: Kernel)
    requires Explained(init, s)
    ensures var o := Handle(session, s, c, k);
            if o.Replied? then Explained(init, o.s) else EndsExplained(init, o.s, Some(c))
  {
    if Permitted(session.op, c) && NamesValid(session.id, c) {
      if Execute(s, c, k).Replied? {
        ExplainedAfter(init, s, c, k);
      } else {
        TargetsToldAfter(init, s, c, k);
        AcceptedGrows(s, c, k);
      }
    }
  }

  /** The command that was refused or failed, if one ended the session. */
  function Unanswered(steps: seq<(Command, Kernel)>, r: Result): Option<Command> {
    if |r.replies| < |steps| then Some(steps[|r.replies|].0) else None
  }

  lemma {:induction false} RunIsExplained(session: Session, init: State, s: State, steps: seq<(Command, Kernel)>)
    requires Explained(init, s)
    ensures var r := Run(session, s, steps); EndsExplained(init, r.s, Unanswered(steps, r))
    decreases |steps|, 0
  {
    if steps != [] {
      HandledIsExplained(session, init, s, steps[0].0, steps[0].1);
      ChainIsExplained(session, init, Handle(session, s, steps[0].0, steps[0].1), steps);
    }
  }

  lemma ChainIsExplained(session: Session, init: State, o: Outcome, steps: seq<(Command, Kernel)>)
    requires steps != []
    requires if o.Replied? then Explained(init, o.s) else EndsExplained(init, o.s, Some(steps[0].0))
    ensures var r := Chain(o, steps[0].0.Close?, Run(session, o.s, steps[1..]));
            EndsExplained(init, r.s, Unanswered(steps, r))
    decreases |steps| - 1, 1
  {
    var rest := Run(session, o.s, steps[1..]);
    if o.Replied? {
      if steps[0].0.Close? {
        ExplainedEnds(init, o.s, Unanswered(steps, Chain(o, true, rest)));
      } else {
        RunIsExplained(session, init, o.s, steps[1..]);
        UnansweredRest(o, steps, rest);
      }
    }
  }

  lemma ExplainedEnds(init: State, s: State, last: Option<Command>)
    requires Explained(init, s)
    ensures EndsExplained(init, s, last)
  {
  }

  lemma UnansweredRest(o: Outcome, steps: seq<(Command, Kernel)>, rest: Result)
    requires steps != [] && o.Replied?
    ensures Unanswered(steps, Chain(o, false, rest)) == Unanswered(steps[1..], rest)
  {
    var r := Chain(o, false, rest);
    assert |r.replies| == 1 + |rest.replies|;
    if |r.replies| < |steps| {
      assert steps[1..][|rest.replies|] == steps[|r.replies|];
    }
  }

  /** Every target name a session adds leads to a file held in a slot: the CREATE
      that returned its identity, one accepted WRITE whose payload it still holds,
      and a SYNC_FILE after that were accepted in this order, and the LINK came
      later, accepted or as the command that failed last. */
  lemma LinkedTargetHasLineage(session: Session, init: State, steps: seq<(Command, Kernel)>, t: Name)
    returns (i: nat, a: nat, b: nat, d: nat)
    requires Initial(init)
    requires t in Run(session, init, steps).s.dir && TargetName(t) && t !in init.dir
    ensures var r := Run(session, init, steps);
            && Backed(r.s, t, i, a, b, d)
            && (forall j | 0 <= j < |r.s.accepted| && IsWrite(r.s.accepted[j])
                           && r.s.accepted[j].command.id == r.s.dir[t] :: j == b)
            && ((exists e: nat :: d < e && LinkedBy(r.s, t, i, e))
                || Unanswered(steps, r) == Some(Link(r.s.created[i].name, t, r.s.dir[t])))
  {
    RunIsExplained(session, init, init, steps);
    var r := Run(session, init, steps);
    i, a, b, d := StoryOf(init, r.s, Unanswered(steps, r), t);
  }

  lemma StoryOf(init: State, s: State, last: Option<Command>, t: Name)
    returns (i: nat, a: nat, b: nat, d: nat)
    requires EndsExplained(init, s, last) && t in s.dir && TargetName(t) && t !in init.dir
    ensures Backed(s, t, i, a, b, d)
    ensures forall j | 0 <= j < |s.accepted| && IsWrite(s.accepted[j]) && s.accepted[j].command.id == s.dir[t] :: j == b
    ensures (exists e: nat :: d < e && LinkedBy(s, t, i, e)) || last == Some(Link(s.created[i].name, t, s.dir[t]))
  {
    if TargetTold(s, t) {
      var e: nat;
      i, a, b, d, e :| Backed(s, t, i, a, b, d) && LinkedBy(s, t, i, e) && d < e;
    } else {
      i, a, b, d :| Backed(s, t, i, a, b, d) && last == Some(Link(s.created[i].name, t, s.dir[t]));
    }
    assert IsWrite(s.accepted[b]);
    forall j | 0 <= j < |s.accepted| && IsWrite(s.accepted[j]) && s.accepted[j].command.id == s.dir[t]
      ensures j == b
    {
      assert !(j < b) && !(b < j);
    }
  }

  // ---------- one file is never taken for another ----------

  /** Commands that name a file by its identity. */
  predicate Addressed(c: Command) { c.Write? || c.SyncFile? || c.Link? || c.Unlink? }

  /** The file of slot `j` is as it was: its slot, its inode, and the names that
      lead to it, no more and no fewer. */
  ghost predicate Untouched(s: State, s': State, j: nat) {
    && j < |s.created| <= |s'.created| && s'.created[j] == s.created[j]
    && var id := s.created[j].id;
    && id in s.inodes && id in s'.inodes && s'.inodes[id] == s.inodes[id]
    && forall n :: NamedBy(s', n, id) <==> NamedBy(s, n, id)
  }

  lemma UntouchedByCreate(s: State, c: Command, k: Kernel, j: nat)
    requires Sound(s) && j < |s.created| && c.Create?
    ensures Untouched(s, DoCreate(s, c, k).s, j)
  {
    assert Held(s, s.created[j].id);
  }

  lemma UntouchedByWrite(s: State, c: Command, k: Kernel, j: nat)
    requires Sound(s) && j < |s.created| && c.Write? && c.id != s.created[j].id
    ensures Untouched(s, DoWrite(s, c, k).s, j)
  {
  }

  lemma UntouchedBySync(s: State, c: Command, k: Kernel, j: nat)
    requires Sound(s) && j < |s.created| && c.SyncFile? && c.id != s.created[j].id
    ensures Untouched(s, DoSyncFile(s, c, k).s, j)
  {
  }

  lemma UntouchedByNaming(s: State, c: Command, k: Kernel, j: nat)
    requires Sound(s) && j < |s.created| && (c.Link? || c.Unlink?) && c.id != s.created[j].id
    ensures Untouched(s, Execute(s, c, k).s, j)
  {
  }

  lemma UntouchedByHandling(session: Session, s: State, c: Command, k: Kernel, j: nat)
    requires Sound(s) && j < |s.created| && (Addressed(c) ==> c.id != s.created[j].id)
    ensures Untouched(s, Handle(session, s, c, k).s, j)
  {
    if Permitted(session.op, c) && NamesValid(session.id, c) {
      if c.Create? {
        UntouchedByCreate(s, c, k, j);
      } else if c.Write? {
        UntouchedByWrite(s, c, k, j);
      } else if c.SyncFile? {
        UntouchedBySync(s, c, k, j);
      } else if c.Link? || c.Unlink? {
        UntouchedByNaming(s, c, k, j);
      }
    }
  }

  lemma {:induction false} UntouchedByRun(session: Session, s: State, steps: seq<(Command, Kernel)>, j: nat)
    requires Sound(s) && j < |s.created|
    requires forall x | x in steps && Addressed(x.0) :: x.0.id != s.created[j].id
    ensures Untouched(s, Run(session, s, steps).s, j)
    decreases |steps|
  {
    if steps != [] {
      var o := Handle(session, s, steps[0].0, steps[0].1);
      assert steps[0] in steps;
      UntouchedByHandling(session, s, steps[0].0, steps[0].1, j);
      SoundAfter(s, steps[0].0, steps[0].1);
      if o.Replied? && !steps[0].0.Close? {
        UntouchedByRun(session, o.s, steps[1..], j);
      }
    }
  }

  /** A name created, unlinked and created again is never taken for its earlier
      file: whatever a session does from any point on with commands that carry
      another identity, that of the other file of the same name included, the file
      of slot `j` keeps its phase, its bytes and exactly its names. */
  lemma RecreatedNameIsAnotherFile(session: Session, init: State,
                                   before: seq<(Command, Kernel)>, later: seq<(Command, Kernel)>, j: nat)
    requires Initial(init) && Run(session, init, before).ending.Open?
    requires j < |Run(session, init, before).s.created|
    requires forall x | x in later && Addressed(x.0) :: x.0.id != Run(session, init, before).s.created[j].id
    ensures Untouched(Run(session, init, before).s, Run(session, init, before + later).s, j)
    ensures var files := Run(session, init, before).s.created;
            forall i | 0 <= i < |files| && i != j :: files[i].id != files[j].id
  {
    RunIsSound(session, init, before);
    UntouchedByRun(session, Run(session, init, before).s, later, j);
    RunConcat(session, init, before, later);
  }

  /** What a session without APPEND may do to the directory. */
  predicate OnlyRemoves(s: State, s': State) {
    && s'.inodes == s.inodes
    && (forall n | n in s'.dir :: n in s.dir && s'.dir[n] == s.dir[n])
    && (forall n | n in s.dir && n !in s'.dir :: Removable(n))
  }

  lemma HandleOnlyRemoves(session: Session, s: State, c: Command, k: Kernel)
    requires !session.op.AppendSession?
    ensures OnlyRemoves(s, Handle(session, s, c, k).s)
  {
  }

  lemma OnlyRemovesTransitive(s: State, s': State, s'': State)
    requires OnlyRemoves(s, s') && OnlyRemoves(s', s'')
    ensures OnlyRemoves(s, s'')
  {
  }

  lemma {:induction false} ReadSessionOnlyRemoves(session: Session, s: State, steps: seq<(Command, Kernel)>)
    requires !session.op.AppendSession?
    ensures OnlyRemoves(s, Run(session, s, steps).s)
    decreases |steps|
  {
    if steps != [] {
      var o := Handle(session, s, steps[0].0, steps[0].1);
      HandleOnlyRemoves(session, s, steps[0].0, steps[0].1);
      if o.Replied? && !steps[0].0.Close? {
        ReadSessionOnlyRemoves(session, o.s, steps[1..]);
        OnlyRemovesTransitive(s, o.s, Run(session, o.s, steps[1..]).s);
      }
    }
  }

  lemma {:induction false} InspectSessionChangesNothing(session: Session, s: State, steps: seq<(Command, Kernel)>)
    requires session.op.InspectSession?
    ensures Run(session, s, steps).s.dir == s.dir && Run(session, s, steps).s.inodes == s.inodes
    decreases |steps|
  {
    if steps != [] {
      var o := Handle(session, s, steps[0].0, steps[0].1);
      if o.Replied? && !steps[0].0.Close? {
        InspectSessionChangesNothing(session, o.s, steps[1..]);
      }
    }
  }

  lemma ReplyOf(session: Session, s: State, c: Command, k: Kernel)
    ensures Counted(s, c, Handle(session, s, c, k))
  {
    AcceptedGrows(s, c, k);
  }

  /** `r` answers, one by one and with consecutive ordinals, a prefix of the
      commands sent, and has accepted exactly those. */
  predicate Answers(s: State, cs: seq<Command>, r: Result) {
    && |r.replies| <= |cs|
    && s.accepted <= r.s.accepted && |r.s.accepted| == |s.accepted| + |r.replies|
    && (forall k | 0 <= k < |r.replies| :: r.s.accepted[|s.accepted| + k] == Exchange(cs[k], r.replies[k]))
    && (forall k | 0 <= k < |r.replies| :: r.replies[k].ordinal == (|s.accepted| + k + 1) % 4294967296)
    && (|r.replies| < |cs| ==> !r.ending.Open?)
  }

  lemma AnswersOfChain(s: State, c: Command, o: Outcome, cs: seq<Command>, rest: Result)
    requires Counted(s, c, o)
    requires Answers(o.s, cs, rest)
    ensures Answers(s, [c] + cs, Chain(o, c.Close?, rest))
  {
    var all, r := [c] + cs, Chain(o, c.Close?, rest);
    forall k | 0 <= k < |r.replies|
      ensures r.s.accepted[|s.accepted| + k] == Exchange(all[k], r.replies[k])
      ensures r.replies[k].ordinal == Ordinal(|s.accepted| + k + 1)
    {
      if k > 0 {
        assert r.replies[k] == rest.replies[k - 1] && all[k] == cs[k - 1];
        assert r.s.accepted[|o.s.accepted| + (k - 1)] == Exchange(cs[k - 1], rest.replies[k - 1]);
      } else {
        assert o.s.accepted[|s.accepted|] == Exchange(c, o.reply);
      }
    }
  }

  function CommandsOf(steps: seq<(Command, Kernel)>): seq<Command> {
    if steps == [] then [] else [steps[0].0] + CommandsOf(steps[1..])
  }

  /** The k-th accepted command is answered with ordinal k, as a 32-bit counter;
      the accepted commands are exactly a prefix of those sent, one per reply, so
      nothing is done or answered after the first failure or CLOSE. */
  lemma {:induction false} SessionAnswersInOrder(session: Session, s: State, steps: seq<(Command, Kernel)>)
    ensures Answers(s, CommandsOf(steps), Run(session, s, steps))
    decreases |steps|
  {
    if steps == [] {
      assert s.accepted + [] == s.accepted;
    } else {
      var o := Handle(session, s, steps[0].0, steps[0].1);
      ReplyOf(session, s, steps[0].0, steps[0].1);
      SessionAnswersInOrder(session, o.s, steps[1..]);
      AnswersOfChain(s, steps[0].0, o, CommandsOf(steps[1..]), Run(session, o.s, steps[1..]));
    }
  }

  /** An accepted LIST decodes to every name of the directory exactly once. */
  lemma ListIsTheDirectory(s: State, k: Kernel)
    requires Execute(s, List, k).Replied?
    ensures var names := DecodeList(Execute(s, List, k).reply.payload.bytes);
            && names == Some(Visible(k.entries))
            && (forall n :: n in names.value <==> n in s.dir)
            && (forall i, j | 0 <= i < j < |names.value| :: names.value[i] != names.value[j])
  {
    ListRoundTrip(Visible(k.entries));
  }
}
