/**
`publish` of native/installed-configuration-v1.c: build a private sibling, sync
it, rename it into place without replacing anything, and on failure take back
exactly what is still held.
*/
module Publisher {
  import opened Bytes
  import opened Wrappers
  import opened PublisherDisk

  /** The calls of a run that may fail, each a group of system calls with the look
      at the clock before it. A write fails after any part of it was done. A
      comparison fails when a read does; the deadline of a file passes after its
      sync, unless the comparison fails first. */
  datatype Call =
    | Look | MakeTree | OpenTree | OpenJournal
    | CreateFile(n: Name) | WriteFile(n: Name) | SyncFile(n: Name) | CompareFile(n: Name) | LateFile(n: Name)
    | SyncJournal | SyncRoot | RenameTree | SyncFinal | CheckFinal
    | CheckHeld | RemoveName(n: Name) | SyncEmptied | RemoveTree | SyncRemoved

  type Faults = Call -> bool

  /** A file of the tree is written, synced, and its descriptor kept. */
  predicate Keeps(fails: Faults, n: Name) {
    !fails(CreateFile(n)) && !fails(WriteFile(n)) && !fails(Call.SyncFile(n)) && !fails(CompareFile(n))
  }

  /** All three objects of the tree end up held. */
  predicate Holds(fails: Faults) {
    && !fails(OpenTree) && !fails(OpenJournal)
    && Keeps(fails, CONFIGURATION) && !fails(LateFile(CONFIGURATION)) && Keeps(fails, MANIFEST)
  }

  predicate Renames(fails: Faults) {
    !fails(LateFile(MANIFEST)) && !fails(SyncJournal) && !fails(SyncRoot) && !fails(RenameTree)
  }

  predicate Empties(fails: Faults) {
    !fails(RemoveName(MANIFEST)) && !fails(RemoveName(CONFIGURATION)) && !fails(RemoveName(JOURNAL))
  }

  /** The rollback removes all that is held, and the temporary name last. */
  predicate Removes(fails: Faults) {
    !fails(CheckHeld) && Empties(fails) && !fails(SyncEmptied) && !fails(RemoveTree)
  }

  class Publication {
    const job: Job

    /** Which calls of this run fail. */
    const fails: Faults

    /** No other process writes in the parent directory. */
    const quiet: bool
    var fs: Fs
    var root: nat
    var journal: nat

    /** Every state of the file system since the start: a crash may happen in any
        of them. */
    ghost var history: seq<Fs>

    ghost predicate Valid()
      reads this
    {
      && Recorded(history, job, quiet)
      && history[|history| - 1] == fs
    }

    constructor (job: Job, fails: Faults, quiet: bool, parent: DirNode)
      requires parent.entries in parent.versions
      ensures Valid() && this.job == job && this.quiet == quiet && this.fails == fails
      ensures fs == Fs(parent, map[], map[]) && history == [fs]
    {
      this.job, this.fails, this.quiet, fs := job, fails, quiet, Fs(parent, map[], map[]);
      root, journal := 0, 0;
      history := [Fs(parent, map[], map[])];
      assert Hidden(Fs(parent, map[], map[]), 0);
    }

    /** One effect of this run. */
    method Apply(next: Fs)
      requires Valid() && Secure(next, job) && Polite(fs, next) && next.parent.entries in next.parent.versions
      modifies this`fs, this`history
      ensures Valid() && fs == next && history == old(history) + [next]
    {
      RecordedAfter(history, job, quiet, next);
      history, fs := history + [next], next;
    }

    /** Others may act between any two system calls of this run. */
    method Pause()
      requires Valid() && Secure(fs, job)
      modifies this`fs, this`history
      ensures Valid() && Secure(fs, job) && Interferes(old(fs), fs)
      ensures old(history) <= history
      ensures quiet ==> fs == old(fs)
    {
      var moves: nat := *;
      if quiet {
        moves := 0;
      }
      while moves > 0
        invariant Valid() && Secure(fs, job) && Interferes(old(fs), fs)
        invariant old(history) <= history
        invariant quiet ==> fs == old(fs) && moves == 0
      {
        var n: Name := *;
        var b: Option<nat> := *;
        var synced: bool := *;
        OtherMove(n, b, synced);
        moves := moves - 1;
      }
    }

    /** Another process binds or unbinds one name, unless that would touch ours. */
    method OtherMove(n: Name, b: Option<nat>, synced: bool)
      requires Valid() && Secure(fs, job) && !quiet
      modifies this`fs, this`history
      ensures Valid() && Secure(fs, job)
      ensures forall f | Interferes(f, old(fs)) :: Interferes(f, fs)
      ensures old(history) <= history
    {
      if TouchesOurs(fs, n, b) {
        return;
      }
      var next := Foreign(fs, n, b, synced);
      ForeignInterferes(fs, n, b, synced);
      InterferenceIsHarmless(fs, next, job);
      forall f | Interferes(f, fs)
        ensures Interferes(f, next)
      {
        InterferenceComposes(f, fs, next);
      }
      RecordedAfter(history, job, quiet, next);
      history, fs := history + [next], next;
    }

    // ---------- building the private tree ----------

    /** The temporary name leads to the tree being built, and nothing else does. */
    ghost predicate Building()
      reads this
    {
      && Valid() && Hidden(fs, root) && root in fs.dirs
      && TEMPORARY in fs.parent.entries && fs.parent.entries[TEMPORARY] == root
    }

    /** While nobody else writes, the parent is `init` plus the temporary name. */
    ghost predicate Beside(init: map<Name, nat>)
      reads this
    {
      quiet ==> fs.parent.entries == init[TEMPORARY := root]
    }

    /** Lets others act while the tree is being built. */
    method Wait(ghost init: map<Name, nat>)
      requires Building() && Beside(init)
      modifies this`fs, this`history
      ensures Building() && Beside(init) && old(history) <= history
      ensures fs.files == old(fs.files) && fs.dirs == old(fs.dirs)
    {
      InterferenceKeepsHidden(fs, job, root);
      Pause();
    }

    /** One effect of this run inside its own tree. */
    method Change(next: Fs)
      requires Building() && next.parent == fs.parent && Hidden(next, root) && root in next.dirs
      modifies this`fs, this`history
      ensures Building() && fs == next && old(history) <= history
    {
      Apply(next);
    }

    /** mkdirat of the temporary directory. */
    method MakeRoot() returns (made: bool)
      requires Valid() && fs.files == map[] && fs.dirs == map[]
      modifies this
      ensures Valid() && old(history) <= history
      ensures quiet ==> (made <==> !fails(Look) && !fails(MakeTree)
                                   && FINAL !in old(fs.parent.entries) && TEMPORARY !in old(fs.parent.entries))
      ensures !made && quiet ==> fs.parent.entries == old(fs.parent.entries)
      ensures made ==> Building() && Beside(old(fs.parent.entries)) && fs.files == map[] && fs.dirs == map[root := NEW_DIRECTORY]
    {
      assert Hidden(fs, 0);
      InterferenceKeepsHidden(fs, job, 0);
      Pause();
      if fails(Look) || FINAL in fs.parent.entries || TEMPORARY in fs.parent.entries {
        return false;
      }
      Pause();
      if fails(MakeTree) || TEMPORARY in fs.parent.entries {
        return false;
      }
      UnusedExists(fs);
      var i :| Unused(fs, i);
      root := i;
      HiddenAfterRoot(fs, i);
      Apply(MakeTemporary(fs, i));
      return true;
    }

    /** Opens the temporary directory and makes the journal directory in it. */
    method MakeJournal(ghost init: map<Name, nat>) returns (ok: bool)
      requires Building() && Beside(init) && fs.files == map[] && fs.dirs == map[root := NEW_DIRECTORY]
      modifies this`fs, this`history, this`journal
      ensures Building() && Beside(init) && old(history) <= history
      ensures ok <==> !fails(OpenTree) && !fails(OpenJournal)
      ensures ok ==> && root != journal && fs.files == map[] && fs.dirs.Keys == {root, journal}
                     && fs.dirs[root].entries == map[JOURNAL := journal] && fs.dirs[journal] == NEW_DIRECTORY
    {
      Wait(init);
      if fails(OpenTree) {
        return false;
      }
      UnusedExists(fs);
      var i :| Unused(fs, i);
      journal := i;
      HiddenAfterChild(fs, MakeDirectory(fs, root, JOURNAL, i), i, root);
      Change(MakeDirectory(fs, root, JOURNAL, i));
      return !fails(OpenJournal);
    }

    /** pwrite in pieces of any size; others may act and a crash may come between
        any two, and the failure after any of them. */
    method WriteAll(n: Name, i: nat, bytes: seq<byte>, ghost init: map<Name, nat>) returns (ok: bool)
      requires Building() && Beside(init) && i in fs.files && fs.files[i] == FileNode([], false)
      modifies this`fs, this`history
      ensures Building() && Beside(init) && old(history) <= history
      ensures fs.dirs == old(fs.dirs) && fs.files.Keys == old(fs.files.Keys)
      ensures ok <==> !fails(WriteFile(n))
      ensures ok ==> fs.files == old(fs.files)[i := FileNode(bytes, false)]
    {
      var offset := 0;
      while offset < |bytes|
        invariant 0 <= offset <= |bytes|
        invariant Building() && Beside(init) && old(history) <= history
        invariant fs.dirs == old(fs.dirs) && fs.files == old(fs.files)[i := FileNode(bytes[..offset], false)]
      {
        Wait(init);
        var now: bool := *;
        if fails(WriteFile(n)) && now {
          return false;
        }
        var written :| 1 <= written <= |bytes| - offset;
        offset := offset + written;
        Change(PutBytes(fs, i, bytes[..offset]));
      }
      assert bytes[..|bytes|] == bytes;
      return !fails(WriteFile(n));
    }

    /** The read-back loop: every piece read is compared with what was meant, until
        the deadline passes. */
    method ReadBack(n: Name, i: nat, bytes: seq<byte>, ghost init: map<Name, nat>) returns (ok: bool, late: bool)
      requires Building() && Beside(init) && i in fs.files
      modifies this`fs, this`history
      ensures Building() && Beside(init) && old(history) <= history
      ensures fs.dirs == old(fs.dirs) && fs.files == old(fs.files)
      ensures ok ==> bytes <= fs.files[i].bytes
      ensures bytes <= fs.files[i].bytes ==> (ok <==> !fails(CompareFile(n)) && !fails(LateFile(n)))
      ensures bytes <= fs.files[i].bytes && !ok ==> (late <==> !fails(CompareFile(n)))
    {
      var offset := 0;
      while offset < |bytes|
        invariant 0 <= offset <= |bytes|
        invariant Building() && Beside(init) && old(history) <= history
        invariant fs.dirs == old(fs.dirs) && fs.files == old(fs.files)
        invariant bytes[..offset] <= fs.files[i].bytes
      {
        Wait(init);
        var now: bool := *;
        if (fails(CompareFile(n)) || fails(LateFile(n))) && now {
          return false, !fails(CompareFile(n));
        }
        var held := fs.files[i].bytes;
        if |held| == offset {
          return false, false;
        }
        var received :| 1 <= received <= |bytes| - offset && received <= |held| - offset && received <= 4096;
        if held[offset..offset + received] != bytes[offset..offset + received] {
          return false, false;
        }
        assert bytes[..offset + received] == bytes[..offset] + bytes[offset..offset + received];
        assert held[..offset + received] == held[..offset] + held[offset..offset + received];
        offset := offset + received;
      }
      assert bytes[..|bytes|] == bytes;
      return !fails(CompareFile(n)) && !fails(LateFile(n)), !fails(CompareFile(n));
    }

    /** openat with O_CREAT and O_EXCL in the tree. */
    method MakeEmptyFile(n: Name, ghost init: map<Name, nat>) returns (fd: Option<nat>)
      requires Building() && Beside(init)
      modifies this`fs, this`history
      ensures Building() && Beside(init) && old(history) <= history
      ensures fd.Some? <==> !fails(CreateFile(n)) && n !in old(fs.dirs[root].entries)
      ensures fd.Some? ==> && fd.value !in old(Ours(fs))
                           && fs.files == old(fs.files)[fd.value := FileNode([], false)]
                           && fs.dirs == old(fs.dirs)[root := fs.dirs[root]]
                           && fs.dirs[root].entries == old(fs.dirs[root].entries)[n := fd.value]
    {
      Wait(init);
      if fails(CreateFile(n)) || n in fs.dirs[root].entries {
        return None;
      }
      UnusedExists(fs);
      var i :| Unused(fs, i);
      HiddenAfterChild(fs, MakeFile(fs, root, n, i), i, root);
      Change(MakeFile(fs, root, n, i));
      return Some(i);
    }

    /** fsync of the new file and the comparison; the file stays held unless the
        sync or the comparison fails. */
    method SyncAndCheck(n: Name, i: nat, bytes: seq<byte>, ghost init: map<Name, nat>) returns (kept: bool, ok: bool)
      requires Building() && Beside(init) && i in fs.files && fs.files[i] == FileNode(bytes, false)
      modifies this`fs, this`history
      ensures Building() && Beside(init) && old(history) <= history
      ensures kept <==> !fails(Call.SyncFile(n)) && !fails(CompareFile(n))
      ensures ok <==> kept && !fails(LateFile(n))
      ensures kept ==> fs.dirs == old(fs.dirs) && fs.files == old(fs.files)[i := FileNode(bytes, true)]
    {
      Wait(init);
      if fails(Call.SyncFile(n)) {
        return false, false;
      }
      Change(PublisherDisk.SyncFile(fs, i));
      var late: bool;
      ok, late := ReadBack(n, i, bytes, init);
      return ok || late, ok;
    }

    /** create_write_file: a new file under `n` in the tree, written, synced and
        read back; on failure it may be left behind half-written. When the deadline
        passes after the sync, the file is held and the call fails. */
    method CreateWriteFile(n: Name, bytes: seq<byte>, ghost init: map<Name, nat>) returns (fd: Option<nat>, ok: bool)
      requires Building() && Beside(init)
      modifies this`fs, this`history
      ensures Building() && Beside(init) && old(history) <= history
      ensures fd.Some? <==> Keeps(fails, n) && n !in old(fs.dirs[root].entries)
      ensures ok <==> fd.Some? && !fails(LateFile(n))
      ensures fd.Some? ==> && fd.value !in old(Ours(fs))
                           && fs.files == old(fs.files)[fd.value := FileNode(bytes, true)]
                           && fs.dirs == old(fs.dirs)[root := fs.dirs[root]]
                           && fs.dirs[root].entries == old(fs.dirs[root].entries)[n := fd.value]
    {
      var made := MakeEmptyFile(n, init);
      if made.None? {
        return None, false;
      }
      var i := made.value;
      ok := WriteAll(n, i, bytes, init);
      if !ok {
        return None, false;
      }
      var kept: bool;
      kept, ok := SyncAndCheck(n, i, bytes, init);
      return if kept then Some(i) else None, ok;
    }

    /** The three objects are in the tree, and the journal is empty. */
    ghost predicate Whole()
      reads this
    {
      && root in fs.dirs && fs.dirs[root].entries.Keys == {JOURNAL, CONFIGURATION, MANIFEST}
      && fs.dirs[root].entries[JOURNAL] == journal && journal in fs.dirs && journal != root
      && fs.dirs[journal].entries == map[]
      && fs.dirs[root].entries[MANIFEST] !in fs.dirs && fs.dirs[root].entries[CONFIGURATION] !in fs.dirs
    }

    /** fsync of the journal directory and of the root of the tree. */
    method SyncTree(ghost init: map<Name, nat>) returns (ok: bool)
      requires Building() && Beside(init) && Whole()
      modifies this`fs, this`history
      ensures Building() && Beside(init) && Whole() && old(history) <= history
      ensures fs.files == old(fs.files) && fs.dirs.Keys == old(fs.dirs.Keys)
      ensures forall d | d in fs.dirs :: fs.dirs[d].entries == old(fs.dirs)[d].entries
      ensures ok <==> !fails(SyncJournal) && !fails(SyncRoot)
      ensures ok ==> fs.dirs[journal] == Synced(old(fs.dirs)[journal]) && fs.dirs[root] == Synced(old(fs.dirs)[root])
    {
      Wait(init);
      if fails(SyncJournal) {
        return false;
      }
      Change(SyncDirectory(fs, journal));
      Wait(init);
      if fails(SyncRoot) {
        return false;
      }
      Change(SyncDirectory(fs, root));
      return true;
    }

    // ---------- publication ----------

    /** The tree is visible under its final name, complete and durable. */
    ghost predicate Shown(t: Tree)
      reads this
    {
      && Valid() && Sealed(fs, t, job)
      && FINAL in fs.parent.entries && fs.parent.entries[FINAL] == t.root
    }

    method WaitShown(ghost t: Tree)
      requires Shown(t)
      modifies this`fs, this`history
      ensures Shown(t) && old(history) <= history
      ensures Lasting(old(fs), t.root) ==> Lasting(fs, t.root)
    {
      InterferenceKeepsSealed(fs, job, t);
      Pause();
    }

    /** The exclusive rename: it replaces nothing, and it is the first moment at
        which any crash could show the tree under its final name. */
    method Rename(ghost t: Tree, ghost init: map<Name, nat>) returns (renamed: bool)
      requires Building() && Beside(init) && t.root == root && Durable(fs, t, job)
      modifies this`fs, this`history
      ensures old(history) <= history
      ensures !renamed ==> Building() && Beside(init) && fs.files == old(fs.files) && fs.dirs == old(fs.dirs)
      ensures renamed ==> Shown(t) && !fails(RenameTree)
      ensures quiet ==> (renamed <==> !fails(RenameTree) && FINAL !in old(fs.parent.entries))
    {
      Wait(init);
      if fails(RenameTree) || FINAL in fs.parent.entries {
        return false;
      }
      RenameSeals(fs, t, job);
      Apply(RenameTemporary(fs));
      return true;
    }

    /** fsync of the parent, and the checks that follow it. */
    method Settle(ghost t: Tree) returns (ok: bool)
      requires Shown(t)
      modifies this`fs, this`history
      ensures Shown(t) && old(history) <= history
      ensures ok <==> !fails(SyncFinal) && !fails(CheckFinal)
      ensures ok ==> Lasting(fs, t.root)
    {
      WaitShown(t);
      if fails(SyncFinal) {
        return false;
      }
      assert Sealed(SyncParent(fs), t, job);
      Apply(SyncParent(fs));
      WaitShown(t);
      return !fails(CheckFinal);
    }

    /** Removes one held object of the tree, a directory only when it is empty. */
    method Remove(n: Name, ghost init: map<Name, nat>) returns (ok: bool)
      requires Building() && Beside(init) && n in fs.dirs[root].entries
      requires fs.dirs[root].entries[n] in fs.dirs ==> fs.dirs[fs.dirs[root].entries[n]].entries == map[]
      modifies this`fs, this`history
      ensures Building() && Beside(init) && old(history) <= history
      ensures fs.dirs == old(fs.dirs)[root := fs.dirs[root]]
      ensures ok <==> !fails(RemoveName(n))
      ensures ok ==> fs.dirs[root].entries == old(fs.dirs)[root].entries - {n}
    {
      Wait(init);
      if fails(RemoveName(n)) {
        return false;
      }
      Change(RemoveEntry(fs, root, n));
      return true;
    }

    /** Empties the tree, one held object after the other. */
    method EmptyTree(ghost init: map<Name, nat>) returns (ok: bool)
      requires Building() && Beside(init) && Whole()
      modifies this`fs, this`history
      ensures Building() && Beside(init) && old(history) <= history
      ensures ok <==> Empties(fails)
      ensures ok ==> fs.dirs[root].entries == map[]
    {
      ok := Remove(MANIFEST, init);
      if ok {
        ok := Remove(CONFIGURATION, init);
      }
      if ok {
        ok := Remove(JOURNAL, init);
      }
    }

    /** The tree that was emptied is durably empty. */
    ghost predicate Emptied()
      reads this
    {
      root in fs.dirs && fs.dirs[root] == DirNode(map[], {map[]}, true)
    }

    /** Syncs the emptied tree and removes its temporary name. */
    method RemoveRoot(ghost init: map<Name, nat>) returns (ok: bool)
      requires Building() && Beside(init) && (quiet ==> TEMPORARY !in init) && fs.dirs[root].entries == map[]
      modifies this`fs, this`history
      ensures Valid() && old(history) <= history
      ensures ok <==> !fails(SyncEmptied) && !fails(RemoveTree)
      ensures !ok ==> Building() && Beside(init)
      ensures ok ==> Emptied() && TEMPORARY !in fs.parent.entries
      ensures ok ==> (fs.parent.versions == {fs.parent.entries} <==> !fails(SyncRemoved))
      ensures ok && quiet ==> fs.parent.entries == init
    {
      if fails(SyncEmptied) {
        return false;
      }
      Change(SyncDirectory(fs, root));
      Wait(init);
      if fails(RemoveTree) {
        return false;
      }
      UnbindTemporary();
      return true;
    }

    /** rmdir of the temporary name, and the sync that keeps a crash from bringing it
        back. */
    method UnbindTemporary()
      requires Building()
      modifies this`fs, this`history
      ensures Valid() && old(history) <= history && fs.files == old(fs.files) && fs.dirs == old(fs.dirs)
      ensures fs.parent.entries == old(fs.parent.entries) - {TEMPORARY}
      ensures fs.parent.versions == {fs.parent.entries} <==> !fails(SyncRemoved)
    {
      HiddenAfterRemoval(fs, root);
      ghost var before := fs.parent.entries;
      Apply(RemoveTemporary(fs));
      assert before in fs.parent.versions && before != fs.parent.entries;
      if !fails(SyncRemoved) {
        Apply(SyncParent(fs));
      }
    }

    /** The rollback of a whole tree: when nobody else writes, the parent directory
        is again exactly what it was if the removals succeed, and keeps the temporary
        name otherwise. What was removed cannot come back exactly when the last sync
        succeeds too. */
    method Rollback(ghost init: map<Name, nat>) returns (removed: bool)
      requires Building() && Beside(init) && (quiet ==> FINAL !in init && TEMPORARY !in init) && Whole()
      modifies this`fs, this`history
      ensures Valid() && old(history) <= history
      ensures quiet ==> (removed <==> Removes(fails))
      ensures quiet ==> root == old(root) && fs.parent.entries == if removed then init else init[TEMPORARY := root]
      ensures removed ==> Emptied() && TEMPORARY !in fs.parent.entries
      ensures removed ==> (fs.parent.versions == {fs.parent.entries} <==> !fails(SyncRemoved))
    {
      Wait(init);
      if FINAL in fs.parent.entries || fails(CheckHeld) {
        return false;
      }
      removed := EmptyTree(init);
      if removed {
        removed := RemoveRoot(init);
      }
    }

    // ---------- the whole run ----------

    /** The tree is there, with both files durable. */
    ghost predicate Filled(t: Tree)
      reads this
    {
      && Whole() && t.root == root && t.journal == journal && fs.dirs[root].entries == TreeEntries(t)
      && t.configuration in fs.files && fs.files[t.configuration] == FileNode(job.configuration, true)
      && t.manifest in fs.files && fs.files[t.manifest] == FileNode(job.manifest, true)
    }

    /** Makes the journal directory and both files inside the temporary one. */
    method Build(ghost init: map<Name, nat>) returns (tree: Option<Tree>, done: bool)
      requires Building() && Beside(init) && fs.files == map[] && fs.dirs == map[root := NEW_DIRECTORY]
      modifies this`fs, this`history, this`journal
      ensures Building() && Beside(init) && old(history) <= history
      ensures tree.Some? <==> Holds(fails)
      ensures done <==> tree.Some? && !fails(LateFile(MANIFEST))
      ensures tree.Some? ==> Filled(tree.value)
    {
      var ok := MakeJournal(init);
      if !ok {
        return None, false;
      }
      tree, done := BuildFiles(init);
    }

    method BuildFiles(ghost init: map<Name, nat>) returns (tree: Option<Tree>, done: bool)
      requires Building() && Beside(init) && root != journal && fs.files == map[] && fs.dirs.Keys == {root, journal}
      requires fs.dirs[root].entries == map[JOURNAL := journal] && fs.dirs[journal] == NEW_DIRECTORY
      modifies this`fs, this`history
      ensures Building() && Beside(init) && old(history) <= history
      ensures tree.Some? <==>
                Keeps(fails, CONFIGURATION) && !fails(LateFile(CONFIGURATION)) && Keeps(fails, MANIFEST)
      ensures done <==> tree.Some? && !fails(LateFile(MANIFEST))
      ensures tree.Some? ==> Filled(tree.value)
    {
      var c, m, ok;
      c, ok := CreateWriteFile(CONFIGURATION, job.configuration, init);
      if !ok {
        return None, false;
      }
      m, ok := CreateWriteFile(MANIFEST, job.manifest, init);
      if m.None? {
        return None, false;
      }
      var t := Tree(root, journal, c.value, m.value);
      assert fs.dirs[root].entries == TreeEntries(t);
      return Some(t), ok;
    }

    /** From a tree that is held to its final name, or back. */
    method Conclude(t: Tree, complete: bool, ghost init: map<Name, nat>) returns (published: bool, renamed: bool, removed: bool)
      requires Building() && Beside(init) && Filled(t) && (quiet ==> FINAL !in init && TEMPORARY !in init)
      modifies this`fs, this`history
      ensures Valid() && old(history) <= history
      ensures renamed ==> Shown(t)
      ensures published ==> Lasting(fs, t.root)
      ensures published <==> renamed && !fails(SyncFinal) && !fails(CheckFinal)
      ensures quiet ==> (renamed <==> complete && !fails(SyncJournal) && !fails(SyncRoot) && !fails(RenameTree))
      ensures quiet ==> (removed <==> !renamed && Removes(fails))
      ensures quiet && !renamed ==> fs.parent.entries == if removed then init else init[TEMPORARY := root]
      ensures removed ==> Emptied() && TEMPORARY !in fs.parent.entries
      ensures removed ==> (fs.parent.versions == {fs.parent.entries} <==> !fails(SyncRemoved))
    {
      published, renamed, removed := false, false, false;
      var ok := complete;
      if ok {
        ok := SyncTree(init);
      }
      if ok {
        renamed := Rename(t, init);
      }
      if renamed {
        published := Settle(t);
      } else {
        removed := Rollback(init);
      }
    }

    /** publish. Every state it passes through survives a crash, and follows from
        the one before by a step that leaves the names of others alone (`Valid`
        covers the whole history). A published tree is complete and beyond the reach
        of any later crash. With nobody else writing, how far the run comes is
        decided by the two names and by which calls fail; one that fails before the
        rename leaves the parent exactly as it was if and only if it made no
        temporary directory, or held the whole tree and removed it; no crash can
        bring the temporary name back if and only if the last sync succeeds too. */
    method Publish() returns (published: bool, renamed: bool, made: bool, held: bool, removed: bool)
      requires Valid() && fs.files == map[] && fs.dirs == map[]
      modifies this
      ensures Valid() && old(history) <= history
      ensures renamed ==> exists t :: Sealed(fs, t, job) && FINAL in fs.parent.entries && fs.parent.entries[FINAL] == t.root
      ensures published ==> renamed && exists t :: Sealed(fs, t, job) && Lasting(fs, t.root)
      ensures held <==> made && Holds(fails)
      ensures published <==> renamed && !fails(SyncFinal) && !fails(CheckFinal)
      ensures quiet ==> (made <==> !fails(Look) && !fails(MakeTree)
                                   && FINAL !in old(fs.parent.entries) && TEMPORARY !in old(fs.parent.entries))
      ensures quiet ==> (renamed <==> held && Renames(fails))
      ensures quiet ==> (removed <==> held && !renamed && Removes(fails))
      ensures quiet && !renamed ==> (fs.parent.entries == old(fs.parent.entries) <==> !made || (held && removed))
      ensures quiet && !renamed && fs.parent.entries != old(fs.parent.entries) ==>
                fs.parent.entries == old(fs.parent.entries)[TEMPORARY := root]
      ensures removed ==> Emptied() && TEMPORARY !in fs.parent.entries
      ensures removed ==> (fs.parent.versions == {fs.parent.entries} <==> !fails(SyncRemoved))
    {
      ghost var init := fs.parent.entries;
      published, renamed, held, removed := false, false, false, false;
      made := MakeRoot();
      if !made {
        return;
      }
      assert TEMPORARY in init[TEMPORARY := root];
      var tree, complete := Build(init);
      if tree.None? {
        return;
      }
      held := true;
      published, renamed, removed := Conclude(tree.value, complete, init);
    }
  }

  /** A run that stops before the whole tree is held, here because the second file
      cannot be created, leaves the temporary name behind in a directory that
      nobody else touches. */
  method FailureLeavesTemporary(job: Job) returns (run: Publication, held: bool)
    ensures fresh(run) && run.Valid() && run.quiet && run.history[0].parent.entries == map[]
    ensures !held && TEMPORARY in run.fs.parent.entries
  {
    var empty := DirNode(map[], {map[]}, true);
    run := new Publication(job, c => c == CreateFile(MANIFEST), true, empty);
    ghost var start := run.history;
    var published, renamed, made, removed;
    published, renamed, made, held, removed := run.Publish();
    assert run.history[0] == start[0];
  }

  /** A number above all of a finite set. */
  lemma {:induction false} Above(s: set<nat>) returns (i: nat)
    ensures forall x | x in s :: x < i
  {
    i := 0;
    if s != {} {
      var x :| x in s;
      var j := Above(s - {x});
      i := if j > x then j else x + 1;
      assert forall y | y in s :: y == x || y in s - {x};
    }
  }

  lemma UnusedExists(f: Fs)
    ensures exists i :: Unused(f, i)
  {
    var named := set v, n | v in f.parent.versions && n in v :: v[n];
    var i := Above(Ours(f) + named);
    forall v, x | v in f.parent.versions && x in v.Values
      ensures x < i
    {
      var n :| n in v && v[n] == x;
      assert v[n] in named;
    }
    assert Unused(f, i);
  }

  /** No name of the parent, live or past, carries an unused number. */
  lemma UnusedIsUnnamed(f: Fs, i: nat)
    requires Unused(f, i)
    ensures forall v, n | v in f.parent.versions && n in v :: v[n] != i
  {
    forall v, n | v in f.parent.versions && n in v
      ensures v[n] != i
    {
      assert v[n] in v.Values;
    }
  }

  lemma HiddenAfterRoot(f: Fs, i: nat)
    requires f.files == map[] && f.dirs == map[] && Unused(f, i) && f.parent.entries in f.parent.versions
    ensures Hidden(MakeTemporary(f, i), i)
  {
    UnusedIsUnnamed(f, i);
  }

  lemma HiddenAfterRemoval(f: Fs, root: nat)
    requires Hidden(f, root) && f.parent.entries in f.parent.versions
    ensures Hidden(RemoveTemporary(f), root) && Hidden(SyncParent(RemoveTemporary(f)), root)
  {
  }

  lemma HiddenAfterChild(f: Fs, g: Fs, i: nat, root: nat)
    requires Hidden(f, root) && Unused(f, i) && g.parent == f.parent && Ours(g) == Ours(f) + {i}
    ensures Hidden(g, root)
  {
    UnusedIsUnnamed(f, i);
  }

  lemma InterferenceKeepsHidden(f: Fs, job: Job, root: nat)
    requires Hidden(f, root) && f.parent.entries in f.parent.versions
    ensures forall g | Interferes(f, g) :: Hidden(g, root)
  {
    forall g | Interferes(f, g)
      ensures Hidden(g, root)
    {
      InterferenceIsHarmless(f, g, job);
    }
  }

  lemma InterferenceKeepsSealed(f: Fs, job: Job, t: Tree)
    requires Sealed(f, t, job) && f.parent.entries in f.parent.versions
    requires FINAL in f.parent.entries && f.parent.entries[FINAL] == t.root
    ensures forall g | Interferes(f, g) ::
              Sealed(g, t, job) && FINAL in g.parent.entries && g.parent.entries[FINAL] == t.root
    ensures forall g | Interferes(f, g) && Lasting(f, t.root) :: Lasting(g, t.root)
  {
    forall g | Interferes(f, g)
      ensures Sealed(g, t, job) && FINAL in g.parent.entries && g.parent.entries[FINAL] == t.root
      ensures Lasting(f, t.root) ==> Lasting(g, t.root)
    {
      InterferenceIsHarmless(f, g, job);
    }
  }

  lemma RenameSeals(f: Fs, t: Tree, job: Job)
    requires Hidden(f, t.root) && Durable(f, t, job) && f.parent.entries in f.parent.versions
    requires TEMPORARY in f.parent.entries && f.parent.entries[TEMPORARY] == t.root
    ensures Sealed(RenameTemporary(f), t, job)
  {
  }
}
