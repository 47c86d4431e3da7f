/**
The file system under native/installed-configuration-v1.c: what is live, what a
crash may leave of it, and what other processes may do meanwhile.
*/
module PublisherDisk {
  import opened Bytes
  import opened Wrappers

  type Name = string

  const FINAL := "Protected"
  const TEMPORARY := ".Protected.acr-new"
  const JOURNAL := "installation-journal"
  const CONFIGURATION := "operator.json"
  const MANIFEST := "installed-manifest.json"

  /** A regular file; `clean` says that its bytes were synced since the last change. */
  datatype FileNode = FileNode(bytes: seq<byte>, clean: bool)

  /** A directory, with every version of its entries since its last sync. */
  datatype DirNode = DirNode(entries: map<Name, nat>, versions: set<map<Name, nat>>, clean: bool)

  /** The parent directory, and the files and directories this run has made in
      it, by inode number. Everything else in the parent belongs to others. */
  datatype Fs = Fs(parent: DirNode, files: map<nat, FileNode>, dirs: map<nat, DirNode>)

  datatype Job = Job(configuration: seq<byte>, manifest: seq<byte>)

  function Ours(f: Fs): set<nat> { f.files.Keys + f.dirs.Keys }

  function Bound(entries: map<Name, nat>, n: Name): Option<nat> {
    if n in entries then Some(entries[n]) else None
  }

  function Rebind(d: DirNode, entries: map<Name, nat>): DirNode {
    DirNode(entries, d.versions + {entries}, false)
  }

  function Synced(d: DirNode): DirNode { DirNode(d.entries, {d.entries}, true) }

  const NEW_DIRECTORY := DirNode(map[], {map[]}, false)

  /** A number given to a new file is held by no file of ours and by no name
      that a crash could bring back. */
  predicate Unused(f: Fs, i: nat) {
    i !in Ours(f) && forall v | v in f.parent.versions :: i !in v.Values
  }

  // ---------- the effects of the system calls ----------

  function MakeTemporary(f: Fs, i: nat): Fs {
    Fs(Rebind(f.parent, f.parent.entries[TEMPORARY := i]), f.files, f.dirs[i := NEW_DIRECTORY])
  }

  function MakeDirectory(f: Fs, d: nat, n: Name, i: nat): Fs
    requires d in f.dirs
  {
    f.(dirs := f.dirs[d := Rebind(f.dirs[d], f.dirs[d].entries[n := i])][i := NEW_DIRECTORY])
  }

  function MakeFile(f: Fs, d: nat, n: Name, i: nat): Fs
    requires d in f.dirs
  {
    f.(dirs := f.dirs[d := Rebind(f.dirs[d], f.dirs[d].entries[n := i])], files := f.files[i := FileNode([], false)])
  }

  function PutBytes(f: Fs, i: nat, bytes: seq<byte>): Fs { f.(files := f.files[i := FileNode(bytes, false)]) }

  function SyncFile(f: Fs, i: nat): Fs
    requires i in f.files
  {
    f.(files := f.files[i := f.files[i].(clean := true)])
  }

  function SyncDirectory(f: Fs, d: nat): Fs
    requires d in f.dirs
  {
    f.(dirs := f.dirs[d := Synced(f.dirs[d])])
  }

  function SyncParent(f: Fs): Fs { f.(parent := Synced(f.parent)) }

  /** renameatx_np with RENAME_EXCL, once it is known that FINAL is unbound. */
  function RenameTemporary(f: Fs): Fs
    requires TEMPORARY in f.parent.entries
  {
    var e := f.parent.entries;
    f.(parent := Rebind(f.parent, (e - {TEMPORARY})[FINAL := e[TEMPORARY]]))
  }

  function RemoveEntry(f: Fs, d: nat, n: Name): Fs
    requires d in f.dirs
  {
    f.(dirs := f.dirs[d := Rebind(f.dirs[d], f.dirs[d].entries - {n})])
  }

  function RemoveTemporary(f: Fs): Fs {
    f.(parent := Rebind(f.parent, f.parent.entries - {TEMPORARY}))
  }

  // ---------- crashes ----------

  /** What a restart may find. */
  datatype Image = Image(parent: map<Name, nat>, files: map<nat, seq<byte>>, dirs: map<nat, map<Name, nat>>)

  /** Each name on its own may have reached the disk at any version since the
      directory was last synced. */
  predicate PersistedAt(d: DirNode, entries: map<Name, nat>, n: Name) {
    exists v | v in d.versions :: Bound(entries, n) == Bound(v, n)
  }

  ghost predicate Persisted(d: DirNode, entries: map<Name, nat>) {
    forall n :: PersistedAt(d, entries, n)
  }

  /** Synced files and directories are found as they were; anything unsynced may
      hold anything. */
  ghost predicate CrashImage(f: Fs, m: Image) {
    && Persisted(f.parent, m.parent)
    && (forall i | i in f.files && f.files[i].clean :: i in m.files && m.files[i] == f.files[i].bytes)
    && (forall i | i in f.dirs && f.dirs[i].clean :: i in m.dirs && m.dirs[i] == f.dirs[i].entries)
  }

  /** A complete publication: both files with exactly the given bytes and an
      empty journal directory, and nothing else. */
  predicate Complete(m: Image, root: nat, job: Job) {
    && root in m.dirs
    && m.dirs[root].Keys == {JOURNAL, CONFIGURATION, MANIFEST}
    && m.dirs[root][CONFIGURATION] in m.files && m.files[m.dirs[root][CONFIGURATION]] == job.configuration
    && m.dirs[root][MANIFEST] in m.files && m.files[m.dirs[root][MANIFEST]] == job.manifest
    && m.dirs[root][JOURNAL] in m.dirs && m.dirs[m.dirs[root][JOURNAL]] == map[]
  }

  // ---------- what keeps every crash harmless ----------

  /** Of all that is ours, only `root` can be reached from the parent, and only
      by the temporary name. */
  predicate Hidden(f: Fs, root: nat) {
    forall v, n | v in f.parent.versions && n in v && v[n] in Ours(f) :: n == TEMPORARY && v[n] == root
  }

  datatype Tree = Tree(root: nat, journal: nat, configuration: nat, manifest: nat)

  function TreeEntries(t: Tree): map<Name, nat> {
    map[JOURNAL := t.journal, CONFIGURATION := t.configuration, MANIFEST := t.manifest]
  }

  /** The whole tree is complete and durable. */
  predicate Durable(f: Fs, t: Tree, job: Job) {
    && t.root in f.dirs && f.dirs[t.root] == DirNode(TreeEntries(t), {TreeEntries(t)}, true)
    && t.journal in f.dirs && f.dirs[t.journal] == DirNode(map[], {map[]}, true)
    && t.configuration in f.files && f.files[t.configuration] == FileNode(job.configuration, true)
    && t.manifest in f.files && f.files[t.manifest] == FileNode(job.manifest, true)
  }

  /** ... and only its root can be reached from the parent. */
  predicate Sealed(f: Fs, t: Tree, job: Job) {
    && Durable(f, t, job)
    && forall v, n | v in f.parent.versions && n in v && v[n] in Ours(f) ::
         v[n] == t.root && (n == TEMPORARY || n == FINAL)
  }

  ghost predicate Secure(f: Fs, job: Job) {
    (exists r :: Hidden(f, r)) || exists t :: Sealed(f, t, job)
  }

  /** Whatever a crash leaves of a secure file system, the published name is
      absent, or leads to something that is not ours, or to a complete tree. */
  lemma SecureSurvivesCrash(f: Fs, job: Job, m: Image)
    requires Secure(f, job) && CrashImage(f, m)
    ensures FINAL !in m.parent || m.parent[FINAL] !in Ours(f) || Complete(m, m.parent[FINAL], job)
  {
    if FINAL in m.parent && m.parent[FINAL] in Ours(f) {
      assert PersistedAt(f.parent, m.parent, FINAL);
      var v :| v in f.parent.versions && Bound(m.parent, FINAL) == Bound(v, FINAL);
      assert v[FINAL] in Ours(f);
      if !exists r :: Hidden(f, r) {
        var t :| Sealed(f, t, job);
        assert m.dirs[t.root] == TreeEntries(t);
      }
    }
  }

  /** The published name leads to the tree in every version a crash may keep. */
  predicate Lasting(f: Fs, root: nat) {
    f.parent.versions != {} && forall v | v in f.parent.versions :: FINAL in v && v[FINAL] == root
  }

  /** After a completed publication no crash can undo or damage it. */
  lemma LastingSurvivesCrash(f: Fs, t: Tree, job: Job, m: Image)
    requires Sealed(f, t, job) && Lasting(f, t.root) && CrashImage(f, m)
    ensures FINAL in m.parent && m.parent[FINAL] == t.root && Complete(m, t.root, job)
  {
    assert PersistedAt(f.parent, m.parent, FINAL);
    assert m.dirs[t.root] == TreeEntries(t);
  }

  /** A parent directory with one version is found so after every crash. */
  lemma OneVersionSurvivesCrash(f: Fs, m: Image)
    requires f.parent.versions == {f.parent.entries} && CrashImage(f, m)
    ensures m.parent == f.parent.entries
  {
    forall n
      ensures Bound(m.parent, n) == Bound(f.parent.entries, n)
    {
      assert PersistedAt(f.parent, m.parent, n);
    }
    forall n | n in m.parent
      ensures n in f.parent.entries && m.parent[n] == f.parent.entries[n]
    {
      assert Bound(m.parent, n) == Bound(f.parent.entries, n);
    }
    forall n | n in f.parent.entries
      ensures n in m.parent
    {
      assert Bound(m.parent, n) == Bound(f.parent.entries, n);
    }
  }

  /** Any version that was not synced away may be what a crash leaves. */
  lemma AnyVersionMayBeFound(f: Fs, v: map<Name, nat>) returns (m: Image)
    requires v in f.parent.versions
    ensures CrashImage(f, m) && m.parent == v
  {
    m := Image(v, map i | i in f.files :: f.files[i].bytes, map i | i in f.dirs :: f.dirs[i].entries);
    forall n
      ensures PersistedAt(f.parent, v, n)
    {
      assert Bound(v, n) == Bound(v, n);
    }
  }

  // ---------- other processes ----------

  /** Two versions of the parent agree on every name that matters to this run. */
  predicate SameForUs(ours: set<nat>, v: map<Name, nat>, w: map<Name, nat>) {
    && Bound(v, TEMPORARY) == Bound(w, TEMPORARY)
    && (forall n | n in v && v[n] in ours :: n in w && w[n] == v[n])
    && (forall n | n in w && w[n] in ours :: n in v && v[n] == w[n])
  }

  /** Others may bind and unbind names of the parent, and sync it, but leave alone
      the temporary name and whatever this run has made. */
  predicate Interferes(f: Fs, g: Fs) {
    && g.files == f.files && g.dirs == f.dirs
    && g.parent.entries in g.parent.versions
    && SameForUs(Ours(f), g.parent.entries, f.parent.entries)
    && forall v | v in g.parent.versions :: v in f.parent.versions || SameForUs(Ours(f), v, f.parent.entries)
  }

  lemma InterferenceIsHarmless(f: Fs, g: Fs, job: Job)
    requires Interferes(f, g) && f.parent.entries in f.parent.versions
    ensures forall r | Hidden(f, r) :: Hidden(g, r)
    ensures forall t | Sealed(f, t, job) :: Sealed(g, t, job)
  {
  }

  lemma InterferenceComposes(f: Fs, g: Fs, h: Fs)
    requires Interferes(f, g) && Interferes(g, h)
    ensures Interferes(f, h)
  {
  }

  predicate TouchesOurs(f: Fs, n: Name, b: Option<nat>) {
    n == TEMPORARY || (n in f.parent.entries && f.parent.entries[n] in Ours(f)) || (b.Some? && b.value in Ours(f))
  }

  /** Another process binds or unbinds one name, and may sync the directory. */
  function Foreign(f: Fs, n: Name, b: Option<nat>, synced: bool): Fs {
    var e := f.parent.entries;
    var next := f.(parent := Rebind(f.parent, if b.Some? then e[n := b.value] else e - {n}));
    if synced then SyncParent(next) else next
  }

  lemma ForeignInterferes(f: Fs, n: Name, b: Option<nat>, synced: bool)
    requires !TouchesOurs(f, n, b)
    ensures Interferes(f, Foreign(f, n, b, synced))
  {
  }

  /** What a step of this run may do to the parent directory: bind the temporary
      name or unbind it, or move it to FINAL when FINAL is unbound. A crash may
      then keep the old versions or the new one. */
  predicate Polite(f: Fs, g: Fs) {
    var e, e' := f.parent.entries, g.parent.entries;
    && (|| e' == e
        || (TEMPORARY !in e && TEMPORARY in e' && e' == e[TEMPORARY := e'[TEMPORARY]])
        || (TEMPORARY in e && e' == e - {TEMPORARY})
        || (TEMPORARY in e && FINAL !in e && e' == (e - {TEMPORARY})[FINAL := e[TEMPORARY]]))
    && g.parent.versions <= f.parent.versions + {e'}
  }

  lemma LastingStep(f: Fs, g: Fs, r: nat)
    requires Polite(f, g) && f.parent.entries in f.parent.versions && g.parent.versions != {}
    requires Lasting(f, r)
    ensures Lasting(g, r)
  {
    var e := f.parent.entries;
    assert FINAL in e && e[FINAL] == r;
  }

  // ---------- whole runs ----------

  /** Each state follows from the one before by a step of this run or, unless nobody
      else writes, of others. */
  ghost predicate Linked(history: seq<Fs>, quiet: bool) {
    forall i | 0 < i < |history| ::
      Polite(history[i - 1], history[i]) || (!quiet && Interferes(history[i - 1], history[i]))
  }

  /** What a run keeps of all the states it has passed through. */
  ghost predicate Recorded(history: seq<Fs>, job: Job, quiet: bool) {
    && history != []
    && (forall f | f in history :: Secure(f, job) && f.parent.entries in f.parent.versions)
    && Linked(history, quiet)
  }

  lemma RecordedAfter(history: seq<Fs>, job: Job, quiet: bool, g: Fs)
    requires Recorded(history, job, quiet) && Secure(g, job) && g.parent.entries in g.parent.versions
    requires Polite(history[|history| - 1], g) || (!quiet && Interferes(history[|history| - 1], g))
    ensures Recorded(history + [g], job, quiet)
  {
    var next := history + [g];
    forall i | 0 < i < |next|
      ensures Polite(next[i - 1], next[i]) || (!quiet && Interferes(next[i - 1], next[i]))
    {
      if i < |history| {
        assert next[i - 1] == history[i - 1] && next[i] == history[i];
      }
    }
  }

  /** Another process left the published name alone, in the live directory and in
      every version a crash may keep. */
  predicate SparesFinal(f: Fs, g: Fs) {
    forall v | v in g.parent.versions ::
      v in f.parent.versions || Bound(v, FINAL) == Bound(f.parent.entries, FINAL)
  }

  /** A published name that no crash could undo when the run began is in every state
      of the run bound as it was, in every version a crash may keep, unless another
      process touched it. */
  lemma {:induction false} PreexistingIsLasting(history: seq<Fs>, job: Job, quiet: bool, j: nat, r: nat)
    requires Recorded(history, job, quiet) && j < |history| && Lasting(history[0], r)
    requires forall k | 0 < k <= j && !Polite(history[k - 1], history[k]) :: SparesFinal(history[k - 1], history[k])
    ensures Lasting(history[j], r)
  {
    if j > 0 {
      PreexistingIsLasting(history, job, quiet, j - 1, r);
      var f, g := history[j - 1], history[j];
      assert f in history && g in history;
      if Polite(f, g) {
        LastingStep(f, g, r);
      } else {
        assert Bound(f.parent.entries, FINAL) == Some(r);
      }
    }
  }

  /** ... so whatever a crash at any point of the run leaves, the published name is
      bound as it was. */
  lemma PreexistingSurvivesCrash(history: seq<Fs>, job: Job, quiet: bool, j: nat, r: nat, m: Image)
    requires Recorded(history, job, quiet) && j < |history| && Lasting(history[0], r)
    requires forall k | 0 < k <= j && !Polite(history[k - 1], history[k]) :: SparesFinal(history[k - 1], history[k])
    requires CrashImage(history[j], m)
    ensures FINAL in m.parent && m.parent[FINAL] == r
  {
    PreexistingIsLasting(history, job, quiet, j, r);
    assert PersistedAt(history[j].parent, m.parent, FINAL);
  }

  /** Between two states of a run, a bound published name keeps its binding unless
      another process rebound it. */
  lemma {:induction false} PublishedNameIsKept(history: seq<Fs>, quiet: bool, i: nat, j: nat)
    requires Linked(history, quiet) && i <= j < |history|
    requires FINAL in history[i].parent.entries
    requires forall k | i < k <= j && !Polite(history[k - 1], history[k]) ::
               Bound(history[k].parent.entries, FINAL) == Bound(history[k - 1].parent.entries, FINAL)
    ensures Bound(history[j].parent.entries, FINAL) == Bound(history[i].parent.entries, FINAL)
  {
    if i < j {
      PublishedNameIsKept(history, quiet, i, j - 1);
    }
  }
}
