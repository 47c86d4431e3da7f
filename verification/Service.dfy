/**
The LaunchAgent custodian, native/macos-service-v1.c: one run inspects the
definition file and the service, and then makes at most one change.

Other processes may change the directory between any two steps; they leave the
run's own temporary name and the files it created alone. A digest stands for the
bytes it is computed from.
*/
module Service {
  import opened Bytes
  import opened Wrappers

  type Name = seq<byte>
  type Content = seq<byte>
  type Inode = nat

  const DEFINITION: Name := Ascii("xyz.agentcontrolroom.local.plist")
  const MAX_DEFINITION := 256 * 1024
  const NEEDLE: Content := Ascii("state = running")

  datatype Operation = VerifyParent | VerifyDefinition | Install(bytes: Content) | Status | Start | Stop
  datatype State = NotInstalled | Stopped | Running
  datatype Verb = Bootstrap | Kickstart | Bootout

  /** A change the run makes to the system. A publication records what the
      definition name was bound to just before. */
  datatype Effect =
    | Published(displaced: Option<Inode>, inode: Inode, bytes: Content)
    | Launched(verb: Verb)

  /** What an inspection of the definition name found. */
  datatype Definition = Absent | Present(inode: Inode, bytes: Content)

  function Bound(dir: map<Name, Inode>, name: Name): Option<Inode> {
    if name in dir then Some(dir[name]) else None
  }

  /** A definition file that inspection accepts. */
  predicate Sized(bytes: Content) { 1 <= |bytes| <= MAX_DEFINITION }

  predicate Acceptable(d: Definition) { d.Present? ==> Sized(d.bytes) }

  predicate Readable(i: Inode, files: map<Inode, Content>) { i in files && Sized(files[i]) }

  predicate Describes(d: Definition, dir: map<Name, Inode>, files: map<Inode, Content>) {
    match d
    case Absent => DEFINITION !in dir
    case Present(i, bytes) => DEFINITION in dir && dir[DEFINITION] == i && i in files && files[i] == bytes
  }

  datatype Reply = NoReply | FailedBeforeEffect(state: State, definition: Definition)
                 | Succeeded(state: State, definition: Definition)

  predicate OccursAt(needle: Content, text: Content, i: nat) {
    i + |needle| <= |text| && text[i..i + |needle|] == needle
  }

  /** `needle` stands somewhere in `text`. */
  ghost predicate Occurs(needle: Content, text: Content) {
    exists i: nat :: OccursAt(needle, text, i)
  }

  method ContainsRunning(output: Content) returns (found: bool)
    ensures found <==> Occurs(NEEDLE, output)
  {
    if |output| < |NEEDLE| {
      return false;
    }
    var i := 0;
    while i + |NEEDLE| <= |output|
      invariant forall j: nat | j < i :: !OccursAt(NEEDLE, output, j)
    {
      if output[i..i + |NEEDLE|] == NEEDLE {
        assert OccursAt(NEEDLE, output, i);
        return true;
      }
      i := i + 1;
    }
    return false;
  }

  /** What launchctl answers: its exit code and its output. */
  datatype Launchd = Launchd(exit: int, output: Content)

  /** The state and the registration that an answer to `print` stands for. */
  ghost predicate Tells(a: Launchd, present: bool, state: State, registered: bool) {
    && (a.exit == 0 || a.exit == 113)
    && (registered <==> a.exit == 0)
    && (a.exit == 0 ==> state != NotInstalled && (state == Running <==> Occurs(NEEDLE, a.output)))
    && (a.exit == 113 ==> state == if present then Stopped else NotInstalled)
  }

  /** The state a successful run reports is the one launchctl answered last; a run
      that installs reports a service that is stopped. */
  ghost predicate Reported(op: Operation, present: bool, answers: seq<Launchd>, state: State) {
    match op
    case Install(_) => state == Stopped
    case Start => |answers| == 3 && answers[1].exit == 0 && exists r :: Tells(answers[2], true, state, r)
    case Stop => |answers| == 3 && answers[1].exit == 0 && exists r :: Tells(answers[2], present, state, r)
    case _ => |answers| == 1 && exists r :: Tells(answers[0], present, state, r)
  }

  /** launchctl answers what the run can work with. */
  predicate Sensible(answers: seq<Launchd>) {
    && (|answers| > 0 ==> answers[0].exit == 0 || answers[0].exit == 113)
    && (|answers| > 1 ==> answers[1].exit == 0)
    && (|answers| > 2 ==> answers[2].exit == 0 || answers[2].exit == 113)
  }

  /** The effects a successful run of each operation has. */
  predicate Performed(op: Operation, effects: seq<Effect>) {
    match op
    case Install(bytes) => |effects| == 1 && effects[0].Published? && effects[0].bytes == bytes
    case Start => effects == [Launched(Bootstrap)] || effects == [Launched(Kickstart)]
    case Stop => effects == [Launched(Bootout)]
    case _ => effects == []
  }

  /** What the run saw before it may change anything. */
  datatype Sight = Sight(definition: Definition, registered: bool, running: bool)

  predicate Permits(op: Operation, sight: Sight) {
    match op
    case Install(_) => sight.definition.Absent? && !sight.registered
    case Start => sight.definition.Present? && !sight.running
    case Stop => sight.registered
    case _ => true
  }

  /** The directory after a run nobody else interfered with: unchanged, or with
      the definition newly bound to a new file holding exactly the bytes, or with a
      temporary name that could not be removed. */
  predicate Undisturbed(temporary: Name, before: map<Name, Inode>, held: map<Inode, Content>,
                        after: map<Name, Inode>, files: map<Inode, Content>, effects: seq<Effect>)
  {
    && (forall i | i in held :: i in files && files[i] == held[i])
    && (forall e | e in effects && e.Published? ::
          && DEFINITION !in before && e.inode !in held
          && after == before[DEFINITION := e.inode]
          && e.inode in files && files[e.inode] == e.bytes)
    && ((forall e | e in effects :: e.Launched?) ==>
          after == before || (temporary !in before && after - {temporary} == before))
  }

  // ---------- the directory while others write too ----------

  type Dir = map<Name, Inode>

  /** One state of the directory and its files, and whether this run's own step led to it. */
  datatype Moment = Moment(own: bool, dir: Dir, files: map<Inode, Content>)

  /** What a step of this run may do to the directory: bind its free temporary name,
      unbind it, or move it to the definition name while that is free. */
  predicate Gentle(temporary: Name, before: Dir, after: Dir) {
    || (temporary !in before && temporary in after && after == before[temporary := after[temporary]])
    || after == before - {temporary}
    || (DEFINITION !in before && temporary in before && after == before[DEFINITION := before[temporary]] - {temporary})
  }

  predicate Publication(effects: seq<Effect>, inode: Option<Inode>) {
    exists e | e in effects :: e.Published? && e.displaced.None? && Some(e.inode) == inode
  }

  /** Every own step is gentle, and one that binds the definition name is an effect. */
  predicate Tame(temporary: Name, history: seq<Moment>, effects: seq<Effect>) {
    forall k | 0 < k < |history| && history[k].own ::
      && Gentle(temporary, history[k - 1].dir, history[k].dir)
      && (Bound(history[k].dir, DEFINITION) != Bound(history[k - 1].dir, DEFINITION) ==>
            Publication(effects, Bound(history[k].dir, DEFINITION)))
  }

  lemma TameAfter(temporary: Name, history: seq<Moment>, effects: seq<Effect>, m: Moment)
    requires history != [] && Tame(temporary, history, effects)
    requires m.own ==>
               && Gentle(temporary, history[|history| - 1].dir, m.dir)
               && (Bound(m.dir, DEFINITION) != Bound(history[|history| - 1].dir, DEFINITION) ==>
                     Publication(effects, Bound(m.dir, DEFINITION)))
    ensures Tame(temporary, history + [m], effects)
  {
  }

  /** Whoever else writes: between two moments of a run, a name that is bound, and a
      name other than these two whether bound or not, is as it was unless another
      process changed it. So the definition is never replaced. */
  lemma {:induction false} NamesAreKept(temporary: Name, history: seq<Moment>, effects: seq<Effect>, n: Name, i: nat, j: nat)
    requires Tame(temporary, history, effects) && i <= j < |history| && n != temporary && temporary != DEFINITION
    requires n != DEFINITION || n in history[i].dir
    requires forall k | i < k <= j && !history[k].own :: Bound(history[k].dir, n) == Bound(history[k - 1].dir, n)
    ensures Bound(history[j].dir, n) == Bound(history[i].dir, n)
  {
    if i < j {
      NamesAreKept(temporary, history, effects, n, i, j - 1);
      if history[j].own {
        assert Gentle(temporary, history[j - 1].dir, history[j].dir);
      }
    }
  }

  /** At some moment the definition name was bound as described. */
  ghost predicate Held(history: seq<Moment>, d: Definition) {
    exists k :: 0 <= k < |history| && Describes(d, history[k].dir, history[k].files)
  }

  lemma HeldAt(history: seq<Moment>, from: nat, k: nat, d: Definition)
    requires from <= k < |history| && Describes(d, history[k].dir, history[k].files)
    ensures Held(history[from..], d)
  {
    assert history[from..][k - from] == history[k];
  }

  lemma HeldStays(history: seq<Moment>, longer: seq<Moment>, from: nat, d: Definition)
    requires history <= longer && from <= |history| && Held(history[from..], d)
    ensures Held(longer[from..], d)
  {
    var k :| 0 <= k < |history[from..]| && Describes(d, history[from..][k].dir, history[from..][k].files);
    assert longer[from..][k] == history[from..][k];
  }

  lemma TemporaryComesAndGoes(temporary: Name, before: map<Name, Inode>, i: Inode)
    requires temporary !in before && temporary != DEFINITION
    ensures before[temporary := i] - {temporary} == before
    ensures before[temporary := i][DEFINITION := i] - {temporary} == before[DEFINITION := i]
  {
  }

  class Run {
    const temporary: Name         // carries the process number
    const quiet: bool             // nobody else changes the directory
    var dir: map<Name, Inode>
    var files: map<Inode, Content>
    var mine: Option<Inode>       // the file this run created
    ghost var effects: seq<Effect>
    ghost var history: seq<Moment>
    ghost var answers: seq<Launchd>
    ghost var faults: nat         // calls that failed, deadlines that passed included

    ghost predicate Valid()
      reads this
    {
      && temporary != DEFINITION
      && (mine.Some? ==> mine.value in files)
      && history != [] && history[|history| - 1].dir == dir && Tame(temporary, history, effects)
      && (mine.None? ==> history[|history| - 1].files == files)
    }

    constructor (name: Name, d: map<Name, Inode>, f: map<Inode, Content>, alone: bool)
      requires name != DEFINITION
      ensures Valid() && dir == d && files == f && temporary == name && quiet == alone
      ensures mine == None && effects == [] && answers == [] && history == [Moment(false, d, f)]
    {
      temporary, quiet, dir, files, mine, effects, faults := name, alone, d, f, None, [], 0;
      history, answers := [Moment(false, d, f)], [];
    }

    /** Other processes move: any names and any files but the run's own. */
    method Others()
      requires Valid()
      modifies this`history, this`dir, this`files
      ensures Valid() && old(history) <= history
      ensures quiet ==> dir == old(dir) && files == old(files)
      ensures mine.Some? ==> files[mine.value] == old(files)[mine.value]
      ensures mine.Some? ==> (temporary in dir <==> temporary in old(dir))
      ensures mine.Some? && temporary in dir ==> dir[temporary] == old(dir)[temporary]
    {
      if quiet {
        return;
      }
      var d: map<Name, Inode> := *;
      var f: map<Inode, Content> := *;
      if mine.None? {
        dir, files := d, f;
      } else {
        files := f[mine.value := files[mine.value]];
        dir := if temporary in dir then d[temporary := dir[temporary]] else d - {temporary};
      }
      TameAfter(temporary, history, effects, Moment(false, dir, files));
      history := history + [Moment(false, dir, files)];
    }

    /** A step of this run on the directory. */
    method Change(next: Dir)
      requires Valid() && Gentle(temporary, dir, next)
      requires Bound(next, DEFINITION) != Bound(dir, DEFINITION) ==> Publication(effects, Bound(next, DEFINITION))
      modifies this`dir, this`history
      ensures Valid() && dir == next && history == old(history) + [Moment(true, next, files)]
    {
      TameAfter(temporary, history, effects, Moment(true, next, files));
      dir, history := next, history + [Moment(true, next, files)];
    }

    /** A system call that does nothing but may fail, at a moment when others may move. */
    method Check() returns (ok: bool)
      requires Valid()
      modifies this`faults, this`history, this`dir, this`files
      ensures Valid() && old(history) <= history
      ensures quiet ==> dir == old(dir) && files == old(files)
      ensures mine.Some? ==> files[mine.value] == old(files)[mine.value]
      ensures mine.Some? ==> (temporary in dir <==> temporary in old(dir))
      ensures mine.Some? && temporary in dir ==> dir[temporary] == old(dir)[temporary]
      ensures faults == old(faults) + if ok then 0 else 1
    {
      Others();
      ok := *;
      if !ok {
        faults := faults + 1;
      }
    }

    /** inspect_definition: what the name is bound to, or a failure. */
    method Inspect() returns (r: Option<Definition>)
      requires Valid()
      modifies this`faults, this`history, this`dir, this`files
      ensures Valid() && old(history) <= history
      ensures quiet ==> dir == old(dir) && files == old(files)
      ensures mine.Some? ==> files[mine.value] == old(files)[mine.value]
      ensures r.Some? ==> Describes(r.value, dir, files) && Acceptable(r.value)
      ensures r.Some? && mine.None? ==> Describes(r.value, history[|history| - 1].dir, history[|history| - 1].files)
      ensures faults >= old(faults)
      ensures r.None? && quiet ==> faults > old(faults) || (DEFINITION in dir && !Readable(dir[DEFINITION], files))
    {
      var ok := Check();
      if !ok {
        return None;
      }
      if DEFINITION !in dir {
        return Some(Absent);
      }
      var i := dir[DEFINITION];
      if !Readable(i, files) {
        return None;
      }
      return Some(Present(i, files[i]));
    }

    /** run_launchctl: the answer, or a failure to get one. A command that changes the
        service may have done so even when no answer is got. */
    method Launchctl(verb: Option<Verb>) returns (r: Option<Launchd>)
      requires Valid() && (verb.Some? ==> effects == [])
      modifies this`faults, this`history, this`dir, this`files, this`effects, this`answers
      ensures Valid() && old(history) <= history
      ensures quiet ==> dir == old(dir) && files == old(files)
      ensures mine.Some? ==> files[mine.value] == old(files)[mine.value]
      ensures r.Some? ==> answers == old(answers) + [r.value] && faults == old(faults)
      ensures r.None? ==> answers == old(answers) && faults > old(faults)
      ensures verb.None? ==> effects == old(effects)
      ensures verb.Some? ==> effects == [Launched(verb.value)] || (r.None? && effects == [])
    {
      var ok := Check();
      var spawned: bool, answer: Launchd := *, *;
      if verb.Some? && (ok || spawned) {
        effects := [Launched(verb.value)];
      }
      if !ok {
        return None;
      }
      answers := answers + [answer];
      return Some(answer);
    }

    /** launchctl print, and what it says of the service. */
    method ServiceStatus(present: bool) returns (r: Option<(State, bool)>)
      requires Valid()
      modifies this`faults, this`history, this`dir, this`files, this`effects, this`answers
      ensures Valid() && old(history) <= history
      ensures quiet ==> dir == old(dir) && files == old(files)
      ensures mine.Some? ==> files[mine.value] == old(files)[mine.value]
      ensures effects == old(effects) && faults >= old(faults) && old(answers) <= answers
      ensures r.Some? ==>
                && |answers| == |old(answers)| + 1
                && Tells(answers[|old(answers)|], present, r.value.0, r.value.1)
      ensures r.None? ==>
                || faults > old(faults)
                || (|answers| == |old(answers)| + 1 && answers[|old(answers)|].exit !in {0, 113})
    {
      var answer := Launchctl(None);
      if answer.None? {
        return None;
      }
      if answer.value.exit == 0 {
        var running := ContainsRunning(answer.value.output);
        return Some((if running then Running else Stopped, true));
      }
      if answer.value.exit != 113 {
        return None;
      }
      return Some((if present then Stopped else NotInstalled, false));
    }

    /** launchctl bootstrap, kickstart or bootout. The change may take place even
        when the call is reported as failed. */
    method Transition(op: Operation, registered: bool) returns (ok: bool)
      requires Valid() && (op.Start? || op.Stop?) && effects == []
      modifies this`faults, this`history, this`dir, this`files, this`effects, this`answers
      ensures Valid() && old(history) <= history
      ensures quiet ==> dir == old(dir) && files == old(files)
      ensures var verb := if op.Stop? then Bootout else if registered then Kickstart else Bootstrap;
              effects == [Launched(verb)] || (!ok && effects == [])
      ensures faults >= old(faults) && old(answers) <= answers
      ensures ok ==> |answers| == |old(answers)| + 1 && answers[|old(answers)|].exit == 0
      ensures !ok ==>
                || faults > old(faults)
                || (|answers| == |old(answers)| + 1 && answers[|old(answers)|].exit != 0)
    {
      var verb := if op.Stop? then Bootout else if registered then Kickstart else Bootstrap;
      var answer := Launchctl(Some(verb));
      return answer.Some? && answer.value.exit == 0;
    }

    /** Fills the new file; a write may be short, and may fail. */
    method WriteAll(bytes: Content) returns (ok: bool)
      requires Valid() && mine.Some? && files[mine.value] == []
      modifies this`faults, this`history, this`dir, this`files
      ensures Valid() && old(history) <= history
      ensures quiet ==> dir == old(dir) && files == old(files)[mine.value := files[mine.value]]
      ensures ok ==> files[mine.value] == bytes
      ensures temporary in dir <==> temporary in old(dir)
      ensures temporary in dir ==> dir[temporary] == old(dir)[temporary]
      ensures faults >= old(faults) && (!ok ==> faults > old(faults))
    {
      var offset := 0;
      while offset < |bytes|
        invariant faults == old(faults) && old(history) <= history
        invariant Valid() && offset <= |bytes| && files[mine.value] == bytes[..offset]
        invariant quiet ==> dir == old(dir) && files == old(files)[mine.value := files[mine.value]]
        invariant temporary in dir <==> temporary in old(dir)
        invariant temporary in dir ==> dir[temporary] == old(dir)[temporary]
      {
        var alive := Check();
        var count: int := *;
        if !alive || count <= 0 || count > |bytes| - offset {
          faults := faults + 1;
          return false;
        }
        assert bytes[..offset + count] == bytes[..offset] + bytes[offset..offset + count];
        files := files[mine.value := files[mine.value] + bytes[offset..offset + count]];
        offset := offset + count;
      }
      assert bytes[..|bytes|] == bytes;
      ok := true;
    }

    method RemoveTemporary()
      requires Valid() && mine.Some?
      modifies this`dir, this`history
      ensures Valid() && old(history) <= history
      ensures dir == old(dir) || dir == old(dir) - {temporary}
    {
      var gone: bool := *;
      if gone {
        Change(dir - {temporary});
      }
    }

    /** publish_definition: a new file is written under the temporary name and
        renamed to a definition name that is free at that moment. */
    method Publish(bytes: Content) returns (ok: bool)
      requires Valid() && mine.None? && effects == []
      modifies this`faults, this`history, this`dir, this`files, this`mine, this`effects
      ensures Valid() && old(history) <= history
      ensures effects == [] || (mine.Some? && effects == [Published(None, mine.value, bytes)])
      ensures ok ==> effects != [] && Describes(Present(mine.value, bytes), dir, files)
      ensures quiet ==> Undisturbed(temporary, old(dir), old(files), dir, files, effects)
      ensures faults >= old(faults) && (!ok && quiet ==>
                faults > old(faults) || temporary in old(dir) || DEFINITION in old(dir) || !Sized(bytes))
    {
      var ready := Check();
      if !ready || temporary in dir {
        return false;
      }
      var creates := Check();
      var inode: Inode := *;
      if !creates || temporary in dir {
        return false;
      }
      if inode in files {
        faults := faults + 1;
        return false;
      }
      mine, files := Some(inode), files[inode := []];
      Change(dir[temporary := inode]);
      ok := Complete(bytes, old(dir), old(files));
    }

    /** Writes and renames the new file, or removes its temporary name. */
    method Complete(bytes: Content, ghost before: map<Name, Inode>, ghost held: map<Inode, Content>) returns (ok: bool)
      requires Valid() && mine.Some? && effects == []
      requires files[mine.value] == [] && temporary in dir && dir[temporary] == mine.value
      requires quiet ==>
                 && temporary !in before && dir == before[temporary := mine.value]
                 && mine.value !in held && files == held[mine.value := []]
      modifies this`faults, this`history, this`dir, this`files, this`effects
      ensures Valid() && old(history) <= history
      ensures effects == [] || effects == [Published(None, mine.value, bytes)]
      ensures ok ==> effects != [] && Describes(Present(mine.value, bytes), dir, files)
      ensures quiet ==> Undisturbed(temporary, before, held, dir, files, effects)
      ensures faults >= old(faults) && (!ok && quiet ==> faults > old(faults) || DEFINITION in before || !Sized(bytes))
    {
      var i := mine.value;
      if quiet {
        TemporaryComesAndGoes(temporary, before, i);
      }
      ok := false;
      var written := WriteAll(bytes);
      var renamed := false;
      if written {
        renamed := RenameExclusively(bytes);
      }
      if renamed {
        assert quiet ==> dir == before[DEFINITION := i];
        assert effects[0] in effects;
        ok := Confirm();
      } else {
        RemoveTemporary();
        assert quiet ==> dir - {temporary} == before;
      }
    }

    /** The last checks of the file and the rename that replaces nothing. */
    method RenameExclusively(bytes: Content) returns (renamed: bool)
      requires Valid() && mine.Some? && files[mine.value] == bytes && effects == []
      requires temporary in dir && dir[temporary] == mine.value
      modifies this`faults, this`history, this`dir, this`files, this`effects
      ensures Valid() && old(history) <= history
      ensures !renamed ==> effects == [] && temporary in dir && dir[temporary] == mine.value
      ensures renamed ==> effects == [Published(None, mine.value, bytes)] && files[mine.value] == bytes
      ensures quiet ==> files == old(files) && dir == if renamed then old(dir)[DEFINITION := mine.value] - {temporary} else old(dir)
      ensures quiet && renamed ==> DEFINITION !in old(dir)
      ensures faults >= old(faults) && (!renamed && quiet ==> faults > old(faults) || DEFINITION in old(dir))
    {
      renamed := Check();
      if !renamed || DEFINITION in dir {
        return false;
      }
      effects := [Published(Bound(dir, DEFINITION), dir[temporary], files[mine.value])];
      assert effects[0] in effects;
      Change(dir[DEFINITION := dir[temporary]] - {temporary});
    }

    /** The definition name still shows the file just renamed to it. */
    method Confirm() returns (ok: bool)
      requires Valid() && mine.Some?
      modifies this`faults, this`history, this`dir, this`files
      ensures Valid() && old(history) <= history
      ensures quiet ==> dir == old(dir) && files == old(files)
      ensures files[mine.value] == old(files)[mine.value]
      ensures ok ==> Describes(Present(mine.value, files[mine.value]), dir, files)
      ensures faults >= old(faults) && (!ok && quiet ==>
                faults > old(faults) || DEFINITION !in dir || dir[DEFINITION] != mine.value || !Readable(mine.value, files))
    {
      var synced := Check();
      var found := Inspect();
      return synced && found.Some? && found.value == Present(mine.value, files[mine.value]);
    }

    /** The dispatch of one run, after its request was read and its parent
        directory opened. */
    method Perform(op: Operation, expected: Definition) returns (reply: Reply, ghost sight: Option<Sight>)
      requires Valid() && mine == None && effects == [] && answers == []
      modifies this`faults, this`history, this`dir, this`files, this`mine, this`effects, this`answers
      ensures Valid() && old(history) <= history
      // at most one change, and only one the operation asked for
      ensures effects == [] || Performed(op, effects)
      ensures reply.FailedBeforeEffect? ==> effects == []
      ensures reply.Succeeded? ==> Performed(op, effects) && Describes(reply.definition, dir, files)
      // what was seen is what the directory held and what launchctl answered
      ensures sight.Some? ==>
                && sight.value.definition == expected
                && Held(history[|old(history)| - 1..], expected) && Acceptable(expected)
                && |answers| > 0 && answers[0].exit in {0, 113}
                && (sight.value.registered <==> answers[0].exit == 0)
                && (sight.value.running <==> answers[0].exit == 0 && Occurs(NEEDLE, answers[0].output))
      // only after what was seen matched the request and permits the operation
      ensures effects != [] || reply.Succeeded? ==> sight.Some? && Permits(op, sight.value)
      ensures reply.FailedBeforeEffect? ==>
                && sight.Some? && !Permits(op, sight.value) && reply.definition == expected
                && Tells(answers[0], expected.Present?, reply.state, sight.value.registered)
      ensures effects == [Launched(Kickstart)] ==> sight.Some? && sight.value.registered
      ensures effects == [Launched(Bootstrap)] ==> sight.Some? && !sight.value.registered
      ensures reply.Succeeded? ==> Reported(op, expected.Present?, answers, reply.state) && Acceptable(reply.definition)
      // a publication displaces nothing and binds a file of this run
      ensures forall e | e in effects && e.Published? :: e.displaced == None && mine == Some(e.inode)
      ensures quiet ==> Undisturbed(temporary, old(dir), old(files), dir, files, effects)
      // alone, a run whose calls succeed always answers
      ensures quiet && faults == old(faults) && Sensible(answers)
              && temporary !in old(dir) && Describes(expected, old(dir), old(files))
              && (expected.Present? ==> Sized(expected.bytes)) && (op.Install? ==> Sized(op.bytes)) ==>
                !reply.NoReply?
    {
      sight := None;
      var status := See(expected);
      if status.None? {
        return NoReply, sight;
      }
      var state, registered := status.value.0, status.value.1;
      sight := Some(Sight(expected, registered, state == Running));
      ghost var seen := history;
      reply := Act(op, expected, state, registered);
      HeldStays(seen, history, |old(history)| - 1, expected);
    }

    /** What the run looks at first: the definition must be as the request expects,
        and launchctl must know the service or know that it is absent. */
    method See(expected: Definition) returns (r: Option<(State, bool)>)
      requires Valid() && mine == None && effects == [] && answers == []
      modifies this`faults, this`history, this`dir, this`files, this`effects, this`answers
      ensures Valid() && old(history) <= history && effects == []
      ensures quiet ==> dir == old(dir) && files == old(files)
      ensures faults >= old(faults)
      ensures r.Some? ==>
                && Held(history[|old(history)| - 1..], expected) && Acceptable(expected)
                && |answers| == 1 && Tells(answers[0], expected.Present?, r.value.0, r.value.1)
      ensures r.None? && quiet ==>
                || faults > old(faults) || !Sensible(answers)
                || !Describes(expected, dir, files) || (expected.Present? && !Sized(expected.bytes))
    {
      var same := Look(expected);
      if !same {
        return None;
      }
      ghost var seen := history;
      r := ServiceStatus(expected.Present?);
      HeldStays(seen, history, |old(history)| - 1, expected);
    }

    method Look(expected: Definition) returns (same: bool)
      requires Valid() && mine == None
      modifies this`faults, this`history, this`dir, this`files
      ensures Valid() && old(history) <= history
      ensures quiet ==> dir == old(dir) && files == old(files)
      ensures faults >= old(faults)
      ensures same ==> Held(history[|old(history)| - 1..], expected) && Acceptable(expected)
      ensures !same && quiet ==>
                faults > old(faults) || !Describes(expected, dir, files) || (expected.Present? && !Sized(expected.bytes))
    {
      var observed := Inspect();
      ghost var seen := history;
      var checked := Check();
      if observed.None? || observed.value != expected || !checked {
        return false;
      }
      HeldAt(seen, |old(history)| - 1, |seen| - 1, expected);
      HeldStays(seen, history, |old(history)| - 1, expected);
      return true;
    }

    method Act(op: Operation, expected: Definition, state: State, registered: bool) returns (reply: Reply)
      requires Valid() && mine == None && effects == []
      requires |answers| == 1 && Tells(answers[0], expected.Present?, state, registered)
      modifies this`faults, this`history, this`dir, this`files, this`mine, this`effects, this`answers
      ensures Valid() && old(history) <= history && old(answers) <= answers
      ensures effects == [] || Performed(op, effects)
      ensures reply.FailedBeforeEffect? ==> effects == [] && reply == FailedBeforeEffect(state, expected)
      ensures reply.Succeeded? ==> Performed(op, effects) && Describes(reply.definition, dir, files)
      ensures reply.Succeeded? ==> Acceptable(reply.definition)
      ensures reply.Succeeded? ==> Reported(op, expected.Present?, answers, reply.state)
      ensures var permitted := Permits(op, Sight(expected, registered, state == Running));
              (effects != [] || reply.Succeeded? ==> permitted) && (reply.FailedBeforeEffect? ==> !permitted)
      ensures effects == [Launched(Kickstart)] ==> registered
      ensures effects == [Launched(Bootstrap)] ==> !registered
      ensures forall e | e in effects && e.Published? :: e.displaced == None && mine == Some(e.inode)
      ensures quiet ==> Undisturbed(temporary, old(dir), old(files), dir, files, effects)
      ensures faults >= old(faults)
      ensures quiet && faults == old(faults) && Sensible(answers)
              && temporary !in old(dir) && Describes(expected, old(dir), old(files))
              && (expected.Present? ==> Sized(expected.bytes)) && (op.Install? ==> Sized(op.bytes)) ==>
                !reply.NoReply?
    {
      var shown := state;
      if op.Install? {
        if expected.Present? || registered {
          return FailedBeforeEffect(state, expected);
        }
        var published := Publish(op.bytes);
        if !published {
          return NoReply;
        }
        shown := Stopped;
      } else if op.Start? || op.Stop? {
        if if op.Start? then expected.Absent? || state == Running else !registered {
          return FailedBeforeEffect(state, expected);
        }
        var again := Switch(op, expected.Present?, registered);
        if again.None? {
          return NoReply;
        }
        shown := again.value;
      }
      var found := Report();
      return if found.None? then NoReply else Succeeded(shown, found.value);
    }

    /** START and STOP: the change, and the state read again after it. */
    method Switch(op: Operation, present: bool, registered: bool) returns (r: Option<State>)
      requires Valid() && (op.Start? || op.Stop?) && effects == [] && |answers| == 1
      modifies this`faults, this`history, this`dir, this`files, this`effects, this`answers
      ensures Valid() && old(history) <= history && old(answers) <= answers
      ensures quiet ==> dir == old(dir) && files == old(files)
      ensures var verb := if op.Stop? then Bootout else if registered then Kickstart else Bootstrap;
              effects == [Launched(verb)] || (r.None? && effects == [])
      ensures faults >= old(faults)
      ensures r.Some? ==> Reported(op, present, answers, r.value)
      ensures r.None? ==> faults > old(faults) || !Sensible(answers)
    {
      var done := Transition(op, registered);
      if !done {
        return None;
      }
      var again := ServiceStatus(op.Start? || present);
      if again.None? {
        return None;
      }
      assert Tells(answers[2], op.Start? || present, again.value.0, again.value.1);
      return Some(again.value.0);
    }

    /** The parent directory and the definition are looked at once more. */
    method Report() returns (r: Option<Definition>)
      requires Valid()
      modifies this`faults, this`history, this`dir, this`files
      ensures Valid() && old(history) <= history
      ensures quiet ==> dir == old(dir) && files == old(files)
      ensures r.Some? ==> Describes(r.value, dir, files) && Acceptable(r.value)
      ensures faults >= old(faults) && (r.None? && quiet ==> faults > old(faults) || (DEFINITION in dir && !Readable(dir[DEFINITION], files)))
    {
      var active := Check();
      r := Inspect();
      if !active {
        r := None;
      }
    }
  }
}
