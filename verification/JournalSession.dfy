/**
The installation-journal session as the program runs it: buffers filled by short
reads, a table of created files searched in order, and one command loop.
*/
module JournalSession {
  import opened Bytes
  import opened Wrappers
  import opened JournalNames
  import opened JournalList
  import opened JournalSpec
  import opened JournalFrames
  import opened JournalProofs

  /** Standard input. The kernel may deliver any positive part of what is asked
      for. At any look at the clock the deadline may have passed, and any poll or
      read may fail: either interrupts the session. */
  class Input {
    const data: seq<byte>
    var position: nat
    var interrupted: bool

    ghost predicate Valid()
      reads this
    {
      position <= |data|
    }

    constructor (data: seq<byte>)
      ensures Valid() && this.data == data && position == 0 && !interrupted
    {
      this.data, position, interrupted := data, 0, false;
    }

    /** read_exact fills the whole buffer with the next bytes of the stream, or
        fails; uninterrupted, it fails only when the stream is too short. */
    method ReadExact(buffer: array<byte>) returns (ok: bool)
      requires Valid()
      modifies buffer, this`position, this`interrupted
      ensures Valid()
      ensures old(interrupted) ==> interrupted
      ensures ok ==> !interrupted && position == old(position) + buffer.Length
      ensures ok ==> buffer[..] == data[old(position)..position]
      ensures !interrupted ==> (ok <==> old(position) + buffer.Length <= |data|)
    {
      var offset, start := 0, position;
      if interrupted {
        return false;
      }
      while offset < buffer.Length
        invariant 0 <= offset <= buffer.Length
        invariant position == start + offset <= |data|
        invariant !interrupted
        invariant forall i | 0 <= i < offset :: buffer[i] == data[start + i]
      {
        var fault: bool := *;
        if fault {
          interrupted := true;
          return false;
        }
        var available := |data| - position;
        if available == 0 {
          return false;
        }
        var wanted := buffer.Length - offset;
        var received :| 1 <= received <= wanted && received <= available;
        forall i | 0 <= i < received {
          buffer[offset + i] := data[position + i];
        }
        offset, position := offset + received, position + received;
      }
      var late: bool := *;
      interrupted := late;
      return !late;
    }
  }

  class Journal {
    const session: Session
    var dir: map<Name, Ident>
    var inodes: map<Ident, Inode>
    var created: seq<CreatedFile>
    var nextOrdinal: nat
    ghost var accepted: seq<Exchange>

    ghost predicate Valid()
      reads this
    {
      ValidId(session.id) && nextOrdinal == Ordinal(|accepted| + 1)
    }

    ghost function View(): State
      reads this
    {
      State(dir, inodes, created, accepted)
    }

    /** What an outcome of the specification looks like from outside. */
    ghost predicate Shows(o: Outcome, reply: Option<Reply>)
      reads this
    {
      View() == o.s && reply == if o.Replied? then Some(o.reply) else None
    }

    constructor (session: Session, dir: map<Name, Ident>, inodes: map<Ident, Inode>)
      requires ValidId(session.id)
      ensures Valid() && this.session == session && View() == State(dir, inodes, [], [])
    {
      this.session, this.dir, this.inodes := session, dir, inodes;
      created, nextOrdinal, accepted := [], 1, [];
    }

    method Find(name: Name, id: Ident) returns (slot: Option<nat>)
      ensures slot == FindCreated(created, name, id)
    {
      for i := 0 to |created|
        invariant forall j | 0 <= j < i :: !(created[j].name == name && created[j].id == id)
      {
        if created[i].name == name && created[i].id == id {
          return Some(i);
        }
      }
      return None;
    }

    /** A reply takes the current ordinal and advances it. */
    method Answer(c: Command, status: nat, payload: Payload) returns (reply: Option<Reply>)
      requires Valid()
      modifies this`nextOrdinal, this`accepted
      ensures Valid() && Shows(Accept(old(View()), c, status, payload), reply)
    {
      reply := Some(Reply(status, nextOrdinal, payload));
      accepted := accepted + [Exchange(c, reply.value)];
      nextOrdinal := (nextOrdinal + 1) % 4294967296;
    }

    method CreateFile(c: Command, k: Kernel) returns (reply: Option<Reply>)
      requires Valid() && c.Create?
      modifies this
      ensures Valid() && Shows(DoCreate(old(View()), c, k), reply)
    {
      if |created| >= MAX_CREATED || !Removable(c.name) || k.fault == 1 {
        return None;
      }
      if c.name in dir {
        reply := Answer(c, 1, NoPayload);
        return;
      }
      if k.number in dir.Values || exists i | 0 <= i < |created| :: created[i].id == k.number {
        return None;
      }
      dir, inodes := dir[c.name := k.number], inodes[k.number := Inode(true, [], false)];
      if k.fault == 2 {
        return None;
      }
      created := created + [CreatedFile(c.name, k.number, Fresh)];
      if k.fault == 3 {
        return None;
      }
      reply := Answer(c, 0, Identity(k.number));
    }

    /** pwrite in pieces of any size up to `limit`; the file then holds that much. */
    method WritePieces(id: Ident, payload: seq<byte>, limit: nat)
      requires limit <= |payload|
      modifies this`inodes
      ensures inodes == old(inodes)[id := Inode(true, payload[..limit], false)]
    {
      var offset := 0;
      inodes := inodes[id := Inode(true, [], false)];
      while offset < limit
        invariant 0 <= offset <= limit
        invariant inodes == old(inodes)[id := Inode(true, payload[..offset], false)]
      {
        var put :| 1 <= put <= limit - offset;
        offset := offset + put;
        inodes := inodes[id := Inode(true, payload[..offset], false)];
      }
    }

    method WriteFile(c: Command, k: Kernel) returns (reply: Option<Reply>)
      requires Valid() && c.Write?
      modifies this
      ensures Valid() && Shows(DoWrite(old(View()), c, k), reply)
    {
      var slot := Find(c.name, c.id);
      if slot.None? || !created[slot.value].phase.Fresh? || c.maximum != MaximumFor(c.name)
         || |c.payload| < 1 || |c.payload| > c.maximum || k.fault == 1 {
        return None;
      }
      if k.fault == 2 {
        WritePieces(c.id, c.payload, if k.partial < |c.payload| then k.partial else |c.payload|);
        return None;
      }
      WritePieces(c.id, c.payload, |c.payload|);
      assert c.payload[..|c.payload|] == c.payload;
      if k.fault == 3 || c.name !in dir || dir[c.name] != c.id {
        return None;
      }
      created := created[slot.value := created[slot.value].(phase := Written)];
      if k.fault == 4 {
        return None;
      }
      reply := Answer(c, 0, NoPayload);
    }

    method SyncCreated(c: Command, k: Kernel) returns (reply: Option<Reply>)
      requires Valid() && c.SyncFile?
      modifies this
      ensures Valid() && Shows(DoSyncFile(old(View()), c, k), reply)
    {
      var slot := Find(c.name, c.id);
      if slot.None? || !created[slot.value].phase.Written? || k.fault == 1 || c.id !in inodes {
        return None;
      }
      inodes := inodes[c.id := inodes[c.id].(durable := true)];
      if k.fault == 2 || c.name !in dir || dir[c.name] != c.id {
        return None;
      }
      created := created[slot.value := created[slot.value].(phase := Synced)];
      if k.fault == 3 {
        return None;
      }
      reply := Answer(c, 0, NoPayload);
    }

    method LinkFile(c: Command, k: Kernel) returns (reply: Option<Reply>)
      requires Valid() && c.Link?
      modifies this
      ensures Valid() && Shows(DoLink(old(View()), c, k), reply)
    {
      var slot := Find(c.name, c.id);
      if !TemporaryName(c.name) || !TargetName(c.target) || slot.None? || !created[slot.value].phase.Synced?
         || c.name !in dir || dir[c.name] != c.id || k.fault == 1 {
        return None;
      }
      if c.target in dir {
        reply := Answer(c, 1, NoPayload);
        return;
      }
      dir := dir[c.target := c.id];
      if k.fault == 2 {
        return None;
      }
      reply := Answer(c, 0, NoPayload);
    }

    method UnlinkName(c: Command, k: Kernel) returns (reply: Option<Reply>)
      requires Valid() && c.Unlink?
      modifies this
      ensures Valid() && Shows(DoUnlink(old(View()), c, k), reply)
    {
      if !Removable(c.name) || k.fault == 1 {
        return None;
      }
      if c.name !in dir {
        if c.allowMissing {
          reply := Answer(c, 0, NoPayload);
        } else {
          reply := None;
        }
        return;
      }
      if c.id !in inodes || !inodes[c.id].regular || dir[c.name] != c.id {
        return None;
      }
      dir := dir - {c.name};
      if k.fault == 2 {
        return None;
      }
      reply := Answer(c, 0, NoPayload);
    }

    method Look(c: Command, k: Kernel) returns (reply: Option<Reply>)
      requires Valid()
      requires c.List? || c.Stat? || c.Read? || c.SyncDirectory? || c.VerifyRoot? || c.Close?
      modifies this`nextOrdinal, this`accepted
      ensures Valid() && Shows(Observe(old(View()), c, k), reply)
    {
      if k.fault > 0 {
        return None;
      }
      if c.List? {
        var output := CommandList(k.entries);
        if output.None? || !Enumerates(k.entries, dir) {
          return None;
        }
        reply := Answer(c, 0, Names(output.value));
      } else if c.Stat? {
        var found := c.name in dir && dir[c.name] in inodes;
        reply := Answer(c, 0, Attributes(if found then Some(inodes[dir[c.name]]) else None));
      } else if c.Read? {
        if c.maximum != MaximumFor(c.name) || c.name !in dir || dir[c.name] !in inodes {
          return None;
        }
        var node := inodes[dir[c.name]];
        if !node.regular || |node.bytes| < 1 || |node.bytes| > c.maximum {
          return None;
        }
        var bytes := ReadPieces(node.bytes);
        reply := Answer(c, 0, Contents(node.(bytes := bytes)));
      } else {
        reply := Answer(c, 0, NoPayload);
      }
    }

    /** pread in pieces of any size, until the whole length is delivered. */
    method ReadPieces(file: seq<byte>) returns (output: seq<byte>)
      ensures output == file
    {
      output := [];
      while |output| < |file|
        invariant output <= file
      {
        var got :| 1 <= got <= |file| - |output|;
        assert file[..|output| + got] == output + file[|output|..|output| + got];
        output := output + file[|output|..|output| + got];
      }
    }

    method ValidNames(c: Command) returns (ok: bool)
      requires Valid()
      ensures ok <==> NamesValid(session.id, c)
    {
      match c
      case List | SyncDirectory | VerifyRoot | Close => return true;
      case Link(name, target, _) =>
        ok := JournalNameValid(session.id, name);
        if ok {
          ok := JournalNameValid(session.id, target);
        }
      case _ => ok := JournalNameValid(session.id, c.name);
    }

    /** handle_command after its input is complete. */
    method HandleCommand(c: Command, k: Kernel) returns (reply: Option<Reply>)
      requires Valid()
      modifies this
      ensures Valid() && Shows(Handle(session, old(View()), c, k), reply)
    {
      var names := ValidNames(c);
      if !Permitted(session.op, c) || !names {
        return None;
      }
      match c
      case Create(_) => reply := CreateFile(c, k);
      case Write(_, _, _, _) => reply := WriteFile(c, k);
      case SyncFile(_, _) => reply := SyncCreated(c, k);
      case Link(_, _, _) => reply := LinkFile(c, k);
      case Unlink(_, _, _) => reply := UnlinkName(c, k);
      case _ => reply := Look(c, k);
    }
  
    /** The variable part of a command: name, target and payload, read in turn. */
    method ReadBody(input: Input, h: Header) returns (body: Option<seq<byte>>)
      requires input.Valid() && !input.interrupted
      modifies input`position, input`interrupted
      ensures input.Valid()
      ensures !input.interrupted ==> (body.Some? <==> old(input.position) + BodyLength(h) <= |input.data|)
      ensures body.Some? ==> !input.interrupted && input.position == old(input.position) + BodyLength(h)
      ensures body.Some? ==> body.value == input.data[old(input.position)..input.position]
    {
      var name := new byte[h.nameLength];
      var target := new byte[h.targetLength];
      var payload := new byte[h.payloadLength];
      var ok := input.ReadExact(name);
      if !ok { return None; }
      ok := input.ReadExact(target);
      if !ok { return None; }
      ok := input.ReadExact(payload);
      if !ok { return None; }
      return Some(name[..] + target[..] + payload[..]);
    }

    /** The header of the next command, if the stream still holds one: parsing the
        stream is then parsing a body after it. */
    method ReadHeader(input: Input) returns (got: bool, h: Option<Header>)
      requires input.Valid() && !input.interrupted
      modifies input`position, input`interrupted
      ensures input.Valid()
      ensures !input.interrupted ==> (got <==> old(input.position) + HEADER_BYTES <= |input.data|)
      ensures got ==> !input.interrupted && input.position == old(input.position) + HEADER_BYTES
      ensures got ==>
                ParseCommand(session.op, nextOrdinal, input.data[old(input.position)..]) ==
                ParseBody(h, session.op, nextOrdinal, input.data[input.position..])
    {
      var header := new byte[HEADER_BYTES];
      got := input.ReadExact(header);
      h := None;
      if got {
        h := DecodeFields(header[..]);
        ParseAt(session.op, nextOrdinal, input.data, old(input.position), h);
      }
    }

    /** One command from the stream, or none if the session must end. */
    method ReadCommand(input: Input) returns (c: Option<Command>)
      requires Valid() && input.Valid() && !input.interrupted
      modifies input`position, input`interrupted
      ensures input.Valid()
      ensures var parsed := ParseCommand(session.op, nextOrdinal, input.data[old(input.position)..]);
              && (!input.interrupted ==> (c.Some? <==> parsed.Some?))
              && (c.Some? ==> !input.interrupted && parsed.Some? && c.value == parsed.value.0
                              && input.position == old(input.position) + parsed.value.1)
    {
      var got, h := ReadHeader(input);
      if !got {
        return None;
      }
      c := ReadRest(input, h);
    }

    /** The rest of a command whose header was read. */
    method ReadRest(input: Input, h: Option<Header>) returns (c: Option<Command>)
      requires Valid() && input.Valid() && !input.interrupted
      modifies input`position, input`interrupted
      ensures input.Valid()
      ensures var parsed := ParseBody(h, session.op, nextOrdinal, input.data[old(input.position)..]);
              && (!input.interrupted ==> (c.Some? <==> parsed.Some?))
              && (c.Some? ==> !input.interrupted && parsed.Some? && c.value == parsed.value.0
                              && input.position == old(input.position) - HEADER_BYTES + parsed.value.1)
    {
      if h.None? || !HeaderAllowed(h.value, session.op, nextOrdinal) {
        return None;
      }
      var body := ReadBody(input, h.value);
      if body.None? {
        return None;
      }
      ParseBodyAt(session.op, nextOrdinal, input.data, old(input.position), h.value);
      return Some(BodyCommand(h.value, body.value));
    }

    /** One turn of the session loop: read a command and handle it. An interruption
        comes before the command is handled, and leaves everything as it was. */
    method Turn(input: Input, k: Kernel) returns (reply: Option<Reply>, last: bool)
      requires Valid() && input.Valid() && !input.interrupted
      modifies this, input`position, input`interrupted
      ensures Valid() && input.Valid()
      ensures input.interrupted ==> reply.None? && View() == old(View())
      ensures reply.Some? ==>
                && input.position > old(input.position)
                && Taken(session, old(View()), input.data[old(input.position)..], k,
                         Replied(View(), reply.value), last, input.data[input.position..])
      ensures !input.interrupted && reply.None? ==>
                Stuck(session, old(View()), input.data[old(input.position)..], k, View())
    {
      ghost var stream := input.data[input.position..];
      var c := ReadCommand(input);
      if c.None? {
        return None, false;
      }
      assert stream[ParseCommand(session.op, nextOrdinal, stream).value.1..] == input.data[input.position..];
      last := c.value.Close?;
      reply := HandleCommand(c.value, k);
    }

    /** One turn, seen from the whole session: `done` are the commands answered so
        far. It goes on from one more, or the session is over. */
    method Round(input: Input, kernel: nat -> Kernel, replies: seq<Reply>, ghost s0: State,
                 ghost steps: seq<(Command, Kernel)>, ghost done: seq<(Command, Kernel)>)
      returns (more: seq<Reply>, over: bool, closed: bool, ghost next: seq<(Command, Kernel)>)
      requires Valid() && input.Valid() && !input.interrupted
      requires Reached(session, s0, steps, kernel, done, View(), replies, input.data[input.position..])
      modifies this, input`position, input`interrupted
      ensures Valid() && input.Valid()
      ensures !over ==>
                && !input.interrupted && !closed && input.position > old(input.position)
                && Reached(session, s0, steps, kernel, next, View(), more, input.data[input.position..])
      ensures over ==> Done(session, s0, steps, input.interrupted, View(), more, closed)
    {
      ghost var s, bytes := View(), input.data[input.position..];
      var reply, last := Turn(input, kernel(|replies|));
      next := done;
      if reply.None? {
        if input.interrupted {
          CutShort(session, s0, steps, kernel, done, s, replies, bytes);
        } else {
          Finish(session, s0, steps, kernel, done, s, replies, bytes, View());
        }
        return replies, true, false, next;
      }
      next := Advance(session, s0, steps, kernel, done, s, replies, bytes,
                      Replied(View(), reply.value), last, input.data[input.position..]);
      return replies + [reply.value], last, last, next;
    }

    /** The session loop: it runs the commands of the stream up to some point, all
        of them when uninterrupted, and exactly those it has answered otherwise. */
    method Loop(input: Input, kernel: nat -> Kernel, ghost steps: seq<(Command, Kernel)>)
      returns (replies: seq<Reply>, closed: bool)
      requires Valid() && input.Valid() && !input.interrupted
      requires Reached(session, View(), steps, kernel, [], View(), [], input.data[input.position..])
      modifies this, input`position, input`interrupted
      ensures Valid() && input.Valid()
      ensures Done(session, old(View()), steps, input.interrupted, View(), replies, closed)
    {
      replies, closed := [], false;
      ghost var done: seq<(Command, Kernel)> := [];
      var over := false;
      while !over
        invariant Valid() && input.Valid()
        invariant !over ==>
                    && !input.interrupted
                    && Reached(session, old(View()), steps, kernel, done, View(), replies, input.data[input.position..])
        invariant over ==> Done(session, old(View()), steps, input.interrupted, View(), replies, closed)
        decreases !over, |input.data| - input.position
      {
        replies, over, closed, done := Round(input, kernel, replies, old(View()), steps, done);
      }
    }

    /** A whole session, for every stream of bytes and every way the kernel splits it
        into short reads. Uninterrupted, it gives the replies and the directory that
        parsing the whole stream at once gives; interrupted, those of the commands it
        has answered. In any case every published name is as it was. */
    method RunSession(input: Input, kernel: nat -> Kernel) returns (replies: seq<Reply>, closed: bool)
      requires Valid() && input.Valid() && !input.interrupted
      modifies this, input`position, input`interrupted
      ensures Valid() && input.Valid()
      ensures var r := Serve(session, old(View()), input.data[old(input.position)..], kernel, 0);
              !input.interrupted ==> View() == r.s && replies == r.replies && closed == r.ending.Closed?
      ensures var steps := StepsIn(session, old(View()), input.data[old(input.position)..], kernel, 0);
              Done(session, old(View()), steps, input.interrupted, View(), replies, closed)
      ensures Initial(old(View())) ==> Keeps(old(View()), View())
    {
      ghost var s0, stream := View(), input.data[input.position..];
      replies, closed := Loop(input, kernel, StepsIn(session, s0, stream, kernel, 0));
      StreamIsRun(session, s0, stream, kernel, 0);
      if Initial(s0) {
        DoneKeeps(session, s0, StepsIn(session, s0, stream, kernel, 0), input.interrupted, View(), replies, closed);
      }
    }
  }

  /** What a session over `steps` leaves: the state and the replies of running them
      all, or, interrupted, exactly those replied to. */
  ghost predicate Done(session: Session, s0: State, steps: seq<(Command, Kernel)>, interrupted: bool,
                       s: State, replies: seq<Reply>, closed: bool)
  {
    && |replies| <= |steps|
    && var r := Run(session, s0, if interrupted then steps[..|replies|] else steps);
    s == r.s && replies == r.replies && closed == r.ending.Closed?
  }

  lemma DoneKeeps(session: Session, s0: State, steps: seq<(Command, Kernel)>, interrupted: bool,
                  s: State, replies: seq<Reply>, closed: bool)
    requires Initial(s0) && Done(session, s0, steps, interrupted, s, replies, closed)
    ensures Keeps(s0, s)
  {
    RunIsSound(session, s0, if interrupted then steps[..|replies|] else steps);
  }

  /** The reserved bytes and the fields of a header, decoded in place. */
  method DecodeFields(b: seq<byte>) returns (h: Option<Header>)
    requires |b| == HEADER_BYTES
    ensures h == DecodeHeader(b)
  {
    if b[..4] != MAGIC || b[10..12] != [0, 0] || b[40..44] != [0, 0, 0, 0] {
      return None;
    }
    var nameLength := DecodeBigEndian(b[6..8]);
    var targetLength := DecodeBigEndian(b[8..10]);
    var ordinal := DecodeBigEndian(b[12..16]);
    var payloadLength := DecodeBigEndian(b[16..20]);
    var device := DecodeBigEndian(b[20..28]);
    var inode := DecodeBigEndian(b[28..36]);
    var maximum := DecodeBigEndian(b[36..40]);
    return Some(Header(b[4], b[5], nameLength, targetLength, ordinal, payloadLength, device, inode, maximum));
  }

  /** Parsing at a position of the input: the header there, then the body. */
  lemma ParseAt(op: Operation, ordinal: nat, data: seq<byte>, position: nat, h: Option<Header>)
    requires position + HEADER_BYTES <= |data| && h == DecodeHeader(data[position..position + HEADER_BYTES])
    ensures ParseCommand(op, ordinal, data[position..]) == ParseBody(h, op, ordinal, data[position + HEADER_BYTES..])
  {
    var stream, next := data[position..], position + HEADER_BYTES;
    assert stream[..HEADER_BYTES] == data[position..next];
    assert stream[HEADER_BYTES..] == data[next..];
  }

  lemma ParseBodyAt(op: Operation, ordinal: nat, data: seq<byte>, next: nat, h: Header)
    requires HeaderAllowed(h, op, ordinal) && next + BodyLength(h) <= |data|
    ensures ParseBody(Some(h), op, ordinal, data[next..])
         == Some((BodyCommand(h, data[next..next + BodyLength(h)]), HEADER_BYTES + BodyLength(h)))
  {
    assert data[next..][..BodyLength(h)] == data[next..next + BodyLength(h)];
  }

  /** `o` is what handling the first command of `bytes` gives, and `rest` is what
      follows that command. */
  ghost predicate Taken(session: Session, s: State, bytes: seq<byte>, k: Kernel, o: Outcome, last: bool, rest: seq<byte>) {
    var parsed := ParseCommand(session.op, Ordinal(|s.accepted| + 1), bytes);
    && parsed.Some? && o == Handle(session, s, parsed.value.0, k)
    && last == parsed.value.0.Close? && rest == bytes[parsed.value.1..]
  }

  /** The next command cannot be read, or handling it fails and leaves `s'`. */
  ghost predicate Stuck(session: Session, s: State, bytes: seq<byte>, k: Kernel, s': State) {
    var parsed := ParseCommand(session.op, Ordinal(|s.accepted| + 1), bytes);
    if parsed.None? then s' == s else Handle(session, s, parsed.value.0, k) == Failed(s')
  }

  /** A run that is still open grows by the outcome of one more command. */
  lemma RunGrows(session: Session, s0: State, steps: seq<(Command, Kernel)>, s: State, replies: seq<Reply>,
                 x: (Command, Kernel), o: Outcome)
    requires Run(session, s0, steps) == Result(s, replies, Open) && o == Handle(session, s, x.0, x.1)
    ensures Run(session, s0, steps + [x])
         == if o.Replied? then Result(o.s, replies + [o.reply], if x.0.Close? then Closed else Open)
            else Result(o.s, replies, Broken)
  {
    RunConcat(session, s0, steps, [x]);
    RunOne(session, s, x, o);
    assert replies + [] == replies;
  }

  lemma RunOne(session: Session, s: State, x: (Command, Kernel), o: Outcome)
    requires o == Handle(session, s, x.0, x.1)
    ensures Run(session, s, [x]) == Chain(o, x.0.Close?, Result(o.s, [], Open))
  {
    assert [x][1..] == [];
    assert Run(session, o.s, []) == Result(o.s, [], Open);
  }

  /** A session over `steps` has answered `done` and stands at `bytes`. */
  ghost predicate Reached(session: Session, s0: State, steps: seq<(Command, Kernel)>, kernel: nat -> Kernel,
                          done: seq<(Command, Kernel)>, s: State, replies: seq<Reply>, bytes: seq<byte>)
  {
    && |done| == |replies|
    && Run(session, s0, done) == Result(s, replies, Open)
    && steps == done + StepsIn(session, s, bytes, kernel, |done|)
  }

  /** One more command answered, which is the last one or not. */
  lemma Advance(session: Session, s0: State, steps: seq<(Command, Kernel)>, kernel: nat -> Kernel,
                done: seq<(Command, Kernel)>, s: State, replies: seq<Reply>, bytes: seq<byte>,
                o: Outcome, last: bool, rest: seq<byte>)
    returns (next: seq<(Command, Kernel)>)
    requires Reached(session, s0, steps, kernel, done, s, replies, bytes)
    requires o.Replied? && Taken(session, s, bytes, kernel(|done|), o, last, rest)
    ensures !last ==> Reached(session, s0, steps, kernel, next, o.s, replies + [o.reply], rest)
    ensures last ==> Done(session, s0, steps, false, o.s, replies + [o.reply], true)
  {
    next := Grow(session, s0, s, done, replies, bytes, kernel, o, last, rest);
  }

  lemma Grow(session: Session, s0: State, s: State, done: seq<(Command, Kernel)>, replies: seq<Reply>,
             bytes: seq<byte>, kernel: nat -> Kernel, o: Outcome, last: bool, rest: seq<byte>)
    returns (next: seq<(Command, Kernel)>)
    requires Run(session, s0, done) == Result(s, replies, Open)
    requires o.Replied? && Taken(session, s, bytes, kernel(|done|), o, last, rest)
    ensures |next| == |done| + 1
    ensures Run(session, s0, next) == Result(o.s, replies + [o.reply], if last then Closed else Open)
    ensures done + StepsIn(session, s, bytes, kernel, |done|)
         == if last then next else next + StepsIn(session, o.s, rest, kernel, |next|)
  {
    var x := (ParseCommand(session.op, Ordinal(|s.accepted| + 1), bytes).value.0, kernel(|done|));
    next := done + [x];
    RunGrows(session, s0, done, s, replies, x, o);
    AdvanceStream(session, s, bytes, kernel, |done|, o, last, rest, x);
    Regroup(done, x, if last then [] else StepsIn(session, o.s, rest, kernel, |done| + 1));
  }

  lemma Regroup(done: seq<(Command, Kernel)>, x: (Command, Kernel), rest: seq<(Command, Kernel)>)
    ensures done + ([x] + rest) == done + [x] + rest && done + [x] + [] == done + [x]
  {
  }

  lemma AdvanceStream(session: Session, s: State, bytes: seq<byte>, kernel: nat -> Kernel, n: nat,
                      o: Outcome, last: bool, rest: seq<byte>, x: (Command, Kernel))
    requires o.Replied? && Taken(session, s, bytes, kernel(n), o, last, rest)
    requires x == (ParseCommand(session.op, Ordinal(|s.accepted| + 1), bytes).value.0, kernel(n))
    ensures StepsIn(session, s, bytes, kernel, n) == [x] + if last then [] else StepsIn(session, o.s, rest, kernel, n + 1)
  {
  }

  /** No further command answered. */
  lemma Finish(session: Session, s0: State, steps: seq<(Command, Kernel)>, kernel: nat -> Kernel,
               done: seq<(Command, Kernel)>, s: State, replies: seq<Reply>, bytes: seq<byte>, s': State)
    requires Reached(session, s0, steps, kernel, done, s, replies, bytes)
    requires Stuck(session, s, bytes, kernel(|done|), s')
    ensures Done(session, s0, steps, false, s', replies, false)
  {
    var parsed := ParseCommand(session.op, Ordinal(|s.accepted| + 1), bytes);
    if parsed.Some? {
      var x := (parsed.value.0, kernel(|done|));
      assert StepsIn(session, s, bytes, kernel, |done|) == [x];
      RunGrows(session, s0, done, s, replies, x, Failed(s'));
    } else {
      assert steps == done;
    }
  }

  lemma CutShort(session: Session, s0: State, steps: seq<(Command, Kernel)>, kernel: nat -> Kernel,
                 done: seq<(Command, Kernel)>, s: State, replies: seq<Reply>, bytes: seq<byte>)
    requires Reached(session, s0, steps, kernel, done, s, replies, bytes)
    ensures Done(session, s0, steps, true, s, replies, false)
  {
    assert steps[..|replies|] == done;
  }
}
