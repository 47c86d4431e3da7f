/**
The byte stream of an installation-journal session: 44-byte command headers
followed by a name, a target and a payload.
*/
module JournalFrames {
  import opened Bytes
  import opened Wrappers
  import opened JournalNames
  import opened JournalSpec

  const HEADER_BYTES := 44
  const SAFE_INTEGER := 9007199254740991
  const MAGIC: seq<byte> := Ascii("ACRC")

  datatype Header = Header(
    code: nat, flags: nat, nameLength: nat, targetLength: nat,
    ordinal: nat, payloadLength: nat, device: nat, inode: nat, maximum: nat)

  function EncodeHeader(h: Header): (r: seq<byte>)
    requires h.code < 256 && h.flags < 256
    ensures |r| == HEADER_BYTES
  {
    MAGIC + [h.code, h.flags] + Encode(2, h.nameLength) + Encode(2, h.targetLength) + [0, 0]
    + Encode(4, h.ordinal) + Encode(4, h.payloadLength) + Encode(8, h.device) + Encode(8, h.inode)
    + Encode(4, h.maximum) + [0, 0, 0, 0]
  }

  /** The fields of a header with the right magic and zero reserved bytes. */
  function DecodeHeader(b: seq<byte>): Option<Header>
    requires |b| == HEADER_BYTES
  {
    if b[..4] != MAGIC || b[10..12] != [0, 0] || b[40..44] != [0, 0, 0, 0] then None
    else
      Some(Header(b[4], b[5], Decode(b[6..8]), Decode(b[8..10]), Decode(b[12..16]), Decode(b[16..20]),
                  Decode(b[20..28]), Decode(b[28..36]), Decode(b[36..40])))
  }

  predicate Fits(h: Header) {
    && h.code < 256 && h.flags < 256 && h.nameLength < 65536 && h.targetLength < 65536
    && h.ordinal < 4294967296 && h.payloadLength < 4294967296
    && h.device < 18446744073709551616 && h.inode < 18446744073709551616 && h.maximum < 4294967296
  }

  lemma HeaderSlices(h: Header)
    requires h.code < 256 && h.flags < 256
    ensures var b := EncodeHeader(h);
            && b[..4] == MAGIC && b[4] == h.code && b[5] == h.flags
            && b[6..8] == Encode(2, h.nameLength) && b[8..10] == Encode(2, h.targetLength) && b[10..12] == [0, 0]
            && b[12..16] == Encode(4, h.ordinal) && b[16..20] == Encode(4, h.payloadLength)
            && b[20..28] == Encode(8, h.device) && b[28..36] == Encode(8, h.inode)
            && b[36..40] == Encode(4, h.maximum) && b[40..44] == [0, 0, 0, 0]
  {
  }

  lemma HeaderRoundTrip(h: Header)
    requires Fits(h)
    ensures DecodeHeader(EncodeHeader(h)) == Some(h)
  {
    HeaderSlices(h);
    Code16(h.nameLength);
    Code16(h.targetLength);
    Code32(h.ordinal);
    Code32(h.payloadLength);
    Code64(h.device);
    Code64(h.inode);
    Code32(h.maximum);
  }

  // ---------- from headers to commands ----------

  predicate NeedsName(code: nat) { code == 2 || code == 3 || 4 <= code <= 8 }

  predicate PermittedCode(op: Operation, code: nat) {
    if code == 1 || code == 2 || code == 3 || code == 10 || code == 11 then true
    else if op.InspectSession? then false
    else if code == 8 || code == 9 then true
    else op.AppendSession? && 4 <= code <= 7
  }

  /** Everything handle_command refuses before it reads the variable part. */
  predicate HeaderAllowed(h: Header, op: Operation, ordinal: nat) {
    && 1 <= h.code <= 11 && PermittedCode(op, h.code)
    && h.ordinal == ordinal && h.flags <= 1
    && h.payloadLength <= MAX_PLAN_BYTES && h.device <= SAFE_INTEGER && h.inode <= SAFE_INTEGER
    && h.maximum <= MAX_PLAN_BYTES
    && (h.code != 8 ==> h.flags == 0)
    && (if NeedsName(h.code) then 1 <= h.nameLength <= 255 else h.nameLength == 0)
    && (if h.code == 7 then 1 <= h.targetLength <= 255 else h.targetLength == 0)
    && (h.code != 5 ==> h.payloadLength == 0)
  }

  function BodyLength(h: Header): nat { h.nameLength + h.targetLength + h.payloadLength }

  /** st_dev is 32 bits wide: the conversion drops the higher bits of the field. */
  function IdentOf(h: Header): Ident { Ident(h.device % 4294967296, h.inode) }

  function BuildCommand(h: Header, name: seq<byte>, target: seq<byte>, payload: seq<byte>): Command
    requires 1 <= h.code <= 11
  {
    match h.code
    case 1 => List
    case 2 => Stat(name)
    case 3 => Read(name, h.maximum)
    case 4 => Create(name)
    case 5 => Write(name, IdentOf(h), payload, h.maximum)
    case 6 => SyncFile(name, IdentOf(h))
    case 7 => Link(name, target, IdentOf(h))
    case 8 => Unlink(name, IdentOf(h), h.flags == 1)
    case 9 => SyncDirectory
    case 10 => VerifyRoot
    case _ => Close
  }

  /** The codes of the commands that name a file by its identity. */
  predicate AddressedCode(code: nat) { 5 <= code <= 8 }

  /** Two headers that differ only in the device announce the same command exactly
      when the devices agree in their low 32 bits, or no identity is used at all. */
  lemma DeviceIsTruncated(h: Header, device: nat, body: seq<byte>)
    requires 1 <= h.code <= 11 && |body| == BodyLength(h)
    ensures BodyCommand(h, body) == BodyCommand(h.(device := device), body) <==>
            (AddressedCode(h.code) ==> h.device % 4294967296 == device % 4294967296)
  {
  }

  function BodyCommand(h: Header, body: seq<byte>): Command
    requires 1 <= h.code <= 11 && |body| == BodyLength(h)
  {
    BuildCommand(h, body[..h.nameLength], body[h.nameLength..h.nameLength + h.targetLength],
                 body[h.nameLength + h.targetLength..])
  }

  /** The command a decoded header announces, and its length with the header. */
  function ParseBody(h: Option<Header>, op: Operation, ordinal: nat, rest: seq<byte>): (r: Option<(Command, nat)>)
    ensures r.Some? ==> HEADER_BYTES <= r.value.1 <= HEADER_BYTES + |rest|
  {
    if h.None? || !HeaderAllowed(h.value, op, ordinal) || |rest| < BodyLength(h.value) then None
    else Some((BodyCommand(h.value, rest[..BodyLength(h.value)]), HEADER_BYTES + BodyLength(h.value)))
  }

  /** One command at the front of the stream, with the bytes it takes. */
  function ParseCommand(op: Operation, ordinal: nat, bytes: seq<byte>): (r: Option<(Command, nat)>)
    ensures r.Some? ==> HEADER_BYTES <= r.value.1 <= |bytes|
  {
    if |bytes| < HEADER_BYTES then None
    else ParseBody(DecodeHeader(bytes[..HEADER_BYTES]), op, ordinal, bytes[HEADER_BYTES..])
  }

  /** The whole session as a function of the whole byte stream. */
  ghost function Serve(session: Session, s: State, bytes: seq<byte>, kernel: nat -> Kernel, n: nat): Result
    decreases |bytes|
  {
    match ParseCommand(session.op, Ordinal(|s.accepted| + 1), bytes)
    case None => Result(s, [], Broken)
    case Some((c, total)) =>
      var o := Handle(session, s, c, kernel(n));
      Chain(o, c.Close?, Serve(session, o.s, bytes[total..], kernel, n + 1))
  }

  // ---------- commands as a client sends them ----------

  function CodeOf(c: Command): nat {
    match c
    case List => 1 case Stat(_) => 2 case Read(_, _) => 3 case Create(_) => 4 case Write(_, _, _, _) => 5
    case SyncFile(_, _) => 6 case Link(_, _, _) => 7 case Unlink(_, _, _) => 8
    case SyncDirectory => 9 case VerifyRoot => 10 case Close => 11
  }

  function NameOf(c: Command): Name {
    if NeedsName(CodeOf(c)) then c.name else []
  }

  function HeaderOf(c: Command, ordinal: nat): Header {
    var id := if c.Write? || c.SyncFile? || c.Link? || c.Unlink? then c.id else Ident(0, 0);
    Header(CodeOf(c), if c.Unlink? && c.allowMissing then 1 else 0, |NameOf(c)|, if c.Link? then |c.target| else 0,
           ordinal, if c.Write? then |c.payload| else 0, id.device, id.inode,
           if c.Write? || c.Read? then c.maximum else 0)
  }

  predicate Sendable(c: Command) {
    && (NeedsName(CodeOf(c)) ==> 1 <= |c.name| <= 255)
    && (c.Link? ==> 1 <= |c.target| <= 255)
    && (c.Write? ==> |c.payload| <= MAX_PLAN_BYTES)
    && (c.Write? || c.Read? ==> c.maximum <= MAX_PLAN_BYTES)
    && (c.Write? || c.SyncFile? || c.Link? || c.Unlink? ==> c.id.device < 4294967296 && c.id.inode <= SAFE_INTEGER)
  }

  function BodyOf(c: Command): seq<byte> {
    NameOf(c) + (if c.Link? then c.target else []) + (if c.Write? then c.payload else [])
  }

  function EncodeCommand(c: Command, ordinal: nat): (r: seq<byte>)
    ensures |r| == HEADER_BYTES + |BodyOf(c)|
  {
    EncodeHeader(HeaderOf(c, ordinal)) + BodyOf(c)
  }

  function EncodeCommands(cs: seq<Command>, accepted: nat): seq<byte> {
    if cs == [] then [] else EncodeCommand(cs[0], Ordinal(accepted + 1)) + EncodeCommands(cs[1..], accepted + 1)
  }

  lemma PermittedByCode(op: Operation, c: Command)
    ensures PermittedCode(op, CodeOf(c)) <==> Permitted(op, c)
  {
  }

  lemma BodyRoundTrip(c: Command, ordinal: nat)
    requires Sendable(c)
    ensures var h := HeaderOf(c, ordinal); |BodyOf(c)| == BodyLength(h) && BodyCommand(h, BodyOf(c)) == c
  {
    var h, body := HeaderOf(c, ordinal), BodyOf(c);
    assert body[..h.nameLength] == NameOf(c);
    if c.Link? {
      assert body[h.nameLength..h.nameLength + h.targetLength] == c.target;
    }
    if c.Write? {
      assert body[h.nameLength + h.targetLength..] == c.payload;
    }
  }

  lemma BodyParsesBack(op: Operation, c: Command, ordinal: nat, rest: seq<byte>)
    requires Sendable(c)
    ensures ParseBody(Some(HeaderOf(c, ordinal)), op, ordinal, BodyOf(c) + rest)
         == if Permitted(op, c) then Some((c, HEADER_BYTES + |BodyOf(c)|)) else None
  {
    var h := HeaderOf(c, ordinal);
    PermittedByCode(op, c);
    BodyRoundTrip(c, ordinal);
    assert (BodyOf(c) + rest)[..BodyLength(h)] == BodyOf(c);
  }

  /** A command a client may send parses back to itself from the front of any
      stream, in every session that permits it. */
  lemma CommandRoundTrip(op: Operation, c: Command, ordinal: nat, rest: seq<byte>)
    requires Sendable(c) && ordinal < 4294967296
    ensures ParseCommand(op, ordinal, EncodeCommand(c, ordinal) + rest)
         == if Permitted(op, c) then Some((c, |EncodeCommand(c, ordinal)|)) else None
  {
    var h := HeaderOf(c, ordinal);
    HeaderRoundTrip(h);
    BodyParsesBack(op, c, ordinal, rest);
    FrameSplits(EncodeHeader(h), BodyOf(c), rest);
  }

  /** A header that decodes is the encoding of its fields. */
  lemma DecodedHeaderEncodes(b: seq<byte>, h: Header)
    requires |b| == HEADER_BYTES && DecodeHeader(b) == Some(h)
    ensures EncodeHeader(h) == b
  {
    HeaderSlices(h);
    var e := EncodeHeader(h);
    EncodeDecode(b[6..8]);
    EncodeDecode(b[8..10]);
    EncodeDecode(b[12..16]);
    EncodeDecode(b[16..20]);
    EncodeDecode(b[20..28]);
    EncodeDecode(b[28..36]);
    EncodeDecode(b[36..40]);
    Glue(b);
    Glue(e);
  }

  lemma Glue(b: seq<byte>)
    requires |b| == HEADER_BYTES
    ensures b == b[..4] + [b[4], b[5]] + b[6..8] + b[8..10] + b[10..12] + b[12..16] + b[16..20] + b[20..28] + b[28..36]
                 + b[36..40] + b[40..44]
  {
  }

  /** The fields a command leaves open: an identity or a limit it does not use, and
      the high bits of a device. */
  predicate Announces(h: Header, c: Command, ordinal: nat) {
    && h == HeaderOf(c, ordinal).(device := h.device, inode := h.inode, maximum := h.maximum)
    && h.device <= SAFE_INTEGER && h.inode <= SAFE_INTEGER && h.maximum <= MAX_PLAN_BYTES
    && (c.Write? || c.SyncFile? || c.Link? || c.Unlink? ==> c.id == Ident(h.device % 4294967296, h.inode))
    && (c.Write? || c.Read? ==> c.maximum == h.maximum)
  }

  lemma BodyCommandIsAnnounced(op: Operation, ordinal: nat, h: Header, body: seq<byte>)
    requires HeaderAllowed(h, op, ordinal) && |body| == BodyLength(h)
    ensures var c := BodyCommand(h, body);
            Permitted(op, c) && Sendable(c) && Announces(h, c, ordinal) && BodyOf(c) == body
  {
    var name, target, payload := body[..h.nameLength], body[h.nameLength..h.nameLength + h.targetLength],
                                 body[h.nameLength + h.targetLength..];
    assert body == name + target + payload;
    BuiltIsAnnounced(op, ordinal, h, name, target, payload);
  }

  lemma BuiltIsAnnounced(op: Operation, ordinal: nat, h: Header, name: Name, target: Name, payload: seq<byte>)
    requires HeaderAllowed(h, op, ordinal)
    requires |name| == h.nameLength && |target| == h.targetLength && |payload| == h.payloadLength
    ensures var c := BuildCommand(h, name, target, payload);
            Permitted(op, c) && Sendable(c) && Announces(h, c, ordinal) && BodyOf(c) == name + target + payload
  {
    var c := BuildCommand(h, name, target, payload);
    assert CodeOf(c) == h.code;
    PermittedByCode(op, c);
    assert NameOf(c) == name;
    assert (if c.Link? then c.target else []) == target;
    assert (if c.Write? then c.payload else []) == payload;
  }

  /** Only encodings are accepted: what is parsed from the front of a stream is a
      command the session permits, and the bytes taken are its encoding with the
      expected ordinal, up to the fields it leaves open. */
  lemma ParsedIsEncoded(op: Operation, ordinal: nat, bytes: seq<byte>) returns (h: Header)
    requires ParseCommand(op, ordinal, bytes).Some?
    ensures h.code < 256 && h.flags < 256
    ensures var (c, total) := ParseCommand(op, ordinal, bytes).value;
            && Permitted(op, c) && Sendable(c) && Announces(h, c, ordinal)
            && total == HEADER_BYTES + |BodyOf(c)| && bytes[..total] == EncodeHeader(h) + BodyOf(c)
  {
    var head, rest := bytes[..HEADER_BYTES], bytes[HEADER_BYTES..];
    h := DecodeHeader(head).value;
    DecodedHeaderEncodes(head, h);
    assert bytes == head + rest;
    ParsedBodyIsEncoded(op, ordinal, h, head, rest);
  }

  lemma ParsedBodyIsEncoded(op: Operation, ordinal: nat, h: Header, head: seq<byte>, rest: seq<byte>)
    requires |head| == HEADER_BYTES && ParseBody(Some(h), op, ordinal, rest).Some?
    ensures var (c, total) := ParseBody(Some(h), op, ordinal, rest).value;
            && Permitted(op, c) && Sendable(c) && Announces(h, c, ordinal)
            && total == HEADER_BYTES + |BodyOf(c)| && (head + rest)[..total] == head + BodyOf(c)
  {
    var body := rest[..BodyLength(h)];
    BodyCommandIsAnnounced(op, ordinal, h, body);
    assert (head + rest)[..HEADER_BYTES + BodyLength(h)] == head + body;
  }

  lemma FrameSplits(head: seq<byte>, body: seq<byte>, rest: seq<byte>)
    requires |head| == HEADER_BYTES
    ensures (head + body + rest)[..HEADER_BYTES] == head
    ensures (head + body + rest)[HEADER_BYTES..] == body + rest
  {
  }

  /** The header of an UNLINK that names device 2^32 + id.device. */
  function WideHeader(name: Name, id: Ident, ordinal: nat): Header {
    HeaderOf(Unlink(name, id, false), ordinal).(device := 4294967296 + id.device)
  }

  lemma WideBodyParses(op: Operation, name: Name, id: Ident, ordinal: nat)
    requires !op.InspectSession? && 1 <= |name| <= 255 && id.device < 4294967296 && id.inode <= SAFE_INTEGER
    ensures ParseBody(Some(WideHeader(name, id, ordinal)), op, ordinal, name)
         == Some((Unlink(name, id, false), HEADER_BYTES + |name|))
  {
    var c := Unlink(name, id, false);
    assert BodyOf(c) == name && name[..|name|] == name;
    BodyRoundTrip(c, ordinal);
    DeviceIsTruncated(HeaderOf(c, ordinal), 4294967296 + id.device, name);
  }

  lemma WideDeviceParses(op: Operation, name: Name, id: Ident, ordinal: nat)
    requires !op.InspectSession? && 1 <= |name| <= 255 && id.device < 4294967296 && id.inode <= SAFE_INTEGER
    requires ordinal < 4294967296
    ensures ParseCommand(op, ordinal, EncodeHeader(WideHeader(name, id, ordinal)) + name)
         == Some((Unlink(name, id, false), HEADER_BYTES + |name|))
  {
    var h := WideHeader(name, id, ordinal);
    HeaderRoundTrip(h);
    WideBodyParses(op, name, id, ordinal);
    var head := EncodeHeader(h);
    assert (head + name)[..HEADER_BYTES] == head && (head + name)[HEADER_BYTES..] == name;
  }

  /** A client that names a device of more than 32 bits is answered about another
      one: an UNLINK for the file (2^32 + device, inode) removes a name of the file
      (device, inode). */
  lemma WideDeviceActsOnAnother(session: Session, s: State, name: Name, id: Ident, k: Kernel)
    requires !session.op.InspectSession? && IsJournalName(session.id, name) && 1 <= |name| <= 255 && Removable(name)
    requires NamedBy(s, name, id) && id in s.inodes && s.inodes[id].regular && k.fault == 0
    requires id.device < 4294967296 && id.inode <= SAFE_INTEGER
    ensures var ordinal := Ordinal(|s.accepted| + 1);
            var h := WideHeader(name, id, ordinal);
            && h.device != id.device
            && var parsed := ParseCommand(session.op, ordinal, EncodeHeader(h) + name);
            && parsed.Some?
            && var o := Handle(session, s, parsed.value.0, k);
            o.Replied? && o.s.dir == s.dir - {name}
  {
    WideDeviceParses(session.op, name, id, Ordinal(|s.accepted| + 1));
    UnlinkRemoves(session, s, name, id, k);
  }

  lemma UnlinkRemoves(session: Session, s: State, name: Name, id: Ident, k: Kernel)
    requires !session.op.InspectSession? && IsJournalName(session.id, name) && Removable(name)
    requires NamedBy(s, name, id) && id in s.inodes && s.inodes[id].regular && k.fault == 0
    ensures var o := Handle(session, s, Unlink(name, id, false), k); o.Replied? && o.s.dir == s.dir - {name}
  {
  }

  // ---------- any stream of bytes ----------

  /** The commands a session takes from a stream of any bytes, with the kernel's
      answers: those it replies to, and the one it fails on, if the stream still
      holds it whole. */
  ghost function StepsIn(session: Session, s: State, bytes: seq<byte>, kernel: nat -> Kernel, n: nat)
    : seq<(Command, Kernel)>
    decreases |bytes|
  {
    match ParseCommand(session.op, Ordinal(|s.accepted| + 1), bytes)
    case None => []
    case Some((c, total)) =>
      var o := Handle(session, s, c, kernel(n));
      [(c, kernel(n))] + if o.Replied? && !c.Close? then StepsIn(session, o.s, bytes[total..], kernel, n + 1) else []
  }

  /** A session that is still open when its input ends is broken. */
  function Ended(r: Result): Result {
    r.(ending := if r.ending.Open? then Broken else r.ending)
  }

  /** Serving any stream of bytes whatever is running the commands in it, so all
      that is proved of runs of commands holds of every session. */
  lemma {:induction false} StreamIsRun(session: Session, s: State, bytes: seq<byte>, kernel: nat -> Kernel, n: nat)
    ensures Serve(session, s, bytes, kernel, n) == Ended(Run(session, s, StepsIn(session, s, bytes, kernel, n)))
    decreases |bytes|, 1
  {
    var parsed := ParseCommand(session.op, Ordinal(|s.accepted| + 1), bytes);
    if parsed.Some? {
      var (c, total) := parsed.value;
      StreamIsRunAfter(session, Handle(session, s, c, kernel(n)), c.Close?, bytes[total..], kernel, n + 1);
    }
  }

  lemma StreamIsRunAfter(session: Session, o: Outcome, last: bool, bytes: seq<byte>, kernel: nat -> Kernel, n: nat)
    ensures var rest := if o.Replied? && !last then StepsIn(session, o.s, bytes, kernel, n) else [];
            Chain(o, last, Serve(session, o.s, bytes, kernel, n)) == Ended(Chain(o, last, Run(session, o.s, rest)))
    decreases |bytes|, 2
  {
    if o.Replied? && !last {
      StreamIsRun(session, o.s, bytes, kernel, n);
    }
  }

  function Paired(cs: seq<Command>, kernel: nat -> Kernel, n: nat): seq<(Command, Kernel)> {
    if cs == [] then [] else [(cs[0], kernel(n))] + Paired(cs[1..], kernel, n + 1)
  }

  /** Serving the encoded stream of any list of commands is running that list:
      same replies, same directory; a stream that stops early breaks the session. */
  lemma {:induction false} ServingIsRunning(session: Session, s: State, cs: seq<Command>, kernel: nat -> Kernel, n: nat)
    requires forall c | c in cs :: Sendable(c)
    ensures var r := Run(session, s, Paired(cs, kernel, n));
            Serve(session, s, EncodeCommands(cs, |s.accepted|), kernel, n) == Ended(r)
    decreases |cs|
  {
    if cs != [] {
      var c, ordinal := cs[0], Ordinal(|s.accepted| + 1);
      var head := EncodeCommand(c, ordinal);
      var rest := EncodeCommands(cs[1..], |s.accepted| + 1);
      CommandRoundTrip(session.op, c, ordinal, rest);
      assert (head + rest)[|head|..] == rest;
      var o := Handle(session, s, c, kernel(n));
      assert Paired(cs, kernel, n)[0] == (c, kernel(n));
      assert Paired(cs, kernel, n)[1..] == Paired(cs[1..], kernel, n + 1);
      if o.Replied? && !c.Close? {
        AcceptedOne(session, s, c, kernel(n));
        ServingIsRunning(session, o.s, cs[1..], kernel, n + 1);
      }
    }
  }

  lemma AcceptedOne(session: Session, s: State, c: Command, k: Kernel)
    requires Handle(session, s, c, k).Replied?
    ensures |Handle(session, s, c, k).s.accepted| == |s.accepted| + 1
  {
  }
}
