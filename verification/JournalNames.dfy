/**
The file-name grammar of native/installation-journal-session-v1.c.

An accepted name is the installation id, a fixed infix, a ten-digit revision and
one of three suffixes; the temporary suffix carries a version-4 UUID as in
section 5.4 of RFC 9562.
*/
module JournalNames {
  import opened Bytes

  type Name = seq<byte>

  datatype Kind = Target | Witness | Temporary(uuid: Name)
  datatype JournalName = JournalName(revision: Name, kind: Kind)

  const INFIX: Name := Ascii(".installation-plan.revision-")
  const DOT_JSON: Name := Ascii(".json")
  const DOT_PUBLISH: Name := Ascii(".publish.json")
  const DOT_TMP: Name := Ascii(".tmp")

  predicate Digit(b: byte) { '0' as int <= b <= '9' as int }
  predicate LowerHex(b: byte) { Digit(b) || 'a' as int <= b <= 'f' as int }
  predicate IdByte(b: byte) { Digit(b) || 'a' as int <= b <= 'z' as int || b == '-' as int }
  predicate HyphenPosition(i: int) { i == 8 || i == 13 || i == 18 || i == 23 }
  predicate VariantByte(b: byte) { b == '8' as int || b == '9' as int || b == 'a' as int || b == 'b' as int }

  /** An installation id as the session header must carry it. */
  predicate ValidId(id: Name) {
    1 <= |id| <= 63 && forall b | b in id :: IdByte(b)
  }

  predicate UuidV4(u: Name) {
    && |u| == 36
    && (forall i | 0 <= i < 36 :: if HyphenPosition(i) then u[i] == '-' as int else LowerHex(u[i]))
    && u[14] == '4' as int
    && VariantByte(u[19])
  }

  predicate WellFormed(n: JournalName) {
    && |n.revision| == 10
    && (forall b | b in n.revision :: Digit(b))
    && (n.kind.Temporary? ==> UuidV4(n.kind.uuid))
  }

  function Suffix(kind: Kind): Name {
    match kind
    case Target => DOT_JSON
    case Witness => DOT_PUBLISH
    case Temporary(u) => Ascii(".") + u + DOT_TMP
  }

  function Render(id: Name, n: JournalName): Name {
    id + INFIX + n.revision + Suffix(n.kind)
  }

  ghost predicate IsJournalName(id: Name, name: Name) {
    exists n :: WellFormed(n) && name == Render(id, n)
  }

  // ---------- the classes the session tests by suffix ----------

  predicate EndsWith(name: Name, suffix: Name) {
    |name| >= |suffix| && name[|name| - |suffix|..] == suffix
  }

  predicate WitnessName(name: Name) { EndsWith(name, DOT_PUBLISH) }
  predicate TemporaryName(name: Name) { EndsWith(name, DOT_TMP) }
  predicate TargetName(name: Name) { EndsWith(name, DOT_JSON) && !WitnessName(name) }

  /** basename_valid: one path component without control bytes. */
  predicate BasenameValid(name: Name) {
    && 1 <= |name| <= 255
    && name != Ascii(".") && name != Ascii("..")
    && forall b | b in name :: b >= 32 && b != 127 && b != '/' as int
  }

  // ---------- rendering determines the parts ----------

  lemma RenderParts(id: Name, n: JournalName)
    requires WellFormed(n)
    ensures var r, k := Render(id, n), |id| + 28;
            && |r| == k + 10 + |Suffix(n.kind)|
            && r[..|id|] == id && r[|id|..k] == INFIX
            && r[k..k + 10] == n.revision && r[k + 10..] == Suffix(n.kind)
  {
  }

  lemma SuffixSizes(kind: Kind)
    requires kind.Temporary? ==> |kind.uuid| == 36
    ensures |Suffix(kind)| == (match kind case Target => 5 case Witness => 13 case Temporary(_) => 41)
  {
  }

  lemma RenderInjective(id: Name, a: JournalName, b: JournalName)
    requires WellFormed(a) && WellFormed(b)
    requires Render(id, a) == Render(id, b)
    ensures a == b
  {
    RenderParts(id, a);
    RenderParts(id, b);
    SuffixSizes(a.kind);
    SuffixSizes(b.kind);
    if a.kind.Temporary? {
      assert Suffix(a.kind)[1..37] == a.kind.uuid;
      assert Suffix(b.kind)[1..37] == b.kind.uuid;
    }
  }

  /** Target, witness and temporary names partition the accepted names, and the
      suffix tests of the session recognise exactly the rendered kind. */
  lemma SuffixClassifies(id: Name, n: JournalName)
    requires WellFormed(n)
    ensures TargetName(Render(id, n)) <==> n.kind.Target?
    ensures WitnessName(Render(id, n)) <==> n.kind.Witness?
    ensures TemporaryName(Render(id, n)) <==> n.kind.Temporary?
  {
    var r := Render(id, n);
    RenderParts(id, n);
    SuffixSizes(n.kind);
    var s := Suffix(n.kind);
    match n.kind
    case Target =>
      assert r[|r| - 5..] == s;
      assert r[|r| - 1] == 'n' as int;
      assert r[|r| - 13] == n.revision[2] && Digit(n.revision[2]);
      assert r[|r| - 13..][0] == r[|r| - 13];
      assert r[|r| - 4..][0] == 'j' as int;
    case Witness =>
      assert r[|r| - 13..] == s;
      assert r[|r| - 4..][0] == 'j' as int;
    case Temporary(u) =>
      assert r[|r| - 41..] == s;
      assert r[|r| - 4..] == DOT_TMP;
      assert r[|r| - 5..][4] == 'p' as int;
      assert r[|r| - 13..][12] == 'p' as int;
  }

  // ---------- the validator ----------

  predicate TemporarySuffix(rest: Name) {
    |rest| == 41 && rest[0] == '.' as int && rest[37..] == DOT_TMP && UuidV4(rest[1..37])
  }

  /** The conditions the C function tests, without its loops. */
  predicate Accepts(id: Name, name: Name) {
    var k := |id| + 28;
    && BasenameValid(name)
    && |name| > k + 10
    && name[..|id|] == id && name[|id|..k] == INFIX
    && (forall i | k <= i < k + 10 :: Digit(name[i]))
    && (name[k + 10..] == DOT_JSON || name[k + 10..] == DOT_PUBLISH || TemporarySuffix(name[k + 10..]))
  }

  lemma AcceptedIsRendered(id: Name, name: Name)
    requires Accepts(id, name)
    ensures IsJournalName(id, name)
  {
    var k := |id| + 28;
    var rest := name[k + 10..];
    var kind := if rest == DOT_JSON then Target else if rest == DOT_PUBLISH then Witness else Temporary(rest[1..37]);
    var n := JournalName(name[k..k + 10], kind);
    assert WellFormed(n);
    assert Suffix(kind) == rest;
    assert name == Render(id, n);
  }

  /** No rendered byte is a control byte or a slash. */
  lemma RenderedBytes(id: Name, n: JournalName)
    requires ValidId(id) && WellFormed(n)
    ensures forall b | b in Render(id, n) :: 32 < b < 127 && b != '/' as int
  {
    var r := Render(id, n);
    forall i | 0 <= i < |r|
      ensures 32 < r[i] < 127 && r[i] != '/' as int
    {
      SuffixBytes(n.kind);
      InfixBytes();
      var k := |id| + 28;
      if i < |id| {
        assert r[i] == id[i] && IdByte(id[i]);
      } else if i < k {
        assert r[i] == INFIX[i - |id|];
      } else if i < k + 10 {
        assert r[i] == n.revision[i - k] && Digit(n.revision[i - k]);
      } else {
        assert r[i] == Suffix(n.kind)[i - k - 10];
      }
    }
  }

  lemma InfixBytes()
    ensures forall i | 0 <= i < |INFIX| :: 32 < INFIX[i] < 127 && INFIX[i] != '/' as int
  {
  }

  lemma SuffixBytes(kind: Kind)
    requires kind.Temporary? ==> UuidV4(kind.uuid)
    ensures forall i | 0 <= i < |Suffix(kind)| :: 32 < Suffix(kind)[i] < 127 && Suffix(kind)[i] != '/' as int
  {
    if kind.Temporary? {
      forall i | 0 <= i < 36
        ensures 32 < kind.uuid[i] < 127 && kind.uuid[i] != '/' as int
      {
        assert if HyphenPosition(i) then kind.uuid[i] == '-' as int else LowerHex(kind.uuid[i]);
      }
      forall i | 0 <= i < 41
        ensures 32 < Suffix(kind)[i] < 127 && Suffix(kind)[i] != '/' as int
      {
        var s := Suffix(kind);
        if i == 0 {
          assert s[i] == '.' as int;
        } else if i < 37 {
          assert s[i] == kind.uuid[i - 1];
        } else {
          assert s[i] == DOT_TMP[i - 37];
        }
      }
    }
  }

  lemma RenderedIsAccepted(id: Name, n: JournalName)
    requires ValidId(id) && WellFormed(n)
    ensures Accepts(id, Render(id, n))
  {
    var r, k := Render(id, n), |id| + 28;
    RenderParts(id, n);
    SuffixSizes(n.kind);
    RenderedBytes(id, n);
    forall i | k <= i < k + 10
      ensures Digit(r[i])
    {
      assert r[i] == n.revision[i - k];
    }
    if n.kind.Temporary? {
      var s := Suffix(n.kind);
      assert s[1..37] == n.kind.uuid && s[37..] == DOT_TMP;
    }
  }

  lemma AcceptsExactlyRenderings(id: Name, name: Name)
    requires ValidId(id)
    ensures Accepts(id, name) <==> IsJournalName(id, name)
  {
    if Accepts(id, name) {
      AcceptedIsRendered(id, name);
    }
    if IsJournalName(id, name) {
      var n :| WellFormed(n) && name == Render(id, n);
      RenderedIsAccepted(id, n);
    }
  }

  method CheckBasename(name: Name) returns (ok: bool)
    ensures ok <==> BasenameValid(name)
  {
    if |name| == 0 || |name| > 255 || name == Ascii(".") || name == Ascii("..") {
      return false;
    }
    for i := 0 to |name|
      invariant forall j | 0 <= j < i :: name[j] >= 32 && name[j] != 127 && name[j] != '/' as int
    {
      if name[i] < 32 || name[i] == 127 || name[i] == '/' as int {
        assert name[i] in name;
        return false;
      }
    }
    return true;
  }

  method CheckUuid(u: Name) returns (ok: bool)
    requires |u| == 36
    ensures ok <==> UuidV4(u)
  {
    for i := 0 to 36
      invariant forall j | 0 <= j < i :: if HyphenPosition(j) then u[j] == '-' as int else LowerHex(u[j])
    {
      if HyphenPosition(i) {
        if u[i] != '-' as int { return false; }
      } else if !LowerHex(u[i]) {
        return false;
      }
    }
    return u[14] == '4' as int && VariantByte(u[19]);
  }

  /** journal_name_valid accepts exactly the renderings of well-formed parts. */
  method JournalNameValid(id: Name, name: Name) returns (ok: bool)
    requires ValidId(id)
    ensures ok <==> IsJournalName(id, name)
  {
    AcceptsExactlyRenderings(id, name);
    var basename := CheckBasename(name);
    if !basename || |name| <= |id| + 38 || name[..|id|] != id || name[|id|..|id| + 28] != INFIX {
      return false;
    }
    var offset := |id| + 28;
    for i := 0 to 10
      invariant forall j | offset <= j < offset + i :: Digit(name[j])
    {
      if !Digit(name[offset + i]) {
        return false;
      }
    }
    offset := offset + 10;
    var rest := name[offset..];
    if rest == DOT_JSON || rest == DOT_PUBLISH {
      return true;
    }
    if |rest| != 41 || rest[0] != '.' as int || rest[37..] != DOT_TMP {
      return false;
    }
    ok := CheckUuid(rest[1..37]);
  }
}
