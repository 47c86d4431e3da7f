/**
The payload of a LIST reply: a count and length-prefixed directory names.
*/
module JournalList {
  import opened Bytes
  import opened Wrappers
  import opened JournalNames

  const MAX_ENTRIES := 10000
  const MAX_NAME_BYTES := 255
  const MAX_LIST_BYTES := 4 + MAX_ENTRIES * (2 + MAX_NAME_BYTES)

  predicate Hidden(name: Name) { name == Ascii(".") || name == Ascii("..") }

  /** The directory entries that are listed, in directory order. */
  function Visible(entries: seq<Name>): seq<Name> {
    if entries == [] then []
    else
      var last := entries[|entries| - 1];
      Visible(entries[..|entries| - 1]) + (if Hidden(last) then [] else [last])
  }

  predicate Listable(names: seq<Name>) {
    |names| <= MAX_ENTRIES && forall n | n in names :: |n| <= MAX_NAME_BYTES
  }

  function EncodeNames(names: seq<Name>): seq<byte> {
    if names == [] then [] else Encode(2, |names[0]|) + names[0] + EncodeNames(names[1..])
  }

  function EncodeList(names: seq<Name>): seq<byte> {
    Encode(4, |names|) + EncodeNames(names)
  }

  function DecodeNames(bytes: seq<byte>, count: nat): Option<seq<Name>> {
    if count == 0 then if bytes == [] then Some([]) else None
    else if |bytes| < 2 || |bytes| < 2 + Decode(bytes[..2]) then None
    else
      var n := Decode(bytes[..2]);
      match DecodeNames(bytes[2 + n..], count - 1)
      case None => None
      case Some(rest) => Some([bytes[2..2 + n]] + rest)
  }

  function DecodeList(bytes: seq<byte>): Option<seq<Name>> {
    if |bytes| < 4 then None else DecodeNames(bytes[4..], Decode(bytes[..4]))
  }

  lemma {:induction false} DecodeEncodeNames(names: seq<Name>)
    requires forall n | n in names :: |n| <= MAX_NAME_BYTES
    ensures DecodeNames(EncodeNames(names), |names|) == Some(names)
  {
    if names != [] {
      DecodeEncodeNames(names[1..]);
      DecodeFirstName(names[0], EncodeNames(names[1..]), |names| - 1);
      assert names == [names[0]] + names[1..];
    }
  }

  lemma DecodeFirstName(n: Name, rest: seq<byte>, count: nat)
    requires |n| <= MAX_NAME_BYTES && DecodeNames(rest, count).Some?
    ensures DecodeNames(Encode(2, |n|) + n + rest, count + 1) == Some([n] + DecodeNames(rest, count).value)
  {
    Code16(|n|);
    FirstName(Encode(2, |n|), n, rest, count);
  }

  lemma FirstName(size: seq<byte>, n: Name, rest: seq<byte>, count: nat)
    requires |size| == 2 && Decode(size) == |n| && DecodeNames(rest, count).Some?
    ensures DecodeNames(size + n + rest, count + 1) == Some([n] + DecodeNames(rest, count).value)
  {
    var bytes := size + n + rest;
    assert bytes[..2] == size;
    assert bytes[2..2 + |n|] == n;
    assert bytes[2 + |n|..] == rest;
  }

  /** The payload decodes back to exactly the names listed, in order. */
  lemma ListRoundTrip(names: seq<Name>)
    requires Listable(names)
    ensures DecodeList(EncodeList(names)) == Some(names)
  {
    var bytes := EncodeList(names);
    Code32(|names|);
    assert bytes[..4] == Encode(4, |names|);
    assert bytes[4..] == EncodeNames(names);
    DecodeEncodeNames(names);
  }

  lemma {:induction false} EncodeNamesSnoc(names: seq<Name>, n: Name)
    ensures EncodeNames(names + [n]) == EncodeNames(names) + (Encode(2, |n|) + n)
  {
    if names == [] {
      assert names + [n] == [n];
      assert EncodeNames([n]) == Encode(2, |n|) + n + EncodeNames([]);
    } else {
      assert (names + [n])[1..] == names[1..] + [n];
      EncodeNamesSnoc(names[1..], n);
    }
  }

  /** The entry and name limits alone bound the payload. */
  lemma {:induction false} EncodeNamesBound(names: seq<Name>)
    requires forall n | n in names :: |n| <= MAX_NAME_BYTES
    ensures |EncodeNames(names)| <= |names| * (2 + MAX_NAME_BYTES)
  {
    if names != [] {
      EncodeNamesBound(names[1..]);
    }
  }

  lemma RoomForOneMore(names: seq<Name>, n: Name)
    requires Listable(names + [n]) && Listable(names)
    ensures 4 + |EncodeNames(names)| + 2 + |n| <= MAX_LIST_BYTES
  {
    EncodeNamesBound(names);
    assert n in names + [n];
  }

  lemma ListBound(names: seq<Name>)
    requires Listable(names)
    ensures |EncodeList(names)| <= MAX_LIST_BYTES
  {
    EncodeNamesBound(names);
  }

  /** What one more entry of the directory adds to the list. */
  lemma ListGrows(entries: seq<Name>, i: nat)
    requires i < |entries| && Listable(Visible(entries[..i]))
    ensures var before, after, name := Visible(entries[..i]), Visible(entries[..i + 1]), entries[i];
            if Hidden(name) then after == before
            else
              && |after| == |before| + 1
              && EncodeNames(after) == EncodeNames(before) + (Encode(2, |name|) + name)
              && (Listable(after) <==> |after| <= MAX_ENTRIES && |name| <= MAX_NAME_BYTES)
              && (Listable(after) ==> 4 + |EncodeNames(before)| + 2 + |name| <= MAX_LIST_BYTES)
              && (!Listable(after) ==> !Listable(Visible(entries)))
  {
    var before, name := Visible(entries[..i]), entries[i];
    assert entries[..i + 1][..i] == entries[..i];
    if !Hidden(name) {
      var after := before + [name];
      assert Visible(entries[..i + 1]) == after;
      EncodeNamesSnoc(before, name);
      ListableGrows(before, name);
      if Listable(after) {
        RoomForOneMore(before, name);
      }
      VisiblePrefix(entries, i + 1);
    }
  }

  lemma ListableGrows(before: seq<Name>, name: Name)
    requires Listable(before)
    ensures Listable(before + [name]) <==> |before| + 1 <= MAX_ENTRIES && |name| <= MAX_NAME_BYTES
  {
    assert name in before + [name];
  }

  /** command_list's loop over readdir. The test of the output size inside the
      loop is kept, and never decides: the reply exists exactly when the visible
      names respect the entry and name limits. */
  method CommandList(entries: seq<Name>) returns (output: Option<seq<byte>>)
    ensures output.Some? <==> Listable(Visible(entries))
    ensures output.Some? ==> output.value == EncodeList(Visible(entries))
    ensures output.Some? ==> |output.value| <= MAX_LIST_BYTES
  {
    var body: seq<byte>, count := [], 0;
    for i := 0 to |entries|
      invariant body == EncodeNames(Visible(entries[..i]))
      invariant count == |Visible(entries[..i])|
      invariant Listable(Visible(entries[..i]))
    {
      var name := entries[i];
      ListGrows(entries, i);
      if !Hidden(name) {
        count := count + 1;
        if count > MAX_ENTRIES || |name| > MAX_NAME_BYTES || 4 + |body| + 2 + |name| > MAX_LIST_BYTES {
          return None;
        }
        body := body + (Encode(2, |name|) + name);
      }
    }
    assert entries[..|entries|] == entries;
    ListBound(Visible(entries));
    return Some(Encode(4, count) + body);
  }

  lemma {:induction false} VisiblePrefix(entries: seq<Name>, i: nat)
    requires i <= |entries|
    ensures Visible(entries[..i]) <= Visible(entries)
    decreases |entries| - i
  {
    if i == |entries| {
      assert entries[..i] == entries;
    } else {
      assert entries[..i + 1][..i] == entries[..i];
      VisiblePrefix(entries, i + 1);
    }
  }
}
