/**
Bytes and the big-endian integers of the native helpers' frames.
*/
module Bytes {
  type byte = x: int | 0 <= x < 256

  function ByteOf(c: char): byte { if c < 128 as char then c as int else 0 }

  /** The bytes of an ASCII literal. */
  function Ascii(s: string): (r: seq<byte>)
    ensures |r| == |s|
    ensures forall i | 0 <= i < |s| :: r[i] == ByteOf(s[i])
  {
    seq(|s|, i requires 0 <= i < |s| => ByteOf(s[i]))
  }

  function Pow256(n: nat): (r: nat)
    ensures r > 0
  {
    if n == 0 then 1 else 256 * Pow256(n - 1)
  }

  /** `width` bytes, most significant first; higher bits are dropped. */
  function Encode(width: nat, value: nat): (r: seq<byte>)
    ensures |r| == width
  {
    if width == 0 then [] else Encode(width - 1, value / 256) + [value % 256]
  }

  function Decode(bytes: seq<byte>): (r: nat) {
    if bytes == [] then 0 else 256 * Decode(bytes[..|bytes| - 1]) + bytes[|bytes| - 1]
  }

  lemma {:induction false} DecodeBound(bytes: seq<byte>)
    ensures Decode(bytes) < Pow256(|bytes|)
  {
    if bytes != [] {
      DecodeBound(bytes[..|bytes| - 1]);
    }
  }

  lemma {:induction false} DecodeEncode(width: nat, value: nat)
    requires value < Pow256(width)
    ensures Decode(Encode(width, value)) == value
  {
    if width > 0 {
      var r := Encode(width, value);
      assert r[..width - 1] == Encode(width - 1, value / 256);
      DecodeEncode(width - 1, value / 256);
    }
  }

  lemma {:induction false} EncodeDecode(bytes: seq<byte>)
    ensures Encode(|bytes|, Decode(bytes)) == bytes
  {
    if bytes != [] {
      EncodeDecode(bytes[..|bytes| - 1]);
    }
  }

  /** The shift-and-or loop of decode_u16, decode_u32 and decode_u64. */
  method DecodeBigEndian(bytes: seq<byte>) returns (value: nat)
    ensures value == Decode(bytes)
    ensures value < Pow256(|bytes|)
  {
    value := 0;
    for i := 0 to |bytes|
      invariant value == Decode(bytes[..i])
    {
      assert bytes[..i + 1][..i] == bytes[..i];
      value := 256 * value + bytes[i];
    }
    assert bytes[..|bytes|] == bytes;
    DecodeBound(bytes);
  }

  lemma Widths()
    ensures Pow256(2) == 65536
    ensures Pow256(4) == 4294967296
    ensures Pow256(8) == 18446744073709551616
  {
    assert Pow256(1) == 256;
    assert Pow256(2) == 65536;
    assert Pow256(3) == 16777216;
    assert Pow256(4) == 4294967296;
    assert Pow256(5) == 1099511627776;
    assert Pow256(6) == 281474976710656;
    assert Pow256(7) == 72057594037927936;
  }

  lemma Code16(value: nat)
    requires value < 65536
    ensures |Encode(2, value)| == 2 && Decode(Encode(2, value)) == value
  {
    Widths();
    DecodeEncode(2, value);
  }

  lemma Code32(value: nat)
    requires value < 4294967296
    ensures |Encode(4, value)| == 4 && Decode(Encode(4, value)) == value
  {
    Widths();
    DecodeEncode(4, value);
  }

  lemma Code64(value: nat)
    requires value < 18446744073709551616
    ensures |Encode(8, value)| == 8 && Decode(Encode(8, value)) == value
  {
    Widths();
    DecodeEncode(8, value);
  }
}
