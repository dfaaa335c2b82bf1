/** Hexadecimal decoding as `encoding/hex.DecodeString` does it (section 8
    of RFC 4648; both letter cases accepted), and the lower-case encoder
    that is its inverse. */
module Hex {
  import opened Common

  predicate IsHexChar(c: char)
  {
    ('0' <= c <= '9') || ('a' <= c <= 'f') || ('A' <= c <= 'F')
  }

  function HexValue(c: char): (v: nat)
    requires IsHexChar(c)
    ensures v < 16
  {
    if '0' <= c <= '9' then c as int - '0' as int
    else if 'a' <= c <= 'f' then c as int - 'a' as int + 10
    else c as int - 'A' as int + 10
  }

  datatype Decoded =
    | Bytes(bytes: seq<byte>)
    | InvalidByte(c: char)   // hex.InvalidByteError
    | OddLength              // hex.ErrLength

  /** hex.DecodeString: pairs are checked left to right; a bad character in
      a complete pair is reported first, then a trailing odd character is
      reported as invalid if it is not a hex digit and as ErrLength
      otherwise. */
  function Decode(s: string): (r: Decoded)
    ensures r.Bytes? ==> 2 * |r.bytes| == |s|
    decreases |s|
  {
    if |s| == 0 then Bytes([])
    else if |s| == 1 then (if IsHexChar(s[0]) then OddLength else InvalidByte(s[0]))
    else if !IsHexChar(s[0]) then InvalidByte(s[0])
    else if !IsHexChar(s[1]) then InvalidByte(s[1])
    else
      match Decode(s[2..])
      case Bytes(rest) => Bytes([(HexValue(s[0]) * 16 + HexValue(s[1])) as bv8] + rest)
      case other => other
  }

  /** Decoding succeeds exactly on even-length strings of hex digits. */
  lemma {:induction false} DecodeAccepts(s: string)
    ensures Decode(s).Bytes? <==> |s| % 2 == 0 && forall i :: 0 <= i < |s| ==> IsHexChar(s[i])
    decreases |s|
  {
    if |s| >= 2 {
      DecodeAccepts(s[2..]);
      assert forall i :: 2 <= i < |s| ==> s[i] == s[2..][i - 2];
    }
  }

  function Error(r: Decoded): Common.Error
  {
    match r
    case OddLength => Text("encoding/hex: odd length hex string")
    case _ => Text("encoding/hex: invalid byte")
  }

  function Digit(v: nat): (c: char)
    requires v < 16
    ensures IsHexChar(c) && HexValue(c) == v
  {
    if v < 10 then ('0' as int + v) as char else ('a' as int + v - 10) as char
  }

  /** hex.EncodeToString */
  function Encode(b: seq<byte>): (s: string)
    ensures |s| == 2 * |b|
  {
    if |b| == 0 then [] else [Digit(b[0] as int / 16), Digit(b[0] as int % 16)] + Encode(b[1..])
  }

  /** Decoding inverts encoding. */
  lemma {:induction false} DecodeEncode(b: seq<byte>)
    ensures Decode(Encode(b)) == Bytes(b)
    decreases |b|
  {
    if |b| > 0 {
      var s := Encode(b);
      assert s[2..] == Encode(b[1..]);
      DecodeEncode(b[1..]);
      assert (HexValue(s[0]) * 16 + HexValue(s[1])) as bv8 == b[0];
      assert [b[0]] + b[1..] == b;
    }
  }
}
