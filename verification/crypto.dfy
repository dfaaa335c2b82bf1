/** Service-key decryption: hex decoding, AES-128 in CBC mode with a fixed
    key and IV, then removal of trailing padding as counted by the last
    byte. The AES block function is an oracle; CBC chaining, the length
    check and the unpadding are modelled. */
module Crypto {
  import opened Common
  import Hex

  const BlockSize: int := 16

  type Block = s: seq<byte> | |s| == 16 witness seq(16, i => 0 as bv8)

  function AsciiBytes(s: string): seq<byte>
    requires forall i :: 0 <= i < |s| ==> s[i] as int < 256
  {
    seq(|s|, i requires 0 <= i < |s| => s[i] as int as bv8)
  }

  /** The hard-coded AES key ("1234567890123456") and IV (the same bytes). */
  const AlgorithmKey: seq<byte> := AsciiBytes("1234567890123456")
  const InitVector: Block := AsciiBytes("1234567890123456")

  /** aes.NewCipher accepts AES-128, AES-192 and AES-256 keys. */
  predicate ValidAesKeyLength(n: int) { n == 16 || n == 24 || n == 32 }

  function Xor(a: Block, b: Block): Block
  {
    seq(16, i requires 0 <= i < 16 => a[i] ^ b[i])
  }

  lemma XorTwice(a: Block, b: Block)
    ensures Xor(Xor(a, b), b) == a
  {
    assert forall i :: 0 <= i < 16 ==> (a[i] ^ b[i]) ^ b[i] == a[i];
  }

  /** CBC decryption: each plaintext block is the decrypted ciphertext
      block XOR the previous ciphertext block (the IV for the first). */
  function CbcDecrypt(decrypt: Block -> Block, iv: Block, data: seq<byte>): (p: seq<byte>)
    requires |data| % BlockSize == 0
    ensures |p| == |data|
    decreases |data|
  {
    if |data| == 0 then []
    else
      var c: Block := data[..16];
      Xor(decrypt(c), iv) + CbcDecrypt(decrypt, c, data[16..])
  }

  /** CBC encryption, the partner of CbcDecrypt. */
  function CbcEncrypt(encrypt: Block -> Block, iv: Block, plain: seq<byte>): (c: seq<byte>)
    requires |plain| % BlockSize == 0
    ensures |c| == |plain|
    decreases |plain|
  {
    if |plain| == 0 then []
    else
      var c: Block := encrypt(Xor(plain[..16], iv));
      c + CbcEncrypt(encrypt, c, plain[16..])
  }

  ghost predicate Inverse(encrypt: Block -> Block, decrypt: Block -> Block)
  {
    forall b: Block :: decrypt(encrypt(b)) == b
  }

  /** CBC decryption undoes CBC encryption under the same IV. */
  lemma {:induction false} CbcRoundTrip(encrypt: Block -> Block, decrypt: Block -> Block, iv: Block, plain: seq<byte>)
    requires Inverse(encrypt, decrypt)
    requires |plain| % BlockSize == 0
    ensures CbcDecrypt(decrypt, iv, CbcEncrypt(encrypt, iv, plain)) == plain
    decreases |plain|
  {
    if |plain| > 0 {
      var p0: Block := plain[..16];
      var c0: Block := encrypt(Xor(p0, iv));
      var rest := CbcEncrypt(encrypt, c0, plain[16..]);
      var cipher := CbcEncrypt(encrypt, iv, plain);
      assert cipher == c0 + rest;
      assert cipher[..16] == c0 && cipher[16..] == rest;
      XorTwice(p0, iv);
      CbcRoundTrip(encrypt, decrypt, c0, plain[16..]);
      assert p0 + plain[16..] == plain;
    }
  }

  /** Padding as the client side of this scheme applies it (PKCS#7,
      section 6.3 of RFC 5652): n copies of n, 1 <= n <= 16. */
  function Pad(p: seq<byte>): (r: seq<byte>)
    ensures |r| % BlockSize == 0 && |r| >= |p| + 1 && |r| <= |p| + 16
    ensures r[..|p|] == p
  {
    var n := 16 - |p| % 16;
    p + seq(n, i => n as bv8)
  }

  /** Hex-decode, build the cipher, check the length and CBC-decrypt. */
  function Decipher(key: string, decrypt: Block -> Block): (r: Result<seq<byte>>)
    ensures Hex.Decode(key).Bytes? <==> r.Ok? || r == Err(Text("invalid block size"))
    ensures r.Ok? ==> |r.value| == |Hex.Decode(key).bytes| && |r.value| % BlockSize == 0
    ensures r.Ok? ==> r.value == CbcDecrypt(decrypt, InitVector, Hex.Decode(key).bytes)
    ensures Hex.Decode(key).Bytes? && |Hex.Decode(key).bytes| % BlockSize == 0 ==> r.Ok?
  {
    match Hex.Decode(key)
    case Bytes(data) =>
      if !ValidAesKeyLength(|AlgorithmKey|) then Err(Text("crypto/aes: invalid key size"))
      else if |data| % BlockSize != 0 then Err(Text("invalid block size"))
      else Ok(CbcDecrypt(decrypt, InitVector, data))
    case other => Err(Hex.Error(other))
  }

  /** Drops as many trailing bytes as the last byte says; None where the
      source's indexing would go out of range (no data, or a count larger
      than the data). Only the last byte is consulted. */
  function Unpad(data: seq<byte>): (r: Option<seq<byte>>)
    ensures r.Some? <==> |data| > 0 && data[|data| - 1] as int <= |data|
    ensures r.Some? ==> r.value == data[..|data| - data[|data| - 1] as int]
  {
    if |data| == 0 then None
    else
      var unpad := data[|data| - 1] as int;
      if unpad > |data| then None else Some(data[..|data| - unpad])
  }

  datatype Decrypted = Plain(text: string) | Failed(err: Error) | Panicked(reason: string)

  /** DecryptKey exactly as written: the two out-of-range cases panic. */
  function DecryptKey(key: string, decrypt: Block -> Block): (r: Decrypted)
    ensures r.Failed? <==> Decipher(key, decrypt).Err?
    ensures r.Plain? ==> var data := Decipher(key, decrypt).value;
      |r.text| <= |data| && r.text == BytesToString(data[..|r.text|])
    ensures r.Plain? ==>
      && Decipher(key, decrypt).Ok? && Unpad(Decipher(key, decrypt).value).Some?
      && r.text == BytesToString(Unpad(Decipher(key, decrypt).value).value)
    ensures r.Panicked? <==> Decipher(key, decrypt).Ok? && Unpad(Decipher(key, decrypt).value).None?
  {
    match Decipher(key, decrypt)
    case Err(e) => Failed(e)
    case Ok(data) =>
      if |data| == 0 then Panicked("runtime error: index out of range [-1]")
      else match Unpad(data)
        case None => Panicked("runtime error: slice bounds out of range")
        case Some(p) => Plain(BytesToString(p))
  }

  /** DecryptKey as evidently intended: the same steps, with the two
      out-of-range cases reported as an error instead of a panic. */
  function DecryptKeyChecked(key: string, decrypt: Block -> Block): (r: Decrypted)
    ensures !r.Panicked?
    ensures !Hex.Decode(key).Bytes? ==> r == Failed(Hex.Error(Hex.Decode(key)))
    ensures Hex.Decode(key).Bytes? && |Hex.Decode(key).bytes| % BlockSize != 0 ==>
              r == Failed(Text("invalid block size"))
    ensures r.Plain? ==> var data := Decipher(key, decrypt).value;
      |r.text| <= |data| && r.text == BytesToString(data[..|r.text|])
    ensures r.Plain? ==>
      && Decipher(key, decrypt).Ok? && Unpad(Decipher(key, decrypt).value).Some?
      && r.text == BytesToString(Unpad(Decipher(key, decrypt).value).value)
    ensures !DecryptKey(key, decrypt).Panicked? ==> r == DecryptKey(key, decrypt)
  {
    match Decipher(key, decrypt)
    case Err(e) => Failed(e)
    case Ok(data) =>
      match Unpad(data)
      case None => Failed(Text("invalid padding"))
      case Some(p) => Plain(BytesToString(p))
  }

  /** Unpadding undoes padding. */
  lemma UnpadPad(p: seq<byte>)
    ensures Unpad(Pad(p)) == Some(p)
  {
    var r := Pad(p);
    var n := 16 - |p| % 16;
    assert r[|r| - 1] == n as bv8;
    assert r[|r| - 1] as int == n;
    assert r[..|r| - n] == p;
  }

  /** The key a well-behaved client sends for payload `p`: PKCS#7-pad,
      CBC-encrypt under the fixed IV, hex-encode. */
  function ClientKey(encrypt: Block -> Block, p: seq<byte>): (key: string)
    ensures |key| >= 32
  {
    Hex.Encode(CbcEncrypt(encrypt, InitVector, Pad(p)))
  }

  /** Such a key decrypts to exactly the payload, in both definitions. */
  lemma DecryptKeyRoundTrip(encrypt: Block -> Block, decrypt: Block -> Block, p: seq<byte>)
    requires Inverse(encrypt, decrypt)
    ensures DecryptKey(ClientKey(encrypt, p), decrypt) == Plain(BytesToString(p))
    ensures DecryptKeyChecked(ClientKey(encrypt, p), decrypt) == Plain(BytesToString(p))
  {
    var c := CbcEncrypt(encrypt, InitVector, Pad(p));
    Hex.DecodeEncode(c);
    CbcRoundTrip(encrypt, decrypt, InitVector, Pad(p));
    UnpadPad(p);
  }

  /** Bytes strictly between the kept prefix and the last byte are never
      looked at: unlike PKCS#7, padding such as [.., 9, 2] is accepted. */
  lemma PaddingBytesIgnored(d: seq<byte>, e: seq<byte>)
    requires |d| == |e| > 0
    requires d[|d| - 1] == e[|e| - 1] && d[|d| - 1] as int <= |d|
    requires d[..|d| - d[|d| - 1] as int] == e[..|e| - e[|e| - 1] as int]
    ensures Unpad(d) == Unpad(e) && Unpad(d).Some?
  {
  }

  /** As written, DecryptKey panics on the empty key, and on the hex key of
      any single block whose decryption ends in a byte larger than 16; the
      checked definition reports both as errors. */
  lemma DecryptKeyPanics(encrypt: Block -> Block, decrypt: Block -> Block, b: Block)
    requires Inverse(encrypt, decrypt)
    requires b[15] as int > 16
    ensures DecryptKey("", decrypt).Panicked?
    ensures var key := Hex.Encode(CbcEncrypt(encrypt, InitVector, b));
      DecryptKey(key, decrypt).Panicked? && DecryptKeyChecked(key, decrypt).Failed?
  {
    var c := CbcEncrypt(encrypt, InitVector, b);
    Hex.DecodeEncode(c);
    CbcRoundTrip(encrypt, decrypt, InitVector, b);
  }
}
