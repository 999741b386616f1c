/** The obfuscated credentials: a fixed XOR pad, then standard base64. */
module Obf {
  import opened Wrappers
  import opened Base64

  const KEY: Bytes := [
    0x4d, 0x65, 0x72, 0x6f, 0x6e, 0x2d, 0x6f, 0x61,
    0x75, 0x74, 0x68, 0x2d, 0x76, 0x31, 0x9a, 0x3c]

  function Padded(b: Bytes): (r: Bytes)
    ensures |r| == |b|
    ensures forall i | 0 <= i < |b| :: r[i] == b[i] ^ KEY[i % |KEY|]
  {
    seq(|b|, i requires 0 <= i < |b| => b[i] ^ KEY[i % |KEY|])
  }

  lemma PaddedTwice(b: Bytes)
    ensures Padded(Padded(b)) == b
  {
    forall i | 0 <= i < |b| ensures Padded(Padded(b))[i] == b[i] {
      XorTwice(b[i], KEY[i % |KEY|]);
    }
  }

  lemma XorTwice(x: bv8, k: bv8)
    ensures (x ^ k) ^ k == x
  {}

  function Blob(plain: Bytes): Bytes {
    Base64.Encode(Padded(plain), StdEncoding)
  }

  /** What a blob stands for; a malformed one stands for nothing. */
  function Plain(blob: Bytes): Bytes {
    var b := Base64.Decode(blob, StdEncoding);
    if b.None? then [] else Padded(b.value)
  }

  method Xor(b: array<bv8>)
    modifies b
    ensures b[..] == Padded(old(b[..]))
  {
    for i := 0 to b.Length
      invariant forall j | 0 <= j < i :: b[j] == old(b[j]) ^ KEY[j % |KEY|]
      invariant forall j | i <= j < b.Length :: b[j] == old(b[j])
    {
      b[i] := b[i] ^ KEY[i % |KEY|];
    }
  }

  method Encode(plain: Bytes) returns (blob: Bytes)
    ensures blob == Blob(plain)
  {
    var b := new bv8[|plain|](i requires 0 <= i < |plain| => plain[i]);
    assert b[..] == plain;
    Xor(b);
    blob := Base64.Encode(b[..], StdEncoding);
  }

  method Decode(blob: Bytes) returns (plain: Bytes)
    ensures plain == Plain(blob)
  {
    if blob == [] {
      return [];
    }
    var decoded := Base64.Decode(blob, StdEncoding);
    if decoded.None? {
      return [];
    }
    var b := new bv8[|decoded.value|](i requires 0 <= i < |decoded.value| => decoded.value[i]);
    assert b[..] == decoded.value;
    Xor(b);
    plain := b[..];
  }

  /** Every value comes back from its blob, the empty one included, so no two values share a blob. */
  lemma RoundTrip(plain: Bytes)
    ensures Plain(Blob(plain)) == plain
  {
    Base64.RoundTrip(Padded(plain), StdEncoding);
    PaddedTwice(plain);
  }

  /** One blob in full: `LA==` for the letter `a`. */
  lemma OneBlob()
    ensures Blob([0x61]) == [0x4c, 0x41, 0x3d, 0x3d]
  {
    assert Padded([0x61]) == [0x2c];
  }
}
