/** Base64 as Go's encoding/base64 writes and reads it (RFC 4648, sections 4 and 5). */
module Base64 {
  import opened Wrappers

  type Bytes = seq<bv8>

  const PAD: bv8 := 0x3d
  const CR: bv8 := 0x0d
  const LF: bv8 := 0x0a

  /** The standard alphabet with padding, or the one for URLs without. */
  datatype Encoding = StdEncoding | RawUrlEncoding

  function Letter(sextet: bv8, e: Encoding): bv8
    requires sextet < 64
  {
    if sextet < 26 then 0x41 + sextet
    else if sextet < 52 then 0x61 + (sextet - 26)
    else if sextet < 62 then 0x30 + (sextet - 52)
    else if sextet == 62 then (if e.StdEncoding? then 0x2b else 0x2d)
    else if e.StdEncoding? then 0x2f else 0x5f
  }

  function Sextet(letter: bv8, e: Encoding): Option<bv8> {
    if 0x41 <= letter <= 0x5a then Some(letter - 0x41)
    else if 0x61 <= letter <= 0x7a then Some(letter - 0x61 + 26)
    else if 0x30 <= letter <= 0x39 then Some(letter - 0x30 + 52)
    else if letter == (if e.StdEncoding? then 0x2b else 0x2d) then Some(62)
    else if letter == (if e.StdEncoding? then 0x2f else 0x5f) then Some(63)
    else None
  }

  lemma SextetOfLetter(sextet: bv8, e: Encoding)
    requires sextet < 64
    ensures Sextet(Letter(sextet, e), e) == Some(sextet)
    ensures Letter(sextet, e) !in {PAD, CR, LF}
  {}

  /** The four sextets of three bytes. */
  function First(a: bv8): bv8 { a >> 2 }
  function Second(a: bv8, b: bv8): bv8 { ((a & 3) << 4) | (b >> 4) }
  function Third(b: bv8, c: bv8): bv8 { ((b & 15) << 2) | (c >> 6) }
  function Fourth(c: bv8): bv8 { c & 63 }

  /** The three bytes of four sextets. */
  function Upper(w: bv8, x: bv8): bv8 { (w << 2) | (x >> 4) }
  function Middle(x: bv8, y: bv8): bv8 { (x << 4) | (y >> 2) }
  function Lower(y: bv8, z: bv8): bv8 { (y << 6) | z }

  lemma SextetsAreSmall(a: bv8, b: bv8, c: bv8)
    ensures First(a) < 64 && Second(a, b) < 64 && Third(b, c) < 64 && Fourth(c) < 64
  {}

  lemma BytesOfSextets(a: bv8, b: bv8, c: bv8)
    ensures Upper(First(a), Second(a, b)) == a
    ensures Middle(Second(a, b), Third(b, c)) == b
    ensures Lower(Third(b, c), Fourth(c)) == c
  {}

  function Quad(a: bv8, b: bv8, c: bv8, e: Encoding): (q: Bytes)
    ensures |q| == 4
  {
    SextetsAreSmall(a, b, c);
    [Letter(First(a), e), Letter(Second(a, b), e), Letter(Third(b, c), e), Letter(Fourth(c), e)]
  }

  function Encode(p: Bytes, e: Encoding): Bytes {
    if p == [] then []
    else if |p| == 1 then Quad(p[0], 0, 0, e)[..2] + (if e.StdEncoding? then [PAD, PAD] else [])
    else if |p| == 2 then Quad(p[0], p[1], 0, e)[..3] + (if e.StdEncoding? then [PAD] else [])
    else Quad(p[0], p[1], p[2], e) + Encode(p[3..], e)
  }

  /** Line ends are ignored wherever they stand. */
  function Unbroken(t: Bytes): Bytes {
    if t == [] then []
    else (if t[0] == CR || t[0] == LF then [] else [t[0]]) + Unbroken(t[1..])
  }

  /** The last two or three letters, whose surplus bits are not looked at. */
  function DecodeTail(t: Bytes, e: Encoding): Option<Bytes>
    requires 2 <= |t| <= 3
  {
    var w, x := Sextet(t[0], e), Sextet(t[1], e);
    if w.None? || x.None? then None
    else if |t| == 2 then Some([Upper(w.value, x.value)])
    else
      var y := Sextet(t[2], e);
      if y.None? then None else Some([Upper(w.value, x.value), Middle(x.value, y.value)])
  }

  function DecodeQuad(t: Bytes, e: Encoding): Option<Bytes>
    requires |t| == 4
  {
    var tail := DecodeTail(t[..3], e);
    var z := Sextet(t[3], e);
    if tail.None? || z.None? then None else Some(tail.value + [Lower(Sextet(t[2], e).value, z.value)])
  }

  function DecodeQuads(t: Bytes, e: Encoding): Option<Bytes> {
    if t == [] then Some([])
    else if |t| < 4 then
      if e.RawUrlEncoding? && |t| >= 2 then DecodeTail(t, e) else None
    else if e.StdEncoding? && |t| == 4 && t[3] == PAD then
      DecodeTail(if t[2] == PAD then t[..2] else t[..3], e)
    else
      var bytes := DecodeQuad(t[..4], e);
      if bytes.None? then None
      else
        var rest := DecodeQuads(t[4..], e);
        if rest.None? then None else Some(bytes.value + rest.value)
  }

  function Decode(t: Bytes, e: Encoding): Option<Bytes> {
    DecodeQuads(Unbroken(t), e)
  }

  lemma QuadDecodes(a: bv8, b: bv8, c: bv8, e: Encoding)
    ensures DecodeQuad(Quad(a, b, c, e), e) == Some([a, b, c])
    ensures DecodeTail(Quad(a, b, c, e)[..3], e) == Some([a, b])
    ensures DecodeTail(Quad(a, b, c, e)[..2], e) == Some([a])
    ensures forall i | 0 <= i < 4 :: Quad(a, b, c, e)[i] !in {PAD, CR, LF}
  {
    SextetsAreSmall(a, b, c);
    BytesOfSextets(a, b, c);
    SextetOfLetter(First(a), e);
    SextetOfLetter(Second(a, b), e);
    SextetOfLetter(Third(b, c), e);
    SextetOfLetter(Fourth(c), e);
    hide First, Second, Third, Fourth, Upper, Middle, Lower, Letter, Sextet;
    var q := Quad(a, b, c, e);
    assert q[..3][0] == q[0] && q[..3][1] == q[1] && q[..3][2] == q[2];
    assert q[..2][0] == q[0] && q[..2][1] == q[1];
    assert [a, b] + [c] == [a, b, c];
  }

  lemma {:induction false} UnbrokenStays(t: Bytes)
    requires forall i | 0 <= i < |t| :: t[i] != CR && t[i] != LF
    ensures Unbroken(t) == t
  {
    if t != [] { UnbrokenStays(t[1..]); }
  }

  lemma {:induction false} EncodeIsUnbroken(p: Bytes, e: Encoding)
    ensures forall i | 0 <= i < |Encode(p, e)| :: Encode(p, e)[i] != CR && Encode(p, e)[i] != LF
  {
    hide Quad;
    if |p| == 1 { QuadDecodes(p[0], 0, 0, e); }
    else if |p| == 2 { QuadDecodes(p[0], p[1], 0, e); }
    else if |p| > 2 {
      QuadDecodes(p[0], p[1], p[2], e);
      EncodeIsUnbroken(p[3..], e);
    }
  }

  lemma {:induction false} QuadsDecode(p: Bytes, e: Encoding)
    ensures DecodeQuads(Encode(p, e), e) == Some(p)
  {
    hide Quad, DecodeQuad, DecodeTail;
    var t := Encode(p, e);
    if |p| == 1 {
      QuadDecodes(p[0], 0, 0, e);
      var q := Quad(p[0], 0, 0, e);
      assert e.RawUrlEncoding? ==> t == q[..2];
      assert e.StdEncoding? ==> t[..2] == q[..2];
      assert p == [p[0]];
    } else if |p| == 2 {
      QuadDecodes(p[0], p[1], 0, e);
      var q := Quad(p[0], p[1], 0, e);
      assert e.RawUrlEncoding? ==> t == q[..3];
      assert e.StdEncoding? ==> t[..3] == q[..3] && t[2] == q[2];
      assert p == [p[0], p[1]];
    } else if |p| > 2 {
      var q := Quad(p[0], p[1], p[2], e);
      QuadDecodes(p[0], p[1], p[2], e);
      QuadsDecode(p[3..], e);
      assert t[..4] == q && t[4..] == Encode(p[3..], e);
      assert t[3] == q[3];
      assert p == [p[0], p[1], p[2]] + p[3..];
    }
  }

  /** Every byte string comes back from either encoding. */
  lemma RoundTrip(p: Bytes, e: Encoding)
    ensures Decode(Encode(p, e), e) == Some(p)
  {
    EncodeIsUnbroken(p, e);
    UnbrokenStays(Encode(p, e));
    QuadsDecode(p, e);
  }

  lemma QuadHasOnlyLetters(a: bv8, b: bv8, c: bv8, e: Encoding)
    ensures forall i | 0 <= i < 4 :: Sextet(Quad(a, b, c, e)[i], e).Some?
  {
    SextetsAreSmall(a, b, c);
    SextetOfLetter(First(a), e);
    SextetOfLetter(Second(a, b), e);
    SextetOfLetter(Third(b, c), e);
    SextetOfLetter(Fourth(c), e);
    hide First, Second, Third, Fourth, Letter, Sextet;
  }

  /** The URL form has no byte but the letters of its alphabet. */
  lemma {:induction false} UrlFormHasOnlyLetters(p: Bytes)
    ensures forall i | 0 <= i < |Encode(p, RawUrlEncoding)| :: Sextet(Encode(p, RawUrlEncoding)[i], RawUrlEncoding).Some?
  {
    hide Quad, Sextet;
    if |p| == 1 { QuadHasOnlyLetters(p[0], 0, 0, RawUrlEncoding); }
    else if |p| == 2 { QuadHasOnlyLetters(p[0], p[1], 0, RawUrlEncoding); }
    else if |p| > 2 {
      QuadHasOnlyLetters(p[0], p[1], p[2], RawUrlEncoding);
      UrlFormHasOnlyLetters(p[3..]);
    }
  }

  /** The two alphabets and the padding, at test vectors of section 10 of RFC 4648 and at the letters they differ in. */
  lemma Vectors()
    ensures Encode([0x66, 0x6f, 0x6f], StdEncoding) == [0x5a, 0x6d, 0x39, 0x76]
    ensures Encode([0x66], StdEncoding) == [0x5a, 0x67, 0x3d, 0x3d]
    ensures Encode([0x66, 0x6f], RawUrlEncoding) == [0x5a, 0x6d, 0x38]
    ensures Encode([0xfb, 0xff, 0xbf], StdEncoding) == [0x2b, 0x2f, 0x2b, 0x2f]
    ensures Encode([0xfb, 0xff, 0xbf], RawUrlEncoding) == [0x2d, 0x5f, 0x2d, 0x5f]
  {}

  lemma {:induction false} UnbrokenJoins(a: Bytes, b: Bytes)
    ensures Unbroken(a + b) == Unbroken(a) + Unbroken(b)
  {
    if a == [] {
      assert a + b == b;
    } else {
      assert (a + b)[1..] == a[1..] + b;
      UnbrokenJoins(a[1..], b);
    }
  }

  /** Line ends do not count, wherever they stand. */
  lemma LineEndsDoNotCount(a: Bytes, b: Bytes, e: Encoding)
    ensures Decode(a + [0x0d] + b, e) == Decode(a + b, e) == Decode(a + [0x0a] + b, e)
  {
    UnbrokenJoins(a, b);
    UnbrokenJoins(a + [0x0d], b);
    UnbrokenJoins(a, [0x0d]);
    UnbrokenJoins(a + [0x0a], b);
    UnbrokenJoins(a, [0x0a]);
    assert Unbroken([0x0d]) == [] && Unbroken([0x0a]) == [];
    assert Unbroken(a) + [] == Unbroken(a);
  }
}
