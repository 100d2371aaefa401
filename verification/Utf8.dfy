/**
 Bytes, text and the strict UTF-8 codec (section 3 of RFC 3629) that stands between the two
 wherever the editor host calls `encode("utf-8")` or `decode("utf-8")`.
 Text is a sequence of Unicode scalar values.
 */
module Utf8 {
  import opened Wrappers

  type Byte = b: int | 0 <= b < 256
  type Bytes = seq<Byte>
  type Scalar = c: int | 0 <= c < 0xD800 || 0xE000 <= c <= 0x10FFFF
  type Text = seq<Scalar>

  function EncodeScalar(c: Scalar): (r: Bytes)
    ensures 1 <= |r| <= 4
  {
    if c < 0x80 then [c]
    else if c < 0x800 then [0xC0 + c / 64, 0x80 + c % 64]
    else if c < 0x10000 then [0xE0 + c / 64 / 64, 0x80 + c / 64 % 64, 0x80 + c % 64]
    else [0xF0 + c / 64 / 64 / 64, 0x80 + c / 64 / 64 % 64, 0x80 + c / 64 % 64, 0x80 + c % 64]
  }

  function Encode(t: Text): (r: Bytes) {
    if t == [] then [] else EncodeScalar(t[0]) + Encode(t[1..])
  }

  predicate Continuation(b: Byte) {
    0x80 <= b < 0xC0
  }

  function Low(b: Byte): int {
    b - 0x80
  }

  /** The code point of value `v`, unless it is a surrogate, out of range or overlong. */
  function Checked(v: int, least: nat, width: nat): Option<(Scalar, nat)> {
    if least <= v <= 0x10FFFF && !(0xD800 <= v < 0xE000)
    then var c: Scalar := v; Some((c, width))
    else None
  }

  /** Reads one scalar from the front of `b`, with the number of bytes it took. */
  function DecodeScalar(b: Bytes): Option<(Scalar, nat)>
    requires b != []
  {
    var lead: int := b[0];
    if lead < 0x80 then Checked(lead, 0, 1)
    else if lead < 0xC0 then None
    else if lead < 0xE0 then
      if |b| >= 2 && Continuation(b[1]) then
        Checked((lead - 0xC0) * 64 + Low(b[1]), 0x80, 2)
      else None
    else if lead < 0xF0 then
      if |b| >= 3 && Continuation(b[1]) && Continuation(b[2]) then
        Checked((lead - 0xE0) * 4096 + Low(b[1]) * 64 + Low(b[2]), 0x800, 3)
      else None
    else if lead < 0xF8 then
      if |b| >= 4 && Continuation(b[1]) && Continuation(b[2]) && Continuation(b[3]) then
        Checked((lead - 0xF0) * 262144 + Low(b[1]) * 4096 + Low(b[2]) * 64 + Low(b[3]), 0x10000, 4)
      else None
    else None
  }

  /** Strict decoding: `None` stands for UnicodeDecodeError. */
  function Decode(b: Bytes): (r: Option<Text>)
    decreases |b|
  {
    if b == [] then Some([])
    else match DecodeScalar(b)
      case None => None
      case Some((c, width)) =>
        if width > |b| then None
        else match Decode(b[width..])
          case None => None
          case Some(t) => Some([c] + t)
  }

  /** A base-64 digit splits off by division exactly as it was added by weighting. */
  lemma {:induction false} Digit(v: int, high: int, low: int)
    requires v == high * 64 + low && 0 <= low < 64
    ensures v / 64 == high && v % 64 == low
  {
  }

  lemma {:induction false} DecodeTwo(c: Scalar, rest: Bytes)
    requires 0x80 <= c < 0x800
    ensures DecodeScalar(EncodeScalar(c) + rest) == Some((c, 2))
  {
    var b := EncodeScalar(c) + rest;
    assert b[0] == 0xC0 + c / 64 && b[1] == 0x80 + c % 64;
  }

  lemma {:induction false} DecodeThree(c: Scalar, rest: Bytes)
    requires 0x800 <= c < 0x10000
    ensures DecodeScalar(EncodeScalar(c) + rest) == Some((c, 3))
  {
    var b := EncodeScalar(c) + rest;
    var high := c / 64;
    assert b[0] == 0xE0 + high / 64 && b[1] == 0x80 + high % 64 && b[2] == 0x80 + c % 64;
    assert c == high * 64 + c % 64 && high == high / 64 * 64 + high % 64;
  }

  lemma {:induction false} DecodeFour(c: Scalar, rest: Bytes)
    requires 0x10000 <= c
    ensures DecodeScalar(EncodeScalar(c) + rest) == Some((c, 4))
  {
    var b := EncodeScalar(c) + rest;
    var high := c / 64;
    var higher := high / 64;
    assert b[0] == 0xF0 + higher / 64 && b[1] == 0x80 + higher % 64;
    assert b[2] == 0x80 + high % 64 && b[3] == 0x80 + c % 64;
    assert c == high * 64 + c % 64 && high == higher * 64 + high % 64 && higher == higher / 64 * 64 + higher % 64;
  }

  lemma {:induction false} DecodeScalarOfEncode(c: Scalar, rest: Bytes)
    ensures DecodeScalar(EncodeScalar(c) + rest) == Some((c, |EncodeScalar(c)|))
  {
    if 0x80 <= c < 0x800 {
      DecodeTwo(c, rest);
    } else if 0x800 <= c < 0x10000 {
      DecodeThree(c, rest);
    } else if 0x10000 <= c {
      DecodeFour(c, rest);
    }
  }

  lemma {:induction false} EncodeScalarOfDecode(b: Bytes)
    requires b != [] && DecodeScalar(b).Some?
    ensures var (c, width) := DecodeScalar(b).value;
            width <= |b| && EncodeScalar(c) == b[..width]
  {
    var (c, width) := DecodeScalar(b).value;
    if width == 2 {
      Digit(c, b[0] - 0xC0, Low(b[1]));
    } else if width == 3 {
      var high := (b[0] - 0xE0) * 64 + Low(b[1]);
      Digit(c, high, Low(b[2]));
      Digit(high, b[0] - 0xE0, Low(b[1]));
    } else if width == 4 {
      var higher := (b[0] - 0xF0) * 64 + Low(b[1]);
      var high := higher * 64 + Low(b[2]);
      Digit(c, high, Low(b[3]));
      Digit(high, higher, Low(b[2]));
      Digit(higher, b[0] - 0xF0, Low(b[1]));
    }
  }

  /** Decoding undoes encoding. */
  lemma {:induction false} DecodeOfEncode(t: Text)
    ensures Decode(Encode(t)) == Some(t)
  {
    if t != [] {
      DecodeScalarOfEncode(t[0], Encode(t[1..]));
      assert Encode(t)[|EncodeScalar(t[0])|..] == Encode(t[1..]);
      DecodeOfEncode(t[1..]);
      assert [t[0]] + t[1..] == t;
    }
  }

  lemma {:induction false} EncodeCons(c: Scalar, t: Text)
    ensures Encode([c] + t) == EncodeScalar(c) + Encode(t)
  {
    assert ([c] + t)[1..] == t;
  }

  lemma {:induction false} DecodedHead(b: Bytes) returns (c: Scalar, width: nat)
    requires b != [] && Decode(b).Some?
    ensures 0 < width <= |b| && EncodeScalar(c) == b[..width]
    ensures Decode(b[width..]).Some? && Decode(b).value == [c] + Decode(b[width..]).value
  {
    EncodeScalarOfDecode(b);
    c, width := DecodeScalar(b).value.0, DecodeScalar(b).value.1;
  }

  /** Encoding undoes every decoding that succeeds. */
  lemma {:induction false} EncodeOfDecode(b: Bytes)
    requires Decode(b).Some?
    ensures Encode(Decode(b).value) == b
    decreases |b|
  {
    if b != [] {
      var c, width := DecodedHead(b);
      EncodeOfDecode(b[width..]);
      EncodeCons(c, Decode(b[width..]).value);
      assert b == b[..width] + b[width..];
    }
  }

  lemma {:induction false} EncodeConcat(s: Text, t: Text)
    ensures Encode(s + t) == Encode(s) + Encode(t)
  {
    if s == [] {
      assert s + t == t;
    } else {
      assert (s + t)[1..] == s[1..] + t;
      EncodeConcat(s[1..], t);
    }
  }

  // ----- character boundaries -----

  /** A character starts at `p`, or the bytes end there. */
  predicate Boundary(b: Bytes, p: nat)
    requires p <= |b|
  {
    p == |b| || !Continuation(b[p])
  }

  lemma {:induction false} DecodeStep(c: Scalar, rest: Bytes)
    ensures Decode(EncodeScalar(c) + rest).Some? <==> Decode(rest).Some?
    ensures Decode(rest).Some? ==> Decode(EncodeScalar(c) + rest).value == [c] + Decode(rest).value
  {
    DecodeScalarOfEncode(c, rest);
    assert (EncodeScalar(c) + rest)[|EncodeScalar(c)|..] == rest;
  }

  function Prepended(u: Text, r: Option<Text>): Option<Text> {
    if r.None? then None else Some(u + r.value)
  }

  lemma {:induction false} DecodeFirst(u: Text, rest: Bytes)
    requires u != []
    ensures Decode(Encode(u) + rest) == Prepended([u[0]], Decode(Encode(u[1..]) + rest))
  {
    assert Encode(u) + rest == EncodeScalar(u[0]) + (Encode(u[1..]) + rest);
    DecodeStep(u[0], Encode(u[1..]) + rest);
  }

  lemma {:induction false} PrependedTwice(u: Text, x: Option<Text>, y: Option<Text>, z: Option<Text>)
    requires u != [] && x == Prepended([u[0]], y) && y == Prepended(u[1..], z)
    ensures x == Prepended(u, z)
  {
    if z.Some? {
      assert [u[0]] + (u[1..] + z.value) == u + z.value;
    }
  }

  /** After encoded text, decoding is decoding the rest. */
  lemma {:induction false} DecodePrefix(u: Text, rest: Bytes)
    ensures Decode(Encode(u) + rest) == Prepended(u, Decode(rest))
  {
    if u == [] {
      assert Encode(u) + rest == rest;
      assert Decode(rest).Some? ==> u + Decode(rest).value == Decode(rest).value;
    } else {
      var x, y, z := Decode(Encode(u) + rest), Decode(Encode(u[1..]) + rest), Decode(rest);
      DecodeFirst(u, rest);
      DecodePrefix(u[1..], rest);
      PrependedTwice(u, x, y, z);
    }
  }

  lemma {:induction false} EncodeScalarShape(c: Scalar)
    ensures !Continuation(EncodeScalar(c)[0])
    ensures forall i | 1 <= i < |EncodeScalar(c)| :: Continuation(EncodeScalar(c)[i])
  {
  }

  /** A boundary past the start of one encoded scalar lies at or past its end. */
  lemma {:induction false} BoundaryPastFirst(first: Bytes, rest: Bytes, p: nat)
    requires first != [] && forall i | 1 <= i < |first| :: Continuation(first[i])
    requires 0 < p <= |first + rest| && Boundary(first + rest, p)
    ensures |first| <= p && Boundary(rest, p - |first|)
    ensures (first + rest)[..p] == first + rest[..p - |first|]
    ensures (first + rest)[p..] == rest[p - |first|..]
  {
    assert |first| <= p < |first + rest| ==> (first + rest)[p] == rest[p - |first|];
  }

  /** What the first character contributes, to the text and to each of its prefixes. */
  lemma {:induction false} FirstEncoded(t: Text) returns (first: Bytes)
    requires t != []
    ensures first != [] && forall i | 1 <= i < |first| :: Continuation(first[i])
    ensures Encode(t) == first + Encode(t[1..])
    ensures forall k | 1 <= k <= |t| :: Encode(t[..k]) == first + Encode(t[1..k])
  {
    first := EncodeScalar(t[0]);
    EncodeScalarShape(t[0]);
    forall k | 1 <= k <= |t|
      ensures Encode(t[..k]) == first + Encode(t[1..k])
    {
      assert t[..k][1..] == t[1..k];
    }
  }

  /** Encoded text can be cut at a boundary into two encoded texts. */
  lemma {:induction false} SplitAtBoundary(t: Text, p: nat) returns (k: nat)
    requires p <= |Encode(t)| && Boundary(Encode(t), p)
    ensures k <= |t| && Encode(t)[..p] == Encode(t[..k]) && Encode(t)[p..] == Encode(t[k..])
  {
    if p == 0 {
      k := 0;
      assert t[..0] == [] && t[0..] == t;
    } else {
      var first := FirstEncoded(t);
      BoundaryPastFirst(first, Encode(t[1..]), p);
      var rest := SplitAtBoundary(t[1..], p - |first|);
      k := rest + 1;
      assert t[1..k] == t[1..][..rest] && t[k..] == t[1..][rest..];
    }
  }
}
