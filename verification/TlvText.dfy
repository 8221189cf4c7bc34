/** Strings as what they are strings of: Unicode scalar values, in UTF-8 and in UTF-16 units. */
module Texts {
  import opened Bytes
  import opened Tlv

  /** A code point that is no surrogate. */
  predicate Scalar(c: nat) {
    c <= 0x10_FFFF && !(0xD800 <= c <= 0xDFFF)
  }

  predicate AllScalar(cs: seq<nat>) {
    forall i :: 0 <= i < |cs| ==> Scalar(cs[i])
  }

  /** RFC 3629, section 3. */
  function Encoded(c: nat): (b: bytes)
    requires Scalar(c)
    ensures b != []
  {
    if c < 0x80 then [c]
    else if c < 0x800 then [0xC0 + c / 0x40, 0x80 + c % 0x40]
    else if c < 0x1_0000 then [0xE0 + c / 0x1000, 0x80 + c / 0x40 % 0x40, 0x80 + c % 0x40]
    else [0xF0 + c / 0x4_0000, 0x80 + c / 0x1000 % 0x40, 0x80 + c / 0x40 % 0x40, 0x80 + c % 0x40]
  }

  function EncodedAll(cs: seq<nat>): bytes
    requires AllScalar(cs)
  {
    if cs == [] then [] else Encoded(cs[0]) + EncodedAll(cs[1..])
  }

  /** A surrogate pair for what lies beyond the first plane. */
  function Units(cs: seq<nat>): nat {
    if cs == [] then 0 else (if cs[0] >= 0x1_0000 then 2 else 1) + Units(cs[1..])
  }

  lemma ScalarIsSequence(c: nat)
    requires Scalar(c)
    ensures Complete(Encoded(c)) && Fitting(Encoded(c)) == |Encoded(c)|
    ensures |Encoded(c)| == 4 <==> c >= 0x1_0000
  {
  }

  lemma SequenceIsScalar(b: bytes) returns (c: nat)
    requires b != [] && Complete(b)
    ensures Scalar(c) && Encoded(c) == b[..Fitting(b)]
  {
    var n := Fitting(b);
    if n == 1 {
      c := b[0];
      assert b[..1] == [b[0]];
    } else if n == 2 {
      c := TwoBytes(b[0], b[1]);
      assert b[..2] == [b[0], b[1]];
    } else if n == 3 {
      c := ThreeBytes(b[0], b[1], b[2]);
      assert b[..3] == [b[0], b[1], b[2]];
    } else {
      c := FourBytes(b[0], b[1], b[2], b[3]);
      assert b[..4] == [b[0], b[1], b[2], b[3]];
    }
  }

  lemma TwoBytes(x: byte, y: byte) returns (c: nat)
    requires 0xC2 <= x < 0xE0 && IsContinuation(y)
    ensures Scalar(c) && Encoded(c) == [x, y]
  {
    c := 0x40 * (x - 0xC0) + (y - 0x80);
    Digits(x - 0xC0, y - 0x80);
  }

  lemma ThreeBytes(x: byte, y: byte, z: byte) returns (c: nat)
    requires 0xE0 <= x < 0xF0 && SecondFits(x, y) && IsContinuation(z)
    ensures Scalar(c) && Encoded(c) == [x, y, z]
  {
    var d := 0x40 * (x - 0xE0) + (y - 0x80);
    c := 0x40 * d + (z - 0x80);
    Digits(x - 0xE0, y - 0x80);
    Digits(d, z - 0x80);
    assert c / 0x1000 == d / 0x40;
  }

  lemma FourBytes(x: byte, y: byte, z: byte, w: byte) returns (c: nat)
    requires 0xF0 <= x < 0xF5 && SecondFits(x, y) && IsContinuation(z) && IsContinuation(w)
    ensures Scalar(c) && Encoded(c) == [x, y, z, w]
  {
    var d := 0x40 * (x - 0xF0) + (y - 0x80);
    var e := 0x40 * d + (z - 0x80);
    c := 0x40 * e + (w - 0x80);
    Digits(x - 0xF0, y - 0x80);
    Digits(d, z - 0x80);
    Digits(e, w - 0x80);
    assert c / 0x1000 == e / 0x40 == d && c / 0x4_0000 == d / 0x40;
  }

  lemma Digits(q: nat, r: nat)
    requires r < 0x40
    ensures (0x40 * q + r) / 0x40 == q && (0x40 * q + r) % 0x40 == r
  {
  }

  /** The encodings of scalar values are well-formed, and as long in UTF-16 as their units. */
  lemma {:induction false} ScalarsAreUtf8(cs: seq<nat>)
    requires AllScalar(cs)
    ensures Utf8(EncodedAll(cs)) && Utf16Length(EncodedAll(cs)) == Units(cs)
  {
    if cs != [] {
      ScalarsAreUtf8(cs[1..]);
      ScalarIsSequence(cs[0]);
      FirstSequence(Encoded(cs[0]), EncodedAll(cs[1..]));
    }
  }

  /** Nothing else is. */
  lemma {:induction false} Utf8IsScalars(b: bytes) returns (cs: seq<nat>)
    requires Utf8(b)
    ensures AllScalar(cs) && EncodedAll(cs) == b
    decreases |b|
  {
    if b == [] {
      cs := [];
    } else {
      var n := Fitting(b);
      var c := SequenceIsScalar(b);
      var more := Utf8IsScalars(b[n..]);
      cs := [c] + more;
      assert cs[1..] == more && b == b[..n] + b[n..];
    }
  }

  /** The strings of the model are the strings of scalar values. */
  lemma Utf8IffScalars(b: bytes)
    ensures Utf8(b) <==> exists cs :: AllScalar(cs) && EncodedAll(cs) == b
  {
    if Utf8(b) {
      var cs := Utf8IsScalars(b);
    }
    if cs :| AllScalar(cs) && EncodedAll(cs) == b {
      ScalarsAreUtf8(cs);
    }
  }
}
