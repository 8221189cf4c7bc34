/** The bytes that test/tlv/TestTlvCodec.js wants of the writer, value by value. */
module TlvVectors {
  import opened Bytes
  import opened Tlv
  import opened TlvCodec
  import opened TlvPrinter

  lemma LittleEnd(n: nat)
    ensures ToLE(n, 1) == [n % 256] && ToLE(n, 2) == [n % 256, n / 0x100 % 256]
    ensures ToLE(n, 4) == [n % 256, n / 0x100 % 256, n / 0x1_0000 % 256, n / 0x100_0000 % 256]
    ensures ToLE(n, 8) == ToLE(n, 4) + ToLE(n / 0x1_0000_0000, 4)
  {
    assert ToLE(n / 256 / 256, 0) == [] && ToLE(n / 256, 0) == [];
    assert ToLE(n / 256, 1) == [n / 0x100 % 256];
    LittleEndOfFour(n);
    LittleEndOfEight(n);
  }

  lemma LittleEndOfFour(n: nat)
    ensures ToLE(n, 4) == [n % 256, n / 0x100 % 256, n / 0x1_0000 % 256, n / 0x100_0000 % 256]
  {
    assert ToLE(n / 0x100_0000, 0) == [];
    assert n / 0x100 / 0x100 == n / 0x1_0000 && n / 0x1_0000 / 0x100 == n / 0x100_0000;
    assert ToLE(n / 0x100_0000, 1) == [n / 0x100_0000 % 256];
    assert ToLE(n / 0x1_0000, 2) == [n / 0x1_0000 % 256, n / 0x100_0000 % 256];
    assert ToLE(n / 0x100, 3) == [n / 0x100 % 256, n / 0x1_0000 % 256, n / 0x100_0000 % 256];
  }

  lemma LittleEndOfEight(n: nat)
    ensures ToLE(n, 8) == ToLE(n, 4) + ToLE(n / 0x1_0000_0000, 4)
  {
    LittleEndOfFour(n);
    var a, b, c, d := n / 0x100, n / 0x1_0000, n / 0x100_0000, n / 0x1_0000_0000;
    assert a / 0x100 == b && b / 0x100 == c && c / 0x100 == d;
    assert ToLE(c, 5) == [c % 256] + ToLE(d, 4);
    assert ToLE(b, 6) == [b % 256] + ToLE(c, 5);
    assert ToLE(a, 7) == [a % 256] + ToLE(b, 6);
    assert ToLE(n, 8) == [n % 256] + ToLE(a, 7);
  }

  /** A control byte without a tag. */
  lemma Untagged(typ: nat, len: nat)
    requires typ < 0x20 && (len > 1 ==> typ % 4 == 0) && WidthBits(len).Ok?
    ensures EncodeControlByte(typ, len, None, None) == Ok([typ + WidthBits(len).value])
  {
    assert EncodeTag(None, None) == Ok((TAG_ANONYMOUS, []));
    assert [typ + WidthBits(len).value + TAG_ANONYMOUS] + [] == [typ + WidthBits(len).value];
  }

  /** Control byte and low byte first. */
  lemma Unsigned(v: Value, n: nat, w: Width, payload: bytes)
    requires (v == Num(n) && n <= UINT32_MAX) || (v == Big(n) && n > UINT32_MAX)
    requires n < Pow256(w) && (w == 2 ==> n > UINT8_MAX) && (w == 4 ==> n > UINT16_MAX) && (w == 8 ==> n > UINT32_MAX)
    requires ToLE(n, w) == payload
    ensures PutScalar(v, None, None) == Ok([4 + WidthBits(w).value] + payload)
  {
    Pow256Values();
    Untagged(TYPE_UNSIGNED_INTEGER, w);
    assert EncodeUnsignedInt(v) == Ok(payload);
  }

  lemma Negative(n: int, w: Width, payload: bytes)
    requires n < 0 && 0 <= 2 * n + Pow256(w)
    requires (w == 2 ==> n < -0x80) && (w == 4 ==> n < -0x8000) && (w == 8 ==> n < -0x8000_0000)
    requires ToLE(n + Pow256(w), w) == payload
    ensures PutScalar(Num(n), None, None) == Ok([WidthBits(w).value] + payload)
  {
    Pow256Values();
    Untagged(TYPE_SIGNED_INTEGER, w);
    assert EncodeSignedInt(Num(n)) == Ok(payload);
  }

  lemma Zero()
    ensures PutScalar(Num(0), None, None) == Ok([0x04, 0x00])
  {
    hide PutScalar;
    hide ToLE;
    hide Pow256;
    Pow256Values();
    LittleEnd(0x0);
    assert ToLE(0x0, 1) == [0x00];
    Unsigned(Num(0), 0x0, 1, [0x00]);
    assert [0x04] + [0x00] == [0x04, 0x00];
  }

  lemma One()
    ensures PutScalar(Num(1), None, None) == Ok([0x04, 0x01])
  {
    hide PutScalar;
    hide ToLE;
    hide Pow256;
    Pow256Values();
    LittleEnd(0x1);
    assert ToLE(0x1, 1) == [0x01];
    Unsigned(Num(1), 0x1, 1, [0x01]);
    assert [0x04] + [0x01] == [0x04, 0x01];
  }

  lemma TwoBytes()
    ensures PutScalar(Num(0x0123), None, None) == Ok([0x05, 0x23, 0x01])
  {
    hide PutScalar;
    hide ToLE;
    hide Pow256;
    Pow256Values();
    LittleEnd(0x123);
    assert ToLE(0x123, 2) == [0x23, 0x01];
    Unsigned(Num(0x0123), 0x123, 2, [0x23, 0x01]);
    assert [0x05] + [0x23, 0x01] == [0x05, 0x23, 0x01];
  }

  lemma FourBytes()
    ensures PutScalar(Num(0x0123_4567), None, None) == Ok([0x06, 0x67, 0x45, 0x23, 0x01])
  {
    hide PutScalar;
    hide ToLE;
    hide Pow256;
    Pow256Values();
    LittleEnd(0x1234567);
    assert ToLE(0x1234567, 4) == [0x67, 0x45, 0x23, 0x01];
    Unsigned(Num(0x0123_4567), 0x1234567, 4, [0x67, 0x45, 0x23, 0x01]);
    assert [0x06] + [0x67, 0x45, 0x23, 0x01] == [0x06, 0x67, 0x45, 0x23, 0x01];
  }

  lemma EightBytes()
    ensures PutScalar(Big(0x0011_2233_4455_6677), None, None)
            == Ok([0x07, 0x77, 0x66, 0x55, 0x44, 0x33, 0x22, 0x11, 0x00])
  {
    hide PutScalar;
    hide ToLE;
    hide Pow256;
    Pow256Values();
    LittleEnd(0x11223344556677);
    LittleEndOfFour(0x112233);
    assert ToLE(0x11223344556677, 8) == [0x77, 0x66, 0x55, 0x44, 0x33, 0x22, 0x11, 0x00];
    Unsigned(Big(0x0011_2233_4455_6677), 0x11223344556677, 8, [0x77, 0x66, 0x55, 0x44, 0x33, 0x22, 0x11, 0x00]);
    assert [0x07] + [0x77, 0x66, 0x55, 0x44, 0x33, 0x22, 0x11, 0x00]
        == [0x07, 0x77, 0x66, 0x55, 0x44, 0x33, 0x22, 0x11, 0x00];
  }

  lemma Largest()
    ensures PutScalar(Big(0xFFFF_FFFF_FFFF_FFFF), None, None)
            == Ok([0x07, 0xFF, 0xFF, 0xFF, 0xFF, 0xFF, 0xFF, 0xFF, 0xFF])
  {
    hide PutScalar;
    hide ToLE;
    hide Pow256;
    Pow256Values();
    LittleEnd(0xFFFFFFFFFFFFFFFF);
    LittleEndOfFour(0xFFFFFFFF);
    assert ToLE(0xFFFFFFFFFFFFFFFF, 8) == [0xFF, 0xFF, 0xFF, 0xFF, 0xFF, 0xFF, 0xFF, 0xFF];
    Unsigned(Big(0xFFFF_FFFF_FFFF_FFFF), 0xFFFFFFFFFFFFFFFF, 8, [0xFF, 0xFF, 0xFF, 0xFF, 0xFF, 0xFF, 0xFF, 0xFF]);
    assert [0x07] + [0xFF, 0xFF, 0xFF, 0xFF, 0xFF, 0xFF, 0xFF, 0xFF]
        == [0x07, 0xFF, 0xFF, 0xFF, 0xFF, 0xFF, 0xFF, 0xFF, 0xFF];
  }

  lemma MinusOne()
    ensures PutScalar(Num(-1), None, None) == Ok([0x00, 0xFF])
  {
    hide PutScalar;
    hide ToLE;
    hide Pow256;
    Pow256Values();
    LittleEnd(0xFF);
    assert ToLE(0xFF, 1) == [0xFF];
    Negative(-1, 1, [0xFF]);
    assert [0x00] + [0xFF] == [0x00, 0xFF];
  }

  lemma MinusThousand()
    ensures PutScalar(Num(-1000), None, None) == Ok([0x01, 0x18, 0xFC])
  {
    hide PutScalar;
    hide ToLE;
    hide Pow256;
    Pow256Values();
    LittleEnd(0xFC18);
    assert ToLE(0xFC18, 2) == [0x18, 0xFC];
    Negative(-1000, 2, [0x18, 0xFC]);
    assert [0x01] + [0x18, 0xFC] == [0x01, 0x18, 0xFC];
  }

  lemma MinusHundredThousand()
    ensures PutScalar(Num(-100000), None, None) == Ok([0x02, 0x60, 0x79, 0xFE, 0xFF])
  {
    hide PutScalar;
    hide ToLE;
    hide Pow256;
    Pow256Values();
    LittleEnd(0xFFFE7960);
    assert ToLE(0xFFFE7960, 4) == [0x60, 0x79, 0xFE, 0xFF];
    Negative(-100000, 4, [0x60, 0x79, 0xFE, 0xFF]);
    assert [0x02] + [0x60, 0x79, 0xFE, 0xFF] == [0x02, 0x60, 0x79, 0xFE, 0xFF];
  }

  lemma MinusBillions()
    ensures PutScalar(Num(-1000000000000), None, None) == Ok([0x03, 0x00, 0xF0, 0x5A, 0x2B, 0x17, 0xFF, 0xFF, 0xFF])
  {
    hide PutScalar;
    hide ToLE;
    hide Pow256;
    Pow256Values();
    LittleEnd(0xFFFFFF172B5AF000);
    LittleEndOfFour(0xFFFFFF17);
    assert ToLE(0xFFFFFF172B5AF000, 8) == [0x00, 0xF0, 0x5A, 0x2B, 0x17, 0xFF, 0xFF, 0xFF];
    Negative(-1000000000000, 8, [0x00, 0xF0, 0x5A, 0x2B, 0x17, 0xFF, 0xFF, 0xFF]);
    assert [0x03] + [0x00, 0xF0, 0x5A, 0x2B, 0x17, 0xFF, 0xFF, 0xFF]
        == [0x03, 0x00, 0xF0, 0x5A, 0x2B, 0x17, 0xFF, 0xFF, 0xFF];
  }

  /** Integers, in the least width, low byte first. */
  lemma Integers()
    ensures PutScalar(Num(0), None, None) == Ok([0x04, 0x00])
    ensures PutScalar(Num(1), None, None) == Ok([0x04, 0x01])
    ensures PutScalar(Num(0x0123), None, None) == Ok([0x05, 0x23, 0x01])
    ensures PutScalar(Num(0x0123_4567), None, None) == Ok([0x06, 0x67, 0x45, 0x23, 0x01])
    ensures PutScalar(Big(0x0011_2233_4455_6677), None, None)
            == Ok([0x07, 0x77, 0x66, 0x55, 0x44, 0x33, 0x22, 0x11, 0x00])
    ensures PutScalar(Big(0xFFFF_FFFF_FFFF_FFFF), None, None)
            == Ok([0x07, 0xFF, 0xFF, 0xFF, 0xFF, 0xFF, 0xFF, 0xFF, 0xFF])
    ensures PutScalar(Num(-1), None, None) == Ok([0x00, 0xFF])
    ensures PutScalar(Num(-1000), None, None) == Ok([0x01, 0x18, 0xFC])
    ensures PutScalar(Num(-100000), None, None) == Ok([0x02, 0x60, 0x79, 0xFE, 0xFF])
    ensures PutScalar(Num(-1000000000000), None, None) == Ok([0x03, 0x00, 0xF0, 0x5A, 0x2B, 0x17, 0xFF, 0xFF, 0xFF])
  {
    hide PutScalar;
    Zero();
    One();
    TwoBytes();
    FourBytes();
    EightBytes();
    Largest();
    MinusOne();
    MinusThousand();
    MinusHundredThousand();
    MinusBillions();
  }

  /** A payload without a length. */
  lemma Fixed(typ: nat)
    requires typ < 0x20
    ensures PutFixed(typ, [], None, None) == Ok([typ])
  {
    Untagged(typ, 0);
    assert [typ] + [] == [typ];
  }

  /** A length in one byte. */
  lemma Short(typ: nat, data: bytes)
    requires typ == TYPE_UTF8_STRING || typ == TYPE_BYTE_STRING
    requires |data| < 256
    ensures PutCounted(typ, |data|, data, None, None) == Ok([typ, |data|] + data)
  {
    Pow256Values();
    LittleEnd(|data|);
    Untagged(typ, 1);
    assert [typ] + [|data|] == [typ, |data|];
  }

  /** Booleans, null, a string and a buffer. */
  lemma OtherScalars()
    ensures PutScalar(Bool(false), None, None) == Ok([0x08])
    ensures PutScalar(Bool(true), None, None) == Ok([0x09])
    ensures PutScalar(Undefined, None, None) == Ok([0x14])
    ensures PutScalar(Str([0x68, 0x69]), None, None) == Ok([0x0C, 0x02, 0x68, 0x69])
    ensures PutScalar(Buf([1, 2, 3, 4]), None, None) == Ok([0x10, 0x04, 0x01, 0x02, 0x03, 0x04])
  {
    hide PutFixed;
    hide PutCounted;
    Fixed(TYPE_BOOLEAN_FALSE);
    Fixed(TYPE_BOOLEAN_TRUE);
    Fixed(TYPE_NULL);
    Short(TYPE_UTF8_STRING, [0x68, 0x69]);
    Short(TYPE_BYTE_STRING, [1, 2, 3, 4]);
    AsciiIsUtf8([0x68, 0x69]);
    LengthIsByteCountIffAscii([0x68, 0x69]);
    assert [TYPE_UTF8_STRING, 2] + [0x68, 0x69] == [0x0C, 0x02, 0x68, 0x69];
    assert [TYPE_BYTE_STRING, 4] + [1, 2, 3, 4] == [0x10, 0x04, 0x01, 0x02, 0x03, 0x04];
  }

  lemma NullUnder(tag: Option<int>, profile: Option<int>, control: nat, encoded: bytes)
    requires EncodeTag(tag, profile) == Ok((control, encoded)) && 0x14 + control < 256
    ensures PutScalar(Undefined, tag, profile) == Ok([0x14 + control] + encoded)
  {
    hide EncodeTag;
    assert [TYPE_NULL + control] + encoded + [] == [0x14 + control] + encoded;
  }

  lemma Numbers()
    ensures ToLE(0x1234, 2) == [0x34, 0x12] && ToLE(0x1234_5678, 4) == [0x78, 0x56, 0x34, 0x12]
    ensures ToLE(0xAABB_CCDD, 4) == [0xDD, 0xCC, 0xBB, 0xAA]
  {
    hide ToLE;
    LittleEnd(0x1234);
    LittleEnd(0x1234_5678);
    LittleEnd(0xAABB_CCDD);
  }

  /** Null under every form of tag. */
  lemma Tags()
    ensures PutScalar(Undefined, Some(1), None) == Ok([0x34, 0x01])
    ensures PutScalar(Undefined, Some(0x1234), Some(0)) == Ok([0x54, 0x34, 0x12])
    ensures PutScalar(Undefined, Some(0x1234_5678), Some(0)) == Ok([0x74, 0x78, 0x56, 0x34, 0x12])
    ensures PutScalar(Undefined, Some(0x1234), Some(-1)) == Ok([0x94, 0x34, 0x12])
    ensures PutScalar(Undefined, Some(0x1234_5678), Some(-1)) == Ok([0xB4, 0x78, 0x56, 0x34, 0x12])
    ensures PutScalar(Undefined, Some(0x1234), Some(0xAABB_CCDD)) == Ok([0xD4, 0xDD, 0xCC, 0xBB, 0xAA, 0x34, 0x12])
    ensures PutScalar(Undefined, Some(0x1234_5678), Some(0xAABB_CCDD))
            == Ok([0xF4, 0xDD, 0xCC, 0xBB, 0xAA, 0x78, 0x56, 0x34, 0x12])
  {
    hide PutScalar;
    hide ToLE;
    hide Pow256;
    Pow256Values();
    Numbers();
    assert ToLE(0xAABB_CCDD, 4) + ToLE(0x1234, 2) == [0xDD, 0xCC, 0xBB, 0xAA, 0x34, 0x12];
    assert ToLE(0xAABB_CCDD, 4) + ToLE(0x1234_5678, 4) == [0xDD, 0xCC, 0xBB, 0xAA, 0x78, 0x56, 0x34, 0x12];
    NullUnder(Some(1), None, 0x20, [0x01]);
    assert [0x34] + [0x01] == [0x34, 0x01];
    NullUnder(Some(0x1234), Some(0), 0x40, [0x34, 0x12]);
    assert [0x54] + [0x34, 0x12] == [0x54, 0x34, 0x12];
    NullUnder(Some(0x1234_5678), Some(0), 0x60, [0x78, 0x56, 0x34, 0x12]);
    assert [0x74] + [0x78, 0x56, 0x34, 0x12] == [0x74, 0x78, 0x56, 0x34, 0x12];
    NullUnder(Some(0x1234), Some(-1), 0x80, [0x34, 0x12]);
    assert [0x94] + [0x34, 0x12] == [0x94, 0x34, 0x12];
    NullUnder(Some(0x1234_5678), Some(-1), 0xA0, [0x78, 0x56, 0x34, 0x12]);
    assert [0xB4] + [0x78, 0x56, 0x34, 0x12] == [0xB4, 0x78, 0x56, 0x34, 0x12];
    NullUnder(Some(0x1234), Some(0xAABB_CCDD), 0xC0, [0xDD, 0xCC, 0xBB, 0xAA, 0x34, 0x12]);
    assert [0xD4] + [0xDD, 0xCC, 0xBB, 0xAA, 0x34, 0x12] == [0xD4, 0xDD, 0xCC, 0xBB, 0xAA, 0x34, 0x12];
    NullUnder(Some(0x1234_5678), Some(0xAABB_CCDD), 0xE0, [0xDD, 0xCC, 0xBB, 0xAA, 0x78, 0x56, 0x34, 0x12]);
    assert [0xF4] + [0xDD, 0xCC, 0xBB, 0xAA, 0x78, 0x56, 0x34, 0x12]
        == [0xF4, 0xDD, 0xCC, 0xBB, 0xAA, 0x78, 0x56, 0x34, 0x12];
  }

  /** Starts and ends of containers, and the code of a float. */
  lemma Containers(float: bytes)
    requires |float| == 4
    ensures EncodeElement(Element(None, None, Struct, Children([]))) == Ok([0x15, 0x18])
    ensures EncodeElement(Element(None, None, Array, Children([]))) == Ok([0x16, 0x18])
    ensures EncodeElement(Element(None, None, List, Children([]))) == Ok([0x17, 0x18])
    ensures EncodeElement(Element(None, None, Float, F32(float))) == Ok([0x0A] + float)
  {
    hide EncodeControlByte;
    Untagged(TYPE_STRUCTURE, 0);
    Untagged(TYPE_ARRAY, 0);
    Untagged(TYPE_LIST, 0);
    Untagged(TYPE_FLOAT, 0);
    assert [0x15] + [] + [TYPE_END] == [0x15, 0x18] && [0x16] + [] + [TYPE_END] == [0x16, 0x18];
    assert [0x17] + [] + [TYPE_END] == [0x17, 0x18];
    assert EncodeInner(Children([])) == Ok([]);
  }

  /** What JavaScript takes for false. */
  predicate Falsy(v: Value) {
    v == Undefined || v == Bool(false) || v == Num(0) || v == Big(0) || v == Str([])
    || (v.Dbl? && IsNaN64(v.bits)) || (v.F32? && (IsNaN32(v.bits) || FromLE(v.bits) % 0x8000_0000 == 0))
  }

  /** An element typed "boolean" is written as true for every value but these. */
  lemma BooleanIsTruth(v: Value)
    ensures EncodeElement(Element(None, None, Boolean, v)) == Ok([if Falsy(v) then 0x08 else 0x09])
  {
    hide PutFixed;
    hide FromLE;
    Fixed(TYPE_BOOLEAN_FALSE);
    Fixed(TYPE_BOOLEAN_TRUE);
  }

  /** No number: all exponent bits and some other. */
  lemma NaNBits(sign: nat, mantissa: nat)
    requires sign <= 1 && mantissa < 0x10_0000_0000_0000
    ensures var n := sign * 0x8000_0000_0000_0000 + 0x7FF0_0000_0000_0000 + mantissa;
            n < Pow256(8) && (IsNaN64(ToLE(n, 8)) <==> mantissa != 0)
  {
    Pow256Values();
    var n := sign * 0x8000_0000_0000_0000 + 0x7FF0_0000_0000_0000 + mantissa;
    FromToLE(n, 8);
    assert n == (sign * 0x800 + 0x7FF) * 0x10_0000_0000_0000 + mantissa;
  }
}
