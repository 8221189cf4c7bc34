/** Control bytes, tags and primitive values of src/tlv/TlvCodec.ts. */
module TlvCodec {
  import opened Bytes
  import opened Tlv

  const TYPE_SIGNED_INTEGER := 0x00
  const TYPE_UNSIGNED_INTEGER := 0x04
  const TYPE_BOOLEAN_FALSE := 0x08
  const TYPE_BOOLEAN_TRUE := 0x09
  const TYPE_FLOAT := 0x0A
  const TYPE_DOUBLE := 0x0B
  const TYPE_UTF8_STRING := 0x0C
  const TYPE_BYTE_STRING := 0x10
  const TYPE_NULL := 0x14
  const TYPE_STRUCTURE := 0x15
  const TYPE_ARRAY := 0x16
  const TYPE_LIST := 0x17
  const TYPE_END := 0x18

  const TAG_ANONYMOUS := 0x00
  const TAG_CONTEXT_SPECIFIC := 0x20
  const TAG_COMMON_2 := 0x40
  const TAG_COMMON_4 := 0x60
  const TAG_IMPLICIT_2 := 0x80
  const TAG_IMPLICIT_4 := 0xA0
  const TAG_FULLY_QUALIFIED_6 := 0xC0
  const TAG_FULLY_QUALIFIED_8 := 0xE0

  const UINT8_MAX := 0xFF
  const UINT16_MAX := 0xFFFF
  const UINT32_MAX := 0xFFFF_FFFF

  // ----- encoding

  function EncodeSignedInt(v: Value): Result<bytes> {
    match v
    case Undefined => Err(Thrown)
    case Num(_) | Big(_) =>
      if -0x80 <= v.n <= 0x7F then SignedBytes(v.n, 1)
      else if -0x8000 <= v.n <= 0x7FFF then SignedBytes(v.n, 2)
      else if -0x8000_0000 <= v.n <= 0x7FFF_FFFF then SignedBytes(v.n, 4)
      else if -0x8000_0000_0000_0000 <= v.n <= 0x7FFF_FFFF_FFFF_FFFF then SignedBytes(v.n, 8)
      else Err(Thrown)
    case _ => Err(OutsideModel)
  }

  /** `writeIntNLE`, which throws out of range. */
  function SignedBytes(n: int, k: nat): Result<bytes> {
    if 0 <= 2 * n + Pow256(k) && 2 * n < Pow256(k) then Ok(ToLESigned(n, k)) else Err(Thrown)
  }

  /** `writeUIntNLE`, which throws out of range. */
  function UnsignedBytes(n: int, k: nat): Result<bytes> {
    if 0 <= n < Pow256(k) then Ok(ToLE(n, k)) else Err(Thrown)
  }

  /** The three narrow writers accept numbers only, so a bigint that fits in 32 bits throws. */
  function EncodeUnsignedInt(v: Value): Result<bytes> {
    match v
    case Undefined => Err(Thrown)
    case Num(n) =>
      if n < 0 then Err(Thrown)
      else if n <= UINT8_MAX then UnsignedBytes(n, 1)
      else if n <= UINT16_MAX then UnsignedBytes(n, 2)
      else if n <= UINT32_MAX then UnsignedBytes(n, 4)
      else UnsignedBytes(n, 8)
    case Big(n) => if n <= UINT32_MAX then Err(Thrown) else UnsignedBytes(n, 8)
    case _ => Err(OutsideModel)
  }

  predicate CommonProfile(profile: int) {
    profile == 0 || profile == TAG_COMMON_2 || profile == TAG_COMMON_4
  }

  predicate ImplicitProfile(profile: int) {
    profile == -1 || profile == TAG_IMPLICIT_2 || profile == TAG_IMPLICIT_4
  }

  /** The bits that `lenOfLenOrVal` sets in the control byte. */
  function WidthBits(len: nat): Result<nat> {
    if len == 2 then Ok(1)
    else if len == 4 then Ok(2)
    else if len == 8 then Ok(3)
    else if len > 1 then Err(Thrown)
    else Ok(0)
  }

  /** A two-byte tag or a four-byte tag under the given tag controls. */
  function ScopedTag(tag: Option<int>, control2: nat, control4: nat): Result<(nat, bytes)> {
    match tag
    case None => Err(Thrown)
    case Some(t) =>
      if 0 <= t <= UINT16_MAX then Ok((control2, ToLE(t, 2)))
      else if UINT16_MAX < t <= UINT32_MAX then Ok((control4, ToLE(t, 4)))
      else Err(Thrown)
  }

  /** Tag control bits and tag bytes.  A fully qualified tag outside 32 bits sets no bits and writes nothing. */
  function EncodeTag(tag: Option<int>, profile: Option<int>): Result<(nat, bytes)> {
    match profile
    case None =>
      (match tag
       case None => Ok((TAG_ANONYMOUS, []))
       case Some(t) =>
         if t < 0 || t > UINT8_MAX then Err(Thrown) else Ok((TAG_CONTEXT_SPECIFIC, [t])))
    case Some(p) =>
      if CommonProfile(p) then ScopedTag(tag, TAG_COMMON_2, TAG_COMMON_4)
      else if ImplicitProfile(p) then ScopedTag(tag, TAG_IMPLICIT_2, TAG_IMPLICIT_4)
      else match tag
        case None => Err(Thrown)
        case Some(t) =>
          if 0 <= t <= UINT16_MAX then
            var head :- UnsignedBytes(p, 4);
            Ok((TAG_FULLY_QUALIFIED_6, head + ToLE(t, 2)))
          else if UINT16_MAX < t <= UINT32_MAX then
            var head :- UnsignedBytes(p, 4);
            Ok((TAG_FULLY_QUALIFIED_8, head + ToLE(t, 4)))
          else Ok((TAG_ANONYMOUS, []))
  }

  /** `encodeControlByte`.  The type, width and tag fields occupy disjoint bits, so `|=` is addition. */
  function EncodeControlByte(typ: nat, len: nat, tag: Option<int>, profile: Option<int>): Result<bytes>
    requires typ < 0x20 && (len > 1 ==> typ % 4 == 0)
  {
    var width :- WidthBits(len);
    var (control, encoded) :- EncodeTag(tag, profile);
    TagControlRange(tag, profile);
    Ok([typ + width + control] + encoded)
  }

  lemma TagControlRange(tag: Option<int>, profile: Option<int>)
    ensures EncodeTag(tag, profile).Ok? ==> EncodeTag(tag, profile).value.0 <= 0xE0
    ensures EncodeTag(tag, profile).Ok? ==> EncodeTag(tag, profile).value.0 % 0x20 == 0
  {
  }

  // ----- decoding

  /** `ElementTypes[typeNum]`. */
  function TypeNameOf(typ: nat): TypeName {
    match typ
    case 0x00 => Int(1)
    case 0x01 => Int(2)
    case 0x02 => Int(4)
    case 0x03 => Int(8)
    case 0x04 => UInt(1)
    case 0x05 => UInt(2)
    case 0x06 => UInt(4)
    case 0x07 => UInt(8)
    case 0x08 => Boolean
    case 0x09 => Boolean
    case 0x0A => Float
    case 0x0B => Double
    case 0x0C => StringLen(1)
    case 0x0D => StringLen(2)
    case 0x0E => StringLen(4)
    case 0x0F => StringLen(8)
    case 0x10 => BufferLen(1)
    case 0x11 => BufferLen(2)
    case 0x12 => BufferLen(4)
    case 0x13 => BufferLen(8)
    case 0x14 => Null
    case 0x15 => Struct
    case 0x16 => Array
    case 0x17 => List
    case 0x18 => EndOfCollection
    case _ => NoName
  }

  datatype DecodedTag = DecodedTag(tag: Option<int>, profile: Option<int>, length: nat)

  function ReadTag(tlv: bytes, profile: Option<int>, at: nat, width: nat): Result<DecodedTag> {
    if |tlv| < at + width then Err(Thrown)
    else Ok(DecodedTag(Some(FromLE(tlv[at..at + width])), profile, at + width))
  }

  function DecodeTagAndLength(tlv: bytes, control: nat): Result<DecodedTag> {
    if control == TAG_ANONYMOUS then Ok(DecodedTag(None, None, 0))
    else if control == TAG_CONTEXT_SPECIFIC then ReadTag(tlv, None, 0, 1)
    else if control == TAG_COMMON_2 then ReadTag(tlv, Some(0), 0, 2)
    else if control == TAG_COMMON_4 then ReadTag(tlv, Some(0), 0, 4)
    else if control == TAG_IMPLICIT_2 then ReadTag(tlv, Some(-1), 0, 2)
    else if control == TAG_IMPLICIT_4 then ReadTag(tlv, Some(-1), 0, 4)
    else if |tlv| < 4 then Err(Thrown)
    else ReadTag(tlv, Some(FromLE(tlv[..4])), 4, if control == TAG_FULLY_QUALIFIED_6 then 2 else 4)
  }

  datatype DecodedValue = DecodedValue(value: Value, length: nat)

  /** A 64-bit length is a bigint, which the post-processing step skips: it stays the value. */
  function ReadCounted(tlv: bytes, w: Width, text: bool): Result<DecodedValue> {
    if |tlv| < w then Err(Thrown)
    else if w == 8 then Ok(DecodedValue(Big(FromLE(tlv[..8])), 8))
    else
      var n := FromLE(tlv[..w]);
      var slice := Take(tlv, w, n);
      Ok(DecodedValue(if text then Str(Replaced(slice)) else Buf(slice), w + n))
  }

  function DecodeValueAndLength(tlv: bytes, typ: nat): Result<DecodedValue> {
    match TypeNameOf(typ)
    case Null => Ok(DecodedValue(Undefined, 0))
    case Boolean => Ok(DecodedValue(Bool(typ == TYPE_BOOLEAN_TRUE), 0))
    case StringLen(w) => ReadCounted(tlv, w, true)
    case BufferLen(w) => ReadCounted(tlv, w, false)
    case UInt(w) =>
      if |tlv| < w then Err(Thrown)
      else
        var n := FromLE(tlv[..w]);
        Ok(DecodedValue(if w == 8 then Big(n) else Num(n), w))
    case Int(w) =>
      if |tlv| < w then Err(Thrown)
      else
        var n := FromLESigned(tlv[..w]);
        Ok(DecodedValue(if w == 8 then Big(n) else Num(n), w))
    case Float => if |tlv| < 4 then Err(Thrown) else Ok(DecodedValue(F32(tlv[..4]), 4))
    case Double => if |tlv| < 8 then Err(Thrown) else Ok(DecodedValue(NumberOfDouble(tlv[..8]), 8))
    case Struct | Array | List => Ok(DecodedValue(Children([]), 0))
    case _ => Ok(DecodedValue(Undefined, 0))
  }

  /** One turn of the reader's loop: the element type number, the entry it builds and what is left. */
  datatype Head = Head(typ: nat, element: Element, rest: bytes)

  function ReadHead(tlv: bytes): (h: Result<Head>)
    requires tlv != []
    ensures h.Ok? ==> |h.value.rest| < |tlv|
  {
    HeadFrom(TypeField(tlv[0]), TagField(tlv[0]), tlv[1..])
  }

  /** `controlByte & 0x1F` */
  function TypeField(control: byte): nat {
    control % 0x20
  }

  /** `controlByte & 0xE0` */
  function TagField(control: byte): nat {
    control - control % 0x20
  }

  function HeadFrom(typ: nat, control: nat, tlv: bytes): (h: Result<Head>)
    ensures h.Ok? ==> |h.value.rest| <= |tlv|
    ensures h.Ok? ==> h.value.typ == typ && h.value.element.typ == TypeNameOf(typ)
  {
    var t :- DecodeTagAndLength(tlv, control);
    var afterTag := Skip(tlv, t.length);
    var v :- DecodeValueAndLength(afterTag, typ);
    Ok(Head(typ, Element(t.profile, t.tag, TypeNameOf(typ), v.value), Skip(afterTag, v.length)))
  }
}
