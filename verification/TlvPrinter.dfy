/** What src/tlv/TlvWriter.ts appends for one value, one element or a forest, as functions. */
module TlvPrinter {
  import opened Bytes
  import opened Tlv
  import opened TlvCodec

  function PutInteger(typ: nat, encoded: Result<bytes>, tag: Option<int>, profile: Option<int>): Result<bytes>
    requires typ < 0x20 && typ % 4 == 0
  {
    var value :- encoded;
    var head :- EncodeControlByte(typ, |value|, tag, profile);
    Ok(head + value)
  }

  function PutUnsignedInt(v: Value, tag: Option<int>, profile: Option<int>): Result<bytes> {
    PutInteger(TYPE_UNSIGNED_INTEGER, EncodeUnsignedInt(v), tag, profile)
  }

  function PutSignedInt(v: Value, tag: Option<int>, profile: Option<int>): Result<bytes> {
    PutInteger(TYPE_SIGNED_INTEGER, EncodeSignedInt(v), tag, profile)
  }

  /** Control byte and tag followed by a fixed-size payload; also a payload-free element. */
  function PutFixed(typ: nat, payload: bytes, tag: Option<int>, profile: Option<int>): Result<bytes>
    requires typ < 0x20
  {
    var head :- EncodeControlByte(typ, 0, tag, profile);
    Ok(head + payload)
  }

  function PutFloat(v: Value, tag: Option<int>, profile: Option<int>): Result<bytes> {
    if v.F32? && |v.bits| == 4 then PutFixed(TYPE_FLOAT, v.bits, tag, profile) else Err(OutsideModel)
  }

  function PutBoolean(b: bool, tag: Option<int>, profile: Option<int>): Result<bytes> {
    PutFixed(if b then TYPE_BOOLEAN_TRUE else TYPE_BOOLEAN_FALSE, [], tag, profile)
  }

  function PutNull(tag: Option<int>, profile: Option<int>): Result<bytes> {
    PutFixed(TYPE_NULL, [], tag, profile)
  }

  /** A length, then the data. */
  function PutCounted(typ: nat, length: nat, data: bytes, tag: Option<int>, profile: Option<int>): Result<bytes>
    requires typ < 0x20 && typ % 4 == 0
  {
    var counted :- PutInteger(typ, EncodeUnsignedInt(Num(length)), tag, profile);
    Ok(counted + data)
  }

  function PutBytes(data: bytes, tag: Option<int>, profile: Option<int>): Result<bytes> {
    PutCounted(TYPE_BYTE_STRING, |data|, data, tag, profile)
  }

  /** The length written is `val.length`, the number of UTF-16 units. */
  function PutString(utf8: bytes, tag: Option<int>, profile: Option<int>): Result<bytes> {
    if Utf8(utf8) then PutCounted(TYPE_UTF8_STRING, Utf16Length(utf8), utf8, tag, profile)
    else Err(OutsideModel)
  }

  /** `put` of anything but an array. */
  function PutScalar(v: Value, tag: Option<int>, profile: Option<int>): Result<bytes> {
    match v
    case Undefined => PutNull(tag, profile)
    case Str(s) => PutString(s, tag, profile)
    case Buf(d) => PutBytes(d, tag, profile)
    case Num(n) => if n < 0 then PutSignedInt(v, tag, profile) else PutUnsignedInt(v, tag, profile)
    case Big(n) => if n < 0 then PutSignedInt(v, tag, profile) else PutUnsignedInt(v, tag, profile)
    case Dbl(b) => if NonIntegral(b) then PutFixed(TYPE_DOUBLE, b, tag, profile) else Err(OutsideModel)
    case Bool(b) => PutBoolean(b, tag, profile)
    case F32(_) | Children(_) => Err(OutsideModel)
  }

  function ContainerCode(t: TypeName): nat
    requires IsContainer(t)
  {
    match t
    case Struct => TYPE_STRUCTURE
    case Array => TYPE_ARRAY
    case List => TYPE_LIST
  }

  /** `putStructStart`, `putArrayStart` or `putListStart`. */
  function PutStart(t: TypeName, tag: Option<int>, profile: Option<int>): Result<bytes>
    requires IsContainer(t)
  {
    EncodeControlByte(ContainerCode(t), 0, tag, profile)
  }

  function HexDigit(c: byte): Option<nat> {
    if 48 <= c <= 57 then Some(c - 48)
    else if 97 <= c <= 102 then Some(c - 87)
    else if 65 <= c <= 70 then Some(c - 55)
    else None
  }

  /** `Buffer.from(s, "hex")`: stops at the first pair that is not two hex digits. */
  function FromHex(s: bytes): bytes {
    if |s| < 2 || HexDigit(s[0]).None? || HexDigit(s[1]).None? then []
    else [16 * HexDigit(s[0]).value + HexDigit(s[1]).value] + FromHex(s[2..])
  }

  const LOWER := "0123456789abcdef"
  const UPPER := "0123456789ABCDEF"

  /** A digit of either case is its place among the digits. */
  lemma HexDigitIsPlace(c: byte, d: nat)
    ensures HexDigit(c) == Some(d) <==> d < 16 && (LOWER[d] as int == c || UPPER[d] as int == c)
  {
  }

  /** Pairs of digits are read, high digit first, up to the first that is none. */
  lemma {:induction false} FromHexReadsPairs(s: bytes)
    ensures var r := FromHex(s);
            && 2 * |r| <= |s|
            && (forall i :: 0 <= i < |r| ==> HexDigit(s[2 * i]).Some? && HexDigit(s[2 * i + 1]).Some?
                                             && r[i] / 16 == HexDigit(s[2 * i]).value
                                             && r[i] % 16 == HexDigit(s[2 * i + 1]).value)
            && (2 * |r| + 2 <= |s| ==> HexDigit(s[2 * |r|]).None? || HexDigit(s[2 * |r| + 1]).None?)
    decreases |s|
  {
    hide HexDigit;
    DigitsAreSmall();
    if |s| >= 2 && HexDigit(s[0]).Some? && HexDigit(s[1]).Some? {
      var r := FromHex(s);
      FromHexReadsPairs(s[2..]);
      forall i | 0 <= i < |r|
        ensures HexDigit(s[2 * i]).Some? && HexDigit(s[2 * i + 1]).Some?
                && r[i] / 16 == HexDigit(s[2 * i]).value && r[i] % 16 == HexDigit(s[2 * i + 1]).value
      {
        if i > 0 {
          assert r[i] == FromHex(s[2..])[i - 1];
          assert s[2..][2 * (i - 1)] == s[2 * i] && s[2..][2 * (i - 1) + 1] == s[2 * i + 1];
        }
      }
    }
  }

  lemma DigitsAreSmall()
    ensures forall c: byte :: HexDigit(c).Some? ==> HexDigit(c).value < 16
  {
  }

  /** The value a "Buffer" element hands to `put`. */
  function BufferOf(v: Value): Result<bytes> {
    match v
    case Str(s) => Ok(FromHex(s))
    case Buf(d) => Ok(d)
    case Children(_) => Err(OutsideModel)
    case _ => Err(Thrown)
  }

  function EncodeElement(e: Element): Result<bytes>
    decreases e, 1
  {
    match e.typ
    case Struct | Array | List =>
      var head :- PutStart(e.typ, e.tag, e.profile);
      var body :- EncodeInner(e.value);
      Ok(head + body + [TYPE_END])
    case Int(_) => PutSignedInt(e.value, e.tag, e.profile)
    case UInt(_) => PutUnsignedInt(e.value, e.tag, e.profile)
    case Float => PutFloat(e.value, e.tag, e.profile)
    case Boolean => PutBoolean(Truthy(e.value), e.tag, e.profile)
    case PlainBuffer =>
      var data :- BufferOf(e.value);
      PutBytes(data, e.tag, e.profile)
    case _ =>
      if e.value.Children? then EncodeForest(e.value.items)
      else PutScalar(e.value, e.tag, e.profile)
  }

  /** `encode(json['value'])` inside a container: an array is walked, a Buffer is an object with no `type`
      and no `value`, undefined has no properties, anything else is put anonymously. */
  function EncodeInner(v: Value): Result<bytes>
    decreases v, 1
  {
    match v
    case Children(items) => EncodeForest(items)
    case Undefined => Err(Thrown)
    case Buf(_) => PutNull(None, None)
    case _ => PutScalar(v, None, None)
  }

  function EncodeForest(es: Forest): Result<bytes>
    decreases es, 0
  {
    if es == [] then Ok([])
    else
      var first :- EncodeElement(es[0]);
      var others :- EncodeForest(es[1..]);
      Ok(first + others)
  }
}
