/** Decoding what the writer wrote: for which forests it gives them back, and in which normal form. */
module TlvRoundTrip {
  import opened Bytes
  import opened Tlv
  import opened TlvCodec
  import opened TlvGrammar
  import opened TlvPrinter

  // ----- the normal form

  /** Profile aliases fold to 0 (common) and -1 (implicit). */
  function NormProfile(profile: Option<int>): Option<int> {
    match profile
    case None => None
    case Some(p) => if CommonProfile(p) then Some(0) else if ImplicitProfile(p) then Some(-1) else profile
  }

  function UnsignedWidth(n: int): Width {
    if n <= UINT8_MAX then 1 else if n <= UINT16_MAX then 2 else if n <= UINT32_MAX then 4 else 8
  }

  function SignedWidth(n: int): Width {
    if -0x80 <= n <= 0x7F then 1
    else if -0x8000 <= n <= 0x7FFF then 2
    else if -0x8000_0000 <= n <= 0x7FFF_FFFF then 4
    else 8
  }

  /** Type name and value of a scalar as the reader reports them: least width, 64-bit integers as bigints. */
  datatype Scalar = Scalar(typ: TypeName, value: Value)

  function NormUnsigned(n: int): Scalar {
    Scalar(UInt(UnsignedWidth(n)), if UnsignedWidth(n) == 8 then Big(n) else Num(n))
  }

  function NormSigned(n: int): Scalar {
    Scalar(Int(SignedWidth(n)), if SignedWidth(n) == 8 then Big(n) else Num(n))
  }

  function NormInteger(n: int): Scalar {
    if n < 0 then NormSigned(n) else NormUnsigned(n)
  }

  function NormBytes(data: bytes): Scalar {
    Scalar(BufferLen(UnsignedWidth(|data|)), Buf(data))
  }

  function NormScalar(v: Value): Scalar {
    match v
    case Str(s) => Scalar(StringLen(UnsignedWidth(|s|)), v)
    case Buf(d) => NormBytes(d)
    case Num(n) => NormInteger(n)
    case Big(n) => NormInteger(n)
    case Dbl(_) => Scalar(Double, v)
    case Bool(_) => Scalar(Boolean, v)
    case Undefined | F32(_) | Children(_) => Scalar(Null, Undefined)
  }

  function NumberIn(v: Value): int {
    if v.Num? || v.Big? then v.n else 0
  }

  /** The scalar that `encode` writes for an element that is not a container. */
  function NormTyped(e: Element): Scalar {
    match e.typ
    case Int(_) => NormSigned(NumberIn(e.value))
    case UInt(_) => NormUnsigned(NumberIn(e.value))
    case Float => Scalar(Float, e.value)
    case Boolean => Scalar(Boolean, Bool(Truthy(e.value)))
    case PlainBuffer => NormBytes(if BufferOf(e.value).Ok? then BufferOf(e.value).value else [])
    case _ => NormScalar(e.value)
  }

  /** An array under a name that is no container's is spliced into the enclosing forest. */
  predicate Spliced(e: Element) {
    e.value.Children?
    && !(IsContainer(e.typ) || e.typ.Int? || e.typ.UInt? || e.typ.Float? || e.typ.Boolean? || e.typ.PlainBuffer?)
  }

  function NormElement(e: Element): Forest
    decreases e, 1
  {
    if IsContainer(e.typ) then
      [Element(NormProfile(e.profile), e.tag, e.typ, Children(NormInner(e.value)))]
    else if Spliced(e) then NormForest(e.value.items)
    else [Element(NormProfile(e.profile), e.tag, NormTyped(e).typ, NormTyped(e).value)]
  }

  function NormInner(v: Value): Forest
    decreases v, 1
  {
    match v
    case Children(items) => NormForest(items)
    case Buf(_) => [Element(None, None, Null, Undefined)]
    case _ => [Element(None, None, NormScalar(v).typ, NormScalar(v).value)]
  }

  function NormForest(es: Forest): Forest
    decreases es, 0
  {
    if es == [] then [] else NormElement(es[0]) + NormForest(es[1..])
  }

  // ----- when nothing is lost

  /** A fully qualified tag must fit in 32 bits. */
  predicate TagFits(tag: Option<int>, profile: Option<int>) {
    profile.Some? && !CommonProfile(profile.value) && !ImplicitProfile(profile.value) && tag.Some?
    ==> 0 <= tag.value <= UINT32_MAX
  }

  /** Strings must be ASCII, and strings and buffers shorter than 2^32. */
  predicate ScalarFits(v: Value) {
    match v
    case Str(s) => Ascii(s) && |s| <= UINT32_MAX
    case Buf(d) => |d| <= UINT32_MAX
    case _ => true
  }

  predicate FaithfulElement(e: Element)
    decreases e, 1
  {
    if IsContainer(e.typ) then TagFits(e.tag, e.profile) && FaithfulInner(e.value)
    else if Spliced(e) then Faithful(e.value.items)
    else TagFits(e.tag, e.profile) && ScalarFits(NormTyped(e).value)
  }

  predicate FaithfulInner(v: Value)
    decreases v, 1
  {
    match v
    case Children(items) => Faithful(items)
    case Buf(_) => true
    case _ => ScalarFits(v)
  }

  predicate Faithful(es: Forest)
    decreases es, 0
  {
    es == [] || (FaithfulElement(es[0]) && Faithful(es[1..]))
  }

  // ----- one element

  /** Tag and profile that come back: an oversized fully qualified tag comes back anonymous. */
  function TagBack(tag: Option<int>, profile: Option<int>): DecodedTag {
    if TagFits(tag, profile) then DecodedTag(tag, NormProfile(profile), 0) else DecodedTag(None, None, 0)
  }

  lemma TagReadsBack(tag: Option<int>, profile: Option<int>, x: bytes)
    requires EncodeTag(tag, profile).Ok?
    ensures var (control, encoded) := EncodeTag(tag, profile).value;
            DecodeTagAndLength(encoded + x, control) == Ok(TagBack(tag, profile).(length := |encoded|))
  {
    var (control, encoded) := EncodeTag(tag, profile).value;
    var all := encoded + x;
    Pow256Values();
    if profile.Some? && TagFits(tag, profile) {
      var t := tag.value;
      if CommonProfile(profile.value) || ImplicitProfile(profile.value) {
        assert all[0..|encoded|] == encoded;
        FromToLE(t, |encoded|);
      } else {
        FromToLE(profile.value, 4);
        assert all[..4] == ToLE(profile.value, 4);
        assert all[4..|encoded|] == ToLE(t, |encoded| - 4);
        FromToLE(t, |encoded| - 4);
      }
    } else if profile.None? && tag.Some? {
      assert all[0..1] == encoded == [tag.value];
      assert FromLE(encoded) == encoded[0] + 256 * FromLE(encoded[1..]);
    }
  }

  /** What the reader makes of a control byte and tag followed by `x`. */
  function HeadOver(code: nat, tag: Option<int>, profile: Option<int>, x: bytes): Result<Head> {
    match DecodeValueAndLength(x, code)
    case Err(e) => Err(e)
    case Ok(v) =>
      var t := TagBack(tag, profile);
      Ok(Head(code, Element(t.profile, t.tag, TypeNameOf(code), v.value), Skip(x, v.length)))
  }

  lemma HeadFromReadsBack(code: nat, tag: Option<int>, profile: Option<int>, x: bytes)
    requires EncodeTag(tag, profile).Ok?
    ensures HeadFrom(code, EncodeTag(tag, profile).value.0, EncodeTag(tag, profile).value.1 + x)
            == HeadOver(code, tag, profile, x)
  {
    hide DecodeValueAndLength;
    hide DecodeTagAndLength;
    hide EncodeTag;
    hide TagBack;
    TagReadsBack(tag, profile, x);
    var encoded := EncodeTag(tag, profile).value.1;
    assert Skip(encoded + x, |encoded|) == x;
  }

  lemma ControlReadsBack(typ: nat, len: nat, tag: Option<int>, profile: Option<int>, x: bytes)
    requires typ < 0x20 && (len > 1 ==> typ % 4 == 0)
    requires EncodeControlByte(typ, len, tag, profile).Ok?
    ensures ReadHead(EncodeControlByte(typ, len, tag, profile).value + x)
            == HeadOver(typ + WidthBits(len).value, tag, profile, x)
  {
    hide HeadFrom;
    hide HeadOver;
    hide EncodeTag;
    hide ReadHead;
    hide TypeField;
    hide TagField;
    CodeInRange(typ, len);
    var code := typ + WidthBits(len).value;
    hide WidthBits;
    var (control, encoded) := EncodeTag(tag, profile).value;
    HeadFromReadsBack(code, tag, profile, x);
    ControlFields(code, tag, profile);
    HeadOfControl(code, control, encoded, x);
  }

  lemma CodeInRange(typ: nat, len: nat)
    requires typ < 0x20 && (len > 1 ==> typ % 4 == 0) && WidthBits(len).Ok?
    ensures typ + WidthBits(len).value < 0x20
  {
  }

  lemma ControlFields(code: nat, tag: Option<int>, profile: Option<int>)
    requires code < 0x20 && EncodeTag(tag, profile).Ok?
    ensures var control := EncodeTag(tag, profile).value.0;
            code + control < 256 && TypeField(code + control) == code && TagField(code + control) == control
  {
    hide EncodeTag;
    TagControlRange(tag, profile);
    FieldsOfSum(code, EncodeTag(tag, profile).value.0);
  }

  lemma HeadOfControl(code: nat, control: nat, encoded: bytes, x: bytes)
    requires code + control < 256 && TypeField(code + control) == code && TagField(code + control) == control
    ensures ReadHead([code + control] + encoded + x) == HeadFrom(code, control, encoded + x)
  {
    hide HeadFrom;
    hide TypeField;
    hide TagField;
    ConsTail(code + control, encoded, x);
  }

  lemma ConsTail(c: byte, b: bytes, x: bytes)
    ensures ([c] + b + x)[0] == c && ([c] + b + x)[1..] == b + x
  {
  }

  lemma FieldsOfSum(code: nat, control: nat)
    requires code < 0x20 && control <= 0xE0 && control % 0x20 == 0
    ensures TypeField(code + control) == code && TagField(code + control) == control
  {
  }

  /** A control byte, a tag and a payload that decodes to `v` in its own length. */
  lemma ElementHeadReadsBack(typ: nat, len: nat, tag: Option<int>, profile: Option<int>, payload: bytes, v: Value,
                             x: bytes)
    requires typ < 0x20 && (len > 1 ==> typ % 4 == 0)
    requires EncodeControlByte(typ, len, tag, profile).Ok?
    requires DecodeValueAndLength(payload + x, typ + WidthBits(len).value) == Ok(DecodedValue(v, |payload|))
    ensures var b := EncodeControlByte(typ, len, tag, profile).value + payload;
            var code := typ + WidthBits(len).value;
            var t := TagBack(tag, profile);
            ReadHead(b + x) == Ok(Head(code, Element(t.profile, t.tag, TypeNameOf(code), v), x))
  {
    hide ReadHead;
    hide DecodeValueAndLength;
    ControlReadsBack(typ, len, tag, profile, payload + x);
    var h := EncodeControlByte(typ, len, tag, profile).value;
    assert h + payload + x == h + (payload + x);
    assert Skip(payload + x, |payload|) == x;
  }

  /** The bytes `b`, whatever follows them, read as the scalar `s` under the tag that comes back. */
  predicate ReadsAs(b: bytes, tag: Option<int>, profile: Option<int>, s: Scalar, x: bytes) {
    var t := TagBack(tag, profile);
    b != []
    && ReadHead(b + x).Ok?
    && var h := ReadHead(b + x).value;
       h.typ != TYPE_END && !IsContainer(s.typ)
       && h.element == Element(t.profile, t.tag, s.typ, s.value)
       && h.rest == x
  }

  lemma IntegerTypes(w: Width)
    ensures WidthBits(w).Ok? && WidthBits(w).value < 4
    ensures TypeNameOf(TYPE_UNSIGNED_INTEGER + WidthBits(w).value) == UInt(w)
    ensures TypeNameOf(TYPE_SIGNED_INTEGER + WidthBits(w).value) == Int(w)
  {
  }

  lemma UnsignedDecodes(n: nat, x: bytes)
    requires n < Pow256(8)
    ensures var w := UnsignedWidth(n);
            DecodeValueAndLength(ToLE(n, w) + x, TYPE_UNSIGNED_INTEGER + WidthBits(w).value)
            == Ok(DecodedValue(NormUnsigned(n).value, w))
  {
    Pow256Values();
    var w := UnsignedWidth(n);
    FromToLE(n, w);
    assert (ToLE(n, w) + x)[..w] == ToLE(n, w);
  }

  lemma IntegerReadsAs(typ: nat, b: bytes, tag: Option<int>, profile: Option<int>, s: Scalar, x: bytes)
    requires typ < 0x20 && typ % 4 == 0 && WidthBits(|b|).Ok?
    requires PutInteger(typ, Ok(b), tag, profile).Ok?
    requires !IsContainer(s.typ) && typ + WidthBits(|b|).value < TYPE_END
    requires TypeNameOf(typ + WidthBits(|b|).value) == s.typ
    requires DecodeValueAndLength(b + x, typ + WidthBits(|b|).value) == Ok(DecodedValue(s.value, |b|))
    ensures ReadsAs(PutInteger(typ, Ok(b), tag, profile).value, tag, profile, s, x)
  {
    hide DecodeValueAndLength;
    hide ReadHead;
    hide TypeNameOf;
    hide WidthBits;
    ElementHeadReadsBack(typ, |b|, tag, profile, b, s.value, x);
  }

  lemma UnsignedReadsAs(v: Value, tag: Option<int>, profile: Option<int>, x: bytes)
    requires PutUnsignedInt(v, tag, profile).Ok?
    ensures ReadsAs(PutUnsignedInt(v, tag, profile).value, tag, profile, NormUnsigned(NumberIn(v)), x)
  {
    Pow256Values();
    var w := UnsignedWidth(v.n);
    assert EncodeUnsignedInt(v) == Ok(ToLE(v.n, w));
    UnsignedDecodes(v.n, x);
    IntegerTypes(w);
    IntegerReadsAs(TYPE_UNSIGNED_INTEGER, ToLE(v.n, w), tag, profile, NormUnsigned(v.n), x);
  }

  lemma SignedDecodes(v: Value, x: bytes)
    requires EncodeSignedInt(v).Ok?
    ensures var w := SignedWidth(NumberIn(v)); var b := EncodeSignedInt(v).value;
            |b| == w && DecodeValueAndLength(b + x, TYPE_SIGNED_INTEGER + WidthBits(w).value)
            == Ok(DecodedValue(NormSigned(NumberIn(v)).value, w))
  {
    Pow256Values();
    var b := EncodeSignedInt(v).value;
    FromToLESigned(v.n, |b|);
    assert (b + x)[..|b|] == b;
  }

  lemma SignedReadsAs(v: Value, tag: Option<int>, profile: Option<int>, x: bytes)
    requires PutSignedInt(v, tag, profile).Ok?
    ensures ReadsAs(PutSignedInt(v, tag, profile).value, tag, profile, NormSigned(NumberIn(v)), x)
  {
    SignedDecodes(v, x);
    IntegerTypes(SignedWidth(v.n));
    IntegerReadsAs(TYPE_SIGNED_INTEGER, EncodeSignedInt(v).value, tag, profile, NormSigned(v.n), x);
  }

  lemma FixedDecodes(code: nat, payload: bytes, s: Scalar, x: bytes)
    requires s.typ == TypeNameOf(code)
    requires match s.typ
             case Null => payload == [] && s.value == Undefined
             case Boolean => payload == [] && s.value == Bool(code == TYPE_BOOLEAN_TRUE)
             case Float => |payload| == 4 && s.value == F32(payload)
             case Double => NonIntegral(payload) && s.value == Dbl(payload)
             case _ => false
    ensures DecodeValueAndLength(payload + x, code) == Ok(DecodedValue(s.value, |payload|))
  {
    assert (payload + x)[..|payload|] == payload;
  }

  lemma FixedReadsAs(code: nat, payload: bytes, tag: Option<int>, profile: Option<int>, s: Scalar, x: bytes)
    requires code < 0x20 && s.typ == TypeNameOf(code) && !IsContainer(s.typ) && code != TYPE_END
    requires DecodeValueAndLength(payload + x, code) == Ok(DecodedValue(s.value, |payload|))
    requires PutFixed(code, payload, tag, profile).Ok?
    ensures ReadsAs(PutFixed(code, payload, tag, profile).value, tag, profile, s, x)
  {
    ElementHeadReadsBack(code, 0, tag, profile, payload, s.value, x);
  }

  function CountedCode(text: bool): nat {
    if text then TYPE_UTF8_STRING else TYPE_BYTE_STRING
  }

  /** Type and value the reader gives a length field of `length` followed by `y`. */
  function CountedBack(text: bool, length: nat, y: bytes): Scalar {
    var w := UnsignedWidth(length);
    var slice := Take(y, 0, length);
    Scalar(if text then StringLen(w) else BufferLen(w),
           if w == 8 then Big(length) else if text then Str(Replaced(slice)) else Buf(slice))
  }

  lemma CountedDecodes(text: bool, length: nat, y: bytes)
    requires length < Pow256(8)
    ensures var w := UnsignedWidth(length);
            DecodeValueAndLength(ToLE(length, w) + y, CountedCode(text) + WidthBits(w).value)
            == Ok(DecodedValue(CountedBack(text, length, y).value, if w == 8 then 8 else w + length))
  {
    Pow256Values();
    var w := UnsignedWidth(length);
    FromToLE(length, w);
    assert (ToLE(length, w) + y)[..w] == ToLE(length, w);
    TakeAfter(ToLE(length, w), y, length);
  }

  lemma TakeAfter(a: bytes, b: bytes, n: nat)
    ensures Take(a + b, |a|, n) == Take(b, 0, n)
    ensures Skip(a + b, |a| + n) == Skip(b, n)
    ensures Skip(a + b, |a|) == b
  {
  }

  lemma WidthGivesBits(w: Width)
    ensures WidthBits(w).Ok?
    ensures TypeNameOf(CountedCode(true) + WidthBits(w).value) == StringLen(w)
    ensures TypeNameOf(CountedCode(false) + WidthBits(w).value) == BufferLen(w)
  {
  }

  lemma CountedHead(text: bool, length: nat, tag: Option<int>, profile: Option<int>, y: bytes)
    requires length < Pow256(8)
    ensures var w := UnsignedWidth(length);
            var t := TagBack(tag, profile);
            var s := CountedBack(text, length, y);
            HeadOver(CountedCode(text) + WidthBits(w).value, tag, profile, ToLE(length, w) + y)
            == Ok(Head(CountedCode(text) + WidthBits(w).value, Element(t.profile, t.tag, s.typ, s.value),
                       if w == 8 then y else Skip(y, length)))
  {
    CountedDecodes(text, length, y);
    WidthGivesBits(UnsignedWidth(length));
    TakeAfter(ToLE(length, UnsignedWidth(length)), y, length);
  }

  lemma CountedParts(text: bool, length: nat, data: bytes, tag: Option<int>, profile: Option<int>)
    requires PutCounted(CountedCode(text), length, data, tag, profile).Ok?
    ensures length < Pow256(8)
    ensures EncodeControlByte(CountedCode(text), UnsignedWidth(length), tag, profile).Ok?
    ensures PutCounted(CountedCode(text), length, data, tag, profile).value
            == EncodeControlByte(CountedCode(text), UnsignedWidth(length), tag, profile).value
               + ToLE(length, UnsignedWidth(length)) + data
  {
    Pow256Values();
  }

  /** A counted string or buffer: the reader takes `length` bytes of what follows the length field. */
  lemma CountedReadsBack(text: bool, length: nat, data: bytes, tag: Option<int>, profile: Option<int>, x: bytes)
    requires PutCounted(CountedCode(text), length, data, tag, profile).Ok?
    ensures var b := PutCounted(CountedCode(text), length, data, tag, profile).value;
            var w := UnsignedWidth(length);
            var t := TagBack(tag, profile);
            var s := CountedBack(text, length, data + x);
            b != []
            && ReadHead(b + x)
                == Ok(Head(CountedCode(text) + WidthBits(w).value, Element(t.profile, t.tag, s.typ, s.value),
                                          if w == 8 then data + x else Skip(data + x, length)))
  {
    var w := UnsignedWidth(length);
    CountedParts(text, length, data, tag, profile);
    CountedHead(text, length, tag, profile, data + x);
    var h := EncodeControlByte(CountedCode(text), w, tag, profile).value;
    ControlReadsBack(CountedCode(text), w, tag, profile, ToLE(length, w) + (data + x));
    Regroup(h, ToLE(length, w), data, x);
  }

  lemma Regroup(a: bytes, b: bytes, c: bytes, d: bytes)
    ensures a + b + c + d == a + (b + (c + d))
    ensures a + b + c + d == a + (b + c + d)
  {
  }

  lemma CountedReadsAs(text: bool, data: bytes, tag: Option<int>, profile: Option<int>, s: Scalar, x: bytes)
    requires |data| <= UINT32_MAX && (text ==> Ascii(data))
    requires var w := UnsignedWidth(|data|);
             s == if text then Scalar(StringLen(w), Str(data)) else Scalar(BufferLen(w), Buf(data))
    requires PutCounted(CountedCode(text), |data|, data, tag, profile).Ok?
    ensures var b := PutCounted(CountedCode(text), |data|, data, tag, profile).value;
            ReadsAs(b, tag, profile, s, x)
  {
    CountedReadsBack(text, |data|, data, tag, profile, x);
    assert Take(data + x, 0, |data|) == data;
    if text {
      AsciiIsUtf8(data);
    }
  }

  lemma BooleanReadsAs(b: bool, tag: Option<int>, profile: Option<int>, x: bytes)
    requires PutBoolean(b, tag, profile).Ok?
    ensures ReadsAs(PutBoolean(b, tag, profile).value, tag, profile, Scalar(Boolean, Bool(b)), x)
  {
    var code := if b then TYPE_BOOLEAN_TRUE else TYPE_BOOLEAN_FALSE;
    FixedDecodes(code, [], Scalar(Boolean, Bool(b)), x);
    FixedReadsAs(code, [], tag, profile, Scalar(Boolean, Bool(b)), x);
  }

  /** Every faithful scalar that `put` accepts reads as its normal form. */
  lemma ScalarReadsAs(v: Value, tag: Option<int>, profile: Option<int>, x: bytes)
    requires PutScalar(v, tag, profile).Ok? && ScalarFits(v)
    ensures ReadsAs(PutScalar(v, tag, profile).value, tag, profile, NormScalar(v), x)
  {
    match v
    case Undefined =>
      FixedDecodes(TYPE_NULL, [], NormScalar(v), x);
      FixedReadsAs(TYPE_NULL, [], tag, profile, NormScalar(v), x);
    case Str(s) =>
      LengthIsByteCountIffAscii(s);
      CountedReadsAs(true, s, tag, profile, NormScalar(v), x);
    case Buf(d) => CountedReadsAs(false, d, tag, profile, NormScalar(v), x);
    case Num(n) => if n < 0 { SignedReadsAs(v, tag, profile, x); } else { UnsignedReadsAs(v, tag, profile, x); }
    case Big(n) => if n < 0 { SignedReadsAs(v, tag, profile, x); } else { UnsignedReadsAs(v, tag, profile, x); }
    case Dbl(b) =>
      FixedDecodes(TYPE_DOUBLE, b, NormScalar(v), x);
      FixedReadsAs(TYPE_DOUBLE, b, tag, profile, NormScalar(v), x);
    case Bool(b) => BooleanReadsAs(b, tag, profile, x);
    case F32(_) =>
    case Children(_) =>
  }

  lemma TypedReadsAs(e: Element, x: bytes)
    requires !IsContainer(e.typ) && !Spliced(e)
    requires EncodeElement(e).Ok? && ScalarFits(NormTyped(e).value)
    ensures ReadsAs(EncodeElement(e).value, e.tag, e.profile, NormTyped(e), x)
  {
    match e.typ
    case Int(_) => SignedReadsAs(e.value, e.tag, e.profile, x);
    case UInt(_) => UnsignedReadsAs(e.value, e.tag, e.profile, x);
    case Float =>
      FixedDecodes(TYPE_FLOAT, e.value.bits, NormTyped(e), x);
      FixedReadsAs(TYPE_FLOAT, e.value.bits, e.tag, e.profile, NormTyped(e), x);
    case Boolean => BooleanReadsAs(Truthy(e.value), e.tag, e.profile, x);
    case PlainBuffer => CountedReadsAs(false, BufferOf(e.value).value, e.tag, e.profile, NormTyped(e), x);
    case _ => ScalarReadsAs(e.value, e.tag, e.profile, x);
  }

  // ----- forests

  lemma {:induction false} ElementReadsBack(e: Element, x: bytes)
    requires EncodeElement(e).Ok? && FaithfulElement(e)
    ensures Items(EncodeElement(e).value + x) == Prepend(NormElement(e), Items(x))
    decreases e, 1
  {
    if IsContainer(e.typ) {
      var head := PutStart(e.typ, e.tag, e.profile).value;
      var body := EncodeInner(e.value).value;
      Regroup(head, body, [TYPE_END], x);
      InnerReadsBack(e.value, [TYPE_END] + x);
      EndCloses(x);
      assert NormInner(e.value) + [] == NormInner(e.value);
      ContainerReadsBack(e.typ, e.tag, e.profile, body + ([TYPE_END] + x));
    } else if Spliced(e) {
      ForestReadsBack(e.value.items, x);
    } else {
      TypedReadsAs(e, x);
    }
  }

  lemma ContainerHead(t: TypeName, tag: Option<int>, profile: Option<int>, inside: bytes)
    requires IsContainer(t) && PutStart(t, tag, profile).Ok?
    ensures var back := TagBack(tag, profile);
            ReadHead(PutStart(t, tag, profile).value + inside)
            == Ok(Head(ContainerCode(t), Element(back.profile, back.tag, t, Children([])), inside))
  {
    hide ReadHead;
    hide EncodeControlByte;
    ControlReadsBack(ContainerCode(t), 0, tag, profile, inside);
    assert Skip(inside, 0) == inside;
  }

  /** A container start opens what follows; if that closes, reading goes on behind it. */
  lemma ContainerReadsBack(t: TypeName, tag: Option<int>, profile: Option<int>, inside: bytes)
    requires IsContainer(t) && PutStart(t, tag, profile).Ok?
    ensures var back := TagBack(tag, profile);
            Items(PutStart(t, tag, profile).value + inside) ==
            ItemsOver(Head(ContainerCode(t), Element(back.profile, back.tag, t, Children([])), inside))
  {
    hide ReadHead;
    ContainerHead(t, tag, profile, inside);
    ItemsByHead(PutStart(t, tag, profile).value + inside);
  }

  lemma EndHead(x: bytes)
    ensures ReadHead([TYPE_END] + x) == Ok(Head(TYPE_END, Element(None, None, EndOfCollection, Undefined), x))
  {
    EndDecodes(x);
    FieldsOfSum(TYPE_END, 0);
    hide HeadFrom;
    hide TypeField;
    hide TagField;
    assert ([TYPE_END] + x)[1..] == x;
  }

  lemma EndDecodes(x: bytes)
    ensures HeadFrom(TYPE_END, 0, x) == Ok(Head(TYPE_END, Element(None, None, EndOfCollection, Undefined), x))
  {
    assert Skip(x, 0) == x;
  }

  lemma EndCloses(x: bytes)
    ensures Items([TYPE_END] + x) == Ok(Parsed([], x, true, 0))
  {
    hide ReadHead;
    EndHead(x);
    ItemsByHead([TYPE_END] + x);
  }

  lemma {:induction false} InnerReadsBack(v: Value, x: bytes)
    requires EncodeInner(v).Ok? && FaithfulInner(v)
    ensures Items(EncodeInner(v).value + x) == Prepend(NormInner(v), Items(x))
    decreases v, 1
  {
    match v
    case Children(items) => ForestReadsBack(items, x);
    case Buf(_) => ScalarReadsAs(Undefined, None, None, x);
    case _ => ScalarReadsAs(v, None, None, x);
  }

  lemma {:induction false} ForestReadsBack(es: Forest, x: bytes)
    requires EncodeForest(es).Ok? && Faithful(es)
    ensures Items(EncodeForest(es).value + x) == Prepend(NormForest(es), Items(x))
    decreases es, 0
  {
    if es == [] {
      assert [] + x == x;
      PrependNone(Items(x));
    } else {
      var first := EncodeElement(es[0]).value;
      var others := EncodeForest(es[1..]).value;
      assert first + others + x == first + (others + x);
      ElementReadsBack(es[0], others + x);
      ForestReadsBack(es[1..], x);
      PrependTwice(NormElement(es[0]), NormForest(es[1..]), Items(x));
    }
  }
}
