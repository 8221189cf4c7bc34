/** The byte strings that decoding and encoding give back unchanged. */
module TlvCanonical {
  import opened Bytes
  import opened Tlv
  import opened TlvCodec
  import opened TlvGrammar
  import opened TlvPrinter
  import opened TlvRoundTrip

  function TagLength(control: nat): nat {
    if control == TAG_ANONYMOUS then 0
    else if control == TAG_CONTEXT_SPECIFIC then 1
    else if control == TAG_COMMON_2 || control == TAG_IMPLICIT_2 then 2
    else if control == TAG_COMMON_4 || control == TAG_IMPLICIT_4 then 4
    else if control == TAG_FULLY_QUALIFIED_6 then 6
    else 8
  }

  /** The narrowest tag form, and no profile id that stands for another tag form. */
  predicate CanonicalTag(control: nat, tag: Option<int>, profile: Option<int>) {
    (control == TAG_COMMON_4 || control == TAG_IMPLICIT_4 || control == TAG_FULLY_QUALIFIED_8 ==>
      tag.Some? && tag.value > UINT16_MAX)
    && (control >= TAG_FULLY_QUALIFIED_6 ==>
      profile.Some? && !CommonProfile(profile.value) && !ImplicitProfile(profile.value))
  }

  /** The narrowest integer or length field, a length field that the input honours, an ASCII string,
      a double that is not an integer, no reserved type. */
  predicate CanonicalValue(t: TypeName, v: Value, payload: bytes) {
    match t
    case UInt(w) => UnsignedWidth(NumberIn(v)) == w
    case Int(w) => SignedWidth(NumberIn(v)) == w
    case StringLen(w) =>
      v.Str? && Ascii(v.utf8) && UnsignedWidth(|v.utf8|) == w && w <= |payload| && FromLE(payload[..w]) == |v.utf8|
    case BufferLen(w) =>
      v.Buf? && UnsignedWidth(|v.data|) == w && w <= |payload| && FromLE(payload[..w]) == |v.data|
    case Double => v.Dbl?
    case Boolean | Null | Float | Struct | Array | List => true
    case _ => false
  }

  predicate CanonicalHead(tlv: bytes, h: Head)
    requires tlv != []
  {
    CanonicalParts(TagField(tlv[0]), tlv[1..], h.element)
  }

  predicate CanonicalParts(control: nat, after: bytes, e: Element) {
    CanonicalTag(control, e.tag, e.profile) && CanonicalValue(e.typ, e.value, Skip(after, TagLength(control)))
  }

  /** What a canonical forest leaves: the input after its closing byte, or nothing. */
  datatype Scan = Bad | Good(rest: bytes, closed: bool)

  /** One pass over the bytes: every head canonical, every container closed by the plain byte 0x18. */
  function ScanItems(tlv: bytes): (s: Scan)
    ensures s.Good? ==> |s.rest| <= |tlv|
    decreases |tlv|, 0
  {
    if tlv == [] then Good([], false)
    else
      match ReadHead(tlv)
      case Err(_) => Bad
      case Ok(h) => if h.typ == TYPE_END then if tlv[0] == TYPE_END then Good(h.rest, true) else Bad
                    else if CanonicalHead(tlv, h) then ScanPast(h)
                    else Bad
  }

  function ScanPast(h: Head): (s: Scan)
    ensures s.Good? ==> |s.rest| <= |h.rest|
    decreases |h.rest|, 1
  {
    if IsContainer(h.element.typ) then
      var inner := ScanItems(h.rest);
      if inner.Good? && inner.closed then ScanItems(inner.rest) else Bad
    else ScanItems(h.rest)
  }

  lemma ScanByHead(tlv: bytes)
    requires tlv != [] && ReadHead(tlv).Ok?
    ensures var h := ReadHead(tlv).value;
            ScanItems(tlv) == if h.typ == TYPE_END then if tlv[0] == TYPE_END then Good(h.rest, true) else Bad
                              else if CanonicalHead(tlv, h) then ScanPast(h)
                              else Bad
  {
    hide ReadHead;
    hide CanonicalHead;
  }

  predicate Canonical(tlv: bytes) {
    ScanItems(tlv) == Good([], false)
  }

  // ----- canonical bytes are re-encoded exactly

  lemma TagReencodes(after: bytes, control: nat)
    requires control % 0x20 == 0 && control <= 0xE0
    requires DecodeTagAndLength(after, control).Ok?
    requires var t := DecodeTagAndLength(after, control).value; CanonicalTag(control, t.tag, t.profile)
    ensures TagComesBack(after, control)
  {
    hide DecodeTagAndLength;
    hide CanonicalTag;
    hide TagComesBack;
    if control >= TAG_FULLY_QUALIFIED_6 {
      assert control == TAG_FULLY_QUALIFIED_6 || control == TAG_FULLY_QUALIFIED_8;
      QualifiedTagReencodes(after, control);
    } else if control >= TAG_COMMON_2 {
      ProfileTagReencodes(after, control);
    } else {
      assert control == TAG_ANONYMOUS || control == TAG_CONTEXT_SPECIFIC;
      PlainTagReencodes(after, control);
    }
  }

  /** The decoded tag and profile are written as the bytes they were read from. */
  predicate TagComesBack(after: bytes, control: nat) {
    DecodeTagAndLength(after, control).Ok?
    && var t := DecodeTagAndLength(after, control).value;
       t.length == TagLength(control) <= |after|
       && EncodeTag(t.tag, t.profile) == Ok((control, after[..t.length]))
  }

  lemma PlainTagReencodes(after: bytes, control: nat)
    requires control == TAG_ANONYMOUS || control == TAG_CONTEXT_SPECIFIC
    requires DecodeTagAndLength(after, control).Ok?
    ensures TagComesBack(after, control)
  {
    Pow256Values();
    if control == TAG_CONTEXT_SPECIFIC {
      assert after[0..1] == [after[0]];
      assert FromLE(after[0..1]) == after[0] + 256 * FromLE([]);
    }
  }

  lemma ProfileTagReencodes(after: bytes, control: nat)
    requires control % 0x20 == 0 && TAG_COMMON_2 <= control <= TAG_IMPLICIT_4
    requires DecodeTagAndLength(after, control).Ok?
    requires var t := DecodeTagAndLength(after, control).value; CanonicalTag(control, t.tag, t.profile)
    ensures TagComesBack(after, control)
  {
    Pow256Values();
    var t := DecodeTagAndLength(after, control).value;
    ToFromLE(after[0..t.length]);
    assert after[0..t.length] == after[..t.length];
  }

  lemma QualifiedTagReencodes(after: bytes, control: nat)
    requires control == TAG_FULLY_QUALIFIED_6 || control == TAG_FULLY_QUALIFIED_8
    requires DecodeTagAndLength(after, control).Ok?
    requires var t := DecodeTagAndLength(after, control).value; CanonicalTag(control, t.tag, t.profile)
    ensures TagComesBack(after, control)
  {
    Pow256Values();
    var t := DecodeTagAndLength(after, control).value;
    ToFromLE(after[..4]);
    ToFromLE(after[4..t.length]);
    assert after[..t.length] == after[..4] + after[4..t.length];
  }

  /** The control byte and tag in front of a canonical head are what the writer puts there. */
  lemma ControlReencodes(typ: nat, control: nat, after: bytes, base: nat, width: nat)
    requires typ < 0x20 && control % 0x20 == 0 && control <= 0xE0
    requires DecodeTagAndLength(after, control).Ok?
    requires var t := DecodeTagAndLength(after, control).value; CanonicalTag(control, t.tag, t.profile)
    requires base < 0x20 && (width > 1 ==> base % 4 == 0) && WidthBits(width).Ok?
    requires base + WidthBits(width).value == typ
    ensures var t := DecodeTagAndLength(after, control).value;
            t.length == TagLength(control) <= |after|
            && EncodeControlByte(base, width, t.tag, t.profile) == Ok([typ + control] + after[..t.length])
            && Skip(after, t.length) == after[t.length..]
  {
    TagReencodes(after, control);
  }

  lemma UnsignedReencodes(y: bytes, w: Width)
    requires w <= |y| && UnsignedWidth(FromLE(y[..w])) == w
    ensures EncodeUnsignedInt(if w == 8 then Big(FromLE(y[..w])) else Num(FromLE(y[..w]))) == Ok(y[..w])
    ensures EncodeUnsignedInt(Num(FromLE(y[..w]))) == Ok(y[..w])
  {
    Pow256Values();
    ToFromLE(y[..w]);
  }

  lemma SignedReencodes(y: bytes, w: Width)
    requires w <= |y| && SignedWidth(FromLESigned(y[..w])) == w
    ensures EncodeSignedInt(if w == 8 then Big(FromLESigned(y[..w])) else Num(FromLESigned(y[..w]))) == Ok(y[..w])
  {
    Pow256Values();
    ToFromLESigned(y[..w]);
  }

  /** A canonical head is the control byte and tag the writer puts, and then the payload. */
  lemma HeadReencodes(typ: nat, control: nat, after: bytes, base: nat, width: nat, e: Element)
    requires typ < 0x20 && control % 0x20 == 0 && control <= 0xE0
    requires base < 0x20 && (width > 1 ==> base % 4 == 0) && WidthBits(width).Ok?
    requires base + WidthBits(width).value == typ
    requires DecodeTagAndLength(after, control).Ok? && CanonicalTag(control, e.tag, e.profile)
    requires e.tag == DecodeTagAndLength(after, control).value.tag
    requires e.profile == DecodeTagAndLength(after, control).value.profile
    ensures EncodeControlByte(base, width, e.tag, e.profile).Ok?
    ensures [typ + control] + after
            == EncodeControlByte(base, width, e.tag, e.profile).value + Skip(after, TagLength(control))
  {
    ControlReencodes(typ, control, after, base, width);
    var k := TagLength(control);
    assert after == after[..k] + after[k..];
  }

  lemma IntegerReencodes(base: nat, w: Width, e: Element, y: bytes, encoded: Result<bytes>)
    requires base < 0x20 && base % 4 == 0
    requires EncodeControlByte(base, w, e.tag, e.profile).Ok?
    requires w <= |y| && encoded == Ok(y[..w])
    ensures PutInteger(base, encoded, e.tag, e.profile).Ok?
    ensures EncodeControlByte(base, w, e.tag, e.profile).value + y
            == PutInteger(base, encoded, e.tag, e.profile).value + y[w..]
  {
    assert y == y[..w] + y[w..];
  }

  lemma FixedReencodes(typ: nat, n: nat, e: Element, y: bytes)
    requires typ < 0x20 && n <= |y|
    requires EncodeControlByte(typ, 0, e.tag, e.profile).Ok?
    ensures PutFixed(typ, y[..n], e.tag, e.profile).Ok?
    ensures EncodeControlByte(typ, 0, e.tag, e.profile).value + y
            == PutFixed(typ, y[..n], e.tag, e.profile).value + y[n..]
  {
    assert y == y[..n] + y[n..];
  }

  lemma CountedReencodes(text: bool, w: Width, e: Element, y: bytes, data: bytes)
    requires EncodeControlByte(CountedCode(text), w, e.tag, e.profile).Ok?
    requires w <= |y| && FromLE(y[..w]) == |data| && UnsignedWidth(|data|) == w && data == Take(y, w, |data|)
    ensures PutCounted(CountedCode(text), |data|, data, e.tag, e.profile).Ok?
    ensures EncodeControlByte(CountedCode(text), w, e.tag, e.profile).value + y
            == PutCounted(CountedCode(text), |data|, data, e.tag, e.profile).value + Skip(y, w + |data|)
  {
    hide EncodeUnsignedInt;
    hide EncodeControlByte;
    hide UnsignedWidth;
    hide FromLE;
    hide Take;
    hide Skip;
    hide PutInteger;
    UnsignedReencodes(y, w);
    IntegerReencodes(CountedCode(text), w, e, y, EncodeUnsignedInt(Num(|data|)));
    TakeThenSkip(y, w, |data|);
    var counted := PutInteger(CountedCode(text), EncodeUnsignedInt(Num(|data|)), e.tag, e.profile).value;
    assert counted + (data + Skip(y, w + |data|)) == counted + data + Skip(y, w + |data|);
  }

  lemma TakeThenSkip(y: bytes, w: nat, n: nat)
    requires w <= |y| && |Take(y, w, n)| == n
    ensures y[w..] == Take(y, w, n) + Skip(y, w + n)
  {
  }

  /** The type code without its width bits. */
  function BaseOf(typ: nat): nat {
    match TypeNameOf(typ)
    case UInt(_) => TYPE_UNSIGNED_INTEGER
    case Int(_) => TYPE_SIGNED_INTEGER
    case StringLen(_) => TYPE_UTF8_STRING
    case BufferLen(_) => TYPE_BYTE_STRING
    case _ => typ
  }

  /** The width that the width bits stand for, 0 where the type has none. */
  function WidthOf(typ: nat): nat {
    match TypeNameOf(typ)
    case UInt(w) => w
    case Int(w) => w
    case StringLen(w) => w
    case BufferLen(w) => w
    case _ => 0
  }

  lemma BaseAndBits(typ: nat)
    requires typ < 0x20
    ensures BaseOf(typ) < 0x20 && (WidthOf(typ) > 1 ==> BaseOf(typ) % 4 == 0) && WidthBits(WidthOf(typ)).Ok?
    ensures BaseOf(typ) + WidthBits(WidthOf(typ)).value == typ
  {
  }

  /** The payload of a canonical element that is no container. */
  lemma PayloadReencodes(typ: nat, e: Element, y: bytes)
    requires typ < 0x20 && e.typ == TypeNameOf(typ) && !IsContainer(e.typ)
    requires DecodeValueAndLength(y, typ).Ok? && e.value == DecodeValueAndLength(y, typ).value.value
    requires CanonicalValue(e.typ, e.value, y)
    requires (WidthOf(typ) > 1 ==> BaseOf(typ) % 4 == 0) && BaseOf(typ) < 0x20
    requires EncodeControlByte(BaseOf(typ), WidthOf(typ), e.tag, e.profile).Ok?
    ensures EncodeElement(e).Ok?
    ensures EncodeControlByte(BaseOf(typ), WidthOf(typ), e.tag, e.profile).value + y
            == EncodeElement(e).value + Skip(y, DecodeValueAndLength(y, typ).value.length)
  {
    if WidthOf(typ) == 0 {
      FixedPayloadReencodes(typ, e, y);
    } else {
      SizedPayloadReencodes(typ, e, y);
    }
  }

  lemma SizedPayloadReencodes(typ: nat, e: Element, y: bytes)
    requires typ < 0x20 && e.typ == TypeNameOf(typ) && WidthOf(typ) > 0
    requires DecodeValueAndLength(y, typ).Ok? && e.value == DecodeValueAndLength(y, typ).value.value
    requires CanonicalValue(e.typ, e.value, y)
    requires (WidthOf(typ) > 1 ==> BaseOf(typ) % 4 == 0) && BaseOf(typ) < 0x20
    requires EncodeControlByte(BaseOf(typ), WidthOf(typ), e.tag, e.profile).Ok?
    ensures EncodeElement(e).Ok?
    ensures EncodeControlByte(BaseOf(typ), WidthOf(typ), e.tag, e.profile).value + y
            == EncodeElement(e).value + Skip(y, DecodeValueAndLength(y, typ).value.length)
  {
    if e.typ.UInt? || e.typ.Int? {
      IntegerPayloadReencodes(typ, e, y);
    } else {
      CountedPayloadReencodes(typ, e, y);
    }
  }

  lemma IntegerPayloadReencodes(typ: nat, e: Element, y: bytes)
    requires typ < 0x20 && e.typ == TypeNameOf(typ) && (e.typ.UInt? || e.typ.Int?)
    requires DecodeValueAndLength(y, typ).Ok? && e.value == DecodeValueAndLength(y, typ).value.value
    requires CanonicalValue(e.typ, e.value, y)
    requires BaseOf(typ) % 4 == 0 && BaseOf(typ) < 0x20
    requires EncodeControlByte(BaseOf(typ), WidthOf(typ), e.tag, e.profile).Ok?
    ensures EncodeElement(e).Ok?
    ensures EncodeControlByte(BaseOf(typ), WidthOf(typ), e.tag, e.profile).value + y
            == EncodeElement(e).value + Skip(y, DecodeValueAndLength(y, typ).value.length)
  {
    hide TypeNameOf;
    hide EncodeControlByte;
    if e.typ.UInt? {
      UnsignedReencodes(y, e.typ.w);
      IntegerReencodes(TYPE_UNSIGNED_INTEGER, e.typ.w, e, y, EncodeUnsignedInt(e.value));
    } else {
      SignedReencodes(y, e.typ.w);
      IntegerReencodes(TYPE_SIGNED_INTEGER, e.typ.w, e, y, EncodeSignedInt(e.value));
    }
  }

  lemma CountedPayloadReencodes(typ: nat, e: Element, y: bytes)
    requires typ < 0x20 && e.typ == TypeNameOf(typ) && (e.typ.StringLen? || e.typ.BufferLen?)
    requires DecodeValueAndLength(y, typ).Ok? && e.value == DecodeValueAndLength(y, typ).value.value
    requires CanonicalValue(e.typ, e.value, y)
    requires BaseOf(typ) % 4 == 0 && BaseOf(typ) < 0x20
    requires EncodeControlByte(BaseOf(typ), WidthOf(typ), e.tag, e.profile).Ok?
    ensures EncodeElement(e).Ok?
    ensures EncodeControlByte(BaseOf(typ), WidthOf(typ), e.tag, e.profile).value + y
            == EncodeElement(e).value + Skip(y, DecodeValueAndLength(y, typ).value.length)
  {
    hide TypeNameOf;
    hide EncodeControlByte;
    hide PutCounted;
    hide DecodeValueAndLength;
    hide Replaced;
    hide Utf8;
    hide Utf16Length;
    hide Take;
    hide Skip;
    hide FromLE;
    hide UnsignedWidth;
    CountedPayload(typ, y);
    if e.typ.StringLen? {
      ReplacedAscii(Take(y, e.typ.w, FromLE(y[..e.typ.w])));
      AsciiIsUtf8(e.value.utf8);
      LengthIsByteCountIffAscii(e.value.utf8);
      CountedReencodes(true, e.typ.w, e, y, e.value.utf8);
    } else {
      CountedReencodes(false, e.typ.w, e, y, e.value.data);
    }
  }

  /** A string or buffer was taken from behind its length field. */
  lemma CountedPayload(typ: nat, y: bytes)
    requires DecodeValueAndLength(y, typ).Ok?
    ensures var v := DecodeValueAndLength(y, typ).value;
            && (TypeNameOf(typ).StringLen? && v.value.Str? ==>
                  var w := TypeNameOf(typ).w;
                  && w <= |y| && v.length == w + FromLE(y[..w])
                  && v.value.utf8 == Replaced(Take(y, w, FromLE(y[..w]))))
            && (TypeNameOf(typ).BufferLen? && v.value.Buf? ==>
                  var w := TypeNameOf(typ).w;
                  w <= |y| && v.length == w + FromLE(y[..w]) && v.value.data == Take(y, w, FromLE(y[..w])))
  {
    hide TypeNameOf;
    hide Replaced;
    hide Take;
    hide FromLE;
  }

  lemma FixedPayloadReencodes(typ: nat, e: Element, y: bytes)
    requires typ < 0x20 && e.typ == TypeNameOf(typ) && !IsContainer(e.typ) && WidthOf(typ) == 0
    requires DecodeValueAndLength(y, typ).Ok? && e.value == DecodeValueAndLength(y, typ).value.value
    requires CanonicalValue(e.typ, e.value, y)
    requires EncodeControlByte(typ, 0, e.tag, e.profile).Ok?
    ensures EncodeElement(e).Ok?
    ensures EncodeControlByte(typ, 0, e.tag, e.profile).value + y
            == EncodeElement(e).value + Skip(y, DecodeValueAndLength(y, typ).value.length)
  {
    hide EncodeControlByte;
    FixedReencodes(typ, DecodeValueAndLength(y, typ).value.length, e, y);
  }

  /** A canonical element that is no container is re-encoded to its bytes. */
  lemma ScalarReencodes(typ: nat, control: nat, after: bytes)
    requires typ < 0x20 && control % 0x20 == 0 && control <= 0xE0
    requires HeadFrom(typ, control, after).Ok?
    requires var e := HeadFrom(typ, control, after).value.element;
             !IsContainer(e.typ) && CanonicalParts(control, after, e)
    ensures var h := HeadFrom(typ, control, after).value;
            EncodeElement(h.element).Ok? && [typ + control] + after == EncodeElement(h.element).value + h.rest
  {
    var e := HeadFrom(typ, control, after).value.element;
    BaseAndBits(typ);
    TagReencodes(after, control);
    HeadReencodes(typ, control, after, BaseOf(typ), WidthOf(typ), e);
    PayloadReencodes(typ, e, Skip(after, TagLength(control)));
  }

  lemma ContainerReencodes(typ: nat, control: nat, after: bytes)
    requires typ < 0x20 && control % 0x20 == 0 && control <= 0xE0
    requires HeadFrom(typ, control, after).Ok?
    requires var e := HeadFrom(typ, control, after).value.element;
             IsContainer(e.typ) && CanonicalParts(control, after, e)
    ensures var h := HeadFrom(typ, control, after).value;
            PutStart(h.element.typ, h.element.tag, h.element.profile).Ok?
            && [typ + control] + after == PutStart(h.element.typ, h.element.tag, h.element.profile).value + h.rest
  {
    TagReencodes(after, control);
    HeadReencodes(typ, control, after, typ, 0, HeadFrom(typ, control, after).value.element);
  }

  lemma FieldsOf(c: byte)
    ensures TypeField(c) < 0x20 && TagField(c) % 0x20 == 0 && TagField(c) <= 0xE0
    ensures TypeField(c) + TagField(c) == c
  {
  }

  // ----- whole byte strings

  /** What `ScanItems` stopped in front of. */
  function Tail(s: Scan): bytes
    requires s.Good?
  {
    if s.closed then [TYPE_END] + s.rest else s.rest
  }

  /** `tlv` reads as the forest of `p` whose encoding it starts with. */
  predicate Reencodes(tlv: bytes, p: Result<Parsed>, tail: bytes) {
    p.Ok? && EncodeForest(p.value.items).Ok? && tlv == EncodeForest(p.value.items).value + tail
  }

  lemma ConsReencodes(tlv: bytes, e: Element, rest: bytes, p: Result<Parsed>, tail: bytes)
    requires EncodeElement(e).Ok? && tlv == EncodeElement(e).value + rest
    requires Reencodes(rest, p, tail)
    ensures Reencodes(tlv, Prepend([e], p), tail)
  {
    var es := p.value.items;
    assert ([e] + es)[1..] == es;
    Regroup(EncodeElement(e).value, EncodeForest(es).value, tail, []);
    assert EncodeElement(e).value + (EncodeForest(es).value + tail)
           == EncodeElement(e).value + EncodeForest(es).value + tail;
  }

  lemma ContainerEncodes(e: Element, items: Forest)
    requires IsContainer(e.typ) && PutStart(e.typ, e.tag, e.profile).Ok? && EncodeForest(items).Ok?
    ensures EncodeElement(e.(value := Children(items)))
            == Ok(PutStart(e.typ, e.tag, e.profile).value + EncodeForest(items).value + [TYPE_END])
  {
  }

  lemma CanonicalHeadReencodes(tlv: bytes)
    requires tlv != [] && ReadHead(tlv).Ok? && CanonicalHead(tlv, ReadHead(tlv).value)
    ensures var h := ReadHead(tlv).value; var e := h.element;
            if IsContainer(e.typ) then
              PutStart(e.typ, e.tag, e.profile).Ok? && tlv == PutStart(e.typ, e.tag, e.profile).value + h.rest
            else EncodeElement(e).Ok? && tlv == EncodeElement(e).value + h.rest
  {
    hide HeadFrom;
    hide TypeField;
    hide TagField;
    hide EncodeElement;
    hide PutStart;
    hide CanonicalParts;
    FieldsOf(tlv[0]);
    assert tlv == [tlv[0]] + tlv[1..];
    if IsContainer(ReadHead(tlv).value.element.typ) {
      ContainerReencodes(TypeField(tlv[0]), TagField(tlv[0]), tlv[1..]);
    } else {
      ScalarReencodes(TypeField(tlv[0]), TagField(tlv[0]), tlv[1..]);
    }
  }

  /** A canonical byte string decodes, and encoding the result gives it back. */
  lemma {:induction false} ScanReencodes(tlv: bytes)
    requires ScanItems(tlv).Good?
    ensures Reencodes(tlv, Items(tlv), Tail(ScanItems(tlv)))
    ensures var p := Items(tlv).value; p.closed == ScanItems(tlv).closed && p.rest == ScanItems(tlv).rest && p.open == 0
    decreases |tlv|
  {
    hide ReadHead;
    hide CanonicalHead;
    if tlv != [] {
      var h := ReadHead(tlv).value;
      var e := h.element;
      ItemsByHead(tlv);
      if h.typ == TYPE_END {
        EndHead(tlv[1..]);
        assert tlv == [TYPE_END] + tlv[1..];
      } else if IsContainer(e.typ) {
        CanonicalHeadReencodes(tlv);
        ScanReencodes(h.rest);
        var inner := Items(h.rest).value;
        ScanReencodes(inner.rest);
        ContainerEncodes(e, inner.items);
        Regroup(PutStart(e.typ, e.tag, e.profile).value, EncodeForest(inner.items).value, [TYPE_END], inner.rest);
        ConsReencodes(tlv, e.(value := Children(inner.items)), inner.rest, Items(inner.rest), Tail(ScanItems(tlv)));
      } else {
        CanonicalHeadReencodes(tlv);
        ScanReencodes(h.rest);
        ConsReencodes(tlv, e, h.rest, Items(h.rest), Tail(ScanItems(tlv)));
      }
    }
  }
}
