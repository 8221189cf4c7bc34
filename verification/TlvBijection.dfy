/** The writer's faithful output is canonical, so canonical byte strings and normal forms determine each other. */
module TlvBijection {
  import opened Bytes
  import opened Tlv
  import opened TlvCodec
  import opened TlvGrammar
  import opened TlvPrinter
  import opened TlvRoundTrip
  import opened TlvTheorems
  import opened TlvCanonical

  lemma TagIsCanonical(tag: Option<int>, profile: Option<int>)
    requires EncodeTag(tag, profile).Ok? && TagFits(tag, profile)
    ensures var (control, encoded) := EncodeTag(tag, profile).value;
            CanonicalTag(control, tag, NormProfile(profile)) && TagLength(control) == |encoded|
            && control % 0x20 == 0 && control <= 0xE0
  {
  }

  /** A head the writer wrote is canonical when its value is. */
  lemma HeadIsCanonical(typ: nat, len: nat, tag: Option<int>, profile: Option<int>, payload: bytes, s: Scalar, x: bytes)
    requires typ < 0x20 && (len > 1 ==> typ % 4 == 0)
    requires EncodeControlByte(typ, len, tag, profile).Ok? && TagFits(tag, profile)
    requires CanonicalValue(s.typ, s.value, payload + x)
    ensures var b := EncodeControlByte(typ, len, tag, profile).value + payload;
            forall h: Head ::
              h.element == Element(NormProfile(profile), tag, s.typ, s.value) ==> CanonicalHead(b + x, h)
  {
    TagIsCanonical(tag, profile);
    var code := typ + WidthBits(len).value;
    var (control, encoded) := EncodeTag(tag, profile).value;
    FieldsOfSum(code, control);
    var b := EncodeControlByte(typ, len, tag, profile).value + payload;
    assert (b + x)[0] == code + control && (b + x)[1..] == encoded + (payload + x);
    assert Skip(encoded + (payload + x), |encoded|) == payload + x;
  }

  /** `b` is scanned as one canonical element, whatever follows. */
  predicate ScansAway(b: bytes, x: bytes) {
    ScanItems(b + x) == ScanItems(x)
  }

  lemma ScalarScansAway(b: bytes, tag: Option<int>, profile: Option<int>, s: Scalar, x: bytes)
    requires ReadsAs(b, tag, profile, s, x) && TagFits(tag, profile)
    requires forall h: Head ::
               h.element == Element(NormProfile(profile), tag, s.typ, s.value) ==> CanonicalHead(b + x, h)
    ensures ScansAway(b, x)
  {
    hide ReadHead;
    hide CanonicalHead;
    hide ScanItems;
    ScanByHead(b + x);
    var h := ReadHead(b + x).value;
    assert CanonicalHead(b + x, h);
  }

  lemma UnsignedScans(v: Value, tag: Option<int>, profile: Option<int>, x: bytes)
    requires PutUnsignedInt(v, tag, profile).Ok? && TagFits(tag, profile)
    ensures ScansAway(PutUnsignedInt(v, tag, profile).value, x)
  {
    UnsignedReadsAs(v, tag, profile, x);
    var encoded := EncodeUnsignedInt(v).value;
    HeadIsCanonical(TYPE_UNSIGNED_INTEGER, |encoded|, tag, profile, encoded, NormUnsigned(v.n), x);
    ScalarScansAway(PutUnsignedInt(v, tag, profile).value, tag, profile, NormUnsigned(v.n), x);
  }

  lemma SignedScans(v: Value, tag: Option<int>, profile: Option<int>, x: bytes)
    requires PutSignedInt(v, tag, profile).Ok? && TagFits(tag, profile)
    ensures ScansAway(PutSignedInt(v, tag, profile).value, x)
  {
    SignedReadsAs(v, tag, profile, x);
    var encoded := EncodeSignedInt(v).value;
    HeadIsCanonical(TYPE_SIGNED_INTEGER, |encoded|, tag, profile, encoded, NormSigned(v.n), x);
    ScalarScansAway(PutSignedInt(v, tag, profile).value, tag, profile, NormSigned(v.n), x);
  }

  lemma FixedScans(code: nat, payload: bytes, tag: Option<int>, profile: Option<int>, s: Scalar, x: bytes)
    requires code < 0x20 && PutFixed(code, payload, tag, profile).Ok? && TagFits(tag, profile)
    requires s.typ == TypeNameOf(code)
    requires (s.typ.Null? || s.typ.Boolean? || s.typ.Float? || (s.typ.Double? && s.value.Dbl?))
    requires DecodeValueAndLength(payload + x, code) == Ok(DecodedValue(s.value, |payload|))
    ensures ScansAway(PutFixed(code, payload, tag, profile).value, x)
  {
    FixedReadsAs(code, payload, tag, profile, s, x);
    HeadIsCanonical(code, 0, tag, profile, payload, s, x);
    ScalarScansAway(PutFixed(code, payload, tag, profile).value, tag, profile, s, x);
  }

  lemma BooleanScans(b: bool, tag: Option<int>, profile: Option<int>, x: bytes)
    requires PutBoolean(b, tag, profile).Ok? && TagFits(tag, profile)
    ensures ScansAway(PutBoolean(b, tag, profile).value, x)
  {
    var code := if b then TYPE_BOOLEAN_TRUE else TYPE_BOOLEAN_FALSE;
    FixedDecodes(code, [], Scalar(Boolean, Bool(b)), x);
    FixedScans(code, [], tag, profile, Scalar(Boolean, Bool(b)), x);
  }

  lemma CountedScans(text: bool, data: bytes, tag: Option<int>, profile: Option<int>, x: bytes)
    requires |data| <= UINT32_MAX && (text ==> Ascii(data)) && TagFits(tag, profile)
    requires PutCounted(CountedCode(text), |data|, data, tag, profile).Ok?
    ensures ScansAway(PutCounted(CountedCode(text), |data|, data, tag, profile).value, x)
  {
    hide ReadHead;
    hide CanonicalHead;
    var w := UnsignedWidth(|data|);
    var s := if text then Scalar(StringLen(w), Str(data)) else Scalar(BufferLen(w), Buf(data));
    CountedReadsAs(text, data, tag, profile, s, x);
    CountedParts(text, |data|, data, tag, profile);
    var h := EncodeControlByte(CountedCode(text), w, tag, profile).value;
    CountedValueIsCanonical(text, data, s, x);
    HeadIsCanonical(CountedCode(text), w, tag, profile, ToLE(|data|, w) + data, s, x);
    assert h + ToLE(|data|, w) + data == h + (ToLE(|data|, w) + data);
    ScalarScansAway(PutCounted(CountedCode(text), |data|, data, tag, profile).value, tag, profile, s, x);
  }

  lemma CountedValueIsCanonical(text: bool, data: bytes, s: Scalar, x: bytes)
    requires |data| <= UINT32_MAX && (text ==> Ascii(data))
    requires var w := UnsignedWidth(|data|);
             s == if text then Scalar(StringLen(w), Str(data)) else Scalar(BufferLen(w), Buf(data))
    ensures CanonicalValue(s.typ, s.value, ToLE(|data|, UnsignedWidth(|data|)) + data + x)
  {
    var w := UnsignedWidth(|data|);
    Pow256Values();
    FromToLE(|data|, w);
    assert (ToLE(|data|, w) + data + x)[..w] == ToLE(|data|, w);
  }

  lemma ScalarScans(v: Value, tag: Option<int>, profile: Option<int>, x: bytes)
    requires PutScalar(v, tag, profile).Ok? && ScalarFits(v) && TagFits(tag, profile)
    ensures ScansAway(PutScalar(v, tag, profile).value, x)
  {
    match v
    case Undefined =>
      FixedDecodes(TYPE_NULL, [], Scalar(Null, Undefined), x);
      FixedScans(TYPE_NULL, [], tag, profile, Scalar(Null, Undefined), x);
    case Str(s) =>
      LengthIsByteCountIffAscii(s);
      CountedScans(true, s, tag, profile, x);
    case Buf(d) => CountedScans(false, d, tag, profile, x);
    case Num(n) => if n < 0 { SignedScans(v, tag, profile, x); } else { UnsignedScans(v, tag, profile, x); }
    case Big(n) => if n < 0 { SignedScans(v, tag, profile, x); } else { UnsignedScans(v, tag, profile, x); }
    case Dbl(b) =>
      FixedDecodes(TYPE_DOUBLE, b, Scalar(Double, v), x);
      FixedScans(TYPE_DOUBLE, b, tag, profile, Scalar(Double, v), x);
    case Bool(b) => BooleanScans(b, tag, profile, x);
    case F32(_) =>
    case Children(_) =>
  }

  lemma TypedScans(e: Element, x: bytes)
    requires !IsContainer(e.typ) && !Spliced(e) && TagFits(e.tag, e.profile)
    requires EncodeElement(e).Ok? && ScalarFits(NormTyped(e).value)
    ensures ScansAway(EncodeElement(e).value, x)
  {
    match e.typ
    case Int(_) => SignedScans(e.value, e.tag, e.profile, x);
    case UInt(_) => UnsignedScans(e.value, e.tag, e.profile, x);
    case Float =>
      FixedDecodes(TYPE_FLOAT, e.value.bits, Scalar(Float, e.value), x);
      FixedScans(TYPE_FLOAT, e.value.bits, e.tag, e.profile, Scalar(Float, e.value), x);
    case Boolean => BooleanScans(Truthy(e.value), e.tag, e.profile, x);
    case PlainBuffer => CountedScans(false, BufferOf(e.value).value, e.tag, e.profile, x);
    case _ => ScalarScans(e.value, e.tag, e.profile, x);
  }

  lemma EndScans(x: bytes)
    ensures ScanItems([TYPE_END] + x) == Good(x, true)
  {
    hide ReadHead;
    EndHead(x);
    ScanByHead([TYPE_END] + x);
  }

  lemma ContainerScans(e: Element, inside: bytes, x: bytes)
    requires IsContainer(e.typ) && PutStart(e.typ, e.tag, e.profile).Ok? && TagFits(e.tag, e.profile)
    requires ScanItems(inside) == Good(x, true)
    ensures ScanItems(PutStart(e.typ, e.tag, e.profile).value + inside) == ScanItems(x)
  {
    hide ReadHead;
    hide CanonicalHead;
    var start := PutStart(e.typ, e.tag, e.profile).value;
    ContainerHead(e.typ, e.tag, e.profile, inside);
    assert start + [] == start;
    HeadIsCanonical(ContainerCode(e.typ), 0, e.tag, e.profile, [], Scalar(e.typ, Children([])), inside);
    OpenScans(start + inside, ReadHead(start + inside).value, x);
  }

  lemma OpenScans(b: bytes, h: Head, x: bytes)
    requires b != [] && ReadHead(b) == Ok(h) && h.typ != TYPE_END && IsContainer(h.element.typ)
    requires CanonicalHead(b, h) && ScanItems(h.rest) == Good(x, true)
    ensures ScanItems(b) == ScanItems(x)
  {
    hide ReadHead;
    hide CanonicalHead;
    ScanByHead(b);
  }

  lemma {:induction false} ElementScans(e: Element, x: bytes)
    requires EncodeElement(e).Ok? && FaithfulElement(e)
    ensures ScansAway(EncodeElement(e).value, x)
    decreases e, 1
  {
    if IsContainer(e.typ) {
      var start := PutStart(e.typ, e.tag, e.profile).value;
      var body := EncodeInner(e.value).value;
      Regroup(start, body, [TYPE_END], x);
      InnerScans(e.value, [TYPE_END] + x);
      EndScans(x);
      ContainerScans(e, body + ([TYPE_END] + x), x);
    } else if Spliced(e) {
      ForestScans(e.value.items, x);
    } else {
      TypedScans(e, x);
    }
  }

  lemma {:induction false} InnerScans(v: Value, x: bytes)
    requires EncodeInner(v).Ok? && FaithfulInner(v)
    ensures ScansAway(EncodeInner(v).value, x)
    decreases v, 1
  {
    match v
    case Children(items) => ForestScans(items, x);
    case Buf(_) => ScalarScans(Undefined, None, None, x);
    case _ => ScalarScans(v, None, None, x);
  }

  lemma {:induction false} ForestScans(es: Forest, x: bytes)
    requires EncodeForest(es).Ok? && Faithful(es)
    ensures ScansAway(EncodeForest(es).value, x)
    decreases es, 0
  {
    if es == [] {
      assert [] + x == x;
    } else {
      var first := EncodeElement(es[0]).value;
      var others := EncodeForest(es[1..]).value;
      assert first + others + x == first + (others + x);
      ElementScans(es[0], others + x);
      ForestScans(es[1..], x);
    }
  }

  /** Canonical byte strings are those on which decoding and then encoding is the identity by way of a faithful forest:
      the writer's faithful output is canonical, and a canonical byte string is the encoding of what it decodes to. */
  lemma EncodeDecodeCanonical(tlv: bytes)
    requires Canonical(tlv)
    ensures Items(tlv).Ok?
    ensures var p := Items(tlv).value; !p.closed && p.open == 0 && p.rest == [] && EncodeForest(p.items) == Ok(tlv)
  {
    hide ScanItems;
    hide Items;
    hide EncodeForest;
    ScanReencodes(tlv);
    var again := EncodeForest(Items(tlv).value.items).value;
    assert again + [] == again;
  }

  lemma FaithfulOutputIsCanonical(es: Forest)
    requires Writable(es) && Faithful(es)
    ensures EncodeForest(es).Ok? && Canonical(EncodeForest(es).value)
  {
    WritesExactlyWritable(es);
    ForestScans(es, []);
    assert EncodeForest(es).value + [] == EncodeForest(es).value;
  }

  /** Writing the normal form gives the same bytes as writing the forest. */
  lemma NormalFormWritesTheSame(es: Forest)
    requires Writable(es) && Faithful(es)
    ensures EncodeForest(NormForest(es)) == EncodeForest(es)
  {
    FaithfulOutputIsCanonical(es);
    DecodeEncodeIffFaithful(es);
    EncodeDecodeCanonical(EncodeForest(es).value);
  }
}
