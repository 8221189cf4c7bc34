/** The exact domain of the writer and of the round trip through the reader's grammar. */
module TlvTheorems {
  import opened Bytes
  import opened Tlv
  import opened TlvCodec
  import opened TlvGrammar
  import opened TlvPrinter
  import opened TlvRoundTrip

  // ----- what the writer accepts

  predicate TagWritable(tag: Option<int>, profile: Option<int>) {
    match profile
    case None => tag.Some? ==> 0 <= tag.value <= UINT8_MAX
    case Some(p) =>
      tag.Some?
      && if CommonProfile(p) || ImplicitProfile(p) then 0 <= tag.value <= UINT32_MAX
         else 0 <= tag.value <= UINT32_MAX ==> 0 <= p <= UINT32_MAX
  }

  predicate SignedWritable(v: Value) {
    (v.Num? || v.Big?) && -0x8000_0000_0000_0000 <= v.n < 0x8000_0000_0000_0000
  }

  /** A bigint must not fit in 32 bits. */
  predicate UnsignedWritable(v: Value) {
    (v.Num? && 0 <= v.n < 0x1_0000_0000_0000_0000) || (v.Big? && UINT32_MAX < v.n < 0x1_0000_0000_0000_0000)
  }

  predicate ScalarWritable(v: Value) {
    match v
    case Undefined | Bool(_) => true
    case Num(n) => SignedWritable(v) || UnsignedWritable(v)
    case Big(n) => if n < 0 then SignedWritable(v) else UnsignedWritable(v)
    case Dbl(b) => NonIntegral(b)
    case Str(s) => Utf8(s) && Utf16Length(s) < 0x1_0000_0000_0000_0000
    case Buf(d) => |d| < 0x1_0000_0000_0000_0000
    case F32(_) | Children(_) => false
  }

  predicate WritableElement(e: Element)
    decreases e, 1
  {
    match e.typ
    case Struct | Array | List => TagWritable(e.tag, e.profile) && WritableInner(e.value)
    case Int(_) => TagWritable(e.tag, e.profile) && SignedWritable(e.value)
    case UInt(_) => TagWritable(e.tag, e.profile) && UnsignedWritable(e.value)
    case Float => TagWritable(e.tag, e.profile) && e.value.F32? && |e.value.bits| == 4
    case Boolean => TagWritable(e.tag, e.profile)
    case PlainBuffer =>
      && TagWritable(e.tag, e.profile) && (e.value.Buf? || e.value.Str?)
      && |if e.value.Buf? then e.value.data else FromHex(e.value.utf8)| < 0x1_0000_0000_0000_0000
    case _ =>
      if e.value.Children? then Writable(e.value.items)
      else TagWritable(e.tag, e.profile) && ScalarWritable(e.value)
  }

  predicate WritableInner(v: Value)
    decreases v, 1
  {
    match v
    case Children(items) => Writable(items)
    case Undefined => false
    case Buf(_) => true
    case _ => ScalarWritable(v)
  }

  predicate Writable(es: Forest)
    decreases es, 0
  {
    es == [] || (WritableElement(es[0]) && Writable(es[1..]))
  }

  lemma IntegersWrite(v: Value)
    ensures EncodeSignedInt(v).Ok? <==> SignedWritable(v)
    ensures EncodeUnsignedInt(v).Ok? <==> UnsignedWritable(v)
    ensures EncodeSignedInt(v).Ok? ==> WidthBits(|EncodeSignedInt(v).value|).Ok?
    ensures EncodeUnsignedInt(v).Ok? ==> WidthBits(|EncodeUnsignedInt(v).value|).Ok?
  {
    Pow256Values();
  }

  lemma TagsWrite(typ: nat, len: nat, tag: Option<int>, profile: Option<int>)
    requires typ < 0x20 && (len > 1 ==> typ % 4 == 0) && WidthBits(len).Ok?
    ensures EncodeControlByte(typ, len, tag, profile).Ok? <==> TagWritable(tag, profile)
  {
    Pow256Values();
  }

  lemma IntegerPuts(typ: nat, encoded: Result<bytes>, tag: Option<int>, profile: Option<int>)
    requires typ < 0x20 && typ % 4 == 0
    requires encoded.Ok? ==> WidthBits(|encoded.value|).Ok?
    ensures PutInteger(typ, encoded, tag, profile).Ok? <==> encoded.Ok? && TagWritable(tag, profile)
  {
    if encoded.Ok? {
      TagsWrite(typ, |encoded.value|, tag, profile);
    }
  }

  lemma ScalarPuts(v: Value, tag: Option<int>, profile: Option<int>)
    ensures PutScalar(v, tag, profile).Ok? <==> ScalarWritable(v) && TagWritable(tag, profile)
  {
    IntegersWrite(v);
    match v
    case Str(s) => if Utf8(s) { CountedPuts(TYPE_UTF8_STRING, Utf16Length(s), s, tag, profile); }
    case Buf(d) => CountedPuts(TYPE_BYTE_STRING, |d|, d, tag, profile);
    case Num(n) =>
      IntegerPuts(TYPE_SIGNED_INTEGER, EncodeSignedInt(v), tag, profile);
      IntegerPuts(TYPE_UNSIGNED_INTEGER, EncodeUnsignedInt(v), tag, profile);
    case Big(n) =>
      IntegerPuts(TYPE_SIGNED_INTEGER, EncodeSignedInt(v), tag, profile);
      IntegerPuts(TYPE_UNSIGNED_INTEGER, EncodeUnsignedInt(v), tag, profile);
    case Dbl(_) => TagsWrite(TYPE_DOUBLE, 0, tag, profile);
    case Bool(b) => TagsWrite(if b then TYPE_BOOLEAN_TRUE else TYPE_BOOLEAN_FALSE, 0, tag, profile);
    case Undefined => TagsWrite(TYPE_NULL, 0, tag, profile);
    case F32(_) =>
    case Children(_) =>
  }

  lemma CountedPuts(typ: nat, length: nat, data: bytes, tag: Option<int>, profile: Option<int>)
    requires typ < 0x20 && typ % 4 == 0
    ensures PutCounted(typ, length, data, tag, profile).Ok?
            <==> length < 0x1_0000_0000_0000_0000 && TagWritable(tag, profile)
  {
    IntegersWrite(Num(length));
    IntegerPuts(typ, EncodeUnsignedInt(Num(length)), tag, profile);
  }

  /** The writer returns, rather than throwing, exactly on the writable forests. */
  lemma {:induction false} WritesExactlyWritable(es: Forest)
    ensures EncodeForest(es).Ok? <==> Writable(es)
    decreases es, 0
  {
    if es != [] {
      WritesExactlyWritableElement(es[0]);
      WritesExactlyWritable(es[1..]);
    }
  }

  lemma {:induction false} WritesExactlyWritableElement(e: Element)
    ensures EncodeElement(e).Ok? <==> WritableElement(e)
    decreases e, 1
  {
    IntegersWrite(e.value);
    match e.typ
    case Struct | Array | List =>
      TagsWrite(ContainerCode(e.typ), 0, e.tag, e.profile);
      WritesExactlyWritableInner(e.value);
    case Int(_) => IntegerPuts(TYPE_SIGNED_INTEGER, EncodeSignedInt(e.value), e.tag, e.profile);
    case UInt(_) => IntegerPuts(TYPE_UNSIGNED_INTEGER, EncodeUnsignedInt(e.value), e.tag, e.profile);
    case Float => TagsWrite(TYPE_FLOAT, 0, e.tag, e.profile);
    case Boolean => ScalarPuts(Bool(Truthy(e.value)), e.tag, e.profile);
    case PlainBuffer =>
      if BufferOf(e.value).Ok? {
        ScalarPuts(Buf(BufferOf(e.value).value), e.tag, e.profile);
      }
    case _ =>
      if e.value.Children? {
        WritesExactlyWritable(e.value.items);
      } else {
        ScalarPuts(e.value, e.tag, e.profile);
      }
  }

  lemma {:induction false} WritesExactlyWritableInner(v: Value)
    ensures EncodeInner(v).Ok? <==> WritableInner(v)
    decreases v, 1
  {
    match v
    case Children(items) => WritesExactlyWritable(items);
    case Buf(_) => ScalarPuts(Undefined, None, None);
    case _ => ScalarPuts(v, None, None);
  }

  // ----- what is lost otherwise

  /** Reading `b` fails, does not start with the forest `expected`, or goes on astray and not with what `y` reads as. */
  predicate Misreads(b: bytes, expected: Forest, y: bytes) {
    Items(b).Err? || !(expected <= Items(b).value.items) || Strays(Items(b).value.items[|expected|..], y)
  }

  /** The items begin with one that has no type, and are not those of `y`. */
  predicate Strays(items: Forest, y: bytes) {
    items != [] && items[0].typ == NoName && (Items(y).Ok? ==> items != Items(y).value.items)
  }

  lemma FirstItemDiffers(b: bytes, h: Head, e: Element, y: bytes)
    requires b != [] && ReadHead(b) == Ok(h)
    requires h.typ != TYPE_END && !IsContainer(h.element.typ) && h.element != e
    ensures Misreads(b, [e], y)
  {
    ItemsByHead(b);
    if Items(b).Ok? {
      assert Items(b).value.items[0] == h.element;
    }
  }

  lemma UnfitBytesMisread(text: bool, length: nat, data: bytes, tag: Option<int>, profile: Option<int>, e: Element,
                          x: bytes)
    requires PutCounted(CountedCode(text), length, data, tag, profile).Ok?
    requires e.value == if text then Str(data) else Buf(data)
    requires length < |data| || UINT32_MAX < length
    requires text && length <= UINT32_MAX ==> Replaced(data[..length]) != data
    ensures Misreads(PutCounted(CountedCode(text), length, data, tag, profile).value + x, [e], x)
  {
    hide Misreads;
    hide ReadHead;
    hide PutCounted;
    hide Replaced;
    hide TagBack;
    hide WidthBits;
    CountedReadsBack(text, length, data, tag, profile, x);
    var b := PutCounted(CountedCode(text), length, data, tag, profile).value;
    CountedTypes(text, UnsignedWidth(length));
    if length < |data| {
      assert Take(data + x, 0, length) == data[..length];
    }
    FirstItemDiffers(b + x, ReadHead(b + x).value, e, x);
  }

  // ----- the string that comes back one byte short

  /** No type, and a tag of four bytes under the implicit profile. */
  predicate Stray(b: byte) {
    0xB9 <= b < 0xC0
  }

  lemma StrayHead(a: byte, tlv: bytes)
    requires Stray(a)
    ensures ReadHead([a] + tlv) == HeadFrom(TypeField(a), TAG_IMPLICIT_4, tlv)
    ensures TypeField(a) > TYPE_END && TypeNameOf(TypeField(a)) == NoName
  {
    hide HeadFrom;
    assert ([a] + tlv)[1..] == tlv;
  }

  lemma StrayTag(typ: nat, tlv: bytes)
    requires TypeNameOf(typ) == NoName
    ensures HeadFrom(typ, TAG_IMPLICIT_4, tlv)
            == if |tlv| < 4 then Err(Thrown)
               else Ok(Head(typ, Element(Some(-1), Some(FromLE(tlv[..4])), NoName, Undefined), tlv[4..]))
  {
    hide FromLE;
    hide TypeNameOf;
    if |tlv| >= 4 {
      assert tlv[0..4] == tlv[..4];
      assert Skip(Skip(tlv, 4), 0) == tlv[4..];
    }
  }

  lemma TypelessOver(h: Head)
    requires h.element.typ == NoName && h.typ != TYPE_END
    ensures ItemsOver(h) == Prepend([h.element], Items(h.rest))
  {
    hide Items;
  }

  lemma StrayItems(a: byte, tlv: bytes)
    requires Stray(a) && Items([a] + tlv).Ok?
    ensures |tlv| >= 4 && Items(tlv[4..]).Ok?
    ensures Items([a] + tlv).value.items
            == [Element(Some(-1), Some(FromLE(tlv[..4])), NoName, Undefined)] + Items(tlv[4..]).value.items
  {
    hide *;
    StrayHead(a, tlv);
    StrayTag(TypeField(a), tlv);
    ItemsByHead([a] + tlv);
    if |tlv| >= 4 {
      var h := Head(TypeField(a), Element(Some(-1), Some(FromLE(tlv[..4])), NoName, Undefined), tlv[4..]);
      TypelessOver(h);
      PrependedItems([h.element], Items(h.rest));
    }
  }

  lemma PrependedItems(es: Forest, p: Result<Parsed>)
    requires Prepend(es, p).Ok?
    ensures p.Ok? && Prepend(es, p).value.items == es + p.value.items
  {
  }

  /** Two stray bytes in front of bytes read as an entry without a type, and never as the bytes alone. */
  lemma {:induction false} StrayDiffers(a: byte, b: byte, y: bytes)
    requires Stray(a) && Stray(b) && Items([a, b] + y).Ok?
    ensures Strays(Items([a, b] + y).value.items, y)
    decreases |y|
  {
    hide Items;
    hide ReadHead;
    assert [a, b] + y == [a] + ([b] + y);
    StrayItems(a, [b] + y);
    if Items(y).Ok? && Items([a, b] + y).value.items == Items(y).value.items {
      var c, z := StrayAgain(a, b, y);
      StrayDiffers(b, c, z);
    }
  }

  /** If they did, so would two more stray bytes in front of a shorter rest. */
  lemma StrayAgain(a: byte, b: byte, y: bytes) returns (c: byte, z: bytes)
    requires Stray(a) && Stray(b) && Items([a, b] + y).Ok?
    requires Items(y).Ok? && Items([a, b] + y).value.items == Items(y).value.items
    ensures |z| < |y| && Stray(c) && Items([b, c] + z).Ok? && Items(z).Ok?
    ensures Items([b, c] + z).value.items == Items(z).value.items
  {
    hide Items;
    hide ReadHead;
    hide FromLE;
    var tlv := [b] + y;
    assert [a, b] + y == [a] + tlv;
    StrayItems(a, tlv);
    ItemsOfNothing();
    FirstItem(y);
    TypelessHead(y, FromLE(tlv[..4]));
    c, z := y[0], y[1..];
    if TagField(c) == TAG_IMPLICIT_2 {
      assert y[1..3] == tlv[..4][2..];
      NarrowTag(tlv[..4]);
      assert false;
    }
    TagAndType(c);
    assert y == [c] + z;
    StrayItems(c, z);
    SameTag(tlv[..4], z[..4]);
    assert forall i :: 0 <= i < 4 ==> z[i] == z[..4][i];
    assert z[0] == tlv[..4][0] == b && z[1] == tlv[..4][1] == c;
    assert z[2] == tlv[..4][2] == z[0] && z[3] == tlv[..4][3] == z[1];
    assert tlv[4..] == y[3..] == [b, c] + y[5..] && z[4..] == y[5..];
    z := y[5..];
    SameTails(Items(y).value.items[0], Items([b, c] + z).value.items, Items(z).value.items);
  }

  lemma SameTails(e: Element, a: Forest, b: Forest)
    requires [e] + a == [e] + b
    ensures a == b
  {
    assert a == ([e] + a)[1..] && b == ([e] + b)[1..];
  }

  lemma TagAndType(c: byte)
    requires TagField(c) == TAG_IMPLICIT_4 && TypeField(c) > TYPE_END
    ensures Stray(c)
  {
  }

  /** The first item is that of the first head, its children apart. */
  lemma FirstItem(y: bytes)
    requires y != [] && Items(y).Ok? && Items(y).value.items != [] && Items(y).value.items[0].typ == NoName
    ensures ReadHead(y).Ok? && ReadHead(y).value.element == Items(y).value.items[0]
    ensures ReadHead(y).value.typ != TYPE_END
  {
    hide ReadHead;
    ItemsByHead(y);
  }

  lemma TypelessHead(y: bytes, tag: nat)
    requires y != [] && ReadHead(y).Ok? && ReadHead(y).value.typ != TYPE_END
    requires ReadHead(y).value.element == Element(Some(-1), Some(tag), NoName, Undefined)
    ensures TypeField(y[0]) > TYPE_END
    ensures TagField(y[0]) == TAG_IMPLICIT_2 || TagField(y[0]) == TAG_IMPLICIT_4
    ensures TagField(y[0]) == TAG_IMPLICIT_2 ==> |y| >= 3 && tag == FromLE(y[1..3])
    ensures TagField(y[0]) == TAG_IMPLICIT_4 ==> |y| >= 5 && tag == FromLE(y[1..5])
  {
    hide FromLE;
    hide TagField;
    hide DecodeValueAndLength;
    ImplicitTag(y[1..], TagField(y[0]));
    assert |y| >= 3 ==> y[1..][..2] == y[1..3];
    assert |y| >= 5 ==> y[1..][..4] == y[1..5];
  }

  lemma ImplicitTag(tlv: bytes, control: nat)
    requires DecodeTagAndLength(tlv, control).Ok? && DecodeTagAndLength(tlv, control).value.profile == Some(-1)
    ensures control == TAG_IMPLICIT_2 || control == TAG_IMPLICIT_4
    ensures control == TAG_IMPLICIT_2 ==>
              |tlv| >= 2 && DecodeTagAndLength(tlv, control).value.tag == Some(FromLE(tlv[..2]))
    ensures control == TAG_IMPLICIT_4 ==>
              |tlv| >= 4 && DecodeTagAndLength(tlv, control).value.tag == Some(FromLE(tlv[..4]))
  {
    assert |tlv| >= 2 ==> tlv[0..2] == tlv[..2];
    assert |tlv| >= 4 ==> tlv[0..4] == tlv[..4];
  }

  lemma NarrowTag(t: bytes)
    requires |t| == 4 && Stray(t[0])
    ensures FromLE(t) != FromLE(t[2..])
  {
    assert t[1..][1..] == t[2..];
    assert FromLE(t) == t[0] + 256 * (t[1] + 256 * FromLE(t[2..]));
  }

  lemma SameTag(t: bytes, u: bytes)
    requires |t| == 4 && |u| == 4 && FromLE(t) == FromLE(u)
    ensures t == u
  {
    ToFromLE(t);
    ToFromLE(u);
  }

  lemma CountedTypes(text: bool, w: Width)
    ensures WidthBits(w).Ok? && CountedCode(text) + WidthBits(w).value < TYPE_END
  {
  }

  lemma UnfitScalarMisreads(v: Value, tag: Option<int>, profile: Option<int>, e: Element, x: bytes)
    requires PutScalar(v, tag, profile).Ok? && !ScalarFits(v) && e.value == v
    ensures Misreads(PutScalar(v, tag, profile).value + x, [e], x)
  {
    if v.Buf? {
      UnfitBytesMisread(false, |v.data|, v.data, tag, profile, e, x);
    } else {
      LengthIsByteCountIffAscii(v.utf8);
      CutComesBackIff(v.utf8);
      if OneReplacement(v.utf8) && Utf16Length(v.utf8) <= UINT32_MAX {
        OneReplacementMisreads(v.utf8, tag, profile, e, x);
      } else {
        UnfitBytesMisread(true, Utf16Length(v.utf8), v.utf8, tag, profile, e, x);
      }
    }
  }

  /** ASCII and then U+FFFD is read as written, but two bytes of it are left to be read again. */
  lemma OneReplacementReads(s: bytes, tag: Option<int>, profile: Option<int>, x: bytes)
    requires Utf8(s) && OneReplacement(s) && Utf16Length(s) <= UINT32_MAX && PutString(s, tag, profile).Ok?
    ensures var b, back := PutString(s, tag, profile).value, TagBack(tag, profile);
            var w := UnsignedWidth(|s| - 2);
            b != [] && WidthBits(w).Ok?
            && ReadHead(b + x) == Ok(Head(CountedCode(true) + WidthBits(w).value,
                                          Element(back.profile, back.tag, StringLen(w), Str(s)), [0xBF, 0xBD] + x))
  {
    hide *;
    OneReplacementComesBack(s);
    OneReplacementLength(s);
    PutsCounted(s, tag, profile);
    WidthGivesBits(UnsignedWidth(|s| - 2));
    CountedReadsBack(true, |s| - 2, s, tag, profile, x);
    OneReplacementLeft(s, x);
    CountedText(|s| - 2, s + x);
  }

  lemma OneReplacementLength(s: bytes)
    requires OneReplacement(s)
    ensures |s| >= 3
  {
  }

  lemma PutsCounted(s: bytes, tag: Option<int>, profile: Option<int>)
    requires Utf8(s)
    ensures PutString(s, tag, profile) == PutCounted(CountedCode(true), Utf16Length(s), s, tag, profile)
    ensures CountedCode(true) < 0x20 && CountedCode(true) % 4 == 0
  {
  }

  lemma CountedText(length: nat, y: bytes)
    requires length <= UINT32_MAX
    ensures CountedBack(true, length, y) == Scalar(StringLen(UnsignedWidth(length)), Str(Replaced(Take(y, 0, length))))
    ensures UnsignedWidth(length) != 8
  {
  }

  lemma OneReplacementLeft(s: bytes, x: bytes)
    requires OneReplacement(s)
    ensures Take(s + x, 0, |s| - 2) == s[..|s| - 2]
    ensures Skip(s + x, |s| - 2) == [0xBF, 0xBD] + x
  {
    assert s[|s| - 3..][1..] == s[|s| - 2..] == [0xBF, 0xBD];
    assert (s + x)[..|s| - 2] == s[..|s| - 2] && (s + x)[|s| - 2..] == s[|s| - 2..] + x;
  }

  lemma OneReplacementMisreads(s: bytes, tag: Option<int>, profile: Option<int>, e: Element, x: bytes)
    requires Utf8(s) && OneReplacement(s) && Utf16Length(s) <= UINT32_MAX && PutString(s, tag, profile).Ok?
    ensures Misreads(PutString(s, tag, profile).value + x, [e], x)
  {
    hide ReadHead;
    var b := PutString(s, tag, profile).value;
    OneReplacementReads(s, tag, profile, x);
    CountedTypes(true, UnsignedWidth(|s| - 2));
    var h := ReadHead(b + x).value;
    if h.element != e {
      FirstItemDiffers(b + x, h, e, x);
    } else {
      ItemsByHead(b + x);
      if Items([0xBF, 0xBD] + x).Ok? {
        StrayDiffers(0xBF, 0xBD, x);
        assert ([e] + Items([0xBF, 0xBD] + x).value.items)[1..] == Items([0xBF, 0xBD] + x).value.items;
      }
    }
  }

  lemma ContainerMisreads(e: Element, inside: bytes, y: bytes, x: bytes)
    requires IsContainer(e.typ) && PutStart(e.typ, e.tag, e.profile).Ok?
    requires !TagFits(e.tag, e.profile)
             || (Misreads(inside, NormInner(e.value), y) && Items(y).Ok? && Items(y).value.items == [])
    ensures Misreads(PutStart(e.typ, e.tag, e.profile).value + inside, NormElement(e), x)
  {
    ContainerReadsBack(e.typ, e.tag, e.profile, inside);
    if Items(inside).Ok? {
      var back := TagBack(e.tag, e.profile);
      var c := Element(back.profile, back.tag, e.typ, Children(Items(inside).value.items));
      assert c != NormElement(e)[0];
      OtherFirst(c, NormElement(e)[0], Items(PutStart(e.typ, e.tag, e.profile).value + inside));
    }
  }

  lemma OtherFirst(c: Element, e: Element, p: Result<Parsed>)
    requires c != e
    requires p.Ok? ==> p.value.items != [] && p.value.items[0] == c
    ensures p.Err? || !([e] <= p.value.items)
  {
  }

  lemma {:induction false} UnfaithfulElementMisreads(e: Element, x: bytes)
    requires EncodeElement(e).Ok? && !FaithfulElement(e)
    ensures Misreads(EncodeElement(e).value + x, NormElement(e), x)
    decreases e, 1
  {
    hide Misreads;
    var b := EncodeElement(e).value;
    if IsContainer(e.typ) {
      var head := PutStart(e.typ, e.tag, e.profile).value;
      var body := EncodeInner(e.value).value;
      Regroup(head, body, [TYPE_END], x);
      if TagFits(e.tag, e.profile) {
        UnfaithfulInnerMisreads(e.value, [TYPE_END] + x);
      }
      EndCloses(x);
      ContainerMisreads(e, body + ([TYPE_END] + x), [TYPE_END] + x, x);
    } else if Spliced(e) {
      UnfaithfulMisreads(e.value.items, x);
    } else if ScalarFits(NormTyped(e).value) {
      TypedReadsAs(e, x);
      FirstItemDiffers(b + x, ReadHead(b + x).value, NormElement(e)[0], x);
    } else if e.typ.PlainBuffer? {
      UnfitScalarMisreads(NormTyped(e).value, e.tag, e.profile, NormElement(e)[0], x);
    } else {
      UnfitScalarMisreads(e.value, e.tag, e.profile, NormElement(e)[0], x);
    }
  }

  lemma {:induction false} UnfaithfulInnerMisreads(v: Value, x: bytes)
    requires EncodeInner(v).Ok? && !FaithfulInner(v)
    ensures Misreads(EncodeInner(v).value + x, NormInner(v), x)
    decreases v, 1
  {
    hide Misreads;
    if v.Children? {
      UnfaithfulMisreads(v.items, x);
    } else {
      UnfitScalarMisreads(v, None, None, NormInner(v)[0], x);
    }
  }

  /** A writable forest that is not faithful is misread, whatever follows it. */
  lemma {:induction false} UnfaithfulMisreads(es: Forest, x: bytes)
    requires EncodeForest(es).Ok? && !Faithful(es)
    ensures Misreads(EncodeForest(es).value + x, NormForest(es), x)
    decreases es, 0
  {
    hide Misreads;
    var first := EncodeElement(es[0]).value;
    var others := EncodeForest(es[1..]).value;
    assert first + others + x == first + (others + x);
    if FaithfulElement(es[0]) {
      ElementReadsBack(es[0], others + x);
      UnfaithfulMisreads(es[1..], x);
      MisreadBehind(first + (others + x), NormElement(es[0]), others + x, NormForest(es[1..]), x);
    } else {
      UnfaithfulElementMisreads(es[0], others + x);
      NormsHaveTypes(es[1..]);
      if NormForest(es[1..]) == [] {
        assert others + x == x;
      }
      MisreadBefore(first + (others + x), NormElement(es[0]), others + x, NormForest(es[1..]), x);
    }
  }

  /** Behind what is read back, a misreading is one of the whole. */
  lemma MisreadBehind(b: bytes, norm: Forest, later: bytes, norms: Forest, x: bytes)
    requires Items(b) == Prepend(norm, Items(later)) && Misreads(later, norms, x)
    ensures Misreads(b, norm + norms, x)
  {
    hide Items;
    if Items(later).Ok? {
      var items := Items(later).value.items;
      PrefixCancels(norm, norms, items);
      if norms <= items {
        assert (norm + items)[|norm + norms|..] == items[|norms|..];
      }
    }
  }

  /** A misreading cannot be made good by what is written next: that has types. */
  lemma MisreadBefore(b: bytes, norm: Forest, later: bytes, norms: Forest, x: bytes)
    requires Misreads(b, norm, later) && (norms != [] ==> norms[0].typ != NoName) && (norms == [] ==> later == x)
    ensures Misreads(b, norm + norms, x)
  {
    hide Items;
    if norms == [] {
      assert norm + norms == norm;
    } else if Items(b).Ok? {
      PrefixOfPrefix(norm, norms, Items(b).value.items);
    }
  }

  lemma PrefixOfPrefix(a: Forest, b: Forest, c: Forest)
    requires b != []
    ensures a + b <= c ==> a <= c && |a| < |c| && c[|a|..][0] == b[0]
  {
    if a + b <= c {
      assert a == (a + b)[..|a|] == c[..|a|];
      assert c[|a|] == (a + b)[|a|];
    }
  }

  lemma {:induction false} NormHasTypes(e: Element)
    requires EncodeElement(e).Ok?
    ensures forall i :: 0 <= i < |NormElement(e)| ==> NormElement(e)[i].typ != NoName
    ensures NormElement(e) == [] ==> EncodeElement(e).value == []
    decreases e, 1
  {
    if Spliced(e) {
      NormsHaveTypes(e.value.items);
    }
  }

  lemma {:induction false} NormsHaveTypes(es: Forest)
    requires EncodeForest(es).Ok?
    ensures forall i :: 0 <= i < |NormForest(es)| ==> NormForest(es)[i].typ != NoName
    ensures NormForest(es) == [] ==> EncodeForest(es).value == []
    decreases es, 0
  {
    if es != [] {
      NormHasTypes(es[0]);
      NormsHaveTypes(es[1..]);
    }
  }

  lemma PrefixCancels(a: Forest, b: Forest, c: Forest)
    ensures a + b <= a + c ==> b <= c
  {
    if a + b <= a + c {
      assert b == (a + b)[|a|..];
      assert c == (a + c)[|a|..];
      assert (a + c)[..|a + b|] == a + b;
      assert c[..|b|] == b;
    }
  }

  /** The round trip: a forest the writer accepts comes back in its normal form, with every byte consumed and no
      container left open, exactly when its strings are ASCII, its strings and buffers are shorter than 2^32
      and its fully qualified tags fit in 32 bits. */
  lemma DecodeEncodeIffFaithful(es: Forest)
    requires Writable(es)
    ensures EncodeForest(es).Ok?
    ensures Items(EncodeForest(es).value) == Ok(Parsed(NormForest(es), [], false, 0)) <==> Faithful(es)
  {
    WritesExactlyWritable(es);
    var b := EncodeForest(es).value;
    assert b + [] == b;
    if Faithful(es) {
      ForestReadsBack(es, []);
      assert NormForest(es) + [] == NormForest(es);
    } else {
      UnfaithfulMisreads(es, []);
    }
  }

  const E_ACUTE: bytes := [0xC3, 0xA9]

  /** The one-letter string U+00E9 is written with length 1 in front of two bytes; the second is then read as a
      control byte and decoding throws. */
  lemma NonAsciiStringIsLost()
    ensures EncodeForest([Element(None, None, Other, Str(E_ACUTE))]).Ok?
    ensures EncodeForest([Element(None, None, Other, Str(E_ACUTE))]).value == [0x0C, 1, 0xC3, 0xA9]
    ensures Items([0x0C, 1, 0xC3, 0xA9]) == Err(Thrown)
  {
    NonAsciiStringIsWrittenShort();
    var b := PutCounted(CountedCode(true), 1, E_ACUTE, None, None).value;
    CountedReadsBack(true, 1, E_ACUTE, None, None, []);
    assert E_ACUTE + [] == E_ACUTE && E_ACUTE[1..] == [0xA9];
    assert b + [] == b;
    StrayContinuationByteThrows();
    ItemsByHead(b);
  }

  lemma NonAsciiStringIsWrittenShort()
    ensures PutCounted(CountedCode(true), 1, E_ACUTE, None, None).Ok?
    ensures PutCounted(CountedCode(true), 1, E_ACUTE, None, None).value == [0x0C, 1, 0xC3, 0xA9]
    ensures EncodeForest([Element(None, None, Other, Str(E_ACUTE))]).Ok?
    ensures EncodeForest([Element(None, None, Other, Str(E_ACUTE))]).value == [0x0C, 1, 0xC3, 0xA9]
  {
    assert Continuations(0xC3) == Some(1) && E_ACUTE[2..] == [];
    assert Utf8(E_ACUTE) && Utf16Length(E_ACUTE) == 1;
    assert ToLE(1, 1) == [1] by { assert ToLE(0, 0) == []; }
    Pow256Values();
    var e := Element(None, None, Other, Str(E_ACUTE));
    assert EncodeUnsignedInt(Num(1)) == Ok([1]);
    assert EncodeControlByte(TYPE_UTF8_STRING, 1, None, None).value == [0x0C];
    assert PutInteger(TYPE_UTF8_STRING, Ok([1]), None, None).value == [0x0C, 1];
    assert EncodeElement(e).value == [0x0C, 1, 0xC3, 0xA9];
    assert EncodeElement(e) == PutCounted(CountedCode(true), 1, E_ACUTE, None, None);
    assert [e][1..] == [];
  }

  lemma StrayContinuationByteThrows()
    ensures Items([0xA9]) == Err(Thrown)
  {
    var r := [0xA9];
    assert r[0] % 0x20 == 0x09 && r[1..] == [];
    ItemsByHead(r);
  }
}
