/** Reading a decoded tree, and structures of plain members: how they are written and read back. */
module TlvAccess {
  import opened Bytes
  import opened Tlv
  import opened TlvCodec
  import opened TlvGrammar
  import opened TlvPrinter
  import TlvRoundTrip
  import TlvTheorems
  import TlvBijection

  function Member(tag: int, typ: TypeName, value: Value): Element {
    Element(None, Some(tag), typ, value)
  }

  function Outermost(members: Forest): Element {
    Element(None, None, Struct, Children(members))
  }

  /** `v[i].value`: an element's, undefined for a character or byte, an exception for what has no such place. */
  function At(v: Value, i: nat): Result<Value> {
    match v
    case Children(items) => if i < |items| then Ok(items[i].value) else Err(Thrown)
    case Buf(d) => if i < |d| then Ok(Undefined) else Err(Thrown)
    case Str(s) => if Utf8(s) && i < Utf16Length(s) then Ok(Undefined) else Err(Thrown)
    case _ => Err(Thrown)
  }

  /** What can be indexed: arrays, and buffers and strings, whose bytes and characters have no value; nothing past the
      end. */
  lemma AtIsIndexed(v: Value, i: nat)
    ensures v.Children? ==> (At(v, i).Ok? <==> i < |v.items|)
    ensures v.Buf? ==> (At(v, i) == Ok(Undefined) <==> i < |v.data|) && (At(v, i) == Err(Thrown) <==> i >= |v.data|)
    ensures v.Str? && Ascii(v.utf8) ==> (At(v, i).Ok? <==> i < |v.utf8|)
    ensures !v.Children? && !v.Buf? && !v.Str? ==> At(v, i) == Err(Thrown)
  {
    if v.Str? && Ascii(v.utf8) {
      AsciiIsUtf8(v.utf8);
      LengthIsByteCountIffAscii(v.utf8);
    }
  }

  /** `reader.decode(tlv).Json[0].value` */
  function Body(payload: bytes): Result<Value> {
    var p :- Items(payload);
    At(Children(p.items), 0)
  }

  /** `result[0].value[i].value` */
  function Field(payload: bytes, i: nat): Result<Value> {
    var v :- Body(payload);
    At(v, i)
  }

  /** The members that `mapFields` names: a buffer has none, anything else but an array has no `forEach`. */
  function Members(payload: bytes): Result<Forest> {
    var v :- Body(payload);
    match v
    case Children(items) => Ok(items)
    case Buf(_) => Ok([])
    case _ => Err(Thrown)
  }

  /** The value of the first member with the tag. */
  function Tagged(members: Forest, tag: int): Value {
    if members == [] then Undefined
    else if members[0].tag == Some(tag) then members[0].value
    else Tagged(members[1..], tag)
  }

  /** The first member with the tag decides; without one, nothing is found. */
  lemma {:induction false} TaggedIsFirst(members: Forest, tag: int, i: nat)
    requires i <= |members| && forall k :: 0 <= k < i ==> members[k].tag != Some(tag)
    ensures i < |members| && members[i].tag == Some(tag) ==> Tagged(members, tag) == members[i].value
    ensures i == |members| ==> Tagged(members, tag) == Undefined
    decreases |members|
  {
    if i > 0 {
      assert members[0].tag != Some(tag);
      assert forall k :: 0 <= k < i - 1 ==> members[1..][k] == members[k + 1];
      TaggedIsFirst(members[1..], tag, i - 1);
    }
  }

  lemma NormOne(e: Element)
    requires !TlvRoundTrip.Spliced(e)
    ensures TlvRoundTrip.NormForest([e]) == TlvRoundTrip.NormElement(e)
    ensures |TlvRoundTrip.NormForest([e])| == 1
    ensures TlvRoundTrip.Faithful([e]) <==> TlvRoundTrip.FaithfulElement(e)
    ensures TlvTheorems.Writable([e]) <==> TlvTheorems.WritableElement(e)
  {
    assert [e][1..] == [];
    assert TlvRoundTrip.NormElement(e) + [] == TlvRoundTrip.NormElement(e);
  }

  /** Members that come back one for one. */
  predicate Plain(es: Forest) {
    forall i :: 0 <= i < |es| ==> PlainElement(es[i])
  }

  predicate PlainElement(e: Element) {
    !TlvRoundTrip.Spliced(e) && TlvRoundTrip.FaithfulElement(e) && TlvTheorems.WritableElement(e)
  }

  /** `e` comes back as `back`. */
  predicate ComesBackAs(e: Element, back: Element) {
    PlainElement(e) && TlvRoundTrip.NormElement(e) == [back]
  }

  lemma {:induction false} PlainMembers(es: Forest)
    requires Plain(es)
    ensures TlvRoundTrip.Faithful(es) && TlvTheorems.Writable(es)
    ensures |TlvRoundTrip.NormForest(es)| == |es|
    ensures forall i :: 0 <= i < |es| ==> ComesBackAs(es[i], TlvRoundTrip.NormForest(es)[i])
  {
    if es != [] {
      NormOne(es[0]);
      PlainMembers(es[1..]);
    }
  }

  /** A written structure of plain members reads back as the structure of their normal forms, whatever follows it. */
  lemma StructureReadsBack(es: Forest, x: bytes)
    requires Plain(es)
    ensures EncodeForest([Outermost(es)]).Ok?
    ensures TlvTheorems.Writable([Outermost(es)]) && TlvRoundTrip.Faithful([Outermost(es)])
    ensures TlvRoundTrip.NormForest([Outermost(es)]) == [Outermost(TlvRoundTrip.NormForest(es))]
    ensures Items(EncodeForest([Outermost(es)]).value + x)
            == Prepend([Outermost(TlvRoundTrip.NormForest(es))], Items(x))
  {
    PlainMembers(es);
    NormOne(Outermost(es));
    TlvTheorems.WritesExactlyWritable([Outermost(es)]);
    TlvRoundTrip.ForestReadsBack([Outermost(es)], x);
  }

  lemma StructureBody(es: Forest)
    requires Plain(es)
    ensures EncodeForest([Outermost(es)]).Ok?
    ensures Body(EncodeForest([Outermost(es)]).value) == Ok(Children(TlvRoundTrip.NormForest(es)))
    ensures |TlvRoundTrip.NormForest(es)| == |es|
    ensures forall i :: 0 <= i < |es| ==> ComesBackAs(es[i], TlvRoundTrip.NormForest(es)[i])
  {
    hide Body;
    hide Items;
    hide EncodeForest;
    StructureReadsBack(es, []);
    PlainMembers(es);
    var b := EncodeForest([Outermost(es)]).value;
    assert b + [] == b;
    ItemsOfNothing();
    BodyOfOne(b, Outermost(TlvRoundTrip.NormForest(es)));
  }

  lemma BodyOfOne(b: bytes, e: Element)
    requires Items(b) == Prepend([e], Ok(Parsed([], [], false, 0)))
    ensures Body(b) == Ok(e.value)
  {
  }

  /** A structure that begins a byte string can be told from what follows it. */
  lemma StructureIsPrefixFree(es: Forest, fs: Forest, x: bytes, y: bytes)
    requires Plain(es) && Plain(fs)
    requires EncodeForest([Outermost(es)]).Ok? && EncodeForest([Outermost(fs)]).Ok?
    requires Items(x).Ok? && Items(y).Ok?
    requires EncodeForest([Outermost(es)]).value + x == EncodeForest([Outermost(fs)]).value + y
    ensures EncodeForest([Outermost(es)]) == EncodeForest([Outermost(fs)]) && x == y
  {
    hide Items;
    hide EncodeForest;
    hide TlvRoundTrip.NormForest;
    StructureReadsBack(es, x);
    StructureReadsBack(fs, y);
    var e, f := Outermost(TlvRoundTrip.NormForest(es)), Outermost(TlvRoundTrip.NormForest(fs));
    assert ([e] + Items(x).value.items)[0] == ([f] + Items(y).value.items)[0];
    TlvBijection.NormalFormWritesTheSame([Outermost(es)]);
    TlvBijection.NormalFormWritesTheSame([Outermost(fs)]);
    var a, b := EncodeForest([Outermost(es)]).value, EncodeForest([Outermost(fs)]).value;
    assert a == b;
    assert x == (a + x)[|a|..];
    assert y == (b + y)[|b|..];
  }

  function BufferBack(tag: int, data: bytes): Element {
    Member(tag, BufferLen(TlvRoundTrip.UnsignedWidth(|data|)), Buf(data))
  }

  function NumberBack(tag: int, n: nat): Element {
    Member(tag, UInt(TlvRoundTrip.UnsignedWidth(n)), Num(n))
  }

  lemma BufferMember(tag: int, v: Value, data: bytes)
    requires 0 <= tag <= UINT8_MAX && |data| <= UINT32_MAX
    requires BufferOf(v) == Ok(data) && !v.Children?
    ensures ComesBackAs(Member(tag, PlainBuffer, v), BufferBack(tag, data))
  {
  }

  lemma NumberMember(tag: int, w: Width, n: nat)
    requires 0 <= tag <= UINT8_MAX && n <= UINT32_MAX
    ensures ComesBackAs(Member(tag, UInt(w), Num(n)), NumberBack(tag, n))
  {
  }

  lemma UndefinedFlag(tag: int)
    requires 0 <= tag <= UINT8_MAX
    ensures ComesBackAs(Member(tag, Boolean, Undefined), Member(tag, Boolean, Bool(false)))
  {
  }

  lemma StructMember(tag: int, es: Forest)
    requires 0 <= tag <= UINT8_MAX && Plain(es)
    ensures ComesBackAs(Member(tag, Struct, Children(es)), Member(tag, Struct, Children(TlvRoundTrip.NormForest(es))))
  {
    PlainMembers(es);
  }

  lemma ComesBackIsPlain()
    ensures forall e, back :: ComesBackAs(e, back) ==> PlainElement(e)
  {
  }

  /** An element reads as one other. */
  lemma ComesBackAsOne(e: Element, back: Element, other: Element)
    requires ComesBackAs(e, back) && ComesBackAs(e, other)
    ensures back == other
  {
    assert [back][0] == [other][0];
  }

  /** Members tagged in order. */
  lemma Nth(members: Forest, tag: nat)
    requires 1 <= tag <= |members|
    requires forall i :: 0 <= i < tag ==> members[i].tag == Some(i + 1)
    ensures Tagged(members, tag) == members[tag - 1].value
  {
    NthFrom(members, 0, tag);
    assert members[0..] == members;
  }

  lemma NthFrom(members: Forest, k: nat, tag: nat)
    requires k < tag <= |members|
    requires forall i :: 0 <= i < tag ==> members[i].tag == Some(i + 1)
    ensures Tagged(members[k..], tag) == members[tag - 1].value
    decreases tag - k
  {
    if k + 1 < tag {
      NthFrom(members, k + 1, tag);
      assert members[k..][1..] == members[k + 1..];
    }
  }
}
