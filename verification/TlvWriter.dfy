/** The appending writer of src/tlv/TlvWriter.ts. */
module TlvWriter {
  import opened Bytes
  import opened Tlv
  import opened TlvCodec
  import opened TlvPrinter

  class TlvWriter {
    var buf: bytes

    constructor ()
      ensures buf == []
    {
      buf := [];
    }

    /** Appends, or passes an exception on with the buffer as it is. */
    method Append(encoded: Result<bytes>) returns (outcome: Result<()>)
      modifies this
      ensures encoded.Ok? ==> outcome.Ok? && buf == old(buf) + encoded.value
      ensures encoded.Err? ==> outcome == Err(encoded.error) && buf == old(buf)
    {
      if encoded.Err? {
        return Err(encoded.error);
      }
      buf := buf + encoded.value;
      return Ok(());
    }

    method PutStart(t: TypeName, tag: Option<int>, profile: Option<int>) returns (outcome: Result<()>)
      requires IsContainer(t)
      modifies this
      ensures var head := TlvPrinter.PutStart(t, tag, profile);
              if head.Ok? then outcome.Ok? && buf == old(buf) + head.value
              else outcome == Err(head.error) && buf == old(buf)
    {
      outcome := Append(TlvPrinter.PutStart(t, tag, profile));
    }

    method PutUnsignedInt(v: Value, tag: Option<int>, profile: Option<int>) returns (outcome: Result<()>)
      modifies this
      ensures var head := TlvPrinter.PutUnsignedInt(v, tag, profile);
              if head.Ok? then outcome.Ok? && buf == old(buf) + head.value
              else outcome == Err(head.error) && buf == old(buf)
    {
      outcome := Append(TlvPrinter.PutUnsignedInt(v, tag, profile));
    }

    method PutContainerEnd()
      modifies this
      ensures buf == old(buf) + [TYPE_END]
    {
      buf := buf + [TYPE_END];
    }

    /** `put`: an array value is walked, anything else is one element. */
    method Put(v: Value, tag: Option<int>, profile: Option<int>) returns (outcome: Result<()>)
      modifies this
      ensures var encoded := if v.Children? then EncodeForest(v.items) else PutScalar(v, tag, profile);
              if encoded.Ok? then outcome.Ok? && buf == old(buf) + encoded.value
              else outcome == Err(encoded.error) && old(buf) <= buf
      decreases v, 2
    {
      if v.Children? {
        outcome := EncodeArray(v.items);
      } else {
        outcome := Append(PutScalar(v, tag, profile));
      }
    }

    /** `encode` of an array. */
    method EncodeArray(es: Forest) returns (outcome: Result<()>)
      modifies this
      ensures if EncodeForest(es).Ok? then outcome.Ok? && buf == old(buf) + EncodeForest(es).value
              else outcome == Err(EncodeForest(es).error) && old(buf) <= buf
      decreases es, 1
    {
      hide EncodeElement;
      hide EncodeForest;
      var i := 0;
      assert es[..0] == [];
      EncodeNothing();
      while i < |es|
        invariant 0 <= i <= |es|
        invariant EncodeForest(es[..i]).Ok? && buf == old(buf) + EncodeForest(es[..i]).value
      {
        outcome := Encode(es[i]);
        if outcome.Err? {
          EncodePrefixFails(es, i);
          return;
        }
        EncodeSnoc(es[..i], es[i]);
        assert es[..i + 1] == es[..i] + [es[i]];
        ghost var before, last := EncodeForest(es[..i]).value, EncodeElement(es[i]).value;
        assert old(buf) + before + last == old(buf) + (before + last);
        i := i + 1;
      }
      assert es[..i] == es;
      outcome := Ok(());
    }

    /** `encode` of one object. */
    method Encode(e: Element) returns (outcome: Result<()>)
      modifies this
      ensures if EncodeElement(e).Ok? then outcome.Ok? && buf == old(buf) + EncodeElement(e).value
              else outcome == Err(EncodeElement(e).error) && old(buf) <= buf
      decreases e, 1
    {
      match e.typ
      case Struct | Array | List => outcome := EncodeContainer(e);
      case Int(_) => outcome := Append(PutSignedInt(e.value, e.tag, e.profile));
      case UInt(_) => outcome := PutUnsignedInt(e.value, e.tag, e.profile);
      case Float => outcome := Append(PutFloat(e.value, e.tag, e.profile));
      case Boolean => outcome := Append(PutBoolean(Truthy(e.value), e.tag, e.profile));
      case PlainBuffer =>
        var data := BufferOf(e.value);
        if data.Err? { return Err(data.error); }
        outcome := Append(PutBytes(data.value, e.tag, e.profile));
      case _ => outcome := Put(e.value, e.tag, e.profile);
    }

    method EncodeContainer(e: Element) returns (outcome: Result<()>)
      requires IsContainer(e.typ)
      modifies this
      ensures if EncodeElement(e).Ok? then outcome.Ok? && buf == old(buf) + EncodeElement(e).value
              else outcome == Err(EncodeElement(e).error) && old(buf) <= buf
      decreases e, 0
    {
      hide EncodeElement;
      hide EncodeInner;
      hide TlvPrinter.PutStart;
      ContainerEncodes(e);
      outcome := PutStart(e.typ, e.tag, e.profile);
      if outcome.Err? { return; }
      outcome := EncodeContents(e.value);
      if outcome.Err? { return; }
      PutContainerEnd();
      ghost var head, body := TlvPrinter.PutStart(e.typ, e.tag, e.profile).value, EncodeInner(e.value).value;
      assert old(buf) + (head + body + [TYPE_END]) == old(buf) + head + body + [TYPE_END];
    }

    /** `encode(json['value'])` */
    method EncodeContents(v: Value) returns (outcome: Result<()>)
      modifies this
      ensures if EncodeInner(v).Ok? then outcome.Ok? && buf == old(buf) + EncodeInner(v).value
              else outcome == Err(EncodeInner(v).error) && old(buf) <= buf
      decreases v, 1
    {
      match v
      case Children(items) => outcome := EncodeArray(items);
      case Undefined => outcome := Err(Thrown);
      case Buf(_) => outcome := Append(PutNull(None, None));
      case _ => outcome := Append(PutScalar(v, None, None));
    }
  }

  lemma ContainerEncodes(e: Element)
    requires IsContainer(e.typ)
    ensures EncodeElement(e) == match TlvPrinter.PutStart(e.typ, e.tag, e.profile)
                                case Err(x) => Err(x)
                                case Ok(head) =>
                                  match EncodeInner(e.value)
                                  case Err(x) => Err(x)
                                  case Ok(body) => Ok(head + body + [TYPE_END])
  {
    hide TlvPrinter.PutStart;
  }

  lemma EncodeNothing()
    ensures EncodeForest([]) == Ok([])
  {
  }

  lemma {:induction false} EncodeSnoc(es: Forest, e: Element)
    requires EncodeForest(es).Ok?
    ensures EncodeForest(es + [e]) ==
            match EncodeElement(e)
            case Ok(b) => Ok(EncodeForest(es).value + b)
            case Err(x) => Err(x)
  {
    if es == [] {
      assert [e][1..] == [] && [] + [e] == [e];
      if EncodeElement(e).Ok? {
        var b := EncodeElement(e).value;
        assert b + [] == b && [] + b == b;
      }
    } else {
      assert (es + [e])[1..] == es[1..] + [e];
      EncodeSnoc(es[1..], e);
      if EncodeElement(e).Ok? {
        var first, others, last := EncodeElement(es[0]).value, EncodeForest(es[1..]).value, EncodeElement(e).value;
        assert first + (others + last) == first + others + last;
      }
    }
  }

  /** The forest's encoding fails as its first failing element does. */
  lemma {:induction false} EncodePrefixFails(es: Forest, i: nat)
    requires i < |es| && EncodeForest(es[..i]).Ok? && EncodeElement(es[i]).Err?
    ensures EncodeForest(es) == Err(EncodeElement(es[i]).error)
  {
    if i > 0 {
      assert es[..i][1..] == es[1..][..i - 1];
      EncodePrefixFails(es[1..], i - 1);
    }
  }
}
