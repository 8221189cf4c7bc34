/** The payloads of the PASE messages: what src/protocols/session/PaseSession.js writes and reads. */
module PaseMessages {
  import opened Bytes
  import opened Tlv
  import opened TlvCodec
  import opened TlvGrammar
  import opened TlvPrinter
  import opened TlvAccess
  import TlvRoundTrip
  import opened Frame

  type SessionId = n: nat | n < 0x1_0000
  type Random = b: bytes | |b| == 32 witness seq(32, _ => 0)

  /** A public share, a key or a confirmation: a few dozen bytes in every cipher suite. */
  type Short = b: bytes | |b| < 0x1_0000 witness []

  // ----- hex

  function HexChar(d: nat): byte
    requires d < 16
  {
    if d < 10 then 48 + d else 87 + d
  }

  /** `buffer.toString("hex")` */
  function Hex(b: bytes): bytes {
    if b == [] then [] else [HexChar(b[0] / 16), HexChar(b[0] % 16)] + Hex(b[1..])
  }

  lemma CharIsDigit(d: nat)
    requires d < 16
    ensures HexChar(d) == LOWER[d] as int
  {
  }

  /** Two lower-case digits for every byte, the high one first. */
  lemma {:induction false} HexIsDigits(b: bytes, i: nat)
    requires i < |b|
    ensures |Hex(b)| == 2 * |b|
    ensures Hex(b)[2 * i] == LOWER[b[i] / 16] as int && Hex(b)[2 * i + 1] == LOWER[b[i] % 16] as int
  {
    hide HexChar;
    CharIsDigit(b[0] / 16);
    CharIsDigit(b[0] % 16);
    if i > 0 {
      HexIsDigits(b[1..], i - 1);
      assert Hex(b)[2..] == Hex(b[1..]);
      assert Hex(b)[2 * i] == Hex(b[1..])[2 * (i - 1)] && Hex(b)[2 * i + 1] == Hex(b[1..])[2 * (i - 1) + 1];
    } else {
      HexLength(b[1..]);
    }
  }

  lemma {:induction false} HexLength(b: bytes)
    ensures |Hex(b)| == 2 * |b|
  {
    if b != [] {
      HexLength(b[1..]);
    }
  }

  lemma {:induction false} FromHexOfHex(b: bytes)
    ensures FromHex(Hex(b)) == b
  {
    if b != [] {
      FromHexOfHex(b[1..]);
      assert Hex(b)[2..] == Hex(b[1..]);
    }
  }

  // ----- templates

  /** The template reads `hasPbkdfParameters`, which the caller passes under another name: it is undefined. */
  function ParamRequest(random: Random, id: SessionId): Element {
    Outermost([
      Member(1, PlainBuffer, Buf(random)),
      Member(2, UInt(2), Num(id)),
      Member(3, UInt(2), Num(0)),
      Member(4, Boolean, Undefined),
      Member(5, Struct, Children([Member(1, UInt(4), Num(4000)), Member(2, UInt(4), Num(300))]))])
  }

  function ParamResponse(initiatorRandom: bytes, random: Random, id: SessionId, iterations: Value,
                         saltHex: bytes): Element {
    Outermost([
      Member(1, PlainBuffer, Str(initiatorRandom)),
      Member(2, PlainBuffer, Str(Hex(random))),
      Member(3, UInt(2), Num(id)),
      Member(4, Struct, Children([Member(1, UInt(2), iterations), Member(2, PlainBuffer, Str(saltHex))]))])
  }

  function Pake1(pA: bytes): Element {
    Outermost([Member(1, PlainBuffer, Str(Hex(pA)))])
  }

  function Pake2(pB: bytes, cB: bytes): Element {
    Outermost([Member(1, PlainBuffer, Str(Hex(pB))), Member(2, PlainBuffer, Str(Hex(cB)))])
  }

  function Pake3(cA: bytes): Element {
    Outermost([Member(1, PlainBuffer, Str(Hex(cA)))])
  }

  // ----- reading

  /** `v.toString("hex")`: undefined has no methods, and "hex" is no radix for a number. */
  function ToStringHex(v: Value): Result<bytes> {
    match v
    case Buf(d) => Ok(Hex(d))
    case Str(s) => Ok(s)
    case Bool(b) => Ok(if b then [116, 114, 117, 101] else [102, 97, 108, 115, 101])
    case Children(_) => Err(OutsideModel)
    case Undefined | Num(_) | Big(_) | Dbl(_) | F32(_) => Err(Thrown)
  }

  /** A flag in place of a buffer gives its name, which is then read as hex: nothing of "true", one byte of "false". */
  lemma FlagAsHex(b: bool)
    ensures var name := if b then "true" else "false";
            && ToStringHex(Bool(b)).Ok? && |ToStringHex(Bool(b)).value| == |name|
            && (forall i :: 0 <= i < |name| ==> ToStringHex(Bool(b)).value[i] == name[i] as int)
            && FromHex(ToStringHex(Bool(b)).value) == if b then [] else [0xFA]
  {
    var s := ToStringHex(Bool(b)).value;
    if !b {
      assert FromHex(s[2..]) == [];
      assert FromHex(s) == [0xFA] + FromHex(s[2..]);
    }
  }

  // ----- status reports

  /** `sendStatus`: the three numbers are written at the same place, one over the other. */
  function StatusPayload(general: nat, protocolId: nat, code: nat): bytes {
    Put(Put(Put(Zeros(8), 0, ToLE(general, 2)), 0, ToLE(protocolId, 4)), 0, ToLE(code, 2))
  }

  /** Of a status report only the code, and the high half of the protocol id, can be read: the general code never. */
  lemma StatusKeepsCodeOnly(general: nat, protocolId: nat, code: nat)
    ensures var b := StatusPayload(general, protocolId, code);
            |b| == 8 && b[..2] == ToLE(code, 2) && b[2..4] == ToLE(protocolId, 4)[2..] && b[4..] == Zeros(4)
  {
    var a := Put(Zeros(8), 0, ToLE(general, 2));
    var b := Put(a, 0, ToLE(protocolId, 4));
    assert a[4..] == Zeros(4);
    assert b[..4] == ToLE(protocolId, 4) && b[4..] == a[4..];
    assert b[2..4] == b[..4][2..];
  }

  // ----- what the templates read back as

  lemma HexMember(tag: int, data: bytes)
    requires 0 <= tag <= UINT8_MAX && |data| <= UINT32_MAX
    ensures ComesBackAs(Member(tag, PlainBuffer, Str(Hex(data))), BufferBack(tag, data))
  {
    hide Hex;
    hide FromHex;
    FromHexOfHex(data);
    BufferMember(tag, Str(Hex(data)), data);
  }

  lemma RequestComesBack(random: Random, id: SessionId)
    ensures var es := ParamRequest(random, id).value.items;
            && Plain(es)
            && ComesBackAs(es[0], BufferBack(1, random)) && ComesBackAs(es[1], NumberBack(2, id))
            && ComesBackAs(es[2], NumberBack(3, 0)) && ComesBackAs(es[3], Member(4, Boolean, Bool(false)))
            && es[4].value == Children(INTERVALS)
            && ComesBackAs(es[4], Member(5, Struct, Children(TlvRoundTrip.NormForest(INTERVALS))))
  {
    hide PlainElement;
    hide ComesBackAs;
    BufferMember(1, Buf(random), random);
    NumberMember(2, 2, id);
    NumberMember(3, 2, 0);
    UndefinedFlag(4);
    NumberMember(1, 4, 4000);
    NumberMember(2, 4, 300);
    var interval := [Member(1, UInt(4), Num(4000)), Member(2, UInt(4), Num(300))];
    ComesBackIsPlain();
    StructMember(5, interval);
  }

  // ----- payloads

  const ITERATIONS: nat := 1000

  /** "SPAKE2P Key Salt" */
  const SALT: bytes := [83, 80, 65, 75, 69, 50, 80, 32, 75, 101, 121, 32, 83, 97, 108, 116]

  function Written(e: Element): bytes
    requires EncodeForest([e]).Ok?
  {
    EncodeForest([e]).value
  }

  lemma TemplatesWrite(initiatorRandom: Random, random: Random, id: SessionId)
    ensures EncodeForest([ParamRequest(random, id)]).Ok?
    ensures EncodeForest([ParamResponse(Hex(initiatorRandom), random, id, Num(ITERATIONS), Hex(SALT))]).Ok?
  {
    RequestComesBack(random, id);
    StructureReadsBack(ParamRequest(random, id).value.items, []);
    ResponseComesBack(initiatorRandom, random, id);
    StructureReadsBack(ParamResponse(Hex(initiatorRandom), random, id, Num(ITERATIONS), Hex(SALT)).value.items, []);
  }

  lemma PakesWrite(p: Short, c: Short)
    ensures EncodeForest([Pake1(p)]).Ok? && EncodeForest([Pake2(p, c)]).Ok? && EncodeForest([Pake3(p)]).Ok?
  {
    HexMembers([p]);
    StructureReadsBack(Pake1(p).value.items, []);
    HexMembers([p, c]);
    StructureReadsBack(Pake2(p, c).value.items, []);
  }

  function RequestPayload(random: Random, id: SessionId): bytes {
    TemplatesWrite(random, random, id);
    Written(ParamRequest(random, id))
  }

  function ResponsePayload(initiatorRandom: Random, random: Random, id: SessionId): bytes {
    TemplatesWrite(initiatorRandom, random, id);
    Written(ParamResponse(Hex(initiatorRandom), random, id, Num(ITERATIONS), Hex(SALT)))
  }

  function Pake1Payload(pA: Short): bytes {
    PakesWrite(pA, pA);
    Written(Pake1(pA))
  }

  function Pake2Payload(pB: Short, cB: Short): bytes {
    PakesWrite(pB, cB);
    Written(Pake2(pB, cB))
  }

  function Pake3Payload(cA: Short): bytes {
    PakesWrite(cA, cA);
    Written(Pake3(cA))
  }

  function HexForest(values: seq<Short>): Forest {
    seq(|values|, i requires 0 <= i < |values| => Member(i + 1, PlainBuffer, Str(Hex(values[i]))))
  }

  lemma HexMembers(values: seq<Short>)
    requires |values| <= 2
    ensures Plain(HexForest(values))
    ensures forall i :: 0 <= i < |values| ==> ComesBackAs(HexForest(values)[i], BufferBack(i + 1, values[i]))
    ensures |values| == 1 ==> Pake1(values[0]) == Pake3(values[0]) == Outermost(HexForest(values))
    ensures |values| == 2 ==> Pake2(values[0], values[1]) == Outermost(HexForest(values))
  {
    hide ComesBackAs;
    hide PlainElement;
    ComesBackIsPlain();
    forall i | 0 <= i < |values|
      ensures ComesBackAs(HexForest(values)[i], BufferBack(i + 1, values[i]))
    {
      HexMember(i + 1, values[i]);
    }
    if |values| == 1 {
      assert HexForest(values) == Pake1(values[0]).value.items;
    } else if |values| == 2 {
      assert HexForest(values) == Pake2(values[0], values[1]).value.items;
    }
  }

  lemma ResponseComesBack(initiatorRandom: Random, random: Random, id: SessionId)
    ensures var es := ParamResponse(Hex(initiatorRandom), random, id, Num(ITERATIONS), Hex(SALT)).value.items;
            && Plain(es) && Plain(es[3].value.items)
            && ComesBackAs(es[0], BufferBack(1, initiatorRandom)) && ComesBackAs(es[1], BufferBack(2, random))
            && ComesBackAs(es[2], NumberBack(3, id))
            && ComesBackAs(es[3], Member(4, Struct, Children(TlvRoundTrip.NormForest(es[3].value.items))))
  {
    hide PlainElement;
    hide ComesBackAs;
    hide Hex;
    HexMember(1, initiatorRandom);
    HexMember(2, random);
    NumberMember(3, 2, id);
    NumberMember(1, 2, ITERATIONS);
    HexMember(2, SALT);
    ComesBackIsPlain();
    StructMember(4, [Member(1, UInt(2), Num(ITERATIONS)), Member(2, PlainBuffer, Str(Hex(SALT)))]);
  }

  const INTERVALS: Forest := [Member(1, UInt(4), Num(4000)), Member(2, UInt(4), Num(300))]

  lemma RequestMembers(random: Random, id: SessionId)
    ensures Members(RequestPayload(random, id)).Ok?
    ensures var members := Members(RequestPayload(random, id)).value;
            && |members| == 5 && (forall i :: 0 <= i < 5 ==> members[i].tag == Some(i + 1))
            && members[0].value == Buf(random) && members[1].value == Num(id)
            && members[2].value == Num(0) && members[3].value == Bool(false)
            && members[4].value == Children(TlvRoundTrip.NormForest(INTERVALS))
  {
    hide Body;
    hide PlainElement;
    hide ComesBackAs;
    hide TlvRoundTrip.NormForest;
    var es := ParamRequest(random, id).value.items;
    RequestComesBack(random, id);
    StructureBody(es);
    var members := TlvRoundTrip.NormForest(es);
    ComesBackAsOne(es[0], members[0], BufferBack(1, random));
    ComesBackAsOne(es[1], members[1], NumberBack(2, id));
    ComesBackAsOne(es[2], members[2], NumberBack(3, 0));
    ComesBackAsOne(es[3], members[3], Member(4, Boolean, Bool(false)));
    ComesBackAsOne(es[4], members[4], Member(5, Struct, Children(TlvRoundTrip.NormForest(INTERVALS))));
  }

  lemma IntervalsParse()
    ensures var v := Children(TlvRoundTrip.NormForest(INTERVALS));
            At(v, 0) == Ok(Num(4000)) && At(v, 1) == Ok(Num(300))
  {
    hide PlainElement;
    hide ComesBackAs;
    hide TlvRoundTrip.NormForest;
    NumberMember(1, 4, 4000);
    NumberMember(2, 4, 300);
    ComesBackIsPlain();
    PlainMembers(INTERVALS);
    var intervals := TlvRoundTrip.NormForest(INTERVALS);
    ComesBackAsOne(INTERVALS[0], intervals[0], NumberBack(1, 4000));
    ComesBackAsOne(INTERVALS[1], intervals[1], NumberBack(2, 300));
  }

  /** The server reads the random and the session id that the client wrote; the other members are the passcode's id 0,
      no key derivation parameters, and the retry intervals. */
  lemma RequestParses(random: Random, id: SessionId)
    ensures Members(RequestPayload(random, id)).Ok?
    ensures var members := Members(RequestPayload(random, id)).value;
            && Tagged(members, 1) == Buf(random) && Tagged(members, 2) == Num(id)
            && Tagged(members, 3) == Num(0) && Tagged(members, 4) == Bool(false)
            && At(Tagged(members, 5), 0) == Ok(Num(4000)) && At(Tagged(members, 5), 1) == Ok(Num(300))
  {
    hide Members;
    hide RequestPayload;
    hide TlvRoundTrip.NormForest;
    RequestMembers(random, id);
    IntervalsParse();
    var members := Members(RequestPayload(random, id)).value;
    Nth(members, 1);
    Nth(members, 2);
    Nth(members, 3);
    Nth(members, 4);
    Nth(members, 5);
  }

  lemma ResponseMembers(initiatorRandom: Random, random: Random, id: SessionId)
    ensures Members(ResponsePayload(initiatorRandom, random, id)).Ok?
    ensures var members := Members(ResponsePayload(initiatorRandom, random, id)).value;
            && |members| == 4 && (forall i :: 0 <= i < 4 ==> members[i].tag == Some(i + 1))
            && members[0].value == Buf(initiatorRandom) && members[1].value == Buf(random)
            && members[2].value == Num(id)
            && members[3].value
               == Children(TlvRoundTrip.NormForest([Member(1, UInt(2), Num(ITERATIONS)),
                                                    Member(2, PlainBuffer, Str(Hex(SALT)))]))
  {
    hide Body;
    hide PlainElement;
    hide ComesBackAs;
    hide Hex;
    hide TlvRoundTrip.NormForest;
    var es := ParamResponse(Hex(initiatorRandom), random, id, Num(ITERATIONS), Hex(SALT)).value.items;
    ResponseComesBack(initiatorRandom, random, id);
    StructureBody(es);
    var members := TlvRoundTrip.NormForest(es);
    ComesBackAsOne(es[0], members[0], BufferBack(1, initiatorRandom));
    ComesBackAsOne(es[1], members[1], BufferBack(2, random));
    ComesBackAsOne(es[2], members[2], NumberBack(3, id));
    ComesBackAsOne(es[3], members[3], Member(4, Struct, Children(TlvRoundTrip.NormForest(es[3].value.items))));
  }

  lemma ParametersParse()
    ensures var v := Children(TlvRoundTrip.NormForest([Member(1, UInt(2), Num(ITERATIONS)),
                                                       Member(2, PlainBuffer, Str(Hex(SALT)))]));
            At(v, 0) == Ok(Num(ITERATIONS)) && At(v, 1) == Ok(Buf(SALT))
  {
    hide PlainElement;
    hide ComesBackAs;
    hide Hex;
    hide TlvRoundTrip.NormForest;
    var inner := [Member(1, UInt(2), Num(ITERATIONS)), Member(2, PlainBuffer, Str(Hex(SALT)))];
    NumberMember(1, 2, ITERATIONS);
    HexMember(2, SALT);
    ComesBackIsPlain();
    PlainMembers(inner);
    var params := TlvRoundTrip.NormForest(inner);
    ComesBackAsOne(inner[0], params[0], NumberBack(1, ITERATIONS));
    ComesBackAsOne(inner[1], params[1], BufferBack(2, SALT));
  }

  /** The client reads its own random back, and the server's random, session id and key derivation parameters. */
  lemma ResponseParses(initiatorRandom: Random, random: Random, id: SessionId)
    ensures Members(ResponsePayload(initiatorRandom, random, id)).Ok?
    ensures var members := Members(ResponsePayload(initiatorRandom, random, id)).value;
            && Tagged(members, 1) == Buf(initiatorRandom) && Tagged(members, 2) == Buf(random)
            && Tagged(members, 3) == Num(id)
            && At(Tagged(members, 4), 0) == Ok(Num(ITERATIONS)) && At(Tagged(members, 4), 1) == Ok(Buf(SALT))
  {
    hide Members;
    hide ResponsePayload;
    hide TlvRoundTrip.NormForest;
    hide Hex;
    ResponseMembers(initiatorRandom, random, id);
    ParametersParse();
    var members := Members(ResponsePayload(initiatorRandom, random, id)).value;
    Nth(members, 1);
    Nth(members, 2);
    Nth(members, 3);
    Nth(members, 4);
  }

  lemma HexFieldsParse(values: seq<Short>)
    requires 1 <= |values| <= 2
    ensures EncodeForest([Outermost(HexForest(values))]).Ok?
    ensures forall i :: 0 <= i < |values| ==>
              Field(EncodeForest([Outermost(HexForest(values))]).value, i) == Ok(Buf(values[i]))
  {
    hide Body;
    hide PlainElement;
    hide ComesBackAs;
    var es := HexForest(values);
    HexMembers(values);
    StructureBody(es);
    forall i | 0 <= i < |values|
      ensures Field(EncodeForest([Outermost(es)]).value, i) == Ok(Buf(values[i]))
    {
      ComesBackAsOne(es[i], TlvRoundTrip.NormForest(es)[i], BufferBack(i + 1, values[i]));
    }
  }

  lemma Pake1Parses(pA: Short)
    ensures Field(Pake1Payload(pA), 0) == Ok(Buf(pA))
  {
    HexMembers([pA]);
    HexFieldsParse([pA]);
  }

  lemma Pake2Parses(pB: Short, cB: Short)
    ensures Field(Pake2Payload(pB, cB), 0) == Ok(Buf(pB)) && Field(Pake2Payload(pB, cB), 1) == Ok(Buf(cB))
  {
    HexMembers([pB, cB]);
    HexFieldsParse([pB, cB]);
  }

  lemma Pake3Parses(cA: Short)
    ensures Field(Pake3Payload(cA), 0) == Ok(Buf(cA))
  {
    HexMembers([cA]);
    HexFieldsParse([cA]);
  }

  ghost predicate IsRequest(b: bytes, id: SessionId) {
    exists random: Random :: b == RequestPayload(random, id)
  }

  ghost predicate IsResponse(b: bytes, id: SessionId) {
    exists initiatorRandom: Random, random: Random :: b == ResponsePayload(initiatorRandom, random, id)
  }

  /** What both sides hash determines the request and the response, and each of them its session id. */
  lemma HashedBytesSplit(req: bytes, resp: bytes, req2: bytes, resp2: bytes, i: SessionId, j: SessionId, i2: SessionId,
                         j2: SessionId)
    requires IsRequest(req, i) && IsResponse(resp, j) && IsRequest(req2, i2) && IsResponse(resp2, j2)
    requires req + resp == req2 + resp2
    ensures req == req2 && resp == resp2 && i == i2 && j == j2
  {
    hide Members;
    hide Items;
    hide Hex;
    hide PlainElement;
    var r: Random :| req == RequestPayload(r, i);
    var r2: Random :| req2 == RequestPayload(r2, i2);
    RequestComesBack(r, i);
    RequestComesBack(r2, i2);
    TemplatesWrite(r, r, i);
    TemplatesWrite(r2, r2, i2);
    ResponseIsForest(resp, j);
    ResponseIsForest(resp2, j2);
    StructureIsPrefixFree(ParamRequest(r, i).value.items, ParamRequest(r2, i2).value.items, resp, resp2);
    RequestParses(r, i);
    RequestParses(r2, i2);
    ResponseIds(resp, j);
    ResponseIds(resp, j2);
  }

  lemma ResponseIsForest(resp: bytes, id: SessionId)
    requires IsResponse(resp, id)
    ensures Items(resp).Ok?
  {
    hide Items;
    hide Hex;
    var a: Random, b: Random :| resp == ResponsePayload(a, b, id);
    ResponseComesBack(a, b, id);
    StructureReadsBack(ParamResponse(Hex(a), b, id, Num(ITERATIONS), Hex(SALT)).value.items, []);
    assert resp + [] == resp;
    ItemsOfNothing();
  }

  lemma ResponseIds(resp: bytes, id: SessionId)
    requires IsResponse(resp, id)
    ensures Members(resp).Ok? && Tagged(Members(resp).value, 3) == Num(id)
  {
    hide Members;
    var a: Random, b: Random :| resp == ResponsePayload(a, b, id);
    ResponseParses(a, b, id);
  }
}
