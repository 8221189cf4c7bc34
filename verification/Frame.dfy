/** The bytes of a Matter message: where the fields of src/message/Message.js lie. */
module Frame {
  import opened Bytes

  const HEADER_SIZE := 8
  const EXCHANGE_SIZE := 6
  const NODE_ID_SIZE := 8
  const GROUP_ID_SIZE := 2
  const ACK_SIZE := 4
  const MIC_SIZE := 16
  const NODE_ID_ANY := 0xFFFF_FFFF_FFFF_FFFF

  predicate Bit(flags: int, weight: int)
    requires weight > 0
  {
    (flags / weight) % 2 == 1
  }

  // ----- getters

  predicate Sflag(flags: byte) { Bit(flags, 4) }
  function Dsiz(flags: byte): nat { flags % 4 }

  function PayloadOffset(b: bytes): nat
    requires |b| >= 1
  {
    HEADER_SIZE + (if Sflag(b[0]) then 8 else 0) + if Dsiz(b[0]) == 1 then 8 else if Dsiz(b[0]) == 2 then 2 else 0
  }

  function SessionId(b: bytes): nat
    requires |b| >= 3
  {
    FromLE(b[1..3])
  }

  function SecurityFlags(b: bytes): byte
    requires |b| >= 4
  {
    b[3]
  }

  predicate Pflag(b: bytes)
    requires |b| >= 4
  {
    Bit(b[3], 0x80)
  }

  function MessageCounter(b: bytes): nat
    requires |b| >= 8
  {
    FromLE(b[4..8])
  }

  /** Session type 0 and session id 0. */
  predicate Unencrypted(b: bytes)
    requires |b| >= 4
  {
    b[3] % 4 == 0 && SessionId(b) == 0
  }

  /** Reading past the end throws, so a message must hold the fields its flags announce. */
  predicate Whole(b: bytes) {
    |b| >= 1 && PayloadOffset(b) + EXCHANGE_SIZE <= |b|
  }

  function SourceNodeId(b: bytes): nat
    requires Whole(b)
  {
    if Sflag(b[0]) then FromLE(b[8..16]) else NODE_ID_ANY
  }

  /** A group id (dsiz 2) is not read: the code tests a property that does not exist. */
  function DestinationNodeId(b: bytes): nat
    requires Whole(b)
  {
    var at := HEADER_SIZE + if Sflag(b[0]) then 8 else 0;
    if Dsiz(b[0]) == 1 then FromLE(b[at..at + 8]) else NODE_ID_ANY
  }

  function ExchangeFlags(b: bytes): byte
    requires Whole(b)
  {
    b[PayloadOffset(b)]
  }

  predicate Iflag(b: bytes) requires Whole(b) { Bit(ExchangeFlags(b), 1) }
  predicate Aflag(b: bytes) requires Whole(b) { Bit(ExchangeFlags(b), 2) }
  predicate Rflag(b: bytes) requires Whole(b) { Bit(ExchangeFlags(b), 4) }

  function ProtocolOpcode(b: bytes): byte
    requires Whole(b)
  {
    b[PayloadOffset(b) + 1]
  }

  function ExchangeId(b: bytes): nat
    requires Whole(b)
  {
    FromLE(b[PayloadOffset(b) + 2..PayloadOffset(b) + 4])
  }

  function ProtocolId(b: bytes): nat
    requires Whole(b)
  {
    FromLE(b[PayloadOffset(b) + 4..PayloadOffset(b) + 6])
  }

  /** The counter that is acknowledged, where the flags say that one is; the program writes it and does not read it. */
  function Acknowledged(b: bytes): Option<nat>
    requires Whole(b)
  {
    var at := PayloadOffset(b) + EXCHANGE_SIZE;
    if Aflag(b) && at + ACK_SIZE <= |b| then Some(FromLE(b[at..at + ACK_SIZE])) else None
  }

  function AppPayload(b: bytes): bytes
    requires Whole(b)
  {
    Skip(b, PayloadOffset(b) + EXCHANGE_SIZE + if Aflag(b) then ACK_SIZE else 0)
  }

  // ----- writing

  /** `writeUIntN(v, at)`: the bytes of v over what stood there. */
  function Put(b: bytes, at: nat, v: bytes): (r: bytes)
    requires at + |v| <= |b|
    ensures |r| == |b|
  {
    b[..at] + v + b[at + |v|..]
  }

  /** `Buffer.concat([b.subarray(0, at), Buffer.alloc(n), b.subarray(at)])`: at the end, if `at` lies past it. */
  function Insert(b: bytes, at: nat, n: nat): (r: bytes)
    ensures |r| == |b| + n
  {
    if at <= |b| then b[..at] + Zeros(n) + b[at..] else b + Zeros(n)
  }

  /** `flags |= weight` or `flags &= ~weight` */
  function SetBit(flags: byte, weight: nat, on: bool): byte
    requires weight == 1 || weight == 2 || weight == 4
  {
    if Bit(flags, weight) == on then flags else if on then flags + weight else flags - weight
  }

  predicate Weight(w: nat) {
    w == 1 || w == 2 || w == 4 || w == 8 || w == 16 || w == 32 || w == 64 || w == 128
  }

  /** Exactly one bit is set or cleared. */
  lemma SetsOneBit(flags: byte, weight: nat, on: bool, other: nat)
    requires (weight == 1 || weight == 2 || weight == 4) && Weight(other)
    ensures 0 <= SetBit(flags, weight, on) < 256
    ensures Bit(SetBit(flags, weight, on), other) == if other == weight then on else Bit(flags, other)
  {
    var q, r := flags / (2 * weight), flags % (2 * weight);
    var low := r % weight;
    var bit := if Bit(flags, weight) then weight else 0;
    ThreeParts(flags, weight);
    var after := if on then weight else 0;
    assert SetBit(flags, weight, on) == q * (2 * weight) + after + low;
    OneBit(q, weight, after, low, other);
    OneBit(q, weight, bit, low, other);
  }

  /** What lies above the bit, the bit, and what lies below. */
  lemma ThreeParts(flags: byte, weight: nat)
    requires weight == 1 || weight == 2 || weight == 4
    ensures flags == flags / (2 * weight) * (2 * weight) + (if Bit(flags, weight) then weight else 0)
                     + flags % (2 * weight) % weight
    ensures flags / (2 * weight) < 128 / weight
  {
  }

  lemma OneBit(q: nat, weight: nat, bit: nat, low: nat, other: nat)
    requires (weight == 1 || weight == 2 || weight == 4) && Weight(other)
    requires q < 128 / weight && low < weight && (bit == 0 || bit == weight)
    ensures var f := q * (2 * weight) + bit + low;
            && f < 256
            && Bit(f, other) == if other == weight then bit == weight
                                else if other < weight then Bit(low, other) else Bit(q, other / (2 * weight))
  {
    if weight == 1 { OneBitAt1(q, bit, other); } else if weight == 2 { OneBitAt2(q, bit, low, other); } else {
      OneBitAt4(q, bit, low, other);
    }
  }

  lemma OneBitAt1(q: nat, bit: nat, other: nat)
    requires Weight(other) && q < 128 && bit <= 1
    ensures Bit(q * 2 + bit, other) == if other == 1 then bit == 1 else Bit(q, other / 2)
  {
    var f := q * 2 + bit;
    assert f / 2 == q;
    if other == 1 {
      assert f / 1 == f;
    } else if other == 2 {
      assert f / 2 == q;
    } else if other == 4 {
      assert f / 4 == q / 2;
    } else if other == 8 {
      assert f / 8 == q / 4;
    } else if other == 16 {
      assert f / 16 == q / 8;
    } else if other == 32 {
      assert f / 32 == q / 16;
    } else if other == 64 {
      assert f / 64 == q / 32;
    } else {
      assert f / 128 == q / 64;
    }
  }

  lemma OneBitAt2(q: nat, bit: nat, low: nat, other: nat)
    requires Weight(other) && q < 64 && (bit == 0 || bit == 2) && low < 2
    ensures Bit(q * 4 + bit + low, other)
            == if other == 2 then bit == 2 else if other < 2 then Bit(low, other) else Bit(q, other / 4)
  {
    var f := q * 4 + bit + low;
    assert f / 4 == q;
    if other == 1 {
      assert f / 1 == (q * 4 + bit) / 1 + low / 1;
    } else if other == 2 {
      assert f / 2 == q * 2 + bit / 2;
    } else if other == 4 {
      assert f / 4 == q;
    } else if other == 8 {
      assert f / 8 == q / 2;
    } else if other == 16 {
      assert f / 16 == q / 4;
    } else if other == 32 {
      assert f / 32 == q / 8;
    } else if other == 64 {
      assert f / 64 == q / 16;
    } else {
      assert f / 128 == q / 32;
    }
  }

  lemma OneBitAt4(q: nat, bit: nat, low: nat, other: nat)
    requires Weight(other) && q < 32 && (bit == 0 || bit == 4) && low < 4
    ensures Bit(q * 8 + bit + low, other)
            == if other == 4 then bit == 4 else if other < 4 then Bit(low, other) else Bit(q, other / 8)
  {
    var f := q * 8 + bit + low;
    assert f / 8 == q;
    if other == 1 {
      assert f / 1 == (q * 8 + bit) / 1 + low / 1;
    } else if other == 2 {
      assert f / 2 == (q * 8 + bit) / 2 + low / 2;
    } else if other == 4 {
      assert f / 4 == q * 2 + bit / 4;
    } else if other == 8 {
      assert f / 8 == q;
    } else if other == 16 {
      assert f / 16 == q / 2;
    } else if other == 32 {
      assert f / 32 == q / 4;
    } else if other == 64 {
      assert f / 64 == q / 8;
    } else {
      assert f / 128 == q / 16;
    }
  }

  // ----- layouts

  /** A message taken apart.  `node` is the source or destination node id, if any; `ack` the acknowledged counter, if
      any. */
  datatype Fields = Fields(
    flags: byte, sessionId: nat, security: byte, counter: nat, node: bytes,
    exchangeFlags: byte, opcode: byte, exchangeId: nat, protocolId: nat, ack: bytes, payload: bytes)

  predicate InRange(f: Fields) {
    f.sessionId < Pow256(2) && f.counter < Pow256(4) && f.exchangeId < Pow256(2) && f.protocolId < Pow256(2)
  }

  function MessageHeader(f: Fields): (b: bytes)
    ensures |b| == HEADER_SIZE
  {
    [f.flags] + ToLE(f.sessionId, 2) + [f.security] + ToLE(f.counter, 4)
  }

  function ExchangeHeader(f: Fields): (b: bytes)
    ensures |b| == EXCHANGE_SIZE
  {
    [f.exchangeFlags, f.opcode] + ToLE(f.exchangeId, 2) + ToLE(f.protocolId, 2)
  }

  function Layout(f: Fields): bytes {
    MessageHeader(f) + f.node + ExchangeHeader(f) + f.ack + f.payload
  }

  /** The flags announce the node id and the acknowledgement that are there. */
  predicate Announced(f: Fields) {
    |f.node| == (if Sflag(f.flags) then 8 else 0)
        + (if Dsiz(f.flags) == 1 then 8 else if Dsiz(f.flags) == 2 then 2 else 0)
    && |f.ack| == if Bit(f.exchangeFlags, 2) then ACK_SIZE else 0
  }

  lemma LayoutParts(f: Fields)
    ensures var b := Layout(f); var k := HEADER_SIZE + |f.node|;
            && |b| == k + EXCHANGE_SIZE + |f.ack| + |f.payload|
            && b[0] == f.flags && b[3] == f.security
            && b[1..3] == ToLE(f.sessionId, 2) && b[4..8] == ToLE(f.counter, 4)
            && b[8..k] == f.node
            && b[k] == f.exchangeFlags && b[k + 1] == f.opcode
            && b[k + 2..k + 4] == ToLE(f.exchangeId, 2) && b[k + 4..k + 6] == ToLE(f.protocolId, 2)
            && b[k + 6..k + 6 + |f.ack|] == f.ack
            && b[k + 6 + |f.ack|..] == f.payload
  {
  }

  /** A receiver reads back every field that was laid out. */
  lemma FieldsReadBack(f: Fields)
    requires InRange(f) && Announced(f)
    ensures var b := Layout(f);
            && Whole(b)
            && PayloadOffset(b) == HEADER_SIZE + |f.node|
            && SessionId(b) == f.sessionId && SecurityFlags(b) == f.security && MessageCounter(b) == f.counter
            && (Sflag(f.flags) ==> SourceNodeId(b) == FromLE(f.node[..8]))
            && (!Sflag(f.flags) && Dsiz(f.flags) == 1 ==> DestinationNodeId(b) == FromLE(f.node))
            && (Sflag(f.flags) && Dsiz(f.flags) == 1 ==> DestinationNodeId(b) == FromLE(f.node[8..]))
            && ExchangeFlags(b) == f.exchangeFlags && ProtocolOpcode(b) == f.opcode
            && ExchangeId(b) == f.exchangeId && ProtocolId(b) == f.protocolId
            && (Unencrypted(b) <==> f.security % 4 == 0 && f.sessionId == 0) && (Pflag(b) <==> f.security >= 0x80)
            && AppPayload(b) == f.payload
            && Acknowledged(b) == if Bit(f.exchangeFlags, 2) then Some(FromLE(f.ack)) else None
  {
    hide Layout;
    hide ToLE;
    hide FromLE;
    hide Pow256;
    var b := Layout(f);
    LayoutParts(f);
    FromToLE(f.sessionId, 2);
    FromToLE(f.counter, 4);
    FromToLE(f.exchangeId, 2);
    FromToLE(f.protocolId, 2);
    hide Whole;
    hide ExchangeFlags;
    hide ExchangeId;
    hide ProtocolId;
    hide ProtocolOpcode;
    hide AppPayload;
    hide Acknowledged;
    hide SourceNodeId;
    hide DestinationNodeId;
    OffsetReads(b, f);
    NodesRead(b, f);
    ExchangeReads(b, f);
  }

  lemma OffsetReads(b: bytes, f: Fields)
    requires |b| >= HEADER_SIZE + |f.node| + EXCHANGE_SIZE && b[0] == f.flags && Announced(f)
    ensures Whole(b) && PayloadOffset(b) == HEADER_SIZE + |f.node|
  {
  }

  lemma NodesRead(b: bytes, f: Fields)
    requires Whole(b) && PayloadOffset(b) == HEADER_SIZE + |f.node| && Announced(f)
    requires b[0] == f.flags && b[8..8 + |f.node|] == f.node
    ensures Sflag(f.flags) ==> SourceNodeId(b) == FromLE(f.node[..8])
    ensures !Sflag(f.flags) && Dsiz(f.flags) == 1 ==> DestinationNodeId(b) == FromLE(f.node)
    ensures Sflag(f.flags) && Dsiz(f.flags) == 1 ==> DestinationNodeId(b) == FromLE(f.node[8..])
  {
    hide FromLE;
    if Sflag(f.flags) {
      assert b[8..16] == b[8..8 + |f.node|][..8];
      if Dsiz(f.flags) == 1 {
        assert b[16..24] == b[8..8 + |f.node|][8..];
      }
    }
  }

  lemma ExchangeReads(b: bytes, f: Fields)
    requires Whole(b) && PayloadOffset(b) == HEADER_SIZE + |f.node| && Announced(f)
    requires var k := HEADER_SIZE + |f.node|;
             && |b| == k + EXCHANGE_SIZE + |f.ack| + |f.payload|
             && b[k] == f.exchangeFlags && b[k + 1] == f.opcode
             && FromLE(b[k + 2..k + 4]) == f.exchangeId && FromLE(b[k + 4..k + 6]) == f.protocolId
             && b[k + 6..k + 6 + |f.ack|] == f.ack && b[k + 6 + |f.ack|..] == f.payload
    ensures ExchangeFlags(b) == f.exchangeFlags && ProtocolOpcode(b) == f.opcode
    ensures ExchangeId(b) == f.exchangeId && ProtocolId(b) == f.protocolId && AppPayload(b) == f.payload
    ensures Acknowledged(b) == if Bit(f.exchangeFlags, 2) then Some(FromLE(f.ack)) else None
  {
    hide FromLE;
    hide PayloadOffset;
  }

  /** A message of test/message/TestMessage.js: every field where it is looked for. */
  lemma VectorReads(b: bytes)
    requires b == [0xF5, 0xEE, 0xDD, 0xFF] + [0x78, 0x56, 0x34, 0x12] + [1, 0, 0, 0, 0, 0, 0, 0]
                  + [2, 0, 0, 0, 0, 0, 0, 0] + [0x04, 0x00, 0x05, 0x03, 0x03, 0x00]
                  + [0x11, 0x22, 0x33, 0x44, 0x55, 0x66, 0x77, 0x88, 0x99]
    ensures Whole(b) && SecurityFlags(b) == 0xFF && Pflag(b) && SessionId(b) == 0xDDEE && !Unencrypted(b)
    ensures MessageCounter(b) == 0x1234_5678 && SourceNodeId(b) == 1 && DestinationNodeId(b) == 2
    ensures !Iflag(b) && !Aflag(b) && Rflag(b) && ProtocolOpcode(b) == 0 && ExchangeId(b) == 0x0305
    ensures ProtocolId(b) == 3 && AppPayload(b) == [0x11, 0x22, 0x33, 0x44, 0x55, 0x66, 0x77, 0x88, 0x99]
  {
    hide FromLE;
    VectorParts([0xF5, 0xEE, 0xDD, 0xFF], [0x78, 0x56, 0x34, 0x12], [1, 0, 0, 0, 0, 0, 0, 0], [2, 0, 0, 0, 0, 0, 0, 0],
                [0x04, 0x00, 0x05, 0x03, 0x03, 0x00], [0x11, 0x22, 0x33, 0x44, 0x55, 0x66, 0x77, 0x88, 0x99], b);
    LowByteFirst();
    assert [0xF5, 0xEE, 0xDD, 0xFF][1..3] == [0xEE, 0xDD];
    assert [0x04, 0x00, 0x05, 0x03, 0x03, 0x00][2..4] == [0x05, 0x03];
    assert [0x04, 0x00, 0x05, 0x03, 0x03, 0x00][4..6] == [0x03, 0x00];
  }

  lemma VectorParts(a: bytes, counter: bytes, source: bytes, destination: bytes, exchange: bytes, payload: bytes,
                    b: bytes)
    requires |a| == 4 && |counter| == 4 && |source| == 8 && |destination| == 8 && |exchange| == 6
    requires b == a + counter + source + destination + exchange + payload
    ensures |b| == 30 + |payload| && b[0] == a[0] && b[3] == a[3] && b[1..3] == a[1..3] && b[4..8] == counter
    ensures b[8..16] == source && b[16..24] == destination && b[24] == exchange[0] && b[25] == exchange[1]
    ensures b[26..28] == exchange[2..4] && b[28..30] == exchange[4..6] && b[30..] == payload
  {
  }

  lemma LowByteFirst()
    ensures FromLE([0xEE, 0xDD]) == 0xDDEE && FromLE([0x78, 0x56, 0x34, 0x12]) == 0x1234_5678
    ensures FromLE([1, 0, 0, 0, 0, 0, 0, 0]) == 1 && FromLE([2, 0, 0, 0, 0, 0, 0, 0]) == 2
    ensures FromLE([0x05, 0x03]) == 0x0305 && FromLE([0x03, 0x00]) == 3
  {
    TwoBytes(0xEE, 0xDD);
    TwoBytes(0x05, 0x03);
    TwoBytes(0x03, 0x00);
    FourBytes(0x78, 0x56, 0x34, 0x12);
    FourBytes(0, 0, 0, 0);
    EightBytes([1, 0, 0, 0], [0, 0, 0, 0]);
    EightBytes([2, 0, 0, 0], [0, 0, 0, 0]);
    FourBytes(1, 0, 0, 0);
    FourBytes(2, 0, 0, 0);
    assert [1, 0, 0, 0] + [0, 0, 0, 0] == [1, 0, 0, 0, 0, 0, 0, 0];
    assert [2, 0, 0, 0] + [0, 0, 0, 0] == [2, 0, 0, 0, 0, 0, 0, 0];
  }

  lemma TwoBytes(a: byte, b: byte)
    ensures FromLE([a, b]) == a + 0x100 * b
  {
    assert [a, b][1..] == [b] && [b][1..] == [];
  }

  lemma FourBytes(a: byte, b: byte, c: byte, d: byte)
    ensures FromLE([a, b, c, d]) == a + 0x100 * b + 0x1_0000 * c + 0x100_0000 * d
  {
    TwoBytes(c, d);
    assert [a, b, c, d][1..] == [b, c, d] && [b, c, d][1..] == [c, d];
  }

  lemma EightBytes(a: bytes, b: bytes)
    requires |a| == 4 && |b| == 4
    ensures FromLE(a + b) == FromLE(a) + 0x1_0000_0000 * FromLE(b)
  {
    assert a == [a[0], a[1], a[2], a[3]];
    FourBytes(a[0], a[1], a[2], a[3]);
    var all := a + b;
    assert all[1..] == a[1..] + b && all[1..][1..] == a[2..] + b && all[1..][1..][1..] == a[3..] + b;
    assert all[1..][1..][1..][1..] == b;
    assert FromLE(a[3..] + b) == a[3] + 256 * FromLE(b);
    assert FromLE(a[2..] + b) == a[2] + 256 * FromLE(a[3..] + b);
    assert FromLE(a[1..] + b) == a[1] + 256 * FromLE(a[2..] + b);
  }

  // ----- what the setters do to a layout

  lemma PutInMiddle(a: bytes, m: bytes, c: bytes, at: nat, v: bytes)
    requires at + |v| <= |m|
    ensures Put(a + m + c, |a| + at, v) == a + Put(m, at, v) + c
  {
  }

  lemma PutKeeps(b: bytes, at: nat, v: bytes, i: nat)
    requires at + |v| <= |b| && i < |b| && (i < at || at + |v| <= i)
    ensures Put(b, at, v)[i] == b[i]
  {
  }

  lemma PutHeader(f: Fields, g: Fields, at: nat, v: bytes)
    requires at + |v| <= HEADER_SIZE && Put(MessageHeader(f), at, v) == MessageHeader(g)
    requires f.node == g.node && ExchangeHeader(f) == ExchangeHeader(g) && f.ack == g.ack && f.payload == g.payload
    ensures Put(Layout(f), at, v) == Layout(g)
  {
    var tail := f.node + ExchangeHeader(f) + f.ack + f.payload;
    assert Layout(f) == [] + MessageHeader(f) + tail;
    assert Layout(g) == [] + MessageHeader(g) + tail;
    PutInMiddle([], MessageHeader(f), tail, at, v);
  }

  lemma PutExchange(f: Fields, g: Fields, at: nat, v: bytes)
    requires at + |v| <= EXCHANGE_SIZE && Put(ExchangeHeader(f), at, v) == ExchangeHeader(g)
    requires MessageHeader(f) == MessageHeader(g) && f.node == g.node && f.ack == g.ack && f.payload == g.payload
    ensures HEADER_SIZE + |f.node| + at + |v| <= |Layout(f)|
    ensures Put(Layout(f), HEADER_SIZE + |f.node| + at, v) == Layout(g)
  {
    var head, tail := MessageHeader(f) + f.node, f.ack + f.payload;
    assert Layout(f) == head + ExchangeHeader(f) + tail;
    assert Layout(g) == head + ExchangeHeader(g) + tail;
    PutInMiddle(head, ExchangeHeader(f), tail, at, v);
  }

  lemma PutFlags(f: Fields, v: byte)
    ensures |Layout(f)| >= HEADER_SIZE && Put(Layout(f), 0, [v]) == Layout(f.(flags := v))
  {
    PutHeader(f, f.(flags := v), 0, [v]);
  }

  lemma PutSecurity(f: Fields, v: byte)
    ensures |Layout(f)| >= HEADER_SIZE && Put(Layout(f), 3, [v]) == Layout(f.(security := v))
  {
    PutHeader(f, f.(security := v), 3, [v]);
  }

  lemma PutSessionId(f: Fields, v: nat)
    ensures |Layout(f)| >= HEADER_SIZE && Put(Layout(f), 1, ToLE(v, 2)) == Layout(f.(sessionId := v))
  {
    PutHeader(f, f.(sessionId := v), 1, ToLE(v, 2));
  }

  lemma PutCounter(f: Fields, v: nat)
    ensures |Layout(f)| >= HEADER_SIZE && Put(Layout(f), 4, ToLE(v, 4)) == Layout(f.(counter := v))
  {
    PutHeader(f, f.(counter := v), 4, ToLE(v, 4));
  }

  lemma PutExchangeFlags(f: Fields, v: byte)
    ensures HEADER_SIZE + |f.node| + EXCHANGE_SIZE <= |Layout(f)|
    ensures Put(Layout(f), HEADER_SIZE + |f.node|, [v]) == Layout(f.(exchangeFlags := v))
  {
    PutExchange(f, f.(exchangeFlags := v), 0, [v]);
  }

  lemma PutOpcode(f: Fields, v: byte)
    ensures HEADER_SIZE + |f.node| + EXCHANGE_SIZE <= |Layout(f)|
    ensures Put(Layout(f), HEADER_SIZE + |f.node| + 1, [v]) == Layout(f.(opcode := v))
  {
    PutExchange(f, f.(opcode := v), 1, [v]);
  }

  lemma PutProtocolId(f: Fields, v: nat)
    ensures HEADER_SIZE + |f.node| + EXCHANGE_SIZE <= |Layout(f)|
    ensures Put(Layout(f), HEADER_SIZE + |f.node| + 4, ToLE(v, 2)) == Layout(f.(protocolId := v))
  {
    PutExchange(f, f.(protocolId := v), 4, ToLE(v, 2));
  }

  lemma PutExchangeId(f: Fields, v: nat)
    ensures HEADER_SIZE + |f.node| + EXCHANGE_SIZE <= |Layout(f)|
    ensures Put(Layout(f), HEADER_SIZE + |f.node| + 2, ToLE(v, 2)) == Layout(f.(exchangeId := v))
  {
    PutExchange(f, f.(exchangeId := v), 2, ToLE(v, 2));
  }

  /** The acknowledged counter goes in behind the exchange header. */
  lemma InsertAck(f: Fields, v: nat)
    requires f.ack == []
    ensures var at := HEADER_SIZE + |f.node| + EXCHANGE_SIZE;
            at <= |Layout(f)| && at + 4 <= |Insert(Layout(f), at, 4)|
            && Put(Insert(Layout(f), at, 4), at, ToLE(v, 4)) == Layout(f.(ack := ToLE(v, 4)))
  {
    var head := MessageHeader(f) + f.node + ExchangeHeader(f);
    assert Layout(f) == head + f.payload;
    assert Insert(Layout(f), |head|, 4) == head + Zeros(4) + f.payload;
    PutInMiddle(head, Zeros(4), f.payload, 0, ToLE(v, 4));
  }

  /** A node id goes in behind the message header. */
  lemma InsertNode(f: Fields, v: nat)
    requires f.node == []
    ensures HEADER_SIZE <= |Layout(f)| && HEADER_SIZE + 8 <= |Insert(Layout(f), HEADER_SIZE, 8)|
    ensures Put(Insert(Layout(f), HEADER_SIZE, 8), HEADER_SIZE, ToLE(v, 8)) == Layout(f.(node := ToLE(v, 8)))
  {
    var tail := ExchangeHeader(f) + f.ack + f.payload;
    assert Layout(f) == MessageHeader(f) + tail;
    assert Insert(Layout(f), HEADER_SIZE, 8) == MessageHeader(f) + Zeros(8) + tail;
    PutInMiddle(MessageHeader(f), Zeros(8), tail, 0, ToLE(v, 8));
    assert Layout(f.(node := ToLE(v, 8))) == MessageHeader(f) + ToLE(v, 8) + tail;
  }
}
