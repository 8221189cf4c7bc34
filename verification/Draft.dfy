/** The setters of src/message/Message.js on any message: its buffer, and which node ids have room in it. */
module Drafts {
  import opened Bytes
  import opened Frame

  type NodeId = n: nat | n < 0x1_0000_0000_0000_0000

  datatype Draft = Draft(buffer: bytes, hasSource: bool, hasDestination: bool)

  /** What a setter makes of a draft, and whether it returns: an exception leaves what was done before it. */
  datatype Edit = Edit(draft: Draft, ok: bool)

  /** Room for the two fixed headers and for the node ids that have been put in. */
  predicate Room(d: Draft) {
    |d.buffer| >= HEADER_SIZE + EXCHANGE_SIZE + (if d.hasSource then NODE_ID_SIZE else 0)
                  + if d.hasDestination then GROUP_ID_SIZE else 0
  }

  const BLANK := Draft(Zeros(HEADER_SIZE + EXCHANGE_SIZE), false, false)

  /** A setter leaves room and takes no node id away. */
  predicate Kept(d: Draft, e: Draft) {
    Room(e) && |e.buffer| >= |d.buffer| && (d.hasSource ==> e.hasSource) && (d.hasDestination ==> e.hasDestination)
  }

  // ----- setters

  /** Writing past the end throws. */
  function WriteAt(d: Draft, at: nat, v: bytes): Edit {
    if at + |v| <= |d.buffer| then Edit(d.(buffer := Put(d.buffer, at, v)), true) else Edit(d, false)
  }

  /** So does writing a number that is too wide. */
  function WriteNumber(d: Draft, at: nat, n: nat, width: nat): Edit {
    if n < Pow256(width) then WriteAt(d, at, ToLE(n, width)) else Edit(d, false)
  }

  /** A field of the exchange header, which begins where the flags of the first byte put it. */
  function SetExchangeNumber(d: Draft, at: nat, n: nat, width: nat): (e: Edit)
    requires Room(d)
    ensures Kept(d, e.draft)
  {
    WriteNumber(d, PayloadOffset(d.buffer) + at, n, width)
  }

  /** `set Iflag`, `set Aflag` and `set Rflag` */
  function SetExchangeFlag(d: Draft, weight: nat, on: bool): (e: Edit)
    requires Room(d) && (weight == 1 || weight == 2 || weight == 4)
    ensures Kept(d, e.draft)
  {
    var at := PayloadOffset(d.buffer);
    if at < |d.buffer| then WriteAt(d, at, [SetBit(d.buffer[at], weight, on)]) else Edit(d, false)
  }

  /** `set AckCounter`: with the A flag, four bytes go in behind the exchange header, whether or not there are some. */
  function SetAckCounter(d: Draft, v: nat): (e: Edit)
    requires Room(d)
    ensures Kept(d, e.draft)
  {
    var at := PayloadOffset(d.buffer);
    if at >= |d.buffer| then Edit(d, false)
    else if !Bit(d.buffer[at], 2) then Edit(d, true)
    else WriteNumber(d.(buffer := Insert(d.buffer, at + EXCHANGE_SIZE, ACK_SIZE)), at + EXCHANGE_SIZE, v, ACK_SIZE)
  }

  /** `set SourceNodeId`: nothing without the S flag; the first time, eight bytes go in. */
  function SetSourceNodeId(d: Draft, v: NodeId): (e: Edit)
    requires Room(d)
    ensures Kept(d, e.draft)
  {
    if !Sflag(d.buffer[0]) then Edit(d, true)
    else
      var grown := if d.hasSource then d
                   else Draft(Insert(d.buffer, HEADER_SIZE, NODE_ID_SIZE), true, d.hasDestination);
      WriteAt(grown, HEADER_SIZE, ToLE(v, 8))
  }

  /** `set DestinationNodeId`: as many bytes as the size bits say go in the first time; there is no buffer for size
      3. */
  function SetDestinationNodeId(d: Draft, v: NodeId): (e: Edit)
    requires Room(d)
    ensures Kept(d, e.draft)
  {
    var at, size := HEADER_SIZE + (if Sflag(d.buffer[0]) then 8 else 0), Dsiz(d.buffer[0]);
    if size == 0 then Edit(d, true)
    else if size == 3 then Edit(d, d.hasDestination)
    else
      var width := if size == 1 then NODE_ID_SIZE else GROUP_ID_SIZE;
      var grown := if d.hasDestination then d else Draft(Insert(d.buffer, at, width), d.hasSource, true);
      WriteNumber(grown, at, v, width)
  }

  /** `set Sflag`: keeps the old flag, whatever is set, and drops all others. */
  function SetSflag(flags: byte, on: bool): byte {
    if Sflag(flags) || on then 4 else 0
  }

  /** `set Dsiz`: adds the new size bits to the old ones, and drops all other flags. */
  function SetDsiz(flags: byte, size: nat): byte
    requires size < 4
  {
    (if Bit(flags, 1) || Bit(size, 1) then 1 else 0) + if Bit(flags, 2) || Bit(size, 2) then 2 else 0
  }

  /** Neither setter of the message flags can clear anything of its own, and both clear all the rest. */
  lemma FlagsOnlyGrow(flags: byte, on: bool, size: nat)
    requires size < 4
    ensures (Sflag(SetSflag(flags, on)) <==> Sflag(flags) || on) && Dsiz(SetSflag(flags, on)) == 0
    ensures Bit(SetDsiz(flags, size), 1) == (Bit(flags, 1) || Bit(size, 1))
    ensures Bit(SetDsiz(flags, size), 2) == (Bit(flags, 2) || Bit(size, 2))
    ensures SetSflag(flags, on) < 8 && SetDsiz(flags, size) < 4 && !Sflag(SetDsiz(flags, size))
  {
  }

  // ----- on a message that is laid out

  /** A message without node ids and acknowledgement, of the given fields. */
  predicate Fresh(d: Draft, f: Fields) {
    d == Draft(Layout(f), false, false) && f.flags == 0 && f.node == [] && f.ack == []
  }

  lemma LayoutHasRoom(f: Fields)
    ensures Room(Draft(Layout(f), false, false))
  {
    LayoutParts(f);
  }

  /** Setting the source of a message without one puts it behind the message header, all else unchanged. */
  lemma SourceLaidOut(f: Fields, v: NodeId)
    requires Sflag(f.flags) && f.node == []
    ensures Room(Draft(Layout(f), false, false))
    ensures SetSourceNodeId(Draft(Layout(f), false, false), v)
            == Edit(Draft(Layout(f.(node := ToLE(v, 8))), true, false), true)
  {
    LayoutParts(f);
    InsertNode(f, v);
  }

  lemma DestinationLaidOut(f: Fields, v: NodeId)
    requires !Sflag(f.flags) && Dsiz(f.flags) == 1 && f.node == []
    ensures Room(Draft(Layout(f), false, false))
    ensures SetDestinationNodeId(Draft(Layout(f), false, false), v)
            == Edit(Draft(Layout(f.(node := ToLE(v, 8))), false, true), true)
  {
    LayoutParts(f);
    InsertNode(f, v);
    Pow256Values();
  }

  // ----- node ids on any layout

  /** The message header, the node ids, and the rest. */
  lemma LayoutAround(f: Fields)
    ensures Layout(f) == MessageHeader(f) + f.node + (ExchangeHeader(f) + f.ack + f.payload)
  {
  }

  lemma Regroup(h: bytes, a: bytes, m: bytes, c: bytes, r: bytes)
    ensures h + (a + m + c) + r == (h + a) + m + (c + r)
  {
  }

  lemma PutNode(f: Fields, a: bytes, prior: bytes, c: bytes, v: bytes)
    requires f.node == a + prior + c && |prior| == |v|
    ensures HEADER_SIZE + |a| + |v| <= |Layout(f)|
    ensures Put(Layout(f), HEADER_SIZE + |a|, v) == Layout(f.(node := a + v + c))
  {
    hide Layout;
    hide Put;
    hide MessageHeader;
    hide ExchangeHeader;
    var g := f.(node := a + v + c);
    LayoutAround(f);
    LayoutAround(g);
    SameHeaders(f, g);
    var head, tail := MessageHeader(f), ExchangeHeader(f) + f.ack + f.payload;
    Regroup(head, a, prior, c, tail);
    Regroup(head, a, v, c, tail);
    PutInMiddle(head + a, prior, c + tail, 0, v);
    WholePut(prior, v);
  }

  lemma SameHeaders(f: Fields, g: Fields)
    requires g == f.(node := g.node)
    ensures MessageHeader(g) == MessageHeader(f) && ExchangeHeader(g) == ExchangeHeader(f)
  {
  }

  lemma WholePut(prior: bytes, v: bytes)
    requires |prior| == |v|
    ensures Put(prior, 0, v) == v
  {
  }

  lemma InsertZeros(f: Fields, a: bytes, c: bytes, n: nat)
    requires f.node == a + c
    ensures Insert(Layout(f), HEADER_SIZE + |a|, n) == Layout(f.(node := a + Zeros(n) + c))
  {
    var head, tail := MessageHeader(f) + a, c + ExchangeHeader(f) + f.ack + f.payload;
    assert Layout(f) == head + tail;
    assert Layout(f.(node := a + Zeros(n) + c)) == head + Zeros(n) + tail;
  }

  /** With the S flag the source lies in front of a destination, goes in there the first time and is overwritten from
      then on; without the flag nothing happens. */
  lemma SourceGoesFirst(f: Fields, source: bytes, destination: bytes, v: NodeId, hasDestination: bool)
    requires f.node == source + destination && (source == [] || |source| == NODE_ID_SIZE)
    requires |destination| >= if hasDestination then GROUP_ID_SIZE else 0
    ensures var d := Draft(Layout(f), source != [], hasDestination);
            Room(d)
            && SetSourceNodeId(d, v)
               == Edit(if Sflag(f.flags) then Draft(Layout(f.(node := ToLE(v, 8) + destination)), true, hasDestination)
                       else d, true)
  {
    hide Layout;
    hide Put;
    hide Insert;
    hide ToLE;
    LayoutParts(f);
    if source == [] {
      InsertZeros(f, [], destination, 8);
      assert f.node == [] + destination && [] + Zeros(8) + destination == Zeros(8) + destination;
      PutNode(f.(node := Zeros(8) + destination), [], Zeros(8), destination, ToLE(v, 8));
    } else {
      assert f.node == [] + source + destination;
      PutNode(f, [], source, destination, ToLE(v, 8));
    }
    assert [] + ToLE(v, 8) + destination == ToLE(v, 8) + destination;
  }

  /** The destination lies behind a source, by the size bits in eight or two bytes; a group id that does not fit throws,
      with the room for it made. */
  lemma DestinationGoesBehind(f: Fields, destination: bytes, source: bytes, v: NodeId)
    requires f.node == source + destination && |source| == (if Sflag(f.flags) then 8 else 0)
    requires Dsiz(f.flags) == 1 || Dsiz(f.flags) == 2
    requires destination == [] || |destination| == if Dsiz(f.flags) == 1 then NODE_ID_SIZE else GROUP_ID_SIZE
    ensures var d := Draft(Layout(f), source != [], destination != []);
            var width := if Dsiz(f.flags) == 1 then 8 else 2;
            var was := if destination == [] then Zeros(width) else destination;
            Room(d)
            && SetDestinationNodeId(d, v)
               == Edit(Draft(Layout(f.(node := source + if v < Pow256(width) then ToLE(v, width) else was)),
                             source != [], true), v < Pow256(width))
  {
    hide Layout;
    hide Put;
    hide Insert;
    hide ToLE;
    hide Pow256;
    LayoutParts(f);
    var width := if Dsiz(f.flags) == 1 then 8 else 2;
    var was := if destination == [] then Zeros(width) else destination;
    if destination == [] {
      InsertZeros(f, source, [], width);
      assert f.node == source + [] && source + Zeros(width) + [] == source + Zeros(width);
    }
    assert source + was == source + was + [] && source + ToLE(v, width) + [] == source + ToLE(v, width);
    PutNode(f.(node := source + was), source, was, [], ToLE(v, width));
    assert f.(node := f.node) == f;
  }

  /** Size 0 has no destination, and size 3 no buffer to put one in. */
  lemma NoDestination(d: Draft, v: NodeId)
    requires Room(d) && (Dsiz(d.buffer[0]) == 0 || Dsiz(d.buffer[0]) == 3)
    ensures SetDestinationNodeId(d, v).draft == d
    ensures SetDestinationNodeId(d, v).ok <==> Dsiz(d.buffer[0]) == 0 || d.hasDestination
  {
  }

  lemma AckLaidOut(f: Fields, v: nat)
    requires f.flags == 0 && f.node == [] && f.ack == [] && Bit(f.exchangeFlags, 2) && v < Pow256(4)
    ensures Room(Draft(Layout(f), false, false))
    ensures SetAckCounter(Draft(Layout(f), false, false), v)
            == Edit(Draft(Layout(f.(ack := ToLE(v, 4))), false, false), true)
  {
    hide Layout;
    hide Insert;
    hide Put;
    hide Pow256;
    hide ToLE;
    LayoutParts(f);
    InsertAck(f, v);
  }

  /** A second acknowledgement goes in before the first, which becomes part of the payload. */
  lemma AckTwice(f: Fields, v: nat)
    requires f.flags == 0 && f.node == [] && |f.ack| == ACK_SIZE && Bit(f.exchangeFlags, 2) && v < Pow256(4)
    ensures Room(Draft(Layout(f), false, false))
    ensures SetAckCounter(Draft(Layout(f), false, false), v)
            == Edit(Draft(Layout(f.(ack := ToLE(v, 4), payload := f.ack + f.payload)), false, false), true)
  {
    var g := f.(ack := [], payload := f.ack + f.payload);
    assert Layout(f) == Layout(g);
    AckLaidOut(g, v);
  }

  lemma FlagLaidOut(f: Fields, weight: nat, on: bool)
    requires f.flags == 0 && f.node == [] && (weight == 1 || weight == 2 || weight == 4)
    ensures Room(Draft(Layout(f), false, false))
    ensures SetExchangeFlag(Draft(Layout(f), false, false), weight, on)
            == Edit(Draft(Layout(f.(exchangeFlags := SetBit(f.exchangeFlags, weight, on))), false, false), true)
  {
    LayoutParts(f);
    PutExchangeFlags(f, SetBit(f.exchangeFlags, weight, on));
  }

  // ----- composing a message

  /** `new Message()`, `ProtocolId`, `ProtocolOpcode` and `AppPayload`, as every sender sets them. */
  function Composed(protocolId: nat, opcode: byte, payload: bytes): Edit {
    var e := SetExchangeNumber(BLANK, 4, protocolId, 2);
    if !e.ok then e
    else
      var o := SetExchangeNumber(e.draft, 1, opcode, 1);
      if !o.ok then o else Edit(o.draft.(buffer := o.draft.buffer + payload), true)
  }

  function Blank(protocolId: nat, opcode: byte, payload: bytes): Fields {
    Fields(0, 0, 0, 0, [], 0, opcode, 0, protocolId, [], payload)
  }

  lemma ZerosLE(k: nat)
    ensures ToLE(0, k) == Zeros(k)
  {
  }

  /** A composed message is fresh. */
  lemma ComposedIsFresh(protocolId: nat, opcode: byte, payload: bytes)
    requires protocolId < Pow256(2)
    ensures Composed(protocolId, opcode, payload).ok
    ensures Fresh(Composed(protocolId, opcode, payload).draft, Blank(protocolId, opcode, payload))
  {
    hide Put;
    var f := Blank(0, 0, []);
    ZerosLE(2);
    ZerosLE(4);
    assert Layout(f) == BLANK.buffer;
    LayoutParts(f);
    PutProtocolId(f, protocolId);
    var g := f.(protocolId := protocolId);
    LayoutParts(g);
    OneByte(opcode);
    PutOpcode(g, opcode);
    assert Layout(g.(opcode := opcode)) + payload == Layout(Blank(protocolId, opcode, payload));
  }

  lemma OneByte(v: byte)
    ensures ToLE(v, 1) == [v] && v < Pow256(1)
  {
    assert ToLE(0, 0) == [];
  }
}
