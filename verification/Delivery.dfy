/** What becomes of messages that are sent: delivery, resending, and the nonces of a session. */
module Delivery {
  import opened Bytes
  import opened Frame
  import opened Drafts
  import opened MsgCodec
  import opened Messaging

  // ----- what is sent, field by field

  function FlagsOf(initiator: bool, reliable: bool, ack: bool): byte {
    (if initiator then 1 else 0) + (if ack then 2 else 0) + if reliable then 4 else 0
  }

  function Addressed(f: Fields, h: Header): Fields {
    f.(exchangeId := h.exchangeId,
       exchangeFlags := FlagsOf(h.initiator, h.reliable, h.ack.Some?),
       ack := if h.ack.Some? then ToLE(h.ack.value, ACK_SIZE) else [])
  }

  function Stamped(f: Fields, sessionId: nat, counter: nat): Fields {
    f.(flags := 0, security := 0, sessionId := sessionId, counter := counter)
  }

  function FromNode(f: Fields, id: NodeId): Fields { f.(flags := 4, node := ToLE(id, 8)) }
  function ToNode(f: Fields, id: NodeId): Fields { f.(flags := 1, node := ToLE(id, 8)) }

  predicate HeaderFits(h: Header) {
    h.exchangeId < Pow256(2) && (h.ack.Some? ==> h.ack.value < Pow256(4))
  }

  predicate LineFits(s: Line) {
    s.sessionId < Pow256(2) && s.counter < Pow256(4)
  }

  lemma FreshHasRoom(d: Draft, f: Fields)
    requires Fresh(d, f)
    ensures Room(d) && PayloadOffset(d.buffer) == HEADER_SIZE
  {
    LayoutParts(f);
  }

  /** The exchange header of a fresh message is filled in, and the acknowledgement, if any, put in behind it. */
  lemma FillLaysOut(d: Draft, f: Fields, h: Header)
    requires Fresh(d, f) && HeaderFits(h)
    ensures Room(d)
    ensures FillHeader(d, h) == Edit(Draft(Layout(Addressed(f, h)), false, false), true)
  {
    hide Layout;
    hide Put;
    hide ToLE;
    hide SetExchangeFlag;
    hide FillFlags;
    LayoutParts(f);
    PutExchangeId(f, h.exchangeId);
    var g := f.(exchangeId := h.exchangeId);
    LayoutParts(g);
    OneByte(0);
    PutExchangeFlags(g, 0);
    FlagsLayOut(g.(exchangeFlags := 0), h);
  }

  lemma FlagsLayOut(f: Fields, h: Header)
    requires f.flags == 0 && f.node == [] && f.ack == [] && f.exchangeFlags == 0 && HeaderFits(h)
    ensures Room(Draft(Layout(f), false, false))
    ensures FillFlags(Draft(Layout(f), false, false), h)
            == Edit(Draft(Layout(f.(exchangeFlags := FlagsOf(h.initiator, h.reliable, h.ack.Some?),
                                    ack := if h.ack.Some? then ToLE(h.ack.value, ACK_SIZE) else [])), false, false),
                    true)
  {
    hide Layout;
    hide SetExchangeFlag;
    hide SetAckCounter;
    hide ToLE;
    LayoutHasRoom(f);
    FlagLaidOut(f, 1, h.initiator);
    var i := f.(exchangeFlags := FlagsOf(h.initiator, false, false));
    FlagLaidOut(i, 4, h.reliable);
    var r := i.(exchangeFlags := FlagsOf(h.initiator, h.reliable, false));
    if h.ack.Some? {
      FlagLaidOut(r, 2, true);
      FlagBits(h.initiator, h.reliable, true);
      AckLaidOut(r.(exchangeFlags := FlagsOf(h.initiator, h.reliable, true)), h.ack.value);
    }
  }

  lemma FlagBits(initiator: bool, reliable: bool, ack: bool)
    ensures var x := FlagsOf(initiator, reliable, ack);
            Bit(x, 1) == initiator && Bit(x, 2) == ack && Bit(x, 4) == reliable
  {
  }

  /** The message header is stamped over whatever was there. */
  lemma StampLaysOut(f: Fields, sessionId: nat, counter: nat)
    ensures var b := Layout(f);
            |b| >= HEADER_SIZE
            && Put(Put(Put(Put(b, 0, [0]), 3, [0]), 1, ToLE(sessionId, 2)), 4, ToLE(counter, 4))
               == Layout(Stamped(f, sessionId, counter))
  {
    hide Layout;
    hide Put;
    hide ToLE;
    PutFlags(f, 0);
    var g := f.(flags := 0);
    PutSecurity(g, 0);
    g := g.(security := 0);
    PutSessionId(g, sessionId);
    g := g.(sessionId := sessionId);
    PutCounter(g, counter);
  }

  /** What a session makes of a laid out message that has no node id. */
  lemma SendLaysOut(c: Aead, f: Fields, s: Line, random: NodeId)
    requires f.node == [] && LineFits(s)
    ensures Room(Draft(Layout(f), false, false))
    ensures var g, initiator := Stamped(f, s.sessionId, s.counter), Bit(f.exchangeFlags, 1);
            var next := s.(counter := s.counter + 1);
            SendOn(c, Draft(Layout(f), false, false), s, random) ==
            if s.sessionId != 0 then
              if s.keys.NoKeys? then Sent(Err(Thrown), next, Draft(Layout(g), false, false))
              else Sent(Ok(Encrypt(c, Layout(g), if initiator then s.keys.i2r else s.keys.r2i)), next,
                        Draft(Layout(g), false, false))
            else if initiator then
              var id := if NoPeer(s.peer) then random else s.peer.value;
              Sent(Ok(Layout(FromNode(g, id))), next.(peer := Some(id)), Draft(Layout(FromNode(g, id)), true, false))
            else if NoPeer(s.peer) then Sent(Err(Thrown), next, Draft(Layout(g), false, false))
            else Sent(Ok(Layout(ToNode(g, s.peer.value))), next, Draft(Layout(ToNode(g, s.peer.value)), false, true))
  {
    hide Layout;
    hide Put;
    hide ToLE;
    hide Encrypt;
    hide SetSourceNodeId;
    hide SetDestinationNodeId;
    LayoutHasRoom(f);
    StampLaysOut(f, s.sessionId, s.counter);
    var g := Stamped(f, s.sessionId, s.counter);
    LayoutParts(g);
    if s.sessionId == 0 && Bit(f.exchangeFlags, 1) {
      PutFlags(g, 4);
      SourceLaidOut(g.(flags := 4), if NoPeer(s.peer) then random else s.peer.value);
    } else if s.sessionId == 0 && !NoPeer(s.peer) {
      PutFlags(g, 1);
      DestinationLaidOut(g.(flags := 1), s.peer.value);
    }
  }

  // ----- delivery

  /** What a message says, whoever looks. */
  predicate Says(b: bytes, f: Fields, h: Header) {
    && Whole(b)
    && ExchangeId(b) == h.exchangeId && ProtocolId(b) == f.protocolId && ProtocolOpcode(b) == f.opcode
    && Iflag(b) == h.initiator && Rflag(b) == h.reliable && Aflag(b) == h.ack.Some?
    && Acknowledged(b) == h.ack && AppPayload(b) == f.payload
  }

  /** And what it says of an unsecured session: the counter, and the node id on the side that is named. */
  predicate SaysUnsecured(b: bytes, f: Fields, h: Header, counter: nat, id: NodeId) {
    && Says(b, f, h) && Unencrypted(b) && MessageCounter(b) == counter
    && (if h.initiator then SourceNodeId(b) == id && DestinationNodeId(b) == NODE_ID_ANY
        else DestinationNodeId(b) == id)
  }

  predicate Sendable(d: Draft, f: Fields, h: Header) {
    Fresh(d, f) && f.protocolId < Pow256(2) && HeaderFits(h)
  }

  /** A stamped message of an unsecured session with a node id put in. */
  lemma NodeMessageSays(f: Fields, h: Header, counter: nat, id: NodeId)
    requires f.flags == 0 && f.node == [] && f.protocolId < Pow256(2) && HeaderFits(h) && counter < Pow256(4)
    ensures var g := Stamped(Addressed(f, h), 0, counter);
            var b := Layout(if h.initiator then FromNode(g, id) else ToNode(g, id));
            SaysUnsecured(b, f, h, counter, id)
  {
    hide Layout;
    hide ToLE;
    hide FromLE;
    var g := Stamped(Addressed(f, h), 0, counter);
    var k := if h.initiator then FromNode(g, id) else ToNode(g, id);
    FlagBits(h.initiator, h.reliable, h.ack.Some?);
    FieldsReadBack(k);
    LayoutParts(k);
    Pow256Values();
    FromToLE(id, 8);
    assert k.node[..8] == k.node;
    if h.ack.Some? {
      FromToLE(h.ack.value, ACK_SIZE);
    }
  }

  /** Over an unsecured session the receiver reads the message the sender meant: initiators travel with their node id as
      source, responders with the peer's as destination. */
  lemma UnsecuredDelivery(c: Aead, d: Draft, f: Fields, h: Header, s: Line, random: NodeId)
    requires Sendable(d, f, h) && LineFits(s) && s.sessionId == 0
    requires (h.initiator || (s.peer != None && s.peer != Some(0)))
    ensures Room(d)
    ensures var sent := SendIn(c, d, h, s, random);
            var id := if s.peer == None || s.peer == Some(0) then random else s.peer.value;
            && sent.wire.Ok? && sent.line == s.(counter := s.counter + 1, peer := Some(id))
            && SaysUnsecured(sent.wire.value, f, h, s.counter, id)
  {
    hide Layout;
    hide FillHeader;
    hide SendOn;
    hide SaysUnsecured;
    FreshHasRoom(d, f);
    FillLaysOut(d, f, h);
    FlagBits(h.initiator, h.reliable, h.ack.Some?);
    SendLaysOut(c, Addressed(f, h), s, random);
    NodeMessageSays(f, h, s.counter, if h.initiator && NoPeer(s.peer) then random else s.peer.value);
  }

  /** Numbers that are too wide throw: a session id before anything has changed, a counter once it has counted; and so
      does a responder on an unsecured session that knows no peer, whose counter has counted, too. */
  lemma WideNumbersThrow(c: Aead, d: Draft, s: Line, random: NodeId)
    requires Room(d)
    ensures var sent := SendOn(c, d, s, random);
            && (s.sessionId >= 0x1_0000 ==> sent.wire == Err(Thrown) && sent.line == s)
            && (s.sessionId < 0x1_0000 && s.counter >= 0x1_0000_0000 ==>
                  sent.wire == Err(Thrown) && sent.line == s.(counter := s.counter + 1))
            && (s.sessionId == 0 && s.counter < 0x1_0000_0000 && !Bit(d.buffer[HEADER_SIZE], 1)
                && (s.peer == None || s.peer == Some(0)) ==>
                  sent.wire == Err(Thrown) && sent.line == s.(counter := s.counter + 1))
  {
    hide SetSourceNodeId;
    hide SetDestinationNodeId;
    hide Put;
    hide ToLE;
    hide Pow256;
    Pow256Values();
    PutKeeps(d.buffer, 0, [0], HEADER_SIZE);
    var a := Put(Put(d.buffer, 0, [0]), 3, [0]);
    PutKeeps(Put(d.buffer, 0, [0]), 3, [0], HEADER_SIZE);
    PutKeeps(a, 1, ToLE(s.sessionId, 2), HEADER_SIZE);
    PutKeeps(Put(a, 1, ToLE(s.sessionId, 2)), 4, ToLE(s.counter, 4), HEADER_SIZE);
  }

  /** What a message says of a secured session. */
  predicate SaysSecured(b: bytes, f: Fields, h: Header, s: Line) {
    Says(b, f, h) && SessionId(b) == s.sessionId && MessageCounter(b) == s.counter
  }

  lemma StampedMessageSays(f: Fields, h: Header, s: Line)
    requires f.flags == 0 && f.node == [] && f.protocolId < Pow256(2) && HeaderFits(h) && LineFits(s)
    ensures var b := Layout(Stamped(Addressed(f, h), s.sessionId, s.counter));
            SaysSecured(b, f, h, s) && HeaderSize(b) <= |b|
  {
    hide Layout;
    hide ToLE;
    hide FromLE;
    var g := Stamped(Addressed(f, h), s.sessionId, s.counter);
    FlagBits(h.initiator, h.reliable, h.ack.Some?);
    FieldsReadBack(g);
    LayoutParts(g);
    if h.ack.Some? {
      FromToLE(h.ack.value, ACK_SIZE);
    }
  }

  /** Over a secured session an initiator's message decrypts, with the same keys, to the message the sender meant. */
  lemma SecuredDelivery(c: Aead, d: Draft, f: Fields, h: Header, s: Line, random: NodeId)
    requires SoundAead(c) && Sendable(d, f, h) && LineFits(s) && s.sessionId != 0 && s.keys.Keys? && h.initiator
    ensures Room(d)
    ensures var sent := SendIn(c, d, h, s, random);
            && sent.wire.Ok? && sent.line == s.(counter := s.counter + 1)
            && Decrypt(c, sent.wire.value, s.keys.i2r).Some?
            && SaysSecured(Decrypt(c, sent.wire.value, s.keys.i2r).value, f, h, s)
  {
    hide Layout;
    hide FillHeader;
    hide SendOn;
    hide Encrypt;
    hide Decrypt;
    hide SaysSecured;
    hide HeaderSize;
    hide SoundAead;
    FreshHasRoom(d, f);
    FillLaysOut(d, f, h);
    FlagBits(h.initiator, h.reliable, h.ack.Some?);
    SendLaysOut(c, Addressed(f, h), s, random);
    StampedMessageSays(f, h, s);
    DecryptEncrypt(c, Layout(Stamped(Addressed(f, h), s.sessionId, s.counter)), s.keys.i2r);
  }

  // ----- sending the same message again

  /** An initiator's message that was sent on an unsecured session, sent there again, goes out as before but for its
      counter if and only if the initiator's node id is odd: the direction is read before the flags say that there is
      a node id, and so from the id's first byte. */
  lemma ResentIffOdd(c: Aead, d: Draft, f: Fields, h: Header, s: Line, random: NodeId, random2: NodeId)
    requires Sendable(d, f, h) && s.sessionId == 0 && s.counter + 1 < Pow256(4) && h.initiator
    requires NoPeer(s.peer) ==> random != 0
    ensures Room(d)
    ensures var first := SendIn(c, d, h, s, random);
            Room(first.draft) && first.line.peer.Some?
            && var id := first.line.peer.value;
               var again := SendOn(c, first.draft, first.line, random2).wire;
               (again == Ok(Layout(FromNode(Stamped(Addressed(f, h), 0, s.counter + 1), id))) <==> id % 2 == 1)
  {
    hide Layout;
    hide FillHeader;
    hide SendOn;
    FreshHasRoom(d, f);
    FillLaysOut(d, f, h);
    FlagBits(h.initiator, h.reliable, h.ack.Some?);
    SendLaysOut(c, Addressed(f, h), s, random);
    var id := if NoPeer(s.peer) then random else s.peer.value;
    SendAgain(c, Stamped(Addressed(f, h), 0, s.counter), id, s.(counter := s.counter + 1, peer := Some(id)), random2);
  }

  /** The node id 2, for instance: the first send says so, the second goes out under other flags. */
  lemma EvenIdIsNotSentAgain(c: Aead, protocolId: nat, opcode: byte, payload: bytes, h: Header, random: NodeId)
    requires protocolId < Pow256(2) && HeaderFits(h) && h.initiator
    ensures var d := Composed(protocolId, opcode, payload).draft;
            var s := Line(0, 1, Some(2), NoKeys);
            && Room(d)
            && var first := SendIn(c, d, h, s, random);
               && first.wire.Ok? && first.wire.value != [] && first.wire.value[0] == 4
               && Whole(first.wire.value) && SourceNodeId(first.wire.value) == 2
               && Room(first.draft)
               && var again := SendOn(c, first.draft, first.line, random).wire;
                  again.Ok? && again.value != [] && again.value[0] == 1
  {
    hide Layout;
    hide FillHeader;
    hide SendOn;
    hide Composed;
    hide SourceNodeId;
    var d, f, s := Composed(protocolId, opcode, payload).draft, Blank(protocolId, opcode, payload),
        Line(0, 1, Some(2), NoKeys);
    ComposedIsFresh(protocolId, opcode, payload);
    FreshHasRoom(d, f);
    FillLaysOut(d, f, h);
    FlagBits(h.initiator, h.reliable, h.ack.Some?);
    Pow256Values();
    SendLaysOut(c, Addressed(f, h), s, random);
    NodeMessageSays(f, h, 1, 2);
    var g := Stamped(Addressed(f, h), 0, 1);
    LayoutParts(FromNode(g, 2));
    SendsAsResponder(c, g, 2, s.(counter := 2), random);
  }

  /** What the second send of an initiator with an even id makes of the message. */
  lemma SendsAsResponder(c: Aead, f: Fields, id: NodeId, s: Line, random: NodeId)
    requires f.node == [] && s.sessionId == 0 && s.counter < Pow256(4) && s.peer == Some(id) && id != 0 && id % 2 == 0
    ensures var d := Draft(Layout(FromNode(f, id)), true, false);
            Room(d) && var again := SendOn(c, d, s, random).wire; again.Ok? && again.value != [] && again.value[0] == 1
  {
    hide Layout;
    hide ToLE;
    hide Put;
    hide SetDestinationNodeId;
    var k := FromNode(f, id);
    var g := Stamped(k, 0, s.counter);
    LayoutParts(k);
    StampLaysOut(k, 0, s.counter);
    LayoutParts(g);
    FirstByte(id);
    assert Layout(g)[HEADER_SIZE] == ToLE(id, 8)[0];
    Pow256Values();
    PutFlags(g, 1);
    LayoutParts(g.(flags := 1));
    DestinationGoesIn(Draft(Layout(g.(flags := 1)), true, false), id);
  }

  lemma DestinationGoesIn(d: Draft, v: NodeId)
    requires Room(d) && d.buffer[0] == 1
    ensures SetDestinationNodeId(d, v).ok && SetDestinationNodeId(d, v).draft.buffer[0] == 1
  {
    Pow256Values();
  }

  lemma SendAgain(c: Aead, f: Fields, id: NodeId, s: Line, random: NodeId)
    requires f.node == [] && s.sessionId == 0 && s.counter < Pow256(4) && s.peer == Some(id) && id != 0
    ensures var d, g := Draft(Layout(FromNode(f, id)), true, false), Stamped(f, 0, s.counter);
            Room(d) && (SendOn(c, d, s, random).wire == Ok(Layout(FromNode(g, id))) <==> id % 2 == 1)
  {
    hide Layout;
    hide ToLE;
    hide Put;
    hide SetDestinationNodeId;
    var k := FromNode(f, id);
    var d, g := Draft(Layout(k), true, false), Stamped(k, 0, s.counter);
    LayoutParts(k);
    StampLaysOut(k, 0, s.counter);
    LayoutParts(g);
    FirstByte(id);
    assert Layout(g)[HEADER_SIZE] == ToLE(id, 8)[0];
    var b := Draft(Layout(g), true, false);
    Pow256Values();
    PutFlags(g, 4);
    LayoutParts(g.(flags := 4));
    NodeWrittenAgain(g.(flags := 4), id);
    PutFlags(g, 1);
    LayoutParts(g.(flags := 1));
    if id % 2 == 0 {
      DestinationFlagStays(Draft(Layout(g.(flags := 1)), true, false), id);
    }
  }

  lemma FirstByte(id: NodeId)
    ensures ToLE(id, 8)[0] == id % 256 && (Bit(id % 256, 1) <==> id % 2 == 1)
  {
    SameParity(id);
    assert ToLE(id, 8) == [id % 256] + ToLE(id / 256, 7);
    hide ToLE;
  }

  lemma SameParity(n: nat)
    ensures Bit(n % 256, 1) <==> n % 2 == 1
  {
    var q, r := n / 256, n % 256;
    assert n == 2 * (128 * q) + r;
  }

  /** A node id written over itself. */
  lemma NodeWrittenAgain(f: Fields, id: NodeId)
    requires Sflag(f.flags) && f.node == ToLE(id, 8)
    ensures Room(Draft(Layout(f), true, false))
    ensures SetSourceNodeId(Draft(Layout(f), true, false), id) == Edit(Draft(Layout(f), true, false), true)
  {
    hide Layout;
    hide ToLE;
    LayoutParts(f);
    assert Put(Layout(f), 8, ToLE(id, 8)) == Layout(f);
  }

  lemma DestinationFlagStays(d: Draft, v: NodeId)
    requires Room(d) && d.buffer[0] == 1
    ensures SetDestinationNodeId(d, v).draft.buffer[0] == 1
  {
  }

  // ----- nonces over a run of sends

  /** The nonce can be seen in what is sealed under it. */
  lemma SealShowsNonce(c: Aead, b: bytes, key: bytes)
    requires HeaderSize(b) <= |b|
    ensures Nonce(Encrypt(c, b, key)) == Nonce(b)
  {
    var k := HeaderSize(b);
    var (encrypted, tag) := c.seal(key, Nonce(b), b[..k], b[k..]);
    assert b[..k] + encrypted + tag == b[..k] + (encrypted + tag);
    SameHeader(b, encrypted + tag);
  }

  /** Whatever message is sealed, the nonce holds the counter of the session. */
  lemma NonceHoldsCounter(c: Aead, d: Draft, s: Line, random: NodeId)
    requires Room(d) && s.sessionId != 0 && SendOn(c, d, s, random).wire.Ok?
    ensures Nonce(SendOn(c, d, s, random).wire.value) == [0] + ToLE(s.counter, 4) + Zeros(8)
  {
    hide ToLE;
    hide Pow256;
    hide Encrypt;
    var b := SendOn(c, d, s, random).draft.buffer;
    StampedBytes(d.buffer, s.sessionId, s.counter);
    assert Take(b, 3, 5) == [0] + ToLE(s.counter, 4);
    SealShowsNonce(c, b, s.keys.i2r);
    SealShowsNonce(c, b, s.keys.r2i);
  }

  lemma StampedBytes(b: bytes, sessionId: nat, counter: nat)
    requires |b| >= HEADER_SIZE
    ensures var r := Put(Put(Put(Put(b, 0, [0]), 3, [0]), 1, ToLE(sessionId, 2)), 4, ToLE(counter, 4));
            r[0] == 0 && r[3] == 0 && r[4..8] == ToLE(counter, 4)
  {
    hide ToLE;
    var p := Put(Put(b, 0, [0]), 3, [0]);
    assert p[0] == 0 && p[3] == 0;
    var q := Put(p, 1, ToLE(sessionId, 2));
    assert q[0] == p[0] && q[3] == p[3];
    var r := Put(q, 4, ToLE(counter, 4));
    assert r[0] == q[0] && r[3] == q[3] && r[4..8] == ToLE(counter, 4);
  }

  /** A run of sends on one session, each message as it is then: what goes on the wire, and the session afterwards. */
  function Sends(c: Aead, ms: seq<(Draft, NodeId)>, s: Line): (r: (seq<Result<bytes>>, Line))
    requires forall i :: 0 <= i < |ms| ==> Room(ms[i].0)
    ensures |r.0| == |ms|
  {
    if ms == [] then ([], s)
    else
      var n := |ms| - 1;
      var (before, t) := Sends(c, ms[..n], s);
      var sent := SendOn(c, ms[n].0, t, ms[n].1);
      (before + [sent.wire], sent.line)
  }

  lemma SecuredSend(c: Aead, d: Draft, s: Line, random: NodeId)
    requires Room(d) && 0 < s.sessionId < Pow256(2) && s.keys.Keys?
    ensures SendOn(c, d, s, random).line == s.(counter := s.counter + 1)
    ensures SendOn(c, d, s, random).wire.Ok? <==> s.counter < Pow256(4)
  {
  }

  /** The i-th send goes out under the counter at the start plus i, if that fits in 32 bits, and throws otherwise. */
  lemma {:induction false} SendsCount(c: Aead, ms: seq<(Draft, NodeId)>, s: Line)
    requires forall i :: 0 <= i < |ms| ==> Room(ms[i].0)
    requires 0 < s.sessionId < Pow256(2) && s.keys.Keys?
    ensures var (wires, t) := Sends(c, ms, s);
            && t == s.(counter := s.counter + |ms|)
            && forall i :: 0 <= i < |ms| ==>
                 && (wires[i].Ok? <==> s.counter + i < Pow256(4))
                 && (wires[i].Ok? ==> Nonce(wires[i].value) == [0] + ToLE(s.counter + i, 4) + Zeros(8))
  {
    hide SendOn;
    hide Nonce;
    hide ToLE;
    hide Pow256;
    if ms != [] {
      var n := |ms| - 1;
      SendsCount(c, ms[..n], s);
      var t := Sends(c, ms[..n], s).1;
      SecuredSend(c, ms[n].0, t, ms[n].1);
      if SendOn(c, ms[n].0, t, ms[n].1).wire.Ok? {
        NonceHoldsCounter(c, ms[n].0, t, ms[n].1);
      }
    }
  }

  /** Over every run of sends on one secured session, of whatever messages and in whichever direction, no nonce is used
      twice; a new session seals at least 2^32 - 2^28 messages before a send throws, and none afterwards. */
  lemma NoncesNeverRepeat(c: Aead, ms: seq<(Draft, NodeId)>, s: Line)
    requires forall i :: 0 <= i < |ms| ==> Room(ms[i].0)
    requires 0 < s.sessionId < Pow256(2) && s.keys.Keys? && 1 <= s.counter <= 0x1000_0000
    ensures var wires := Sends(c, ms, s).0;
            && (forall i, j :: 0 <= i < j < |wires| && wires[i].Ok? && wires[j].Ok? ==>
                  Nonce(wires[i].value) != Nonce(wires[j].value))
            && (forall i :: 0 <= i < |wires| && i < 0xF000_0000 ==> wires[i].Ok?)
            && (forall i, j :: 0 <= i < j < |wires| && wires[i].Err? ==> wires[j].Err?)
  {
    hide Sends;
    hide Nonce;
    Pow256Values();
    SendsCount(c, ms, s);
    var wires := Sends(c, ms, s).0;
    forall i, j | 0 <= i < j < |wires| && wires[i].Ok? && wires[j].Ok?
      ensures Nonce(wires[i].value) != Nonce(wires[j].value)
    {
      if Nonce(wires[i].value) == Nonce(wires[j].value) {
        assert Nonce(wires[i].value)[1..5] == ToLE(s.counter + i, 4);
        assert Nonce(wires[j].value)[1..5] == ToLE(s.counter + j, 4);
        ToLEInjective(s.counter + i, s.counter + j, 4);
      }
    }
  }
}
