/** PASE over wire bytes: a party's messages are framed by its exchange and its unsecured session, and what arrives is
    routed by the tables of the node and read with the getters. */
module PaseWire {
  import opened Bytes
  import opened Frame
  import Drafts
  import MsgCodec
  import Messaging
  import Delivery
  import Routing
  import opened Pase
  import PaseMessages

  /** `SessionProtocolConst.PROTOCOL_ID` */
  const PROTOCOL_ID := 0

  function Number(opcode: Opcode): byte {
    match opcode
    case ParamRequestOp => 0x20
    case ParamResponseOp => 0x21
    case Pake1Op => 0x22
    case Pake2Op => 0x23
    case Pake3Op => 0x24
    case StatusReportOp => 0x40
  }

  function Named(number: byte): Option<Opcode> {
    if number == 0x20 then Some(ParamRequestOp)
    else if number == 0x21 then Some(ParamResponseOp)
    else if number == 0x22 then Some(Pake1Op)
    else if number == 0x23 then Some(Pake2Op)
    else if number == 0x24 then Some(Pake3Op)
    else if number == 0x40 then Some(StatusReportOp)
    else None
  }

  /** A node: its tables, one PASE party on it, the exchange that the party listens to, and the message counter of that
      exchange's session. */
  datatype End = End(party: Party, tables: Routing.Tables, place: Option<nat>, counter: nat)

  // ----- sending

  function HeaderOf(x: Routing.Exchange): Messaging.Header {
    Messaging.Header(x.exchangeId, x.isInitiator, x.isReliable, if x.isAck then Some(x.ackCounter) else None)
  }

  function PeerOf(node: Option<nat>): Option<Drafts.NodeId> {
    if node.Some? && node.value < 0x1_0000_0000_0000_0000 then Some(node.value) else None
  }

  /** The exchange has a place in the tables, and so has its session. */
  predicate Placed(t: Routing.Tables, place: nat) {
    place < |t.exchanges| && t.exchanges[place].session < |t.sessions|
  }

  function SessionAt(t: Routing.Tables, place: nat): Routing.Session
    requires Placed(t, place)
  {
    t.sessions[t.exchanges[place].session]
  }

  /** The tables after a send: the session may have drawn its node id, and the exchange may acknowledge from now on. */
  function Touched(t: Routing.Tables, place: nat, node: Option<nat>, acks: bool): Routing.Tables
    requires Placed(t, place)
  {
    var s := t.exchanges[place].session;
    Routing.Tables(t.sessions[s := t.sessions[s].(node := node)],
                   t.exchanges[place := t.exchanges[place].(isAck := acks)])
  }

  /** `Exchange.sendMessage` of a new message: what it makes of the tables and the counter, and the wire bytes unless it
      throws.  The client acknowledges from its Pake1 on. */
  function Transmit(c: MsgCodec.Aead, e: End, m: Message, draw: Drafts.NodeId): (End, seq<bytes>) {
    var draft := Drafts.Composed(PROTOCOL_ID, Number(m.opcode), m.payload);
    if e.place.None? || !Placed(e.tables, e.place.value) || !draft.ok || !Drafts.Room(draft.draft) then (e, [])
    else
      var x := e.tables.exchanges[e.place.value];
      var acks := x.isAck || m.opcode == Pake1Op;
      var line := Messaging.Line(0, e.counter, PeerOf(SessionAt(e.tables, e.place.value).node), Messaging.NoKeys);
      var sent := Messaging.SendIn(c, draft.draft, HeaderOf(x.(isAck := acks)), line, draw);
      (e.(tables := Touched(e.tables, e.place.value, sent.line.peer, acks), counter := sent.line.counter),
       if sent.wire.Ok? then [sent.wire.value] else [])
  }

  /** The party makes a step and sends what it has to say. */
  function Move(c: MsgCodec.Aead, cr: Crypto, e: End, event: Event, draw: Drafts.NodeId): (End, seq<bytes>) {
    var party := Step(cr, e.party, event);
    var sent := party.history.sent;
    if |sent| <= |e.party.history.sent| then (e.(party := party), [])
    else Transmit(c, e.(party := party), sent[|sent| - 1], draw)
  }

  // ----- receiving

  /** What arrives is routed by the tables.  Where the party listens, it hears it; a parameter request that opens an
      exchange brings the party to it, which makes it reliable. */
  function Hear(e: End, b: bytes, peer: Routing.PeerInfo): (End, bool)
    requires Whole(b)
  {
    var (t, route) := Routing.OnMessage(e.tables, Routing.Receive(b, peer));
    match route
    case Known(x) => (e.(tables := t), e.place == Some(x))
    case Unsolicited(x) =>
      if e.place.None? && x < |t.exchanges| && ProtocolId(b) == PROTOCOL_ID
         && Named(ProtocolOpcode(b)) == Some(ParamRequestOp)
      then (e.(tables := Reliable(t, x), place := Some(x)), true)
      else (e.(tables := t), false)
    case Dropped => (e.(tables := t), false)
  }

  function Reliable(t: Routing.Tables, x: nat): Routing.Tables
    requires x < |t.exchanges|
  {
    t.(exchanges := t.exchanges[x := t.exchanges[x].(isReliable := true)])
  }

  /** Bytes that are not whole throw, and sealed ones go to other sessions. */
  function Receive(c: MsgCodec.Aead, cr: Crypto, e: End, b: bytes, peer: Routing.PeerInfo, random: PaseMessages.Random,
                   id: PaseMessages.SessionId, draw: Drafts.NodeId): (End, seq<bytes>) {
    if !Whole(b) || !Unencrypted(b) then (e, [])
    else
      var (taken, heard) := Hear(e, b, peer);
      var opcode := Named(ProtocolOpcode(b));
      if !heard || opcode.None? then (taken, [])
      else Move(c, cr, taken, Receives(Message(opcode.value, AppPayload(b)), random, id), draw)
  }

  // ----- what is on the wire

  /** The bytes say the message to whoever reads them with the getters. */
  predicate Framed(b: bytes, m: Message) {
    && Whole(b) && Unencrypted(b) && ProtocolId(b) == PROTOCOL_ID
    && Named(ProtocolOpcode(b)) == Some(m.opcode) && AppPayload(b) == m.payload
  }

  /** And they are of the exchange, from this side of it, under the node id. */
  predicate Labelled(b: bytes, id: nat, initiator: bool, node: Option<nat>) {
    Whole(b) && ExchangeId(b) == id && Iflag(b) == initiator
    && node == Some(if initiator then SourceNodeId(b) else DestinationNodeId(b))
  }

  /** What was sent is on the wire, message for message. */
  predicate OnWire(wire: seq<bytes>, sent: seq<Message>, id: nat, initiator: bool, node: Option<nat>) {
    && |wire| == |sent|
    && forall i :: 0 <= i < |wire| ==> Framed(wire[i], sent[i]) && Labelled(wire[i], id, initiator, node)
  }

  /** What the exchange says of reliability, what it acknowledges, and the session's counter. */
  predicate Marked(b: bytes, reliable: bool, ack: Option<nat>, counter: nat) {
    Whole(b) && Rflag(b) == reliable && Aflag(b) == ack.Some? && Acknowledged(b) == ack && MessageCounter(b) == counter
  }

  lemma NumberNames(opcode: Opcode)
    ensures Named(Number(opcode)) == Some(opcode)
  {
  }

  /** The party's exchange is in the tables, under the node id that its session has so far, and can send. */
  predicate CanSend(e: End, id: nat, client: bool, node: Option<nat>) {
    && e.place.Some? && Placed(e.tables, e.place.value)
    && var x := e.tables.exchanges[e.place.value];
       && x.exchangeId == id < Pow256(2) && x.isInitiator == client && x.ackCounter < Pow256(4)
       && SessionAt(e.tables, e.place.value).node == node
       && (node.Some? ==> 0 < node.value < 0x1_0000_0000_0000_0000) && (client || node.Some?)
  }

  /** What an end sends is on the wire, and says what was meant. */
  lemma TransmitFrames(c: MsgCodec.Aead, e: End, m: Message, draw: Drafts.NodeId, id: nat, client: bool,
                       node: Option<nat>)
    requires CanSend(e, id, client, node) && e.counter < Pow256(4) && draw != 0
    ensures var (end, out) := Transmit(c, e, m, draw);
            var after := if node.None? then Some(draw) else node;
            && |out| == 1 && Framed(out[0], m) && Labelled(out[0], id, client, after)
            && (var x := e.tables.exchanges[e.place.value];
                Marked(out[0], x.isReliable,
                       if x.isAck || m.opcode == Pake1Op then Some(x.ackCounter) else None, e.counter))
            && end == e.(tables := Touched(e.tables, e.place.value, after,
                                           e.tables.exchanges[e.place.value].isAck || m.opcode == Pake1Op),
                         counter := e.counter + 1)
  {
    hide Messaging.SendIn;
    hide Drafts.Composed;
    hide Drafts.Room;
    hide Drafts.Fresh;
    hide Delivery.Sendable;
    hide Whole;
    hide Iflag;
    hide Aflag;
    hide Rflag;
    hide Acknowledged;
    hide MessageCounter;
    hide SourceNodeId;
    hide DestinationNodeId;
    hide ExchangeId;
    hide ProtocolId;
    hide ProtocolOpcode;
    hide AppPayload;
    hide Unencrypted;
    hide Number;
    hide Named;
    Pow256Values();
    NumberNames(m.opcode);
    var x := e.tables.exchanges[e.place.value];
    var h := HeaderOf(x.(isAck := x.isAck || m.opcode == Pake1Op));
    var f := Drafts.Blank(PROTOCOL_ID, Number(m.opcode), m.payload);
    var d := Drafts.Composed(PROTOCOL_ID, Number(m.opcode), m.payload).draft;
    Drafts.ComposedIsFresh(PROTOCOL_ID, Number(m.opcode), m.payload);
    MaySend(d, f, h);
    Delivery.UnsecuredDelivery(c, d, f, h, Messaging.Line(0, e.counter, PeerOf(node), Messaging.NoKeys), draw);
  }

  lemma MaySend(d: Drafts.Draft, f: Fields, h: Messaging.Header)
    requires Drafts.Fresh(d, f) && f.protocolId < Pow256(2) && Delivery.HeaderFits(h)
    ensures Delivery.Sendable(d, f, h)
  {
  }

  // ----- one step

  /** Under no node id nothing is on the wire yet. */
  lemma NothingOnWire(wire: seq<bytes>, sent: seq<Message>, id: nat, initiator: bool)
    requires OnWire(wire, sent, id, initiator, None)
    ensures wire == [] && sent == []
  {
    assert wire != [] ==> Labelled(wire[0], id, initiator, None);
  }

  lemma WireSnoc(wire: seq<bytes>, sent: seq<Message>, b: bytes, m: Message, id: nat, initiator: bool,
                 node: Option<nat>)
    requires OnWire(wire, sent, id, initiator, node) && Framed(b, m) && Labelled(b, id, initiator, node)
    ensures OnWire(wire + [b], sent + [m], id, initiator, node)
  {
    hide Framed;
    hide Labelled;
  }

  lemma SendsOne(p: Party, e: Event, q: Party)
    requires StepsInTurn(p, e, q)
    ensures |q.history.sent| > |p.history.sent| ==>
              |q.history.sent| == |p.history.sent| + 1 && q.history.sent[..|p.history.sent|] == p.history.sent
    ensures |q.history.sent| <= |p.history.sent| ==> q.history.sent == p.history.sent
  {
  }

  /** A step of a party that can send keeps what was sent on the wire.  Of the tables it touches its own session and
      exchange at most. */
  lemma MoveKeeps(c: MsgCodec.Aead, cr: Crypto, e: End, event: Event, draw: Drafts.NodeId, wire: seq<bytes>, id: nat,
                  client: bool, node: Option<nat>) returns (after: Option<nat>, acks: bool)
    requires CanSend(e, id, client, node) && e.counter < Pow256(4) && draw != 0
    requires OnWire(wire, e.party.history.sent, id, client, node)
    ensures var (end, out) := Move(c, cr, e, event, draw);
            && end.party == Step(cr, e.party, event) && end.place == e.place
            && e.counter <= end.counter <= e.counter + 1
            && end.tables == Touched(e.tables, e.place.value, after, acks)
            && OnWire(wire + out, end.party.history.sent, id, client, after)
    ensures after == node || (node.None? && after == Some(draw))
    ensures var x, out := e.tables.exchanges[e.place.value], Move(c, cr, e, event, draw).1;
            (x.isAck ==> acks) && |out| <= 1
            && (out != [] ==> Marked(out[0], x.isReliable, if acks then Some(x.ackCounter) else None, e.counter))
  {
    hide Step;
    hide Transmit;
    hide Marked;
    hide StepsInTurn;
    hide Framed;
    hide Labelled;
    hide Pow256;
    SendsInTurn(cr, e.party, event);
    SendsOne(e.party, event, Step(cr, e.party, event));
    var party := Step(cr, e.party, event);
    var before, sent := e.party.history.sent, party.history.sent;
    after, acks := node, e.tables.exchanges[e.place.value].isAck;
    if |sent| <= |before| {
      assert wire + [] == wire;
      NothingTouched(e.tables, e.place.value);
    } else {
      var m := sent[|sent| - 1];
      assert sent == before + [m];
      var now := e.(party := party);
      assert CanSend(now, id, client, node);
      TransmitFrames(c, now, m, draw, id, client, node);
      var (end, out) := Transmit(c, now, m, draw);
      if node.None? {
        NothingOnWire(wire, before, id, client);
        after := Some(draw);
      }
      acks := acks || m.opcode == Pake1Op;
      WireSnoc(wire, before, out[0], m, id, client, after);
      assert out == [out[0]];
    }
  }

  lemma NothingTouched(t: Routing.Tables, place: nat)
    requires Placed(t, place)
    ensures Touched(t, place, SessionAt(t, place).node, t.exchanges[place].isAck) == t
  {
  }

  /** A party that listens nowhere has nothing to go on with. */
  lemma FreshWaits(c: MsgCodec.Aead, cr: Crypto, e: End, event: Event, draw: Drafts.NodeId)
    requires e.party == FRESH && !event.Receives? && !event.Starts?
    ensures Step(cr, FRESH, event) == FRESH && Move(c, cr, e, event, draw) == (e, [])
  {
    assert e.(party := FRESH) == e;
  }

  /** Bytes on the wire say a message that was sent. */
  lemma WireSays(wire: seq<bytes>, sent: seq<Message>, id: nat, initiator: bool, node: Option<nat>, b: bytes)
    returns (m: Message)
    requires OnWire(wire, sent, id, initiator, node) && b in wire
    ensures m in sent && Framed(b, m) && Labelled(b, id, initiator, node)
  {
    var i :| 0 <= i < |wire| && wire[i] == b;
    m := sent[i];
  }

  /** The bytes of a message that was sent. */
  lemma WireOf(wire: seq<bytes>, sent: seq<Message>, id: nat, initiator: bool, node: Option<nat>, m: Message)
    returns (b: bytes)
    requires OnWire(wire, sent, id, initiator, node) && m in sent
    ensures b in wire && Framed(b, m) && Labelled(b, id, initiator, node)
  {
    var i :| 0 <= i < |sent| && sent[i] == m;
    b := wire[i];
  }
}
