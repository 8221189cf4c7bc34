/** Sending a message: src/message/Message.js, Session.js and Exchange.js edit one buffer in turn. */
module Messaging {
  import opened Bytes
  import opened Frame
  import opened Drafts
  import opened MsgCodec

  // ----- what is sent, whatever the message has been through

  /** The exchange header that `Exchange.sendMessage` fills in. */
  datatype Header = Header(exchangeId: nat, initiator: bool, reliable: bool, ack: Option<nat>)

  function FillHeader(d: Draft, h: Header): (e: Edit)
    requires Room(d)
    ensures Kept(d, e.draft)
  {
    var e := SetExchangeNumber(d, 2, h.exchangeId, 2);
    if !e.ok then e
    else
      var cleared := SetExchangeNumber(e.draft, 0, 0, 1);
      if !cleared.ok then cleared else FillFlags(cleared.draft, h)
  }

  function FillFlags(d: Draft, h: Header): (e: Edit)
    requires Room(d)
    ensures Kept(d, e.draft)
  {
    var i := SetExchangeFlag(d, 1, h.initiator);
    if !i.ok then i
    else
      var r := SetExchangeFlag(i.draft, 4, h.reliable);
      if !r.ok || h.ack.None? then r
      else
        var a := SetExchangeFlag(r.draft, 2, true);
        if !a.ok then a else SetAckCounter(a.draft, h.ack.value)
  }

  /** `NodeKeys`: initiator to responder, responder to initiator. */
  datatype Keys = NoKeys | Keys(i2r: bytes, r2i: bytes)

  /** What a session holds. */
  datatype Line = Line(sessionId: nat, counter: nat, peer: Option<NodeId>, keys: Keys)

  /** What goes on the wire or why nothing does, and what becomes of the session and the message. */
  datatype Sent = Sent(wire: Result<bytes>, line: Line, draft: Draft)

  /** `Session.sendMessage`: no flags, the session id and the counter, which counts also when it is too wide. */
  function SendOn(c: Aead, d: Draft, s: Line, random: NodeId): Sent
    requires Room(d)
  {
    var cleared := d.(buffer := Put(Put(d.buffer, 0, [0]), 3, [0]));
    if s.sessionId >= Pow256(2) then Sent(Err(Thrown), s, cleared)
    else
      var stamped := cleared.(buffer := Put(cleared.buffer, 1, ToLE(s.sessionId, 2)));
      var next := s.(counter := s.counter + 1);
      if s.counter >= Pow256(4) then Sent(Err(Thrown), next, stamped)
      else Dispatch(c, stamped.(buffer := Put(stamped.buffer, 4, ToLE(s.counter, 4))), next, random)
  }

  /** Neither known nor the null id. */
  predicate NoPeer(peer: Option<NodeId>) {
    peer == None || peer == Some(0)
  }

  /** Sealed on a secured session; under the source or destination node id on an unsecured one.  The direction is read
      where the exchange header is when there is no node id. */
  function Dispatch(c: Aead, d: Draft, s: Line, random: NodeId): Sent
    requires Room(d)
  {
    var initiator := Bit(d.buffer[HEADER_SIZE], 1);
    if s.sessionId != 0 then
      if s.keys.NoKeys? then Sent(Err(Thrown), s, d)
      else Sent(Ok(Encrypt(c, d.buffer, if initiator then s.keys.i2r else s.keys.r2i)), s, d)
    else if initiator then
      var id := if NoPeer(s.peer) then random else s.peer.value;
      var e := SetSourceNodeId(d.(buffer := Put(d.buffer, 0, [SetSflag(SetDsiz(0, 0), true)])), id);
      Sent(if e.ok then Ok(e.draft.buffer) else Err(Thrown), s.(peer := Some(id)), e.draft)
    else if NoPeer(s.peer) then Sent(Err(Thrown), s, d)
    else
      var e := SetDestinationNodeId(d.(buffer := Put(d.buffer, 0, [SetDsiz(SetSflag(0, false), 1)])), s.peer.value);
      Sent(if e.ok then Ok(e.draft.buffer) else Err(Thrown), s, e.draft)
  }

  /** `Exchange.sendMessage` */
  function SendIn(c: Aead, d: Draft, h: Header, s: Line, random: NodeId): Sent
    requires Room(d)
  {
    var e := FillHeader(d, h);
    if !e.ok then Sent(Err(Thrown), s, e.draft) else SendOn(c, e.draft, s, random)
  }

  // ----- in place

  class Message {
    var buffer: array<byte>
    var hasSource: bool
    var hasDestination: bool

    function Now(): Draft
      reads this, buffer
    {
      Draft(buffer[..], hasSource, hasDestination)
    }

    predicate Valid()
      reads this, buffer
    {
      Room(Now())
    }

    /** Room for the two fixed headers. */
    constructor ()
      ensures fresh(buffer) && Now() == BLANK && Valid()
    {
      buffer := new byte[HEADER_SIZE + EXCHANGE_SIZE](_ => 0);
      hasSource, hasDestination := false, false;
    }

    /** A view of the buffer is written through to the buffer; past its end, it throws. */
    method Write(at: nat, v: bytes) returns (ok: bool)
      modifies buffer
      ensures Edit(Now(), ok) == WriteAt(old(Now()), at, v)
    {
      if at + |v| > buffer.Length {
        return false;
      }
      var i := 0;
      while i < |v|
        invariant i <= |v|
        invariant forall k :: 0 <= k < buffer.Length ==>
                    buffer[k] == if at <= k < at + i then v[k - at] else old(buffer[k])
      {
        buffer[at + i] := v[i];
        i := i + 1;
      }
      return true;
    }

    method WriteWide(at: nat, n: nat, width: nat) returns (ok: bool)
      modifies buffer
      ensures Edit(Now(), ok) == WriteNumber(old(Now()), at, n, width)
    {
      if n >= Pow256(width) {
        return false;
      }
      ok := Write(at, ToLE(n, width));
    }

    /** A new buffer with n zero bytes put in, to which later writes go. */
    method Grow(at: nat, n: nat)
      modifies this`buffer
      ensures fresh(buffer) && Now() == old(Now()).(buffer := Insert(old(buffer[..]), at, n))
    {
      var was := buffer[..];
      var at' := if at <= |was| then at else |was|;
      buffer := new byte[|was| + n](i requires 0 <= i < |was| + n =>
        if i < at' then was[i] else if i < at' + n then 0 else was[i - n]);
      assert buffer[..] == Insert(was, at, n);
    }

    /** `set AppPayload`: behind what is there. */
    method AppendPayload(v: bytes)
      modifies this`buffer
      ensures fresh(buffer) && Now() == old(Now()).(buffer := old(buffer[..]) + v)
    {
      var was := buffer[..];
      buffer := new byte[|was| + |v|](i requires 0 <= i < |was| + |v| => if i < |was| then was[i] else v[i - |was|]);
      assert buffer[..] == was + v;
    }

    /** `set ExchangeId`, `set ProtocolId`, `set ProtocolOpcode` and `set ExchangeFlags` */
    method SetExchangeField(at: nat, n: nat, width: nat) returns (ok: bool)
      requires Valid()
      modifies buffer
      ensures Valid() && Edit(Now(), ok) == SetExchangeNumber(old(Now()), at, n, width)
    {
      ok := WriteWide(PayloadOffset(buffer[..]) + at, n, width);
    }

    method SetFlag(weight: nat, on: bool) returns (ok: bool)
      requires Valid() && (weight == 1 || weight == 2 || weight == 4)
      modifies buffer
      ensures Valid() && Edit(Now(), ok) == SetExchangeFlag(old(Now()), weight, on)
    {
      var at := PayloadOffset(buffer[..]);
      if at >= buffer.Length {
        return false;
      }
      ok := Write(at, [SetBit(buffer[at], weight, on)]);
    }

    method SetAck(v: nat) returns (ok: bool)
      requires Valid()
      modifies this`buffer, buffer
      ensures old(buffer) == buffer || fresh(buffer)
      ensures Valid() && Edit(Now(), ok) == SetAckCounter(old(Now()), v)
    {
      hide Insert;
      var at := PayloadOffset(buffer[..]);
      if at >= buffer.Length {
        return false;
      }
      if !Bit(buffer[at], 2) {
        return true;
      }
      Grow(at + EXCHANGE_SIZE, ACK_SIZE);
      ok := WriteWide(at + EXCHANGE_SIZE, v, ACK_SIZE);
    }

    method SetSource(v: NodeId) returns (ok: bool)
      requires Valid()
      modifies this, buffer
      ensures old(buffer) == buffer || fresh(buffer)
      ensures Valid() && Edit(Now(), ok) == SetSourceNodeId(old(Now()), v)
    {
      hide Insert;
      if !Sflag(buffer[0]) {
        return true;
      }
      if !hasSource {
        Grow(HEADER_SIZE, NODE_ID_SIZE);
        hasSource := true;
      }
      ok := Write(HEADER_SIZE, ToLE(v, 8));
    }

    method SetDestination(v: NodeId) returns (ok: bool)
      requires Valid()
      modifies this, buffer
      ensures old(buffer) == buffer || fresh(buffer)
      ensures Valid() && Edit(Now(), ok) == SetDestinationNodeId(old(Now()), v)
    {
      hide Insert;
      var at, size := HEADER_SIZE + (if Sflag(buffer[0]) then 8 else 0), Dsiz(buffer[0]);
      if size == 0 {
        return true;
      }
      if size == 3 {
        return hasDestination;
      }
      var width := if size == 1 then NODE_ID_SIZE else GROUP_ID_SIZE;
      if !hasDestination {
        Grow(at, width);
        hasDestination := true;
      }
      ok := WriteWide(at, v, width);
    }
  }

  /** What every sender does first: a new message, its protocol and opcode, its payload. */
  method NewMessage(protocolId: nat, opcode: byte, payload: bytes) returns (msg: Message, ok: bool)
    ensures fresh(msg) && fresh(msg.buffer) && msg.Valid()
    ensures Edit(msg.Now(), ok) == Composed(protocolId, opcode, payload)
  {
    msg := new Message();
    ok := msg.SetExchangeField(4, protocolId, 2);
    if ok {
      ok := msg.SetExchangeField(1, opcode, 1);
    }
    if ok {
      msg.AppendPayload(payload);
    }
  }

  class Session {
    var peerSessionId: nat
    var peerNodeId: Option<NodeId>
    var messageCounter: nat
    var keys: Keys

    /** `(RandomU32() & 0x0FFFFFFF) + 1` */
    constructor (peerSessionId: nat, keys: Keys, random: nat)
      ensures Now() == Line(peerSessionId, messageCounter, None, keys)
      ensures 1 <= messageCounter <= 0x1000_0000
    {
      this.peerSessionId := peerSessionId;
      this.keys := keys;
      peerNodeId := None;
      messageCounter := random % 0x1000_0000 + 1;
    }

    function Now(): Line
      reads this
    {
      Line(peerSessionId, messageCounter, peerNodeId, keys)
    }

    method SendMessage(c: Aead, msg: Message, random: NodeId) returns (wire: Result<bytes>)
      requires msg.Valid()
      modifies this, msg, msg.buffer
      ensures msg.buffer == old(msg.buffer) || fresh(msg.buffer)
      ensures Sent(wire, Now(), msg.Now()) == SendOn(c, old(msg.Now()), old(Now()), random)
    {
      hide Put;
      hide Dispatch;
      hide ToLE;
      hide Pow256;
      var ok := msg.Write(0, [0]);
      ok := msg.Write(3, [0]);
      if peerSessionId >= Pow256(2) {
        return Err(Thrown);
      }
      ok := msg.Write(1, ToLE(peerSessionId, 2));
      var counter := messageCounter;
      messageCounter := messageCounter + 1;
      if counter >= Pow256(4) {
        return Err(Thrown);
      }
      ok := msg.Write(4, ToLE(counter, 4));
      wire := DispatchMessage(c, msg, random);
    }

    /** The second half of `sendMessage`, once the message header is written. */
    method DispatchMessage(c: Aead, msg: Message, random: NodeId) returns (wire: Result<bytes>)
      requires msg.Valid()
      modifies this`peerNodeId, msg, msg.buffer
      ensures msg.buffer == old(msg.buffer) || fresh(msg.buffer)
      ensures Sent(wire, Now(), msg.Now()) == Dispatch(c, old(msg.Now()), old(Now()), random)
    {
      hide Put;
      hide Encrypt;
      hide SetSourceNodeId;
      hide SetDestinationNodeId;
      var initiator := Bit(msg.buffer[HEADER_SIZE], 1);
      if peerSessionId != 0 {
        if keys.NoKeys? {
          return Err(Thrown);
        }
        return Ok(Encrypt(c, msg.buffer[..], if initiator then keys.i2r else keys.r2i));
      }
      var ok;
      if initiator {
        if NoPeer(peerNodeId) {
          peerNodeId := Some(random);
        }
        ok := msg.Write(0, [SetSflag(SetDsiz(0, 0), true)]);
        ok := msg.SetSource(peerNodeId.value);
      } else if NoPeer(peerNodeId) {
        return Err(Thrown);
      } else {
        ok := msg.Write(0, [SetDsiz(SetSflag(0, false), 1)]);
        ok := msg.SetDestination(peerNodeId.value);
      }
      return if ok then Ok(msg.buffer[..]) else Err(Thrown);
    }
  }

  class Exchange {
    var session: Session
    var exchangeId: nat
    var isInitiator: bool
    var isReliable: bool
    var isAck: bool
    var ackCounter: nat

    constructor (exchangeId: nat, session: Session, isInitiator: bool)
      ensures Now() == Header(exchangeId, isInitiator, false, None) && this.session == session
    {
      this.session, this.exchangeId, this.isInitiator := session, exchangeId, isInitiator;
      isReliable, isAck, ackCounter := false, false, 0;
    }

    function Now(): Header
      reads this
    {
      Header(exchangeId, isInitiator, isReliable, if isAck then Some(ackCounter) else None)
    }

    /** `sendMessage`: exchange header first, then the session's. */
    method SendMessage(c: Aead, msg: Message, random: NodeId) returns (wire: Result<bytes>)
      requires msg.Valid()
      modifies session, msg, msg.buffer
      ensures msg.buffer == old(msg.buffer) || fresh(msg.buffer)
      ensures Sent(wire, session.Now(), msg.Now()) == SendIn(c, old(msg.Now()), Now(), old(session.Now()), random)
    {
      hide FillHeader;
      hide SendOn;
      var ok := FillIn(msg);
      if !ok {
        return Err(Thrown);
      }
      wire := session.SendMessage(c, msg, random);
    }

    method FillIn(msg: Message) returns (ok: bool)
      requires msg.Valid()
      modifies msg, msg.buffer
      ensures msg.buffer == old(msg.buffer) || fresh(msg.buffer)
      ensures msg.Valid() && Edit(msg.Now(), ok) == FillHeader(old(msg.Now()), Now())
    {
      hide FillFlags;
      hide SetExchangeNumber;
      ok := msg.SetExchangeField(2, exchangeId, 2);
      if !ok { return; }
      ok := msg.SetExchangeField(0, 0, 1);
      if !ok { return; }
      ok := FillInFlags(msg);
    }

    method FillInFlags(msg: Message) returns (ok: bool)
      requires msg.Valid()
      modifies msg, msg.buffer
      ensures msg.buffer == old(msg.buffer) || fresh(msg.buffer)
      ensures msg.Valid() && Edit(msg.Now(), ok) == FillFlags(old(msg.Now()), Now())
    {
      hide SetExchangeFlag;
      hide SetAckCounter;
      ok := msg.SetFlag(1, isInitiator);
      if !ok { return; }
      ok := msg.SetFlag(4, isReliable);
      if !ok || !isAck { return; }
      ok := msg.SetFlag(2, true);
      if !ok { return; }
      ok := msg.SetAck(ackCounter);
    }
  }
}
