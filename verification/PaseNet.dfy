/** A PASE client and a PASE server on two nodes, over wire bytes, with other traffic at both. */
module PaseNet {
  import opened Bytes
  import opened Frame
  import Drafts
  import MsgCodec
  import Routing
  import opened Pase
  import opened PaseRun
  import opened PaseWire
  import PaseMessages
  import PaseAgreement

  /** Where the two nodes are, and the id of the exchange that the client has started. */
  datatype Net = Net(client: Routing.PeerInfo, server: Routing.PeerInfo, exchangeId: nat)

  /** Both nodes and everything that the two parties ever put on the wire. */
  datatype Wired = Wired(client: End, server: End, toServer: seq<bytes>, toClient: seq<bytes>)

  /** A party moves by itself, bytes of the other end arrive, or a message from elsewhere does.  `draw` is the node id
      that a session draws if it needs one. */
  datatype WireAct =
    | Inner(client: bool, event: Event, draw: Drafts.NodeId)
    | Arrives(client: bool, wire: bytes, random: PaseMessages.Random, id: PaseMessages.SessionId, draw: Drafts.NodeId)
    | Elsewhere(client: bool, message: Routing.Received)

  function Parties(w: Wired): System {
    System(w.client.party, w.server.party)
  }

  function WireNext(c: MsgCodec.Aead, cr: Crypto, net: Net, w: Wired, a: WireAct): Wired {
    var e := if a.client then w.client else w.server;
    var (end, out) :=
      match a
      case Inner(_, event, draw) => Move(c, cr, e, event, draw)
      case Arrives(client, b, random, id, draw) =>
        Receive(c, cr, e, b, if client then net.server else net.client, random, id, draw)
      case Elsewhere(_, m) => (e.(tables := Routing.OnMessage(e.tables, m).0), []);
    if a.client then w.(client := end, toServer := w.toServer + out)
    else w.(server := end, toClient := w.toClient + out)
  }

  function WireAfter(c: MsgCodec.Aead, cr: Crypto, net: Net, w: Wired, acts: seq<WireAct>): Wired {
    if acts == [] then w else WireNext(c, cr, net, WireAfter(c, cr, net, w, acts[..|acts| - 1]), acts[|acts| - 1])
  }

  /** The node id of the client's session, once drawn. */
  function ClientNode(w: Wired): Option<nat> {
    if w.client.place.Some? && Placed(w.client.tables, w.client.place.value) then
      SessionAt(w.client.tables, w.client.place.value).node
    else None
  }

  /** The client has started its exchange: a new session without a node id, and an exchange that is made reliable for
      PASE, behind what is in its tables from before. */
  function Begin(net: Net, client: Routing.Tables, server: Routing.Tables, clientCounter: nat,
                 serverCounter: nat): Wired {
    var sessions := client.sessions + [Routing.Session(net.server, None, 0)];
    var exchange := Routing.Exchange(net.exchangeId, |client.sessions|, true, true, false, 0);
    Wired(End(FRESH, Routing.Tables(sessions, client.exchanges + [exchange]), Some(|client.exchanges|), clientCounter),
          End(FRESH, server, None, serverCounter), [], [])
  }

  // ----- honest runs

  /** No other session with the server goes by the node id. */
  predicate NewNode(net: Net, t: Routing.Tables, draw: nat) {
    forall s :: 0 <= s < |t.sessions| && t.sessions[s].peer == net.server ==> t.sessions[s].node != Some(draw)
  }

  predicate MayDraw(net: Net, w: Wired, draw: nat) {
    draw != 0 && (ClientNode(w).None? ==> NewNode(net, w.client.tables, draw))
  }

  /** It is not of this exchange: nobody else sends under the client's address, node and exchange id to the server, or
      under the server's address to the client's node and exchange; or under that address at all before there is a node
      id. */
  predicate Foreign(net: Net, node: Option<nat>, client: bool, m: Routing.Received) {
    if client then
      m.peer == net.server ==>
        node.Some? && (m.initiator || m.destination != node.value || m.exchangeId != net.exchangeId)
    else node.Some? && m.initiator ==> Routing.KeyOf(m) != Routing.Key(net.client, node.value, net.exchangeId)
  }

  /** Only the client starts, and of the other end only bytes arrive that it has put on the wire: at any later time, any
      number of times or never.  An end goes on as long as its message counter is one. */
  predicate WirePossible(net: Net, w: Wired, a: WireAct) {
    match a
    case Inner(client, event, draw) =>
      !event.Receives? && (event.Starts? ==> client) && MayDraw(net, w, draw) && Counts(w, client)
    case Arrives(client, b, _, _, draw) =>
      b in (if client then w.toClient else w.toServer) && MayDraw(net, w, draw) && Counts(w, client)
    case Elsewhere(client, m) => Foreign(net, ClientNode(w), client, m)
  }

  predicate Counts(w: Wired, client: bool) {
    (if client then w.client else w.server).counter < Pow256(4)
  }

  ghost predicate WireHonest(c: MsgCodec.Aead, cr: Crypto, net: Net, w: Wired, acts: seq<WireAct>) {
    forall i :: 0 <= i < |acts| ==> WirePossible(net, WireAfter(c, cr, net, w, acts[..i]), acts[i])
  }

  // ----- the client's tables

  /** One exchange is its own; every session but, until it has sent, that one's has a node id; and what comes back finds
      that one's. */
  predicate ClientTables(net: Net, t: Routing.Tables, place: nat) {
    && Placed(t, place)
    && (forall x :: 0 <= x < |t.exchanges| ==> t.exchanges[x].session < |t.sessions|)
    && (forall x :: 0 <= x < |t.exchanges| ==> (t.exchanges[x].isInitiator <==> x == place))
    && var s := t.exchanges[place].session;
       && t.sessions[s].peer == net.server
       && (t.sessions[s].node.Some? ==> Routing.FirstSession(t.sessions, net.server, t.sessions[s].node.value) == s)
       && forall k :: 0 <= k < |t.sessions| && k != s ==> t.sessions[k].node.Some?
  }

  predicate ClientHolds(net: Net, e: End, node: Option<nat>) {
    CanSend(e, net.exchangeId, true, node) && ClientTables(net, e.tables, e.place.value)
  }

  lemma ClientTouched(net: Net, t: Routing.Tables, place: nat, after: Option<nat>, acks: bool)
    requires ClientTables(net, t, place)
    requires after == SessionAt(t, place).node
             || (SessionAt(t, place).node.None? && after.Some? && NewNode(net, t, after.value))
    ensures ClientTables(net, Touched(t, place, after, acks), place)
  {
    var u, s := Touched(t, place, after, acks), t.exchanges[place].session;
    if after.Some? {
      var i := Routing.FirstSession(u.sessions, net.server, after.value);
      assert Routing.SessionMatches(u.sessions[s], net.server, after.value);
      if i < s {
        assert Routing.SessionMatches(t.sessions[i], net.server, after.value);
      }
    }
  }

  /** Messages from elsewhere leave the client's exchange and its session alone. */
  lemma ClientForeign(net: Net, t: Routing.Tables, place: nat, m: Routing.Received)
    requires ClientTables(net, t, place) && t.exchanges[place].exchangeId == net.exchangeId
    requires Foreign(net, SessionAt(t, place).node, true, m)
    ensures var (u, route) := Routing.OnMessage(t, m);
            && ClientTables(net, u, place) && route != Routing.Known(place)
            && u.exchanges[place] == t.exchanges[place] && SessionAt(u, place).node == SessionAt(t, place).node
  {
  }

  /** What comes back from the server finds the client's exchange. */
  lemma ClientTakes(net: Net, e: End, b: bytes, node: Option<nat>)
    requires ClientHolds(net, e, node) && Labelled(b, net.exchangeId, false, node) && Unencrypted(b)
    ensures var (taken, heard) := Hear(e, b, net.server);
            heard && ClientHolds(net, taken, node) && taken == e.(tables := taken.tables)
  {
    hide ExchangeId;
    hide Unencrypted;
    hide ProtocolId;
    hide ProtocolOpcode;
    hide SourceNodeId;
    hide DestinationNodeId;
    hide Iflag;
    hide Rflag;
    hide Named;
    assert MessageCounter(b) < Pow256(4);
    hide MessageCounter;
    var m := Routing.Receive(b, net.server);
    var place := e.place.value;
    ClientRoutes(net, e.tables, place, m);
  }

  lemma ClientRoutes(net: Net, t: Routing.Tables, place: nat, m: Routing.Received)
    requires ClientTables(net, t, place) && t.exchanges[place].exchangeId == net.exchangeId == m.exchangeId
    requires m.peer == net.server && !m.initiator && SessionAt(t, place).node == Some(m.destination)
    ensures var (u, route) := Routing.OnMessage(t, m);
            && route == Routing.Known(place) && ClientTables(net, u, place)
            && u.exchanges[place] == t.exchanges[place].(ackCounter := m.counter)
            && SessionAt(u, place).node == SessionAt(t, place).node
  {
    var s := t.exchanges[place].session;
    assert Routing.OnSession(t.sessions, m).1 == s;
    assert Routing.ExchangeMatches(t.exchanges[place], s, m);
    var u := Routing.OnMessage(t, m).0;
    assert u.sessions == t.sessions[s := t.sessions[s].(counter := m.counter)];
    Routing.FirstStays(t.sessions, u.sessions, net.server, m.destination);
  }

  // ----- the server's tables

  type Keys = map<Routing.Key, nat>

  function OurKey(net: Net, node: nat): Routing.Key {
    Routing.Key(net.client, node, net.exchangeId)
  }

  /** The tables hold a map of keys; the party's exchange is that of the client's key; a party without one has done
      nothing. */
  predicate ServerHolds(net: Net, e: End, node: Option<nat>, known: Keys) {
    && Routing.Holds(e.tables, known)
    && (e.place.Some? ==>
          && node.Some? && CanSend(e, net.exchangeId, false, node)
          && OurKey(net, node.value) in known && known[OurKey(net, node.value)] == e.place.value)
    && (e.place.None? ==> e.party == FRESH)
  }

  lemma ServerTouched(net: Net, e: End, node: Option<nat>, known: Keys, acks: bool)
    requires ServerHolds(net, e, node, known) && e.place.Some?
    ensures Routing.Holds(Touched(e.tables, e.place.value, node, acks), known)
  {
    hide Routing.Holds;
    var t, place := e.tables, e.place.value;
    assert Touched(t, place, node, acks).sessions == t.sessions;
    Routing.Updated(t, known, place, t.exchanges[place].(isAck := acks));
  }

  /** Messages from elsewhere leave the server's exchange and its session alone. */
  lemma ServerForeign(net: Net, e: End, node: Option<nat>, known: Keys, m: Routing.Received)
    requires ServerHolds(net, e, node, known) && Foreign(net, node, false, m)
    ensures var (u, route) := Routing.OnMessage(e.tables, m);
            && ServerHolds(net, e.(tables := u), node, Routing.OnKey(known, m).0)
            && (e.place.Some? ==> route != Routing.Known(e.place.value))
  {
    hide Routing.FirstSession;
    hide Routing.FirstExchange;
    var (u, route) := Routing.OnMessage(e.tables, m);
    Routing.MessageHolds(e.tables, known, m);
    if e.place.Some? {
      ServerKeeps(e.tables, m, e.place.value);
    }
  }

  /** Where a message is not routed to, nothing changes. */
  lemma ServerKeeps(t: Routing.Tables, m: Routing.Received, place: nat)
    requires Placed(t, place)
    ensures var (u, route) := Routing.OnMessage(t, m);
            && Placed(u, place)
            && (route != Routing.Known(place) ==> u.exchanges[place] == t.exchanges[place])
            && (route == Routing.Known(place) ==>
                  u.exchanges[place] == t.exchanges[place].(ackCounter := m.counter))
            && (SessionAt(t, place).node.Some? ==> SessionAt(u, place).node == SessionAt(t, place).node)
  {
  }

  /** What comes from the client finds the exchange of its key, or opens it. */
  lemma ServerTakes(net: Net, e: End, b: bytes, node: Option<nat>, known: Keys)
    requires ServerHolds(net, e, node, known) && Labelled(b, net.exchangeId, true, node) && Unencrypted(b)
    requires node != Some(0) && net.exchangeId < Pow256(2)
    ensures var (taken, heard) := Hear(e, b, net.client);
            var m := Routing.Receive(b, net.client);
            && ServerHolds(net, taken, node, Routing.OnKey(known, m).0)
            && taken.party == e.party && taken.counter == e.counter
            && (heard ==> taken.place.Some?) && (e.place.Some? ==> heard && taken.place == e.place)
            && (heard <==> e.place.Some? || (OurKey(net, node.value) !in known && ProtocolId(b) == PROTOCOL_ID
                                             && Named(ProtocolOpcode(b)) == Some(ParamRequestOp)))
  {
    hide Routing.Holds;
    hide Routing.OnMessage;
    hide ExchangeId;
    hide ProtocolId;
    hide ProtocolOpcode;
    hide DestinationNodeId;
    hide Iflag;
    hide Rflag;
    hide Named;
    assert MessageCounter(b) < Pow256(4) && SourceNodeId(b) < 0x1_0000_0000_0000_0000 by { IdsAreNarrow(b); }
    hide MessageCounter;
    hide SourceNodeId;
    var m := Routing.Receive(b, net.client);
    assert Routing.KeyOf(m) == OurKey(net, node.value);
    var (u, route) := Routing.OnMessage(e.tables, m);
    Routing.MessageHolds(e.tables, known, m);
    KeyedExchange(u, Routing.OnKey(known, m).0, Routing.KeyOf(m));
    if e.place.Some? {
      ServerKeeps(e.tables, m, e.place.value);
    } else if route.Unsolicited? {
      var x := route.exchange;
      OpenedBy(e.tables, m);
      Routing.Updated(u, Routing.OnKey(known, m).0, x, u.exchanges[x].(isReliable := true));
    }
  }

  lemma IdsAreNarrow(b: bytes)
    requires Whole(b)
    ensures MessageCounter(b) < Pow256(4) && SourceNodeId(b) < 0x1_0000_0000_0000_0000
  {
    Pow256Values();
  }

  /** The exchange that a key is mapped to is of that key. */
  lemma KeyedExchange(t: Routing.Tables, known: Keys, key: Routing.Key)
    requires Routing.Holds(t, known) && key in known
    ensures Placed(t, known[key])
    ensures var x := t.exchanges[known[key]];
            !x.isInitiator && x.exchangeId == key.exchangeId && SessionAt(t, known[key]).node == Some(key.source)
  {
    assert Routing.WellPlaced(t.sessions, t.exchanges[known[key]]);
  }

  /** A message that opens an exchange leaves its counter with it. */
  lemma OpenedBy(t: Routing.Tables, m: Routing.Received)
    requires Routing.OnMessage(t, m).1.Unsolicited?
    ensures var (u, route) := Routing.OnMessage(t, m);
            route.exchange < |u.exchanges| && u.exchanges[route.exchange].ackCounter == m.counter
  {
  }

  // ----- one step of a run

  /** Both nodes' tables are in order, and what the parties sent is on the wire. */
  predicate Linked(net: Net, w: Wired, known: Keys) {
    var node := ClientNode(w);
    && net.exchangeId < Pow256(2) && ClientHolds(net, w.client, node) && ServerHolds(net, w.server, node, known)
    && OnWire(w.toServer, w.client.party.history.sent, net.exchangeId, true, node)
    && OnWire(w.toClient, w.server.party.history.sent, net.exchangeId, false, node)
  }

  lemma NoneOnWire(id: nat, initiator: bool, node: Option<nat>)
    ensures OnWire([], [], id, initiator, node)
  {
  }

  /** The client moves. */
  lemma ClientMoves(c: MsgCodec.Aead, cr: Crypto, net: Net, w: Wired, e: End, event: Event, draw: Drafts.NodeId,
                    known: Keys)
    requires Linked(net, w.(client := e), known) && MayDraw(net, w.(client := e), draw) && e.counter < Pow256(4)
    ensures var (end, out) := Move(c, cr, e, event, draw);
            && Linked(net, w.(client := end, toServer := w.toServer + out), known)
            && end.party == Step(cr, e.party, event) && end.counter <= e.counter + 1
            && (ClientNode(w.(client := end)).None? ==> end.tables.sessions == e.tables.sessions)
            && (ClientNode(w.(client := end)) == ClientNode(w.(client := e))
                || (ClientNode(w.(client := e)).None? && ClientNode(w.(client := end)) == Some(draw)))
  {
    hide Move;
    hide Step;
    hide OnWire;
    hide ClientTables;
    hide Routing.Holds;
    hide NewNode;
    var node, place := ClientNode(w.(client := e)), e.place.value;
    ClientIsPlaced(net, e.tables, place);
    var after, acks := MoveKeeps(c, cr, e, event, draw, w.toServer, net.exchangeId, true, node);
    ClientTouched(net, e.tables, place, after, acks);
    if node.None? && w.server.place.None? {
      assert after != node ==> OnWire(w.toClient, [], net.exchangeId, false, after) by {
        NothingOnWire(w.toClient, w.server.party.history.sent, net.exchangeId, false);
        NoneOnWire(net.exchangeId, false, after);
      }
    }
  }

  lemma ClientIsPlaced(net: Net, t: Routing.Tables, place: nat)
    requires ClientTables(net, t, place)
    ensures Placed(t, place)
  {
  }

  /** The server moves. */
  lemma ServerMoves(c: MsgCodec.Aead, cr: Crypto, net: Net, w: Wired, e: End, event: Event, draw: Drafts.NodeId,
                    known: Keys)
    requires Linked(net, w.(server := e), known) && draw != 0 && e.counter < Pow256(4) && e.place.Some?
    ensures var (end, out) := Move(c, cr, e, event, draw);
            && Linked(net, w.(server := end, toClient := w.toClient + out), known)
            && end.party == Step(cr, e.party, event) && end.counter <= e.counter + 1 && end.place == e.place
  {
    hide Move;
    hide Step;
    hide OnWire;
    hide ClientTables;
    hide Routing.Holds;
    var node := ClientNode(w);
    var after, acks := MoveKeeps(c, cr, e, event, draw, w.toClient, net.exchangeId, false, node);
    ServerTouched(net, e, node, known, acks);
  }

  /** Once a party listens, it hears everything that the other end has put on the wire, whatever else is in the
      tables. */
  lemma ListenersHear(net: Net, w: Wired, known: Keys, client: bool, b: bytes)
    requires Linked(net, w, known) && b in if client then w.toClient else w.toServer
    ensures var e := if client then w.client else w.server;
            Whole(b) && (e.place.Some? ==> Hear(e, b, if client then net.server else net.client).1)
  {
    hide Hear;
    hide ClientTables;
    hide Routing.Holds;
    hide OnWire;
    var node := ClientNode(w);
    if client {
      var m := WireSays(w.toClient, w.server.party.history.sent, net.exchangeId, false, node, b);
      ClientTakes(net, w.client, b, node);
    } else {
      var m := WireSays(w.toServer, w.client.party.history.sent, net.exchangeId, true, node, b);
      ServerTakes(net, w.server, b, node, known);
    }
  }

  /** Nor does it hear anything from elsewhere. */
  lemma NothingFromElsewhere(net: Net, w: Wired, known: Keys, client: bool, m: Routing.Received)
    requires Linked(net, w, known) && Foreign(net, ClientNode(w), client, m)
    ensures var e := if client then w.client else w.server;
            e.place.Some? ==> Routing.OnMessage(e.tables, m).1 != Routing.Known(e.place.value)
  {
    hide Routing.OnMessage;
    hide Routing.Holds;
    hide OnWire;
    if client {
      ClientForeign(net, w.client.tables, w.client.place.value, m);
    } else {
      ServerForeign(net, w.server, ClientNode(w), known, m);
    }
  }

  lemma ClientReceives(c: MsgCodec.Aead, cr: Crypto, net: Net, w: Wired, b: bytes, m: Message,
                       random: PaseMessages.Random, id: PaseMessages.SessionId, draw: Drafts.NodeId, known: Keys)
    requires Linked(net, w, known) && MayDraw(net, w, draw) && w.client.counter < Pow256(4)
    requires Framed(b, m) && Labelled(b, net.exchangeId, false, ClientNode(w))
    ensures var (end, out) := Receive(c, cr, w.client, b, net.server, random, id, draw);
            && Linked(net, w.(client := end, toServer := w.toServer + out), known)
            && end.party == Step(cr, w.client.party, Receives(m, random, id)) && end.counter <= w.client.counter + 1
            && ClientNode(w.(client := end)) == ClientNode(w)
  {
    hide Hear;
    hide Move;
    hide Step;
    hide OnWire;
    hide ClientTables;
    hide Routing.Holds;
    hide NewNode;
    var node := ClientNode(w);
    ClientTakes(net, w.client, b, node);
    var taken := Hear(w.client, b, net.server).0;
    ClientIsPlaced(net, taken.tables, taken.place.value);
    assert ClientNode(w.(client := taken)) == node;
    assert Linked(net, w.(client := taken), known);
    ClientMoves(c, cr, net, w, taken, Receives(m, random, id), draw, known);
  }

  lemma ServerReceives(c: MsgCodec.Aead, cr: Crypto, net: Net, w: Wired, b: bytes, m: Message,
                       random: PaseMessages.Random, id: PaseMessages.SessionId, draw: Drafts.NodeId, known: Keys)
    returns (heard: bool, known': Keys)
    requires Linked(net, w, known) && draw != 0 && w.server.counter < Pow256(4)
    requires Framed(b, m) && Labelled(b, net.exchangeId, true, ClientNode(w))
    ensures var (end, out) := Receive(c, cr, w.server, b, net.client, random, id, draw);
            && Linked(net, w.(server := end, toClient := w.toClient + out), known')
            && end.party == (if heard then Step(cr, w.server.party, Receives(m, random, id)) else w.server.party)
            && end.counter <= w.server.counter + 1 && (heard ==> end.place.Some?)
    ensures heard <==> w.server.place.Some?
                       || (OurKey(net, ClientNode(w).value) !in known && m.opcode == ParamRequestOp)
  {
    hide Hear;
    hide Move;
    hide Step;
    hide OnWire;
    hide ClientTables;
    hide Routing.Holds;
    hide Routing.OnKey;
    var node := ClientNode(w);
    ServerTakes(net, w.server, b, node, known);
    var (taken, h) := Hear(w.server, b, net.client);
    heard, known' := h, Routing.OnKey(known, Routing.Receive(b, net.client)).0;
    assert Linked(net, w.(server := taken), known');
    if heard {
      ServerMoves(c, cr, net, w, taken, Receives(m, random, id), draw, known');
    } else {
      assert w.toClient + [] == w.toClient;
    }
  }

  /** One step on the wire is a step of the two parties, or none at all. */
  lemma WireStep(c: MsgCodec.Aead, cr: Crypto, net: Net, w: Wired, a: WireAct, known: Keys)
    returns (acts: seq<Act>, known': Keys)
    requires Linked(net, w, known) && WirePossible(net, w, a)
    ensures Linked(net, WireNext(c, cr, net, w, a), known')
    ensures |acts| <= 1 && (acts == [] ==> Parties(WireNext(c, cr, net, w, a)) == Parties(w))
    ensures acts != [] ==>
              Possible(Parties(w), acts[0]) && Parties(WireNext(c, cr, net, w, a)) == Next(cr, Parties(w), acts[0])
  {
    hide Step;
    hide Move;
    hide Receive;
    hide OnWire;
    hide ClientTables;
    hide Routing.Holds;
    hide Routing.OnMessage;
    hide Routing.OnKey;
    hide NewNode;
    hide Framed;
    hide Labelled;
    acts, known' := [], known;
    var node := ClientNode(w);
    match a
    case Inner(client, event, draw) =>
      if client {
        ClientMoves(c, cr, net, w, w.client, event, draw, known);
        acts := [AtClient(event)];
      } else if w.server.place.Some? {
        ServerMoves(c, cr, net, w, w.server, event, draw, known);
        acts := [AtServer(event)];
      } else {
        FreshWaits(c, cr, w.server, event, draw);
        assert w.toClient + [] == w.toClient;
      }
    case Arrives(client, b, random, id, draw) =>
      if client {
        var m := WireSays(w.toClient, w.server.party.history.sent, net.exchangeId, false, node, b);
        ClientReceives(c, cr, net, w, b, m, random, id, draw, known);
        acts := [AtClient(Receives(m, random, id))];
      } else {
        var m := WireSays(w.toServer, w.client.party.history.sent, net.exchangeId, true, node, b);
        var heard;
        heard, known' := ServerReceives(c, cr, net, w, b, m, random, id, draw, known);
        acts := if heard then [AtServer(Receives(m, random, id))] else [];
      }
    case Elsewhere(client, m) =>
      known' := ElsewhereKeeps(c, cr, net, w, client, m, known);
  }

  lemma ElsewhereKeeps(c: MsgCodec.Aead, cr: Crypto, net: Net, w: Wired, client: bool, m: Routing.Received, known: Keys)
    returns (known': Keys)
    requires Linked(net, w, known) && Foreign(net, ClientNode(w), client, m)
    ensures Linked(net, WireNext(c, cr, net, w, Elsewhere(client, m)), known')
    ensures Parties(WireNext(c, cr, net, w, Elsewhere(client, m))) == Parties(w)
  {
    hide OnWire;
    hide ClientTables;
    hide Routing.Holds;
    hide Routing.OnMessage;
    hide Routing.OnKey;
    known' := known;
    if client {
      ClientForeign(net, w.client.tables, w.client.place.value, m);
      ClientIsPlaced(net, Routing.OnMessage(w.client.tables, m).0, w.client.place.value);
      assert w.toServer + [] == w.toServer;
    } else {
      ServerForeign(net, w.server, ClientNode(w), known, m);
      known' := Routing.OnKey(known, m).0;
      assert w.toClient + [] == w.toClient;
    }
  }

  // ----- whole runs

  /** Where a run begins: tables that other traffic has left. */
  predicate Clean(net: Net, client: Routing.Tables, server: Routing.Tables, known: Keys) {
    && net.exchangeId < Pow256(2) && Routing.Holds(server, known)
    && (forall k :: 0 <= k < |client.sessions| ==> client.sessions[k].node.Some?)
    && (forall x :: 0 <= x < |client.exchanges| ==>
          !client.exchanges[x].isInitiator && client.exchanges[x].session < |client.sessions|)
  }

  lemma BeginIsLinked(net: Net, client: Routing.Tables, server: Routing.Tables, clientCounter: nat, serverCounter: nat,
                      known: Keys)
    requires Clean(net, client, server, known)
    ensures Linked(net, Begin(net, client, server, clientCounter, serverCounter), known)
  {
    hide Routing.Holds;
    Pow256Values();
  }

  /** A run on the wire is a run of two honest parties, and all that they sent is on the wire, message for message, in
      bytes that say what was meant. */
  lemma {:induction false} WireRun(c: MsgCodec.Aead, cr: Crypto, net: Net, w: Wired, known: Keys, acts: seq<WireAct>)
    returns (run: seq<Act>, known': Keys)
    requires Linked(net, w, known) && Parties(w) == START && WireHonest(c, cr, net, w, acts)
    ensures |run| <= |acts| && Honest(cr, run) && After(cr, run) == Parties(WireAfter(c, cr, net, w, acts))
    ensures Linked(net, WireAfter(c, cr, net, w, acts), known')
    decreases |acts|
  {
    hide Linked;
    hide WirePossible;
    hide Possible;
    hide WireNext;
    hide Next;
    run, known' := [], known;
    if acts != [] {
      var n := |acts| - 1;
      var before := acts[..n];
      assert WireHonest(c, cr, net, w, before) by {
        assert forall i :: 0 <= i < n ==> before[..i] == acts[..i] && before[i] == acts[i];
      }
      run, known' := WireRun(c, cr, net, w, known, before);
      var more;
      more, known' := WireStep(c, cr, net, WireAfter(c, cr, net, w, before), acts[n], known');
      if more != [] {
        RunOn(cr, run, more[0]);
        run := run + [more[0]];
      }
    }
  }

  lemma RunOn(cr: Crypto, run: seq<Act>, a: Act)
    requires Honest(cr, run) && Possible(After(cr, run), a)
    ensures Honest(cr, run + [a]) && After(cr, run + [a]) == Next(cr, After(cr, run), a)
  {
    hide Possible;
    hide Next;
    var more := run + [a];
    assert more[..|run|] == run;
    forall i | 0 <= i < |more|
      ensures Possible(After(cr, more[..i]), more[i])
    {
      if i < |run| {
        assert more[..i] == run[..i];
      }
    }
  }

  /** Agreement on the wire: two parties that see nothing but the bytes that their nodes route to them, among
      whatever else these receive, agree as two parties do that are handed each other's messages. */
  lemma WireAgreement(c: MsgCodec.Aead, cr: Crypto, net: Net, w: Wired, client: Routing.Tables, server: Routing.Tables,
                      known: Keys, clientCounter: nat, serverCounter: nat, acts: seq<WireAct>, s: Made)
    requires Clean(net, client, server, known) && w == Begin(net, client, server, clientCounter, serverCounter)
    requires WireHonest(c, cr, net, w, acts)
    requires PaseAgreement.Agrees(cr) && PaseAgreement.NoCollisions(cr, Parties(WireAfter(c, cr, net, w, acts)))
    requires s in WireAfter(c, cr, net, w, acts).server.party.history.sessions
    ensures var end := WireAfter(c, cr, net, w, acts);
            exists made :: made in end.client.party.history.sessions && PaseAgreement.Matches(cr, Parties(end), made, s)
  {
    hide PaseAgreement.NoCollisions;
    hide PaseAgreement.Matches;
    hide PaseAgreement.Agrees;
    hide Honest;
    hide WireHonest;
    hide WireAfter;
    hide After;
    hide Linked;
    hide Clean;
    BeginIsLinked(net, client, server, clientCounter, serverCounter, known);
    var run, _ := WireRun(c, cr, net, w, known, acts);
    PaseAgreement.Agreement(cr, run, s);
  }

  // ----- acknowledgements

  /** The party's exchange is reliable and acknowledges this counter. */
  predicate Acknowledging(e: End, counter: Option<nat>) {
    e.place.Some? ==>
      && e.place.value < |e.tables.exchanges| && counter.Some?
      && var x := e.tables.exchanges[e.place.value]; x.isReliable && x.isAck && x.ackCounter == counter.value
  }

  /** What both ends have put on the wire asks for acknowledgement; the server acknowledges from its first message
      on. */
  predicate Acks(w: Wired, last: Option<nat>) {
    && w.client.place.Some? && w.client.place.value < |w.client.tables.exchanges|
    && w.client.tables.exchanges[w.client.place.value].isReliable
    && (forall b :: b in w.toServer ==> Whole(b) && Rflag(b))
    && Acknowledging(w.server, last)
    && (forall b :: b in w.toClient ==> Whole(b) && Rflag(b) && Aflag(b))
  }

  /** The counter of the client's message that came to the server last. */
  function Arrived(last: Option<nat>, a: WireAct): Option<nat> {
    if a.Arrives? && !a.client && Whole(a.wire) then Some(MessageCounter(a.wire)) else last
  }

  function LastArrived(acts: seq<WireAct>): Option<nat> {
    if acts == [] then None else Arrived(LastArrived(acts[..|acts| - 1]), acts[|acts| - 1])
  }

  /** What the server puts on the wire in one step. */
  function Replies(c: MsgCodec.Aead, cr: Crypto, net: Net, w: Wired, a: WireAct): seq<bytes> {
    if a.client then []
    else
      match a
      case Inner(_, event, draw) => Move(c, cr, w.server, event, draw).1
      case Arrives(_, b, random, id, draw) => Receive(c, cr, w.server, b, net.client, random, id, draw).1
      case Elsewhere(_, _) => []
  }

  /** What comes from the client is what its exchange acknowledges next. */
  lemma ServerHears(net: Net, e: End, b: bytes, node: Option<nat>, known: Keys, last: Option<nat>)
    requires ServerHolds(net, e, node, known) && Labelled(b, net.exchangeId, true, node) && Unencrypted(b)
    requires node != Some(0) && net.exchangeId < Pow256(2) && Acknowledging(e, last) && Rflag(b)
    ensures Acknowledging(Hear(e, b, net.client).0, Some(MessageCounter(b)))
  {
    hide Routing.Holds;
    hide ExchangeId;
    hide ProtocolId;
    hide ProtocolOpcode;
    hide SourceNodeId;
    hide DestinationNodeId;
    hide Unencrypted;
    hide Iflag;
    hide Rflag;
    hide Named;
    hide MessageCounter;
    hide Pow256;
    var m := Routing.Receive(b, net.client);
    ServerTakes(net, e, b, node, known);
    Routing.ExchangeHears(e.tables, m);
    hide Routing.OnMessage;
  }

  /** A party's move acknowledges what its exchange does. */
  lemma ServerReplies(c: MsgCodec.Aead, cr: Crypto, net: Net, w: Wired, e: End, event: Event, draw: Drafts.NodeId,
                      known: Keys, last: Option<nat>)
    requires Linked(net, w.(server := e), known) && draw != 0 && e.counter < Pow256(4) && e.place.Some?
    requires Acknowledging(e, last)
    ensures var (end, out) := Move(c, cr, e, event, draw);
            Acknowledging(end, last)
            && forall o :: o in out ==> Whole(o) && Rflag(o) && Aflag(o) && Acknowledged(o) == last
  {
    hide Move;
    hide Step;
    hide OnWire;
    hide ClientTables;
    hide Routing.Holds;
    hide Rflag;
    hide Aflag;
    hide Acknowledged;
    hide Whole;
    hide MessageCounter;
    var after, acks := MoveKeeps(c, cr, e, event, draw, w.toClient, net.exchangeId, false, ClientNode(w));
    var out := Move(c, cr, e, event, draw).1;
    assert forall o :: o in out ==> o == out[0];
  }

  lemma ClientAsks(c: MsgCodec.Aead, cr: Crypto, net: Net, w: Wired, e: End, event: Event, draw: Drafts.NodeId,
                   known: Keys)
    requires Linked(net, w.(client := e), known) && MayDraw(net, w.(client := e), draw) && e.counter < Pow256(4)
    requires e.tables.exchanges[e.place.value].isReliable
    ensures var (end, out) := Move(c, cr, e, event, draw);
            && end.place == e.place && e.place.value < |end.tables.exchanges|
            && end.tables.exchanges[e.place.value].isReliable && forall o :: o in out ==> Whole(o) && Rflag(o)
  {
    hide Move;
    hide Step;
    hide OnWire;
    hide ClientTables;
    hide Routing.Holds;
    hide NewNode;
    hide Rflag;
    hide Aflag;
    hide Acknowledged;
    hide Whole;
    hide MessageCounter;
    var node := ClientNode(w.(client := e));
    ClientIsPlaced(net, e.tables, e.place.value);
    var after, acks := MoveKeeps(c, cr, e, event, draw, w.toServer, net.exchangeId, true, node);
    var out := Move(c, cr, e, event, draw).1;
    assert forall o :: o in out ==> o == out[0];
  }
  /** The client takes what arrives without a change to its reliability. */
  lemma ClientHears(net: Net, e: End, b: bytes, node: Option<nat>)
    requires ClientHolds(net, e, node) && Labelled(b, net.exchangeId, false, node) && Unencrypted(b)
    requires e.tables.exchanges[e.place.value].isReliable
    ensures var taken := Hear(e, b, net.server).0;
            taken.place == e.place && e.place.value < |taken.tables.exchanges|
            && taken.tables.exchanges[e.place.value].isReliable
  {
    hide ClientTables;
    hide Routing.OnMessage;
    ClientTakes(net, e, b, node);
    Routing.ExchangeHears(e.tables, Routing.Receive(b, net.server));
  }

  lemma ClientAcks(c: MsgCodec.Aead, cr: Crypto, net: Net, w: Wired, a: WireAct, known: Keys, last: Option<nat>)
    requires Linked(net, w, known) && WirePossible(net, w, a) && Acks(w, last) && a.client
    ensures Acks(WireNext(c, cr, net, w, a), last)
  {
    hide Step;
    hide Move;
    hide Hear;
    hide OnWire;
    hide ClientTables;
    hide Routing.Holds;
    hide Routing.OnMessage;
    hide NewNode;
    hide Framed;
    hide Labelled;
    hide Acknowledging;
    var node := ClientNode(w);
    match a
    case Inner(_, event, draw) => ClientAsks(c, cr, net, w, w.client, event, draw, known);
    case Arrives(_, b, random, id, draw) =>
      var m := WireSays(w.toClient, w.server.party.history.sent, net.exchangeId, false, node, b);
      IsFramed(b, m);
      ClientTakes(net, w.client, b, node);
      ClientHears(net, w.client, b, node);
      var taken := Hear(w.client, b, net.server).0;
      ClientIsPlaced(net, taken.tables, taken.place.value);
      ClientAsks(c, cr, net, w, taken, Receives(m, random, id), draw, known);
    case Elsewhere(_, m) =>
      ClientForeign(net, w.client.tables, w.client.place.value, m);
      ClientIsPlaced(net, Routing.OnMessage(w.client.tables, m).0, w.client.place.value);
  }

  lemma IsFramed(b: bytes, m: Message)
    requires Framed(b, m)
    ensures Whole(b) && Unencrypted(b) && Named(ProtocolOpcode(b)) == Some(m.opcode) && AppPayload(b) == m.payload
  {
  }

  lemma ServerAcks(c: MsgCodec.Aead, cr: Crypto, net: Net, w: Wired, a: WireAct, known: Keys, last: Option<nat>)
    requires Linked(net, w, known) && WirePossible(net, w, a) && Acks(w, last) && !a.client
    ensures Acks(WireNext(c, cr, net, w, a), Arrived(last, a))
    ensures forall o :: o in Replies(c, cr, net, w, a) ==> Whole(o) && Acknowledged(o) == Arrived(last, a)
  {
    hide Step;
    hide Move;
    hide Hear;
    hide OnWire;
    hide ClientTables;
    hide Routing.Holds;
    hide Routing.OnMessage;
    hide NewNode;
    hide Framed;
    hide Labelled;
    hide Rflag;
    hide Aflag;
    hide Acknowledged;
    hide Whole;
    hide MessageCounter;
    hide Acknowledging;
    var node := ClientNode(w);
    match a
    case Inner(_, event, draw) =>
      if w.server.place.Some? {
        ServerReplies(c, cr, net, w, w.server, event, draw, known, last);
      } else {
        FreshWaits(c, cr, w.server, event, draw);
      }
    case Arrives(_, b, random, id, draw) => ServerArrives(c, cr, net, w, b, random, id, draw, known, last);
    case Elsewhere(_, m) => ServerElsewhere(net, w, m, known, last);
  }

  lemma ServerElsewhere(net: Net, w: Wired, m: Routing.Received, known: Keys, last: Option<nat>)
    requires Linked(net, w, known) && Foreign(net, ClientNode(w), false, m) && Acknowledging(w.server, last)
    ensures Acknowledging(w.server.(tables := Routing.OnMessage(w.server.tables, m).0), last)
  {
    hide OnWire;
    hide ClientTables;
    hide Routing.Holds;
    hide Routing.OnMessage;
    ServerForeign(net, w.server, ClientNode(w), known, m);
    Routing.ExchangeHears(w.server.tables, m);
  }

  lemma ServerArrives(c: MsgCodec.Aead, cr: Crypto, net: Net, w: Wired, b: bytes, random: PaseMessages.Random,
                      id: PaseMessages.SessionId, draw: Drafts.NodeId, known: Keys, last: Option<nat>)
    requires Linked(net, w, known) && draw != 0 && w.server.counter < Pow256(4)
    requires Acknowledging(w.server, last) && b in w.toServer && Whole(b) && Rflag(b)
    ensures var (end, out) := Receive(c, cr, w.server, b, net.client, random, id, draw);
            Acknowledging(end, Some(MessageCounter(b)))
            && forall o :: o in out ==>
                 Whole(o) && Rflag(o) && Aflag(o) && Acknowledged(o) == Some(MessageCounter(b))
  {
    hide Step;
    hide Move;
    hide Hear;
    hide OnWire;
    hide ClientTables;
    hide Routing.Holds;
    hide Routing.OnKey;
    hide Framed;
    hide Labelled;
    hide Rflag;
    hide Aflag;
    hide Acknowledged;
    hide MessageCounter;
    var node := ClientNode(w);
    var m := WireSays(w.toServer, w.client.party.history.sent, net.exchangeId, true, node, b);
    IsFramed(b, m);
    ServerTakes(net, w.server, b, node, known);
    ServerHears(net, w.server, b, node, known, last);
    var (taken, heard) := Hear(w.server, b, net.client);
    var known' := Routing.OnKey(known, Routing.Receive(b, net.client)).0;
    if heard {
      ServerReplies(c, cr, net, w, taken, Receives(m, random, id), draw, known', Some(MessageCounter(b)));
    }
  }

  lemma {:induction false} RunAcks(c: MsgCodec.Aead, cr: Crypto, net: Net, w: Wired, known: Keys, acts: seq<WireAct>)
    requires Linked(net, w, known) && Parties(w) == START && Acks(w, None) && WireHonest(c, cr, net, w, acts)
    ensures Acks(WireAfter(c, cr, net, w, acts), LastArrived(acts))
    decreases |acts|
  {
    hide Linked;
    hide WirePossible;
    hide WireNext;
    hide Acks;
    hide Arrived;
    if acts != [] {
      var n := |acts| - 1;
      var before := acts[..n];
      assert WireHonest(c, cr, net, w, before) by {
        assert forall i :: 0 <= i < n ==> before[..i] == acts[..i] && before[i] == acts[i];
      }
      RunAcks(c, cr, net, w, known, before);
      var _, now := WireRun(c, cr, net, w, known, before);
      if acts[n].client {
        ClientAcks(c, cr, net, WireAfter(c, cr, net, w, before), acts[n], now, LastArrived(before));
        NotArrived(LastArrived(before), acts[n]);
      } else {
        ServerAcks(c, cr, net, WireAfter(c, cr, net, w, before), acts[n], now, LastArrived(before));
      }
    }
  }

  lemma NotArrived(last: Option<nat>, a: WireAct)
    requires a.client
    ensures Arrived(last, a) == last
  {
  }

  /** Over every run on the wire, every message of the server asks for an acknowledgement, as the client's do, and
      acknowledges the client's message that came last. */
  lemma RepliesAcknowledge(c: MsgCodec.Aead, cr: Crypto, net: Net, w: Wired, client: Routing.Tables,
                           server: Routing.Tables, known: Keys, clientCounter: nat, serverCounter: nat,
                           acts: seq<WireAct>, a: WireAct)
    requires Clean(net, client, server, known) && w == Begin(net, client, server, clientCounter, serverCounter)
    requires WireHonest(c, cr, net, w, acts) && WirePossible(net, WireAfter(c, cr, net, w, acts), a)
    ensures var end := WireAfter(c, cr, net, w, acts);
            && (forall b :: b in end.toServer ==> Whole(b) && Rflag(b))
            && (forall b :: b in end.toClient ==> Whole(b) && Rflag(b) && Aflag(b))
            && forall o :: o in Replies(c, cr, net, end, a) ==> Whole(o) && Acknowledged(o) == LastArrived(acts + [a])
  {
    hide WireHonest;
    hide WireAfter;
    hide WirePossible;
    hide Linked;
    hide Replies;
    hide Rflag;
    hide Aflag;
    hide Acknowledged;
    hide Arrived;
    BeginIsLinked(net, client, server, clientCounter, serverCounter, known);
    BeginAcks(net, client, server, clientCounter, serverCounter);
    RunAcks(c, cr, net, w, known, acts);
    var _, now := WireRun(c, cr, net, w, known, acts);
    assert (acts + [a])[..|acts|] == acts;
    if !a.client {
      ServerAcks(c, cr, net, WireAfter(c, cr, net, w, acts), a, now, LastArrived(acts));
    } else {
      ClientRepliesNot(c, cr, net, WireAfter(c, cr, net, w, acts), a);
    }
  }

  lemma ClientRepliesNot(c: MsgCodec.Aead, cr: Crypto, net: Net, w: Wired, a: WireAct)
    requires a.client
    ensures Replies(c, cr, net, w, a) == []
  {
  }

  lemma BeginAcks(net: Net, client: Routing.Tables, server: Routing.Tables, clientCounter: nat, serverCounter: nat)
    ensures Acks(Begin(net, client, server, clientCounter, serverCounter), None)
  {
  }

  // ----- and back

  /** The client's session may still draw this node id, and the server has opened no exchange of its key but the
      party's. */
  predicate Unopened(net: Net, w: Wired, known: Keys, draw: Drafts.NodeId) {
    && MayDraw(net, w, draw)
    && (w.server.place.None? ==>
          OurKey(net, if ClientNode(w).Some? then ClientNode(w).value else draw) !in known)
  }

  predicate Counted(w: Wired, bound: nat) {
    w.client.counter <= bound && w.server.counter <= bound
  }

  /** A server that has not begun takes nothing that a client sends but a parameter request. */
  lemma FreshIgnores(cr: Crypto, m: Message, made: seq<Made>, random: PaseMessages.Random, id: PaseMessages.SessionId)
    requires ClientSends(cr, m, made) && m.opcode != ParamRequestOp
    ensures Step(cr, FRESH, Receives(m, random, id)) == FRESH
  {
    hide Confirmation;
  }

  lemma ClientMaySend(cr: Crypto, sys: System, m: Message)
    requires Fits(cr, sys) && m in sys.client.history.sent
    ensures ClientSends(cr, m, sys.client.history.sessions)
  {
    hide ClientSends;
    hide ServerFits;
    hide StoredFits;
    hide HandlersFit;
    hide SessionsFit;
    hide SecretsFit;
  }

  /** A step of the two parties can be made on the wire. */
  lemma LiftStep(c: MsgCodec.Aead, cr: Crypto, net: Net, w: Wired, a: Act, known: Keys, draw: Drafts.NodeId, bound: nat)
    returns (acts: seq<WireAct>, known': Keys)
    requires Linked(net, w, known) && Unopened(net, w, known, draw) && Counted(w, bound) && bound < Pow256(4)
    requires Fits(cr, Parties(w)) && Possible(Parties(w), a)
    ensures |acts| <= 1 && (acts == [] ==> Next(cr, Parties(w), a) == Parties(w) && known' == known)
    ensures acts != [] ==>
              var next := WireNext(c, cr, net, w, acts[0]);
              && WirePossible(net, w, acts[0]) && Parties(next) == Next(cr, Parties(w), a)
              && Linked(net, next, known') && Unopened(net, next, known', draw) && Counted(next, bound + 1)
  {
    hide Step;
    hide Move;
    hide Receive;
    hide OnWire;
    hide Framed;
    hide Labelled;
    hide Fits;
    hide ClientSends;
    hide ClientTables;
    hide Routing.Holds;
    hide OurKey;
    acts, known' := [], known;
    var event, id, node := a.event, net.exchangeId, ClientNode(w);
    if a.AtClient? {
      if event.Receives? {
        var b := WireOf(w.toClient, w.server.party.history.sent, id, false, node, event.message);
        ClientReceives(c, cr, net, w, b, event.message, event.random, event.id, draw, known);
        IsLabelled(b, id, false, node);
        acts := [Arrives(true, b, event.random, event.id, draw)];
      } else {
        ClientMoves(c, cr, net, w, w.client, event, draw, known);
        acts := [Inner(true, event, draw)];
      }
    } else if event.Receives? {
      var m := event.message;
      var b := WireOf(w.toServer, w.client.party.history.sent, id, true, node, m);
      IsLabelled(b, id, true, node);
      if w.server.place.Some? || m.opcode == ParamRequestOp {
        var heard;
        heard, known' := ServerReceives(c, cr, net, w, b, m, event.random, event.id, draw, known);
        acts := [Arrives(false, b, event.random, event.id, draw)];
      } else {
        ClientMaySend(cr, Parties(w), m);
        FreshIgnores(cr, m, w.client.party.history.sessions, event.random, event.id);
      }
    } else if w.server.place.Some? {
      ServerMoves(c, cr, net, w, w.server, event, draw, known);
      acts := [Inner(false, event, draw)];
    } else {
      FreshWaits(c, cr, w.server, event, draw);
    }
  }

  lemma IsLabelled(b: bytes, id: nat, initiator: bool, node: Option<nat>)
    requires Labelled(b, id, initiator, node)
    ensures node.Some?
  {
  }

  /** Every run of two honest parties can be had on the wire. */
  lemma {:induction false} WireLifts(c: MsgCodec.Aead, cr: Crypto, net: Net, w: Wired, known: Keys, draw: Drafts.NodeId,
                                     bound: nat, run: seq<Act>) returns (acts: seq<WireAct>, known': Keys)
    requires Linked(net, w, known) && Unopened(net, w, known, draw) && Parties(w) == START
    requires Counted(w, bound) && bound + |run| <= Pow256(4) && Honest(cr, run)
    ensures |acts| <= |run| && WireHonest(c, cr, net, w, acts)
    ensures var end := WireAfter(c, cr, net, w, acts);
            Parties(end) == After(cr, run) && Linked(net, end, known') && Unopened(net, end, known', draw)
            && Counted(end, bound + |run|)
    decreases |run|
  {
    hide Linked;
    hide WirePossible;
    hide Possible;
    hide WireNext;
    hide Next;
    hide Fits;
    hide Unopened;
    acts, known' := [], known;
    if run != [] {
      var n := |run| - 1;
      var before := run[..n];
      assert Honest(cr, before) by {
        assert forall i :: 0 <= i < n ==> before[..i] == run[..i] && before[i] == run[i];
      }
      acts, known' := WireLifts(c, cr, net, w, known, draw, bound, before);
      RunFits(cr, before);
      var more;
      more, known' := LiftStep(c, cr, net, WireAfter(c, cr, net, w, acts), run[n], known', draw, bound + n);
      if more != [] {
        WireOn(c, cr, net, w, acts, more[0]);
        acts := acts + [more[0]];
      }
    }
  }

  lemma WireOn(c: MsgCodec.Aead, cr: Crypto, net: Net, w: Wired, acts: seq<WireAct>, a: WireAct)
    requires WireHonest(c, cr, net, w, acts) && WirePossible(net, WireAfter(c, cr, net, w, acts), a)
    ensures WireHonest(c, cr, net, w, acts + [a])
    ensures WireAfter(c, cr, net, w, acts + [a]) == WireNext(c, cr, net, WireAfter(c, cr, net, w, acts), a)
  {
    hide WirePossible;
    hide WireNext;
    var more := acts + [a];
    assert more[..|acts|] == acts;
    forall i | 0 <= i < |more|
      ensures WirePossible(net, WireAfter(c, cr, net, w, more[..i]), more[i])
    {
      if i < |acts| {
        assert more[..i] == acts[..i];
      }
    }
  }

  /** Where the node ids can be told apart, the same states of the two parties are reached by runs over wire bytes, with
      other traffic, and by runs in which messages are handed over. */
  lemma WireReaches(c: MsgCodec.Aead, cr: Crypto, net: Net, w: Wired, client: Routing.Tables, server: Routing.Tables,
                    known: Keys, clientCounter: nat, serverCounter: nat, draw: Drafts.NodeId, most: nat, sys: System)
    requires Clean(net, client, server, known) && w == Begin(net, client, server, clientCounter, serverCounter)
    requires clientCounter + most <= Pow256(4) && serverCounter + most <= Pow256(4)
    requires draw != 0 && NewNode(net, client, draw) && OurKey(net, draw) !in known
    ensures (exists run :: |run| <= most && Honest(cr, run) && After(cr, run) == sys)
            <==>
            exists acts :: |acts| <= most && WireHonest(c, cr, net, w, acts)
                           && Parties(WireAfter(c, cr, net, w, acts)) == sys
  {
    hide Honest;
    hide WireHonest;
    hide WireAfter;
    hide After;
    hide Linked;
    hide Routing.Holds;
    hide Pow256;
    BeginIsLinked(net, client, server, clientCounter, serverCounter, known);
    var bound := if clientCounter < serverCounter then serverCounter else clientCounter;
    if run :| |run| <= most && Honest(cr, run) && After(cr, run) == sys {
      BeginIsUnopened(net, client, server, clientCounter, serverCounter, known, draw);
      var acts, _ := WireLifts(c, cr, net, w, known, draw, bound, run);
    }
    if acts :| |acts| <= most && WireHonest(c, cr, net, w, acts) && Parties(WireAfter(c, cr, net, w, acts)) == sys {
      var run, _ := WireRun(c, cr, net, w, known, acts);
    }
  }

  lemma BeginIsUnopened(net: Net, client: Routing.Tables, server: Routing.Tables, clientCounter: nat,
                        serverCounter: nat,
                        known: Keys, draw: Drafts.NodeId)
    requires draw != 0 && NewNode(net, client, draw) && OurKey(net, draw) !in known
    ensures Unopened(net, Begin(net, client, server, clientCounter, serverCounter), known, draw)
  {
  }
}
