/** Routing of unsecured messages: the session and exchange tables of src/message/SessionManager.js and
    ExchangeManager.js. */
module Routing {
  import opened Bytes
  import Delivery
  import Drafts
  import Frame
  import Messaging
  import MsgCodec

  datatype PeerInfo = PeerInfo(address: string, port: nat)

  /** What routing reads of a message. */
  datatype Received = Received(peer: PeerInfo, initiator: bool, source: nat, destination: nat, exchangeId: nat,
                               reliable: bool, counter: nat)

  function Receive(b: bytes, peer: PeerInfo): Received
    requires Frame.Whole(b)
  {
    Received(peer, Frame.Iflag(b), Frame.SourceNodeId(b), Frame.DestinationNodeId(b), Frame.ExchangeId(b),
             Frame.Rflag(b), Frame.MessageCounter(b))
  }

  /** An unsecured session; its place in the table is its identity. */
  datatype Session = Session(peer: PeerInfo, node: Option<nat>, counter: nat)

  datatype Exchange = Exchange(exchangeId: nat, session: nat, isInitiator: bool, isReliable: bool, isAck: bool,
                               ackCounter: nat)

  datatype Tables = Tables(sessions: seq<Session>, exchanges: seq<Exchange>)

  /** Where a message goes: to a known exchange, to the protocol handler with a new one, or nowhere. */
  datatype Route = Known(exchange: nat) | Unsolicited(exchange: nat) | Dropped

  // ----- one message

  predicate SessionMatches(s: Session, peer: PeerInfo, node: nat) {
    s.peer == peer && (s.node == Some(node) || s.node == None)
  }

  predicate ExchangeMatches(e: Exchange, session: nat, m: Received) {
    e.exchangeId == m.exchangeId && m.initiator != e.isInitiator && e.session == session
  }

  /** `find`: the first matching place, or the length. */
  function FirstSession(ss: seq<Session>, peer: PeerInfo, node: nat): (i: nat)
    ensures i <= |ss|
    ensures i < |ss| ==> SessionMatches(ss[i], peer, node)
    ensures forall k :: 0 <= k < i ==> !SessionMatches(ss[k], peer, node)
  {
    if ss == [] then 0
    else
      var n := |ss| - 1;
      var i := FirstSession(ss[..n], peer, node);
      if i < n || SessionMatches(ss[n], peer, node) then i else n + 1
  }

  function FirstExchange(es: seq<Exchange>, session: nat, m: Received): (i: nat)
    ensures i <= |es|
    ensures i < |es| ==> ExchangeMatches(es[i], session, m)
    ensures forall k :: 0 <= k < i ==> !ExchangeMatches(es[k], session, m)
  {
    if es == [] then 0
    else
      var n := |es| - 1;
      var i := FirstExchange(es[..n], session, m);
      if i < n || ExchangeMatches(es[n], session, m) then i else n + 1
  }

  /** `onUnsecuredMessage`: the session of the message, found or created, and refreshed. */
  function OnSession(ss: seq<Session>, m: Received): (seq<Session>, nat) {
    var i := FirstSession(ss, m.peer, if m.initiator then m.source else m.destination);
    if i < |ss| then
      (ss[i := Session(m.peer, if ss[i].node == None then Some(m.source) else ss[i].node, m.counter)], i)
    else (ss + [Session(m.peer, Some(m.source), m.counter)], i)
  }

  /** `onSessionMessage`: only an initiator's message opens an exchange. */
  function OnExchange(es: seq<Exchange>, session: nat, m: Received): (seq<Exchange>, Route) {
    var i := FirstExchange(es, session, m);
    if i < |es| then (es[i := es[i].(ackCounter := m.counter)], Known(i))
    else if m.initiator then
      (es + [Exchange(m.exchangeId, session, false, m.reliable, m.reliable, m.counter)], Unsolicited(i))
    else (es, Dropped)
  }

  function OnMessage(t: Tables, m: Received): (Tables, Route) {
    var (ss, session) := OnSession(t.sessions, m);
    var (es, route) := OnExchange(t.exchanges, session, m);
    (Tables(ss, es), route)
  }

  /** A run from empty tables: the tables and the route of every message. */
  function Run(ms: seq<Received>): (r: (Tables, seq<Route>))
    ensures |r.1| == |ms|
  {
    if ms == [] then (Tables([], []), [])
    else
      var (t, routes) := Run(ms[..|ms| - 1]);
      var (u, route) := OnMessage(t, ms[|ms| - 1]);
      (u, routes + [route])
  }

  // ----- the map they amount to

  datatype Key = Key(peer: PeerInfo, source: nat, exchangeId: nat)

  function KeyOf(m: Received): Key {
    Key(m.peer, m.source, m.exchangeId)
  }

  /** The reference: one exchange per key, numbered as the keys come up. */
  function OnKey(known: map<Key, nat>, m: Received): (map<Key, nat>, Route) {
    if !m.initiator then (known, Dropped)
    else if KeyOf(m) in known then (known, Known(known[KeyOf(m)]))
    else (known[KeyOf(m) := |known|], Unsolicited(|known|))
  }

  function RunKeys(ms: seq<Received>): (r: (map<Key, nat>, seq<Route>))
    ensures |r.1| == |ms|
  {
    if ms == [] then (map[], [])
    else
      var (known, routes) := RunKeys(ms[..|ms| - 1]);
      var (next, route) := OnKey(known, ms[|ms| - 1]);
      (next, routes + [route])
  }

  /** The tables hold `known`: every session has its node, every exchange belongs to the first session of its peer and
      node, awaits the initiator's messages, and is the only one of its key. */
  predicate Holds(t: Tables, known: map<Key, nat>) {
    HaveNodes(t.sessions) && AllPlaced(t) && Numbered(t, known)
  }

  predicate HaveNodes(ss: seq<Session>) {
    forall i :: 0 <= i < |ss| ==> ss[i].node.Some?
  }

  predicate AllPlaced(t: Tables) {
    forall e :: 0 <= e < |t.exchanges| ==> WellPlaced(t.sessions, t.exchanges[e])
  }

  predicate WellPlaced(ss: seq<Session>, e: Exchange) {
    e.session < |ss| && !e.isInitiator
    && ss[e.session].node.Some? && FirstSession(ss, ss[e.session].peer, ss[e.session].node.value) == e.session
  }

  predicate Numbered(t: Tables, known: map<Key, nat>) {
    && |known| == |t.exchanges|
    && (forall e :: 0 <= e < |t.exchanges| ==>
          ExchangeKey(t.sessions, t.exchanges[e]) in known && known[ExchangeKey(t.sessions, t.exchanges[e])] == e)
    && (forall k :: k in known ==> known[k] < |t.exchanges| && ExchangeKey(t.sessions, t.exchanges[known[k]]) == k)
  }

  function ExchangeKey(ss: seq<Session>, e: Exchange): Key {
    if e.session < |ss| && ss[e.session].node.Some? then
      Key(ss[e.session].peer, ss[e.session].node.value, e.exchangeId)
    else Key(PeerInfo("", 0), 0, e.exchangeId)
  }

  // ----- the invariant of a run

  /** Sessions keep their place, peer and node. */
  predicate Grown(ss: seq<Session>, more: seq<Session>) {
    |more| >= |ss| && forall k :: 0 <= k < |ss| ==> more[k].peer == ss[k].peer && more[k].node == ss[k].node
  }

  lemma FirstStays(ss: seq<Session>, more: seq<Session>, peer: PeerInfo, node: nat)
    requires Grown(ss, more) && FirstSession(ss, peer, node) < |ss|
    ensures FirstSession(more, peer, node) == FirstSession(ss, peer, node)
  {
    var i, j := FirstSession(ss, peer, node), FirstSession(more, peer, node);
    assert SessionMatches(more[i], peer, node);
    assert j < |ss| ==> SessionMatches(more[j], peer, node) == SessionMatches(ss[j], peer, node);
  }

  lemma SessionFound(ss: seq<Session>, m: Received)
    requires HaveNodes(ss)
    ensures var (more, i) := OnSession(ss, m);
            && Grown(ss, more) && HaveNodes(more) && i < |more| && more[i].peer == m.peer
            && (m.initiator ==> more[i].node == Some(m.source) && FirstSession(more, m.peer, m.source) == i)
  {
    var (more, i) := OnSession(ss, m);
    if m.initiator {
      var j := FirstSession(more, m.peer, m.source);
      assert SessionMatches(more[i], m.peer, m.source);
      assert j < |ss| ==> SessionMatches(more[j], m.peer, m.source) == SessionMatches(ss[j], m.peer, m.source);
    }
  }

  lemma HoldsGrown(t: Tables, known: map<Key, nat>, more: seq<Session>)
    requires Holds(t, known) && Grown(t.sessions, more) && HaveNodes(more)
    ensures Holds(Tables(more, t.exchanges), known)
  {
    forall e | 0 <= e < |t.exchanges|
      ensures WellPlaced(more, t.exchanges[e])
      ensures ExchangeKey(more, t.exchanges[e]) == ExchangeKey(t.sessions, t.exchanges[e])
    {
      var s := t.sessions[t.exchanges[e].session];
      assert WellPlaced(t.sessions, t.exchanges[e]);
      FirstStays(t.sessions, more, s.peer, s.node.value);
    }
  }

  /** The session that an initiator's message was given. */
  predicate SessionOf(ss: seq<Session>, session: nat, m: Received) {
    session < |ss| && ss[session].peer == m.peer
    && (m.initiator ==> ss[session].node == Some(m.source) && FirstSession(ss, m.peer, m.source) == session)
  }

  /** An exchange of the message's key is the one the search accepts. */
  lemma MatchIsByKey(ss: seq<Session>, e: Exchange, session: nat, m: Received)
    requires WellPlaced(ss, e) && SessionOf(ss, session, m)
    ensures ExchangeMatches(e, session, m) <==> m.initiator && ExchangeKey(ss, e) == KeyOf(m)
  {
  }

  lemma SearchIsByKey(t: Tables, known: map<Key, nat>, session: nat, m: Received)
    requires Holds(t, known) && SessionOf(t.sessions, session, m)
    ensures FirstExchange(t.exchanges, session, m)
            == if m.initiator && KeyOf(m) in known then known[KeyOf(m)] else |t.exchanges|
  {
    hide WellPlaced;
    hide ExchangeMatches;
    hide ExchangeKey;
    forall e | 0 <= e < |t.exchanges|
      ensures ExchangeMatches(t.exchanges[e], session, m)
              <==> m.initiator && ExchangeKey(t.sessions, t.exchanges[e]) == KeyOf(m)
    {
      MatchIsByKey(t.sessions, t.exchanges[e], session, m);
    }
  }

  lemma AddExchange(t: Tables, known: map<Key, nat>, e: Exchange, key: Key)
    requires Holds(t, known) && WellPlaced(t.sessions, e) && ExchangeKey(t.sessions, e) == key && key !in known
    ensures Holds(Tables(t.sessions, t.exchanges + [e]), known[key := |known|])
  {
    hide FirstSession;
    hide ExchangeKey;
    hide WellPlaced;
    assert Numbered(Tables(t.sessions, t.exchanges + [e]), known[key := |known|]) by {
      hide AllPlaced;
      hide HaveNodes;
      AddNumber(t, known, e, key);
    }
    hide Numbered;
  }

  lemma AddNumber(t: Tables, known: map<Key, nat>, e: Exchange, key: Key)
    requires Numbered(t, known) && ExchangeKey(t.sessions, e) == key && key !in known
    ensures Numbered(Tables(t.sessions, t.exchanges + [e]), known[key := |known|])
  {
    hide ExchangeKey;
    var u, next := Tables(t.sessions, t.exchanges + [e]), known[key := |known|];
    var ks := seq(|t.exchanges|, i requires 0 <= i < |t.exchanges| => ExchangeKey(t.sessions, t.exchanges[i]));
    OneMoreKey(ks, known, key);
    assert forall i :: 0 <= i < |u.exchanges| ==> ExchangeKey(u.sessions, u.exchanges[i]) == (ks + [key])[i];
  }

  /** The keys in order and their numbers. */
  predicate Numbers(ks: seq<Key>, known: map<Key, nat>) {
    && |known| == |ks|
    && (forall i :: 0 <= i < |ks| ==> ks[i] in known && known[ks[i]] == i)
    && (forall k :: k in known ==> known[k] < |ks| && ks[known[k]] == k)
  }

  lemma OneMoreKey(ks: seq<Key>, known: map<Key, nat>, key: Key)
    requires Numbers(ks, known) && key !in known
    ensures Numbers(ks + [key], known[key := |known|])
  {
    assert known[key := |known|].Keys == known.Keys + {key};
  }

  /** An exchange may change, but not its id, its session and its side. */
  lemma Updated(t: Tables, known: map<Key, nat>, i: nat, x: Exchange)
    requires Holds(t, known) && i < |t.exchanges|
    requires x.exchangeId == t.exchanges[i].exchangeId && x.session == t.exchanges[i].session
    requires x.isInitiator == t.exchanges[i].isInitiator
    ensures Holds(Tables(t.sessions, t.exchanges[i := x]), known)
  {
    hide FirstSession;
    var es := t.exchanges[i := x];
    forall e | 0 <= e < |es|
      ensures WellPlaced(t.sessions, es[e]) && ExchangeKey(t.sessions, es[e]) == ExchangeKey(t.sessions, t.exchanges[e])
    {
      assert WellPlaced(t.sessions, t.exchanges[e]);
    }
  }

  lemma ExchangeStep(t: Tables, known: map<Key, nat>, session: nat, m: Received)
    requires Holds(t, known) && SessionOf(t.sessions, session, m)
    ensures var (es, route) := OnExchange(t.exchanges, session, m);
            && route == OnKey(known, m).1
            && Holds(Tables(t.sessions, es), OnKey(known, m).0)
  {
    SearchIsByKey(t, known, session, m);
    assert |known| == |t.exchanges| && (m.initiator && KeyOf(m) in known ==> known[KeyOf(m)] < |t.exchanges|);
    hide Holds;
    if m.initiator && KeyOf(m) !in known {
      AddExchange(t, known, Exchange(m.exchangeId, session, false, m.reliable, m.reliable, m.counter), KeyOf(m));
    } else if m.initiator {
      var i := known[KeyOf(m)];
      Updated(t, known, i, t.exchanges[i].(ackCounter := m.counter));
    }
  }

  /** One message, on any tables that hold a map. */
  lemma MessageHolds(t: Tables, known: map<Key, nat>, m: Received)
    requires Holds(t, known)
    ensures Holds(OnMessage(t, m).0, OnKey(known, m).0) && OnMessage(t, m).1 == OnKey(known, m).1
  {
    SessionFound(t.sessions, m);
    var (ss, session) := OnSession(t.sessions, m);
    HoldsGrown(t, known, ss);
    ExchangeStep(Tables(ss, t.exchanges), known, session, m);
  }

  lemma {:induction false} RunHolds(ms: seq<Received>)
    ensures Holds(Run(ms).0, RunKeys(ms).0) && Run(ms).1 == RunKeys(ms).1
  {
    if ms != [] {
      var before, m := ms[..|ms| - 1], ms[|ms| - 1];
      RunHolds(before);
      MessageHolds(Run(before).0, RunKeys(before).0, m);
    }
  }

  // ----- routes by key

  /** The keys that have come up. */
  predicate Seen(ms: seq<Received>, k: Key) {
    exists i :: 0 <= i < |ms| && ms[i].initiator && KeyOf(ms[i]) == k
  }

  lemma SeenSnoc(ms: seq<Received>, k: Key)
    requires ms != []
    ensures Seen(ms, k) <==> Seen(ms[..|ms| - 1], k) || (ms[|ms| - 1].initiator && KeyOf(ms[|ms| - 1]) == k)
  {
    var n := |ms| - 1;
    if i :| 0 <= i < n && ms[i].initiator && KeyOf(ms[i]) == k {
      assert ms[..n][i] == ms[i];
    }
  }

  lemma {:induction false} KnownAreSeen(ms: seq<Received>, k: Key)
    ensures k in RunKeys(ms).0 <==> Seen(ms, k)
  {
    if ms != [] {
      KnownAreSeen(ms[..|ms| - 1], k);
      SeenSnoc(ms, k);
    }
  }

  /** Numbers are given once and kept. */
  lemma {:induction false} NumbersAreApart(ms: seq<Received>)
    ensures forall k :: k in RunKeys(ms).0 ==> RunKeys(ms).0[k] < |RunKeys(ms).0|
    ensures forall j, k :: j in RunKeys(ms).0 && k in RunKeys(ms).0 && j != k ==> RunKeys(ms).0[j] != RunKeys(ms).0[k]
  {
    if ms != [] {
      NumbersAreApart(ms[..|ms| - 1]);
      var known, m := RunKeys(ms[..|ms| - 1]).0, ms[|ms| - 1];
      assert RunKeys(ms).0 == OnKey(known, m).0;
      if m.initiator && KeyOf(m) !in known {
        assert known[KeyOf(m) := |known|].Keys == known.Keys + {KeyOf(m)};
      }
    }
  }

  lemma {:induction false} RouteLeadsToKey(ms: seq<Received>, i: nat)
    requires i < |ms| && ms[i].initiator
    ensures KeyOf(ms[i]) in RunKeys(ms).0 && Target(RunKeys(ms).1[i]) == RunKeys(ms).0[KeyOf(ms[i])]
  {
    var n := |ms| - 1;
    if i < n {
      RouteLeadsToKey(ms[..n], i);
    }
  }

  /** The exchange a route leads to. */
  function Target(r: Route): int {
    match r
    case Known(e) => e
    case Unsolicited(e) => e
    case Dropped => -1
  }

  /** For every run of received unsecured messages: responder messages are dropped; the protocol handler sees the first
      message of each key, which is an address, a port, a node and an exchange id, and no other; and two initiator
      messages reach the same exchange exactly when their keys are equal. */
  lemma RoutedByKey(ms: seq<Received>, j: nat)
    requires j < |ms|
    ensures var routes := Run(ms).1;
            && (routes[j] == Dropped <==> !ms[j].initiator)
            && (ms[j].initiator ==>
                  (routes[j].Unsolicited?
                   <==> forall k :: 0 <= k < j && ms[k].initiator ==> KeyOf(ms[k]) != KeyOf(ms[j])))
            && (forall i :: 0 <= i < |ms| && ms[i].initiator && ms[j].initiator ==>
                  (Target(routes[i]) == Target(routes[j]) <==> KeyOf(ms[i]) == KeyOf(ms[j])))
  {
    hide Run;
    hide RunKeys;
    hide KeyOf;
    hide Target;
    RunHolds(ms);
    HandledOnce(ms, j);
    forall i | 0 <= i < |ms| && ms[i].initiator && ms[j].initiator
      ensures Target(RunKeys(ms).1[i]) == Target(RunKeys(ms).1[j]) <==> KeyOf(ms[i]) == KeyOf(ms[j])
    {
      SameTargetIffSameKey(ms, i, j);
    }
  }

  lemma HandledOnce(ms: seq<Received>, j: nat)
    requires j < |ms|
    ensures var route := RunKeys(ms).1[j];
            && (route == Dropped <==> !ms[j].initiator)
            && (ms[j].initiator ==>
                  (route.Unsolicited?
                   <==> forall k :: 0 <= k < j && ms[k].initiator ==> KeyOf(ms[k]) != KeyOf(ms[j])))
  {
    hide RunKeys;
    hide KeyOf;
    PrefixRoute(ms, j);
    KnownAreSeen(ms[..j], KeyOf(ms[j]));
    assert forall k :: 0 <= k < j ==> ms[..j][k] == ms[k];
  }

  lemma SameTargetIffSameKey(ms: seq<Received>, i: nat, j: nat)
    requires i < |ms| && j < |ms| && ms[i].initiator && ms[j].initiator
    ensures Target(RunKeys(ms).1[i]) == Target(RunKeys(ms).1[j]) <==> KeyOf(ms[i]) == KeyOf(ms[j])
  {
    hide RunKeys;
    hide KeyOf;
    hide Target;
    NumbersAreApart(ms);
    RouteLeadsToKey(ms, i);
    RouteLeadsToKey(ms, j);
  }

  /** A message that an initiator sends over an unsecured session is received under the key of its node and exchange:
      two such messages in a run reach the same exchange exactly when they come from the same address, port and node
      in exchanges of the same id. */
  lemma SentIsRoutedByKey(ms: seq<Received>, i: nat, j: nat, a: Sending, b: Sending)
    requires i < |ms| && j < |ms| && Carries(ms[i], a) && Carries(ms[j], b)
    ensures var routes := Run(ms).1;
            Target(routes[i]) == Target(routes[j])
            <==> ms[i].peer == ms[j].peer && NodeOf(a) == NodeOf(b) && a.header.exchangeId == b.header.exchangeId
  {
    hide Run;
    hide NodeOf;
    SentHasKey(ms[i], a);
    SentHasKey(ms[j], b);
    RoutedByKey(ms, j);
  }

  /** An initiator's unsecured send. */
  datatype Sending = Sending(cipher: MsgCodec.Aead, draft: Drafts.Draft, fields: Frame.Fields,
                             header: Messaging.Header, line: Messaging.Line, random: Drafts.NodeId)

  predicate CanSend(x: Sending) {
    && Delivery.Sendable(x.draft, x.fields, x.header) && Delivery.LineFits(x.line)
    && x.line.sessionId == 0 && x.header.initiator
  }

  /** The node id it goes out under. */
  function NodeOf(x: Sending): nat {
    if Messaging.NoPeer(x.line.peer) then x.random else x.line.peer.value
  }

  /** The message was received from some address as what was sent. */
  predicate Carries(m: Received, x: Sending) {
    CanSend(x)
    && Drafts.Room(x.draft)
    && var wire := Messaging.SendIn(x.cipher, x.draft, x.header, x.line, x.random).wire;
       wire.Ok? && Frame.Whole(wire.value) && m == Receive(wire.value, m.peer)
  }

  lemma SentHasKey(m: Received, x: Sending)
    requires Carries(m, x)
    ensures m.initiator && KeyOf(m) == Key(m.peer, NodeOf(x), x.header.exchangeId)
  {
    hide Messaging.SendIn;
    Delivery.UnsecuredDelivery(x.cipher, x.draft, x.fields, x.header, x.line, x.random);
  }

  /** A message is routed by what came before it. */
  lemma {:induction false} PrefixRoute(ms: seq<Received>, j: nat)
    requires j < |ms|
    ensures RunKeys(ms).1[j] == OnKey(RunKeys(ms[..j]).0, ms[j]).1
  {
    var n := |ms| - 1;
    if j < n {
      PrefixRoute(ms[..n], j);
      assert ms[..n][..j] == ms[..j];
    }
  }

  // ----- what a message leaves in the tables

  /** Exactly one session hears of the message: its counter and address, and its node id if it had none or is new. */
  lemma SessionHears(t: Tables, m: Received) returns (i: nat)
    ensures var u := OnMessage(t, m).0;
            && i < |u.sessions| && |t.sessions| <= |u.sessions| && (i < |t.sessions| <==> |u.sessions| == |t.sessions|)
            && (forall k :: 0 <= k < |u.sessions| && k != i ==> k < |t.sessions| && u.sessions[k] == t.sessions[k])
            && u.sessions[i].peer == m.peer && u.sessions[i].counter == m.counter
            && (if i < |t.sessions| && t.sessions[i].node.Some? then u.sessions[i].node == t.sessions[i].node
                else u.sessions[i].node == Some(m.source))
  {
    i := OnSession(t.sessions, m).1;
  }

  /** A message that opens an exchange decides its reliability and its acknowledgements; one that finds an exchange
      leaves it its counter to acknowledge and nothing else; no other exchange changes. */
  lemma ExchangeHears(t: Tables, m: Received)
    ensures var (u, route) := OnMessage(t, m);
            match route
            case Dropped => u.exchanges == t.exchanges
            case Known(x) =>
              && x < |t.exchanges| == |u.exchanges|
              && (forall k :: 0 <= k < |t.exchanges| && k != x ==> u.exchanges[k] == t.exchanges[k])
              && u.exchanges[x].ackCounter == m.counter
              && u.exchanges[x] == t.exchanges[x].(ackCounter := u.exchanges[x].ackCounter)
            case Unsolicited(x) =>
              && x == |t.exchanges| == |u.exchanges| - 1 && u.exchanges[..x] == t.exchanges
              && u.exchanges[x].isReliable == u.exchanges[x].isAck == m.reliable
              && u.exchanges[x].ackCounter == m.counter && u.exchanges[x].exchangeId == m.exchangeId
              && !u.exchanges[x].isInitiator
  {
  }

  /** The last message routed to the exchange. */
  predicate LastTo(routes: seq<Route>, j: nat, x: nat) {
    j < |routes| && Target(routes[j]) == x && forall k :: j < k < |routes| ==> Target(routes[k]) != x
  }

  lemma {:induction false} TargetsExist(ms: seq<Received>)
    ensures forall k :: 0 <= k < |ms| ==> Target(Run(ms).1[k]) < |Run(ms).0.exchanges|
  {
    hide OnMessage;
    if ms != [] {
      var n := |ms| - 1;
      TargetsExist(ms[..n]);
      ExchangeHears(Run(ms[..n]).0, ms[n]);
    }
  }

  /** Over every run, an exchange is reliable and acknowledges exactly if the message that opened it asked for it,
      and what it acknowledges is the counter of the last message that came to it. */
  lemma {:induction false} AcknowledgesLast(ms: seq<Received>, i: nat, j: nat)
    requires i < |ms| && Run(ms).1[i].Unsolicited? && LastTo(Run(ms).1, j, Run(ms).1[i].exchange)
    ensures var x := Run(ms).1[i].exchange;
            && x < |Run(ms).0.exchanges|
            && Run(ms).0.exchanges[x].isReliable == Run(ms).0.exchanges[x].isAck == ms[i].reliable
            && Run(ms).0.exchanges[x].ackCounter == ms[j].counter
  {
    hide OnMessage;
    var n := |ms| - 1;
    var before := Run(ms[..n]);
    TargetsExist(ms[..n]);
    ExchangeHears(before.0, ms[n]);
    var x := Run(ms).1[i].exchange;
    assert Run(ms).1 == before.1 + [OnMessage(before.0, ms[n]).1];
    if i < n {
      assert forall k :: 0 <= k < n ==> before.1[k] == Run(ms).1[k];
      assert Target(before.1[i]) == x;
      if j < n {
        assert forall k :: j < k < n ==> Target(before.1[k]) != x;
        assert Target(Run(ms).1[n]) != x;
        AcknowledgesLast(ms[..n], i, j);
      } else {
        var k := LastBefore(before.1, x, i);
        AcknowledgesLast(ms[..n], i, k);
      }
    }
  }

  lemma {:induction false} LastBefore(routes: seq<Route>, x: nat, i: nat) returns (k: nat)
    requires i < |routes| && Target(routes[i]) == x
    ensures LastTo(routes, k, x)
    decreases |routes|
  {
    var n := |routes| - 1;
    if Target(routes[n]) == x {
      k := n;
    } else {
      k := LastBefore(routes[..n], x, i);
      assert forall m :: k < m < n ==> routes[..n][m] == routes[m];
    }
  }

  // ----- replies to exchanges that were started here

  /** A reply finds the exchange that it answers if and only if no earlier session with its sender goes by the same
      node id or by none yet. */
  lemma ReplyArrivesIff(t: Tables, place: nat, m: Received)
    requires place < |t.exchanges| && t.exchanges[place].session < |t.sessions| && !m.initiator
    requires var s := t.exchanges[place].session;
             && t.sessions[s].peer == m.peer && t.sessions[s].node == Some(m.destination)
             && FirstExchange(t.exchanges, s, m) == place
    ensures OnMessage(t, m).1 == Known(place)
            <==> forall k :: 0 <= k < t.exchanges[place].session && t.sessions[k].peer == m.peer ==>
                   t.sessions[k].node.Some? && t.sessions[k].node != Some(m.destination)
  {
    var s, i := t.exchanges[place].session, FirstSession(t.sessions, m.peer, m.destination);
    assert SessionMatches(t.sessions[s], m.peer, m.destination);
    assert i <= s;
    if i < s {
      assert SessionMatches(t.sessions[i], m.peer, m.destination);
      assert FirstExchange(t.exchanges, i, m) == place ==> ExchangeMatches(t.exchanges[place], i, m);
    } else {
      assert forall k :: 0 <= k < s ==> !SessionMatches(t.sessions[k], m.peer, m.destination);
    }
  }

  /** Two exchanges are started with one node, and only the second has sent: the reply to it goes to the first one's
      session, which has no node id yet, and is dropped. */
  lemma SilentSessionTakesReply(peer: PeerInfo, node: nat, m: Received)
    requires m.peer == peer && !m.initiator && m.destination == node && m.exchangeId == 1
    ensures var t := Tables([Session(peer, None, 0), Session(peer, Some(node), 0)],
                            [Exchange(0, 0, true, false, false, 0), Exchange(1, 1, true, false, false, 0)]);
            OnMessage(t, m) == (Tables(t.sessions[0 := Session(peer, Some(m.source), m.counter)], t.exchanges), Dropped)
  {
    var sessions := [Session(peer, None, 0), Session(peer, Some(node), 0)];
    var exchanges := [Exchange(0, 0, true, false, false, 0), Exchange(1, 1, true, false, false, 0)];
    assert SessionMatches(sessions[0], peer, node);
    assert FirstSession(sessions, peer, node) == 0;
    assert !ExchangeMatches(exchanges[0], 0, m) && !ExchangeMatches(exchanges[1], 0, m);
    assert FirstExchange(exchanges, 0, m) == 2;
  }

  // ----- in place

  /** The two tables, searched and updated by every message. */
  class Router {
    var sessions: seq<Session>
    var exchanges: seq<Exchange>

    constructor ()
      ensures Now() == Tables([], [])
    {
      sessions, exchanges := [], [];
    }

    function Now(): Tables
      reads this
    {
      Tables(sessions, exchanges)
    }

    method FindSession(peer: PeerInfo, node: nat) returns (i: nat)
      ensures i == FirstSession(sessions, peer, node)
    {
      i := 0;
      while i < |sessions| && !SessionMatches(sessions[i], peer, node)
        invariant i <= |sessions|
        invariant forall k :: 0 <= k < i ==> !SessionMatches(sessions[k], peer, node)
      {
        i := i + 1;
      }
    }

    method FindExchange(session: nat, m: Received) returns (i: nat)
      ensures i == FirstExchange(exchanges, session, m)
    {
      i := 0;
      while i < |exchanges| && !ExchangeMatches(exchanges[i], session, m)
        invariant i <= |exchanges|
        invariant forall k :: 0 <= k < i ==> !ExchangeMatches(exchanges[k], session, m)
      {
        i := i + 1;
      }
    }

    method OnUnsecuredMessage(m: Received) returns (route: Route)
      modifies this
      ensures (Now(), route) == OnMessage(old(Now()), m)
    {
      var session := FindSession(m.peer, if m.initiator then m.source else m.destination);
      if session < |sessions| {
        if sessions[session].node == None {
          sessions := sessions[session := sessions[session].(node := Some(m.source))];
        }
        sessions := sessions[session := sessions[session].(peer := m.peer, counter := m.counter)];
        assert sessions == OnSession(old(sessions), m).0;
      } else {
        sessions := sessions + [Session(m.peer, Some(m.source), m.counter)];
      }
      route := OnSessionMessage(m, session);
    }

    method OnSessionMessage(m: Received, session: nat) returns (route: Route)
      modifies this`exchanges
      ensures (exchanges, route) == OnExchange(old(exchanges), session, m)
    {
      var e := FindExchange(session, m);
      if e < |exchanges| {
        exchanges := exchanges[e := exchanges[e].(ackCounter := m.counter)];
        return Known(e);
      }
      if m.initiator {
        exchanges := exchanges + [Exchange(m.exchangeId, session, false, m.reliable, m.reliable, m.counter)];
        return Unsolicited(e);
      }
      return Dropped;
    }
  }
}
