/** Two honest PASE parties, a client and a server, over a channel that may lose, reorder and repeat messages. */
module PaseRun {
  import opened Bytes
  import opened Tlv
  import opened TlvPrinter
  import opened TlvAccess
  import opened PaseMessages
  import opened Pase

  datatype System = System(client: Party, server: Party)

  datatype Act = AtClient(event: Event) | AtServer(event: Event)

  const START := System(FRESH, FRESH)

  /** Only the client starts, and a party receives only what the other has sent: at any later time, any number of
      times or never. */
  predicate Possible(sys: System, a: Act) {
    match a
    case AtClient(e) => e.Receives? ==> e.message in sys.server.history.sent
    case AtServer(e) => !e.Starts? && (e.Receives? ==> e.message in sys.client.history.sent)
  }

  function Next(cr: Crypto, sys: System, a: Act): System {
    match a
    case AtClient(e) => sys.(client := Step(cr, sys.client, e))
    case AtServer(e) => sys.(server := Step(cr, sys.server, e))
  }

  function After(cr: Crypto, acts: seq<Act>): System {
    if acts == [] then START else Next(cr, After(cr, acts[..|acts| - 1]), acts[|acts| - 1])
  }

  ghost predicate Honest(cr: Crypto, acts: seq<Act>) {
    forall i :: 0 <= i < |acts| ==> Possible(After(cr, acts[..i]), acts[i])
  }

  // ----- what honest parties hold

  /** The session id in a stored request or response is the one stored beside it, and the message was sent. */
  ghost predicate RequestFits(cs: seq<Message>, request: Option<bytes>, id: Value) {
    request.Some? ==>
      id.Num? && 0 <= id.n < 0x1_0000 && IsRequest(request.value, id.n) && Message(ParamRequestOp, request.value) in cs
  }

  ghost predicate ResponseFits(ss: seq<Message>, response: Option<bytes>, id: Value) {
    response.Some? ==>
      id.Num? && 0 <= id.n < 0x1_0000 && IsResponse(response.value, id.n)
          && Message(ParamResponseOp, response.value) in ss
  }

  /** The hash of a request the client sent and a response the server sent. */
  ghost predicate Exchanged(cr: Crypto, cs: seq<Message>, ss: seq<Message>, context: bytes) {
    exists request, response ::
      Message(ParamRequestOp, request) in cs && Message(ParamResponseOp, response) in ss
      && context == Context(cr, request, response)
  }

  ghost predicate StoredFits(cr: Crypto, cs: seq<Message>, ss: seq<Message>, s: Stored) {
    && RequestFits(cs, s.request, s.initiatorSessionId)
    && ResponseFits(ss, s.response, s.responderSessionId)
    && (s.context.Some? ==> s.request.Some? && s.response.Some? && Exchanged(cr, cs, ss, s.context.value))
    && (s.client.Some? ==> s.context.Some? && Exchanged(cr, cs, ss, s.client.value.context))
    && (s.secret.Some? ==> s.context.Some? && Exchanged(cr, cs, ss, s.secret.value.context))
  }

  ghost predicate HandlersFit(cr: Crypto, cs: seq<Message>, ss: seq<Message>, hs: seq<Handler>, context: Option<bytes>,
                              server: bool) {
    && (hs != [] ==> context.Some?)
    && forall h :: h in hs ==> IsServerHandler(h) == server
                               && (h.ServerStarts? || h.ClientStarts? ==> Exchanged(cr, cs, ss, h.context))
  }

  /** A session made from an exchanged context, under the ids of the request and response stored with it. */
  ghost predicate SessionFits(cr: Crypto, cs: seq<Message>, ss: seq<Message>, m: Made, initiator: bool) {
    && Exchanged(cr, cs, ss, m.secret.context)
    && m.request.Some? && m.response.Some?
    && RequestFits(cs, m.request, if initiator then m.local else m.peer)
    && ResponseFits(ss, m.response, if initiator then m.peer else m.local)
  }

  ghost predicate SessionsFit(cr: Crypto, cs: seq<Message>, ss: seq<Message>, ms: seq<Made>, initiator: bool) {
    forall m :: m in ms ==> SessionFits(cr, cs, ss, m, initiator)
  }

  function Confirmation(cr: Crypto, s: Secret): Short {
    cr.mac(s.keys.kcA, s.pB)
  }

  predicate ConfirmedBy(cr: Crypto, cA: Short, made: seq<Made>) {
    exists c :: c in made && cA == Confirmation(cr, c.secret)
  }

  /** A client sends requests of its own making, Pake1, and a Pake3 only with a session of the same secret. */
  ghost predicate ClientSends(cr: Crypto, m: Message, made: seq<Made>) {
    match m.opcode
    case ParamRequestOp => exists id: SessionId :: IsRequest(m.payload, id)
    case Pake1Op => true
    case Pake3Op => exists c :: c in made && m.payload == Pake3Payload(Confirmation(cr, c.secret))
    case _ => false
  }

  ghost predicate ServerSends(m: Message) {
    match m.opcode
    case ParamResponseOp => exists id: SessionId :: IsResponse(m.payload, id)
    case Pake2Op | StatusReportOp => true
    case _ => false
  }

  /** The secret is what the party derives, with some scalar, from the other's share. */
  ghost predicate Derived(cr: Crypto, s: Secret, client: bool) {
    if client then
      exists x :: s.pA == cr.shareA(s.verifier, x) && cr.clientKeys(s.context, s.verifier, x, s.pB) == Some(s.keys)
    else
      exists y :: s.pB == cr.shareB(s.verifier, y) && cr.serverKeys(s.context, s.verifier, y, s.pA) == Some(s.keys)
  }

  ghost predicate SecretsFit(cr: Crypto, secret: Option<Secret>, made: seq<Made>, client: bool) {
    (secret.Some? ==> Derived(cr, secret.value, client)) && forall m :: m in made ==> Derived(cr, m.secret, client)
  }

  ghost predicate ClientFits(cr: Crypto, ss: seq<Message>, p: Party) {
    var cs, made := p.history.sent, p.history.sessions;
    && p.stored.initiator
    && StoredFits(cr, cs, ss, p.stored)
    && HandlersFit(cr, cs, ss, p.pending, p.stored.context, false)
    && SessionsFit(cr, cs, ss, made, true)
    && SecretsFit(cr, p.stored.secret, made, true)
    && (forall m :: m in cs ==> ClientSends(cr, m, made))
  }

  ghost predicate ServerFits(cr: Crypto, cs: seq<Message>, clientMade: seq<Made>, p: Party) {
    var ss, made := p.history.sent, p.history.sessions;
    && p.stored.iterations == Num(ITERATIONS)
    && (p.stored.request.Some? ==> !p.stored.initiator)
    && StoredFits(cr, cs, ss, p.stored)
    && HandlersFit(cr, cs, ss, p.pending, p.stored.context, true)
    && SessionsFit(cr, cs, ss, made, false)
    && SecretsFit(cr, p.stored.secret, made, false)
    && (forall m :: m in ss ==> ServerSends(m))
    && (forall s :: s in made ==> ConfirmedBy(cr, Confirmation(cr, s.secret), clientMade))
  }

  ghost predicate Fits(cr: Crypto, sys: System) {
    ClientFits(cr, sys.server.history.sent, sys.client)
    && ServerFits(cr, sys.client.history.sent, sys.client.history.sessions, sys.server)
  }

  // ----- more may be sent

  predicate Within<T(==)>(a: seq<T>, b: seq<T>) {
    forall m :: m in a ==> m in b
  }

  lemma ExchangedGrows(cr: Crypto, cs: seq<Message>, ss: seq<Message>, cs2: seq<Message>, ss2: seq<Message>)
    requires Within(cs, cs2) && Within(ss, ss2)
    ensures forall c :: Exchanged(cr, cs, ss, c) ==> Exchanged(cr, cs2, ss2, c)
  {
  }

  lemma StoredGrows(cr: Crypto, cs: seq<Message>, ss: seq<Message>, cs2: seq<Message>, ss2: seq<Message>, s: Stored)
    requires Within(cs, cs2) && Within(ss, ss2) && StoredFits(cr, cs, ss, s)
    ensures StoredFits(cr, cs2, ss2, s)
  {
    hide Exchanged;
    hide IsRequest;
    hide IsResponse;
    ExchangedGrows(cr, cs, ss, cs2, ss2);
  }

  lemma HandlersGrow(cr: Crypto, cs: seq<Message>, ss: seq<Message>, cs2: seq<Message>, ss2: seq<Message>,
                     hs: seq<Handler>, context: Option<bytes>, server: bool)
    requires Within(cs, cs2) && Within(ss, ss2) && HandlersFit(cr, cs, ss, hs, context, server)
    ensures HandlersFit(cr, cs2, ss2, hs, context, server)
  {
    hide Exchanged;
    ExchangedGrows(cr, cs, ss, cs2, ss2);
  }

  lemma SessionsGrow(cr: Crypto, cs: seq<Message>, ss: seq<Message>, cs2: seq<Message>, ss2: seq<Message>,
                     ms: seq<Made>, initiator: bool)
    requires Within(cs, cs2) && Within(ss, ss2) && SessionsFit(cr, cs, ss, ms, initiator)
    ensures SessionsFit(cr, cs2, ss2, ms, initiator)
  {
    hide Exchanged;
    hide IsRequest;
    hide IsResponse;
    ExchangedGrows(cr, cs, ss, cs2, ss2);
  }

  lemma ClientGrows(cr: Crypto, ss: seq<Message>, ss2: seq<Message>, p: Party)
    requires ClientFits(cr, ss, p) && Within(ss, ss2)
    ensures ClientFits(cr, ss2, p)
  {
    hide StoredFits;
    hide HandlersFit;
    hide SessionsFit;
    hide ClientSends;
    StoredGrows(cr, p.history.sent, ss, p.history.sent, ss2, p.stored);
    HandlersGrow(cr, p.history.sent, ss, p.history.sent, ss2, p.pending, p.stored.context, false);
    SessionsGrow(cr, p.history.sent, ss, p.history.sent, ss2, p.history.sessions, true);
  }

  lemma ServerGrows(cr: Crypto, cs: seq<Message>, cs2: seq<Message>, made: seq<Made>, made2: seq<Made>, p: Party)
    requires ServerFits(cr, cs, made, p) && Within(cs, cs2) && Within(made, made2)
    ensures ServerFits(cr, cs2, made2, p)
  {
    hide StoredFits;
    hide HandlersFit;
    hide SessionsFit;
    hide ServerSends;
    hide Confirmation;
    StoredGrows(cr, cs, p.history.sent, cs2, p.history.sent, p.stored);
    HandlersGrow(cr, cs, p.history.sent, cs2, p.history.sent, p.pending, p.stored.context, true);
    SessionsGrow(cr, cs, p.history.sent, cs2, p.history.sent, p.history.sessions, false);
  }

  // ----- the client's steps

  /** A client's message is appended: what it sends must be in order. */
  lemma ClientSendsOn(cr: Crypto, ss: seq<Message>, p: Party, m: Message)
    requires ClientFits(cr, ss, p) && ClientSends(cr, m, p.history.sessions)
    ensures ClientFits(cr, ss, Send(p, m.opcode, m.payload))
  {
    hide StoredFits;
    hide HandlersFit;
    hide SessionsFit;
    hide ClientSends;
    var cs, cs2 := p.history.sent, p.history.sent + [m];
    assert Send(p, m.opcode, m.payload).history.sent == cs2;
    StoredGrows(cr, cs, ss, cs2, ss, p.stored);
    HandlersGrow(cr, cs, ss, cs2, ss, p.pending, p.stored.context, false);
    SessionsGrow(cr, cs, ss, cs2, ss, p.history.sessions, true);
  }

  lemma ClientStarts(cr: Crypto, ss: seq<Message>, p: Party, random: Random, id: SessionId)
    requires ClientFits(cr, ss, p)
    ensures ClientFits(cr, ss, StartPase(p, random, id))
  {
    hide RequestPayload;
    hide SendPbkdfParamRequest;
    hide ClientFits;
    if p.state == Idle {
      var payload := RequestPayload(random, id);
      OwnRequest(random, id);
      ClientAsks(cr, ss, p, random, id, payload);
    }
  }

  lemma OwnRequest(random: Random, id: SessionId)
    ensures IsRequest(RequestPayload(random, id), id)
  {
  }

  lemma ClientAsks(cr: Crypto, ss: seq<Message>, p: Party, random: Random, id: SessionId, payload: bytes)
    requires ClientFits(cr, ss, p) && IsRequest(payload, id)
    ensures ClientFits(cr, ss, SendPbkdfParamRequest(p, random, id, payload))
  {
    hide HandlersFit;
    hide SessionsFit;
    hide Exchanged;
    hide IsRequest;
    hide IsResponse;
    var m := Message(ParamRequestOp, payload);
    ClientSendsOn(cr, ss, p, m);
    assert m in SendPbkdfParamRequest(p, random, id, payload).history.sent;
  }

  /** What an honest response makes of a client. */
  function WithResponse(cr: Crypto, p: Party, payload: bytes, id: SessionId): Party {
    var s := p.stored.(response := Some(payload), responderSessionId := Num(id));
    if s.request.None? then p.(stored := s)
    else
      p.(stored := s.(context := Some(Context(cr, s.request.value, payload)), iterations := Num(ITERATIONS),
                      salt := Buf(SALT)),
         pending := p.pending + [ClientVerifies(cr.verifier(ITERATIONS, SALT))])
  }

  lemma ResponseTaken(cr: Crypto, p: Party, payload: bytes, id: SessionId)
    requires IsResponse(payload, id)
    ensures OnPbkdfParamResponse(cr, p, payload) == WithResponse(cr, p, payload, id)
  {
    hide Members;
    hide Tagged;
    hide At;
    hide IsResponse;
    hide Context;
    ResponseParsesAs(payload, id);
  }

  lemma ClientHashes(cr: Crypto, ss: seq<Message>, p: Party, payload: bytes, id: SessionId)
    requires ClientFits(cr, ss, p) && Message(ParamResponseOp, payload) in ss && IsResponse(payload, id)
    ensures ClientFits(cr, ss, OnPbkdfParamResponse(cr, p, payload))
  {
    hide SessionsFit;
    hide ClientSends;
    hide Context;
    hide IsRequest;
    hide IsResponse;
    hide OnPbkdfParamResponse;
    ResponseTaken(cr, p, payload, id);
  }

  lemma ResponseParsesAs(payload: bytes, id: SessionId)
    requires IsResponse(payload, id)
    ensures Members(payload).Ok?
    ensures var members := Members(payload).value;
            && Tagged(members, 3) == Num(id)
            && At(Tagged(members, 4), 0) == Ok(Num(ITERATIONS)) && At(Tagged(members, 4), 1) == Ok(Buf(SALT))
  {
    hide Members;
    hide Tagged;
    hide At;
    var a: Random, b: Random :| payload == ResponsePayload(a, b, id);
    ResponseParses(a, b, id);
  }

  lemma ClientResumes(cr: Crypto, ss: seq<Message>, p: Party, i: nat, scalar: bytes)
    requires ClientFits(cr, ss, p)
    ensures ClientFits(cr, ss, Resume(cr, p, i, scalar))
  {
    hide SessionsFit;
    hide ClientSends;
    hide Exchanged;
    hide RequestFits;
    hide ResponseFits;
    if i < |p.pending| {
      var h := p.pending[i];
      assert h in p.pending && !IsServerHandler(h);
      if h.ClientStarts? {
        var pA := cr.shareA(h.verifier, h.scalar);
        var q := p.(pending := Drop(p.pending, i),
                    stored := p.stored.(client := Some(Client(h.context, h.verifier, h.scalar)), pA := Str(Hex(pA))));
        assert ClientFits(cr, ss, SetState(q, AwaitPake2));
        ClientSendsPake1(cr, ss, SetState(q, AwaitPake2), pA);
      }
    }
  }

  lemma ClientSendsPake1(cr: Crypto, ss: seq<Message>, p: Party, pA: Short)
    requires ClientFits(cr, ss, p)
    ensures ClientFits(cr, ss, Send(p, Pake1Op, Pake1Payload(pA)))
  {
    hide ClientFits;
    ClientSendsOn(cr, ss, p, Message(Pake1Op, Pake1Payload(pA)));
  }

  /** The party that a client becomes by an accepted Pake2. */
  function Confirmed(p: Party, secret: Secret): Party {
    CreateSecureSession(SetState(p.(stored := p.stored.(secret := Some(secret))), Idle))
  }

  lemma ClientConfirms(cr: Crypto, ss: seq<Message>, p: Party, secret: Secret)
    requires ClientFits(cr, ss, p) && p.stored.context.Some? && Exchanged(cr, p.history.sent, ss, secret.context)
    requires Derived(cr, secret, true)
    ensures ClientFits(cr, ss, Confirmed(p, secret))
    ensures ClientSends(cr, Message(Pake3Op, Pake3Payload(Confirmation(cr, secret))),
                        Confirmed(p, secret).history.sessions)
  {
    hide HandlersFit;
    hide IsRequest;
    hide IsResponse;
    hide Exchanged;
    hide Derived;
    var q := Confirmed(p, secret);
    var c := Made(p.stored.initiatorSessionId, p.stored.responderSessionId, secret, p.stored.request,
                  p.stored.response);
    assert q.history.sessions == p.history.sessions + [c];
    assert SessionFits(cr, p.history.sent, ss, c, true);
    assert c in q.history.sessions;
    forall m | m in p.history.sent
      ensures ClientSends(cr, m, q.history.sessions)
    {
      assert ClientSends(cr, m, p.history.sessions);
    }
  }

  lemma ClientFinishes(cr: Crypto, ss: seq<Message>, p: Party, payload: bytes)
    requires ClientFits(cr, ss, p)
    ensures ClientFits(cr, ss, OnPake2(cr, p, payload))
  {
    hide SessionsFit;
    hide HandlersFit;
    hide ClientSends;
    hide Exchanged;
    hide RequestFits;
    hide ResponseFits;
    hide Field;
    var q := OnPake2(cr, p, payload);
    if q != p {
      var secret := q.stored.secret.value;
      assert Exchanged(cr, p.history.sent, ss, secret.context);
      assert Derived(cr, secret, true);
      if q.history != p.history {
        ClientConfirms(cr, ss, p, secret);
        ClientSendsOn(cr, ss, Confirmed(p, secret), Message(Pake3Op, Pake3Payload(Confirmation(cr, secret))));
        assert q == Send(Confirmed(p, secret), Pake3Op, Pake3Payload(Confirmation(cr, secret)));
      }
    }
  }

  lemma ClientStep(cr: Crypto, sys: System, e: Event)
    requires Fits(cr, sys) && Possible(sys, AtClient(e))
    ensures ClientFits(cr, sys.server.history.sent, Step(cr, sys.client, e))
  {
    hide ClientFits;
    hide HandlersFit;
    var ss, p := sys.server.history.sent, sys.client;
    match e
    case Starts(random, id) => ClientStarts(cr, ss, p, random, id);
    case Receives(m, _, _) =>
      hide ServerSends;
      assert ServerSends(m);
      ClientReceives(cr, ss, p, m, e.random, e.id);
    case Resumes(i, scalar) => ClientResumes(cr, ss, p, i, scalar);
    case Rejects(i) => ClientRejects(cr, ss, p, i);
    case TimesOut(timer) => ClientTimesOut(cr, ss, p, timer);
  }

  lemma ClientReceives(cr: Crypto, ss: seq<Message>, p: Party, m: Message, random: Random, id: SessionId)
    requires ClientFits(cr, ss, p) && m in ss && ServerSends(m)
    ensures ClientFits(cr, ss, OnExchangeMessage(cr, p, m, random, id))
  {
    hide ClientFits;
    hide IsResponse;
    if m.opcode == ParamResponseOp {
      var j: SessionId :| IsResponse(m.payload, j);
      ClientHashes(cr, ss, p, m.payload, j);
    } else if m.opcode == Pake2Op {
      ClientFinishes(cr, ss, p, m.payload);
    }
  }

  lemma ClientRejects(cr: Crypto, ss: seq<Message>, p: Party, i: nat)
    requires ClientFits(cr, ss, p)
    ensures ClientFits(cr, ss, Reject(p, i))
  {
    hide SessionsFit;
    hide ClientSends;
    hide StoredFits;
    hide Exchanged;
  }

  lemma ClientTimesOut(cr: Crypto, ss: seq<Message>, p: Party, timer: nat)
    requires ClientFits(cr, ss, p)
    ensures ClientFits(cr, ss, Timeout(p, timer))
  {
    hide SessionsFit;
    hide ClientSends;
    hide StoredFits;
    hide HandlersFit;
  }

  // ----- the server's steps

  lemma ServerSendsOn(cr: Crypto, cs: seq<Message>, made: seq<Made>, p: Party, m: Message)
    requires ServerFits(cr, cs, made, p) && ServerSends(m)
    ensures ServerFits(cr, cs, made, Send(p, m.opcode, m.payload))
  {
    hide StoredFits;
    hide HandlersFit;
    hide SessionsFit;
    hide ServerSends;
    hide ConfirmedBy;
    var ss, ss2 := p.history.sent, p.history.sent + [m];
    assert Send(p, m.opcode, m.payload).history.sent == ss2;
    StoredGrows(cr, cs, ss, cs, ss2, p.stored);
    HandlersGrow(cr, cs, ss, cs, ss2, p.pending, p.stored.context, true);
    SessionsGrow(cr, cs, ss, cs, ss2, p.history.sessions, false);
  }

  /** What an honest request makes of an idle server. */
  function WithRequest(p: Party, payload: bytes, from: Random, peer: SessionId, random: Random, id: SessionId): Party {
    var response := ResponsePayload(from, random, id);
    Send(SetState(p.(stored := Renewed(p.stored, payload, from, peer, id, response)), AwaitPake1), ParamResponseOp,
         response)
  }

  lemma RequestTaken(p: Party, from: Random, peer: SessionId, random: Random, id: SessionId)
    requires p.state == Idle && p.stored.iterations == Num(ITERATIONS)
    ensures OnPbkdfParamRequest(p, RequestPayload(from, peer), random, id)
            == WithRequest(p, RequestPayload(from, peer), from, peer, random, id)
  {
    hide Members;
    hide Tagged;
    hide Hex;
    hide Send;
    hide SetState;
    RequestParses(from, peer);
    TemplatesWrite(from, random, id);
  }

  lemma ExchangeStored(cr: Crypto, cs: seq<Message>, ss: seq<Message>, s: Stored, t: Stored)
    requires StoredFits(cr, cs, ss, s)
    requires t.request.Some? && t.response.Some?
    requires RequestFits(cs, t.request, t.initiatorSessionId) && ResponseFits(ss, t.response, t.responderSessionId)
    requires t.context == s.context && t.client == s.client && t.secret == s.secret
    ensures StoredFits(cr, cs, ss, t)
  {
    hide Exchanged;
    hide IsRequest;
    hide IsResponse;
  }

  lemma RequestStored(cr: Crypto, cs: seq<Message>, made: seq<Made>, p: Party, payload: bytes, from: Random,
                      peer: SessionId,
                      random: Random, id: SessionId)
    requires ServerFits(cr, cs, made, p) && RequestFits(cs, Some(payload), Num(peer))
    ensures ServerFits(cr, cs, made, WithRequest(p, payload, from, peer, random, id))
  {
    hide ServerFits;
    hide WithRequest;
    var response := ResponsePayload(from, random, id);
    OwnResponse(from, random, id);
    hide ResponsePayload;
    assert ServerSends(Message(ParamResponseOp, response));
    hide ServerSends;
    hide IsResponse;
    ServerSendsOn(cr, cs, made, p, Message(ParamResponseOp, response));
    var q := Send(p, ParamResponseOp, response);
    assert q.history.sent[|p.history.sent|] == Message(ParamResponseOp, response);
    StoredAnew(cr, cs, made, q, payload, from, peer, id, response);
    SendThenStore(p, payload, from, peer, random, id);
  }

  lemma SendThenStore(p: Party, payload: bytes, from: Random, peer: SessionId, random: Random, id: SessionId)
    ensures var q := Send(p, ParamResponseOp, ResponsePayload(from, random, id));
            WithRequest(p, payload, from, peer, random, id)
            == SetState(q.(stored := Renewed(p.stored, payload, from, peer, id, ResponsePayload(from, random, id))),
                        AwaitPake1)
  {
  }

  function Renewed(s: Stored, payload: bytes, from: Random, peer: SessionId, id: SessionId, response: bytes): Stored {
    s.(initiatorRandom := Buf(from), initiatorSessionId := Num(peer), initiator := false,
       request := Some(payload), responderSessionId := Num(id), response := Some(response))
  }

  lemma StoredAnew(cr: Crypto, cs: seq<Message>, made: seq<Made>, p: Party, payload: bytes, from: Random,
                   peer: SessionId,
                   id: SessionId, response: bytes)
    requires ServerFits(cr, cs, made, p)
    requires RequestFits(cs, Some(payload), Num(peer)) && ResponseFits(p.history.sent, Some(response), Num(id))
    ensures ServerFits(cr, cs, made,
                       SetState(p.(stored := Renewed(p.stored, payload, from, peer, id, response)), AwaitPake1))
  {
    hide ServerSends;
    hide StoredFits;
    hide RequestFits;
    hide ResponseFits;
    hide HandlersFit;
    hide SessionsFit;
    hide ConfirmedBy;
    ExchangeStored(cr, cs, p.history.sent, p.stored, Renewed(p.stored, payload, from, peer, id, response));
  }

  lemma OwnResponse(from: Random, random: Random, id: SessionId)
    ensures IsResponse(ResponsePayload(from, random, id), id)
  {
  }

  lemma ServerAnswers(cr: Crypto, cs: seq<Message>, made: seq<Made>, p: Party, payload: bytes, random: Random,
                      id: SessionId)
    requires ServerFits(cr, cs, made, p) && Message(ParamRequestOp, payload) in cs
    requires exists peer: SessionId :: IsRequest(payload, peer)
    ensures ServerFits(cr, cs, made, OnPbkdfParamRequest(p, payload, random, id))
  {
    hide OnPbkdfParamRequest;
    hide WithRequest;
    hide StoredFits;
    hide HandlersFit;
    hide SessionsFit;
    hide ServerSends;
    if p.state == Idle {
      var peer: SessionId :| IsRequest(payload, peer);
      var from: Random :| payload == RequestPayload(from, peer);
      RequestTaken(p, from, peer, random, id);
      RequestStored(cr, cs, made, p, payload, from, peer, random, id);
    } else {
      IdleOnly(p, payload, random, id);
    }
  }

  lemma IdleOnly(p: Party, payload: bytes, random: Random, id: SessionId)
    requires p.state != Idle
    ensures OnPbkdfParamRequest(p, payload, random, id) == p
  {
  }

  lemma ServerHashes(cr: Crypto, cs: seq<Message>, made: seq<Made>, p: Party, payload: bytes)
    requires ServerFits(cr, cs, made, p)
    ensures ServerFits(cr, cs, made, OnPake1(cr, p, payload))
  {
    hide SessionsFit;
    hide ConfirmedBy;
    hide ServerSends;
    hide Context;
    hide IsRequest;
    hide IsResponse;
    hide Field;
    hide ToStringHex;
    hide Verifier;
  }

  lemma ServerResumes(cr: Crypto, cs: seq<Message>, made: seq<Made>, p: Party, i: nat, scalar: bytes)
    requires ServerFits(cr, cs, made, p)
    ensures ServerFits(cr, cs, made, Resume(cr, p, i, scalar))
  {
    hide SessionsFit;
    hide ConfirmedBy;
    hide ServerSends;
    hide Exchanged;
    hide RequestFits;
    hide ResponseFits;
    hide ServerFinish;
    if i < |p.pending| {
      var h := p.pending[i];
      assert h in p.pending && IsServerHandler(h);
      if h.ServerStarts? {
        var q := p.(pending := Drop(p.pending, i));
        ServerFinishes(cr, cs, made, q, h.context, h.verifier, h.scalar);
      }
    }
  }

  lemma ServerFinishes(cr: Crypto, cs: seq<Message>, made: seq<Made>, p: Party, context: bytes, verifier: bytes,
                       scalar: bytes)
    requires ServerFits(cr, cs, made, p) && p.stored.context.Some? && Exchanged(cr, cs, p.history.sent, context)
    ensures ServerFits(cr, cs, made, ServerFinish(cr, p, context, verifier, scalar))
  {
    hide SessionsFit;
    hide ConfirmedBy;
    hide Exchanged;
    hide RequestFits;
    hide ResponseFits;
    hide HandlersFit;
    hide Pake2Of;
    var q := ServerFinish(cr, p, context, verifier, scalar);
    if q != p {
      var secret := q.stored.secret.value;
      var r := SetState(p.(stored := p.stored.(secret := Some(secret))), AwaitPake3);
      ServerSendsOn(cr, cs, made, r, Message(Pake2Op, Pake2Of(cr, secret)));
    }
  }

  /** A Pake3 that the server accepts confirms one of the client's secrets. */
  lemma ServerAccepts(cr: Crypto, cs: seq<Message>, made: seq<Made>, p: Party, payload: bytes)
    requires ServerFits(cr, cs, made, p) && ClientSends(cr, Message(Pake3Op, payload), made)
    ensures ServerFits(cr, cs, made, OnPake3(cr, p, payload))
  {
    hide HandlersFit;
    hide IsRequest;
    hide IsResponse;
    hide Exchanged;
    hide Field;
    hide Confirmation;
    if OnPake3(cr, p, payload) != p {
      var secret := p.stored.secret.value;
      ConfirmationIs(cr, secret);
      assert Field(payload, 0) == Ok(Buf(Confirmation(cr, secret)));
      var c :| c in made && payload == Pake3Payload(Confirmation(cr, c.secret));
      Pake3Parses(Confirmation(cr, c.secret));
      assert ConfirmedBy(cr, Confirmation(cr, secret), made);
      ServerSendsOn(cr, cs, made, p, Message(StatusReportOp, SUCCESS_REPORT));
      var q := Send(p, StatusReportOp, SUCCESS_REPORT);
      ServerMakes(cr, cs, made, q);
    }
  }

  lemma ConfirmationIs(cr: Crypto, s: Secret)
    ensures Confirmation(cr, s) == cr.mac(s.keys.kcA, s.pB)
  {
  }

  lemma ServerMakes(cr: Crypto, cs: seq<Message>, made: seq<Made>, p: Party)
    requires ServerFits(cr, cs, made, p) && p.stored.secret.Some?
    requires ConfirmedBy(cr, Confirmation(cr, p.stored.secret.value), made)
    ensures ServerFits(cr, cs, made, SetState(CreateSecureSession(p), Idle))
  {
    hide HandlersFit;
    hide IsRequest;
    hide IsResponse;
    hide Exchanged;
    hide ConfirmedBy;
    hide Confirmation;
    hide ServerSends;
    var q, s := CreateSecureSession(p), p.stored;
    var m := Made(s.responderSessionId, s.initiatorSessionId, s.secret.value, s.request, s.response);
    assert q.history.sessions == p.history.sessions + [m];
    assert SessionFits(cr, cs, p.history.sent, m, false);
  }

  lemma ServerReceives(cr: Crypto, cs: seq<Message>, made: seq<Made>, p: Party, m: Message, random: Random,
                       id: SessionId)
    requires ServerFits(cr, cs, made, p) && m in cs && ClientSends(cr, m, made)
    ensures ServerFits(cr, cs, made, OnExchangeMessage(cr, p, m, random, id))
  {
    hide ServerFits;
    hide IsRequest;
    if m.opcode == ParamRequestOp {
      ServerAnswers(cr, cs, made, p, m.payload, random, id);
    } else if m.opcode == Pake1Op {
      ServerHashes(cr, cs, made, p, m.payload);
    } else {
      ServerAccepts(cr, cs, made, p, m.payload);
    }
  }

  lemma ServerRejects(cr: Crypto, cs: seq<Message>, made: seq<Made>, p: Party, i: nat)
    requires ServerFits(cr, cs, made, p)
    ensures ServerFits(cr, cs, made, Reject(p, i))
  {
    hide SessionsFit;
    hide ServerSends;
    hide StoredFits;
    hide Exchanged;
    hide ConfirmedBy;
  }

  lemma ServerTimesOut(cr: Crypto, cs: seq<Message>, made: seq<Made>, p: Party, timer: nat)
    requires ServerFits(cr, cs, made, p)
    ensures ServerFits(cr, cs, made, Timeout(p, timer))
  {
    hide SessionsFit;
    hide ServerSends;
    hide StoredFits;
    hide HandlersFit;
    hide ConfirmedBy;
  }

  lemma ServerStep(cr: Crypto, sys: System, e: Event)
    requires Fits(cr, sys) && Possible(sys, AtServer(e))
    ensures ServerFits(cr, sys.client.history.sent, sys.client.history.sessions, Step(cr, sys.server, e))
  {
    hide ServerFits;
    hide HandlersFit;
    hide ClientSends;
    var cs, made, p := sys.client.history.sent, sys.client.history.sessions, sys.server;
    match e
    case Receives(m, random, id) => ServerReceives(cr, cs, made, p, m, random, id);
    case Resumes(i, scalar) => ServerResumes(cr, cs, made, p, i, scalar);
    case Rejects(i) => ServerRejects(cr, cs, made, p, i);
    case TimesOut(timer) => ServerTimesOut(cr, cs, made, p, timer);
  }

  // ----- runs

  /** What is sent and made stays. */
  predicate Grown(p: Party, q: Party) {
    p.history.sent <= q.history.sent && p.history.sessions <= q.history.sessions
  }

  lemma RequestGrows(p: Party, payload: bytes, random: Random, id: SessionId)
    ensures Grown(p, OnPbkdfParamRequest(p, payload, random, id))
  {
    hide Members;
    hide Tagged;
    hide EncodeForest;
    hide ToStringHex;
    hide Hex;
    hide SetTimeout;
    hide ClearTimeout;
  }

  lemma ResponseGrows(cr: Crypto, p: Party, payload: bytes)
    ensures Grown(p, OnPbkdfParamResponse(cr, p, payload))
  {
    hide Members;
    hide Tagged;
    hide At;
    hide Hashed;
    hide Verifier;
  }

  lemma PakeGrows(cr: Crypto, p: Party, payload: bytes)
    ensures Grown(p, OnPake1(cr, p, payload)) && Grown(p, OnPake2(cr, p, payload)) && Grown(p, OnPake3(cr, p, payload))
  {
    hide Field;
    hide Hashed;
    hide Verifier;
    hide ToStringHex;
    hide SetTimeout;
    hide ClearTimeout;
  }

  lemma ResumeGrows(cr: Crypto, p: Party, i: nat, scalar: bytes)
    ensures Grown(p, Resume(cr, p, i, scalar))
  {
    hide Pake2Of;
    hide Hex;
    hide SetTimeout;
    hide ClearTimeout;
  }

  lemma HistoryGrows(cr: Crypto, p: Party, e: Event)
    ensures Grown(p, Step(cr, p, e))
  {
    hide OnPbkdfParamRequest;
    hide OnPbkdfParamResponse;
    hide OnPake1;
    hide OnPake2;
    hide OnPake3;
    hide Resume;
    match e
    case Receives(m, random, id) =>
      RequestGrows(p, m.payload, random, id);
      ResponseGrows(cr, p, m.payload);
      PakeGrows(cr, p, m.payload);
    case Resumes(i, scalar) => ResumeGrows(cr, p, i, scalar);
    case _ =>
  }

  lemma FitsStep(cr: Crypto, sys: System, a: Act)
    requires Fits(cr, sys) && Possible(sys, a)
    ensures Fits(cr, Next(cr, sys, a))
  {
    hide ClientFits;
    hide ServerFits;
    hide Step;
    match a
    case AtClient(e) =>
      ClientStep(cr, sys, e);
      HistoryGrows(cr, sys.client, e);
      var q := Step(cr, sys.client, e);
      ServerGrows(cr, sys.client.history.sent, q.history.sent, sys.client.history.sessions, q.history.sessions,
                  sys.server);
    case AtServer(e) =>
      ServerStep(cr, sys, e);
      HistoryGrows(cr, sys.server, e);
      ClientGrows(cr, sys.server.history.sent, Step(cr, sys.server, e).history.sent, sys.client);
  }

  lemma {:induction false} RunFits(cr: Crypto, acts: seq<Act>)
    requires Honest(cr, acts)
    ensures Fits(cr, After(cr, acts))
  {
    if acts != [] {
      var n := |acts| - 1;
      HonestPrefix(cr, acts);
      RunFits(cr, acts[..n]);
      FitsStep(cr, After(cr, acts[..n]), acts[n]);
    }
  }

  lemma HonestPrefix(cr: Crypto, acts: seq<Act>)
    requires Honest(cr, acts) && acts != []
    ensures Honest(cr, acts[..|acts| - 1])
  {
    var before := acts[..|acts| - 1];
    forall i | 0 <= i < |before|
      ensures Possible(After(cr, before[..i]), before[i])
    {
      assert before[..i] == acts[..i];
    }
  }
}
