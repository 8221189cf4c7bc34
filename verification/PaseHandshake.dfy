/** The PASE handshake carried through, undisturbed and overtaken. */
module PaseHandshake {
  import opened Bytes
  import opened Tlv
  import opened TlvAccess
  import opened PaseMessages
  import opened Pase
  import opened PaseRun
  import opened PaseAgreement

  function OwnVerifier(cr: Crypto): bytes {
    cr.verifier(ITERATIONS, SALT)
  }

  /** SPAKE2+ with honest shares derives keys, and both ends the same. */
  ghost predicate Succeeds(cr: Crypto) {
    Agrees(cr) && forall context, w, x, y :: cr.clientKeys(context, w, x, cr.shareB(w, y)).Some?
  }

  function ClientSecret(cr: Crypto, context: bytes, x: bytes, y: bytes): Secret
    requires cr.clientKeys(context, OwnVerifier(cr), x, cr.shareB(OwnVerifier(cr), y)).Some?
  {
    var w := OwnVerifier(cr);
    Secret(cr.clientKeys(context, w, x, cr.shareB(w, y)).value, context, w, cr.shareA(w, x), cr.shareB(w, y))
  }

  // ----- the client's and the server's part

  /** The client's two resumptions. */
  lemma ClientExchanges(cr: Crypto, p: Party, context: bytes, x: bytes)
    requires p.pending == [ClientVerifies(OwnVerifier(cr))] && p.stored.context == Some(context)
    ensures var w := OwnVerifier(cr);
            var q := Resume(cr, Resume(cr, p, 0, x), 0, x);
            && q.state == AwaitPake2 && q.pending == [] && q.stored.client == Some(Client(context, w, x))
            && q.stored == p.stored.(client := q.stored.client, pA := q.stored.pA)
            && q.history == Send(p, Pake1Op, Pake1Payload(cr.shareA(w, x))).history
  {
    hide Pake1Payload;
    hide Hex;
    hide SetTimeout;
    var q := Resume(cr, p, 0, x);
    assert Drop(p.pending, 0) == [];
    assert q.pending == [ClientStarts(context, OwnVerifier(cr), x)];
    assert Drop(q.pending, 0) == [];
  }

  lemma ServerTakesPake1(cr: Crypto, p: Party, request: bytes, response: bytes, pA: Short)
    requires p.state == AwaitPake1 && p.pending == []
    requires p.stored.request == Some(request) && p.stored.response == Some(response)
    requires p.stored.iterations == Num(ITERATIONS) && p.stored.salt == Str(SALT)
    ensures var q := OnPake1(cr, p, Pake1Payload(pA));
            && q.state == AwaitPake1 && q.pending == [ServerVerifies(OwnVerifier(cr))]
            && q.stored == p.stored.(context := Some(Context(cr, request, response)), pA := Buf(pA))
            && q.history.sent == p.history.sent && q.history.sessions == p.history.sessions
  {
    hide Field;
    hide Context;
    hide Pake1Payload;
    Pake1Parses(pA);
  }

  lemma ServerExchanges(cr: Crypto, p: Party, context: bytes, pA: Short, x: bytes, y: bytes)
    requires p.pending == [ServerVerifies(OwnVerifier(cr))] && p.stored.context == Some(context)
    requires p.stored.pA == Buf(pA)
    requires Succeeds(cr) && pA == cr.shareA(OwnVerifier(cr), x)
    ensures var secret := ClientSecret(cr, context, x, y);
            var q := Resume(cr, Resume(cr, p, 0, y), 0, y);
            && q.state == AwaitPake3 && q.pending == [] && q.stored == p.stored.(secret := Some(secret))
            && q.history == Send(p, Pake2Op, Pake2Of(cr, secret)).history
  {
    hide Pake2Of;
    hide SetTimeout;
    var q, w := Resume(cr, p, 0, y), OwnVerifier(cr);
    assert Drop(p.pending, 0) == [];
    assert q.pending == [ServerStarts(context, w, y)];
    assert Drop(q.pending, 0) == [];
    assert cr.clientKeys(context, w, x, cr.shareB(w, y)) == cr.serverKeys(context, w, y, cr.shareA(w, x));
  }

  lemma ClientTakesPake2(cr: Crypto, p: Party, context: bytes, x: bytes, y: bytes)
    requires Succeeds(cr) && p.state == AwaitPake2 && p.stored.client == Some(Client(context, OwnVerifier(cr), x))
    requires p.stored.initiator
    ensures var secret := ClientSecret(cr, context, x, y);
            var s, q := p.stored, OnPake2(cr, p, Pake2Of(cr, secret));
            && q.history.sessions
               == p.history.sessions + [Made(s.initiatorSessionId, s.responderSessionId, secret, s.request, s.response)]
            && q.history.sent == p.history.sent + [Message(Pake3Op, Pake3Payload(Confirmation(cr, secret)))]
  {
    hide Field;
    hide Pake2Payload;
    hide Pake3Payload;
    var secret := ClientSecret(cr, context, x, y);
    Pake2Parses(secret.pB, cr.mac(secret.keys.kcB, secret.pA));
  }

  lemma ServerTakesPake3(cr: Crypto, p: Party, secret: Secret)
    requires p.state == AwaitPake3 && p.stored.secret == Some(secret) && !p.stored.initiator
    ensures var s, q := p.stored, OnPake3(cr, p, Pake3Payload(Confirmation(cr, secret)));
            q.history.sessions
            == p.history.sessions + [Made(s.responderSessionId, s.initiatorSessionId, secret, s.request, s.response)]
    ensures Within(p.history.sent, OnPake3(cr, p, Pake3Payload(Confirmation(cr, secret))).history.sent)
  {
    hide Field;
    hide Pake3Payload;
    Pake3Parses(Confirmation(cr, secret));
  }

  // ----- the run

  lemma Extend(cr: Crypto, acts: seq<Act>, a: Act)
    requires Honest(cr, acts) && Possible(After(cr, acts), a)
    ensures Honest(cr, acts + [a]) && After(cr, acts + [a]) == Next(cr, After(cr, acts), a)
  {
    var all := acts + [a];
    assert all[..|acts|] == acts;
    forall i | 0 <= i < |all|
      ensures Possible(After(cr, all[..i]), all[i])
    {
      if i < |acts| {
        assert all[..i] == acts[..i];
      }
    }
  }

  /** The client times out and starts again while its handler of the response is suspended. */
  function Overtaking(random: Random, id: SessionId): seq<Act> {
    [AtClient(TimesOut(0)), AtClient(Starts(random, id))]
  }

  function Opening(r: Random, i: SessionId, random: Random, id: SessionId): seq<Act> {
    [AtClient(Starts(r, i)),
     AtServer(Receives(Message(ParamRequestOp, RequestPayload(r, i)), random, id)),
     AtClient(Receives(Message(ParamResponseOp, ResponsePayload(r, random, id)), random, id))]
  }

  /** The client goes on to its Pake1. */
  function Offer(x: bytes): seq<Act> {
    [AtClient(Resumes(0, x)), AtClient(Resumes(0, x))]
  }

  /** The server takes Pake1 and goes on to its Pake2. */
  function Answer(cr: Crypto, x: bytes, y: bytes, random: Random, id: SessionId): seq<Act> {
    [AtServer(Receives(Message(Pake1Op, Pake1Payload(cr.shareA(OwnVerifier(cr), x))), random, id)),
     AtServer(Resumes(0, y)), AtServer(Resumes(0, y))]
  }

  /** The client takes Pake2 and the server Pake3. */
  function Confirm(cr: Crypto, secret: Secret, random: Random, id: SessionId): seq<Act> {
    [AtClient(Receives(Message(Pake2Op, Pake2Of(cr, secret)), random, id)),
     AtServer(Receives(Message(Pake3Op, Pake3Payload(Confirmation(cr, secret))), random, id))]
  }

  /** From the client's suspended handler to the last message. */
  function Closing(cr: Crypto, context: bytes, x: bytes, y: bytes, random: Random, id: SessionId): seq<Act>
    requires cr.clientKeys(context, OwnVerifier(cr), x, cr.shareB(OwnVerifier(cr), y)).Some?
  {
    Offer(x) + Answer(cr, x, y, random, id) + Confirm(cr, ClientSecret(cr, context, x, y), random, id)
  }

  /** Both parties are ready for Pake1, the client with its handler of the response suspended. */
  predicate Opened(cr: Crypto, sys: System, request: bytes, response: bytes) {
    && sys.client.pending == [ClientVerifies(OwnVerifier(cr))]
    && sys.client.stored.context == Some(Context(cr, request, response))
    && sys.client.stored.initiator && !sys.server.stored.initiator
    && sys.server.state == AwaitPake1 && sys.server.pending == []
    && sys.server.stored.request == Some(request) && sys.server.stored.response == Some(response)
    && sys.server.stored.iterations == Num(ITERATIONS) && sys.server.stored.salt == Str(SALT)
  }

  lemma Offers(cr: Crypto, acts: seq<Act>, context: bytes, x: bytes)
    requires Honest(cr, acts)
    requires After(cr, acts).client.pending == [ClientVerifies(OwnVerifier(cr))]
    requires After(cr, acts).client.stored.context == Some(context)
    ensures var w, sys, next := OwnVerifier(cr), After(cr, acts), After(cr, acts + Offer(x));
            && Honest(cr, acts + Offer(x)) && next.server == sys.server
            && next.client.state == AwaitPake2 && next.client.stored.client == Some(Client(context, w, x))
            && next.client.stored
                == sys.client.stored.(client := next.client.stored.client, pA := next.client.stored.pA)
            && next.client.history.sessions == sys.client.history.sessions
            && Message(Pake1Op, Pake1Payload(cr.shareA(w, x))) in next.client.history.sent
  {
    hide After;
    hide Honest;
    hide Resume;
    hide Pake1Payload;
    var sys, more := After(cr, acts), Offer(x);
    Extend(cr, acts, more[0]);
    Extend(cr, acts + [more[0]], more[1]);
    ClientExchanges(cr, sys.client, context, x);
    LastSent(sys.client, Pake1Op, Pake1Payload(cr.shareA(OwnVerifier(cr), x)));
    assert acts + more == acts + [more[0]] + [more[1]];
  }

  lemma Answers(cr: Crypto, acts: seq<Act>, request: bytes, response: bytes, x: bytes, y: bytes, random: Random,
                id: SessionId)
    requires Honest(cr, acts) && Succeeds(cr)
    requires var p := After(cr, acts).server;
             && p.state == AwaitPake1 && p.pending == []
             && p.stored.request == Some(request) && p.stored.response == Some(response)
             && p.stored.iterations == Num(ITERATIONS) && p.stored.salt == Str(SALT)
    requires Message(Pake1Op, Pake1Payload(cr.shareA(OwnVerifier(cr), x))) in After(cr, acts).client.history.sent
    ensures var secret := ClientSecret(cr, Context(cr, request, response), x, y);
            var more := Answer(cr, x, y, random, id);
            var sys, next := After(cr, acts), After(cr, acts + more);
            && Honest(cr, acts + more) && next.client == sys.client
            && next.server.state == AwaitPake3 && next.server.stored.secret == Some(secret)
            && next.server.stored == sys.server.stored.(secret := Some(secret), context := next.server.stored.context,
                                                        pA := next.server.stored.pA)
            && next.server.history.sessions == sys.server.history.sessions
            && Message(Pake2Op, Pake2Of(cr, secret)) in next.server.history.sent
  {
    hide After;
    hide Honest;
    hide Resume;
    hide OnPake1;
    hide Context;
    hide Pake1Payload;
    hide Pake2Of;
    var w, sys, more := OwnVerifier(cr), After(cr, acts), Answer(cr, x, y, random, id);
    var context, pA := Context(cr, request, response), cr.shareA(w, x);
    Extend(cr, acts, more[0]);
    ServerTakesPake1(cr, sys.server, request, response, pA);
    var p := OnPake1(cr, sys.server, Pake1Payload(pA));
    Extend(cr, acts + [more[0]], more[1]);
    Extend(cr, acts + [more[0]] + [more[1]], more[2]);
    ServerExchanges(cr, p, context, pA, x, y);
    LastSent(p, Pake2Op, Pake2Of(cr, ClientSecret(cr, context, x, y)));
    assert acts + more == acts + [more[0]] + [more[1]] + [more[2]];
  }

  lemma Confirms(cr: Crypto, acts: seq<Act>, context: bytes, x: bytes, y: bytes, random: Random, id: SessionId)
    requires Honest(cr, acts) && Succeeds(cr)
    requires var c, s, secret := After(cr, acts).client, After(cr, acts).server, ClientSecret(cr, context, x, y);
             && c.state == AwaitPake2 && c.stored.client == Some(Client(context, OwnVerifier(cr), x))
                 && c.stored.initiator
             && s.state == AwaitPake3 && s.stored.secret == Some(secret) && !s.stored.initiator
             && Message(Pake2Op, Pake2Of(cr, secret)) in s.history.sent
    ensures var secret := ClientSecret(cr, context, x, y);
            var all := acts + Confirm(cr, secret, random, id);
            var c, s := After(cr, acts).client, After(cr, acts).server;
            && Honest(cr, all)
            && After(cr, all).client.history.sessions == c.history.sessions
                 + [Made(c.stored.initiatorSessionId, c.stored.responderSessionId, secret, c.stored.request,
                         c.stored.response)]
            && After(cr, all).server.history.sessions == s.history.sessions
                 + [Made(s.stored.responderSessionId, s.stored.initiatorSessionId, secret, s.stored.request,
                         s.stored.response)]
            && Within(c.history.sent, After(cr, all).client.history.sent)
            && Within(s.history.sent, After(cr, all).server.history.sent)
            && Message(Pake3Op, Pake3Payload(Confirmation(cr, secret))) in After(cr, all).client.history.sent
  {
    hide After;
    hide Honest;
    hide OnPake2;
    hide OnPake3;
    hide Pake2Of;
    hide Pake3Payload;
    hide Confirmation;
    var sys, secret := After(cr, acts), ClientSecret(cr, context, x, y);
    var more := Confirm(cr, secret, random, id);
    Extend(cr, acts, more[0]);
    ClientTakesPake2(cr, sys.client, context, x, y);
    var q := OnPake2(cr, sys.client, Pake2Of(cr, secret));
    assert q.history.sent[|sys.client.history.sent|] == Message(Pake3Op, Pake3Payload(Confirmation(cr, secret)));
    Extend(cr, acts + [more[0]], more[1]);
    ServerTakesPake3(cr, sys.server, secret);
    assert acts + more == acts + [more[0]] + [more[1]];
  }

  lemma Closes(cr: Crypto, acts: seq<Act>, request: bytes, response: bytes, x: bytes, y: bytes, random: Random,
               id: SessionId)
    requires Honest(cr, acts) && Succeeds(cr) && Opened(cr, After(cr, acts), request, response)
    ensures var context := Context(cr, request, response);
            var secret := ClientSecret(cr, context, x, y);
            var all := acts + Closing(cr, context, x, y, random, id);
            var c, s := After(cr, acts).client, After(cr, acts).server;
            && Honest(cr, all)
            && After(cr, all).client.history.sessions == c.history.sessions
                 + [Made(c.stored.initiatorSessionId, c.stored.responderSessionId, secret, c.stored.request,
                         c.stored.response)]
            && After(cr, all).server.history.sessions == s.history.sessions
                 + [Made(s.stored.responderSessionId, s.stored.initiatorSessionId, secret, Some(request),
                         Some(response))]
            && Message(Pake1Op, Pake1Payload(cr.shareA(OwnVerifier(cr), x))) in After(cr, all).client.history.sent
            && Message(Pake2Op, Pake2Of(cr, secret)) in After(cr, all).server.history.sent
            && Message(Pake3Op, Pake3Payload(Confirmation(cr, secret))) in After(cr, all).client.history.sent
  {
    hide After;
    hide Honest;
    hide Context;
    hide Offer;
    hide Answer;
    hide Confirm;
    hide ClientSecret;
    var context := Context(cr, request, response);
    Offers(cr, acts, context, x);
    var offered := acts + Offer(x);
    Answers(cr, offered, request, response, x, y, random, id);
    var answered := offered + Answer(cr, x, y, random, id);
    Confirms(cr, answered, context, x, y, random, id);
    var more := Confirm(cr, ClientSecret(cr, context, x, y), random, id);
    assert acts + (Offer(x) + Answer(cr, x, y, random, id) + more) == answered + more;
  }

  lemma LastSent(p: Party, opcode: Opcode, payload: bytes)
    ensures Message(opcode, payload) in Send(p, opcode, payload).history.sent
  {
    assert Send(p, opcode, payload).history.sent[|p.history.sent|] == Message(opcode, payload);
  }

  /** The parties after the opening. */
  function OpenedClient(cr: Crypto, r: Random, i: SessionId, random: Random, id: SessionId): Party {
    WithResponse(cr, StartPase(FRESH, r, i), ResponsePayload(r, random, id), id)
  }

  function OpenedServer(r: Random, i: SessionId, random: Random, id: SessionId): Party {
    WithRequest(FRESH, RequestPayload(r, i), r, i, random, id)
  }

  lemma OpensTo(cr: Crypto, r: Random, i: SessionId, random: Random, id: SessionId)
    ensures Honest(cr, Opening(r, i, random, id))
    ensures After(cr, Opening(r, i, random, id))
            == System(OpenedClient(cr, r, i, random, id), OpenedServer(r, i, random, id))
  {
    hide Context;
    hide Honest;
    hide After;
    hide OnPbkdfParamRequest;
    hide OnPbkdfParamResponse;
    hide StartPase;
    hide WithRequest;
    hide WithResponse;
    hide RequestPayload;
    hide ResponsePayload;
    var more := Opening(r, i, random, id);
    var request, response := RequestPayload(r, i), ResponsePayload(r, random, id);
    NothingIsHonest(cr);
    Extend(cr, [], more[0]);
    assert [] + [more[0]] == [more[0]];
    StartSends(r, i);
    Extend(cr, [more[0]], more[1]);
    RequestTaken(FRESH, r, i, random, id);
    RequestAnswered(r, i, random, id);
    Extend(cr, [more[0]] + [more[1]], more[2]);
    OwnResponse(r, random, id);
    ResponseTaken(cr, StartPase(FRESH, r, i), response, id);
    assert more == [more[0]] + [more[1]] + [more[2]];
  }

  lemma StartSends(r: Random, i: SessionId)
    ensures Message(ParamRequestOp, RequestPayload(r, i)) in StartPase(FRESH, r, i).history.sent
  {
    LastSent(FRESH, ParamRequestOp, RequestPayload(r, i));
  }

  lemma RequestAnswered(r: Random, i: SessionId, random: Random, id: SessionId)
    ensures Message(ParamResponseOp, ResponsePayload(r, random, id)) in OpenedServer(r, i, random, id).history.sent
  {
    LastSent(FRESH, ParamResponseOp, ResponsePayload(r, random, id));
  }

  lemma OpensWith(cr: Crypto, r: Random, i: SessionId, random: Random, id: SessionId)
    ensures var acts, sys := Opening(r, i, random, id), After(cr, Opening(r, i, random, id));
            var request, response := RequestPayload(r, i), ResponsePayload(r, random, id);
            && Honest(cr, acts) && Opened(cr, sys, request, response)
            && sys.client.state == AwaitPbkdfParamRsp && sys.client.timers == Timers({0}, Some(0), 1)
            && sys.client.stored.initiatorSessionId == Num(i) && sys.client.stored.responderSessionId == Num(id)
            && sys.server.stored.initiatorSessionId == Num(i) && sys.server.stored.responderSessionId == Num(id)
            && sys.client.stored.request == Some(request) && sys.client.stored.response == Some(response)
            && sys.client.history.sessions == [] && sys.server.history.sessions == []
  {
    hide Context;
    hide Honest;
    hide After;
    hide RequestPayload;
    hide ResponsePayload;
    hide Opening;
    OpensTo(cr, r, i, random, id);
  }

  lemma NothingIsHonest(cr: Crypto)
    ensures Honest(cr, []) && After(cr, []) == START
  {
  }

  /** Both shares and both confirmations were sent: the server's is what the client computes from its own share and
      the server's confirmation key, the client's what the server computes. */
  predicate BothConfirmed(cr: Crypto, sys: System, secret: Secret) {
    && (exists m :: m in sys.client.history.sent && m.opcode == Pake1Op && Field(m.payload, 0) == Ok(Buf(secret.pA)))
    && (exists m :: m in sys.server.history.sent && m.opcode == Pake2Op && Field(m.payload, 0) == Ok(Buf(secret.pB))
                    && Field(m.payload, 1) == Ok(Buf(cr.mac(secret.keys.kcB, secret.pA))))
    && (exists m :: m in sys.client.history.sent && m.opcode == Pake3Op
                    && Field(m.payload, 0) == Ok(Buf(cr.mac(secret.keys.kcA, secret.pB))))
  }

  /** Without loss or disturbance both make a session, under crossed ids, with the same secret. */
  lemma HandshakeCompletes(cr: Crypto, r: Random, i: SessionId, random: Random, id: SessionId, x: bytes, y: bytes)
    requires Succeeds(cr)
    ensures var request, response := RequestPayload(r, i), ResponsePayload(r, random, id);
            var context := Context(cr, request, response);
            var secret := ClientSecret(cr, context, x, y);
            var acts := Opening(r, i, random, id) + Closing(cr, context, x, y, random, id);
            && Honest(cr, acts)
            && After(cr, acts).client.history.sessions == [Made(Num(i), Num(id), secret, Some(request), Some(response))]
            && After(cr, acts).server.history.sessions == [Made(Num(id), Num(i), secret, Some(request), Some(response))]
            && BothConfirmed(cr, After(cr, acts), secret)
            && secret.pA == cr.shareA(OwnVerifier(cr), x) && secret.pB == cr.shareB(OwnVerifier(cr), y)
            && Some(secret.keys) == cr.clientKeys(context, OwnVerifier(cr), x, secret.pB)
            && Some(secret.keys) == cr.serverKeys(context, OwnVerifier(cr), y, secret.pA)
  {
    hide After;
    hide Honest;
    hide Context;
    hide RequestPayload;
    hide ResponsePayload;
    hide Opening;
    hide Closing;
    hide ClientSecret;
    OpensWith(cr, r, i, random, id);
    Closes(cr, Opening(r, i, random, id), RequestPayload(r, i), ResponsePayload(r, random, id), x, y, random, id);
    var context := Context(cr, RequestPayload(r, i), ResponsePayload(r, random, id));
    SecretHolds(cr, context, x, y);
    var all := Opening(r, i, random, id) + Closing(cr, context, x, y, random, id);
    MessagesConfirm(cr, After(cr, all), ClientSecret(cr, context, x, y));
  }

  lemma SecretHolds(cr: Crypto, context: bytes, x: bytes, y: bytes)
    requires Succeeds(cr)
    ensures var w, s := OwnVerifier(cr), ClientSecret(cr, context, x, y);
            && s.pA == cr.shareA(w, x) && s.pB == cr.shareB(w, y)
            && cr.clientKeys(context, w, x, s.pB) == Some(s.keys) == cr.serverKeys(context, w, y, s.pA)
  {
    var w := OwnVerifier(cr);
    assert cr.clientKeys(context, w, x, cr.shareB(w, y)) == cr.serverKeys(context, w, y, cr.shareA(w, x));
  }

  lemma MessagesConfirm(cr: Crypto, sys: System, secret: Secret)
    requires exists pA: Short :: pA == secret.pA && Message(Pake1Op, Pake1Payload(pA)) in sys.client.history.sent
    requires Message(Pake2Op, Pake2Of(cr, secret)) in sys.server.history.sent
    requires Message(Pake3Op, Pake3Payload(cr.mac(secret.keys.kcA, secret.pB))) in sys.client.history.sent
    ensures BothConfirmed(cr, sys, secret)
  {
    hide Field;
    hide Pake1Payload;
    hide Pake2Payload;
    hide Pake3Payload;
    hide Pake2Of;
    var pA: Short :| pA == secret.pA && Message(Pake1Op, Pake1Payload(pA)) in sys.client.history.sent;
    Pake1Parses(pA);
    Pake2Holds(cr, secret);
    Pake3Parses(cr.mac(secret.keys.kcA, secret.pB));
    assert Message(Pake1Op, Pake1Payload(pA)).opcode == Pake1Op;
    assert Message(Pake2Op, Pake2Of(cr, secret)).opcode == Pake2Op;
    assert Message(Pake3Op, Pake3Payload(cr.mac(secret.keys.kcA, secret.pB))).opcode == Pake3Op;
  }

  lemma Overtakes(cr: Crypto, acts: seq<Act>, r: Random, i: SessionId)
    requires Honest(cr, acts) && After(cr, acts).client.timers == Timers({0}, Some(0), 1)
    ensures var all := acts + Overtaking(r, i);
            var sys, next := After(cr, acts), After(cr, all);
            && Honest(cr, all) && next.server == sys.server && next.client.pending == sys.client.pending
            && next.client.stored == sys.client.stored.(initiator := true, initiatorSessionId := Num(i),
                                                        initiatorRandom := Buf(r),
                                                        request := Some(RequestPayload(r, i)))
            && next.client.history.sessions == sys.client.history.sessions
  {
    hide After;
    hide Honest;
    hide RequestPayload;
    var more := Overtaking(r, i);
    Extend(cr, acts, more[0]);
    Extend(cr, acts + [more[0]], more[1]);
    assert acts + more == acts + [more[0]] + [more[1]];
  }

  /** Agreement on the ids can fail: the client's handler of the response is suspended, the client times out and starts
      again, and the handler resumes.  The client then makes a session under the id of its second request, the server
      one under the id of the first, both with the same secret. */
  lemma OvertakenIdsDiffer(cr: Crypto, r: Random, i: SessionId, r2: Random, i2: SessionId, random: Random,
                           id: SessionId,
                           x: bytes, y: bytes)
    requires Succeeds(cr) && i != i2
    ensures var request, response := RequestPayload(r, i), ResponsePayload(r, random, id);
            var context := Context(cr, request, response);
            var secret := ClientSecret(cr, context, x, y);
            var acts := Opening(r, i, random, id) + Overtaking(r2, i2) + Closing(cr, context, x, y, random, id);
            && Honest(cr, acts)
            && After(cr, acts).client.history.sessions
               == [Made(Num(i2), Num(id), secret, Some(RequestPayload(r2, i2)), Some(response))]
            && After(cr, acts).server.history.sessions == [Made(Num(id), Num(i), secret, Some(request), Some(response))]
            && !Crossed(After(cr, acts).client.history.sessions[0], After(cr, acts).server.history.sessions[0])
  {
    hide After;
    hide Honest;
    hide Context;
    hide RequestPayload;
    hide ResponsePayload;
    hide Opening;
    hide Overtaking;
    hide Closing;
    hide ClientSecret;
    OpensWith(cr, r, i, random, id);
    var start := Opening(r, i, random, id);
    Overtakes(cr, start, r2, i2);
    Closes(cr, start + Overtaking(r2, i2), RequestPayload(r, i), ResponsePayload(r, random, id), x, y, random, id);
  }

  // ----- a server that is made a client

  lemma RunOn(cr: Crypto, events: seq<Event>, e: Event)
    ensures Run(cr, events + [e]) == Step(cr, Run(cr, events), e)
  {
    assert (events + [e])[..|events|] == events;
  }

  /** A request, an unasked response and, once its handler has gone on, a Pake2. */
  function Unasked(cr: Crypto, r: Random, i: SessionId, random: Random, id: SessionId, x: bytes, y: bytes): seq<Event> {
    [Receives(Message(ParamRequestOp, RequestPayload(r, i)), random, id),
     Receives(Message(ParamResponseOp, ResponsePayload(r, random, id)), random, id),
     Resumes(0, x), Resumes(0, x),
     Receives(Message(Pake2Op, Pake2Payload(cr.shareB(OwnVerifier(cr), y), [])), random, id)]
  }

  /** The party after the first two. */
  function Diverted(cr: Crypto, r: Random, i: SessionId, random: Random, id: SessionId): Party {
    WithResponse(cr, OpenedServer(r, i, random, id), ResponsePayload(r, random, id), id)
  }

  lemma UnaskedDiverts(cr: Crypto, r: Random, i: SessionId, random: Random, id: SessionId, x: bytes, y: bytes)
    ensures Run(cr, Unasked(cr, r, i, random, id, x, y)[..2]) == Diverted(cr, r, i, random, id)
  {
    hide Context;
    hide RequestPayload;
    hide ResponsePayload;
    hide Pake2Payload;
    hide WithRequest;
    hide WithResponse;
    hide OnPbkdfParamRequest;
    hide OnPbkdfParamResponse;
    var all := Unasked(cr, r, i, random, id, x, y);
    assert all[..2] == [] + [all[0]] + [all[1]];
    RunOn(cr, [], all[0]);
    RunOn(cr, [] + [all[0]], all[1]);
    RequestTaken(FRESH, r, i, random, id);
    OwnResponse(r, random, id);
    ResponseTaken(cr, OpenedServer(r, i, random, id), ResponsePayload(r, random, id), id);
  }

  lemma DivertedIsReady(cr: Crypto, r: Random, i: SessionId, random: Random, id: SessionId)
    ensures var p := Diverted(cr, r, i, random, id);
            && p.pending == [ClientVerifies(OwnVerifier(cr))] && p.stored.context.Some?
            && p.history == History([Message(ParamResponseOp, ResponsePayload(r, random, id))], [], 0)
  {
    hide Context;
    hide RequestPayload;
    hide ResponsePayload;
    hide SetTimeout;
  }

  /** Whatever its role, a party that awaits Pake2 makes a session of it. */
  lemma Pake2MakesSession(cr: Crypto, p: Party, context: bytes, x: bytes, y: bytes)
    requires Succeeds(cr) && p.state == AwaitPake2 && p.stored.client == Some(Client(context, OwnVerifier(cr), x))
    ensures var q := OnPake2(cr, p, Pake2Payload(cr.shareB(OwnVerifier(cr), y), []));
            && |q.history.sessions| == |p.history.sessions| + 1
            && exists payload :: q.history.sent == p.history.sent + [Message(Pake3Op, payload)]
  {
    hide Field;
    hide Pake2Payload;
    hide Pake3Payload;
    Pake2Parses(cr.shareB(OwnVerifier(cr), y), []);
  }

  /** `onPbkdfParamResponse` checks neither role nor state: sent an unasked response after a request, and then a
      Pake2, a server makes a session without having sent a Pake2. */
  lemma UnaskedResponseMakesSession(cr: Crypto, r: Random, i: SessionId, random: Random, id: SessionId, x: bytes,
                                    y: bytes)
    requires Succeeds(cr)
    ensures var p := Run(cr, Unasked(cr, r, i, random, id, x, y));
            |p.history.sessions| == 1 && Count(p.history.sent, Pake2Op) == 0
  {
    hide Run;
    hide Resume;
    hide OnPake2;
    hide Diverted;
    hide RequestPayload;
    hide ResponsePayload;
    hide Pake1Payload;
    hide Pake2Payload;
    hide Succeeds;
    var all, p := Unasked(cr, r, i, random, id, x, y), Diverted(cr, r, i, random, id);
    UnaskedDiverts(cr, r, i, random, id, x, y);
    DivertedIsReady(cr, r, i, random, id);
    RunOn(cr, all[..2], all[2]);
    RunOn(cr, all[..2] + [all[2]], all[3]);
    var asked := all[..2] + [all[2]] + [all[3]];
    RunOn(cr, asked, all[4]);
    assert all == asked + [all[4]];
    var context := p.stored.context.value;
    ClientExchanges(cr, p, context, x);
    var q := Run(cr, asked);
    Pake2MakesSession(cr, q, context, x, y);
    var payload :| Run(cr, all).history.sent == q.history.sent + [Message(Pake3Op, payload)];
    NoPake2Sent(p.history.sent, Message(Pake1Op, Pake1Payload(cr.shareA(OwnVerifier(cr), x))),
                Message(Pake3Op, payload));
  }

  lemma NoPake2Sent(sent: seq<Message>, a: Message, b: Message)
    requires |sent| == 1 && sent[0].opcode != Pake2Op && a.opcode == Pake1Op && b.opcode == Pake3Op
    ensures Count(sent + [a] + [b], Pake2Op) == 0
  {
    SentSnoc(sent + [a], b, Pake2Op);
    SentSnoc(sent, a, Pake2Op);
    SentSnoc([], sent[0], Pake2Op);
    assert sent == [] + [sent[0]];
  }

  // ----- a party that starts

  /** A party starts, is sent a response and, once its handler has gone on, a Pake2. */
  function Started(cr: Crypto, r: Random, i: SessionId, random: Random, id: SessionId, x: bytes, y: bytes): seq<Event> {
    [Starts(r, i),
     Receives(Message(ParamResponseOp, ResponsePayload(r, random, id)), random, id),
     Resumes(0, x), Resumes(0, x),
     Receives(Message(Pake2Op, Pake2Payload(cr.shareB(OwnVerifier(cr), y), [])), random, id)]
  }

  lemma StartedIsReady(cr: Crypto, r: Random, i: SessionId, random: Random, id: SessionId, x: bytes, y: bytes)
    ensures var p := Run(cr, Started(cr, r, i, random, id, x, y)[..2]);
            && p.pending == [ClientVerifies(OwnVerifier(cr))] && p.stored.context.Some?
            && p.history == History([Message(ParamRequestOp, RequestPayload(r, i))], [], 0)
  {
    hide Context;
    hide RequestPayload;
    hide ResponsePayload;
    hide Pake2Payload;
    hide OnPbkdfParamResponse;
    hide SetTimeout;
    var all := Started(cr, r, i, random, id, x, y);
    assert all[..2] == [] + [all[0]] + [all[1]];
    RunOn(cr, [], all[0]);
    RunOn(cr, [] + [all[0]], all[1]);
    OwnResponse(r, random, id);
    ResponseTaken(cr, StartPase(FRESH, r, i), ResponsePayload(r, random, id), id);
  }

  /** Nor is the other exclusion of a serving party idle: one that starts makes a session without having sent a
      Pake2. */
  lemma StartMakesSession(cr: Crypto, r: Random, i: SessionId, random: Random, id: SessionId, x: bytes, y: bytes)
    requires Succeeds(cr)
    ensures var p := Run(cr, Started(cr, r, i, random, id, x, y));
            |p.history.sessions| == 1 && Count(p.history.sent, Pake2Op) == 0
  {
    hide Run;
    hide Resume;
    hide OnPake2;
    hide RequestPayload;
    hide ResponsePayload;
    hide Pake1Payload;
    hide Pake2Payload;
    hide Succeeds;
    var all := Started(cr, r, i, random, id, x, y);
    var p := Run(cr, all[..2]);
    StartedIsReady(cr, r, i, random, id, x, y);
    RunOn(cr, all[..2], all[2]);
    RunOn(cr, all[..2] + [all[2]], all[3]);
    var asked := all[..2] + [all[2]] + [all[3]];
    RunOn(cr, asked, all[4]);
    assert all == asked + [all[4]];
    ClientExchanges(cr, p, p.stored.context.value, x);
    var q := Run(cr, asked);
    Pake2MakesSession(cr, q, p.stored.context.value, x, y);
    var payload :| Run(cr, all).history.sent == q.history.sent + [Message(Pake3Op, payload)];
    var pake1 := Message(Pake1Op, Pake1Payload(cr.shareA(OwnVerifier(cr), x)));
    NoPake2Sent(p.history.sent, pake1, Message(Pake3Op, payload));
  }
}
