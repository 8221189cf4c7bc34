/** When two honest PASE parties agree, and the run in which they do not. */
module PaseAgreement {
  import opened Bytes
  import TlvPrinter
  import opened TlvAccess
  import opened PaseMessages
  import opened Pase
  import opened PaseRun

  // ----- what is asked of the cryptography

  /** Among the values of the run, equal hashes come from equal bytes, equal confirmations from equal keys and
      shares, and equal confirmation keys from equal inputs of the derivation. */
  ghost predicate NoCollisions(cr: Crypto, sys: System) {
    && HashBinds(cr, sys.client.history.sent, sys.server.history.sent)
    && (forall c, s :: c in sys.client.history.sessions && s in sys.server.history.sessions ==>
          MacBinds(cr, c.secret, s.secret) && KeyBinds(c.secret, s.secret))
  }

  predicate MacBinds(cr: Crypto, c: Secret, s: Secret) {
    cr.mac(c.keys.kcA, c.pB) == cr.mac(s.keys.kcA, s.pB) ==> c.keys.kcA == s.keys.kcA && c.pB == s.pB
  }

  predicate KeyBinds(c: Secret, s: Secret) {
    c.keys.kcA == s.keys.kcA ==> c.context == s.context && c.verifier == s.verifier && c.pA == s.pA && c.pB == s.pB
  }

  ghost predicate HashBinds(cr: Crypto, cs: seq<Message>, ss: seq<Message>) {
    forall a, b, a2, b2 ::
      Message(ParamRequestOp, a) in cs && Message(ParamResponseOp, b) in ss
      && Message(ParamRequestOp, a2) in cs && Message(ParamResponseOp, b2) in ss
      && cr.hash(CONTEXT_SALT + a + b) == cr.hash(CONTEXT_SALT + a2 + b2)
      ==> CONTEXT_SALT + a + b == CONTEXT_SALT + a2 + b2
  }

  /** From the same context and verifier, and each other's shares, both ends of SPAKE2+ derive the same. */
  ghost predicate Agrees(cr: Crypto) {
    forall context, w, x, y ::
      cr.clientKeys(context, w, x, cr.shareB(w, y)) == cr.serverKeys(context, w, y, cr.shareA(w, x))
  }

  /** Equal confirmations come from equal contexts and equal keys. */
  lemma EqualConfirmations(cr: Crypto, c: Secret, s: Secret)
    requires Agrees(cr) && MacBinds(cr, c, s) && KeyBinds(c, s)
    requires Derived(cr, c, true) && Derived(cr, s, false) && Confirmation(cr, c) == Confirmation(cr, s)
    ensures c.context == s.context && c.keys == s.keys
  {
    var x :| c.pA == cr.shareA(c.verifier, x) && cr.clientKeys(c.context, c.verifier, x, c.pB) == Some(c.keys);
    var y :| s.pB == cr.shareB(s.verifier, y) && cr.serverKeys(s.context, s.verifier, y, s.pA) == Some(s.keys);
    assert cr.clientKeys(c.context, c.verifier, x, cr.shareB(c.verifier, y))
        == cr.serverKeys(c.context, c.verifier, y, cr.shareA(c.verifier, x));
  }

  /** No two requests sent carry the same session id, and no two responses. */
  ghost predicate IdsApart(sys: System) {
    && (forall a, b, id: SessionId ::
          Message(ParamRequestOp, a) in sys.client.history.sent && Message(ParamRequestOp, b) in sys.client.history.sent
          && IsRequest(a, id) && IsRequest(b, id)
          ==> a == b)
    && (forall a, b, id: SessionId ::
          Message(ParamResponseOp, a) in sys.server.history.sent
              && Message(ParamResponseOp, b) in sys.server.history.sent
          && IsResponse(a, id) && IsResponse(b, id)
          ==> a == b)
  }

  // ----- agreement

  /** The secret was derived from the request and response stored when the session was made: what the party can
      check by computing its context once more. */
  predicate FromHashed(cr: Crypto, m: Made) {
    m.request.Some? && m.response.Some? && m.secret.context == Context(cr, m.request.value, m.response.value)
  }

  predicate Crossed(c: Made, s: Made) {
    c.local == s.peer && c.peer == s.local
  }

  predicate SameMessages(c: Made, s: Made) {
    c.request == s.request && c.response == s.response
  }

  /** Both hashed the same request and response. */
  ghost predicate HashedTheSame(cr: Crypto, sys: System, c: Made, s: Made) {
    exists request, response ::
      Message(ParamRequestOp, request) in sys.client.history.sent
          && Message(ParamResponseOp, response) in sys.server.history.sent
      && OnlyHash(cr, sys, c.secret.context, request, response)
          && OnlyHash(cr, sys, s.secret.context, request, response)
  }

  /** Of all the requests and responses sent, the context is the hash of these and no others. */
  ghost predicate OnlyHash(cr: Crypto, sys: System, context: bytes, request: bytes, response: bytes) {
    context == Context(cr, request, response)
    && forall a, b ::
         Message(ParamRequestOp, a) in sys.client.history.sent && Message(ParamResponseOp, b) in sys.server.history.sent
         && context == Context(cr, a, b)
         ==> a == request && b == response
  }

  lemma CutSalt(a: bytes, b: bytes, a2: bytes, b2: bytes)
    requires CONTEXT_SALT + a + b == CONTEXT_SALT + a2 + b2
    ensures a + b == a2 + b2
  {
    var n := |CONTEXT_SALT|;
    assert CONTEXT_SALT + a + b == CONTEXT_SALT + (a + b);
    assert CONTEXT_SALT + a2 + b2 == CONTEXT_SALT + (a2 + b2);
    assert a + b == (CONTEXT_SALT + (a + b))[n..];
    assert a2 + b2 == (CONTEXT_SALT + (a2 + b2))[n..];
  }

  /** Equal contexts of sent messages come from equal messages. */
  lemma ContextBinds(cr: Crypto, sys: System, a: bytes, b: bytes, a2: bytes, b2: bytes)
    requires Fits(cr, sys) && HashBinds(cr, sys.client.history.sent, sys.server.history.sent)
    requires Message(ParamRequestOp, a) in sys.client.history.sent
    requires Message(ParamResponseOp, b) in sys.server.history.sent
    requires Message(ParamRequestOp, a2) in sys.client.history.sent
    requires Message(ParamResponseOp, b2) in sys.server.history.sent
    requires Context(cr, a, b) == Context(cr, a2, b2)
    ensures a == a2 && b == b2
  {
    hide IsRequest;
    hide IsResponse;
    assert ClientSends(cr, Message(ParamRequestOp, a), sys.client.history.sessions);
    assert ClientSends(cr, Message(ParamRequestOp, a2), sys.client.history.sessions);
    assert ServerSends(Message(ParamResponseOp, b)) && ServerSends(Message(ParamResponseOp, b2));
    var i: SessionId :| IsRequest(a, i);
    var i2: SessionId :| IsRequest(a2, i2);
    var j: SessionId :| IsResponse(b, j);
    var j2: SessionId :| IsResponse(b2, j2);
    CutSalt(a, b, a2, b2);
    HashedBytesSplit(a, b, a2, b2, i, j, i2, j2);
  }

  /** The ids in the same request and response are the same. */
  lemma SameMessagesCross(cr: Crypto, sys: System, c: Made, s: Made)
    requires SessionFits(cr, sys.client.history.sent, sys.server.history.sent, c, true)
    requires SessionFits(cr, sys.client.history.sent, sys.server.history.sent, s, false)
    requires SameMessages(c, s)
    ensures Crossed(c, s)
  {
    hide IsRequest;
    hide IsResponse;
    hide Exchanged;
    HashedBytesSplit(c.request.value, c.response.value, s.request.value, s.response.value,
                     c.local.n, c.peer.n, s.peer.n, s.local.n);
  }

  /** Crossed ids come from the same messages, if ids tell messages apart. */
  lemma CrossedAreSame(cr: Crypto, sys: System, c: Made, s: Made)
    requires SessionFits(cr, sys.client.history.sent, sys.server.history.sent, c, true)
    requires SessionFits(cr, sys.client.history.sent, sys.server.history.sent, s, false)
    requires IdsApart(sys) && Crossed(c, s)
    ensures SameMessages(c, s)
  {
    hide IsRequest;
    hide IsResponse;
    hide Exchanged;
  }

  lemma ContextsMatch(cr: Crypto, sys: System, c: Made, s: Made)
    requires Fits(cr, sys) && NoCollisions(cr, sys)
    requires c in sys.client.history.sessions && s in sys.server.history.sessions
    requires c.secret.context == s.secret.context
    ensures HashedTheSame(cr, sys, c, s)
    ensures FromHashed(cr, c) ==> (FromHashed(cr, s) <==> SameMessages(c, s))
    ensures FromHashed(cr, s) ==> (FromHashed(cr, c) <==> SameMessages(c, s))
    ensures SameMessages(c, s) ==> Crossed(c, s)
    ensures IdsApart(sys) ==> (Crossed(c, s) <==> SameMessages(c, s))
  {
    hide Context;
    hide IsRequest;
    hide IsResponse;
    hide ConfirmedBy;
    hide ClientSends;
    hide ServerSends;
    var cs, ss := sys.client.history.sent, sys.server.history.sent;
    assert SessionFits(cr, cs, ss, c, true) && SessionFits(cr, cs, ss, s, false);
    hide Fits;
    var a, b :| Message(ParamRequestOp, a) in cs && Message(ParamResponseOp, b) in ss
        && c.secret.context == Context(cr, a, b);
    forall a2, b2 | Message(ParamRequestOp, a2) in cs && Message(ParamResponseOp, b2) in ss
                    && c.secret.context == Context(cr, a2, b2)
      ensures a2 == a && b2 == b
    {
      ContextBinds(cr, sys, a, b, a2, b2);
    }
    assert OnlyHash(cr, sys, c.secret.context, a, b);
    if SameMessages(c, s) {
      SameMessagesCross(cr, sys, c, s);
    }
    if IdsApart(sys) && Crossed(c, s) {
      CrossedAreSame(cr, sys, c, s);
    }
  }

  /** Over every run of two honest parties, with messages lost, late, out of order or repeated, timers firing and
      handlers suspended, failing and overtaking each other: for every session the server has made, the client has
      made one with the same keys, from the hash of the same request and response.  Where ids tell messages apart,
      the session ids are crossed exactly when both had the same messages stored as they made their sessions; and if
      one party made its session from what it had hashed, exactly when the other did, too. */
  lemma Agreement(cr: Crypto, acts: seq<Act>, s: Made)
    requires Honest(cr, acts) && Agrees(cr) && NoCollisions(cr, After(cr, acts))
    requires s in After(cr, acts).server.history.sessions
    ensures exists c :: c in After(cr, acts).client.history.sessions && Matches(cr, After(cr, acts), c, s)
  {
    hide After;
    hide SessionsFit;
    hide HandlersFit;
    hide StoredFits;
    hide ClientSends;
    hide ServerSends;
    hide Confirmation;
    hide HashBinds;
    hide Derived;
    hide MacBinds;
    hide KeyBinds;
    hide Agrees;
    hide IdsApart;
    RunFits(cr, acts);
    var sys := After(cr, acts);
    assert ConfirmedBy(cr, Confirmation(cr, s.secret), sys.client.history.sessions);
    var c :| c in sys.client.history.sessions && Confirmation(cr, s.secret) == Confirmation(cr, c.secret);
    EqualConfirmations(cr, c.secret, s.secret);
    ContextsMatch(cr, sys, c, s);
    MatchesFrom(cr, sys, c, s);
  }

  ghost predicate Matches(cr: Crypto, sys: System, c: Made, s: Made) {
    && c.secret.keys == s.secret.keys
    && HashedTheSame(cr, sys, c, s)
    && (SameMessages(c, s) ==> Crossed(c, s))
    && (FromHashed(cr, c) && FromHashed(cr, s) ==> SameMessages(c, s))
    && (IdsApart(sys) ==>
          && (Crossed(c, s) <==> SameMessages(c, s))
          && (FromHashed(cr, c) ==> (Crossed(c, s) <==> FromHashed(cr, s)))
          && (FromHashed(cr, s) ==> (Crossed(c, s) <==> FromHashed(cr, c))))
  }

  lemma MatchesFrom(cr: Crypto, sys: System, c: Made, s: Made)
    requires c.secret.keys == s.secret.keys && HashedTheSame(cr, sys, c, s)
    requires FromHashed(cr, c) ==> (FromHashed(cr, s) <==> SameMessages(c, s))
    requires FromHashed(cr, s) ==> (FromHashed(cr, c) <==> SameMessages(c, s))
    requires SameMessages(c, s) ==> Crossed(c, s)
    requires IdsApart(sys) ==> (Crossed(c, s) <==> SameMessages(c, s))
    ensures Matches(cr, sys, c, s)
  {
  }

  // ----- runs in which no handler is overtaken

  /** While a handler of the party is suspended, nothing happens to it but that the handler resumes. */
  predicate Undisturbed(sys: System, a: Act) {
    var p, e := if a.AtClient? then sys.client else sys.server, a.event;
    p.pending != [] ==> e.Resumes? && e.handler == 0
  }

  ghost predicate Orderly(cr: Crypto, acts: seq<Act>) {
    forall i :: 0 <= i < |acts| ==> Undisturbed(After(cr, acts[..i]), acts[i])
  }

  /** The context was computed from what is stored. */
  predicate Current(cr: Crypto, s: Stored, context: bytes) {
    s.request.Some? && s.response.Some? && context == Context(cr, s.request.value, s.response.value)
  }

  predicate AllFromHashed(cr: Crypto, ms: seq<Made>) {
    forall m :: m in ms ==> FromHashed(cr, m)
  }

  /** At most one handler is suspended, and its context is current; otherwise what the party will make a session of
      is. */
  predicate PartyOrderly(cr: Crypto, p: Party, server: bool) {
    && AllFromHashed(cr, p.history.sessions)
    && (if server then p.state == Idle || p.state == AwaitPake1 || p.state == AwaitPake3
        else p.state == Idle || p.state == AwaitPbkdfParamRsp || p.state == AwaitPake2)
    && |p.pending| <= 1
    && (p.pending != [] ==> HandlerOrderly(cr, p, server))
    && (p.pending == [] && p.state == AwaitPake2 && p.stored.client.Some? ==>
          Current(cr, p.stored, p.stored.client.value.context))
    && (p.state == AwaitPake3 && p.stored.secret.Some? ==> Current(cr, p.stored, p.stored.secret.value.context))
  }

  predicate HandlerOrderly(cr: Crypto, p: Party, server: bool)
    requires p.pending != []
  {
    var h := p.pending[0];
    && IsServerHandler(h) == server
    && (server ==> p.state == AwaitPake1)
    && p.stored.context.Some? && Current(cr, p.stored, p.stored.context.value)
    && (h.ServerStarts? || h.ClientStarts? ==> h.context == p.stored.context.value)
  }

  lemma OrderlyResume(cr: Crypto, p: Party, scalar: bytes, server: bool)
    requires PartyOrderly(cr, p, server) && p.pending != []
    ensures PartyOrderly(cr, Resume(cr, p, 0, scalar), server)
  {
    hide Pake2Of;
    hide Pake1Payload;
    hide Hex;
    hide SetTimeout;
    hide Context;
    assert Drop(p.pending, 0) == [];
  }

  lemma OrderlyStart(cr: Crypto, p: Party, random: Random, id: SessionId)
    requires PartyOrderly(cr, p, false) && p.pending == []
    ensures PartyOrderly(cr, StartPase(p, random, id), false)
  {
    hide SetTimeout;
    hide Context;
    hide RequestPayload;
  }

  lemma OrderlyRequest(cr: Crypto, p: Party, payload: bytes, random: Random, id: SessionId)
    requires PartyOrderly(cr, p, true) && p.pending == []
    ensures PartyOrderly(cr, OnPbkdfParamRequest(p, payload, random, id), true)
  {
    hide Members;
    hide Tagged;
    hide ToStringHex;
    hide TlvPrinter.EncodeForest;
    hide SetTimeout;
    hide Context;
    hide Hex;
  }

  lemma OrderlyResponse(cr: Crypto, p: Party, payload: bytes, id: SessionId)
    requires PartyOrderly(cr, p, false) && p.pending == [] && IsResponse(payload, id)
    requires p.stored.client.Some? ==> p.stored.request.Some?
    ensures PartyOrderly(cr, OnPbkdfParamResponse(cr, p, payload), false)
  {
    hide OnPbkdfParamResponse;
    hide IsResponse;
    hide Context;
    ResponseTaken(cr, p, payload, id);
  }

  lemma OrderlyPake1(cr: Crypto, p: Party, payload: bytes)
    requires PartyOrderly(cr, p, true) && p.pending == []
    ensures PartyOrderly(cr, OnPake1(cr, p, payload), true)
  {
    hide Field;
    hide ToStringHex;
    hide Verifier;
    hide Context;
  }

  lemma OrderlyPake2(cr: Crypto, p: Party, payload: bytes)
    requires PartyOrderly(cr, p, false) && p.pending == []
    ensures PartyOrderly(cr, OnPake2(cr, p, payload), false)
  {
    hide Field;
    hide ToStringHex;
    hide Pake3Payload;
    hide ClearTimeout;
    hide Context;
  }

  lemma OrderlyPake3(cr: Crypto, p: Party, payload: bytes)
    requires PartyOrderly(cr, p, true) && p.pending == []
    ensures PartyOrderly(cr, OnPake3(cr, p, payload), true)
  {
    hide Field;
    hide ClearTimeout;
    hide Context;
  }

  lemma OrderlyTimeout(cr: Crypto, p: Party, timer: nat, server: bool)
    requires PartyOrderly(cr, p, server) && p.pending == []
    ensures PartyOrderly(cr, Timeout(p, timer), server)
  {
  }

  lemma OrderlyReceive(cr: Crypto, sys: System, m: Message, random: Random, id: SessionId, server: bool)
    requires Fits(cr, sys)
    requires m in (if server then sys.client else sys.server).history.sent
    requires var p := if server then sys.server else sys.client; PartyOrderly(cr, p, server) && p.pending == []
    ensures PartyOrderly(cr, OnExchangeMessage(cr, if server then sys.server else sys.client, m, random, id), server)
  {
    hide PartyOrderly;
    hide HandlersFit;
    hide SessionsFit;
    hide IsRequest;
    hide IsResponse;
    hide Exchanged;
    if server {
      assert ClientSends(cr, m, sys.client.history.sessions);
      OrderlyRequest(cr, sys.server, m.payload, random, id);
      OrderlyPake1(cr, sys.server, m.payload);
      OrderlyPake3(cr, sys.server, m.payload);
    } else {
      assert ServerSends(m);
      if m.opcode == ParamResponseOp {
        var j: SessionId :| IsResponse(m.payload, j);
        OrderlyResponse(cr, sys.client, m.payload, j);
      }
      OrderlyPake2(cr, sys.client, m.payload);
    }
  }

  lemma OrderlyStep(cr: Crypto, sys: System, a: Act)
    requires Fits(cr, sys) && Possible(sys, a) && Undisturbed(sys, a)
    requires PartyOrderly(cr, sys.client, false) && PartyOrderly(cr, sys.server, true)
    ensures PartyOrderly(cr, Next(cr, sys, a).client, false) && PartyOrderly(cr, Next(cr, sys, a).server, true)
  {
    var server, p := a.AtServer?, if a.AtClient? then sys.client else sys.server;
    hide PartyOrderly;
    hide Fits;
    match a.event
    case Starts(random, id) => OrderlyStart(cr, p, random, id);
    case Receives(m, random, id) => OrderlyReceive(cr, sys, m, random, id, server);
    case Resumes(i, scalar) => if p.pending != [] { OrderlyResume(cr, p, scalar, server); }
    case Rejects(i) =>
    case TimesOut(timer) => OrderlyTimeout(cr, p, timer, server);
  }

  lemma {:induction false} RunOrderly(cr: Crypto, acts: seq<Act>)
    requires Honest(cr, acts) && Orderly(cr, acts)
    ensures PartyOrderly(cr, After(cr, acts).client, false) && PartyOrderly(cr, After(cr, acts).server, true)
  {
    if acts != [] {
      var n := |acts| - 1;
      var before := acts[..n];
      HonestPrefix(cr, acts);
      forall i | 0 <= i < n
        ensures Undisturbed(After(cr, before[..i]), before[i])
      {
        assert before[..i] == acts[..i];
      }
      RunOrderly(cr, before);
      RunFits(cr, before);
      OrderlyStep(cr, After(cr, before), acts[n]);
    }
  }

  /** In an orderly run of two honest parties, for every session the server has made, the client has made one with the
      same keys, from the same request and response, under crossed session ids. */
  lemma OrderlyAgreement(cr: Crypto, acts: seq<Act>, s: Made)
    requires Honest(cr, acts) && Orderly(cr, acts) && Agrees(cr) && NoCollisions(cr, After(cr, acts))
    requires s in After(cr, acts).server.history.sessions
    ensures exists c :: c in After(cr, acts).client.history.sessions && c.secret.keys == s.secret.keys
                        && SameMessages(c, s) && Crossed(c, s)
  {
    hide After;
    hide Context;
    hide HashedTheSame;
    hide IdsApart;
    RunOrderly(cr, acts);
    Agreement(cr, acts, s);
    var sys := After(cr, acts);
    var c :| c in sys.client.history.sessions && Matches(cr, sys, c, s);
    assert FromHashed(cr, c) && FromHashed(cr, s);
  }
}
