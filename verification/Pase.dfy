/** One PASE party (src/protocols/session/PaseSession.js): its state, its timer and its suspended handlers. */
module Pase {
  import opened Bytes
  import opened Tlv
  import opened TlvPrinter
  import opened TlvAccess
  import opened PaseMessages

  // ----- the cryptography, which is foreign

  datatype Keys = Keys(ke: Short, kcA: Short, kcB: Short)

  /** SPAKE2+ from a verifier and a scalar: the shares, and what `finish` derives from the context and the other
      share. */
  datatype Crypto = Crypto(
    hash: bytes -> bytes,
    verifier: (nat, bytes) -> bytes,
    shareA: (bytes, bytes) -> Short,
    shareB: (bytes, bytes) -> Short,
    clientKeys: (bytes, bytes, bytes, bytes) -> Option<Keys>,
    serverKeys: (bytes, bytes, bytes, bytes) -> Option<Keys>,
    mac: (bytes, bytes) -> Short)

  /** "CHIP PAKE V1 Commissioning" */
  const CONTEXT_SALT: bytes := [67, 72, 73, 80, 32, 80, 65, 75, 69, 32, 86, 49, 32,
                                67, 111, 109, 109, 105, 115, 115, 105, 111, 110, 105, 110, 103]

  function Context(cr: Crypto, request: bytes, response: bytes): bytes {
    cr.hash(CONTEXT_SALT + request + response)
  }

  // ----- one party

  datatype State = Idle | AwaitPbkdfParamRsp | AwaitPake1 | AwaitPake2 | AwaitPake3

  /** The armed timers, the last one armed, and the number of the next. */
  datatype Timers = Timers(armed: set<nat>, handle: Option<nat>, next: nat)

  /** What `finish` leaves, with the context, the verifier and the shares it was derived from. */
  datatype Secret = Secret(keys: Keys, context: bytes, verifier: bytes, pA: bytes, pB: Short)

  datatype Client = Client(context: bytes, verifier: bytes, scalar: bytes)

  /** A handler suspended at an `await`: on the verifier, or on the party that the verifier starts. */
  datatype Handler =
    | ServerVerifies(verifier: bytes)
    | ServerStarts(context: bytes, verifier: bytes, scalar: bytes)
    | ClientVerifies(verifier: bytes)
    | ClientStarts(context: bytes, verifier: bytes, scalar: bytes)

  datatype Opcode = ParamRequestOp | ParamResponseOp | Pake1Op | Pake2Op | Pake3Op | StatusReportOp

  datatype Message = Message(opcode: Opcode, payload: bytes)

  /** What `sendSuccess` reports of the secure channel: success in general, its protocol id, and success again. */
  const SUCCESS_REPORT: bytes := StatusPayload(0, 0, 0)

  /** A secure session, with the secret it was made from and the request and response stored at that time. */
  datatype Made = Made(local: Value, peer: Value, secret: Secret, request: Option<bytes>, response: Option<bytes>)

  datatype Stored = Stored(
    initiator: bool,
    initiatorSessionId: Value,
    responderSessionId: Value,
    initiatorRandom: Value,
    request: Option<bytes>,
    response: Option<bytes>,
    iterations: Value,
    salt: Value,
    pA: Value,
    context: Option<bytes>,
    client: Option<Client>,
    secret: Option<Secret>)

  /** `accepted` counts the Pake1 messages that passed the state check. */
  datatype History = History(sent: seq<Message>, sessions: seq<Made>, accepted: nat)

  datatype Party = Party(state: State, timers: Timers, stored: Stored, pending: seq<Handler>, history: History)

  const FRESH := Party(
    Idle, Timers({}, None, 0),
    Stored(true, Undefined, Undefined, Undefined, None, None, Num(ITERATIONS), Str(SALT), Undefined, None, None, None),
    [], History([], [], 0))

  // ----- timers

  function ClearTimeout(t: Timers): Timers {
    if t.handle.Some? then t.(armed := t.armed - {t.handle.value}) else t
  }

  function SetTimeout(t: Timers): Timers {
    Timers(ClearTimeout(t).armed + {t.next}, Some(t.next), t.next + 1)
  }

  function SetState(p: Party, s: State): Party {
    p.(state := s, timers := if s == Idle then ClearTimeout(p.timers) else SetTimeout(p.timers))
  }

  /** The timer fires. */
  function Timeout(p: Party, timer: nat): Party {
    if timer in p.timers.armed then SetState(p.(timers := p.timers.(armed := p.timers.armed - {timer})), Idle) else p
  }

  // ----- sending

  function Send(p: Party, opcode: Opcode, payload: bytes): Party {
    p.(history := p.history.(sent := p.history.sent + [Message(opcode, payload)]))
  }

  function CreateSecureSession(p: Party): Party {
    if p.stored.secret.None? then p
    else
      var s := p.stored;
      var local, peer := if s.initiator then s.initiatorSessionId else s.responderSessionId,
                         if s.initiator then s.responderSessionId else s.initiatorSessionId;
      p.(history := p.history.(sessions := p.history.sessions
                               + [Made(local, peer, s.secret.value, s.request, s.response)]))
  }

  function StartPase(p: Party, random: Random, id: SessionId): Party {
    if p.state != Idle then p else SendPbkdfParamRequest(p, random, id, RequestPayload(random, id))
  }

  function SendPbkdfParamRequest(p: Party, random: Random, id: SessionId, payload: bytes): Party {
    var q := p.(stored := p.stored.(initiator := true, initiatorSessionId := Num(id), initiatorRandom := Buf(random),
                                    request := Some(payload)));
    Send(SetState(q, AwaitPbkdfParamRsp), ParamRequestOp, payload)
  }

  /** Stops, as the program does at an exception, where the initiator's random is not printable. */
  function SendPbkdfParamResponse(p: Party, random: Random, id: SessionId): Party {
    match ToStringHex(p.stored.initiatorRandom)
    case Err(_) => p
    case Ok(initiatorRandom) =>
      var q := p.(stored := p.stored.(responderSessionId := Num(id)));
      match EncodeForest([ParamResponse(initiatorRandom, random, id, p.stored.iterations, Hex(SALT))])
      case Err(_) => q
      case Ok(payload) =>
        Send(SetState(q.(stored := q.stored.(response := Some(payload))), AwaitPake1), ParamResponseOp, payload)
  }

  // ----- receiving

  function OnPbkdfParamRequest(p: Party, payload: bytes, random: Random, id: SessionId): Party {
    if p.state != Idle then p
    else match Members(payload)
         case Err(_) => p
         case Ok(members) =>
           SendPbkdfParamResponse(
             p.(stored := p.stored.(initiatorRandom := Tagged(members, 1), initiatorSessionId := Tagged(members, 2),
                                    initiator := false, request := Some(payload))),
             random, id)
  }

  /** `computeContext` and the new SPAKE2+ instance; an exception when nothing was exchanged yet. */
  function Hashed(cr: Crypto, s: Stored): Result<Stored> {
    if s.request.None? || s.response.None? then Err(Thrown)
    else Ok(s.(context := Some(Context(cr, s.request.value, s.response.value))))
  }

  /** `pbkdf2Sync` wants a positive 32-bit count and a string or buffer. */
  function Verifier(cr: Crypto, s: Stored): Result<bytes> {
    if !s.iterations.Num? || !(1 <= s.iterations.n < 0x8000_0000) then Err(Thrown)
    else match s.salt
         case Str(utf8) => Ok(cr.verifier(s.iterations.n, utf8))
         case Buf(data) => Ok(cr.verifier(s.iterations.n, data))
         case _ => Err(Thrown)
  }

  function Suspend(p: Party, h: Handler): Party {
    p.(pending := p.pending + [h])
  }

  /** `generateVerifier`, up to its `await`. */
  function AwaitVerifier(cr: Crypto, p: Party, server: bool): Party {
    match Verifier(cr, p.stored)
    case Err(_) => p
    case Ok(w) => Suspend(p, if server then ServerVerifies(w) else ClientVerifies(w))
  }

  function Given(v: Value, otherwise: Value): Value {
    if v.Undefined? then otherwise else v
  }

  /** No state check: any response restarts the client's key exchange. */
  function OnPbkdfParamResponse(cr: Crypto, p: Party, payload: bytes): Party {
    var q := p.(stored := p.stored.(response := Some(payload)));
    match Members(payload)
    case Err(_) => q
    case Ok(members) =>
      OnParameters(cr, q.(stored := q.stored.(responderSessionId := Tagged(members, 3))), Tagged(members, 4))
  }

  /** The client's key exchange starts with the server's iterations and salt. */
  function OnParameters(cr: Crypto, p: Party, parameters: Value): Party {
    var iterations, salt := At(parameters, 0), At(parameters, 1);
    if iterations.Err? || salt.Err? then p
    else match Hashed(cr, p.stored)
         case Err(_) => p
         case Ok(s) =>
           AwaitVerifier(cr, p.(stored := s.(iterations := Given(iterations.value, s.iterations),
                                             salt := Given(salt.value, s.salt))), false)
  }

  function OnPake1(cr: Crypto, p: Party, payload: bytes): Party {
    if p.state != AwaitPake1 then p
    else
      var q := p.(history := p.history.(accepted := p.history.accepted + 1));
      match Field(payload, 0)
      case Err(_) => q
      case Ok(pA) =>
        var r := q.(stored := q.stored.(pA := pA));
        match Hashed(cr, r.stored)
        case Err(_) => r
        case Ok(s) =>
          if ToStringHex(pA) == Err(Thrown) then r.(stored := s) else AwaitVerifier(cr, r.(stored := s), true)
  }

  function OnPake2(cr: Crypto, p: Party, payload: bytes): Party {
    if p.state != AwaitPake2 then p
    else
      var pB, cB := Field(payload, 0), Field(payload, 1);
      if pB.Err? || cB.Err? || !pB.value.Buf? || |pB.value.data| >= 0x1_0000 || p.stored.client.None? then p
      else
        var k := p.stored.client.value;
        match cr.clientKeys(k.context, k.verifier, k.scalar, pB.value.data)
        case None => p
        case Some(keys) =>
          var secret := Secret(keys, k.context, k.verifier, cr.shareA(k.verifier, k.scalar), pB.value.data);
          var q := p.(stored := p.stored.(secret := Some(secret)));
          if ToStringHex(cB.value) == Err(Thrown) then q
          else
            var payload := Pake3Payload(cr.mac(keys.kcA, secret.pB));
            CreateSecureSession(Send(SetState(q, Idle), Pake3Op, payload))
  }

  /** `verifyHash` accepts the MAC of the server's own share. */
  function OnPake3(cr: Crypto, p: Party, payload: bytes): Party {
    if p.state != AwaitPake3 || p.stored.secret.None? then p
    else
      var cA, secret := Field(payload, 0), p.stored.secret.value;
      if cA != Ok(Buf(cr.mac(secret.keys.kcA, secret.pB))) then p
      else SetState(CreateSecureSession(Send(p, StatusReportOp, SUCCESS_REPORT)), Idle)
  }

  // ----- resuming

  predicate IsServerHandler(h: Handler) {
    h.ServerVerifies? || h.ServerStarts?
  }

  function Drop(hs: seq<Handler>, i: nat): seq<Handler>
    requires i < |hs|
  {
    hs[..i] + hs[i + 1..]
  }

  /** A handler goes on, with the scalar that starting a party draws.  What it reads of the party is what is
      stored now, not what was stored when it was suspended. */
  function Resume(cr: Crypto, p: Party, i: nat, scalar: bytes): Party {
    if i >= |p.pending| then p
    else
      var q := p.(pending := Drop(p.pending, i));
      match p.pending[i]
      case ServerVerifies(w) =>
        if q.stored.context.None? then q else Suspend(q, ServerStarts(q.stored.context.value, w, scalar))
      case ClientVerifies(w) =>
        if q.stored.context.None? then q else Suspend(q, ClientStarts(q.stored.context.value, w, scalar))
      case ServerStarts(context, w, y) => ServerFinish(cr, q, context, w, y)
      case ClientStarts(context, w, x) => ClientFinish(cr, q, context, w, x)
  }

  function ClientFinish(cr: Crypto, p: Party, context: bytes, verifier: bytes, scalar: bytes): Party {
    var pA := cr.shareA(verifier, scalar);
    var q := p.(stored := p.stored.(client := Some(Client(context, verifier, scalar)), pA := Str(Hex(pA))));
    Send(SetState(q, AwaitPake2), Pake1Op, Pake1Payload(pA))
  }

  function ServerFinish(cr: Crypto, p: Party, context: bytes, verifier: bytes, scalar: bytes): Party {
    if !p.stored.pA.Buf? then p
    else
      var pA := p.stored.pA.data;
      match cr.serverKeys(context, verifier, scalar, pA)
      case None => p
      case Some(keys) =>
        var secret := Secret(keys, context, verifier, pA, cr.shareB(verifier, scalar));
        var q := p.(stored := p.stored.(secret := Some(secret)));
        Send(SetState(q, AwaitPake3), Pake2Op, Pake2Of(cr, secret))
  }

  function Pake2Of(cr: Crypto, s: Secret): bytes {
    Pake2Payload(s.pB, cr.mac(s.keys.kcB, s.pA))
  }

  /** The awaited promise is rejected. */
  function Reject(p: Party, i: nat): Party {
    if i < |p.pending| then p.(pending := Drop(p.pending, i)) else p
  }

  // ----- runs

  /** `random` and `id` are what the party draws if it answers a request. */
  datatype Event =
    | Starts(random: Random, id: SessionId)
    | Receives(message: Message, random: Random, id: SessionId)
    | Resumes(handler: nat, scalar: bytes)
    | Rejects(handler: nat)
    | TimesOut(timer: nat)

  function OnExchangeMessage(cr: Crypto, p: Party, m: Message, random: Random, id: SessionId): Party {
    match m.opcode
    case ParamRequestOp => OnPbkdfParamRequest(p, m.payload, random, id)
    case ParamResponseOp => OnPbkdfParamResponse(cr, p, m.payload)
    case Pake1Op => OnPake1(cr, p, m.payload)
    case Pake2Op => OnPake2(cr, p, m.payload)
    case Pake3Op => OnPake3(cr, p, m.payload)
    case StatusReportOp => p
  }

  function Step(cr: Crypto, p: Party, e: Event): Party {
    match e
    case Starts(random, id) => StartPase(p, random, id)
    case Receives(m, random, id) => OnExchangeMessage(cr, p, m, random, id)
    case Resumes(i, scalar) => Resume(cr, p, i, scalar)
    case Rejects(i) => Reject(p, i)
    case TimesOut(timer) => Timeout(p, timer)
  }

  function Run(cr: Crypto, events: seq<Event>): Party {
    if events == [] then FRESH else Step(cr, Run(cr, events[..|events| - 1]), events[|events| - 1])
  }

  // ----- in turn

  /** What a party that sends must have been doing, and what it does then. */
  predicate InTurn(before: State, e: Event, opcode: Opcode, after: State) {
    match opcode
    case ParamRequestOp => before == Idle && e.Starts? && after == AwaitPbkdfParamRsp
    case ParamResponseOp => before == Idle && Brings(e, ParamRequestOp) && after == AwaitPake1
    case Pake1Op => e.Resumes? && after == AwaitPake2
    case Pake2Op => e.Resumes? && after == AwaitPake3
    case Pake3Op => before == AwaitPake2 && Brings(e, Pake2Op) && after == Idle
    case StatusReportOp => before == AwaitPake3 && Brings(e, Pake3Op) && after == Idle
  }

  predicate Brings(e: Event, opcode: Opcode) {
    e.Receives? && e.message.opcode == opcode
  }

  /** A step sends nothing, or one message in turn. */
  predicate StepsInTurn(p: Party, e: Event, q: Party) {
    q.history.sent == p.history.sent
    || (q.history.sent != [] && q.history.sent[..|q.history.sent| - 1] == p.history.sent
        && InTurn(p.state, e, q.history.sent[|q.history.sent| - 1].opcode, q.state))
  }

  /** Parties send in turn only. */
  lemma SendsInTurn(cr: Crypto, p: Party, e: Event)
    ensures StepsInTurn(p, e, Step(cr, p, e))
  {
    hide StepsInTurn;
    hide OnExchangeMessage;
    hide StartPase;
    hide Resume;
    match e
    case Starts(random, id) => StartsInTurn(p, e, random, id);
    case Receives(m, random, id) => AnswersInTurn(cr, p, e, m, random, id);
    case Resumes(i, scalar) => ResumesInTurn(cr, p, e, i, scalar);
    case Rejects(i) => NothingSent(p, e, Reject(p, i));
    case TimesOut(timer) => NothingSent(p, e, Timeout(p, timer));
  }

  lemma NothingSent(p: Party, e: Event, q: Party)
    requires q.history.sent == p.history.sent
    ensures StepsInTurn(p, e, q)
  {
  }

  lemma StartsInTurn(p: Party, e: Event, random: Random, id: SessionId)
    requires e.Starts?
    ensures StepsInTurn(p, e, StartPase(p, random, id))
  {
    hide RequestPayload;
    hide SetTimeout;
  }

  lemma ResumesInTurn(cr: Crypto, p: Party, e: Event, i: nat, scalar: bytes)
    requires e.Resumes?
    ensures StepsInTurn(p, e, Resume(cr, p, i, scalar))
  {
    hide Pake2Of;
    hide Pake1Payload;
    hide Hex;
    hide SetTimeout;
    hide Drop;
  }

  lemma AnswersInTurn(cr: Crypto, p: Party, e: Event, m: Message, random: Random, id: SessionId)
    requires e.Receives? && e.message == m
    ensures StepsInTurn(p, e, OnExchangeMessage(cr, p, m, random, id))
  {
    hide StepsInTurn;
    hide OnPbkdfParamRequest;
    hide OnPbkdfParamResponse;
    hide OnPake1;
    hide OnPake2;
    hide OnPake3;
    match m.opcode
    case ParamRequestOp => RespondsInTurn(p, e, m.payload, random, id);
    case ParamResponseOp => TakesResponse(cr, p, e, m.payload);
    case Pake1Op => TakesPake1(cr, p, e, m.payload);
    case Pake2Op => ConfirmsInTurn(cr, p, e, m.payload);
    case Pake3Op => ReportsInTurn(cr, p, e, m.payload);
    case StatusReportOp => NothingSent(p, e, p);
  }

  lemma RespondsInTurn(p: Party, e: Event, payload: bytes, random: Random, id: SessionId)
    requires Brings(e, ParamRequestOp)
    ensures StepsInTurn(p, e, OnPbkdfParamRequest(p, payload, random, id))
    ensures p.state != Idle ==> OnPbkdfParamRequest(p, payload, random, id) == p
  {
    hide Members;
    hide Tagged;
    hide EncodeForest;
    hide ParamResponse;
    hide ToStringHex;
    hide Hex;
    hide SetTimeout;
  }

  lemma TakesResponse(cr: Crypto, p: Party, e: Event, payload: bytes)
    ensures StepsInTurn(p, e, OnPbkdfParamResponse(cr, p, payload))
  {
    hide Members;
    hide Tagged;
    hide At;
    hide Context;
    hide Verifier;
  }

  lemma TakesPake1(cr: Crypto, p: Party, e: Event, payload: bytes)
    ensures StepsInTurn(p, e, OnPake1(cr, p, payload))
    ensures p.state != AwaitPake1 ==> OnPake1(cr, p, payload) == p
  {
    hide Field;
    hide Context;
    hide Verifier;
    hide ToStringHex;
  }

  lemma ConfirmsInTurn(cr: Crypto, p: Party, e: Event, payload: bytes)
    requires Brings(e, Pake2Op)
    ensures StepsInTurn(p, e, OnPake2(cr, p, payload))
    ensures p.state != AwaitPake2 ==> OnPake2(cr, p, payload) == p
  {
    hide Field;
    hide Pake3Payload;
    hide ToStringHex;
    hide SetTimeout;
  }

  lemma ReportsInTurn(cr: Crypto, p: Party, e: Event, payload: bytes)
    requires Brings(e, Pake3Op)
    ensures StepsInTurn(p, e, OnPake3(cr, p, payload))
    ensures p.state != AwaitPake3 ==> OnPake3(cr, p, payload) == p
  {
    hide Field;
    hide SetTimeout;
  }

  /** Out of turn a start and every message but a parameter response are ignored. */
  lemma OutOfTurnIgnored(cr: Crypto, p: Party, e: Event)
    requires (e.Starts? && p.state != Idle) || (Brings(e, ParamRequestOp) && p.state != Idle)
             || (Brings(e, Pake1Op) && p.state != AwaitPake1) || (Brings(e, Pake2Op) && p.state != AwaitPake2)
             || (Brings(e, Pake3Op) && p.state != AwaitPake3) || Brings(e, StatusReportOp)
    ensures Step(cr, p, e) == p
  {
    hide OnPbkdfParamRequest;
    hide OnPake1;
    hide OnPake2;
    hide OnPake3;
    if e.Receives? {
      var m := e.message;
      match m.opcode
      case ParamRequestOp => RespondsInTurn(p, e, m.payload, e.random, e.id);
      case Pake1Op => TakesPake1(cr, p, e, m.payload);
      case Pake2Op => ConfirmsInTurn(cr, p, e, m.payload);
      case Pake3Op => ReportsInTurn(cr, p, e, m.payload);
      case _ =>
    }
  }

  /** A promise that is rejected takes its handler away, and changes nothing else. */
  lemma RejectTakesOne(cr: Crypto, p: Party, i: nat)
    requires i < |p.pending|
    ensures var q := Step(cr, p, Rejects(i));
            && q == p.(pending := q.pending) && |q.pending| == |p.pending| - 1
            && (forall k :: 0 <= k < i ==> q.pending[k] == p.pending[k])
            && (forall k :: i <= k < |q.pending| ==> q.pending[k] == p.pending[k + 1])
  {
  }

  /** A key can be derived with so many rounds and such a salt. */
  predicate Derivable(rounds: Value, salt: Value) {
    rounds.Num? && 0 < rounds.n <= 0x7FFF_FFFF && (salt.Str? || salt.Buf?)
  }

  /** A response with parameters suspends a client's handler if and only if a request was stored and a key can be
      derived with the parameters given, or with what is stored in place of those that are undefined. */
  lemma ResponseSuspendsIff(cr: Crypto, p: Party, payload: bytes)
    requires Members(payload).Ok?
    requires var v := Tagged(Members(payload).value, 4); At(v, 0).Ok? && At(v, 1).Ok?
    ensures var v, q := Tagged(Members(payload).value, 4), OnPbkdfParamResponse(cr, p, payload);
            var rounds := if At(v, 0).value == Undefined then p.stored.iterations else At(v, 0).value;
            var salt := if At(v, 1).value == Undefined then p.stored.salt else At(v, 1).value;
            if p.stored.request.Some? && Derivable(rounds, salt) then
              |q.pending| == |p.pending| + 1 && q.pending[..|p.pending|] == p.pending
              && q.pending[|p.pending|]
                  == ClientVerifies(cr.verifier(rounds.n, if salt.Str? then salt.utf8 else salt.data))
            else q.pending == p.pending
  {
    hide Members;
    hide Tagged;
    hide At;
    hide Context;
  }

  // ----- what every party keeps

  function Count(sent: seq<Message>, opcode: Opcode): nat {
    if sent == [] then 0
    else Count(sent[..|sent| - 1], opcode) + if sent[|sent| - 1].opcode == opcode then 1 else 0
  }

  /** The last message sent with the opcode. */
  function Last(sent: seq<Message>, opcode: Opcode): Option<bytes> {
    if sent == [] then None
    else
      var n := |sent| - 1;
      if sent[n].opcode == opcode then Some(sent[n].payload) else Last(sent[..n], opcode)
  }

  lemma SentSnoc(sent: seq<Message>, m: Message, opcode: Opcode)
    ensures Count(sent + [m], opcode) == Count(sent, opcode) + if m.opcode == opcode then 1 else 0
    ensures Last(sent + [m], opcode) == if m.opcode == opcode then Some(m.payload) else Last(sent, opcode)
  {
    assert (sent + [m])[..|sent|] == sent;
  }

  /** How many suspended handlers serve a Pake1. */
  function Serving(hs: seq<Handler>): nat {
    if hs == [] then 0 else Serving(hs[..|hs| - 1]) + if IsServerHandler(hs[|hs| - 1]) then 1 else 0
  }

  lemma {:induction false} ServingCat(a: seq<Handler>, b: seq<Handler>)
    ensures Serving(a + b) == Serving(a) + Serving(b)
  {
    if b == [] {
      assert a + b == a;
    } else {
      assert (a + b)[..|a + b| - 1] == a + b[..|b| - 1];
      ServingCat(a, b[..|b| - 1]);
    }
  }

  lemma ServingOne(h: Handler)
    ensures Serving([h]) == if IsServerHandler(h) then 1 else 0
  {
    assert [h][..0] == [];
  }

  lemma ServingDrop(hs: seq<Handler>, i: nat)
    requires i < |hs|
    ensures Serving(hs) == Serving(Drop(hs, i)) + if IsServerHandler(hs[i]) then 1 else 0
  {
    hide Serving;
    hide IsServerHandler;
    ServingOne(hs[i]);
    ServingCat(hs[..i], hs[i + 1..]);
    ServingCat(hs[..i], [hs[i]]);
    ServingCat(hs[..i] + [hs[i]], hs[i + 1..]);
    assert hs == hs[..i] + [hs[i]] + hs[i + 1..];
  }

  /** Exactly one timer is armed outside the idle state, and none in it. */
  predicate TimerFits(s: State, t: Timers) {
    && t.armed == (if s == Idle || t.handle.None? then {} else {t.handle.value})
    && (s != Idle ==> t.handle.Some?)
    && (t.handle.Some? ==> t.handle.value < t.next)
  }

  /** A session is made with a Pake3 sent or a status report; a report takes a Pake2 sent before it, and a Pake2 a Pake1
      accepted. */
  predicate CountsFit(cr: Crypto, s: State, secret: Option<Secret>, h: History, serving: nat) {
    && (s == AwaitPake3 ==> secret.Some? && Last(h.sent, Pake2Op) == Some(Pake2Of(cr, secret.value)))
    && |h.sessions| == Count(h.sent, Pake3Op) + Count(h.sent, StatusReportOp)
    && Count(h.sent, StatusReportOp) + (if s == AwaitPake3 then 1 else 0) <= Count(h.sent, Pake2Op)
    && Count(h.sent, Pake2Op) + serving <= h.accepted
  }

  predicate Keeps(cr: Crypto, p: Party) {
    TimerFits(p.state, p.timers) && CountsFit(cr, p.state, p.stored.secret, p.history, Serving(p.pending))
  }

  lemma SetStateFits(p: Party, s: State)
    requires TimerFits(p.state, p.timers)
    ensures TimerFits(SetState(p, s).state, SetState(p, s).timers)
  {
  }

  lemma TimeoutKeeps(cr: Crypto, p: Party, timer: nat)
    requires Keeps(cr, p)
    ensures Keeps(cr, Timeout(p, timer))
  {
    hide Pake2Of;
    hide Serving;
  }

  /** What a message adds to the counts. */
  lemma SendCounts(p: Party, opcode: Opcode, payload: bytes)
    ensures forall o ::
      Count(Send(p, opcode, payload).history.sent, o) == Count(p.history.sent, o) + if o == opcode then 1 else 0
    ensures forall o ::
      Last(Send(p, opcode, payload).history.sent, o) == if o == opcode then Some(payload) else Last(p.history.sent, o)
  {
    hide Count;
    hide Last;
    forall o
      ensures Count(Send(p, opcode, payload).history.sent, o) == Count(p.history.sent, o) + if o == opcode then 1 else 0
      ensures Last(Send(p, opcode, payload).history.sent, o)
              == if o == opcode then Some(payload) else Last(p.history.sent, o)
    {
      SentSnoc(p.history.sent, Message(opcode, payload), o);
    }
  }

  /** A message is sent and the state set, without a session and without a handler gone. */
  lemma AnswerKeeps(cr: Crypto, p: Party, s: State, opcode: Opcode, payload: bytes)
    requires Keeps(cr, p) && s != AwaitPake3 && opcode != Pake2Op && opcode != Pake3Op && opcode != StatusReportOp
    ensures Keeps(cr, Send(SetState(p, s), opcode, payload))
  {
    hide Pake2Of;
    hide Serving;
    hide TimerFits;
    hide Count;
    hide Last;
    SetStateFits(p, s);
    SendCounts(SetState(p, s), opcode, payload);
  }

  lemma StartKeeps(cr: Crypto, p: Party, random: Random, id: SessionId)
    requires Keeps(cr, p)
    ensures Keeps(cr, StartPase(p, random, id))
  {
    hide TimerFits;
    hide CountsFit;
    hide Send;
    hide SetState;
    hide RequestPayload;
    if p.state == Idle {
      var payload := RequestPayload(random, id);
      var s := p.stored.(initiator := true, initiatorSessionId := Num(id), initiatorRandom := Buf(random),
                         request := Some(payload));
      AnswerKeeps(cr, p.(stored := s), AwaitPbkdfParamRsp, ParamRequestOp, payload);
    }
  }

  lemma AnswerRequestKeeps(cr: Crypto, p: Party, random: Random, id: SessionId)
    requires Keeps(cr, p)
    ensures Keeps(cr, SendPbkdfParamResponse(p, random, id))
  {
    hide TimerFits;
    hide CountsFit;
    hide Send;
    hide SetState;
    hide ToStringHex;
    hide EncodeForest;
    hide Hex;
    match ToStringHex(p.stored.initiatorRandom)
    case Err(_) =>
    case Ok(initiatorRandom) =>
      var e := ParamResponse(initiatorRandom, random, id, p.stored.iterations, Hex(SALT));
      match EncodeForest([e])
      case Err(_) =>
      case Ok(payload) =>
        var q := p.(stored := p.stored.(responderSessionId := Num(id)));
        AnswerKeeps(cr, q.(stored := q.stored.(response := Some(payload))), AwaitPake1, ParamResponseOp, payload);
  }

  lemma RequestKeeps(cr: Crypto, p: Party, payload: bytes, random: Random, id: SessionId)
    requires Keeps(cr, p)
    ensures Keeps(cr, OnPbkdfParamRequest(p, payload, random, id))
  {
    hide TimerFits;
    hide CountsFit;
    hide SendPbkdfParamResponse;
    hide Members;
    hide Tagged;
    if p.state == Idle && Members(payload).Ok? {
      var members := Members(payload).value;
      var s := p.stored.(initiatorRandom := Tagged(members, 1), initiatorSessionId := Tagged(members, 2),
                         initiator := false, request := Some(payload));
      AnswerRequestKeeps(cr, p.(stored := s), random, id);
    }
  }

  lemma OneServing(hs: seq<Handler>, h: Handler)
    ensures Serving(hs + [h]) == Serving(hs) + if IsServerHandler(h) then 1 else 0
  {
    assert (hs + [h])[..|hs|] == hs;
  }

  /** At most a handler is suspended. */
  predicate Suspends(p: Party, q: Party, server: bool) {
    && q.state == p.state && q.timers == p.timers && q.stored.secret == p.stored.secret
    && q.history.sent == p.history.sent && q.history.sessions == p.history.sessions
    && (q.pending == p.pending
        || (q.pending != [] && q.pending[..|q.pending| - 1] == p.pending
            && IsServerHandler(q.pending[|q.pending| - 1]) == server))
  }

  lemma SuspendingKeeps(cr: Crypto, p: Party, q: Party, server: bool)
    requires Keeps(cr, p) && Suspends(p, q, server)
            && q.history.accepted == p.history.accepted + if server then 1 else 0
    ensures Keeps(cr, q)
  {
    hide TimerFits;
    hide Pake2Of;
    hide Count;
    hide Last;
  }

  lemma ResponseKeeps(cr: Crypto, p: Party, payload: bytes)
    requires Keeps(cr, p)
    ensures Keeps(cr, OnPbkdfParamResponse(cr, p, payload))
  {
    hide Keeps;
    hide Members;
    hide Tagged;
    hide At;
    hide Verifier;
    hide Context;
    var q := OnPbkdfParamResponse(cr, p, payload);
    assert q.pending != p.pending ==> q.pending[..|q.pending| - 1] == p.pending;
    SuspendingKeeps(cr, p, q, false);
  }

  lemma Pake1Keeps(cr: Crypto, p: Party, payload: bytes)
    requires Keeps(cr, p)
    ensures Keeps(cr, OnPake1(cr, p, payload))
  {
    hide Keeps;
    hide Field;
    hide ToStringHex;
    hide Verifier;
    hide Context;
    if p.state == AwaitPake1 {
      var q := OnPake1(cr, p, payload);
      assert q.pending != p.pending ==> q.pending[..|q.pending| - 1] == p.pending;
      SuspendingKeeps(cr, p, q, true);
    }
  }

  lemma Pake2Keeps(cr: Crypto, p: Party, payload: bytes)
    requires Keeps(cr, p)
    ensures Keeps(cr, OnPake2(cr, p, payload))
  {
    hide TimerFits;
    hide Pake2Of;
    hide Pake3Payload;
    hide Field;
    hide ToStringHex;
    hide Serving;
    hide Count;
    hide Last;
    var q := OnPake2(cr, p, payload);
    if q.history != p.history {
      var secret := q.stored.secret.value;
      var r := SetState(p.(stored := q.stored), Idle);
      SetStateFits(p, Idle);
      SendCounts(r, Pake3Op, Pake3Payload(cr.mac(secret.keys.kcA, secret.pB)));
    }
  }

  lemma Pake3Keeps(cr: Crypto, p: Party, payload: bytes)
    requires Keeps(cr, p)
    ensures Keeps(cr, OnPake3(cr, p, payload))
  {
    hide TimerFits;
    hide Pake2Of;
    hide Field;
    hide Serving;
    hide Count;
    hide Last;
    if OnPake3(cr, p, payload) != p {
      var q := CreateSecureSession(Send(p, StatusReportOp, SUCCESS_REPORT));
      SendCounts(p, StatusReportOp, SUCCESS_REPORT);
      SetStateFits(q, Idle);
    }
  }

  lemma ResumeKeeps(cr: Crypto, p: Party, i: nat, scalar: bytes)
    requires Keeps(cr, p)
    ensures Keeps(cr, Resume(cr, p, i, scalar))
  {
    hide TimerFits;
    hide Pake2Of;
    hide Count;
    hide Last;
    hide Serving;
    hide Drop;
    hide ClientFinish;
    hide ServerFinish;
    if i < |p.pending| {
      var q, h := p.(pending := Drop(p.pending, i)), p.pending[i];
      ServingDrop(p.pending, i);
      match h
      case ServerVerifies(w) =>
        if q.stored.context.Some? { OneServing(q.pending, ServerStarts(q.stored.context.value, w, scalar)); }
      case ClientVerifies(w) =>
        if q.stored.context.Some? { OneServing(q.pending, ClientStarts(q.stored.context.value, w, scalar)); }
      case ServerStarts(context, w, y) => ServerFinishKeeps(cr, q, context, w, y);
      case ClientStarts(context, w, x) => ClientFinishKeeps(cr, q, context, w, x);
    }
  }

  lemma ClientFinishKeeps(cr: Crypto, p: Party, context: bytes, verifier: bytes, scalar: bytes)
    requires Keeps(cr, p)
    ensures Keeps(cr, ClientFinish(cr, p, context, verifier, scalar))
  {
    hide Keeps;
    hide Send;
    hide SetState;
    hide Pake1Payload;
    hide Hex;
    var pA := cr.shareA(verifier, scalar);
    var q := p.(stored := p.stored.(client := Some(Client(context, verifier, scalar)), pA := Str(Hex(pA))));
    assert Keeps(cr, q) by { SecretKeeps(cr, p, q); }
    AnswerKeeps(cr, q, AwaitPake2, Pake1Op, Pake1Payload(pA));
  }

  lemma SecretKeeps(cr: Crypto, p: Party, q: Party)
    requires Keeps(cr, p) && q == p.(stored := q.stored) && q.stored.secret == p.stored.secret
    ensures Keeps(cr, q)
  {
  }

  /** A suspended handler goes in exchange for a Pake2. */
  lemma ServerFinishKeeps(cr: Crypto, p: Party, context: bytes, verifier: bytes, scalar: bytes)
    requires Keeps(cr, p) && Count(p.history.sent, Pake2Op) + Serving(p.pending) < p.history.accepted
    ensures Keeps(cr, ServerFinish(cr, p, context, verifier, scalar))
  {
    hide TimerFits;
    hide Pake2Of;
    hide Serving;
    hide Count;
    hide Last;
    var r := ServerFinish(cr, p, context, verifier, scalar);
    if r != p {
      SetStateFits(p, AwaitPake3);
      SendCounts(SetState(p, AwaitPake3), Pake2Op, Pake2Of(cr, r.stored.secret.value));
    }
  }

  lemma RejectKeeps(cr: Crypto, p: Party, i: nat)
    requires Keeps(cr, p)
    ensures Keeps(cr, Reject(p, i))
  {
    hide TimerFits;
    hide Pake2Of;
    hide Count;
    hide Last;
    hide Serving;
    if i < |p.pending| {
      ServingDrop(p.pending, i);
    }
  }

  lemma MessageKeeps(cr: Crypto, p: Party, m: Message, random: Random, id: SessionId)
    requires Keeps(cr, p)
    ensures Keeps(cr, OnExchangeMessage(cr, p, m, random, id))
  {
    hide Keeps;
    match m.opcode
    case ParamRequestOp => RequestKeeps(cr, p, m.payload, random, id);
    case ParamResponseOp => ResponseKeeps(cr, p, m.payload);
    case Pake1Op => Pake1Keeps(cr, p, m.payload);
    case Pake2Op => Pake2Keeps(cr, p, m.payload);
    case Pake3Op => Pake3Keeps(cr, p, m.payload);
    case StatusReportOp =>
  }

  lemma StepKeeps(cr: Crypto, p: Party, e: Event)
    requires Keeps(cr, p)
    ensures Keeps(cr, Step(cr, p, e))
  {
    hide Keeps;
    hide OnExchangeMessage;
    match e
    case Starts(random, id) => StartKeeps(cr, p, random, id);
    case Receives(m, random, id) => MessageKeeps(cr, p, m, random, id);
    case Resumes(i, scalar) => ResumeKeeps(cr, p, i, scalar);
    case Rejects(i) => RejectKeeps(cr, p, i);
    case TimesOut(timer) => TimeoutKeeps(cr, p, timer);
  }

  lemma {:induction false} RunKeeps(cr: Crypto, events: seq<Event>)
    ensures Keeps(cr, Run(cr, events))
  {
    if events != [] {
      var before, e := events[..|events| - 1], events[|events| - 1];
      RunKeeps(cr, before);
      StepKeeps(cr, Run(cr, before), e);
    }
  }

  /** Over every run of a party, whatever it starts and is sent, however its suspended handlers interleave, fail and
      are overtaken by timers: one timer is armed exactly while it is not idle; awaiting Pake3, it holds the secret
      of the last Pake2 it sent, in which its share and the MAC of the other's under its own confirmation key are read
      back; it has made one session for every Pake3 and every status report it sent; reports are
      at most Pake2 sent, and these, with the handlers that still serve one, at most Pake1 accepted.  Its sessions are
      thus at most its Pake2 sent as long as the Pake3 it sent are at most its Pake2 not reported on; what it must not
      be told for this to hold is said of a party that only serves. */
  lemma PartyInvariant(cr: Crypto, events: seq<Event>)
    ensures var p := Run(cr, events);
            var pake2, pake3 := Count(p.history.sent, Pake2Op), Count(p.history.sent, Pake3Op);
            var reports := Count(p.history.sent, StatusReportOp);
            && (p.state != Idle <==> |p.timers.armed| == 1) && (p.state == Idle <==> p.timers.armed == {})
            && (p.state == AwaitPake3 ==>
                  p.stored.secret.Some? && Last(p.history.sent, Pake2Op) == Some(Pake2Of(cr, p.stored.secret.value)))
            && (p.state == AwaitPake3 ==>
                  var payload, secret := Last(p.history.sent, Pake2Op).value, p.stored.secret.value;
                  && Field(payload, 0) == Ok(Buf(secret.pB))
                  && Field(payload, 1) == Ok(Buf(cr.mac(secret.keys.kcB, secret.pA))))
            && |p.history.sessions| == pake3 + reports
            && reports <= pake2 && pake2 + Serving(p.pending) <= p.history.accepted
            && (|p.history.sessions| <= pake2 <==> pake3 <= pake2 - reports)
  {
    hide Run;
    hide Pake2Of;
    hide Field;
    RunKeeps(cr, events);
    var p := Run(cr, events);
    if p.state == AwaitPake3 {
      Pake2Holds(cr, p.stored.secret.value);
    }
  }

  /** A Pake2 holds the server's share, and the MAC of the client's share under the server's confirmation key. */
  lemma Pake2Holds(cr: Crypto, s: Secret)
    ensures Field(Pake2Of(cr, s), 0) == Ok(Buf(s.pB))
    ensures Field(Pake2Of(cr, s), 1) == Ok(Buf(cr.mac(s.keys.kcB, s.pA)))
  {
    hide Field;
    hide Pake2Payload;
    Pake2Parses(s.pB, cr.mac(s.keys.kcB, s.pA));
  }

  // ----- a party that only serves

  /** It starts nothing, and is sent no parameter response.  With either, a party can make a session without a Pake2. */
  predicate Serves(e: Event) {
    !e.Starts? && !(e.Receives? && e.message.opcode.ParamResponseOp?)
  }

  /** Nothing of the client's part has begun. */
  predicate NoClientPart(p: Party) {
    p.state != AwaitPake2 && Count(p.history.sent, Pake3Op) == 0 && Serving(p.pending) == |p.pending|
  }

  lemma NoClientStep(cr: Crypto, p: Party, e: Event)
    requires NoClientPart(p) && Serves(e)
    ensures NoClientPart(Step(cr, p, e))
  {
    hide Pake2Of;
    hide Count;
    hide Serving;
    hide OnPbkdfParamRequest;
    hide OnPake1;
    hide OnPake3;
    hide Resume;
    hide Drop;
    match e
    case Receives(m, random, id) =>
      NoClientMessage(cr, p, m.payload, random, id);
    case Resumes(i, scalar) => NoClientResume(cr, p, i, scalar);
    case Rejects(i) =>
      if i < |p.pending| { ServingDrop(p.pending, i); ServingAtMost(Drop(p.pending, i)); DropLength(p.pending, i); }
    case TimesOut(timer) =>
  }

  lemma {:induction false} ServingAtMost(hs: seq<Handler>)
    ensures Serving(hs) <= |hs|
  {
    if hs != [] {
      ServingAtMost(hs[..|hs| - 1]);
    }
  }

  lemma DropLength(hs: seq<Handler>, i: nat)
    requires i < |hs|
    ensures |Drop(hs, i)| == |hs| - 1
  {
  }

  lemma NoClientMessage(cr: Crypto, p: Party, payload: bytes, random: Random, id: SessionId)
    requires NoClientPart(p)
    ensures NoClientPart(OnPbkdfParamRequest(p, payload, random, id))
    ensures NoClientPart(OnPake1(cr, p, payload)) && NoClientPart(OnPake3(cr, p, payload))
    ensures OnPake2(cr, p, payload) == p
  {
    hide Members;
    hide Tagged;
    hide Field;
    hide ToStringHex;
    hide EncodeForest;
    hide Hashed;
    hide Verifier;
    hide Hex;
    hide Count;
    hide Serving;
    hide SetTimeout;
    hide ClearTimeout;
    var q := OnPbkdfParamRequest(p, payload, random, id);
    if q.history != p.history {
      SentSnoc(p.history.sent, Message(ParamResponseOp, q.stored.response.value), Pake3Op);
    }
    SentSnoc(p.history.sent, Message(StatusReportOp, SUCCESS_REPORT), Pake3Op);
    var r := OnPake1(cr, p, payload);
    if r.pending != p.pending {
      var w :| r.pending == p.pending + [ServerVerifies(w)];
      OneServing(p.pending, ServerVerifies(w));
    }
  }

  lemma NoClientResume(cr: Crypto, p: Party, i: nat, scalar: bytes)
    requires NoClientPart(p)
    ensures NoClientPart(Resume(cr, p, i, scalar))
  {
    hide Pake2Of;
    hide Count;
    hide Serving;
    hide Drop;
    hide SetTimeout;
    hide ClientFinish;
    if i < |p.pending| {
      var q, h := p.(pending := Drop(p.pending, i)), p.pending[i];
      ServingDrop(p.pending, i);
      ServingAtMost(q.pending);
      DropLength(p.pending, i);
      if h.ServerVerifies? && q.stored.context.Some? {
        OneServing(q.pending, ServerStarts(q.stored.context.value, h.verifier, scalar));
      } else if h.ServerStarts? {
        var r := ServerFinish(cr, q, h.context, h.verifier, h.scalar);
        if r != q {
          SentSnoc(p.history.sent, Message(Pake2Op, Pake2Of(cr, r.stored.secret.value)), Pake3Op);
        }
      }
    }
  }

  /** A party that starts nothing and is sent no parameter response sends no Pake3, and so makes at most as many
      sessions as it sends Pake2. */
  lemma {:induction false} ServingPartyBound(cr: Crypto, events: seq<Event>)
    requires forall i :: 0 <= i < |events| ==> Serves(events[i])
    ensures NoClientPart(Run(cr, events))
    ensures |Run(cr, events).history.sessions| <= Count(Run(cr, events).history.sent, Pake2Op)
  {
    hide NoClientPart;
    if events != [] {
      var before, e := events[..|events| - 1], events[|events| - 1];
      ServingPartyBound(cr, before);
      NoClientStep(cr, Run(cr, before), e);
    } else {
      NoClientAtFirst();
    }
    PartyInvariant(cr, events);
    NoClientCounts(Run(cr, events));
  }

  lemma NoClientAtFirst()
    ensures NoClientPart(FRESH)
  {
  }

  lemma NoClientCounts(p: Party)
    requires NoClientPart(p)
    ensures Count(p.history.sent, Pake3Op) == 0
  {
  }
}
