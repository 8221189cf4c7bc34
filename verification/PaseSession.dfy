/** The PASE party in place: the class of src/protocols/session/PaseSession.js, each method against its step. */
module PaseSessions {
  import opened Bytes
  import opened Tlv
  import TlvPrinter
  import opened TlvAccess
  import opened PaseMessages
  import opened Pase

  class PaseSession {
    const cr: Crypto

    var state: State
    var stateTimeout: Option<nat>
    var initiator: bool
    var initiatorSessionId: Value
    var responderSessionId: Value
    var initiatorRandom: Value
    var request: Option<bytes>
    var response: Option<bytes>
    var iterations: Value
    var salt: Value
    var pA: Value
    var spakeContext: Option<bytes>
    var spakeClient: Option<Client>
    var secret: Option<Secret>

    // The surroundings: armed timers, suspended handlers, messages sent and sessions made.
    var armed: set<nat>
    var nextTimer: nat
    var pending: seq<Handler>
    var sent: seq<Message>
    var sessions: seq<Made>
    var accepted: nat

    /** What has happened to this party. */
    ghost var events: seq<Event>

    /** It is where its events lead, and so keeps what every party keeps. */
    ghost predicate Valid()
      reads this
    {
      Now() == Run(cr, events) && Keeps(cr, Now())
    }

    /** Every step extends the run. */
    lemma Extends(before: seq<Event>, e: Event)
      requires events == before + [e] && Keeps(cr, Run(cr, before)) && Now() == Step(cr, Run(cr, before), e)
      ensures Valid()
    {
      hide Step;
      hide Keeps;
      assert events[..|events| - 1] == before;
      StepKeeps(cr, Run(cr, before), e);
    }

    constructor (cr: Crypto)
      ensures Now() == FRESH && this.cr == cr
      ensures Valid() && events == []
    {
      events := [];
      this.cr := cr;
      state, stateTimeout, initiator := Idle, None, true;
      initiatorSessionId, responderSessionId, initiatorRandom := Undefined, Undefined, Undefined;
      request, response, iterations, salt := None, None, Num(ITERATIONS), Str(SALT);
      pA, spakeContext, spakeClient, secret := Undefined, None, None, None;
      armed, nextTimer, pending, sent, sessions, accepted := {}, 0, [], [], [], 0;
    }

    function Now(): Party
      reads this
    {
      Party(state, Timers(armed, stateTimeout, nextTimer), StoredNow(), pending, History(sent, sessions, accepted))
    }

    function StoredNow(): Stored
      reads this
    {
      Stored(initiator, initiatorSessionId, responderSessionId, initiatorRandom, request, response, iterations, salt,
             pA, spakeContext, spakeClient, secret)
    }

    // ----- timers

    method ClearTimeout()
      modifies this`armed
      ensures Now() == old(Now()).(timers := Pase.ClearTimeout(old(Now()).timers))
    {
      if stateTimeout.Some? {
        armed := armed - {stateTimeout.value};
      }
    }

    method SetTimeout()
      modifies this`armed, this`stateTimeout, this`nextTimer
      ensures Now() == old(Now()).(timers := Pase.SetTimeout(old(Now()).timers))
    {
      ClearTimeout();
      stateTimeout := Some(nextTimer);
      armed := armed + {nextTimer};
      nextTimer := nextTimer + 1;
    }

    method SetState(s: State)
      modifies this`state, this`armed, this`stateTimeout, this`nextTimer
      ensures Now() == Pase.SetState(old(Now()), s)
    {
      state := s;
      if s != Idle {
        SetTimeout();
      } else {
        ClearTimeout();
      }
    }

    method OnTimeout(timer: nat)
      requires Valid()
      modifies this
      ensures Valid() && events == old(events) + [TimesOut(timer)]
      ensures Now() == Timeout(old(Now()), timer)
    {
      hide Keeps;
      hide Run;
      if timer in armed {
        armed := armed - {timer};
        SetState(Idle);
      }
      events := events + [TimesOut(timer)];
      Extends(old(events), TimesOut(timer));
    }

    // ----- sending

    method Transmit(opcode: Opcode, payload: bytes)
      modifies this`sent
      ensures Now() == Send(old(Now()), opcode, payload)
    {
      sent := sent + [Message(opcode, payload)];
    }

    method CreateSecureSession()
      modifies this`sessions
      ensures Now() == Pase.CreateSecureSession(old(Now()))
    {
      if secret.Some? {
        if initiator {
          sessions := sessions + [Made(initiatorSessionId, responderSessionId, secret.value, request, response)];
        } else {
          sessions := sessions + [Made(responderSessionId, initiatorSessionId, secret.value, request, response)];
        }
      }
    }

    method StartPase(random: Random, id: SessionId)
      requires Valid()
      modifies this
      ensures Valid() && events == old(events) + [Starts(random, id)]
      ensures Now() == Pase.StartPase(old(Now()), random, id)
    {
      hide RequestPayload;
      hide Pase.SendPbkdfParamRequest;
      hide Keeps;
      hide Run;
      if state == Idle {
        SendPbkdfParamRequest(random, id, RequestPayload(random, id));
      }
      events := events + [Starts(random, id)];
      Extends(old(events), Starts(random, id));
    }

    method SendPbkdfParamRequest(random: Random, id: SessionId, payload: bytes)
      modifies this
      ensures events == old(events)
      ensures Now() == Pase.SendPbkdfParamRequest(old(Now()), random, id, payload)
    {
      hide Pase.SetState;
      hide Send;
      StoreOwnRequest(random, id, payload);
      SetState(AwaitPbkdfParamRsp);
      Transmit(ParamRequestOp, payload);
    }

    method StoreOwnRequest(random: Random, id: SessionId, payload: bytes)
      modifies this`initiator, this`initiatorSessionId, this`initiatorRandom, this`request
      ensures Now() == old(Now()).(stored := old(StoredNow()).(initiator := true, initiatorSessionId := Num(id),
                                                               initiatorRandom := Buf(random),
                                                               request := Some(payload)))
    {
      initiator := true;
      initiatorSessionId := Num(id);
      initiatorRandom := Buf(random);
      request := Some(payload);
    }

    method SendPbkdfParamResponse(random: Random, id: SessionId)
      modifies this
      ensures events == old(events)
      ensures Now() == Pase.SendPbkdfParamResponse(old(Now()), random, id)
    {
      hide TlvPrinter.EncodeForest;
      hide Hex;
      hide ToStringHex;
      hide ParamResponse;
      hide Pase.SetState;
      hide Send;
      var from := ToStringHex(initiatorRandom);
      if from.Err? {
        return;
      }
      responderSessionId := Num(id);
      var payload := TlvPrinter.EncodeForest([ParamResponse(from.value, random, id, iterations, Hex(SALT))]);
      if payload.Err? {
        return;
      }
      response := Some(payload.value);
      assert Now() == old(Now()).(stored := StoredNow());
      SetState(AwaitPake1);
      Transmit(ParamResponseOp, payload.value);
    }

    // ----- receiving

    method OnPbkdfParamRequest(payload: bytes, random: Random, id: SessionId)
      modifies this
      ensures events == old(events)
      ensures Now() == Pase.OnPbkdfParamRequest(old(Now()), payload, random, id)
    {
      hide Members;
      hide Tagged;
      hide Pase.SendPbkdfParamResponse;
      if state != Idle {
        return;
      }
      var members := Members(payload);
      if members.Err? {
        return;
      }
      initiatorRandom := Tagged(members.value, 1);
      initiatorSessionId := Tagged(members.value, 2);
      initiator := false;
      request := Some(payload);
      assert Now() == old(Now()).(stored := StoredNow());
      SendPbkdfParamResponse(random, id);
    }

    /** `computeContext`, into a new SPAKE2+ instance. */
    method ComputeContext() returns (outcome: Result<()>)
      modifies this`spakeContext
      ensures var s := Hashed(cr, old(StoredNow()));
              if s.Ok? then outcome.Ok? && Now() == old(Now()).(stored := s.value)
              else outcome.Err? && Now() == old(Now())
    {
      hide Context;
      if request.None? || response.None? {
        return Err(Thrown);
      }
      spakeContext := Some(Context(cr, request.value, response.value));
      return Ok(());
    }

    /** `generateVerifier`, up to its `await`. */
    method GenerateVerifier(server: bool)
      modifies this`pending
      ensures Now() == AwaitVerifier(cr, old(Now()), server)
    {
      var w := Verifier(cr, StoredNow());
      if w.Ok? {
        pending := pending + [if server then ServerVerifies(w.value) else ClientVerifies(w.value)];
      }
    }

    method OnPbkdfParamResponse(payload: bytes)
      modifies this
      ensures events == old(events)
      ensures Now() == Pase.OnPbkdfParamResponse(cr, old(Now()), payload)
    {
      hide Members;
      hide Tagged;
      hide Pase.OnParameters;
      response := Some(payload);
      var members := Members(payload);
      if members.Err? {
        return;
      }
      responderSessionId := Tagged(members.value, 3);
      OnParameters(Tagged(members.value, 4));
    }

    method OnParameters(parameters: Value)
      modifies this
      ensures events == old(events)
      ensures Now() == Pase.OnParameters(cr, old(Now()), parameters)
    {
      hide At;
      hide Hashed;
      hide AwaitVerifier;
      hide Given;
      var count, seasoning := At(parameters, 0), At(parameters, 1);
      if count.Err? || seasoning.Err? {
        return;
      }
      var outcome := ComputeContext();
      if outcome.Err? {
        return;
      }
      iterations := Given(count.value, iterations);
      salt := Given(seasoning.value, salt);
      GenerateVerifier(false);
    }

    method OnPake1(payload: bytes)
      modifies this
      ensures events == old(events)
      ensures Now() == Pase.OnPake1(cr, old(Now()), payload)
    {
      hide Field;
      hide ToStringHex;
      hide Hashed;
      hide AwaitVerifier;
      if state != AwaitPake1 {
        return;
      }
      accepted := accepted + 1;
      var share := Field(payload, 0);
      if share.Err? {
        return;
      }
      pA := share.value;
      var outcome := ComputeContext();
      if outcome.Err? || ToStringHex(pA) == Err(Thrown) {
        return;
      }
      GenerateVerifier(true);
    }

    method OnPake2(payload: bytes)
      modifies this
      ensures events == old(events)
      ensures Now() == Pase.OnPake2(cr, old(Now()), payload)
    {
      hide Field;
      hide ToStringHex;
      hide Pake3Payload;
      hide Pase.SetState;
      if state != AwaitPake2 {
        return;
      }
      var pB, cB := Field(payload, 0), Field(payload, 1);
      if pB.Err? || cB.Err? || !pB.value.Buf? || |pB.value.data| >= 0x1_0000 || spakeClient.None? {
        return;
      }
      var k := spakeClient.value;
      var keys := cr.clientKeys(k.context, k.verifier, k.scalar, pB.value.data);
      if keys.None? {
        return;
      }
      secret := Some(Secret(keys.value, k.context, k.verifier, cr.shareA(k.verifier, k.scalar), pB.value.data));
      if ToStringHex(cB.value) == Err(Thrown) {
        return;
      }
      SetState(Idle);
      Transmit(Pake3Op, Pake3Payload(cr.mac(keys.value.kcA, pB.value.data)));
      CreateSecureSession();
    }

    method OnPake3(payload: bytes)
      modifies this
      ensures events == old(events)
      ensures Now() == Pase.OnPake3(cr, old(Now()), payload)
    {
      hide Field;
      hide Pase.SetState;
      if state != AwaitPake3 || secret.None? {
        return;
      }
      var cA := Field(payload, 0);
      if cA != Ok(Buf(cr.mac(secret.value.keys.kcA, secret.value.pB))) {
        return;
      }
      Transmit(StatusReportOp, SUCCESS_REPORT);
      CreateSecureSession();
      SetState(Idle);
    }

    method Dispatch(m: Message, random: Random, id: SessionId)
      modifies this
      ensures events == old(events)
      ensures Now() == Pase.OnExchangeMessage(cr, old(Now()), m, random, id)
    {
      hide Pase.OnPbkdfParamRequest;
      hide Pase.OnPbkdfParamResponse;
      hide Pase.OnPake1;
      hide Pase.OnPake2;
      hide Pase.OnPake3;
      match m.opcode
      case ParamRequestOp => OnPbkdfParamRequest(m.payload, random, id);
      case ParamResponseOp => OnPbkdfParamResponse(m.payload);
      case Pake1Op => OnPake1(m.payload);
      case Pake2Op => OnPake2(m.payload);
      case Pake3Op => OnPake3(m.payload);
      case StatusReportOp =>
    }

    method OnExchangeMessage(m: Message, random: Random, id: SessionId)
      requires Valid()
      modifies this
      ensures Valid() && events == old(events) + [Receives(m, random, id)]
      ensures Now() == Pase.OnExchangeMessage(cr, old(Now()), m, random, id)
    {
      hide Pase.OnExchangeMessage;
      hide Keeps;
      hide Run;
      Dispatch(m, random, id);
      events := events + [Receives(m, random, id)];
      Extends(old(events), Receives(m, random, id));
    }

    // ----- what follows an `await`

    method ResumeHandler(i: nat, scalar: bytes)
      requires Valid()
      modifies this
      ensures Valid() && events == old(events) + [Resumes(i, scalar)]
      ensures Now() == Resume(cr, old(Now()), i, scalar)
    {
      hide Resume;
      hide Keeps;
      hide Run;
      GoOn(i, scalar);
      events := events + [Resumes(i, scalar)];
      Extends(old(events), Resumes(i, scalar));
    }

    /** The awaited promise is rejected. */
    method RejectHandler(i: nat)
      requires Valid()
      modifies this
      ensures Valid() && events == old(events) + [Rejects(i)]
      ensures Now() == Reject(old(Now()), i)
    {
      hide Drop;
      hide Keeps;
      hide Run;
      if i < |pending| {
        pending := Drop(pending, i);
      }
      events := events + [Rejects(i)];
      Extends(old(events), Rejects(i));
    }

    method GoOn(i: nat, scalar: bytes)
      modifies this
      ensures events == old(events)
      ensures Now() == Resume(cr, old(Now()), i, scalar)
    {
      hide ServerFinish;
      hide ClientFinish;
      hide Drop;
      if i >= |pending| {
        return;
      }
      var h := pending[i];
      pending := Drop(pending, i);
      match h
      case ServerVerifies(w) =>
        if spakeContext.Some? { pending := pending + [ServerStarts(spakeContext.value, w, scalar)]; }
      case ClientVerifies(w) =>
        if spakeContext.Some? { pending := pending + [ClientStarts(spakeContext.value, w, scalar)]; }
      case ServerStarts(context, w, y) => FinishPake1(context, w, y);
      case ClientStarts(context, w, x) => FinishPbkdfParamResponse(context, w, x);
    }

    /** The end of `onPbkdfParamResponse`, and `sendPake1`. */
    method FinishPbkdfParamResponse(context: bytes, verifier: bytes, scalar: bytes)
      modifies this
      ensures events == old(events)
      ensures Now() == ClientFinish(cr, old(Now()), context, verifier, scalar)
    {
      hide Pake1Payload;
      hide Hex;
      hide Pase.SetState;
      hide Send;
      spakeClient := Some(Client(context, verifier, scalar));
      var share := cr.shareA(verifier, scalar);
      pA := Str(Hex(share));
      assert Now() == old(Now()).(stored := StoredNow());
      SetState(AwaitPake2);
      Transmit(Pake1Op, Pake1Payload(share));
    }

    /** The end of `onPake1`, and `sendPake2`. */
    method FinishPake1(context: bytes, verifier: bytes, scalar: bytes)
      modifies this
      ensures events == old(events)
      ensures Now() == ServerFinish(cr, old(Now()), context, verifier, scalar)
    {
      hide Pake2Payload;
      hide Pase.SetState;
      if !pA.Buf? {
        return;
      }
      var keys := cr.serverKeys(context, verifier, scalar, pA.data);
      if keys.None? {
        return;
      }
      secret := Some(Secret(keys.value, context, verifier, pA.data, cr.shareB(verifier, scalar)));
      var cB := cr.mac(keys.value.kcB, pA.data);
      SetState(AwaitPake3);
      Transmit(Pake2Op, Pake2Payload(secret.value.pB, cB));
    }
  }
}
