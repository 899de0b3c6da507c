/** The server pipeline: every structured request of a known session is answered by one correlated response. */
module Pipeline {
  import opened Bytes
  import opened Frames
  import opened Envelopes
  import opened Messages
  import Utf8

  const ECHO_SERVICE_ID: SessionId := Repeat(0xEE, 16)

  datatype RoutingError = UnhandledMessageType(code: byte)

  /** The handlers that `standard_relay` registers. */
  datatype Handler = EchoHandler | MessageHandler | HeartbeatHandler | AuthHandler

  const STANDARD_RELAY: map<MessageType, Handler> := map[
    RawEcho := EchoHandler, SendMessage := MessageHandler, Heartbeat := HeartbeatHandler,
    AuthRequest := AuthHandler, ConnectRequest := AuthHandler]

  function Handle(h: Handler, env: Envelope, m: ClientMessage, session: SessionId): Result<ServerMessage, RoutingError> {
    match (h, m)
    case (EchoHandler, CRawEcho(data)) => Ok(SRawEchoResponse(data))
    case (MessageHandler, CSendMessage(_, _)) => Ok(SSendMessageResponse(env.messageId, true))
    case (HeartbeatHandler, CHeartbeat(n)) => Ok(SHeartbeatResponse(n))
    case (AuthHandler, CAuthRequest(_, _)) => Ok(SAuthResponse(true, session))
    case (AuthHandler, CConnectRequest(p)) => Ok(SConnectionAccepted(session, p))
    case _ => Err(UnhandledMessageType(ToU8(ClientType(m))))
  }

  function Dispatch(env: Envelope, m: ClientMessage, session: SessionId): Result<ServerMessage, RoutingError> {
    if env.messageType in STANDARD_RELAY then Handle(STANDARD_RELAY[env.messageType], env, m, session)
    else Err(UnhandledMessageType(ToU8(env.messageType)))
  }

  /** What the requester must be told; `errorText` is the fixed wording of the error response. */
  function Reply(env: Envelope, m: ClientMessage, session: SessionId, errorText: Utf8.Utf8String): ServerMessage {
    match m
    case CRawEcho(data) => SRawEchoResponse(data)
    case CSendMessage(_, _) => SSendMessageResponse(env.messageId, true)
    case CHeartbeat(n) => SHeartbeatResponse(n)
    case CAuthRequest(_, _) => SAuthResponse(true, session)
    case CConnectRequest(p) => SConnectionAccepted(session, p)
    case _ => SErrorResponse(500, errorText)
  }

  lemma {:induction false} TableLookup(t: MessageType)
    ensures t in STANDARD_RELAY <==> t in {RawEcho, SendMessage, Heartbeat, AuthRequest, ConnectRequest}
    ensures t == RawEcho ==> STANDARD_RELAY[t] == EchoHandler
    ensures t == SendMessage ==> STANDARD_RELAY[t] == MessageHandler
    ensures t == Heartbeat ==> STANDARD_RELAY[t] == HeartbeatHandler
    ensures t == AuthRequest || t == ConnectRequest ==> STANDARD_RELAY[t] == AuthHandler
  {
  }

  /** What each request is answered with: an echo its own bytes, a message acceptance under its id, a heartbeat its number,
      an authentication success and a connection acceptance the session's id; the other four the error 500. */
  lemma {:induction false} ReplyIs(env: Envelope, m: ClientMessage, session: SessionId, text: Utf8.Utf8String)
    ensures m.CRawEcho? ==> Reply(env, m, session, text) == SRawEchoResponse(m.payload)
    ensures m.CSendMessage? ==> Reply(env, m, session, text) == SSendMessageResponse(env.messageId, true)
    ensures m.CHeartbeat? ==> Reply(env, m, session, text) == SHeartbeatResponse(m.sequence)
    ensures m.CAuthRequest? ==> Reply(env, m, session, text) == SAuthResponse(true, session)
    ensures m.CConnectRequest? ==> Reply(env, m, session, text) == SConnectionAccepted(session, m.peerId)
    ensures m.CDisconnectRequest? || m.CAck? || m.CKeyExchange? || m.CRelayRequest? ==>
      Reply(env, m, session, text) == SErrorResponse(500, text)
  {
  }

  /** The handler table finds, for every request under its own type, the handler that understands it, or none. */
  lemma {:induction false} TableIsComplete(env: Envelope, m: ClientMessage, session: SessionId, text: Utf8.Utf8String)
    requires env.messageType == ClientType(m)
    ensures Dispatch(env, m, session).Ok? ==> Dispatch(env, m, session).value == Reply(env, m, session, text)
    ensures Dispatch(env, m, session).Err? ==> Reply(env, m, session, text) == SErrorResponse(500, text)
    ensures Dispatch(env, m, session).Err? <==>
      m.CDisconnectRequest? || m.CAck? || m.CKeyExchange? || m.CRelayRequest?
    ensures Dispatch(env, m, session).Err? ==>
      Dispatch(env, m, session).error == UnhandledMessageType(ToU8(ClientType(m)))
  {
    TableLookup(env.messageType);
  }

  /** Every reply fits an envelope: an echo is no longer than the request it answers. */
  lemma {:induction false} RepliesFit(env: Envelope, m: ClientMessage, session: SessionId, text: Utf8.Utf8String)
    requires m.CRawEcho? ==> |m.payload| <= MAX_ENVELOPE_PAYLOAD_SIZE
    requires |text| + 6 <= MAX_ENVELOPE_PAYLOAD_SIZE
    ensures |ServerPayload(Reply(env, m, session, text))| <= MAX_ENVELOPE_PAYLOAD_SIZE
  {
  }

  class ServerPipeline {
    const sessionId: SessionId
    const errorText: Utf8.Utf8String
    var msgIdCounter: u64
    var outbound: seq<Frame>

    ghost predicate Valid() {
      |errorText| + 6 <= MAX_ENVELOPE_PAYLOAD_SIZE
    }

    constructor (sessionId: SessionId, errorText: Utf8.Utf8String)
      requires |errorText| + 6 <= MAX_ENVELOPE_PAYLOAD_SIZE
      ensures Valid() && this.sessionId == sessionId && this.errorText == errorText
      ensures msgIdCounter == 1 && outbound == []
    {
      this.sessionId, this.errorText := sessionId, errorText;
      msgIdCounter, outbound := 1, [];
    }

    /** `build_frame`: uses up one message id; never fails for a payload within the envelope limit. */
    method BuildFrame(correlationId: u64, m: ServerMessage, timestamp: u64) returns (r: Result<Frame, ProtocolError>)
      modifies this`msgIdCounter
      ensures msgIdCounter == (old(msgIdCounter) as int + 1) % 0x1_0000_0000_0000_0000
      ensures r.Ok? <==> |ServerPayload(m)| <= MAX_ENVELOPE_PAYLOAD_SIZE
      ensures r.Ok? ==> r.value.sessionId == sessionId && r.value.nonce == Repeat(0, 8) && Fits(r.value)
      ensures r.Err? ==> r.error == PayloadTooLarge(|ServerPayload(m)|, MAX_ENVELOPE_PAYLOAD_SIZE)
      ensures r.Ok? ==>
        DecodeServer(r.value.payload)
          == Ok((Envelope(V1, ServerType(m), 0, old(msgIdCounter), correlationId, timestamp, ServerPayload(m)), m))
    {
      var id := msgIdCounter;
      msgIdCounter := (msgIdCounter as int + 1) % 0x1_0000_0000_0000_0000;
      ServerRoundTrip(m, id, correlationId, timestamp);
      var encoded := EncodeServer(m, id, correlationId, timestamp);
      if encoded.Err? {
        return Err(encoded.error);
      }
      r := NewFrame(sessionId, Repeat(0, 8), encoded.value);
    }

    /** A frame under an unknown session id changes nothing. A request that decodes is answered exactly once, under
        its own message id as correlation id. Other bytes addressed to the echo service come back unchanged if they
        are within 1364 bytes, and are an error otherwise; addressed to the session they are dropped. */
    method ProcessFrame(frame: Frame, timestamp: u64) returns (r: Result<(), ProtocolError>)
      requires Valid() && Fits(frame)
      modifies this
      ensures frame.sessionId != sessionId && frame.sessionId != ECHO_SERVICE_ID ==>
        r == Ok(()) && outbound == old(outbound) && msgIdCounter == old(msgIdCounter)
      ensures (frame.sessionId == sessionId || frame.sessionId == ECHO_SERVICE_ID) && DecodeClient(frame.payload).Ok? ==>
        && r == Ok(())
        && |outbound| == |old(outbound)| + 1 && outbound[..|old(outbound)|] == old(outbound)
        && var (env, m) := DecodeClient(frame.payload).value;
           var reply := Reply(env, m, sessionId, errorText);
           var f := outbound[|old(outbound)|];
           f.sessionId == sessionId && DecodeServer(f.payload)
             == Ok((Envelope(V1, ServerType(reply), 0, old(msgIdCounter), env.messageId, timestamp,
                             ServerPayload(reply)), reply))
      ensures frame.sessionId == ECHO_SERVICE_ID && DecodeClient(frame.payload).Err? ==>
        if |frame.payload| <= MAX_ENVELOPE_PAYLOAD_SIZE
        then r == Ok(()) && outbound == old(outbound) + [frame]
        else r == Err(PayloadTooLarge(|frame.payload|, MAX_ENVELOPE_PAYLOAD_SIZE)) && outbound == old(outbound)
      ensures frame.sessionId == sessionId != ECHO_SERVICE_ID && DecodeClient(frame.payload).Err? ==>
        r == Ok(()) && outbound == old(outbound)
    {
      var isEchoService := frame.sessionId == ECHO_SERVICE_ID;
      var isCurrentSession := frame.sessionId == sessionId;
      if !isEchoService && !isCurrentSession {
        return Ok(());
      }
      var decoded := DecodeClient(frame.payload);
      if decoded.Ok? {
        r := Answer(frame.payload, timestamp);
      } else if isEchoService {
        r := Echo(frame);
      } else {
        r := Ok(());
      }
    }

    /** Dispatch of a structured request to its handler, and the response or error response it leads to. */
    method Answer(payload: seq<byte>, timestamp: u64) returns (r: Result<(), ProtocolError>)
      requires Valid() && DecodeClient(payload).Ok?
      modifies this
      ensures r == Ok(())
      ensures |outbound| == |old(outbound)| + 1 && outbound[..|old(outbound)|] == old(outbound)
      ensures var (env, m) := DecodeClient(payload).value;
        var reply := Reply(env, m, sessionId, errorText);
        var f := outbound[|old(outbound)|];
        f.sessionId == sessionId && DecodeServer(f.payload)
          == Ok((Envelope(V1, ServerType(reply), 0, old(msgIdCounter), env.messageId, timestamp,
                          ServerPayload(reply)), reply))
    {
      var (env, m) := DecodeClient(payload).value;
      DecodedClientSize(payload);
      TableIsComplete(env, m, sessionId, errorText);
      RepliesFit(env, m, sessionId, errorText);
      var dispatched := Dispatch(env, m, sessionId);
      var response := if dispatched.Ok? then dispatched.value else SErrorResponse(500, errorText);
      var built := BuildFrame(env.messageId, response, timestamp);
      outbound := outbound + [built.value];
      return Ok(());
    }

    /** Raw bytes for the echo service travel through a synthetic envelope, whose size limit they must meet. */
    method Echo(frame: Frame) returns (r: Result<(), ProtocolError>)
      requires Fits(frame)
      modifies this`outbound
      ensures if |frame.payload| <= MAX_ENVELOPE_PAYLOAD_SIZE
        then r == Ok(()) && outbound == old(outbound) + [frame]
        else r == Err(PayloadTooLarge(|frame.payload|, MAX_ENVELOPE_PAYLOAD_SIZE)) && outbound == old(outbound)
    {
      var raw := CRawEcho(frame.payload);
      var synthetic := NewEnvelope(ClientType(raw), 0, 0, 0, frame.payload);
      if synthetic.Err? {
        return Err(synthetic.error);
      }
      var dispatched := Dispatch(synthetic.value, raw, sessionId);
      if dispatched.Ok? && dispatched.value.SRawEchoResponse? {
        var reply := NewFrame(frame.sessionId, frame.nonce, dispatched.value.payload);
        outbound := outbound + [reply.value];
      }
      return Ok(());
    }
  }
}
