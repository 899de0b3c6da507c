/** The typed messages of both directions, their payload formats, and the codec that wraps them in envelopes. */
module Messages {
  import opened Bytes
  import opened Frames
  import opened Envelopes
  import opened Utf8

  type PeerId = s: seq<byte> | |s| == 32 witness Repeat(0, 32)

  datatype ClientMessage =
    | CAuthRequest(token: seq<byte>, clientVersion: u32)
    | CConnectRequest(peerId: PeerId)
    | CDisconnectRequest(reasonCode: u32)
    | CSendMessage(recipientId: PeerId, data: seq<byte>)
    | CAck(acknowledgedId: u64)
    | CHeartbeat(sequence: u64)
    | CKeyExchange(ephemeralPubkey: PeerId)
    | CRelayRequest(targetPeerId: PeerId)
    | CRawEcho(payload: seq<byte>)

  datatype DeliveryStatus = Delivered | Dropped | Queued | Failed
  datatype PeerStatus = Online | Offline | RelayActive

  datatype ServerMessage =
    | SAuthResponse(success: bool, sessionId: SessionId)
    | SConnectionAccepted(sessionId: SessionId, assignedPeerId: PeerId)
    | SConnectionRejected(reasonCode: u32, text: Utf8String)
    | SHeartbeatResponse(sequence: u64)
    | SErrorResponse(code: u32, text: Utf8String)
    | SSendMessageResponse(messageId: u64, accepted: bool)
    | SRawEchoResponse(payload: seq<byte>)
    | SIncomingMessage(senderId: PeerId, data: seq<byte>)
    | SDeliveryStatus(messageId: u64, status: DeliveryStatus)
    | SPeerEvent(peerId: PeerId, peerStatus: PeerStatus)
    | SRelayEvent(sessionId: SessionId, relayStatus: byte)

  // ---------- client to server ----------

  function ClientType(m: ClientMessage): MessageType {
    match m
    case CAuthRequest(_, _) => AuthRequest
    case CConnectRequest(_) => ConnectRequest
    case CDisconnectRequest(_) => DisconnectRequest
    case CSendMessage(_, _) => SendMessage
    case CAck(_) => Ack
    case CHeartbeat(_) => Heartbeat
    case CKeyExchange(_) => KeyExchange
    case CRelayRequest(_) => RelayRequest
    case CRawEcho(_) => RawEcho
  }

  function ClientPayload(m: ClientMessage): (s: seq<byte>) {
    match m
    case CAuthRequest(token, v) => Be(|token|, 2) + token + Be(v, 4)
    case CConnectRequest(p) => p
    case CDisconnectRequest(code) => Be(code, 4)
    case CSendMessage(to, data) => to + data
    case CAck(id) => Be(id, 8)
    case CHeartbeat(n) => Be(n, 8)
    case CKeyExchange(k) => k
    case CRelayRequest(p) => p
    case CRawEcho(data) => data
  }

  function ReadClient(t: MessageType, s: seq<byte>): (r: Result<ClientMessage, ProtocolError>)
    ensures IsServerToClient(t) ==> r == Err(UnexpectedDirection)
    ensures r.Ok? ==> ClientType(r.value) == t
  {
    match t
    case AuthRequest =>
      if |s| < 2 then Err(FrameTooShort(2, |s|))
      else
        var len := GetU16(s[..2]);
        if |s| - 2 < len + 4 then Err(FrameTooShort(len + 4, |s| - 2))
        else Ok(CAuthRequest(s[2..2 + len], GetU32(s[2 + len..6 + len])))
    case ConnectRequest => if |s| < 32 then Err(FrameTooShort(32, |s|)) else Ok(CConnectRequest(s[..32]))
    case DisconnectRequest =>
      if |s| < 4 then Err(FrameTooShort(4, |s|)) else Ok(CDisconnectRequest(GetU32(s[..4])))
    case SendMessage => if |s| < 32 then Err(FrameTooShort(32, |s|)) else Ok(CSendMessage(s[..32], s[32..]))
    case Ack => if |s| < 8 then Err(FrameTooShort(8, |s|)) else Ok(CAck(GetU64(s[..8])))
    case Heartbeat => if |s| < 8 then Err(FrameTooShort(8, |s|)) else Ok(CHeartbeat(GetU64(s[..8])))
    case KeyExchange => if |s| < 32 then Err(FrameTooShort(32, |s|)) else Ok(CKeyExchange(s[..32]))
    case RelayRequest => if |s| < 32 then Err(FrameTooShort(32, |s|)) else Ok(CRelayRequest(s[..32]))
    case RawEcho => Ok(CRawEcho(s))
    case _ => Err(UnexpectedDirection)
  }

  // ---------- server to client ----------

  function ServerType(m: ServerMessage): MessageType {
    match m
    case SAuthResponse(_, _) => AuthResponse
    case SConnectionAccepted(_, _) => ConnectionAccepted
    case SConnectionRejected(_, _) => ConnectionRejected
    case SHeartbeatResponse(_) => HeartbeatResponse
    case SErrorResponse(_, _) => ErrorResponse
    case SSendMessageResponse(_, _) => SendMessageResponse
    case SRawEchoResponse(_) => RawEchoResponse
    case SIncomingMessage(_, _) => IncomingMessageEvent
    case SDeliveryStatus(_, _) => DeliveryStatusEvent
    case SPeerEvent(_, _) => PeerEvent
    case SRelayEvent(_, _) => RelayEvent
  }

  function Flag(b: bool): byte { if b then 1 else 0 }

  function DeliveryCode(d: DeliveryStatus): byte {
    match d case Delivered => 1 case Dropped => 2 case Queued => 3 case Failed => 4
  }

  function DeliveryFrom(v: byte): DeliveryStatus {
    if v == 1 then Delivered else if v == 2 then Dropped else if v == 3 then Queued else Failed
  }

  function PeerCode(p: PeerStatus): byte {
    match p case Online => 1 case Offline => 2 case RelayActive => 3
  }

  function PeerFrom(v: byte): PeerStatus {
    if v == 1 then Online else if v == 3 then RelayActive else Offline
  }

  function ServerPayload(m: ServerMessage): (s: seq<byte>) {
    match m
    case SAuthResponse(ok, sid) => [Flag(ok)] + sid
    case SConnectionAccepted(sid, p) => sid + p
    case SConnectionRejected(code, text) => Be(code, 4) + Be(|text|, 2) + text
    case SHeartbeatResponse(n) => Be(n, 8)
    case SErrorResponse(code, text) => Be(code, 4) + Be(|text|, 2) + text
    case SSendMessageResponse(id, ok) => Be(id, 8) + [Flag(ok)]
    case SRawEchoResponse(data) => data
    case SIncomingMessage(from, data) => from + data
    case SDeliveryStatus(id, status) => Be(id, 8) + [DeliveryCode(status)]
    case SPeerEvent(p, status) => p + [PeerCode(status)]
    case SRelayEvent(sid, status) => sid + [status]
  }

  /** A 4-byte code followed by a length-prefixed text, decoded lossily. */
  function ReadCodeAndText(s: seq<byte>): (r: Result<(u32, Utf8String), ProtocolError>) {
    if |s| < 6 then Err(FrameTooShort(6, |s|))
    else
      var len := GetU16(s[4..6]);
      if |s| - 6 < len then Err(FrameTooShort(len, |s| - 6))
      else
        LossyIsValid(s[6..6 + len]);
        Ok((GetU32(s[..4]), Lossy(s[6..6 + len])))
  }

  function ReadServer(t: MessageType, s: seq<byte>): (r: Result<ServerMessage, ProtocolError>)
    ensures IsClientToServer(t) ==> r == Err(UnexpectedDirection)
    ensures r.Ok? ==> ServerType(r.value) == t
  {
    match t
    case AuthResponse =>
      if |s| < 17 then Err(FrameTooShort(17, |s|)) else Ok(SAuthResponse(s[0] != 0, s[1..17]))
    case ConnectionAccepted =>
      if |s| < 48 then Err(FrameTooShort(48, |s|)) else Ok(SConnectionAccepted(s[..16], s[16..48]))
    case ConnectionRejected =>
      (match ReadCodeAndText(s) case Err(e) => Err(e) case Ok(p) => Ok(SConnectionRejected(p.0, p.1)))
    case HeartbeatResponse =>
      if |s| < 8 then Err(FrameTooShort(8, |s|)) else Ok(SHeartbeatResponse(GetU64(s[..8])))
    case ErrorResponse =>
      (match ReadCodeAndText(s) case Err(e) => Err(e) case Ok(p) => Ok(SErrorResponse(p.0, p.1)))
    case SendMessageResponse =>
      if |s| < 9 then Err(FrameTooShort(9, |s|)) else Ok(SSendMessageResponse(GetU64(s[..8]), s[8] != 0))
    case RawEchoResponse => Ok(SRawEchoResponse(s))
    case IncomingMessageEvent =>
      if |s| < 32 then Err(FrameTooShort(32, |s|)) else Ok(SIncomingMessage(s[..32], s[32..]))
    case DeliveryStatusEvent =>
      if |s| < 9 then Err(FrameTooShort(9, |s|)) else Ok(SDeliveryStatus(GetU64(s[..8]), DeliveryFrom(s[8])))
    case PeerEvent =>
      if |s| < 33 then Err(FrameTooShort(33, |s|)) else Ok(SPeerEvent(s[..32], PeerFrom(s[32])))
    case RelayEvent =>
      if |s| < 17 then Err(FrameTooShort(17, |s|)) else Ok(SRelayEvent(s[..16], s[16]))
    case _ => Err(UnexpectedDirection)
  }

  // ---------- payload round trips ----------

  lemma {:induction false} ClientReads(m: ClientMessage)
    requires |ClientPayload(m)| < 0x1_0000
    ensures ReadClient(ClientType(m), ClientPayload(m)) == Ok(m)
  {
    ReadClientIff(ClientType(m), ClientPayload(m), m);
  }

  /** The two variants whose last field is all the rest of the payload; the others ignore what follows them. */
  predicate TakesAll(m: ClientMessage) {
    m.CSendMessage? || m.CRawEcho?
  }

  ghost predicate HoldsPayload(s: seq<byte>, m: ClientMessage) {
    && (if TakesAll(m) then s == ClientPayload(m) else ClientPayload(m) <= s)
    && (m.CAuthRequest? ==> |m.token| < 0x1_0000)
  }

  /** A payload is read as `m` exactly when its type is that of `m` and it is, or for most types begins with, the
      payload of `m`: every field is recovered, and a payload that is too short for its fields is refused. */
  lemma {:induction false} ReadClientIff(t: MessageType, s: seq<byte>, m: ClientMessage)
    ensures ReadClient(t, s) == Ok(m) <==> t == ClientType(m) && HoldsPayload(s, m)
  {
    if t == ClientType(m) && HoldsPayload(s, m) {
      HeldIsRead(s, m);
    }
    if ReadClient(t, s) == Ok(m) {
      ReadIsHeld(t, s, m);
    }
  }

  lemma {:induction false} HeldAuthIsRead(s: seq<byte>, token: seq<byte>, v: u32)
    requires HoldsPayload(s, CAuthRequest(token, v))
    ensures ReadClient(AuthRequest, s) == Ok(CAuthRequest(token, v))
  {
    var p, k := ClientPayload(CAuthRequest(token, v)), |token|;
    assert s[..6 + k] == p;
    assert p[..2] == Be(k, 2) && p[2..2 + k] == token && p[2 + k..6 + k] == Be(v, 4);
    SliceOfPrefix(s, 6 + k, 0, 2);
    SliceOfPrefix(s, 6 + k, 2, 2 + k);
    SliceOfPrefix(s, 6 + k, 2 + k, 6 + k);
    GetPut(k, v, 0);
  }

  lemma {:induction false} HeldIsRead(s: seq<byte>, m: ClientMessage)
    requires HoldsPayload(s, m)
    ensures ReadClient(ClientType(m), s) == Ok(m)
  {
    assert s[..|ClientPayload(m)|] == ClientPayload(m);
    match m
    case CAuthRequest(token, v) => HeldAuthIsRead(s, token, v);
    case CDisconnectRequest(code) => GetPut(0, code, 0);
    case CSendMessage(to, data) => Seam(to, data);
    case CAck(id) => GetPut(0, 0, id);
    case CHeartbeat(k) => GetPut(0, 0, k);
    case _ =>
  }

  lemma {:induction false} AuthIsHeld(s: seq<byte>, token: seq<byte>, v: u32)
    requires ReadClient(AuthRequest, s) == Ok(CAuthRequest(token, v))
    ensures HoldsPayload(s, CAuthRequest(token, v))
  {
    var k := |token|;
    BeOfFromBe(s[..2]);
    BeOfFromBe(s[2 + k..6 + k]);
    assert s[..6 + k] == s[..2] + s[2..2 + k] + s[2 + k..6 + k];
  }

  lemma {:induction false} NumberIsHeld(s: seq<byte>, width: nat)
    requires width <= |s|
    ensures Be(FromBe(s[..width]), width) <= s
  {
    BeOfFromBe(s[..width]);
  }

  lemma {:induction false} ReadIsHeld(t: MessageType, s: seq<byte>, m: ClientMessage)
    requires ReadClient(t, s) == Ok(m)
    ensures t == ClientType(m) && HoldsPayload(s, m)
  {
    match m
    case CAuthRequest(token, v) => AuthIsHeld(s, token, v);
    case CDisconnectRequest(_) => NumberIsHeld(s, 4);
    case CSendMessage(to, data) => assert s == s[..32] + s[32..];
    case CAck(_) => NumberIsHeld(s, 8);
    case CHeartbeat(_) => NumberIsHeld(s, 8);
    case _ =>
  }

  lemma {:induction false} CodeAndTextReads(code: u32, text: Utf8String)
    requires |text| < 0x1_0000
    ensures ReadCodeAndText(Be(code, 4) + Be(|text|, 2) + text) == Ok((code, text))
  {
    var s := Be(code, 4) + Be(|text|, 2) + text;
    assert s[..4] == Be(code, 4) && s[4..6] == Be(|text|, 2) && s[6..6 + |text|] == text;
    GetPut(|text|, code, 0);
    LossyOfValid(text);
  }

  lemma {:induction false} RefusalReads(code: u32, text: Utf8String)
    requires |text| < 0x1_0000
    ensures ReadServer(ConnectionRejected, Be(code, 4) + Be(|text|, 2) + text) == Ok(SConnectionRejected(code, text))
    ensures ReadServer(ErrorResponse, Be(code, 4) + Be(|text|, 2) + text) == Ok(SErrorResponse(code, text))
  {
    CodeAndTextReads(code, text);
  }

  lemma {:induction false} SessionGrantReads(ok: bool, sid: SessionId, p: PeerId)
    ensures ReadServer(AuthResponse, [Flag(ok)] + sid) == Ok(SAuthResponse(ok, sid))
    ensures ReadServer(ConnectionAccepted, sid + p) == Ok(SConnectionAccepted(sid, p))
  {
    assert ([Flag(ok)] + sid)[1..17] == sid;
    assert (sid + p)[..16] == sid && (sid + p)[16..48] == p;
  }

  lemma {:induction false} NumberReads(n: u64, ok: bool)
    ensures ReadServer(HeartbeatResponse, Be(n, 8)) == Ok(SHeartbeatResponse(n))
    ensures ReadServer(SendMessageResponse, Be(n, 8) + [Flag(ok)]) == Ok(SSendMessageResponse(n, ok))
  {
    GetPut(0, 0, n);
    assert Be(n, 8)[..8] == Be(n, 8) && (Be(n, 8) + [Flag(ok)])[..8] == Be(n, 8);
  }

  lemma {:induction false} ResponseReads(m: ServerMessage)
    requires |ServerPayload(m)| < 0x1_0000 && IsResponse(ServerType(m))
    ensures ReadServer(ServerType(m), ServerPayload(m)) == Ok(m)
  {
    match m
    case SAuthResponse(ok, sid) => SessionGrantReads(ok, sid, Repeat(0, 32));
    case SConnectionAccepted(sid, p) => SessionGrantReads(true, sid, p);
    case SConnectionRejected(code, text) => RefusalReads(code, text);
    case SHeartbeatResponse(n) => NumberReads(n, true);
    case SErrorResponse(code, text) => RefusalReads(code, text);
    case SSendMessageResponse(id, ok) => NumberReads(id, ok);
    case _ =>
  }

  lemma {:induction false} EventReads(m: ServerMessage)
    requires IsEvent(ServerType(m))
    ensures ReadServer(ServerType(m), ServerPayload(m)) == Ok(m)
  {
    var s := ServerPayload(m);
    match m
    case SIncomingMessage(from, data) => Seam(from, data);
    case SDeliveryStatus(id, status) => GetPut(0, 0, id); assert s[..8] == Be(id, 8);
    case SPeerEvent(p, status) => assert s[..32] == p;
    case SRelayEvent(sid, status) => assert s[..16] == sid;
    case _ =>
  }

  lemma {:induction false} ServerReads(m: ServerMessage)
    requires |ServerPayload(m)| < 0x1_0000
    ensures ReadServer(ServerType(m), ServerPayload(m)) == Ok(m)
  {
    if IsResponse(ServerType(m)) { ResponseReads(m); } else { EventReads(m); }
  }

  // ---------- EnvelopeCodec ----------

  function EncodeClient(m: ClientMessage, messageId: u64, correlationId: u64, timestamp: u64)
    : (r: Result<seq<byte>, ProtocolError>)
  {
    match NewEnvelope(ClientType(m), messageId, correlationId, timestamp, ClientPayload(m))
    case Err(e) => Err(e)
    case Ok(env) => ToBytes(env)
  }

  function DecodeClient(s: seq<byte>): (r: Result<(Envelope, ClientMessage), ProtocolError>) {
    match FromBytes(s)
    case Err(e) => Err(e)
    case Ok(env) =>
      match ReadClient(env.messageType, env.payload)
      case Err(e) => Err(e)
      case Ok(m) => Ok((env, m))
  }

  function EncodeServer(m: ServerMessage, messageId: u64, correlationId: u64, timestamp: u64)
    : (r: Result<seq<byte>, ProtocolError>)
  {
    match NewEnvelope(ServerType(m), messageId, correlationId, timestamp, ServerPayload(m))
    case Err(e) => Err(e)
    case Ok(env) => ToBytes(env)
  }

  function DecodeServer(s: seq<byte>): (r: Result<(Envelope, ServerMessage), ProtocolError>) {
    match FromBytes(s)
    case Err(e) => Err(e)
    case Ok(env) =>
      match ReadServer(env.messageType, env.payload)
      case Err(e) => Err(e)
      case Ok(m) => Ok((env, m))
  }

  /** Encoding a client message succeeds exactly when its payload is within 1364 bytes, and then the frame payload
      decodes to the same message under the same header. Over-long tokens, whose 16-bit length field would wrap,
      are among the refused. */
  lemma {:induction false} ClientRoundTrip(m: ClientMessage, id: u64, corr: u64, ts: u64)
    ensures EncodeClient(m, id, corr, ts).Ok? <==> |ClientPayload(m)| <= MAX_ENVELOPE_PAYLOAD_SIZE
    ensures EncodeClient(m, id, corr, ts).Ok? ==>
      && |EncodeClient(m, id, corr, ts).value| == ENVELOPE_HEADER_SIZE + |ClientPayload(m)|
      && DecodeClient(EncodeClient(m, id, corr, ts).value)
         == Ok((Envelope(V1, ClientType(m), 0, id, corr, ts, ClientPayload(m)), m))
  {
    if |ClientPayload(m)| <= MAX_ENVELOPE_PAYLOAD_SIZE {
      var env := Envelope(V1, ClientType(m), 0, id, corr, ts, ClientPayload(m));
      DecodeIff(Header(env) + env.payload, env);
      ClientReads(m);
    }
  }

  lemma {:induction false} ServerRoundTrip(m: ServerMessage, id: u64, corr: u64, ts: u64)
    ensures EncodeServer(m, id, corr, ts).Ok? <==> |ServerPayload(m)| <= MAX_ENVELOPE_PAYLOAD_SIZE
    ensures EncodeServer(m, id, corr, ts).Ok? ==>
      && |EncodeServer(m, id, corr, ts).value| == ENVELOPE_HEADER_SIZE + |ServerPayload(m)|
      && DecodeServer(EncodeServer(m, id, corr, ts).value)
         == Ok((Envelope(V1, ServerType(m), 0, id, corr, ts, ServerPayload(m)), m))
  {
    if |ServerPayload(m)| <= MAX_ENVELOPE_PAYLOAD_SIZE {
      var env := Envelope(V1, ServerType(m), 0, id, corr, ts, ServerPayload(m));
      DecodeIff(Header(env) + env.payload, env);
      ServerReads(m);
    }
  }

  /** No byte string is a message of both directions. */
  lemma {:induction false} DirectionsAreDisjoint(s: seq<byte>)
    ensures !(DecodeClient(s).Ok? && DecodeServer(s).Ok?)
    ensures DecodeClient(s).Ok? ==> DecodeServer(s) == Err(UnexpectedDirection)
    ensures DecodeServer(s).Ok? ==> DecodeClient(s) == Err(UnexpectedDirection)
  {
    if FromBytes(s).Ok? {
      var t := FromBytes(s).value.messageType;
      assert IsClientToServer(t) || IsServerToClient(t);
    }
  }

  /** Every accepted request was carried by an envelope payload of at most 1364 bytes. */
  lemma {:induction false} DecodedClientSize(s: seq<byte>)
    requires DecodeClient(s).Ok?
    ensures var (env, m) := DecodeClient(s).value;
      && |env.payload| <= MAX_ENVELOPE_PAYLOAD_SIZE
      && env.messageType == ClientType(m)
      && (m.CSendMessage? ==> env.payload == m.recipientId + m.data)
      && (m.CRawEcho? ==> env.payload == m.payload)
  {
    var (env, m) := DecodeClient(s).value;
    DecodeIff(s, env);
  }
}
