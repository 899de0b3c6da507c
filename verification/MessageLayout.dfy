/** The payload layouts of all messages, field by field, for every byte string. */
module MessageLayout {
  import opened Bytes
  import opened Frames
  import opened Envelopes
  import opened Messages
  import Utf8

  /** The codes of the message types on the wire. */
  lemma {:induction false} CodesAre()
    ensures ToU8(AuthRequest) == 0x01 && ToU8(ConnectRequest) == 0x02 && ToU8(DisconnectRequest) == 0x03
    ensures ToU8(SendMessage) == 0x04 && ToU8(Ack) == 0x05 && ToU8(Heartbeat) == 0x06 && ToU8(KeyExchange) == 0x07
    ensures ToU8(RelayRequest) == 0x08 && ToU8(RawEcho) == 0x0F
    ensures ToU8(AuthResponse) == 0x81 && ToU8(ConnectionAccepted) == 0x82 && ToU8(ConnectionRejected) == 0x83
    ensures ToU8(HeartbeatResponse) == 0x84 && ToU8(ErrorResponse) == 0x85 && ToU8(SendMessageResponse) == 0x86
    ensures ToU8(RawEchoResponse) == 0x8F && ToU8(IncomingMessageEvent) == 0x90 && ToU8(DeliveryStatusEvent) == 0x91
    ensures ToU8(PeerEvent) == 0x92 && ToU8(RelayEvent) == 0x93
  {
  }

  /** The direction, and whether a server message is a response or an event. */
  lemma {:induction false} DirectionsAre(t: MessageType)
    ensures IsClientToServer(t) <==>
      t in {AuthRequest, ConnectRequest, DisconnectRequest, SendMessage, Ack, Heartbeat, KeyExchange, RelayRequest, RawEcho}
    ensures IsServerToClient(t) <==> !IsClientToServer(t)
    ensures IsEvent(t) <==> t in {IncomingMessageEvent, DeliveryStatusEvent, PeerEvent, RelayEvent}
    ensures IsResponse(t) <==> IsServerToClient(t) && !IsEvent(t)
  {
  }

  // ---------- client to server ----------

  /** The payload `s` holds the fields of `m` where they belong. What follows them is ignored, except by the two variants
      that take all the rest. */
  ghost predicate ClientFields(s: seq<byte>, m: ClientMessage) {
    match m
    case CAuthRequest(token, version) =>
      var n := |token|;
      n < 0x1_0000 && 6 + n <= |s| && s[..2] == Be(n, 2) && s[2..2 + n] == token && s[2 + n..6 + n] == Be(version, 4)
    case CConnectRequest(p) => 32 <= |s| && s[..32] == p
    case CDisconnectRequest(code) => 4 <= |s| && s[..4] == Be(code, 4)
    case CSendMessage(to, data) => 32 <= |s| && s[..32] == to && s[32..] == data
    case CAck(id) => 8 <= |s| && s[..8] == Be(id, 8)
    case CHeartbeat(n) => 8 <= |s| && s[..8] == Be(n, 8)
    case CKeyExchange(k) => 32 <= |s| && s[..32] == k
    case CRelayRequest(p) => 32 <= |s| && s[..32] == p
    case CRawEcho(data) => s == data
  }

  lemma {:induction false} AuthFieldsIff(s: seq<byte>, token: seq<byte>, v: u32)
    ensures ClientFields(s, CAuthRequest(token, v)) <==> HoldsPayload(s, CAuthRequest(token, v))
  {
    var n := |token|;
    var p := Be(n, 2) + token + Be(v, 4);
    if 6 + n <= |s| {
      ThreeFields(s, Be(n, 2), token, Be(v, 4));
    }
  }

  lemma {:induction false} ThreeFields(s: seq<byte>, a: seq<byte>, b: seq<byte>, c: seq<byte>)
    requires |a| + |b| + |c| <= |s|
    ensures a + b + c <= s <==>
      s[..|a|] == a && s[|a|..|a| + |b|] == b && s[|a| + |b|..|a| + |b| + |c|] == c
  {
    var i, j, k := |a|, |a| + |b|, |a| + |b| + |c|;
    assert s[..k] == s[..i] + s[i..j] + s[j..k];
    if a + b + c <= s {
      assert s[..k] == a + b + c;
      assert (a + b + c)[..i] == a && (a + b + c)[i..j] == b && (a + b + c)[j..k] == c;
      SliceOfPrefix(s, k, 0, i);
      SliceOfPrefix(s, k, i, j);
      SliceOfPrefix(s, k, j, k);
    }
  }

  lemma {:induction false} ClientFieldsIff(s: seq<byte>, m: ClientMessage)
    ensures ClientFields(s, m) <==> HoldsPayload(s, m)
  {
    match m
    case CAuthRequest(token, v) => AuthFieldsIff(s, token, v);
    case CSendMessage(to, data) =>
      Seam(to, data);
      if 32 <= |s| {
        assert s == s[..32] + s[32..];
      }
    case _ =>
  }

  /** A payload is read as a client message exactly if it was sent under that message's type and holds its fields. */
  lemma {:induction false} ClientLayoutIff(t: MessageType, s: seq<byte>, m: ClientMessage)
    ensures ReadClient(t, s) == Ok(m) <==> t == ClientType(m) && ClientFields(s, m)
  {
    ReadClientIff(t, s, m);
    ClientFieldsIff(s, m);
  }

  /** What is written for a client message has that layout, and nothing after its fields. */
  lemma {:induction false} ClientIsWritten(m: ClientMessage)
    requires m.CAuthRequest? ==> |m.token| < 0x1_0000
    ensures ClientFields(ClientPayload(m), m)
    ensures |ClientPayload(m)| == match m
      case CAuthRequest(token, _) => 6 + |token|
      case CDisconnectRequest(_) => 4
      case CSendMessage(_, data) => 32 + |data|
      case CAck(_) => 8
      case CHeartbeat(_) => 8
      case CRawEcho(data) => |data|
      case _ => 32
  {
    ClientFieldsIff(ClientPayload(m), m);
  }

  /** Which type a client message goes under. */
  lemma {:induction false} ClientTypesAre(m: ClientMessage)
    ensures ToU8(ClientType(m)) == match m
      case CAuthRequest(_, _) => 0x01
      case CConnectRequest(_) => 0x02
      case CDisconnectRequest(_) => 0x03
      case CSendMessage(_, _) => 0x04
      case CAck(_) => 0x05
      case CHeartbeat(_) => 0x06
      case CKeyExchange(_) => 0x07
      case CRelayRequest(_) => 0x08
      case CRawEcho(_) => 0x0F
  {
  }

  /** A payload that is too short for its type is refused with the size it lacks. */
  lemma {:induction false} ClientRefusals(t: MessageType, s: seq<byte>)
    ensures t in {ConnectRequest, SendMessage, KeyExchange, RelayRequest} ==>
      (ReadClient(t, s).Err? <==> |s| < 32) && (|s| < 32 ==> ReadClient(t, s) == Err(FrameTooShort(32, |s|)))
    ensures t == DisconnectRequest ==>
      (ReadClient(t, s).Err? <==> |s| < 4) && (|s| < 4 ==> ReadClient(t, s) == Err(FrameTooShort(4, |s|)))
    ensures t in {Ack, Heartbeat} ==>
      (ReadClient(t, s).Err? <==> |s| < 8) && (|s| < 8 ==> ReadClient(t, s) == Err(FrameTooShort(8, |s|)))
    ensures t == RawEcho ==> ReadClient(t, s).Ok?
    ensures t == AuthRequest && |s| < 2 ==> ReadClient(t, s) == Err(FrameTooShort(2, |s|))
    ensures t == AuthRequest && |s| >= 2 ==>
      var need := (s[0] as int) * 256 + s[1] + 4;
      (ReadClient(t, s).Err? <==> |s| - 2 < need)
      && (|s| - 2 < need ==> ReadClient(t, s) == Err(FrameTooShort(need, |s| - 2)))
    ensures IsServerToClient(t) ==> ReadClient(t, s) == Err(UnexpectedDirection)
  {
    if |s| >= 2 {
      FromBe2(s[..2]);
    }
  }

  // ---------- server to client ----------

  /** A four-byte code, a two-byte length, and as many bytes, read as text. */
  ghost predicate CodeAndText(s: seq<byte>, code: u32, text: seq<byte>) {
    && 6 <= |s| && s[..4] == Be(code, 4)
    && var n := (s[4] as int) * 256 + s[5]; 6 + n <= |s| && text == Utf8.Lossy(s[6..6 + n])
  }

  ghost predicate ServerFields(s: seq<byte>, m: ServerMessage) {
    match m
    case SAuthResponse(ok, sid) => 17 <= |s| && (ok <==> s[0] != 0) && s[1..17] == sid
    case SConnectionAccepted(sid, p) => 48 <= |s| && s[..16] == sid && s[16..48] == p
    case SConnectionRejected(code, text) => CodeAndText(s, code, text)
    case SHeartbeatResponse(n) => 8 <= |s| && s[..8] == Be(n, 8)
    case SErrorResponse(code, text) => CodeAndText(s, code, text)
    case SSendMessageResponse(id, accepted) => 9 <= |s| && s[..8] == Be(id, 8) && (accepted <==> s[8] != 0)
    case SRawEchoResponse(data) => s == data
    case SIncomingMessage(from, data) => 32 <= |s| && s[..32] == from && s[32..] == data
    case SDeliveryStatus(id, status) =>
      9 <= |s| && s[..8] == Be(id, 8)
      && status == (match s[8] case 1 => Delivered case 2 => Dropped case 3 => Queued case _ => Failed)
    case SPeerEvent(p, status) =>
      33 <= |s| && s[..32] == p && status == (match s[32] case 1 => Online case 3 => RelayActive case _ => Offline)
    case SRelayEvent(sid, status) => 17 <= |s| && s[..16] == sid && s[16] == status
  }

  lemma {:induction false} NumberIs(s: seq<byte>, n: u64, code: u32)
    ensures |s| == 8 ==> (GetU64(s) == n <==> s == Be(n, 8))
    ensures |s| == 4 ==> (GetU32(s) == code <==> s == Be(code, 4))
  {
    GetPut(0, code, n);
    BeOfFromBe(s);
  }

  lemma {:induction false} CodeAndTextIff(s: seq<byte>, code: u32, text: Utf8.Utf8String)
    ensures ReadCodeAndText(s) == Ok((code, text)) <==> CodeAndText(s, code, text)
  {
    if |s| >= 6 {
      NumberIs(s[..4], 0, code);
      FromBe2(s[4..6]);
    }
  }

  lemma {:induction false} RefusalLayoutIff(t: MessageType, s: seq<byte>, m: ServerMessage)
    requires t == ServerType(m) && (m.SConnectionRejected? || m.SErrorResponse?)
    ensures ReadServer(t, s) == Ok(m) <==> ServerFields(s, m)
  {
    CodeAndTextIff(s, if m.SErrorResponse? then m.code else m.reasonCode, m.text);
  }

  lemma {:induction false} NumberLayoutIff(t: MessageType, s: seq<byte>, m: ServerMessage)
    requires t == ServerType(m) && (m.SHeartbeatResponse? || m.SSendMessageResponse? || m.SDeliveryStatus?)
    ensures ReadServer(t, s) == Ok(m) <==> ServerFields(s, m)
  {
    if |s| >= 8 {
      NumberIs(s[..8], if m.SHeartbeatResponse? then m.sequence else m.messageId, 0);
    }
  }

  lemma {:induction false} PlainLayoutIff(t: MessageType, s: seq<byte>, m: ServerMessage)
    requires t == ServerType(m)
    requires m.SAuthResponse? || m.SConnectionAccepted? || m.SRawEchoResponse? || m.SIncomingMessage? || m.SPeerEvent?
      || m.SRelayEvent?
    ensures ReadServer(t, s) == Ok(m) <==> ServerFields(s, m)
  {
  }

  /** A payload is read as a server message exactly if it was sent under that message's type and holds its fields. */
  lemma {:induction false} ServerLayoutIff(t: MessageType, s: seq<byte>, m: ServerMessage)
    ensures ReadServer(t, s) == Ok(m) <==> t == ServerType(m) && ServerFields(s, m)
  {
    if t == ServerType(m) {
      match m
      case SConnectionRejected(_, _) => RefusalLayoutIff(t, s, m);
      case SErrorResponse(_, _) => RefusalLayoutIff(t, s, m);
      case SHeartbeatResponse(_) => NumberLayoutIff(t, s, m);
      case SSendMessageResponse(_, _) => NumberLayoutIff(t, s, m);
      case SDeliveryStatus(_, _) => NumberLayoutIff(t, s, m);
      case _ => PlainLayoutIff(t, s, m);
    }
  }

  /** What is written for a server message has that layout, with 1 and 0 for yes and no, and nothing after its fields. */
  lemma {:induction false} ServerIsWritten(m: ServerMessage)
    requires |ServerPayload(m)| < 0x1_0000
    ensures ServerFields(ServerPayload(m), m)
    ensures |ServerPayload(m)| == match m
      case SAuthResponse(_, _) => 17
      case SConnectionAccepted(_, _) => 48
      case SConnectionRejected(_, text) => 6 + |text|
      case SHeartbeatResponse(_) => 8
      case SErrorResponse(_, text) => 6 + |text|
      case SSendMessageResponse(_, _) => 9
      case SRawEchoResponse(data) => |data|
      case SIncomingMessage(_, data) => 32 + |data|
      case SDeliveryStatus(_, _) => 9
      case SPeerEvent(_, _) => 33
      case SRelayEvent(_, _) => 17
    ensures m.SAuthResponse? ==> ServerPayload(m)[0] == if m.success then 1 else 0
    ensures m.SSendMessageResponse? ==> ServerPayload(m)[8] == if m.accepted then 1 else 0
    ensures m.SDeliveryStatus? && m.status == Failed ==> ServerPayload(m)[8] == 4
    ensures m.SPeerEvent? && m.peerStatus == Offline ==> ServerPayload(m)[32] == 2
  {
    ServerReads(m);
    ServerLayoutIff(ServerType(m), ServerPayload(m), m);
  }

  lemma {:induction false} ServerTypesAre(m: ServerMessage)
    ensures ToU8(ServerType(m)) == match m
      case SAuthResponse(_, _) => 0x81
      case SConnectionAccepted(_, _) => 0x82
      case SConnectionRejected(_, _) => 0x83
      case SHeartbeatResponse(_) => 0x84
      case SErrorResponse(_, _) => 0x85
      case SSendMessageResponse(_, _) => 0x86
      case SRawEchoResponse(_) => 0x8F
      case SIncomingMessage(_, _) => 0x90
      case SDeliveryStatus(_, _) => 0x91
      case SPeerEvent(_, _) => 0x92
      case SRelayEvent(_, _) => 0x93
  {
  }

  lemma {:induction false} ServerRefusals(t: MessageType, s: seq<byte>)
    ensures t in {AuthResponse, RelayEvent} ==>
      (ReadServer(t, s).Err? <==> |s| < 17) && (|s| < 17 ==> ReadServer(t, s) == Err(FrameTooShort(17, |s|)))
    ensures t == ConnectionAccepted ==>
      (ReadServer(t, s).Err? <==> |s| < 48) && (|s| < 48 ==> ReadServer(t, s) == Err(FrameTooShort(48, |s|)))
    ensures t == HeartbeatResponse ==>
      (ReadServer(t, s).Err? <==> |s| < 8) && (|s| < 8 ==> ReadServer(t, s) == Err(FrameTooShort(8, |s|)))
    ensures t in {SendMessageResponse, DeliveryStatusEvent} ==>
      (ReadServer(t, s).Err? <==> |s| < 9) && (|s| < 9 ==> ReadServer(t, s) == Err(FrameTooShort(9, |s|)))
    ensures t == IncomingMessageEvent ==>
      (ReadServer(t, s).Err? <==> |s| < 32) && (|s| < 32 ==> ReadServer(t, s) == Err(FrameTooShort(32, |s|)))
    ensures t == PeerEvent ==>
      (ReadServer(t, s).Err? <==> |s| < 33) && (|s| < 33 ==> ReadServer(t, s) == Err(FrameTooShort(33, |s|)))
    ensures t == RawEchoResponse ==> ReadServer(t, s).Ok?
    ensures t in {ConnectionRejected, ErrorResponse} && |s| < 6 ==> ReadServer(t, s) == Err(FrameTooShort(6, |s|))
    ensures t in {ConnectionRejected, ErrorResponse} && |s| >= 6 ==>
      var n := (s[4] as int) * 256 + s[5];
      (ReadServer(t, s).Err? <==> |s| - 6 < n) && (|s| - 6 < n ==> ReadServer(t, s) == Err(FrameTooShort(n, |s| - 6)))
    ensures IsClientToServer(t) ==> ReadServer(t, s) == Err(UnexpectedDirection)
  {
    if |s| >= 6 {
      FromBe2(s[4..6]);
    }
  }

  // ---------- envelopes ----------

  /** Why an envelope is refused, the reasons in this order: too short for the header, another version, an unknown type, a
      payload length above 1364, fewer bytes than the length says. Otherwise it is accepted. */
  lemma {:induction false} EnvelopeRefusals(s: seq<byte>)
    ensures |s| < 30 ==> FromBytes(s) == Err(FrameTooShort(30, |s|))
    ensures |s| >= 30 ==>
      var n := (s[28] as int) * 256 + s[29];
      var known := exists t :: ToU8(t) == s[1];
      && (s[0] != 1 ==> FromBytes(s) == Err(UnsupportedVersion(1, s[0])))
      && (s[0] == 1 && !known ==> FromBytes(s) == Err(UnknownMessageType(s[1])))
      && (s[0] == 1 && known && n > 1364 ==> FromBytes(s) == Err(PayloadTooLarge(n, 1364)))
      && (s[0] == 1 && known && n <= 1364 && |s| - 30 < n ==> FromBytes(s) == Err(FrameTooShort(n, |s| - 30)))
      && (s[0] == 1 && known && n <= 1364 && |s| - 30 >= n ==> FromBytes(s).Ok?)
  {
    if |s| >= 30 {
      FromBe2(s[28..30]);
    }
  }
}
