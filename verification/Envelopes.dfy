/** Message types and the 30-byte envelope header that wraps every structured message inside a frame payload. */
module Envelopes {
  import opened Bytes
  import opened Frames

  const ENVELOPE_HEADER_SIZE: nat := 30
  const MAX_ENVELOPE_PAYLOAD_SIZE: nat := MAX_PAYLOAD_SIZE - ENVELOPE_HEADER_SIZE

  datatype MessageType =
    | AuthRequest | ConnectRequest | DisconnectRequest | SendMessage | Ack | Heartbeat | KeyExchange
    | RelayRequest | RawEcho
    | AuthResponse | ConnectionAccepted | ConnectionRejected | HeartbeatResponse | ErrorResponse
    | SendMessageResponse | RawEchoResponse
    | IncomingMessageEvent | DeliveryStatusEvent | PeerEvent | RelayEvent

  function ToU8(t: MessageType): (code: byte) {
    match t
    case AuthRequest => 0x01 case ConnectRequest => 0x02 case DisconnectRequest => 0x03
    case SendMessage => 0x04 case Ack => 0x05 case Heartbeat => 0x06 case KeyExchange => 0x07
    case RelayRequest => 0x08 case RawEcho => 0x0F
    case AuthResponse => 0x81 case ConnectionAccepted => 0x82 case ConnectionRejected => 0x83
    case HeartbeatResponse => 0x84 case ErrorResponse => 0x85 case SendMessageResponse => 0x86
    case RawEchoResponse => 0x8F
    case IncomingMessageEvent => 0x90 case DeliveryStatusEvent => 0x91 case PeerEvent => 0x92
    case RelayEvent => 0x93
  }

  /** The code table read backwards: a code is known exactly when some type is written with it. */
  function FromU8(code: byte): (r: Result<MessageType, ProtocolError>)
    ensures forall t :: r == Ok(t) <==> ToU8(t) == code
    ensures r.Err? ==> r.error == UnknownMessageType(code)
  {
    if code == 0x01 then Ok(AuthRequest) else if code == 0x02 then Ok(ConnectRequest)
    else if code == 0x03 then Ok(DisconnectRequest) else if code == 0x04 then Ok(SendMessage)
    else if code == 0x05 then Ok(Ack) else if code == 0x06 then Ok(Heartbeat)
    else if code == 0x07 then Ok(KeyExchange) else if code == 0x08 then Ok(RelayRequest)
    else if code == 0x0F then Ok(RawEcho)
    else if code == 0x81 then Ok(AuthResponse) else if code == 0x82 then Ok(ConnectionAccepted)
    else if code == 0x83 then Ok(ConnectionRejected) else if code == 0x84 then Ok(HeartbeatResponse)
    else if code == 0x85 then Ok(ErrorResponse) else if code == 0x86 then Ok(SendMessageResponse)
    else if code == 0x8F then Ok(RawEchoResponse)
    else if code == 0x90 then Ok(IncomingMessageEvent) else if code == 0x91 then Ok(DeliveryStatusEvent)
    else if code == 0x92 then Ok(PeerEvent) else if code == 0x93 then Ok(RelayEvent)
    else Err(UnknownMessageType(code))
  }

  // The high bit of the code is the direction; the second nibble separates responses from events.
  predicate IsClientToServer(t: MessageType) { ToU8(t) / 0x80 % 2 == 0 }
  predicate IsServerToClient(t: MessageType) { ToU8(t) / 0x80 % 2 != 0 }
  predicate IsResponse(t: MessageType) { 0x80 <= ToU8(t) <= 0x8F }
  predicate IsEvent(t: MessageType) { 0x90 <= ToU8(t) <= 0x9F }

  datatype ProtocolVersion = V1

  datatype Envelope = Envelope(
    version: ProtocolVersion,
    messageType: MessageType,
    flags: u16,
    messageId: u64,
    correlationId: u64,
    timestamp: u64,
    payload: seq<byte>)

  function NewEnvelope(t: MessageType, messageId: u64, correlationId: u64, timestamp: u64, payload: seq<byte>)
    : (r: Result<Envelope, ProtocolError>)
    ensures r.Ok? <==> |payload| <= MAX_ENVELOPE_PAYLOAD_SIZE
    ensures r.Ok? ==>
      && r.value.payload == payload
      && Header(r.value) == [1, ToU8(t), 0, 0] + Be(messageId, 8) + Be(correlationId, 8) + Be(timestamp, 8) + Be(|payload|, 2)
    ensures r.Err? ==> r.error == PayloadTooLarge(|payload|, MAX_ENVELOPE_PAYLOAD_SIZE)
  {
    if |payload| > MAX_ENVELOPE_PAYLOAD_SIZE then Err(PayloadTooLarge(|payload|, MAX_ENVELOPE_PAYLOAD_SIZE))
    else
      assert Be(0, 2) == [0, 0] by { BeTruncates2(0); }
      Ok(Envelope(V1, t, 0, messageId, correlationId, timestamp, payload))
  }

  function Header(e: Envelope): (s: seq<byte>)
    ensures |s| == ENVELOPE_HEADER_SIZE
  {
    [1, ToU8(e.messageType)] + Be(e.flags, 2) + Be(e.messageId, 8) + Be(e.correlationId, 8)
    + Be(e.timestamp, 8) + Be(|e.payload|, 2)
  }

  function ToBytes(e: Envelope): (r: Result<seq<byte>, ProtocolError>) {
    if |e.payload| > MAX_ENVELOPE_PAYLOAD_SIZE then Err(PayloadTooLarge(|e.payload|, MAX_ENVELOPE_PAYLOAD_SIZE))
    else Ok(Header(e) + e.payload)
  }

  function FromBytes(s: seq<byte>): (r: Result<Envelope, ProtocolError>) {
    if |s| < ENVELOPE_HEADER_SIZE then Err(FrameTooShort(ENVELOPE_HEADER_SIZE, |s|))
    else if s[0] != 1 then Err(UnsupportedVersion(1, s[0]))
    else match FromU8(s[1])
      case Err(e) => Err(e)
      case Ok(t) =>
        var len := GetU16(s[28..30]);
        if len > MAX_ENVELOPE_PAYLOAD_SIZE then Err(PayloadTooLarge(len, MAX_ENVELOPE_PAYLOAD_SIZE))
        else if |s| - 30 < len then Err(FrameTooShort(len, |s| - 30))
        else Ok(Envelope(V1, t, GetU16(s[2..4]), GetU64(s[4..12]), GetU64(s[12..20]), GetU64(s[20..28]),
                         s[30..30 + len]))
  }

  lemma {:induction false} HeaderFields(e: Envelope)
    ensures var h := Header(e);
      && h[..2] == [1, ToU8(e.messageType)] && h[2..4] == Be(e.flags, 2) && h[4..12] == Be(e.messageId, 8)
      && h[12..20] == Be(e.correlationId, 8) && h[20..28] == Be(e.timestamp, 8) && h[28..30] == Be(|e.payload|, 2)
  {
  }

  /** A byte string decodes to `e` exactly when it begins with the encoding of `e`:
      every field is recovered, encodings are unique, and bytes after the payload are ignored. */
  lemma {:induction false} DecodeIff(s: seq<byte>, e: Envelope)
    ensures FromBytes(s) == Ok(e) <==> |e.payload| <= MAX_ENVELOPE_PAYLOAD_SIZE && Header(e) + e.payload <= s
  {
    if |e.payload| <= MAX_ENVELOPE_PAYLOAD_SIZE && Header(e) + e.payload <= s {
      PrefixDecodes(s, e);
    }
    if FromBytes(s) == Ok(e) {
      DecodedIsPrefix(s, e);
    }
  }

  lemma {:induction false} PrefixDecodes(s: seq<byte>, e: Envelope)
    requires |e.payload| <= MAX_ENVELOPE_PAYLOAD_SIZE && Header(e) + e.payload <= s
    ensures FromBytes(s) == Ok(e)
  {
    var h := Header(e);
    HeaderFields(e);
    assert s[..30] == h by { assert s[..|h + e.payload|] == h + e.payload; }
    assert s[30..30 + |e.payload|] == e.payload by { assert s[..|h + e.payload|] == h + e.payload; }
    assert s[0] == h[..2][0] && s[1] == h[..2][1];
    SliceOfPrefix(s, 30, 2, 4);
    SliceOfPrefix(s, 30, 4, 12);
    SliceOfPrefix(s, 30, 12, 20);
    SliceOfPrefix(s, 30, 20, 28);
    SliceOfPrefix(s, 30, 28, 30);
    GetPut(e.flags, 0, e.messageId);
    GetPut(|e.payload|, 0, e.correlationId);
    GetPut(0, 0, e.timestamp);
    assert e.version == V1;
  }

  lemma {:induction false} DecodedIsPrefix(s: seq<byte>, e: Envelope)
    requires FromBytes(s) == Ok(e)
    ensures |e.payload| <= MAX_ENVELOPE_PAYLOAD_SIZE && Header(e) + e.payload <= s
  {
    var n := 30 + |e.payload|;
    BeOfFromBe(s[2..4]);
    BeOfFromBe(s[4..12]);
    BeOfFromBe(s[12..20]);
    BeOfFromBe(s[20..28]);
    BeOfFromBe(s[28..30]);
    assert s[..2] == [1, ToU8(e.messageType)];
    assert s[..n] == s[..2] + s[2..4] + s[4..12] + s[12..20] + s[20..28] + s[28..30] + s[30..n];
    assert Header(e) == s[..2] + s[2..4] + s[4..12] + s[12..20] + s[20..28] + s[28..30];
  }

  // ---------- the same two operations as the source performs them ----------

  method Encode(e: Envelope, dst: ByteBuf) returns (r: Result<(), ProtocolError>)
    modifies dst
    ensures ToBytes(e).Ok? ==> r == Ok(()) && dst.data == old(dst.data) + ToBytes(e).value
    ensures ToBytes(e).Err? ==> r == Err(ToBytes(e).error) && dst.data == old(dst.data)
  {
    if |e.payload| > MAX_ENVELOPE_PAYLOAD_SIZE {
      return Err(PayloadTooLarge(|e.payload|, MAX_ENVELOPE_PAYLOAD_SIZE));
    }
    dst.Put([1]);
    dst.Put([ToU8(e.messageType)]);
    dst.Put(Be(e.flags, 2));
    dst.Put(Be(e.messageId, 8));
    dst.Put(Be(e.correlationId, 8));
    dst.Put(Be(e.timestamp, 8));
    dst.Put(Be(|e.payload|, 2));
    assert dst.data == old(dst.data) + Header(e);
    dst.Put(e.payload);
    return Ok(());
  }

  method Decode(slice: seq<byte>) returns (r: Result<Envelope, ProtocolError>)
    ensures r == FromBytes(slice)
  {
    if |slice| < ENVELOPE_HEADER_SIZE {
      return Err(FrameTooShort(ENVELOPE_HEADER_SIZE, |slice|));
    }
    var buf := slice;
    var versionRaw := buf[0];
    buf := buf[1..];
    if versionRaw != 1 {
      return Err(UnsupportedVersion(1, versionRaw));
    }
    var typeRaw := buf[0];
    buf := buf[1..];
    var t := FromU8(typeRaw);
    if t.Err? {
      return Err(t.error);
    }
    assert buf == slice[2..];
    var flags := GetU16(buf[..2]);
    buf := buf[2..];
    assert buf == slice[4..];
    var messageId := GetU64(buf[..8]);
    buf := buf[8..];
    assert buf == slice[12..];
    var correlationId := GetU64(buf[..8]);
    buf := buf[8..];
    assert buf == slice[20..];
    var timestamp := GetU64(buf[..8]);
    buf := buf[8..];
    assert buf == slice[28..];
    var len := GetU16(buf[..2]);
    buf := buf[2..];
    assert buf == slice[30..];
    assert slice[2..][..2] == slice[2..4] && slice[4..][..8] == slice[4..12] && slice[12..][..8] == slice[12..20];
    assert slice[20..][..8] == slice[20..28] && slice[28..][..2] == slice[28..30];
    if len > MAX_ENVELOPE_PAYLOAD_SIZE {
      return Err(PayloadTooLarge(len, MAX_ENVELOPE_PAYLOAD_SIZE));
    }
    if |buf| < len {
      return Err(FrameTooShort(len, |buf|));
    }
    assert slice[30..][..len] == slice[30..30 + len];
    return Ok(Envelope(V1, t.value, flags, messageId, correlationId, timestamp, buf[..len]));
  }
}
