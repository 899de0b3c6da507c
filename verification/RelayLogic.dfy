/** What the routed session does with one decrypted frame, as a decision over the registry it looks up. */
module RelayLogic {
  import opened Bytes
  import opened Frames
  import opened Envelopes
  import opened Messages
  import opened Registry

  const ROUTE_REGISTRATION_ID: SessionId := Repeat(0xF0, 16)
  const ECHO_ROUTE_ID: SessionId := Repeat(0xEE, 16)
  const ZERO_NONCE: Nonce := Repeat(0, 8)
  const ZERO_ID: SessionId := Repeat(0, 16)

  /** Response: answer to the sender itself. Message: an IncomingMessageEvent. Raw: a frame passed on.
      Receipt: a DeliveryStatusEvent. Only Message and Raw carry the sender's payload. */
  datatype Kind = Response | Message | Raw | Receipt

  datatype Forward = Forward(entry: Entry, frame: Frame, kind: Kind)

  datatype Outcome =
    | Register(peer: PeerId)
    | Discard
    | Answer(response: Option<Frame>, next: Option<Forward>)
    | Acknowledge(target: RouteId, receipt: Option<Frame>)
    | PassOn(forward: Forward)

  /** Envelope, bytes, frame: three fallible constructions, nothing being sent if one of them fails. */
  function Build(source: RouteId, nonce: Nonce, m: ServerMessage, id: u64, corr: u64, ts: u64): Option<Frame> {
    match EncodeServer(m, id, corr, ts)
    case Err(_) => None
    case Ok(bytes) =>
      match NewFrame(source, nonce, bytes)
      case Err(_) => None
      case Ok(f) => Some(f)
  }

  /** A message is accepted when it is for someone else who is routed. */
  predicate Accepts(r: Routes, me: PeerId, to: PeerId) {
    me != to && to in r.byPeer
  }

  function DecideSend(r: Routes, me: PeerId, f: Frame, env: Envelope, to: PeerId, data: seq<byte>): Outcome {
    Settle(r, me, to, SendResponse(me, env, Accepts(r, me, to)),
           Build(Prefix(me), f.nonce, SIncomingMessage(me, data), env.messageId, 0, env.timestamp))
  }

  function SendResponse(me: PeerId, env: Envelope, accepted: bool): Option<Frame> {
    Build(Prefix(me), ZERO_NONCE, SSendMessageResponse(env.messageId, accepted),
          env.messageId, env.messageId, env.timestamp)
  }

  /** The response, and the event for the recipient's route if the message is accepted. */
  function Settle(r: Routes, me: PeerId, to: PeerId, response: Option<Frame>, event: Option<Frame>): Outcome {
    Answer(response,
           if Accepts(r, me, to) && event.Some? then Some(Forward(r.byPeer[to], event.value, Message)) else None)
  }

  function DecideRaw(r: Routes, me: PeerId, f: Frame): Outcome {
    if Prefix(me) == f.sessionId then Discard
    else if f.sessionId in r.byPrefix then
      PassOn(Forward(r.byPrefix[f.sessionId], f.(sessionId := Prefix(me)), Raw))
    else Discard
  }

  /** A frame from a session registered as `me`, with what its payload decodes to. */
  function DecideDecoded(r: Routes, me: PeerId, f: Frame, decoded: Result<(Envelope, ClientMessage), ProtocolError>)
    : Outcome
  {
    match decoded
    case Ok((env, CSendMessage(to, data))) => DecideSend(r, me, f, env, to, data)
    case Ok((env, CAck(id))) =>
      Acknowledge(f.sessionId,
                  Build(Prefix(me), ZERO_NONCE, SDeliveryStatus(id, Delivered), id, id, env.timestamp))
    case Ok((env, CHeartbeat(n))) =>
      Answer(Build(Prefix(me), ZERO_NONCE, SHeartbeatResponse(n), env.messageId, env.messageId, env.timestamp),
             None)
    case _ => DecideRaw(r, me, f)
  }

  function Decide(r: Routes, registered: Option<PeerId>, f: Frame): Outcome {
    if f.sessionId == ROUTE_REGISTRATION_ID then
      (if |f.payload| != 32 then Discard else Register(f.payload))
    else if f.sessionId == ECHO_ROUTE_ID || registered.None? then Discard
    else DecideDecoded(r, registered.value, f, DecodeClient(f.payload))
  }

  // ---------- nothing on the reply path can fail ----------

  /** `b` is a frame that its reader decodes to `m` under the given header. */
  ghost predicate Carries(b: Option<Frame>, source: RouteId, nonce: Nonce, m: ServerMessage,
                          id: u64, corr: u64, ts: u64)
  {
    && b.Some? && b.value.sessionId == source && b.value.nonce == nonce && Fits(b.value)
    && DecodeServer(b.value.payload) == Ok((Envelope(V1, ServerType(m), 0, id, corr, ts, ServerPayload(m)), m))
  }

  lemma {:induction false} BuildCarries(source: RouteId, nonce: Nonce, m: ServerMessage, id: u64, corr: u64, ts: u64)
    requires |ServerPayload(m)| <= MAX_ENVELOPE_PAYLOAD_SIZE
    ensures Carries(Build(source, nonce, m, id, corr, ts), source, nonce, m, id, corr, ts)
  {
    ServerRoundTrip(m, id, corr, ts);
  }

  /** The answer to one SendMessage, and the event addressed to its recipient if there is one. */
  ghost predicate SendAnswered(r: Routes, me: PeerId, nonce: Nonce, env: Envelope, to: PeerId, data: seq<byte>,
                               out: Outcome)
  {
    var accepted := to != me && to in r.byPeer;
    && out.Answer?
    && Carries(out.response, Prefix(me), ZERO_NONCE, SSendMessageResponse(env.messageId, accepted),
               env.messageId, env.messageId, env.timestamp)
    && (out.next.Some? <==> accepted)
    && (accepted ==>
          && out.next.value.entry == r.byPeer[to] && out.next.value.kind == Message
          && Carries(Some(out.next.value.frame), Prefix(me), nonce, SIncomingMessage(me, data),
                     env.messageId, 0, env.timestamp))
  }

  lemma {:induction false} SettleAnswers(r: Routes, me: PeerId, nonce: Nonce, env: Envelope, to: PeerId, data: seq<byte>,
                                         response: Option<Frame>, event: Option<Frame>)
    requires Carries(response, Prefix(me), ZERO_NONCE, SSendMessageResponse(env.messageId, Accepts(r, me, to)),
                     env.messageId, env.messageId, env.timestamp)
    requires Carries(event, Prefix(me), nonce, SIncomingMessage(me, data), env.messageId, 0, env.timestamp)
    ensures SendAnswered(r, me, nonce, env, to, data, Settle(r, me, to, response, event))
  {
  }

  lemma {:induction false} DecideSendAnswers(r: Routes, me: PeerId, f: Frame, env: Envelope, to: PeerId, data: seq<byte>)
    requires 32 + |data| <= MAX_ENVELOPE_PAYLOAD_SIZE
    ensures SendAnswered(r, me, f.nonce, env, to, data, DecideSend(r, me, f, env, to, data))
  {
    var response := SendResponse(me, env, Accepts(r, me, to));
    var event := Build(Prefix(me), f.nonce, SIncomingMessage(me, data), env.messageId, 0, env.timestamp);
    BuildCarries(Prefix(me), ZERO_NONCE, SSendMessageResponse(env.messageId, Accepts(r, me, to)),
                 env.messageId, env.messageId, env.timestamp);
    BuildCarries(Prefix(me), f.nonce, SIncomingMessage(me, data), env.messageId, 0, env.timestamp);
    SettleAnswers(r, me, f.nonce, env, to, data, response, event);
  }

  /** Every SendMessage from a registered session is answered once, under the request's id as correlation id;
      it is accepted exactly when the recipient is someone else with a route at that moment, and exactly then an
      IncomingMessageEvent naming the sender's full id, with the request's data, id, timestamp and nonce, is
      addressed to the recipient's route. Neither frame can fail to build: the event has the size of the request. */
  lemma {:induction false} SendIsAnswered(r: Routes, me: PeerId, f: Frame)
    requires f.sessionId != ROUTE_REGISTRATION_ID && f.sessionId != ECHO_ROUTE_ID
    requires DecodeClient(f.payload).Ok? && DecodeClient(f.payload).value.1.CSendMessage?
    ensures var (env, m) := DecodeClient(f.payload).value;
      SendAnswered(r, me, f.nonce, env, m.recipientId, m.data, Decide(r, Some(me), f))
  {
    var (env, m) := DecodeClient(f.payload).value;
    DecodedClientSize(f.payload);
    DecideSendAnswers(r, me, f, env, m.recipientId, m.data);
  }

  /** End to end: whatever recipient and data the client encoder accepts, the recipient's frame decodes to the
      sender's full id and the same data, message id, timestamp and nonce. */
  lemma {:induction false} Transparency(r: Routes, me: PeerId, to: PeerId, data: seq<byte>, sid: SessionId, nonce: Nonce,
                     id: u64, corr: u64, ts: u64)
    requires EncodeClient(CSendMessage(to, data), id, corr, ts).Ok?
    requires sid != ROUTE_REGISTRATION_ID && sid != ECHO_ROUTE_ID
    requires to != me && to in r.byPeer
    ensures var sent := NewFrame(sid, nonce, EncodeClient(CSendMessage(to, data), id, corr, ts).value);
      && sent.Ok?
      && Unwire(Wire(sent.value)) == sent
      && var out := Decide(r, Some(me), sent.value);
      && out.Answer? && out.next.Some? && out.next.value.entry == r.byPeer[to]
      && Carries(out.response, Prefix(me), ZERO_NONCE, SSendMessageResponse(id, true), id, id, ts)
      && Carries(Some(out.next.value.frame), Prefix(me), nonce, SIncomingMessage(me, data), id, 0, ts)
      && Unwire(Wire(out.next.value.frame)) == Ok(out.next.value.frame)
  {
    var m := CSendMessage(to, data);
    ClientRoundTrip(m, id, corr, ts);
    var sent := Frame(sid, nonce, EncodeClient(m, id, corr, ts).value);
    SendIsAnswered(r, me, sent);
    WireRoundTrip(sent, []);
    var event := Decide(r, Some(me), sent).next.value.frame;
    WireRoundTrip(event, []);
    assert Wire(sent) + [] == Wire(sent) && Wire(event) + [] == Wire(event);
  }

  // ---------- what every frame leaving a session looks like ----------

  /** A frame of the given kind, sent on behalf of `me` to the route of `recipient`. */
  ghost predicate WellSent(me: PeerId, recipient: PeerId, kind: Kind, f: Frame) {
    && f.sessionId == Prefix(me) && Fits(f)
    && (kind == Message || kind == Raw ==> recipient != me)
    && (kind != Raw ==> DecodeServer(f.payload).Ok?)
    && (kind == Message ==>
          var m := DecodeServer(f.payload).value.1; m.SIncomingMessage? && m.senderId == me)
    && (kind == Response ==>
          var (env, m) := DecodeServer(f.payload).value;
          IsResponse(env.messageType) && env.correlationId == env.messageId)
    && (kind == Receipt ==>
          var m := DecodeServer(f.payload).value.1; m.SDeliveryStatus? && m.status == Delivered)
  }

  /** All that a decision may send is well sent, and its payload goes to a route taken from the registry. */
  ghost predicate OutcomeIsSound(r: Routes, registered: Option<PeerId>, out: Outcome) {
    && (out.Answer? || out.Acknowledge? || out.PassOn? ==> registered.Some?)
    && (out.Answer? ==>
          && out.response.Some? && WellSent(registered.value, registered.value, Response, out.response.value)
          && (out.next.Some? ==> ForwardIsSound(r, registered.value, out.next.value)))
    && (out.Acknowledge? ==>
          out.receipt.Some? && forall p :: WellSent(registered.value, p, Receipt, out.receipt.value))
    && (out.PassOn? ==> ForwardIsSound(r, registered.value, out.forward))
  }

  ghost predicate ForwardIsSound(r: Routes, me: PeerId, fw: Forward) {
    && (fw.kind == Message || fw.kind == Raw)
    && WellSent(me, fw.entry.peer, fw.kind, fw.frame)
    && Find(r.byPeer, fw.entry.peer) == Some(fw.entry)
  }

  lemma {:induction false} AnsweredIsSound(r: Routes, me: PeerId, nonce: Nonce, env: Envelope, to: PeerId, data: seq<byte>, out: Outcome)
    requires Agree(r) && SendAnswered(r, me, nonce, env, to, data, out)
    ensures OutcomeIsSound(r, Some(me), out)
  {
    assert IsResponse(SendMessageResponse);
  }

  lemma {:induction false} HeartbeatIsSound(r: Routes, me: PeerId, env: Envelope, n: u64, out: Outcome)
    requires out == Answer(Build(Prefix(me), ZERO_NONCE, SHeartbeatResponse(n), env.messageId, env.messageId,
                                 env.timestamp), None)
    ensures OutcomeIsSound(r, Some(me), out)
  {
    BuildCarries(Prefix(me), ZERO_NONCE, SHeartbeatResponse(n), env.messageId, env.messageId, env.timestamp);
    assert IsResponse(HeartbeatResponse);
  }

  lemma {:induction false} ReceiptIsSound(r: Routes, me: PeerId, target: RouteId, env: Envelope, id: u64, out: Outcome)
    requires out == Acknowledge(target, Build(Prefix(me), ZERO_NONCE, SDeliveryStatus(id, Delivered), id, id,
                                              env.timestamp))
    ensures OutcomeIsSound(r, Some(me), out)
  {
    BuildCarries(Prefix(me), ZERO_NONCE, SDeliveryStatus(id, Delivered), id, id, env.timestamp);
  }

  lemma {:induction false} DecisionIsSound(r: Routes, registered: Option<PeerId>, f: Frame)
    requires Agree(r) && Fits(f)
    ensures OutcomeIsSound(r, registered, Decide(r, registered, f))
  {
    var out := Decide(r, registered, f);
    if f.sessionId == ROUTE_REGISTRATION_ID || f.sessionId == ECHO_ROUTE_ID || registered.None? {
      return;
    }
    var me := registered.value;
    match DecodeClient(f.payload)
    case Ok((env, CSendMessage(to, data))) =>
      SendIsAnswered(r, me, f);
      AnsweredIsSound(r, me, f.nonce, env, to, data, out);
    case Ok((env, CAck(id))) => ReceiptIsSound(r, me, f.sessionId, env, id, out);
    case Ok((env, CHeartbeat(n))) => HeartbeatIsSound(r, me, env, n, out);
    case _ => assert out == DecideRaw(r, me, f);
  }

  // ---------- which frames need the registry ----------

  /** How the registry is locked: shared for a lookup, exclusively for a change. */
  datatype Mode = Shared | Exclusive

  /** How handling a frame locks the registry, if at all. Self-addressed messages, heartbeats and dropped frames are
      settled without it. */
  function Access(registered: Option<PeerId>, f: Frame): (m: Option<Mode>)
    ensures m == Some(Exclusive) <==> f.sessionId == ROUTE_REGISTRATION_ID && |f.payload| == 32
  {
    if f.sessionId == ROUTE_REGISTRATION_ID then (if |f.payload| != 32 then None else Some(Exclusive))
    else if f.sessionId == ECHO_ROUTE_ID || registered.None? then None
    else AccessDecoded(registered.value, f.sessionId, DecodeClient(f.payload))
  }

  function AccessDecoded(me: PeerId, target: RouteId, decoded: Result<(Envelope, ClientMessage), ProtocolError>)
    : (m: Option<Mode>)
    ensures m != Some(Exclusive)
  {
    match decoded
    case Ok((_, CSendMessage(to, _))) => if me == to then None else Some(Shared)
    case Ok((_, CAck(_))) => Some(Shared)
    case Ok((_, CHeartbeat(_))) => None
    case _ => if Prefix(me) == target then None else Some(Shared)
  }

  /** Frames handled without the lock come out the same under every registry, and cause nothing but an answer; the
      exclusive lock is taken exactly for registrations. */
  lemma {:induction false} LockIsTakenWhenNeeded(r: Routes, q: Routes, registered: Option<PeerId>, f: Frame)
    ensures var out := Decide(r, registered, f);
      && (Access(registered, f).None? ==>
            out == Decide(q, registered, f) && (out.Discard? || (out.Answer? && out.next.None?)))
      && (Access(registered, f) == Some(Exclusive) <==> out.Register?)
      && (out.Register? ==> out.peer == f.payload)
  {
  }

  // ---------- when a sender can reach itself ----------

  ghost predicate ForwardsTo(out: Outcome, c: nat) {
    || (out.Answer? && out.next.Some? && out.next.value.entry.conn == c)
    || (out.PassOn? && out.forward.entry.conn == c)
  }

  /** Connection `c` holds the route of an id other than `p`. */
  ghost predicate OtherRoute(r: Routes, p: PeerId, c: nat) {
    exists q :: q in r.byPeer && q != p && r.byPeer[q].conn == c
  }

  /** A message frame for `q` with empty data. */
  function Probe(q: PeerId): (f: Frame)
    ensures Fits(f)
  {
    ClientRoundTrip(CSendMessage(q, []), 1, 0, 0);
    Frame(ZERO_ID, ZERO_NONCE, EncodeClient(CSendMessage(q, []), 1, 0, 0).value)
  }

  lemma {:induction false} ProbeForwards(r: Routes, p: PeerId, q: PeerId)
    requires q != p && q in r.byPeer
    ensures Access(Some(p), Probe(q)) == Some(Shared)
    ensures var out := Decide(r, Some(p), Probe(q));
      && out.Answer? && out.response.Some? && out.next.Some?
      && out.next.value.entry == r.byPeer[q] && out.next.value.kind == Message
  {
    ClientRoundTrip(CSendMessage(q, []), 1, 0, 0);
    assert ZERO_ID[0] == 0 && ROUTE_REGISTRATION_ID[0] == 0xF0 && ECHO_ROUTE_ID[0] == 0xEE;
    SendIsAnswered(r, p, Probe(q));
  }

  /** Some frame of a sender registered as `p` is forwarded to connection `c` if and only if `c` holds the route of
      another id than `p`. With `c` the sender's own connection, this is exactly when it can reach itself. */
  lemma {:induction false} ReachableIff(r: Routes, p: PeerId, c: nat)
    requires Agree(r)
    ensures (exists f :: Fits(f) && ForwardsTo(Decide(r, Some(p), f), c)) <==> OtherRoute(r, p, c)
  {
    if f :| Fits(f) && ForwardsTo(Decide(r, Some(p), f), c) {
      ForwardNeedsRoute(r, p, f, c);
    }
    if q :| q in r.byPeer && q != p && r.byPeer[q].conn == c {
      ProbeForwards(r, p, q);
      assert Fits(Probe(q)) && ForwardsTo(Decide(r, Some(p), Probe(q)), c);
    }
  }

  lemma {:induction false} ForwardNeedsRoute(r: Routes, p: PeerId, f: Frame, c: nat)
    requires Agree(r) && Fits(f) && ForwardsTo(Decide(r, Some(p), f), c)
    ensures OtherRoute(r, p, c)
  {
    DecisionIsSound(r, Some(p), f);
    var out := Decide(r, Some(p), f);
    var e := if out.Answer? then out.next.value.entry else out.forward.entry;
    assert e.peer in r.byPeer && r.byPeer[e.peer] == e;
  }
}
