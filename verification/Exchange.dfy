/** One request all the way: from the client's id counter through the relay's decision, or the pipeline's answer, back to
    the client's waiter. */
module Exchange {
  import opened Bytes
  import opened Frames
  import opened Envelopes
  import opened Messages
  import opened Registry
  import opened RelayLogic
  import opened Correlation
  import RelayHistory
  import Pipeline

  /** The frame carries a SendMessage under request id `id`, as the client's router queues it. */
  ghost predicate Requests(f: Frame, id: u64, to: PeerId, data: seq<byte>) {
    && DecodeClient(f.payload).Ok?
    && var (env, m) := DecodeClient(f.payload).value; env.messageId == id && m == CSendMessage(to, data)
  }

  /** The answer in a decision, as it reaches the client's dispatcher. */
  function ReplyIn(out: Outcome): Option<Arrival> {
    if out.Answer? && out.response.Some? then
      match DecodeServer(out.response.value.payload)
      case Ok((env, m)) => Some(Arrival(env, m))
      case Err(_) => None
    else None
  }

  function Reply(r: Routes, registered: Option<PeerId>, f: Frame): Option<Arrival> {
    ReplyIn(Decide(r, registered, f))
  }

  /** The arrival says, under the id of the request, whether it was accepted. */
  ghost predicate Verdict(reply: Arrival, id: u64, accepted: bool) {
    reply.envelope.correlationId == id && reply.message == SSendMessageResponse(id, accepted)
  }

  lemma {:induction false} AnsweredReplies(r: Routes, me: PeerId, nonce: Nonce, env: Envelope, to: PeerId,
                                           data: seq<byte>, out: Outcome)
    requires SendAnswered(r, me, nonce, env, to, data, out)
    ensures ReplyIn(out).Some? && Verdict(ReplyIn(out).value, env.messageId, to != me && to in r.byPeer)
  {
  }

  /** The relay answers under this session id: it is not one of the two reserved ones, and the sender has registered. */
  predicate Heard(sessionId: SessionId, registered: Option<PeerId>) {
    sessionId != ROUTE_REGISTRATION_ID && sessionId != ECHO_ROUTE_ID && registered.Some?
  }

  /** The relay answers a request if and only if it hears its sender under that session id. The answer is a response that
      carries the request's id, and says that it was accepted exactly when the recipient is someone else with a route. */
  lemma {:induction false} ReplyIff(r: Routes, registered: Option<PeerId>, f: Frame, id: u64, to: PeerId, data: seq<byte>)
    requires Requests(f, id, to, data)
    ensures Decide(r, registered, f).Answer? <==> Heard(f.sessionId, registered)
    ensures Reply(r, registered, f).Some? <==> Heard(f.sessionId, registered)
    ensures Heard(f.sessionId, registered) ==>
      Verdict(Reply(r, registered, f).value, id, to != registered.value && to in r.byPeer)
  {
    RelayHistory.AnsweredIff(r, registered, f);
    if Heard(f.sessionId, registered) {
      SendIsAnswered(r, registered.value, f);
      AnsweredReplies(r, registered.value, f.nonce, DecodeClient(f.payload).value.0, to, data, Decide(r, registered, f));
    }
  }

  /** The client's dispatcher gives a verdict to exactly the waiter of the request, unless the id counter has wrapped
      around to zero. */
  lemma {:induction false} VerdictResolvesItsWaiter(box: Inbox, reply: Arrival, id: u64, accepted: bool)
    requires Verdict(reply, id, accepted) && id in box.pending
    ensures Dispatched(box, reply) ==
      if id == 0 then box
      else box.(pending := box.pending - {id}, resolved := box.resolved[box.pending[id] := reply.message])
  {
    assert IsResponse(SendMessageResponse) && !IsEvent(SendMessageResponse);
  }

  /** What a sender that waits for the answer gets. */
  datatype Reception = NotSent(error: SendError) | TimedOut | Got(message: ServerMessage)

  /** One more waiter, already resolved by `m`; nothing pending under `id`. */
  function Settled(box: Inbox, id: u64, m: ServerMessage): Inbox {
    box.(pending := box.pending - {id}, waiters := box.waiters + 1, resolved := box.resolved[box.waiters := m])
  }

  /** The inbox after a request whose answer is `verdict`, or that gets none and stays pending for good. */
  function Concluded(box: Inbox, id: u64, verdict: Option<ServerMessage>): Inbox {
    if verdict.Some? then Settled(box, id, verdict.value) else Registered(box, id)
  }

  function Received(verdict: Option<ServerMessage>): Reception {
    if verdict.Some? then Got(verdict.value) else TimedOut
  }

  /** Registering the waiter, and then the answer coming in, if there is one. */
  method AwaitReply(inbound: ClientInboundRouter, id: u64, reply: Option<Arrival>, ghost accepted: bool)
    returns (answer: Reception)
    requires reply.Some? ==> Verdict(reply.value, id, accepted)
    modifies inbound
    ensures var verdict := if reply.Some? && id != 0 then Some(SSendMessageResponse(id, accepted)) else None;
      answer == Received(verdict) && inbound.View() == Concluded(old(inbound.View()), id, verdict)
  {
    var waiter := inbound.RegisterPending(id);
    if reply.None? {
      return TimedOut;
    }
    VerdictResolvesItsWaiter(inbound.View(), reply.value, id, accepted);
    assert inbound.View().pending - {id} == old(inbound.pendingRequests) - {id};
    inbound.Dispatch(reply.value);
    if id in inbound.pendingRequests {
      return TimedOut;
    }
    return Got(inbound.resolved[waiter]);
  }

  /** Sending a message through the two routers under any session id, and waiting for the relay's answer, which comes
      after the waiter is registered. The sender gets the relay's verdict if and only if the relay hears it under that
      session id and the request id is not zero; otherwise it times out, and its waiter is left behind. No other waiter
      is touched. */
  method SendMessageAndWait(outbound: ClientOutboundRouter, inbound: ClientInboundRouter, sessionId: SessionId,
                            to: PeerId, data: seq<byte>, timestamp: u64, open: bool, r: Routes,
                            registered: Option<PeerId>)
    returns (answer: Reception)
    modifies outbound, inbound
    ensures answer.NotSent? <==> !open || 32 + |data| > MAX_ENVELOPE_PAYLOAD_SIZE
    ensures answer.NotSent? ==> inbound.View() == old(inbound.View()) && outbound.outbound == old(outbound.outbound)
    ensures !answer.NotSent? ==>
      var id := old(outbound.counter);
      var verdict :=
        if Heard(sessionId, registered) && id != 0
        then Some(SSendMessageResponse(id, to != registered.value && to in r.byPeer)) else None;
      answer == Received(verdict) && inbound.View() == Concluded(old(inbound.View()), id, verdict)
  {
    var sent := outbound.SendMessage(sessionId, CSendMessage(to, data), timestamp, open);
    if sent.Err? {
      return NotSent(sent.error);
    }
    var f := outbound.outbound[|outbound.outbound| - 1];
    ReplyIff(r, registered, f, sent.value, to, data);
    var reply := Reply(r, registered, f);
    answer := AwaitReply(inbound, sent.value, reply, registered.Some? && to != registered.value && to in r.byPeer);
  }

  // ---------- the client as it is ----------

  /** The session id of every `ClientSession`: the first half of the echo service's id. */
  const CLIENT_SESSION_ID: SessionId := Pipeline.ECHO_SERVICE_ID

  /** Whatever the client sends, the routed relay drops it, whoever is registered. */
  lemma {:induction false} ClientIsDropped(r: Routes, registered: Option<PeerId>, nonce: Nonce, payload: seq<byte>)
    ensures Decide(r, registered, Frame(CLIENT_SESSION_ID, nonce, payload)) == Discard
  {
    assert CLIENT_SESSION_ID == ECHO_ROUTE_ID;
    assert ECHO_ROUTE_ID[0] == 0xEE && ROUTE_REGISTRATION_ID[0] == 0xF0;
  }

  /** `send_message` of the client against the routed relay: what is sent is never answered. The caller times out, and
      the request stays in the pending table. */
  method ClientAgainstRelay(outbound: ClientOutboundRouter, inbound: ClientInboundRouter, to: PeerId, data: seq<byte>,
                            timestamp: u64, open: bool, r: Routes, registered: Option<PeerId>)
    returns (answer: Reception)
    modifies outbound, inbound
    ensures answer.NotSent? <==> !open || 32 + |data| > MAX_ENVELOPE_PAYLOAD_SIZE
    ensures !answer.NotSent? ==>
      answer == TimedOut && inbound.View() == Registered(old(inbound.View()), old(outbound.counter))
  {
    ClientIsDropped(r, registered, ZERO_NONCE, []);
    assert CLIENT_SESSION_ID == ECHO_ROUTE_ID;
    answer := SendMessageAndWait(outbound, inbound, CLIENT_SESSION_ID, to, data, timestamp, open, r, registered);
  }

  /** What the pipeline has queued last, as it reaches the client's dispatcher. */
  function ArrivalOf(f: Frame): Option<Arrival> {
    match DecodeServer(f.payload)
    case Ok((env, m)) => Some(Arrival(env, m))
    case Err(_) => None
  }

  /** The pipeline accepts every message under the client's session id. */
  method AskPipeline(pipeline: Pipeline.ServerPipeline, f: Frame, id: u64, ghost to: PeerId, ghost data: seq<byte>,
                     serverTime: u64)
    returns (reply: Option<Arrival>)
    requires pipeline.Valid() && Fits(f) && f.sessionId == CLIENT_SESSION_ID && Requests(f, id, to, data)
    modifies pipeline
    ensures reply.Some? && Verdict(reply.value, id, true)
    ensures |pipeline.outbound| == |old(pipeline.outbound)| + 1
  {
    var done := pipeline.ProcessFrame(f, serverTime);
    reply := ArrivalOf(pipeline.outbound[|pipeline.outbound| - 1]);
  }

  /** `send_message` of the client against the pipeline, which serves the client's session id: every message that is sent
      comes back accepted, under its own id, unless that is zero. */
  method ClientAgainstPipeline(outbound: ClientOutboundRouter, inbound: ClientInboundRouter,
                               pipeline: Pipeline.ServerPipeline, to: PeerId, data: seq<byte>, timestamp: u64,
                               serverTime: u64, open: bool)
    returns (answer: Reception)
    requires pipeline.Valid()
    modifies outbound, inbound, pipeline
    ensures answer.NotSent? <==> !open || 32 + |data| > MAX_ENVELOPE_PAYLOAD_SIZE
    ensures answer.NotSent? ==> inbound.View() == old(inbound.View()) && pipeline.outbound == old(pipeline.outbound)
    ensures !answer.NotSent? ==>
      var id := old(outbound.counter);
      var verdict := if id != 0 then Some(SSendMessageResponse(id, true)) else None;
      && answer == Received(verdict) && inbound.View() == Concluded(old(inbound.View()), id, verdict)
      && |pipeline.outbound| == |old(pipeline.outbound)| + 1
  {
    var sent := outbound.SendMessage(CLIENT_SESSION_ID, CSendMessage(to, data), timestamp, open);
    if sent.Err? {
      return NotSent(sent.error);
    }
    var f := outbound.outbound[|outbound.outbound| - 1];
    var reply := AskPipeline(pipeline, f, sent.value, to, data, serverTime);
    answer := AwaitReply(inbound, sent.value, reply, true);
  }
}
