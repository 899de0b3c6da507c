/** The body of the routed session loop, one frame at a time, in the source's own imperative form. */
module RelaySession {
  import opened Bytes
  import opened Frames
  import opened Envelopes
  import opened Messages
  import opened Registry
  import opened RelayLogic

  /** What a session does to its surroundings: it locks and unlocks the registry and offers frames to queues. */
  datatype Action = Lock(mode: Mode) | Unlock | Offered(conn: nat, frame: Frame)

  function ForwardOffer(next: Option<Forward>): seq<Action> {
    match next case None => [] case Some(fw) => [Offered(fw.entry.conn, fw.frame)]
  }

  /** What a decision offers to which queues, in order. */
  function Offers(r: Routes, self: nat, out: Outcome): seq<Action> {
    match out
    case Register(_) => []
    case Discard => []
    case Answer(response, next) =>
      (if response.Some? then [Offered(self, response.value)] else []) + ForwardOffer(next)
    case Acknowledge(target, receipt) =>
      if receipt.Some? && target in r.byPrefix then [Offered(r.byPrefix[target].conn, receipt.value)] else []
    case PassOn(fw) => ForwardOffer(Some(fw))
  }

  /** The route whose receiver turns out to be gone, given the connections whose receivers are. */
  function FailedRoute(out: Outcome, gone: set<nat>): Option<Entry> {
    match out
    case Answer(_, Some(fw)) => if fw.entry.conn in gone then Some(fw.entry) else None
    case PassOn(fw) => if fw.entry.conn in gone then Some(fw.entry) else None
    case _ => None
  }

  function Eviction(failed: Option<Entry>): seq<Action> {
    if failed.Some? then [Lock(Exclusive), Unlock] else []
  }

  /** What a turn does, in order. A lookup releases the lock before anything is sent, except that of an acknowledgement,
      whose guard lives until the receipt has been sent. */
  function Actions(access: Option<Mode>, r: Routes, self: nat, out: Outcome, gone: set<nat>): seq<Action> {
    match access
    case None => Offers(r, self, out)
    case Some(Exclusive) => [Lock(Exclusive), Unlock]
    case Some(Shared) =>
      if out.Acknowledge? then [Lock(Shared)] + Offers(r, self, out) + [Unlock]
      else [Lock(Shared), Unlock] + Offers(r, self, out) + Eviction(FailedRoute(out, gone))
  }

  lemma {:induction false} Regroup(a: seq<Action>, b: seq<Action>, c: seq<Action>, d: seq<Action>)
    ensures a + b + (c + d) == a + (b + c + d)
  {
  }

  /** What a decision leaves in the registry. */
  function Aftermath(r: Routes, self: nat, out: Outcome, gone: set<nat>): Routes {
    if out.Register? then Inserted(r, out.peer, self)
    else match FailedRoute(out, gone)
      case Some(e) => Removed(r, e.peer, e.conn)
      case None => r
  }

  class RoutedSession {
    const connectionId: nat
    const routes: RouteRegistryInner
    var registeredPeer: Option<PeerId>
    var trace: seq<Action>

    constructor (connectionId: nat, routes: RouteRegistryInner)
      ensures this.connectionId == connectionId && this.routes == routes
      ensures registeredPeer == None && trace == []
    {
      this.connectionId, this.routes := connectionId, routes;
      registeredPeer, trace := None, [];
    }

    /** One turn of the loop, with no other task in between: exactly what `Decide` says is offered to the queues,
        in its order and with the lock held exactly where `Actions` says, and the registry changes only by this
        session's own registration or by removing the route of a receiver that is gone. */
    method HandleFrame(frame: Frame, gone: set<nat>)
      modifies this, routes
      ensures var r := old(routes.View());
        var out := Decide(r, old(registeredPeer), frame);
        && trace == old(trace) + Actions(Access(old(registeredPeer), frame), r, connectionId, out, gone)
        && routes.View() == Aftermath(r, connectionId, out, gone)
        && registeredPeer == (if out.Register? then Some(out.peer) else old(registeredPeer))
    {
      if frame.sessionId == ROUTE_REGISTRATION_ID {
        if |frame.payload| != 32 {
          return;
        }
        var peerId: PeerId := frame.payload;
        trace := trace + [Lock(Exclusive)];
        var previous := routes.Insert(peerId, connectionId);
        trace := trace + [Unlock];
        registeredPeer := Some(peerId);
        return;
      }
      if frame.sessionId == ECHO_ROUTE_ID {
        return;
      }
      if registeredPeer.None? {
        return;
      }
      HandleDecoded(registeredPeer.value, frame, DecodeClient(frame.payload), gone);
    }

    /** A frame from a registered peer: a structured request, or bytes to pass on. */
    method HandleDecoded(source: PeerId, frame: Frame, decoded: Result<(Envelope, ClientMessage), ProtocolError>,
                         gone: set<nat>)
      modifies this`trace, routes
      ensures var r := old(routes.View());
        var out := DecideDecoded(r, source, frame, decoded);
        trace == old(trace) + Actions(AccessDecoded(source, frame.sessionId, decoded), r, connectionId, out, gone)
        && routes.View() == Aftermath(r, connectionId, out, gone)
    {
      match decoded {
        case Ok((env, CSendMessage(recipient, data))) =>
          HandleSend(source, recipient, SendResponse(source, env, false), SendResponse(source, env, true),
                     Build(Prefix(source), frame.nonce, SIncomingMessage(source, data), env.messageId, 0, env.timestamp),
                     gone);
        case Ok((env, CAck(id))) =>
          Receipt(frame.sessionId,
                  Build(Prefix(source), ZERO_NONCE, SDeliveryStatus(id, Delivered), id, id, env.timestamp));
        case Ok((env, CHeartbeat(n))) =>
          Respond(Build(Prefix(source), ZERO_NONCE, SHeartbeatResponse(n), env.messageId, env.messageId, env.timestamp));
        case _ =>
          HandleRaw(source, frame, gone);
      }
    }

    /** Offers a response to the session's own queue, if it could be built. */
    method Respond(response: Option<Frame>)
      modifies this`trace
      ensures trace == old(trace) + Offers(routes.View(), connectionId, Answer(response, None))
    {
      if response.Some? {
        trace := trace + [Offered(connectionId, response.value)];
      }
    }

    /** Looks a route up under a prefix and offers it a delivery receipt, still under the lock. */
    method Receipt(target: RouteId, receipt: Option<Frame>)
      modifies this`trace
      ensures trace == old(trace)
        + ([Lock(Shared)] + Offers(routes.View(), connectionId, Acknowledge(target, receipt)) + [Unlock])
    {
      trace := trace + [Lock(Shared)];
      var entry := routes.GetByPrefix(target);
      if entry.Some? && receipt.Some? {
        trace := trace + [Offered(entry.value.conn, receipt.value)];
      }
      trace := trace + [Unlock];
    }

    /** Offers a frame to a looked-up route and removes the route if its receiver is gone. */
    method Forward(entry: Entry, frame: Frame, gone: set<nat>)
      modifies this`trace, routes
      ensures trace == old(trace) + ([Offered(entry.conn, frame)]
        + Eviction(if entry.conn in gone then Some(entry) else None))
      ensures routes.View() ==
        if entry.conn in gone then Removed(old(routes.View()), entry.peer, entry.conn) else old(routes.View())
    {
      trace := trace + [Offered(entry.conn, frame)];
      if entry.conn in gone {
        trace := trace + [Lock(Exclusive)];
        var removed := routes.RemoveConnection(entry.peer, entry.conn);
        trace := trace + [Unlock];
      }
    }

    /** A SendMessage, with the answers and the event it may lead to: the answer first, then the event. */
    method HandleSend(source: PeerId, recipient: PeerId, refusal: Option<Frame>, acceptance: Option<Frame>,
                      event: Option<Frame>, gone: set<nat>)
      modifies this`trace, routes
      ensures var r := old(routes.View());
        var out := Settle(r, source, recipient, if Accepts(r, source, recipient) then acceptance else refusal, event);
        && trace == old(trace)
           + Actions(if source == recipient then None else Some(Shared), r, connectionId, out, gone)
        && routes.View() == Aftermath(r, connectionId, out, gone)
    {
      if source == recipient {
        Respond(refusal);
        return;
      }
      trace := trace + [Lock(Shared)];
      var target := routes.GetByPeerId(recipient);
      trace := trace + [Unlock];
      assert trace == old(trace) + [Lock(Shared), Unlock];
      ghost var out := Settle(routes.View(), source, recipient, if target.Some? then acceptance else refusal, event);
      Regroup(old(trace), [Lock(Shared), Unlock], Offers(routes.View(), connectionId, out),
              Eviction(FailedRoute(out, gone)));
      if target.Some? {
        AnswerAndForward(acceptance, target.value, event, gone);
      } else {
        Respond(refusal);
      }
    }

    /** The response first, then the event for the recipient, if it could be built. */
    method AnswerAndForward(response: Option<Frame>, entry: Entry, event: Option<Frame>, gone: set<nat>)
      modifies this`trace, routes
      ensures var r := old(routes.View());
        var out := Answer(response, if event.Some? then Some(RelayLogic.Forward(entry, event.value, Message)) else None);
        && trace == old(trace) + (Offers(r, connectionId, out) + Eviction(FailedRoute(out, gone)))
        && routes.View() == Aftermath(r, connectionId, out, gone)
    {
      Respond(response);
      if event.Some? {
        Forward(entry, event.value, gone);
      }
    }

    method HandleRaw(source: PeerId, frame: Frame, gone: set<nat>)
      modifies this`trace, routes
      ensures var r := old(routes.View());
        var out := DecideRaw(r, source, frame);
        && trace == old(trace)
           + Actions(if Prefix(source) == frame.sessionId then None else Some(Shared), r, connectionId, out, gone)
        && routes.View() == Aftermath(r, connectionId, out, gone)
    {
      var target := frame.sessionId;
      if Prefix(source) == target {
        return;
      }
      trace := trace + [Lock(Shared)];
      var entry := routes.GetByPrefix(target);
      trace := trace + [Unlock];
      if entry.Some? {
        Forward(entry.value, frame.(sessionId := Prefix(source)), gone);
      }
    }

    /** The cleanup after a clean end of the stream. */
    method Leave() returns (removed: bool)
      modifies this`trace, routes
      ensures registeredPeer.None? ==> !removed && routes.View() == old(routes.View()) && trace == old(trace)
      ensures registeredPeer.Some? ==>
        && routes.View() == Removed(old(routes.View()), registeredPeer.value, connectionId)
        && removed == IsCurrent(old(routes.View()), registeredPeer.value, connectionId)
        && trace == old(trace) + [Lock(Exclusive), Unlock]
    {
      removed := false;
      if registeredPeer.Some? {
        trace := trace + [Lock(Exclusive)];
        removed := routes.RemoveConnection(registeredPeer.value, connectionId);
        trace := trace + [Unlock];
      }
    }
  }
}
