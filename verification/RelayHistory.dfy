/** Every delivery traced back to the input frame that caused it, and every request to its answer. */
module RelayHistory {
  import opened Bytes
  import opened Frames
  import opened Envelopes
  import opened Messages
  import opened Registry
  import opened RelayLogic
  import opened RelayMachine
  import opened RelayInvariants
  import opened RelayTheorems

  /** The two reserved session ids, and the nonce of all that the relay makes itself. */
  lemma {:induction false} ReservedIds(i: nat)
    requires i < 16
    ensures ROUTE_REGISTRATION_ID[i] == 0xF0 && ECHO_ROUTE_ID[i] == 0xEE
    ensures i < 8 ==> ZERO_NONCE[i] == 0
  {
  }

  // ---------- what an input frame must lead to ----------

  predicate Registration(f: Frame) {
    f.sessionId == ROUTE_REGISTRATION_ID && |f.payload| == 32
  }

  /** The id that a session is registered as after handling these frames: that of the last registration among them. */
  function RegisteredBy(inputs: seq<Frame>): Option<PeerId> {
    if inputs == [] then None
    else
      var last := inputs[|inputs| - 1];
      if Registration(last) then Some(last.payload) else RegisteredBy(inputs[..|inputs| - 1])
  }

  /** The response is what a request with this envelope and message, from a session registered as `me`, is owed. */
  ghost predicate AnswerTo(me: PeerId, env: Envelope, m: ClientMessage, response: Frame) {
    match m
    case CSendMessage(to, _) => exists accepted: bool ::
      && Carries(Some(response), Prefix(me), ZERO_NONCE, SSendMessageResponse(env.messageId, accepted),
                 env.messageId, env.messageId, env.timestamp)
      && (accepted ==> to != me)
    case CHeartbeat(n) =>
      Carries(Some(response), Prefix(me), ZERO_NONCE, SHeartbeatResponse(n), env.messageId, env.messageId, env.timestamp)
    case _ => false
  }

  /** The event is that of the message, unchanged, for its recipient. */
  ghost predicate EventOf(me: PeerId, nonce: Nonce, env: Envelope, m: ClientMessage, recipient: PeerId, event: Frame) {
    && m.CSendMessage? && m.recipientId == recipient
    && Carries(Some(event), Prefix(me), nonce, SIncomingMessage(me, m.data), env.messageId, 0, env.timestamp)
  }

  ghost predicate ReceiptOf(me: PeerId, env: Envelope, m: ClientMessage, receipt: Frame) {
    && m.CAck?
    && Carries(Some(receipt), Prefix(me), ZERO_NONCE, SDeliveryStatus(m.acknowledgedId, Delivered),
               m.acknowledgedId, m.acknowledgedId, env.timestamp)
  }

  /** A frame of this kind for `recipient` is exactly what the input frame `f` of a session registered as `me` calls
      for: the answer to a request, the event of a message, the frame itself under the sender's prefix, or the receipt of
      an acknowledgement. */
  ghost predicate Caused(me: PeerId, f: Frame, recipient: PeerId, kind: Kind, frame: Frame) {
    && f.sessionId != ROUTE_REGISTRATION_ID && f.sessionId != ECHO_ROUTE_ID
    && (kind == Raw ==> frame == f.(sessionId := Prefix(me)) && f.sessionId == Prefix(recipient))
    && (kind != Raw ==>
          && DecodeClient(f.payload).Ok?
          && var (env, m) := DecodeClient(f.payload).value;
             && (kind == Response ==> AnswerTo(me, env, m, frame) && recipient == me)
             && (kind == Message ==> EventOf(me, f.nonce, env, m, recipient, frame))
             && (kind == Receipt ==> ReceiptOf(me, env, m, frame) && f.sessionId == Prefix(recipient)))
  }

  ghost predicate OutcomeIsCaused(r: Routes, me: PeerId, f: Frame, out: Outcome) {
    match out
    case Answer(response, next) =>
      && response.Some? && Caused(me, f, me, Response, response.value)
      && (next.Some? ==> Caused(me, f, next.value.entry.peer, next.value.kind, next.value.frame))
    case PassOn(fw) => Caused(me, f, fw.entry.peer, fw.kind, fw.frame)
    case Acknowledge(target, receipt) =>
      && receipt.Some?
      && (target in r.byPrefix ==> Caused(me, f, r.byPrefix[target].peer, Receipt, receipt.value))
    case _ => true
  }

  lemma {:induction false} SendIsCaused(r: Routes, me: PeerId, f: Frame)
    requires Agree(r) && f.sessionId != ROUTE_REGISTRATION_ID && f.sessionId != ECHO_ROUTE_ID
    requires DecodeClient(f.payload).Ok? && DecodeClient(f.payload).value.1.CSendMessage?
    ensures OutcomeIsCaused(r, me, f, Decide(r, Some(me), f))
  {
    SendIsAnswered(r, me, f);
  }

  /** Whatever a decision sends is caused by the frame it was made on. */
  lemma {:induction false} DecisionIsCaused(r: Routes, me: PeerId, f: Frame)
    requires Agree(r) && Fits(f)
    ensures OutcomeIsCaused(r, me, f, Decide(r, Some(me), f))
  {
    if f.sessionId == ROUTE_REGISTRATION_ID || f.sessionId == ECHO_ROUTE_ID {
      return;
    }
    var out := Decide(r, Some(me), f);
    match DecodeClient(f.payload)
    case Ok((_, CSendMessage(_, _))) => SendIsCaused(r, me, f);
    case Ok((env, CAck(id))) =>
      BuildCarries(Prefix(me), ZERO_NONCE, SDeliveryStatus(id, Delivered), id, id, env.timestamp);
    case Ok((env, CHeartbeat(n))) =>
      BuildCarries(Prefix(me), ZERO_NONCE, SHeartbeatResponse(n), env.messageId, env.messageId, env.timestamp);
    case _ => assert out == DecideRaw(r, me, f);
  }

  /** The frame is a request that a session with this registration must answer. */
  ghost predicate Asks(registered: Option<PeerId>, f: Frame) {
    && registered.Some? && f.sessionId != ROUTE_REGISTRATION_ID && f.sessionId != ECHO_ROUTE_ID
    && DecodeClient(f.payload).Ok?
    && (DecodeClient(f.payload).value.1.CSendMessage? || DecodeClient(f.payload).value.1.CHeartbeat?)
  }

  /** Exactly the requests of registered sessions are answered, whatever the registry holds: not those under the two
      reserved session ids, and not those of a session that has not registered. */
  lemma {:induction false} AnsweredIff(r: Routes, registered: Option<PeerId>, f: Frame)
    ensures Decide(r, registered, f).Answer? <==> Asks(registered, f)
  {
  }

  /** The payload is one of the three structured requests that the routed loop handles itself. */
  ghost predicate Structured(f: Frame) {
    && DecodeClient(f.payload).Ok?
    && var m := DecodeClient(f.payload).value.1; m.CSendMessage? || m.CAck? || m.CHeartbeat?
  }

  /** Neither a registration nor an echo, from a session that has registered. */
  ghost predicate Admitted(registered: Option<PeerId>, f: Frame) {
    registered.Some? && f.sessionId != ROUTE_REGISTRATION_ID && f.sessionId != ECHO_ROUTE_ID
  }

  ghost predicate Acks(registered: Option<PeerId>, f: Frame) {
    Admitted(registered, f) && DecodeClient(f.payload).Ok? && DecodeClient(f.payload).value.1.CAck?
  }

  /** Anything else, addressed to a prefix that is not the sender's own. */
  ghost predicate RawFor(registered: Option<PeerId>, f: Frame) {
    Admitted(registered, f) && !Structured(f) && f.sessionId != Prefix(registered.value)
  }

  /** Which frames register, which are answered, which cause a receipt, and which are passed on: any other payload,
      whatever it holds, for a prefix that is routed and not the sender's own goes to the route found under that prefix,
      with nonce and payload unchanged. All else is dropped. */
  lemma {:induction false} OutcomeIff(r: Routes, registered: Option<PeerId>, f: Frame)
    ensures var out := Decide(r, registered, f);
      && (out.Register? <==> Registration(f)) && (out.Register? ==> out.peer == f.payload)
      && (out.Answer? <==> Asks(registered, f))
      && (out.Acknowledge? <==> Acks(registered, f)) && (out.Acknowledge? ==> out.target == f.sessionId)
      && (out.PassOn? <==> RawFor(registered, f) && f.sessionId in r.byPrefix)
      && (out.PassOn? ==>
            out.forward == Forward(r.byPrefix[f.sessionId], Frame(Prefix(registered.value), f.nonce, f.payload), Raw))
  {
    AnsweredIff(r, registered, f);
    if Admitted(registered, f) {
      DecodedOutcomeIff(r, registered.value, f);
    }
  }

  lemma {:induction false} DecodedOutcomeIff(r: Routes, me: PeerId, f: Frame)
    ensures var out := DecideDecoded(r, me, f, DecodeClient(f.payload));
      && !out.Register?
      && (out.Acknowledge? <==> DecodeClient(f.payload).Ok? && DecodeClient(f.payload).value.1.CAck?)
      && (out.Acknowledge? ==> out.target == f.sessionId)
      && (out.PassOn? <==> !Structured(f) && f.sessionId != Prefix(me) && f.sessionId in r.byPrefix)
      && (out.PassOn? ==> out.forward == Forward(r.byPrefix[f.sessionId], Frame(Prefix(me), f.nonce, f.payload), Raw))
  {
  }

  /** Exactly the registrations take the exclusive lock; exactly the messages for someone else, the acknowledgements and
      the frames to pass on take the shared one; nothing else looks at the registry. */
  lemma {:induction false} AccessIff(registered: Option<PeerId>, f: Frame)
    ensures Access(registered, f) == Some(Exclusive) <==> Registration(f)
    ensures Access(registered, f) == Some(Shared) <==>
      || Acks(registered, f) || RawFor(registered, f)
      || (Asks(registered, f) && var m := DecodeClient(f.payload).value.1; m.CSendMessage? && m.recipientId != registered.value)
  {
    if Admitted(registered, f) {
      DecodedAccessIff(registered.value, f);
    }
  }

  lemma {:induction false} DecodedAccessIff(me: PeerId, f: Frame)
    ensures AccessDecoded(me, f.sessionId, DecodeClient(f.payload)) == Some(Shared) <==>
      || (DecodeClient(f.payload).Ok? && DecodeClient(f.payload).value.1.CAck?)
      || (!Structured(f) && f.sessionId != Prefix(me))
      || (DecodeClient(f.payload).Ok? && var m := DecodeClient(f.payload).value.1; m.CSendMessage? && m.recipientId != me)
  {
  }

  // ---------- what was looked up is sent ----------

  /** A frame to pass on: whatever others do between the lookup and the send, it enters the queue found at lookup, with
      its own nonce and payload under the sender's prefix, if that queue's writer is still there. */
  lemma {:induction false} RawDelivers(s: State, t: State, c: nat, f: Frame, a: seq<Step>, me: PeerId)
    requires Inv(s) && Enabled(s, Acquire(c)) && t == Apply(s, Acquire(c))
    requires s.sessions[c].phase == Waiting(Handle(f)) && s.sessions[c].registered == Some(me)
    requires RawFor(Some(me), f) && f.sessionId in s.routes.byPrefix
    requires ValidRun(t, a) && Bystanders(a, c) && Enabled(Exec(t, a), Deliver(c))
    ensures var u, k := Exec(t, a), s.routes.byPrefix[f.sessionId].conn;
      && k in u.channels
      && (u.channels[k].open ==> Enqueues(u, Deliver(c), k, Frame(Prefix(me), f.nonce, f.payload)))
  {
    var fw := Forward(s.routes.byPrefix[f.sessionId], Frame(Prefix(me), f.nonce, f.payload), Raw);
    OutcomeIff(s.routes, Some(me), f);
    GrantedRaw(s.routes, s.sessions[c], f, fw);
    StepKeepsInv(s, Acquire(c));
    BystandersLeave(t, a, c);
    DeliverEnqueues(Exec(t, a), c, fw);
  }

  lemma {:induction false} GrantedRaw(r: Routes, x: Session, f: Frame, fw: Forward)
    requires x.phase == Waiting(Handle(f)) && Decide(r, x.registered, f) == PassOn(fw)
    ensures Granted(r, x).phase == Forwarding(fw)
  {
  }

  /** The same for an acknowledgement: its receipt, for the acknowledged id, enters the queue found at lookup. */
  lemma {:induction false} ReceiptDelivers(s: State, t: State, c: nat, f: Frame, a: seq<Step>, me: PeerId)
    requires Inv(s) && Enabled(s, Acquire(c)) && t == Apply(s, Acquire(c))
    requires s.sessions[c].phase == Waiting(Handle(f)) && s.sessions[c].registered == Some(me)
    requires Acks(Some(me), f) && f.sessionId in s.routes.byPrefix && Fits(f)
    requires ValidRun(t, a) && Bystanders(a, c) && Enabled(Exec(t, a), Confirm(c))
    ensures var u, k := Exec(t, a), s.routes.byPrefix[f.sessionId].conn;
      var (env, m) := DecodeClient(f.payload).value;
      && k in u.channels
      && (u.channels[k].open ==> exists receipt :: ReceiptOf(me, env, m, receipt) && Enqueues(u, Confirm(c), k, receipt))
  {
    var e := s.routes.byPrefix[f.sessionId];
    var receipt := GrantedAck(s.routes, s.sessions[c], f, me);
    StepKeepsInv(s, Acquire(c));
    BystandersLeave(t, a, c);
    ConfirmEnqueues(Exec(t, a), c, e, receipt);
  }

  lemma {:induction false} GrantedAck(r: Routes, x: Session, f: Frame, me: PeerId) returns (receipt: Frame)
    requires Agree(r) && Fits(f) && x.phase == Waiting(Handle(f)) && x.registered == Some(me)
    requires Acks(Some(me), f) && f.sessionId in r.byPrefix
    ensures Granted(r, x).phase == Acknowledging(r.byPrefix[f.sessionId], receipt)
    ensures var (env, m) := DecodeClient(f.payload).value; ReceiptOf(me, env, m, receipt)
  {
    OutcomeIff(r, Some(me), f);
    DecisionIsCaused(r, me, f);
    receipt := Decide(r, Some(me), f).receipt.value;
  }

  lemma {:induction false} ConfirmEnqueues(s: State, c: nat, e: Entry, receipt: Frame)
    requires Enabled(s, Confirm(c)) && s.sessions[c].phase == Acknowledging(e, receipt)
    ensures e.conn in s.channels && (s.channels[e.conn].open ==> Enqueues(s, Confirm(c), e.conn, receipt))
  {
  }

  // ---------- sessions remember what they are working on ----------

  /** The frames a session has handled, not counting one it is still waiting to look up. */
  ghost function Handled(x: Session): seq<Frame> {
    if x.phase.Waiting? && x.phase.request.Handle? && x.inputs != [] then x.inputs[..|x.inputs| - 1] else x.inputs
  }

  ghost predicate PhaseIsCaused(x: Session) {
    match x.phase
    case Idle => true
    case Waiting(request) => request.Handle? ==> x.inputs != [] && request.frame == x.inputs[|x.inputs| - 1]
    case Answering(response, next) =>
      && x.registered.Some? && x.inputs != []
      && Caused(x.registered.value, x.inputs[|x.inputs| - 1], x.registered.value, Response, response)
      && (next.Some? ==> ForwardIsCaused(x, next.value))
    case Forwarding(fw) => x.registered.Some? && x.inputs != [] && ForwardIsCaused(x, fw)
    case Acknowledging(e, receipt) =>
      x.registered.Some? && x.inputs != [] && ForwardIsCaused(x, Forward(e, receipt, Receipt))
  }

  ghost predicate ForwardIsCaused(x: Session, fw: Forward)
    requires x.registered.Some? && x.inputs != []
  {
    Caused(x.registered.value, x.inputs[|x.inputs| - 1], fw.entry.peer, fw.kind, fw.frame)
  }

  ghost predicate SessionHistory(x: Session) {
    x.registered == RegisteredBy(Handled(x)) && PhaseIsCaused(x)
  }

  ghost predicate DeliveryIsCaused(sessions: map<nat, Session>, d: Delivery) {
    && d.origin in sessions && d.index < |sessions[d.origin].inputs|
    && RegisteredBy(sessions[d.origin].inputs[..d.index]) == Some(d.sender)
    && Caused(d.sender, sessions[d.origin].inputs[d.index], d.recipient, d.kind, d.frame)
  }

  ghost predicate HistoryOk(s: State) {
    && (forall c :: c in s.sessions ==> SessionHistory(s.sessions[c]))
    && (forall i :: 0 <= i < |s.log| ==> DeliveryIsCaused(s.sessions, s.log[i]))
  }

  lemma {:induction false} PlainInput(inputs: seq<Frame>, f: Frame)
    ensures (inputs + [f])[..|inputs|] == inputs
    ensures RegisteredBy(inputs + [f]) == if Registration(f) then Some(f.payload) else RegisteredBy(inputs)
  {
    assert (inputs + [f])[..|inputs|] == inputs;
  }

  /** Going on after a decision on the last input. */
  lemma {:induction false} DecidedPhase(x: Session, r: Routes, f: Frame)
    requires Agree(r) && Fits(f) && x.inputs != [] && x.inputs[|x.inputs| - 1] == f
    ensures PhaseIsCaused(x.(phase := PhaseOf(r, Decide(r, x.registered, f))))
    ensures !PhaseOf(r, Decide(r, x.registered, f)).Waiting?
  {
    DecisionIsSound(r, x.registered, f);
    if x.registered.Some? {
      DecisionIsCaused(r, x.registered.value, f);
    }
  }

  lemma {:induction false} TakenHistory(x: Session, f: Frame)
    requires SessionHistory(x) && x.phase.Idle? && Fits(f)
    ensures SessionHistory(Taken(x, f))
  {
    PlainInput(x.inputs, f);
    if Access(x.registered, f).None? {
      DecidedPhase(x.(inputs := x.inputs + [f]), EMPTY, f);
    }
  }

  lemma {:induction false} GrantedHistory(r: Routes, x: Session)
    requires Agree(r) && SessionHistory(x) && x.phase.Waiting?
    requires x.phase.request.Handle? ==> Fits(x.phase.request.frame)
    ensures SessionHistory(Granted(r, x))
  {
    if x.phase.request.Handle? {
      var f, before := x.phase.request.frame, x.inputs[..|x.inputs| - 1];
      assert before + [f] == x.inputs;
      PlainInput(before, f);
      LockIsTakenWhenNeeded(r, r, x.registered, f);
      if !Registration(f) {
        DecidedPhase(x, r, f);
      }
    }
  }

  /** A session that is neither taking a frame nor waiting to look one up. */
  ghost predicate PastLookup(x: Session) {
    !(x.phase.Waiting? && x.phase.request.Handle?)
  }

  lemma {:induction false} PhaseChanges(x: Session, y: Session)
    requires SessionHistory(x) && PastLookup(x) && PastLookup(y) && y.inputs == x.inputs && y.registered == x.registered
    requires PhaseIsCaused(y)
    ensures SessionHistory(y)
  {
  }

  lemma {:induction false} AnswerMoves(x: Session)
    requires PhaseIsCaused(x) && x.phase.Answering?
    ensures var y := x.(phase := AfterAnswer(x.phase.next)); PhaseIsCaused(y) && PastLookup(y)
  {
  }

  lemma {:induction false} SenderMoves(s: State, step: Step)
    requires Enabled(s, step) && Actor(step).Some? && !step.Receive? && !step.Acquire?
    requires PhaseIsCaused(s.sessions[Actor(step).value])
    ensures var x, y := s.sessions[Actor(step).value], Moved(s, step);
      PastLookup(x) && PastLookup(y) && y.inputs == x.inputs && y.registered == x.registered && PhaseIsCaused(y)
  {
    if step.Respond? {
      AnswerMoves(s.sessions[step.c]);
    }
  }

  lemma {:induction false} MovedHistory(s: State, step: Step)
    requires Agree(s.routes) && Enabled(s, step) && Actor(step).Some?
    requires SessionOk(s, s.sessions[Actor(step).value]) && SessionHistory(s.sessions[Actor(step).value])
    ensures SessionHistory(Moved(s, step))
  {
    var x := s.sessions[Actor(step).value];
    if step.Receive? {
      TakenHistory(x, step.frame);
    } else if step.Acquire? {
      GrantedHistory(s.routes, x);
    } else {
      SenderMoves(s, step);
      PhaseChanges(x, Moved(s, step));
    }
  }

  /** A last input that is no registration was handled under the id registered before it. */
  lemma {:induction false} RegisteredBefore(x: Session)
    requires x.registered == RegisteredBy(x.inputs) && x.inputs != [] && !Registration(x.inputs[|x.inputs| - 1])
    ensures RegisteredBy(x.inputs[..|x.inputs| - 1]) == x.registered
  {
  }

  /** The delivery is for the last input of session `x` of connection `c`. */
  ghost predicate ForLastInput(c: nat, x: Session, d: Delivery) {
    && d.origin == c && PastLookup(x) && x.inputs != [] && d.index == |x.inputs| - 1
    && Some(d.sender) == x.registered && Caused(d.sender, x.inputs[d.index], d.recipient, d.kind, d.frame)
  }

  lemma {:induction false} AnswerIsCaused(s: State, c: nat)
    requires Enabled(s, Respond(c)) && PhaseIsCaused(s.sessions[c])
    ensures ForLastInput(c, s.sessions[c], Offer(s, Respond(c)).value)
  {
  }

  lemma {:induction false} ForwardGoesOn(s: State, c: nat)
    requires Enabled(s, Deliver(c)) && PhaseIsCaused(s.sessions[c])
    ensures ForLastInput(c, s.sessions[c], Offer(s, Deliver(c)).value)
  {
  }

  lemma {:induction false} ReceiptGoesOn(s: State, c: nat)
    requires Enabled(s, Confirm(c)) && PhaseIsCaused(s.sessions[c])
    ensures ForLastInput(c, s.sessions[c], Offer(s, Confirm(c)).value)
  {
  }

  lemma {:induction false} OfferIsCaused(s: State, step: Step)
    requires Enabled(s, step) && Made(s, step).Some? && Actor(step).Some?
    requires PhaseIsCaused(s.sessions[Actor(step).value])
    ensures ForLastInput(Actor(step).value, s.sessions[Actor(step).value], Made(s, step).value)
  {
    if step.Respond? {
      AnswerIsCaused(s, step.c);
    } else if step.Deliver? {
      ForwardGoesOn(s, step.c);
    } else {
      ReceiptGoesOn(s, step.c);
    }
  }

  lemma {:induction false} MadeIsCaused(s: State, step: Step)
    requires Enabled(s, step) && Made(s, step).Some? && Actor(step).Some?
    requires SessionHistory(s.sessions[Actor(step).value])
    ensures DeliveryIsCaused(s.sessions, Made(s, step).value)
  {
    OfferIsCaused(s, step);
    RegisteredBefore(s.sessions[Actor(step).value]);
  }

  lemma {:induction false} CausedStays(sessions: map<nat, Session>, after: map<nat, Session>, d: Delivery)
    requires DeliveryIsCaused(sessions, d)
    requires d.origin in after && sessions[d.origin].inputs <= after[d.origin].inputs
    ensures DeliveryIsCaused(after, d)
  {
    var a, b := sessions[d.origin].inputs, after[d.origin].inputs;
    assert a == b[..|a|];
    assert a[..d.index] == b[..d.index];
  }

  lemma {:induction false} InputsGrow(s: State, step: Step, c: nat)
    requires Enabled(s, step) && c in s.sessions
    ensures c in Apply(s, step).sessions && s.sessions[c].inputs <= Apply(s, step).sessions[c].inputs
  {
  }

  lemma {:induction false} StepSessionHistory(s: State, step: Step, c: nat)
    requires Inv(s) && HistoryOk(s) && Enabled(s, step) && c in Apply(s, step).sessions
    ensures SessionHistory(Apply(s, step).sessions[c])
  {
    if Actor(step) == Some(c) {
      assert SessionOk(s, s.sessions[c]);
      MovedHistory(s, step);
    } else {
      KeysGrow(s, step, c);
      if c in s.sessions {
        OtherSessions(s, step, c);
      }
    }
  }

  lemma {:induction false} StepDeliveries(s: State, step: Step, i: nat)
    requires Inv(s) && HistoryOk(s) && Enabled(s, step) && i < |Apply(s, step).log|
    ensures DeliveryIsCaused(Apply(s, step).sessions, Apply(s, step).log[i])
  {
    var t := Apply(s, step);
    var d := t.log[i];
    if i == |s.log| {
      MadeIsOk(s, step);
      MadeIsCaused(s, step);
    } else {
      assert d == s.log[i];
    }
    InputsGrow(s, step, d.origin);
    CausedStays(s.sessions, t.sessions, d);
  }

  lemma {:induction false} StepHistory(s: State, step: Step)
    requires Inv(s) && HistoryOk(s) && Enabled(s, step)
    ensures HistoryOk(Apply(s, step))
  {
    var t := Apply(s, step);
    forall c | c in t.sessions ensures SessionHistory(t.sessions[c]) {
      StepSessionHistory(s, step, c);
    }
    forall i | 0 <= i < |t.log| ensures DeliveryIsCaused(t.sessions, t.log[i]) {
      StepDeliveries(s, step, i);
    }
  }

  lemma {:induction false} RunKeepsHistory(s: State, steps: seq<Step>)
    requires Inv(s) && HistoryOk(s) && ValidRun(s, steps)
    ensures HistoryOk(Exec(s, steps))
    decreases steps
  {
    if steps != [] {
      StepKeepsInv(s, steps[0]);
      StepHistory(s, steps[0]);
      RunKeepsHistory(Apply(s, steps[0]), steps[1..]);
    }
  }

  /** In every run, every delivery goes back to one input frame of its session, number `index`, which arrived after the
      session had registered as the sender, and is exactly what that frame calls for: the answer under the request's id,
      the message's data, id, timestamp and nonce for its recipient, the raw frame under the sender's prefix for the
      prefix it was addressed to, or the receipt of the acknowledged id. */
  lemma {:induction false} EveryDeliveryIsCaused(steps: seq<Step>, j: nat)
    requires ValidRun(INIT, steps) && j < |Exec(INIT, steps).log|
    ensures DeliveryIsCaused(Exec(INIT, steps).sessions, Exec(INIT, steps).log[j])
  {
    InitInv();
    RunKeepsHistory(INIT, steps);
  }

  // ---------- every request gets its answer ----------

  /** Entry `j` of the log is the answer to input frame number `i` of connection `c`. */
  ghost predicate IsAnswer(log: seq<Delivery>, j: nat, c: nat, i: nat) {
    j < |log| && log[j].origin == c && log[j].index == i && log[j].kind == Response
  }

  /** Input frame number `i` is a request that is owed an answer, and its turn for that has come and gone. */
  ghost predicate Due(x: Session, i: nat) {
    i < |x.inputs| && 2 * i < NextRank(x) && Asks(RegisteredBy(x.inputs[..i]), x.inputs[i])
  }

  ghost predicate AnsweredAt(s: State, c: nat, i: nat) {
    exists j :: IsAnswer(s.log, j, c, i)
  }

  /** A session whose writer is still there has put every answer that was due into its queue. */
  ghost predicate AnswersOk(s: State) {
    forall c, i :: c in s.sessions && c in s.channels && s.channels[c].open && Due(s.sessions[c], i) ==> AnsweredAt(s, c, i)
  }

  /** A request does not pass without the session getting ready to answer it. */
  lemma {:induction false} AskerAnswers(r: Routes, x: Session, f: Frame)
    requires Agree(r) && Fits(f) && Asks(x.registered, f)
    ensures PhaseOf(r, Decide(r, x.registered, f)).Answering?
  {
    AnsweredIff(r, x.registered, f);
    DecisionIsSound(r, x.registered, f);
  }

  lemma {:induction false} TakenOwes(x: Session, f: Frame)
    requires SessionHistory(x) && x.phase.Idle? && Fits(f)
    ensures var y := Taken(x, f); forall i: nat :: Due(y, i) ==> i < |x.inputs| && Due(x, i)
  {
    var y := Taken(x, f);
    forall i: nat | Due(y, i) ensures i < |x.inputs| && Due(x, i) {
      if i == |x.inputs| {
        assert y.inputs[..i] == x.inputs;
        AskerAnswers(EMPTY, x, f);
      } else {
        assert y.inputs[..i] == x.inputs[..i];
      }
    }
  }

  lemma {:induction false} GrantedOwes(r: Routes, x: Session)
    requires Agree(r) && SessionHistory(x) && x.phase.Waiting?
    requires x.phase.request.Handle? ==> Fits(x.phase.request.frame)
    ensures forall i: nat :: Due(Granted(r, x), i) ==> Due(x, i)
  {
    var y := Granted(r, x);
    forall i: nat | Due(y, i) ensures Due(x, i) {
      if x.phase.request.Handle? && i == |x.inputs| - 1 {
        AskerAnswers(r, x, x.phase.request.frame);
      }
    }
  }

  /** Only its answer makes a new answer due. */
  lemma {:induction false} MovedOwes(s: State, step: Step, i: nat)
    requires Agree(s.routes) && Enabled(s, step) && Actor(step).Some?
    requires SessionOk(s, s.sessions[Actor(step).value]) && SessionHistory(s.sessions[Actor(step).value])
    requires Due(Moved(s, step), i)
    ensures Due(s.sessions[Actor(step).value], i) || (step.Respond? && i == |s.sessions[step.c].inputs| - 1)
  {
    var x := s.sessions[Actor(step).value];
    match step
    case Receive(_, f) => TakenOwes(x, f);
    case Acquire(_) => GrantedOwes(s.routes, x);
    case _ =>
  }

  lemma {:induction false} AnswerStays(log: seq<Delivery>, more: seq<Delivery>, c: nat, i: nat, j: nat)
    requires IsAnswer(log, j, c, i)
    ensures IsAnswer(log + more, j, c, i)
  {
  }

  lemma {:induction false} RespondAnswers(s: State, c: nat)
    requires Enabled(s, Respond(c)) && s.channels[c].open
    ensures IsAnswer(Apply(s, Respond(c)).log, |s.log|, c, |s.sessions[c].inputs| - 1)
  {
  }

  /** An open writer was open before, and new connections owe nothing. */
  lemma {:induction false} WasDue(s: State, step: Step, c: nat, i: nat)
    requires Inv(s) && HistoryOk(s) && Enabled(s, step)
    requires var t := Apply(s, step);
      c in t.sessions && c in t.channels && t.channels[c].open && Due(t.sessions[c], i)
    ensures c in s.sessions && c in s.channels && s.channels[c].open
    ensures Due(s.sessions[c], i) || (step == Respond(c) && i == |s.sessions[c].inputs| - 1)
  {
    KeysGrow(s, step, c);
    if c in s.channels {
      ChannelsGrow(s, step, c);
    }
    if Actor(step) == Some(c) {
      assert SessionOk(s, s.sessions[c]);
      MovedOwes(s, step, i);
    } else if c in s.sessions {
      OtherSessions(s, step, c);
    }
  }

  lemma {:induction false} StepAnswers(s: State, step: Step)
    requires Inv(s) && HistoryOk(s) && AnswersOk(s) && Enabled(s, step)
    ensures AnswersOk(Apply(s, step))
  {
    var t := Apply(s, step);
    forall c, i | c in t.sessions && c in t.channels && t.channels[c].open && Due(t.sessions[c], i)
      ensures AnsweredAt(t, c, i)
    {
      WasDue(s, step, c, i);
      if Due(s.sessions[c], i) {
        assert AnsweredAt(s, c, i);
        var j :| IsAnswer(s.log, j, c, i);
        AnswerStays(s.log, if Made(s, step).Some? then [Made(s, step).value] else [], c, i, j);
      } else {
        RespondAnswers(s, c);
      }
    }
  }

  lemma {:induction false} RunKeepsAnswers(s: State, steps: seq<Step>)
    requires Inv(s) && HistoryOk(s) && AnswersOk(s) && ValidRun(s, steps)
    ensures AnswersOk(Exec(s, steps))
    decreases steps
  {
    if steps != [] {
      StepKeepsInv(s, steps[0]);
      StepHistory(s, steps[0]);
      StepAnswers(s, steps[0]);
      RunKeepsAnswers(Apply(s, steps[0]), steps[1..]);
    }
  }

  /** In every run, a session that is between two frames and whose writer is still there has put exactly one answer to
      each request it received after registering, SendMessage or Heartbeat, into its own queue: the one that the request
      calls for, under the request's message id. Nothing else is answered. */
  lemma {:induction false} EveryRequestIsAnswered(steps: seq<Step>, c: nat, i: nat) returns (j: nat)
    requires ValidRun(INIT, steps) && c in Exec(INIT, steps).sessions && c in Exec(INIT, steps).channels
    requires Exec(INIT, steps).sessions[c].phase.Idle? && Exec(INIT, steps).channels[c].open
    requires i < |Exec(INIT, steps).sessions[c].inputs|
    ensures var s := Exec(INIT, steps);
      var x := s.sessions[c];
      var asks := Asks(RegisteredBy(x.inputs[..i]), x.inputs[i]);
      && (forall k :: IsAnswer(s.log, k, c, i) <==> asks && k == j)
      && (asks ==>
            && j < |s.log| && s.log[j].to == c && DecodeClient(x.inputs[i].payload).Ok?
            && var (env, m) := DecodeClient(x.inputs[i].payload).value;
               AnswerTo(s.log[j].sender, env, m, s.log[j].frame))
  {
    InitInv();
    RunKeepsInv(INIT, steps);
    RunKeepsHistory(INIT, steps);
    RunKeepsAnswers(INIT, steps);
    j := AnswerOf(Exec(INIT, steps), c, i);
  }

  lemma {:induction false} AnswerOf(s: State, c: nat, i: nat) returns (j: nat)
    requires LogOk(s) && OrderOk(s) && HistoryOk(s) && AnswersOk(s)
    requires c in s.sessions && c in s.channels && s.channels[c].open && s.sessions[c].phase.Idle? && i < |s.sessions[c].inputs|
    ensures var x := s.sessions[c];
      var asks := Asks(RegisteredBy(x.inputs[..i]), x.inputs[i]);
      && (forall k :: IsAnswer(s.log, k, c, i) <==> asks && k == j)
      && (asks ==>
            && j < |s.log| && s.log[j].to == c && DecodeClient(x.inputs[i].payload).Ok?
            && var (env, m) := DecodeClient(x.inputs[i].payload).value;
               AnswerTo(s.log[j].sender, env, m, s.log[j].frame))
  {
    var x := s.sessions[c];
    j := 0;
    if Asks(RegisteredBy(x.inputs[..i]), x.inputs[i]) {
      assert AnsweredAt(s, c, i);
      j :| IsAnswer(s.log, j, c, i);
      AnswerIsAsked(s, c, i, j);
    }
    forall k | IsAnswer(s.log, k, c, i) ensures Asks(RegisteredBy(x.inputs[..i]), x.inputs[i]) && k == j {
      AnswerIsAsked(s, c, i, k);
      OneAnswer(s, c, i, j, k);
    }
  }

  /** An answer was asked for, and is the one that was. */
  lemma {:induction false} AnswerIsAsked(s: State, c: nat, i: nat, j: nat)
    requires LogOk(s) && HistoryOk(s) && IsAnswer(s.log, j, c, i)
    ensures c in s.sessions && i < |s.sessions[c].inputs|
    ensures var x := s.sessions[c];
      && Asks(RegisteredBy(x.inputs[..i]), x.inputs[i]) && s.log[j].to == c
      && var (env, m) := DecodeClient(x.inputs[i].payload).value;
         AnswerTo(s.log[j].sender, env, m, s.log[j].frame)
  {
    assert DeliveryIsCaused(s.sessions, s.log[j]);
    assert DeliveryOk(s, s.log[j]);
  }

  lemma {:induction false} OneAnswer(s: State, c: nat, i: nat, j: nat, k: nat)
    requires OrderOk(s) && IsAnswer(s.log, k, c, i) && IsAnswer(s.log, j, c, i)
    ensures j == k
  {
    assert Rank(s.log[j]) == Rank(s.log[k]);
  }

  // ---------- a peer that only uses the echo route ----------

  /** All that connection `c` ever sends is addressed to the echo route. */
  ghost predicate OnlyEchoes(steps: seq<Step>, c: nat) {
    forall i :: 0 <= i < |steps| && steps[i].Receive? && steps[i].c == c ==> steps[i].frame.sessionId == ECHO_ROUTE_ID
  }

  /** The session has done nothing that anybody could notice. */
  ghost predicate Mute(s: State, c: nat) {
    c in s.sessions ==>
      s.sessions[c].registered.None? && s.sessions[c].phase.Idle? && s.sessions[c].identities == {}
  }

  lemma {:induction false} StepStaysMute(s: State, step: Step, c: nat)
    requires Enabled(s, step) && Mute(s, c)
    requires step.Receive? && step.c == c ==> step.frame.sessionId == ECHO_ROUTE_ID
    ensures Mute(Apply(s, step), c)
  {
    if Actor(step) == Some(c) {
      if step.Receive? {
        assert ECHO_ROUTE_ID[0] == 0xEE && ROUTE_REGISTRATION_ID[0] == 0xF0;
      }
    } else {
      KeysGrow(s, step, c);
    }
  }

  lemma {:induction false} StaysMute(s: State, steps: seq<Step>, c: nat)
    requires ValidRun(s, steps) && Mute(s, c) && OnlyEchoes(steps, c)
    ensures Mute(Exec(s, steps), c)
    decreases steps
  {
    if steps != [] {
      StepStaysMute(s, steps[0], c);
      StaysMute(Apply(s, steps[0]), steps[1..], c);
    }
  }

  lemma {:induction false} NobodyKnows(s: State, c: nat, log: seq<Delivery>)
    requires LogOk(s) && Mute(s, c) && log <= s.log
    ensures DeliveriesTo(log, c) == []
    decreases |log|
  {
    if log != [] {
      var n := |log| - 1;
      assert log[n] == s.log[n] && DeliveryOk(s, s.log[n]);
      NobodyKnows(s, c, log[..n]);
    }
  }

  /** In every run of the relay, whatever anybody else does, a connection whose peer addresses all its frames to the echo
      route is never registered, never routed to, and never sent a single frame. */
  lemma {:induction false} EchoRouteHearsNothing(steps: seq<Step>, c: nat)
    requires ValidRun(INIT, steps) && OnlyEchoes(steps, c) && c in Exec(INIT, steps).channels
    ensures var s := Exec(INIT, steps);
      && s.channels[c].sent == [] && s.channels[c].queue == []
      && forall p :: p in s.routes.byPeer ==> s.routes.byPeer[p].conn != c
  {
    InitInv();
    RunKeepsInv(INIT, steps);
    StaysMute(INIT, steps, c);
    var s := Exec(INIT, steps);
    NobodyKnows(s, c, s.log);
    assert |s.channels[c].sent + s.channels[c].queue| == 0;
    forall p | p in s.routes.byPeer ensures s.routes.byPeer[p].conn != c {
      assert EntryOk(s, s.routes.byPeer[p]);
    }
  }
}
