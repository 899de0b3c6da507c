/** The loop body of one session is a run of the relay machine in which nobody else moves. */
module RelayRefinement {
  import opened Bytes
  import opened Frames
  import opened Messages
  import opened Registry
  import opened RelayLogic
  import opened RelayMachine
  import opened RelayInvariants
  import opened RelaySession

  // ---------- what a run does, as the loop body would record it ----------

  /** What a step of a session does to the lock and the queues. */
  ghost function Acts(s: State, step: Step): seq<Action>
    requires Enabled(s, step)
  {
    match step
    case Acquire(c) =>
      [Lock(if Writes(s.sessions[c]) then Exclusive else Shared)]
      + (if Granted(s.routes, s.sessions[c]).phase.Acknowledging? then [] else [Unlock])
    case Respond(c) => [Offered(c, s.sessions[c].phase.response)]
    case Deliver(c) => [Offered(s.sessions[c].phase.forward.entry.conn, s.sessions[c].phase.forward.frame)]
    case Confirm(c) => [Offered(s.sessions[c].phase.entry.conn, s.sessions[c].phase.receipt), Unlock]
    case _ => []
  }

  ghost function Trace(s: State, steps: seq<Step>): seq<Action>
    requires ValidRun(s, steps)
    decreases steps
  {
    if steps == [] then [] else Acts(s, steps[0]) + Trace(Apply(s, steps[0]), steps[1..])
  }

  /** How often the actions lock more than they unlock. */
  function Depth(actions: seq<Action>): int {
    if actions == [] then 0
    else One(actions[0]) + Depth(actions[1..])
  }

  /** A session has locked the registry in what it has done so far exactly while it holds the guard of an
      acknowledgement; the lock it takes is the exclusive one exactly if it asks for a change. */
  lemma {:induction false} TraceHolds(s: State, step: Step)
    requires RoutesOk(s) && SessionsOk(s) && Enabled(s, step) && Actor(step).Some?
    ensures var c := Actor(step).value;
      (if Holds(Apply(s, step), c) then 1 else 0) == (if Holds(s, c) then 1 else 0) + Depth(Acts(s, step))
    ensures step.Acquire? ==> Acts(s, step)[0] == Lock(if Writes(s.sessions[step.c]) then Exclusive else Shared)
    ensures !step.Acquire? ==> forall i :: 0 <= i < |Acts(s, step)| ==> !Acts(s, step)[i].Lock?
  {
    var acts := Acts(s, step);
    DepthShort(acts);
    if step.Receive? {
      LockIsTakenWhenNeeded(EMPTY, EMPTY, s.sessions[step.c].registered, step.frame);
    }
  }

  lemma {:induction false} DepthShort(actions: seq<Action>)
    requires |actions| <= 2
    ensures Depth(actions)
      == (if |actions| > 0 then One(actions[0]) else 0) + (if |actions| > 1 then One(actions[1]) else 0)
  {
    if |actions| >= 1 {
      assert Depth(actions) == One(actions[0]) + Depth(actions[1..]);
    }
    if |actions| == 2 {
      assert actions[1..] == [actions[1]] && actions[1..][1..] == [];
      assert Depth(actions[1..]) == One(actions[1]) + Depth([]);
    }
  }

  function One(a: Action): int {
    match a case Lock(_) => 1 case Unlock => -1 case Offered(_, _) => 0
  }

  lemma {:induction false} RunSplits(s: State, first: Step, rest: seq<Step>)
    ensures ValidRun(s, [first] + rest) <==> Enabled(s, first) && ValidRun(Apply(s, first), rest)
    ensures ValidRun(s, [first] + rest) ==>
      && Exec(s, [first] + rest) == Exec(Apply(s, first), rest)
      && Trace(s, [first] + rest) == Acts(s, first) + Trace(Apply(s, first), rest)
  {
    assert ([first] + rest)[1..] == rest;
  }

  lemma {:induction false} SingleRun(s: State, step: Step)
    ensures ValidRun(s, [step]) <==> Enabled(s, step)
    ensures Enabled(s, step) ==> Exec(s, [step]) == Apply(s, step) && Trace(s, [step]) == Acts(s, step)
  {
    RunSplits(s, step, []);
    assert [step] + [] == [step];
  }

  /** Connections whose receivers are gone. */
  ghost function Gone(s: State): set<nat> {
    set k | k in s.channels && !s.channels[k].open
  }

  // ---------- offering frames to queues ----------

  ghost function PutOne(channels: map<nat, Channel>, d: Delivery): map<nat, Channel> {
    if d.to in channels && channels[d.to].open then channels[d.to := Put(channels[d.to], d.frame)] else channels
  }

  ghost function PutAll(channels: map<nat, Channel>, ds: seq<Delivery>): map<nat, Channel> {
    if ds == [] then channels else PutAll(PutOne(channels, ds[0]), ds[1..])
  }

  /** Each offer in turn completes at once: there is room, or the receiver is gone. */
  ghost predicate RoomFor(channels: map<nat, Channel>, ds: seq<Delivery>) {
    ds == [] || (CanTake(channels, ds[0].to) && RoomFor(PutOne(channels, ds[0]), ds[1..]))
  }

  /** The offers that find a receiver. */
  ghost function Accepted(channels: map<nat, Channel>, ds: seq<Delivery>): seq<Delivery> {
    if ds == [] then []
    else
      (if ds[0].to in channels && channels[ds[0].to].open then [ds[0]] else [])
      + Accepted(PutOne(channels, ds[0]), ds[1..])
  }

  lemma {:induction false} OfferOne(channels: map<nat, Channel>, d: Delivery)
    ensures PutAll(channels, [d]) == PutOne(channels, d)
    ensures RoomFor(channels, [d]) <==> CanTake(channels, d.to)
    ensures Accepted(channels, [d]) == if d.to in channels && channels[d.to].open then [d] else []
  {
    assert [d][1..] == [];
    assert PutAll(PutOne(channels, d), []) == PutOne(channels, d);
    assert Accepted(PutOne(channels, d), []) == [];
    assert RoomFor(PutOne(channels, d), []);
  }

  lemma {:induction false} OfferFirst(channels: map<nat, Channel>, d: Delivery, ds: seq<Delivery>)
    ensures PutAll(channels, [d] + ds) == PutAll(PutOne(channels, d), ds)
    ensures RoomFor(channels, [d] + ds) <==> CanTake(channels, d.to) && RoomFor(PutOne(channels, d), ds)
    ensures Accepted(channels, [d] + ds) == Accepted(channels, [d]) + Accepted(PutOne(channels, d), ds)
  {
    OfferOne(channels, d);
    assert ([d] + ds)[0] == d && ([d] + ds)[1..] == ds;
  }

  // ---------- what is left of a turn ----------

  ghost function AnswerOffer(c: nat, x: Session, response: Frame): Delivery
    requires x.registered.Some? && |x.inputs| > 0
  {
    Delivery(c, x.registered.value, c, x.registered.value, Response, response, |x.inputs| - 1)
  }

  ghost function ForwardDelivery(c: nat, x: Session, fw: Forward): Delivery
    requires x.registered.Some? && |x.inputs| > 0
  {
    Delivery(c, x.registered.value, fw.entry.conn, fw.entry.peer, fw.kind, fw.frame, |x.inputs| - 1)
  }

  /** What session `x` of connection `c` still offers when it is in phase `p`. */
  ghost function PhaseOffers(c: nat, x: Session, p: Phase): seq<Delivery>
    requires x.registered.Some? && |x.inputs| > 0
  {
    match p
    case Answering(response, next) =>
      [AnswerOffer(c, x, response)] + (if next.Some? then [ForwardDelivery(c, x, next.value)] else [])
    case Forwarding(fw) => [ForwardDelivery(c, x, fw)]
    case Acknowledging(e, receipt) => [ForwardDelivery(c, x, Forward(e, receipt, Receipt))]
    case _ => []
  }

  ghost function ForwardSteps(s: State, c: nat, fw: Forward): seq<Step> {
    if fw.entry.conn in Gone(s) then [Deliver(c), Acquire(c)] else [Deliver(c)]
  }

  /** The steps that session `c` still takes when it is in phase `p`. */
  ghost function PhaseSteps(s: State, c: nat, p: Phase): seq<Step> {
    match p
    case Answering(_, None) => [Respond(c)]
    case Answering(_, Some(fw)) => [Respond(c)] + ForwardSteps(s, c, fw)
    case Forwarding(fw) => ForwardSteps(s, c, fw)
    case Acknowledging(_, _) => [Confirm(c)]
    case _ => []
  }

  /** The route that the session will find without a receiver. */
  ghost function PhaseFails(s: State, p: Phase): Option<Entry> {
    match p
    case Answering(_, Some(fw)) => if fw.entry.conn in Gone(s) then Some(fw.entry) else None
    case Forwarding(fw) => if fw.entry.conn in Gone(s) then Some(fw.entry) else None
    case _ => None
  }

  ghost function Evicted(r: Routes, failed: Option<Entry>): Routes {
    if failed.Some? then Removed(r, failed.value.peer, failed.value.conn) else r
  }

  /** Nobody is in line for the lock or holds it. */
  ghost predicate LockIsFree(s: State) {
    s.line == [] && Unguarded(s)
  }

  /** After `ds` have been offered and the session is `x`, with registry `r`. */
  ghost function After(s: State, c: nat, x: Session, r: Routes, ds: seq<Delivery>): State {
    State(r, s.line, s.sessions[c := x], PutAll(s.channels, ds), s.nextId, s.log + Accepted(s.channels, ds))
  }

  ghost predicate Sending(s: State, c: nat) {
    InPhase(s, c) && c in s.channels && c !in s.line
  }

  lemma {:induction false} AnswerStep(s: State, c: nat)
    requires Sending(s, c) && s.sessions[c].phase.Answering?
    ensures Enabled(s, Respond(c)) <==> CanTake(s.channels, c)
    ensures Enabled(s, Respond(c)) ==>
      var x := s.sessions[c];
      var y := x.(phase := AfterAnswer(x.phase.next));
      Apply(s, Respond(c)) == After(s, c, y, s.routes, [AnswerOffer(c, x, x.phase.response)])
  {
    OfferOne(s.channels, AnswerOffer(c, s.sessions[c], s.sessions[c].phase.response));
  }

  lemma {:induction false} ConfirmStep(s: State, c: nat)
    requires Sending(s, c) && s.sessions[c].phase.Acknowledging? && s.sessions[c].phase.entry.conn in s.channels
    ensures var x := s.sessions[c];
      var d := ForwardDelivery(c, x, Forward(x.phase.entry, x.phase.receipt, Receipt));
      && (Enabled(s, Confirm(c)) <==> CanTake(s.channels, d.to))
      && (Enabled(s, Confirm(c)) ==> Apply(s, Confirm(c)) == After(s, c, x.(phase := Idle), s.routes, [d]))
  {
    var x := s.sessions[c];
    OfferOne(s.channels, ForwardDelivery(c, x, Forward(x.phase.entry, x.phase.receipt, Receipt)));
  }

  lemma {:induction false} DeliverStep(s: State, c: nat, fw: Forward)
    requires Sending(s, c) && s.sessions[c].phase == Forwarding(fw) && fw.entry.conn in s.channels
    ensures var x, d := s.sessions[c], ForwardDelivery(c, s.sessions[c], fw);
      && (Enabled(s, Deliver(c)) <==> CanTake(s.channels, d.to))
      && (fw.entry.conn !in Gone(s) && Enabled(s, Deliver(c)) ==>
            Apply(s, Deliver(c)) == After(s, c, x.(phase := Idle), s.routes, [d]))
      && (fw.entry.conn in Gone(s) ==>
            && Enabled(s, Deliver(c))
            && Apply(s, Deliver(c))
               == s.(line := s.line + [c], sessions := s.sessions[c := x.(phase := Waiting(Remove(fw.entry)))]))
  {
    OfferOne(s.channels, ForwardDelivery(c, s.sessions[c], fw));
  }

  lemma {:induction false} EvictStep(s: State, m: State, c: nat, e: Entry)
    requires c in s.sessions && !Holds(s, c) && c !in s.line
    requires m == s.(line := s.line + [c], sessions := s.sessions[c := s.sessions[c].(phase := Waiting(Remove(e)))])
    ensures Enabled(m, Acquire(c)) <==> LockIsFree(s)
    ensures LockIsFree(s) ==>
      && Apply(m, Acquire(c))
         == s.(sessions := s.sessions[c := s.sessions[c].(phase := Idle)], routes := Removed(s.routes, e.peer, e.conn))
      && Acts(m, Acquire(c)) == [Lock(Exclusive), Unlock]
  {
    assert Unguarded(m) <==> Unguarded(s) by {
      assert forall g :: Holds(m, g) <==> Holds(s, g);
    }
    if s.line != [] {
      assert m.line[0] == s.line[0];
    }
  }

  /** A forward to a receiver that is gone changes nothing but the registry. */
  lemma {:induction false} FailedForward(s: State, c: nat, fw: Forward)
    requires Sending(s, c) && s.sessions[c].phase == Forwarding(fw) && fw.entry.conn in Gone(s)
    ensures var steps, x := [Deliver(c), Acquire(c)], s.sessions[c];
      && (ValidRun(s, steps) <==> LockIsFree(s))
      && (ValidRun(s, steps) ==>
            && Exec(s, steps) == After(s, c, x.(phase := Idle), Removed(s.routes, fw.entry.peer, fw.entry.conn),
                                       [ForwardDelivery(c, x, fw)])
            && Trace(s, steps) == [Offered(fw.entry.conn, fw.frame), Lock(Exclusive), Unlock])
  {
    DeliverStep(s, c, fw);
    EvictStep(s, Apply(s, Deliver(c)), c, fw.entry);
    RunSplits(s, Deliver(c), [Acquire(c)]);
    SingleRun(Apply(s, Deliver(c)), Acquire(c));
    assert [Deliver(c)] + [Acquire(c)] == [Deliver(c), Acquire(c)];
    OfferOne(s.channels, ForwardDelivery(c, s.sessions[c], fw));
  }

  /** `steps` can be taken from `s` exactly if `possible`, and then lead to `t`, doing `actions` on the way. */
  ghost predicate Leads(s: State, steps: seq<Step>, possible: bool, t: State, actions: seq<Action>) {
    && (ValidRun(s, steps) <==> possible)
    && (ValidRun(s, steps) ==> Exec(s, steps) == t && Trace(s, steps) == actions)
  }

  lemma {:induction false} ForwardLeads(s: State, c: nat, fw: Forward)
    requires Sending(s, c) && s.sessions[c].phase == Forwarding(fw) && fw.entry.conn in s.channels
    ensures var x, failed, ds := s.sessions[c], PhaseFails(s, Forwarding(fw)), [ForwardDelivery(c, s.sessions[c], fw)];
      Leads(s, ForwardSteps(s, c, fw), RoomFor(s.channels, ds) && (failed.Some? ==> LockIsFree(s)),
            After(s, c, x.(phase := Idle), Evicted(s.routes, failed), ds),
            [Offered(fw.entry.conn, fw.frame)] + Eviction(failed))
  {
    OfferOne(s.channels, ForwardDelivery(c, s.sessions[c], fw));
    if fw.entry.conn in Gone(s) {
      FailedForward(s, c, fw);
    } else {
      DeliverStep(s, c, fw);
      SingleRun(s, Deliver(c));
    }
  }

  /** The answer first, then the rest. */
  lemma {:induction false} AfterFirst(s: State, c: nat, x: Session, d: Delivery, y: Session, r: Routes, ds: seq<Delivery>)
    requires c in s.sessions
    ensures After(After(s, c, x, s.routes, [d]), c, y, r, ds) == After(s, c, y, r, [d] + ds)
    ensures Gone(After(s, c, x, s.routes, [d])) == Gone(s)
  {
    OfferOne(s.channels, d);
    OfferFirst(s.channels, d, ds);
    assert s.sessions[c := x][c := y] == s.sessions[c := y];
    var first, rest := Accepted(s.channels, [d]), Accepted(PutOne(s.channels, d), ds);
    assert s.log + first + rest == s.log + (first + rest);
    SameGone(s.channels, d);
  }

  lemma {:induction false} SameGone(channels: map<nat, Channel>, d: Delivery)
    ensures forall k :: (k in channels && !channels[k].open) <==>
      (k in PutOne(channels, d) && !PutOne(channels, d)[k].open)
  {
  }

  lemma {:induction false} AnswerLeads(s: State, c: nat, response: Frame, fw: Forward)
    requires Sending(s, c) && s.sessions[c].phase == Answering(response, Some(fw)) && fw.entry.conn in s.channels
    ensures var x, p := s.sessions[c], s.sessions[c].phase;
      Leads(s, PhaseSteps(s, c, p),
            RoomFor(s.channels, PhaseOffers(c, x, p)) && (PhaseFails(s, p).Some? ==> LockIsFree(s)),
            After(s, c, x.(phase := Idle), Evicted(s.routes, PhaseFails(s, p)), PhaseOffers(c, x, p)),
            [Offered(c, response)] + ([Offered(fw.entry.conn, fw.frame)] + Eviction(PhaseFails(s, p))))
  {
    var x := s.sessions[c];
    var d, ds := AnswerOffer(c, x, response), [ForwardDelivery(c, x, fw)];
    OfferFirst(s.channels, d, ds);
    AnswerStep(s, c);
    RunSplits(s, Respond(c), ForwardSteps(s, c, fw));
    if Enabled(s, Respond(c)) {
      var m := After(s, c, x.(phase := Forwarding(fw)), s.routes, [d]);
      AfterFirst(s, c, x.(phase := Forwarding(fw)), d, x.(phase := Idle), Evicted(s.routes, PhaseFails(s, x.phase)), ds);
      SameForward(s, m, c, x, d, fw);
      ForwardLeads(m, c, fw);
    }
  }

  lemma {:induction false} SameForward(s: State, m: State, c: nat, x: Session, d: Delivery, fw: Forward)
    requires Sending(s, c) && s.sessions[c] == x && x.phase.Answering? && fw.entry.conn in s.channels
    requires m == After(s, c, x.(phase := Forwarding(fw)), s.routes, [d])
    ensures Sending(m, c) && m.sessions[c].phase == Forwarding(fw) && fw.entry.conn in m.channels
    ensures Gone(m) == Gone(s) && (LockIsFree(m) <==> LockIsFree(s)) && m.channels == PutOne(s.channels, d)
    ensures ForwardDelivery(c, m.sessions[c], fw) == ForwardDelivery(c, x, fw)
  {
    OfferOne(s.channels, d);
    assert forall g :: Holds(m, g) <==> Holds(s, g);
  }

  /** What a session does in the given phase until it is ready again. */
  ghost function PhaseActs(s: State, c: nat, p: Phase): seq<Action> {
    match p
    case Answering(response, next) => [Offered(c, response)] + (ForwardOffer(next) + Eviction(PhaseFails(s, p)))
    case Forwarding(fw) => ForwardOffer(Some(fw)) + Eviction(PhaseFails(s, p))
    case Acknowledging(e, receipt) => [Offered(e.conn, receipt), Unlock]
    case _ => []
  }

  ghost predicate TargetsKnown(s: State, p: Phase) {
    match p
    case Answering(_, Some(fw)) => fw.entry.conn in s.channels
    case Forwarding(fw) => fw.entry.conn in s.channels
    case Acknowledging(e, _) => e.conn in s.channels
    case _ => true
  }

  lemma {:induction false} PhaseLeads(s: State, c: nat)
    requires Sending(s, c) && !s.sessions[c].phase.Waiting? && TargetsKnown(s, s.sessions[c].phase)
    ensures var x, p := s.sessions[c], s.sessions[c].phase;
      Leads(s, PhaseSteps(s, c, p),
            RoomFor(s.channels, PhaseOffers(c, x, p)) && (PhaseFails(s, p).Some? ==> LockIsFree(s)),
            After(s, c, x.(phase := Idle), Evicted(s.routes, PhaseFails(s, p)), PhaseOffers(c, x, p)),
            PhaseActs(s, c, p))
  {
    var x := s.sessions[c];
    match x.phase
    case Idle => assert s.sessions[c := x] == s.sessions;
    case Answering(response, None) =>
      AnswerStep(s, c);
      SingleRun(s, Respond(c));
      OfferOne(s.channels, AnswerOffer(c, x, response));
    case Answering(response, Some(fw)) => AnswerLeads(s, c, response, fw);
    case Forwarding(fw) => ForwardLeads(s, c, fw);
    case Acknowledging(e, receipt) =>
      ConfirmStep(s, c);
      SingleRun(s, Confirm(c));
      OfferOne(s.channels, ForwardDelivery(c, x, Forward(e, receipt, Receipt)));
  }

  // ---------- a whole turn ----------

  /** The phase that a frame leads to, once the registry has been looked at if need be. */
  ghost function TurnPhase(s: State, c: nat, f: Frame): Phase
    requires c in s.sessions
  {
    PhaseOf(s.routes, Decide(s.routes, s.sessions[c].registered, f))
  }

  /** All steps of session `c` for one input frame. */
  ghost function Turn(s: State, c: nat, f: Frame): seq<Step>
    requires c in s.sessions
  {
    [Receive(c, f)]
    + ((if Access(s.sessions[c].registered, f).Some? then [Acquire(c)] else []) + PhaseSteps(s, c, TurnPhase(s, c, f)))
  }

  /** All that session `c` offers to queues for one input frame. */
  ghost function TurnOffers(s: State, c: nat, f: Frame): seq<Delivery>
    requires c in s.sessions
  {
    var x := s.sessions[c];
    if x.registered.None? then [] else PhaseOffers(c, x.(inputs := x.inputs + [f]), TurnPhase(s, c, f))
  }

  /** Nobody else stands in the way: the lock is there when the turn needs it, and so is room in the queues. */
  ghost predicate Uninterrupted(s: State, c: nat, f: Frame)
    requires c in s.sessions
  {
    var access, failed := Access(s.sessions[c].registered, f), PhaseFails(s, TurnPhase(s, c, f));
    && (access.Some? ==> s.line == [])
    && (access == Some(Exclusive) || failed.Some? ==> LockIsFree(s))
    && RoomFor(s.channels, TurnOffers(s, c, f))
  }

  /** The session after its turn. */
  ghost function TurnedSession(x: Session, f: Frame, out: Outcome): Session {
    var y := x.(inputs := x.inputs + [f]);
    if out.Register? then y.(registered := Some(out.peer), identities := y.identities + {out.peer}) else y
  }

  ghost function AsActions(ds: seq<Delivery>): seq<Action> {
    seq(|ds|, i requires 0 <= i < |ds| => Offered(ds[i].to, ds[i].frame))
  }

  /** The machine's phases and the loop body's record describe the same thing. */
  lemma {:induction false} PhaseIsOutcome(s: State, c: nat, x: Session, r: Routes, out: Outcome)
    requires OutcomeIsSound(r, x.registered, out) && x.registered.Some? && |x.inputs| > 0
    ensures var p := PhaseOf(r, out);
      && PhaseFails(s, p) == FailedRoute(out, Gone(s))
      && AsActions(PhaseOffers(c, x, p)) == Offers(r, c, out)
      && (out.Acknowledge? ==> PhaseActs(s, c, p) == Offers(r, c, out) + (if p.Idle? then [] else [Unlock]))
      && (!out.Acknowledge? ==> PhaseActs(s, c, p) == Offers(r, c, out) + Eviction(FailedRoute(out, Gone(s))))
  {
  }

  /** A frame settled without the lock leads to the phase that looking at any registry would have led to. */
  lemma {:induction false} TakenSettles(s: State, x: Session, f: Frame, r: Routes)
    requires Access(x.registered, f).None?
    ensures var p := PhaseOf(r, Decide(r, x.registered, f));
      && Taken(x, f) == x.(inputs := x.inputs + [f], phase := p)
      && !p.Waiting? && !p.Acknowledging? && PhaseFails(s, p).None?
  {
    LockIsTakenWhenNeeded(EMPTY, r, x.registered, f);
  }

  lemma {:induction false} TakenLocks(r: Routes, c: nat, x: Session, f: Frame)
    requires Access(x.registered, f).Some?
    ensures var y := Taken(x, f);
      var out := Decide(r, x.registered, f);
      && y.phase == Waiting(Handle(f)) && (Writes(y) <==> Access(x.registered, f) == Some(Exclusive))
      && Granted(r, y) == TurnedSession(x, f, out).(phase := PhaseOf(r, out))
      && Written(r, c, y) == (if out.Register? then Inserted(r, out.peer, c) else r)
  {
    LockIsTakenWhenNeeded(r, r, x.registered, f);
  }

  lemma {:induction false} ReceiveStep(s: State, c: nat, f: Frame)
    requires Ready(s, c) && Fits(f)
    ensures Enabled(s, Receive(c, f)) && Acts(s, Receive(c, f)) == []
    ensures var y := Taken(s.sessions[c], f);
      Apply(s, Receive(c, f))
      == s.(sessions := s.sessions[c := y], line := if y.phase.Waiting? then s.line + [c] else s.line)
  {
  }

  /** The only one in line gets the lock if it is free enough. */
  lemma {:induction false} AcquireStep(s: State, m: State, c: nat, y: Session)
    requires c in s.sessions && !Holds(s, c) && c !in s.line && y.phase.Waiting?
    requires m == s.(sessions := s.sessions[c := y], line := s.line + [c])
    ensures Enabled(m, Acquire(c)) <==> s.line == [] && (Writes(y) ==> LockIsFree(s))
    ensures Enabled(m, Acquire(c)) ==>
      && Apply(m, Acquire(c))
         == s.(sessions := s.sessions[c := Granted(s.routes, y)], routes := Written(s.routes, c, y))
      && Acts(m, Acquire(c)) == [Lock(if Writes(y) then Exclusive else Shared)]
                                + (if Granted(s.routes, y).phase.Acknowledging? then [] else [Unlock])
  {
    assert forall g :: Holds(m, g) <==> Holds(s, g);
    if s.line != [] {
      assert m.line[0] == s.line[0];
    }
  }

  lemma {:induction false} TargetsAreKnown(s: State, c: nat, f: Frame)
    requires Inv(s) && c in s.sessions && Fits(f)
    ensures TargetsKnown(s, TurnPhase(s, c, f)) && !TurnPhase(s, c, f).Waiting?
  {
    var registered := s.sessions[c].registered;
    DecisionIsSound(s.routes, registered, f);
    SoundPhase(s, s.routes, s.sessions[c].(inputs := [f]), Decide(s.routes, registered, f));
  }

  /** From the state in which session `c`, otherwise ready as `x`, has just reached phase `p`. */
  lemma {:induction false} RestLeads(s: State, m: State, c: nat, x: Session, p: Phase)
    requires Ready(s, c) && c !in s.line && !p.Waiting? && TargetsKnown(s, p)
    requires x.registered.Some? && |x.inputs| > 0 && x.phase.Idle?
    requires m == s.(sessions := s.sessions[c := x.(phase := p)])
    ensures Leads(m, PhaseSteps(s, c, p),
                  RoomFor(s.channels, PhaseOffers(c, x, p)) && (PhaseFails(s, p).Some? ==> LockIsFree(s)),
                  After(s, c, x, Evicted(s.routes, PhaseFails(s, p)), PhaseOffers(c, x, p)),
                  PhaseActs(s, c, p))
  {
    assert x.(phase := p).(phase := Idle) == x;
    assert s.sessions[c := x.(phase := p)][c := x] == s.sessions[c := x];
    if PhaseFails(s, p).Some? {
      assert forall g :: Holds(m, g) <==> Holds(s, g);
    }
    assert PhaseOffers(c, x.(phase := p), p) == PhaseOffers(c, x, p);
    PhaseLeads(m, c);
  }

  /** One step, and then what it leads to. */
  lemma {:induction false} LeadsFirst(s: State, first: Step, rest: seq<Step>, acts: seq<Action>,
                                      possible: bool, t: State, more: seq<Action>)
    requires Enabled(s, first) ==> Acts(s, first) == acts && Leads(Apply(s, first), rest, possible, t, more)
    ensures Leads(s, [first] + rest, Enabled(s, first) && possible, t, acts + more)
  {
    RunSplits(s, first, rest);
  }

  /** A turn without the lock. */
  lemma {:induction false} SettledRun(s: State, c: nat, f: Frame, x: Session, p: Phase)
    requires Ready(s, c) && Fits(f) && c !in s.line && !p.Waiting? && TargetsKnown(s, p)
    requires x.registered.Some? && |x.inputs| > 0 && x.phase.Idle? && Taken(s.sessions[c], f) == x.(phase := p)
    ensures Leads(s, [Receive(c, f)] + PhaseSteps(s, c, p),
                  RoomFor(s.channels, PhaseOffers(c, x, p)) && (PhaseFails(s, p).Some? ==> LockIsFree(s)),
                  After(s, c, x, Evicted(s.routes, PhaseFails(s, p)), PhaseOffers(c, x, p)), PhaseActs(s, c, p))
  {
    var possible := RoomFor(s.channels, PhaseOffers(c, x, p)) && (PhaseFails(s, p).Some? ==> LockIsFree(s));
    var t := After(s, c, x, Evicted(s.routes, PhaseFails(s, p)), PhaseOffers(c, x, p));
    ReceiveStep(s, c, f);
    RestLeads(s, Apply(s, Receive(c, f)), c, x, p);
    LeadsFirst(s, Receive(c, f), PhaseSteps(s, c, p), [], possible, t, PhaseActs(s, c, p));
    assert [] + PhaseActs(s, c, p) == PhaseActs(s, c, p);
  }

  /** Getting the lock for a lookup, and what comes after. */
  lemma {:induction false} LookupLeads(s: State, m: State, c: nat, y: Session, x: Session, p: Phase)
    requires Ready(s, c) && c !in s.line && !p.Waiting? && TargetsKnown(s, p)
    requires x.registered.Some? && |x.inputs| > 0 && x.phase.Idle? && y.phase.Waiting? && !Writes(y)
    requires Granted(s.routes, y) == x.(phase := p) && Written(s.routes, c, y) == s.routes
    requires m == s.(sessions := s.sessions[c := y], line := s.line + [c])
    ensures Leads(m, [Acquire(c)] + PhaseSteps(s, c, p),
                  s.line == [] && RoomFor(s.channels, PhaseOffers(c, x, p)) && (PhaseFails(s, p).Some? ==> LockIsFree(s)),
                  After(s, c, x, Evicted(s.routes, PhaseFails(s, p)), PhaseOffers(c, x, p)),
                  [Lock(Shared)] + (if p.Acknowledging? then [] else [Unlock]) + PhaseActs(s, c, p))
  {
    var possible := RoomFor(s.channels, PhaseOffers(c, x, p)) && (PhaseFails(s, p).Some? ==> LockIsFree(s));
    var t := After(s, c, x, Evicted(s.routes, PhaseFails(s, p)), PhaseOffers(c, x, p));
    AcquireStep(s, m, c, y);
    if Enabled(m, Acquire(c)) {
      RestLeads(s, Apply(m, Acquire(c)), c, x, p);
    }
    LeadsFirst(m, Acquire(c), PhaseSteps(s, c, p), [Lock(Shared)] + (if p.Acknowledging? then [] else [Unlock]),
               possible, t, PhaseActs(s, c, p));
  }

  /** A turn with a lookup. */
  lemma {:induction false} LookupRun(s: State, c: nat, f: Frame, y: Session, x: Session, p: Phase)
    requires Ready(s, c) && Fits(f) && c !in s.line && !p.Waiting? && TargetsKnown(s, p)
    requires x.registered.Some? && |x.inputs| > 0 && x.phase.Idle?
    requires y == Taken(s.sessions[c], f) && y.phase.Waiting? && !Writes(y)
    requires Granted(s.routes, y) == x.(phase := p) && Written(s.routes, c, y) == s.routes
    ensures Leads(s, [Receive(c, f)] + ([Acquire(c)] + PhaseSteps(s, c, p)),
                  s.line == [] && RoomFor(s.channels, PhaseOffers(c, x, p)) && (PhaseFails(s, p).Some? ==> LockIsFree(s)),
                  After(s, c, x, Evicted(s.routes, PhaseFails(s, p)), PhaseOffers(c, x, p)),
                  [Lock(Shared)] + (if p.Acknowledging? then [] else [Unlock]) + PhaseActs(s, c, p))
  {
    var possible :=
      s.line == [] && RoomFor(s.channels, PhaseOffers(c, x, p)) && (PhaseFails(s, p).Some? ==> LockIsFree(s));
    var t := After(s, c, x, Evicted(s.routes, PhaseFails(s, p)), PhaseOffers(c, x, p));
    var acts := [Lock(Shared)] + (if p.Acknowledging? then [] else [Unlock]) + PhaseActs(s, c, p);
    ReceiveStep(s, c, f);
    LookupLeads(s, Apply(s, Receive(c, f)), c, y, x, p);
    LeadsFirst(s, Receive(c, f), [Acquire(c)] + PhaseSteps(s, c, p), [], possible, t, acts);
    assert [] + acts == acts;
  }

  /** A turn that registers. */
  lemma {:induction false} RegistrationRun(s: State, c: nat, f: Frame, y: Session, x: Session)
    requires Ready(s, c) && Fits(f) && c !in s.line && x.phase.Idle?
    requires y == Taken(s.sessions[c], f) && y.phase.Waiting? && Writes(y) && Granted(s.routes, y) == x
    ensures Leads(s, [Receive(c, f)] + ([Acquire(c)] + []), LockIsFree(s),
                  After(s, c, x, Written(s.routes, c, y), []), [Lock(Exclusive), Unlock])
  {
    ReceiveStep(s, c, f);
    var m := Apply(s, Receive(c, f));
    AcquireStep(s, m, c, y);
    RunSplits(s, Receive(c, f), [Acquire(c)] + []);
    RunSplits(m, Acquire(c), []);
  }

  /** What the loop body's contract says about a turn, of the machine's turn. */
  ghost predicate TurnMatches(s: State, c: nat, f: Frame, out: Outcome)
    requires c in s.sessions
  {
    && Leads(s, Turn(s, c, f), Uninterrupted(s, c, f),
             After(s, c, TurnedSession(s.sessions[c], f, out), Aftermath(s.routes, c, out, Gone(s)), TurnOffers(s, c, f)),
             Actions(Access(s.sessions[c].registered, f), s.routes, c, out, Gone(s)))
    && AsActions(TurnOffers(s, c, f)) == Offers(s.routes, c, out)
  }

  lemma {:induction false} UnregisteredTurn(s: State, c: nat, f: Frame)
    requires Ready(s, c) && Fits(f) && s.sessions[c].registered.None? && Access(None, f).None?
    ensures TurnMatches(s, c, f, Decide(s.routes, None, f))
  {
    TakenSettles(s, s.sessions[c], f, s.routes);
    ReceiveStep(s, c, f);
    SingleRun(s, Receive(c, f));
    assert [Receive(c, f)] + ([] + []) == [Receive(c, f)];
  }

  lemma {:induction false} SettledTurn(s: State, c: nat, f: Frame, x: Session, out: Outcome)
    requires Ready(s, c) && Fits(f) && c !in s.line && TargetsKnown(s, TurnPhase(s, c, f))
    requires x == s.sessions[c] && x.registered.Some? && Access(x.registered, f).None?
    requires out == Decide(s.routes, x.registered, f) && OutcomeIsSound(s.routes, x.registered, out)
    ensures TurnMatches(s, c, f, out)
  {
    var p, next := PhaseOf(s.routes, out), x.(inputs := x.inputs + [f]);
    LockIsTakenWhenNeeded(s.routes, s.routes, x.registered, f);
    PhaseIsOutcome(s, c, next, s.routes, out);
    TakenSettles(s, x, f, s.routes);
    assert [] + PhaseSteps(s, c, p) == PhaseSteps(s, c, p);
    SettledRun(s, c, f, next, p);
  }

  lemma {:induction false} LookupTurn(s: State, c: nat, f: Frame, x: Session, out: Outcome)
    requires Ready(s, c) && Fits(f) && c !in s.line
    requires TargetsKnown(s, TurnPhase(s, c, f)) && !TurnPhase(s, c, f).Waiting?
    requires x == s.sessions[c] && x.registered.Some? && Access(x.registered, f) == Some(Shared)
    requires out == Decide(s.routes, x.registered, f) && OutcomeIsSound(s.routes, x.registered, out)
    ensures TurnMatches(s, c, f, out)
  {
    var p, next := PhaseOf(s.routes, out), x.(inputs := x.inputs + [f]);
    LockIsTakenWhenNeeded(s.routes, s.routes, x.registered, f);
    PhaseIsOutcome(s, c, next, s.routes, out);
    TakenLocks(s.routes, c, x, f);
    LookupRun(s, c, f, Taken(x, f), next, p);
    LookupActs(s, c, out);
  }

  /** A lookup's lock and the rest of the turn, as the loop body records them. */
  lemma {:induction false} LookupActs(s: State, c: nat, out: Outcome)
    requires var p := PhaseOf(s.routes, out);
      && (out.Acknowledge? ==> PhaseActs(s, c, p) == Offers(s.routes, c, out) + (if p.Idle? then [] else [Unlock]))
      && (!out.Acknowledge? ==> PhaseActs(s, c, p) == Offers(s.routes, c, out) + Eviction(FailedRoute(out, Gone(s))))
    ensures var p := PhaseOf(s.routes, out);
      [Lock(Shared)] + (if p.Acknowledging? then [] else [Unlock]) + PhaseActs(s, c, p)
      == Actions(Some(Shared), s.routes, c, out, Gone(s))
  {
  }

  lemma {:induction false} RegistrationTurn(s: State, c: nat, f: Frame, x: Session, out: Outcome)
    requires Ready(s, c) && Fits(f) && c !in s.line
    requires x == s.sessions[c] && Access(x.registered, f) == Some(Exclusive)
    requires out == Decide(s.routes, x.registered, f)
    ensures TurnMatches(s, c, f, out)
  {
    LockIsTakenWhenNeeded(s.routes, s.routes, x.registered, f);
    TakenLocks(s.routes, c, x, f);
    RegistrationRun(s, c, f, Taken(x, f), TurnedSession(x, f, out));
  }

  /** One turn of a session with nobody else moving is a run of the machine exactly when the lock and the queues are
      free for it, and then it does, in the same order, what the loop body is proved to do to the lock and the queues,
      and leaves the registry, the registered id, the queues and the log as the loop body's contract says. */
  lemma {:induction false} TurnIsLoopBody(s: State, c: nat, f: Frame)
    requires Inv(s) && Ready(s, c) && Fits(f)
    ensures TurnMatches(s, c, f, Decide(s.routes, s.sessions[c].registered, f))
  {
    var x, out := s.sessions[c], Decide(s.routes, s.sessions[c].registered, f);
    DecisionIsSound(s.routes, x.registered, f);
    TargetsAreKnown(s, c, f);
    assert c !in s.line;
    match Access(x.registered, f)
    case None => if x.registered.Some? { SettledTurn(s, c, f, x, out); } else { UnregisteredTurn(s, c, f); }
    case Some(Shared) => LookupTurn(s, c, f, x, out);
    case Some(Exclusive) => RegistrationTurn(s, c, f, x, out);
  }
}
