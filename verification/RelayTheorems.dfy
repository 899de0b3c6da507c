/** The guarantees of the routed relay, over every interleaved run. */
module RelayTheorems {
  import opened Bytes
  import opened Frames
  import opened Messages
  import opened Registry
  import opened RelayLogic
  import opened RelayMachine
  import opened RelayInvariants

  // ---------- when a route ends, and when it outlives its session ----------

  /** The step registers `p` for the acting connection. */
  ghost predicate Registers(s: State, step: Step, p: PeerId) {
    && step.Acquire? && step.c in s.sessions
    && var x := s.sessions[step.c];
       && x.phase.Waiting? && x.phase.request.Handle?
       && x.phase.request.frame.sessionId == ROUTE_REGISTRATION_ID && x.phase.request.frame.payload == p
  }

  /** The step is the cleanup of `c` leaving while registered as `p`. */
  ghost predicate Leaves(s: State, step: Step, p: PeerId, c: nat) {
    && step == Acquire(c) && c in s.sessions
    && s.sessions[c].phase == Waiting(Leave) && s.sessions[c].registered == Some(p)
  }

  /** The step is the removal that follows a failed send to exactly this route. */
  ghost predicate FailedSend(s: State, step: Step, p: PeerId, c: nat) {
    step.Acquire? && step.c in s.sessions && s.sessions[step.c].phase == Waiting(Remove(Entry(c, p)))
  }

  ghost predicate TakenOver(s: State, step: Step, p: PeerId, c: nat) {
    (Registers(s, step, p) && step.c != c) || Leaves(s, step, p, c)
  }

  /** While `p` is routed to `c`, exactly three kinds of step end that: another connection registering `p`,
      `c` leaving cleanly as `p`, or a failed send to `c` itself. Cleanup aimed at any other connection,
      however late, does not. */
  lemma {:induction false} RouteEndsIff(s: State, step: Step, p: PeerId, c: nat)
    requires RoutesOk(s) && SessionsOk(s) && Enabled(s, step) && IsCurrent(s.routes, p, c)
    ensures IsCurrent(Apply(s, step).routes, p, c) <==> !TakenOver(s, step, p, c) && !FailedSend(s, step, p, c)
    ensures FailedSend(s, step, p, c) ==> c in s.channels && !s.channels[c].open
  {
    if step.Acquire? {
      WriteEndsIff(s, step.c, p, c);
      assert SessionOk(s, s.sessions[step.c]);
    }
  }

  lemma {:induction false} WriteEndsIff(s: State, a: nat, p: PeerId, c: nat)
    requires Agree(s.routes) && Enabled(s, Acquire(a)) && IsCurrent(s.routes, p, c)
    ensures IsCurrent(Written(s.routes, a, s.sessions[a]), p, c) <==>
      !TakenOver(s, Acquire(a), p, c) && !FailedSend(s, Acquire(a), p, c)
  {
    assert s.routes.byPeer[p] == Entry(c, p);
  }

  /** `p` is routed to `c` in every state of the run. */
  ghost predicate AlwaysRouted(s: State, steps: seq<Step>, p: PeerId, c: nat)
    requires ValidRun(s, steps)
    decreases steps
  {
    IsCurrent(s.routes, p, c) && (steps == [] || AlwaysRouted(Apply(s, steps[0]), steps[1..], p, c))
  }

  /** No step of the run is the end of the route of `p` to `c`; with `alive`, failed sends are not looked for. */
  ghost predicate NoEnd(s: State, steps: seq<Step>, p: PeerId, c: nat, alive: bool)
    requires ValidRun(s, steps)
    decreases steps
  {
    steps == [] ||
    (!TakenOver(s, steps[0], p, c) && (alive || !FailedSend(s, steps[0], p, c))
     && NoEnd(Apply(s, steps[0]), steps[1..], p, c, alive))
  }

  lemma {:induction false} ClosedStaysClosed(s: State, steps: seq<Step>, c: nat)
    requires IdsOk(s) && ValidRun(s, steps) && c in s.channels
    ensures c in Exec(s, steps).channels
    ensures !s.channels[c].open ==> !Exec(s, steps).channels[c].open
    decreases steps
  {
    if steps != [] {
      StepGrows(s, steps[0]);
      ChannelsGrow(s, steps[0], c);
      ClosedStaysClosed(Apply(s, steps[0]), steps[1..], c);
    }
  }

  /** In every run, `p` stays routed to `c` throughout if and only if no step of the run registers `p` for another
      connection, is the cleanup of `c` leaving as `p`, or follows a failed send to `c`. If the writer of `c` is
      still there at the end, there were no such failed sends: then only the first two count, whatever older
      connections of `p` and senders holding their stale routes do. */
  lemma {:induction false} RouteLivesIff(s: State, steps: seq<Step>, p: PeerId, c: nat, alive: bool)
    requires Inv(s) && ValidRun(s, steps) && IsCurrent(s.routes, p, c)
    requires alive ==> c in Exec(s, steps).channels && Exec(s, steps).channels[c].open
    ensures AlwaysRouted(s, steps, p, c) <==> NoEnd(s, steps, p, c, alive)
    decreases steps
  {
    if steps != [] {
      RouteEndsIff(s, steps[0], p, c);
      StepKeepsInv(s, steps[0]);
      assert EntryOk(s, s.routes.byPeer[p]);
      ClosedStaysClosed(s, steps, c);
      if IsCurrent(Apply(s, steps[0]).routes, p, c) {
        RouteLivesIff(Apply(s, steps[0]), steps[1..], p, c, alive);
      }
    }
  }

  // ---------- what must happen does happen ----------

  /** A session that gets the lock for a registration is registered, and the id is routed to its connection. */
  lemma {:induction false} RegistrationTakes(s: State, c: nat, p: PeerId)
    requires Enabled(s, Acquire(c)) && Registers(s, Acquire(c), p)
    ensures var t := Apply(s, Acquire(c));
      && IsCurrent(t.routes, p, c) && Find(t.routes.byPrefix, Prefix(p)) == Some(Entry(c, p))
      && t.sessions[c].registered == Some(p) && t.sessions[c].phase.Idle?
  {
    LockIsTakenWhenNeeded(s.routes, s.routes, s.sessions[c].registered, s.sessions[c].phase.request.frame);
  }

  /** A session in line stays there, with its request, until it moves itself. */
  lemma {:induction false} StaysInLine(s: State, steps: seq<Step>, c: nat, request: Request)
    requires Inv(s) && ValidRun(s, steps) && Bystanders(steps, c)
    requires c in s.sessions && s.sessions[c].phase == Waiting(request)
    ensures var t := Exec(s, steps); c in t.line && c in t.sessions && t.sessions[c] == s.sessions[c]
  {
    BystandersLeave(s, steps, c);
    RunKeepsInv(s, steps);
  }

  /** A send to a receiver that is gone makes the session ask for the removal of that route; whatever others do until it
      gets the lock, the route is then not there any more. */
  lemma {:induction false} FailedSendClears(s: State, t: State, c: nat, e: Entry, a: seq<Step>)
    requires Inv(s) && Enabled(s, Deliver(c)) && s.sessions[c].phase.forward.entry == e && !s.channels[e.conn].open
    requires t == Apply(s, Deliver(c)) && ValidRun(t, a) && Bystanders(a, c)
    ensures var u := Exec(t, a);
      && c in u.line && c in u.sessions && u.sessions[c].phase == Waiting(Remove(e))
      && (Enabled(u, Acquire(c)) ==>
            !IsCurrent(Apply(u, Acquire(c)).routes, e.peer, e.conn) && Apply(u, Acquire(c)).sessions[c].phase.Idle?)
  {
    StepKeepsInv(s, Deliver(c));
    StaysInLine(t, a, c, Remove(e));
    if Enabled(Exec(t, a), Acquire(c)) {
      RemovalClears(Exec(t, a), c, e.peer, e.conn);
    }
  }

  lemma {:induction false} RemovalClears(s: State, a: nat, p: PeerId, c: nat)
    requires Enabled(s, Acquire(a)) && s.sessions[a].phase == Waiting(Remove(Entry(c, p)))
    ensures !IsCurrent(Apply(s, Acquire(a)).routes, p, c) && Apply(s, Acquire(a)).sessions[a].phase.Idle?
  {
  }

  /** A receipt for a receiver that is gone is dropped: nothing is delivered, no route is removed, and the session is ready
      for the next frame. */
  lemma {:induction false} FailedReceiptKeeps(s: State, c: nat)
    requires Enabled(s, Confirm(c)) && !s.channels[s.sessions[c].phase.entry.conn].open
    ensures var t := Apply(s, Confirm(c));
      && t.routes == s.routes && t.channels == s.channels && t.log == s.log && t.line == s.line
      && t.sessions == s.sessions[c := s.sessions[c].(phase := Idle)]
  {
  }

  /** A session whose own writer is gone drops its answer, and still forwards what it has to forward. */
  lemma {:induction false} FailedAnswerGoesOn(s: State, c: nat)
    requires Enabled(s, Respond(c)) && !s.channels[c].open
    ensures var t, next := Apply(s, Respond(c)), s.sessions[c].phase.next;
      && t.routes == s.routes && t.channels == s.channels && t.log == s.log && t.line == s.line
      && t.sessions[c].phase == (if next.Some? then Forwarding(next.value) else Idle)
  {
  }

  /** A registered session whose stream ends cleanly asks for the lock; when it gets it, the session is over and the route
      of its id to its connection is gone. Without a registration it is over at once. */
  lemma {:induction false} LeavingClears(s: State, t: State, c: nat, a: seq<Step>)
    requires Inv(s) && Enabled(s, CleanExit(c)) && t == Apply(s, CleanExit(c)) && ValidRun(t, a) && Bystanders(a, c)
    ensures var u, me := Exec(t, a), s.sessions[c].registered;
      && c in u.sessions && (me.None? ==> !u.sessions[c].running)
      && (me.Some? ==>
            && c in u.line && u.sessions[c].phase == Waiting(Leave)
            && (Enabled(u, Acquire(c)) ==>
                  && !IsCurrent(Apply(u, Acquire(c)).routes, me.value, c)
                  && !Apply(u, Acquire(c)).sessions[c].running))
  {
    var me := s.sessions[c].registered;
    StepKeepsInv(s, CleanExit(c));
    if me.None? {
      BystandersLeave(t, a, c);
    } else {
      StaysInLine(t, a, c, Leave);
      LeaverGoes(Exec(t, a), c, me.value);
    }
  }

  lemma {:induction false} LeaverGoes(s: State, c: nat, me: PeerId)
    requires c in s.sessions && s.sessions[c].phase == Waiting(Leave) && s.sessions[c].registered == Some(me)
    ensures Enabled(s, Acquire(c)) ==>
      !IsCurrent(Apply(s, Acquire(c)).routes, me, c) && !Apply(s, Acquire(c)).sessions[c].running
  {
  }

  // ---------- routes that outlive their session ----------

  /** The step is the last of session `c`. */
  ghost predicate EndsSession(s: State, step: Step, c: nat)
    requires Enabled(s, step)
  {
    c in s.sessions && s.sessions[c].running && c in SessionsAfter(s, step) && !SessionsAfter(s, step)[c].running
  }

  /** A route outlives its session exactly if the session ends by an error, or has registered as another id since. */
  lemma {:induction false} ExitKeepsRouteIff(s: State, step: Step, p: PeerId, c: nat)
    requires RoutesOk(s) && SessionsOk(s) && Enabled(s, step) && EndsSession(s, step, c) && IsCurrent(s.routes, p, c)
    ensures IsCurrent(Apply(s, step).routes, p, c) <==> step.ErrorExit? || s.sessions[c].registered != Some(p)
  {
    assert SessionOk(s, s.sessions[c]);
  }

  lemma {:induction false} EndedStaysEnded(s: State, step: Step, p: PeerId, c: nat)
    requires Enabled(s, step) && c in s.sessions && !s.sessions[c].running && s.sessions[c].phase.Idle?
    ensures c in Apply(s, step).sessions && !Apply(s, step).sessions[c].running
    ensures IsCurrent(Apply(s, step).routes, p, c) ==> IsCurrent(s.routes, p, c)
  {
    assert Actor(step) != Some(c);
    OtherSessions(s, step, c);
  }

  /** The routes that name a session that has ended are those it left behind, as long as no other connection registers
      the id and no send to it fails: nothing else ever clears them away. */
  lemma {:induction false} StaleRouteIff(s: State, steps: seq<Step>, p: PeerId, c: nat)
    requires Inv(s) && ValidRun(s, steps) && c in s.sessions && !s.sessions[c].running
    ensures IsCurrent(Exec(s, steps).routes, p, c) <==> IsCurrent(s.routes, p, c) && NoEnd(s, steps, p, c, false)
    decreases steps
  {
    if steps != [] {
      assert SessionOk(s, s.sessions[c]);
      EndedStaysEnded(s, steps[0], p, c);
      StepKeepsInv(s, steps[0]);
      StaleRouteIff(Apply(s, steps[0]), steps[1..], p, c);
      if IsCurrent(s.routes, p, c) {
        RouteEndsIff(s, steps[0], p, c);
      }
    }
  }

  // ---------- the two indexes over whole runs ----------

  ghost predicate Collides(s: State, step: Step) {
    exists p: PeerId :: Registers(s, step, p) && PrefixTaken(s.routes, p)
  }

  ghost predicate NoCollision(s: State, steps: seq<Step>)
    requires ValidRun(s, steps)
    decreases steps
  {
    steps == [] || (!Collides(s, steps[0]) && NoCollision(Apply(s, steps[0]), steps[1..]))
  }

  ghost predicate AlwaysComplete(s: State, steps: seq<Step>)
    requires ValidRun(s, steps)
    decreases steps
  {
    Complete(s.routes) && (steps == [] || AlwaysComplete(Apply(s, steps[0]), steps[1..]))
  }

  lemma {:induction false} StepCompleteIff(s: State, step: Step)
    requires Agree(s.routes) && Enabled(s, step) && Complete(s.routes)
    ensures Complete(Apply(s, step).routes) <==> !Collides(s, step)
  {
    if step.Acquire? {
      var x := s.sessions[step.c];
      match x.phase.request
      case Handle(f) =>
        if Access(x.registered, f) == Some(Exclusive) {
          assert Registers(s, step, f.payload);
          InsertCompleteIff(s.routes, f.payload, step.c);
        }
      case Remove(e) => RemoveKeepsComplete(s.routes, e.peer, e.conn);
      case Leave =>
        if x.registered.Some? {
          RemoveKeepsComplete(s.routes, x.registered.value, step.c);
        }
    }
  }

  /** Throughout a run the prefix index is the exact image of the id index, if and only if no step of the run
      registers an id whose prefix belongs to another id registered at that moment. */
  lemma {:induction false} CompleteRunIff(s: State, steps: seq<Step>)
    requires Inv(s) && ValidRun(s, steps) && Complete(s.routes)
    ensures AlwaysComplete(s, steps) <==> NoCollision(s, steps)
    decreases steps
  {
    if steps != [] {
      StepCompleteIff(s, steps[0]);
      StepKeepsInv(s, steps[0]);
      if !Collides(s, steps[0]) {
        CompleteRunIff(Apply(s, steps[0]), steps[1..]);
      } else {
        NotComplete(Apply(s, steps[0]), steps[1..]);
      }
    }
  }

  lemma {:induction false} NotComplete(s: State, steps: seq<Step>)
    requires ValidRun(s, steps) && !Complete(s.routes)
    ensures !AlwaysComplete(s, steps)
  {
  }

  // ---------- attribution and no echo ----------

  ghost predicate CarriesPayload(d: Delivery) {
    d.kind == Message || d.kind == Raw
  }

  /** In every run, whatever a session puts into any queue carries the prefix of the id it had registered, an
      IncomingMessageEvent names that full id, and a payload only goes to a connection that registered an id
      different from the sender's. */
  lemma {:induction false} Attribution(steps: seq<Step>)
    requires ValidRun(INIT, steps)
    ensures var s := Exec(INIT, steps);
      && Agree(s.routes)
      && forall i :: 0 <= i < |s.log| ==>
           var d := s.log[i];
           && EntryOk(s, Entry(d.origin, d.sender)) && EntryOk(s, Entry(d.to, d.recipient))
           && d.frame.sessionId == Prefix(d.sender)
           && (d.kind == Message ==>
                 var m := DecodeServer(d.frame.payload);
                 m.Ok? && m.value.1.SIncomingMessage? && m.value.1.senderId == d.sender)
           && (CarriesPayload(d) ==> d.recipient != d.sender)
  {
    InitInv();
    RunKeepsInv(INIT, steps);
    var s := Exec(INIT, steps);
    forall i | 0 <= i < |s.log| ensures DeliveryOk(s, s.log[i]) {
    }
  }

  /** A session that only ever registered one id never finds its own payload in its own queue. */
  lemma {:induction false} NoEcho(steps: seq<Step>, c: nat)
    requires ValidRun(INIT, steps) && c in Exec(INIT, steps).sessions
    requires |Exec(INIT, steps).sessions[c].identities| <= 1
    ensures forall d :: d in Exec(INIT, steps).log && d.origin == c && CarriesPayload(d) ==> d.to != c
  {
    Attribution(steps);
    var s := Exec(INIT, steps);
    forall d | d in s.log && d.origin == c && CarriesPayload(d) ensures d.to != c {
      var i :| 0 <= i < |s.log| && s.log[i] == d;
      assert EntryOk(s, Entry(d.to, d.recipient));
      if d.to == c {
        var two := {d.sender, d.recipient};
        assert two <= s.sessions[c].identities;
        SubsetSize(two, s.sessions[c].identities);
      }
    }
  }

  lemma {:induction false} SubsetSize<T>(a: set<T>, b: set<T>)
    requires a <= b
    ensures |a| <= |b|
  {
    if a != {} {
      var x :| x in a;
      SubsetSize(a - {x}, b - {x});
    }
  }

  /** Session `c` does not hold a payload for its own queue. */
  ghost predicate NoOwnForward(s: State, c: nat) {
    c in s.sessions ==>
      match s.sessions[c].phase
      case Answering(_, Some(fw)) => fw.entry.conn != c
      case Forwarding(fw) => fw.entry.conn != c
      case _ => true
  }

  ghost predicate NoOwnPayload(log: seq<Delivery>, c: nat) {
    forall d :: d in log && d.origin == c && CarriesPayload(d) ==> d.to != c
  }

  /** Whenever session `c` looks something up, its connection holds no route but that of the id it is registered as. */
  ghost predicate LooksUpAlone(s: State, steps: seq<Step>, c: nat)
    requires ValidRun(s, steps)
    decreases steps
  {
    steps == [] ||
    ((steps[0] == Acquire(c) && s.sessions[c].registered.Some? ==> !OtherRoute(s.routes, s.sessions[c].registered.value, c))
     && LooksUpAlone(Apply(s, steps[0]), steps[1..], c))
  }

  lemma {:induction false} LookupFindsOthers(s: State, x: Session, c: nat)
    requires Agree(s.routes) && x.phase.Waiting? && RequestOk(s, x, x.phase.request)
    requires x.registered.Some? ==> !OtherRoute(s.routes, x.registered.value, c)
    ensures match Granted(s.routes, x).phase
      case Answering(_, Some(fw)) => fw.entry.conn != c
      case Forwarding(fw) => fw.entry.conn != c
      case _ => true
  {
    if x.phase.request.Handle? {
      var f := x.phase.request.frame;
      DecisionIsSound(s.routes, x.registered, f);
      if x.registered.Some? && ForwardsTo(Decide(s.routes, x.registered, f), c) {
        ForwardNeedsRoute(s.routes, x.registered.value, f, c);
      }
    }
  }

  lemma {:induction false} StepHoldsNoOwn(s: State, step: Step, c: nat)
    requires Agree(s.routes) && SessionsOk(s) && Enabled(s, step) && NoOwnForward(s, c)
    requires step == Acquire(c) && s.sessions[c].registered.Some? ==>
      !OtherRoute(s.routes, s.sessions[c].registered.value, c)
    ensures NoOwnForward(Apply(s, step), c)
  {
    if Actor(step) == Some(c) {
      assert SessionOk(s, s.sessions[c]);
      if step.Acquire? {
        LookupFindsOthers(s, s.sessions[c], c);
      } else if step.Receive? {
        LockIsTakenWhenNeeded(EMPTY, EMPTY, s.sessions[c].registered, step.frame);
      }
    } else {
      KeysGrow(s, step, c);
    }
  }

  lemma {:induction false} MadeIsNotOwn(s: State, step: Step, c: nat)
    requires Enabled(s, step) && NoOwnForward(s, c) && Made(s, step).Some?
    ensures var d := Made(s, step).value; d.origin == c && CarriesPayload(d) ==> d.to != c
  {
  }

  /** Over every run: as long as a session only looks routes up while its connection holds no second id's route, it
      never puts its own payload into its own queue, whatever routes its connection gains or loses in between. */
  lemma {:induction false} NoEchoAlone(s: State, steps: seq<Step>, c: nat)
    requires Inv(s) && ValidRun(s, steps) && LooksUpAlone(s, steps, c)
    requires NoOwnForward(s, c) && NoOwnPayload(s.log, c)
    ensures NoOwnPayload(Exec(s, steps).log, c)
    decreases steps
  {
    if steps != [] {
      StepHoldsNoOwn(s, steps[0], c);
      if Made(s, steps[0]).Some? {
        MadeIsNotOwn(s, steps[0], c);
      }
      StepKeepsInv(s, steps[0]);
      NoEchoAlone(Apply(s, steps[0]), steps[1..], c);
    }
  }

  // ---------- order and multiplicity ----------

  /** Over all queues together, one input frame causes at most one answer and at most one other delivery,
      and the answer comes first. */
  lemma {:induction false} AtMostOnePayload(steps: seq<Step>)
    requires ValidRun(INIT, steps)
    ensures var log := Exec(INIT, steps).log;
      forall i, j :: 0 <= i < j < |log| && log[i].origin == log[j].origin ==>
        && log[i].index <= log[j].index
        && (log[i].index == log[j].index ==> log[i].kind == Response && log[j].kind != Response)
  {
    InitInv();
    RunKeepsInv(INIT, steps);
  }

  lemma {:induction false} DeliveriesSorted(log: seq<Delivery>, c: nat)
    requires RankSorted(log)
    ensures forall d :: d in DeliveriesTo(log, c) ==> d in log && d.to == c
    ensures RankSorted(DeliveriesTo(log, c))
  {
    if log != [] {
      var n := |log| - 1;
      var ds := DeliveriesTo(log[..n], c);
      DeliveriesSorted(log[..n], c);
      forall i | 0 <= i < |ds| && ds[i].origin == log[n].origin ensures Rank(ds[i]) < Rank(log[n]) {
        assert ds[i] in log[..n];
        var k :| 0 <= k < n && log[k] == ds[i];
      }
    }
  }

  /** The frames sent and queued on a connection are the deliveries `ds` made to it, and those of any one sender are in
      the order in which it processed its input. */
  ghost predicate InOrder(ch: Channel, ds: seq<Delivery>) {
    && ch.sent + ch.queue == FramesOf(ds) && |ch.queue| <= 256
    && forall i, j :: 0 <= i < j < |ds| && ds[i].origin == ds[j].origin ==>
         ds[i].index <= ds[j].index && (CarriesPayload(ds[i]) && CarriesPayload(ds[j]) ==> ds[i].index < ds[j].index)
  }

  lemma {:induction false} QueueOrderAt(s: State, c: nat)
    requires OrderOk(s) && FifoOk(s) && c in s.channels
    ensures InOrder(s.channels[c], DeliveriesTo(s.log, c))
  {
    DeliveriesSorted(s.log, c);
  }

  /** What has gone out on a connection plus what is queued for it, at most 256 frames, is exactly the deliveries
      made to it, in order; and those of any one sender are in the order in which it processed its input. */
  lemma {:induction false} QueueOrder(steps: seq<Step>, c: nat)
    requires ValidRun(INIT, steps) && c in Exec(INIT, steps).channels
    ensures InOrder(Exec(INIT, steps).channels[c], DeliveriesTo(Exec(INIT, steps).log, c))
  {
    InitInv();
    RunKeepsInv(INIT, steps);
    QueueOrderAt(Exec(INIT, steps), c);
  }

  // ---------- delivery under interleaving ----------

  ghost predicate Bystanders(steps: seq<Step>, c: nat) {
    forall i :: 0 <= i < |steps| ==> Actor(steps[i]) != Some(c)
  }

  lemma {:induction false} BystandersLeave(s: State, steps: seq<Step>, c: nat)
    requires Inv(s) && ValidRun(s, steps) && c in s.sessions && Bystanders(steps, c)
    ensures c in Exec(s, steps).sessions && Exec(s, steps).sessions[c] == s.sessions[c]
    decreases steps
  {
    if steps != [] {
      assert Actor(steps[0]) != Some(c);
      OtherSessions(s, steps[0], c);
      StepKeepsInv(s, steps[0]);
      BystandersLeave(Apply(s, steps[0]), steps[1..], c);
    }
  }

  /** The frame is a SendMessage, under no reserved session id, from `me` to someone else who is routed. */
  ghost predicate SendsToRoute(r: Routes, me: PeerId, f: Frame) {
    && f.sessionId != ROUTE_REGISTRATION_ID && f.sessionId != ECHO_ROUTE_ID
    && DecodeClient(f.payload).Ok? && DecodeClient(f.payload).value.1.CSendMessage?
    && var to := DecodeClient(f.payload).value.1.recipientId; to != me && to in r.byPeer
  }

  /** The phase holds the answer to the message in `f`, and then the event for its recipient's route. */
  ghost predicate HoldsEvent(r: Routes, me: PeerId, f: Frame, phase: Phase)
    requires SendsToRoute(r, me, f)
  {
    var (env, m) := DecodeClient(f.payload).value;
    && phase.Answering? && phase.next.Some? && phase.next.value.entry == r.byPeer[m.recipientId]
    && Carries(Some(phase.response), Prefix(me), ZERO_NONCE, SSendMessageResponse(env.messageId, true),
               env.messageId, env.messageId, env.timestamp)
    && Carries(Some(phase.next.value.frame), Prefix(me), f.nonce, SIncomingMessage(me, m.data), env.messageId, 0,
               env.timestamp)
  }

  /** At lookup a SendMessage to someone else who is routed becomes its answer and then the event for that route. */
  lemma {:induction false} LookupDecides(r: Routes, x: Session, f: Frame, me: PeerId)
    requires x.phase == Waiting(Handle(f)) && x.registered == Some(me) && SendsToRoute(r, me, f)
    ensures HoldsEvent(r, me, f, Granted(r, x).phase)
  {
    SendIsAnswered(r, me, f);
  }

  /** Others take the steps `a` before session `c` answers, and the steps `b` before it forwards. */
  ghost predicate Interleaved(s: State, c: nat, a: seq<Step>, b: seq<Step>) {
    && ValidRun(s, a) && Bystanders(a, c) && Enabled(Exec(s, a), Respond(c))
    && ValidRun(Apply(Exec(s, a), Respond(c)), b) && Bystanders(b, c)
  }

  ghost function BeforeForward(s: State, c: nat, a: seq<Step>, b: seq<Step>): State
    requires Interleaved(s, c, a, b)
  {
    Exec(Apply(Exec(s, a), Respond(c)), b)
  }

  /** Between the lookup and the forward, others may do what they like: the session still holds what it looked up. */
  lemma {:induction false} StillForwards(s: State, c: nat, a: seq<Step>, b: seq<Step>)
    requires Inv(s) && c in s.sessions && s.sessions[c].phase.Answering? && s.sessions[c].phase.next.Some?
    requires Interleaved(s, c, a, b)
    ensures var t := BeforeForward(s, c, a, b);
      c in t.sessions && t.sessions[c].phase == Forwarding(s.sessions[c].phase.next.value)
  {
    BystandersLeave(s, a, c);
    RunKeepsInv(s, a);
    StepKeepsInv(Exec(s, a), Respond(c));
    BystandersLeave(Apply(Exec(s, a), Respond(c)), b, c);
  }

  /** The step puts `f` at the end of the queue of connection `k`. */
  ghost predicate Enqueues(s: State, step: Step, k: nat, f: Frame)
    requires Enabled(s, step)
  {
    k in s.channels && k in ChannelsAfter(s, step)
    && ChannelsAfter(s, step)[k] == s.channels[k].(queue := s.channels[k].queue + [f])
  }

  lemma {:induction false} DeliverEnqueues(s: State, c: nat, fw: Forward)
    requires Enabled(s, Deliver(c)) && s.sessions[c].phase == Forwarding(fw)
    ensures var k := fw.entry.conn;
      k in s.channels && (s.channels[k].open ==> Enqueues(s, Deliver(c), k, fw.frame))
  {
  }

  lemma {:induction false} HeldForwardArrives(s: State, c: nat, a: seq<Step>, b: seq<Step>, fw: Forward)
    requires Inv(s) && c in s.sessions && s.sessions[c].phase.Answering? && s.sessions[c].phase.next == Some(fw)
    requires Interleaved(s, c, a, b) && Enabled(BeforeForward(s, c, a, b), Deliver(c))
    ensures var t, k := BeforeForward(s, c, a, b), fw.entry.conn;
      k in t.channels && (t.channels[k].open ==> Enqueues(t, Deliver(c), k, fw.frame))
  {
    StillForwards(s, c, a, b);
    DeliverEnqueues(BeforeForward(s, c, a, b), c, fw);
  }

  /** A SendMessage to someone else who is routed when it is looked up: whatever other sessions and writers do
      before the answer and again before the forward, the event for that recipient is what enters the queue found
      at lookup, if its writer is still there. */
  lemma {:induction false} SendDelivers(s: State, c: nat, f: Frame, a: seq<Step>, b: seq<Step>, me: PeerId)
    requires Inv(s) && Enabled(s, Acquire(c))
    requires s.sessions[c].phase == Waiting(Handle(f)) && s.sessions[c].registered == Some(me)
    requires SendsToRoute(s.routes, me, f)
    requires Interleaved(Apply(s, Acquire(c)), c, a, b)
    requires Enabled(BeforeForward(Apply(s, Acquire(c)), c, a, b), Deliver(c))
    ensures var t := BeforeForward(Apply(s, Acquire(c)), c, a, b);
      var (env, m) := DecodeClient(f.payload).value;
      var e := s.routes.byPeer[m.recipientId];
      && e.conn in t.channels
      && (t.channels[e.conn].open ==>
            exists event ::
              && Carries(Some(event), Prefix(me), f.nonce, SIncomingMessage(me, m.data), env.messageId, 0, env.timestamp)
              && Enqueues(t, Deliver(c), e.conn, event))
  {
    var s1 := Apply(s, Acquire(c));
    LookupDecides(s.routes, s.sessions[c], f, me);
    StepKeepsInv(s, Acquire(c));
    HeldForwardArrives(s1, c, a, b, s1.sessions[c].phase.next.value);
  }
}
