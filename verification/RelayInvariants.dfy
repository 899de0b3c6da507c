/** What every step of the relay keeps, and so what holds in every state of every run. */
module RelayInvariants {
  import opened Bytes
  import opened Frames
  import opened Messages
  import opened Registry
  import opened RelayLogic
  import opened RelayMachine

  // ---------- registry and identities ----------

  ghost predicate Known(s: State, c: nat) {
    c in s.sessions && c in s.channels
  }

  /** A route, held in the registry or by a session, names a connection that registered that id. */
  ghost predicate EntryOk(s: State, e: Entry) {
    Known(s, e.conn) && e.peer in s.sessions[e.conn].identities
  }

  ghost predicate IdsOk(s: State) {
    && s.nextId >= 1
    && (forall c :: c in s.sessions <==> 1 <= c < s.nextId)
    && (forall c :: c in s.channels <==> 1 <= c < s.nextId)
  }

  ghost predicate RoutesOk(s: State) {
    && IdsOk(s)
    && Agree(s.routes)
    && (forall p :: p in s.routes.byPeer ==> EntryOk(s, s.routes.byPeer[p]))
  }

  // ---------- sessions ----------

  ghost predicate ForwardOk(s: State, me: PeerId, fw: Forward) {
    (fw.kind == Message || fw.kind == Raw) && WellSent(me, fw.entry.peer, fw.kind, fw.frame) && EntryOk(s, fw.entry)
  }

  ghost predicate RequestOk(s: State, x: Session, request: Request) {
    match request
    case Handle(f) => Fits(f) && Access(x.registered, f).Some? && |x.inputs| > 0
    case Remove(e) => EntryOk(s, e) && !s.channels[e.conn].open
    case Leave => x.registered.Some?
  }

  ghost predicate PhaseOk(s: State, x: Session) {
    match x.phase
    case Idle => true
    case Waiting(request) => RequestOk(s, x, request)
    case Answering(response, next) =>
      && x.registered.Some? && |x.inputs| > 0
      && WellSent(x.registered.value, x.registered.value, Response, response)
      && (next.Some? ==> ForwardOk(s, x.registered.value, next.value))
    case Forwarding(fw) => x.registered.Some? && |x.inputs| > 0 && ForwardOk(s, x.registered.value, fw)
    case Acknowledging(e, receipt) =>
      && x.registered.Some? && |x.inputs| > 0
      && WellSent(x.registered.value, e.peer, Receipt, receipt) && EntryOk(s, e)
  }

  ghost predicate SessionOk(s: State, x: Session) {
    && (x.registered.Some? ==> x.registered.value in x.identities)
    && (x.running || x.phase.Idle?)
    && PhaseOk(s, x)
  }

  ghost predicate SessionsOk(s: State) {
    forall c :: c in s.sessions ==> SessionOk(s, s.sessions[c])
  }

  // ---------- the lock ----------

  /** Exactly the waiting sessions are in line, each once. */
  ghost predicate LineOk(s: State) {
    && (forall i :: 0 <= i < |s.line| ==> s.line[i] in s.sessions && s.sessions[s.line[i]].phase.Waiting?)
    && (forall i, j :: 0 <= i < j < |s.line| ==> s.line[i] != s.line[j])
    && (forall c :: c in s.sessions && s.sessions[c].phase.Waiting? ==> c in s.line)
  }

  /** The route that an acknowledgement looked up is still the registry's. */
  ghost predicate GuardsOk(s: State) {
    forall c :: Holds(s, c) ==>
      var e := s.sessions[c].phase.entry; Find(s.routes.byPrefix, Prefix(e.peer)) == Some(e)
  }

  // ---------- deliveries ----------

  ghost predicate DeliveryOk(s: State, d: Delivery) {
    && EntryOk(s, Entry(d.origin, d.sender))
    && EntryOk(s, Entry(d.to, d.recipient))
    && WellSent(d.sender, d.recipient, d.kind, d.frame)
    && (d.kind == Response ==> d.to == d.origin && d.recipient == d.sender)
  }

  ghost predicate LogOk(s: State) {
    forall i :: 0 <= i < |s.log| ==> DeliveryOk(s, s.log[i])
  }

  /** The answer to input frame n comes before what it causes elsewhere, and that before frame n + 1. */
  function Rank(d: Delivery): nat {
    2 * d.index + (if d.kind == Response then 0 else 1)
  }

  /** No delivery of this session has a rank this high yet. */
  function NextRank(x: Session): int {
    match x.phase
    case Idle => 2 * |x.inputs|
    case Waiting(request) => if request.Handle? then 2 * |x.inputs| - 2 else 2 * |x.inputs|
    case Answering(_, _) => 2 * |x.inputs| - 2
    case Forwarding(_) => 2 * |x.inputs| - 1
    case Acknowledging(_, _) => 2 * |x.inputs| - 1
  }

  ghost predicate RankSorted(ds: seq<Delivery>) {
    forall i, j :: 0 <= i < j < |ds| && ds[i].origin == ds[j].origin ==> Rank(ds[i]) < Rank(ds[j])
  }

  /** What the sessions have delivered so far is below their next ranks. */
  ghost predicate RankBounded(ds: seq<Delivery>, sessions: map<nat, Session>) {
    forall i :: 0 <= i < |ds| ==> ds[i].origin in sessions && Rank(ds[i]) < NextRank(sessions[ds[i].origin])
  }

  ghost predicate OrderOk(s: State) {
    RankBounded(s.log, s.sessions) && RankSorted(s.log)
  }

  /** The deliveries into the queue of connection `c`, oldest first. */
  function DeliveriesTo(log: seq<Delivery>, c: nat): seq<Delivery> {
    if log == [] then []
    else
      var last := log[|log| - 1];
      DeliveriesTo(log[..|log| - 1], c) + (if last.to == c then [last] else [])
  }

  function FramesOf(ds: seq<Delivery>): (fs: seq<Frame>)
    ensures |fs| == |ds|
    ensures forall i :: 0 <= i < |ds| ==> fs[i] == ds[i].frame
  {
    seq(|ds|, i requires 0 <= i < |ds| => ds[i].frame)
  }

  ghost predicate FifoOk(s: State) {
    forall c :: c in s.channels ==>
      && FramesOf(DeliveriesTo(s.log, c)) == s.channels[c].sent + s.channels[c].queue
      && |s.channels[c].queue| <= QUEUE_CAPACITY
  }

  ghost predicate Inv(s: State) {
    RoutesOk(s) && SessionsOk(s) && LineOk(s) && GuardsOk(s) && LogOk(s) && OrderOk(s) && FifoOk(s)
  }

  // ---------- what no step takes back ----------

  /** Connections stay known, identities are kept, a stopped writer stays stopped. */
  ghost predicate Grows(s: State, t: State) {
    && (forall c :: Known(s, c) ==> Known(t, c))
    && (forall c :: c in s.sessions && c in t.sessions ==> s.sessions[c].identities <= t.sessions[c].identities)
    && (forall c :: c in s.channels && c in t.channels && !s.channels[c].open ==> !t.channels[c].open)
  }

  lemma {:induction false} MovedGrows(s: State, step: Step)
    requires Enabled(s, step) && Actor(step).Some?
    ensures s.sessions[Actor(step).value].identities <= Moved(s, step).identities
  {
  }

  lemma {:induction false} ChannelsGrow(s: State, step: Step, c: nat)
    requires Enabled(s, step) && c in s.channels
    ensures c in ChannelsAfter(s, step)
    ensures !s.channels[c].open ==> !ChannelsAfter(s, step)[c].open
  {
  }

  lemma {:induction false} SessionsGrow(s: State, step: Step, c: nat)
    requires Enabled(s, step) && c in s.sessions
    ensures c in SessionsAfter(s, step) && s.sessions[c].identities <= SessionsAfter(s, step)[c].identities
  {
    if Actor(step) == Some(c) {
      MovedGrows(s, step);
    }
  }

  lemma {:induction false} KeysGrow(s: State, step: Step, c: nat)
    requires Enabled(s, step)
    ensures c in SessionsAfter(s, step) <==> c in s.sessions || (step.Connect? && c == s.nextId)
    ensures c in ChannelsAfter(s, step) <==> c in s.channels || (step.Connect? && c == s.nextId)
  {
  }

  lemma {:induction false} StepGrows(s: State, step: Step)
    requires IdsOk(s) && Enabled(s, step)
    ensures IdsOk(Apply(s, step)) && Grows(s, Apply(s, step))
  {
    var t := Apply(s, step);
    forall c: nat
      ensures c in t.sessions <==> 1 <= c < t.nextId
      ensures c in t.channels <==> 1 <= c < t.nextId
    {
      KeysGrow(s, step, c);
    }
    forall c | c in s.channels ensures c in t.channels && (!s.channels[c].open ==> !t.channels[c].open) {
      ChannelsGrow(s, step, c);
    }
    forall c | c in s.sessions ensures c in t.sessions && s.sessions[c].identities <= t.sessions[c].identities {
      SessionsGrow(s, step, c);
    }
  }

  // ---------- registry ----------

  /** Taking routes away, or leaving them. */
  lemma {:induction false} FewerRoutes(s: State, t: State)
    requires RoutesOk(s) && IdsOk(t) && Grows(s, t) && Agree(t.routes)
    requires forall p :: p in t.routes.byPeer ==> p in s.routes.byPeer && t.routes.byPeer[p] == s.routes.byPeer[p]
    ensures RoutesOk(t)
  {
    forall p | p in t.routes.byPeer ensures EntryOk(t, t.routes.byPeer[p]) {
      assert EntryOk(s, s.routes.byPeer[p]);
    }
  }

  lemma {:induction false} NewRoute(s: State, t: State, p: PeerId, c: nat)
    requires RoutesOk(s) && IdsOk(t) && Grows(s, t) && t.routes == Inserted(s.routes, p, c) && EntryOk(t, Entry(c, p))
    ensures RoutesOk(t)
  {
    UpdatesKeepAgreement(s.routes, p, c);
    forall q | q in t.routes.byPeer ensures EntryOk(t, t.routes.byPeer[q]) {
      if q != p {
        assert EntryOk(s, s.routes.byPeer[q]);
      }
    }
  }

  /** What getting the lock does to the registry: one registration, one removal, or nothing. */
  lemma {:induction false} WrittenIs(r: Routes, c: nat, x: Session)
    requires x.phase.Waiting?
    ensures var w := Written(r, c, x);
      || w == r
      || (exists p, d :: w == Removed(r, p, d))
      || (x.phase.request.Handle? && |x.phase.request.frame.payload| == 32
          && w == Inserted(r, x.phase.request.frame.payload, c)
          && Granted(r, x).registered == Some(x.phase.request.frame.payload)
          && x.phase.request.frame.payload in Granted(r, x).identities)
    ensures !Writes(x) ==> Written(r, c, x) == r
  {
    if x.phase.request.Handle? {
      LockIsTakenWhenNeeded(r, r, x.registered, x.phase.request.frame);
    }
  }

  lemma {:induction false} StepRoutes(s: State, step: Step)
    requires RoutesOk(s) && Enabled(s, step)
    ensures RoutesOk(Apply(s, step))
  {
    var t := Apply(s, step);
    StepGrows(s, step);
    if step.Acquire? {
      var x := s.sessions[step.c];
      WrittenIs(s.routes, step.c, x);
      if p, d :| t.routes == Removed(s.routes, p, d) {
        UpdatesKeepAgreement(s.routes, p, d);
        FewerRoutes(s, t);
      } else if t.routes == s.routes {
        FewerRoutes(s, t);
      } else {
        NewRoute(s, t, x.phase.request.frame.payload, step.c);
      }
    } else {
      FewerRoutes(s, t);
    }
  }

  // ---------- sessions ----------

  lemma {:induction false} PhaseGrows(s: State, t: State, x: Session)
    requires Grows(s, t) && PhaseOk(s, x)
    ensures PhaseOk(t, x)
  {
  }

  /** How a session goes on after a sound decision. */
  lemma {:induction false} SoundPhase(s: State, r: Routes, x: Session, out: Outcome)
    requires OutcomeIsSound(r, x.registered, out) && |x.inputs| > 0 && Agree(r)
    requires forall p :: p in r.byPeer ==> EntryOk(s, r.byPeer[p])
    ensures PhaseOk(s, x.(phase := PhaseOf(r, out)))
    ensures !PhaseOf(r, out).Waiting?
  {
    if out.Answer? && out.next.Some? {
      assert EntryOk(s, r.byPeer[out.next.value.entry.peer]);
    }
    if out.PassOn? {
      assert EntryOk(s, r.byPeer[out.forward.entry.peer]);
    }
    if out.Acknowledge? && out.target in r.byPrefix {
      assert EntryOk(s, r.byPeer[r.byPrefix[out.target].peer]);
    }
  }

  lemma {:induction false} TakenIsOk(s: State, x: Session, f: Frame)
    requires SessionOk(s, x) && x.running && Fits(f)
    ensures SessionOk(s, Taken(x, f))
  {
    if Access(x.registered, f).None? {
      DecisionIsSound(EMPTY, x.registered, f);
      SoundPhase(s, EMPTY, x.(inputs := x.inputs + [f]), Decide(EMPTY, x.registered, f));
    }
  }

  lemma {:induction false} GrantedIsOk(s: State, x: Session)
    requires RoutesOk(s) && SessionOk(s, x) && x.phase.Waiting?
    ensures SessionOk(s, Granted(s.routes, x)) && !Granted(s.routes, x).phase.Waiting?
  {
    if x.phase.request.Handle? {
      var f := x.phase.request.frame;
      DecisionIsSound(s.routes, x.registered, f);
      SoundPhase(s, s.routes, x, Decide(s.routes, x.registered, f));
    }
  }

  lemma {:induction false} MovedIsOk(s: State, step: Step)
    requires RoutesOk(s) && SessionsOk(s) && Enabled(s, step) && Actor(step).Some?
    ensures SessionOk(s, Moved(s, step))
  {
    var x := s.sessions[Actor(step).value];
    assert SessionOk(s, x);
    match step
    case Receive(_, f) => TakenIsOk(s, x, f);
    case Acquire(_) => GrantedIsOk(s, x);
    case _ =>
  }

  lemma {:induction false} OtherSessions(s: State, step: Step, c: nat)
    requires Enabled(s, step) && Actor(step) != Some(c) && c in s.sessions
    ensures c in Apply(s, step).sessions && Apply(s, step).sessions[c] == s.sessions[c]
  {
  }

  lemma {:induction false} StepSessions(s: State, step: Step)
    requires RoutesOk(s) && SessionsOk(s) && Enabled(s, step)
    ensures SessionsOk(Apply(s, step))
  {
    var t := Apply(s, step);
    StepGrows(s, step);
    forall c | c in t.sessions ensures SessionOk(t, t.sessions[c]) {
      if Actor(step) == Some(c) {
        MovedIsOk(s, step);
        PhaseGrows(s, t, t.sessions[c]);
      } else if c in s.sessions {
        OtherSessions(s, step, c);
        assert SessionOk(s, s.sessions[c]);
        PhaseGrows(s, t, s.sessions[c]);
      } else {
        KeysGrow(s, step, c);
      }
    }
  }

  // ---------- the lock ----------

  /** The actor stands in line after its step exactly if it now waits. */
  lemma {:induction false} LineMoves(s: State, step: Step)
    requires RoutesOk(s) && SessionsOk(s) && LineOk(s) && Enabled(s, step) && Actor(step).Some?
    ensures var a := Actor(step).value;
      && Apply(s, step).line
         == (if step.Acquire? then s.line[1..] else if Moved(s, step).phase.Waiting? then s.line + [a] else s.line)
      && (step.Acquire? ==> s.line[0] == a && !Moved(s, step).phase.Waiting?)
      && (!step.Acquire? ==> a !in s.line)
  {
    var a := Actor(step).value;
    assert SessionOk(s, s.sessions[a]);
    if step.Acquire? {
      GrantedIsOk(s, s.sessions[a]);
    }
  }

  lemma {:induction false} FirstLeavesLine(s: State, t: State, a: nat)
    requires LineOk(s) && a in s.sessions && s.line != [] && s.line[0] == a && t.line == s.line[1..]
    requires a in t.sessions && t.sessions == s.sessions[a := t.sessions[a]] && !t.sessions[a].phase.Waiting?
    ensures LineOk(t)
  {
    forall c | c in t.sessions && t.sessions[c].phase.Waiting? ensures c in t.line {
      assert c in s.line;
      var i :| 0 <= i < |s.line| && s.line[i] == c;
      assert t.line[i - 1] == c;
    }
    forall i | 0 <= i < |t.line| ensures t.line[i] in t.sessions && t.sessions[t.line[i]].phase.Waiting? {
      assert t.line[i] == s.line[i + 1] && s.line[0] != s.line[i + 1];
    }
  }

  lemma {:induction false} LastJoinsLine(s: State, t: State, a: nat)
    requires LineOk(s) && a in s.sessions && a !in s.line && t.line == s.line + [a]
    requires a in t.sessions && t.sessions == s.sessions[a := t.sessions[a]] && t.sessions[a].phase.Waiting?
    ensures LineOk(t)
  {
    forall c | c in t.sessions && t.sessions[c].phase.Waiting? ensures c in t.line {
      if c != a {
        assert c in s.line;
      }
    }
  }

  lemma {:induction false} OutOfLine(s: State, t: State, a: nat)
    requires LineOk(s) && a in s.sessions && a !in s.line && t.line == s.line
    requires a in t.sessions && t.sessions == s.sessions[a := t.sessions[a]] && !t.sessions[a].phase.Waiting?
    ensures LineOk(t)
  {
  }

  lemma {:induction false} StepLine(s: State, step: Step)
    requires RoutesOk(s) && SessionsOk(s) && LineOk(s) && Enabled(s, step)
    ensures LineOk(Apply(s, step))
  {
    if Actor(step).Some? {
      var t, a := Apply(s, step), Actor(step).value;
      LineMoves(s, step);
      if step.Acquire? {
        FirstLeavesLine(s, t, a);
      } else if Moved(s, step).phase.Waiting? {
        LastJoinsLine(s, t, a);
      } else {
        OutOfLine(s, t, a);
      }
    }
  }

  /** The registry changes only while nobody holds the lock. */
  lemma {:induction false} ChangeNeedsNoGuard(s: State, step: Step)
    requires Enabled(s, step) && Apply(s, step).routes != s.routes
    ensures Unguarded(s) && step.Acquire? && Writes(s.sessions[step.c])
  {
    WrittenIs(s.routes, step.c, s.sessions[step.c]);
  }

  /** A session takes the lock for an acknowledgement with the route that the registry has at that moment. */
  lemma {:induction false} GuardIsFresh(s: State, step: Step)
    requires RoutesOk(s) && Enabled(s, step) && Actor(step).Some?
    requires Moved(s, step).phase.Acknowledging?
    ensures var e := Moved(s, step).phase.entry;
      Apply(s, step).routes == s.routes && Find(s.routes.byPrefix, Prefix(e.peer)) == Some(e)
  {
    var x := s.sessions[Actor(step).value];
    if step.Receive? {
      LockIsTakenWhenNeeded(EMPTY, EMPTY, x.registered, step.frame);
    } else if step.Acquire? {
      WrittenIs(s.routes, step.c, x);
      LockIsTakenWhenNeeded(s.routes, s.routes, x.registered, x.phase.request.frame);
    }
  }

  lemma {:induction false} StepGuards(s: State, step: Step)
    requires RoutesOk(s) && GuardsOk(s) && Enabled(s, step)
    ensures GuardsOk(Apply(s, step))
  {
    var t := Apply(s, step);
    forall c | Holds(t, c)
      ensures var e := t.sessions[c].phase.entry; Find(t.routes.byPrefix, Prefix(e.peer)) == Some(e)
    {
      if Actor(step) == Some(c) {
        GuardIsFresh(s, step);
      } else {
        KeysGrow(s, step, c);
        assert Holds(s, c);
        if t.routes != s.routes {
          ChangeNeedsNoGuard(s, step);
        }
      }
    }
  }

  // ---------- the log ----------

  lemma {:induction false} MadeIsOk(s: State, step: Step)
    requires RoutesOk(s) && SessionsOk(s) && Enabled(s, step) && Made(s, step).Some?
    ensures DeliveryOk(s, Made(s, step).value) && Actor(step) == Some(Made(s, step).value.origin)
  {
    assert SessionOk(s, s.sessions[Actor(step).value]);
  }

  lemma {:induction false} DeliveryGrows(s: State, t: State, d: Delivery)
    requires Grows(s, t) && DeliveryOk(s, d)
    ensures DeliveryOk(t, d)
  {
  }

  lemma {:induction false} StepLog(s: State, step: Step)
    requires RoutesOk(s) && SessionsOk(s) && LogOk(s) && Enabled(s, step)
    ensures LogOk(Apply(s, step))
  {
    var t := Apply(s, step);
    StepGrows(s, step);
    forall i | 0 <= i < |t.log| ensures DeliveryOk(t, t.log[i]) {
      if i == |s.log| {
        MadeIsOk(s, step);
        DeliveryGrows(s, t, t.log[i]);
      } else {
        DeliveryGrows(s, t, s.log[i]);
      }
    }
  }

  // ---------- order ----------

  lemma {:induction false} TakenRank(x: Session, f: Frame)
    requires x.phase.Idle?
    ensures NextRank(x) <= NextRank(Taken(x, f))
  {
  }

  lemma {:induction false} GrantedRank(r: Routes, x: Session)
    requires x.phase.Waiting?
    ensures NextRank(x) <= NextRank(Granted(r, x))
  {
  }

  /** Ranks never go back, and a delivery uses up its rank. */
  lemma {:induction false} RankAdvances(s: State, step: Step)
    requires Enabled(s, step) && Actor(step).Some? && SessionOk(s, s.sessions[Actor(step).value])
    ensures var x, y := s.sessions[Actor(step).value], Moved(s, step);
      && NextRank(x) <= NextRank(y)
      && (Made(s, step).Some? ==> NextRank(x) <= Rank(Made(s, step).value) < NextRank(y))
  {
    var x := s.sessions[Actor(step).value];
    match step
    case Receive(_, f) => TakenRank(x, f);
    case Acquire(_) => GrantedRank(s.routes, x);
    case _ =>
  }

  /** A log stays ordered when at most one delivery is added, by a session whose rank passes it. */
  lemma {:induction false} OrderExtends(log: seq<Delivery>, sessions: map<nat, Session>, after: map<nat, Session>,
                                        made: Option<Delivery>)
    requires RankBounded(log, sessions) && RankSorted(log)
    requires forall c :: c in sessions ==> c in after && NextRank(sessions[c]) <= NextRank(after[c])
    requires made.Some? ==>
      && made.value.origin in sessions
      && NextRank(sessions[made.value.origin]) <= Rank(made.value) < NextRank(after[made.value.origin])
    ensures var longer := log + (if made.Some? then [made.value] else []);
      RankBounded(longer, after) && RankSorted(longer)
  {
  }

  lemma {:induction false} StepOrder(s: State, step: Step)
    requires RoutesOk(s) && SessionsOk(s) && OrderOk(s) && Enabled(s, step)
    ensures OrderOk(Apply(s, step))
  {
    var t := Apply(s, step);
    if Actor(step).Some? {
      RankAdvances(s, step);
    }
    if Made(s, step).Some? {
      MadeIsOk(s, step);
    }
    forall c | c in s.sessions ensures c in t.sessions && NextRank(s.sessions[c]) <= NextRank(t.sessions[c]) {
      if Actor(step) != Some(c) {
        OtherSessions(s, step, c);
      }
    }
    OrderExtends(s.log, s.sessions, t.sessions, Made(s, step));
  }

  // ---------- queues ----------

  /** Channel `c` gains exactly the delivery made to it, at the end of its queue, and stays within capacity. */
  lemma {:induction false} StepChannel(s: State, step: Step, c: nat)
    requires Enabled(s, step) && c in s.channels
    ensures c in ChannelsAfter(s, step)
    ensures var before, after, d := s.channels[c], ChannelsAfter(s, step)[c], Made(s, step);
      && after.sent + after.queue
         == before.sent + before.queue + (if d.Some? && d.value.to == c then [d.value.frame] else [])
      && (|before.queue| <= QUEUE_CAPACITY ==> |after.queue| <= QUEUE_CAPACITY)
  {
    var before, after, d := s.channels[c], ChannelsAfter(s, step)[c], Made(s, step);
    if step == Transmit(c) {
      assert before.queue == before.queue[..1] + before.queue[1..];
    } else if d.Some? && d.value.to == c {
      assert before.sent + (before.queue + [d.value.frame]) == before.sent + before.queue + [d.value.frame];
    }
  }

  lemma {:induction false} FifoAt(log: seq<Delivery>, d: Option<Delivery>, c: nat, before: Channel, after: Channel)
    requires FramesOf(DeliveriesTo(log, c)) == before.sent + before.queue
    requires after.sent + after.queue
      == before.sent + before.queue + (if d.Some? && d.value.to == c then [d.value.frame] else [])
    ensures FramesOf(DeliveriesTo(log + (if d.Some? then [d.value] else []), c)) == after.sent + after.queue
  {
    if d.Some? {
      assert (log + [d.value])[..|log|] == log;
    } else {
      assert log + [] == log;
    }
  }

  lemma {:induction false} StepFifo(s: State, step: Step)
    requires RoutesOk(s) && FifoOk(s) && LogOk(s) && Enabled(s, step)
    ensures FifoOk(Apply(s, step))
  {
    var t := Apply(s, step);
    forall c | c in t.channels
      ensures FramesOf(DeliveriesTo(t.log, c)) == t.channels[c].sent + t.channels[c].queue
      ensures |t.channels[c].queue| <= QUEUE_CAPACITY
    {
      if c in s.channels {
        StepChannel(s, step, c);
        FifoAt(s.log, Made(s, step), c, s.channels[c], t.channels[c]);
      } else {
        KeysGrow(s, step, c);
        assert t.log == s.log;
        NobodyDeliversTo(s, c);
      }
    }
  }

  lemma {:induction false} NobodyDeliversTo(s: State, c: nat)
    requires LogOk(s) && c !in s.channels
    ensures DeliveriesTo(s.log, c) == []
    decreases |s.log|
  {
    if s.log != [] {
      var n := |s.log| - 1;
      var shorter := s.(log := s.log[..n]);
      forall i | 0 <= i < n ensures DeliveryOk(shorter, shorter.log[i]) {
        assert DeliveryOk(s, s.log[i]);
      }
      assert DeliveryOk(s, s.log[n]);
      NobodyDeliversTo(shorter, c);
    }
  }

  // ---------- every run ----------

  lemma {:induction false} StepKeepsInv(s: State, step: Step)
    requires Inv(s) && Enabled(s, step)
    ensures Inv(Apply(s, step))
  {
    StepRoutes(s, step);
    StepSessions(s, step);
    StepLine(s, step);
    StepGuards(s, step);
    StepLog(s, step);
    StepOrder(s, step);
    StepFifo(s, step);
  }

  lemma {:induction false} RunKeepsInv(s: State, steps: seq<Step>)
    requires Inv(s) && ValidRun(s, steps)
    ensures Inv(Exec(s, steps))
    decreases steps
  {
    if steps != [] {
      StepKeepsInv(s, steps[0]);
      RunKeepsInv(Apply(s, steps[0]), steps[1..]);
    }
  }

  lemma {:induction false} InitInv()
    ensures Inv(INIT)
  {
  }
}
