/** The registry lock at work: what an acknowledgement's guard protects, whom it makes wait and for what, and which
    sessions can wait for ever when some peers do not read. */
module RelayProgress {
  import opened Bytes
  import opened Frames
  import opened Registry
  import opened RelayLogic
  import opened RelayMachine
  import opened RelayInvariants
  import opened RelayTheorems
  import opened Messages
  import RelayRefinement

  // ---------- what may happen at any time ----------

  /** In every reachable state, a connection may come in; a session that runs and is between two frames may get any frame
      that fits, and its stream may end or fail; and any writer that is there may send what is queued, or stop. */
  lemma {:induction false} MayHappen(s: State, c: nat, f: Frame)
    requires IdsOk(s)
    ensures Enabled(s, Connect)
    ensures var between := c in s.sessions && s.sessions[c].running && s.sessions[c].phase.Idle?;
      && (Enabled(s, Receive(c, f)) <==> between && Fits(f))
      && (Enabled(s, CleanExit(c)) <==> between) && (Enabled(s, ErrorExit(c)) <==> between)
    ensures var there := c in s.channels && s.channels[c].open;
      && (Enabled(s, WriterStops(c)) <==> there) && (Enabled(s, Transmit(c)) <==> there && s.channels[c].queue != [])
  {
  }

  // ---------- the guard pins the registry ----------

  /** While a session holds the lock for its receipt, the registry does not change, whatever all others do. */
  lemma {:induction false} GuardFreezesRoutes(s: State, steps: seq<Step>, c: nat)
    requires Inv(s) && ValidRun(s, steps) && Holds(s, c) && Bystanders(steps, c)
    ensures var t := Exec(s, steps);
      t.routes == s.routes && c in t.sessions && t.sessions[c] == s.sessions[c]
    decreases steps
  {
    if steps != [] {
      var t := Apply(s, steps[0]);
      assert Actor(steps[0]) != Some(c);
      if t.routes != s.routes {
        ChangeNeedsNoGuard(s, steps[0]);
      }
      OtherSessions(s, steps[0], c);
      StepKeepsInv(s, steps[0]);
      GuardFreezesRoutes(t, steps[1..], c);
    }
  }

  /** What a session that took the lock for a receipt holds: the route under the frame's session id. */
  lemma {:induction false} GuardIsLookup(r: Routes, x: Session, f: Frame)
    requires x.phase == Waiting(Handle(f)) && Granted(r, x).phase.Acknowledging?
    ensures var y := Granted(r, x);
      && y.registered == x.registered && y.phase == PhaseOf(r, Decide(r, x.registered, f))
      && Find(r.byPrefix, f.sessionId) == Some(y.phase.entry)
  {
  }

  /** Looking up the route of a receipt and sending the receipt may be seen as one step: whenever the receipt is sent,
      it goes where a lookup at that very moment would send it. */
  lemma {:induction false} ReceiptIsOneStep(s: State, t: State, c: nat, f: Frame, a: seq<Step>)
    requires Inv(s) && Enabled(s, Acquire(c)) && s.sessions[c].phase == Waiting(Handle(f))
    requires t == Apply(s, Acquire(c)) && Holds(t, c) && ValidRun(t, a) && Bystanders(a, c)
    ensures var u := Exec(t, a);
      && u.routes == s.routes && Holds(u, c)
      && u.sessions[c].phase == PhaseOf(u.routes, Decide(u.routes, u.sessions[c].registered, f))
      && Find(u.routes.byPrefix, f.sessionId) == Some(u.sessions[c].phase.entry)
  {
    assert t.sessions[c] == Granted(s.routes, s.sessions[c]);
    GuardIsLookup(s.routes, s.sessions[c], f);
    GuardIsFresh(s, Acquire(c));
    StepKeepsInv(s, Acquire(c));
    GuardFreezesRoutes(t, a, c);
  }

  /** The frame is an acknowledgement for a prefix that is routed. */
  ghost predicate AcksRoute(r: Routes, f: Frame) {
    && f.sessionId != ROUTE_REGISTRATION_ID && f.sessionId != ECHO_ROUTE_ID && f.sessionId in r.byPrefix
    && DecodeClient(f.payload).Ok? && DecodeClient(f.payload).value.1.CAck?
  }

  lemma {:induction false} AckDecides(r: Routes, p: PeerId, f: Frame)
    requires Agree(r) && Fits(f) && AcksRoute(r, f)
    ensures Access(Some(p), f) == Some(Shared)
    ensures var q := PhaseOf(r, Decide(r, Some(p), f)); q.Acknowledging? && q.entry == r.byPrefix[f.sessionId]
  {
    DecisionIsSound(r, Some(p), f);
  }

  /** Every ready, registered session can get hold of the lock: an acknowledgement for a prefix that is routed takes it,
      when nobody is in line, and keeps it. */
  lemma {:induction false} AckTakesGuard(s: State, c: nat, p: PeerId, f: Frame)
    requires Agree(s.routes) && Ready(s, c) && s.sessions[c].registered == Some(p) && s.line == []
    requires Fits(f) && AcksRoute(s.routes, f)
    ensures Enabled(s, Receive(c, f))
    ensures var m := Apply(s, Receive(c, f));
      && Enabled(m, Acquire(c)) && Holds(Apply(m, Acquire(c)), c)
      && Apply(m, Acquire(c)).sessions[c].phase.entry == s.routes.byPrefix[f.sessionId]
  {
    var x := s.sessions[c];
    AckDecides(s.routes, p, f);
    RelayRefinement.ReceiveStep(s, c, f);
    RelayRefinement.TakenLocks(s.routes, c, x, f);
    RelayRefinement.AcquireStep(s, Apply(s, Receive(c, f)), c, Taken(x, f));
  }

  // ---------- when a registry write can proceed ----------

  /** First in line, and asking for the exclusive lock. */
  ghost predicate FirstWriter(s: State, c: nat) {
    && s.line != [] && s.line[0] == c
    && c in s.sessions && s.sessions[c].phase.Waiting? && Writes(s.sessions[c])
  }

  /** The sessions that hold the lock with a receipt for queue `k`. */
  ghost function HoldersFor(s: State, k: nat): set<nat> {
    set c | c in s.sessions && Holds(s, c) && s.sessions[c].phase.entry.conn == k
  }

  /** Every queue has room for all the receipts that are waiting for it. */
  ghost predicate ReceiptsFit(s: State) {
    forall k :: k in s.channels && s.channels[k].open ==> |s.channels[k].queue| + |HoldersFor(s, k)| <= QUEUE_CAPACITY
  }

  /** Neither do writer tasks take frames out of their queues, nor do they stop. */
  ghost predicate WritersRest(steps: seq<Step>) {
    forall i :: 0 <= i < |steps| ==> !steps[i].Transmit? && !steps[i].WriterStops?
  }

  lemma {:induction false} UnguardedFits(s: State)
    requires FifoOk(s) && Unguarded(s)
    ensures ReceiptsFit(s)
  {
    forall k | k in s.channels ensures HoldersFor(s, k) == {} {
    }
  }

  /** Behind a waiting writer nobody gets the lock. */
  lemma {:induction false} WriterStaysFirst(s: State, step: Step, c: nat)
    requires Inv(s) && Enabled(s, step) && FirstWriter(s, c) && step != Acquire(c)
    ensures !step.Acquire? && FirstWriter(Apply(s, step), c)
  {
    if Actor(step).Some? {
      LineMoves(s, step);
    }
    assert c in s.line;
    OtherSessions(s, step, c);
  }

  /** Without the lock being taken anew, holders only become fewer, each putting its receipt into its queue. */
  lemma {:induction false} HoldersAfter(s: State, step: Step, k: nat)
    requires Enabled(s, step) && !step.Acquire? && k in s.channels
    ensures HoldersFor(Apply(s, step), k) ==
      if step.Confirm? && s.sessions[step.c].phase.entry.conn == k then HoldersFor(s, k) - {step.c} else HoldersFor(s, k)
    ensures step.Confirm? && s.sessions[step.c].phase.entry.conn == k ==> step.c in HoldersFor(s, k)
  {
    var t := Apply(s, step);
    if Actor(step).Some? {
      NoNewHolder(s, step);
    }
    forall c: nat
      ensures c in HoldersFor(t, k) <==> c in HoldersFor(s, k) && !(step == Confirm(c))
    {
      KeysGrow(s, step, c);
      if c in s.sessions && Actor(step) != Some(c) {
        OtherSessions(s, step, c);
      }
    }
  }

  lemma {:induction false} NoNewHolder(s: State, step: Step)
    requires Enabled(s, step) && !step.Acquire? && Actor(step).Some?
    ensures !Moved(s, step).phase.Acknowledging? && (step.Confirm? || !Holds(s, Actor(step).value))
  {
    if step.Receive? {
      LockIsTakenWhenNeeded(EMPTY, EMPTY, s.sessions[step.c].registered, step.frame);
    }
  }

  /** While the writer tasks rest, room gets scarcer. */
  lemma {:induction false} QueuesFill(s: State, step: Step, k: nat)
    requires Enabled(s, step) && !step.Transmit? && !step.WriterStops? && !step.Connect?
    requires k in s.channels && s.channels[k].open
    ensures k in ChannelsAfter(s, step) && ChannelsAfter(s, step)[k].open
    ensures |ChannelsAfter(s, step)[k].queue| == |s.channels[k].queue|
      + (if Made(s, step).Some? && Made(s, step).value.to == k then 1 else 0)
  {
  }

  lemma {:induction false} FitsBackwards(s: State, step: Step)
    requires Enabled(s, step) && !step.Transmit? && !step.WriterStops? && !step.Acquire?
    requires ReceiptsFit(Apply(s, step))
    ensures ReceiptsFit(s)
  {
    var t := Apply(s, step);
    forall k | k in s.channels && s.channels[k].open
      ensures |s.channels[k].queue| + |HoldersFor(s, k)| <= QUEUE_CAPACITY
    {
      HoldersAfter(s, step, k);
      if !step.Connect? {
        QueuesFill(s, step, k);
      }
      assert k in t.channels && t.channels[k].open;
    }
  }

  lemma {:induction false} RestContinues(steps: seq<Step>)
    requires WritersRest(steps) && steps != []
    ensures WritersRest(steps[1..])
  {
  }

  lemma {:induction false} WriteNeedsRoom(s: State, c: nat, steps: seq<Step>)
    requires Inv(s) && FirstWriter(s, c) && ValidRun(s, steps) && WritersRest(steps)
    requires FirstWriter(Exec(s, steps), c) ==> Unguarded(Exec(s, steps))
    ensures ReceiptsFit(s)
    decreases steps
  {
    if steps == [] || steps[0] == Acquire(c) {
      UnguardedFits(s);
    } else {
      assert !steps[0].Transmit? && !steps[0].WriterStops?;
      WriterStaysFirst(s, steps[0], c);
      StepKeepsInv(s, steps[0]);
      RestContinues(steps);
      WriteNeedsRoom(Apply(s, steps[0]), c, steps[1..]);
      FitsBackwards(s, steps[0]);
    }
  }

  /** A holder whose receipt fits can send it. */
  lemma {:induction false} HolderConfirms(s: State, g: nat)
    requires SessionsOk(s) && Holds(s, g) && ReceiptsFit(s)
    ensures Enabled(s, Confirm(g))
  {
    assert SessionOk(s, s.sessions[g]);
    assert g in HoldersFor(s, s.sessions[g].phase.entry.conn);
  }

  lemma {:induction false} FitsForwards(s: State, g: nat)
    requires Enabled(s, Confirm(g)) && ReceiptsFit(s)
    ensures ReceiptsFit(Apply(s, Confirm(g)))
  {
    var t := Apply(s, Confirm(g));
    forall k | k in t.channels && t.channels[k].open
      ensures |t.channels[k].queue| + |HoldersFor(t, k)| <= QUEUE_CAPACITY
    {
      KeysGrow(s, Confirm(g), k);
      HoldersAfter(s, Confirm(g), k);
      ChannelsGrow(s, Confirm(g), k);
      QueuesFill(s, Confirm(g), k);
    }
  }

  ghost function Holders(s: State): set<nat> {
    set c | c in s.sessions && Holds(s, c)
  }

  lemma {:induction false} FewerHolders(s: State, g: nat)
    requires Enabled(s, Confirm(g))
    ensures |Holders(Apply(s, Confirm(g)))| < |Holders(s)|
  {
    assert g in Holders(s);
    assert Holders(Apply(s, Confirm(g))) == Holders(s) - {g};
  }

  /** One holder sends its receipt; the others can still send theirs. */
  lemma {:induction false} OneHolderLess(s: State, c: nat, g: nat)
    requires Inv(s) && FirstWriter(s, c) && ReceiptsFit(s) && Holds(s, g)
    ensures Enabled(s, Confirm(g))
    ensures var t := Apply(s, Confirm(g));
      Inv(t) && FirstWriter(t, c) && ReceiptsFit(t) && |Holders(t)| < |Holders(s)|
  {
    HolderConfirms(s, g);
    FitsForwards(s, g);
    FewerHolders(s, g);
    WriterStaysFirst(s, Confirm(g), c);
    StepKeepsInv(s, Confirm(g));
  }

  lemma {:induction false} RestPrepends(s: State, g: nat, c: nat, rest: seq<Step>)
    requires Enabled(s, Confirm(g)) && ValidRun(Apply(s, Confirm(g)), rest) && WritersRest(rest)
    requires Enabled(Exec(Apply(s, Confirm(g)), rest), Acquire(c))
    ensures var steps := [Confirm(g)] + rest;
      ValidRun(s, steps) && WritersRest(steps) && Enabled(Exec(s, steps), Acquire(c))
  {
    RunOf(s, Confirm(g), rest);
  }

  lemma {:induction false} RoomAdmitsWrite(s: State, c: nat) returns (steps: seq<Step>)
    requires Inv(s) && FirstWriter(s, c) && ReceiptsFit(s)
    ensures ValidRun(s, steps) && WritersRest(steps) && Enabled(Exec(s, steps), Acquire(c))
    decreases |Holders(s)|
  {
    if g :| Holds(s, g) {
      OneHolderLess(s, c, g);
      var rest := RoomAdmitsWrite(Apply(s, Confirm(g)), c);
      RestPrepends(s, g, c, rest);
      steps := [Confirm(g)] + rest;
    } else {
      steps := [];
    }
  }

  /** While the writer tasks rest, the registration, eviction or cleanup that is first in line can get the lock, now or
      after some run of the sessions, if and only if every queue has room for all the receipts that sessions holding
      the lock have for it. Otherwise it waits until a writer task goes on, and nobody behind it can overtake. */
  lemma {:induction false} WriteProceedsIff(s: State, c: nat)
    requires Inv(s) && FirstWriter(s, c)
    ensures (exists steps :: ValidRun(s, steps) && WritersRest(steps) && Enabled(Exec(s, steps), Acquire(c)))
      <==> ReceiptsFit(s)
    ensures !ReceiptsFit(s) ==> forall steps, d ::
      ValidRun(s, steps) && WritersRest(steps) ==> FirstWriter(Exec(s, steps), c) && !Enabled(Exec(s, steps), Acquire(d))
  {
    if steps :| ValidRun(s, steps) && WritersRest(steps) && Enabled(Exec(s, steps), Acquire(c)) {
      WriteNeedsRoom(s, c, steps);
    }
    if ReceiptsFit(s) {
      var steps := RoomAdmitsWrite(s, c);
    } else {
      forall steps, d | ValidRun(s, steps) && WritersRest(steps)
        ensures FirstWriter(Exec(s, steps), c) && !Enabled(Exec(s, steps), Acquire(d))
      {
        if !FirstWriter(Exec(s, steps), c) || Unguarded(Exec(s, steps)) {
          WriteNeedsRoom(s, c, steps);
        }
      }
    }
  }

  /** One acknowledgement for a full queue is enough: until a writer task goes on, neither the registration, eviction or
      cleanup that is first in line nor anybody behind it gets the lock, whatever the sessions do. */
  lemma {:induction false} FullQueueHoldsUpWriters(s: State, g: nat, c: nat, steps: seq<Step>, d: nat)
    requires Inv(s) && FirstWriter(s, c) && Holds(s, g) && ValidRun(s, steps) && WritersRest(steps)
    requires var k := s.sessions[g].phase.entry.conn;
      k in s.channels && s.channels[k].open && |s.channels[k].queue| == QUEUE_CAPACITY
    ensures !Enabled(Exec(s, steps), Acquire(d))
  {
    NoRoomForReceipt(s, g);
    WriteProceedsIff(s, c);
  }

  lemma {:induction false} NoRoomForReceipt(s: State, g: nat)
    requires Holds(s, g)
    requires var k := s.sessions[g].phase.entry.conn;
      k in s.channels && s.channels[k].open && |s.channels[k].queue| == QUEUE_CAPACITY
    ensures !ReceiptsFit(s)
  {
    assert g in HoldersFor(s, s.sessions[g].phase.entry.conn);
  }

  // ---------- every wait ends at a full queue ----------

  /** The step with which session `c` goes on. */
  function Next(s: State, c: nat): Step
    requires c in s.sessions && !s.sessions[c].phase.Idle?
  {
    match s.sessions[c].phase
    case Waiting(_) => Acquire(c)
    case Answering(_, _) => Respond(c)
    case Forwarding(_) => Deliver(c)
    case Acknowledging(_, _) => Confirm(c)
  }

  ghost predicate Busy(s: State, c: nat) {
    c in s.sessions && !s.sessions[c].phase.Idle?
  }

  ghost predicate CanMove(s: State, c: nat) {
    Busy(s, c) && Enabled(s, Next(s, c))
  }

  /** The queue that a session is about to put a frame into. */
  function Target(c: nat, p: Phase): nat
    requires !p.Idle? && !p.Waiting?
  {
    match p
    case Answering(_, _) => c
    case Forwarding(fw) => fw.entry.conn
    case Acknowledging(e, _) => e.conn
  }

  /** Session `c` is about to put a frame into queue `k`, which is full, and whose writer takes the next frame out
      as soon as its peer reads. */
  ghost predicate FacesFullQueue(s: State, c: nat, k: nat) {
    && Busy(s, c) && !s.sessions[c].phase.Waiting? && k == Target(c, s.sessions[c].phase)
    && k in s.channels && |s.channels[k].queue| == 256 && Enabled(s, Transmit(k))
  }

  /** Whom a session waits for: a session in line for the first in line, and a writer who is first for every holder. */
  ghost predicate WaitsFor(s: State, c: nat, g: nat) {
    Busy(s, c) && s.sessions[c].phase.Waiting? && s.line != []
    && (if s.line[0] != c then g == s.line[0] else Writes(s.sessions[c]) && Holds(s, g))
  }

  lemma {:induction false} TargetIsKnown(s: State, c: nat)
    requires IdsOk(s) && SessionsOk(s) && Busy(s, c) && !s.sessions[c].phase.Waiting?
    ensures Target(c, s.sessions[c].phase) in s.channels && InPhase(s, c)
  {
    assert SessionOk(s, s.sessions[c]);
  }

  lemma {:induction false} SenderWaitsIff(s: State, c: nat)
    requires Inv(s) && Busy(s, c) && !s.sessions[c].phase.Waiting?
    ensures !CanMove(s, c) <==> FacesFullQueue(s, c, Target(c, s.sessions[c].phase))
  {
    TargetIsKnown(s, c);
    SenderMoves(s, c, Target(c, s.sessions[c].phase));
  }

  lemma {:induction false} SenderMoves(s: State, c: nat, k: nat)
    requires Busy(s, c) && !s.sessions[c].phase.Waiting? && k == Target(c, s.sessions[c].phase) && InPhase(s, c)
    requires k in s.channels && |s.channels[k].queue| <= QUEUE_CAPACITY
    ensures !CanMove(s, c) <==> FacesFullQueue(s, c, k)
  {
  }

  lemma {:induction false} WaiterWaitsIff(s: State, c: nat)
    requires LineOk(s) && Busy(s, c) && s.sessions[c].phase.Waiting?
    ensures !CanMove(s, c) <==> exists g :: WaitsFor(s, c, g)
    ensures forall g :: WaitsFor(s, c, g) ==> Busy(s, g) && g != c
  {
    assert c in s.line;
    if s.line[0] != c {
      assert WaitsFor(s, c, s.line[0]);
    } else if g :| Holds(s, g) {
      assert Writes(s.sessions[c]) ==> WaitsFor(s, c, g);
    }
  }

  /** A busy session cannot go on exactly when it faces a full queue, or waits for another busy session. */
  lemma {:induction false} WaitsIff(s: State, c: nat)
    requires Inv(s) && Busy(s, c)
    ensures !CanMove(s, c) <==> (exists k :: FacesFullQueue(s, c, k)) || (exists g :: WaitsFor(s, c, g))
    ensures forall g :: WaitsFor(s, c, g) ==> Busy(s, g) && g != c
  {
    if s.sessions[c].phase.Waiting? {
      WaiterWaitsIff(s, c);
    } else {
      SenderWaitsIff(s, c);
    }
  }

  ghost predicate Unstuck(s: State, c: nat) {
    CanMove(s, c) || exists k :: FacesFullQueue(s, c, k)
  }

  /** Following who waits for whom, at most twice, leads from every busy session to one that can go on, or to one that
      faces a full queue. */
  lemma {:induction false} WaitEndsAtAQueue(s: State, c: nat) returns (g: nat)
    requires Inv(s) && Busy(s, c)
    ensures g == c || WaitsFor(s, c, g) || exists h :: WaitsFor(s, c, h) && WaitsFor(s, h, g)
    ensures Unstuck(s, g)
  {
    g := c;
    var h := OneWait(s, c);
    if h != c {
      g := OneWait(s, h);
      if g != h {
        SenderIsUnstuck(s, g);
      }
    }
  }

  /** A session that is stuck itself waits for another one, and a first writer for one that has its lock already. */
  lemma {:induction false} OneWait(s: State, c: nat) returns (g: nat)
    requires Inv(s) && Busy(s, c)
    ensures g == c ==> Unstuck(s, c)
    ensures g != c ==> WaitsFor(s, c, g) && Busy(s, g) && (s.line[0] == c ==> Holds(s, g))
    ensures g != c && s.line[0] != c ==> g == s.line[0]
  {
    g := c;
    if s.sessions[c].phase.Waiting? {
      WaiterWaitsIff(s, c);
      if !CanMove(s, c) {
        g :| WaitsFor(s, c, g);
      }
    } else {
      SenderIsUnstuck(s, c);
    }
  }

  lemma {:induction false} SenderIsUnstuck(s: State, c: nat)
    requires Inv(s) && Busy(s, c) && !s.sessions[c].phase.Waiting?
    ensures Unstuck(s, c)
  {
    SenderWaitsIff(s, c);
  }

  // ---------- left alone, the relay comes to rest ----------

  /** A step that needs nothing from outside, where only the peers of the connections in `reading` read what is sent. */
  predicate Internal(step: Step, reading: set<nat>) {
    step.Acquire? || step.Respond? || step.Deliver? || step.Confirm? || (step.Transmit? && step.c in reading)
  }

  /** Session `g` faces a full queue that nobody reads. */
  ghost predicate FacesSilence(s: State, reading: set<nat>, g: nat) {
    exists k :: FacesFullQueue(s, g, k) && k !in reading
  }

  /** Session `c` is stuck: it faces a full queue that nobody reads, or it is in line behind, or is itself, a writer that
      waits for an acknowledgement that does. */
  ghost predicate Stuck(s: State, reading: set<nat>, c: nat) {
    || FacesSilence(s, reading, c)
    || (&& Busy(s, c) && s.sessions[c].phase.Waiting? && s.line != [] && FirstWriter(s, s.line[0])
        && exists g :: Holds(s, g) && FacesSilence(s, reading, g))
  }

  /** Every session is ready or stuck, and the readers have been sent everything. */
  ghost predicate Halted(s: State, reading: set<nat>) {
    && (forall c :: Busy(s, c) ==> Stuck(s, reading, c))
    && (forall k :: k in s.channels && s.channels[k].open && k in reading ==> s.channels[k].queue == [])
  }

  ghost predicate NothingMoves(s: State, reading: set<nat>) {
    forall step :: Internal(step, reading) ==> !Enabled(s, step)
  }

  lemma {:induction false} StillSender(s: State, reading: set<nat>, c: nat)
    requires Inv(s) && NothingMoves(s, reading) && Busy(s, c) && !s.sessions[c].phase.Waiting?
    ensures FacesSilence(s, reading, c)
  {
    var k := Target(c, s.sessions[c].phase);
    SenderWaitsIff(s, c);
    assert Internal(Next(s, c), reading);
    assert FacesFullQueue(s, c, k);
    assert Internal(Transmit(k), reading) <==> k in reading;
  }

  lemma {:induction false} StillWaiter(s: State, reading: set<nat>, c: nat)
    requires Inv(s) && NothingMoves(s, reading) && Busy(s, c) && s.sessions[c].phase.Waiting?
    ensures Stuck(s, reading, c)
  {
    assert c in s.line;
    var h := s.line[0];
    assert Busy(s, h) && Next(s, h) == Acquire(h) && Internal(Acquire(h), reading);
    WaiterWaitsIff(s, h);
    var g :| WaitsFor(s, h, g);
    StillSender(s, reading, g);
  }

  lemma {:induction false} SilencedStaysPut(s: State, reading: set<nat>, c: nat)
    requires FacesSilence(s, reading, c)
    ensures !CanMove(s, c)
  {
  }

  lemma {:induction false} StuckStaysPut(s: State, reading: set<nat>, c: nat)
    requires Busy(s, c) && Stuck(s, reading, c)
    ensures !CanMove(s, c)
  {
    if FacesSilence(s, reading, c) {
      SilencedStaysPut(s, reading, c);
    }
  }

  lemma {:induction false} OnlyNextMoves(s: State, step: Step)
    requires Enabled(s, step) && (step.Acquire? || step.Respond? || step.Deliver? || step.Confirm?)
    ensures CanMove(s, step.c)
  {
  }

  /** No internal step is possible exactly when every busy session is stuck at a full queue that nobody reads, directly or
      through the lock, and the readers have been sent everything. Then these are exactly the sessions that are busy. */
  lemma {:induction false} HaltsIff(s: State, reading: set<nat>)
    requires Inv(s)
    ensures NothingMoves(s, reading) <==> Halted(s, reading)
    ensures Halted(s, reading) ==> forall c :: Busy(s, c) <==> Stuck(s, reading, c)
  {
    if NothingMoves(s, reading) {
      forall c | Busy(s, c) ensures Stuck(s, reading, c) {
        if s.sessions[c].phase.Waiting? {
          StillWaiter(s, reading, c);
        } else {
          StillSender(s, reading, c);
        }
      }
      forall k | k in s.channels && s.channels[k].open && k in reading ensures s.channels[k].queue == [] {
        assert Internal(Transmit(k), reading);
      }
    }
    if Halted(s, reading) {
      forall step | Internal(step, reading) ensures !Enabled(s, step) {
        if !step.Transmit? && Enabled(s, step) {
          OnlyNextMoves(s, step);
          StuckStaysPut(s, reading, step.c);
        }
      }
    }
  }

  /** All frames are handled, and everything queued for a writer that is still there has been sent. */
  ghost predicate AtRest(s: State) {
    && (forall c :: !Busy(s, c))
    && (forall k :: k in s.channels && s.channels[k].open ==> s.channels[k].queue == [])
  }

  /** If all peers read, the relay halts only when everything is done: it never deadlocks. */
  lemma {:induction false} ReadersLeaveNothing(s: State, reading: set<nat>)
    requires Halted(s, reading) && forall k :: k in s.channels ==> k in reading
    ensures AtRest(s)
  {
  }

  /** An upper bound of the steps that a session still takes for its current frame. */
  function StepsLeft(p: Phase): nat {
    match p
    case Idle => 0
    case Waiting(request) => if request.Handle? then 4 else 1
    case Answering(_, _) => 3
    case Forwarding(_) => 2
    case Acknowledging(_, _) => 1
  }

  ghost function Work(sessions: map<nat, Session>, n: nat): nat {
    if n == 0 then 0
    else Work(sessions, n - 1) + (if n in sessions then StepsLeft(sessions[n].phase) else 0)
  }

  ghost function Backlog(channels: map<nat, Channel>, n: nat): nat {
    if n == 0 then 0
    else Backlog(channels, n - 1) + (if n in channels then |channels[n].queue| else 0)
  }

  lemma {:induction false} WorkUpdate(sessions: map<nat, Session>, n: nat, c: nat, x: Session)
    requires c in sessions && c >= 1
    ensures Work(sessions[c := x], n)
      == Work(sessions, n) + (if c <= n then StepsLeft(x.phase) - StepsLeft(sessions[c].phase) else 0)
  {
    if n > 0 {
      WorkUpdate(sessions, n - 1, c, x);
    }
  }

  lemma {:induction false} BacklogUpdate(channels: map<nat, Channel>, n: nat, k: nat, ch: Channel)
    requires k in channels && k >= 1
    ensures Backlog(channels[k := ch], n)
      == Backlog(channels, n) + (if k <= n then |ch.queue| - |channels[k].queue| else 0)
  {
    if n > 0 {
      BacklogUpdate(channels, n - 1, k, ch);
    }
  }

  /** What there is to do: each remaining step of a session may add one frame to a queue. */
  ghost function Load(s: State): nat {
    2 * Work(s.sessions, s.nextId) + Backlog(s.channels, s.nextId)
  }

  lemma {:induction false} MovedHasLess(s: State, step: Step, reading: set<nat>)
    requires RoutesOk(s) && SessionsOk(s) && Enabled(s, step) && Internal(step, reading) && Actor(step).Some?
    ensures StepsLeft(Moved(s, step).phase) < StepsLeft(s.sessions[Actor(step).value].phase)
  {
    if step.Acquire? {
      GrantedHasLess(s, s.sessions[step.c]);
    }
  }

  lemma {:induction false} GrantedHasLess(s: State, x: Session)
    requires RoutesOk(s) && SessionOk(s, x) && x.phase.Waiting?
    ensures StepsLeft(Granted(s.routes, x).phase) < StepsLeft(x.phase)
  {
    GrantedIsOk(s, x);
  }

  lemma {:induction false} BacklogGrowth(s: State, step: Step, reading: set<nat>)
    requires IdsOk(s) && Enabled(s, step) && Internal(step, reading)
    ensures Backlog(ChannelsAfter(s, step), s.nextId) <= Backlog(s.channels, s.nextId) + (if step.Transmit? then -1 else 1)
  {
    if step.Transmit? {
      BacklogUpdate(s.channels, s.nextId, step.c, Transmitted(s.channels[step.c]));
    } else if Made(s, step).Some? {
      var d := Made(s, step).value;
      BacklogUpdate(s.channels, s.nextId, d.to, Put(s.channels[d.to], d.frame));
    }
  }

  lemma {:induction false} StepLightens(s: State, step: Step, reading: set<nat>)
    requires Inv(s) && Enabled(s, step) && Internal(step, reading)
    ensures Load(Apply(s, step)) < Load(s)
  {
    BacklogGrowth(s, step, reading);
    if !step.Transmit? {
      MovedHasLess(s, step, reading);
      WorkUpdate(s.sessions, s.nextId, Actor(step).value, Moved(s, step));
    }
  }

  ghost predicate AllInternal(steps: seq<Step>, reading: set<nat>) {
    forall i :: 0 <= i < |steps| ==> Internal(steps[i], reading)
  }

  /** With no new frames, connections or failures, every run ends, after a number of steps bounded by the load, whoever
      reads. */
  lemma {:induction false} InternalRunsEnd(s: State, steps: seq<Step>, reading: set<nat>)
    requires Inv(s) && ValidRun(s, steps) && AllInternal(steps, reading)
    ensures |steps| + Load(Exec(s, steps)) <= Load(s)
    decreases steps
  {
    if steps != [] {
      StepLightens(s, steps[0], reading);
      StepKeepsInv(s, steps[0]);
      InternalRunsEnd(Apply(s, steps[0]), steps[1..], reading);
    }
  }

  lemma {:induction false} InternalPrepends(s: State, step: Step, rest: seq<Step>, reading: set<nat>)
    requires Internal(step, reading) && Enabled(s, step) && ValidRun(Apply(s, step), rest) && AllInternal(rest, reading)
    ensures ValidRun(s, [step] + rest) && AllInternal([step] + rest, reading)
    ensures Exec(s, [step] + rest) == Exec(Apply(s, step), rest)
  {
    RunOf(s, step, rest);
  }

  /** From every reachable state the relay can finish everything that does not depend on a peer that does not read; by
      `InternalRunsEnd` and `HaltsIff` it does so however the internal steps are scheduled. */
  lemma {:induction false} ComesToRest(s: State, reading: set<nat>) returns (steps: seq<Step>)
    requires Inv(s)
    ensures ValidRun(s, steps) && AllInternal(steps, reading) && Halted(Exec(s, steps), reading)
    decreases Load(s)
  {
    HaltsIff(s, reading);
    if Halted(s, reading) {
      steps := [];
    } else {
      var step :| Internal(step, reading) && Enabled(s, step);
      StepLightens(s, step, reading);
      StepKeepsInv(s, step);
      var rest := ComesToRest(Apply(s, step), reading);
      InternalPrepends(s, step, rest, reading);
      steps := [step] + rest;
    }
  }

  lemma {:induction false} SameKeys(s: State, step: Step, reading: set<nat>)
    requires Enabled(s, step) && Internal(step, reading)
    ensures Apply(s, step).channels.Keys == s.channels.Keys
  {
    forall k ensures k in Apply(s, step).channels <==> k in s.channels {
      KeysGrow(s, step, k);
    }
  }

  /** Internal runs bring no new connections. */
  lemma {:induction false} SameChannels(s: State, steps: seq<Step>, reading: set<nat>)
    requires ValidRun(s, steps) && AllInternal(steps, reading)
    ensures Exec(s, steps).channels.Keys == s.channels.Keys
    decreases steps
  {
    if steps != [] {
      SameKeys(s, steps[0], reading);
      SameChannels(Apply(s, steps[0]), steps[1..], reading);
    }
  }

  /** If all peers read, everything begun gets done. */
  lemma {:induction false} ReadersMeanRest(s: State) returns (steps: seq<Step>)
    requires Inv(s)
    ensures ValidRun(s, steps) && AllInternal(steps, s.channels.Keys) && AtRest(Exec(s, steps))
  {
    steps := ComesToRest(s, s.channels.Keys);
    SameChannels(s, steps, s.channels.Keys);
    ReadersLeaveNothing(Exec(s, steps), s.channels.Keys);
  }
}
