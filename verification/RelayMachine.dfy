/** The routed relay as interleaved steps of its sessions and writer tasks over one shared registry and its lock. */
module RelayMachine {
  import opened Bytes
  import opened Frames
  import opened Messages
  import opened Registry
  import opened RelayLogic

  const QUEUE_CAPACITY: nat := 256

  /** What a session asks for the registry lock for: to handle a frame, to take a route away after a failed send, or
      to take its own route away when it leaves. */
  datatype Request = Handle(frame: Frame) | Remove(entry: Entry) | Leave

  /** Where a session stands between two frames: in line for the lock, or with something to put into a queue. A session
      that acknowledges keeps the shared lock until its receipt is in the queue; all others have released it. */
  datatype Phase =
    | Idle
    | Waiting(request: Request)
    | Answering(response: Frame, next: Option<Forward>)
    | Forwarding(forward: Forward)
    | Acknowledging(entry: Entry, receipt: Frame)

  /** `inputs` remembers the frames taken from the peer, `identities` every id the session ever registered. */
  datatype Session = Session(
    registered: Option<PeerId>, phase: Phase, running: bool, inputs: seq<Frame>, identities: set<PeerId>)

  const NEW_SESSION: Session := Session(None, Idle, true, [], {})

  /** A bounded outgoing queue, what its writer has put on the wire, and whether the writer still receives. */
  datatype Channel = Channel(queue: seq<Frame>, sent: seq<Frame>, open: bool)

  const NEW_CHANNEL: Channel := Channel([], [], true)

  /** History: session `origin`, registered as `sender`, put `frame` into the queue of connection `to`, found under
      the id `recipient`, while processing its input frame number `index`. */
  datatype Delivery = Delivery(
    origin: nat, sender: PeerId, to: nat, recipient: PeerId, kind: Kind, frame: Frame, index: nat)

  /** `line` holds the sessions waiting for the lock, first come first served. */
  datatype State = State(
    routes: Routes, line: seq<nat>, sessions: map<nat, Session>, channels: map<nat, Channel>, nextId: nat,
    log: seq<Delivery>)

  const INIT: State := State(EMPTY, [], map[], map[], 1, [])

  datatype Step =
    | Connect
    | Receive(c: nat, frame: Frame)
    | Acquire(c: nat)
    | Respond(c: nat)
    | Deliver(c: nat)
    | Confirm(c: nat)
    | CleanExit(c: nat)
    | ErrorExit(c: nat)
    | Transmit(c: nat)
    | WriterStops(c: nat)

  /** The one session a step acts on, if any. */
  function Actor(step: Step): Option<nat> {
    match step
    case Connect => None
    case Transmit(_) => None
    case WriterStops(_) => None
    case Receive(c, _) => Some(c)
    case Acquire(c) => Some(c)
    case Respond(c) => Some(c)
    case Deliver(c) => Some(c)
    case Confirm(c) => Some(c)
    case CleanExit(c) => Some(c)
    case ErrorExit(c) => Some(c)
  }

  // ---------- when a step can happen ----------

  predicate Ready(s: State, c: nat) {
    c in s.sessions && s.sessions[c].running && s.sessions[c].phase.Idle? && c in s.channels
  }

  /** A send completes when there is room, or fails at once when the receiver is gone. */
  predicate CanTake(channels: map<nat, Channel>, k: nat) {
    k in channels && (channels[k].open ==> |channels[k].queue| < QUEUE_CAPACITY)
  }

  predicate InPhase(s: State, c: nat) {
    c in s.sessions && s.sessions[c].registered.Some? && |s.sessions[c].inputs| > 0
  }

  /** The session holds the shared lock. */
  predicate Holds(s: State, c: nat) {
    c in s.sessions && s.sessions[c].phase.Acknowledging?
  }

  ghost predicate Unguarded(s: State) {
    forall c :: !Holds(s, c)
  }

  /** The lock that a waiting session asks for is the exclusive one. */
  predicate Writes(x: Session)
    requires x.phase.Waiting?
  {
    match x.phase.request
    case Handle(f) => Access(x.registered, f) == Some(Exclusive)
    case Remove(_) => true
    case Leave => true
  }

  /** The lock is fair: whoever is first in line gets it, a reader at once, a writer when nobody holds it. Exclusive use
      lasts for a single step, so that only acknowledging sessions ever hold the lock between steps. */
  ghost predicate Enabled(s: State, step: Step) {
    match step
    case Connect => s.nextId !in s.sessions && s.nextId !in s.channels
    case Receive(c, f) => Ready(s, c) && Fits(f)
    case Acquire(c) =>
      && c in s.sessions && s.sessions[c].phase.Waiting?
      && s.line != [] && s.line[0] == c && (Writes(s.sessions[c]) ==> Unguarded(s))
    case Respond(c) => InPhase(s, c) && s.sessions[c].phase.Answering? && CanTake(s.channels, c)
    case Deliver(c) =>
      && InPhase(s, c) && s.sessions[c].phase.Forwarding?
      && CanTake(s.channels, s.sessions[c].phase.forward.entry.conn)
    case Confirm(c) =>
      && InPhase(s, c) && s.sessions[c].phase.Acknowledging?
      && CanTake(s.channels, s.sessions[c].phase.entry.conn)
    case CleanExit(c) => Ready(s, c)
    case ErrorExit(c) => Ready(s, c)
    case Transmit(c) => c in s.channels && s.channels[c].open && s.channels[c].queue != []
    case WriterStops(c) => c in s.channels && s.channels[c].open
  }

  // ---------- what a step does ----------

  function AfterAnswer(next: Option<Forward>): Phase {
    match next case None => Idle case Some(fw) => Forwarding(fw)
  }

  /** How a session goes on after a decision made under registry `r`. */
  function PhaseOf(r: Routes, out: Outcome): Phase {
    match out
    case Register(_) => Idle
    case Discard => Idle
    case Answer(None, next) => AfterAnswer(next)
    case Answer(Some(response), next) => Answering(response, next)
    case PassOn(fw) => Forwarding(fw)
    case Acknowledge(target, receipt) =>
      if receipt.Some? && target in r.byPrefix then Acknowledging(r.byPrefix[target], receipt.value) else Idle
  }

  /** Taking a frame: the session gets in line for the lock, or settles the frame without looking at the registry. */
  function Taken(x: Session, f: Frame): Session {
    x.(inputs := x.inputs + [f],
       phase := if Access(x.registered, f).Some? then Waiting(Handle(f))
                else PhaseOf(EMPTY, Decide(EMPTY, x.registered, f)))
  }

  /** Getting the lock: the session sees registry `r`. */
  function Granted(r: Routes, x: Session): Session
    requires x.phase.Waiting?
  {
    match x.phase.request
    case Handle(f) =>
      var out := Decide(r, x.registered, f);
      if out.Register? then
        x.(phase := Idle, registered := Some(out.peer), identities := x.identities + {out.peer})
      else x.(phase := PhaseOf(r, out))
    case Remove(_) => x.(phase := Idle)
    case Leave => x.(phase := Idle, running := false)
  }

  /** The registry after session `x` of connection `c` has had the lock. */
  function Written(r: Routes, c: nat, x: Session): Routes
    requires x.phase.Waiting?
  {
    match x.phase.request
    case Handle(f) => if Access(x.registered, f) == Some(Exclusive) then Inserted(r, f.payload, c) else r
    case Remove(e) => Removed(r, e.peer, e.conn)
    case Leave => if x.registered.Some? then Removed(r, x.registered.value, c) else r
  }

  /** The acting session after its step. */
  ghost function Moved(s: State, step: Step): Session
    requires Enabled(s, step) && Actor(step).Some?
  {
    var x := s.sessions[Actor(step).value];
    match step
    case Receive(_, f) => Taken(x, f)
    case Acquire(_) => Granted(s.routes, x)
    case Respond(_) => x.(phase := AfterAnswer(x.phase.next))
    case Deliver(_) =>
      var e := x.phase.forward.entry;
      x.(phase := if s.channels[e.conn].open then Idle else Waiting(Remove(e)))
    case Confirm(_) => x.(phase := Idle)
    case CleanExit(_) => if x.registered.Some? then x.(phase := Waiting(Leave)) else x.(running := false)
    case ErrorExit(_) => x.(running := false)
  }

  /** What a step offers to a queue. */
  ghost function Offer(s: State, step: Step): Option<Delivery>
    requires Enabled(s, step)
  {
    match step
    case Respond(c) =>
      var x := s.sessions[c];
      Some(Delivery(c, x.registered.value, c, x.registered.value, Response, x.phase.response, |x.inputs| - 1))
    case Deliver(c) =>
      var x := s.sessions[c];
      var fw := x.phase.forward;
      Some(Delivery(c, x.registered.value, fw.entry.conn, fw.entry.peer, fw.kind, fw.frame, |x.inputs| - 1))
    case Confirm(c) =>
      var x := s.sessions[c];
      var e := x.phase.entry;
      Some(Delivery(c, x.registered.value, e.conn, e.peer, Receipt, x.phase.receipt, |x.inputs| - 1))
    case _ => None
  }

  /** The delivery that a step makes: what it offers to a queue that still has a receiver. */
  ghost function Made(s: State, step: Step): Option<Delivery>
    requires Enabled(s, step)
  {
    match Offer(s, step)
    case None => None
    case Some(d) => if s.channels[d.to].open then Some(d) else None
  }

  function Put(ch: Channel, f: Frame): Channel {
    ch.(queue := ch.queue + [f])
  }

  function Transmitted(ch: Channel): Channel
    requires ch.queue != []
  {
    ch.(queue := ch.queue[1..], sent := ch.sent + [ch.queue[0]])
  }

  ghost function RoutesAfter(s: State, step: Step): Routes
    requires Enabled(s, step)
  {
    if step.Acquire? then Written(s.routes, step.c, s.sessions[step.c]) else s.routes
  }

  ghost function LineAfter(s: State, step: Step): seq<nat>
    requires Enabled(s, step)
  {
    if step.Acquire? then s.line[1..]
    else if Actor(step).Some? && Moved(s, step).phase.Waiting? then s.line + [Actor(step).value]
    else s.line
  }

  ghost function SessionsAfter(s: State, step: Step): map<nat, Session>
    requires Enabled(s, step)
  {
    if step.Connect? then s.sessions[s.nextId := NEW_SESSION]
    else if Actor(step).Some? then s.sessions[Actor(step).value := Moved(s, step)]
    else s.sessions
  }

  ghost function ChannelsAfter(s: State, step: Step): map<nat, Channel>
    requires Enabled(s, step)
  {
    if step.Connect? then s.channels[s.nextId := NEW_CHANNEL]
    else if step.Transmit? then s.channels[step.c := Transmitted(s.channels[step.c])]
    else if step.WriterStops? then s.channels[step.c := s.channels[step.c].(open := false)]
    else
      var d := Made(s, step);
      if d.Some? then s.channels[d.value.to := Put(s.channels[d.value.to], d.value.frame)] else s.channels
  }

  ghost function Apply(s: State, step: Step): State
    requires Enabled(s, step)
  {
    State(RoutesAfter(s, step), LineAfter(s, step), SessionsAfter(s, step), ChannelsAfter(s, step),
          if step.Connect? then s.nextId + 1 else s.nextId,
          s.log + (if Made(s, step).Some? then [Made(s, step).value] else []))
  }

  // ---------- runs ----------

  ghost predicate ValidRun(s: State, steps: seq<Step>)
    decreases steps
  {
    steps == [] || (Enabled(s, steps[0]) && ValidRun(Apply(s, steps[0]), steps[1..]))
  }

  ghost function Exec(s: State, steps: seq<Step>): State
    requires ValidRun(s, steps)
    decreases steps
  {
    if steps == [] then s else Exec(Apply(s, steps[0]), steps[1..])
  }

  lemma {:induction false} RunOf(s: State, first: Step, rest: seq<Step>)
    requires Enabled(s, first) && ValidRun(Apply(s, first), rest)
    ensures ValidRun(s, [first] + rest) && Exec(s, [first] + rest) == Exec(Apply(s, first), rest)
  {
    assert ([first] + rest)[1..] == rest;
  }
}
