/** The client's request/response correlation: issued ids, the pending table, and what resolves a waiting request. */
module Correlation {
  import opened Bytes
  import opened Frames
  import opened Envelopes
  import opened Messages

  /** A decoded message from the relay with its envelope. */
  datatype Arrival = Arrival(envelope: Envelope, message: ServerMessage)

  /** Waiters are numbered as they are created. `calls` lists handler invocations, oldest first. */
  datatype Inbox = Inbox(
    pending: map<u64, nat>, waiters: nat, resolved: map<nat, ServerMessage>,
    handlers: seq<nat>, calls: seq<(nat, ServerMessage)>)

  const EMPTY_INBOX: Inbox := Inbox(map[], 0, map[], [], [])

  function Registered(box: Inbox, id: u64): Inbox {
    box.(pending := box.pending[id := box.waiters], waiters := box.waiters + 1)
  }

  function CallAll(handlers: seq<nat>, m: ServerMessage): (r: seq<(nat, ServerMessage)>)
    ensures |r| == |handlers| && forall i :: 0 <= i < |r| ==> r[i] == (handlers[i], m)
  {
    seq(|handlers|, i requires 0 <= i < |handlers| => (handlers[i], m))
  }

  predicate Correlates(a: Arrival) {
    IsResponse(ServerType(a.message)) && a.envelope.correlationId != 0
  }

  function Dispatched(box: Inbox, a: Arrival): Inbox {
    var id := a.envelope.correlationId;
    if Correlates(a) && id in box.pending then
      box.(pending := box.pending - {id}, resolved := box.resolved[box.pending[id] := a.message])
    else if IsEvent(ServerType(a.message)) then
      box.(calls := box.calls + CallAll(box.handlers, a.message))
    else box
  }

  class ClientInboundRouter {
    var pendingRequests: map<u64, nat>
    var waiters: nat
    var resolved: map<nat, ServerMessage>
    var eventHandlers: seq<nat>
    var calls: seq<(nat, ServerMessage)>

    ghost function View(): Inbox
      reads this
    {
      Inbox(pendingRequests, waiters, resolved, eventHandlers, calls)
    }

    constructor ()
      ensures View() == EMPTY_INBOX
    {
      pendingRequests, waiters, resolved, eventHandlers, calls := map[], 0, map[], [], [];
    }

    method RegisterPending(messageId: u64) returns (waiter: nat)
      modifies this
      ensures View() == Registered(old(View()), messageId)
      ensures waiter == old(waiters) && pendingRequests[messageId] == waiter
    {
      waiter := waiters;
      waiters := waiters + 1;
      pendingRequests := pendingRequests[messageId := waiter];
    }

    method AddEventHandler(handler: nat)
      modifies this
      ensures View() == old(View()).(handlers := old(eventHandlers) + [handler])
    {
      eventHandlers := eventHandlers + [handler];
    }

    /** A response to a pending request wakes exactly that waiter; an event reaches every handler, in order of
        registration; anything else is dropped. */
    method Dispatch(a: Arrival)
      modifies this
      ensures View() == Dispatched(old(View()), a)
    {
      if IsResponse(ServerType(a.message)) && a.envelope.correlationId != 0 {
        var id := a.envelope.correlationId;
        if id in pendingRequests {
          var sender := pendingRequests[id];
          pendingRequests := pendingRequests - {id};
          resolved := resolved[sender := a.message];
          return;
        }
      }
      if IsEvent(ServerType(a.message)) {
        ghost var before := calls;
        var handlers := eventHandlers;
        for i := 0 to |handlers|
          invariant calls == before + CallAll(handlers, a.message)[..i]
          invariant View() == old(View()).(calls := calls)
        {
          calls := calls + [(handlers[i], a.message)];
        }
        assert CallAll(handlers, a.message)[..|handlers|] == CallAll(handlers, a.message);
      }
    }
  }

  // ---------- sending ----------

  datatype SendError = EncodingFailed(cause: ProtocolError) | ChannelClosed

  class ClientOutboundRouter {
    var counter: u64
    var outbound: seq<Frame>

    constructor ()
      ensures counter == 1 && outbound == []
    {
      counter, outbound := 1, [];
    }

    /** Ids count up from 1 and wrap around at 2^64. */
    method NextMessageId() returns (id: u64)
      modifies this`counter
      ensures id == old(counter) && counter == (old(counter) as int + 1) % 0x1_0000_0000_0000_0000
    {
      id := counter;
      counter := (counter as int + 1) % 0x1_0000_0000_0000_0000;
    }

    /** An id is used up even when nothing is sent. What is queued decodes, at the relay, to the message under the
        id that is returned. */
    method SendMessage(sessionId: SessionId, m: ClientMessage, timestamp: u64, open: bool)
      returns (r: Result<u64, SendError>)
      modifies this
      ensures counter == (old(counter) as int + 1) % 0x1_0000_0000_0000_0000
      ensures r.Ok? <==> open && |ClientPayload(m)| <= MAX_ENVELOPE_PAYLOAD_SIZE
      ensures r.Err? ==> outbound == old(outbound)
      ensures r.Err? ==>
        r.error == (if |ClientPayload(m)| > MAX_ENVELOPE_PAYLOAD_SIZE
                    then EncodingFailed(PayloadTooLarge(|ClientPayload(m)|, MAX_ENVELOPE_PAYLOAD_SIZE)) else ChannelClosed)
      ensures r.Ok? ==>
        && r.value == old(counter) && |outbound| == |old(outbound)| + 1 && outbound[..|old(outbound)|] == old(outbound)
        && var f := outbound[|old(outbound)|];
           f.sessionId == sessionId && f.nonce == Repeat(0, 8) && Fits(f) && DecodeClient(f.payload)
             == Ok((Envelope(V1, ClientType(m), 0, old(counter), 0, timestamp, ClientPayload(m)), m))
    {
      var id := NextMessageId();
      ClientRoundTrip(m, id, 0, timestamp);
      var encoded := EncodeClient(m, id, 0, timestamp);
      if encoded.Err? {
        return Err(EncodingFailed(encoded.error));
      }
      var frame := NewFrame(sessionId, Repeat(0, 8), encoded.value);
      assert frame.Ok?;
      if !open {
        return Err(ChannelClosed);
      }
      outbound := outbound + [frame.value];
      return Ok(id);
    }
  }

  // ---------- every run of a client ----------

  /** `owner` and `cause` are history: the id each waiter was created for, and the arrival that resolved it. */
  datatype Client = Client(
    counter: nat, awaited: set<nat>, inbox: Inbox, owner: map<nat, nat>, cause: map<nat, Arrival>)

  const NEW_CLIENT: Client := Client(1, {}, EMPTY_INBOX, map[], map[])

  /** Issuing an id, starting to wait for it, and an arrival are separate steps: the client sends first. An event handler
      may be added at any time. */
  datatype Step = Issue | Await(id: nat) | Arrive(arrival: Arrival) | Subscribe(handler: nat)

  predicate Enabled(c: Client, step: Step) {
    match step
    case Issue => c.counter < 0x1_0000_0000_0000_0000
    case Await(id) => 1 <= id < c.counter && id < 0x1_0000_0000_0000_0000 && id !in c.awaited
    case Arrive(_) => true
    case Subscribe(_) => true
  }

  function Apply(c: Client, step: Step): Client
    requires Enabled(c, step)
  {
    match step
    case Issue => c.(counter := c.counter + 1)
    case Await(id) =>
      c.(awaited := c.awaited + {id}, inbox := Registered(c.inbox, id), owner := c.owner[c.inbox.waiters := id])
    case Arrive(a) =>
      var id := a.envelope.correlationId;
      c.(inbox := Dispatched(c.inbox, a),
         cause := if Correlates(a) && id in c.inbox.pending then c.cause[c.inbox.pending[id] := a] else c.cause)
    case Subscribe(h) => c.(inbox := c.inbox.(handlers := c.inbox.handlers + [h]))
  }

  ghost predicate ValidRun(c: Client, steps: seq<Step>)
    decreases steps
  {
    steps == [] || (Enabled(c, steps[0]) && ValidRun(Apply(c, steps[0]), steps[1..]))
  }

  ghost function Exec(c: Client, steps: seq<Step>): Client
    requires ValidRun(c, steps)
    decreases steps
  {
    if steps == [] then c else Exec(Apply(c, steps[0]), steps[1..])
  }

  /** At any time an arrival may come in and a handler be added; an id may be issued as long as there are any, and an
      issued one be waited for once. */
  lemma {:induction false} MayHappen(c: Client, a: Arrival, h: nat, id: nat)
    ensures Enabled(c, Arrive(a)) && Enabled(c, Subscribe(h))
    ensures Enabled(c, Issue) <==> c.counter < 0x1_0000_0000_0000_0000
    ensures Enabled(c, Await(id)) <==> 1 <= id < c.counter && id < 0x1_0000_0000_0000_0000 && id !in c.awaited
    ensures Enabled(c, Issue) ==> Apply(c, Issue) == c.(counter := c.counter + 1)
  {
  }

  /** Pending ids belong to their own unresolved waiters; every resolved waiter was resolved by a response carrying
      exactly the id it was created for; no two waiters share an id. */
  ghost predicate Inv(c: Client) {
    && (forall w :: w in c.owner <==> 0 <= w < c.inbox.waiters)
    && (forall w :: w in c.owner ==> c.owner[w] in c.awaited)
    && (forall w, x :: w in c.owner && x in c.owner && c.owner[w] == c.owner[x] ==> w == x)
    && (forall id :: id in c.inbox.pending ==>
          var w := c.inbox.pending[id]; w in c.owner && c.owner[w] == id && w !in c.inbox.resolved)
    && (forall w :: w in c.inbox.resolved <==> w in c.cause)
    && (forall w :: w in c.cause ==>
          && w in c.owner && Correlates(c.cause[w]) && c.cause[w].envelope.correlationId == c.owner[w]
          && c.cause[w].message == c.inbox.resolved[w])
  }

  lemma {:induction false} AwaitKeepsInv(c: Client, id: nat)
    requires Inv(c) && Enabled(c, Await(id))
    ensures Inv(Apply(c, Await(id)))
  {
    var w, d := c.inbox.waiters, Apply(c, Await(id));
    assert w !in c.owner && w !in c.cause && w !in c.inbox.resolved;
    forall j | j in d.inbox.pending
      ensures d.inbox.pending[j] in d.owner && d.owner[d.inbox.pending[j]] == j && d.inbox.pending[j] !in d.inbox.resolved
    {
      if j != id {
        assert j in c.inbox.pending;
      }
    }
    forall x, y | x in d.owner && y in d.owner && d.owner[x] == d.owner[y] ensures x == y {
      assert x != w ==> x in c.owner && c.owner[x] in c.awaited;
      assert y != w ==> y in c.owner && c.owner[y] in c.awaited;
    }
  }

  lemma {:induction false} AnswerKeepsInv(c: Client, a: Arrival, d: Client)
    requires Inv(c) && Correlates(a) && a.envelope.correlationId in c.inbox.pending
    requires var id := a.envelope.correlationId;
      var w := c.inbox.pending[id];
      d == c.(inbox := c.inbox.(pending := c.inbox.pending - {id}, resolved := c.inbox.resolved[w := a.message]),
              cause := c.cause[w := a])
    ensures Inv(d)
  {
    var id := a.envelope.correlationId;
    var w := c.inbox.pending[id];
    forall j | j in d.inbox.pending
      ensures d.inbox.pending[j] in d.owner && d.owner[d.inbox.pending[j]] == j && d.inbox.pending[j] !in d.inbox.resolved
    {
      assert j in c.inbox.pending && j != id;
    }
  }

  lemma {:induction false} StepKeepsInv(c: Client, step: Step)
    requires Inv(c) && Enabled(c, step)
    ensures Inv(Apply(c, step))
  {
    match step
    case Issue =>
    case Await(id) => AwaitKeepsInv(c, id);
    case Arrive(a) =>
      if Correlates(a) && a.envelope.correlationId in c.inbox.pending {
        AnswerKeepsInv(c, a, Apply(c, step));
      } else {
        EventLeavesTable(c.inbox, a);
        InvIgnoresEvents(c, Apply(c, step));
      }
    case Subscribe(_) => InvIgnoresEvents(c, Apply(c, step));
  }

  lemma {:induction false} InvIgnoresEvents(c: Client, d: Client)
    requires Inv(c) && d == c.(inbox := c.inbox.(calls := d.inbox.calls, handlers := d.inbox.handlers))
    ensures Inv(d)
  {
  }

  lemma {:induction false} ResolvedIsFinal(c: Client, step: Step)
    requires Inv(c) && Enabled(c, step)
    ensures forall w :: w in c.inbox.resolved ==>
      w in Apply(c, step).inbox.resolved && Apply(c, step).inbox.resolved[w] == c.inbox.resolved[w]
  {
  }

  /** In every run, a waiter is resolved at most once, for good, and only by a response carrying its own id. */
  lemma {:induction false} CorrelationIsSafe(c: Client, steps: seq<Step>)
    requires Inv(c) && ValidRun(c, steps)
    ensures var d := Exec(c, steps);
      && Inv(d)
      && forall w :: w in c.inbox.resolved ==> w in d.inbox.resolved && d.inbox.resolved[w] == c.inbox.resolved[w]
    decreases steps
  {
    if steps != [] {
      StepKeepsInv(c, steps[0]);
      ResolvedIsFinal(c, steps[0]);
      CorrelationIsSafe(Apply(c, steps[0]), steps[1..]);
    }
  }

  lemma {:induction false} NewClientInv()
    ensures Inv(NEW_CLIENT)
  {
  }

  // ---------- exactly which answers count ----------

  ghost predicate Answers(a: Arrival, id: u64) {
    Correlates(a) && a.envelope.correlationId == id
  }

  /** The first answer to `id` among the steps of a run. */
  ghost function FirstAnswer(steps: seq<Step>, id: u64): Option<Arrival>
    decreases steps
  {
    if steps == [] then None
    else if steps[0].Arrive? && Answers(steps[0].arrival, id) then Some(steps[0].arrival)
    else FirstAnswer(steps[1..], id)
  }

  lemma {:induction false} FirstAnswerIff(steps: seq<Step>, id: u64)
    ensures FirstAnswer(steps, id).Some? <==>
      exists j :: 0 <= j < |steps| && steps[j].Arrive? && Answers(steps[j].arrival, id)
    decreases steps
  {
    if steps != [] && !(steps[0].Arrive? && Answers(steps[0].arrival, id)) {
      FirstAnswerIff(steps[1..], id);
      if j :| 0 <= j < |steps| && steps[j].Arrive? && Answers(steps[j].arrival, id) {
        assert steps[1..][j - 1] == steps[j];
      }
    }
  }

  /** What has become of the waiter `w` of request `id`, given the first answer since it began to wait. */
  ghost predicate WaiterIs(d: Client, id: u64, w: nat, answer: Option<Arrival>) {
    && w in d.owner && d.owner[w] == id
    && (w in d.inbox.resolved <==> answer.Some?)
    && (answer.Some? ==> d.inbox.resolved[w] == answer.value.message && id !in d.inbox.pending)
    && (answer.None? ==> id in d.inbox.pending && d.inbox.pending[id] == w)
  }

  lemma {:induction false} OwnerStays(c: Client, step: Step, w: nat)
    requires Inv(c) && Enabled(c, step) && w in c.owner
    ensures w in Apply(c, step).owner && Apply(c, step).owner[w] == c.owner[w]
    ensures c.owner[w] !in c.inbox.pending ==> c.owner[w] !in Apply(c, step).inbox.pending
  {
  }

  lemma {:induction false} OwnersStay(c: Client, steps: seq<Step>, w: nat)
    requires Inv(c) && ValidRun(c, steps) && w in c.owner
    ensures w in Exec(c, steps).owner && Exec(c, steps).owner[w] == c.owner[w]
    ensures c.owner[w] !in c.inbox.pending ==> c.owner[w] !in Exec(c, steps).inbox.pending
    decreases steps
  {
    if steps != [] {
      OwnerStays(c, steps[0], w);
      StepKeepsInv(c, steps[0]);
      OwnersStay(Apply(c, steps[0]), steps[1..], w);
    }
  }

  /** A step either answers a pending request, which then leaves the table, or leaves its waiter pending. */
  lemma {:induction false} PendingStep(c: Client, step: Step, id: u64)
    requires Inv(c) && Enabled(c, step) && id in c.inbox.pending
    ensures var d, w := Apply(c, step), c.inbox.pending[id];
      && w in d.owner && d.owner[w] == id
      && (if step.Arrive? && Answers(step.arrival, id)
          then id !in d.inbox.pending && w in d.inbox.resolved && d.inbox.resolved[w] == step.arrival.message
          else id in d.inbox.pending && d.inbox.pending[id] == w)
  {
  }

  /** In every run, a pending request is resolved if and only if an answer to it arrives, and by the first one. */
  lemma {:induction false} PendingIsResolvedIff(c: Client, steps: seq<Step>, id: u64)
    requires Inv(c) && ValidRun(c, steps) && id in c.inbox.pending
    ensures WaiterIs(Exec(c, steps), id, c.inbox.pending[id], FirstAnswer(steps, id))
    decreases steps
  {
    if steps != [] {
      var d := Apply(c, steps[0]);
      PendingStep(c, steps[0], id);
      StepKeepsInv(c, steps[0]);
      if id in d.inbox.pending {
        PendingIsResolvedIff(d, steps[1..], id);
      } else {
        CorrelationIsSafe(d, steps[1..]);
        OwnersStay(d, steps[1..], c.inbox.pending[id]);
      }
    }
  }

  lemma {:induction false} LaterAnswerIff(steps: seq<Step>, i: nat, id: u64)
    requires i < |steps|
    ensures FirstAnswer(steps[i + 1..], id).Some? <==>
      exists j :: i < j < |steps| && steps[j].Arrive? && Answers(steps[j].arrival, id)
  {
    var later := steps[i + 1..];
    FirstAnswerIff(later, id);
    if j :| i < j < |steps| && steps[j].Arrive? && Answers(steps[j].arrival, id) {
      assert later[j - i - 1] == steps[j];
    }
    if j :| 0 <= j < |later| && later[j].Arrive? && Answers(later[j].arrival, id) {
      assert steps[j + i + 1] == later[j];
    }
  }

  lemma {:induction false} AwaitedIs(c: Client, id: u64, rest: seq<Step>)
    requires Inv(c) && Enabled(c, Await(id)) && ValidRun(Apply(c, Await(id)), rest)
    ensures WaiterIs(Exec(Apply(c, Await(id)), rest), id, c.inbox.waiters, FirstAnswer(rest, id))
  {
    AwaitKeepsInv(c, id);
    PendingIsResolvedIff(Apply(c, Await(id)), rest, id);
  }

  lemma {:induction false} WaiterAfter(c: Client, steps: seq<Step>, i: nat, id: u64) returns (w: nat)
    requires Inv(c) && ValidRun(c, steps) && i < |steps| && steps[i] == Await(id)
    ensures WaiterIs(Exec(c, steps), id, w, FirstAnswer(steps[i + 1..], id))
    decreases i
  {
    var d, rest := Apply(c, steps[0]), steps[1..];
    StepKeepsInv(c, steps[0]);
    if i == 0 {
      w := c.inbox.waiters;
      AwaitedIs(c, id, rest);
    } else {
      assert rest[i - 1] == steps[i] && rest[i..] == steps[i + 1..];
      w := WaiterAfter(d, rest, i - 1, id);
    }
  }

  /** In every run, the request whose waiter is registered by step `i` is resolved if and only if an answer to it
      arrives after that step, and by the first such answer; answers that came before are lost. */
  lemma {:induction false} AnswerCountsIff(steps: seq<Step>, i: nat, id: u64) returns (w: nat)
    requires ValidRun(NEW_CLIENT, steps) && i < |steps| && steps[i] == Await(id)
    ensures var d := Exec(NEW_CLIENT, steps);
      && w in d.owner && d.owner[w] == id
      && (w in d.inbox.resolved <==>
            exists j :: i < j < |steps| && steps[j].Arrive? && Answers(steps[j].arrival, id))
      && (w !in d.inbox.resolved <==> id in d.inbox.pending && d.inbox.pending[id] == w)
      && (w in d.inbox.resolved ==> Some(d.inbox.resolved[w]) == MessageOf(FirstAnswer(steps[i + 1..], id)))
  {
    NewClientInv();
    w := WaiterAfter(NEW_CLIENT, steps, i, id);
    LaterAnswerIff(steps, i, id);
  }

  function MessageOf(a: Option<Arrival>): Option<ServerMessage> {
    if a.Some? then Some(a.value.message) else None
  }

  /** The request is sent before its waiter is registered, so that, at any point of any run and for any request not yet
      waited for, an answer that is faster than the registration leaves the waiter pending. */
  lemma {:induction false} FastAnswerIsLost(c: Client, a: Arrival, id: u64) returns (w: nat)
    requires Inv(c) && 1 <= id < c.counter && id !in c.awaited && Answers(a, id)
    ensures ValidRun(c, [Arrive(a), Await(id)]) && WaiterIs(Exec(c, [Arrive(a), Await(id)]), id, w, None)
  {
    var steps := [Arrive(a), Await(id)];
    var d := Apply(c, Arrive(a));
    assert steps[1..] == [Await(id)] && steps[1..][1..] == [] && steps[2..] == [];
    assert ValidRun(Apply(d, Await(id)), []);
    assert ValidRun(d, [Await(id)]);
    w := WaiterAfter(c, steps, 1, id);
  }

  // ---------- exactly which handler calls an event causes ----------

  /** The arrival pushes an event: an incoming message, a delivery status, a peer event or a relay event. */
  predicate Pushes(a: Arrival) {
    a.message.SIncomingMessage? || a.message.SDeliveryStatus? || a.message.SPeerEvent? || a.message.SRelayEvent?
  }

  /** Step `j` of the run is the arrival of an event, and step `i`, before it, added a handler. */
  ghost predicate Owes(steps: seq<Step>, i: nat, j: nat) {
    i < j < |steps| && steps[i].Subscribe? && steps[j].Arrive? && Pushes(steps[j].arrival)
  }

  /** One handler call for one event: the steps that added the handler and brought the event. */
  datatype Slot = Slot(added: nat, brought: nat)

  predicate Sooner(x: Slot, y: Slot) {
    x.brought < y.brought || (x.brought == y.brought && x.added < y.added)
  }

  /** `slots` are exactly the owed calls, events in order of arrival, and for each event handlers in order of their
      registration. */
  ghost predicate AreOwed(steps: seq<Step>, slots: seq<Slot>) {
    && (forall k :: 0 <= k < |slots| ==> Owes(steps, slots[k].added, slots[k].brought))
    && (forall i: nat, j: nat :: Owes(steps, i, j) ==> Slot(i, j) in slots)
    && (forall k, l :: 0 <= k < l < |slots| ==> Sooner(slots[k], slots[l]))
  }

  ghost predicate AreMade(steps: seq<Step>, slots: seq<Slot>, calls: seq<(nat, ServerMessage)>)
    requires AreOwed(steps, slots)
  {
    && |calls| == |slots|
    && forall k :: 0 <= k < |calls| ==>
         && Owes(steps, slots[k].added, slots[k].brought)
         && calls[k] == (steps[slots[k].added].handler, steps[slots[k].brought].arrival.message)
  }

  /** `subs` are the steps that added a handler, in order, and `handlers` what they added. */
  ghost predicate AreAdded(steps: seq<Step>, subs: seq<nat>, handlers: seq<nat>) {
    && |handlers| == |subs|
    && (forall k :: 0 <= k < |subs| ==>
          subs[k] < |steps| && steps[subs[k]].Subscribe? && handlers[k] == steps[subs[k]].handler)
    && (forall i: nat :: i < |steps| && steps[i].Subscribe? ==> i in subs)
    && (forall k, l :: 0 <= k < l < |subs| ==> subs[k] < subs[l])
  }

  lemma {:induction false} RunLast(c: Client, steps: seq<Step>)
    requires ValidRun(c, steps) && steps != []
    ensures var n := |steps| - 1;
      && ValidRun(c, steps[..n]) && Enabled(Exec(c, steps[..n]), steps[n])
      && Exec(c, steps) == Apply(Exec(c, steps[..n]), steps[n])
    decreases steps
  {
    var n := |steps| - 1;
    if n == 0 {
      assert steps[..n] == [] && steps[1..] == [];
    } else {
      RunLast(Apply(c, steps[0]), steps[1..]);
      assert steps[..n][1..] == steps[1..][..n - 1] && steps[..n][0] == steps[0];
    }
  }

  lemma {:induction false} PushesIff(a: Arrival)
    ensures Pushes(a) <==> IsEvent(ServerType(a.message))
    ensures Pushes(a) ==> !IsResponse(ServerType(a.message))
  {
  }

  /** From `before` to `after`, each handler has been called once more, in order, with the message. */
  ghost predicate AllCalled(handlers: seq<nat>, before: seq<(nat, ServerMessage)>, after: seq<(nat, ServerMessage)>,
                            m: ServerMessage)
  {
    && |after| == |before| + |handlers| && after[..|before|] == before
    && forall k :: 0 <= k < |handlers| ==> after[|before| + k] == (handlers[k], m)
  }

  /** What one step does to the handlers and their calls. */
  lemma {:induction false} StepCalls(c: Client, step: Step)
    requires Enabled(c, step)
    ensures var box, after := c.inbox, Apply(c, step).inbox;
      && after.handlers == (if step.Subscribe? then box.handlers + [step.handler] else box.handlers)
      && (!(step.Arrive? && Pushes(step.arrival)) ==> after.calls == box.calls)
      && (step.Arrive? && Pushes(step.arrival) ==>
            AllCalled(box.handlers, box.calls, after.calls, step.arrival.message))
  {
    if step.Arrive? {
      PushesIff(step.arrival);
    }
  }

  lemma {:induction false} AddedExtends(steps: seq<Step>, step: Step, subs: seq<nat>, handlers: seq<nat>)
    requires AreAdded(steps, subs, handlers)
    ensures step.Subscribe? ==> AreAdded(steps + [step], subs + [|steps|], handlers + [step.handler])
    ensures !step.Subscribe? ==> AreAdded(steps + [step], subs, handlers)
  {
    var all := steps + [step];
    assert all[|steps|] == step;
    forall i: nat | i < |all| && all[i].Subscribe? && i < |steps| ensures i in subs {
      assert all[i] == steps[i];
    }
    forall k | 0 <= k < |subs| ensures all[subs[k]] == steps[subs[k]] {
    }
  }

  /** The calls that the event brought by step `n` is owed. */
  ghost function SlotsAt(subs: seq<nat>, n: nat): (slots: seq<Slot>)
    ensures |slots| == |subs| && forall k :: 0 <= k < |subs| ==> slots[k] == Slot(subs[k], n)
  {
    seq(|subs|, k requires 0 <= k < |subs| => Slot(subs[k], n))
  }

  lemma {:induction false} OwedStays(steps: seq<Step>, step: Step, i: nat, j: nat)
    requires j < |steps|
    ensures Owes(steps + [step], i, j) <==> Owes(steps, i, j)
  {
  }

  lemma {:induction false} QuietStep(steps: seq<Step>, step: Step, slots: seq<Slot>)
    requires AreOwed(steps, slots) && !(step.Arrive? && Pushes(step.arrival))
    ensures AreOwed(steps + [step], slots)
  {
    var all := steps + [step];
    forall k | 0 <= k < |slots| ensures Owes(all, slots[k].added, slots[k].brought) {
      OwedStays(steps, step, slots[k].added, slots[k].brought);
    }
    assert all[|steps|] == step;
    forall i: nat, j: nat | Owes(all, i, j) ensures Slot(i, j) in slots {
      OwedStays(steps, step, i, j);
    }
  }

  lemma {:induction false} EventStep(steps: seq<Step>, step: Step, slots: seq<Slot>, subs: seq<nat>, handlers: seq<nat>)
    requires AreOwed(steps, slots) && AreAdded(steps, subs, handlers) && step.Arrive? && Pushes(step.arrival)
    ensures AreOwed(steps + [step], slots + SlotsAt(subs, |steps|))
  {
    var all, n, more := steps + [step], |steps|, SlotsAt(subs, |steps|);
    var longer := slots + more;
    assert all[n] == step;
    forall k | 0 <= k < |longer| ensures Owes(all, longer[k].added, longer[k].brought) {
      if k < |slots| {
        OwedStays(steps, step, slots[k].added, slots[k].brought);
      } else {
        assert longer[k] == Slot(subs[k - |slots|], n) && all[subs[k - |slots|]] == steps[subs[k - |slots|]];
      }
    }
    forall i: nat, j: nat | Owes(all, i, j) ensures Slot(i, j) in longer {
      if j < n {
        OwedStays(steps, step, i, j);
      } else {
        assert all[i] == steps[i];
        var k :| 0 <= k < |subs| && subs[k] == i;
        assert longer[|slots| + k] == Slot(i, n);
      }
    }
    forall k, l | 0 <= k < l < |longer| ensures Sooner(longer[k], longer[l]) {
      if k < |slots| {
        assert longer[k] == slots[k] && slots[k].brought < n;
      }
    }
  }

  lemma {:induction false} CallsExtend(steps: seq<Step>, step: Step, slots: seq<Slot>, more: seq<Slot>,
                                       calls: seq<(nat, ServerMessage)>, added: seq<(nat, ServerMessage)>)
    requires AreOwed(steps, slots) && AreMade(steps, slots, calls) && AreOwed(steps + [step], slots + more)
    requires |added| == |more| && step.Arrive?
    requires forall k :: 0 <= k < |more| ==>
      more[k].brought == |steps| && more[k].added < |steps| && steps[more[k].added].Subscribe?
      && added[k] == (steps[more[k].added].handler, step.arrival.message)
    ensures AreMade(steps + [step], slots + more, calls + added)
  {
    var all, longer := steps + [step], slots + more;
    forall k | 0 <= k < |longer|
      ensures Owes(all, longer[k].added, longer[k].brought)
      ensures (calls + added)[k] == (all[longer[k].added].handler, all[longer[k].brought].arrival.message)
    {
      if k < |slots| {
        assert longer[k] == slots[k];
      } else {
        assert longer[k] == more[k - |slots|] && all[|steps|] == step;
      }
    }
  }

  lemma {:induction false} CallsStay(steps: seq<Step>, step: Step, slots: seq<Slot>, calls: seq<(nat, ServerMessage)>)
    requires AreOwed(steps, slots) && AreMade(steps, slots, calls) && AreOwed(steps + [step], slots)
    ensures AreMade(steps + [step], slots, calls)
  {
  }

  /** In every run of the client, the handler calls made are exactly those owed: for each event that arrives, one call of
      each handler that was added before it, with the event's message; events in order of arrival, and for one event the
      handlers in order of their registration. Responses, and arrivals that are no event, cause no call; neither does
      any other step. */
  lemma {:induction false} CallsAreOwed(steps: seq<Step>) returns (subs: seq<nat>, slots: seq<Slot>)
    requires ValidRun(NEW_CLIENT, steps)
    ensures AreAdded(steps, subs, Exec(NEW_CLIENT, steps).inbox.handlers)
    ensures AreOwed(steps, slots) && AreMade(steps, slots, Exec(NEW_CLIENT, steps).inbox.calls)
    decreases |steps|
  {
    if steps == [] {
      subs, slots := [], [];
    } else {
      var n := |steps| - 1;
      var before, step := steps[..n], steps[n];
      assert steps == before + [step];
      RunLast(NEW_CLIENT, steps);
      subs, slots := CallsAreOwed(before);
      subs, slots := OneMoreStep(before, step, Exec(NEW_CLIENT, before), subs, slots);
    }
  }

  /** The handlers, after one more step. */
  lemma {:induction false} OneMoreAdded(steps: seq<Step>, step: Step, c: Client, subs: seq<nat>) returns (subs': seq<nat>)
    requires Enabled(c, step) && AreAdded(steps, subs, c.inbox.handlers)
    ensures AreAdded(steps + [step], subs', Apply(c, step).inbox.handlers)
  {
    StepCalls(c, step);
    AddedExtends(steps, step, subs, c.inbox.handlers);
    subs' := if step.Subscribe? then subs + [|steps|] else subs;
  }

  /** The calls, after one more event. */
  lemma {:induction false} OneMoreEvent(steps: seq<Step>, step: Step, subs: seq<nat>, handlers: seq<nat>,
                                        slots: seq<Slot>, calls: seq<(nat, ServerMessage)>, after: seq<(nat, ServerMessage)>)
    requires AreAdded(steps, subs, handlers) && AreOwed(steps, slots) && AreMade(steps, slots, calls)
    requires step.Arrive? && Pushes(step.arrival)
    requires AllCalled(handlers, calls, after, step.arrival.message)
    ensures AreOwed(steps + [step], slots + SlotsAt(subs, |steps|))
    ensures AreMade(steps + [step], slots + SlotsAt(subs, |steps|), after)
  {
    var more, added := SlotsAt(subs, |steps|), after[|calls|..];
    EventStep(steps, step, slots, subs, handlers);
    assert after == calls + added;
    forall k | 0 <= k < |more| ensures added[k] == (steps[more[k].added].handler, step.arrival.message) {
      assert added[k] == after[|calls| + k];
    }
    CallsExtend(steps, step, slots, more, calls, added);
  }

  lemma {:induction false} OneMoreStep(steps: seq<Step>, step: Step, c: Client, subs: seq<nat>, slots: seq<Slot>)
    returns (subs': seq<nat>, slots': seq<Slot>)
    requires Enabled(c, step) && AreAdded(steps, subs, c.inbox.handlers)
    requires AreOwed(steps, slots) && AreMade(steps, slots, c.inbox.calls)
    ensures AreAdded(steps + [step], subs', Apply(c, step).inbox.handlers)
    ensures AreOwed(steps + [step], slots') && AreMade(steps + [step], slots', Apply(c, step).inbox.calls)
  {
    subs' := OneMoreAdded(steps, step, c, subs);
    slots' := OneMoreCalls(steps, step, c, subs, slots);
  }

  lemma {:induction false} OneMoreCalls(steps: seq<Step>, step: Step, c: Client, subs: seq<nat>, slots: seq<Slot>)
    returns (slots': seq<Slot>)
    requires Enabled(c, step) && AreAdded(steps, subs, c.inbox.handlers)
    requires AreOwed(steps, slots) && AreMade(steps, slots, c.inbox.calls)
    ensures AreOwed(steps + [step], slots') && AreMade(steps + [step], slots', Apply(c, step).inbox.calls)
  {
    StepCalls(c, step);
    if step.Arrive? && Pushes(step.arrival) {
      slots' := slots + SlotsAt(subs, |steps|);
      OneMoreEvent(steps, step, subs, c.inbox.handlers, slots, c.inbox.calls, Apply(c, step).inbox.calls);
    } else {
      slots' := slots;
      OneMoreQuiet(steps, step, slots, c.inbox.calls);
    }
  }

  lemma {:induction false} OneMoreQuiet(steps: seq<Step>, step: Step, slots: seq<Slot>, calls: seq<(nat, ServerMessage)>)
    requires AreOwed(steps, slots) && AreMade(steps, slots, calls) && !(step.Arrive? && Pushes(step.arrival))
    ensures AreOwed(steps + [step], slots) && AreMade(steps + [step], slots, calls)
  {
    QuietStep(steps, step, slots);
    CallsStay(steps, step, slots, calls);
  }

  // ---------- arrival order does not matter ----------

  ghost function DispatchAll(box: Inbox, arrivals: seq<Arrival>): Inbox
    decreases arrivals
  {
    if arrivals == [] then box else DispatchAll(Dispatched(box, arrivals[0]), arrivals[1..])
  }

  /** Different requests wait on different waiters, none of them resolved yet. */
  ghost predicate Tidy(box: Inbox) {
    && (forall i, j :: i in box.pending && j in box.pending && box.pending[i] == box.pending[j] ==> i == j)
    && (forall i :: i in box.pending ==> box.pending[i] !in box.resolved)
  }

  /** No two of the arrivals answer the same request. */
  ghost predicate Distinct(arrivals: seq<Arrival>) {
    forall i, j :: 0 <= i < j < |arrivals| && Correlates(arrivals[i]) && Correlates(arrivals[j]) ==>
      arrivals[i].envelope.correlationId != arrivals[j].envelope.correlationId
  }

  ghost predicate Answered(arrivals: seq<Arrival>, id: u64) {
    exists a :: a in arrivals && Answers(a, id)
  }

  // The outcome of a batch of arrivals, without reference to their order.

  /** Exactly the unanswered requests stay pending. */
  ghost predicate StaysPending(box: Inbox, arrivals: seq<Arrival>, after: Inbox) {
    && (forall id :: id in after.pending <==> id in box.pending && !Answered(arrivals, id))
    && (forall id :: id in after.pending ==> after.pending[id] == box.pending[id])
  }

  /** Nothing resolved before changes, and only waiters of answered requests become resolved. */
  ghost predicate OnlyAnswered(box: Inbox, arrivals: seq<Arrival>, after: Inbox) {
    && (forall w :: w in box.resolved ==> w in after.resolved && after.resolved[w] == box.resolved[w])
    && (forall w :: w in after.resolved ==>
          w in box.resolved || exists id :: id in box.pending && box.pending[id] == w && Answered(arrivals, id))
  }

  /** An answered request has its answer. */
  ghost predicate GetsAnswer(box: Inbox, arrivals: seq<Arrival>, after: Inbox) {
    forall a, id :: a in arrivals && id in box.pending && Answers(a, id) ==>
      box.pending[id] in after.resolved && after.resolved[box.pending[id]] == a.message
  }

  ghost predicate Outcome(box: Inbox, arrivals: seq<Arrival>, after: Inbox) {
    StaysPending(box, arrivals, after) && OnlyAnswered(box, arrivals, after) && GetsAnswer(box, arrivals, after)
  }

  lemma {:induction false} OneArrival(box: Inbox, a: Arrival)
    requires Tidy(box)
    ensures Tidy(Dispatched(box, a)) && Outcome(box, [a], Dispatched(box, a))
  {
    var after := Dispatched(box, a);
    var id := a.envelope.correlationId;
    forall j: u64 ensures Answered([a], j) <==> Answers(a, j) {
      AnsweredConcat(a, [], j);
    }
    if Correlates(a) && id in box.pending {
      assert after.resolved == box.resolved[box.pending[id] := a.message];
      assert after.pending == box.pending - {id};
      assert Answered([a], id);
    } else {
      EventLeavesTable(box, a);
    }
  }

  lemma {:induction false} EventLeavesTable(box: Inbox, a: Arrival)
    requires !(Correlates(a) && a.envelope.correlationId in box.pending)
    ensures Dispatched(box, a).pending == box.pending && Dispatched(box, a).resolved == box.resolved
  {
  }

  lemma {:induction false} AnsweredConcat(a: Arrival, rest: seq<Arrival>, id: u64)
    ensures Answered([a] + rest, id) <==> Answers(a, id) || Answered(rest, id)
    ensures Answered([a], id) <==> Answers(a, id)
  {
    assert a in [a] && a in [a] + rest;
    if Answered([a] + rest, id) {
      var b :| b in [a] + rest && Answers(b, id);
      assert b == a || b in rest;
    }
    if Answered(rest, id) {
      var b :| b in rest && Answers(b, id);
      assert b in [a] + rest;
    }
  }

  lemma {:induction false} PendingComposes(box: Inbox, a: Arrival, mid: Inbox, rest: seq<Arrival>, after: Inbox)
    requires StaysPending(box, [a], mid) && StaysPending(mid, rest, after)
    ensures StaysPending(box, [a] + rest, after)
  {
    forall id: u64 ensures id in after.pending <==> id in box.pending && !Answered([a] + rest, id) {
      AnsweredConcat(a, rest, id);
    }
  }

  lemma {:induction false} ResolvedComposes(box: Inbox, a: Arrival, mid: Inbox, rest: seq<Arrival>, after: Inbox)
    requires StaysPending(box, [a], mid) && OnlyAnswered(box, [a], mid) && OnlyAnswered(mid, rest, after)
    ensures OnlyAnswered(box, [a] + rest, after)
  {
    forall w | w in after.resolved && w !in box.resolved
      ensures exists id :: id in box.pending && box.pending[id] == w && Answered([a] + rest, id)
    {
      if w in mid.resolved {
        var id :| id in box.pending && box.pending[id] == w && Answered([a], id);
        AnsweredConcat(a, rest, id);
      } else {
        var id :| id in mid.pending && mid.pending[id] == w && Answered(rest, id);
        AnsweredConcat(a, rest, id);
      }
    }
  }

  lemma {:induction false} FirstAnswerStays(box: Inbox, a: Arrival, mid: Inbox, rest: seq<Arrival>, after: Inbox, id: u64)
    requires GetsAnswer(box, [a], mid) && OnlyAnswered(mid, rest, after) && id in box.pending && Answers(a, id)
    ensures box.pending[id] in after.resolved && after.resolved[box.pending[id]] == a.message
  {
    assert a in [a];
  }

  lemma {:induction false} LaterAnswerCounts(box: Inbox, a: Arrival, mid: Inbox, rest: seq<Arrival>, after: Inbox,
                                             b: Arrival, id: u64)
    requires StaysPending(box, [a], mid) && GetsAnswer(mid, rest, after) && id in box.pending
    requires b in rest && Answers(b, id) && !Answers(a, id)
    ensures box.pending[id] in after.resolved && after.resolved[box.pending[id]] == b.message
  {
    AnsweredConcat(a, [], id);
    assert id in mid.pending;
  }

  /** One of the arrivals is the first, or answers another request than the first. */
  lemma {:induction false} FirstOrDistinct(a: Arrival, rest: seq<Arrival>, b: Arrival, id: u64)
    requires Distinct([a] + rest) && b in [a] + rest && Answers(b, id)
    ensures b == a || (b in rest && !Answers(a, id))
  {
    var all := [a] + rest;
    if b != a {
      var k :| 0 <= k < |rest| && rest[k] == b;
      assert all[k + 1] == b && all[0] == a;
    }
  }

  lemma {:induction false} AnswersCompose(box: Inbox, a: Arrival, mid: Inbox, rest: seq<Arrival>, after: Inbox)
    requires Distinct([a] + rest) && StaysPending(box, [a], mid) && GetsAnswer(box, [a], mid)
    requires OnlyAnswered(mid, rest, after) && GetsAnswer(mid, rest, after)
    ensures GetsAnswer(box, [a] + rest, after)
  {
    forall b, id | b in [a] + rest && id in box.pending && Answers(b, id)
      ensures box.pending[id] in after.resolved && after.resolved[box.pending[id]] == b.message
    {
      FirstOrDistinct(a, rest, b, id);
      if b == a {
        FirstAnswerStays(box, a, mid, rest, after, id);
      } else {
        LaterAnswerCounts(box, a, mid, rest, after, b, id);
      }
    }
  }

  lemma {:induction false} BatchOutcome(box: Inbox, arrivals: seq<Arrival>)
    requires Tidy(box) && Distinct(arrivals)
    ensures Outcome(box, arrivals, DispatchAll(box, arrivals))
    decreases arrivals
  {
    if arrivals != [] {
      var a, rest := arrivals[0], arrivals[1..];
      var mid := Dispatched(box, a);
      OneArrival(box, a);
      assert arrivals == [a] + rest;
      assert Distinct(rest) by {
        assert forall i :: 0 <= i < |rest| ==> rest[i] == arrivals[i + 1];
      }
      BatchOutcome(mid, rest);
      PendingComposes(box, a, mid, rest, DispatchAll(mid, rest));
      ResolvedComposes(box, a, mid, rest, DispatchAll(mid, rest));
      AnswersCompose(box, a, mid, rest, DispatchAll(mid, rest));
    }
  }

  lemma {:induction false} OutcomeIsUnique(box: Inbox, xs: seq<Arrival>, ys: seq<Arrival>, x: Inbox, y: Inbox)
    requires forall a :: a in xs <==> a in ys
    requires Outcome(box, xs, x) && Outcome(box, ys, y)
    ensures x.pending == y.pending && x.resolved == y.resolved
  {
    forall id: u64 ensures Answered(xs, id) <==> Answered(ys, id) {
    }
    HalfUnique(box, xs, ys, x, y);
    HalfUnique(box, ys, xs, y, x);
  }

  lemma {:induction false} HalfUnique(box: Inbox, xs: seq<Arrival>, ys: seq<Arrival>, x: Inbox, y: Inbox)
    requires forall a :: a in xs <==> a in ys
    requires Outcome(box, xs, x) && Outcome(box, ys, y)
    ensures forall w :: w in x.resolved ==> w in y.resolved && x.resolved[w] == y.resolved[w]
  {
    forall w | w in x.resolved
      ensures w in y.resolved && x.resolved[w] == y.resolved[w]
    {
      if w !in box.resolved {
        var id :| id in box.pending && box.pending[id] == w && Answered(xs, id);
        var a :| a in xs && Answers(a, id);
        assert a in ys;
      }
    }
  }

  lemma {:induction false} TwiceCounted(s: seq<Arrival>, i: nat, j: nat)
    requires i < j < |s| && s[i] == s[j]
    ensures multiset(s)[s[i]] >= 2
  {
    assert s == s[..j] + [s[j]] + s[j + 1..];
    assert s[i] in s[..j];
  }

  lemma {:induction false} TwoPlaces(s: seq<Arrival>, a: Arrival) returns (i: nat, j: nat)
    requires multiset(s)[a] >= 2
    ensures i < j < |s| && s[i] == a && s[j] == a
  {
    assert a in s;
    var k :| 0 <= k < |s| && s[k] == a;
    assert s == s[..k] + [a] + s[k + 1..];
    if a in s[..k] {
      i :| 0 <= i < k && s[i] == a;
      j := k;
    } else {
      assert a in s[k + 1..];
      i := k;
      j :| k < j < |s| && s[j] == a;
    }
  }

  /** Being answers to different requests does not depend on the order. */
  lemma {:induction false} DistinctPermutes(xs: seq<Arrival>, ys: seq<Arrival>)
    requires Distinct(xs) && multiset(xs) == multiset(ys)
    ensures Distinct(ys)
  {
    forall i, j | 0 <= i < j < |ys| && Correlates(ys[i]) && Correlates(ys[j])
      ensures ys[i].envelope.correlationId != ys[j].envelope.correlationId
    {
      if ys[i] == ys[j] {
        TwiceCounted(ys, i, j);
        var k, l := TwoPlaces(xs, ys[i]);
        assert false;
      } else {
        assert ys[i] in multiset(ys) && ys[j] in multiset(ys);
        assert ys[i] in xs && ys[j] in xs;
        var k :| 0 <= k < |xs| && xs[k] == ys[i];
        var l :| 0 <= l < |xs| && xs[l] == ys[j];
        assert k < l || l < k;
      }
    }
  }

  /** Responses to different requests may arrive in any order, mixed with events: the same waiters are resolved,
      with the same messages, and the same requests stay pending. */
  lemma {:induction false} OrderDoesNotMatter(box: Inbox, xs: seq<Arrival>, ys: seq<Arrival>)
    requires Tidy(box) && Distinct(xs) && multiset(xs) == multiset(ys)
    ensures DispatchAll(box, xs).pending == DispatchAll(box, ys).pending
    ensures DispatchAll(box, xs).resolved == DispatchAll(box, ys).resolved
  {
    DistinctPermutes(xs, ys);
    BatchOutcome(box, xs);
    BatchOutcome(box, ys);
    forall a ensures a in xs <==> a in ys {
      assert a in xs <==> a in multiset(xs);
      assert a in ys <==> a in multiset(ys);
    }
    OutcomeIsUnique(box, xs, ys, DispatchAll(box, xs), DispatchAll(box, ys));
  }

  /** The inbox of every reachable client is tidy. */
  lemma {:induction false} ReachableIsTidy(c: Client)
    requires Inv(c)
    ensures Tidy(c.inbox)
  {
  }
}
