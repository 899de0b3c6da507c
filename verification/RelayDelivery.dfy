/** The writer task of a connection follows the machine's channel, and its peer decrypts what was delivered. */
module RelayDelivery {
  import opened Frames
  import opened RelayMachine
  import opened RelayInvariants
  import opened RelayWriter
  import Noise

  // ---------- down to the peer ----------

  lemma {:induction false} DeliveriesFit(log: seq<Delivery>, c: nat)
    requires forall i :: 0 <= i < |log| ==> Fits(log[i].frame)
    ensures forall i :: 0 <= i < |DeliveriesTo(log, c)| ==> Fits(DeliveriesTo(log, c)[i].frame)
  {
    if log != [] {
      DeliveriesFit(log[..|log| - 1], c);
    }
  }

  /** Nothing a writer task is ever handed makes it stop. */
  lemma {:induction false} QueuedFramesFit(s: State, c: nat)
    requires Inv(s) && c in s.channels
    ensures Noise.AllFit(s.channels[c].sent) && Noise.AllFit(s.channels[c].queue)
  {
    var sent, queue, ds := s.channels[c].sent, s.channels[c].queue, DeliveriesTo(s.log, c);
    LoggedFramesFit(s);
    DeliveriesFit(s.log, c);
    PartsFit(sent, queue, ds);
  }

  lemma {:induction false} LoggedFramesFit(s: State)
    requires LogOk(s)
    ensures forall i :: 0 <= i < |s.log| ==> Fits(s.log[i].frame)
  {
    forall i | 0 <= i < |s.log| ensures Fits(s.log[i].frame) {
      assert DeliveryOk(s, s.log[i]);
    }
  }

  lemma {:induction false} PartsFit(sent: seq<Frame>, queue: seq<Frame>, ds: seq<Delivery>)
    requires FramesOf(ds) == sent + queue && forall i :: 0 <= i < |ds| ==> Fits(ds[i].frame)
    ensures Noise.AllFit(sent) && Noise.AllFit(queue)
  {
    forall i | 0 <= i < |sent| ensures Fits(sent[i]) {
      assert sent[i] == FramesOf(ds)[i] == ds[i].frame;
    }
    forall i | 0 <= i < |queue| ensures Fits(queue[i]) {
      assert queue[i] == FramesOf(ds)[|sent| + i] == ds[|sent| + i].frame;
    }
  }

  /** In every run, the peer of connection `c`, decrypting the bytes that the writer task has put on the wire so far,
      gets exactly the first frames delivered to `c`, unchanged and in order; the rest is still queued. */
  lemma {:induction false} PeerReadsDeliveries(steps: seq<Step>, c: nat, w: WriterTask)
    requires ValidRun(INIT, steps) && c in Exec(INIT, steps).channels
    requires w.Valid() && w.View() == Exec(INIT, steps).channels[c]
    ensures Noise.ReadAll(w.session.sealing, 0, w.wire) + w.queue == FramesOf(DeliveriesTo(Exec(INIT, steps).log, c))
    ensures Noise.AllFit(w.queue)
  {
    InitInv();
    RunKeepsInv(INIT, steps);
    QueuedFramesFit(Exec(INIT, steps), c);
    Noise.PacketsAreRead(w.session.sealing, 0, w.sent);
  }

  // ---------- the writer task follows the machine ----------

  /** What a step does to channel `c`. */
  ghost function EventsOf(s: State, step: Step, c: nat): seq<Event>
    requires Enabled(s, step)
  {
    if step == Transmit(c) then [Left]
    else if step == WriterStops(c) then [Halted]
    else if Made(s, step).Some? && Made(s, step).value.to == c then [Entered(Made(s, step).value.frame)]
    else []
  }

  ghost function RunEvents(s: State, steps: seq<Step>, c: nat): seq<Event>
    requires ValidRun(s, steps)
    decreases steps
  {
    if steps == [] then [] else EventsOf(s, steps[0], c) + RunEvents(Apply(s, steps[0]), steps[1..], c)
  }

  /** The channel, or the one that the connection will start with. */
  ghost function ChannelOf(s: State, c: nat): Channel {
    if c in s.channels then s.channels[c] else NEW_CHANNEL
  }

  lemma {:induction false} NoChannelNoEvent(s: State, step: Step, c: nat)
    requires Enabled(s, step) && c !in s.channels
    ensures EventsOf(s, step, c) == [] && ChannelOf(Apply(s, step), c) == NEW_CHANNEL
  {
  }

  lemma {:induction false} ChannelEvents(s: State, step: Step, c: nat)
    requires Enabled(s, step) && c in s.channels && (s.channels[c].queue != [] ==> Fits(s.channels[c].queue[0]))
    ensures var es := EventsOf(s, step, c);
      && c in ChannelsAfter(s, step) && |es| <= 1
      && (es == [] ==> ChannelsAfter(s, step)[c] == s.channels[c])
      && (es != [] ==> Happens(s.channels[c], es[0]) && ChannelsAfter(s, step)[c] == Changed(s.channels[c], es[0]))
  {
  }

  /** At most one event leads from one channel to the other. */
  ghost predicate Follows(before: Channel, es: seq<Event>, after: Channel) {
    && |es| <= 1
    && (es == [] ==> after == before)
    && (es != [] ==> Happens(before, es[0]) && after == Changed(before, es[0]))
  }

  lemma {:induction false} StepEvents(s: State, step: Step, c: nat)
    requires Enabled(s, step) && (c in s.channels && s.channels[c].queue != [] ==> Fits(s.channels[c].queue[0]))
    ensures Follows(ChannelOf(s, c), EventsOf(s, step, c), ChannelOf(Apply(s, step), c))
  {
    if c in s.channels {
      ChannelEvents(s, step, c);
    } else {
      NoChannelNoEvent(s, step, c);
    }
  }

  lemma {:induction false} HeadFits(s: State, c: nat)
    requires Inv(s)
    ensures c in s.channels && s.channels[c].queue != [] ==> Fits(s.channels[c].queue[0])
  {
    if c in s.channels {
      QueuedFramesFit(s, c);
    }
  }

  lemma {:induction false} EventsCompose(before: Channel, es: seq<Event>, mid: Channel, rest: seq<Event>)
    requires Follows(before, es, mid) && Possible(mid, rest)
    ensures Possible(before, es + rest) && Performed(before, es + rest) == Performed(mid, rest)
  {
    if es == [] {
      assert es + rest == rest;
    } else {
      assert (es + rest)[0] == es[0] && (es + rest)[1..] == rest;
    }
  }

  /** In every run, channel `c` is what its events make of a new channel. */
  lemma {:induction false} ChannelFollows(s: State, steps: seq<Step>, c: nat)
    requires Inv(s) && ValidRun(s, steps)
    ensures Possible(ChannelOf(s, c), RunEvents(s, steps, c))
    ensures Performed(ChannelOf(s, c), RunEvents(s, steps, c)) == ChannelOf(Exec(s, steps), c)
    decreases steps
  {
    if steps != [] {
      var t := Apply(s, steps[0]);
      HeadFits(s, c);
      StepEvents(s, steps[0], c);
      StepKeepsInv(s, steps[0]);
      ChannelFollows(t, steps[1..], c);
      EventsCompose(ChannelOf(s, c), EventsOf(s, steps[0], c), ChannelOf(t, c), RunEvents(t, steps[1..], c));
    }
  }

  /** The writer task of connection `c`, through any run of the relay: its queue is the machine's, and what the peer
      decrypts of its bytes, followed by that queue, is exactly the deliveries made to `c`. */
  method RunWriter(session: Noise.NoiseSession, events: seq<Event>, ghost steps: seq<Step>, ghost c: nat)
    returns (w: WriterTask)
    requires Noise.Sound(session.sealing) && session.sendCount == 0
    requires ValidRun(INIT, steps) && c in Exec(INIT, steps).channels && events == RunEvents(INIT, steps, c)
    modifies session`sendCount
    ensures fresh(w) && w.session == session && w.Valid() && w.View() == Exec(INIT, steps).channels[c]
    ensures Noise.ReadAll(session.sealing, 0, w.wire) + w.queue == FramesOf(DeliveriesTo(Exec(INIT, steps).log, c))
  {
    InitInv();
    ChannelFollows(INIT, steps, c);
    w := new WriterTask(session);
    w.Perform(events);
    PeerReadsDeliveries(steps, c, w);
  }
}
