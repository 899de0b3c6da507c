/** The writer task of a connection: it takes frames out of the outgoing queue, encrypts each with the session it shares
    with the reader, and writes the packets to the socket. */
module RelayWriter {
  import opened Bytes
  import opened Frames
  import opened Noise
  import opened RelayMachine

  /** What can happen to a channel: a frame is put into it, its writer task sends one, or the task stops. */
  datatype Event = Entered(frame: Frame) | Left | Halted

  predicate Happens(ch: Channel, e: Event) {
    match e
    case Entered(f) => ch.open && |ch.queue| < QUEUE_CAPACITY
    case Left => ch.open && ch.queue != [] && Fits(ch.queue[0])
    case Halted => ch.open
  }

  function Changed(ch: Channel, e: Event): Channel
    requires Happens(ch, e)
  {
    match e
    case Entered(f) => Put(ch, f)
    case Left => Transmitted(ch)
    case Halted => ch.(open := false)
  }

  predicate Possible(ch: Channel, events: seq<Event>)
    decreases events
  {
    events == [] || (Happens(ch, events[0]) && Possible(Changed(ch, events[0]), events[1..]))
  }

  function Performed(ch: Channel, events: seq<Event>): Channel
    requires Possible(ch, events)
    decreases events
  {
    if events == [] then ch else Performed(Changed(ch, events[0]), events[1..])
  }

  lemma {:induction false} TakeFirst(sent: seq<Frame>, queue: seq<Frame>)
    requires queue != [] && AllFit(queue)
    ensures Fits(queue[0]) && AllFit(queue[1..]) && sent + [queue[0]] + queue[1..] == sent + queue
  {
  }

  class WriterTask {
    const session: NoiseSession
    var queue: seq<Frame>
    var open: bool
    var wire: seq<byte>
    ghost var sent: seq<Frame>

    /** The bytes on the wire are the packets of the frames sent, and the session's send counter is their number. The
        receive counter, which the reader moves, does not matter. */
    ghost predicate Valid()
      reads this, session
    {
      && Sound(session.sealing) && AllFit(sent)
      && session.sendCount == |sent| && wire == Packets(session.sealing, 0, sent)
    }

    ghost function View(): Channel
      reads this
    {
      Channel(queue, sent, open)
    }

    constructor (session: NoiseSession)
      requires Sound(session.sealing) && session.sendCount == 0
      ensures Valid() && View() == NEW_CHANNEL && this.session == session
    {
      this.session := session;
      queue, open, wire, sent := [], true, [], [];
    }

    /** One turn of the loop does to the queue what the relay's transmit step does; a frame that does not fit ends the
        task. */
    method Transmit()
      requires Valid() && open && queue != []
      modifies this, session`sendCount
      ensures Valid()
      ensures Fits(old(queue)[0]) ==> View() == Transmitted(old(View()))
      ensures !Fits(old(queue)[0]) ==> View() == Channel(old(queue)[1..], old(sent), false)
    {
      var frame := queue[0];
      queue := queue[1..];
      var packet := session.EncryptFrame(frame);
      if packet.Err? {
        open := false;
        return;
      }
      PacketsAppend(session.sealing, 0, sent, frame);
      wire := wire + packet.value;
      sent := sent + [frame];
    }

    /** The sending half of the channel: there is room, and the task still receives. */
    method Enqueue(frame: Frame)
      requires Valid() && open && |queue| < QUEUE_CAPACITY
      modifies this`queue
      ensures Valid() && View() == Put(old(View()), frame)
    {
      queue := queue + [frame];
    }

    /** The task ends, because its socket has failed. */
    method Stop()
      requires Valid()
      modifies this`open
      ensures Valid() && View() == old(View()).(open := false)
    {
      open := false;
    }

    /** Whatever happens to the channel, one event after the other. */
    method Perform(events: seq<Event>)
      requires Valid() && Possible(View(), events)
      modifies this, session`sendCount
      ensures Valid() && View() == Performed(old(View()), events)
    {
      for i := 0 to |events|
        invariant Valid() && Possible(View(), events[i..])
        invariant Performed(View(), events[i..]) == Performed(old(View()), events)
      {
        assert events[i..][0] == events[i] && events[i..][1..] == events[i + 1..];
        match events[i] {
          case Entered(frame) => Enqueue(frame);
          case Left => Transmit();
          case Halted => Stop();
        }
      }
      assert events[|events|..] == [];
    }

    /** The whole loop over what is queued: every frame goes out, in order, under the counters that follow. */
    method Drain()
      requires Valid() && open && AllFit(queue)
      modifies this, session`sendCount
      ensures Valid() && View() == Channel([], old(sent) + old(queue), true)
      ensures wire == Packets(session.sealing, 0, old(sent) + old(queue))
    {
      while queue != []
        invariant Valid() && open && AllFit(queue) && sent + queue == old(sent) + old(queue)
        decreases |queue|
      {
        TakeFirst(sent, queue);
        Transmit();
      }
    }
  }
}
