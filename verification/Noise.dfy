/** Encrypted frames on the wire: a 2-byte length, then one sealed 1420-byte frame, over an abstract cipher that
    keeps one message counter per direction (section 5.1 of the Noise Protocol Framework). */
module Noise {
  import opened Bytes
  import opened Frames

  const NOISE_TAG_LEN: nat := 16
  const ENCRYPTED_FRAME_SIZE: nat := FRAME_SIZE + NOISE_TAG_LEN

  /** One direction of a transport session: sealing and opening the n-th message. */
  datatype Cipher = Cipher(seal: (nat, seq<byte>) -> seq<byte>, open: (nat, seq<byte>) -> Option<seq<byte>>)

  /** The only law assumed: opening inverts sealing under the same counter, and a seal adds a 16-byte tag. */
  ghost predicate Sound(k: Cipher) {
    forall n: nat, plain: seq<byte> ::
      |k.seal(n, plain)| == |plain| + NOISE_TAG_LEN && k.open(n, k.seal(n, plain)) == Some(plain)
  }

  datatype NoiseError =
    | Decrypt
    | Protocol(cause: ProtocolError)
    | BadMessageSize(expected: nat, actual: nat)
    | StreamClosed

  function Packet(k: Cipher, n: nat, f: Frame): seq<byte>
    requires Fits(f)
  {
    var sealed := k.seal(n, Wire(f));
    Be(|sealed|, 2) + sealed
  }

  function OpenFrame(k: Cipher, n: nat, cipherText: seq<byte>): Result<Frame, NoiseError> {
    match k.open(n, cipherText)
    case None => Err(Decrypt)
    case Some(plain) =>
      match Unwire(plain)
      case Err(e) => Err(Protocol(e))
      case Ok(f) => Ok(f)
  }

  /** `NoiseSession`: the writer task and the reader share it, each advancing its own counter. */
  class NoiseSession {
    const sealing: Cipher
    const opening: Cipher
    var sendCount: nat
    var recvCount: nat

    constructor (sealing: Cipher, opening: Cipher)
      ensures this.sealing == sealing && this.opening == opening && sendCount == 0 && recvCount == 0
    {
      this.sealing, this.opening := sealing, opening;
      sendCount, recvCount := 0, 0;
    }

    method EncryptFrame(frame: Frame) returns (r: Result<seq<byte>, NoiseError>)
      requires Sound(sealing)
      modifies this`sendCount
      ensures Fits(frame) ==>
        r == Ok(Packet(sealing, old(sendCount), frame)) && |r.value| == 1438 && sendCount == old(sendCount) + 1
      ensures !Fits(frame) ==>
        r == Err(Protocol(PayloadTooLarge(|frame.payload|, MAX_PAYLOAD_SIZE))) && sendCount == old(sendCount)
    {
      var rawFrame := new ByteBuf([]);
      var encoded := Encode(frame, rawFrame);
      if encoded.Err? {
        return Err(Protocol(encoded.error));
      }
      assert rawFrame.data == Wire(frame);
      var cipherText := sealing.seal(sendCount, rawFrame.data);
      sendCount := sendCount + 1;
      var packet := Be(|cipherText|, 2);
      packet := packet + cipherText;
      return Ok(packet);
    }

    /** A refused message leaves the counter where it was. */
    method DecryptFrame(cipherText: seq<byte>) returns (r: Result<Frame, NoiseError>)
      modifies this`recvCount
      ensures r == OpenFrame(opening, old(recvCount), cipherText)
      ensures recvCount == old(recvCount) + (if opening.open(old(recvCount), cipherText).Some? then 1 else 0)
    {
      var plain := opening.open(recvCount, cipherText);
      if plain.None? {
        return Err(Decrypt);
      }
      recvCount := recvCount + 1;
      var f := FromSlice(plain.value);
      match f {
        case Err(e) => return Err(Protocol(e));
        case Ok(frame) => return Ok(frame);
      }
    }
  }

  /** One `recv_frame` on a byte stream: its answer and the unread rest. End of stream where a length should start
      is a clean end; inside a packet it is an error. */
  function RecvStep(k: Cipher, n: nat, stream: seq<byte>): (Result<Option<Frame>, NoiseError>, seq<byte>) {
    if |stream| < 2 then (Ok(None), [])
    else
      var len := GetU16(stream[..2]);
      if len > ENCRYPTED_FRAME_SIZE then (Err(BadMessageSize(ENCRYPTED_FRAME_SIZE, len)), stream[2..])
      else if |stream| < 2 + len then (Err(StreamClosed), [])
      else match OpenFrame(k, n, stream[2..2 + len])
        case Err(e) => (Err(e), stream[2 + len..])
        case Ok(f) => (Ok(Some(f)), stream[2 + len..])
  }

  method RecvFrame(session: NoiseSession, stream: ByteBuf) returns (r: Result<Option<Frame>, NoiseError>)
    modifies session`recvCount, stream
    ensures (r, stream.data) == RecvStep(session.opening, old(session.recvCount), old(stream.data))
    ensures r.Ok? && r.value.Some? ==> session.recvCount == old(session.recvCount) + 1
  {
    if |stream.data| < 2 {
      stream.data := [];
      return Ok(None);
    }
    var field := stream.SplitTo(2);
    var len := GetU16(field);
    if len > ENCRYPTED_FRAME_SIZE {
      return Err(BadMessageSize(ENCRYPTED_FRAME_SIZE, len));
    }
    if |stream.data| < len {
      stream.data := [];
      return Err(StreamClosed);
    }
    assert stream.data[..len] == old(stream.data)[2..2 + len];
    var buf := stream.SplitTo(len);
    assert stream.data == old(stream.data)[2 + len..];
    var f := session.DecryptFrame(buf);
    match f {
      case Err(e) => return Err(e);
      case Ok(frame) => return Ok(Some(frame));
    }
  }

  /** The length field of a packet delimits it exactly, and the peer at the same counter recovers the frame. */
  lemma {:induction false} PacketIsRead(k: Cipher, n: nat, f: Frame, rest: seq<byte>)
    requires Sound(k) && Fits(f)
    ensures |Packet(k, n, f)| == 1438
    ensures RecvStep(k, n, Packet(k, n, f) + rest) == (Ok(Some(f)), rest)
  {
    var sealed := k.seal(n, Wire(f));
    var stream := Packet(k, n, f) + rest;
    assert stream[..2] == Be(|sealed|, 2) && stream[2..1438] == sealed && stream[1438..] == rest;
    GetPut(|sealed|, 0, 0);
    WireRoundTrip(f, []);
    assert Wire(f) + [] == Wire(f);
  }

  /** A packet on the wire: the length 1436 in two bytes, then the sealed frame. */
  lemma {:induction false} PacketIs(k: Cipher, n: nat, f: Frame)
    requires Sound(k) && Fits(f)
    ensures |Packet(k, n, f)| == 1438
    ensures Packet(k, n, f)[0] == 0x05 && Packet(k, n, f)[1] == 0x9C && Packet(k, n, f)[2..] == k.seal(n, Wire(f))
  {
    BeTruncates2(1436);
    var sealed := k.seal(n, Wire(f));
    assert |sealed| == 1436;
    Seam(Be(1436, 2), sealed);
  }

  /** What receiving from a stream gives, and what is left of it: a clean end where no length is; an error for a length
      above 1436, or a stream that ends inside a packet; otherwise what is sealed in the packet, opened under the
      counter and read as a frame, or the reason why that fails. */
  lemma {:induction false} RecvIs(k: Cipher, n: nat, stream: seq<byte>)
    ensures |stream| < 2 ==> RecvStep(k, n, stream) == (Ok(None), [])
    ensures |stream| >= 2 ==>
      var len := (stream[0] as int) * 256 + stream[1];
      && (len > 1436 ==> RecvStep(k, n, stream) == (Err(BadMessageSize(1436, len)), stream[2..]))
      && (len <= 1436 && |stream| < 2 + len ==> RecvStep(k, n, stream) == (Err(StreamClosed), []))
      && (len <= 1436 && |stream| >= 2 + len ==>
            var (r, rest), plain := RecvStep(k, n, stream), k.open(n, stream[2..2 + len]);
            && rest == stream[2 + len..]
            && (r == Err(Decrypt) <==> plain.None?)
            && (forall f :: r == Ok(Some(f)) <==> plain.Some? && Unwire(plain.value) == Ok(f))
            && (forall e :: r == Err(Protocol(e)) <==> plain.Some? && Unwire(plain.value) == Err(e))
            && r != Ok(None))
  {
    if |stream| >= 2 {
      FromBe2(stream[..2]);
    }
  }

  // ---------- a whole connection ----------

  /** One direction: what was sent, the bytes in flight, what was received, and the two counters. */
  datatype Direction = Direction(
    sent: seq<Frame>, sendCount: nat, stream: seq<byte>, received: seq<Frame>, recvCount: nat, failed: bool)

  /** Both directions of a connection; each end's session is the send counter of one and the receive counter of the
      other. */
  datatype Link = Link(there: Direction, back: Direction)

  const FRESH: Direction := Direction([], 0, [], [], 0, false)

  datatype Act = Send(onward: bool, frame: Frame) | Recv(onward: bool)

  function SendOn(k: Cipher, d: Direction, f: Frame): Direction
    requires Fits(f)
  {
    d.(sent := d.sent + [f], sendCount := d.sendCount + 1, stream := d.stream + Packet(k, d.sendCount, f))
  }

  function RecvOn(k: Cipher, d: Direction): Direction {
    match RecvStep(k, d.recvCount, d.stream)
    case (Ok(Some(f)), rest) => d.(received := d.received + [f], recvCount := d.recvCount + 1, stream := rest)
    case (_, rest) => d.(failed := true, stream := rest)
  }

  predicate ActEnabled(l: Link, act: Act) {
    match act
    case Send(_, f) => Fits(f)
    case Recv(onward) => (if onward then l.there else l.back).stream != []
  }

  function Perform(k: Cipher, j: Cipher, l: Link, act: Act): Link
    requires ActEnabled(l, act)
  {
    match act
    case Send(onward, f) =>
      if onward then l.(there := SendOn(k, l.there, f)) else l.(back := SendOn(j, l.back, f))
    case Recv(onward) =>
      if onward then l.(there := RecvOn(k, l.there)) else l.(back := RecvOn(j, l.back))
  }

  ghost predicate ActsEnabled(k: Cipher, j: Cipher, l: Link, acts: seq<Act>)
    decreases acts
  {
    acts == [] || (ActEnabled(l, acts[0]) && ActsEnabled(k, j, Perform(k, j, l, acts[0]), acts[1..]))
  }

  ghost function PerformAll(k: Cipher, j: Cipher, l: Link, acts: seq<Act>): Link
    requires ActsEnabled(k, j, l, acts)
    decreases acts
  {
    if acts == [] then l else PerformAll(k, j, Perform(k, j, l, acts[0]), acts[1..])
  }

  ghost predicate AllFit(fs: seq<Frame>) {
    forall i :: 0 <= i < |fs| ==> Fits(fs[i])
  }

  /** The packets of consecutive frames, counters from `n` on. */
  ghost function Packets(k: Cipher, n: nat, fs: seq<Frame>): seq<byte>
    requires AllFit(fs)
    decreases fs
  {
    if fs == [] then [] else Packet(k, n, fs[0]) + Packets(k, n + 1, fs[1..])
  }

  lemma {:induction false} PacketsAppend(k: Cipher, n: nat, fs: seq<Frame>, f: Frame)
    requires AllFit(fs) && Fits(f)
    ensures AllFit(fs + [f])
    ensures Packets(k, n, fs + [f]) == Packets(k, n, fs) + Packet(k, n + |fs|, f)
    decreases fs
  {
    if fs == [] {
      assert fs + [f] == [f];
      assert Packets(k, n, [f]) == Packet(k, n, f) + Packets(k, n + 1, []);
    } else {
      PacketsAppend(k, n + 1, fs[1..], f);
      assert (fs + [f])[1..] == fs[1..] + [f];
    }
  }

  /** The receiver holds a prefix of what was sent, the bytes in flight are the rest, and nothing has failed. */
  ghost predicate InStep(k: Cipher, d: Direction) {
    && AllFit(d.sent) && !d.failed
    && d.sendCount == |d.sent| && d.recvCount == |d.received| <= |d.sent|
    && d.received == d.sent[..d.recvCount]
    && d.stream == Packets(k, d.recvCount, d.sent[d.recvCount..])
  }

  lemma {:induction false} SendKeepsStep(k: Cipher, d: Direction, f: Frame)
    requires InStep(k, d) && Fits(f)
    ensures InStep(k, SendOn(k, d, f))
  {
    var n := d.recvCount;
    PacketsAppend(k, n, d.sent[n..], f);
    assert (d.sent + [f])[n..] == d.sent[n..] + [f];
  }

  lemma {:induction false} RecvKeepsStep(k: Cipher, d: Direction)
    requires Sound(k) && InStep(k, d) && d.stream != []
    ensures InStep(k, RecvOn(k, d)) && |RecvOn(k, d).received| == |d.received| + 1
  {
    var n := d.recvCount;
    var pending := d.sent[n..];
    PacketIsRead(k, n, pending[0], Packets(k, n + 1, pending[1..]));
    assert pending[1..] == d.sent[n + 1..];
    assert d.sent[..n + 1] == d.sent[..n] + [pending[0]];
  }

  lemma {:induction false} ActKeepsStep(k: Cipher, j: Cipher, l: Link, act: Act)
    requires Sound(k) && Sound(j) && InStep(k, l.there) && InStep(j, l.back) && ActEnabled(l, act)
    ensures InStep(k, Perform(k, j, l, act).there) && InStep(j, Perform(k, j, l, act).back)
  {
    match act {
      case Send(true, f) => SendKeepsStep(k, l.there, f);
      case Send(false, f) => SendKeepsStep(j, l.back, f);
      case Recv(true) => RecvKeepsStep(k, l.there);
      case Recv(false) => RecvKeepsStep(j, l.back);
    }
  }

  /** Whatever the interleaving of both ends' readers and writers, each end has received, without error, exactly the
      first frames the other sent, in order, and all of them once nothing is in flight. */
  lemma {:induction false} LinkStaysInStep(k: Cipher, j: Cipher, l: Link, acts: seq<Act>)
    requires Sound(k) && Sound(j) && InStep(k, l.there) && InStep(j, l.back) && ActsEnabled(k, j, l, acts)
    ensures InStep(k, PerformAll(k, j, l, acts).there) && InStep(j, PerformAll(k, j, l, acts).back)
    decreases acts
  {
    if acts != [] {
      ActKeepsStep(k, j, l, acts[0]);
      LinkStaysInStep(k, j, Perform(k, j, l, acts[0]), acts[1..]);
    }
  }

  /** The frames that the acts send in one direction, in order, and how often its far end receives. */
  ghost function FramesSent(acts: seq<Act>, onward: bool): seq<Frame>
    decreases acts
  {
    if acts == [] then []
    else (if acts[0].Send? && acts[0].onward == onward then [acts[0].frame] else []) + FramesSent(acts[1..], onward)
  }

  ghost function TimesReceived(acts: seq<Act>, onward: bool): nat
    decreases acts
  {
    if acts == [] then 0
    else (if acts[0].Recv? && acts[0].onward == onward then 1 else 0) + TimesReceived(acts[1..], onward)
  }

  ghost function Way(l: Link, onward: bool): Direction {
    if onward then l.there else l.back
  }

  lemma {:induction false} ActMoves(k: Cipher, j: Cipher, l: Link, act: Act, onward: bool)
    requires Sound(k) && Sound(j) && InStep(k, l.there) && InStep(j, l.back) && ActEnabled(l, act)
    ensures var before, after := Way(l, onward), Way(Perform(k, j, l, act), onward);
      && after.sent == before.sent + (if act.Send? && act.onward == onward then [act.frame] else [])
      && |after.received| == |before.received| + (if act.Recv? && act.onward == onward then 1 else 0)
  {
    if act.Recv? && act.onward == onward {
      if onward { RecvKeepsStep(k, l.there); } else { RecvKeepsStep(j, l.back); }
    }
  }

  /** What is sent on a link, and how much of it is received, is what the acts say. */
  lemma {:induction false} ActsCount(k: Cipher, j: Cipher, l: Link, acts: seq<Act>, onward: bool)
    requires Sound(k) && Sound(j) && InStep(k, l.there) && InStep(j, l.back) && ActsEnabled(k, j, l, acts)
    ensures var before, after := Way(l, onward), Way(PerformAll(k, j, l, acts), onward);
      && after.sent == before.sent + FramesSent(acts, onward)
      && |after.received| == |before.received| + TimesReceived(acts, onward)
    decreases acts
  {
    if acts != [] {
      var m := Perform(k, j, l, acts[0]);
      ActMoves(k, j, l, acts[0], onward);
      ActKeepsStep(k, j, l, acts[0]);
      ActsCount(k, j, m, acts[1..], onward);
      var first := if acts[0].Send? && acts[0].onward == onward then [acts[0].frame] else [];
      Regroup(Way(l, onward).sent, first, FramesSent(acts[1..], onward));
    } else {
      assert Way(l, onward).sent + [] == Way(l, onward).sent;
    }
  }

  lemma {:induction false} Regroup(a: seq<Frame>, b: seq<Frame>, c: seq<Frame>)
    ensures a + b + c == a + (b + c)
  {
  }

  lemma {:induction false} FramesArriveInOrder(k: Cipher, j: Cipher, acts: seq<Act>)
    requires Sound(k) && Sound(j) && ActsEnabled(k, j, Link(FRESH, FRESH), acts)
    ensures var l := PerformAll(k, j, Link(FRESH, FRESH), acts);
      && l.there.sent == FramesSent(acts, true) && l.back.sent == FramesSent(acts, false)
      && |l.there.received| == TimesReceived(acts, true) && |l.back.received| == TimesReceived(acts, false)
      && l.there.received <= l.there.sent && l.back.received <= l.back.sent
      && !l.there.failed && !l.back.failed
      && (l.there.stream == [] ==> l.there.received == l.there.sent)
      && (l.back.stream == [] ==> l.back.received == l.back.sent)
  {
    LinkStaysInStep(k, j, Link(FRESH, FRESH), acts);
    ActsCount(k, j, Link(FRESH, FRESH), acts, true);
    ActsCount(k, j, Link(FRESH, FRESH), acts, false);
    var l := PerformAll(k, j, Link(FRESH, FRESH), acts);
    DrainedMeansAll(k, l.there);
    DrainedMeansAll(j, l.back);
  }

  lemma {:induction false} DrainedMeansAll(k: Cipher, d: Direction)
    requires Sound(k) && InStep(k, d)
    ensures d.stream == [] ==> d.received == d.sent
  {
    var pending := d.sent[d.recvCount..];
    if pending != [] {
      PacketIsRead(k, d.recvCount, pending[0], []);
    } else {
      assert d.sent[..d.recvCount] == d.sent;
    }
  }

  /** What a peer reads from a stream: frames until the first end or error. */
  ghost function ReadAll(k: Cipher, n: nat, stream: seq<byte>): seq<Frame>
    decreases |stream|
  {
    match RecvStep(k, n, stream)
    case (Ok(Some(f)), rest) => [f] + ReadAll(k, n + 1, rest)
    case _ => []
  }

  lemma {:induction false} PacketsAreRead(k: Cipher, n: nat, fs: seq<Frame>)
    requires Sound(k) && AllFit(fs)
    ensures ReadAll(k, n, Packets(k, n, fs)) == fs
    decreases fs
  {
    if fs != [] {
      PacketIsRead(k, n, fs[0], Packets(k, n + 1, fs[1..]));
      PacketsAreRead(k, n + 1, fs[1..]);
    }
  }
}
