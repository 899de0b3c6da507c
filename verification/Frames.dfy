/** The fixed-size wire frame: 16-byte session id, 8-byte nonce, 2-byte length, payload, zero padding to 1420 bytes. */
module Frames {
  import opened Bytes

  const FRAME_SIZE: nat := 1420
  const HEADER_SIZE: nat := 26
  const MAX_PAYLOAD_SIZE: nat := FRAME_SIZE - HEADER_SIZE

  type SessionId = s: seq<byte> | |s| == 16 witness Repeat(0, 16)
  type Nonce = s: seq<byte> | |s| == 8 witness Repeat(0, 8)

  datatype ProtocolError =
    | FrameTooShort(expected: nat, actual: nat)
    | PayloadTooLarge(actual: nat, max: nat)
    | UnsupportedVersion(expected: nat, actual: nat)
    | UnknownMessageType(code: byte)
    | UnexpectedDirection

  datatype Frame = Frame(sessionId: SessionId, nonce: Nonce, payload: seq<byte>)

  predicate Fits(f: Frame) {
    |f.payload| <= MAX_PAYLOAD_SIZE
  }

  function NewFrame(sessionId: SessionId, nonce: Nonce, payload: seq<byte>): (r: Result<Frame, ProtocolError>)
    ensures r.Ok? <==> |payload| <= MAX_PAYLOAD_SIZE
    ensures r.Ok? ==>
      Fits(r.value) && Content(r.value) == sessionId + nonce + Be(|payload|, 2) + payload
    ensures r.Err? ==> r.error == PayloadTooLarge(|payload|, MAX_PAYLOAD_SIZE)
  {
    if |payload| > MAX_PAYLOAD_SIZE then Err(PayloadTooLarge(|payload|, MAX_PAYLOAD_SIZE))
    else Ok(Frame(sessionId, nonce, payload))
  }

  /** The part of a frame that carries information: everything before the padding. */
  function Content(f: Frame): (s: seq<byte>)
    ensures |s| == HEADER_SIZE + |f.payload|
  {
    f.sessionId + f.nonce + Be(|f.payload|, 2) + f.payload
  }

  function Wire(f: Frame): (s: seq<byte>)
    requires Fits(f)
    ensures |s| == FRAME_SIZE
  {
    Content(f) + Repeat(0, MAX_PAYLOAD_SIZE - |f.payload|)
  }

  /** What the first 1420 bytes of `s` mean as a frame. */
  function Unwire(s: seq<byte>): (r: Result<Frame, ProtocolError>)
    ensures r.Ok? ==> Fits(r.value)
  {
    if |s| < FRAME_SIZE then Err(FrameTooShort(FRAME_SIZE, |s|))
    else
      var len := GetU16(s[24..26]);
      if len > MAX_PAYLOAD_SIZE then Err(PayloadTooLarge(len, MAX_PAYLOAD_SIZE))
      else Ok(Frame(s[..16], s[16..24], s[26..26 + len]))
  }

  /** A frame on the wire: 16 bytes of session id, 8 of nonce, 2 of length, the payload, and zeros up to 1420 bytes. */
  lemma {:induction false} WireIs(f: Frame, i: nat)
    requires Fits(f)
    ensures var w, n := Wire(f), |f.payload|;
      && |w| == 1420 && w[..16] == f.sessionId && w[16..24] == f.nonce
      && w[24] == n / 256 && w[25] == n % 256 && w[26..26 + n] == f.payload
      && (26 + n <= i < 1420 ==> w[i] == 0)
  {
    var n := |f.payload|;
    ContentFields(f);
    BeTruncates2(n);
    var c, w := Content(f), Wire(f);
    assert w[..26 + n] == c;
    SliceOfPrefix(w, 26 + n, 0, 16);
    SliceOfPrefix(w, 26 + n, 16, 24);
    SliceOfPrefix(w, 26 + n, 24, 26);
    SliceOfPrefix(w, 26 + n, 26, 26 + n);
    assert w[24] == w[24..26][0] && w[25] == w[24..26][1];
  }

  /** Why a block is refused: fewer than 1420 bytes, or a length field above 1394. */
  lemma {:induction false} UnwireRefuses(s: seq<byte>)
    ensures |s| < 1420 ==> Unwire(s) == Err(FrameTooShort(1420, |s|))
    ensures |s| >= 1420 ==>
      var n := (s[24] as int) * 256 + s[25];
      if n > 1394 then Unwire(s) == Err(PayloadTooLarge(n, 1394)) else Unwire(s).Ok?
  {
    if |s| >= FRAME_SIZE {
      FromBe2(s[24..26]);
    }
  }

  /** A block reads as `f` exactly when it starts with the content of `f`; padding bytes are never looked at. */
  lemma {:induction false} UnwireIff(s: seq<byte>, f: Frame)
    requires |s| >= FRAME_SIZE
    ensures Unwire(s) == Ok(f) <==> Fits(f) && Content(f) <= s
  {
    if Fits(f) && Content(f) <= s {
      ContentIsRead(s, f);
    }
    if Unwire(s) == Ok(f) {
      ReadIsContent(s, f);
    }
  }

  lemma {:induction false} ContentIsRead(s: seq<byte>, f: Frame)
    requires |s| >= FRAME_SIZE && Fits(f) && Content(f) <= s
    ensures Unwire(s) == Ok(f)
  {
    var n := 26 + |f.payload|;
    assert s[..n] == Content(f);
    SliceOfPrefix(s, n, 0, 16);
    SliceOfPrefix(s, n, 16, 24);
    SliceOfPrefix(s, n, 24, 26);
    SliceOfPrefix(s, n, 26, n);
    ContentFields(f);
    GetPut(|f.payload|, 0, 0);
  }

  lemma {:induction false} ContentFields(f: Frame)
    ensures var c := Content(f);
      c[0..16] == f.sessionId && c[16..24] == f.nonce && c[24..26] == Be(|f.payload|, 2) && c[26..|c|] == f.payload
  {
  }

  lemma {:induction false} ReadIsContent(s: seq<byte>, f: Frame)
    requires |s| >= FRAME_SIZE && Unwire(s) == Ok(f)
    ensures Fits(f) && Content(f) <= s
  {
    var n := 26 + |f.payload|;
    BeOfFromBe(s[24..26]);
    assert s[..n] == s[..16] + s[16..24] + s[24..26] + s[26..n];
    assert Content(f) == s[..n];
  }

  lemma {:induction false} WireRoundTrip(f: Frame, more: seq<byte>)
    requires Fits(f)
    ensures Unwire(Wire(f) + more) == Ok(f)
  {
    var s := Wire(f) + more;
    assert Content(f) <= s;
    UnwireIff(s, f);
  }

  // ---------- the operations on growable buffers ----------

  class ByteBuf {
    var data: seq<byte>

    constructor (bytes: seq<byte>)
      ensures data == bytes
    {
      data := bytes;
    }

    method Put(bytes: seq<byte>)
      modifies this
      ensures data == old(data) + bytes
    {
      data := data + bytes;
    }

    method SplitTo(n: nat) returns (front: seq<byte>)
      requires n <= |data|
      modifies this
      ensures front == old(data)[..n] && data == old(data)[n..]
    {
      front := data[..n];
      data := data[n..];
    }
  }

  method FromSlice(slice: seq<byte>) returns (r: Result<Frame, ProtocolError>)
    ensures r == Unwire(slice)
  {
    if |slice| < FRAME_SIZE {
      return Err(FrameTooShort(FRAME_SIZE, |slice|));
    }
    var buf := slice[..FRAME_SIZE];
    var sessionId := buf[..16];
    buf := buf[16..];
    assert buf == slice[16..FRAME_SIZE];
    var nonce := buf[..8];
    buf := buf[8..];
    assert buf == slice[24..FRAME_SIZE];
    assert buf[..2] == slice[24..26];
    var len := GetU16(buf[..2]);
    buf := buf[2..];
    if len > MAX_PAYLOAD_SIZE {
      return Err(PayloadTooLarge(len, MAX_PAYLOAD_SIZE));
    }
    assert buf == slice[26..FRAME_SIZE];
    assert sessionId == slice[..16] && nonce == slice[16..24] && buf[..len] == slice[26..26 + len];
    return Ok(Frame(sessionId, nonce, buf[..len]));
  }

  /** `Frame::parse`: takes one block off the buffer even when its length field is refused. */
  method Parse(src: ByteBuf) returns (r: Result<Frame, ProtocolError>)
    modifies src
    ensures r == Unwire(old(src.data))
    ensures src.data == if |old(src.data)| < FRAME_SIZE then old(src.data) else old(src.data)[FRAME_SIZE..]
  {
    if |src.data| < FRAME_SIZE {
      return Err(FrameTooShort(FRAME_SIZE, |src.data|));
    }
    var block := src.SplitTo(FRAME_SIZE);
    UnwireLocal(old(src.data));
    r := FromSlice(block);
  }

  method Encode(item: Frame, dst: ByteBuf) returns (r: Result<(), ProtocolError>)
    modifies dst
    ensures r.Ok? <==> Fits(item)
    ensures r.Ok? ==> dst.data == old(dst.data) + Wire(item)
    ensures r.Err? ==> r.error == PayloadTooLarge(|item.payload|, MAX_PAYLOAD_SIZE) && dst.data == old(dst.data)
  {
    var len := |item.payload|;
    if len > MAX_PAYLOAD_SIZE {
      return Err(PayloadTooLarge(len, MAX_PAYLOAD_SIZE));
    }
    ghost var before := dst.data;
    dst.Put(item.sessionId);
    dst.Put(item.nonce);
    dst.Put(Be(len, 2));
    dst.Put(item.payload);
    assert dst.data == before + Content(item);
    dst.Put(Repeat(0, MAX_PAYLOAD_SIZE - len));
    assert dst.data == before + Wire(item);
    return Ok(());
  }

  /** One call of the streaming decoder: its answer and what is left in the buffer. */
  function DecodeStep(buf: seq<byte>): (Result<Option<Frame>, ProtocolError>, seq<byte>) {
    if |buf| < FRAME_SIZE then (Ok(None), buf)
    else match Unwire(buf[..FRAME_SIZE])
      case Ok(f) => (Ok(Some(f)), buf[FRAME_SIZE..])
      case Err(e) => (Err(e), buf[FRAME_SIZE..])
  }

  method Decode(src: ByteBuf) returns (r: Result<Option<Frame>, ProtocolError>)
    modifies src
    ensures (r, src.data) == DecodeStep(old(src.data))
  {
    if |src.data| < FRAME_SIZE {
      return Ok(None);
    }
    var block := src.SplitTo(FRAME_SIZE);
    var sessionId := block[..16];
    ghost var whole := block;
    block := block[16..];
    assert block == whole[16..FRAME_SIZE];
    var nonce := block[..8];
    block := block[8..];
    assert block == whole[24..FRAME_SIZE];
    assert block[..2] == whole[24..26];
    var len := GetU16(block[..2]);
    block := block[2..];
    assert block == whole[26..FRAME_SIZE];
    if len > MAX_PAYLOAD_SIZE {
      return Err(PayloadTooLarge(len, MAX_PAYLOAD_SIZE));
    }
    assert sessionId == whole[..16] && nonce == whole[16..24] && block[..len] == whole[26..26 + len];
    return Ok(Some(Frame(sessionId, nonce, block[..len])));
  }

  /** `decode_exact` turns "wait for more" into an error, and never consumes a short buffer. */
  method DecodeExact(src: ByteBuf) returns (r: Result<Frame, ProtocolError>)
    modifies src
    ensures r == Unwire(old(src.data))
    ensures src.data == DecodeStep(old(src.data)).1
  {
    UnwireLocal(src.data);
    if |src.data| < FRAME_SIZE {
      return Err(FrameTooShort(FRAME_SIZE, |src.data|));
    }
    var d := Decode(src);
    match d {
      case Err(e) => r := Err(e);
      case Ok(Some(f)) => r := Ok(f);
      case Ok(None) => assert false;
    }
  }

  /** `decode_eof`: at end of stream a partial block is an error, an empty buffer is a clean end. */
  method DecodeEof(src: ByteBuf) returns (r: Result<Option<Frame>, ProtocolError>)
    modifies src
    ensures src.data == DecodeStep(old(src.data)).1
    ensures |old(src.data)| >= FRAME_SIZE ==> r == DecodeStep(old(src.data)).0
    ensures 0 < |old(src.data)| < FRAME_SIZE ==> r == Err(FrameTooShort(FRAME_SIZE, |old(src.data)|))
    ensures old(src.data) == [] ==> r == Ok(None)
  {
    r := Decode(src);
    if r == Ok(None) && src.data != [] {
      r := Err(FrameTooShort(FRAME_SIZE, |src.data|));
    }
  }

  lemma {:induction false} UnwireLocal(s: seq<byte>)
    ensures |s| >= FRAME_SIZE ==> Unwire(s) == Unwire(s[..FRAME_SIZE])
  {
    if |s| >= FRAME_SIZE {
      var t := s[..FRAME_SIZE];
      assert s[..16] == t[..16] && s[16..24] == t[16..24] && s[24..26] == t[24..26];
      var len := GetU16(s[24..26]);
      if len <= MAX_PAYLOAD_SIZE {
        SliceOfPrefix(s, FRAME_SIZE, 26, 26 + len);
      }
    }
  }

  // ---------- streaming decode under arbitrary fragmentation ----------

  /** The reference reading of a stream: each consecutive 1420-byte block on its own. */
  function Blocks(stream: seq<byte>): (r: seq<Result<Frame, ProtocolError>>) {
    if |stream| < FRAME_SIZE then [] else [Unwire(stream[..FRAME_SIZE])] + Blocks(stream[FRAME_SIZE..])
  }

  /** Bytes that do not yet fill a block. */
  function Tail(stream: seq<byte>): (r: seq<byte>)
    ensures |r| < FRAME_SIZE
  {
    if |stream| < FRAME_SIZE then stream else Tail(stream[FRAME_SIZE..])
  }

  /** The stream is cut into |stream| / 1420 blocks and the last |stream| % 1420 bytes. */
  lemma {:induction false} BlockCount(stream: seq<byte>)
    ensures |stream| == 1420 * |Blocks(stream)| + |Tail(stream)|
    ensures Tail(stream) == stream[|stream| - |Tail(stream)|..]
  {
    if |stream| >= FRAME_SIZE {
      BlockCount(stream[FRAME_SIZE..]);
    }
  }

  /** Calling `decode` until it asks for more bytes. */
  function Drain(buf: seq<byte>): (seq<Result<Frame, ProtocolError>>, seq<byte>) {
    match DecodeStep(buf)
    case (Ok(None), rest) => ([], rest)
    case (Ok(Some(f)), rest) => var d := Drain(rest); ([Ok(f)] + d.0, d.1)
    case (Err(e), rest) => var d := Drain(rest); ([Err(e)] + d.0, d.1)
  }

  /** Chunks arriving one by one, the decoder being drained after each. */
  function Feed(buf: seq<byte>, chunks: seq<seq<byte>>): (seq<Result<Frame, ProtocolError>>, seq<byte>)
    decreases chunks
  {
    if chunks == [] then ([], buf)
    else
      var here := Drain(buf + chunks[0]);
      var later := Feed(here.1, chunks[1..]);
      (here.0 + later.0, later.1)
  }

  function Concat(chunks: seq<seq<byte>>): seq<byte> {
    if chunks == [] then [] else chunks[0] + Concat(chunks[1..])
  }

  lemma {:induction false} DrainIsBlocks(buf: seq<byte>)
    ensures Drain(buf) == (Blocks(buf), Tail(buf))
  {
    if |buf| >= FRAME_SIZE {
      var rest := buf[FRAME_SIZE..];
      DrainIsBlocks(rest);
    }
  }

  /** One whole block at the front is read on its own. */
  lemma {:induction false} FirstBlock(block: seq<byte>, rest: seq<byte>)
    requires |block| == FRAME_SIZE
    ensures Blocks(block + rest) == [Unwire(block)] + Blocks(rest)
    ensures Tail(block + rest) == Tail(rest)
  {
    Seam(block, rest);
  }

  /** Block boundaries do not move when more bytes arrive. */
  lemma {:induction false} BlocksAppend(a: seq<byte>, b: seq<byte>)
    ensures Blocks(a + b) == Blocks(a) + Blocks(Tail(a) + b)
    ensures Tail(a + b) == Tail(Tail(a) + b)
  {
    if |a| < FRAME_SIZE {
      assert Tail(a) == a && Blocks(a) == [];
    } else {
      var block, rest := a[..FRAME_SIZE], a[FRAME_SIZE..];
      BlocksAppend(rest, b);
      assert a == block + rest && a + b == block + (rest + b);
      FirstBlock(block, rest + b);
      FirstBlock(block, rest);
    }
  }

  /** However a stream is cut into chunks, the decoder reports the frames and errors of its blocks, in order,
      and keeps exactly the incomplete block: a refused length field never loses alignment. */
  lemma {:induction false} ChunkingIrrelevant(buf: seq<byte>, chunks: seq<seq<byte>>)
    requires |buf| < FRAME_SIZE
    ensures Feed(buf, chunks) == (Blocks(buf + Concat(chunks)), Tail(buf + Concat(chunks)))
    decreases chunks
  {
    if chunks == [] {
      assert buf + Concat(chunks) == buf;
      assert Tail(buf) == buf;
    } else {
      var joined := buf + chunks[0];
      DrainIsBlocks(joined);
      ChunkingIrrelevant(Tail(joined), chunks[1..]);
      BlocksAppend(joined, Concat(chunks[1..]));
      assert buf + Concat(chunks) == joined + Concat(chunks[1..]);
    }
  }

  function WireAll(fs: seq<Frame>): seq<byte>
    requires forall i :: 0 <= i < |fs| ==> Fits(fs[i])
  {
    if fs == [] then [] else Wire(fs[0]) + WireAll(fs[1..])
  }

  lemma {:induction false} BlocksOfWire(fs: seq<Frame>)
    requires forall i :: 0 <= i < |fs| ==> Fits(fs[i])
    ensures Blocks(WireAll(fs)) == seq(|fs|, i requires 0 <= i < |fs| => Ok(fs[i]))
    ensures Tail(WireAll(fs)) == []
  {
    if fs != [] {
      var first, rest := Wire(fs[0]), WireAll(fs[1..]);
      BlocksOfWire(fs[1..]);
      WireRoundTrip(fs[0], []);
      assert first + [] == first;
      FirstBlock(first, rest);
    }
  }

  /** Frames written back to back and delivered in any pieces come out exactly as they went in. */
  lemma {:induction false} StreamRoundTrip(fs: seq<Frame>, chunks: seq<seq<byte>>)
    requires forall i :: 0 <= i < |fs| ==> Fits(fs[i])
    requires Concat(chunks) == WireAll(fs)
    ensures Feed([], chunks).0 == seq(|fs|, i requires 0 <= i < |fs| => Ok(fs[i]))
    ensures Feed([], chunks).1 == []
  {
    ChunkingIrrelevant([], chunks);
    assert [] + Concat(chunks) == WireAll(fs);
    BlocksOfWire(fs);
  }

  // ---------- comparison without early exit ----------

  /** Exclusive or and inclusive or of the bits of two numbers, lowest bit first. */
  function Xor(x: nat, y: nat): nat
    decreases x + y
  {
    if x == 0 && y == 0 then 0 else (x + y) % 2 + 2 * Xor(x / 2, y / 2)
  }

  function Or(x: nat, y: nat): nat
    decreases x + y
  {
    if x == 0 && y == 0 then 0 else (if x % 2 == 1 || y % 2 == 1 then 1 else 0) + 2 * Or(x / 2, y / 2)
  }

  lemma {:induction false} XorZero(x: nat, y: nat)
    ensures Xor(x, y) == 0 <==> x == y
    decreases x + y
  {
    if x != 0 || y != 0 {
      XorZero(x / 2, y / 2);
    }
  }

  lemma {:induction false} OrZero(x: nat, y: nat)
    ensures Or(x, y) == 0 <==> x == 0 && y == 0
    decreases x + y
  {
    if x != 0 || y != 0 {
      OrZero(x / 2, y / 2);
    }
  }

  /** `constant_time_eq`: differences are or-ed together, and the answer is equality. */
  method ConstantTimeEq(a: seq<byte>, b: seq<byte>) returns (eq: bool)
    ensures eq <==> a == b
  {
    if |a| != |b| {
      return false;
    }
    var res: nat := 0;
    for i := 0 to |a|
      invariant res == 0 <==> a[..i] == b[..i]
    {
      XorZero(a[i], b[i]);
      OrZero(res, Xor(a[i], b[i]));
      assert a[..i + 1] == a[..i] + [a[i]] && b[..i + 1] == b[..i] + [b[i]];
      res := Or(res, Xor(a[i], b[i]));
    }
    assert a[..|a|] == a && b[..|b|] == b;
    return res == 0;
  }
}
