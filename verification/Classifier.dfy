/** How the relay tells its own clients from other traffic, from the first bytes of a connection. */
module Classifier {
  import opened Bytes
  import opened ClientHello
  import opened HelloBuilder
  import Text
  import Utf8

  /** Authenticated: a session that will read `unread`. Fallback: the upstream is sent `seen`, everything from the
      first byte on. EndedEarly: the stream stopped before the record was complete. Closed: nothing ever came. */
  datatype Verdict = Authenticated(unread: seq<byte>) | Fallback(seen: seq<byte>) | EndedEarly | Closed

  /** The verdict on a TLS-like stream when all of it is parsed at once. */
  function WholeStream(stream: seq<byte>, v: TokenValidator, devMode: bool): Verdict {
    match Parse(stream)
    case NeedMoreData(_) => EndedEarly
    case Invalid(_) => Fallback(stream)
    case Complete(hello) =>
      if devMode || Validate(v, hello)
      then VerdictIsLocal(stream, []); Authenticated(stream[RecordEnd(stream)..])
      else Fallback(stream)
  }

  /** What becomes of a TLS-like stream. A session that reads what follows the record: exactly if the record parses to a
      hello that the validator admits, or in development mode. The fallback, which sees everything: exactly if the record
      is refused, or its hello is not admitted. Nothing, if the stream ends before the record does. */
  ghost predicate IsVerdict(stream: seq<byte>, v: TokenValidator, devMode: bool, verdict: Verdict) {
    match verdict
    case Authenticated(unread) =>
      && Parse(stream).Complete? && (devMode || Admits(v, Parse(stream).hello)) && |stream| >= 5
      && var end := 5 + (stream[3] as int) * 256 + stream[4]; end <= |stream| && unread == stream[end..]
    case Fallback(seen) =>
      && seen == stream
      && (Parse(stream).Invalid? || (Parse(stream).Complete? && !devMode && !Admits(v, Parse(stream).hello)))
    case EndedEarly => Parse(stream).NeedMoreData?
    case Closed => false
  }

  /** There is exactly one such verdict, and it is the one given. */
  lemma {:induction false} VerdictIff(stream: seq<byte>, v: TokenValidator, devMode: bool, verdict: Verdict)
    ensures verdict == WholeStream(stream, v, devMode) <==> IsVerdict(stream, v, devMode, verdict)
  {
    if Parse(stream).Complete? {
      VerdictIsLocal(stream, []);
      FromBe2(stream[3..5]);
      ValidateIff(v, Parse(stream).hello);
    }
  }

  /** A client with token `token` comes to a relay with secret `secret`: it is let in if and only if there is a secret,
      and it is what the random field starts with or holds, or the server name, or the part of it before a dot.
      Otherwise the fallback sees every byte. */
  lemma {:induction false} BuiltIsLetInIff(token: seq<byte>, host: seq<byte>, tokenInSni: bool, secret: seq<byte>,
                                           noise: seq<byte>)
    requires token != [] && Utf8.Valid(host) && |SniName(token, host, tokenInSni)| <= 3926
    ensures var random := RandomField(token, tokenInSni);
      var sni := if tokenInSni then Text.Hex(token) + [DOT] + Lower(host) else Lower(host);
      var found := || (if |secret| <= 32 then secret <= random else secret[..32] == random)
                   || secret == sni || secret + [DOT] <= sni;
      var stream := Built(token, host, tokenInSni) + noise;
      WholeStream(stream, TokenValidator(secret, None, false), false)
      == if secret != [] && found then Authenticated(noise) else Fallback(stream)
  {
    var stream := Built(token, host, tokenInSni) + noise;
    BuiltHelloIsAccepted(token, host, tokenInSni, noise);
    SniIsText(token, host, tokenInSni);
    RecordIsRead(RandomField(token, tokenInSni), SniName(token, host, tokenInSni), noise);
    Seam(Built(token, host, tokenInSni), noise);
    ValidateIff(TokenValidator(secret, None, false), Parse(stream).hello);
  }

  /** Extending the bytes read so far never changes a verdict already reached. */
  lemma {:induction false} PrefixDecides(stream: seq<byte>, n: nat)
    requires n <= |stream| && !Parse(stream[..n]).NeedMoreData?
    ensures Parse(stream) == Parse(stream[..n])
    ensures Parse(stream).Complete? ==> n >= 5 && RecordEnd(stream) == RecordEnd(stream[..n]) <= n
  {
    VerdictIsLocal(stream[..n], stream[n..]);
    assert stream[..n] + stream[n..] == stream;
    if n >= 5 {
      assert stream[3..5] == stream[..n][3..5];
    }
  }

  /** A stream too short for what the parser asks next is not a whole record either. */
  lemma {:induction false} ShortStreamNeedsMore(stream: seq<byte>, n: nat)
    requires n <= |stream| && Parse(stream[..n]).NeedMoreData? && |stream| < Parse(stream[..n]).expected
    requires stream != [] && stream[0] == TLS_HANDSHAKE_CONTENT_TYPE
    ensures Parse(stream).NeedMoreData?
  {
    VerdictIsLocal(stream[..n], []);
    if n >= 5 {
      assert stream[3..5] == stream[..n][3..5];
    }
  }

  /** A parsed hello: validated, then cut off what was read; what is left over is read first by the session. */
  method Admit(stream: seq<byte>, initial: seq<byte>, parsed: Hello, v: TokenValidator, devMode: bool)
    returns (verdict: Verdict)
    requires initial <= stream && Parse(initial) == Complete(parsed)
    ensures verdict == WholeStream(stream, v, devMode)
  {
    ghost var n := |initial|;
    assert initial == stream[..n] && initial + stream[n..] == stream;
    PrefixDecides(stream, n);
    var consumed := 5 + GetU16(initial[3..5]) as int;
    var valid := ValidateHello(v, parsed);
    if !(devMode || valid) {
      return Fallback(initial + stream[|initial|..]);
    }
    var leftover := if |initial| > consumed then initial[consumed..] else [];
    assert leftover + stream[|initial|..] == stream[consumed..];
    return Authenticated(leftover + stream[|initial|..]);
  }

  /** The verdict on a TLS-like stream. `first` is the size of the first read, up to the 1024-byte buffer; `topUps` counts
      further reads. The verdict is the one on the whole stream, whatever `first` was, after at most two top-ups. */
  method ClassifyTls(stream: seq<byte>, first: nat, v: TokenValidator, devMode: bool)
    returns (verdict: Verdict, topUps: nat)
    requires 1 <= first <= 1024 && first <= |stream| && stream[0] == TLS_HANDSHAKE_CONTENT_TYPE
    ensures verdict == WholeStream(stream, v, devMode) && IsVerdict(stream, v, devMode, verdict)
    ensures topUps <= 2
  {
    verdict, topUps := TopUp(stream, first, v, devMode);
    VerdictIff(stream, v, devMode, verdict);
  }

  /** The top-up loop. */
  method TopUp(stream: seq<byte>, first: nat, v: TokenValidator, devMode: bool) returns (verdict: Verdict, topUps: nat)
    requires 1 <= first <= 1024 && first <= |stream| && stream[0] == TLS_HANDSHAKE_CONTENT_TYPE
    ensures verdict == WholeStream(stream, v, devMode)
    ensures topUps <= 2
  {
    var initial := stream[..first];
    topUps := 0;
    while true
      invariant first <= |initial| <= |stream| && initial == stream[..|initial|]
      invariant topUps <= 2
      invariant topUps >= 1 ==> |initial| >= 5
      invariant topUps == 2 ==> !Parse(initial).NeedMoreData?
      decreases 2 - topUps
    {
      var status := ParseClientHello(initial);
      VerdictIsLocal(initial, []);
      match status {
        case Complete(parsed) =>
          verdict := Admit(stream, initial, parsed, v, devMode);
          return;
        case NeedMoreData(expected) =>
          if expected > MAX_CLIENT_HELLO_SIZE || expected <= |initial| {
            assert false;
          }
          if |stream| < expected {
            ShortStreamNeedsMore(stream, |initial|);
            verdict := EndedEarly;
            return;
          }
          var rest := stream[|initial|..expected];
          ghost var before := initial;
          initial := initial + rest;
          topUps := topUps + 1;
          TopUpSuffices(before, initial, topUps);
        case Invalid(_) =>
          PrefixDecides(stream, |initial|);
          assert initial + stream[|initial|..] == stream;
          verdict := Fallback(initial + stream[|initial|..]);
          return;
      }
    }
  }

  /** After the header has been completed, one more read completes the record. */
  lemma {:induction false} TopUpSuffices(before: seq<byte>, after: seq<byte>, topUps: nat)
    requires before <= after && Parse(before).NeedMoreData? && |after| == Parse(before).expected
    requires topUps >= 2 ==> |before| >= 5
    ensures |after| >= 5
    ensures topUps >= 2 ==> !Parse(after).NeedMoreData?
  {
    VerdictIsLocal(before, []);
    if |before| >= 5 {
      assert after[3..5] == before[3..5];
      RecordNeedsNothing(after[5..RecordEnd(after)]);
    }
  }

  /** A client that sends the built hello and then `noise` gets a session that reads exactly `noise`, however the
      bytes arrive. */
  lemma {:induction false} ClientIsLetIn(token: seq<byte>, host: seq<byte>, tokenInSni: bool, noise: seq<byte>)
    requires token != [] && Utf8.Valid(host) && |SniName(token, host, tokenInSni)| <= 3926
    ensures var v := TokenValidator(if tokenInSni then Text.Hex(token) else token, None, false);
      WholeStream(Built(token, host, tokenInSni) + noise, v, false) == Authenticated(noise)
  {
    var hello := Built(token, host, tokenInSni);
    BuiltHelloIsAccepted(token, host, tokenInSni, noise);
    SniIsText(token, host, tokenInSni);
    RecordIsRead(RandomField(token, tokenInSni), SniName(token, host, tokenInSni), noise);
    Seam(hello, noise);
  }

  // ---------- traffic that does not look like TLS ----------

  /** A bare Noise handshake is let in only in insecure mode, on the length field in the first read. */
  function ClassifyRaw(stream: seq<byte>, first: nat, insecureNoToken: bool): Verdict
    requires 1 <= first <= |stream|
  {
    var messageLen: int := if first >= 2 then GetU16(stream[..first][..2]) else 0;
    if insecureNoToken && 32 <= messageLen <= 128 then Authenticated(stream) else Fallback(stream)
  }

  /** A session that reads everything: exactly with the bypass on, two bytes in the first read, and a length field from
      32 to 128. The fallback, which sees everything: otherwise. */
  lemma {:induction false} RawVerdictIs(stream: seq<byte>, first: nat, insecureNoToken: bool)
    requires 1 <= first <= |stream|
    ensures ClassifyRaw(stream, first, insecureNoToken)
      == if insecureNoToken && first >= 2 && 32 <= (stream[0] as int) * 256 + stream[1] <= 128
         then Authenticated(stream) else Fallback(stream)
  {
    if first >= 2 {
      FromBe2(stream[..first][..2]);
    }
  }

  /** Here the verdict does depend on the first read: it is the same for all sizes exactly when the bypass is off or
      the length field is out of range. Otherwise a one-byte first read is sent to the fallback, a longer one is not. */
  lemma {:induction false} RawVerdictStableIff(stream: seq<byte>, insecureNoToken: bool)
    requires |stream| >= 2
    ensures (forall n :: 1 <= n <= |stream| ==>
               ClassifyRaw(stream, n, insecureNoToken) == ClassifyRaw(stream, |stream|, insecureNoToken))
      <==> !(insecureNoToken && 32 <= GetU16(stream[..2]) <= 128)
  {
    assert stream[..|stream|] == stream;
    forall n | 2 <= n <= |stream| ensures stream[..n][..2] == stream[..2] {
    }
    assert ClassifyRaw(stream, 1, insecureNoToken) == Fallback(stream);
  }

  /** The whole decision on a new connection. The first read returns between one and 1024 bytes, or none at the end of
      the stream. */
  method Classify(stream: seq<byte>, first: nat, v: TokenValidator, devMode: bool) returns (verdict: Verdict)
    requires first <= |stream| && first <= 1024 && (first == 0 ==> stream == [])
    ensures stream == [] ==> verdict == Closed
    ensures stream != [] && stream[0] == TLS_HANDSHAKE_CONTENT_TYPE ==>
      IsVerdict(stream, v, devMode || v.insecureNoToken, verdict)
    ensures stream != [] && stream[0] != TLS_HANDSHAKE_CONTENT_TYPE ==>
      verdict == if v.insecureNoToken && first >= 2 && 32 <= (stream[0] as int) * 256 + stream[1] <= 128
                 then Authenticated(stream) else Fallback(stream)
  {
    if first == 0 {
      return Closed;
    }
    if stream[0] == TLS_HANDSHAKE_CONTENT_TYPE {
      var topUps;
      verdict, topUps := ClassifyTls(stream, first, v, devMode || v.insecureNoToken);
    } else {
      RawVerdictIs(stream, first, v.insecureNoToken);
      verdict := ClassifyRaw(stream, first, v.insecureNoToken);
    }
  }

  // ---------- handing over what was read ahead ----------

  /** `PrefixedStream`: bytes read ahead are served first, then the connection itself. */
  class PrefixedStream {
    var prefix: seq<byte>
    var position: nat
    var inner: seq<byte>

    ghost predicate Valid()
      reads this
    {
      position <= |prefix|
    }

    ghost function Unread(): seq<byte>
      requires Valid()
      reads this
    {
      prefix[position..] + inner
    }

    constructor (prefix: seq<byte>, inner: seq<byte>)
      ensures Valid() && Unread() == prefix + inner
    {
      this.prefix, this.inner, position := prefix, inner, 0;
    }

    /** Up to `remaining` bytes; the connection itself has `ready` bytes to give. Nothing is lost, repeated or
        reordered, and reads from the prefix make progress. */
    method PollRead(remaining: nat, ready: nat) returns (bytes: seq<byte>)
      requires Valid()
      modifies this
      ensures Valid() && old(Unread()) == bytes + Unread()
      ensures |bytes| == (var there := if old(position) < |old(prefix)| then |old(prefix)| - old(position)
                                       else if ready < |old(inner)| then ready else |old(inner)|;
                          if there < remaining then there else remaining)
      ensures remaining > 0 && (old(position) < |old(prefix)| || (ready > 0 && old(inner) != [])) ==> bytes != []
    {
      if position < |prefix| {
        var n := Min(|prefix| - position, remaining);
        bytes := prefix[position..position + n];
        position := position + n;
        assert old(prefix[position..]) == bytes + prefix[position..];
      } else {
        var n := Min(Min(ready, remaining), |inner|);
        bytes := inner[..n];
        inner := inner[n..];
      }
    }
  }
}
