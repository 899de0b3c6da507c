/** The pseudo-TLS ClientHello and its parser.
    Layouts: record header (section 5.1 of RFC 8446), ClientHello (section 4.1.2 of RFC 8446), supported_versions
    (section 4.2.1 of RFC 8446), server_name (section 3 of RFC 6066). */
module ClientHello {
  import opened Bytes
  import Utf8

  const MAX_CLIENT_HELLO_SIZE: nat := 4096
  const TLS_HANDSHAKE_CONTENT_TYPE: byte := 0x16
  const TLS_CLIENT_HELLO_HANDSHAKE_TYPE: byte := 0x01
  const TLS_LEGACY_RECORD_VERSION: u16 := 0x0301
  const TLS_LEGACY_CLIENT_VERSION: u16 := 0x0303
  const TLS_1_3_VERSION: u16 := 0x0304
  const TLS_EXT_SERVER_NAME: u16 := 0x0000
  const TLS_EXT_SUPPORTED_GROUPS: u16 := 0x000a
  const TLS_EXT_SIGNATURE_ALGORITHMS: u16 := 0x000d
  const TLS_EXT_SUPPORTED_VERSIONS: u16 := 0x002b
  const TLS_EXT_KEY_SHARE: u16 := 0x0033
  const DOT: byte := 46

  datatype ObfuscationError = NotTlsHandshake | NotClientHello | MalformedData | PacketTooLarge

  type Random = s: seq<byte> | |s| == 32 witness Repeat(0, 32)

  datatype Hello = Hello(
    legacyVersion: u16, random: Random, sessionId: seq<byte>, cipherSuites: seq<u16>,
    sni: Option<seq<byte>>, isTls13: bool)

  datatype Status = Complete(hello: Hello) | NeedMoreData(expected: nat) | Invalid(error: ObfuscationError)

  const MALFORMED: Status := Invalid(MalformedData)

  // ---------- what a byte string means as a ClientHello record ----------

  function RecordEnd(src: seq<byte>): nat
    requires |src| >= 5
  {
    5 + GetU16(src[3..5])
  }

  function Parse(src: seq<byte>): Status {
    if |src| < 5 then NeedMoreData(5)
    else if src[0] != TLS_HANDSHAKE_CONTENT_TYPE then Invalid(NotTlsHandshake)
    else if RecordEnd(src) > MAX_CLIENT_HELLO_SIZE then Invalid(PacketTooLarge)
    else if |src| < RecordEnd(src) then NeedMoreData(RecordEnd(src))
    else ParseRecord(src[5..RecordEnd(src)])
  }

  function ParseRecord(body: seq<byte>): Status {
    if body == [] || body[0] != TLS_CLIENT_HELLO_HANDSHAKE_TYPE then Invalid(NotClientHello)
    else if |body| < 4 then MALFORMED
    else
      var n := FromBe(body[1..4]);
      if |body| - 4 < n then MALFORMED else ParseHello(body[4..4 + n])
  }

  /** Version, random and session id. */
  function ParseHello(h: seq<byte>): Status {
    if |h| < 35 || |h| - 35 < h[34] then MALFORMED
    else
      var n: int := h[34];
      ParseSuites(Hello(GetU16(h[..2]), h[2..34], h[35..35 + n], [], None, false), h[35 + n..])
  }

  function ParseSuites(hello: Hello, rest: seq<byte>): Status {
    if |rest| < 2 then MALFORMED
    else
      var n := GetU16(rest[..2]);
      if |rest| - 2 < n || n % 2 != 0 then MALFORMED
      else ParseCompression(hello.(cipherSuites := Words(rest[2..2 + n])), rest[2 + n..])
  }

  function ParseCompression(hello: Hello, rest: seq<byte>): Status {
    if rest == [] || |rest| - 1 < rest[0] then MALFORMED
    else ParseExtensions(hello, rest[1 + rest[0] as int..])
  }

  function ParseExtensions(hello: Hello, rest: seq<byte>): Status {
    if |rest| < 2 then Complete(hello)
    else
      var n := GetU16(rest[..2]);
      if |rest| - 2 < n then MALFORMED
      else match Extensions(rest[2..2 + n], hello)
        case None => MALFORMED
        case Some(h) => Complete(h)
  }

  function Words(s: seq<byte>): seq<u16> {
    if |s| < 2 then [] else [GetU16(s[..2])] + Words(s[2..])
  }

  /** The extension list, one extension after the other; a later one overrides an earlier one. */
  function Extensions(buf: seq<byte>, hello: Hello): Option<Hello>
    decreases |buf|
  {
    if |buf| < 4 then Some(hello)
    else
      var n := GetU16(buf[2..4]);
      if |buf| - 4 < n then None
      else Extensions(buf[4 + n..], Note(GetU16(buf[..2]), buf[4..4 + n], hello))
  }

  function Note(kind: u16, data: seq<byte>, hello: Hello): Hello {
    if kind == TLS_EXT_SERVER_NAME && ServerName(data).Some? then hello.(sni := ServerName(data))
    else if kind == TLS_EXT_SUPPORTED_VERSIONS && OffersTls13(data) then hello.(isTls13 := true)
    else hello
  }

  function ServerName(data: seq<byte>): Option<seq<byte>> {
    if |data| < 5 then None
    else
      var n := GetU16(data[3..5]);
      if data[2] == 0 && |data| - 5 >= n && Utf8.Valid(data[5..5 + n]) then Some(Lower(data[5..5 + n])) else None
  }

  predicate OffersTls13(data: seq<byte>) {
    data != [] && |data| - 1 >= data[0] && TLS_1_3_VERSION in Words(data[1..1 + data[0] as int])
  }

  function LowerByte(b: byte): byte {
    if 65 <= b <= 90 then b + 32 else b
  }

  function Lower(s: seq<byte>): (t: seq<byte>)
    ensures |t| == |s|
  {
    seq(|s|, i requires 0 <= i < |s| => LowerByte(s[i]))
  }

  /** Exactly the capital letters are lowered, each to its own small letter. */
  lemma {:induction false} LowerIs(s: seq<byte>, i: nat)
    requires i < |s|
    ensures var capitals, smalls := "ABCDEFGHIJKLMNOPQRSTUVWXYZ", "abcdefghijklmnopqrstuvwxyz";
      && |capitals| == |smalls|
      && (forall k :: 0 <= k < |capitals| && s[i] == capitals[k] as int ==> Lower(s)[i] == smalls[k] as int)
      && ((forall k :: 0 <= k < |capitals| ==> s[i] != capitals[k] as int) ==> Lower(s)[i] == s[i])
  {
    var capitals := "ABCDEFGHIJKLMNOPQRSTUVWXYZ";
    LetterTable();
    if 65 <= s[i] <= 90 {
      assert capitals[s[i] - 65] as int == s[i];
    }
  }

  lemma {:induction false} LetterTable()
    ensures var capitals, smalls := "ABCDEFGHIJKLMNOPQRSTUVWXYZ", "abcdefghijklmnopqrstuvwxyz";
      |capitals| == 26 == |smalls|
      && forall k :: 0 <= k < 26 ==> capitals[k] as int == 65 + k && smalls[k] as int == 97 + k
  {
    CapitalTable();
    SmallTable();
  }

  lemma {:induction false} CapitalTable()
    ensures var capitals := "ABCDEFGHIJKLMNOPQRSTUVWXYZ";
      |capitals| == 26 && forall k :: 0 <= k < 26 ==> capitals[k] as int == 65 + k
  {
  }

  lemma {:induction false} SmallTable()
    ensures var smalls := "abcdefghijklmnopqrstuvwxyz";
      |smalls| == 26 && forall k :: 0 <= k < 26 ==> smalls[k] as int == 97 + k
  {
  }

  /** A verdict, once reached, depends only on the bytes of the record, or on its header alone when the record is refused
      before it is complete: cutting the rest off or appending to it never changes it. A demand for more bytes is for
      the whole header, or for exactly the whole record, which fits the limit. */
  lemma {:induction false} VerdictIsLocal(src: seq<byte>, more: seq<byte>)
    ensures !Parse(src).NeedMoreData? ==> Parse(src + more) == Parse(src)
    ensures Parse(src).Complete? ==> |src| >= 5 && RecordEnd(src) <= |src|
    ensures !Parse(src).NeedMoreData? ==>
      |src| >= 5 && Parse(src) == Parse(src[..if RecordEnd(src) <= |src| then RecordEnd(src) else 5])
    ensures Parse(src).NeedMoreData? ==>
      |src| < Parse(src).expected <= MAX_CLIENT_HELLO_SIZE
      && (Parse(src).expected == 5 || (|src| >= 5 && Parse(src).expected == RecordEnd(src)))
  {
    if |src| >= 5 {
      var n := RecordEnd(src);
      assert (src + more)[3..5] == src[3..5] == src[..5][3..5];
      if n <= |src| {
        assert src[..n][3..5] == src[3..5];
        assert (src + more)[5..n] == src[5..n] == src[..n][5..n];
        RecordNeedsNothing(src[5..n]);
      }
    }
  }

  lemma {:induction false} RecordNeedsNothing(body: seq<byte>)
    ensures !ParseRecord(body).NeedMoreData?
  {
  }

  // ---------- the parser as the source runs it ----------

  method ParseClientHello(src: seq<byte>) returns (status: Status)
    ensures status == Parse(src)
  {
    if |src| < 5 {
      return NeedMoreData(5);
    }
    if src[0] != TLS_HANDSHAKE_CONTENT_TYPE {
      return Invalid(NotTlsHandshake);
    }
    var recordLen := GetU16(src[3..5]);
    var totalLen: int := 5 + recordLen as int;
    if totalLen > MAX_CLIENT_HELLO_SIZE {
      return Invalid(PacketTooLarge);
    }
    if |src| < totalLen {
      return NeedMoreData(totalLen);
    }
    var body := src[5..totalLen];
    if body == [] || body[0] != TLS_CLIENT_HELLO_HANDSHAKE_TYPE {
      return Invalid(NotClientHello);
    }
    body := body[1..];
    if |body| < 3 {
      return MALFORMED;
    }
    assert body[..3] == src[5..totalLen][1..4];
    var hsLen := FromBe(body[..3]);
    body := body[3..];
    if |body| < hsLen {
      return MALFORMED;
    }
    assert body[..hsLen] == src[5..totalLen][4..4 + hsLen];
    status := ParseHandshake(body[..hsLen]);
  }

  /** The fixed fields of the handshake body and its session id. */
  method ParseHandshake(handshake: seq<byte>) returns (status: Status)
    ensures status == ParseHello(handshake)
  {
    var hs := handshake;
    if |hs| < 2 {
      return MALFORMED;
    }
    var legacyVersion := GetU16(hs[..2]);
    hs := hs[2..];
    if |hs| < 32 {
      return MALFORMED;
    }
    var random := hs[..32];
    hs := hs[32..];
    if hs == [] {
      return MALFORMED;
    }
    var idLen: int := hs[0];
    hs := hs[1..];
    if |hs| < idLen {
      return MALFORMED;
    }
    var sessionId := hs[..idLen];
    hs := hs[idLen..];
    assert random == handshake[2..34] && sessionId == handshake[35..35 + idLen] && hs == handshake[35 + idLen..];
    status := ParseLists(Hello(legacyVersion, random, sessionId, [], None, false), hs);
  }

  /** The lists that follow the session id: cipher suites, compression methods, extensions. */
  method ParseLists(start: Hello, tail: seq<byte>) returns (status: Status)
    ensures status == ParseSuites(start, tail)
  {
    var hs, hello := tail, start;
    ghost var rest := hs;
    if |hs| < 2 {
      return MALFORMED;
    }
    var suitesLen := GetU16(hs[..2]);
    hs := hs[2..];
    if |hs| < suitesLen || suitesLen % 2 != 0 {
      return MALFORMED;
    }
    assert hs[..suitesLen] == rest[2..2 + suitesLen] && hs[suitesLen..] == rest[2 + suitesLen..];
    var suites := ReadWords(hs[..suitesLen]);
    hs := hs[suitesLen..];
    hello := hello.(cipherSuites := suites);

    if hs == [] {
      return MALFORMED;
    }
    rest := hs;
    var compLen: int := hs[0];
    hs := hs[1..];
    if |hs| < compLen {
      return MALFORMED;
    }
    hs := hs[compLen..];
    assert hs == rest[1 + compLen..];

    if |hs| >= 2 {
      rest := hs;
      var extensionsLen := GetU16(hs[..2]);
      hs := hs[2..];
      if |hs| < extensionsLen {
        return MALFORMED;
      }
      assert hs[..extensionsLen] == rest[2..2 + extensionsLen];
      var noted := ReadExtensions(hs[..extensionsLen], hello);
      if noted.None? {
        return MALFORMED;
      }
      hello := noted.value;
    }
    return Complete(hello);
  }

  method ReadWords(s: seq<byte>) returns (words: seq<u16>)
    ensures words == Words(s)
  {
    words := [];
    var slice := s;
    while |slice| >= 2
      invariant words + Words(slice) == Words(s)
      decreases |slice|
    {
      words := words + [GetU16(slice[..2])];
      slice := slice[2..];
    }
  }

  method ReadExtensions(buf: seq<byte>, start: Hello) returns (r: Option<Hello>)
    ensures r == Extensions(buf, start)
  {
    var ext, hello := buf, start;
    while |ext| >= 4
      invariant Extensions(ext, hello) == Extensions(buf, start)
      decreases |ext|
    {
      var kind := GetU16(ext[..2]);
      var len := GetU16(ext[2..4]);
      var before := ext;
      ext := ext[4..];
      if |ext| < len {
        return None;
      }
      assert ext[..len] == before[4..4 + len] && ext[len..] == before[4 + len..];
      var data := ext[..len];
      ext := ext[len..];
      if kind == TLS_EXT_SERVER_NAME {
        var name := ServerName(data);
        if name.Some? {
          hello := hello.(sni := name);
        }
      } else if kind == TLS_EXT_SUPPORTED_VERSIONS && data != [] {
        var offered := ReadVersions(data);
        if offered {
          hello := hello.(isTls13 := true);
        }
      }
    }
    return Some(hello);
  }

  method ReadVersions(data: seq<byte>) returns (tls13: bool)
    requires data != []
    ensures tls13 <==> OffersTls13(data)
  {
    var len: int := data[0];
    var slice := data[1..];
    if |slice| < len {
      return false;
    }
    var list := slice[..len];
    assert list == data[1..1 + len];
    while |list| >= 2
      invariant TLS_1_3_VERSION in Words(list) <==> TLS_1_3_VERSION in Words(data[1..1 + len])
      decreases |list|
    {
      if GetU16(list[..2]) == TLS_1_3_VERSION {
        return true;
      }
      list := list[2..];
    }
    return false;
  }
}
