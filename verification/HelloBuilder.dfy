/** The disguised ClientHello a client sends, and the check the relay applies to what it parsed. */
module HelloBuilder {
  import opened Bytes
  import opened ClientHello
  import opened Text
  import Frames
  import L = HelloLayout
  import Utf8

  const SUITES: seq<u16> := [0x1301, 0x1302, 0x1303]

  // ---------- the record, as nested length-prefixed parts ----------

  function SniData(name: seq<byte>): (s: seq<byte>)
    ensures |s| == 5 + |name|
  {
    Be(3 + |name|, 2) + ([0] + (Be(|name|, 2) + name))
  }

  const VERSIONS_DATA: seq<byte> := [4] + Be(TLS_1_3_VERSION, 2) + Be(TLS_LEGACY_CLIENT_VERSION, 2)
  const GROUPS_DATA: seq<byte> := Be(4, 2) + Be(0x001d, 2) + Be(0x0017, 2)
  const SIGNATURES_DATA: seq<byte> := Be(6, 2) + Be(0x0403, 2) + Be(0x0804, 2) + Be(0x0807, 2)
  const KEY_SHARE_DATA: seq<byte> := Be(36, 2) + Be(0x001d, 2) + Be(32, 2) + Repeat(0x42, 32)
  const SUITE_BYTES: seq<byte> := Be(0x1301, 2) + Be(0x1302, 2) + Be(0x1303, 2)

  function ExtensionList(name: seq<byte>): (s: seq<byte>)
    ensures |s| == 82 + |name|
  {
    L.Extension(TLS_EXT_SERVER_NAME, SniData(name))
    + (L.Extension(TLS_EXT_SUPPORTED_VERSIONS, VERSIONS_DATA)
       + (L.Extension(TLS_EXT_SUPPORTED_GROUPS, GROUPS_DATA)
          + (L.Extension(TLS_EXT_SIGNATURE_ALGORITHMS, SIGNATURES_DATA)
             + L.Extension(TLS_EXT_KEY_SHARE, KEY_SHARE_DATA))))
  }

  function FromCompression(name: seq<byte>): (s: seq<byte>)
    ensures |s| == 86 + |name|
  {
    [1, 0] + (Be(82 + |name|, 2) + ExtensionList(name))
  }

  function Lists(name: seq<byte>): (s: seq<byte>)
    ensures |s| == 94 + |name|
  {
    Be(6, 2) + (SUITE_BYTES + FromCompression(name))
  }

  function FixedFields(random: Random): (s: seq<byte>)
    ensures |s| == 67
  {
    Be(TLS_LEGACY_CLIENT_VERSION, 2) + random + [32] + Repeat(0x22, 32)
  }

  function Handshake(random: Random, name: seq<byte>): (s: seq<byte>)
    ensures |s| == 161 + |name|
  {
    FixedFields(random) + Lists(name)
  }

  function RecordBody(random: Random, name: seq<byte>): (s: seq<byte>)
    ensures |s| == 165 + |name|
  {
    [TLS_CLIENT_HELLO_HANDSHAKE_TYPE] + Be(161 + |name|, 3) + Handshake(random, name)
  }

  function Record(random: Random, name: seq<byte>): (s: seq<byte>)
    ensures |s| == 170 + |name|
  {
    [TLS_HANDSHAKE_CONTENT_TYPE] + Be(TLS_LEGACY_RECORD_VERSION, 2) + Be(165 + |name|, 2) + RecordBody(random, name)
  }

  /** A token in the random field: its first 32 bytes, the rest filled with 0x5a. */
  function RandomField(token: seq<byte>, tokenInSni: bool): Random {
    if tokenInSni then Repeat(0x5a, 32)
    else if |token| >= 32 then token[..32]
    else token + Repeat(0x5a, 32 - |token|)
  }

  /** A token in the random field is there byte for byte, as far as it goes; all else is 0x5a. */
  lemma {:induction false} RandomFieldIs(token: seq<byte>, tokenInSni: bool, i: nat)
    requires i < 32
    ensures RandomField(token, tokenInSni)[i] == if !tokenInSni && i < |token| then token[i] else 0x5a
  {
  }

  function SniName(token: seq<byte>, host: seq<byte>, tokenInSni: bool): seq<byte> {
    if tokenInSni then Hex(token) + [DOT] + host else host
  }

  function Built(token: seq<byte>, host: seq<byte>, tokenInSni: bool): seq<byte> {
    Record(RandomField(token, tokenInSni), SniName(token, host, tokenInSni))
  }

  // ---------- parsing what was built ----------

  lemma {:induction false} SuitesAreRead()
    ensures Words(SUITE_BYTES) == SUITES
  {
    var c := Be(0x1303, 2) + [];
    var b := Be(0x1302, 2) + c;
    assert SUITE_BYTES == Be(0x1301, 2) + b;
    L.FirstWord(0x1301, b);
    L.FirstWord(0x1302, c);
    L.FirstWord(0x1303, []);
  }

  lemma {:induction false} ListsParts(name: seq<byte>)
    ensures var rest := Lists(name);
      rest[..2] == Be(6, 2) && rest[2..8] == SUITE_BYTES && rest[8..] == FromCompression(name)
  {
    var a, b, c := Be(6, 2), SUITE_BYTES, FromCompression(name);
    Seam(a, b + c);
    assert Lists(name) == a + b + c;
    Middle(a, b, c);
    Seam(a + b, c);
  }

  lemma {:induction false} FixedParts(random: Random, tail: seq<byte>)
    ensures var h := FixedFields(random) + tail;
      && h[..2] == Be(TLS_LEGACY_CLIENT_VERSION, 2) && h[2..34] == random && h[34] == 32
      && h[35..67] == Repeat(0x22, 32) && h[67..] == tail
  {
    var v, z := Be(TLS_LEGACY_CLIENT_VERSION, 2), Repeat(0x22, 32);
    var h := FixedFields(random) + tail;
    Seam(FixedFields(random), tail);
    assert h == v + random + ([32] + z + tail);
    Middle(v, random, [32] + z + tail);
    assert h == (v + random + [32]) + z + tail;
    Middle(v + random + [32], z, tail);
  }

  lemma {:induction false} BodyParts(random: Random, name: seq<byte>)
    ensures var body := RecordBody(random, name);
      && body[0] == TLS_CLIENT_HELLO_HANDSHAKE_TYPE && body[1..4] == Be(161 + |name|, 3)
      && body[4..165 + |name|] == Handshake(random, name)
  {
    var a, b, c := [TLS_CLIENT_HELLO_HANDSHAKE_TYPE], Be(161 + |name|, 3), Handshake(random, name);
    Middle(a, b, c);
    Seam(a + b, c);
  }

  lemma {:induction false} RecordParts(random: Random, name: seq<byte>, more: seq<byte>)
    ensures var src := Record(random, name) + more;
      && src[0] == TLS_HANDSHAKE_CONTENT_TYPE && src[3..5] == Be(165 + |name|, 2)
      && src[5..170 + |name|] == RecordBody(random, name)
  {
    var a := [TLS_HANDSHAKE_CONTENT_TYPE] + Be(TLS_LEGACY_RECORD_VERSION, 2);
    var b, c := Be(165 + |name|, 2), RecordBody(random, name);
    assert Record(random, name) + more == a + b + (c + more);
    Middle(a, b, c + more);
    assert Record(random, name) + more == (a + b) + c + more;
    Middle(a + b, c, more);
  }

  // ---------- the record as a record of fields ----------

  // The extensions as they go over the wire, byte by byte.
  const VERSIONS: L.Ext := L.Ext(0x002b, [0x04, 0x03, 0x04, 0x03, 0x03])
  const GROUPS: L.Ext := L.Ext(0x000a, [0x00, 0x04, 0x00, 0x1d, 0x00, 0x17])
  const SIGNATURES: L.Ext := L.Ext(0x000d, [0x00, 0x06, 0x04, 0x03, 0x08, 0x04, 0x08, 0x07])
  const KEY_SHARE: L.Ext := L.Ext(0x0033, [0x00, 0x24, 0x00, 0x1d, 0x00, 0x20] + Repeat(0x42, 32))

  function ServerNameExt(name: seq<byte>): L.Ext {
    L.Ext(0x0000, Be(3 + |name|, 2) + ([0] + (Be(|name|, 2) + name)))
  }

  /** What a client sends: version 0x0303, the random field, 32 session id bytes 0x22, the three TLS 1.3 suites, the null
      compression method, and five extensions. */
  function SentFields(random: Random, name: seq<byte>): L.Fields {
    L.Fields(0x0303, random, Repeat(0x22, 32), [0x1301, 0x1302, 0x1303], [0],
             L.Present([ServerNameExt(name), VERSIONS, GROUPS, SIGNATURES, KEY_SHARE], [], []))
  }

  lemma {:induction false} TwoByteForms()
    ensures Be(TLS_1_3_VERSION, 2) == [0x03, 0x04] && Be(TLS_LEGACY_CLIENT_VERSION, 2) == [0x03, 0x03]
    ensures Be(4, 2) == [0x00, 0x04] && Be(0x001d, 2) == [0x00, 0x1d] && Be(0x0017, 2) == [0x00, 0x17]
    ensures Be(6, 2) == [0x00, 0x06] && Be(0x0403, 2) == [0x04, 0x03] && Be(0x0804, 2) == [0x08, 0x04]
    ensures Be(0x0807, 2) == [0x08, 0x07] && Be(36, 2) == [0x00, 0x24] && Be(32, 2) == [0x00, 0x20]
    ensures Be(TLS_LEGACY_RECORD_VERSION, 2) == [0x03, 0x01]
  {
    BeTruncates2(TLS_1_3_VERSION);
    BeTruncates2(TLS_LEGACY_CLIENT_VERSION);
    BeTruncates2(TLS_LEGACY_RECORD_VERSION);
    BeTruncates2(4);
    BeTruncates2(6);
    BeTruncates2(32);
    BeTruncates2(36);
    BeTruncates2(0x0017);
    BeTruncates2(0x001d);
    BeTruncates2(0x0403);
    BeTruncates2(0x0804);
    BeTruncates2(0x0807);
  }

  lemma {:induction false} DataAreSent()
    ensures VERSIONS_DATA == VERSIONS.data && GROUPS_DATA == GROUPS.data
    ensures SIGNATURES_DATA == SIGNATURES.data && KEY_SHARE_DATA == KEY_SHARE.data
  {
    TwoByteForms();
  }

  lemma {:induction false} PrintFive(a: L.Ext, b: L.Ext, c: L.Ext, d: L.Ext, e: L.Ext)
    ensures L.PrintAll([a, b, c, d, e])
      == L.Extension(a.kind, a.data) + (L.Extension(b.kind, b.data)
         + (L.Extension(c.kind, c.data) + (L.Extension(d.kind, d.data) + L.Extension(e.kind, e.data))))
  {
    var ed := L.Extension(e.kind, e.data);
    assert [a, b, c, d, e][1..] == [b, c, d, e] && [b, c, d, e][1..] == [c, d, e] && [c, d, e][1..] == [d, e];
    assert [d, e][1..] == [e] && [e][1..] == [];
    assert L.PrintAll([e]) == ed + L.PrintAll([]) == ed;
    assert L.PrintAll([d, e]) == L.Extension(d.kind, d.data) + ed;
    assert L.PrintAll([c, d, e]) == L.Extension(c.kind, c.data) + L.PrintAll([d, e]);
    assert L.PrintAll([b, c, d, e]) == L.Extension(b.kind, b.data) + L.PrintAll([c, d, e]);
    assert L.PrintAll([a, b, c, d, e]) == L.Extension(a.kind, a.data) + L.PrintAll([b, c, d, e]);
  }

  lemma {:induction false} ExtensionsAreSent(name: seq<byte>)
    ensures L.PrintAll(SentFields(Repeat(0, 32), name).block.exts) == ExtensionList(name)
  {
    DataAreSent();
    PrintFive(ServerNameExt(name), VERSIONS, GROUPS, SIGNATURES, KEY_SHARE);
  }

  lemma {:induction false} SuitesAreSent()
    ensures L.WordBytes([0x1301, 0x1302, 0x1303]) == SUITE_BYTES
  {
    SuitesAreRead();
    L.BytesOfWords(SUITE_BYTES);
  }

  lemma {:induction false} SentIsOk(random: Random, name: seq<byte>)
    requires |name| <= 3926
    ensures L.FieldsOk(SentFields(random, name))
  {
    ExtensionsAreSent(name);
    assert ExtensionList(name) + [] == ExtensionList(name);
  }

  lemma {:induction false} ListsAreSent(random: Random, name: seq<byte>)
    requires |name| <= 3926
    ensures L.FieldsOk(SentFields(random, name)) && L.PrintLists(SentFields(random, name)) == Lists(name)
  {
    var f := SentFields(random, name);
    SentIsOk(random, name);
    ExtensionsAreSent(name);
    SuitesAreSent();
    var list := ExtensionList(name);
    assert list + [] == list;
    assert L.PrintBlock(f.block) == Be(|list|, 2) + list;
    assert L.PrintMethods(f) == [1] + ([0] + (Be(|list|, 2) + list)) == FromCompression(name);
  }

  lemma {:induction false} HandshakeIsSent(random: Random, name: seq<byte>)
    requires |name| <= 3926
    ensures L.FieldsOk(SentFields(random, name)) && L.PrintHello(SentFields(random, name)) == Handshake(random, name)
  {
    ListsAreSent(random, name);
    assert Be(0x0303, 2) + (random + ([32] + (Repeat(0x22, 32) + Lists(name)))) == Handshake(random, name);
  }

  /** The record that the builder makes is, byte for byte, that of the fields above, within the limit of 4096 bytes. */
  lemma {:induction false} RecordIsSent(random: Random, name: seq<byte>, more: seq<byte>)
    requires |name| <= 3926
    ensures L.IsRecord(Record(random, name) + more, [0x03, 0x01], SentFields(random, name), [])
  {
    HandshakeIsSent(random, name);
    TwoByteForms();
    var hello := Handshake(random, name);
    assert hello + [] == hello;
    assert L.RecordBytes([0x03, 0x01], hello, []) == Record(random, name);
  }

  lemma {:induction false} SentHello(random: Random, name: seq<byte>)
    requires |name| <= 3926 && Utf8.Valid(name)
    ensures L.HelloIs(SentFields(random, name),
      Hello(0x0303, random, Repeat(0x22, 32), [0x1301, 0x1302, 0x1303], Some(Lower(name)), true))
  {
    var exts := SentFields(random, name).block.exts;
    var e := exts[0];
    assert e.data[3..5] == Be(|name|, 2) && e.data[5..5 + |name|] == name;
    assert L.Names(e, name);
    assert forall j :: 0 < j < |exts| ==> exts[j].kind != 0;
    assert L.OffersAt(exts[1], 0);
  }

  /** A built record within the size limit is parsed back, whatever follows it on the stream. */
  lemma {:induction false} RecordIsRead(random: Random, name: seq<byte>, more: seq<byte>)
    requires |name| <= 3926 && Utf8.Valid(name)
    ensures var src := Record(random, name) + more;
      && RecordEnd(src) == 170 + |name|
      && Parse(src) == Complete(Hello(0x0303, random, Repeat(0x22, 32), [0x1301, 0x1302, 0x1303], Some(Lower(name)), true))
  {
    var src := Record(random, name) + more;
    RecordParts(random, name, more);
    GetPut(165 + |name|, 0, 0);
    RecordIsSent(random, name, more);
    SentHello(random, name);
    L.CompleteIff(src, Hello(0x0303, random, Repeat(0x22, 32), [0x1301, 0x1302, 0x1303], Some(Lower(name)), true));
  }

  // ---------- names beyond the limit ----------

  /** The handshake length that a record with this name announces, in 24 bits. */
  function AnnouncedLength(name: seq<byte>): nat {
    (161 + |name|) % 0x100_0000
  }

  /** What a parser knows before it comes to the extensions. */
  function BeforeExtensions(random: Random): Hello {
    Hello(TLS_LEGACY_CLIENT_VERSION, random, Repeat(0x22, 32), SUITES, None, false)
  }

  lemma {:induction false} CutExtensions(name: seq<byte>, hello: Hello, i: nat)
    requires i <= 84 + |name| && (i >= 2 ==> (82 + |name|) % 0x1_0000 == i - 2)
    ensures var tail := Be(82 + |name|, 2) + ExtensionList(name);
      ParseExtensions(hello, tail[..i]).Invalid? <==> i >= 2 && Extensions(ExtensionList(name)[..i - 2], hello).None?
  {
    if i >= 2 {
      BeTruncates2(82 + |name|);
      CutTail(Be(82 + |name|, 2), ExtensionList(name), i);
      WholeExtensions((Be(82 + |name|, 2) + ExtensionList(name))[..i], hello);
    }
  }

  lemma {:induction false} CutTail(a: seq<byte>, b: seq<byte>, i: nat)
    requires |a| == 2 && 2 <= i <= 2 + |b|
    ensures (a + b)[..i][..2] == a && (a + b)[..i][2..] == b[..i - 2]
  {
  }

  /** An extension list that is as long as it says. */
  lemma {:induction false} WholeExtensions(rest: seq<byte>, hello: Hello)
    requires |rest| >= 2 && GetU16(rest[..2]) == |rest| - 2
    ensures ParseExtensions(hello, rest).Invalid? <==> Extensions(rest[2..], hello).None?
  {
    assert rest[2..|rest|] == rest[2..];
  }

  lemma {:induction false} CutCompression(name: seq<byte>, hello: Hello, j: nat)
    requires j <= 86 + |name| && (j >= 4 ==> (82 + |name|) % 0x1_0000 == j - 4)
    ensures ParseCompression(hello, FromCompression(name)[..j]).Invalid? <==>
      j < 2 || (j >= 4 && Extensions(ExtensionList(name)[..j - 4], hello).None?)
  {
    var tail := Be(82 + |name|, 2) + ExtensionList(name);
    CutMethods(tail, hello, j);
    if j >= 2 {
      CutExtensions(name, hello, j - 2);
    }
  }

  /** One compression method, cut off after `j` bytes. */
  lemma {:induction false} CutMethods(tail: seq<byte>, hello: Hello, j: nat)
    requires j <= 2 + |tail|
    ensures var rest := ([1, 0] + tail)[..j];
      && (j < 2 ==> ParseCompression(hello, rest).Invalid?)
      && (j >= 2 ==> ParseCompression(hello, rest) == ParseExtensions(hello, tail[..j - 2]))
  {
    if j >= 2 {
      assert ([1, 0] + tail)[..j][2..] == tail[..j - 2];
    }
  }

  lemma {:induction false} CutLists(name: seq<byte>, hello: Hello, k: nat)
    requires k <= 94 + |name| && (k >= 12 ==> (82 + |name|) % 0x1_0000 == k - 12)
    ensures ParseSuites(hello, Lists(name)[..k]).Invalid? <==>
      k < 10 || (k >= 12 && Extensions(ExtensionList(name)[..k - 12], hello.(cipherSuites := SUITES)).None?)
  {
    var rest := Lists(name)[..k];
    ListsParts(name);
    if k >= 2 {
      SliceOfPrefix(Lists(name), k, 0, 2);
      GetPut(6, 0, 0);
    }
    if k >= 8 {
      SliceOfPrefix(Lists(name), k, 2, 8);
      SuitesAreRead();
      assert rest[8..] == FromCompression(name)[..k - 8];
      CutCompression(name, hello.(cipherSuites := SUITES), k - 8);
    }
  }

  lemma {:induction false} CutHandshake(random: Random, name: seq<byte>, h: nat)
    requires h <= 161 + |name| && (h >= 79 ==> (82 + |name|) % 0x1_0000 == h - 79)
    ensures ParseHello(Handshake(random, name)[..h]).Invalid? <==>
      h < 77 || (h >= 79 && Extensions(ExtensionList(name)[..h - 79], BeforeExtensions(random)).None?)
  {
    var whole := Handshake(random, name);
    FixedParts(random, Lists(name));
    if h >= 35 {
      assert whole[..h][34] == 32;
    }
    if h >= 67 {
      SliceOfPrefix(whole, h, 0, 2);
      SliceOfPrefix(whole, h, 2, 34);
      SliceOfPrefix(whole, h, 35, 67);
      GetPut(TLS_LEGACY_CLIENT_VERSION, 0, 0);
      assert whole[..h][67..] == Lists(name)[..h - 67];
      CutLists(name, Hello(TLS_LEGACY_CLIENT_VERSION, random, Repeat(0x22, 32), [], None, false), h - 67);
    }
  }

  /** A record body cut short after `k` bytes, whose handshake announces `h` bytes. */
  lemma {:induction false} CutBody(random: Random, name: seq<byte>, k: nat)
    requires k <= 165 + |name|
    ensures var h := AnnouncedLength(name);
      ParseRecord(RecordBody(random, name)[..k]).Invalid? <==>
      k < 4 + h || ParseHello(Handshake(random, name)[..h]).Invalid?
  {
    var whole, h := RecordBody(random, name), AnnouncedLength(name);
    BodyParts(random, name);
    BeTruncates3(161 + |name|);
    CutWhole(whole, k, h);
    if k >= 4 + h {
      assert whole[4..4 + h] == whole[4..165 + |name|][..h];
    }
  }

  lemma {:induction false} CutWhole(whole: seq<byte>, k: nat, h: nat)
    requires 4 <= |whole| && k <= |whole| && whole[0] == TLS_CLIENT_HELLO_HANDSHAKE_TYPE && FromBe(whole[1..4]) == h
    ensures k < 4 + h ==> ParseRecord(whole[..k]).Invalid?
    ensures k >= 4 + h ==> ParseRecord(whole[..k]) == ParseHello(whole[4..4 + h])
  {
    if k >= 4 {
      SliceOfPrefix(whole, k, 1, 4);
      if k >= 4 + h {
        SliceOfPrefix(whole, k, 4, 4 + h);
      }
    }
  }

  /** The record length that is announced, in 16 bits, and the handshake length, in 24 bits, agree exactly as far as
      both are small. */
  lemma {:induction false} AnnouncedLengths(name: seq<byte>)
    ensures var r, h := (165 + |name|) % 0x1_0000, AnnouncedLength(name);
      && r == (h + 4) % 0x1_0000
      && (79 <= h < 0x1_0000 ==> (82 + |name|) % 0x1_0000 == h - 79)
  {
    var n := 161 + |name|;
    assert n == 0x1_0000 * 256 * (n / 0x100_0000) + AnnouncedLength(name);
    SameRemainder(n + 4, AnnouncedLength(name) + 4, 256 * (n / 0x100_0000));
    if AnnouncedLength(name) >= 79 {
      SameRemainder(n - 79, AnnouncedLength(name) - 79, 256 * (n / 0x100_0000));
    }
  }

  lemma {:induction false} SameRemainder(a: nat, b: nat, m: nat)
    requires a == 0x1_0000 * m + b
    ensures a % 0x1_0000 == b % 0x1_0000
  {
  }

  /** How a record is read whose announced length is `r`. */
  lemma {:induction false} LongRecordIsCut(random: Random, name: seq<byte>, more: seq<byte>)
    requires |name| > 3926
    ensures var src, r := Record(random, name) + more, (165 + |name|) % 0x1_0000;
      && (r > 4091 ==> Parse(src).Invalid?)
      && (r <= 4091 ==> Parse(src) == ParseRecord(RecordBody(random, name)[..r]))
  {
    var src := Record(random, name) + more;
    RecordParts(random, name, more);
    BeTruncates2(165 + |name|);
    CutRecord(src, RecordBody(random, name), (165 + |name|) % 0x1_0000);
  }

  /** A record that is longer than it says. */
  lemma {:induction false} CutRecord(src: seq<byte>, body: seq<byte>, r: nat)
    requires 5 + |body| <= |src| && src[0] == TLS_HANDSHAKE_CONTENT_TYPE && src[5..5 + |body|] == body
    requires GetU16(src[3..5]) == r && |body| >= 4091
    ensures r > 4091 ==> Parse(src).Invalid?
    ensures r <= 4091 ==> Parse(src) == ParseRecord(body[..r])
  {
    if r <= 4091 {
      assert src[5..5 + r] == src[5..5 + |body|][..r];
    }
  }

  /** What the two length fields tell about each other. */
  lemma {:induction false} LengthsCompare(name: seq<byte>)
    ensures var r, h := (165 + |name|) % 0x1_0000, AnnouncedLength(name);
      && (r > 4091 ==> h > 4087)
      && (r <= 4091 ==> (r < 4 + h <==> h > 4087))
      && (79 <= h <= 4087 ==> (82 + |name|) % 0x1_0000 == h - 79)
  {
    var r, h := (165 + |name|) % 0x1_0000, AnnouncedLength(name);
    AnnouncedLengths(name);
    SmallRemainder(r, h);
  }

  lemma {:induction false} SmallRemainder(r: nat, h: nat)
    requires r == (h + 4) % 0x1_0000
    ensures h <= 4087 ==> r == h + 4
  {
  }

  /** Beyond the limit, exactly which records are refused. Both length fields wrap around, at 16 and 24 bits, so that a
      name of about 2^24 bytes can announce a short record; such a record is taken when the handshake is cut before
      its extensions, or when what is left of them still reads as extensions. */
  lemma {:induction false} LongerIsRefusedIff(random: Random, name: seq<byte>, more: seq<byte>)
    requires |name| > 3926
    ensures var h := AnnouncedLength(name);
      Parse(Record(random, name) + more).Invalid? <==>
      h > 4087 || h < 77 || (h >= 79 && Extensions(ExtensionList(name)[..h - 79], BeforeExtensions(random)).None?)
  {
    var r, h := (165 + |name|) % 0x1_0000, AnnouncedLength(name);
    LongRecordIsCut(random, name, more);
    LengthsCompare(name);
    if r <= 4091 {
      CutBody(random, name, r);
    }
    if h <= 4087 {
      CutHandshake(random, name, h);
    }
  }

  /** In particular all names below 2^24 - 161 bytes, the wrap-around of the handshake length, are refused. */
  lemma {:induction false} LongerIsRefused(random: Random, name: seq<byte>, more: seq<byte>)
    requires 3926 < |name| < 0x100_0000 - 161
    ensures Parse(Record(random, name) + more).Invalid?
  {
    LongerIsRefusedIff(random, name, more);
  }

  /** A name of 2^24 - 84 bytes is taken: its record ends before the extensions. */
  lemma {:induction false} WrappedIsTaken(random: Random, name: seq<byte>, more: seq<byte>)
    requires |name| == 0x100_0000 - 84
    ensures !Parse(Record(random, name) + more).Invalid?
  {
    LongerIsRefusedIff(random, name, more);
  }

  lemma {:induction false} SniIsText(token: seq<byte>, host: seq<byte>, tokenInSni: bool)
    requires Utf8.Valid(host)
    ensures Utf8.Valid(SniName(token, host, tokenInSni))
  {
    HexIsPrinting(token);
    Utf8.AsciiIsValid(Hex(token) + [DOT]);
    Utf8.ValidConcat(Hex(token) + [DOT], host);
  }

  // ---------- the validator ----------

  datatype TokenValidator = TokenValidator(secret: seq<byte>, expectedSni: Option<seq<byte>>, insecureNoToken: bool)

  function Min(a: nat, b: nat): nat { if a < b then a else b }

  predicate Validate(v: TokenValidator, hello: Hello) {
    if v.insecureNoToken then true
    else if v.secret == [] then false
    else
      var n := Min(|v.secret|, 32);
      if hello.random[..n] == v.secret[..n] then true
      else if hello.sni.None? then false
      else
        var sni := hello.sni.value;
        if sni == v.secret then true
        else if |sni| > |v.secret| && sni[|v.secret|] == DOT && sni[..|v.secret|] == v.secret then true
        else v.expectedSni.Some? && sni == v.expectedSni.value
  }

  /** There is a secret, and the random field starts with it, or is its first 32 bytes, or the server name is the secret,
      is a subdomain of it, or is the expected name; or the bypass is on. */
  ghost predicate Admits(v: TokenValidator, hello: Hello) {
    || v.insecureNoToken
    || (&& v.secret != []
        && (|| (if |v.secret| <= 32 then v.secret <= hello.random else v.secret[..32] == hello.random)
            || hello.sni == Some(v.secret)
            || (hello.sni.Some? && v.secret + [DOT] <= hello.sni.value)
            || (hello.sni.Some? && hello.sni == v.expectedSni)))
  }

  /** Exactly which hellos are accepted. */
  lemma {:induction false} ValidateIff(v: TokenValidator, hello: Hello)
    ensures Validate(v, hello) <==> Admits(v, hello)
  {
    if |v.secret| <= 32 {
      assert v.secret[..|v.secret|] == v.secret;
    } else {
      assert hello.random[..32] == hello.random;
    }
    if hello.sni.Some? && |hello.sni.value| > |v.secret| {
      var sni, k := hello.sni.value, |v.secret|;
      assert sni[..k + 1] == sni[..k] + [sni[k]];
    }
  }

  /** The validator as the source runs it, with its constant-time comparisons. */
  method ValidateHello(v: TokenValidator, hello: Hello) returns (ok: bool)
    ensures ok <==> Validate(v, hello)
  {
    if v.insecureNoToken {
      return true;
    }
    if v.secret == [] {
      return false;
    }
    var checkLen := Min(|v.secret|, 32);
    var randomValid := Frames.ConstantTimeEq(hello.random[..checkLen], v.secret[..checkLen]);
    if randomValid {
      return true;
    }
    if hello.sni.Some? {
      var sni := hello.sni.value;
      var direct := Frames.ConstantTimeEq(sni, v.secret);
      if direct {
        return true;
      }
      if |sni| > |v.secret| && sni[|v.secret|] == DOT {
        var subdomain := Frames.ConstantTimeEq(sni[..|v.secret|], v.secret);
        if subdomain {
          return true;
        }
      }
      if v.expectedSni.Some? {
        var expected := Frames.ConstantTimeEq(sni, v.expectedSni.value);
        return expected;
      }
    }
    return false;
  }

  /** The whole handshake: for every non-empty token and host name whose server name is within 3926 bytes, what the
      builder sends is parsed to the expected fields, and the relay that knows the token, or its hexadecimal form
      when the token travels in the server name, lets it in. */
  lemma {:induction false} BuiltHelloIsAccepted(token: seq<byte>, host: seq<byte>, tokenInSni: bool, more: seq<byte>)
    requires token != [] && Utf8.Valid(host) && |SniName(token, host, tokenInSni)| <= 3926
    ensures var hello := Hello(0x0303, RandomField(token, tokenInSni), Repeat(0x22, 32), [0x1301, 0x1302, 0x1303],
                               Some(Lower(SniName(token, host, tokenInSni))), true);
      && Parse(Built(token, host, tokenInSni) + more) == Complete(hello)
      && Validate(TokenValidator(if tokenInSni then Hex(token) else token, None, false), hello)
      && hello.sni == Some(if tokenInSni then Hex(token) + [DOT] + Lower(host) else Lower(host))
  {
    var name := SniName(token, host, tokenInSni);
    SniIsText(token, host, tokenInSni);
    RecordIsRead(RandomField(token, tokenInSni), name, more);
    var hello := Parse(Built(token, host, tokenInSni) + more).hello;
    if tokenInSni {
      SubdomainIsAccepted(token, host, hello);
    } else {
      ValidateIff(TokenValidator(token, None, false), hello);
    }
  }

  lemma {:induction false} SubdomainIsAccepted(token: seq<byte>, host: seq<byte>, hello: Hello)
    requires token != [] && hello.sni == Some(Lower(SniName(token, host, true)))
    ensures hello.sni == Some(Hex(token) + [DOT] + Lower(host))
    ensures Validate(TokenValidator(Hex(token), None, false), hello)
  {
    HexIsPrinting(token);
    assert Lower(SniName(token, host, true)) == Hex(token) + [DOT] + Lower(host);
    ValidateIff(TokenValidator(Hex(token), None, false), hello);
  }

  // ---------- the builder as the source runs it ----------

  method Build(secretToken: seq<byte>, sniHost: seq<byte>, tokenInSni: bool) returns (record: seq<byte>)
    ensures record == Built(secretToken, sniHost, tokenInSni)
  {
    var random := PutRandom(secretToken, tokenInSni);
    var name := sniHost;
    if tokenInSni {
      var hexToken := HexEncode(secretToken);
      name := hexToken + [DOT] + sniHost;
    }
    record := PutRecord(random, name);
  }

  method PutRandom(secretToken: seq<byte>, tokenInSni: bool) returns (random: Random)
    ensures random == RandomField(secretToken, tokenInSni)
  {
    random := Repeat(0x5a, 32);
    if !tokenInSni {
      var copyLen := Min(|secretToken|, 32);
      random := secretToken[..copyLen] + random[copyLen..];
      assert random == RandomField(secretToken, tokenInSni);
    }
  }

  method PutRecord(random: Random, name: seq<byte>) returns (record: seq<byte>)
    ensures record == Record(random, name)
  {
    var hs := Be(TLS_LEGACY_CLIENT_VERSION, 2);
    hs := hs + random;
    hs := hs + [32];
    hs := hs + Repeat(0x22, 32);
    assert hs == FixedFields(random);
    var lists := PutLists(name);
    hs := hs + lists;
    var hsLen := |hs|;
    var totalLen := 4 + hsLen;
    record := [TLS_HANDSHAKE_CONTENT_TYPE];
    record := record + Be(TLS_LEGACY_RECORD_VERSION, 2);
    record := record + Be(totalLen, 2);
    ghost var header := record;
    record := record + [TLS_CLIENT_HELLO_HANDSHAKE_TYPE];
    record := record + Be(hsLen, 3);
    record := record + hs;
    assert record == header + RecordBody(random, name);
  }

  method PutLists(name: seq<byte>) returns (buf: seq<byte>)
    ensures buf == Lists(name)
  {
    buf := PutSuites();
    buf := buf + [1];
    buf := buf + [0];
    var ext := PutExtensions(name);
    var len := Be(|ext|, 2);
    AppendLists(Be(6, 2), SUITE_BYTES, len, ext);
    buf := buf + len;
    buf := buf + ext;
  }

  lemma {:induction false} AppendLists(a: seq<byte>, b: seq<byte>, len: seq<byte>, ext: seq<byte>)
    ensures a + b + [1] + [0] + len + ext == a + (b + ([1, 0] + (len + ext)))
  {
  }

  method PutSuites() returns (buf: seq<byte>)
    ensures buf == Be(6, 2) + SUITE_BYTES
  {
    buf := Be(2 * |SUITES|, 2);
    for i := 0 to |SUITES|
      invariant buf == Be(6, 2) + WordBytes(SUITES[..i])
    {
      assert SUITES[..i + 1] == SUITES[..i] + [SUITES[i]];
      buf := buf + Be(SUITES[i], 2);
    }
    SuiteBytesAreWords();
  }

  function WordBytes(ws: seq<u16>): seq<byte> {
    if ws == [] then [] else WordBytes(ws[..|ws| - 1]) + Be(ws[|ws| - 1], 2)
  }

  lemma {:induction false} SuiteBytesAreWords()
    ensures SUITES[..|SUITES|] == SUITES && WordBytes(SUITES) == SUITE_BYTES
  {
    var two, one := SUITES[..2], SUITES[..1];
    assert two[..1] == one && one[..0] == [];
    assert WordBytes(one) == WordBytes([]) + Be(0x1301, 2);
    assert WordBytes(two) == WordBytes(one) + Be(0x1302, 2);
    assert WordBytes(SUITES) == WordBytes(two) + Be(0x1303, 2);
  }

  method PutExtensions(name: seq<byte>) returns (ext: seq<byte>)
    ensures ext == ExtensionList(name)
  {
    ext := PutServerName(name);
    var versions := PutVersions();
    var groups := PutGroups();
    var signatures := PutSignatures();
    var keyShare := PutKeyShare();
    AppendFour(ext, versions, groups, signatures, keyShare);
    ext := ext + versions;
    ext := ext + groups;
    ext := ext + signatures;
    ext := ext + keyShare;
  }

  lemma {:induction false} AppendFour<T>(a: seq<T>, b: seq<T>, c: seq<T>, d: seq<T>, e: seq<T>)
    ensures a + b + c + d + e == a + (b + (c + (d + e)))
  {
  }

  method PutServerName(name: seq<byte>) returns (ext: seq<byte>)
    ensures ext == L.Extension(TLS_EXT_SERVER_NAME, SniData(name))
  {
    var listLen := 1 + 2 + |name|;
    var extLen := 2 + listLen;
    var data := Be(listLen, 2);
    data := data + [0];
    data := data + Be(|name|, 2);
    data := data + name;
    assert data == SniData(name);
    ext := Be(TLS_EXT_SERVER_NAME, 2);
    ext := ext + Be(extLen, 2);
    ext := ext + data;
  }

  method PutVersions() returns (ext: seq<byte>)
    ensures ext == L.Extension(TLS_EXT_SUPPORTED_VERSIONS, VERSIONS_DATA)
  {
    ext := Be(TLS_EXT_SUPPORTED_VERSIONS, 2) + Be(5, 2) + [4] + Be(TLS_1_3_VERSION, 2) + Be(TLS_LEGACY_CLIENT_VERSION, 2);
  }

  method PutGroups() returns (ext: seq<byte>)
    ensures ext == L.Extension(TLS_EXT_SUPPORTED_GROUPS, GROUPS_DATA)
  {
    ext := Be(TLS_EXT_SUPPORTED_GROUPS, 2) + Be(6, 2) + Be(4, 2) + Be(0x001d, 2) + Be(0x0017, 2);
  }

  method PutSignatures() returns (ext: seq<byte>)
    ensures ext == L.Extension(TLS_EXT_SIGNATURE_ALGORITHMS, SIGNATURES_DATA)
  {
    ext := Be(TLS_EXT_SIGNATURE_ALGORITHMS, 2) + Be(8, 2) + Be(6, 2) + Be(0x0403, 2) + Be(0x0804, 2) + Be(0x0807, 2);
  }

  method PutKeyShare() returns (ext: seq<byte>)
    ensures ext == L.Extension(TLS_EXT_KEY_SHARE, KEY_SHARE_DATA)
  {
    ext := Be(TLS_EXT_KEY_SHARE, 2) + Be(38, 2) + Be(36, 2) + Be(0x001d, 2) + Be(32, 2) + Repeat(0x42, 32);
  }
}
