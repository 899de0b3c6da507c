/** The layout of ClientHello records, as a printer of arbitrary fields, and what a parsed hello says about them. */
module HelloLayout {
  import opened Bytes
  import opened ClientHello
  import Utf8

  // ---------- records of arbitrary fields ----------

  datatype Ext = Ext(kind: u16, data: seq<byte>)

  function Extension(kind: u16, data: seq<byte>): seq<byte> {
    Be(kind, 2) + (Be(|data|, 2) + data)
  }

  function PrintAll(exts: seq<Ext>): seq<byte> {
    if exts == [] then [] else Extension(exts[0].kind, exts[0].data) + PrintAll(exts[1..])
  }

  /** What follows the compression methods: no extensions, with at most one stray byte, or an extension list, with up to
      three stray bytes at its end and anything after it. */
  datatype Block = Absent(stray: seq<byte>) | Present(exts: seq<Ext>, slack: seq<byte>, trailing: seq<byte>)

  function PrintBlock(b: Block): seq<byte> {
    match b
    case Absent(stray) => stray
    case Present(exts, slack, trailing) =>
      var list := PrintAll(exts) + slack;
      Be(|list|, 2) + (list + trailing)
  }

  function WordBytes(ws: seq<u16>): (s: seq<byte>)
    ensures |s| == 2 * |ws|
  {
    if ws == [] then [] else Be(ws[0], 2) + WordBytes(ws[1..])
  }

  datatype Fields = Fields(
    version: u16, random: Random, sessionId: seq<byte>, suites: seq<u16>, methods: seq<byte>, block: Block)

  ghost predicate BlockOk(b: Block) {
    match b
    case Absent(stray) => |stray| < 2
    case Present(exts, slack, _) =>
      && (forall i :: 0 <= i < |exts| ==> |exts[i].data| < 0x1_0000)
      && |slack| < 4 && |PrintAll(exts) + slack| < 0x1_0000
  }

  /** Every length fits its field. */
  ghost predicate FieldsOk(f: Fields) {
    |f.sessionId| < 0x100 && 2 * |f.suites| < 0x1_0000 && |f.methods| < 0x100 && BlockOk(f.block)
  }

  ghost function PrintMethods(f: Fields): seq<byte>
    requires FieldsOk(f)
  {
    [|f.methods|] + (f.methods + PrintBlock(f.block))
  }

  ghost function PrintLists(f: Fields): seq<byte>
    requires FieldsOk(f)
  {
    Be(2 * |f.suites|, 2) + (WordBytes(f.suites) + PrintMethods(f))
  }

  /** Version, random, session id after its length, and the lists. */
  function HelloBytes(version: seq<byte>, random: seq<byte>, id: seq<byte>, lists: seq<byte>): seq<byte>
    requires |id| < 0x100
  {
    version + (random + ([|id|] + (id + lists)))
  }

  /** Version, random, session id, cipher suites, compression methods and extensions, each list after its length. */
  ghost function PrintHello(f: Fields): seq<byte>
    requires FieldsOk(f)
  {
    HelloBytes(Be(f.version, 2), f.random, f.sessionId, PrintLists(f))
  }

  /** A handshake record: content type 0x16, any record version, the record length; then handshake type 0x01, the
      24-bit handshake length, the hello, and anything after it. */
  function RecordBytes(version: seq<byte>, hello: seq<byte>, after: seq<byte>): seq<byte> {
    [0x16] + version + Be(4 + |hello| + |after|, 2) + ([0x01] + Be(|hello|, 3) + (hello + after))
  }

  /** `src` begins with such a record, of at most 4096 bytes. */
  ghost predicate IsRecord(src: seq<byte>, version: seq<byte>, f: Fields, after: seq<byte>) {
    && |version| == 2 && FieldsOk(f) && 9 + |PrintHello(f)| + |after| <= 4096
    && RecordBytes(version, PrintHello(f), after) <= src
  }

  // ---------- what a hello says about its fields ----------

  function ExtsOf(b: Block): seq<Ext> {
    match b case Absent(_) => [] case Present(exts, _, _) => exts
  }

  /** The extension is a readable server_name with this host name: a list length, name type 0, the name's length, the
      name. */
  ghost predicate Names(e: Ext, host: seq<byte>) {
    && e.kind == 0x0000 && |host| < 0x1_0000 && 5 + |host| <= |e.data|
    && e.data[2] == 0 && e.data[3..5] == Be(|host|, 2) && e.data[5..5 + |host|] == host && Utf8.Valid(host)
  }

  /** The last readable host name wins, in lower case. */
  ghost predicate SniIs(exts: seq<Ext>, sni: Option<seq<byte>>) {
    match sni
    case None => forall i, host :: 0 <= i < |exts| ==> !Names(exts[i], host)
    case Some(name) =>
      exists i, host ::
        && 0 <= i < |exts| && Names(exts[i], host) && name == Lower(host)
        && forall j, other :: i < j < |exts| ==> !Names(exts[j], other)
  }

  /** The extension is a supported_versions list with 0x0304 at place `k`. */
  ghost predicate OffersAt(e: Ext, k: nat) {
    && e.kind == 0x002b && e.data != [] && 2 * k + 2 <= e.data[0] <= |e.data| - 1
    && e.data[1 + 2 * k] == 0x03 && e.data[2 + 2 * k] == 0x04
  }

  ghost predicate Tls13In(exts: seq<Ext>) {
    exists i, k :: 0 <= i < |exts| && OffersAt(exts[i], k)
  }

  /** The hello holds exactly what the fields say. */
  ghost predicate HelloIs(f: Fields, hello: Hello) {
    && hello.legacyVersion == f.version && hello.random == f.random && hello.sessionId == f.sessionId
    && hello.cipherSuites == f.suites
    && SniIs(ExtsOf(f.block), hello.sni) && (hello.isTls13 <==> Tls13In(ExtsOf(f.block)))
  }

  // ---------- words ----------

  lemma {:induction false} FirstWord(w: u16, rest: seq<byte>)
    ensures Words(Be(w, 2) + rest) == [w] + Words(rest)
  {
    Seam(Be(w, 2), rest);
    GetPut(w, 0, 0);
  }

  lemma {:induction false} WordsOfBytes(ws: seq<u16>)
    ensures Words(WordBytes(ws)) == ws
  {
    if ws != [] {
      FirstWord(ws[0], WordBytes(ws[1..]));
      WordsOfBytes(ws[1..]);
    }
  }

  lemma {:induction false} BytesOfWords(s: seq<byte>)
    requires |s| % 2 == 0
    ensures WordBytes(Words(s)) == s
  {
    if s != [] {
      BytesOfWords(s[2..]);
      BeOfFromBe(s[..2]);
      assert s == s[..2] + s[2..];
    }
  }

  lemma {:induction false} WordAt(s: seq<byte>, k: nat)
    ensures |Words(s)| == |s| / 2
    ensures 2 * k + 2 <= |s| ==> Words(s)[k] == (s[2 * k] as int) * 256 + s[2 * k + 1]
    decreases |s|
  {
    if |s| >= 2 {
      WordAt(s[2..], if k > 0 then k - 1 else 0);
      FromBe2(s[..2]);
    }
  }

  lemma {:induction false} WordIn(s: seq<byte>, w: u16)
    ensures w in Words(s) <==> exists k: nat :: 2 * k + 2 <= |s| && (s[2 * k] as int) * 256 + s[2 * k + 1] == w
  {
    WordAt(s, 0);
    if w in Words(s) {
      var k :| 0 <= k < |Words(s)| && Words(s)[k] == w;
      WordAt(s, k);
    }
    if k: nat :| 2 * k + 2 <= |s| && (s[2 * k] as int) * 256 + s[2 * k + 1] == w {
      WordAt(s, k);
    }
  }

  // ---------- extensions ----------

  /** What the extensions, one after the other, make of a hello. */
  function NoteAll(exts: seq<Ext>, hello: Hello): Hello {
    if exts == [] then hello else NoteAll(exts[1..], Note(exts[0].kind, exts[0].data, hello))
  }

  lemma {:induction false} PeelExtension(kind: u16, data: seq<byte>, rest: seq<byte>, hello: Hello)
    requires |data| < 0x1_0000
    ensures Extensions(Extension(kind, data) + rest, hello) == Extensions(rest, Note(kind, data, hello))
  {
    var n := |data|;
    var buf := Extension(kind, data) + rest;
    assert buf[..2] == Be(kind, 2) && buf[2..4] == Be(n, 2) && buf[4..4 + n] == data && buf[4 + n..] == rest;
    GetPut(kind, 0, 0);
    GetPut(n, 0, 0);
  }

  lemma {:induction false} PrintCons(e: Ext, more: seq<Ext>, slack: seq<byte>)
    ensures PrintAll([e] + more) + slack == Extension(e.kind, e.data) + (PrintAll(more) + slack)
  {
    assert ([e] + more)[1..] == more;
    Regroup(Extension(e.kind, e.data), PrintAll(more), slack);
  }

  lemma {:induction false} Regroup(a: seq<byte>, b: seq<byte>, c: seq<byte>)
    ensures a + b + c == a + (b + c)
  {
  }

  lemma {:induction false} PrintedExtensions(exts: seq<Ext>, slack: seq<byte>, hello: Hello)
    requires |slack| < 4 && forall i :: 0 <= i < |exts| ==> |exts[i].data| < 0x1_0000
    ensures Extensions(PrintAll(exts) + slack, hello) == Some(NoteAll(exts, hello))
    decreases exts
  {
    if exts == [] {
      assert PrintAll(exts) + slack == slack;
    } else {
      var e, more := exts[0], exts[1..];
      assert exts == [e] + more;
      PrintCons(e, more, slack);
      PeelExtension(e.kind, e.data, PrintAll(more) + slack, hello);
      PrintedExtensions(more, slack, Note(e.kind, e.data, hello));
    }
  }

  /** The list at the front of a buffer is an extension and the rest. */
  lemma {:induction false} CutExtension(buf: seq<byte>) returns (e: Ext, rest: seq<byte>)
    requires |buf| >= 4 && |buf| - 4 >= GetU16(buf[2..4])
    ensures buf == Extension(e.kind, e.data) + rest && |e.data| < 0x1_0000
  {
    var n: int := GetU16(buf[2..4]);
    e, rest := Ext(GetU16(buf[..2]), buf[4..4 + n]), buf[4 + n..];
    BeOfFromBe(buf[..2]);
    BeOfFromBe(buf[2..4]);
    FourParts(buf, 2, 4, 4 + n);
  }

  lemma {:induction false} FourParts(s: seq<byte>, i: nat, j: nat, k: nat)
    requires i <= j <= k <= |s|
    ensures s == s[..i] + (s[i..j] + s[j..k]) + s[k..]
  {
  }

  lemma {:induction false} NoteCons(e: Ext, more: seq<Ext>, hello: Hello)
    ensures NoteAll([e] + more, hello) == NoteAll(more, Note(e.kind, e.data, hello))
  {
    assert ([e] + more)[1..] == more;
  }

  lemma {:induction false} ReadExtensions(buf: seq<byte>, hello: Hello) returns (exts: seq<Ext>, slack: seq<byte>)
    requires Extensions(buf, hello).Some?
    ensures PrintAll(exts) + slack == buf && |slack| < 4 && forall i :: 0 <= i < |exts| ==> |exts[i].data| < 0x1_0000
    ensures Extensions(buf, hello) == Some(NoteAll(exts, hello))
    decreases |buf|
  {
    if |buf| < 4 {
      exts, slack := [], buf;
      assert PrintAll([]) + buf == buf;
    } else {
      var e, rest := CutExtension(buf);
      PeelExtension(e.kind, e.data, rest, hello);
      var more;
      more, slack := ReadExtensions(rest, Note(e.kind, e.data, hello));
      exts := [e] + more;
      PrintCons(e, more, slack);
      NoteCons(e, more, hello);
    }
  }

  // ---------- server name and versions ----------

  lemma {:induction false} NameIsRead(e: Ext, host: seq<byte>)
    requires Names(e, host)
    ensures ServerName(e.data) == Some(Lower(host))
  {
    GetPut(|host|, 0, 0);
  }

  lemma {:induction false} ReadIsName(e: Ext) returns (host: seq<byte>)
    requires e.kind == 0 && ServerName(e.data).Some?
    ensures Names(e, host) && ServerName(e.data) == Some(Lower(host))
  {
    var field := e.data[3..5];
    host := e.data[5..5 + GetU16(field) as int];
    BeOfFromBe(field);
    assert Be(|host|, 2) == field;
  }

  lemma {:induction false} InList(data: seq<byte>, n: nat, k: nat)
    requires 1 + n <= |data| && k < n
    ensures data[1..1 + n][k] == data[1 + k]
  {
  }

  lemma {:induction false} OffersIff(e: Ext)
    requires e.kind == 0x002b
    ensures OffersTls13(e.data) <==> exists k :: OffersAt(e, k)
  {
    if e.data != [] && e.data[0] <= |e.data| - 1 {
      var n: int := e.data[0];
      var list := e.data[1..1 + n];
      WordIn(list, TLS_1_3_VERSION);
      if k: nat :| 2 * k + 2 <= |list| && (list[2 * k] as int) * 256 + list[2 * k + 1] == TLS_1_3_VERSION {
        InList(e.data, n, 2 * k);
        InList(e.data, n, 2 * k + 1);
        TwoBytes(list[2 * k], list[2 * k + 1]);
        assert OffersAt(e, k);
      }
      if k: nat :| OffersAt(e, k) {
        InList(e.data, n, 2 * k);
        InList(e.data, n, 2 * k + 1);
        assert 2 * k + 2 <= |list|;
      }
    }
  }

  lemma {:induction false} TwoBytes(a: byte, b: byte)
    requires (a as int) * 256 + b == 0x0304
    ensures a == 0x03 && b == 0x04
  {
  }

  /** What one extension changes. */
  lemma {:induction false} NoteIs(e: Ext, hello: Hello)
    ensures var h := Note(e.kind, e.data, hello);
      && h == hello.(sni := h.sni, isTls13 := h.isTls13)
      && (h.isTls13 <==> hello.isTls13 || exists k :: OffersAt(e, k))
      && ((exists host :: Names(e, host)) ==> exists host :: Names(e, host) && h.sni == Some(Lower(host)))
      && ((forall host :: !Names(e, host)) ==> h.sni == hello.sni)
  {
    if e.kind == 0x002b {
      OffersIff(e);
    }
    if e.kind == 0 && ServerName(e.data).Some? {
      var host := ReadIsName(e);
    } else if host :| Names(e, host) {
      NameIsRead(e, host);
    }
  }

  /** No extension of the list names a host. */
  ghost predicate Nameless(exts: seq<Ext>) {
    forall i, host :: 0 <= i < |exts| ==> !Names(exts[i], host)
  }

  lemma {:induction false} LastWins(e: Ext, exts: seq<Ext>, sni: Option<seq<byte>>, host: seq<byte>)
    requires Nameless(exts) && Names(e, host) && sni == Some(Lower(host))
    ensures SniIs([e] + exts, sni)
  {
    var all := [e] + exts;
    forall j, other | 0 < j < |all| ensures !Names(all[j], other) {
      assert all[j] == exts[j - 1];
    }
    assert all[0] == e;
  }

  lemma {:induction false} LaterWins(e: Ext, exts: seq<Ext>, sni: Option<seq<byte>>)
    requires sni.Some? && SniIs(exts, sni)
    ensures SniIs([e] + exts, sni)
  {
    var all := [e] + exts;
    var i, host :| 0 <= i < |exts| && Names(exts[i], host) && sni.value == Lower(host)
      && forall j, other :: i < j < |exts| ==> !Names(exts[j], other);
    assert all[i + 1] == exts[i];
    forall j, other | i + 1 < j < |all| ensures !Names(all[j], other) {
      assert all[j] == exts[j - 1];
    }
  }

  lemma {:induction false} NobodyNames(e: Ext, exts: seq<Ext>)
    requires Nameless(exts) && forall host :: !Names(e, host)
    ensures SniIs([e] + exts, None)
  {
    var all := [e] + exts;
    forall i, host | 0 <= i < |all| ensures !Names(all[i], host) {
      if i > 0 {
        assert all[i] == exts[i - 1];
      }
    }
  }

  lemma {:induction false} VersionsOf(e: Ext, exts: seq<Ext>)
    ensures Tls13In([e] + exts) <==> (exists k :: OffersAt(e, k)) || Tls13In(exts)
  {
    var all := [e] + exts;
    if i, k :| 0 <= i < |all| && OffersAt(all[i], k) {
      assert i > 0 ==> all[i] == exts[i - 1];
    }
    if k :| OffersAt(e, k) {
      assert OffersAt(all[0], k);
    }
    if i, k :| 0 <= i < |exts| && OffersAt(exts[i], k) {
      assert OffersAt(all[i + 1], k);
    }
  }

  /** The server name after a list of extensions: the last one named in it, or the one before it. */
  ghost predicate SniAfter(exts: seq<Ext>, before: Option<seq<byte>>, after: Option<seq<byte>>) {
    if Nameless(exts) then after == before else after.Some? && SniIs(exts, after)
  }

  lemma {:induction false} SniSteps(e: Ext, exts: seq<Ext>, before: Option<seq<byte>>, mid: Option<seq<byte>>,
                                    after: Option<seq<byte>>)
    requires (exists host :: Names(e, host)) ==> exists host :: Names(e, host) && mid == Some(Lower(host))
    requires (forall host :: !Names(e, host)) ==> mid == before
    requires SniAfter(exts, mid, after)
    ensures SniAfter([e] + exts, before, after)
  {
    var all := [e] + exts;
    assert forall i :: 0 <= i < |exts| ==> all[i + 1] == exts[i];
    if Nameless(exts) {
      if host :| Names(e, host) && mid == Some(Lower(host)) {
        LastWins(e, exts, after, host);
        assert Names(all[0], host);
      } else {
        NobodyNames(e, exts);
      }
    } else {
      LaterWins(e, exts, after);
      var i, host :| 0 <= i < |exts| && Names(exts[i], host);
      assert Names(all[i + 1], host);
    }
  }

  lemma {:induction false} NoteAllIs(exts: seq<Ext>, hello: Hello)
    ensures var h := NoteAll(exts, hello);
      && h == hello.(sni := h.sni, isTls13 := h.isTls13)
      && SniAfter(exts, hello.sni, h.sni)
      && (h.isTls13 <==> hello.isTls13 || Tls13In(exts))
    decreases exts
  {
    if exts != [] {
      var e, rest := exts[0], exts[1..];
      var mid := Note(e.kind, e.data, hello);
      assert exts == [e] + rest;
      NoteIs(e, hello);
      NoteAllIs(rest, mid);
      VersionsOf(e, rest);
      SniSteps(e, rest, hello.sni, mid.sni, NoteAll(rest, mid).sni);
    }
  }

  lemma {:induction false} NotedHello(exts: seq<Ext>, hello: Hello)
    requires hello.sni.None? && !hello.isTls13
    ensures SniIs(exts, NoteAll(exts, hello).sni) && (NoteAll(exts, hello).isTls13 <==> Tls13In(exts))
    ensures var h := NoteAll(exts, hello); h == hello.(sni := h.sni, isTls13 := h.isTls13)
  {
    NoteAllIs(exts, hello);
  }

  // ---------- the hello, part by part ----------

  /** The hello before its extensions. */
  function Bare(f: Fields): Hello {
    Hello(f.version, f.random, f.sessionId, f.suites, None, false)
  }

  lemma {:induction false} BlockIsRead(b: Block, hello: Hello)
    requires BlockOk(b)
    ensures ParseExtensions(hello, PrintBlock(b)) == Complete(NoteAll(ExtsOf(b), hello))
  {
    if b.Present? {
      var list := PrintAll(b.exts) + b.slack;
      var rest := PrintBlock(b);
      Seam(Be(|list|, 2), list + b.trailing);
      assert rest[2..2 + |list|] == list;
      GetPut(|list|, 0, 0);
      PrintedExtensions(b.exts, b.slack, hello);
    }
  }

  lemma {:induction false} ReadIsBlock(rest: seq<byte>, hello: Hello) returns (b: Block)
    requires ParseExtensions(hello, rest).Complete?
    ensures BlockOk(b) && PrintBlock(b) == rest && ParseExtensions(hello, rest) == Complete(NoteAll(ExtsOf(b), hello))
  {
    if |rest| < 2 {
      b := Absent(rest);
    } else {
      var n: int := GetU16(rest[..2]);
      var exts, slack := ReadExtensions(rest[2..2 + n], hello);
      b := Present(exts, slack, rest[2 + n..]);
      CutLongList(rest, n);
    }
  }

  /** A length byte, as many bytes, and the rest. */
  lemma {:induction false} ShortList(len: byte, list: seq<byte>, rest: seq<byte>)
    requires len == |list|
    ensures var s := [len] + (list + rest);
      s[0] == len && s[1..1 + |list|] == list && s[1 + |list|..] == rest
  {
  }

  lemma {:induction false} MethodsAreRead(f: Fields, hello: Hello)
    requires FieldsOk(f)
    ensures ParseCompression(hello, PrintMethods(f)) == Complete(NoteAll(ExtsOf(f.block), hello))
  {
    ShortList(|f.methods|, f.methods, PrintBlock(f.block));
    BlockIsRead(f.block, hello);
  }

  lemma {:induction false} SuitesOf(rest: seq<byte>, list: seq<byte>, tail: seq<byte>, hello: Hello)
    requires |list| < 0x1_0000 && |list| % 2 == 0 && |rest| >= 2 + |list|
    requires rest[..2] == Be(|list|, 2) && rest[2..2 + |list|] == list && rest[2 + |list|..] == tail
    ensures ParseSuites(hello, rest) == ParseCompression(hello.(cipherSuites := Words(list)), tail)
  {
    GetPut(|list|, 0, 0);
  }

  lemma {:induction false} ListsAreRead(f: Fields, hello: Hello)
    requires FieldsOk(f)
    ensures ParseSuites(hello, PrintLists(f))
      == Complete(NoteAll(ExtsOf(f.block), hello.(cipherSuites := f.suites)))
  {
    var list, tail := WordBytes(f.suites), PrintMethods(f);
    LongList(Be(|list|, 2), list, tail);
    SuitesOf(Be(|list|, 2) + (list + tail), list, tail, hello);
    WordsOfBytes(f.suites);
    MethodsAreRead(f, hello.(cipherSuites := f.suites));
  }

  lemma {:induction false} LongList(len: seq<byte>, list: seq<byte>, rest: seq<byte>)
    requires |len| == 2
    ensures var s := len + (list + rest);
      s[..2] == len && s[2..2 + |list|] == list && s[2 + |list|..] == rest
  {
  }

  lemma {:induction false} HelloParts(version: seq<byte>, random: seq<byte>, id: seq<byte>, rest: seq<byte>)
    requires |version| == 2 && |random| == 32 && |id| < 0x100
    ensures var h := HelloBytes(version, random, id, rest);
      && |h| == 35 + |id| + |rest| && h[..2] == version && h[2..34] == random && h[34] == |id|
      && h[35..35 + |id|] == id && h[35 + |id|..] == rest
  {
    var tail := [|id|] + (id + rest);
    var h := version + (random + tail);
    LongList(version, random, tail);
    ShortList(|id|, id, rest);
    assert h[34..] == tail;
    assert h[34] == tail[0] && h[35..35 + |id|] == tail[1..1 + |id|] && h[35 + |id|..] == tail[1 + |id|..];
  }

  lemma {:induction false} HelloOf(h: seq<byte>, version: u16, random: Random, id: seq<byte>, rest: seq<byte>)
    requires |id| < 0x100 && |h| >= 35 + |id|
    requires h[..2] == Be(version, 2) && h[2..34] == random && h[34] == |id|
    requires h[35..35 + |id|] == id && h[35 + |id|..] == rest
    ensures ParseHello(h) == ParseSuites(Hello(version, random, id, [], None, false), rest)
  {
    GetPut(version, 0, 0);
  }

  lemma {:induction false} PrintedHello(f: Fields)
    requires FieldsOk(f)
    ensures ParseHello(PrintHello(f)) == Complete(NoteAll(ExtsOf(f.block), Bare(f)))
  {
    HelloParts(Be(f.version, 2), f.random, f.sessionId, PrintLists(f));
    HelloOf(PrintHello(f), f.version, f.random, f.sessionId, PrintLists(f));
    ListsAreRead(f, Hello(f.version, f.random, f.sessionId, [], None, false));
  }

  /** A list after its length field, taken off the front. */
  lemma {:induction false} CutLongList(rest: seq<byte>, n: nat)
    requires |rest| >= 2 && n == GetU16(rest[..2]) && |rest| - 2 >= n
    ensures rest == Be(n, 2) + (rest[2..2 + n] + rest[2 + n..])
  {
    BeOfFromBe(rest[..2]);
    ThreeParts(rest, 2, 2 + n);
  }

  lemma {:induction false} ThreeParts(s: seq<byte>, i: nat, j: nat)
    requires i <= j <= |s|
    ensures s == s[..i] + (s[i..j] + s[j..])
  {
  }

  lemma {:induction false} CutShortList(rest: seq<byte>)
    requires rest != [] && |rest| - 1 >= rest[0]
    ensures var n: int := rest[0]; rest == [rest[0]] + (rest[1..1 + n] + rest[1 + n..])
  {
  }

  lemma {:induction false} CutHello(h: seq<byte>)
    requires |h| >= 35 && |h| - 35 >= h[34]
    ensures var n: int := h[34];
      HelloBytes(Be(GetU16(h[..2]), 2), h[2..34], h[35..35 + n], h[35 + n..]) == h
  {
    var n: int := h[34];
    var tail := h[34..];
    BeOfFromBe(h[..2]);
    CutShortList(tail);
    assert tail[1..1 + n] == h[35..35 + n] && tail[1 + n..] == h[35 + n..];
    assert h == h[..2] + (h[2..34] + tail);
  }

  lemma {:induction false} ReadIsMethods(rest: seq<byte>, hello: Hello) returns (methods: seq<byte>, b: Block)
    requires ParseCompression(hello, rest).Complete?
    ensures |methods| < 0x100 && BlockOk(b) && rest == [|methods|] + (methods + PrintBlock(b))
    ensures ParseCompression(hello, rest) == Complete(NoteAll(ExtsOf(b), hello))
  {
    var n: int := rest[0];
    CutShortList(rest);
    methods := rest[1..1 + n];
    b := ReadIsBlock(rest[1 + n..], hello);
  }

  lemma {:induction false} ReadIsLists(rest: seq<byte>, hello: Hello) returns (f: Fields)
    requires ParseSuites(hello, rest).Complete? && |hello.sessionId| < 0x100
    ensures FieldsOk(f) && PrintLists(f) == rest
    ensures f.version == hello.legacyVersion && f.random == hello.random && f.sessionId == hello.sessionId
    ensures ParseSuites(hello, rest) == Complete(NoteAll(ExtsOf(f.block), hello.(cipherSuites := f.suites)))
  {
    var n: int := GetU16(rest[..2]);
    var suites := Words(rest[2..2 + n]);
    CutLongList(rest, n);
    BytesOfWords(rest[2..2 + n]);
    var methods, b := ReadIsMethods(rest[2 + n..], hello.(cipherSuites := suites));
    f := Fields(hello.legacyVersion, hello.random, hello.sessionId, suites, methods, b);
  }

  lemma {:induction false} ReadIsHello(h: seq<byte>) returns (f: Fields)
    requires ParseHello(h).Complete?
    ensures FieldsOk(f) && PrintHello(f) == h && ParseHello(h) == Complete(NoteAll(ExtsOf(f.block), Bare(f)))
  {
    var n: int := h[34];
    f := ReadIsLists(h[35 + n..], Hello(GetU16(h[..2]), h[2..34], h[35..35 + n], [], None, false));
    CutHello(h);
  }

  // ---------- the record ----------

  lemma {:induction false} RecordParts(version: seq<byte>, hello: seq<byte>, after: seq<byte>, more: seq<byte>)
    requires |version| == 2
    ensures var src, body := RecordBytes(version, hello, after) + more, [0x01] + Be(|hello|, 3) + (hello + after);
      && src[0] == 0x16 && src[3..5] == Be(|body|, 2) && src[5..5 + |body|] == body
      && body[0] == 0x01 && body[1..4] == Be(|hello|, 3) && body[4..4 + |hello|] == hello
  {
    var body := [0x01] + Be(|hello|, 3) + (hello + after);
    var head := [0x16] + version + Be(4 + |hello| + |after|, 2);
    assert RecordBytes(version, hello, after) + more == head + body + more;
    Middle(head, body, more);
    assert head[3..5] == Be(4 + |hello| + |after|, 2);
    assert (head + body + more)[3..5] == head[3..5];
    Regroup([0x01] + Be(|hello|, 3), hello, after);
    Middle([0x01] + Be(|hello|, 3), hello, after);
  }

  lemma {:induction false} BodyIsRead(body: seq<byte>, n: nat)
    requires 4 + n <= |body| < 0x1_0000 && body[0] == 0x01 && body[1..4] == Be(n, 3)
    ensures ParseRecord(body) == ParseHello(body[4..4 + n])
  {
    BeTruncates3(n);
    assert n % 0x100_0000 == n;
    assert FromBe(body[1..4]) == n;
  }

  lemma {:induction false} SourceIsRead(src: seq<byte>, body: seq<byte>)
    requires 5 + |body| <= |src| && 5 + |body| <= 4096 && src[0] == 0x16
    requires src[3..5] == Be(|body|, 2) && src[5..5 + |body|] == body
    ensures Parse(src) == ParseRecord(body)
  {
    BeTruncates2(|body|);
    assert |body| % 0x1_0000 == |body|;
    assert RecordEnd(src) == 5 + |body|;
  }

  lemma {:induction false} RecordIsRead(src: seq<byte>, version: seq<byte>, hello: seq<byte>, after: seq<byte>)
    requires |version| == 2 && RecordBytes(version, hello, after) <= src && 9 + |hello| + |after| <= 4096
    ensures Parse(src) == ParseHello(hello)
  {
    var n := |RecordBytes(version, hello, after)|;
    assert src == RecordBytes(version, hello, after) + src[n..];
    RecordParts(version, hello, after, src[n..]);
    var body := [0x01] + Be(|hello|, 3) + (hello + after);
    SourceIsRead(src, body);
    BodyIsRead(body, |hello|);
  }

  /** A record of any fields within the limit is parsed to exactly those fields, whatever follows. */
  lemma {:induction false} PrintedIsRead(src: seq<byte>, version: seq<byte>, f: Fields, after: seq<byte>)
    requires IsRecord(src, version, f, after)
    ensures Parse(src) == Complete(NoteAll(ExtsOf(f.block), Bare(f))) && HelloIs(f, NoteAll(ExtsOf(f.block), Bare(f)))
  {
    RecordIsRead(src, version, PrintHello(f), after);
    PrintedHello(f);
    NotedHello(ExtsOf(f.block), Bare(f));
  }

  lemma {:induction false} CutRecord(src: seq<byte>, k: nat, n: nat)
    requires |src| >= 5 + k && k >= 4 + n && src[0] == 0x16 && GetU16(src[3..5]) == k && src[5] == 0x01
    requires FromBe(src[6..9]) == n
    ensures RecordBytes(src[1..3], src[9..9 + n], src[9 + n..5 + k]) == src[..5 + k]
  {
    BeOfFromBe(src[3..5]);
    BeOfFromBe(src[6..9]);
    var body := src[5..5 + k];
    assert src[..5 + k] == [src[0]] + src[1..3] + src[3..5] + body;
    assert body == [src[5]] + src[6..9] + (src[9..9 + n] + src[9 + n..5 + k]);
  }

  /** What a parsed record holds where. */
  lemma {:induction false} CompleteRecord(src: seq<byte>) returns (k: nat, n: nat)
    requires Parse(src).Complete?
    ensures 5 + k <= |src| && 5 + k <= 4096 && 4 + n <= k && src[0] == 0x16 && src[5] == 0x01
    ensures GetU16(src[3..5]) == k && FromBe(src[6..9]) == n && Parse(src) == ParseHello(src[9..9 + n])
  {
    k := GetU16(src[3..5]);
    var body := src[5..5 + k];
    n := FromBe(body[1..4]);
    SliceOfSlice(src, 5, 5 + k, 1, 4);
    SliceOfSlice(src, 5, 5 + k, 4, 4 + n);
  }

  lemma {:induction false} SliceOfSlice(s: seq<byte>, i: nat, j: nat, a: nat, b: nat)
    requires i <= j <= |s| && a <= b <= j - i
    ensures s[i..j][a..b] == s[i + a..i + b]
  {
    forall x | 0 <= x < b - a ensures s[i..j][a..b][x] == s[i + a..i + b][x] {
      assert s[i..j][a..b][x] == s[i..j][a + x] == s[i + a + x];
    }
  }

  /** Nothing else is parsed. */
  lemma {:induction false} ReadIsPrinted(src: seq<byte>) returns (version: seq<byte>, f: Fields, after: seq<byte>)
    requires Parse(src).Complete?
    ensures IsRecord(src, version, f, after) && Parse(src) == Complete(NoteAll(ExtsOf(f.block), Bare(f)))
  {
    var k, n := CompleteRecord(src);
    f := ReadIsHello(src[9..9 + n]);
    version, after := src[1..3], src[9 + n..5 + k];
    CutRecord(src, k, n);
  }

  /** A byte string is parsed to a hello if and only if it begins with a record of at most 4096 bytes that carries exactly
      the fields of that hello: any record version; any legacy version and random; a session id of up to 255 bytes; any
      list of cipher suites and of compression methods; and a list of extensions of which the last readable host name is
      the server name, and of which some supported_versions list holds 0x0304 at some place exactly if the hello is of
      TLS 1.3. */
  lemma {:induction false} CompleteIff(src: seq<byte>, hello: Hello)
    ensures Parse(src) == Complete(hello) <==>
      exists version, f, after :: IsRecord(src, version, f, after) && HelloIs(f, hello)
  {
    if Parse(src) == Complete(hello) {
      var version, f, after := ReadIsPrinted(src);
      NotedHello(ExtsOf(f.block), Bare(f));
    }
    if version, f, after :| IsRecord(src, version, f, after) && HelloIs(f, hello) {
      PrintedIsRead(src, version, f, after);
      HelloIsUnique(f, hello, NoteAll(ExtsOf(f.block), Bare(f)));
    }
  }

  lemma {:induction false} HelloIsUnique(f: Fields, x: Hello, y: Hello)
    requires HelloIs(f, x) && HelloIs(f, y)
    ensures x == y
  {
    SniIsUnique(ExtsOf(f.block), x.sni, y.sni);
  }

  lemma {:induction false} SniIsUnique(exts: seq<Ext>, x: Option<seq<byte>>, y: Option<seq<byte>>)
    requires SniIs(exts, x) && SniIs(exts, y)
    ensures x == y
  {
    if x.Some? && y.Some? {
      var i, host :| 0 <= i < |exts| && Names(exts[i], host) && x.value == Lower(host)
        && forall j, other :: i < j < |exts| ==> !Names(exts[j], other);
      var k, name :| 0 <= k < |exts| && Names(exts[k], name) && y.value == Lower(name)
        && forall j, other :: k < j < |exts| ==> !Names(exts[j], other);
      assert i == k;
      NameIsRead(exts[i], host);
      NameIsRead(exts[i], name);
    }
  }

  /** Which error a refused record gives, and when more bytes are asked for. */
  lemma {:induction false} RefusalIs(src: seq<byte>)
    ensures Parse(src) == NeedMoreData(5) <==> |src| < 5
    ensures |src| >= 5 ==>
      var end := 5 + (src[3] as int) * 256 + src[4];
      && (Parse(src) == Invalid(NotTlsHandshake) <==> src[0] != 0x16)
      && (Parse(src) == Invalid(PacketTooLarge) <==> src[0] == 0x16 && end > 4096)
      && (Parse(src).NeedMoreData? <==> src[0] == 0x16 && |src| < end <= 4096)
      && (Parse(src).NeedMoreData? ==> Parse(src).expected == end)
      && (Parse(src) == Invalid(NotClientHello) <==>
            src[0] == 0x16 && end <= 4096 && end <= |src| && (end == 5 || src[5] != 0x01))
  {
    if |src| >= 5 {
      FromBe2(src[3..5]);
      var end := RecordEnd(src);
      if src[0] == 0x16 && end <= 4096 && end <= |src| {
        RecordRefusal(src[5..end]);
      }
    }
  }

  lemma {:induction false} RecordRefusal(body: seq<byte>)
    ensures ParseRecord(body) == Invalid(NotClientHello) <==> body == [] || body[0] != 0x01
    ensures ParseRecord(body).Complete? || ParseRecord(body) == Invalid(NotClientHello) || ParseRecord(body) == MALFORMED
  {
  }
}
