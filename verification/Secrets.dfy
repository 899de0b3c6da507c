/** Stored credentials: the private key file in its three formats, and the token file's writer and scanner. */
module Secrets {
  import opened Bytes
  import opened Text
  import Utf8

  datatype KeyError = InvalidKey(length: nat)

  // ---------- the key file ----------

  predicate AllHex(s: seq<byte>) {
    forall i :: 0 <= i < |s| ==> DigitValue(s[i]).Some?
  }

  function ParsePrivateKey(raw: seq<byte>): Result<seq<byte>, KeyError> {
    if |raw| == 32 then Ok(raw)
    else
      var text := Trim(Utf8.Lossy(raw));
      if |text| == 64 && AllHex(text)
         && HexDecoded(text).Some? && |HexDecoded(text).value| == 32 then Ok(HexDecoded(text).value)
      else if Base64Decoded(text).Some? && |Base64Decoded(text).value| == 32 then Ok(Base64Decoded(text).value)
      else Err(InvalidKey(|raw|))
  }

  /** ASCII text with blanks around it survives the lossy decoding and the trimming. */
  lemma {:induction false} PaddedText(w: seq<byte>, t: seq<byte>, z: seq<byte>)
    requires AllBlank(w) && AllBlank(z) && AllPrinting(t)
    ensures Trim(Utf8.Lossy(w + t + z)) == t
  {
    Utf8.AsciiIsValid(w + t + z);
    Utf8.LossyOfValid(w + t + z);
    TrimPadded(w, t, z);
  }

  lemma {:induction false} HexKeyIsRead(key: seq<byte>, w: seq<byte>, z: seq<byte>)
    requires |key| == 32 && AllBlank(w) && AllBlank(z)
    ensures ParsePrivateKey(w + Hex(key) + z) == Ok(key)
  {
    HexIsPrinting(key);
    PaddedText(w, Hex(key), z);
    HexRoundTrip(key);
  }

  lemma {:induction false} Base64KeyIsRead(key: seq<byte>, w: seq<byte>, z: seq<byte>)
    requires |key| == 32 && AllBlank(w) && AllBlank(z)
    ensures ParsePrivateKey(w + Base64(key) + z) == Ok(key)
  {
    Base64IsPrinting(key);
    PaddedText(w, Base64(key), z);
    Base64RoundTrip(key);
  }

  /** Every 32-byte key comes back from all three file formats, with any blanks around the text forms;
      no form is mistaken for another. */
  lemma {:induction false} KeyFileRoundTrip(key: seq<byte>, w: seq<byte>, z: seq<byte>)
    requires |key| == 32 && AllBlank(w) && AllBlank(z)
    ensures ParsePrivateKey(key) == Ok(key)
    ensures ParsePrivateKey(w + Hex(key) + z) == Ok(key)
    ensures ParsePrivateKey(w + Base64(key) + z) == Ok(key)
  {
    HexKeyIsRead(key, w, z);
    Base64KeyIsRead(key, w, z);
  }

  lemma {:induction false} HexKeyDecodes(text: seq<byte>)
    requires |text| == 64 && AllHex(text)
    ensures HexDecoded(text).Some? && |HexDecoded(text).value| == 32
  {
    assert AllPrinting(text) by {
      forall i | 0 <= i < |text| ensures Printing(text[i]) {
        assert DigitValue(text[i]).Some?;
      }
    }
    PrintingDecodes(text);
    UnhexOfDigits(text);
  }

  lemma {:induction false} UnhexOfDigits(s: seq<byte>)
    requires |s| % 2 == 0 && AllHex(s)
    ensures Unhex(s).Some? && 2 * |Unhex(s).value| == |s|
    decreases s
  {
    if s != [] {
      assert DigitValue(s[0]).Some? && DigitValue(s[1]).Some?;
      UnhexOfDigits(s[2..]);
    }
  }

  /** Which files hold which key: 32 bytes are the key themselves; otherwise text, trimmed, of 64 hexadecimal digits holds
      the key they spell, and other text the 32 bytes that it decodes to as Base64. Anything else is refused, with the
      length of the file. */
  lemma {:induction false} ParseKeyIff(raw: seq<byte>, key: seq<byte>)
    ensures ParsePrivateKey(raw) == Ok(key) <==>
      if |raw| == 32 then key == raw
      else
        var text := Trim(Utf8.Lossy(raw));
        if |text| == 64 && AllHex(text) then HexDecoded(text) == Some(key)
        else Base64Decoded(text) == Some(key) && |key| == 32
    ensures ParsePrivateKey(raw).Err? ==> ParsePrivateKey(raw) == Err(InvalidKey(|raw|))
  {
    var text := Trim(Utf8.Lossy(raw));
    if |text| == 64 && AllHex(text) {
      HexKeyDecodes(text);
    }
  }

  // ---------- searching text ----------

  function Find(s: seq<byte>, pat: seq<byte>): (r: Option<nat>)
    ensures r.Some? ==> r.value + |pat| <= |s|
  {
    if |s| < |pat| then None
    else if pat <= s then Some(0)
    else if s == [] then None
    else match Find(s[1..], pat) case None => None case Some(i) => Some(i + 1)
  }

  lemma {:induction false} FindFirst(s: seq<byte>, pat: seq<byte>, k: nat)
    requires k + |pat| <= |s| && pat <= s[k..]
    requires forall i :: 0 <= i < k ==> !(pat <= s[i..])
    ensures Find(s, pat) == Some(k)
  {
    if k == 0 {
      assert s[0..] == s;
    } else {
      assert s[0..] == s && !(pat <= s[0..]);
      forall i | 0 <= i < k - 1 ensures !(pat <= s[1..][i..]) {
        assert s[1..][i..] == s[i + 1..];
      }
      assert s[1..][k - 1..] == s[k..];
      FindFirst(s[1..], pat, k - 1);
    }
  }

  /** The part before the first occurrence of `b`, or everything. */
  function UpTo(s: seq<byte>, b: byte): seq<byte> {
    if s == [] || s[0] == b then [] else [s[0]] + UpTo(s[1..], b)
  }

  lemma {:induction false} UpToStops(s: seq<byte>, b: byte, rest: seq<byte>)
    requires b !in s
    ensures UpTo(s + [b] + rest, b) == s
  {
    var all := s + [b] + rest;
    if s != [] {
      UpToStops(s[1..], b, rest);
      assert all[1..] == s[1..] + [b] + rest;
      assert s == [s[0]] + s[1..];
    }
  }

  // ---------- the token file ----------

  const QUOTE: byte := 34
  const COLON: byte := 58
  const NEWLINE: byte := 10
  const UNDERSCORE: byte := 95

  // The fixed parts of the JSON text, as bytes.
  const OPENING: seq<byte> := [123, 10, 32, 32, 34, 112, 117, 98, 108, 105, 99, 95, 107, 101, 121, 95, 98, 97, 115, 101, 54, 52, 34, 58, 32, 34]
  const MIDDLE: seq<byte> := [34, 44, 10, 32, 32]
  const MARKER: seq<byte> := [34, 115, 101, 99, 114, 101, 116, 95, 116, 111, 107, 101, 110, 95, 104, 101, 120, 34]
  const SEPARATOR: seq<byte> := [58, 32, 34]
  const CLOSING: seq<byte> := [34, 10, 125, 10]

  /** The JSON text that is stored for a token and a Base64 public key. */
  function JsonText(token: seq<byte>, publicKey: seq<byte>): seq<byte> {
    OPENING + publicKey + MIDDLE + MARKER + (SEPARATOR + Hex(token) + CLOSING)
  }

  function TokenText(token: seq<byte>): seq<byte> {
    Hex(token) + [NEWLINE]
  }

  function NonEmpty(token: Option<seq<byte>>): Option<seq<byte>> {
    if token == Some([]) then None else token
  }

  /** The value after the next colon, between quotes, as a non-empty hexadecimal token. */
  function ScanValue(tail: seq<byte>): Option<seq<byte>> {
    match Find(tail, [COLON])
    case None => None
    case Some(colon) => ScanQuoted(TrimStart(tail[colon + 1..]))
  }

  function ScanAfter(content: seq<byte>, marker: seq<byte>): Option<seq<byte>> {
    match Find(content, marker)
    case None => None
    case Some(k) => ScanValue(content[k + |marker|..])
  }

  function ScanJson(content: seq<byte>): Option<seq<byte>> {
    ScanAfter(content, MARKER)
  }

  function ScanTokenFile(raw: seq<byte>): Option<seq<byte>> {
    var text := Trim(Utf8.Lossy(raw));
    if text == [] then None
    else if HexDecoded(text).Some? then HexDecoded(text)
    else Some(text)
  }

  /** `read_saved_token`: the JSON file first, if it exists and is text, then the plain token file. */
  function ReadSavedToken(json: Option<seq<byte>>, tokenFile: Option<seq<byte>>): Option<seq<byte>> {
    if json.Some? && Utf8.Valid(json.value) && ScanJson(json.value).Some? then ScanJson(json.value)
    else if tokenFile.Some? then ScanTokenFile(tokenFile.value)
    else None
  }

  /** The fixed parts of the text are these strings. */
  lemma {:induction false} TextsAre()
    ensures OPENING == Ascii("{\n  \"public_key_base64\": \"") && MIDDLE == Ascii("\",\n  ")
    ensures MARKER == Ascii("\"secret_token_hex\"") && SEPARATOR == Ascii(": \"") && CLOSING == Ascii("\"\n}\n")
    ensures [QUOTE] == Ascii("\"") && [COLON] == Ascii(":") && [NEWLINE] == Ascii("\n")
  {
  }

  /** What is written for a token: the JSON text around the public key and the hexadecimal token, and a line of its own. */
  lemma {:induction false} TokenIsWritten(token: seq<byte>, publicKey: seq<byte>)
    ensures JsonText(token, publicKey)
      == Ascii("{\n  \"public_key_base64\": \"") + publicKey
         + (Ascii("\",\n  ") + Ascii("\"secret_token_hex\"") + Ascii(": \"")) + Hex(token) + Ascii("\"\n}\n")
    ensures TokenText(token) == Hex(token) + Ascii("\n")
  {
    TextsAre();
    SevenParts(OPENING, publicKey, MIDDLE, MARKER, SEPARATOR, Hex(token), CLOSING);
  }

  lemma {:induction false} SevenParts(a: seq<byte>, b: seq<byte>, c: seq<byte>, d: seq<byte>, e: seq<byte>, f: seq<byte>,
                                      g: seq<byte>)
    ensures a + b + c + d + (e + f + g) == a + b + (c + d + e) + f + g
  {
  }

  function Ascii(s: string): (t: seq<byte>)
    requires forall i :: 0 <= i < |s| ==> s[i] as int < 0x80
    ensures |t| == |s| && forall i :: 0 <= i < |s| ==> t[i] == s[i] as int
  {
    seq(|s|, i requires 0 <= i < |s| => s[i] as int)
  }

  /** The token file: nothing in an empty one, the bytes of hexadecimal text, or else the text itself. */
  lemma {:induction false} TokenFileIs(raw: seq<byte>)
    ensures var text := Trim(Utf8.Lossy(raw));
      && (text == [] ==> ScanTokenFile(raw) == None)
      && (text != [] && HexDecoded(text).Some? ==> ScanTokenFile(raw) == HexDecoded(text))
      && (text != [] && HexDecoded(text).None? ==> ScanTokenFile(raw) == Some(text))
  {
  }

  /** A token in the JSON file counts, whatever the token file holds; the token file counts if there is no JSON file, if
      it is not text, or if it holds no token. */
  lemma {:induction false} JsonComesFirst(json: Option<seq<byte>>, tokenFile: Option<seq<byte>>, token: seq<byte>)
    ensures json.Some? && Utf8.Valid(json.value) && ScanJson(json.value) == Some(token) ==>
      ReadSavedToken(json, tokenFile) == Some(token)
    ensures json.None? || !Utf8.Valid(json.value) || ScanJson(json.value).None? ==>
      ReadSavedToken(json, tokenFile) == if tokenFile.Some? then ScanTokenFile(tokenFile.value) else None
  {
  }

  ghost predicate Occurs(s: seq<byte>, pat: seq<byte>, i: nat) {
    i <= |s| && pat <= s[i..]
  }

  /** Place `k` is the first where `pat` occurs. */
  ghost predicate FirstAt(s: seq<byte>, pat: seq<byte>, k: nat) {
    Occurs(s, pat, k) && forall i: nat :: i < k ==> !Occurs(s, pat, i)
  }

  lemma {:induction false} OccursShifts(s: seq<byte>, pat: seq<byte>, i: nat)
    requires s != []
    ensures Occurs(s, pat, i + 1) <==> Occurs(s[1..], pat, i)
  {
    if i < |s| {
      assert s[1..][i..] == s[i + 1..];
    }
  }

  lemma {:induction false} FirstShifts(s: seq<byte>, pat: seq<byte>, k: nat)
    requires s != [] && !Occurs(s, pat, 0)
    ensures FirstAt(s, pat, k + 1) <==> FirstAt(s[1..], pat, k)
  {
    OccursShifts(s, pat, k);
    if FirstAt(s[1..], pat, k) {
      forall i: nat | i < k + 1 ensures !Occurs(s, pat, i) {
        if i > 0 {
          OccursShifts(s, pat, i - 1);
        }
      }
    }
    if FirstAt(s, pat, k + 1) {
      forall i: nat | i < k ensures !Occurs(s[1..], pat, i) {
        OccursShifts(s, pat, i);
      }
    }
  }

  lemma {:induction false} FindIff(s: seq<byte>, pat: seq<byte>, k: nat)
    ensures Find(s, pat) == Some(k) <==> FirstAt(s, pat, k)
    decreases |s|
  {
    assert s[0..] == s;
    if pat <= s {
      assert Occurs(s, pat, 0);
    } else if s != [] && k > 0 {
      FindIff(s[1..], pat, k - 1);
      FirstShifts(s, pat, k - 1);
    }
  }

  lemma {:induction false} UpToIff(s: seq<byte>, b: byte, t: seq<byte>)
    ensures UpTo(s, b) == t <==> t <= s && b !in t && (|t| < |s| ==> s[|t|] == b)
    decreases s
  {
    if s != [] && s[0] != b {
      if t != [] {
        UpToIff(s[1..], b, t[1..]);
        assert t == [t[0]] + t[1..];
        if UpTo(s, b) == t {
          assert ([s[0]] + UpTo(s[1..], b))[1..] == UpTo(s[1..], b);
        }
      }
    }
  }

  /** The value that the scanner looks at: text after the first marker and the first colon after it, with white space
      skipped, from a quote to the next quote or the end. */
  ghost predicate HoldsValue(content: seq<byte>, marker: seq<byte>, value: seq<byte>) {
    exists k: nat :: FirstAt(content, marker, k) && TailHolds(content[k + |marker|..], value)
  }

  ghost predicate TailHolds(tail: seq<byte>, value: seq<byte>) {
    exists colon: nat :: FirstAt(tail, [COLON], colon) && QuotedAt(TrimStart(tail[colon + 1..]), value)
  }

  ghost predicate QuotedAt(text: seq<byte>, value: seq<byte>) {
    && [QUOTE] + value <= text && QUOTE !in value
    && (1 + |value| < |text| ==> text[1 + |value|] == QUOTE)
  }

  lemma {:induction false} QuotedIff(text: seq<byte>, value: seq<byte>)
    ensures QuotedAt(text, value) <==> text != [] && text[0] == QUOTE && UpTo(text[1..], QUOTE) == value
  {
    if text != [] {
      UpToIff(text[1..], QUOTE, value);
      if text[0] == QUOTE && value <= text[1..] {
        assert text[..1 + |value|] == [QUOTE] + text[1..][..|value|];
      }
      if [QUOTE] + value <= text {
        assert text[1..][..|value|] == value;
      }
    }
  }

  /** The value is hexadecimal for the token, which is not empty. */
  ghost predicate Spells(value: seq<byte>, token: seq<byte>) {
    HexDecoded(value) == Some(token) && token != []
  }

  /** The value in quotes that text, after a colon, begins with. */
  function ScanQuoted(text: seq<byte>): Option<seq<byte>> {
    if text == [] || text[0] != QUOTE then None else NonEmpty(HexDecoded(UpTo(text[1..], QUOTE)))
  }

  lemma {:induction false} ScanQuotedIff(text: seq<byte>, token: seq<byte>)
    ensures ScanQuoted(text) == Some(token) <==> exists value :: QuotedAt(text, value) && Spells(value, token)
  {
    if text != [] && text[0] == QUOTE {
      QuotedIff(text, UpTo(text[1..], QUOTE));
    }
    if value :| QuotedAt(text, value) && Spells(value, token) {
      QuotedIff(text, value);
    }
  }

  lemma {:induction false} ValueHeld(tail: seq<byte>, token: seq<byte>) returns (value: seq<byte>)
    requires ScanValue(tail) == Some(token)
    ensures TailHolds(tail, value) && Spells(value, token)
  {
    var colon := Find(tail, [COLON]).value;
    FindIff(tail, [COLON], colon);
    ScanQuotedIff(TrimStart(tail[colon + 1..]), token);
    value :| QuotedAt(TrimStart(tail[colon + 1..]), value) && Spells(value, token);
  }

  lemma {:induction false} HeldValue(tail: seq<byte>, value: seq<byte>, token: seq<byte>)
    requires TailHolds(tail, value) && Spells(value, token)
    ensures ScanValue(tail) == Some(token)
  {
    var colon: nat :| FirstAt(tail, [COLON], colon) && QuotedAt(TrimStart(tail[colon + 1..]), value);
    FindIff(tail, [COLON], colon);
    ScanQuotedIff(TrimStart(tail[colon + 1..]), token);
  }

  lemma {:induction false} ScanAfterIs(content: seq<byte>, marker: seq<byte>, k: nat)
    requires FirstAt(content, marker, k)
    ensures ScanAfter(content, marker) == ScanValue(content[k + |marker|..])
  {
    FindIff(content, marker, k);
  }

  lemma {:induction false} MarkerFound(content: seq<byte>, marker: seq<byte>) returns (k: nat)
    requires ScanAfter(content, marker).Some?
    ensures FirstAt(content, marker, k)
  {
    k := Find(content, marker).value;
    FindIff(content, marker, k);
  }

  lemma {:induction false} ScanAfterIff(content: seq<byte>, marker: seq<byte>, token: seq<byte>)
    ensures ScanAfter(content, marker) == Some(token) <==>
      exists value :: HoldsValue(content, marker, value) && Spells(value, token)
  {
    if ScanAfter(content, marker) == Some(token) {
      var k := MarkerFound(content, marker);
      ScanAfterIs(content, marker, k);
      var value := ValueHeld(content[k + |marker|..], token);
      assert HoldsValue(content, marker, value);
    }
    if value :| HoldsValue(content, marker, value) && Spells(value, token) {
      var k: nat :| FirstAt(content, marker, k) && TailHolds(content[k + |marker|..], value);
      ScanAfterIs(content, marker, k);
      HeldValue(content[k + |marker|..], value, token);
    }
  }

  /** A token is read from text exactly if the text holds, after the first marker, a quoted value that is hexadecimal for
      it, and the token is not empty. */
  lemma {:induction false} ScanJsonIff(content: seq<byte>, token: seq<byte>)
    ensures ScanJson(content) == Some(token) <==>
      exists value :: HoldsValue(content, MARKER, value) && Spells(value, token)
  {
    ScanAfterIff(content, MARKER, token);
  }

  /** Whatever the key, the marker does not occur before its own place: between the quotes of the key there is no
      underscore, and the other quotes are followed by the wrong character. */
  lemma {:induction false} NoEarlierMarker(key: seq<byte>, rest: seq<byte>, i: nat)
    requires forall j :: 0 <= j < |key| ==> key[j] != QUOTE && key[j] != UNDERSCORE
    requires i < |OPENING| + |key| + |MIDDLE|
    ensures !(MARKER <= (OPENING + key + MIDDLE + MARKER + rest)[i..])
  {
    var text := OPENING + key + MIDDLE + MARKER + rest;
    if MARKER <= text[i..] {
      assert text[i] == text[i..][0] == MARKER[0] == QUOTE;
      assert text[i + 1] == text[i..][1] == MARKER[1];
      assert text[i + 7] == text[i..][7] == MARKER[7] == UNDERSCORE;
      QuotePlaces(key, rest, i);
    }
  }

  lemma {:induction false} QuotePlaces(key: seq<byte>, rest: seq<byte>, i: nat)
    requires forall j :: 0 <= j < |key| ==> key[j] != QUOTE && key[j] != UNDERSCORE
    requires i < |OPENING| + |key| + |MIDDLE|
    ensures var text := OPENING + key + MIDDLE + MARKER + rest;
      text[i] == QUOTE ==> text[i + 1] != MARKER[1] || text[i + 7] != UNDERSCORE
  {
    var n, k := |OPENING|, |key|;
    if i < n - 1 {
      QuoteInOpening(i);
      assert (OPENING + key + MIDDLE + MARKER + rest)[i] == OPENING[i];
      assert (OPENING + key + MIDDLE + MARKER + rest)[i + 1] == OPENING[i + 1];
    } else if i == n - 1 {
      AfterOpening(key, rest);
    } else if i < n + k {
      assert (OPENING + key + MIDDLE + MARKER + rest)[i] == key[i - n];
    } else {
      assert (OPENING + key + MIDDLE + MARKER + rest)[i..] == MIDDLE[i - n - k..] + MARKER + rest;
      QuoteInMiddle(i - n - k, rest);
    }
  }

  lemma {:induction false} QuoteInOpening(i: nat)
    requires i < |OPENING| - 1
    ensures OPENING[i] == QUOTE ==> OPENING[i + 1] != MARKER[1]
  {
  }

  lemma {:induction false} QuoteInMiddle(i: nat, rest: seq<byte>)
    requires i < |MIDDLE|
    ensures var text := MIDDLE[i..] + MARKER + rest;
      text[0] == QUOTE ==> text[1] != MARKER[1]
  {
  }

  lemma {:induction false} AfterOpening(key: seq<byte>, rest: seq<byte>)
    requires forall j :: 0 <= j < |key| ==> key[j] != UNDERSCORE
    ensures (OPENING + key + MIDDLE + MARKER + rest)[|OPENING| + 6] != UNDERSCORE
  {
    var text := OPENING + key + MIDDLE + MARKER + rest;
    if |key| > 6 {
      assert text[|OPENING| + 6] == key[6];
    } else {
      assert text[|OPENING| + 6] == (MIDDLE + MARKER)[6 - |key|];
    }
  }

  lemma {:induction false} MarkerIsFound(key: seq<byte>, rest: seq<byte>)
    requires forall j :: 0 <= j < |key| ==> key[j] != QUOTE && key[j] != UNDERSCORE
    ensures Find(OPENING + key + MIDDLE + MARKER + rest, MARKER) == Some(|OPENING| + |key| + |MIDDLE|)
  {
    var text := OPENING + key + MIDDLE + MARKER + rest;
    var k := |OPENING| + |key| + |MIDDLE|;
    assert text[k..] == MARKER + rest;
    forall i | 0 <= i < k ensures !(MARKER <= text[i..]) {
      NoEarlierMarker(key, rest, i);
    }
    FindFirst(text, MARKER, k);
  }

  lemma {:induction false} ValueIsRead(token: seq<byte>)
    ensures var tail := SEPARATOR + Hex(token) + CLOSING;
      && Find(tail, [COLON]) == Some(0)
      && TrimStart(tail[1..]) == [QUOTE] + Hex(token) + CLOSING
      && UpTo(([QUOTE] + Hex(token) + CLOSING)[1..], QUOTE) == Hex(token)
  {
    ColonFirst(Hex(token) + CLOSING);
    Regroup(SEPARATOR, Hex(token), CLOSING);
    Regroup([QUOTE], Hex(token), CLOSING);
    HexHasNoQuote(token);
    QuoteEnds(Hex(token));
  }

  lemma {:induction false} ColonFirst(rest: seq<byte>)
    ensures Find(SEPARATOR + rest, [COLON]) == Some(0) && TrimStart((SEPARATOR + rest)[1..]) == [QUOTE] + rest
  {
    var tail := SEPARATOR + rest;
    assert [COLON] <= tail;
    assert tail[1..] == [32] + ([QUOTE] + rest);
    TrimStartSkips([32], [QUOTE] + rest);
  }

  lemma {:induction false} QuoteEnds(value: seq<byte>)
    requires QUOTE !in value
    ensures UpTo(([QUOTE] + (value + CLOSING))[1..], QUOTE) == value
  {
    var after := CLOSING[1..];
    assert ([QUOTE] + (value + CLOSING))[1..] == value + [QUOTE] + after;
    UpToStops(value, QUOTE, after);
  }

  lemma {:induction false} HexHasNoQuote(token: seq<byte>)
    ensures QUOTE !in Hex(token)
  {
    HexIsPrinting(token);
    forall j | 0 <= j < |Hex(token)| ensures Hex(token)[j] != QUOTE {
      assert DigitValue(Hex(token)[j]).Some?;
    }
  }

  lemma {:induction false} Base64HasNoQuote(key: seq<byte>)
    ensures forall j :: 0 <= j < |Base64(key)| ==> Base64(key)[j] != QUOTE && Base64(key)[j] != UNDERSCORE
  {
    Base64IsPrinting(key);
  }

  lemma {:induction false} ValueIsScanned(token: seq<byte>)
    ensures ScanValue(SEPARATOR + Hex(token) + CLOSING) == if token == [] then None else Some(token)
  {
    ValueIsRead(token);
    HexRoundTrip(token);
  }

  lemma {:induction false} JsonIsScanned(token: seq<byte>, key: seq<byte>)
    ensures ScanJson(JsonText(token, Base64(key))) == if token == [] then None else Some(token)
  {
    Base64HasNoQuote(key);
    TailIsScanned(Base64(key), SEPARATOR + Hex(token) + CLOSING);
    ValueIsScanned(token);
  }

  lemma {:induction false} TailIsScanned(key: seq<byte>, tail: seq<byte>)
    requires forall j :: 0 <= j < |key| ==> key[j] != QUOTE && key[j] != UNDERSCORE
    ensures ScanJson(OPENING + key + MIDDLE + MARKER + tail) == ScanValue(tail)
  {
    MarkerIsFound(key, tail);
    Seam(OPENING + key + MIDDLE + MARKER, tail);
  }

  lemma {:induction false} TokenFileIsScanned(token: seq<byte>)
    ensures ScanTokenFile(TokenText(token)) == if token == [] then None else Some(token)
  {
    HexIsPrinting(token);
    PaddedText([], Hex(token), [NEWLINE]);
    assert [] + Hex(token) + [NEWLINE] == TokenText(token);
    HexRoundTrip(token);
  }

  /** What is persisted for a token is read back, from the JSON file or, without it, from the token file; an empty
      token is read back as no token. */
  lemma {:induction false} TokenRoundTrip(token: seq<byte>, key: seq<byte>, jsonThere: bool)
    ensures ReadSavedToken(if jsonThere then Some(JsonText(token, Base64(key))) else None, Some(TokenText(token)))
      == if token == [] then None else Some(token)
  {
    JsonIsScanned(token, key);
    TokenFileIsScanned(token);
    JsonIsAscii(token, key);
  }

  lemma {:induction false} AsciiConcat(a: seq<byte>, b: seq<byte>)
    requires Utf8.Ascii(a) && Utf8.Ascii(b)
    ensures Utf8.Ascii(a + b)
  {
  }

  lemma {:induction false} JsonIsAscii(token: seq<byte>, key: seq<byte>)
    ensures Utf8.Valid(JsonText(token, Base64(key)))
  {
    assert Utf8.Ascii(Hex(token)) by { HexIsPrinting(token); }
    assert Utf8.Ascii(Base64(key)) by { Base64IsPrinting(key); }
    assert Utf8.Ascii(SEPARATOR) && Utf8.Ascii(CLOSING);
    AsciiConcat(SEPARATOR, Hex(token));
    AsciiConcat(SEPARATOR + Hex(token), CLOSING);
    KeyPartIsAscii(Base64(key));
    AsciiConcat(OPENING + Base64(key) + MIDDLE + MARKER, SEPARATOR + Hex(token) + CLOSING);
    Utf8.AsciiIsValid(JsonText(token, Base64(key)));
  }

  lemma {:induction false} KeyPartIsAscii(key: seq<byte>)
    requires Utf8.Ascii(key)
    ensures Utf8.Ascii(OPENING + key + MIDDLE + MARKER)
  {
    AsciiConcat(OPENING, key);
    AsciiConcat(OPENING + key, MIDDLE);
    AsciiConcat(OPENING + key + MIDDLE, MARKER);
  }
}
