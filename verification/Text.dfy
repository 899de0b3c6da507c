/** Text forms of keys and tokens: trimming, hexadecimal, and Base64 (section 4 of RFC 4648). Text is its UTF-8 bytes. */
module Text {
  import opened Bytes

  // ---------- trimming ----------

  // The encodings, of one, two and three bytes, of the characters with the Unicode White_Space property.
  predicate Blank(a: byte) { 9 <= a <= 13 || a == 32 }

  predicate Space2(a: byte, b: byte) { a == 0xC2 && (b == 0x85 || b == 0xA0) }

  predicate Space3(a: byte, b: byte, c: byte) {
    || (a == 0xE1 && b == 0x9A && c == 0x80)
    || (a == 0xE2 && b == 0x80 && (0x80 <= c <= 0x8A || 0xA8 <= c <= 0xA9 || c == 0xAF))
    || (a == 0xE2 && b == 0x81 && c == 0x9F)
    || (a == 0xE3 && b == 0x80 && c == 0x80)
  }

  /** Width of the white space character at the front, 0 if there is none. */
  function SpaceAhead(s: seq<byte>): (n: nat)
    ensures n <= |s|
  {
    if |s| >= 1 && Blank(s[0]) then 1
    else if |s| >= 2 && Space2(s[0], s[1]) then 2
    else if |s| >= 3 && Space3(s[0], s[1], s[2]) then 3
    else 0
  }

  function SpaceBehind(s: seq<byte>): (n: nat)
    ensures n <= |s|
  {
    var k := |s|;
    if k >= 1 && Blank(s[k - 1]) then 1
    else if k >= 2 && Space2(s[k - 2], s[k - 1]) then 2
    else if k >= 3 && Space3(s[k - 3], s[k - 2], s[k - 1]) then 3
    else 0
  }

  function TrimStart(s: seq<byte>): seq<byte> {
    if SpaceAhead(s) == 0 then s else TrimStart(s[SpaceAhead(s)..])
  }

  function TrimEnd(s: seq<byte>): seq<byte> {
    if SpaceBehind(s) == 0 then s else TrimEnd(s[..|s| - SpaceBehind(s)])
  }

  function Trim(s: seq<byte>): seq<byte> {
    TrimEnd(TrimStart(s))
  }

  ghost predicate AllBlank(s: seq<byte>) {
    forall i :: 0 <= i < |s| ==> Blank(s[i])
  }

  predicate Printing(b: byte) {
    33 <= b <= 126
  }

  ghost predicate AllPrinting(s: seq<byte>) {
    forall i :: 0 <= i < |s| ==> Printing(s[i])
  }

  lemma {:induction false} TrimStopsAt(t: seq<byte>)
    ensures t == [] || Printing(t[0]) ==> TrimStart(t) == t
    ensures t == [] || Printing(t[|t| - 1]) ==> TrimEnd(t) == t
  {
  }

  lemma {:induction false} TrimOne(b: byte, t: seq<byte>)
    requires Blank(b)
    ensures TrimStart([b] + t) == TrimStart(t)
    ensures TrimEnd(t + [b]) == TrimEnd(t)
  {
    assert ([b] + t)[1..] == t && (t + [b])[..|t|] == t;
  }

  lemma {:induction false} TrimStartSkips(w: seq<byte>, t: seq<byte>)
    requires AllBlank(w) && (t == [] || Printing(t[0]))
    ensures TrimStart(w + t) == t
  {
    if w == [] {
      assert w + t == t;
      TrimStopsAt(t);
    } else {
      TrimStartSkips(w[1..], t);
      assert w + t == [w[0]] + (w[1..] + t);
      TrimOne(w[0], w[1..] + t);
    }
  }

  lemma {:induction false} TrimEndSkips(t: seq<byte>, w: seq<byte>)
    requires AllBlank(w) && (t == [] || Printing(t[|t| - 1]))
    ensures TrimEnd(t + w) == t
  {
    if w == [] {
      assert t + w == t;
      TrimStopsAt(t);
    } else {
      var n := |w| - 1;
      TrimEndSkips(t, w[..n]);
      assert t + w == (t + w[..n]) + [w[n]];
      TrimOne(w[n], t + w[..n]);
    }
  }

  /** Blanks around printing text are exactly what trimming takes away. */
  lemma {:induction false} TrimPadded(w: seq<byte>, t: seq<byte>, z: seq<byte>)
    requires AllBlank(w) && AllBlank(z) && AllPrinting(t)
    ensures Trim(w + t + z) == t
  {
    if t == [] {
      assert w + t + z == (w + z) + t;
      TrimStartSkips(w + z, t);
    } else {
      assert w + t + z == w + (t + z);
      TrimStartSkips(w, t + z);
      TrimEndSkips(t, z);
    }
  }

  lemma {:induction false} TrimPrinting(t: seq<byte>)
    requires AllPrinting(t)
    ensures Trim(t) == t
  {
    TrimStopsAt(t);
  }

  // ---------- hexadecimal ----------

  function HexDigit(n: nat): byte
    requires n < 16
  {
    if n < 10 then 48 + n else 87 + n
  }

  function Hex(s: seq<byte>): (t: seq<byte>)
    ensures |t| == 2 * |s|
  {
    if s == [] then [] else [HexDigit(s[0] / 16), HexDigit(s[0] % 16)] + Hex(s[1..])
  }

  function DigitValue(b: byte): Option<nat> {
    if 48 <= b <= 57 then Some(b - 48)
    else if 97 <= b <= 102 then Some(b - 87)
    else if 65 <= b <= 70 then Some(b - 55)
    else None
  }

  /** A two-character number as the radix parser reads it: a leading plus sign is allowed. */
  function HexPair(a: byte, b: byte): Option<nat> {
    if DigitValue(b).None? then None
    else if a == 43 then DigitValue(b)
    else if DigitValue(a).None? then None
    else Some(16 * DigitValue(a).value + DigitValue(b).value)
  }

  lemma {:induction false} HexPairRange(a: byte, b: byte)
    ensures HexPair(a, b).Some? ==> HexPair(a, b).value < 256
  {
  }

  /** Puts `front` before a result, if there is one. */
  function Before(front: seq<byte>, r: Option<seq<byte>>): Option<seq<byte>> {
    match r case None => None case Some(rest) => Some(front + rest)
  }

  lemma {:induction false} BeforeLaws(a: seq<byte>, b: seq<byte>, r: Option<seq<byte>>)
    ensures Before([], r) == r
    ensures Before(a, Before(b, r)) == Before(a + b, r)
  {
    if r.Some? {
      assert [] + r.value == r.value;
      assert a + (b + r.value) == a + b + r.value;
    }
  }

  function Unhex(s: seq<byte>): Option<seq<byte>>
    requires |s| % 2 == 0
  {
    if s == [] then Some([])
    else if HexPair(s[0], s[1]).None? then None
    else
      HexPairRange(s[0], s[1]);
      Before([HexPair(s[0], s[1]).value], Unhex(s[2..]))
  }

  function HexDecoded(text: seq<byte>): Option<seq<byte>> {
    var s := Trim(text);
    if |s| % 2 != 0 then None else Unhex(s)
  }

  lemma {:induction false} HexIsPrinting(s: seq<byte>)
    ensures AllPrinting(Hex(s))
    ensures forall i :: 0 <= i < |Hex(s)| ==> DigitValue(Hex(s)[i]).Some? && !(65 <= Hex(s)[i] <= 90)
  {
    if s != [] {
      HexIsPrinting(s[1..]);
    }
  }

  lemma {:induction false} UnhexOfHex(s: seq<byte>)
    ensures Unhex(Hex(s)) == Some(s)
  {
    if s != [] {
      UnhexOfHex(s[1..]);
      assert Hex(s)[2..] == Hex(s[1..]);
      assert HexPair(HexDigit(s[0] / 16), HexDigit(s[0] % 16)) == Some(s[0]);
      assert [s[0]] + s[1..] == s;
    }
  }

  lemma {:induction false} HexRoundTrip(s: seq<byte>)
    ensures HexDecoded(Hex(s)) == Some(s)
  {
    calc {
      HexDecoded(Hex(s));
      { HexTrims(s); }
      Unhex(Hex(s));
      { UnhexOfHex(s); }
      Some(s);
    }
  }

  lemma {:induction false} HexTrims(s: seq<byte>)
    ensures Trim(Hex(s)) == Hex(s)
    ensures HexDecoded(Hex(s)) == Unhex(Hex(s))
  {
    HexIsPrinting(s);
    PrintingDecodes(Hex(s));
    HexLength(s);
  }

  lemma {:induction false} HexLength(s: seq<byte>)
    ensures |Hex(s)| == 2 * |s|
  {
    if s != [] {
      HexLength(s[1..]);
    }
  }

  lemma {:induction false} PrintingDecodes(t: seq<byte>)
    requires AllPrinting(t)
    ensures Trim(t) == t
    ensures |t| % 2 == 0 ==> HexDecoded(t) == Unhex(t)
  {
    TrimPrinting(t);
  }

  method HexEncode(bytes: seq<byte>) returns (s: seq<byte>)
    ensures s == Hex(bytes)
  {
    s := [];
    for i := 0 to |bytes|
      invariant s + Hex(bytes[i..]) == Hex(bytes)
    {
      s := s + [HexDigit(bytes[i] / 16), HexDigit(bytes[i] % 16)];
      assert bytes[i..][1..] == bytes[i + 1..];
    }
  }

  method HexDecode(text: seq<byte>) returns (r: Option<seq<byte>>)
    ensures r == HexDecoded(text)
  {
    var s := Trim(text);
    if |s| % 2 != 0 {
      return None;
    }
    var bytes: seq<byte> := [];
    var i := 0;
    BeforeLaws([], [], Unhex(s));
    assert s[0..] == s;
    while i < |s|
      invariant 0 <= i <= |s| && i % 2 == 0
      invariant Unhex(s) == Before(bytes, Unhex(s[i..]))
    {
      var pair := HexPair(s[i], s[i + 1]);
      assert s[i..][2..] == s[i + 2..];
      if pair.None? {
        return None;
      }
      HexPairRange(s[i], s[i + 1]);
      BeforeLaws(bytes, [pair.value], Unhex(s[i + 2..]));
      bytes := bytes + [pair.value];
      i := i + 2;
    }
    assert bytes + [] == bytes;
    return Some(bytes);
  }

  // ---------- Base64 ----------

  const PAD: byte := 61

  function Letter(v: nat): byte
    requires v < 64
  {
    if v < 26 then 65 + v else if v < 52 then 71 + v else if v < 62 then v - 4 else if v == 62 then 43 else 47
  }

  function Sextet(b: byte): Option<nat> {
    if 65 <= b <= 90 then Some(b - 65)
    else if 97 <= b <= 122 then Some(b - 71)
    else if 48 <= b <= 57 then Some(b + 4 as int)
    else if b == 43 then Some(62)
    else if b == 47 then Some(63)
    else None
  }

  /** The four characters of a chunk of up to three bytes. */
  function Quad(chunk: seq<byte>): (q: seq<byte>)
    requires 1 <= |chunk| <= 3
    ensures |q| == 4
  {
    var b0 := chunk[0] as int;
    var b1 := if |chunk| > 1 then chunk[1] as int else 0;
    var b2 := if |chunk| > 2 then chunk[2] as int else 0;
    [Letter(b0 / 4), Letter(b0 % 4 * 16 + b1 / 16),
     if |chunk| > 1 then Letter(b1 % 16 * 4 + b2 / 64) else PAD,
     if |chunk| > 2 then Letter(b2 % 64) else PAD]
  }

  function Base64(data: seq<byte>): seq<byte> {
    if data == [] then []
    else if |data| <= 3 then Quad(data)
    else Quad(data[..3]) + Base64(data[3..])
  }

  lemma {:induction false} Base64Length(data: seq<byte>)
    ensures |Base64(data)| == (|data| + 2) / 3 * 4
  {
    if |data| > 3 {
      Base64Length(data[3..]);
    }
  }

  method Base64Encode(data: seq<byte>) returns (result: seq<byte>)
    ensures result == Base64(data)
  {
    result := [];
    var i := 0;
    while i < |data|
      invariant 0 <= i <= |data|
      invariant result + Base64(data[i..]) == Base64(data)
    {
      var end := if i + 3 <= |data| then i + 3 else |data|;
      EncodeStep(data, i, end, result);
      result := PushChunk(result, data[i..end]);
      i := end;
    }
  }

  lemma {:induction false} ChunkAt(data: seq<byte>, i: nat, end: nat)
    requires i < |data| && end == if i + 3 <= |data| then i + 3 else |data|
    ensures Base64(data[i..]) == Quad(data[i..end]) + Base64(data[end..])
  {
    NextChunk(data[i..]);
    assert data[i..][..end - i] == data[i..end] && data[i..][end - i..] == data[end..];
  }

  lemma {:induction false} EncodeStep(data: seq<byte>, i: nat, end: nat, done: seq<byte>)
    requires i < |data| && end == (if i + 3 <= |data| then i + 3 else |data|) && done + Base64(data[i..]) == Base64(data)
    ensures done + Quad(data[i..end]) + Base64(data[end..]) == Base64(data)
  {
    ChunkAt(data, i, end);
    Regroup(done, Quad(data[i..end]), Base64(data[end..]));
  }

  lemma {:induction false} Regroup(a: seq<byte>, b: seq<byte>, c: seq<byte>)
    ensures a + b + c == a + (b + c)
  {
  }

  /** The four pushes for one chunk. */
  method PushChunk(text: seq<byte>, chunk: seq<byte>) returns (result: seq<byte>)
    requires 1 <= |chunk| <= 3
    ensures result == text + Quad(chunk)
  {
    var b0 := chunk[0] as int;
    var b1 := if |chunk| > 1 then chunk[1] as int else 0;
    var b2 := if |chunk| > 2 then chunk[2] as int else 0;
    result := text + [Letter(b0 / 4)];
    result := result + [Letter(b0 % 4 * 16 + b1 / 16)];
    if |chunk| > 1 {
      result := result + [Letter(b1 % 16 * 4 + b2 / 64)];
    } else {
      result := result + [PAD];
    }
    if |chunk| > 2 {
      result := result + [Letter(b2 % 64)];
    } else {
      result := result + [PAD];
    }
  }

  lemma {:induction false} NextChunk(data: seq<byte>)
    requires data != []
    ensures var n := if |data| >= 3 then 3 else |data|;
      Base64(data) == Quad(data[..n]) + Base64(data[n..])
  {
    if |data| <= 3 {
      assert data[..|data|] == data;
    }
  }

  /** Number of values of an accumulator holding `bits` bits. */
  function Range(bits: nat): nat
    requires bits in {0, 2, 4, 6}
  {
    if bits == 0 then 1 else if bits == 2 then 4 else if bits == 4 then 16 else 64
  }

  /** Six more bits for the accumulator: its new content and the byte that falls out, if eight bits are there. */
  datatype Absorbed = Absorbed(buffer: nat, bits: nat, out: seq<byte>)

  function Absorb(buffer: nat, bits: nat, v: nat): (r: Absorbed)
    requires bits in {0, 2, 4, 6} && buffer < Range(bits) && v < 64
    ensures r.bits in {0, 2, 4, 6} && r.buffer < Range(r.bits)
  {
    var joined := 64 * buffer + v;
    if bits == 0 then Absorbed(joined, 6, [])
    else Absorbed(joined % Range(bits - 2), bits - 2, [joined / Range(bits - 2)])
  }

  /** What decoding adds to the output from here on, the accumulator holding `bits` bits with value `buffer`. */
  function Scan(s: seq<byte>, buffer: nat, bits: nat): Option<seq<byte>>
    requires bits in {0, 2, 4, 6} && buffer < Range(bits)
    decreases |s|
  {
    if s == [] || s[0] == PAD then Some([])
    else if s[0] in {32, 13, 10, 9} then Scan(s[1..], buffer, bits)
    else if Sextet(s[0]).None? then None
    else
      var next := Absorb(buffer, bits, Sextet(s[0]).value);
      Before(next.out, Scan(s[1..], next.buffer, next.bits))
  }

  function Base64Decoded(input: seq<byte>): Option<seq<byte>> {
    var t := Trim(input);
    if t == [] then Some([]) else Scan(t, 0, 0)
  }

  /** The decoder's loop: a 32-bit accumulator from which a byte is taken whenever eight bits are there. */
  method Base64Decode(input: seq<byte>) returns (r: Option<seq<byte>>)
    ensures r == Base64Decoded(input)
  {
    var trimmed := Trim(input);
    if trimmed == [] {
      return Some([]);
    }
    r := DecodeLetters(trimmed);
  }

  method DecodeLetters(trimmed: seq<byte>) returns (r: Option<seq<byte>>)
    ensures r == Scan(trimmed, 0, 0)
  {
    var buffer: u32 := 0;
    var bitsCollected: nat := 0;
    var output: seq<byte> := [];
    var i := 0;
    BeforeLaws([], [], Scan(trimmed, 0, 0));
    assert trimmed[0..] == trimmed;
    while i < |trimmed|
      invariant 0 <= i <= |trimmed|
      invariant bitsCollected in {0, 2, 4, 6} && buffer < Range(bitsCollected)
      invariant Scan(trimmed, 0, 0) == Before(output, Scan(trimmed[i..], buffer, bitsCollected))
    {
      var b := trimmed[i];
      assert trimmed[i..][0] == b && trimmed[i..][1..] == trimmed[i + 1..];
      i := i + 1;
      if b == PAD {
        assert output + [] == output;
        break;
      }
      if b in {32, 13, 10, 9} {
        continue;
      }
      var val := Sextet(b);
      if val.None? {
        return None;
      }
      var out: seq<byte>;
      buffer, bitsCollected, out := Collect(buffer, bitsCollected, val.value);
      BeforeLaws(output, out, Scan(trimmed[i..], buffer, bitsCollected));
      output := output + out;
    }
    assert output + [] == output;
    return Some(output);
  }

  lemma {:induction false} OctetFits(joined: nat, bits: nat)
    requires bits in {0, 2, 4} && joined < 64 * Range(bits + 2)
    ensures joined / Range(bits) % 256 == joined / Range(bits)
  {
    if bits == 0 {
      assert joined / 1 == joined;
    } else if bits == 2 {
      assert joined / 4 < 256;
    } else {
      assert joined / 16 < 256;
    }
  }

  /** The shifts and masks of one step. The accumulator never exceeds twelve bits, so nothing is lost. */
  method Collect(buffer: u32, bitsCollected: nat, val: nat) returns (buf: u32, bits: nat, out: seq<byte>)
    requires bitsCollected in {0, 2, 4, 6} && buffer < Range(bitsCollected) && val < 64
    ensures Absorbed(buf, bits, out) == Absorb(buffer, bitsCollected, val)
  {
    var joined := (buffer as int * 64) % 0x1_0000_0000 + val;
    assert joined == 64 * buffer as int + val < 64 * Range(bitsCollected);
    buf, bits, out := joined, bitsCollected + 6, [];
    if bits >= 8 {
      bits := bits - 8;
      OctetFits(joined, bits);
      out := [joined / Range(bits) % 256];
      buf := joined % Range(bits);
    }
  }

  lemma {:induction false} SextetOfLetter(v: nat)
    requires v < 64
    ensures Sextet(Letter(v)) == Some(v) && Printing(Letter(v)) && Letter(v) != PAD
    ensures Letter(v) !in {32, 13, 10, 9}
  {
  }

  /** One step of the scan on a letter. */
  lemma {:induction false} ScanLetter(v: nat, rest: seq<byte>, buffer: nat, bits: nat)
    requires v < 64 && bits in {0, 2, 4, 6} && buffer < Range(bits)
    ensures var next := Absorb(buffer, bits, v);
      Scan([Letter(v)] + rest, buffer, bits) == Before(next.out, Scan(rest, next.buffer, next.bits))
  {
    SextetOfLetter(v);
    assert ([Letter(v)] + rest)[1..] == rest;
  }

  /** The first two letters of a quad give its first byte and leave the high half of the second. */
  lemma {:induction false} ScanTwo(b0: byte, b1: byte, rest: seq<byte>)
    ensures Scan([Letter(b0 / 4)] + ([Letter(b0 % 4 * 16 + b1 / 16)] + rest), 0, 0)
      == Before([b0], Scan(rest, b1 / 16, 4))
  {
    var v1 := b0 % 4 * 16 + b1 / 16;
    ScanLetter(b0 / 4, [Letter(v1)] + rest, 0, 0);
    BeforeLaws([], [], Scan([Letter(v1)] + rest, b0 / 4, 6));
    ScanLetter(v1, rest, b0 / 4, 6);
    assert (64 * (b0 as int / 4) + v1) / 16 == b0 && (64 * (b0 as int / 4) + v1) % 16 == b1 / 16;
  }

  lemma {:induction false} ScanThird(b1: byte, b2: byte, rest: seq<byte>)
    ensures Scan([Letter(b1 % 16 * 4 + b2 / 64)] + rest, b1 / 16, 4) == Before([b1], Scan(rest, b2 / 64, 2))
  {
    var v2 := b1 % 16 * 4 + b2 / 64;
    ScanLetter(v2, rest, b1 / 16, 4);
    assert (64 * (b1 as int / 16) + v2) / 4 == b1 && (64 * (b1 as int / 16) + v2) % 4 == b2 / 64;
  }

  lemma {:induction false} ScanFourth(b2: byte, rest: seq<byte>)
    ensures Scan([Letter(b2 % 64)] + rest, b2 / 64, 2) == Before([b2], Scan(rest, 0, 0))
  {
    ScanLetter(b2 % 64, rest, b2 / 64, 2);
  }

  lemma {:induction false} ScanPad(rest: seq<byte>, buffer: nat, bits: nat)
    requires bits in {0, 2, 4, 6} && buffer < Range(bits)
    ensures Scan([PAD] + rest, buffer, bits) == Some([])
  {
  }

  /** A quad of three bytes leaves the accumulator empty; a padded one ends the scan with its bytes out. */
  lemma {:induction false} ScanQuad(chunk: seq<byte>, rest: seq<byte>)
    requires 1 <= |chunk| <= 3
    ensures |chunk| < 3 ==> Scan(Quad(chunk) + rest, 0, 0) == Some(chunk)
    ensures |chunk| == 3 ==> Scan(Quad(chunk) + rest, 0, 0) == Before(chunk, Scan(rest, 0, 0))
  {
    var q := Quad(chunk);
    var r3 := [q[3]] + rest;
    var r2 := [q[2]] + r3;
    var b0: byte := chunk[0];
    var b1: byte := if |chunk| > 1 then chunk[1] else 0;
    assert q + rest == [q[0]] + ([q[1]] + r2);
    ScanTwo(b0, b1, r2);
    if |chunk| == 1 {
      ScanPad(r3, b1 / 16, 4);
      assert chunk == [b0] + [];
    } else {
      ScanRest(chunk, b1 / 16, r3, rest);
      BeforeLaws([b0], chunk[1..], Scan(rest, 0, 0));
      assert chunk == [b0] + chunk[1..];
    }
  }

  /** The second half of a quad of two or three bytes. */
  lemma {:induction false} ScanRest(chunk: seq<byte>, high: nat, r3: seq<byte>, rest: seq<byte>)
    requires 2 <= |chunk| <= 3 && high == chunk[1] / 16 && r3 == [Quad(chunk)[3]] + rest
    ensures Scan([Quad(chunk)[2]] + r3, high, 4)
      == (if |chunk| == 2 then Some(chunk[1..]) else Before(chunk[1..], Scan(rest, 0, 0)))
  {
    var b1: byte := chunk[1];
    var b2: byte := if |chunk| > 2 then chunk[2] else 0;
    ScanThird(b1, b2, r3);
    if |chunk| == 2 {
      ScanPad(rest, b2 / 64, 2);
      assert chunk[1..] == [b1] + [];
    } else {
      ScanFourth(b2, rest);
      BeforeLaws([b1], [b2], Scan(rest, 0, 0));
      assert chunk[1..] == [b1] + [b2];
    }
  }

  lemma {:induction false} ScanOfBase64(data: seq<byte>)
    ensures Scan(Base64(data), 0, 0) == Some(data)
  {
    if data != [] {
      if |data| <= 3 {
        ScanQuad(data, []);
        assert Quad(data) + [] == Quad(data) && data + [] == data;
      } else {
        ScanOfBase64(data[3..]);
        ScanQuad(data[..3], Base64(data[3..]));
        assert data == data[..3] + data[3..];
      }
    }
  }

  /** Base64 text is made of the alphabet and the pad character only. */
  lemma {:induction false} Base64IsPrinting(data: seq<byte>)
    ensures forall i :: 0 <= i < |Base64(data)| ==>
      Printing(Base64(data)[i]) && (Sextet(Base64(data)[i]).Some? || Base64(data)[i] == PAD)
  {
    if |data| > 3 {
      Base64IsPrinting(data[3..]);
    }
  }

  lemma {:induction false} Base64RoundTrip(data: seq<byte>)
    ensures Base64Decoded(Base64(data)) == Some(data)
    ensures |Base64(data)| == (|data| + 2) / 3 * 4
  {
    assert Trim(Base64(data)) == Base64(data) by {
      Base64IsPrinting(data);
      TrimPrinting(Base64(data));
    }
    ScanOfBase64(data);
    Base64Length(data);
  }
}
