/** What trimming, hexadecimal and Base64 mean, independently of how they are computed. */
module TextLaws {
  import opened Bytes
  import opened Text
  import Utf8

  // ---------- white space ----------

  /** The characters with the Unicode White_Space property. */
  predicate White(cp: nat) {
    || 0x09 <= cp <= 0x0D || cp == 0x20 || cp == 0x85 || cp == 0xA0 || cp == 0x1680 || 0x2000 <= cp <= 0x200A
    || cp == 0x2028 || cp == 0x2029 || cp == 0x202F || cp == 0x205F || cp == 0x3000
  }

  /** A white space character as its bytes. */
  ghost predicate WhiteBytes(w: seq<byte>) {
    exists cp :: White(cp) && Utf8.IsScalar(cp) && Utf8.Encode(cp) == w
  }

  lemma {:induction false} WhiteOne(a: byte)
    ensures Blank(a) <==> WhiteBytes([a])
  {
    if Blank(a) {
      assert Utf8.Encode(a) == [a];
    }
  }

  lemma {:induction false} WhiteTwo(a: byte, b: byte)
    ensures Space2(a, b) <==> WhiteBytes([a, b])
  {
    if Space2(a, b) {
      assert Utf8.Encode(b) == [a, b];
    }
    if cp :| White(cp) && Utf8.IsScalar(cp) && Utf8.Encode(cp) == [a, b] {
      assert cp == 0x85 || cp == 0xA0;
      assert Utf8.Encode(0x85) == [0xC2, 0x85] && Utf8.Encode(0xA0) == [0xC2, 0xA0];
    }
  }

  lemma {:induction false} ThreeBytes(cp: nat)
    requires 0x800 <= cp < 0xD800
    ensures Utf8.Encode(cp) == [0xE0 + cp / 4096, 0x80 + cp / 64 % 64, 0x80 + cp % 64]
  {
  }

  lemma {:induction false} WhiteThree(a: byte, b: byte, c: byte)
    ensures Space3(a, b, c) <==> WhiteBytes([a, b, c])
  {
    if Space3(a, b, c) {
      var cp := (a as int - 0xE0) * 4096 + (b as int - 0x80) * 64 + (c - 0x80);
      ThreeBytes(cp);
      assert Utf8.Encode(cp) == [a, b, c] && White(cp);
    }
    if cp :| White(cp) && Utf8.IsScalar(cp) && Utf8.Encode(cp) == [a, b, c] {
      ThreeBytes(cp);
      WhiteThreeValue(cp);
    }
  }

  lemma {:induction false} WhiteThreeValue(cp: nat)
    requires White(cp) && cp >= 0x800
    ensures Space3(0xE0 + cp / 4096, 0x80 + cp / 64 % 64, 0x80 + cp % 64)
  {
  }

  lemma {:induction false} WhiteIsShort(w: seq<byte>)
    requires WhiteBytes(w)
    ensures 1 <= |w| <= 3
  {
  }

  /** White space at the front is measured as it is, and found if it is there. */
  lemma {:induction false} SpaceAheadIs(s: seq<byte>)
    requires SpaceAhead(s) > 0
    ensures WhiteBytes(s[..SpaceAhead(s)])
  {
    var n := SpaceAhead(s);
    if n == 1 {
      WhiteOne(s[0]);
      assert s[..1] == [s[0]];
    } else if n == 2 {
      WhiteTwo(s[0], s[1]);
      assert s[..2] == [s[0], s[1]];
    } else {
      WhiteThree(s[0], s[1], s[2]);
      assert s[..3] == [s[0], s[1], s[2]];
    }
  }

  lemma {:induction false} NoSpaceAhead(s: seq<byte>, n: nat)
    requires SpaceAhead(s) == 0 && n <= |s|
    ensures !WhiteBytes(s[..n])
  {
    if n == 1 {
      assert s[..1] == [s[0]];
      WhiteOne(s[0]);
    } else if n == 2 {
      assert s[..2] == [s[0], s[1]];
      WhiteTwo(s[0], s[1]);
    } else if n == 3 {
      assert s[..3] == [s[0], s[1], s[2]];
      WhiteThree(s[0], s[1], s[2]);
    } else if WhiteBytes(s[..n]) {
      WhiteIsShort(s[..n]);
    }
  }

  lemma {:induction false} SpaceBehindIs(s: seq<byte>)
    requires SpaceBehind(s) > 0
    ensures WhiteBytes(s[|s| - SpaceBehind(s)..])
  {
    var n, k := SpaceBehind(s), |s|;
    if n == 1 {
      WhiteOne(s[k - 1]);
      assert s[k - 1..] == [s[k - 1]];
    } else if n == 2 {
      WhiteTwo(s[k - 2], s[k - 1]);
      assert s[k - 2..] == [s[k - 2], s[k - 1]];
    } else {
      WhiteThree(s[k - 3], s[k - 2], s[k - 1]);
      assert s[k - 3..] == [s[k - 3], s[k - 2], s[k - 1]];
    }
  }

  lemma {:induction false} NoSpaceBehind(s: seq<byte>, i: nat)
    requires SpaceBehind(s) == 0 && i <= |s|
    ensures !WhiteBytes(s[i..])
  {
    var k := |s|;
    if i == k - 1 {
      assert s[k - 1..] == [s[k - 1]];
      WhiteOne(s[k - 1]);
    } else if i == k - 2 {
      assert s[k - 2..] == [s[k - 2], s[k - 1]];
      WhiteTwo(s[k - 2], s[k - 1]);
    } else if i == k - 3 {
      assert s[k - 3..] == [s[k - 3], s[k - 2], s[k - 1]];
      WhiteThree(s[k - 3], s[k - 2], s[k - 1]);
    } else if WhiteBytes(s[i..]) {
      WhiteIsShort(s[i..]);
    }
  }

  /** One white space character after the other. */
  ghost predicate AllWhite(pieces: seq<seq<byte>>) {
    forall i :: 0 <= i < |pieces| ==> WhiteBytes(pieces[i])
  }

  ghost function Join(pieces: seq<seq<byte>>): seq<byte> {
    if pieces == [] then [] else pieces[0] + Join(pieces[1..])
  }

  lemma {:induction false} JoinLast(pieces: seq<seq<byte>>, p: seq<byte>)
    ensures Join(pieces + [p]) == Join(pieces) + p
    decreases pieces
  {
    if pieces == [] {
      assert [] + [p] == [p] && [p][1..] == [];
      assert Join([p]) == p + Join([]) == p;
    } else {
      JoinLast(pieces[1..], p);
      assert (pieces + [p])[1..] == pieces[1..] + [p];
    }
  }

  lemma {:induction false} JoinFirst(p: seq<byte>, pieces: seq<seq<byte>>)
    ensures Join([p] + pieces) == p + Join(pieces)
  {
    assert ([p] + pieces)[1..] == pieces;
  }

  lemma {:induction false} Splits(s: seq<byte>, n: nat, rest: seq<byte>, t: seq<byte>)
    requires n <= |s| && s[n..] == rest + t
    ensures s == s[..n] + rest + t
  {
    assert s == s[..n] + s[n..];
  }

  lemma {:induction false} TrimStartIs(s: seq<byte>) returns (front: seq<seq<byte>>)
    ensures AllWhite(front) && s == Join(front) + TrimStart(s) && SpaceAhead(TrimStart(s)) == 0
    decreases |s|
  {
    var n := SpaceAhead(s);
    if n == 0 {
      front := [];
      assert Join([]) + s == s;
    } else {
      var rest := TrimStartIs(s[n..]);
      front := [s[..n]] + rest;
      SpaceAheadIs(s);
      MoreWhite(rest, s[..n]);
      JoinFirst(s[..n], rest);
      Splits(s, n, Join(rest), TrimStart(s[n..]));
    }
  }

  lemma {:induction false} TrimEndIs(s: seq<byte>) returns (back: seq<seq<byte>>)
    ensures AllWhite(back) && s == TrimEnd(s) + Join(back) && SpaceBehind(TrimEnd(s)) == 0
    decreases |s|
  {
    var n := SpaceBehind(s);
    if n == 0 {
      back := [];
      assert s + Join([]) == s;
    } else {
      var k := |s| - n;
      var rest := TrimEndIs(s[..k]);
      back := rest + [s[k..]];
      SpaceBehindIs(s);
      MoreWhite(rest, s[k..]);
      JoinLast(rest, s[k..]);
      Joins(s, k, TrimEnd(s[..k]), Join(rest));
      assert TrimEnd(s) == TrimEnd(s[..k]);
    }
  }

  lemma {:induction false} MoreWhite(pieces: seq<seq<byte>>, p: seq<byte>)
    requires AllWhite(pieces) && WhiteBytes(p)
    ensures AllWhite(pieces + [p]) && AllWhite([p] + pieces)
  {
  }

  lemma {:induction false} Joins(s: seq<byte>, k: nat, t: seq<byte>, rest: seq<byte>)
    requires k <= |s| && s[..k] == t + rest
    ensures s == t + (rest + s[k..])
  {
    assert s == s[..k] + s[k..];
  }

  /** Nothing at the front, nothing at the end of the text is white space. */
  ghost predicate Bare(t: seq<byte>) {
    && (forall i :: 0 <= i <= |t| ==> !WhiteBytes(t[..i]))
    && (forall i :: 0 <= i <= |t| ==> !WhiteBytes(t[i..]))
  }

  /** Trimming takes white space characters away at both ends, nothing else, and as many as there are. */
  lemma {:induction false} TrimIs(s: seq<byte>) returns (front: seq<seq<byte>>, back: seq<seq<byte>>)
    ensures AllWhite(front) && AllWhite(back) && s == Join(front) + Trim(s) + Join(back) && Bare(Trim(s))
  {
    front := TrimStartIs(s);
    var t := TrimStart(s);
    back := TrimEndIs(t);
    Regroup(Join(front), Trim(s), Join(back));
    TrimmedIsBare(t, Trim(s), Join(back));
  }

  lemma {:induction false} TrimmedIsBare(t: seq<byte>, u: seq<byte>, v: seq<byte>)
    requires t == u + v && SpaceAhead(t) == 0 && SpaceBehind(u) == 0
    ensures Bare(u)
  {
    forall i | 0 <= i <= |u| ensures !WhiteBytes(u[..i]) && !WhiteBytes(u[i..]) {
      NoSpaceAhead(t, i);
      assert t[..i] == u[..i];
      NoSpaceBehind(u, i);
    }
  }

  // ---------- hexadecimal ----------

  const DIGITS: string := "0123456789abcdef"
  const CAPITAL_DIGITS: string := "0123456789ABCDEF"

  lemma {:induction false} DigitTable()
    ensures |DIGITS| == 16 && |CAPITAL_DIGITS| == 16
    ensures forall k :: 0 <= k < 16 ==> DIGITS[k] as int == if k < 10 then 48 + k else 87 + k
    ensures forall k :: 0 <= k < 16 ==> CAPITAL_DIGITS[k] as int == if k < 10 then 48 + k else 55 + k
  {
  }

  /** The hexadecimal form has, for each byte, the small digits of its two halves. */
  lemma {:induction false} HexIs(s: seq<byte>, i: nat)
    requires i < |s|
    ensures |DIGITS| == 16
    ensures Hex(s)[2 * i] == DIGITS[s[i] / 16] as int && Hex(s)[2 * i + 1] == DIGITS[s[i] % 16] as int
    decreases s
  {
    DigitTable();
    if i > 0 {
      HexIs(s[1..], i - 1);
    }
  }

  /** A character is a digit of value `v` exactly if it is that small or capital digit. */
  ghost predicate IsDigit(b: byte, v: nat) {
    v < |DIGITS| && v < |CAPITAL_DIGITS| && (b == DIGITS[v] as int || b == CAPITAL_DIGITS[v] as int)
  }

  lemma {:induction false} DigitIff(b: byte, v: nat)
    ensures DigitValue(b) == Some(v) <==> IsDigit(b, v)
  {
    DigitTable();
  }

  /** Two characters read as one byte: two digits, or a plus sign and a digit. */
  ghost predicate IsPair(a: byte, b: byte, v: nat) {
    || (exists high, low :: DigitValue(a) == Some(high) && DigitValue(b) == Some(low) && v == 16 * high + low)
    || (a == '+' as int && DigitValue(b) == Some(v))
  }

  lemma {:induction false} PairIff(a: byte, b: byte, v: nat)
    ensures HexPair(a, b) == Some(v) <==> IsPair(a, b, v)
  {
    if HexPair(a, b) == Some(v) && a != 43 {
      assert DigitValue(a) == Some(DigitValue(a).value) && DigitValue(b) == Some(DigitValue(b).value);
    }
  }

  /** Each pair of characters reads as the byte at its place. */
  ghost predicate Pairs(s: seq<byte>, r: seq<byte>) {
    |s| == 2 * |r| && forall i :: 0 <= i < |r| ==> HexPair(s[2 * i], s[2 * i + 1]) == Some(r[i] as nat)
  }

  lemma {:induction false} PairsTail(s: seq<byte>, r: seq<byte>)
    requires |s| >= 2 && r != []
    ensures Pairs(s, r) <==> HexPair(s[0], s[1]) == Some(r[0] as nat) && Pairs(s[2..], r[1..])
  {
    var rest, tail := s[2..], r[1..];
    if Pairs(s, r) {
      assert HexPair(s[2 * 0], s[2 * 0 + 1]) == Some(r[0] as nat);
      forall i | 0 <= i < |tail| ensures HexPair(rest[2 * i], rest[2 * i + 1]) == Some(tail[i] as nat) {
        assert HexPair(s[2 * (i + 1)], s[2 * (i + 1) + 1]) == Some(r[i + 1] as nat);
      }
    }
    if HexPair(s[0], s[1]) == Some(r[0] as nat) && Pairs(rest, tail) {
      forall i | 0 <= i < |r| ensures HexPair(s[2 * i], s[2 * i + 1]) == Some(r[i] as nat) {
        if i > 0 {
          assert HexPair(rest[2 * (i - 1)], rest[2 * (i - 1) + 1]) == Some(tail[i - 1] as nat);
        }
      }
    }
  }

  lemma {:induction false} UnhexStep(s: seq<byte>, r: seq<byte>)
    requires |s| % 2 == 0 && s != []
    ensures Unhex(s) == Some(r) <==> r != [] && HexPair(s[0], s[1]) == Some(r[0] as nat) && Unhex(s[2..]) == Some(r[1..])
  {
    if r != [] {
      assert r == [r[0]] + r[1..];
    }
    if Unhex(s) == Some(r) {
      var first, rest := HexPair(s[0], s[1]).value, Unhex(s[2..]).value;
      assert ([first] + rest)[1..] == rest;
    }
  }

  /** Text of even length is read as `r` exactly if each pair of characters reads as the byte at its place. */
  lemma {:induction false} UnhexIff(s: seq<byte>, r: seq<byte>)
    requires |s| % 2 == 0
    ensures Unhex(s) == Some(r) <==> Pairs(s, r)
    decreases s
  {
    if s != [] {
      UnhexStep(s, r);
      if r != [] {
        PairsTail(s, r);
        UnhexIff(s[2..], r[1..]);
      }
    }
  }

  /** Exactly which text decodes, after trimming, and to what. */
  lemma {:induction false} HexDecodedIff(text: seq<byte>, r: seq<byte>)
    ensures HexDecoded(text) == Some(r) <==> Pairs(Trim(text), r)
  {
    var s := Trim(text);
    if |s| % 2 == 0 {
      UnhexIff(s, r);
    }
  }

  // ---------- Base64 ----------

  /** The alphabet of section 4 of RFC 4648. */
  const ALPHABET: string :=
    "ABCDEFGHIJKLMNOPQRSTUVWXYZ" + "abcdefghijklmnopqrstuvwxyz" + "0123456789" + "+/"

  lemma {:induction false} CapitalLetters()
    ensures var s := "ABCDEFGHIJKLMNOPQRSTUVWXYZ"; |s| == 26 && forall k :: 0 <= k < 26 ==> s[k] as int == 65 + k
  {
  }

  lemma {:induction false} SmallLetters()
    ensures var s := "abcdefghijklmnopqrstuvwxyz"; |s| == 26 && forall k :: 0 <= k < 26 ==> s[k] as int == 97 + k
  {
  }

  lemma {:induction false} DecimalDigits()
    ensures var s := "0123456789"; |s| == 10 && forall k :: 0 <= k < 10 ==> s[k] as int == 48 + k
  {
  }

  lemma {:induction false} FourStrings(a: string, b: string, c: string, d: string, v: nat)
    requires v < |a| + |b| + |c| + |d|
    ensures (a + b + c + d)[v]
      == if v < |a| then a[v] else if v < |a| + |b| then b[v - |a|]
         else if v < |a| + |b| + |c| then c[v - |a| - |b|] else d[v - |a| - |b| - |c|]
  {
  }

  /** The letter for each value is the one at its place in the alphabet. */
  lemma {:induction false} LetterIs(v: nat)
    requires v < 64
    ensures |ALPHABET| == 64 && Letter(v) == ALPHABET[v] as int
  {
    CapitalLetters();
    SmallLetters();
    DecimalDigits();
    FourStrings("ABCDEFGHIJKLMNOPQRSTUVWXYZ", "abcdefghijklmnopqrstuvwxyz", "0123456789", "+/", v);
  }

  /** The character stands for the value `v`. */
  ghost predicate StandsFor(b: byte, v: nat) {
    v < |ALPHABET| && b == ALPHABET[v] as int
  }

  lemma {:induction false} SextetIff(b: byte, v: nat)
    ensures Sextet(b) == Some(v) <==> StandsFor(b, v)
  {
    if Sextet(b) == Some(v) {
      LetterIs(v);
    }
    if StandsFor(b, v) {
      LetterIs(0);
      LetterIs(v);
      SextetOfLetter(v);
    }
  }

  /** Four characters for up to three bytes `b0`, `b1`, `b2`, of which `n` are there, zero bits and pad characters standing
      in for the others. */
  ghost predicate IsQuad(q: seq<byte>, n: nat, b0: byte, b1: byte, b2: byte)
    requires |q| == 4
  {
    && q[0] == Letter(b0 / 4) && q[1] == Letter(b0 % 4 * 16 + b1 / 16)
    && (if n > 1 then q[2] == Letter(b1 % 16 * 4 + b2 / 64) else q[2] == '=' as int && b1 == 0)
    && (if n > 2 then q[3] == Letter(b2 % 64) else q[3] == '=' as int && b2 == 0)
  }

  function ByteAt(data: seq<byte>, i: nat): byte {
    if i < |data| then data[i] else 0
  }

  lemma {:induction false} QuadIs(chunk: seq<byte>)
    requires 1 <= |chunk| <= 3
    ensures IsQuad(Quad(chunk), |chunk|, chunk[0], ByteAt(chunk, 1), ByteAt(chunk, 2))
  {
  }

  /** Each group of three bytes, the last one possibly shorter, is encoded by the four characters at its place. */
  lemma {:induction false} Base64Is(data: seq<byte>, q: nat)
    requires 3 * q < |data|
    ensures |Base64(data)| == (|data| + 2) / 3 * 4
    ensures IsQuad(Base64(data)[4 * q..4 * q + 4], |data| - 3 * q, data[3 * q], ByteAt(data, 3 * q + 1), ByteAt(data, 3 * q + 2))
    decreases q
  {
    Base64Length(data);
    if q == 0 {
      FirstQuad(data);
    } else {
      Base64Is(data[3..], q - 1);
      LaterBytes(data, q);
      LaterGroup(data, q);
    }
  }

  lemma {:induction false} LaterGroup(data: seq<byte>, q: nat)
    requires q >= 1 && 3 * q < |data|
    ensures 4 * q + 4 <= |Base64(data)| && 4 * q <= |Base64(data[3..])|
    ensures Base64(data)[4 * q..4 * q + 4] == Base64(data[3..])[4 * (q - 1)..4 * (q - 1) + 4]
  {
    NextChunk(data);
    Base64Length(data[3..]);
    LaterQuad(Quad(data[..3]), Base64(data[3..]), q);
  }

  lemma {:induction false} FirstQuad(data: seq<byte>)
    requires data != []
    ensures |Base64(data)| >= 4
    ensures IsQuad(Base64(data)[0..4], |data|, data[0], ByteAt(data, 1), ByteAt(data, 2))
  {
    var chunk := data[..if |data| >= 3 then 3 else |data|];
    NextChunk(data);
    QuadIs(chunk);
    assert Base64(data)[0..4] == Quad(chunk);
  }

  lemma {:induction false} LaterQuad(first: seq<byte>, rest: seq<byte>, q: nat)
    requires |first| == 4 && q >= 1 && 4 * q <= |rest|
    ensures (first + rest)[4 * q..4 * q + 4] == rest[4 * (q - 1)..4 * (q - 1) + 4]
  {
  }

  lemma {:induction false} LaterBytes(data: seq<byte>, q: nat)
    requires q >= 1 && 3 * q < |data|
    ensures var rest, k := data[3..], 3 * (q - 1);
      rest[k] == data[3 * q] && ByteAt(rest, k + 1) == ByteAt(data, 3 * q + 1) && ByteAt(rest, k + 2) == ByteAt(data, 3 * q + 2)
  {
  }

  predicate Skipped(b: byte) {
    b == ' ' as int || b == '\r' as int || b == '\n' as int || b == '\t' as int
  }

  /** Up to the first pad character, without the blanks. */
  ghost function Kept(s: seq<byte>): seq<byte> {
    if s == [] || s[0] == '=' as int then []
    else (if Skipped(s[0]) then [] else [s[0]]) + Kept(s[1..])
  }

  /** Place `i` is before the first pad character and holds neither a blank nor a letter. */
  ghost predicate Foreign(s: seq<byte>, i: nat) {
    && i < |s| && (forall j :: 0 <= j <= i ==> s[j] != '=' as int) && !Skipped(s[i])
    && forall v: nat :: !StandsFor(s[i], v)
  }

  lemma {:induction false} ForeignTail(s: seq<byte>, i: nat)
    requires s != [] && s[0] != '=' as int
    ensures i < |s[1..]| ==> (Foreign(s, i + 1) <==> Foreign(s[1..], i))
  {
    if i < |s[1..]| {
      assert s[1..][i] == s[i + 1];
      assert forall j :: 0 <= j <= i ==> s[1..][j] == s[j + 1];
      if Foreign(s[1..], i) {
        forall j | 0 <= j <= i + 1 ensures s[j] != '=' as int {
          if j > 0 {
            assert s[1..][j - 1] != '=' as int;
          }
        }
      }
    }
  }

  lemma {:induction false} ForeignIff(s: seq<byte>)
    requires s != [] && s[0] != '=' as int
    ensures (exists i :: Foreign(s, i)) <==> Foreign(s, 0) || exists i :: Foreign(s[1..], i)
  {
    if i: nat :| Foreign(s, i) {
      if i > 0 {
        ForeignTail(s, i - 1);
      }
    }
    if i: nat :| Foreign(s[1..], i) {
      ForeignTail(s, i);
    }
  }

  lemma {:induction false} ForeignFirst(s: seq<byte>)
    requires s != []
    ensures Foreign(s, 0) <==> s[0] != PAD && s[0] !in {32, 13, 10, 9} && Sextet(s[0]).None?
  {
    if Sextet(s[0]).Some? {
      SextetIff(s[0], Sextet(s[0]).value);
    }
    if v: nat :| StandsFor(s[0], v) {
      SextetIff(s[0], v);
    }
  }

  /** Scanning fails exactly at a foreign character before the first pad character. */
  lemma {:induction false} ScanFailsIff(s: seq<byte>, buffer: nat, bits: nat)
    requires bits in {0, 2, 4, 6} && buffer < Range(bits)
    ensures Scan(s, buffer, bits).None? <==> exists i :: Foreign(s, i)
    decreases |s|
  {
    if s != [] && s[0] != PAD {
      ForeignFirst(s);
      ForeignIff(s);
      if s[0] in {32, 13, 10, 9} {
        ScanFailsIff(s[1..], buffer, bits);
      } else if Sextet(s[0]).Some? {
        var next := Absorb(buffer, bits, Sextet(s[0]).value);
        ScanFailsIff(s[1..], next.buffer, next.bits);
      }
    }
  }

  /** Decoding fails exactly if some character of the trimmed text, before the first pad character, is neither a blank nor
      in the alphabet. */
  lemma {:induction false} DecodeFailsIff(input: seq<byte>)
    ensures Base64Decoded(input).None? <==> exists i :: Foreign(Trim(input), i)
  {
    ScanFailsIff(Trim(input), 0, 0);
  }

  // ---------- what decoding gives ----------

  ghost predicate AllLetters(letters: seq<byte>) {
    forall i :: 0 <= i < |letters| ==> Sextet(letters[i]).Some?
  }

  ghost function Values(letters: seq<byte>): (vs: seq<nat>)
    requires AllLetters(letters)
    ensures |vs| == |letters| && forall i :: 0 <= i < |vs| ==> vs[i] < 64 && Sextet(letters[i]) == Some(vs[i])
  {
    seq(|letters|, i requires 0 <= i < |letters| => Sextet(letters[i]).value)
  }

  ghost predicate Small(vs: seq<nat>) {
    forall i :: 0 <= i < |vs| ==> vs[i] < 64
  }

  /** The bytes that fall out of the accumulator. */
  ghost function Emit(vs: seq<nat>, buffer: nat, bits: nat): seq<byte>
    requires Small(vs) && bits in {0, 2, 4, 6} && buffer < Range(bits)
    decreases vs
  {
    if vs == [] then []
    else
      var next := Absorb(buffer, bits, vs[0]);
      next.out + Emit(vs[1..], next.buffer, next.bits)
  }

  lemma {:induction false} KeptFirst(s: seq<byte>)
    requires s != [] && s[0] != PAD
    ensures s[0] in {32, 13, 10, 9} ==> Kept(s) == Kept(s[1..])
    ensures s[0] !in {32, 13, 10, 9} ==> Kept(s) == [s[0]] + Kept(s[1..])
  {
    assert [] + Kept(s[1..]) == Kept(s[1..]);
  }

  lemma {:induction false} ScanEmits(s: seq<byte>, buffer: nat, bits: nat)
    requires bits in {0, 2, 4, 6} && buffer < Range(bits) && Scan(s, buffer, bits).Some?
    ensures AllLetters(Kept(s)) && Scan(s, buffer, bits) == Some(Emit(Values(Kept(s)), buffer, bits))
    decreases |s|
  {
    if s != [] && s[0] != PAD {
      KeptFirst(s);
      if s[0] in {32, 13, 10, 9} {
        ScanEmits(s[1..], buffer, bits);
      } else {
        var next := Absorb(buffer, bits, Sextet(s[0]).value);
        ScanEmits(s[1..], next.buffer, next.bits);
        ValuesFirst(s[0], Kept(s[1..]));
      }
    }
  }

  lemma {:induction false} ValuesFirst(b: byte, letters: seq<byte>)
    requires Sextet(b).Some? && AllLetters(letters)
    ensures AllLetters([b] + letters)
    ensures Values([b] + letters)[0] == Sextet(b).value && Values([b] + letters)[1..] == Values(letters)
  {
    var all := [b] + letters;
    assert forall i :: 0 <= i < |letters| ==> all[i + 1] == letters[i];
  }

  lemma {:induction false} EmitShort(vs: seq<nat>)
    requires Small(vs) && |vs| < 4
    ensures |Emit(vs, 0, 0)| == 3 * |vs| / 4
    ensures |vs| >= 2 ==> Emit(vs, 0, 0)[0] == vs[0] * 4 + vs[1] / 16
    ensures |vs| >= 3 ==> Emit(vs, 0, 0)[1] == vs[1] % 16 * 16 + vs[2] / 4
  {
    if |vs| >= 1 {
      var r1 := vs[1..];
      assert Emit(vs, 0, 0) == [] + Emit(r1, vs[0], 6);
      if |vs| >= 2 {
        EmitSecond(vs[0], r1);
      }
    }
  }

  /** The second letter completes the first byte. */
  lemma {:induction false} EmitSecond(v0: nat, r1: seq<nat>)
    requires v0 < 64 && Small(r1) && r1 != []
    ensures Emit(r1, v0, 6) == [v0 * 4 + r1[0] / 16] + Emit(r1[1..], r1[0] % 16, 4)
    ensures |r1| >= 2 ==>
      Emit(r1[1..], r1[0] % 16, 4) == [r1[0] % 16 * 16 + r1[1] / 4] + Emit(r1[2..], r1[1] % 4, 2)
    ensures |r1| >= 3 ==> Emit(r1[2..], r1[1] % 4, 2) == [r1[1] % 4 * 64 + r1[2]] + Emit(r1[3..], 0, 0)
  {
    AbsorbIs(v0, 6, r1[0]);
    if |r1| >= 2 {
      assert r1[1..][0] == r1[1] && r1[1..][1..] == r1[2..];
      AbsorbIs(r1[0] % 16, 4, r1[1]);
    }
    if |r1| >= 3 {
      assert r1[2..][0] == r1[2] && r1[2..][1..] == r1[3..];
      AbsorbIs(r1[1] % 4, 2, r1[2]);
    }
  }

  lemma {:induction false} AbsorbIs(buffer: nat, bits: nat, v: nat)
    requires v < 64 && bits in {2, 4, 6} && buffer < Range(bits)
    ensures bits == 6 ==> Absorb(buffer, 6, v) == Absorbed(v % 16, 4, [buffer * 4 + v / 16])
    ensures bits == 4 ==> Absorb(buffer, 4, v) == Absorbed(v % 4, 2, [buffer * 16 + v / 4])
    ensures bits == 2 ==> Absorb(buffer, 2, v) == Absorbed(0, 0, [buffer * 64 + v])
  {
    JoinedBits(buffer, v);
  }

  lemma {:induction false} JoinedBits(b: nat, v: nat)
    ensures (64 * b + v) / 16 == 4 * b + v / 16 && (64 * b + v) % 16 == v % 16
    ensures (64 * b + v) / 4 == 16 * b + v / 4 && (64 * b + v) % 4 == v % 4
    ensures (64 * b + v) / 1 == 64 * b + v && (64 * b + v) % 1 == 0
  {
  }

  lemma {:induction false} EmitFour(vs: seq<nat>)
    requires Small(vs) && |vs| >= 4
    ensures Emit(vs, 0, 0)
      == [vs[0] * 4 + vs[1] / 16, vs[1] % 16 * 16 + vs[2] / 4, vs[2] % 4 * 64 + vs[3]] + Emit(vs[4..], 0, 0)
  {
    var r1 := vs[1..];
    assert Emit(vs, 0, 0) == [] + Emit(r1, vs[0], 6);
    EmitSecond(vs[0], r1);
    assert r1[0] == vs[1] && r1[1] == vs[2] && r1[2] == vs[3] && r1[3..] == vs[4..];
  }

  /** Byte number `k` of each group of three, from the four values at its place. */
  lemma {:induction false} EmitIs(vs: seq<nat>, k: nat)
    requires Small(vs)
    ensures |Emit(vs, 0, 0)| == 3 * |vs| / 4
    ensures var out := Emit(vs, 0, 0);
      && (4 * k + 1 < |vs| ==> 3 * k < |out| && out[3 * k] == vs[4 * k] * 4 + vs[4 * k + 1] / 16)
      && (4 * k + 2 < |vs| ==> 3 * k + 1 < |out| && out[3 * k + 1] == vs[4 * k + 1] % 16 * 16 + vs[4 * k + 2] / 4)
      && (4 * k + 3 < |vs| ==> 3 * k + 2 < |out| && out[3 * k + 2] == vs[4 * k + 2] % 4 * 64 + vs[4 * k + 3])
    decreases |vs|
  {
    if |vs| < 4 {
      EmitShort(vs);
    } else {
      EmitFour(vs);
      EmitIs(vs[4..], if k > 0 then k - 1 else 0);
    }
  }

  /** Decoding joins the six-bit values of the letters before the first pad character, blanks left out, and cuts them into
      bytes; bits that do not fill a byte are dropped. */
  lemma {:induction false} DecodedIs(input: seq<byte>, out: seq<byte>, k: nat)
    requires Base64Decoded(input) == Some(out)
    ensures AllLetters(Kept(Trim(input)))
    ensures var vs := Values(Kept(Trim(input)));
      && |out| == 6 * |vs| / 8
      && (3 * k < |out| ==> 4 * k + 1 < |vs| && out[3 * k] == vs[4 * k] * 4 + vs[4 * k + 1] / 16)
      && (3 * k + 1 < |out| ==> 4 * k + 2 < |vs| && out[3 * k + 1] == vs[4 * k + 1] % 16 * 16 + vs[4 * k + 2] / 4)
      && (3 * k + 2 < |out| ==> 4 * k + 3 < |vs| && out[3 * k + 2] == vs[4 * k + 2] % 4 * 64 + vs[4 * k + 3])
  {
    ScanEmits(Trim(input), 0, 0);
    EmitIs(Values(Kept(Trim(input))), k);
  }

  // ---------- blanks do not matter ----------

  lemma {:induction false} ScanSkips(a: seq<byte>, b: byte, c: seq<byte>, buffer: nat, bits: nat)
    requires bits in {0, 2, 4, 6} && buffer < Range(bits) && Skipped(b)
    ensures Scan(a + [b] + c, buffer, bits) == Scan(a + c, buffer, bits)
    decreases a
  {
    if a == [] {
      assert a + [b] + c == [b] + c && a + c == c && ([b] + c)[1..] == c;
    } else {
      var s, t := a + [b] + c, a + c;
      assert s[1..] == a[1..] + [b] + c && t[1..] == a[1..] + c && s[0] == a[0] == t[0];
      if a[0] != PAD {
        if a[0] in {32, 13, 10, 9} {
          ScanSkips(a[1..], b, c, buffer, bits);
        } else if Sextet(a[0]).Some? {
          var next := Absorb(buffer, bits, Sextet(a[0]).value);
          ScanSkips(a[1..], b, c, next.buffer, next.bits);
        }
      }
    }
  }

  /** White space at the front of text is seen by its own bytes alone. */
  lemma {:induction false} FirstScalar(cp: nat, x: seq<byte>)
    requires Utf8.IsScalar(cp)
    ensures SpaceAhead(Utf8.Encode(cp) + x) == if White(cp) then |Utf8.Encode(cp)| else 0
  {
    var e := Utf8.Encode(cp);
    var s := e + x;
    Utf8.EncodedHead(e, cp);
    if White(cp) {
      assert WhiteBytes(e);
      FirstWhite(e, x);
    } else if SpaceAhead(s) > 0 {
      SpaceAheadIs(s);
      var w :| White(w) && Utf8.IsScalar(w) && Utf8.Encode(w) == s[..SpaceAhead(s)];
      Utf8.EncodedHead(s, w);
      Utf8.EncodedHead(s, cp);
      SameScalar(w, cp, s);
    }
  }

  lemma {:induction false} FirstWhite(e: seq<byte>, x: seq<byte>)
    requires WhiteBytes(e)
    ensures SpaceAhead(e + x) == |e|
  {
    WhiteIsShort(e);
    if |e| == 1 {
      assert e == [e[0]];
      WhiteOne(e[0]);
    } else if |e| == 2 {
      assert e == [e[0], e[1]];
      WhiteTwo(e[0], e[1]);
      assert Space2(e[0], e[1]);
    } else {
      assert e == [e[0], e[1], e[2]];
      WhiteThree(e[0], e[1], e[2]);
      assert Space3(e[0], e[1], e[2]);
    }
  }

  lemma {:induction false} SameScalar(v: nat, w: nat, s: seq<byte>)
    requires Utf8.StartsWith(s, v) && Utf8.StartsWith(s, w) && |Utf8.Encode(v)| == |Utf8.Encode(w)|
    ensures v == w
  {
    var n := |Utf8.Encode(v)|;
    assert Utf8.Encode(v) == s[..n] == Utf8.Encode(w);
    EncodeInjective(v, w);
  }

  lemma {:induction false} EncodeInjective(v: nat, w: nat)
    requires Utf8.IsScalar(v) && Utf8.IsScalar(w) && Utf8.Encode(v) == Utf8.Encode(w)
    ensures v == w
  {
    var e, f := Utf8.Encode(v), Utf8.Encode(w);
    if |e| == 1 {
      assert e[0] == f[0];
    } else if |e| == 2 {
      assert e[0] == f[0] && e[1] == f[1];
    } else if |e| == 3 {
      assert e[0] == f[0] && e[1] == f[1] && e[2] == f[2];
      Digits3(v);
      Digits3(w);
    } else {
      assert e[0] == f[0] && e[1] == f[1] && e[2] == f[2] && e[3] == f[3];
      Digits4(v);
      Digits4(w);
    }
  }

  lemma {:induction false} Nested(v: nat)
    ensures v / 4096 == v / 64 / 64 && v / 262144 == v / 4096 / 64
  {
  }

  lemma {:induction false} Digits3(v: nat)
    ensures v == v / 4096 * 4096 + v / 64 % 64 * 64 + v % 64
  {
    Nested(v);
  }

  lemma {:induction false} Digits4(v: nat)
    ensures v == v / 262144 * 262144 + v / 4096 % 64 * 4096 + v / 64 % 64 * 64 + v % 64
  {
    Digits3(v);
    TopDigits(v, v / 4096, v / 262144);
  }

  lemma {:induction false} TopDigits(v: nat, high: nat, top: nat)
    requires high == v / 4096 && top == v / 262144
    ensures high == top * 64 + high % 64
  {
    Nested(v);
  }

  /** The same at the end. */
  lemma {:induction false} LastScalar(x: seq<byte>, cp: nat)
    requires Utf8.IsScalar(cp)
    ensures SpaceBehind(x + Utf8.Encode(cp)) == if White(cp) then |Utf8.Encode(cp)| else 0
  {
    var e := Utf8.Encode(cp);
    Utf8.EncodedHead(e, cp);
    if |e| == 1 {
      WhiteOne(e[0]);
      WhiteIs(cp, e);
    } else if |e| == 2 {
      assert e == [e[0], e[1]];
      WhiteTwo(e[0], e[1]);
      WhiteIs(cp, e);
    } else if |e| == 3 {
      assert e == [e[0], e[1], e[2]];
      WhiteThree(e[0], e[1], e[2]);
      WhiteIs(cp, e);
    }
  }

  lemma {:induction false} WhiteIs(cp: nat, e: seq<byte>)
    requires Utf8.IsScalar(cp) && Utf8.Encode(cp) == e
    ensures White(cp) <==> WhiteBytes(e)
  {
    if w :| White(w) && Utf8.IsScalar(w) && Utf8.Encode(w) == e {
      EncodeInjective(w, cp);
    }
  }

  /** All characters from place `i` up to place `j` are white space. */
  ghost predicate WhiteFrom(cps: seq<nat>, i: nat, j: nat) {
    i <= j <= |cps| && forall k :: i <= k < j ==> White(cps[k])
  }

  /** Trimming the front of text that `x` follows stops at the first character that is not white space, or goes on in
      `x` if there is none. */
  lemma {:induction false} TrimStartText(cps: seq<nat>, x: seq<byte>) returns (k: nat)
    requires Utf8.AllScalars(cps)
    ensures WhiteFrom(cps, 0, k) && (k < |cps| ==> !White(cps[k]))
    ensures TrimStart(Utf8.EncodeAll(cps) + x)
      == if k < |cps| then Utf8.EncodeAll(cps[k..]) + x else TrimStart(x)
    decreases cps
  {
    if cps == [] {
      k := 0;
      assert Utf8.EncodeAll([]) + x == x;
    } else {
      var e, rest := Utf8.Encode(cps[0]), Utf8.EncodeAll(cps[1..]);
      var s := Utf8.EncodeAll(cps) + x;
      Regroup(e, rest, x);
      FirstScalar(cps[0], rest + x);
      if White(cps[0]) {
        var j := TrimStartText(cps[1..], x);
        k := j + 1;
        assert s[|e|..] == rest + x;
        assert cps[1..][j..] == cps[k..];
        assert forall i :: 1 <= i < k ==> cps[i] == cps[1..][i - 1];
      } else {
        k := 0;
        assert cps[0..] == cps;
      }
    }
  }

  lemma {:induction false} EncodeLast(cps: seq<nat>)
    requires Utf8.AllScalars(cps) && cps != []
    ensures var n := |cps| - 1; Utf8.EncodeAll(cps) == Utf8.EncodeAll(cps[..n]) + Utf8.Encode(cps[n])
    decreases cps
  {
    var n := |cps| - 1;
    if n == 0 {
      assert cps[1..] == [] && cps[..0] == [];
    } else {
      EncodeLast(cps[1..]);
      assert cps[1..][..n - 1] == cps[..n][1..] && cps[1..][n - 1] == cps[n];
      Regroup(Utf8.Encode(cps[0]), Utf8.EncodeAll(cps[..n][1..]), Utf8.Encode(cps[n]));
    }
  }

  lemma {:induction false} TrimEndStep(s: seq<byte>, e: seq<byte>, white: bool)
    requires e != [] && SpaceBehind(s + e) == if white then |e| else 0
    ensures TrimEnd(s + e) == if white then TrimEnd(s) else s + e
  {
    assert (s + e)[..|s + e| - |e|] == s;
  }

  lemma {:induction false} TrimEndText(x: seq<byte>, cps: seq<nat>) returns (k: nat)
    requires Utf8.AllScalars(cps)
    ensures WhiteFrom(cps, k, |cps|) && (k > 0 ==> !White(cps[k - 1]))
    ensures TrimEnd(x + Utf8.EncodeAll(cps)) == if k > 0 then x + Utf8.EncodeAll(cps[..k]) else TrimEnd(x)
    decreases |cps|
  {
    if cps == [] {
      k := 0;
      assert x + Utf8.EncodeAll([]) == x;
    } else {
      var n := |cps| - 1;
      var init, e := Utf8.EncodeAll(cps[..n]), Utf8.Encode(cps[n]);
      EncodeLast(cps);
      Regroup(x, init, e);
      LastScalar(x + init, cps[n]);
      TrimEndStep(x + init, e, White(cps[n]));
      if White(cps[n]) {
        k := TrimEndText(x, cps[..n]);
        WhiteLast(cps, k);
      } else {
        k := |cps|;
        assert cps[..k] == cps;
      }
    }
  }

  lemma {:induction false} WhiteLast(cps: seq<nat>, k: nat)
    requires cps != [] && White(cps[|cps| - 1]) && WhiteFrom(cps[..|cps| - 1], k, |cps| - 1)
    ensures WhiteFrom(cps, k, |cps|) && cps[..|cps| - 1][..k] == cps[..k]
  {
    assert forall i :: k <= i < |cps| - 1 ==> cps[i] == cps[..|cps| - 1][i];
  }

  lemma {:induction false} DecodedIsScan(input: seq<byte>)
    ensures Base64Decoded(input) == Scan(Trim(input), 0, 0)
  {
  }

  /** A blank after text that is not all white space stays where it is; after one that is, it goes. */
  lemma {:induction false} BlankAfter(front: seq<nat>, b: byte, c: seq<byte>) returns (kept: seq<byte>, inside: bool)
    requires Utf8.AllScalars(front) && Skipped(b)
    ensures var a := Utf8.EncodeAll(front);
      if inside then TrimStart(a + ([b] + c)) == kept + ([b] + c) && TrimStart(a + c) == kept + c
      else TrimStart(a + ([b] + c)) == TrimStart(a + c)
  {
    var i := TrimStartText(front, [b] + c);
    var j := TrimStartText(front, c);
    SamePlace(front, i, j);
    TrimOne(b, c);
    inside := i < |front|;
    kept := if inside then Utf8.EncodeAll(front[i..]) else [];
  }

  /** A blank anywhere between two characters of the text changes nothing, and so do any number of them. */
  lemma {:induction false} BlankIsSkipped(a: seq<byte>, b: byte, c: seq<byte>)
    requires Utf8.Valid(a) && Utf8.Valid(c) && Skipped(b)
    ensures Base64Decoded(a + [b] + c) == Base64Decoded(a + c)
  {
    var front := Utf8.Decode(a);
    var back := Utf8.Decode(c);
    var kept, inside := BlankAfter(front, b, c);
    if inside {
      BlankInside(kept, b, back);
    }
    Regroup(a, [b], c);
    DecodedIsScan(a + [b] + c);
    DecodedIsScan(a + c);
  }

  lemma {:induction false} SamePlace(cps: seq<nat>, i: nat, j: nat)
    requires WhiteFrom(cps, 0, i) && (i < |cps| ==> !White(cps[i]))
    requires WhiteFrom(cps, 0, j) && (j < |cps| ==> !White(cps[j]))
    ensures i == j
  {
  }

  lemma {:induction false} SameEnd(cps: seq<nat>, i: nat, j: nat)
    requires WhiteFrom(cps, i, |cps|) && (i > 0 ==> !White(cps[i - 1]))
    requires WhiteFrom(cps, j, |cps|) && (j > 0 ==> !White(cps[j - 1]))
    ensures i == j
  {
  }

  /** A blank before text that is not all white space stays where it is; before one that is, it goes. */
  lemma {:induction false} BlankBefore(a: seq<byte>, b: byte, back: seq<nat>) returns (kept: seq<byte>, inside: bool)
    requires Utf8.AllScalars(back) && Skipped(b)
    ensures var c := Utf8.EncodeAll(back);
      if inside then TrimEnd(a + [b] + c) == a + [b] + kept && TrimEnd(a + c) == a + kept
      else TrimEnd(a + [b] + c) == TrimEnd(a + c)
  {
    var i := TrimEndText(a + [b], back);
    var j := TrimEndText(a, back);
    SameEnd(back, i, j);
    TrimOne(b, a);
    inside := i > 0;
    kept := if inside then Utf8.EncodeAll(back[..i]) else [];
  }

  lemma {:induction false} BlankInside(a: seq<byte>, b: byte, back: seq<nat>)
    requires Utf8.AllScalars(back) && Skipped(b)
    ensures var c := Utf8.EncodeAll(back);
      Scan(TrimEnd(a + ([b] + c)), 0, 0) == Scan(TrimEnd(a + c), 0, 0)
  {
    Regroup(a, [b], Utf8.EncodeAll(back));
    var kept, inside := BlankBefore(a, b, back);
    if inside {
      ScanSkips(a, b, kept, 0, 0);
    }
  }
}
