/** UTF-8 well-formedness (section 4 of RFC 3629) and the lossy decoding that `String::from_utf8_lossy` performs. */
module Utf8 {
  import opened Bytes

  /** What the first bytes of a string form: a whole scalar, or a maximal ill-formed piece. */
  datatype Head = Scalar(width: nat) | Broken(width: nat)

  predicate Continues(s: seq<byte>, i: nat) {
    i < |s| && 0x80 <= s[i] <= 0xBF
  }

  predicate SecondFits(s: seq<byte>)
    requires s != []
  {
    && Continues(s, 1)
    && (s[0] == 0xE0 ==> s[1] >= 0xA0)
    && (s[0] == 0xED ==> s[1] <= 0x9F)
    && (s[0] == 0xF0 ==> s[1] >= 0x90)
    && (s[0] == 0xF4 ==> s[1] <= 0x8F)
  }

  function HeadOf(s: seq<byte>): (h: Head)
    requires s != []
    ensures 1 <= h.width <= |s| && h.width <= 4
  {
    var b := s[0];
    if b < 0x80 then Scalar(1)
    else if b < 0xC2 || b > 0xF4 || !SecondFits(s) then Broken(1)
    else if b < 0xE0 then Scalar(2)
    else if !Continues(s, 2) then Broken(2)
    else if b < 0xF0 then Scalar(3)
    else if !Continues(s, 3) then Broken(3)
    else Scalar(4)
  }

  predicate Valid(s: seq<byte>) {
    s == [] || (HeadOf(s).Scalar? && Valid(s[HeadOf(s).width..]))
  }

  type Utf8String = s: seq<byte> | Valid(s) witness []

  const REPLACEMENT: seq<byte> := [0xEF, 0xBF, 0xBD]

  function Lossy(s: seq<byte>): (t: seq<byte>) {
    if s == [] then []
    else
      var n := HeadOf(s).width;
      (if HeadOf(s).Scalar? then s[..n] else REPLACEMENT) + Lossy(s[n..])
  }

  predicate Ascii(s: seq<byte>) {
    forall i :: 0 <= i < |s| ==> s[i] < 0x80
  }

  lemma {:induction false} AsciiIsValid(s: seq<byte>)
    requires Ascii(s)
    ensures Valid(s)
  {
    if s != [] {
      AsciiIsValid(s[1..]);
    }
  }

  /** A scalar is recognised by its own bytes, whatever follows. */
  lemma {:induction false} HeadOfConcat(a: seq<byte>, b: seq<byte>)
    requires a != [] && HeadOf(a).Scalar?
    ensures HeadOf(a + b) == HeadOf(a)
  {
    var w := HeadOf(a).width;
    assert forall i: nat :: i < w ==> (a + b)[i] == a[i];
  }

  lemma {:induction false} ValidConcat(a: seq<byte>, b: seq<byte>)
    requires Valid(a) && Valid(b)
    ensures Valid(a + b)
  {
    if a == [] {
      assert a + b == b;
    } else {
      var n := HeadOf(a).width;
      HeadOfConcat(a, b);
      ValidConcat(a[n..], b);
      assert (a + b)[n..] == a[n..] + b;
    }
  }

  /** Lossy decoding leaves well-formed text alone. */
  lemma {:induction false} LossyOfValid(s: seq<byte>)
    requires Valid(s)
    ensures Lossy(s) == s
  {
    if s != [] {
      var n := HeadOf(s).width;
      LossyOfValid(s[n..]);
      assert s == s[..n] + s[n..];
    }
  }

  /** Lossy decoding always yields well-formed text. */
  lemma {:induction false} LossyIsValid(s: seq<byte>)
    ensures Valid(Lossy(s))
  {
    if s != [] {
      var n := HeadOf(s).width;
      LossyIsValid(s[n..]);
      var head := if HeadOf(s).Scalar? then s[..n] else REPLACEMENT;
      assert HeadOf(head) == Scalar(|head|);
      assert head[|head|..] == [];
      ValidConcat(head, Lossy(s[n..]));
    }
  }

  // ---------- the encoding of scalar values ----------

  /** The Unicode scalar values: all code points but the surrogates. */
  predicate IsScalar(cp: nat) {
    cp < 0xD800 || 0xE000 <= cp < 0x11_0000
  }

  /** The bytes of a scalar value (section 3 of RFC 3629). */
  function Encode(cp: nat): (e: seq<byte>)
    requires IsScalar(cp)
    ensures 1 <= |e| <= 4
  {
    if cp < 0x80 then [cp]
    else if cp < 0x800 then [0xC0 + cp / 64, 0x80 + cp % 64]
    else if cp < 0x1_0000 then [0xE0 + cp / 4096, 0x80 + cp / 64 % 64, 0x80 + cp % 64]
    else [0xF0 + cp / 262144, 0x80 + cp / 4096 % 64, 0x80 + cp / 64 % 64, 0x80 + cp % 64]
  }

  /** `s` begins with the scalar value `cp`. */
  ghost predicate StartsWith(s: seq<byte>, cp: nat) {
    IsScalar(cp) && Encode(cp) <= s
  }

  lemma {:induction false} EncodedHead(s: seq<byte>, cp: nat)
    requires StartsWith(s, cp)
    ensures s != [] && HeadOf(s) == Scalar(|Encode(cp)|)
  {
    var e := Encode(cp);
    assert forall i :: 0 <= i < |e| ==> s[i] == e[i];
    if cp >= 0x1_0000 {
      LeadOfFour(cp);
    } else if cp >= 0x800 {
      LeadOfThree(cp);
    }
  }

  lemma {:induction false} LeadOfThree(cp: nat)
    requires IsScalar(cp) && 0x800 <= cp < 0x1_0000
    ensures 0 <= cp / 4096 <= 15
    ensures cp / 4096 == 0 ==> cp / 64 % 64 >= 0x20
    ensures cp / 4096 == 13 ==> cp / 64 % 64 <= 0x1F
  {
  }

  lemma {:induction false} LeadOfFour(cp: nat)
    requires IsScalar(cp) && cp >= 0x1_0000
    ensures 0 <= cp / 262144 <= 4
    ensures cp / 262144 == 0 ==> cp / 4096 % 64 >= 0x10
    ensures cp / 262144 == 4 ==> cp / 4096 % 64 <= 0x0F
  {
  }

  /** The scalar value that the first bytes encode. */
  lemma {:induction false} HeadDecodes(s: seq<byte>) returns (cp: nat)
    requires s != [] && HeadOf(s).Scalar?
    ensures IsScalar(cp) && Encode(cp) == s[..HeadOf(s).width]
  {
    var w := HeadOf(s).width;
    if w == 1 {
      cp := s[0];
    } else if w == 2 {
      cp := TwoDecode(s[0], s[1]);
    } else if w == 3 {
      cp := ThreeDecode(s[0], s[1], s[2]);
    } else {
      cp := FourDecode(s[0], s[1], s[2], s[3]);
    }
  }

  lemma {:induction false} TwoDecode(a: byte, b: byte) returns (cp: nat)
    requires 0xC2 <= a < 0xE0 && 0x80 <= b <= 0xBF
    ensures IsScalar(cp) && Encode(cp) == [a, b]
  {
    cp := (a as int - 0xC0) * 64 + (b - 0x80);
    assert cp / 64 == a - 0xC0 && cp % 64 == b - 0x80;
  }

  lemma {:induction false} ThreeDecode(a: byte, b: byte, c: byte) returns (cp: nat)
    requires 0xE0 <= a < 0xF0 && 0x80 <= b <= 0xBF && 0x80 <= c <= 0xBF
    requires (a == 0xE0 ==> b >= 0xA0) && (a == 0xED ==> b <= 0x9F)
    ensures IsScalar(cp) && Encode(cp) == [a, b, c]
  {
    var x, y, z := a as int - 0xE0, b as int - 0x80, c as int - 0x80;
    var high := x * 64 + y;
    cp := high * 64 + z;
    assert cp / 64 == high && cp % 64 == z && high / 64 == x && high % 64 == y;
    assert cp / 4096 == x;
  }

  lemma {:induction false} FourDecode(a: byte, b: byte, c: byte, d: byte) returns (cp: nat)
    requires 0xF0 <= a <= 0xF4 && 0x80 <= b <= 0xBF && 0x80 <= c <= 0xBF && 0x80 <= d <= 0xBF
    requires (a == 0xF0 ==> b >= 0x90) && (a == 0xF4 ==> b <= 0x8F)
    ensures IsScalar(cp) && Encode(cp) == [a, b, c, d]
  {
    var w, x, y, z := a as int - 0xF0, b as int - 0x80, c as int - 0x80, d as int - 0x80;
    var top := w * 64 + x;
    var high := top * 64 + y;
    cp := high * 64 + z;
    assert cp / 64 == high && cp % 64 == z && high / 64 == top && high % 64 == y && top / 64 == w && top % 64 == x;
    assert cp / 4096 == top && cp / 262144 == w;
  }

  ghost predicate AllScalars(cps: seq<nat>) {
    forall i :: 0 <= i < |cps| ==> IsScalar(cps[i])
  }

  ghost function EncodeAll(cps: seq<nat>): seq<byte>
    requires AllScalars(cps)
  {
    if cps == [] then [] else Encode(cps[0]) + EncodeAll(cps[1..])
  }

  /** Text is well-formed if and only if it encodes some sequence of scalar values. */
  lemma {:induction false} ValidIff(s: seq<byte>)
    ensures Valid(s) <==> exists cps :: AllScalars(cps) && EncodeAll(cps) == s
  {
    if Valid(s) {
      var cps := Decode(s);
    }
    if cps :| AllScalars(cps) && EncodeAll(cps) == s {
      EncodedIsValid(cps);
    }
  }

  lemma {:induction false} Decode(s: seq<byte>) returns (cps: seq<nat>)
    requires Valid(s)
    ensures AllScalars(cps) && EncodeAll(cps) == s
    decreases |s|
  {
    if s == [] {
      cps := [];
    } else {
      var w := HeadOf(s).width;
      var cp := HeadDecodes(s);
      var rest := Decode(s[w..]);
      cps := [cp] + rest;
      assert cps[1..] == rest && s == s[..w] + s[w..];
    }
  }

  lemma {:induction false} EncodedIsValid(cps: seq<nat>)
    requires AllScalars(cps)
    ensures Valid(EncodeAll(cps))
    decreases cps
  {
    if cps != [] {
      var s, e := EncodeAll(cps), Encode(cps[0]);
      EncodedIsValid(cps[1..]);
      EncodedHead(s, cps[0]);
      assert s[|e|..] == EncodeAll(cps[1..]);
    }
  }

  /** Some scalar value's bytes begin with these. */
  ghost predicate Begins(piece: seq<byte>) {
    exists cp :: IsScalar(cp) && piece <= Encode(cp)
  }

  lemma {:induction false} TwoBegin(a: byte, b: byte)
    requires a >= 0x80
    ensures Begins([a, b]) ==> 0xC2 <= a <= 0xF4 && SecondFits([a, b])
    ensures 0xE0 <= a <= 0xF4 && SecondFits([a, b]) ==> Begins([a, b])
  {
    if cp :| IsScalar(cp) && [a, b] <= Encode(cp) {
      EncodedHead(Encode(cp), cp);
      assert Encode(cp)[0] == a && Encode(cp)[1] == b;
    }
    if 0xE0 <= a < 0xF0 && SecondFits([a, b]) {
      var cp := ThreeDecode(a, b, 0x80);
      assert [a, b] <= Encode(cp);
    } else if 0xF0 <= a <= 0xF4 && SecondFits([a, b]) {
      var cp := FourDecode(a, b, 0x80, 0x80);
      assert [a, b] <= Encode(cp);
    }
  }

  lemma {:induction false} ThreeBegin(a: byte, b: byte, c: byte)
    requires 0xE0 <= a <= 0xF4 && SecondFits([a, b])
    ensures Begins([a, b, c]) ==> 0x80 <= c <= 0xBF
    ensures 0xF0 <= a && 0x80 <= c <= 0xBF ==> Begins([a, b, c])
  {
    if cp :| IsScalar(cp) && [a, b, c] <= Encode(cp) {
      assert Encode(cp)[2] == c;
    }
    if 0xF0 <= a && 0x80 <= c <= 0xBF {
      var cp := FourDecode(a, b, c, 0x80);
      assert [a, b, c] <= Encode(cp);
    }
  }

  lemma {:induction false} FourBegin(a: byte, b: byte, c: byte, d: byte)
    ensures Begins([a, b, c, d]) ==> 0x80 <= d <= 0xBF
  {
    if cp :| IsScalar(cp) && [a, b, c, d] <= Encode(cp) {
      assert Encode(cp)[3] == d;
    }
  }

  /** Bytes that do not start a scalar value are replaced as a whole as far as they could have: the longest piece that
      some scalar value begins with, or else one byte, becomes one replacement character. */
  lemma {:induction false} BrokenIsReplaced(s: seq<byte>)
    requires s != [] && HeadOf(s).Broken?
    ensures var w := HeadOf(s).width;
      && (forall cp :: !StartsWith(s, cp))
      && (w == 1 || Begins(s[..w])) && (w == |s| || !Begins(s[..w + 1]))
      && Lossy(s) == [0xEF, 0xBF, 0xBD] + Lossy(s[w..])
  {
    var w := HeadOf(s).width;
    forall cp ensures !StartsWith(s, cp) {
      if StartsWith(s, cp) {
        EncodedHead(s, cp);
      }
    }
    if |s| >= 2 {
      assert s[..2] == [s[0], s[1]];
      TwoBegin(s[0], s[1]);
    }
    if |s| >= 3 && w >= 2 {
      assert s[..3] == [s[0], s[1], s[2]];
      ThreeBegin(s[0], s[1], s[2]);
    }
    if |s| >= 4 && w == 3 {
      assert s[..4] == [s[0], s[1], s[2], s[3]];
      FourBegin(s[0], s[1], s[2], s[3]);
    }
  }
}
