/** Machine integers, byte strings and big-endian fields shared by every layer of the relay. */
module Bytes {

  type byte = x: int | 0 <= x < 0x100
  type u16 = x: int | 0 <= x < 0x1_0000
  type u32 = x: int | 0 <= x < 0x1_0000_0000
  type u64 = x: int | 0 <= x < 0x1_0000_0000_0000_0000

  datatype Option<+T> = None | Some(value: T)
  datatype Result<+T, +E> = Ok(value: T) | Err(error: E)

  function Repeat(b: byte, count: nat): (s: seq<byte>)
    ensures |s| == count
    ensures forall i :: 0 <= i < count ==> s[i] == b
  {
    seq(count, _ => b)
  }

  /** The low `width` bytes of `n`, most significant first: writing `n as u16` is `Be(n, 2)`. */
  function Be(n: nat, width: nat): (s: seq<byte>)
    ensures |s| == width
  {
    if width == 0 then [] else Be(n / 256, width - 1) + [n % 256]
  }

  function FromBe(s: seq<byte>): nat {
    if s == [] then 0 else FromBe(s[..|s| - 1]) * 256 + s[|s| - 1]
  }

  ghost function Pow256(width: nat): nat {
    if width == 0 then 1 else 256 * Pow256(width - 1)
  }

  lemma {:induction false} Pow256Values()
    ensures Pow256(2) == 0x1_0000
    ensures Pow256(3) == 0x100_0000
    ensures Pow256(4) == 0x1_0000_0000
    ensures Pow256(8) == 0x1_0000_0000_0000_0000
  {
    assert Pow256(4) == 256 * Pow256(3) && Pow256(3) == 256 * Pow256(2) && Pow256(2) == 256 * Pow256(1);
    assert Pow256(8) == 256 * Pow256(7) && Pow256(7) == 256 * Pow256(6);
    assert Pow256(6) == 256 * Pow256(5) && Pow256(5) == 256 * Pow256(4);
  }

  /** Reading back a big-endian field gives the number written, when it fits. */
  lemma {:induction false} FromBeOfBe(n: nat, width: nat)
    requires n < Pow256(width)
    ensures FromBe(Be(n, width)) == n
  {
    if width > 0 {
      FromBeOfBe(n / 256, width - 1);
      assert Be(n, width)[..width - 1] == Be(n / 256, width - 1);
    }
  }

  /** Every byte string is the big-endian form of the number it denotes. */
  lemma {:induction false} BeOfFromBe(s: seq<byte>)
    ensures FromBe(s) < Pow256(|s|)
    ensures Be(FromBe(s), |s|) == s
  {
    if s != [] {
      var front := s[..|s| - 1];
      BeOfFromBe(front);
      assert FromBe(s) / 256 == FromBe(front) && FromBe(s) % 256 == s[|s| - 1];
      assert s == front + [s[|s| - 1]];
    }
  }

  lemma {:induction false} FromBe2(s: seq<byte>)
    requires |s| == 2
    ensures FromBe(s) == (s[0] as int) * 256 + s[1]
    ensures FromBe(s) < 0x1_0000
  {
    assert s[..1][..0] == [];
    assert FromBe(s[..1]) == s[0];
  }

  /** A length cast to `u16` is taken modulo 2^16. */
  lemma {:induction false} BeTruncates2(n: nat)
    ensures FromBe(Be(n, 2)) == n % 0x1_0000
    ensures Be(n, 2) == [n / 256 % 256, n % 256]
  {
    assert Be(n / 256, 1) == Be(n / 256 / 256, 0) + [n / 256 % 256];
    FromBe2(Be(n, 2));
  }

  /** A length written in three bytes is taken modulo 2^24. */
  lemma {:induction false} BeTruncates3(n: nat)
    ensures FromBe(Be(n, 3)) == n % 0x100_0000
  {
    BeTruncates2(n / 256);
    assert Be(n, 3)[..2] == Be(n / 256, 2);
  }

  function GetU16(s: seq<byte>): u16
    requires |s| == 2
  {
    FromBe2(s); FromBe(s)
  }

  function GetU32(s: seq<byte>): u32
    requires |s| == 4
  {
    BeOfFromBe(s); Pow256Values(); FromBe(s)
  }

  function GetU64(s: seq<byte>): u64
    requires |s| == 8
  {
    BeOfFromBe(s); Pow256Values(); FromBe(s)
  }

  lemma {:induction false} GetPut(a: u16, b: u32, c: u64)
    ensures GetU16(Be(a, 2)) == a && GetU32(Be(b, 4)) == b && GetU64(Be(c, 8)) == c
  {
    Pow256Values();
    FromBeOfBe(a, 2);
    FromBeOfBe(b, 4);
    FromBeOfBe(c, 8);
  }

  /** Taking a concatenation apart at its seam. */
  lemma {:induction false} Seam<T>(a: seq<T>, b: seq<T>)
    ensures (a + b)[..|a|] == a
    ensures (a + b)[|a|..] == b
  {
  }

  lemma {:induction false} SliceOfPrefix<T>(s: seq<T>, n: nat, i: nat, j: nat)
    requires i <= j <= n <= |s|
    ensures s[..n][i..j] == s[i..j]
  {
  }

  lemma {:induction false} Middle<T>(a: seq<T>, b: seq<T>, c: seq<T>)
    ensures (a + b + c)[|a|..|a| + |b|] == b
  {
  }
}
