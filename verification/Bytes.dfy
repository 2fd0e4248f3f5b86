/** Bytes and big-endian numbers of any width: the wire format every other module builds on. */
module Bytes {
  type byte = x: int | 0 <= x < 256
  type u16 = x: int | 0 <= x < 0x1_0000
  type u32 = x: int | 0 <= x < 0x1_0000_0000

  function Pow256(w: nat): (p: nat)
    ensures p > 0
  {
    if w == 0 then 1 else 256 * Pow256(w - 1)
  }

  /** A buffer resized to `n`: what fits is kept, what is new is zero. */
  function Resized(s: seq<byte>, n: nat): (r: seq<byte>)
    ensures |r| == n
  {
    if n <= |s| then s[..n] else s + seq(n - |s|, _ => 0)
  }

  lemma ResizedAt(s: seq<byte>, n: nat, i: nat)
    requires i < n
    ensures Resized(s, n)[i] == if i < |s| then s[i] else 0
  {
  }

  /** The C conversion of a floating point number to an integer: towards zero. */
  function Truncate(x: real): int {
    if x >= 0.0 then x.Floor else -((-x).Floor)
  }

  lemma TruncateMeans(x: real)
    ensures x >= 0.0 ==> 0.0 <= Truncate(x) as real <= x < Truncate(x) as real + 1.0
    ensures x < 0.0 ==> Truncate(x) as real - 1.0 < x <= Truncate(x) as real <= 0.0
  {
  }

  /** The low `w` bytes of `n`, most significant first. */
  function ToBE(n: nat, w: nat): (s: seq<byte>)
    ensures |s| == w
  {
    if w == 0 then [] else ToBE(n / 256, w - 1) + [n % 256]
  }

  function FromBE(s: seq<byte>): (n: nat)
    ensures n < Pow256(|s|)
  {
    if s == [] then 0 else 256 * FromBE(s[..|s| - 1]) + s[|s| - 1]
  }

  lemma FourBytes(s: seq<byte>)
    requires |s| == 4
    ensures FromBE(s) == 0x100_0000 * (s[0] as nat) + 0x1_0000 * (s[1] as nat) + 256 * (s[2] as nat) + s[3]
  {
    assert s[..3][..2] == s[..2] && s[..2][..1] == s[..1];
    assert FromBE(s[..1]) == s[0];
    assert FromBE(s[..2]) == 256 * (s[0] as nat) + s[1];
    assert FromBE(s[..3]) == 0x1_0000 * (s[0] as nat) + 256 * (s[1] as nat) + s[2];
  }

  lemma {:induction false} DecodeEncode(n: nat, w: nat)
    requires n < Pow256(w)
    ensures FromBE(ToBE(n, w)) == n
  {
    if w > 0 {
      DecodeEncode(n / 256, w - 1);
      assert ToBE(n, w)[..w - 1] == ToBE(n / 256, w - 1);
    }
  }

  lemma {:induction false} EncodeDecode(s: seq<byte>)
    ensures ToBE(FromBE(s), |s|) == s
  {
    if s != [] {
      EncodeDecode(s[..|s| - 1]);
    }
  }

  /** A number below 2^24 leaves the first of its four bytes zero. */
  lemma SmallWord(n: nat)
    requires n < 0x100_0000
    ensures ToBE(n, 4)[0] == 0
  {
    assert ToBE(n, 4)[..3] == ToBE(n / 256, 3);
    assert ToBE(n / 256, 3)[..2] == ToBE(n / 256 / 256, 2);
    assert ToBE(n / 256 / 256, 2)[..1] == ToBE(n / 256 / 256 / 256, 1);
  }

  lemma Widths()
    ensures Pow256(2) == 0x1_0000
    ensures Pow256(4) == 0x1_0000_0000
  {
    assert Pow256(1) == 256;
    assert Pow256(3) == 0x100_0000;
  }
}
