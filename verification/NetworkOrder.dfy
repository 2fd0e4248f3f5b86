/** The byte-order helpers, for hosts of either order, and two's complement. */
module NetworkOrder {
  import opened Bytes

  datatype Host = LittleEndian | BigEndian

  function Reversed(s: seq<byte>): (r: seq<byte>)
    ensures |r| == |s|
  {
    seq(|s|, i requires 0 <= i < |s| => s[|s| - 1 - i])
  }

  /** The number that memory contents mean to the host, and back. */
  function Load(host: Host, mem: seq<byte>): nat {
    FromBE(if host.LittleEndian? then Reversed(mem) else mem)
  }

  function Store(host: Host, x: nat, w: nat): (mem: seq<byte>)
    ensures |mem| == w
  {
    if host.LittleEndian? then Reversed(ToBE(x, w)) else ToBE(x, w)
  }

  /** The C library's conversion of 16 and 32 bit numbers. */
  function HtonShort(host: Host, x: u16): u16 {
    Widths();
    if host.LittleEndian? then FromBE(Reversed(ToBE(x, 2))) else x
  }

  function HtonLong(host: Host, x: u32): u32 {
    Widths();
    if host.LittleEndian? then FromBE(Reversed(ToBE(x, 4))) else x
  }

  predicate Width(w: nat) {
    w == 1 || w == 2 || w == 4 || w == 8
  }

  /** The swap for numbers of `w` bytes, as bit patterns. */
  function NSwap(host: Host, w: nat, x: nat): nat
    requires Width(w) && x < Pow256(w)
  {
    Widths();
    if w == 1 then x
    else if w == 2 then HtonShort(host, x)
    else if w == 4 then HtonLong(host, x)
    else
      EightBytes();
      var h, l := x / 0x1_0000_0000, x % 0x1_0000_0000;
      HtonLong(host, l) * 0x1_0000_0000 + HtonLong(host, h)
  }

  lemma EightBytes()
    ensures Pow256(8) == 0x1_0000_0000 * 0x1_0000_0000
  {
    Widths();
    assert Pow256(6) == 0x1_0000 * Pow256(4);
  }

  /** Reads a number out of a message. */
  function Bytes2Val(host: Host, bytes: seq<byte>): nat
    requires Width(|bytes|)
  {
    NSwap(host, |bytes|, Load(host, bytes))
  }

  lemma ReversedTwice(s: seq<byte>)
    ensures Reversed(Reversed(s)) == s
  {
  }

  lemma LoadSwapped(b: seq<byte>)
    ensures FromBE(Reversed(ToBE(FromBE(Reversed(b)), |b|))) == FromBE(b)
  {
    EncodeDecode(Reversed(b));
    ReversedTwice(b);
  }

  lemma LastByte(s: seq<byte>, z: byte)
    ensures FromBE(s + [z]) == 256 * FromBE(s) + z && Pow256(|s| + 1) == 256 * Pow256(|s|)
  {
    assert (s + [z])[..|s|] == s;
  }

  lemma {:induction false} FromBEConcat(a: seq<byte>, b: seq<byte>)
    ensures FromBE(a + b) == FromBE(a) * Pow256(|b|) + FromBE(b)
  {
    if b == [] {
      assert a + b == a;
    } else {
      var c, z := b[..|b| - 1], b[|b| - 1];
      FromBEConcat(a, c);
      LastByte(a + c, z);
      LastByte(c, z);
      assert a + b == (a + c) + [z] && b == c + [z];
      Shifted(FromBE(a), Pow256(|c|), FromBE(c), z);
    }
  }

  lemma Shifted(x: nat, p: nat, y: nat, z: nat)
    ensures 256 * (x * p + y) + z == x * (256 * p) + (256 * y + z)
  {
  }

  /** A number in two halves of four bytes. */
  lemma Halves(a: seq<byte>, b: seq<byte>)
    requires |a| == |b| == 4
    ensures FromBE(a + b) / 0x1_0000_0000 == FromBE(a) && FromBE(a + b) % 0x1_0000_0000 == FromBE(b)
  {
    Widths();
    FromBEConcat(a, b);
  }

  lemma EightLittle(x: seq<byte>, y: seq<byte>)
    requires |x| == |y| == 4
    ensures Bytes2Val(LittleEndian, x + y) == FromBE(x + y)
  {
    Widths();
    var rx, ry := Reversed(x), Reversed(y);
    assert Reversed(x + y) == ry + rx;
    Halves(ry, rx);
    SwappedLong(x);
    SwappedLong(y);
    FromBEConcat(x, y);
    EightBytes();
    assert Bytes2Val(LittleEndian, x + y) == NSwap(LittleEndian, 8, FromBE(ry + rx));
  }

  lemma SwappedLong(x: seq<byte>)
    requires |x| == 4
    ensures FromBE(Reversed(x)) < 0x1_0000_0000 && HtonLong(LittleEndian, FromBE(Reversed(x))) == FromBE(x)
  {
    Widths();
    LoadSwapped(x);
  }

  lemma EightBig(x: seq<byte>, y: seq<byte>)
    requires |x| == |y| == 4
    ensures Bytes2Val(BigEndian, x + y) == FromBE(y + x)
  {
    Widths();
    Halves(x, y);
    FromBEConcat(y, x);
  }

  /** Numbers are read big-endian on every host, except that a big-endian one exchanges the halves of
      an eight byte number. */
  lemma Bytes2ValMeaning(host: Host, b: seq<byte>)
    requires Width(|b|)
    ensures |b| < 8 || host.LittleEndian? ==> Bytes2Val(host, b) == FromBE(b)
    ensures |b| == 8 && host.BigEndian? ==> Bytes2Val(host, b) == FromBE(b[4..] + b[..4])
  {
    if |b| == 8 {
      assert b == b[..4] + b[4..];
      EightLittle(b[..4], b[4..]);
      EightBig(b[..4], b[4..]);
    } else if |b| > 1 {
      LoadSwapped(b);
    } else {
      assert Reversed(b) == b;
    }
  }

  /** So eight bytes are read right exactly when the host is little-endian or the halves are alike. */
  lemma EightBytesRight(host: Host, b: seq<byte>)
    requires |b| == 8
    ensures Bytes2Val(host, b) == FromBE(b) <==> host.LittleEndian? || b[..4] == b[4..]
  {
    Bytes2ValMeaning(host, b);
    var x, y := b[..4], b[4..];
    assert b == x + y;
    if FromBE(y + x) == FromBE(x + y) {
      Halves(x, y);
      Halves(y, x);
      EncodeDecode(x);
      EncodeDecode(y);
    }
  }

  /** The two halves of a number of eight bytes, most significant first. */
  lemma TwoHalves(x: nat)
    requires x < Pow256(8)
    ensures var b := ToBE(x, 8); FromBE(b[..4]) == x / 0x1_0000_0000 && FromBE(b[4..]) == x % 0x1_0000_0000
  {
    var b := ToBE(x, 8);
    DecodeEncode(x, 8);
    assert b == b[..4] + b[4..];
    Halves(b[..4], b[4..]);
  }

  lemma SwapsBack(b: seq<byte>)
    requires |b| == 4
    ensures FromBE(b) < 0x1_0000_0000 && HtonLong(LittleEndian, FromBE(b)) == FromBE(Reversed(b))
  {
    Widths();
    EncodeDecode(b);
  }

  lemma JoinedHalves(a: seq<byte>, b: seq<byte>)
    requires |a| == |b| == 4
    ensures FromBE(a) * 0x1_0000_0000 + FromBE(b) == FromBE(a + b)
  {
    Widths();
    FromBEConcat(a, b);
  }

  lemma HtonEightLittle(x: nat)
    requires x < Pow256(8)
    ensures NSwap(LittleEndian, 8, x) == FromBE(Reversed(ToBE(x, 8)))
  {
    var b := ToBE(x, 8);
    TwoHalves(x);
    SwapsBack(b[..4]);
    SwapsBack(b[4..]);
    JoinedHalves(Reversed(b[4..]), Reversed(b[..4]));
    assert Reversed(b) == Reversed(b[4..]) + Reversed(b[..4]);
  }

  lemma HtonEightBig(x: nat)
    requires x < Pow256(8)
    ensures NSwap(BigEndian, 8, x) == FromBE(ToBE(x, 8)[4..] + ToBE(x, 8)[..4])
  {
    TwoHalves(x);
    JoinedHalves(ToBE(x, 8)[4..], ToBE(x, 8)[..4]);
  }

  lemma HtonShorter(host: Host, x: nat, w: nat)
    requires (w == 1 || w == 2 || w == 4) && x < Pow256(w)
    ensures NSwap(host, w, x) < Pow256(w)
    ensures Store(host, NSwap(host, w, x), w) == ToBE(x, w)
  {
    Widths();
    if host.LittleEndian? {
      var b := ToBE(x, w);
      EncodeDecode(Reversed(b));
      ReversedTwice(b);
      if w == 1 {
        DecodeEncode(x, 1);
        assert Reversed(b) == b;
      }
    }
  }

  /** What `hton` leaves in memory is the big-endian form, except that a big-endian host exchanges the
      halves of eight bytes. */
  lemma HtonMeaning(host: Host, x: nat, w: nat)
    requires Width(w) && x < Pow256(w)
    ensures NSwap(host, w, x) < Pow256(w)
    ensures w < 8 || host.LittleEndian? ==> Store(host, NSwap(host, w, x), w) == ToBE(x, w)
    ensures w == 8 && host.BigEndian? ==> Store(host, NSwap(host, w, x), w) == ToBE(x, w)[4..] + ToBE(x, w)[..4]
  {
    if w == 8 {
      HtonEightLittle(x);
      HtonEightBig(x);
      var b := ToBE(x, 8);
      EncodeDecode(Reversed(b));
      EncodeDecode(b[4..] + b[..4]);
      ReversedTwice(b);
    } else {
      HtonShorter(host, x, w);
    }
  }

  lemma ComesBack(host: Host, b: seq<byte>, mem: seq<byte>)
    requires Width(|b|) && mem == if |b| == 8 && host.BigEndian? then b[4..] + b[..4] else b
    ensures Bytes2Val(host, mem) == FromBE(b)
  {
    Bytes2ValMeaning(host, mem);
    if |b| == 8 && host.BigEndian? {
      assert mem[4..] + mem[..4] == b;
    }
  }

  /** Every number comes back through memory, whatever the host and the width. */
  lemma NtohHton(host: Host, x: nat, w: nat)
    requires Width(w) && x < Pow256(w)
    ensures Bytes2Val(host, Store(host, NSwap(host, w, x), w)) == x
  {
    HtonMeaning(host, x, w);
    ComesBack(host, ToBE(x, w), Store(host, NSwap(host, w, x), w));
    DecodeEncode(x, w);
  }

  // Two's complement.

  predicate InRange(v: int, w: nat) {
    w > 0 && -(Pow256(w) / 2) <= v < Pow256(w) / 2
  }

  function Pattern(v: int, w: nat): (x: nat)
    requires InRange(v, w)
    ensures x < Pow256(w)
  {
    if v < 0 then v + Pow256(w) else v
  }

  function Signed(x: nat, w: nat): int {
    if x < Pow256(w) / 2 then x else x - Pow256(w)
  }

  lemma PatternSigned(v: int, w: nat)
    requires InRange(v, w)
    ensures Signed(Pattern(v, w), w) == v
  {
  }
}
