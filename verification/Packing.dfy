/** Conversion of a ramp table to the 20-bit words the device plays (sub10kPack__). */
module Packing {
  import opened Bytes
  import opened RampCheck

  const POINTS := 10860                     // words in a packed table
  const COEFF: real := 0.000009536752259    // about 10 / (2^20 - 1)
  const TRAILER := 43436                    // first of the four trailing marker bytes

  function Scaled(y: real, uniPolar: bool): real {
    if uniPolar then y / COEFF else (y + 10.0) / (COEFF * 2.0)
  }

  /** The word for one sample, as the unsigned 32-bit integer it is stored in. */
  function Code(y: real, uniPolar: bool): (c: nat) {
    Truncate(Scaled(y, uniPolar) + 0.5) % 0x1_0000_0000
  }

  /** What a code stands for. */
  function Decoded(c: nat, uniPolar: bool): real {
    if uniPolar then c as real * COEFF else c as real * (COEFF * 2.0) - 10.0
  }

  /** One code step, in volts. */
  function CodeStep(uniPolar: bool): real {
    if uniPolar then COEFF else COEFF * 2.0
  }

  /** Word `k` before the markers: past the end of the table the last code is repeated. */
  function Word(inp: Table, uniPolar: bool, k: nat): nat {
    if k < |inp| then Code(inp[k], uniPolar)
    else if inp == [] then 0
    else Code(inp[|inp| - 1], uniPolar)
  }

  function WordBytes(inp: Table, uniPolar: bool, k: nat): (s: seq<byte>)
    ensures |s| == 4
  {
    ToBE(Word(inp, uniPolar, k), 4)
  }

  /** The first `n` words, markers aside. */
  function Words(inp: Table, uniPolar: bool, n: nat): (s: seq<byte>)
    ensures |s| == 4 * n
  {
    if n == 0 then [] else Words(inp, uniPolar, n - 1) + WordBytes(inp, uniPolar, n - 1)
  }

  /** The packed table: its words with the leading marker byte and the trailing marker word. */
  function Packed(inp: Table, uniPolar: bool): (s: seq<byte>)
    ensures |s| == 4 * POINTS
  {
    Words(inp, uniPolar, POINTS)[0 := 255][TRAILER := 255][TRAILER + 1 := 255][TRAILER + 2 := 255][TRAILER + 3 := 255]
  }

  method StoreWord(out: array<byte>, k: nat, value: nat)
    requires 4 * k + 4 <= out.Length
    modifies out
    ensures out[..4 * k + 4] == old(out[..4 * k]) + ToBE(value, 4)
  {
    var word := ToBE(value, 4);
    out[4 * k] := word[0];
    out[4 * k + 1] := word[1];
    out[4 * k + 2] := word[2];
    out[4 * k + 3] := word[3];
  }

  method StoreNext(inp: Table, uniPolar: bool, out: array<byte>, k: nat, value: nat)
    requires 4 * k + 4 <= out.Length && out[..4 * k] == Words(inp, uniPolar, k) && value == Word(inp, uniPolar, k)
    modifies out
    ensures out[..4 * (k + 1)] == Words(inp, uniPolar, k + 1)
  {
    StoreWord(out, k, value);
  }

  /** Stores the table, then its last code as often as there is room. */
  method PackWords(inp: Table, out: array<byte>, uniPolar: bool)
    requires |inp| <= POINTS && out.Length == 4 * POINTS
    modifies out
    ensures out[..] == Words(inp, uniPolar, POINTS)
  {
    var tmp := 0;
    var i := 0;
    while i < |inp|
      invariant 0 <= i <= |inp|
      invariant tmp == if i == 0 then 0 else Code(inp[i - 1], uniPolar)
      invariant out[..4 * i] == Words(inp, uniPolar, i)
    {
      tmp := Code(inp[i], uniPolar);
      StoreNext(inp, uniPolar, out, i, tmp);
      i := i + 1;
    }
    while i < POINTS
      invariant |inp| <= i <= POINTS
      invariant tmp == Word(inp, uniPolar, |inp|)
      invariant out[..4 * i] == Words(inp, uniPolar, i)
    {
      StoreNext(inp, uniPolar, out, i, tmp);
      i := i + 1;
    }
    assert out[..4 * POINTS] == out[..];
  }

  method Pack(inp: Table, out: array<byte>, uniPolar: bool)
    requires |inp| <= POINTS && out.Length == 4 * POINTS
    modifies out
    ensures out[..] == Packed(inp, uniPolar)
  {
    PackWords(inp, out, uniPolar);
    out[0] := 255;
    out[43436] := 255;
    out[43437] := 255;
    out[43438] := 255;
    out[43439] := 255;
  }

  /** A packed table with its marker byte and the mode byte cleared again. */
  function Cleared(s: seq<byte>): (t: seq<byte>)
    requires |s| == 4 * POINTS
    ensures |t| == |s|
  {
    s[0 := 0][4 := 0]
  }

  function ReadWord(s: seq<byte>, k: nat): nat
    requires 4 * k + 4 <= |s|
  {
    FromBE(s[4 * k..4 * k + 4])
  }

  /** The bytes handed to the send queue: packed table with the mode byte set. */
  function Payload(inp: Table, uniPolar: bool, mode: byte): (s: seq<byte>)
    ensures |s| == 4 * POINTS
  {
    Packed(inp, uniPolar)[4 := mode]
  }

  /** A packed table marked with its mode byte. */
  method PackMarked(inp: Table, uniPolar: bool, mode: byte) returns (payload: seq<byte>)
    requires |inp| <= POINTS
    ensures payload == Payload(inp, uniPolar, mode)
  {
    var tmp := new byte[4 * POINTS];
    Pack(inp, tmp, uniPolar);
    tmp[4] := mode;
    payload := tmp[..];
  }

  lemma CodeBounds(y: real, uniPolar: bool)
    requires !OutOfRange(y, uniPolar)
    ensures Code(y, uniPolar) < 0x10_0000
    ensures Abs(Decoded(Code(y, uniPolar), uniPolar) - y) <= CodeStep(uniPolar) / 2.0
  {
    var x := Scaled(y, uniPolar);
    assert 0.0 <= x && x + 0.5 < 1048576.0 by {
      if uniPolar {
        assert x * COEFF == y;
      } else {
        assert x * (COEFF * 2.0) == y + 10.0;
      }
    }
    var c := (x + 0.5).Floor;
    assert Code(y, uniPolar) == c;
    assert -0.5 <= c as real - x <= 0.5;
    if uniPolar {
      assert (c as real - x) * COEFF == Decoded(c, uniPolar) - y;
    } else {
      assert (c as real - x) * (COEFF * 2.0) == Decoded(c, uniPolar) - y;
    }
  }

  lemma {:induction false} WordAt(inp: Table, uniPolar: bool, n: nat, k: nat)
    requires k < n
    ensures Words(inp, uniPolar, n)[4 * k..4 * k + 4] == WordBytes(inp, uniPolar, k)
  {
    if k < n - 1 {
      WordAt(inp, uniPolar, n - 1, k);
      var s := Words(inp, uniPolar, n - 1);
      assert Words(inp, uniPolar, n)[4 * k..4 * k + 4] == s[4 * k..4 * k + 4];
    } else {
      var s := Words(inp, uniPolar, k);
      assert Words(inp, uniPolar, n) == s + WordBytes(inp, uniPolar, k);
      assert (s + WordBytes(inp, uniPolar, k))[4 * k..] == WordBytes(inp, uniPolar, k);
    }
  }

  lemma LeadingByteZero(inp: Table, uniPolar: bool, k: nat)
    requires |inp| >= 1 && forall i | 0 <= i < |inp| :: !OutOfRange(inp[i], uniPolar)
    ensures Word(inp, uniPolar, k) < 0x10_0000 && WordBytes(inp, uniPolar, k)[0] == 0
  {
    CodeBounds(if k < |inp| then inp[k] else inp[|inp| - 1], uniPolar);
    SmallWord(Word(inp, uniPolar, k));
  }

  /** The markers overwrite only zero bytes, so clearing them restores everything before the trailer. */
  lemma ClearingRestores(inp: Table, uniPolar: bool, mode: byte)
    requires 2 <= |inp| <= POINTS && forall i | 0 <= i < |inp| :: !OutOfRange(inp[i], uniPolar)
    ensures Words(inp, uniPolar, POINTS)[0] == Words(inp, uniPolar, POINTS)[4] == 0
    ensures Cleared(Payload(inp, uniPolar, mode))[..TRAILER] == Words(inp, uniPolar, POINTS)[..TRAILER]
  {
    FirstByteZero(inp, uniPolar, 0);
    FirstByteZero(inp, uniPolar, 1);
    MarksCleared(Words(inp, uniPolar, POINTS), mode);
  }

  lemma FirstByteZero(inp: Table, uniPolar: bool, k: nat)
    requires |inp| >= 1 && forall i | 0 <= i < |inp| :: !OutOfRange(inp[i], uniPolar)
    requires k < POINTS
    ensures Words(inp, uniPolar, POINTS)[4 * k] == 0
  {
    WordAt(inp, uniPolar, POINTS, k);
    LeadingByteZero(inp, uniPolar, k);
    var w := Words(inp, uniPolar, POINTS);
    assert w[4 * k..4 * k + 4][0] == w[4 * k];
  }

  lemma MarksCleared(w: seq<byte>, mode: byte)
    requires |w| == 4 * POINTS && w[0] == w[4] == 0
    ensures var s := w[0 := 255][TRAILER := 255][TRAILER + 1 := 255][TRAILER + 2 := 255][TRAILER + 3 := 255];
      Cleared(s[4 := mode])[..TRAILER] == w[..TRAILER]
  {
  }

  lemma WordsSurvive(inp: Table, uniPolar: bool, mode: byte, k: nat)
    requires 2 <= |inp| <= POINTS && forall i | 0 <= i < |inp| :: !OutOfRange(inp[i], uniPolar)
    requires k < POINTS - 1
    ensures ReadWord(Cleared(Payload(inp, uniPolar, mode)), k) == Word(inp, uniPolar, k)
  {
    ClearingRestores(inp, uniPolar, mode);
    LeadingByteZero(inp, uniPolar, k);
    WordAt(inp, uniPolar, POINTS, k);
    var s, w := Cleared(Payload(inp, uniPolar, mode)), Words(inp, uniPolar, POINTS);
    assert s[4 * k..4 * k + 4] == s[..TRAILER][4 * k..4 * k + 4] == w[..TRAILER][4 * k..4 * k + 4] == w[4 * k..4 * k + 4];
    Widths();
    DecodeEncode(Word(inp, uniPolar, k), 4);
  }

  /** Every sample comes back within half a code step, the rest of the buffer repeats the last
      one, and the final word is all ones. */
  lemma PackingRoundTrip(inp: Table, uniPolar: bool, mode: byte)
    requires 2 <= |inp| <= POINTS && forall i | 0 <= i < |inp| :: !OutOfRange(inp[i], uniPolar)
    ensures var s := Cleared(Payload(inp, uniPolar, mode));
      && (forall k: nat | k < |inp| && k < POINTS - 1 ::
            && ReadWord(s, k) < 0x10_0000
            && Abs(Decoded(ReadWord(s, k), uniPolar) - inp[k]) <= CodeStep(uniPolar) / 2.0)
      && (forall k: nat | |inp| <= k < POINTS - 1 :: ReadWord(s, k) == ReadWord(s, |inp| - 1))
      && s[TRAILER..] == [255, 255, 255, 255]
  {
    var s := Cleared(Payload(inp, uniPolar, mode));
    forall k: nat | k < POINTS - 1
      ensures ReadWord(s, k) == Word(inp, uniPolar, k)
      ensures k < |inp| ==> ReadWord(s, k) < 0x10_0000
      ensures k < |inp| ==> Abs(Decoded(ReadWord(s, k), uniPolar) - inp[k]) <= CodeStep(uniPolar) / 2.0
    {
      WordsSurvive(inp, uniPolar, mode, k);
      if k < |inp| { CodeBounds(inp[k], uniPolar); }
    }
  }

  // The bytes themselves, in volts.

  lemma ThreeBytes(n: nat)
    requires n < 0x100_0000
    ensures var s := ToBE(n, 4); s[0] == 0 && n == 65536 * (s[1] as int) + 256 * (s[2] as int) + s[3]
  {
    SmallWord(n);
    Widths();
    DecodeEncode(n, 4);
    var s := ToBE(n, 4);
    assert s[..3][..2] == s[..2] && s[..2][..1] == s[..1];
    assert FromBE(s[..1]) == 0;
    assert FromBE(s[..2]) == s[1];
    assert FromBE(s[..3]) == 256 * (s[1] as int) + s[2];
  }

  /** The nearest number of steps, up to a little rounding: 2^20 - 1 of them are ten volts of a unipolar
      supply, or twenty of a bipolar one, counted from its least. */
  predicate Near(c: int, y: real, uniPolar: bool) {
    -0.51 <= c as real - (if uniPolar then y * 104857.5 else (y + 10.0) * 52428.75) <= 0.51
  }

  lemma CodeInSteps(y: real, uniPolar: bool)
    requires !OutOfRange(y, uniPolar)
    ensures Code(y, uniPolar) < 0x10_0000
    ensures Near(Code(y, uniPolar), y, uniPolar)
  {
    CodeBounds(y, uniPolar);
  }

  /** Byte `k` of a payload, markers included. */
  lemma PayloadByte(inp: Table, uniPolar: bool, mode: byte, k: nat)
    requires k < POINTS - 1
    ensures var p, s := Payload(inp, uniPolar, mode), WordBytes(inp, uniPolar, k);
      && p[4 * k] == (if k == 0 then 255 else if k == 1 then mode else s[0])
      && p[4 * k + 1] == s[1] && p[4 * k + 2] == s[2] && p[4 * k + 3] == s[3]
  {
    WordAt(inp, uniPolar, POINTS, k);
    var w := Words(inp, uniPolar, POINTS);
    var s := w[4 * k..4 * k + 4];
    assert s[0] == w[4 * k] && s[1] == w[4 * k + 1] && s[2] == w[4 * k + 2] && s[3] == w[4 * k + 3];
  }

  /** The number in the last three of the four bytes of a point. */
  function StepsAt(p: seq<byte>, k: nat): int
    requires 4 * k + 4 <= |p|
  {
    65536 * (p[4 * k + 1] as int) + 256 * (p[4 * k + 2] as int) + p[4 * k + 3]
  }

  lemma PointInBytes(inp: Table, uniPolar: bool, mode: byte, k: nat)
    requires 2 <= |inp| <= POINTS && forall i | 0 <= i < |inp| :: !OutOfRange(inp[i], uniPolar)
    requires k < POINTS - 1
    ensures var p := Payload(inp, uniPolar, mode);
      && p[4 * k] == (if k == 0 then 255 else if k == 1 then mode else 0)
      && StepsAt(p, k) < 0x10_0000 && Near(StepsAt(p, k), if k < |inp| then inp[k] else inp[|inp| - 1], uniPolar)
  {
    CodeInSteps(if k < |inp| then inp[k] else inp[|inp| - 1], uniPolar);
    ThreeBytes(Word(inp, uniPolar, k));
    PayloadByte(inp, uniPolar, mode, k);
  }

  /** The bytes carry a table: four for each point, the first a marker, the mode, or zero, the others the
      steps of its voltage; from the end of the table to the trailer the last point again. */
  predicate Carries(p: seq<byte>, t: Table, uniPolar: bool, mode: byte) {
    && |t| >= 1 && |p| == 43440 && p[43436..] == [255, 255, 255, 255]
    && p[0] == 255 && p[4] == mode && (forall k | 2 <= k < 10859 :: p[4 * k] == 0)
    && (forall k: nat | k < 10859 ::
          StepsAt(p, k) < 0x10_0000 && Near(StepsAt(p, k), if k < |t| then t[k] else t[|t| - 1], uniPolar))
  }

  /** And so does each payload, for a table in range. */
  lemma VoltsInBytes(inp: Table, uniPolar: bool, mode: byte)
    requires 2 <= |inp| <= 10860
    requires forall i | 0 <= i < |inp| :: (if uniPolar then 0.0 else -10.0) <= inp[i] <= 9.9999
    ensures Carries(Payload(inp, uniPolar, mode), inp, uniPolar, mode)
  {
    var p := Payload(inp, uniPolar, mode);
    forall k: nat | k < 10859
      ensures p[4 * k] == (if k == 0 then 255 else if k == 1 then mode else 0)
      ensures StepsAt(p, k) < 0x10_0000 && Near(StepsAt(p, k), if k < |inp| then inp[k] else inp[|inp| - 1], uniPolar)
    {
      PointInBytes(inp, uniPolar, mode, k);
    }
    assert p[4 * 0] == 255 && p[4 * 1] == mode;
  }

  /** Without a point there are only the markers. */
  lemma NothingPacked(uniPolar: bool, mode: byte, k: nat)
    requires 2 <= k < 10859
    ensures Payload([], uniPolar, mode)[4 * k..4 * k + 4] == [0, 0, 0, 0]
  {
    ThreeBytes(0);
    PayloadByte([], uniPolar, mode, k);
    var p, s := Payload([], uniPolar, mode), WordBytes([], uniPolar, k);
    assert s == [0, 0, 0, 0];
  }
}
