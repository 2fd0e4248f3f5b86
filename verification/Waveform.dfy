/** Waveform records: strided reads of integers out of a block, and whole writes. */
module Waveform {
  import opened Bytes
  import opened Sequences
  import opened Frames
  import opened NetworkOrder
  import opened DriverState
  import opened Psc

  /** A sample, or what stands past the end of the block and is read all the same. */
  datatype Sample = Value(value: int) | PastEnd

  function SampleAt(data: seq<byte>, src: nat, w: nat): Sample {
    if src + w <= |data| then Value(Signed(FromBE(data[src..src + w]), w)) else PastEnd
  }

  /** The step used: the element size, if none is given. */
  function StepOr(step: int, w: nat): int {
    if step != 0 then step else w
  }

  /** The samples from `src` on. A negative step that leaves the block at the front wraps to a huge
      offset, which ends the read as well. */
  function Strided(data: seq<byte>, w: nat, src: int, step: int, nelm: nat): (s: seq<Sample>)
    ensures |s| <= nelm
    decreases nelm
  {
    if nelm == 0 || !(0 <= src < |data|) then []
    else [SampleAt(data, src, w)] + Strided(data, w, src + step, step, nelm - 1)
  }

  /** Element `i` of a read is the sample `i` steps on. */
  lemma {:induction false} StridedAt(data: seq<byte>, w: nat, src: int, step: int, nelm: nat, i: nat)
    requires i < |Strided(data, w, src, step, nelm)|
    ensures 0 <= src + i * step < |data|
    ensures Strided(data, w, src, step, nelm)[i] == SampleAt(data, src + i * step, w)
    decreases nelm
  {
    if i > 0 {
      StridedAt(data, w, src + step, step, nelm - 1, i - 1);
      assert (i - 1) * step + step == i * step;
    }
  }

  /** How many samples there are: as many as fit between the offset and the end the step leads to. */
  function Available(len: nat, src: int, step: int): nat
    requires step != 0
  {
    if !(0 <= src < len) then 0
    else if step > 0 then (len - src + step - 1) / step
    else src / -step + 1
  }

  lemma OneFewer(len: nat, src: int, step: int)
    requires step != 0 && 0 <= src < len
    ensures Available(len, src, step) == Available(len, src + step, step) + 1
  {
    if step > 0 {
      AddOne(len - src - 1, step);
      if src + step >= len {
        Small(len - src - 1, step);
      }
    } else {
      AddOne(src + step, -step);
      if src + step < 0 {
        Small(src, -step);
      }
    }
  }

  lemma AddOne(a: int, b: int)
    requires b > 0
    ensures (a + b) / b == a / b + 1
  {
    var q, r := a / b, a % b;
    assert a == q * b + r;
    Division(a + b, b, q + 1, r);
  }

  lemma Division(a: int, b: int, q: int, r: int)
    requires b > 0 && 0 <= r < b && a == q * b + r
    ensures a / b == q && a % b == r
  {
    var p, s := a / b, a % b;
    assert (p - q) * b == r - s;
    if p > q {
      Multiple(p - q, b);
    }
    if p < q {
      Multiple(q - p, b);
    }
  }

  lemma Multiple(k: int, b: int)
    requires k >= 1 && b > 0
    ensures k * b >= b
  {
  }

  lemma Small(a: int, b: int)
    requires 0 <= a < b
    ensures a / b == 0
  {
  }

  /** The number of samples read: those available, but no more than the record holds. */
  lemma {:induction false} StridedLength(data: seq<byte>, w: nat, src: int, step: int, nelm: nat)
    requires step != 0
    ensures |Strided(data, w, src, step, nelm)| ==
      var n := Available(|data|, src, step); if n < nelm then n else nelm
    decreases nelm
  {
    if nelm > 0 && 0 <= src < |data| {
      OneFewer(|data|, src, step);
      StridedLength(data, w, src + step, step, nelm - 1);
    }
  }

  /** An element is reached exactly when the record has room and the block has not ended. */
  lemma {:induction false} StridedReaches(data: seq<byte>, w: nat, src: nat, step: nat, nelm: nat, i: nat)
    requires step > 0
    ensures i < |Strided(data, w, src, step, nelm)| <==> i < nelm && src + i * step < |data|
    decreases nelm
  {
    if i > 0 {
      if nelm > 0 && src < |data| {
        StridedReaches(data, w, src + step, step, nelm - 1, i - 1);
        assert (i - 1) * step + step == i * step;
      }
    }
  }

  /** What a read gives: every element of the block from the offset on, one size after the other, or one
      step after the other if the record has a step, as long as it starts inside the block and the record
      has room. */
  lemma ReadMeans(data: seq<byte>, w: nat, offset: nat, step: int, nelm: nat, i: nat)
    requires w > 0
    ensures var s := Strided(data, w, offset, StepOr(step, w), nelm);
      var src := offset + i * (if step == 0 then w else step);
      && |s| <= nelm
      && (i < |s| ==> 0 <= src < |data| && s[i] == SampleAt(data, src, w))
      && (step >= 0 ==> (i < |s| <==> i < nelm && src < |data|))
  {
    if i < |Strided(data, w, offset, StepOr(step, w), nelm)| {
      StridedAt(data, w, offset, StepOr(step, w), nelm, i);
    }
    if step >= 0 {
      StridedReaches(data, w, offset, StepOr(step, w), nelm, i);
    }
  }

  /** Two bytes as a signed number, the first most significant. */
  lemma ShortSample(data: seq<byte>, src: nat)
    requires src + 2 <= |data|
    ensures SampleAt(data, src, 2) ==
      Value(256 * (data[src] as int) + data[src + 1] - (if data[src] >= 128 then 0x1_0000 else 0))
  {
    Widths();
    var s := data[src..src + 2];
    assert FromBE(s[..1]) == s[0];
    assert s[0] == data[src] && s[1] == data[src + 1];
  }

  /** And four. */
  lemma LongSample(data: seq<byte>, src: nat)
    requires src + 4 <= |data|
    ensures SampleAt(data, src, 4) ==
      Value(0x100_0000 * (data[src] as int) + 0x1_0000 * (data[src + 1] as int) + 256 * (data[src + 2] as int) + data[src + 3]
        - (if data[src] >= 128 then 0x1_0000_0000 else 0))
  {
    Widths();
    FourBytes(data[src..src + 4]);
  }

  function Least(a: nat, b: nat): nat {
    if a < b then a else b
  }

  /** The highest place a read of `n` elements looks at. */
  function Furthest(src: nat, step: int, n: nat): int
    requires n > 0
  {
    if step > 0 then src + (n - 1) * step else src
  }

  /** No element is read past the end of the block exactly when the one furthest on is not. */
  lemma InsideTheBlock(data: seq<byte>, w: nat, src: nat, step: int, nelm: nat)
    requires step != 0
    ensures var n := Least(Available(|data|, src, step), nelm);
      (forall v | v in Strided(data, w, src, step, nelm) :: v.Value?) <==> n == 0 || Furthest(src, step, n) + w <= |data|
  {
    var s := Strided(data, w, src, step, nelm);
    StridedLength(data, w, src, step, nelm);
    if s != [] {
      var n := |s|;
      forall i | 0 <= i < n
        ensures s[i].Value? <==> src + i * step + w <= |data|
        ensures src + i * step <= Furthest(src, step, n)
      {
        StridedAt(data, w, src, step, nelm, i);
        NotFurther(src, step, n, i);
      }
      var k := if step > 0 then n - 1 else 0;
      assert src + k * step == Furthest(src, step, n) && s[k] in s;
    }
  }

  lemma NotFurther(src: nat, step: int, n: nat, i: nat)
    requires i < n
    ensures src + i * step <= Furthest(src, step, n)
  {
    if step > 0 {
      NoGreater(i, n - 1, step);
    }
  }

  /** Without a step of its own a record that has room for everything therefore reads past the end exactly
      when what follows the offset is not whole elements. */
  lemma WholeElementsOnly(data: seq<byte>, w: nat, src: nat, nelm: nat)
    requires w > 0 && src < |data| && nelm >= Available(|data|, src, w)
    ensures (forall v | v in Strided(data, w, src, w, nelm) :: v.Value?) <==> (|data| - src) % w == 0
  {
    InsideTheBlock(data, w, src, w, nelm);
    RoundedUp(|data| - src, w);
  }

  lemma RoundedUp(len: nat, w: nat)
    requires w > 0 && len > 0
    ensures var n := (len + w - 1) / w; n > 0 && ((n - 1) * w + w <= len <==> len % w == 0)
  {
    var q, r := len / w, len % w;
    assert len == q * w + r;
    if r == 0 {
      Division(len + w - 1, w, q, w - 1);
    } else {
      assert len + w - 1 == (q + 1) * w + (r - 1);
      Division(len + w - 1, w, q + 1, r - 1);
    }
  }

  /** Five bytes read as two elements of four. */
  lemma OverRead(data: seq<byte>)
    requires |data| == 5
    ensures Strided(data, 4, 0, 4, 2)[1..] == [PastEnd]
  {
    assert Strided(data, 4, 8, 4, 0) == [];
    assert Strided(data, 4, 4, 4, 1) == [PastEnd] + [];
  }

  lemma NoGreater(a: nat, b: nat, k: nat)
    requires a <= b
    ensures a * k <= b * k
  {
  }

  // Interleaved reads.

  /** The read of every `k`-th element, from the `j`-th on. */
  function Lane(data: seq<byte>, w: nat, k: nat, nelm: nat, j: nat): seq<Sample> {
    Strided(data, w, j * w, k * w, nelm)
  }

  /** The read of all elements one after the other. */
  function Whole(data: seq<byte>, w: nat, nelm: nat): seq<Sample> {
    Lane(data, w, 1, nelm, 0)
  }

  lemma Scaled(a: nat, b: nat, w: nat)
    requires w > 0
    ensures a < b <==> a * w < b * w
  {
    if a < b {
      NoGreater(a + 1, b, w);
    } else {
      NoGreater(b, a, w);
    }
  }

  lemma Places(j: nat, i: nat, k: nat, w: nat)
    requires k > 0 && w > 0
    ensures (j + i * k) * w == j * w + i * (k * w) && k * w > 0 && i <= j + i * k
  {
    NoGreater(1, k, i);
    NoGreater(1, k, w);
    assert i * k * w == i * (k * w);
  }

  lemma LaneAt(data: seq<byte>, w: nat, m: nat, k: nat, nelm: nat, j: nat, i: nat)
    requires w > 0 && k > 0 && |data| == m * w && nelm >= m
    ensures i < |Lane(data, w, k, nelm, j)| <==> j + i * k < m
    ensures i < |Lane(data, w, k, nelm, j)| ==> Lane(data, w, k, nelm, j)[i] == SampleAt(data, (j + i * k) * w, w)
  {
    Places(j, i, k, w);
    var src, step := j * w, k * w;
    StridedReaches(data, w, src, step, nelm, i);
    Scaled(j + i * k, m, w);
    if i < |Strided(data, w, src, step, nelm)| {
      StridedAt(data, w, src, step, nelm, i);
    }
  }

  lemma ElementInside(data: seq<byte>, w: nat, m: nat, e: nat)
    requires w > 0 && |data| == m * w && e < m
    ensures SampleAt(data, e * w, w).Value?
  {
    NoGreater(e + 1, m, w);
  }

  lemma WholeAt(data: seq<byte>, w: nat, m: nat, nelm: nat, e: nat)
    requires w > 0 && |data| == m * w && nelm >= m
    ensures e < |Whole(data, w, nelm)| <==> e < m
    ensures e < m ==> Whole(data, w, nelm)[e] == SampleAt(data, e * w, w) && Whole(data, w, nelm)[e].Value?
  {
    LaneAt(data, w, m, 1, nelm, 0, e);
    if e < m {
      ElementInside(data, w, m, e);
    }
  }

  lemma WholeLength(data: seq<byte>, w: nat, m: nat, nelm: nat)
    requires w > 0 && |data| == m * w && nelm >= m
    ensures |Whole(data, w, nelm)| == m
  {
    WholeAt(data, w, m, nelm, m);
    if m > 0 {
      WholeAt(data, w, m, nelm, m - 1);
    }
  }

  /** Element `e` stands in lane `j` at place `i`. */
  lemma LaneHolds(data: seq<byte>, w: nat, m: nat, k: nat, nelm: nat, j: nat, i: nat, e: nat)
    requires w > 0 && k > 0 && |data| == m * w && nelm >= m && e == j + i * k && e < m
    ensures i < |Lane(data, w, k, nelm, j)| && e < |Whole(data, w, nelm)|
    ensures Lane(data, w, k, nelm, j)[i] == Whole(data, w, nelm)[e]
  {
    LaneAt(data, w, m, k, nelm, j, i);
    WholeAt(data, w, m, nelm, e);
  }

  /** `k` reads in lanes, put together again. */
  function Interleaved(lanes: seq<seq<Sample>>, m: nat): (s: seq<Sample>)
    requires lanes != [] && Full(lanes, m)
    ensures |s| == m
  {
    seq(m, e requires 0 <= e < m => Placed(lanes, e))
  }

  predicate HasPlace(lanes: seq<seq<Sample>>, e: nat)
    requires lanes != []
  {
    e / |lanes| < |lanes[e % |lanes|]|
  }

  /** Element `e` of a round through the lanes. */
  function Placed(lanes: seq<seq<Sample>>, e: nat): Sample
    requires lanes != [] && HasPlace(lanes, e)
  {
    lanes[e % |lanes|][e / |lanes|]
  }

  /** Each of `m` elements has its place. */
  predicate Full(lanes: seq<seq<Sample>>, m: nat)
    requires lanes != []
  {
    forall e | 0 <= e < m :: HasPlace(lanes, e)
  }

  /** Each place belongs to one of `m` elements, and to no other. */
  predicate Exact(lanes: seq<seq<Sample>>, m: nat)
    requires lanes != []
  {
    forall j: nat, i: nat | j < |lanes| && i < |lanes[j]| :: IsElement(lanes, m, j, i)
  }

  function Lanes(data: seq<byte>, w: nat, k: nat, nelm: nat): (s: seq<seq<Sample>>)
    ensures |s| == k && forall j | 0 <= j < k :: s[j] == Lane(data, w, k, nelm, j)
  {
    seq(k, j requires 0 <= j < k => Lane(data, w, k, nelm, j))
  }

  lemma Split(e: nat, k: nat) returns (j: nat, i: nat)
    requires k > 0
    ensures j < k && e == j + i * k && j == e % k && i == e / k
  {
    j, i := e % k, e / k;
  }

  lemma PlaceOf(data: seq<byte>, w: nat, m: nat, k: nat, nelm: nat, e: nat)
    requires w > 0 && k > 0 && |data| == m * w && nelm >= m && e < m
    ensures HasPlace(Lanes(data, w, k, nelm), e) && e < |Whole(data, w, nelm)|
    ensures Placed(Lanes(data, w, k, nelm), e) == Whole(data, w, nelm)[e]
  {
    var j, i := Split(e, k);
    LaneHolds(data, w, m, k, nelm, j, i, e);
  }

  lemma LanesFull(data: seq<byte>, w: nat, m: nat, k: nat, nelm: nat)
    requires w > 0 && k > 0 && |data| == m * w && nelm >= m
    ensures Full(Lanes(data, w, k, nelm), m)
    ensures Interleaved(Lanes(data, w, k, nelm), m) == Whole(data, w, nelm)
  {
    WholeLength(data, w, m, nelm);
    var lanes, all := Lanes(data, w, k, nelm), Whole(data, w, nelm);
    forall e | 0 <= e < m
      ensures HasPlace(lanes, e) && Placed(lanes, e) == all[e]
    {
      PlaceOf(data, w, m, k, nelm, e);
    }
  }

  lemma LanesExact(data: seq<byte>, w: nat, m: nat, k: nat, nelm: nat)
    requires w > 0 && k > 0 && |data| == m * w && nelm >= m
    ensures Exact(Lanes(data, w, k, nelm), m)
  {
    var lanes := Lanes(data, w, k, nelm);
    forall j: nat, i: nat | j < k && i < |lanes[j]|
      ensures IsElement(lanes, m, j, i)
    {
      LaneAt(data, w, m, k, nelm, j, i);
      Division(j + i * k, k, i, j);
    }
  }

  /** The lanes of a block of whole elements hold every element exactly once, and put together they
      are the plain read, none of it past the end. */
  lemma LanesPartition(data: seq<byte>, w: nat, m: nat, k: nat, nelm: nat)
    requires w > 0 && k > 0 && |data| == m * w && nelm >= m
    ensures var lanes, all := Lanes(data, w, k, nelm), Whole(data, w, nelm);
      && |all| == m && (forall e | 0 <= e < m :: all[e].Value?)
      && Full(lanes, m) && Exact(lanes, m) && Interleaved(lanes, m) == all
  {
    WholeLength(data, w, m, nelm);
    LanesFull(data, w, m, k, nelm);
    LanesExact(data, w, m, k, nelm);
    forall e | 0 <= e < m
      ensures Whole(data, w, nelm)[e].Value?
    {
      WholeAt(data, w, m, nelm, e);
    }
  }

  /** Place `i` of lane `j` is the place of exactly one element. */
  predicate IsElement(lanes: seq<seq<Sample>>, m: nat, j: nat, i: nat)
    requires lanes != []
  {
    var e := j + i * |lanes|;
    e < m && e % |lanes| == j && e / |lanes| == i
  }

  // Writing.

  /** The message a waveform of integers is sent as. */
  function Encoded(vs: seq<int>, w: nat): (s: seq<byte>)
    requires forall v | v in vs :: InRange(v, w)
    ensures |s| == |vs| * w
  {
    if vs == [] then [] else ToBE(Pattern(vs[0], w), w) + Encoded(vs[1..], w)
  }

  lemma SliceBehind(a: seq<byte>, t: seq<byte>, n: nat, w: nat)
    requires n + w <= |t|
    ensures (a + t)[|a| + n..|a| + n + w] == t[n..n + w]
  {
  }

  lemma SliceInFront(a: seq<byte>, t: seq<byte>)
    ensures (a + t)[0..|a|] == a
  {
  }

  lemma PlaceBefore(e: nat, w: nat, src: nat) returns (n: nat)
    requires e > 0 && src == e * w
    ensures n == (e - 1) * w && src == w + n
  {
    n := (e - 1) * w;
  }

  lemma {:induction false} EncodedAt(vs: seq<int>, w: nat, e: nat, src: nat)
    requires e < |vs| && src == e * w && forall v | v in vs :: InRange(v, w)
    ensures src + w <= |Encoded(vs, w)|
    ensures Encoded(vs, w)[src..src + w] == ToBE(Pattern(vs[e], w), w)
  {
    var a, t := ToBE(Pattern(vs[0], w), w), Encoded(vs[1..], w);
    if e == 0 {
      SliceInFront(a, t);
    } else {
      var n := PlaceBefore(e, w, src);
      EncodedAt(vs[1..], w, e - 1, n);
      SliceBehind(a, t, n, w);
    }
  }

  /** Integers in range that are written and read back are the same, in as many lanes as one likes. */
  lemma WriteThenRead(vs: seq<int>, w: nat, nelm: nat, k: nat)
    requires w > 0 && k > 0 && nelm >= |vs| && forall v | v in vs :: InRange(v, w)
    ensures var data := Encoded(vs, w);
      && |Whole(data, w, nelm)| == |vs|
      && (forall e | 0 <= e < |vs| :: Whole(data, w, nelm)[e] == Value(vs[e]))
      && Full(Lanes(data, w, k, nelm), |vs|)
      && Interleaved(Lanes(data, w, k, nelm), |vs|) == Whole(data, w, nelm)
  {
    var data, m := Encoded(vs, w), |vs|;
    LanesPartition(data, w, m, k, nelm);
    forall e | 0 <= e < m
      ensures Whole(data, w, nelm)[e] == Value(vs[e])
    {
      WholeAt(data, w, m, nelm, e);
      ReadBack(vs, w, e, e * w);
    }
  }

  lemma ReadBack(vs: seq<int>, w: nat, e: nat, src: nat)
    requires w > 0 && e < |vs| && src == e * w && forall v | v in vs :: InRange(v, w)
    ensures SampleAt(Encoded(vs, w), src, w) == Value(vs[e])
  {
    EncodedAt(vs, w, e, src);
    assert vs[e] in vs;
    SampleOf(Encoded(vs, w), src, w, vs[e]);
  }

  lemma SampleOf(data: seq<byte>, src: nat, w: nat, v: int)
    requires InRange(v, w) && src + w <= |data| && data[src..src + w] == ToBE(Pattern(v, w), w)
    ensures SampleAt(data, src, w) == Value(v)
  {
    DecodeEncode(Pattern(v, w), w);
    PatternSigned(v, w);
  }

  // The records.

  class InputRecord {
    const buf: array<Sample>
    var nord: nat
    var alarm: bool

    constructor (nelm: nat)
      ensures fresh(buf) && buf.Length == nelm && nord == 0 && !alarm
    {
      buf := new Sample[nelm](_ => Value(0));
      nord, alarm := 0, false;
    }

    /** Reads a block's data. A disconnected driver leaves the record as it is, in alarm. */
    method Read(host: Host, data: seq<byte>, connected: bool, w: nat, offset: nat, step: int)
      requires w == 2 || w == 4
      modifies this, buf
      ensures !connected ==> alarm && nord == old(nord) && buf[..] == old(buf[..])
      ensures connected ==> alarm == old(alarm)
      ensures var s := Strided(data, w, offset, StepOr(step, w), buf.Length);
        connected ==> nord == |s| && buf[..] == s + old(buf[..])[|s|..]
    {
      if !connected {
        alarm := true;
        return;
      }
      nord := ReadFrom(host, data, w, offset, if step != 0 then step else w);
    }

    /** The read loop. */
    method ReadFrom(host: Host, data: seq<byte>, w: nat, offset: nat, step: int) returns (dest: nat)
      requires w == 2 || w == 4
      modifies buf
      ensures var s := Strided(data, w, offset, step, buf.Length);
        dest == |s| && buf[..] == s + old(buf[..])[|s|..]
    {
      var src: int := offset;
      dest := 0;
      ghost var was, got: seq<Sample> := buf[..], [];
      ghost var all := Strided(data, w, offset, step, buf.Length);
      while dest < buf.Length && 0 <= src < |data|
        invariant dest == |got| <= buf.Length
        invariant all == got + Strided(data, w, src, step, buf.Length - dest)
        invariant buf[..] == got + was[dest..]
        decreases buf.Length - dest
      {
        StridedNext(data, w, src, step, buf.Length - dest, got);
        got := ReadInto(host, data, w, src, dest, got, was);
        dest, src := dest + 1, src + step;
      }
      StridedEnds(data, w, src, step, buf.Length - dest, got);
    }

    /** One pass of the loop. */
    method ReadInto(host: Host, data: seq<byte>, w: nat, src: nat, dest: nat, ghost got: seq<Sample>, ghost was: seq<Sample>)
      returns (ghost more: seq<Sample>)
      requires w == 2 || w == 4
      requires dest == |got| < buf.Length == |was| && buf[..] == got + was[dest..]
      modifies buf
      ensures more == got + [SampleAt(data, src, w)] && buf[..] == more + was[dest + 1..]
    {
      var v := ReadSample(host, data, src, w);
      OneMore(got, was, v);
      buf[dest] := v;
      more := got + [v];
    }
  }

  lemma StridedEnds(data: seq<byte>, w: nat, src: int, step: int, nelm: nat, got: seq<Sample>)
    requires nelm == 0 || !(0 <= src < |data|)
    ensures got + Strided(data, w, src, step, nelm) == got
  {
  }

  lemma StridedNext(data: seq<byte>, w: nat, src: nat, step: int, nelm: nat, got: seq<Sample>)
    requires nelm > 0 && src < |data|
    ensures got + Strided(data, w, src, step, nelm) ==
      got + [SampleAt(data, src, w)] + Strided(data, w, src + step, step, nelm - 1)
  {
  }

  lemma OneMore<T>(got: seq<T>, was: seq<T>, v: T)
    requires |got| < |was|
    ensures (got + was[|got|..])[|got| := v] == got + [v] + was[|got| + 1..]
  {
  }

  /** One element, converted from network order. */
  method ReadSample(host: Host, data: seq<byte>, src: nat, w: nat) returns (v: Sample)
    requires w == 2 || w == 4
    ensures v == SampleAt(data, src, w)
  {
    if src + w > |data| {
      return PastEnd;
    }
    var bytes := data[src..src + w];
    Bytes2ValMeaning(host, bytes);
    v := Value(Signed(Bytes2Val(host, bytes), w));
  }

  /** One sample, converted to network order. */
  method ConvertSample(host: Host, x: real, w: nat) returns (bytes: seq<byte>)
    requires (w == 2 || w == 4) && InRange(Truncate(x), w)
    ensures bytes == ToBE(Pattern(Truncate(x), w), w)
  {
    var p := Pattern(Truncate(x), w);
    HtonMeaning(host, p, w);
    bytes := Store(host, NSwap(host, w, p), w);
  }

  function Truncations(xs: seq<real>): (vs: seq<int>)
    ensures |vs| == |xs|
  {
    seq(|xs|, i requires 0 <= i < |xs| => Truncate(xs[i]))
  }

  lemma {:induction false} EncodedOneMore(vs: seq<int>, v: int, w: nat)
    requires InRange(v, w) && forall u | u in vs :: InRange(u, w)
    ensures forall u | u in vs + [v] :: InRange(u, w)
    ensures Encoded(vs + [v], w) == Encoded(vs, w) + ToBE(Pattern(v, w), w)
  {
    if vs == [] {
      assert Encoded([v], w) == ToBE(Pattern(v, w), w) + [];
      assert [] + [v] == [v];
    } else {
      EncodedOneMore(vs[1..], v, w);
      assert (vs + [v])[1..] == vs[1..] + [v];
      Regroup(ToBE(Pattern(vs[0], w), w), Encoded(vs[1..], w), ToBE(Pattern(v, w), w));
    }
  }

  lemma EncodedNext(vs: seq<int>, i: nat, w: nat)
    requires i < |vs| && forall v | v in vs :: InRange(v, w)
    ensures Encoded(vs[..i + 1], w) == Encoded(vs[..i], w) + ToBE(Pattern(vs[i], w), w)
  {
    EncodedOneMore(vs[..i], vs[i], w);
    assert vs[..i + 1] == vs[..i] + [vs[i]];
  }

  class OutputRecord {
    const buf: array<real>
    var nord: nat
    var alarm: bool

    constructor (nelm: nat)
      ensures fresh(buf) && buf.Length == nelm && nord == 0 && !alarm
    {
      buf := new real[nelm](_ => 0.0);
      nord, alarm := 0, false;
    }

    /** Queues the samples, rounded towards zero, as one message of the block. A sample out of the
        range of the integer type is not defined. */
    method Write(host: Host, psc: PSC, block: Block, w: nat, memory: bool) returns (result: SendResult)
      requires w == 2 || w == 4
      requires psc.Valid() && block in psc.sendBlocks.Values
      requires nord <= buf.Length && nord * w < 0x1_0000_0000
      requires forall v | v in Truncations(buf[..nord]) :: InRange(v, w)
      modifies this`alarm, psc`sendbuf, psc`state, block`queued, block`count
      ensures psc.Valid() && nord == old(nord) && buf[..] == old(buf[..])
      ensures psc.state == QueueBlock(old(psc.state), block.code, Encoded(Truncations(buf[..nord]), w), psc.maxSendBuffer, memory)
      ensures result == QueueResult(old(psc.state), block.code, psc.maxSendBuffer, memory)
      ensures alarm == (old(alarm) || result != Done)
    {
      var to := ConvertAll(host, w);
      result := Queue(psc, block, to, memory);
    }

    method Queue(psc: PSC, block: Block, to: Body, memory: bool) returns (result: SendResult)
      requires psc.Valid() && block in psc.sendBlocks.Values
      modifies this`alarm, psc`sendbuf, psc`state, block`queued, block`count
      ensures psc.Valid() && psc.state == QueueBlock(old(psc.state), block.code, to, psc.maxSendBuffer, memory)
      ensures result == QueueResult(old(psc.state), block.code, psc.maxSendBuffer, memory)
      ensures alarm == (old(alarm) || result != Done)
    {
      if psc.connected {
        result := psc.QueueBlock(block, to, memory);
      } else {
        result := Ignored;
      }
      Note(result);
    }

    method Note(result: SendResult)
      modifies this`alarm
      ensures alarm == (old(alarm) || result != Done)
    {
      alarm := alarm || result != Done;
    }

    method ConvertAll(host: Host, w: nat) returns (to: seq<byte>)
      requires w == 2 || w == 4
      requires nord <= buf.Length
      requires forall v | v in Truncations(buf[..nord]) :: InRange(v, w)
      ensures to == Encoded(Truncations(buf[..nord]), w)
    {
      to := [];
      ghost var vs := Truncations(buf[..nord]);
      for i := 0 to nord
        invariant forall v | v in vs[..i] :: InRange(v, w)
        invariant to == Encoded(vs[..i], w)
      {
        assert vs[i] == Truncate(buf[i]) && vs[i] in vs;
        var bytes := ConvertSample(host, buf[i], w);
        to := to + bytes;
        EncodedNext(vs, i, w);
      }
      assert vs[..nord] == vs;
    }
  }
}
