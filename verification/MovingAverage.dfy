/** The moving average over a waveform whose window narrows towards the ends. Samples are reals. */
module MovingAverage {
  import opened Bytes

  /** An average, or the result of dividing nothing by zero. */
  datatype Cell = Number(value: real) | NotANumber

  /** A 32-bit pattern read as a signed number. */
  function Signed32(x: u32): int {
    if x < 0x8000_0000 then x else x - 0x1_0000_0000
  }

  /** Half of a signed number, rounded towards zero. */
  function HalfOf(x: int): int {
    if x >= 0 then x / 2 else -(-x / 2)
  }

  /** The window size reported: the smallest odd number not below the one asked for, and for a negative
      one, a pattern from 2^31 on, one or two above it. */
  lemma WindowSize(window: u32)
    ensures var half := HalfOf(Signed32(window));
      if window < 0x8000_0000 then half >= 0 && 2 * half + 1 == window + (if window % 2 == 0 then 1 else 0)
      else 2 * half + 1 == (window as int) - 0x1_0000_0000 + (if window % 2 == 0 then 1 else 2)
  {
  }

  /** The window of index `i` as the clamping code computes it: both ends inclusive. */
  function Window(count: int, half: int, i: int): (int, int) {
    var l := if i - half > 0 then 0 else half - i;
    var r := if i + half < count then 0 else i + half - (count - 1);
    var left := if i - half > 0 then i - half else 0;
    var right := if i + half < count then i + half else count - 1;
    if l > r then (left, right - l) else (left + r, right)
  }

  function Least(a: int, b: int): int {
    if a < b then a else b
  }

  /** The half-width that fits on both sides. */
  function Reach(count: int, half: int, i: int): int {
    Least(half, Least(i, count - 1 - i))
  }

  predicate Symmetric(count: int, half: int, i: int) {
    Window(count, half, i) == (i - Reach(count, half, i), i + Reach(count, half, i))
  }

  /** Every window is the widest one centred on its index exactly when the full one fits the waveform. */
  lemma WindowsCentred(count: nat, half: nat)
    ensures (forall i | 0 <= i < count :: Symmetric(count, half, i)) <==> count == 0 || 2 * half <= count
  {
    if count > 0 && 2 * half > count {
      var i := if half <= count then half - 1 else 0;
      assert !Symmetric(count, half, i);
    }
  }

  /** The windows by their ends, whatever the size: centred where one fits; next to an end, as far as that
      end on both sides; and one that reaches past both ends starts at the nearer one and is cut by as much
      as it reaches past the other. */
  lemma WindowShape(count: nat, half: nat, i: nat)
    requires i < count
    ensures var (left, right) := Window(count, half, i);
      if half <= i && half < count - i then left == i - half && right == i + half
      else if half < count - i then left == 0 && right == 2 * i
      else if half <= i then left == 2 * i - (count - 1) && right == count - 1
      else if 2 * i < count - 1 then left == 0 && right == count - 1 - (half - i)
      else left == half + i - (count - 1) && right == count - 1
  {
  }

  predicate NonEmpty(w: (int, int)) {
    w.0 <= w.1
  }

  /** No window reaches outside the waveform, and none is empty exactly when half a window is shorter
      than the waveform. */
  lemma WindowsInside(count: nat, half: nat)
    ensures forall i | 0 <= i < count :: 0 <= Window(count, half, i).0 && Window(count, half, i).1 < count
    ensures (forall i | 0 <= i < count :: NonEmpty(Window(count, half, i))) <==> count == 0 || half < count
  {
    if count > 0 && half >= count {
      assert !NonEmpty(Window(count, half, 0));
    }
  }

  /** The sum of `s[lo..hi]`. */
  function Sum(s: seq<real>, lo: int, hi: int): real
    requires 0 <= lo && hi <= |s|
    decreases hi - lo
  {
    if lo >= hi then 0.0 else Sum(s, lo, hi - 1) + s[hi - 1]
  }

  /** The average over a window, both ends inclusive. */
  function Mean(s: seq<real>, w: (int, int)): Cell
    requires 0 <= w.0 && w.1 < |s|
  {
    var n := w.1 - w.0 + 1;
    if n == 0 then NotANumber else Number(Sum(s, w.0, w.1 + 1) / n as real)
  }

  function Averaged(s: seq<real>, half: nat): (r: seq<Cell>)
    ensures |r| == |s|
  {
    WindowsInside(|s|, half);
    seq(|s|, i requires 0 <= i < |s| => Mean(s, Window(|s|, half, i)))
  }

  /** A window that ends just before it begins has no average, and one that ends earlier has zero. */
  lemma EmptyWindows(s: seq<real>, half: nat, i: nat)
    requires i < |s|
    ensures var (left, right) := Window(|s|, half, i);
      && (right == left - 1 ==> Averaged(s, half)[i] == NotANumber)
      && (right < left - 1 ==> Averaged(s, half)[i] == Number(0.0))
  {
    var w := Window(|s|, half, i);
    if w.1 < w.0 - 1 {
      NothingOver((w.1 - w.0 + 1) as real);
    }
  }

  /** Without a window the waveform is copied. */
  lemma NoWindow(s: seq<real>)
    ensures forall i | 0 <= i < |s| :: Averaged(s, 0)[i] == Number(s[i])
  {
    forall i | 0 <= i < |s|
      ensures Averaged(s, 0)[i] == Number(s[i])
    {
      assert Window(|s|, 0, i) == (i, i);
      assert Sum(s, i, i) == 0.0;
    }
  }

  method SubArrayMovingAverage(a: array<real>, window: u32, valA: array<Cell>) returns (valB: int)
    modifies valA
    ensures var half := HalfOf(Signed32(window));
      && valB == 2 * half + 1
      && (half < 0 || a.Length != valA.Length ==> valA[..] == old(valA[..]))
      && (half >= 0 && a.Length == valA.Length ==> valA[..] == Averaged(a[..], half))
  {
    var half := HalfOf(Signed32(window));
    valB := half * 2 + 1;
    if half < 0 {
      return;
    }
    var count := a.Length;
    if count != valA.Length {
      return;
    }
    if half == 0 {
      forall i | 0 <= i < count {
        valA[i] := Number(a[i]);
      }
      NoWindow(a[..]);
      assert valA[..] == Averaged(a[..], 0);
      return;
    }
    ghost var s := a[..];
    for i := 0 to count
      invariant forall k | 0 <= k < i :: valA[k] == Averaged(s, half)[k]
    {
      var cell := AverageAt(a, half, i);
      valA[i] := cell;
    }
    assert valA[..] == Averaged(s, half);
  }

  /** The body of the outer loop. */
  method AverageAt(a: array<real>, half: nat, i: nat) returns (cell: Cell)
    requires i < a.Length
    ensures cell == Averaged(a[..], half)[i]
  {
    var count := a.Length;
    WindowsInside(count, half);
    var left := if i - half > 0 then i - half else 0;
    var l := if i - half > 0 then 0 else 0 - (i - half);
    var right := if i + half < count then i + half else count - 1;
    var r := if i + half < count then 0 else (i + half) - (count - 1);
    if l > r {
      right := right - l;
    } else {
      left := left + r;
    }
    assert (left, right) == Window(count, half, i);
    var sum := SumOver(a, left, right);
    return if right - left + 1 == 0 then NotANumber else Number(sum / (right - left + 1) as real);
  }

  /** The inner loop. */
  method SumOver(a: array<real>, left: int, right: int) returns (sum: real)
    requires 0 <= left && right < a.Length
    ensures sum == Sum(a[..], left, right + 1)
  {
    sum := 0.0;
    var j := left;
    while j <= right
      invariant left <= j && (j <= right + 1 || j == left)
      invariant sum == if j <= right + 1 then Sum(a[..], left, j) else 0.0
    {
      sum := sum + a[j];
      j := j + 1;
    }
  }

  // What the average keeps.

  /** The ends of the waveform stay, provided the full window fits. */
  lemma EndsStay(s: seq<real>, half: nat)
    requires 0 < |s| && 2 * half <= |s|
    ensures Averaged(s, half)[0] == Number(s[0])
    ensures Averaged(s, half)[|s| - 1] == Number(s[|s| - 1])
  {
    var n := |s| - 1;
    assert Window(|s|, half, 0) == (0, 0) && Window(|s|, half, n) == (n, n);
    assert Sum(s, 0, 0) == 0.0 && Sum(s, n, n) == 0.0;
  }

  lemma {:induction false} SumBounds(s: seq<real>, lo: int, hi: int, least: real, most: real)
    requires 0 <= lo <= hi <= |s|
    requires forall i | 0 <= i < |s| :: least <= s[i] <= most
    ensures least * (hi - lo) as real <= Sum(s, lo, hi) <= most * (hi - lo) as real
    decreases hi - lo
  {
    if lo < hi {
      SumBounds(s, lo, hi - 1, least, most);
      var n := (hi - 1 - lo) as real;
      assert (hi - lo) as real == n + 1.0;
      assert least * (n + 1.0) == least * n + least && most * (n + 1.0) == most * n + most;
    }
  }

  lemma Sign(x: real, n: real)
    requires n > 0.0 && x * n >= 0.0
    ensures x >= 0.0
  {
  }

  lemma Quotient(x: real, n: real, least: real, most: real)
    requires n > 0.0 && least * n <= x <= most * n
    ensures least <= x / n <= most
  {
    var q := x / n;
    assert (q - least) * n == x - least * n && (most - q) * n == most * n - x;
    Sign(q - least, n);
    Sign(most - q, n);
  }

  /** Averages stay between the least and the greatest sample, provided no window is empty. */
  lemma AveragesWithin(s: seq<real>, half: nat, least: real, most: real)
    requires half < |s|
    requires forall i | 0 <= i < |s| :: least <= s[i] <= most
    ensures forall i | 0 <= i < |s| :: Averaged(s, half)[i].Number? && least <= Averaged(s, half)[i].value <= most
  {
    WindowsInside(|s|, half);
    forall i | 0 <= i < |s|
      ensures Averaged(s, half)[i].Number? && least <= Averaged(s, half)[i].value <= most
    {
      var w := Window(|s|, half, i);
      assert NonEmpty(w);
      SumBounds(s, w.0, w.1 + 1, least, most);
      Quotient(Sum(s, w.0, w.1 + 1), (w.1 + 1 - w.0) as real, least, most);
    }
  }

  lemma SumFromLeft(s: seq<real>, lo: int, hi: int)
    requires 0 <= lo < hi <= |s|
    ensures Sum(s, lo, hi) == s[lo] + Sum(s, lo + 1, hi)
    decreases hi - lo
  {
    if lo + 1 < hi {
      SumFromLeft(s, lo, hi - 1);
    }
  }

  predicate OnLine(s: seq<real>, base: real, slope: real) {
    forall i | 0 <= i < |s| :: s[i] == base + slope * i as real
  }

  /** A centred window over a straight line adds up to its middle sample, as often as it is wide. */
  lemma {:induction false} CentredSum(s: seq<real>, base: real, slope: real, i: int, m: nat)
    requires OnLine(s, base, slope) && 0 <= i - m && i + m < |s|
    ensures Sum(s, i - m, i + m + 1) == (2 * m + 1) as real * s[i]
    decreases m
  {
    if m == 0 {
      assert Sum(s, i, i) == 0.0;
    } else {
      CentredSum(s, base, slope, i, m - 1);
      SumFromLeft(s, i - m, i + m);
      assert s[i - m] + s[i + m] == 2.0 * s[i] by {
        LineMiddle(base, slope, i as real, m as real);
      }
      OddMultiple(m, s[i]);
    }
  }

  lemma OddMultiple(m: nat, x: real)
    requires m > 0
    ensures (2 * m + 1) as real * x == (2 * (m - 1) + 1) as real * x + 2.0 * x
  {
    var k := (2 * (m - 1) + 1) as real;
    assert (2 * m + 1) as real == k + 2.0;
    assert (k + 2.0) * x == k * x + 2.0 * x;
  }

  lemma LineMiddle(base: real, slope: real, i: real, m: real)
    ensures (base + slope * (i - m)) + (base + slope * (i + m)) == 2.0 * (base + slope * i)
  {
  }

  lemma CentredMean(s: seq<real>, base: real, slope: real, i: int, m: nat)
    requires OnLine(s, base, slope) && 0 <= i - m && i + m < |s|
    ensures Mean(s, (i - m, i + m)) == Number(s[i])
  {
    CentredSum(s, base, slope, i, m);
    var lo, hi := i - m, i + m;
    assert hi - lo + 1 == 2 * m + 1;
    Cancelled(Sum(s, lo, hi + 1), (hi - lo + 1) as real, s[i]);
  }

  lemma Cancelled(p: real, n: real, x: real)
    requires n > 0.0 && p == n * x
    ensures p / n == x
  {
    var q := p / n;
    assert q * n == p;
    Sign(q - x, n);
    Sign(x - q, n);
  }

  ghost predicate Unchanged(s: seq<real>, half: nat) {
    forall i | 0 <= i < |s| :: Averaged(s, half)[i] == Number(s[i])
  }

  ghost predicate LinesStay(count: nat, half: nat) {
    forall s: seq<real>, base: real, slope: real | |s| == count && OnLine(s, base, slope) :: Unchanged(s, half)
  }

  /** Straight lines are left as they are exactly when the full window fits the waveform. */
  lemma LinesStayWhenWindowFits(count: nat, half: nat)
    ensures LinesStay(count, half) <==> count == 0 || 2 * half <= count
  {
    if count == 0 || 2 * half <= count {
      WindowsCentred(count, half);
      forall s: seq<real>, base: real, slope: real | |s| == count && OnLine(s, base, slope)
        ensures Unchanged(s, half)
      {
        forall i | 0 <= i < count
          ensures Averaged(s, half)[i] == Number(s[i])
        {
          assert Symmetric(count, half, i);
          CentredMean(s, base, slope, i, Reach(count, half, i));
        }
      }
    } else {
      RampChanges(count, half);
    }
  }

  function Ramp(count: nat): (s: seq<real>)
    ensures |s| == count && OnLine(s, 1.0, 1.0)
  {
    seq(count, i => 1.0 + i as real)
  }

  lemma {:induction false} RampSum(count: nat, lo: int, hi: int)
    requires 0 <= lo <= hi <= count
    ensures 2.0 * Sum(Ramp(count), lo, hi) == (hi - lo) as real * (lo + hi + 1) as real
    decreases hi - lo
  {
    if lo < hi {
      RampSum(count, lo, hi - 1);
      OneMoreTerm((hi - lo) as real, (lo + hi + 1) as real, hi as real);
    }
  }

  lemma OneMoreTerm(n: real, t: real, h: real)
    requires n + t == 2.0 * h + 1.0
    ensures (n - 1.0) * (t - 1.0) + 2.0 * h == n * t
  {
  }

  lemma HalfMean(sum: real, n: real, t: real)
    requires n > 0.0 && 2.0 * sum == n * t
    ensures sum / n == t / 2.0
  {
    Cancelled(sum, n, t / 2.0);
  }

  /** A window that is off centre, or empty, does not give back its index's sample of the ramp. */
  lemma OffCentre(count: nat, w: (int, int), i: int)
    requires 0 <= w.0 && w.1 < count && 0 <= i < count
    requires w.0 <= w.1 ==> w.0 + w.1 != 2 * i
    ensures Mean(Ramp(count), w) != Number(1.0 + i as real)
  {
    var n := w.1 - w.0 + 1;
    if n > 0 {
      RampSum(count, w.0, w.1 + 1);
      HalfMean(Sum(Ramp(count), w.0, w.1 + 1), n as real, (w.0 + w.1 + 2) as real);
    } else if n < 0 {
      NothingOver(n as real);
    }
  }

  lemma NothingOver(n: real)
    requires n != 0.0
    ensures 0.0 / n == 0.0
  {
  }

  lemma RampChanges(count: nat, half: nat)
    requires 0 < count < 2 * half
    ensures !LinesStay(count, half)
  {
    var i := if half <= count then half - 1 else 0;
    OffCentre(count, Window(count, half, i), i);
    assert Averaged(Ramp(count), half)[i] != Number(Ramp(count)[i]);
    assert OnLine(Ramp(count), 1.0, 1.0);
    assert !Unchanged(Ramp(count), half);
  }
}
