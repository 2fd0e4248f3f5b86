/** Tables for which a transient that leaves the old table at its very first point is not safe: nothing
    checks the bend where it sets out. */
module StartPoint {
  import opened RampCheck
  import opened Transient
  import opened TableController
  import opened RampSafety

  /** Both tables pass on their own, the first after the zeros; the second needs a transient from the
      first point, which passes as well. Yet playing all of them in turn is not safe. */
  ghost predicate Unlucky(n: nat, a: Table, b: Table, tr: Table, lim: Limits)
    requires n >= 2
  {
    && |a| == |b| == n && !lim.uniPolar && lim.maxDelta1 >= 0.0 && lim.maxDelta2 >= 0.0
    && Check(Zeros(n), a, lim) == 0 && Check(a, a, lim) == 0
    && Check(b, b, lim) == 0 && Check(a, b, lim) < 0
    && tr == TransientTable(a, b, 0) && Check(tr, b, lim) == 0
    && !Safe(Zeros(n) + a + tr + b, lim)
  }

  // Two points: a bend of 2.875 under a limit of 2.

  lemma UnluckyPair() returns (a: Table, b: Table, tr: Table, lim: Limits)
    ensures Unlucky(2, a, b, tr, lim)
  {
    a, b, tr, lim := [0.0, 1.0], [2.5, 1.5], [0.0, 1.875], Limits(false, 10.0, 2.0);
    UnluckyNumbers(a, b, tr, lim);
    PairTransient(a, b);
  }

  lemma PairTransient(a: Table, b: Table)
    requires a == [0.0, 1.0] && b == [2.5, 1.5]
    ensures TransientTable(a, b, 0) == [0.0, 1.875]
  {
    TwoPointTransient(a, b);
  }

  lemma UnluckyNumbers(a: Table, b: Table, tr: Table, lim: Limits)
    requires a == [0.0, 1.0] && b == [2.5, 1.5] && tr == [0.0, 1.875] && lim == Limits(false, 10.0, 2.0)
    ensures Check(Zeros(2), a, lim) == 0 && Check(a, a, lim) == 0 && Check(b, b, lim) == 0 && Check(a, b, lim) < 0
    ensures Check(tr, b, lim) == 0
    ensures !Safe(Zeros(2) + a + tr + b, lim)
  {
    CheckPair(Zeros(2), a, lim);
    CheckPair(a, a, lim);
    CheckPair(b, b, lim);
    CheckPair(a, b, lim);
    CheckPair(tr, b, lim);
    assert Sharp(Zeros(2) + a + tr + b, 3, lim);
  }

  lemma CheckPair(v1: Table, v2: Table, lim: Limits)
    requires |v1| == |v2| == 2
    ensures var w := Closed(v1, v2);
      Check(v1, v2, lim) == if !Good(w, 0, lim) then FaultCode(w, 0, lim)
                            else if !Good(w, 1, lim) then FaultCode(w, 1, lim)
                            else 0
  {
    var w := Closed(v1, v2);
    assert ScanFrom(w, 2, lim) == 0;
    assert ScanFrom(w, 1, lim) == if Good(w, 1, lim) then 0 else FaultCode(w, 1, lim);
  }

  // More points, all in units of `d`, the n-th part of one.

  /** Falls at once by nearly half a unit and comes back at the end by a little more than that. */
  function Dip(n: nat, d: real): (t: Table)
    ensures |t| == n
  {
    seq(n, i => if i == 0 then 0.0 else if i == 1 then -7.0 * d / 16.0
                else if i == n - 1 then -9.0 * d / 16.0 else -d / 2.0)
  }

  const LANDING: real := -15.0 / 32.0

  /** Half a unit below its first point everywhere else. */
  function Shelf(n: nat, d: real): (t: Table)
    ensures |t| == n
  {
    seq(n, i => if i == 0 then LANDING else LANDING - d / 2.0)
  }

  function UnitLimits(d: real): Limits {
    Limits(false, 5.0 * d / 8.0, d)
  }

  /** The polynomial between the two: a straight fall, bent a little by a quartic. */
  function Curve(n: real, d: real, k: real, x: real): real {
    ValueAt(0.0, k, -2.0 * k * n, 0.0, -7.0 * d / 16.0, 0.0, x)
  }

  lemma Units(n: nat) returns (d: real, k: real)
    requires n >= 3
    ensures d * n as real == 1.0 && 0.0 < d <= 1.0 / 3.0
    ensures k > 0.0 && k * (n as real * n as real * n as real) == d / 32.0
  {
    var m := n as real;
    d := 1.0 / m;
    Quotient(1.0, m);
    Powers(m);
    k := d / 32.0 / (m * m * m);
    Quotient(d / 32.0, m * m * m);
  }

  lemma DipPasses(n: nat, d: real)
    requires n >= 3 && 0.0 < d <= 1.0 / 3.0
    ensures Check(Zeros(n), Dip(n, d), UnitLimits(d)) == 0
    ensures Check(Dip(n, d), Dip(n, d), UnitLimits(d)) == 0
  {
    CheckMeaning(Zeros(n), Dip(n, d), UnitLimits(d));
    CheckMeaning(Dip(n, d), Dip(n, d), UnitLimits(d));
  }

  lemma ShelfPasses(n: nat, d: real)
    requires n >= 3 && 0.0 < d <= 1.0 / 3.0
    ensures Check(Shelf(n, d), Shelf(n, d), UnitLimits(d)) == 0
  {
    CheckMeaning(Shelf(n, d), Shelf(n, d), UnitLimits(d));
  }

  /** The step down from the dip to the shelf is too large. */
  lemma NeedsTransientBetween(n: nat, d: real)
    requires n >= 3 && 0.0 < d <= 1.0 / 3.0
    ensures Check(Dip(n, d), Shelf(n, d), UnitLimits(d)) < 0
  {
    var w, lim := Closed(Dip(n, d), Shelf(n, d)), UnitLimits(d);
    NegativeMeaning(Dip(n, d), Shelf(n, d), lim);
    assert forall i: nat | i < n - 2 :: Good(w, i, lim);
    assert Steep(w, n - 1, lim);
    if Good(w, n - 2, lim) {
      assert FirstFault(w, n - 1, lim);
    } else {
      assert FirstFault(w, n - 2, lim);
    }
  }

  lemma CurveEnds(m: real, d: real, k: real)
    requires d * m == 1.0 && k * (m * m * m) == d / 32.0
    ensures SolvesAt(0.0, k, -2.0 * k * m, 0.0, -7.0 * d / 16.0, 0.0, Ends(0.0, m, 0.0, -7.0 * d / 16.0, -d / 2.0, LANDING))
  {
    AtZero(0.0, k, -2.0 * k * m, 0.0, -7.0 * d / 16.0, 0.0, 0.0);
    assert BendAt(0.0, k, -2.0 * k * m, 0.0, m) == 0.0;
    assert SlopeAt(0.0, k, -2.0 * k * m, 0.0, -7.0 * d / 16.0, m) == -2.0 * (k * (m * m * m)) - 7.0 * d / 16.0;
    assert ValueAt(0.0, k, -2.0 * k * m, 0.0, -7.0 * d / 16.0, 0.0, m) == -(k * (m * m * m)) * m - 7.0 / 16.0 * (d * m);
    assert d / 32.0 * m == 1.0 / 32.0;
  }

  lemma Product(a: real, b: real, c: real)
    requires a >= 0.0 && b <= c
    ensures a * b <= a * c
  {
  }

  /** Differences of powers one apart. */
  lemma PowerSteps(m: real, x: real, y: real)
    requires 0.0 <= x && y == x + 1.0 && y <= m
    ensures 0.0 <= y * y * y - x * x * x <= 3.0 * (m * m)
    ensures 0.0 <= y * y * y * y - x * x * x * x <= 4.0 * (m * m * m)
  {
    Product(x, x, m);
    Product(m, x, m);
    Product(x, y, m);
    Product(y, y, m);
    Product(m, y, m);
    var p, q := x + y, x * x + y * y;
    assert y * y * y - x * x * x == q + x * y;
    assert y * y * y * y - x * x * x * x == p * q;
    Product(p, q, 2.0 * (m * m));
    Product(m * m, p, 2.0 * m);
  }

  lemma CurveStep(m: real, d: real, k: real, x: real, y: real)
    requires k * (m * m * m) == d / 32.0 && k > 0.0 && d > 0.0
    requires 0.0 <= x && y == x + 1.0 && y <= m
    ensures -5.0 * d / 8.0 <= Curve(m, d, k, y) - Curve(m, d, k, x) <= -5.0 * d / 16.0
  {
    PowerSteps(m, x, y);
    var step := StepParts(m, d, k, x, y, y - x);
  }

  lemma FourthShare(m: real, d: real, k: real, x: real, y: real) returns (u: real)
    requires k * (m * m * m) == d / 32.0 && k > 0.0
    requires 0.0 <= y * y * y * y - x * x * x * x <= 4.0 * (m * m * m)
    ensures u == k * (y * y * y * y) - k * (x * x * x * x) && 0.0 <= u <= d / 8.0
  {
    u := Share(k, y * y * y * y, x * x * x * x, 4.0, m * m * m, d);
  }

  lemma CubeShare(m: real, d: real, k: real, x: real, y: real) returns (v: real)
    requires k * (m * m * m) == d / 32.0 && k > 0.0 && m >= 0.0
    requires 0.0 <= y * y * y - x * x * x <= 3.0 * (m * m)
    ensures v == k * m * (y * y * y) - k * m * (x * x * x) && 0.0 <= v <= 3.0 * d / 32.0
  {
    assert k * m * (m * m) == k * (m * m * m);
    v := Share(k * m, y * y * y, x * x * x, 3.0, m * m, d);
  }

  /** The part of a step that one power contributes. */
  lemma Share(k: real, a: real, b: real, n: real, c: real, d: real) returns (u: real)
    requires k >= 0.0 && 0.0 <= a - b <= n * c && k * c == d / 32.0
    ensures u == k * a - k * b && 0.0 <= u <= n * (d / 32.0)
  {
    u := k * (a - b);
    Product(k, a - b, n * c);
    Product(k, 0.0, a - b);
    Times(k, n, c, d / 32.0);
  }

  lemma Times(k: real, n: real, c: real, e: real)
    requires k * c == e
    ensures k * (n * c) == n * e
  {
    assert k * (n * c) == n * (k * c);
  }

  lemma StepParts(m: real, d: real, k: real, x: real, y: real, one: real) returns (step: real)
    requires k * (m * m * m) == d / 32.0 && k > 0.0 && m >= 0.0 && one == y - x == 1.0
    requires 0.0 <= y * y * y - x * x * x <= 3.0 * (m * m)
    requires 0.0 <= y * y * y * y - x * x * x * x <= 4.0 * (m * m * m)
    ensures step == Curve(m, d, k, y) - Curve(m, d, k, x)
    ensures -5.0 * d / 8.0 <= step <= -5.0 * d / 16.0
  {
    var u := FourthShare(m, d, k, x, y);
    var v := CubeShare(m, d, k, x, y);
    step := Difference(m, d, k, x, y, one, u, v);
    Bounds(u, v, d, one, step);
  }

  lemma Difference(m: real, d: real, k: real, x: real, y: real, one: real, u: real, v: real) returns (step: real)
    requires one == y - x
    requires u == k * (y * y * y * y) - k * (x * x * x * x) && v == k * m * (y * y * y) - k * m * (x * x * x)
    ensures step == Curve(m, d, k, y) - Curve(m, d, k, x)
    ensures step == u - 2.0 * v - 7.0 * d / 16.0 * one
  {
    step := Curve(m, d, k, y) - Curve(m, d, k, x);
  }

  lemma Bounds(u: real, v: real, d: real, one: real, step: real)
    requires 0.0 <= u <= d / 8.0 && 0.0 <= v <= 3.0 * d / 32.0 && one == 1.0
    requires step == u - 2.0 * v - 7.0 * d / 16.0 * one
    ensures -5.0 * d / 8.0 <= step <= -5.0 * d / 16.0
  {
  }

  lemma OneStepDown(p: real, q: real, d: real, x: real, y: real)
    requires -5.0 / 8.0 * (d * x) <= p <= 0.0 && y == x + 1.0 && d > 0.0
    requires -5.0 * d / 8.0 <= q - p <= -5.0 * d / 16.0
    ensures -5.0 / 8.0 * (d * y) <= q <= 0.0
  {
    var u, v := d * x, d * y;
    assert v == u + d;
    Descend(p, q, d, u, v);
  }

  lemma Descend(p: real, q: real, d: real, u: real, v: real)
    requires -5.0 / 8.0 * u <= p <= 0.0 && v == u + d && d > 0.0
    requires -5.0 * d / 8.0 <= q - p <= -5.0 * d / 16.0
    ensures -5.0 / 8.0 * v <= q <= 0.0
  {
  }

  /** The curve leaves its first point more steeply than its slope there. */
  lemma CurveStart(m: real, d: real, k: real)
    requires k > 0.0 && m >= 3.0
    ensures Curve(m, d, k, 0.0) == 0.0
    ensures Curve(m, d, k, 1.0) < -7.0 * d / 16.0
  {
    AtZero(0.0, k, -2.0 * k * m, 0.0, -7.0 * d / 16.0, 0.0, 0.0);
    AtOne(0.0, k, -2.0 * k * m, 0.0, -7.0 * d / 16.0, 0.0, 1.0);
    Product(k, 3.0, m);
  }

  /** The table of the curve. */
  ghost function Bridge(n: nat, d: real, k: real): Table {
    seq(n, i requires 0 <= i < n => Curve(n as real, d, k, i as real))
  }

  lemma BridgeIsTransient(n: nat, d: real, k: real)
    requires n >= 3 && d * n as real == 1.0 && k * (n as real * n as real * n as real) == d / 32.0
    ensures TransientTable(Dip(n, d), Shelf(n, d), 0) == Bridge(n, d, k)
  {
    var e, m := EndsOf(Dip(n, d), Shelf(n, d), 0), n as real;
    CurveEnds(m, d, k);
    assert e == Ends(0.0, m, 0.0, -7.0 * d / 16.0, -d / 2.0, LANDING);
    var q := Gathered(0.0, k, -2.0 * k * m, 0.0, -7.0 * d / 16.0, 0.0, e);
    TwoSolutions(q, Solution(e), e);
    SameCurve(n, Dip(n, d), q, d, k);
  }

  lemma SameCurve(n: nat, a: Table, q: Quintic, d: real, k: real)
    requires |a| == n && q == Quintic(0.0, k, -2.0 * k * n as real, 0.0, -7.0 * d / 16.0, 0.0)
    ensures Spliced(a, q, 0) == Bridge(n, d, k)
  {
    forall i | 0 <= i < n
      ensures Spliced(a, q, 0)[i] == Bridge(n, d, k)[i]
    {
      assert Value(q, i as real) == Curve(n as real, d, k, i as real);
    }
  }

  /** The curve followed by the shelf: a sequence of steps that are all much alike. */
  lemma BridgePasses(n: nat, d: real, k: real)
    requires n >= 3 && d * n as real == 1.0 && 0.0 < d <= 1.0 / 3.0 && k > 0.0
    requires k * (n as real * n as real * n as real) == d / 32.0
    ensures Check(Bridge(n, d, k), Shelf(n, d), UnitLimits(d)) == 0
  {
    var w := Closed(Bridge(n, d, k), Shelf(n, d));
    forall i: nat | i < n
      ensures Falling(w, i, d)
    {
      BridgeFalls(n, d, k, i);
    }
    CurveStart(n as real, d, k);
    FallingPasses(w, n, d);
    CheckMeaning(Bridge(n, d, k), Shelf(n, d), UnitLimits(d));
  }

  predicate Falling(w: Table, i: nat, d: real) {
    i + 1 < |w| && -5.0 * d / 8.0 <= w[i + 1] - w[i] <= -5.0 * d / 16.0
  }

  lemma {:induction false} FallingRange(w: Table, d: real, i: nat)
    requires d > 0.0 && i < |w| && w[0] == 0.0 && forall j: nat | j < i :: Falling(w, j, d)
    ensures -5.0 / 8.0 * (d * i as real) <= w[i] <= 0.0
  {
    if i > 0 {
      FallingRange(w, d, i - 1);
      assert Falling(w, i - 1, d);
      OneStepDown(w[i - 1], w[i], d, (i - 1) as real, i as real);
    }
  }

  /** Falling steps are too alike to bend sharply. */
  lemma FallingPasses(w: Table, n: nat, d: real)
    requires |w| == n + 2 && n >= 3 && d * n as real == 1.0 && d > 0.0
    requires w[0] == 0.0 && w[n + 1] - w[n] == -d / 2.0
    requires forall i: nat | i < n :: Falling(w, i, d)
    ensures forall i: nat | i < n :: Good(w, i, UnitLimits(d))
  {
    assert Falling(w, n, d);
    forall i: nat | i < n
      ensures Good(w, i, UnitLimits(d))
    {
      FallingRange(w, d, i);
      Product(d, i as real, n as real);
      assert Falling(w, i, d) && Falling(w, i + 1, d);
    }
  }

  lemma BridgeFalls(n: nat, d: real, k: real, i: nat)
    requires n >= 3 && d * n as real == 1.0 && d > 0.0 && k > 0.0
    requires k * (n as real * n as real * n as real) == d / 32.0 && i < n
    ensures Falling(Closed(Bridge(n, d, k), Shelf(n, d)), i, d)
  {
    BridgeAt(n, d, k, i);
    BridgeAt(n, d, k, i + 1);
    CurveStep(n as real, d, k, i as real, (i + 1) as real);
  }

  lemma BridgeAt(n: nat, d: real, k: real, i: nat)
    requires n >= 3 && d * n as real == 1.0 && i <= n
    requires k * (n as real * n as real * n as real) == d / 32.0
    ensures Closed(Bridge(n, d, k), Shelf(n, d))[i] == Curve(n as real, d, k, i as real)
  {
    if i == n {
      CurveLands(n as real, d, k);
    }
  }

  lemma CurveLands(m: real, d: real, k: real)
    requires d * m == 1.0 && k * (m * m * m) == d / 32.0
    ensures Curve(m, d, k, m) == LANDING
  {
    CurveEnds(m, d, k);
  }

  lemma SharpSeam(n: nat, d: real, k: real)
    requires n >= 3 && k > 0.0
    ensures !Safe(Zeros(n) + Dip(n, d) + Bridge(n, d, k) + Shelf(n, d), UnitLimits(d))
  {
    var t := Zeros(n) + Dip(n, d) + Bridge(n, d, k) + Shelf(n, d);
    CurveStart(n as real, d, k);
    assert t[2 * n - 1] == -9.0 * d / 16.0 && t[2 * n] == 0.0 && t[2 * n + 1] < -7.0 * d / 16.0;
    assert Sharp(t, 2 * n - 1, UnitLimits(d));
  }

  lemma UnluckyTables(n: nat) returns (a: Table, b: Table, tr: Table, lim: Limits)
    requires n >= 3
    ensures Unlucky(n, a, b, tr, lim)
  {
    var d, k := Units(n);
    a, b, tr, lim := Dip(n, d), Shelf(n, d), Bridge(n, d, k), UnitLimits(d);
    DipPasses(n, d);
    ShelfPasses(n, d);
    NeedsTransientBetween(n, d);
    BridgeIsTransient(n, d, k);
    BridgePasses(n, d, k);
    SharpSeam(n, d, k);
  }
}
