/** The quintic that carries one ramp table over into the next (calcTransientTable). */
module Transient {
  import opened RampCheck

  /** Coefficients of a polynomial of degree five, highest power first, as the solver returns them. */
  datatype Quintic = Quintic(a5: real, a4: real, a3: real, a2: real, a1: real, a0: real)

  /** What the transient has to meet: value and slope where it leaves the old table and where it
      enters the new one. */
  datatype Ends = Ends(x0: real, x1: real, y0: real, r0: real, r1: real, y1: real)

  /** Each row of the linear system, applied to the coefficients, is the polynomial, its slope or
      its second derivative at one of the ends. */
  function ValueAt(a5: real, a4: real, a3: real, a2: real, a1: real, a0: real, x: real): real {
    a5 * (x * x * x * x * x) + a4 * (x * x * x * x) + a3 * (x * x * x) + a2 * (x * x) + a1 * x + a0
  }

  function SlopeAt(a5: real, a4: real, a3: real, a2: real, a1: real, x: real): real {
    a5 * (5.0 * (x * x * x * x)) + a4 * (4.0 * (x * x * x)) + a3 * (3.0 * (x * x)) + a2 * (2.0 * x) + a1
  }

  function BendAt(a5: real, a4: real, a3: real, a2: real, x: real): real {
    a5 * (20.0 * (x * x * x)) + a4 * (12.0 * (x * x)) + a3 * (6.0 * x) + a2 * 2.0
  }

  /** The six rows of the linear system against its right-hand side. */
  predicate SolvesAt(a5: real, a4: real, a3: real, a2: real, a1: real, a0: real, e: Ends) {
    && ValueAt(a5, a4, a3, a2, a1, a0, e.x0) == e.y0
    && SlopeAt(a5, a4, a3, a2, a1, e.x0) == e.r0
    && BendAt(a5, a4, a3, a2, e.x0) == 0.0
    && BendAt(a5, a4, a3, a2, e.x1) == 0.0
    && SlopeAt(a5, a4, a3, a2, a1, e.x1) == e.r1
    && ValueAt(a5, a4, a3, a2, a1, a0, e.x1) == e.y1
  }

  function Value(q: Quintic, x: real): real {
    ValueAt(q.a5, q.a4, q.a3, q.a2, q.a1, q.a0, x)
  }

  function Slope(q: Quintic, x: real): real {
    SlopeAt(q.a5, q.a4, q.a3, q.a2, q.a1, x)
  }

  function Bend(q: Quintic, x: real): real {
    BendAt(q.a5, q.a4, q.a3, q.a2, x)
  }

  predicate Solves(q: Quintic, e: Ends) {
    SolvesAt(q.a5, q.a4, q.a3, q.a2, q.a1, q.a0, e)
  }

  // Expanding a polynomial around `h`: the arguments on the left are its coefficients in powers
  // of the distance `t` from `h`.

  lemma ExpandValue(a5: real, a4: real, a3: real, a2: real, a1: real, a0: real, h: real, t: real)
    ensures ValueAt(a5,
                    a4 + 5.0 * a5 * h,
                    a3 + 4.0 * a4 * h + 10.0 * a5 * h * h,
                    a2 + 3.0 * a3 * h + 6.0 * a4 * h * h + 10.0 * a5 * h * h * h,
                    SlopeAt(a5, a4, a3, a2, a1, h),
                    ValueAt(a5, a4, a3, a2, a1, a0, h), t)
         == ValueAt(a5, a4, a3, a2, a1, a0, h + t)
  {
  }

  lemma ExpandSlope(a5: real, a4: real, a3: real, a2: real, a1: real, h: real, t: real)
    ensures SlopeAt(a5,
                    a4 + 5.0 * a5 * h,
                    a3 + 4.0 * a4 * h + 10.0 * a5 * h * h,
                    a2 + 3.0 * a3 * h + 6.0 * a4 * h * h + 10.0 * a5 * h * h * h,
                    SlopeAt(a5, a4, a3, a2, a1, h), t)
         == SlopeAt(a5, a4, a3, a2, a1, h + t)
  {
  }

  lemma ExpandBend(a5: real, a4: real, a3: real, a2: real, h: real, t: real)
    ensures BendAt(a5,
                   a4 + 5.0 * a5 * h,
                   a3 + 4.0 * a4 * h + 10.0 * a5 * h * h,
                   a2 + 3.0 * a3 * h + 6.0 * a4 * h * h + 10.0 * a5 * h * h * h, t)
         == BendAt(a5, a4, a3, a2, h + t)
  {
  }

  lemma Cancel(a: real, b: real, l: real)
    requires l != 0.0 && a * l == b * l
    ensures a == b
  {
    assert a == a * l / l;
  }

  lemma Powers(l: real)
    requires l != 0.0
    ensures l * l * l != 0.0 && l * l * l * l != 0.0 && l * l * l * l * l != 0.0
  {
    if l * l * l * l * l == 0.0 { Cancel(l * l * l * l, 0.0, l); }
    if l * l * l * l == 0.0 { Cancel(l * l * l, 0.0, l); }
    if l * l * l == 0.0 { Cancel(l * l, 0.0, l); }
    if l * l == 0.0 { Cancel(l, 0.0, l); }
  }

  lemma Quotient(a: real, b: real)
    requires b != 0.0
    ensures a / b * b == a
  {
  }

  lemma HighCoefficients(l: real, u: real, v: real, w: real) returns (c3: real, c4: real, c5: real)
    requires l != 0.0
    ensures c3 * (l * l * l) == u && c4 * (l * l * l * l) == v && c5 * (l * l * l * l * l) == w
  {
    Powers(l);
    c3 := u / (l * l * l);
    c4 := v / (l * l * l * l);
    c5 := w / (l * l * l * l * l);
    Quotient(u, l * l * l);
    Quotient(v, l * l * l * l);
    Quotient(w, l * l * l * l * l);
  }

  lemma FitSlope(c3: real, c4: real, c5: real, l: real, u: real, v: real, w: real, r: real)
    requires c3 * (l * l * l) == u && c4 * (l * l * l * l) == v && c5 * (l * l * l * l * l) == w
    requires l != 0.0 && 5.0 * w + 4.0 * v + 3.0 * u == r * l
    ensures c5 * (5.0 * (l * l * l * l)) + c4 * (4.0 * (l * l * l)) + c3 * (3.0 * (l * l)) == r
  {
    Cancel(c5 * (5.0 * (l * l * l * l)) + c4 * (4.0 * (l * l * l)) + c3 * (3.0 * (l * l)), r, l);
  }

  lemma FitBend(c3: real, c4: real, c5: real, l: real, u: real, v: real, w: real)
    requires c3 * (l * l * l) == u && c4 * (l * l * l * l) == v && c5 * (l * l * l * l * l) == w
    requires l != 0.0 && 20.0 * w + 12.0 * v + 6.0 * u == 0.0
    ensures c5 * (20.0 * (l * l * l)) + c4 * (12.0 * (l * l)) + c3 * (6.0 * l) == 0.0
  {
    var s := c5 * (20.0 * (l * l * l)) + c4 * (12.0 * (l * l)) + c3 * (6.0 * l);
    assert s * l * l == 0.0;
    Cancel(s * l, 0.0, l);
    Cancel(s, 0.0, l);
  }

  /** The three high coefficients, around the left end, for a gap of length `l`. */
  lemma LocalSolution(y0: real, r0: real, l: real, r1: real, y1: real) returns (c3: real, c4: real, c5: real)
    requires l != 0.0
    ensures ValueAt(c5, c4, c3, 0.0, r0, y0, l) == y1
    ensures SlopeAt(c5, c4, c3, 0.0, r0, l) == r1
    ensures BendAt(c5, c4, c3, 0.0, l) == 0.0
  {
    var d, p := y1 - y0 - r0 * l, (r1 - r0) * l;
    var u, v, w := 10.0 * d - 4.0 * p, 7.0 * p - 15.0 * d, 6.0 * d - 3.0 * p;
    c3, c4, c5 := HighCoefficients(l, u, v, w);
    FitSlope(c3, c4, c5, l, u, v, w, r1 - r0);
    FitBend(c3, c4, c5, l, u, v, w);
  }

  lemma SolutionExists(e: Ends) returns (q: Quintic)
    requires e.x0 != e.x1
    ensures Solves(q, e)
  {
    var c3, c4, c5 := LocalSolution(e.y0, e.r0, e.x1 - e.x0, e.r1, e.y1);
    q := Moved(c5, c4, c3, 0.0, e.r0, e.y0, e);
  }

  /** A solution around the left end, rewritten in powers of `x`. */
  lemma Moved(c5: real, c4: real, c3: real, c2: real, c1: real, c0: real, e: Ends) returns (q: Quintic)
    requires ValueAt(c5, c4, c3, c2, c1, c0, 0.0) == e.y0
    requires SlopeAt(c5, c4, c3, c2, c1, 0.0) == e.r0
    requires BendAt(c5, c4, c3, c2, 0.0) == 0.0
    requires ValueAt(c5, c4, c3, c2, c1, c0, e.x1 - e.x0) == e.y1
    requires SlopeAt(c5, c4, c3, c2, c1, e.x1 - e.x0) == e.r1
    requires BendAt(c5, c4, c3, c2, e.x1 - e.x0) == 0.0
    ensures Solves(q, e)
  {
    var h := -e.x0;
    assert h + e.x0 == 0.0 && h + e.x1 == e.x1 - e.x0;
    ExpandValue(c5, c4, c3, c2, c1, c0, h, e.x0);
    ExpandSlope(c5, c4, c3, c2, c1, h, e.x0);
    ExpandBend(c5, c4, c3, c2, h, e.x0);
    ExpandValue(c5, c4, c3, c2, c1, c0, h, e.x1);
    ExpandSlope(c5, c4, c3, c2, c1, h, e.x1);
    ExpandBend(c5, c4, c3, c2, h, e.x1);
    q := Gathered(c5, c4 + 5.0 * c5 * h, c3 + 4.0 * c4 * h + 10.0 * c5 * h * h,
                  c2 + 3.0 * c3 * h + 6.0 * c4 * h * h + 10.0 * c5 * h * h * h,
                  SlopeAt(c5, c4, c3, c2, c1, h), ValueAt(c5, c4, c3, c2, c1, c0, h), e);
  }

  lemma Gathered(a5: real, a4: real, a3: real, a2: real, a1: real, a0: real, e: Ends) returns (q: Quintic)
    requires SolvesAt(a5, a4, a3, a2, a1, a0, e)
    ensures Solves(q, e) && q == Quintic(a5, a4, a3, a2, a1, a0)
  {
    q := Quintic(a5, a4, a3, a2, a1, a0);
  }

  /** Only the zero polynomial vanishes to second order at both 0 and `l`. */
  lemma LocalZero(d5: real, d4: real, d3: real, d2: real, d1: real, d0: real, l: real)
    requires l != 0.0 && d2 == d1 == d0 == 0.0
    requires ValueAt(d5, d4, d3, d2, d1, d0, l) == 0.0
    requires SlopeAt(d5, d4, d3, d2, d1, l) == 0.0
    requires BendAt(d5, d4, d3, d2, l) == 0.0
    ensures d5 == d4 == d3 == 0.0
  {
    var u, v, w := d3 * (l * l * l), d4 * (l * l * l * l), d5 * (l * l * l * l * l);
    assert 5.0 * w + 4.0 * v + 3.0 * u == SlopeAt(d5, d4, d3, 0.0, 0.0, l) * l;
    assert 20.0 * w + 12.0 * v + 6.0 * u == BendAt(d5, d4, d3, 0.0, l) * (l * l);
    assert u == 0.0 && v == 0.0 && w == 0.0;
    Powers(l);
    Cancel(d3, 0.0, l * l * l);
    Cancel(d4, 0.0, l * l * l * l);
    Cancel(d5, 0.0, l * l * l * l * l);
  }

  lemma OnlyZero(d5: real, d4: real, d3: real, d2: real, d1: real, d0: real, x0: real, x1: real)
    requires x0 != x1
    requires ValueAt(d5, d4, d3, d2, d1, d0, x0) == ValueAt(d5, d4, d3, d2, d1, d0, x1) == 0.0
    requires SlopeAt(d5, d4, d3, d2, d1, x0) == SlopeAt(d5, d4, d3, d2, d1, x1) == 0.0
    requires BendAt(d5, d4, d3, d2, x0) == BendAt(d5, d4, d3, d2, x1) == 0.0
    ensures d5 == d4 == d3 == d2 == d1 == d0 == 0.0
  {
    var l := x1 - x0;
    assert x0 + l == x1;
    ExpandValue(d5, d4, d3, d2, d1, d0, x0, l);
    ExpandSlope(d5, d4, d3, d2, d1, x0, l);
    ExpandBend(d5, d4, d3, d2, x0, l);
    HalfBend(d5, d4, d3, d2, x0);
    LocalZero(d5, d4 + 5.0 * d5 * x0, d3 + 4.0 * d4 * x0 + 10.0 * d5 * x0 * x0,
              d2 + 3.0 * d3 * x0 + 6.0 * d4 * x0 * x0 + 10.0 * d5 * x0 * x0 * x0,
              SlopeAt(d5, d4, d3, d2, d1, x0), ValueAt(d5, d4, d3, d2, d1, d0, x0), l);
    assert d4 == 0.0;
    assert d3 == 0.0;
    assert d2 == 0.0;
  }

  lemma HalfBend(d5: real, d4: real, d3: real, d2: real, h: real)
    ensures BendAt(d5, d4, d3, d2, h) == 2.0 * (d2 + 3.0 * d3 * h + 6.0 * d4 * h * h + 10.0 * d5 * h * h * h)
  {
  }

  lemma TwoSolutions(q: Quintic, p: Quintic, e: Ends)
    requires e.x0 != e.x1 && Solves(q, e) && Solves(p, e)
    ensures q == p
  {
    DifferenceSolves(q.a5, q.a4, q.a3, q.a2, q.a1, q.a0, p.a5, p.a4, p.a3, p.a2, p.a1, p.a0, e.x0);
    DifferenceSolves(q.a5, q.a4, q.a3, q.a2, q.a1, q.a0, p.a5, p.a4, p.a3, p.a2, p.a1, p.a0, e.x1);
    OnlyZero(q.a5 - p.a5, q.a4 - p.a4, q.a3 - p.a3, q.a2 - p.a2, q.a1 - p.a1, q.a0 - p.a0, e.x0, e.x1);
  }

  lemma DifferenceSolves(a5: real, a4: real, a3: real, a2: real, a1: real, a0: real,
                         b5: real, b4: real, b3: real, b2: real, b1: real, b0: real, x: real)
    ensures ValueAt(a5 - b5, a4 - b4, a3 - b3, a2 - b2, a1 - b1, a0 - b0, x)
         == ValueAt(a5, a4, a3, a2, a1, a0, x) - ValueAt(b5, b4, b3, b2, b1, b0, x)
    ensures SlopeAt(a5 - b5, a4 - b4, a3 - b3, a2 - b2, a1 - b1, x)
         == SlopeAt(a5, a4, a3, a2, a1, x) - SlopeAt(b5, b4, b3, b2, b1, x)
    ensures BendAt(a5 - b5, a4 - b4, a3 - b3, a2 - b2, x) == BendAt(a5, a4, a3, a2, x) - BendAt(b5, b4, b3, b2, x)
  {
  }

  /** Exactly one coefficient vector solves the system, whatever the two tables ask for. */
  lemma OneSolution(e: Ends)
    requires e.x0 != e.x1
    ensures exists q :: Solves(q, e)
    ensures forall p, q :: Solves(p, e) && Solves(q, e) ==> p == q
  {
    var s := SolutionExists(e);
    forall p, q | Solves(p, e) && Solves(q, e)
      ensures p == q
    {
      TwoSolutions(p, q, e);
    }
  }

  /** The polynomial that meets the given ends. */
  ghost function Solution(e: Ends): (q: Quintic)
    requires e.x0 != e.x1
    ensures Solves(q, e)
  {
    OneSolution(e);
    var q :| Solves(q, e);
    q
  }

  /** The library call that solves the system, taken by its contract. */
  method LuSolve(e: Ends) returns (q: Quintic)
    requires e.x0 != e.x1
    ensures Solves(q, e) && q == Solution(e)
  {
    OneSolution(e);
    q :| Solves(q, e);
  }

  /** With both ends on one straight line the transient is that line. */
  lemma StraightLine(e: Ends, x: real)
    requires e.x0 != e.x1
    requires e.r0 == e.r1 && e.y1 == e.y0 + e.r0 * (e.x1 - e.x0)
    ensures Value(Solution(e), x) == e.y0 + e.r0 * (x - e.x0)
  {
    var c := e.y0 - e.r0 * e.x0;
    LineIsQuintic(e.r0, c, e.x0);
    LineIsQuintic(e.r0, c, e.x1);
    LineIsQuintic(e.r0, c, x);
    var line := Gathered(0.0, 0.0, 0.0, 0.0, e.r0, c, e);
    TwoSolutions(line, Solution(e), e);
  }

  lemma LineIsQuintic(r: real, c: real, x: real)
    ensures ValueAt(0.0, 0.0, 0.0, 0.0, r, c, x) == r * x + c
    ensures SlopeAt(0.0, 0.0, 0.0, 0.0, r, x) == r
    ensures BendAt(0.0, 0.0, 0.0, 0.0, x) == 0.0
  {
  }

  function EndsOf(prev: Table, next: Table, start: nat): Ends
    requires start + 1 < |prev| && |next| >= 2
  {
    Ends(start as real, |prev| as real, prev[start], prev[start + 1] - prev[start], next[1] - next[0], next[0])
  }

  /** The old table up to `start`, a polynomial from there on. */
  function Spliced(prev: Table, q: Quintic, start: nat): (t: Table)
    ensures |t| == |prev|
  {
    seq(|prev|, i requires 0 <= i < |prev| => if i < start then prev[i] else Value(q, i as real))
  }

  /** The transient table. */
  ghost function TransientTable(prev: Table, next: Table, start: nat): (t: Table)
    requires start + 1 < |prev| && |next| >= 2
    ensures |t| == |prev|
  {
    Spliced(prev, Solution(EndsOf(prev, next, start)), start)
  }

  method Splice(prev: Table, q: Quintic, start: nat) returns (t: Table)
    requires start <= |prev|
    ensures t == Spliced(prev, q, start)
  {
    t := prev;
    var i := start;
    while i < |prev|
      invariant start <= i <= |prev| && |t| == |prev|
      invariant t[..i] == Spliced(prev, q, start)[..i]
      invariant t[i..] == prev[i..]
    {
      t := t[i := Value(q, i as real)];
      i := i + 1;
    }
  }

  /** The computation of a transient. The source's early return for a start point past the table
      cannot be reached: the reads before it already need `start + 1` to be inside the table. */
  method ComputeTransient(prev: Table, next: Table, start: nat) returns (t: Table)
    requires start + 1 < |prev| && |next| >= 2
    ensures t == TransientTable(prev, next, start)
  {
    var x0, x1 := start, |prev|;
    var y0, y1 := prev[x0], next[0];
    var r0, r1 := prev[x0 + 1] - prev[x0], next[1] - next[0];
    var x := LuSolve(Ends(x0 as real, x1 as real, y0, r0, r1, y1));
    t := Splice(prev, x, x0);
  }

  lemma TransientMeets(prev: Table, next: Table, start: nat)
    requires start + 1 < |prev| && |next| >= 2
    ensures TransientTable(prev, next, start)[..start + 1] == prev[..start + 1]
    ensures var q, n := Solution(EndsOf(prev, next, start)), |prev| as real;
      && (forall i: nat :: start <= i < |prev| ==> TransientTable(prev, next, start)[i] == Value(q, i as real))
      && Slope(q, start as real) == prev[start + 1] - prev[start]
      && Value(q, n) == next[0]
      && Slope(q, n) == next[1] - next[0]
      && Bend(q, start as real) == 0.0
      && Bend(q, n) == 0.0
  {
    var e := EndsOf(prev, next, start);
  }

  // The polynomial at small arguments, as linear expressions in its coefficients.

  lemma AtZero(a5: real, a4: real, a3: real, a2: real, a1: real, a0: real, x: real)
    requires x == 0.0
    ensures ValueAt(a5, a4, a3, a2, a1, a0, x) == a0
    ensures SlopeAt(a5, a4, a3, a2, a1, x) == a1
    ensures BendAt(a5, a4, a3, a2, x) == 2.0 * a2
  {
  }

  lemma AtOne(a5: real, a4: real, a3: real, a2: real, a1: real, a0: real, x: real)
    requires x == 1.0
    ensures ValueAt(a5, a4, a3, a2, a1, a0, x) == a5 + a4 + a3 + a2 + a1 + a0
  {
  }

  lemma AtTwo(a5: real, a4: real, a3: real, a2: real, a1: real, a0: real, x: real)
    requires x == 2.0
    ensures ValueAt(a5, a4, a3, a2, a1, a0, x) == 32.0 * a5 + 16.0 * a4 + 8.0 * a3 + 4.0 * a2 + 2.0 * a1 + a0
    ensures SlopeAt(a5, a4, a3, a2, a1, x) == 80.0 * a5 + 32.0 * a4 + 12.0 * a3 + 4.0 * a2 + a1
    ensures BendAt(a5, a4, a3, a2, x) == 160.0 * a5 + 48.0 * a4 + 12.0 * a3 + 2.0 * a2
  {
    assert x * x == 4.0;
    assert x * x * x == 8.0;
    assert x * x * x * x == 16.0;
    assert x * x * x * x * x == 32.0;
  }

  /** The middle of a two-point transient that leaves at the first point. */
  lemma HalfWay(q: Quintic, e: Ends)
    requires e.x0 == 0.0 && e.x1 == 2.0 && Solves(q, e)
    ensures Value(q, 0.0) == e.y0
    ensures Value(q, 1.0) == (e.y0 + e.y1) / 2.0 + 0.3125 * (e.r0 - e.r1)
  {
    AtZero(q.a5, q.a4, q.a3, q.a2, q.a1, q.a0, e.x0);
    AtOne(q.a5, q.a4, q.a3, q.a2, q.a1, q.a0, 1.0);
    AtTwo(q.a5, q.a4, q.a3, q.a2, q.a1, q.a0, e.x1);
  }

  lemma SplicedPair(prev: Table, q: Quintic)
    requires |prev| == 2
    ensures Spliced(prev, q, 0) == [Value(q, 0.0), Value(q, 1.0)]
  {
  }

  lemma TwoPointTransient(prev: Table, next: Table)
    requires |prev| == |next| == 2
    ensures TransientTable(prev, next, 0) ==
      [prev[0], (prev[0] + next[0]) / 2.0 + 0.3125 * ((prev[1] - prev[0]) - (next[1] - next[0]))]
  {
    var e := EndsOf(prev, next, 0);
    HalfWay(Solution(e), e);
    SplicedPair(prev, Solution(e));
  }
}
