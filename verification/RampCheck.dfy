/** The admissibility test of a ramp table (check_ramp_function) and what its verdict means. */
module RampCheck {
  type Table = seq<real>

  datatype Limits = Limits(uniPolar: bool, maxDelta1: real, maxDelta2: real)

  function Abs(x: real): real {
    if x < 0.0 then -x else x
  }

  predicate OutOfRange(y: real, uniPolar: bool) {
    y > 9.9999 || (uniPolar && y < 0.0) || (!uniPolar && y < -10.0)
  }

  predicate Steep(w: Table, i: nat, lim: Limits)
    requires i + 1 < |w|
  {
    Abs(w[i + 1] - w[i]) > lim.maxDelta1
  }

  predicate Sharp(w: Table, i: nat, lim: Limits)
    requires i + 2 < |w|
  {
    Abs((w[i + 1] - w[i]) - (w[i + 2] - w[i + 1])) > lim.maxDelta2
  }

  predicate Good(w: Table, i: nat, lim: Limits)
    requires i + 2 < |w|
  {
    !OutOfRange(w[i], lim.uniPolar) && !Steep(w, i, lim) && !Sharp(w, i, lim)
  }

  /** The number reported for a fault at point `i`: range first, then step, then bend;
      negative where the fault involves the first points of the following table. */
  function FaultCode(w: Table, i: nat, lim: Limits): int
    requires i + 2 < |w|
  {
    if OutOfRange(w[i], lim.uniPolar) then 1
    else if Steep(w, i, lim) then (if i == |w| - 3 then -1 else 2)
    else if i == |w| - 4 then -2
    else if i == |w| - 3 then -3
    else 3
  }

  function ScanFrom(w: Table, i: nat, lim: Limits): int
    requires i + 2 <= |w|
    decreases |w| - i
  {
    if i + 2 == |w| then 0
    else if Good(w, i, lim) then ScanFrom(w, i + 1, lim)
    else FaultCode(w, i, lim)
  }

  /** `v1` followed by the first two points of `v2`. */
  function Closed(v1: Table, v2: Table): Table
    requires |v2| >= 2
  {
    v1 + v2[..2]
  }

  function Check(v1: Table, v2: Table, lim: Limits): int
    requires |v2| >= 2
  {
    ScanFrom(Closed(v1, v2), 0, lim)
  }

  method CheckRampFunction(v1: Table, v2: Table, uniPolar: bool, maxDelta1: real, maxDelta2: real) returns (res: int)
    requires |v1| >= 2 && |v2| >= 2
    ensures res == Check(v1, v2, Limits(uniPolar, maxDelta1, maxDelta2))
  {
    ghost var lim := Limits(uniPolar, maxDelta1, maxDelta2);
    var w := v1;
    w := w + [v2[0]];
    w := w + [v2[1]];
    assert w == Closed(v1, v2);
    var x0, x1, x2 := 0, 1, 2;
    while x0 != |w| - 2
      invariant 0 <= x0 <= |w| - 2 && x1 == x0 + 1 && x2 == x0 + 2
      invariant ScanFrom(w, x0, lim) == ScanFrom(w, 0, lim)
      decreases |w| - x0
    {
      if w[x0] > 9.9999 || (uniPolar && w[x0] < 0.0) || (!uniPolar && w[x0] < -10.0) {
        return 1;
      }
      if Abs(w[x1] - w[x0]) > maxDelta1 {
        if x0 == |w| - 3 {
          return -1;
        }
        return 2;
      }
      if Abs((w[x1] - w[x0]) - (w[x2] - w[x1])) > maxDelta2 {
        if x0 == |w| - 4 {
          return -2;
        }
        if x0 == |w| - 3 {
          return -3;
        }
        return 3;
      }
      x0, x1, x2 := x0 + 1, x1 + 1, x2 + 1;
    }
    return 0;
  }

  ghost predicate FirstFault(w: Table, i: nat, lim: Limits) {
    i + 2 < |w| && !Good(w, i, lim) && forall k: nat :: k < i ==> Good(w, k, lim)
  }

  lemma {:induction false} ScanMeaning(w: Table, i: nat, lim: Limits)
    requires i + 2 <= |w|
    requires forall k: nat :: k < i ==> Good(w, k, lim)
    ensures ScanFrom(w, i, lim) == 0 <==> forall k: nat :: k + 2 < |w| ==> Good(w, k, lim)
    ensures ScanFrom(w, i, lim) != 0 ==> exists k: nat :: FirstFault(w, k, lim) && ScanFrom(w, i, lim) == FaultCode(w, k, lim)
    decreases |w| - i
  {
    if i + 2 < |w| {
      if Good(w, i, lim) {
        ScanMeaning(w, i + 1, lim);
      } else {
        assert FirstFault(w, i, lim);
      }
    }
  }

  /** Zero exactly when no point of the closed sequence is at fault; otherwise the verdict is
      that of the earliest faulty point, whichever way that point is found. */
  lemma CheckMeaning(v1: Table, v2: Table, lim: Limits)
    requires |v1| >= 2 && |v2| >= 2
    ensures Check(v1, v2, lim) == 0 <==> forall k: nat :: k < |v1| ==> Good(Closed(v1, v2), k, lim)
    ensures forall k: nat :: FirstFault(Closed(v1, v2), k, lim) ==> Check(v1, v2, lim) == FaultCode(Closed(v1, v2), k, lim)
    ensures Check(v1, v2, lim) != 0 ==> exists k: nat :: FirstFault(Closed(v1, v2), k, lim)
  {
    ScanMeaning(Closed(v1, v2), 0, lim);
  }

  /** The verdict is negative exactly when the earliest fault can be blamed on the junction: the
      closing step at the last point, or a bend at one of the last two. */
  lemma NegativeMeaning(v1: Table, v2: Table, lim: Limits)
    requires |v1| >= 2 && |v2| >= 2
    ensures var w := Closed(v1, v2); var n := |v1|;
      Check(v1, v2, lim) < 0 <==>
      exists k: nat :: FirstFault(w, k, lim) && !OutOfRange(w[k], lim.uniPolar) &&
                  if Steep(w, k, lim) then k == n - 1 else n - 2 <= k
    ensures Check(v1, v2, lim) in {-3, -2, -1, 0, 1, 2, 3}
  {
    CheckMeaning(v1, v2, lim);
    var w := Closed(v1, v2);
    if Check(v1, v2, lim) != 0 {
      var k: nat :| FirstFault(w, k, lim);
      assert forall j: nat :: FirstFault(w, j, lim) ==> j == k;
    }
  }

  /** When a table closes well on itself, the junction to any other table can only be faulted
      negatively: every positive verdict is about `v1` alone. */
  lemma SelfCheckedJunction(v1: Table, v2: Table, lim: Limits)
    requires |v1| >= 2 && |v2| >= 2
    requires Check(v1, v1, lim) == 0
    ensures Check(v1, v2, lim) in {0, -1, -2, -3}
  {
    CheckMeaning(v1, v1, lim);
    CheckMeaning(v1, v2, lim);
    var a, b := Closed(v1, v1), Closed(v1, v2);
    if Check(v1, v2, lim) != 0 {
      var k: nat :| FirstFault(b, k, lim);
      assert Good(a, k, lim);
    }
  }

  /** A fault strictly inside `v1` makes the verdict positive whatever table follows. */
  lemma InnerFault(v1: Table, v2: Table, lim: Limits, i: nat)
    requires |v1| >= 2 && |v2| >= 2
    requires i + 2 < |v1| && !Good(v1, i, lim)
    ensures Check(v1, v2, lim) > 0
  {
    CheckMeaning(v1, v2, lim);
    var w := Closed(v1, v2);
    assert !Good(w, i, lim);
    var k: nat :| FirstFault(w, k, lim);
    assert k <= i;
  }

  // The same in plain inequalities.

  /** From `lo` to 9.9999, a step of at most `d1` and a bend of at most `d2` at point `i`. */
  predicate Tame(w: Table, i: nat, lo: real, d1: real, d2: real)
    requires i + 2 < |w|
  {
    && lo <= w[i] <= 9.9999
    && -d1 <= w[i + 1] - w[i] <= d1
    && -d2 <= w[i] - 2.0 * w[i + 1] + w[i + 2] <= d2
  }

  lemma GoodIsTame(w: Table, i: nat, lim: Limits)
    requires i + 2 < |w|
    ensures Good(w, i, lim) <==> Tame(w, i, if lim.uniPolar then 0.0 else -10.0, lim.maxDelta1, lim.maxDelta2)
  {
  }

  lemma ZeroIsTame(v1: Table, v2: Table, lim: Limits, lo: real)
    requires |v1| >= 2 && |v2| >= 2 && lo == if lim.uniPolar then 0.0 else -10.0
    ensures Check(v1, v2, lim) == 0 <==> forall k: nat | k < |v1| :: Tame(Closed(v1, v2), k, lo, lim.maxDelta1, lim.maxDelta2)
  {
    CheckMeaning(v1, v2, lim);
    var w := Closed(v1, v2);
    forall k: nat | k < |v1|
      ensures Good(w, k, lim) <==> Tame(w, k, lo, lim.maxDelta1, lim.maxDelta2)
    {
      GoodIsTame(w, k, lim);
    }
  }

  /** Every value, step and bend within its bounds. */
  predicate WithinBounds(w: Table, n: nat, lo: real, d1: real, d2: real)
    requires n + 2 <= |w|
  {
    && (forall k | 0 <= k < n :: lo <= w[k] <= 9.9999)
    && (forall k | 0 <= k < n :: -d1 <= w[k + 1] - w[k] <= d1)
    && (forall k | 0 <= k < n :: -d2 <= w[k] - 2.0 * w[k + 1] + w[k + 2] <= d2)
  }

  lemma AllTame(w: Table, n: nat, lo: real, d1: real, d2: real)
    requires n + 2 <= |w|
    ensures WithinBounds(w, n, lo, d1, d2) <==> forall k: nat | k < n :: Tame(w, k, lo, d1, d2)
  {
    if forall k: nat | k < n :: Tame(w, k, lo, d1, d2) {
      forall k | 0 <= k < n
        ensures lo <= w[k] <= 9.9999 && -d1 <= w[k + 1] - w[k] <= d1 && -d2 <= w[k] - 2.0 * w[k + 1] + w[k + 2] <= d2
      {
        assert Tame(w, k, lo, d1, d2);
      }
    }
  }

  /** Zero exactly when every point of `v1` is between 0 V, or -10 V, and 9.9999 V, and each step and bend
      within its limit, up to the first two points of `v2`. */
  lemma ZeroMeans(v1: Table, v2: Table, lim: Limits)
    requires |v1| >= 2 && |v2| >= 2
    ensures Check(v1, v2, lim) == 0 <==>
      WithinBounds(v1 + [v2[0], v2[1]], |v1|, if lim.uniPolar then 0.0 else -10.0, lim.maxDelta1, lim.maxDelta2)
  {
    var w, lo := Closed(v1, v2), if lim.uniPolar then 0.0 else -10.0;
    ZeroIsTame(v1, v2, lim, lo);
    AllTame(w, |v1|, lo, lim.maxDelta1, lim.maxDelta2);
    assert w == v1 + [v2[0], v2[1]];
  }

  /** Otherwise the earliest point at fault decides: 1 for its range; 2 for its step, -1 at the last point;
      3 for its bend, -2 at the last point but one and -3 at the last. */
  lemma CodesMean(v1: Table, v2: Table, lim: Limits, i: nat)
    requires |v1| >= 2 && |v2| >= 2 && i < |v1|
    requires var w, lo := v1 + [v2[0], v2[1]], if lim.uniPolar then 0.0 else -10.0;
      (forall k: nat | k < i :: Tame(w, k, lo, lim.maxDelta1, lim.maxDelta2)) && !Tame(w, i, lo, lim.maxDelta1, lim.maxDelta2)
    ensures var w, n, lo := v1 + [v2[0], v2[1]], |v1|, if lim.uniPolar then 0.0 else -10.0;
      Check(v1, v2, lim) ==
        if w[i] < lo || 9.9999 < w[i] then 1
        else if w[i + 1] - w[i] > lim.maxDelta1 || w[i] - w[i + 1] > lim.maxDelta1 then (if i == n - 1 then -1 else 2)
        else if i == n - 2 then -2
        else if i == n - 1 then -3
        else 3
  {
    CheckMeaning(v1, v2, lim);
    var w := Closed(v1, v2);
    assert w == v1 + [v2[0], v2[1]];
    forall k: nat | k <= i
      ensures Good(w, k, lim) <==> Tame(w, k, if lim.uniPolar then 0.0 else -10.0, lim.maxDelta1, lim.maxDelta2)
    {
      GoodIsTame(w, k, lim);
    }
    assert FirstFault(w, i, lim);
  }

  /** A constant table follows itself exactly when its value is in range. */
  lemma ConstantTable(y: real, n: nat, lim: Limits)
    requires n >= 2 && lim.maxDelta1 >= 0.0 && lim.maxDelta2 >= 0.0
    ensures var t := seq(n, _ => y);
      Check(t, t, lim) == if y <= 9.9999 && (if lim.uniPolar then 0.0 <= y else -10.0 <= y) then 0 else 1
  {
    var t := seq(n, _ => y);
    if y <= 9.9999 && (if lim.uniPolar then 0.0 <= y else -10.0 <= y) {
      ZeroMeans(t, t, lim);
      assert forall k | 0 <= k < n + 2 :: (t + [y, y])[k] == y;
    } else {
      CodesMean(t, t, lim, 0);
    }
  }
}
