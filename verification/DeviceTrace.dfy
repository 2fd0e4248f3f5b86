/** The whole-run claim in terms of the bytes sent: what the device makes of its payloads. */
module DeviceTrace {
  import opened Bytes
  import opened RampCheck
  import opened TableController
  import opened RampSafety
  import opened PlayedTables
  import opened Packing

  /** The samples the device reads out of a payload. */
  function Heard(payload: seq<byte>, n: nat, uniPolar: bool): (t: Table)
    requires |payload| == 4 * POINTS && n < POINTS
    ensures |t| == n
  {
    seq(n, k requires 0 <= k < n => Decoded(ReadWord(Cleared(payload), k), uniPolar))
  }

  /** What the device plays for one payload: a transient, by its mode byte, once, a target `reps` times. */
  function HeardItem(payload: seq<byte>, n: nat, uniPolar: bool, reps: nat): Table
    requires |payload| == 4 * POINTS && n < POINTS
  {
    if payload[4] == 2 then Heard(payload, n, uniPolar) else Repeat(Heard(payload, n, uniPolar), reps)
  }

  predicate AllWhole(ps: seq<seq<byte>>) {
    forall i | 0 <= i < |ps| :: |ps[i]| == 4 * POINTS
  }

  /** And for several. */
  function HeardAll(ps: seq<seq<byte>>, n: nat, uniPolar: bool, reps: seq<nat>): Table
    requires |reps| == |ps| && AllWhole(ps) && n < POINTS
  {
    if ps == [] then []
    else
      var k := |ps| - 1;
      HeardAll(ps[..k], n, uniPolar, reps[..k]) + HeardItem(ps[k], n, uniPolar, reps[k])
  }

  /** A table sample by sample through the code and back. */
  function Quantised(t: Table, uniPolar: bool): (q: Table)
    ensures |q| == |t|
  {
    seq(|t|, i requires 0 <= i < |t| => Decoded(Code(t[i], uniPolar), uniPolar))
  }

  lemma QuantisedConcat(a: Table, b: Table, uniPolar: bool)
    ensures Quantised(a + b, uniPolar) == Quantised(a, uniPolar) + Quantised(b, uniPolar)
  {
  }

  lemma {:induction false} QuantisedRepeat(t: Table, reps: nat, uniPolar: bool)
    ensures Quantised(Repeat(t, reps), uniPolar) == Repeat(Quantised(t, uniPolar), reps)
  {
    if reps > 0 {
      QuantisedRepeat(t, reps - 1, uniPolar);
      QuantisedConcat(Repeat(t, reps - 1), t, uniPolar);
    }
  }

  predicate InRange(t: Table, n: nat, uniPolar: bool) {
    |t| == n && forall i | 0 <= i < n :: !OutOfRange(t[i], uniPolar)
  }

  /** As many of its first samples as are read come back through the code; only the last word of a full
      buffer is not among them. */
  lemma HeardPrefix(t: Table, m: nat, uniPolar: bool, mode: byte)
    requires 2 <= |t| <= POINTS && InRange(t, |t|, uniPolar) && m <= |t| && m < POINTS
    ensures Heard(Payload(t, uniPolar, mode), m, uniPolar) == Quantised(t[..m], uniPolar)
  {
    forall k | 0 <= k < m
      ensures ReadWord(Cleared(Payload(t, uniPolar, mode)), k) == Code(t[k], uniPolar)
    {
      WordsSurvive(t, uniPolar, mode, k);
    }
  }

  lemma HeardPayload(t: Table, n: nat, uniPolar: bool, mode: byte)
    requires 2 <= n < POINTS && InRange(t, n, uniPolar)
    ensures Heard(Payload(t, uniPolar, mode), n, uniPolar) == Quantised(t, uniPolar)
  {
    HeardPrefix(t, n, uniPolar, mode);
    assert t[..n] == t;
  }

  lemma AllOnes()
    ensures FromBE([255, 255, 255, 255]) == 0xFFFF_FFFF
  {
    assert FromBE([]) == 0 && [255][..0] == [] && [255, 255][..1] == [255];
    assert [255, 255, 255][..2] == [255, 255] && [255, 255, 255, 255][..3] == [255, 255, 255];
    assert FromBE([255]) == 255;
    assert FromBE([255, 255]) == 0xFFFF;
    assert FromBE([255, 255, 255]) == 0xFF_FFFF;
  }

  lemma LastWordIsTrailer(t: Table, uniPolar: bool, mode: byte)
    requires 2 <= |t| <= POINTS && InRange(t, |t|, uniPolar)
    ensures ReadWord(Cleared(Payload(t, uniPolar, mode)), POINTS - 1) == 0xFFFF_FFFF
  {
    PackingRoundTrip(t, uniPolar, mode);
    AllOnes();
    var s := Cleared(Payload(t, uniPolar, mode));
    assert s[4 * (POINTS - 1)..4 * (POINTS - 1) + 4] == s[TRAILER..];
  }

  /** All samples of a table survive packing exactly when it does not fill the buffer: the trailer
      overwrites the last word. */
  lemma SamplesSurvive(t: Table, uniPolar: bool, mode: byte)
    requires 2 <= |t| <= POINTS && InRange(t, |t|, uniPolar)
    ensures (forall k: nat | k < |t| :: ReadWord(Cleared(Payload(t, uniPolar, mode)), k) == Code(t[k], uniPolar)) <==> |t| < POINTS
  {
    if |t| == POINTS {
      LastWordIsTrailer(t, uniPolar, mode);
      CodeBounds(t[POINTS - 1], uniPolar);
    } else {
      forall k: nat | k < |t|
        ensures ReadWord(Cleared(Payload(t, uniPolar, mode)), k) == Code(t[k], uniPolar)
      {
        WordsSurvive(t, uniPolar, mode, k);
      }
    }
  }

  /** The payload is the packed item, marked as what it is. */
  predicate Matches(p: seq<byte>, x: Item, uniPolar: bool) {
    |p| == 4 * POINTS && p == Payload(x.table, uniPolar, p[4]) && (p[4] == 2 <==> x.once)
  }

  predicate AllMatch(ps: seq<seq<byte>>, xs: seq<Item>, uniPolar: bool) {
    |ps| == |xs| && forall i | 0 <= i < |xs| :: Matches(ps[i], xs[i], uniPolar)
  }

  predicate AllInRange(xs: seq<Item>, n: nat, uniPolar: bool) {
    forall i | 0 <= i < |xs| :: InRange(xs[i].table, n, uniPolar)
  }

  lemma HeardItemIsQuantised(p: seq<byte>, x: Item, n: nat, uniPolar: bool, reps: nat)
    requires 2 <= n < POINTS && Matches(p, x, uniPolar) && InRange(x.table, n, uniPolar)
    ensures HeardItem(p, n, uniPolar, reps) == Quantised(PlayedItem(x, reps), uniPolar)
  {
    HeardPayload(x.table, n, uniPolar, p[4]);
    QuantisedRepeat(x.table, reps, uniPolar);
  }

  lemma {:induction false} HeardIsQuantised(ps: seq<seq<byte>>, xs: seq<Item>, n: nat, uniPolar: bool, reps: seq<nat>)
    requires 2 <= n < POINTS && AllMatch(ps, xs, uniPolar) && AllInRange(xs, n, uniPolar) && |reps| == |xs|
    ensures HeardAll(ps, n, uniPolar, reps) == Quantised(PlayedItems(xs, reps), uniPolar)
  {
    if xs != [] {
      var k := |xs| - 1;
      HeardIsQuantised(ps[..k], xs[..k], n, uniPolar, reps[..k]);
      HeardItemIsQuantised(ps[k], xs[k], n, uniPolar, reps[k]);
      QuantisedConcat(PlayedItems(xs[..k], reps[..k]), PlayedItem(xs[k], reps[k]), uniPolar);
    }
  }

  lemma PayloadMatches(t: Table, uniPolar: bool, mode: byte)
    ensures Matches(Payload(t, uniPolar, mode), Item(t, mode == 2), uniPolar)
  {
  }

  lemma UpdateMatches(a: Accepted)
    ensures AllMatch(Payloads(a), ItemsOf(a), a.uniPolar)
  {
    match a.transient
    case NoTransient => PayloadMatches(a.target, a.uniPolar, 0);
    case Inserted(tr) =>
      PayloadMatches(tr, a.uniPolar, 2);
      PayloadMatches(a.target, a.uniPolar, 1);
  }

  /** The payloads of a history are its items. */
  lemma {:induction false} HistoryMatches(h: seq<Accepted>, uniPolar: bool)
    requires forall a | a in h :: a.uniPolar == uniPolar
    ensures AllMatch(AllPayloads(h), AllItems(h), uniPolar)
  {
    if h != [] {
      var a := h[|h| - 1];
      HistoryMatches(h[..|h| - 1], uniPolar);
      UpdateMatches(a);
      MatchTogether(AllPayloads(h[..|h| - 1]), AllItems(h[..|h| - 1]), Payloads(a), ItemsOf(a), uniPolar);
    }
  }

  lemma MatchTogether(ps: seq<seq<byte>>, xs: seq<Item>, qs: seq<seq<byte>>, ys: seq<Item>, uniPolar: bool)
    requires AllMatch(ps, xs, uniPolar) && AllMatch(qs, ys, uniPolar)
    ensures AllMatch(ps + qs, xs + ys, uniPolar)
  {
  }

  // The accepted tables are in range.

  ghost predicate AllSafe(xs: seq<Item>, n: nat, wide: Limits) {
    forall i | 0 <= i < |xs| :: |xs[i].table| == n && Safe(xs[i].table, wide)
  }

  lemma {:induction false} LinkedItems(prev: Table, h: seq<Accepted>, n: nat, wide: Limits)
    requires n >= 2 && |prev| == n && Linked(prev, h, n, wide)
    ensures AllSafe(AllItems(h), n, wide)
  {
    if h != [] {
      LinkedItems(prev, h[..|h| - 1], n, wide);
      if !Skipped(h[|h| - 1]) {
        LinkItems(LastTarget(prev, h[..|h| - 1]), h[|h| - 1], n, wide);
      }
    }
  }

  lemma LinkItems(before: Table, a: Accepted, n: nat, wide: Limits)
    requires n >= 2 && Link(before, a, n, wide)
    ensures AllSafe(ItemsOf(a), n, wide)
  {
    SelfSafe(a.target, wide);
    if a.transient.Inserted? {
      var lim :| Tighter(lim, wide) && Check(a.transient.table, a.target, lim) == 0;
      CheckedTable(a.transient.table, a.target, lim, wide);
    }
  }

  lemma SafeInRange(xs: seq<Item>, n: nat, wide: Limits)
    requires AllSafe(xs, n, wide)
    ensures AllInRange(xs, n, wide.uniPolar)
  {
  }

  /** Every update is made under one polarity. */
  predicate OnePolarity(ops: seq<Op>, uniPolar: bool) {
    forall i | 0 <= i < |ops| ::
      ops[i].UpdateOp? && |ops[i].regs| >= POLARITY_OFFSET + 4 ==> Polarity(ops[i].regs) == uniPolar
  }

  lemma {:induction false} RunPolarity(s: State, ops: seq<Op>, uniPolar: bool)
    requires AllowedRun(s, ops) && OnePolarity(ops, uniPolar)
    requires forall a | a in s.history :: a.uniPolar == uniPolar
    ensures forall a | a in Run(s, ops).history :: a.uniPolar == uniPolar
    decreases |ops|
  {
    if ops != [] {
      OpPolarity(s, ops[0], uniPolar);
      assert OnePolarity(ops[1..], uniPolar) by {
        assert forall k | 0 <= k < |ops[1..]| :: ops[1..][k] == ops[k + 1];
      }
      RunPolarity(Apply(s, ops[0]), ops[1..], uniPolar);
    }
  }

  lemma OpPolarity(s: State, op: Op, uniPolar: bool)
    requires Allowed(s, op)
    requires op.UpdateOp? && |op.regs| >= POLARITY_OFFSET + 4 ==> Polarity(op.regs) == uniPolar
    requires forall a | a in s.history :: a.uniPolar == uniPolar
    ensures forall a | a in Apply(s, op).history :: a.uniPolar == uniPolar
  {
  }

  // The bounds.

  /** `q` follows `t` within half a step `e`, and its own steps and bends exceed the limits by no more
      than the quantisation can add. */
  ghost predicate NearlySafe(q: Table, t: Table, lim: Limits, e: real) {
    && |q| == |t|
    && (forall i | 0 <= i < |q| :: Abs(q[i] - t[i]) <= e / 2.0)
    && (forall i | 0 <= i < |q| - 1 :: Abs(q[i + 1] - q[i]) <= lim.maxDelta1 + e)
    && (forall i | 0 <= i < |q| - 2 :: Abs((q[i + 1] - q[i]) - (q[i + 2] - q[i + 1])) <= lim.maxDelta2 + 2.0 * e)
  }

  lemma QuantisedIsNearlySafe(t: Table, lim: Limits)
    requires Safe(t, lim)
    ensures NearlySafe(Quantised(t, lim.uniPolar), t, lim, CodeStep(lim.uniPolar))
  {
    var q, e := Quantised(t, lim.uniPolar), CodeStep(lim.uniPolar);
    forall i | 0 <= i < |q|
      ensures Abs(q[i] - t[i]) <= e / 2.0
    {
      CodeBounds(t[i], lim.uniPolar);
    }
    NearbyIsNearlySafe(q, t, lim, e);
  }

  lemma NearbyIsNearlySafe(q: Table, t: Table, lim: Limits, e: real)
    requires Safe(t, lim) && |q| == |t| && forall i | 0 <= i < |q| :: Abs(q[i] - t[i]) <= e / 2.0
    ensures NearlySafe(q, t, lim, e)
  {
    forall i | 0 <= i < |q| - 1
      ensures Abs(q[i + 1] - q[i]) <= lim.maxDelta1 + e
    {
      assert !Steep(t, i, lim);
      assert Abs(q[i] - t[i]) <= e / 2.0 && Abs(q[i + 1] - t[i + 1]) <= e / 2.0;
    }
    forall i | 0 <= i < |q| - 2
      ensures Abs((q[i + 1] - q[i]) - (q[i + 2] - q[i + 1])) <= lim.maxDelta2 + 2.0 * e
    {
      assert !Sharp(t, i, lim);
      assert Abs(q[i] - t[i]) <= e / 2.0 && Abs(q[i + 1] - t[i + 1]) <= e / 2.0 && Abs(q[i + 2] - t[i + 2]) <= e / 2.0;
    }
  }

  /** The tables of a strict run, and their payloads. */
  lemma StrictItems(s: State, ops: seq<Op>, n: nat, wide: Limits)
    requires s.prevTg == [] && s.history == [] && n >= 2
    requires AllowedRun(s, ops) && Disciplined(s, ops, n, wide, STRICT) && OnePolarity(ops, wide.uniPolar)
    ensures AllSafe(AllItems(Run(s, ops).history), n, wide)
    ensures AllMatch(AllPayloads(Run(s, ops).history), AllItems(Run(s, ops).history), wide.uniPolar)
  {
    assert Resize([], n) == Zeros(n);
    RunTracked(s, ops, n, wide);
    RunPolarity(s, ops, wide.uniPolar);
    LinkedItems(Zeros(n), Run(s, ops).history, n, wide);
    HistoryMatches(Run(s, ops).history, wide.uniPolar);
  }

  /** What the device decodes from the bytes of a strict run, as far as they have come, stays within half a
      code step of a safe trace, its steps within one code step of the limit and its bends within two. */
  lemma BytesAreSafe(s: State, ops: seq<Op>, n: nat, wide: Limits, k: nat, reps: seq<nat>)
    requires s.prevTg == [] && s.history == []
    requires 2 <= n < POINTS && wide.maxDelta1 >= 0.0 && wide.maxDelta2 >= 0.0
    requires AllowedRun(s, ops) && Disciplined(s, ops, n, wide, STRICT) && OnePolarity(ops, wide.uniPolar)
    requires k <= |AllItems(Run(s, ops).history)| && Often(reps, AllItems(Run(s, ops).history)[..k])
    ensures var h := Run(s, ops).history;
      var xs, ps := AllItems(h)[..k], AllPayloads(h);
      && k <= |ps| && AllWhole(ps[..k])
      && NearlySafe(HeardAll(ps[..k], n, wide.uniPolar, reps), PlayedItems(xs, reps), wide, CodeStep(wide.uniPolar))
  {
    var h := Run(s, ops).history;
    StrictItems(s, ops, n, wide);
    PrefixSafety(s, ops, n, wide, 0, k, reps);
    FirstMatch(AllPayloads(h), AllItems(h), n, wide, k);
    ItemsHeard(AllPayloads(h)[..k], AllItems(h)[..k], n, wide, reps);
  }

  lemma FirstMatch(ps: seq<seq<byte>>, xs: seq<Item>, n: nat, wide: Limits, k: nat)
    requires AllMatch(ps, xs, wide.uniPolar) && AllSafe(xs, n, wide) && k <= |xs|
    ensures AllMatch(ps[..k], xs[..k], wide.uniPolar) && AllSafe(xs[..k], n, wide)
  {
  }

  lemma ItemsHeard(ps: seq<seq<byte>>, xs: seq<Item>, n: nat, wide: Limits, reps: seq<nat>)
    requires 2 <= n < POINTS && AllMatch(ps, xs, wide.uniPolar) && AllSafe(xs, n, wide) && |reps| == |xs|
    requires Safe(Repeat(Zeros(n), 0) + PlayedItems(xs, reps), wide)
    ensures AllWhole(ps)
    ensures NearlySafe(HeardAll(ps, n, wide.uniPolar, reps), PlayedItems(xs, reps), wide, CodeStep(wide.uniPolar))
  {
    SafeInRange(xs, n, wide);
    HeardIsQuantised(ps, xs, n, wide.uniPolar, reps);
    assert Repeat(Zeros(n), 0) + PlayedItems(xs, reps) == PlayedItems(xs, reps);
    QuantisedIsNearlySafe(PlayedItems(xs, reps), wide);
  }

  /** What a payload can tell of a table of `n` points. */
  function PointsHeard(n: nat): (m: nat)
    ensures m <= n && m < POINTS && (m == n || n >= POINTS)
  {
    if n < POINTS then n else POINTS - 1
  }

  /** For each table by itself that holds of full ones too, but for their last point. */
  lemma TableIsSafe(p: seq<byte>, x: Item, n: nat, wide: Limits)
    requires 2 <= n <= POINTS && Matches(p, x, wide.uniPolar) && |x.table| == n && Safe(x.table, wide)
    ensures var m := PointsHeard(n);
      NearlySafe(Heard(p, m, wide.uniPolar), x.table[..m], wide, CodeStep(wide.uniPolar))
  {
    var m := PointsHeard(n);
    HeardPrefix(x.table, m, wide.uniPolar, p[4]);
    SafeSlice(x.table, 0, m, wide);
    QuantisedIsNearlySafe(x.table[..m], wide);
  }

  lemma TablesAreSafe(s: State, ops: seq<Op>, n: nat, wide: Limits, i: nat)
    requires s.prevTg == [] && s.history == [] && 2 <= n <= POINTS
    requires AllowedRun(s, ops) && Disciplined(s, ops, n, wide, STRICT) && OnePolarity(ops, wide.uniPolar)
    requires i < |AllItems(Run(s, ops).history)|
    ensures var h, m := Run(s, ops).history, PointsHeard(n);
      && i < |AllPayloads(h)| && |AllPayloads(h)[i]| == 4 * POINTS && |AllItems(h)[i].table| == n
      && NearlySafe(Heard(AllPayloads(h)[i], m, wide.uniPolar), AllItems(h)[i].table[..m], wide, CodeStep(wide.uniPolar))
  {
    var h := Run(s, ops).history;
    StrictItems(s, ops, n, wide);
    TableIsSafe(AllPayloads(h)[i], AllItems(h)[i], n, wide);
  }
}
