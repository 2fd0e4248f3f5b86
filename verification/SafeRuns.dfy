/** Which updates keep every run of the controller safe. */
module SafeRuns {
  import opened Bytes
  import opened Sequences
  import opened RampCheck
  import opened Transient
  import opened TableController
  import opened RampSafety
  import opened StartPoint
  import Packing

  /** Every run of length-`n` updates that obeys the rules is safe throughout. */
  ghost predicate AlwaysSafe(n: nat, rules: Rules) {
    forall s: State, ops: seq<Op>, wide: Limits, initial: nat, reps: seq<nat> |
      && s.prevTg == [] && s.history == []
      && wide.maxDelta1 >= 0.0 && wide.maxDelta2 >= 0.0
      && AllowedRun(s, ops) && Disciplined(s, ops, n, wide, rules)
      && AllPlayed(reps, Run(s, ops).history) ::
      Safe(PlayedFrom(Zeros(n), initial, Run(s, ops).history, reps), wide)
  }

  predicate Strict(rules: Rules) {
    rules.least >= 1 && !rules.jumps && !rules.resizes && !rules.silent && !rules.cuts
  }

  /** Runs are safe exactly when no transient leaves the old table at its first point, no immediate update
      jumps, the tables keep their length, nothing is sent without a connection, and none is cut short. */
  lemma SafeExactly(n: nat, rules: Rules)
    requires 2 <= n <= Packing.POINTS
    ensures AlwaysSafe(n, rules) <==> Strict(rules)
  {
    if Strict(rules) {
      forall s: State, ops: seq<Op>, wide: Limits, initial: nat, reps: seq<nat> |
        && s.prevTg == [] && s.history == []
        && wide.maxDelta1 >= 0.0 && wide.maxDelta2 >= 0.0
        && AllowedRun(s, ops) && Disciplined(s, ops, n, wide, rules)
        && AllPlayed(reps, Run(s, ops).history)
        ensures Safe(PlayedFrom(Zeros(n), initial, Run(s, ops).history, reps), wide)
      {
        StrictDiscipline(s, ops, n, wide, rules);
        WholeRunSafety(s, ops, n, wide, initial, reps);
      }
    } else {
      var p := UnsafePlan(n, rules);
      PlanUnsafe(p, n, rules);
      Refutes(n, rules, Start(p), OpsOf(p), p.lim, 1, [1, 1]);
    }
  }

  lemma {:induction false} StrictDiscipline(s: State, ops: seq<Op>, n: nat, wide: Limits, rules: Rules)
    requires AllowedRun(s, ops) && Disciplined(s, ops, n, wide, rules) && Strict(rules)
    ensures Disciplined(s, ops, n, wide, STRICT)
    decreases |ops|
  {
    if ops != [] {
      StrictDiscipline(Apply(s, ops[0]), ops[1..], n, wide, rules);
    }
  }

  lemma Refutes(n: nat, rules: Rules, s: State, ops: seq<Op>, wide: Limits, initial: nat, reps: seq<nat>)
    requires s.prevTg == [] && s.history == [] && wide.maxDelta1 >= 0.0 && wide.maxDelta2 >= 0.0
    requires AllowedRun(s, ops) && Disciplined(s, ops, n, wide, rules) && AllPlayed(reps, Run(s, ops).history)
    requires !Safe(PlayedFrom(Zeros(n), initial, Run(s, ops).history, reps), wide)
    ensures !AlwaysSafe(n, rules)
  {
  }

  // Runs of two updates: the second one delivered, the first one as `fate` has it.

  datatype Plan = Plan(mode: Mode, lim: Limits, first: Table, fate: Fate, second: Table, between: TransientUse)

  function QuietRegisters(): (regs: seq<byte>)
    ensures |regs| == POLARITY_OFFSET + 4
  {
    seq(POLARITY_OFFSET + 4, _ => 0)
  }

  lemma QuietPolarity()
    ensures !Polarity(QuietRegisters())
  {
    var w := QuietRegisters()[POLARITY_OFFSET..POLARITY_OFFSET + 4];
    assert w == [0, 0, 0, 0];
    assert FromBE([0]) == 0;
    assert [0, 0][..1] == [0] && [0, 0, 0][..2] == [0, 0] && [0, 0, 0, 0][..3] == [0, 0, 0];
    assert FromBE([0, 0]) == 0;
    assert FromBE([0, 0, 0]) == 0;
  }

  function Start(p: Plan): State {
    State([], [], [], p.mode, p.lim.maxDelta1, p.lim.maxDelta2, 0, {}, [])
  }

  function OpsOf(p: Plan): seq<Op> {
    [UpdateOp(p.first, QuietRegisters(), p.fate), UpdateOp(p.second, QuietRegisters(), Delivered)]
  }

  function HistoryOf(p: Plan): seq<Accepted> {
    [Accepted(false, NoTransient, p.first, p.fate), Accepted(false, p.between, p.second, Delivered)]
  }

  /** The table the second update is checked against. */
  function Remembered(p: Plan): Table {
    Resize(if p.fate.Refused? then Zeros(|p.first|) else p.first, |p.second|)
  }

  /** Both updates go out: the first follows from the zeros, the second from what is remembered then. */
  ghost predicate BothGoOut(p: Plan) {
    && 2 <= |p.first| <= Packing.POINTS && 2 <= |p.second| <= Packing.POINTS
    && !p.lim.uniPolar && p.lim.maxDelta1 >= 0.0 && p.lim.maxDelta2 >= 0.0
    && Check(Zeros(|p.first|), p.first, p.lim) == 0 && Check(p.first, p.first, p.lim) == 0
    && Check(p.second, p.second, p.lim) == 0
    && match p.between
       case NoTransient =>
         if p.mode == Immediate then Check(Remembered(p), p.second, p.lim) <= 0
         else p.mode == Automatic && Check(Remembered(p), p.second, p.lim) == 0
       case Inserted(tr) =>
         && p.mode == Automatic && Check(Remembered(p), p.second, p.lim) < 0
         && tr == TransientTable(Remembered(p), p.second, 0) && Check(tr, p.second, p.lim) == 0
  }

  ghost predicate Obeys(p: Plan, n: nat, rules: Rules)
    requires BothGoOut(p)
  {
    && |p.first| == n && (|p.second| == n || rules.resizes)
    && Tolerated(p.fate, rules)
    && (p.between.Inserted? ==> rules.least == 0)
    && (p.mode == Immediate && Check(Remembered(p), p.second, p.lim) < 0 ==> rules.jumps)
  }

  lemma FirstUpdate(p: Plan) returns (t: State)
    requires BothGoOut(p)
    ensures var s, op := Start(p), OpsOf(p)[0];
      && Allowed(s, op) && t == Apply(s, op) && UpdateDecision(s, op.wave, op.regs) == Send(NoTransient)
      && !NeedsTransient(s, op.wave, op.regs) && !Jumps(s, op.wave, op.regs)
      && LimitsOf(s, Polarity(op.regs)) == p.lim
      && t.history == HistoryOf(p)[..1] && Resize(t.prevTg, |p.second|) == Remembered(p)
      && t.mode == p.mode && LimitsOf(t, false) == p.lim && t.startPoint == 0
  {
    QuietPolarity();
    var s, op := Start(p), OpsOf(p)[0];
    assert Resize([], |p.first|) == Zeros(|p.first|);
    DecideCases(Loaded(s, p.first), false, 0, p.fate);
    t := Apply(s, op);
    assert t == Accept(Loaded(s, p.first), false, NoTransient, p.fate);
    assert HistoryOf(p)[..1] == [Accepted(false, NoTransient, p.first, p.fate)];
  }

  lemma SecondUpdate(p: Plan, t: State) returns (u: State)
    requires BothGoOut(p) && Resize(t.prevTg, |p.second|) == Remembered(p)
    requires t.mode == p.mode && LimitsOf(t, false) == p.lim && t.startPoint == 0
    ensures var op := OpsOf(p)[1];
      && Allowed(t, op) && u == Apply(t, op) && UpdateDecision(t, op.wave, op.regs) == Send(p.between)
      && (NeedsTransient(t, op.wave, op.regs) <==> p.between.Inserted?)
      && (Jumps(t, op.wave, op.regs) <==> p.mode == Immediate && Check(Remembered(p), p.second, p.lim) < 0)
      && LimitsOf(t, Polarity(op.regs)) == p.lim
      && u.history == t.history + [HistoryOf(p)[1]]
  {
    QuietPolarity();
    var op, v := OpsOf(p)[1], Loaded(t, p.second);
    var joint := Check(v.prevTg, p.second, p.lim);
    DecideCases(v, false, joint, Delivered);
    if p.between.Inserted? {
      DecideTransient(v, false, joint, Delivered, p.between.table);
    }
    u := Apply(t, op);
  }

  lemma RunOfTwo(s: State, a: Op, b: Op, n: nat, lim: Limits, rules: Rules)
    requires Allowed(s, a) && Allowed(Apply(s, a), b)
    requires KeepsDiscipline(s, a, n, lim, rules) && KeepsDiscipline(Apply(s, a), b, n, lim, rules)
    ensures AllowedRun(s, [a, b]) && Run(s, [a, b]) == Apply(Apply(s, a), b)
    ensures Disciplined(s, [a, b], n, lim, rules)
  {
    assert [a, b][1..] == [b] && [b][1..] == [];
    var t := Apply(s, a);
    assert AllowedRun(Apply(t, b), []) && AllowedRun(t, [b]);
    assert Run(t, [b]) == Run(Apply(t, b), []);
    assert Disciplined(Apply(t, b), [], n, lim, rules) && Disciplined(t, [b], n, lim, rules);
  }

  lemma PlanRuns(p: Plan, n: nat, rules: Rules) returns (s: State, ops: seq<Op>)
    requires n >= 2 && BothGoOut(p) && Obeys(p, n, rules)
    ensures s == Start(p) && ops == OpsOf(p)
    ensures AllowedRun(s, ops) && Disciplined(s, ops, n, p.lim, rules)
    ensures Run(s, ops).history == HistoryOf(p)
  {
    s, ops := Start(p), OpsOf(p);
    var t := FirstUpdate(p);
    var u := SecondUpdate(p, t);
    assert Tighter(p.lim, p.lim);
    RunOfTwo(s, ops[0], ops[1], n, p.lim, rules);
    assert HistoryOf(p) == HistoryOf(p)[..1] + [HistoryOf(p)[1]];
  }

  /** What a plan plays when the initial zeros and each target are played once. */
  function PlanTrace(p: Plan, n: nat): Table {
    Zeros(n) + Played(HistoryOf(p)[0], 1) + Played(HistoryOf(p)[1], 1)
  }

  lemma PlanPlayed(p: Plan, n: nat, h: seq<Accepted>)
    requires h == HistoryOf(p)
    ensures PlayedFrom(Zeros(n), 1, h, [1, 1]) == PlanTrace(p, n)
  {
    assert h[..1] == [h[0]] && [1, 1][..1] == [1] && [h[0]][..0] == [] && [1][..0] == [];
    assert Trace([h[0]], [1]) == Played(h[0], 1);
    assert Repeat(Zeros(n), 0) == [] && Repeat(Zeros(n), 1) == Zeros(n);
  }

  lemma PlanUnsafe(p: Plan, n: nat, rules: Rules)
    requires n >= 2 && BothGoOut(p) && Obeys(p, n, rules) && !Safe(PlanTrace(p, n), p.lim)
    ensures AllowedRun(Start(p), OpsOf(p)) && Disciplined(Start(p), OpsOf(p), n, p.lim, rules)
    ensures var h := Run(Start(p), OpsOf(p)).history;
      AllPlayed([1, 1], h) && !Safe(PlayedFrom(Zeros(n), 1, h, [1, 1]), p.lim)
  {
    var s, ops := PlanRuns(p, n, rules);
    PlanPlayed(p, n, Run(s, ops).history);
  }

  lemma Once(t: Table)
    ensures Repeat(t, 1) == t
  {
    assert Repeat(t, 0) == [];
  }

  /** A plan that obeys the rules and is not safe. */
  lemma UnsafePlan(n: nat, rules: Rules) returns (p: Plan)
    requires 2 <= n <= Packing.POINTS && !Strict(rules)
    ensures BothGoOut(p) && Obeys(p, n, rules) && !Safe(PlanTrace(p, n), p.lim)
    ensures p.fate == Delivered || p.fate == Silent || (p.fate == Refused(1) && p.between.NoTransient?)
  {
    if rules.least == 0 {
      p := EarlyPlan(n);
    } else if rules.jumps {
      p := JumpPlan(n);
    } else if rules.resizes {
      p := ResizePlan(n);
    } else if rules.silent {
      p := SilentPlan(n);
    } else {
      p := CutPlan(n);
    }
  }

  lemma EarlyPlan(n: nat) returns (p: Plan)
    requires 2 <= n <= Packing.POINTS
    ensures BothGoOut(p) && |p.first| == |p.second| == n && p.mode == Automatic && p.fate == Delivered
    ensures !Safe(PlanTrace(p, n), p.lim)
  {
    var a, b, tr, lim;
    if n == 2 {
      a, b, tr, lim := UnluckyPair();
    } else {
      a, b, tr, lim := UnluckyTables(n);
    }
    p := Plan(Automatic, lim, a, Delivered, b, Inserted(tr));
    EarlyTrace(p, n, tr);
    assert Remembered(p) == a;
  }

  lemma EarlyTrace(p: Plan, n: nat, tr: Table)
    requires p.fate == Delivered && p.between == Inserted(tr)
    ensures PlanTrace(p, n) == Zeros(n) + p.first + tr + p.second
  {
    Once(p.first);
    Once(p.second);
    Regroup(Zeros(n) + p.first, tr, p.second);
  }

  // The others need only tables that are constant, or nearly so, and limits of one volt.

  function Flat(n: nat, c: real): (t: Table)
    ensures |t| == n
  {
    seq(n, _ => c)
  }

  const VOLT := Limits(false, 1.0, 1.0)

  lemma FlatAfter(v: Table, n: nat, c: real)
    requires |v| >= 2 && n >= 2 && -2.0 <= c <= 2.0
    requires forall i | 0 <= i < |v| :: v[i] == v[0]
    requires -1.0 <= c - v[0] <= 1.0 && -2.0 <= v[0] <= 2.0
    ensures Check(v, Flat(n, c), VOLT) == 0
  {
    CheckMeaning(v, Flat(n, c), VOLT);
  }

  lemma FlatFar(n: nat, c: real)
    requires n >= 2 && c == 2.0
    ensures Check(Flat(n, 0.0), Flat(n, c), VOLT) < 0
  {
    FlatAfter(Flat(n, 0.0), n, 0.0);
    SelfCheckedJunction(Flat(n, 0.0), Flat(n, c), VOLT);
    CheckMeaning(Flat(n, 0.0), Flat(n, c), VOLT);
    assert !Good(Closed(Flat(n, 0.0), Flat(n, c)), n - 1, VOLT);
  }

  /** A step that is too large where the second target begins. */
  lemma LargeStep(p: Plan, n: nat)
    requires n >= 2 && p.between.NoTransient? && p.fate in {Delivered, Silent, Refused(1)} && |p.first| == n && |p.second| >= 2
    requires var last := if p.fate.Silent? then 0.0 else p.first[n - 1]; Abs(p.second[0] - last) > p.lim.maxDelta1
    ensures !Safe(PlanTrace(p, n), p.lim)
  {
    Once(p.first);
    Once(p.second);
    var t := Zeros(n) + (if p.fate.Silent? then [] else p.first);
    assert PlanTrace(p, n) == t + p.second;
    assert Steep(t + p.second, |t| - 1, p.lim);
  }

  /** In immediate mode a jump of two volts goes out. */
  lemma JumpPlan(n: nat) returns (p: Plan)
    requires 2 <= n <= Packing.POINTS
    ensures BothGoOut(p) && |p.first| == |p.second| == n && p.between.NoTransient? && p.fate == Delivered
    ensures !Safe(PlanTrace(p, n), p.lim)
  {
    p := Plan(Immediate, VOLT, Flat(n, 0.0), Delivered, Flat(n, 2.0), NoTransient);
    assert Remembered(p) == p.first;
    FlatAfter(Zeros(n), n, 0.0);
    FlatAfter(Flat(n, 0.0), n, 0.0);
    FlatAfter(Flat(n, 2.0), n, 2.0);
    FlatFar(n, 2.0);
    LargeStep(p, n);
  }

  /** Sent without a connection, a table is remembered that was never played. */
  lemma SilentPlan(n: nat) returns (p: Plan)
    requires 2 <= n <= Packing.POINTS
    ensures BothGoOut(p) && |p.first| == |p.second| == n && p.between.NoTransient? && p.mode == Automatic
    ensures p.fate == Silent && !Safe(PlanTrace(p, n), p.lim)
  {
    p := Plan(Automatic, VOLT, Flat(n, 1.0), Silent, Flat(n, 2.0), NoTransient);
    assert Remembered(p) == p.first;
    FlatAfter(Zeros(n), n, 1.0);
    FlatAfter(Flat(n, 1.0), n, 1.0);
    FlatAfter(Flat(n, 1.0), n, 2.0);
    FlatAfter(Flat(n, 2.0), n, 2.0);
    LargeStep(p, n);
  }

  /** Cut short behind its payload, a table is played that is not remembered. */
  lemma CutPlan(n: nat) returns (p: Plan)
    requires 2 <= n <= Packing.POINTS
    ensures BothGoOut(p) && |p.first| == |p.second| == n && p.between.NoTransient? && p.mode == Automatic
    ensures p.fate == Refused(1) && !Safe(PlanTrace(p, n), p.lim)
  {
    p := Plan(Automatic, VOLT, Flat(n, 1.0), Refused(1), Flat(n, -1.0), NoTransient);
    assert Remembered(p) == Zeros(n);
    FlatAfter(Zeros(n), n, 1.0);
    FlatAfter(Flat(n, 1.0), n, 1.0);
    FlatAfter(Zeros(n), n, -1.0);
    FlatAfter(Flat(n, -1.0), n, -1.0);
    LargeStep(p, n);
  }

  /** Zero but for its last point. */
  function Peak(n: nat): (t: Table)
    ensures |t| == n
  {
    seq(n, i => if i == n - 1 then 1.0 else 0.0)
  }

  const WIDE_BENDS := Limits(false, 1.0, 2.0)

  lemma PeakPasses(n: nat)
    requires n >= 2
    ensures Check(Zeros(n), Peak(n), WIDE_BENDS) == 0 && Check(Peak(n), Peak(n), WIDE_BENDS) == 0
  {
    CheckMeaning(Zeros(n), Peak(n), WIDE_BENDS);
    CheckMeaning(Peak(n), Peak(n), WIDE_BENDS);
  }

  lemma ValleyPasses(n: nat, m: nat, v: Table)
    requires n >= 2 && m >= 2 && (m == n + 1 || m == n - 1) && v == Resize(Peak(n), m)
    ensures Check(v, Flat(m, -1.0), WIDE_BENDS) == 0 && Check(Flat(m, -1.0), Flat(m, -1.0), WIDE_BENDS) == 0
  {
    CheckMeaning(v, Flat(m, -1.0), WIDE_BENDS);
    CheckMeaning(Flat(m, -1.0), Flat(m, -1.0), WIDE_BENDS);
    var w := Closed(v, Flat(m, -1.0));
    assert forall i | 0 <= i < m :: w[i] == if i == n - 1 then 1.0 else 0.0;
    assert w[m] == w[m + 1] == -1.0 && w[m - 1] == 0.0;
  }

  /** A longer or shorter table is checked against one that does not end as the one played last did. */
  lemma ResizePlan(n: nat) returns (p: Plan)
    requires 2 <= n <= Packing.POINTS
    ensures BothGoOut(p) && |p.first| == n && p.between.NoTransient? && p.mode == Automatic && p.fate == Delivered
    ensures !Safe(PlanTrace(p, n), p.lim)
  {
    var m := if n < Packing.POINTS then n + 1 else n - 1;
    p := Plan(Automatic, WIDE_BENDS, Peak(n), Delivered, Flat(m, -1.0), NoTransient);
    PeakPasses(n);
    ValleyPasses(n, m, Remembered(p));
    LargeStep(p, n);
  }
}
