/** What the device plays when controller and driver run together. */
module JointSafety {
  import opened Bytes
  import opened Sequences
  import opened Frames
  import opened RampCheck
  import opened TableController
  import opened RampSafety
  import opened PlayedTables
  import opened SafeRuns
  import opened DeviceTrace
  import opened TableSending
  import opened JointRuns
  import opened JointWire
  import opened JointPlans
  import D = DriverState
  import Packing

  /** What a joint run may do: as its updates may, and close a session before all table payloads given to it
      are completely on the wire. */
  datatype JointRules = JointRules(updates: Rules, losses: bool)

  ghost predicate JointlyDisciplined(j: Joint, ms: seq<Move>, id: u16, max: int, n: nat, wide: Limits, rules: JointRules)
    requires CanRun(j, ms, id, max)
  {
    ControllerRuns(j, ms, id, max);
    Disciplined(j.ctl, Handlers(ms), n, wide, rules.updates) && (rules.losses || KeepsPayloads(j, ms, id, max))
  }

  /** Everything played: the initial zeros some number of times, then each table that has gone out. */
  ghost function PlayedOut(j: Joint, ms: seq<Move>, id: u16, max: int, n: nat, initial: nat, reps: seq<nat>): Table
    requires AtStart(j) && CanRun(j, ms, id, max) && |reps| == |ItemsOut(j, ms, id, max)|
  {
    Repeat(Zeros(n), initial) + PlayedItems(ItemsOut(j, ms, id, max), reps)
  }

  /** With `max` as the limit on the driver's buffers, every joint run that obeys the rules is safe
      throughout. */
  ghost predicate JointlySafe(n: nat, max: int, rules: JointRules) {
    forall j: Joint, ms: seq<Move>, id: u16, wide: Limits, initial: nat, reps: seq<nat> |
      && AtStart(j) && CanRun(j, ms, id, max)
      && wide.maxDelta1 >= 0.0 && wide.maxDelta2 >= 0.0
      && JointlyDisciplined(j, ms, id, max, n, wide, rules)
      && Often(reps, ItemsOut(j, ms, id, max)) ::
      Safe(PlayedOut(j, ms, id, max, n, initial, reps), wide)
  }

  /** A transient and its target can both be delivered: the first is still in the session's buffer when the
      second one is flushed. */
  predicate BothFit(max: int) {
    max <= 0 || max > 43448
  }

  /** The rules that are needed under a limit: without one no update is ever cut short, and under a small one
      no transient is ever delivered. */
  predicate StrictWithin(max: int, rules: JointRules) {
    var r := rules.updates;
    && !r.jumps && !r.resizes && !r.silent && !rules.losses
    && (max > 0 ==> !r.cuts)
    && (BothFit(max) ==> r.least >= 1)
  }

  // Safe when strict.

  /** What the rules ask of an update that is sent, in terms of the driver before it: a connection, and
      either no obstacle at all or one that stops the first payload already. */
  lemma ToleratedExactly(j: Joint, op: Op, id: u16, max: int)
    requires CanMove(j, Handler(op), id, max) && Sends(j.ctl, op)
    ensures Tolerated(op.fate, STRICT) <==>
      && j.drv.connected
      && (Unobstructed(j.drv, id, PacketsOf(j.ctl, op), max) || Waiting(j.drv, id) || !D.HasRoom(|j.drv.sendbuf|, max))
  {
    FateMeaning(j.drv, id, PacketsOf(j.ctl, op), max);
  }

  lemma LimitDecides(j: Joint, op: Op, id: u16, max: int)
    requires CanMove(j, Handler(op), id, max) && Sends(j.ctl, op)
    ensures max <= 0 ==> !CutShort(op.fate)
    ensures !BothFit(max) && op.fate == Delivered ==> !UpdateDecision(j.ctl, op.wave, op.regs).transient.Inserted?
  {
    var d := UpdateDecision(j.ctl, op.wave, op.regs);
    FateMeaning(j.drv, id, PacketsOf(j.ctl, op), max);
    if j.drv.connected {
      UpdateGoesOut(j.drv, id, Polarity(op.regs), d.transient, op.wave, max);
    }
  }

  lemma HandlerStrict(j: Joint, op: Op, id: u16, max: int, n: nat, wide: Limits, rules: JointRules)
    requires CanMove(j, Handler(op), id, max) && StrictWithin(max, rules)
    requires KeepsDiscipline(j.ctl, op, n, wide, rules.updates)
    ensures KeepsDiscipline(j.ctl, op, n, wide, STRICT)
  {
    if Goes(j.ctl, op) {
      LimitDecides(j, op, id, max);
    }
  }

  lemma {:induction false} RunStrict(j: Joint, ms: seq<Move>, id: u16, max: int, n: nat, wide: Limits, rules: JointRules)
    requires CanRun(j, ms, id, max) && StrictWithin(max, rules)
    requires AllowedRun(j.ctl, Handlers(ms)) && Disciplined(j.ctl, Handlers(ms), n, wide, rules.updates)
    ensures Disciplined(j.ctl, Handlers(ms), n, wide, STRICT)
    decreases |ms|
  {
    if ms != [] {
      var k := Moved(j, ms[0], id, max);
      if ms[0].Handler? {
        assert Handlers(ms)[0] == ms[0].op && Handlers(ms)[1..] == Handlers(ms[1..]);
        HandlerStrict(j, ms[0].op, id, max, n, wide, rules);
      } else {
        assert Handlers(ms) == Handlers(ms[1..]);
      }
      RunStrict(k, ms[1..], id, max, n, wide, rules);
    }
  }

  lemma StrictIsSafe(j: Joint, ms: seq<Move>, id: u16, max: int, n: nat, wide: Limits, rules: JointRules, initial: nat, reps: seq<nat>)
    requires n >= 2 && StrictWithin(max, rules)
    requires AtStart(j) && CanRun(j, ms, id, max) && wide.maxDelta1 >= 0.0 && wide.maxDelta2 >= 0.0
    requires JointlyDisciplined(j, ms, id, max, n, wide, rules) && Often(reps, ItemsOut(j, ms, id, max))
    ensures Safe(PlayedOut(j, ms, id, max, n, initial, reps), wide)
  {
    ControllerRuns(j, ms, id, max);
    RunStrict(j, ms, id, max, n, wide, rules);
    NothingLost(j, ms, id, max);
    PrefixSafety(j.ctl, Handlers(ms), n, wide, initial, |ItemsOut(j, ms, id, max)|, reps);
  }

  // Not safe otherwise.

  lemma Refutes(j: Joint, ms: seq<Move>, id: u16, max: int, n: nat, wide: Limits, rules: JointRules, reps: seq<nat>, t: Table)
    requires AtStart(j) && CanRun(j, ms, id, max) && wide.maxDelta1 >= 0.0 && wide.maxDelta2 >= 0.0
    requires JointlyDisciplined(j, ms, id, max, n, wide, rules) && Often(reps, ItemsOut(j, ms, id, max))
    requires t == Repeat(Zeros(n), 1) + PlayedItems(ItemsOut(j, ms, id, max), reps) && !Safe(t, wide)
    ensures !JointlySafe(n, max, rules)
  {
    assert t == PlayedOut(j, ms, id, max, n, 1, reps);
  }

  /** Every item once. */
  function Ones(n: nat): (reps: seq<nat>)
    ensures |reps| == n && forall i | 0 <= i < n :: reps[i] == 1
  {
    if n == 0 then [] else Ones(n - 1) + [1]
  }

  /** Both updates of a plan, item by item. */
  lemma PlanItems(p: Plan, n: nat, reps: seq<nat>)
    requires reps == Ones(|AllItems(HistoryOf(p))|)
    ensures Repeat(Zeros(n), 1) + PlayedItems(AllItems(HistoryOf(p)), reps) == PlanTrace(p, n)
  {
    var h := HistoryOf(p);
    var xs, ys := ItemsOf(h[0]), ItemsOf(h[1]);
    TwoUpdates(h);
    OnesTogether(|xs|, |ys|);
    PlayedConcat(xs, ys, Ones(|xs|), Ones(|ys|));
    PlayedOnce(h[0]);
    PlayedOnce(h[1]);
    Once(Zeros(n));
    Regroup(Zeros(n), Played(h[0], 1), Played(h[1], 1));
  }

  lemma TwoUpdates(h: seq<Accepted>)
    requires |h| == 2
    ensures AllItems(h) == ItemsOf(h[0]) + ItemsOf(h[1])
  {
    assert h[..1] == [h[0]] && [h[0]][..0] == [];
    assert AllItems([h[0]]) == [] + ItemsOf(h[0]);
  }

  lemma {:induction false} OnesTogether(m: nat, n: nat)
    ensures Ones(m + n) == Ones(m) + Ones(n)
  {
    if n > 0 {
      OnesTogether(m, n - 1);
    }
  }

  lemma PlayedOnce(a: Accepted)
    ensures PlayedItems(ItemsOf(a), Ones(|ItemsOf(a)|)) == Played(a, 1)
  {
    var n := UpdateItems(a, Ones(|ItemsOf(a)|));
  }

  /** A plan whose tables all go out. */
  lemma PlanJointly(p: Plan, n: nat, max: int, rules: JointRules) returns (j: Joint, ms: seq<Move>)
    requires n >= 2 && BothGoOut(p) && Obeys(p, n, rules.updates) && (p.between.NoTransient? || BothFit(max))
    requires p.fate == Delivered || p.fate == Silent || (p.fate == Refused(1) && 0 < max < 0x8000_0000)
    ensures AtStart(j) && CanRun(j, ms, 0, max) && JointlyDisciplined(j, ms, 0, max, n, p.lim, rules)
    ensures ItemsOut(j, ms, 0, max) == AllItems(HistoryOf(p))
  {
    j, ms := PlanMoves(p, max);
    ControllerRuns(j, ms, 0, max);
    var s, ops := PlanRuns(p, n, rules.updates);
  }

  lemma PlanRefutes(p: Plan, n: nat, max: int, rules: JointRules)
    requires n >= 2 && BothGoOut(p) && Obeys(p, n, rules.updates) && !Safe(PlanTrace(p, n), p.lim)
    requires p.between.NoTransient? || BothFit(max)
    requires p.fate == Delivered || p.fate == Silent || (p.fate == Refused(1) && 0 < max < 0x8000_0000)
    ensures !JointlySafe(n, max, rules)
  {
    var j, ms := PlanJointly(p, n, max, rules);
    AllOutRefutes(j, ms, p, n, max, rules);
  }

  lemma AllOutRefutes(j: Joint, ms: seq<Move>, p: Plan, n: nat, max: int, rules: JointRules)
    requires AtStart(j) && CanRun(j, ms, 0, max) && p.lim.maxDelta1 >= 0.0 && p.lim.maxDelta2 >= 0.0
    requires JointlyDisciplined(j, ms, 0, max, n, p.lim, rules) && ItemsOut(j, ms, 0, max) == AllItems(HistoryOf(p))
    requires !Safe(PlanTrace(p, n), p.lim)
    ensures !JointlySafe(n, max, rules)
  {
    var reps := Ones(|AllItems(HistoryOf(p))|);
    PlanItems(p, n, reps);
    Refutes(j, ms, 0, max, n, p.lim, rules, reps, PlanTrace(p, n));
  }

  /** The plan whose first table is lost. */
  lemma LossRefutes(n: nat, max: int, rules: JointRules)
    requires 2 <= n <= Packing.POINTS && rules.losses
    ensures !JointlySafe(n, max, rules)
  {
    var q := SilentPlan(n);
    var p := q.(fate := Delivered);
    var j, ms := LossyMoves(p, max);
    ControllerRuns(j, ms, 0, max);
    var s, ops := PlanRuns(p, n, rules.updates);
    assert Remembered(p) == Remembered(q);
    SecondAlone(q, n);
    Refutes(j, ms, 0, max, n, p.lim, rules, [1], PlanTrace(q, n));
  }

  lemma SecondAlone(q: Plan, n: nat)
    requires q.fate == Silent && q.between.NoTransient?
    ensures PlanTrace(q, n) == Repeat(Zeros(n), 1) + PlayedItems([Item(q.second, false)], [1])
  {
    OneItem(Item(q.second, false), 1);
    Once(Zeros(n));
    assert Zeros(n) + [] == Zeros(n);
  }

  /** What the device is sent of controller and driver together is safe exactly under the rules the limit
      calls for. The limit is an `int` of the source. */
  lemma JointlySafeExactly(n: nat, max: int, rules: JointRules)
    requires 2 <= n <= Packing.POINTS && max < 0x8000_0000
    ensures JointlySafe(n, max, rules) <==> StrictWithin(max, rules)
  {
    if StrictWithin(max, rules) {
      forall j: Joint, ms: seq<Move>, id: u16, wide: Limits, initial: nat, reps: seq<nat> |
        && AtStart(j) && CanRun(j, ms, id, max)
        && wide.maxDelta1 >= 0.0 && wide.maxDelta2 >= 0.0
        && JointlyDisciplined(j, ms, id, max, n, wide, rules)
        && Often(reps, ItemsOut(j, ms, id, max))
        ensures Safe(PlayedOut(j, ms, id, max, n, initial, reps), wide)
      {
        StrictIsSafe(j, ms, id, max, n, wide, rules, initial, reps);
      }
    } else if rules.losses {
      LossRefutes(n, max, rules);
    } else {
      UpdatesRefute(n, max, rules);
    }
  }

  lemma UpdatesRefute(n: nat, max: int, rules: JointRules)
    requires 2 <= n <= Packing.POINTS && max < 0x8000_0000 && !StrictWithin(max, rules) && !rules.losses
    ensures !JointlySafe(n, max, rules)
  {
    var r := rules.updates;
    var p;
    if r.jumps {
      p := JumpPlan(n);
    } else if r.resizes {
      p := ResizePlan(n);
    } else if r.silent {
      p := SilentPlan(n);
    } else if max > 0 && r.cuts {
      p := CutPlan(n);
    } else {
      p := EarlyPlan(n);
    }
    PlanRefutes(p, n, max, rules);
  }

  // The same in terms of the bytes.

  function BodiesOf(fs: seq<Frame>): (ps: seq<seq<byte>>)
    ensures |ps| == |fs| && forall i | 0 <= i < |fs| :: ps[i] == fs[i].body
  {
    seq(|fs|, i requires 0 <= i < |fs| => fs[i].body)
  }

  lemma {:induction false} FramesBodies(id: u16, ps: seq<Body>)
    ensures BodiesOf(FramesOf(id, ps)) == ps
  {
    if ps != [] {
      FramesBodies(id, ps[1..]);
      assert ps == [ps[0]] + ps[1..];
      assert BodiesOf(FramesOf(id, ps)) == [ps[0]] + BodiesOf(FramesOf(id, ps[1..]));
    }
  }

  lemma PickedMatch(fs: seq<Frame>, xs: seq<Item>, ks: seq<nat>, n: nat, wide: Limits)
    requires AllMatch(BodiesOf(fs), xs, wide.uniPolar) && AllSafe(xs, n, wide)
    requires |fs| == |xs| && Inside(ks, |xs|)
    ensures AllMatch(BodiesOf(Picked(fs, ks)), Picked(xs, ks), wide.uniPolar) && AllSafe(Picked(xs, ks), n, wide)
  {
  }

  /** The messages of the table's block that have gone out are the packed items that have. */
  lemma OutMatches(j: Joint, ms: seq<Move>, id: u16, max: int, n: nat, wide: Limits, rules: JointRules)
    requires n >= 2 && StrictWithin(max, rules)
    requires AtStart(j) && CanRun(j, ms, id, max) && JointlyDisciplined(j, ms, id, max, n, wide, rules)
    requires OnePolarity(Handlers(ms), wide.uniPolar)
    ensures var ps, xs := BodiesOf(OfBlock(Completed(RunMoves(j, ms, id, max)), id)), ItemsOut(j, ms, id, max);
      AllMatch(ps, xs, wide.uniPolar) && AllSafe(xs, n, wide)
  {
    var k := RunMoves(j, ms, id, max);
    var h := k.ctl.history;
    ControllerRuns(j, ms, id, max);
    RunStrict(j, ms, id, max, n, wide, rules);
    StrictItems(j.ctl, Handlers(ms), n, wide);
    GoneOut(j, ms, id, max);
    AsManyItems(h, id);
    PayloadsAreBodies(h);
    FramesBodies(id, Bodies(AllPayloads(h)));
    PickedMatch(FramesSent(h, id), AllItems(h), Told(k, id), n, wide);
  }

  /** What the device makes of the messages that have gone out is safe but for the quantisation. */
  lemma JointBytesAreSafe(j: Joint, ms: seq<Move>, id: u16, max: int, n: nat, wide: Limits, rules: JointRules, reps: seq<nat>)
    requires 2 <= n < Packing.POINTS && StrictWithin(max, rules)
    requires AtStart(j) && CanRun(j, ms, id, max) && wide.maxDelta1 >= 0.0 && wide.maxDelta2 >= 0.0
    requires JointlyDisciplined(j, ms, id, max, n, wide, rules) && OnePolarity(Handlers(ms), wide.uniPolar)
    requires Often(reps, ItemsOut(j, ms, id, max))
    ensures var ps := BodiesOf(OfBlock(Completed(RunMoves(j, ms, id, max)), id));
      && |ps| == |reps| && AllWhole(ps)
      && NearlySafe(HeardAll(ps, n, wide.uniPolar, reps), PlayedItems(ItemsOut(j, ms, id, max), reps), wide,
                    Packing.CodeStep(wide.uniPolar))
  {
    var ps, xs := BodiesOf(OfBlock(Completed(RunMoves(j, ms, id, max)), id)), ItemsOut(j, ms, id, max);
    OutMatches(j, ms, id, max, n, wide, rules);
    StrictIsSafe(j, ms, id, max, n, wide, rules, 0, reps);
    ItemsHeard(ps, xs, n, wide, reps);
  }

  /** Full tables included, one by one, but for the last point of a full one. */
  lemma JointTablesAreSafe(j: Joint, ms: seq<Move>, id: u16, max: int, n: nat, wide: Limits, rules: JointRules, i: nat)
    requires 2 <= n <= Packing.POINTS && StrictWithin(max, rules)
    requires AtStart(j) && CanRun(j, ms, id, max)
    requires JointlyDisciplined(j, ms, id, max, n, wide, rules) && OnePolarity(Handlers(ms), wide.uniPolar)
    requires i < |ItemsOut(j, ms, id, max)|
    ensures var fs, x, m := OfBlock(Completed(RunMoves(j, ms, id, max)), id), ItemsOut(j, ms, id, max)[i], PointsHeard(n);
      && i < |fs| && |fs[i].body| == 4 * Packing.POINTS && |x.table| == n
      && NearlySafe(Heard(fs[i].body, m, wide.uniPolar), x.table[..m], wide, Packing.CodeStep(wide.uniPolar))
  {
    OutMatches(j, ms, id, max, n, wide, rules);
    TableIsSafe(OfBlock(Completed(RunMoves(j, ms, id, max)), id)[i].body, ItemsOut(j, ms, id, max)[i], n, wide);
  }
}
