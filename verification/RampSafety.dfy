/** Whole-run claims about the ramp-table controller. The trace is what the device plays when every
    payload the driver has taken reaches it: each target table at least once and as often as it likes,
    each transient exactly once. */
module RampSafety {
  import opened RampCheck
  import opened Transient
  import opened TableController

  /** Range, step and bend limits over every sample of a trace. */
  ghost predicate Safe(t: Table, lim: Limits) {
    && (forall i | 0 <= i < |t| :: !OutOfRange(t[i], lim.uniPolar))
    && (forall i | 0 <= i < |t| - 1 :: !Steep(t, i, lim))
    && (forall i | 0 <= i < |t| - 2 :: !Sharp(t, i, lim))
  }

  /** `a` tolerates no more than `b`. */
  predicate Tighter(a: Limits, b: Limits) {
    (b.uniPolar ==> a.uniPolar) && a.maxDelta1 <= b.maxDelta1 && a.maxDelta2 <= b.maxDelta2
  }

  function Repeat(t: Table, n: nat): Table {
    if n == 0 then [] else Repeat(t, n - 1) + t
  }

  /** What is played for one accepted update when its target is repeated `n` times: as much of it as the
      driver has taken. */
  function Played(a: Accepted, n: nat): Table {
    match a.transient
    case NoTransient => if Taken(a.fate, 1) == 1 then Repeat(a.target, n) else []
    case Inserted(tr) =>
      (if Taken(a.fate, 2) >= 1 then tr else []) + (if Taken(a.fate, 2) == 2 then Repeat(a.target, n) else [])
  }

  /** `reps[i]` is how often target `i` is played. */
  function Trace(h: seq<Accepted>, reps: seq<nat>): Table
    requires |reps| == |h|
  {
    if h == [] then [] else Trace(h[..|h| - 1], reps[..|h| - 1]) + Played(h[|h| - 1], reps[|h| - 1])
  }

  lemma SafeConcat(a: Table, b: Table, lim: Limits)
    requires Safe(a, lim) && Safe(b, lim) && |a| >= 2 && |b| >= 2
    requires Safe(a[|a| - 2..] + b[..2], lim)
    ensures Safe(a + b, lim)
  {
    var m, c, n := a[|a| - 2..] + b[..2], a + b, |a|;
    forall i | 0 <= i < |c| - 1
      ensures !Steep(c, i, lim)
    {
      if i + 1 < n { assert !Steep(a, i, lim); }
      else if i < n { assert !Steep(m, 1, lim); }
      else { assert !Steep(b, i - n, lim); }
    }
    forall i | 0 <= i < |c| - 2
      ensures !Sharp(c, i, lim)
    {
      if i + 2 < n { assert !Sharp(a, i, lim); }
      else if i < n { assert !Sharp(m, i - (n - 2), lim); }
      else { assert !Sharp(b, i - n, lim); }
    }
  }

  /** A verdict of zero on `v1` followed by `v2` makes their junction safe under any looser limits. */
  lemma CheckedJunction(v1: Table, v2: Table, lim: Limits, wide: Limits)
    requires |v1| >= 2 && |v2| >= 2 && Tighter(lim, wide)
    requires Check(v1, v2, lim) == 0 && Safe(v2, wide)
    ensures Safe(v1[|v1| - 2..] + v2[..2], wide)
  {
    CheckMeaning(v1, v2, lim);
    var w, n := Closed(v1, v2), |v1|;
    var m := v1[n - 2..] + v2[..2];
    assert Good(w, n - 2, lim) && Good(w, n - 1, lim);
    assert m[0] == w[n - 2] && m[1] == w[n - 1] && m[2] == w[n] && m[3] == w[n + 1];
    assert !Steep(v2, 0, wide);
  }

  lemma CheckedTable(v1: Table, v2: Table, lim: Limits, wide: Limits)
    requires |v1| >= 2 && |v2| >= 2 && Tighter(lim, wide)
    requires Check(v1, v2, lim) == 0
    ensures Safe(v1, wide)
  {
    CheckMeaning(v1, v2, lim);
    var w, n := Closed(v1, v2), |v1|;
    forall i | 0 <= i < n
      ensures !OutOfRange(v1[i], wide.uniPolar)
      ensures i < n - 1 ==> !Steep(v1, i, wide)
      ensures i < n - 2 ==> !Sharp(v1, i, wide)
    {
      assert Good(w, i, lim);
    }
  }

  /** Tables that close on themselves follow each other safely exactly when the check says so. */
  lemma JunctionExact(v1: Table, v2: Table, lim: Limits)
    requires |v1| >= 2 && |v2| >= 2 && Check(v1, v1, lim) == 0 && Check(v2, v2, lim) == 0
    ensures Safe(v1[|v1| - 2..] + v2[..2], lim) <==> Check(v1, v2, lim) == 0
  {
    var m, w, n := v1[|v1| - 2..] + v2[..2], Closed(v1, v2), |v1|;
    CheckedTable(v2, v2, lim, lim);
    if Check(v1, v2, lim) == 0 {
      CheckedJunction(v1, v2, lim, lim);
    }
    if Safe(m, lim) {
      CheckMeaning(v1, v1, lim);
      CheckMeaning(v1, v2, lim);
      forall k: nat | k < n
        ensures Good(w, k, lim)
      {
        assert Good(Closed(v1, v1), k, lim);
        if k >= n - 2 {
          assert !Steep(m, k - (n - 2), lim) && !Sharp(m, k - (n - 2), lim);
        }
      }
    }
  }

  /** A table that closes on itself can be repeated. */
  lemma {:induction false} SafeRepeat(t: Table, n: nat, lim: Limits)
    requires |t| >= 2 && n >= 1
    requires Safe(t, lim) && Safe(t[|t| - 2..] + t[..2], lim)
    ensures Safe(Repeat(t, n), lim) && |Repeat(t, n)| >= |t|
    ensures Repeat(t, n)[..2] == t[..2] && Repeat(t, n)[|Repeat(t, n)| - 2..] == t[|t| - 2..]
  {
    if n == 1 {
      assert Repeat(t, 0) + t == t;
    } else {
      SafeRepeat(t, n - 1, lim);
      Append(Repeat(t, n - 1), t, t, t, lim);
    }
  }

  /** `v2` passed the check after `v1` under limits no looser than `wide`. */
  ghost predicate Follows(v1: Table, v2: Table, wide: Limits)
    requires |v2| >= 2
  {
    exists lim :: Tighter(lim, wide) && Check(v1, v2, lim) == 0
  }

  /** The driver took nothing of the update, and said so. */
  predicate Skipped(a: Accepted) {
    a.fate == Refused(0)
  }

  /** The driver took something of the update, and then raised an exception. */
  predicate CutShort(f: Fate) {
    f.Refused? && f.out > 0
  }

  /** The last table that was not skipped. */
  function LastTarget(prev: Table, h: seq<Accepted>): Table {
    if h == [] then prev
    else if Skipped(h[|h| - 1]) then LastTarget(prev, h[..|h| - 1])
    else h[|h| - 1].target
  }

  /** One update sent after `before`: its target closes on itself, and it was checked against what
      precedes it, the transient setting out along the table before it. */
  ghost predicate Link(before: Table, a: Accepted, n: nat, wide: Limits)
    requires n >= 2
  {
    && |before| == n && a.fate.Delivered? && |a.target| == n && Follows(a.target, a.target, wide)
    && match a.transient
       case NoTransient => Follows(before, a.target, wide)
       case Inserted(tr) => |tr| == n && tr[..2] == before[..2] && Follows(tr, a.target, wide)
  }

  ghost predicate Linked(prev: Table, h: seq<Accepted>, n: nat, wide: Limits)
    requires n >= 2
  {
    h == [] || (Linked(prev, h[..|h| - 1], n, wide) &&
                (Skipped(h[|h| - 1]) || Link(LastTarget(prev, h[..|h| - 1]), h[|h| - 1], n, wide)))
  }

  /** Ends like `t`, so that anything safe after `t` is safe after `a`. */
  predicate EndsLike(a: Table, t: Table)
    requires |t| >= 2
  {
    |a| >= 2 && a[|a| - 2..] == t[|t| - 2..]
  }

  lemma LinkIsSafe(before: Table, a: Accepted, n: nat, wide: Limits, played: Table, reps: nat)
    requires n >= 2 && |before| == n && reps >= 1
    requires Link(before, a, n, wide) && Follows(before, before, wide)
    requires Safe(played, wide) && (played == [] || EndsLike(played, before))
    ensures Safe(played + Played(a, reps), wide) && EndsLike(played + Played(a, reps), a.target)
  {
    var tg := a.target;
    SelfSafe(tg, wide);
    SelfSafe(before, wide);
    SafeRepeat(tg, reps, wide);
    var rs := Repeat(tg, reps);
    match a.transient
    case NoTransient =>
      var lim :| Tighter(lim, wide) && Check(before, tg, lim) == 0;
      CheckedJunction(before, tg, lim, wide);
      Append(played, before, rs, tg, wide);
      assert [] + rs == rs;
    case Inserted(tr) =>
      var lim :| Tighter(lim, wide) && Check(tr, tg, lim) == 0;
      CheckedTable(tr, tg, lim, wide);
      CheckedJunction(tr, tg, lim, wide);
      Append(tr, tr, rs, tg, wide);
      Append(played, before, tr + rs, before, wide);
  }

  lemma SelfSafe(t: Table, wide: Limits)
    requires |t| >= 2 && Follows(t, t, wide)
    ensures Safe(t, wide) && Safe(t[|t| - 2..] + t[..2], wide)
  {
    var lim :| Tighter(lim, wide) && Check(t, t, lim) == 0;
    CheckedTable(t, t, lim, wide);
    CheckedJunction(t, t, lim, wide);
  }

  /** `b` may follow `a` when `b` starts like `next`, `a` ends like `last`, and that junction is safe. */
  lemma Append(a: Table, last: Table, b: Table, next: Table, wide: Limits)
    requires |last| >= 2 && |next| >= 2 && |b| >= 2
    requires Safe(a, wide) && Safe(b, wide) && b[..2] == next[..2]
    requires a == [] || EndsLike(a, last)
    requires Safe(last[|last| - 2..] + next[..2], wide)
    ensures Safe(a + b, wide) && (a + b)[|a + b| - 2..] == b[|b| - 2..]
  {
    if a == [] {
      assert a + b == b;
    } else {
      SafeConcat(a, b, wide);
    }
  }

  lemma SafeSlice(t: Table, i: nat, j: nat, lim: Limits)
    requires i <= j <= |t| && Safe(t, lim)
    ensures Safe(t[i..j], lim)
  {
    forall k | 0 <= k < j - i - 1
      ensures !Steep(t[i..j], k, lim)
    {
      assert !Steep(t, i + k, lim);
    }
    forall k | 0 <= k < j - i - 2
      ensures !Sharp(t[i..j], k, lim)
    {
      assert !Sharp(t, i + k, lim);
    }
  }

  lemma SafeSeam(a: Table, b: Table, lim: Limits)
    requires |a| >= 2 && |b| >= 2 && Safe(a + b, lim)
    ensures Safe(a[|a| - 2..] + b[..2], lim)
  {
    var k := |a|;
    SafeSlice(a + b, k - 2, k + 2, lim);
    assert (a + b)[k - 2..k + 2] == a[k - 2..] + b[..2];
  }

  /** A table that goes out alone, as every one does in immediate mode, keeps what is played safe exactly
      when the verdict on its junction was zero, whatever the mode makes of that verdict. */
  lemma ImmediateExact(played: Table, before: Table, a: Accepted, reps: nat, lim: Limits)
    requires |before| >= 2 && |a.target| >= 2 && reps >= 1
    requires a.fate.Delivered? && a.transient.NoTransient?
    requires Check(before, before, lim) == 0 && Check(a.target, a.target, lim) == 0
    requires Safe(played, lim) && EndsLike(played, before)
    ensures Safe(played + Played(a, reps), lim) <==> Check(before, a.target, lim) == 0
  {
    var tg, rs := a.target, Repeat(a.target, reps);
    assert Tighter(lim, lim);
    SelfSafe(tg, lim);
    SafeRepeat(tg, reps, lim);
    JunctionExact(before, tg, lim);
    if Check(before, tg, lim) == 0 {
      Append(played, before, rs, tg, lim);
    } else if Safe(played + rs, lim) {
      SafeSeam(played, rs, lim);
    }
  }

  /** The seam of a transient that leaves `before` at its first point: the table has closed on itself as far
      as that point, and only the bend there is open. */
  lemma EarlySeam(before: Table, tr: Table, lim: Limits)
    requires |before| >= 2 && |tr| >= 2 && tr[0] == before[0]
    requires Check(before, before, lim) == 0 && Safe(tr, lim)
    ensures Safe(before[|before| - 2..] + tr[..2], lim) <==>
      Abs((tr[0] - before[|before| - 1]) - (tr[1] - tr[0])) <= lim.maxDelta2
  {
    CheckMeaning(before, before, lim);
    var m, w, n := before[|before| - 2..] + tr[..2], Closed(before, before), |before|;
    assert m[0] == w[n - 2] && m[1] == w[n - 1] && m[2] == w[n] == tr[0] && m[3] == tr[1];
    assert Good(w, n - 2, lim) && Good(w, n - 1, lim);
    assert !Steep(tr, 0, lim) && !Steep(m, 0, lim) && !Steep(m, 1, lim) && !Steep(m, 2, lim) && !Sharp(m, 0, lim);
    assert Safe(m, lim) <==> !Sharp(m, 1, lim);
  }

  /** An update whose transient leaves the old table at point 0 keeps what is played safe exactly when the
      transient does not bend too sharply where it sets out, which nothing checks. */
  lemma EarlyTransientExact(played: Table, before: Table, a: Accepted, reps: nat, lim: Limits)
    requires |before| == |a.target| >= 2 && reps >= 1
    requires a.fate.Delivered? && a.transient == Inserted(TransientTable(before, a.target, 0))
    requires Check(before, before, lim) == 0 && Check(a.transient.table, a.target, lim) == 0
    requires Check(a.target, a.target, lim) == 0
    requires Safe(played, lim) && EndsLike(played, before)
    ensures var tr := a.transient.table;
      Safe(played + Played(a, reps), lim) <==>
      Abs((tr[0] - before[|before| - 1]) - (tr[1] - tr[0])) <= lim.maxDelta2
  {
    var tr, rs := a.transient.table, Repeat(a.target, reps);
    assert Tighter(lim, lim);
    TransientMeets(before, a.target, 0);
    assert tr[..1][0] == before[..1][0];
    TransientThenTarget(tr, a.target, reps, lim);
    EarlySeam(before, tr, lim);
    assert (tr + rs)[..2] == tr[..2];
    if Safe(before[|before| - 2..] + tr[..2], lim) {
      Append(played, before, tr + rs, tr, lim);
    } else if Safe(played + (tr + rs), lim) {
      SafeSeam(played, tr + rs, lim);
    }
  }

  lemma TransientThenTarget(tr: Table, tg: Table, reps: nat, lim: Limits)
    requires |tr| >= 2 && |tg| >= 2 && reps >= 1
    requires Check(tr, tg, lim) == 0 && Check(tg, tg, lim) == 0
    ensures Safe(tr, lim) && Safe(tr + Repeat(tg, reps), lim) && |tr + Repeat(tg, reps)| >= 2
  {
    assert Tighter(lim, lim);
    SelfSafe(tg, lim);
    SafeRepeat(tg, reps, lim);
    CheckedTable(tr, tg, lim, lim);
    CheckedJunction(tr, tg, lim, lim);
    Append(tr, tr, Repeat(tg, reps), tg, lim);
  }

  /** Everything played: the initial table some number of times, then the accepted updates. */
  function PlayedFrom(prev: Table, initial: nat, h: seq<Accepted>, reps: seq<nat>): Table
    requires |reps| == |h|
  {
    Repeat(prev, initial) + Trace(h, reps)
  }

  lemma {:induction false} LinkedIsSafe(prev: Table, h: seq<Accepted>, n: nat, wide: Limits, initial: nat, reps: seq<nat>)
    requires n >= 2 && |prev| == n && Follows(prev, prev, wide)
    requires Linked(prev, h, n, wide)
    requires |reps| == |h| && forall i | 0 <= i < |reps| :: reps[i] >= 1
    ensures |LastTarget(prev, h)| == n
    ensures Follows(LastTarget(prev, h), LastTarget(prev, h), wide)
    ensures var t := PlayedFrom(prev, initial, h, reps);
      Safe(t, wide) && (t == [] || EndsLike(t, LastTarget(prev, h)))
  {
    if h == [] {
      assert PlayedFrom(prev, initial, h, reps) == Repeat(prev, initial);
      if initial > 0 {
        SelfSafe(prev, wide);
        SafeRepeat(prev, initial, wide);
      }
    } else {
      var k := |h| - 1;
      LinkedIsSafe(prev, h[..k], n, wide, initial, reps[..k]);
      var t := PlayedFrom(prev, initial, h[..k], reps[..k]);
      PlayedOneMore(prev, initial, h, reps);
      if Skipped(h[k]) {
        assert t + Played(h[k], reps[k]) == t;
      } else {
        LinkIsSafe(LastTarget(prev, h[..k]), h[k], n, wide, t, reps[k]);
      }
    }
  }

  lemma PlayedOneMore(prev: Table, initial: nat, h: seq<Accepted>, reps: seq<nat>)
    requires |reps| == |h| >= 1
    ensures PlayedFrom(prev, initial, h, reps)
         == PlayedFrom(prev, initial, h[..|h| - 1], reps[..|h| - 1]) + Played(h[|h| - 1], reps[|h| - 1])
  {
  }

  /** What a run of updates may do: leave the old table as early as point `least`, jump to the new one in
      immediate mode, change the length of the tables, send without a connection, be cut short. */
  datatype Rules = Rules(least: nat, jumps: bool, resizes: bool, silent: bool, cuts: bool)

  const STRICT := Rules(1, false, false, false, false)

  predicate Tolerated(fate: Fate, rules: Rules) {
    && (fate.Silent? ==> rules.silent)
    && (CutShort(fate) ==> rules.cuts)
  }

  /** The update sends something, and is not refused at once. */
  ghost predicate Goes(s: State, op: Op)
    requires Allowed(s, op)
  {
    op.UpdateOp? && UpdateDecision(s, op.wave, op.regs).Send? && op.fate != Refused(0)
  }

  /** An update that obeys the rules: one that ends before the new table is read may be anything, one of
      which nothing goes out has to keep the length, and one that goes out is made under limits no looser
      than `wide`. */
  ghost predicate KeepsDiscipline(s: State, op: Op, n: nat, wide: Limits, rules: Rules)
    requires Allowed(s, op)
  {
    op.UpdateOp? && |op.regs| >= POLARITY_OFFSET + 4 ==>
      && (|op.wave| == n || rules.resizes)
      && (Goes(s, op) ==>
            && Tighter(LimitsOf(s, Polarity(op.regs)), wide)
            && (UpdateDecision(s, op.wave, op.regs).transient.Inserted? ==> s.startPoint >= rules.least)
            && (Jumps(s, op.wave, op.regs) ==> rules.jumps)
            && Tolerated(op.fate, rules))
  }

  ghost predicate Disciplined(s: State, ops: seq<Op>, n: nat, wide: Limits, rules: Rules)
    requires AllowedRun(s, ops)
    decreases |ops|
  {
    ops == [] || (KeepsDiscipline(s, ops[0], n, wide, rules) && Disciplined(Apply(s, ops[0]), ops[1..], n, wide, rules))
  }

  /** The remembered table is the last accepted one, and the history so far is linked. */
  ghost predicate Tracked(s: State, n: nat, wide: Limits)
    requires n >= 2
  {
    Resize(s.prevTg, n) == LastTarget(Zeros(n), s.history) && Linked(Zeros(n), s.history, n, wide)
  }

  lemma TransientFollows(prev: Table, next: Table, start: nat)
    requires start >= 1 && start + 1 < |prev| && |next| >= 2
    ensures TransientTable(prev, next, start)[..2] == prev[..2]
  {
    TransientMeets(prev, next, start);
    var t := TransientTable(prev, next, start);
    assert t[..2] == t[..start + 1][..2] && prev[..2] == prev[..start + 1][..2];
  }

  lemma LinkOneMore(prev: Table, h: seq<Accepted>, a: Accepted, n: nat, wide: Limits)
    requires n >= 2 && |prev| == n && Linked(prev, h, n, wide)
    requires Skipped(a) || Link(LastTarget(prev, h), a, n, wide)
    ensures Linked(prev, h + [a], n, wide)
    ensures LastTarget(prev, h + [a]) == if Skipped(a) then LastTarget(prev, h) else a.target
  {
    assert (h + [a])[..|h|] == h;
  }

  lemma ApplyTracked(s: State, op: Op, n: nat, wide: Limits)
    requires n >= 2 && Allowed(s, op) && KeepsDiscipline(s, op, n, wide, STRICT)
    requires Tracked(s, n, wide)
    ensures Tracked(Apply(s, op), n, wide)
  {
    if op.UpdateOp? && |op.regs| >= POLARITY_OFFSET + 4 {
      var lim, wave := LimitsOf(s, Polarity(op.regs)), op.wave;
      var t := Loaded(s, wave);
      assert t.prevTg == LastTarget(Zeros(n), s.history) && Resize(t.prevTg, n) == t.prevTg && Resize(wave, n) == wave;
      if Check(wave, wave, lim) == 0 {
        var joint := Check(t.prevTg, wave, lim);
        if op.fate == Refused(0) {
          RefusedTracked(t, Polarity(op.regs), joint, n, wide);
        } else {
          DecidedTracked(t, Polarity(op.regs), joint, op.fate, n, wide);
        }
      }
    }
  }

  lemma SkipTracked(t: State, u: State, a: Accepted, n: nat, wide: Limits)
    requires n >= 2 && Tracked(t, n, wide) && Skipped(a)
    requires u.prevTg == t.prevTg && u.history == t.history + [a]
    ensures Tracked(u, n, wide)
  {
    LinkOneMore(Zeros(n), t.history, a, n, wide);
  }

  /** Refused at once, an update leaves no trace. */
  lemma RefusedTracked(t: State, uniPolar: bool, joint: int, n: nat, wide: Limits)
    requires |t.prevTg| == |t.nextTg| == n >= 2 && Tracked(t, n, wide)
    requires t.mode == Automatic && joint < 0 ==> 0 <= t.startPoint && t.startPoint + 1 < n
    ensures Tracked(Decided(t, uniPolar, joint, Refused(0)), n, wide)
  {
    var d, u := Decide(t, uniPolar, joint), Decided(t, uniPolar, joint, Refused(0));
    if d.Send? {
      SkipTracked(t, u, Accepted(uniPolar, d.transient, t.nextTg, Refused(0)), n, wide);
    }
  }

  lemma AcceptTracked(t: State, uniPolar: bool, tr: TransientUse, fate: Fate, n: nat, wide: Limits)
    requires |t.prevTg| == |t.nextTg| == n >= 2 && Tracked(t, n, wide) && fate == Delivered
    requires Link(t.prevTg, Accepted(uniPolar, tr, t.nextTg, fate), n, wide)
    ensures Tracked(Accept(t, uniPolar, tr, fate), n, wide)
  {
    assert Resize(t.prevTg, n) == t.prevTg && Resize(t.nextTg, n) == t.nextTg;
    LinkOneMore(Zeros(n), t.history, Accepted(uniPolar, tr, t.nextTg, fate), n, wide);
  }

  /** What the rules say of an update that is decided on with a verdict of `joint`. */
  ghost predicate Fair(t: State, uniPolar: bool, joint: int, fate: Fate, wide: Limits)
    requires |t.prevTg| == |t.nextTg| >= 2
    requires t.mode == Automatic && joint < 0 ==> 0 <= t.startPoint && t.startPoint + 1 < |t.prevTg|
  {
    var d := Decide(t, uniPolar, joint);
    d.Send? ==>
      && Tighter(LimitsOf(t, uniPolar), wide) && Tolerated(fate, STRICT)
      && (d.transient.Inserted? ==> t.startPoint >= 1) && (t.mode == Immediate ==> joint >= 0)
  }

  lemma DecidedTracked(t: State, uniPolar: bool, joint: int, fate: Fate, n: nat, wide: Limits)
    requires |t.prevTg| == |t.nextTg| == n >= 2 && Tracked(t, n, wide) && fate != Refused(0)
    requires t.mode == Automatic && joint < 0 ==> 0 <= t.startPoint && t.startPoint + 1 < n
    requires Fair(t, uniPolar, joint, fate, wide)
    requires joint == Check(t.prevTg, t.nextTg, LimitsOf(t, uniPolar)) && Check(t.nextTg, t.nextTg, LimitsOf(t, uniPolar)) == 0
    ensures Tracked(Decided(t, uniPolar, joint, fate), n, wide)
  {
    if t.mode == Automatic && joint < 0 {
      var tr := TransientTable(t.prevTg, t.nextTg, t.startPoint);
      DecideTransient(t, uniPolar, joint, fate, tr);
      if Check(tr, t.nextTg, LimitsOf(t, uniPolar)) == 0 {
        TransientFollows(t.prevTg, t.nextTg, t.startPoint);
        AcceptTracked(t.(nextTr := tr), uniPolar, Inserted(tr), fate, n, wide);
      }
    } else {
      DecideCases(t, uniPolar, joint, fate);
      if joint == 0 && t.mode != Manual {
        AcceptTracked(t, uniPolar, NoTransient, fate, n, wide);
      }
    }
  }

  lemma {:induction false} RunTracked(s: State, ops: seq<Op>, n: nat, wide: Limits)
    requires n >= 2 && AllowedRun(s, ops) && Disciplined(s, ops, n, wide, STRICT)
    requires Tracked(s, n, wide)
    ensures Tracked(Run(s, ops), n, wide)
    decreases |ops|
  {
    if ops != [] {
      ApplyTracked(s, ops[0], n, wide);
      RunTracked(Apply(s, ops[0]), ops[1..], n, wide);
    }
  }

  lemma ZerosFollow(n: nat, wide: Limits)
    requires n >= 2 && wide.maxDelta1 >= 0.0 && wide.maxDelta2 >= 0.0
    ensures Follows(Zeros(n), Zeros(n), wide)
  {
    CheckMeaning(Zeros(n), Zeros(n), wide);
    assert Tighter(wide, wide);
  }

  predicate AllPlayed(reps: seq<nat>, h: seq<Accepted>) {
    |reps| == |h| && forall i | 0 <= i < |reps| :: reps[i] >= 1
  }

  /** Whatever a disciplined run does from start-up, everything played stays within range, step and
      bend limits, across every junction between tables. */
  lemma WholeRunSafety(s: State, ops: seq<Op>, n: nat, wide: Limits, initial: nat, reps: seq<nat>)
    requires s.prevTg == [] && s.history == []
    requires n >= 2 && wide.maxDelta1 >= 0.0 && wide.maxDelta2 >= 0.0
    requires AllowedRun(s, ops) && Disciplined(s, ops, n, wide, STRICT)
    requires AllPlayed(reps, Run(s, ops).history)
    ensures Safe(PlayedFrom(Zeros(n), initial, Run(s, ops).history, reps), wide)
  {
    ZerosFollow(n, wide);
    assert Resize([], n) == Zeros(n);
    RunTracked(s, ops, n, wide);
    LinkedIsSafe(Zeros(n), Run(s, ops).history, n, wide, initial, reps);
  }

  // Alarms over whole runs.

  /** The remembered table, at length `n`, passes its own check under the current limits. */
  ghost predicate SelfChecked(s: State, n: nat, uniPolar: bool)
    requires n >= 2
  {
    Check(Resize(s.prevTg, n), Resize(s.prevTg, n), LimitsOf(s, uniPolar)) == 0
  }

  /** Updates keep length and polarity, and no call changes the limits. */
  ghost predicate Steady(s: State, ops: seq<Op>, n: nat, uniPolar: bool)
    requires AllowedRun(s, ops)
    decreases |ops|
  {
    ops == [] ||
    (&& (ops[0].UpdateOp? && |ops[0].regs| >= POLARITY_OFFSET + 4 ==>
           |ops[0].wave| == n && Polarity(ops[0].regs) == uniPolar)
     && LimitsOf(Apply(s, ops[0]), uniPolar) == LimitsOf(s, uniPolar)
     && Steady(Apply(s, ops[0]), ops[1..], n, uniPolar))
  }

  lemma ResizeTwice(t: Table, n: nat)
    ensures Resize(Resize(t, n), n) == Resize(t, n)
  {
  }

  lemma UpdateExplained(s: State, op: Op, n: nat, uniPolar: bool)
    requires n >= 2 && op.UpdateOp? && |op.wave| == n && Allowed(s, op)
    requires |op.regs| >= POLARITY_OFFSET + 4 && Polarity(op.regs) == uniPolar
    requires SelfChecked(s, n, uniPolar)
    ensures Unexplainable !in Apply(s, op).alarmBits && SelfChecked(Apply(s, op), n, uniPolar)
  {
    var lim, t := LimitsOf(s, uniPolar), Loaded(s, op.wave);
    SelfCheckedJunction(t.prevTg, op.wave, lim);
    ResizeTwice(s.prevTg, n);
    assert Resize(op.wave, n) == op.wave;
    if Check(op.wave, op.wave, lim) == 0 {
      var joint := Check(t.prevTg, op.wave, lim);
      DecideCases(t, uniPolar, joint, op.fate);
      if t.mode == Automatic && joint < 0 {
        DecideTransient(t, uniPolar, joint, op.fate, TransientTable(t.prevTg, op.wave, t.startPoint));
      }
    }
  }

  /** While limits, polarity and length stay as they were when the last table was accepted, no
      update is ever declined as unexplainable. */
  lemma {:induction false} NeverUnexplainable(s: State, ops: seq<Op>, n: nat, uniPolar: bool)
    requires n >= 2 && AllowedRun(s, ops) && Steady(s, ops, n, uniPolar)
    requires SelfChecked(s, n, uniPolar) && Unexplainable !in s.alarmBits
    ensures Unexplainable !in Run(s, ops).alarmBits && SelfChecked(Run(s, ops), n, uniPolar)
    decreases |ops|
  {
    if ops != [] {
      if ops[0].UpdateOp? && |ops[0].regs| >= POLARITY_OFFSET + 4 {
        UpdateExplained(s, ops[0], n, uniPolar);
      }
      NeverUnexplainable(Apply(s, ops[0]), ops[1..], n, uniPolar);
    }
  }

  /** From start-up under limits that are not negative the alarm is therefore unreachable. */
  lemma NeverUnexplainableFromStart(s: State, ops: seq<Op>, n: nat, uniPolar: bool)
    requires n >= 2 && AllowedRun(s, ops) && Steady(s, ops, n, uniPolar)
    requires s.prevTg == [] && s.alarmBits == {} && s.maxDelta1 >= 0.0 && s.maxDelta2 >= 0.0
    ensures Unexplainable !in Run(s, ops).alarmBits
  {
    assert Resize([], n) == Zeros(n);
    CheckMeaning(Zeros(n), Zeros(n), LimitsOf(s, uniPolar));
    NeverUnexplainable(s, ops, n, uniPolar);
  }

  /** Updates keep length and polarity, and no call loosens the limits beyond `tight`. */
  ghost predicate NeverRelaxed(ops: seq<Op>, n: nat, tight: Limits) {
    forall i | 0 <= i < |ops| ::
      match ops[i]
      case SetMaxDelta1Op(val) => val <= tight.maxDelta1
      case SetMaxDelta2Op(val) => val <= tight.maxDelta2
      case UpdateOp(wave, regs, _) =>
        |regs| >= POLARITY_OFFSET + 4 ==> |wave| == n && Polarity(regs) == tight.uniPolar
      case _ => true
  }

  /** Once the remembered table has a fault strictly inside itself, every update sent while the
      limits are not relaxed is declined, and the remembered table stays. */
  lemma {:induction false} LockedOut(s: State, ops: seq<Op>, n: nat, tight: Limits, i: nat)
    requires n >= 2 && AllowedRun(s, ops) && NeverRelaxed(ops, n, tight)
    requires s.maxDelta1 <= tight.maxDelta1 && s.maxDelta2 <= tight.maxDelta2
    requires i + 2 < n && !Good(Resize(s.prevTg, n), i, tight)
    ensures Resize(Run(s, ops).prevTg, n) == Resize(s.prevTg, n)
    ensures Run(s, ops).history == s.history
    decreases |ops|
  {
    if ops != [] {
      UpdateLockedOut(s, ops[0], n, tight, i);
      var t := Apply(s, ops[0]);
      assert NeverRelaxed(ops[1..], n, tight) by {
        assert forall k | 0 <= k < |ops[1..]| :: ops[1..][k] == ops[k + 1];
      }
      LockedOut(t, ops[1..], n, tight, i);
    }
  }

  lemma UpdateLockedOut(s: State, op: Op, n: nat, tight: Limits, i: nat)
    requires n >= 2 && Allowed(s, op) && NeverRelaxed([op], n, tight)
    requires s.maxDelta1 <= tight.maxDelta1 && s.maxDelta2 <= tight.maxDelta2
    requires i + 2 < n && !Good(Resize(s.prevTg, n), i, tight)
    ensures var t := Apply(s, op);
      && Resize(t.prevTg, n) == Resize(s.prevTg, n) && t.history == s.history
      && t.maxDelta1 <= tight.maxDelta1 && t.maxDelta2 <= tight.maxDelta2
      && (op.UpdateOp? && s.mode != Manual ==> Decline in t.alarmBits)
  {
    assert [op][0] == op;
    if op.UpdateOp? && |op.regs| >= POLARITY_OFFSET + 4 {
      var lim := LimitsOf(s, tight.uniPolar);
      InnerFault(Resize(s.prevTg, n), op.wave, lim, i);
      ResizeTwice(s.prevTg, n);
    }
  }
}
