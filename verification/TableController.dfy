/** The ramp-table controller: its record handlers as methods on one object, and as a state machine. */
module TableController {
  import opened Bytes
  import opened RampCheck
  import opened Transient
  import Packing

  datatype Mode = Immediate | Automatic | Manual

  datatype AlarmBit = Decline | CantSend | TargetTableWrong | TransientTableWrong | TransientTableUsed | Unexplainable

  /** The severity a handler leaves on its record. */
  datatype Severity = NoAlarm | MajorAlarm | InvalidAlarm

  datatype TransientUse = NoTransient | Inserted(table: Table)

  /** How the driver takes the payloads of an update: all of them; none, without complaint, as it does when
      not connected; or the first `out`, and then it raises an exception. */
  datatype Fate = Delivered | Silent | Refused(out: nat)

  /** One update the controller has accepted, and how sending it went. */
  datatype Accepted = Accepted(uniPolar: bool, transient: TransientUse, target: Table, fate: Fate)

  const POLARITY_OFFSET := 40

  /** The state of the controller as a value. */
  datatype State = State(
    prevTg: Table, nextTg: Table, nextTr: Table, mode: Mode,
    maxDelta1: real, maxDelta2: real, startPoint: int,
    alarmBits: set<AlarmBit>, history: seq<Accepted>)

  function Zeros(n: nat): (t: Table)
    ensures |t| == n
  {
    seq(n, _ => 0.0)
  }

  /** Truncates or fills up with zeros. */
  function Resize(t: Table, n: nat): (r: Table)
    ensures |r| == n
  {
    if n <= |t| then t[..n] else t + Zeros(n - |t|)
  }

  lemma ResizeAt(t: Table, n: nat, i: nat)
    requires i < n
    ensures Resize(t, n)[i] == if i < |t| then t[i] else 0.0
  {
  }

  /** Bit 16 of the status register at offset 40. */
  function Polarity(regs: seq<byte>): bool
    requires |regs| >= POLARITY_OFFSET + 4
  {
    FromBE(regs[POLARITY_OFFSET..POLARITY_OFFSET + 4]) / 0x1_0000 % 2 == 1
  }

  /** Bit 0 of the second of its four bytes. */
  lemma PolarityBit(regs: seq<byte>)
    requires |regs| >= 44
    ensures Polarity(regs) <==> regs[41] % 2 == 1
  {
    var s := regs[40..44];
    assert s[..3][..2] == s[..2] && s[..2][..1] == s[..1];
    assert FromBE(s[..1]) == s[0];
    assert FromBE(s[..2]) == 256 * (s[0] as int) + s[1];
    assert FromBE(s[..3]) == 256 * FromBE(s[..2]) + s[2];
    assert FromBE(s) / 0x1_0000 == FromBE(s[..2]);
  }

  function LimitsOf(s: State, uniPolar: bool): Limits {
    Limits(uniPolar, s.maxDelta1, s.maxDelta2)
  }

  function Declined(s: State, why: AlarmBit): State {
    s.(alarmBits := {Decline, why})
  }

  function AcceptedBits(tr: TransientUse): set<AlarmBit> {
    if tr.Inserted? then {TransientTableUsed} else {}
  }

  function Recorded(s: State, a: Accepted): State {
    s.(alarmBits := AcceptedBits(a.transient), history := s.history + [a])
  }

  function Remembering(s: State): State {
    s.(prevTg := s.nextTg)
  }

  /** The target becomes the remembered table unless an exception ends the handler first. */
  function Accept(s: State, uniPolar: bool, tr: TransientUse, fate: Fate): State {
    var t := Recorded(s, Accepted(uniPolar, tr, s.nextTg, fate));
    if fate.Refused? then t else Remembering(t)
  }

  /** The tables after a new waveform has been copied in. */
  function Loaded(s: State, wave: Table): State {
    s.(prevTg := Resize(s.prevTg, |wave|), nextTg := wave, nextTr := Resize(s.nextTr, |wave|), alarmBits := {})
  }

  /** A transient table is computed for this update. */
  predicate NeedsTransient(s: State, wave: Table, regs: seq<byte>) {
    && |regs| >= POLARITY_OFFSET + 4 && |wave| >= 2
    && s.mode == Automatic
    && Check(wave, wave, LimitsOf(s, Polarity(regs))) == 0
    && Check(Resize(s.prevTg, |wave|), wave, LimitsOf(s, Polarity(regs))) < 0
  }

  /** An immediate update whose table does not follow from the remembered one. */
  predicate Jumps(s: State, wave: Table, regs: seq<byte>) {
    && |regs| >= POLARITY_OFFSET + 4 && |wave| >= 2
    && s.mode == Immediate
    && Check(wave, wave, LimitsOf(s, Polarity(regs))) == 0
    && Check(Resize(s.prevTg, |wave|), wave, LimitsOf(s, Polarity(regs))) < 0
  }

  /** What an update that gets past the register check reads of the record: two points to look at, and a
      start point inside the table when a transient is needed. */
  predicate Readable(s: State, wave: Table, regs: seq<byte>) {
    |regs| >= POLARITY_OFFSET + 4 ==>
      |wave| >= 2 && (NeedsTransient(s, wave, regs) ==> 0 <= s.startPoint && s.startPoint + 1 < |wave|)
  }

  datatype Decision = Reject(why: AlarmBit) | Hold | Send(transient: TransientUse)

  /** What is to happen to a target table that passed its own check, given the verdict on its junction. */
  ghost function Decide(t: State, uniPolar: bool, joint: int): Decision
    requires |t.prevTg| == |t.nextTg| >= 2
    requires t.mode == Automatic && joint < 0 ==> 0 <= t.startPoint && t.startPoint + 1 < |t.prevTg|
  {
    match t.mode
    case Immediate => if joint > 0 then Reject(Unexplainable) else Send(NoTransient)
    case Automatic =>
      if joint > 0 then Reject(Unexplainable)
      else if joint == 0 then Send(NoTransient)
      else
        var tr := TransientTable(t.prevTg, t.nextTg, t.startPoint);
        if Check(tr, t.nextTg, LimitsOf(t, uniPolar)) != 0 then Reject(TransientTableWrong) else Send(Inserted(tr))
    case Manual => Hold
  }

  /** The state in which the decision is carried out: a transient has been computed if one was needed. */
  ghost function Prepared(t: State, joint: int): State
    requires |t.prevTg| == |t.nextTg| >= 2
    requires t.mode == Automatic && joint < 0 ==> 0 <= t.startPoint && t.startPoint + 1 < |t.prevTg|
  {
    if t.mode == Automatic && joint < 0
    then t.(nextTr := TransientTable(t.prevTg, t.nextTg, t.startPoint))
    else t
  }

  ghost function Decided(t: State, uniPolar: bool, joint: int, fate: Fate): State
    requires |t.prevTg| == |t.nextTg| >= 2
    requires t.mode == Automatic && joint < 0 ==> 0 <= t.startPoint && t.startPoint + 1 < |t.prevTg|
  {
    match Decide(t, uniPolar, joint)
    case Reject(why) => Declined(Prepared(t, joint), why)
    case Hold => t
    case Send(tr) => Accept(Prepared(t, joint), uniPolar, tr, fate)
  }

  lemma DecideCases(t: State, uniPolar: bool, joint: int, fate: Fate)
    requires |t.prevTg| == |t.nextTg| >= 2
    requires t.mode == Automatic && joint < 0 ==> 0 <= t.startPoint && t.startPoint + 1 < |t.prevTg|
    ensures t.mode == Manual ==> Decide(t, uniPolar, joint) == Hold && Decided(t, uniPolar, joint, fate) == t
    ensures t.mode != Manual && joint > 0 ==>
      Decide(t, uniPolar, joint) == Reject(Unexplainable) && Decided(t, uniPolar, joint, fate) == Declined(t, Unexplainable)
    ensures (t.mode == Immediate && joint <= 0) || (t.mode == Automatic && joint == 0) ==>
      Decide(t, uniPolar, joint) == Send(NoTransient) && Decided(t, uniPolar, joint, fate) == Accept(t, uniPolar, NoTransient, fate)
  {
  }

  lemma DecideTransient(t: State, uniPolar: bool, joint: int, fate: Fate, tr: Table)
    requires |t.prevTg| == |t.nextTg| >= 2
    requires t.mode == Automatic && joint < 0 && 0 <= t.startPoint && t.startPoint + 1 < |t.prevTg|
    requires tr == TransientTable(t.prevTg, t.nextTg, t.startPoint)
    ensures var u := t.(nextTr := tr);
      if Check(tr, t.nextTg, LimitsOf(t, uniPolar)) != 0
      then Decide(t, uniPolar, joint) == Reject(TransientTableWrong) && Decided(t, uniPolar, joint, fate) == Declined(u, TransientTableWrong)
      else Decide(t, uniPolar, joint) == Send(Inserted(tr)) && Decided(t, uniPolar, joint, fate) == Accept(u, uniPolar, Inserted(tr), fate)
  {
  }

  /** What an update decides on. */
  ghost function UpdateDecision(s: State, wave: Table, regs: seq<byte>): Decision
    requires Readable(s, wave, regs)
  {
    if |regs| < POLARITY_OFFSET + 4 then Reject(CantSend)
    else
      var t, lim := Loaded(s, wave), LimitsOf(s, Polarity(regs));
      if Check(wave, wave, lim) != 0 then Reject(TargetTableWrong)
      else Decide(t, Polarity(regs), Check(t.prevTg, wave, lim))
  }

  ghost function Updated(s: State, wave: Table, regs: seq<byte>, fate: Fate): State
    requires Readable(s, wave, regs)
  {
    if |regs| < POLARITY_OFFSET + 4 then Declined(s, CantSend)
    else
      var t, lim := Loaded(s, wave), LimitsOf(s, Polarity(regs));
      if Check(wave, wave, lim) != 0 then Declined(t, TargetTableWrong)
      else Decided(t, Polarity(regs), Check(t.prevTg, wave, lim), fate)
  }

  lemma DeclinedWhenFaulty(s: State, wave: Table, regs: seq<byte>, fate: Fate)
    requires |regs| >= 44 && |wave| >= 2 && Readable(s, wave, regs)
    ensures UpdateDecision(s, wave, regs) == Reject(TargetTableWrong) <==> Check(wave, wave, LimitsOf(s, Polarity(regs))) != 0
    ensures UpdateDecision(s, wave, regs) == Reject(TargetTableWrong) ==>
      Updated(s, wave, regs, fate) == Loaded(s, wave).(alarmBits := {Decline, TargetTableWrong})
  {
  }

  /** A table is declined as wrong, before anything else is looked at, exactly when some value, step or bend
      of its is out of bounds, the table taken as repeating; the lower bound is 0 V where the supply reports
      itself as unipolar by an odd byte 41, and -10 V elsewhere. */
  lemma WrongTablesDeclined(s: State, wave: Table, regs: seq<byte>, fate: Fate)
    requires |regs| >= 44 && |wave| >= 2 && Readable(s, wave, regs)
    ensures UpdateDecision(s, wave, regs) == Reject(TargetTableWrong) <==>
      !WithinBounds(wave + [wave[0], wave[1]], |wave|, if regs[41] % 2 == 1 then 0.0 else -10.0, s.maxDelta1, s.maxDelta2)
    ensures UpdateDecision(s, wave, regs) == Reject(TargetTableWrong) ==>
      Updated(s, wave, regs, fate) == Loaded(s, wave).(alarmBits := {Decline, TargetTableWrong})
  {
    PolarityBit(regs);
    ZeroMeans(wave, wave, LimitsOf(s, Polarity(regs)));
    DeclinedWhenFaulty(s, wave, regs, fate);
  }

  /** So a unipolar supply gets no negative value, and a bipolar one any constant down to -10 V. */
  lemma PolarityDecides(s: State, wave: Table, regs: seq<byte>, fate: Fate)
    requires |regs| >= 44 && |wave| >= 2 && Readable(s, wave, regs)
    ensures regs[41] % 2 == 1 && (exists k :: 0 <= k < |wave| && wave[k] < 0.0) ==>
      UpdateDecision(s, wave, regs) == Reject(TargetTableWrong) && Updated(s, wave, regs, fate).alarmBits == {Decline, TargetTableWrong}
    ensures (regs[41] % 2 == 0 && s.maxDelta1 >= 0.0 && s.maxDelta2 >= 0.0
             && -10.0 <= wave[0] <= 9.9999 && forall k | 0 <= k < |wave| :: wave[k] == wave[0]) ==>
      UpdateDecision(s, wave, regs) != Reject(TargetTableWrong)
  {
    WrongTablesDeclined(s, wave, regs, fate);
    var w := wave + [wave[0], wave[1]];
    assert forall k | 0 <= k < |wave| :: w[k] == wave[k];
  }

  /** What the handler demands of the record: a table that is packed must fit the device's. */
  ghost predicate UpdateAllowed(s: State, wave: Table, regs: seq<byte>) {
    Readable(s, wave, regs) && (UpdateDecision(s, wave, regs).Send? ==> |wave| <= Packing.POINTS)
  }

  /** Major when declined, invalid when an exception ended the sending. */
  function SeverityFor(d: Decision, fate: Fate): Severity {
    match d
    case Reject(_) => MajorAlarm
    case Hold => NoAlarm
    case Send(_) => if fate.Refused? then InvalidAlarm else NoAlarm
  }

  /** The payloads of an update: the transient marked 2 followed by its target marked 1, or the target
      alone marked 0. */
  function Packets(uniPolar: bool, tr: TransientUse, target: Table): (ps: seq<seq<byte>>)
    ensures 1 <= |ps| <= 2 && forall p | p in ps :: |p| == 4 * Packing.POINTS
  {
    match tr
    case NoTransient => [Packing.Payload(target, uniPolar, 0)]
    case Inserted(t) => [Packing.Payload(t, uniPolar, 2), Packing.Payload(target, uniPolar, 1)]
  }

  predicate InRange(t: Table, uniPolar: bool) {
    && 2 <= |t| <= 10860
    && forall i | 0 <= i < |t| :: (if uniPolar then 0.0 else -10.0) <= t[i] <= 9.9999
  }

  /** Byte 4 tells the device what a table is: 2 for a transient, 1 for the target behind it, 0 for one that
      is to be played at once. */
  lemma PacketsCarry(uniPolar: bool, tr: TransientUse, target: Table)
    requires InRange(target, uniPolar) && (tr.Inserted? ==> InRange(tr.table, uniPolar))
    ensures var ps := Packets(uniPolar, tr, target);
      if tr.Inserted?
      then |ps| == 2 && Packing.Carries(ps[0], tr.table, uniPolar, 2) && Packing.Carries(ps[1], target, uniPolar, 1)
      else |ps| == 1 && Packing.Carries(ps[0], target, uniPolar, 0)
  {
    if tr.Inserted? {
      Packing.VoltsInBytes(tr.table, uniPolar, 2);
    }
    Packing.VoltsInBytes(target, uniPolar, if tr.Inserted? then 1 else 0);
  }

  /** What each outcome of an update leaves behind: its alarm bits, its severity, the payloads recorded, and the
      table remembered, which is the new one unless nothing was sent or an exception came. */
  lemma Outcomes(s: State, wave: Table, regs: seq<byte>, fate: Fate)
    requires |regs| >= 44 && Readable(s, wave, regs)
    ensures var d, t, severity := UpdateDecision(s, wave, regs), Updated(s, wave, regs, fate), SeverityFor(UpdateDecision(s, wave, regs), fate);
      && t.nextTg == wave && |t.nextTr| == |wave| && t.mode == s.mode && t.startPoint == s.startPoint
      && t.maxDelta1 == s.maxDelta1 && t.maxDelta2 == s.maxDelta2
      && t.history == (if d.Send? then s.history + [Accepted(regs[41] % 2 == 1, d.transient, wave, fate)] else s.history)
      && t.prevTg == (if d.Send? && !fate.Refused? then wave else Resize(s.prevTg, |wave|))
      && t.alarmBits == (if d.Reject? then {Decline, d.why} else if d.Send? && d.transient.Inserted? then {TransientTableUsed} else {})
      && severity == (if d.Reject? then MajorAlarm else if d.Send? && fate.Refused? then InvalidAlarm else NoAlarm)
  {
    PolarityBit(regs);
  }

  /** And without the registers of the status message nothing changes but the alarm. */
  lemma NoRegisters(s: State, wave: Table, regs: seq<byte>, fate: Fate)
    requires |regs| < 44
    ensures UpdateDecision(s, wave, regs) == Reject(CantSend) && Updated(s, wave, regs, fate) == s.(alarmBits := {Decline, CantSend})
  {
  }

  /** How many of `n` payloads the driver takes. */
  function Taken(fate: Fate, n: nat): (k: nat)
    ensures k <= n
  {
    match fate
    case Delivered => n
    case Silent => 0
    case Refused(out) => if out < n then out else n
  }

  /** The payloads of an accepted update that the driver has taken. */
  function Payloads(a: Accepted): (ps: seq<seq<byte>>)
    ensures forall p | p in ps :: |p| == 4 * Packing.POINTS
  {
    var all := Packets(a.uniPolar, a.transient, a.target);
    all[..Taken(a.fate, |all|)]
  }

  function AllPayloads(h: seq<Accepted>): seq<seq<byte>> {
    if h == [] then [] else AllPayloads(h[..|h| - 1]) + Payloads(h[|h| - 1])
  }

  lemma OneMoreAccepted(h: seq<Accepted>, a: Accepted, sent: seq<seq<byte>>, queued: seq<seq<byte>>)
    requires sent == AllPayloads(h) && queued == Payloads(a)
    ensures sent + queued == AllPayloads(h + [a])
  {
    assert (h + [a])[..|h|] == h;
  }

  class Controller {
    var nextTr: Table
    var nextTg: Table
    var prevTg: Table
    var curMode: Mode
    var maxDelta1: real
    var maxDelta2: real
    var startPoint: int
    var alarmBits: set<AlarmBit>
    var sent: seq<seq<byte>>          // payloads handed to the driver's send queue
    ghost var history: seq<Accepted>

    ghost predicate Valid()
      reads this`sent, this`history
    {
      sent == AllPayloads(history)
    }

    ghost function View(): State
      reads this
    {
      State(prevTg, nextTg, nextTr, curMode, maxDelta1, maxDelta2, startPoint, alarmBits, history)
    }

    /** Mode, limits and start point have no defined initial value. */
    constructor (mode: Mode, maxDelta1: real, maxDelta2: real, startPoint: int)
      ensures Valid()
      ensures View() == State([], [], [], mode, maxDelta1, maxDelta2, startPoint, {}, [])
    {
      nextTr, nextTg, prevTg := [], [], [];
      curMode, this.maxDelta1, this.maxDelta2, this.startPoint := mode, maxDelta1, maxDelta2, startPoint;
      alarmBits, sent, history := {}, [], [];
    }

    method SetMode(rval: int) returns (alarm: Severity)
      requires Valid()
      modifies this`curMode
      ensures Valid() && alarm == (if 0 <= rval <= 2 then NoAlarm else InvalidAlarm)
      ensures View() == Apply(old(View()), SetModeOp(rval))
      ensures curMode == match rval { case 0 => Immediate case 1 => Automatic case 2 => Manual case _ => old(curMode) }
    {
      if rval < 0 || rval > 2 {
        return InvalidAlarm;
      }
      curMode := if rval == 0 then Immediate else if rval == 1 then Automatic else Manual;
      return NoAlarm;
    }

    method SetMaxDelta1(val: real) returns (alarm: Severity)
      requires Valid()
      modifies this`maxDelta1
      ensures Valid() && alarm == (if val < 0.0 then InvalidAlarm else NoAlarm)
      ensures View() == Apply(old(View()), SetMaxDelta1Op(val))
      ensures maxDelta1 == if val < 0.0 then old(maxDelta1) else val
    {
      if val < 0.0 {
        return InvalidAlarm;
      }
      maxDelta1 := val;
      return NoAlarm;
    }

    method SetMaxDelta2(val: real) returns (alarm: Severity)
      requires Valid()
      modifies this`maxDelta2
      ensures Valid() && alarm == (if val < 0.0 then InvalidAlarm else NoAlarm)
      ensures View() == Apply(old(View()), SetMaxDelta2Op(val))
      ensures maxDelta2 == if val < 0.0 then old(maxDelta2) else val
    {
      if val < 0.0 {
        return InvalidAlarm;
      }
      maxDelta2 := val;
      return NoAlarm;
    }

    method SetStartPoint(val: int) returns (alarm: Severity)
      requires Valid()
      modifies this`startPoint
      ensures Valid() && alarm == (if val < 0 then InvalidAlarm else NoAlarm)
      ensures View() == Apply(old(View()), SetStartPointOp(val))
      ensures startPoint == if val < 0 then old(startPoint) else val
    {
      if val < 0 {
        return InvalidAlarm;
      }
      startPoint := val;
      return NoAlarm;
    }

    method CalcTransientTable()
      requires |nextTg| == |prevTg| == |nextTr| >= 2
      requires 0 <= startPoint && startPoint + 1 < |prevTg|
      modifies this`nextTr
      ensures nextTr == TransientTable(prevTg, nextTg, startPoint)
    {
      nextTr := ComputeTransient(prevTg, nextTg, startPoint);
    }

    /** `fate` is how the driver will take what is sent, if anything is. */
    method UpdateTarget(wave: Table, regs: seq<byte>, fate: Fate) returns (alarm: Severity)
      requires Valid() && UpdateAllowed(View(), wave, regs)
      modifies this
      ensures Valid() && View() == Updated(old(View()), wave, regs, fate)
      ensures alarm == SeverityFor(UpdateDecision(old(View()), wave, regs), fate)
    {
      alarmBits := {};
      if |regs| < POLARITY_OFFSET + 4 {
        alarm := Refuse(CantSend);
        return;
      }
      var isUniPol := Polarity(regs);
      Load(wave);
      var res := CheckRampFunction(nextTg, nextTg, isUniPol, maxDelta1, maxDelta2);
      if res != 0 {
        alarm := Refuse(TargetTableWrong);
        return;
      }
      res := CheckRampFunction(prevTg, nextTg, isUniPol, maxDelta1, maxDelta2);
      alarm := CarryOut(isUniPol, res, fate);
    }

    /** Sets the two bits of a declined update. */
    method Refuse(why: AlarmBit) returns (alarm: Severity)
      requires Valid() && alarmBits == {}
      modifies this`alarmBits
      ensures Valid() && alarmBits == {Decline, why} && alarm == MajorAlarm
    {
      alarmBits := alarmBits + {Decline};
      alarmBits := alarmBits + {why};
      return MajorAlarm;
    }

    /** Takes over a new waveform. */
    method Load(wave: Table)
      requires Valid() && alarmBits == {}
      modifies this`prevTg, this`nextTr, this`nextTg
      ensures Valid() && View() == Loaded(old(View()), wave)
    {
      prevTg := Resize(prevTg, |wave|);
      nextTr := Resize(nextTr, |wave|);
      nextTg := wave;
    }

    method CarryOut(isUniPol: bool, joint: int, fate: Fate) returns (alarm: Severity)
      requires Valid() && |nextTg| == |nextTr| == |prevTg| >= 2 && alarmBits == {}
      requires curMode == Automatic && joint < 0 ==> 0 <= startPoint && startPoint + 1 < |prevTg|
      requires Decide(View(), isUniPol, joint).Send? ==> |nextTg| <= Packing.POINTS
      modifies this
      ensures Valid() && View() == Decided(old(View()), isUniPol, joint, fate)
      ensures alarm == SeverityFor(Decide(old(View()), isUniPol, joint), fate)
    {
      DecideCases(View(), isUniPol, joint, fate);
      if curMode == Manual {
        return NoAlarm;
      } else if joint > 0 {
        alarm := Refuse(Unexplainable);
      } else if curMode == Immediate || joint == 0 {
        alarm := SendTables(isUniPol, NoTransient, fate);
      } else {
        alarm := InsertTransient(isUniPol, joint, fate);
      }
    }

    method InsertTransient(isUniPol: bool, joint: int, fate: Fate) returns (alarm: Severity)
      requires Valid() && |nextTg| == |nextTr| == |prevTg| >= 2 && alarmBits == {}
      requires curMode == Automatic && joint < 0 && 0 <= startPoint && startPoint + 1 < |prevTg|
      requires Decide(View(), isUniPol, joint).Send? ==> |nextTg| <= Packing.POINTS
      modifies this`nextTr, this`sent, this`alarmBits, this`prevTg, this`history
      ensures Valid() && View() == Decided(old(View()), isUniPol, joint, fate)
      ensures alarm == SeverityFor(Decide(old(View()), isUniPol, joint), fate)
    {
      DecideTransient(View(), isUniPol, joint, fate, TransientTable(prevTg, nextTg, startPoint));
      CalcTransientTable();
      alarm := SendChecked(isUniPol, fate);
    }

    /** Sends both tables if the transient leads to the target. */
    method SendChecked(isUniPol: bool, fate: Fate) returns (alarm: Severity)
      requires Valid() && |nextTg| == |nextTr| >= 2 && alarmBits == {}
      requires Check(nextTr, nextTg, Limits(isUniPol, maxDelta1, maxDelta2)) == 0 ==> |nextTg| <= Packing.POINTS
      modifies this`sent, this`alarmBits, this`prevTg, this`history
      ensures var s, wrong := old(View()), Check(nextTr, nextTg, Limits(isUniPol, maxDelta1, maxDelta2)) != 0;
        && Valid() && View() == (if wrong then Declined(s, TransientTableWrong) else Accept(s, isUniPol, Inserted(nextTr), fate))
        && alarm == if wrong then MajorAlarm else if fate.Refused? then InvalidAlarm else NoAlarm
    {
      var res := CheckRampFunction(nextTr, nextTg, isUniPol, maxDelta1, maxDelta2);
      if res != 0 {
        alarm := Refuse(TransientTableWrong);
      } else {
        alarm := SendTables(isUniPol, Inserted(nextTr), fate);
      }
    }

    /** Packs and queues; an exception of the driver leaves the remembered table as it was. */
    method SendTables(isUniPol: bool, tr: TransientUse, fate: Fate) returns (alarm: Severity)
      requires Valid() && |nextTg| <= Packing.POINTS && (tr.Inserted? ==> |tr.table| <= Packing.POINTS)
      modifies this`sent, this`alarmBits, this`prevTg, this`history
      ensures Valid() && View() == Accept(old(View()), isUniPol, tr, fate)
      ensures alarm == if fate.Refused? then InvalidAlarm else NoAlarm
    {
      Queue(isUniPol, tr, fate);
      if fate.Refused? {
        return InvalidAlarm;
      }
      Remember();
      return NoAlarm;
    }

    method Remember()
      requires Valid()
      modifies this`prevTg
      ensures Valid() && View() == Remembering(old(View()))
    {
      prevTg := nextTg;
    }

    method Queue(isUniPol: bool, tr: TransientUse, fate: Fate)
      requires Valid() && |nextTg| <= Packing.POINTS && (tr.Inserted? ==> |tr.table| <= Packing.POINTS)
      modifies this`sent, this`alarmBits, this`history
      ensures Valid() && View() == Recorded(old(View()), Accepted(isUniPol, tr, nextTg, fate))
    {
      MarkUse(tr);
      Take(isUniPol, tr, fate);
    }

    /** The bits of an accepted update. */
    method MarkUse(tr: TransientUse)
      requires Valid()
      modifies this`alarmBits
      ensures Valid() && View() == old(View()).(alarmBits := AcceptedBits(tr))
    {
      alarmBits := AcceptedBits(tr);
    }

    /** Hands over as many payloads as the driver takes. */
    method Take(isUniPol: bool, tr: TransientUse, fate: Fate)
      requires Valid() && |nextTg| <= Packing.POINTS && (tr.Inserted? ==> |tr.table| <= Packing.POINTS)
      modifies this`sent, this`history
      ensures Valid() && View() == old(View()).(history := old(history) + [Accepted(isUniPol, tr, nextTg, fate)])
    {
      ghost var a := Accepted(isUniPol, tr, nextTg, fate);
      var queued := PackTaken(isUniPol, tr, nextTg, fate, a);
      OneMoreAccepted(history, a, sent, queued);
      HandOver(queued, a);
    }

    method HandOver(queued: seq<seq<byte>>, ghost a: Accepted)
      modifies this`sent, this`history
      ensures sent == old(sent) + queued && history == old(history) + [a]
    {
      sent := sent + queued;
      history := history + [a];
    }
  }

  method PackTables(uniPolar: bool, tr: TransientUse, target: Table) returns (packets: seq<seq<byte>>)
    requires |target| <= Packing.POINTS && (tr.Inserted? ==> |tr.table| <= Packing.POINTS)
    ensures packets == Packets(uniPolar, tr, target)
  {
    if tr.Inserted? {
      var first := Packing.PackMarked(tr.table, uniPolar, 2);
      var second := Packing.PackMarked(target, uniPolar, 1);
      packets := [first, second];
    } else {
      var only := Packing.PackMarked(target, uniPolar, 0);
      packets := [only];
    }
  }

  /** The payloads the driver takes. */
  method PackTaken(uniPolar: bool, tr: TransientUse, target: Table, fate: Fate, ghost a: Accepted) returns (queued: seq<seq<byte>>)
    requires |target| <= Packing.POINTS && (tr.Inserted? ==> |tr.table| <= Packing.POINTS)
    requires a == Accepted(uniPolar, tr, target, fate)
    ensures queued == Payloads(a)
  {
    var packets := PackTables(uniPolar, tr, target);
    queued := packets[..Taken(fate, |packets|)];
  }

  /** One call of a record handler. */
  datatype Op =
    | SetModeOp(rval: int)
    | SetMaxDelta1Op(val: real)
    | SetMaxDelta2Op(val: real)
    | SetStartPointOp(start: int)
    | UpdateOp(wave: Table, regs: seq<byte>, fate: Fate)

  ghost predicate Allowed(s: State, op: Op) {
    op.UpdateOp? ==> UpdateAllowed(s, op.wave, op.regs)
  }

  ghost function Apply(s: State, op: Op): State
    requires Allowed(s, op)
  {
    match op
    case SetModeOp(rval) =>
      if rval == 0 then s.(mode := Immediate)
      else if rval == 1 then s.(mode := Automatic)
      else if rval == 2 then s.(mode := Manual)
      else s
    case SetMaxDelta1Op(val) => if val < 0.0 then s else s.(maxDelta1 := val)
    case SetMaxDelta2Op(val) => if val < 0.0 then s else s.(maxDelta2 := val)
    case SetStartPointOp(start) => if start < 0 then s else s.(startPoint := start)
    case UpdateOp(wave, regs, fate) => Updated(s, wave, regs, fate)
  }

  /** The modes by their numbers, for a table without a fault of its own: 0 sends it at once unless the
      fault is inside the remembered one, 1 also looks how it joins, and 2 holds it. */
  lemma ModesByNumber(s: State, rval: int, wave: Table, regs: seq<byte>, fate: Fate)
    requires 0 <= rval <= 2 && |regs| >= 44 && |wave| >= 2 && Readable(Apply(s, SetModeOp(rval)), wave, regs)
    requires Check(wave, wave, Limits(regs[41] % 2 == 1, s.maxDelta1, s.maxDelta2)) == 0
    ensures var t := Apply(s, SetModeOp(rval));
      var joint := Check(Resize(s.prevTg, |wave|), wave, Limits(regs[41] % 2 == 1, s.maxDelta1, s.maxDelta2));
      var d, u := UpdateDecision(t, wave, regs), Updated(t, wave, regs, fate);
      && t == s.(mode := t.mode)
      && (d == Hold <==> rval == 2)
      && (d == Reject(Unexplainable) <==> rval != 2 && joint > 0)
      && (d == Send(NoTransient) <==> (rval == 0 && joint <= 0) || (rval == 1 && joint == 0))
      && (d == Reject(TransientTableWrong) || (d.Send? && d.transient.Inserted?) <==> rval == 1 && joint < 0)
      && (rval == 2 ==> u == Loaded(t, wave))
  {
    PolarityBit(regs);
    DecideCases(Loaded(Apply(s, SetModeOp(rval)), wave), Polarity(regs),
      Check(Resize(s.prevTg, |wave|), wave, LimitsOf(s, Polarity(regs))), fate);
  }

  /** Every call in a run is one the handlers accept. */
  ghost predicate AllowedRun(s: State, ops: seq<Op>)
    decreases |ops|
  {
    ops == [] || (Allowed(s, ops[0]) && AllowedRun(Apply(s, ops[0]), ops[1..]))
  }

  ghost function Run(s: State, ops: seq<Op>): State
    requires AllowedRun(s, ops)
    decreases |ops|
  {
    if ops == [] then s else Run(Apply(s, ops[0]), ops[1..])
  }
}
