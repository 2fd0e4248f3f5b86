/** Which payloads of the table controller have gone out, session after session. */
module JointWire {
  import opened Bytes
  import opened Sequences
  import opened Frames
  import opened TableController
  import opened TableSending
  import opened PlayedTables
  import opened JointRuns
  import D = DriverState
  import R = DriverRuns

  // The current session.

  lemma ParseGrows(s: seq<byte>, q: seq<byte>)
    ensures Parse(s).frames <= Parse(s + q).frames
  {
    var p := Parse(s);
    ParseExact(s);
    Regroup(EncodeAll(p.frames), TailBytes(p.tail), q);
    ParseEncoded(p.frames, TailBytes(p.tail) + q);
  }

  /** What the current session was given. */
  function Given(d: D.Driver): seq<Frame> {
    if d.hist.since <= |d.hist.sent| then d.hist.sent[d.hist.since..] else []
  }

  lemma WireInOrder(d: D.Driver)
    requires R.WireOk(d) && d.session.Session?
    ensures OnWire(d) <= Given(d)
    ensures d.session.output == [] ==> OnWire(d) == Given(d)
  {
    ParseGrows(d.hist.wire, d.session.output);
    ParseAll(Given(d));
    assert d.hist.wire + [] == d.hist.wire;
  }

  /** The messages given to the current session that are not completely on its wire. */
  function Outstanding(d: D.Driver): seq<Frame> {
    if |OnWire(d)| <= |Given(d)| then Given(d)[|OnWire(d)|..] else []
  }

  /** Everything accepted, in three parts: earlier sessions, this one's wire, and the rest. */
  lemma Parts(d: D.Driver, id: u16)
    requires R.WireOk(d) && d.session.Session?
    ensures OfBlock(d.hist.sent, id) ==
      OfBlock(d.hist.sent[..d.hist.since], id) + OfBlock(OnWire(d), id) + OfBlock(Outstanding(d), id)
    ensures Earlier(d, id) == |OfBlock(d.hist.sent[..d.hist.since], id)|
  {
    WireInOrder(d);
    var a, b, c := d.hist.sent[..d.hist.since], OnWire(d), Outstanding(d);
    assert Given(d) == b + c && d.hist.sent == a + Given(d);
    OfBlockConcat(b, c, id);
    OfBlockConcat(a, b + c, id);
    Regroup(OfBlock(a, id), OfBlock(b, id), OfBlock(c, id));
  }

  // Payloads by number.

  predicate Inside(ks: seq<nat>, n: nat) {
    forall i | 0 <= i < |ks| :: ks[i] < n
  }

  function Picked<T>(xs: seq<T>, ks: seq<nat>): (ys: seq<T>)
    requires Inside(ks, |xs|)
    ensures |ys| == |ks|
  {
    seq(|ks|, i requires 0 <= i < |ks| => xs[ks[i]])
  }

  lemma PickedConcat<T>(xs: seq<T>, ks: seq<nat>, ls: seq<nat>)
    requires Inside(ks, |xs|) && Inside(ls, |xs|)
    ensures Inside(ks + ls, |xs|) && Picked(xs, ks + ls) == Picked(xs, ks) + Picked(xs, ls)
  {
  }

  lemma PickedGrows<T>(xs: seq<T>, ys: seq<T>, ks: seq<nat>)
    requires Inside(ks, |xs|) && xs <= ys
    ensures Inside(ks, |ys|) && Picked(ys, ks) == Picked(xs, ks)
  {
  }

  /** What the observer has noted of earlier sessions are the payloads with the numbers noted. */
  ghost predicate Noted(j: Joint, id: u16) {
    var fs := FramesSent(j.ctl.history, id);
    Inside(j.told, |fs|) && OfBlock(j.past, id) == Picked(fs, j.told)
  }

  lemma MiddlePart<T>(a: seq<T>, b: seq<T>, c: seq<T>, ks: seq<nat>)
    requires |ks| == |b| && forall i | 0 <= i < |ks| :: ks[i] == |a| + i
    ensures Inside(ks, |a + b + c|) && Picked(a + b + c, ks) == b
  {
  }

  lemma CurrentWire(j: Joint, id: u16, max: int)
    requires R.Invariant(j.drv, max) && HandedOn(j, id)
    ensures var fs, ks := FramesSent(j.ctl.history, id), NumbersOnWire(j.drv, id);
      Inside(ks, |fs|) && OfBlock(OnWire(j.drv), id) == Picked(fs, ks)
  {
    var d := j.drv;
    if d.session.Session? {
      var a, b, c := OfBlock(d.hist.sent[..d.hist.since], id), OfBlock(OnWire(d), id), OfBlock(Outstanding(d), id);
      Parts(d, id);
      OfBlockConcat(d.hist.sent, d.hist.queue, id);
      Regroup(a + b, c, OfBlock(d.hist.queue, id));
      MiddlePart(a, b, c + OfBlock(d.hist.queue, id), NumbersOnWire(d, id));
    }
  }

  lemma MoveNotes(j: Joint, m: Move, id: u16, max: int)
    requires R.Invariant(j.drv, max) && HandedOn(j, id) && CanMove(j, m, id, max) && Noted(j, id)
    ensures Noted(Moved(j, m, id, max), id)
  {
    var fs := FramesSent(j.ctl.history, id);
    match m
    case Handler(op) =>
      HistoryGrows(j.ctl, op, id);
      PickedGrows(fs, FramesSent(Apply(j.ctl, op).history, id), j.told);
    case Driving(e) =>
      CurrentWire(j, id, max);
      PickedConcat(fs, j.told, NumbersOnWire(j.drv, id));
      OfBlockConcat(j.past, OnWire(j.drv), id);
  }

  lemma HistoryGrows(s: State, op: Op, id: u16)
    requires Allowed(s, op)
    ensures FramesSent(s.history, id) <= FramesSent(Apply(s, op).history, id)
  {
    SendingRecords(s, op);
    if Sends(s, op) {
      var h := s.history;
      var a := Apply(s, op).history[|h|];
      OneMoreSent(h, a, id, Payloads(a));
    }
  }

  lemma {:induction false} RunNotes(j: Joint, ms: seq<Move>, id: u16, max: int)
    requires CanRun(j, ms, id, max) && HandedOn(j, id) && R.Invariant(j.drv, max) && Noted(j, id)
    ensures Noted(RunMoves(j, ms, id, max), id)
    decreases |ms|
  {
    if ms != [] {
      MoveNotes(j, ms[0], id, max);
      MoveHandsOn(j, ms[0], id, max);
      MoveKeeps(j, ms[0], id, max);
      RunNotes(Moved(j, ms[0], id, max), ms[1..], id, max);
    }
  }

  /** In every joint run the messages of the table's block that have gone out whole, over all sessions, are
      the payloads of the controller's history with the numbers told. */
  lemma GoneOut(j: Joint, ms: seq<Move>, id: u16, max: int)
    requires AtStart(j) && CanRun(j, ms, id, max)
    ensures var k := RunMoves(j, ms, id, max);
      var fs := FramesSent(k.ctl.history, id);
      Inside(Told(k, id), |fs|) && OfBlock(Completed(k), id) == Picked(fs, Told(k, id))
  {
    var k := RunMoves(j, ms, id, max);
    StartHandsOn(j, id, max);
    RunNotes(j, ms, id, max);
    JointHistory(j, ms, id, max);
    CurrentWire(k, id, max);
    PickedConcat(FramesSent(k.ctl.history, id), k.told, NumbersOnWire(k.drv, id));
    OfBlockConcat(k.past, OnWire(k.drv), id);
  }

  lemma UpdateCount(a: Accepted)
    ensures |ItemsOf(a)| == |Payloads(a)|
  {
  }

  lemma {:induction false} AsManyPayloads(h: seq<Accepted>)
    ensures |AllItems(h)| == |AllPayloads(h)|
  {
    if h != [] {
      AsManyPayloads(h[..|h| - 1]);
      UpdateCount(h[|h| - 1]);
    }
  }

  lemma AsManyItems(h: seq<Accepted>, id: u16)
    ensures |AllItems(h)| == |FramesSent(h, id)|
  {
    AsManyPayloads(h);
  }

  /** The tables of the payloads that have gone out. */
  ghost function ItemsOut(j: Joint, ms: seq<Move>, id: u16, max: int): seq<Item>
    requires AtStart(j) && CanRun(j, ms, id, max)
  {
    GoneOut(j, ms, id, max);
    var k := RunMoves(j, ms, id, max);
    AsManyItems(k.ctl.history, id);
    Picked(AllItems(k.ctl.history), Told(k, id))
  }

  // When no payload is lost.

  /** Every payload given to an earlier session has gone out. */
  predicate NoGaps(j: Joint, id: u16) {
    j.told == Numbers(0, if j.drv.session.Session? then Earlier(j.drv, id) else |OfBlock(j.drv.hist.sent, id)|)
  }

  /** The move closes a session that has not put all its payloads on the wire. */
  ghost predicate Loses(j: Joint, m: Move, id: u16, max: int)
    requires CanMove(j, m, id, max)
  {
    m.Driving? && Closes(j.drv, D.Step(j.drv, m.event, max)) && OfBlock(Outstanding(j.drv), id) != []
  }

  /** No move of a run does. */
  ghost predicate KeepsPayloads(j: Joint, ms: seq<Move>, id: u16, max: int)
    requires CanRun(j, ms, id, max)
    decreases |ms|
  {
    ms == [] || (!Loses(j, ms[0], id, max) && KeepsPayloads(Moved(j, ms[0], id, max), ms[1..], id, max))
  }

  /** What a step leaves of the record of messages sent. */
  predicate SentKept(d: D.Driver, t: D.Driver) {
    && t.hist.since == d.hist.since && d.hist.sent <= t.hist.sent
    && (!d.session.Session? ==> !t.session.Session?)
    && (!t.session.Session? ==> t.hist.sent == d.hist.sent)
  }

  /** Nothing but the queue differs. */
  predicate SameSession(d: D.Driver, t: D.Driver) {
    && t.hist.since == d.hist.since && t.hist.sent == d.hist.sent && t.hist.wire == d.hist.wire
    && t.session == d.session && t.connected == d.connected
  }

  lemma BlockKeepsSession(d: D.Driver, id: u16)
    ensures SameSession(d, D.GetSend(d, id))
  {
  }

  lemma QueueKeepsSession(d: D.Driver, id: u16, p: Body, max: int, memory: bool)
    ensures SameSession(d, D.QueueSend(d, id, p, max, memory))
    ensures id in d.send ==> SameSession(d, D.QueueBlock(d, id, p, max, memory))
  {
    BlockKeepsSession(d, id);
    var t := D.GetSend(d, id);
    if D.QueueResult(t, id, max, memory) == D.Done {
      assert SameSession(t, D.Enqueued(t, id, p));
    }
  }

  lemma FlushKeepsSent(d: D.Driver, max: int, memory: bool)
    requires d.connected ==> d.session.Session?
    ensures var t := D.Flush(d, max, memory);
      SentKept(d, t) && t.session.Session? == d.session.Session? && t.hist.wire == d.hist.wire
  {
  }

  lemma SessionKeepsSent(d: D.Driver, e: D.Event, max: int)
    requires D.Sound(d) && D.Enabled(d, e)
    requires e.Connection? || e.Drained? || e.Force? || e.Scratch? || e.Interest?
    ensures SentKept(d, D.Step(d, e, max))
  {
  }

  lemma EventKeepsSent(d: D.Driver, e: D.Event, max: int)
    requires D.Sound(d) && D.Enabled(d, e) && !e.TimerFires?
    ensures SentKept(d, D.Step(d, e, max))
  {
    match e
    case Incoming(bytes) => R.ReceiveLeavesSendSide(D.Arrived(d, bytes));
    case Queue(id, body, memory) => QueueKeepsSession(d, id, body, max, memory);
    case QueueScratch(id, memory) => if id in d.send { QueueKeepsSession(d, id, d.send[id].data, max, memory); }
    case FlushQueue(memory) => FlushKeepsSent(d, max, memory);
    case _ => SessionKeepsSent(d, e, max);
  }

  lemma OneKeepsSent(d: D.Driver, id: u16, p: Body, max: int)
    requires D.Sound(d)
    ensures var t := SendOne(d, id, p, max).driver;
      SentKept(d, t) && t.session.Session? == d.session.Session? && t.hist.wire == d.hist.wire
  {
    BlockKeepsSession(d, id);
    QueueKeepsSession(d, id, p, max, true);
    FlushKeepsSent(D.QueueSend(d, id, p, max, true), max, true);
  }

  lemma {:induction false} SendingKeepsSent(d: D.Driver, id: u16, ps: seq<Body>, max: int)
    requires D.Sound(d)
    ensures var t := SendAll(d, id, ps, max).driver;
      SentKept(d, t) && t.session.Session? == d.session.Session? && t.hist.wire == d.hist.wire
    decreases |ps|
  {
    if ps != [] {
      OneKeepsSent(d, id, ps[0], max);
      PayloadKeepsSound(d, id, ps[0], max);
      SendingKeepsSent(SendOne(d, id, ps[0], max).driver, id, ps[1..], max);
    }
  }

  lemma SameBefore(d: D.Driver, t: D.Driver, id: u16)
    requires SentKept(d, t) && d.hist.since <= |d.hist.sent|
    ensures Earlier(t, id) == Earlier(d, id)
  {
    assert t.hist.sent[..d.hist.since] == d.hist.sent[..d.hist.since];
  }

  lemma NumbersJoin(a: nat, n: nat)
    ensures Numbers(0, a) + Numbers(a, n) == Numbers(0, a + n)
  {
  }

  lemma ClosingLeavesNoGaps(j: Joint, t: D.Driver, id: u16)
    requires R.WireOk(j.drv) && NoGaps(j, id) && SentKept(j.drv, t) && Closes(j.drv, t)
    requires OfBlock(Outstanding(j.drv), id) == []
    ensures NoGaps(Joint(j.ctl, t, Completed(j), Told(j, id)), id)
  {
    Parts(j.drv, id);
    NumbersJoin(Earlier(j.drv, id), |OfBlock(OnWire(j.drv), id)|);
    assert |OfBlock(j.drv.hist.sent, id)| == Earlier(j.drv, id) + |OfBlock(OnWire(j.drv), id)|;
  }

  lemma TimerLeavesNoGaps(j: Joint, how: D.Setup, id: u16)
    requires !j.drv.session.Session? && NoGaps(j, id)
    ensures NoGaps(j.(drv := D.Reconnect(j.drv, how)), id)
  {
    assert j.drv.hist.sent[..|j.drv.hist.sent|] == j.drv.hist.sent;
  }

  lemma MoveLeavesNoGaps(j: Joint, m: Move, id: u16, max: int)
    requires R.Invariant(j.drv, max) && CanMove(j, m, id, max) && NoGaps(j, id) && !Loses(j, m, id, max)
    ensures NoGaps(Moved(j, m, id, max), id)
  {
    match m
    case Handler(op) =>
      if Sends(j.ctl, op) {
        SendingKeepsSent(j.drv, id, PacketsOf(j.ctl, op), max);
        SameBefore(j.drv, DriverAfter(j.ctl, op, j.drv, id, max), id);
      }
    case Driving(e) =>
      if e.TimerFires? {
        TimerLeavesNoGaps(j, e.how, id);
      } else {
        var t := D.Step(j.drv, e, max);
        EventKeepsSent(j.drv, e, max);
        SameBefore(j.drv, t, id);
        if Closes(j.drv, t) {
          ClosingLeavesNoGaps(j, t, id);
        }
      }
  }

  lemma {:induction false} RunLeavesNoGaps(j: Joint, ms: seq<Move>, id: u16, max: int)
    requires CanRun(j, ms, id, max) && R.Invariant(j.drv, max) && NoGaps(j, id) && KeepsPayloads(j, ms, id, max)
    ensures NoGaps(RunMoves(j, ms, id, max), id)
    decreases |ms|
  {
    if ms != [] {
      MoveLeavesNoGaps(j, ms[0], id, max);
      MoveKeeps(j, ms[0], id, max);
      RunLeavesNoGaps(Moved(j, ms[0], id, max), ms[1..], id, max);
    }
  }

  lemma StartsWithoutGaps(j: Joint, id: u16)
    requires AtStart(j)
    ensures NoGaps(j, id)
  {
    var how :| j.drv == R.StartUp(how);
    assert j.drv.hist.sent == [] && j.drv.hist.since == 0;
  }

  lemma ToldInOrder(j: Joint, id: u16)
    requires NoGaps(j, id)
    ensures Told(j, id) == Numbers(0, |Told(j, id)|)
  {
    NumbersJoin(|j.told|, |NumbersOnWire(j.drv, id)|);
  }

  lemma FirstPicked<T>(xs: seq<T>, ks: seq<nat>)
    requires Inside(ks, |xs|) && ks == Numbers(0, |ks|)
    ensures |ks| <= |xs| && Picked(xs, ks) == xs[..|ks|]
  {
    if ks != [] {
      assert ks[|ks| - 1] == |ks| - 1;
    }
  }

  /** Then the payloads have gone out one after the other: those told are the first so many. */
  lemma NothingLost(j: Joint, ms: seq<Move>, id: u16, max: int)
    requires AtStart(j) && CanRun(j, ms, id, max) && KeepsPayloads(j, ms, id, max)
    ensures var k := RunMoves(j, ms, id, max);
      && Told(k, id) == Numbers(0, |Told(k, id)|)
      && |Told(k, id)| <= |AllItems(k.ctl.history)|
      && ItemsOut(j, ms, id, max) == AllItems(k.ctl.history)[..|Told(k, id)|]
  {
    var k := RunMoves(j, ms, id, max);
    StartHandsOn(j, id, max);
    StartsWithoutGaps(j, id);
    RunLeavesNoGaps(j, ms, id, max);
    GoneOut(j, ms, id, max);
    AsManyItems(k.ctl.history, id);
    ToldInOrder(k, id);
    FirstPicked(AllItems(k.ctl.history), Told(k, id));
  }
}
