/** The table controller and the driver it sends through, run together. */
module JointRuns {
  import opened Bytes
  import opened Sequences
  import opened Frames
  import opened TableController
  import opened TableSending
  import D = DriverState
  import R = DriverRuns
  import Packing

  /** An observer of the wire notes, whenever a session closes, the messages of it that had gone out whole:
      `past` lists them over all earlier sessions, `told` the numbers of the table payloads among them. */
  datatype Joint = Joint(ctl: State, drv: D.Driver, past: seq<Frame>, told: seq<nat>)

  /** A call of one of the controller's record handlers, or anything else that happens to the driver. */
  datatype Move = Handler(op: Op) | Driving(event: D.Event)

  /** The call sends something. */
  ghost predicate Sends(s: State, op: Op)
    requires Allowed(s, op)
  {
    op.UpdateOp? && UpdateDecision(s, op.wave, op.regs).Send?
  }

  ghost function PacketsOf(s: State, op: Op): (ps: seq<Body>)
    requires Allowed(s, op) && Sends(s, op)
    ensures 1 <= |ps| <= 2
  {
    Tables(Polarity(op.regs), UpdateDecision(s, op.wave, op.regs).transient, op.wave)
  }

  /** Nobody else queues messages of the table's block. */
  predicate Elsewhere(e: D.Event, id: u16) {
    e.Queue? || e.QueueScratch? ==> e.id != id
  }

  /** The fate of an update is what the driver makes of it; `id` is its block, `max` the limit on the
      driver's buffers. */
  ghost predicate CanMove(j: Joint, m: Move, id: u16, max: int) {
    && D.Sound(j.drv)
    && match m
       case Handler(op) =>
         Allowed(j.ctl, op) && (Sends(j.ctl, op) ==> op.fate == FateOf(j.drv, id, PacketsOf(j.ctl, op), max))
       case Driving(e) => D.Enabled(j.drv, e) && Elsewhere(e, id) && (e.FlushQueue? ==> e.memory)
  }

  ghost function DriverAfter(s: State, op: Op, d: D.Driver, id: u16, max: int): D.Driver
    requires Allowed(s, op) && D.Sound(d)
  {
    if Sends(s, op) then SendAll(d, id, PacketsOf(s, op), max).driver else d
  }

  // What has gone out.

  /** The messages that are completely on the wire of the current session. */
  function OnWire(d: D.Driver): seq<Frame> {
    if d.session.Session? then Parse(d.hist.wire).frames else []
  }

  /** The messages of one block. */
  function OfBlock(fs: seq<Frame>, id: u16): seq<Frame> {
    if fs == [] then [] else OfBlock(fs[..|fs| - 1], id) + if fs[|fs| - 1].id == id then [fs[|fs| - 1]] else []
  }

  /** How many messages of a block were given to earlier sessions. */
  function Earlier(d: D.Driver, id: u16): nat {
    |OfBlock(if d.hist.since <= |d.hist.sent| then d.hist.sent[..d.hist.since] else d.hist.sent, id)|
  }

  /** `n` numbers from `a` on. */
  function Numbers(a: nat, n: nat): (ks: seq<nat>)
    ensures |ks| == n && forall i | 0 <= i < n :: ks[i] == a + i
  {
    if n == 0 then [] else Numbers(a, n - 1) + [a + n - 1]
  }

  /** The numbers of a block's messages on the wire of the current session, counted from the first message
      of the block ever given to a session. */
  function NumbersOnWire(d: D.Driver, id: u16): seq<nat> {
    Numbers(Earlier(d, id), |OfBlock(OnWire(d), id)|)
  }

  predicate Closes(d: D.Driver, t: D.Driver) {
    d.session.Session? && !t.session.Session?
  }

  /** Every message that has gone out whole, over all sessions. */
  function Completed(j: Joint): seq<Frame> {
    j.past + OnWire(j.drv)
  }

  /** The numbers of the table payloads among them. */
  function Told(j: Joint, id: u16): seq<nat> {
    j.told + NumbersOnWire(j.drv, id)
  }

  ghost function Moved(j: Joint, m: Move, id: u16, max: int): Joint
    requires CanMove(j, m, id, max)
  {
    match m
    case Handler(op) => j.(ctl := Apply(j.ctl, op), drv := DriverAfter(j.ctl, op, j.drv, id, max))
    case Driving(e) =>
      var t := D.Step(j.drv, e, max);
      if Closes(j.drv, t) then Joint(j.ctl, t, Completed(j), Told(j, id)) else j.(drv := t)
  }

  ghost predicate CanRun(j: Joint, ms: seq<Move>, id: u16, max: int)
    decreases |ms|
  {
    ms == [] || (CanMove(j, ms[0], id, max) && CanRun(Moved(j, ms[0], id, max), ms[1..], id, max))
  }

  ghost function RunMoves(j: Joint, ms: seq<Move>, id: u16, max: int): Joint
    requires CanRun(j, ms, id, max)
    decreases |ms|
  {
    if ms == [] then j else RunMoves(Moved(j, ms[0], id, max), ms[1..], id, max)
  }

  /** The controller's part of a run. */
  function Handlers(ms: seq<Move>): seq<Op> {
    if ms == [] then []
    else (if ms[0].Handler? then [ms[0].op] else []) + Handlers(ms[1..])
  }

  lemma {:induction false} ControllerRuns(j: Joint, ms: seq<Move>, id: u16, max: int)
    requires CanRun(j, ms, id, max)
    ensures AllowedRun(j.ctl, Handlers(ms)) && RunMoves(j, ms, id, max).ctl == Run(j.ctl, Handlers(ms))
    decreases |ms|
  {
    if ms != [] {
      ControllerRuns(Moved(j, ms[0], id, max), ms[1..], id, max);
      if ms[0].Handler? {
        assert Handlers(ms)[0] == ms[0].op && Handlers(ms)[1..] == Handlers(ms[1..]);
      } else {
        assert Handlers(ms) == Handlers(ms[1..]);
      }
    }
  }

  // The driver keeps its invariant.

  lemma PayloadKeepsSound(d: D.Driver, id: u16, p: Body, max: int)
    requires D.Sound(d)
    ensures D.Sound(D.QueueSend(d, id, p, max, true)) && D.Sound(SendOne(d, id, p, max).driver)
  {
    var q := D.QueueSend(d, id, p, max, true);
    QueueKeepsSound(d, id, p, max);
    FlushKeepsSound(q, max);
  }

  lemma QueueKeepsSound(d: D.Driver, id: u16, p: Body, max: int)
    requires D.Sound(d)
    ensures D.Sound(D.GetSend(d, id)) && D.Sound(D.QueueSend(d, id, p, max, true))
  {
  }

  lemma FlushKeepsSound(d: D.Driver, max: int)
    requires D.Sound(d)
    ensures D.Sound(D.Flush(d, max, true))
  {
  }

  lemma {:induction false} SendingKeepsSound(d: D.Driver, id: u16, ps: seq<Body>, max: int)
    requires D.Sound(d)
    ensures D.Sound(SendAll(d, id, ps, max).driver)
    decreases |ps|
  {
    if ps != [] {
      PayloadKeepsSound(d, id, ps[0], max);
      SendingKeepsSound(SendOne(d, id, ps[0], max).driver, id, ps[1..], max);
    }
  }

  /** Sending is a run of the driver: it queues and flushes. */
  lemma {:induction false} SendingIsRun(d: D.Driver, id: u16, ps: seq<Body>, max: int) returns (es: seq<D.Event>)
    requires D.Sound(d)
    ensures D.EnabledRun(d, es, max) && D.Run(d, es, max) == SendAll(d, id, ps, max).driver
    decreases |ps|
  {
    es := [];
    if ps != [] {
      PayloadKeepsSound(d, id, ps[0], max);
      var o := SendOne(d, id, ps[0], max);
      if !o.thrown {
        es := SendingIsRun(o.driver, id, ps[1..], max);
      }
      es := PayloadEvents(d, id, ps[0], es, max);
    }
  }

  lemma PayloadEvents(d: D.Driver, id: u16, p: Body, es: seq<D.Event>, max: int) returns (fs: seq<D.Event>)
    requires D.Sound(d) && D.EnabledRun(SendOne(d, id, p, max).driver, es, max)
    ensures D.EnabledRun(d, fs, max) && D.Run(d, fs, max) == D.Run(SendOne(d, id, p, max).driver, es, max)
  {
    PayloadKeepsSound(d, id, p, max);
    fs := es;
    if !Throws(D.QueueResult(D.GetSend(d, id), id, max, true)) {
      fs := OneEvent(D.QueueSend(d, id, p, max, true), D.FlushQueue(true), fs, max);
    }
    fs := OneEvent(d, D.Queue(id, p, true), fs, max);
  }

  lemma OneEvent(d: D.Driver, e: D.Event, es: seq<D.Event>, max: int) returns (fs: seq<D.Event>)
    requires D.Sound(d) && D.Enabled(d, e) && D.EnabledRun(D.Step(d, e, max), es, max)
    ensures D.EnabledRun(d, fs, max) && D.Run(d, fs, max) == D.Run(D.Step(d, e, max), es, max)
  {
    fs := [e] + es;
    assert fs[1..] == es;
  }

  lemma SendingKeeps(d: D.Driver, id: u16, ps: seq<Body>, max: int)
    requires R.Invariant(d, max)
    ensures R.Invariant(SendAll(d, id, ps, max).driver, max)
  {
    var es := SendingIsRun(d, id, ps, max);
    R.RunInvariant(d, es, max);
  }

  lemma MoveKeeps(j: Joint, m: Move, id: u16, max: int)
    requires R.Invariant(j.drv, max) && CanMove(j, m, id, max)
    ensures R.Invariant(Moved(j, m, id, max).drv, max)
  {
    match m
    case Handler(op) =>
      if Sends(j.ctl, op) {
        SendingKeeps(j.drv, id, PacketsOf(j.ctl, op), max);
      }
    case Driving(e) => R.StepInvariant(j.drv, e, max);
  }

  // What the driver has accepted of the table's block.

  lemma {:induction false} OfBlockConcat(a: seq<Frame>, b: seq<Frame>, id: u16)
    ensures OfBlock(a + b, id) == OfBlock(a, id) + OfBlock(b, id)
  {
    if b == [] {
      assert a + b == a;
    } else {
      OfBlockConcat(a, b[..|b| - 1], id);
      assert (a + b)[..|a + b| - 1] == a + b[..|b| - 1];
    }
  }

  lemma {:induction false} AllOfBlock(fs: seq<Frame>, id: u16)
    requires forall f | f in fs :: f.id == id
    ensures OfBlock(fs, id) == fs
  {
    if fs != [] {
      AllOfBlock(fs[..|fs| - 1], id);
    }
  }

  lemma {:induction false} FramesConcat(id: u16, a: seq<Body>, b: seq<Body>)
    ensures FramesOf(id, a + b) == FramesOf(id, a) + FramesOf(id, b)
    ensures forall f | f in FramesOf(id, b) :: f.id == id
  {
    if a == [] {
      assert a + b == b;
      FramesId(id, b);
    } else {
      assert (a + b)[1..] == a[1..] + b;
      FramesConcat(id, a[1..], b);
    }
  }

  lemma {:induction false} FramesId(id: u16, b: seq<Body>)
    ensures forall f | f in FramesOf(id, b) :: f.id == id
  {
    if b != [] {
      FramesId(id, b[1..]);
    }
  }

  function Bodies(ps: seq<seq<byte>>): (bs: seq<Body>)
    requires forall p | p in ps :: |p| == 4 * Packing.POINTS
    ensures bs == ps
  {
    ps
  }

  lemma {:induction false} PayloadsAreBodies(h: seq<Accepted>)
    ensures forall p | p in AllPayloads(h) :: |p| == 4 * Packing.POINTS
  {
    if h != [] {
      PayloadsAreBodies(h[..|h| - 1]);
    }
  }

  /** The messages of all updates so far. */
  function FramesSent(h: seq<Accepted>, id: u16): seq<Frame> {
    PayloadsAreBodies(h);
    FramesOf(id, Bodies(AllPayloads(h)))
  }

  /** The driver has accepted, on the table's block, exactly the payloads of the history, in order. */
  ghost predicate HandedOn(j: Joint, id: u16) {
    OfBlock(R.Accepted(j.drv), id) == FramesSent(j.ctl.history, id)
  }

  lemma OneMoreSent(h: seq<Accepted>, a: Accepted, id: u16, sent: seq<Body>)
    requires sent == Payloads(a)
    ensures FramesSent(h + [a], id) == FramesSent(h, id) + FramesOf(id, sent)
    ensures OfBlock(FramesOf(id, sent), id) == FramesOf(id, sent)
  {
    assert (h + [a])[..|h|] == h;
    PayloadsAreBodies(h);
    FramesConcat(id, Bodies(AllPayloads(h)), sent);
    AllOfBlock(FramesOf(id, sent), id);
  }

  /** Whether or not there is a connection. */
  lemma SendingAccepts(d: D.Driver, id: u16, ps: seq<Body>, max: int)
    requires d.connected ==> d.session.Session?
    requires ps != []
    ensures var o := SendAll(d, id, ps, max);
      && o.out == Taken(FateOf(d, id, ps, max), |ps|)
      && R.Accepted(o.driver) == R.Accepted(d) + FramesOf(id, ps[..o.out])
  {
    FateMeaning(d, id, ps, max);
    if d.connected {
      AcceptsCounted(d, id, ps, max);
    } else {
      DisconnectedSendIsSilent(d, id, ps, max);
      assert FramesOf(id, ps[..0]) == [] && R.Accepted(d) + [] == R.Accepted(d);
    }
  }

  lemma SendingRecords(s: State, op: Op)
    requires Allowed(s, op)
    ensures Sends(s, op) ==>
      Apply(s, op).history ==
        s.history + [Accepted(Polarity(op.regs), UpdateDecision(s, op.wave, op.regs).transient, op.wave, op.fate)]
    ensures !Sends(s, op) ==> Apply(s, op).history == s.history
  {
  }

  lemma HandlerHandsOn(j: Joint, op: Op, id: u16, max: int)
    requires CanMove(j, Handler(op), id, max) && HandedOn(j, id)
    ensures HandedOn(Moved(j, Handler(op), id, max), id)
  {
    SendingRecords(j.ctl, op);
    if Sends(j.ctl, op) {
      var ps := PacketsOf(j.ctl, op);
      var o, a := SendAll(j.drv, id, ps, max), Apply(j.ctl, op).history[|j.ctl.history|];
      SendingAccepts(j.drv, id, ps, max);
      assert ps[..o.out] == Payloads(a);
      OneMoreSent(j.ctl.history, a, id, ps[..o.out]);
      OfBlockConcat(R.Accepted(j.drv), FramesOf(id, ps[..o.out]), id);
    }
  }

  lemma EnqueuedElsewhere(d: D.Driver, id: u16, f: Frame)
    requires f.id in d.send && f.id != id
    ensures OfBlock(R.Accepted(D.Enqueued(d, f.id, f.body)), id) == OfBlock(R.Accepted(d), id)
  {
    Regroup(d.hist.sent, d.hist.queue, [f]);
    OfBlockConcat(R.Accepted(d), [f], id);
    assert OfBlock([f], id) == [] by {
      assert [f][..0] == [];
    }
    assert OfBlock(R.Accepted(d), id) + [] == OfBlock(R.Accepted(d), id);
  }

  lemma BlockElsewhere(d: D.Driver, other: u16, body: Body, id: u16, max: int, memory: bool)
    requires other in d.send && other != id
    ensures OfBlock(R.Accepted(D.QueueBlock(d, other, body, max, memory)), id) == OfBlock(R.Accepted(d), id)
  {
    if D.QueueResult(d, other, max, memory) == D.Done {
      EnqueuedElsewhere(d, id, Frame(other, body));
    }
  }

  lemma QueueElsewhere(d: D.Driver, e: D.Event, id: u16, max: int)
    requires D.Sound(d) && (e.Queue? || e.QueueScratch?) && e.id != id
    ensures OfBlock(R.Accepted(D.Step(d, e, max)), id) == OfBlock(R.Accepted(d), id)
  {
    if e.Queue? {
      BlockElsewhere(D.GetSend(d, e.id), e.id, e.body, id, max, e.memory);
    } else if e.id in d.send {
      BlockElsewhere(d, e.id, d.send[e.id].data, id, max, e.memory);
    }
  }

  lemma FlushKeepsAccepted(d: D.Driver, max: int)
    requires d.connected ==> d.session.Session?
    ensures R.Accepted(D.Flush(d, max, true)) == R.Accepted(d)
  {
    assert R.Accepted(d) + [] == R.Accepted(d);
  }

  lemma OthersLeaveAccepted(d: D.Driver, e: D.Event, max: int)
    requires D.Sound(d) && D.Enabled(d, e) && !e.Queue? && !e.QueueScratch? && !e.FlushQueue?
    ensures R.Accepted(D.Step(d, e, max)) == R.Accepted(d)
  {
    if e.Incoming? {
      R.ReceiveLeavesSendSide(D.Arrived(d, e.bytes));
    }
  }

  lemma MoveHandsOn(j: Joint, m: Move, id: u16, max: int)
    requires CanMove(j, m, id, max) && HandedOn(j, id)
    ensures HandedOn(Moved(j, m, id, max), id)
  {
    match m
    case Handler(op) => HandlerHandsOn(j, op, id, max);
    case Driving(e) =>
      if e.Queue? || e.QueueScratch? {
        QueueElsewhere(j.drv, e, id, max);
      } else if e.FlushQueue? {
        FlushKeepsAccepted(j.drv, max);
      } else {
        OthersLeaveAccepted(j.drv, e, max);
      }
  }

  lemma {:induction false} RunHandsOn(j: Joint, ms: seq<Move>, id: u16, max: int)
    requires CanRun(j, ms, id, max) && HandedOn(j, id) && R.Invariant(j.drv, max)
    ensures var k := RunMoves(j, ms, id, max); HandedOn(k, id) && R.Invariant(k.drv, max)
    decreases |ms|
  {
    if ms != [] {
      MoveHandsOn(j, ms[0], id, max);
      MoveKeeps(j, ms[0], id, max);
      RunHandsOn(Moved(j, ms[0], id, max), ms[1..], id, max);
    }
  }

  ghost predicate AtStart(j: Joint) {
    && j.ctl.prevTg == [] && j.ctl.history == [] && j.past == [] && j.told == []
    && exists how :: j.drv == R.StartUp(how)
  }

  lemma NothingAccepted(how: D.Setup)
    ensures R.Accepted(R.StartUp(how)) == []
  {
  }

  lemma NothingSent(h: seq<Accepted>, id: u16)
    requires h == []
    ensures FramesSent(h, id) == OfBlock([], id)
  {
  }

  lemma StartHandsOn(j: Joint, id: u16, max: int)
    requires AtStart(j)
    ensures HandedOn(j, id) && R.Invariant(j.drv, max)
  {
    var how :| j.drv == R.StartUp(how);
    R.StartUpInvariant(how, max);
    NothingAccepted(how);
    NothingSent(j.ctl.history, id);
  }

  /** In every joint run, whatever happens to the connection and however the updates fare, the messages the
      driver has accepted on the table's block are the payloads in the controller's history. */
  lemma JointHistory(j: Joint, ms: seq<Move>, id: u16, max: int)
    requires AtStart(j) && CanRun(j, ms, id, max)
    ensures var k := RunMoves(j, ms, id, max); HandedOn(k, id) && R.Invariant(k.drv, max)
  {
    StartHandsOn(j, id, max);
    RunHandsOn(j, ms, id, max);
  }
}
