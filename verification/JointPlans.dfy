/** Joint runs in which an unsafe plan is carried out. */
module JointPlans {
  import opened Bytes
  import opened Frames
  import opened TableController
  import opened PlayedTables
  import opened SafeRuns
  import opened TableSending
  import opened JointRuns
  import opened JointWire
  import D = DriverState
  import R = DriverRuns

  // One move after the other.

  /** `ms` leads from `j` to `k`. */
  ghost predicate Leads(j: Joint, ms: seq<Move>, k: Joint, max: int) {
    CanRun(j, ms, 0, max) && RunMoves(j, ms, 0, max) == k && D.Sound(k.drv)
  }

  /** And loses nothing on the way. */
  ghost predicate LeadsSafely(j: Joint, ms: seq<Move>, k: Joint, max: int) {
    Leads(j, ms, k, max) && KeepsPayloads(j, ms, 0, max)
  }

  lemma {:induction false} Then(j: Joint, ms: seq<Move>, k: Joint, m: Move, max: int)
    requires Leads(j, ms, k, max) && CanMove(k, m, 0, max)
    ensures CanRun(j, ms + [m], 0, max) && RunMoves(j, ms + [m], 0, max) == Moved(k, m, 0, max)
    ensures KeepsPayloads(j, ms, 0, max) && !Loses(k, m, 0, max) ==> KeepsPayloads(j, ms + [m], 0, max)
    ensures Handlers(ms + [m]) == Handlers(ms) + if m.Handler? then [m.op] else []
    decreases |ms|
  {
    if ms == [] {
      assert [] + [m] == [m] && [m][1..] == [];
      assert CanRun(Moved(k, m, 0, max), [], 0, max) && KeepsPayloads(Moved(k, m, 0, max), [], 0, max);
    } else {
      Then(Moved(j, ms[0], 0, max), ms[1..], k, m, max);
      assert (ms + [m])[1..] == ms[1..] + [m];
    }
  }

  lemma ThenHandler(j: Joint, ms: seq<Move>, k: Joint, op: Op, max: int) returns (ns: seq<Move>, r: Joint)
    requires LeadsSafely(j, ms, k, max) && CanMove(k, Handler(op), 0, max)
    ensures LeadsSafely(j, ns, r, max) && Handlers(ns) == Handlers(ms) + [op]
    ensures r == k.(ctl := Apply(k.ctl, op), drv := DriverAfter(k.ctl, op, k.drv, 0, max))
  {
    if Sends(k.ctl, op) {
      SendingKeepsSound(k.drv, 0, PacketsOf(k.ctl, op), max);
    }
    Then(j, ms, k, Handler(op), max);
    ns, r := ms + [Handler(op)], Moved(k, Handler(op), 0, max);
  }

  lemma ThenDriving(j: Joint, ms: seq<Move>, k: Joint, e: D.Event, t: D.Driver, max: int) returns (ns: seq<Move>, r: Joint)
    requires LeadsSafely(j, ms, k, max) && CanMove(k, Driving(e), 0, max)
    requires t == D.Step(k.drv, e, max) && D.Sound(t) && !Closes(k.drv, t)
    ensures LeadsSafely(j, ns, r, max) && Handlers(ns) == Handlers(ms) && r == k.(drv := t)
  {
    Then(j, ms, k, Driving(e), max);
    ns, r := ms + [Driving(e)], Moved(k, Driving(e), 0, max);
    assert Handlers(ms) + [] == Handlers(ms);
  }

  lemma NoMoves(j: Joint, max: int)
    requires D.Sound(j.drv)
    ensures LeadsSafely(j, [], j, max) && Handlers([]) == []
  {
  }

  // The driver between updates.

  /** Nothing queued of the table's block, and nothing on its way out. */
  ghost predicate Quiet(d: D.Driver) {
    && D.Sound(d) && d.sendbuf == [] && !Waiting(d, 0)
    && (d.session.Session? ==> d.session.output == [])
  }

  /** A driver that has just been started. */
  ghost predicate Fresh(d: D.Driver) {
    Quiet(d) && d.session.Session? && !d.connected && d.send == map[] && d.hist.wire == []
  }

  lemma FreshDriver() returns (d: D.Driver)
    ensures Fresh(d) && exists how :: d == R.StartUp(how)
  {
    d := R.StartUp(D.Started);
  }

  lemma ThenConnected(j: Joint, ms: seq<Move>, k: Joint, max: int) returns (ns: seq<Move>, r: Joint)
    requires LeadsSafely(j, ms, k, max) && !k.drv.connected && k.drv.session.Session? && Quiet(k.drv)
    ensures LeadsSafely(j, ns, r, max) && Handlers(ns) == Handlers(ms)
    ensures r == k.(drv := k.drv.(connected := true, connCount := k.drv.connCount + 1)) && Quiet(r.drv)
  {
    var t := k.drv.(connected := true, connCount := k.drv.connCount + 1);
    ns, r := ThenDriving(j, ms, k, D.Connection(D.NowConnected), t, max);
  }

  lemma DrainEffect(d: D.Driver, max: int) returns (t: D.Driver)
    requires D.Sound(d) && d.connected
    ensures t == D.Step(d, D.Drained(|d.session.output|), max) && D.Sound(t) && SentKept(d, t)
    ensures t.connected && t.session.Session? && t.session.output == [] && t.sendbuf == d.sendbuf && t.send == d.send
  {
    t := D.Drain(d, |d.session.output|);
  }

  lemma ThenDrained(j: Joint, ms: seq<Move>, k: Joint, max: int) returns (ns: seq<Move>, r: Joint)
    requires LeadsSafely(j, ms, k, max) && k.drv.connected
    ensures LeadsSafely(j, ns, r, max) && Handlers(ns) == Handlers(ms) && r == k.(drv := r.drv) && SentKept(k.drv, r.drv)
    ensures r.drv.connected && r.drv.session.Session? && r.drv.session.output == []
    ensures r.drv.sendbuf == k.drv.sendbuf && r.drv.send == k.drv.send
  {
    var t := DrainEffect(k.drv, max);
    ns, r := ThenDriving(j, ms, k, D.Drained(|k.drv.session.output|), t, max);
  }

  // Updates.

  /** The limit on the buffers leaves room for the payloads of this update. */
  predicate Roomy(max: int, n: nat) {
    n == 1 || max <= 0 || max > 43448
  }

  lemma QuietUnobstructed(d: D.Driver, ps: seq<Body>, max: int)
    requires Quiet(d) && d.connected && 1 <= |ps| <= 2 && |ps[0]| == 43440 && Roomy(max, |ps|)
    ensures Unobstructed(d, 0, ps, max)
  {
    if |ps| == 2 {
      assert ps[..1] == [ps[0]];
      EncodeAllOne(Frame(0, ps[0]));
      assert FramesOf(0, [ps[0]]) == [Frame(0, ps[0])];
    }
  }

  lemma ThenSent(j: Joint, ms: seq<Move>, k: Joint, op: Op, max: int) returns (ns: seq<Move>, r: Joint)
    requires LeadsSafely(j, ms, k, max) && Allowed(k.ctl, op) && Sends(k.ctl, op) && op.fate == Delivered
    requires Quiet(k.drv) && k.drv.connected && Roomy(max, |PacketsOf(k.ctl, op)|)
    ensures LeadsSafely(j, ns, r, max) && Handlers(ns) == Handlers(ms) + [op] && r == k.(ctl := Apply(k.ctl, op), drv := r.drv)
    ensures r.drv.connected && r.drv.sendbuf == [] && !Waiting(r.drv, 0)
    ensures SentKept(k.drv, r.drv) && r.drv.hist.wire == k.drv.hist.wire
  {
    var ps := PacketsOf(k.ctl, op);
    QuietUnobstructed(k.drv, ps, max);
    FateMeaning(k.drv, 0, ps, max);
    AllPayloadsGoOut(k.drv, 0, ps, max);
    SendingKeepsSent(k.drv, 0, ps, max);
    ns, r := ThenHandler(j, ms, k, op, max);
  }

  /** An update goes out, and then drains. */
  lemma ThenDelivered(j: Joint, ms: seq<Move>, k: Joint, op: Op, max: int) returns (ns: seq<Move>, r: Joint)
    requires LeadsSafely(j, ms, k, max) && Allowed(k.ctl, op) && Sends(k.ctl, op) && op.fate == Delivered
    requires Quiet(k.drv) && k.drv.connected && Roomy(max, |PacketsOf(k.ctl, op)|)
    ensures LeadsSafely(j, ns, r, max) && Handlers(ns) == Handlers(ms) + [op] && r == k.(ctl := Apply(k.ctl, op), drv := r.drv)
    ensures Quiet(r.drv) && r.drv.connected && SentKept(k.drv, r.drv)
  {
    ns, r := ThenSent(j, ms, k, op, max);
    ns, r := ThenDrained(j, ns, r, max);
  }

  lemma ThenSilent(j: Joint, ms: seq<Move>, k: Joint, op: Op, max: int) returns (ns: seq<Move>, r: Joint)
    requires LeadsSafely(j, ms, k, max) && Allowed(k.ctl, op) && Sends(k.ctl, op) && op.fate == Silent
    requires !k.drv.connected && k.drv.session.Session? && Quiet(k.drv)
    ensures LeadsSafely(j, ns, r, max) && Handlers(ns) == Handlers(ms) + [op] && r == k.(ctl := Apply(k.ctl, op), drv := r.drv)
    ensures !r.drv.connected && r.drv.session.Session? && Quiet(r.drv)
  {
    var ps := PacketsOf(k.ctl, op);
    FateMeaning(k.drv, 0, ps, max);
    DisconnectedSendIsSilent(k.drv, 0, ps, max);
    BlockStaysQuiet(k.drv);
    ns, r := ThenHandler(j, ms, k, op, max);
  }

  lemma BlockStaysQuiet(d: D.Driver)
    requires Quiet(d)
    ensures Quiet(D.GetSend(d, 0))
  {
  }

  // A session's buffer filled to its limit.

  /** A body as long as the limit. */
  function Filling(max: int): (b: Body)
    requires 0 < max < 0x8000_0000
    ensures |b| == max
  {
    seq(max, _ => 0)
  }

  lemma QueueEffect(d: D.Driver, max: int) returns (q: D.Driver)
    requires 0 < max < 0x8000_0000 && d.connected && Quiet(d) && 1 !in d.send
    ensures q == D.Step(d, D.Queue(1, Filling(max), true), max) && D.Sound(q)
    ensures q.connected && q.session == d.session && |q.sendbuf| >= max
  {
    q := D.Enqueued(D.GetSend(d, 1), 1, Filling(max));
  }

  lemma FlushEffect(d: D.Driver, max: int) returns (f: D.Driver)
    requires max > 0 && d.connected && D.Sound(d) && d.session.output == []
    ensures f == D.Step(d, D.FlushQueue(true), max) && D.Sound(f)
    ensures f.connected && f.session.Session? && f.sendbuf == [] && !Waiting(f, 0) && |f.session.output| == |d.sendbuf|
  {
    f := D.Moved(d);
  }

  lemma ThenJammed(j: Joint, ms: seq<Move>, k: Joint, max: int) returns (ns: seq<Move>, r: Joint)
    requires 0 < max < 0x8000_0000 && LeadsSafely(j, ms, k, max)
    requires k.drv.connected && Quiet(k.drv) && 1 !in k.drv.send
    ensures LeadsSafely(j, ns, r, max) && Handlers(ns) == Handlers(ms) && r == k.(drv := r.drv)
    ensures r.drv.connected && r.drv.sendbuf == [] && !Waiting(r.drv, 0) && |r.drv.session.output| >= max
  {
    var q := QueueEffect(k.drv, max);
    var f := FlushEffect(q, max);
    ns, r := ThenDriving(j, ms, k, D.Queue(1, Filling(max), true), q, max);
    ns, r := ThenDriving(j, ns, r, D.FlushQueue(true), f, max);
  }

  /** Queued, and not flushed. */
  lemma ThenCut(j: Joint, ms: seq<Move>, k: Joint, op: Op, max: int) returns (ns: seq<Move>, r: Joint)
    requires max > 0 && LeadsSafely(j, ms, k, max)
    requires Allowed(k.ctl, op) && Sends(k.ctl, op) && op.fate == Refused(1)
    requires k.drv.connected && k.drv.sendbuf == [] && !Waiting(k.drv, 0) && |k.drv.session.output| >= max
    ensures LeadsSafely(j, ns, r, max) && Handlers(ns) == Handlers(ms) + [op] && r == k.(ctl := Apply(k.ctl, op), drv := r.drv)
    ensures r.drv.connected
  {
    var ps := PacketsOf(k.ctl, op);
    ObstructedFirst(k.drv, 0, ps, max);
    StaysConnected(k.drv, 0, ps, max);
    ns, r := ThenHandler(j, ms, k, op, max);
  }

  lemma {:induction false} StaysConnected(d: D.Driver, id: u16, ps: seq<Body>, max: int)
    requires d.connected && d.session.Session?
    ensures SendAll(d, id, ps, max).driver.connected
    decreases |ps|
  {
    if ps != [] {
      StaysConnected(SendOne(d, id, ps[0], max).driver, id, ps[1..], max);
    }
  }

  /** The session drains, takes what is queued, and drains again. */
  lemma ThenEmptied(j: Joint, ms: seq<Move>, k: Joint, max: int) returns (ns: seq<Move>, r: Joint)
    requires max > 0 && LeadsSafely(j, ms, k, max) && k.drv.connected
    ensures LeadsSafely(j, ns, r, max) && Handlers(ns) == Handlers(ms) && r == k.(drv := r.drv)
    ensures r.drv.connected && Quiet(r.drv)
  {
    ns, r := ThenDrained(j, ms, k, max);
    var f := FlushEffect(r.drv, max);
    ns, r := ThenDriving(j, ns, r, D.FlushQueue(true), f, max);
    ns, r := ThenDrained(j, ns, r, max);
  }

  // Whole runs.

  /** Both calls send something, one after the other. */
  ghost predicate BothSend(s: State, a: Op, b: Op) {
    && Allowed(s, a) && Sends(s, a) && |PacketsOf(s, a)| == 1
    && Allowed(Apply(s, a), b) && Sends(Apply(s, a), b) && b.fate == Delivered
  }

  /** How many payloads the second one has. */
  ghost function SecondSize(s: State, a: Op, b: Op): nat
    requires BothSend(s, a, b)
  {
    |PacketsOf(Apply(s, a), b)|
  }

  lemma PlanSends(p: Plan)
    requires BothGoOut(p)
    ensures BothSend(Start(p), OpsOf(p)[0], OpsOf(p)[1])
    ensures p.between.NoTransient? ==> SecondSize(Start(p), OpsOf(p)[0], OpsOf(p)[1]) == 1
  {
    var t := FirstUpdate(p);
    var u := SecondUpdate(p, t);
  }

  lemma FirstConnected(j: Joint, max: int) returns (ms: seq<Move>, k: Joint)
    requires Fresh(j.drv)
    ensures LeadsSafely(j, ms, k, max) && Handlers(ms) == [] && k.ctl == j.ctl
    ensures Quiet(k.drv) && k.drv.connected && 1 !in k.drv.send && k.drv.hist.wire == []
    ensures k.past == j.past && k.told == j.told
  {
    NoMoves(j, max);
    ms, k := ThenConnected(j, [], j, max);
  }

  /** Connect, and send both. */
  lemma PlainMoves(j: Joint, a: Op, b: Op, max: int) returns (ms: seq<Move>, k: Joint)
    requires BothSend(j.ctl, a, b) && a.fate == Delivered && Fresh(j.drv) && Roomy(max, SecondSize(j.ctl, a, b))
    ensures LeadsSafely(j, ms, k, max) && Handlers(ms) == [a, b] && Quiet(k.drv) && k.drv.connected
  {
    ms, k := FirstDelivered(j, a, max);
    ms, k := ThenDelivered(j, ms, k, b, max);
  }

  lemma FirstDelivered(j: Joint, op: Op, max: int) returns (ms: seq<Move>, k: Joint)
    requires Allowed(j.ctl, op) && Sends(j.ctl, op) && |PacketsOf(j.ctl, op)| == 1 && op.fate == Delivered && Fresh(j.drv)
    ensures LeadsSafely(j, ms, k, max) && Handlers(ms) == [op] && k.ctl == Apply(j.ctl, op)
    ensures Quiet(k.drv) && k.drv.connected
  {
    ms, k := FirstConnected(j, max);
    ms, k := ThenDelivered(j, ms, k, op, max);
  }

  /** Send the first one before the connection is there. */
  lemma SilentMoves(j: Joint, a: Op, b: Op, max: int) returns (ms: seq<Move>, k: Joint)
    requires BothSend(j.ctl, a, b) && a.fate == Silent && Fresh(j.drv) && Roomy(max, SecondSize(j.ctl, a, b))
    ensures LeadsSafely(j, ms, k, max) && Handlers(ms) == [a, b] && Quiet(k.drv) && k.drv.connected
  {
    ms, k := FirstSilent(j, a, max);
    ms, k := ThenDelivered(j, ms, k, b, max);
  }

  lemma FirstSilent(j: Joint, op: Op, max: int) returns (ms: seq<Move>, k: Joint)
    requires Allowed(j.ctl, op) && Sends(j.ctl, op) && op.fate == Silent && Fresh(j.drv)
    ensures LeadsSafely(j, ms, k, max) && Handlers(ms) == [op] && k.ctl == Apply(j.ctl, op)
    ensures Quiet(k.drv) && k.drv.connected
  {
    NoMoves(j, max);
    ms, k := ThenSilent(j, [], j, op, max);
    ms, k := ThenConnected(j, ms, k, max);
  }

  /** Fill the session's buffer with a message of another block, so that the first table is queued and not
      flushed; let both of them drain before the second one. */
  lemma CutMoves(j: Joint, a: Op, b: Op, max: int) returns (ms: seq<Move>, k: Joint)
    requires 0 < max < 0x8000_0000
    requires BothSend(j.ctl, a, b) && a.fate == Refused(1) && Fresh(j.drv) && Roomy(max, SecondSize(j.ctl, a, b))
    ensures LeadsSafely(j, ms, k, max) && Handlers(ms) == [a, b] && Quiet(k.drv) && k.drv.connected
  {
    ms, k := FirstCut(j, a, max);
    ms, k := ThenDelivered(j, ms, k, b, max);
  }

  lemma FirstCut(j: Joint, op: Op, max: int) returns (ms: seq<Move>, k: Joint)
    requires 0 < max < 0x8000_0000
    requires Allowed(j.ctl, op) && Sends(j.ctl, op) && op.fate == Refused(1) && Fresh(j.drv)
    ensures LeadsSafely(j, ms, k, max) && Handlers(ms) == [op] && k.ctl == Apply(j.ctl, op)
    ensures Quiet(k.drv) && k.drv.connected
  {
    ms, k := FirstJammed(j, max);
    ms, k := ThenCut(j, ms, k, op, max);
    ms, k := ThenEmptied(j, ms, k, max);
  }

  lemma FirstJammed(j: Joint, max: int) returns (ms: seq<Move>, k: Joint)
    requires 0 < max < 0x8000_0000 && Fresh(j.drv)
    ensures LeadsSafely(j, ms, k, max) && Handlers(ms) == [] && k.ctl == j.ctl
    ensures k.drv.connected && k.drv.sendbuf == [] && !Waiting(k.drv, 0) && |k.drv.session.output| >= max
  {
    ms, k := FirstConnected(j, max);
    ms, k := ThenJammed(j, ms, k, max);
  }

  /** At the end of these everything has gone out. */
  lemma QuietIsOut(k: Joint, id: u16, max: int)
    requires R.Invariant(k.drv, max) && HandedOn(k, id) && k.drv.session.Session?
    requires k.drv.session.output == [] && k.drv.sendbuf == []
    ensures Earlier(k.drv, id) + |OfBlock(OnWire(k.drv), id)| == |AllItems(k.ctl.history)|
    ensures k.drv.hist.queue == []
  {
    var d := k.drv;
    EmptyQueue(d, max);
    WireInOrder(d);
    Parts(d, id);
    AsManyItems(k.ctl.history, id);
    assert R.Accepted(d) == d.hist.sent && Outstanding(d) == [];
  }

  lemma EmptyQueue(d: D.Driver, max: int)
    requires R.QueueOk(d, max) && d.sendbuf == []
    ensures d.hist.queue == []
  {
    NotNothing(d.hist.queue);
  }

  lemma NotNothing(fs: seq<Frame>)
    ensures fs != [] ==> EncodeAll(fs) != []
  {
  }

  lemma AllOut(j: Joint, ms: seq<Move>, k: Joint, max: int)
    requires AtStart(j) && LeadsSafely(j, ms, k, max) && Quiet(k.drv) && k.drv.connected
    ensures ItemsOut(j, ms, 0, max) == AllItems(k.ctl.history)
  {
    JointHistory(j, ms, 0, max);
    NothingLost(j, ms, 0, max);
    QuietIsOut(k, 0, max);
    StartHandsOn(j, 0, max);
    StartsWithoutGaps(j, 0);
    RunLeavesNoGaps(j, ms, 0, max);
    assert |Told(k, 0)| == |AllItems(k.ctl.history)|;
  }

  /** A joint run that carries a plan out and lets everything reach the wire. */
  lemma PlanMoves(p: Plan, max: int) returns (j: Joint, ms: seq<Move>)
    requires BothGoOut(p) && (p.between.NoTransient? || max <= 0 || max > 43448)
    requires p.fate == Delivered || p.fate == Silent || (p.fate == Refused(1) && 0 < max < 0x8000_0000)
    ensures j.ctl == Start(p) && AtStart(j) && CanRun(j, ms, 0, max) && Handlers(ms) == OpsOf(p)
    ensures KeepsPayloads(j, ms, 0, max)
    ensures ItemsOut(j, ms, 0, max) == AllItems(RunMoves(j, ms, 0, max).ctl.history)
  {
    var d := FreshDriver();
    j := Joint(Start(p), d, [], []);
    var a, b := OpsOf(p)[0], OpsOf(p)[1];
    PlanSends(p);
    var k;
    if p.fate == Delivered {
      ms, k := PlainMoves(j, a, b, max);
    } else if p.fate == Silent {
      ms, k := SilentMoves(j, a, b, max);
    } else {
      ms, k := CutMoves(j, a, b, max);
    }
    AllOut(j, ms, k, max);
  }

  // A run that loses a table with its session.

  lemma {:induction false} HandlersTogether(ms: seq<Move>, ns: seq<Move>)
    ensures Handlers(ms + ns) == Handlers(ms) + Handlers(ns)
  {
    if ms == [] {
      assert [] + ns == ns;
    } else {
      HandlersTogether(ms[1..], ns);
      assert (ms + ns)[1..] == ms[1..] + ns;
    }
  }

  lemma FirstMove(j: Joint, m: Move, ms: seq<Move>, max: int)
    requires CanMove(j, m, 0, max) && CanRun(Moved(j, m, 0, max), ms, 0, max)
    ensures CanRun(j, [m] + ms, 0, max) && RunMoves(j, [m] + ms, 0, max) == RunMoves(Moved(j, m, 0, max), ms, 0, max)
  {
    assert ([m] + ms)[1..] == ms;
  }

  lemma {:induction false} RunTogether(j: Joint, ms: seq<Move>, ns: seq<Move>, max: int)
    requires CanRun(j, ms, 0, max) && CanRun(RunMoves(j, ms, 0, max), ns, 0, max)
    ensures CanRun(j, ms + ns, 0, max)
    ensures RunMoves(j, ms + ns, 0, max) == RunMoves(RunMoves(j, ms, 0, max), ns, 0, max)
    decreases |ms|
  {
    if ms == [] {
      assert [] + ns == ns;
    } else {
      var m, rest := ms[0], ms[1..];
      RunTogether(Moved(j, m, 0, max), rest, ns, max);
      FirstMove(j, m, rest + ns, max);
      assert ms + ns == [m] + (rest + ns);
    }
  }

  /** Connect and send, and let nothing reach the wire. */
  lemma FirstStuck(j: Joint, op: Op, max: int) returns (ms: seq<Move>, k: Joint)
    requires Allowed(j.ctl, op) && Sends(j.ctl, op) && |PacketsOf(j.ctl, op)| == 1 && op.fate == Delivered
    requires Fresh(j.drv) && j.past == [] && j.told == []
    ensures LeadsSafely(j, ms, k, max) && Handlers(ms) == [op] && k.ctl == Apply(j.ctl, op) && k.past == [] && k.told == []
    ensures k.drv.connected && k.drv.sendbuf == [] && !Waiting(k.drv, 0) && k.drv.hist.wire == []
  {
    ms, k := FirstConnected(j, max);
    ms, k := ThenSent(j, ms, k, op, max);
  }

  /** The connection fails. */
  lemma Failing(k: Joint, max: int) returns (r: Joint)
    requires D.Sound(k.drv) && k.drv.connected && k.drv.hist.wire == [] && k.past == [] && k.told == []
    ensures Leads(k, [Driving(D.Connection(D.Failed))], r, max) && Handlers([Driving(D.Connection(D.Failed))]) == []
    ensures r == Joint(k.ctl, D.StartReconnect(k.drv), [], [])
  {
    var m := Driving(D.Connection(D.Failed));
    assert Parse([]).frames == [] && OfBlock([], 0) == [];
    r := Moved(k, m, 0, max);
    assert [m][1..] == [] && CanRun(r, [], 0, max);
  }

  /** Waiting for the timer, with nothing of the table's block queued. */
  predicate Closed(d: D.Driver) {
    d.timer && !d.connected && !d.session.Session? && d.sendbuf == [] && !Waiting(d, 0)
  }

  lemma TimerEffect(d: D.Driver, max: int) returns (t: D.Driver)
    requires D.Sound(d) && Closed(d)
    ensures t == D.Step(d, D.TimerFires(D.Started), max) && D.Sound(t) && Quiet(t) && t.session.Session? && !t.connected
    ensures t.hist.sent == d.hist.sent && t.hist.since == |d.hist.sent|
  {
    t := D.Reconnect(d, D.Started);
  }

  /** A new session is set up, and an update goes out on it. */
  lemma ThenAgain(k: Joint, op: Op, max: int) returns (ms: seq<Move>, r: Joint)
    requires D.Sound(k.drv) && Closed(k.drv)
    requires Allowed(k.ctl, op) && Sends(k.ctl, op) && |PacketsOf(k.ctl, op)| == 1 && op.fate == Delivered
    ensures Leads(k, ms, r, max) && Handlers(ms) == [op] && r == k.(ctl := Apply(k.ctl, op), drv := r.drv)
    ensures Quiet(r.drv) && r.drv.connected && Earlier(r.drv, 0) == |OfBlock(k.drv.hist.sent, 0)|
  {
    var t := TimerEffect(k.drv, max);
    NoMoves(k, max);
    ms, r := ThenDriving(k, [], k, D.TimerFires(D.Started), t, max);
    ms, r := ThenConnected(k, ms, r, max);
    var c := r.drv;
    ms, r := ThenDelivered(k, ms, r, op, max);
    AllEarlier(c);
    SameBefore(c, r.drv, 0);
  }

  lemma AllEarlier(d: D.Driver)
    requires d.hist.since == |d.hist.sent|
    ensures Earlier(d, 0) == |OfBlock(d.hist.sent, 0)|
  {
    assert d.hist.sent[..|d.hist.sent|] == d.hist.sent;
  }

  /** Connect, send, and fail before anything is on the wire. */
  lemma FirstLost(j: Joint, op: Op, max: int) returns (ms: seq<Move>, k: Joint)
    requires Allowed(j.ctl, op) && Sends(j.ctl, op) && |PacketsOf(j.ctl, op)| == 1 && op.fate == Delivered
    requires AtStart(j) && Fresh(j.drv)
    ensures Leads(j, ms, k, max) && Handlers(ms) == [op] && k.ctl == Apply(j.ctl, op) && k.told == [] && Closed(k.drv)
    ensures |OfBlock(k.drv.hist.sent, 0)| == |AllItems(k.ctl.history)|
  {
    var c;
    ms, c := FirstStuck(j, op, max);
    GivenSoFar(j, ms, c, max);
    k := Failing(c, max);
    RunTogether(j, ms, [Driving(D.Connection(D.Failed))], max);
    HandlersTogether(ms, [Driving(D.Connection(D.Failed))]);
    ms := ms + [Driving(D.Connection(D.Failed))];
  }

  /** Whatever led there, connect again, and send. */
  lemma ThenRecovered(j: Joint, ms: seq<Move>, k: Joint, op: Op, max: int) returns (ns: seq<Move>, r: Joint)
    requires Leads(j, ms, k, max) && k.told == [] && Closed(k.drv)
    requires Allowed(k.ctl, op) && Sends(k.ctl, op) && |PacketsOf(k.ctl, op)| == 1 && op.fate == Delivered
    ensures Leads(j, ns, r, max) && Handlers(ns) == Handlers(ms) + [op] && r.ctl == Apply(k.ctl, op) && r.told == []
    ensures Quiet(r.drv) && r.drv.connected && Earlier(r.drv, 0) == |OfBlock(k.drv.hist.sent, 0)|
  {
    var again;
    again, r := ThenAgain(k, op, max);
    RunTogether(j, ms, again, max);
    HandlersTogether(ms, again);
    ns := ms + again;
  }

  lemma GivenSoFar(j: Joint, ms: seq<Move>, k: Joint, max: int)
    requires AtStart(j) && Leads(j, ms, k, max) && k.drv.sendbuf == []
    ensures |OfBlock(k.drv.hist.sent, 0)| == |AllItems(k.ctl.history)|
  {
    JointHistory(j, ms, 0, max);
    EmptyQueue(k.drv, max);
    AsManyItems(k.ctl.history, 0);
    assert R.Accepted(k.drv) == k.drv.hist.sent;
  }

  lemma OneItemEach(p: Plan)
    requires p.fate == Delivered && p.between.NoTransient?
    ensures AllItems(HistoryOf(p)[..1]) == [Item(p.first, false)]
    ensures AllItems(HistoryOf(p)) == [Item(p.first, false), Item(p.second, false)]
  {
    var h := HistoryOf(p);
    assert h[..1] == [h[0]] && [h[0]][..0] == [];
    assert AllItems([h[0]]) == [] + ItemsOf(h[0]);
  }

  lemma PlanHistory(p: Plan)
    requires BothGoOut(p)
    ensures var s, ops := Start(p), OpsOf(p);
      && Allowed(s, ops[0]) && Allowed(Apply(s, ops[0]), ops[1])
      && Apply(s, ops[0]).history == HistoryOf(p)[..1]
      && Apply(Apply(s, ops[0]), ops[1]).history == HistoryOf(p)
  {
    var t := FirstUpdate(p);
    var u := SecondUpdate(p, t);
    assert HistoryOf(p) == HistoryOf(p)[..1] + [HistoryOf(p)[1]];
  }

  lemma OnlySecond(j: Joint, ms: seq<Move>, k: Joint, x: Item, y: Item, max: int)
    requires AtStart(j) && Leads(j, ms, k, max) && Quiet(k.drv) && k.drv.connected && k.told == []
    requires AllItems(k.ctl.history) == [x, y] && Earlier(k.drv, 0) == 1
    ensures ItemsOut(j, ms, 0, max) == [y]
  {
    JointHistory(j, ms, 0, max);
    QuietIsOut(k, 0, max);
    SecondTold(k);
    GoneOut(j, ms, 0, max);
    AsManyItems(k.ctl.history, 0);
    SecondPicked(x, y, Told(k, 0));
  }

  lemma SecondTold(k: Joint)
    requires k.told == [] && Earlier(k.drv, 0) == 1 && |OfBlock(OnWire(k.drv), 0)| == 1
    ensures Told(k, 0) == [1]
  {
  }

  lemma SecondPicked(x: Item, y: Item, ks: seq<nat>)
    requires ks == [1]
    ensures Picked([x, y], ks) == [y]
  {
  }

  lemma PlainPlan(p: Plan)
    requires BothGoOut(p) && p.fate == Delivered && p.between.NoTransient?
    ensures var s, a, b := Start(p), OpsOf(p)[0], OpsOf(p)[1];
      && BothSend(s, a, b) && SecondSize(s, a, b) == 1 && a.fate == Delivered
      && AllItems(Apply(s, a).history) == [Item(p.first, false)]
      && AllItems(Apply(Apply(s, a), b).history) == [Item(p.first, false), Item(p.second, false)]
  {
    PlanSends(p);
    PlanHistory(p);
    OneItemEach(p);
  }

  /** The plan up to the reconnect. */
  lemma LostFirst(p: Plan, max: int) returns (j: Joint, ms: seq<Move>, k: Joint)
    requires BothGoOut(p) && p.fate == Delivered && p.between.NoTransient?
    ensures j.ctl == Start(p) && AtStart(j) && Leads(j, ms, k, max) && Handlers(ms) == [OpsOf(p)[0]]
    ensures k.told == [] && Closed(k.drv) && |OfBlock(k.drv.hist.sent, 0)| == 1
    ensures var b := OpsOf(p)[1];
      && Allowed(k.ctl, b) && Sends(k.ctl, b) && |PacketsOf(k.ctl, b)| == 1 && b.fate == Delivered
      && AllItems(Apply(k.ctl, b).history) == [Item(p.first, false), Item(p.second, false)]
  {
    var d := FreshDriver();
    j := Joint(Start(p), d, [], []);
    PlainPlan(p);
    ms, k := FirstLost(j, OpsOf(p)[0], max);
  }

  lemma SecondOut(j: Joint, ms: seq<Move>, k: Joint, op: Op, x: Item, y: Item, max: int) returns (ns: seq<Move>)
    requires AtStart(j) && Leads(j, ms, k, max) && k.told == [] && Closed(k.drv) && |OfBlock(k.drv.hist.sent, 0)| == 1
    requires Allowed(k.ctl, op) && Sends(k.ctl, op) && |PacketsOf(k.ctl, op)| == 1 && op.fate == Delivered
    requires AllItems(Apply(k.ctl, op).history) == [x, y]
    ensures CanRun(j, ns, 0, max) && Handlers(ns) == Handlers(ms) + [op] && ItemsOut(j, ns, 0, max) == [y]
  {
    var r;
    ns, r := ThenRecovered(j, ms, k, op, max);
    OnlySecond(j, ns, r, x, y, max);
  }

  /** Of a plan carried out like that only the second table goes out. */
  lemma LossyMoves(p: Plan, max: int) returns (j: Joint, ms: seq<Move>)
    requires BothGoOut(p) && p.fate == Delivered && p.between.NoTransient?
    ensures j.ctl == Start(p) && AtStart(j) && CanRun(j, ms, 0, max) && Handlers(ms) == OpsOf(p)
    ensures ItemsOut(j, ms, 0, max) == [Item(p.second, false)]
  {
    var k;
    j, ms, k := LostFirst(p, max);
    ms := SecondOut(j, ms, k, OpsOf(p)[1], Item(p.first, false), Item(p.second, false), max);
  }
}
