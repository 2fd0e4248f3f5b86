/** What holds in every run of the stream driver. */
module DriverRuns {
  import opened Bytes
  import opened Sequences
  import opened Frames
  import opened Inboxes
  import opened DriverState
  import opened QueueLaws
  import opened StreamDecoding

  // Receiving: the decoder and its counters.

  /** The bytes that arrived in this session are complete messages, a header if one is waiting for
      its body, and what is still in the input buffer: nothing is left over from another session. */
  ghost predicate InStep(d: Driver) {
    d.session.Session? ==>
      && (exists fs :: d.hist.arrived == EncodeAll(fs) + PendingHeader(d) + d.session.input)
      && d.hist.taken + |d.session.input| == |d.hist.arrived|
  }

  /** Every header is counted once, and its body completed, pending or cut off. */
  ghost predicate Accounted(d: Driver) {
    && d.hist.heads == TotalCount(d.inbox.blocks) + d.inbox.unknown
    && d.hist.heads == d.hist.bodies + d.hist.cut + (if d.haveHead then 1 else 0)
  }

  lemma HeaderInStep(d: Driver, fs: seq<Frame>)
    requires d.session.Session? && !d.haveHead && |d.session.input| >= HEADER_SIZE && Magic(d.session.input[..HEADER_SIZE])
    requires d.hist.arrived == EncodeAll(fs) + PendingHeader(d) + d.session.input
    ensures var t := TakeHeader(d); t.hist.arrived == EncodeAll(fs) + PendingHeader(t) + t.session.input
  {
    var s := d.session.input;
    HeaderPrefix(s);
    HeaderFromBytes(s);
    Regroup(EncodeAll(fs), Header(HeaderId(s), HeaderLen(s)), s[HEADER_SIZE..]);
    assert EncodeAll(fs) + [] == EncodeAll(fs);
  }

  lemma BodyInStep(d: Driver, fs: seq<Frame>)
    requires d.session.Session? && DecoderOk(d) && d.haveHead && |d.session.input| >= d.bodylen
    requires d.hist.arrived == EncodeAll(fs) + PendingHeader(d) + d.session.input
    ensures var t, gs := TakeBody(d), fs + [Frame(d.header, d.session.input[..d.bodylen])];
      t.hist.arrived == EncodeAll(gs) + PendingHeader(t) + t.session.input
  {
    var s, n := d.session.input, d.bodylen;
    var f := Frame(d.header, s[..n]);
    EncodeAllConcat(fs, [f]);
    EncodeAllOne(f);
    assert s == s[..n] + s[n..];
    Regroup(EncodeAll(fs) + Header(d.header, n), s[..n], s[n..]);
    Regroup(EncodeAll(fs), Header(d.header, n), s[..n]);
    assert EncodeAll(fs + [f]) + [] == EncodeAll(fs + [f]);
  }

  lemma StepAccounted(d: Driver)
    requires Receiving(d) && |d.session.input| >= d.need && Accounted(d)
    ensures Accounted(ReceiveStep(d))
  {
    var s := d.session.input;
    if d.haveHead {
      if d.known {
        SeeBodyCounts(d.inbox, Frame(d.header, s[..d.bodylen]));
      }
    } else {
      SeeHeaderCounts(d.inbox, HeaderId(s[..HEADER_SIZE]));
    }
  }

  lemma StepInStep(d: Driver)
    requires Receiving(d) && |d.session.input| >= d.need && InStep(d)
    ensures InStep(ReceiveStep(d))
  {
    var fs :| d.hist.arrived == EncodeAll(fs) + PendingHeader(d) + d.session.input;
    if d.haveHead {
      BodyInStep(d, fs);
    } else if Magic(d.session.input[..HEADER_SIZE]) {
      HeaderInStep(d, fs);
    }
  }

  lemma {:induction false} ReceiveInStep(d: Driver)
    requires Receiving(d) && InStep(d) && Accounted(d)
    ensures InStep(Receive(d)) && Accounted(Receive(d))
    decreases Pending(d)
  {
    if |d.session.input| >= d.need {
      StepInStep(d);
      StepAccounted(d);
      var t := ReceiveStep(d);
      if t.connected {
        ReceiveInStep(t);
      }
    }
  }

  lemma ArrivedInStep(d: Driver, bytes: seq<byte>)
    requires d.session.Session? && InStep(d)
    ensures InStep(Arrived(d, bytes))
  {
    var fs :| d.hist.arrived == EncodeAll(fs) + PendingHeader(d) + d.session.input;
    Regroup(EncodeAll(fs) + PendingHeader(d), d.session.input, bytes);
  }

  /** With nothing left to decode, the decoder stands where the parse of the session's bytes ends. */
  lemma StandsAtTail(d: Driver)
    requires d.connected && Settled(d) && InStep(d)
    ensures Parse(d.hist.arrived).tail ==
      if d.haveHead then AwaitBody(d.header, d.bodylen, d.session.input) else AwaitHeader(d.session.input)
  {
    var fs :| d.hist.arrived == EncodeAll(fs) + PendingHeader(d) + d.session.input;
    var rest := PendingHeader(d) + d.session.input;
    Regroup(EncodeAll(fs), PendingHeader(d), d.session.input);
    ParseEncoded(fs, rest);
    if d.haveHead {
      HeaderMeaning(d.header, d.bodylen, d.session.input);
    } else {
      assert rest == d.session.input;
    }
  }

  // Sending: what the current session was given.

  /** Whole messages, some of their bytes already on the wire. */
  ghost predicate WireOk(d: Driver) {
    && d.hist.since <= |d.hist.sent|
    && (d.session.Session? ==> d.hist.wire + d.session.output == EncodeAll(d.hist.sent[d.hist.since..]))
  }

  ghost predicate QueueOk(d: Driver, max: int) {
    QueueHolds(d.hist, d.sendbuf, d.send, max)
  }

  lemma MovedWireOk(d: Driver, max: int)
    requires QueueOk(d, max) && WireOk(d) && d.session.Session?
    ensures WireOk(Moved(d))
  {
    var a, q, k := d.hist.sent, d.hist.queue, d.hist.since;
    assert (a + q)[k..] == a[k..] + q;
    EncodeAllConcat(a[k..], q);
    Regroup(d.hist.wire, d.session.output, d.sendbuf);
  }

  lemma ConnectWireOk(d: Driver, how: Setup)
    requires d.session == NoSession
    ensures WireOk(Connect(d, how))
  {
    assert d.hist.sent[|d.hist.sent|..] == [];
  }

  // All of it together.

  ghost predicate Invariant(d: Driver, max: int) {
    && Sound(d) && Settled(d) && InStep(d) && Accounted(d)
    && QueueOk(d, max) && WireOk(d)
    && !(d.session.Session? && d.timer)
    && (d.session.Session? && !d.connected ==> !d.haveHead && d.session == Session([], [], HEADER_SIZE, MIN_MAX_BUF_SIZE))
  }

  lemma ConnectInvariant(d: Driver, how: Setup, max: int)
    requires Sound(d) && Accounted(d) && QueueOk(d, max) && !d.connected && d.session == NoSession && !d.timer
    ensures Invariant(Connect(d, how), max)
  {
    var t := Connect(d, how);
    SameQueue(d, t, max);
    ConnectWireOk(d, how);
    assert EncodeAll([]) + [] + [] == [];
  }

  /** Decoding touches nothing on the send side. */
  lemma {:induction false} ReceiveLeavesSendSide(d: Driver)
    requires Receiving(d)
    ensures var r := Receive(d);
      && r.sendbuf == d.sendbuf && r.send == d.send && r.connCount == d.connCount
      && r.hist.sent == d.hist.sent && r.hist.queue == d.hist.queue
      && r.hist.since == d.hist.since && r.hist.moved == d.hist.moved
      && r.hist.dropped == d.hist.dropped && r.hist.stale == d.hist.stale
      && (r.connected ==>
            r.session.Session? && r.session.output == d.session.output && r.hist.wire == d.hist.wire && r.timer == d.timer)
    decreases Pending(d)
  {
    if |d.session.input| >= d.need && ReceiveStep(d).connected {
      ReceiveLeavesSendSide(ReceiveStep(d));
    }
  }

  lemma IncomingInvariant(d: Driver, bytes: seq<byte>, max: int)
    requires Invariant(d, max) && Enabled(d, Incoming(bytes))
    ensures Invariant(Step(d, Incoming(bytes), max), max)
  {
    var t := Arrived(d, bytes);
    ArrivedInStep(d, bytes);
    ReceiveInStep(t);
    ReceiveSettles(t);
    ReceiveLeavesSendSide(t);
    SameQueue(d, Receive(t), max);
  }

  lemma DrainInvariant(d: Driver, n: nat, max: int)
    requires Invariant(d, max) && Enabled(d, Drained(n))
    ensures Invariant(Step(d, Drained(n), max), max)
  {
    var t := Drain(d, n);
    DrainWireOk(d, n);
    SameReceiver(d, t);
    SameQueue(d, t, max);
  }

  lemma DrainWireOk(d: Driver, n: nat)
    requires WireOk(d) && d.session.Session? && n <= |d.session.output|
    ensures WireOk(Drain(d, n))
  {
    var o := d.session.output;
    assert o == o[..n] + o[n..];
    Regroup(d.hist.wire, o[..n], o[n..]);
  }

  lemma QueueInvariant(d: Driver, id: u16, body: Body, max: int, memory: bool)
    requires Invariant(d, max)
    ensures Invariant(QueueSend(d, id, body, max, memory), max)
    ensures id in d.send ==> Invariant(QueueBlock(d, id, body, max, memory), max)
  {
    SendBlockInvariant(d, id, max);
    var t := GetSend(d, id);
    if QueueResult(t, id, max, memory) == Done {
      EnqueuedInvariant(t, id, body, max);
    }
  }

  lemma EnqueuedInvariant(d: Driver, id: u16, body: Body, max: int)
    requires Invariant(d, max) && id in d.send && !d.send[id].queued && HasRoom(|d.sendbuf|, max)
    ensures Invariant(Enqueued(d, id, body), max)
  {
    EnqueuedQueueOk(d, id, body, max);
    SameReceiver(d, Enqueued(d, id, body));
  }

  lemma EnqueuedQueueOk(d: Driver, id: u16, body: Body, max: int)
    requires QueueOk(d, max) && id in d.send && !d.send[id].queued && HasRoom(|d.sendbuf|, max)
    ensures QueueOk(Enqueued(d, id, body), max)
  {
    QueueOneMore(d.hist, d.sendbuf, d.send, max, Frame(id, body));
  }

  /** The receive invariants look at the receive side only. */
  lemma SameReceiver(d: Driver, t: Driver)
    requires InStep(d) && Accounted(d)
    requires t.session.Session? == d.session.Session? && (d.session.Session? ==> t.session.input == d.session.input)
    requires t.haveHead == d.haveHead && t.header == d.header && t.bodylen == d.bodylen && t.inbox == d.inbox
    requires t.hist.arrived == d.hist.arrived && t.hist.taken == d.hist.taken
    requires t.hist.heads == d.hist.heads && t.hist.bodies == d.hist.bodies && t.hist.cut == d.hist.cut
    ensures InStep(t) && Accounted(t)
  {
    if d.session.Session? {
      var fs :| d.hist.arrived == EncodeAll(fs) + PendingHeader(d) + d.session.input;
      assert t.hist.arrived == EncodeAll(fs) + PendingHeader(t) + t.session.input;
    }
  }

  lemma SameQueue(d: Driver, t: Driver, max: int)
    requires QueueOk(d, max)
    requires t.sendbuf == d.sendbuf && t.hist.sent == d.hist.sent && t.hist.queue == d.hist.queue
    requires t.hist.moved == d.hist.moved && t.hist.dropped == d.hist.dropped && t.hist.stale == d.hist.stale
    requires t.send.Keys == d.send.Keys
    requires forall id | id in d.send :: t.send[id].queued == d.send[id].queued && t.send[id].count == d.send[id].count
    ensures QueueOk(t, max)
  {
    SameLaws(d.hist, t.hist, d.sendbuf, d.send, t.send, max);
  }

  lemma ClosedInvariant(d: Driver, max: int)
    requires Invariant(d, max) && d.session.Session?
    ensures Invariant(StartReconnect(d), max)
  {
    SameQueue(d, StartReconnect(d), max);
  }

  lemma TimerInvariant(d: Driver, how: Setup, max: int)
    requires Invariant(d, max) && d.timer
    ensures Invariant(Reconnect(d, how), max)
  {
    var t := d.(timer := false);
    SameQueue(d, t, max);
    ConnectInvariant(t, how, max);
  }

  lemma ConnectedInvariant(d: Driver, max: int)
    requires Invariant(d, max) && Enabled(d, Connection(NowConnected))
    ensures Invariant(EventCb(d, NowConnected), max)
  {
    var t := EventCb(d, NowConnected);
    SameReceiver(d, t);
    SameQueue(d, t, max);
  }

  lemma MovedInvariant(d: Driver, max: int)
    requires Invariant(d, max) && d.connected
    ensures Invariant(Moved(d), max)
  {
    QueueMoved(d.hist, d.sendbuf, d.send, max);
    MovedWireOk(d, max);
    SameReceiver(d, Moved(d));
  }

  lemma ThrownAwayInvariant(d: Driver, max: int)
    requires Invariant(d, max)
    ensures Invariant(ThrownAway(d), max)
  {
    QueueThrownAway(d.hist, d.sendbuf, d.send, max);
    SameReceiver(d, ThrownAway(d));
  }

  lemma FlushInvariant(d: Driver, max: int, memory: bool)
    requires Invariant(d, max)
    ensures Invariant(Flush(d, max, memory), max)
  {
    match FlushResult(d, max, memory)
    case Done => MovedInvariant(d, max);
    case NoMemory => ThrownAwayInvariant(d, max);
    case _ =>
  }

  lemma SendBlockInvariant(d: Driver, id: u16, max: int)
    requires Invariant(d, max)
    ensures Invariant(GetSend(d, id), max)
  {
    if id !in d.send {
      NewBlock(d.hist, d.sendbuf, d.send, max, id);
      SameReceiver(d, GetSend(d, id));
    }
  }

  lemma ScratchInvariant(d: Driver, id: u16, data: Body, max: int)
    requires Invariant(d, max)
    ensures Invariant(ResizeScratch(d, id, data), max)
  {
    SendBlockInvariant(d, id, max);
    NewDataInvariant(GetSend(d, id), id, data, max);
  }

  lemma NewDataInvariant(d: Driver, id: u16, data: Body, max: int)
    requires Invariant(d, max) && id in d.send
    ensures Invariant(d.(send := d.send[id := d.send[id].(data := data)]), max)
  {
    var t := d.(send := d.send[id := d.send[id].(data := data)]);
    SameReceiver(d, t);
    SameQueue(d, t, max);
  }

  lemma InterestInvariant(d: Driver, id: u16, max: int)
    requires Invariant(d, max)
    ensures Invariant(GetRecv(d, id), max)
  {
    var t := GetRecv(d, id);
    if id !in d.inbox.blocks {
      NewBlockCounts(d.inbox.blocks, id);
      SameReceiver(d, t.(inbox := d.inbox));
      assert InStep(t) by {
        if d.session.Session? {
          var fs :| d.hist.arrived == EncodeAll(fs) + PendingHeader(d) + d.session.input;
          assert t.hist.arrived == EncodeAll(fs) + PendingHeader(t) + t.session.input;
        }
      }
      SameQueue(d, t, max);
    }
  }

  lemma StepInvariant(d: Driver, e: Event, max: int)
    requires Invariant(d, max) && Enabled(d, e)
    ensures Invariant(Step(d, e, max), max)
  {
    match e
    case TimerFires(how) => TimerInvariant(d, how, max);
    case Connection(NowConnected) => ConnectedInvariant(d, max);
    case Connection(Failed) => ClosedInvariant(d, max);
    case Connection(Other) =>
    case Incoming(bytes) => IncomingInvariant(d, bytes, max);
    case Drained(n) => DrainInvariant(d, n, max);
    case Force => if d.connected { ClosedInvariant(d, max); }
    case Queue(id, body, memory) => QueueInvariant(d, id, body, max, memory);
    case QueueScratch(id, memory) => if id in d.send { QueueInvariant(d, id, d.send[id].data, max, memory); }
    case Scratch(id, data) => ScratchInvariant(d, id, data, max);
    case FlushQueue(memory) => FlushInvariant(d, max, memory);
    case Interest(id) => InterestInvariant(d, id, max);
  }

  lemma {:induction false} RunInvariant(d: Driver, es: seq<Event>, max: int)
    requires EnabledRun(d, es, max) && Invariant(d, max)
    ensures Invariant(Run(d, es, max), max)
    decreases |es|
  {
    if es != [] {
      StepInvariant(d, es[0], max);
      RunInvariant(Step(d, es[0], max), es[1..], max);
    }
  }

  /** Start-up: a new driver's first connection attempt. */
  function StartUp(how: Setup): Driver {
    Connect(NewDriver(), how)
  }

  lemma StartUpInvariant(how: Setup, max: int)
    ensures Invariant(StartUp(how), max)
  {
    NoCounts(0x1_0000);
    ConnectInvariant(NewDriver(), how, max);
  }

  lemma {:induction false} NoCounts(n: nat)
    ensures CountsBelow(map[], n) == 0
  {
    if n > 0 {
      NoCounts(n - 1);
    }
  }

  ghost function RunFromStart(how: Setup, es: seq<Event>, max: int): Driver
    requires EnabledRun(StartUp(how), es, max)
  {
    Run(StartUp(how), es, max)
  }

  lemma Reachable(how: Setup, es: seq<Event>, max: int)
    requires EnabledRun(StartUp(how), es, max)
    ensures Invariant(RunFromStart(how, es, max), max)
  {
    StartUpInvariant(how, max);
    RunInvariant(StartUp(how), es, max);
  }

  /** Every accepted message that was not thrown away, in order. */
  function Accepted(d: Driver): seq<Frame> {
    d.hist.sent + d.hist.queue
  }

  /** The send buffer holds a message of this block. */
  ghost predicate InBuffer(d: Driver, id: u16) {
    HasId(d.hist.queue, id)
  }

  // The assertions of the source.

  /** What the callback for an event, and what it calls, asserts on entry. */
  predicate Asserted(d: Driver, e: Event) {
    match e
    case TimerFires(_) => !d.connected && d.session.NoSession?
    case Connection(Failed) => d.session.Session? && !d.timer
    case Connection(_) => d.session.Session?
    case Incoming(_) => d.connected && d.session.Session? && !d.timer && (!d.haveHead ==> d.need == HEADER_SIZE)
    case Drained(_) => d.session.Session?
    case Force => d.connected ==> d.session.Session? && !d.timer
    case FlushQueue(_) => d.connected ==> d.session.Session?
    case _ => true
  }

  /** And what it asserts on leaving: a reconnect that raises no exception has a session or the timer. */
  ghost predicate AssertedAfter(d: Driver, e: Event, t: Driver) {
    e.TimerFires? && !e.how.OutOfMemory? ==> t.session.Session? || t.timer
  }

  lemma InvariantAsserts(d: Driver, e: Event, max: int)
    requires Invariant(d, max) && Enabled(d, e)
    ensures Sound(d) && Asserted(d, e) && AssertedAfter(d, e, Step(d, e, max))
  {
  }

  /** In every reachable state every callback that may come finds its assertions true. */
  lemma AssertionsHold(how: Setup, es: seq<Event>, max: int, e: Event)
    requires EnabledRun(StartUp(how), es, max) && Enabled(RunFromStart(how, es, max), e)
    ensures var d := RunFromStart(how, es, max); Sound(d) && Asserted(d, e) && AssertedAfter(d, e, Step(d, e, max))
  {
    Reachable(how, es, max);
    InvariantAsserts(RunFromStart(how, es, max), e, max);
  }

  lemma {:induction false} RunOneMore(d: Driver, es: seq<Event>, max: int, e: Event)
    requires EnabledRun(d, es, max) && Sound(Run(d, es, max)) && Enabled(Run(d, es, max), e)
    ensures EnabledRun(d, es + [e], max) && Run(d, es + [e], max) == Step(Run(d, es, max), e, max)
    decreases |es|
  {
    if es == [] {
      assert [] + [e] == [e] && [e][1..] == [];
    } else {
      RunOneMore(Step(d, es[0], max), es[1..], max, e);
      assert (es + [e])[1..] == es[1..] + [e];
    }
  }

  /** So every event that may come extends the run: asking for the assertions excludes no run. */
  lemma EveryRunGoesOn(how: Setup, es: seq<Event>, max: int, e: Event)
    requires EnabledRun(StartUp(how), es, max) && Enabled(RunFromStart(how, es, max), e)
    ensures EnabledRun(StartUp(how), es + [e], max)
  {
    Reachable(how, es, max);
    RunOneMore(StartUp(how), es, max, e);
  }

  // The claims about whole runs.

  /** What was moved to sessions followed by the send buffer is every accepted message, in order; the
      buffer is whole messages of distinct blocks; a block is marked exactly when its message is there
      or was thrown away, and has counted its messages. */
  ghost predicate Conserved(d: Driver) {
    var h := d.hist;
    && h.moved + d.sendbuf == EncodeAll(Accepted(d)) && d.sendbuf == EncodeAll(h.queue)
    && (forall id | id in d.send :: d.send[id].queued <==> InBuffer(d, id) || id in h.stale)
    && (forall id | id in h.stale :: id in d.send && !InBuffer(d, id))
    && (forall id | id in d.send :: d.send[id].count == Count(Accepted(d), id) + Count(h.dropped, id))
    && (forall i, j | 0 <= i < j < |h.queue| :: h.queue[i].id != h.queue[j].id)
  }

  lemma QueueConserves(d: Driver, max: int)
    requires QueueOk(d, max)
    ensures Conserved(d)
  {
    EncodeAllConcat(d.hist.sent, d.hist.queue);
    forall id | id in d.send
      ensures d.send[id].count == Count(Accepted(d), id) + Count(d.hist.dropped, id)
    {
      CountConcat(d.hist.sent, d.hist.queue, id);
    }
  }

  lemma SendConservation(how: Setup, es: seq<Event>, max: int)
    requires EnabledRun(StartUp(how), es, max)
    ensures Conserved(RunFromStart(how, es, max))
  {
    Reachable(how, es, max);
    QueueConserves(RunFromStart(how, es, max), max);
  }

  /** A block is marked exactly when its message is in the buffer, for all blocks, exactly when none is
      left marked by a message that was thrown away. */
  lemma MarksExact(how: Setup, es: seq<Event>, max: int)
    requires EnabledRun(StartUp(how), es, max)
    ensures var d := RunFromStart(how, es, max);
      (forall id | id in d.send :: d.send[id].queued <==> InBuffer(d, id)) <==> d.hist.stale == {}
  {
    SendConservation(how, es, max);
    StaleMarks(RunFromStart(how, es, max));
  }

  lemma StaleMarks(d: Driver)
    requires Conserved(d)
    ensures (forall id | id in d.send :: d.send[id].queued <==> InBuffer(d, id)) <==> d.hist.stale == {}
  {
    if d.hist.stale != {} {
      var id :| id in d.hist.stale;
      assert id in d.send && d.send[id].queued && !InBuffer(d, id);
    }
  }

  /** No flush fails for lack of memory. */
  ghost predicate FlushesFit(es: seq<Event>) {
    forall e | e in es :: e.FlushQueue? ==> e.memory
  }

  lemma StepThrowsNothingAway(d: Driver, e: Event, max: int)
    requires Sound(d) && Enabled(d, e) && (e.FlushQueue? ==> e.memory)
    requires d.hist.dropped == [] && d.hist.stale == {}
    ensures Step(d, e, max).hist.dropped == [] && Step(d, e, max).hist.stale == {}
  {
    if e.Incoming? {
      ReceiveLeavesSendSide(Arrived(d, e.bytes));
    }
  }

  /** Then nothing is thrown away and no mark is stale. */
  lemma {:induction false} NothingThrownAway(d: Driver, es: seq<Event>, max: int)
    requires EnabledRun(d, es, max) && FlushesFit(es)
    requires d.hist.dropped == [] && d.hist.stale == {}
    ensures Run(d, es, max).hist.dropped == [] && Run(d, es, max).hist.stale == {}
    decreases |es|
  {
    if es != [] {
      assert es[0] in es;
      StepThrowsNothingAway(d, es[0], max);
      NothingThrownAway(Step(d, es[0], max), es[1..], max);
    }
  }

  /** The event is a flush that moves the queue out. */
  predicate Flushes(d: Driver, e: Event, max: int)
    requires d.connected ==> d.session.Session?
  {
    e.FlushQueue? && FlushResult(d, max, e.memory) == Done
  }

  ghost predicate NoneFlushes(d: Driver, es: seq<Event>, max: int)
    requires EnabledRun(d, es, max)
    decreases |es|
  {
    es == [] || (!Flushes(d, es[0], max) && NoneFlushes(Step(d, es[0], max), es[1..], max))
  }

  lemma StepKeepsStale(d: Driver, e: Event, max: int)
    requires Sound(d) && Enabled(d, e) && !Flushes(d, e, max)
    ensures d.hist.stale <= Step(d, e, max).hist.stale
  {
    if e.Incoming? {
      ReceiveLeavesSendSide(Arrived(d, e.bytes));
    }
  }

  lemma {:induction false} StaleStays(d: Driver, es: seq<Event>, max: int)
    requires EnabledRun(d, es, max) && NoneFlushes(d, es, max)
    ensures d.hist.stale <= Run(d, es, max).hist.stale
    decreases |es|
  {
    if es != [] {
      StepKeepsStale(d, es[0], max);
      StaleStays(Step(d, es[0], max), es[1..], max);
    }
  }

  /** A block whose message was thrown away is marked without one, and refused. */
  lemma StaleIsRefused(d: Driver, max: int, id: u16, memory: bool)
    requires Invariant(d, max) && id in d.hist.stale
    ensures id in d.send && d.send[id].queued && !InBuffer(d, id)
    ensures QueueResult(d, id, max, memory) == if d.connected then AlreadyQueued else Ignored
    ensures d.session.Session? ==> id in Moved(d).send && !Moved(d).send[id].queued && Moved(d).hist.stale == {}
  {
  }

  /** A flush that fails for lack of memory throws the queued messages away and leaves their blocks marked:
      whatever happens then, each is refused, with no message of it queued, until a flush succeeds, and by
      that it is cleared. */
  lemma ThrownAwayBlocksRefused(d: Driver, max: int, id: u16, es: seq<Event>, memory: bool)
    requires Invariant(d, max) && FlushResult(d, max, false) == NoMemory && InBuffer(d, id)
    requires EnabledRun(Flush(d, max, false), es, max) && NoneFlushes(Flush(d, max, false), es, max)
    ensures var t := Run(Flush(d, max, false), es, max);
      && id in t.send && t.send[id].queued && !InBuffer(t, id)
      && QueueResult(t, id, max, memory) == (if t.connected then AlreadyQueued else Ignored)
      && (t.session.Session? ==> id in Moved(t).send && !Moved(t).send[id].queued)
  {
    var t := Flush(d, max, false);
    HasIdInIds(d.hist.queue, id);
    FlushInvariant(d, max, false);
    StaleStays(t, es, max);
    RunInvariant(t, es, max);
    StaleIsRefused(Run(t, es, max), max, id, memory);
  }

  /** The send buffer never outgrows its limit by a whole message. */
  lemma SendBufferBound(how: Setup, es: seq<Event>, max: int, largest: nat)
    requires EnabledRun(StartUp(how), es, max) && max > 0
    requires forall f | f in RunFromStart(how, es, max).hist.queue :: |f.body| <= largest
    ensures |RunFromStart(how, es, max).sendbuf| < max + HEADER_SIZE + largest
  {
    Reachable(how, es, max);
    QueueBound(RunFromStart(how, es, max), max, largest);
  }

  lemma QueueBound(d: Driver, max: int, largest: nat)
    requires QueueOk(d, max) && max > 0 && forall f | f in d.hist.queue :: |f.body| <= largest
    ensures |d.sendbuf| < max + HEADER_SIZE + largest
  {
    var q := d.hist.queue;
    if q != [] {
      var k := |q| - 1;
      assert q == q[..k] + [q[k]];
      EncodeOneMore(q[..k], q[k]);
    }
  }

  /** Losing the connection and setting up another leaves the queue and its marks alone. */
  lemma QueueSurvivesReconnect(d: Driver, how: Setup, max: int)
    requires Invariant(d, max) && d.session.Session?
    ensures var t := Reconnect(StartReconnect(d), how);
      t.sendbuf == d.sendbuf && t.send == d.send && Accepted(t) == Accepted(d) && Invariant(t, max)
  {
    ClosedInvariant(d, max);
    TimerInvariant(StartReconnect(d), how, max);
  }

  /** What is on the wire of the current session is the start of whole messages, in order. */
  lemma WirePrefix(how: Setup, es: seq<Event>, max: int)
    requires EnabledRun(StartUp(how), es, max)
    ensures var d := RunFromStart(how, es, max);
      d.session.Session? ==>
        d.hist.since <= |d.hist.sent| && d.hist.wire + d.session.output == EncodeAll(d.hist.sent[d.hist.since..])
  {
    Reachable(how, es, max);
  }

  /** Accounting and progress: each header was counted once and its body completed, pending or cut
      off, and a connected driver waits for fewer bytes than the mark at which reading stops. */
  lemma ReceiveAccounting(how: Setup, es: seq<Event>, max: int)
    requires EnabledRun(StartUp(how), es, max)
    ensures var d := RunFromStart(how, es, max);
      && TotalCount(d.inbox.blocks) + d.inbox.unknown == d.hist.heads
      && d.hist.heads == d.hist.bodies + d.hist.cut + (if d.haveHead then 1 else 0)
      && (d.connected ==> d.session.Session? && |d.session.input| < d.need == d.session.low < d.session.high)
  {
    Reachable(how, es, max);
  }

  /** The decoder of a connected driver stands exactly where the parse of the bytes of this session
      ends: no byte and no flag comes from an earlier one. */
  lemma NothingCrossesSessions(how: Setup, es: seq<Event>, max: int)
    requires EnabledRun(StartUp(how), es, max) && RunFromStart(how, es, max).connected
    ensures var d := RunFromStart(how, es, max);
      d.session.Session? && Parse(d.hist.arrived).tail ==
        if d.haveHead then AwaitBody(d.header, d.bodylen, d.session.input) else AwaitHeader(d.session.input)
  {
    Reachable(how, es, max);
    StandsAtTail(RunFromStart(how, es, max));
  }

  predicate LacksMemory(e: Event) {
    e.TimerFires? && e.how.OutOfMemory?
  }

  predicate Alive(d: Driver) {
    d.session.Session? != d.timer
  }

  lemma IncomingAlive(d: Driver, bytes: seq<byte>, max: int)
    requires Invariant(d, max) && Enabled(d, Incoming(bytes))
    ensures Alive(d) && Alive(Step(d, Incoming(bytes), max))
  {
    var t := Arrived(d, bytes);
    ReceiveSettles(t);
    ReceiveLeavesSendSide(t);
  }

  lemma LocalStepAlive(d: Driver, e: Event, max: int)
    requires Sound(d) && Enabled(d, e) && !e.Incoming? && !e.TimerFires?
    requires !(d.session.Session? && d.timer)
    ensures Alive(Step(d, e, max)) <==> Alive(d)
  {
  }

  lemma StepAlive(d: Driver, e: Event, max: int)
    requires Invariant(d, max) && Enabled(d, e)
    ensures Alive(Step(d, e, max)) <==> Alive(d) && !LacksMemory(e)
  {
    if e.Incoming? {
      IncomingAlive(d, e.bytes, max);
    } else if !e.TimerFires? {
      LocalStepAlive(d, e, max);
    }
  }

  /** No allocation of a session fails. */
  ghost predicate MemorySuffices(es: seq<Event>) {
    forall i | 0 <= i < |es| :: !LacksMemory(es[i])
  }

  lemma {:induction false} RunAlive(d: Driver, es: seq<Event>, max: int)
    requires EnabledRun(d, es, max) && Invariant(d, max)
    ensures Alive(Run(d, es, max)) <==> Alive(d) && MemorySuffices(es)
    decreases |es|
  {
    if es != [] {
      StepInvariant(d, es[0], max);
      StepAlive(d, es[0], max);
      RunAlive(Step(d, es[0], max), es[1..], max);
      FirstAndRest(es);
    }
  }

  lemma FirstAndRest(es: seq<Event>)
    requires es != []
    ensures MemorySuffices(es) <==> !LacksMemory(es[0]) && MemorySuffices(es[1..])
  {
    assert es == [es[0]] + es[1..];
  }

  /** There is exactly one of a session and an armed timer after every run in which no session
      failed to be allocated; after one that did, there is neither, ever again. */
  lemma SessionOrTimer(how: Setup, es: seq<Event>, max: int)
    requires EnabledRun(StartUp(how), es, max)
    ensures var d := RunFromStart(how, es, max);
      && (d.connected ==> d.session.Session?)
      && !(d.session.Session? && d.timer)
      && (d.session.Session? || d.timer <==> !how.OutOfMemory? && MemorySuffices(es))
  {
    StartUpInvariant(how, max);
    StartUpAlive(how);
    RunKeepsOne(StartUp(how), es, max);
  }

  lemma StartUpAlive(how: Setup)
    ensures Alive(StartUp(how)) <==> !how.OutOfMemory?
  {
  }

  lemma RunKeepsOne(d: Driver, es: seq<Event>, max: int)
    requires EnabledRun(d, es, max) && Invariant(d, max)
    ensures var t := Run(d, es, max);
      && (t.connected ==> t.session.Session?)
      && !(t.session.Session? && t.timer)
      && (t.session.Session? || t.timer <==> Alive(d) && MemorySuffices(es))
  {
    RunInvariant(d, es, max);
    RunAlive(d, es, max);
    NotBoth(Run(d, es, max), max);
  }

  lemma NotBoth(d: Driver, max: int)
    requires Invariant(d, max)
    ensures (d.connected ==> d.session.Session?) && !(d.session.Session? && d.timer)
  {
  }

  // Shutdown.

  /** Whatever state it finds, shutdown ends the driver's life: no timer, no session, and nothing to wait
      for. A session still connecting is forgotten without being freed; and because the connected flag
      stays, a later flush or forced reconnect finds its assertions broken exactly if there was a
      connection. */
  lemma StopIsFinal(how: Setup, es: seq<Event>, max: int, e: Event)
    requires EnabledRun(StartUp(how), es, max)
    ensures var d := RunFromStart(how, es, max);
      var t := Stop(d);
      && (d.connected ==> d.session.Session?)
      && t.session == NoSession && !t.timer
      && (Forgets(d) <==> d.session.Session? && !d.connected)
      && (Enabled(t, e) ==> !e.TimerFires? && !e.Connection? && !e.Incoming? && !e.Drained?)
      && (e.FlushQueue? || e.Force? ==> (Asserted(t, e) <==> !d.connected))
      && (Enabled(t, e) && !d.connected ==> Sound(t) && Step(t, e, max).session == NoSession && !Step(t, e, max).timer)
  {
    var d := RunFromStart(how, es, max);
    Reachable(how, es, max);
    StoppedDriver(d, e);
    if Enabled(Stop(d), e) && !d.connected {
      StoppedStep(d, e, max);
    }
  }

  lemma StoppedDriver(d: Driver, e: Event)
    requires Sound(d)
    ensures var t := Stop(d);
      && (Enabled(t, e) ==> !e.TimerFires? && !e.Connection? && !e.Incoming? && !e.Drained?)
      && (e.FlushQueue? || e.Force? ==> (Asserted(t, e) <==> !d.connected))
  {
  }

  lemma StoppedStep(d: Driver, e: Event, max: int)
    requires Sound(d) && !d.connected && Enabled(Stop(d), e)
    ensures Sound(Stop(d)) && Step(Stop(d), e, max).session == NoSession && !Step(Stop(d), e, max).timer
  {
  }

  /** How often a run goes from not connected to connected. */
  ghost function Episodes(d: Driver, es: seq<Event>, max: int): nat
    requires EnabledRun(d, es, max)
    decreases |es|
  {
    if es == [] then 0
    else
      var t := Step(d, es[0], max);
      (if !d.connected && t.connected then 1 else 0) + Episodes(t, es[1..], max)
  }

  lemma StepCount(d: Driver, e: Event, max: int)
    requires Sound(d) && Enabled(d, e)
    ensures var t := Step(d, e, max); t.connCount == d.connCount + if !d.connected && t.connected then 1 else 0
  {
    if e.Incoming? {
      ReceiveLeavesSendSide(Arrived(d, e.bytes));
    }
  }

  /** The connection counter counts the connected episodes. */
  lemma {:induction false} ConnectionCount(d: Driver, es: seq<Event>, max: int)
    requires EnabledRun(d, es, max)
    ensures Run(d, es, max).connCount == d.connCount + Episodes(d, es, max)
    decreases |es|
  {
    if es != [] {
      StepCount(d, es[0], max);
      ConnectionCount(Step(d, es[0], max), es[1..], max);
    }
  }
}
