/** What a run asks the driver to send, told from its events: the messages, what became of them, and their bytes. */
module Requests {
  import opened Bytes
  import opened Frames
  import opened DriverState
  import opened DriverRuns

  // One call.

  /** A driver that takes a message for an idle block: connected, with room and memory. */
  predicate Ready(d: Driver, max: int, memory: bool) {
    d.connected && (max <= 0 || |d.sendbuf| < max) && memory
  }

  predicate Idle(d: Driver, id: u16) {
    id in d.send ==> !d.send[id].queued
  }

  /** A driver whose send buffer has grown by exactly one message: 'P', 'S', id and length big-endian, body. */
  ghost predicate GrownBy(t: Driver, d: Driver, id: u16, body: Body) {
    var n, before := |body|, if id in d.send then d.send[id] else SendBlock([], false, 0);
    && t.sendbuf == d.sendbuf + [80, 83, id / 256, id % 256, n / 0x100_0000, n / 0x1_0000 % 256, n / 256 % 256, n % 256] + body
    && t.send == d.send[id := SendBlock(before.data, true, before.count + 1)]
  }

  /** A message is queued exactly when the driver is ready and its block idle; nothing changes elsewhere
      but that the block exists. */
  lemma MessageQueued(d: Driver, id: u16, body: Body, max: int, memory: bool)
    ensures var t := QueueSend(d, id, body, max, memory);
      if Ready(d, max, memory) && Idle(d, id) then GrownBy(t, d, id, body) else t == GetSend(d, id)
  {
    HeaderBytes(id, |body|);
    assert d.sendbuf + (Header(id, |body|) + body) == d.sendbuf + Header(id, |body|) + body;
  }

  /** Sending a block queues the data in its scratch. */
  lemma ScratchQueued(d: Driver, id: u16, max: int, memory: bool)
    ensures var t := SendScratch(d, id, max, memory);
      if id in d.send && Ready(d, max, memory) && !d.send[id].queued then GrownBy(t, d, id, d.send[id].data) else t == d
  {
    if id in d.send {
      MessageQueued(d, id, d.send[id].data, max, memory);
    }
  }

  // Whole runs.

  /** The scratch that the last write of a block has left; none before the first. */
  function ScratchLeft(es: seq<Event>, id: u16): Body {
    if es == [] then []
    else
      var e := es[|es| - 1];
      if e.Scratch? && e.id == id then e.data else ScratchLeft(es[..|es| - 1], id)
  }

  /** The message that the last event asks for and the driver takes. */
  function Taken(d: Driver, es: seq<Event>, max: int): seq<Frame>
    requires es != []
  {
    match es[|es| - 1]
    case Queue(id, body, memory) =>
      if Ready(d, max, memory) && Idle(d, id) then [Frame(id, body)] else []
    case QueueScratch(id, memory) =>
      if id in d.send && Ready(d, max, memory) && Idle(d, id) then [Frame(id, ScratchLeft(es[..|es| - 1], id))] else []
    case _ => []
  }

  /** The messages taken: given to earlier sessions, to the last one, and waiting in the send buffer. */
  datatype Requests = Requests(past: seq<Frame>, current: seq<Frame>, waiting: seq<Frame>)

  /** A flush gives what waits to the session, or throws it away for lack of memory; a new attempt to
      connect starts a new session. */
  function Sorted(r: Requests, d: Driver, e: Event, max: int): Requests
    requires d.connected ==> d.session.Session?
  {
    if e.TimerFires? then Requests(r.past + r.current, [], r.waiting)
    else if !e.FlushQueue? || !d.connected || (max > 0 && |d.session.output| >= max) then r
    else if e.memory then Requests(r.past, r.current + r.waiting, [])
    else Requests(r.past, r.current, [])
  }

  lemma {:induction false} LastStep(d: Driver, es: seq<Event>, max: int)
    requires EnabledRun(d, es, max) && es != []
    ensures var ys, e := es[..|es| - 1], es[|es| - 1];
      && EnabledRun(d, ys, max) && Sound(Run(d, ys, max)) && Enabled(Run(d, ys, max), e)
      && Run(d, es, max) == Step(Run(d, ys, max), e, max)
    decreases |es|
  {
    if |es| == 1 {
      assert es[1..] == [] && es[..0] == [];
    } else {
      LastStep(Step(d, es[0], max), es[1..], max);
      var ys := es[..|es| - 1];
      assert ys[1..] == es[1..][..|es| - 2] && ys[0] == es[0];
    }
  }

  ghost function RequestsOf(how: Setup, es: seq<Event>, max: int): Requests
    requires EnabledRun(StartUp(how), es, max)
    decreases |es|
  {
    if es == [] then Requests([], [], [])
    else
      LastStep(StartUp(how), es, max);
      var d, r := RunFromStart(how, es[..|es| - 1], max), RequestsOf(how, es[..|es| - 1], max);
      Sorted(r.(waiting := r.waiting + Taken(d, es, max)), d, es[|es| - 1], max)
  }

  function DataOf(send: map<u16, SendBlock>, id: u16): Body {
    if id in send then send[id].data else []
  }

  /** The driver's blocks hold the scratch last written. */
  ghost predicate ScratchAgrees(send: map<u16, SendBlock>, es: seq<Event>) {
    forall id: u16 :: ScratchLeft(es, id) == DataOf(send, id)
  }

  /** Its history is what was asked for. */
  ghost predicate ListsAgree(h: History, r: Requests) {
    h.sent == r.past + r.current && h.since == |r.past| && h.queue == r.waiting
  }

  lemma ScratchOneMore(ys: seq<Event>, e: Event, id: u16)
    ensures ScratchLeft(ys + [e], id) == if e.Scratch? && e.id == id then e.data else ScratchLeft(ys, id)
  {
    assert (ys + [e])[..|ys|] == ys;
  }

  lemma QueueingKeepsData(d: Driver, id: u16, body: Body, max: int, memory: bool, other: u16)
    ensures DataOf(QueueSend(d, id, body, max, memory).send, other) == DataOf(d.send, other)
    ensures DataOf(SendScratch(d, id, max, memory).send, other) == DataOf(d.send, other)
  {
  }

  lemma OthersKeepData(d: Driver, e: Event, max: int, id: u16)
    requires Sound(d) && Enabled(d, e) && !e.Queue? && !e.QueueScratch? && !e.Scratch?
    ensures DataOf(Step(d, e, max).send, id) == DataOf(d.send, id)
  {
    if e.Incoming? {
      ReceiveLeavesSendSide(Arrived(d, e.bytes));
    }
  }

  /** Only a write of the scratch changes the data of a block. */
  lemma StepData(d: Driver, e: Event, max: int, id: u16)
    requires Sound(d) && Enabled(d, e)
    ensures DataOf(Step(d, e, max).send, id) == if e.Scratch? && e.id == id then e.data else DataOf(d.send, id)
  {
    match e
    case Queue(i, body, memory) => QueueingKeepsData(d, i, body, max, memory, id);
    case QueueScratch(i, memory) => QueueingKeepsData(d, i, [], max, memory, id);
    case Scratch(_, _) =>
    case _ => OthersKeepData(d, e, max, id);
  }

  lemma StepScratchAgrees(d: Driver, ys: seq<Event>, e: Event, max: int)
    requires Sound(d) && Enabled(d, e) && ScratchAgrees(d.send, ys)
    ensures ScratchAgrees(Step(d, e, max).send, ys + [e])
  {
    forall id: u16
      ensures ScratchLeft(ys + [e], id) == DataOf(Step(d, e, max).send, id)
    {
      ScratchOneMore(ys, e, id);
      StepData(d, e, max, id);
    }
  }

  lemma QueueAgrees(d: Driver, r: Requests, id: u16, body: Body, max: int, memory: bool)
    requires ListsAgree(d.hist, r)
    ensures var more := if Ready(d, max, memory) && Idle(d, id) then [Frame(id, body)] else [];
      ListsAgree(QueueSend(d, id, body, max, memory).hist, r.(waiting := r.waiting + more))
  {
  }

  lemma QueueScratchAgrees(d: Driver, r: Requests, id: u16, max: int, memory: bool)
    requires ListsAgree(d.hist, r)
    ensures var more := if id in d.send && Ready(d, max, memory) && Idle(d, id) then [Frame(id, DataOf(d.send, id))] else [];
      ListsAgree(SendScratch(d, id, max, memory).hist, r.(waiting := r.waiting + more))
  {
    if id in d.send {
      QueueAgrees(d, r, id, d.send[id].data, max, memory);
    }
  }

  lemma OthersAgree(d: Driver, r: Requests, e: Event, max: int)
    requires Sound(d) && Enabled(d, e) && !e.Queue? && !e.QueueScratch? && ListsAgree(d.hist, r)
    ensures ListsAgree(Step(d, e, max).hist, Sorted(r, d, e, max))
  {
    if e.Incoming? {
      ReceiveLeavesSendSide(Arrived(d, e.bytes));
    }
  }

  lemma StepAgrees(d: Driver, r: Requests, ys: seq<Event>, e: Event, max: int)
    requires Sound(d) && Enabled(d, e) && ScratchAgrees(d.send, ys) && ListsAgree(d.hist, r)
    ensures ListsAgree(Step(d, e, max).hist, Sorted(r.(waiting := r.waiting + Taken(d, ys + [e], max)), d, e, max))
  {
    assert (ys + [e])[..|ys|] == ys;
    match e
    case Queue(id, body, memory) => QueueAgrees(d, r, id, body, max, memory);
    case QueueScratch(id, memory) =>
      assert ScratchLeft(ys, id) == DataOf(d.send, id);
      QueueScratchAgrees(d, r, id, max, memory);
    case _ =>
      assert r.waiting + [] == r.waiting;
      OthersAgree(d, r, e, max);
  }

  lemma {:induction false} HistoryAgrees(how: Setup, es: seq<Event>, max: int)
    requires EnabledRun(StartUp(how), es, max)
    ensures ScratchAgrees(RunFromStart(how, es, max).send, es)
    ensures ListsAgree(RunFromStart(how, es, max).hist, RequestsOf(how, es, max))
    decreases |es|
  {
    if es != [] {
      var ys, e := es[..|es| - 1], es[|es| - 1];
      LastStep(StartUp(how), es, max);
      HistoryAgrees(how, ys, max);
      assert es == ys + [e];
      StepScratchAgrees(RunFromStart(how, ys, max), ys, e, max);
      StepAgrees(RunFromStart(how, ys, max), RequestsOf(how, ys, max), ys, e, max);
    }
  }

  /** After every run the send buffer holds exactly the messages that were asked for, taken and not flushed
      since, each with the body it was asked for with, or the scratch last written for its block; and what
      is on the wire, then what the session still holds, are those flushed to this session, in order. */
  lemma SentAsAsked(how: Setup, es: seq<Event>, max: int)
    requires EnabledRun(StartUp(how), es, max)
    ensures var d, r := RunFromStart(how, es, max), RequestsOf(how, es, max);
      && d.sendbuf == EncodeAll(r.waiting)
      && Accepted(d) == r.past + r.current + r.waiting
      && (d.session.Session? ==> d.hist.wire + d.session.output == EncodeAll(r.current))
  {
    HistoryAgrees(how, es, max);
    SendConservation(how, es, max);
    WirePrefix(how, es, max);
  }
}
