/** The driver object in the hands of its environment: one method per event, and whole runs. */
module PscRuns {
  import opened Bytes
  import opened DriverState
  import opened Psc
  import DriverRuns

  /** Bytes come in from the network. */
  method Arrive(psc: PSC, bytes: seq<byte>)
    requires psc.Valid() && psc.session.Session?
    modifies psc`session, psc`state
    ensures psc.Valid() && psc.state == Arrived(old(psc.state), bytes)
    ensures psc.connected == old(psc.connected) && psc.timerActive == old(psc.timerActive)
  {
    psc.session := psc.session.(input := psc.session.input + bytes);
    psc.state := Arrived(psc.state, bytes);
  }

  /** The network takes bytes. */
  method Depart(psc: PSC, n: nat)
    requires psc.Valid() && psc.session.Session? && n <= |psc.session.output|
    modifies psc`session, psc`state
    ensures psc.Valid() && psc.state == Drain(old(psc.state), n)
  {
    psc.session := psc.session.(output := psc.session.output[n..]);
    psc.state := Drain(psc.state, n);
  }

  /** Events of the connection. */
  method HandleConnection(psc: PSC, e: Event)
    requires psc.Valid() && Enabled(psc.state, e) && DriverRuns.Asserted(psc.state, e)
    requires e.TimerFires? || e.Connection? || e.Force?
    modifies psc`session, psc`connected, psc`timerActive, psc`connCount
    modifies psc`haveHead, psc`header, psc`bodylen, psc`bodyBlock, psc`need, psc`state
    ensures psc.Valid() && psc.state == Step(old(psc.state), e, psc.maxSendBuffer)
  {
    if e.TimerFires? {
      var _ := psc.Reconnect(e.how);
    } else if e.Connection? {
      psc.EventCb(e.event);
    } else {
      psc.ForceReconnect();
    }
  }

  method HandleIncoming(psc: PSC, bytes: seq<byte>)
    requires psc.Valid() && Enabled(psc.state, Incoming(bytes)) && DriverRuns.Asserted(psc.state, Incoming(bytes))
    modifies psc`session, psc`connected, psc`timerActive, psc`unknownCount
    modifies psc`haveHead, psc`header, psc`bodylen, psc`bodyBlock, psc`need, psc`state, psc.recvBlocks.Values
    ensures psc.Valid() && psc.state == Step(old(psc.state), Incoming(bytes), psc.maxSendBuffer)
  {
    Arrive(psc, bytes);
    var _ := psc.RecvData();
  }

  /** Calls of the records. */
  method HandleQueueing(psc: PSC, e: Event)
    requires psc.Valid() && (e.Queue? || e.QueueScratch?)
    modifies psc`sendBlocks, psc`sendbuf, psc`state, psc.sendBlocks.Values
    ensures psc.Valid() && psc.state == Step(old(psc.state), e, psc.maxSendBuffer)
    ensures fresh(psc.sendBlocks.Values - old(psc.sendBlocks.Values))
  {
    if e.Queue? {
      var _ := psc.QueueSend(e.id, e.body, e.memory);
    } else {
      var _ := psc.Send(e.id, e.memory);
    }
  }

  method HandleScratch(psc: PSC, e: Event)
    requires psc.Valid() && (e.Scratch? || e.FlushQueue?)
    modifies psc`session, psc`sendBlocks, psc`sendbuf, psc`state, psc.sendBlocks.Values
    ensures psc.Valid() && psc.state == Step(old(psc.state), e, psc.maxSendBuffer)
    ensures fresh(psc.sendBlocks.Values - old(psc.sendBlocks.Values))
  {
    if e.Scratch? {
      psc.SetData(e.id, e.data);
    } else {
      var _ := psc.FlushSend(e.memory);
    }
  }

  method HandleInterest(psc: PSC, id: u16)
    requires psc.Valid()
    modifies psc`recvBlocks, psc`state
    ensures psc.Valid() && psc.state == Step(old(psc.state), Interest(id), psc.maxSendBuffer)
    ensures fresh(psc.recvBlocks.Values - old(psc.recvBlocks.Values))
  {
    var _ := psc.GetRecv(id);
  }

  method HandleDrained(psc: PSC, n: nat)
    requires psc.Valid() && Enabled(psc.state, Drained(n)) && DriverRuns.Asserted(psc.state, Drained(n))
    modifies psc`session, psc`state
    ensures psc.Valid() && psc.state == Step(old(psc.state), Drained(n), psc.maxSendBuffer)
  {
    Depart(psc, n);
  }

  predicate FromRecords(e: Event) {
    e.Queue? || e.QueueScratch? || e.Scratch? || e.FlushQueue? || e.Interest?
  }

  method HandleRecords(psc: PSC, e: Event)
    requires psc.Valid() && FromRecords(e)
    modifies psc`session, psc`recvBlocks, psc`sendBlocks, psc`sendbuf, psc`state, psc.sendBlocks.Values
    ensures psc.Valid() && psc.state == Step(old(psc.state), e, psc.maxSendBuffer)
    ensures fresh(psc.recvBlocks.Values - old(psc.recvBlocks.Values)) && fresh(psc.sendBlocks.Values - old(psc.sendBlocks.Values))
  {
    if e.Interest? {
      HandleInterest(psc, e.id);
    } else if e.Queue? || e.QueueScratch? {
      HandleQueueing(psc, e);
    } else {
      HandleScratch(psc, e);
    }
  }

  method HandleSession(psc: PSC, e: Event)
    requires psc.Valid() && Enabled(psc.state, e) && DriverRuns.Asserted(psc.state, e) && !FromRecords(e)
    modifies psc`session, psc`connected, psc`timerActive, psc`connCount, psc`unknownCount
    modifies psc`haveHead, psc`header, psc`bodylen, psc`bodyBlock, psc`need, psc`state, psc.recvBlocks.Values
    ensures psc.Valid() && psc.state == Step(old(psc.state), e, psc.maxSendBuffer)
  {
    if e.Incoming? {
      HandleIncoming(psc, e.bytes);
    } else if e.Drained? {
      HandleDrained(psc, e.n);
    } else {
      HandleConnection(psc, e);
    }
  }

  /** Any event that may come: when the assertions of its callback hold, the object follows the state
      machine. */
  method HandleOne(psc: PSC, e: Event)
    requires psc.Valid() && Enabled(psc.state, e) && DriverRuns.Asserted(psc.state, e)
    modifies psc, psc.recvBlocks.Values, psc.sendBlocks.Values
    ensures psc.Valid() && psc.state == Step(old(psc.state), e, psc.maxSendBuffer)
    ensures fresh(psc.recvBlocks.Values - old(psc.recvBlocks.Values)) && fresh(psc.sendBlocks.Values - old(psc.sendBlocks.Values))
  {
    if FromRecords(e) {
      HandleRecords(psc, e);
    } else {
      HandleSession(psc, e);
    }
  }

  /** In a reachable state they do, whatever the event. */
  method Handle(psc: PSC, e: Event)
    requires psc.Valid() && DriverRuns.Invariant(psc.state, psc.maxSendBuffer) && Enabled(psc.state, e)
    modifies psc, psc.recvBlocks.Values, psc.sendBlocks.Values
    ensures psc.Valid() && psc.state == Step(old(psc.state), e, psc.maxSendBuffer)
    ensures DriverRuns.Invariant(psc.state, psc.maxSendBuffer)
    ensures fresh(psc.recvBlocks.Values - old(psc.recvBlocks.Values)) && fresh(psc.sendBlocks.Values - old(psc.sendBlocks.Values))
  {
    DriverRuns.InvariantAsserts(psc.state, e, psc.maxSendBuffer);
    DriverRuns.StepInvariant(psc.state, e, psc.maxSendBuffer);
    HandleOne(psc, e);
  }

  /** Whole runs. */
  method HandleAll(psc: PSC, es: seq<Event>)
    requires psc.Valid() && DriverRuns.Invariant(psc.state, psc.maxSendBuffer) && EnabledRun(psc.state, es, psc.maxSendBuffer)
    modifies psc, psc.recvBlocks.Values, psc.sendBlocks.Values
    ensures psc.Valid() && psc.state == Run(old(psc.state), es, psc.maxSendBuffer)
    decreases |es|
  {
    if es != [] {
      Handle(psc, es[0]);
      HandleAll(psc, es[1..]);
    }
  }
}
