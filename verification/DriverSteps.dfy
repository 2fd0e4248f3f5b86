/** What the single steps of the stream driver come to, with conditions and numbers written out. */
module DriverSteps {
  import opened Bytes
  import opened Frames
  import opened Inboxes
  import opened DriverState
  import opened StreamDecoding

  /** Nothing differs but session, timer and connected flag. */
  predicate SameBeside(t: Driver, d: Driver) {
    && t.connCount == d.connCount && t.inbox == d.inbox && t.send == d.send && t.sendbuf == d.sendbuf
    && t.haveHead == d.haveHead && t.header == d.header && t.bodylen == d.bodylen && t.known == d.known && t.need == d.need
  }

  // Connecting.

  /** Whatever was left of an earlier session is forgotten: a header of eight bytes is awaited, in a buffer
      that takes a mebibyte. */
  lemma AttemptBegins(d: Driver, how: Setup)
    ensures var t := Reconnect(d, how);
      && !t.haveHead && t.header == 0 && t.bodylen == 0 && !t.known && t.need == 8
      && t.session == (if how.Started? then Session([], [], 8, 1048576) else d.session)
      && t.timer == how.LookupFailed? && t.connected == d.connected
      && t.connCount == d.connCount && t.inbox == d.inbox && t.send == d.send && t.sendbuf == d.sendbuf
  {
  }

  predicate Closed(t: Driver, d: Driver) {
    t.session.NoSession? && !t.connected && t.timer && SameBeside(t, d)
  }

  /** A connection is counted, a failure closes the session and arms the timer, anything else is ignored. */
  lemma SessionEvents(d: Driver, e: ConnectionEvent)
    requires d.session.Session?
    ensures e.NowConnected? ==> EventCb(d, e) == d.(connected := true, connCount := d.connCount + 1)
    ensures e.Failed? ==> Closed(EventCb(d, e), d)
    ensures e.Other? ==> EventCb(d, e) == d
  {
  }

  lemma ForcedToClose(d: Driver)
    requires Sound(d)
    ensures if d.connected then Closed(ForceReconnect(d), d) else ForceReconnect(d) == d
  {
  }

  // Receiving.

  /** After a callback that leaves the connection up, the next one comes with a whole header or a whole body,
      and reading stops at a mebibyte, or one byte past what is awaited if that is as much. */
  lemma MarksInBytes(d: Driver)
    requires Receiving(d)
    ensures var t := Receive(d);
      t.connected ==>
        && t.session.Session? && t.session.low == (if t.haveHead then t.bodylen else 8)
        && t.session.high == if t.session.low < 1048576 then 1048576 else t.session.low + 1
  {
    ReceiveSettles(d);
  }

  /** A header is counted with the block of its id if there is one now, or among the unknown; that block, or
      none, is to have the body, whoever asks for it later. */
  lemma HeaderDecides(d: Driver, later: u16)
    requires Receiving(d) && !d.haveHead && |d.session.input| >= 8
    requires d.session.input[0] == 80 && d.session.input[1] == 83
    ensures var b, t := d.session.input, ReceiveStep(d);
      var id, len := FromBE(b[2..4]), FromBE(b[4..8]);
      && t.haveHead && t.header == id && t.bodylen == len == t.need && t.session.input == b[8..] && t.inbox.log == d.inbox.log
      && (t.known <==> id in d.inbox.blocks)
      && t.inbox.unknown == d.inbox.unknown + (if id in d.inbox.blocks then 0 else 1)
      && (id in d.inbox.blocks ==> t.inbox.blocks == d.inbox.blocks[id := RecvBlock(d.inbox.blocks[id].data, d.inbox.blocks[id].count + 1)])
      && (id !in d.inbox.blocks ==> t.inbox.blocks == d.inbox.blocks)
      && GetRecv(t, later).known == t.known
  {
    var b := d.session.input;
    assert b[..HEADER_SIZE][2..4] == b[2..4] && b[..HEADER_SIZE][4..8] == b[4..8];
  }

  /** The body goes to the block found at its header, and nowhere if there was none. */
  lemma BodyGoesThere(d: Driver)
    requires Receiving(d) && d.haveHead && |d.session.input| >= d.bodylen
    ensures var t, body := ReceiveStep(d), d.session.input[..d.bodylen];
      && !t.haveHead && !t.known && t.need == 8 && t.session.input == d.session.input[d.bodylen..]
      && t.inbox.unknown == d.inbox.unknown
      && (!d.known ==> t.inbox == d.inbox)
      && (d.known ==> t.inbox.log == d.inbox.log + [Frame(d.header, body)])
      && (d.known ==> t.inbox.blocks == d.inbox.blocks[d.header := RecvBlock(body, d.inbox.blocks[d.header].count)])
  {
  }

  /** Anything else in place of a header ends the session. */
  lemma BadHeaderCloses(d: Driver)
    requires Receiving(d) && !d.haveHead && |d.session.input| >= 8
    requires d.session.input[0] != 80 || d.session.input[1] != 83
    ensures Closed(ReceiveStep(d), d)
  {
  }

  // Sending.

  /** Why a message is not queued: the first of these that applies. */
  lemma QueueResults(d: Driver, id: u16, max: int, memory: bool)
    requires id in d.send
    ensures var r, full := QueueResult(d, id, max, memory), max > 0 && |d.sendbuf| >= max;
      && (r == Ignored <==> !d.connected)
      && (r == AlreadyQueued <==> d.connected && d.send[id].queued)
      && (r == BufferFull <==> d.connected && !d.send[id].queued && full)
      && (r == NoMemory <==> d.connected && !d.send[id].queued && !full && !memory)
      && (r == Done <==> d.connected && !d.send[id].queued && !full && memory)
  {
  }

  predicate AllIdleNow(t: Driver, d: Driver) {
    t.send.Keys == d.send.Keys && forall id | id in d.send :: t.send[id] == SendBlock(d.send[id].data, false, d.send[id].count)
  }

  /** A flush moves all bytes out and clears all marks; it does nothing without a connection or under a full
      session; and for lack of memory the bytes are gone and the marks stay. */
  lemma FlushOutcomes(d: Driver, max: int, memory: bool)
    requires Sound(d)
    ensures var t, r := Flush(d, max, memory), FlushResult(d, max, memory);
      && t.connected == d.connected && t.timer == d.timer && t.inbox == d.inbox
      && (!d.connected ==> r == Ignored && t == d)
      && (d.connected && max > 0 && |d.session.output| >= max ==> r == BufferFull && t == d)
      && (d.connected && (max <= 0 || |d.session.output| < max) && !memory ==>
            r == NoMemory && t.sendbuf == [] && t.send == d.send && t.session == d.session)
      && (d.connected && (max <= 0 || |d.session.output| < max) && memory ==>
            && r == Done && t.sendbuf == [] && AllIdleNow(t, d)
            && t.session == d.session.(output := d.session.output + d.sendbuf))
  {
  }
}
