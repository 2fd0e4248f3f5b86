/** The stream driver itself: an object with mutable blocks, each method tied to the state machine. */
module Psc {
  import opened Bytes
  import opened Sequences
  import opened Frames
  import opened Inboxes
  import opened DriverState
  import opened StreamDecoding

  /** A message block. `count` is relative to its value at creation, which is undefined. */
  class Block {
    const code: u16
    var data: Body
    var queued: bool
    var count: nat

    constructor (code: u16)
      ensures this.code == code && data == [] && !queued && count == 0
    {
      this.code := code;
      data, queued, count := [], false, 0;
    }
  }

  ghost predicate RecvMirrors(blocks: map<u16, Block>, view: map<u16, RecvBlock>)
    reads blocks.Values
  {
    && view.Keys == blocks.Keys
    && forall id | id in blocks :: blocks[id].code == id && view[id] == RecvBlock(blocks[id].data, blocks[id].count)
  }

  ghost predicate SendMirrors(blocks: map<u16, Block>, view: map<u16, SendBlock>)
    reads blocks.Values
  {
    && view.Keys == blocks.Keys
    && forall id | id in blocks :: blocks[id].code == id && view[id] == SendBlock(blocks[id].data, blocks[id].queued, blocks[id].count)
  }

  /** No block serves both directions. */
  ghost predicate Apart(a: map<u16, Block>, b: map<u16, Block>) {
    forall i, j | i in a && j in b :: a[i] != b[j]
  }

  // Changes to one block, mirrored.

  method MarkBlock(block: Block, ghost blocks: map<u16, Block>, ghost view: map<u16, SendBlock>,
         ghost others: map<u16, Block>, ghost otherView: map<u16, RecvBlock>)
    requires SendMirrors(blocks, view) && block in blocks.Values
    requires RecvMirrors(others, otherView) && Apart(others, blocks)
    modifies block`queued, block`count
    ensures SendMirrors(blocks, view[block.code := view[block.code].(queued := true, count := view[block.code].count + 1)])
    ensures RecvMirrors(others, otherView)
  {
    block.queued := true;
    block.count := block.count + 1;
  }

  method SetBlockData(block: Block, data: Body, ghost blocks: map<u16, Block>, ghost view: map<u16, SendBlock>,
         ghost others: map<u16, Block>, ghost otherView: map<u16, RecvBlock>)
    requires SendMirrors(blocks, view) && block in blocks.Values
    requires RecvMirrors(others, otherView) && Apart(others, blocks)
    modifies block`data
    ensures SendMirrors(blocks, view[block.code := view[block.code].(data := data)])
    ensures RecvMirrors(others, otherView)
  {
    block.data := data;
  }

  method CountBlock(block: Block, ghost blocks: map<u16, Block>, ghost view: map<u16, RecvBlock>,
         ghost others: map<u16, Block>, ghost otherView: map<u16, SendBlock>)
    requires RecvMirrors(blocks, view) && block in blocks.Values
    requires SendMirrors(others, otherView) && Apart(blocks, others)
    modifies block`count
    ensures RecvMirrors(blocks, view[block.code := view[block.code].(count := view[block.code].count + 1)])
    ensures SendMirrors(others, otherView)
  {
    block.count := block.count + 1;
  }

  method FillBlock(block: Block, data: Body, ghost blocks: map<u16, Block>, ghost view: map<u16, RecvBlock>,
         ghost others: map<u16, Block>, ghost otherView: map<u16, SendBlock>)
    requires RecvMirrors(blocks, view) && block in blocks.Values
    requires SendMirrors(others, otherView) && Apart(blocks, others)
    modifies block`data
    ensures RecvMirrors(blocks, view[block.code := view[block.code].(data := data)])
    ensures SendMirrors(others, otherView)
  {
    block.data := data;
  }

  /** The loop over all send blocks at the end of a flush. */
  method ClearQueued(blocks: map<u16, Block>, ghost view: map<u16, SendBlock>,
         ghost others: map<u16, Block>, ghost otherView: map<u16, RecvBlock>)
    requires SendMirrors(blocks, view)
    requires RecvMirrors(others, otherView) && Apart(others, blocks)
    modifies blocks.Values`queued
    ensures SendMirrors(blocks, AllIdle(view)) && RecvMirrors(others, otherView)
  {
    var todo := blocks.Keys;
    while todo != {}
      invariant todo <= blocks.Keys
      invariant forall id | id in blocks && id !in todo :: !blocks[id].queued
      decreases |todo|
    {
      var id :| id in todo;
      blocks[id].queued := false;
      todo := todo - {id};
    }
  }

  class PSC {
    const maxSendBuffer: int
    var session: Session
    var connected: bool
    var timerActive: bool
    var connCount: nat
    var haveHead: bool
    var header: u16
    var bodylen: u32
    var bodyBlock: Block?
    var need: nat
    var recvBlocks: map<u16, Block>
    var sendBlocks: map<u16, Block>
    var unknownCount: nat
    var sendbuf: seq<byte>
    ghost var state: Driver           // the value of the whole driver

    /** The real fields and blocks are what the state says. */
    ghost predicate Valid()
      reads this, recvBlocks.Values, sendBlocks.Values
    {
      FieldsAgree() && BlocksAgree() && Sound(state)
    }

    ghost predicate FieldsAgree()
      reads this
    {
      && state.session == session && state.connected == connected && state.timer == timerActive
      && state.connCount == connCount
      && state.haveHead == haveHead && state.header == header && state.bodylen == bodylen && state.need == need
      && state.known == (bodyBlock != null)
      && (bodyBlock != null ==> header in recvBlocks && recvBlocks[header] == bodyBlock)
      && state.inbox.unknown == unknownCount && state.sendbuf == sendbuf
    }

    ghost predicate BlocksAgree()
      reads this, recvBlocks.Values, sendBlocks.Values
    {
      && RecvMirrors(recvBlocks, state.inbox.blocks)
      && SendMirrors(sendBlocks, state.send)
      && Apart(recvBlocks, sendBlocks)
    }

    constructor (maxSendBuffer: int)
      ensures Valid() && state == NewDriver() && this.maxSendBuffer == maxSendBuffer
      ensures session == NoSession && !connected && !timerActive && connCount == 0 && !haveHead && need == 8
      ensures recvBlocks == map[] && sendBlocks == map[] && unknownCount == 0 && sendbuf == []
    {
      this.maxSendBuffer := maxSendBuffer;
      session, connected, timerActive, connCount := NoSession, false, false, 0;
      haveHead, header, bodylen, bodyBlock, need := false, 0, 0, null, HEADER_SIZE;
      recvBlocks, sendBlocks, unknownCount, sendbuf := map[], map[], 0, [];
      state := NewDriver();
    }

    // Sending.

    method GetSend(id: u16) returns (block: Block)
      requires Valid()
      modifies this`sendBlocks, this`state
      ensures Valid() && state == DriverState.GetSend(old(state), id)
      ensures id in sendBlocks && block == sendBlocks[id] && block.code == id
      ensures fresh(sendBlocks.Values - old(sendBlocks.Values))
    {
      if id in sendBlocks {
        return sendBlocks[id];
      }
      block := new Block(id);
      AddSend(block);
    }

    method AddSend(block: Block)
      requires Valid() && block.code !in sendBlocks && block !in recvBlocks.Values
      requires block.data == [] && !block.queued && block.count == 0
      modifies this`sendBlocks, this`state
      ensures Valid() && state == DriverState.GetSend(old(state), block.code)
      ensures sendBlocks == old(sendBlocks)[block.code := block]
    {
      sendBlocks := sendBlocks[block.code := block];
      state := DriverState.GetSend(state, block.code);
    }

    method GetRecv(id: u16) returns (block: Block)
      requires Valid()
      modifies this`recvBlocks, this`state
      ensures Valid() && state == DriverState.GetRecv(old(state), id)
      ensures id in recvBlocks && block == recvBlocks[id]
      ensures fresh(recvBlocks.Values - old(recvBlocks.Values))
    {
      if id in recvBlocks {
        return recvBlocks[id];
      }
      block := new Block(id);
      AddRecv(block);
    }

    method AddRecv(block: Block)
      requires Valid() && block.code !in recvBlocks && block !in sendBlocks.Values
      requires block.data == [] && block.count == 0
      modifies this`recvBlocks, this`state
      ensures Valid() && state == DriverState.GetRecv(old(state), block.code)
      ensures recvBlocks == old(recvBlocks)[block.code := block]
    {
      recvBlocks := recvBlocks[block.code := block];
      state := DriverState.GetRecv(state, block.code);
    }

    method Enqueue(block: Block, buf: Body)
      requires Valid() && block in sendBlocks.Values
      modifies this`sendbuf, this`state, block`queued, block`count
      ensures Valid() && state == Enqueued(old(state), block.code, buf)
    {
      AddMessage(block.code, buf);
      MarkQueued(block);
      NoteQueued(Frame(block.code, buf));
    }

    /** Adds header and body to the send buffer. */
    method AddMessage(id: u16, buf: Body)
      requires Valid()
      modifies this`sendbuf, this`state
      ensures Valid() && state == WithBytes(old(state), id, buf)
    {
      var hbuf := Header(id, |buf|);
      Regroup(sendbuf, hbuf, buf);
      sendbuf := sendbuf + hbuf;
      sendbuf := sendbuf + buf;
      state := WithBytes(state, id, buf);
    }

    /** Marks a block and counts its message. */
    method MarkQueued(block: Block)
      requires Valid() && block in sendBlocks.Values
      modifies this`state, block`queued, block`count
      ensures Valid() && state == WithMark(old(state), block.code)
    {
      MarkBlock(block, sendBlocks, state.send, recvBlocks, state.inbox.blocks);
      SendChanged(WithMark(state, block.code).send);
    }

    /** Records a queued message. */
    ghost method NoteQueued(f: Frame)
      requires Valid()
      modifies this`state
      ensures Valid() && state == WithNote(old(state), f)
    {
      state := WithNote(state, f);
    }

    /** Queues a message for a block of this driver. Every result but the first two is an exception. */
    method QueueBlock(block: Block, buf: Body, memory: bool) returns (result: SendResult)
      requires Valid() && block in sendBlocks.Values
      modifies this`sendbuf, this`state, block`queued, block`count
      ensures Valid() && state == DriverState.QueueBlock(old(state), block.code, buf, maxSendBuffer, memory)
      ensures result == QueueResult(old(state), block.code, maxSendBuffer, memory)
    {
      if !connected {
        return Ignored;
      }
      if block.queued {
        return AlreadyQueued;
      }
      if maxSendBuffer > 0 && |sendbuf| >= maxSendBuffer {
        return BufferFull;
      }
      if !memory {
        return NoMemory;
      }
      Enqueue(block, buf);
      return Done;
    }

    method QueueSend(id: u16, buf: Body, memory: bool) returns (result: SendResult)
      requires Valid()
      modifies this`sendBlocks, this`sendbuf, this`state, sendBlocks.Values
      ensures Valid() && state == DriverState.QueueSend(old(state), id, buf, maxSendBuffer, memory)
      ensures result == QueueResult(DriverState.GetSend(old(state), id), id, maxSendBuffer, memory)
      ensures fresh(sendBlocks.Values - old(sendBlocks.Values))
    {
      var block := GetSend(id);
      result := QueueBlock(block, buf, memory);
    }

    /** Queues the scratch data of a block, if there is such a block. */
    method Send(id: u16, memory: bool) returns (result: SendResult)
      requires Valid()
      modifies this`sendbuf, this`state, sendBlocks.Values
      ensures Valid() && state == SendScratch(old(state), id, maxSendBuffer, memory)
      ensures result == if id in old(state).send then QueueResult(old(state), id, maxSendBuffer, memory) else Ignored
    {
      if id !in sendBlocks {
        return Ignored;
      }
      var block := sendBlocks[id];
      result := QueueBlock(block, block.data, memory);
    }

    method SetData(id: u16, data: Body)
      requires Valid()
      modifies this`sendBlocks, this`state, sendBlocks.Values
      ensures Valid() && state == ResizeScratch(old(state), id, data)
      ensures fresh(sendBlocks.Values - old(sendBlocks.Values))
    {
      var block := GetSend(id);
      Refill(block, data);
    }

    method Refill(block: Block, data: Body)
      requires Valid() && block in sendBlocks.Values
      modifies this`state, block`data
      ensures Valid() && state == WithData(old(state), block.code, data)
    {
      SetBlockData(block, data, sendBlocks, state.send, recvBlocks, state.inbox.blocks);
      SendChanged(WithData(state, block.code, data).send);
    }

    /** Sets the size of a block's scratch data, keeping what fits and filling up with zeros. */
    method SetSendBlockSize(id: u16, size: u32)
      requires Valid()
      modifies this`sendBlocks, this`state, sendBlocks.Values
      ensures Valid()
      ensures var data := if id in old(state).send then old(state).send[id].data else [];
        state == ResizeScratch(old(state), id, Resized(data, size))
    {
      var data := if id in sendBlocks then sendBlocks[id].data else [];
      SetData(id, Resized(data, size));
    }

    method FlushSend(memory: bool) returns (result: SendResult)
      requires Valid()
      modifies this`session, this`sendbuf, this`state, sendBlocks.Values`queued
      ensures Valid() && state == Flush(old(state), maxSendBuffer, memory)
      ensures result == FlushResult(old(state), maxSendBuffer, memory)
    {
      if !connected {
        return Ignored;
      }
      if maxSendBuffer > 0 && |session.output| >= maxSendBuffer {
        return BufferFull;
      }
      if !memory {
        ThrowAway();
        return NoMemory;
      }
      MoveOut();
      return Done;
    }

    /** Empties the send buffer after the session has not taken it. */
    method ThrowAway()
      requires Valid()
      modifies this`sendbuf, this`state
      ensures Valid() && state == ThrownAway(old(state))
    {
      sendbuf := [];
      state := ThrownAway(state);
    }

    /** Hands the send buffer to the session and clears all marks. */
    method MoveOut()
      requires Valid() && session.Session?
      modifies this`session, this`sendbuf, this`state, sendBlocks.Values`queued
      ensures Valid() && state == Moved(old(state))
    {
      HandOver();
      ClearMarks();
    }

    method HandOver()
      requires Valid() && session.Session?
      modifies this`session, this`sendbuf, this`state
      ensures Valid() && state == HandedOver(old(state))
    {
      session := session.(output := session.output + sendbuf);
      sendbuf := [];
      state := HandedOver(state);
    }

    method ClearMarks()
      requires Valid()
      modifies this`state, sendBlocks.Values`queued
      ensures Valid() && state == AllUnmarked(old(state))
    {
      ClearQueued(sendBlocks, state.send, recvBlocks, state.inbox.blocks);
      SendChanged(AllIdle(state.send));
    }

    /** Brings the state up to date with the send blocks. */
    ghost method SendChanged(view: map<u16, SendBlock>)
      requires FieldsAgree() && Sound(state) && Apart(recvBlocks, sendBlocks)
      requires RecvMirrors(recvBlocks, state.inbox.blocks) && SendMirrors(sendBlocks, view)
      modifies this`state
      ensures Valid() && state == old(state).(send := view)
    {
      state := state.(send := view);
    }

    /** And with the receive blocks. */
    ghost method RecvChanged(view: map<u16, RecvBlock>, log: seq<Frame>)
      requires FieldsAgree() && Sound(state) && Apart(recvBlocks, sendBlocks)
      requires RecvMirrors(recvBlocks, view) && SendMirrors(sendBlocks, state.send)
      modifies this`state
      ensures Valid() && state == old(state).(inbox := old(state).inbox.(blocks := view, log := log))
    {
      state := state.(inbox := state.inbox.(blocks := view, log := log));
    }

    // Connecting.

    method StartReconnect()
      requires Valid() && session.Session? && !timerActive
      modifies this`session, this`connected, this`timerActive, this`state
      ensures Valid() && state == DriverState.StartReconnect(old(state))
    {
      session := NoSession;
      connected := false;
      timerActive := true;
      state := DriverState.StartReconnect(state);
    }

    method ForceReconnect()
      requires Valid() && (connected ==> !timerActive)
      modifies this`session, this`connected, this`timerActive, this`state
      ensures Valid() && state == DriverState.ForceReconnect(old(state))
    {
      if !connected {
        return;
      }
      StartReconnect();
    }

    /** The final shutdown. Afterwards the object is no longer valid if it was connected: the flag stays. A
        session that was still connecting is forgotten. */
    method Stop() returns (forgotten: bool)
      requires Valid()
      modifies this`session, this`timerActive, this`state
      ensures FieldsAgree() && BlocksAgree() && state == DriverState.Stop(old(state))
      ensures forgotten == Forgets(old(state)) && (Valid() <==> !connected)
    {
      forgotten := session.Session? && !connected;
      session := NoSession;
      timerActive := false;
      state := DriverState.Stop(state);
    }

    method SetFields(id: u16, len: u32)
      requires Valid() && !haveHead
      modifies this`header, this`bodylen, this`state
      ensures Valid() && state == WithFields(old(state), id, len)
    {
      header := id;
      bodylen := len;
      state := WithFields(state, id, len);
    }

    method AwaitHeader()
      requires Valid()
      modifies this`haveHead, this`bodyBlock, this`need, this`state
      ensures Valid() && state == HeaderAwaited(old(state))
    {
      haveHead := false;
      bodyBlock := null;
      need := HEADER_SIZE;
      state := HeaderAwaited(state);
    }

    method ResetDecoder()
      requires Valid()
      modifies this`haveHead, this`header, this`bodylen, this`bodyBlock, this`need, this`state
      ensures Valid() && state == Reset(old(state))
    {
      AwaitHeader();
      SetFields(0, 0);
    }

    /** Starts a connection. Running out of memory is reported to the caller by an exception. */
    method Connect(how: Setup) returns (thrown: bool)
      requires Valid() && !connected && session.NoSession? && !timerActive
      modifies this`haveHead, this`header, this`bodylen, this`bodyBlock, this`need, this`session, this`timerActive, this`state
      ensures Valid() && state == DriverState.Connect(old(state), how) && thrown == how.OutOfMemory?
    {
      ResetDecoder();
      thrown := Begin(how);
    }

    method Begin(how: Setup) returns (thrown: bool)
      requires Valid() && !connected && session.NoSession? && !timerActive && need == HEADER_SIZE
      modifies this`session, this`timerActive, this`state
      ensures Valid() && state == DriverState.Begin(old(state), how) && thrown == how.OutOfMemory?
    {
      if how.OutOfMemory? {
        return true;
      }
      session := Session([], [], need, MIN_MAX_BUF_SIZE);
      if how.LookupFailed? {
        session := NoSession;
        timerActive := true;
      }
      state := DriverState.Begin(state, how);
      return false;
    }

    method Reconnect(how: Setup) returns (thrown: bool)
      requires Valid() && !connected && session.NoSession?
      modifies this`haveHead, this`header, this`bodylen, this`bodyBlock, this`need, this`session, this`timerActive, this`state
      ensures Valid() && state == DriverState.Reconnect(old(state), how) && thrown == how.OutOfMemory?
      ensures !thrown ==> session.Session? || timerActive
    {
      timerActive := false;
      state := state.(timer := false);
      thrown := Connect(how);
    }

    method EventCb(event: ConnectionEvent)
      requires Valid() && session.Session? && (event.Failed? ==> !timerActive)
      modifies this`session, this`connected, this`timerActive, this`connCount, this`state
      ensures Valid() && state == DriverState.EventCb(old(state), event)
    {
      if event.NowConnected? {
        connected := true;
        connCount := connCount + 1;
        state := DriverState.EventCb(state, event);
      } else if event.Failed? {
        StartReconnect();
      }
    }

    // Receiving.

    /** Removes bytes from the input buffer. */
    method Remove(n: nat) returns (bytes: seq<byte>)
      requires Valid() && session.Session? && n <= |session.input|
      modifies this`session, this`state
      ensures Valid() && state == Consumed(old(state), n) && bytes == old(session.input)[..n]
    {
      bytes := session.input[..n];
      session := session.(input := session.input[n..]);
      state := Consumed(state, n);
    }

    method Find(id: u16) returns (block: Block?)
      requires BlocksAgree()
      ensures block != null <==> id in state.inbox.blocks
      ensures block != null ==> id in recvBlocks && recvBlocks[id] == block
    {
      block := if id in recvBlocks then recvBlocks[id] else null;
    }

    /** Looks up the block of the header just read, and awaits the body. */
    method AwaitBody()
      requires Valid() && !haveHead
      modifies this`haveHead, this`bodyBlock, this`need, this`state
      ensures Valid() && state == BodyAwaited(old(state), header in old(state).inbox.blocks)
    {
      var block := Find(header);
      AwaitBodyOf(block);
    }

    method AwaitBodyOf(block: Block?)
      requires Valid() && !haveHead
      requires block != null ==> header in recvBlocks && recvBlocks[header] == block && header in state.inbox.blocks
      modifies this`haveHead, this`bodyBlock, this`need, this`state
      ensures Valid() && state == BodyAwaited(old(state), block != null)
    {
      haveHead := true;
      bodyBlock := block;
      need := bodylen;
      state := BodyAwaited(state, block != null);
    }

    method KeepHeader(id: u16, len: u32)
      requires Valid() && !haveHead
      modifies this`haveHead, this`header, this`bodylen, this`bodyBlock, this`need, this`state
      ensures Valid() && state == HeaderRead(old(state), id, len)
    {
      SetFields(id, len);
      AwaitBody();
    }

    /** Counts the message whose header has just been read, with its block or among the unknown. */
    method CountMessage()
      requires Valid() && haveHead && (header in recvBlocks <==> bodyBlock != null)
      modifies this`unknownCount, this`state, recvBlocks.Values
      ensures Valid() && state == HeaderCounted(old(state))
    {
      if bodyBlock != null {
        CountBlock(bodyBlock, recvBlocks, state.inbox.blocks, sendBlocks, state.send);
        RecvChanged(HeaderCounted(state).inbox.blocks, state.inbox.log);
      } else {
        unknownCount := unknownCount + 1;
        state := HeaderCounted(state);
      }
    }

    method NoteHeader(id: u16, len: u32)
      requires Valid() && !haveHead
      modifies this`haveHead, this`header, this`bodylen, this`bodyBlock, this`need, this`unknownCount, this`state, recvBlocks.Values
      ensures Valid() && state == HeaderSeen(old(state), id, len)
    {
      KeepHeader(id, len);
      CountMessage();
    }

    method StoreBody(body: Body)
      requires Valid() && haveHead
      modifies this`haveHead, this`bodyBlock, this`need, this`state, recvBlocks.Values
      ensures Valid() && state == BodySeen(old(state), body)
    {
      FillBodyBlock(body);
      EndBody();
    }

    /** The next thing awaited is a header. */
    method EndBody()
      requires Valid() && haveHead
      modifies this`haveHead, this`bodyBlock, this`need, this`state
      ensures Valid() && state == BodyEnded(old(state))
    {
      haveHead := false;
      bodyBlock := null;
      need := HEADER_SIZE;
      state := BodyEnded(state);
    }

    /** Puts the body into the block that awaits it, if there is one. */
    method FillBodyBlock(body: Body)
      requires Valid() && haveHead
      modifies this`state, recvBlocks.Values
      ensures Valid() && state == BodyFilled(old(state), body)
    {
      if bodyBlock != null {
        FillBlock(bodyBlock, body, recvBlocks, state.inbox.blocks, sendBlocks, state.send);
        RecvChanged(BodyFilled(state, body).inbox.blocks, BodyFilled(state, body).inbox.log);
      }
    }

    method DecodeHeader() returns (framingError: bool)
      requires Valid() && connected && !haveHead && !timerActive && |session.input| >= HEADER_SIZE
      modifies this`session, this`connected, this`timerActive, this`haveHead, this`header, this`bodylen, this`bodyBlock, this`need,
               this`unknownCount, this`state, recvBlocks.Values
      ensures Valid() && state == TakeHeader(old(state)) && framingError == !connected
      ensures timerActive == framingError
    {
      var hbuf := Remove(HEADER_SIZE);
      if hbuf[0] != 'P' as int || hbuf[1] != 'S' as int {
        StartReconnect();
        return true;
      }
      NoteHeader(HeaderId(hbuf), HeaderLen(hbuf));
      return false;
    }

    method DecodeBody()
      requires Valid() && connected && haveHead && |session.input| >= bodylen
      modifies this`session, this`connected, this`timerActive, this`haveHead, this`header, this`bodylen, this`bodyBlock, this`need,
               this`unknownCount, this`state, recvBlocks.Values
      ensures Valid() && state == TakeBody(old(state)) && connected && timerActive == old(timerActive)
    {
      var body := Remove(bodylen);
      StoreBody(body);
    }

    /** One pass of the decode loop. */
    method DecodeStep() returns (framingError: bool)
      requires Valid() && connected && !timerActive && |session.input| >= need
      modifies this`session, this`connected, this`timerActive, this`haveHead, this`header, this`bodylen, this`bodyBlock, this`need,
               this`unknownCount, this`state, recvBlocks.Values
      ensures Valid() && state == ReceiveStep(old(state)) && framingError == !connected
      ensures timerActive == framingError
      ensures Pending(state) < Pending(old(state))
    {
      if !haveHead {
        framingError := DecodeHeader();
      } else {
        DecodeBody();
        framingError := false;
      }
    }

    /** The receive callback. `progress` says whether the assertion at the end of the loop body held in
        every pass; the loop goes on without it, as in a build without assertions. */
    method RecvData() returns (progress: bool)
      requires Valid() && connected && !timerActive
      modifies this`session, this`connected, this`timerActive, this`haveHead, this`header, this`bodylen, this`bodyBlock, this`need,
               this`unknownCount, this`state, recvBlocks.Values
      ensures Valid() && state == Receive(old(state)) && progress == EveryPassShrinks(old(state))
    {
      progress := true;
      while |session.input| >= need
        invariant Valid() && connected && !timerActive
        invariant Receive(state) == Receive(old(state))
        invariant (progress && EveryPassShrinks(state)) == EveryPassShrinks(old(state))
        decreases Pending(state)
      {
        var nbytes := |session.input|;
        var framingError := DecodeStep();
        if framingError {
          return;
        }
        if nbytes <= |session.input| {
          progress := false;
        }
      }
      UpdateMarks();
    }

    method UpdateMarks()
      requires Valid() && session.Session?
      modifies this`session, this`state
      ensures Valid() && state == SetMarks(old(state))
    {
      session := session.(low := need, high := if need >= MIN_MAX_BUF_SIZE then need + 1 else MIN_MAX_BUF_SIZE);
      state := SetMarks(state);
    }
  }
}
