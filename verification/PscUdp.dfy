/** The datagram driver itself: an object with a growing scratch buffer. */
module PscUdp {
  import opened Bytes
  import opened Frames
  import opened Inboxes
  import opened Datagrams
  import opened Psc

  class PSCUDP {
    var rxscratch: seq<byte>
    var recvBlocks: map<u16, Block>
    var unknownCount: nat
    var connCount: nat
    ghost var state: Receiver         // the value of the whole driver

    /** The real fields and blocks are what the state says. */
    ghost predicate Valid()
      reads this, recvBlocks.Values
    {
      && state.scratch == rxscratch && state.connCount == connCount && state.inbox.unknown == unknownCount
      && RecvMirrors(recvBlocks, state.inbox.blocks)
    }

    constructor ()
      ensures Valid()
      ensures |rxscratch| == 1024 && state == Receiver(rxscratch, Inbox(map[], 0, []), 0, 0)
    {
      rxscratch := seq(FIRST_SCRATCH, _ => 0);
      recvBlocks, unknownCount, connCount := map[], 0, 0;
      state := Receiver(rxscratch, Inbox(map[], 0, []), 0, 0);
    }

    /** The operating system's receive: puts as much of the packet as fits at the front. */
    method RecvFrom(p: Packet) returns (ret: nat)
      requires Valid()
      modifies this`rxscratch, this`state
      ensures Valid() && state == old(state).(scratch := Landed(old(state), p)) && ret == Fits(old(state), p)
    {
      ret := if |p.bytes| < |rxscratch| then |p.bytes| else |rxscratch|;
      rxscratch := p.bytes[..ret] + rxscratch[ret..];
      state := state.(scratch := rxscratch);
    }

    method CountUnknown()
      requires Valid()
      modifies this`unknownCount, this`state
      ensures Valid()
      ensures state == old(state).(inbox := old(state).inbox.(unknown := old(state).inbox.unknown + 1))
    {
      unknownCount := unknownCount + 1;
      state := state.(inbox := state.inbox.(unknown := state.inbox.unknown + 1));
    }

    /** Resizes the scratch to what the packet would have needed. */
    method Grow(bodylen: u32)
      requires Valid()
      modifies this`rxscratch, this`unknownCount, this`state
      ensures Valid()
      ensures state == old(state).(scratch := Resized(old(state).scratch, WantedSize(bodylen)),
                                   inbox := old(state).inbox.(unknown := old(state).inbox.unknown + 1))
    {
      rxscratch := Resized(rxscratch, (bodylen + HEADER_SIZE) % 0x1_0000_0000);
      state := state.(scratch := rxscratch);
      CountUnknown();
    }

    method Store(id: u16, body: Body)
      requires Valid()
      modifies this`unknownCount, this`state, recvBlocks.Values
      ensures Valid() && state == old(state).(inbox := Deliver(old(state).inbox, Frame(id, body)))
    {
      if id in recvBlocks {
        var block := recvBlocks[id];
        state := state.(inbox := Deliver(state.inbox, Frame(id, body)));
        block.count := block.count + 1;
        block.data := body;
      } else {
        CountUnknown();
      }
    }

    /** One pass of the receive loop that got a packet. */
    method TakePacket(p: Packet) returns (scanMe: bool)
      requires Valid()
      modifies this`rxscratch, this`unknownCount, this`state, recvBlocks.Values
      ensures Valid() && state == Take(old(state), p) && scanMe == Alarming(Classify(old(state), p))
    {
      ghost var r := state;
      var ret := RecvFrom(p);
      if p.foreign {
        return false;
      } else if ret < HEADER_SIZE {
        CountUnknown();
        return true;
      }
      scanMe := Decode(r, p);
    }

    /** What is in the scratch is looked at as a message. */
    method Decode(ghost r: Receiver, ghost p: Packet) returns (scanMe: bool)
      requires Valid() && state == r.(scratch := Landed(r, p)) && !p.foreign && Fits(r, p) >= HEADER_SIZE
      modifies this`rxscratch, this`unknownCount, this`state, recvBlocks.Values
      ensures Valid() && state == Take(r, p) && scanMe == Alarming(Classify(r, p))
    {
      if rxscratch[0] != 'P' as int || rxscratch[1] != 'S' as int {
        return true;
      }
      var header, bodylen := HeaderId(rxscratch), HeaderLen(rxscratch);
      if bodylen > |rxscratch| - HEADER_SIZE {
        Grow(bodylen);
        return true;
      }
      Store(header, rxscratch[HEADER_SIZE..HEADER_SIZE + bodylen]);
      return false;
    }

    /** The receive callback. */
    method RecvData(w: Wakeup)
      requires Valid()
      modifies this`rxscratch, this`unknownCount, this`connCount, this`state, recvBlocks.Values
      ensures Valid() && state == Woken(old(state), w)
    {
      if w.Timeout? {
        CountConnection();
        NoteScan();
        return;
      } else if w.Spurious? {
        return;
      }
      var scanMe := TakePackets(w.packets);
      if w.error {
        CountConnection();
        scanMe := true;
      }
      if scanMe {
        NoteScan();
      }
    }

    method CountConnection()
      requires Valid()
      modifies this`connCount, this`state
      ensures Valid() && state == old(state).(connCount := old(state).connCount + 1)
    {
      connCount := connCount + 1;
      state := state.(connCount := connCount);
    }

    /** A status update is requested. */
    ghost method NoteScan()
      requires Valid()
      modifies this`state
      ensures Valid() && state == old(state).(scans := old(state).scans + 1)
    {
      state := state.(scans := state.scans + 1);
    }

    /** The receive loop up to the call that finds nothing more. */
    method TakePackets(ps: seq<Packet>) returns (scanMe: bool)
      requires Valid()
      modifies this`rxscratch, this`unknownCount, this`state, recvBlocks.Values
      ensures Valid() && state == TakeAll(old(state), ps)
      ensures scanMe == AnyAlarm(Kinds(old(state), ps))
    {
      scanMe := false;
      var i := 0;
      while i < |ps|
        invariant i <= |ps| && Valid() && recvBlocks == old(recvBlocks)
        invariant TakeAll(old(state), ps) == TakeAll(state, ps[i..])
        invariant (scanMe || AnyAlarm(Kinds(state, ps[i..]))) == AnyAlarm(Kinds(old(state), ps))
      {
        AlarmNow(state, ps[i..]);
        var now := TakePacket(ps[i]);
        scanMe := scanMe || now;
        assert ps[i..][1..] == ps[i + 1..];
        i := i + 1;
      }
    }
  }

  lemma AlarmNow(r: Receiver, ps: seq<Packet>)
    requires ps != []
    ensures AnyAlarm(Kinds(r, ps)) <==> Alarming(Classify(r, ps[0])) || AnyAlarm(Kinds(Take(r, ps[0]), ps[1..]))
  {
    var k, ks := Classify(r, ps[0]), Kinds(Take(r, ps[0]), ps[1..]);
    assert Kinds(r, ps) == [k] + ks;
    assert k in [k] + ks;
  }
}
