/** What receiving does to the blocks a driver keeps, shared by the stream and datagram drivers. */
module Inboxes {
  import opened Bytes
  import opened Frames

  /** A receive block: its latest body, and how often its id has been seen since it was created. */
  datatype RecvBlock = RecvBlock(data: Body, count: nat)

  /** The receive side of a driver; `log` lists the deliveries (scan requests and listeners) made. */
  datatype Inbox = Inbox(blocks: map<u16, RecvBlock>, unknown: nat, log: seq<Frame>)

  /** A header with this id has been read. */
  function SeeHeader(b: Inbox, id: u16): Inbox {
    if id in b.blocks
    then b.(blocks := b.blocks[id := b.blocks[id].(count := b.blocks[id].count + 1)])
    else b.(unknown := b.unknown + 1)
  }

  /** The body of a message to a registered block is complete. */
  function SeeBody(b: Inbox, f: Frame): Inbox
    requires f.id in b.blocks
  {
    b.(blocks := b.blocks[f.id := b.blocks[f.id].(data := f.body)], log := b.log + [f])
  }

  function Deliver(b: Inbox, f: Frame): Inbox {
    if f.id in b.blocks then SeeBody(SeeHeader(b, f.id), f) else SeeHeader(b, f.id)
  }

  function DeliverAll(b: Inbox, fs: seq<Frame>): Inbox
    decreases |fs|
  {
    if fs == [] then b else DeliverAll(Deliver(b, fs[0]), fs[1..])
  }

  /** Messages for blocks somebody reads. */
  function Wanted(ids: set<u16>, fs: seq<Frame>): seq<Frame> {
    if fs == [] then [] else (if fs[0].id in ids then [fs[0]] else []) + Wanted(ids, fs[1..])
  }

  function Count(fs: seq<Frame>, id: u16): nat {
    if fs == [] then 0 else (if fs[0].id == id then 1 else 0) + Count(fs[1..], id)
  }

  function LastBody(fs: seq<Frame>, id: u16, before: Body): Body {
    if fs == [] then before else LastBody(fs[1..], id, if fs[0].id == id then fs[0].body else before)
  }

  /** Delivering a list of messages logs exactly the wanted ones in order, leaves each block with
      its last body, counts every message once, and touches nothing else. */
  lemma DeliverAllMeaning(b: Inbox, fs: seq<Frame>)
    ensures var c := DeliverAll(b, fs);
      && c.blocks.Keys == b.blocks.Keys
      && c.log == b.log + Wanted(b.blocks.Keys, fs)
      && c.unknown == b.unknown + |fs| - |Wanted(b.blocks.Keys, fs)|
      && (forall id | id in b.blocks ::
            && c.blocks[id].count == b.blocks[id].count + Count(fs, id)
            && c.blocks[id].data == LastBody(fs, id, b.blocks[id].data))
  {
    DeliverAllLogs(b, fs);
    forall id | id in b.blocks
      ensures DeliverAll(b, fs).blocks[id] ==
        RecvBlock(LastBody(fs, id, b.blocks[id].data), b.blocks[id].count + Count(fs, id))
    {
      DeliverAllToBlock(b, fs, id);
    }
  }

  lemma {:induction false} DeliverAllLogs(b: Inbox, fs: seq<Frame>)
    ensures var c := DeliverAll(b, fs);
      && c.blocks.Keys == b.blocks.Keys
      && c.log == b.log + Wanted(b.blocks.Keys, fs)
      && c.unknown == b.unknown + |fs| - |Wanted(b.blocks.Keys, fs)|
    decreases |fs|
  {
    if fs != [] {
      var d := Deliver(b, fs[0]);
      assert d.blocks.Keys == b.blocks.Keys;
      DeliverAllLogs(d, fs[1..]);
      assert d.log + Wanted(b.blocks.Keys, fs[1..]) == b.log + Wanted(b.blocks.Keys, fs);
    }
  }

  lemma {:induction false} DeliverAllToBlock(b: Inbox, fs: seq<Frame>, id: u16)
    requires id in b.blocks
    ensures id in DeliverAll(b, fs).blocks
    ensures DeliverAll(b, fs).blocks[id] ==
      RecvBlock(LastBody(fs, id, b.blocks[id].data), b.blocks[id].count + Count(fs, id))
    decreases |fs|
  {
    if fs != [] {
      DeliverAllToBlock(Deliver(b, fs[0]), fs[1..], id);
    }
  }

  lemma {:induction false} DeliverConcat(b: Inbox, x: seq<Frame>, y: seq<Frame>)
    ensures DeliverAll(b, x + y) == DeliverAll(DeliverAll(b, x), y)
    decreases |x|
  {
    if x == [] {
      assert x + y == y;
    } else {
      assert (x + y)[1..] == x[1..] + y;
      DeliverConcat(Deliver(b, x[0]), x[1..], y);
    }
  }

  /** The counts of the blocks with ids below `n`. */
  function CountsBelow(m: map<u16, RecvBlock>, n: nat): nat {
    if n == 0 then 0 else CountsBelow(m, n - 1) + if n - 1 in m then m[n - 1].count else 0
  }

  function TotalCount(m: map<u16, RecvBlock>): nat {
    CountsBelow(m, 0x1_0000)
  }

  lemma {:induction false} CountsSplit(m: map<u16, RecvBlock>, k: map<u16, RecvBlock>, id: u16, n: nat)
    requires id in k && m.Keys <= k.Keys <= m.Keys + {id}
    requires forall i | i in m && i != id :: k[i].count == m[i].count
    ensures CountsBelow(k, n) == CountsBelow(m, n) +
      if id < n then k[id].count - (if id in m then m[id].count else 0) else 0
  {
    if n > 0 {
      CountsSplit(m, k, id, n - 1);
    }
  }

  /** Every header read raises exactly one counter by one. */
  lemma SeeHeaderCounts(b: Inbox, id: u16)
    ensures var c := SeeHeader(b, id); TotalCount(c.blocks) + c.unknown == TotalCount(b.blocks) + b.unknown + 1
  {
    if id in b.blocks {
      CountsSplit(b.blocks, SeeHeader(b, id).blocks, id, 0x1_0000);
    }
  }

  lemma SeeBodyCounts(b: Inbox, f: Frame)
    requires f.id in b.blocks
    ensures TotalCount(SeeBody(b, f).blocks) == TotalCount(b.blocks)
  {
    CountsSplit(b.blocks, SeeBody(b, f).blocks, f.id, 0x1_0000);
  }

  lemma NewBlockCounts(m: map<u16, RecvBlock>, id: u16)
    requires id !in m
    ensures TotalCount(m[id := RecvBlock([], 0)]) == TotalCount(m)
  {
    CountsSplit(m, m[id := RecvBlock([], 0)], id, 0x1_0000);
  }
}
