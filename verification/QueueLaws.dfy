/** What a send queue keeps, whatever is queued, moved out or thrown away. */
module QueueLaws {
  import opened Bytes
  import opened Frames
  import opened Inboxes
  import opened DriverState

  predicate HasId(fs: seq<Frame>, id: u16) {
    exists f :: f in fs && f.id == id
  }

  /** A block is marked exactly when it has a queued message, or had one that was thrown away. */
  ghost predicate MarksMatch(send: map<u16, SendBlock>, q: seq<Frame>, stale: set<u16>) {
    && (forall id | id in send :: send[id].queued <==> HasId(q, id) || id in stale)
    && (forall id | id in stale :: id in send && !HasId(q, id))
  }

  /** Each block has counted its messages: moved out, queued and thrown away. */
  ghost predicate CountsMatch(send: map<u16, SendBlock>, sent: seq<Frame>, q: seq<Frame>, dropped: seq<Frame>) {
    && (forall f | f in sent || f in q || f in dropped :: f.id in send)
    && (forall id | id in send :: send[id].count == Count(sent, id) + Count(q, id) + Count(dropped, id))
  }

  ghost predicate DistinctIds(q: seq<Frame>) {
    forall i, j | 0 <= i < j < |q| :: q[i].id != q[j].id
  }

  /** The last message was queued while there was room. */
  ghost predicate Bounded(q: seq<Frame>, max: int) {
    max > 0 && q != [] ==> |EncodeAll(q[..|q| - 1])| < max
  }

  /** The bytes moved are the messages moved, and those in the buffer the messages queued, in order. */
  ghost predicate BytesMatch(h: History, sendbuf: seq<byte>) {
    h.moved == EncodeAll(h.sent) && sendbuf == EncodeAll(h.queue)
  }

  /** Whole messages are in the buffer, at most one for each block, and all marks and counts are right. */
  ghost predicate QueueHolds(h: History, sendbuf: seq<byte>, send: map<u16, SendBlock>, max: int) {
    && BytesMatch(h, sendbuf)
    && MarksMatch(send, h.queue, h.stale) && CountsMatch(send, h.sent, h.queue, h.dropped)
    && DistinctIds(h.queue) && Bounded(h.queue, max)
  }

  lemma {:induction false} CountConcat(a: seq<Frame>, b: seq<Frame>, id: u16)
    ensures Count(a + b, id) == Count(a, id) + Count(b, id)
  {
    if a == [] {
      assert a + b == b;
    } else {
      assert (a + b)[1..] == a[1..] + b;
      CountConcat(a[1..], b, id);
    }
  }

  lemma {:induction false} NoneCounted(fs: seq<Frame>, id: u16)
    requires !HasId(fs, id)
    ensures Count(fs, id) == 0
  {
    if fs != [] {
      NoneCounted(fs[1..], id);
    }
  }

  lemma EncodeOneMore(q: seq<Frame>, f: Frame)
    ensures EncodeAll(q + [f]) == EncodeAll(q) + Encode(f)
    ensures (q + [f])[..|q + [f]| - 1] == q
  {
    EncodeAllConcat(q, [f]);
    EncodeAllOne(f);
  }

  // One more message.

  function Marked(send: map<u16, SendBlock>, id: u16): map<u16, SendBlock>
    requires id in send
  {
    send[id := send[id].(queued := true, count := send[id].count + 1)]
  }

  lemma HasIdOneMore(q: seq<Frame>, f: Frame, id: u16)
    ensures HasId(q + [f], id) <==> HasId(q, id) || f.id == id
  {
    assert f in q + [f];
  }

  lemma MarksOneMore(send: map<u16, SendBlock>, q: seq<Frame>, stale: set<u16>, f: Frame)
    requires f.id in send && !send[f.id].queued && MarksMatch(send, q, stale)
    ensures MarksMatch(Marked(send, f.id), q + [f], stale) && !HasId(q, f.id)
  {
    forall id: u16
      ensures HasId(q + [f], id) <==> HasId(q, id) || f.id == id
    {
      HasIdOneMore(q, f, id);
    }
  }

  lemma CountsOneMore(send: map<u16, SendBlock>, sent: seq<Frame>, q: seq<Frame>, dropped: seq<Frame>, f: Frame)
    requires f.id in send && CountsMatch(send, sent, q, dropped)
    ensures CountsMatch(Marked(send, f.id), sent, q + [f], dropped)
  {
    forall id | id in send
      ensures Count(q + [f], id) == Count(q, id) + if f.id == id then 1 else 0
    {
      CountConcat(q, [f], id);
    }
  }

  lemma DistinctOneMore(q: seq<Frame>, f: Frame)
    requires DistinctIds(q) && !HasId(q, f.id)
    ensures DistinctIds(q + [f])
  {
  }

  lemma QueueOneMore(h: History, sendbuf: seq<byte>, send: map<u16, SendBlock>, max: int, f: Frame)
    requires QueueHolds(h, sendbuf, send, max)
    requires f.id in send && !send[f.id].queued && HasRoom(|sendbuf|, max)
    ensures QueueHolds(h.(queue := h.queue + [f]), sendbuf + Encode(f), Marked(send, f.id), max)
  {
    EncodeOneMore(h.queue, f);
    MarksOneMore(send, h.queue, h.stale, f);
    CountsOneMore(send, h.sent, h.queue, h.dropped, f);
    DistinctOneMore(h.queue, f);
  }

  lemma NewBlock(h: History, sendbuf: seq<byte>, send: map<u16, SendBlock>, max: int, id: u16)
    requires QueueHolds(h, sendbuf, send, max) && id !in send
    ensures QueueHolds(h, sendbuf, send[id := SendBlock([], false, 0)], max)
  {
    NoneCounted(h.sent, id);
    NoneCounted(h.queue, id);
    NoneCounted(h.dropped, id);
  }

  // All of them at once.

  lemma CountsMoved(send: map<u16, SendBlock>, sent: seq<Frame>, q: seq<Frame>, dropped: seq<Frame>)
    requires CountsMatch(send, sent, q, dropped)
    ensures CountsMatch(AllIdle(send), sent + q, [], dropped)
    ensures CountsMatch(send, sent, [], dropped + q)
  {
    forall id | id in send
      ensures Count(sent + q, id) == Count(sent, id) + Count(q, id)
      ensures Count(dropped + q, id) == Count(dropped, id) + Count(q, id)
    {
      CountConcat(sent, q, id);
      CountConcat(dropped, q, id);
    }
  }

  lemma QueueMoved(h: History, sendbuf: seq<byte>, send: map<u16, SendBlock>, max: int)
    requires QueueHolds(h, sendbuf, send, max)
    ensures QueueHolds(h.(sent := h.sent + h.queue, queue := [], moved := h.moved + sendbuf, stale := {}), [], AllIdle(send), max)
  {
    EncodeAllConcat(h.sent, h.queue);
    CountsMoved(send, h.sent, h.queue, h.dropped);
  }

  lemma HasIdInIds(q: seq<Frame>, id: u16)
    ensures HasId(q, id) <==> id in IdsOf(q)
  {
  }

  lemma MarksThrownAway(send: map<u16, SendBlock>, q: seq<Frame>, stale: set<u16>)
    requires MarksMatch(send, q, stale) && forall f | f in q :: f.id in send
    ensures MarksMatch(send, [], stale + IdsOf(q))
  {
    forall id: u16
      ensures HasId(q, id) <==> id in IdsOf(q)
    {
      HasIdInIds(q, id);
    }
  }

  lemma QueueThrownAway(h: History, sendbuf: seq<byte>, send: map<u16, SendBlock>, max: int)
    requires QueueHolds(h, sendbuf, send, max)
    ensures QueueHolds(h.(queue := [], dropped := h.dropped + h.queue, stale := h.stale + IdsOf(h.queue)), [], send, max)
  {
    MarksThrownAway(send, h.queue, h.stale);
    CountsMoved(send, h.sent, h.queue, h.dropped);
  }

  /** The laws look at these parts only. */
  lemma SameLaws(h: History, k: History, sendbuf: seq<byte>, send: map<u16, SendBlock>, other: map<u16, SendBlock>, max: int)
    requires QueueHolds(h, sendbuf, send, max)
    requires k.sent == h.sent && k.queue == h.queue && k.moved == h.moved && k.dropped == h.dropped && k.stale == h.stale
    requires other.Keys == send.Keys
    requires forall id | id in send :: other[id].queued == send[id].queued && other[id].count == send[id].count
    ensures QueueHolds(k, sendbuf, other, max)
  {
  }
}
