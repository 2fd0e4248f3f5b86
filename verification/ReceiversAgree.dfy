/** The stream and the datagram driver, fed the same messages. */
module ReceiversAgree {
  import opened Frames
  import opened Inboxes
  import opened DriverState
  import opened StreamDecoding
  import opened Datagrams
  import opened EndToEnd

  /** Messages that come as packets, spread over callbacks in any way and with packets of others in
      between, leave the same blocks, counts and deliveries as the stream of them in any pieces. */
  lemma UdpAgreesWithTcp(r: Receiver, ws: seq<Wakeup>, xs: seq<Arrival>, d: Driver, chunks: seq<seq<Bytes.byte>>)
    requires PacketsOf(ws) == PacketsFor(xs)
    requires forall f | f in MessagesOf(xs) :: |Encode(f)| <= |r.scratch|
    requires Fresh(d) && d.inbox == r.inbox
    requires Flatten(chunks) == EncodeAll(MessagesOf(xs))
    ensures WokenAll(r, ws).inbox == FeedAll(d, chunks).inbox == DeliverAll(r.inbox, MessagesOf(xs))
  {
    WakeupsDoNotMatter(r, ws);
    WholeMessages(r, xs);
    StreamMeaning(d, chunks);
    ParseAll(MessagesOf(xs));
  }
}
