/** The two codecs, written independently, against each other. */
module EndToEnd {
  import opened Bytes
  import opened Frames
  import opened Inboxes
  import opened DriverState
  import opened StreamDecoding
  import opened DriverRuns
  import opened Requests
  import DeviceCodec
  import opened DeviceRuns

  // From the device to the driver.

  /** A connection on which nothing has come in yet. */
  ghost predicate Fresh(d: Driver) {
    Settled(d) && d.connected && !d.haveHead && d.session.input == []
  }

  /** What is left after whole messages when the sender stopped inside `f`. */
  function PartOf(part: seq<byte>, f: Frame): Tail
    requires part < Encode(f)
  {
    if |part| < HEADER_SIZE then AwaitHeader(part) else AwaitBody(f.id, |f.body|, part[HEADER_SIZE..])
  }

  lemma ParsePart(part: seq<byte>, f: Frame)
    requires part < Encode(f)
    ensures Parse(part) == Parsed([], PartOf(part, f))
  {
    if |part| >= HEADER_SIZE {
      var rest := part[HEADER_SIZE..];
      assert part == Header(f.id, |f.body|) + rest;
      HeaderMeaning(f.id, |f.body|, rest);
    }
  }

  lemma ParseFramesAndPart(fs: seq<Frame>, part: seq<byte>, f: Frame)
    requires part < Encode(f)
    ensures Parse(EncodeAll(fs) + part) == Parsed(fs, PartOf(part, f))
  {
    ParsePart(part, f);
    ParseEncoded(fs, part);
    assert fs + [] == fs;
  }

  /** What the driver has made of `part`: a header, once complete, has been counted. */
  function SeePart(b: Inbox, part: seq<byte>, f: Frame): Inbox {
    if |part| < HEADER_SIZE then b else SeeHeader(b, f.id)
  }

  lemma WholeMessagesArrive(fs: seq<Frame>, d: Driver, chunks: seq<seq<byte>>)
    requires Fresh(d) && Flatten(chunks) == EncodeAll(fs)
    ensures var t := FeedAll(d, chunks);
      t.connected && t.session.Session? && t.inbox == DeliverAll(d.inbox, fs) && !t.haveHead && t.session.input == []
  {
    StreamMeaning(d, chunks);
    ParseAll(fs);
  }

  lemma PartArrives(fs: seq<Frame>, part: seq<byte>, f: Frame, d: Driver, chunks: seq<seq<byte>>)
    requires Fresh(d) && part < Encode(f) && Flatten(chunks) == EncodeAll(fs) + part
    ensures var t := FeedAll(d, chunks);
      t.connected && t.session.Session? && t.inbox == SeePart(DeliverAll(d.inbox, fs), part, f)
  {
    StreamMeaning(d, chunks);
    ParseFramesAndPart(fs, part, f);
  }

  /** Messages the device sends, with any partial sends, reach the driver in any pieces: it delivers
      exactly those that were sent whole, in order, and stays connected. A last one cut short by a
      failing send is at most counted. */
  lemma DeviceToDriver(s: DeviceCodec.Sock, fs: seq<Frame>, d: Driver, chunks: seq<seq<byte>>)
    requires s.outgoing == [] && Fresh(d)
    requires Flatten(chunks) == SendMany(s, fs).sock.outgoing
    ensures var o, t := SendMany(s, fs), FeedAll(d, chunks);
      && t.connected && t.session.Session?
      && (o.err == 0 ==> t.inbox == DeliverAll(d.inbox, fs) && !t.haveHead && t.session.input == [])
      && (o.err != 0 ==> exists part | part < Encode(fs[o.sent]) ::
            t.inbox == SeePart(DeliverAll(d.inbox, fs[..o.sent]), part, fs[o.sent]))
  {
    var o := SendMany(s, fs);
    var part := SendManyMeaning(s, fs);
    assert Flatten(chunks) == EncodeAll(fs[..o.sent]) + part;
    if o.err == 0 {
      assert fs[..o.sent] == fs && Flatten(chunks) == EncodeAll(fs);
      WholeMessagesArrive(fs, d, chunks);
    } else {
      PartArrives(fs[..o.sent], part, fs[o.sent], d, chunks);
    }
  }

  // From the driver to the device.

  /** The messages asked for, taken and flushed to the current connection. */
  ghost function OnThisConnection(how: Setup, es: seq<Event>, max: int): seq<Frame>
    requires EnabledRun(StartUp(how), es, max)
  {
    RequestsOf(how, es, max).current
  }

  /** After any run of the driver, a device reading the connection with buffers of any sizes and any
      partial reads, each call reporting success, gets the messages asked for one by one, in order. */
  lemma DriverToDevice(how: Setup, es: seq<Event>, max: int, s: DeviceCodec.Sock, sizes: seq<u32>)
    requires EnabledRun(StartUp(how), es, max)
    requires var d := RunFromStart(how, es, max); d.session.Session? && s.incoming == d.hist.wire
    requires Succeed(s, sizes)
    ensures |sizes| <= |OnThisConnection(how, es, max)|
    ensures forall i | 0 <= i < |sizes| :: Correct(RecvMany(s, sizes)[i], OnThisConnection(how, es, max)[i], sizes[i])
  {
    SentAsAsked(how, es, max);
    TruncationKeepsSync(s, sizes, RunFromStart(how, es, max).session.output, OnThisConnection(how, es, max));
  }

  predicate Exact(o: DeviceCodec.MsgOut, f: Frame) {
    o.err == 0 && o.id == f.id && o.body == f.body
  }

  lemma ReadWhole(s: DeviceCodec.Sock, sizes: seq<u32>, fs: seq<Frame>)
    requires Patient(s) && s.incoming == EncodeAll(fs)
    requires |sizes| == |fs| && forall i | 0 <= i < |sizes| :: |fs[i].body| <= sizes[i]
    ensures Succeed(s, sizes) && Final(s, sizes).incoming == []
    ensures forall i | 0 <= i < |sizes| :: Exact(RecvMany(s, sizes)[i], fs[i])
  {
    assert s.incoming + [] == s.incoming == EncodeAll(fs) + [];
    PartialReadsSuffice(s, sizes, fs, []);
    TruncationKeepsSync(s, sizes, [], fs);
    assert fs[..|sizes|] == fs;
    forall i | 0 <= i < |sizes|
      ensures Exact(RecvMany(s, sizes)[i], fs[i])
    {
      assert Correct(RecvMany(s, sizes)[i], fs[i], sizes[i]);
      assert fs[i].body[..|fs[i].body|] == fs[i].body;
    }
  }

  /** And once everything flushed is on the wire, the device can read all of it: whole, when the
      buffers are large enough. */
  lemma EverythingArrives(how: Setup, es: seq<Event>, max: int, s: DeviceCodec.Sock, sizes: seq<u32>)
    requires EnabledRun(StartUp(how), es, max)
    requires var d := RunFromStart(how, es, max);
      d.session.Session? && d.session.output == [] && s.incoming == d.hist.wire
    requires Patient(s) && |sizes| == |OnThisConnection(how, es, max)|
    requires forall i | 0 <= i < |sizes| :: |OnThisConnection(how, es, max)[i].body| <= sizes[i]
    ensures Succeed(s, sizes) && Final(s, sizes).incoming == []
    ensures forall i | 0 <= i < |sizes| :: Exact(RecvMany(s, sizes)[i], OnThisConnection(how, es, max)[i])
  {
    var d := RunFromStart(how, es, max);
    SentAsAsked(how, es, max);
    assert d.hist.wire + [] == d.hist.wire;
    ReadWhole(s, sizes, OnThisConnection(how, es, max));
  }
}
