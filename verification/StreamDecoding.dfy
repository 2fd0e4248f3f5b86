/** The incremental decoder against the meaning of the byte stream it is fed. */
module StreamDecoding {
  import opened Bytes
  import opened Sequences
  import opened Frames
  import opened Inboxes
  import opened DriverState

  /** Between callbacks: nothing left that could be decoded, and the marks say so. */
  ghost predicate Settled(d: Driver) {
    d.connected ==>
      Receiving(d) && |d.session.input| < d.need && d.session.low == d.need && d.session.high == HighMark(d.need)
  }

  /** An arrival at a connection that may already have been closed. */
  ghost function Feed(d: Driver, bytes: seq<byte>): Driver
    requires d.connected ==> Receiving(d)
  {
    if d.connected then Receive(Arrived(d, bytes)) else d
  }

  lemma {:induction false} ReceiveSettles(d: Driver)
    requires Receiving(d)
    ensures Settled(Receive(d)) && DecoderOk(Receive(d))
    ensures !Receive(d).connected ==> Receive(d).session == NoSession && Receive(d).timer
    decreases Pending(d)
  {
    if |d.session.input| >= d.need && ReceiveStep(d).connected {
      ReceiveSettles(ReceiveStep(d));
    }
  }

  ghost function FeedAll(d: Driver, chunks: seq<seq<byte>>): Driver
    requires Settled(d)
    decreases |chunks|
  {
    if chunks == [] then d
    else
      var t := Feed(d, chunks[0]);
      assert Settled(t) by { if d.connected { ReceiveSettles(Arrived(d, chunks[0])); } }
      FeedAll(t, chunks[1..])
  }

  function Flatten(chunks: seq<seq<byte>>): seq<byte> {
    if chunks == [] then [] else chunks[0] + Flatten(chunks[1..])
  }

  /** A pass of the loop does the same whether or not more bytes are waiting behind. */
  lemma StepWithMore(d: Driver, more: seq<byte>)
    requires Receiving(d) && |d.session.input| >= d.need
    ensures ReceiveStep(Arrived(d, more)) ==
      if ReceiveStep(d).connected then Arrived(ReceiveStep(d), more) else ReceiveStep(d)
  {
    var i, n := d.session.input, if d.haveHead then d.bodylen else HEADER_SIZE;
    assert (i + more)[..n] == i[..n] && (i + more)[n..] == i[n..] + more;
  }

  function WithMarks(d: Driver, low: nat, high: nat): Driver
    requires d.session.Session?
  {
    d.(session := d.session.(low := low, high := high))
  }

  lemma PassIgnoresMarks(d: Driver, low: nat, high: nat)
    requires Receiving(d) && |d.session.input| >= d.need
    ensures var t := ReceiveStep(d); ReceiveStep(WithMarks(d, low, high)) == if t.connected then WithMarks(t, low, high) else t
  {
  }

  lemma {:induction false} MarksDoNotMatter(d: Driver, low: nat, high: nat)
    requires Receiving(d)
    ensures Receive(WithMarks(d, low, high)) == Receive(d)
    decreases Pending(d)
  {
    if |d.session.input| >= d.need {
      PassIgnoresMarks(d, low, high);
      if ReceiveStep(d).connected {
        MarksDoNotMatter(ReceiveStep(d), low, high);
      }
    }
  }

  /** Decoding an arrival right away and decoding the next one later is decoding both at once. */
  lemma {:induction false} ReceiveInTwo(d: Driver, more: seq<byte>)
    requires Receiving(d)
    ensures Receive(d).connected ==> Receiving(Receive(d))
    ensures Feed(Receive(d), more) == Receive(Arrived(d, more))
    decreases Pending(d)
  {
    ReceiveSettles(d);
    if |d.session.input| < d.need {
      var e := SetMarks(d);
      assert Arrived(e, more) == WithMarks(Arrived(d, more), e.session.low, e.session.high);
      MarksDoNotMatter(Arrived(d, more), e.session.low, e.session.high);
    } else {
      StepWithMore(d, more);
      var t := ReceiveStep(d);
      if t.connected {
        ReceiveInTwo(t, more);
      }
    }
  }

  lemma ArrivedTwice(d: Driver, a: seq<byte>, b: seq<byte>)
    ensures Arrived(Arrived(d, a), b) == Arrived(d, a + b)
  {
    if d.session.Session? {
      assert d.session.input + (a + b) == (d.session.input + a) + b;
      assert d.hist.arrived + (a + b) == (d.hist.arrived + a) + b;
    }
  }

  lemma FeedTwice(d: Driver, a: seq<byte>, b: seq<byte>)
    requires Settled(d)
    ensures Settled(Feed(d, a))
    ensures Feed(Feed(d, a), b) == Feed(d, a + b)
  {
    if d.connected {
      ReceiveSettles(Arrived(d, a));
      ReceiveInTwo(Arrived(d, a), b);
      ArrivedTwice(d, a, b);
    }
  }

  lemma FeedNothing(d: Driver)
    requires Settled(d)
    ensures Feed(d, []) == d
  {
    if d.connected {
      assert d.session.input + [] == d.session.input && d.hist.arrived + [] == d.hist.arrived;
    }
  }

  /** Chunk independence: however a byte stream is split into arrivals, the driver ends in the same
      state as when it all arrives at once. */
  lemma {:induction false} ChunkIndependence(d: Driver, chunks: seq<seq<byte>>)
    requires Settled(d)
    ensures FeedAll(d, chunks) == Feed(d, Flatten(chunks))
    decreases |chunks|
  {
    if chunks == [] {
      FeedNothing(d);
    } else {
      FeedTwice(d, chunks[0], Flatten(chunks[1..]));
      ChunkIndependence(Feed(d, chunks[0]), chunks[1..]);
    }
  }

  // The recursive parse.

  /** The state after complete messages `fs`, with `rest` still in the input. */
  function AfterFrames(d: Driver, fs: seq<Frame>, rest: seq<byte>): Driver
    requires d.session.Session?
  {
    d.(session := d.session.(input := rest),
       inbox := DeliverAll(d.inbox, fs),
       header := if fs == [] then d.header else fs[|fs| - 1].id,
       bodylen := if fs == [] then d.bodylen else |fs[|fs| - 1].body|,
       hist := d.hist.(taken := d.hist.taken + |EncodeAll(fs)|,
                       heads := d.hist.heads + |fs|, bodies := d.hist.bodies + |fs|))
  }

  /** The state the parse of a stream calls for. */
  function AfterParse(d: Driver, p: Parsed): Driver
    requires d.session.Session?
  {
    match p.tail
    case AwaitHeader(rest) => SetMarks(AfterFrames(d, p.frames, rest))
    case AwaitBody(id, len, rest) =>
      var t := AfterFrames(d, p.frames, rest);
      SetMarks(HeaderSeen(t.(hist := t.hist.(taken := t.hist.taken + HEADER_SIZE)), id, len))
    case BadHeader(rest) =>
      var t := AfterFrames(d, p.frames, rest);
      StartReconnect(t.(hist := t.hist.(taken := t.hist.taken + HEADER_SIZE)))
  }

  lemma OneMessage(d: Driver)
    requires Receiving(d) && !d.haveHead
    requires var s := d.session.input; |s| >= HEADER_SIZE && Magic(s) && HEADER_SIZE + HeaderLen(s) <= |s|
    ensures var s := d.session.input; var n := HEADER_SIZE + HeaderLen(s);
      var t := AfterFrames(d, [Frame(HeaderId(s), s[HEADER_SIZE..n])], s[n..]);
      Receive(d) == Receive(t) && Receiving(t) && !t.haveHead
  {
    var s := d.session.input;
    var n, f := HEADER_SIZE + HeaderLen(s), Frame(HeaderId(s), s[HEADER_SIZE..HEADER_SIZE + HeaderLen(s)]);
    HeaderPrefix(s);
    var t := TakeHeader(d);
    assert t.session.input[..HeaderLen(s)] == f.body && t.session.input[HeaderLen(s)..] == s[n..];
    EncodeAllOne(f);
    assert DeliverAll(d.inbox, [f]) == Deliver(d.inbox, f);
    assert TakeBody(t) == AfterFrames(d, [f], s[n..]);
    assert Receive(d) == Receive(t) == Receive(TakeBody(t));
  }

  lemma HeaderPrefix(s: seq<byte>)
    requires |s| >= HEADER_SIZE
    ensures var h := s[..HEADER_SIZE]; Magic(h) == Magic(s) && HeaderId(h) == HeaderId(s) && HeaderLen(h) == HeaderLen(s)
  {
    var h := s[..HEADER_SIZE];
    assert h[2..4] == s[2..4] && h[4..8] == s[4..8];
  }

  lemma AfterFramesTwice(d: Driver, f: Frame, fs: seq<Frame>, r: seq<byte>, rest: seq<byte>)
    requires d.session.Session?
    ensures AfterFrames(AfterFrames(d, [f], r), fs, rest) == AfterFrames(d, [f] + fs, rest)
  {
    DeliverConcat(d.inbox, [f], fs);
    EncodeAllConcat([f], fs);
  }

  /** From a message boundary the decoder does exactly what the parse of its input says. */
  lemma {:induction false} ReceiveIsParse(d: Driver)
    requires Receiving(d) && !d.haveHead
    ensures Receive(d) == AfterParse(d, Parse(d.session.input))
    decreases |d.session.input|
  {
    var s := d.session.input;
    if |s| < HEADER_SIZE {
      assert AfterFrames(d, [], s) == d;
    } else {
      HeaderPrefix(s);
      assert AfterFrames(d, [], s) == d;
      if Magic(s) {
        var n := HEADER_SIZE + HeaderLen(s);
        if n <= |s| {
          var f := Frame(HeaderId(s), s[HEADER_SIZE..n]);
          var t := AfterFrames(d, [f], s[n..]);
          OneMessage(d);
          ReceiveIsParse(t);
          OneMoreParsed(s, n);
          var p := Parse(s[n..]);
          AfterParseTwice(d, f, s[n..], p);
        } else {
          LastHeader(d);
        }
      }
    }
  }

  lemma AfterParseTwice(d: Driver, f: Frame, r: seq<byte>, p: Parsed)
    requires d.session.Session?
    ensures AfterParse(AfterFrames(d, [f], r), p) == AfterParse(d, Parsed([f] + p.frames, p.tail))
  {
    match p.tail
    case AwaitHeader(rest) => AfterFramesTwice(d, f, p.frames, r, rest);
    case AwaitBody(_, _, rest) => AfterFramesTwice(d, f, p.frames, r, rest);
    case BadHeader(rest) => AfterFramesTwice(d, f, p.frames, r, rest);
  }

  lemma LastHeader(d: Driver)
    requires Receiving(d) && !d.haveHead
    requires var s := d.session.input; |s| >= HEADER_SIZE && Magic(s) && |s| < HEADER_SIZE + HeaderLen(s)
    ensures Receive(d) == AfterParse(d, Parse(d.session.input))
  {
    var s := d.session.input;
    HeaderPrefix(s);
    assert AfterFrames(d, [], s[HEADER_SIZE..]) == d.(session := d.session.(input := s[HEADER_SIZE..]));
  }

  /** Both together: a fresh connection fed a stream in any pieces ends as its parse says. */
  lemma StreamMeaning(d: Driver, chunks: seq<seq<byte>>)
    requires Settled(d) && d.connected && !d.haveHead && d.session.input == []
    ensures FeedAll(d, chunks) == AfterParse(Arrived(d, Flatten(chunks)), Parse(Flatten(chunks)))
  {
    ChunkIndependence(d, chunks);
    var t := Arrived(d, Flatten(chunks));
    assert t.session.input == Flatten(chunks);
    ReceiveIsParse(t);
  }

  // Progress.

  /** The assertion at the end of the loop body: every pass leaves fewer bytes than it found. */
  ghost predicate EveryPassShrinks(d: Driver)
    requires Receiving(d)
    decreases Pending(d)
  {
    |d.session.input| < d.need ||
    var t := ReceiveStep(d);
    t.connected ==> |t.session.input| < |d.session.input| && EveryPassShrinks(t)
  }

  lemma {:induction false} StallsAtBoundary(d: Driver)
    requires Receiving(d) && !d.haveHead
    ensures EveryPassShrinks(d) <==> forall f | f in Parse(d.session.input).frames :: f.body != []
    decreases |d.session.input|
  {
    var s := d.session.input;
    if |s| >= HEADER_SIZE {
      HeaderPrefix(s);
      if Magic(s) {
        var n, t := HEADER_SIZE + HeaderLen(s), TakeHeader(d);
        if n <= |s| {
          OneMoreParsed(s, n);
          assert TakeBody(t).session.input == s[n..];
          StallsAtBoundary(TakeBody(t));
        }
      }
    }
  }

  /** That assertion fails exactly when a message with an empty body is completed, also in a callback that
      starts in the middle of a message. */
  lemma EmptyBodiesStall(d: Driver)
    requires Receiving(d)
    ensures EveryPassShrinks(d) <==>
      forall f | f in Parse(PendingHeader(d) + d.session.input).frames :: f.body != []
  {
    var i := d.session.input;
    if !d.haveHead {
      assert [] + i == i;
      StallsAtBoundary(d);
    } else {
      HeaderMeaning(d.header, d.bodylen, i);
      if |i| >= d.bodylen {
        BodyParsed(d, i);
        StallsAtBoundary(TakeBody(d));
      }
    }
  }

  lemma BodyParsed(d: Driver, i: seq<byte>)
    requires d.bodylen <= |i|
    ensures var f, p := Frame(d.header, i[..d.bodylen]), Parse(i[d.bodylen..]);
      Parse(Header(d.header, d.bodylen) + i) == Parsed([f] + p.frames, p.tail)
  {
    var f, rest := Frame(d.header, i[..d.bodylen]), i[d.bodylen..];
    assert Header(d.header, d.bodylen) + i == Encode(f) + rest by {
      HeaderBodyRest(d.header, d.bodylen, i);
    }
    ParseOne(f, rest);
  }

  lemma HeaderBodyRest(id: u16, len: u32, i: seq<byte>)
    requires len <= |i|
    ensures Header(id, len) + i == Encode(Frame(id, i[..len])) + i[len..]
  {
    Regroup(Header(id, len), i[..len], i[len..]);
    assert i == i[..len] + i[len..];
  }

  /** One message with an empty body is enough: its header goes in one pass, nothing in the next. */
  lemma OneEmptyBodyStalls(d: Driver, id: u16)
    requires Receiving(d) && !d.haveHead && d.session.input == Encode(Frame(id, []))
    ensures !EveryPassShrinks(d)
  {
    EmptyBodiesStall(d);
    var f := Frame(id, []);
    ParseAll([f]);
    EncodeAllOne(f);
    assert PendingHeader(d) + d.session.input == EncodeAll([f]) && f in [f];
  }
}
