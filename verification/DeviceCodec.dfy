/** The device's side of the protocol: blocking send and receive loops over a socket whose every call
    may move fewer bytes than asked for, or fail. */
module DeviceCodec {
  import opened Bytes
  import opened Sequences
  import opened Frames

  const ENOTCONN := 107
  const EIO := 5
  const SKIP_SIZE := 128

  /** A socket as a value. `script` decides the coming calls: a positive entry moves at most that many
      bytes, zero reports a closed connection, a negative one fails with that error number. With
      nothing left to read, or no entry left, the connection is closed. `failures` counts the calls
      that moved nothing. */
  datatype Sock = Sock(incoming: seq<byte>, outgoing: seq<byte>, script: seq<int>, failures: nat)

  function Min(a: int, b: int): int {
    if a < b then a else b
  }

  function Next(s: Sock): int {
    if s.script == [] then 0 else s.script[0]
  }

  function Rest(s: Sock): seq<int> {
    if s.script == [] then [] else s.script[1..]
  }

  /** How many bytes a call moves out of `available`. */
  function Moved(s: Sock, available: nat): nat {
    if Next(s) <= 0 then 0 else Min(Next(s), available)
  }

  /** The error a call that moved nothing is reported as. */
  function ErrorOf(s: Sock): (e: int)
    ensures e > 0
  {
    if Next(s) < 0 then -Next(s) else ENOTCONN
  }

  function Failing(s: Sock): Sock {
    s.(script := Rest(s), failures := s.failures + 1)
  }

  // Sending.

  datatype SendOut = SendOut(sock: Sock, err: int)

  function SendAll(s: Sock, buf: seq<byte>): SendOut
    decreases |buf|
  {
    if buf == [] then SendOut(s, 0)
    else
      var k := Moved(s, |buf|);
      if k == 0 then SendOut(Failing(s), ErrorOf(s))
      else SendAll(s.(script := Rest(s), outgoing := s.outgoing + buf[..k]), buf[k..])
  }

  function SendHead(s: Sock, id: u16, len: u32): SendOut {
    SendAll(s, Header(id, len))
  }

  function SendMsg(s: Sock, id: u16, buf: Body): SendOut {
    var h := SendHead(s, id, |buf|);
    if h.err != 0 then h else SendAll(h.sock, buf)
  }

  /** The length field of a single-register message: four more than its body, in 32 bits. */
  function SingleLen(buf: Body): u32 {
    (|buf| + 4) % 0x1_0000_0000
  }

  function SendMsgSingle(s: Sock, id: u16, regid: u32, buf: Body): SendOut {
    var h := SendHead(s, id, SingleLen(buf));
    if h.err != 0 then h
    else
      var r := SendAll(h.sock, ToBE(regid, 4));
      if r.err != 0 then r else SendAll(r.sock, buf)
  }

  // Receiving.

  datatype RecvOut = RecvOut(sock: Sock, err: int, got: seq<byte>)

  /** Receives `n` bytes, or an error and what came before it. */
  function RecvAll(s: Sock, n: nat): (o: RecvOut)
    ensures |o.got| <= n
    decreases n
  {
    if n == 0 then RecvOut(s, 0, [])
    else
      var k := Moved(s, Min(n, |s.incoming|));
      if k == 0 then RecvOut(Failing(s), ErrorOf(s), [])
      else
        var o := RecvAll(s.(script := Rest(s), incoming := s.incoming[k..]), n - k);
        o.(got := s.incoming[..k] + o.got)
  }

  /** A call that stays inside its arrays, or one that runs past the end of one: then nothing that
      follows is defined. */
  datatype Bounded<T> = InBounds(out: T) | Overrun

  datatype Request = Request(sock: Sock, size: nat)

  /** Skipping receives pieces of the size of its array. When a piece fails the loop ends, and what
      was left before that piece is asked for at once. */
  function LastRequest(s: Sock, n: nat): Request
    decreases n
  {
    if n > SKIP_SIZE then
      var o := RecvAll(s, SKIP_SIZE);
      if o.err == 0 then LastRequest(o.sock, n - SKIP_SIZE) else Request(o.sock, n)
    else Request(s, n)
  }

  function LastPiece(s: Sock, n: nat): RecvOut {
    var r := LastRequest(s, n);
    RecvAll(r.sock, r.size)
  }

  /** Receives and throws away, through an array of `SKIP_SIZE` bytes. */
  function RecvSkip(s: Sock, n: nat): Bounded<SendOut> {
    var l := LastPiece(s, n);
    if |l.got| > SKIP_SIZE then Overrun else InBounds(SendOut(l.sock, l.err))
  }

  datatype HeadOut = HeadOut(sock: Sock, err: int, id: u16, len: u32)

  function RecvHead(s: Sock, id: u16, len: u32): HeadOut {
    var o := RecvAll(s, HEADER_SIZE);
    RecvAllMeaning(s, HEADER_SIZE);
    if o.err != 0 then HeadOut(o.sock, o.err, id, len)
    else if !Magic(o.got) then HeadOut(o.sock, EIO, id, len)
    else HeadOut(o.sock, 0, HeaderId(o.got), HeaderLen(o.got))
  }

  /** `id` and `len` are what the out-parameters held before; `body` is what was written to the buffer. */
  datatype MsgOut = MsgOut(sock: Sock, err: int, id: u16, len: u32, body: seq<byte>)

  /** The body of a message of `len` bytes, of which `rlen` are kept and the rest skipped. */
  function RecvBody(s: Sock, len: u32, rlen: nat): Bounded<RecvOut>
    requires rlen <= len
  {
    var b := RecvAll(s, rlen);
    if b.err != 0 || rlen == len then InBounds(b)
    else
      var k := RecvSkip(b.sock, len - rlen);
      if k.Overrun? then Overrun else InBounds(RecvOut(k.out.sock, k.out.err, b.got))
  }

  /** A failing header or kept body leaves the out-parameters alone; a failing skip does not. */
  function RecvMsg(s: Sock, id: u16, maxlen: u32): Bounded<MsgOut> {
    var h := RecvHead(s, 0, 0);
    if h.err != 0 then InBounds(MsgOut(h.sock, h.err, id, maxlen, []))
    else
      var rlen := Min(h.len, maxlen);
      var b := RecvBody(h.sock, h.len, rlen);
      if b.Overrun? then Overrun
      else if |b.out.got| < rlen then InBounds(MsgOut(b.out.sock, b.out.err, id, maxlen, b.out.got))
      else InBounds(MsgOut(b.out.sock, b.out.err, h.id, rlen, b.out.got))
  }

  // What the loops achieve.

  /** A complete send puts exactly the buffer on the wire; a failed one a proper part of it. */
  lemma {:induction false} SendAllMeaning(s: Sock, buf: seq<byte>)
    ensures var o := SendAll(s, buf);
      && (o.err == 0 ==> o.sock.outgoing == s.outgoing + buf && o.sock.failures == s.failures)
      && (o.err != 0 ==> exists k :: 0 <= k < |buf| && o.sock.outgoing == s.outgoing + buf[..k])
      && o.err >= 0 && o.sock.incoming == s.incoming
    decreases |buf|
  {
    if buf == [] {
      assert s.outgoing + buf == s.outgoing;
    } else {
      var k := Moved(s, |buf|);
      if k == 0 {
        assert s.outgoing + buf[..0] == s.outgoing;
      } else {
        var t := s.(script := Rest(s), outgoing := s.outgoing + buf[..k]);
        SendAllMeaning(t, buf[k..]);
        Regroup(s.outgoing, buf[..k], buf[k..]);
        assert buf == buf[..k] + buf[k..];
        if SendAll(t, buf[k..]).err != 0 {
          var j :| 0 <= j < |buf[k..]| && SendAll(t, buf[k..]).sock.outgoing == t.outgoing + buf[k..][..j];
          Regroup(s.outgoing, buf[..k], buf[k..][..j]);
          assert buf[..k + j] == buf[..k] + buf[k..][..j];
        }
      }
    }
  }

  lemma {:induction false} RecvAllTakes(s: Sock, n: nat)
    ensures var o := RecvAll(s, n); s.incoming == o.got + o.sock.incoming && o.sock.outgoing == s.outgoing
    decreases n
  {
    if n > 0 {
      var k := Moved(s, Min(n, |s.incoming|));
      if k > 0 {
        var t := s.(script := Rest(s), incoming := s.incoming[k..]);
        RecvAllTakes(t, n - k);
        Regroup(s.incoming[..k], RecvAll(t, n - k).got, RecvAll(t, n - k).sock.incoming);
        TakeDrop(s.incoming, k);
      }
    }
  }

  lemma {:induction false} RecvAllCounts(s: Sock, n: nat)
    ensures var o := RecvAll(s, n);
      && (o.err == 0 <==> |o.got| == n)
      && (o.err == 0 <==> o.sock.failures == s.failures)
      && o.err >= 0 && o.sock.failures >= s.failures
    decreases n
  {
    if n > 0 {
      var k := Moved(s, Min(n, |s.incoming|));
      if k > 0 {
        RecvAllCounts(s.(script := Rest(s), incoming := s.incoming[k..]), n - k);
      }
    }
  }

  /** A complete receive takes exactly the next `n` bytes, no call failing; a failed one takes fewer. */
  lemma RecvAllMeaning(s: Sock, n: nat)
    ensures var o := RecvAll(s, n);
      && s.incoming == o.got + o.sock.incoming
      && o.sock.outgoing == s.outgoing
      && (o.err == 0 <==> |o.got| == n)
      && (o.err == 0 <==> o.sock.failures == s.failures)
      && o.err >= 0 && o.sock.failures >= s.failures
  {
    RecvAllTakes(s, n);
    RecvAllCounts(s, n);
  }

  /** The error reported is that of the first call that moved nothing: its own, or 107 for a connection
      that is closed. */
  predicate Reported(s: Sock, k: nat, err: int, after: seq<int>) {
    && k <= |s.script| && (forall i | 0 <= i < k :: s.script[i] > 0)
    && after == (if k < |s.script| then s.script[k + 1..] else [])
    && err == if k < |s.script| && s.script[k] < 0 then -s.script[k] else 107
  }

  lemma {:induction false} SendAllError(s: Sock, buf: seq<byte>) returns (k: nat)
    requires SendAll(s, buf).err != 0
    ensures Reported(s, k, SendAll(s, buf).err, SendAll(s, buf).sock.script)
    decreases |buf|
  {
    k := 0;
    var n := Moved(s, |buf|);
    if n > 0 {
      var j := SendAllError(s.(script := Rest(s), outgoing := s.outgoing + buf[..n]), buf[n..]);
      k := j + 1;
    }
  }

  lemma {:induction false} RecvAllError(s: Sock, n: nat) returns (k: nat)
    requires RecvAll(s, n).err != 0
    ensures Reported(s, k, RecvAll(s, n).err, RecvAll(s, n).sock.script)
    ensures k < |s.script| && s.script[k] > 0 ==> RecvAll(s, n).sock.incoming == []
    decreases n
  {
    k := 0;
    var m := Moved(s, Min(n, |s.incoming|));
    if m > 0 {
      var j := RecvAllError(s.(script := Rest(s), incoming := s.incoming[m..]), n - m);
      k := j + 1;
    }
  }

  /** A receive of one whole piece of a skip fails. */
  predicate PieceFails(s: Sock, n: nat)
    decreases n
  {
    n > SKIP_SIZE &&
    var o := RecvAll(s, SKIP_SIZE);
    o.err != 0 || PieceFails(o.sock, n - SKIP_SIZE)
  }

  /** The last receive asks for more than the array holds exactly when a piece failed; otherwise it
      asks for what is left, no call having failed. */
  lemma {:induction false} LastRequestMeaning(s: Sock, n: nat)
    ensures var r := LastRequest(s, n);
      && (r.size > 128 <==> PieceFails(s, n))
      && (PieceFails(s, n) <==> r.sock.failures > s.failures) && r.sock.failures >= s.failures
      && r.sock.outgoing == s.outgoing && r.size <= n
      && (!PieceFails(s, n) ==> n - r.size <= |s.incoming| && r.sock.incoming == s.incoming[n - r.size..])
    decreases n
  {
    if n > SKIP_SIZE {
      RecvAllMeaning(s, SKIP_SIZE);
      var o := RecvAll(s, SKIP_SIZE);
      if o.err == 0 {
        LastRequestMeaning(o.sock, n - SKIP_SIZE);
      }
    }
  }

  /** A skip runs past its array exactly when a piece fails and more than the array holds arrives after
      all. One that stays inside reports success exactly when no call failed, and has then taken
      exactly its bytes. */
  lemma RecvSkipMeaning(s: Sock, n: nat)
    ensures var o := RecvSkip(s, n);
      && (o.Overrun? <==> PieceFails(s, n) && |LastPiece(s, n).got| > 128)
      && (o.InBounds? ==> o.out.sock.outgoing == s.outgoing && o.out.err >= 0)
      && (o.InBounds? ==> (o.out.err == 0 <==> o.out.sock.failures == s.failures) && o.out.sock.failures >= s.failures)
      && (o.InBounds? && o.out.err == 0 ==> n <= |s.incoming| && o.out.sock.incoming == s.incoming[n..])
  {
    LastRequestMeaning(s, n);
    var r := LastRequest(s, n);
    RecvAllMeaning(r.sock, r.size);
  }

  /** Success after a failing piece is therefore always an overrun: the last receive gets all of what it
      asks for, and that is more than the array holds. */
  lemma SuccessAfterFailure(s: Sock, n: nat)
    requires PieceFails(s, n) && LastPiece(s, n).err == 0
    ensures RecvSkip(s, n).Overrun?
  {
    LastRequestMeaning(s, n);
    var r := LastRequest(s, n);
    RecvAllMeaning(r.sock, r.size);
  }

  /** The example of a piece that is interrupted half way: the last receive gets 200 bytes for an array
      of 128. */
  lemma SkipCanOverrun()
    ensures exists s: Sock :: PieceFails(s, 200) && RecvSkip(s, 200).Overrun? && |LastPiece(s, 200).got| == 200
  {
    var bytes: seq<byte> := seq(300, _ => 0);
    var s, t := Sock(bytes, [], [64, -4, 300], 0), Sock(bytes[64..], [], [-4, 300], 0);
    var u, v := Sock(bytes[64..], [], [300], 1), Sock(bytes[64..][200..], [], [], 1);
    assert Rest(s) == [-4, 300] && Rest(t) == [300] && Rest(u) == [];
    assert RecvAll(t, 64) == RecvOut(u, 4, []);
    assert RecvAll(s, SKIP_SIZE).sock == u && RecvAll(s, SKIP_SIZE).err == 4;
    assert RecvAll(v, 0) == RecvOut(v, 0, []);
    var k := Moved(u, Min(200, |u.incoming|));
    assert k == 200 && RecvAll(u, 200).got == u.incoming[..200] + RecvAll(v, 0).got;
    assert LastRequest(s, 200) == Request(u, 200) && PieceFails(s, 200);
    assert LastPiece(s, 200) == RecvAll(u, 200);
  }

  // Whole messages.

  /** A message sent without error is on the wire as its encoding. */
  lemma SendMsgMeaning(s: Sock, id: u16, buf: Body)
    ensures var o := SendMsg(s, id, buf);
      && (o.err == 0 ==> o.sock.outgoing == s.outgoing + Encode(Frame(id, buf)))
      && (o.err != 0 ==>
            exists k :: 0 <= k < |Encode(Frame(id, buf))| && o.sock.outgoing == s.outgoing + Encode(Frame(id, buf))[..k])
  {
    var h := SendHead(s, id, |buf|);
    var hb, e := Header(id, |buf|), Encode(Frame(id, buf));
    SendAllMeaning(s, hb);
    if h.err == 0 {
      SendAllMeaning(h.sock, buf);
      Regroup(s.outgoing, hb, buf);
      var o := SendAll(h.sock, buf);
      if o.err != 0 {
        var k :| 0 <= k < |buf| && o.sock.outgoing == h.sock.outgoing + buf[..k];
        Regroup(s.outgoing, hb, buf[..k]);
        assert e[..|hb| + k] == hb + buf[..k];
      }
    } else {
      var k :| 0 <= k < |hb| && h.sock.outgoing == s.outgoing + hb[..k];
      assert e[..k] == hb[..k];
    }
  }

  /** A single-register message is the message with the register's address in front of its body,
      unless the four extra bytes overflow the length field: then the header does not match. */
  lemma SendMsgSingleMeaning(s: Sock, id: u16, regid: u32, buf: Body)
    requires SendMsgSingle(s, id, regid, buf).err == 0
    ensures var sent := Header(id, SingleLen(buf)) + (ToBE(regid, 4) + buf);
      && SendMsgSingle(s, id, regid, buf).sock.outgoing == s.outgoing + sent
      && (|buf| + 4 < 0x1_0000_0000 <==> SingleLen(buf) == |ToBE(regid, 4) + buf|)
      && (|buf| + 4 < 0x1_0000_0000 ==> sent == Encode(Frame(id, ToBE(regid, 4) + buf)))
  {
    var hb, rb := Header(id, SingleLen(buf)), ToBE(regid, 4);
    var h := SendHead(s, id, SingleLen(buf));
    SendAllMeaning(s, hb);
    SendAllMeaning(h.sock, rb);
    SendAllMeaning(SendAll(h.sock, rb).sock, buf);
    Regroup(s.outgoing, hb, rb);
    Regroup(s.outgoing, hb + rb, buf);
    Regroup(hb, rb, buf);
  }

  function Truncated(body: Body, max: u32): seq<byte> {
    body[..Min(|body|, max)]
  }

  lemma RecvHeadMeaning(s: Sock)
    requires RecvHead(s, 0, 0).err == 0
    ensures var h := RecvHead(s, 0, 0);
      s.incoming == Header(h.id, h.len) + h.sock.incoming && h.sock.failures == s.failures
  {
    RecvAllMeaning(s, HEADER_SIZE);
    var hb := RecvAll(s, HEADER_SIZE).got;
    HeaderFromBytes(hb);
    assert hb + [] == hb && hb[HEADER_SIZE..] == [];
  }

  lemma RecvBodyMeaning(s: Sock, len: u32, rlen: nat)
    requires rlen <= len && RecvBody(s, len, rlen).InBounds?
    ensures var b := RecvBody(s, len, rlen).out;
      && b.sock.failures >= s.failures && b.sock.outgoing == s.outgoing && |b.got| <= rlen
      && (b.err == 0 <==> b.sock.failures == s.failures)
      && (b.err == 0 ==> len <= |s.incoming| && b.sock.incoming == s.incoming[len..] && b.got == s.incoming[..rlen])
  {
    RecvAllMeaning(s, rlen);
    RecvSkipMeaning(RecvAll(s, rlen).sock, len - rlen);
  }

  /** A receive that stays inside its arrays and reports success has had no failing call, has taken
      exactly one message off the stream, and yields its id and as much of its body as the buffer holds. */
  lemma RecvMsgMeaning(s: Sock, id: u16, max: u32) returns (f: Frame)
    requires RecvMsg(s, id, max).InBounds? && RecvMsg(s, id, max).out.err == 0
    ensures var o := RecvMsg(s, id, max).out;
      && s.incoming == Encode(f) + o.sock.incoming && o.sock.failures == s.failures
      && o.id == f.id && o.len == |o.body| && o.body == Truncated(f.body, max)
  {
    var h := RecvHead(s, 0, 0);
    RecvHeadMeaning(s);
    RecvBodyMeaning(h.sock, h.len, Min(h.len, max));
    f := BodyFrame(h, RecvMsg(s, id, max).out.sock.incoming);
  }

  lemma BodyFrame(h: HeadOut, rest: seq<byte>) returns (f: Frame)
    requires h.len <= |h.sock.incoming| && rest == h.sock.incoming[h.len..]
    ensures f == Frame(h.id, h.sock.incoming[..h.len])
    ensures Header(h.id, h.len) + h.sock.incoming == Encode(f) + rest
  {
    f := Frame(h.id, h.sock.incoming[..h.len]);
    Regroup(Header(h.id, h.len), f.body, rest);
    assert h.sock.incoming == f.body + rest;
  }

  /** Bytes that are no header are taken and reported. */
  lemma BadMagic(s: Sock, id: u16, max: u32)
    requires |s.incoming| >= HEADER_SIZE && !Magic(s.incoming[..HEADER_SIZE])
    requires RecvAll(s, HEADER_SIZE).err == 0
    ensures RecvMsg(s, id, max) == InBounds(MsgOut(RecvAll(s, HEADER_SIZE).sock, 5, id, max, []))
    ensures RecvAll(s, HEADER_SIZE).sock.incoming == s.incoming[HEADER_SIZE..]
  {
    RecvAllMeaning(s, HEADER_SIZE);
  }

  // The out-parameters.

  lemma {:induction false} LastRequestTakes(s: Sock, n: nat) returns (x: seq<byte>)
    ensures s.incoming == x + LastRequest(s, n).sock.incoming
    decreases n
  {
    x := [];
    if n > SKIP_SIZE {
      RecvAllTakes(s, SKIP_SIZE);
      var o := RecvAll(s, SKIP_SIZE);
      x := o.got;
      if o.err == 0 {
        var y := LastRequestTakes(o.sock, n - SKIP_SIZE);
        Regroup(o.got, y, LastRequest(o.sock, n - SKIP_SIZE).sock.incoming);
        x := o.got + y;
      }
    }
  }

  lemma RecvSkipTakes(s: Sock, n: nat) returns (x: seq<byte>)
    requires RecvSkip(s, n).InBounds?
    ensures s.incoming == x + RecvSkip(s, n).out.sock.incoming
  {
    var r := LastRequest(s, n);
    var y := LastRequestTakes(s, n);
    RecvAllTakes(r.sock, r.size);
    x := y + RecvAll(r.sock, r.size).got;
    Regroup(y, RecvAll(r.sock, r.size).got, RecvAll(r.sock, r.size).sock.incoming);
  }

  /** What a receive leaves in its out-parameters and its buffer, by the bytes it has taken: nothing before
      a good header and all of the body that fits; id and kept length from there on, also when the rest of
      the body then fails to come. */
  predicate Filled(o: MsgOut, taken: seq<byte>, id: u16, max: u32) {
    if |taken| < 8 || taken[0] != 80 || taken[1] != 83 then o.id == id && o.len == max && o.body == []
    else
      var len := FromBE(taken[4..8]);
      var kept := if len < max then len else max;
      if |taken| < 8 + kept then o.id == id && o.len == max && o.body == taken[8..]
      else o.id == FromBE(taken[2..4]) && o.len == kept && o.body == taken[8..8 + kept]
  }

  /** And of a header: both, or neither. */
  lemma HeadParameters(s: Sock, id: u16, len: u32)
    ensures var o := RecvHead(s, id, len);
      && (o.err != 0 ==> o.id == id && o.len == len)
      && (o.err == 0 ==> |s.incoming| >= 8 && s.incoming[0] == 80 && s.incoming[1] == 83)
      && (o.err == 0 ==>
            o.id == FromBE(s.incoming[2..4]) && o.len == FromBE(s.incoming[4..8]) && o.sock.incoming == s.incoming[8..])
  {
    RecvAllMeaning(s, HEADER_SIZE);
    var got, rest := RecvAll(s, HEADER_SIZE).got, RecvAll(s, HEADER_SIZE).sock.incoming;
    if RecvHead(s, id, len).err == 0 {
      assert (got + rest)[2..4] == got[2..4] && (got + rest)[4..8] == got[4..8] && (got + rest)[8..] == rest;
    }
  }

  lemma BodyTaken(s: Sock, len: u32, rlen: nat) returns (x: seq<byte>)
    requires rlen <= len && RecvBody(s, len, rlen).InBounds?
    ensures var b := RecvBody(s, len, rlen).out;
      && s.incoming == x + b.sock.incoming && |b.got| <= rlen
      && if |b.got| < rlen then x == b.got else rlen <= |x| && b.got == x[..rlen]
  {
    RecvAllMeaning(s, rlen);
    var b := RecvAll(s, rlen);
    x := b.got;
    if b.err == 0 && rlen < len {
      var y := RecvSkipTakes(b.sock, len - rlen);
      x := b.got + y;
      Regroup(b.got, y, RecvSkip(b.sock, len - rlen).out.sock.incoming);
    }
  }

  lemma FilledAfterHeader(hb: seq<byte>, x: seq<byte>, o: MsgOut, id: u16, max: u32)
    requires |hb| == HEADER_SIZE && Magic(hb)
    requires var rlen := Min(HeaderLen(hb), max);
      && |o.body| <= rlen
      && if |o.body| < rlen then x == o.body && o.id == id && o.len == max
         else rlen <= |x| && o.body == x[..rlen] && o.id == HeaderId(hb) && o.len == rlen
    ensures Filled(o, hb + x, id, max)
  {
    var taken := hb + x;
    assert taken[4..8] == hb[4..8] && taken[2..4] == hb[2..4] && taken[8..] == x;
    var rlen := Min(HeaderLen(hb), max);
    if rlen <= |x| {
      assert taken[8..8 + rlen] == x[..rlen];
    }
  }

  lemma OutParameters(s: Sock, id: u16, max: u32) returns (taken: seq<byte>)
    requires RecvMsg(s, id, max).InBounds?
    ensures var o := RecvMsg(s, id, max).out; s.incoming == taken + o.sock.incoming && Filled(o, taken, id, max)
  {
    RecvAllMeaning(s, HEADER_SIZE);
    var h, hb := RecvHead(s, 0, 0), RecvAll(s, HEADER_SIZE).got;
    taken := hb;
    if h.err == 0 {
      var x := BodyTaken(h.sock, h.len, Min(h.len, max));
      taken := hb + x;
      Regroup(hb, x, RecvMsg(s, id, max).out.sock.incoming);
      FilledAfterHeader(hb, x, RecvMsg(s, id, max).out, id, max);
    }
  }
}
