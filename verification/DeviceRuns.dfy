/** Many messages in a row through the device's codec. */
module DeviceRuns {
  import opened Bytes
  import opened Sequences
  import opened Frames
  import opened DeviceCodec

  // Receiving.

  /** Consecutive calls, for buffers of the given sizes, all stay inside their arrays and report success. */
  predicate Succeed(s: Sock, sizes: seq<u32>)
    decreases |sizes|
  {
    sizes == [] ||
    (var o := RecvMsg(s, 0, sizes[0]); o.InBounds? && o.out.err == 0 && Succeed(o.out.sock, sizes[1..]))
  }

  /** What those calls return. */
  function RecvMany(s: Sock, sizes: seq<u32>): (outs: seq<MsgOut>)
    requires Succeed(s, sizes)
    ensures |outs| == |sizes|
    decreases |sizes|
  {
    if sizes == [] then []
    else
      var o := RecvMsg(s, 0, sizes[0]).out;
      [o] + RecvMany(o.sock, sizes[1..])
  }

  /** The socket after those calls. */
  function Final(s: Sock, sizes: seq<u32>): Sock
    requires Succeed(s, sizes)
    decreases |sizes|
  {
    if sizes == [] then s else Final(RecvMsg(s, 0, sizes[0]).out.sock, sizes[1..])
  }

  /** A stream that begins some list of messages begins with its first one, once enough of it is there. */
  lemma FirstFrame(f: Frame, s: seq<byte>, q: seq<byte>, fs: seq<Frame>)
    requires Encode(f) + s + q == EncodeAll(fs)
    ensures fs != [] && f == fs[0] && s + q == EncodeAll(fs[1..])
  {
    Regroup(Encode(f), s, q);
    ParseOne(f, s + q);
    ParseAll(fs);
    ParseExact(s + q);
    var p := Parse(s + q);
    assert fs[1..] == p.frames;
    assert EncodeAll(fs[1..]) + [] == EncodeAll(fs[1..]);
  }

  /** Truncation keeps sync: when every call reports success, reading encoded messages with buffers of any
      sizes and any pattern of partial reads yields each id and as much of each body as fits, and takes
      exactly the messages off the stream. */
  lemma {:induction false} TruncationKeepsSync(s: Sock, sizes: seq<u32>, q: seq<byte>, fs: seq<Frame>)
    requires s.incoming + q == EncodeAll(fs)
    requires Succeed(s, sizes)
    ensures |sizes| <= |fs|
    ensures forall i | 0 <= i < |sizes| :: Correct(RecvMany(s, sizes)[i], fs[i], sizes[i])
    ensures s.incoming == EncodeAll(fs[..|sizes|]) + Final(s, sizes).incoming
    decreases |sizes|
  {
    if sizes == [] {
      assert EncodeAll(fs[..0]) == [];
    } else {
      var o := RecvMsg(s, 0, sizes[0]).out;
      var f := RecvMsgMeaning(s, 0, sizes[0]);
      FirstFrame(f, o.sock.incoming, q, fs);
      TruncationKeepsSync(o.sock, sizes[1..], q, fs[1..]);
      OneMoreRead(s, o.sock, f, fs, sizes);
      forall i | 0 <= i < |sizes|
        ensures Correct(RecvMany(s, sizes)[i], fs[i], sizes[i])
      {
        if i > 0 {
          assert RecvMany(s, sizes)[i] == RecvMany(o.sock, sizes[1..])[i - 1];
        }
      }
    }
  }

  predicate Correct(o: MsgOut, f: Frame, size: u32) {
    o.err == 0 && o.id == f.id && o.body == Truncated(f.body, size) && o.len == |o.body|
  }

  lemma OneMoreRead(s: Sock, t: Sock, f: Frame, fs: seq<Frame>, sizes: seq<u32>)
    requires 0 < |sizes| <= |fs| && f == fs[0] && Succeed(s, sizes)
    requires s.incoming == Encode(f) + t.incoming
    requires t.incoming == EncodeAll(fs[1..][..|sizes| - 1]) + Final(s, sizes).incoming
    ensures s.incoming == EncodeAll(fs[..|sizes|]) + Final(s, sizes).incoming
  {
    var g := fs[..|sizes|];
    assert g[1..] == fs[1..][..|sizes| - 1];
    Regroup(Encode(f), EncodeAll(g[1..]), Final(s, sizes).incoming);
  }

  // When every call succeeds.

  /** No receive call fails: the first way a run can be known to be in order. */
  predicate NoneFails(s: Sock, sizes: seq<u32>)
    decreases |sizes|
  {
    sizes == [] ||
    (var o := RecvMsg(s, 0, sizes[0]); o.InBounds? && o.out.sock.failures == s.failures && NoneFails(o.out.sock, sizes[1..]))
  }

  lemma BeginsWithHeader(s: Sock, q: seq<byte>, fs: seq<Frame>)
    requires s.incoming + q == EncodeAll(fs) && |s.incoming| >= HEADER_SIZE
    ensures Magic(s.incoming)
  {
    HeaderMeaning(fs[0].id, |fs[0].body|, fs[0].body);
    assert (s.incoming + q)[0] == Encode(fs[0])[0] && (s.incoming + q)[1] == Encode(fs[0])[1];
  }

  /** On a stream of messages a receive in which no call fails reports success. */
  lemma GoodStream(s: Sock, size: u32, q: seq<byte>, fs: seq<Frame>)
    requires s.incoming + q == EncodeAll(fs)
    requires RecvMsg(s, 0, size).InBounds? && RecvMsg(s, 0, size).out.sock.failures == s.failures
    ensures RecvMsg(s, 0, size).out.err == 0
  {
    RecvAllMeaning(s, HEADER_SIZE);
    if RecvAll(s, HEADER_SIZE).err == 0 {
      BeginsWithHeader(s, q, fs);
      assert RecvAll(s, HEADER_SIZE).got == s.incoming[..HEADER_SIZE];
    }
    var h := RecvHead(s, 0, 0);
    if h.err == 0 {
      RecvBodyMeaning(h.sock, h.len, Min(h.len, size));
    }
  }

  lemma {:induction false} NoFailureSucceeds(s: Sock, sizes: seq<u32>, q: seq<byte>, fs: seq<Frame>)
    requires s.incoming + q == EncodeAll(fs) && NoneFails(s, sizes)
    ensures Succeed(s, sizes)
    decreases |sizes|
  {
    if sizes != [] {
      var o := RecvMsg(s, 0, sizes[0]).out;
      GoodStream(s, sizes[0], q, fs);
      var f := RecvMsgMeaning(s, 0, sizes[0]);
      FirstFrame(f, o.sock.incoming, q, fs);
      NoFailureSucceeds(o.sock, sizes[1..], q, fs[1..]);
    }
  }

  /** A script in which every call moves something, however little. */
  predicate Patient(s: Sock) {
    |s.script| >= |s.incoming| && forall i | 0 <= i < |s.script| :: s.script[i] > 0
  }

  lemma {:induction false} PatientRecvAll(s: Sock, n: nat)
    requires Patient(s) && n <= |s.incoming|
    ensures Patient(RecvAll(s, n).sock) && RecvAll(s, n).sock.failures == s.failures
    ensures RecvAll(s, n).err == 0 && RecvAll(s, n).sock.incoming == s.incoming[n..]
    decreases n
  {
    if n > 0 {
      var k := Moved(s, Min(n, |s.incoming|));
      PatientRecvAll(s.(script := Rest(s), incoming := s.incoming[k..]), n - k);
    }
  }

  lemma {:induction false} PatientSkip(s: Sock, n: nat)
    requires Patient(s) && n <= |s.incoming|
    ensures !PieceFails(s, n) && Patient(LastRequest(s, n).sock)
    ensures LastRequest(s, n).size <= |LastRequest(s, n).sock.incoming|
    decreases n
  {
    if n > SKIP_SIZE {
      PatientRecvAll(s, SKIP_SIZE);
      PatientSkip(RecvAll(s, SKIP_SIZE).sock, n - SKIP_SIZE);
    }
  }

  lemma PatientHead(s: Sock, f: Frame, rest: seq<byte>)
    requires Patient(s) && s.incoming == Encode(f) + rest
    ensures var h := RecvHead(s, 0, 0);
      && Patient(h.sock) && h.sock.failures == s.failures && h.sock.incoming == f.body + rest
      && h.err == 0 && h.id == f.id && h.len == |f.body|
  {
    var hb := Header(f.id, |f.body|);
    Regroup(hb, f.body, rest);
    PatientRecvAll(s, HEADER_SIZE);
    RecvAllMeaning(s, HEADER_SIZE);
    assert RecvAll(s, HEADER_SIZE).got == hb;
    HeaderMeaning(f.id, |f.body|, []);
    assert hb + [] == hb;
  }

  lemma PatientBody(s: Sock, len: u32, rlen: nat)
    requires Patient(s) && rlen <= len <= |s.incoming|
    ensures var b := RecvBody(s, len, rlen); b.InBounds? && b.out.err == 0 && Patient(b.out.sock)
  {
    PatientRecvAll(s, rlen);
    if rlen < len {
      var t, n := RecvAll(s, rlen).sock, len - rlen;
      PatientSkip(t, n);
      LastRequestMeaning(t, n);
      var r := LastRequest(t, n);
      PatientRecvAll(r.sock, r.size);
    }
  }

  lemma PatientMsg(s: Sock, size: u32, f: Frame, rest: seq<byte>)
    requires Patient(s) && s.incoming == Encode(f) + rest
    ensures var o := RecvMsg(s, 0, size);
      o.InBounds? && o.out.err == 0 && Patient(o.out.sock) && o.out.sock.incoming == rest
  {
    PatientHead(s, f, rest);
    var h := RecvHead(s, 0, 0);
    PatientBody(h.sock, h.len, Min(h.len, size));
    RecvBodyMeaning(h.sock, h.len, Min(h.len, size));
  }

  /** Partial reads alone never make a receive fail: every script that keeps moving lets all of them
      succeed. */
  lemma {:induction false} PartialReadsSuffice(s: Sock, sizes: seq<u32>, fs: seq<Frame>, rest: seq<byte>)
    requires Patient(s) && s.incoming == EncodeAll(fs) + rest && |sizes| <= |fs|
    ensures Succeed(s, sizes)
    decreases |sizes|
  {
    if sizes != [] {
      Regroup(Encode(fs[0]), EncodeAll(fs[1..]), rest);
      PatientMsg(s, sizes[0], fs[0], EncodeAll(fs[1..]) + rest);
      PartialReadsSuffice(RecvMsg(s, 0, sizes[0]).out.sock, sizes[1..], fs[1..], rest);
    }
  }

  // Sending.

  /** Sends messages until one fails; `sent` counts those that went out whole. */
  datatype ManyOut = ManyOut(sock: Sock, err: int, sent: nat)

  function SendMany(s: Sock, fs: seq<Frame>): (o: ManyOut)
    ensures o.sent <= |fs|
    ensures o.err != 0 ==> o.sent < |fs|
    decreases |fs|
  {
    if fs == [] then ManyOut(s, 0, 0)
    else
      var o := SendMsg(s, fs[0].id, fs[0].body);
      if o.err != 0 then ManyOut(o.sock, o.err, 0)
      else
        var m := SendMany(o.sock, fs[1..]);
        m.(sent := m.sent + 1)
  }

  /** On the wire: the messages sent whole, then a proper part of the one that failed. */
  lemma {:induction false} SendManyMeaning(s: Sock, fs: seq<Frame>) returns (part: seq<byte>)
    ensures var o := SendMany(s, fs);
      && o.sock.outgoing == s.outgoing + (EncodeAll(fs[..o.sent]) + part)
      && (o.err == 0 ==> o.sent == |fs| && part == [])
      && (o.err != 0 ==> part < Encode(fs[o.sent]))
    decreases |fs|
  {
    part := [];
    if fs == [] {
      assert EncodeAll(fs[..0]) == [] && s.outgoing + ([] + part) == s.outgoing;
    } else {
      var f, o := fs[0], SendMsg(s, fs[0].id, fs[0].body);
      SendMsgMeaning(s, f.id, f.body);
      if o.err != 0 {
        var k :| 0 <= k < |Encode(f)| && o.sock.outgoing == s.outgoing + Encode(f)[..k];
        part := Encode(f)[..k];
        assert EncodeAll(fs[..0]) + part == part;
      } else {
        part := SendManyMeaning(o.sock, fs[1..]);
        var n := SendMany(o.sock, fs[1..]).sent;
        assert fs[..n + 1][1..] == fs[1..][..n];
        Regroup(Encode(f), EncodeAll(fs[1..][..n]), part);
        Regroup(s.outgoing, Encode(f), EncodeAll(fs[1..][..n]) + part);
      }
    }
  }
}
