/** The device's blocking loops as they run: over a socket object and a caller's buffer. */
module DeviceSocket {
  import opened Bytes
  import opened Sequences
  import opened Frames
  import opened DeviceCodec

  /** Buffer contents `b` after `got` has been written at `off`. */
  function Written(b: seq<byte>, off: nat, got: seq<byte>): (r: seq<byte>)
    requires off + |got| <= |b|
    ensures |r| == |b|
  {
    b[..off] + got + b[off + |got|..]
  }

  lemma WrittenTwice(b: seq<byte>, off: nat, x: seq<byte>, y: seq<byte>)
    requires off + |x| + |y| <= |b|
    ensures Written(Written(b, off, x), off + |x|, y) == Written(b, off, x + y)
  {
    var c := Written(b, off, x);
    assert c[..off + |x|] == b[..off] + x;
    assert c[off + |x| + |y|..] == b[off + |x| + |y|..];
    Regroup(b[..off], x, y);
  }

  /** A receive of `len` bytes has got `got` so far and is left with `left` to get from `t`. */
  predicate Underway(s: Sock, len: nat, t: Sock, left: nat, got: seq<byte>) {
    var o := RecvAll(t, left);
    RecvAll(s, len) == o.(got := got + o.got)
  }

  lemma UnderwayMore(s: Sock, len: nat, t: Sock, left: nat, got: seq<byte>)
    requires left > 0 && Underway(s, len, t, left, got)
    ensures var k := Moved(t, Min(left, |t.incoming|));
      if k == 0 then RecvAll(s, len) == RecvOut(Failing(t), ErrorOf(t), got)
      else
        && Underway(s, len, t.(script := Rest(t), incoming := t.incoming[k..]), left - k, got + t.incoming[..k])
        && |RecvAll(s, len).got| >= |got| + k
  {
    var k := Moved(t, Min(left, |t.incoming|));
    if k == 0 {
      assert got + [] == got;
    } else {
      Regroup(got, t.incoming[..k], RecvAll(t.(script := Rest(t), incoming := t.incoming[k..]), left - k).got);
    }
  }

  lemma NothingYet(s: Sock, b: seq<byte>, off: nat, len: nat)
    requires off <= |b|
    ensures Written(b, off, []) == b && Underway(s, len, s, len, [])
  {
    var o := RecvAll(s, len);
    assert [] + o.got == o.got;
  }

  lemma UnderwayDone(s: Sock, len: nat, t: Sock, got: seq<byte>)
    requires Underway(s, len, t, 0, got)
    ensures RecvAll(s, len) == RecvOut(t, 0, got)
  {
    assert got + [] == got;
  }

  class Socket {
    var incoming: seq<byte>
    var outgoing: seq<byte>
    var script: seq<int>
    ghost var failures: nat

    ghost function View(): Sock
      reads this
    {
      Sock(incoming, outgoing, script, failures)
    }

    /** The operating system's send: how much it takes is the script's choice. */
    method Send(data: seq<byte>) returns (ret: int, errno: int)
      modifies this
      ensures var s, k := old(View()), Moved(old(View()), |data|);
        && ret <= |data|
        && (k > 0 ==> ret == k && View() == s.(script := Rest(s), outgoing := s.outgoing + data[..k]))
        && (k == 0 ==> ret <= 0 && View() == Failing(s) && ErrorOf(s) == if ret < 0 then errno else ENOTCONN)
    {
      var next := if script == [] then 0 else script[0];
      script := if script == [] then [] else script[1..];
      ret, errno := if next < |data| then next else |data|, if next < 0 then -next else 0;
      if ret > 0 {
        outgoing := outgoing + data[..ret];
      } else {
        failures := failures + 1;
      }
    }

    /** The operating system's receive of up to `len` bytes to `buf[off..]`. It knows nothing of the end of
        the array; once that is passed nothing more is promised. */
    method Recv(buf: array<byte>, off: nat, len: nat) returns (ret: int, errno: int, overrun: bool)
      requires off <= buf.Length
      modifies this, buf
      ensures overrun <==> off + Moved(old(View()), Min(len, |old(incoming)|)) > buf.Length
      ensures var s, k := old(View()), Moved(old(View()), Min(len, |old(incoming)|));
        !overrun ==>
          && (k > 0 ==> ret == k && View() == s.(script := Rest(s), incoming := s.incoming[k..]))
          && (k > 0 ==> buf[..] == Written(old(buf[..]), off, s.incoming[..k]))
          && (k == 0 ==> ret <= 0 && View() == Failing(s) && buf[..] == old(buf[..]))
          && (k == 0 ==> ErrorOf(s) == if ret < 0 then errno else ENOTCONN)
    {
      var next := if script == [] then 0 else script[0];
      script := if script == [] then [] else script[1..];
      var most := if len < |incoming| then len else |incoming|;
      ret, errno, overrun := if next < most then next else most, if next < 0 then -next else 0, false;
      if ret > 0 {
        if off + ret > buf.Length {
          overrun := true;
          return;
        }
        forall i | 0 <= i < ret {
          buf[off + i] := incoming[i];
        }
        assert buf[..] == Written(old(buf[..]), off, incoming[..ret]);
        incoming := incoming[ret..];
      } else {
        failures := failures + 1;
      }
    }

    method SendAll(buf: seq<byte>) returns (err: int)
      modifies this
      ensures SendOut(View(), err) == DeviceCodec.SendAll(old(View()), buf)
    {
      var rest := buf;
      while rest != []
        invariant DeviceCodec.SendAll(View(), rest) == DeviceCodec.SendAll(old(View()), buf)
        decreases |rest|
      {
        var ret, errno := Send(rest);
        if ret < 0 {
          return errno;
        } else if ret == 0 {
          return ENOTCONN;
        }
        rest := rest[ret..];
      }
      return 0;
    }

    /** One receive on behalf of a longer one that has put `got` into `b` at `off`. */
    method RecvMore(buf: array<byte>, at: nat, left: nat, ghost off: nat, ghost s: Sock, ghost len: nat,
                    ghost b: seq<byte>, ghost got: seq<byte>)
      returns (ret: int, errno: int, overrun: bool, ghost more: seq<byte>)
      requires left > 0 && Underway(s, len, View(), left, got)
      requires at == off + |got| <= buf.Length == |b| && buf[..] == Written(b, off, got)
      modifies this, buf
      ensures overrun ==> off + |DeviceCodec.RecvAll(s, len).got| > buf.Length
      ensures !overrun && ret > 0 ==> ret <= left && Underway(s, len, View(), left - ret, more)
      ensures !overrun && ret > 0 ==> at + ret <= buf.Length && |more| == |got| + ret && buf[..] == Written(b, off, more)
      ensures !overrun && ret <= 0 ==> buf[..] == old(buf[..])
      ensures !overrun && ret <= 0 ==>
        DeviceCodec.RecvAll(s, len) == RecvOut(View(), if ret < 0 then errno else ENOTCONN, got)
    {
      UnderwayMore(s, len, View(), left, got);
      ghost var x := incoming;
      ret, errno, overrun := Recv(buf, at, left);
      more := [];
      if !overrun && ret > 0 {
        WrittenTwice(b, off, got, x[..ret]);
        more := got + x[..ret];
      }
    }

    method RecvAll(buf: array<byte>, off: nat, len: nat) returns (err: int, overrun: bool)
      requires off <= buf.Length
      modifies this, buf
      ensures overrun <==> off + |DeviceCodec.RecvAll(old(View()), len).got| > buf.Length
      ensures var o := DeviceCodec.RecvAll(old(View()), len);
        !overrun ==> View() == o.sock && err == o.err && buf[..] == Written(old(buf[..]), off, o.got)
    {
      var at: nat, left: nat := off, len;
      ghost var s, b, got: seq<byte> := View(), buf[..], [];
      NothingYet(s, b, off, len);
      while left > 0
        invariant at == off + |got| <= buf.Length && at + left == off + len
        invariant Underway(s, len, View(), left, got)
        invariant buf[..] == Written(b, off, got)
      {
        var ret, errno;
        ghost var more;
        ret, errno, overrun, more := RecvMore(buf, at, left, off, s, len, b, got);
        if overrun {
          return 0, true;
        }
        if ret <= 0 {
          return if ret < 0 then errno else ENOTCONN, false;
        }
        got := more;
        at, left := at + ret, left - ret;
      }
      UnderwayDone(s, len, View(), got);
      return 0, false;
    }

    /** Skipping through an array of fixed size. */
    method RecvSkip(len: nat) returns (err: int, overrun: bool)
      modifies this
      ensures var o := DeviceCodec.RecvSkip(old(View()), len);
        if overrun then o.Overrun? else o == InBounds(SendOut(View(), err))
    {
      var buf := new byte[SKIP_SIZE];
      var left: nat, ok := len, true;
      while left > SKIP_SIZE && ok
        invariant left <= len
        invariant ok ==> LastRequest(View(), left) == LastRequest(old(View()), len)
        invariant !ok ==> Request(View(), left) == LastRequest(old(View()), len)
        decreases left, ok
      {
        var ret;
        ret, overrun := RecvAll(buf, 0, SKIP_SIZE);
        if ret == 0 {
          left := left - SKIP_SIZE;
        } else {
          ok := false;
        }
      }
      err, overrun := RecvAll(buf, 0, left);
    }

    method SendHead(id: u16, len: u32) returns (err: int)
      modifies this
      ensures SendOut(View(), err) == DeviceCodec.SendHead(old(View()), id, len)
    {
      err := SendAll(['P' as int, 'S' as int] + ToBE(id, 2) + ToBE(len, 4));
    }

    method SendMsg(id: u16, buf: Body) returns (err: int)
      modifies this
      ensures SendOut(View(), err) == DeviceCodec.SendMsg(old(View()), id, buf)
    {
      err := SendHead(id, |buf|);
      if err != 0 {
        return err;
      }
      err := SendAll(buf);
    }

    method SendMsgSingle(id: u16, regid: u32, buf: Body) returns (err: int)
      modifies this
      ensures SendOut(View(), err) == DeviceCodec.SendMsgSingle(old(View()), id, regid, buf)
    {
      err := SendHead(id, (|buf| + 4) % 0x1_0000_0000);
      if err != 0 {
        return err;
      }
      err := SendAll(ToBE(regid, 4));
      if err != 0 {
        return err;
      }
      err := SendAll(buf);
    }

    /** `id0` and `len0` are what the out-parameters hold before the call. */
    method RecvHead(id0: u16, len0: u32) returns (err: int, id: u16, len: u32)
      modifies this
      ensures HeadOut(View(), err, id, len) == DeviceCodec.RecvHead(old(View()), id0, len0)
    {
      var buf := new byte[HEADER_SIZE];
      id, len := id0, len0;
      ghost var s := View();
      var overrun;
      err, overrun := RecvAll(buf, 0, HEADER_SIZE);
      RecvAllMeaning(s, HEADER_SIZE);
      if err != 0 {
        return;
      }
      assert buf[..] == DeviceCodec.RecvAll(s, HEADER_SIZE).got;
      if buf[0] != 'P' as int || buf[1] != 'S' as int {
        err := EIO;
        return;
      }
      id, len := HeaderId(buf[..]), HeaderLen(buf[..]);
    }

    /** `len0` is both the size of `buf` as the caller states it and what `len` starts from. */
    method RecvMsg(id0: u16, buf: array<byte>, len0: u32) returns (err: int, id: u16, len: u32, overrun: bool)
      requires len0 <= buf.Length
      modifies this, buf
      ensures var o := DeviceCodec.RecvMsg(old(View()), id0, len0);
        && overrun == o.Overrun?
        && (!overrun ==> View() == o.out.sock && err == o.out.err && id == o.out.id && len == o.out.len)
        && (!overrun ==> |o.out.body| <= len0 && buf[..] == Written(old(buf[..]), 0, o.out.body))
    {
      id, len, overrun := id0, len0, false;
      ghost var b := buf[..];
      var mid, mlen;
      err, mid, mlen := RecvHead(0, 0);
      if err != 0 {
        assert Written(b, 0, []) == b;
        return;
      }
      var rlen := if mlen > len0 then len0 else mlen;
      var whole;
      err, overrun, whole := RecvBody(buf, mlen, rlen);
      if whole {
        id, len := mid, rlen;
      }
    }

    /** The body of a message; `whole` when all that is kept has come. */
    method RecvBody(buf: array<byte>, mlen: u32, rlen: nat) returns (err: int, overrun: bool, whole: bool)
      requires rlen <= mlen && rlen <= buf.Length
      modifies this, buf
      ensures var o := DeviceCodec.RecvBody(old(View()), mlen, rlen);
        && overrun == o.Overrun?
        && (!overrun ==> View() == o.out.sock && err == o.out.err && whole == (|o.out.got| == rlen))
        && (!overrun ==> |o.out.got| <= rlen && buf[..] == Written(old(buf[..]), 0, o.out.got))
    {
      RecvAllMeaning(View(), rlen);
      err, overrun := RecvAll(buf, 0, rlen);
      if err != 0 {
        return err, false, false;
      }
      whole := true;
      if rlen < mlen {
        err, overrun := RecvSkip(mlen - rlen);
      }
    }
  }
}
