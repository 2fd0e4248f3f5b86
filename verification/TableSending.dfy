/** Handing the packed tables of an accepted update to the driver. */
module TableSending {
  import opened Bytes
  import opened Sequences
  import opened Frames
  import opened DriverState
  import opened Psc
  import DriverRuns
  import RampCheck
  import TableController

  /** The driver afterwards, how many payloads it has taken, and whether an exception ended the sending. */
  datatype Outcome = Outcome(driver: Driver, out: nat, thrown: bool)

  predicate Throws(r: SendResult) {
    r.AlreadyQueued? || r.BufferFull?
  }

  /** A payload is queued and flushed. */
  function SendOne(d: Driver, id: u16, p: Body, max: int): (o: Outcome)
    requires d.connected ==> d.session.Session?
    ensures o.driver.connected == d.connected && (o.driver.connected ==> o.driver.session.Session?)
  {
    var t := GetSend(d, id);
    if Throws(QueueResult(t, id, max, true)) then Outcome(t, 0, true)
    else
      var q := QueueSend(d, id, p, max, true);
      Outcome(Flush(q, max, true), if d.connected then 1 else 0, Throws(FlushResult(q, max, true)))
  }

  /** One payload after the other, until an exception. */
  function SendAll(d: Driver, id: u16, ps: seq<Body>, max: int): Outcome
    requires d.connected ==> d.session.Session?
    decreases |ps|
  {
    if ps == [] then Outcome(d, 0, false)
    else
      var o := SendOne(d, id, ps[0], max);
      if o.thrown then o
      else
        var r := SendAll(o.driver, id, ps[1..], max);
        r.(out := o.out + r.out)
  }

  method SendPayload(psc: PSC, bid: u16, payload: Body) returns (out: nat, thrown: bool)
    requires psc.Valid()
    modifies psc`session, psc`sendBlocks, psc`sendbuf, psc`state, psc.sendBlocks.Values
    ensures psc.Valid() && Outcome(psc.state, out, thrown) == SendOne(old(psc.state), bid, payload, psc.maxSendBuffer)
    ensures fresh(psc.sendBlocks.Values - old(psc.sendBlocks.Values))
  {
    var queued := psc.QueueSend(bid, payload, true);
    if Throws(queued) {
      return 0, true;
    }
    var flushed := psc.FlushSend(true);
    return if queued.Done? then 1 else 0, Throws(flushed);
  }

  /** What the handler does with its one or two packed tables. */
  method SendPayloads(psc: PSC, bid: u16, payloads: seq<Body>) returns (out: nat, thrown: bool)
    requires psc.Valid()
    modifies psc`session, psc`sendBlocks, psc`sendbuf, psc`state, psc.sendBlocks.Values
    ensures psc.Valid() && Outcome(psc.state, out, thrown) == SendAll(old(psc.state), bid, payloads, psc.maxSendBuffer)
    ensures fresh(psc.sendBlocks.Values - old(psc.sendBlocks.Values))
    decreases |payloads|
  {
    if payloads == [] {
      return 0, false;
    }
    ghost var d := psc.state;
    out, thrown := SendPayload(psc, bid, payloads[0]);
    if thrown {
      return;
    }
    ghost var o := Outcome(psc.state, out, false);
    var more;
    more, thrown := SendPayloads(psc, bid, payloads[1..]);
    AfterFirst(d, bid, payloads, psc.maxSendBuffer, o, Outcome(psc.state, more, thrown));
    out := out + more;
  }

  lemma AfterFirst(d: Driver, id: u16, ps: seq<Body>, max: int, o: Outcome, r: Outcome)
    requires ps != [] && (d.connected ==> d.session.Session?) && (o.driver.connected ==> o.driver.session.Session?)
    requires SendOne(d, id, ps[0], max) == o && !o.thrown && SendAll(o.driver, id, ps[1..], max) == r
    ensures SendAll(d, id, ps, max) == r.(out := o.out + r.out)
  {
  }

  /** The same in the controller's terms. */
  function FateOf(d: Driver, id: u16, ps: seq<Body>, max: int): TableController.Fate
    requires d.connected ==> d.session.Session?
  {
    var o := SendAll(d, id, ps, max);
    if o.thrown then TableController.Refused(o.out)
    else if d.connected then TableController.Delivered
    else TableController.Silent
  }

  function FramesOf(id: u16, ps: seq<Body>): (fs: seq<Frame>)
    ensures |fs| == |ps|
  {
    if ps == [] then [] else [Frame(id, ps[0])] + FramesOf(id, ps[1..])
  }

  /** The bytes of all payloads but the last, which have been flushed by the time it is. */
  function Before(d: Driver, id: u16, ps: seq<Body>): nat
    requires ps != []
  {
    if |ps| == 1 then 0 else |d.sendbuf| + |EncodeAll(FramesOf(id, ps[..|ps| - 1]))|
  }

  /** A message of this block is in the send buffer. */
  predicate Waiting(d: Driver, id: u16) {
    id in d.send && d.send[id].queued
  }

  /** Nothing of this block is waiting, and both buffers have room when it matters. */
  predicate Unobstructed(d: Driver, id: u16, ps: seq<Body>, max: int)
    requires d.session.Session?
  {
    ps == [] ||
    (!Waiting(d, id) && HasRoom(|d.sendbuf|, max) && HasRoom(|d.session.output| + Before(d, id, ps), max))
  }

  /** A live connection on which the first payload, at least, goes through. */
  predicate Clear(d: Driver, id: u16, max: int) {
    && d.connected && d.session.Session?
    && !Waiting(d, id) && HasRoom(|d.sendbuf|, max) && HasRoom(|d.session.output|, max)
  }

  lemma GoesThrough(d: Driver, id: u16, p: Body, max: int)
    requires Clear(d, id, max)
    ensures SendOne(d, id, p, max) == Outcome(Moved(Enqueued(GetSend(d, id), id, p)), 1, false)
  {
    var q := QueueSend(d, id, p, max, true);
    assert q == Enqueued(GetSend(d, id), id, p) && Flush(q, max, true) == Moved(q);
  }

  /** The driver after one payload that went through. */
  lemma OneSent(d: Driver, id: u16, p: Body, max: int) returns (t: Driver)
    requires Clear(d, id, max)
    ensures SendOne(d, id, p, max) == Outcome(t, 1, false)
    ensures t.connected && t.session.Session? && t.sendbuf == [] && !Waiting(t, id)
    ensures t.session.output == d.session.output + (d.sendbuf + Encode(Frame(id, p)))
    ensures DriverRuns.Accepted(t) == DriverRuns.Accepted(d) + [Frame(id, p)]
  {
    GoesThrough(d, id, p, max);
    t := Moved(Enqueued(GetSend(d, id), id, p));
    Regroup(d.hist.sent, d.hist.queue, [Frame(id, p)]);
    assert d.hist.sent + (d.hist.queue + [Frame(id, p)]) + [] == d.hist.sent + (d.hist.queue + [Frame(id, p)]);
  }

  lemma BeforeRest(d: Driver, t: Driver, id: u16, ps: seq<Body>)
    requires |ps| >= 2 && t.sendbuf == []
    ensures Before(d, id, ps) == |d.sendbuf| + |Encode(Frame(id, ps[0]))| + Before(t, id, ps[1..])
  {
    var head := ps[..|ps| - 1];
    assert head[1..] == ps[1..][..|ps| - 2] && FramesOf(id, head)[1..] == FramesOf(id, head[1..]);
    if |ps| == 2 {
      assert head[1..] == [] && EncodeAll(FramesOf(id, head)) == Encode(Frame(id, ps[0])) + [];
    }
  }

  lemma SameObstacles(d: Driver, t: Driver, id: u16, ps: seq<Body>, max: int)
    requires ps != [] && Clear(d, id, max) && t.session.Session? && t.sendbuf == [] && !Waiting(t, id)
    requires t.session.output == d.session.output + (d.sendbuf + Encode(Frame(id, ps[0])))
    ensures Unobstructed(t, id, ps[1..], max) <==> Unobstructed(d, id, ps, max)
  {
    if |ps| >= 2 {
      BeforeRest(d, t, id, ps);
    }
  }

  lemma ObstructedFirst(d: Driver, id: u16, ps: seq<Body>, max: int)
    requires d.connected && d.session.Session? && ps != [] && !Clear(d, id, max)
    ensures SendAll(d, id, ps, max).thrown && !Unobstructed(d, id, ps, max)
    ensures SendAll(d, id, ps, max).out == if Waiting(d, id) || !HasRoom(|d.sendbuf|, max) then 0 else 1
  {
  }

  /** On a live connection all payloads reach the session, in order and behind what was queued before,
      exactly when nothing obstructs them; otherwise an exception ends the sending. */
  lemma {:induction false} AllPayloadsGoOut(d: Driver, id: u16, ps: seq<Body>, max: int)
    requires d.connected && d.session.Session?
    ensures var o := SendAll(d, id, ps, max);
      && (!o.thrown <==> Unobstructed(d, id, ps, max))
      && (!o.thrown ==> o.driver.connected && o.driver.session.Session?)
      && (!o.thrown && ps != [] ==> o.driver.sendbuf == [] && !Waiting(o.driver, id))
      && (!o.thrown && ps != [] ==> o.driver.session.output == d.session.output + (d.sendbuf + EncodeAll(FramesOf(id, ps))))
    decreases |ps|
  {
    if ps != [] {
      if Clear(d, id, max) {
        var t := OneSent(d, id, ps[0], max);
        AllPayloadsGoOut(t, id, ps[1..], max);
        SameObstacles(d, t, id, ps, max);
        OutputGrows(d, t, id, ps, SendAll(t, id, ps[1..], max).driver);
      } else {
        ObstructedFirst(d, id, ps, max);
      }
    }
  }

  lemma OutputGrows(d: Driver, t: Driver, id: u16, ps: seq<Body>, r: Driver)
    requires ps != [] && d.session.Session? && t.session.Session? && t.sendbuf == []
    requires t.session.output == d.session.output + (d.sendbuf + Encode(Frame(id, ps[0])))
    ensures r.session.Session? && |ps| == 1 && r == t ==>
      r.session.output == d.session.output + (d.sendbuf + EncodeAll(FramesOf(id, ps)))
    ensures r.session.Session? && r.session.output == t.session.output + (t.sendbuf + EncodeAll(FramesOf(id, ps[1..]))) ==>
      r.session.output == d.session.output + (d.sendbuf + EncodeAll(FramesOf(id, ps)))
  {
    var f, rest := Frame(id, ps[0]), FramesOf(id, ps[1..]);
    assert FramesOf(id, ps)[1..] == rest;
    Joined(d.session.output, d.sendbuf, Encode(f), EncodeAll(rest));
    if |ps| == 1 {
      assert Encode(f) + [] == Encode(f);
    }
  }

  lemma Joined(a: seq<byte>, b: seq<byte>, c: seq<byte>, e: seq<byte>)
    ensures a + (b + c) + ([] + e) == a + (b + (c + e))
  {
    Regroup(a, b + c, e);
    Regroup(b, c, e);
    assert [] + e == e;
  }

  /** Without a connection sending does nothing and reports nothing: the controller goes on to remember
      a table the device has never seen. */
  lemma {:induction false} DisconnectedSendIsSilent(d: Driver, id: u16, ps: seq<Body>, max: int)
    requires !d.connected
    ensures var o := SendAll(d, id, ps, max);
      !o.thrown && o.out == 0 && o.driver == if ps == [] then d else GetSend(d, id)
    decreases |ps|
  {
    if ps != [] {
      DisconnectedSendIsSilent(GetSend(d, id), id, ps[1..], max);
    }
  }

  /** The payloads counted are those taken: all without an exception on a live connection. */
  lemma {:induction false} CountsTaken(d: Driver, id: u16, ps: seq<Body>, max: int)
    requires d.connected && d.session.Session?
    ensures var o := SendAll(d, id, ps, max);
      o.out <= |ps| && (!o.thrown ==> o.out == |ps|)
    decreases |ps|
  {
    if ps != [] {
      if Clear(d, id, max) {
        var t := OneSent(d, id, ps[0], max);
        CountsTaken(t, id, ps[1..], max);
      } else {
        ObstructedFirst(d, id, ps, max);
      }
    }
  }

  lemma QueuedAccepts(d: Driver, id: u16, p: Body, max: int)
    requires d.connected && d.session.Session? && !Clear(d, id, max)
    ensures var o := SendOne(d, id, p, max);
      o.out <= 1 && DriverRuns.Accepted(o.driver) == DriverRuns.Accepted(d) + FramesOf(id, [p][..o.out])
  {
    var a := DriverRuns.Accepted(d);
    if Throws(QueueResult(GetSend(d, id), id, max, true)) {
      assert a + [] == a;
    } else {
      assert SendOne(d, id, p, max).driver == Enqueued(GetSend(d, id), id, p);
      Regroup(d.hist.sent, d.hist.queue, [Frame(id, p)]);
      assert [p][..1] == [p] && FramesOf(id, [p]) == [Frame(id, p)];
    }
  }

  lemma AcceptsAtMostOne(d: Driver, id: u16, ps: seq<Body>, max: int)
    requires d.connected && d.session.Session? && (ps == [] || !Clear(d, id, max))
    ensures var o := SendAll(d, id, ps, max);
      o.out <= |ps| && DriverRuns.Accepted(o.driver) == DriverRuns.Accepted(d) + FramesOf(id, ps[..o.out])
  {
    if ps != [] {
      ObstructedFirst(d, id, ps, max);
      QueuedAccepts(d, id, ps[0], max);
      var k := SendOne(d, id, ps[0], max).out;
      assert ps[..k] == [ps[0]][..k];
    } else {
      assert DriverRuns.Accepted(d) + [] == DriverRuns.Accepted(d);
    }
  }

  /** What the driver accepts of the payloads is the first so many of them, exactly as counted. */
  lemma {:induction false} AcceptsCounted(d: Driver, id: u16, ps: seq<Body>, max: int)
    requires d.connected && d.session.Session?
    ensures var o := SendAll(d, id, ps, max);
      o.out <= |ps| && DriverRuns.Accepted(o.driver) == DriverRuns.Accepted(d) + FramesOf(id, ps[..o.out])
    decreases |ps|
  {
    if ps == [] || !Clear(d, id, max) {
      AcceptsAtMostOne(d, id, ps, max);
    } else {
      var t := OneSent(d, id, ps[0], max);
      AcceptsCounted(t, id, ps[1..], max);
      var k := SendAll(t, id, ps[1..], max).out;
      FirstFrame(id, ps, k + 1);
      Regroup(DriverRuns.Accepted(d), [Frame(id, ps[0])], FramesOf(id, ps[1..][..k]));
    }
  }

  lemma FirstFrame(id: u16, ps: seq<Body>, k: nat)
    requires 1 <= k <= |ps|
    ensures FramesOf(id, ps[..k]) == [Frame(id, ps[0])] + FramesOf(id, ps[1..][..k - 1])
  {
    assert ps[..k][1..] == ps[1..][..k - 1];
  }

  /** How an update fares: not noticed without a connection; delivered when nothing obstructs it; refused
      at once when its block is waiting or the send buffer is full; and otherwise cut short. */
  lemma FateMeaning(d: Driver, id: u16, ps: seq<Body>, max: int)
    requires d.connected ==> d.session.Session?
    requires ps != []
    ensures var fate := FateOf(d, id, ps, max);
      && (fate == TableController.Silent <==> !d.connected)
      && (fate == TableController.Delivered <==> d.connected && Unobstructed(d, id, ps, max))
      && (fate == TableController.Refused(0) <==> d.connected && (Waiting(d, id) || !HasRoom(|d.sendbuf|, max)))
      && SendAll(d, id, ps, max).out == TableController.Taken(fate, |ps|)
  {
    if !d.connected {
      DisconnectedSendIsSilent(d, id, ps, max);
    } else {
      AllPayloadsGoOut(d, id, ps, max);
      CountsTaken(d, id, ps, max);
      if !Clear(d, id, max) {
        ObstructedFirst(d, id, ps, max);
      }
    }
  }

  /** The packed tables of an update. */
  function Tables(uniPolar: bool, tr: TableController.TransientUse, target: RampCheck.Table): (ps: seq<Body>)
    ensures 1 <= |ps| <= 2 && forall p | p in ps :: |p| == 43440
  {
    TableController.Packets(uniPolar, tr, target)
  }

  /** What sending an accepted update needs: its block idle, room in the send buffer, and room at the
      session, for a transient's target even behind the transient. */
  lemma UpdateGoesOut(d: Driver, id: u16, uniPolar: bool, tr: TableController.TransientUse, target: RampCheck.Table, max: int)
    requires d.connected && d.session.Session?
    ensures FateOf(d, id, Tables(uniPolar, tr, target), max) == TableController.Delivered <==>
      && !Waiting(d, id) && HasRoom(|d.sendbuf|, max)
      && HasRoom(|d.session.output| + if tr.Inserted? then |d.sendbuf| + 43448 else 0, max)
  {
    var ps := Tables(uniPolar, tr, target);
    FateMeaning(d, id, ps, max);
    if tr.Inserted? {
      assert ps[..1] == [ps[0]];
      EncodeAllOne(Frame(id, ps[0]));
      assert FramesOf(id, [ps[0]]) == [Frame(id, ps[0])];
    }
  }
}
