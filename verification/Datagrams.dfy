/** The datagram driver as a function: what each packet does to its state. */
module Datagrams {
  import opened Bytes
  import opened Frames
  import opened Inboxes

  const FIRST_SCRATCH := 1024

  /** A packet, from the configured peer or from anybody else. */
  datatype Packet = Packet(bytes: seq<byte>, foreign: bool)

  /** `scratch` is the buffer all packets are received into; `scans` counts status updates. */
  datatype Receiver = Receiver(scratch: seq<byte>, inbox: Inbox, connCount: nat, scans: nat)

  datatype Kind = Foreign | Small | Corrupt | Truncated | Delivered | Unknown

  function Fits(r: Receiver, p: Packet): (n: nat)
    ensures n <= |r.scratch| && n <= |p.bytes|
  {
    if |p.bytes| < |r.scratch| then |p.bytes| else |r.scratch|
  }

  /** The scratch buffer after the operating system has put the packet there: what does not fit is
      lost, and what the packet does not cover stays. */
  function Landed(r: Receiver, p: Packet): (s: seq<byte>)
    ensures |s| == |r.scratch|
  {
    p.bytes[..Fits(r, p)] + r.scratch[Fits(r, p)..]
  }

  function Classify(r: Receiver, p: Packet): Kind {
    var s := Landed(r, p);
    if p.foreign then Foreign
    else if Fits(r, p) < HEADER_SIZE then Small
    else if !Magic(s) then Corrupt
    else if HeaderLen(s) > |s| - HEADER_SIZE then Truncated
    else if HeaderId(s) in r.inbox.blocks then Delivered
    else Unknown
  }

  /** The size asked for after a truncated packet, computed in 32 bits. */
  function WantedSize(len: u32): (n: nat)
    ensures n == len + HEADER_SIZE <==> len < 0xFFFF_FFF8
  {
    (len + HEADER_SIZE) % 0x1_0000_0000
  }

  /** The message the driver takes a packet for. */
  function Seen(s: seq<byte>): Frame
    requires |s| >= HEADER_SIZE && HeaderLen(s) <= |s| - HEADER_SIZE
  {
    Frame(HeaderId(s), s[HEADER_SIZE..HEADER_SIZE + HeaderLen(s)])
  }

  function Take(r: Receiver, p: Packet): Receiver {
    var s := Landed(r, p);
    var t := r.(scratch := s);
    match Classify(r, p)
    case Foreign | Corrupt => t
    case Small => t.(inbox := r.inbox.(unknown := r.inbox.unknown + 1))
    case Truncated =>
      t.(scratch := Resized(s, WantedSize(HeaderLen(s))), inbox := r.inbox.(unknown := r.inbox.unknown + 1))
    case Delivered | Unknown => t.(inbox := Deliver(r.inbox, Seen(s)))
  }

  function TakeAll(r: Receiver, ps: seq<Packet>): Receiver
    decreases |ps|
  {
    if ps == [] then r else TakeAll(Take(r, ps[0]), ps[1..])
  }

  /** How each packet of a run was classified. */
  function Kinds(r: Receiver, ps: seq<Packet>): (ks: seq<Kind>)
    ensures |ks| == |ps|
    decreases |ps|
  {
    if ps == [] then [] else [Classify(r, ps[0])] + Kinds(Take(r, ps[0]), ps[1..])
  }

  predicate Alarming(k: Kind) {
    k.Small? || k.Corrupt? || k.Truncated?
  }

  datatype Wakeup = Timeout | Readable(packets: seq<Packet>, error: bool) | Spurious

  predicate AnyAlarm(ks: seq<Kind>) {
    exists k | k in ks :: Alarming(k)
  }

  /** The receive callback: packets until none is waiting or the socket reports an error. */
  function Woken(r: Receiver, w: Wakeup): Receiver {
    match w
    case Timeout => r.(connCount := r.connCount + 1, scans := r.scans + 1)
    case Spurious => r
    case Readable(ps, error) =>
      var t := TakeAll(r, ps);
      t.(connCount := t.connCount + (if error then 1 else 0),
         scans := t.scans + if error || AnyAlarm(Kinds(r, ps)) then 1 else 0)
  }

  // Accounting.

  function Tally(ks: seq<Kind>, k: Kind): nat {
    if ks == [] then 0 else (if ks[0] == k then 1 else 0) + Tally(ks[1..], k)
  }

  lemma {:induction false} TallyTotal(ks: seq<Kind>)
    ensures Tally(ks, Foreign) + Tally(ks, Small) + Tally(ks, Corrupt) + Tally(ks, Truncated)
      + Tally(ks, Delivered) + Tally(ks, Unknown) == |ks|
  {
    if ks != [] {
      TallyTotal(ks[1..]);
    }
  }

  lemma TakeCounts(r: Receiver, p: Packet)
    ensures var t, k := Take(r, p), Classify(r, p);
      && t.inbox.blocks.Keys == r.inbox.blocks.Keys
      && TotalCount(t.inbox.blocks) == TotalCount(r.inbox.blocks) + (if k == Delivered then 1 else 0)
      && t.inbox.unknown == r.inbox.unknown + (if k == Small || k == Truncated || k == Unknown then 1 else 0)
  {
    if Classify(r, p) == Delivered {
      var f := Seen(Landed(r, p));
      SeeHeaderCounts(r.inbox, f.id);
      SeeBodyCounts(SeeHeader(r.inbox, f.id), f);
    }
  }

  /** Every packet is of exactly one kind, and the counters are the tallies: delivered ones are counted
      by their blocks; small, truncated and unknown ones as unknown; corrupt and foreign ones nowhere. */
  lemma {:induction false} DatagramAccounting(r: Receiver, ps: seq<Packet>)
    ensures var t, ks := TakeAll(r, ps), Kinds(r, ps);
      && Tally(ks, Foreign) + Tally(ks, Small) + Tally(ks, Corrupt) + Tally(ks, Truncated)
           + Tally(ks, Delivered) + Tally(ks, Unknown) == |ps|
      && TotalCount(t.inbox.blocks) == TotalCount(r.inbox.blocks) + Tally(ks, Delivered)
      && t.inbox.unknown == r.inbox.unknown + Tally(ks, Small) + Tally(ks, Truncated) + Tally(ks, Unknown)
      && t.connCount == r.connCount && t.scans == r.scans
    decreases |ps|
  {
    if ps != [] {
      TakeCounts(r, ps[0]);
      DatagramAccounting(Take(r, ps[0]), ps[1..]);
    }
    TallyTotal(Kinds(r, ps));
  }

  lemma AnyAlarmFirst(ks: seq<Kind>)
    requires ks != []
    ensures AnyAlarm(ks) <==> Alarming(ks[0]) || AnyAlarm(ks[1..])
  {
    assert ks == [ks[0]] + ks[1..];
    assert forall k :: k in ks <==> k == ks[0] || k in ks[1..];
  }

  lemma {:induction false} AlarmsTallied(ks: seq<Kind>)
    ensures AnyAlarm(ks) <==> Tally(ks, Small) + Tally(ks, Corrupt) + Tally(ks, Truncated) > 0
  {
    if ks != [] {
      AlarmsTallied(ks[1..]);
      AnyAlarmFirst(ks);
    }
  }

  /** The status is updated at a timeout, and once for a callback with a socket error or any small, corrupt
      or truncated packet; connections are counted at timeouts and errors. */
  lemma StatusUpdates(r: Receiver, w: Wakeup)
    ensures w.Timeout? ==> Woken(r, w) == r.(connCount := r.connCount + 1, scans := r.scans + 1)
    ensures w.Spurious? ==> Woken(r, w) == r
    ensures w.Readable? ==>
      var t, ks := Woken(r, w), Kinds(r, w.packets);
      && t.connCount == r.connCount + (if w.error then 1 else 0)
      && t.scans == r.scans +
           (if w.error || Tally(ks, Small) + Tally(ks, Corrupt) + Tally(ks, Truncated) > 0 then 1 else 0)
  {
    if w.Readable? {
      DatagramAccounting(r, w.packets);
      AlarmsTallied(Kinds(r, w.packets));
    }
  }

  // The scratch buffer.

  /** The length a packet declares, for one long enough to have a header. */
  function Declared(p: Packet): u32
    requires |p.bytes| >= HEADER_SIZE
  {
    HeaderLen(p.bytes)
  }

  lemma LandedHeader(r: Receiver, p: Packet)
    requires Fits(r, p) >= HEADER_SIZE
    ensures var s := Landed(r, p);
      Magic(s) == Magic(p.bytes) && HeaderId(s) == HeaderId(p.bytes) && HeaderLen(s) == HeaderLen(p.bytes)
  {
    var s := Landed(r, p);
    assert s[2..4] == p.bytes[2..4] && s[4..8] == p.bytes[4..8];
  }

  /** The kinds by the packet's bytes: who sent it, at least eight bytes of it and of room for it, 'P' and
      'S', the length in bytes 4 to 7 against the room, and the id in bytes 2 and 3. */
  lemma KindsByBytes(r: Receiver, p: Packet)
    ensures var b, room := p.bytes, |r.scratch|;
      Classify(r, p) ==
        if p.foreign then Foreign
        else if |b| < 8 || room < 8 then Small
        else if b[0] != 80 || b[1] != 83 then Corrupt
        else if FromBE(b[4..8]) > room - 8 then Truncated
        else if FromBE(b[2..4]) in r.inbox.blocks then Delivered
        else Unknown
  {
    if Fits(r, p) >= HEADER_SIZE {
      LandedHeader(r, p);
    }
  }

  /** A packet of the peer whose header declares a body within eight bytes of 2^32, so that the size of
      the message does not fit 32 bits. */
  predicate Overflows(p: Packet) {
    !p.foreign && |p.bytes| >= HEADER_SIZE && Magic(p.bytes) && Declared(p) >= 0xFFFF_FFF8
  }

  lemma SizeAfter(r: Receiver, p: Packet)
    requires |r.scratch| >= HEADER_SIZE
    ensures Classify(r, p) == Truncated ==> |p.bytes| >= HEADER_SIZE && |Take(r, p).scratch| == WantedSize(Declared(p))
    ensures Classify(r, p) != Truncated ==> |Take(r, p).scratch| == |r.scratch|
  {
    if Classify(r, p) == Truncated {
      LandedHeader(r, p);
    }
  }

  lemma TruncatedExactly(r: Receiver, p: Packet)
    requires |r.scratch| >= HEADER_SIZE
    ensures Classify(r, p) == Truncated <==>
      !p.foreign && |p.bytes| >= HEADER_SIZE && Magic(p.bytes) && Declared(p) > |r.scratch| - HEADER_SIZE
  {
    if |p.bytes| >= HEADER_SIZE {
      LandedHeader(r, p);
    }
  }

  /** The scratch shrinks exactly when such a packet comes in; it is then too short for any header. */
  lemma ShrinksOnOverflow(r: Receiver, p: Packet)
    requires HEADER_SIZE <= |r.scratch| < 0x1_0000_0000
    ensures var n := |Take(r, p).scratch|;
      && (n < |r.scratch| <==> Overflows(p)) && (n < |r.scratch| <==> n < HEADER_SIZE) && n < 0x1_0000_0000
  {
    TruncatedExactly(r, p);
    SizeAfter(r, p);
  }

  /** Eight bytes are enough: they take the first scratch buffer down to seven. */
  lemma EightBytesDeafen(r: Receiver, id: u16)
    requires |r.scratch| == FIRST_SCRATCH
    ensures var p := Packet(Header(id, 0xFFFF_FFFF), false);
      |p.bytes| == 8 && Overflows(p) && |Take(r, p).scratch| == 7
  {
    var p := Packet(Header(id, 0xFFFF_FFFF), false);
    assert p.bytes + [] == p.bytes;
    HeaderMeaning(id, 0xFFFF_FFFF, []);
    TruncatedExactly(r, p);
    SizeAfter(r, p);
  }

  /** With a scratch shorter than a header every packet of the peer counts as small, for good. */
  lemma {:induction false} ShortScratchIsDeaf(r: Receiver, ps: seq<Packet>)
    requires |r.scratch| < HEADER_SIZE
    ensures forall k | k in Kinds(r, ps) :: k == Small || k == Foreign
    ensures |TakeAll(r, ps).scratch| == |r.scratch| && TakeAll(r, ps).inbox.blocks == r.inbox.blocks
    decreases |ps|
  {
    if ps != [] {
      ShortScratchIsDeaf(Take(r, ps[0]), ps[1..]);
    }
  }

  /** Over any run the scratch shrinks exactly when some packet overflows, and then for good. */
  lemma {:induction false} ScratchNeverShrinks(r: Receiver, ps: seq<Packet>)
    requires HEADER_SIZE <= |r.scratch| < 0x1_0000_0000
    ensures var n := |TakeAll(r, ps).scratch|;
      && n < 0x1_0000_0000
      && (n < |r.scratch| <==> n < HEADER_SIZE)
      && (n < |r.scratch| <==> exists p :: p in ps && Overflows(p))
    decreases |ps|
  {
    if ps != [] {
      var t := Take(r, ps[0]);
      ShrinksOnOverflow(r, ps[0]);
      assert ps == [ps[0]] + ps[1..];
      if |t.scratch| < HEADER_SIZE {
        ShortScratchIsDeaf(t, ps[1..]);
      } else {
        ScratchNeverShrinks(t, ps[1..]);
      }
    }
  }

  /** Once a packet has been dropped as truncated, none that declares as much or less ever is again. */
  lemma LearnsTheLength(r: Receiver, p: Packet, later: seq<Packet>, q: Packet)
    requires HEADER_SIZE <= |r.scratch| < 0x1_0000_0000
    requires Classify(r, p) == Truncated
    requires |q.bytes| >= HEADER_SIZE && Declared(q) <= Declared(p)
    ensures Classify(TakeAll(Take(r, p), later), q) != Truncated
  {
    var t := Take(r, p);
    LandedHeader(r, p);
    if |t.scratch| < HEADER_SIZE {
      ShortScratchIsDeaf(t, later);
    } else {
      ScratchNeverShrinks(t, later);
    }
    NotTruncated(TakeAll(t, later), q);
  }

  lemma NotTruncated(r: Receiver, q: Packet)
    requires |q.bytes| >= HEADER_SIZE
    requires |r.scratch| < HEADER_SIZE || HEADER_SIZE + Declared(q) <= |r.scratch|
    ensures Classify(r, q) != Truncated
  {
    if Fits(r, q) >= HEADER_SIZE {
      LandedHeader(r, q);
    }
  }

  // Bodies.

  /** The declared length is checked against the buffer but not against the packet, so the body stored
      is the packet's own exactly when the packet is as long as it declares. */
  lemma BodyIsOwn(p: Packet, size: nat)
    requires |p.bytes| >= HEADER_SIZE && HEADER_SIZE + Declared(p) <= size
    ensures OwnBody(p, size) <==> HEADER_SIZE + Declared(p) <= |p.bytes|
  {
    var n, len := |p.bytes|, Declared(p);
    if HEADER_SIZE + len <= n {
      forall s: seq<byte> | |s| == size
        ensures StoredBody(p, s) == p.bytes[HEADER_SIZE..HEADER_SIZE + len]
      {
        OwnBytes(p, s);
      }
    } else {
      var a: seq<byte>, b: seq<byte> := seq(size, _ => 0), seq(size, _ => 1);
      OldBytes(p, a);
      OldBytes(p, b);
      assert StoredBody(p, a) != StoredBody(p, b);
    }
  }

  /** The body stored when `p` lands in scratch contents `s`. */
  function StoredBody(p: Packet, s: seq<byte>): seq<byte>
    requires |p.bytes| >= HEADER_SIZE && HEADER_SIZE + Declared(p) <= |s|
  {
    var r := Receiver(s, Inbox(map[], 0, []), 0, 0);
    LandedHeader(r, p);
    Seen(Landed(r, p)).body
  }

  /** It does not depend on what was in the scratch before. */
  ghost predicate OwnBody(p: Packet, size: nat)
    requires |p.bytes| >= HEADER_SIZE && HEADER_SIZE + Declared(p) <= size
  {
    forall a: seq<byte>, b: seq<byte> | |a| == size && |b| == size :: StoredBody(p, a) == StoredBody(p, b)
  }

  lemma OwnBytes(p: Packet, s: seq<byte>)
    requires HEADER_SIZE <= |p.bytes| && HEADER_SIZE + Declared(p) <= |s| && HEADER_SIZE + Declared(p) <= |p.bytes|
    ensures StoredBody(p, s) == p.bytes[HEADER_SIZE..HEADER_SIZE + Declared(p)]
  {
    var r := Receiver(s, Inbox(map[], 0, []), 0, 0);
    LandedHeader(r, p);
    var n := HEADER_SIZE + Declared(p);
    assert Landed(r, p)[..n] == p.bytes[..n];
    assert Landed(r, p)[HEADER_SIZE..n] == Landed(r, p)[..n][HEADER_SIZE..];
  }

  lemma OldBytes(p: Packet, s: seq<byte>)
    requires HEADER_SIZE <= |p.bytes| < HEADER_SIZE + Declared(p) <= |s|
    ensures |StoredBody(p, s)| == Declared(p)
    ensures StoredBody(p, s)[Declared(p) - 1] == s[HEADER_SIZE + Declared(p) - 1]
  {
    var r := Receiver(s, Inbox(map[], 0, []), 0, 0);
    LandedHeader(r, p);
  }

  // Runs of callbacks.

  function WokenAll(r: Receiver, ws: seq<Wakeup>): Receiver
    decreases |ws|
  {
    if ws == [] then r else WokenAll(Woken(r, ws[0]), ws[1..])
  }

  function PacketsOf(ws: seq<Wakeup>): seq<Packet> {
    if ws == [] then [] else (if ws[0].Readable? then ws[0].packets else []) + PacketsOf(ws[1..])
  }

  lemma {:induction false} TakeAllConcat(r: Receiver, x: seq<Packet>, y: seq<Packet>)
    ensures TakeAll(r, x + y) == TakeAll(TakeAll(r, x), y)
    decreases |x|
  {
    if x == [] {
      assert x + y == y;
    } else {
      assert (x + y)[1..] == x[1..] + y;
      TakeAllConcat(Take(r, x[0]), x[1..], y);
    }
  }

  lemma {:induction false} StatusDoesNotMatter(r: Receiver, c: nat, n: nat, ps: seq<Packet>)
    ensures TakeAll(r.(connCount := c, scans := n), ps) == TakeAll(r, ps).(connCount := c, scans := n)
    decreases |ps|
  {
    if ps != [] {
      DatagramAccounting(r, [ps[0]]);
      assert Take(r.(connCount := c, scans := n), ps[0]) == Take(r, ps[0]).(connCount := c, scans := n);
      StatusDoesNotMatter(Take(r, ps[0]), c, n, ps[1..]);
    }
  }

  /** How packets are spread over callbacks, timeouts and socket errors among them, makes no
      difference to blocks, counts and scratch. */
  lemma {:induction false} WakeupsDoNotMatter(r: Receiver, ws: seq<Wakeup>)
    ensures WokenAll(r, ws).inbox == TakeAll(r, PacketsOf(ws)).inbox
    ensures WokenAll(r, ws).scratch == TakeAll(r, PacketsOf(ws)).scratch
    decreases |ws|
  {
    if ws != [] {
      var t := Woken(r, ws[0]);
      WakeupsDoNotMatter(t, ws[1..]);
      var x, y := if ws[0].Readable? then ws[0].packets else [], PacketsOf(ws[1..]);
      TakeAllConcat(r, x, y);
      StatusDoesNotMatter(TakeAll(r, x), t.connCount, t.scans, y);
    }
  }

  // Whole messages.

  /** What may come in: whole messages of the peer, and packets of others. */
  datatype Arrival = Message(frame: Frame) | Noise(bytes: seq<byte>)

  function PacketOf(a: Arrival): Packet {
    match a
    case Message(f) => Packet(Encode(f), false)
    case Noise(bytes) => Packet(bytes, true)
  }

  function PacketsFor(xs: seq<Arrival>): seq<Packet> {
    if xs == [] then [] else [PacketOf(xs[0])] + PacketsFor(xs[1..])
  }

  function MessagesOf(xs: seq<Arrival>): seq<Frame> {
    if xs == [] then [] else (if xs[0].Message? then [xs[0].frame] else []) + MessagesOf(xs[1..])
  }

  lemma WholeMessage(r: Receiver, f: Frame)
    requires |Encode(f)| <= |r.scratch|
    ensures var t := Take(r, PacketOf(Message(f))); t.inbox == Deliver(r.inbox, f) && |t.scratch| == |r.scratch|
  {
    var p := PacketOf(Message(f));
    HeaderMeaning(f.id, |f.body|, f.body);
    LandedHeader(r, p);
    var s, n := Landed(r, p), HEADER_SIZE + |f.body|;
    assert s[..n] == Encode(f);
    assert s[HEADER_SIZE..n] == s[..n][HEADER_SIZE..] == f.body;
  }

  /** Packets that are whole messages and fit the scratch are delivered as exactly those messages,
      whatever others send in between. */
  lemma {:induction false} WholeMessages(r: Receiver, xs: seq<Arrival>)
    requires forall f | f in MessagesOf(xs) :: |Encode(f)| <= |r.scratch|
    ensures TakeAll(r, PacketsFor(xs)).inbox == DeliverAll(r.inbox, MessagesOf(xs))
    decreases |xs|
  {
    if xs != [] {
      var t, fs := Take(r, PacketOf(xs[0])), MessagesOf(xs[1..]);
      if xs[0].Message? {
        var f := xs[0].frame;
        assert f in [f] + fs;
        WholeMessage(r, f);
        assert ([f] + fs)[1..] == fs;
      } else {
        assert [] + fs == fs;
      }
      WholeMessages(t, xs[1..]);
    }
  }
}
