/** The stream driver as a state machine: what each of its operations does to its state. */
module DriverState {
  import opened Bytes
  import opened Frames
  import opened Inboxes

  /** The smallest high-water mark of the receive buffer. */
  const MIN_MAX_BUF_SIZE := 0x10_0000

  /** A live connection attempt or connection: bytes not yet taken out, bytes not yet on the wire,
      and the marks at which the driver is called and at which reading stops. */
  datatype Session = NoSession | Session(input: seq<byte>, output: seq<byte>, low: nat, high: nat)

  /** A send block: its scratch data, whether a message of it is queued, and how many ever were. */
  datatype SendBlock = SendBlock(data: Body, queued: bool, count: nat)

  /** What an observer records. `arrived`, `taken` and `wire` are about the current session: bytes
      that came in, bytes removed from the input buffer, bytes put on the wire. `heads`, `bodies`
      and `cut` count headers decoded, bodies completed, and headers whose body was cut off.
      `sent` lists the messages moved to sessions, to the current one from `since` on, and `queue`
      those in the send buffer; `moved` is every byte ever moved. `dropped` lists the messages thrown
      away by a flush that failed, and `stale` the blocks they have left marked. */
  datatype History = History(
    arrived: seq<byte>, taken: nat, heads: nat, bodies: nat, cut: nat,
    sent: seq<Frame>, since: nat, queue: seq<Frame>, moved: seq<byte>, wire: seq<byte>,
    dropped: seq<Frame>, stale: set<u16>)

  datatype Driver = Driver(
    session: Session, connected: bool, timer: bool, connCount: nat,
    haveHead: bool, header: u16, bodylen: u32, known: bool, need: nat,
    inbox: Inbox,
    send: map<u16, SendBlock>, sendbuf: seq<byte>,
    hist: History)

  const START_HISTORY := History([], 0, 0, 0, 0, [], 0, [], [], [], [], {})

  function NewDriver(): Driver {
    Driver(NoSession, false, false, 0, false, 0, 0, false, HEADER_SIZE, Inbox(map[], 0, []), map[], [], START_HISTORY)
  }

  // Receiving.

  /** The decoder's own consistency. */
  ghost predicate DecoderOk(d: Driver) {
    && (!d.haveHead ==> d.need == HEADER_SIZE && !d.known)
    && (d.haveHead ==> d.need == d.bodylen)
    && (d.known ==> d.header in d.inbox.blocks)
  }

  ghost predicate Receiving(d: Driver) {
    d.connected && d.session.Session? && DecoderOk(d)
  }

  /** Closes the session and arms the reconnect timer. */
  function StartReconnect(d: Driver): Driver
    requires d.session.Session?
  {
    d.(session := NoSession, connected := false, timer := true, hist := d.hist.(arrived := [], wire := []))
  }

  /** The input without its first `n` bytes. */
  function Consumed(d: Driver, n: nat): Driver
    requires d.session.Session? && n <= |d.session.input|
  {
    d.(session := d.session.(input := d.session.input[n..]), hist := d.hist.(taken := d.hist.taken + n))
  }

  function WithFields(d: Driver, id: u16, len: u32): Driver {
    d.(header := id, bodylen := len)
  }

  function BodyAwaited(d: Driver, known: bool): Driver {
    d.(haveHead := true, need := d.bodylen, known := known, hist := d.hist.(heads := d.hist.heads + 1))
  }

  /** A header awaiting its body. */
  function HeaderRead(d: Driver, id: u16, len: u32): Driver {
    BodyAwaited(WithFields(d, id, len), id in d.inbox.blocks)
  }

  function HeaderCounted(d: Driver): Driver {
    d.(inbox := SeeHeader(d.inbox, d.header))
  }

  function HeaderSeen(d: Driver, id: u16, len: u32): Driver {
    HeaderCounted(HeaderRead(d, id, len))
  }

  /** The block that awaits the body, if there is one, has it. */
  function BodyFilled(d: Driver, body: Body): Driver
    requires d.known ==> d.header in d.inbox.blocks
  {
    if d.known then d.(inbox := SeeBody(d.inbox, Frame(d.header, body))) else d
  }

  function BodyEnded(d: Driver): Driver {
    d.(haveHead := false, known := false, need := HEADER_SIZE, hist := d.hist.(bodies := d.hist.bodies + 1))
  }

  function BodySeen(d: Driver, body: Body): Driver
    requires d.known ==> d.header in d.inbox.blocks
  {
    BodyEnded(BodyFilled(d, body))
  }

  /** Takes a header off the input. */
  function TakeHeader(d: Driver): Driver
    requires d.session.Session? && |d.session.input| >= HEADER_SIZE
  {
    var h := d.session.input[..HEADER_SIZE];
    var t := Consumed(d, HEADER_SIZE);
    if Magic(h) then HeaderSeen(t, HeaderId(h), HeaderLen(h)) else StartReconnect(t)
  }

  /** Takes the announced body off the input. */
  function TakeBody(d: Driver): Driver
    requires d.session.Session? && |d.session.input| >= d.bodylen && DecoderOk(d)
  {
    BodySeen(Consumed(d, d.bodylen), d.session.input[..d.bodylen])
  }

  function HighMark(need: nat): nat {
    if need >= MIN_MAX_BUF_SIZE then need + 1 else MIN_MAX_BUF_SIZE
  }

  function SetMarks(d: Driver): Driver
    requires d.session.Session?
  {
    d.(session := d.session.(low := d.need, high := HighMark(d.need)))
  }

  /** One pass of the decode loop. */
  ghost function ReceiveStep(d: Driver): Driver
    requires Receiving(d) && |d.session.input| >= d.need
  {
    if d.haveHead then TakeBody(d) else TakeHeader(d)
  }

  /** What the loop still has to do: bytes, and a header whose body may be empty. */
  function Pending(d: Driver): nat {
    if d.session.Session? then 2 * |d.session.input| + (if d.haveHead then 1 else 0) else 0
  }

  /** The receive callback: decode as long as there are enough bytes for the next stage. */
  ghost function Receive(d: Driver): Driver
    requires Receiving(d)
    decreases Pending(d)
  {
    if |d.session.input| < d.need then SetMarks(d)
    else
      var t := ReceiveStep(d);
      if t.connected then Receive(t) else t
  }

  function Arrived(d: Driver, bytes: seq<byte>): Driver {
    if d.session.Session?
    then d.(session := d.session.(input := d.session.input + bytes),
            hist := d.hist.(arrived := d.hist.arrived + bytes))
    else d
  }

  /** The header that waits for its body, as bytes. */
  function PendingHeader(d: Driver): seq<byte> {
    if d.haveHead then Header(d.header, d.bodylen) else []
  }

  // Connecting.

  /** How setting up a connection goes. */
  datatype Setup = Started | LookupFailed | OutOfMemory

  function HeaderAwaited(d: Driver): Driver {
    d.(haveHead := false, known := false, need := HEADER_SIZE,
       hist := d.hist.(arrived := [], taken := 0, wire := [], since := |d.hist.sent|,
                       cut := d.hist.cut + if d.haveHead then 1 else 0))
  }

  /** Forgets everything about the previous session. */
  function Reset(d: Driver): Driver {
    WithFields(HeaderAwaited(d), 0, 0)
  }

  function Begin(d: Driver, how: Setup): Driver {
    match how
    case Started => d.(session := Session([], [], HEADER_SIZE, MIN_MAX_BUF_SIZE))
    case LookupFailed => d.(timer := true)
    case OutOfMemory => d
  }

  function Connect(d: Driver, how: Setup): Driver {
    Begin(Reset(d), how)
  }

  function Reconnect(d: Driver, how: Setup): Driver {
    Connect(d.(timer := false), how)
  }

  datatype ConnectionEvent = NowConnected | Failed | Other

  function EventCb(d: Driver, e: ConnectionEvent): Driver
    requires d.session.Session?
  {
    match e
    case NowConnected => d.(connected := true, connCount := d.connCount + 1)
    case Failed => StartReconnect(d)
    case Other => d
  }

  function ForceReconnect(d: Driver): Driver
    requires d.connected ==> d.session.Session?
  {
    if d.connected then StartReconnect(d) else d
  }

  /** The final shutdown; it leaves the connected flag alone. */
  function Stop(d: Driver): Driver {
    d.(session := NoSession, timer := false)
  }

  /** Shutdown frees the session of a connected driver only. */
  predicate Forgets(d: Driver) {
    d.session.Session? && !d.connected
  }

  // Sending.

  /** How queueing or flushing goes; all but the first two are exceptions. */
  datatype SendResult = Ignored | Done | AlreadyQueued | BufferFull | NoMemory

  function GetRecv(d: Driver, id: u16): Driver {
    if id in d.inbox.blocks then d else d.(inbox := d.inbox.(blocks := d.inbox.blocks[id := RecvBlock([], 0)]))
  }

  function GetSend(d: Driver, id: u16): Driver {
    if id in d.send then d else d.(send := d.send[id := SendBlock([], false, 0)])
  }

  /** Room left under the limit `max`; a limit that is not positive means no limit. */
  predicate HasRoom(buffered: nat, max: int) {
    max <= 0 || buffered < max
  }

  /** `memory` says whether the buffer could be expanded. */
  function QueueResult(d: Driver, id: u16, max: int, memory: bool): SendResult
    requires id in d.send
  {
    if !d.connected then Ignored
    else if d.send[id].queued then AlreadyQueued
    else if !HasRoom(|d.sendbuf|, max) then BufferFull
    else if !memory then NoMemory
    else Done
  }

  function WithBytes(d: Driver, id: u16, body: Body): Driver {
    d.(sendbuf := d.sendbuf + Encode(Frame(id, body)))
  }

  /** A block marked, and its message counted. */
  function WithMark(d: Driver, id: u16): Driver
    requires id in d.send
  {
    d.(send := d.send[id := d.send[id].(queued := true, count := d.send[id].count + 1)])
  }

  function WithNote(d: Driver, f: Frame): Driver {
    d.(hist := d.hist.(queue := d.hist.queue + [f]))
  }

  function Enqueued(d: Driver, id: u16, body: Body): Driver
    requires id in d.send
  {
    WithNote(WithMark(WithBytes(d, id, body), id), Frame(id, body))
  }

  function QueueBlock(d: Driver, id: u16, body: Body, max: int, memory: bool): Driver
    requires id in d.send
  {
    if QueueResult(d, id, max, memory) == Done then Enqueued(d, id, body) else d
  }

  function QueueSend(d: Driver, id: u16, body: Body, max: int, memory: bool): Driver {
    QueueBlock(GetSend(d, id), id, body, max, memory)
  }

  /** Queues a block's scratch data. */
  function SendScratch(d: Driver, id: u16, max: int, memory: bool): Driver {
    if id in d.send then QueueBlock(d, id, d.send[id].data, max, memory) else d
  }

  function WithData(d: Driver, id: u16, data: Body): Driver
    requires id in d.send
  {
    d.(send := d.send[id := d.send[id].(data := data)])
  }

  function ResizeScratch(d: Driver, id: u16, data: Body): Driver {
    WithData(GetSend(d, id), id, data)
  }

  function AllIdle(send: map<u16, SendBlock>): map<u16, SendBlock> {
    map id | id in send :: send[id].(queued := false)
  }

  /** `memory` says whether the session's buffer could take over the send buffer. */
  function FlushResult(d: Driver, max: int, memory: bool): SendResult
    requires d.connected ==> d.session.Session?
  {
    if !d.connected then Ignored
    else if !HasRoom(|d.session.output|, max) then BufferFull
    else if !memory then NoMemory
    else Done
  }

  function AllUnmarked(d: Driver): Driver {
    d.(send := AllIdle(d.send))
  }

  function HandedOver(d: Driver): Driver
    requires d.session.Session?
  {
    d.(session := d.session.(output := d.session.output + d.sendbuf), sendbuf := [],
       hist := d.hist.(sent := d.hist.sent + d.hist.queue, queue := [], moved := d.hist.moved + d.sendbuf, stale := {}))
  }

  /** The send queue moved to the session. */
  function Moved(d: Driver): Driver
    requires d.session.Session?
  {
    AllUnmarked(HandedOver(d))
  }

  function IdsOf(fs: seq<Frame>): set<u16> {
    set f | f in fs :: f.id
  }

  /** The send queue thrown away, its blocks still marked. */
  function ThrownAway(d: Driver): Driver {
    d.(sendbuf := [],
       hist := d.hist.(queue := [], dropped := d.hist.dropped + d.hist.queue, stale := d.hist.stale + IdsOf(d.hist.queue)))
  }

  /** Moves the send queue to the session. */
  function Flush(d: Driver, max: int, memory: bool): Driver
    requires d.connected ==> d.session.Session?
  {
    match FlushResult(d, max, memory)
    case Done => Moved(d)
    case NoMemory => ThrownAway(d)
    case _ => d
  }

  /** The network takes `n` bytes. */
  function Drain(d: Driver, n: nat): Driver
    requires d.session.Session? && n <= |d.session.output|
  {
    d.(session := d.session.(output := d.session.output[n..]),
       hist := d.hist.(wire := d.hist.wire + d.session.output[..n]))
  }

  // Runs.

  /** Everything that can happen to a driver between start-up and shutdown. */
  datatype Event =
    | TimerFires(how: Setup)
    | Connection(event: ConnectionEvent)
    | Incoming(bytes: seq<byte>)
    | Drained(n: nat)
    | Force
    | Queue(id: u16, body: Body, memory: bool)
    | QueueScratch(id: u16, memory: bool)
    | Scratch(id: u16, data: Body)
    | FlushQueue(memory: bool)
    | Interest(id: u16)

  /** The callbacks come only for a live session or an armed timer: a session reports its
      connection once, delivers bytes and takes bytes only while connected. */
  predicate Enabled(d: Driver, e: Event) {
    match e
    case TimerFires(_) => d.timer
    case Connection(NowConnected) => d.session.Session? && !d.connected
    case Connection(_) => d.session.Session?
    case Incoming(_) => d.session.Session? && d.connected
    case Drained(n) => d.session.Session? && d.connected && n <= |d.session.output|
    case _ => true
  }

  /** What the operations assert on entry. */
  ghost predicate Sound(d: Driver) {
    DecoderOk(d) && (d.connected ==> d.session.Session?)
  }

  ghost function Step(d: Driver, e: Event, max: int): Driver
    requires Sound(d) && Enabled(d, e)
  {
    match e
    case TimerFires(how) => Reconnect(d, how)
    case Connection(c) => EventCb(d, c)
    case Incoming(bytes) => Receive(Arrived(d, bytes))
    case Drained(n) => Drain(d, n)
    case Force => ForceReconnect(d)
    case Queue(id, body, memory) => QueueSend(d, id, body, max, memory)
    case QueueScratch(id, memory) => SendScratch(d, id, max, memory)
    case Scratch(id, data) => ResizeScratch(d, id, data)
    case FlushQueue(memory) => Flush(d, max, memory)
    case Interest(id) => GetRecv(d, id)
  }

  ghost predicate EnabledRun(d: Driver, es: seq<Event>, max: int)
    decreases |es|
  {
    es == [] || (Sound(d) && Enabled(d, es[0]) && EnabledRun(Step(d, es[0], max), es[1..], max))
  }

  ghost function Run(d: Driver, es: seq<Event>, max: int): Driver
    requires EnabledRun(d, es, max)
    decreases |es|
  {
    if es == [] then d else Run(Step(d, es[0], max), es[1..], max)
  }
}
