# Verified model of the PSC driver and the ramp-table controller

An accelerator's power supplies are driven by small controllers (PSCs) that speak a framed message
protocol over TCP or UDP. This project models, in Dafny, the parts of the driver whose correctness
spans many functions or whole runs, and proves what they are for.

* **The ramp-table controller** (`RampCheck`, `Transient`, `Packing`, `TableController`, `RampSafety`,
  `PlayedTables`, `StartPoint`, `SafeRuns`, `DeviceTrace`, `TableSending`, `JointRuns`, `JointWire`, `JointPlans`,
  `JointSafety`). A new voltage table is checked on its own and against the table played before it; where
  the two do not join, a quintic transient is put between them; what is accepted is packed into 20-bit
  words and sent. The main claim is about everything the device plays: range, step and bend limits hold
  over the whole trace, including junctions no single check looks at, and hold for the decoded bytes up to
  the quantisation. It is stated twice. For the controller alone the trace is what the driver has taken,
  however the updates fare. For controller and driver run together, connection losses included, it is what
  has gone out completely on the wire, session after session, and the driver decides how the updates fare.
  Both come with the exact rules under which they are true, each with a run that breaks the claim, for
  every table length, when that rule is dropped.
* **The stream driver** (`Frames`, `Inboxes`, `DriverState`, `StreamDecoding`, `DriverSteps`, `QueueLaws`, `Psc`,
  `DriverRuns`, `PscRuns`, `Requests`). An incremental decoder, a connect and reconnect machine and a send queue. The driver is a
  class with mutable blocks whose methods are tied to a state machine on values; over that machine, any
  splitting of a byte stream into arrivals is shown to be the recursive parse of the stream, and
  conservation, accounting and liveness of the connection hold after every run; what is sent is what the
  events asked for, with the bodies they gave. In every reachable state
  every callback finds its assertions true, so that the object follows the machine whatever happens.
* **The device's codec** (`DeviceCodec`, `DeviceSocket`, `DeviceRuns`), independent C code with blocking
  loops over partial transfers, and its agreement with the driver in both directions (`EndToEnd`).
* **The datagram driver** (`Datagrams`, `PscUdp`) and its agreement with the stream driver
  (`ReceiversAgree`).
* **Data transforms**: byte order (`Sequences`, `Bytes`, `NetworkOrder`), masked registers (`RegisterMasks`,
  `Registers`), strided waveforms (`Waveform`) and the moving average (`MovingAverage`).

Samples are real numbers, counts are natural numbers relative to their value at creation (the source
leaves them uninitialised, `coreApp/src/pscbase.cpp:29`), and ids, lengths and masks have their 16 and
32 bits. The environment (network, timers, other threads) is a list of events; each callback is one step.

## What turned out differently

* A transient that leaves the old table at its first point is covered by no check on the bend there, an
  immediate update may jump, a table of another length is checked against a truncated or padded one, a
  table sent while disconnected is remembered as played although nothing was sent, and one whose sending
  ends in an exception behind a payload has been taken but is not remembered. `SafeRuns.SafeExactly` says
  that what the driver takes is safe exactly when none of these five happens. For what goes out there is a
  sixth: a session that closes takes along what it has not put on the wire, and the lost table is still
  remembered as played. `JointSafety.JointlySafeExactly` has the six rules, and says for each limit on the
  driver's buffers which of them are needed: without a limit nothing is ever cut short, and under one of
  43448 bytes or less no transient is ever delivered with its target.
* The trailer of a packed table overwrites the last sample of one of the full 10860 points
  (`DeviceTrace.SamplesSurvive`).
* The progress assertion at `coreApp/src/psc.cpp:353` counts bytes only and fails exactly when a message with
  an empty body is completed (`StreamDecoding.EmptyBodiesStall`, `StreamDecoding.OneEmptyBodyStalls`). The model
  reports whether it held and proves termination with a measure that also counts a pending header. The
  other assertions of connection and decoder hold in every reachable state (`DriverRuns.AssertionsHold`).
* A flush that fails for lack of memory throws the queued messages away and leaves their blocks marked:
  each of them is refused, whatever happens then, until a flush succeeds
  (`DriverRuns.ThrownAwayBlocksRefused`). Marks are exact precisely when no block is left like that
  (`DriverRuns.MarksExact`).
* Shutdown leaves the connected flag set and forgets a session that is still connecting without freeing
  it (`DriverRuns.StopIsFinal`).
* `documentation/processing.rst:72` says several messages of one id may be queued; `coreApp/src/psc.cpp:60` refuses the
  second one, and `DriverRuns.SendConservation` proves that there is never more than one.
* `targetApp/pscmsg.h:85` promises the actual message length; `targetApp/pscmsg.c:178` returns the truncated one. The
  model follows the code.
* A failing piece inside `psc_recvskip` does not end the skip: what was left is then asked for at once, which
  is always more than its array of 128 bytes holds (`DeviceCodec.LastRequestMeaning`). It overruns the array
  exactly when more than 128 bytes arrive after all (`DeviceCodec.RecvSkipMeaning`), as it always does when
  such a skip reports success (`DeviceCodec.SuccessAfterFailure`; `DeviceCodec.SkipCanOverrun` has an input).
* The datagram driver computes its new buffer size in 32 bits: a packet of the peer that declares a length
  within eight of 2^32 shrinks the buffer below a header, after which every packet counts as small
  (`Datagrams.ScratchNeverShrinks`, `Datagrams.EightBytesDeafen`, `Datagrams.ShortScratchIsDeaf`). It does not
  compare the declared length with the packet's own (`Datagrams.BodyIsOwn`).
* The eight byte swap exchanges the halves on a big-endian host (`NetworkOrder.EightBytesRight`,
  `NetworkOrder.HtonMeaning`).
* A waveform read goes past the end of its block when the block does not end with a whole element
  (`Waveform.InsideTheBlock`, `Waveform.WholeElementsOnly`, `Waveform.OverRead`).
* The moving average's windows are centred exactly when the full window is no longer than the waveform
  (`MovingAverage.WindowsCentred`).

## Model

| member | source | states |
|---|---|---|
| RampCheck.CheckRampFunction | pscApp/src/psctbl.cpp:404-471 | the loop returns the verdict of the specification scan on the table closed with the next one's first two points |
| RampCheck.CheckMeaning | pscApp/src/psctbl.cpp:385-471 | zero exactly when range, step and bend hold at every point; otherwise the code of the earliest fault, of which there is one |
| RampCheck.ZeroMeans | pscApp/src/psctbl.cpp:404-471 | in plain inequalities: zero exactly when every point is from 0 V, or -10 V if bipolar, to 9.9999 V, and each step and bend within its limit, up to the first two points of the next table |
| RampCheck.CodesMean | pscApp/src/psctbl.cpp:420-467 | the numbers: 1 for a point out of range, 2 for a step and -1 at the last point, 3 for a bend, -2 at the last point but one and -3 at the last, whichever point comes first |
| RampCheck.ConstantTable | pscApp/src/psctbl.cpp:423-428 | a constant table of any length follows itself exactly when its value is in range, with 1 otherwise |
| RampCheck.NegativeMeaning | pscApp/src/psctbl.cpp:430-467 | negative exactly when the earliest fault is the closing step or a bend at one of the last two points |
| RampCheck.SelfCheckedJunction | pscApp/src/psctbl.cpp:551-566 | after a table that closes well on itself, the join to any table can only be faulted negatively |
| RampCheck.InnerFault | pscApp/src/psctbl.cpp:551-566 | a fault strictly inside the old table makes every verdict positive |
| Transient.OneSolution | pscApp/src/psctbl.cpp:295-314 | the six equations have exactly one solution whenever the two ends differ |
| Transient.LuSolve | pscApp/src/psctbl.cpp:306-314 | the library solve, by its contract: the returned coefficients meet all six equations |
| Transient.StraightLine | pscApp/src/psctbl.cpp:295-328 | with both ends on one straight line the solution is that line |
| Transient.Splice | pscApp/src/psctbl.cpp:319-328 | the copy and the overwriting loop give the old table before the start point and the polynomial from it on |
| Transient.ComputeTransient | pscApp/src/psctbl.cpp:269-334 | the computed table is the one the unique solution defines |
| Transient.TransientMeets | pscApp/src/psctbl.cpp:284-328 | it equals the old table up to and including the start point, leaves with its slope, arrives with the new table's value and slope, and has no bend at either end |
| Packing.Pack | pscApp/src/psctbl.cpp:349-383 | the two fill loops and the markers leave exactly the packed table in the buffer |
| Packing.PackMarked | pscApp/src/psctbl.cpp:622-653 | the bytes handed to the queue: packed table with its mode byte |
| Packing.CodeBounds | pscApp/src/psctbl.cpp:361-363 | a sample in range has a 20-bit code within half a step of it |
| Packing.CodeInSteps | pscApp/src/psctbl.cpp:351-363 | 2^20 - 1 steps for ten volts of a unipolar supply or twenty of a bipolar one, to the nearest step |
| Packing.VoltsInBytes | pscApp/src/psctbl.cpp:349-383 | the bytes of a payload for a table in range: marker, mode byte and zeros in front, the steps of every point big-endian behind, the last point repeated, four bytes of ones at 43436 |
| Packing.NothingPacked | pscApp/src/psctbl.cpp:353-373 | an empty table gives zeros between the markers |
| Packing.ClearingRestores | pscApp/src/psctbl.cpp:375-380 | marker and mode byte overwrite zeros only, so clearing them restores all words before the trailer |
| Packing.PackingRoundTrip | pscApp/src/psctbl.cpp:349-383 | every sample is decoded within half a step, later words repeat the last code, the trailer is all ones |
| TableController.Controller.SetMode | pscApp/src/psctbl.cpp:168-200 | a mode from 0 to 2 is taken over, any other raises an alarm and changes nothing |
| TableController.Controller.SetMaxDelta1 | pscApp/src/psctbl.cpp:202-223 | a step limit that is not negative is taken over, a negative one raises an alarm and changes nothing |
| TableController.Controller.SetMaxDelta2 | pscApp/src/psctbl.cpp:225-245 | the same for the bend limit |
| TableController.Controller.SetStartPoint | pscApp/src/psctbl.cpp:247-267 | the same for the start point |
| TableController.ModesByNumber | pscApp/src/psctbl.cpp:168-200 | mode 0 sends what is faulted only at the join, 1 sends what joins or tries a transient, 2 holds the table |
| TableController.Controller.CalcTransientTable | pscApp/src/psctbl.cpp:269-334 | only the transient is replaced, by the one between the remembered and the new table |
| TableController.Controller.UpdateTarget | pscApp/src/psctbl.cpp:473-668 | the whole new state and severity of an update, declined, held, sent, or cut off by an exception of the driver; what is queued stays the packed history, as far as the driver took it |
| TableController.PolarityBit | pscApp/src/psctbl.cpp:476-516 | the supply is unipolar exactly when byte 41 of the registers is odd |
| TableController.WrongTablesDeclined | pscApp/src/psctbl.cpp:473-547 | a table is declined as wrong, with that alarm, exactly when it breaks a bound of its polarity, step or bend as it repeats |
| TableController.PolarityDecides | pscApp/src/psctbl.cpp:515-547 | with byte 41 odd every table with a negative sample is declined as wrong; with it even no constant one from -10 V to 9.9999 V is |
| TableController.Outcomes | pscApp/src/psctbl.cpp:498-661 | alarm bits, severity, payloads recorded and table remembered for each outcome |
| TableController.NoRegisters | pscApp/src/psctbl.cpp:502-512 | without 44 bytes of registers nothing changes but the alarm |
| TableController.Controller.CarryOut | pscApp/src/psctbl.cpp:551-616 | the outcome by mode and verdict, with exactly the alarm bits of the branch taken |
| TableController.Controller.InsertTransient | pscApp/src/psctbl.cpp:576-600 | the transient replaces the old one, and is sent with its target or declines the update |
| TableController.Controller.SendTables | pscApp/src/psctbl.cpp:618-666 | the queue grows by as many of the payloads as the driver takes; the target becomes the remembered table unless an exception comes first |
| TableController.PackTables | pscApp/src/psctbl.cpp:625-656 | transient marked 2 before target marked 1, or target marked 0 |
| TableController.PacketsCarry | pscApp/src/psctbl.cpp:622-653 | byte 4 is 2 for a transient, 1 for the target behind it, 0 for a table on its own, and the payload carries the voltages of that table |
| TableController.ResizeAt | pscApp/src/psctbl.cpp:527-529 | a table of another length keeps what fits and is filled up with zeros |
| RampSafety.SafeConcat | pscApp/src/psctbl.cpp:385-395 | two safe tables with a safe four-point junction are safe in a row |
| RampSafety.CheckedJunction | pscApp/src/psctbl.cpp:404-471 | a verdict of zero makes the junction safe under any looser limits |
| RampSafety.LinkIsSafe | pscApp/src/psctbl.cpp:551-662 | one accepted update, its target repeated at will, keeps a safe trace safe, transient included |
| RampSafety.JunctionExact | pscApp/src/psctbl.cpp:404-471 | of two tables that close on themselves one may follow the other safely exactly when the verdict is zero |
| RampSafety.ImmediateExact | pscApp/src/psctbl.cpp:551-573 | a table that goes out alone keeps a safe trace safe exactly when that verdict was zero, whatever the mode makes of it |
| RampSafety.EarlyTransientExact | pscApp/src/psctbl.cpp:551-661 | an update whose transient starts at point 0 keeps a safe trace safe exactly when the transient does not bend too sharply where it sets out |
| RampSafety.ApplyTracked | pscApp/src/psctbl.cpp:473-668 | every handler keeps the remembered table the last one that was not refused at once, and the history linked |
| RampSafety.WholeRunSafety | pscApp/src/psctbl.cpp:404-666 | after any run that obeys the rules, in any mode, everything played is within range, step and bend limits, across every junction |
| PlayedTables.PrefixSafety | pscApp/src/psctbl.cpp:404-666 | the same for the first so many of the tables, as they come |
| SafeRuns.SafeExactly | pscApp/src/psctbl.cpp:473-668 | for every table length, all runs are safe exactly when no transient starts at point 0, no immediate update jumps, lengths stay, and no update is sent unconnected or cut short |
| SafeRuns.JumpPlan | pscApp/src/psctbl.cpp:551-573 | two updates in immediate mode, the second one two volts away |
| SafeRuns.ResizePlan | pscApp/src/psctbl.cpp:527-529 | a table of another length, checked against one that does not end as the one played did |
| SafeRuns.SilentPlan | coreApp/src/psc.cpp:57-58 | a table sent without a connection, and one that follows from it |
| SafeRuns.CutPlan | pscApp/src/psctbl.cpp:639-661 | a table queued before the exception, and one that follows from the table before it |
| StartPoint.UnluckyTables | pscApp/src/psctbl.cpp:551-599 | for every length from three on, two tables and their transient that pass all checks and are sharp where the transient begins |
| DeviceTrace.HeardPrefix | pscApp/src/psctbl.cpp:349-383 | of any table the samples read come back, all but the last one of a full buffer |
| DeviceTrace.SamplesSurvive | pscApp/src/psctbl.cpp:349-383 | all samples survive packing exactly when the table does not fill the buffer |
| DeviceTrace.BytesAreSafe | pscApp/src/psctbl.cpp:527-661 | the bytes of a run, as many payloads as have come, decode to a trace within half a code step of a safe one, steps within one and bends within two code steps of the limits |
| DeviceTrace.TablesAreSafe | pscApp/src/psctbl.cpp:527-661 | and so each table by itself, the full ones included but for their last point |
| TableSending.SendPayload | pscApp/src/psctbl.cpp:639-640 | one payload is queued and flushed: new state of the driver, whether it was taken, whether an exception came |
| TableSending.SendPayloads | pscApp/src/psctbl.cpp:639-656 | all payloads one after the other, until an exception |
| TableSending.AllPayloadsGoOut | pscApp/src/psctbl.cpp:639-656 | on a live connection all payloads reach the session in order exactly when their block is idle and both buffers have room; otherwise an exception ends the sending |
| TableSending.AcceptsCounted | pscApp/src/psctbl.cpp:639-656 | what the driver accepts is the first so many payloads, exactly as counted |
| TableSending.FateMeaning | pscApp/src/psctbl.cpp:639-656 | silent exactly without a connection, delivered exactly when unobstructed, refused at once exactly with a waiting block or a full buffer, cut short otherwise |
| TableSending.UpdateGoesOut | pscApp/src/psctbl.cpp:618-661 | for an accepted update: idle block, room in the send buffer, and room at the session behind the transient |
| TableSending.DisconnectedSendIsSilent | coreApp/src/psc.cpp:57-58 | without a connection sending neither sends nor reports anything |
| JointRuns.SendingIsRun | pscApp/src/psctbl.cpp:639-656 | sending an update is a run of the driver |
| JointRuns.JointHistory | pscApp/src/psctbl.cpp:473-668 | in every run of controller and driver together the messages accepted on the table's block are exactly the payloads in the controller's history |
| JointWire.GoneOut | coreApp/src/psc.cpp:94-199 | the messages of that block that have gone out whole, over all sessions, are the payloads of the history with the numbers an observer notes |
| JointWire.NothingLost | coreApp/src/psc.cpp:184-199 | while no session closes on an unfinished payload those are the first so many |
| JointSafety.ToleratedExactly | pscApp/src/psctbl.cpp:639-661 | an update fares as the rules ask exactly with a connection and either no obstacle or one that stops its first payload |
| JointPlans.LossyMoves | coreApp/src/psc.cpp:184-199 | two updates delivered, of which only the second goes out because the first session closes before |
| JointSafety.JointlySafeExactly | pscApp/src/psctbl.cpp:473-668 | for every table length and buffer limit, what goes out of both together is safe exactly under the rules that the limit calls for, loss with a session among them |
| JointSafety.JointBytesAreSafe | pscApp/src/psctbl.cpp:473-668 | and what the device decodes from the messages that have gone out is safe up to the quantisation |
| JointSafety.JointTablesAreSafe | pscApp/src/psctbl.cpp:473-668 | table by table also for full ones, but for their last point |
| RampSafety.NeverUnexplainable | pscApp/src/psctbl.cpp:534-566 | while limits, polarity and length stay, no update is declined as unexplainable |
| RampSafety.NeverUnexplainableFromStart | pscApp/src/psctbl.cpp:606-614 | so from start-up that alarm is unreachable |
| RampSafety.LockedOut | pscApp/src/psctbl.cpp:534-614 | once the remembered table has an inner fault under tightened limits, nothing is accepted and it stays until they are relaxed |
| RampSafety.UpdateLockedOut | pscApp/src/psctbl.cpp:534-614 | each update sent meanwhile is declined |
| Frames.ParseEncoded | coreApp/src/psc.cpp:63-80 | encoded messages are read back exactly, whatever follows them |
| Frames.HeaderBytes | coreApp/src/psc.cpp:63-68 | a header is 'P', 'S', two bytes of id and four of length, most significant first |
| Frames.ParseExact | coreApp/src/psc.cpp:279-356 | the parsed messages and the tail are the stream again |
| Frames.EncodingUnique | coreApp/src/psc.cpp:63-80 | different lists of messages have different encodings |
| Inboxes.DeliverAllMeaning | coreApp/src/psc.cpp:303-345 | delivering a list logs the wanted messages in order, leaves each block its last body and count, counts the rest as unknown |
| Inboxes.SeeHeaderCounts | coreApp/src/psc.cpp:303-315 | each header raises exactly one counter by one |
| Psc.Block.constructor | coreApp/src/pscbase.cpp:29-37 | a new block is empty and not queued |
| Psc.PSC.constructor | coreApp/src/pscbase.cpp:40-61 | a new driver has no session, no blocks and an empty send buffer |
| Psc.PSC.GetSend | coreApp/src/pscbase.cpp:68-76 | returns the one block of this id, creating it if there is none |
| Psc.PSC.GetRecv | coreApp/src/pscbase.cpp:78-86 | the same for receive blocks |
| Psc.PSC.Send | coreApp/src/pscbase.cpp:88-97 | queues the scratch data of an existing block, nothing otherwise; new state and result |
| Requests.ScratchQueued | coreApp/src/pscbase.cpp:88-97 | with a connection, room, memory and an idle block the send buffer grows by exactly header and scratch data, the block is marked and counted; otherwise nothing changes |
| Requests.MessageQueued | coreApp/src/psc.cpp:55-91 | the same for a message with a body of its own |
| Psc.PSC.SetSendBlockSize | coreApp/src/pscbase.cpp:146-162 | resizes a block's scratch data, keeping what fits and adding zeros |
| Psc.PSC.QueueSend | coreApp/src/pscbase.cpp:99-104 | queues a message for the block of this id; new state and result |
| Psc.PSC.QueueBlock | coreApp/src/psc.cpp:55-91 | ignored, refused as queued, as too much or for lack of memory, or appended with mark and count: the whole new state and the result |
| DriverSteps.QueueResults | coreApp/src/psc.cpp:57-75 | why a message is not queued, in the order of the tests |
| Psc.PSC.Enqueue | coreApp/src/psc.cpp:63-86 | appends header and body, marks the block and counts |
| Psc.PSC.FlushSend | coreApp/src/psc.cpp:94-118 | moves the whole send buffer to the session and clears every mark; without a connection or over the limit changes nothing, and for lack of memory throws the buffer away |
| DriverSteps.FlushOutcomes | coreApp/src/psc.cpp:94-118 | what a flush does to bytes and marks, by connection, room and memory |
| Psc.ClearQueued | coreApp/src/psc.cpp:113-117 | the loop clears every mark and touches nothing else |
| Psc.PSC.ForceReconnect | coreApp/src/psc.cpp:120-127 | closes a live connection, nothing otherwise |
| DriverSteps.ForcedToClose | coreApp/src/psc.cpp:120-127 | exactly a connected driver is closed, with nothing else touched |
| Psc.PSC.Connect | coreApp/src/psc.cpp:129-182 | forgets the decoder state, then a session, the timer or an exception |
| DriverSteps.AttemptBegins | coreApp/src/psc.cpp:129-210 | an attempt awaits a header of eight bytes whatever came before, with session, timer or neither; the send side is untouched |
| Psc.PSC.StartReconnect | coreApp/src/psc.cpp:184-199 | closes the session and arms the timer |
| Psc.PSC.Reconnect | coreApp/src/psc.cpp:201-210 | a new attempt; without an exception there is a session or a timer, as asserted |
| Psc.PSC.EventCb | coreApp/src/psc.cpp:230-268 | connected, failed or other: the whole new state |
| DriverSteps.SessionEvents | coreApp/src/psc.cpp:230-268 | a connection is counted, a failure closes and arms the timer, other events change nothing |
| Psc.PSC.Stop | coreApp/src/psc.cpp:212-228 | session and timer gone, the connected flag as it was |
| Psc.PSC.DecodeHeader | coreApp/src/psc.cpp:283-321 | takes a header, counts it, or ends the connection at a bad one |
| Psc.PSC.DecodeBody | coreApp/src/psc.cpp:323-350 | takes the announced body and delivers it if its block is registered |
| DriverSteps.HeaderDecides | coreApp/src/psc.cpp:283-321 | a header is counted with the block of its id at that time, or among the unknown, and that block or none is to have the body |
| DriverSteps.BodyGoesThere | coreApp/src/psc.cpp:323-350 | the body goes to the block found at its header, and nowhere if there was none |
| DriverSteps.BadHeaderCloses | coreApp/src/psc.cpp:290-299 | anything else in place of a header closes the session and touches nothing else |
| Psc.PSC.RecvData | coreApp/src/psc.cpp:270-362 | the loop terminates in the state of the specification's decoder, marks set, and reports whether every pass left fewer bytes |
| StreamDecoding.ReceiveSettles | coreApp/src/psc.cpp:356-361 | afterwards too little is buffered for the next stage and the marks say how much is awaited, or the session is closed |
| DriverSteps.MarksInBytes | coreApp/src/psc.cpp:356-361 | the marks in bytes: eight or the body length, and a mebibyte or one byte past what is awaited |
| StreamDecoding.ChunkIndependence | coreApp/src/psc.cpp:270-362 | however a stream is split into arrivals, the final state is that of one arrival |
| StreamDecoding.ReceiveIsParse | coreApp/src/psc.cpp:270-362 | from a message boundary the decoder does what the recursive parse says |
| StreamDecoding.StreamMeaning | coreApp/src/psc.cpp:270-362 | both together: deliveries, blocks, counters, rest and framing error are those of the parse |
| StreamDecoding.EmptyBodiesStall | coreApp/src/psc.cpp:352-353 | from any state, also in the middle of a message, the progress assertion holds exactly when no completed message has an empty body |
| StreamDecoding.OneEmptyBodyStalls | coreApp/src/psc.cpp:352-353 | one message with an empty body makes it fail |
| DriverRuns.StepInvariant | coreApp/src/psc.cpp:55-362 | every enabled event keeps the invariant of decoder, queue, wire and connection |
| DriverRuns.AssertionsHold | coreApp/src/psc.cpp:132-354 | in every reachable state each callback that may come finds the assertions of lines 132-134, 189, 204-205, 209, 272 and 284 true |
| DriverRuns.EveryRunGoesOn | coreApp/src/psc.cpp:201-362 | and any event that may come extends the run |
| PscRuns.Handle | coreApp/src/psc.cpp:55-362 | whatever event comes in a reachable state, the object takes the step of the machine and stays reachable |
| PscRuns.HandleAll | coreApp/src/psc.cpp:55-362 | and so over whole runs |
| DriverRuns.SendConservation | coreApp/src/psc.cpp:55-118 | bytes moved then send buffer are the accepted messages in order; a block is marked exactly when its one message is in the buffer or was thrown away; counts are accepted messages |
| Requests.SentAsAsked | coreApp/src/psc.cpp:55-118 | after every run send buffer and wire hold exactly the messages that its events asked for and the driver took, each with the body asked for or the scratch last written for its block |
| Requests.HistoryAgrees | coreApp/src/psc.cpp:55-210 | so the lists an observer keeps are those told from the events, session by session |
| DriverRuns.MarksExact | coreApp/src/psc.cpp:94-118 | all marks are right exactly when no thrown away message has left one behind |
| DriverRuns.NothingThrownAway | coreApp/src/psc.cpp:108-111 | while flushes find memory there are none |
| DriverRuns.ThrownAwayBlocksRefused | coreApp/src/psc.cpp:108-117 | after a failed flush, over any run in which none succeeds, its blocks stay marked without a message and are refused; one that succeeds clears them |
| DriverRuns.SendBufferBound | coreApp/src/psc.cpp:70-80 | the buffer stays below limit plus header plus largest body |
| DriverRuns.QueueSurvivesReconnect | coreApp/src/psc.cpp:187-210 | closing and reconnecting leave buffer and marks alone |
| DriverRuns.WirePrefix | coreApp/src/psc.cpp:94-118 | what is on the wire, then what the session still holds, are the messages flushed to this session in order |
| DriverRuns.ReceiveAccounting | coreApp/src/psc.cpp:270-362 | counts are headers, headers are bodies completed, cut off or pending; a connected reader is never starved |
| DriverRuns.NothingCrossesSessions | coreApp/src/psc.cpp:136-140 | the decoder of a connected driver stands where the parse of this session's bytes ends |
| DriverRuns.SessionOrTimer | coreApp/src/psc.cpp:129-268 | never both, connected implies a session, and one of them exactly when no session failed to be allocated |
| DriverRuns.ConnectionCount | coreApp/src/psc.cpp:232-238 | the connection counter counts the connected episodes |
| DriverRuns.StopIsFinal | coreApp/src/psc.cpp:212-228 | after shutdown no callback comes any more; a session is forgotten exactly when it was still connecting, and a flush or forced reconnect breaks its assertion exactly when there was a connection |
| DeviceSocket.Socket.SendAll | targetApp/pscmsg.c:36-52 | the loop sends the buffer or stops at the first failing call, as specified |
| DeviceSocket.Socket.RecvAll | targetApp/pscmsg.c:54-70 | the loop fills the buffer from its offset or stops at the first failing call, other bytes untouched; it overruns exactly when more arrives than fits |
| DeviceSocket.Socket.RecvSkip | targetApp/pscmsg.c:72-81 | pieces of 128 into an array of 128, and one last receive of what is left even after a failing piece, overruns included |
| DeviceSocket.Socket.SendHead | targetApp/pscmsg.c:83-95 | sends the header |
| DeviceSocket.Socket.SendMsg | targetApp/pscmsg.c:97-110 | header, then body unless the header failed |
| DeviceSocket.Socket.SendMsgSingle | targetApp/pscmsg.c:112-132 | header of four more, register address, body, stopping at the first error |
| DeviceSocket.Socket.RecvHead | targetApp/pscmsg.c:134-152 | id and length of a header, or an error that leaves the out-parameters alone |
| DeviceSocket.Socket.RecvMsg | targetApp/pscmsg.c:154-181 | id, kept length and body, the rest skipped; an early error leaves the out-parameters alone |
| DeviceCodec.SendAllMeaning | targetApp/pscmsg.c:36-52 | success puts exactly the buffer on the wire, failure a proper part of it |
| DeviceCodec.RecvAllMeaning | targetApp/pscmsg.c:54-70 | success takes exactly the next bytes, failure fewer |
| DeviceCodec.SendAllError | targetApp/pscmsg.c:41-47 | the error is that of the first call that moved nothing, or that the connection is closed |
| DeviceCodec.RecvAllError | targetApp/pscmsg.c:59-65 | the same for a receive |
| DeviceCodec.LastRequestMeaning | targetApp/pscmsg.c:72-81 | the last receive asks for more than 128 bytes exactly when a piece failed |
| DeviceCodec.RecvSkipMeaning | targetApp/pscmsg.c:72-81 | a skip overruns exactly when a piece fails and more than 128 bytes arrive after all; one that does not succeeds exactly when no call failed, having taken exactly its bytes |
| DeviceCodec.SuccessAfterFailure | targetApp/pscmsg.c:72-81 | success after a failing piece is always an overrun |
| DeviceCodec.SkipCanOverrun | targetApp/pscmsg.c:72-81 | a skip of 200 whose last receive puts 200 bytes into 128 |
| DeviceCodec.SendMsgMeaning | targetApp/pscmsg.c:97-110 | success puts the encoded message on the wire, failure a proper part of it |
| DeviceCodec.SendMsgSingleMeaning | targetApp/pscmsg.c:112-132 | the message with the address before its body, exactly while the length field does not overflow |
| DeviceCodec.RecvMsgMeaning | targetApp/pscmsg.c:154-181 | a receive that stays in its arrays and reports success takes exactly one encoded message and yields its id and as much of its body as fits |
| DeviceCodec.OutParameters | targetApp/pscmsg.c:154-181 | what any receive leaves in its out-parameters and its buffer, by the bytes it has taken |
| DeviceCodec.HeadParameters | targetApp/pscmsg.c:134-152 | id and length of a good header, or the out-parameters as they were |
| DeviceCodec.BadMagic | targetApp/pscmsg.c:145-146 | eight bytes that are no header are taken and reported |
| DeviceRuns.TruncationKeepsSync | targetApp/pscmsg.c:154-181 | with buffers of any sizes and any partial reads, each call reporting success, each message comes back truncated to its buffer and exactly the messages are taken |
| DeviceRuns.NoFailureSucceeds | targetApp/pscmsg.c:154-181 | on a stream of messages calls of which none fails report success |
| DeviceRuns.PartialReadsSuffice | targetApp/pscmsg.c:54-70 | short reads alone never make such a run fail |
| DeviceRuns.SendManyMeaning | targetApp/pscmsg.c:97-110 | several sends put the whole messages on the wire, then a proper part of the one that failed |
| EndToEnd.DeviceToDriver | coreApp/src/psc.cpp:270-362 | what the device sends, in any partial sends and any arrivals, is delivered exactly, in order |
| EndToEnd.DriverToDevice | targetApp/pscmsg.c:154-181 | after any run of the driver the device reads the messages asked for on this connection one by one, in order |
| EndToEnd.EverythingArrives | targetApp/pscmsg.c:154-181 | once the session is drained, all of them whole, and nothing is left over |
| PscUdp.PSCUDP.constructor | coreApp/src/pscudp.cpp:22-30 | starts with 1024 bytes of scratch and no blocks |
| PscUdp.PSCUDP.RecvFrom | coreApp/src/pscudp.cpp:135 | the packet, as far as it fits, over the front of the scratch, the rest as it was |
| PscUdp.PSCUDP.Grow | coreApp/src/pscudp.cpp:178-188 | resizes to the size wanted, in 32 bits, and counts as unknown |
| PscUdp.PSCUDP.Store | coreApp/src/pscudp.cpp:191-211 | delivers to a registered block or counts as unknown |
| PscUdp.PSCUDP.TakePacket | coreApp/src/pscudp.cpp:137-211 | one packet by its kind: the whole new state, and whether the status is to be updated |
| PscUdp.PSCUDP.TakePackets | coreApp/src/pscudp.cpp:127-212 | the loop takes all waiting packets in order |
| PscUdp.PSCUDP.RecvData | coreApp/src/pscudp.cpp:108-220 | timeout, packets, socket error or neither: the whole new state |
| Datagrams.DatagramAccounting | coreApp/src/pscudp.cpp:127-212 | every packet is of exactly one kind and the counters are the tallies of the kinds |
| Datagrams.KindsByBytes | coreApp/src/pscudp.cpp:148-192 | the kind of a packet by its sender, its bytes and the room for it |
| Datagrams.StatusUpdates | coreApp/src/pscudp.cpp:110-146 | the status is updated at a timeout and once for a callback with an error or a small, corrupt or truncated packet; timeouts and errors are counted |
| Datagrams.ShrinksOnOverflow | coreApp/src/pscudp.cpp:178-188 | the scratch shrinks exactly at a packet of the peer with a good header that declares within eight of 2^32 |
| Datagrams.ScratchNeverShrinks | coreApp/src/pscudp.cpp:178-188 | over any run it shrinks exactly when some packet is like that, and then below a header |
| Datagrams.EightBytesDeafen | coreApp/src/pscudp.cpp:178-188 | one packet of eight bytes takes the first scratch to seven |
| Datagrams.ShortScratchIsDeaf | coreApp/src/pscudp.cpp:157-162 | from then on every packet of the peer counts as small |
| Datagrams.LearnsTheLength | coreApp/src/pscudp.cpp:178-188 | after one truncated drop none declaring as much or less is dropped as truncated |
| Datagrams.BodyIsOwn | coreApp/src/pscudp.cpp:191-202 | the stored body depends on the packet alone exactly when the packet is as long as it declares |
| Datagrams.WakeupsDoNotMatter | coreApp/src/pscudp.cpp:108-220 | how packets are spread over callbacks, timeouts and errors makes no difference to blocks, counts and scratch |
| Datagrams.WholeMessages | coreApp/src/pscudp.cpp:148-211 | packets that are whole messages are delivered as those, whatever others send in between |
| ReceiversAgree.UdpAgreesWithTcp | coreApp/src/pscudp.cpp:108-220 | the same messages leave the same blocks, counts and deliveries in both drivers |
| Bytes.DecodeEncode | coreApp/src/psc/devcommon.h:129-174 | a number in its big-endian bytes is read back |
| Bytes.EncodeDecode | coreApp/src/psc/devcommon.h:129-174 | bytes read as a number are written back |
| Bytes.ResizedAt | coreApp/src/pscbase.cpp:155 | a resized buffer keeps what fits and is filled up with zeros |
| Bytes.TruncateMeans | coreApp/src/devPSCWf.cpp:154 | conversion to an integer rounds towards zero |
| NetworkOrder.Bytes2ValMeaning | coreApp/src/psc/devcommon.h:129-190 | numbers are read big-endian on either host, except eight bytes on a big-endian one |
| NetworkOrder.EightBytesRight | coreApp/src/psc/devcommon.h:143-152 | eight bytes are read right exactly on a little-endian host or with equal halves |
| NetworkOrder.HtonMeaning | coreApp/src/psc/devcommon.h:129-168 | the converted number lies in memory big-endian, except for exchanged halves of eight bytes on a big-endian host |
| NetworkOrder.NtohHton | coreApp/src/psc/devcommon.h:161-190 | every number of any width comes back through memory on either host |
| Registers.ReadToField | coreApp/src/devPSCReg.cpp:101-121 | for any field type: the number at the offset, or an alarm and no number when it does not fit |
| Registers.ReadBinary | coreApp/src/devPSCReg.cpp:123-142 | the bits of the word under the mask and no others, all of them without one; unchanged at a bad offset |
| Registers.AlarmMeans | coreApp/src/devPSCReg.cpp:104-115 | a bad offset exactly when the field does not fit, no alarm exactly when it does and there is a connection |
| Registers.WordIs | coreApp/src/devPSCReg.cpp:117-119 | the word is the number that the four bytes spell, the first most significant |
| Registers.WriteFromField | coreApp/src/devPSCReg.cpp:198-216 | for any field type: puts the number at the offset, or nothing when it does not fit; a lost connection is only reported |
| Registers.FieldRoundTrip | coreApp/src/devPSCReg.cpp:101-216 | a field that is written is read back, on either host, and nothing else changes |
| Registers.FieldOnTheWire | coreApp/src/devPSCReg.cpp:213-214 | it lies in the block big-endian, except for exchanged halves of eight bytes on a big-endian host |
| Registers.WriteBinary | coreApp/src/devPSCReg.cpp:218-242 | replaces exactly the masked bits of the word, or nothing when it does not fit |
| Registers.WrittenBits | coreApp/src/devPSCReg.cpp:218-242 | afterwards the bits under the mask are the new ones and the others the old; without a mask the word is replaced, and where it does not fit nothing is |
| Registers.PutGet | coreApp/src/devPSCReg.cpp:117-119 | a word put at an offset is read back there |
| Registers.OtherBytesStay | coreApp/src/devPSCReg.cpp:198-216 | a write changes no byte outside its four |
| Registers.SeparateWritesCommute | coreApp/src/devPSCReg.cpp:218-242 | writes to separate words can be exchanged |
| Registers.RegistersAreIndependent | coreApp/src/devPSCReg.cpp:218-242 | words that do not overlap behave as registers of their own under any sequence of writes |
| Registers.FieldReadsBack | coreApp/src/devPSCReg.cpp:123-242 | reading through a mask, or without one, gives the bits of the value last written over them, through that mask, a wider one or none |
| Registers.HistoriesAgree | coreApp/src/devPSCReg.cpp:218-242 | two histories leave the register alike exactly when their last values agree bit by bit, whatever their masks |
| RegisterMasks.FieldsKeepLast | coreApp/src/devPSCReg.cpp:230-236 | a field that every write covers or misses ends with the last value written over it |
| RegisterMasks.BitsNotWritten | coreApp/src/devPSCReg.cpp:230-236 | bits under no mask stay |
| RegisterMasks.OnlyLastValuesMatter | coreApp/src/devPSCReg.cpp:230-236 | the final word is determined by the last value of each bit, both directions, for any masks |
| Waveform.InputRecord.Read | coreApp/src/devPSCWf.cpp:66-106 | the strided samples at the front of the record and their number, the rest as before; disconnected, only the alarm |
| Waveform.InputRecord.ReadFrom | coreApp/src/devPSCWf.cpp:91-98 | the loop stores the strided samples, for any step |
| Waveform.ReadSample | coreApp/src/psc/devcommon.h:184-190 | one signed big-endian element |
| Waveform.ShortSample | coreApp/src/psc/devcommon.h:184-190 | two bytes as a signed number |
| Waveform.LongSample | coreApp/src/psc/devcommon.h:184-190 | and four |
| Waveform.ReadMeans | coreApp/src/devPSCWf.cpp:87-98 | without a step the elements follow one another, with one they are that far apart, as long as they start inside the block and there is room |
| Waveform.StridedAt | coreApp/src/devPSCWf.cpp:91-98 | element i is the one i steps from the offset |
| Waveform.StridedLength | coreApp/src/devPSCWf.cpp:91-100 | the number of samples is the rounded-up quotient, or what the record holds; backwards steps included |
| Waveform.InsideTheBlock | coreApp/src/devPSCWf.cpp:91-98 | for steps of either sign, no element reaches past the block exactly when the one furthest on does not |
| Waveform.WholeElementsOnly | coreApp/src/devPSCWf.cpp:88-98 | with the default step, exactly when what follows the offset is whole elements |
| Waveform.OverRead | coreApp/src/devPSCWf.cpp:88-98 | five bytes read as elements of four |
| Waveform.LanesPartition | coreApp/src/devPSCWf.cpp:82-100 | the k interleaved reads hold every element exactly once and together are the plain read |
| Waveform.OutputRecord.Write | coreApp/src/devPSCWf.cpp:140-170 | the samples are queued as one encoded message, or an alarm says why not |
| Waveform.OutputRecord.ConvertAll | coreApp/src/devPSCWf.cpp:148-157 | the loop encodes all samples |
| Waveform.WriteThenRead | coreApp/src/devPSCWf.cpp:66-170 | integers in range that are written and read are the same, in any number of lanes |
| MovingAverage.SubArrayMovingAverage | pscApp/src/aSubOperations.cpp:334-395 | real window size always; output untouched on an error, else the averages over the clamped windows |
| MovingAverage.WindowSize | pscApp/src/aSubOperations.cpp:337-345 | the size reported is the least odd number not below the one asked for; negative ones round towards zero |
| MovingAverage.WindowShape | pscApp/src/aSubOperations.cpp:372-386 | the ends of every window, whichever ends of the waveform it reaches past |
| MovingAverage.EmptyWindows | pscApp/src/aSubOperations.cpp:388-392 | a window that ends just before it begins has no average, one that ends earlier has zero |
| MovingAverage.AverageAt | pscApp/src/aSubOperations.cpp:370-392 | one output is the mean over its window, undefined when that has no samples |
| MovingAverage.SumOver | pscApp/src/aSubOperations.cpp:388-391 | the inner loop sums its window |
| MovingAverage.WindowsCentred | pscApp/src/aSubOperations.cpp:374-386 | every window is the widest centred one exactly when the full window fits the waveform |
| MovingAverage.WindowsInside | pscApp/src/aSubOperations.cpp:374-386 | no window leaves the waveform, and none is empty exactly when half a window is shorter than it |
| MovingAverage.EndsStay | pscApp/src/aSubOperations.cpp:374-392 | the first and last sample stay when the full window fits |
| MovingAverage.AveragesWithin | pscApp/src/aSubOperations.cpp:388-392 | averages stay between the least and the greatest sample |
| MovingAverage.LinesStayWhenWindowFits | pscApp/src/aSubOperations.cpp:374-392 | straight lines are left as they are exactly when the full window fits |

## Left out

- RampSafety.WholeRunSafety: speaks of what the driver has taken; what of it goes out is the subject of `JointSafety`, which takes bytes on the wire as received.
- SafeRuns.SafeExactly: what the device plays after a transient whose target never came is not known; the transient itself is all that counts as played.
- JointSafety.JointBytesAreSafe: leaves out tables of the full 10860 points, whose last word the trailer overwrites; the claim for them is table by table.
- TableController.Controller.UpdateTarget: once the registers are there it asks for at least two points, for a start point inside the table when a transient is needed, and for at most 10860 points when something is packed; the source reads or writes outside its tables otherwise. How the driver takes the payloads is an argument here; `JointRuns` computes it.
- TableSending.SendPayloads: the buffers find memory while a table is sent, and in joint runs whenever the driver flushes.
- Transient.LuSolve: the library's elimination is taken by its contract; rounding is not modelled.
- Transient.ComputeTransient: the early return for a start point past the table cannot be reached without reading past it first, and is not modelled.
- DriverRuns.StopIsFinal: callbacks of a session that shutdown has forgotten without freeing it are not modelled.
- Psc.PSC.RecvData: receive times are not modelled.
- StreamDecoding.ChunkIndependence: no receive block is created between the arrivals.
- DeviceSocket.Socket.RecvSkip: after an overrun nothing is promised.
- DeviceRuns.TruncationKeepsSync: holds for runs in which every call reports success without an overrun; `DeviceRuns.NoFailureSucceeds` and `DeviceRuns.PartialReadsSuffice` say when they do.
- Waveform.OutputRecord.Write: a sample outside the integer type is undefined in the source and excluded; float records are not modelled.
- Waveform.InputRecord.Read: an element that reaches past the block is a value of its own instead of what lies in memory there.
- MovingAverage.SubArrayMovingAverage: index sums near the largest 32-bit integer are not wrapped.
- Counters do not wrap at 32 bits, and floating point is real arithmetic throughout; only a mean over no samples is not a number.
- Scans and listeners are a log of deliveries; locks, threads, timers, name lookup and status texts are left to the event list.
- Socket flags and out-parameters of the C codec are plain arguments and results.
- `targetApp/listener.c` keeps a client list whose back links are not maintained; nothing is claimed about it.
- `coreApp/src/devPSCSingle.cpp` is guarded by no common lock, so its coalescing is not stated.
- The numbers of the alarm bits and the record that shows them: the bits are a set here.
- Analog scaling, wave statistics, spectra, beam position polynomials and record set-up would add easy members only.
