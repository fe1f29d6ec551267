# Zinkos: a verified model of the audio path

Zinkos streams live audio. An audio callback writes frames into a ring, a paced network thread cuts the ring
into numbered packets and sends them by UDP, and a receiver puts them back in order and plays them. This
project models that path in Dafny and proves what it guarantees over whole runs. `dafny verify dfyconfig.toml`
checks everything.

## How the model is laid out

- `Audio.dfy`, `Runs.dfy`, `Wire.dfy`: frames, machine integers and runs in general; the packet format, the
  packet builder and both receivers' parsers.
- `SeqNum.dfy`: the receiver's wrapping comparison of 32-bit sequence numbers, and the unbounded order it
  stands for.
- `JitterSpec.dfy`: the jitter buffer as a transition system. A push, and each round of the pop loop, takes a
  state to a state and an *action* (accept, refuse, begin, play, gap, skip, starve). The same transitions run
  on wrapped numbers, as the code has them, and on unbounded ones. Push and pop hold one mutex
  (`receiver/src/main.rs:91-92`, `116-118`), so a run is any sequence of whole pushes and pops.
- `JitterBuffer.dfy`: the code's own shape, a class with the source's fields, loops and branches and a ghost
  history of actions. Every call is proved to be a step of the transition system.
- `JitterLedger.dfy`, `JitterTimeline.dfy`, `JitterWrap.dfy`, `JitterConfluence.dfy`, `JitterChunks.dfy`,
  `JitterGaps.dfy`, `JitterSessions.dfy`: what holds of every run of that system.
- `RxRing.dfy`, `RxRingSafety.dfy`, `RxRingProgress.dfy`, `RxRingBounds.dfy`: the C receiver's two threads, one step per index load,
  frame copy and index store, under every interleaving. `RxRingCode.dfy`: the two ring operations on the
  shared array. `CStream.dfy`: the sender and the C receiver together.
- `Drift.dfy`, `SenderRing.dfy`, `Pacing.dfy`, `Backlog.dfy`, `PacedSender.dfy`: the sender's drift estimator,
  ring and network round, its deadlines, its backlog, and the two together.
- `Lifecycle.dfy`, `Driver.dfy`, `DriverCalls.dfy`: the start/stop protocol of one engine, and the driver's
  StartIO and StopIO over successive engines.
- `EndToEnd.dfy`, `EndToEndDelivery.dfy`, `Pipeline.dfy`: the whole path as one system, at the grain of single
  pushes and pops of the sender's queue, and the sender and receiver objects, whose calls are runs of that
  system.
- `Narrowing.dfy`: the driver's in-place conversion of float samples.

## Hypotheses that are part of the results

- *Half window.* `seq_before` leaves numbers at distance 2^31-1, 2^31 and 2^31+1 unordered both ways
  (`SeqNum.Unordered`), so results that relate wrapped to unbounded numbers assume that each arriving number
  is within 2^31-2 of the cursor and of every number in the deque. Nothing is assumed about loss, order or
  duplication. Conservation, the playback state machine and chunk independence need no window.
- *Backlog.* At most `48 t + 128` frames arrive over any `t` milliseconds, and each wake-up of the network
  thread happens no earlier than its deadline and at most `lateness` after it.
- *Lifecycle.* One control thread calls `start` and `stop`, and never calls `start` while the engine is
  Starting or Running. `Lifecycle.StartAgain` and `Lifecycle.StartLeaks` say what such a `start` does. The
  results of `Driver.dfy` need no such hypothesis: the driver starts each engine once.
- *One session.* `EndToEnd.dfy` and `CStream.dfy` follow one sender from its start to its stop. The next session
  numbers its packets from 0 again; `JitterSessions.RestartRefused` says what becomes of them.
- *C playback.* The ALSA period is at least one frame. `RxRingBounds.OutHolds` needs no upper bound either: it
  says for which periods the playback thread stays inside its buffer.
- *Datagrams.* Both receivers read into 2048 bytes, which hold 507 frames behind a header.
  `Wire.RustReceiverAgrees` and `Wire.CReceiverAgrees` say exactly what happens on both sides of that limit.

## Where the code and its documentation differ

- The jitter buffer's comments speak of silence "for the missing packet". The code gives up to 240 frames
  whatever that packet held, fewer when the caller's request ends first, and moves on either way. Hence the
  1 to 240 frames in `JitterTimeline.EveryRunTold`, and hence chunk independence holds only without gaps
  (`JitterChunks.ChunkIndependence`). `JitterGaps.GapLength` gives the exact length, and
  `JitterGaps.LossKeepsLength` the case in which it does match.
- The deque is kept in sequence order so that reordering on the network is undone. While the first packets fill
  the buffer it may not be: the packet that begins playback shuts out smaller numbers still under way.
  `JitterConfluence.ArrivalOrder` says exactly when.
- `StateMachine::start` and `stop` are documented as idempotent, which they are on the state. The engine's
  `start` then succeeds and spawns one more thread (`Lifecycle.StartAgain`). Two can then be live if and only
  if one was live at the call (`Lifecycle.StartLeaks`): always when Starting, and when Running unless the socket did not
  open, which the state does not show (`Lifecycle.RunningEitherWay`). A second `stop` sets the stop flag again
  and fails at its last step (`Lifecycle.StopTwiceFails`). The model follows the code.
- `zinkos_engine_destroy` is documented to stop a running engine. On one that is still Starting its `stop`
  fails, and the engine is freed with its network thread alive and never told to stop. By `Driver.DestroyLeaks`
  this leads to two live threads exactly if the engine is Starting when the call begins; `Driver.StopThenStartLeaks`
  is the shortest way there.
- The C receiver accepts periods of 48 to 4800 frames (`receiver/c/zinkos_rx.c:203`), while the buffer it reads
  them into holds 1024 (`receiver/c/zinkos_rx.c:287`). By `RxRingBounds.OutHolds` every write stays inside
  exactly for periods up to 1024, given a start-fill the ring can hold; the program's largest is 24000 frames.
- Constants in the drift estimator: 221 frames per interval is kept as written although packets hold 240.

## Model

| member | source | states |
|---|---|---|
| Wire.ToBytes | engine/src/packetizer.rs:25-34 | filling the zeroed 20-byte buffer slice by slice gives the concatenation of the little-endian fields, and leaves no byte unset |
| Wire.HeaderLayout | engine/src/packetizer.rs:8-14 | where every header field lies on the wire, byte by byte |
| Wire.HeaderRoundTrip | engine/src/packetizer.rs:25-48 | decoding an encoded header gives the header back |
| Wire.BytesRoundTrip | engine/src/packetizer.rs:36-48 | decoding succeeds exactly on the magic bytes 4B 5A, and encoding the result gives the same 20 bytes |
| Wire.PayloadRoundTrip | receiver/src/jitter_buffer.rs:102-109 | decoding the packet builder's payload gives its frames, sample by sample and sign included |
| Wire.BuiltPacket | engine/src/packetizer.rs:63-86 | a built packet's header decodes to version 1, flags 0, the number, the frame count modulo 2^32 and the timestamp passed in, and its payload to the frames |
| Audio.FormatIs | engine/src/config.rs:2-10 | a frame takes four bytes, two samples of two, and a full packet of 240 frames lasts 5 ms |
| Wire.Packetizer.constructor | engine/src/packetizer.rs:57-59 | numbering starts at 0 |
| Wire.Packetizer.BuildPacket | engine/src/packetizer.rs:63-86 | the packet is the header with the current number and the payload of all frames, and the number advances by one modulo 2^32 |
| Wire.ParseIs | receiver/src/jitter_buffer.rs:71-109 | from its bytes: a datagram under 20 bytes is ignored; one not beginning 4B 5A counts as bad magic; one with a version above 1 as a bad version; one shorter than its frame count announces is ignored; any other is a packet with the number and frames read from it |
| Wire.CPayloadIs | receiver/c/zinkos_rx.c:164-186 | from its bytes: the C receiver takes the whole frames behind a header with the magic and version 1 or less, and nothing else |
| Wire.RustReceiverAgrees | receiver/src/jitter_buffer.rs:71-109 | a datagram of the sender is parsed to exactly its number and frames if and only if it has at most 507 frames; a longer one is ignored without a count |
| Wire.CReceiverAgrees | receiver/c/zinkos_rx.c:164-186 | the C receiver hands its ring exactly the payload bytes if and only if there are 1 to 507 frames; an empty packet is ignored and a longer one is cut to 507 frames |
| Wire.ReceiversAgree | receiver/c/zinkos_rx.c:164-186 | what the Rust receiver rejects for magic or version the C receiver ignores, and a datagram holding exactly the frames it announces gives both the same frames |
| SeqNum.WrappedOrder | receiver/src/jitter_buffer.rs:203-208 | within 2^31-2 of each other, wrapped numbers compare as the unbounded ones do, and are equal only if those are |
| SeqNum.Unordered | receiver/src/jitter_buffer.rs:203-208 | two distinct numbers never precede each other both ways, and neither precedes the other exactly at distances 2^31-1, 2^31 and 2^31+1 |
| JitterSpec.PopStep | receiver/src/jitter_buffer.rs:159-198 | a round never gives more frames than wanted, and on a non-empty deque gives frames or removes an entry, so the pop loop ends on every deque |
| JitterBuffer.JitterBuffer.constructor | receiver/src/jitter_buffer.rs:43-58 | a new buffer is empty, filling and without cursor, with the start-fill in frames |
| JitterBuffer.JitterBuffer.Push | receiver/src/jitter_buffer.rs:71-147 | a well-formed datagram is one push of the transition system, any other changes only the counter of its kind; the playback and conservation invariants are kept |
| JitterBuffer.JitterBuffer.Receive | receiver/src/jitter_buffer.rs:111-146 | scanning for a position, splicing there and the start-fill test are exactly a push of the transition system |
| JitterBuffer.JitterBuffer.PopFrames | receiver/src/jitter_buffer.rs:151-201 | the loop returns the sound of, and ends in the state of, the whole pop of the transition system, for every deque; short exactly when it ends in Underrun; invariants kept |
| JitterLedger.PlaybackInvariant | receiver/src/jitter_buffer.rs:136-200 | in every reachable state: Filling exactly when there is no cursor, and a buffer that is not playing is empty or below its start-fill |
| JitterLedger.PlaybackStarts | receiver/src/jitter_buffer.rs:136-146 | playback starts or resumes exactly on an accepted packet that brings the deque to the start-fill, and the first cursor is the number then at the front |
| JitterLedger.ShortPop | receiver/src/jitter_buffer.rs:156-200 | a playing buffer returns fewer frames than asked exactly when it ends in Underrun with an empty deque, which is exactly when the underrun counter rises, by one |
| JitterLedger.Conservation | receiver/src/jitter_buffer.rs:111-190 | over every run: received = dropped + buffered + fully played packets; accepted frames = played + buffered + skipped; output length = played + silent; and each counter counts its events |
| JitterTimeline.EveryRunTold | receiver/src/jitter_buffer.rs:71-200 | over every run on unbounded numbers the output is one segment per number from the first cursor to the current one, the first accepted copy whole or 1 to 240 silent frames if none was accepted, then the consumed part of the cursor's packet; the deque is sorted with copies in arrival order and holds everything accepted and not yet passed |
| JitterTimeline.AcceptTold | receiver/src/jitter_buffer.rs:114-146 | accepting a packet keeps that account, in particular never undoes a finished segment |
| JitterTimeline.RoundTold | receiver/src/jitter_buffer.rs:159-190 | every round of the pop loop keeps it |
| JitterWrap.PushWraps | receiver/src/jitter_buffer.rs:111-146 | within the window a push on wrapped numbers takes the same branch as on unbounded ones and ends in the corresponding state |
| JitterWrap.LoopWraps | receiver/src/jitter_buffer.rs:159-198 | so does the whole pop loop, action by action, including across 2^32 |
| JitterWrap.WrappedRefines | receiver/src/jitter_buffer.rs:71-208 | every windowed run of the code corresponds state by state and action by action to the unbounded run and sounds the same, and the deque stays sorted in unbounded order |
| JitterWrap.UnboundedStream | receiver/src/jitter_buffer.rs:71-200 | the account of the output spelled out on unbounded numbers, with the first cursor the least number accepted, one that was accepted itself |
| JitterWrap.WrappedStream | receiver/src/jitter_buffer.rs:71-208 | the account of the output holds of every windowed run of the code |
| JitterConfluence.ArrivalOrder | receiver/src/jitter_buffer.rs:114-146 | for packets of distinct numbers within the window and not behind the cursor, all arrival orders leave the same state if and only if there are fewer than two, or the cursor is set, or the front of the deque is not above any of them, or deque and packets without the least-numbered one stay below the start-fill |
| JitterConfluence.ArrivalResult | receiver/src/jitter_buffer.rs:126-146 | and then nothing is refused and the deque is the sorted one holding the old entries and all packets, those of one number in order of arrival |
| JitterConfluence.ArrivalOrderMatters | receiver/src/jitter_buffer.rs:136-146 | the smallest instance in which the order does matter: two packets and a start-fill of one frame |
| JitterChunks.ChunkIndependence | receiver/src/jitter_buffer.rs:151-201 | popping a then b frames equals popping a + b, for all a and b, in output, state and counters, if and only if the numbers buffered leave no gap from the cursor on |
| JitterChunks.NoGapChunks | receiver/src/jitter_buffer.rs:163-190 | without a gap every split agrees, stale duplicates and empty packets included |
| JitterChunks.GapShows | receiver/src/jitter_buffer.rs:179-186 | with a gap some split disagrees |
| JitterGaps.GapLength | receiver/src/jitter_buffer.rs:179-186 | each gap in a pop is the least of 240 frames and those still wanted, so only the last one can be short, and then the pop is complete |
| JitterGaps.LossKeepsLength | receiver/src/main.rs:111-118 | over every windowed run with packets of 240 frames and pops of 240, the output is exactly 240 frames for every number from the first cursor to the current one, whichever packets were lost |
| JitterSessions.RestartRefused | receiver/src/jitter_buffer.rs:114-119 | when the sender starts again from number 0 while the receiver keeps its cursor: over every windowed run from there, packet `i` is refused, with nothing else changed, exactly if the cursor is past it when it arrives, so all packets below the cursor at the restart are lost and none accepted lies below it |
| RxRingSafety.ProducerKeeps | receiver/c/zinkos_rx.c:48-61 | every step of the receive thread keeps the invariant that ties indices, ring, both threads' local views and the history together |
| RxRingSafety.ConsumerKeeps | receiver/c/zinkos_rx.c:63-79 | so does every step of the playback thread |
| RxRingSafety.FifoRefinement | receiver/c/zinkos_rx.c:48-79 | in every interleaving each step is a stutter, an enqueue of one whole packet or a dequeue of the frames returned, on a queue of at most 47999 frames |
| RxRingSafety.CopiesAreSafe | receiver/c/zinkos_rx.c:55-76 | in every interleaving no copy in hits an unread frame, every copy out reads a published frame, and the two threads never touch the same slot |
| RxRingSafety.DecisionsAreExact | receiver/c/zinkos_rx.c:39-65 | in every interleaving, with a stale view of the other index, a packet is refused exactly when it does not fit when `r` is loaded, and a read takes the least of one period and the frames queued when `w` is loaded; playback waits for the start-fill, then prefills while a whole period fits the ALSA buffer, and the prefill stops when less than a period is there |
| RxRingSafety.ViewsAreStable | receiver/c/zinkos_rx.c:39-46 | in every interleaving the other thread's steps never shrink the room the producer saw nor the frames the consumer saw |
| RxRingSafety.EveryInterleaving | receiver/c/zinkos_rx.c:294-359 | under every interleaving the frames taken are a prefix of the accepted packets, the buffers handed to ALSA with their padding erased are a prefix of those and equal to them between reads, every buffer is one period with silence behind its frames, and the prefill never sees a short read |
| RxRingSafety.StreamOnlyGrows | receiver/c/zinkos_rx.c:300-343 | however a run goes on, the buffers handed to ALSA before stay, and the stream they hold with padding erased only grows at its end |
| RxRingProgress.StopsExactly | receiver/c/zinkos_rx.c:350-359 | in every interleaving the playback thread has stopped if and only if a write in the playback loop has failed, recovery included |
| RxRingProgress.PlaybackGoesOn | receiver/c/zinkos_rx.c:294-359 | from any reachable state past the start-fill, or holding it, in which playback has not stopped: as long as ALSA does not answer below zero, within one period and ten steps of the playback thread another buffer is handed over, whatever the receive thread does |
| RxRingProgress.PacketDealtWith | receiver/c/zinkos_rx.c:48-61 | a packet of n frames is in the ring whole, or refused, within n + 4 further steps of the receive thread, which then waits for the next one |
| RxRingBounds.OutHolds | receiver/c/zinkos_rx.c:287-325 | over every interleaving each copy into `out` stays inside its 1024 frames if and only if the period is at most 1024, or the start-fill exceeds the ring's capacity so that nothing is ever played; the padding then stays inside too |
| RxRingBounds.RingIsOneSecond | receiver/c/zinkos_rx.c:26 | the ring is one second of audio, of which it can hold all but one frame |
| CStream.PlaysAsAccepted | receiver/c/zinkos_rx.c:157-188 | for every run of the sender and every interleaving of the C receiver, under any loss, order, duplication and refusal, the frames handed to ALSA with padding erased are a prefix of whole packets as sent, in the order the ring accepted them |
| CStream.PlaysPrefixOfWritten | receiver/c/zinkos_rx.c:164-186 | if the datagrams come in order and none is lost or refused, those frames, interleaved left before right, are a prefix of the samples `write_frames` accepted |
| RxRingCode.Ring.UsedFrames | receiver/c/zinkos_rx.c:39-43 | the index difference modulo the ring is the number of unread frames |
| RxRingCode.Ring.WriteFrames | receiver/c/zinkos_rx.c:48-61 | with one copy or two, a packet that fits is appended whole behind the unread frames, and one that does not changes nothing |
| RxRingCode.Ring.ReadFrames | receiver/c/zinkos_rx.c:63-79 | with one copy or two, the oldest frames, as many as asked and present, go to the front of the destination and leave the ring |
| SenderRing.FrameRing.WriteFrames | engine/src/ring_buffer.rs:52-65 | the leading frames that fit are appended in order and the rest is dropped: the appended frames, interleaved left before right, are exactly the first `2 * written` samples |
| SenderRing.DeinterleaveIs | engine/src/ring_buffer.rs:57 | interleaving the frames cut from the samples gives the samples back, in order |
| SenderRing.FrameRing.ReadFrames | engine/src/ring_buffer.rs:85-97 | the oldest frames, as many as fit the slice, are moved out in order and the rest of the slice is untouched |
| SenderRing.Sender.Round | engine/src/ffi.rs:125-141 | a wake-up sends nothing when the ring is empty, and otherwise one packet of the oldest frames with the next number, after which the drift estimator records the remaining level |
| EndToEnd.PlaysWhatWasSent | engine/src/ffi.rs:125-141 | under any loss, order and duplication within the window, the receiver plays for each number exactly the frames sent under it or 1 to 240 silent ones, then part of one more packet as sent |
| EndToEnd.LosslessFromFirst | receiver/src/jitter_buffer.rs:95-200 | if no pop met a missing number, what was played is, sample by sample, a contiguous stretch of what was accepted from the client, from the start of a packet on |
| EndToEnd.Lossless | engine/src/ring_buffer.rs:52-97 | and if playback began with the first packet, it is a prefix of the samples accepted, for every interleaving of single pushes, single pops, sends, deliveries and pops of the jitter buffer |
| EndToEndDelivery.DeliveredIsPlayed | receiver/src/main.rs:88-122 | the other direction: over every windowed run in which each of the first n packets is delivered after it was sent and before the cursor passed it, playback begins with packet 0, and a pop that asks a playing receiver for what remains of them makes the interleaved output begin with exactly their samples, the first ones accepted from the client; nothing is assumed of other packets or of earlier pops |
| EndToEnd.WholeWrite | engine/src/ring_buffer.rs:52-65 | a write call that nothing interrupts accepts the leading frames that fit |
| EndToEnd.WholeTick | engine/src/ffi.rs:125-141 | a round of the network thread that nothing interrupts sends the oldest frames, up to a packet, if there are any |
| Pipeline.Pipeline.Write | engine/src/ffi.rs:83-92 | nothing is accepted unless the engine is Starting or Running and holds a producer; otherwise it is a write call of the end-to-end system, and the count returned is what was accepted |
| Pipeline.Pipeline.Tick | engine/src/ffi.rs:125-141 | a round of the network thread is the system's wake-up, pops and send |
| Pipeline.Pipeline.Deliver | receiver/src/main.rs:88-93 | handing a sent datagram to the receiver object pushes exactly that packet's number and frames into its jitter buffer, and is the system's delivery step |
| Pipeline.Pipeline.Play | receiver/src/main.rs:114-122 | popping from the receiver object is one whole pop of its jitter buffer and the system's play step, and the frames returned are what its output grows by |
| Pipeline.PlayedIsPrefixOfWritten | receiver/src/jitter_buffer.rs:71-201 | the losslessness theorem, of the objects |
| Pipeline.DeliveredIsHeard | receiver/src/main.rs:88-122 | so is the other direction |
| Lifecycle.StateMachine.Transition | engine/src/state_machine.rs:52-62 | the compare-and-swap: moves exactly from the expected state, and reports the state it leaves |
| Lifecycle.StateMachine.Start | engine/src/state_machine.rs:65-70 | moves only from Stopped, succeeds also when Starting or Running, fails when Stopping |
| Lifecycle.StateMachine.MarkRunning | engine/src/state_machine.rs:73-75 | moves and succeeds exactly from Starting |
| Lifecycle.StateMachine.Stop | engine/src/state_machine.rs:78-83 | moves only from Running, succeeds also when Stopping or Stopped, fails when Starting |
| Lifecycle.StateMachine.MarkStopped | engine/src/state_machine.rs:86-88 | moves and succeeds exactly from Stopping |
| Lifecycle.Lifecycle | engine/src/ffi.rs:35-142 | in every interleaving with a well-behaved client at most one network thread is live; outside a call the engine is never Stopping, and while Stopped no thread is live, the producer is gone and no handle is kept; otherwise producer and handle are there and the stop flag is clear |
| Lifecycle.StateGoesRound | engine/src/state_machine.rs:26-27 | every step of any thread leaves the state or moves it to its successor in the circle, whatever the client does |
| Lifecycle.StopOutcome | engine/src/ffi.rs:60-78 | in every interleaving with a well-behaved client, a `stop` that completes succeeds exactly if its swap found Running, and then the engine is Stopped with nothing left; fails with nothing changed exactly if the swap found Starting; and fails with only the stop flag set exactly if the engine was Stopped at the call |
| Lifecycle.StartSucceeds | engine/src/ffi.rs:35-58 | a well-behaved client's `start` always succeeds and leaves one new thread on an engine Starting |
| Lifecycle.StopTwiceFails | engine/src/ffi.rs:60-78 | a `stop` on a stopped engine runs through its steps, sets the stop flag and fails |
| Lifecycle.FromStopping | engine/src/state_machine.rs:65-88 | on an engine left Stopping a `start` fails and changes nothing, and a `stop` goes on and succeeds |
| Lifecycle.ThreadsObeyTheFlag | engine/src/ffi.rs:65-141 | outside a call the thread of a running engine goes on; while `stop` waits in the join, two turns of the thread suffice to end it |
| Lifecycle.StartAgain | engine/src/ffi.rs:35-58 | a `start` on an engine Starting or Running, under every interleaving with the network threads, succeeds after exactly four steps and has spawned one more thread |
| Lifecycle.StartLeaks | engine/src/ffi.rs:35-58 | for every engine at rest, some interleaving of a `start` has two live threads if and only if one is live at the call; one is live on every Starting engine and none on a Stopped one |
| Lifecycle.RunningEitherWay | engine/src/ffi.rs:108-117 | a started engine is Running with a live thread if its socket opened and with none if it did not |
| Lifecycle.StartTwiceLeaks | engine/src/ffi.rs:35-58 | a start while a network thread is live succeeds, after which two are live and only the second can be joined |
| Driver.OneThreadUnlessAbandoned | driver/ZinkosPlugin.cpp:332-402 | over every run of StartIO and StopIO interleaved with all network threads, live threads are at most one more than the engines freed after a `stop` that found them Starting; every other engine was freed Stopped without a thread; the branch for a failed start is never taken |
| Driver.DestroyLeaks | engine/src/ffi.rs:182-190 | in any run that has left no thread behind and begins to destroy an engine, some continuation that frees only this engine has two live threads if and only if the engine is Starting when the call begins |
| Driver.DropLeaks | engine/src/ffi.rs:182-190 | at the moment an engine is freed, in any run that has left no thread behind so far, some continuation before the next one is freed has two live threads if and only if this one still has its thread; it has if it is Starting and has not if it is Stopped |
| Driver.OrphanStreamsOn | engine/src/ffi.rs:119-142 | the thread of a freed engine whose flag was not set streams on through every continuation once its socket is open |
| Driver.OrphanGoesOn | engine/src/ffi.rs:108-120 | and a thread freed before that opens its socket, marks the freed engine Running and polls, or ends if the socket does not open |
| Driver.StopThenStartLeaks | driver/ZinkosPlugin.cpp:342-371 | StopIO and StartIO before the network thread has run leave two live threads, one of them of a freed engine |
| Driver.DestroyReached | driver/ZinkosPlugin.cpp:342-345 | StartIO, StopIO and StartIO again reach the destroy call with the first engine still Starting if its thread has not run |
| DriverCalls.CallsAreIdempotent | driver/ZinkosPlugin.cpp:334-336 | from any moment the driver rests in any run: while IO runs no further StartIO, and while it does not no further StopIO, changes whether it runs, drops an engine or begins a call on the one held |
| DriverCalls.StartIOEnds | driver/ZinkosPlugin.cpp:332-388 | over every continuation of a StartIO while IO is not running: the old engine is dropped, IO runs exactly once the call is over, and then an engine whose `start` succeeded is held if a receiver is known, and none otherwise |
| DriverCalls.StopIOEnds | driver/ZinkosPlugin.cpp:391-415 | over every continuation of a StopIO while IO runs: IO runs until the call is over, and the engine has then been through a `stop` and is kept |
| DriverCalls.NoCallIsStuck | driver/ZinkosPlugin.cpp:332-415 | from every reachable state an IO call under way can be brought to its end by the driver's own steps and those of the thread it joins |
| Pacing.IntervalFits | engine/src/config.rs:45-47 | a packet covers its truncated duration at 48 frames per millisecond, and not one millisecond more |
| Pacing.TicksFit | engine/src/pacer.rs:39-48 | truncation to timer ticks shortens the interval by less than a tick and never lengthens it |
| Pacing.Pacer.Wait | engine/src/pacer.rs:74-88 | wait k returns no earlier than baseline + k intervals, and the next deadline is one interval on however late it returned |
| Pacing.MacPacer.Wait | engine/src/pacer.rs:61-73 | the same for the macOS pacer with zero for "not started", on a clock past zero |
| Backlog.BacklogBound | engine/src/ffi.rs:119-140 | occupancy never exceeds max(initial backlog, frames per packet) + 128 + 48 * lateness, and nothing is dropped if the ring holds that many frames |
| Backlog.FramesConserved | engine/src/ring_buffer.rs:52-97 | over every run, whatever its timing: initial backlog and arrivals equal the frames in the ring, read and dropped, and a frame is dropped only when the ring is full |
| Backlog.IntervalsQualify | engine/src/config.rs:45-47 | the engine's interval, in milliseconds and in timer ticks, meets that bound's hypothesis |
| PacedSender.PacedSender.Wake | engine/src/pacer.rs:74-88 | a wait of the pacer that ends at most `lateness` after its deadline is a wake-up as that bound demands |
| PacedSender.PacedBound | engine/src/ffi.rs:119-140 | so a ring drained by the pacer never holds more than the bound, nor drops a frame if it can hold that many |
| Drift.DriftEstimator.Push | engine/src/drift.rs:27-34 | the circular buffer always holds exactly the last 200 pushes |
| Drift.DriftEstimator.EstimatePpm | engine/src/drift.rs:40-76 | None before 200 pushes; afterwards the regression over exactly the last 200, oldest first |
| Drift.WindowIsOneSecond | engine/src/drift.rs:9 | the window of 200 full packets is one second |
| Drift.DenominatorIs | engine/src/drift.rs:63-66 | the denominator is n^2 (n^2 - 1) / 12, so the guard against zero never applies |
| Drift.LeastSquares | engine/src/drift.rs:68 | no line has a smaller squared error over the window than the one with this slope, and none of another slope has as small a one |
| Drift.PpmSign | engine/src/drift.rs:68-75 | the estimate is that slope in the code's unit; a window that never falls gives at least 0, one that never rises at most 0 |
| Narrowing.NarrowInPlace | driver/ZinkosPlugin.cpp:462-474 | for every frame count the buffer ends up as the out-of-place conversion of its old content, followed by the untouched rest; read back, each sample is 0 if muted, byte by byte, and otherwise the decoded float times the volume squared, clamped and truncated, at full volume the decoded float alone |
| Narrowing.VolumeMonotone | driver/ZinkosPlugin.cpp:466-473 | for volumes from 0 to 1 a higher one never makes a sample smaller in magnitude, and none changes its sign |
| Narrowing.FloatRead | driver/ZinkosPlugin.cpp:463-470 | reading a buffer of floats laid one after the other gives each its own four bytes, in order |
| Narrowing.ConvertRange | driver/ZinkosPlugin.cpp:471-473 | results lie in [-32767, 32767], saturate exactly outside (-1, 1), and are the exact value rounded towards zero inside |
| Narrowing.ConvertMonotone | driver/ZinkosPlugin.cpp:471-473 | conversion keeps order and is odd |
| Narrowing.ShortBytesRead | driver/ZinkosPlugin.cpp:464-477 | the engine, reading the front of the buffer as 16-bit samples, sees exactly the converted samples |

## Left out

- Sockets, DSCP marking, ALSA, CoreAudio, threads as operating-system objects, files, property lists and logging: events or step inputs here.
- `driver/ZinkosBrowse.cpp`, `driver/ZinkosDevice.cpp`, the Swift app and the scripts: discovery, property tables and plumbing.
- The inside of `rtrb`: an atomic bounded queue here; concurrency at the grain of loads and stores is proved on the C ring.
- Memory ordering weaker than acquire/release pairs, `volatile`, and C aliasing rules.
- 64-bit statistics counters: unbounded here.
- Lifecycle.Lifecycle: modelled on values, one step per load, store, compare-and-swap, spawn and join; panics are not modelled. A `start` on an engine Starting or Running is followed to the end of that call and not beyond.
- Driver.OneThreadUnlessAbandoned: the driver's two IO calls run one at a time; configuration and time stamps are not modelled, and a failing `zinkos_engine_create` counts as having no receiver.
- Pipeline.Pipeline.Write: the objects run whole calls; interleaved pushes and pops are in EndToEnd, which covers every run of them.
- PacedSender.PacedSender.Wake: for the portable pacer; the macOS one has its own contract in `Pacing.MacPacer.Wait` and is not composed.
- RxRingSafety.EveryInterleaving: the ring is a sequence updated one frame at a time, so the array itself appears only in RxRingCode; the idle/playing status file and the process's exit are not modelled.
- Drift.DriftEstimator.EstimatePpm: over the reals, without rounding; the unit of the estimate is taken from the code and not justified.
- Narrowing.NarrowInPlace: the float encoding is an arbitrary decoder of four bytes to a real, so NaN, infinities and rounding are outside the model.
- Backlog.BacklogBound: assumes the arrival bound and each wait's lateness rather than deriving them from an operating system.
- JitterBuffer.JitterBuffer.Push: the rate-limited warnings are left out; the counters that drive them are kept.
