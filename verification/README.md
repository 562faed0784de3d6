# Verified model of the low-latency trading gateway

A Dafny 4.11 model of the gateway's lock-free queues, wire protocol, frame parser, session layer and
two-thread server, with proofs. `dafny verify dfyconfig.toml` checks all of it.

| file | what it is about |
|---|---|
| Bits.dfy | machine words: `&`, `\|`, `>>`, power-of-two masks, wrap-around at 2^64, ring slots |
| WeakFifo.dfy | the abstract bounded FIFO in which each side may see an outdated count of the other's progress |
| WeakRing.dfy | AtomicV1/V2, V3 and V4 step by step under stale acquire loads; race freedom and refinement of WeakFifo |
| SpscRing.dfy | the ring classes as objects updated in place, and their equivalence on call scripts |
| Codec.dfy | little-endian loads and stores, all encoders and decoders, round trips |
| FrameParser.dfy | streams of 64-byte frames (Framing, Frames) and the parser's byte ring (FrameParser) |
| Wire.dfy | the wire format in plain numbers: offsets, types and checks, which the codec is held to |
| Session.dfy | `OrderEntrySession` and its history over whole runs |
| Subsequences.dfy | subsequences, and collecting what a partial function yields |
| Gateway.dfy | session slots, routing, the drain and parse loops and the stub engine, on AtomicV3 queue objects |
| Protocol.dfy | both threads, both queues and the eventfd as one state machine; invariants over all runs |
| Accounting.dfy | where every order of every session is, in every run, and exactly when all are answered |
| ClientView.dfy | what a client sent and sees, byte by byte; the gateway object's drain held to the machine |
| Stopping.dfy | how the matching thread ends, and when it never does |
| Composition.dfy | the two threads on two rings, step by step under stale loads, simulated by Protocol |
| Scenarios.dfy | concrete runs: a full command queue, a lost Shutdown, an order after a Logout |

## How it fits together

**Rings.** Each `push` and `pop` is split into its atomic steps. A thread knows a *view*: the newest
store to `head_` and `tail_` it has seen, and how much of the other thread's cell accesses happens
before its next step. An acquire load may return any store not older than that view and then takes
over the storing thread's view; this is release/acquire ordering and coherence (sections 6.9.2.1 and
31.4 of ISO C++20). The state holds only what the code stores (wrapped indices or counters); the true
counters appear as lengths of histories. A cell access races if a conflicting earlier access is not in
the view. A cell read may return any write its view does not rule out. AtomicV1 is the `Uncached`
scheme on runs whose loads return the newest store. The index schemes hold `Capacity - 1` elements,
AtomicV4 holds `Capacity`.

**Layers.** A ring step is one step of `WeakFifo` (`WeakRing.StepRefines`); `Protocol` is built on two
such queues, and `Composition.RunsSimulate` shows that the two threads on two such rings, taken step by step
under stale loads, do nothing else. The classes `FrameParser` and `OrderEntrySession` are proved to follow value-level
functions (`Framing.AfterCall`, `Session.After`), about which the theorems over whole runs are stated;
`Gateway.ParseOne`, which the class's parse loop iterates, is also the step of the protocol machine.

**Environment.** A read returns any 1 to 1024 bytes, `accept` any descriptor that is not open, a send
succeeds or fails, a connection may end at any time. The eventfd is a counter: a read resets it, a
write adds one or leaves it at its maximum. The kernel handles eventfd calls one after the other, so a
read is taken to see everything done before earlier writes; loads of `head_` stay stale otherwise.

## Where the code does not do what one may expect

- A push that fails is ignored: a full command queue loses the order, a full response queue the
  response. `Accounting.Ledger` accounts for every order of every session; a session is answered
  completely if and only if no step lost one of its orders (`Accounting.EverySessionIsAnswered`).
  `Scenarios.FullQueueLoses` is the run in which exactly the orders after the first 4095 are lost.
- The Shutdown command, too, is lost if the queue is full; then the matching thread never ends and
  `main` waits in `join` for ever (`Stopping.QuitRefused`, `Stopping.NeverEnds`, and
  `Scenarios.ShutdownCanBeLost` for such a run). When it does end, nothing accepted is left behind
  (`Stopping.NothingIsLeftBehind`).
- `next_slot` advances with every accept, whether or not connections end, and an accept overwrites a
  slot that is still held; so a client that stays is cut off from its responses by the 1024th accept
  after its own, even if never more than two are connected (`Gateway.OneLongLived`).
  `Gateway.AcceptRoutableIff` and `Protocol.RoutableIff` say exactly when all stay reachable.
- In the parse loop the `should_close` test comes after the breaks that set it, so neither a bad frame
  nor a Logout closes the connection: it ends exactly at a full buffer, a hangup or a failed send
  (`Protocol.LeavesTableIff`). A bad frame silences it for good (`Protocol.ErrorSilences`); after an
  in-sequence Logout it is served on (`Scenarios.LogoutKeepsServing`).
- The protocol design document asks encoders to zero-fill reserved bytes; the CancelOrder and
  ModifyOrder encoders leave them as they were, so they are zero if and only if the buffer was zero
  there (`Codec.ReservedZeroIff`, and `Codec.ReservedNotZero` for a buffer that was not).

## Model

| member | source | states |
|---|---|---|
| Bits.PowerOfTwoIff | core/SPSC/spsc_ring_buffer.hpp:13-15 | the bit test accepts exactly the powers of two |
| Bits.MaskOfPowerOfTwo | core/SPSC/spsc_ring_buffer.hpp:284-286 | masking with a power of two minus one is the remainder |
| Bits.WrapKeepsSlot | core/SPSC/spsc_ring_buffer.hpp:284-286 | a counter wrapped at 2^64 selects the slot of the unbounded counter |
| Bits.WrapDiff | core/SPSC/spsc_ring_buffer.hpp:252-257 | the wrapped difference of two counters is their true difference |
| Bits.IncrementVisitsEverySlot | core/SPSC/spsc_ring_buffer.hpp:228-230 | stepping by increment visits every slot exactly once and then is back at the start |
| Bits.OrDisjoint | core/order_entry/include/lltg/order_entry/codec.hpp:45-80 | or-ing a shifted byte above the bits so far adds it |
| WeakFifo.RunIsFifo | core/SPSC/spsc_ring_buffer.hpp:171-225 | in every run of the abstract queue, accepted minus delivered values are its content, in order |
| WeakRing.FullTest | core/SPSC/spsc_ring_buffer.hpp:171-182 | however stale the cached tail, the wrapped full test is true exactly at the limit, for both schemes |
| WeakRing.EmptyTest | core/SPSC/spsc_ring_buffer.hpp:210-220 | however stale the cached head, the wrapped empty test is true exactly when nothing is left |
| WeakRing.StepInv | core/SPSC/spsc_ring_buffer.hpp:171-225 | every atomic step of either thread keeps cached tail <= tail <= cached head <= head <= cached tail + limit and the memory facts |
| WeakRing.NoWriteRace | core/SPSC/spsc_ring_buffer.hpp:184-186 | every cell write happens after all earlier reads of that cell |
| WeakRing.NoReadRace | core/SPSC/spsc_ring_buffer.hpp:222-224 | every cell read happens after all writes of that cell |
| WeakRing.ReadIsForced | core/SPSC/spsc_ring_buffer.hpp:210-225 | of all writes a read may see, only the next value in order is visible |
| WeakRing.OverwriteAfterRead | core/SPSC/spsc_ring_buffer.hpp:171-187 | when a cell is reused, the read of its former value happens before |
| WeakRing.StepRefines | core/SPSC/spsc_ring_buffer.hpp:171-286 | each atomic step is a step of the bounded FIFO of Capacity - 1 (V2, V3) or Capacity (V4) elements, also past 2^64 operations |
| WeakRing.FailuresAreExact | core/SPSC/spsc_ring_buffer.hpp:175-181 | push returns false exactly if the queue was full at the tail store read; pop likewise for empty |
| WeakRing.CacheHitsAreSound | core/SPSC/spsc_ring_buffer.hpp:175-220 | a stale cache never lets a push into a full queue or a pop out of an empty one |
| WeakRing.SyncLearns | core/order_entry/examples/epoll_server.cpp:158-162 | synchronising through something else than the ring teaches at least the store it carries |
| WeakRing.PushCompletes | core/SPSC/spsc_ring_buffer.hpp:171-187 | every push not interrupted, whatever stale tails it loads, ends within five steps; it succeeds with room, or fails because full at the store it read; on the newest store, exactly if there is room |
| WeakRing.PopCompletes | core/SPSC/spsc_ring_buffer.hpp:210-225 | every pop not interrupted ends within five steps, with the oldest element, or false because empty at the store it read; on the newest store, exactly if empty |
| WeakRing.NeverStuck | core/SPSC/spsc_ring_buffer.hpp:171-225 | in every state each thread has a next step |
| WeakRing.RunsAreSafe | core/SPSC/spsc_ring_buffer.hpp:164-298 | in every run under stale loads: no data race, a run of the FIFO, popped values a prefix of the pushed ones |
| WeakRing.CoherentRunsAreExact | core/SPSC/spsc_ring_buffer.hpp:75-114 | when loads return the newest store, each step is exactly that of a bounded FIFO, refusals included |
| SpscRing.SpscRingBufferUncached.Push | core/SPSC/spsc_ring_buffer.hpp:35-46 | appends unless Capacity - 1 elements are held (Mutex, V1, V2) |
| SpscRing.SpscRingBufferUncached.Pop | core/SPSC/spsc_ring_buffer.hpp:48-58 | removes the oldest element, or leaves the out-parameter alone when empty |
| SpscRing.SpscRingBufferAtomicV3.Push | core/SPSC/spsc_ring_buffer.hpp:171-187 | the same through the cached tail |
| SpscRing.SpscRingBufferAtomicV3.Emplace | core/SPSC/spsc_ring_buffer.hpp:190-207 | emplace is push of the constructed value |
| SpscRing.SpscRingBufferAtomicV3.Pop | core/SPSC/spsc_ring_buffer.hpp:210-225 | pop through the cached head |
| SpscRing.SpscRingBufferAtomicV4.Push | core/SPSC/spsc_ring_buffer.hpp:251-265 | appends unless Capacity elements are held, with counters wrapped at 2^64 |
| SpscRing.SpscRingBufferAtomicV4.Pop | core/SPSC/spsc_ring_buffer.hpp:267-281 | removes the oldest element, with counters wrapped at 2^64 |
| SpscRing.Observe | core/SPSC/spsc_ring_buffer.hpp:29-298 | every script of calls gets identical replies from all index rings, those of a FIFO of Capacity - 1; V4 is a FIFO of Capacity |
| LittleEndian.StoreU16 | core/order_entry/include/lltg/order_entry/codec.hpp:15-19 | the two bytes are the value, low byte first; nothing else changes |
| LittleEndian.StoreU32 | core/order_entry/include/lltg/order_entry/codec.hpp:22-28 | the same for four bytes |
| LittleEndian.StoreU64 | core/order_entry/include/lltg/order_entry/codec.hpp:31-42 | the same for eight bytes |
| LittleEndian.LoadOfLE | core/order_entry/include/lltg/order_entry/codec.hpp:45-80 | loading stored bytes gives the value back |
| LittleEndian.LEOfLoad | core/order_entry/include/lltg/order_entry/codec.hpp:45-80 | storing a loaded value gives the bytes back |
| Codec.EncodeHeader | core/order_entry/include/lltg/order_entry/codec.hpp:89-98 | the 32 header bytes are the fields in wire order; the rest of the buffer stays |
| Codec.Encode | core/order_entry/include/lltg/order_entry/codec.hpp:201-439 | each encoder writes the stamped header and its payload fields and no other byte |
| Codec.HeaderRoundTrip | core/order_entry/include/lltg/order_entry/codec.hpp:89-121 | decoding an encoded header returns every field |
| Codec.HeaderReproduces | core/order_entry/include/lltg/order_entry/codec.hpp:89-121 | encoding a decoded header reproduces its 32 bytes: the offsets tile them |
| Codec.RoundTrip | core/order_entry/include/lltg/order_entry/codec.hpp:201-454 | decode after encode returns header and message for all eight messages, whatever the buffer held |
| Codec.Reproduces | core/order_entry/include/lltg/order_entry/codec.hpp:201-454 | encode after decode reproduces all 64 bytes, for NewOrder and the five responses |
| Codec.ResponseRoundTrip | core/order_entry/include/lltg/order_entry/codec.hpp:187-195 | an encoded response passes the header checks and decodes to itself |
| Codec.ReservedZeroIff | core/order_entry/include/lltg/order_entry/codec.hpp:201-290 | the payload bytes an encoder does not write are zero afterwards if and only if they were before; which those are |
| Codec.ReservedNotZero | core/order_entry/include/lltg/order_entry/codec.hpp:236-249 | a buffer of 255s keeps them behind a CancelOrder |
| Wire.LoadsAreLittleEndian | core/order_entry/include/lltg/order_entry/codec.hpp:45-80 | each load is the sum of its bytes times their place values, lowest first |
| Wire.EncodedSays | core/order_entry/include/lltg/order_entry/protocol.hpp:19-178 | what every encoder writes, offset by offset and with its type code |
| Wire.HeaderStatus | core/order_entry/include/lltg/order_entry/codec.hpp:101-195 | the status of every header under decode_header, validate_header and validate_response_header |
| Wire.GoodFrameIff | core/order_entry/include/lltg/order_entry/frame_parser.hpp:116-130 | try_parse accepts 64 bytes if and only if magic, version, a type from 1 to 5 and length 32 are right |
| Wire.FilledSays | core/order_entry/include/lltg/order_entry/frame_parser.hpp:133-160 | which fields are read from which offsets of a good frame; the others stay |
| Framing.SplitConcat | core/order_entry/include/lltg/order_entry/frame_parser.hpp:103-166 | complete good frames can be cut off in front of any stream |
| Framing.ChunkingIsIrrelevant | core/order_entry/include/lltg/order_entry/frame_parser.hpp:75-166 | for any calls: messages returned, then those of the unread bytes, are the whole stream's; independent of chunking |
| Framing.ErrorIsPermanent | core/order_entry/include/lltg/order_entry/frame_parser.hpp:116-127 | after a ProtocolError every continuation reports it and returns no further message |
| Frames.EncodedIsGood | core/order_entry/include/lltg/order_entry/codec.hpp:166-175 | every encoded request passes the parser's checks and is decoded to what was sent |
| Frames.WireRoundTrip | core/order_entry/include/lltg/order_entry/codec.hpp:201-293 | parsing the concatenated encodings of a list of requests returns the list |
| Frames.EndToEnd | core/order_entry/include/lltg/order_entry/frame_parser.hpp:75-166 | encoded requests, cut anywhere and parsed at any time, come out in order, one per 64 bytes, without error |
| FrameParser.FrameParser.Size | core/order_entry/include/lltg/order_entry/frame_parser.hpp:44-49 | the wrapped counter difference is the number of unread bytes and at most the capacity |
| FrameParser.FrameParser.Full | core/order_entry/include/lltg/order_entry/frame_parser.hpp:48-49 | full exactly when Capacity bytes are unread |
| FrameParser.FrameParser.ReadableSpan | core/order_entry/include/lltg/order_entry/frame_parser.hpp:62-65 | the 64 bytes at the masked read position lie inside the array and are the next stream bytes |
| FrameParser.FrameIsContiguous | core/order_entry/include/lltg/order_entry/frame_parser.hpp:62-65 | a frame that starts at a multiple of 64 never wraps |
| FrameParser.CopyExtends | core/order_entry/include/lltg/order_entry/frame_parser.hpp:83-95 | the copy, in one piece or split, extends the unread bytes and overwrites none |
| FrameParser.FrameParser.Append | core/order_entry/include/lltg/order_entry/frame_parser.hpp:75-100 | accepts exactly if unread and new bytes fit the capacity, appends them to the stream, else changes nothing |
| FrameParser.ParseFrame | core/order_entry/include/lltg/order_entry/frame_parser.hpp:116-166 | MessageReady exactly for the right magic, version, type and length; the filled out-parameter |
| FrameParser.FrameParser.TryParse | core/order_entry/include/lltg/order_entry/frame_parser.hpp:103-166 | NeedMoreData exactly below 64 bytes, ProtocolError exactly for a bad header field; message of the next frame, consumed exactly when good |
| FrameParser.Serve | core/order_entry/include/lltg/order_entry/frame_parser.hpp:25-166 | on any sequence of calls the object returns the messages of the stream model, and at each try_parse the status the unread bytes call for |
| Session.OrderEntrySession.HandleMessage | core/order_entry/include/lltg/order_entry/session.hpp:60-147 | new state and reply frame for every message type; false exactly for a Logout with the expected number |
| Session.OrderEntrySession.CheckSequenceOrReject | core/order_entry/include/lltg/order_entry/session.hpp:149-159 | advances on the expected number, else writes a BadSequence reject |
| Session.OrderEntrySession.EncodeReply | core/order_entry/include/lltg/order_entry/session.hpp:161-215 | the reply carries the request's header, with the session's id unless that is 0 |
| Session.OrdersAreTheOpenOnes | core/order_entry/include/lltg/order_entry/session.hpp:83-102 | id c is live with handle h exactly if its latest accepted NewOrder gave h and no Cancelled followed |
| Session.OutcomeByHistory | core/order_entry/include/lltg/order_entry/session.hpp:60-147 | the whole reply to each message type, with handle or reject reason, told from earlier messages and replies alone |
| Session.Converse | core/order_entry/include/lltg/order_entry/session.hpp:60-215 | over any messages: each frame carries its reply at the right offsets, and false is returned exactly for a Logout that is due |
| Session.RepliesCarryTheOpenHandle | core/order_entry/include/lltg/order_entry/session.hpp:100-128 | every Cancelled or Modified reply carries the handle of the latest opening |
| Session.HandlesAreNumbered | core/order_entry/include/lltg/order_entry/session.hpp:83-86 | the n-th accepted NewOrder gets handle n (below 2^64 - 1 of them) |
| Session.HandlesAreNeverReissued | core/order_entry/include/lltg/order_entry/session.hpp:83-86 | accepted NewOrders get strictly increasing handles |
| Session.LiveHandlesAreDistinct | core/order_entry/include/lltg/order_entry/session.hpp:83-86 | live handles are pairwise distinct, at least 1 and below the next one |
| Session.ActiveCount | core/order_entry/include/lltg/order_entry/session.hpp:25-27 | active orders are accepted minus cancelled ones |
| Session.FilterIsTransparent | core/order_entry/include/lltg/order_entry/session.hpp:149-159 | dropping all out-of-sequence messages changes neither the final state nor the other replies |
| Session.KeptAreNumbered | core/order_entry/include/lltg/order_entry/session.hpp:149-159 | the messages kept carry 1, 2, 3, ... and the next number is expected, modulo 2^64 |
| Session.OutOfSequenceOnlyRejected | core/order_entry/include/lltg/order_entry/session.hpp:143-159 | a message changes the state exactly if it is in sequence |
| Gateway.MatchingThread | core/order_entry/examples/epoll_server.cpp:127-164 | the loop on both queue objects: before a Shutdown each NewLimit is answered Accepted, Cancel Cancelled, Modify Modified, SessionClosed not; in order, as far as there is room; one eventfd write for each answer, lost or not |
| Gateway.EncodeResponse | core/order_entry/examples/epoll_server.cpp:171-210 | the frame of each response type, field by field |
| Gateway.ResponseArrives | core/order_entry/examples/epoll_server.cpp:171-210 | the client decodes the response's type and fields from that frame |
| Gateway.GatewayThread.Accept | core/order_entry/examples/epoll_server.cpp:341-350 | slot, generation, token and connection of an accept; keeps the routing invariant |
| Gateway.GatewayThread.CloseConn | core/order_entry/examples/epoll_server.cpp:271-287 | frees the slot, erases the connection, pushes its SessionClosed command unless the queue is full; keeps the routing invariant |
| Gateway.GatewayThread.HandleResponse | core/order_entry/examples/epoll_server.cpp:309-321 | one send with the right frame if the slot is live; a failed send closes the connection and pushes its command; otherwise nothing |
| Gateway.GatewayThread.DrainResponses | core/order_entry/examples/epoll_server.cpp:307-322 | the drain loop pops the response queue empty and does this for each response in turn; the closing commands that fit are in the command queue |
| Gateway.DrainedIsSafe | core/order_entry/examples/epoll_server.cpp:307-322 | in a drain a response is sent exactly if its slot is live and the send succeeds, to the holder of its token; a failed send ends that connection with one SessionClosed |
| Gateway.AllLiveAreSent | core/order_entry/examples/epoll_server.cpp:307-322 | when all sends succeed, the responses sent are those popped whose slots are live, in order |
| Gateway.RoutingIsSafe | core/order_entry/examples/epoll_server.cpp:309-316 | a response is routed only to an open connection holding exactly its token |
| Gateway.AcceptRoutableIff | core/order_entry/examples/epoll_server.cpp:341-350 | an accept leaves all open connections reachable if and only if its slot is not held |
| Gateway.RoutableIsBijection | core/order_entry/examples/epoll_server.cpp:309-316 | then every open connection has exactly one slot, every slot in use exactly one open connection, and every open token is routed |
| Gateway.OneLongLived | core/order_entry/examples/epoll_server.cpp:341-350 | a client that stays while n others come and go one by one is routed to if and only if n + 1 < 1024, with two connections open |
| Gateway.DispatchOnTheWire | core/order_entry/examples/epoll_server.cpp:394-453 | which message gets which frame, with type, reason, number and session id, or which command; only a Logout that is due ends the loop |
| Gateway.GatewayThread.ParseRound | core/order_entry/examples/epoll_server.cpp:384-457 | the branches of one round, with the push to the queue object and the reply frame |
| Gateway.GatewayThread.ParseLoop | core/order_entry/examples/epoll_server.cpp:384-460 | takes the unread messages up to the first Logout that is due; each out of sequence gets a BadSequence frame, Heartbeat and Logout an Accepted frame, an order one command with its own fields; commands that fit are queued in order |
| Gateway.ParseLeavesLittle | core/order_entry/examples/epoll_server.cpp:384-416 | the loop leaves less than 64 bytes, or a bad frame, or ended at a Logout |
| Protocol.TokensDiffer | core/order_entry/examples/epoll_server.cpp:342-345 | the tokens of the first 2^42 accepts are pairwise distinct |
| Protocol.AcceptTable | core/order_entry/examples/epoll_server.cpp:342-345 | accept k gets slot k mod 1024 and generation k/1024 + 1, through the uint32 wraps |
| Protocol.WakeStep | core/order_entry/examples/epoll_server.cpp:158-162 | every step keeps the wakeup invariant under stale head loads |
| Protocol.NoLostWakeup | core/order_entry/examples/epoll_server.cpp:303-323 | a waiting response implies a readable eventfd, a write about to come, or a drain in progress |
| Protocol.DrainEndsEmpty | core/order_entry/examples/epoll_server.cpp:303-323 | the drain's final failing pop leaves the queue empty unless another wakeup is due |
| Protocol.ConservedStep | core/order_entry/examples/epoll_server.cpp:129-163 | commands pushed are those handled, the one in hand and those queued, always |
| Protocol.OrderedStep | core/order_entry/examples/epoll_server.cpp:137-158 | responses pushed are, in order, among the answers to handled commands, and those delivered among the popped |
| Protocol.SentToHolder | core/order_entry/examples/epoll_server.cpp:309-316 | every send of the machine goes to the connection that holds the token |
| Protocol.CommandIffOrder | core/order_entry/examples/epoll_server.cpp:394-453 | exactly the in-sequence order messages become commands |
| Protocol.StepInv | core/order_entry/examples/epoll_server.cpp:290-462 | every step of the two threads keeps the whole invariant |
| Protocol.QueueLimit | core/order_entry/examples/epoll_server.cpp:36-41 | a queue of 4096 cells of AtomicV3 holds 4095 elements |
| Protocol.ResponsesReachTheirSession | core/order_entry/examples/epoll_server.cpp:307-322 | what a connection is sent is, in order and at most once, the stub's answers to its own in-sequence orders |
| ClientView.ClientSees | core/order_entry/examples/epoll_server.cpp:137-210 | each frame sent to a client answers one of its in-sequence orders, in order: type 101, 103 or 104 for its NewOrder, CancelOrder or ModifyOrder, with that id |
| Protocol.MessagesAreTheStream | core/order_entry/examples/epoll_server.cpp:376-392 | for every connection, open or closed: the messages counted are its received bytes cut into frames, all of them up to a bad frame unless it logged out; its filter counts 1, 2, 3, ... |
| ClientView.BytesAreReceived | core/order_entry/examples/epoll_server.cpp:364-380 | the bytes those messages are cut from are all bytes read from the connection that fitted, in order |
| Protocol.ConnectionIsItsLog | core/order_entry/examples/epoll_server.cpp:384-408 | an open connection stands in its stream and its sequence exactly where its messages say |
| Protocol.NoOverflow | core/order_entry/examples/epoll_server.cpp:364-380 | without a bad frame or an in-sequence Logout the next read always fits the parser |
| Protocol.OverflowHasCause | core/order_entry/examples/epoll_server.cpp:376-380 | in every run, a connection closed for a full buffer had sent a bad frame or an in-sequence Logout |
| Protocol.ErrorSilences | core/order_entry/examples/epoll_server.cpp:384-392 | after a bad frame no continuation decodes a message or pushes an order for that connection |
| Protocol.LeavesTableIff | core/order_entry/examples/epoll_server.cpp:317-460 | a connection ends exactly at a full buffer, a hangup or a failed send; never in the parse loop |
| Protocol.RoutableIff | core/order_entry/examples/epoll_server.cpp:271-350 | all open connections stay reachable throughout a run if and only if no accept took a held slot |
| Protocol.RoutableIsSent | core/order_entry/examples/epoll_server.cpp:309-321 | then a response to an open connection is delivered, or its send failed |
| ClientView.SendIsHandled | core/order_entry/examples/epoll_server.cpp:307-322 | what the gateway object does with a response is what the two-thread machine does |
| Protocol.RunsAreSafe | core/order_entry/examples/epoll_server.cpp:127-462 | conservation, no lost wakeup, token numbering and routing in every state of every run |
| Accounting.NotSentIff | core/order_entry/examples/epoll_server.cpp:307-322 | a popped response is lost exactly if its session is closed or cut off from its slot, or the send fails |
| Accounting.LostStep | core/order_entry/examples/epoll_server.cpp:127-462 | each step loses one order of a session if it refuses its command, refuses its answer or does not send it, and otherwise none |
| Accounting.Ledger | core/order_entry/examples/epoll_server.cpp:127-462 | in every run: orders of a session are those answered, those on their way, and one for each step that lost one |
| Accounting.EverySessionIsAnswered | core/order_entry/examples/epoll_server.cpp:127-462 | a session receives, with what is on its way, exactly the answers to its orders if and only if no step lost one; other sessions do not matter |
| Accounting.AtRestAllAnswered | core/order_entry/examples/epoll_server.cpp:127-462 | with nothing of it on its way, it has received them all if and only if no step lost one |
| ClientView.ClientSeesAll | core/order_entry/examples/epoll_server.cpp:127-322 | at rest without a loss, every in-sequence order has its frame |
| Stopping.NothingIsLeftBehind | core/order_entry/examples/epoll_server.cpp:129-135 | the matching thread ends exactly when it has handled a Shutdown, and then all commands accepted are handled |
| Stopping.QuitRefused | core/order_entry/examples/epoll_server.cpp:464-467 | the Shutdown is lost exactly if its push fails |
| Stopping.NeverEnds | core/order_entry/examples/epoll_server.cpp:464-468 | after that no continuation ends the matching thread |
| Composition.StepSimulates | core/order_entry/examples/epoll_server.cpp:36-41 | each step of the threads and of the two rings is a step of the protocol machine |
| Composition.RunsSimulate | core/order_entry/examples/epoll_server.cpp:36-41 | every run of the threads on the rings is a run of the protocol machine, without a data race in either ring |
| Composition.ResponsesReachTheirSession | core/order_entry/examples/epoll_server.cpp:307-322 | so on the rings, too, a connection is sent only, in order, answers to its own orders |
| Scenarios.FullQueueLoses | core/order_entry/examples/epoll_server.cpp:455-457 | for every n there is a run in which a client sends n orders and exactly those after the first 4095 are lost |
| Scenarios.ShutdownCanBeLost | core/order_entry/examples/epoll_server.cpp:464-468 | there is a run in which the Shutdown finds the queue full |
| Scenarios.LogoutKeepsServing | core/order_entry/examples/epoll_server.cpp:408-460 | there is a run in which an order sent after a Logout becomes a command on the same connection |

## Left out

- Socket, fcntl, epoll and eventfd calls: only their effects named under "Environment".
- Gateway.GatewayThread.ParseLoop: a connection's parser is represented by the stream value that the class FrameParser is proved to follow, so the sharing of parser objects in the connection map is not modelled.
- Gateway.GatewayThread.DrainResponses: the class runs one thread at a time on the queue objects; responses that the matching thread pushes during the drain are in Protocol and Composition.
- Gateway.MatchingThread: stops where the code would poll an empty queue again, and leaves out the running flag, which is always true; commands that arrive meanwhile are in Protocol and Composition.
- SpscRing.SpscRingBufferUncached.Push: one class stands for Mutex, V1 and V2, whose bodies differ only in the lock and in memory orders; the lock is taken to make a call one step.
- Protocol: the frames sent directly in reply to Heartbeat, Logout and bad sequence numbers are outcomes of the parse loop, but are not recorded among the deliveries.
- Composition: steps inside a ring call are not held back while the calling thread does something else, and the views of the two rings are not joined, except at the eventfd; both only allow more runs than the real program has.
- Frames.WireRoundTrip: only order requests, since Heartbeat and Logout have no encoder.
- Codec.Reproduces: not for CancelOrder and ModifyOrder, whose encoders do not write the reserved bytes; those reserved struct fields never travel and are not modelled.
- `validate_request_header` and `BufferFull`, which nothing uses, and range checks on Side and RejectReason, which the codec does not make.
- Liveness under unfair scheduling: only that no thread is ever stuck, that an uninterrupted call ends and that each loop of the gateway terminates.
- The benchmark programs, the build files, cache-line padding and the real matching engine, which is not in this repository.
