# memnode: verified model of the peer protocol and the block store

memnode pools the RAM of several machines.  A node keeps blocks in a striped store with a
byte quota, and exchanges them with its peers over one encrypted connection per peer, on
which logical streams are interleaved.  This project models the parts that carry the hard
guarantees and proves them for every input, every run and every interleaving:

* **Secure channel** (`ReplayWindow`, `Channel`, `Receiver`, `SecureChannel`, `Bits`): the
  bitmap replay window, the key chain per direction, message and time rekeying.
  Cryptography is symbolic: a key is a term `Base(side)` or `Next(key, epoch)`, and a sealed
  frame opens only under the same key, nonce and associated data (the AEAD of RFC 8439
  section 2.8, key chaining as in RFC 5869 section 2, the window in the style of RFC 4303
  section 3.4.3).
* **Multiplexer** (`Mux`, `ChannelMux`): per-stream queues, the round-robin writer, the
  semaphore that bounds the queue.
* **Replication** (`Replication`, `ReplicationTheorems`, `Reassembly`, `Collection`,
  `Transfer`, `Coordinator`): chunked transfers, reassembly, waiters, aborts, timeouts, and what
  any peer can make of them.
* **The whole path** (`EndToEnd`, `Selection`, `Interference`, `Disorder`, `Codec`): producers, writer,
  secure channel, network, receiver and coordinator as one step system.  Over a network that
  keeps the order and repeats frames at will it is simulated by the transfers over the bare
  multiplexer, so payloads arrive exactly.  Over a network that may also drop and reorder
  frames it is proved what a transfer can become, and when that is its payload.
* **Block store** (`Eviction`, `Blocks`, `BlockTheorems`, `BlockManager`, `TwoStripes`,
  `Quota`): key index, quota, eviction, seen once with atomic operations and once with every
  lock-guarded section as a step of its own.
* **Handshake guard** (`Guard`, `GuardTheorems`, `HandshakeGuard`): the sliding-window rate
  limit, the concurrency caps and the table that evicts.
* **Framing** (`Framing`): length-prefixed frames and codec negotiation of the local RPC.

Each stateful class of the program is a Dafny class whose methods are proved equal to a step
function on values; the theorems are about those step functions over whole runs.  A run is a
datatype or a sequence of events, so every theorem quantifies over all of them.  Clocks,
randomness (the eviction shuffles), the hash of a key and the outcome of a write are
parameters.

Where the code does less than its comments say, the model follows the code:

* The stop test of eviction (`memnode/blocks.py:274`) subtracts the freed bytes from a
  counter that earlier stripes already lowered.  With several stripes a store can raise
  `OutOfMemory` while CACHE blocks remain: `ReachesFailure` is a family of runs, `FailsExactly`
  the exact condition for a given visiting order, `OneStripeFailsExactly` the one that needs no
  order, and `RetriesSucceed` bounds how often it happens in a row.
* The final chunk commits whatever has arrived (`memnode/replication.py:250-254`).
  `ShortPushCommits` is a family of short commits, and `CommitIsWhatArrived` says for all
  senders what is committed and when it has the declared size.  Senders that follow
  `_send_chunks` are exact (`TransfersExact`, `PayloadsExact`).
* A chunk's number is never read (`memnode/replication.py:224-254`), and the replay window
  lets gaps and late frames pass.  So the secure channel by itself does not keep a transfer
  whole: `LostChunkCommits` and `ExchangedChunksCommit` show a wrong block committed.
  `AnyNetworkExactly` says what can be committed and when it is the right block, and
  `PassesExactly` with `SelectionGetsThrough` that every order which a receiver takes does it.
  The byte stream underneath is what keeps the order.
* A chunk's peer is never compared with its header's.  `StrangerCommits` is a push that one peer
  opens and another ends, and `CommitIsOpenersExactly` says when a block is its opener's.
* The stream cap counts buffers of both kinds but is applied to pushes only, and the size check
  guards pushes only.  Pull buffers are bounded by the node's own requests (`PullsBounded`),
  reach that bound for every n (`PullsReach`) and hold any number of bytes (`PullHoldsAny`), and
  64 of them shut every push out (`PushRefusedExactly`, `PullsShutOut`).
* Collecting a stale buffer under a missing request id raises after its removal
  (`memnode/replication.py:203-204`): the stale buffers entered after it stay, and the message
  that made the node collect does nothing more.  `StalledStays` is a family of such runs,
  `CollectsExactly` says when collection is complete, and `RaisesApart` that between two
  collections that raise there is a complete one, so nothing stale outlives more than one.
* A store that is answered by a chunked reply leaves its entry in the pull table
  (`StoresLeaveEntries`); `PullsHeldExactly` says which ids the table holds after any run.
* Forced eviction of the guard forgets attempts that are still inside the window
  (`ForgetsExactly`), without bound for a table of any size (`ForcedEvictionExceeds`,
  `NoBoundUnderForce`); the rate limit holds for addresses of which none is forgotten so.
* The sequence number advances only after the write completes (`memnode/security.py:311-312`),
  so the channel by itself encrypts twice under one nonce if its caller sends again after a
  failed write (`FailedSendReuses`; `NonceReuseExactly` says exactly when).  Its caller does
  not: the writer of the multiplexer stops at the first failed write (`memnode/mux.py:121-123`),
  and in every run of the whole path any two sends that encrypt differ in key or nonce (`NoncesDiffer`).
* A stream that drains goes to the back of the line on its next message.  Between two turns of
  a stream every other stream sends at most one message, in all continuations, if and only if a
  second message is queued at its turn (`SharesExactly`).

## Model

| member | source | states |
|---|---|---|
| `Network.TransfersExact` | memnode/replication.py:224-292 | Any number of chunked transfers over one connection, any interleaving of producers, writer, delivery, other traffic, timeouts, collection and aborts: a transfer hands over nothing, or exactly once exactly its payload with its durability and key (or to its waiter), and only after its last message arrived |
| `Network.HandsOverExactly` | memnode/replication.py:224-273 | A transfer whose last message arrived is handed over if and only if its header opened a buffer that nothing removed before that message, and, for an answer, its waiter still waited |
| `Network.DroppedNeverCommits` | memnode/replication.py:196-222 | Once a begun transfer has lost its buffer without committing, no continuation of the run commits it or gives it a buffer again |
| `Network.PayloadSplit` | memnode/replication.py:275-292 | In every reachable state the producer's script is delivered, sent, in flight, queued and unsent messages in that order, and the payload is the reassembled bytes followed by the bytes those later parts carry |
| `Network.ChunkActive` | memnode/replication.py:224-254 | The next chunk of a live buffer is appended in place; the last one closes the buffer and commits the whole payload (a pull only while its waiter waits) |
| `Network.FinalCommits` | memnode/replication.py:250-273 | Finishing a buffer that holds the payload hands over that payload with the labels of its header, and leaves the other buffers alone |
| `Network.StepInv` | memnode/mux.py:75-118 | Every step of producer, writer, delivery, other traffic or timeout keeps the network invariant for all transfers at once |
| `Network.RunInv` | memnode/mux.py:75-118 | Every reachable network state satisfies that invariant |
| `EndToEnd.ChannelCarriesMux` | memnode/mux.py:92-136 | In every run of the whole path the receiver stays live, and what the coordinator handles is exactly a beginning of what the mux sent, however frames are repeated, whenever the timer rekeys and whether or not the last write fails |
| `EndToEnd.Refines` | memnode/security.py:302-338 | Every run of producers, writer, sender, repeating network, receiver and coordinator is a run of the transfers over the bare multiplexer |
| `EndToEnd.StepLinked` | memnode/security.py:302-338 | Each step of the whole path keeps the link between wire, mux and receiver, and is none, one or two steps over the bare multiplexer |
| `EndToEnd.PayloadsExact` | memnode/replication.py:224-292 | From payload to payload over the encrypted connection: the channel never fails, and every transfer hands over nothing or exactly its payload once |
| `EndToEnd.PayloadsHandedOver` | memnode/replication.py:224-292 | And exactly when its buffer was opened and kept until its last message was heard, and somebody still wanted it |
| `EndToEnd.RunCalled` | memnode/mux.py:114-123 | The sends tried are the messages sent and then the one lost, encoded, in order |
| `EndToEnd.NoncesDiffer` | memnode/mux.py:114-123 | In every run all sends but the last completed, and any two that encrypt, the failed one included, have different (key, nonce) pairs |
| `EndToEnd.RunCompleted` | memnode/mux.py:114-123 | In every run at most one send is not among the completed writes, the last, and all others completed |
| `Instances.HasStart` | memnode/security.py:209-239 | Every plan of transfers has a starting state of the whole path, with a codec that is given |
| `Codec.DecodeEncoded` | memnode/protocol.py:124-130 | The codec given decodes what it encodes, for every message |
| `Interference.AnyNetworkExactly` | memnode/security.py:314-338 | For every run of the sender and every network that cannot encrypt under a session key: a transfer hands over nothing, or the concatenation of the distinct chunks delivered from its header to its final chunk, and that is the payload if and only if none is missing and each stands where its content belongs |
| `Interference.WritesScript` | memnode/mux.py:92-123 | Of one transfer the writer writes a beginning of its script and nothing else |
| `Selections.MixHolds` | memnode/replication.py:224-273 | The same for any order of script messages at the coordinator, with anything else in between |
| `Selections.SelectionExactly` | memnode/replication.py:275-292 | Distinct chunks ending with the final one join to the payload if and only if they are all there and in place |
| `Selections.SelectionCommits` | memnode/replication.py:224-273 | Every such selection is committed by a push when its final chunk comes |
| `Disorder.SelectionGetsThrough` | memnode/security.py:314-338 | Every selection of chunks in an order that the receiver takes can be brought about by a network that only drops and reorders frames, and is handed over, so a wrong block is handed over exactly for those not in place |
| `Disorder.PassesExactly` | memnode/security.py:255-338 | A fresh receiver delivers all frames of any order of messages if and only if each number is new, above the lower end of the window, not of an epoch that is over and not too many epochs ahead |
| `Disorder.LostPasses` | memnode/security.py:255-275 | The chunks around a lost one pass if and only if the jump over it is within the limit |
| `Disorder.ExchangedPasses` | memnode/security.py:255-338 | Two chunks that change places pass if and only if they are of one epoch and less than a window apart |
| `Disorder.LostChunkCommits` | memnode/replication.py:224-254 | A push of which any chunk but the final one is lost on the way is committed without it, whenever the receiver tolerates the jump over that chunk |
| `Disorder.ExchangedChunksCommit` | memnode/replication.py:224-254 | A push of which two different chunks of one epoch, less than a window apart, change places is committed so |
| `Chunking.PiecesJoin` | memnode/replication.py:275-292 | Joining the pieces of a payload gives the payload back |
| `Chunking.PiecesFit` | memnode/replication.py:275-292 | All pieces but the last have the chunk size, the last is not empty and not longer |
| `Chunking.ScriptData` | memnode/replication.py:275-292 | The messages of a transfer carry its payload, byte for byte |
| `Coordinators.ReplicationCoordinator.SendChunks` | memnode/replication.py:275-292 | The offset loop emits exactly the chunk messages with sequence numbers and final flag, or the prefix the connection accepted before it refused |
| `ReplicationTheorems.ReassemblyBounded` | memnode/replication.py:296-315 | For any messages from any peers: at most MAX_INBOUND_STREAMS store-mode buffers, none above its declared size, and together at most MAX_INBOUND_STREAMS * MAX_BLOCK_SIZE bytes |
| `Reassembly.CommitIsWhatArrived` | memnode/replication.py:236-273 | For any messages: a final chunk commits exactly the chunks received under its id since the header that opened its buffer, with that header's labels, never above the declared size, and of that size if and only if their lengths add up to it |
| `Reassembly.HoldsWhatArrived` | memnode/replication.py:236-248 | An open buffer holds exactly those chunks and is labelled as its header says |
| `Reassembly.ShortPushCommits` | memnode/replication.py:250-254 | For every declared size any shorter data is committed as it is |
| `Reassembly.CommitIsOpenersExactly` | memnode/replication.py:224-273 | A committed push is what its header's peer sent if and only if no other peer sent a byte under its id since |
| `Reassembly.OpenersOwnExactly` | memnode/replication.py:224-236 | For every id and peer, the bytes since the header are those of that peer if and only if no other peer sent a byte |
| `Reassembly.StrangerCommits` | memnode/replication.py:224-236 | A push that one peer opens and another ends commits the bytes of the other, who is answered |
| `Reassembly.PullsBounded` | memnode/replication.py:208-212 | Over every run the open pull buffers never outnumber the requests begun and not ended as a load |
| `Reassembly.PullsReach` | memnode/replication.py:208-212 | For every n and declared size a run opens n of them |
| `Reassembly.PullHoldsAny` | memnode/replication.py:208-212 | A pull buffer can hold any number of bytes |
| `Reassembly.PushRefusedExactly` | memnode/replication.py:299-315 | An acceptable push is refused if and only if MAX_INBOUND_STREAMS buffers of either kind are still in time, unless collection raises |
| `Reassembly.PullsShutOut` | memnode/replication.py:307-310 | With that many pulls of its own open a node refuses every push |
| `Collecting.CollectsExactly` | memnode/replication.py:196-206 | In every reachable state collection removes all stale buffers if and only if none has a missing id or all others were entered before it |
| `Collecting.RunOrdered` | memnode/replication.py:196-212 | In every run each buffer has a place of its own in the order of the table |
| `Collecting.RaisesApart` | memnode/replication.py:196-206 | Between two collections that raise, while the clock does not go back, there is a complete one, and nothing stale at the first is left at the second |
| `Collecting.RaiseEnds` | memnode/replication.py:203-206 | A message whose collection raises opens, answers and settles nothing, and the buffer without id is gone |
| `Collecting.StalledStays` | memnode/replication.py:196-206 | A push without id, one with, and a third when both have stalled: the second stays, the third is not opened, nobody is answered |
| `ReplicationTheorems.AnswersBounded` | memnode/replication.py:224-370 | Terminal replies under a request id plus its open store buffer never outnumber the requests made under it, so one request gets at most one |
| `ReplicationTheorems.NeverConfused` | memnode/replication.py:150-192 | In every run table entries, buffers and answers belong to the request their future was made for, and what a pull collected was handed over under that request id |
| `ReplicationTheorems.SettledOnce` | memnode/replication.py:164-175 | A settled future keeps its outcome for the rest of every run |
| `ReplicationTheorems.LoadLeavesNothing` | memnode/replication.py:447-479 | After a load ends by any path, no later header, chunk or timeout recreates an entry for its id in the pending, buffer or pull tables, as long as the id is not used again |
| `ReplicationTheorems.PullEntryExactly` | memnode/replication.py:164-175 | A pull entry exists after an event exactly when it existed and the load has not ended, or a chunked answer met a waiter, be it a load's or a store's, and collection did not raise |
| `Reassembly.PullsHeldExactly` | memnode/replication.py:164-175 | Over every run the pull table holds exactly the ids whose waiting request met a chunked answer and of which no load has ended since |
| `Reassembly.StoresLeaveEntries` | memnode/replication.py:399-433 | For every n a run of n answered and ended stores leaves n entries, with no request under way |
| `Coordinators.ReplicationCoordinator.HandleMessage` | memnode/replication.py:150-192 | The dispatch refines the step function for every message, with its lookup of waiters first |
| `Coordinators.ReplicationCoordinator.ResolveWaiter` | memnode/replication.py:164-175 | A reply removes and settles its waiter; a chunked header first opens the pull buffer, and leaves the waiter if collection raises |
| `Coordinators.ReplicationCoordinator.HandleChunkMessage` | memnode/replication.py:224-273 | Unknown ids and missing chunks are ignored, an overrun drops the buffer and says so, a final chunk finishes it |
| `Coordinators.ReplicationCoordinator.FinishTransfer` | memnode/replication.py:253-273 | A pull settles its future with the bytes; a push stores them and replies with the id or the error |
| `Coordinators.ReplicationCoordinator.ServeStoreBlock` | memnode/replication.py:296-335 | Inline stores, refusals and opened buffers, with the size and stream limits in the code's order |
| `Coordinators.ReplicationCoordinator.ServeRequestBlock` | memnode/replication.py:337-370 | A request is answered inline, by a header and, unless that send is refused, chunks above the threshold, or with not found |
| `Coordinators.ReplicationCoordinator.GcBuffers` | memnode/replication.py:196-206 | Exactly the buffers past the timeout go and their waiters fail, or, if one of them has no request id, it and those entered before it, and it raises |
| `Coordinators.ReplicationCoordinator.EnterBuffer` | memnode/replication.py:208-212 | A buffer takes the next place in the table, or that of the one it replaces |
| `Coordinators.ReplicationCoordinator.OpenPullBuffer` | memnode/replication.py:208-212 | A fresh future is entered in both tables under the id, unless collection raises |
| `Coordinators.ReplicationCoordinator.AbortBuffer` | memnode/replication.py:214-222 | The buffer goes and its waiter fails |
| `Coordinators.ReplicationCoordinator.RegisterPending` | memnode/replication.py:385-388 | A fresh future waits under the id |
| `Coordinators.ReplicationCoordinator.EndLoadRemote` | memnode/replication.py:476-479 | The `finally` clears all three tables of the id |
| `Muxes.RunInv` | memnode/mux.py:75-118 | In every reachable state each stream's accepted messages are sent, in flight, lost to a failed write, queued, in order; the order deque has no duplicates and lists exactly the streams with queued messages; free slots, queued and in-flight messages add up to the capacity |
| `Muxes.StepInv` | memnode/mux.py:75-118 | Each of enqueue, take, done, fail and close keeps that |
| `Muxes.NextTurn` | memnode/mux.py:92-118 | The head message of the stream at index k of the order deque is sent after exactly k other messages, whatever else is queued meanwhile |
| `Muxes.BackloggedTurn` | memnode/mux.py:106-112 | Between two turns of a stream that stays backlogged every other waiting stream sends exactly one message |
| `Muxes.SharesExactly` | memnode/mux.py:92-118 | Between a turn of a stream and its next one every other stream sends at most one message, in all continuations, if and only if a second message is queued at that turn |
| `Muxes.EmptiedStreamWaits` | memnode/mux.py:106-112 | From every reachable state in which a turn empties its stream, any other stream can send n messages before its next turn |
| `Muxes.DepthBound` | memnode/mux.py:92-118 | A message at depth d of the stream at index i is sent within i + d * (capacity - 1) other messages, with exactly d of its own stream before it |
| `Muxes.OrderFits` | memnode/mux.py:75-112 | The streams in the order deque, the free slots and the message in flight fit the capacity |
| `Muxes.DrainedStreamWaits` | memnode/mux.py:106-112 | From an idle mux and for every n there is a run where a stream sends only after n messages of another one |
| `ChannelMuxes.ChannelMux.constructor` | memnode/mux.py:57-71 | A new multiplexer is empty with all slots free |
| `ChannelMuxes.ChannelMux.Send` | memnode/mux.py:75-90 | Refused when closed, waiting without a slot, otherwise the enqueue step |
| `ChannelMuxes.ChannelMux.Admit` | memnode/mux.py:81-90 | Takes the slot and appends to the stream's queue, entering a new stream at the back of the order |
| `ChannelMuxes.ChannelMux.Enter` | memnode/mux.py:81-87 | The slot is taken and the message queued as the enqueue step does |
| `ChannelMuxes.ChannelMux.Depth` | memnode/mux.py:88-88 | The loop over the queues adds up their lengths |
| `ChannelMuxes.ChannelMux.NoteDepth` | memnode/mux.py:88-89 | The recorded maximum becomes the larger of itself and the depth |
| `ChannelMuxes.ChannelMux.WriterTake` | memnode/mux.py:94-112 | One turn of the writer: the first stream's head, the stream re-entered at the back iff messages remain |
| `ChannelMuxes.ChannelMux.WriterDone` | memnode/mux.py:114-118 | A completed write counts and frees its slot |
| `ChannelMuxes.ChannelMux.WriterFailed` | memnode/mux.py:114-123 | A failed write frees its slot and closes the multiplexer |
| `ChannelMuxes.ChannelMux.CloseMux` | memnode/mux.py:148-154 | Closing changes nothing but the flag |
| `ReplayWindows.ReplayWindow.CheckAndUpdate` | memnode/security.py:117-143 | The shift-and-mask bitmap refines a plain set of accepted numbers: accepted exactly when in 64-bit range, not accepted before and above highest - size; bit i is set iff highest - i was accepted |
| `ReplayWindows.AfterAccepted` | memnode/security.py:117-143 | Over any run the set holds exactly the numbers some call accepted |
| `ReplayWindows.AcceptedAtMostOnce` | memnode/security.py:117-143 | No number is accepted twice in any run |
| `ReplayWindows.AfterInv` | memnode/security.py:117-143 | Every reachable window is well formed: nothing accepted lies above its highest number |
| `ChannelTheorems.Authentic` | memnode/security.py:314-338 | For any arrivals (genuine, replayed, reordered, re-prefixed, reflected or junk) a delivered plaintext is one the peer encrypted under exactly that sequence number |
| `ChannelTheorems.EachSendDeliveredOnce` | memnode/security.py:314-338 | For any arrivals every delivery has a source call of the peer with its text and number, and two deliveries have sources under different numbers: no call is delivered twice, and of several attempts under one number at most one |
| `Receivers.AfterInv` | memnode/security.py:255-275 | In every live reachable state the receiving key is the sender's chained key of the receiving epoch, and that epoch is the highest accepted number divided by the rekey interval |
| `Receivers.DeliveredAtMostOnce` | memnode/security.py:314-338 | Two deliveries of a run have different sequence numbers |
| `Receivers.DeliveredOpens` | memnode/security.py:326-338 | Whatever is delivered was sealed with the peer's chain key of its epoch, its own number as nonce and as associated data |
| `ChannelTheorems.ReliableInOrder` | memnode/security.py:302-338 | Completed sends arriving in order, with old numbers replayed anywhere and under any body: recv never raises and delivers exactly the sent sequence, for every behaviour of the rekey timer and any epoch skip limit of at least one |
| `ChannelTheorems.InOrderExactly` | memnode/security.py:255-338 | For any genuine frames and any skip limit: all is delivered while every epoch gap stays within the limit, and the connection dies at the first one that does not |
| `ChannelTheorems.TakeNext` | memnode/security.py:314-338 | The next genuine frame is delivered if and only if its epoch gap is within the limit |
| `ChannelTheorems.CompletedGenuine` | memnode/security.py:302-312 | The frames of completed sends are sealed under the chain key of their epoch and their numbers increase |
| `ChannelTheorems.CompletedGaps` | memnode/security.py:277-312 | Consecutive completed sends are at most one epoch apart |
| `ChannelTheorems.GapAtMostOne` | memnode/security.py:277-312 | One attempt, failed or not, advances the epoch by at most one |
| `Senders.NonceUnique` | memnode/security.py:302-312 | No (key, nonce) pair is used by two completed sends, of one side or of the two sides |
| `Senders.NonceReuseExactly` | memnode/security.py:302-312 | Two attempts that encrypt, failed writes included, share key and nonce if and only if none from the first to before the second completed or was moved on by the timer |
| `Senders.FailedSendReuses` | memnode/security.py:302-312 | Two bare sends of which the first fails encrypt two texts under one key and nonce |
| `Senders.NumbersGrow` | memnode/security.py:277-312 | Sequence numbers never fall, and rise between two attempts exactly when some attempt between them moved the counter |
| `Senders.FrameAt` | memnode/security.py:302-312 | Each attempt seals under the chain key of its number's epoch, or overflows exactly past 64 bits, and the send epoch is that of the last number |
| `Senders.PrepareInv` | memnode/security.py:277-312 | Preparing a send keeps epoch and counter together and moves the epoch by at most one |
| `Senders.AfterInv` | memnode/security.py:243-312 | Every reachable sender holds the chain key of its epoch |
| `KeySchedule.AdvanceFollowsChain` | memnode/security.py:246-253 | Advancing from one epoch to a later one lands on the chain key of the later one |
| `KeySchedule.ChainInjective` | memnode/security.py:156-169 | The two directions' chains never share a key, and no chain repeats one |
| `SecureChannels.SecureChannel.constructor` | memnode/security.py:446-450 | The two roles take the two base keys crosswise |
| `SecureChannels.SecureChannel.AdvanceSendTo` | memnode/security.py:246-253 | The loop applies the chain step once per epoch |
| `SecureChannels.SecureChannel.AdvanceRecvTo` | memnode/security.py:255-275 | Refuses older epochs and jumps above the limit, leaving the key alone; otherwise advances to the epoch |
| `SecureChannels.SecureChannel.MaybeTimeRekey` | memnode/security.py:277-293 | An elapsed timer moves the counter to the next epoch boundary, never back |
| `SecureChannels.SecureChannel.Send` | memnode/security.py:302-312 | One attempt is the sender's step |
| `SecureChannels.SecureChannel.Recv` | memnode/security.py:314-338 | Takes frames until one is delivered or raises; all before it are dropped replays, and each is counted |
| `SecureChannels.SecureChannel.RecvFrame` | memnode/security.py:319-338 | One frame is the receiver's step, with the window updated before decryption |
| `Quota.QuotaSafe` | memnode/blocks.py:136-170 | Under every interleaving of the lock-guarded sections of stores, frees and evictions: reserved bytes are live bytes plus reserved-not-inserted plus removed-not-released, never above the quota, and each stripe counter is the sum of its blocks |
| `Quota.FromEmpty` | memnode/blocks.py:112-122 | So it is in every state an empty store reaches |
| `Quota.StepConserves` | memnode/blocks.py:232-288 | Every single section keeps that |
| `Quota.NeverClamped` | memnode/blocks.py:239-241 | The clamp at zero never acts, in a free or in an eviction |
| `Quota.QuietWhenFinished` | memnode/blocks.py:232-241 | With no call under way the reserved bytes are the live bytes |
| `Blocks.RunInv` | memnode/blocks.py:136-214 | After any run of stores, rebinds, frees and evictions key index and keyed live blocks are in bijection and the quota holds |
| `Blocks.StoreInv` | memnode/blocks.py:136-170 | A store keeps that, failed or not, with or without a key bound before |
| `Blocks.OneEntryIsScan` | memnode/blocks.py:200-205 | Dropping one key equals the full scan that deletes every entry pointing at the block |
| `BlockTheorems.LoadsLatest` | memnode/blocks.py:161-206 | Over any history a load by key gives what a plain latest-binding map minus frees and evictions gives |
| `BlockTheorems.EvictionSound` | memnode/blocks.py:245-288 | Eviction removes CACHE blocks only, gives back exactly their bytes, and without its last victim would still be short |
| `BlockTheorems.PinnedStay` | memnode/blocks.py:259-288 | No PINNED block changes or goes |
| `BlockTheorems.OverPinnedFails` | memnode/blocks.py:145-151 | Pinned bytes plus the new block above the quota always raise OutOfMemory, for any stripes and shuffle |
| `BlockTheorems.OneStripeFailsExactly` | memnode/blocks.py:145-151 | If the CACHE blocks lie in at most one stripe, OutOfMemory is raised if and only if pinned bytes plus the new block exceed the quota |
| `BlockManagers.SingleStripeFailsExactly` | memnode/blocks.py:145-151 | The same for every store with one stripe |
| `BlockTheorems.TwoStripesFail` | memnode/blocks.py:274-274 | A family of two-stripe stores without a pinned byte that raise OutOfMemory with CACHE bytes left, and how many |
| `TwoStripes.ReachesFailure` | memnode/blocks.py:259-287 | For every n a run of 2n equal CACHE stores with two stripes, after which a block of the whole quota is refused and n - 1 of them remain |
| `BlockTheorems.FailsExactly` | memnode/blocks.py:259-287 | For any stripes and visiting order a store that needs room fails if and only if the whole stripes swept, the part of one and the first candidates of the rest fall short |
| `BlockTheorems.FailureHalvesShortage` | memnode/blocks.py:259-287 | A failure that pinned bytes do not explain at least halves the shortage |
| `BlockTheorems.RetriesSucceed` | memnode/blocks.py:145-151 | So the same store fails at most log2(shortage) times in a row, whatever the shuffles |
| `BlockTheorems.FailsWhenShort` | memnode/blocks.py:145-151 | A store that needs room fails exactly when the sweep frees less than the shortage, and a failure leaves the rest as it was |
| `Eviction.NeverOverEvicts` | memnode/blocks.py:259-287 | For any stripes and order each victim is taken only while room is short |
| `Eviction.FreesHalf` | memnode/blocks.py:259-287 | A sweep that stops with candidates left has freed at least half of the shortage |
| `Eviction.ReachExactly` | memnode/blocks.py:259-287 | Eviction frees enough if and only if that does |
| `Eviction.LateStripes` | memnode/blocks.py:262-275 | Once the freed bytes cover what is missing, the later stripes free enough if and only if their first candidates do |
| `Eviction.OneStripeExact` | memnode/blocks.py:262-275 | One stripe is swept until the room suffices or no candidate is left |
| `Eviction.TwoStripesStopEarly` | memnode/blocks.py:274-274 | Two stripes of equal bytes, both needed: the second gives up one block only |
| `BlockManagers.BlockManager.constructor` | memnode/blocks.py:112-122 | A new store is empty |
| `BlockManagers.BlockManager.StoreBlock` | memnode/blocks.py:136-170 | Too large, out of memory after eviction, or stored and bound: the store step |
| `BlockManagers.BlockManager.InsertBlock` | memnode/blocks.py:153-170 | The block goes in under a fresh id, its key moves to it and the block bound before is freed |
| `BlockManagers.BlockManager.Bind` | memnode/blocks.py:161-165 | The key is bound and the id bound before returned |
| `BlockManagers.BlockManager.LoadBlock` | memnode/blocks.py:172-179 | Loading by id finds the block wherever it is striped |
| `BlockManagers.BlockManager.LoadKey` | memnode/blocks.py:181-187 | Loading by key follows the index |
| `BlockManagers.BlockManager.FreeBlock` | memnode/blocks.py:189-206 | True iff the block lived; its bytes, its stripe share and its key entry go |
| `BlockManagers.BlockManager.FreeKey` | memnode/blocks.py:208-214 | True iff the key was bound; block and binding go |
| `BlockManagers.BlockManager.Reserve` | memnode/blocks.py:232-237 | Reserves exactly when the quota allows |
| `BlockManagers.BlockManager.ReleaseBytes` | memnode/blocks.py:239-241 | Gives bytes back, never below zero |
| `BlockManagers.BlockManager.PopBlock` | memnode/blocks.py:191-197 | Removes the block from its stripe and lowers its counter |
| `BlockManagers.BlockManager.DropKey` | memnode/blocks.py:201-205 | Removes the key only while it still points at the block |
| `BlockManagers.BlockManager.TakeVictims` | memnode/blocks.py:262-275 | The inner loop takes the prefix of candidates the stop test gives |
| `BlockManagers.BlockManager.TakeVictim` | memnode/blocks.py:267-273 | A candidate leaves its stripe and becomes a victim with its size and key |
| `BlockManagers.BlockManager.SweepStripe` | memnode/blocks.py:260-288 | One stripe visited: exactly the candidates of the stop test go, with their bytes and their key entries |
| `BlockManagers.BlockManager.ReleaseVictims` | memnode/blocks.py:277-283 | Settling the victims gives back their bytes and leaves the index as a full scan would |
| `BlockManagers.BlockManager.EvictToFree` | memnode/blocks.py:245-288 | The nested loops compute the eviction of the model and return the bytes freed |
| `GuardTheorems.RunAccounted` | memnode/ratelimit.py:91-170 | In every run the total is the sum of the per-address counts, both caps hold and the table stays within max(max_tracked_ips, max_inflight_total + 1) |
| `GuardTheorems.ReleaseFindsEntry` | memnode/ratelimit.py:127-135 | With matched releases the count of an address is what it has outstanding, so every release finds its entry |
| `GuardTheorems.EvictKeepsRunning` | memnode/ratelimit.py:151-170 | Eviction drops no address with a handshake under way and changes no entry it keeps |
| `GuardTheorems.EvictMakesRoom` | memnode/ratelimit.py:151-170 | After eviction there is room for one more address |
| `GuardTheorems.RateLimited` | memnode/ratelimit.py:91-125 | For a monotone clock and an address never dropped by force while it has an attempt in the window, every closed interval of window length holds at most max_per_ip_per_window admissions, over the whole run |
| `GuardTheorems.EvictRecalls` | memnode/ratelimit.py:151-163 | Eviction of stale addresses loses no attempt still in the window |
| `GuardTheorems.ForgetsExactly` | memnode/ratelimit.py:166-168 | A newcomer makes the table forget attempts of another address still in the window if and only if force drops that address while it has one |
| `GuardTheorems.ForcedEvictionExceeds` | memnode/ratelimit.py:166-168 | For every table size an address that comes back after each round of as many new addresses as the table holds is admitted every time, all at one instant |
| `GuardTheorems.NoBoundUnderForce` | memnode/ratelimit.py:91-170 | Whatever the limits, none of them zero, some run puts more than any number of admissions of one address into one window |
| `HandshakeGuards.HandshakeGuard.TryAcquire` | memnode/ratelimit.py:91-125 | The verdict and the new table are those of the acquire step |
| `HandshakeGuards.HandshakeGuard.See` | memnode/ratelimit.py:93-103 | The address is entered if need be, purged and marked as seen |
| `HandshakeGuards.HandshakeGuard.ReleaseSlot` | memnode/ratelimit.py:127-135 | The release step, harmless for an unknown address |
| `HandshakeGuards.HandshakeGuard.EvictIfNeeded` | memnode/ratelimit.py:151-170 | Stale idle addresses, then the longest idle ones, in that order |
| `HandshakeGuards.HandshakeGuard.FindOldest` | memnode/ratelimit.py:166-167 | The scan finds the least recently seen idle address, ties by name |
| `HandshakeGuards.HandshakeGuard.DropOldest` | memnode/ratelimit.py:166-168 | The n least recently seen idle addresses go |
| `HandshakeGuards.HandshakeGuard.PurgeAttempts` | memnode/ratelimit.py:101-103 | Leading attempts older than the cutoff go |
| `Framing.ReadAllWritten` | memnode/protocol.py:35-59 | Reading the concatenation of any legal frames gives exactly those payloads and stops at the exact offset |
| `Framing.ReadWritten` | memnode/protocol.py:35-59 | One frame reads back wherever it stands |
| `Framing.ReadIsWritten` | memnode/protocol.py:35-52 | Whatever is read was written as a frame of that payload, within the limit |
| `Framing.CutFrameFails` | memnode/protocol.py:35-52 | A frame cut at any byte is never read |
| `Framing.UnpackPacked` | memnode/protocol.py:55-59 | A packed length unpacks to itself |
| `Framing.PackUnpacked` | memnode/protocol.py:35-52 | Four bytes unpack to a 32-bit length that packs to them |
| `Framing.StreamReader.ReadExactly` | memnode/protocol.py:35-52 | Exactly n bytes, or none at the end of the stream |
| `Framing.StreamReader.ReadOne` | memnode/protocol.py:35-52 | Reads the frame at the position; an oversized length is refused before its payload is read |
| `Framing.StreamWriter.WriteOne` | memnode/protocol.py:55-59 | Appends a frame that reads back, or refuses an oversized payload and writes nothing |
| `RpcServer.RecoversRequests` | memnode/rpc.py:180-232 | The server recovers the request list of every legal client, in either codec |
| `RpcServer.RequestsRead` | memnode/rpc.py:51-87 | Frames of acceptable requests are read back as those requests |
| `RpcServer.MagicIsNoLength` | memnode/rpc.py:185-209 | The magic is not the length prefix of any legal message |
| `RpcServer.HandleClient` | memnode/rpc.py:180-232 | The loop detects the codec and dispatches the requests of the specification |
| `RpcServer.ReadRequests` | memnode/rpc.py:196-232 | With the bytes read for the negotiation used as the first length |
| `RpcServer.ReadRequest` | memnode/rpc.py:51-81 | One request frame, with or without a length already read |

## Left out

- Real cryptography, msgpack, JSON and hex: symbolic terms and opaque bytes; `EndToEnd` takes the message codec as any pair with decode after encode the identity, of which `Codec` gives one.
- The handshake transcript, signatures and the short authentication string: the model starts with the two derived base keys.
- Sockets, TLS, mDNS, the command line, token files and authentication of RPC clients: input and output without a hard invariant.
- Trust store, consent, peer registry, placement of blocks and pool-wide reads: mostly settled by one branch each; read-your-latest-write over the pool does not hold.
- Deadlock freedom of two nodes and progress after close: handlers run inside the reader and may wait for a slot.
- A frame of which a failed write left a part on the wire: it reaches the receiver whole or not at all, and a cut one is a closed stream (`CutFrameFails`).
- A rekey interval or a window size below one: the constructors raise, so the model requires at least one.
- `free_remote`, `load_remote_by_key_anywhere` and the timeout paths of `_await_reply` beyond the removal of table entries: they add easy members.
- Handlers of the coordinator are atomic steps: no table is touched after an await that a later step relies on, so the interleavings that exist are those of the steps.
- Futures are numbers in a list, buffers are values in a table: aliasing of one object under two names is not modelled.
- A pull header whose size is not an integer, and last-access timestamps of blocks.
- Empty payloads in `TransfersExact`: they are chunked only with a negative threshold, and then no chunk is sent at all.
- The key index at the grain of locks: a block is inserted before its key is bound, so the index can dangle there; the bijection is proved for atomic operations, which is how the event loop runs them.
- FailureHalvesShortage: it bounds the failures that pinned bytes do not explain; the exact condition, which depends on the visiting order, is `FailsExactly`.
- RateLimited: holds for addresses that forced eviction does not make the guard forget; `ForgetsExactly` is the exact condition for one arrival.
