# emacZero: verified models of the data path and of provisioning

This project models the parts of emacZero in which several parties work on shared state, and
proves what they rely on. `dafny verify dfyconfig.toml` checks all of it.

**The direct AXI DMA rings.** N receive buffers move between a free FIFO, a circular descriptor
ring shared with the S2MM engine, a ready FIFO, a worker, the network stack, and back. `RxRing`
says what each lock-protected section and each engine step does to the ring, `RxRingProofs` what
each of them keeps, and `RxSystem` lets any number of threads, the recovery work item and the engine
interleave, one lock-protected section, FIFO operation or counter update at a time. `RxOwnership`
keeps the books of the five owner counters, and `RxRuns` and `RxPublished` state what holds after every
run; `RxOrder` follows the order of the buffers through ring and FIFOs. `RxSchedules` builds runs; `RxStaleTail`
and `RxParked` use it to reach the branch the driver calls a completion without a buffer, and a full ring that the
engine does not fetch from. `RxDriver` is the same code with its arrays, indices and loops, proved against the steps.
`RxPoll` and `RxPollProofs` say what a refill and a poll come to when nothing interleaves, and `RxSolo` that a thread
of the interleaved system then does just that. `TxRing` and `TxDriver` are the same for the 32 transmit descriptors.
Pool size, posting limit and number of threads are arbitrary.

**The frame gate** (`FrameGate`, `FrameGateRtl`) is one clock edge of the multi-slot
store-and-forward filter with its pipelined RAM read. `Frames` says what the gate is for without
mentioning the gate; `FrameGateProofs`, `FrameGateRuns`, `FrameGateTheorems` and `FrameGateSlots` prove for which
numbers of slots it does exactly that, what each frame costs in cycles, and what the counters mean; `FrameGateStats`
tells the drain statistics from the run alone. The 3029 cycles that docs/performance_plan.md:1298 records as the
longest drain are that cost for a frame of 1514 bytes.

**The store-and-forward buffer** (`StoreForward`, `StoreForwardRuns`): order, no interruption inside
a frame, and the exact condition under which it stalls for good.

**Provisioning.** `Crc32`, `ProvisionCodec`, `ProvisionPacket` and `HostCodec` are the packet, written
twice; `Bits` and `AddressCheck` the address check, written twice; `InternetChecksum` and
`ResponseFrame` the frame that carries a response; `Provision`, `ProvisionBoard` and `ProvisionRuns`
the discover/offer/config/ack thread with the address change and its rollback; `Mailbox` the JTAG
mailbox.

**The sink seqlock.** `SinkStats` and `SinkWriter` are the writers, storing 64-bit counters as two
words, `SinkTotals` what the counters sum up, `StatsReader` the host's reader.

`Modular`, `BigEndian`, `Ledgers`, `BdStatus` and `Wrappers` are shared vocabulary.

## What the proofs found

* `emz_rx_direct_update_tail` has no `posted > 0` test, while `emz_rx_direct_arm` has one. A refiller
  that posted before a recovery and publishes after it can hand the engine slot 0 of an armed, empty
  ring. Nothing is ever written to an unrecorded buffer, because that descriptor has length zero, but
  the engine halts and may flag an error in its status, and the next poll then finds a completion in
  a slot without a buffer. That branch is reachable exactly through such a publication:
  `RxRuns.NoOrphanCompletion` is one half, `RxRuns.EmptyPublicationOrphans` the other.
  `RxStaleTail.OrphanCompletionReachable` gives a run from initialisation for every pool of three or more
  buffers and every limit of two or more, in which no thread takes a step while a recovery goes on;
  `RxStaleTail.OrphanCompletionReachableAlways` one for every pool and every limit above zero, in which a
  worker refills during a recovery.
* A refill can open nothing. If every buffer is received and released while one refiller posts them all, the
  newest slot is the one at which the engine parked, and its publication changes nothing: the ring is full,
  and stays so until the engine is reset. `RxParked.StallReachableIff` shows that runs reach this for exactly the
  posting limits that do not keep one slot free, and `RxParked.StallStays` that no thread gets out of it.
* The token field of an ACK is always zero: the token is cleared before the response is built
  (`ProvisionRuns.EveryAck`). From every state of every run there is a DISCOVER and a CONFIG that get such an ACK
  (`ProvisionRuns.AckHappens`), so the field never is the token of the session, which is that of the CONFIG.
* The mailbox header says that the board mirrors the epoch on success (app/src/provision.h:25); the code mirrors it
  whenever it serves a request. `Mailbox.FailureIsAcknowledged` is a request that every board refuses and
  acknowledges, and `Mailbox.FailureAcknowledgedIff` says exactly when a poll acknowledges a failure. The status word
  tells the two apart (`Mailbox.ServesUnacknowledged`).
* The prefix word of the mailbox is cut to a byte before it is checked. The board takes a word that the host's
  check refuses exactly if the word is 256 or more and its low byte is acceptable (`Mailbox.PrefixWordIff`);
  272 is such a word (`Mailbox.PrefixWordExample`).
* The slot registers of the frame gate are at most four bits wide, and SLOT_COUNT is not checked against that. With
  more than 16 slots a frame can be written over one that is complete and not yet sent, and its beats sent in
  the other's place. `FrameGateSlots.SlotSafetyIff` and `FrameGateSlots.RefinementIff` state that the gate's promises
  hold in every run exactly if there are at most 16 slots.
* The store-and-forward buffer stalls for good exactly when one frame has brought in depth bytes
  without its tlast.

## Assumptions about what is outside

* The S2MM engine completes descriptors in ring order from CURDESC through TAILDESC and then pauses.
  A TAILDESC write of the value it is paused at opens nothing. RS alone fetches nothing before the
  first TAILDESC write after a reset. A descriptor of length zero transfers nothing and halts it.
* The FIFOs, the locks and the work queue are those of the kernel: each operation is atomic, and the
  poll and recovery work items share one queue. The model lets more interleavings happen than the
  hardware does: any idle thread may poll, work or refill, and polls may even overlap a recovery.
* Network stack calls succeed or fail arbitrarily; cycle counts, bus timing and the contents of memory
  at power-up are parameters.
* With a posting limit of zero the start reports ENOSPC and does not arm; in the interleavings it arms an empty
  ring, as a recovery does.

## Model

| member | source | states |
|---|---|---|
| RxRingProofs.PostOneKeepsInv | drivers/ethernet/eth_emaczero.c:1079-1119 | posting keeps the ring invariant: window, indices against the unbounded post count, statuses, engine position, tail history |
| RxRingProofs.ConsumeKeepsInv | drivers/ethernet/eth_emaczero.c:1183-1235 | so does consuming a completion |
| RxRingProofs.UpdateTailKeepsInv | drivers/ethernet/eth_emaczero.c:1054-1077 | so does publishing the tail, from whatever thread |
| RxRingProofs.RebuildKeepsInv | drivers/ethernet/eth_emaczero.c:1387-1404 | so does the rebuild of a recovery |
| RxRingProofs.ArmKeepsInv | drivers/ethernet/eth_emaczero.c:1321-1367 | so does the whole of arming |
| RxRingProofs.CompleteKeepsInv | drivers/ethernet/eth_emaczero.c:1017-1052 | so does an engine that fills a descriptor and writes its status back |
| RxRingProofs.UpdateTailCovered | drivers/ethernet/eth_emaczero.c:1044-1077 | after a publication every descriptor from CURDESC through TAILDESC has a recorded buffer, a length and a clear status, if and only if it is not an empty publication |
| RxRingProofs.ArmStartCovered | drivers/ethernet/eth_emaczero.c:1346-1367 | arming always leaves such a range: it never publishes a tail on an empty ring |
| RxRingProofs.PublishesNewest | drivers/ethernet/eth_emaczero.c:1054-1077 | a publication after a post names the slot just posted |
| RxRingProofs.PublicationOpensAll | drivers/ethernet/eth_emaczero.c:1054-1077 | the condition under which a publication gives the engine everything that is posted |
| RxRingProofs.PostAllEnqueues | drivers/ethernet/eth_emaczero.c:1121-1161 | a refill appends its buffers to the ring queue in the order given |
| RxRingProofs.ConsumeDequeues | drivers/ethernet/eth_emaczero.c:1217-1232 | buffers are consumed in the order in which they were posted |
| RxSystem.StepSafe | drivers/ethernet/eth_emaczero.c:1079-1430 | every step of every thread, of the recovery and of the engine keeps the ring invariant and the recovery phases |
| RxRuns.DmaSafety | drivers/ethernet/eth_emaczero.c:1017-1430 | in every run the engine transfers only into the buffer recorded for its slot, whose completion is not yet reported |
| RxRuns.RingWindow | drivers/ethernet/eth_emaczero.c:1079-1119 | in every run the recorded slots are the posted ones from the consume index on, posted equals inflight and is at most N and the limit, the tail is the last of them, and every other slot has a clear status, slot 0 after a rejection on a never-posted ring excepted |
| RxRuns.TailMonotonic | drivers/ethernet/eth_emaczero.c:1044-1077 | between two resets TAILDESC writes follow posting order, each naming the newest post |
| RxRuns.OnePlace | drivers/ethernet/eth_emaczero.c:549-598 | in every run each buffer is in exactly one place, and none is lost or held twice |
| RxRuns.OwnerSum | drivers/ethernet/eth_emaczero.c:482-512 | the five owner counters add up to N plus the hand-offs in progress, counted one by one |
| RxRuns.OwnerSumBound | drivers/ethernet/eth_emaczero.c:482-512 | outside recovery the sum is off by at most one for each hand-off in progress |
| RxRuns.NoOrphanCompletion | drivers/ethernet/eth_emaczero.c:1200-1215 | without an empty publication the branch for a completion without a buffer is unreachable and the scatter-gather rule holds throughout |
| RxRuns.EmptyPublicationOrphans | drivers/ethernet/eth_emaczero.c:1200-1215 | with one it can be reached two steps later |
| RxStaleTail.OrphanCompletionReachable | drivers/ethernet/eth_emaczero.c:1054-1077 | a run from initialisation that gets there, for three or more buffers and a limit of two or more, with no step of a thread during a recovery |
| RxStaleTail.OrphanCompletionReachableAlways | drivers/ethernet/eth_emaczero.c:1054-1077 | a run that gets there for any number of buffers and any limit above zero, with a refill during a recovery |
| RxParked.StallReachableIff | drivers/ethernet/eth_emaczero.c:1054-1077 | runs reach a publication that leaves a full ring unfetched exactly if the posting limit is at least N |
| RxParked.StallStays | drivers/ethernet/eth_emaczero.c:1079-1161 | and then no thread and no frame changes the ring any more |
| RxPublished.NothingUnpublished | drivers/ethernet/eth_emaczero.c:1121-1161 | while no recovery goes on and no thread is between a post and its publication, the tail is the newest post: the engine is to fetch all that is posted, or is parked at a full ring |
| RxDriver.Driver.constructor | drivers/ethernet/eth_emaczero.c:1489-1505 | a zeroed ring with every buffer free, which satisfies the invariant |
| RxDriver.Driver.Start | drivers/ethernet/eth_emaczero.c:1510-1519 | the first refill posts what fits, in order, and arms, unless it posted nothing: then ENOSPC |
| RxDriver.Driver.ProgramBd | drivers/ethernet/eth_emaczero.c:1017-1042 | the descriptor and the recorded buffer of one slot, and no other |
| RxDriver.Driver.Post | drivers/ethernet/eth_emaczero.c:1079-1119 | the in-place post is the post step, refusals included |
| RxDriver.Driver.Refill | drivers/ethernet/eth_emaczero.c:1121-1161 | how many buffers a refill posts, which, in what order, what becomes of the refused one, and that it publishes once |
| RxDriver.Driver.Take | drivers/ethernet/eth_emaczero.c:1183-1249 | the locked part of a poll round is the consume step, with the clamped length and the error flag |
| RxDriver.Driver.Poll | drivers/ethernet/eth_emaczero.c:1170-1302 | if anything was completed the poll ends with an empty free FIFO or a ring full to the limit, otherwise it changes nothing; what it posted is published; no buffer of ring and FIFOs is lost or doubled; the ready FIFO gains the completed frames in order; a recovery is requested exactly if the poll began at a completion without a buffer |
| RxPollProofs.RefillTells | drivers/ethernet/eth_emaczero.c:1121-1161 | a refill posts from the front of the free FIFO until that is empty or the ring is full to the limit, puts the refused buffer at the back, and publishes the newest slot exactly if it posted |
| RxPollProofs.RoundTells | drivers/ethernet/eth_emaczero.c:1217-1285 | a round takes the oldest posted buffer; it goes to the ready FIFO, or, if its frame is whole and the interceptor takes it, to the free FIFO, and then the ring is filled again at once |
| RxPollProofs.PollTells | drivers/ethernet/eth_emaczero.c:1287-1302 | the closing refill of a poll, told by its effect, and that it does not happen without a completion |
| RxPollProofs.PollKeepsBuffers | drivers/ethernet/eth_emaczero.c:1170-1302 | free FIFO, recorded slots and ready FIFO hold the same buffers before and after a poll |
| RxPollProofs.ReceivedTells | drivers/ethernet/eth_emaczero.c:1235-1249 | reported length and error flag in bits of the status word: the low 26 bits cut to 1518, and bits 30 to 28 or a cut |
| RxPollProofs.KeptTells | drivers/ethernet/eth_emaczero.c:1250-1285 | a frame is withheld from the worker exactly if it is whole and the interceptor takes it |
| BdStatus.StatusBits | drivers/ethernet/eth_emaczero.c:141-143 | the tests of a completion are the bit masks of a 32-bit status word |
| RxOrder.OrderKept | drivers/ethernet/eth_emaczero.c:1121-1285 | in every run buffers leave the ring in posting order, and each FIFO in the order in which they were put there |
| RxSolo.PollIsRun | drivers/ethernet/eth_emaczero.c:1170-1302 | in every state of every run, the steps of one idle thread that nothing interrupts make of ring and FIFOs what the driver's poll computes |
| RxPoll.PollInOrder | drivers/ethernet/eth_emaczero.c:1217-1285 | every completed frame reaches the ready FIFO in posting order, less those the interceptor takes |
| RxPoll.OrphanFoundIff | drivers/ethernet/eth_emaczero.c:1200-1215 | a poll ends at a completion without a buffer only if it began there |
| RxDriver.Driver.Arm | drivers/ethernet/eth_emaczero.c:1321-1367 | reset, CURDESC, RS and, if something is posted, the tail |
| RxDriver.Driver.RebuildRing | drivers/ethernet/eth_emaczero.c:1387-1404 | every recorded buffer is collected in slot order and the ring is empty |
| RxDriver.Driver.Recover | drivers/ethernet/eth_emaczero.c:1369-1430 | after a recovery the ring holds the front of the pool of free and orphaned buffers, and the engine runs, fetching exactly if anything is posted |
| TxRing.Conservation | drivers/ethernet/eth_emaczero.c:868-1015 | in every run populated is completed plus inflight modulo 32, inflight at most 32, and starts are completions, errors and inflight together |
| TxRing.ReservationHolds | drivers/ethernet/eth_emaczero.c:946-1015 | after a successful reservation the setup posts the reserved slot and cannot report ENOSPC |
| TxRing.FilledBufferIsFree | drivers/ethernet/eth_emaczero.c:1821-1858 | without bursts the buffer being filled is referenced by no descriptor in flight |
| TxRing.BurstOwnsRing | drivers/ethernet/eth_emaczero.c:1980-2020 | while a burst posts, every descriptor in flight points at its one buffer |
| TxDriver.Driver.Reclaim | drivers/ethernet/eth_emaczero.c:907-944 | the loop reclaims exactly the finished descriptors, adds those without an error bit to the completions and the others to the errors, clears them and touches no other |
| TxDriver.ReclaimCounts | drivers/ethernet/eth_emaczero.c:907-944 | the two counters grow by the successes and the failures among the statuses of the old ring |
| TxDriver.ReclaimClears | drivers/ethernet/eth_emaczero.c:907-944 | reclaimed descriptors lose control and status, and no other descriptor changes |
| TxDriver.Driver.Reserve | drivers/ethernet/eth_emaczero.c:946-970 | a reservation fails exactly if the ring is full and 2000 waits pass without a completion |
| TxDriver.Driver.SetUp | drivers/ethernet/eth_emaczero.c:972-1015 | the new ring is the old one with one more descriptor, or ENOSPC on a full one |
| Frames.SplitUnique | hardware/rtl/axis_frame_error_drop.v:204-226 | the frames of a beat stream and its unfinished rest are the only way to cut it at its tlasts |
| FrameGateProofs.CommitsWhatFits | hardware/rtl/axis_frame_error_drop.v:199-226 | a slot is committed exactly at the last beat of a frame without an error beat that fits, and holds it |
| FrameGateProofs.DrainRuns | hardware/rtl/axis_frame_error_drop.v:228-280 | an edge of the drain pipeline accepts the next beat of the frame or none, and costs one of its two cycles a beat unless stalled |
| FrameGateTheorems.Refinement | hardware/rtl/axis_frame_error_drop.v:72-291 | with at most 16 slots the accepted output is at every clock a prefix of the complete, error-free, fitting input frames, in order, and all of them once no slot is full |
| FrameGateSlots.RefinementIff | hardware/rtl/axis_frame_error_drop.v:48-68 | for any number of slots, the output is such a prefix in every run exactly if there are at most 16 |
| FrameGateTheorems.OfferIsStable | hardware/rtl/axis_frame_error_drop.v:228-280 | a beat offered and not accepted is offered again unchanged |
| FrameGateTheorems.SlotSafety | hardware/rtl/axis_frame_error_drop.v:76-84 | with at most 16 slots, fill slot is drain slot plus full count modulo the slots, and no write reaches a slot that holds a frame |
| FrameGateSlots.SlotSafetyIff | hardware/rtl/axis_frame_error_drop.v:48-61 | for any number of slots, no write reaches a slot that holds a frame in any run exactly if there are at most 16 |
| FrameGateSlots.OverwritesOldest | hardware/rtl/axis_frame_error_drop.v:214-218 | with more, 16 short frames that nobody takes bring the fill slot round to the oldest of them |
| FrameGateSlots.SendsWrongBeat | hardware/rtl/axis_frame_error_drop.v:214-218 | with more, a run that sends the first beat of one frame and the last beat of another |
| FrameGateTheorems.Conservation | hardware/rtl/axis_frame_error_drop.v:206-266 | good frames are samples plus full slots, modulo 2^32 |
| FrameGateTheorems.Verdicts | hardware/rtl/axis_frame_error_drop.v:199-266 | for any number of slots each verdict is counted, the five buckets sum to the samples, and at frame boundaries the three counters add up to the frames received, modulo 2^32 |
| FrameGateTheorems.DrainCost | hardware/rtl/axis_frame_error_drop.v:190-250 | sending frames takes 2L + 1 draining cycles each plus the stalled ones, and drain_cycles_total says so modulo 2^32 when the drain is idle |
| FrameGateTheorems.SampleCost | hardware/rtl/axis_frame_error_drop.v:239-266 | the cycles sampled for one frame are 2L + 1 and its own stalls |
| FrameGateTheorems.ReadyIff | hardware/rtl/axis_frame_error_drop.v:76-226 | after any run the gate takes a beat exactly if a slot is free or its frame has outgrown the slot, and shows no tlast without a valid beat |
| FrameGateStats.StatsTell | hardware/rtl/axis_frame_error_drop.v:239-266 | after any run every drain statistic, maxima and histogram included, is the one of the list of draining edges and stalls of the frames sent |
| FrameGateStats.SpanCost | hardware/rtl/axis_frame_error_drop.v:228-280 | and that list has, frame by frame, 2L + 1 edges and the stalls, without any modulus |
| FrameGateTheorems.Empties | hardware/rtl/axis_frame_error_drop.v:228-291 | with a ready sink and no input the gate is empty after an exact number of edges, and not before |
| FrameGateRtl.Registers.Clock | hardware/rtl/axis_frame_error_drop.v:70-295 | registers and RAM updated in place, all wires sampled first, make exactly the modelled edge |
| StoreForwardRuns.OrderAndCount | hardware/rtl/axis_store_forward.v:72-111 | output is a prefix of input, the pending count is the number of tlasts inside and never saturates |
| StoreForwardRuns.Handshakes | hardware/rtl/axis_store_forward.v:76-126 | a byte is taken exactly if there is room for it and for a tlast, one is offered exactly if a whole frame is inside, and it is the next of the input; the debug counters count the tlasts |
| StoreForwardRuns.NoUnderrun | hardware/rtl/axis_store_forward.v:104-111 | inside a frame the next byte is always on offer |
| StoreForwardRuns.NoInterruption | hardware/rtl/axis_store_forward.v:104-111 | once offered, valid stays up until a tlast is taken, and the byte stays until it is taken |
| StoreForwardRuns.StuckIff | hardware/rtl/axis_store_forward.v:76-83 | neither side can move exactly when depth bytes of one frame are in without its tlast |
| StoreForwardRuns.StuckForever | hardware/rtl/axis_store_forward.v:76-111 | and then nothing ever changes |
| StoreForward.Buffer.Clock | hardware/rtl/axis_store_forward.v:72-200 | pointers, memory and counters updated in place make exactly the modelled edge |
| Crc32.BurstDetected | app/src/provision.c:117-138 | changing up to four consecutive bytes of any message changes its CRC-32 |
| Crc32.CheckValue | app/src/provision.c:130 | the CRC of the ASCII digits 1 to 9 is CBF43926, the check value of CRC-32 |
| Crc32.GeneratorTerms | app/src/provision.c:130 | the generator has the terms that section 3.2.9 of IEEE Std 802.3 lists |
| ProvisionCodec.PacketFields | app/src/provision.c:117-131 | what lies at each fixed offset of a packet, which begins with EZCF |
| ProvisionCodec.RoundTrip | app/src/provision.c:117-151 | decoding undoes encoding for every version-1 message, and no other version is accepted |
| ProvisionCodec.DecodeThenEncode | app/src/provision.c:117-151 | encoding undoes decoding when the two pad bytes are zero |
| ProvisionCodec.BodyBurstRejected | app/src/provision.c:133-139 | any change confined to four consecutive bytes of bytes 0 to 31 is rejected |
| ProvisionCodec.CrcChangeRejected | app/src/provision.c:133-139 | so is any change to the CRC field alone |
| ProvisionPacket.EncodeMessage | app/src/provision.c:117-131 | the encoder fills its 36 bytes of the buffer with the packet and leaves the rest |
| ProvisionPacket.DecodeMessage | app/src/provision.c:133-151 | the decoder accepts and reads what the packet format says |
| HostCodec.SameBytes | scripts/emacz_config.py:69-86 | the script encodes exactly when every field fits, and then sends the firmware's bytes |
| HostCodec.SameFields | scripts/emacz_config.py:89-107 | both decoders accept the same packets and read the same fields |
| HostCodec.HostRoundTrip | scripts/emacz_config.py:69-107 | what the script sends reads back field for field on both sides |
| HostCodec.HostErrors | scripts/emacz_config.py:69-107 | which error the script raises, and exactly when, on both ways |
| AddressCheck.NetmaskTells | app/src/provision.c:83-88 | the netmask of a prefix is 2^32 less the network size, takes an address to its network, and is 255.255.255.0 for 24 |
| AddressCheck.SameCheck | app/src/provision.c:90-115 | the mask check of the board accepts exactly the addresses the interval check of the host (scripts/emacz_config.py:224-234) accepts |
| InternetChecksum.Fold | app/src/provision.c:160-163 | the folding loop ends, on the 16-bit value congruent to the sum modulo 65535 |
| InternetChecksum.Ipv4Checksum | app/src/provision.c:153-164 | the complement of the folded word sum, with the 32-bit accumulator |
| InternetChecksum.ReChecksToZero | app/src/main.c:268-279 | any header re-checks to zero when filled with its checksum, and with no other word but the second form of zero |
| InternetChecksum.FillChecksum | app/src/main.c:321-332 | filling in the checksum makes the header check and changes nothing else |
| ResponseFrame.Build | app/src/provision.c:166-207 | the response frame, byte for byte, with what a receiver reads at the fixed offsets |
| ResponseFrame.FrameFields | app/src/provision.c:166-207 | group MAC derived from the group, board MAC, type, hop limit 1, protocol 17, source the board's address, destination 239.255.77.90, lengths from the frame's own, both ports 5004 |
| ResponseFrame.FrameIsReadable | app/src/provision.c:166-207 | its IP header checks and its payload decodes to the message that was sent |
| Provision.ApplyKeeps | app/src/provision.c:209-250 | a change takes effect wholly or leaves the stored triple; installed implies attached, whichever stack calls fail |
| Provision.DoneIff | app/src/provision.c:215-249 | a change is done exactly if the address is acceptable and the remove, add and netmask calls succeed |
| Provision.PrefixMaskIs | app/src/provision.c:83-88 | what is installed for a prefix is its netmask in arithmetic |
| Provision.ReturnTells | app/src/provision.c:209-250 | each return value has its one cause |
| Provision.DoneStack | app/src/provision.c:219-249 | after a change the new address is attached in place of the old, and no other is touched |
| Provision.FailureLeaves | app/src/provision.c:219-242 | what a failed change leaves of the new address, by the call that failed |
| Provision.RollbackRestores | app/src/provision.c:219-242 | when a failed change leaves the old address installed, and with its mask |
| Provision.BootstrapUsable | app/src/provision.c:398-411 | the bootstrap address is usable and within 169.254.1.0 to 169.254.254.255 of section 2.1 of RFC 3927, for every MAC |
| Provision.BootstrapTells | app/src/provision.c:398-411 | the MAC bytes a bootstrap address came from |
| Provision.BootstrapCollides | app/src/provision.c:398-411 | when two boards get one bootstrap address |
| Provision.StartTells | app/src/provision.c:383-432 | what the start attaches, with the netmask of prefix 16, and that no token is current |
| Provision.AnswerTable | app/src/provision.c:337-366 | the whole table of answers: an OFFER to every DISCOVER, silence exactly for other opcodes or another MAC, and for a CONFIG of this board an ACK or a NACK with its one cause, the request's xid, the stored configuration and the token unchanged |
| Provision.HandleTable | app/src/provision.c:333-366 | a packet that does not decode changes nothing and gets no answer; any other gets that of the table |
| Provision.TokenTells | app/src/provision.c:338-343 | the token gives back the cycle count of its DISCOVER unless it was replaced by 1, and is never zero |
| Provision.StartInv | app/src/provision.c:383-432 | the thread starts with the invariant, whether or not the bootstrap could be attached |
| ProvisionBoard.Board.constructor | app/src/provision.c:398-432 | the statics after the start |
| ProvisionBoard.Board.ApplyConfig | app/src/provision.c:209-250 | the stack calls in their order have the modelled effect and result: done exactly if the address is acceptable and the calls succeed, with the address attached under its netmask, else the stored triple as it was |
| ProvisionBoard.Board.PollMailbox | app/src/provision.c:252-309 | one mailbox poll in place is the modelled poll |
| ProvisionBoard.Board.ThreadTurn | app/src/provision.c:317-367 | one turn of the thread loop: the mailbox, then the packet, which gets the answer of the table, then the frame of the response, byte for byte |
| ProvisionRuns.After | app/src/provision.c:311-368 | in every run the stored configuration is usable, installed implies attached, and at most one ACK follows each DISCOVER |
| ProvisionRuns.EveryAck | app/src/provision.c:337-366 | every ACK carries the xid of the latest DISCOVER and answers a CONFIG with the token offered then, the first time only; its own token field is zero and not that token |
| ProvisionRuns.AckIff | app/src/provision.c:348-366 | an ACK is sent exactly for a CONFIG of this board with the current xid and token and a usable address, when the stack calls succeed |
| ProvisionRuns.AckHappens | app/src/provision.c:337-366 | from every state of every run a DISCOVER and a CONFIG get any usable address acknowledged and applied |
| ProvisionRuns.StepAcks | app/src/provision.c:361-366 | when an ACK is sent its address is attached with its netmask, in arithmetic, and gateway |
| Mailbox.ServesUnacknowledged | app/src/provision.c:252-309 | while only the board writes ack_epoch, a poll serves exactly when the magic matches and the epoch is not acknowledged; its status is success exactly if the change was made |
| Mailbox.FailureIsAcknowledged | app/src/provision.c:298-303 | a request that fails on every board is acknowledged |
| Mailbox.FailureAcknowledgedIff | app/src/provision.c:298-308 | when a poll acknowledges a failure |
| Mailbox.PrefixWordIff | app/src/provision.c:295-298 | the board accepts a prefix word that the host refuses exactly if it is 256 or more and its low byte is acceptable |
| Mailbox.PrefixWordExample | app/src/provision.c:295 | 272 passes for 16 |
| Mailbox.ExactlyOnce | app/src/provision.c:269-308 | over bumps that wait for the ack, magic drop-outs and reboots every request is served once, in order, and the status word is that of the latest |
| SinkStats.SnapshotIsConsistent | app/src/main.c:664-713 | a sequence word even before and unchanged after gives the block as it was after a whole number of updates |
| SinkTotals.TotalTells | app/src/main.c:688-713 | the counters after any updates are the sums, counts, greatest and latest values of these, modulo 2^64 |
| SinkWriter.Page.AccountPacket | app/src/main.c:688-701 | the writer takes only seqlock steps and adds exactly its packet |
| SinkWriter.Page.AccountError | app/src/main.c:703-713 | so does the error accounting |
| SinkWriter.Page.AccountReceive | app/src/main.c:791-799 | so does the receive-call accounting |
| StatsReader.FieldOffsets | scripts/read_perf_stats.py:238-250 | offset of each field and the total, for any field list |
| StatsReader.FieldsInOrder | scripts/read_perf_stats.py:238-250 | fields are aligned, ascending and do not overlap |
| StatsReader.FieldsPacked | scripts/read_perf_stats.py:238-250 | each field starts at the first multiple of its size behind the one before |
| StatsReader.SinkBlock | scripts/read_perf_stats.py:118-129 | the sink fields form one gapless block of 17 words behind the sequence word |
| StatsReader.ReadStats | scripts/read_perf_stats.py:266-284 | the words of the first of eight attempts whose sequence word is even and unmoved, or none; the sink block in them is its state after a whole number of updates |
| StatsReader.CountersWhole | scripts/read_perf_stats.py:288-291 | each 64-bit counter reads back whole from its two words, and the five other words in their places |
| StatsReader.AcceptedIsConsistent | scripts/read_perf_stats.py:266-284 | what an accepted attempt has read of the sink block is its state after a whole number of updates, for any timing with fewer than 2^32 increments |

## Left out

- The receive path over the generic DMA driver (drivers/ethernet/eth_emaczero.c:1543-1682): the
  partition of buffers does not hold there.
- The order in which two threads that poll at once put their frames into the ready FIFO, and liveness of recovery: requests that arrive while one ends are
  dropped by design of the code.
- FrameGateSlots.RefinementIff: for a depth of two or more; a one-byte slot has no address bits.
- TxRing.Conservation: the profiling burst of raw frames appears as posts that share one buffer, each
  counted when it is posted rather than at the end of the burst.
- TxRing.FilledBufferIsFree: claimed for runs without that burst, whose descriptors all point at one buffer.
- Missing hardware (`-ENODEV`) and failed allocations (`-ENOMEM`) at start, cache maintenance, and the
  profiling counters beside the owner counters.
- The vendor memories and FIFOs of the synthesis branches, and the asynchronous assertion of reset.
- The elastic and asynchronous FIFOs, the wrappers, clocking and the boot ROM.
- The bench, profile and zperf threads of the application, and the packet interceptor's parsing.
- Sockets, discovery and the other host scripts.
- StatsReader.AcceptedIsConsistent: that one attempt sees fewer than 2^32 increments of the sequence word is
  a condition on the reader's speed and stays a premise.
- Mailbox.ExactlyOnce: a poll is atomic, and the host bumps only when its last request is acknowledged.
- The maximum transmission unit is not defined in this repository; 1518 is the descriptor length the
  driver's own comment gives.
