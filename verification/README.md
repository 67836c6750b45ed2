# LTCP: a model of the transport and its proofs

LTCP replaces TCP between two nodes joined by a PCIe link. A sender maps its own pages into an IOMMU, announces
them through a ring of message headers in shared memory, and the receiver pulls the bytes straight into the
reading program's buffer by DMA. This project models the parts on which that depends and proves what they
guarantee, and where they do not, exactly when.

| file | part |
|---|---|
| `Constants.dfy`, `ModArith.dfy`, `CallLog.dfy` | the compile-time constants, left symbolic; remainders; calls that stop at a failure |
| `MetaRing.dfy`, `MetaRingRuns.dfy` | the header ring: in place by one side at a time, and all interleavings of both |
| `ByteRing.dfy`, `ByteRingRuns.dfy` | the byte ring of the copying (PIO) build: in place, and all runs of its threads |
| `Paging.dfy` | page counting and the chunk loop of a send |
| `Iommu.dfy`, `Dma.dfy`, `ZeroCopy.dfy` | page-by-page mapping with rollback, what DMA sees, and the byte stream end to end |
| `DmaSemaphore.dfy` | the semaphore used as lock and as completion |
| `PortLists.dfy`, `PortTable.dfy` | the connection lists as values and as linked nodes |
| `Handshake.dfy`, `HandshakeEntries.dfy`, `HandshakeSafety.dfy`, `HandshakeRuns.dfy` | connection set-up and tear-down between two nodes |
| `AcceptWakeup.dfy` | a sleeping accept and the handler that wakes it |
| `Checksum.dfy` | the IP header checksum of the Ethernet test module |

The layers meet as follows. The ring delivers in order (`FifoInEveryRun`), so `Handshake` and `ZeroCopy` use
in-order channels. `RdmaRecv` and the port-list methods are proved against value specifications, and the
interleaved models use the same specifications (`AfterXmit`, `Added`, `TakenOut`). A successful `MapUserPages`
leaves exactly the `Mapping` that `Dma` and `ZeroCopy` start from.

Components the daemon calls but does not contain are represented by what they promise: the range allocator
returns an aligned block of pages not reserved yet, or nothing; the IOMMU domain adds an entry or refuses it;
`rdma_xmit` and `local_tcp_rcv` as callees may fail, depending on everything they were handed before; a DMA
transfer moves bytes in order through the mapping.

Where the code departs from its comments the model follows the code:

- A send that finds the ring full skips the fill but still advances `end` (`rdma_daemon.c:346-351`, `:464`),
  although the message printed there says the packet is dropped. `XmitAppendsIffRoom` gives the exact condition
  for a send to be safe and `FullXmitEmptiesRing` the damage otherwise.
- `remove_port_sk` leaves the tail pointer on a removed last node (`port_functions.c:29-30`). The list methods
  carry that state; `EntriesConservedInEveryRun` shows that two nodes, whose connections have equal ports at
  both ends, never reach it.
- The chunk loop keeps the page offset of the first chunk for all of them (`rdma_daemon.c:564-567` is commented
  out). `PagesMatchIff` and `SizesAddUpIff` say for which sends the result is right.
- The consumer of the copying build advances one queue and wraps the other (`local_tcp_protocol.c:438-443`), so a
  lap is taken off a cursor only when the sending node itself receives. `AccountInEveryRun` says exactly how long
  the sender's account of space is right, and `OneWayRunOverwrites` what happens after that.
- The wait for space, the reading of `phys_start` and its update are outside any lock (`rdma_daemon.c:305-328`,
  `:339`), and a receive holds only the lock of its own socket. `ByteRingRuns` has these as separate steps of
  several threads; `StepKeepsSoundIff` says exactly which steps endanger unread bytes, `TwoSendersCollide` and
  `OutOfOrderOverwritesIff` how they are lost.
- A receive that fails, at the mapping, the start of the transfer, its time limit or its result, still unlinks its
  message (`local_tcp_protocol.c:355-422`, `:461-464`), and a mapped buffer is never unmapped. See
  `ReceiveConservesIff` and `RangeRunsOut`.
- A node may accept the entry its own connect has inserted, and a CONNECT_SUCCESS that finds no entry is ignored
  (`local_tcp_protocol.c:738-741`). `AnnouncementKeepsSafeIff` and `AnnouncedDataAcceptedIff` say exactly when
  that costs data.
- `connect` on a listening node adds to the accept queue and wakes no one (`:1116`). See `StepKeepsInvIff`.
- `callback_error` is not initialised (`local_tcp_protocol.c:265`, `rdma_daemon.c:227`). A transfer may therefore
  count as failed from its start in `DmaSemaphore`.
- `local_tcp_rcv` looks up its local port in the source port of the message (`local_tcp_protocol.c:567-568`). The
  model does the same; both ports of a connection are equal in every run (`HandshakeEntries.Addressed`).

The cited line numbers are those of the repository files named in the table.

## Model

| member | source | states |
|---|---|---|
| MetaRing.XmitAppendsIffRoom | Dolphin_master-master/TCP_DRIVER_MODULES/rdma/rdma_daemon.c:339-464 | one whole send appends its message to what the receiver will read, if and only if the cursors are not at one of the full positions; all cursors and slot contents |
| MetaRing.FullXmitEmptiesRing | Dolphin_master-master/TCP_DRIVER_MODULES/rdma/rdma_daemon.c:346-351 | since `end` advances even when no slot was found, a send on a full ring discards every queued message, and the new one too unless all N-1 slots held a message |
| MetaRing.FullTestExactness | Dolphin_master-master/TCP_DRIVER_MODULES/rdma/rdma_daemon.c:15-24 | the code's full test implies fullness modulo N-1 and misses it at exactly the cursor pairs (N-2, 0) and (N-1, 1) |
| MetaRing.MissedFullness | Dolphin_master-master/TCP_DRIVER_MODULES/rdma/rdma_daemon.c:21-32 | of the two missed positions the first is harmless and the second leaves a ring that reads as empty |
| MetaRing.RingQueue.GetFreeMetamessage | Dolphin_master-master/TCP_DRIVER_MODULES/rdma/rdma_daemon.c:15-33 | refuses exactly when the full test holds, else returns the slot of the unaliased cursor, which it has published as `end` |
| MetaRing.RingQueue.XmitMeta | Dolphin_master-master/TCP_DRIVER_MODULES/rdma/rdma_daemon.c:339-464 | the in-place send has the effect of the whole-send specification, and appends if and only if there was room |
| MetaRing.RingQueue.RdmaRecv | Dolphin_master-master/TCP_DRIVER_MODULES/rdma/rdma_daemon.c:113-197 | terminates; hands over and unqueues messages in order, all of them on return 0, and on return -1 exactly the prefix ending at the first one rejected |
| MetaRingRuns.NextInv | Dolphin_master-master/TCP_DRIVER_MODULES/rdma/rdma_daemon.c:15-33 | every producer or consumer step, in any interleaving, keeps the cursor, slot and history invariant |
| MetaRingRuns.BeginSendKeepsInvIff | Dolphin_master-master/TCP_DRIVER_MODULES/rdma/rdma_daemon.c:21-24 | starting a send keeps that invariant if and only if the ring can take a message |
| MetaRingRuns.TakeInTime | Dolphin_master-master/TCP_DRIVER_MODULES/rdma/rdma_daemon.c:21-32 | a send that starts in the second missed position does no harm if the receiver takes a slot before the sender goes on |
| MetaRingRuns.FifoInEveryRun | Dolphin_master-master/TCP_DRIVER_MODULES/rdma/rdma_daemon.c:126-137 | in every interleaving that starts no send on a full ring, delivered messages followed by what the shared memory still shows as queued are exactly the messages sent, so no slot is read before it is filled or refilled before it is read |
| MetaRingRuns.LoopEndsDrained | Dolphin_master-master/TCP_DRIVER_MODULES/rdma/rdma_daemon.c:126-135 | the receiver leaves its loop by the guard or the re-check only with everything delivered, and stops there as soon as that is so |
| MetaRingRuns.InterruptDrains | Dolphin_master-master/TCP_DRIVER_MODULES/rdma/rdma_daemon.c:126-192 | an interrupt handled without interference delivers everything queued, in order, and leaves an idle receiver and an empty ring |
| MetaRingRuns.LeaveStopsDelivery | Dolphin_master-master/TCP_DRIVER_MODULES/rdma/rdma_daemon.c:186-196 | after a rejected message nothing more is delivered until the next interrupt |
| MetaRingRuns.ScribbleUnseen | Dolphin_master-master/TCP_DRIVER_MODULES/rdma/rdma_daemon.c:354-381 | whatever a slot shows while it is being filled, it is not among the slots the receiver reads |
| MetaRingRuns.EndAfterSends | Dolphin_master-master/TCP_DRIVER_MODULES/rdma/rdma_daemon.c:457-464 | after c sends `end` is 0 if c is 0 and ((c-1) mod (N-1)) + 1 otherwise |
| MetaRingRuns.PointerWindow | Dolphin_master-master/TCP_DRIVER_MODULES/ltcp/local_tcp_protocol.c:303-322 | the raw slot pointer kept for message k reads message k until message k+N-1 starts to be filled in, and that later message once it is published |
| MetaRingRuns.SpareSlotUntouched | Dolphin_master-master/TCP_DRIVER_MODULES/rdma/rdma_daemon.c:28-32 | slot N-1 keeps its initial contents over every run |
| MetaRingRuns.SoloSendIffRoom | Dolphin_master-master/TCP_DRIVER_MODULES/rdma/rdma_daemon.c:339-464 | the interleaved sender steps taken alone are the in-place send, and keep the first-in-first-out account if and only if the ring had room |
| ByteRing.Queue.SplitCopy | Dolphin_master-master/TCP_DRIVER_MODULES/rdma/rdma_daemon.c:304-328 | the split copy puts byte i at (offset + i) modulo the aperture size, changes no other byte, and advances `phys_start` modulo the aperture size |
| ByteRing.WrapIsMod | Dolphin_master-master/TCP_DRIVER_MODULES/rdma/rdma_daemon.c:314-326 | the conditional subtraction is the remainder modulo the aperture size |
| ByteRing.Connection.ReceiveCopy | Dolphin_master-master/TCP_DRIVER_MODULES/ltcp/local_tcp_protocol.c:430-443 | the consumer reads the right bytes if they do not cross the end of the aperture; it advances the cursor of one queue, unwrapped, and takes a lap off the cursor of the other |
| ByteRingRuns.AccountIff | Dolphin_master-master/TCP_DRIVER_MODULES/rdma/rdma_daemon.c:35-39 | the space the sender computes plus the unread bytes is the aperture size if and only if the sender is at most one lap ahead of the laps taken off the consumer's cursor and the unread bytes do not fill the ring; otherwise the sum is at least twice that |
| ByteRingRuns.AccountInEveryRun | Dolphin_master-master/TCP_DRIVER_MODULES/ltcp/local_tcp_protocol.c:438-443 | the same at every instant of every run of the code as it is: unwrapped advances, laps taken off only by the sending node's own receives, any number of threads of which one at a time is between the wait and the cursor update |
| ByteRingRuns.UnwrappedAgreeIff | Dolphin_master-master/TCP_DRIVER_MODULES/ltcp/local_tcp_protocol.c:438-443 | with no receive on the sending node the laps agree for less than two apertures' worth of bytes and no longer |
| ByteRingRuns.PromptWrapsAgree | Dolphin_master-master/TCP_DRIVER_MODULES/ltcp/local_tcp_protocol.c:439-443 | with each lap taken off at once, as the comment intends, the laps always agree |
| ByteRingRuns.PeerWrapAgreesIff | Dolphin_master-master/TCP_DRIVER_MODULES/ltcp/local_tcp_protocol.c:442-443 | a receive of the sending node brings the laps back together if and only if they were at most one too far apart and the cursor had gone round |
| ByteRingRuns.StepKeepsSoundIff | Dolphin_master-master/TCP_DRIVER_MODULES/rdma/rdma_daemon.c:305-328 | with any number of threads anywhere, a step keeps every unread byte in place and counted if and only if it is no update of a cursor read too early or for bytes that do not fit, and no receive ahead of a copy |
| ByteRingRuns.SoundInEveryRun | Dolphin_master-master/TCP_DRIVER_MODULES/rdma/rdma_daemon.c:305-328 | over every run of such steps each byte copied is in place until it is received |
| ByteRingRuns.NextInv | Dolphin_master-master/TCP_DRIVER_MODULES/rdma/rdma_daemon.c:305-328 | passing the wait one thread at a time, with the laps agreeing and a byte to spare, is enough: later updates are then of that kind |
| ByteRingRuns.UnreadInEveryRun | Dolphin_master-master/TCP_DRIVER_MODULES/rdma/rdma_daemon.c:305-328 | over every run in which waits are passed in that way and messages are received in order, each byte copied is in place until it is received |
| ByteRingRuns.SendOverwritesIff | Dolphin_master-master/TCP_DRIVER_MODULES/rdma/rdma_daemon.c:305-328 | a send that passes the wait replaces a byte of the last lap if and only if the stream gets more than a lap ahead of that byte, and by which of its own bytes |
| ByteRingRuns.SendKeepsAccountIff | Dolphin_master-master/TCP_DRIVER_MODULES/rdma/rdma_daemon.c:35-39 | the account survives a send if and only if it was smaller than the space left and does not get two laps ahead: equal cursors read as empty |
| ByteRingRuns.FilledRingIsOverwritten | Dolphin_master-master/TCP_DRIVER_MODULES/rdma/rdma_daemon.c:305-328 | after a send that took all the space the next send passes the wait and replaces the oldest unread byte |
| ByteRingRuns.LapsBehindOverwrites | Dolphin_master-master/TCP_DRIVER_MODULES/ltcp/local_tcp_protocol.c:438-443 | in every state with the laps apart and bytes unread, the wait lets a send through that replaces the oldest of them |
| ByteRingRuns.OneWayRunOverwrites | Dolphin_master-master/TCP_DRIVER_MODULES/ltcp/local_tcp_protocol.c:438-443 | a run that ends so, from the start: traffic in one direction in sends of one byte, one sender, receives in order and space to spare at each wait |
| ByteRingRuns.AdvanceKeepsIff | Dolphin_master-master/TCP_DRIVER_MODULES/rdma/rdma_daemon.c:309-326 | a cursor update keeps the account if and only if the cursor value the thread had read is still current |
| ByteRingRuns.TwoSendersCollide | Dolphin_master-master/TCP_DRIVER_MODULES/rdma/rdma_daemon.c:305-328 | two threads that read `phys_start` before either updates it copy to the same place: the first one's bytes are replaced, and the account loses them |
| ByteRingRuns.OutOfOrderOverwritesIff | Dolphin_master-master/TCP_DRIVER_MODULES/ltcp/local_tcp_protocol.c:433-438 | after a younger message is received first, a send replaces the oldest unread byte if and only if it is larger than the space there was before |
| ByteRingRuns.StraightReadIff | Dolphin_master-master/TCP_DRIVER_MODULES/ltcp/local_tcp_protocol.c:430-436 | the consumer's read, which does not go round the end, finds a message's bytes where they lie if and only if the message does not lie across the end, and then reads what was sent |
| Paging.NrPagesCountsPagesTouched | Dolphin_master-master/TCP_DRIVER_MODULES/ltcp/local_tcp_protocol.c:56-75 | for a non-empty range the computed count is the number of pages that hold one of its bytes |
| Paging.NrPagesIsSpan | Dolphin_master-master/TCP_DRIVER_MODULES/ltcp/local_tcp_protocol.c:56-75 | the branches and remainders compute last page - first page + 1 |
| Paging.OnePageIff | Dolphin_master-master/TCP_DRIVER_MODULES/ltcp/local_tcp_protocol.c:62-69 | the count is 1 if and only if the range is empty or its first and last byte lie on one page |
| Paging.NrPagesFitsPageArray | Dolphin_master-master/TCP_DRIVER_MODULES/rdma/rdma_daemon.c:239 | the count never exceeds len/PAGE_SIZE + 2, the size of the page array of a send |
| Paging.NrPagesMonotone | Dolphin_master-master/TCP_DRIVER_MODULES/ltcp/local_tcp_protocol.c:321-333 | a shorter range never needs more pages |
| Paging.ReceiveFitsPageArray | Dolphin_master-master/TCP_DRIVER_MODULES/ltcp/local_tcp_protocol.c:264 | the page array of a receive, allocated for the length asked for, is large enough after the length is cut to the message size |
| Paging.RangeFitsIff | Dolphin_master-master/TCP_DRIVER_MODULES/ltcp/local_tcp_protocol.c:56-75 | n mapped pages hold the whole range if and only if n is at least the computed count |
| Paging.LtcpDirectCopy | Dolphin_master-master/TCP_DRIVER_MODULES/rdma/rdma_daemon.c:491-581 | the loop passes the specified chunks to `rdma_xmit` in order, all of them or up to and including the first that fails |
| Paging.SizesAddUpIff | Dolphin_master-master/TCP_DRIVER_MODULES/rdma/rdma_daemon.c:560-579 | the sizes of the chunks add up to the length of the send if and only if the chunks before the last do not exceed it; else `left_to_send` has wrapped |
| Paging.ChunksConsecutive | Dolphin_master-master/TCP_DRIVER_MODULES/rdma/rdma_daemon.c:561-577 | each chunk starts where the one before it ends, the first at the start of the send |
| Paging.ChunksShareOut | Dolphin_master-master/TCP_DRIVER_MODULES/rdma/rdma_daemon.c:561-577 | the chunks share out exactly the pages of the send, MAX_PAGES_SEND each but for the last, and every one of them is given the page offset of the first |
| Paging.PagesMatchIff | Dolphin_master-master/TCP_DRIVER_MODULES/rdma/rdma_daemon.c:561-577 | every chunk is given exactly the pages its own bytes lie on if and only if the send is page aligned or fits one chunk |
| Paging.AlignedOrSingleAddsUp | Dolphin_master-master/TCP_DRIVER_MODULES/rdma/rdma_daemon.c:560-579 | the sizes of an aligned or single-chunk send add up to its length |
| Paging.MisalignedSendWraps | Dolphin_master-master/TCP_DRIVER_MODULES/rdma/rdma_daemon.c:564-577 | a send that starts two or more bytes into a page and is one byte short of MAX_PAGES_SEND pages long takes two calls, of which the second announces 2^64 - 1 bytes |
| Iommu.MapUserPages | Dolphin_master-master/TCP_DRIVER_MODULES/ltcp/local_tcp_protocol.c:153-250 | all or nothing: success maps entry i of the allocated block to page i for every i and changes nothing else; a refusal at any page restores table and allocator exactly and clears the handle; earlier errors leave the handle alone; which outcome occurs is determined |
| Iommu.IovaRange.UnmapFirst | Dolphin_master-master/TCP_DRIVER_MODULES/ltcp/local_tcp_protocol.c:231-233 | the rollback loop removes exactly the entries added so far |
| Iommu.MappingAt | Dolphin_master-master/TCP_DRIVER_MODULES/ltcp/local_tcp_protocol.c:203-219 | entry i, at block + i * PAGE_SIZE, leads to page i of the list |
| Dma.BusLookup | Dolphin_master-master/TCP_DRIVER_MODULES/ltcp/local_tcp_protocol.c:211-212 | a bus address is translated by the entry of the page boundary below it, the offset added |
| Dma.MappingMapsBlock | Dolphin_master-master/TCP_DRIVER_MODULES/ltcp/local_tcp_protocol.c:343-374 | the table left by a successful map call maps the block to the user's pages in order |
| Dma.BusSeesUser | Dolphin_master-master/TCP_DRIVER_MODULES/ltcp/local_tcp_protocol.c:374 | bus address block + offset_first_page + k and user address start + k are the same physical byte |
| Dma.DmaReadsUserRange | Dolphin_master-master/TCP_DRIVER_MODULES/rdma/rdma_daemon.c:291 | a pull from a mapped send reads the sender's bytes in order |
| Dma.DmaLandsInUserRange | Dolphin_master-master/TCP_DRIVER_MODULES/ltcp/local_tcp_protocol.c:368-402 | a pull of len bytes into a mapped receive changes user bytes [start, start+len), in order, and no other user byte |
| Dma.DmaTouchesNothingElse | Dolphin_master-master/TCP_DRIVER_MODULES/ltcp/local_tcp_protocol.c:368-402 | nor any other physical byte |
| ZeroCopy.AnnouncedIsUserRange | Dolphin_master-master/TCP_DRIVER_MODULES/rdma/rdma_daemon.c:287-291 | the offset announced for a chunk fetches exactly the chunk's user bytes |
| ZeroCopy.ChunkMatches | Dolphin_master-master/TCP_DRIVER_MODULES/rdma/rdma_daemon.c:561-577 | every chunk of an aligned or single-chunk send is given the page count and the page offset of its own range |
| ZeroCopy.MisalignedFetchableIff | Dolphin_master-master/TCP_DRIVER_MODULES/rdma/rdma_daemon.c:561-577 | the first chunk of a misaligned send of several chunks can be fetched if and only if the page behind its block is mapped, for something else |
| ZeroCopy.MisalignedXmitFetchableIff | Dolphin_master-master/TCP_DRIVER_MODULES/rdma/rdma_daemon.c:561-577 | so it is for what such a send announces first |
| ZeroCopy.PullLands | Dolphin_master-master/TCP_DRIVER_MODULES/ltcp/local_tcp_protocol.c:325-402 | mapping the receive buffer and pulling leaves the fetched bytes in it and disturbs no other user byte |
| ZeroCopy.ReceiveDelivers | Dolphin_master-master/TCP_DRIVER_MODULES/ltcp/local_tcp_protocol.c:321-402 | a receive that succeeds delivers the first bytes of the message, as many as fit its buffer, one that fails none; the message is consumed either way |
| ZeroCopy.ReceiveConservesIff | Dolphin_master-master/TCP_DRIVER_MODULES/ltcp/local_tcp_protocol.c:321-464 | a receive keeps the stream complete if and only if the message is empty, or the buffer is no smaller than it and the mapping and the transfer both succeed: a failing receive consumes its message |
| ZeroCopy.StoreConservesIff | Dolphin_master-master/TCP_DRIVER_MODULES/rdma/rdma_daemon.c:264-291 | a store by the sending program keeps the stream if and only if the announced bytes read as before; the pages are shared, not copied |
| ZeroCopy.NextInv | Dolphin_master-master/TCP_DRIVER_MODULES/ltcp/local_tcp_protocol.c:256-468 | sends chunk by chunk, failing ones included, receives, and stores by either process keep: bytes pulled + bytes in flight = bytes sent |
| ZeroCopy.StreamInEveryRun | Dolphin_master-master/TCP_DRIVER_MODULES/ltcp/local_tcp_protocol.c:256-468 | over every run of aligned or single-chunk sends and receives that meet the condition above, nothing is lost, altered or reordered, and when no message is queued the bytes pulled are the bytes sent |
| ZeroCopy.WholeSendInRun | Dolphin_master-master/TCP_DRIVER_MODULES/rdma/rdma_daemon.c:491-581 | an aligned or single-chunk send, with receives and stores between its chunks, adds exactly the program's bytes [start, start+len) to the stream when it returns 0, and the bytes of the chunks announced until then when it returns -1 |
| ZeroCopy.SendThenReceive | Dolphin_master-master/TCP_DRIVER_MODULES/ltcp/local_tcp_protocol.c:325-402 | a send of one chunk and a receive into a large enough buffer can be carried out, and leave the sender's bytes in the receiver's buffer |
| ZeroCopy.BlocksAreKept | Dolphin_master-master/TCP_DRIVER_MODULES/ltcp/local_tcp_protocol.c:368-423 | no receive unmaps its block, so each one that maps its buffer takes pages of the I/O range for good |
| ZeroCopy.RangeRunsOut | Dolphin_master-master/TCP_DRIVER_MODULES/ltcp/local_tcp_protocol.c:368-372 | a range of n I/O pages serves at most n receives; all later ones are refused |
| DmaSemaphore.NextInv | Dolphin_master-master/TCP_DRIVER_MODULES/ltcp/local_tcp_protocol.c:376-423 | free tokens + threads before their transfer + transfers in flight + threads past `down_timeout` + lost tokens is 1, kept by every step of any number of threads, timeouts included |
| DmaSemaphore.PassesOnlyAfterOwnCallback | Dolphin_master-master/TCP_DRIVER_MODULES/ltcp/local_tcp_protocol.c:380-416 | a thread gets through `down_timeout` only after the callback of its own transfer, and with no transfer in flight |
| DmaSemaphore.TransfersNeverOverlap | Dolphin_master-master/TCP_DRIVER_MODULES/ltcp/local_tcp_protocol.c:380-423 | a transfer starts only when none is in flight and no thread is past `down_timeout` with the semaphore still to release; a thread may still be waiting for an earlier transfer, which is over |
| DmaSemaphore.CompletedMeansOver | Dolphin_master-master/TCP_DRIVER_MODULES/ltcp/local_tcp_protocol.c:412-423 | a transfer that completes for its thread was started, is over, and had neither an error status nor an uninitialised error word; one reported as failed had one of them |
| DmaSemaphore.FailedIff | Dolphin_master-master/TCP_DRIVER_MODULES/ltcp/local_tcp_protocol.c:24-31 | the error word of a transfer reads as set if and only if its callback was given an error status or the word was never initialised |
| DmaSemaphore.OwnTransfer | Dolphin_master-master/TCP_DRIVER_MODULES/ltcp/local_tcp_protocol.c:393-412 | the transfer a thread waits for, or is through with, is one that it started |
| DmaSemaphore.EndsOutside | Dolphin_master-master/TCP_DRIVER_MODULES/ltcp/local_tcp_protocol.c:404-423 | however its transfer ends, the thread is done with the semaphore, and no other thread is affected |
| DmaSemaphore.UndisturbedTransfer | Dolphin_master-master/TCP_DRIVER_MODULES/ltcp/local_tcp_protocol.c:380-423 | with the token free any thread can have a transfer from start to end, and the token is free again |
| DmaSemaphore.FailureLosesToken | Dolphin_master-master/TCP_DRIVER_MODULES/ltcp/local_tcp_protocol.c:404-422 | a refused start and an error status are reported to the thread, and each loses the token |
| DmaSemaphore.LateTimeoutFreesToken | Dolphin_master-master/TCP_DRIVER_MODULES/ltcp/local_tcp_protocol.c:412-416 | a thread may time out even with its transfer over; the token is then free for others |
| DmaSemaphore.LeakedCountsLosses | Dolphin_master-master/TCP_DRIVER_MODULES/ltcp/local_tcp_protocol.c:404-422 | each failed start and each reported callback error loses one token, nothing else does, and at most one is ever lost |
| DmaSemaphore.OneLossStopsEverything | Dolphin_master-master/TCP_DRIVER_MODULES/rdma/rdma_daemon.c:396-451 | after the first loss no thread passes either `down` for the rest of the run; only timeouts still happen |
| PortTable.PortSkArr.AddPortSk | Dolphin_master-master/TCP_DRIVER_MODULES/ltcp/port_functions.c:90-120 | appends to the forward chain with all links right, except on a stale tail, where the chain is unchanged; NULL is ignored |
| PortTable.PortSkArr.PutPortSk | Dolphin_master-master/TCP_DRIVER_MODULES/ltcp/port_functions.c:50-81 | takes the head off the chain, or returns NULL if it is empty |
| PortTable.PortSkArr.GetPortSk | Dolphin_master-master/TCP_DRIVER_MODULES/ltcp/port_functions.c:132-156 | finds the first match, and NULL exactly if there is none |
| PortTable.PortSkArr.RemovePortSk | Dolphin_master-master/TCP_DRIVER_MODULES/ltcp/port_functions.c:2-47 | takes exactly the first match out of the chain; the tail pointer stays right unless the last of several nodes is taken; a NULL pointer is followed exactly if that happens on a stale tail |
| PortTable.LeaveTailBehind | Dolphin_master-master/TCP_DRIVER_MODULES/ltcp/port_functions.c:29-30 | removing the last of two nodes leaves the tail on the removed node |
| PortTable.StaleTailJoinsTables | Dolphin_master-master/TCP_DRIVER_MODULES/ltcp/port_functions.c:90-120 | a node added after that can become reachable from another table that it was never added to |
| PortLists.AppendedAfterRemoveIff | Dolphin_master-master/TCP_DRIVER_MODULES/ltcp/port_functions.c:29-30 | the entry added next after a removal is appended if and only if the removal did not take the last of several entries |
| PortLists.FoundAfterAdd | Dolphin_master-master/TCP_DRIVER_MODULES/ltcp/port_functions.c:132-156 | an added entry is the one looked up if and only if the tail was right and no like entry was there |
| HandshakeEntries.NextInv | Dolphin_master-master/TCP_DRIVER_MODULES/ltcp/local_tcp_protocol.c:548-754 | every application step of any number of threads and every handled message keeps each live socket on exactly one list, once, and every list keyed by its port and peer |
| HandshakeEntries.EntriesConservedInEveryRun | Dolphin_master-master/TCP_DRIVER_MODULES/ltcp/local_tcp_protocol.c:1334-1358 | in every run of two nodes, with any number of connects and closes, no entry is lost, duplicated or in two tables, and no tail pointer is ever left behind |
| HandshakeEntries.WhoCreatesWhoRetires | Dolphin_master-master/TCP_DRIVER_MODULES/ltcp/local_tcp_protocol.c:689-745 | the effect of each step on all lists: connect and an arriving CONNECT create one entry, close and an arriving CLOSE retire one, and accept and CONNECT_SUCCESS each take exactly one, the oldest, from the incoming list and append exactly that one to the established list, in two halves; no other list changes |
| HandshakeEntries.RejectedIff | Dolphin_master-master/TCP_DRIVER_MODULES/ltcp/local_tcp_protocol.c:580-751 | the handler answers -1 if and only if the kind is unknown, or it is data for a port with no entry; a dropped CONNECT is answered 0 |
| HandshakeEntries.HeldUnderItsKeyIff | Dolphin_master-master/TCP_DRIVER_MODULES/ltcp/port_functions.c:132-150 | an entry is found under the port of its list and the other node's address, and under no other key |
| HandshakeEntries.MatchIsHead | Dolphin_master-master/TCP_DRIVER_MODULES/ltcp/port_functions.c:15-21 | between two nodes the match is always the head of its list, so the stale tail and the NULL pointer cannot occur |
| HandshakeEntries.CrashIffCloseUnknown | Dolphin_master-master/TCP_DRIVER_MODULES/ltcp/local_tcp_protocol.c:722-735 | the handler follows a NULL pointer if and only if a CLOSE arrives for a port with no entry |
| HandshakeRuns.CloseTearsDown | Dolphin_master-master/TCP_DRIVER_MODULES/ltcp/local_tcp_protocol.c:798-820 | a close takes the entry off one end and its CLOSE, on arrival, off the other; both nodes can use the port again, and keep listening on it |
| HandshakeEntries.SimultaneousCloseCrashes | Dolphin_master-master/TCP_DRIVER_MODULES/ltcp/local_tcp_protocol.c:722-735 | both ends closing at once makes both nodes do so |
| HandshakeRuns.CrossingClosesCrash | Dolphin_master-master/TCP_DRIVER_MODULES/ltcp/local_tcp_protocol.c:722-735 | a run of an ordinary connect and accept after which both ends may close at once, with that effect |
| HandshakeSafety.SafeStep | Dolphin_master-master/TCP_DRIVER_MODULES/ltcp/local_tcp_protocol.c:580-746 | every connect, accept, send and delivery, by either node and in any order, keeps the two ends of each port linked, provided a CONNECT_SUCCESS arrives where an entry awaits it or is complete |
| HandshakeSafety.AnnouncementKeepsSafeIff | Dolphin_master-master/TCP_DRIVER_MODULES/ltcp/local_tcp_protocol.c:738-741 | an arriving CONNECT_SUCCESS keeps the ends linked if and only if it is answered so, or another one is on its way with no data before it |
| HandshakeSafety.SafeInEveryRun | Dolphin_master-master/TCP_DRIVER_MODULES/ltcp/local_tcp_protocol.c:1334-1358 | the link holds in every reachable state |
| HandshakeSafety.NextHistory | Dolphin_master-master/TCP_DRIVER_MODULES/ltcp/local_tcp_protocol.c:1220 | only an accept that waits makes a port listened on, and nothing ends that, a close included |
| HandshakeSafety.ThreadsNeverStuck | Dolphin_master-master/TCP_DRIVER_MODULES/ltcp/local_tcp_protocol.c:548-754 | in a safe run every held entry can be inserted, every announcement sent and every message handled, whichever comes first |
| HandshakeSafety.CloseChangesIff | Dolphin_master-master/TCP_DRIVER_MODULES/ltcp/local_tcp_protocol.c:802-820 | in any run a close follows no NULL pointer, and changes nothing if and only if there is no entry |
| HandshakeSafety.DataFindsItsConnection | Dolphin_master-master/TCP_DRIVER_MODULES/ltcp/local_tcp_protocol.c:580-612 | every REGULAR sent by a node with an established entry for the port is accepted on arrival, in every interleaving of any number of connects and accepts, also by several threads at once |
| HandshakeSafety.AnnouncedMeansAccepted | Dolphin_master-master/TCP_DRIVER_MODULES/ltcp/local_tcp_protocol.c:1353-1358 | an established entry on a node that has not accepted on the port, or a CONNECT_SUCCESS in flight to a node, means that the other node has called accept and holds its entry |
| HandshakeSafety.DataAcceptedIff | Dolphin_master-master/TCP_DRIVER_MODULES/ltcp/local_tcp_protocol.c:580-598 | with nothing before it on the way, data is accepted if and only if the other node holds an entry for the port; the code holds no sender back until then |
| HandshakeSafety.SuccessCompletesIff | Dolphin_master-master/TCP_DRIVER_MODULES/ltcp/local_tcp_protocol.c:1104-1116 | once connect has inserted its entry, a node that has not accepted on the port answers every CONNECT_SUCCESS; with one entry, if and only if connect has inserted it |
| HandshakeSafety.AnnouncedDataAcceptedIff | Dolphin_master-master/TCP_DRIVER_MODULES/ltcp/local_tcp_protocol.c:738-741 | data sent behind a CONNECT_SUCCESS is accepted if and only if that was answered |
| HandshakeRuns.SeparateRolesAreSafe | Dolphin_master-master/TCP_DRIVER_MODULES/ltcp/local_tcp_protocol.c:1104-1116 | if on no port a node both connects and accepts, and each CONNECT_SUCCESS arrives after connect's insertion, every run without a close, with data over established connections only, is such a run |
| HandshakeRuns.EstablishedReachable | Dolphin_master-master/TCP_DRIVER_MODULES/ltcp/local_tcp_protocol.c:1104-1358 | an undisturbed connect and accept is one, and leaves exactly one established entry at each end |
| HandshakeRuns.OwnAcceptRejected | Dolphin_master-master/TCP_DRIVER_MODULES/ltcp/local_tcp_protocol.c:1055-1116 | a node that connects to a port and accepts on the same port number takes its own entry, and its data is rejected although its own table holds the connection |
| AcceptWakeup.StepKeepsInvIff | Dolphin_master-master/TCP_DRIVER_MODULES/ltcp/local_tcp_protocol.c:1116 | a step keeps the wake-up invariant if and only if it is not a connect on the listening node at a moment when the acceptor is bound to sleep and no wake-up is due |
| AcceptWakeup.RunInv | Dolphin_master-master/TCP_DRIVER_MODULES/ltcp/local_tcp_protocol.c:1201-1277 | the sleep and wake-up invariant over all interleavings of the acceptor, the handler of CONNECT and CONNECT_SUCCESS, and harmless local connects |
| AcceptWakeup.NoLostWakeUp | Dolphin_master-master/TCP_DRIVER_MODULES/ltcp/local_tcp_protocol.c:1248-1274 | an acceptor bound to sleep with a connection queued is always about to be woken by the handler, and that wake-up works |
| AcceptWakeup.AcceptAnswers | Dolphin_master-master/TCP_DRIVER_MODULES/ltcp/local_tcp_protocol.c:1248-1282 | accept waits only if it found nothing, and returns from its wait with success if and only if there is an entry, whether or not it was about to give up |
| AcceptWakeup.FoundIsThere | Dolphin_master-master/TCP_DRIVER_MODULES/ltcp/local_tcp_protocol.c:1261-1334 | unless a CONNECT_SUCCESS takes an entry away, one found by accept is there when accept takes it |
| AcceptWakeup.QueueIsBalance | Dolphin_master-master/TCP_DRIVER_MODULES/ltcp/local_tcp_protocol.c:706-741 | over every run the queue holds what CONNECT and local connects added, less what accept and CONNECT_SUCCESS took |
| AcceptWakeup.WokenAndServed | Dolphin_master-master/TCP_DRIVER_MODULES/ltcp/local_tcp_protocol.c:1248-1340 | a sleeping accept is woken by the CONNECT it waits for and returns with that connection |
| AcceptWakeup.GivesUp | Dolphin_master-master/TCP_DRIVER_MODULES/ltcp/local_tcp_protocol.c:1255-1282 | a sleeping accept can give up when its time is over, and leaves the queue as it was |
| AcceptWakeup.WakeUpOnce | Dolphin_master-master/TCP_DRIVER_MODULES/ltcp/port_functions.c:199-211 | a wake-up takes the sleeper off the wait queue and makes it run |
| AcceptWakeup.HarmfulConnectSleepsOn | Dolphin_master-master/TCP_DRIVER_MODULES/ltcp/local_tcp_protocol.c:1116 | after a harmful local connect the acceptor sleeps on beside its entry, over every run without a timer, a later wake-up or a CONNECT_SUCCESS that takes the entry away |
| AcceptWakeup.SuccessMakesGood | Dolphin_master-master/TCP_DRIVER_MODULES/ltcp/local_tcp_protocol.c:738-741 | a CONNECT_SUCCESS handled next can take it away, if no other message is being handled, and leaves the state as before |
| AcceptWakeup.HarmfulConnectReachable | Dolphin_master-master/TCP_DRIVER_MODULES/ltcp/local_tcp_protocol.c:1116 | a state in which a local connect does that harm is reachable |
| AcceptWakeup.ConnectDroppedIff | Dolphin_master-master/TCP_DRIVER_MODULES/ltcp/local_tcp_protocol.c:620-634 | a CONNECT is dropped if and only if its connection exists already or no accept call has waited on the port before |
| Checksum.CalcChecksum | Dolphin_master-master/Ethernet test module/test_module.c:246-259 | for any number of words the two loops terminate and return the complement of the ones' complement sum with the checksum word taken as zero |
| Checksum.SumLaws | Dolphin_master-master/Ethernet test module/test_module.c:252-253 | the sum is that of the words, each counted once, however they are grouped |
| Checksum.FoldOnce | Dolphin_master-master/Ethernet test module/test_module.c:255-256 | a carry fold keeps the ones' complement value, never reaches zero, and makes the sum smaller |
| Checksum.AcceptedIffChecksum | Dolphin_master-master/Ethernet test module/test_module.c:246-259 | a receiver's sum is all ones (section 1 of RFC 1071) if and only if the checksum word is the one computed, or the other representation of zero |

## Left out

- MetaRingRuns.FifoInEveryRun: runs in which some send starts on a full ring are excluded; `BeginSendKeepsInvIff` shows that each such start breaks the invariant, and `SoloSendIffRoom` that the send taken alone loses messages. In one position a receiver that is quick enough can still undo the harm (`TakeInTime`).
- ByteRingRuns.UnreadInEveryRun: runs in which a wait is passed with the laps apart, with no byte to spare, or by a second thread before the first has updated the cursor, and runs with receives out of order; `StepKeepsSoundIff` and `LapsBehindOverwrites`, `FilledRingIsOverwritten`, `TwoSendersCollide` and `OutOfOrderOverwritesIff` show the losses.
- ByteRingRuns.AccountInEveryRun: the two writers of `phys_end` each update it in one step, and its wrap at 2^32 bytes, long after two laps, is not modelled; the wait loop of the sender is its exit condition; the copy is one step. A receive shorter than its message releases only what it read, which is a smaller release here.
- ByteRing.Connection.ReceiveCopy: a read past the end of the aperture has no result in the model, and the copy to the program does not fail.
- Paging.LtcpDirectCopy: byte addresses and page counts are natural numbers; only `left_to_send` wraps. The truncation of the page count to a C int starts at 2^31 pages, beyond what one system call can pass.
- HandshakeSafety.DataFindsItsConnection: runs without a close, in which data is sent once an entry of the port is established, and no CONNECT_SUCCESS arrives unanswered; `DataAcceptedIff`, `AnnouncementKeepsSafeIff` and `HandshakeRuns.OwnAcceptRejected` show that the last two are needed, `HandshakeRuns.SeparateRolesAreSafe` when the last holds.
- AcceptWakeup.NoLostWakeUp: one accepting thread per port, and no harmful local connect (`StepKeepsInvIff`). Signals and non-blocking sockets appear only as giving up.
- ZeroCopy.StreamInEveryRun: misaligned sends of several chunks are excluded, since their chunks map too few pages (`PagesMatchIff`, `MisalignedFetchableIff`); the sender's program leaves alone what it is sending or has announced, one thread sends at a time, receives meet the condition of `ReceiveConservesIff`, and no two pages of the receiver's buffer share a physical page. A transfer that outlives its time limit stores into the receiver's memory as `ReceiverStores`.
- ZeroCopy.WholeSendInRun: a chunk that finds the header ring full is not a step here; `MetaRing.XmitAppendsIffRoom` is about that loss.
- PortTable.PortSkArr.RemovePortSk: after a NULL pointer is followed nothing more is promised. The list locks are not modelled: each operation runs alone on its list.
- Checksum.CalcChecksum: the caller in the test module discards the result; the header layout and byte order of the words are not modelled.
- Header fields of a message are written and read as one unit, except that a slot may hold anything while it is being filled; addresses other than the two nodes' are not modelled.
- Ports are natural numbers: port 65535 lies outside the tables of 65535 entries, and the byte order of ports is not modelled.
- Weak memory ordering across the PCIe link: steps are sequentially consistent. The header ring has one producer and one consumer at a time, as the two spinlocks provide; the byte ring has no lock.
- Segment, aperture and interrupt set-up and error codes of the DMA library: an external component.
- Socket buffers, socket cloning, file descriptor replacement, protocol registration and page pinning: kernel plumbing that decides none of these properties.
- A receive without a message: sleeping and the receive timeout.
- `loop_and_close_sockets` and `check_if_local_or_remote`: nothing calls them.
- The Ethernet build, the preload experiments, the user-space programs, scripts and measurements.
