# QEMU-VCS bridge: a verified model

The repository joins QEMU to an RTL simulator (VCS).  A C "bridge" carries PCIe requests,
completions, DMA and interrupts between three threads in two processes, and on top of it the
simulator side emulates a virtio-net device that reaches a second such pair over an Ethernet
link in shared memory.  This project models the bridge and the device in Dafny and proves what
they promise: over every interleaving, every run and every input.

`dafny verify dfyconfig.toml` checks everything.

## How the model is laid out

* **The protocol over TCP** (`TcpProtocol`, `TcpInvariants`, `TcpTheorems`, `TcpProgress`,
  `TcpSuccess`, `TcpLost`, `TcpHistory`, `TcpExamples`): the vCPU thread, the poller and the VCS thread as a transition
  system over the FIFO channels of the three-connection mode.  `VcsBridge` has the VCS entry
  points as imperative code over that machine, with the cache of `TlpCache` in its ring of slots.
* **The protocol over shared memory** (`ShmProtocol`, `ShmInvariants`, `ShmTheorems`,
  `ShmProgress`, `ShmHistory`, `ShmExamples`).
* **Matching completions to requests** (`Completions`).
* **Rings** (`RingSlots`, `RingBuffer`, `RingInterleaving`, `SlotWindow`) and the deferred
  interrupts of the QEMU plugin (`MsiQueue`), one memory access at a time where two threads
  share them.
* **The split-virtqueue device** (`VirtqueueChain`, `VirtqueueRing`, `Virtqueues`, `DmaPort`,
  `MacPort`; transmit: `VirtqueueTx`, `VirtqueueTxRuns`; receive: `VirtqueueScatter`,
  `VirtqueueRx`).  `VirtqueueLayout` ties it to the bytes a driver stores.  DMA calls may fail at any time, and a write reported as failed may have
  landed.
* **The Ethernet link** (`Xorshift`, `LinkModel`, `EthWire`, `EthPort`).
* **From guest to guest** (`GuestSending`, `EndToEnd`, `EndToEndSteps`, `EndToEndTheorems`,
  `EndToEndRetry`).
* **Framing** (`Framing`) and **capability discovery** (`CapabilityWalk`).
* `GuestMemory`, `Subsequences` and `Modular` are shared.

Code that changes state in the source is a class or a method with loops here, proved against
functions on values; what the source promises is then proved about those functions and about
runs of them.  Fields and parameters marked ghost or called history record what happened and
steer nothing; `TcpHistory` and `ShmHistory` tell from the actions of a run what they must hold.

Some predicates are wrapped in a quantifier that is triggered by the wrapped predicate itself
(`VirtqueueRx.Kept`, `GuestSending.Fine`, `TcpInvariants.Inv`, ...), and some methods get a
function as ghost parameter together with such a wrapper.  This says the same as the predicate,
but a proof only looks inside where it mentions it, which keeps every proof small.

## What turned out different from what one might expect

* In TCP mode, `bridge_vcs_init_ex_rc` (bridge/vcs/bridge_vcs.c:1244-1280) does not set
  `g_initialized`, which every DMA entry point tests first (lines 870 and 1007).  Started that
  way, all DMA is refused (`TcpProgress.RefusedUntilInitialized`).  The other results are
  about the state after it was set.
* Over TCP, a poll throws away any notification that is not a TLP.  If it meets the late
  notification of an abandoned DMA, no later DMA ever takes its own completion
  (`TcpProgress.NoDmaAfterDiscard`, `TcpSuccess.CallCanSucceed`).  Reads never return 0 again;
  a write can, with the completion of an earlier write of equal tag.
* The counters behind the tags start 3000 apart, so tags do repeat, and a write can return 0 that
  has not been carried out (`TcpExamples.WritesCollide`, `ShmExamples.TagsCollide`).
* Over TCP, giving up a read and then writing (or the converse) makes VCS take one message for
  another (`TcpExamples.MixedHappens`).  Reads behind abandoned reads are fine, as the comments
  in the source say.
* Over shared memory one abandoned DMA is enough to put every later DMA one completion behind
  (`ShmTheorems.GivingUpIsForever`).  As long as tags do not repeat, interrupts
  still never overtake a call that returned 0 (`ShmTheorems.InterruptAfterData`), only writes
  that were given up (`ShmExamples.Overtaken`).
* A comment in cosim_dma_cb (qemu-plugin/cosim_pcie_rc.c:139-141) says that DMA_DATA precedes
  DMA_REQ for a write; both sides send and expect the request first, and so does the model.
* A DMA write that fails ends all reads after it: over TCP because the answers come in order and
  the write's comes first (`TcpLost.NoReadAfterLostWrite`), over shared memory because every later
  call takes an earlier completion (`ShmTheorems.NothingSucceedsAfter`).  So after a failed write
  every transmit call stops at its first read, and no packet goes out twice
  (`EndToEndTheorems.NeverTwice`).  The code of the transmit queue relies on this: on a DMA port
  that recovered from a failed write, the packet of a head whose used entry could not be written
  would go out again (`EndToEndRetry.RetryHappens`), and a used index that could not be written
  would stay behind although later calls succeed (`VirtqueueTxRuns.IndexLost`).
* The wait loops end after 1000 messages, and every announced TLP is one.  A thousand of them in
  front of its notification make a call give up although nothing has failed
  (`ShmExamples.MustGiveUp`, `TcpExamples.Exhaust`), with the consequences above.
* Over TCP, a read of more than 4096 bytes overruns the receive buffer of bridge_dma_read_bytes
  (bridge/vcs/bridge_vcs.c:878): tcp_recv_dma_data does not look at the size it is given
  (bridge/common/transport_tcp.c:381-444).  The transmit queue asks for that much when one buffer
  of a chain holds more than 4096 bytes of the packet (`VirtqueueChain.TooLongForOne`,
  bridge/vcs/virtqueue_dma.c:148-151).  What the program does then is left open; no such read
  returns 0 here (`VcsBridge.VcsThread.DmaReadBytes`), and the transmit results name the condition
  under which it does not come up (`VirtqueueChain.AcceptedMeans`).
* A transmit chain with data beyond 9216 bytes of payload is cut if the excess lies in the
  descriptor that crosses the limit, and stops the queue if a further descriptor follows
  (`VirtqueueTx.Gather`).
* `vcs_eth_mac_recv_raw` reports a completion to the port that received, not to the one that
  sent, so a window is reopened by traffic in the other direction (`EthWire.StopsAfterWindow`,
  `EthPort.Port.RecvRaw`).
* Payload lengths within 24 of 2^32 wrap in the DMA_DATA header and are rejected on receipt
  (`Framing.DataDecodes`).

## Model

| member | source | states |
|---|---|---|
| TcpInvariants.ReachableInv | bridge/qemu/irq_poller.c:37-70 | every reachable state of the three threads satisfies one invariant that accounts for each message on each connection, each outstanding DMA and each store to guest memory |
| TcpTheorems.ReceivesMatch | bridge/qemu/irq_poller.c:37-70 | in every reachable state each receive of the vCPU thread, the poller and TLP reception finds the message type it expects at the head of its channel; an idle poller never has a DMA_DATA at the aux head |
| TcpTheorems.DmaAnswerMatches | bridge/vcs/bridge_vcs.c:915-944 | after a DMA notification the answer is there, and it is received as expected exactly when the oldest outstanding DMA has the direction waited for and, if it is a read, at most the 4096 bytes of the receive buffer |
| TcpProgress.NeverMistaken | bridge/vcs/bridge_vcs.c:898-944 | in every run that starts no DMA while an abandoned one of the other direction is unanswered, and no read of more than 4096 bytes, VCS never mistakes a message type or overruns its buffer |
| TcpExamples.MixedHappens | bridge/vcs/bridge_vcs.c:1056-1069 | a run in which it does: a thousand TLPs make a read give up, and a write is started behind it |
| TcpProgress.MixedIsMistaken | bridge/vcs/bridge_vcs.c:1056-1069 | whenever the oldest outstanding DMA has the other direction, the next receive is mistaken |
| TcpTheorems.ReadLinearized | bridge/vcs/bridge_vcs.c:925-944 | a read that returns 0 is at most 4096 bytes long and delivers guest memory as it stood at one moment during the call, whatever reads were abandoned before |
| TcpTheorems.WriteLinearized | bridge/vcs/bridge_vcs.c:1056-1069 | a write that returns 0 has stored exactly its bytes at its address, at one moment during the call, if no other unanswered write carries its tag |
| TcpExamples.WritesCollide | bridge/vcs/bridge_vcs.c:1009-1013 | a run in which one does: after 3000 synchronous writes that succeed and one other write that is given up, the next synchronous write takes its completion and returns 0, though nothing is stored at its address |
| TcpTheorems.MemoryIsLog | qemu-plugin/cosim_pcie_rc.c:136-172 | guest memory is at every moment the replay of all stores, in order |
| TcpTheorems.ReadTagUnique | bridge/vcs/bridge_vcs.c:872-876 | the tag a read waits for belongs to no other outstanding read, up to 2^32 reads |
| TcpTheorems.WriteTagsCollide | bridge/vcs/bridge_vcs.c:1009-1013 | two writes share a tag exactly when they are the same write or their two counters have drifted 3000 apart |
| TcpTheorems.TlpsInOrder | bridge/vcs/bridge_vcs.c:238-332 | delivered, cached and in-flight TLPs are a subsequence of those sent, and all of them exactly when the cache never dropped one |
| TcpTheorems.DropOnlyWhenFull | bridge/vcs/bridge_vcs.c:58-67 | the cache drops a TLP exactly when 1023 are waiting |
| TcpTheorems.InterruptAfterData | bridge/qemu/irq_poller.c:42-59 | when the poller takes an MSI, every DMA write issued before it was raised is in guest memory |
| TcpHistory.EachInterruptOnce | bridge/qemu/irq_poller.c:49-58 | in every run from power-on, the vectors of the interrupts VCS raised, in order, are the vectors handed to the callback followed by those still on the connection: each once, none lost or changed |
| TcpHistory.EachTlpSent | bridge/qemu/bridge_qemu.c:41-64 | the sent TLPs of TlpsInOrder are, in every run, those the vCPU thread was asked to send, with tag and body |
| TcpHistory.EachCompletionOnce | bridge/vcs/bridge_vcs.c:430-466 | in every run the completions VCS sent are those QEMU has received followed by those on the connection: each once, in order, unchanged |
| TcpHistory.FirstMatchWithin256 | bridge/qemu/bridge_qemu.c:77-131 | in every run a call that waits for a completion ends with the first one that carries its tag, if that is among the next 256, and otherwise with the last of these; it never fails |
| TcpHistory.EachWriteOnce | qemu-plugin/cosim_pcie_rc.c:136-172 | in every run the DMA writes the callback has carried out, holds, or is still to receive are those VCS started, in order, each once and with the arguments of the call |
| TcpHistory.WorksOnLast | bridge/vcs/bridge_vcs.c:869-891 | in every run the DMA a call is waiting for is the one started last, with the arguments it was started with |
| TcpHistory.CallsCounted | bridge/vcs/bridge_vcs.c:872-876 | in every run the number a tag is made of counts the calls of its kind |
| TcpHistory.FirstTags | bridge/vcs/bridge_vcs.c:1009-1013 | the tags begin at 5000, 6000 and 3000 |
| TcpHistory.MemoryIsStores | qemu-plugin/cosim_pcie_rc.c:136-172 | in every run guest memory is what the stores of the guest and the DMA writes carried out made of it, in their order, told from the actions |
| TcpHistory.ProperCalls | bridge/vcs/bridge_vcs.c:1006-1007 | no run starts a DMA without data, or a write of more than the 65536 bytes the callback has room for |
| TcpExamples.Exchange | bridge/vcs/bridge_vcs.c:430-464 | a run that does what it should, for every tag, body, answer and vector: request, poll, completion, interrupt |
| TcpSuccess.CallCanSucceed | bridge/vcs/bridge_vcs.c:892-944 | a waiting call can take its own completion and return 0 exactly when no poll has ever thrown a DMA notification away, the connection is alive, a read waits behind nothing but reads of at most 4096 bytes, itself included, or a write behind nothing, and the rounds left of the 1000 suffice to get past the messages in front of its notification; if so, the poller and the wait loop get there by themselves, if not, no run of the system does (reads: the first 2^32) |
| TcpSuccess.LoopTakesOwn | bridge/vcs/bridge_vcs.c:892-944 | once all answers are sent, the wait loop alone takes cached TLPs and older reads out of the way and arrives at its own completion |
| TcpProgress.OwnAnswerComes | bridge/qemu/irq_poller.c:20-93 | QEMU alone, without the VCS thread, gets the answer of the waiting call sent and announced, with all that come before it, exactly when no notification was ever thrown away |
| TcpProgress.WaitEnds | bridge/vcs/bridge_vcs.c:892-944 | some notification can still come exactly when fewer were thrown away than DMAs are outstanding |
| TcpProgress.PollerFinishes | bridge/qemu/irq_poller.c:20-93 | while the VCS thread waits, the poller alone answers everything outstanding in exactly Work(s) steps, whatever the vCPU thread holds |
| TcpProgress.StarvedForever | bridge/vcs/bridge_vcs.c:284-285 | with as many thrown away as are outstanding, no run of QEMU ever delivers a notification |
| TcpProgress.NoDmaAfterDiscard | bridge/vcs/bridge_vcs.c:284-285 | once a poll has thrown a DMA notification away, no DMA takes its own completion in any later state; reads never return 0 again (up to 2^32 of them), and a write does only on the tag of an earlier unanswered write |
| TcpExamples.DiscardHappens | bridge/vcs/bridge_vcs.c:284-285 | a run in which a poll does |
| TcpLost.NoReadAfterLostWrite | bridge/vcs/bridge_vcs.c:1056-1069 | once a write is unanswered that nobody waits for any more, no read returns 0 in any later state (up to 2^32 of them) |
| TcpLost.GivingUpLoses | bridge/vcs/bridge_vcs.c:1068-1069 | giving up a write leaves such a state |
| TcpLost.OlderOwes | bridge/vcs/bridge_vcs.c:1063-1067 | and so does a write that takes the completion of an older one |
| TcpProgress.RefusedUntilInitialized | bridge/vcs/bridge_vcs.c:1006-1007 | if g_initialized was never set, no run contains a DMA |
| VcsBridge.VcsThread.DmaReadBytes | bridge/vcs/bridge_vcs.c:869-944 | the call, with the other threads running in between: 0 with guest memory of one moment during the call, and never if a write is unanswered that nobody waits for, or for more than 4096 bytes (reads: the first 2^32); -1 only if it is refused, a connection fails, 1000 notifications were taken in vain, or a message came that it does not expect or has no room for |
| VcsBridge.VcsThread.DmaWriteBytes | bridge/vcs/bridge_vcs.c:1006-1069 | the call, also as bridge_vcs_dma_write_sync: 0 only if exactly these bytes were stored during it, as long as no older write with this tag is unanswered; -1 only for the same reasons, or because the completion of an older write came first, and unless it was refused a write is then unanswered that nobody waits for |
| VcsBridge.VcsThread.PollTlp | bridge/vcs/bridge_vcs.c:238-332 | a poll hands out the oldest cached TLP if there is one; if it hands out none, the cache is empty and the last wait ended in a timeout or with a message that announces no TLP; it returns -1 exactly if the connection failed |
| VcsBridge.VcsThread.WaitRound | bridge/vcs/bridge_vcs.c:898-944 | one round of a DMA wait: a TLP_READY is followed by its TLP, which goes to the end of the cache unless that is full; no other message touches the cache; the round fails only with the connection |
| TlpCache.Cache.Push | bridge/vcs/bridge_vcs.c:58-67 | a bounded queue of 1023: append, or refuse exactly when full |
| TlpCache.Cache.Pop | bridge/vcs/bridge_vcs.c:69-75 | remove and return the oldest |
| TlpCache.Cache.Count | bridge/vcs/bridge_vcs.c:77-79 | the number waiting |
| VcsBridge.VcsThread.FromCache | bridge/vcs/bridge_vcs.c:69-75 | handing out a cached TLP takes it from the ring of slots exactly when the protocol model delivers it: the ring holds what the model says at every call |
| ShmTheorems.TlpsInOrder | bridge/vcs/bridge_vcs.c:336-399 | over shared memory, sent TLPs are delivered ones followed by the ring; ring occupancy is at least the pending counter plus announcements, so the "ring empty" reset is never taken, and no announced completion is missing |
| ShmInvariants.RunKeeps | bridge/qemu/bridge_qemu.c:67-75 | every step keeps the accounting invariant, and calls that gave up are exactly the completions owed beyond the one waited for |
| ShmInvariants.DebtStep | bridge/qemu/bridge_qemu.c:152-166 | no step but giving up changes the number of completions owed beyond the one waited for |
| ShmTheorems.GivingUpIsForever | bridge/vcs/bridge_vcs.c:973-1001 | as long as no full ring swallows a completion, a DMA call takes its own one exactly when no call has ever given up, and an earlier one otherwise; unless tags repeat it returns 0 exactly in the first case |
| ShmTheorems.OwnOrNeverAt | bridge/vcs/bridge_vcs.c:1098-1126 | the same, state by state |
| ShmTheorems.SuccessExactly | bridge/vcs/bridge_vcs.c:973-1001 | unless tags repeat, a call returns 0 exactly when its own completion is the only one owed, whatever gave up or was swallowed before |
| ShmTheorems.DataMoved | qemu-plugin/cosim_pcie_rc.c:173-182 | in every run, a call that returns 0 has moved exactly its data, unless tags repeat: a write its bytes to its address, a read guest memory of one moment during the call to its part of the buffer |
| ShmTheorems.InterruptAfterData | bridge/qemu/irq_poller.c:72-87 | in every run in which no call takes a completion whose tag repeats another one owed: whatever returned 0 before an MSI was raised had been carried out when the MSI was delivered |
| ShmTheorems.InterruptsInOrder | bridge/vcs/bridge_vcs.c:872-876 | the same if no call has given up, however long the run, or as long as at most 1000 reads of each kind and 2000 synchronous writes were started |
| ShmTheorems.TagsDiffer | bridge/vcs/bridge_vcs.c:1009-1013 | within these bounds two requests share a tag exactly when they are the same one |
| ShmExamples.TagsCollide | bridge/vcs/bridge_vcs.c:771-774 | without them: a run in which the 3001st synchronous write returns 0 with the completion of another write, and an MSI raised after that is delivered before the write is carried out |
| ShmExamples.Overtaken | bridge/qemu/irq_poller.c:72-87 | a write that was given up, and so never returned 0, can be overtaken by an MSI raised later |
| ShmProgress.NotificationComes | bridge/qemu/irq_poller.c:72-87 | while a call waits and the completion ring has room, the poller alone sends a notification within Work(s) steps, whatever polls threw away before |
| ShmProgress.CallCanReturn | bridge/vcs/bridge_vcs.c:973-1001 | a waiting call can take a completion exactly when the socket is alive and the rounds left of the 1000 suffice to get past the messages in front of the next notification; otherwise it gives up, in every run |
| ShmProgress.CallReturns | bridge/vcs/bridge_vcs.c:973-1001 | in the first case it can return without giving up; it returns 0 with its data moved if no call has given up before, and otherwise does not, unless tags repeat |
| ShmExamples.MustGiveUp | bridge/vcs/bridge_vcs.c:998-1001 | a state from the start, with a thousand announced TLPs and no failure, in which a write cannot but give up |
| ShmTheorems.FailedCallOwes | bridge/vcs/bridge_vcs.c:967-1001 | whichever way a call fails, by giving up, on a foreign completion or on a full request ring, a completion is owed from then on that no call waits for |
| ShmTheorems.NothingSucceedsAfter | bridge/vcs/bridge_vcs.c:1098-1126 | after that no call returns 0 in any run, as long as no full ring swallows a completion and tags do not repeat |
| ShmHistory.EachTlpOnce | bridge/qemu/bridge_qemu.c:41-64 | in every run the TLPs the request ring had room for are those delivered followed by those in the ring: each once, in order, unchanged |
| ShmHistory.EachCompletionOnce | bridge/vcs/bridge_vcs.c:430-466 | the same of the tags of completions |
| ShmHistory.EachInterruptOnce | bridge/qemu/irq_poller.c:79-86 | the same of interrupts, with vector and the number of calls that had returned 0 when each was raised |
| ShmHistory.EachRequestOnce | bridge/qemu/irq_poller.c:72-78 | the same of DMA requests, with the arguments of the call: those carried out, the one being served, those in the ring |
| ShmHistory.WorksOnLast | bridge/vcs/bridge_vcs.c:967-980 | in every run the request a call is waiting for is the one made last, with the arguments of the call |
| ShmHistory.CallsCounted | bridge/vcs/bridge_vcs.c:872-876 | in every run the number a tag is made of counts the calls of its kind |
| ShmHistory.FirstTags | bridge/vcs/bridge_vcs.c:550-552 | the tags begin at 2000, 3000, 5000 and 6000 |
| ShmHistory.EachFinished | bridge/vcs/bridge_vcs.c:973-1001 | in every run the finished calls that mark interrupts are those that took a completion with their own tag |
| ShmHistory.DataIsStores | qemu-plugin/cosim_pcie_rc.c:136-182 | in every run guest memory and the shared DMA buffer are what the stores of the guest, the calls and the requests carried out made of them, in their order |
| ShmHistory.FirstMatchWithin256 | bridge/qemu/bridge_qemu.c:77-131 | in every run a call that waits ends with the first completion with its tag among the next 256, or with the last of these, and never finds the ring empty |
| ShmHistory.ProperCalls | bridge/vcs/bridge_vcs.c:869-870 | no run makes a request without data, or a write whose bytes are not as many as it says |
| ShmExamples.Exchange | bridge/vcs/bridge_vcs.c:336-399 | a run that does what it should, for every tag, body and vector: request, poll, completion, interrupt |
| Completions.Bridge.SendTlpAndWait | bridge/qemu/bridge_qemu.c:133-143 | returns the completion of this very request exactly when fewer than 256 older ones are unread and none is a whole number of tag spans old |
| Completions.Bridge.WaitCompletion | bridge/qemu/bridge_qemu.c:77-131 | returns the first completion with the tag among the next 256 and consumes up to it |
| Completions.Bridge.SendTlp | bridge/qemu/bridge_qemu.c:41-43 | the tag is the send counter modulo the span |
| Completions.OwnCompletion | bridge/qemu/bridge_qemu.c:88-125 | behind stale completions the own one is found exactly when none matches and the guard reaches past them |
| Completions.PacedRunsMatch | bridge/qemu/bridge_qemu.c:133-150 | over any run with at most 255 (and fewer than the span) sends between waits, every wait returns its own completion |
| Completions.PaceIsTight | bridge/qemu/bridge_qemu.c:77-150 | one send more is too much, for every number of tags: a run from the start in which a wait does not return its own completion |
| Completions.WrongCompletion | bridge/qemu/bridge_qemu.c:41-43 | with 5-bit tags: a run of 33 calls whose last one takes a completion 32 sends old |
| RingInterleaving.EveryInterleaving | bridge/common/ring_buffer.c:46-66 | under every interleaving of single accesses what came out is what went in, in order, whole, once, and at most capacity - 1 elements are inside |
| RingInterleaving.Refines | bridge/common/ring_buffer.c:46-66 | every access is invisible or one step of a FIFO; full and empty are answered exactly |
| RingInterleaving.NoTornRead | bridge/common/eth_shm.c:105-129 | what a reader has copied so far is a prefix of the oldest element, whatever the writer does (eth_frame_ring_t has the same 16-byte header) |
| RingInterleaving.EveryCallCounts | bridge/common/ring_buffer.c:46-55 | under every interleaving the elements accepted are those the enqueue calls were given, in order and unchanged, less those for which the ring was full |
| RingSlots.CapacityFits | bridge/common/ring_buffer.c:11-30 | all slots lie inside the buffer and one more would not |
| RingSlots.SlotInside | bridge/common/ring_buffer.c:52-63 | every byte touched lies behind the header and inside the buffer |
| RingBuffer.SharedRing.Init | bridge/common/ring_buffer.c:16-30 | succeeds exactly for a non-empty element and room for two slots |
| RingBuffer.SharedRing.Enqueue | bridge/common/ring_buffer.c:46-55 | append, or refuse exactly when capacity - 1 are inside; the header is untouched |
| RingBuffer.SharedRing.Dequeue | bridge/common/ring_buffer.c:57-66 | remove and return the first, or refuse exactly when empty |
| RingBuffer.SharedRing.Query | bridge/common/ring_buffer.c:68-90 | count, empty, full and capacity |
| MsiQueue.EveryInterleaving | qemu-plugin/cosim_pcie_rc.c:185-225 | 0 to 256 interrupts are queued, handled in acceptance order, and a non-empty queue implies a bottom half scheduled, running or about to be scheduled |
| MsiQueue.NothingForgotten | qemu-plugin/cosim_pcie_pf.c:419-504 | at rest every accepted interrupt has been handled |
| MsiQueue.RefusedWhenFull | qemu-plugin/cosim_pcie_rc.c:213-216 | an interrupt is refused exactly when 256 are queued |
| MsiQueue.EveryInterruptCounts | qemu-plugin/cosim_pcie_rc.c:207-225 | under every interleaving the interrupts accepted are those handed to the callback, in order and unchanged, less the refused ones; all of them exactly when none was refused |
| MsiQueue.Drains | qemu-plugin/cosim_pcie_rc.c:185-206 | left alone, the bottom half delivers everything within a bounded number of steps |
| Virtqueues.Virtqueue.Configure | bridge/vcs/virtqueue_dma.c:46-72 | repeating a configuration keeps the positions, any change starts over |
| VirtqueueRing.SlotsCoherent | bridge/vcs/virtqueue_dma.c:95-96 | reducing the 16-bit index by the size names the slot of the unbounded count at every count exactly when the size divides 65536 |
| VirtqueueRing.BehindIs | bridge/vcs/virtqueue_dma.c:93 | the wrapped index difference is the number of heads waiting |
| VirtqueueRing.ReturnKeeps | bridge/vcs/virtqueue_dma.c:184-196 | writing the next used entry keeps the rings in order, counted or not |
| VirtqueueRing.PublishKeeps | bridge/vcs/virtqueue_dma.c:203-207 | publishing covers exactly the entries written |
| VirtqueueRing.DriverSees | bridge/vcs/virtqueue_dma.c:203-207 | a driver that compares the published index with its own count finds exactly the new elements, oldest head first |
| VirtqueueRing.PostKeeps | bridge/vcs/virtqueue_dma.c:85-104 | a driver with at most size buffers in flight keeps the rings in order |
| VirtqueueLayout.DescriptorRead | bridge/vcs/virtqueue_dma.h:17-26 | from the sixteen bytes of a descriptor, each field stored lowest byte first, the device takes exactly the address, length and successor stored, NEXT from bit 0 of the flags and WRITE from bit 1, whatever the other flags are |
| VirtqueueLayout.ChainRead | bridge/vcs/virtqueue_dma.c:112-160 | from a chain stored that way, descriptor after descriptor linked by NEXT, the device sees the buffers in order, the first sixteen of them |
| VirtqueueLayout.PacketOfStored | bridge/vcs/virtqueue_dma.c:112-156 | and its packet is what those buffers hold, one after the other, byte for byte, without the first twelve bytes and up to 9216 |
| VirtqueueLayout.OnlyStoredWritable | bridge/vcs/virtqueue_dma.c:246-250 | what InjectOne leaves alone in such a chain is exactly what lies in no buffer stored with the WRITE bit |
| VirtqueueLayout.FrameLies | bridge/vcs/virtqueue_dma.c:230-283 | byte for byte where a received frame lies in such a chain: a header of twelve bytes, or what of it fits the first writable buffer, all zero but a one at byte 10, then the frame, in the order of the writable buffers; the length is that of both, or of the room if that is less |
| VirtqueueLayout.AvailRead | bridge/vcs/virtqueue_dma.c:85-104 | index and head are what a driver stores at bytes 2 and 3 of the available ring and in two bytes per entry from byte 4 on |
| VirtqueueLayout.UsedElementBytes | bridge/vcs/virtqueue_dma.c:184-196 | a used entry is stored in eight bytes of slot index modulo size from byte 4 on: head, then length, lowest byte first, and nothing else changes |
| VirtqueueLayout.UsedIndexBytes | bridge/vcs/virtqueue_dma.c:203-207 | publishing stores the index at bytes 2 and 3 of the used ring and changes nothing else |
| VirtqueueTx.Gather | bridge/vcs/virtqueue_dma.c:106-160 | without a failed DMA call, the walk succeeds exactly when no non-empty buffer starts at or beyond byte 9228 of the chain and none holds more of the packet than one DMA can read, and then the packet buffer holds the chain of at most 16 buffers less 12 bytes, cut at 9216 |
| VirtqueueChain.FitsIsAccepted | bridge/vcs/virtqueue_dma.c:143-155 | every packet of at most 9216 bytes is accepted whose buffers are no longer than one DMA can read |
| VirtqueueChain.AcceptedMeans | bridge/vcs/virtqueue_dma.c:143-155 | acceptance, buffer by buffer: over TCP every read of the walk is at most 4096 bytes exactly if no buffer has more than 4096 bytes between bytes 12 and 9228 of the chain |
| VirtqueueChain.ReadsItsPart | bridge/vcs/virtqueue_dma.c:126-151 | what the walk reads of a buffer is the part of it between bytes 12 and 9228 of the chain |
| VirtqueueChain.TooLongForOne | bridge/vcs/virtqueue_dma.c:148-151 | 4097 bytes of packet in one buffer: accepted over shared memory, not over TCP |
| VirtqueueChain.PacketGrows | bridge/vcs/virtqueue_dma.c:126-156 | what one descriptor adds to the packet: what is left of the header is skipped, the rest is read as far as there is room |
| VirtqueueTx.ServeOne | bridge/vcs/virtqueue_dma.c:93-200 | one turn: fetch the head, forward its packet, return it, step both positions; or stop with one of three partial effects |
| VirtqueueTx.ProcessTx | bridge/vcs/virtqueue_dma.c:75-214 | for any guest memory: the heads available at the start are served in turn and then published, and the call stops early only at a failed DMA call or a packet that overfills the buffer or cannot be read; after a failed write it does nothing and fails, unless the DMA port recovers |
| VirtqueueTxRuns.TxCall | bridge/vcs/virtqueue_dma.c:75-214 | under a driver that follows the rules, each served head goes back once, in order, in slot k modulo size; success serves and publishes all; after a failure the published index covers only written slots, no head is skipped, and one packet is out ahead of its head exactly if the write of its used entry failed |
| VirtqueueTxRuns.IndexLost | bridge/vcs/virtqueue_dma.c:203-211 | on a DMA port that recovers from a failed write: if only the write of the used index fails, the next call finds nothing to serve, succeeds, and leaves the index behind, from any state with heads waiting |
| VirtqueueTxRuns.IndexStaysBehind | bridge/vcs/virtqueue_dma.c:93-94 | every call that succeeds with nothing to serve leaves an unpublished index as it is |
| VirtqueueTxRuns.TxSucceeds | bridge/vcs/virtqueue_dma.c:75-214 | a call succeeds exactly when no DMA call fails, no packet overfills the buffer and, over TCP, none has more than 4096 bytes in one buffer |
| VirtqueueTxRuns.PacketKept | bridge/vcs/virtqueue_dma.c:184-196 | returning heads changes no packet still waiting |
| VirtqueueScatter.InjectOne | bridge/vcs/virtqueue_dma.c:222-284 | only writable buffers are touched; without a failed DMA call the frame is injected exactly when no empty writable buffer comes up while something is left, and the length returned is what was written |
| VirtqueueScatter.Scattered | bridge/vcs/virtqueue_dma.c:238-283 | read back in chain order, the writable buffers hold header and frame, cut where the room ends |
| VirtqueueRx.FrameInBuffers | bridge/vcs/virtqueue_dma.c:230-283 | the buffers of a returned chain hold the header, all bytes zero but byte 10, which is one, cut to the first writable buffer if that is shorter than 12, and then the longest prefix of the frame that fits; the returned length covers both |
| VirtqueueRx.HeaderThenFrame | bridge/vcs/virtqueue_dma.c:230-235 | with 12 bytes in the first writable buffer: ten zero bytes, num_buffers = 1, and the frame from byte 12 on |
| VirtqueueRx.ProcessRx | bridge/vcs/virtqueue_dma.c:290-368 | frames are delivered in order, each into the next chain, which goes back and is published at once; the call ends at a failed DMA call, or when no buffer is posted, no frame is pending or the frame cannot be injected; at most one frame is taken and not counted, and never one that no buffer was posted for |
| VirtqueueRx.AllDelivered | bridge/vcs/virtqueue_dma.c:296-352 | without failed calls and empty frames or buffers, as many frames as there are buffers, or all, and no frame is taken that is not delivered |
| VirtqueueRx.EntryKeeps | bridge/vcs/virtqueue_dma.c:321-335 | returning a filled chain disturbs no delivered frame and no waiting chain |
| VirtqueueRx.FillKeeps | bridge/vcs/virtqueue_dma.c:222-284 | filling a waiting chain disturbs no delivered frame, no ring and no other chain |
| VirtqueueRx.DriverFinds | bridge/vcs/virtqueue_dma.c:321-341 | a new used element names the oldest head, and its chain holds as many bytes of header and frame as it says |
| VirtqueueRx.ConsumeKeeps | bridge/vcs/virtqueue_dma.c:335-341 | consuming a published element keeps the queue in order |
| VirtqueueRx.DriverPosts | bridge/vcs/virtqueue_dma.c:299-307 | posting a chain away from everything in flight keeps the queue in order |
| Xorshift.Xs32NeverZero | bridge/common/link_model.c:5-13 | the generator never reaches zero |
| Xorshift.FirstWords | bridge/common/link_model.c:5-13 | the first words from state 1, and that a zero state is replaced by 0xDEADBEEF |
| Xorshift.StepOnto | bridge/common/link_model.c:8-12 | every word follows some word: the three mixing steps can be undone |
| LinkModel.WordDecides | bridge/common/link_model.c:31-41 | outside a burst and at a rate other than zero, an attempt is dropped exactly if the next random word modulo a million is below the rate |
| LinkModel.HigherRateDropsMore | bridge/common/link_model.c:31-41 | what drops at one rate drops at every higher one |
| LinkModel.ExactlyTheRate | bridge/common/link_model.c:34-35 | of the million remainders exactly as many drop as the rate says, the smallest ones |
| LinkModel.BurstLength | bridge/common/link_model.c:24-42 | a triggered burst drops exactly the configured number of attempts, at least one, and uses up no random number in between |
| LinkModel.Extremes | bridge/common/link_model.c:31-40 | rate zero never drops, a million per million always does |
| LinkModel.ClosedForm | bridge/common/link_model.c:44-54 | a deadline is latency plus the maximum over i of arrival i and the serialization times from i on |
| LinkModel.RateBound | bridge/common/link_model.c:44-54 | between two deadlines the line carries no more than its rate allows, up to rounding |
| LinkModel.RateReached | bridge/common/link_model.c:44-54 | while the line does not go idle it carries no less than its rate, either: with RateBound the deadlines are those of a line at its rate, up to rounding |
| LinkModel.SerializeBound | bridge/common/link_model.c:48-49 | time on the wire is 8000 bits per byte and Mbit/s, rounded down, from both sides; nothing at rate zero |
| LinkModel.NoRateNoTime | bridge/common/link_model.c:48-54 | at rate zero a deadline is latency after the latest arrival |
| LinkModel.DeadlineFits | bridge/common/link_model.c:51-53 | the 64-bit sums are exact as long as the deadline fits |
| LinkModel.Link.Reset | bridge/common/link_model.c:15-22 | runtime state starts over, the configuration stays |
| LinkModel.Link.NextDeadline | bridge/common/link_model.c:44-54 | the field after the call and the returned time, with 64-bit wrap, and the closed form without |
| LinkModel.Link.ShouldDrop | bridge/common/link_model.c:24-42 | decision and state as the drop process prescribes |
| LinkModel.Link.FcCanSend | bridge/common/link_model.c:56-60 | an unset window never blocks, a set one exactly at its size |
| EthWire.RunInv | bridge/eth/eth_port.c:34-57 | every run keeps numbering, stamps and window in order |
| EthWire.SequenceNumbers | bridge/eth/eth_port.c:45-52 | received sequence numbers strictly increase, each gap counting exactly the frames a full ring turned away |
| EthWire.StampsInOrder | bridge/eth/eth_port.c:45-56 | stamps and published time never decrease, and between two frames the line keeps its rate |
| EthWire.WithinWindow | bridge/eth/eth_port.c:38-53 | outstanding never exceeds a set window, and accepted frames never exceed outstanding plus completions |
| EthWire.StopsAfterWindow | bridge/eth/eth_mac_dpi.c:94-101 | a port that is told of no completion stops after one window, whatever the peer takes |
| EthWire.EachCompletionFrees | bridge/common/link_model.c:56-68 | as long as completions come for frames accepted before, exactly the frames not yet completed are outstanding, and the window has room for the rest |
| EthWire.InOrder | bridge/common/eth_shm.c:105-129 | what the ring took is a subsequence of what was offered, what the peer took a prefix of that |
| EthWire.FramesUnchanged | bridge/eth/eth_port.c:43-52 | and length, flags and data of the frames, too: only sequence number and time stamp are the sender's |
| EthWire.NothingMissing | bridge/eth/eth_port.c:34-57 | nothing is missing exactly when every send reported success |
| EthWire.TimeWraps | bridge/common/link_model.c:51-53 | when a sum wraps, published time runs backwards: an example |
| EthPort.FrameRing.Enqueue | bridge/common/eth_shm.c:105-116 | append, or refuse exactly when 255 are inside |
| EthPort.FrameRing.Dequeue | bridge/common/eth_shm.c:118-129 | remove and return the first, or refuse exactly when empty |
| EthPort.EthShm.AdvanceTime | bridge/common/eth_shm.c:141-145 | publishes the time of one role and leaves the other |
| EthPort.Port.Send | bridge/eth/eth_port.c:34-57 | the port, its link model and its ring change as the wire model says, with the four return codes, and the other direction is untouched |
| EthPort.Port.Recv | bridge/eth/eth_port.c:59-78 | takes the oldest frame the peer sent |
| EthPort.Port.RecvRaw | bridge/eth/eth_mac_dpi.c:94-104 | a frame taken in is reported as a completion to this same port |
| GuestSending.CallTransmits | bridge/vcs/virtqueue_dma.c:75-214 | one transmit call in terms of payloads: those of the heads served go out in order, and the next one exactly if the call fails at the write of its used entry; a successful call serves every waiting head |
| GuestSending.RetryRepeats | bridge/vcs/virtqueue_dma.c:193-196 | whenever a call fails at the write of a used entry and the next one serves that head, its packet goes out twice |
| GuestSending.GuestPosts | bridge/vcs/virtqueue_dma.c:85-104 | a guest that prepares a chain without touching the rings or the chains in flight, and then makes it available, keeps the rules the transmit results rely on |
| GuestSending.NonEmptyMeans | bridge/vcs/virtqueue_dma.c:162-182 | what goes out are the payloads that are not empty, all of them and as often as they occur, in order |
| EndToEnd.CallReceives | bridge/vcs/virtqueue_dma.c:290-368 | one receive call: frames taken and frames delivered, which differ only by a frame for which a buffer was posted, and only if a DMA call failed or the frame could not be injected |
| EndToEnd.RunInv | bridge/vcs/virtqueue_dma.c:93-200 | every run of two guests and the link keeps the trace from posted payloads to delivered frames |
| EndToEndTheorems.FramesWhole | bridge/eth/eth_mac_dpi.c:85-104 | in every run each frame on the link is as long as its length field says and at most 9216 bytes, so it is received in full |
| EndToEndSteps.TxCallIsStep | bridge/vcs/virtqueue_dma.c:75-214 | whatever one transmit call does, by the contract of ProcessTx, is a step of the whole system |
| EndToEndSteps.RxCallIsStep | bridge/vcs/virtqueue_dma.c:290-368 | so is whatever one receive call does on the frames in the ring: it takes them out, and those taken and not delivered are lost |
| EndToEnd.LinkTakesAll | bridge/eth/eth_port.c:34-57 | a link that drops nothing at random and has room in ring and window for all packets takes them all |
| EndToEndTheorems.Delivered | bridge/vcs/virtqueue_dma.c:296-352 | in every run, until guest B consumes them, the buffers of each returned chain hold a payload guest A posted, in the order of posting, behind a header that is zero but for num_buffers = 1, as far as they fit, and the returned length says how much; whatever fails, is dropped, refused or retried |
| EndToEndTheorems.DeliveredOnce | bridge/vcs/virtqueue_dma.c:193-199 | packets handed to the link are payloads in strictly rising order exactly when no head was served whose packet was out already, and then no payload arrives twice |
| EndToEndTheorems.OnlyAfterFailedEntry | bridge/vcs/virtqueue_dma.c:193-196 | which needs a failed write of a used entry |
| EndToEndTheorems.NeverTwice | bridge/vcs/virtqueue_dma.c:84-88 | on a DMA port on which reads do not succeed again after a failed write, as over both transports while tags do not repeat and no full ring swallows a completion, packets are handed over in strictly rising order and no payload arrives twice, whatever else fails |
| EndToEndRetry.RetryHappens | bridge/vcs/virtqueue_dma.c:193-196 | on a port that recovers it can happen: a run in which the same payload is in the ring twice, although the driver follows every rule and the link drops nothing |
| EndToEndTheorems.DeliveredAll | bridge/vcs/virtqueue_dma.c:296-352 | if every transmit call succeeds and finds room for what waits, the link drops nothing at random, no DMA call of a receive call fails and no posted buffer is empty, guest B has exactly the first payloads guest A posted, and all of them once every head is back and the ring is empty |
| EndToEnd.FreshStart | bridge/vcs/virtqueue_dma.c:46-72 | fresh queues on a fresh link are such a start |
| Framing.SendAll | bridge/common/transport_tcp.c:59-74 | all bytes if no socket call fails, otherwise a proper prefix of them, under any partial sends and interruptions |
| Framing.RecvAll | bridge/common/transport_tcp.c:76-90 | the buffer is filled with exactly the next bytes under any partial receives and interruptions, unless a socket call fails or too few are there |
| Framing.SendMsg | bridge/common/transport_tcp.c:109-118 | the encoding of the message, or a proper prefix of it; also tcp_send_dma_data |
| Framing.RecvFixed | bridge/common/transport_tcp.c:253-263 | unless a socket call fails, accepts exactly the messages of its type that are complete, for a sync message also of its length, and consumes exactly those |
| Framing.RecvData | bridge/common/transport_tcp.c:406-444 | unless a socket call fails, accepts exactly a complete DMA_DATA with consistent lengths and consumes exactly that |
| Framing.RecvIfThere | bridge/common/transport_tcp.c:349-363 | receives a message of its type if one is at the head, and otherwise consumes nothing; fails only with a socket call or on an incomplete message |
| Framing.Skip | bridge/common/transport_tcp.c:334-347 | consumes header and payload of a complete message, unless a socket call fails |
| Framing.SkipsOne | bridge/common/transport_tcp.c:334-347 | which is exactly one message |
| Framing.FixedOnTheWire | bridge/common/transport_tcp.h:23-43 | byte for byte: types 1 to 6, the lengths 8, 112, 84, 32, 16 and 16 of their payloads, lowest byte first, then the payload |
| Framing.DataOnTheWire | bridge/common/transport_tcp.c:381-404 | type 8, the length, sixteen bytes of tag, direction and address, the length of the data, four zero bytes, the data |
| Framing.AcceptableMeans | bridge/common/transport_tcp.c:253-263 | byte for byte what RecvFixed accepts: the type, enough bytes, and for a sync message alone its length |
| Framing.AcceptableDataMeans | bridge/common/transport_tcp.c:406-444 | byte for byte what RecvData accepts: type 8, two lengths that agree in 32 bits, enough bytes |
| Framing.FixedDecodes | bridge/common/transport_tcp.c:278-302 | a fixed message is recognized by its own receive function and no other, and comes out whole |
| Framing.DataDecodes | bridge/common/transport_tcp.c:381-424 | a DMA_DATA is accepted exactly when its length plus 24 fits 32 bits, and comes out whole |
| Framing.SendAllMsgs | bridge/common/transport_tcp.c:109-118 | a list of messages becomes the concatenation of their encodings, unless a socket call fails |
| Framing.RecvAllMsgs | bridge/common/transport_tcp.c:76-90 | any list of messages, cut in pieces in any way, comes out as it went in, and what follows is untouched; only a failing socket call prevents it |
| CapabilityWalk.DiscoverCaps | qemu-plugin/cosim_pcie_rc.c:435-455 | reports the last MSI capability among the entries visited and its vector count; stops at the end of the list or after 48 entries |
| CapabilityWalk.VectorsArePower | qemu-plugin/cosim_pcie_rc.c:448-449 | the number of vectors is two to the power of bits 17 to 19 of the capability's first word, whatever the other bits are |
| CapabilityWalk.Discovered | qemu-plugin/cosim_pcie_rc.c:435-455 | on any list of at most 48 capabilities laid out as the specification says, whatever its unused bits hold: the offset of the last MSI capability and two to the power of its field |
| CapabilityWalk.CoversAll | qemu-plugin/cosim_pcie_rc.c:441-443 | a list is walked to its end exactly when it has at most 48 entries |
| CapabilityWalk.WalkedToTheEnd | qemu-plugin/cosim_pcie_rc.c:441-454 | every list that ends and stays at 40h or above is walked to its end |
| CapabilityWalk.LengthBound | qemu-plugin/cosim_pcie_rc.c:441-454 | such a list has at most 48 entries |
| CapabilityWalk.GuardIsTight | qemu-plugin/cosim_pcie_rc.c:442 | a 48-entry list whose only MSI capability is the last |
| CapabilityWalk.AbsentFunction | qemu-plugin/cosim_pcie_rc.c:398-409 | a function that answers with all ones yields no capability |

## Left out

- The two-connection transport, Ethernet frames on the aux connection, and the messages for shutdown, topology, VF events, clock steps and mode switches: short case splits, or no ordering to reason about.
- Sockets, mmap, accept and connect, the version handshake and sleeps: a channel is a reliable FIFO of any length, and a timed wait may time out at any time.  A notification channel may fail, or carry the message that QEMU shuts down; VCS receives nothing after that.  The other channels deliver what has been announced.
- On TCP a transport message is sent in one step, as seen by the other threads; `Framing` covers header and payload as separate sends on one connection.
- bridge_vcs_dma_read_sync over TCP, which expects another message order than QEMU sends, and bridge_vcs_dma_request, which does not wait; over shared memory the former is modelled.
- VcsBridge.VcsThread.DmaReadBytes: nothing is said of what follows once a message was mistaken for another or overran the receive buffer; the model stops there.
- VcsBridge.VcsThread.DmaWriteBytes: lengths over 65536 are excluded, since the buffer of the QEMU callback holds no more; success means nothing if an older write with the same tag is unanswered, which TcpExamples.WritesCollide shows to happen.
- TcpTheorems.WriteLinearized: needs a tag that no other unanswered write carries; TcpTheorems.WriteTagsCollide says which do, and TcpExamples.WritesCollide shows that the result fails without it.
- ShmTheorems.DataMoved: where in the shared buffer a request puts its data is left open, so it holds for any allocation; the tag must be unique among the completions owed, since ShmExamples.TagsCollide shows a run in which it is not.
- ShmTheorems.GivingUpIsForever: for runs in which the completion ring never overflowed.
- Weak memory: an acquire load, a release store and a fence are sequentially consistent steps, and QEMU clears the flag of a bottom half before it runs it.
- MsiQueue: the two counters are unbounded; the source's are ints that overflow after 2^31 interrupts.
- Guest memory does not change during one call of the virtqueue code except through the device itself; between calls it changes in any way the driver's rules allow.
- VirtqueueTx.Gather: a descriptor length of 2^31 and more, which the source converts to a negative int, is taken as it is; addresses do not wrap at 2^64.
- VirtqueueScatter.InjectOne: assumes, as VIRTIO demands of the driver, that the chain stays in the descriptor table and its writable buffers stay off it.
- VirtqueueRx.ProcessRx: assumes the same of all chains in flight, and that they do not overlap; frames hold at most 9216 bytes, the size of a ring slot.
- VirtqueueTxRuns.TxCall: assumes that the queue size divides 65536, that at most that many buffers are in flight, and that no transmit buffer meets the used ring; VirtqueueTx.ProcessTx assumes none of it.
- EthWire.StampsInOrder: as long as no 64-bit sum wraps; EthWire.TimeWraps shows what happens otherwise.
- EthWire.RunInv: link settings stay fixed during a run.
- EndToEndTheorems.Delivered: transmit and receive calls are single steps, so the peer takes no frame in the middle of a transmit call; what happens inside them is proved for each call, and the ring between them in RingInterleaving.
- CapabilityWalk.DiscoverCaps: a register reads the same every time.
- find_device_owner, the register and BAR emulation of the QEMU devices, dma_manager.c, shm_layout.c, trace_log.c, the RTL, the guest driver and the tools: plumbing, or easy members.
