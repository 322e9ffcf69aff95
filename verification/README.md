# FairMQ: a verified model of the shared-memory transport, the device control loop and the channel configuration

FairMQ moves messages between processes. This project describes its hardest parts as Dafny models and
proves what holds in every run.

* **Message ownership** (`Ownership*.dfy`, `Backends.dfy`, `Message.dfy`, `MessageRuns.dfy`,
  `SocketRuns.dfy`, `RefCounts.dfy`). A shared-memory message is a handle
  to a reference-counted buffer. Any number of processes create, copy, send, receive, shrink and close
  messages; the decrement of a counter, the freeing of its memory and the return of a region block are
  separate steps that others interleave with. A counter lives in the header of a managed buffer, in the
  region's own counter segment, or in a bare header in a managed segment. The same step functions specify
  the message class whose methods update fields in place, and each method of a message or a socket is shown to be a
  run of steps. Every allocation has a number and every buffer in a segment an extent, so that a stale description of
  a buffer is told from a live one even when its place is used again.
* **Region acknowledgements** (`AckPipeline.dfy`, `AckThreads.dfy`, `EndToEnd.dfy`). Many views batch released
  blocks into one bounded queue; one receiver turns batches into user callbacks. `EndToEnd` runs this
  pipeline together with the ownership machine.
* **Regions** (`RegionEvents.dfy`, `RegionCache.dfy`). The registry that only grows, the subscriber that turns
  it into events, and the generation-stamped thread-local cache in front of a manager's region map.
* **Metadata messages** (`Wire.dfy`, `Socket.dfy`). Byte layout of headers, single and multipart transfer,
  who owns the references afterwards, and the byte counters.
* **Device and controller** (`DeviceFsm.dfy`, `Device.dfy`, `DeviceLife.dfy`, `StateQueue.dfy`, `Shutdown.dfy`).
  The transition table with its two orthogonal regions, the worker thread, the subscriber queue and the shutdown driver.
* **Buffer layout and rate limiter** (`ShmHeader.dfy`, `RateLimiter.dfy`). Modular alignment arithmetic with
  16-bit offsets; an integer feedback controller.
* **Channel configuration** (`Keys.dfy`, `Channels.dfy`, `ChannelLayout.dfy`, `ConfigParser.dfy`,
  `ConfigMeaning.dfy`, `ConfigDocument.dfy`). Flat keys `chans.<name>.<index>.<field>`, adding, counting, looking up and rebuilding
  channels, and the JSON tree that fills them.

`Wrappers.dfy`, `Counting.dfy` and `Arithmetic.dfy` hold an option type and facts about finite sets and words. `dafny verify dfyconfig.toml`
checks everything.

## What the proofs show about the code

Properties that do not hold without a condition are stated with the exact condition:

* *Ownership.* A call that the code accepts keeps the reference-count invariant if and only if the caller observes
  a discipline the code does not check (`DisciplineIsExact`), and `OwnershipWitnesses.dfy` reaches a failing call of
  every kind:
  * *send*: an initialised message is sent once;
  * *receive*: into an empty, un-queued message whose cached region pointer is unset or belongs to the received
    region. `ReleaseUnmanagedRegionBlock` prefers the cached pointer, so a reused message object returns a block to
    the wrong region otherwise (`WrongRegion`);
  * *copy*: two different messages; a target that is not marked queued; if the source has a counter, fewer than 65535
    owners and somebody, the source or another holder, who still holds the reference to the same allocation or
    creation (so copying from a message that was sent away is right only while its receiver, or another copy, is
    alive), and a buffer that has not been shrunk below the source's size. Otherwise the copy joins the owners of
    whatever is at that place now (`CopiedAfterReuse`) or sees more than is left (`CopiedAfterShrink`). If the source
    has no counter, a source that still holds its reference and, where the counter goes to a managed segment, a target
    with its own manager's segment id;
  * *rebuild with a size*: a managed message with its own manager's segment id. `InitializeChunk` does not reset
    `fManaged` or `fSegmentId`. An object that held a region block leaks the new buffer. One that held a message from
    another segment names the new buffer relative to that segment, so that other processes find something else
    there and closing hands it to the wrong segment;
  * *shrink*: a region message keeps its size, and the segment is only asked to shrink what somebody holds; in place,
    which hands the tail back, only down to what every other holder sees (`SharedShrink`); by reallocation only a
    held, managed, unshared message with its own manager's segment id.
* *Shutdown.* Reading the device state and clearing the queue are two steps in the code. Taken as one step, the
  sequence always ends (`ShutdownFromAnyRun`). As they are, a deadlock can be reached from the moment of the call
  exactly if the device has not ended and has a transition pending, an exception on its way, or a state whose handler
  requests a transition by itself (`DeadlockIff`); where a subscriber may throw, also if it has not announced its state
  yet. `SafeIff` says the same of the safe moments, and `MissedReady` is a run that waits for ever.
* *State machine.* `ErrorFound` overwrites a pending transition, so accepted transitions stay in order exactly
  when none is pending (`ErrorFoundOverwrites`, `PendingIsOverwritten`). Afterwards a request that is let through answers true and does
  nothing (`AnswersAfterError`). A handler or subscriber that throws in Exiting still turns Exiting into Error
  (`TerminalIsFinal`, `ExitingBecomesError`).
* *Region cache.* A non-null answer is always current; a null answer is wrong exactly if an earlier lookup of the
  thread found nothing, a view was opened after it, and the generation has not advanced since (`StaleNullOverRuns`,
  `StaleNullHappens`).
* *Region events.* The subscriber's count meets the shared counter after a poll exactly if no region was removed twice
  (`PollSettles`); with two controllers of one id it never does (`NeverSettles`).
* *Alignment.* The 16-bit offsets decode at every even address exactly for alignments up to 65527
  (`AlignmentLimit`).
* *Rate limiter.* It is free of 32-bit overflow and of a zero iteration count, for every clock, exactly for
  requested times between 3 ns and 1 s (`SafeRange`). The documented fallback of 1 ns for a rate of zero or less
  lies outside that range.
* *Channel names.* Adding a channel advances the count of its name exactly when the name has no dot
  (`CountAdvancesIff`). A dotted name is overwritten by the next channel of that name (`DottedOverwrites`) and, when
  new, is counted as a channel of the part before the dot (`DottedShifts`). A configuration file writes and rebuilds
  dotted names correctly; the device counts a name right exactly if no dotted name starts with it and it has no dot
  itself (`CountIs`, `ConfigNumbers`).
* *Sockets.* A multipart receive of an empty vector needs padding, otherwise it trips the receiver's own assertion
  (`CarriesWellFormed`).

## Model

| member | source | states |
|---|---|---|
| `OwnershipMoves.StepInv` | fairmq/shmem/Message.h:263-413 | every enabled step of any process keeps the ownership invariant: each counter equals its holders, each region creation is held, owed or returned exactly once, a counter is shared exactly by the holders of one creation or allocation, and nobody sees more of a buffer than its segment has |
| `OwnershipMoves.RunInv` | fairmq/shmem/Message.h:124-413 | the invariant over whole runs |
| `OwnershipTheorems.CountIsOwners` | fairmq/shmem/Message.h:361-400 | in every reachable state a 16-bit counter is the number of un-queued messages and in-flight headers naming it, it has not wrapped, and at zero some message is about to free it |
| `OwnershipTheorems.NoUseAfterFree` | fairmq/shmem/Message.h:263-400 | no step of a run, and no call by whoever holds what it copies or shrinks, touches a counter that does not exist; no holder names one |
| `OwnershipTheorems.OnlyTheFreerTouches` | fairmq/shmem/Message.h:366-390 | after the decrement that returned one, the only such step or call that can touch the counter is the one that frees it |
| `OwnershipTheorems.FreedOnce` | fairmq/shmem/Manager.h:727-741 | each allocation is freed at most once, and exactly once when nothing is referred to any more |
| `OwnershipTheorems.ReturnedExactlyOnce` | fairmq/shmem/Message.h:402-413 | each region-message creation is returned at most once, exactly when its last holder is gone and its debt is paid, with its own region, handle, size and hint |
| `OwnershipTheorems.RefCountIsHolders` | fairmq/shmem/Message.h:238-261 | the answer of GetRefCount on a region message is the number of holders of its creation, in both counting backends |
| `RefCounts.RefCountIsSharers` | fairmq/shmem/Message.h:238-261 | in every run GetRefCount of a message that holds a reference is the number of messages and in-flight headers that hold the same allocation or creation, in all three backends and for a region message never copied; it does not throw |
| `RefCounts.RefCountOfAny` | fairmq/shmem/Message.h:238-261 | for every message object, sent ones included: one if it is empty or has no counter, else the number of those who use the counter it names; it throws exactly if it needs a region that is not there |
| `OwnershipTheorems.DisciplineIsExact` | fairmq/shmem/Message.h:124-413 | a call the code accepts keeps the invariant if and only if the caller observes the usage discipline; allocations are told apart, so that a reused place does not count as the old reference |
| `OwnershipTheorems.SendTwiceBreaks` | fairmq/shmem/Socket.h:132-145 | sending an initialised, already queued message breaks the invariant, whatever the state |
| `OwnershipTheorems.BadReceiveBreaks` | fairmq/shmem/Message.h:337-346 | receiving into an initialised or queued message, or one with a foreign cached region pointer, breaks it |
| `OwnershipTheorems.BadCopyBreaks` | fairmq/shmem/Message.h:263-310 | every improper copy breaks it: onto itself, into a queued message, the 65536th owner, from a reference nobody holds any more even where its place is in use again, of more than is left of a shrunk buffer, a first copy into a foreign segment |
| `OwnershipTheorems.BadAllocBreaks` | fairmq/shmem/Message.h:136-148 | rebuilding with a size what is unmanaged or in a foreign segment breaks it, in every state |
| `OwnershipTheorems.BadResizeBreaks` | fairmq/shmem/Message.h:198-224 | giving a held region message another size, or asking a segment to shrink what nobody holds, breaks it |
| `OwnershipTheorems.BadShrinkBreaks` | fairmq/shmem/Message.h:198-206 | so does shrinking in place below what another holder sees |
| `OwnershipTheorems.BadReallocBreaks` | fairmq/shmem/Message.h:211-222 | shrinking by reallocation breaks it unless the message is held, managed, unshared and in its own segment |
| `OwnershipWitnesses.SentTwice` | fairmq/shmem/Socket.h:132-145 | a reachable state in which a message is sent twice, with the invariant broken after it |
| `OwnershipWitnesses.WrongRegion` | fairmq/shmem/Message.h:402-413 | a reachable state from which receive, close and release return a block of one region to another |
| `OwnershipWitnesses.RebuiltUnmanaged` | fairmq/shmem/Message.h:136-141 | a reachable former region message whose rebuild with a size breaks the invariant |
| `OwnershipWitnesses.RebuiltInForeignSegment` | fairmq/shmem/Message.h:348-359 | the same for a managed message from another segment: the counter of the new buffer is not where the message looks for it |
| `OwnershipWitnesses.CopiedIntoQueued` | fairmq/shmem/Message.h:273-275 | a reachable state in which a sent, closed and not rebuilt message is the target of a copy |
| `OwnershipWitnesses.CopiedFromQueued` | fairmq/shmem/Message.h:287-308 | a reachable state in which a message that was sent away is the source of a first copy |
| `OwnershipWitnesses.CopiedOntoItself` | fairmq/shmem/Message.h:263-275 | a message copied onto itself is closed and then counted up |
| `OwnershipWitnesses.CopiedIntoForeignSegment` | fairmq/shmem/Message.h:297-304 | a reachable first copy whose counter is looked for in the wrong segment |
| `OwnershipWitnesses.CounterWraps` | fairmq/shmem/Common.h:128-130 | a reachable state with 65535 owners whose next copy takes the counter to zero |
| `OwnershipWitnesses.SharedRealloc` | fairmq/shmem/Message.h:211-222 | a reachable shared buffer that a reallocation frees under its other owner |
| `OwnershipWitnesses.SharedShrink` | fairmq/shmem/Message.h:198-206 | a reachable shared buffer whose tail is handed back while another message still sees it |
| `OwnershipWitnesses.ShrunkRegion` | fairmq/shmem/Message.h:198-206 | a reachable region message whose block changes size |
| `OwnershipWitnesses.CopiedAfterReuse` | fairmq/shmem/Message.h:263-285 | a reachable state in which the buffer of a sent message is gone and its place used again: a copy of that message shows 1000 bytes of a buffer of 10 and counts as its owner |
| `OwnershipWitnesses.CopiedAfterShrink` | fairmq/shmem/Message.h:263-285 | a reachable state in which the receiver has shrunk the buffer: a copy of the sent message sees more than is left |
| `Backends.StepSim` | fairmq/shmem/Message.h:286-309 | sessions that differ in where region counters are stored, where allocators place buffers and counters, and whether buffers shrink in place stay similar in every step |
| `Backends.BackendsAgree` | fairmq/shmem/Message.h:376-391 | the same calls give equal GetRefCount on un-queued region messages and return the same blocks in the same order, whatever the counter-segment sizes and the allocators' choices |
| `Message.ShmMessage.Empty` | fairmq/shmem/Message.h:43-49 | an empty message belongs to its manager's segment |
| `Message.ShmMessage.InRegion` | fairmq/shmem/Message.h:80-103 | a region message carries its block and no counter |
| `Message.ShmMessage.FromMeta` | fairmq/shmem/Message.h:105-117 | a received part carries exactly the header's fields |
| `Message.ShmMessage.SetMeta` | fairmq/shmem/Message.h:337-346 | the metadata is replaced; queued flag and cached region pointer stay |
| `Message.ShmMessage.InitializeChunk` | fairmq/shmem/Message.h:348-359 | a fresh counter at one and a buffer of that size in the manager's segment, or no change when the allocator fails |
| `Message.ShmMessage.ReleaseUnmanagedRegionBlock` | fairmq/shmem/Message.h:402-413 | the block goes to the cached region, else to the message's own, else nowhere |
| `Message.ShmMessage.Deallocate` | fairmq/shmem/Message.h:361-400 | the whole closing effect on the message, the counters and the acknowledgements, including the throw when a shared message's region is missing |
| `Message.ShmMessage.Rebuild` | fairmq/shmem/Message.h:124-134 | closing and, if that does not throw, clearing the queued flag |
| `Message.ShmMessage.GetRefCount` | fairmq/shmem/Message.h:238-261 | the answer that the two results above characterise; the cached pointer of a shared region message is refreshed |
| `Message.ShmMessage.AddOwner` | fairmq/shmem/Message.h:277-310 | one more unit on the source's counter in all three backends, created at two on the first copy; nothing on failure |
| `Message.CopyShows` | fairmq/shmem/Message.h:312-320 | a copy describes the source's buffer, with its size, hint and handle, and so does the source; both find the same counter and keep their flags |
| `Message.ShmMessage.CloseFor` | fairmq/shmem/Message.h:266-275 | an initialised target is closed, and any target of an uninitialised source |
| `Message.ShmMessage.CopyFrom` | fairmq/shmem/Message.h:277-320 | the counter and then the fields, or nothing |
| `Message.ShmMessage.Copy` | fairmq/shmem/Message.h:263-320 | target, source, counters and acknowledgements after a copy, for every error path and for a message copied onto itself |
| `Message.ShmMessage.SetUsedSize` | fairmq/shmem/Message.h:191-234 | the five outcomes of shrinking, with counters and what the segment keeps for the buffer, for every message |
| `MessageRuns.CloseIsARun` | fairmq/shmem/Message.h:361-413 | in every state that satisfies the invariant, what Deallocate is specified to do is an uninterrupted run of closing steps, and it does not throw |
| `MessageRuns.RebuildIsARun` | fairmq/shmem/Message.h:124-134 | the same for Rebuild |
| `MessageRuns.DestroyIsARun` | fairmq/shmem/Message.h:322 | closing and then destroying a message leaves nothing of it and touches no other |
| `MessageRuns.LookIsAStep` | fairmq/shmem/Message.h:165-182 | looking at a region message refreshes its cached pointer and changes nothing else |
| `MessageRuns.AllocIsAStep` | fairmq/shmem/Message.h:348-359 | InitializeChunk on a rebuilt message is the allocation step |
| `MessageRuns.ShrinkIsAStep` | fairmq/shmem/Message.h:198-225 | SetUsedSize to a smaller size is the step that shrinks in place, the one that only sets the size, or the reallocating one |
| `MessageRuns.CopyIsARun` | fairmq/shmem/Message.h:263-320 | Copy is the closing run of its target and the copying step, and a run of the machine when the discipline is observed |
| `SocketRuns.SendIsAStep` | fairmq/shmem/Socket.h:132-145 | what a single send puts on the link is the reference that the step puts in flight, behind what was there; the message becomes queued and nothing else changes |
| `SocketRuns.ReceiveIsAStep` | fairmq/shmem/Socket.h:183-188 | taking the oldest single packet off the link is the step that moves that reference into the message; nothing else changes |
| `SocketRuns.SendPartsIsARun` | fairmq/shmem/Socket.h:236-240 | a multipart send of different messages is one send step after the other; other messages, packets, counters and logs stay |
| `SocketRuns.SendPartsOnLink` | fairmq/shmem/Socket.h:211-246 | the packet that a multipart send puts on the link holds exactly the headers that this run puts in flight, in order |
| `SocketRuns.PartIsARun` | fairmq/shmem/Socket.h:287-293 | one part of a multipart receive is a new message that takes over the header; everything else stays |
| `SocketRuns.ReceivePartsIsARun` | fairmq/shmem/Socket.h:285-299 | a multipart receive is one such part after the other |
| `SocketRuns.ReceivePartsOnLink` | fairmq/shmem/Socket.h:277-299 | it takes exactly the oldest packet off the link, one new message per header, in order |
| `AckPipeline.StepInv` | fairmq/shmem/UnmanagedRegion.h:353-448 | every step of every thread conserves blocks and keeps batches and drops within bounds |
| `AckPipeline.Conservation` | fairmq/shmem/UnmanagedRegion.h:353-448 | over every run of any number of views each block was released as often as it waits, is in hand, was dropped, is queued or was delivered; batches hold 1 to 256 blocks; only stopped views drop |
| `AckPipeline.QuiescentDelivered` | fairmq/shmem/UnmanagedRegion.h:397-436 | with everything flushed and no view stopped, the callbacks saw exactly the released blocks |
| `AckPipeline.EverythingArrives` | fairmq/shmem/UnmanagedRegion.h:353-436 | from every state of every run in which no view was stopped, senders and receiver can go on until every released block has had its callback |
| `AckPipeline.TakeSplits` | fairmq/shmem/UnmanagedRegion.h:367-371 | a batch is the end of the list, at most 256 blocks; the rest stays in order |
| `AckPipeline.DeliveredInOrder` | fairmq/shmem/UnmanagedRegion.h:374-428 | the callbacks see the blocks in the order in which batches were sent |
| `AckThreads.AckView.ReleaseBlock` | fairmq/shmem/UnmanagedRegion.h:438-448 | the block is appended; the sender is woken from 256 blocks on |
| `AckThreads.AckView.TakeBatch` | fairmq/shmem/UnmanagedRegion.h:367-371 | the batch is the end of the list, at most 256 blocks, and the rest stays in order |
| `AckThreads.AckView.SendAcksStopped` | fairmq/shmem/UnmanagedRegion.h:358-385 | a stopped sender ends with the list empty after the minimal number of batches, each block sent or dropped |
| `AckThreads.Dispatch` | fairmq/shmem/UnmanagedRegion.h:414-428 | bulk and single callbacks see the same blocks in the same order, each at the region's base plus its handle; without a callback nothing is called |
| `EndToEnd.StepInv` | fairmq/shmem/Message.h:402-413 | what the pipeline was given is what the ownership machine returned to that region, in order |
| `EndToEnd.CallbackMeansUnreferenced` | fairmq/shmem/UnmanagedRegion.h:397-436 | a callback happens at most once per creation, only when no message and no in-flight header refers to it, and with the block it was created with |
| `EndToEnd.QuiescentCallbacks` | fairmq/shmem/UnmanagedRegion.h:353-448 | at quiescence the delivered blocks equal the blocks created in the region, as multisets |
| `RegionEvents.Subscription.Poll` | fairmq/shmem/Manager.h:567-589 | one turn of the subscription loop has the specified effect on observed events, counter and callbacks |
| `RegionEvents.StepInv` | fairmq/shmem/Manager.h:433-450 | registration, removal, snapshot and observation keep counts and per-key callback traces consistent |
| `RegionEvents.EventsInOrder` | fairmq/shmem/Manager.h:559-594 | in every interleaving each key's callbacks are none, [created] or [created, destroyed]; the subscriber never counts too far; equal counts mean the registry has been seen as it is |
| `RegionEvents.PollCatchesUp` | fairmq/shmem/Manager.h:452-497 | a poll over a full snapshot brings the subscriber up to date with every entry |
| `RegionEvents.PollCalls` | fairmq/shmem/Manager.h:567-589 | a poll calls back once for every entry that is news, in the order of the snapshot, and not for a region first seen destroyed |
| `RegionEvents.RegistryIs` | fairmq/shmem/Manager.h:433-450 | the registry after a run: every key added, destroyed exactly if a removal of that region happened |
| `RegionEvents.SnapshotExists` | fairmq/shmem/Manager.h:452-497 | every registry has a snapshot with each entry once |
| `RegionEvents.PollSettles` | fairmq/shmem/Manager.h:559-594 | after an uninterrupted poll the observed entries are the registry, and the observed count meets the shared counter exactly if no region was removed twice |
| `RegionEvents.NeverSettles` | fairmq/shmem/Manager.h:440-443 | a run that removes a region twice |
| `RegionCache.ThreadCache.GetRegionFromCache` | fairmq/shmem/Manager.h:373-431 | fast and slow path: answer, new cache and new region map |
| `RegionCache.CachedIsCurrent` | fairmq/shmem/Manager.h:373-396 | after any run of managers, regions and threads a non-null answer is the current entry of that manager's map |
| `RegionCache.LookupAnswers` | fairmq/shmem/Manager.h:373-450 | what a lookup answers after any run, told by the steps alone: null if the thread remembers a vain lookup, else the region given by the last step that created or opened it, if nothing removed it since, else what is within reach |
| `RegionCache.RemovedIsGone` | fairmq/shmem/Manager.h:433-450 | a region that was removed, or whose manager is gone, is not answered until it is given again |
| `RegionCache.RemovedExample` | fairmq/shmem/Manager.h:433-450 | such a run |
| `RegionCache.StaleNull` | fairmq/shmem/Manager.h:380-396 | a null answer disagrees with the map exactly if null is cached in this generation and the map has the id |
| `RegionCache.StaleNullOverRuns` | fairmq/shmem/Manager.h:373-526 | over every run a null answer is stale exactly if the thread looked the id up in vain, a view was opened after that, and the generation has not advanced |
| `RegionCache.StaleNullHappens` | fairmq/shmem/Manager.h:499-514 | a run in which a null answer is stale |
| `Wire.LeRoundTrip` | fairmq/shmem/Common.h:158-167 | fixed-width integers survive their bytes |
| `Wire.MetaRoundTrip` | fairmq/shmem/Common.h:158-167 | a header is read back as it was written, negative handles and any padding bytes included |
| `Wire.HeaderLayout` | fairmq/shmem/Common.h:158-167 | where each field of a header lies, in which width, negative handles in two's complement |
| `Wire.LeAt` | fairmq/shmem/Common.h:158-167 | byte k of a number is its k-th digit to the base 256 |
| `Wire.TotalSizeAdds` | fairmq/shmem/Socket.h:236-240 | total sizes add up |
| `Wire.CarriesOne` | fairmq/shmem/Socket.h:279-283 | a metadata message stands for at most one sequence of headers |
| `Wire.CarriesWellFormed` | fairmq/shmem/Socket.h:277-281 | an encoded message passes the receiver's assertions exactly if it has a header or padding |
| `Wire.Encode` | fairmq/shmem/Socket.h:211-228 | the multipart metadata message announces and contains exactly the headers, for every padding size |
| `Wire.Decode` | fairmq/shmem/Socket.h:277-293 | what is read from a well-formed message is the one sequence of headers it carries, and their total size |
| `Wire.EncodeSingle` | fairmq/shmem/Socket.h:132-136 | the single metadata message carries the header |
| `Socket.EndsOnce` | fairmq/shmem/Socket.h:138-157 | the attempts decide how the retry loop ends |
| `Socket.Retry` | fairmq/shmem/Socket.h:138-157 | the loop ends with the first attempt that is not to be repeated: transferred, -1 for a failure, -2 for a timeout, -3 for an interruption; it goes on while there is none |
| `Socket.ShmSocket.Send` | fairmq/shmem/Socket.h:117-160 | the reference moves into the link and the connection's flow makes a send, or nothing changes at all |
| `Socket.ShmSocket.Receive` | fairmq/shmem/Socket.h:162-201 | the message takes over the first header of the oldest packet, whatever it was sent as, and its own flags stay; a short packet throws; for a single message the connection's flow makes a receive |
| `Socket.ShmSocket.SendParts` | fairmq/shmem/Socket.h:203-261 | all headers enter the link as one packet, all messages become queued and the connection's flow makes a send, or nothing changes |
| `Socket.ShmSocket.ReceiveParts` | fairmq/shmem/Socket.h:263-314 | new messages, in the receiving manager's store and segment, with exactly the headers the oldest packet carries, in order; bytes without that form trip the assertion; for a multipart message they are the headers sent and the connection's flow makes a receive |
| `Socket.SendsBalanced` | fairmq/shmem/Socket.h:242-246 | a send of a socket keeps its connection in balance |
| `Socket.ReceivesBalanced` | fairmq/shmem/Socket.h:295-299 | a receive of a socket keeps its connection in balance |
| `Socket.BytesConserved` | fairmq/shmem/Socket.h:242-297 | over any run of a connection the bytes sent are those received plus those in flight, as 64-bit counters count |
| `ShmHeader.PadAligns` | fairmq/shmem/Common.h:146-152 | the computed padding is between one and the alignment and leads to a multiple |
| `ShmHeader.Segment.Construct` | fairmq/shmem/Common.h:139-153 | the header lies aligned inside the header part, the count is one, no byte outside that part changes |
| `ShmHeader.Segment.HeaderWords` | fairmq/shmem/Common.h:98-127 | where the offset of the header, the padding and the count lie |
| `ShmHeader.Segment.IncrementRefCount` | fairmq/shmem/Common.h:129 | 16-bit increment that leaves the offsets alone |
| `ShmHeader.Segment.DecrementRefCount` | fairmq/shmem/Common.h:130 | 16-bit decrement that leaves the offsets alone |
| `ShmHeader.Segment.Allocate` | fairmq/shmem/Manager.h:671-687 | the user buffer lies behind the header and fits the allocation; where the offsets decode, which is everywhere up to alignment 65527, it is aligned and found by both decodings |
| `ShmHeader.DecodesIff` | fairmq/shmem/Common.h:116-126 | a particular buffer decodes exactly if header part and padding fit 16 bits together |
| `ShmHeader.AlignmentLimit` | fairmq/shmem/Common.h:139-153 | an alignment is safe at every even address exactly if it is at most 65527 |
| `RateLimiter.Limit.constructor` | fairmq/tools/RateLimit.h:47-59 | a new limiter starts with the smallest iteration count, the most iterations in 5 ms but at least one, and within its bounds for times in the safe range |
| `RateLimiter.Limit.MaybeSleep` | fairmq/tools/RateLimit.h:68-124 | for every requested time: only the last call of a period measures, then it follows the control law, and it is defined exactly if nothing overflows and the assertion holds; in the safe range the bounds hold again and it always is |
| `RateLimiter.RoundControls` | fairmq/tools/RateLimit.h:72-119 | the control law: what is measured; too fast at the lowest count, 7/8 of the missing time is added to the sleep, above it the count falls; too slow with a sleep, half of the excess is taken off, without one the count grows up to once a second; within 1/64 nothing changes |
| `RateLimiter.FirstSleep` | fairmq/tools/RateLimit.h:112 | the first measurement of a loop that is too fast asks for a sleep |
| `RateLimiter.SomeClockSleeps` | fairmq/tools/RateLimit.h:112-123 | there is such a loop for every requested time above one nanosecond |
| `RateLimiter.LimiterLimits` | fairmq/tools/RateLimit.h:68-124 | if sleeps last, no limiter at its lowest count finds its loop too fast more than 328 times in a row, whatever the loop does |
| `RateLimiter.RoundBounded` | fairmq/tools/RateLimit.h:71-119 | a measurement keeps minimum and maximum iteration count, overflows nothing and never sleeps while skipping |
| `RateLimiter.SafeRange` | fairmq/tools/RateLimit.h:47-124 | clean for every clock exactly if the requested time lies between 3 ns and 1 s |
| `RateLimiter.GrowsUntilOverflow` | fairmq/tools/RateLimit.h:89-92 | at 1 or 2 ns a slow loop drives the iteration count into 32-bit overflow |
| `RateLimiter.CountBecomesZero` | fairmq/tools/RateLimit.h:90-92 | above one second one slow measurement makes the iteration count zero |
| `RateLimiter.SleepStaysSmall` | fairmq/tools/RateLimit.h:81-123 | if sleeps last, no run asks for a sleep of three times the longer of 5 ms and the requested time |
| `DeviceFsm.StateMachine.constructor` | fairmq/StateMachine.cxx:81-96 | a started machine is in Idle with nothing pending |
| `DeviceFsm.StateMachine.DefaultFct` | fairmq/StateMachine.cxx:104-115 | the action of every row announces the target and marks it pending |
| `DeviceFsm.StateMachine.Process` | fairmq/StateMachine.cxx:117-144 | event processing over two orthogonal regions with a terminate state |
| `DeviceFsm.StateMachine.ChangeState` | fairmq/StateMachine.cxx:257-310 | new machine state and answer of a request |
| `DeviceFsm.StateMachine.CommitPending` | fairmq/StateMachine.cxx:196-208 | the worker commits the pending state and stops after Exiting or Error |
| `Device.StepOk` | fairmq/Device.cxx:217-276 | every worker step, handler and caller keeps the pending target an edge of the table and a handler's obligation met |
| `Device.AcceptedInOrder` | fairmq/StateMachine.cxx:257-310 | before ErrorFound the states entered and then the pending one are the accepted requests, in order, for every interleaving |
| `Device.HistoryIsTablePath` | fairmq/StateMachine.cxx:117-144 | every run's states are a path of the table from Idle, ended at most by one Error |
| `DeviceLife.InitAndReset` | fairmq/StateMachine.cxx:117-144 | at every moment of every run the device has been initialised as often as reset, or once more, and so has the task; in Idle and Exiting everything is reset |
| `DeviceLife.RunningIsPrepared` | fairmq/StateMachine.cxx:117-144 | whenever the device runs it has initialised, bound, connected and initialised its task, in this order, since the last Idle |
| `DeviceLife.EnteredFrom` | fairmq/StateMachine.cxx:117-144 | the states from which each state is entered in any run |
| `DeviceLife.Answered` | fairmq/StateMachine.cxx:257-310 | for every state the exact set of requests answered with true, and the state each of them makes pending |
| `DeviceLife.AnsweredWhilePending` | fairmq/StateMachine.cxx:261-306 | while a transition is pending only ErrorFound gets through |
| `Device.TerminalIsFinal` | fairmq/StateMachine.cxx:396-414 | after Error nothing changes the state, after Exiting only an exception of its handler or of a subscriber |
| `Device.ThrowFails` | fairmq/Device.cxx:380-402 | an exception leaves the state alone at first; out of Running it raises ErrorFound at once |
| `Device.ExceptionEndsInError` | fairmq/StateMachine.cxx:396-414 | whatever threw, the worker ends with the device in Error |
| `Device.ExitingBecomesError` | fairmq/StateMachine.cxx:396-414 | a run whose states are Idle, Exiting and Error |
| `Device.ErrorFoundOverwrites` | fairmq/StateMachine.cxx:261-298 | ErrorFound keeps the order of accepted transitions exactly when none is pending |
| `Device.PendingIsOverwritten` | fairmq/StateMachine.cxx:257-298 | a run in which an accepted InitDevice is lost to ErrorFound |
| `Device.AnswersAfterError` | fairmq/StateMachine.cxx:296-306 | after ErrorFound a request that is let through answers true and changes nothing |
| `StateQueue.ReadablePrefix` | fairmq/StateQueue.h:125-133 | what can be read is the part before the first Error |
| `StateQueue.Queue.Push` | fairmq/StateQueue.h:76-83 | appends |
| `StateQueue.Queue.Clear` | fairmq/StateQueue.h:113-117 | forgets everything |
| `StateQueue.Queue.WaitForNext` | fairmq/StateQueue.h:31-36 | front returned and removed; an Error is reported and stays |
| `StateQueue.Queue.WaitForNextOrCustom` | fairmq/StateQueue.h:46-52 | the same, and (false, Ok) for an empty queue |
| `StateQueue.Queue.WaitForState` | fairmq/StateQueue.h:62-65 | found exactly when the state stands before the first Error; otherwise that Error is at the front or everything has been read |
| `StateQueue.ReadsInOrder` | fairmq/StateQueue.h:31-143 | in any order of calls the states consumed and those queued are what was pushed since the last Clear, and no Error is ever passed |
| `Shutdown.MoveDecreases` | fairmq/plugins/control/Control.cxx:477-502 | every move of device or controller decreases a measure |
| `Shutdown.LiveNotDeadlocked` | fairmq/plugins/control/Control.cxx:477-502 | in a live state some move is certain to come |
| `Shutdown.ShutdownCompletes` | fairmq/plugins/control/Control.cxx:471-506 | with snapshot and clear as one step no run is longer than the measure, none gets stuck, and a finished one leaves the device in Exiting or Error |
| `Shutdown.ShutdownFromAnyRun` | fairmq/plugins/control/Control.cxx:471-506 | the same after anything callers and worker did before, and with any leftovers in the queue |
| `Shutdown.DeadlockIff` | fairmq/plugins/control/Control.cxx:471-506 | from the call of the sequence as it is in the code a deadlock can be reached exactly if the device has not ended and has a transition pending, an exception out, or a state whose handler moves on by itself; where user code may throw, also if the state is not announced yet |
| `Shutdown.SafeIff` | fairmq/plugins/control/Control.cxx:471-506 | no deadlock can be reached exactly if the device has ended, or nothing is pending and it rests in a state that it has announced (or will, if no subscriber throws) |
| `Shutdown.MissedReady` | fairmq/plugins/control/Control.cxx:473-476 | from a state of Running that the device reaches, a run with snapshot and clear apart after which nobody moves again |
| `Keys.DigitsRoundTrip` | fairmq/ProgOptions.cxx:362 | an index is read back from its decimal digits, which contain digits only |
| `Keys.KeyInjective` | fairmq/ProgOptions.cxx:362-376 | keys of different channels, indices or fields differ, whatever the names contain |
| `Keys.PrefixOwns` | fairmq/ProgOptions.cxx:252-265 | a key with the prefix of index i belongs to index i: 1 never captures 10 |
| `Keys.TypeKeyField` | fairmq/ProgOptions.cxx:167-169 | of a channel's keys exactly the type key matches the counting expression |
| `Keys.NameRoundTrip` | fairmq/Channel.h:117-132 | prefix and index come back from a channel's full name, brackets in the name included |
| `Keys.AddressKeyIs` | fairmq/Device.cxx:364 | the key built from prefix and index is the channel's address key |
| `Channels.GetChannelInfo` | fairmq/ProgOptions.cxx:163-183 | exactly the names some type key mentions, each with the number of such keys |
| `Channels.ProgOptions.GetPropertiesStartingWith` | fairmq/ProgOptions.cxx:252-265 | exactly the entries whose key has the prefix |
| `Channels.ProgOptions.AddChannel` | fairmq/ProgOptions.cxx:353-377 | thirteen settings under the counted index of the name, nothing else changed |
| `Channels.AssembleStored` | fairmq/Channel.cxx:92-112 | a channel rebuilt from what AddChannel stores has every setting back, the two timeouts at their defaults |
| `Channels.AssembleInverse` | fairmq/Channel.cxx:92-112 | a channel is built exactly from its own settings; settings that no channel has throw |
| `ChannelLayout.CountUnder` | fairmq/ProgOptions.cxx:163-183 | what is counted for a name is every sub-channel of every name that starts with it, up to the first dot |
| `ChannelLayout.CountIs` | fairmq/ProgOptions.cxx:163-183 | the number counted for a name is the number its layout has, exactly if no dotted name interferes |
| `ChannelLayout.SelectedIs` | fairmq/ProgOptions.cxx:252-265 | a prefix lookup yields the settings of that sub-channel and of no other |
| `ChannelLayout.ConstructIs` | fairmq/Channel.cxx:92-112 | the channel built from a lookup has the given settings and defaults elsewhere |
| `ChannelLayout.ConstructAt` | fairmq/Device.cxx:166-171 | for every name the channel built from a lookup has the settings of its sub-channel and defaults elsewhere |
| `ChannelLayout.AddedEncodes` | fairmq/ProgOptions.cxx:353-377 | AddChannel appends one sub-channel to the layout of its name |
| `ChannelLayout.ChannelsRoundTrip` | fairmq/ProgOptions.cxx:353-377 | after any sequence of AddChannel with dot-free names: counts, rebuilt settings index by index, and every other key untouched |
| `ChannelLayout.DottedNeverCounted` | fairmq/ProgOptions.cxx:170-172 | a name with a dot is never found again |
| `ChannelLayout.DottedOverwrites` | fairmq/ProgOptions.cxx:353-377 | the second channel of a dotted name replaces the first |
| `ChannelLayout.DottedShifts` | fairmq/ProgOptions.cxx:167-178 | a new dotted name counts as one more channel of the part before the dot, a known one does not |
| `ChannelLayout.CountAdvancesIff` | fairmq/ProgOptions.cxx:353-362 | the count of a name advances exactly when it has no dot |
| `ChannelLayout.WriteBack` | fairmq/Device.cxx:358-366 | putting a rewritten address back changes that sub-channel's address and nothing else |
| `ChannelLayout.BuildChannels` | fairmq/Device.cxx:168-170 | channels 0 to count - 1 of a name, or nothing when a constructor throws |
| `ChannelLayout.InitChannels` | fairmq/Device.cxx:166-171 | every counted channel is built once, in order, behind the channels the device already has |
| `ChannelLayout.DeviceGetsWhatWasAdded` | fairmq/Device.cxx:166-171 | what was added under a name is what the device ends up with |
| `ConfigDocument.SocketValue` | fairmq/JSONParser.cxx:131-190 | every field of every sub-channel, from the tree: the text of the first child of that name in its socket node, else in the channel node, read as a name, a number or a flag; the default exactly if both are missing or unreadable |
| `ConfigDocument.SocketsNumber` | fairmq/JSONParser.cxx:107-125 | how many sub-channels a node stands for, from the tree |
| `ConfigDocument.DeviceKeyIs` | fairmq/JSONParser.cxx:68-74 | a device node matches by its key, without one by its id |
| `ConfigDocument.DocumentValue` | fairmq/JSONParser.cxx:61-190 | the value of every key of the flat configuration: the first channel node, in the order of the document, that has the name and reaches the index decides |
| `ConfigDocument.DocumentKey` | fairmq/JSONParser.cxx:61-190 | no other key is there |
| `ConfigDocument.DocumentFails` | fairmq/JSONParser.cxx:61-107 | reading fails exactly if a channel node of the device has no name |
| `ConfigDocument.Example` | fairmq/JSONParser.cxx:61-190 | a device with one channel of which only name and type are given |
| `ConfigDocument.Spelling` | fairmq/Channel.h:366-383 | how every key is spelled, which setting stands under it, and its default |
| `ConfigParser.Sockets` | fairmq/JSONParser.cxx:107-125 | numSockets sub-channels if positive, else one per socket, else one |
| `ConfigParser.EmplaceSettings` | fairmq/JSONParser.cxx:118-120 | missing keys are written, existing ones keep their value |
| `ConfigParser.SubChannelParser` | fairmq/JSONParser.cxx:131-190 | sockets numbered from zero across all sockets nodes, or one sub-channel with the common settings |
| `ConfigParser.ChannelParser` | fairmq/JSONParser.cxx:85-129 | the channel nodes of a device in document order, or nothing when one has no name |
| `ConfigParser.DeviceParser` | fairmq/JSONParser.cxx:61-83 | the channel nodes of all matching devices, in document order |
| `ConfigMeaning.FirstReachingIs` | fairmq/JSONParser.cxx:110-125 | the first definition of a name that has the given index, and when there is one |
| `ConfigMeaning.DefsNone` | fairmq/JSONParser.cxx:107 | parsing fails exactly when some channel node has no name |
| `ConfigMeaning.FlattenEncodes` | fairmq/JSONParser.cxx:85-190 | the flat configuration is the layout of the merged definitions and holds no other channel key |
| `ConfigMeaning.ConfigNumbers` | fairmq/JSONParser.cxx:85-190 | for every name the indices are 0 to the deepest definition, without gaps; what the device counts, and exactly when it counts that many |
| `ConfigMeaning.ConfigValues` | fairmq/JSONParser.cxx:110-176 | every key of index i comes from the first definition that reaches i |
| `ConfigMeaning.ConfigBuilds` | fairmq/Device.cxx:166-171 | the device builds sub-channel i from those settings alone |

## Left out

- Boost.Interprocess allocators, mapping, locking and zeroing of memory: allocation is a parameter that names a free place or fails, and shrinking in place may or may not succeed.
- ZeroMQ sockets, pollers and options: a socket is a first-in first-out list of metadata messages, and each attempt may also report a temporary condition or fail. Metadata is not lost on the way.
- The zeromq transport: ownership lives inside libzmq.
- The message payload: buffers are handles and sizes; copying data into a message is not modelled.
- File-backed regions, the Monitor, heartbeats, ResetContent and the debug-mode message counters.
- The shutdown sequence as an imperative loop: it runs concurrently with the device, so its iterations are moves of a step machine.
- Transport interrupt and resume around a pending transition.
- Text parsing (command line, JSON, numbers and flags) and the regular-expression engine: the JSON model starts from a parsed tree, takes the conversions as parameters and states the key match directly. An empty device id and a missing top-level node are rejected before the modelled part.
- Channel::Validate, endpoint binding, host names, the interactive controller, logging, plugins, rate logging and example devices: branch-by-branch checks, I/O or user interface.
- The conversion of a floating-point rate into a requested time, and overflow of 64-bit durations.
- ShmHeader.Segment.Allocate: the attempt loop around the allocator is not modelled; the address it finally delivers is a parameter.
- GetData is modelled by a step that refreshes the cached region pointer at any time, which allows more runs than the code has.
- Null entries in a vector of messages: rejected by one check.
- Shrinking a region message works on whatever lies at that offset of the managed segment; the model gives it the effect on the message and on the counter at that place, and none on other memory. In the same way a counter that is gone or never existed is modelled by its place.
- OwnershipWitnesses.RebuiltInForeignSegment: the model keeps the allocator's handle; the code computes the handle of the new buffer relative to the foreign segment, so it resolves in this process and is later deallocated into the wrong segment. In both the message names a place of the foreign segment that holds no counter of its own.
- OwnershipWitnesses.CopiedIntoForeignSegment: the model keeps the counter's handle in the same way, where the code computes it relative to the foreign segment.
- A subscriber that throws when it is told of Error by an exception that is already on its way: that ends the process.
- RateLimiter.Limit.MaybeSleep: the clock does not run backwards, as the steady clock of the code promises; a requested time of zero, which divides by zero in the constructor, is excluded.
- Socket.ShmSocket.Receive: an attempt can only succeed when a packet has arrived; the same holds for `Socket.ShmSocket.ReceiveParts`.
