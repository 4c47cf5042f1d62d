# MANA: a Dafny model of its checkpoint protocols

MANA checkpoints MPI jobs.  Each process has an upper half (the application, saved in the
checkpoint image) and a lower half (the MPI library, made new at restart).  This project models the
protocols and tables that make a checkpoint safe, and proves what they promise over every run or
every input.

* **The Collective Clock** (`MpiJob`, `CollectiveClock*`).  A transition system over all processes of
  an arbitrary job: application threads make the calls of their programs, checkpoint threads run one
  drain attempt (share, rounds, delta exchange, barriers, the coordinator's tables) in every
  interleaving.  A successful drain stops at the least cut where all members of every communicator
  made the same calls; a round succeeds exactly when it should, and the attempt has no deadlock.
* **The lower-half gate** (`LowerHalfGate`, `LowerHalfProgress`).  Threads with store buffers, an
  entry path without a fence, and a checkpoint thread that closes, calls `membarrier()` and scans.
* **The point-to-point drain** (`P2pDrain*`, `P2pDummies`, `P2pRequests`).  All ranks over any
  number of checkpoints: counters, the three-state slot of a blocked `MPI_Recv`, the dummy flag, the
  reductions, the dummies, and a finer system with `MPI_Irecv` requests and the pending log that
  refines it.
* **Matching across checkpoints** (`MessageBuffer`, `P2pChannel*`, `P2pIssend`, `P2pAnnounce`,
  `P2pProbe`).  MANA's buffer, dummies and retries, probes and the `MPI_Issend` acks, proved to refine MPI's own matching
  rules (section 3.5 of the MPI 3.1 standard).
* **The memory arena and the image** (`BlockLists`, `MemArena`, `ImageSelection`).
* **Virtual IDs** (`VirtualIds`, `ConstantTable`, `DatatypeGraph`) and **the pending calls**
  (`PendingList`).  `Common` has what several modules share.

A process that makes no step is not forced to make one.  So the theorems are safety properties of all
finite runs, and, for progress, that a step is enabled or that some continuation gets there.  What the MPI library, the kernel and the coordinator answer is a parameter or a
nondeterministic step.

`dafny verify dfyconfig.toml` checks the whole project.

## Model

| member | source | states |
|---|---|---|
| CollectiveClockInvariant.ProgramStep | src/seq_num.cpp:83-106 | every step of every process keeps: each clock counts exactly the calls begun on its communicator, and a process lacks the clock of a communicator that it made only once all members freed it |
| CollectiveClockBarrier.BarrierStep | src/seq_num.cpp:396-430 | every step keeps the rounds in lockstep: a round is complete exactly if the next one is open, and a process that has not arrived is in the newest round |
| CollectiveClockBarrier.TallyStep | src/seq_num.cpp:431-452 | every step keeps the round counters equal to the samples of the processes that arrived, and the number of raised gids 0 only if the list is empty |
| CollectiveClockBarrier.SuccessMeans | src/seq_num.cpp:453-464 | a full round whose counters say success has a sample of every process that reached its targets outside a critical section |
| CollectiveClockTargets.ToldStep | src/seq_num.cpp:192-237 | every step keeps: what a process counted is in the table or still to be uploaded, and no target is above what some process reached |
| CollectiveClockTargets.BaseStep | src/seq_num.cpp:238-297 | every step keeps: a round changes the table only at the gids of its list |
| CollectiveClockTargets.DeltaStep | src/seq_num.cpp:238-297 | every step keeps: the targets of a process are at least the table as it was when its round opened, although it downloads only the raised gids |
| CollectiveClockDrain.RunInv | src/seq_num.cpp:383-509 | all of the above hold in every state of every run |
| CollectiveClockDrain.SuccessIsAgreed | src/seq_num.cpp:431-464 | once one process sees success, every process is in the same round and its next drain step is success too |
| CollectiveClockDrain.CallsAreTable | src/seq_num.cpp:124-165 | after success, each process made exactly as many calls on a communicator with other members as the table says |
| CollectiveClockDrain.MadeByAll | src/mpi-wrappers/mpi_comm_wrappers.cpp:683-704 | after success, a communicator that one process made was made by every member |
| CollectiveClockDrain.SuccessIsClosed | src/seq_num.cpp:120-165 | drain safety: at success all members of every communicator made the same number of calls on it, and no process is in a critical section |
| CollectiveClockDrain.LiveIsAgreed | src/seq_num.cpp:299-360 | at success a communicator is live on one member exactly if it is live on all |
| CollectiveClockDrain.ErasedOnlyAfterAllFreed | src/seq_num.cpp:317-339 | in every run, a process that made a communicator lacks its clock only after every member began its counted MPI_Comm_free |
| CollectiveClockInvariant.BarrierMeansFreed | src/seq_num.cpp:299-316 | when the barrier that MPI_Comm_free starts completes, every member has begun its MPI_Comm_free |
| CollectiveClockDrain.EraseIsAfterAllFreed | src/seq_num.cpp:317-339 | in every run, finish_free() can erase a clock only after every member has begun its MPI_Comm_free |
| CollectiveClockDrain.CompletedFreeIsForgotten | src/seq_num.cpp:317-339 | in every run, a process that saw the barrier of its MPI_Comm_free complete has no clock of the communicator |
| CollectiveClockDrain.FreeBarriersComplete | src/seq_num.cpp:353-360 | at success, every MPI_Comm_free barrier that a process still tests was started by all members, so complete_comm_free_barriers() waits for no other call |
| CollectiveClockDrain.FirstAttempt | src/seq_num.cpp:383-394 | an attempt may start at the beginning of the job |
| CollectiveClockDrain.NextAttempt | src/seq_num.cpp:383-394 | wherever an attempt has got to, the next one may start, so the theorems hold for every attempt of every checkpoint |
| CollectiveClockDrain.SuccessStays | src/seq_num.cpp:124-136 | after success no process begins a call: the position of the job does not change in the rest of the attempt |
| CollectiveClockSuccess.SuccessIff | src/seq_num.cpp:431-464 | in every run, a process that passes the barrier of a round ends the drain exactly if every process arrived there with each target at most its calls, outside a critical section, and no process uploaded a target in the round |
| CollectiveClockProgress.FailsIff | src/seq_num.cpp:403-478 | in every run, an attempt gives up exactly if the round does not succeed and no process uploaded a target in it and in the 199 rounds before |
| CollectiveClockProgress.FailureIsAgreed | src/seq_num.cpp:403-478 | if one process gives up in a round, no process is past that round or has succeeded |
| CollectiveClockProgress.DrainCanGoOn | src/seq_num.cpp:383-478 | the attempt has no deadlock: until every process has succeeded or given up, some checkpoint thread can make its next step |
| CollectiveClockProgress.BeginWaitsIff | src/seq_num.cpp:120-136 | a thread that is to begin a call waits exactly while a checkpoint is pending and no clock is below its target |
| CollectiveClockProgress.CriticalSectionCanEnd | src/seq_num.cpp:415-427 | a thread in a critical section can leave it by its own steps, unless it waits for the lock or for another member to enter its MPI_Comm_create_group |
| CollectiveClockProgress.ReleaseLetsBegin | src/seq_num.cpp:497-503 | after a failed attempt the threads can begin calls again |
| CollectiveClockProgress.UploadsHavePeers | src/seq_num.cpp:156-163 | in every run, a round uploads only communicators with other members |
| CollectiveClockLeastCut.NeverPassesClosedCut | src/seq_num.cpp:124-165 | no process in the attempt ever passes any closed cut that is above the shared sequence numbers |
| CollectiveClockLeastCut.SuccessIsLeast | src/seq_num.cpp:396-478 | a successful drain ends at the least closed cut at or above the sequence numbers shared at its start |
| CollectiveClockLeastCut.SuccessIsUnique | src/seq_num.cpp:383-394 | two runs that shared the same sequence numbers end at the same cut, whatever the interleavings |
| CollectiveClockLeastCut.DeltaIsFull | src/seq_num.cpp:465-472 | at its lock section, each clock of a process has a target of at least what a full download would have given after the barrier before |
| LowerHalfGate.StepInv | src/lower_half_ckpt.cpp:42-162 | every step, with store buffers, keeps the gate's invariant |
| LowerHalfGate.GateExcludes | src/lower_half_ckpt.h:62-76 | from the return of the closing until the gate reopens, also through further closings, another thread is in the lower half only if that first scan left it there in a blocking call, and none with skip_blocked false |
| LowerHalfGate.NoNewEntries | src/lower_half_ckpt.cpp:42-162 | from the return of the closing until the gate reopens, also while it is closed again, a thread outside the lower half stays outside |
| LowerHalfGate.MembarrierIsNeeded | src/lower_half_ckpt.h:69-71 | without the membarrier there is a run of two threads where one is in the lower half after the scan ends |
| LowerHalfProgress.OpenGateLetsIn | src/lower_half_ckpt.cpp:77-97 | from every reachable state with the gate open, any thread gets in by steps of its own once the store that opened the gate reached memory |
| LowerHalfProgress.NestedEntryPasses | src/lower_half_ckpt.cpp:80-86 | whatever the gate is, a thread that is inside, and the closer, can enter once more |
| LowerHalfProgress.CloseCanEnd | src/lower_half_ckpt.cpp:119-140 | from every reachable state of a closing, some steps lead to its end: no thread that it waits for is stuck, and with skip_blocked no thread in a blocking call has to move |
| LowerHalfProgress.ClosedCanGoOn | src/lower_half_ckpt.cpp:142-162 | from every reachable state with the gate closed, it can be opened, and it can be closed again in either way |
| LowerHalfProgress.ExcusedWasBlocked | src/lower_half_ckpt.cpp:133-138 | in every run, a thread that a closing leaves in the lower half was in a blocking call during that closing |
| P2pDrainRounds.LifeStep | src/p2p_drain.cpp:599-671 | every step keeps the reductions in order: one opens only when the one before has the numbers of all ranks and did not finish the drain, and each rank gave its numbers to exactly those it passed |
| P2pDrainInvariant.StepInv | src/p2p_drain.cpp:760-870 | every step keeps the drain's invariant: classification, samples, dummies and lists of every rank |
| P2pDummies.ReadClassifies | src/p2p_drain.h:98-125 | the one read of p2p_dummy_phase after a receive returns is true exactly for a dummy |
| P2pDummies.DummyIsNeverBuffered | src/p2p_drain.cpp:395-399 | the drain never takes a dummy for a message; a dummy is in flight only to a rank that is in MPI_Recv with its flag set |
| P2pDummies.CountsBalance | src/p2p_drain.cpp:183-200 | conservation: messages counted as received, in flight or about to be counted by a blocking MPI_Recv add up to the messages sent, over any number of checkpoints |
| P2pDummies.ReceivedStaysQuiet | src/p2p_drain.cpp:639-657 | once a reduction's received total reached its sent total, no real message is in flight or uncounted until the drain ends |
| P2pDummies.DrainEndsClean | src/p2p_drain.cpp:609-662 | when a rank leaves the drain loop, no MPI_Recv is in the lower half, nothing is in flight, and each rank that was blocked received exactly one dummy, every other none |
| P2pDummies.BlockedCanGoOn | src/p2p_drain.cpp:760-870 | once the posted dummies are sent, every MPI_Recv still in the lower half can go on |
| P2pDrainProgress.SampleWasGiven | src/p2p_drain.cpp:633-645 | in every run, what a reduction has of a rank is the received count that it read first, and its sent count and slot when it gave the numbers |
| P2pDrainProgress.RoundDecides | src/p2p_drain.cpp:646-661 | in every run, a complete reduction ends the drain exactly if its samples have all messages received, nothing unfinished and no rank in MPI_Recv; the dummy passes start exactly if only receives are left, and then go on one by one |
| P2pDrainProgress.JudgeDecides | src/p2p_drain.cpp:654-661 | a rank leaves the drain loop exactly on such a reduction |
| P2pDrainProgress.QuietDrainEnds | src/p2p_drain.cpp:633-657 | if nothing was in flight or uncounted before a round opened, and no rank gave anything unfinished in it, every rank leaves the drain loop there |
| P2pDrainProgress.DummiesReachBlocked | src/p2p_drain.cpp:606-661 | four rounds after a reduction with all messages received and some rank in MPI_Recv, every MPI_Recv still in the lower half can go on |
| P2pDrainProgress.DrainCanGoOn | src/p2p_drain.cpp:599-671 | the drain has no deadlock: until it ends, some checkpoint thread can make its next step |
| P2pDrainProgress.CanReceiveAgain | src/p2p_drain.cpp:1102-1106 | after any number of checkpoints, a rank can send and can make an MPI_Recv, also again after a dummy |
| P2pDrainProgress.SlotStaysClosed | src/p2p_drain.cpp:609-623 | in every run, from a rank's part of pass 1 on its slot is not idle, so no MPI_Recv can be published until the reset |
| P2pDrainEnds.DrainCanEnd | src/p2p_drain.cpp:595-671 | from every draining state of every run, some continuation receives all messages, gives every blocked MPI_Recv its dummy, ends the drain and lets every rank run again |
| P2pDrainEnds.CheckpointCanStart | src/p2p_drain.cpp:1076-1090 | from every state between checkpoints of every run, the next drain can start |
| P2pRequests.MoveKeeps | src/mpi-wrappers/mpi_request_wrappers.cpp:48-57 | every step of MPI_Test, MPI_Wait, the drain's test and the drain's receive keeps: outside its few steps of completion, a request's message is counted exactly if the request is not in the pending log |
| P2pRequests.MoveIsStep | src/p2p_drain.cpp:247-289 | each of these steps is the one 'receive and count' step of the simple drain if it counts, and otherwise no step of it |
| P2pRequests.RunRefines | src/p2p_drain.cpp:247-410 | refinement: every run with MPI_Irecv requests comes to a run of the simple drain |
| P2pRequests.CountedOnce | src/mpi-wrappers/mpi_request_wrappers.cpp:119-131 | each message of an MPI_Irecv is counted at most once, exactly once before its request is gone, whether by MPI_Test, MPI_Wait, the drain or the buffer, and never for MPI_PROC_NULL |
| P2pRequests.EveryMessageIsCounted | src/p2p_drain.cpp:183-200 | conservation with requests: messages counted, in the network, matched but not counted, or taken by the drain but not counted add up to the messages sent |
| P2pRequests.DrainCompletesMatched | src/p2p_drain.cpp:247-289 | when the drain ends, nothing is in the network and every request that the MPI library matched is counted |
| P2pRequests.CountedIsHandedOut | src/p2p_drain.cpp:702-754 | in every run, each message that a rank counted went to one request or one MPI_Recv, or is still in the buffer |
| P2pRequests.CompleteCanBeConsumed | src/mpi-wrappers/mpi_request_wrappers.cpp:104-131 | in every run, between checkpoints, MPI_Test or MPI_Wait of a request that has its message can complete and consume it, whoever completed it |
| MessageBuffer.Queue.Find | src/p2p_drain.cpp:676-701 | finds the first buffered message that matches, and none only if none matches |
| MessageBuffer.Queue.Consume | src/p2p_drain.cpp:702-754 | takes out exactly the first match; the order of the others stays |
| MessageBuffer.Queue.Mark | src/p2p_drain.cpp:958-981 | marks the message of an envelope with exactly 'later' ones of the envelope behind it, and fails exactly if there are too few |
| MessageBuffer.MatchesIff | src/p2p_drain.cpp:683-690 | a message matches exactly by its communicator and by its source and tag or the wildcards |
| P2pChannelProofs.ChannelStep | src/p2p_drain.cpp:326-410 | every step keeps each source's order in the buffer and the network, and that no buffered message has a posted receive waiting |
| P2pChannelProofs.StepRefines | src/mpi-wrappers/mpi_p2p_wrappers.cpp:370-429 | every step is one that MPI's matching rules allow, or changes nothing for the application |
| P2pChannelProofs.RestRefines | src/mpi-wrappers/mpi_p2p_wrappers.cpp:345-352 | a dummy's arrival and the re-posting of its MPI_Recv change nothing for the application |
| P2pChannelProofs.RetryIsAllowed | src/mpi-wrappers/mpi_p2p_wrappers.cpp:272-300 | the retry of an MPI_Recv from the buffer is the receive of the application's last posted MPI_Recv |
| P2pIssend.DrainIsInvisible | src/p2p_drain.cpp:326-410 | refinement: each step of each checkpointed run, also a dummy that un-posts a blocked MPI_Recv and its retry after one or more checkpoints, is a step of an uncheckpointed run with the same sends, posts and receives |
| P2pIssend.NothingIsLost | src/p2p_drain.cpp:203-244 | per envelope, delivered then buffered then in flight is exactly what was sent, in order |
| P2pIssend.MarkHitsItsMessage | src/p2p_drain.cpp:956-981 | a notice marks exactly the message of its MPI_Issend, or the application has received that message |
| P2pIssend.OneAck | src/p2p_drain.cpp:884-954 | each announced MPI_Issend gets exactly one ack and completes only after its message is received |
| P2pAnnounce.AnnounceStep | src/p2p_drain.cpp:884-927 | every step keeps: no pending MPI_Issend is unannounced during a drain, and the buffered message of an MPI_Issend is marked or about to be |
| P2pAnnounce.EveryIssendIsAnnounced | src/p2p_drain.cpp:884-927 | in every run, a drain has announced every pending MPI_Issend, and between checkpoints each buffered message of an MPI_Issend is marked for it |
| P2pAnnounce.ReceivedIsAcked | src/p2p_drain.cpp:1009-1022 | in every run, once the message of an announced MPI_Issend is received, its ack is sent or can be sent |
| P2pAnnounce.ReceivedCanComplete | src/p2p_drain.cpp:872-883 | in every run, between checkpoints, an MPI_Issend whose message was received can complete |
| P2pChannelProgress.DrainCanEnd | src/p2p_drain.cpp:1076-1100 | from every state of a drain, steps of the drain alone lead to its end, with an empty network |
| P2pChannelProgress.CheckpointCanComplete | src/p2p_drain.cpp:1076-1100 | from every state between checkpoints, a whole checkpoint can be made |
| P2pChannelProgress.CanReceive | src/mpi-wrappers/mpi_p2p_wrappers.cpp:272-300 | a thread that may make a call can receive, from the buffer or the MPI library |
| P2pChannelProgress.CanRetry | src/mpi-wrappers/mpi_p2p_wrappers.cpp:345-359 | an MPI_Recv that received a dummy can be tried again after the checkpoint |
| P2pChannelProgress.ProbeFinds | src/mpi-wrappers/mpi_request_wrappers.cpp:380-409 | a probe finds a message that is in the buffer, or in the network with no receive waiting for it |
| P2pChannelProgress.DrainEndsEmpty | src/p2p_drain.cpp:639-665 | a drain ends only with nothing in the network and no notice left to look for |
| P2pProbe.ProbeThenReceive | src/mpi-wrappers/mpi_request_wrappers.cpp:380-409 | in every run, if a probe reported a message and no receive was posted or served since, a receive with its source and tag takes that message: from the buffer, from the network, or after a dummy when it is tried again, with checkpoints anywhere in between |
| P2pProbe.ClaimStep | src/mpi-wrappers/mpi_request_wrappers.cpp:391-408 | every step keeps: the reported message is the oldest of its envelope that is not delivered, and no receive posted before matches it |
| BlockLists.BlockList.Merge | src/lower-half/mem-wrapper.cpp:115-152 | any list covers exactly the union; a valid one stays sorted and apart, and stays valid exactly if the range is not empty or touches a block |
| BlockLists.BlockList.Remove | src/lower-half/mem-wrapper.cpp:154-232 | a sorted list covers exactly the difference and keeps the blocks outside the range; a valid one stays valid exactly if the range is not empty or does not start inside a block; the loop-detected test never holds |
| BlockLists.LoopRemoves | src/lower-half/mem-wrapper.cpp:159-230 | from any state of the remove loop, the rest of the loop keeps the addresses outside the range and ends with nothing left inside it |
| BlockLists.SortSeparates | src/lower-half/mem-wrapper.cpp:111-113 | sorting by address makes blocks that are pairwise apart a separated list |
| MemArena.NextFree | src/lower-half/mem-wrapper.cpp:268-283 | returns the lowest aligned range inside a free block, and none only if no free block has an aligned range |
| MemArena.AlignmentIff | src/lower-half/mem-wrapper.cpp:269-275 | a mapping gets a power of 2 above a page, up to a huge page, as alignment exactly if its hint is an odd multiple of it, and otherwise a page |
| MemArena.Arena.Avoid | src/lower-half/mem-wrapper.cpp:477-482 | the free list loses exactly the addresses of the mappings that end above the range's start, up to the first one that starts at its end or above |
| MemArena.SweptInOrder | src/lower-half/mem-wrapper.cpp:477-482 | with the mappings in order, these are exactly the mappings in the way |
| MemArena.Arena.ArenaMmap | src/lower-half/mem-wrapper.cpp:460-486 | each try takes the lowest aligned range that is still free; the result is the range of the first try that the kernel answers with a mapping, after tries that all found another mapping, and none exactly if the kernel fails first, no range is left, or after 16 tries |
| MemArena.ChosenWasFree | src/lower-half/mem-wrapper.cpp:460-486 | a range that such a search gives is aligned, and all of it was free |
| MemArena.Arena.Mmap | src/lower-half/mem-wrapper.cpp:501-530 | the result is the kernel's or, if the arena chooses, that of its search; allocated gains and free loses exactly the rounded range, and they stay disjoint; max_allocated_addr stays above everything allocated exactly if the arena chose the range or the caller's range ends below it |
| MemArena.Arena.Munmap | src/lower-half/mem-wrapper.cpp:578-596 | the rounded range moves from allocated to free exactly when the call succeeds |
| MemArena.Arena.IsFreeRange | src/lower-half/mem-wrapper.cpp:617-626 | true exactly if one free block has the whole range |
| MemArena.Arena.Place | src/lower-half/mem-wrapper.cpp:641-668 | the kernel's answer alone for calls that the arena has no part in; otherwise the mapping stays exactly if it shrinks or fits into a free range and the kernel does that, and else moves exactly if it may, the arena finds a range and the kernel does that |
| MemArena.Arena.Mremap | src/lower-half/mem-wrapper.cpp:631-685 | where the mapping goes, by the kernel's answers; allocated and free change by exactly the old range (unless it is kept), the new range and what the search took off; the lists stay valid and disjoint, for an old size of 0 exactly if the address touches a free block; max_allocated_addr stays above everything allocated |
| MemArena.Arena.Move | src/lower-half/mem-wrapper.cpp:671-678 | the four list updates make exactly the union and difference of both lists, and break them exactly for an empty old range that touches no free block |
| MemArena.Arena.RestoreMmap | src/lower-half/mem-wrapper.cpp:439-455 | everything allocated stays below max_allocated_addr; the rounded range goes from free to allocated exactly if the mapping succeeds |
| MemArena.Arena.InitAfterRestore | src/lower-half/mem-wrapper.cpp:285-311 | the new arena is exactly the range from above everything restored to the first mapping above; its list is valid exactly if something was restored and there is room |
| MemArena.EmptyMremapTears | src/lower-half/mem-wrapper.cpp:672-673 | a call of mremap() with old size 0 after which the lists are no longer valid and disjoint |
| MemArena.FixedMmapPassesMax | src/lower-half/mem-wrapper.cpp:501-530 | a fixed mmap() after which an allocated address is not below max_allocated_addr |
| ImageSelection.FirstEndingAbove | src/mpi_plugin.cpp:279-283 | the binary search finds the first region that ends above the address |
| ImageSelection.NextRange | src/mpi_plugin.cpp:269-296 | nothing of the upper half lies between the address and the range, all of the range does, and without a range nothing is left, also if the stack overlaps a region |
| ImageSelection.Skip | src/mpi_plugin.cpp:300-325 | the answer always makes progress, saves only the upper half and, as the last definition, skips none of it |
| ImageSelection.SaveArea | src/mpi_plugin.cpp:300-325 | the loop over an area ends; a byte is saved only if it is in the upper half and, with no other definition, exactly then; the pieces are in order and disjoint |
| VirtualIds.HandleParts | src/virtual_id.h:14-24 | kind, generation and slot can be read back from a handle |
| VirtualIds.Table.Reserve | src/virtual_id.cpp:84-101 | reserves exactly the slot of the constant, if it has one, and keeps the table's invariant |
| VirtualIds.SlotOfConstantIff | src/virtual_id.cpp:84-101 | the slot of a constant is exactly the one with a handle that equals the constant |
| VirtualIds.Table.Lookup | src/virtual_id.h:232-258 | finds an entry exactly for the handles in use, with 32-bit and with 64-bit MPI handles |
| VirtualIds.Table.AllocSlot | src/virtual_id.cpp:731-765 | takes a free unreserved slot, and fails exactly if the free list is empty and every slot above is reserved |
| VirtualIds.Table.Add | src/virtual_id.cpp:767-786 | the new handle differs from every handle in use, which all keep what they stand for, and has the next number in the order of creation; the free list stays exactly the unreserved dead slots below the high-water mark |
| VirtualIds.Table.Free | src/virtual_id.cpp:857-883 | removes exactly that handle and fails for anything not in use; the free list stays exact |
| VirtualIds.Table.Update | src/virtual_id.cpp:885-895 | changes what one handle stands for and nothing else |
| VirtualIds.AddedOk | src/virtual_id.cpp:767-786 | an add keeps the whole invariant and its handle is new |
| VirtualIds.FreedOk | src/virtual_id.cpp:857-883 | a free keeps the whole invariant, also when the generation wraps around |
| VirtualIds.ConstantIsNeverAHandle | src/virtual_id.cpp:73-101 | in every table that the operations make, no predefined constant is a handle in use |
| VirtualIds.HandleInUse | src/virtual_id.h:14-24 | the i-th handle of a slot is in use exactly if the slot is, by a handle of the same kind, a multiple of 16 uses later |
| VirtualIds.StaleHandleIsRejected | src/virtual_id.h:14-24 | a freed handle is rejected for the next 15 uses of its slot |
| VirtualIds.GidsDiffer | src/virtual_id.cpp:185-218 | two gids of the job are equal only if the same process made them with the same number |
| ConstantTable.Constants.Probe | src/virtual_id.cpp:58-71 | every probe ends, at the key's entry or at the first unused slot on its way |
| ConstantTable.FoundIffThere | src/virtual_id.cpp:58-71 | a probe ends at an entry exactly if the table has the key, with its value |
| ConstantTable.SetOk | src/virtual_id.cpp:114-130 | filling in the slot of a probe updates the map at one key and keeps every other key reachable |
| ConstantTable.Constants.LowerOf | src/virtual_id.cpp:133-136 | returns the map's value of a constant, and any other key unchanged |
| ConstantTable.Constants.Set | src/virtual_id.cpp:105-131 | sets one key in both directions, and fails exactly for a new key in a table with 128 entries |
| ConstantTable.Constants.Init | src/virtual_id.cpp:606-614 | ends with the pairs set in order over the old table, and fails exactly if that has more than 128 keys |
| ConstantTable.RestartReplaces | src/virtual_id.cpp:606-614 | initialising again with the same constants replaces every lower-half value and adds no entry |
| ConstantTable.LowerOfUpper | src/virtual_id.cpp:133-141 | round trip: a lower-half constant goes to an upper-half constant that goes back to it |
| DatatypeGraph.Datatypes.Make | src/virtual_id.cpp:386-398 | a new datatype describes the caller's call, is made in the lower half from the real datatypes of what it was made from, and holds references to them; reference counts stay exact |
| DatatypeGraph.Datatypes.Release | src/virtual_id.cpp:407-427 | the recursion ends, drops exactly one reference, and changes nothing but counts of what stays |
| DatatypeGraph.Datatypes.ReleaseFreed | src/virtual_id.cpp:433-444 | afterwards only datatypes that a pending call uses still wait |
| DatatypeGraph.Datatypes.Free | src/virtual_id.cpp:446-456 | the application's reference is dropped, or waits exactly while a pending call uses the datatype; counts stay exact |
| DatatypeGraph.Datatypes.Complete | src/virtual_id.cpp:429-444 | after a pending call is removed, what only it kept alive is released |
| DatatypeGraph.RemoveLast | src/virtual_id.cpp:407-427 | when the last reference is dropped, no live datatype, pending call or application names the datatype |
| DatatypeGraph.LiveWhileNeeded | src/virtual_id.h:111-113 | a derived datatype is live exactly while the application has it, a pending call keeps it, or a live datatype was made from it |
| DatatypeGraph.PendingIsLive | src/virtual_id.cpp:429-431 | no pending call names a datatype that is gone |
| DatatypeGraph.PartsDone | src/virtual_id.cpp:497-511 | in creation order, what a datatype was made from comes before it |
| DatatypeGraph.Rebuild | src/virtual_id.cpp:558-604 | restart makes every live datatype again, each from parts that are already there, and each is the datatype that it was |
| PendingList.AddedOk | src/p2p_drain.cpp:1217-1246 | linking at the tail keeps the two-way links equal to the list with one more entry |
| PendingList.UnlinkOk | src/p2p_drain.cpp:1264-1275 | unlinking at any place keeps the two-way links equal to the list without that entry |
| PendingList.Pending.Add | src/p2p_drain.cpp:1217-1246 | the call goes to the end of the posting order with no later sends; the count of MPI_Issends stays exact |
| PendingList.Pending.Clear | src/p2p_drain.cpp:1248-1279 | exactly that entry leaves; the order of the others and the count stay |
| PendingList.Pending.Replace | src/p2p_drain.cpp:1281-1293 | the call changes in place and nothing else; the list, the log and the counts stay as they should exactly if the new call is no MPI_Issend, or replaces one with the right later_sends |
| PendingList.Pending.CountSend | src/p2p_drain.cpp:1295-1311 | later_sends of every pending MPI_Issend stays the number of sends since it was posted with its communicator, destination and tag, also on the path that skips the list; no other call changes |
| PendingList.Pending.InPostingOrder | src/p2p_drain.cpp:1313-1324 | returns the pending requests in posting order, which is the order of re-posting at restart |
| PendingList.Pending.UsesDatatype | src/p2p_drain.cpp:1351-1365 | true exactly if a pending call has the datatype |

## Left out

- Liveness under a fair scheduler: that a drain, a barrier or a retry loop ends; what is proved is that a step is enabled, that some continuation ends, and when a round decides to end.
- The drain variants with barriers (`drainInFlightP2p()`, `unblockPendingRecvs()`) and polling mode; the model has `drainWithoutBarriers()` in blocking mode.
- `P2pDrain` assumes that no pending MPI_Irecv matches the envelope of a dummy, since MPI would match that one first; and it does not say which message a wildcard receive takes.
- The Collective Clock model assumes what MPI demands: the members of a communicator make their collective calls on it in the same order, and MPI_Comm_create_group completes only after all members entered it.
- An MPI_Issend on a communicator that was freed (src/p2p_drain.cpp:895-911), and the wrap-around of ack tags at 32768.
- The C++ memory model beyond store buffers in the gate; the other lock-free reads (chunks of the virtual-ID table, counters) are atomic steps or left out.
- The formats of the coordinator's database, the network, DMTCP's own barriers, and ELF loading, trampolines and libc patching.
- Communicator, group and operation descriptors and their reconstruction; request and file handles beyond their slots.
- The Fortran handle tables, and the committed flag of datatypes.
- Address arithmetic beyond 64 bits: addresses and lengths in the arena are unbounded integers, and so are gids and sequence numbers.
- In `P2pRequests`, the gate keeps MPI_Test and MPI_Wait apart from the drain, as `LowerHalfGate` proves for threads that are in no blocking call; MPI_Testall, MPI_Waitany and others are made of these two.
- MPI errors of the calls on the MPI library (a failed MPI_Ibarrier or MPI_Test).
- PendingList.Pending.Add: the links are slots of the virtual-ID table instead of addresses of its entries, and the spin lock is left out.
- DatatypeGraph.Rebuild: takes the live datatypes in slot order as an argument; the sort is an insertion sort by creation number.
