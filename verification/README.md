# A verified model of the block transfer between a source and a destination volume

The plugin copies a Ceph volume from a source to a destination cluster. An iterator turns the
difference of two snapshots into numbered blocks. Read workers read the blocks, send workers
put them into batches and send them on streams, and the destination writes and acknowledges
them. Two semaphores bound the memory in use and the spread of the ids in flight, and a
drainer commits a file once all its blocks are acknowledged. This project models that transfer
in Dafny and proves what it is for: that the destination equals the source after a run without
an error, that nothing is committed before it is written, and that nothing is leaked or
released twice on any way out.

How the parts fit together:

- `Window`, `WindowSemaphore`, `Memory` and `MemSemaphore`: the two semaphores, as values with
  one function for each locked section, and as objects whose methods do the same in place.
- `Protocol`: the pipeline as a step system. Every locked section, channel operation, read,
  send and write is one atomic step, channels are bounded queues, streams are reliable and in
  order, and a run is any sequence of enabled steps, failures and cancellation included.
  `Resources`, `Invariant`, `Claims`, `ReaderSteps`, `SenderSteps`, `StreamSteps` and `Runs`
  carry its invariant.
- `Replication`: what the destination holds at every moment, and what a commit may rely on.
- `Stall`, `Termination`, `StallWitness` and `StallInstances`: every run without failures
  ends, and exactly which jobs can end with work left.
- `InOrder`, `Starvation` and `Success`: exactly when every job can succeed.
- `RbdIterator`, `RbdTiling`, `RbdReplication`, `RbdSync` and `BaseChoice`: the block device,
  from extents to equality, to the Done signal, and to the choice of a base.
- `SplitBlocks`, `FileIterator`, `FileIds`, `FileReplication` and `LongExtents`: the file
  system, from the diffs of many files to the safety of every commit.
- `CommitDrainer` and `WakeUp`: the drainer, alone and against the window.
- `FileCache` (modules `FileCaches` and `HandleSafety`), `ReaderHandles`, `Guards` and
  `CommitDurability`: reference-counted handles at both ends, and what the pipeline
  guarantees them.
- `Destination`, `Batching` and `Wiring`: the two servers, one send worker with its batches,
  and both together against the write steps of the pipeline.
- `Volid` and `Snapshots`: the CSI identifier and the rotation of the snapshot labels.

Hypotheses, stated in the contracts where they are used:

- Request ids are natural numbers; `Window.FitsIsTheWrappingTest` ties the window test to the
  unsigned arithmetic of the source for ids below 2^64.
- The source does not change during a run, and the diff is complete: the source code skips a
  diff that cannot be opened or read, and then nothing can be said about that file.
- A file at the destination is no longer than its source, because shrinking is left to rsync.
- The blocks of one path carry one size, and the blocks of a diff lie within the file.
- Creation times of snapshots are distinct and grow.

Where the code does less than its comments say, the model follows the code. A concrete input
shows the failure, and the exact condition is proved:

- splitting oversized blocks in place: `SplitKeepsBytesIff` and `DiffKeepsBytesIff`, and end
  to end `LongExtentLosesAByte` and `FileReplicatedIff`;
- an incremental sync from a base that is not what the destination holds:
  `OlderBaseLosesAnUpdate` and `SyncReplicatesIff`, with `ChooseBase` for how it comes about;
- freedom from deadlock: `FileRunStalls`, `DeviceRunStalls` and `JobStallsIff`;
- that a run can succeed at all: `NoRunSucceeds` and `EveryJobCanSucceedIff`;
- releasing an id below the window: `StaleReleaseMarksYoungerId` and
  `ReleaseRefinesSetInsertion`;
- cancelling a waiter for memory: `CancelTightIff`;
- the guard reference of a sync: `SecondCommitClosesDuringSync` and `HandlesAreSafeIff`;
- the 16-bit counters of the identifier decoder: `LongStringIsAccepted` and `DecomposeCSIID`.

## Model

| member | source | states |
|---|---|---|
| `Window.FitsIsTheWrappingTest` | internal/worker/pipeline/semaphore.go:123 | the natural-number test for an id in the window is the source's unsigned subtraction, for bases and ids below 2^64 |
| `Window.AdvanceKeepsReleased` | internal/worker/pipeline/semaphore.go:162-165 | the advance loop changes which slots are marked and the base, but not which ids count as released |
| `Window.ReleaseAddsOccupant` | internal/worker/pipeline/semaphore.go:150-165 | a release adds to the released ids exactly the one id of the current window that shares the slot, and nothing when that one is released already |
| `Window.ReleaseRefinesSetInsertion` | internal/worker/pipeline/semaphore.go:150-165 | releasing an id is inserting it into the set of released ids if and only if the id lies in the window, or lies below it and its slot is marked already |
| `Window.StaleReleaseMarksYoungerId` | internal/worker/pipeline/semaphore.go:156-161 | a release of an id below the base marks a younger id as released: an input for which the set reading fails |
| `Window.BaseIsLeastUnreleased` | internal/worker/pipeline/semaphore.go:177-181 | the base is the least id that is not released, so every id below it is released and the base itself is not |
| `Window.SlotMarkedIffOccupantReleased` | internal/worker/pipeline/semaphore.go:156-165 | slot i is marked exactly when the one id of the window congruent to i is released |
| `Window.InsertAt` | internal/worker/pipeline/semaphore.go:190-198 | a scan from the front finds the place of a new waiter |
| `Window.InsertKeepsOrder` | internal/worker/pipeline/semaphore.go:190-198 | the waiters stay sorted by id, and every waiter stays itself |
| `Window.DropKeepsOrder` | internal/worker/pipeline/semaphore.go:200-207 | removing a waiter keeps the others in order |
| `Window.InFlightBounded` | internal/worker/pipeline/semaphore.go:111-119 | the count of ids in flight lies between 0 and the limit |
| `Window.AcquireRefines` | internal/worker/pipeline/semaphore.go:121-131 | an acquire adds the id to those in flight if it fits the window, and to the waiters otherwise |
| `Window.ReleaseRefines` | internal/worker/pipeline/semaphore.go:150-173 | a release moves the id from those in flight to the released ones, wakes exactly the waiters that now fit, and leaves no waiter that fits asleep |
| `Window.CancelRefines` | internal/worker/pipeline/semaphore.go:137-146 | a cancelled waiter leaves the queue and nothing else changes; still no waiter that fits is asleep |
| `WindowSemaphores.WindowSemaphore.constructor` | internal/worker/pipeline/semaphore.go:111-119 | a new semaphore stands for two empty sets and has room for twice the window |
| `WindowSemaphores.WindowSemaphore.Acquire` | internal/worker/pipeline/semaphore.go:121-131 | the locked section does what the value model says: granted at once exactly when the id fits |
| `WindowSemaphores.WindowSemaphore.InsertWaiter` | internal/worker/pipeline/semaphore.go:190-198 | the loop inserts at the sorted place |
| `WindowSemaphores.WindowSemaphore.Cancel` | internal/worker/pipeline/semaphore.go:136-146 | a grant that came first wins the race; otherwise the waiter is removed |
| `WindowSemaphores.WindowSemaphore.RemoveWaiter` | internal/worker/pipeline/semaphore.go:200-207 | the loop removes the waiter with the ticket and no other |
| `WindowSemaphores.WindowSemaphore.Release` | internal/worker/pipeline/semaphore.go:150-173 | the method on the ring array does what the value model says, and wakes exactly the waiters that leave the queue |
| `WindowSemaphores.WindowSemaphore.AdvanceBase` | internal/worker/pipeline/semaphore.go:162-165 | the loop over the array clears marks and moves the base as the value model does, and ends |
| `WindowSemaphores.WindowSemaphore.WakeWaiters` | internal/worker/pipeline/semaphore.go:209-219 | the loop lets through the front waiters that fit and stops at the first that does not |
| `WindowSemaphores.WindowSemaphore.IsReleased` | internal/worker/pipeline/semaphore.go:177-181 | the answer is yes exactly when all the ids up to this one are released |
| `Memory.AcquireReleaseTight` | internal/worker/pipeline/semaphore.go:42-92 | the use never exceeds the capacity, and neither an acquire nor a release leaves a front waiter that fits |
| `Memory.CancelTightIff` | internal/worker/pipeline/semaphore.go:58-68 | a cancel leaves a front waiter that fits exactly when it removes the front and the next one fits: the source wakes nobody there |
| `Memory.DoKeepsFifo` | internal/worker/pipeline/semaphore.go:42-92 | every operation keeps the order of arrival among those let through and those still waiting |
| `Memory.NoOvertaking` | internal/worker/pipeline/semaphore.go:42-92 | in every history: use within the capacity, and when a later arrival has been let through, an earlier one was let through before it or has given up |
| `Memory.CancelFreeRunsAreTight` | internal/worker/pipeline/semaphore.go:42-92 | in every history without cancels the front waiter does not fit |
| `MemSemaphores.MemSemaphore.Acquire` | internal/worker/pipeline/semaphore.go:42-57 | granted at once exactly when it fits and nobody waits; otherwise queued last |
| `MemSemaphores.MemSemaphore.Cancel` | internal/worker/pipeline/semaphore.go:58-68 | a grant that came first is not lost; otherwise the waiter leaves |
| `MemSemaphores.MemSemaphore.Release` | internal/worker/pipeline/semaphore.go:71-76 | gives back the bytes and wakes the front of the queue as far as it fits |
| `MemSemaphores.MemSemaphore.WakeWaiters` | internal/worker/pipeline/semaphore.go:78-92 | the loop lets through a prefix of the queue, the longest that fits one after the other |
| `Configuration.DefaultsFillUnset` | internal/worker/pipeline/config.go:50-75 | a parameter that is set is kept, an unset one gets its default, and the channel length follows the number of readers; doing it again changes nothing |
| `Configuration.ValidatedBounds` | internal/worker/pipeline/config.go:77-103 | the bounds that are validated, in numbers |
| `Configuration.ShippedConfigs` | internal/worker/rbd/source.go:177 | the two shipped configurations, in numbers |
| `Configuration.ShippedConfigsAreSound` | internal/worker/pipeline/config.go:50-103 | both shipped configurations pass validation, have memory for every batch and reader at once, and leave 4 MiB of a message beside the largest batch |
| `ReaderSteps.ReadKeepsInv` | internal/worker/pipeline/stage_read.go:53-165 | every step of a read worker, on every exit path, keeps the protocol invariant: places of the chunks, counts, and what each chunk holds of the two semaphores |
| `ReaderSteps.ReadIsAct` | internal/worker/pipeline/stage_read.go:98-163 | which semaphore each step of a read worker uses, and in which order |
| `ReaderSteps.FeedKeepsInv` | internal/worker/pipeline/pipeline.go:108-128 | so do the steps of the feeder |
| `SenderSteps.SendKeepsInv` | internal/worker/pipeline/stage_send_data.go:130-220 | so does every step of a send worker: taking, flushing, sending, failing and giving up |
| `StreamSteps.WireKeepsInv` | internal/worker/pipeline/stage_send_data.go:92-128 | so does every step of a destination stream and of an ack receiver |
| `Runs.RunKeepsInv` | internal/worker/pipeline/pipeline.go:66-106 | the invariant holds in every state of every run, errors and cancellation included |
| `Runs.MemoryIsConserved` | internal/worker/pipeline/held.go:29-48 | in every reachable state the memory in use is the sum over the chunks that hold some, all of them at readers, in the read channel, at a sender or just being freed, and the ids in flight are counted and bounded |
| `Runs.NothingIsReleasedTwice` | internal/worker/pipeline/held.go:29-48 | no step releases memory or a window slot that is not held at that moment, nor an id that was released before |
| `Runs.SuccessfulRunIsComplete` | internal/worker/pipeline/pipeline.go:66-106 | a run without an error has every block acknowledged, holds nothing, and has moved the base to the number of blocks |
| `Replication.PayloadIsSource` | internal/worker/pipeline/stage_read.go:98-163 | what goes over the wire for a block is the source's bytes: reads are not cut short, and a run of zeros stands for zeros |
| `Replication.DestinationIsMixed` | internal/worker/rbd/destination.go:235-282 | in every state of every interleaving the destination is the source on the blocks written so far and its first contents elsewhere |
| `Replication.SuccessfulRunReplicates` | internal/worker/pipeline/pipeline.go:66-106 | after every run without an error, a file whose differences the blocks account for equals the source's |
| `Replication.SuccessfulRunLeaves` | internal/worker/pipeline/pipeline.go:66-106 | what every run without an error leaves of a file: the source's bytes on every block, the first contents elsewhere, and the length |
| `Replication.SuccessfulRunReplicatesIff` | internal/worker/pipeline/pipeline.go:66-106 | a run without an error makes a file equal to the source's if and only if the blocks account for its differences |
| `Replication.CommittedIdsAreAcked` | internal/worker/cephfs/commit_drainer.go:80-129 | in every run, once a file is committed each id up to its last block is acknowledged, or given up, and then the run has failed |
| `Replication.CommittedFileIsSource` | internal/worker/cephfs/commit_drainer.go:80-183 | in a run that has not failed, a committed file whose blocks lie at or below its boundary equals the source's from then on |
| `Replication.AbandonmentIsReported` | internal/worker/pipeline/stage_send_data.go:149-219 | a run in which a chunk was given up never returns without an error, however it goes on |
| `Stall.StallShape` | internal/worker/pipeline/stage_send_data.go:180-219 | when nothing can move, the chunk at the window base is in the unsent batch of a waiting sender or its reader is queued for memory |
| `Stall.StallIsAnUnsentBatch` | internal/worker/pipeline/stage_send_data.go:180-219 | with plentiful memory and full reads it is in an unsent batch and nobody waits for memory |
| `Stall.NoStallWithinTheWindow` | internal/worker/pipeline/stage_send_data.go:180-219 | with blocks that fit the window, a run that has come to rest without having been cancelled has succeeded |
| `Stall.RestIsSuccess` | internal/worker/pipeline/pipeline.go:66-106 | when nothing can move, all ids are released and nothing has failed, every worker has returned without an error |
| `Termination.ProgressDecreases` | internal/worker/pipeline/pipeline.go:66-128 | every step that is not a failure decreases one measure of the state |
| `Termination.FailureFreeRunsEnd` | internal/worker/pipeline/pipeline.go:66-128 | a run without failures has at most 41 steps for each block and a few for each worker |
| `Termination.RestIsReached` | internal/worker/pipeline/pipeline.go:66-128 | every run that has not been cancelled can be carried on without failures until nothing can move |
| `Termination.SuccessIsReached` | internal/worker/pipeline/pipeline.go:66-128 | with plentiful memory, full reads and blocks that fit the window, it can be carried on to success, and only to success if nothing fails |
| `Success.SuccessfulRunExists` | internal/worker/pipeline/pipeline.go:66-128 | every job that describes its source has a run without an error, if it fits the window or a batch cannot hold the whole window |
| `InOrder.AnySizeSucceeds` | internal/worker/pipeline/stage_send_data.go:180-219 | a run without an error for jobs of any size: chunks taken by one reader and one sender keep their order, and the batch that holds the base is sent before it fills the window |
| `Starvation.NoRunSucceeds` | internal/worker/pipeline/stage_send_data.go:180-219 | if a batch may hold the whole window and the payload of the job does not fill one, no run of a job beyond the window returns without an error |
| `Success.EveryJobCanSucceedIff` | internal/worker/pipeline/config.go:77-103 | for every configuration with plentiful memory: every job can succeed if and only if the batch count limit is below twice the window, or the byte limit is not positive |
| `Success.ShippedJobsCanSucceed` | internal/worker/pipeline/config.go:50-75 | with both shipped configurations every job can succeed, whatever its size |
| `StallWitness.StallIsReachable` | internal/worker/pipeline/stage_send_data.go:180-219 | every job with more blocks than twice the window has a run that stalls, whatever its blocks are, with plentiful memory and no read cut short |
| `StallWitness.JobStallsIff` | internal/worker/pipeline/stage_send_data.go:180-219 | each job with plentiful memory and full reads has a run that stalls if and only if its blocks outnumber twice the window |
| `StallWitness.StallFreeIff` | internal/worker/pipeline/stage_send_data.go:180-219 | for every configuration with plentiful memory and every number of blocks: either no job of that many blocks stalls, or every one can, the second exactly beyond twice the window |
| `StallWitness.ShippedConfigsStallIff` | internal/worker/pipeline/config.go:50-103 | for the two shipped configurations the bounds are 2048 and 512 blocks |
| `StallInstances.FileRunsStallIff` | internal/worker/cephfs/source.go:876-932 | a run over the blocks of the file iterator can stall if and only if they outnumber twice the window |
| `StallInstances.FileRunStalls` | internal/worker/cephfs/source.go:876-932 | a run of the shipped file-system source that stalls, for every number of blocks over 2048 |
| `StallInstances.DeviceRunsStallIff` | internal/worker/rbd/source.go:177-193 | the same for the blocks of a full or an incremental diff of a device |
| `StallInstances.DeviceRunStalls` | internal/worker/rbd/source.go:177-193 | a run of the shipped block-device source that stalls, with an incremental diff of any number of blocks over 512 |
| `Batching.DataSender.Release` | internal/worker/pipeline/held.go:29-38 | gives back memory and window slot as far as held and clears both, so that a second call gives back nothing |
| `Batching.DataSender.ReleaseMemOnly` | internal/worker/pipeline/held.go:43-48 | gives back the memory only |
| `Batching.DataSender.Flush` | internal/worker/pipeline/stage_send_data.go:149-178 | a batch that is sent leaves its memory free and its slots to the acks; one that is refused leaves both free |
| `Batching.DataSender.Accept` | internal/worker/pipeline/stage_send_data.go:180-219 | one turn of the worker: the batch goes out first exactly when it has the maximal count or the chunk's bytes would bring it to the maximal size; every request has at most the maximal count of blocks, and less than the maximal bytes or no more than one chunk |
| `Batching.DataSender.Run` | internal/worker/pipeline/stage_send_data.go:130-220 | the blocks sent are those of the chunks received, in order, with the chunk's id, path, size, offset, length, zero flag and bytes each; no request is empty or over the limits; on every way out the memory of all and the slots of the unsent chunks are given back, and nothing else |
| `Wiring.ReadBlock` | internal/worker/pipeline/stage_read.go:76-163 | what a read worker makes of a block: a run of zeros if it is marked so or reads as zeros, else the bytes read, cut short at the end of the file, with memory held only for bytes |
| `Wiring.ReadJobBlock` | internal/worker/pipeline/stage_read.go:98-163 | for the block of a job this is what goes over the wire in the pipeline model |
| `Wiring.SentIsWire` | internal/worker/pipeline/stage_send_data.go:190-205 | a block with the fields of such a chunk is the block of the wire for its id |
| `Wiring.PutAllIsStoreAll` | internal/worker/cephfs/destination.go:221-293 | blocks of the wire put to their files one after the other are the write steps of their ids |
| `Wiring.DeviceIsStoreAll` | internal/worker/rbd/destination.go:235-282 | and so are blocks written to a device that is large enough |
| `Wiring.SendToFiles` | internal/worker/cephfs/destination.go:92-139 | a send worker and the file server together: without an error the destination is what the write steps of the chunks' ids make of it, and the answers are these ids in order |
| `Wiring.SendToDevice` | internal/worker/rbd/destination.go:85-150 | the same with the device server |
| `RbdIterator.RbdIterAdapter.constructor` | internal/worker/rbd/source.go:513-534 | a new adapter will emit the blocks of its diff |
| `RbdIterator.RbdIterAdapter.Next` | internal/worker/rbd/source.go:536-544 | the adapter delivers the specified blocks one by one with consecutive ids, and ends |
| `RbdIterator.RbdIterAdapter.LoadNext` | internal/worker/rbd/source.go:546-604 | loading an extent, a gap or the tail changes nothing of what is still to be emitted |
| `RbdIterator.RbdIterAdapter.EmitFromRemainder` | internal/worker/rbd/source.go:606-629 | the block emitted starts at the remainder's offset, has the smaller of a chunk and what is left, the remainder's zero flag, the device's path and size and the next id |
| `RbdIterator.Feed` | internal/worker/pipeline/pipeline.go:108-128 | draining the adapter yields, with the ids 0, 1, 2 and so on, a block of the device for each piece: its offset, its length, its zero flag and the total size |
| `RbdIterator.ChopAt` | internal/worker/rbd/source.go:606-629 | the pieces of a range: each has a whole chunk, but the last one what is left |
| `RbdReplication.FeedDevice` | internal/worker/rbd/source.go:176-193 | the blocks that the adapter emits are the blocks of the job that the replication results are about |
| `RbdTiling.FullDiffTiles` | internal/worker/rbd/source.go:546-604 | for extents in range, in any order, the full-diff blocks are contiguous, not empty, and cover the device exactly |
| `RbdTiling.ChunkLengths` | internal/worker/rbd/source.go:606-629 | no block is longer than a chunk |
| `RbdTiling.BlocksAreDisjoint` | internal/worker/rbd/source.go:546-629 | in both modes and for any extents the blocks are disjoint and ascending |
| `RbdTiling.DataBytesExactly` | internal/worker/rbd/source.go:546-629 | for any extents a byte is emitted as data exactly when it is in an extent and no earlier one ends beyond it |
| `RbdTiling.SortedDataIsUnion` | internal/worker/rbd/source.go:546-629 | for sorted extents, overlaps allowed, the data blocks cover exactly their union |
| `RbdTiling.UnsortedExtentIsLost` | internal/worker/rbd/source.go:546-604 | out of order an extent can be lost |
| `RbdReplication.FullDiffReplicates` | internal/worker/rbd/source.go:82-239 | after a full diff without an error the device, which may be larger, holds the image, whatever it held before, in every interleaving |
| `RbdReplication.IncrementalDiffReplicates` | internal/worker/rbd/source.go:82-239 | after an incremental one it does when image and device agreed outside the extents |
| `RbdReplication.IncrementalReplicatesIff` | internal/worker/rbd/source.go:82-193 | and only then: if and only if they agreed outside the extents before |
| `RbdReplication.DoneFollowsEveryAck` | internal/worker/rbd/source.go:195-213 | after a run without an error every block is acknowledged and the last id is released |
| `RbdSync.DoneIsDurable` | internal/worker/rbd/source.go:176-239 | in every run of a whole sync in which Done has been signalled, the pipeline returned no error, every block is acknowledged, and no write to the device is left without a sync after it |
| `RbdSync.DoneFollowsCommit` | internal/worker/rbd/source.go:190-239 | when Done has been signalled for any block, the run has the pipeline's return, the commit request, the sync at the destination and its answer, in this order and each without an error |
| `RbdSync.FailureIsFinal` | internal/worker/rbd/source.go:190-239 | a run with an error of the pipeline, of the request, of the sync or of the answer, or with a wait given up, has failed, however it goes on |
| `RbdSync.NothingToCommit` | internal/worker/rbd/source.go:199-207 | a sync without a block requests no commit |
| `RbdSync.WritesPrecedeReturn` | internal/worker/rbd/destination.go:165-233 | every write comes before the pipeline's return without an error, and so before the sync that the commit asks for |
| `RbdSync.DoneFullDiffIsReplicated` | internal/worker/rbd/source.go:176-239 | for a full diff Done means that the device holds the image, durably |
| `RbdSync.DoneIncrementalIff` | internal/worker/rbd/source.go:176-239 | for an incremental one if and only if image and device agreed outside the extents |
| `RbdSync.StepKeepsInv` | internal/worker/rbd/destination.go:165-233 | every step of source, destination and commit server keeps it that nothing is unsynced once the commit is answered |
| `RbdSync.WaitIsOver` | internal/worker/rbd/source.go:204-213 | the wait for the last ack is over when it begins |
| `BaseChoice.SyncReplicatesIff` | internal/worker/rbd/source.go:351-482 | over the images of the snapshots: a sync without an error puts the target on the device if and only if the base and what the device holds agree outside the extents |
| `BaseChoice.LastSyncedIsASafeBase` | internal/worker/rbd/source.go:351-482 | so it always does when the base is the snapshot synced last |
| `BaseChoice.OlderBaseLosesAnUpdate` | internal/mover/ceph/snapshot_method.go:388-403 | a run that returns no error and leaves the device without the third image, with the first of two previous snapshots as its base |
| `SplitBlocks.SplitLargeBlocks` | internal/worker/cephfs/block_iterator.go:37-69 | the loop on the array it shares with its input computes `Result` |
| `SplitBlocks.SafeSplitIsExact` | internal/worker/cephfs/block_iterator.go:37-69 | the result is the plain split when no oversized block precedes another |
| `SplitBlocks.SplitCovers` | internal/worker/cephfs/block_iterator.go:37-69 | the plain split covers the same bytes |
| `SplitBlocks.PieceAt` | internal/worker/cephfs/block_iterator.go:37-69 | the pieces of a block: a whole chunk each, but the last one what is left |
| `SplitBlocks.SplitKeepsBytesIff` | internal/worker/cephfs/block_iterator.go:37-69 | on disjoint blocks the result covers the same bytes if and only if no oversized block precedes another one |
| `SplitBlocks.LostByte` | internal/worker/cephfs/block_iterator.go:50-51 | otherwise a byte of the last block is lost |
| `SplitBlocks.SingleBlockIsSafe` | internal/worker/cephfs/block_iterator.go:252-255 | the small-file caller always meets the condition |
| `FileIterator.CephFSBlockIterator.constructor` | internal/worker/cephfs/block_iterator.go:173-186 | a new iterator will deliver the blocks and boundaries of its files |
| `FileIterator.CephFSBlockIterator.Next` | internal/worker/cephfs/block_iterator.go:190-268 | delivers what is coming one by one with consecutive ids, to the end or to the file at which the context is done, and what will be posted in the end never changes on the way |
| `FileIterator.CephFSBlockIterator.FillBuffer` | internal/worker/cephfs/block_iterator.go:210-219 | reading a batch changes nothing of what is still to come |
| `FileIterator.CephFSBlockIterator.OpenFile` | internal/worker/cephfs/block_iterator.go:232-267 | the next file starts with all its blocks: none for an empty one, synthetic ones for a small one, none if it cannot be opened |
| `FileIterator.CephFSBlockIterator.EmitBoundary` | internal/worker/cephfs/block_iterator.go:276-287 | the boundary is sent if there is room and kept back otherwise |
| `FileIterator.CephFSBlockIterator.DrainPendingBoundaries` | internal/worker/cephfs/block_iterator.go:291-300 | the oldest kept boundaries are handed over as far as there is room |
| `FileIterator.CephFSBlockIterator.FlushAllBoundaries` | internal/worker/cephfs/block_iterator.go:306-319 | those that were kept are handed over in order, all of them or as many as the context allows |
| `FileIterator.CephFSBlockIterator.Close` | internal/worker/cephfs/block_iterator.go:366-376 | the boundary of an open file joins the others unless the pipeline failed, and what was kept is handed over as far as the context allows |
| `FileIterator.Iterate` | internal/worker/cephfs/block_iterator.go:190-376 | a whole iteration for every behaviour of the channel and the context: each block has the path, offset, length, size and zero flag of the specified one and its place as its id, in the specified order; they are the first blocks and no boundary comes twice, and all of them unless the context is done |
| `FileIterator.DeliveredIsRest` | internal/worker/cephfs/block_iterator.go:190-268 | the blocks delivered are the first of all the blocks, and all of them when the context is never done |
| `FileIterator.BlocksOfFile` | internal/worker/cephfs/block_iterator.go:210-267 | which blocks a file has: none if it is empty, the chunks of the whole file if it is fed by the channel and its size is from 1 to the threshold, none if it cannot be opened, else the splits of its diff's batches |
| `FileIterator.DeliveredUntilDone` | internal/worker/cephfs/block_iterator.go:190-268 | if the context is done at a file, all the blocks of the files before it are delivered and none of it or after it |
| `FileIterator.PostedIsDue` | internal/worker/cephfs/block_iterator.go:270-319 | sent and kept boundaries together are those that are due, none lost or repeated, whatever room the channel has; only files never reached are missing |
| `FileIds.BoundariesMayOvertake` | internal/worker/cephfs/block_iterator.go:276-319 | an iteration over any two files with blocks whose boundaries arrive in the opposite order |
| `FileIds.IdsAreConsecutive` | internal/worker/cephfs/block_iterator.go:190-268 | each file's blocks take one contiguous range of ids, and the ranges follow each other without a gap |
| `FileIds.RangeIsThePath` | internal/worker/cephfs/block_iterator.go:190-268 | with different paths, the range holds the blocks of that path and no others |
| `FileIds.OneBoundaryPerFile` | internal/worker/cephfs/block_iterator.go:221-225 | exactly one boundary for each named file with a block, none for others, with the file's last id |
| `FileIds.EveryBoundaryHasAFile` | internal/worker/cephfs/block_iterator.go:221-225 | every boundary belongs to such a file |
| `FileIds.BoundaryIsLastBlock` | internal/worker/cephfs/block_iterator.go:276-287 | the block with a boundary's id has its path and its size, and no later block has its path |
| `FileIds.BlockOfFile` | internal/worker/cephfs/block_iterator.go:190-268 | the j-th block of a file is delivered with the file's path and size and that block's offset and length, at its place in the range of the file |
| `FileReplication.FileJobIsFaithful` | internal/worker/cephfs/block_iterator.go:190-268 | every block lies in its file, is no longer than a chunk and carries the file's size |
| `FileReplication.FileIsReplicated` | internal/worker/cephfs/source.go:834-932 | a file is replicated by every run without an error: a small one unconditionally, another one if its batches split safely and both sides agree outside its diff |
| `FileReplication.FeedFiles` | internal/worker/cephfs/source.go:876-932 | the blocks that the iterator delivers are the blocks of the job that the replication results are about |
| `FileReplication.SmallFileIsWhole` | internal/worker/cephfs/block_iterator.go:243-259 | the blocks of a channel-fed file of 1 byte to the threshold cover every byte of it |
| `FileReplication.SmallFileIsReplicated` | internal/worker/cephfs/block_iterator.go:243-259 | so such a file equals the source's after every run without an error, whatever the destination held within that length |
| `FileReplication.FileReplicatedIff` | internal/worker/cephfs/source.go:834-932 | a run without an error leaves a file equal to the source's if and only if it was not longer, has a block if it was shorter, and agreed outside the blocks of the file |
| `LongExtents.DiffKeepsBytesIff` | internal/worker/cephfs/block_iterator.go:210-219 | the blocks of a diff of disjoint extents in any number of batches cover the same bytes if and only if no batch has an extent over 16 MiB before another one |
| `LongExtents.SomeByteIsNeverWritten` | internal/worker/cephfs/block_iterator.go:37-69 | with an extent over 16 MiB before another one in some batch of a diff, some byte under the extents is after every run without an error what it was before |
| `LongExtents.LongExtentLosesAByte` | internal/worker/cephfs/block_iterator.go:37-69 | a job of the shipped source and a run of it without an error that leaves the file different |
| `FileReplication.CommitIsSafe` | internal/worker/cephfs/commit_drainer.go:50-183 | when a boundary of the iterator is committed in a run that has not failed, the committed file equals the source's, already before the run is over |
| `CommitDurability.CommittedFileIsDurable` | internal/worker/cephfs/destination.go:164-198 | pipeline and handles together: once the commit of a boundary is through and nothing has failed, the file equals the source's and every write to it has been synced |
| `CommitDurability.WritesAreSynced` | internal/worker/cephfs/destination.go:164-198 | and in the steps of its handles every write is followed by the begin of a sync and by its end without an error |
| `CommitDurability.StepKeepsInv` | internal/worker/cephfs/destination.go:92-293 | every step of pipeline, streams and commit keeps it that no stream opens or writes a file whose commit has started |
| `CommitDrainer.Drainer.SendCommitBatch` | internal/worker/cephfs/commit_drainer.go:205-218 | a batch counts as committed only after its answer; either half may fail |
| `CommitDrainer.Drainer.NotifyCommitted` | internal/worker/cephfs/commit_drainer.go:188-203 | paths are passed on in order, only after the request with them was answered |
| `CommitDrainer.Drainer.DrainQualified` | internal/worker/cephfs/commit_drainer.go:80-129 | every file it commits has its last id more than the window and one behind the current id and was found released; the head of the rest is nearer than that or was not released |
| `CommitDrainer.Drainer.Await` | internal/worker/cephfs/commit_drainer.go:146-153 | returns without an error only when the id was found released, and is left waiting only when no signal is to come and the id was not released at the last one |
| `CommitDrainer.Drainer.FlushAll` | internal/worker/cephfs/commit_drainer.go:133-183 | commits everything that is left, in order |
| `CommitDrainer.Drainer.Run` | internal/worker/cephfs/commit_drainer.go:50-75 | on success the batches put together are the boundaries in order of receipt, 1 to 1000 in each, all released, answered and passed on; a failed run has committed a prefix, and one that never ends waits for a file that is not released |
| `CommitDrainer.EveryFileIsCommittedOnce` | internal/worker/cephfs/commit_drainer.go:50-183 | over the boundaries of an iteration in any order, every named file with a block is committed exactly once |
| `CommitDrainer.NoFileIsCommittedTwice` | internal/worker/cephfs/commit_drainer.go:50-183 | in every run, also one that fails, at most one commit is sent for a path |
| `CommitDrainer.IterateAndDrain` | internal/worker/cephfs/source.go:834-932 | iterator and drainer together: at most one commit for a path however far they come, and on success exactly one for each file with a block |
| `WakeUp.NoLostWakeUp` | internal/worker/cephfs/commit_drainer.go:146-153 | whenever the drainer is blocked on the empty release channel, nothing was released since its last check, and its id is not released |
| `WakeUp.PassedIsReleased` | internal/worker/cephfs/commit_drainer.go:146-153 | the drainer goes past an id only when it is released |
| `WakeUp.WakeUpsAreBounded` | internal/worker/pipeline/semaphore.go:150-173 | the drainer is woken at most once for each release |
| `WakeUp.FlushComesThrough` | internal/worker/cephfs/commit_drainer.go:133-183 | once all ids are released the drainer can always go on and is through after as many steps as files are left, and one more if it was blocked |
| `FileCaches.FileCache.constructor` | internal/worker/cephfs/cephfs_reader.go:66-74 | a new cache has no open file |
| `FileCaches.FileCache.Acquire` | internal/worker/cephfs/cephfs_reader.go:96-158 | only the first reference opens, creates and extends the file; a failed one takes no reference and leaves the disk as it was or with the file created empty; other paths are untouched |
| `FileCaches.FileCache.Release` | internal/worker/cephfs/cephfs_reader.go:162-179 | one reference less; the last one closes the file; an unknown path is ignored |
| `FileCaches.FileCache.SyncAndRelease` | internal/worker/cephfs/cephfs_reader.go:183-209 | without interference exactly one reference is given back, also when the sync fails |
| `HandleSafety.NoCloseDuringSync` | internal/worker/cephfs/cephfs_reader.go:183-209 | in every interleaving with at most one commit of the path, no handle is closed while a sync on it runs, and none twice |
| `HandleSafety.EveryHandleIsClosed` | internal/worker/cephfs/destination.go:97-111 | when all are through, every handle opened has been closed exactly once |
| `HandleSafety.HandlesAreSafeIff` | internal/worker/cephfs/destination.go:181-188 | no handle is ever closed under a sync if and only if at most one commit of the path is sent |
| `HandleSafety.SecondCommitClosesDuringSync` | internal/worker/cephfs/destination.go:181-188 | the run that shows it for two commits |
| `HandleSafety.CommitIsDurable` | internal/worker/cephfs/destination.go:164-198 | when a commit is through and no sync failed, every write to the file has been synced; and no handle is left closed with an unsynced write |
| `HandleSafety.CommittedWritesAreSynced` | internal/worker/cephfs/destination.go:164-198 | in the steps of the run: every write is then followed by the begin of a sync and by its end without an error |
| `HandleSafety.WritesGoToAnOpenHandle` | internal/worker/cephfs/destination.go:221-293 | a stream writes only to an open handle |
| `ReaderHandles.ReadsUseAnOpenHandle` | internal/worker/cephfs/cephfs_reader.go:254-275 | in every interleaving the count is one for the mark plus one for each reader not yet balanced, and nobody reads from a closed handle |
| `ReaderHandles.CloseLeavesNothingOpen` | internal/worker/cephfs/cephfs_reader.go:279-284 | after the close every handle of the path has been closed exactly once |
| `ReaderHandles.NoReadOfAReleasedId` | internal/worker/pipeline/stage_read.go:53-165 | in every run no read worker is busy with a released id, in any phase |
| `Guards.CloseFindsNoReader` | internal/worker/cephfs/commit_drainer.go:103-112 | once the last id of a boundary is released, every block of its file is through and no reader is busy with one, then and however the run goes on: the close at the source finds no read |
| `Guards.WritesAreBeyondCommits` | internal/worker/cephfs/commit_drainer.go:80-129 | a stream can write only blocks beyond every committed boundary |
| `Guards.NoWriteAfterCommit` | internal/worker/cephfs/destination.go:221-293 | after the commit of a file no stream opens or writes it: what the handle protocol at the destination relies on |
| `ReaderHandles.CephFSReader.ReadAt` | internal/worker/cephfs/cephfs_reader.go:254-275 | returns the file's bytes, cut short at its end, and leaves exactly one reference for the path, also when the read itself fails |
| `ReaderHandles.CephFSReader.CloseFile` | internal/worker/cephfs/cephfs_reader.go:279-284 | closes the path and no other |
| `Destination.IsAllZero` | internal/worker/common/util.go:22-29 | yes exactly when every byte is zero |
| `Destination.WriteZeros` | internal/worker/common/util.go:34-45 | zeros in pieces of at most 1 MiB are zeros at once, and nothing outside is touched even if it fails |
| `Destination.CollectRequestIDs` | internal/worker/rbd/destination.go:155-163 | the ids of all blocks in order |
| `Destination.WriteDeviceBlocks` | internal/worker/rbd/destination.go:235-282 | the blocks written one after the other into the device; a failure leaves all other bytes alone |
| `Destination.WriteDevice` | internal/worker/rbd/destination.go:85-150 | one answer, not empty, for each request with a block that is done, and together the ids of all their blocks in order; an answer goes out only when all the blocks of its request and of those before it are in the device; a stream that ends without an error has synced them |
| `Destination.WriteFileBlocks` | internal/worker/cephfs/destination.go:221-293 | the blocks written to their files, each file acquired once and extended to its size first |
| `Destination.WriteFiles` | internal/worker/cephfs/destination.go:92-139 | the same answers for files; however the stream ends it gives back the references it took, and it ends without an error only when every sync succeeded |
| `Destination.AcknowledgedOnce` | internal/worker/rbd/destination.go:133-150 | so each block of the requests done is acknowledged exactly once when their ids are different |
| `Destination.CommitFiles` | internal/worker/cephfs/destination.go:164-198 | every entry of a commit gives back one reference to its path, and the answer goes out only when all their syncs succeeded |
| `Destination.FileServerStores` | internal/worker/cephfs/destination.go:221-293 | one block of the file server is one write step of the pipeline model |
| `Destination.DeviceServerStores` | internal/worker/rbd/destination.go:235-282 | one block of the device server is one write step of the pipeline model |
| `Volid.ComposeCSIID` | internal/ceph/volid/volid.go:78-109 | the two errors exactly when they are due, and a length of 64 plus the cluster id, at most 128 |
| `Volid.DigitWritten` | internal/ceph/volid/volid.go:97-103 | the sixteen digits, in lower case |
| `Volid.DigitRead` | internal/ceph/volid/volid.go:122-152 | what each of the 22 digits is worth, and that nothing else is a digit |
| `Volid.HexAt` | internal/ceph/volid/volid.go:97-103 | the i-th digit written is that of the number, the highest first |
| `Volid.UnhexReads` | internal/ceph/volid/volid.go:122-152 | a number is read exactly from a string of digits |
| `Volid.UnhexAt` | internal/ceph/volid/volid.go:122-152 | and its digits are those of the string, the highest first |
| `Volid.ComposedFields` | internal/ceph/volid/volid.go:78-109 | the composed text by position: version and length in four digits, the cluster id, the location in sixteen digits of two's complement, the object uuid, and the hyphens |
| `Volid.UnsetVersion` | internal/ceph/volid/volid.go:90-97 | an unset version is written as 0001 |
| `Volid.ReadFields` | internal/ceph/volid/volid.go:114-168 | what is read from an identifier, by position |
| `Volid.CSIIdentifier.DecomposeCSIID` | internal/ceph/volid/volid.go:114-168 | accepts exactly the identifiers, with the fields they mean; an index out of range exactly when the length field is ffff |
| `Volid.DecodeOfCompose` | internal/ceph/volid/volid.go:78-168 | every identifier that can be composed is read back as it was, with the version made explicit, and its text is canonical |
| `Volid.ComposeOfDecode` | internal/ceph/volid/volid.go:78-168 | an identifier within the size limit is written again as it was if and only if it is canonical |
| `Volid.ComposeIsInjective` | internal/ceph/volid/volid.go:78-109 | different identifiers have different texts, up to an unset version |
| `Volid.LongStringIsAccepted` | internal/ceph/volid/volid.go:114-120 | the 16-bit counters accept any identifier with 65536 bytes after it |
| `Snapshots.NewestIsKept` | internal/mover/ceph/snapshot_method.go:529-581 | the newest labelled snapshot is never marked for deletion |
| `Snapshots.Mover.ListWithStatus` | internal/mover/ceph/snapshot_method.go:81-98 | exactly the snapshots with the label, the first being the first in the server's list |
| `Snapshots.Mover.EnsureCurrent` | internal/mover/ceph/snapshot_method.go:226-268 | an existing current snapshot is used again; a new one is created only if there is none; the result is the newest labelled one |
| `Snapshots.Mover.MarkOthers` | internal/mover/ceph/snapshot_method.go:549-563 | marks the previous snapshots but the newest, and may stop halfway; one that was not marked keeps its label, one that was loses it |
| `Snapshots.Mover.TransitionStatuses` | internal/mover/ceph/snapshot_method.go:529-581 | on success none is current, the unmarked previous ones are the newest two synced, and every older one is marked and has lost its label if it was marked before; on failure everything that must be kept is still there |
| `Snapshots.Mover.Cleanup` | internal/mover/ceph/mover.go:257-281 | a completed cleanup leaves none current, none marked and at most two previous; a failed one can be tried again |
| `Snapshots.Mover.ChooseBase` | internal/mover/ceph/snapshot_method.go:388 | the base is the first previous snapshot in the server's list: the one synced last if and only if no other previous one is listed before it |
| `Snapshots.TwoSyncs` | internal/mover/ceph/snapshot_method.go:388 | two syncs go through when every call of the server does; then, with a list by age, the base is not the snapshot synced last |

## Left out

- gRPC, TLS, certificates, tunnels and the rsync passes: a stream is a reliable queue in order whose sends succeed or fail as a whole.
- The Ceph bindings: a diff is an arbitrary list of extents with the stated hypotheses.
- Walking directories and sorting entries into classes: they only decide which files are handed to the iterator.
- The fast paths for zeroing (fallocate and ioctl): they are taken to do what the portable loop does.
- `Delete` of the file server: it removes paths one by one and answers, and no property of the transfer depends on it.
- Path sanitising: not modelled; every path is taken as given.
- The sharding of the file cache: a lock for many paths behaves as one lock for each, because every operation touches one path.
- `FileCache.Close` and `CephFSReader.Close`: they close whatever is left at the end of the process.
- Kubernetes objects other than snapshots, readiness of snapshots and volumes, jobs and secrets: plumbing with shallow branching.
- Statistics, logging, timing and generated code: no property.
- Destination.WriteFile: a failed write may have changed anything within its own file, so nothing is said about that file.
- Stall.StallShape: says where the chunk at the window base is, not where every other chunk is.
