# A model of HailoRT's concurrent and byte-level core

HailoRT talks to Hailo accelerators from a host. This project models the parts of it whose correctness rests on
every interleaving or on every input, and proves what each of them is for:

* **hRPC client** (`HrpcClient`): requester threads, the message loop, the final drain, the transfer engine and the
  destructor share a pending-reply map, a parked list and `m_is_running`. Every access to shared state is a step of
  its own. A request is named by a token, the number of message ids handed out before it, and its reply data has one
  owner at a time: the map, the loop, the caller, the parked list, or the one execution of its callback
  (`HrpcClientProofs`). What a callback is told is a function of what happened to its request (`HrpcClientTold`),
  requests are written in the order of their ids (`HrpcClientWriter`), and every operation goes through when nobody
  interferes (`HrpcClientRuns`). `HrpcClientOrder` and `HrpcClientTimeout` show what the order of the steps is for.
* **Concurrency primitives**: the reusable barrier (`Barrier`, `BarrierRounds`, `BarrierRuns`), the semaphore queue
  (`SpscQueue`), the reference-counted object pool on top of it (`ObjectPool`, `ObjectPoolRuns`), the worker pool
  (`ThreadPool`) and the server's device manager (`VDeviceManager`).
* **Bytes and bits**: streaming MD5 in words of any width of at least 32 bits (`Md5Sine`, `Md5Spec`, `Md5Table`,
  `Md5Wide`, `Md5`), the table-driven CRC-32 (`Crc32`, `Crc32Residue`), the firmware image validators
  (`FirmwareHeader`) and the parser of action lists (`ActionTypes`, `ActionList`).
* **Data structures against simple ones**: the ring (`CircularArray`), the latency meter (`LatencyMeter`) and the
  running mean and variance (`RuntimeStatistics`).

`Bits`, `LittleEndian` and `Wrappers` hold what several of these share.

An interleaved protocol is a state machine over values: `Enabled` says when a step can be taken, `Apply` takes it,
`Feasible` and `Run` follow a whole schedule, and each main theorem is about every feasible schedule. Beside the
theorems on what no run can do stand those on what a run gets done: from any state, or any state that a run can
reach, the steps of one operation lead to the state that the operation promises and change nothing else. Fields marked
as history in the states record what happened and influence no step. Sequential code that updates objects is a class
with methods; each method is tied to an abstract value, and the properties are proved about that value.

Where a property fails for some inputs, the model says exactly for which: a queue capacity of 2^32 or more
(`WholeCapacityIsUsable`), a call that leaves the device queue out of turn (`LeavingKeepsOrder`), a
client that is given a device while it still closes another (`StepKeepsFaithful`, with a run in
`AskingAgainNeedsTwoRemoves`), a data point of
several samples (`NothingLost`, with an input in `RepeatedSampleIsLost`), a frame that ends before it starts
(`LeadIsFewest`, with an input in `EarlyEndIsStuck`), a synchronous request with read buffers that times out while a
started read still writes them (`TimeoutOvertakesRead`), a stream that is too short for its checksum (`StreamEnds`),
a ring too large for the code's sums (`SumsFitExactly`). Where the order of two
operations matters, a run shows what goes wrong without it (`RecheckIsNeeded`, `StopBeforeDrainIsNeeded`,
`CriticalSectionIsNeeded`).

## Model

| member | source | states |
|---|---|---|
| `HrpcClientProofs.OneOwnerPerRequest` | hailort/hrpc/client.cpp:88-150 | in every state of every interleaving a registered request has exactly one owner among map, loop, caller, parked list, discarded data and executed callback; an unregistered one has none |
| `HrpcClientProofs.OutcomeTellsCallback` | hailort/hrpc/client.cpp:192-249 | no callback runs twice; a failed request's never runs; once the finished flag is set an accepted asynchronous request's ran exactly once, or never when its started read timed out; a synchronous caller that got a reply had one execution |
| `HrpcClientProofs.CallbackAfterRead` | hailort/hrpc/client.cpp:125-147 | no step runs a callback while a started read into its buffers may still be outstanding |
| `HrpcClientProofs.SilentOnceFinished` | hailort/hrpc/client.hpp:58 | after the loop-finished flag no continuation of a run executes any callback |
| `HrpcClientProofs.ParkedUntilClosed` | hailort/hrpc/client.cpp:49-66 | a parked reply is dropped only when the connection is closed, the loop is over and no transfer is left; a request rejected after its write was queued stays parked while the write lasts |
| `HrpcClientProofs.StepKeepsInv` | hailort/hrpc/client.cpp:88-249 | every step of every thread keeps the invariant: ownership, no request behind the drain, explained outcomes, buffers kept, ids apart |
| `HrpcClientProofs.RunKeepsInv` | hailort/hrpc/client.cpp:88-249 | every run keeps it |
| `HrpcClientProofs.IdBelongsToCaller` | hailort/hrpc/client.cpp:226-236 | a caller that pops its id after the write finds its own reply data or nothing, never another request's |
| `HrpcClientProofs.MessageKeepsOwner` | hailort/hrpc/client.cpp:119-147 | every step of the message loop keeps exactly one owner per request and changes no caller |
| `HrpcClientProofs.DrainKeepsOwner` | hailort/hrpc/client.cpp:88-104 | every step of the final drain keeps one owner per request and leaves behind only callers that will read `m_is_running` again |
| `HrpcClientProofs.ReplyKeepsOwner` | hailort/hrpc/client.cpp:123-147 | so does every step of the loop with the reply data in hand |
| `HrpcClientProofs.ReplyKeepsStory` | hailort/hrpc/rpc_connection.cpp:103-132 | every step of the loop with the reply data in hand keeps: a read that may be outstanding is still awaited or was reported as a started-read timeout, and what an outcome says about the callback |
| `HrpcClientTold.CallbackIsToldTheVerdict` | hailort/hrpc/client.cpp:88-147 | in every run a callback that ran was told exactly this: that the connection closed if no reply came, the reply's own status if it failed or there is nothing to read, else the failure of the wait for readiness or of the start of the read, else how the read ended; a read is started only for a successful reply to a request with read buffers after a successful wait, and success is told with read buffers only when they were read |
| `HrpcClientTold.OpenUntilBroken` | hailort/hrpc/client.cpp:108-150 | in every run: as long as no read failed and the destructor has not begun, the client runs, its loop goes on, and a request is rejected only if its own write failed |
| `HrpcClientTold.StoppedForGood` | hailort/hrpc/client.cpp:197-199 | from any state with `m_is_running` false, in every continuation it stays false and no further call gets in |
| `HrpcClientTold.StepKeepsTold` | hailort/hrpc/client.cpp:88-249 | every step of every thread keeps what callbacks were told true |
| `HrpcClientWriter.RequestsAreWrittenInOrder` | hailort/hrpc/client.cpp:201-241 | in every run the write mutex is taken exactly while the request with the newest id is inside, and every older request waits for its reply or has returned |
| `HrpcClientRuns.RequestGoesThrough` | hailort/hrpc/client.cpp:192-241 | from every state with the client running and the mutex free, a call ends accepted, or waiting for its reply, with its reply data in the map under its id and its write queued; nothing else changes |
| `HrpcClientRuns.FailedWriteIsRejected` | hailort/hrpc/client.cpp:226-238 | with a failed write the reply data leaves the map and the call is rejected |
| `HrpcClientRuns.LateRequestIsParked` | hailort/hrpc/client.cpp:227-236 | a call that finds the client stopped after its write was queued parks its reply data and is rejected |
| `HrpcClientRuns.WaitEnds` | hailort/hrpc/client.cpp:173-184 | a waiting caller can take its reply if and only if the callback has run, and can time out if and only if it has not |
| `HrpcClientRuns.ReplyReachesCallback` | hailort/hrpc/client.cpp:119-147 | the reply of a pending request with nothing to read runs its callback with its own status, and the loop goes on |
| `HrpcClientRuns.StrangeReplyIsDropped` | hailort/hrpc/client.cpp:119-122 | a reply whose id nobody waits for changes nothing |
| `HrpcClientRuns.LateReplyIsDropped` | hailort/hrpc/client.cpp:176-179 | nor does the reply of a synchronous request after its time-out |
| `HrpcClientRuns.FailedWaitIsReported` | hailort/hrpc/client.cpp:128-142 | a failed wait for readiness, a timeout included, is told to the callback and ends the loop; nothing is parked |
| `HrpcClientRuns.ReadIsReported` | hailort/hrpc/client.cpp:131-147 | the callback runs after the started read and is told how it ended; the loop goes on after a success and ends after an error |
| `HrpcClientRuns.StuckReadIsParked` | hailort/hrpc/client.cpp:134-142 | a started read that times out parks the reply, runs no callback and ends the loop |
| `HrpcClientRuns.EndedReadIsSeen` | hailort/hrpc/rpc_connection.cpp:103-132 | the loop that waits for a read sees its end if and only if it has ended, and times out if and only if it has not |
| `HrpcClientRuns.LoopTestsRunning` | hailort/hrpc/client.cpp:110-111 | the loop reads the next message while the client runs and ends once it has stopped |
| `HrpcClientRuns.DrainFinishes` | hailort/hrpc/client.cpp:94-103 | from every end of the loop the drain reaches the finished flag, with every pending callback told that the connection closed and every other request untouched |
| `HrpcClientRuns.DestructorFinishes` | hailort/hrpc/client.cpp:49-60 | once the loop is over the destructor comes to its end from every state: the transfers end and no reply stays parked |
| `HrpcClientTimeout.ReadsLeftBehind` | hailort/hrpc/client.cpp:125-147 | in every run a caller that was given its reply has no read behind it; after a timeout a read is left exactly while the loop awaits one, or gave up one, that has not ended |
| `HrpcClientTimeout.TimeoutOvertakesRead` | hailort/hrpc/client.cpp:173-179 | some run lets a synchronous request return a timeout while a started read still writes its buffers if and only if the request has read buffers |
| `HrpcClientTimeout.StartedRead` | hailort/hrpc/client.cpp:119-132 | the run up to the started read, state by state |
| `HrpcClientOrder.RecheckIsNeeded` | hailort/hrpc/client.cpp:226-231 | without the second read of `m_is_running` there is a run in which an accepted request loses its callback |
| `HrpcClientOrder.StopBeforeDrainIsNeeded` | hailort/hrpc/client.cpp:88-104 | with the drain before the flag is cleared there is such a run too |
| `Barrier.NobodySleepsAfterTerminate` | hailort/common/barrier.cpp:18-43 | once a terminate has notified, no thread is asleep or about to fall asleep, in every later state, for any number of threads |
| `Barrier.StepKeepsWakeInv` | hailort/common/barrier.cpp:18-43 | every step keeps the invariant behind it: after the empty critical section nobody can be between its check and its sleep |
| `BarrierRounds.NobodyLeavesEarly` | hailort/common/barrier.cpp:14-34 | for every k nobody returns from its k-th arrival before all n threads made theirs; `m_count` plus the arrivals of the current generation is n; a sleeper belongs to the current round |
| `BarrierRounds.LastArrival` | hailort/common/barrier.cpp:26-30 | the arrival that brings the count to zero starts a new round in which nobody has arrived, with wrap-around of the generation |
| `BarrierRounds.OthersHaveArrived` | hailort/common/barrier.cpp:26-30 | whoever completes a round finds all the other threads in it |
| `BarrierRounds.CriticalSectionIsNeeded` | hailort/common/barrier.cpp:36-43 | without the empty critical section there is a run after which a thread sleeps although the terminate is over |
| `BarrierRuns.ArrivalSleeps` | hailort/common/barrier.cpp:18-34 | an arrival that is not the last takes one from the count and falls asleep in the current generation, with the mutex free again |
| `BarrierRuns.LastArrivalWakesAll` | hailort/common/barrier.cpp:26-30 | the last arrival restores the count, starts the next generation, leaves, and wakes every sleeper |
| `BarrierRuns.WokenLeaves` | hailort/common/barrier.cpp:31-33 | a thread that woke up leaves when its generation is over or the barrier is terminated |
| `BarrierRuns.SpuriousWakeUpSleeps` | hailort/common/barrier.cpp:31-33 | and goes back to sleep otherwise |
| `BarrierRuns.TerminateWakesAll` | hailort/common/barrier.cpp:36-43 | a terminate wakes every sleeper, and later arrivals return at once |
| `SpscQueue.Create` | hailort/common/thread_safe_queue.hpp:112-135 | size zero is refused; otherwise an empty queue whose semaphores agree with it |
| `SpscQueue.Queue.Enqueue` | hailort/common/thread_safe_queue.hpp:201-265 | shutdown, full and success outcomes; the item is appended exactly on success, and contents and permits stay on failure |
| `SpscQueue.Queue.Dequeue` | hailort/common/thread_safe_queue.hpp:161-194 | the front item exactly on success; nothing changes on shutdown or when empty |
| `SpscQueue.Queue.Clear` | hailort/common/thread_safe_queue.hpp:284-296 | ends empty, with every permit back, also after a shutdown, and reports success |
| `SpscQueue.StepKeepsBalance` | hailort/common/thread_safe_queue.hpp:161-265 | every step keeps: each semaphore plus the permits inside running calls mirrors the queue, taken plus left is put |
| `SpscQueue.SemaphoresTrackQueue` | hailort/common/thread_safe_queue.hpp:120-265 | for one producer and one consumer in any interleaving `try_enqueue` and `try_dequeue` never fail, the length stays within the capacity, items come out in order and none is lost, and between calls the permits are exact |
| `SpscQueue.EnqueueStores` | hailort/common/thread_safe_queue.hpp:201-229 | wherever the consumer is, an enqueue with a slot and no shutdown appends its item and moves one permit |
| `SpscQueue.DequeueDelivers` | hailort/common/thread_safe_queue.hpp:161-194 | wherever the producer is, a dequeue with an item and no shutdown delivers the front and moves one permit |
| `SpscQueue.Fill` | hailort/common/thread_safe_queue.hpp:201-229 | enqueues alone reach every length up to the initial permits |
| `SpscQueue.WholeCapacityIsUsable` | hailort/common/thread_safe_queue.hpp:131-134 | some interleaving fills the whole capacity if and only if it fits the 32-bit initial count of the semaphore |
| `SpscQueue.ShutdownStopsBothSides` | hailort/common/event_internal.cpp:24-54 | from any balanced state after a shutdown, if no later wait ignores it, every continuation puts at most the item that was granted a slot, takes at most the item that was promised, and changes nothing at all once both sides are out |
| `SpscQueue.NothingAfterShutdown` | hailort/common/thread_safe_queue.hpp:161-265 | so after every run from a new queue, with nothing lost and no failed FIFO operation |
| `ObjectPool.CreateShared` | hailort/common/object_pool.hpp:115-139 | the loop ends in the initial state of the pool: every object that has a slot is queued once, in order of creation, with count zero, and the others are dropped |
| `ObjectPool.OnePlacePerObject` | hailort/common/object_pool.hpp:46-177 | in every interleaving each object is in exactly one place and its count is its number of live handles; a return always finds a free slot; no queue operation fails after its wait |
| `ObjectPool.QueuedOrOutstanding` | hailort/common/object_pool.hpp:153-177 | between calls and before shutdown an object that fits is queued once with count zero or outstanding with at least one handle; the two groups add up to what the semaphore can count, which is the capacity if and only if that is below 2^32 |
| `ObjectPool.RoomForReturn` | hailort/common/object_pool.hpp:170-177 | while an object is being returned the queue misses it and the one being acquired |
| `ObjectPool.HandledItem` | hailort/common/object_pool.hpp:52-104 | copy, move and release keep the 32-bit count equal to the live handles, and exactly the last release leaves a return to do |
| `ObjectPool.StepKeepsInv` | hailort/common/object_pool.hpp:46-177 | every step of acquire, handle and return keeps places, counts and permits |
| `ObjectPoolRuns.AcquireAlwaysWorks` | hailort/common/object_pool.hpp:153-160 | after every run, while the pool is not shut down, nobody is inside acquire and its semaphore has a permit, an acquire gets the object at the front of the queue, with count one and one handle |
| `ObjectPoolRuns.AcquireHandsOut` | hailort/common/object_pool.hpp:153-160 | the whole state after such an acquire: nothing else changes |
| `ObjectPoolRuns.AcquireFails` | hailort/common/object_pool.hpp:153-160 | without a permit, or after a shutdown, an acquire changes nothing |
| `ObjectPoolRuns.ShutdownHandsOutNothing` | hailort/common/object_pool.hpp:153-160 | after a shutdown with nobody inside acquire, in every continuation, no object without a handle gets one |
| `ObjectPoolRuns.CopyOutlivesOriginal` | hailort/common/object_pool.hpp:52-104 | copying a handle and releasing the original leaves the object out with the copy |
| `ObjectPoolRuns.MovePassesOn` | hailort/common/object_pool.hpp:52-104 | moving a handle and releasing the new one is releasing the old one |
| `ObjectPoolRuns.LastReleaseReturns` | hailort/common/object_pool.hpp:170-177 | the last release brings the object to the back of the queue with count zero; nothing else changes |
| `ObjectPoolRuns.LastReleaseDrops` | hailort/common/object_pool.hpp:170-177 | after a shutdown it is dropped instead |
| `ObjectPoolRuns.RoundTrip` | hailort/common/object_pool.hpp:153-177 | acquire followed by release rotates the queue by one and restores everything else |
| `ThreadPool.EveryAcceptedJobRanOnce` | hailort/common/thread_pool.hpp:66-76 | with a worker, when the destructor returns the queue is empty, and exactly the jobs offered before the kill, counted on the schedule alone, were taken in order and executed once each |
| `ThreadPool.AcceptsUntilKilled` | hailort/common/thread_pool.hpp:53-64 | in every run the accepted jobs are the first k offered, where k counts the offers before the first kill |
| `ThreadPool.WorkerWorks` | hailort/common/thread_pool.hpp:25-41 | a worker that looks takes the front of the queue, executes it and is ready again |
| `ThreadPool.DestructorNeverHangs` | hailort/common/thread_pool.hpp:66-76 | from every state of every run some continuation brings the destructor to its end, with or without workers |
| `ThreadPool.NoJobIsForgotten` | hailort/common/thread_pool.hpp:25-64 | in every state a job was executed at most once and only if accepted; a queued job never waits while all workers sleep and no notification is due |
| `ThreadPool.NoWorkerNoJob` | hailort/common/thread_pool.hpp:19-45 | without workers no job is ever executed, so the worker is needed |
| `ThreadPool.StepConserves` | hailort/common/thread_pool.hpp:25-41 | every step keeps: a taken job is with one worker or has been executed once |
| `ThreadPool.StepKeepsControl` | hailort/common/thread_pool.hpp:53-76 | every step keeps: a worker exits only after the kill flag with an empty queue, and no wake-up is lost |
| `VDeviceManager.GroupsNeverMix` | hailort/hailort_server/hailort_server.cpp:70-145 | clients that hold a device, closing or not, were created under the active group; in the unique group there is at most one |
| `VDeviceManager.DevicesComeAndGo` | hailort/hailort_server/hailort_server.cpp:110-145 | in every run in which nobody is given a device while still closing another: a client has a device if and only if its last grant has no later remove, and is closing if and only if it was marked since |
| `VDeviceManager.StepKeepsFaithful` | hailort/hailort_server/hailort_server.cpp:70-145 | a step keeps that for a client if and only if it does not give it a device while it still closes another |
| `VDeviceManager.AskingAgainNeedsTwoRemoves` | hailort/hailort_server/hailort_server.cpp:70-145 | a run in which a client that asks again too early keeps a device after its remove |
| `VDeviceManager.RemovesFree` | hailort/hailort_server/hailort_server.cpp:133-145 | from every state, removing the holders frees the device and changes nothing else, and the client at the front of the queue is ready for it |
| `VDeviceManager.FrontGetsDevice` | hailort/hailort_server/hailort_server.cpp:54-90 | then its waiting call gets the device, alone, and its group becomes the active one |
| `VDeviceManager.CreateAnswers` | hailort/hailort_server/hailort_server.cpp:70-90 | when a call gets a device at once, when it is refused and when it waits, each as an if-and-only-if over the state before it |
| `VDeviceManager.OneQueueEntryPerWaiter` | hailort/hailort_server/hailort_server.cpp:54-68 | the request queue has one entry for each waiting call, so `front` and `pop` never meet an empty queue |
| `VDeviceManager.StepKeepsInv` | hailort/hailort_server/hailort_server.cpp:54-145 | every step keeps both, with the lock released in the timed wait |
| `VDeviceManager.LeavingKeepsOrder` | hailort/hailort_server/hailort_server.cpp:54-68 | a call that leaves the wait keeps the queue in order of arrival if and only if every call before it is of the same client |
| `VDeviceManager.ArrivalKeepsOrder` | hailort/hailort_server/hailort_server.cpp:70-90 | no other step disturbs the order |
| `VDeviceManager.TimeOutStealsThePlace` | hailort/hailort_server/hailort_server.cpp:56-66 | a run in which a call that times out pops another client's entry, after which that client is not ready even with the device free |
| `Md5.DigestOfChunks` | common/src/md5.c:207-289 | for every message and every way of splitting it into updates, in words of every width, the result is the RFC 1321 digest of the whole message |
| `Md5.Context.constructor` | common/src/md5.c:207-216 | the context of the empty message |
| `Md5.Context.Update` | common/src/md5.c:218-250 | from the context of m to the context of m followed by the data, for any lengths |
| `Md5.Context.Count` | common/src/md5.c:223-226 | the 29-bit counter and its carry stand for the length, in the low 32 bits of the high counter |
| `Md5.Context.Absorb` | common/src/md5.c:228-250 | whole blocks go to the registers and the rest to the buffer, in all three cases |
| `Md5.Context.Pad` | common/src/md5.c:262-275 | both padding cases reach the same padded message |
| `Md5.Context.Final` | common/src/md5.c:258-289 | the RFC 1321 digest of everything fed in, and a wiped context |
| `Md5.Context.Body` | common/src/md5.c:100-205 | any number of blocks, compressed in words wider than 32 bits, agree in their low 32 bits with exact arithmetic |
| `Md5.Rounds` | common/src/md5.c:120-189 | the 64 lines of the compression, whatever the high bits of registers and inputs hold |
| `Md5.Input` | common/src/md5.c:120-189 | the input word that each line names is the one of RFC 1321 |
| `Md5Table.TableIsRight` | common/src/md5.c:120-189 | the constant of each line is the integer part of 2^32 times the absolute sine of its number, which the RFC calls T[i] |
| `Md5Table.Amount` | common/src/md5.c:120-189 | the shift of each line is the one of RFC 1321 |
| `Md5Sine.SeedsAreIntegerParts` | common/src/md5.c:120-189 | the two numbers from which the sines are built lie, for every longer partial sum of the series of sine and cosine, within one unit of 2^-64 |
| `Md5.LengthWords` | common/src/md5.c:277-279 | the two counters written out are the length in bits modulo 2^64 |
| `Md5Wide.LowStep` | common/src/md5.c:60-63 | one step in wide words has the low 32 bits of the step in section 3.4 of RFC 1321 |
| `Md5Wide.LowAuxiliary` | common/src/md5.c:51-55 | the rewritten F and G, and both forms of H, are those of RFC 1321 in the low 32 bits |
| `Md5Wide.LowRotate` | common/src/md5.c:62 | the shift, mask and or are the circular shift |
| `Crc32.CrcOnBuffer` | hailort/common/utils.hpp:599-614 | for every buffer the table-driven checksum is the bit-at-a-time CRC-32 |
| `Crc32.CrcOnStream` | hailort/common/utils.hpp:576-597 | for any stream and any sequence of reads: a checksum exactly when the reads have brought all the bytes asked for, and then that of the first bytes of the stream |
| `Crc32.StreamEnds` | hailort/common/utils.hpp:585-594 | some sequence of reads ends the loop if and only if the stream holds enough bytes |
| `Crc32.NonEmptyReadsFetch` | hailort/common/utils.hpp:585-594 | as many non-empty reads as bytes are always enough |
| `Crc32.Entry` | hailort/common/utils.hpp:625-633 | a table entry is eight shifts of its index |
| `Crc32.ManyAtATime` | hailort/common/utils.hpp:604 | one look-up does the work of feeding n bits |
| `Crc32.NothingIsLost` | hailort/common/utils.hpp:54 | no number of shifts turns a non-zero register into zero, because the polynomial has the highest bit |
| `Crc32Residue.ResidueIsConstant` | hailort/common/utils.hpp:54 | every message followed by its own checksum has the checksum 0x2144DF1C, the residue of CRC-32 |
| `Crc32Residue.ChecksumOfZeroByte` | hailort/common/utils.hpp:599-608 | the checksum of one zero byte is 0xD202EF8D |
| `Crc32.FourAtOnce` | hailort/common/utils.hpp:599-608 | four bytes fed one by one are one word of 32 bits fed at once |
| `Crc32.BurstIsSeen` | hailort/common/utils.hpp:599-608 | messages that differ only within four bytes in a row always have different checksums |
| `FirmwareHeader.ValidateImage` | common/src/firmware_header_utils.c:129-184 | accepts exactly the byte strings that are application part, certificate and core part end to end within the limits (with nothing left over when the size is known), points at the parts, and says precisely why it refuses |
| `FirmwareHeader.ValidateSecondStage` | common/src/firmware_header_utils.c:187-226 | accepts exactly a part and a certificate and nothing else |
| `FirmwareHeader.ValidateHeader` | common/src/firmware_header_utils.c:31-97 | succeeds if and only if a part of this type stands at the offset, moves exactly behind it, never past the end; a refusal carries one of its own statuses, which names its fault |
| `FirmwareHeader.ValidateCertificate` | common/src/firmware_header_utils.c:99-127 | the same for the certificate |
| `FirmwareHeader.Consume` | common/src/firmware_header_utils.c:23-29 | exact while the 32-bit sum does not wrap; what it lets through when it does |
| `FirmwareHeader.ImageIsUnique` | common/include/firmware_header.h:38-57 | a byte string starts with at most one image |
| `FirmwareHeader.PartIsRead` | common/include/firmware_header.h:38-45 | when a part stands at an offset, in terms of its fields, and which |
| `ActionList.Parse` | hailort/hailortcli/download_action_list_command.cpp:418-470 | parses exactly the encodings of well-formed actions that fit 16 bits, reports exactly their actions and sub-actions in order, and ends exactly at the end of the list without wrapping its offset |
| `ActionList.ParseAction` | hailort/hailortcli/download_action_list_command.cpp:440-464 | succeeds if and only if an action stands at the offset, moves exactly behind it and reports its entries |
| `ActionList.ParseSubActions` | hailort/hailortcli/download_action_list_command.cpp:453-462 | the sub-actions of a repeated block, in order, each with its index and address |
| `ActionList.ParseSingle` | hailort/hailortcli/download_action_list_command.cpp:400-416 | header and data of one action, with the time stamp counted down from its start value |
| `ActionList.ParseData` | hailort/hailortcli/download_action_list_command.cpp:169-383 | the data of one action type, or an unknown type |
| `ActionList.SizeIsSumOfFields` | common/include/context_switch_defs.h:68-455 | the size of the data of each action type is the sum of the fields of its packed structure, and the repeated action has the number of the enumeration |
| `ActionList.SpellingIsUnique` | common/include/context_switch_defs.h:140-186 | a byte string is the encoding of at most one sequence of actions |
| `ActionList.ActionIsUnique` | common/include/context_switch_defs.h:140-186 | at most one action stands at a place |
| `CircularArray.Ring.constructor` | hailort/common/circular_buffer.hpp:42-49 | an empty ring of cleared slots |
| `CircularArray.Ring.PushBack` | hailort/common/circular_buffer.hpp:197-209 | the contents followed by the element |
| `CircularArray.Ring.PopFront` | hailort/common/circular_buffer.hpp:211-217 | the contents without their first element, and a cleared slot |
| `CircularArray.Ring.Reset` | hailort/common/circular_buffer.hpp:225-233 | empty, with every slot cleared |
| `CircularArray.Ring.Front` | hailort/common/circular_buffer.hpp:219-223 | the first of the contents |
| `CircularArray.Ring.Empty` | hailort/common/circular_buffer.hpp:235-238 | the contents are empty |
| `CircularArray.Ring.Full` | hailort/common/circular_buffer.hpp:240-243 | the contents have reached the size of the array less one |
| `CircularArray.Ring.Size` | hailort/common/circular_buffer.hpp:245-248 | the number of elements |
| `CircularArray.Ring.Elements` | hailort/common/circular_buffer.hpp:155-178 | iteration from begin to end yields the contents in order |
| `CircularArray.MaskAgrees` | hailort/common/circular_buffer.hpp:108-116 | the mask form agrees with the remainder form for every value if and only if the size passes the power-of-two test |
| `CircularArray.SumsFitExactly` | hailort/common/circular_buffer.hpp:57-85 | all the sums of the code stay within a 32-bit int for all indices if and only if the size is at most 2^30 |
| `CircularArray.Reach` | hailort/common/circular_buffer.hpp:197-209 | pushing reaches every head, so also the one at which the sums are largest |
| `CircularArray.BitTrick` | hailort/common/utils.hpp:422-425 | the test recognises exactly the powers of two |
| `LatencyMeter.Replay` | hailort/common/latency_meter.hpp:46-116 | for every interleaving of pushes, updates and queries: it overflows if and only if some push finds the ring of its source full; otherwise count and sum since the last clear are those of (latest k-th end) minus (k-th start) over the frames taken since then, and every query got their average |
| `LatencyMeter.DoneTracksLead` | hailort/common/latency_meter.hpp:87-116 | the frames taken are the leading completable ones, but for the pending updates |
| `LatencyMeter.AllFramesTaken` | hailort/common/latency_meter.hpp:87-116 | with no update pending exactly min(starts, fewest ends) frames were taken if and only if none of them ends before it starts |
| `LatencyMeter.Take` | hailort/common/latency_meter.hpp:46-84 | one step of any thread moves the meter to where the longer run leads, or overflows |
| `LatencyMeter.EarlyEndIsStuck` | hailort/common/latency_meter.hpp:104-107 | an input on which a frame that ends before it starts holds up the next one |
| `LatencyMeter.LeadIsFewest` | hailort/common/latency_meter.hpp:87-116 | that number is min(starts, fewest ends) if and only if no arrived frame ends before it starts |
| `LatencyMeter.LeadGrowsByOne` | hailort/common/latency_meter.hpp:46-64 | a sample completes at most one more frame, so one update per sample is enough |
| `LatencyMeter.Meter.UpdateLatency` | hailort/common/latency_meter.hpp:87-116 | takes the next frame if and only if it is completable, and changes nothing otherwise |
| `LatencyMeter.Meter.LatestEnd` | hailort/common/latency_meter.hpp:95-102 | the latest first end over all channels, unless one has none |
| `LatencyMeter.Meter.GetLatency` | hailort/common/latency_meter.hpp:69-84 | the average over the frames since the last clear, or none |
| `RuntimeStatistics.Summarize` | hailort/common/runtime_statistics_internal.hpp:101-172 | for every sequence of points the mean is the weighted mean, or not a number after a first point of no samples; with positive sample counts the variance is never too large, and is the unbiased sample variance if and only if every point is one sample, the first, or at the mean before it, so always for single-sample points |
| `RuntimeStatistics.FullAccumulator.AddDataPoint` | hailort/common/runtime_statistics_internal.hpp:101-113 | keeps count, mean and M2 equal to their plain definitions, less what repeated samples lose, for any sample counts; a first point of no samples spoils mean and M2 until the next clear |
| `RuntimeStatistics.FullAccumulator.GetMean` | hailort/common/runtime_statistics_internal.hpp:153-161 | the weighted mean of the points since the last clear, or none |
| `RuntimeStatistics.FullAccumulator.Variance` | hailort/common/runtime_statistics_internal.hpp:164-172 | the sum of squared deviations, less what repeated samples lose, over the count less one, or none below two samples |
| `RuntimeStatistics.FullAccumulator.Clear` | hailort/common/runtime_statistics_internal.hpp:206-213 | back to no points |
| `RuntimeStatistics.NothingLost` | hailort/common/runtime_statistics_internal.hpp:108-112 | what M2 loses is never negative, and zero exactly for points of one sample, the first point, or points at the mean before them |
| `RuntimeStatistics.RepeatedSampleIsLost` | hailort/common/runtime_statistics_internal.hpp:108-112 | an input of three samples in two points for which M2 holds 1/3 instead of 2/3 |

## Left out

- Update in place and aliasing in the interleaved protocols (client, barrier, queue machine, pool, workers, device manager): their steps are functions on values, each atomic, in a sequentially consistent memory.
- Reuse of a message id: a 32-bit id is assumed not to come back while a request still uses it.
- Progress: what every finite run keeps and what some continuation always reaches are proved; that a schedule is fair, or that a peer answers, is not modelled.
- Notifications: a notification callback that fails ends the message loop as a failed read does, and is that step.
- VDeviceManager.DevicesComeAndGo: holds for runs without a grant to a client that is still closing; `StepKeepsFaithful` is the exact condition for a step and `AskingAgainNeedsTwoRemoves` a run without it.
- The sines of RFC 1321: `Md5Sine` builds them from sin(1) and cos(1) by the addition theorem, to 64 places; that this recurrence is the sine is not proved.
- Real time: a timeout is a step that may be taken when the condition does not hold; time stamps are given numbers.
- Sessions, sockets, drivers, DMA and files: transfers and reads are steps with any outcome.
- Closing a connection: it is assumed to return only when no transfer is left, and no transfer is assumed to start once it has begun; "no transfer is left" in `ParkedUntilClosed` rests on that.
- The inner lock-free queue, the semaphores, the event group and the thread-safe map: taken as a bounded FIFO, counters, "the first signalled index" and atomic map operations.
- A pooled handle that outlives its pool, and failures while the pool is created: the object simply dies.
- `create_vdevice_for_genai`: it joins any group on purpose, so the group invariant is not meant for it.
- RPC handlers, serializers, command-line commands, printers and JSON output: the parser reports (address, time stamp, type, index, data) and does not decode the data further.
- ActionList.ParseData: lists that run over their end or nest repeated blocks have no defined behaviour in the code; the model reports them as faults of their own.
- ActionList.Parse: an action list of 4 GiB or more, whose size wraps in the cast of the 16-bit test, is not modelled.
- The stream position that the checksum of a stream restores.
- FirmwareHeader.ValidateHeader: takes an offset from which header and limit cannot pass 2^32, as both callers do; `Consume` says what the macro does beyond that.
- Signed overflow in a ring of more than 2^30 slots: the ring is modelled on unbounded indices, and `SumsFitExactly` says when the code's ints hold them.
- LatencyMeter.Replay: the meter holds its rings as sequences with the capacity of a ring, which is what `CircularArray` proves of them; 64-bit overflow of times and sums is not modelled.
- Floating-point rounding, infinities, minimum, maximum, standard deviations and the wrap-around of the 64-bit sample count in the accumulator.
- `get_fw_binary_type`, `is_binary_being_downgraded` and `validate_binary_version`: single comparisons.
