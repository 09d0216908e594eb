# Verified model of uringcore

`uringcore` is an asyncio event loop on `io_uring`: a native engine that owns buffers, futures,
timers and a ready queue, and a Python layer that submits operations and reacts to completions.
This project models the parts of it that carry state across calls and proves what they keep over
whole runs. The kernel is an adversary: it decides which submissions are refused, when operations
complete and with what, which table updates fail, and when it consumes a provided buffer. Clients
may call in any order that the stated rules allow.

## How the model is built

Each component is a value type with one function per operation, written so that an operation's
outcome on every branch and error exit is explicit, and a class whose methods do the same work in
the source's order, with the source's fields and loops, proved equal to those functions. The
theorems are about runs of the functions.

| file | component |
|---|---|
| `Indices.dfy` | partitions of `0..n` as one multiset equation |
| `Bits.dfy` | bitwise and/or on unsigned integers, powers of two |
| `UserData.dfy` | the `user_data` codec and completion flags |
| `Buffers.dfy` | the buffer pool, its clients, the memory region |
| `FdStates.dfy` | per-descriptor credit and aggregate statistics |
| `FixedFiles.dfy` | the fixed-file table and the kernel's copy of it |
| `ProvidedRing.dfy` | the ring of provided buffers |
| `Scheduling.dfy` | timers, the ready queue, runs of ticks |
| `Futures.dfy` | the native future and its two scheduling paths |
| `Core.dfy` | the engine's operations, one completion at a time; ownership |
| `Uring.dfy` | the engine object; the batched tick |
| `ProvidedIds.dfy` | where the provided buffers are |
| `Delivery.dfy` | client, engine and kernel together: delivery |
| `Backpressure.dfy` | receive credit over the runs of that system |
| `Interest.dfy` | reader/writer maps and the epoll interest set |
| `Pipes.dfy` | the write side of a pipe |

Main results: `Delivery.OperationIff`, `Delivery.Delivery`, `Core.ConservedInEveryRun`,
`Uring.UringCore.RunTick`, `ProvidedIds.ProvidedInEveryRun`, `FixedFiles.MirroredInEveryRun`,
`Futures.FutureLife`, `Scheduling.TimerFiresOnce`, `Backpressure.ReceiveDroppedIff`,
`Interest.InStepInEveryRun`, `Pipes.TidyInEveryRun`.

The two delivery theorems are about client, engine and kernel together, with no rule that operations
on a descriptor exclude one another: outstanding operations carry different futures, a descriptor
is not unregistered under a receive, and the kernel writes no more than the length it is given.

`Delivery.OperationIff` is about each single operation, whatever has gone wrong with others: its
completion delivers its own future its own data exactly when, since its submission,

1. no call has stored a future for its descriptor: a receive that had credit and a buffer, a send that
   had a buffer and fits it, an accept, or a `sendto` that was flushed. For the first three it makes no
   difference whether the submission queue then took the entry or was full;
2. no completion of that descriptor, with or without a future, has been processed before it.

It needs that no receive is placed under a receive on its descriptor; otherwise the buffer of the
first goes back to the pool while the kernel may still fill it (`Core.SecondReceiveFreesFirst`).
`Delivery.Delivery` needs no such rule and is about all operations of a run: all are delivered as owed, and
all outstanding ones have their futures, exactly when no such call or completion ever came upon an
outstanding operation with a future.

## Where the code does not do what one would expect

Each of these is proved together with the exact condition under which the expected property holds.

- Futures are found by descriptor alone. A close settles the receive outstanding on its descriptor
  with its own result (`Delivery.CloseOvertakesReceive`; a transport without a socket object submits
  a close under an armed receive, python/uringcore/transport.py:57-68 and 90-101); a send replaces the
  future of an armed receive, and the receive's outcome then goes to the send
  (`Delivery.SendReplacesReceive`, python/uringcore/transport.py:141-156); a send refused by a full queue
  silences the receive (`Delivery.RefusedSendSilencesReceive`). Each is a run from a fresh engine;
  `Delivery.Delivery` has the exact condition.
- A descriptor gets 64 receives for each registration: neither ticks nor calls give credit back. Every
  later receive reports success, places nothing and forgets its future
  (`Backpressure.ReceiveDroppedIff`, `Backpressure.CreditStaysGone`).
- A send larger than a buffer panics after taking a buffer, which is lost (`Core.SendMoves`).
- Draining a multishot completion gives the pool a buffer it never lent out; ownership survives
  exactly the completion lists without one (`Core.DrainKeepsIff`).
- A pool of 65536 or more buffers starts with a truncated free list (`Buffers.NewCoversIff`), and
  above 32768 there is no provided-buffer ring (`ProvidedRing.RingSizeIff`).
- A completion with data can exceed the credit budget when nothing is recorded as outstanding
  (`FdStates.CompletionKeepsCreditIff`).
- On a closed loop the slow path of a future drops its callbacks where the fast path schedules them
  (`Futures.FastRefinesSlowIff`).
- Registering descriptor -1, or a slice with a repeated descriptor, breaks the table
  (`FixedFiles.InsertKeepsIff`, `FixedFiles.FromSliceIff`).
- A refused first registration leaves a table behind (`FixedFiles.RefusedRegistrationRollsBack`).
- A reader on the wake-up descriptor, taken away again, leaves the loop deaf to wake-ups
  (`Interest.WakeUpLost`); a writer there makes it deaf at once (`Interest.AddWriterDeafens`).
  `Interest.StepIff` has the exact condition.
- A protocol that closes the transport from inside `resume_writing` makes the handler raise and
  leaves the writer registered (`Pipes.StepTidyIff`).

## Model

| member | source | states |
|---|---|---|
| `UserData.RoundTrip` | src/ring.rs:55-69 | decoding a word returns the descriptor (negative ones too), operation and 16-bit generation it was made from; bits 40..47 are zero |
| `UserData.CodesAre` | src/ring.rs:55-69 | each operation has its code, and every other byte reads as unknown |
| `UserData.EncodeInjective` | src/ring.rs:164-169 | two submissions share a word only if all three fields agree |
| `UserData.ReencodeIff` | src/ring.rs:121-138 | re-encoding a decoded 64-bit word restores it exactly when its operation code is known and its reserved bits are zero |
| `UserData.BufferIndexOfFlags` | src/ring.rs:173-181 | flags whose low half is odd name the buffer in their high half; even ones name none |
| `Buffers.BufferPool.constructor` | src/buffer.rs:107-152 | a fresh pool: the free list counts up to the 16-bit cast of the count |
| `Buffers.BufferPool.Create` | src/buffer.rs:107-152 | no pool exactly when the total size overflows or the mapping fails |
| `Buffers.NewCoversIff` | src/buffer.rs:137-141 | the free list is all of `0..count` exactly when the count fits 16 bits |
| `Buffers.BufferPool.ReclaimQuarantined` | src/buffer.rs:204-219 | the longest ready prefix moves to the free list; the first entry still too young goes to the back |
| `Buffers.ReclaimKeeps` | src/buffer.rs:204-219 | reclaiming neither loses nor duplicates an index |
| `Buffers.BufferPool.AcquireBuffer` | src/buffer.rs:177-182 | takes the oldest free index after reclaiming |
| `Buffers.AcquireTakes` | src/buffer.rs:177-182 | exactly one index leaves the pool, or none exactly when nothing is free and the first quarantined entry is too young |
| `Buffers.AcquireOldest` | src/buffer.rs:177-219 | the index handed out is the first of what was free, then of what has served its quarantine |
| `Buffers.PoolIsFifo` | src/buffer.rs:177-201 | over every run with nothing in quarantine the free list is a queue: what was handed out, then what is free, is what was free at first, then what came back under the current generation |
| `Buffers.BufferPool.ReleaseBuffer` | src/buffer.rs:187-201 | appends the index to the free list unless the generation is stale |
| `Buffers.PoolRunSound` | src/buffer.rs:170-219 | over every run in which each acquired index is released at most once, under any generation bumps, both queues, what clients hold and what was lost partition `0..count` |
| `Buffers.SoundUsage` | src/buffer.rs:293-302 | both queues are duplicate-free and disjoint from what clients hold, and the in-use subtraction equals held plus lost, so it never underflows |
| `Buffers.LostExactly` | src/buffer.rs:187-197 | each release under a stale generation loses one index for good, and nothing else does |
| `Buffers.BufferPool.Stats` | src/buffer.rs:293-302 | the four counts; in use is what the two queues do not hold |
| `Buffers.BuffersTile` | src/buffer.rs:227-230 | every byte of the region belongs to exactly one buffer |
| `Buffers.StoreByte` | src/buffer.rs:253-259 | storing a payload changes exactly the bytes at the front of its buffer |
| `Buffers.StoreLocal` | src/buffer.rs:227-259 | bytes stored in a buffer are read back from it and change no other buffer |
| `Buffers.BufferPool.Fill` | src/lib.rs:938-940 | copying a payload changes exactly the front of one buffer |
| `Buffers.BufferPool.Read` | src/buffer.rs:239-244 | a slice is clamped to one buffer |
| `FdStates.SubmitKeepsCreditIff` | src/state.rs:75-96 | recording a submission stays within the budget exactly when credit was left |
| `FdStates.CompletionKeepsCreditIff` | src/state.rs:98-107 | a completion with data stays within the budget exactly when something was outstanding or credit was left |
| `FdStates.CreditInEveryRun` | src/state.rs:232-284 | over every run of registrations, guarded submissions and completions no descriptor exceeds its budget, and the totals stay within 64 per descriptor |
| `FdStates.BuffersAreFifo` | src/state.rs:99-113 | over every run, a descriptor's buffers leave its queue in the order they joined it, none lost, as long as it stays registered |
| `FdStates.LastCallPauses` | src/state.rs:126-133 | it is paused exactly if the last call that could pause or resume it paused it |
| `FdStates.TotalsSplit` | src/state.rs:264-284 | the aggregate does not depend on the order in which descriptors are visited |
| `FdStates.TotalsAre` | src/state.rs:264-284 | the totals are the number of descriptors, the sum of outstanding submissions, the sum of queue lengths and the number of paused descriptors |
| `FdStates.FdStateManager.ComputeStats` | src/state.rs:264-284 | the accumulating loop computes those totals |
| `FdStates.FdStateManager.WithStateMut` | src/state.rs:210-229 | an update happens only on a registered descriptor of the current generation; otherwise the exact error and no change |
| `FdStates.FdStateManager.RegisterState` | src/state.rs:172-177 | registering starts the descriptor afresh |
| `FdStates.FdStateManager.UnregisterState` | src/state.rs:180-185 | unregistering forgets the descriptor and returns its queued buffers |
| `FdStates.FdStateManager.Invalidate` | src/state.rs:250-260 | forgets all descriptors and returns their states |
| `FixedFiles.FixedFdTable.New` | src/fixed_fd.rs:24-40 | empty slots, and a free stack with index 0 on top |
| `FixedFiles.FixedFdTable.InitFromSlice` | src/fixed_fd.rs:45-74 | slots from the slice; a repeated descriptor maps to its last slot; free slots highest first |
| `FixedFiles.FixedFdTable.InsertFile` | src/fixed_fd.rs:80-93 | returns the known index, or pops a free one and fills its slot, or fails |
| `FixedFiles.FixedFdTable.RemoveFile` | src/fixed_fd.rs:96-104 | empties the slot and pushes its index |
| `FixedFiles.NewTableInverse` | src/fixed_fd.rs:24-40 | map and array start mutually inverse with the free stack exactly the empty slots |
| `FixedFiles.FillsInOrder` | src/fixed_fd.rs:24-40 | a new table hands out its indices from 0 upwards |
| `FixedFiles.FromSliceIff` | src/fixed_fd.rs:45-74 | a slice gives such a table exactly when the descriptors that fit are distinct, sentinels aside |
| `FixedFiles.InsertKeepsIff` | src/fixed_fd.rs:80-93 | insertion keeps map, array and stack consistent exactly when it does not store the sentinel |
| `FixedFiles.InsertFailsIff` | src/fixed_fd.rs:80-93 | insertion fails exactly when the table is full and the descriptor absent |
| `FixedFiles.TableRun` | src/fixed_fd.rs:80-104 | every sequence of insertions and removals keeps the table consistent, with mapped plus free equal to the capacity |
| `FixedFiles.Ring.Register` | src/ring.rs:299-333 | creates the table if needed, inserts, updates the kernel, and rolls back on refusal |
| `FixedFiles.Ring.Unregister` | src/ring.rs:336-348 | removes from the table first; a refused kernel update is reported but not undone |
| `FixedFiles.Ring.RegisterSlice` | src/ring.rs:901-911 | replaces the table by one built from the slice once the kernel agrees |
| `FixedFiles.Ring.UnregisterAll` | src/ring.rs:914-923 | drops the table once the kernel agrees |
| `FixedFiles.RegisterMeans` | src/ring.rs:299-333 | after a successful registration the descriptor looks up to exactly the returned index (taken from the top of the free stack if it is new), that kernel slot holds it, and no other lookup or slot has changed |
| `FixedFiles.RegisterFails` | src/ring.rs:299-333 | when each of the three failures occurs; then every lookup is as before |
| `FixedFiles.UnregisterMeans` | src/ring.rs:336-348 | afterwards the descriptor looks up to nothing and every other as before; its slot holds -1 iff the kernel agreed, and is the first to be reused |
| `FixedFiles.RegisterSliceMeans` | src/ring.rs:901-911 | after an accepted slice each descriptor looks up to its last position and the kernel has the slice |
| `FixedFiles.RegisterSliceTable` | src/fixed_fd.rs:45-74 | the table then has at least 4096 slots, and free are exactly those without a descriptor, lowest on top |
| `FixedFiles.UnregisterAllMeans` | src/ring.rs:914-923 | afterwards nothing looks up, or nothing has changed and the refusal is reported |
| `FixedFiles.MirroredInEveryRun` | src/ring.rs:299-354 | in every run, whatever the kernel refuses, a descriptor that looks up to an index is in that kernel slot |
| `FixedFiles.RefusedRegistrationRollsBack` | src/ring.rs:317-332 | after any run, a refused registration restores everything exactly unless it had just created the table |
| `ProvidedRing.SlotOfPosition` | src/buf_ring.rs:107-108 | masking the wrapped 16-bit tail picks the slot of the unbounded position |
| `ProvidedRing.PBufRing.Create` | src/buf_ring.rs:40-82 | a ring exists exactly for powers of two when the allocation succeeds, and starts empty |
| `ProvidedRing.PBufRing.AddBuffers` | src/buf_ring.rs:90-122 | writes the given entries and moves the tail; while there is room this appends exactly them to the queue |
| `ProvidedRing.PublishAppends` | src/buf_ring.rs:107-120 | while there is room no unconsumed entry is overwritten and the order is kept, over any number of tail wraps |
| `ProvidedRing.PublishAppendsIff` | src/buf_ring.rs:107-120 | with distinct entries, publishing is an append exactly when there is room |
| `ProvidedRing.PBufRing.KernelTakes` | src/buf_ring.rs:90-122 | the kernel side takes the oldest entry |
| `ProvidedRing.RingSizeIff` | src/lib.rs:199-203 | the 16-bit cast of the next power of two is a legal ring size, and large enough, exactly up to 32768 buffers |
| `ProvidedIds.HandedNames` | src/lib.rs:375-419 | the completion of a handed-out entry makes a drain recycle that very buffer |
| `ProvidedIds.ProvidedInEveryRun` | src/lib.rs:463-476 | buffers in the ring and in undrained completions partition `0..count` in every run; recycling always finds room and nothing is published twice at a time |
| `ProvidedIds.AddressedInEveryRun` | src/lib.rs:216-228 | in every run, for buffers below 4 GiB, each entry in the ring covers exactly the addresses of the buffer it names, and no two entries share an address |
| `ProvidedIds.WrittenIsRead` | src/buffer.rs:227-244 | what is written at an entry's address is what reading the buffer it names returns |
| `ProvidedIds.DrainRecycled` | src/lib.rs:392-417 | what a drain recycles is exactly the buffers of its multishot completions, in order |
| `ProvidedIds.RecycledAt` | src/lib.rs:392-417 | one buffer for each completion that used a provided one, its own, at its place among them |
| `ProvidedIds.PopulatedInv` | src/lib.rs:216-228 | the initial population publishes every buffer once |
| `Scheduling.TimerHeap.PopExpired` | src/timer.rs:59-72 | exactly the due timers, earliest first; the rest stays, all later than now |
| `Scheduling.TimerHeap.NextExpiration` | src/timer.rs:75-77 | the least expiration, or none exactly for an empty heap |
| `Scheduling.Scheduler.Drain` | src/scheduler.rs:55-65 | takes the whole queue and leaves it empty |
| `Scheduling.Scheduler.RunBatch` | src/lib.rs:1379-1403 | takes the whole queue; executes, in order, exactly the handles not cancelled when their turn comes; what those push waits for the next batch |
| `Scheduling.ExecutedAt` | src/lib.rs:1379-1403 | cancelling a handle skips that handle only: every other one is executed, at its place among the others |
| `Scheduling.PushedAt` | src/lib.rs:1379-1403 | what the executed handles push stays together per handle, in the order of execution |
| `Scheduling.PushedLength` | src/lib.rs:1379-1403 | and nothing else is left on the queue |
| `Scheduling.TickTakesBatch` | src/lib.rs:1096-1403 | over every run, at the end of a tick that submits, everything pushed before it has been taken, then the timers it found due, then what its completions scheduled, and nothing its own handles pushed |
| `Scheduling.QueueIsFifo` | src/scheduler.rs:30-65 | over every run, handles taken followed by the queue are the handles pushed: first in first out, each exactly once |
| `Scheduling.TimerWaits` | src/timer.rs:55-72 | over every run the heap holds an entry as often as it was pushed and not reached since |
| `Scheduling.TimerFiresOnce` | src/lib.rs:1096-1113 | each push of a timer is queued exactly once, by the first tick after it whose clock reaches it, for any clocks and however often equal entries are pushed, after everything pushed before that tick and before what its completions schedule; a tick that submits takes it at that place |
| `Futures.FutureLife` | src/future.rs:82-179 | on an open loop: the outcome is the first settling operation's; the schedule is the registrations that survived until then, in order, then all later ones; a settled future holds no callback |
| `Futures.ReportsInLife` | src/future.rs:82-141 | in every life on an open loop, settling raises "already done" (cancelling reports false) exactly after the first settling operation, and nothing else raises |
| `Futures.ClosedLoop` | src/future.rs:308-340 | on a closed loop a pending future is settled and loses its callbacks unscheduled, raising exactly if it had any; a finished one raises "already done" |
| `Futures.ClosedLoopCallback` | src/future.rs:144-172 | on a closed loop a callback for a finished future is refused; a pending one keeps it |
| `Futures.SettledForGood` | src/future.rs:82-141 | once settled, no operation changes state or outcome |
| `Futures.FastRefinesSlowIff` | src/future.rs:248-340 | fast and slow settling agree on state, error and scheduled handles exactly when the loop is open, or the future was done or had no callback |
| `Futures.UringFuture.SetResult` | src/future.rs:82-100 | the slow path through `call_soon`, with both its errors |
| `Futures.UringFuture.SetException` | src/future.rs:102-120 | the same for exceptions |
| `Futures.UringFuture.Cancel` | src/future.rs:122-141 | cancelling reports false on a done future and settles otherwise |
| `Futures.UringFuture.SetResultFast` | src/future.rs:248-263 | the fast path |
| `Futures.UringFuture.SetExceptionFast` | src/future.rs:265-280 | the fast path for exceptions |
| `Futures.UringFuture.AddDoneCallback` | src/future.rs:144-172 | kept while pending, scheduled at once when done |
| `Futures.UringFuture.RemoveDoneCallback` | src/future.rs:174-179 | keeps exactly the callbacks with another function and counts the rest |
| `Futures.UringFuture.CallSoon` | python/uringcore/loop.py:506-515 | queues one handle, or raises on a closed loop |
| `Core.SubmitReceiveOwns` | src/lib.rs:532-683 | on every exit of a receive submission, including the overwrite of an older buffer, the owned indices are the same |
| `Core.SubmitSendKeeps` | src/lib.rs:932-972 | a send keeps every index owned exactly once on every exit |
| `Core.SendMoves` | src/lib.rs:932-972 | an accepted send moves one index from the pool to the sends; one with a payload larger than a buffer loses one, exactly when a buffer can be had; every other exit moves none |
| `Core.UnregisterKeeps` | src/lib.rs:291-307 | unregistering keeps every index owned exactly once |
| `Core.UnregisterMoves` | src/lib.rs:291-307 | the recorded receive buffer and all queued ones go back to the pool and nothing else moves |
| `Core.UnregisterFrees` | src/lib.rs:291-307 | they go behind all that is free, the recorded one first |
| `Core.ExtractKeeps` | src/lib.rs:1135-1249 | handling a completion in a tick keeps the owned indices and leaves futures, sends, descriptors and memory alone |
| `Core.ExtractMoves` | src/lib.rs:1135-1249 | a receive's completion moves its recorded buffer back to the pool; no other completion moves an index |
| `Core.DrainKeepsIff` | src/lib.rs:375-420 | draining keeps ownership exactly for lists without a kernel-selected buffer |
| `Core.DrainLeavesRest` | src/lib.rs:375-455 | a drain touches no future, message, send or byte, forgets the buffers of the receives it drains, and lowers each current descriptor's count by the number of its drained receives, not below zero |
| `Core.ItemsReport` | src/lib.rs:375-460 | one item per completion, in order, with its descriptor, operation and result, and with data exactly for a positive result with a selected buffer or a recorded one not taken earlier in the list: the first `min(result, size)` bytes of that buffer before the drain |
| `Core.ConservedInEveryRun` | src/lib.rs:532-683 | in every run of submissions, unregistrations, ticks and such drains over arbitrary completions, free list, receives and sends (with what panicking sends lost) partition `0..count`, and no descriptor exceeds its credit |
| `Core.FuturesAfter` | src/lib.rs:532-997 | said of the engine before the call: which calls store a future, that they replace whatever the descriptor had by theirs or, on a full queue, by nothing, and that no other call touches the futures |
| `Core.DroppedIff` | src/lib.rs:534-536 | a receive reports success without placing anything exactly when the guard fails, and then changes nothing |
| `Core.ErrorsAre` | src/lib.rs:532-1044 | what every exit of every call raises, from its inputs and the engine before it, in the order of the tests |
| `Core.EntriesAre` | src/lib.rs:532-1044 | when a call places an entry (a failed flush leaves it), and which descriptor, operation and future it carries |
| `Core.MessagesAfter` | src/lib.rs:628-895 | the message records a call leaves: one more for each message operation it places |
| `Core.FailedReturnsLast` | src/lib.rs:544-575 | a receive or send that fails after taking a buffer puts it back behind all that is free |
| `Core.SecondReceiveFreesFirst` | src/lib.rs:576-587 | a receive placed under a recorded one returns the recorded buffer to the pool |
| `Core.IndexedInEveryRun` | src/lib.rs:348-479 | with drains of multishot completions as well, and for pools of any size, every index anywhere in the engine still names an existing buffer |
| `Core.FuturesLeft` | src/lib.rs:1260-1269 | a batch leaves exactly the futures of descriptors it does not name |
| `Core.FirstCompletionWins` | src/lib.rs:1260-1282 | a completion resolves the stored future exactly when no earlier completion of the batch names its descriptor, whatever the operations |
| `Core.TuplesReport` | src/lib.rs:1135-1376 | a tick returns one tuple per completion, in order, with its descriptor, operation and result, and with exactly the data (and sender's address) that the engine held for it before the tick, for positive receives whose buffer no earlier completion took, multishot receives with a buffer, and sendmsg |
| `Core.ProcessMessages` | src/lib.rs:1160-1249 | after a tick the message records are those whose operations have not completed |
| `Core.StoreFollowsEvents` | src/lib.rs:1284-1368 | each native future is settled at most once, by the first event that names it |
| `Core.QueueFollowsEvents` | src/lib.rs:1284-1368 | the ready queue after processing is the queue before, then for each event in order: each callback a pending native future held, once, called with that future in its own context, by the first event for it; nothing for one already done; whatever a foreign future pushes |
| `Uring.UringCore.constructor` | src/lib.rs:176-251 | around a new pool: an engine with nothing outstanding, with a fully populated ring exactly when it could be allocated and registered and its size is legal |
| `Uring.UringCore.Create` | src/lib.rs:176-251 | the three ways a start fails, in order, and the fresh engine otherwise |
| `Uring.UringCore.PopulatedRing` | src/lib.rs:199-234 | the ring exists exactly when it could be allocated, the kernel agrees and the size is legal, and then holds every buffer once, in order |
| `Uring.UringCore.SubmitRecv` | src/lib.rs:532-595 | every exit of a receive submission and the state it leaves |
| `Uring.UringCore.SubmitRecvFrom` | src/lib.rs:598-683 | the same for recvfrom |
| `Uring.UringCore.SubmitSendData` | src/lib.rs:932-972 | every exit of a send submission, including the panicking copy |
| `Uring.UringCore.SubmitSendToAddress` | src/lib.rs:871-895 | the future is stored only after a successful flush |
| `Uring.UringCore.SubmitAcceptOn` | src/lib.rs:980-997 | an accept stores its future and removes it when the queue is full |
| `Uring.UringCore.UnregisterDescriptor` | src/lib.rs:291-307 | releases the recorded buffer and all queued ones |
| `Uring.ProcessIsExtract` | src/lib.rs:1135-1269 | handling all buffers before any future leaves the engine exactly as handling completions one at a time |
| `Uring.UringCore.PhaseOne` | src/lib.rs:1135-1258 | data and buffers of a whole batch before any future |
| `Uring.UringCore.PhaseTwo` | src/lib.rs:1260-1269 | removes and returns the futures of all named descriptors |
| `Uring.UringCore.ResolveFuture` | src/lib.rs:1284-1368 | a native future is settled by its own fast path, any other through its own method; no other future changes |
| `Uring.UringCore.PhaseThree` | src/lib.rs:1271-1376 | resolves in completion order and builds the result tuples |
| `Uring.UringCore.ProcessCompletions` | src/lib.rs:1123-1377 | the three phases give the tuples, resolutions, futures, queue and engine of the one-at-a-time loop |
| `Uring.UringCore.RunTick` | src/lib.rs:1093-1406 | a whole tick: timers and queue take one step of the loop of `Scheduling`, so its run theorems hold of it; the engine, the futures and the result are those of one completion at a time, and what the completions schedule is what their events wake; a failed flush stops after the timers |
| `Uring.UringCore.PushReady` | src/lib.rs:1076-1078 | pushing a task is a step of the same loop |
| `Uring.UringCore.PushTimerAt` | src/lib.rs:1056-1058 | so is pushing a timer |
| `Uring.UringCore.DrainCompletions` | src/lib.rs:348-479 | drains one by one and publishes the recycled buffers in order, as many as a 16-bit count says, which is all of them below 65536 completions |
| `Delivery.PerformKeepsBytes` | src/lib.rs:932-940 | no client call touches the bytes of a recorded receive |
| `Delivery.WriteIsLocal` | src/buffer.rs:227-230 | the kernel's write for one operation leaves every other recorded receive alone |
| `Delivery.DeliveryAt` | src/lib.rs:1260-1376 | as long as receives have their buffers, a completion resolves the future stored for its descriptor, unless an earlier one of the tick did, with its own operation's data, count or error |
| `Delivery.PositionIff` | src/lib.rs:1260-1282 | it delivers exactly what it is owed iff it carries a future, that one is stored and no earlier completion names its descriptor, or it carries none and none is then stored |
| `Delivery.KeepsFutureIff` | src/lib.rs:532-1376 | an outstanding operation still has its future after a move iff it had it before and the move is neither a storing call nor a tick with a completion on its own descriptor |
| `Delivery.DataAt` | src/lib.rs:532-1249 | in every run that places no receive under a receive, whatever futures were lost, each outstanding receive has its buffer to itself and each completed one its data in it |
| `Delivery.Submitted` | src/lib.rs:532-1044 | whatever is outstanding was placed by one call and has been outstanding ever since |
| `Delivery.HasFutureIff` | src/lib.rs:532-1376 | over every run, an outstanding operation has its future iff no move since its submission lost the one of its descriptor |
| `Delivery.OperationIff` | src/lib.rs:532-1376 | over every such run, each completion taken delivers its own submission's future its own data iff, since the submission, no call stored a future for its descriptor and no earlier completion named it |
| `Delivery.DeliveredStays` | src/lib.rs:1371-1376 | what has been delivered is never changed |
| `Delivery.TickDelivers` | src/lib.rs:1284-1376 | an undisturbed tick resolves, in completion order, exactly the futures of the completions it finds with what each is owed |
| `Delivery.StepIff` | src/lib.rs:532-1376 | a move ends sound delivery exactly when it stores over, or overtakes, an outstanding operation; any other keeps the invariant |
| `Delivery.StaysUnsound` | src/lib.rs:532-1376 | a lost future is never found again: the operation that lost it is delivered wrongly or still without it |
| `Delivery.Delivery` | src/lib.rs:532-1376 | over every run, every completion taken has resolved exactly its own submission's future with exactly the bytes written (none for 0, the OS error for negative results), and every outstanding operation has its future, iff no move stored over or overtook an outstanding operation |
| `Delivery.DeliveredIff` | src/lib.rs:532-1376 | once nothing with a future is outstanding, all deliveries were right iff no move did so |
| `Delivery.DeliveriesFlat` | src/lib.rs:1271-1376 | the deliveries of a tick, position by position, are the resolutions of the tick |
| `Delivery.StoreInEveryRun` | src/lib.rs:1284-1368 | in every run a native future is settled by the first event ever delivered to it and by no other |
| `Delivery.WokenOnce` | src/lib.rs:1284-1368 | in every run a native future's callbacks are queued by the first event ever delivered to it, in order, and never again |
| `Delivery.Settled` | src/lib.rs:1292-1323 | in every undisturbed run a pending native future passed with one completed submission ends up settled with that operation's data or error |
| `Delivery.CloseOvertakesReceive` | src/lib.rs:1030-1044 | a run in which a close's completion settles the receive's future with the close's result |
| `Delivery.SendReplacesReceive` | src/lib.rs:948 | a run in which the receive's end of stream is delivered to the future of a send |
| `Delivery.RefusedSendSilencesReceive` | src/lib.rs:956-962 | a run in which a refused send leaves the receive's completion with nobody to tell |
| `Backpressure.CreditIsSpent` | src/state.rs:75-107 | in every run a descriptor has spent one unit of credit for each receive since its registration that got past guard, pool and registry, never more than 64 |
| `Backpressure.ReceiveDroppedIff` | src/lib.rs:534-536 | in every run a receive reports success and does nothing exactly when its descriptor is paused or has had 64 receives since its registration |
| `Backpressure.CreditStaysGone` | src/lib.rs:1160-1249 | once the credit is gone it stays gone until the next registration |
| `Interest.EventLoop.AddReaderCallback` | python/uringcore/loop.py:560-584 | adds a reader and adjusts epoll incrementally, with the exact error |
| `Interest.EventLoop.RemoveReaderNoCheck` | python/uringcore/loop.py:592-613 | removes a reader and adjusts epoll, reporting whether there was one |
| `Interest.EventLoop.AddWriterCallback` | python/uringcore/loop.py:615-639 | the same for writers |
| `Interest.EventLoop.RemoveWriterNoCheck` | python/uringcore/loop.py:647-668 | the same for writers |
| `Interest.InStepInEveryRun` | python/uringcore/loop.py:560-668 | over every run, the incrementally kept interest set always equals the one computed from the maps and the native copies agree, iff every call was harmless; wake-ups are heard throughout iff the same |
| `Interest.OthersInStep` | python/uringcore/loop.py:560-668 | on descriptors other than the wake-up one every run stays in step and no epoll call fails |
| `Interest.InStepMeaning` | python/uringcore/loop.py:571-580 | a descriptor is watched exactly with a reader, a writer or for wake-ups and exactly with their mask |
| `Interest.StepIff` | python/uringcore/loop.py:560-668 | a call keeps the interest set in step, and wake-ups heard, iff it is on another descriptor, or takes no reader off the wake-up descriptor and touches a writer there only beside a reader |
| `Interest.SurprisedIff` | python/uringcore/loop.py:571-580 | an epoll call fails exactly when the wake-up descriptor gets its first callback |
| `Interest.AddWriterDeafens` | python/uringcore/loop.py:627-635 | a writer on the wake-up descriptor without a reader there stops wake-ups from being heard at once |
| `Interest.WakeUpLost` | python/uringcore/loop.py:602-611 | adding and removing a reader on the wake-up descriptor ends wake-ups, and without a writer there stops it being watched |
| `Pipes.WritePipeTransport.WriteData` | python/uringcore/pipes.py:107-122 | ignored when closing or empty; otherwise buffered, watched, and paused exactly above the high-water mark |
| `Pipes.WritePipeTransport.WriteReadyHandler` | python/uringcore/pipes.py:124-150 | every outcome of a raw write, with the protocol's reaction in the middle |
| `Pipes.WritePipeTransport.CloseTransport` | python/uringcore/pipes.py:152-161 | closes at once only with an empty buffer |
| `Pipes.WritePipeTransport.AbortTransport` | python/uringcore/pipes.py:166-171 | drops the buffer, stops watching and closes; raises on a closed pipe |
| `Pipes.WriteMeans` | python/uringcore/pipes.py:107-122 | a write that is not ignored is buffered, and which error it raises when the pipe is closed or the loop refuses to watch it |
| `Pipes.ReadyMeans` | python/uringcore/pipes.py:124-150 | the writer callback under a quiet protocol: what is written, when watching stops, when the pipe is closed and the protocol told |
| `Pipes.ReadyOnClosed` | python/uringcore/pipes.py:124-150 | on a closed pipe it raises and changes nothing |
| `Pipes.ResumesIff` | python/uringcore/pipes.py:131-135 | `resume_writing` is called exactly when a raw write leaves less than the low-water mark |
| `Pipes.CloseMeans` | python/uringcore/pipes.py:152-161 | closing twice does nothing; closing with nothing left closes once and tells the protocol |
| `Pipes.AbortMeans` | python/uringcore/pipes.py:166-171 | aborting drops the buffer, stops watching, closes once and tells the protocol; on a closed pipe it raises |
| `Pipes.WritePipeTransport.constructor` | python/uringcore/pipes.py:86-105 | a new transport is in order exactly when the pipe could be made non-blocking |
| `Pipes.StreamInEveryRun` | python/uringcore/pipes.py:107-171 | bytes written are always a prefix of bytes accepted, and until an abort the buffer is exactly the rest |
| `Pipes.StepTidyIff` | python/uringcore/pipes.py:124-144 | a step keeps watching and closing in order exactly when it does not close from inside `resume_writing` with nothing left |
| `Pipes.TidyInEveryRun` | python/uringcore/pipes.py:124-161 | otherwise, in every run, watched exactly while bytes wait and closed once, exactly when closing was asked for and all bytes are out |

## Left out

- Buffers.BufferPool.constructor: covers the successful allocation; `Buffers.BufferPool.Create` has the failing ones.
- Uring.UringCore.constructor: covers what follows the pool; `Uring.UringCore.Create` has the failing exits before it.
- Uring.UringCore.RunTick: Python code run by a handle appears as the handles it pushes; what it submits is a later client call. Native futures are objects known by identity, and resolving a foreign future is whatever handles it pushes.
- Uring.UringCore.DrainCompletions: the kernel names only existing buffers.
- Delivery.Delivery: multishot operations are not part of the system (they have their own partition in `ProvidedIds.dfy`), nor is unregistering a descriptor under a receive, whose buffer is then reused while the kernel may still write to it. Native futures change only by delivery; `Futures.dfy` has them under all operations.
- Delivery.OperationIff: nothing is said after a receive was placed under a receive on its descriptor, for the same reason.
- Delivery.Settled: of futures passed with several submissions only the first delivery is described (`Delivery.StoreInEveryRun`).
- Pipes.WritePipeTransport.constructor: the callbacks it schedules, `connection_made` and the waiter's, are not part of this model.
- Pipes.WritePipeTransport.WriteData: what a protocol does inside `pause_writing` is not modelled; inside `resume_writing` it may do nothing, write, or close.
- Scheduling.TimerHeap.PopExpired: expirations are real numbers (no NaN) and equal expirations may come in any order.
- Memory mapping, locking, system calls, eventfd, SQPOLL and atomic orderings: kernel effects, present only as refusals and nondeterministic steps.
- The kernel's real layout of the provided-buffer ring: slots are by index, header before entries.
- Thread interleavings between the locks of one call: calls are atomic, as under the interpreter lock.
- Socket addresses: opaque values; parsing and construction are not modelled.
- Python's second dispatch of completions, stream and datagram transports, servers, subprocesses, TLS, signals, executors, metrics and policy.
- `run_until_stopped`, reading pipes, buffer offsets for partial consumption, and debug-mode checks of `call_soon`.
