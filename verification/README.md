# Concurrency primitives, modelled and proved in Dafny

The repository is a library of small concurrent primitives with two loop programs beside them. This project
models the six hardest of them and proves what they are for. Each concurrent primitive is a step machine: one
shared load, store, read-modify-write or system call is one step, any number of threads interleave their steps in
any order, and the theorems speak of every state of every such run. What the source does in place in a single
thread is also written imperatively, with the source's loops and fields, and proved against functions that the
lemmas then speak about.

| part | modules |
|---|---|
| epoch-based reclamation | EpochReclamation (machine), EpochSafety (invariant), EpochTheorems (runs), EpochCollector (the loops of Retire and Gc), EpochReclaims (what a collection frees), EpochWitness (a run that unregisters too early) |
| RCU hash map | RcuMemory (chains and tables), RcuMachine, RcuSafety, RcuTheorems, RcuLoad (when the table grows), RcuPins (a Get gives its pin back), RcuHashMap (the loops of Put, Remove, Resize and ~Table) |
| SPSC ring under x86-TSO | TsoMemory (store buffers), SpscRing (machine), SpscSafety, SpscTheorems, SpscBuffer (the class) |
| futex locks | ProtectedState (what is guarded), FutexLock |
| sequence locks | Seqlock, SeqlockAlone (calls that nobody disturbs) |
| broadcast ring | BroadcastFrame (sizes, fields, byte ring), BroadcastRing (machine), BroadcastSafety, BroadcastTheorems, BroadcastWait (the scan loop of Reserve), BroadcastBatch (PollCopyBatch), BroadcastPolls (a reader's calls when nobody else moves), BroadcastSlots (who holds a slot), BroadcastLapped (PollCopy without backpressure, on cells), BroadcastUniform and BroadcastLappedRuns (the byte ring behaves as those cells), BroadcastWitness (two runs that show the limits), BroadcastOvertaken (exactly which readers can be lapped) |
| reverse-mode gradients | Mlp (the mathematics), MlpBackprop (the loops) |
| pointer-chase ring | PointerChase |
| shared | Prelude, Modular |

**Reclamation and the hash map.** The pin in `EnterCritical` is a load and a later store, and the scan in `Gc`
visits one control block per step while threads enter, leave, register and collect. The invariant relates three
moments: when a thread published its pin, when an object was unlinked, and when a collection loaded the epoch. The
hash map runs on top of that machine. Readers follow `next` pointers that were spliced out long ago, and tables
that have been replaced; a rank fixed when a node is made falls along every `next` pointer for ever, which is why
walks end and why a stale walk still finds an entry that the map held since the call.

**The broadcast ring.** A reader is *protected* while its slot is active and still its own, no cursor but its own has
been stored into that slot since it registered, and it registered at a frame boundary that the producer still
respects: at or above the cached minimum and, if a scan was under way at that moment, within one capacity and not below
what the scan had found in the slots it had passed. It may register at any time, also between `Reserve` and `Commit`.
`BroadcastTheorems.LatestIsGood` says exactly when the cursor of `GetLatestCursor()` is such a start,
`BroadcastWitness.LatestCanBeLapped` is a run in which it is not, `BroadcastOvertaken.LappedIff` says exactly which
readers some continuation can lap, and `BroadcastTheorems.ProtectionEndsIff` says what can
end protection, step by step. Readers that nothing protects are covered when all frames have one size:
`BroadcastLappedRuns.CopiesOneFrame` comes from a simulation of the byte ring by an array of cells.

**Where the code and its documentation disagree**, the model follows the code:

- `SeqlockRouteCache::Read` in common/locks_under_the_hood/locks_under_the_hood.h says that readers verify an even and
  unchanged counter. Its `continue` inside `do ... while (s0 != s1)` can leave the loop with an odd counter.
  `Seqlock.NeverTornIff`: of the three protocols exactly this one breaks the promise that every read returns one
  writer's payload, current during the read. `Seqlock.DoWhileTears` is the run; `Seqlock.EvenIsCurrent` is the condition
  under which a call of this reader keeps the promise: an even counter in the step that returns.
- `BackwardReverseMode` skips inactive units and leaves their rows of `grad_w1` as the previous call left them.
  `MlpBackprop.GradientIff` says exactly when `grad_w1` is the gradient; `MlpBackprop.StaleRow` is a pair of inputs
  for which it is not.
- `UnregisterThread` inside a critical section gives up the pin although `critical_depth` stays positive
  (`EpochSafety.UnregisterKeepsPinsIff`). `EpochWitness.UnregisteredReaderExposed` is a run in which such a reader loses
  an object that was linked when it published its pin.
- The comment in `BroadcastRingBuffer::Advance` says that the generation test prevents a race with evictions. Test and
  cursor store are two steps, so an evicted reader can still store into a slot that has been handed to another:
  `BroadcastWitness.LateStore` is the run, and it is the third case of `ProtectionEndsIff`.
- `AlignedPayloadSize` wraps around for lengths above 2^32 - 8 and `TotalFrameSize` above 2^32 - 32
  (`BroadcastFrame.AlignedHolds`, `BroadcastFrame.TotalExact`).

**What release stores cost.** A push with release stores that has returned can be missed by a pop that starts
afterwards (`SpscTheorems.ReleasePopMisses`); with seq_cst stores it cannot (`SpscTheorems.SeqCstExact`).

## Model

| member | source | states |
|---|---|---|
| EpochSafety.StepInv | common/concurrency/ebr.cc:48-146 | every step of any thread keeps the reclamation invariant: a block shows a pin iff its thread is in a critical section, and then one at or below the epoch it pinned; tags at or above the pins of threads that may still see the object; scan minima at or below every older pin already passed; no batch of a future epoch |
| EpochSafety.FreedIsQuiet | common/concurrency/ebr.cc:132-145 | whatever a step frees was unlinked before every thread then in a critical section published its pin |
| EpochTheorems.GracePeriod | common/concurrency/ebr.cc:68-146 | in every run, an object still linked when a thread published its pin is not freed before that thread leaves, whoever unlinks, retires and collects meanwhile |
| EpochTheorems.EpochMovesOnce | common/concurrency/ebr.cc:73-130 | from the step that publishes a pin until its thread leaves, the global epoch rises by at most one, with any number of collections already mid-scan |
| EpochTheorems.PinIsLoadedEpoch | common/concurrency/ebr.cc:73-78 | in every run the pin that a critical section shows until it ends is the global epoch that its thread loaded on entering |
| EpochTheorems.InsideIff | common/concurrency/ebr.cc:68-85 | in every run a thread is in its critical section iff it has called EnterCritical more often than ExitCritical and its pin is stored, so an inner exit never ends an outer section |
| EpochTheorems.DeletedIsHeld | common/concurrency/ebr.cc:91-145 | what a collection deletes has been unlinked and retired and has not been freed |
| EpochTheorems.DeletedOnce | common/concurrency/ebr.cc:132-145 | no run deletes an object twice |
| EpochSafety.UnregisterKeepsPinsIff | common/concurrency/ebr.cc:60-85 | unregistering keeps the promise to threads in critical sections if and only if the caller is not in one itself |
| EpochSafety.UnregisterLosesPin | common/concurrency/ebr.cc:60-66 | a thread that unregisters inside a critical section is left in it without a pin |
| EpochSafety.UnregisteredIsTwoSteps | common/concurrency/ebr.cc:60-66 | where the machine allows UnregisterThread, its two stores and the reset of tls_tcb lead to the state that the two rows above speak of |
| EpochWitness.UnregisteredReaderExposed | common/concurrency/ebr.cc:60-146 | a run in which a thread unregisters inside its critical section and, while it stays there, an object still linked when it published its pin is unlinked, retired and freed by another |
| EpochCollector.Collector.RegisterThread | common/concurrency/ebr.cc:48-58 | a thread without a block gets a fresh inactive-epoch one; a registered thread changes nothing |
| EpochCollector.Collector.Retire | common/concurrency/ebr.cc:91-110 | the node joins the batch of the current epoch, and exactly at 64 nodes a collection with the scan's minimum follows |
| EpochCollector.Collector.Gc | common/concurrency/ebr.cc:112-146 | the epoch moves on iff the minimum is the epoch; exactly the own batches below the minimum are deleted, in order, and the others kept in order |
| EpochCollector.Collector.Sweep | common/concurrency/ebr.cc:132-145 | the erase loop deletes the nodes of exactly the batches below the minimum and keeps the rest |
| EpochCollector.Collector.DeleteAll | common/concurrency/ebr.cc:137-139 | every node of the batch is deleted once, in order |
| EpochCollector.ScanIsMin | common/concurrency/ebr.cc:113-124 | the scan's result is the smallest of the epoch and the pins of active blocks |
| EpochCollector.SweepConserves | common/concurrency/ebr.cc:132-145 | deleted and kept nodes together are the batched nodes, none lost and none twice |
| EpochCollector.SweepKeeps | common/concurrency/ebr.cc:136-143 | a batch survives the sweep iff its epoch is at least the minimum |
| EpochCollector.GcAlone | common/concurrency/ebr.cc:112-146 | a collection whose steps nobody interleaves ends where the loops of Collector.Gc end |
| EpochCollector.RetireAlone | common/concurrency/ebr.cc:91-146 | a Retire whose steps nobody interleaves ends where Collector.Retire ends, with the collection at 64 nodes and without one below |
| EpochReclaims.CollectsExactly | common/concurrency/ebr.cc:112-146 | an undisturbed collection frees one of its thread's retired objects iff its epoch is below the global one and below the pin of every thread in a critical section |
| EpochReclaims.TwoCollectionsFreeAll | common/concurrency/ebr.cc:68-146 | in every run, once no thread is in a critical section, two undisturbed collections of a registered thread leave it no batch and free every object it ever retired |
| EpochReclaims.EnterAlone | common/concurrency/ebr.cc:68-79 | entering undisturbed from outside registers the thread if need be and pins the current epoch |
| EpochReclaims.ExitUnpins | common/concurrency/ebr.cc:81-85 | leaving the outermost section takes the pin back |
| EpochReclaims.RegisterGives | common/concurrency/ebr.cc:48-58 | registering gives a thread without a block a fresh one, and changes nothing else |
| RcuSafety.StepInv | common/concurrency/rcu_hash_map.h:79-250 | every step of a reader, writer, resize or collection keeps the map's invariant |
| RcuTheorems.NoUseAfterFree | common/concurrency/rcu_hash_map.h:79-190 | in every run, whatever an operation is about to read through has not been released, neither by its own delete nor by its table's destructor |
| RcuTheorems.GetLinearizable | common/concurrency/rcu_hash_map.h:79-106 | in every run the result of Get is the map's entry for the key at some moment between call and result, also when the walk went through retired nodes or an old table |
| RcuTheorems.UpdateLinearizable | common/concurrency/rcu_hash_map.h:117-190 | in every run a Put or Remove that is about to return has updated the map in exactly one of its own steps since the call, as the call says, and Remove returns whether its key was in the map at that moment |
| RcuTheorems.DeleteIsFirst | common/concurrency/rcu_hash_map.h:219-228 | when a collection deletes a node, or a table with its chains, nothing it releases had been released before |
| RcuTheorems.DeletedAtMostOnce | common/concurrency/rcu_hash_map.h:173-250 | in every run each allocation is released by at most one delete, although nodes go one by one and with whole tables |
| RcuTheorems.OwnershipPartition | common/concurrency/rcu_hash_map.h:173-250 | in every reachable state a node is in exactly one place: a table in use, waiting to be deleted on its own, a retired table, or released |
| RcuTheorems.ChainsOwn | common/concurrency/rcu_hash_map.h:219-228 | a table's chains hold exactly the nodes made for it and not unlinked one by one |
| RcuTheorems.ReaderNeverBlocked | common/concurrency/rcu_hash_map.h:79-106 | a pinned reader can take its next step in every reachable state |
| RcuTheorems.WriterNeverBlocked | common/concurrency/rcu_hash_map.h:117-190 | the holder of the write lock can take its next step in every reachable state unless it waits for its own Retire, and what that step unlinks has never been unlinked before |
| RcuTheorems.NodesNotLengthened | common/concurrency/rcu_hash_map.h:117-250 | no step of any thread, splice, replacement, insertion or resize, puts more nodes behind any node, linked or retired |
| RcuTheorems.WalkNotLengthened | common/concurrency/rcu_hash_map.h:87-104 | no step of another thread increases the number of nodes from a walking reader's position to the end of its chain |
| RcuTheorems.WalkDescends | common/concurrency/rcu_hash_map.h:87-104 | a step of a walk ends it at a node for its key or at the end of the chain, and otherwise leaves exactly one node fewer |
| RcuTheorems.GetWaitFree | common/concurrency/rcu_hash_map.h:85-105 | in every run, a walk that loaded a head with n nodes on its chain has its result after n + 1 own steps, whatever the other threads do, and until then its next step is always possible |
| RcuTheorems.GetCallWaitFree | common/concurrency/rcu_hash_map.h:79-106 | in every run, a Get from its call on, pin, table load, head load, walk and leaving included, is done after n + 6 own steps, n being the nodes on the chain when it loads its head, and its next own step is always possible |
| RcuTheorems.CountIsSize | common/concurrency/rcu_hash_map.h:151-197 | in every run count_ is the number of entries whenever the lock is free, and off by exactly the pending update otherwise |
| RcuLoad.EntriesFit | common/concurrency/rcu_hash_map.h:117-158 | in every state of every run the map has at most as many entries as its table has buckets |
| RcuLoad.TableDoubles | common/concurrency/rcu_hash_map.h:120-124 | in every run a table is replaced only when the map has as many entries as it has buckets, by one with twice as many, and the entries stay |
| RcuPins.GetGivesBack | common/concurrency/rcu_hash_map.h:79-106 | in every run a Get that has its result has left the section it entered and no other; called from outside any, it leaves no pin published |
| RcuMemory.LookupSpliced | common/concurrency/rcu_hash_map.h:133-188 | splicing a node out, or a copy in for it, changes what a walk from any node finds only for that node's key |
| RcuMemory.LengthSpliced | common/concurrency/rcu_hash_map.h:133-188 | splicing a node out takes exactly one node off every chain that leads through its predecessor and none off any other, and putting a copy in its place changes no length |
| RcuMemory.InsertEffect | common/concurrency/rcu_hash_map.h:149-151 | a new head adds one entry, keeps every other, and disturbs no walk under way |
| RcuMemory.ReplaceEffect | common/concurrency/rcu_hash_map.h:132-143 | copy-on-write replacement changes one value in one table and only what walks find for that key |
| RcuMemory.UnlinkEffect | common/concurrency/rcu_hash_map.h:174-185 | unlinking removes one entry from one table and only what walks find for that key |
| RcuMemory.OnePredecessor | common/concurrency/rcu_hash_map.h:131-147 | two nodes of one chain never have the same successor, so one store takes a node out |
| RcuMemory.CopyAdvances | common/concurrency/rcu_hash_map.h:235-246 | after each copied node the new table agrees with the old one on exactly the keys behind the copying loop |
| RcuMemory.CopyDone | common/concurrency/rcu_hash_map.h:231-250 | when the loops are through, the new table holds the same entry for every key |
| RcuHashMap.HashMap.constructor | common/concurrency/rcu_hash_map.h:53-56 | the map starts empty with the requested buckets, and is usable iff there is at least one |
| RcuHashMap.HashMap.Find | common/concurrency/rcu_hash_map.h:79-106 | the walk of Get returns the abstract map's entry, or nothing |
| RcuHashMap.HashMap.Put | common/concurrency/rcu_hash_map.h:117-154 | the map becomes the old one with the key set; the table doubles exactly when count reached its size; a replaced table and the node with the replaced value are retired, and nothing else |
| RcuHashMap.HashMap.Remove | common/concurrency/rcu_hash_map.h:164-190 | the map loses the key; true iff it was there; exactly then one node is retired, the one with the removed entry |
| RcuHashMap.HashMap.Resize | common/concurrency/rcu_hash_map.h:231-250 | the map is the same in a new table of the new size, and the old table is retired |
| RcuHashMap.HashMap.Size | common/concurrency/rcu_hash_map.h:195-197 | the cardinality of the map |
| RcuHashMap.HashMap.DestroyTable | common/concurrency/rcu_hash_map.h:219-228 | the destructor deletes every node made for the table and not unlinked since, and each once |
| RcuHashMap.HashMap.DeleteChain | common/concurrency/rcu_hash_map.h:221-226 | the inner loop deletes the nodes of the chain in order |
| RcuHashMap.KeyOnce | common/concurrency/rcu_hash_map.h:84-104 | a key sits in one node only, on the chain of bucket hash mod size, and that node has the map's value |
| RcuHashMap.ChainLength | common/concurrency/rcu_hash_map.h:221-226 | the length of a chain is the number of nodes that walking it meets |
| RcuHashMap.TableNodesOnce | common/concurrency/rcu_hash_map.h:219-228 | walking all chains of a table meets each of its live nodes once and no other |
| TsoMemory.StoreLoadReordering | common/store_buffer/challenge.cc:73-124 | both loads of the store-load litmus can return 0 iff the stores are not seq_cst |
| TsoMemory.SeqCstForbids | common/store_buffer/challenge.cc:73-124 | with seq_cst stores no run ends with both loads 0 |
| SpscRing.AndMask | common/store_buffer/store_buffer.h:58-59 | bitwise and with a power of two minus one is the remainder |
| SpscSafety.MaskIs | common/store_buffer/store_buffer.h:110-127 | masking a 64-bit index that has wrapped gives the slot of the unbounded counter |
| SpscSafety.StepInv | common/store_buffer/store_buffer.h:70-130 | every step of the two threads and every drain of a store buffer keeps the ring's invariant |
| SpscTheorems.PoppedIsPrefix | common/store_buffer/store_buffer.h:70-130 | in every run the popped items are a prefix of the pushed ones, whole and in order, and at most Capacity slots are taken |
| SpscTheorems.QueueStep | common/store_buffer/store_buffer.h:104-130 | every step leaves the queue alone, appends the producer's item to a queue with room, or takes exactly its head |
| SpscTheorems.PopReturnsWhatItTook | common/store_buffer/store_buffer.h:86-130 | in every run a pop that returns hands over exactly the item that one step of its call took from the queue, or reports that there is none and has taken none |
| SpscTheorems.PushReturnsWhetherItPut | common/store_buffer/store_buffer.h:70-115 | in every run a push returns true iff one step of its call appended its item, and no call appends twice |
| SpscTheorems.CallsWaitFree | common/store_buffer/store_buffer.h:70-130 | a call that has not returned has taken fewer than width + 5 steps of its own, and waits for nothing but its own store buffer |
| SpscTheorems.PublishedStep | common/store_buffer/store_buffer.h:70-130 | what both threads can see is a bounded FIFO too, moved only by drains of the index stores |
| SpscTheorems.PushFails | common/store_buffer/store_buffer.h:104-109 | a push is turned away iff queued items and pops still in the consumer's buffer fill the capacity |
| SpscTheorems.PopFails | common/store_buffer/store_buffer.h:121-126 | a pop finds nothing iff every queued item still waits in the producer's store buffer |
| SpscTheorems.SeqCstExact | common/store_buffer/store_buffer.h:70-95 | with seq_cst operations a push fails iff the visible queue is full, a pop iff it is empty, and a finished operation is visible |
| SpscTheorems.ReleasePopMisses | common/store_buffer/store_buffer.h:104-130 | a run with release stores in which a pop misses a one-word item whose push has returned |
| SpscBuffer.RingBuffer.TryPush | common/store_buffer/store_buffer.h:70-79 | appends the item iff fewer than Capacity are queued, else changes nothing, with wrapping indices |
| SpscBuffer.RingBuffer.TryPop | common/store_buffer/store_buffer.h:86-95 | takes the oldest item, or reports that the queue is empty |
| SpscBuffer.FullTest | common/store_buffer/store_buffer.h:71-91 | wrapped differences and comparisons of the indices are those of the unbounded counters |
| ProtectedState.TransferConserves | common/locks_under_the_hood/locks_under_the_hood.h:281-289 | a transfer keeps the sum of the balances modulo 2^64 |
| ProtectedState.ReplayMoves | common/locks_under_the_hood/locks_under_the_hood.h:281-289 | after any transfers sequence counts them, balance_a has gained the sum of their amounts and balance_b lost it, modulo 2^64 |
| ProtectedState.TransferUndone | common/locks_under_the_hood/locks_under_the_hood.h:281-289 | a transfer loses nothing: from the state after it and its amount every field before it can be computed, the mixed buckets included |
| ProtectedState.XorBits | common/locks_under_the_hood/locks_under_the_hood.h:285-288 | bit k of an exclusive or is set iff the two bits differ |
| ProtectedState.ReplayConserves | common/locks_under_the_hood/locks_under_the_hood.h:281-289 | any transfers keep the sum of the balances modulo 2^64 |
| ProtectedState.Account.ApplyTransfer | common/locks_under_the_hood/locks_under_the_hood.h:281-289 | the eight fields become those of one transfer: sequence one more, the amount added to balance_a and taken from balance_b, modulo 2^64, and the buckets mixed |
| FutexLock.StepInv | common/locks_under_the_hood/locks_under_the_hood.h:374-481 | every step of any of the three locks keeps exclusion, remembered sleepers and half-done transfers consistent |
| FutexLock.MutualExclusion | common/locks_under_the_hood/locks_under_the_hood.h:374-481 | in every run at most one thread is in the critical section, and the word is 0 iff none is |
| FutexLock.TransfersSerialise | common/locks_under_the_hood/locks_under_the_hood.h:281-289 | whenever the lock is free the data is that of exactly the transfers whose last field has been stored, run one after the other, with the amounts their Lock calls asked for: sequence is their number, the balances are 1000000 plus and minus the sum of the amounts, modulo 2^64 |
| FutexLock.OneTransferPerCall | common/locks_under_the_hood/locks_under_the_hood.h:374-481 | in every run each call makes exactly one transfer, complete before the lock is given up |
| FutexLock.SleeperRemembered | common/locks_under_the_hood/locks_under_the_hood.h:377-398 | while a thread sleeps, a holder will find 2, or a wake is under way, or an awake thread is about to put the 2 back |
| FutexLock.UnlockWakes | common/locks_under_the_hood/locks_under_the_hood.h:393-398 | an unlock makes the wake call iff it finds 2; with a sleeper it does, unless a wake or an exchange that leads to one is already under way |
| FutexLock.NeverAllAsleep | common/locks_under_the_hood/locks_under_the_hood.h:377-480 | no reachable state has a sleeper and nobody awake who can move, also with spurious wakeups, 40 spins and spurious CAS failures |
| FutexLock.SpinningEnds | common/locks_under_the_hood/locks_under_the_hood.h:408-480 | a call spins at most 40 times, in fewer than 80 steps of its own, and not at all in RawFutexMutex |
| FutexLock.NoKernelCalls | common/locks_under_the_hood/locks_under_the_hood.h:377-480 | as long as no thread has given up spinning, nobody sleeps and no unlock makes a wake call |
| FutexLock.HeldMeansSleep | common/locks_under_the_hood/locks_under_the_hood.h:377-476 | a thread that finds the lock held and is not disturbed is asleep after exactly one look, 40 spins or none, an exchange unless it saw 2, and the wait call, and the word is 2 |
| FutexLock.FreeTaken | common/locks_under_the_hood/locks_under_the_hood.h:377-466 | an undisturbed caller or spinner that finds the lock free takes it with 1 in the word |
| FutexLock.WokenTakes | common/locks_under_the_hood/locks_under_the_hood.h:386-476 | an undisturbed woken thread that finds the lock free takes it with 2 in the word |
| Seqlock.StepInv | episodes/high_performance/10_locks_under_the_hood/challenge.cc:128-154 | every step of any reader or writer keeps the sequence-lock invariant |
| Seqlock.Snapshot | episodes/high_performance/10_locks_under_the_hood/challenge.cc:128-154 | a payload accepted by the even-and-unchanged test is one writer's complete payload, the newest during the whole attempt |
| Seqlock.AcceptsEven | common/concurrency/seqlock.h:101-122 | no protocol's test accepts an odd counter |
| Seqlock.EvenIsQuiet | common/concurrency/seqlock.h:81-94 | an even counter means that the data is the newest complete version |
| Seqlock.NeverTornIff | common/locks_under_the_hood/locks_under_the_hood.h:155-180 | in every run and for every call during which the counter does not wrap, the payload returned is one writer's and was current at some moment of the call, for the mutex-guarded and the single-writer protocol, and not for the do-while reader |
| Seqlock.EvenIsCurrent | common/locks_under_the_hood/locks_under_the_hood.h:164-180 | a call of any of the three readers returns a payload current during the call if, for the do-while reader, the counter is even in the step that returns |
| Seqlock.EvenStartsSuffice | common/locks_under_the_hood/locks_under_the_hood.h:168-173 | so does a call that finds an even counter every time it starts over |
| Seqlock.UpdateWritesOnce | episodes/high_performance/10_locks_under_the_hood/challenge.cc:145-153 | in every run an update that returns has made its own argument the newest version in exactly one of its steps |
| SeqlockAlone.ReadAlone | episodes/high_performance/10_locks_under_the_hood/challenge.cc:128-143 | a reader that finds an even counter and is not disturbed returns the data after one pass, whatever it copied before |
| SeqlockAlone.UpdateAlone | episodes/high_performance/10_locks_under_the_hood/challenge.cc:145-153 | an update that nobody disturbs stores its payload, moves the counter on by two and ends outside |
| Seqlock.DoWhileTears | common/locks_under_the_hood/locks_under_the_hood.h:155-180 | a run in which the do-while reader returns half of one payload and half of another |
| BroadcastFrame.AlignedHolds | common/shared_memory/broadcast_ring_buffer.h:192-192 | the 32-bit padded size holds the payload with under eight bytes to spare iff the length is at most 2^32 - 8 |
| BroadcastFrame.TotalExact | common/shared_memory/broadcast_ring_buffer.h:198-200 | the 32-bit frame size is header plus padded size, and the padded size holds the payload, iff the length is at most 2^32 - 32 |
| BroadcastFrame.DecodeEncode | common/shared_memory/broadcast_ring_buffer.h:167-186 | header fields read back as written |
| BroadcastFrame.PutGet | common/shared_memory/memory_map.cc:118-142 | bytes stored through the mirrored mapping read back, also across the end of the ring |
| BroadcastFrame.PutKeeps | common/shared_memory/memory_map.cc:118-142 | stores within one capacity leave the bytes beside them alone |
| BroadcastFrame.IntactKept | common/shared_memory/broadcast_ring_buffer.cc:182-203 | stores behind a frame and within one capacity of its start leave header and payload as committed |
| BroadcastSafety.StepInv | common/shared_memory/broadcast_ring_buffer.cc:120-457 | every step of the producer and of any reader keeps the ring's invariant |
| BroadcastTheorems.Backpressure | common/shared_memory/broadcast_ring_buffer.cc:135-174 | in every run the producer, claimed bytes included, is at most one capacity ahead of every protected reader, in spite of the cached minimum and the slot-by-slot scan |
| BroadcastTheorems.Delivery | common/shared_memory/broadcast_ring_buffer.cc:120-457 | in every run a protected reader has received exactly the committed messages from its start to its cursor: in order, once each, type, timestamp and bytes as committed |
| BroadcastTheorems.SpanStable | common/shared_memory/broadcast_ring_buffer.cc:245-276 | the span of PollZeroCopy shows the committed payload for as long as a protected reader holds it |
| BroadcastTheorems.CommittedAsStored | common/shared_memory/broadcast_ring_buffer.cc:196-207 | what is committed is the bytes the caller left in the claimed region |
| BroadcastTheorems.CommittedAsAsked | common/shared_memory/broadcast_ring_buffer.cc:120-207 | in every run the frame that a Reserve leads to is published where the producer stood, with the length and type asked for |
| BroadcastTheorems.ReserveDecides | common/shared_memory/broadcast_ring_buffer.cc:120-140 | a Reserve is refused iff the padded frame exceeds the ring, and scans iff it would end more than one capacity beyond the cached minimum |
| BroadcastTheorems.FramesStay | common/shared_memory/broadcast_ring_buffer.cc:196-207 | committed messages are only ever added to |
| BroadcastTheorems.NeverLapped | common/shared_memory/broadcast_ring_buffer.cc:245-341 | a poll of a protected reader fails only with no data, and PollCopy never has to retry |
| BroadcastTheorems.LatestIsGood | common/shared_memory/broadcast_ring_buffer.cc:209-461 | registering at GetLatestCursor(), with a slot free, makes a protected reader iff neither the cached minimum nor, past its slot, the minimum of a scan under way is beyond that cursor; always so between a Commit and the next Reserve |
| BroadcastWitness.LatestCanBeLapped | common/shared_memory/broadcast_ring_buffer.cc:135-174 | a run in which a reader registers at GetLatestCursor() while a frame is being filled, stays active, is never found stale, and is lapped |
| BroadcastOvertaken.LappedIff | common/shared_memory/broadcast_ring_buffer.cc:135-174 | while no scan is under way, a reader that stays active at its cursor is lapped in some continuation iff the producer can claim more than one capacity beyond it below its cached minimum, without another scan; in no continuation otherwise, whatever the other readers do |
| BroadcastOvertaken.CanOvertakeIs | common/shared_memory/broadcast_ring_buffer.cc:126-140 | that is the case iff the claim is already that far, or the room below the cached minimum, in whole steps of 8, holds a header and reaches that far |
| BroadcastTheorems.ProtectionEndsIff | common/shared_memory/broadcast_ring_buffer.cc:154-243 | a step ends a reader's protection iff it evicts its slot, unregisters that slot, or is the late cursor store of a reader that lost the slot |
| BroadcastWitness.LateStore | common/shared_memory/broadcast_ring_buffer.cc:434-457 | a run in which an Advance passes its generation test, its reader is evicted and replaced, and its cursor store then sets the new reader's cursor back and ends its protection |
| BroadcastTheorems.AdvancePublishes | common/shared_memory/broadcast_ring_buffer.cc:434-457 | the Advance of a protected reader always reaches its slot |
| BroadcastWait.ScanReaders | common/shared_memory/broadcast_ring_buffer.cc:145-167 | one pass evicts exactly the stale readers and returns the smallest cursor of the active rest, or the target |
| BroadcastWait.ExitsIff | common/shared_memory/broadcast_ring_buffer.cc:169-170 | the producer goes on iff no active reader is more than one capacity behind its target |
| BroadcastWait.AdvanceDropsLag | common/shared_memory/broadcast_ring_buffer.cc:434-457 | an Advance takes exactly its bytes off the readers' total lag |
| BroadcastWait.EvictionDropsLag | common/shared_memory/broadcast_ring_buffer.cc:156-162 | an eviction takes off all of that reader's lag |
| BroadcastWait.WaitBounded | common/shared_memory/broadcast_ring_buffer.cc:144-173 | after at most lag minus capacity moves of readers that are behind, the next pass exits |
| BroadcastWait.SmallLagExits | common/shared_memory/broadcast_ring_buffer.cc:169-170 | a total lag of at most one capacity lets the producer go on |
| BroadcastWait.WaitMeasure | common/shared_memory/broadcast_ring_buffer.cc:144-173 | while the producer waits in the concurrent ring, a step raises the lag iff it registers a reader below the target or sets the cursor of an active slot back to below the target; cursor stores and evictions change it by exactly what the slot gains |
| BroadcastWait.ProtectedLag | common/shared_memory/broadcast_ring_buffer.cc:144-173 | as long as only protected readers store cursors, nothing but a registration raises the lag |
| BroadcastWait.PassAlone | common/shared_memory/broadcast_ring_buffer.cc:144-173 | an undisturbed pass of the machine is ScanReaders, and exits iff no active reader that is not stale is more than one capacity behind |
| BroadcastWait.CaughtUpExits | common/shared_memory/broadcast_ring_buffer.cc:126-173 | a pass that finds every active reader stale or caught up exits, since a frame never exceeds the ring |
| BroadcastWait.ClaimAlone | common/shared_memory/broadcast_ring_buffer.cc:176-194 | a Reserve that need not wait returns after the stores of the header and the claim |
| BroadcastWait.CommitAlone | common/shared_memory/broadcast_ring_buffer.cc:196-207 | a Commit ends after its two stores, with the frame published as it was filled |
| BroadcastBatch.PollCopy | common/shared_memory/broadcast_ring_buffer.cc:278-341 | with the producer at rest: no data, lapped, or exactly the next committed message |
| BroadcastBatch.Advance | common/shared_memory/broadcast_ring_buffer.cc:434-457 | the cursor moves; if the slot's generation is still the reader's, the slot is kept and shows the new cursor; if not, no slot changes and the reader has none |
| BroadcastBatch.PollCopyBatch | common/shared_memory/broadcast_ring_buffer.cc:343-432 | returns min(max, pending) messages in order before whatever longer contents the vector had, and leaves cursor, slot and published cursor as one Advance over that many frames, or nothing changed |
| BroadcastBatch.PollOneByOne | common/shared_memory/broadcast_ring_buffer.cc:278-457 | PollCopy and Advance in turn: same messages, count, cursor and slot as one batch |
| BroadcastBatch.CopyFrames | common/shared_memory/broadcast_ring_buffer.cc:355-420 | the batch loop copies frames until max, the commit cursor, or a lap |
| BroadcastBatch.CopyFrame | common/shared_memory/broadcast_ring_buffer.cc:360-411 | the retry loop yields the frame's message and size unless the reader was lapped |
| BroadcastBatch.ProtectedPending | common/shared_memory/broadcast_ring_buffer.cc:278-432 | every protected reader of the concurrent ring meets what PollCopyBatch assumes whenever the producer pauses |
| BroadcastPolls.AdvanceAlone | common/shared_memory/broadcast_ring_buffer.cc:434-457 | the steps of an Advance that nobody disturbs, generation test and cursor store, do what the call of BroadcastBatch does |
| BroadcastPolls.PollAlone | common/shared_memory/broadcast_ring_buffer.cc:245-341 | the steps of a PollZeroCopy or PollCopy that nobody disturbs end in no data, lapped, or exactly the next committed message |
| BroadcastPolls.LappedFails | common/shared_memory/broadcast_ring_buffer.cc:245-292 | a poll of either kind that finds the claimed end more than one capacity ahead fails as lapped |
| BroadcastPolls.CorruptFails | common/shared_memory/broadcast_ring_buffer.cc:262-312 | a poll of either kind that finds an impossible length fails as corrupt |
| BroadcastSlots.TurnedAwayIff | common/shared_memory/broadcast_ring_buffer.cc:209-243 | in every run the generation test of a reader's Advance passes iff the number of readers registered in its slot since it registered is a multiple of 2^32; otherwise it lets go of the slot, and no slot changes |
| BroadcastSlots.ActiveIsHeld | common/shared_memory/broadcast_ring_buffer.cc:209-243 | in every run an active slot, which the producer waits for, is that of the reader that registered in it last, which has neither unregistered nor been turned away |
| BroadcastLapped.CopiesOneMessage | common/shared_memory/broadcast_ring_buffer.cc:278-341 | with frames of one size, a PollCopy that returns OK has one sealed message exactly, that of its frame or of a later lap, however often it was lapped |
| BroadcastLapped.EvenStable | common/shared_memory/broadcast_ring_buffer.cc:182-203 | a slot's version never falls, and while it stays at an even value nothing in the slot changes |
| BroadcastLapped.StepCells | common/shared_memory/broadcast_ring_buffer.cc:182-338 | every step of producer and lapped readers keeps the slot invariant |
| BroadcastUniform.StepShows | common/shared_memory/broadcast_ring_buffer.cc:120-341 | when every frame has one size that divides the capacity, each step of the byte ring is a step of the cells or none, and the bytes, cursors and readers keep showing the cells, with versions modulo 2^32 |
| BroadcastLappedRuns.CopiesOneFrame | common/shared_memory/broadcast_ring_buffer.cc:278-341 | in every such run over a zeroed ring, a PollCopy that returns OK, of any reader, evicted or not, has copied exactly the message of one sealed frame, at its cursor or a later one in the same place |
| Mlp.GradW2Exact | episodes/ai/02_how_ai_learns/benchmark.cc:81-119 | moving w2[o,h] by eps moves the loss by exactly eps times grad_w2 plus eps^2 hidden_h^2 / (2 out_dim) |
| Mlp.GradW1Exact | episodes/ai/02_how_ai_learns/benchmark.cc:69-135 | moving w1[h,i] of a unit that stays active moves the loss by exactly eps times grad_w1 plus eps^2 x_i^2 sum_o w2[o,h]^2 / (2 out_dim) |
| Mlp.InactiveFlat | episodes/ai/02_how_ai_learns/benchmark.cc:121-125 | a unit that stays inactive leaves the loss alone, and its gradient is 0 |
| Mlp.HiddenRectifies | episodes/ai/02_how_ai_learns/benchmark.cc:71-79 | every hidden activation is at least 0, at least its weighted sum, and equal to one of the two |
| Mlp.InactiveContributesNothing | episodes/ai/02_how_ai_learns/benchmark.cc:71-93 | whatever the weights that leave an inactive unit, predictions and loss are the same |
| Mlp.DeadPredictsZero | episodes/ai/02_how_ai_learns/benchmark.cc:71-93 | with no unit active every prediction is 0 |
| Mlp.LossMeasures | episodes/ai/02_how_ai_learns/benchmark.cc:81-92 | the loss is never negative, 0 iff the predictions are the target, and with one output half the squared error |
| MlpBackprop.TwoLayerMlp.constructor | episodes/ai/02_how_ai_learns/benchmark.cc:44-59 | a new network has the requested shape and zero gradients |
| MlpBackprop.TwoLayerMlp.Forward | episodes/ai/02_how_ai_learns/benchmark.cc:69-93 | the loops compute hidden activations, predictions and the mean of the halved squared errors, which is 0 iff the predictions are the target |
| MlpBackprop.TwoLayerMlp.BackwardReverseMode | episodes/ai/02_how_ai_learns/benchmark.cc:104-136 | grad_w2 is the gradient; each row of grad_w1 is the gradient for an active unit and unchanged for an inactive one; the weights stay |
| MlpBackprop.GradientIff | episodes/ai/02_how_ai_learns/benchmark.cc:121-135 | grad_w1 is the gradient iff the rows of the inactive units were zero before |
| MlpBackprop.StaleRow | episodes/ai/02_how_ai_learns/benchmark.cc:121-125 | two inputs after which a row of grad_w1 is 1 where the gradient is 0 |
| PointerChase.GeneratePointerChaseRing | common/measurement/entropy_generator.h:74-95 | for every size and every random source the table is one cycle: place i is i hops from slot 0, no fewer than n hops return |
| PointerChase.SingleCycle | common/measurement/entropy_generator.h:88-92 | linking any order of the slots gives a single cycle through all of them, from every start |
| PointerChase.HopIs | common/measurement/entropy_generator.h:88-92 | k hops from place i of the order lead to place i + k, around the end |
| PointerChase.Link | common/measurement/entropy_generator.h:88-92 | the loop makes each slot point to the next one in the order and the last to the first |
| PointerChase.Shuffle | common/measurement/entropy_generator.h:82-86 | the shuffle leaves slot 0 first and every slot in the order once |
| PointerChase.EveryOrder | common/measurement/entropy_generator.h:82-86 | every order of the slots behind slot 0 comes out for some random source |
| PointerChase.Iota | common/measurement/entropy_generator.h:79-80 | the order starts as 0, 1, 2, ... |

## Left out

- Weak memory everywhere but in the SPSC ring: reclamation, hash map, locks, sequence locks and broadcast ring use
  sequentially consistent interleavings. In particular the fence that x86 would need between the pin store and the
  loads behind it is not modelled.
- Reuse of addresses: allocation always yields a new one.
- Batches of an unregistered thread: the source never collects them, so `EpochReclaims.TwoCollectionsFreeAll` is about
  registered threads. That collections are called at all is up to the clients.
- Epoch, broadcast cursor and table size overflow at 2^64; `Retire(nullptr)`, which does nothing; the
  `generation_` counter of the hash map, which nothing reads.
- The order of the control block list: a new block is appended and the scan runs down the indices, which is the order
  that prepending gives.
- Leaving or unregistering without a matching enter: the machine pairs them as `EbrGuard` does; what an unpaired
  `UnregisterThread` breaks is `EpochSafety.UnregisterKeepsPinsIff`.
- The version loop inside `Get` over a node's `seq` field: nothing ever writes that field. A node's constructor is one
  step with the store that publishes it.
- What a hash map with no initial buckets does: its first bucket index divides by zero. `~RcuHashMap`, which requires
  that no other thread is left.
- `RcuHashMap.HashMap.Find` and the other methods of that class: one caller at a time; the races are in RcuTheorems.
- SpscRing: a `Capacity` of 0 passes the static_assert and is covered by the machine, where every push fails; the class in SpscBuffer has at
  least one slot.
- Seqlock.Snapshot: assumes that the 64-bit counter does not go all the way around during one attempt to read.
- Seqlock.NeverTornIff: the same, for one call.
- Fairness and progress of the locks beyond `FutexLock.NeverAllAsleep`: which waiter gets in, and when.
- Broadcast ring: `RegisterReader` is one step, although it marks the slot active before it stores the cursor, and
  `Reserve` and `Commit` alternate in one producer. A `payload_size` above 2^32 - 32 is modelled only where `Reserve` turns
  it away for lack of capacity. Any capacity is covered; `Attach` takes at most 1 GiB.
- BroadcastOvertaken.LappedIff: stated for readers that are there while no scan is under way.
- Heartbeats and clocks of the broadcast ring: whether a reader is stale is an arbitrary choice of each scan step.
- The second loads of type and timestamp in `PollCopy`, which fill `header_out` beside the message.
- Lapped readers among frames of different sizes: the code gives no guarantee.
- BroadcastLapped.CopiesOneMessage: on cells, versions do not wrap and cursors count frames; BroadcastLappedRuns carries
  it to bytes.
- BroadcastLappedRuns.CopiesOneFrame: assumes that fewer than 2^31 - 1 frames are committed between the version load of an
  attempt and its comparison, so that a 32-bit version cannot come around, and that polls start at multiples of the
  frame size.
- BroadcastBatch.PollCopyBatch: stated with no producer step in between; the races of single polls are in BroadcastTheorems
  and BroadcastLapped.
- `Create`, `Attach`, `Unlink`, mapping flags, permissions and the exact error texts.
- Rounding in the network: weights and activations are reals; the initial weights are arbitrary.
- `NaiveTASLock` and the TTAS locks, `ShardedHashMap`, `UpdateInvariants`, counters, filters, dispatch examples,
  benchmarks, scripts and slides: single loops or branches that would only add easy members.
