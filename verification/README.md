# Operating-system course programs, modelled and verified

A Dafny 4.11 model of the programs of an operating-systems course: a boundary-tag
allocator, a green-thread library with a client, Peterson's lock, a simple free-list
allocator and a page-replacement simulator. `dafny verify dfyconfig.toml` checks the
whole project.

| files | what they model |
|---|---|
| `HeapLayout`, `HeapInvariant`, `HeapRuns` | the allocator of `seminar2/dlmalloc.c` as functions on layouts, what each operation keeps, and theorems over whole runs |
| `HeapOrder` | the order of its free list: what each operation does to it and leaves alone, and in which order freed blocks come back |
| `HeapMemory`, `Dlmalloc` | the same allocator on an array of 8192 eight-byte words, updated in place, proved to compute those functions |
| `GreenModel`, `GreenInvariant`, `GreenRuns` | the library of `seminar3/green.c` as a transition system, its invariant, and theorems over whole runs |
| `GreenWritten` | its `green_cond_wait` as written: when threads are lost, when `taken` goes wrong, and when neither |
| `GreenExclusion` | the library as written: who passes and leaves a lock at each step, and exactly which runs keep mutual exclusion |
| `GreenLists`, `Green` | the same library on linked thread records, updated in place, proved to take those steps |
| `TestMutex` | the program `seminar3/test_mutex.c` run by that library, for any number of threads, any loop count and any timing of the interrupts |
| `Peterson` | `locks-assignment/peterson.c`, one shared access per step |
| `Mhysa` | `mylloc-assignment/mhysa.c` |
| `Swapping` | the simulator of `swapping-assignment/bench.c` |
| `Options`, `CTypes`, `LinkedLists`, `Sets` | what several of them use: absent values, C conversions, lists linked by number, set sizes |

**Allocator.** Addresses are byte offsets from `arena`. A word of memory is a header
(two flags and two 16-bit sizes, stores truncated to 16 bits), a link, or raw client
data; the links of a free block lie in the first two words of its payload, which are
client data while the block is live. An abstract heap is the sequence of blocks in
address order and the free list in list order. The class proves that memory, boundary
tags and links agree with it after every call, that no call ever reads a word as
something else than was last written there, and that no call changes a word in the
payload of a block that stays live, so a word the client has stored in keeps its value until
it is stored in again or its block is freed. `merging` selects the variant of `dfree`: `false` is
the code as written, `true` has the call of `merge` enabled that the source keeps in a
comment (seminar2/dlmalloc.c:313-314). Coalescing, the return of a balanced run to the
initial heap, and the exact round trip belong to `merging == true`; growing block
addresses, reuse of the block freed last, and the two conditions on splits belong to
`merging == false`; everything else holds for both. A request is `Sound` in a heap if the
size asked of `find` can be cut off a block, or the first block that fits is not big enough
to be cut. Runs make sound requests only: `DallocTilesExactly` shows that any other request
leaves a block that is unaligned or has no room for two links. `DallocAligned` tells the two
apart; an aligned block without room does its damage when it is freed, because its links then
lie on the header behind it (`LinkWordsClear`).

**Green threads.** SIGVTALRM is blocked in every library call, so a call is one step up
to its `swapcontext`, and the rest of it is another step (`Resume`) after the thread has
been switched to. A timer interrupt is a `green_yield` and may come anywhere in user code,
which includes more runs than the source allows, because `green_thread` starts a function
with the signal still blocked and `green_cond_signal` can return with it blocked. Where
the source would dereference the NULL that an empty ready queue yields, nothing is running
any more; that state is what the deadlock theorems exclude. Threads are numbered in order
of creation, and thread 0 is `main`. The field `owner` of a mutex and the set `holds` of a
thread are specification only, and so are the threads that are `lost`: those the source has
dropped from a queue and refers to nowhere. `Step` releases a mutex in `green_cond_wait` the
way `green_mutex_unlock` does; `StepWritten` and the class on linked records do what the
source does. For the code as written, `RunOnePlace` says exactly which runs keep every thread
in one place, `ExclusionExactly` exactly which keep mutual exclusion, and `RunHonest` exactly
which keep `taken` right; `WrittenRunIsExec` carries every theorem about `Step` over to the
latter. A thread is past locking a mutex if it holds it, or is suspended at its lock and has
been woken. One that holds a mutex and is then lost on the queue of another stays past the
first.

**Peterson.** Sequential consistency is assumed.

## Where the source and its comments disagree

- `adjust` is meant to return a multiple of 8 that is not below the minimum
  (seminar2/dlmalloc.c:187), but returns `size` instead of `minsize` when `minsize` is
  aligned. `AdjustPromise` says for which requests the comment is right,
  `DallocTilesExactly` in which heaps another request leaves a block that is no proper one,
  and `OneByteBreaks` that the first call already can.
- `green_cond_wait` is said to release the lock (seminar3/green.c:224-225), but it clears
  `taken` even when it wakes a waiter that will believe it owns the mutex, and drops the
  other waiters. `WrittenWaitHonest` and `WrittenWaitConserves` say exactly when that
  goes wrong, and `ExclusionExactly` which runs it costs mutual exclusion. `ExclusionBroken`
  gives a run that ends with two threads past locking one mutex, and `WaiterLost` one that
  loses a thread.
- `simulate` is to evict a random page (swapping-assignment/bench.c:33), but never assigns
  `evict`. The model evicts an arbitrary present page.
- The chunk header of `mhysa.c` records a `size_t` in an `int`. `RecordedSize` says when a
  chunk then passes for bigger than it is, `RoomExactly` for which sizes that makes a chunk
  too small, and `HeapLength` for which sizes freed chunks are not found again.

## Model

| member | source | states |
|---|---|---|
| HeapLayout.SpliceTiles | seminar2/dlmalloc.c:56-88 | replacing a run of blocks by any chain of well-sized blocks over the same bytes keeps the tiling of the arena |
| HeapLayout.BlocksApart | seminar2/dlmalloc.c:56-63 | two different blocks of a tiling share no byte, headers included |
| HeapLayout.UnlinkAt | seminar2/dlmalloc.c:146-161 | detaching the k-th listed block closes the gap and keeps the order of the others |
| HeapLayout.UnlinkMember | seminar2/dlmalloc.c:146-161 | detaching removes that one block and leaves no duplicates |
| HeapLayout.FirstFit | seminar2/dlmalloc.c:218-248 | the first position in list order whose block is large enough; everything before it is too small |
| HeapInvariant.FindKeeps | seminar2/dlmalloc.c:211-252 | taking a block, or cutting a multiple of 8 of at least 16 bytes off it, keeps the tiling and the free list exact |
| HeapInvariant.MergeBeforeKeeps | seminar2/dlmalloc.c:259-272 | absorbing a block into a free one before it keeps the tiling; the list then holds all free blocks but the merged one |
| HeapInvariant.MergeAfterKeeps | seminar2/dlmalloc.c:275-285 | the same for a free block after it |
| HeapInvariant.DfreeKeeps | seminar2/dlmalloc.c:308-325 | either `dfree` of a live block keeps the tiling and the free list exact |
| HeapInvariant.FindKeepsCoalesced | seminar2/dlmalloc.c:211-252 | allocation never puts two free blocks side by side |
| HeapInvariant.MergingDfreeKeepsCoalesced | seminar2/dlmalloc.c:254-325 | with `merge`, freeing leaves no two adjacent free blocks |
| HeapInvariant.WrittenDfreeCoalesced | seminar2/dlmalloc.c:308-325 | as written, freeing leaves no two adjacent free blocks exactly when neither neighbour of the freed block is free |
| HeapRuns.AdjustPromise | seminar2/dlmalloc.c:187-204 | over all `size_t` requests the result is aligned, at least the minimum and at least the request exactly for 16 up to INT_MAX - 7 |
| HeapRuns.RunWellFormed | seminar2/dlmalloc.c:56-325 | in every run of `init`, sound `dalloc` calls, either `dfree` and client stores the blocks tile the arena and the free list holds each free block once and nothing else |
| HeapRuns.RunCoalesced | seminar2/dlmalloc.c:254-288 | with `merge` no reachable heap has two adjacent free blocks |
| HeapRuns.RunBalance | seminar2/dlmalloc.c:293-325 | the number of live blocks is the number of successful allocations less the number of frees |
| HeapRuns.BalancedRunRestores | seminar2/dlmalloc.c:254-325 | with `merge`, a run that freed all it allocated ends in the initial heap: one block of 65520 bytes, a list of length 1 |
| HeapRuns.MergingRoundTrip | seminar2/dlmalloc.c:211-325 | with `merge`, a successful `dalloc` and `dfree` of its result restore every address, size and status, and the listed blocks up to order |
| HeapRuns.WrittenRoundTrip | seminar2/dlmalloc.c:211-325 | as written, they restore the blocks exactly when the first block that fits is too small to be split |
| HeapRuns.WrittenRunSplits | seminar2/dlmalloc.c:229-325 | as written, the number of blocks is one more than the number of calls so far that found a first fit big enough to be split |
| HeapRuns.WrittenBalancedRun | seminar2/dlmalloc.c:229-325 | as written, a balanced run is back at the initial heap exactly when no call of it found a first fit big enough to be split |
| HeapRuns.WrittenLeavesSplit | seminar2/dlmalloc.c:229-325 | as written, allocating 16 bytes and freeing them leaves two free blocks |
| HeapRuns.DallocResult | seminar2/dlmalloc.c:211-305 | NULL exactly when every free block is smaller than the adjusted request; otherwise the first fitting block of the list gives its high-address end, a multiple of 8 with at most 23 bytes more than was asked of `find`, and than was requested up to INT_MAX - 7 |
| HeapRuns.LastFreedFirstUsed | seminar2/dlmalloc.c:308-325 | as written, the next request that fits the block freed last is given its high end |
| HeapRuns.MergedFreedReused | seminar2/dlmalloc.c:254-325 | with `merge`, that request is given the high end of the merged block, which reaches into the bytes freed last exactly when no free block that could hold it lay behind them |
| HeapRuns.MergingTakesBehind | seminar2/dlmalloc.c:254-325 | with `merge`, a run of four calls after which the next block is not the one freed last |
| HeapRuns.RestUsedNext | seminar2/dlmalloc.c:229-238 | when the first fit is big enough to be split, its rest is the next block used if the next request fits it |
| HeapRuns.DallocTilesExactly | seminar2/dlmalloc.c:188-248 | for every `size_t` request that is served the heap stays a tiling by blocks that can hold two links exactly when the size asked of `find` is a multiple of 8 and at least 16 or the first fit is too small to be split |
| HeapRuns.DallocAligned | seminar2/dlmalloc.c:66-88 | after every `size_t` request that is served the blocks follow each other without gaps, and they are all aligned exactly when the size asked of `find` is a multiple of 8 or the first fit is too small to be split |
| HeapRuns.SoundRequests | seminar2/dlmalloc.c:188-204 | up to INT_MAX - 7 that condition is a request of at least 16 bytes, or a first fit too small to be split |
| HeapRuns.OneByteBreaks | seminar2/dlmalloc.c:188-248 | a first request for one byte breaks the tiling |
| HeapRuns.DallocRoom | seminar2/dlmalloc.c:188-305 | for every `size_t` request that is served, the block handed out has room for it exactly when the request is at most INT_MAX - 7 |
| HeapRuns.RunSizes | seminar2/dlmalloc.c:69-129 | in every run headers and payloads add up to 65528 bytes, there are at most 2730 blocks, and every size fits 16 bits |
| HeapRuns.RunBlocksApart | seminar2/dlmalloc.c:36-53 | in every run different blocks share no byte, lie below the sentinel and have room for two links |
| HeapRuns.WrittenStartsGrow | seminar2/dlmalloc.c:308-325 | as written, the set of block addresses only grows along a run |
| HeapOrder.DallocOrder | seminar2/dlmalloc.c:211-252 | a successful `dalloc` changes no block but the first that fits, and the other listed blocks stay listed in the same order, behind the rest if there is a split |
| HeapOrder.WrittenDfreeOrder | seminar2/dlmalloc.c:164-325 | as written, `dfree` changes nothing but the status of the block, which goes to the front of the list; the other listed blocks keep their order |
| HeapOrder.MergingDfreeOrder | seminar2/dlmalloc.c:254-325 | with `merge`, the block and its free neighbours become one block at the front of the list, every other block is as it was, and the other listed blocks keep their order |
| HeapOrder.FreedTakenBack | seminar2/dlmalloc.c:211-325 | as written, a request that takes the block freed last without splitting it undoes the `dfree` exactly, the order of the list included |
| HeapOrder.LastInFirstOut | seminar2/dlmalloc.c:211-325 | as written, in every run, blocks freed in a row are handed out again last in, first out by requests that take them whole, and the heap is back where it was |
| HeapMemory.LiveClear | seminar2/dlmalloc.c:36-53 | no word of a live payload is a header or a link of the free list |
| HeapMemory.LinkWordsClear | seminar2/dlmalloc.c:164-179 | among aligned blocks without gaps, the two words in which `insert` stores the links of a block are no header words exactly when it has at least 16 bytes |
| Dlmalloc.Arena.constructor | seminar2/dlmalloc.c:376-379 | `init` makes the heap of one free block |
| Dlmalloc.Arena.Detach | seminar2/dlmalloc.c:146-161 | the stores unlink the block; headers and all words to be kept are untouched |
| Dlmalloc.Arena.Insert | seminar2/dlmalloc.c:164-179 | the stores put the block first in a correctly linked list |
| Dlmalloc.Arena.Split | seminar2/dlmalloc.c:66-88 | the stores cut the high end off a block; one boundary tag is left stale |
| Dlmalloc.Arena.Find | seminar2/dlmalloc.c:211-252 | the loop finds the first fit and makes the specified heap, with all tags right again, if the size can be cut off or no cut is made |
| Dlmalloc.Arena.Merge | seminar2/dlmalloc.c:254-288 | the stores join the block with its free neighbours and unlink those |
| Dlmalloc.Arena.Dalloc | seminar2/dlmalloc.c:293-305 | the pointer is one header past the specified block, and no word of a live payload changes |
| Dlmalloc.Arena.Dfree | seminar2/dlmalloc.c:308-325 | memory then represents the specified heap, and no word of a payload still live changes |
| Dlmalloc.Arena.ClientStore | seminar2/dlmalloc.c:17-20 | an arbitrary client store in a live payload changes nothing of the heap |
| Dlmalloc.Arena.Traverse | seminar2/dlmalloc.c:331-339 | the walk with `after` visits exactly the blocks, each with the tags of its predecessor |
| Dlmalloc.Arena.Sanity | seminar2/dlmalloc.c:341-371 | on any words that link a list, the verdict is the first fault along it up to a block of size 0: not free, not aligned, or a wrong `prev`; an empty list makes it dereference NULL, and every valid heap with something on the list passes |
| Dlmalloc.Arena.FreeListLength | seminar2/dlmalloc.c:381-389 | the length of the free list |
| HeapRuns.DataLive | seminar2/dlmalloc.c:293-325 | in every run a word that is said to hold client data lies in a live payload |
| HeapRuns.StoreLasts | seminar2/dlmalloc.c:293-325 | in every run a word holds what the client stored last, as long as its block has not been freed |
| Dlmalloc.Execute | seminar2/dlmalloc.c:293-325 | any legal sequence of calls and client stores made on memory ends in the heap of the run theorems, with every word of client data as it was stored last |
| GreenInvariant.QueuedAlone | seminar3/green.c:51-72 | a queued thread is alive, not running, not lost, once in its queue and in no other queue or counting `join` field |
| GreenInvariant.StepConserves | seminar3/green.c:76-371 | every legal step of the code as written keeps each living thread in one place or counted as lost, from any such state |
| GreenInvariant.ParkKeeps | seminar3/green.c:147-168 | suspending the running thread on a queue keeps the invariant |
| GreenInvariant.DispatchKeeps | seminar3/green.c:96-103 | running the first ready thread keeps the invariant |
| GreenInvariant.ReleaseKeeps | seminar3/green.c:352-371 | handing the mutex to the oldest waiter, or clearing it, keeps the invariant |
| GreenInvariant.ParkJoinKeeps | seminar3/green.c:176-187 | waiting in the `join` field of a thread nobody else joins keeps the invariant |
| GreenInvariant.RetireKeeps | seminar3/green.c:85-97 | ending a thread and waking its joiner keeps the invariant |
| GreenInvariant.WaitKeeps | seminar3/green.c:226-274 | waiting on a condition with a proper release keeps the invariant |
| GreenInvariant.ResumeKeeps | seminar3/green.c:254-271 | what a call does after its thread is resumed keeps the invariant |
| GreenInvariant.StepKeeps | seminar3/green.c:76-371 | every legal step keeps the invariant |
| GreenInvariant.ExecKeeps | seminar3/green.c:76-371 | so does every run |
| GreenRuns.RunPlaces | seminar3/green.c:51-371 | in every run each living thread is in exactly one place and each zombie in none |
| GreenRuns.BelieverOwns | seminar3/green.c:328-371 | a thread is past locking a mutex, by having returned or by being resumed without another look at it, exactly when the mutex was handed to it |
| GreenRuns.RunExclusion | seminar3/green.c:226-371 | in every run at most one thread is past locking a mutex, and `taken` is set exactly when there is one |
| GreenRuns.RunsAtSwitch | seminar3/green.c:51-72 | in every run the thread at position k of the ready queue runs at the (k+1)-th context switch |
| GreenRuns.WaitersOrder | seminar3/green.c:331-363 | after n releases a mutex queue starts with what was behind its first n waiters, so no later arrival overtakes |
| GreenRuns.OwnsAtRelease | seminar3/green.c:331-363 | a thread that waits behind k others becomes the owner at the (k+1)-th later release |
| GreenRuns.WaitsUntilRelease | seminar3/green.c:331-363 | until then it is still queued and not the owner |
| GreenRuns.ReadyAtSignal | seminar3/green.c:234-286 | a thread that waits on a condition behind k others is made ready by the (k+1)-th later signal |
| GreenRuns.ResumeLegal | seminar3/green.c:186-273 | in every run a thread that has been switched to can go on with its library call; that step ends the call, unless a condition wait has to wait for its mutex, which it does once |
| GreenRuns.YieldsRotate | seminar3/green.c:147-168 | any number n of yields, by program or timer, rotates running thread and ready queue by n places |
| GreenRuns.YieldsRestore | seminar3/green.c:147-168 | yields restore the schedule whenever their number is a multiple of that of the runnable threads |
| GreenRuns.JoinFindsZombie | seminar3/green.c:172-200 | a thread resumed in `green_join` finds the other ended |
| GreenRuns.RunReturned | seminar3/green.c:83-94 | a thread is a zombie exactly when its function has returned, and `retval` is the value it returned |
| GreenRuns.StepDelivers | seminar3/green.c:172-200 | each step that ends a join adds exactly one delivery, of the value the thread left, and no other step adds any |
| GreenRuns.JoinsDeliver | seminar3/green.c:83-200 | in every run the deliveries are, in order, the joins that have returned, each with the value its thread returned, or nothing if that was NULL |
| GreenRuns.JoinDelivers | seminar3/green.c:189-192 | so every delivery is of a value its thread has returned |
| GreenWritten.WrittenWaitConserves | seminar3/green.c:236-245 | as written, a condition wait keeps every thread in one place exactly when at most one thread waits for the mutex |
| GreenWritten.WrittenConserves | seminar3/green.c:51-371 | in every run of the code as written each living thread is in one place or lost, and no zombie is anywhere |
| GreenWritten.RunOnePlace | seminar3/green.c:226-274 | a run of the code as written ends with every living thread in one place exactly if each of its condition waits finds at most one thread waiting for the mutex |
| GreenWritten.LostForever | seminar3/green.c:236-245 | a thread that is lost is never again running, queued or in a `join` field |
| GreenWritten.WrittenReady | seminar3/green.c:51-371 | the ready queue at each step of the code as written: who is made ready goes to its end, a switch runs its head, and nothing runs if it is empty |
| GreenWritten.WrittenRunsAtSwitch | seminar3/green.c:51-371 | in every run of the code as written too, the thread at position k of the ready queue runs at the (k+1)-th switch |
| GreenWritten.WrittenQueues | seminar3/green.c:226-371 | the other queues: callers that cannot go on join at the end, releases and signals serve the head, and a condition wait empties the queue of the mutex it gives up |
| GreenWritten.WrittenCaller | seminar3/green.c:76-371 | each step leaves its caller in user code exactly if its call is over, and else waiting for what the call needs |
| GreenWritten.WrittenWaitHonest | seminar3/green.c:236-245 | as written, `taken` is right about the mutex after a condition wait exactly when nobody waits for it |
| GreenWritten.WrittenWaitIntended | seminar3/green.c:236-245 | the written and the intended release do the same exactly when nobody waits for the mutex |
| GreenWritten.RunHonest | seminar3/green.c:226-274 | `taken` is right about every mutex in all states of a run of the code as written exactly if none of its condition waits finds a thread waiting for the mutex |
| GreenWritten.WrittenRunIsExec | seminar3/green.c:226-274 | a run of the code as written whose condition waits find nobody waiting for the mutex is a run of the model |
| GreenWritten.ExclusionBroken | seminar3/green.c:236-270 | a run of twelve steps of the code as written after which two threads are past locking one mutex, though each is in one place |
| GreenWritten.WaiterLost | seminar3/green.c:236-245 | a run of ten steps of the code as written that loses a thread |
| GreenExclusion.StepBelievers | seminar3/green.c:226-371 | at each step of the code as written, for each mutex: a release replaces the running thread by the first waiter among those past the lock, a thread that takes the mutex joins them, and nothing else changes |
| GreenExclusion.StepExclusive | seminar3/green.c:226-371 | from a state with at most one thread past each lock, a step of the code as written leads to another one exactly if it does not take a mutex that some thread is past locking |
| GreenExclusion.RunExclusive | seminar3/green.c:226-371 | in all states of a run of the code as written at most one thread is past each lock exactly if no step of it takes a mutex that some thread is past locking |
| GreenExclusion.ExclusionExactly | seminar3/green.c:226-371 | equally, exactly if nobody locks a mutex, or takes it back after a condition wait, while a thread woken by a wait that gave it up with others waiting has yet to release it |
| GreenRuns.ChainEndsReady | seminar3/green.c:176-187 | when nothing runs, following who joins whom from any living thread ends at a ready one |
| GreenRuns.ForkJoinNeverStuck | seminar3/green.c:76-200 | a program in which threads join only younger ones, each at most once, never finds the ready queue empty |
| GreenLists.DequeueChains | seminar3/green.c:51-60 | the stores of `dequeue` leave every queue linked and the removed thread with a NULL `next` |
| GreenLists.EnqueueChains | seminar3/green.c:62-72 | the store of `enqueue` leaves every queue linked, given that a thread neither queued nor lost has a NULL `next` |
| GreenLists.DropChains | seminar3/green.c:244 | clearing the head of a queue leaves the other queues linked and its threads lost |
| Green.Scheduler.Dequeue | seminar3/green.c:51-60 | returns the head of the queue, NULL if there is none, and leaves the tail |
| Green.Scheduler.Enqueue | seminar3/green.c:62-72 | the walk to the last record appends the thread to the queue and changes no other |
| Green.Scheduler.OffQueueNextNull | seminar3/green.c:51-72 | the running thread, zombies and joiners have a NULL `next` after every call |
| Green.Scheduler.Create | seminar3/green.c:110-143 | takes the create step: a new living thread, last in the ready queue |
| Green.Scheduler.Yield | seminar3/green.c:147-168 | takes the yield step, for a call or a timer interrupt |
| Green.Scheduler.Join | seminar3/green.c:172-200 | takes the join step; of an ended thread it returns at once with the value that thread left, recorded with joiner and target |
| Green.Scheduler.Terminate | seminar3/green.c:76-106 | takes the step that ends a thread |
| Green.Scheduler.Lock | seminar3/green.c:328-350 | takes the lock step: the mutex at once, or the end of its queue |
| Green.Scheduler.Unlock | seminar3/green.c:352-371 | takes the unlock step, with hand-off to the oldest waiter |
| Green.Scheduler.CondSignal | seminar3/green.c:278-289 | takes the signal step: the oldest waiter becomes ready |
| Green.Scheduler.CondWait | seminar3/green.c:226-255 | takes the wait step as written, for any number of threads waiting for the mutex; with none it is the intended step and keeps the invariant |
| Green.Scheduler.Resume | seminar3/green.c:186-273 | takes the step a call does after being resumed, up to user code or another suspension; a join that had to wait returns with the value the thread left, and no other call returns one |
| Green.Execute | seminar3/green.c:76-371 | any legal sequence of calls made on linked records ends in the state of the run theorems for the code as written |
| TestMutex.SomebodyReady | seminar3/test_mutex.c:49-51 | when nothing runs, following `main` to the thread it joins and that thread to the owner of the mutex ends at a ready thread |
| TestMutex.OneInside | seminar3/test_mutex.c:19-28 | two threads between lock and unlock are one |
| TestMutex.LocalSums | seminar3/test_mutex.c:18-29 | each load, store and loop step keeps every counter equal to what the threads have added to it |
| TestMutex.ActKeeps | seminar3/test_mutex.c:11-31 | every action of the program, every interrupt and every resumption keep the invariant |
| TestMutex.NeverStuck | seminar3/test_mutex.c:35-59 | in every state of every run some thread is running, and until `main` is done it can go on without an interrupt |
| TestMutex.RunLength | seminar3/test_mutex.c:11-59 | a run has at most 2 (n (6 loop + 2) + n + 2) actions, and two more for each interrupt, for n threads |
| TestMutex.Completes | seminar3/test_mutex.c:11-59 | from wherever interrupts have led a run, it can be continued without any until `main` is done |
| TestMutex.SharedIsSum | seminar3/test_mutex.c:18-29 | whenever nobody owns the mutex, `shared` is `zero + one + two`, for any number of threads and any preemption |
| TestMutex.FinalCounts | seminar3/test_mutex.c:35-59 | when `main` is done, `shared` is threads times loop count, and so is each counter for its threads |
| Peterson.StepKeeps | locks-assignment/peterson.c:10-34 | every single read or write keeps the invariant that a thread inside has its turn |
| Peterson.MutualExclusion | locks-assignment/peterson.c:10-19 | under every interleaving at most one thread is between `lock` and `unlock` |
| Peterson.FinalCount | locks-assignment/peterson.c:29-60 | when both threads are done, `count` is `2 * inc` (0 for a negative `inc`) despite the non-atomic increment |
| Peterson.BoundedBypass | locks-assignment/peterson.c:10-15 | once a thread has executed `turn = other`, the other enters at most once before it does |
| Peterson.OneGoesOn | locks-assignment/peterson.c:10-15 | if both threads spin, the one named by `turn` has a false spin condition that stays false until it enters, at its second step at the latest |
| Peterson.NoLockout | locks-assignment/peterson.c:10-19 | a waiting thread has entered once the other has taken 8 steps and then it has taken 2, in any interleaving |
| Peterson.EntersAlone | locks-assignment/peterson.c:10-15 | in every run a thread with work left that runs alone, while the other is at its loop test or done, is between `lock` and `unlock` after at most 4 steps, of a stated number |
| Peterson.Terminates | locks-assignment/peterson.c:29-34 | under any interleaving both threads are done once each has had two steps 14 inc + 2 times over |
| Peterson.AlternatingTerminates | locks-assignment/peterson.c:29-34 | taking turns step by step they are done after 56 inc + 8 steps |
| Peterson.Machine.Tick | locks-assignment/peterson.c:10-34 | one access to the shared variables in place is one step of the model |
| Peterson.RunProgram | locks-assignment/peterson.c:37-62 | under any schedule the program's memory follows the model, a finished run prints `2 * inc`, and every schedule with that many steps for both finishes |
| Mhysa.FirstFit | mylloc-assignment/mhysa.c:26-38 | the first position in list order whose recorded size fits |
| Mhysa.RunPartition | mylloc-assignment/mhysa.c:18-64 | in every run each chunk is either live or on `flist`, once |
| Mhysa.ChunksApart | mylloc-assignment/mhysa.c:41-51 | chunks with their headers tile the heap without gap or overlap |
| Mhysa.GrowsOnlyWhenNeeded | mylloc-assignment/mhysa.c:26-51 | the heap grows exactly when no chunk on the list fits |
| Mhysa.MallocResult | mylloc-assignment/mhysa.c:18-53 | if a listed chunk fits, the first that does is handed out and the others keep their order; if none does, the heap grows by a chunk of that size or NULL is returned; a size of 0 does nothing |
| Mhysa.FreeResult | mylloc-assignment/mhysa.c:56-64 | the freed chunk comes before all others on the list, which keep their order |
| Mhysa.FreedIsReused | mylloc-assignment/mhysa.c:26-61 | a freed chunk that fits the next request is the one handed out |
| Mhysa.RecordedSize | mylloc-assignment/mhysa.c:27-50 | a chunk does not pass for bigger than it is exactly when its size modulo 2^32 is below 2^31, or is within 2^31 of 2^64 |
| Mhysa.RoomEnough | mylloc-assignment/mhysa.c:18-53 | as long as earlier requests were of sizes at which a chunk does not pass for bigger than it is, a chunk handed out has room for the request |
| Mhysa.RoomExactly | mylloc-assignment/mhysa.c:18-53 | runs with requests of one size leave room for whatever is asked next exactly if the size modulo 2^32 is below 2^31, or the size is within 2^31 of 2^64 |
| Mhysa.TooSmall | mylloc-assignment/mhysa.c:27-50 | a run in which a chunk of 2 GiB serves a request of 4 GiB |
| Mhysa.ChunksArePeak | mylloc-assignment/mhysa.c:18-64 | with requests of one size that a freed chunk is seen to fit there are as many chunks as were ever live at a time |
| Mhysa.HeapLength | mylloc-assignment/mhysa.c:18-64 | with requests of one size the heap is, in every run, (size + 16) times the peak number of live chunks long, exactly if the size is below 2^31 or its remainder modulo 2^32 is not |
| Mhysa.Allocator.Malloc | mylloc-assignment/mhysa.c:18-53 | the walk over the linked chunks computes the specified heap and pointer |
| Mhysa.Allocator.Free | mylloc-assignment/mhysa.c:56-64 | puts the chunk first in a correctly linked list |
| Mhysa.Execute | mylloc-assignment/mhysa.c:18-64 | any legal sequence of calls made on linked chunks ends in the heap of the run theorems |
| Swapping.ClearPageTable | swapping-assignment/bench.c:8-12 | no page is present, and entries beyond `pgs` are unchanged |
| Swapping.FramesFull | swapping-assignment/bench.c:27-39 | a miss with all frames taken means fewer frames than distinct pages |
| Swapping.RepeatsHit | swapping-assignment/bench.c:20-38 | whichever pages are evicted, there are at least as many hits as references to the page of the reference before |
| Swapping.Simulate | swapping-assignment/bench.c:14-43 | there is a table for each reference: a hit leaves it, a miss fills a frame or replaces one present page, and `hits` is the number of references present in their table; hits are at most references less distinct pages, with equality when the frames suffice, and the pages left are pages referenced, the last one among them |

## Left out

- System calls (`mmap`, `sbrk`, `getcontext`, `makecontext`, `swapcontext`, signals, timers): a fresh arena, a heap end that may or may not grow, points at which a thread goes on, and preemption at any point stand for them; a failing `mmap` is not modelled.
- Printing, benchmarks and file output (`seminar2/bench.c`, `seminar2/benchtaken.c`, `mylloc-assignment/bench.c`), and the observer `sizes`: input and output only, or a copy of what is shown for the list length.
- The layout without `TAKENSTRUCT`: the same proof with other constants.
- Double free, foreign pointers, a second `init`, locking a mutex one holds, unlocking one that one does not hold: preconditions.
- Dlmalloc.Arena.Dalloc: does not accept a request that would have `find` cut a block to a size below 16 or no multiple of 8; HeapRuns.DallocTilesExactly shows that some block is then unaligned or has no room for two links, which memory in whole words and links inside payloads cannot represent. Signed overflow in `adjust` is modelled as wrap-around.
- Dlmalloc.Arena.Find: does not accept such a size in a heap where it would be cut off, for the same reason.
- Dlmalloc.Arena.Split: does not cut such sizes, for the same reason.
- The branch of `find` for a block that fits, the two halves of `merge`, and the pair of stores that changes a status are methods of their own; those two stores always come in the order of `dfree`.
- GreenModel: at most one joiner per thread, as a second one overwrites the `join` field; freeing a joined thread's context and allocating stacks are not modelled; mutexes and condition variables exist from the start.
- TestMutex: the loop of `test` is a state machine over its loads, stores and calls, because other threads run in between; counters are unbounded integers, and the counting loop before it has no effect.
- Peterson: `count` and the loop counter are unbounded integers; weak memory is not modelled.
- Mhysa.Allocator.Malloc: the address arithmetic of `sbrk` does not overflow, the heap grows contiguously, and a request that `sbrk` takes for a negative increment either fails or grows the heap like any other.
- Swapping.Simulate: needs at least one frame, without which the eviction loop of the source never ends, and page numbers within the table.
- `seminar3/test_cond.c`, `seminar3/test_timer.c`, `seminar3/test_final.c` as programs: they call `green_cond_wait` with the wrong arity, can lose a wake-up under preemption, or reach the release problem above.
- `locks-assignment/swap.c`, `contexts-assignment`, `tlb-assignment`, `swapping-assignment/random.c`, `mylloc-assignment/mylloc.c`, `hellodolly-assignment`, `signals-assignment`, `stack-assignment`, `seminar1`: single runs, demonstrations, or simpler copies of what is here.
