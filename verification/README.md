# Verified models of the concurrent programs and algorithms

The repository is a collection of small C programs on Linux system programming. This Dafny project models the ones
that hold a real protocol, data structure or algorithm, and proves what they promise over all inputs, all
interleavings and all runs. `dafny verify dfyconfig.toml` checks everything.

| files | what they model |
|---|---|
| `RefTable*.dfy` | the two-lock table of reference-counted objects, as a machine of interleaved steps of any number of threads over a heap with address reuse; its two client programs; the exact condition for its safety; the progress of every call; and what each call does undisturbed |
| `HashChains.dfy` | the bodies of the same three functions as they run undisturbed, on objects linked and unlinked in place |
| `CopyRing.dfy`, `CopyWritten.dfy`, `CopyRuns.dfy`, `CopyLoss.dfy` | the io_uring file copier that reuses request slots: its steps, its runs under every order of completions and with short or failed transfers, and the jobs on which some order loses data |
| `RingIndex.dfy`, `SubmissionRing.dfy` | free-running masked 32-bit ring indices, and the raw submission and completion rings over them |
| `WindowedWriter.dfy` | two writers with a bounded number of outstanding writes, over one ring |
| `BoundedBuffer.dfy` | the shared-memory bounded buffer with three semaphores, any size, any number of processes |
| `WorkStack.dfy` | the condition-variable work stack with spurious wakeups |
| `DeferredSignal.dfy` | the deferred-signal protocol, with a signal between any two steps |
| `JobTable.dfy`, `JobControl.dfy`, `Pipeline.dfy` | the job-control shell: its nested linked lists, its wait loop, its in-place list pass, and the descriptor plumbing of a pipeline |
| `Bpf.dfy`, `Supervisor.dfy` | a classic-BPF interpreter with the two seccomp filters, and the user-space supervisor |
| `Primes.dfy`, `PrimeSearch.dfy`, `Sieve.dfy`, `PrimeCount.dfy` | trial division, the search for the first n primes, the sieve, and a lower bound on the number of primes that says when its table is large enough |
| `Counting.dfy`, `Basics.dfy` | sums over sequences, used to count threads, tokens and references; bytes, options and powers of two |

Locks, semaphores, condition variables, `waitpid`, `fork` and the kernel side of the rings are nondeterministic steps,
or arbitrary streams given as parameters. Steps are atomic and sequentially consistent.

## What the proofs found

* `foo_rele` decrements the count to zero, drops `f_lock`, and only then takes `hashlock` (`mutexdual.c` lines 75-81).
  While one releaser is parked there, `foo_find` can revive the object and a second releaser can park on it too. That is
  harmless as long as the object stays alive; if one of them goes on to unlink it, the other touches freed memory. The
  condition is exact: a run is safe, and no fault is five steps away, exactly if in none of its states another releaser is
  parked on an object about to be unlinked (`RefTableHypothesis.RunSafeExactly`, `UnlinkAloneExact`). It can be violated
  by a plain sequence of calls (`TwoParkedArise`, `SomeRunFaults`). Both client programs keep their creator's reference
  while others run, so that no object ever has two parked releasers.
* The last loop of `mutexdualarg.c` says it releases all remaining references; each of its finds takes a reference
  first, so the net effect is zero, no object is freed and every count ends at exactly one (`RefTableClients.ManyObjects`).
* The file copier depends on the order of completions: a write that completes early lets the next block into a slot that
  is still to be written. It copies every file of a given size in every order exactly if it has one slot, or if the file
  is no longer than its slots' buffers together (`CopyLoss.CopiesExactly`); for every other number of slots, buffer size
  and file size some file and some order end with every byte counted and a wrong destination
  (`CopyLoss.SomeOrderLoses`). In every job the copy is right if reads are started in idle slots only, in particular if
  writes complete in ring order (`CopyRuns.CopyFile`).
* The copier never asks again for what a short, empty or failed transfer left out: its loop ends exactly if all transfers
  were full, and otherwise the program comes to wait for a completion with nothing in flight (`CopyRuns.EndsExactly`).
  What it has counted then is what it has written (`CopyRuns.CountedIsWritten`).
* The sieve's bound `20 * n` decides whether it prints n primes: exactly if the n-th prime is at most `20 * n`
  (`Sieve.SieveAgrees`), which holds for every n up to 52428 (`Sieve.SieveSuffices`).
* The sieve stays within 32-bit ints exactly for n up to 107369779 (`Sieve.Sieve`), because of the last square it tests.
* `uringwritefull.c` computes its offsets in 32-bit ints, which is right exactly for at most 2^25 writes
  (`WindowedWriter.OffsetsFit`).
* In the shell, every child but the last of a pipeline keeps the read end of its own output pipe open
  (`Pipeline.PipesMeet`).
* A child's `dup2`/`close` sequence closes a descriptor with its first use. It gives the child its standard streams
  exactly if no stream is overwritten or closed before it is moved, and a descriptor used twice has its second stream
  already in place (`Pipeline.StdioExact`; for whole jobs `Pipeline.PipelineStdioExact`). So descriptors that do not
  clash are always right; clashing ones are right too in the few cases where the stream was that file from the start, as
  at a terminal (`Pipeline.SharedTerminal`); and 0 as the output never is (`Pipeline.OutputZeroLost`).
* The supervisor also stops after a request whose pathname it rejected, if the refused bytes were "/bye": no later
  request is answered (`Supervisor.RejectedBye`).
* The comments on the two flags of `sigflag.c` (lines 14-18) are swapped: `defer_signal` defers, `signal_pending`
  records. The model follows the code.
* The shell's comment says that waiting blocks until all processes of the job have reported (`minishell_glibc.c` lines
  114-115); the loop also ends when recording a report fails.

## Model

| member | source | states |
|---|---|---|
| RefTableInvariant.KeepNext | Code/Mastering Processes and Threads/mutexdual.c:39 | writing f_next of an object nobody else can see keeps the whole invariant: chains, locks, counts, walks of all threads |
| RefTableInvariant.KeepPublish | Code/Mastering Processes and Threads/mutexdual.c:40 | linking puts exactly fp in front of its bucket and keeps the invariant |
| RefTableInvariant.KeepGrab | Code/Mastering Processes and Threads/mutexdual.c:57-58 | taking a reference under both locks keeps every count equal to the references handed out |
| RefTableInvariant.KeepDrop | Code/Mastering Processes and Threads/mutexdual.c:74-75 | dropping a reference under f_lock alone keeps every count equal to the references handed out |
| RefTableInvariant.KeepUnlink | Code/Mastering Processes and Threads/mutexdual.c:87-96 | unlinking removes fp and only fp, if nobody else is parked on fp |
| RefTableInvariant.KeepFree | Code/Mastering Processes and Threads/mutexdual.c:101-103 | freeing an unlinked object keeps the invariant: no other thread mentions it |
| RefTableInvariant.WalkFind | Code/Mastering Processes and Threads/mutexdual.c:55-56 | one turn of the find loop keeps it on the bucket's chain with no match behind it |
| RefTableInvariant.WalkUnlink | Code/Mastering Processes and Threads/mutexdual.c:88-92 | the unlink walk starts before fp unless fp is the head |
| RefTableInvariant.WalkOn | Code/Mastering Processes and Threads/mutexdual.c:93-94 | the unlink walk stays before fp, so it ends at fp's predecessor |
| RefTableInvariant.LastKnower | Code/Mastering Processes and Threads/mutexdual.c:81-95 | no thread that is not parked on it mentions an object about to be unlinked or owns a reference to it |
| RefTableInvariant.CountsMove | Code/Mastering Processes and Threads/mutexdual.c:58-75 | counts equal references after one thread gains or loses some and the count moves with them |
| RefTableInvariant.ThreadedWithout | Code/Mastering Processes and Threads/mutexdual.c:90-96 | bypassing position k of a chain leaves exactly the other elements threaded, in order |
| RefTableInvariant.NoFault | Code/Mastering Processes and Threads/mutexdual.c:20-108 | under the invariant no thread's next step touches unallocated memory or misuses a mutex |
| RefTableSafety.StepKeepsInv | Code/Mastering Processes and Threads/mutexdual.c:20-108 | every step of every thread keeps the invariant while nobody else is parked on an object about to be unlinked, and links or unlinks objects only at lines 40, 91 and 95 |
| RefTableSafety.StepKeepsGood | Code/Mastering Processes and Threads/mutexdual.c:20-108 | with it, nothing is leaked: an object outside the table has a keeper, a linked one with count zero a releaser that will free it |
| RefTableSafety.RunIsSafe | Code/Mastering Processes and Threads/mutexdual.c:20-108 | over every run of any calls by any number of threads, no step faults and the invariant holds, while nobody else is parked on an object about to be unlinked |
| RefTableSafety.FindIsExact | Code/Mastering Processes and Threads/mutexdual.c:50-67 | foo_find picks the most recently linked object with the id, and returns NULL only when none is linked |
| RefTableSafety.ObjHolderRuns | Code/Mastering Processes and Threads/mutexdual.c:74-76 | a thread that holds an f_lock waits for nobody |
| RefTableSafety.NoDeadlock | Code/Mastering Processes and Threads/mutexdual.c:38-99 | whoever waits is kept waiting by a thread that can run now: hashlock is never wanted while an f_lock is held |
| RefTableSafety.QuiescentIsExact | Code/Mastering Processes and Threads/mutexdual.c:20-108 | when no call runs, all mutexes are free and every object is linked with a count equal to the clients' references, at least one |
| RefTable.HashSpreads | Code/Mastering Processes and Threads/mutexdual.c:6-7 | on 32-bit ints HASH is the remainder by 29, and for negative ids 24 buckets further on |
| RefTableProgress.OwnStepNearer | Code/Mastering Processes and Threads/mutexdual.c:20-108 | every step of a running call brings it nearer to its end: the walks of foo_find and foo_rele advance |
| RefTableProgress.OtherStepKeeps | Code/Mastering Processes and Threads/mutexdual.c:20-108 | no step of another thread sets a call back once it has hashlock or needs it no more |
| RefTableProgress.CallIsBounded | Code/Mastering Processes and Threads/mutexdual.c:38-108 | in every safe run such a call takes no more own steps than there are lines and objects of its bucket ahead of it |
| RefTableProgress.LeftBound | Code/Mastering Processes and Threads/mutexdual.c:38-108 | which is no more than the length of a bucket and seven |
| RefTableCalls.FindWalks | Code/Mastering Processes and Threads/mutexdual.c:55-56 | the find loop, run alone, ends within one step for each object ahead and one more: at line 57 if a linked object has the id, at line 65 otherwise |
| RefTableCalls.FindReturns | Code/Mastering Processes and Threads/mutexdual.c:50-67 | foo_find, called while no mutex is held and run alone, returns the most recently linked object with the id, which has one more reference, or NULL exactly if there is none, and changes nothing else |
| RefTableCalls.AllocReturns | Code/Mastering Processes and Threads/mutexdual.c:20-47 | so run, foo_alloc returns after six steps a new object with the id and count one in front of its bucket |
| RefTableCalls.ReleReturns | Code/Mastering Processes and Threads/mutexdual.c:70-108 | so run, foo_rele returns: the count is one less, or exactly this object has left its bucket and the heap |
| RefTableClients.NotLast | Code/Mastering Processes and Threads/mutexdual.c:75 | a releaser does not see zero while another thread holds a reference |
| RefTableClients.SharingOneParked | Code/Mastering Processes and Threads/mutexdual.c:110-148 | the client discipline of main and its workers excludes two parked releasers |
| RefTableClients.SharingIsSafe | Code/Mastering Processes and Threads/mutexdual.c:110-148 | for any number of workers and every interleaving: no fault, count at least one until main's release, object freed exactly once and table empty at the end |
| RefTableClients.PinningOneParked | Code/Mastering Processes and Threads/mutexdualarg.c:109-175 | a client that releases an object only while main has another reference to it excludes two parked releasers |
| RefTableClients.PinningIsSafe | Code/Mastering Processes and Threads/mutexdualarg.c:109-175 | every run of such a client is safe, nobody ever parks and no object is ever freed |
| RefTableClients.ManyPins | Code/Mastering Processes and Threads/mutexdualarg.c:170-174 | main of the program is such a client: what it releases is what it just found, so it holds it twice |
| RefTableClients.ManyObjects | Code/Mastering Processes and Threads/mutexdualarg.c:109-179 | for any number of objects, workers and ids and every interleaving: no fault, no object freed, and every count exactly one whenever main has joined the workers and is between two turns of its last loop |
| RefTableHypothesis.WalkRuns | Code/Mastering Processes and Threads/mutexdual.c:93-95 | the unlink walk, run alone, ends at fp in as many steps as fp is ahead |
| RefTableHypothesis.BusyUnlinkFaults | Code/Mastering Processes and Threads/mutexdual.c:78-103 | from every state in which another releaser is parked on an object about to be unlinked, five steps of the two make it touch the freed object |
| RefTableHypothesis.LoneUnlinkHarmless | Code/Mastering Processes and Threads/mutexdual.c:87-103 | if nobody else is parked on it, unlinking and freeing an object makes no other thread's next step fault |
| RefTableHypothesis.UnlinkAloneExact | Code/Mastering Processes and Threads/mutexdual.c:78-103 | so in every state of the invariant the condition holds exactly if no such fault impends |
| RefTableHypothesis.RunSafeExactly | Code/Mastering Processes and Threads/mutexdual.c:20-108 | over every run from the empty table, the condition holds in all states exactly if no step faults and no such fault impends in any |
| RefTableHypothesis.TwoParkedFault | Code/Mastering Processes and Threads/mutexdual.c:76-103 | two releasers of one object at line 78, count zero and locks free, run into a step that touches the freed object |
| RefTableHypothesis.TwoParkedArise | Code/Mastering Processes and Threads/mutexdual.c:50-81 | alloc, release, find, release by two threads reach such a state from the empty table |
| RefTableHypothesis.SomeRunFaults | Code/Mastering Processes and Threads/mutexdual.c:70-108 | so some run from the empty table faults, for every id |
| HashChains.Hash | Code/Mastering Processes and Threads/mutexdual.c:6-7 | every id, negative or not, hashes into the table |
| HashChains.Table.Alloc | Code/Mastering Processes and Threads/mutexdual.c:20-47 | a fresh object with count one in front of its bucket, nothing else changed |
| HashChains.Table.Find | Code/Mastering Processes and Threads/mutexdual.c:50-67 | the first object with the id gains one reference, or none exists; no other count and no chain changes |
| HashChains.Table.Rele | Code/Mastering Processes and Threads/mutexdual.c:70-108 | the count goes down by one; at zero exactly this object leaves its chain |
| HashChains.Table.FindAndRelease | Code/Mastering Processes and Threads/mutexdualarg.c:170-175 | a find and a release change no count and no chain |
| HashChains.Bypassed | Code/Mastering Processes and Threads/mutexdual.c:90-96 | the pointers after the unlink spell the chain without its k-th object |
| CopyRing.StartInv | Code/Mastering File IO/uringcopyfile.c:65-78 | the invariant holds before the loop |
| CopyRing.IssueKeepsInv | Code/Mastering File IO/uringcopyfile.c:82-99 | a read into an idle slot keeps it: operations disjoint in slots and bytes, finished plus in-flight bytes equal next_offset, everything else copied |
| CopyRing.MoveKeepsInv | Code/Mastering File IO/uringcopyfile.c:94-133 | so does any transfer of the kernel, in any order |
| CopyRing.ReapKeepsInv | Code/Mastering File IO/uringcopyfile.c:109-145 | so does reaping a completion, read or write |
| CopyRing.OrderMakesIdle | Code/Mastering File IO/uringcopyfile.c:82 | if slots retire in ring order the slot at tail is idle whenever the window has room |
| CopyRing.FullWindowNeedsOrder | Code/Mastering File IO/uringcopyfile.c:81-82 | in a full window, the slot at tail is idle after a write completes exactly if that write was the oldest operation |
| CopyRing.IssueKeepsOrder | Code/Mastering File IO/uringcopyfile.c:81-99 | choosing the slot at tail keeps the operations in ring order behind it |
| CopyRing.ReapKeepsOrder | Code/Mastering File IO/uringcopyfile.c:123-143 | reaping in turn keeps that order |
| CopyRing.AllCopied | Code/Mastering File IO/uringcopyfile.c:80 | under the invariant the exit condition implies that everything is copied and nothing in flight |
| CopyWritten.MoveWritten | Code/Mastering File IO/uringcopyfile.c:94-133 | a transfer keeps the places counted right and all others zero but those a completed write has reached |
| CopyWritten.CutWritten | Code/Mastering File IO/uringcopyfile.c:116-142 | so does a short or failed transfer |
| CopyWritten.ReapWritten | Code/Mastering File IO/uringcopyfile.c:116-143 | so does reaping: a short read becomes a write of the bytes read, and only the bytes of a completed write are counted |
| CopyRuns.IdleFillsCopy | Code/Mastering File IO/uringcopyfile.c:75-146 | every run, in any order of transfers and completions and whatever was short or failed, that starts its reads in idle slots only and exits has copied the file |
| CopyRuns.CutRuns | Code/Mastering File IO/uringcopyfile.c:116-142 | the bytes a short, empty or failed transfer leaves out are lost to the count for ever |
| CopyRuns.EndsExactly | Code/Mastering File IO/uringcopyfile.c:80-146 | every run comes to an end within five events for each byte, and then has exited exactly if all transfers were full, and otherwise waits with nothing in flight |
| CopyRuns.CountedIsWritten | Code/Mastering File IO/uringcopyfile.c:75-146 | in every run with idle fills, whatever was short or failed, as many places of the destination are right as bytes were counted, and the others are zero where no write is completed and not reaped |
| CopyRuns.SmallFillsIdle | Code/Mastering File IO/uringcopyfile.c:81-99 | with one slot, or a slot for every block, all fills are idle, whatever was short or failed |
| CopyRuns.WaitsFull | Code/Mastering File IO/uringcopyfile.c:81-106 | whenever the program waits the window is full or the whole file is asked for |
| CopyRuns.InTurnFillsIdle | Code/Mastering File IO/uringcopyfile.c:81-99 | if transfers are full and writes complete in ring order every read is started in an idle slot |
| CopyRuns.SmallCopies | Code/Mastering File IO/uringcopyfile.c:75-146 | with one slot, or a slot for every block, every order copies the file |
| CopyRuns.CopyFile | Code/Mastering File IO/uringcopyfile.c:75-146 | for every order the kernel chooses and every choice of short and failed transfers the loop ends if all were full, with every byte counted and nothing in flight, and otherwise comes to wait for ever; when it ends the destination is right if fills were idle, if writes completed in ring order, and always for one slot or a slot for every block; also when it waits for ever the bytes counted are bytes written and the others are zero |
| CopyLoss.SomeOrderLoses | Code/Mastering File IO/uringcopyfile.c:80-146 | for every number of slots from two on, every buffer size and every longer file size, some file and some order exit with every byte counted and a wrong destination |
| CopyLoss.CopiesExactly | Code/Mastering File IO/uringcopyfile.c:75-146 | every order copies every file of a size exactly if there is one slot or a slot for every block |
| RingIndex.MaskIsRemainder | Code/Mastering File IO/iouringwrites.c:89 | masking with entries - 1 is the remainder for every power of two |
| RingIndex.SlotIgnoresWrap | Code/Mastering File IO/iouringwrites.c:89-100 | wrapping a 32-bit index around does not change its slot |
| RingIndex.SlotsDistinct | Code/Mastering File IO/iouringwrites.c:88-101 | indices fewer than entries apart never share a slot, entries apart they do |
| RingIndex.SlotAfterNext | Code/Mastering File IO/iouringcopystdin.c:73-87 | advancing the head, wrapped or not, renumbers the slots by one |
| RingIndex.BatchSlotsDistinct | Code/Mastering File IO/iouringwrites.c:88-101 | from any tail the slots of a batch are pairwise distinct exactly if it is not longer than the ring |
| SubmissionRing.Ring.FreeSlot | Code/Mastering File IO/iouringcopystdin.c:96-97 | the masked tail is the slot after the queued elements and none of theirs |
| SubmissionRing.Ring.Push | Code/Mastering File IO/iouringwrites.c:98-100 | storing at the masked tail and advancing it appends to the queue the ring stands for |
| SubmissionRing.Ring.Pop | Code/Mastering File IO/iouringcopystdin.c:67-90 | nothing when the indices are equal, else the oldest element leaves the queue |
| SubmissionRing.Ring.IndicesDiffer | Code/Mastering File IO/iouringwrites.c:111 | head equals tail exactly if the queue is empty, for any wrapped indices |
| SubmissionRing.SubmissionQueue.Prepare | Code/Mastering File IO/iouringwrites.c:89-100 | the entry is appended to the queue of requests; no queued entry is overwritten |
| SubmissionRing.SubmissionQueue.Consume | Code/Mastering File IO/iouringwrites.c:104 | the kernel takes the oldest request |
| SubmissionRing.SubmissionQueue.FillBatch | Code/Mastering File IO/iouringwrites.c:88-101 | the batch is appended: its i-th request writes registered file i with tag 1000 + i |
| SubmissionRing.SubmissionQueue.Submit | Code/Mastering File IO/iouringwrites.c:104-107 | the kernel consumes the requests in submission order |
| SubmissionRing.TagsOfBatch | Code/Mastering File IO/iouringwrites.c:97 | the tags of a batch are 1000 to 1000 + n - 1, once each |
| SubmissionRing.ReapAll | Code/Mastering File IO/iouringwrites.c:109-128 | the reap loop ends and has seen each submitted tag as often as it was submitted, in any completion order |
| SubmissionRing.WriteFiles | Code/Mastering File IO/iouringwrites.c:87-128 | from indices that start anywhere, the i-th request consumed writes registered file i with tag 1000 + i, for each i once, and each tag is seen exactly once |
| WindowedWriter.Ring.Prepare | Code/Mastering File IO/uringwritesync.c:59-69 | within the window the submission queue is never full, and the next block is queued |
| WindowedWriter.Ring.Submit | Code/Mastering File IO/uringwritesync.c:71-75 | submitting keeps the window invariant and leaves exactly the outstanding writes with the kernel |
| WindowedWriter.Ring.Reap | Code/Mastering File IO/uringwritesync.c:77-92 | reaping any completion keeps the window invariant |
| WindowedWriter.WriteSync | Code/Mastering File IO/uringwritesync.c:54-93 | each block is issued once, at i * BS and in order, and reaped once; at each wait as many writes are outstanding as the window and the blocks left allow |
| WindowedWriter.WriteFull | Code/Mastering File IO/uringwritefull.c:65-99 | the same for precomputed offsets; a round reaps all that is ready, so the loop has ended exactly if what the rounds found, each up to the window, adds up to count |
| WindowedWriter.OffsetsFit | Code/Mastering File IO/uringwritefull.c:65 | the 32-bit products i * BS are right exactly for counts up to 2^25 |
| BoundedBuffer.InitInv | Code/Mastering IPC and Terminals/pc_producer.c:12-17 | the initial semaphores and indices satisfy the invariant, for any buffer size |
| BoundedBuffer.Exclusive | Code/Mastering IPC and Terminals/pc_producer.c:21-27 | at most one process is between its wait on mutex and its post |
| BoundedBuffer.CountsKept | Code/Mastering IPC and Terminals/pc_consumer.c:11-20 | every step keeps the three semaphore equations |
| BoundedBuffer.StoredKept | Code/Mastering IPC and Terminals/pc_producer.c:23-25 | no unread item is overwritten and no empty slot is read |
| BoundedBuffer.StepKeepsInv | Code/Mastering IPC and Terminals/pc_producer.c:20-28 | every step of every producer and consumer keeps the invariant |
| BoundedBuffer.BufferIsFifo | Code/Mastering IPC and Terminals/pc_consumer.c:10-20 | in every reachable state empty + full + the processes between wait and post is the buffer size, and items leave in the order they entered |
| BoundedBuffer.ReadAsProduced | Code/Mastering IPC and Terminals/pc_producer.c:20-28 | over every run, what the consumers read is, in order, what the producers produced, up to the items still in the buffer |
| BoundedBuffer.NoDeadlock | Code/Mastering IPC and Terminals/pc_producer.c:20-28 | with a producer and a consumer some process can always step |
| WorkStack.LockKept | Code/Mastering Processes and Threads/pthreadcond2.c:20-44 | the lock's owner is exactly the thread between taking it and giving it back, also through the wait |
| WorkStack.TestsKept | Code/Mastering Processes and Threads/pthreadcond2.c:22-28 | a consumer that tested the stack still sees what it saw, so it never pops an empty stack |
| WorkStack.AlertKept | Code/Mastering Processes and Threads/pthreadcond2.c:22-45 | no step loses a wakeup, although the signal comes after the unlock |
| WorkStack.StepKeepsInv | Code/Mastering Processes and Threads/pthreadcond2.c:15-46 | every step of every thread, spurious wakeups included, keeps the invariant |
| WorkStack.NoWakeupLost | Code/Mastering Processes and Threads/pthreadcond2.c:15-46 | in every reachable state each message is on the stack, held by one consumer or processed, and while one is on the stack some consumer is awake or some producer has still to signal |
| WorkStack.LastInFirstOut | Code/Mastering Processes and Threads/pthreadcond2.c:27-42 | a consumer takes the message of the last push still on the stack, and leaves the stack as it was before that push |
| WorkStack.SomeoneMoves | Code/Mastering Processes and Threads/pthreadcond2.c:15-46 | while a message is on the stack a thread that is neither asleep nor between messages can step |
| DeferredSignal.StepKeepsInv | Code/Mastering Processes and Threads/sigflag.c:21-54 | every step, and a signal between any two steps, keeps flags and trace in agreement |
| DeferredSignal.Standing | Code/Mastering Processes and Threads/sigflag.c:34-53 | in an accepted trace the raises are the regions left in which a signal arrived, less the one still owed |
| DeferredSignal.Unbroken | Code/Mastering Processes and Threads/sigflag.c:23-53 | what an accepted trace promises: no handling inside a region, one raise for each region in which a signal arrived, before the next region |
| DeferredSignal.DeferralIsSafe | Code/Mastering Processes and Threads/sigflag.c:21-76 | in every run: no signal handled during an update, a pending one only in the region or its drain, and exactly one raise per interrupted update by the next one |
| DeferredSignal.HandledWhole | Code/Mastering Processes and Threads/sigflag.c:21-54 | a signal handled on the spot or raised again sees the structure as at the start or wholly updated, never in between |
| DeferredSignal.BackInMain | Code/Mastering Processes and Threads/sigflag.c:31-54 | left alone, the program is back in main within ten lines, with the structure whole and no signal pending or owed |
| JobTable.PlausibleLowers | Code/Mastering Processes and Threads/minishell_glibc.c:94-98 | a recorded report lowers the sum running = 2, stopped = 1, completed = 0 exactly if it is about a process not completed and, when a stop, about a running one |
| JobTable.WaitsAreBounded | Code/Mastering Processes and Threads/minishell_glibc.c:116-123 | after n such reports at least n fewer can come |
| JobTable.CompletedIsForever | Code/Mastering Processes and Threads/minishell_glibc.c:86-112 | no stream of reports resets completed or stopped, or changes which processes there are |
| JobTable.LatestReport | Code/Mastering Processes and Threads/minishell_glibc.c:86-112 | after any stream of reports the first record of a pid has the status of the last one about it, is completed exactly if one said that it ended, stopped exactly if one said that it stopped; no other record changes |
| JobTable.StatusWords | Code/Mastering Processes and Threads/minishell_glibc.c:95 | exit codes and terminating signals are told from stopping signals by the status word |
| JobTable.RecordedUnique | Code/Mastering Processes and Threads/minishell_glibc.c:91-103 | a report determines the new table |
| JobTable.NotifiedOnce | Code/Mastering Processes and Threads/minishell_glibc.c:351-358 | a second pass says nothing and changes nothing |
| JobTable.CompletedIsAnnounced | Code/Mastering Processes and Threads/minishell_glibc.c:342-343 | a pass announces exactly the jobs all of whose processes completed |
| JobTable.StoppedIsAnnounced | Code/Mastering Processes and Threads/minishell_glibc.c:354-355 | a pass announces as stopped exactly the jobs none of whose processes runs, some of whose is not completed, and of which the user has not been told |
| JobTable.NoticesAnnounced | Code/Mastering Processes and Threads/minishell_glibc.c:336-363 | one notice for each such job and each completed one, in list order, and no other |
| JobTable.SurvivorsRemain | Code/Mastering Processes and Threads/minishell_glibc.c:336-363 | what is left are the jobs with a process not completed, in their order, unchanged but that stopped ones are marked |
| JobControl.UnfinishedListed | Code/Mastering Processes and Threads/minishell_glibc.c:344-362 | and in the list their own nodes |
| JobControl.Process.Take | Code/Mastering Processes and Threads/minishell_glibc.c:94-98 | the status is stored; stopped becomes true exactly for a status whose low byte is 127, completed for any other |
| JobControl.Job.IsStopped | Code/Mastering Processes and Threads/minishell_glibc.c:50-57 | true exactly if every process of the list is stopped or completed |
| JobControl.Job.IsCompleted | Code/Mastering Processes and Threads/minishell_glibc.c:60-67 | true exactly if every process of the list is completed |
| JobControl.Shell.Find | Code/Mastering Processes and Threads/minishell_glibc.c:40-47 | the first job with the group, or NULL exactly if there is none |
| JobControl.Shell.Add | Code/Mastering Processes and Threads/minishell_glibc.c:431-432 | the job becomes the head of the list |
| JobControl.Shell.Locate | Code/Mastering Processes and Threads/minishell_glibc.c:91-93 | the first process with the pid over all jobs, or none exists |
| JobControl.Shell.MarkProcessStatus | Code/Mastering Processes and Threads/minishell_glibc.c:86-112 | the first record of the pid takes the status and no other changes; fails exactly if there is no pid or no such process |
| JobControl.Shell.WaitForJob | Code/Mastering Processes and Threads/minishell_glibc.c:116-123 | on every stream of reports the wait stops at the first one that fails or halts the job, and not before; on a plausible stream that is among the first Pending + 1 |
| JobTable.WaitBound | Code/Mastering Processes and Threads/minishell_glibc.c:116-123 | no more than Pending plausible reports leave a wait unfinished |
| JobControl.Shell.Unlink | Code/Mastering Processes and Threads/minishell_glibc.c:344-347 | bypassing a completed job keeps the half-edited list: the jobs kept so far, then the ones not visited |
| JobControl.Shell.Visit | Code/Mastering Processes and Threads/minishell_glibc.c:338-362 | one turn of the pass announces its job exactly if it is news, marks it, keeps or unlinks it, and keeps that invariant |
| JobControl.Shell.DoJobNotification | Code/Mastering Processes and Threads/minishell_glibc.c:330-364 | the list keeps exactly the jobs not completed, in their old order and with stopped ones marked; one announcement for each job completed or newly stopped, in order; unlinked jobs and all processes are untouched |
| Pipeline.StdioExact | Code/Mastering Processes and Threads/minishell_glibc.c:233-248 | for every table, also with files open twice: the child's moves give it its three streams exactly if none is overwritten or closed before its move and a descriptor used twice has its second stream in place already; in particular if the descriptors do not clash |
| Pipeline.OutputZeroLost | Code/Mastering Processes and Threads/minishell_glibc.c:233-242 | a child told to write descriptor 0 writes its input file instead and has no input |
| Pipeline.SharedTerminal | Code/Mastering Processes and Threads/minishell_glibc.c:233-248 | where 0, 1 and 2 are one file, a copy of it serves as input and output at once, although the descriptors clash |
| Pipeline.PipeSpares | Code/Mastering Processes and Threads/minishell_glibc.c:267-273 | a pipe never takes the number of a job's descriptor that is open or has three free numbers below it |
| Pipeline.SetUpPipe | Code/Mastering Processes and Threads/minishell_glibc.c:267-275 | a fresh pipe on two unused descriptors, or the job's output for the last process |
| Pipeline.Adopt | Code/Mastering Processes and Threads/minishell_glibc.c:212-291 | child and shell compute the same group, which the first child founds |
| Pipeline.CleanUp | Code/Mastering Processes and Threads/minishell_glibc.c:293-297 | the shell closes the pipe ends it passed on, each once, and nothing else |
| Pipeline.LaunchOne | Code/Mastering Processes and Threads/minishell_glibc.c:265-299 | one turn of the loop: child k gets its group, inherits exactly the shell's descriptors and the pipe ends around it, and the shell keeps only the next input |
| Pipeline.LaunchJob | Code/Mastering Processes and Threads/minishell_glibc.c:259-299 | for any length: one group for all, each told to read the pipe before it; and unless a pipe can take the number of the job's own closed input or output, every stage plumbed to the next, the shell's table as before, every pipe end closed once and in order |
| Pipeline.PipelineStdioExact | Code/Mastering Processes and Threads/minishell_glibc.c:233-299 | for every table of the shell: all children of a job get their streams exactly if the job's descriptors fit: for one process as in `StdioExact`; for more the output is not 0, the error stream neither 0 nor 1, and if it shares a descriptor it is already in place; in particular if none of them clash |
| Pipeline.PipesMeet | Code/Mastering Processes and Threads/minishell_glibc.c:233-299 | stage k writes the pipe stage k + 1 reads and is the only holder of its write end; the one stray end is the read end it inherited |
| Pipeline.EndsOnce | Code/Mastering Processes and Threads/minishell_glibc.c:293-298 | the close log holds both ends of every pipe of the job, no end twice |
| Bpf.AcceptedReturns | Code/Mastering Processes and Threads/seccomp_unotify.c:183-199 | a program that passes the kernel's check returns, within the number of its instructions |
| Bpf.Relocation | Code/Mastering Processes and Threads/seccomp_unotify.c:163-170 | relative jumps make code behave the same wherever it is placed |
| Bpf.PrologueLaw | Code/Mastering Processes and Threads/seccomp_unotify.c:162-170 | for every body, the prologue kills a wrong architecture or x32 number within five steps, and otherwise behaves as the body with the number loaded |
| Bpf.PrologueAccepted | Code/Mastering Processes and Threads/seccomp_unotify.c:163-184 | the composed program passes the kernel's check exactly if the body does |
| Bpf.NotifyFilterMeaning | Code/Mastering Processes and Threads/seccomp_unotify.c:183-194 | the installed filter notifies exactly on a native mkdir, kills exactly what is not native, allows the rest |
| Bpf.MkdirFilterMeaning | Code/Mastering Processes and Threads/secnotimkdir.c:23-36 | the other filter ignores the x32 bit |
| Bpf.FiltersAgree | Code/Mastering Processes and Threads/secnotimkdir.c:23-36 | the two filters agree exactly on a wrong architecture or a number below the x32 bit |
| Supervisor.GetTargetPathname | Code/Mastering Processes and Threads/seccomp_unotify.c:307-367 | accepts exactly when the file opened, the id is still valid at the second check and a terminator is among the bytes read, however few; the buffer is what the read left |
| Supervisor.PathOkExact | Code/Mastering Processes and Threads/seccomp_unotify.c:320-366 | that is the verdict of the two checks, the length and the terminator together |
| Supervisor.Respond | Code/Mastering Processes and Threads/seccomp_unotify.c:450-495 | the reply has the request's id; EINVAL for a rejected path; CONTINUE exactly for an accepted "./" path, with zero error and value; a value only for a directory made, the length of its path; the errno of a failed mkdir; EOPNOTSUPP for every other path |
| Supervisor.ProperIsAnswer | Code/Mastering Processes and Threads/seccomp_unotify.c:450-495 | only one reply satisfies this |
| Supervisor.HandleNotifications | Code/Mastering Processes and Threads/seccomp_unotify.c:410-518 | on any script of receptions every mkdir request is attempted one honest reply, in order, until one leaves "/bye" in the buffer |
| Supervisor.ExpectedExact | Code/Mastering Processes and Threads/seccomp_unotify.c:422-444 | the requests to be answered are those before the first failure or request of another kind, in order, with interrupted receptions passed over |
| Supervisor.AcceptedIsFresh | Code/Mastering Processes and Threads/seccomp_unotify.c:320-366 | an accepted pathname was read while the notification was valid, and old buffer contents do not show through |
| Supervisor.AnswerIsHonest | Code/Mastering Processes and Threads/seccomp_unotify.c:450-495 | a reply carries its request's id; CONTINUE has zero error and value and only for "./"; success values only for a made directory; a rejected path gets EINVAL |
| Supervisor.EveryRequestAnswered | Code/Mastering Processes and Threads/seccomp_unotify.c:422-518 | every mkdir request gets one honest reply attempt, in order, until one leaves "/bye" in the buffer |
| Supervisor.RejectedBye | Code/Mastering Processes and Threads/seccomp_unotify.c:512-517 | after a rejected request whose refused bytes spell "/bye" no later request is answered, whatever follows |
| Primes.SmallFactor | Code/Mastering Memory/primes.c:8-9 | a composite has a factor no greater than its square root |
| Primes.PrimeBeyond | Code/Mastering Memory/primes.c:35-41 | beyond every number there is a prime, so the search cannot run for ever |
| Primes.FirstPrimesUnique | Code/Mastering Memory/primes.c:33-41 | there is one list of the first n primes |
| PrimeSearch.IsPrime | Code/Mastering Memory/primes.c:6-12 | decides primality; on 32-bit ints a square overflows exactly for the primes from 46340 * 46340 on |
| PrimeSearch.SearchInto | Code/Mastering Memory/primes.c:33-41 | terminates for every n and leaves exactly the first n primes in increasing order |
| PrimeSearch.FirstNPrimes | Code/Mastering Memory/primes.c:26-41 | the same into an array of n elements |
| PrimeSearch.Grow | Code/Mastering Memory/primes2.c:24-28 | the least doubling of the capacity, or of 8, that holds n elements |
| PrimeSearch.GrowFits | Code/Mastering Memory/primes2.c:27-28 | from 8 the doubling stays within a 32-bit int exactly for n up to 2^30 |
| PrimeSearch.FirstNPrimesGrown | Code/Mastering Memory/primes2.c:24-49 | the grown array holds the same first n primes |
| Sieve.SurvivorsArePrime | Code/Mastering Memory/primes3.c:12 | once i * i exceeds k, what survived crossing out is prime |
| Sieve.CrossedAddsNothing | Code/Mastering Memory/primes3.c:13-14 | skipping numbers already crossed out loses nothing |
| Sieve.ClearMultiples | Code/Mastering Memory/primes3.c:14-15 | starting at i * i crosses out exactly the multiples still standing |
| Sieve.MarkPrimes | Code/Mastering Memory/primes3.c:6-17 | the table marks exactly the primes up to its limit |
| Sieve.SquaresFit | Code/Mastering Memory/primes3.c:12-14 | the squares and multiples evaluated are 32-bit ints exactly for limits below 46340 * 46340 |
| Sieve.Sieve | Code/Mastering Memory/primes3.c:5-31 | prints the primes up to 20 n, cut off at n of them; the greatest integer it evaluates is a 32-bit one exactly for n up to 107369779 |
| Sieve.SieveAgrees | Code/Mastering Memory/primes3.c:6-27 | it prints what the search finds exactly if the n-th prime is within its table |
| Sieve.SieveSuffices | Code/Mastering Memory/primes3.c:6-27 | for every n up to 52428 the table is large enough: the sieve prints exactly the first n primes |
| PrimeCount.ManyPrimes | Code/Mastering Memory/primes3.c:6 | with 2m + 1 at most 2^j there are at least 2m / j primes up to 2m + 1, whatever list of them is given |
| PrimeCount.CommonMultipleIsLarge | Code/Mastering Memory/primes3.c:6 | every positive common multiple of 1 .. 2m + 1 is at least 4^m, the bound behind it |

## Left out

- RefTable: the interleaved table is modelled on values (a map of addresses), not on Dafny objects, because threads share
  it; `HashChains` has the same functions on objects, without interleaving. Destroying and freeing are one step (lines
  101-103), and a failed malloc or mutex initialisation changes nothing.
- RefTableSafety.NoDeadlock: says that some thread can run, not that the scheduler lets it; fairness is not modelled.
- RefTableHypothesis.RunSafeExactly: the faults it rules in or out are those of the next step and of one thread finishing
  an unlink it is about to make; that other calls can later violate the condition is what `SomeRunFaults` shows.
- CopyRuns.CopyFile: a failed transfer counts as one of no bytes, which the program treats alike; the destination starts
  as zero bytes of the file's size, so its length after a run that never ends is left out; a completion without data
  (lines 110-114) cannot occur, since every request has data set.
- SubmissionRing.WriteFiles: the bytes written and their length (`strlen` on a raw buffer, line 94) are left out.
- SubmissionRing.ReapAll: the kernel posts every request it consumed at some time; a failed wait is left out.
- WindowedWriter.WriteFull: offsets are unbounded (`OffsetsFit` says where 32-bit ones are right); the polling schedule is
  a finite sequence, and if it runs out the program is still polling.
- BoundedBuffer.BufferIsFifo: processes loop for ever instead of twenty times, and start after the initialisation.
- WorkStack.NoWakeupLost: a message is an integer and the list a sequence; allocation and free are not modelled.
- DeferredSignal.DeferralIsSafe: one kind of signal, and a handler that a second signal does not interrupt.
- JobControl.Shell.WaitForJob: the bound on the number of waits is for plausible streams; with a child continued from
  outside the measure does not go down (`JobTable.PlausibleLowers`) and only the exit condition is stated.
- JobControl.Job: its process list and streams are constants of the object; the list is built before the job and never
  changed by the modelled code.
- Pipeline.LaunchJob: for two processes or more, descriptors are stated only when the job's own stdin and stdout are open
  in the shell or have three free numbers below them, so that no pipe takes their number; pipe and fork succeed; terminal
  modes, signal dispositions and exec are left out.
- Bpf.AcceptedReturns: only the instructions the two filters need, and the kernel's check for them.
- Supervisor.EveryRequestAnswered: whether the kernel accepts a reply is left out; ids are valid until a time and never
  again.
- PrimeSearch.IsPrime: integers are unbounded; the contract says where 32-bit squares would overflow.
- Sieve.Sieve: integers are unbounded, and the contract says where 32-bit ones would overflow; the printed text is the list of numbers.
- mark_job_as_running, continue_job and update_status of the shell: easy next to waiting and notification.
- The request/response pair (cs_client.c, cs_server.c), the futex handshake, the robust mutex (mutextimelock.c), the aio
  poller (aiomonitor.c) and iouringreg.c: they would only add easier protocols of the same kinds.
- Printing, argument parsing, sleeping, error exits, mapping and setting up rings, files and shared memory, sockets,
  terminals and privileges.
- Memory ordering: all steps are atomic and sequentially consistent.
