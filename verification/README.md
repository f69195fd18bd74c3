# JULEA in Dafny

JULEA is a client/server storage framework. This project models the parts of it whose correctness is least
obvious, the concurrent protocols, the batching of operations, the wire formats, the request loops of the server
and the traversals, and proves what they promise for every input, every interleaving and every sequence of calls.

Code that changes state step by step is modelled as classes and methods with loops, each proved against a
specification function; code that several threads run at once is a state machine whose steps are the atomic actions
of the code, and its theorems range over every run (`IsRun`). Where the code does not keep a promise, the model
does what the code does, a lemma names an input or a run, and another one gives the exact condition.

| module | what it models |
|---|---|
| `FileCache` | the cache of open files of the POSIX object backend: one table per thread over one global table |
| `PosixIo` | the loops around `pread` and `pwrite` |
| `ConnectionPool` | the bounded pool of connections to a server |
| `OperationCache` | the queue, the flag and the condition variable between clients and the worker thread |
| `BatchExecution` | how a batch is cut into groups of like operations |
| `BatchLife` | when the operations of a batch run, under each consistency level |
| `Cache` | the byte budget from which batches are given buffers |
| `Message`, `BackendOperation` | the message buffer and the codec for the parameters of backend operations |
| `DbRequests` | the database requests of the server |
| `ObjectRead`, `ObjectWrite` | the object requests of the server, on the bump allocator |
| `DirIterator` | the directory walk and the object listing on top of it |
| `KvScan`, `KvListing` | prefix scans over LevelDB, LMDB and GDBM, and the listing of pairs across the network |
| `Parallel` | background operations and the parallel map |
| `List` | the linked list and its iterator |
| `Basics` | bytes, optional values, integer widths |

## Findings

What the proofs turned up, each with the lines it comes from and its exact condition:

- `lib/core/jconnection-pool.c:195-215`: a failed connect keeps its slot. Waiting threads have nobody to wait for if
  and only if every slot taken so far was lost in this way (`ConnectionPool.StarvedIffSlotsLost`, with the run
  `FailedConnectStrands`).
- `lib/core/joperation-cache.c:353-361`: flush returns early if and only if a push found the flag down again and
  nothing has set it since (`OperationCache.EarlyIffUnmarkedPush`, with the run `EarlyFlushRun`), and a push finds the
  flag down if and only if the worker finished its last batch after the flag was raised
  (`OperationCache.UnmarkedIffFinishBetween`). A flush is a barrier exactly as far as that does not happen
  (`OperationCache.BarrierIffNoneUnmarked`), and shutdown then clears a pointer that the worker still needs
  (`OperationCache.ShutdownFindsWork`).
- `lib/core/joperation-cache.c:120-123`: only one flushing thread is woken. Another is left asleep if and only if the
  worker finishes the last batch while two or more flush (`OperationCache.LostWakeup`, with the run
  `LostWakeupRun`); it sleeps until the worker finishes another batch (`OperationCache.SleepsWithoutWork`).
- `lib/core/jbatch.c:239-247`: operations of an eventual batch run out of order if and only if an execute runs them
  directly while earlier ones wait, either because no buffer was granted or because the execute found the flag down
  with batches waiting (`BatchLife.OrderIffNoOvertaking`, `BatchLife.OvertakesOnlyStale`, with the sequences
  `RefusedBufferReorders` and `EarlyFlushReorders`); an immediate batch overtakes batches of others in the same case,
  and in no other (`BatchLife.RunsAfterEarlier`, `BatchLife.StaleIsOvertaken`). Since the
  size asked for is always zero (`lib/core/joperation-cache.c:175-208`) and a buffer of no bytes is NULL
  (`Cache.EmptyLooksRefused`), every request for a buffer looks refused.
- `lib/core/jcache.c:111-116`: a request whose 64-bit check overflows can pass it; with a budget of at most half of the
  address space the allocation then stops the program, so the books balance in every run (`Cache.OverflowStops`,
  `Cache.RunBalanced`, with the run `OverflowPasses`).
- `lib/core/jcache.c:139-143`: a release leaves the mutex locked if and only if its buffer is not out
  (`Cache.LockedIffUnknown`).
- `lib/core/jbatch.c:375-396`: an operation without a function has its data handed to the function that comes after it;
  every operation gets its own function and data if and only if none lacks either
  (`BatchExecution.FaithfulIffComplete`, with `NullFunctionMisdirected`).
- `lib/core/jbackend-operation.c:212-222`: the encoder announces more than it writes if and only if a blob has a length
  but no data (`BackendOperation.WrittenIsAnnounced`).
- `server/loop.c:802-808`, `server/loop.c:836-845`: if a batch cannot be started, the zeroed documents of the template
  are marked as initialised and destroyed, for every request; otherwise marks and destructions are sound
  (`DbRequests.DocumentsSoundIff`). Nothing wrong is sent, since those documents have length zero
  (`DbRequests.SentIsSound`).
- `server/loop.c:787-790`: in a started batch the client is told the truth about a request if and only if no request
  before it failed; a skipped one looks successful (`DbRequests.ToldTheTruthIff`, with `SkippedLooksSuccessful`). The
  result of the whole batch is right all the same (`DbRequests.WholeIsTrue`).
- `backend/object/posix.c:348-356`, `backend/object/posix.c:386-394`: an interrupted `pread` or `pwrite` at a total of
  zero reports 2^64 - 1 bytes; any other interruption is harmless (`PosixIo.Read`, `PosixIo.File.Write`). The server
  then attaches a segment that reaches beyond its memory (`server/loop.c:247-250`, `ObjectRead.Handle`).
- `server/loop.c:293-299`: an oversize object write leaves its data on the connection, where the next request takes it
  for its own (`ObjectWrite.InStepIff`, with `OversizeShifts`).
- `backend/kv/leveldb.c:118-119`: two namespaces disturb each other if and only if one, with its colon, starts with the
  other (`KvScan.ExactIffApart`, with `ColonClash`).
- `lib/kv/jkv-iterator.c:242`: a pair with an empty value ends the listing of its server; the client gets everything if
  and only if there is none (`KvListing.CompleteIff`, with `EmptyValueHides`).

## Model

| member | source | states |
|---|---|---|
| `FileCache.StepKeeps` | backend/object/posix.c:74-277 | every atomic step of create, open, close, delete and thread teardown keeps the invariant that ties thread tables, global table, reference counts, descriptors and the lock together |
| `FileCache.RunInv` | backend/object/posix.c:74-277 | the invariant holds in every state of every interleaving of any number of threads |
| `FileCache.RefCountExact` | backend/object/posix.c:74-149 | a handle's count is the number of thread tables that hold it, plus the threads that removed it and have not finished unref, plus the lock holder that is passing it on; it is at least 1 unless the lock holder is destroying the handle |
| `FileCache.SamePathSameHandle` | backend/object/posix.c:114-245 | threads that hold a handle for one path hold the same object, the one in the global table, with an open descriptor that no other object has |
| `FileCache.ClosedExactlyOnce` | backend/object/posix.c:74-96 | close is called only on an open descriptor whose handle nobody refers to, nothing else closes a descriptor, and opens equal closes plus live handles |
| `FileCache.InsertNeverReplaces` | backend/object/posix.c:114-149 | no insertion into a thread table or into the global table replaces an entry, so nothing is released under the lock |
| `FileCache.LockDiscipline` | backend/object/posix.c:98-200 | a thread holds the lock exactly in the critical sections: in particular after a lookup that missed, never outside, never when about to lock |
| `FileCache.LockIsReleased` | backend/object/posix.c:114-200 | on every path the holder takes at most four steps while it keeps the lock |
| `FileCache.NoDeadlock` | backend/object/posix.c:98-277 | while any thread is inside the backend or being torn down, one of them can move |
| `FileCache.ShutdownAssertion` | backend/object/posix.c:512-521 | with the lock free, the global table is empty if and only if no thread has a handle in its table or one to unref; then no handle lives and every descriptor opened is closed |
| `FileCache.CallShape` | backend/object/posix.c:74-277 | in every run, every call of a thread takes exactly the steps of one of the five paths of the code, in order, however others interleave; when it is back, its table is what it was, with or without the path |
| `FileCache.OpenDelivers` | backend/object/posix.c:151-245 | create and open come back with the handle of the path in the table of the thread, the one in the global table, with that path and an open descriptor, and the rest of the table as it was; or, exactly if the open failed, with the table as it was; the file is opened once on a miss and not at all on a hit |
| `FileCache.CloseDelivers` | backend/object/posix.c:247-277 | close and delete come back with the handle gone from the table and the rest as it was, after one decrement, and with the handle destroyed if that was the last reference |
| `FileCache.LookupAndCount` | backend/object/posix.c:74-132 | a lookup hits exactly what is in the global table, a decrement takes one from the count and destroys the handle exactly at zero, and a handle in the own table is used without any change |
| `FileCache.TeardownEnds` | backend/object/posix.c:98-112 | an exiting thread opens nothing more, its table only shrinks, and it is gone with an empty table after at most seven steps per handle, and one |
| `FileCache.NobodyIsRefused` | backend/object/posix.c:151-277 | a thread outside the backend can get any path and release any handle it has, and an open can end either way |
| `PosixIo.Read` | backend/object/posix.c:327-367 | what is reported as read is what the calls have moved, and it stands in the file at the offset; a short read without an error has reached the end of the file; the total is wrong if and only if an interruption comes at a total of zero |
| `PosixIo.File.Write` | backend/object/posix.c:369-405 | the file is the old one overwritten at the offset with a prefix of the data that is at least as long as reported, with all of it on success; what is reported is what the calls have moved; the total is wrong under the same condition |
| `PosixIo.OverwriteMore` | backend/object/posix.c:380-395 | a pwrite that starts within what has been written extends it or repeats part of it, whatever the kernel moved |
| `PosixIo.WrittenStands` | backend/object/posix.c:384 | what is written stands at its place, the rest of the file is as it was, and a gap is zero |
| `PosixIo.CountIs` | backend/object/posix.c:348-356 | adding -1 to the total steps back one byte, or to 2^64 - 1 from zero |
| `PosixIo.InterruptedAtOnce` | backend/object/posix.c:348-356 | the first call of a read interrupted: the total is 2^64 - 1 |
| `ConnectionPool.RunInv` | lib/core/jconnection-pool.c:170-280 | slots and places are accounted for in every state of every interleaving |
| `ConnectionPool.CounterAccounting` | lib/core/jconnection-pool.c:180-269 | the counter is the reserved slots plus the pending rollbacks; the slots never exceed the bound; a rollback is pending only when all are taken |
| `ConnectionPool.BlocksOnlyWhenFull` | lib/core/jconnection-pool.c:185-269 | a thread blocks because of the bound only while every slot is taken |
| `ConnectionPool.ExactlyOnePlace` | lib/core/jconnection-pool.c:170-280 | every connection made is in exactly one place, once in the queue or with one holder, and no other exists |
| `ConnectionPool.StarvedIffSlotsLost` | lib/core/jconnection-pool.c:195-269 | there is no connection anywhere if and only if all slots taken were lost to failed connects; while connects succeed, nobody waits in vain |
| `ConnectionPool.LostForever` | lib/core/jconnection-pool.c:205-215 | once all slots are lost no thread gets a connection again |
| `ConnectionPool.FailedConnectStrands` | lib/core/jconnection-pool.c:205-215 | the shortest run into that state |
| `ConnectionPool.PopDelivers` | lib/core/jconnection-pool.c:170-269 | in every run, every pop goes one of the five ways through the code and comes back with exactly one connection that the thread did not have: the head of the queue, which has left it, or the one it made |
| `ConnectionPool.PushDelivers` | lib/core/jconnection-pool.c:271-280 | push puts exactly its connection at the end of the queue, and the thread has it no more |
| `ConnectionPool.CounterDecides` | lib/core/jconnection-pool.c:187-189 | the counter decides at the check and again at the reservation, and only the reservation and its rollback change it |
| `ConnectionPool.PopCanGoOn` | lib/core/jconnection-pool.c:170-280 | a thread in pop can go on unless it waits at an empty queue; a connect can end either way |
| `OperationCache.ExecutedOnceInOrder` | lib/core/joperation-cache.c:94-129 | in every run, executed batches, the one in hand and the queue are, one after the other, the batches pushed |
| `OperationCache.StepEarly` | lib/core/joperation-cache.c:353-361 | the one step by which the flag comes to be down while work is pending |
| `OperationCache.FlushSeesFlagDown` | lib/core/joperation-cache.c:266-273 | in every run, the flush of a client is over, however often it has slept, only when it has seen the flag down |
| `OperationCache.FlushLooks` | lib/core/joperation-cache.c:268-271 | at first and after every wakeup, a client goes to sleep if and only if the flag is up |
| `OperationCache.MayWake` | lib/core/joperation-cache.c:268-271 | a sleeping thread may wake up for no reason, and is then about to look at the flag |
| `OperationCache.FlushSynchronises` | lib/core/joperation-cache.c:259-276 | with flag and push as one step, the flush of a client is over only with an empty queue, an idle worker and everything executed |
| `OperationCache.AtOnceIsBoth` | lib/core/joperation-cache.c:353-361 | that one step is the two steps of the code with nothing in between |
| `OperationCache.AddDelivers` | lib/core/joperation-cache.c:353-361 | after the flag has been raised for a batch, the next thing its client does is to push that batch |
| `OperationCache.CanGoOn` | lib/core/joperation-cache.c:94-129 | while anything is pending the worker can go on, and so can every client that does not sleep |
| `OperationCache.EarlyIffUnmarkedPush` | lib/core/joperation-cache.c:94-129 | as written, flush can return with work pending if and only if a push found the flag down and nothing has set it since |
| `OperationCache.EarlyFlushRun` | lib/core/joperation-cache.c:353-361 | a run in which the worker finishes between the two steps of add and flush returns before the batch is executed |
| `OperationCache.UnmarkedIffFinishBetween` | lib/core/joperation-cache.c:116-118 | after a client has raised the flag it is down if and only if the worker has finished a batch with an empty queue since, and nothing has set it after that |
| `OperationCache.BarrierIffNoneUnmarked` | lib/core/jbatch.c:259-263 | when the flush of a client is over, the batches pushed and not executed are as many as the pushes that found the flag down since it was last written, less those executed since; so an immediate batch runs after every eventual batch handed over before it if and only if these are equal |
| `OperationCache.ShutdownFindsWork` | lib/core/joperation-cache.c:232-257 | when the flush of fini is over, the worker has exactly that many buffers to release through the pointer that is cleared next; none with flag and push as one step |
| `OperationCache.StepStuck` | lib/core/joperation-cache.c:116-125 | a flush is newly left asleep with the flag down exactly when the worker finishes the last batch with two or more waiting |
| `OperationCache.LostWakeup` | lib/core/joperation-cache.c:116-125 | in every run, some flush has been left asleep with the flag down if and only if the worker has finished the last batch while two or more were flushing |
| `OperationCache.LostWakeupRun` | lib/core/joperation-cache.c:116-125 | a run in which the second of two flushing threads is left asleep with nothing to do |
| `OperationCache.SleepsUntilWoken` | lib/core/joperation-cache.c:268-271 | a thread in flush sleeps until the worker signals it or it wakes up for no reason |
| `OperationCache.SleepsWithoutWork` | lib/core/joperation-cache.c:268-271 | a thread left asleep after the last batch sleeps as long as nothing is pushed, spurious wakeups aside |
| `BatchExecution.ExecuteInternal` | lib/core/jbatch.c:361-405 | the loop over the operations executes exactly the parts of the specification, in order, and returns the conjunction of their results |
| `BatchExecution.ExecuteAppend` | lib/core/jbatch.c:195-218 | executing one more part composes worlds and conjoins results |
| `BatchExecution.ExecutesMaximalRuns` | lib/core/jbatch.c:361-405 | the parts are the maximal runs of one function and key: they concatenate to the list, each is uniform, neighbours differ |
| `BatchExecution.MaximalRunsUnique` | lib/core/jbatch.c:375-396 | there is only one way to cut a list into maximal runs |
| `BatchExecution.GroupingPreservesMeaning` | lib/core/jbatch.c:361-405 | if functions act as the sequential composition of their elements, the final state and the result are those of running the operations one at a time |
| `BatchExecution.FaithfulIffComplete` | lib/core/jbatch.c:375-396 | every operation is executed with its own function and data, in order, if and only if none lacks either |
| `BatchExecution.NullFunctionMisdirected` | lib/core/jbatch.c:375-396 | the data of an operation without a function goes to the next function |
| `BatchExecution.EmptyPartFails` | lib/core/jbatch.c:195-218 | a part without a function or without data changes nothing and makes the batch fail |
| `BatchExecution.BatchesMeanOneByOne` | lib/core/jbatch.c:361-405 | however operations are spread over batches, the batches leave the world as the operations would one at a time |
| `BatchLife.Batch.AddOperation` | lib/core/jbatch.c:318-329 | adds at the end of the list |
| `BatchLife.Batch.TakeRef` | lib/core/jbatch.c:134-144 | one reference more, nothing else |
| `BatchLife.Batch.TestAll` | lib/core/joperation-cache.c:292-310 | TRUE if and only if every operation can be cached |
| `BatchLife.Batch.HandOver` | lib/core/joperation-cache.c:353-361 | the flag is raised, anything may happen, and the whole list goes to the end of the queue |
| `BatchLife.Batch.Flush` | lib/core/joperation-cache.c:259-276 | waits while the flag is up, with whatever others do meanwhile, and returns when it is down |
| `BatchLife.Batch.Execute` | lib/core/jbatch.c:220-273 | what each consistency level does: nothing for a session or an empty list; a whole list handed over, or run at once for want of a buffer; and otherwise a flush, after which the list is the last thing run and everything queued at the call has been run before, unless the flag was down with batches waiting; the value returned is what the functions of the list return, when it is run |
| `BatchLife.Batch.DropRef` | lib/core/jbatch.c:146-179 | the last reference runs a session batch and frees the operations of any other |
| `BatchLife.CacheWorker.ExecuteInternal` | lib/core/jbatch.c:361-405 | the world is changed and the result is as the grouped execution says, and the log grows by the batch |
| `BatchLife.Batch.WorldIsLog` | lib/core/jbatch.c:361-405 | at any time the world is what running the operations of the log one at a time makes of it |
| `BatchLife.ExecuteDoes` | lib/core/jbatch.c:220-273 | the same outcome, level by level, for every sequence of things that happen meanwhile |
| `BatchLife.FlushWaitsForAll` | lib/core/joperation-cache.c:259-276 | a flush that waits, and sees the flag down in the end, has waited for everything that was queued |
| `BatchLife.MeanwhileIsEvents` | lib/core/joperation-cache.c:353-361 | whatever happens meanwhile is a sequence of events, so the theorems below cover it |
| `BatchLife.RunsAtMostOnce` | lib/core/jbatch.c:146-273 | over every sequence of events every operation added is in exactly one place: run, queued, listed, or freed |
| `BatchLife.RefsCounted` | lib/core/jbatch.c:134-179 | the count is one plus the references taken minus those dropped |
| `BatchLife.SessionRunsAtTheEnd` | lib/core/jbatch.c:146-179 | session operations run at the last unref and never before, all of them in order |
| `BatchLife.ExecuteEmptiesList` | lib/core/jbatch.c:237-266 | whenever execute of an immediate or eventual batch is over, nothing is left in the list |
| `BatchLife.ImmediateRunsAtExecute` | lib/core/jbatch.c:259-266 | whenever execute of an immediate batch is over, all its operations have run, in order |
| `BatchLife.OnlyEventualMoves` | lib/core/jbatch.c:331-349 | only eventual batches are handed to the worker |
| `BatchLife.RunsAfterEarlier` | lib/core/jbatch.c:259-266 | over every sequence of events: when an immediate batch, or one with operations that cannot be cached, runs its list, everything that anybody had queued when its execute was called has been run before, unless the execute found the flag down with batches waiting |
| `BatchLife.FlagSeenDown` | lib/core/jbatch.c:259-263 | between that call and the run the flag has been down |
| `BatchLife.StaleIsOvertaken` | lib/core/jbatch.c:259-266 | the exception is real: from any state with the flag down and batches waiting, such an execute can run before all of them |
| `BatchLife.StaleOnlyByPush` | lib/core/joperation-cache.c:353-361 | such a state comes only from a push with the flag down |
| `BatchLife.OrderIffNoOvertaking` | lib/core/jbatch.c:220-273 | the operations of a batch have run in the order added if and only if its thread never ran its list itself while earlier ones were waiting for the worker |
| `BatchLife.OvertakesOnlyStale` | lib/core/jbatch.c:239-247 | and after a flush it does so only if the execute found the flag down with batches waiting |
| `BatchLife.RefusedBufferReorders` | lib/core/joperation-cache.c:312-321 | a sequence in which the second execute finds no buffer and overtakes the first |
| `BatchLife.EarlyFlushReorders` | lib/core/joperation-cache.c:353-361 | a sequence in which the worker finishes between the two steps of handing over, and the next execute overtakes |
| `Cache.Cache.Get` | lib/core/jcache.c:100-125 | grants, counts and records exactly as the wrapping check decides, or stops the program in the allocation |
| `Cache.Cache.Release` | lib/core/jcache.c:127-151 | returns the bytes of a live buffer, or leaves the mutex locked |
| `Cache.RunInv` | lib/core/jcache.c:100-151 | in every run the counter is the sum of the buffers that are out, modulo 2^64 |
| `Cache.GetGrantsWhatFits` | lib/core/jcache.c:109-119 | as long as the check does not overflow, a request is granted, counted and recorded if and only if it fits into the rest of the budget, and otherwise nothing happens |
| `Cache.ReleaseGivesBack` | lib/core/jcache.c:127-151 | releasing a buffer that is out gives back exactly its bytes |
| `Cache.BalancedIffNotSlips` | lib/core/jcache.c:109-119 | counter equal to the sum and within the budget is kept if and only if the request does not overflow the check, pass it and get its buffer |
| `Cache.OverflowStops` | lib/core/jcache.c:111-116 | with a budget of at most half of the address space no request does: one that overflows the check and passes it stops the program in the allocation |
| `Cache.OverflowPasses` | lib/core/jcache.c:111-116 | a run with the budget of the operation cache in which a request for 2^64 - 1 bytes passes the check |
| `Cache.RunBalanced` | lib/core/jcache.c:100-151 | with such a budget the books balance throughout every run, whatever is asked for |
| `Cache.OutOfBalanceOnlyByOverflow` | lib/core/jcache.c:100-151 | with any budget they balance up to any point if and only if no request has slipped through by then |
| `Cache.LockedIffUnknown` | lib/core/jcache.c:137-150 | a call returns with the mutex locked if and only if it releases an address that is not out, and no call returns after it |
| `Cache.EmptyLooksRefused` | lib/core/jcache.c:111-124 | a request for no bytes is granted and returns NULL |
| `Message.DigitsRoundTrip` | lib/core/jmessage.c:433-453 | the four bytes written stand for the number |
| `Message.LeastFirst` | lib/core/jmessage.c:433-453 | the least significant byte comes first |
| `Message.Buffer.AddOperation` | lib/core/jmessage.c:234-288 | makes room for the operation and changes no data |
| `Message.Buffer.AppendN` | lib/core/jmessage.c:477-495 | appends if and only if there is room |
| `Message.Buffer.Append4` | lib/core/jmessage.c:433-453 | the same for an integer in little-endian order |
| `Message.Buffer.Read4` | lib/core/jmessage.c:524-539 | reads an integer, or yields 0 and stays |
| `Message.Buffer.ReadN` | lib/core/jmessage.c:558-572 | reads bytes, or yields nothing and stays |
| `BackendOperation.WrittenIsAnnounced` | lib/core/jbackend-operation.c:146-259 | for every parameter array the bytes written are at most the announced length, and equal to it if and only if no blob has a length but no data |
| `BackendOperation.Announce` | lib/core/jbackend-operation.c:152-207 | the first loop adds up the lengths |
| `BackendOperation.WriteParam` | lib/core/jbackend-operation.c:211-256 | one parameter is appended in its encoding; a document that was written, or an error, is marked as gone |
| `BackendOperation.ToMessage` | lib/core/jbackend-operation.c:146-259 | the message grows by exactly the encoding of all parameters |
| `BackendOperation.SentOnce` | lib/core/jbackend-operation.c:223-252 | what has been sent is not sent again: the document is unmarked and the error gone |
| `BackendOperation.ErrorLayout` | lib/core/jbackend-operation.c:240-247 | where code, lengths, domain and message of an error stand |
| `BackendOperation.ReadParam` | lib/core/jbackend-operation.c:337-390 | one parameter, as the specification of the static decoder reads it, unless a document is cut short and stops the program |
| `BackendOperation.FromMessageStatic` | lib/core/jbackend-operation.c:337-390 | the loop of the static decoder, and exactly when it stops the program |
| `BackendOperation.ReadCopy` | lib/core/jbackend-operation.c:261-335 | one parameter, as the specification of the copying decoder reads it, unless a document is cut short and stops the program |
| `BackendOperation.FromMessage` | lib/core/jbackend-operation.c:261-335 | the loop of the copying decoder, which stops the program exactly where the static one does |
| `BackendOperation.RoundTrip` | lib/core/jbackend-operation.c:146-390 | decoding what was encoded consumes exactly those bytes and recovers every string (NULL apart from ""), blob, document and error |
| `BackendOperation.NeverStops` | lib/core/jbackend-operation.c:146-390 | no encoding stops a decoder |
| `BackendOperation.MessageRoundTrip` | lib/core/jbackend-operation.c:146-390 | any concatenation of encoded operations decodes back in order |
| `BackendOperation.DecodersAgree` | lib/core/jbackend-operation.c:261-390 | both decoders move the cursor alike on every encoder output, whichever error slots the caller supplies |
| `BackendOperation.FalseIffError` | lib/core/jbackend-operation.c:261-390 | with well-formed documents both return FALSE if and only if an error was encoded |
| `DbRequests.Serve` | server/loop.c:770-846 | one request: the out parameters are set, marked, encoded behind the reply and left for the next round as the specification says |
| `DbRequests.Handle` | server/loop.c:731-868 | all requests are decoded in order and the reply is the encoding of one answer each, with the zeroed documents of the template to begin with; the server stops if and only if a document is cut short |
| `DbRequests.DecodesWhatWasSent` | server/loop.c:755-776 | the requests decoded are those the client encoded, to the last byte, and the server does not stop |
| `DbRequests.ExecutedThenSkipped` | server/loop.c:731-868 | one answer per request; the executed ones are a prefix that under batch atomicity ends at the first failure, or is empty if the batch did not start; what each answer carries |
| `DbRequests.DestroyedWhereMarked` | server/loop.c:802-845 | documents are destroyed in exactly the rounds in which they are encoded with the mark |
| `DbRequests.DocumentsSoundIff` | server/loop.c:731-868 | documents are marked and destroyed only for their own success, if and only if the operations are atomic each, or the batch started, or there are no documents or no requests |
| `DbRequests.SentIsSound` | server/loop.c:802-834 | a document reaches the wire if and only if its own operation was executed and succeeded, also when the batch did not start |
| `DbRequests.ClientReads` | lib/core/jbackend-operation.c:261-335 | the copying decoder of the client consumes exactly one answer, does not stop, and returns FALSE exactly for an answer with an error |
| `DbRequests.ReportsAreErrors` | lib/db/jdb-internal.c:111-115 | over a whole reply, the results the client gets are those of the answers one by one |
| `DbRequests.ToldTheTruthIff` | server/loop.c:780-791 | in a started batch whose backend sets an error exactly on failure, what the client is told about a request agrees with what happened to it if and only if no request before it failed |
| `DbRequests.ToldTheTruthOtherwise` | server/loop.c:780-796 | for operations on their own, and in a batch that did not start, it always agrees |
| `DbRequests.WholeIsTrue` | lib/db/jdb-internal.c:111-134 | the conjunction that the client returns is TRUE if and only if every request was executed and succeeded |
| `DbRequests.SkippedLooksSuccessful` | server/loop.c:787-790 | two requests: the first fails, the second never runs, and the client is told FALSE and TRUE |
| `ObjectRead.MemoryChunk.Get` | lib/core/jmemory-chunk.c:92-110 | fails exactly when the rest of the chunk is too small |
| `ObjectRead.MemoryChunk.Reset` | lib/core/jmemory-chunk.c:112-120 | the whole chunk is free again |
| `ObjectRead.Allocate` | server/loop.c:226-240 | the allocation after sending and resetting cannot fail |
| `ObjectRead.ServeOne` | server/loop.c:213-255 | one request keeps: segments of the unsent reply disjoint and in bounds, each with its own read's bytes |
| `ObjectRead.Handle` | server/loop.c:204-263 | the replies carry, one after the other, exactly one answer per request in order: the bytes that the backend has read for it, or none if it is oversize; and the client recovers them from the replies; unless a read reports 2^64 - 1 bytes: exactly then a segment is attached that reaches beyond the chunk |
| `ObjectRead.GatherFrame` | server/loop.c:226-255 | later reads do not disturb the bytes attached before |
| `ObjectRead.CutReply` | lib/object/jobject.c:524-569 | the client cuts a reply into the answers it was made of |
| `ObjectRead.ClientRecovers` | lib/object/jobject.c:524-569 | from the replies the client recovers the answer to every request |
| `ObjectWrite.Handle` | server/loop.c:266-343 | the loop serves every request as specified, and a buffer is missing only for an oversize request |
| `ObjectWrite.AbortsIff` | server/loop.c:293-303 | the server stops if and only if it meets an oversize request that it cannot answer |
| `ObjectWrite.InStepIff` | server/loop.c:282-322 | whether the server goes on or stops, the data of all requests is taken off the connection if and only if none is oversize |
| `ObjectWrite.AnsweredOnce` | server/loop.c:282-322 | every request is answered once |
| `ObjectWrite.AnswerOf` | server/loop.c:293-318 | what every request is answered: 0 if it is oversize, and otherwise what the backend reports for the data it was given |
| `ObjectWrite.WritesOwnData` | server/loop.c:282-322 | without oversize requests each writes its own data at its own offset, and is answered what the backend reports for it |
| `ObjectWrite.OversizeShifts` | server/loop.c:293-299 | after an oversize request that is answered, the next one writes the data of that request |
| `DirIterator.Iterator.constructor` | lib/core/jdir-iterator.c:68-100 | what is to come is the recursive walk |
| `DirIterator.Iterator.Next` | lib/core/jdir-iterator.c:133-204 | delivers the first file that is to come, or reports the end, for ever; the stacks have length depth + 1; terminates |
| `DirIterator.Iterator.Get` | lib/core/jdir-iterator.c:206-215 | the file found last |
| `DirIterator.Iterate` | backend/object/posix.c:460-491 | the next file with the prefix, or none |
| `DirIterator.List` | server/loop.c:133-187 | the listing is the recursive walk filtered by the prefix, and empty for a directory that cannot be opened |
| `DirIterator.SelectsExactly` | backend/object/posix.c:470-484 | a file is listed if and only if it is in the walk and starts with the prefix |
| `DirIterator.SelectsInOrder` | backend/object/posix.c:470-484 | in the order of the walk |
| `DirIterator.ListsExactly` | lib/core/jdir-iterator.c:133-204 | a path is delivered if and only if it leads to a non-directory through directories that open |
| `DirIterator.PathIsSlashed` | lib/core/jdir-iterator.c:150-154 | the path is the names on the way with slashes between them |
| `DirIterator.WalkInReadOrder` | lib/core/jdir-iterator.c:140-201 | all below one entry comes before all below a later one |
| `DirIterator.DeliveredOnce` | lib/core/jdir-iterator.c:133-204 | in a file system no path is delivered twice |
| `KvScan.OrderedScan.LevelDb` | backend/kv/leveldb.c:171-222 | the scan will deliver exactly the rows that a full filter keeps |
| `KvScan.OrderedScan.Lmdb` | backend/kv/lmdb.c:185-228 | the same, with the terminating NUL in the seek key |
| `KvScan.OrderedScan.Iterate` | backend/kv/leveldb.c:224-270 | delivers the next of them without its namespace, or ends |
| `KvScan.FilterScan.constructor` | backend/kv/gdbm.c:182-225 | the scan will deliver what the filter keeps |
| `KvScan.FilterScan.Iterate` | backend/kv/gdbm.c:227-293 | delivers the next of them without its namespace, or ends |
| `KvScan.Scan.Iterate` | lib/core/jbackend.c:706-726 | the same, whichever backend is loaded |
| `KvScan.TargetsAreGood` | backend/kv/lmdb.c:244-253 | both seek keys come after every key below the prefix and before every key that has it |
| `KvScan.SeekAndStop` | backend/kv/leveldb.c:235-255 | on a strictly sorted store, seek and stop at the first foreign key loses nothing and adds nothing |
| `KvScan.AnyOrder` | backend/kv/gdbm.c:227-293 | over the same rows in any order the filter keeps the same rows as often |
| `KvScan.ColonFreeApart` | backend/kv/leveldb.c:118-119 | namespaces without a colon are apart |
| `KvScan.StoredInjective` | backend/kv/leveldb.c:118-119 | among namespaces that are apart a stored key belongs to one name |
| `KvScan.StoredAsMeant` | backend/kv/leveldb.c:106-169 | after every sequence of puts and deletes the store has for a name what one map per namespace would have |
| `KvScan.ListingIsExact` | backend/kv/leveldb.c:171-262 | a listing shows exactly the keys and values put under the namespace that have the prefix |
| `KvScan.ExactIffApart` | backend/kv/leveldb.c:118-119 | two namespaces can be used side by side if and only if neither, with its colon, starts with the other |
| `KvScan.ColonClash` | backend/kv/leveldb.c:118-119 | the key "b:c" of "a" is the key "c" of "a:b" |
| `KvListing.AppendPair` | server/loop.c:632-642 | one pair in its encoding, in the room made for it |
| `KvListing.Reply` | server/loop.c:617-650 | the reply is the encoding of all rows of the scan and a final zero |
| `KvListing.Iterator.constructor` | lib/kv/jkv-iterator.c:108-153 | what is to come is, server by server, all pairs before the first empty value |
| `KvListing.Iterator.Next` | lib/kv/jkv-iterator.c:228-262 | delivers the first pair that is to come, going on to the next reply at the end of one; once the last reply has been read to its end, reports the end for ever |
| `KvListing.CompleteIff` | lib/kv/jkv-iterator.c:239-253 | the client gets everything listed if and only if no value is empty |
| `KvListing.EmptyValueHides` | lib/kv/jkv-iterator.c:239-253 | an empty value hides what comes after it |
| `KvListing.MisreadsKey` | lib/kv/jkv-iterator.c:239-253 | after the end that an empty value feigns, a further call takes the first four bytes of the key for a length |
| `Parallel.StepKeeps` | lib/core/jbackground-operation.c:95-224 | every step of the caller and of the pool keeps the invariant about references, results and entries |
| `Parallel.RunInv` | lib/core/jhelper.c:122-171 | the invariant holds in every state of every schedule |
| `Parallel.MapsEveryEntry` | lib/core/jhelper.c:122-171 | at the end every entry is the function of what it was, and NULL entries are untouched |
| `Parallel.ReadAfterSet` | lib/core/jbackground-operation.c:207-224 | a result is read only after it was set and announced |
| `Parallel.NeverUsedAfterFree` | lib/core/jbackground-operation.c:95-112 | no step uses an operation that has been freed |
| `Parallel.FreedExactlyOnce` | lib/core/jbackground-operation.c:191-205 | an operation is freed once, exactly when both sides have dropped it |
| `Parallel.PoolIffSeveral` | lib/core/jhelper.c:132-157 | an entry is handed to the pool if and only if it is not NULL and not the only one |
| `Parallel.RunOnce` | lib/core/jbackground-operation.c:95-112 | the pool applies the function to an entry once |
| `Parallel.PoolIsBounded` | lib/core/jbackground-operation.c:114-130 | no more operations are under way at a time than the pool has threads |
| `Parallel.NeverStuck` | lib/core/jbackground-operation.c:207-224 | until all is done somebody other than a spurious wakeup can move: no wakeup is lost, and the pool does not block itself |
| `Parallel.MayWake` | lib/core/jbackground-operation.c:216-219 | a sleeping caller may wake up for no reason, and then looks at `completed` again |
| `Parallel.RankFalls` | lib/core/jhelper.c:132-166 | every step but a spurious wakeup brings the end nearer |
| `Parallel.Terminates` | lib/core/jhelper.c:122-171 | a run has at most ten steps per entry, spurious wakeups aside |
| `List.List.Append` | lib/core/jlist.c:123-150 | the contents grow at the end, the chain stays acyclic and ends at the tail |
| `List.List.Prepend` | lib/core/jlist.c:152-173 | the contents grow at the front, with the same chain |
| `List.List.Length` | lib/core/jlist.c:113-121 | the stored length is the number of elements if and only if that fits into 32 bits |
| `List.List.GetFirst` | lib/core/jlist.c:175-190 | the first element, or NULL |
| `List.List.GetLast` | lib/core/jlist.c:192-207 | the last element, or NULL |
| `List.List.DeleteAll` | lib/core/jlist.c:209-237 | every element is freed once and in order, and the list is empty |
| `List.List.Unref` | lib/core/jlist.c:98-111 | the elements go with the last reference |
| `List.Iterator.constructor` | lib/core/jlist-iterator.c:58-73 | everything is to come |
| `List.Iterator.Next` | lib/core/jlist-iterator.c:87-104 | moves to the next element of the contents or reports the end |
| `List.Follow` | lib/core/jlist-iterator.c:87-115 | following an iterator visits exactly what it has to visit |
| `List.Visit` | lib/core/jlist-iterator.c:58-115 | iterating visits exactly the contents, in order |
| `List.SurvivesAppend` | lib/core/jlist-iterator.c:87-104 | what is appended meanwhile is visited, unless the iterator was at the end |
| `List.SurvivesPrepend` | lib/core/jlist-iterator.c:87-104 | what is prepended meanwhile is not |

## Left out

- The C library, GLib and the database libraries are taken at their word: queues are FIFO, mutexes exclude, `g_malloc` delivers an address that is not in use, an ordered store delivers its rows in byte order.
- The other backends (`backend/db`, MongoDB, SQLite, RocksDB, GIO, RADOS, null), distributions, FUSE, the command line, configuration, tracing and statistics: wrappers or I/O that would only add easy members.
- The file system is a finite tree that does not change during a walk; symbolic links that form a cycle are not modelled.
- The file cache assumes the discipline of the server: a thread creates or opens a path it has not open and closes it itself; whether a cached descriptor still names the file at its path after an unlink is not claimed.
- The state machines treat a critical section, or an atomic operation, as one step; weak memory is not modelled.
- ConnectionPool.CounterAccounting: the counter is an unbounded integer, because it is shown to stay below the bound plus the number of threads.
- BatchLife: a batch is used by one thread at a time; what other clients do with the flag, the queue and the log is unrestricted.
- BackendOperation.DecodersAgree: the copying decoder copies blobs as C strings, so only their place in the message is compared.
- DbRequests.Handle: what bson_destroy does to a document that is all zero is not modelled; the documents are taken to stay as they are.
- ObjectRead.Handle: after a read that reports 2^64 - 1 bytes nothing more is claimed about the message.
- KvListing.Iterator.Next: a call after an end that an empty value has feigned is not modelled beyond `MisreadsKey`, because what it reads is not a pair.
- ObjectRead.MemoryChunk.Get: addresses do not overflow.
- ObjectWrite.Handle: the connection delivers all the data that the requests announce.
- PosixIo.Read: a length of 2^64 - 1 is excluded, because no buffer has it.
- List.Iterator.Next: calling it again after the end is excluded, because the code then follows a NULL pointer.
- Shutdown of the connection pool, `j_batch_execute_async`, and the remaining message types of the server.
