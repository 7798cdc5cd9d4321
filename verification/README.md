# The AESD character device and socket server: a verified model

The repository holds a Linux character driver that keeps the last ten
newline-terminated records written to it, and a multi-threaded socket server
that appends what its clients send and sends the collected bytes back. This
project models both in Dafny and proves what they are for.

| file | what it models |
|---|---|
| `Bytes.dfy` | concatenation and "the last n" of a sequence |
| `CircularBuffer.dfy` | the ten-slot ring, a class over an array, with size_t arithmetic |
| `RecordLog.dfy` | the driver's purpose without rings or blocks: payloads pile up until one has a newline |
| `KernelHeap.dfy` | kmalloc, krealloc and kfree over numbered blocks that are never reused |
| `CharDevice.dfy` | the driver as a state machine over write calls, with every allocation failure and short copy |
| `CharDriver.dfy` | the driver's entry points, a class whose methods are that machine's steps |
| `Reads.dfy` | aesd_read and the server's read loops over records and plain files |
| `DeviceReads.dfy` | when reading goes right, over every device that writes can make |
| `SocketClient.dfy` | receiving and sending one client against the driver |
| `LinkedQueues.dfy` | SLIST, STAILQ, LIST and TAILQ as linked cells changed in place |
| `ThreadList.dfy` | the sweep, the final join and the freeing of the thread list |
| `Timespec.dfy` | the accept deadline |
| `ServerConfig.dfy`, `ServerModel.dfy` | the server as a step system: main thread, workers, logger, mutex, semaphore, signal handlers |
| `ServerLife.dfy`, `ServerStatus.dfy`, `ServerIo.dfy`, `Server.dfy` | its invariants over every interleaving, and what they mean |
| `ServerShutdown.dfy` | how soon the main thread and the logger stop once told to |
| `ServerProgress.dfy`, `ServerFinish.dfy` | what can hold the server up, and when it can still come to its end |
| `ServerSweep.dfy`, `ServerTimestamps.dfy`, `ServerTraffic.dfy` | what every sweep does, every tick, and every byte received, over runs |
| `ServerService.dfy` | when a client can still be served |
| `ServerLogger.dfy`, `ServerWitnesses.dfy` | when the logger can be left asleep, and concrete runs into the bad states |

## Main results

1. **The driver accounts for every byte and every block exactly when it is
   allowed to.** `CharDevice.RunExact`: over every run of writes from module
   load, with any mixture of allocation failures and short copies, no block has
   leaked and commits plus staging are exactly the acknowledged bytes *if and
   only if* no call failed to grow a staged block and every accepted copy was
   full. The invariant behind it (`WriteKeeps`, `Run`) holds in every run,
   failures included: live entries are distinct, backed blocks holding the last
   ten commits, and nothing is freed twice. `Cleanup` then leaves allocated
   exactly what had leaked.
2. **Records.** After every clean run the ring is the last ten records of the
   payloads, each record newline-free payloads and then one with a newline
   anywhere in it (`CleanRunRecords`); an accepted write commits *if and only if*
   one of the bytes it left is a newline (`Write`).
3. **Offsets.** The search in wrapping size_t arithmetic finds the one live entry
   and byte at an offset, and nothing exactly past the end
   (`FindEntryOffsetForFpos`, `HoldsUnique`).
4. **Reading.** aesd_read copies from the start of an entry whatever the offset.
   Over every device that writes can make with records of given lengths, a read
   is right *if and only if* it starts at a record boundary
   (`DeviceReadRightIff`), and reading from zero with a fixed buffer delivers the
   content *if and only if* every record fits in it (`DeviceReadAllIff`).
5. **End to end.** `ServeClient` receives and then sends, with any failures of the
   kernel and the network. It succeeds *if and only if* a complete message comes
   and the socket takes every line whole; then the log has grown by exactly the
   message, and when records fit the buffer and no copy came out short the reply
   is the log's content, and ends with all of the message that is not left staged
   *if and only if* at most ten of its chunks had a newline. If receiving fails,
   the log holds the full chunks before the failing turn and exactly what that
   turn left; if sending fails, the client got the lines before the first that
   was not taken whole.
6. **Queues.** Every operation of the four queues refines insertion, deletion,
   append or exchange on the sequence of its elements; the casts behind
   TAILQ_LAST and TAILQ_PREV are right; reverse traversal is the reverse. The
   sweep, the final join and the freeing join and free exactly the nodes they
   should, each once and in order (`JoinCompletedThreads`, `JoinThreads`, `FreeAll`).
7. **Server, safety.** In every interleaving no node is used after it is freed, every
   thread is joined once and every node freed once by the end (`RunsAreSafe`);
   messages are contiguous in lock order, partial appends included, a client is
   answered only after its complete message, and every complete reply is one
   instant of the file or the device (`RunsServeInOrder`); what a client has in the
   file is exactly what its recv calls brought there (`ClientsBytes`). Every sweep visits the
   whole list, keeps exactly the unfinished nodes, joins and frees the others
   once, and ends the server *if and only if* it saw a failed worker
   (`SweepsAreRight`, `FlagSetIff`).
8. **Server, progress.** While main is not done, no thread can step *if and only if*
   main is in the final join and everything has run into one worker inside the
   mutex whose client answers neither recv nor send (`AllBlockedIff`); the mutex
   can ever become free *if and only if* its holder is not such a worker
   (`MutexAvailableIff`); and while silent clients stay silent the server can
   still come to its end *if and only if* none of them has a recv or send to come
   (`CanFinishIff`), and a client can still be sent a complete reply *if and only
   if* its worker has not given up and nobody silent is in the way (`CanServeIff`). If they answer it always can, with everything settled
   (`CanAlwaysFinish`).
9. **Server, stopping.** With the flag set, main takes at most a number of further
   steps fixed by its list (`MainStops`). Without another post or tick the logger
   is never left asleep *if and only if* a post is pending or it is at its check
   or past it (`NeverLeftAsleepIff`); a handler that has finished gives it that
   (`NoLostWakeUp`), and then it stops within six steps of its own (`LoggerStops`).
   Each tick or post is pending, or made one line, or stopped the logger
   (`OneLinePerWakeUp`); the lines go to a plain file and never to the device
   (`TimestampsGoToFilesOnly`).

## Where the code departs from its documentation

- `aesd_read` computes the byte offset inside the entry and does not use it
  (aesd-char-driver/main.c:76-91); result 4 says exactly when that is harmless.
- A short `copy_from_user` still grows the staging size by the full count, and a
  failed `krealloc` drops the pointer but not the size
  (aesd-char-driver/main.c:117-131, 148); result 1 says exactly what that costs.
- The list-join functions return true on error (server/src/utilities.c:126, 147),
  the header says true on success (server/include/utilities.h:64-76); the model follows the code.
- A failed accept (server/src/main.c:197-202), a sweep that met an error, such as a
  worker that had failed (server/src/main.c:208-212), and a failed thread creation
  (server/src/main.c:232-240) set the termination flag without posting the
  semaphore, so the logger, which main joins at the end, may wait for the next
  timer tick. These are the only three paths (`MainSetsFlag`), each is reachable
  with the logger asleep (`AsleepAfterAccept`, `AsleepAfterSweep`,
  `AsleepAfterCreate`), and `NeverLeftAsleepIff` says exactly when it cannot happen.
- As server/src/main.c:2-10 admits, a client that stays silent holds everyone up:
  result 8 says exactly when, and `HeldUpServer` is such a run from start-up.

## Modelling choices

- Bytes are `char`. A heap block has an identity that is never reused, so that
  "freed once" can be said of a block. Unknown memory (fresh blocks, the tail
  behind a short copy) is an input of the call.
- `kmalloc(0)` returns a non-null address that is not a block.
- In `LinkedQueues` a `**` link is the cell whose next field it points at; a
  queue is described by its head followed by its elements, given as a ghost
  sequence. After `Runtime.Free` nothing is known of a cell's links, so a
  traversal that followed a freed node's link could not be proved; `Runtime` also
  keeps the joins and frees done, in order.
- In the step system each access to shared state is one atomic step; a step that
  cannot happen yet (a taken mutex, a thread that has not exited, a semaphore at
  zero, a recv or send of a client that is silent for now) is `None`. An append
  that fails may still have added bytes, which are an input. What recv, send, accept, pthread_create and the time functions
  answer are inputs of the steps. pthread_join is taken to succeed on a thread
  that was created and not joined before; `RunsAreSafe` proves that main joins no other.

## Model

| member | source | states |
|---|---|---|
| `RingBuffer.CircularBuffer.constructor` | aesd-char-driver/aesd-circular-buffer.c:150-152 | an initialised ring is valid and has no live entry |
| `RingBuffer.CircularBuffer.Peek` | aesd-char-driver/aesd-circular-buffer.c:46-60 | nothing exactly on an empty ring, the offset-th live entry below the live count, and a zeroed slot from there up to ten |
| `RingBuffer.SearchStep` | aesd-char-driver/aesd-circular-buffer.c:89-98 | the test on wrapped sums is met by exactly the live entry that holds the offset; on an unused slot it fails although size - 1 wraps |
| `RingBuffer.CircularBuffer.FindEntryOffsetForFpos` | aesd-char-driver/aesd-circular-buffer.c:76-103 | the search returns the live entry and in-entry byte of the offset in the concatenation, and nothing exactly when the offset is at or past the total |
| `RingBuffer.HoldsUnique` | aesd-char-driver/aesd-circular-buffer.c:64-74 | an offset has at most one entry and byte, and lies below the total |
| `RingBuffer.CircularBuffer.AddEntry` | aesd-char-driver/aesd-circular-buffer.c:113-145 | an added entry leaves the last ten, the evicted oldest block is handed back, an empty entry changes nothing, a full ring stays full |
| `RingBuffer.OverwriteKeepsLast` | aesd-char-driver/aesd-circular-buffer.c:126-142 | overwriting slot `in_offs` and advancing the indices drops the oldest of ten and appends the new one |
| `RecordLog.RecordsAreGroups` | aesd-char-driver/main.c:151-157 | scanning only each call's bytes cuts the stream into records of payloads without a newline and then one with a newline anywhere in it, losing and reordering nothing, with no newline left staged |
| `RecordLog.AppendAllHistory` | aesd-char-driver/main.c:108-172 | records and staging together are every payload in order |
| `RecordLog.MessageVisible` | aesd-char-driver/main.c:159-170 | a message that closes no record leaves the content as it was; of another, what is not left staged is wholly visible at the end of the content exactly when it closed at most ten records |
| `KernelHeap.Kfree` | aesd-char-driver/main.c:162-164 | freeing a live block moves it from the allocated to the freed ones and leaves the heap sound |
| `KernelHeap.Krealloc` | aesd-char-driver/main.c:122-124 | growing a live block, in place or moved, keeps the heap sound |
| `CharDevice.GrowOwns` | aesd-char-driver/main.c:109-132 | staging memory after kmalloc or krealloc is a block of its own of the new size with the old bytes in front, and every other block is untouched |
| `CharDevice.CopyKeeps` | aesd-char-driver/main.c:135-148 | after the copy the ring is as before, nothing has leaked, and the staged bytes are the old ones followed by the call's |
| `CharDevice.PushKeeps` | aesd-char-driver/main.c:159-164 | committing keeps live entries backed by distinct blocks holding the last ten commits, and frees exactly the evicted block |
| `CharDevice.WriteKeeps` | aesd-char-driver/main.c:101-173 | any write keeps the invariant, leaks a block exactly when it fails to grow a staged one, and adds to the bytes held what was acknowledged plus what was left uncopied |
| `CharDevice.WriteCommits` | aesd-char-driver/main.c:151-170 | a write commits exactly when accepted with a newline among the bytes it left, and then what was staged and those bytes; else the ring is untouched |
| `CharDevice.WriteLeaves` | aesd-char-driver/main.c:101-173 | an accepted write appends what arrived to the record log; a refused one costs the staged bytes, if any, and nothing else |
| `CharDevice.CleanWriteAppends` | aesd-char-driver/main.c:101-173 | a clean write appends exactly its payload to the record log and returns its length |
| `CharDevice.ScanSuffices` | aesd-char-driver/main.c:151-157 | as long as no block has leaked, the call's bytes have a newline exactly when everything staged has |
| `CharDevice.Run` | aesd-char-driver/main.c:101-173 | every run of writes, failures included, ends in a state with the invariant |
| `CharDevice.RunLeaks` | aesd-char-driver/main.c:120-131 | over any run blocks leak exactly when some call could not grow the staged block |
| `CharDevice.RunSize` | aesd-char-driver/main.c:117-148 | over any run the bytes held are the acknowledged ones plus those left uncopied |
| `CharDevice.CleanRunAppends` | aesd-char-driver/main.c:101-173 | a clean run is the record log of its acknowledged payloads |
| `CharDevice.RunExact` | aesd-char-driver/main.c:101-173 | from module load, nothing has leaked and every acknowledged byte is held once and in order if and only if every call was clean |
| `CharDevice.CleanRunRecords` | aesd-char-driver/main.c:151-170 | after a clean run the live entries are the last ten records of the payloads |
| `CharDevice.UncleanRuns` | aesd-char-driver/main.c:120-131 | two concrete runs: a failed krealloc leaks a block, a short copy breaks the byte accounts |
| `CharDriver.AesdDevice.constructor` | aesd-char-driver/main.c:189-210 | a loaded module is the machine's initial state |
| `CharDriver.AesdDevice.AllocateStaging` | aesd-char-driver/main.c:108-132 | staging grows as the machine says, or the pointer is cleared and nothing else changes |
| `CharDriver.AesdDevice.CommitStaging` | aesd-char-driver/main.c:159-170 | the staged entry enters the ring, the evicted block is freed, staging is cleared |
| `CharDriver.AesdDevice.Write` | aesd-char-driver/main.c:101-173 | each call, whatever the kernel does, is one step of the device machine; it is refused exactly when the allocation fails, and commits exactly when accepted with a newline among the bytes it left, and then what was staged followed by those bytes |
| `CharDriver.AesdDevice.Read` | aesd-char-driver/main.c:68-99 | the start of the record holding the position, cut to the count, less what was left uncopied, and the position moves by what was copied |
| `CharDriver.AesdDevice.SlotPtr` | aesd-char-driver/aesd-circular-buffer.h:76-79 | a slot's block is allocated and in no earlier slot |
| `CharDriver.AesdDevice.Cleanup` | aesd-char-driver/main.c:212-232 | cleanup frees every owned block once and nothing else; what stays allocated is what had leaked |
| `Reads.ReadAtRecord` | aesd-char-driver/main.c:76-91 | a read anywhere inside a record returns the start of that record |
| `Reads.SequentialReads` | aesd-char-driver/main.c:68-99 | when every record fits, reading from zero returns the records one by one and then nothing |
| `Reads.ReadRightAtBoundaryOnly` | aesd-char-driver/main.c:76-91 | a read returns the bytes at its position, whatever newline-holding records of these lengths there are, exactly when it starts at a record boundary |
| `Reads.ReadAllExact` | server/src/socket_client.c:83-104 | reading from zero delivers the content, whatever newline-holding records of these lengths there are, exactly when every record fits in the buffer |
| `Reads.FullReads` | aesd-char-driver/main.c:93-98 | reads whose copies are all full are the reads of the records |
| `DeviceReads.AnyRecordsReachable` | aesd-char-driver/main.c:101-173 | any at most ten records that each have a newline are what some clean run from module load shows |
| `DeviceReads.OnlySuchRecords` | aesd-char-driver/main.c:151-170 | and no clean run shows others |
| `DeviceReads.DeviceReadRightIff` | aesd-char-driver/main.c:76-91 | over all clean runs from module load that show records of given lengths, a read is right exactly when it starts at a record boundary |
| `DeviceReads.DeviceReadAllIff` | server/src/socket_client.c:83-104 | over all such runs, reading from zero delivers the content exactly when every record fits in the buffer |
| `DeviceReads.MisreadRun` | aesd-char-driver/main.c:76-91 | one write from module load after which a read at position one returns the first byte again |
| `Reads.OversizeRepeats` | aesd-char-driver/main.c:87-95 | after the first part of an oversize record the next read starts that record again |
| `Reads.FileReadsExact` | server/src/socket_client.c:76-86 | reading a plain file on from any position delivers the rest of it |
| `SocketClient.AppendToFile` | server/src/utilities.c:16-34 | reports success exactly when the file was opened, everything was written and the file was closed, and says what each failure leaves in the log |
| `SocketClient.ReceiveAndWriteData` | server/src/socket_client.c:62-81 | succeeds exactly when the client's script has a complete message, and then the log grew by exactly its chunks, whatever the allocator did; failure leaves the full chunks before the failing turn and what that turn left |
| `SocketClient.SendFile` | server/src/socket_client.c:83-120 | succeeds exactly when the socket takes every line read from zero whole, with copies short or full; else the lines before the first that it did not were sent |
| `SocketClient.ReplyEndsWithMessage` | server/src/main.c:335-355 | with full copies and records that fit, the reply is the content, and what of the message is not left staged ends it exactly when at most ten of its chunks had a newline |
| `SocketClient.ServeClient` | server/src/main.c:335-358 | succeeds exactly when a complete message comes and every line is taken whole, and then, when records fit and copies are full, the reply answers it; failure says what was appended and which lines were sent |
| `LinkedQueues.SlistUnique` | server/include/queue.h:207-210 | a chain from a head spells one sequence only |
| `LinkedQueues.LinksDetermined` | server/include/queue.h:467-565 | the same cells in the same order have the same links in every well-formed LIST or TAILQ |
| `LinkedQueues.TailqInit` | server/include/queue.h:690-694 | an empty, well-formed queue |
| `LinkedQueues.TailqInsertHead` | server/include/queue.h:721-732 | the element comes first and the links stay well formed, also in an empty queue |
| `LinkedQueues.TailqInsertTail` | server/include/queue.h:734-742 | the element comes last |
| `LinkedQueues.TailqInsertAfter` | server/include/queue.h:696-709 | the element comes right after the given one |
| `LinkedQueues.TailqInsertBefore` | server/include/queue.h:711-719 | the element comes right before the given one |
| `LinkedQueues.TailqRemove` | server/include/queue.h:752-768 | exactly the element is gone and its own links are as they were |
| `LinkedQueues.TailqConcat` | server/include/queue.h:635-644 | the second queue's elements follow the first's, and the second is empty |
| `LinkedQueues.TailqSwap` | server/include/queue.h:770-785 | the two queues exchange their elements, also when one is empty |
| `LinkedQueues.TailqLast` | server/include/queue.h:744-745 | the cast yields the last element, or null in an empty queue |
| `LinkedQueues.TailqPrev` | server/include/queue.h:749-750 | the cast yields the predecessor, or null for the first element |
| `LinkedQueues.Foreach` | server/include/queue.h:650-653 | visits exactly the elements in order |
| `LinkedQueues.ForeachReverse` | server/include/queue.h:670-673 | visits exactly the elements in reverse order |
| `LinkedQueues.TailqInsertThenRemove` | server/include/queue.h:696-768 | an element inserted anywhere by any of the four inserts, also into an empty queue, and removed again leaves every link as it was |
| `LinkedQueues.ListInsertThenRemove` | server/include/queue.h:512-555 | the same for the three inserts of a LIST |
| `LinkedQueues.FindBefore` | server/include/queue.h:254-256 | the search ends at the cell before the target |
| `LinkedQueues.SlistInsertHead` | server/include/queue.h:241-244 | the element comes first |
| `LinkedQueues.SlistInsertAfter` | server/include/queue.h:236-239 | the element comes right after the given one |
| `LinkedQueues.SlistRemove` | server/include/queue.h:248-260 | exactly the element is gone and its own link is as it was |
| `LinkedQueues.SlistConcat` | server/include/queue.h:190-201 | append, leaving the second list empty |
| `LinkedQueues.SlistSwap` | server/include/queue.h:271-275 | exchange |
| `LinkedQueues.StailqInsertHead` | server/include/queue.h:351-355 | the element comes first and the tail link is right |
| `LinkedQueues.StailqInsertAfter` | server/include/queue.h:345-349 | the element comes right after the given one and the tail link is right |
| `LinkedQueues.StailqInsertTail` | server/include/queue.h:357-361 | the element comes last and the tail link is right |
| `LinkedQueues.StailqLast` | server/include/queue.h:363-366 | the last element, or null in an empty queue |
| `LinkedQueues.StailqRemove` | server/include/queue.h:370-394 | exactly the element is gone, wherever it stood, and the tail link is right |
| `LinkedQueues.StailqConcat` | server/include/queue.h:308-314 | append, leaving the second queue empty with its tail aimed at its own head |
| `LinkedQueues.StailqSwap` | server/include/queue.h:396-407 | exchange, with an empty queue's tail aimed at its own head |
| `LinkedQueues.ListInsertHead` | server/include/queue.h:529-535 | the element comes first |
| `LinkedQueues.ListInsertAfter` | server/include/queue.h:512-519 | the element comes right after the given one |
| `LinkedQueues.ListInsertBefore` | server/include/queue.h:521-527 | the element comes right before the given one |
| `LinkedQueues.ListPrev` | server/include/queue.h:539-542 | the predecessor, or null for the first element |
| `LinkedQueues.ListRemove` | server/include/queue.h:544-555 | exactly the element is gone |
| `LinkedQueues.ListConcat` | server/include/queue.h:467-482 | append, leaving the second list empty |
| `LinkedQueues.ListSwap` | server/include/queue.h:557-565 | exchange, with each first element aimed at its new head |
| `ThreadList.SelectPartitions` | server/src/utilities.c:98-124 | every visited node is either kept or joined, once |
| `ThreadList.TroubleMeans` | server/src/utilities.c:103-110 | the reported error is some failed worker or some completed one that could not be joined |
| `ThreadList.VisitNode` | server/src/utilities.c:98-124 | a node seen uninitialized or running is left alone; any other is joined, removed and freed; an error exactly for a failed worker or a failed join |
| `ThreadList.JoinCompletedThreads` | server/src/utilities.c:89-127 | the sweep visits every node once, keeps those seen unfinished in order, joins and then frees exactly the rest, each once and in order, reports true exactly on an error, and never relies on a freed node's link |
| `ThreadList.JoinThreads` | server/src/utilities.c:129-148 | every node is joined and then freed, each once and in order, the list is left empty, true exactly when a join failed |
| `ThreadList.FreeAll` | server/src/utilities.c:80-87 | every node is freed, each once and in order, and the list is left empty |
| `Timespec.Add` | server/src/utilities.c:150-160 | the sum is right in nanoseconds and normalised, and no intermediate reaches 2^31 |
| `Timespec.DeadlinePassed` | server/src/utilities.c:162-180 | the deadline is over exactly when more than the timeout has passed since the start |
| `ServerLife.MainKeepsLife` | server/src/main.c:181-254 | every step of the accept loop, the sweep and the final join keeps the accounts of nodes and threads |
| `ServerLife.NoUseAfterFree` | server/src/main.c:329-360 | a worker that may still touch its node has it allocated, and so has every walk of main |
| `ServerLife.AllSettled` | server/src/main.c:247-253 | at the end every thread has exited and been joined once and every node freed once |
| `ServerStatus.WorkerKeepsStatus` | server/src/main.c:331-358 | a worker's final status is success exactly when its client was sent a complete reply |
| `ServerStatus.WorkerKeepsChunks` | server/src/socket_client.c:66-78 | a receiving worker has had full buffers only, and one that answers has full buffers and then a shorter chunk, all appended and nothing else |
| `ServerStatus.SweepNeverHeldUp` | server/src/utilities.c:98-107 | a sweep joins only a worker that has exited or will in one step of its own, so it never waits behind the mutex |
| `ServerIo.WorkerKeepsMutex` | server/src/main.c:335-355 | the mutex names exactly the thread inside a locked stretch |
| `ServerIo.WorkerKeepsIo` | server/src/main.c:335-355 | every worker step, failed and partial appends included, keeps the history made of the sections in lock order, each client's section what reached the file of its message, and each reply one instant's reading |
| `ServerIo.LoggerKeepsIo` | server/src/main.c:384-390 | so does every logger step, whatever part of its line is appended |
| `ServerIo.MessageContiguous` | server/src/main.c:335-344 | a client's message is one contiguous block of the history, after everything of those who locked before |
| `ServerIo.FileReply` | server/src/main.c:346-355 | a complete plain-file reply is the whole file at one instant and has the client's message where the history has it |
| `ServerIo.FileRepliesOrdered` | server/src/main.c:346-355 | of two complete plain-file replies one is a prefix of the other |
| `ServerIo.DeviceReply` | server/src/main.c:346-355 | a complete device reply is the last ten records at one instant, a stretch of the history |
| `ServerIo.DeviceReplyHasMessage` | server/src/main.c:346-355 | a message that lies inside that stretch is in the reply in one piece |
| `Server.StepKeeps` | server/src/main.c:181-408 | every step of every thread, handler, tick and client keeps the whole invariant |
| `Server.RunsAreSafe` | server/src/main.c:181-254 | in every run: no use after free, no double free, no double join, and a run that has ended is settled |
| `Server.RunsServeInOrder` | server/src/main.c:335-355 | in every run and for any two clients: what each appended is one block after all earlier ones, and its complete message once it is being answered; no two are inside the mutex; a complete reply is one instant's file, or with the device its last ten records when they fit, with the client's own block where the history has it; and plain-file replies are prefix-ordered |
| `ServerProgress.AllBlockedIff` | server/src/main.c:2-10 | while main is not done, no thread can step exactly when main is in the final join, one worker inside the mutex awaits a silent client, and all others have ended or wait for the mutex or a wake-up |
| `ServerProgress.WorkerBlocked` | server/src/main.c:329-360 | a worker can take no step exactly when it has exited, waits for the taken mutex, or awaits its silent client |
| `ServerProgress.ReleaseMutex` | server/src/main.c:335-355 | unless its holder awaits a silent client, the holder's own steps free the mutex and change nobody else's state |
| `ServerProgress.MutexAvailableIff` | server/src/main.c:2-10 | while silent clients stay silent, the mutex can ever become free exactly when its holder does not await one |
| `ServerFinish.RunLacks` | server/src/main.c:329-360 | a worker that still has a recv or send of a silent client to come has one in every run in which no client answers |
| `ServerFinish.BringOut` | server/src/main.c:329-360 | a worker nobody keeps waiting can be brought to its exit without moving main |
| `ServerFinish.CanFinishIff` | server/src/main.c:181-254 | from every reachable state, while silent clients stay silent, some run ends the application exactly when none of them has a recv or send to come |
| `ServerFinish.CanAlwaysFinish` | server/src/main.c:181-254 | from every reachable state some run ends with every thread joined once and every node freed once |
| `ServerShutdown.MainTowardsEnd` | server/src/main.c:191-254 | with the termination flag set, whatever accept and pthread_create still answer, each step of main brings it nearer to its end |
| `ServerShutdown.MainStops` | server/src/main.c:191-254 | in every run after the flag is set main takes at most a number of further steps fixed by the thread list then |
| `ServerShutdown.MainSetsFlag` | server/src/main.c:191-240 | main sets the flag exactly on a failed accept, a failed thread creation, and at the end of a sweep that carries an error, and posts on none of them |
| `ServerSweep.SweepsAreRight` | server/src/utilities.c:89-127 | in every run a sweep that ends has seen every node of the list it began with; the list is those it saw unfinished, in order; each other was joined once and freed once; and it ends the server exactly when it saw a failed worker |
| `ServerSweep.SweepCarries` | server/src/utilities.c:103-110 | in every run a sweep carries an error exactly when it has seen a failed worker since it began |
| `ServerSweep.FlagSetIff` | server/src/main.c:191-240 | in every run main sets the flag exactly when accept fails, a thread cannot be created, or a sweep ends that saw a failed worker |
| `ServerSweep.RunKeepsOrder` | server/src/main.c:242-244 | in every run the list has the newest node in front |
| `ServerService.RunUnservable` | server/src/main.c:329-360 | a client whose worker gave up, or that someone silent keeps from being served, stays so in every run in which no client answers |
| `ServerService.CanServeIff` | server/src/main.c:329-360 | from every reachable state some run in which no silent client answers sends a client a complete reply exactly when its worker has not given up, it has no recv or send to come while silent, and nobody silent is in the mutex before it |
| `ServerTraffic.ClientsBytes` | server/src/socket_client.c:66-78 | in every run what a client has in the file is, in order, what its recv calls brought there |
| `ServerTraffic.LoggersLines` | server/src/main.c:384-390 | in every run the logger's sections are what was there at the start and then, in order, what its appends left |
| `ServerTimestamps.OneLinePerWakeUp` | server/src/main.c:362-394 | in every run each tick and each post is still pending, or has made the logger format one line, or has stopped it |
| `ServerTimestamps.OnePostPerSignal` | server/src/main.c:396-400 | in every run each signal has posted once or is about to |
| `ServerTimestamps.TimestampsGoToFilesOnly` | server/src/main.c:384-390 | in every run with a plain file every formatted line is appended or in hand; with the device the logger appends nothing |
| `ServerShutdown.NoLostWakeUp` | server/src/main.c:396-404 | after a handler has finished the logger has a wake-up to come or is at its check or past it, and is never left at its wait without one |
| `ServerShutdown.LoggerStops` | server/src/main.c:362-394 | with the flag set and a wake-up to come, in every run the logger takes at most six more steps, and until then only the mutex keeps it from its next |
| `ServerShutdown.RunNoPost` | server/src/main.c:362-394 | with the flag set and no post, a sleeping logger sleeps on in every run, and one with a wake-up to come never falls asleep |
| `ServerLogger.FallAsleep` | server/src/main.c:362-394 | with the flag set, a logger that is past no check and has no wake-up to come can be left asleep |
| `ServerLogger.NeverLeftAsleepIff` | server/src/main.c:362-394 | with the flag set, no run without a post leaves the logger asleep exactly when a post is pending or it is at its check or past it |
| `ServerWitnesses.HeldUpServer` | server/src/main.c:2-10 | from start-up a server told to stop is reached in which nothing can step, and none can while the client stays silent |
| `ServerWitnesses.AsleepAfterAccept` | server/src/main.c:197-202 | from start-up a failed accept is reached that leaves the logger asleep with the flag set and nothing posted |
| `ServerWitnesses.AsleepAfterSweep` | server/src/main.c:208-212 | the same for a sweep that met a failed worker |
| `ServerWitnesses.AsleepAfterCreate` | server/src/main.c:232-240 | the same for a failed thread creation |

## Left out

- Sockets, bind, listen, errno handling, daemonising, timers and syslog: foreign calls; where a step needs their answer it is an input.
- Kernel registration, container_of, cdev handling and debug printing: no property of their own.
- CharDriver.AesdDevice.Read: the position and the total of the live sizes are taken to be below 2^64, which one address space guarantees.
- SocketClient.SendFile: the open is taken to succeed and a read not to fail; after a failed open the original sends from a bad descriptor.
- SocketClient.ReceiveAndWriteData: what the log holds is stated for a device whose staged block was not lost before; WriteKeeps and RunExact say what a lost one costs.
- ServerIo.WorkerKeepsIo: a failed append only adds bytes; the staged block that a refused device write loses is in CharDevice and SocketClient, not in the step system.
- ServerIo.DeviceReply: needs the visible records to fit the read buffer, by ReadAllExact the exact condition for the reply to be the content.
- Server.RunsAreSafe: pthread_join is a step that succeeds once the thread has exited.
- C memory-model questions about unsynchronised reads of the status and the termination flag: each access is one atomic step.
- Descriptors: the closing of sockets and files, including on the error paths, is not counted.
- The strftime format, QUEUE_MACRO_DEBUG tracing, the kernel-only list checks and the FOREACH_FROM variants.
- The examples, finder-app and student-test directories, the shell scripts and read_line_from_stream.
