# miring, modelled and proved

miring emulates io_uring in user space. User code pushes submission entries (SQEs) into one
power-of-two ring and reaps completions (CQEs) from another; both rings use 32-bit indices
that wrap, and each side works on cached copies of them. `submit` snapshots the published
SQEs and hands them to a background thread; the thread runs them one by one, cancelling the
rest of a link chain when a member fails; a flush joins the threads in submission order and
posts what they recorded. Running an SQE means reading and zeroing user memory the way the
kernel would.

## How the project is built

| file | what it holds |
|---|---|
| Words.dfy, Entries.dfy | fixed-width words, masks, powers of two, little-endian bytes; SQEs, CQEs, flags |
| Spsc.dfy | one ring between one producer and one consumer, with stale cached indices |
| Effects.dfy, Dispatching.dfy | what each opcode does to memory; the handlers as loops over bytes |
| Manual.dfy | what each opcode does, by number, in SQE fields, bytes and plain numbers; the dispatch table proved to do it |
| Batch.dfy | one batch: the link-chain bit, its declarative rule, frames |
| Interface.dfy | the link rule, user data and silent successes in terms of flags bytes and pushed entries |
| Machine.dfy | the emulator as a transition system: user handles, submitter, threads, user writes |
| Safety.dfy, Guarantees.dfy | the invariant over every run of any length, and what it means to a user |
| Schedules.dfy, Streams.dfy | independence of memory, results and the CQE stream from the schedule |
| Boundaries.dfy | consuming SQEs in two calls against one |
| Flushing.dfy, IoUring.dfy, Queues.dfy | the objects: ring, submission handle, completion handle |
| Setup.dfy | the builder: accepted requests, ring sizes |
| Builders.dfy | the typed operations as a compiler into SQE fields, and the agreement with dispatch |
| Layouts.dfy | vectored and message operations from the bytes the caller laid out |
| RecvMsgOut.dfy | the multishot receive buffer: parser against layout |
| CqeLayout.dfy, ErasedRing.dfy | the completion ring as bytes at stride 16 or 32, for one write and along every run |
| Witnesses.dfy | concrete inputs for what the documentation denies or leaves open |

The machine (`Machine.Do`) takes one step per access to an index that another party may be
using, per SQE run by a thread, and per write of user code, so a run is any interleaving of
these. There is one submitting thread, and running one SQE is one step. Beside the state,
`Machine.Track` keeps a history on unbounded positions: everything ever pushed and posted,
every batch with the memory its SQEs met, and one verdict (posted, dropped, skipped) per
flushed completion. The classes repeat the source's statements on real fields and arrays;
each shared access is recorded as one action of the machine, and their `Valid` says that the
recorded actions are a legal run ending in the object's state, so every theorem about runs
holds of them.

Where the repository's words and its code differ, the code is followed:

- README.md:75 says a read fills the buffer with 0xAA; src/submit.rs:735 writes zeros.
- README.md:76 says threads are joined by the next `submit`; they are joined by `completion`,
  `split`, and by `enter` or `submit_and_wait` when any completion is wanted.
- src/lib.rs:467 advertises `IORING_FEAT_NODROP`; a full completion queue drops and counts
  (`Guarantees.DroppedIffFull`, `Witnesses.TwoIntoOne`).
- The comment at src/submit.rs:230-232 says hard-linked entries always run; an entry inside an
  already cancelled chain is cancelled whatever its link bits (`Witnesses.HardLinkIsCancelled`,
  `Witnesses.HardLinkPassesCancellation`),
  and an entry with both bits counts as hard (`Witnesses.BothBitsAreHard`).
- `submit_and_wait(want)` flushes everything for any `want > 0`.
- src/types.rs:448 places `msg_namelen` at offset 4; the code reads offset 8.
- An accept with file index 2^32 - 1 is encoded like an accept with none.
- A count of 2^31 bytes or more is reported as some other number, negative below 2^32.

## Model

| member | source | states |
|---|---|---|
| `Words.WrapDistance` | src/squeue.rs:170-172 | the wrapped difference of two u32 indices is the distance of the unbounded positions they stand for, past any number of wraps |
| `Words.SlotOfPosition` | src/submit.rs:213 | masking a wrapped index with size - 1 selects slot position mod size, because the size divides 2^32 |
| `Words.DistinctSlots` | src/squeue.rs:223-229 | positions less than a ring apart occupy different slots |
| `Words.NextPow2Least` | src/lib.rs:421 | no smaller power of two holds the request |
| `Spsc.Lengths` | src/cqueue.rs:191-193 | in every valid ring the wrapped difference of the cached indices is the true number of items, at most the capacity, and equal indices mean empty |
| `Spsc.PutInv` | src/squeue.rs:223-229 | a push the full check allows keeps the ring a FIFO queue, appends to it, and overwrites no slot the consumer has not released |
| `Spsc.PeekInv` | src/cqueue.rs:154-161 | a pop from a non-empty view returns the oldest item not yet taken, never an unwritten slot, and keeps the ring valid |
| `Spsc.SlotHolds` | src/squeue.rs:392 | every item from the producer's cached head on is in the slot its wrapped index selects |
| `Spsc.PushMultipleIsFold` | src/squeue.rs:210-220 | push_multiple succeeds iff all entries fit and iff one push after the other would, leaves the same state then and no change otherwise, and its capacity check cannot underflow |
| `Spsc.NextsAreThePrefix` | src/cqueue.rs:143-181 | k calls of next return the oldest min(k, len) items in order wherever the indices wrap, and the iterator is exhausted iff k is at least len |
| `Spsc.FillIsNexts` | src/cqueue.rs:143-151 | the queue state min(k, len) items further along in the same ring is the one that k calls of next leave, and those items are what they return |
| `Effects.DispatchFrame` | src/submit.rs:579-708 | what any SQE returns and writes depends on memory only through the descriptors it declares (iovec arrays, message header, address length) |
| `Manual.WordsRead` | src/submit.rs:808-819 | words are read little-endian, byte by byte |
| `Manual.TextBytes` | src/submit.rs:1021-1025 | a walked string is the bytes from its start with no NUL before them |
| `Manual.CoveredBytes` | src/submit.rs:494-498 | a vector's base is the word at offset 0 and its length the word at 8; vectors with a null base count for nothing |
| `Manual.DispatchHasRow` | src/submit.rs:579-708 | for each of the 256 opcode numbers: the result, the bytes written and their values, the descriptors read and the data looked at, from the SQE's fields and the bytes of memory alone |
| `Manual.RowLeaves` | src/submit.rs:579-708 | so each dispatch changes exactly the bytes written and no others, and uses exactly the stated addresses |
| `Dispatching.Memory.Fill` | src/submit.rs:734-736 | the byte loop zeroes exactly the range; each store logs its address |
| `Dispatching.Memory.Sink` | src/submit.rs:747-753 | the byte loop reads every byte of the range and no other; each load logs its address |
| `Dispatching.Memory.WalkCStr` | src/submit.rs:1021-1027 | the walk touches exactly the string and its terminator, and ends |
| `Dispatching.Memory.ScatterLoop` | src/submit.rs:768-777 | the loop over iovecs zeroes the non-null, non-empty vectors, each read as memory then stands, and totals their lengths saturating at 2^64 - 1 |
| `Dispatching.Memory.GatherLoop` | src/submit.rs:787-800 | the loop over iovecs reads the non-null, non-empty vectors and totals their lengths the same way |
| `Dispatching.Memory.RecvMsgHandler` | src/submit.rs:823-855 | name, control and vectors are cleared in this order, the header being re-read between; -14 for a null header |
| `Dispatching.Memory.SendMsgHandler` | src/submit.rs:858-902 | name, control and vectors are read, nothing is written, the total is returned; -14 for a null header |
| `Dispatching.Memory.AcceptHandler` | src/submit.rs:945-961 | with both pointers, the address is cleared to the length found and the length set to 0; always 42 |
| `Dispatching.Memory.XattrGetHandler` | src/submit.rs:1144-1165 | name read, value cleared, path read for the path variant only; the length is the result |
| `Dispatching.Memory.WriterHandler` | src/submit.rs:728-1244 | reads and receives, statx, epoll and id waits, and pipe write and return exactly the effect given for their opcode, and touch nothing else |
| `Dispatching.Memory.ReaderHandler` | src/submit.rs:741-1217 | writes and sends, timeouts, addresses, paths, futexes, buffers and attributes change no byte, return the result given for their opcode, and touch only the data it names |
| `Dispatching.Memory.BorrowBuffers` | src/submit.rs:1101-1106 | the slice over all provided buffers is created, its first and last bytes are read |
| `Dispatching.Memory.DescriptorHandler` | src/submit.rs:762-961 | vectored, message and accept operations have exactly the effect given for their opcode |
| `Dispatching.Memory.DispatchOp` | src/submit.rs:579-708 | for all 256 opcodes: the result, every byte of memory afterwards and the addresses logged by loads, stores and borrows are those stated by opcode number in the manual; and, without the manual's aliasing condition, those of the specification the machine uses |
| `Batch.SeveredStep` | src/submit.rs:266-279 | the one-bit loop computes the declarative rule `Severed`; `Interface.SeveredIsCutOff` gives the rule in flag arithmetic |
| `Batch.SeveredPrefix` | src/submit.rs:252-258 | whether an entry is cancelled depends on earlier results only |
| `Batch.CancelledIsASuffix` | src/submit.rs:240-287 | in every chain the cancelled entries are a suffix, right behind the soft-linked failure that severed it |
| `Batch.AdvanceOk` | src/submit.rs:243-287 | one iteration of the thread's loop, whatever memory it meets, extends a log that obeys the declarative rule |
| `Batch.PlanIsRun` | src/submit.rs:238-288 | running a batch alone satisfies the specification: each entry is cancelled by the rule or dispatched in the memory its predecessors left |
| `Batch.IsRunUnique` | src/submit.rs:238-288 | the specification has no other solution |
| `Batch.PlanAppend` | src/submit.rs:238-288 | a run can be cut anywhere: the rest is a run from the memory and the cancel bit reached |
| `Batch.BatchSplit` | src/submit.rs:238-288 | running a and then b gives the effects of running a + b unless a ends inside a severed chain, and then b's first entry is cancelled in one and dispatched in the other |
| `Batch.WholeChainsConcatenate` | src/submit.rs:238-288 | the runs of two batches, the first of which ends with no link bit, concatenate to the run of their concatenation |
| `Batch.MemoryOfARun` | src/submit.rs:252-258 | the memory a batch leaves is the fold of dispatch over exactly its entries that were not cancelled, in order |
| `Batch.OutsideFootprints` | src/submit.rs:252-258 | a batch changes no byte outside the footprints of what it dispatched |
| `Batch.PlanFrame` | src/submit.rs:233-288 | memories that agree on the descriptors a batch reads give it the same run |
| `Interface.SeveredIsCutOff` | src/submit.rs:238-287 | an entry is cut off iff some earlier entry that was not had a negative result and flags with bit 4 and not bit 8, and every entry from it on has one of the two bits; this is the loop's rule |
| `Interface.LinkLaw` | src/submit.rs:252-279 | for a batch run alone: -125 and no effect if cut off, dispatched in the memory its predecessors left if not |
| `Interface.JoinedAreAnswered` | src/submit.rs:243-286 | in every reachable state each entry of each joined batch has recorded its own user data, silence iff flag bit 64, -125 iff cut off, and otherwise a result the manual allows in the memory it met |
| `Interface.EntriesAreAnswered` | src/submit.rs:200-355 | in every reachable state the v-th verdict is about the v-th entry ever pushed; it is silent iff the entry has flag bit 64 and succeeded; everything posted is, in order, the entries posted with their own user data, result and flags 0; the reaped CQEs are a prefix; with no drop exactly the silent entries are missing |
| `Safety.ProtocolStep` | src/submit.rs:200-222 | every step of user, submitter and threads keeps both rings single-producer single-consumer queues under stale views, the snapshot a segment of the submission queue, and the reaped CQEs a prefix of the posted ones |
| `Safety.AccountsStep` | src/submit.rs:303-315 | every step keeps: consumed SQEs are exactly those of the batches, in order; batches are joined once, in order; each flushed completion gets one verdict, in order |
| `Safety.LedgerStep` | src/submit.rs:310-331 | every step keeps: skipped iff silence was asked for and the result is not negative; the log is the posted ones; counter and flag record the dropped ones |
| `Safety.ChainsStep` | src/submit.rs:240-287 | every step keeps: each live or joined batch has recorded what the link rule prescribes for the memories its entries met |
| `Safety.InvStep` | src/submit.rs:200-355 | every enabled step keeps the whole invariant |
| `Safety.Safe` | src/submit.rs:200-355 | the invariant holds after every legal schedule, of any length, from rings of any accepted sizes |
| `Guarantees.RingsAreSafe` | src/squeue.rs:103-125 | in every reachable state, for both rings: producer's cached head <= shared head <= consumer's head <= consumer's cached tail <= shared tail <= producer's tail <= producer's cached head + capacity, and every item not released sits alone and intact in its slot |
| `Guarantees.PostedIsVisible` | src/submit.rs:308-312 | posted plus dropped are the visible completions; with no drop they are equal, in order |
| `Guarantees.EndToEnd` | src/submit.rs:200-355 | in every run, reaped CQEs followed by those in the ring are the posted completions of the flushed batches in submission order; a completion is skipped iff it asked for silence and its result is not negative; with no drop nothing else is missing |
| `Guarantees.DroppedIffFull` | src/submit.rs:318-331 | in every reachable state a completion is dropped iff the ring is full of completions not released, as the head loaded for it shows, and that head never runs ahead of the user |
| `Guarantees.Conservation` | src/submit.rs:318-331 | in every reachable state, also while and after the ring is dropped: consumed SQEs = reaped + in the ring + dropped + skipped + being flushed + in unjoined batches + in batches joined by dropping the ring; the counter is the drops modulo 2^32; the flags word is 2 if there was one and 0 if not, but for the moment between the first count and the store |
| `Guarantees.FlushCompletes` | src/submit.rs:303-315 | when a flush returns no batch is pending and every consumed SQE has its verdict |
| `Guarantees.OnlyThreadsBlock` | src/submit.rs:308 | a flush or drop can always go on, if need be after its oldest thread does |
| `Guarantees.ClosedJoinedAll` | src/lib.rs:81-97 | after dropping the ring every batch ever spawned was joined, once, complete, and in order |
| `Guarantees.NoOverflow` | src/submit.rs:322-331 | if the queue has room for what is pending each time a flush starts, no run ever drops: counter 0, flag clear |
| `Guarantees.TwoBatchesFit` | src/lib.rs:431 | with the default sizes two batches started from a drained ring always fit |
| `Schedules.RestUnfolds` | src/submit.rs:243-287 | a thread's next step performs the first effect it has left and leaves the others |
| `Schedules.RestFrame` | src/submit.rs:233-288 | writes outside the descriptors a thread has yet to read leave its remaining run as it was |
| `Schedules.ResultsAreAtomic` | src/submit.rs:233-315 | in every run where nobody writes descriptors a live batch still has to read, each joined batch recorded what running it whole at its submission would have recorded |
| `Schedules.MemoryIsAtomic` | src/submit.rs:233-288 | if moreover footprints of live batches and user writes are disjoint, the memory in which each batch ran whole at submission is the actual memory plus what is still to be written |
| `Schedules.HistoryFollowsScript` | src/submit.rs:200-295 | the reference memory and results are those of replaying submissions and user writes with no threads at all |
| `Schedules.ScheduleIndependence` | src/submit.rs:233-315 | after any isolated run the joined batches recorded what the thread-free replay records, and with no live thread the memory is the replay's |
| `Schedules.SchedulesAgree` | src/submit.rs:233-315 | two schedules of the same submissions and user writes end with the same completions and memory |
| `Streams.StreamOf` | src/submit.rs:303-315 | what flushes have posted so far is the visible part of a prefix of the reference results, up to counted drops, and of all of them at rest |
| `Streams.StreamIsAtomic` | src/submit.rs:233-315 | in every quiet run the posted CQEs are, batch after batch, those of running each batch whole at its submission, up to counted drops |
| `Streams.StreamsAgree` | src/submit.rs:233-315 | two schedules of the same submissions and user writes, without drops and with nothing pending, posted the same CQEs in the same order and left the same memory |
| `Streams.SelfContainedIsQuiet` | src/submit.rs:233-288 | a run that submits no vectored, message or accept operation is quiet, whatever else it does |
| `Streams.ReadOnlyIsIsolated` | src/submit.rs:233-288 | one that submits nothing that writes either is isolated, whatever user code writes |
| `Streams.SelfContainedStream` | src/submit.rs:233-315 | so its CQE stream is, under every schedule and with no condition on writes, that of running each batch whole at its submission |
| `Boundaries.UnlinkedEndsClean` | src/submit.rs:276-279 | a batch whose last entry has no link bit ends outside any severed chain, in every memory |
| `Boundaries.TwoBatchesOrOne` | src/submit.rs:137-149 | two calls record and leave what one call does if the first batch ends clean; otherwise the second's first entry is dispatched in two and cancelled in one |
| `Boundaries.SplitReplay` | src/submit.rs:137-149 | the same anywhere in a history of submissions and user writes, whatever follows |
| `Boundaries.SplitIsInvisible` | src/submit.rs:137-149 | the same for concurrent runs: two isolated runs at rest that differ only in that cut have the same completions and memory |
| `Boundaries.SplitFlush` | src/submit.rs:303-315 | flushing pending threads followed by the two batches posts and leaves what flushing them followed by the one does |
| `Flushing.OfferedAppend` | src/submit.rs:303-355 | posting batch after batch is posting their concatenation: what fits is kept, the rest counted modulo 2^32, the flag raised iff there is any |
| `Flushing.FinalUnfolds` | src/submit.rs:243-287 | what a thread will have recorded and written at its end does not change when it takes a step |
| `IoUringObjects.Turn` | src/submit.rs:243-287 | one turn of the loop: the record has the entry's user data and silence bit, -125 and untouched memory under cancellation, and the new cancel bit is given by flag arithmetic; all as the machine's step |
| `IoUringObjects.IoUring.constructor` | src/lib.rs:437-512 | zeroed rings of the given sizes, with nothing pending, are the machine's start state and valid |
| `IoUringObjects.IoUring.SqLen` | src/submit.rs:112-118 | the number of published SQEs not yet consumed |
| `IoUringObjects.IoUring.LoadSq` | src/submit.rs:201-209 | how many SQEs to take: the smaller of what was asked and what is published |
| `IoUringObjects.IoUring.EnqueueSqes` | src/submit.rs:200-295 | takes the oldest min(asked, published) SQEs, in order, into one new thread after the pending ones, or nothing; the completion side is untouched |
| `IoUringObjects.IoUring.PostCqe` | src/submit.rs:318-355 | appends the completion iff the queue, as the user last released it, has room; otherwise counts it modulo 2^32 and raises the flag on the first |
| `IoUringObjects.IoUring.RunOne` | src/submit.rs:243-287 | any live thread may take one turn at any point; the others keep their state |
| `IoUringObjects.IoUring.UserWrites` | src/submit.rs:190-199 | user code may write its memory between any two steps of the emulator |
| `IoUringObjects.IoUring.AwaitOldest` | src/submit.rs:307-308 | waiting for the oldest thread, while other threads take any turns and user code makes any writes; if nothing else happens, the thread records and writes what its remaining plan says |
| `IoUringObjects.IoUring.Recorded` | src/submit.rs:233-315 | what the batches joined so far recorded: in quiet runs what each records run whole at its submission, in isolated runs what the thread-free replay records and leaves |
| `IoUringObjects.IoUring.PostOne` | src/submit.rs:310-312 | nothing for a completion that asked for silence and is not negative; otherwise a CQE with its user data, its result and flags 0 is offered |
| `IoUringObjects.IoUring.PostResults` | src/submit.rs:309-313 | the visible completions of one batch are offered to the queue in order |
| `IoUringObjects.IoUring.JoinOldest` | src/submit.rs:307-308 | the oldest pending thread is joined and its records are taken |
| `IoUringObjects.IoUring.FlushOne` | src/submit.rs:307-313 | waits for one batch, whatever happens meanwhile, and offers what it recorded to the queue |
| `IoUringObjects.IoUring.FlushPending` | src/submit.rs:303-315 | whatever other threads and user code do meanwhile: every pending batch is joined in order and nothing stays pending; log, counter and flags are the old ones with the visible completions of the batches joined here offered in order; if nothing else happens, completions and memory are those of the remaining runs one by one |
| `IoUringObjects.IoUring.Enter` | src/submit.rs:137-149 | consumes min(to_submit, published) SQEs as one batch; iff min_complete > 0 everything pending is flushed, whatever happens meanwhile; otherwise nothing else changes |
| `IoUringObjects.IoUring.SubmitAndWait` | src/submit.rs:158-165 | consumes everything published; flushes everything pending iff want > 0, whatever want is |
| `IoUringObjects.IoUring.FlushForHandles` | src/lib.rs:316-318 | the flush done before a completion handle is given out |
| `IoUringObjects.IoUring.Close` | src/lib.rs:81-97 | dropping the ring joins every pending thread in order, whatever happens meanwhile, keeps their writes, posts nothing |
| `Queues.SubmissionQueue.constructor` | src/squeue.rs:103-109 | borrowing caches the shared indices; the view is the queue from the submitter's head on |
| `Queues.SubmissionQueue.Sync` | src/squeue.rs:119-125 | publishes everything pushed, then sees how far the submitter has got |
| `Queues.SubmissionQueue.Len` | src/squeue.rs:170-172 | entries pushed and, as far as the handle knows, not consumed; at most the capacity |
| `Queues.SubmissionQueue.IsFull` | src/squeue.rs:182-184 | full iff as many as the ring has slots |
| `Queues.SubmissionQueue.CqOverflow` | src/squeue.rs:151-155 | true only if some completion was ever dropped, and iff so but for the moment between the count of the first drop and the store of the flag, where it lags |
| `Queues.SubmissionQueue.Push` | src/squeue.rs:194-201 | accepts iff not full, and then appends the entry; refusal changes nothing |
| `Queues.SubmissionQueue.PushUnchecked` | src/squeue.rs:223-229 | appends the entry when there is room |
| `Queues.SubmissionQueue.PushMultiple` | src/squeue.rs:210-220 | appends all entries in order iff all fit; otherwise changes nothing |
| `Queues.SubmissionQueue.Walk` | src/squeue.rs:386-397 | the printer's walk ends also across 2^32 and lists exactly the queue |
| `Queues.SubmissionQueue.Drop` | src/squeue.rs:232-237 | dropping the handle publishes everything pushed |
| `Queues.CompletionQueue.constructor` | src/cqueue.rs:86-92 | borrowing sees everything posted so far |
| `Queues.CompletionQueue.Sync` | src/cqueue.rs:103-108 | releases what was taken, then sees what was posted meanwhile |
| `Queues.CompletionQueue.Overflow` | src/cqueue.rs:112-114 | the number of completions ever dropped, modulo 2^32 |
| `Queues.CompletionQueue.Len` | src/cqueue.rs:191-193 | completions the handle may take; at most the capacity |
| `Queues.CompletionQueue.Pop` | src/cqueue.rs:154-161 | returns the oldest posted completion not yet taken |
| `Queues.CompletionQueue.Next` | src/cqueue.rs:175-181 | returns the oldest completion, or none iff the view is empty, in which case nothing changes |
| `Queues.CompletionQueue.Fill` | src/cqueue.rs:143-151 | moves exactly the oldest min(len, buffer) completions to the front of the buffer, leaves the rest of it alone, and returns and leaves what as many calls of next as the buffer is long would |
| `Queues.CompletionQueue.Drop` | src/cqueue.rs:164-169 | dropping the handle releases what was taken |
| `Queues.Completion` | src/lib.rs:293-300 | flushes all pending batches in order, whatever happens meanwhile, then gives a handle that sees everything posted |
| `Queues.Split` | src/lib.rs:241-271 | flushes all pending batches in order, whatever happens meanwhile, then gives both handles |
| `Setup.NextPow2IsLeast` | src/lib.rs:421 | rounding up gives the least power of two not below the request |
| `Setup.RoundingOverflows` | src/lib.rs:429 | rounding up leaves u32 exactly for requests above 2^31 |
| `Setup.SizesAreLeast` | src/lib.rs:415-435 | a request is accepted iff 1 <= entries <= 2^15 and, when flag bit 8 is set, the queue size is between 1 and 2^31; then each size is the least power of two that holds what was asked, SQ at most 2^15, CQ without that bit exactly twice that |
| `Setup.Builder.SetupCqsize` | src/lib.rs:351-355 | sets flag bit 8, leaves the other flags, stores the size |
| `Setup.Builder.Build` | src/lib.rs:415-529 | errors exactly for the refused requests; otherwise a fresh valid ring of the chosen sizes in the machine's start state, both queues safe, parameters reporting the sizes |
| `Builders.AssignFd` | src/opcode.rs:11-21 | a plain descriptor goes to fd and nothing else changes; a fixed one goes to fd modulo 2^32 with flag bit 1 set |
| `Builders.BuildTransfer` | src/opcode.rs:150-191 | the SQE assigned field by field for Read, Write, Readv and Writev is the specified encoding |
| `Builders.Build` | src/opcode.rs:92-121 | the same for the other operations; panics exactly when the file index plus one overflows an i32 |
| `Builders.TransferFields` | src/opcode.rs:150-191 | the four transfer builders use opcodes 22, 23, 1 and 2 and put every argument into its own field |
| `Builders.FieldsOf` | src/opcode.rs:350-398 | the other builders use their opcode numbers and put every argument into its own field |
| `Builders.EncodeIsInjective` | src/opcode.rs:462-474 | an operation can be read back from its SQE, except that an accept with file index 2^32 - 1 is indistinguishable from one with none |
| `Builders.SlotsAreFaithful` | src/types.rs:248-260 | slots up to 2^32 - 3 and no others have a kernel number, which is the slot plus 1, never the automatic one, and survives the cast to i32 |
| `Builders.GatherIsTotal` | src/submit.rs:781-801 | the gather loop reads the union of the live vectors and returns the saturated sum of their lengths |
| `Builders.ScatterIsTotal` | src/submit.rs:762-778 | with the vectors clear of their own array, the scatter loop zeroes the union of the live vectors and returns the saturated sum |
| `Builders.SendMsgMeaning` | src/submit.rs:858-902 | sendmsg reads name, control and vectors of the message and reports the sum of the vectors |
| `Builders.RecvMsgMeaning` | src/submit.rs:823-855 | recvmsg zeroes name, control and vectors of the message and reports the sum of the vectors |
| `Builders.BuildersAgreeWithDispatch` | src/opcode.rs:666-724 | for each of 13 operations, any flags and user data and any memory: dispatching the built SQE has exactly the operation's direct meaning: result, writes, descriptors and data read |
| `Builders.CountsAreReported` | src/submit.rs:777 | a byte count is reported faithfully iff it is below 2^31; below 2^32 it is negative iff it is not |
| `Builders.InjectedResultReturns` | src/opcode.rs:122-132 | NOP result injection returns every i32 through the u32 field |
| `Layouts.VectorFromBytes` | src/submit.rs:494-498 | sixteen bytes holding base and length, little-endian, are read as that vector |
| `Layouts.ArrayFromBytes` | src/submit.rs:768-777 | a list of buffers laid out as an array is read as exactly these buffers |
| `Layouts.ReadvFromBytes` | src/submit.rs:762-778 | for any buffers laid out clear of their array, the built readv zeroes exactly them and reports the sum of their lengths |
| `Layouts.WritevFromBytes` | src/submit.rs:781-801 | the built writev changes nothing, reads exactly array and buffers, and reports the sum |
| `Layouts.MessageFromBytes` | src/submit.rs:808-819 | 56 bytes holding name, name length, vectors, their number, control and control length are read as that message |
| `Layouts.RecvMsgFromBytes` | src/submit.rs:823-855 | the built recvmsg zeroes exactly name, control field and buffers of a message laid out clear of them, and reports the sum |
| `Layouts.SendMsgFromBytes` | src/submit.rs:858-902 | the built sendmsg changes nothing, reads exactly header, array and what the message carries, and reports the sum |
| `RecvMsgOuts.Parse` | src/types.rs:384-443 | succeeds iff 16 + name + control fits a usize and the buffer; the three slices are in bounds, ordered, disjoint; the name is flagged truncated iff its data is shorter than what came in |
| `RecvMsgOuts.HeaderInBytes` | src/sys.rs:546-551 | name, control and payload length and flags are the little-endian words at 0, 4, 8 and 12 |
| `RecvMsgOuts.ParseInvertsLayout` | src/types.rs:384-443 | parsing a buffer laid out as header, name field, control field and payload returns each part cut to its field, and the incoming lengths |
| `RecvMsgOuts.LayoutInvertsParse` | src/types.rs:384-443 | every buffer that parses is the layout of the header and fields found in it, and the three slices are those fields cut to the header's lengths |
| `CqeLayouts.EntryRoundTrip` | src/submit.rs:337-351 | the bytes posted read back as the base fields that were posted, and a zero big_cqe at stride 32 |
| `CqeLayouts.EntryInBytes` | src/sys.rs:382-386 | user data is the eight bytes at 0, the result the four at 8, flags the four at 12, the extra words those at 16 and 24, little-endian |
| `CqeLayouts.OtherSlots` | src/submit.rs:334 | writing one slot's bytes leaves every other slot's bytes |
| `CqeLayouts.PatchIsUpdate` | src/submit.rs:333-351 | in the typed view a byte-level post is a store to exactly one slot |
| `CqeLayouts.CqeArray.constructor` | src/lib.rs:459-462 | a zeroed array is a ring of zero entries |
| `CqeLayouts.CqeArray.PtrWrite` | src/submit.rs:337-344 | writing bytes at an offset replaces exactly those bytes |
| `CqeLayouts.CqeArray.WriteSlot` | src/submit.rs:333-351 | posting at either stride patches exactly the bytes of the tail's slot, which in the typed view is a store of the entry to that slot |
| `ErasedRings.OnlyPostsWrite` | src/submit.rs:333-351 | in the whole emulator only the posting of a completion writes the completion array, and only the tail's slot |
| `ErasedRings.BytesShowRing` | src/submit.rs:333-351 | in every run, of any length and at either stride, the bytes of the array read as entries are the ring's completions, extended by zero words on a wide ring |
| `ErasedRings.ReapedAsPosted` | src/cqueue.rs:154-161 | in every reachable state the next entry to pop, read out of the bytes, has the base fields posted at that position and, on a wide ring, a zero big_cqe |
| `Witnesses.HardLinkIsCancelled` | src/submit.rs:252-279 | behind a soft-linked failure a hard-linked entry is cancelled |
| `Witnesses.HardLinkPassesCancellation` | src/submit.rs:252-279 | three no-ops with flags 4 (failing), 8 and 0 complete with -1, -125, -125 |
| `Witnesses.BothBitsAreHard` | src/submit.rs:266-274 | a failing entry with both link bits does not cancel its successor |
| `Witnesses.TwoIntoOne` | src/submit.rs:322-331 | two completions flushed into a ring with one slot: one posted, one dropped and counted, flag set |

## Left out

- Memory orderings, Loom and Miri shims, pointer provenance: every atomic access is one sequentially consistent step.
- `register_*`, `Probe`, `Restriction`, parameter getters, eventfd, SQ polling: stubs or constants.
- Setup flags other than the completion queue size, and the entry-size bits of `Builder::default`: stored, no effect on the rings.
- IO_DRAIN, ASYNC, BUFFER_SELECT, real time in timeouts: accepted by the source and without effect there.
- The remaining typed builders and `UringCmd80`: same shapes of encoding and dispatch; all 63 opcodes are dispatched.
- CQE flag decoders, Debug and Display formatting apart from the index walk.
- Thread panics inside `join`, allocation failure, handles leaked with `mem::forget`, several handles of one queue at once: the single-handle rule of the `_shared` calls is a precondition.
- `submit_with_args`, `squeue_wait`, `need_wakeup`, `taskrun`, `dropped`, `parse_msghdr`: copies of modelled calls, constants, or two field reads.
- `thread::spawn` and the store of the SQ head are one step of the machine; nothing can observe the state between them.
- IoUringObjects.IoUring.FlushPending: while the object waits, threads and user writes interleave; its queue handles stay put. Handles that move during a flush are covered by the machine.
- Machine.Do: one dispatch is one atomic step, so interleavings of single bytes inside a handler, which the source leaves to the race detector, are not covered.
- There is a single submitting thread: two calls of `enter` at once are not covered.
- Effects.DispatchFrame: addresses are unbounded integers, so a range that would wrap past 2^64 continues upwards.
- Dispatching.Memory.WalkCStr: an unmapped address reads as 0, so every string ends; the source would fault or run on.
- Dispatching.Memory.DispatchOp: the log of addresses is kept by `Borrow`, `LoadByte` and `StoreByte`; that the handlers use memory only through them is how the file is written, not a type rule.
- Dispatching.Memory.Sink: the wrapping sum of the bytes goes to a black box in the source and is dropped here.
- Dispatching.Memory.RecvMsgHandler: header and iovec words are read one at a time as memory stands; the source may cache them, which it may only do when nothing it writes overlaps them.
- Manual.DispatchHasRow: for readv and recvmsg it asks that what is written is not the descriptors being read, as the source's shared and exclusive slices already demand.
- Builders.BuildersAgreeWithDispatch: for Readv and RecvMsg it asks that what is written is not the descriptors being read, as the source's shared and exclusive slices already demand.
- Setup.Builder.Build: an explicit completion queue above 2^31 is the panic of a build with overflow checks; without them the size would become 0.
- Builders.Build: a file index of 2^31 - 1 is the panic of a build with overflow checks; without them the field would be the least i32.
- Streams.StreamsAgree: with drops two schedules may drop different completions; `Streams.StreamIsAtomic` gives the counts.

Nothing was executed: all claims rest on the source text and the proofs.
