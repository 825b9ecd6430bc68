# Verification of the queue, the formatter and the log merge

This project models the algorithmic cores of the vendored libraries and proves properties of them: the
lock-free multi-producer multi-consumer queue with its semaphore (`external/header_only/cameron314`), parts of
the `fmt` formatting library, the merge step of the `fmtlog` logger and two helpers of `argparse`. Nothing here
executes the C++ code; each module states in its head what it stands for.

`dafny verify dfyconfig.toml` checks everything.

## How the concurrent parts are modelled

A concurrent module (`Tickets`, `FreeList`, `ExplicitIndex`, `ImplicitIndex`, `ProducerHash`, `LightweightSemaphore`,
`BlockingQueue`, the two compositions `ExplicitProducer` and `ImplicitProducer`, `ExplicitCounters`, and the modules
on words; those whose names end in `Alone`, `Calls` or `Sizes` say more about them) is a state and a function `Step`. One step is one atomic access of one thread, with the thread-local code up
to its next access. A schedule is any sequence of steps of any number of threads, `Execute` runs it, and the main
results hold of the state after every schedule. The calls made are read off the schedule, not off the state
(`CallLog`), and what one call achieves while the others pause is stated as a schedule of one thread. Memory is sequentially consistent. Fields called history (`tickets`,
`owner`, `done`, `taken`, `enq`, `at`, `home` and the like) record what happened; no step branches on them. The field
`place` is more than that in two steps: in `FreeList` it is also the clients' discipline, as the step that starts an
add checks that the client owns the node, and in `ImplicitIndex` the blocks whose place is `Free` are the free list,
from which the requisition of a block takes one. Reusing or inserting a block resets all its flags, or its counter, in
that one step, because no other thread reads the block then: all its elements are gone and marked, or no consumer can
find it yet.

The block size is an arbitrary constant of type `BlockSize`: any power of two from 2 on. Counters are unbounded
naturals; `Wraparound`, `ExplicitWords`, `CounterWords` and `ImplicitWords` then show that the program, with 64-bit
words that wrap around and are compared by `circular_less_than`, goes through the same states as long as the live
indices lie less than half the range apart. Their lemmas `ShortRunsStay` say of which runs this is certain beforehand,
from the number of steps and the largest count asked for.

The sequential parts are methods with loops, and classes where the source has objects that change, each proved
against a function or predicate whose meaning is then proved separately.

| module | what it models |
|---|---|
| `Tickets`, `TicketsAlone` | claiming indices of a sub-queue: optimistic count, overcommit, head |
| `ExplicitIndex`, `ImplicitIndex` | blocks, rings and growing block indices of the two kinds of producer |
| `ExplicitProducer`, `ImplicitProducer` | a whole sub-queue: the ticket protocol on top of the block index |
| `ExplicitAlone`, `ImplicitAlone` | what a single enqueue or dequeue achieves |
| `CallLog` | the record of the calls of enqueue |
| `ExplicitCounters` | the explicit sub-queue whose large blocks have a counter instead of flags |
| `ExplicitWords`, `CounterWords`, `ImplicitWords` | the sub-queues on wrapping words |
| `FreeList`, `FreeListCalls` | the reference-counted free list |
| `ProducerHash`, `ProducerHashCalls`, `ProducerHashSizes` | the growing hash from threads to producers |
| `LightweightSemaphore`, `SemaphoreAlone`, `BlockingQueue`, `BlockingQueueCalls` | the semaphore and the blocking queue around the sub-queues |
| `Wraparound`, `BlockArithmetic`, `BitMasks` | index arithmetic, on naturals and on wrapping words |
| `TrailingZeros` | removal of decimal zeros and division by multiplication |
| `SpecParser`, `FormatCompiler`, `Digits` | format specifiers, the run-time parser and the format compiler |
| `SpecRequests`, `FormatTemplates` | what specifiers and format strings mean, declared apart from the parsers |
| `TruncatingBuffer` | the buffers of `format_to_n` |
| `IsoWeek` | ISO week dates |
| `LogMerge` | one poll of the logger |
| `EditDistance`, `DecimalLiteral` | "did you mean" and the decimal-literal recogniser of `argparse` |
| `Tally`, `Options`, `Sequences` | sums over threads, optional values, slices |

## Where the code and what is said about it part

- The reference count of the free list has 31 bits, so it is natural to say that fewer than 2^31 threads are
  safe. The exact limit is 2^31 - 2 threads: a listed node is itself counted once, so one thread more can carry
  into the flag bit (`FreeList.ThreadLimit`).
- The format compiler does not look at the unit after a `}` outside of a field and skips it. So it accepts
  strings that the run-time parser rejects, such as `a}b`, which it turns into `a}`; apart from those the two
  accept the same strings (`FormatCompiler.CompiledMeansTheSame`, `FormatCompiler.LoneBraceIsCompiled`).
- The 64-bit `remove_trailing_zeros` is right exactly for significands below 2^32 * 10^8 and for those that are
  no multiple of 10^8 (`TrailingZeros.RemoveTrailingZeros64`); of (2^32 + 1) * 10^8, for example, it leaves 10^8
  (`TrailingZeros.CutOff`). The 32-bit one counts correctly for an even start;
  with an odd start it loses one if the number of zeros is odd.
- `divide_by_10_to_kappa_plus_1` for 64-bit words is one too large for some arguments (`TrailingZeros.DivideBy1000`
  says for which), the least of them 15534100272597517999 (`TrailingZeros.DivideBy1000Fails`).

## Model

| member | source | states |
|---|---|---|
| Tickets.GrantsFitTail | external/header_only/cameron314/concurrentqueue.h:1955-2001 | the counting argument: overcommit read before a draw was returned by earlier tickets, so all grants together stay below the tail |
| Tickets.ClaimFits | external/header_only/cameron314/concurrentqueue.h:1992-2005 | the head fetch_add of a granted dequeue lands on indices that have been published |
| Tickets.HeadBehindTail | external/header_only/cameron314/concurrentqueue.h:1955-2052 | headIndex never passes tailIndex |
| Tickets.StepKeeps | external/header_only/cameron314/concurrentqueue.h:2248-2338 | every access of every thread keeps the invariant of the protocol |
| Tickets.ClaimsAreExclusive | external/header_only/cameron314/concurrentqueue.h:1955-2052 | in every interleaving each index below the head has been claimed exactly once, no other has, and a pending claim fits below the tail |
| Tickets.QuiescentCount | external/header_only/cameron314/concurrentqueue.h:1957-1960 | with no dequeue between draw and completion, optimistic count minus overcommit is the head |
| Tickets.OwnRange | external/header_only/cameron314/concurrentqueue.h:2003-2005 | the indices a thread has come back with are covered by its own ticket and by no other |
| Tickets.RangesDisjoint | external/header_only/cameron314/concurrentqueue.h:2003-2005 | the ranges of two threads have no index in common |
| Tickets.LoneDequeue | external/header_only/cameron314/concurrentqueue.h:2248-2274 | when only one thread moves, its dequeue takes min(max, tail - head) elements from the head on, and nothing only from an empty sub-queue |
| TicketsAlone.GrantedOnce | external/header_only/cameron314/concurrentqueue.h:1967-2001 | the step in which a thread reads the tail again grants its ticket min(width, what the earlier tickets leave below the tail), and no other step of any thread grants that ticket anything |
| TicketsAlone.TakesItsGrant | external/header_only/cameron314/concurrentqueue.h:1992-2005 | in every run a ticket nobody holds has taken all it was granted and handed back the rest |
| TicketsAlone.LoneFinish | external/header_only/cameron314/concurrentqueue.h:1967-2005 | a thread that has drawn a ticket and goes on alone, whatever the others are in the middle of, comes back with exactly that share from the head on and hands back the rest |
| TicketsAlone.TailIsPublished | external/header_only/cameron314/concurrentqueue.h:1948-1951 | in every run the tail is the number of elements published |
| ExplicitIndex.StepKeeps | external/header_only/cameron314/concurrentqueue.h:1849-1952 | every step of the enqueuer and of the consumers keeps ring, index and cells consistent |
| ExplicitIndex.ComputedSlot | external/header_only/cameron314/concurrentqueue.h:2008-2019 | from any published front slot, the base difference divided by the block size leads to the slot of the wanted block |
| ExplicitIndex.CopiedHeaderOk | external/header_only/cameron314/concurrentqueue.h:2356-2393 | doubling puts the blocks in use, in order, into the new index |
| ExplicitIndex.CopyIndex | external/header_only/cameron314/concurrentqueue.h:2370-2378 | the copying loop writes exactly the used entries, oldest first, into the first slots |
| ExplicitIndex.EveryConsumerIsServed | external/header_only/cameron314/concurrentqueue.h:2003-2040 | in every run the elements are the values of the successful enqueue calls; a consumer finds the element of its index, still there, and a finished claim has delivered its elements in order |
| ExplicitIndex.EnqueuedInOrder | external/header_only/cameron314/concurrentqueue.h:1849-1952 | in every run the elements of the sub-queue are the values given to the enqueue calls that succeeded, in the order of the calls |
| ExplicitIndex.BlocksRecycledSafely | external/header_only/cameron314/concurrentqueue.h:1856-1866 | a block is reused only when all its indices are done and its cells bare; elements are constructed only in bare cells; flags are set once |
| ExplicitAlone.LoneEnqueue | external/header_only/cameron314/concurrentqueue.h:1849-1952 | a call that is not interrupted ends within BLOCK_SIZE + 8 accesses and appends its value, unless it needs a new block and is refused room or memory; then it changes nothing |
| ExplicitAlone.LoneDequeue | external/header_only/cameron314/concurrentqueue.h:1955-2052 | an undisturbed dequeue, single or bulk, returns min(max, tail - head) elements, those enqueued from the head on, in order |
| ExplicitProducer.DequeuesDeliver | external/header_only/cameron314/concurrentqueue.h:1955-2052 | end to end, in every run: a finished dequeue, single or bulk, delivered exactly the values that the successful enqueue calls of these indices were given; all indices lie below the head and each is covered by its ticket and no other |
| ExplicitProducer.DequeuesAreDisjoint | external/header_only/cameron314/concurrentqueue.h:1955-2052 | in every run no two dequeues, finished or still moving elements, have an index in common |
| ExplicitProducer.NothingIsLost | external/header_only/cameron314/concurrentqueue.h:1955-2052 | in every run, once no dequeue is moving elements, every index below the head has been moved out and marked empty |
| ExplicitCounters.EveryRunIsARun | external/header_only/cameron314/concurrentqueue.h:1573-1633 | every run with counters is a run with flags: one addition stands for the flags of a part, one comparison for a scan |
| ExplicitCounters.CountsAreExact | external/header_only/cameron314/concurrentqueue.h:1584-1632 | a counter is BLOCK_SIZE exactly when all elements of the block are gone, and the asserts about the counters hold |
| ExplicitCounters.DequeuesDeliver | external/header_only/cameron314/concurrentqueue.h:1955-2052 | end to end with counters: finished dequeues deliver the values given to the enqueue calls and nothing is lost |
| ImplicitIndex.StepKeeps | external/header_only/cameron314/concurrentqueue.h:2487-2548 | every step of enqueue (insert, rewind, doubling) and of the consumers keeps index, blocks and cells consistent |
| ImplicitIndex.KeysConsecutive | external/header_only/cameron314/concurrentqueue.h:2901-2939 | neighbouring slots of the current index hold the keys of neighbouring blocks |
| ImplicitIndex.ComputedSlot | external/header_only/cameron314/concurrentqueue.h:2948-2964 | from any tail slot ever observed the computed slot is that of the wanted block |
| ImplicitIndex.NewSlotInvalid | external/header_only/cameron314/concurrentqueue.h:2924-2927 | the assert after doubling holds: the next slot has no key |
| ImplicitIndex.EveryConsumerIsServed | external/header_only/cameron314/concurrentqueue.h:2561-2612 | in every run the lookup asserts hold, the elements are the values of the successful enqueue calls, consumers find those of their indices, and finished claims delivered them in order |
| ImplicitIndex.EnqueuedInOrder | external/header_only/cameron314/concurrentqueue.h:2487-2548 | in every run the elements of the sub-queue are the values given to the enqueue calls that succeeded, in the order of the calls |
| ImplicitIndex.BlocksRecycledSafely | external/header_only/cameron314/concurrentqueue.h:2596-2610 | only the consumer that counted the last element gives a block back, once all are done; free blocks are bare |
| ImplicitAlone.LoneEnqueue | external/header_only/cameron314/concurrentqueue.h:2487-2548 | a call that is not interrupted ends within nine accesses and appends its value or nothing; refused nothing, it appends its value exactly if it needs no new index entry or there is room for one |
| ImplicitAlone.RefusedRoom | external/header_only/cameron314/concurrentqueue.h:2492-2505 | a call that is refused room for a new block changes nothing |
| ImplicitAlone.LoneDequeue | external/header_only/cameron314/concurrentqueue.h:2780-2879 | an undisturbed dequeue, single or bulk, returns min(max, tail - head) elements, those enqueued from the head on, in order |
| ImplicitProducer.DequeuesDeliver | external/header_only/cameron314/concurrentqueue.h:2780-2879 | end to end, in every run: a finished dequeue delivered exactly the values that the successful enqueue calls of these indices were given, each index covered by its ticket and no other |
| ImplicitProducer.DequeuesAreDisjoint | external/header_only/cameron314/concurrentqueue.h:2780-2879 | in every run no two dequeues, finished or still moving elements, have an index in common |
| ImplicitProducer.NothingIsLost | external/header_only/cameron314/concurrentqueue.h:2780-2879 | in every run, once no dequeue is moving elements, every index below the head has been moved out and counted |
| FreeList.EveryRun | external/header_only/cameron314/concurrentqueue.h:1459-1538 | the invariant holds after every schedule: each node is on the list, owned, or about to be added, and the list is the chain from the head |
| FreeList.CountFitsBelowFlag | external/header_only/cameron314/concurrentqueue.h:1543-1545 | references to a node never exceed the threads by more than one |
| FreeList.AssertNeverFires | external/header_only/cameron314/concurrentqueue.h:1489-1494 | the assert after a successful removal holds |
| FreeList.LinkFixedWhileReferenced | external/header_only/cameron314/concurrentqueue.h:1473-1490 | a node's link is fixed while a thread in try_get holds a reference |
| FreeList.NodesChangeHandsLegally | external/header_only/cameron314/concurrentqueue.h:1459-1513 | a node changes hands only at the named program point of the thread that moves, working on that node: an owned node leaves its owner only when an idle thread starts to add it, and the thread that takes a node off the list comes back with that node |
| FreeListCalls.GetReturnsWhatItTook | external/header_only/cameron314/concurrentqueue.h:1473-1513 | in every run a finished try_get returns the node this call took off the list, and nothing only if it took none and the last head it saw was null |
| FreeListCalls.EveryCallEnds | external/header_only/cameron314/concurrentqueue.h:1459-1538 | from any point of any run a thread that goes on alone ends its call within 28 accesses, wherever the others have stopped |
| FreeListCalls.LoneGet | external/header_only/cameron314/concurrentqueue.h:1473-1513 | an undisturbed try_get returns the first node and leaves the rest, or nothing from an empty list |
| FreeListCalls.LoneAdd | external/header_only/cameron314/concurrentqueue.h:1459-1471 | an undisturbed add puts its node in front, or leaves it to the last thread that still refers to it |
| FreeList.NothingStranded | external/header_only/cameron314/concurrentqueue.h:1516-1538 | once all operations finish, every node is owned or reachable from the head |
| FreeList.ThreadLimit | external/header_only/cameron314/concurrentqueue.h:1463-1471 | the count is exact in every run if and only if there are at most 2^31 - 2 threads |
| FreeList.AssertLimit | external/header_only/cameron314/concurrentqueue.h:1489-1494 | the assert after a removal holds in every run if and only if there are at most 2^31 - 2 threads |
| ProducerHash.EveryTableKeepsAFreeSlot | external/header_only/cameron314/concurrentqueue.h:3414-3457 | in every run every table has a free slot and every probe loop ends within capacity probes |
| ProducerHash.OneProducerPerThread | external/header_only/cameron314/concurrentqueue.h:3388-3523 | two calls, any time apart, return the same producer exactly if the same thread made them |
| ProducerHash.CallsReturnAProducer | external/header_only/cameron314/concurrentqueue.h:3424-3456 | a finished call returns the producer made for the calling thread |
| ProducerHash.NothingMoves | external/header_only/cameron314/concurrentqueue.h:3460-3497 | growth keeps all tables and a slot once taken keeps its thread |
| ProducerHashCalls.LoneCall | external/header_only/cameron314/concurrentqueue.h:3388-3523 | an undisturbed call returns the producer the thread has, or makes exactly one; tables grow exactly if half of the last one is spoken for, to the least size of which less than half is |
| ProducerHashCalls.CountIsThreads | external/header_only/cameron314/concurrentqueue.h:3449-3452 | in every run, between calls, the common count is the number of threads that have a producer |
| ProducerHashSizes.TablesFitTheThreads | external/header_only/cameron314/concurrentqueue.h:3455-3485 | in every run each table is at least twice as large as the one before it and, but for the first, has at most four slots for each thread, however the threads race to grow it |
| ProducerHashSizes.AddedDuringGrowth | external/header_only/cameron314/concurrentqueue.h:3490-3523 | while another thread has the resize lock, a thread is added at once exactly if the table stays less than three quarters full |
| ProducerHashSizes.LockFreeBetweenCalls | external/header_only/cameron314/concurrentqueue.h:3455-3488 | in every run the resize lock is held only by a thread that is growing the table, so it is free between calls |
| ProducerHash.NotHere | external/header_only/cameron314/concurrentqueue.h:3458-3462 | reaching an empty slot proves that the thread has no entry in that table |
| LightweightSemaphore.Conservation | external/header_only/cameron314/lightweightsemaphore.h:278-418 | in every run slow-path waiters = kernel tokens + pending releases + max(0, -count), and initial + signalled = acquired + free + kernel + pending |
| LightweightSemaphore.NoLostWakeUp | external/header_only/cameron314/lightweightsemaphore.h:409-417 | with a non-negative count every sleeper has a token of its own on the way |
| LightweightSemaphore.TimedOutWaiterHasToken | external/header_only/cameron314/lightweightsemaphore.h:301-311 | a timed-out waiter that sees a non-negative count has a token or a pending release to take |
| LightweightSemaphore.RepairRound | external/header_only/cameron314/lightweightsemaphore.h:304-311 | one undisturbed round: it gives the decrement back exactly if the count is negative, takes a token exactly if one is there, and repeats exactly if there is none yet, with a release pending |
| LightweightSemaphore.WaitResult | external/header_only/cameron314/lightweightsemaphore.h:357-407 | in every run each access of a wait either goes on, or ends it with all it asked for or with no token left free, counted as it was taken; it ends with nothing only as a mere try that saw none free, as a wait for none, or by taking its decrement back at a negative count |
| SemaphoreAlone.TakesAlone | external/header_only/cameron314/lightweightsemaphore.h:314-407 | any wait for which there is a token, from wherever it is, ends by its own accesses with all it asked for or all there is |
| SemaphoreAlone.LoneWait | external/header_only/cameron314/lightweightsemaphore.h:357-407 | any wait, with any timeout, that begins while tokens are free takes min(max, count) of them with its third access |
| SemaphoreAlone.LoneTryFails | external/header_only/cameron314/lightweightsemaphore.h:379-390 | a try that finds none free returns nothing and changes nothing |
| SemaphoreAlone.LoneWaitInVain | external/header_only/cameron314/lightweightsemaphore.h:314-342 | a wait that finds none free and stops spinning sleeps until a post comes if it may block, and otherwise takes its decrement back and returns nothing |
| SemaphoreAlone.LoneSignal | external/header_only/cameron314/lightweightsemaphore.h:409-417 | an undisturbed signal adds its amount and posts once for every sleeper now owed a token |
| BlockingQueue.TokensMatchElements | external/header_only/cameron314/blockingconcurrentqueue.h:123-130 | in every run free tokens + tokens held in dequeue loops + elements not yet signalled = elements stored |
| BlockingQueue.DequeueReturnsItsTokens | external/header_only/cameron314/blockingconcurrentqueue.h:326-335 | a finished dequeue returns exactly as many elements as its wait took tokens |
| BlockingQueue.HolderCompletes | external/header_only/cameron314/blockingconcurrentqueue.h:294-303 | with no other dequeue in flight a token holder, inside a sub-queue or between two, completes its loop by its own accesses: at most six to leave the sub-queue, then one pass over the sub-queues in any order |
| BlockingQueueCalls.DequeueAnswersItsCaller | external/header_only/cameron314/blockingconcurrentqueue.h:326-335 | in every run the wait of a dequeue ends with at most as many tokens as the call asked for, with all of them or no token left free, and with nothing only for the reasons the semaphore has; the dequeue returns no more |
| BlockingQueueCalls.LoneDequeue | external/header_only/cameron314/blockingconcurrentqueue.h:326-335 | an undisturbed dequeue that begins while tokens are free returns min(max, tokens) elements |
| BlockingQueueCalls.LoneEnqueue | external/header_only/cameron314/blockingconcurrentqueue.h:123-130 | an undisturbed enqueue stores its elements in its sub-queue and frees as many tokens |
| Wraparound.CircularLessExact | external/header_only/cameron314/concurrentqueue.h:477-483 | the unsigned comparison is the true one exactly for distances in (-2^63, 2^63] |
| Wraparound.RoomCheckExact | external/header_only/cameron314/concurrentqueue.h:1872-1881 | the room check refuses a block exactly when tail and head could come half the range apart |
| Wraparound.SameSlot | external/header_only/cameron314/concurrentqueue.h:2014-2017 | signed division of the wrapped base difference, added and masked, is the slot of the unbounded protocol |
| Wraparound.StepsAgree | external/header_only/cameron314/concurrentqueue.h:1955-2005 | each step on words is the wrapped step on naturals while the compared counters are within half the range |
| Wraparound.RunsAgree | external/header_only/cameron314/concurrentqueue.h:1955-2052 | so do whole runs |
| Wraparound.ShortRunsStay | external/header_only/cameron314/concurrentqueue.h:1955-2005 | no comparison leaves the window in a run with fewer than 2^62 steps times the largest count enqueued or asked for |
| Wraparound.WordInBlock | external/header_only/cameron314/concurrentqueue.h:2015 | offset and base of an index can be computed from its word |
| Wraparound.EndIndexExact | external/header_only/cameron314/concurrentqueue.h:2284-2285 | the comparison of words finds the end of the claim or of the block, whichever is earlier |
| ExplicitWords.RunsAgree | external/header_only/cameron314/concurrentqueue.h:1849-2338 | whole runs of the explicit sub-queue on words, with enqueue, lookups, marking and reuse of blocks, go through the wrapped states of the unbounded one |
| ExplicitWords.WordsDeliver | external/header_only/cameron314/concurrentqueue.h:1955-2052 | a dequeue finished on words has delivered the values of the successful enqueue calls of the indices it claimed |
| ExplicitWords.ShortRunsStay | external/header_only/cameron314/concurrentqueue.h:1869-1887 | live indices and index sizes of the explicit sub-queue stay in the window in every run of so few steps |
| CounterWords.RunsAgree | external/header_only/cameron314/concurrentqueue.h:1573-1633 | whole runs with counters on words, the additions of unsigned differences included, go through the wrapped states of the unbounded ones |
| CounterWords.WordsDeliver | external/header_only/cameron314/concurrentqueue.h:1955-2052 | a dequeue finished on words with counters has delivered the values of the successful enqueue calls of the indices it claimed |
| CounterWords.ShortRunsStay | external/header_only/cameron314/concurrentqueue.h:1869-1887 | the same bound keeps runs with counters in the window |
| ImplicitWords.InvalidIsNoBase | external/header_only/cameron314/concurrentqueue.h:2883 | the mark of an entry without a key is not the word of any block base |
| ImplicitWords.RunsAgree | external/header_only/cameron314/concurrentqueue.h:2487-2964 | the same for the implicit sub-queue, with its keys, both asserts of the lookup, doubling and rewinding |
| ImplicitWords.WordsDeliver | external/header_only/cameron314/concurrentqueue.h:2780-2879 | a dequeue finished on words has delivered the values of the successful enqueue calls of the indices it claimed |
| ImplicitWords.ShortRunsStay | external/header_only/cameron314/concurrentqueue.h:2487-2511 | live indices and index sizes of the implicit sub-queue stay in the window in every run of so few steps |
| BlockArithmetic.SignedQuotientTruncates | external/header_only/cameron314/concurrentqueue.h:2015-2016 | the recursive quotient is signed division rounding toward zero |
| BlockArithmetic.QuotientOfBases | external/header_only/cameron314/concurrentqueue.h:2956-2961 | on block bases the division is exact: the difference of the block numbers |
| BitMasks.BlockMasks | external/header_only/cameron314/concurrentqueue.h:2015 | the two masks of an index are its offset in the block and the base of the block |
| TrailingZeros.RotrMoves | external/header_only/fmt/format-inl.h:177-184 | rotr moves the low bits to the top |
| TrailingZeros.RotateTest | external/header_only/fmt/format-inl.h:1159-1163 | the rotated product with the modular inverse is below the limit exactly for multiples, and is then the quotient |
| TrailingZeros.StrippedUniquely | external/header_only/fmt/format-inl.h:1152-1153 | n = c * 10^k with c not divisible by 10 has exactly one solution, the one of the specification functions |
| TrailingZeros.StripByRotation | external/header_only/fmt/format-inl.h:1159-1169 | the loop removes all zeros; what it adds depends on the parity of the start only |
| TrailingZeros.RemoveTrailingZeros32 | external/header_only/fmt/format-inl.h:1153-1171 | n0 = n * 10^k, n not divisible by 10, and k is added exactly if the start or k is even |
| TrailingZeros.MultipleOfTen8 | external/header_only/fmt/format-inl.h:1177-1184 | the test on the 128-bit product finds exactly the multiples of 10^8, for every 64-bit word, and the high half yields the quotient |
| TrailingZeros.RemoveTrailingZeros64 | external/header_only/fmt/format-inl.h:1174-1210 | for every word on which the 32-bit procedure's assertion holds: what is stripped and counted is n0 exactly if n0 < 2^32 * 10^8 or 10^8 does not divide n0, and otherwise the lower word of its quotient by 10^8 |
| TrailingZeros.CutOff | external/header_only/fmt/format-inl.h:1184-1188 | an input that is not stripped but cut off |
| TrailingZeros.DivideBy100 | external/header_only/fmt/format-inl.h:258-261 | exact for every 32-bit word |
| TrailingZeros.DivideBy1000 | external/header_only/fmt/format-inl.h:263-265 | for every 64-bit word: the quotient, or one more exactly in the stated cases |
| TrailingZeros.DivideBy1000Fails | external/header_only/fmt/format-inl.h:263-265 | the least input for which it is one more |
| TrailingZeros.DivideBySmallPower | external/header_only/fmt/format-inl.h:224-245 | quotient and divisibility are right for every accepted n |
| LogMerge.RootIsOldest | external/header_only/fmtlog/fmtlog-inl.h:460-462 | in a heap no loaded header is older than the root's |
| LogMerge.Merger.AdjustHeap | external/header_only/fmtlog/fmtlog-inl.h:408-420 | a permutation that makes node i and everything behind it a heap, null headers as infinity, and leaves what is before i |
| LogMerge.Merger.Refresh | external/header_only/fmtlog/fmtlog-inl.h:441-451 | keeps loaded headers, asks every other queue exactly once and no queue twice, loads the next message of every queue in which one has arrived, and drops a buffer exactly if that came back empty from an ended thread |
| LogMerge.Merger.BuildHeap | external/header_only/fmtlog/fmtlog-inl.h:455-458 | a permutation that is a heap |
| LogMerge.StaysInOrder | external/header_only/fmtlog/fmtlog-inl.h:463-467 | popping the oldest keeps the log nondecreasing if each thread's stamps are |
| LogMerge.Merger.Merge | external/header_only/fmtlog/fmtlog-inl.h:460-468 | handles messages in nondecreasing order, each thread's in its own order; keeps every buffer, its header unchanged or what its queue held at its last pop; logs every message that was loaded and older than the cut-off, unless the root is of unknown format and no younger; and stops only then |
| LogMerge.Merger.Poll | external/header_only/fmtlog/fmtlog-inl.h:422-468 | a whole poll with new buffers and concurrent arrivals: each queue without a header is asked once, exactly the empty buffers of ended threads are dropped and no other is lost; every message then loaded and older than the cut-off is logged, in order, unless the root is of unknown format and no younger |
| LogMerge.LogsOldOnes | external/header_only/fmtlog/fmtlog-inl.h:460-468 | after a merge that has stopped, a message loaded beforehand and older than the cut-off has been logged, or the root is of unknown format and no younger |
| LogMerge.NextIsLoaded | external/header_only/fmtlog/fmtlog-inl.h:460-468 | after a merge a buffer holds the next message of its queue if each pop found it pushed already, and nothing if none did |
| LogMerge.NothingOldIsLeft | external/header_only/fmtlog/fmtlog-inl.h:460-468 | a merge whose pops find the next messages pushed leaves no older message of a queue behind, unless the root is of unknown format and no younger |
| EditDistance.Symmetric | external/header_only/argparse/argparse.hpp:540-560 | the table value is symmetric |
| EditDistance.Triangle | external/header_only/argparse/argparse.hpp:540-560 | the triangle inequality |
| EditDistance.AllThreeWays | external/header_only/argparse/argparse.hpp:552-556 | taking only the diagonal for equal characters loses nothing |
| EditDistance.NoShorterScript | external/header_only/argparse/argparse.hpp:540-560 | no sequence of single edits is shorter |
| EditDistance.ShortestScript | external/header_only/argparse/argparse.hpp:540-560 | some sequence of edits is that short |
| EditDistance.DistanceIsLeast | external/header_only/argparse/argparse.hpp:540-560 | the value is the least length of an edit script |
| EditDistance.LevenshteinDistance | external/header_only/argparse/argparse.hpp:540-560 | the table computes it |
| EditDistance.MostSimilarString | external/header_only/argparse/argparse.hpp:563-577 | the first of the closest keys in map order, and nothing only for an empty map |
| TruncatingBuffer.IteratorBuffer.Flush | external/header_only/fmt/base.h:1885-1891 | everything is counted and exactly what still fits is written |
| TruncatingBuffer.IteratorBuffer.Append | external/header_only/fmt/base.h:1821-1841 | the whole text is taken in pieces, flushing as needed |
| TruncatingBuffer.FormatToIterator | external/header_only/fmt/base.h:2866-2874 | any calls of any length: the first min(n, total) characters are written and the total is reported, n = 0 included |
| TruncatingBuffer.PointerBuffer.Flush | external/header_only/fmt/base.h:1926-1933 | moves the result pointer once and switches to the scratch memory |
| TruncatingBuffer.PointerBuffer.PushBack | external/header_only/fmt/base.h:1816-1819 | one more character, in either memory |
| TruncatingBuffer.PointerBuffer.Append | external/header_only/fmt/base.h:1821-1841 | the whole text, across the switch of memory |
| TruncatingBuffer.FormatToMemory | external/header_only/fmt/base.h:1913-1956 | the same for memory, with nothing written behind the first min(n, total) characters |
| IsoWeek.ShiftIsWeekday | external/header_only/fmt/chrono.h:1193-1202 | the formula is the weekday of the next new year |
| IsoWeek.WeeksAreThursdays | external/header_only/fmt/chrono.h:1193-1202 | the number of weeks is the number of Thursdays of the year |
| IsoWeek.WeekDateIsThursdays | external/header_only/fmt/chrono.h:1203-1220 | for every date from year 1 on, week year and number are those of the Thursday of the same week (section 2.2.10 of ISO 8601:2004) |
| IsoWeek.Week53 | external/header_only/fmt/chrono.h:1214-1220 | week 53 appears exactly in years with 53 Thursdays |
| Digits.SplitIsGreedy | external/header_only/argparse/argparse.hpp:1452-1457 | consuming all digits at once loses no reading of the grammar |
| DecimalLiteral.AfterDigits | external/header_only/argparse/argparse.hpp:1405-1431 | a split after digits exists exactly if the greedy one does |
| DecimalLiteral.StartsWithDigit | external/header_only/argparse/argparse.hpp:1459-1482 | what the machine needs of the rest after a leading digit |
| DecimalLiteral.IsDecimalLiteral | external/header_only/argparse/argparse.hpp:1433-1542 | the machine accepts exactly the language of the grammar above it |
| SpecParser.SetAlignSets | external/header_only/fmt/base.h:764-766 | setting a field of the packed word changes that field only |
| SpecParser.SetFillSizeSets | external/header_only/fmt/base.h:748-751 | likewise for the fill size |
| SpecParser.LengthTable | external/header_only/fmt/base.h:1287-1291 | the lookup word gives 2, 3 and 4 for the first units of code points of these lengths and 1 for any other unit |
| SpecParser.ParseNonnegativeInt | external/header_only/fmt/base.h:1296-1316 | reads all digits; the value for at most ten digits and INT_MAX, otherwise the error value, whatever wrapped in between |
| SpecParser.NumbersUpToIntMax | external/header_only/fmt/base.h:1310-1315 | without leading zeros the numbers accepted are exactly those up to INT_MAX |
| SpecParser.NumeralsReadBack | external/header_only/fmt/base.h:1383-1411 | every number up to INT_MAX is read back from its numeral and larger ones are rejected |
| SpecParser.ParseFormatSpecs | external/header_only/fmt/base.h:1445-1580 | the loop computes the specification function |
| SpecParser.RenderingsAreParsed | external/header_only/fmt/base.h:1481-1580 | any legal combination of parts, written in order, is parsed to their combined effect, for every argument type |
| SpecParser.OnlyRenderingsAreParsed | external/header_only/fmt/base.h:1458-1465 | nothing else is: parts out of order, repeated or illegal never succeed |
| SpecParser.FieldsReadBack | external/header_only/fmt/base.h:703-853 | the packed word, fill and numbers hold exactly what the text said; 0 counts only without alignment |
| SpecRequests.AcceptedIfFitting | external/header_only/fmt/base.h:1445-1580 | for every request of a presentation type, alignment, sign, flags, fill and numbers, declared as data with the enumerators of the source: written out, it is accepted exactly if it suits the argument, and the packed word, at every bit, the fill and the numbers are then those of the request |
| SpecRequests.LetterMeans | external/header_only/fmt/base.h:678-701 | the letters of each presentation type, in both cases, stand for its code for exactly the argument types it is for |
| SpecRequests.LengthsOfCodePoints | external/header_only/fmt/base.h:1287-1291 | the length of every code point is told from its first unit (section 3 of RFC 3629), and is 1 for a unit that begins none |
| FormatCompiler.ParseFormatString | external/header_only/fmt/base.h:1629-1647 | the loop makes the calls of the specification function |
| FormatCompiler.CompiledMeansTheSame | external/header_only/fmt/compile.h:354-429 | whatever the run-time parser accepts is compiled and writes the same; the compiler accepts more exactly where a brace is not doubled |
| FormatCompiler.SameField | external/header_only/fmt/compile.h:326-350 | at a field both sides read the same id, specifiers and mode |
| FormatCompiler.LoneBraceIsCompiled | external/header_only/fmt/compile.h:403-406 | an input for which they differ |
| FormatCompiler.ModesNeverMix | external/header_only/fmt/base.h:898-917 | neither side accepts a mixture of automatic and manual indices, and automatic ones count up from 0 |
| FormatTemplates.TemplatesMean | external/header_only/fmt/base.h:1629-1647 | for every sequence of units, braces and fields, automatic or numbered, plain or with specifiers their arguments take: written out, run-time parser and compiler accept it exactly if every field has an argument and the two ways of numbering are not mixed, and both write each unit and each argument meant, in order |
| FormatTemplates.OneField | external/header_only/fmt/base.h:1331-1360 | the field of argument n alone is compiled to that argument, and an index above INT_MAX is read as INT_MAX |
| FormatTemplates.LeadingZero | external/header_only/fmt/base.h:1336-1345 | an index with a leading zero is rejected by both sides |
| FormatTemplates.NamesAndOthers | external/header_only/fmt/base.h:1327-1360 | a field that begins with a letter or underscore is one with a name; one that begins with anything but that, an index or the end of an empty id is rejected by both sides |
| FormatTemplates.LegalSpecsAreTaken | external/header_only/fmt/compile.h:272-282 | with the specifier parser in place any legal specifiers are among those that fields may have |
| FormatCompiler.RenderedSpecsCompile | external/header_only/fmt/compile.h:272-282 | with the specifier parser in place, any legal specifiers compile to a field that is formatted with exactly them |

## Left out

- Weak memory: fences, memory orders and thread-sanitizer annotations.
- Update in place and aliasing in the concurrent parts: a method cannot be interrupted between two of its
  statements, so these are step functions on values rather than classes.
- The explicit `enqueue_bulk` and element constructors that throw, and the implicit `enqueue_bulk` with its
  rollback: their undo paths are separate concerns.
- A bulk dequeue of zero elements is followed in the ticket protocol only.
- Construction, destruction, move and swap of queues, recycling of producers at thread exit, and statistics.
- `external/header_only/cameron314/concurrentqueue.h` chooses which sub-queue to try by size, rotation and
  tokens; here any choice is allowed.
- ProducerHash.EveryTableKeepsAFreeSlot: allocations succeed; a failed one returns its count to the pool.
- The operating system's semaphore is a counter, and a spin loop may end at any time.
- FormatCompiler.CompiledMeansTheSame: fields with names and specifiers that take further arguments are not
  followed; the printers of single values and custom formatters are parameters.
- SpecParser.RenderingsAreParsed: a width or precision that is itself an argument ends the model's part.
- LogMerge.Merger.Refresh: a message pushed between the last look at a queue and the thread's end is dropped with
  its buffer, as in the source; that loss is not examined further.
- LogMerge takes what `handleLog` writes as a list of messages; flushing and files are left out.
- EditDistance.MostSimilarString: strings are shorter than the largest `size_t`, and a map is the sequence of its keys.
- TruncatingBuffer: counts are unbounded; moving a buffer and its destructor are left out.
- IsoWeek: years from 1 on, as the truncating division gives other results before.
- Dragonbox itself, the power-of-ten tables, locale, colours, ranges and all input and output.
