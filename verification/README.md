# Verification of the shared-memory hash table

The program is a chained hash table that grows and shrinks by its load factor (`hashtable.h`),
served to client processes through shared memory: requests travel through a bounded ring buffer
(`circular_buffer.h`) guarded by two counting semaphores (`mutex.cpp`), responses come back in one
cell per ring slot (`message.h`, `server.cpp`, `client.cpp`).

| file | content |
|---|---|
| `Common.dfy` | counting over sequences, lexicographic measures |
| `TableSpec.dfy` | buckets, the resize policy, collecting and rehashing, as functions on values |
| `TableOps.dfy` | the table operations as functions, resizing is invisible, the table as a map |
| `TableNumbers.dfy` | the resizes in plain numbers: at which counts, to which capacity, and what then lies in which bucket |
| `HashTable.dfy` | the table as a class with in-place buckets, retry loops and rehash loops |
| `TableRuns.dfy` | whole sequential runs: map refinement, load bounds, amortised rehashing |
| `TableMachine.dfy` | the table under T threads as a step machine, its invariant |
| `TableMachineRuns.dfy` | what holds over every interleaving of the table's threads |
| `TableRace.dfy` | exactly when keys stay unique under threads |
| `TableTermination.dfy` | the retry loops end under every interleaving |
| `TableCalls.dfy` | a call on the shared table takes effect in one step, and its reply tells what that step found or did |
| `TableSolo.dfy` | a thread with no other call around it does what the sequential operations do |
| `Ring.dfy` | the ring buffer as a class over an array |
| `RingMachine.dfy` | the ring under any number of producers and consumers |
| `Semaphore.dfy` | the semaphore made of mutex, condition variable and counter |
| `RingOnSemaphores.dfy` | the ring machine with two such semaphores inside refines the one with counters |
| `Mailbox.dfy` | clients and workers: requests through the ring, responses through the cells |
| `MailboxMatching.dfy` | every response reaches the client it answers |
| `MailboxProgress.dfy` | while a request is outstanding, someone can serve it |
| `MailboxAnswers.dfy` | every outstanding request is answered under a fair schedule |
| `Service.dfy` | mailbox and table together: workers execute requests as calls on the shared table |
| `ServiceHistory.dfy` | every response is explained by one step on the table, and no step explains two |
| `ServiceAnswers.dfy` | progress and fair termination for the whole service |
| `Shutdown.dfy` | the EXIT messages at the end of the server |
| `ShutdownEnds.dfy` | every fair schedule of the shutdown stops all workers |
| `ShutdownLoss.dfy` | an EXIT can be lost if and only if requests are left in the ring |
| `Wire.dfy` | strings in byte fields, the READ_BUCKET segment and its decoding |
| `Decimal.dfy` | `std::to_string` and `std::stoul` |
| `Server.dfy` | filling in a request, executing it, filling in the response |
| `Exchange.dfy` | one request from the keyboard to the printed answer, for a client that is alone |

The hash function, the keys and values, the capacities, the number of slots, threads, clients and
workers, and the pids are parameters everywhere. Requests and results in the mailbox modules are
arbitrary: an execution may return anything, and what is proved is where its result goes. `Service`
fills this in: there an execution is a call on the table under all other threads, and what is proved
is what the response says about the table.

In the step machines one step is one lock operation or one access to shared state. A read or update
made under a lock that excludes all other access is one step, and so are the release of the two
locks of a table operation at its return and the broadcast on a cell with the unlock that follows
it. The bounds check of READ_BUCKET is a step of its own, outside all locks. Real locks are sets of
holders: a shared lock can be taken when nobody holds the lock exclusively, an exclusive one when
nobody holds it at all. That the modes exclude each other, and that a thread holds what its program
counter says, is proved. Sleepers on a condition variable may wake up for no reason; the progress
results never count on that. The results that requests are answered speak of schedules that are
fair: a useful step is not possible for ever without ever being taken.

`load_factor` divides doubles. For counts and capacities below 2^50 the comparisons with 0.75 and
0.10 agree with `4 * n >= 3 * cap` and `10 * n <= cap`, which is what the policy is stated with. The
sum `_size + static_cast<size_t>(delta)` keeps its 64-bit wrap below zero, because two reads of
`_size` can straddle a decrement.

Where the comments of the source and its code disagree, the code is followed. `insert` is documented
to fail when a table that is not resizable is full (hashtable.h:107-108); the code has no such limit.
The usage text of the server says that a resizable table works with a single client only
(server.cpp:325-327); the results below hold for any number of threads. The promise of `insert` to
add a key only once (hashtable.h:104-111) holds for threads exactly as far as TableRace says.

## Model

| member | source | states |
|---|---|---|
| TableSpec.LookupIsFirst | hashtable.h:167-174 | searching a bucket finds the first pair of the key, so the answer depends only on the ordered subsequence of the key's pairs |
| TableSpec.FillPlaced | hashtable.h:509-516 | re-insertion puts every pair into the bucket its key hashes to in the new table |
| TableSpec.FillOf | hashtable.h:509-516 | re-insertion keeps the order of the pairs of each key |
| TableSpec.FillBag | hashtable.h:476-479 | re-insertion keeps the bag and the number of the pairs |
| TableSpec.OfCollect | hashtable.h:443-451 | the list built by splicing in front holds each key's pairs in the order of its bucket |
| TableSpec.ResizeLowersMeasure | hashtable.h:130-136 | every resize by either delta lowers an explicit measure, so both retry loops end; halving never leads to 4 buckets or fewer |
| TableSpec.CapsOneWay | hashtable.h:326-343 | once the table cannot shrink (grow) at an entry count, no mix of calls shrinks (grows) it |
| TableSpec.NoPingPong | hashtable.h:326-343 | at a fixed entry count any mix of `resize(+1)` and `resize(-1)` only grows or only shrinks |
| TableOps.RebuildKeepsPairs | hashtable.h:456-516 | a rebuild keeps the bag of pairs and `_size` and puts every pair in its new bucket |
| TableOps.RebuildKeepsOrder | hashtable.h:456-516 | a rebuild keeps each key's pairs in order, duplicates included, so every `get` answers as before |
| TableOps.InsertedPairs | hashtable.h:117-149 | `insert` appends a pair to the pairs of an absent key and touches no other key, whatever it resizes |
| TableOps.RemovedPairs | hashtable.h:185-215 | `remove` takes the first pair of its key and touches no other key, whatever it resizes |
| TableOps.SizeIsCardinality | hashtable.h:302-305 | `_size` is the number of distinct keys |
| TableOps.BucketsListTheMap | hashtable.h:223-238 | `getBucket` over 0 to capacity - 1 lists every pair of the map exactly once and nothing else |
| TableOps.InsertedMap | hashtable.h:117-149 | `insert` adds the key to the map exactly when it is absent, and keys stay unique |
| TableOps.RemovedMap | hashtable.h:185-215 | `remove` deletes the key from the map |
| TableOps.AssignedMap | hashtable.h:54-62 | assignment through the proxy is an upsert |
| TableNumbers.OneResize | hashtable.h:326-343 | at n entries one resize grows the table iff n > 0 and (capacity <= 4 or 4 * (n + delta) >= 3 * capacity), and then doubles it; it shrinks it iff n > 0, capacity > 4 and 0 < 10 * (n + delta) <= capacity, and then halves it, rounding up |
| TableNumbers.RetryLoop | hashtable.h:130-136 | the retry loop goes the way of its first resize and ends at the first capacity that will do: for n > 0 it is above 4, 4 * (n + delta) < 3 * capacity, and capacity < 10 * (n + delta) unless nothing is left |
| TableNumbers.RetrySteps | hashtable.h:130-136 | it does nothing but double, or nothing but halve |
| TableNumbers.ResizedCapacity | hashtable.h:456-506 | the numbers of one resize for a table: when its capacity rises, when it falls, and to what |
| TableNumbers.InsertedCapacity | hashtable.h:117-149 | exactly when an `insert` grows or shrinks the table, in its entry count and capacity, and where that ends |
| TableNumbers.RemovedCapacity | hashtable.h:185-215 | the same for `remove`, which resizes for one entry less whether or not it finds its key |
| TableNumbers.InsertedBuckets | hashtable.h:138-146 | without a resize an `insert` appends its pair to the bucket of its hash and leaves all others |
| TableNumbers.RemovedBuckets | hashtable.h:197-213 | without a resize a `remove` takes the first pair of its key out of the bucket of its hash and leaves all others |
| TableNumbers.SettledByResizes | hashtable.h:130-136 | the retry loop does nothing to the buckets but some number of resizes |
| TableNumbers.InsertedByResizes | hashtable.h:117-149 | `insert` of an absent key is some resizes, none if the table is not resizable, and then its pair at the end of the bucket of its hash, one entry more |
| TableNumbers.RemovedByResizes | hashtable.h:185-215 | `remove` is some resizes, and then the first pair of its key, if there is one, out of the bucket of its hash, one entry less |
| TableNumbers.RebuiltBucket | hashtable.h:443-516 | a rebuild puts into a bucket, of the old buckets from the last to the first, the pairs that now hash to it, each bucket's in their order |
| TableNumbers.DoubledBucket | hashtable.h:471-516 | after doubling a bucket holds the pairs of one old bucket that hash to it, in their order |
| TableNumbers.HalvedBucket | hashtable.h:494-516 | after halving an even capacity c bucket i is old bucket i + c / 2 followed by old bucket i |
| HashTables.HashTable.constructor | hashtable.h:93-103 | a new table is valid and empty, with at least four buckets of storage |
| HashTables.HashTable.Default | hashtable.h:80-84 | the default table is resizable with capacity 4, four buckets, and empty |
| HashTables.HashTable.Get | hashtable.h:157-177 | the value of the key in the map, or nothing |
| HashTables.HashTable.Insert | hashtable.h:117-149 | true exactly for an absent key, which is then mapped to the value; buckets and rehash work are those of the specification; the capacity rises and falls exactly at the counts given in numbers, and never in a table that is not resizable |
| HashTables.HashTable.Remove | hashtable.h:185-215 | returns and deletes the value of the key; buckets and rehash work are those of the specification; the capacity rises and falls exactly at the counts given in numbers, and never in a table that is not resizable |
| HashTables.HashTable.Assign | hashtable.h:54-62 | upsert, through get, remove and insert: the new buckets and capacity are those of the insert behind the remove |
| HashTables.HashTable.GetBucket | hashtable.h:223-238 | a copy of the bucket, all of whose pairs are in the map and hash to its number modulo the capacity |
| HashTables.HashTable.Settle | hashtable.h:130-136 | the retry loop ends with a table for which the policy asks no resize |
| HashTables.HashTable.Resize | hashtable.h:456-506 | grows and shrinks exactly at the counts given in numbers, by doubling or halving; changes neither the map nor `_size`, and re-inserts `_size` pairs |
| HashTables.HashTable.CollectPairs | hashtable.h:443-451 | returns the pairs in splice order and leaves the buckets empty |
| TableRuns.RunRefinesMap | hashtable.h:117-215 | over every sequence of operations, resizable or not, all answers are those of a map, keys are unique and `_size` is the map's cardinality |
| TableRuns.RunStaysBalanced | hashtable.h:326-358 | from an empty resizable table, after every run with two or more entries: capacity > 4, 4 * size < 3 * capacity and capacity < 10 * size |
| TableRuns.SettlingKeepsBalance | hashtable.h:189-195 | the same bounds survive the resizes of a `remove` that finds nothing |
| TableRuns.InsertPays | hashtable.h:130-136 | resizes of an insert are paid for by a potential that rises by a constant |
| TableRuns.RemovePays | hashtable.h:189-195 | resizes of a remove are paid for by the same potential |
| TableRuns.RehashingIsAmortised | hashtable.h:456-516 | all resizes of a run re-insert at most six pairs per call plus one per halving of the initial capacity |
| TableMachine.LocksExclude | hashtable.h:126-141 | beside a thread inside `resize` nobody is in the table, and beside an editor of a bucket nobody edits or reads that bucket |
| TableMachine.OthersKnow | hashtable.h:138-146 | a bucket index or position that a thread computed stays right through every step of every other thread |
| TableMachine.SizePositiveAtDiscount | hashtable.h:205-206 | `--_size` never takes the counter below zero |
| TableMachine.ExactWhenExclusive | hashtable.h:456-461 | under the exclusive lock `_size` is the true number of pairs |
| TableMachine.StepKeepsInv | hashtable.h:117-215 | every step of every thread keeps: pairs in their buckets, indices right, pairs = `_size` + threads between push and `++_size` + threads between `--_size` and erase |
| TableMachineRuns.RunKeepsInv | hashtable.h:117-215 | that invariant in every reachable state, for any number of threads, resizable or not |
| TableMachineRuns.PairsWhereHashed | hashtable.h:138-140 | in every reachable state every pair is in the bucket of its hash modulo the capacity |
| TableMachineRuns.StepOnPairs | hashtable.h:117-215 | seen per key, a step appends one pair, takes the first one and returns its value, or changes nothing; resizes are invisible to all threads |
| TableMachineRuns.RebuildOnlyOnDemand | hashtable.h:456-501 | the table is rebuilt only if the load of the true number of pairs demands it, in numbers, to twice or half the capacity, losing nothing |
| TableMachineRuns.TornReadAsksResize | hashtable.h:326-358 | if the entries vanish between the two reads of the check, the sum of a `remove` wraps and the check asks for a resize |
| TableMachineRuns.CoverKept | hashtable.h:124-146 | pairs of a key <= threads that pushed it and have not yet called `remove` for it, kept by every step, if nobody inserts that key again before its own `remove` |
| TableMachineRuns.KeyEndsEmpty | hashtable_tests.cpp:179-207 | for one key: if every thread that pushed it calls its own `remove` before it inserts it again, then once all have done so no pair of the key is left, despite the race in `insert` and whatever happens to other keys |
| TableMachineRuns.EndsEmpty | hashtable_tests.cpp:179-207 | if that holds for all keys and all calls have returned, the table is empty and `_size` is 0 |
| TableMachineRuns.ConcurrentLoadBound | hashtable.h:326-358 | with T threads and initial capacity >= 2, 4 * size < 3 * capacity + 4 * (T - 1) in every reachable state |
| TableMachineRuns.ReplyIsCurrent | hashtable.h:157-177 | `get` answers, and `insert` tests, what the shared table holds for the key at the moment the bucket is searched |
| TableMachineRuns.NothingToRemove | hashtable.h:201-213 | `remove` answers that the key is absent only if no pair of it is in the table at that moment |
| TableRace.UniqueWithoutOverlap | hashtable.h:117-149 | in every run in which no two inserts of a key overlap, the key is in the table at most once, whatever gets, removes, resizes and other inserts do |
| TableRace.TwoInsertsBothSucceed | hashtable.h:124-148 | with two threads or more, resizable or not, for every key there is a run in which two overlapping inserts of it both return true and the table then holds it twice |
| TableRace.UniqueIffAlone | hashtable.h:104-111 | without that promise of the callers keys stay unique in all runs if and only if there is one thread |
| TableMachineRuns.NoDeadlock | hashtable.h:117-215 | while a call is unfinished, the thread of some unfinished call can step |
| TableTermination.StepLowers | hashtable.h:130-136 | every step of an unfinished call lowers a lexicographic measure: updates of `_size` left, then resizes left, then steps left |
| TableTermination.SchedulesAreFinite | hashtable.h:117-215 | without new calls every schedule is finite: no retry loop runs for ever, whatever the other threads do |
| TableTermination.SomeoneWorks | hashtable.h:117-215 | while a call is unfinished some unfinished call can step, so such a scheduler exists |
| TableTermination.AllCallsReturn | hashtable.h:117-215 | a scheduler that always lets some unfinished call step comes to a state in which all calls have returned |
| TableCalls.CallAdvances | hashtable.h:117-215 | up to its effect a call stays the call it was started as |
| TableCalls.OnlyEffectsChangePairs | hashtable.h:117-215 | no other step of a call changes the pairs of any key |
| TableCalls.EffectExplained | hashtable.h:117-238 | the reply says what the one effect of the call found and did, to no other key: the first value of the key, a pair appended, the key met, the first pair taken, nothing there, or a bucket as it stands |
| TableCalls.EffectOwes | hashtable.h:117-215 | the effect of a call that added its key makes the thread owe this key, that of a `remove` settles it, and no other effect changes what is owed |
| TableCalls.OnlyEffectsOwe | hashtable.h:117-215 | no other step, and no step of another thread, changes what a thread owes |
| TableSolo.QuietWellFormed | hashtable.h:302-305 | with nobody in a call `_size` is the number of pairs |
| TableSolo.SoloGet | hashtable.h:157-177 | the steps of a `get` without concurrent calls end: its answer is that of the sequential `get`, the table stays |
| TableSolo.SoloGetBucket | hashtable.h:223-238 | the steps of a `getBucket` without concurrent calls end with a copy of the bucket, or with nothing for a number out of bounds |
| TableSolo.SoloInsert | hashtable.h:117-149 | the steps of an `insert` without concurrent calls end, resizes included, with the table and the answer of the sequential insert |
| TableSolo.SoloRemove | hashtable.h:185-215 | likewise for `remove` |
| Rings.PutAppends | circular_buffer.h:150-164 | the locked part of `push_back` appends and overwrites nothing queued |
| Rings.TakeRemoves | circular_buffer.h:104-117 | the locked part of `pop` returns and removes the front |
| Rings.CircularBuffer.PushBack | circular_buffer.h:137-173 | appends and returns the slot, or returns -1 exactly when full |
| Rings.CircularBuffer.Pop | circular_buffer.h:90-129 | removes the front and returns it with its slot, or nothing exactly when empty |
| RingMachine.TokensConserved | circular_buffer.h:90-173 | open + full + producers and consumers between wait and post = N; 0 <= `_size` <= N; tail = (head + size) mod N |
| RingMachine.WriteInOrder | circular_buffer.h:149-167 | the i-th push goes to slot i mod N, reports it, and overwrites no unpopped element |
| RingMachine.TakeInOrder | circular_buffer.h:103-123 | the i-th pop returns the i-th element pushed, from slot i mod N |
| RingMachine.RunKeepsInv | circular_buffer.h:90-173 | in every reachable state: tokens conserved, popped a prefix of pushed, no exit on a negative size |
| RingMachine.TestsTellTheQueue | circular_buffer.h:90-148 | under any number of threads a push is refused exactly if the queue is full when it tests, a pop finds nothing exactly if it is empty when it tests |
| RingMachine.FireRefinesQueue | circular_buffer.h:90-173 | every step is an append to a queue that is not full, a take from one that is not empty, or invisible |
| Semaphores.FireKeepsInv | mutex.cpp:100-175 | every returned `wait` took exactly one token and every returned `post` gave one; while anyone sleeps, there are at least as many threads on their way as tokens |
| Semaphores.RunKeepsInv | mutex.cpp:100-175 | the same in every reachable state, spurious wakeups included |
| Semaphores.CountIsCalls | mutex.cpp:100-175 | count = initial + posts returned or past their increment - waits returned or past their decrement |
| Semaphores.CountAtRest | mutex.cpp:100-175 | with nobody inside, count = initial + calls of `post` - calls of `wait` |
| Semaphores.StepRefinesAtomic | mutex.cpp:100-175 | every step is an atomic P of a thread inside `wait` that found a token, an atomic V of one inside `post`, or invisible; a thread that returns has made one P for every `wait` and one V for every `post` |
| Semaphores.NoTokenStranded | mutex.cpp:110-136 | with a token left and a thread in `wait`, some thread inside an operation can go on |
| RingOnSemaphores.StepKeepsInv | circular_buffer.h:90-173 | every step of the ring with real semaphores, spurious wakeups included, is a step of the ring with atomic counters or invisible |
| RingOnSemaphores.RunKeepsInv | mutex.cpp:100-175 | so in every reachable state it keeps what RingMachine promises: tokens conserved, elements in order, no exit on a negative size |
| Mailbox.WakeupKept | server.cpp:297-312 | a sleeper whose condition holds is about to be woken by the holder of the mutex, after every step |
| Mailbox.ActKeepsBase | client.cpp:91-135 | ring, roles, cell mutexes and wakeups stay consistent under every step |
| Mailbox.ClientReturns | client.cpp:88-136 | a client leaves `sendMsg` only with a response, or, for a message without one, after the ring has accepted it |
| MailboxMatching.OnlyAtWorker | server.cpp:107-124 | a request held by a worker is nowhere else: not in the ring, not at another worker, not answered |
| MailboxMatching.ActKeepsTrace | server.cpp:107-316 | every step keeps each outstanding request, or its response, in exactly one place with the client's slot |
| MailboxMatching.ResponseIsOwnResult | client.cpp:106-126 | the response a client takes is the result of the one execution of its present request |
| MailboxMatching.ResponseStaysUntilTaken | server.cpp:290-316 | from any moment of a run on, a response stands unchanged in its cell until the step in which the client it is for takes it, however many wait for the cell |
| MailboxProgress.NoLostWakeup | client.cpp:110-133 | if a sleeper's condition holds, a thread that is about to broadcast to it can step |
| MailboxProgress.SomeoneDrains | server.cpp:107-124 | while a request is in the ring or at a worker, some thread can take a step that serves one, also if its client has left |
| MailboxProgress.Progress | server.cpp:107-316 | in every reachable state with a client in `sendMsg`, some thread can take a step that is neither a new request nor a retry |
| MailboxAnswers.ActLowersEffort | server.cpp:107-316 | every such step lowers an explicit measure, also waking up only to sleep again; retries and polling do not raise it |
| MailboxAnswers.EveryRequestIsAnswered | client.cpp:88-136 | without new requests and spurious wakeups every fair schedule leads to a state in which all clients have returned from `sendMsg` and no request is in the ring or at a worker; on the way every client that was in `sendMsg` took the result of the one execution of its own request, or, where no response is due, had its request accepted |
| Service.MoveKeepsHalves | server.cpp:107-316 | what holds in every state of the mailbox and of the table holds in every state of the service |
| ServiceHistory.RunKeepsHistory | server.cpp:107-316 | in every reachable state each effect recorded for a request is a step of the worker that served this request, after its client started it |
| ServiceHistory.ResponseIsExplained | client.cpp:106-126 | the response a client takes is the reply of the call that it chose when it started this very request; that call took effect in one step of the run, of the worker serving it, and in no other, after the client started the request, and the reply says what the step found or did on the shared table |
| ServiceHistory.NoDoubleDelivery | client.cpp:106-126 | no step explains two responses: one erasure answers one `remove`, one push one `insert` |
| ServiceAnswers.ServiceProgress | server.cpp:107-316 | in every reachable state with a client in `sendMsg`, some thread can take a useful step, in the mailbox or on the table |
| ServiceAnswers.EveryRequestIsAnswered | client.cpp:88-136 | every fair schedule of clients, workers and table steps answers all outstanding requests, resizes and lock waits included: all clients return, each with the result of its own request or its request accepted, and no request is left in the ring or at a worker |
| Shutdown.RunKeepsInv | server.cpp:424-434 | every EXIT push is accepted; exits pushed = exits in the ring + exits taken, in every reachable state |
| Shutdown.OneExitEach | server.cpp:117-119 | no worker takes two exits |
| Shutdown.NothingLeftBehind | server.cpp:431-434 | when all workers have stopped, all exits were pushed and the ring is empty |
| Shutdown.ShutdownProceeds | server.cpp:424-434 | until all workers have stopped some thread can take a useful step |
| ShutdownEnds.ActLowers | server.cpp:424-434 | every step that is not the poll of an empty ring lowers an explicit measure |
| ShutdownEnds.AllWorkersStop | server.cpp:431-434 | every fair schedule comes to a state in which all workers have stopped |
| ShutdownLoss.ExitLostIff | server.cpp:427-429 | for every number of slots: some schedule loses an EXIT if and only if requests are left in the ring when the pushing begins |
| Wire.FieldRoundTrip | client.cpp:43-51 | a string copied with its terminator into a field is read back unchanged |
| Wire.FromBytes | server.cpp:60-68 | `uint8_to_string` returns the bytes before the first NUL |
| Wire.SegmentReads | client.cpp:300-303 | for every bucket the client's loop stops inside the segment and yields the pairs before the first empty key |
| Wire.SegmentLayout | server.cpp:219-238 | record i begins at i times the record's size and holds the key, then the value, each in front of zeros |
| Wire.BucketRoundTrip | server.cpp:178-243 | the client prints exactly the server's list if and only if no key is empty |
| Wire.EncodeBucket | server.cpp:181-238 | the segment is the zero-filled records followed by zero padding |
| Wire.DecodeBucket | client.cpp:300-303 | the loop copies the records in front of the sentinel, in bounds |
| Decimal.StoulReads | server.cpp:161-168 | `stoul` reads a decimal number behind spaces, a sign and leading zeros and in front of anything but a digit; a minus sign takes it modulo 2^64, and 2^64 and more is refused |
| Decimal.StoulNeedsDigits | server.cpp:161-168 | without a digit behind spaces and sign, or without anything there, it throws |
| Decimal.TextFits | server.cpp:187-195 | a number below 10^k has at most k digits, none of them a NUL, so name and length fit their fields |
| Decimal.TextIsDecimal | server.cpp:187-195 | `to_string` gives the decimal digits: digit i from the end is that of 10^i, and only 0 begins with a zero |
| Decimal.IntTextReads | server.cpp:187-195 | the text of a signed number begins with a minus exactly if it is negative, followed by the number without sign, and `stoul` reads the text of a number below 2^64 back |
| Decimal.IntTextInjective | server.cpp:194-195 | different numbers have different texts |
| Server.SegmentsDiffer | server.cpp:194-195 | clients with different pids get segments with different names |
| Server.Message.Assign | message.h:80-92 | the copy assignment makes every field equal |
| Server.Prepare | client.cpp:54-87 | the fields of a request of any mode read back as the key and value given; modes that are no requests throw |
| Server.AnswerKey | server.cpp:134-157 | success and data of the response to GET, INSERT and DELETE are those of a map; GET leaves buckets, capacity and `_size` as they are, INSERT and DELETE make of them what the operation makes, and a table that is not resizable keeps its capacity |
| Server.ReadBucket | server.cpp:171-238 | fails exactly for an index out of bounds; otherwise the segment reads back as the pairs before the first empty key, which is the bucket if and only if no key is empty |
| Server.AnswerBucket | server.cpp:158-245 | the response to READ_BUCKET names the segment after the client and gives its length, or repeats the number and says that the index is out of bounds |
| Server.Respond | server.cpp:126-287 | for every mode: the response names the client and answers the request, with the effect on the table that the mode has and no other; CLOSE_SHM gets none and removes the segment of the name it carries; the server ends on a mode that is no request or a bucket number that is none |
| Exchange.Deliver | server.cpp:303-308 | the cell holds the response, its flag and the pid of its client |
| Exchange.TakeResponse | client.cpp:116-126 | the client has the response and the cell is free |
| Exchange.SendMsg | client.cpp:53-136 | for a client that is alone and any mode: what it gives reaches the table through the ring, what it gets back through the cell is the table's answer and key, the table is changed by the operation and by nothing else, and ring and cell are free again |
| Exchange.CloseSegment | client.cpp:305-307 | CLOSE_SHM passes the ring with the name, the server removes the segment of this name, answers nothing and leaves the table as it is |
| Exchange.ReadBucketCommand | client.cpp:254-314 | the client maps exactly as many bytes as the server wrote, the server removes the segment of that client's name, and the client prints the pairs of the bucket before the first empty key, all of them if and only if no key is empty; a number out of bounds is printed as it was typed |

## Left out

- Opening, mapping, sizing and unlinking of shared memory and their failures, signals, sleeps, console input and output, and splitting a line into words: input and output.
- Capacity 0, where `hash` divides by zero, and both subscript lookups of a missing key, which dereference the end iterator: no defined behaviour to model.
- Keys of 128 bytes and more and values of 1024 bytes and more: the copies need room for the terminator, so the fields require shorter strings.
- Rounding in `load_factor`, and the wrap of `_size + 1`, of capacities and of a segment's length at 2^64: counts are unbounded, and a table of that size cannot exist.
- mutex.cpp and the protocol parts of server.cpp, client.cpp and circular_buffer.h are step machines on values, because a blocking wait is no terminating method; the classes CircularBuffer and Message are used by one client at a time.
- HashTables: the class is the table with one thread in it; locks and interleavings are in TableMachine, and TableSolo ties the two together.
- ServiceHistory.ResponseIsExplained: the text and the segment of a response are in Server and Exchange, for one client at a time; a bucket number that a resize puts out of bounds between the check and the lock reads past the array in the program, and is answered with nothing here.
- ServiceAnswers.EveryRequestIsAnswered: that schedulers and locks are fair is assumed; a writer may starve under an unfair one, and a client that dies keeps its cell.
- ShutdownEnds.AllWorkersStop: that a worker comes to the end of the request it serves is part of the fairness; in the program it may wait for a response cell, which its client clears while it lives.
- `peek`, `update`, `at`, `operator[]` and `printBuffer` of the ring, `getKeys`, `getValues` and `print_table` of the table, `current_value` of the semaphore: debug output and accessors that no request uses.
- Weak memory effects and the unsynchronised readers `size()` and `capacity()` during a resize.
