# Order risk engine: a Dafny model

The engine validates trading orders on a pool of worker threads. Orders arrive as FIX 4.2 messages
over TCP, travel through a lock-free ring to the workers, are checked against account balances that
are changed only by compare-and-swap, and are answered on the connection they came from. This
project models the four places where that can go wrong and proves what the engine is for.

**The ring, the blocking queue and the thread pool.** `Ring.dfy` is the bounded ring of per-cell
sequence numbers as a state machine: any number of threads, one program counter per thread, one
atomic memory operation per step, a weak compare-and-swap that may fail for no reason.
`RingTheorems.dfy` proves that every interleaving is a run of a bounded FIFO queue. `TaskQueue.dfy`
puts the spin / announce / re-check / park protocol, the in-flight count of pushes, the shutdown
handshake and the worker loop on top of the same ring steps; `QueueBase.dfy`, `QueueDrain.dfy`,
`QueueWake.dfy` and `QueueJobs.dfy` hold the four parts of its invariant and `PoolTheorems.dfy` what
follows from it. `PoolRuns.dfy` builds runs step by step; `SkippedWakeup.dfy` uses it for a run in
which a job waits although a worker sleeps, `PoolCompletion.dfy` to show that a shutdown can always
be completed, `PoolProgress.dfy` that without one an offered job can always be accepted.
`PoolPromises.dfy` has what clients and the machine may rely on. `RingIndex.dfy` connects the unbounded positions of the model with the 64-bit
arithmetic of the code, and `RingObject.dfy` is the ring as an object on an array of cells, with
operations of other threads between the steps of its loops.

**The risk check.** `RiskSpec.dfy` decides one order at a time and is the reference.
`RiskMachine.dfy` lets any number of threads validate and credit concurrently, one atomic operation
per step, and proves that every run is a serial run of the reference. `AccountStore.dfy` has the
store and the validator as objects with the code's loops and branches, and with what other threads
do to a balance between the steps of a loop.

**FIX.** `Text.dfy` prints and parses numbers, `TextReading.dfy` says what the parsers read from any
text, `Stream.dfy` is the theory of loops that cut messages
off a stream that arrives in pieces, whether they end or not, `FixFrame.dfy` the framing by
BodyLength, with unbounded lengths and with the code's 64-bit ones, `FixChecksum.dfy` the
checksum (Appendix B, "CheckSum Calculation", of the FIX 4.2 specification) and the message
builder, `FixFields.dfy` the tag=value fields, `FixOrder.dfy` the order parser and the client's
printer that it inverts, up to a whole session, and `FixAnswer.dfy` the worker's answer.

**Closing a connection.** `Connection.dfy` is the protocol of `pendingJobs`, `peerClosed`,
`fdClosed` and `alive` between the event loop and the workers; `ConnectionTheorems.dfy` says what it
guarantees and for which connections no answer can be lost.

`Counting.dfy` counts the threads with a property, `Options.dfy` has values that may be absent and
`Words.dfy` the ranges of machine integers. To verify: `dafny verify dfyconfig.toml`.

## How to read the machines

A state is a datatype; a scheduler's move names a thread and resolves what is left open (a spurious
failure, the thread that a notification wakes, what an idle client calls next). `Step`, `Next` and
`Advance` perform one move, and a move that is not possible leaves the state alone; `Run` and
`RunAll` perform a list of moves. A theorem about all lists of moves is a theorem about all
interleavings of any number of threads. History fields (`log`, `takers`, `status`, `ran`, `hist`,
`answered`, `lost`, `late`, `early`) are written and never decide where a thread goes.

Theorems stated on `Inv(r)` hold in every reachable state, because `Ring.StepInv`,
`RingTheorems.RunInv` and `PoolTheorems.RunInv` show that every step of every run keeps it.

## Where the code and its promises differ

- The ring's constructor accepts a capacity of one (include/LockFreeRing.hpp:22-25). The "full" mark
  pos + 1 and the "free again" mark pos + mask_ + 1 then coincide and a second push overwrites the
  first job. `RingTheorems.OneCellOverwrites` shows the run; `RingTheorems.FifoIffTwoCells` and
  `RingTheorems.BoundedIffTwoCells` prove that all runs are runs of a bounded FIFO queue, and that
  head_ and tail_ stay in bounds, if and only if there are at least two cells.
- The comment at include/LockFreeTaskQueue.hpp:39-41 says that a push may skip the wake-up when a
  worker is spinning, because that worker will see the job. One spinning worker can be counted by
  several pushes, which then all skip, and it takes only the oldest job; a worker is also still
  counted when its try_pop has already succeeded (line 61). `SkippedWakeup.JobLeftWaiting` shows, for
  every pool of two workers or more, a run after which a job waits with its push over, one worker is
  running another job and all others are blocked; `SkippedWakeup.NeverLeftWaitingIff` proves that
  this cannot happen if and only if there is one worker. What does hold for every pool is
  `PoolTheorems.NoLostWakeup`: some worker will look at the ring again before it blocks, if only
  after the job it is running.
- The comment at include/EventLoop.hpp:37-41 promises that the descriptor stays open until every
  dispatched job has answered. `peerClosed` is set before the last batch is dispatched, so a worker
  can close between two dispatches. `ConnectionTheorems.NoAnswerLostIff` proves that no run gives up
  an answer if and only if the final read finds no message, or the only message of the connection;
  `ConnectionTheorems.NoSendAfterCloseIff` proves the same for answers written to the descriptor
  after it was closed.
- The sum at include/FixParser.hpp:65 is an unchecked 64-bit addition. `FixFrame.CodeProgress` proves
  that the extraction loop runs for ever if and only if it comes to a header that announces a multiple
  of 2^64, `FixFrame.WrappedLengthStalls` gives such an input, and `FixFrame.CodeFramesStream` proves
  that the code ends with the messages of the unbounded model if and only if no header that it comes
  to wraps around.

## Model

| member | source | states |
|---|---|---|
| `Ring.StepInv` | include/LockFreeRing.hpp:32-75 | every atomic operation of try_push and try_pop, by any thread, with or without a spurious CAS failure, keeps the ring's invariant: bounds on head_ and tail_, the phase of every cell, what every thread knows |
| `RingTheorems.RunInv` | include/LockFreeRing.hpp:22-75 | every run of any number of threads from a constructed ring of at least two cells satisfies the invariant |
| `RingTheorems.FifoRefinement` | include/LockFreeRing.hpp:32-75 | in every run the successful CASes on tail_ and head_, read as enqueue and dequeue events, are a legal history of a FIFO queue of at most N jobs whose content is what the ring holds |
| `RingTheorems.PopReturnsItsItem` | include/LockFreeRing.hpp:53-68 | a pop that returned true has exactly the job pushed at its position, and no other thread popped that position |
| `RingTheorems.ExclusiveOwnership` | include/LockFreeRing.hpp:39-41 | two threads between claim and publish, pushing or popping, are never on the same cell |
| `RingTheorems.SeqnoFixesPhase` | include/LockFreeRing.hpp:13-18 | the sequence number of a cell says, in both directions, whether its position is being filled, published, being drained or free |
| `RingTheorems.SeqnoMonotone` | include/LockFreeRing.hpp:35-67 | sequence numbers, head_ and tail_ never decrease and the history of pushes only grows |
| `RingTheorems.NothingOverwritten` | include/LockFreeRing.hpp:38-42 | a published job that no pop has claimed stays in its cell over every step |
| `RingTheorems.NoJobKept` | include/LockFreeRing.hpp:61-66 | a cell holds a job only while no pop has claimed it or its pop is just moving it out: nothing that a job captured outlives its pop in the ring |
| `RingTheorems.PushRefusalJustified` | include/LockFreeRing.hpp:33-48 | try_push gives up at its load of seq if and only if tail_ is still the position it looked at and the job N positions back has not left its cell |
| `RingTheorems.PopRefusalJustified` | include/LockFreeRing.hpp:54-73 | try_pop gives up at its load of seq if and only if head_ is still the position it looked at and that position is unclaimed or still being filled |
| `RingTheorems.SingleProducerPopRefusal` | include/LockFreeRing.hpp:54-73 | with one producer, a refused pop means that no published job was unclaimed |
| `RingTheorems.OneCellOverwrites` | include/LockFreeRing.hpp:22-50 | with capacity one, a second push claims the cell of an unclaimed job and overwrites it |
| `RingTheorems.BoundedIffTwoCells` | include/LockFreeRing.hpp:22-75 | head_ <= tail_ <= head_ + N holds in all runs if and only if N is at least two |
| `RingTheorems.FifoIffTwoCells` | include/LockFreeRing.hpp:22-75 | all runs are runs of a FIFO queue of at most N jobs if and only if N is at least two |
| `RingIndex.RoundUp` | include/LockFreeRing.hpp:22-25 | for every minCapacity up to 2^63 the 64-bit loop ends with the least power of two not below it |
| `RingIndex.AndMask` | include/LockFreeRing.hpp:35-35 | the bitwise and of a position with capacity - 1 is the position modulo the capacity |
| `RingIndex.MaskIsSlot` | include/LockFreeRing.hpp:35-35 | the code's cell index is the model's |
| `RingIndex.SeqnoBound` | include/LockFreeRing.hpp:41-66 | no sequence number is above head_ + N in a reachable state |
| `RingIndex.DifferencesAgree` | include/LockFreeRing.hpp:36-44 | while tail_ stays below 2^63 minus the capacity, the signed 64-bit differences have the signs of the true ones, in try_push and try_pop |
| `RingObject.LockFreeRing.constructor` | include/LockFreeRing.hpp:22-28 | the least sufficient power of two of cells, numbered as in the initial state of the machine, holding nothing |
| `RingObject.LockFreeRing.TryPush` | include/LockFreeRing.hpp:32-50 | whatever operations other threads complete before its loads of seq and its CASes, and however often the CAS fails for no reason: after some prefix of those operations it either finds the ring full and changes nothing, or appends the job to what the ring then holds |
| `RingObject.LockFreeRing.TryPop` | include/LockFreeRing.hpp:53-75 | likewise: after some prefix of the other threads' operations it either finds the ring empty and changes nothing, or removes and returns the oldest job of what the ring then holds |
| `RingObject.StaleTail` | include/LockFreeRing.hpp:35-48 | a cell looked at through a stale position is ahead of it, and at tail_ it never is, so the third branch of try_push is taken exactly when tail_ has moved |
| `RingObject.StaleHead` | include/LockFreeRing.hpp:56-73 | the same for try_pop and head_ |
| `RingObject.TailCell` | include/LockFreeRing.hpp:13-18 | at rest, the cell at tail_ is free exactly when the ring is not full, and the cell at head_ is published exactly when it is not empty |
| `QueueBase.AdvanceBase` | include/LockFreeTaskQueue.hpp:24-96 | every step of the queue keeps the ring's invariant and the agreement of each thread's place in the queue with its place in the ring |
| `QueueBase.AdvanceCounters` | include/LockFreeTaskQueue.hpp:24-90 | sleepers_, spinners_ and pushersInFlight_ are, in every state, the numbers of threads in the corresponding sections |
| `QueueDrain.AdvanceDrain` | include/LockFreeTaskQueue.hpp:24-31 | a worker about to leave has seen the queue sealed: shut down, with no push past its shutdown check |
| `QueueWake.AdvanceWake` | include/LockFreeTaskQueue.hpp:24-90 | every unclaimed position stays cared for, by its own push that is still waking or by a worker that will look again |
| `QueueJobs.AdvanceJobs` | include/ThreadPool.hpp:79-92 | the tickets, the log of the ring, the jobs held by workers, the jobs run and completed_ stay in agreement |
| `PoolTheorems.RunInv` | include/LockFreeTaskQueue.hpp:24-96 | every run of any number of workers and clients keeps the whole invariant |
| `PoolTheorems.NoLostWakeup` | include/LockFreeTaskQueue.hpp:24-50 | in every reachable state, a job in the ring is still in the hands of its push's wake-up step, or some worker will look at the ring again before it blocks |
| `PoolTheorems.HeedingWorkerStaysAwake` | include/LockFreeTaskQueue.hpp:53-90 | such a worker does not block, nor leave, in any continuation of the run while the job stays unclaimed |
| `PoolTheorems.NeverAllParked` | include/LockFreeTaskQueue.hpp:39-48 | no reachable state has work in the ring, no push under way, and every worker blocked or gone |
| `PoolTheorems.NobodyParkedAfterShutdown` | include/LockFreeTaskQueue.hpp:92-96 | once shutdown has returned no worker is blocked or about to block |
| `PoolTheorems.DrainedBeforeExit` | include/LockFreeTaskQueue.hpp:72-78 | when pop has returned nullopt to some worker, every job whose push returned or ever will return true had already been claimed by a consumer, however pushes race with shutdown |
| `PoolTheorems.ExactlyOnce` | include/ThreadPool.hpp:79-92 | once all workers have left, the jobs run are exactly the accepted ones, each once, no refused job ran, and completed_ is the number of accepted submissions |
| `PoolTheorems.JoinedMeansDone` | include/ThreadPool.hpp:59-72 | the shutdown call that did the work returns only when every worker has left its loop |
| `PoolPromises.RefusedOnlyByShutdown` | include/LockFreeTaskQueue.hpp:23-30 | in every reachable state a push gives up, and a submission is refused, only after a shutdown has begun; a full ring alone refuses nothing |
| `PoolProgress.SubmitCanSucceed` | include/LockFreeTaskQueue.hpp:24-50 | from every reachable state without a shutdown, whatever all threads are doing and however full the ring is, a job that a client has offered can still be accepted and its submit return, without relying on a spurious wake-up |
| `PoolPromises.SpinnersLimited` | include/LockFreeTaskQueue.hpp:56-65 | in every run at most maxSpinners_ workers are in the spin loop at once |
| `PoolPromises.WakesOnlyIfNeeded` | include/LockFreeTaskQueue.hpp:42-48 | in every reachable state a push goes on to the wake-up exactly when some worker is asleep or about to be, and takes the lock exactly when then no worker is spinning |
| `PoolPromises.ShutdownOnce` | include/ThreadPool.hpp:59-72 | however many threads call shutdown, at most one of them closes the queue and joins the workers |
| `SkippedWakeup.JobLeftWaiting` | include/LockFreeTaskQueue.hpp:39-48 | for every pool of two workers or more, every number of clients and every capacity, a run in which two pushes count the same spinner, skip the wake-up, and leave a job in the ring with one worker running another job and all others blocked |
| `SkippedWakeup.NeverLeftWaitingIff` | include/LockFreeTaskQueue.hpp:39-48 | in all runs a job whose push is over has, while some worker is blocked, another worker inside pop, if and only if the pool has one worker |
| `PoolCompletion.WorkersCanLeave` | include/LockFreeTaskQueue.hpp:72-96 | from every reachable state in which shutdown has notified the workers, whatever everybody is doing, some continuation brings all workers out of their loops |
| `PoolCompletion.ShutdownCanReturn` | include/ThreadPool.hpp:59-72 | from there the call that performs the shutdown can return |
| `PoolCompletion.ShutdownCanRun` | include/ThreadPool.hpp:59-72 | from every reachable state with an idle client and no shutdown begun, a call of shutdown can run to its end, with all workers gone and joined |
| `RiskSpec.AcceptedIff` | include/RiskValidator.hpp:26-47 | an order is accepted if and only if its quantity and price are positive, its symbol is one of the three, and it is a SELL or its account is known and holds at least quantity times price |
| `RiskSpec.ReasonIff` | include/RiskValidator.hpp:22-47 | each rejection reason is given exactly on its own guard, in the order of the checks, and the result carries the order's id and account |
| `RiskSpec.BalanceAfter` | include/RiskValidator.hpp:35-43 | an accepted BUY takes quantity times price from its account; no other order changes any balance |
| `RiskSpec.SplitAccepted` | include/RiskValidator.hpp:36-43 | BUY orders of m and n units at one price are both accepted exactly when one of m + n units is |
| `RiskSpec.SplitOrder` | include/RiskValidator.hpp:36-43 | and then they leave the balances that that one order leaves |
| `RiskSpec.OneUnit` | include/RiskValidator.hpp:36-36 | one unit costs its price |
| `RiskSpec.CreditAdds` | include/AccountStore.hpp:57-63 | a credit adds its amount to what getBalance shows for its account, known or not, and changes no other |
| `RiskSpec.Conservation` | include/AccountStore.hpp:42-63 | running calls one at a time, every balance is its start plus the credits minus quantity times price of the accepted BUY orders |
| `RiskSpec.NeverNegative` | include/AccountStore.hpp:42-55 | a balance that starts non-negative stays so |
| `RiskSpec.IndependentResults` | src/main.cpp:16-21 | when no two orders reach the same account, each gets the decision it would get alone |
| `RiskMachine.StepInv` | include/AccountStore.hpp:42-63 | every atomic operation of validate and credit, by any thread, keeps the run equal to the serial run of its decided calls |
| `RiskMachine.Serialisable` | include/RiskValidator.hpp:20-47 | every interleaved run gives the decisions and balances of the serial run in the order of the deciding operations, each of which lies between the start and the return of its call |
| `RiskMachine.MoneyConserved` | include/AccountStore.hpp:42-63 | in every reachable state each balance is its start plus credits minus accepted cost, and not negative |
| `RiskMachine.NoDoubleSpend` | src/main.cpp:68-72 | without credits the sum of quantity times price over the accepted BUY orders of an account never exceeds its starting balance |
| `RiskMachine.NeverBoth` | src/main.cpp:68-72 | of two BUY orders that an account cannot pay for together, at most one is ever accepted, whatever the race |
| `RiskMachine.CallCanReturn` | include/AccountStore.hpp:42-63 | from every reachable state a thread inside validate or credit returns in at most three operations of its own |
| `RiskMachine.ScheduleIndependence` | src/main.cpp:16-21 | when the orders that reach an account reach distinct ones, every concurrent run accepts exactly the orders of the sequential baseline |
| `RiskMachine.IndependentPermutation` | src/main.cpp:16-21 | independence of a list of orders does not depend on their order |
| `AccountStore.Store.TryDebit` | include/AccountStore.hpp:40-55 | whatever other threads store in the balance before its CASes and however often a CAS fails for no reason: it succeeds exactly when the balance at its deciding operation suffices, and then takes the amount from exactly that balance; an unknown account is refused |
| `AccountStore.Store.AddCredit` | include/AccountStore.hpp:57-63 | adds the amount to what the balance is when its CAS succeeds, or registers an unknown account |
| `AccountStore.Validator.Validate` | include/RiskValidator.hpp:20-53 | the reference's answer and balances on the balances met at the deciding operation; a rejected order takes nothing and has a reason |
| `AccountStore.Validator.ValidateAll` | src/main.cpp:30-39 | the loop of the sequential baseline gives the reference's results and balances |
| `Text.StoulDecimal` | include/FixParser.hpp:53-53 | what std::to_string prints for any 64-bit number, std::stoul reads back |
| `Text.StoiSigned` | include/FixParser.hpp:88-88 | any 32-bit int, negative ones included, is read back from its text |
| `Text.StodPrice` | src/test_client.cpp:19-19 | a price printed with six decimals is read back exactly |
| `TextReading.StoulReads` | include/FixParser.hpp:53-53 | what std::stoul reads from every text: white space, sign and the longest run of digits, negated modulo 2^64 after a minus sign; an exception without digits or above 64 bits |
| `TextReading.StoiReads` | include/FixParser.hpp:88-88 | what std::stoi reads from every text, with its 32-bit range |
| `TextReading.Parts` | include/FixParser.hpp:88-88 | every text has the parts that these rows speak of |
| `TextReading.StodReads` | include/FixParser.hpp:156-156 | what std::stod reads from every plain decimal with a point: all its digits as one number over the power of ten of the fraction |
| `TextReading.StodReadsWhole` | include/FixParser.hpp:156-156 | and from every text without a point |
| `FixFrame.MessageIff` | include/FixParser.hpp:33-74 | every buffer: it starts with the complete message m if and only if it starts with "8=", "9=" follows the first SOH, the text up to the next SOH reads as a length n, and m is everything up to n + 7 bytes after that SOH, all of it there |
| `FixFrame.GarbageStays` | include/FixParser.hpp:34-39 | a buffer that does not start with "8=" never yields a message, whatever arrives later |
| `FixFrame.ExtractStable` | include/FixParser.hpp:33-74 | bytes that arrive later never change a message that is already complete |
| `FixFrame.ChunkingIndependence` | include/EventLoop.hpp:172-211 | for every byte stream, well formed or not, and every way of cutting it into reads, with unbounded lengths: every extraction loop ends, the messages and the leftover are those of the whole stream, and together they are the stream |
| `FixFrame.ModelMatchesCode` | include/FixParser.hpp:63-69 | one call of the 64-bit code frames as the model does if and only if the length does not wrap around to one that looks complete |
| `FixFrame.CodeProgress` | include/EventLoop.hpp:207-211 | the code's extraction loop on any buffer runs for ever if and only if it comes, after some number of iterations, to a header that announces a multiple of 2^64 |
| `FixFrame.CodeChunking` | include/EventLoop.hpp:172-211 | for every byte stream and every way of cutting it into reads, the code's own 64-bit loops all end if and only if the loop on the whole stream ends, and then its messages and leftover are those of the whole stream |
| `FixFrame.CodeFramesStream` | include/FixParser.hpp:33-74 | on every stream that fits in memory, the code's loop ends with the messages and leftover of the unbounded model if and only if no header that it comes to wraps around |
| `FixFrame.CodeReceives` | include/EventLoop.hpp:172-211 | such a stream is received by the code, in any pieces, as by the model |
| `FixFrame.WrappedLengthStalls` | include/FixParser.hpp:63-73 | a buffer whose announced length makes the sum 2^64 yields an empty message, stays as it is, and the loop on it does not end |
| `FixFrame.Receiver.TryExtractMessage` | include/FixParser.hpp:33-74 | in the code's 64-bit arithmetic, returns the message at the front of the buffer, if any, and erases exactly its bytes |
| `FixFrame.Receiver.OnRead` | include/EventLoop.hpp:172-211 | one readable event, its loop watched for a given number of iterations: if it stops in them, it has taken all complete messages off the old buffer and the new bytes and kept the rest; a loop that ends at all needs at most one iteration more than there are bytes |
| `FixChecksum.ByteSumIs` | include/FixParser.hpp:105-108 | a byte counts as itself, and texts add up |
| `FixChecksum.SumBytes` | include/FixParser.hpp:105-109 | the 64-bit accumulator agrees with the true byte sum modulo 256 |
| `FixChecksum.CheckMessage` | include/FixParser.hpp:101-123 | the loop and its early returns decide exactly the specified acceptance |
| `FixChecksum.BuildMessage` | include/FixParser.hpp:168-181 | the loop builds exactly the specified message |
| `FixChecksum.AcceptedText` | include/FixParser.hpp:101-123 | every text: it is accepted if and only if it has a last "10=" that a SOH ends and whose value reads as the byte sum of all before it modulo 256 |
| `FixChecksum.AcceptedParts` | include/FixParser.hpp:101-123 | the same for a text given by its parts |
| `FixChecksum.UnsealedRejected` | include/FixParser.hpp:102-113 | a text without "10=", or with a "10=" that no SOH follows, is rejected |
| `FixChecksum.AcceptedIff` | include/FixParser.hpp:99-123 | a message that ends in a three-digit checksum field is accepted if and only if the digits are the byte sum of all before it modulo 256, even if the body contains "10=" |
| `FixChecksum.BuiltVerifies` | include/FixParser.hpp:165-181 | every built message is accepted, whatever bytes its body holds |
| `FixChecksum.CorruptionDetected` | include/FixParser.hpp:101-123 | after replacing one byte before the checksum field, a built message is accepted if and only if the byte is unchanged |
| `FixChecksum.BuiltFrame` | include/FixParser.hpp:168-181 | a built message is framed as itself, through the print and parse of its BodyLength |
| `FixChecksum.StreamRoundTrip` | include/FixParser.hpp:33-74 | any list of bodies, built and sent in any pieces, is framed back into exactly these messages in order, with an empty buffer, by the model and, if each message fits in memory, by the code's 64-bit loops |
| `FixFields.SplitFields` | include/FixParser.hpp:79-97 | the loop over pos computes the specified map: fields in order, later ones replacing earlier ones, unparsable tags skipped |
| `FixFields.SplitFieldsBy` | include/FixParser.hpp:79-97 | the same for any way of parsing tag numbers |
| `FixFields.BuiltIsPrinted` | include/FixParser.hpp:168-181 | a built message is the text of the header fields, the listed fields and the trailer |
| `FixFields.EntriesPrinted` | include/FixParser.hpp:79-97 | the text of any list of fields, values containing '=' included, followed by anything without a complete field, splits back into that list |
| `FixFields.EntriesParts` | include/FixParser.hpp:79-97 | every text is of that form, so it splits in exactly one way |
| `FixFields.FieldIff` | include/FixParser.hpp:83-95 | every text: a tag has a value in the result if and only if it is the value of the last complete field whose tag reads as that number; fields with unreadable tags count for nothing |
| `FixFields.FieldRoundTrip` | include/FixParser.hpp:79-97 | splitting a built message gives the last-wins map of header, listed fields and trailer |
| `FixOrder.Parser.Parse` | include/FixParser.hpp:130-163 | the order or the rejection reason of the specification; an order id is used up exactly when the message passes the checks before the conversions |
| `FixOrder.ParseOfFields` | include/FixParser.hpp:130-163 | every message built from any list of fields, by the last field of each tag: another type than D is unsupported_msgtype, a missing field or an unreadable number malformed_message, and exactly otherwise it becomes the order these fields ask for, with a 32-bit quantity and BUY exactly for "1"; an id is taken exactly if type and fields are right |
| `FixOrder.BadChecksumIff` | include/FixParser.hpp:131-134 | any text is rejected as bad_checksum exactly when its checksum does not verify, and then takes no id |
| `FixOrder.OrderFieldsRead` | src/test_client.cpp:12-23 | the fields read back from the client's message are those it printed |
| `FixOrder.OrderRoundTrip` | src/test_client.cpp:12-23 | parsing the client's message gives back account, symbol, side (BUY exactly for '1'), 32-bit quantity and six-decimal price |
| `FixOrder.CorruptOrderRejected` | include/FixParser.hpp:130-134 | the client's message with one byte before the checksum field changed is rejected as bad_checksum |
| `FixOrder.SessionRoundTrip` | include/EventLoop.hpp:165-221 | any list of requests, printed by the client and received in any pieces, is framed by the code's 64-bit loops and parsed into the orders the client meant, in order, with nothing left over |
| `FixAnswer.AnswerSays` | include/EventLoop.hpp:218-241 | what the client reads in the answer to any message: a verified Reject with the parser's reason if the message was no order, otherwise a verified report with the order's id, status 0 if accepted, and status 8 with the reason if not |
| `FixAnswer.StatusSays` | include/EventLoop.hpp:229-241 | for any message that is an order, the status read is 0 exactly if quantity and price are positive, the symbol is known, and for a BUY the account can pay quantity times price |
| `FixAnswer.OrderAnswered` | src/test_client.cpp:12-23 | from the client's own order to the status it reads back |
| `Connection.StepInv` | include/EventLoop.hpp:48-71 | every operation of the loop and of the jobs keeps the close invariant: pendingJobs counts the unfinished jobs, at most one closer, somebody will still look whether to close |
| `ConnectionTheorems.ClosedAtMostOnce` | include/EventLoop.hpp:59-71 | in every run the descriptor is closed at most once, and only after the peer closed |
| `ConnectionTheorems.ClosedExactlyOnce` | include/EventLoop.hpp:193-215 | when the loop's own tryFinalize and all jobs are done, the descriptor has been closed exactly once and nothing is pending |
| `ConnectionTheorems.SendsExclusive` | include/EventLoop.hpp:48-57 | in every run at most one job is inside safeSend, and it holds writeMutex: the bytes of two answers are never mixed |
| `ConnectionTheorems.AlwaysCloses` | include/EventLoop.hpp:193-245 | every run of every connection can go on until every message is answered for and the descriptor is closed exactly once |
| `ConnectionTheorems.BoundedWork` | include/EventLoop.hpp:165-245 | and whatever the schedule, it takes at most 12 operations for each message, 3 for each read and 8 more |
| `ConnectionTheorems.ResponsesFirst` | include/EventLoop.hpp:193-245 | if no tryFinalize reads pendingJobs as 0 between the setting of peerClosed and the last dispatch of that batch, no answer is given up or written late and all of them precede the close |
| `ConnectionTheorems.NeverEarly` | include/EventLoop.hpp:193-211 | the hypothesis of the previous row holds in all runs when the final read finds no message or the only one of the connection |
| `ConnectionTheorems.LosingRun` | include/EventLoop.hpp:193-211 | for every other connection there is a run that gives up an answer |
| `ConnectionTheorems.LateRun` | include/EventLoop.hpp:48-71 | and a run that writes an answer to the descriptor after it was closed |
| `ConnectionTheorems.NoAnswerLostIff` | include/EventLoop.hpp:37-42 | no run gives up an answer if and only if the final read finds no message, or the only message of the connection |
| `ConnectionTheorems.NoSendAfterCloseIff` | include/EventLoop.hpp:37-42 | no run writes to the closed descriptor under exactly the same condition |

## Left out

- Weak memory: the relaxed, acquire and release orders are read as sequentially consistent steps.
- IEEE rounding, NaN and infinity: balances and prices are exact reals, so a cost is exact and a
  price has exactly six decimals when printed; `std::stod` is modelled for plain decimals only.
- Integer width of the counters sleepers_, spinners_, pushersInFlight_, pendingJobs and completed_,
  and of the ring's positions in the state machine: unbounded. `RingIndex.DifferencesAgree` gives the
  range in which that makes no difference for the ring.
- RingObject.LockFreeRing.TryPush: the operations of other threads between its steps are whole ones;
  the interleavings of single steps are in `Ring.Step`. Needs a ring of at least two cells.
- RingObject.LockFreeRing.TryPop: as for TryPush.
- RingObject.LockFreeRing.constructor: promises a usable ring only from a capacity of two on, because
  the ring of one cell is not a queue (`RingTheorems.FifoIffTwoCells`).
- RingIndex.RoundUp: above 2^63 the loop of the code does not end, so that range is excluded.
- Registering an account while orders are being validated: excluded, as include/AccountStore.hpp:17-21
  demands; in `RiskMachine` a credit to an unknown account does not start.
- ConnectionTheorems.NoAnswerLostIff: an answer counts as sent when safeSend writes to the open
  descriptor; partial and failing sends are not modelled, and every submit is accepted.
- FixOrder.Parser.Parse: one thread at a time; concurrent workers draw their ids from the same atomic
  counter, so `FixOrder.SessionRoundTrip` is stated for any ids.
- Jobs are opaque numbers: the moving and type erasure of include/InlineJob.hpp is not part of this
  model, and a job does not itself submit jobs.
- ThreadPool::submitWithFuture, queueDepth and workerCount, LockFreeTaskQueue::size: thin wrappers.
- Fairness: `PoolCompletion` and `PoolProgress` prove what can always still be reached, not that every
  scheduler reaches it.
- The number of spins: the model may stop spinning after any number of tries.
- Sockets, epoll, accept, signals, EventLoop::stop and the unused closeConnection: input, output and
  teardown.
- include/TaskQueue.hpp: the mutex-based queue is an ordinary monitor, without a protocol of its own.
- include/OrderGenerator.hpp, include/Stats.hpp, include/ResultsCollector.hpp, the benchmarks of
  src/main.cpp and src/server_main.cpp: random data, timing and wiring.
- Timestamps and latencyMicros: clock reads that no decision depends on.
