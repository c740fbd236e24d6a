# Verified models of the C++ toolbox

This project models the hard parts of the repository's C++ utilities in Dafny and proves what
they are for: a lock-free queue and the asynchronous logger that runs on it, the call/response
protocol between event loops, the CRC and Murmur hashes, integer formatting and argument packing
of the bundled cppformat, the rotating file sink, the binary stream, the pattern compiler, the
reference-counted log records and the single-producer queue.

`dafny verify dfyconfig.toml` checks everything.

## How the model is built

Concurrent code is a transition system: each thread has a program counter, one step is one access
to shared memory, and theorems hold for every interleaving of every number of steps.

- `MpmcQueue` is the bounded queue of tickets and sequence numbers. `Inv` ties cells, cursors and
  threads in flight together, `StepRefinesFifo` shows that every instruction is a step of a bounded
  FIFO that acts only at successful compare-exchanges.
- `AsyncLog` runs producers and one worker on exactly those queue steps and relates what the sinks
  received to the synchronous logger; `AsyncFlush` says which flushes they received.
- `LoopProtocol` follows each call through request queue, handler, response queue and callback. The
  pending counter is raised on the target and lowered on the caller, so only the sum over loops is
  conserved; `StopIsCleanIff` says exactly when a stopping loop has no callback outstanding, and
  `CrossLoopStopLosesCallback` gives a run in which it has one. The mutex-guarded queue of
  `safeQueue.h` appears as its two atomic operations, appending and taking everything.
- `MpmcProgress`, `AsyncProgress`, `LoopProgress` and `SingleProgress` show that nothing gets stuck: calls
  that run alone return with the right answer, and from every reachable state the work can be finished.
- `LoopTraces` follows posts, calls and responses from the action that begins them to the step that
  handles them, and `LoopStop` says when a loop leaves.
- `SingleQueue` has the ring and the extendable queue as classes, and then one producer and one
  consumer step by step.

Checksums are linear algebra over an arbitrary word. `Registers` and `BlockHash` prove the theorems
for any word whose operations obey a few laws, `Crc` and `Murmur` show that the 32- and 16-bit words
of the source obey them. A register takes symbols, which are bytes in `Crc` and single bits in `CrcBits`. `LinearTables` reduces a 256-entry table to its eight single-bit entries.

Code that updates buffers, files or objects in place is a class or works on an array, and each
method is tied to a function of the old state: `DecimalDigits` and `FormatInt` (digit writing and
padding in a growing buffer; `FormatRead` reads the text back), `RotatingSink` (a map from names to contents), `Stream` (writer and
reader; `StreamWire` gives the bytes by position and `StreamCut` reads output that was cut short),
`Pattern` (the formatter list; `PatternFlags` reads the flags back), `RecordPool` (objects addressed by their position in the
heap, so that the free list is a chain of positions). What users of log records see is a session: it
begins when a record takes an object, ends when no record holds it, and its text is all that was
written meanwhile. `RecordPool.ViewAfter` gives the sessions of any run without pools, counts and
buffers, and `RecordPool.Perform` relates the output of the sinks to it.

Where the code does less than its comments or names suggest, the model follows the code:

- the wrap test of `parse_nonnegative_int` misses some overflows: `ParseInt.ExactUnlessMisread` and
  `ParseInt.TenDigitsMisread` say which, `ParseInt.WrapGoesUnseen` is one of them;
- a number with a precision and alignment to the left takes the pointer to its digits before it adds the
  fill, and reserves room from the start of the buffer instead of its end, so that the buffer may move
  away from the digits: `FormatInt.Outgrown` says when, `FormatInt.LosesDigits` is a case;
- counts in the binary stream are cut to 16 bits, and byte counts of vectors to 32 bits:
  `Stream.RoundTripIff`, `Stream.LongListIsLost`;
- `%z` writes two signs, or the wrong one, for negative offsets, and `%c` does not pad the day:
  `PatternFlags.ZoneFormIff`, `PatternFlags.DateTimeFormIff`;
- under discard_log_msg the terminate message of the destructor can be lost, and then the join never
  returns: `AsyncProgress.DiscardedEnd`, `AsyncProgress.HangingDestructor`;
- an extendable queue of capacity zero lets nothing through: `SingleProgress.NothingPassesZeroCapacity`;
- the flag `%+` casts to unsigned and differs from its pattern before the epoch or the year 0:
  `Pattern.FullIsPattern`, `Pattern.BeforeEpoch`;
- a log record hands C strings to its sink, which stop at a zero byte: `RecordPool.Perform`,
  `RecordPool.CutAtZero`;
- `hash_crc16` returns its unmasked accumulator, `hash_crc32` only fifteen bits;
- `rd_crc32` calls `rd_crc32_init` although the function is declared as `crc32_init`; the model has one.

## Model

| member | source | states |
|---|---|---|
| `MpmcQueue.Create` | common/spdlog/include/details/mpmc_bounded_q.h:60-72 | the constructor accepts exactly the powers of two from 2 on and yields the initial state of the protocol |
| `Bits.PowerOfTwoTest` | common/spdlog/include/details/mpmc_bounded_q.h:65-66 | n & (n - 1) is zero exactly for powers of two |
| `Bits.MaskIsModulo` | common/spdlog/include/details/mpmc_bounded_q.h:86 | masking with size - 1 selects the cell at the ticket modulo the size |
| `MpmcQueue.EnqCasFresh` | common/spdlog/include/details/mpmc_bounded_q.h:83-104 | an enqueue compare-exchange that succeeds after a stale sequence load still finds its cell free |
| `MpmcQueue.DeqCasFresh` | common/spdlog/include/details/mpmc_bounded_q.h:111-129 | a dequeue compare-exchange that succeeds after a stale sequence load still finds its ticket published |
| `MpmcQueue.OneHolderPerCell` | common/spdlog/include/details/mpmc_bounded_q.h:80-131 | at most one thread is between its compare-exchange and its release store on a cell |
| `MpmcQueue.StepInv` | common/spdlog/include/details/mpmc_bounded_q.h:80-131 | every atomic step of every thread, weak compare-exchange failures included, keeps the invariant over cells, cursors, threads and tickets |
| `MpmcQueue.RunInv` | common/spdlog/include/details/mpmc_bounded_q.h:80-131 | after any interleaving the invariant holds, the size is the same, the cursors have gone forward and the histories, values taken included, have only grown |
| `MpmcQueue.ReachableBounds` | common/spdlog/include/details/mpmc_bounded_q.h:80-131 | in every reachable state dequeue_pos <= enqueue_pos <= dequeue_pos + N, and the sequence of cell i is i or i + 1 modulo N |
| `MpmcQueue.StepRefinesFifo` | common/spdlog/include/details/mpmc_bounded_q.h:80-131 | each step is a step of a FIFO of capacity N: a push or pop at a successful compare-exchange, nothing otherwise |
| `MpmcQueue.TakenOnce` | common/spdlog/include/details/mpmc_bounded_q.h:128-129 | the value taken with ticket p is the value stored under ticket p, and it was not taken before |
| `MpmcQueue.ReturnedValue` | common/spdlog/include/details/mpmc_bounded_q.h:108-131 | a dequeue that returns a value returns that of a ticket no other thread returns |
| `MpmcQueue.FullIsJustified` | common/spdlog/include/details/mpmc_bounded_q.h:86-101 | enqueue fails exactly on a sequence below its ticket, and then the ticket is the current one and ticket pos - N is not released |
| `MpmcQueue.EmptyIsJustified` | common/spdlog/include/details/mpmc_bounded_q.h:114-126 | dequeue fails exactly on a sequence at or below its ticket, and then the ticket is the current one and unpublished |
| `MpmcQueue.FullIff` | common/spdlog/include/details/mpmc_bounded_q.h:86-101 | in every state, enqueue fails on the current ticket if and only if N values are in the queue or the consumer of ticket pos - N is between its compare-exchange and its release |
| `MpmcQueue.EmptyIff` | common/spdlog/include/details/mpmc_bounded_q.h:114-126 | in every state, dequeue fails on the current ticket if and only if the queue is empty or the producer of that ticket is between its compare-exchange and its release |
| `MpmcQueue.FullWhenQuiet` | common/spdlog/include/details/mpmc_bounded_q.h:86-101 | with no thread inside the protocol, enqueue fails on the current ticket if and only if N values are in the queue |
| `MpmcQueue.EmptyWhenQuiet` | common/spdlog/include/details/mpmc_bounded_q.h:114-126 | with no thread inside the protocol, dequeue fails on the current ticket if and only if the queue is empty |
| `MpmcQueue.NothingLostOrDuplicated` | common/spdlog/include/details/mpmc_bounded_q.h:80-131 | after any run, with no thread inside the protocol, the values taken are the first dequeue_pos values in ticket order, the others sit in their cells, and all other cells are free |
| `MpmcProgress.EnqueueAlone` | common/spdlog/include/details/mpmc_bounded_q.h:75-107 | from every state, an enqueue anywhere in its loop that runs alone is done after at most six instructions: its value is behind the others if there is room, and it is refused otherwise |
| `MpmcProgress.DequeueAlone` | common/spdlog/include/details/mpmc_bounded_q.h:108-132 | from every state, a dequeue anywhere in its loop that runs alone is done after at most six instructions: with the first value if there is one to take, and empty-handed otherwise |
| `MpmcProgress.HolderFinishes` | common/spdlog/include/details/mpmc_bounded_q.h:102-131 | a thread that has won a ticket is done after two more instructions |
| `MpmcProgress.RoundMeansOutrun` | common/spdlog/include/details/mpmc_bounded_q.h:83-129 | in every run a thread goes round its loop only if another thread has won the ticket it was after |
| `AsyncLog.MessageSurvivesQueue` | common/spdlog/include/details/async_log_helper.h:67-102 | a log message converted, moved into a cell, moved out and converted back is the same message |
| `AsyncLog.AsyncLogHelper.ProcessNextMsg` | common/spdlog/include/details/async_log_helper.h:265-304 | the worker's fields and every sink change as the specification of one round says; it stops only on an empty queue |
| `AsyncLog.AsyncLogHelper.HandleFlushInterval` | common/spdlog/include/details/async_log_helper.h:306-316 | every sink is flushed when requested or due, and the request is cleared |
| `AsyncLog.OutputStep` | common/spdlog/include/details/async_log_helper.h:265-304 | handling one more message extends every sink by what the synchronous logger would write |
| `AsyncLog.SystemStepInv` | common/spdlog/include/details/async_log_helper.h:201-316 | every step of producers, worker and destructor keeps the invariant of queue and logger together |
| `AsyncLog.JoinedMeansDelivered` | common/spdlog/include/details/async_log_helper.h:201-237 | when join has returned, every sink holds exactly the synchronous output of the queued messages in ticket order and was flushed after the last; under block_retry these are all pushes of all threads, each thread's in order |
| `AsyncLog.JoinedMeansLogged` | common/spdlog/include/details/async_log_helper.h:201-237 | when join has returned and the queued log messages are conversions of messages ms in ticket order, the log texts of every sink are the synchronous output of ms, each formatted anew |
| `AsyncFlush.SinkEvents` | common/spdlog/include/details/async_log_helper.h:265-316 | for every sequence of rounds, each sink holds one text for every log message and one flush for every empty queue with a flush due or asked for since the last empty queue, and nothing else; the worker has ended exactly if it found the queue empty after a terminate message |
| `AsyncFlush.RunEvents` | common/spdlog/include/details/async_log_helper.h:265-316 | in every run the worker got the queued messages in ticket order, and the sinks hold the events of its rounds |
| `AsyncFlush.FlushIsHonoured` | common/spdlog/include/details/async_log_helper.h:276-314 | in every run, whenever the worker finds the queue empty, every sink was flushed, for every flush message handled, after it had received all that was queued before that message |
| `AsyncProgress.PushAlone` | common/spdlog/include/details/async_log_helper.h:221-237 | a push that runs alone queues its message and returns if there is room; otherwise it returns without it under discard_log_msg and tries again under block_retry |
| `AsyncProgress.WorkerDrains` | common/spdlog/include/details/async_log_helper.h:244-304 | a worker that is left alone handles all that is queued, finds the queue empty, flushes if asked to, and ends if asked to |
| `AsyncProgress.DestructorCanJoin` | common/spdlog/include/details/async_log_helper.h:201-211 | under block_retry, from every reachable state with the destructor at work there is a continuation in which the join returns |
| `AsyncProgress.DiscardedEnd` | common/spdlog/include/details/async_log_helper.h:221-237 | under discard_log_msg a destructor that finds the queue full loses its terminate message, and no continuation ends the join |
| `AsyncProgress.HangingDestructor` | common/spdlog/include/details/async_log_helper.h:201-237 | such a state is reached with two messages in a queue of two |
| `LoopProtocol.StepInv` | libeventc++11/src/loop.cpp:101-241 | every step of every loop thread and of foreign threads keeps the invariant of the call protocol |
| `LoopProtocol.PendingIsConserved` | libeventc++11/src/loop.cpp:101-122 | after any run the counters add up to the calls in flight that have a caller and a callback, and calls issued are callbacks run plus calls in flight, for any selection by caller or target |
| `LoopProtocol.CallbacksInCallOrder` | libeventc++11/src/loop.cpp:199-228 | for each caller and target, callbacks run exactly once and in call order, and the rest are on their way in that order |
| `LoopProtocol.CallbackGetsItsCall` | libeventc++11/src/loop.cpp:199-228 | a callback that runs gets the context of the call with its number as it was made, command and request included, with the response added; so did all that have run |
| `LoopTraces.CallbackGetsResponse` | libeventc++11/src/loop.cpp:199-228 | in every run a callback gets the response that the handler of its call gave to that very call |
| `LoopTraces.CallsInOrder` | libeventc++11/src/loop.cpp:101-210 | in every run the handler of a loop is called with command, data and caller of every call made to the loop, each once and in the order they were sent, and the rest waits in that order |
| `LoopTraces.PostsInOrder` | libeventc++11/src/loop.cpp:124-196 | in every run a loop handles the data posted to it, each once and in order, and the rest waits in order |
| `LoopProgress.FrameAlone` | libeventc++11/src/loop.cpp:183-241 | a loop that is left alone gets through its frame, and its queues are empty afterwards |
| `LoopProgress.CallsCanFinish` | libeventc++11/src/loop.cpp:101-241 | from every reachable state in which no loop has left, the frames of the loops lead to one with every callback run and no post waiting |
| `LoopProtocol.CallbackOnCaller` | libeventc++11/src/loop.cpp:212-228 | a callback runs on the loop that made the call |
| `LoopProtocol.StopIsCleanIff` | libeventc++11/src/loop.cpp:237-240 | when a pending stop fires, no callback is outstanding if and only if the loop was called as often as it called |
| `LoopProtocol.SelfCallersStopClean` | libeventc++11/src/loop.cpp:237-240 | in runs where loops call only themselves, a pending stop fires only with no callback outstanding |
| `LoopStop.LeavesIff` | libeventc++11/src/loop.cpp:92-99 | in every run a loop is about to leave if and only if it was told to at once, or a frame of it ended after it was told to stop, with as many callbacks run on it as calls made to it |
| `LoopStop.LeftAfterStop` | libeventc++11/src/loop.cpp:237-240 | in every run a loop that has left, or is about to, without being told to at once ended such a frame, and none of its callbacks was outstanding then if and only if it was called as often as it called |
| `LoopStop.SelfCallersLeaveClean` | libeventc++11/src/loop.cpp:237-240 | in every run in which loops call only themselves, a loop that is not told to leave at once is about to if and only if a frame of it ended after it was told to stop with none of its callbacks outstanding |
| `LoopStop.IdleLoopLeaves` | libeventc++11/src/loop.cpp:183-241 | a loop that was told to stop, has nothing to do and has its calls settled leaves within one frame |
| `LoopProtocol.CrossLoopStopLosesCallback` | libeventc++11/src/loop.cpp:113-116 | a concrete run: a loop calls another, stops, and leaves with its callback outstanding |
| `Crc.CrcTableEntry` | common/crc32.hpp:27-92 | every entry of the table is eight steps of the polynomial register from its index |
| `Crc.TablesAgree` | common/hashkit/crc.cc:53-86 | the table of the hash kit is the same table |
| `Crc.RdCrc32Update` | common/crc32.hpp:134-144 | for every start value and message, the table-driven loop computes eight reflected bit steps per byte |
| `Crc.RdCrc32` | common/crc32.hpp:161-164 | the CRC-32 of section 8 of RFC 1952 |
| `Crc.UpdateConcat` | common/crc32.hpp:134-144 | updating with a concatenation is updating with its parts in turn |
| `Crc.DetectsBursts` | common/crc32.hpp:134-164 | messages of one length that differ only inside a window of at most four bytes have different CRC-32s |
| `CrcBits.DetectsBitBursts` | common/crc32.hpp:134-164 | messages of one length that differ only inside 32 consecutive bits, wherever these start, have different CRC-32s |
| `CrcBits.MessageBits` | common/crc32.hpp:134-144 | feeding the bytes of a message is feeding its bits, lowest first, to the one-bit register |
| `CheckValues.Crc32Check` | common/crc32.hpp:134-164 | the CRC-32 of the digits 1 to 9 is 0xcbf43926 |
| `CheckValues.Crc16Check` | common/hashkit/crc.cc:92-102 | the CRC-16 of the digits 1 to 9 is 0x31c3 |
| `Crc.ByteStepInjective` | common/crc32.hpp:134-144 | the byte step is injective on the register |
| `Crc.HashCrc32a` | common/hashkit/crc.cc:116-127 | the hash is the CRC-32 of the key |
| `Crc.HashCrc32` | common/hashkit/crc.cc:104-114 | bits 16 to 30 of the CRC-32, also for keys with negative chars |
| `Crc.Crc16TabEntry` | common/hashkit/crc.cc:18-51 | every entry is eight steps of the 0x1021 register from its index in the high byte |
| `Crc.HashCrc16` | common/hashkit/crc.cc:92-102 | the whole unmasked accumulator: the 16-bit register below the high bytes that it had one and two bytes earlier |
| `Crc.LowHalf` | common/hashkit/crc.cc:92-102 | the low sixteen bits of that accumulator are the register |
| `Crc.DetectsBursts16` | common/hashkit/crc.cc:92-102 | messages of one length that differ only inside two consecutive bytes have different CRC-16 registers |
| `Registers.FeedWindow` | common/crc32.hpp:134-144 | feeding a window of bytes or bits is adding one word to the register and doing the rounds |
| `Registers.BurstsShow` | common/crc32.hpp:134-144 | for any register with a linear, reversible round: different windows leave different registers |
| `LinearTables.TableOf` | common/crc32.hpp:27-92 | a table with the exclusive-or structure that agrees with an additive function at the single bits is that function's table |
| `BlockHash.HashWith` | common/hashkit/murmur.cc:10-63 | the loop over blocks, the fall-through switch over the tail and the final mix compute the hash |
| `Murmur.HashMurmur` | common/hashkit/murmur.cc:3-63 | the loop with the constants and shifts of the source |
| `Murmur.BlockChangeShows` | common/hashkit/murmur.cc:26-39 | keys of one length that differ only in one aligned four-byte block never collide |
| `Murmur.TailChangeShows` | common/hashkit/murmur.cc:43-56 | keys of one length that differ only in the tail of one to three bytes never collide |
| `Murmur.FourByteBijection` | common/hashkit/murmur.cc:3-63 | every 32-bit value is the hash of exactly one four-byte key, given by an explicit inverse |
| `CheckValues.Murmur5` | common/hashkit/murmur.cc:3-63 | the hash of a key with a tail of one byte |
| `CheckValues.Murmur6` | common/hashkit/murmur.cc:3-63 | the hash of a key with a tail of two bytes |
| `CheckValues.Murmur7` | common/hashkit/murmur.cc:3-63 | the hash of a key with a tail of three bytes |
| `Numerals.ReadBack` | common/spdlog/include/details/format.h:3029-3133 | the digits written for n in any base read back as n, are digits of that base and have no leading zero |
| `DecimalDigits.CountsDigits` | common/spdlog/include/details/format.h:942-977 | for every 32- and 64-bit word the leading-zero and 1233 trick counts the decimal digits |
| `DecimalDigits.CountDigitsLoop` | common/spdlog/include/details/format.h:951-966 | the fallback loop counts the decimal digits |
| `DecimalDigits.Lookup` | common/spdlog/include/details/format.cc:469-475 | the table of two-digit numerals holds the digits of its index |
| `DecimalDigits.FormatDecimal` | common/spdlog/include/details/format.h:979-1001 | exactly the digit positions are overwritten, with the decimal digits of the value |
| `FormatInt.MemoryBuffer.GrowBuffer` | common/spdlog/include/details/format.h:2599-2604 | room for n more characters behind the unchanged contents, in the same array exactly if it is large enough |
| `FormatInt.MemoryBuffer.Grow` | common/spdlog/include/details/format.h:761-782 | the same contents in an array of one and a half times the size, or of the size asked for if that is more |
| `FormatInt.CapacityRule` | common/spdlog/include/details/format.h:761-766 | a capacity grows by half, rounded down, or to what is asked for if that is more |
| `FormatInt.MemoryBuffer.Reserve` | common/spdlog/include/details/format.h:645-649 | the contents stay, and the array moves exactly if it is smaller than the capacity asked for |
| `FormatInt.PrepareIntBuffer` | common/spdlog/include/details/format.h:2953-3025 | with and without a precision, everything around the digits: prefix, zeros and fill where precision and alignment put them; and the returned pointer is into the array of the buffer if and only if that was not outgrown |
| `FormatInt.FillPadding` | common/spdlog/include/details/format.h:2935-2949 | half of the fill, rounded down, before the content and the rest after it, which itself is left alone |
| `FormatInt.PlaceCenter` | common/spdlog/include/details/format.h:3001-3006 | half of the fill on the left, the rest on the right of prefix and digits |
| `FormatInt.WordAbsoluteIsAbsolute` | common/spdlog/include/details/format.h:3031-3040 | the unsigned negation gives the absolute value for every value of the type, the most negative included |
| `FormatInt.WriteInt` | common/spdlog/include/details/format.h:3029-3133 | for every value, width, fill, alignment, precision, sign and hash flag and type code the layout is appended, unless the buffer is outgrown, which costs the digits and nothing else; an unknown code is refused and nothing changes |
| `FormatInt.LostUnlessThere` | common/spdlog/include/details/format.h:2966-2984 | when the fill of a left-aligned number with a precision outgrows an array that had room for the number, the text is right if and only if the memory already held the digits |
| `FormatInt.LosesDigits` | common/spdlog/include/details/format.h:2966-2984 | a 7 written with width 6 and precision 2, aligned to the left, behind four characters in an array of eight is missing from the text |
| `FormatInt.LayoutWidth` | common/spdlog/include/details/format.h:2960-3025 | a layout has as many characters as the width, or as the prefix with the digits or the precision if that is more |
| `FormatInt.WrittenReadsBack` | common/spdlog/include/details/format.h:3029-3133 | the digits of what is written read back as the absolute value, and with the zeros before them are as many as the precision asks for |
| `FormatRead.TextReadsBack` | common/spdlog/include/details/format.h:3029-3133 | for every value, type code, width, precision, alignment and flags, and every fill character that is not one of a number, a reader of sign, 0x or 0b mark and digits gets the value back from the whole text |
| `FormatRead.CodesKnown` | common/spdlog/include/details/format.h:3046-3132 | exactly the codes none, d, x, X, b, B and o are known, with bases 10, 16, 2 and 8 |
| `FormatRead.FirstCharacter` | common/spdlog/include/details/format.h:3036-3045 | the first character of the number is a minus, a plus or a blank exactly for negative numbers, for the plus flag and for the sign flag alone |
| `FormatRead.BaseShows` | common/spdlog/include/details/format.h:3060-3117 | with the hash flag the number begins with 0 and its code, or with 0 in octal |
| `FormatRead.CodeGivesCase` | common/spdlog/include/details/format.h:3074-3081 | digits above nine are capitals for X and small letters otherwise |
| `FormatRead.FillPlaced` | common/spdlog/include/details/format.h:2960-3025 | where each alignment puts the fill, with and without a precision |
| `FormatRead.ZeroFillReadsBack` | common/spdlog/include/details/format.h:3009-3018 | zeros between prefix and digits leave the text readable |
| `FormatRead.ZeroFrontReadsIff` | common/spdlog/include/details/format.h:3019-3025 | zeros in front leave the text readable if and only if there are none, or neither sign nor mark |
| `ParseInt.ParseNonnegativeInt` | common/spdlog/include/details/format.h:3944-3965 | what the loop with its wrap test returns for a run of digits, and where it ends |
| `ParseInt.ExactUnlessMisread` | common/spdlog/include/details/format.h:3950-3964 | the result is exact, or a rejection above INT_MAX, if and only if the number is below 2^32, or is above INT_MAX modulo 2^32, or some decimal prefix 10r + d of it has 9r + d below the multiple of 2^32 that it passes |
| `ParseInt.TenDigitsMisread` | common/spdlog/include/details/format.h:3950-3964 | of the numbers up to ten digits exactly 4772185884..6442450943 and 9544371768..9999999999 are misread |
| `ParseInt.FirstWrapSeen` | common/spdlog/include/details/format.h:3951-3957 | a number of any length is refused if its first prefix p = 10a + d beyond the word has 9a + d < (p / 2^32) * 2^32 |
| `ParseInt.WrapGoesUnseen` | common/spdlog/include/details/format.h:3951-3957 | 10000000000 is read as 1410065408 |
| `ParseInt.ParsePrinted` | common/spdlog/include/details/format.h:3944-3965 | parsing undoes printing up to INT_MAX, wherever the number stands, and refuses the rest of the word |
| `ArgList.PackedType` | common/spdlog/include/details/format.h:1616-1622 | unpacking a nibble of the packed types gives the argument's type, or NONE beyond the list |
| `ArgList.At` | common/spdlog/include/details/format.h:1639-1666 | for lists of every length, the i-th argument for i < n and NONE beyond, with every array access inside its array |
| `ArgList.Terminated` | common/spdlog/include/details/format.h:2307-2338 | from the sixteenth on, a long list stores its arguments with their types, and the terminator last |
| `RotatingSink.NamesDiffer` | common/spdlog/include/sinks/file_sinks.h:87-95 | distinct indexes have distinct file names |
| `RotatingSink.NameReads` | common/spdlog/include/sinks/file_sinks.h:87-95 | a name is base, index and extension with dots between them, without the index if that is 0, and the index reads back |
| `RotatingSink.RotatingFileSink.Rotate` | common/spdlog/include/sinks/file_sinks.h:103-124 | every numbered file moves up by one, the last is gone, file 0 is empty, other files are untouched |
| `RotatingSink.RotatingFileSink.SinkIt` | common/spdlog/include/sinks/file_sinks.h:75-84 | the message is appended, or starts file 0 after a rotation; the known size is that of file 0 |
| `RotatingSink.RotatingFileSink.constructor` | common/spdlog/include/sinks/file_sinks.h:55-67 | file 0 is opened for appending, created if missing, and its size known |
| `RotatingSink.HoldsLogged` | common/spdlog/include/sinks/file_sinks.h:75-124 | the effect on the file system is the effect on the messages in the files |
| `RotatingSink.LogAll` | common/spdlog/include/sinks/file_sinks.h:75-124 | starting without files, after any messages the files hold what the specification says and no further numbered file exists |
| `RotatingSink.KeepsSuffix` | common/spdlog/include/sinks/file_sinks.h:75-124 | the messages in the files are a contiguous suffix of the messages logged |
| `RotatingSink.KeepsAll` | common/spdlog/include/sinks/file_sinks.h:103-121 | until the last file is in use, no message is lost |
| `RotatingSink.KeepsSizes` | common/spdlog/include/sinks/file_sinks.h:75-84 | every file is within the limit or holds exactly one message, and there are at most max_files + 1 files |
| `RotatingSink.KeepsFull` | common/spdlog/include/sinks/file_sinks.h:75-84 | a new file is begun only for a message that did not fit into the one before |
| `RotatingSink.DiskIsSuffix` | common/spdlog/include/sinks/file_sinks.h:75-124 | the text on disk, oldest file first, is the text of the last so many messages |
| `Stream.StreamWriter.Put` | libeventc++11/include/ec/stream.h:47-120 | appends the encoding of the value |
| `Stream.StreamReader.Get` | libeventc++11/include/ec/stream.h:175-290 | reads what the decoder specifies and keeps the position inside the buffer, on any input |
| `Stream.Decode` | libeventc++11/include/ec/stream.h:175-290 | on any input the position never moves back and never passes the end |
| `Stream.RoundTrip` | libeventc++11/include/ec/stream.h:47-290 | reading written output anywhere in a buffer gives the value back and stops where it ends |
| `Stream.DecodedFits` | libeventc++11/include/ec/stream.h:202-290 | on any input at all the value read has its type, sets and maps ordered, all counts within 16 bits, and nothing but zeros in vectors beyond what a 32-bit byte count covers |
| `Stream.RoundTripIff` | libeventc++11/include/ec/stream.h:66-120 | whatever follows it, a value of any type survives writing and reading if and only if no container in it has more than 65535 elements and its vectors are zero beyond what a 32-bit byte count covers |
| `Stream.SmallVectorFits` | libeventc++11/include/ec/stream.h:73-83 | for vectors of less than 2^32 bytes only the number of elements matters |
| `Stream.LongListIsLost` | libeventc++11/include/ec/stream.h:85-95 | a list of 65536 elements is read back as an empty one |
| `StreamWire.ListLayout` | libeventc++11/include/ec/stream.h:85-95 | the count in two bytes, low byte first, and byte j of element i of size n at 2 + i * n + j |
| `StreamWire.SetIsList` | libeventc++11/include/ec/stream.h:97-107 | a set is written as the list of its elements |
| `StreamWire.VectorIsList` | libeventc++11/include/ec/stream.h:73-83 | a vector is written as the list of its elements, up to the counts that fit |
| `StreamWire.StringIsList` | libeventc++11/include/ec/stream.h:66-71 | a string is written as the list of its characters |
| `StreamWire.MapIsListOfPairs` | libeventc++11/include/ec/stream.h:109-120 | a map of fixed-size keys and values is written as the list of its pairs, the key in front |
| `StreamWire.ItemPlace` | libeventc++11/include/ec/stream.h:85-95 | an element of any type stands behind the count and the elements before it |
| `StreamWire.EntryPlace` | libeventc++11/include/ec/stream.h:109-120 | an entry of any types stands behind the count and the entries before it, its key before its value |
| `StreamCut.FixedCut` | libeventc++11/include/ec/stream.h:175-200 | too few bytes for a fixed-size value: none is consumed, and the destination keeps what it held |
| `StreamCut.StringCut` | libeventc++11/include/ec/stream.h:202-221 | a string cut short is read as the characters that arrived |
| `StreamCut.VectorCut` | libeventc++11/include/ec/stream.h:223-244 | a vector cut short is read as the elements that arrived whole |
| `StreamCut.ListCut` | libeventc++11/include/ec/stream.h:246-259 | a list cut short is read with all its elements, the missing ones uninitialised |
| `StreamCut.FirstStays` | libeventc++11/include/ec/stream.h:261-290 | of equivalent elements or keys the first stays, and nothing else is lost or added |
| `Pattern.PatternFormatter.CompilePattern` | common/spdlog/include/details/pattern_formatter_impl.h:451-479 | appends the formatters that the specification gives for the pattern |
| `Pattern.PatternFormatter.HandleFlag` | common/spdlog/include/details/pattern_formatter_impl.h:480-603 | a known flag gives its formatter, an unknown one is echoed |
| `Pattern.PatternFormatter.Format` | common/spdlog/include/details/pattern_formatter_impl.h:607-623 | appends what the formatters write, and the end of the line |
| `Pattern.CompilingKeepsMeaning` | common/spdlog/include/details/pattern_formatter_impl.h:451-603 | for every pattern and every meaning of the flags, running the compiled list is interpreting the pattern |
| `Pattern.CompiledMerged` | common/spdlog/include/details/pattern_formatter_impl.h:451-477 | literal characters are merged: no empty and no neighbouring aggregates |
| `Pattern.FullIsPattern` | common/spdlog/include/details/pattern_formatter_impl.h:394-439 | `%+` writes the same text as its pattern if and only if neither the year nor the milliseconds are negative |
| `Pattern.LineIsPattern` | common/spdlog/include/details/pattern_formatter_impl.h:419-437 | the parts in the order in which they are written are what the pattern interprets to, however numbers are padded |
| `Pattern.BeforeEpoch` | common/spdlog/include/details/pattern_formatter_impl.h:402-427 | one millisecond before the epoch `%+` and its pattern differ, whatever broken-down time comes with the message |
| `PatternFlags.ClockReads` | common/spdlog/include/details/pattern_formatter_impl.h:174-222 | month, day, hour, minute and second are two digits that read back |
| `PatternFlags.NumbersRead` | common/spdlog/include/details/pattern_formatter_impl.h:143-172 | year and thread read back, and %C is the year within its century from 1900 on |
| `PatternFlags.HalfDayReads` | common/spdlog/include/details/pattern_formatter_impl.h:66-74 | %I and %p together give the hour; noon is 12 and midnight 0 |
| `PatternFlags.FractionsRead` | common/spdlog/include/details/pattern_formatter_impl.h:227-258 | from the epoch on, %F, %f and %e are nine, six and three digits that read back, each the beginning of the one before |
| `PatternFlags.ShortForms` | common/spdlog/include/details/pattern_formatter_impl.h:156-296 | %T and %X are %H:%M:%S, %R is %H:%M, %r is %I:%M:%S %p, %D and %x are %m/%d/%C, %h is %b |
| `PatternFlags.DateTimeFormIff` | common/spdlog/include/details/pattern_formatter_impl.h:132-140 | %c is %a %b %d %H:%M:%S %Y if and only if the day has two digits |
| `PatternFlags.ZoneFormIff` | common/spdlog/include/details/pattern_formatter_impl.h:299-325 | %z has the form of ISO 8601 if and only if the offset is not negative |
| `PatternFlags.NamesRead` | common/spdlog/include/details/pattern_formatter_impl.h:42-114 | the names of day, month and level, short and long, tell which it is |
| `PatternFlags.TextsStand` | common/spdlog/include/details/pattern_formatter_impl.h:33-40 | logger name and message stand as they are |
| `PatternFlags.UnknownStands` | common/spdlog/include/details/pattern_formatter_impl.h:598-602 | a flag that is none of the thirty-one is written as it stands |
| `RecordPool.Pool.Create` | ms_process/log/MessageLog.cc:28-30 | a new session for the sink begins on an object from the free list or the heap, or the record has none when memory is exhausted; every other object keeps its sink, buffer and session, and nothing is output |
| `RecordPool.Pool.Copy` | ms_process/log/MessageLog.cc:32-36 | both records are in one session; only reference counts change |
| `RecordPool.Pool.Destroy` | ms_process/log/MessageLog.cc:38-42 | the record leaves its session; the only output is what that session hands over, and every other object keeps its sink, buffer and session |
| `RecordPool.Pool.Assign` | ms_process/log/MessageLog.cc:44-52 | the record is in the other's session, also when it is assigned to itself; the only output is what the old session hands over, and every other object keeps its sink, buffer and session |
| `RecordPool.Pool.Get` | ms_process/log/MessageLog.cc:151-177 | an object leaves the free list if there is one, and is allocated otherwise, with one reference and a new session; every other object keeps its sink, buffer and session |
| `RecordPool.Pool.PutBack` | ms_process/log/MessageLog.cc:179-185 | an object joins the free list and its session is complete; every other object keeps its sink, buffer and session |
| `RecordPool.Pool.Write` | ms_process/log/MessageLog.cc:93-108 | the text is added to the record's session and to no other, the pieces that this completes go to the session's sink, and every other object keeps its sink, buffer and session |
| `RecordPool.Pool.Overflow` | ms_process/log/MessageLog.cc:93-108 | a full buffer goes to the sink as one message, and the character starts the next |
| `RecordPool.Pool.Ref` | ms_process/log/MessageLog.cc:82-85 | one reference more, nothing else |
| `RecordPool.Pool.Unref` | ms_process/log/MessageLog.cc:87-91 | the object is free exactly when its last reference went; only its own session hands anything over, and every other object keeps its sink, buffer and session |
| `RecordPool.Pool.Release` | ms_process/log/MessageLog.cc:115-127 | the rest of the buffer goes to the sink, so that the session's text has been handed over whole; every other object keeps its sink, buffer and session |
| `RecordPool.FinishedIsDelivered` | ms_process/log/MessageLog.cc:93-127 | the deliveries of a session that no record holds go to its sink in messages of at most 4095 bytes, together its text if and only if that has no zero byte; then all messages but the last have exactly 4095 |
| `RecordPool.ShortTextIsOneMessage` | ms_process/log/MessageLog.cc:93-127 | a text of at most 4095 bytes without a zero byte arrives as one message |
| `RecordPool.CopiesShare` | ms_process/log/MessageLog.cc:32-36 | what is written through a copy is written through the original |
| `RecordPool.AssignedShare` | ms_process/log/MessageLog.cc:44-52 | after an assignment both records write to one session, no text changes, and assigning a record to itself does nothing |
| `RecordPool.DestroyUndoes` | ms_process/log/MessageLog.cc:28-42 | destroying a record undoes its construction or copying, but for the text of a new session |
| `RecordPool.WritesJoin` | ms_process/log/MessageLog.cc:93-108 | writing twice is writing both at once |
| `RecordPool.NewIsSeparate` | ms_process/log/MessageLog.cc:28-30 | what is written to a new record changes no other text |
| `RecordPool.Perform` | ms_process/log/MessageLog.cc:28-127 | in every run of create, copy, assign, destroy and write the sessions are those of the plain specification, and the output of every finished session is its text, to the sink it was created with, if and only if the text has no zero byte |
| `RecordPool.CutAtZero` | ms_process/log/MessageLog.cc:93-127 | a run with a zero byte in which the sink does not get the text |
| `SingleQueue.Queue.Push` | libeventc++11/include/ec/singleQueue.h:42-46 | one element behind the others |
| `SingleQueue.Queue.Pop` | libeventc++11/include/ec/singleQueue.h:49-52 | the first element is gone |
| `SingleQueue.Queue.Front` | libeventc++11/include/ec/singleQueue.h:84-87 | the first element |
| `SingleQueue.Queue.Empty` | libeventc++11/include/ec/singleQueue.h:55-58 | true exactly when there is no element |
| `SingleQueue.Queue.Full` | libeventc++11/include/ec/singleQueue.h:61-64 | true exactly when the capacity is used up |
| `SingleQueue.Queue.CountElements` | libeventc++11/include/ec/singleQueue.h:67-81 | the number of elements, although the differences wrap around |
| `SingleQueue.ExtendableQueue.Push` | libeventc++11/include/ec/extendableSingleQueue.h:30-48 | one element behind the others, in ring or overflow |
| `SingleQueue.ExtendableQueue.Refresh` | libeventc++11/include/ec/extendableSingleQueue.h:51-58 | the order of elements is kept, and afterwards the overflow is empty or the ring full |
| `SingleQueue.ExtendableQueue.Pop` | libeventc++11/include/ec/extendableSingleQueue.h:61-64 | the first element is gone, the overflow stays |
| `SingleQueue.ExtendableQueue.CountElements` | libeventc++11/include/ec/extendableSingleQueue.h:73-76 | the number of elements modulo 2^32 |
| `SingleQueue.WriteIsUnseen` | libeventc++11/include/ec/singleQueue.h:42-46 | the producer's write changes no unread slot |
| `SingleQueue.StepKeeps` | libeventc++11/include/ec/extendableSingleQueue.h:30-71 | every step of producer or consumer keeps pushed = popped + ring + overflow |
| `SingleQueue.Conserved` | libeventc++11/include/ec/extendableSingleQueue.h:30-71 | in every interleaving, what was popped is the oldest part of what was pushed, and the rest is in ring and overflow in order |
| `SingleQueue.QuietCount` | libeventc++11/include/ec/extendableSingleQueue.h:73-76 | while no call is in progress, count is the number of elements pushed and not popped, modulo 2^32 |
| `SingleProgress.CallFinishes` | libeventc++11/include/ec/extendableSingleQueue.h:30-58 | from every state a push or refresh that is left alone ends, its value has joined the others, and the overflow is empty or the ring full |
| `SingleProgress.ConsumerTakes` | libeventc++11/include/ec/singleQueue.h:49-58 | a consumer that is left alone takes the first element of the ring, or finds it empty |
| `SingleProgress.EverythingDrains` | libeventc++11/include/ec/extendableSingleQueue.h:51-71 | with a capacity of at least one, all that was pushed can be popped |
| `SingleProgress.NothingPassesZeroCapacity` | libeventc++11/include/ec/singleQueue.h:61-64 | with a capacity of zero nothing is ever popped |

## Left out

- MpmcQueue.StepInv: memory is sequentially consistent and tickets are unbounded; weak memory orders and the wrap-around of 64-bit tickets are not modelled.
- AsyncLog.JoinedMeansDelivered: exceptions of sinks and formatters, clocks, sleeping and yielding; pushes end before the destructor starts. Under discard_log_msg it speaks only of the messages that got a ticket, and the terminate message may be discarded.
- LoopProtocol.StepInv: loops are not destroyed, handlers and callbacks do not throw, and the libevent calls around frames are left out.
- FormatInt.WriteInt: floating-point formatting and the parsing of format strings; allocation failure; widths and precisions are unbounded numbers, and an array that the buffer has left can still be written to.
- ArgList.At: the index is an unbounded number, and the shift by four times the index is written out for the sixteen indexes.
- ParseInt.ExactUnlessMisread: digits are the characters '0' to '9' and unsigned is 32 bits wide.
- RotatingSink.LogAll: file-system failures, forced flushes, and the wrap-around of the size counter; other processes do not touch the files.
- Stream.RoundTrip: fixed-size values are opaque bytes in host order, counts are little-endian, destinations are fresh, and position plus length does not reach 2^32. The functions putSequence and getSequence are left out.
- Pattern.FullIsPattern: the broken-down time is a parameter and has the ranges that localtime fills in; the cached time zone of Windows is left out.
- RecordPool.Pool.Write: the stream buffer is used one character at a time and by one thread; objects are positions in a heap that only grows, so the destruction of the pool is left out.
- SingleQueue.StepKeeps: volatile accesses are sequentially consistent single steps; the consumer pops only after it has seen an element.
- Murmur.HashMurmur: words are loaded little-endian.
- `crc32_reflect` of crc32.hpp is never called and not modelled.
- The dubbo Java services, HTTP and TCP classes, timers, dates, daemon code and the other hashes and sinks are left out: they are plumbing around libraries that are not part of the repository, or would only add easier members.
