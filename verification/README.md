# Verified models of the concurrent and streaming programs

This project models the programs of a study repository on the Unix system interface whose correctness
has to survive arbitrary scheduling, completion order and chunking, and proves what they promise. The
kernel is an environment that may do anything its interface allows: complete requests in any order, move
fewer bytes than asked, interrupt, refuse, or report any set of descriptors. Block size, slot count, table
size, number of threads and slices, line limit and buffer size are parameters, so every result holds for
all of them. `dafny verify dfyconfig.toml` checks everything.

| files | subject |
|---|---|
| `AioSpec`, `AioPipeline`, `AioTest` | the asynchronous file transfer: its specification, a step system with program and kernel interleaved, and the slot loop itself |
| `FooTable`, `OneLockTable` | the reference-counted hash table as a value, and the one-lock program on real pointers that computes it |
| `TwoLockTable`, `TwoLockInv`, `TwoLockSteps`, `TwoLockUnlink`, `TwoLockTheorems`, `TwoLockCalls`, `TwoLockMemory`, `TwoLockProgress`, `TwoLockLeak` | the two-lock program, one line of any thread per step, simulating the same value, call by call; what becomes of the memory, and that the calls return |
| `EchoTable`, `EchoRounds`, `EchoSelect`, `EchoPoll` | the single-process echo server with `select` and with `poll`, over whole runs |
| `Common`, `Sequences` | bytes and options; sequences without repetition |
| `Stream`, `Lines` | whole-buffer and line-at-a-time I/O over a descriptor that may do less than asked |
| `EchoSession`, `HalfClose`, `StrCli` | the echo session with a half-closed connection: client, server and two byte channels (ordered and lossless, with the end after all data: section 3.5 of RFC 793) |
| `ParallelSort`, `MergeSort` | the parallel sort with a barrier and the k-way merge |
| `WorkPool` | the condition-variable work pool |
| `JobQueue` | the doubly linked job queue |
| `Terminal` | the terminal mode machine |

Concurrent programs are step systems: a step is one lock operation, one system call, or one access to
shared memory, and a theorem about runs quantifies over all sequences of steps. Sequential programs are
methods on the arrays and pointers they change, each proved against a function or an abstract value.

## Where the code does not do what it says

Each of these is modelled both ways; what the code as written does is stated exactly.

- `lock_test2.c:65-67` is mistyped and does not compile; the loop meant is that of `lock_test3.c:64-66`,
  with `foo_hold(fp)`.
- `lock_test2.c:88-92` returns without dropping the caller's reference. The parameter `repaired` of the step
  system selects the repair; `CountAsWritten`, `LeakIsForever` and `OneOperationPerCall` say what happens
  without it, and `LeakHappens` gives a run.
- `lock_test3.c:66` takes `hashlock` a second time. `Find` is the intended search, `FindAsWritten` the one
  that gets stuck on every hit.
- `unp.c:835` never advances the output pointer and `unp.c:808-815` carries on after a failed read:
  `ReadlineV3` with `MyRead(true)` has both repairs, `ReadlineV3AsWritten` and `MyRead(false)` have none.
- `echo_tcp_client_v1.c:271` sends a string length instead of the count read: the field `repaired` of
  `EchoSession.Session` selects, and `SessionCorrect` says exactly when the code as written is right and
  `SecondLineIsWrong` gives a session where it is not.
- `echo_tcp_server_v2.c:218-220` leaves the reports of unused slots uninitialised, and line 265 writes once
  where a loop is needed: `EchoPoll.Server.Pass` and `EchoedExact` state the exact effect of each;
  `EchoPoll.Serve` and `EchoedThroughout` are about whole runs on clean memory and without short writes.
- `lock_test4.c:55-59` exchanges two assignments and lines 82-83 write the wrong node: `AppendAsWritten` and
  `RemoveAsWritten`.
- `barier_test1.c:79-83` finds no slice when every head is LONG_MAX and then reuses an old choice:
  `MergeSort.PickSlice`. The program fills the array from `random()`, whose values are smaller, and `Merge`
  asks for that.
- `term_io.c:723-742` ignores whether its roll-back worked and `term_io.c:826-841` believes a restore that was
  only partly carried out: `FailureRollsBack` and `LeavePutsBack` say exactly when each is right, `SoundExactly`
  what that means for a sequence of calls, and `UnsoundAfterAll` gives two that go wrong.

## Assumptions about the environment

- Asynchronous file: reads of a regular file return the block or what is left of it, writes are complete,
  requests do not fail. Every request completes when waited for.
- Locks are taken when free and by one thread at a time; a condition variable may wake a waiter at any time.
- Two-lock table: a release is called by the owner of a reference, at most once for each; a reference may be
  handed to another thread between calls. Memory for a new object is at an address not in use.
- One-lock table: an operation starts with the lock free.
- `accept` returns a descriptor that is not open; `select` and `poll` report only what they were asked about;
  in the `select` server reads and writes do not fail, though a write may take as little as it likes.
- Half-close session: some zero byte follows the client's line buffer in memory, so that a string length
  exists; reads and writes on the connection do not fail.
- Terminal: a refused `tcsetattr` changes nothing; one that succeeds may have set anything.
- Merge: numbers below LONG_MAX and slices of at least one number.

## Model

| member | source | states |
|---|---|---|
| `AioPipeline.TransferCorrect` | UnixAdvancedProgramming/ch13_io/aio_test1.c:75-173 | For every input, any number of slots, any block size and every order of completions: a run that reaches the break condition has written exactly the input with every letter, and nothing else, moved 13 places round its own alphabet, in exactly three program steps per block |
| `AioPipeline.StepKeeps` | UnixAdvancedProgramming/ch13_io/aio_test1.c:76-157 | Every step of the program or of the kernel keeps the global invariant: disjoint requests on the block grid, each byte below `off` written or in flight, `aio_op_num` the number of busy slots, list entries exactly those of busy slots, `last` exactly on the final block, a read asking for one block and a write for what was read |
| `AioPipeline.BlockAccounting` | UnixAdvancedProgramming/ch13_io/aio_test1.c:82-97 | In every reachable state each block below `off` is held by exactly one slot, or by none and then all its bytes are in the output |
| `AioPipeline.StepCost` | UnixAdvancedProgramming/ch13_io/aio_test1.c:78-155 | 3 per block not yet issued, 2 per pending read and 1 per pending write drops by one at each transition of the program; completions leave it alone |
| `AioPipeline.MeasureZero` | UnixAdvancedProgramming/ch13_io/aio_test1.c:159-164 | That measure is zero exactly when the break condition holds |
| `AioPipeline.SuspendHasWork` | UnixAdvancedProgramming/ch13_io/aio_test1.c:166-169 | `aio_suspend` is never reached with an empty list |
| `AioPipeline.NeverStuck` | UnixAdvancedProgramming/ch13_io/aio_test1.c:75-173 | Until the break condition holds some step is possible |
| `AioPipeline.RunKeeps` | UnixAdvancedProgramming/ch13_io/aio_test1.c:75-173 | Over a whole run the invariant holds and the measure has dropped by the number of program steps |
| `AioTest.Transfer.Visit` | UnixAdvancedProgramming/ch13_io/aio_test1.c:78-156 | The `switch` for one slot does exactly the step its state calls for, or nothing when it has to wait; the short-read and short-write exits are never taken |
| `AioTest.Transfer.IssueRead` | UnixAdvancedProgramming/ch13_io/aio_test1.c:82-97 | Starting a read is the abstract issue step, on the slot array and the counters |
| `AioTest.Transfer.BeginWrite` | UnixAdvancedProgramming/ch13_io/aio_test1.c:119-133 | The translation loop and the start of the write are the abstract step |
| `AioTest.Transfer.RetireSlot` | UnixAdvancedProgramming/ch13_io/aio_test1.c:150-153 | Freeing a slot is the abstract step |
| `AioTest.Transfer.Suspend` | UnixAdvancedProgramming/ch13_io/aio_test1.c:166-169 | When the wait returns some listed request is complete; every other slot is untouched or complete as asked, its offset, size and place unchanged, and the file has changed only by writes that completed |
| `AioTest.Transfer.Sweep` | UnixAdvancedProgramming/ch13_io/aio_test1.c:76-157 | One pass over the slots ends without an error and does something unless the break condition holds |
| `AioTest.Transfer.Run` | UnixAdvancedProgramming/ch13_io/aio_test1.c:75-173 | The loop terminates, never by an error exit, and the file it leaves is the input with its letters, byte for byte, moved 13 places round their alphabets |
| `AioTest.SameOutput` | UnixAdvancedProgramming/ch13_io/aio_test1.c:75-173 | The pipeline and the sequential program, run on the same file, leave the same output, and it is the file with its letters moved 13 places round their alphabets |
| `AioSpec.CharProcess` | UnixAdvancedProgramming/ch13_io/aio_test1.c:234-244 | The sequential program writes the input with its letters moved 13 places round their alphabets, for any read sizes |
| `AioSpec.TranslatePrefix` | UnixAdvancedProgramming/ch13_io/aio_test1.c:119-120 | The in-place loop moves each letter among the first `n` bytes of the buffer 13 places round its alphabet and leaves every other byte of it |
| `AioSpec.Translate` | UnixAdvancedProgramming/ch13_io/aio_test1.c:184-198 | A capital goes to the capital 13 places further on modulo 26, a small letter to the small letter likewise, and any other byte to itself, the ranges of letters given as numbers |
| `AioSpec.RotatedIsTranslated` | UnixAdvancedProgramming/ch13_io/aio_test1.c:184-198 | A file is the translation of another exactly if it has the same length and each of its bytes is that one moved so |
| `AioSpec.TranslateRoundTrip` | UnixAdvancedProgramming/ch13_io/aio_test1.c:184-198 | The transferred file has its letters moved 13 places, and transferring it again gives the original back |
| `FooTable.DoKeepsWf` | UnixAdvancedProgramming/ch7_12_process/lock_test3.c:25-97 | Every operation keeps the abstract table well formed: each object in the chain of its id, no repeats, every count positive |
| `FooTable.FindComplete` | UnixAdvancedProgramming/ch7_12_process/lock_test3.c:59-73 | A search hits exactly when the table holds an object with that id |
| `FooTable.PublishRelease` | UnixAdvancedProgramming/ch7_12_process/lock_test3.c:75-97 | Releasing the only reference undoes the allocation, and the new object is found first |
| `FooTable.HoldRelease` | UnixAdvancedProgramming/ch7_12_process/lock_test3.c:52-57 | A release undoes a hold, and a successful search counts like a hold |
| `FooTable.RemainderIsMod` | UnixAdvancedProgramming/ch7_12_process/lock_test3.c:8 | The bucket arithmetic used throughout is the remainder operator |
| `FooTable.HashIs` | UnixAdvancedProgramming/ch7_12_process/lock_test3.c:8 | An id goes to the bucket numbered by its value modulo the number of buckets, a negative id by its value plus 2 to the 64 |
| `OneLockTable.HashTable.Alloc` | UnixAdvancedProgramming/ch7_12_process/lock_test3.c:25-50 | On real pointers: the abstract publish, or nothing when memory is refused |
| `OneLockTable.HashTable.Hold` | UnixAdvancedProgramming/ch7_12_process/lock_test3.c:52-57 | On real pointers: the abstract hold |
| `OneLockTable.HashTable.Find` | UnixAdvancedProgramming/ch7_12_process/lock_test3.c:59-73 | With the increment made under the lock already held: the abstract search, its result the first object of the chain with the id |
| `OneLockTable.HashTable.LockAndHold` | UnixAdvancedProgramming/ch7_12_process/lock_test3.c:52-57 | `foo_hold` with its lock: it waits exactly while somebody has `hashlock`, whoever that is, and otherwise does the abstract hold and leaves the lock free |
| `OneLockTable.HashTable.FindAsWritten` | UnixAdvancedProgramming/ch7_12_process/lock_test3.c:59-73 | As written, calling `foo_hold` with `hashlock` still taken: it returns, and leaves the lock free, exactly when no object has the id; otherwise it waits for a lock that it holds itself and that nobody can take again |
| `OneLockTable.HashTable.Release` | UnixAdvancedProgramming/ch7_12_process/lock_test3.c:75-97 | On real pointers: the abstract release, unlinking the object exactly when its last reference goes |
| `OneLockTable.HashTable.Redirect` | UnixAdvancedProgramming/ch7_12_process/lock_test3.c:82-90 | The pointer that led to the object, bucket head or predecessor, now leads to its successor, and no other pointer has changed |
| `TwoLockTheorems.Linearizable` | UnixAdvancedProgramming/ch7_12_process/lock_test2.c:26-114 | Every run of any number of threads, as written or repaired, is a run of the one-lock table: the operations, in the order in which they took effect, are each allowed at their point, and lead to the same chains, ids and counts |
| `TwoLockCalls.OneOperationPerCall` | UnixAdvancedProgramming/ch7_12_process/lock_test2.c:26-114 | Every completed call contributes exactly one operation to that history, in a step between its call and its return, with the arguments it was given and the pointer it returns; a release that took the recheck branch as written contributes none |
| `TwoLockCalls.UnfinishedCall` | UnixAdvancedProgramming/ch7_12_process/lock_test2.c:26-114 | A call still running has contributed nothing yet, or already its one operation |
| `TwoLockCalls.EveryOperationHasItsCall` | UnixAdvancedProgramming/ch7_12_process/lock_test2.c:26-114 | The history is in the order of the steps, and each of its operations took effect inside a call of its thread |
| `TwoLockTheorems.StepRefines` | UnixAdvancedProgramming/ch7_12_process/lock_test2.c:26-114 | Each step is invisible in the abstract table or exactly one allowed operation on it: publish, increment, decrement or unlink, or a miss |
| `TwoLockTheorems.AbsWf` | UnixAdvancedProgramming/ch7_12_process/lock_test2.c:26-114 | In every reachable state the abstract table is well formed |
| `TwoLockUnlink.StepKeeps` | UnixAdvancedProgramming/ch7_12_process/lock_test2.c:26-114 | Every step of every thread keeps the invariant over chains, counts, references, locks, program counters and memory; an object outside the chains is one that a running call is about to link or, having unlinked it, about to free |
| `TwoLockTheorems.AlwaysSafe` | UnixAdvancedProgramming/ch7_12_process/lock_test2.c:55-113 | No line of any thread follows a null pointer or touches freed memory |
| `TwoLockUnlink.NobodyElse` | UnixAdvancedProgramming/ch7_12_process/lock_test2.c:106-109 | When an object is freed nobody holds its lock, owes a release for it, is working on it or waiting for its lock, and no bucket or live object points to it |
| `TwoLockMemory.WhereObjectsAre` | UnixAdvancedProgramming/ch7_12_process/lock_test2.c:26-114 | In every reachable state an object in memory is in its chain, or some call has yet to link it, or some call has unlinked it and is on its way to the free |
| `TwoLockMemory.QuietMemory` | UnixAdvancedProgramming/ch7_12_process/lock_test2.c:26-114 | While no call is running memory holds the objects of the table and nothing else |
| `TwoLockMemory.FreedAtReturn` | UnixAdvancedProgramming/ch7_12_process/lock_test2.c:73-113 | When a release returns it has given back the object's memory, and nothing else, if it dropped the last reference, and otherwise its last step gives nothing back |
| `TwoLockMemory.MemoryChanges` | UnixAdvancedProgramming/ch7_12_process/lock_test2.c:26-114 | Over any step memory grows by what an allocation asked for, shrinks by what the last line of a release frees, and is otherwise the same |
| `TwoLockProgress.StepAdvances` | UnixAdvancedProgramming/ch7_12_process/lock_test2.c:26-114 | Every line that any thread runs brings it closer to the return of its call, or one object further along its chain: the calls in progress end under every schedule |
| `TwoLockProgress.AllReturn` | UnixAdvancedProgramming/ch7_12_process/lock_test2.c:26-114 | From every reachable state a run without new calls leads to one in which every call has returned |
| `TwoLockTheorems.Guarded` | UnixAdvancedProgramming/ch7_12_process/lock_test2.c:39-113 | In every reachable state a thread whose next line reads or writes a bucket or a link owns `hashlock`, and one whose next line reads or writes a count owns that object's lock |
| `TwoLockTheorems.WritesGuarded` | UnixAdvancedProgramming/ch7_12_process/lock_test2.c:39-113 | Over any step no bucket, chain or link changes unless the thread that runs owns `hashlock`, and no count unless it owns that object's lock |
| `TwoLockTheorems.LockOrder` | UnixAdvancedProgramming/ch7_12_process/lock_test2.c:39-44 | In every reachable state a thread about to take either lock is the recorded owner of no object's lock, and one about to take `hashlock` does not own that either |
| `TwoLockTheorems.NoDeadlock` | UnixAdvancedProgramming/ch7_12_process/lock_test2.c:39-113 | In every reachable state with an unfinished call some thread can run its next line |
| `TwoLockTheorems.CountAsWritten` | UnixAdvancedProgramming/ch7_12_process/lock_test2.c:88-92 | As written: the count exceeds the references still owed by exactly the number of times the recheck branch was taken for that object; they agree if and only if it was never taken |
| `TwoLockTheorems.LeakIsForever` | UnixAdvancedProgramming/ch7_12_process/lock_test2.c:88-92 | As written: an object whose recheck branch was ever taken is never freed |
| `TwoLockLeak.LeakHappens` | UnixAdvancedProgramming/ch7_12_process/lock_test2.c:83-92 | As written: a concrete run of two threads takes that branch |
| `TwoLockTheorems.CountRepaired` | UnixAdvancedProgramming/ch7_12_process/lock_test2.c:88-92 | With the reference dropped in the recheck branch the count always equals the references still owed, and is positive |
| `EchoSelect.Server.Pass` | UnixNetworkProgrammingVol1/ch4_tcp/echo_tcp_server_v2.c:56-97 | One pass keeps the table invariant (`allset` is the listener and the live entries, entries distinct, `maxi` and `maxfd` bound them), reads every client reported ready exactly once and nobody else, never the client accepted in the pass, and every connection has been sent what it received; it ends the server exactly when the table is full |
| `EchoSelect.Server.Accept` | UnixNetworkProgrammingVol1/ch4_tcp/echo_tcp_server_v2.c:60-76 | The new connection takes the first free slot, `maxi` and `maxfd` grow just as far as it needs; refused exactly when there is no free slot |
| `EchoSelect.Server.ServeReady` | UnixNetworkProgrammingVol1/ch4_tcp/echo_tcp_server_v2.c:81-97 | The scan with its early exit skips nobody who was reported |
| `EchoSelect.Server.ServeOne` | UnixNetworkProgrammingVol1/ch4_tcp/echo_tcp_server_v2.c:85-93 | End of file closes the client and frees its slot, anything else is echoed in full |
| `EchoSelect.Server.WriteAll` | UnixNetworkProgrammingVol1/ch4_tcp/echo_tcp_server_v2.c:92 | The echo is the whole-buffer write of `Stream`: however little the kernel takes at a time, all bytes are sent, in order |
| `EchoSelect.Server.Run` | UnixNetworkProgrammingVol1/ch4_tcp/echo_tcp_server_v2.c:53-98 | The loop, for any reports, connections, reads and partial writes: it ends exactly when a connection comes in with as many clients open as there are slots, and otherwise each connection has received, and been sent, what the rounds delivered to it |
| `EchoSelect.Serve` | UnixNetworkProgrammingVol1/ch4_tcp/echo_tcp_server_v2.c:39-98 | The same for the server started from nothing |
| `EchoRounds.EachItsOwn` | UnixNetworkProgrammingVol1/ch4_tcp/echo_tcp_server_v2.c:81-97 | What a client has received after any number of rounds is made of that descriptor's own news alone: nobody gets anything of another's, and a descriptor used again starts afresh |
| `EchoTable.FullTable` | UnixNetworkProgrammingVol1/ch4_tcp/echo_tcp_server_v2.c:62-69 | The table is full exactly when there are as many open clients as slots |
| `EchoTable.MayStop` | UnixNetworkProgrammingVol1/ch4_tcp/echo_tcp_server_v2.c:94-95 | When as many distinct clients were served as were reported, the rest of the table has nothing to serve |
| `EchoPoll.Server.Pass` | UnixNetworkProgrammingVol1/ch4_tcp/echo_tcp_server_v2.c:226-271 | One pass keeps the same table, serves every marked client exactly once and nobody else, but for the client just accepted, and that exactly when its slot was never in use, held a stale report, and the report count had not run out; says what each connection then has received and been sent |
| `EchoPoll.Server.Accept` | UnixNetworkProgrammingVol1/ch4_tcp/echo_tcp_server_v2.c:229-244 | The new connection takes the first free slot after the listener's; refused exactly when there is none |
| `EchoPoll.Server.Scan` | UnixNetworkProgrammingVol1/ch4_tcp/echo_tcp_server_v2.c:250-271 | The scan stops short of the table's end only after serving as many clients as were counted |
| `EchoPoll.Server.ServeOne` | UnixNetworkProgrammingVol1/ch4_tcp/echo_tcp_server_v2.c:254-266 | A reset or an end closes the slot, another error is passed over, and data is answered by a single write, of which only a prefix may get through |
| `EchoPoll.Server.Poll` | UnixNetworkProgrammingVol1/ch4_tcp/echo_tcp_server_v2.c:226 | The reports of the slots up to `maxindex` are what was marked, with free slots cleared; the others keep what they held |
| `EchoPoll.EchoedExact` | UnixNetworkProgrammingVol1/ch4_tcp/echo_tcp_server_v2.c:264-266 | After a pass every client has been sent exactly what it was read if and only if no single write fell short |
| `EchoPoll.EchoIsPrefix` | UnixNetworkProgrammingVol1/ch4_tcp/echo_tcp_server_v2.c:264-266 | What a client that sent something gets back is the front of it, as many bytes as the one write took |
| `EchoPoll.Server.Run` | UnixNetworkProgrammingVol1/ch4_tcp/echo_tcp_server_v2.c:224-272 | The loop, while no unused slot holds a stale report: never a client read that was not reported; it ends exactly when a connection comes in and all other slots are taken, and otherwise every connection has received what the rounds delivered and been sent what the single writes took |
| `EchoPoll.Serve` | UnixNetworkProgrammingVol1/ch4_tcp/echo_tcp_server_v2.c:215-272 | The same for the server started from nothing in clean memory |
| `EchoPoll.EchoedThroughout` | UnixNetworkProgrammingVol1/ch4_tcp/echo_tcp_server_v2.c:224-272 | Over a whole run in which no write falls short, every open connection has been sent exactly what was received on it |
| `EchoPoll.ScanOutcome` | UnixNetworkProgrammingVol1/ch4_tcp/echo_tcp_server_v2.c:250-271 | Which clients a scan with a given count has served, in every case |
| `Stream.Readn` | UnixNetworkProgrammingVol1/util/unp.c:703-729 | All `n` bytes unless the stream ends first; -1 exactly if a call fails before that; whatever happens, bytes in the buffer and bytes left make up the stream |
| `Stream.Writen` | UnixNetworkProgrammingVol1/util/unp.c:731-752 | All `n` bytes in order; -1 exactly if a call fails, or takes nothing, before that, and then a proper prefix was written |
| `Lines.ReadlineV1` | UnixNetworkProgrammingVol1/util/unp.c:758-782 | Byte at a time: the buffer gets the next line, up to the first byte 10, the end or the limit, and a zero, and keeps the rest; the count tells its length, or the limit if that cut it; -1 exactly if a call fails before the line is complete |
| `Lines.LineReader.ReadlineV3` | UnixNetworkProgrammingVol1/util/unp.c:827-849 | With both repairs, for any chunking and buffer size: the count, the caller's buffer and the remaining stream are those of the next line, the same as `readline_v1`'s; -1 exactly if the buffer has to be filled before the line is complete and that fails |
| `Lines.LineReader.ReadlineV3AsWritten` | UnixNetworkProgrammingVol1/util/unp.c:835 | Without the pointer advance: the count and the place in the stream are those of the line up to the first byte 10, the end or the limit, but the caller's buffer holds only a zero |
| `Lines.AsWrittenDelivers` | UnixNetworkProgrammingVol1/util/unp.c:835 | That buffer shows the right text exactly when the line is empty or starts with a zero |
| `Lines.LineReader.MyRead` | UnixNetworkProgrammingVol1/util/unp.c:804-821 | One byte of the remaining stream; on a failure the repaired function reports it, and as written it delivers a byte never read and leaves a count of -2 |
| `Lines.LineReader.Buffered` | UnixNetworkProgrammingVol1/util/unp.c:854-859 | Exposes exactly the bytes read and not yet delivered |
| `Lines.LinesV1` | UnixNetworkProgrammingVol1/util/unp.c:758-782 | Call after call, the stream is cut up into lines, each ended by the first byte 10, the limit or the end, with its count, and the rest |
| `Lines.LinesV3` | UnixNetworkProgrammingVol1/util/unp.c:827-849 | Call after call, the same lines and counts whatever the chunks |
| `Lines.LinesConserve` | UnixNetworkProgrammingVol1/util/unp.c:758-782 | The lines and the unread rest, put together, are the stream |
| `Lines.LineShape` | UnixNetworkProgrammingVol1/util/unp.c:764-768 | The bytes one read takes are the one prefix of the stream with no byte 10 before its last byte that ends in a 10, at the limit, or with the stream |
| `Lines.LineStops` | UnixNetworkProgrammingVol1/util/unp.c:764-768 | The first byte 10 is where the line stops if that is within the limit; otherwise it stops at the limit or the end |
| `Lines.CountTells` | UnixNetworkProgrammingVol1/util/unp.c:764-781 | What a caller can tell from the count alone: `maxlen` exactly when the limit was reached without a byte 10, 0 exactly at the end of the stream, otherwise the length of a line that is complete or the last; and how many bytes were stored in each case |
| `Lines.WholeStream` | UnixNetworkProgrammingVol1/util/unp.c:758-782 | Enough calls read the whole stream: the lines put together are the stream |
| `HalfClose.Conservation` | UnixNetworkProgrammingVol1/ch4_tcp/echo_tcp_client_v1.c:240-273 | In every reachable state, with `n` in place of the string length: stdout, bytes coming back, server buffer and bytes going out, in order, are the prefix of stdin read so far, and the client never ends early |
| `HalfClose.SessionCorrect` | UnixNetworkProgrammingVol1/ch4_tcp/echo_tcp_client_v1.c:248-273 | At a normal exit stdout is all of stdin with the repair; as written, exactly if at every read the bytes held no zero and the byte after them was one |
| `HalfClose.StringExact` | UnixNetworkProgrammingVol1/ch4_tcp/echo_tcp_client_v1.c:271 | The string at the start of the buffer is the bytes read exactly when they hold no zero and a zero follows them |
| `HalfClose.StaleTail` | UnixNetworkProgrammingVol1/ch4_tcp/echo_tcp_client_v1.c:271 | As written, a line shorter than the one before it is sent with the old line's tail |
| `HalfClose.SecondLineIsWrong` | UnixNetworkProgrammingVol1/ch4_tcp/echo_tcp_client_v1.c:271 | As written: a complete session, from the first select to the normal exit, whose output differs from its input |
| `HalfClose.CanFinish` | UnixNetworkProgrammingVol1/ch4_tcp/echo_tcp_client_v1.c:240-273 | From every state a session can get into some run goes on to the normal exit |
| `HalfClose.ReturnAtEnd` | UnixNetworkProgrammingVol1/ch4_tcp/echo_tcp_client_v1.c:213-219 | A client that returned at the end of stdin would leave a prefix of the output, and all of it exactly if nothing was under way |
| `HalfClose.ReturnAtEndLoses` | UnixNetworkProgrammingVol1/ch4_tcp/echo_tcp_client_v1.c:225-231 | A run in which that prefix is not all: why the connection is closed by halves |
| `HalfClose.StepGood` | UnixNetworkProgrammingVol1/ch4_tcp/echo_tcp_server_v1.c:122-142 | Every system call of client or server, of any size and in any order, keeps the invariant and makes progress; an interrupted read changes nothing |
| `HalfClose.ReadInputGood` | UnixNetworkProgrammingVol1/ch4_tcp/echo_tcp_client_v1.c:261-271 | The one call that takes bytes in: end of stdin, or bytes read and handed to the socket as read or as a string |
| `HalfClose.NeverStuck` | UnixNetworkProgrammingVol1/ch4_tcp/echo_tcp_client_v1.c:240-273 | Until the client has exited, one side can make progress |
| `StrCli.StrCliV4` | UnixNetworkProgrammingVol1/ch4_tcp/echo_tcp_client_v1.c:232-274 | The loop itself, against a server that moves at any time: it terminates, always by the normal exit, with the same result |
| `StrCli.SocketBranch` | UnixNetworkProgrammingVol1/ch4_tcp/echo_tcp_client_v1.c:248-259 | Copies what came in, or ends; it can only end after stdin did |
| `StrCli.InputBranch` | UnixNetworkProgrammingVol1/ch4_tcp/echo_tcp_client_v1.c:261-272 | Sends what was read, or shuts the sending side down at the end of stdin and stops watching it |
| `ParallelSort.SlicesCorrect` | UnixAdvancedProgramming/ch7_12_process/barier_test1.c:57-67 | For every interleaving of the workers, when the barrier opens every slice is sorted and no number was lost |
| `ParallelSort.OpenMeansSorted` | UnixAdvancedProgramming/ch7_12_process/barier_test1.c:106-117 | The merge cannot start before all slices are sorted |
| `ParallelSort.StepKeeps` | UnixAdvancedProgramming/ch7_12_process/barier_test1.c:26-67 | Every comparison and every arrival keeps each worker's progress and the numbers as a whole |
| `ParallelSort.StepCost` | UnixAdvancedProgramming/ch7_12_process/barier_test1.c:32-39 | Every comparison and arrival of a worker costs one unit of the remaining work |
| `ParallelSort.Progress` | UnixAdvancedProgramming/ch7_12_process/barier_test1.c:106-116 | No thread is stuck before the barrier opens |
| `ParallelSort.SortedUnique` | UnixAdvancedProgramming/ch7_12_process/barier_test1.c:106-117 | There is one sorted permutation, so the result does not depend on the schedule |
| `MergeSort.ExchangeSort` | UnixAdvancedProgramming/ch7_12_process/barier_test1.c:26-41 | In place: the slice is sorted, the elements are the same, everything outside is untouched |
| `MergeSort.PickSlice` | UnixAdvancedProgramming/ch7_12_process/barier_test1.c:79-85 | The first slice with the least head; freshly chosen exactly when some head is below LONG_MAX, otherwise the last choice again |
| `MergeSort.TakeKeeps` | UnixAdvancedProgramming/ch7_12_process/barier_test1.c:86-88 | Taking that head keeps the merge invariant: cursors inside their slices, their advances together the output's length, output sorted and no larger than anything left, nothing lost |
| `MergeSort.MergeOne` | UnixAdvancedProgramming/ch7_12_process/barier_test1.c:78-89 | One round on the arrays takes the head of the first least slice and keeps the invariant |
| `MergeSort.Merge` | UnixAdvancedProgramming/ch7_12_process/barier_test1.c:70-90 | From sorted slices of numbers below LONG_MAX: the output is sorted and a permutation |
| `MergeSort.BarrierTest` | UnixAdvancedProgramming/ch7_12_process/barier_test1.c:92-117 | The whole program, under any schedule and for all numbers below 2 to the 63 less 1, so for all that `random()` returns: the output is the sorted permutation of the input |
| `WorkPool.StepKeeps` | UnixAdvancedProgramming/ch7_12_process/cond_test1.c:18-58 | Every step of every consumer and producer keeps the invariant: the owner of the mutex is the one thread inside, every message made is in exactly one place, and pending wakeups; which message is taken is stated by `LastInFirstOut` |
| `WorkPool.RunKeeps` | UnixAdvancedProgramming/ch7_12_process/cond_test1.c:18-58 | So it holds in every reachable state, spurious wakeups included |
| `WorkPool.StepCounts` | UnixAdvancedProgramming/ch7_12_process/cond_test1.c:27-31 | While anyone sleeps, each listed message keeps an awake consumer or a signal on its way; every useful step reduces the work left |
| `WorkPool.SomeoneAwake` | UnixAdvancedProgramming/ch7_12_process/cond_test1.c:27-57 | No wakeup is lost: a message in the list has a consumer not asleep or a producer that has yet to signal |
| `WorkPool.FreedOnce` | UnixAdvancedProgramming/ch7_12_process/cond_test1.c:38-39 | A freed message was freed once and its data before it, and it is neither in the list nor in anyone's hands |
| `WorkPool.LastInFirstOut` | UnixAdvancedProgramming/ch7_12_process/cond_test1.c:29-30 | Over any run, the message a consumer takes came onto the list later than every other message on it: the last one linked in is the first one taken |
| `WorkPool.TakenFromList` | UnixAdvancedProgramming/ch7_12_process/cond_test1.c:29-30 | What a consumer takes was on the list and then is not, and everything on the list came there in some step of the run and has been there since |
| `WorkPool.MutualExclusion` | UnixAdvancedProgramming/ch7_12_process/cond_test1.c:26-31 | No two threads are inside the critical section |
| `WorkPool.RestMeansDone` | UnixAdvancedProgramming/ch7_12_process/cond_test1.c:18-58 | The pool comes to rest only with every message freed exactly once, all consumers asleep and no signal outstanding |
| `JobQueue.Queue.Insert` | UnixAdvancedProgramming/ch7_12_process/lock_test4.c:36-47 | The queue's links spell the new job followed by the old sequence |
| `JobQueue.Queue.Append` | UnixAdvancedProgramming/ch7_12_process/lock_test4.c:50-61 | As intended: the links spell the old sequence followed by the new job |
| `JobQueue.Queue.AppendAsWritten` | UnixAdvancedProgramming/ch7_12_process/lock_test4.c:55-59 | As written: right exactly when the queue was empty; otherwise the new job is the head and the tail is stale |
| `JobQueue.Queue.Remove` | UnixAdvancedProgramming/ch7_12_process/lock_test4.c:64-86 | As intended: exactly that job is gone, wherever it was |
| `JobQueue.Queue.RemoveAsWritten` | UnixAdvancedProgramming/ch7_12_process/lock_test4.c:67-84 | As written: right exactly at the ends; a job in the middle stays, its backward link pointing at itself, and nothing else changes |
| `JobQueue.Queue.Find` | UnixAdvancedProgramming/ch7_12_process/lock_test4.c:89-102 | The first job with the id, or none; none as well when the lock is refused |
| `JobQueue.Queue.PerformAll` | UnixAdvancedProgramming/ch7_12_process/lock_test4.c:36-86 | Any run of insertions, appends and removals leaves what the same run on a sequence leaves |
| `JobQueue.Mirror` | UnixAdvancedProgramming/ch7_12_process/lock_test4.c:6-17 | Forward and backward links mirror each other, and the null links are exactly those of head and tail |
| `JobQueue.MembersAfter` | UnixAdvancedProgramming/ch7_12_process/lock_test4.c:36-86 | After any run, the jobs in the queue are those whose last operation put them in, each once |
| `Sequences.WithoutExactly` | UnixAdvancedProgramming/ch7_12_process/lock_test4.c:64-86 | Removal takes out that job and only that job |
| `Sequences.WithoutKeepsOrder` | UnixAdvancedProgramming/ch7_12_process/lock_test4.c:64-86 | The jobs left keep their order |
| `JobQueue.RemoveUndoes` | UnixAdvancedProgramming/ch7_12_process/lock_test4.c:64-86 | Removal undoes an insertion at either end |
| `JobQueue.FirstWithIsFirst` | UnixAdvancedProgramming/ch7_12_process/lock_test4.c:96-98 | No job before the one found has the id |
| `Terminal.Tty.Cbreak` | UnixAdvancedProgramming/ch18_terminal_io/term_io.c:701-748 | The program's state, the terminal and the result are those of the machine `Enter`, for any answers of the kernel; after success echo and line editing are off and a read returns after one byte, and with a kernel that does what it is asked the call succeeds out of the reset state and every other setting is as it was |
| `Terminal.Tty.Raw` | UnixAdvancedProgramming/ch18_terminal_io/term_io.c:762-821 | The same for raw mode: after success the four local, five input and one output flags and parity are off, both size bits on, and a read returns after one byte; with a kernel that does what it is asked every other flag is as it was |
| `Terminal.Tty.Reset` | UnixAdvancedProgramming/ch18_terminal_io/term_io.c:826-841 | The program's state, the terminal and the result are those of the machine `Leave` |
| `Terminal.Tty.AtExit` | UnixAdvancedProgramming/ch18_terminal_io/term_io.c:846-850 | Resets exactly if a mode was ever entered |
| `Terminal.Tty.Run` | UnixAdvancedProgramming/ch18_terminal_io/term_io.c:701-850 | Any sequence of calls over any kernel is a run of the machine, and is sound if every restore in it worked |
| `Terminal.EnterSucceeds` | UnixAdvancedProgramming/ch18_terminal_io/term_io.c:705-747 | A mode change succeeds exactly out of the reset state, when the request was not refused and the mode then holds; the original settings are saved |
| `Terminal.RawIs` | UnixAdvancedProgramming/ch18_terminal_io/term_io.c:781-814 | Flag by flag, what raw mode asks for and what it is checked for: eight bits without parity, the named flags off, everything else as before |
| `Terminal.CbreakIs` | UnixAdvancedProgramming/ch18_terminal_io/term_io.c:717-736 | Flag by flag, what cbreak mode asks for and what it is checked for: echo and line editing off, everything else as before |
| `Terminal.EnterLeaves` | UnixAdvancedProgramming/ch18_terminal_io/term_io.c:701-821 | After success the terminal is in the mode, flag by flag, whatever the kernel did; if it did what it was asked everything else is as before |
| `Terminal.FailureRollsBack` | UnixAdvancedProgramming/ch18_terminal_io/term_io.c:723-742 | A mode change that returns -1 leaves the state, and leaves the terminal as it was if and only if the request was never made or was refused, or the restore that follows puts the saved settings back |
| `Terminal.LeavePutsBack` | UnixAdvancedProgramming/ch18_terminal_io/term_io.c:826-841 | A reset of a reset terminal does nothing and succeeds; a refused reset keeps everything; any other is believed, and the terminal is back as it was saved exactly if the restore put it back |
| `Terminal.CallSound` | UnixAdvancedProgramming/ch18_terminal_io/term_io.c:701-850 | A call leaves a sound machine sound if and only if the restore it makes, if any, works |
| `Terminal.SoundExactly` | UnixAdvancedProgramming/ch18_terminal_io/term_io.c:701-850 | For every sequence of calls and every script of answers: the machine is sound after each call if and only if every restore made on the way worked. Sound: reset means the original settings, a mode means that it holds and the original is saved |
| `Terminal.ObedientKernel` | UnixAdvancedProgramming/ch18_terminal_io/term_io.c:701-850 | With a kernel that does what it is asked any sequence of calls is sound, and the exit handler leaves the terminal as it was found |
| `Terminal.UnsoundAfterAll` | UnixAdvancedProgramming/ch18_terminal_io/term_io.c:723-742 | Concrete scripts: a request half carried out with its roll-back refused, and a reset that is believed though it changed nothing, both end in the reset state on changed settings |
| `Terminal.CheckMatchesRequest` | UnixAdvancedProgramming/ch18_terminal_io/term_io.c:734-742 | The settings asked for are those of the mode, flag by flag, and pass the check made afterwards, and a mode holds exactly when asking for it would change nothing |
| `Terminal.RawImpliesCbreak` | UnixAdvancedProgramming/ch18_terminal_io/term_io.c:781-814 | Raw mode is stricter than cbreak mode |

## Left out

- Kernel calls (sockets, `aio_*`, `poll`, `tcsetattr`, `pthread_*`): nondeterministic specifications with the assumptions above.
- Error returns that only print a message (`err_sys` and its relatives): outside the assumptions, since the programs carry on as if nothing had happened.
- `aio_fsync` at `aio_test1.c:176-178` and the pauses and messages of all programs: no effect on the data.
- `isalpha` in locales other than C.
- `pthread_mutex_init` failing in `foo_alloc`, and a refused `malloc` in the two-lock table: the calls return without touching the table.
- The payload behind the objects, jobs and messages: no operation looks at it.
- `pselect` server (`echo_tcp_server_v2.c:109-188`): the same loop as the `select` server.
- `str_cli`, `str_cli_v2` and `bin_sum`: they send one line, or one record of two numbers, wait for the one answer, and go on; with never more than one message under way there is no interleaving, and the whole-buffer and line functions they call are those of `Stream` and `Lines`. The machine's byte order and word size in the records are not modelled.
- `str_cli_v3`: the client of `StrCli` with an early return; of it only that return is modelled, in `HalfClose.ReturnAtEnd`.
- `readline_v2`: it has no body.
- WorkPool.StepKeeps: the message list is a sequence taken and extended at its head; the `m_next` pointers are not modelled.
- ParallelSort.StepKeeps: a comparison and the exchange that may follow are one step, because no other thread touches the slice.
- HalfClose.StepGood: the server's clearing of its buffer after each echo is not modelled, as no byte of it is sent again.
- EchoPoll.Server.ServeOne: of the two report bits the loop looks at only their disjunction is kept.
- Terminal.Tty.Run: one terminal; a call on a second descriptor while the first is in a mode is not modelled.
- Lines.LineReader.ReadlineV3AsWritten: stated for descriptors that do not fail; what a failure does as written is stated for MyRead.
- Descriptor passing, the open server, option printing, name lookup, pseudo-terminals and the process examples: plumbing around libraries that are not part of this model.
- Fairness: termination is proved for every schedule as a decreasing measure, and where a thread must wait, as the presence of another that can run.
