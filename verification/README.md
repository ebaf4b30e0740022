# Verified model of fabric_bench

This project models, in Dafny, the parts of the fabric_bench communication benchmarks where
correctness is not obvious, and proves properties of them for all inputs, all configurations and all
interleavings. `dafny verify dfyconfig.toml` checks everything.

**The ping-pong protocol** (`Sums`, `RoundRobin`, `PingPong`, `PingPongSafety`, `PingPongProgress`,
`PingPongTokens`, `PingPongSupply`, `PingPongRuns`, `PingPongWarmUp`, `PingPongLazy`,
`PingPongWorstCase`, `ResetRace`, `Dispatch`). A job is any number of pairs of processes. Each process runs `rx` progress threads and `rx * w` workers. A progress thread polls up to
16 completions and hands each to the next worker of its residue class. A reply need not go back to the
worker whose message caused it, so neither termination nor the final counter values are evident. The
model is a step relation: send, take, leave a loop, cross a barrier, reset, message arrival, poll, pick
a worker and advance the cursor, increment the counter, repost. Every schedule of these steps is a run.
The configuration (threads, message sizes, iteration counts, prefilled work) is arbitrary. The shared
arrays themselves, and the loops that update them in place, are in `Dispatch`.

**The two-level barrier** (`Barrier`, `PingPongBarrier`). Thread barrier, process barrier by thread 0,
thread barrier again, over any sequence of calls. `PingPong` uses barriers as gates. `PingPongBarrier`
replaces them by the implementation: every run with the real barrier is a run with the gates, and it
neither deadlocks nor goes on for ever.

**The PMI-2 command codec** (`Text`, `Pmi2Codec`, `Pmi2Frame`, `Fd`, `Pmi2Client`, `Pmi2Spawn`). The
text-level functions say what is written and what is understood. The methods of `Pmi2Client` run on
byte arrays, unescape in place and read and write through a descriptor that may split every transfer,
interrupt it or fail. Each method is proved against the text-level functions.

**The PMI line layer** (`LineReader`, `BoundedText`, `Keyvals`, `Spawn`, `SpawnBuilder`). Buffered
reader, bounded copy and append, in-place key/value parser with its table, and the spawn command text.

**Setting up** (`AddressExchange`, `UcxWiring`) and **the symmetric benchmark** (`Symmetric`).

Where the code and its comments or natural expectations differ, the model follows the code:

- With prefilled work, replies of one message size are still in counters or on the wire when the next
  size resets the counters. `ResetSafetyExact` says exactly when all resets are safe, and
  `WarmUpResetExact` exactly when the resets between warm-up and measurement are. The books keep
  balancing if what a reset leaves behind is carried over; the job still never deadlocks
  (`DeadlockFreedom`), and the receives that must be posted grow with the number of sizes
  (`RunReceiveSupply`). The bound is exact (`ReceiveSupplyExact`): beyond it some run has a message
  without a posted receive.
- The command name is written without escaping, and a key that starts with `;` joins the terminator in
  front of it. `BodyRoundTripExact` says exactly which commands survive.
- The writer checks its space when it writes a key, not when it copies a value.
  `EncoderBoundExact` says for how many pairs this cannot matter.
- The reader's counting pre-pass also counts a lone `;` inside a key. `PrepassAgrees` says by how much.
- `MPIU_Strnapp` cuts one byte more than it needs to when the text does not fit, and refuses even an
  empty text when the destination is full. The comment in the source says only that the result is
  terminated.
- `PMIU_writeline` reports success for a buffer that does not end in a newline and sends nothing. An
  over-long argument of a spawn command is dropped that way. `SpawnTextExact` covers it.
- `PMI2U_getval` cuts the value in its own table. `LookupTwice` says when a later lookup notices.

Modelling decisions:

- Messages have no content. Delivery between a worker and the progress thread of its group is reliable
  and keeps no order; only counts matter to the protocol.
- `Half` groups a progress thread with its workers. Cursor and picked worker are kept as the source's
  flat thread ids. `picks` and `bumps` are auxiliary counters.
- `reset_counters` of thread 0 is one step, with a `Race` per progress thread for what its single stores
  may leave of dispatches that go on meanwhile: increments that came after the store of their counter,
  and a displaced cursor. `ResetIsAtomic` shows that no interleaving of the single loads and stores has
  any other outcome. Where a reset is safe nothing can interleave with it.
- `Excess` is what a half of a pair carries over a reset: messages under way, messages sent late by
  workers of an earlier phase, dispatches that were half done or raced with the reset, and where the
  cursor started. It appears in the invariant only; no step reads it. `InScope` is the part of a run in which it is provably empty: the whole run without prefilled
  work or without measured iterations, otherwise the first message size.
- A length field that is zero, negative or no number is an error, as the read loop makes it for zero.
- Characters are bytes. A C string has no NUL; array-level text carries its NUL explicitly.
- The two copies of the line reader and of the table parser differ only in the check for a second
  descriptor (first protocol only) and in the copy function used; they are modelled once.

## Model

| member | source | states |
|---|---|---|
| `RoundRobin.ShareClosedForm` | benchmark/pingpong_prg.cpp:174-179 | counting dispatches one by one, position p of w has received exactly (m + w - 1 - p) / w of the first m |
| `RoundRobin.SharesSum` | benchmark/pingpong_prg.cpp:174-179 | the shares of all positions add up to the dispatches made: none lost or duplicated |
| `RoundRobin.ShareWholeRounds` | benchmark/pingpong_prg.cpp:174-179 | after w * k dispatches every position has k and the cursor is back where it started |
| `RoundRobin.ShareAfterRounds` | benchmark/pingpong_prg.cpp:174-179 | e dispatches more than w * k give every position k more than its share of e and leave the cursor where e would |
| `RoundRobin.ShareFromRounds` | benchmark/pingpong_prg.cpp:174-179 | the same from any starting position: whole rounds serve everybody alike |
| `RoundRobin.ShareFromClosedForm` | benchmark/pingpong_prg.cpp:174-179 | the share of m dispatches from any starting position, in closed form |
| `RoundRobin.SharesFromSum` | benchmark/pingpong_prg.cpp:174-179 | from any starting position the shares add up to the dispatches made |
| `RoundRobin.SharesForce` | benchmark/pingpong_prg.cpp:174-179 | if every position has at least k, at least w * k dispatches were made |
| `RoundRobin.IncrementIsNextPosition` | benchmark/pingpong_prg.cpp:141-146 | stepping by rx with the wrap to the thread's own id is exactly "next position modulo w" on flat worker ids |
| `RoundRobin.WorkerIdDecodes` | benchmark/pingpong_prg.cpp:281-293 | flat worker ids decode to group id % rx and position id / rx |
| `Dispatch.Process.constructor` | benchmark/pingpong_prg.cpp:148-163 | counters start at 0, cursors at the thread ids |
| `Dispatch.Process.DispatchBatch` | benchmark/pingpong_prg.cpp:171-183 | handing out a polled batch in place gives every worker of the group exactly its share of those dispatches, nobody else anything, and leaves the cursor at the next position |
| `Dispatch.Process.ResetCounters` | benchmark/pingpong_prg.cpp:186-203 | thread 0 sets every counter to the prefill, every cursor to its id and every progress counter to 0; any other thread changes nothing |
| `Dispatch.GainStep` | benchmark/pingpong_prg.cpp:174-179 | one more dispatch adds one to exactly the worker at the cursor's position |
| `PingPongSafety.InitInv` | benchmark/pingpong_prg.cpp:148-168 | start-up establishes the invariant |
| `PingPongSafety.StepPreservesInv` | benchmark/pingpong_prg.cpp:42-203 | every step of every thread preserves it, over all sizes and prefills: per worker, counter + picked + taken = prefill + round-robin share from where the cursor started + carried over; per progress thread, dispatched + in flight = sent by the peer's workers + carried over; stages respect the barriers; nothing is carried over in scope |
| `PingPongSafety.HalfKept` | benchmark/pingpong_prg.cpp:42-184 | what is carried over changes, within a phase, only by messages of workers that are still in the phase before |
| `PingPongSafety.LeadResetHalf` | benchmark/pingpong_prg.cpp:186-203 | a reset at any moment, whatever it races with, carries over exactly the messages under way, the dispatch half done and what is left of the dispatches it raced with |
| `ResetRace.FineStepMatches` | benchmark/pingpong_prg.cpp:174-202 | every single load and store of a dispatch or of the reset, before its last one, is a step of the model or invisible |
| `ResetRace.LastStoreIsReset` | benchmark/pingpong_prg.cpp:186-203 | the last store of the reset is the model's reset with a race that the model allows |
| `ResetRace.ResetIsAtomic` | benchmark/pingpong_prg.cpp:174-203 | over any interleaving of a reset with dispatches the outcome is that of model steps followed by one reset |
| `PingPongSafety.ResetIsSafe` | include/comm_exp.hpp:127-150 | whenever thread 0 stands at a reset_counters that follows a loop without prefill, in scope, its process has nothing in flight, all counters 0 and all cursors home |
| `PingPongProgress.RoundsForceCompletion` | benchmark/pingpong_prg.cpp:55-130 | the arithmetic core of deadlock freedom: if each side has sent the full rounds it has seen, and senders one more, both have completed all rounds |
| `PingPongProgress.EverybodyGets` | benchmark/pingpong_prg.cpp:174-179 | full rounds sent to an idle progress thread reach every worker, even with messages held back if prefilled and carried-over work covers them |
| `PingPongProgress.NoStandoff` | benchmark/pingpong_prg.cpp:55-130 | senders and receivers of a group are stuck together only after all rounds of both, with anything carried over and covered messages held back on both sides |
| `PingPongProgress.BusyCanStep` | benchmark/pingpong_prg.cpp:171-183 | a progress thread with a message, a completion or an unfinished batch can move, in every reachable state |
| `PingPongProgress.PairCanStep` | benchmark/pingpong_prg.cpp:42-184 | a pair with an unfinished worker at the lowest stage has an enabled step, in every reachable state, that delivers no message held back |
| `PingPongProgress.StepDecreases` | benchmark/pingpong_prg.cpp:42-203 | every step decreases a measure of the work left |
| `PingPongTokens.HalfTokens` | benchmark/pingpong_prg.cpp:55-184 | messages under way and counter units of one progress thread, plus what its workers took, equal what was sent to it plus the prefill plus what was carried over |
| `PingPongTokens.GroupTokens` | benchmark/pingpong_prg.cpp:55-130 | per group, wire + undispatched + counters + held by receivers = 2wP + waiting senders + what both sides carried over |
| `PingPongTokens.TokenConservation` | benchmark/pingpong_prg.cpp:55-130 | the same with nothing carried over, in scope |
| `PingPongTokens.CompletionWith` | include/comm_exp.hpp:135-144 | once a loop is over and everything is delivered, each worker got exactly its iterations' worth and its round-robin share of what was carried over, its counter shows the prefill and that share, and the cursor is displaced from its start by what was carried over |
| `PingPongTokens.ExactCompletion` | include/comm_exp.hpp:135-144 | in scope: exactly its iterations' worth, counter exactly the prefill, cursor home |
| `PingPongSupply.StepKeepsLimited` | benchmark/pingpong_prg.cpp:42-203 | what is carried over, plus what may still arrive late, never exceeds the prefilled work of the earlier phases |
| `PingPongSupply.TokenLimit` | benchmark/pingpong_prg.cpp:55-130 | never more tokens towards one progress thread than twice the prefilled work of all phases so far plus one per sender |
| `PingPongSupply.ReceiveSupply` | benchmark/pingpong_prg.cpp:166-182 | with w(2P * sizes + 1) + 16 at most 2048, a message on the wire always finds a posted receive |
| `PingPongRuns.RunInv` | include/comm_exp.hpp:119-177 | the invariant holds in every state of every run of every job |
| `PingPongRuns.DeadlockFreedom` | benchmark/pingpong_prg.cpp:42-184 | in every run, for every prefill and number of sizes, some step is enabled until every worker of every process is done |
| `PingPongRuns.RunsAreFinite` | benchmark/pingpong_prg.cpp:42-203 | no run is longer than the measure of the initial state, for any configuration and schedule |
| `PingPongRuns.MaximalRunsFinish` | include/comm_exp.hpp:119-177 | a run of any configuration that cannot go on has finished everywhere |
| `PingPongRuns.ResetSafety` | include/comm_exp.hpp:132-139 | in every state of every run: resets are safe over all sizes without prefill, both resets of the first size with any prefill, and all resets after warm-ups if the measured loops are empty |
| `PingPongRuns.DirtyResetExists` | include/comm_exp.hpp:132-150 | for every configuration with prefill and two or more sizes there is a run whose next-size reset is not safe |
| `PingPongRuns.ResetSafetyExact` | benchmark/pingpong_prg.cpp:186-203 | all resets of all runs are safe if and only if there is no prefill or at most one size |
| `PingPongWarmUp.StepKeepsWithheld` | benchmark/pingpong_prg.cpp:42-203 | a schedule that holds back the last message to one progress thread keeps it on the wire, and carried over, until the second warm-up is over |
| `PingPongWarmUp.DirtyWarmUpResetExists` | include/comm_exp.hpp:135-140 | for every configuration with prefill, a measured iteration and two or more sizes there is a run whose reset after the second warm-up is not safe |
| `PingPongWarmUp.WarmUpResetExact` | include/comm_exp.hpp:135-140 | all resets after warm-ups of all runs are safe if and only if there is no prefill, at most one size, or no measured iteration |
| `PingPongRuns.RunExactCompletion` | include/comm_exp.hpp:135-144 | completion in every state of every run, with the closed form of the share; what was carried over is within the limit, and nothing in scope |
| `PingPongRuns.RunReceivesConstant` | benchmark/pingpong_prg.cpp:166-182 | in every state of every run posted + unpolled + not yet reposted receives are 2048 |
| `PingPongRuns.RunLimited` | include/comm_exp.hpp:119-177 | what is carried over is within the limit in every state of every run |
| `PingPongRuns.RunReceiveSupply` | benchmark/pingpong_prg.cpp:166-182 | in every state of every run, with w(2P * sizes + 1) + 16 at most 2048, a message on the wire finds a posted receive |
| `PingPongLazy.StepKeepsLazy` | benchmark/pingpong_prg.cpp:42-203 | a schedule that delivers only what the loops need keeps everything else on the wires: what is carried over and still owed is all of the limit, and every reset finds nothing but the wire |
| `PingPongWorstCase.RushStarves` | benchmark/pingpong_prg.cpp:55-184 | workers that go on as long as they can, while the receiving progress thread hands out one batch and reposts nothing, end with a message on the wire and no receive posted, if the bound is exceeded |
| `PingPongWorstCase.StarvedRunExists` | benchmark/pingpong_prg.cpp:166-182 | for every configuration beyond the bound, with more than 2048 measured iterations, there is such a run |
| `PingPongWorstCase.ReceiveSupplyExact` | benchmark/pingpong_prg.cpp:166-182 | in all states of all runs every message on the wire finds a posted receive if and only if w(2P * sizes + 1) + 16 is at most 2048 or there are no sizes, with more than 2048 measured iterations |
| `PingPongRuns.RunHalfTokens` | benchmark/pingpong_prg.cpp:55-184 | in every state of every run, per progress thread: tokens + taken = prefill + sent to it + carried over, and what is carried over and may still arrive late is within the limit, nothing in scope |
| `PingPongRuns.RunTokenConservation` | benchmark/pingpong_prg.cpp:55-184 | token conservation in every state of every run in which both processes are in the same phase, with what was carried over: at most twice the limit, nothing in scope |
| `Barrier.StepInv` | include/thread_utils.hpp:22-36 | every step of every thread keeps the relation between arrivals and departures at both levels |
| `Barrier.ProcBarrierHolds` | include/thread_utils.hpp:29-36 | no thread has returned from its n-th call, a proc_barrier, before every thread of every process entered its n-th |
| `Barrier.TeamBarrierHolds` | include/thread_utils.hpp:22-27 | the same for the threads of one process, for both kinds of call |
| `Barrier.BarriersSeparate` | include/thread_utils.hpp:22-36 | both, in every state of every run, for any processes, thread counts and reuse |
| `Barrier.BarrierProgress` | include/thread_utils.hpp:29-36 | until all calls are done the thread that is least far can move |
| `Barrier.ReturnFindsAll` | include/thread_utils.hpp:22-36 | the move that returns from a call finds every other thread waited for inside or past that call |
| `PingPongBarrier.BarrierPoints` | include/comm_exp.hpp:132-177 | the barrier points of the program are exactly the calls of a worker, each of the right kind |
| `PingPongBarrier.ReturnIsCross` | include/comm_exp.hpp:133-144 | a worker that returns from the real barrier does so when the gate is open, and its step is the crossing of the gate |
| `PingPongBarrier.StepRefines` | include/comm_exp.hpp:119-177 | every step of the protocol with the real barrier is a step of the protocol with gates, or changes nothing that one sees |
| `PingPongBarrier.SystemRefines` | include/comm_exp.hpp:119-177 | every state of every run with the real barrier is reached by a run with gates, so all properties of the latter hold of it |
| `PingPongBarrier.SystemDeadlockFreedom` | include/comm_exp.hpp:119-177 | with the real barrier some step is enabled until every worker of every process is done |
| `PingPongBarrier.SystemRunsAreFinite` | include/comm_exp.hpp:119-177 | no run with the real barrier is longer than the measure of the initial state |
| `Text.AtoiOfDecimal` | modules/pmi/pmi2/client/pmi2_api.c:1410 | a printed number reads back, whatever non-digit follows |
| `Text.DecimalWidth` | modules/pmi/pmi2/client/pmi2_api.c:1638-1642 | a number below ten to the k prints in at most k digits |
| `Pmi2Codec.ScanEscaped` | modules/pmi/pmi2/client/pmi2_api.c:1615-1631 | any value, escaped and terminated, scans back to itself if no ';' follows |
| `Pmi2Codec.ParseEncodedPairs` | modules/pmi/pmi2/client/pmi2_api.c:1607-1632 | any list of good pairs, wherever it stands, parses back to itself |
| `Pmi2Codec.BodyRoundTrip` | modules/pmi/pmi2/client/pmi2_api.c:1591-1632 | command and ordered pairs come back for all values, including runs of ';', '=' and empty |
| `Pmi2Codec.ReadIsGood` | modules/pmi/pmi2/client/pmi2_api.c:1264-1314 | whatever the reader accepts has keys without '=', NUL or leading ';', all within the limits |
| `Pmi2Codec.BodyRoundTripExact` | modules/pmi/pmi2/client/pmi2_api.c:1591-1632 | for all names and pairs: the round trip works if and only if the name has no ';', the keys are good and the limits are kept |
| `Pmi2Codec.EncoderFits` | modules/pmi/pmi2/client/pmi2_api.c:1560-1644 | up to 30 pairs within the limits always fit, every value byte escaped or not |
| `Pmi2Codec.AppendWritten` | modules/pmi/pmi2/client/pmi2_api.c:1607-1632 | whatever is written is the encoding, within the limits and the buffer |
| `Pmi2Frame.EncoderBoundExact` | modules/pmi/pmi2/include/pmi2.h:14-20 | n pairs within the limits always fit if and only if n is at most 30 |
| `Pmi2Frame.HeaderReads` | modules/pmi/pmi2/client/pmi2_api.c:1638-1642 | the space-padded length has six bytes, needs at most five digits and reads back |
| `Pmi2Frame.StreamRoundTrip` | modules/pmi/pmi2/client/pmi2_api.c:1397-1483 | a written command is read back from the front of any stream and the rest is left alone |
| `Pmi2Frame.ConversationRoundTrip` | modules/pmi/pmi2/client/pmi2_api.c:1397-1483 | any sequence of commands written back to back is read back in order |
| `Pmi2Frame.CountParsed` | modules/pmi/pmi2/client/pmi2_api.c:1433-1451 | the pre-pass counts every pair the parser takes, plus the lone ';' of its key |
| `Pmi2Frame.PrepassAgrees` | modules/pmi/pmi2/client/pmi2_api.c:1433-1483 | on every buffer that parses, slots = pairs stored + lone ';' in keys; equal if and only if there are none |
| `FileDescriptor.Fd.Read` | modules/pmi/pmi2/client/pmi2_api.c:1400-1404 | read(2): an arbitrary positive number of the next bytes, or interrupted, or failed, or end of input |
| `FileDescriptor.Fd.Write` | modules/pmi/pmi2/client/pmi2_api.c:1667-1671 | write(2): an arbitrary positive number of bytes taken, or interrupted, or failed |
| `Pmi2Client.ReadFully` | modules/pmi/pmi2/client/pmi2_api.c:1417-1429 | for every split into short reads, exactly the next len bytes and no others |
| `Pmi2Client.WriteFully` | modules/pmi/pmi2/client/pmi2_api.c:1665-1674 | for every split into short writes, the whole buffer in order |
| `Pmi2Client.PutEscaped` | modules/pmi/pmi2/client/pmi2_api.c:1617-1626 | the copy loop writes the escaped value; remaining length plus bytes written is constant |
| `Pmi2Client.PutPair` | modules/pmi/pmi2/client/pmi2_api.c:1608-1631 | one turn of the pair loop writes the pair's encoding and nothing before it |
| `Pmi2Client.FillCommand` | modules/pmi/pmi2/client/pmi2_api.c:1560-1644 | the buffer holds length field and encoding, or the error is the one of the text-level writer, case by case |
| `Pmi2Client.WriteCommand` | modules/pmi/pmi2/client/pmi2_api.c:1560-1691 | the frame goes out whole, however the writes are split |
| `Pmi2Client.Prepass` | modules/pmi/pmi2/client/pmi2_api.c:1433-1451 | the counting loop computes the pair count of the text |
| `Pmi2Client.UnescapeInPlace` | modules/pmi/pmi2/client/pmi2_api.c:1286-1300 | the in-place loop leaves the unescaped value in place; the write position never passes the read position; what follows is untouched |
| `Pmi2Client.ParseKeyvalInPlace` | modules/pmi/pmi2/client/pmi2_api.c:1264-1314 | success exactly when the text parses; key, value and next position are the parsed ones; remaining length is the distance to the buffer's end |
| `Pmi2Client.StorePairs` | modules/pmi/pmi2/client/pmi2_api.c:1470-1483 | every store is within the counted slots, and the stored pairs are the parsed ones |
| `Pmi2Client.ParseCommand` | modules/pmi/pmi2/client/pmi2_api.c:1433-1483 | the whole in-place pass computes the text-level command; the reported count is the pre-pass count less one |
| `Pmi2Client.ReadCommand` | modules/pmi/pmi2/client/pmi2_api.c:1394-1483 | for every arrival of the bytes, one frame is consumed and understood as on the plain stream |
| `Pmi2Spawn.CountSpawnPairs` | modules/pmi/pmi2/client/pmi2_api.c:446-455 | the count made in advance is the number of pairs produced |
| `Pmi2Spawn.BuildSpawnPairs` | modules/pmi/pmi2/client/pmi2_api.c:446-495 | the array is filled exactly, in order, no slot left or exceeded |
| `Pmi2Spawn.SpawnRoundTrip` | modules/pmi/pmi2/client/pmi2_api.c:465-497 | any spawn command that can be written is read back as the same pairs, whatever the caller's strings |
| `LineReader.LineExact` | modules/pmi/pmi1/simple/simple_pmiutil.c:102-162 | "up to and including the first newline, or all the room, or all there is" determines one length, which the scan computes |
| `LineReader.LinesLoseNothing` | modules/pmi/pmi1/simple/simple_pmiutil.c:102-162 | over any number of calls, returned lines and remainder make up the input |
| `LineReader.LinesRoundTrip` | modules/pmi/pmi1/simple/simple_pmiutil.c:102-162 | whole lines sent back to back come out one per call |
| `LineReader.Reader.Refill` | modules/pmi/pmi1/simple/simple_pmiutil.c:125-148 | filling the buffer keeps the pending bytes |
| `LineReader.Reader.ReadLine` | modules/pmi/pmi1/simple/simple_pmiutil.c:102-162 | for every chunking: the next line of the pending bytes, NUL behind it, the rest still pending; -1 exactly for another descriptor with bytes buffered or a failed read without data |
| `LineReader.LineThenFrame` | modules/pmi/pmi2/client/pmi2_api.c:220-291 | after a reply of exactly one line the buffer is empty, and the following framed reply is read completely from the descriptor |
| `BoundedText.Strncpy` | modules/pmi/pmi1/simple/simple_pmiutil.c:328-354 | the text cut to n - 1 bytes with its NUL, an error exactly if something was cut, nothing beyond n changed |
| `BoundedText.Strnapp` | modules/pmi/pmi1/simple/simple_pmiutil.c:376-406 | the exact result and return code in all three cases: fits, destination full, cut |
| `Keyvals.LookupTwice` | modules/pmi/pmi2/client/pmi2_api.c:230-240 | two lookups of one key: the second returns the value cut to the smaller of both sizes, and what it would have returned alone if and only if the first cut nothing or had no less room |
| `Keyvals.PairsOfIs` | modules/pmi/pmi1/simple/simple_pmiutil.c:196-250 | a line is rejected if and only if some word has no '=' or starts with it; the table then has the pairs before that word |
| `Keyvals.WordStep` | modules/pmi/pmi1/simple/simple_pmiutil.c:206-234 | the parser's walk finds a pair exactly where the word has one, with the same key and value |
| `Keyvals.KeyvalTable.StorePair` | modules/pmi/pmi1/simple/simple_pmiutil.c:222-242 | one entry more: the key cut to 31 bytes, the value exactly; the rest of the line untouched |
| `Keyvals.KeyvalTable.ParseKeyvals` | modules/pmi/pmi1/simple/simple_pmiutil.c:196-250 | in place, the table is exactly the pairs of the line and the return code says whether all words were pairs |
| `Keyvals.KeyvalTable.GetVal` | modules/pmi/pmi1/simple/simple_pmiutil.c:259-275 | the first entry with the key arrives in the caller's buffer, cut to its size, success exactly if it fits; empty text if there is none; a zero-sized buffer untouched |
| `Keyvals.KeyvalTable.GetValAndCut` | modules/pmi/pmi2/client/pmi2_util.c:193-205 | the same first match, and the table's value becomes what was copied |
| `Keyvals.KeyvalTable.ChgVal` | modules/pmi/pmi1/simple/simple_pmiutil.c:277-287 | every entry with the key gets the new value cut to 1022 bytes, all others stay |
| `Keyvals.LineRoundTrip` | modules/pmi/pmi1/simple/simple_pmiutil.c:196-250 | a printed list of pairs parses back to itself, '=' inside values included |
| `Keyvals.TableIsClean` | modules/pmi/pmi1/simple/simple_pmiutil.c:196-250 | whatever the line, table keys are non-empty, below 32 bytes and without '=', and nothing has blanks |
| `Keyvals.LineRoundTripExact` | modules/pmi/pmi1/simple/simple_pmiutil.c:196-250 | for all lists of C strings: the round trip works if and only if every pair is printable |
| `Keyvals.ParseAndGet` | modules/pmi/pmi1/simple/simple_pmi.c:673-675 | a printed line, parsed in place and looked up, yields in the caller's buffer the value of the first pair with the key |
| `Spawn.PutAppends` | modules/pmi/pmi1/simple/simple_pmiutil.c:376-406 | a bounded append is exact if and only if everything before was and the line fits |
| `Spawn.FlushExact` | modules/pmi/pmi1/simple/simple_pmiutil.c:164-190 | a flush loses nothing exactly if nothing was lost before |
| `Spawn.JobExact` | modules/pmi/pmi1/simple/simple_pmi.c:544-671 | the text of one executable is exact if and only if front with first argument, each further argument and tail fit |
| `Spawn.SpawnTextExact` | modules/pmi/pmi1/simple/simple_pmi.c:544-671 | the call succeeds with the plain concatenation of all lines if and only if every stretch between two flushes fits |
| `SpawnBuilder.Writeline` | modules/pmi/pmi1/simple/simple_pmiutil.c:164-190 | nothing sent and no error without a final newline; otherwise a non-empty front of the text is sent, all of it if writes are whole, and -1 exactly for a failed write |
| `SpawnBuilder.AppendArgs` | modules/pmi/pmi1/simple/simple_pmi.c:568-595 | the argument loop on the real buffers computes the specified state and output |
| `SpawnBuilder.SendSpawns` | modules/pmi/pmi1/simple/simple_pmi.c:544-671 | the nested loops on the real buffers compute the specified outcome and send exactly its output |
| `AddressExchange.PairedExact` | benchmark/pingpong_prg.cpp:251 | everybody is its peer's peer and nobody its own if and only if the job size is even |
| `AddressExchange.KeysDistinct` | include/bench_ofi.hpp:195 | distinct (rank, id) never share a key |
| `AddressExchange.UcxKeysDistinct` | include/bench_ucx.hpp:133-142 | the three- and four-field keys of both kinds of context never collide |
| `AddressExchange.WordsRoundTrip` | include/bench_ofi.hpp:194-218 | fixed-width hexadecimal words joined by '-' scan back to themselves |
| `AddressExchange.IntsRoundTrip` | include/bench_ib.hpp:184-200 | two integers joined by '-' scan back, negative ones included |
| `AddressExchange.ExchangeCorrect` | include/bench_ofi.hpp:181-222 | after all publications in any order every process decodes its peer's words for every context |
| `AddressExchange.IbExchangeCorrect` | include/bench_ib.hpp:178-205 | the same for queue pair number and local id |
| `AddressExchange.UcxExchangeCorrect` | include/bench_ucx.hpp:126-176 | after all puts in any order each device and endpoint key decodes to the bytes put under it |
| `AddressExchange.GetEndpoints` | include/bench_ucx.hpp:165-174 | the reading loop returns the j-th published endpoint address at position j |
| `UcxWiring.ConnectWorkers` | benchmark/pingpong_prg_ucx.cpp:306-311 | every worker is connected to the one remote endpoint that serves it |
| `UcxWiring.ConnectContexts` | benchmark/pingpong_prg_ucx.cpp:312-319 | the strided loops connect each endpoint of each context once, to the worker it serves |
| `UcxWiring.RegisterHandlers` | benchmark/pingpong_prg_ucx.cpp:321-331 | each context has exactly one handler, under its own id, dispatching for itself |
| `UcxWiring.Wire` | benchmark/pingpong_prg_ucx.cpp:306-331 | over the arrays the loops produce: the two connections are inverse to each other, each endpoint is connected once, and worker i's message id is handled, at the context it is connected to, for the group of worker i |
| `Symmetric.StepKeepsLockstep` | benchmark/pingpong_sym.cpp:52-78 | every step keeps the lockstep of both loops, the wire and the queues |
| `Symmetric.NothingSwallowed` | benchmark/pingpong_sym.cpp:24-78 | in every reachable state at most one message per direction, every poll takes one, receives stay between 4093 and 4094, a posted one is always there |
| `Symmetric.NeverStuck` | benchmark/pingpong_sym.cpp:52-78 | until both sides are done a step is enabled |
| `Symmetric.RunsFinish` | benchmark/pingpong_sym.cpp:52-78 | every run stops within 40 steps per iteration, and one that cannot go on has finished with nothing left over |

## Left out

- Pmi2Client.FillCommand: requires that the escaped text fits, because the source's copy loop has no check; `EncoderBoundExact` says when that is sure.
- Pmi2Client.WriteCommand: same requirement.
- Keyvals.KeyvalTable.StorePair: requires a free slot and a line below 1024 bytes, because the source writes there unchecked.
- Keyvals.KeyvalTable.ParseKeyvals: requires lines below 1024 bytes with at most 64 pairs; the source checks neither.
- Keyvals.KeyvalTable.GetValAndCut: requires a buffer size between 1 and 1024, because the source writes at that index.
- PingPongRuns.RunTokenConservation: stated while both processes are in the same phase; between the two resets the two sides count from different prefills, and `RunHalfTokens` gives the balance of each side.
- ResetRace.ResetIsAtomic: single loads and stores take effect at once and in program order; the cursors are plain variables in the source, for which the language promises neither.
- PingPongWorstCase.ReceiveSupplyExact: requires more than 2048 measured iterations (450000 are configured, include/config.hpp.in:18); with fewer the bound is sufficient and need not be necessary.
- AddressExchange.WordsRoundTrip: blanks, signs and "0x" that the scan would also accept are not modelled; no published text has them. Stores narrower or wider than the scan format are not modelled.
- The split steps of the UCX receive callback, where the counter is incremented before the cursor moves.
- The receive buffers: all posted receives share one address and no content is promised.
- Timing, statistics, reporting, core binding and migration checks.
- Verbs, libfabric and UCT calls, queue-pair states, device lookup.
- Socket set-up, fork and exec, environment parsing and singleton start-up of the PMI clients.
- Thread-id routing of PMI-2 replies and the debug queue of pending commands; the model is the unthreaded build.
- getval, getvalint and getvalbool of the PMI-2 client, and the reply half of the spawn calls: straight-line lookups.
