# celer-mem in Dafny

A model of the algorithmic cores of celer-mem, with proofs of what they keep, return and conserve.
`dafny verify dfyconfig.toml` checks all of it.

## How it is laid out

**Work stealing and the lease scheduler.** `ChaseLevProtocol` is the work-stealing deque as a step system: one
owner, any number of thieves, one atomic load, store or compare-and-swap per step, in sequentially consistent
memory. `ChaseLevSafety` proves that every step refines one move of an abstract deque and what every run returns.
`ChaseLevProgress` proves that every push, pop and steal comes to its end. `ChaseLevPhantom` is about the store after a
lost last-element race (include/celer/core/scheduler.hpp:157-161). `RingDeque` is the same ring as a class, as one
thread sees it. `LeaseScheduler` puts worker loops, the parking lot, wakers, submitters and consumers on top, with each
queue operation and each access to a control block a step. `LeaseHistory`, `LeaseOrder` and `LeaseAccounts` tell from a
run's steps alone where each lease is, in which order leases are taken, and what each control block shows.

**Joins.** `JoinSpec` is the reference join; `BatchGet` the chunked lookup that moves values out of its result map;
`JoinExecutors` the pull machines; `JoinStrategies` the planner, the build of the right side and the collected
answer. The three pull bodies are the same text in the source, so one class carries them; the way a refill probes
the right side is a tag.

**Streams.** `PullStreams` has the combinators over dynamic frames; a stream stands for the elements it has still to
deliver. `ArcBuf` is the reference-counted buffer behind a chunk, `ArcThreads` its count under interleaved threads,
`ParEval` the round-robin merge of asynchronous sources.

**Index, messaging and runs.** `SymbolTable` is the open-addressing table and the registry that rebuilds it lazily,
`Actors` the actor system, `WatermarkCodec` and `Delta` the materialization with its persisted cursor, `TaskPool` the
pool's shutdown, `PrefixScan` the range scan, `Dispatch` the grouped batch over the tree of stores.

**Numeric algorithms,** over reals: `TwoOpt` and `AntColony` (route solver), `Swarm` and `SwarmLaws` (headings
and the order parameter), `Fluid` and `FluidLaws` (the density update).

`Optional`, `Sequences`, `Arithmetic` and `ByteOrder` are shared. Calls into foreign code are parameters: a hash
function, a key extractor, an encoder, what an actor sends, random draws, velocities, a sine, a square root given only
by its square, a predicate saying which backend calls fail.

## Where the code does less than it promises

* `pop` stores `t + 1` after its failed compare-and-swap has overwritten `t` (scheduler.hpp:157-161). `bottom` ends
  up one too far and a stale slot looks live: `AsWrittenCanReturnALeaseTwice` is a run that returns a lease twice,
  `ExactlyOnceIffNoLostRace` says exactly when the guarantee holds. A thief can also be about to win a slot nothing
  was ever pushed to (`AsWrittenThiefCanWinNoLease`); it holds a pushed lease exactly if something was
  (`StaleSlotStolen`, `WinningThiefHasThePushedLease`), which fails only after such a race (`AlwaysAllPushedIff`).
* After such a race the scheduler has a lease in two places. `EveryLeaseInOnePlace` is about a deque that leaves no
  stale slot; `OnePlaceIffNoLostRace` says that with the deque as written one place lasts exactly until then.
* Demand credits are a 32-bit counter. No chunk is ever handed over without a credit, but 2^32 outstanding credits
  read as none and the lease is parked (`CounterExactIff`, `WrappedGrantIsLost`).
* `get_many` moves a value out on its first answer, so a repeated stored key is answered wrongly
  (`GetManyRightIff`). The batched join asks for distinct keys only.
* A decoding scan reports an empty page as its end and can answer again afterwards
  (include/celer/materialization/store_ref.hpp:88-123); `ScanCompleteIff` says when rows are missed.
* `hash_build_cap` of N refuses at N keys, one earlier than its error text says (`BuildIndex`). The planner's
  hash branch needs a local left side, which `join` never passes, so only a forced strategy reaches it.
* A chunk keeps the size modulo 2^32 of the vector it is made from (`Chunk.From`), and a buffer with more than 2^32
  handles is torn down early (`LastReleaseIff`, `TooManySharesFreeEarly`).
* Every message from outside carries sequence number 0, so a second one is dropped as a duplicate until the channel is
  drained (`InjectTwice`), and a message that a full channel refuses counts as seen (`Deliver`).
* The watermark is stored in the target table, not in `watermark_table`; a record that does not decode is ignored
  (`BadCursorStartsOver`); a run that writes only the empty key leaves no cursor (`CursorMovesIff`).
* `shutdown` returns at once to every caller but the one that set the flag (`OnlyOneSetter`,
  `LaterCallPromisesNothing`), and a task submitted after the workers have left never runs
  (`NothingRunsAfterwards`). No code pushes to a worker's own queue.
* The early exit of the scan after a prefix of 0xFF bytes is never taken (`OpenQueryAllMatch`), nor, in real
  arithmetic, the last resort of the weighted choice (`SomeCityReaches`) or the clamp of fluid cells (`StepWithin`).
* A failed batch over a composite has applied an arbitrary subset of its groups; each leaf has had all of its
  operations or none, or is as its own failed batch left it (`NodeBatch`).

## Model

| member | source | states |
|---|---|---|
| `ChaseLevSafety.StepKeepsInv` | include/celer/core/scheduler.hpp:117-183 | every atomic step of the owner and of any thief keeps the deque invariant, in both variants of the store after a lost race |
| `ChaseLevSafety.StepRefinesDeque` | include/celer/core/scheduler.hpp:117-183 | every step is one move of an abstract deque: silent, a push at the back, a claim at the back, a hand-over, a steal at the front, or the phantom that only the store as written makes |
| `ChaseLevSafety.WriteKeeps` | include/celer/core/scheduler.hpp:117-132 | overwriting a ring slot never touches a lease that pop or steal can still win |
| `ChaseLevSafety.LoadBufferKeeps` | include/celer/core/scheduler.hpp:82-90 | the ring built for growth holds every live lease at its index |
| `ChaseLevSafety.ThiefStepKeeps` | include/celer/core/scheduler.hpp:169-183 | what a thief read stays right about the slot at top for as long as its compare-and-swap can still win |
| `ChaseLevSafety.ExactlyOnceIffNoLostRace` | include/celer/core/scheduler.hpp:136-165 | over every run, each pushed lease is either returned once or still held, and nothing else is returned, exactly if no pop lost the last-element race as written; with the intended store always |
| `ChaseLevSafety.NoLossOnEveryRun` | include/celer/core/scheduler.hpp:117-183 | in both variants and every run, a pushed lease has been returned or is still in the deque or the owner's hand |
| `ChaseLevSafety.EmptyPopIsHonest` | include/celer/core/scheduler.hpp:143-148 | a pop that reports nothing does so only when the abstract deque is empty |
| `ChaseLevSafety.StepRemembers` | include/celer/core/scheduler.hpp:78-132 | in both variants, an index that top has not passed holds the ticket last pushed there, through any number of wraps and grown rings |
| `ChaseLevSafety.StepKeepsAllPushedIff` | include/celer/core/scheduler.hpp:157-162 | only the store as written after a lost race can make an index look live that nothing was pushed at, and does so exactly if nothing was |
| `ChaseLevSafety.AlwaysAllPushedIff` | include/celer/core/scheduler.hpp:117-183 | throughout a run of either variant every index still to be won has been pushed at, exactly if every lost race of it landed on such an index |
| `ChaseLevSafety.WinningThiefHasThePushedLease` | include/celer/core/scheduler.hpp:169-183 | on every run of the code as written and of the intended store, a thief whose compare-and-swap can win holds the lease last pushed at that index if anything ever was; something was if the lost races landed on indices pushed at, so without any, and always with the intended store |
| `ChaseLevPhantom.LostRaceYieldsStaleSlot` | include/celer/core/scheduler.hpp:156-162 | as written, after any lost race the next lone pop returns whatever the slot at top still holds |
| `ChaseLevPhantom.IntendedStoreYieldsNothing` | include/celer/core/scheduler.hpp:156-162 | with the intended store the same pop returns nothing |
| `ChaseLevPhantom.RaceIsLost` | include/celer/core/scheduler.hpp:150-162 | the last lease of any deque can be lost to any thief at rest |
| `ChaseLevPhantom.AsWrittenCanReturnALeaseTwice` | include/celer/core/scheduler.hpp:156-162 | with any number of thieves, a run of the code as written returns one lease twice |
| `ChaseLevPhantom.StaleSlotStolen` | include/celer/core/scheduler.hpp:156-183 | as written, after any lost race the next lone thief is about to win what the slot at top holds, which is a lease pushed there exactly if anything ever was |
| `ChaseLevPhantom.AsWrittenThiefCanWinNoLease` | include/celer/core/scheduler.hpp:156-183 | with any number of thieves, a run of the code as written leaves a thief about to win a slot nothing was ever pushed to |
| `ChaseLevProgress.StealEnds` | include/celer/core/scheduler.hpp:169-183 | in every run, whoever moves in between, a steal under way is over after at most four more of the thief's own steps; the thief is then free again, has taken at most one lease, and none if top had passed its index |
| `ChaseLevProgress.FiveStepsEndASteal` | include/celer/core/scheduler.hpp:169-183 | five of its own steps bring any thief to rest again |
| `ChaseLevProgress.StealReturns` | include/celer/core/scheduler.hpp:178-182 | a thief's step returns the slot it read exactly by winning its compare-and-swap, and it is then at rest; its index never changes within a steal |
| `ChaseLevProgress.GivesUpHonestly` | include/celer/core/scheduler.hpp:174-181 | a steal that returns nothing found no lease between top and bottom or was overtaken |
| `ChaseLevProgress.OwnerEnds` | include/celer/core/scheduler.hpp:117-165 | in every run a push or a pop is over after at most five of the owner's steps |
| `RingDeque.RingDeque.Grow` | include/celer/core/scheduler.hpp:82-90 | the doubled ring holds the same leases from top to bottom |
| `RingDeque.RingDeque.Push` | include/celer/core/scheduler.hpp:117-132 | without interleaving a push appends at the owner's end and loses nothing, growing when full |
| `RingDeque.RingDeque.Pop` | include/celer/core/scheduler.hpp:136-165 | last in, first out; nothing exactly when the deque is empty |
| `RingDeque.RingDeque.Steal` | include/celer/core/scheduler.hpp:169-183 | first in, first out; nothing exactly when the deque is empty |
| `RingDeque.HoldsOneMore` | include/celer/core/scheduler.hpp:78-80 | the masked slot one past the newest lease is no live lease's slot while the ring has room |
| `LeaseScheduler.StepConserves` | include/celer/core/scheduler.hpp:310-333 | no step of a worker, waker or client drops a lease; only a submission adds one, and a stale slot a second copy |
| `LeaseScheduler.StepKeepsInv` | include/celer/core/scheduler.hpp:382-465 | every step, in whatever order wakers overtake each other and however many credits are granted, keeps one place per lease and the credit ledger of every stream |
| `LeaseScheduler.EveryLeaseInOnePlace` | include/celer/core/scheduler.hpp:382-465 | with a deque that leaves no stale slot, at every point of every run a submitted lease is in exactly one of the deques, the global queue, the parking lot, a waker's or worker's hands, and the retired pile |
| `LeaseScheduler.OnePlaceIffNoLostRace` | include/celer/core/scheduler.hpp:156-162 | with the deque as it is written, every lease is in one place exactly until a pop loses the race for its last lease |
| `LeaseScheduler.BackpressureHolds` | include/celer/core/poll_result.hpp:116-136 | however much is granted, no credit is taken and no chunk handed over that was not granted, the counter is what is outstanding modulo 2^32, and at most 16 chunks are buffered |
| `LeaseScheduler.CreditNeverUnderflows` | include/celer/core/scheduler.hpp:404-436 | a worker about to take a credit always has one; the counter it lowers is zero only if 2^32 or more are outstanding |
| `LeaseScheduler.CounterExactIff` | include/celer/core/poll_result.hpp:123-131 | the counter is the number of outstanding credits exactly when that fits 32 bits |
| `LeaseScheduler.WrappedGrantIsLost` | include/celer/core/poll_result.hpp:114-126 | a run in which 2^32 granted credits read as none, so the worker parks the lease |
| `LeaseHistory.WhereIsIt` | include/celer/core/scheduler.hpp:382-465 | at every point of every run a lease is retired exactly if it was last found cancelled at its first check or answered done or error; parked, or about to be, exactly if it answered pending or was found without demand, with a full buffer or cancelled late; and queued or under way exactly if it was submitted, woken, or answered with a chunk or a yield |
| `LeaseHistory.Follow` | include/celer/core/scheduler.hpp:382-465 | one step of anybody takes a lease from where its last event put it to where its next one puts it |
| `LeaseHistory.OnlyThere` | include/celer/core/scheduler.hpp:228-333 | a lease in one deque, queue, lot, hand or pile is in no other |
| `LeaseOrder.QueuesOrdered` | include/celer/core/scheduler.hpp:308-333 | in every run each deque and the global queue hold their leases in the order in which they were queued |
| `LeaseOrder.TakesInOrder` | include/celer/core/scheduler.hpp:391-408 | a worker takes the newest lease of its own deque, the oldest of a peer's or the newest of the global queue, going by the step that queued each; and no queue holds it any longer |
| `LeaseOrder.LooksOn` | include/celer/core/scheduler.hpp:391-408 | a worker that finds nothing looked into an empty deque, a peer's that was empty or lost to another, or an empty global queue, took nothing, and looks into the next one |
| `LeaseOrder.TurnEnds` | include/celer/core/scheduler.hpp:407-427 | in every run a worker's turn with a lease is over after at most eight of its own steps, whoever moves in between, and until then it holds that lease |
| `LeaseOrder.TurnLeaves` | include/celer/core/scheduler.hpp:442-465 | after a chunk or a yield the lease is at the newest end of that worker's own deque, after a pending answer or a check that sets it aside in the lot, and after an end in the pile |
| `LeaseOrder.WokenGoesHome` | include/celer/core/scheduler.hpp:326-333 | a woken lease goes to the newest end of the deque of the worker that held it last |
| `LeaseOrder.AffinityIsLastHolder` | include/celer/core/scheduler.hpp:410-411 | the affinity of a lease is the worker that held it last |
| `LeaseAccounts.RunAgrees` | include/celer/core/poll_result.hpp:114-140 | over every run the control block agrees with books kept from the steps: what was granted, how often the stream answered with a chunk, what was consumed and whether it was cancelled |
| `LeaseAccounts.DemandIsKept` | include/celer/core/poll_result.hpp:114-140 | in every run a stream has answered with no more chunks than were asked for; while no worker has the lease, the buffer holds those not consumed and the counter the demand not yet met, modulo 2^32 |
| `BatchGet.Collect` | src/backend/sqlite.cpp:458-479 | the rows of one query are added to what was fetched before |
| `BatchGet.GetMany` | src/backend/sqlite.cpp:426-493 | chunked queries answer each key in order; a stored key asked for again yields the moved-from value |
| `BatchGet.GetManyRightIff` | src/backend/sqlite.cpp:482-490 | the answers are the stored values exactly when no stored key repeats (or its value equals a moved-from string) |
| `BatchGet.DistinctAnswers` | src/backend/sqlite.cpp:482-490 | on distinct keys the answers are the stored values |
| `BatchGet.GetManyDecoded` | include/celer/materialization/store_ref.hpp:184-201 | every answer is decoded, in order; it fails exactly when an answer does not decode |
| `JoinSpec.RowsMore` | include/celer/materialization/join.hpp:117-133 | a left source delivers the rows of each chunk after those before it; a pull that fails adds none |
| `JoinSpec.JoinAppend` | include/celer/materialization/join.hpp:60-70 | the reference join of a concatenation is the concatenation of the joins |
| `JoinExecutors.JoinMachine.Find` | include/celer/materialization/join.hpp:253-278 | the hash and list probes find the stored value of the key |
| `JoinExecutors.JoinMachine.Gather` | include/celer/materialization/join.hpp:117-133 | a batch takes left-over rows first and pulls on until it is full or the left side ends |
| `JoinExecutors.JoinMachine.Dedupe` | include/celer/materialization/join.hpp:137-156 | each row is mapped to its key's slot, every distinct key asked for once |
| `JoinExecutors.JoinMachine.ProbeBatch` | include/celer/materialization/join.hpp:166-189 | the batch's rows of the reference join, in left order |
| `JoinExecutors.JoinMachine.RefillBatch` | include/celer/materialization/join.hpp:116-191 | a refill makes exactly the rows due from the left rows it consumed |
| `JoinExecutors.JoinMachine.ProbeChunk` | include/celer/materialization/join.hpp:253-278 | a chunk is probed in order and stops early only at the limit |
| `JoinExecutors.JoinMachine.Fill` | include/celer/materialization/join.hpp:193-205 | refills until there is output or the left side ends; terminates |
| `JoinExecutors.JoinMachine.Pull` | include/celer/materialization/join.hpp:193-217 | a pull hands out the next rows due, cut to what the limit leaves |
| `JoinExecutors.JoinMachine.Collect` | include/celer/materialization/join.hpp:364-387 | collecting any of the three machines gives the first `limit` rows of the reference join |
| `JoinExecutors.CutLeavesDue` | include/celer/materialization/join.hpp:206-216 | after cutting to the limit, exactly the rest is still due |
| `JoinStrategies.Choose` | include/celer/materialization/planner.hpp:97-149 | a forced strategy is obeyed; otherwise batched lookup exactly with native batch get on a right side that is not computed, a hash join exactly without it between local sides under a cap, and else row lookup of batch size one; nested loops only when forced |
| `JoinStrategies.ScanCompleteIff` | include/celer/materialization/store_ref.hpp:88-124 | a decoding scan sees every row exactly unless an empty page precedes one |
| `JoinStrategies.ScanLimited` | include/celer/materialization/store_ref.hpp:89-123 | a scan with a limit yields the first rows of one without |
| `JoinStrategies.DecodingScan.Pull` | include/celer/materialization/store_ref.hpp:88-124 | a pull decodes one page up to the limit and pulls nothing once that is reached; an empty page reads as the end |
| `JoinStrategies.BuildList` | include/celer/materialization/join.hpp:498-508 | a scan read to its end gives its rows up to the limit, decoded in order, and fails exactly if a pull or one of those rows does |
| `JoinStrategies.BuildIndex` | include/celer/materialization/join.hpp:472-493 | the index keeps each key's first row, and is refused when it holds as many keys as the cap |
| `JoinStrategies.Prepare` | include/celer/materialization/join.hpp:432-515 | what a strategy builds serves lookups of the right side it sees |
| `JoinStrategies.JoinAndCollect` | include/celer/materialization/join.hpp:432-515 | whatever the planner chose and however both sides are chunked, the collected rows are the first `limit` rows of the reference join; it fails only if a pull, row, right side or cap does |
| `JoinStrategies.KindsPartitionLeftOuter` | include/celer/materialization/join.hpp:60-70 | the left outer join keeps every left row once in order; inner and semi are its matched rows, anti the others |
| `PullStreams.KeptIsSifted` | include/celer/core/stream.hpp:393-397 | what a filter keeps is what stands, in order, at exactly the positions whose elements meet the test |
| `PullStreams.ApplyMore` | include/celer/core/stream.hpp:298-504 | one stage more: each element mapped, those that fail the test left out in place, a beginning of the given length, each element's own pipeline in its place, or the same elements repacked |
| `PullStreams.ExpandedMore` | include/celer/core/stream.hpp:454-488 | a flat map over one more element is followed by what that element's pipeline computes |
| `PullStreams.FoldedMore` | include/celer/core/stream.hpp:540-551 | a fold over one more element is its function applied to the fold so far and that element |
| `PullStreams.Stream.Pull` | include/celer/core/stream.hpp:213-219 | every pull of every combinator delivers the next part of what is left, says done only when nothing is left, and stays done |
| `PullStreams.Stream.PullMap` | include/celer/core/stream.hpp:346-367 | the source's next chunk, element by element through the function |
| `PullStreams.Stream.PullFilter` | include/celer/core/stream.hpp:381-411 | the next chunk with an element that meets the test (KeptIsSifted), skipping chunks that filter to nothing; terminates |
| `PullStreams.Stream.PullTake` | include/celer/core/stream.hpp:422-444 | never more than the remaining count; zero is done |
| `PullStreams.Stream.PullFlatMap` | include/celer/core/stream.hpp:454-488 | the sub-streams one after the other, each a pipeline of its own, whatever the chunking of any of them; terminates |
| `PullStreams.Stream.PullSub` | include/celer/core/stream.hpp:462-468 | the current sub-stream is drained to its end before the next is opened |
| `PullStreams.Stream.OpenNext` | include/celer/core/stream.hpp:469-475 | opening the next element's sub-stream, any pipeline, changes nothing about what is left |
| `PullStreams.Stream.PullElements` | include/celer/core/stream.hpp:476-487 | buffering a source chunk changes nothing about what is left |
| `PullStreams.Stream.PullBatch` | include/celer/materialization/stream.hpp:138-165 | chunks of exactly `size` elements except the last; a size of zero yields nothing |
| `PullStreams.Stream.FillBuffer` | include/celer/materialization/stream.hpp:144-156 | buffers until full or the source ends without losing an element |
| `PullStreams.Stream.Clone` | include/celer/core/stream.hpp:221-227 | a clone shares nothing and has the same elements left |
| `PullStreams.CloneIsIndependent` | include/celer/core/stream.hpp:221-227 | at any point, stream and clone deliver the same elements in either order of draining |
| `PullStreams.Stream.Collect` | include/celer/core/stream.hpp:513-523 | exactly the elements that were left, in order; done afterwards |
| `PullStreams.Stream.Fold` | include/celer/core/stream.hpp:540-551 | the fold over the elements that were left |
| `PullStreams.Build` | include/celer/core/stream.hpp:370-504 | the stream built for a pipeline stands for what its stages make of its source |
| `PullStreams.StartMeans` | include/celer/core/stream.hpp:298-523 | what the stream of a pipeline stands for is what the sequence operations compute, through any nesting of flat maps that the elements give rise to |
| `PullStreams.DepthDoesNotMatter` | include/celer/core/stream.hpp:454-488 | the bound on that nesting has no part in the answer |
| `PullStreams.RunPipeline` | include/celer/core/stream.hpp:298-523 | any pipeline of map, filter, take, flat_map and batch over any chunking, empty chunks included, with pipelines for sub-streams nested as deep as the elements that occur ask for, collects what the sequence operations compute |
| `PullStreams.MapAnswers` | include/celer/core/stream.hpp:346-367 | mapping a chunk and what is left after it is mapping what was left |
| `PullStreams.FilterAnswers` | include/celer/core/stream.hpp:381-411 | likewise for filtering |
| `PullStreams.TakeAnswers` | include/celer/core/stream.hpp:422-444 | likewise for a prefix whose count falls by what was delivered |
| `PullStreams.SubAnswers` | include/celer/core/stream.hpp:462-468 | likewise for a pull of the current sub-stream |
| `Sequences.SiftedCounts` | include/celer/core/stream.hpp:393-397 | what a test sifts out holds each element that meets it as often as before, and no other |
| `ArcBuf.Window` | include/celer/core/stream.hpp:126-134 | a slice has the elements from its offset on, one by one, and is as long as asked for short of the end of the window |
| `ArcBuf.Buffer.Acquire` | include/celer/core/arc_buf.hpp:69-71 | one more share; nothing else changes |
| `ArcBuf.Buffer.Release` | include/celer/core/arc_buf.hpp:74-82 | one share less; the last one destroys the elements and frees the buffer, once |
| `ArcBuf.Chunk.Drop` | include/celer/core/stream.hpp:52-52 | giving up a handle keeps every count exact and every other handle's elements |
| `ArcBuf.Chunk.Copy` | include/celer/core/stream.hpp:54-57 | a copy sees the same elements and keeps every count exact |
| `ArcBuf.Chunk.Move` | include/celer/core/stream.hpp:59-63 | the target sees the elements, the source none, and counts stay exact |
| `ArcBuf.Chunk.Assign` | include/celer/core/stream.hpp:65-74 | copy assignment, which releases before it acquires, is safe even between handles on one buffer |
| `ArcBuf.Chunk.MoveAssign` | include/celer/core/stream.hpp:76-85 | move assignment empties the source and is harmless on itself |
| `ArcBuf.Chunk.From` | include/celer/core/stream.hpp:88-102 | the handle sees the first size modulo 2^32 elements: all of them exactly when the size fits 32 bits |
| `ArcBuf.Chunk.Build` | include/celer/core/stream.hpp:116-123 | the handle sees what was written; an empty build frees its buffer at once |
| `ArcBuf.Chunk.Slice` | include/celer/core/stream.hpp:126-134 | the part of the window asked for, clipped to it, over the same buffer |
| `ArcBuf.Program.Do` | include/celer/core/stream.hpp:48-134 | after every step the handles hold what independent sequences would |
| `ArcBuf.CountIsHandles` | include/celer/core/arc_buf.hpp:74-82 | a count is the number of live handles, a buffer is freed once if there are none and never before, and every window lies within constructed elements |
| `ArcBuf.RunSteps` | include/celer/core/stream.hpp:48-134 | after any run the handles hold what independent sequences would, and one buffer was made for each step that fills one |
| `ArcBuf.DestroyAll` | include/celer/core/arc_buf.hpp:74-82 | once every handle is destroyed each buffer has been freed exactly once |
| `ArcBuf.RunAndDestroy` | include/celer/core/stream.hpp:48-134 | what can be read after any run is what independent sequences would hold, and after the destruction of what is left every buffer has been freed exactly once |
| `ArcThreads.StepCounts` | include/celer/core/arc_buf.hpp:69-75 | whatever threads do, the count is the number of shares modulo 2^32 |
| `ArcThreads.LastReleaseIff` | include/celer/core/arc_buf.hpp:74-75 | a release goes on to destroy the elements exactly when the number of shares is one modulo 2^32, so with no more than 2^32 exactly when it gives up the last |
| `ArcThreads.StepInv` | include/celer/core/arc_buf.hpp:69-82 | every interleaved step keeps the buffer whole while there is a share, torn down by one thread after that, and gone in the end |
| `ArcThreads.FreedExactlyOnce` | include/celer/core/arc_buf.hpp:69-82 | in every interleaving of threads nothing is destroyed or freed while a share is left, nothing twice, and everything once when the last has gone and nobody is at work |
| `ArcThreads.TearingDownEnds` | include/celer/core/arc_buf.hpp:76-80 | after the last release one step an element and one more free the buffer |
| `ArcThreads.TooManySharesFreeEarly` | include/celer/core/arc_buf.hpp:69-75 | with one share more than 2^32 a run destroys elements that are still shared |
| `Arithmetic.MaskIsRemainder` | include/celer/core/symbol_table.hpp:98-103 | masking with a power of two less one is the remainder |
| `SymbolTable.NextPow2` | include/celer/core/symbol_table.hpp:67-73 | the least power of two that is at least 16 and twice the count |
| `SymbolTable.Table.Build` | include/celer/core/symbol_table.hpp:85-116 | every key is stored, whatever the hash |
| `SymbolTable.Table.Insert` | include/celer/core/symbol_table.hpp:98-111 | one more key at the first free slot of its walk; the walk always finds one |
| `SymbolTable.Table.Find` | include/celer/core/symbol_table.hpp:136-149 | the value of the first position of the key, or nothing, as a linear scan would, for any hash |
| `SymbolTable.Missing` | include/celer/core/symbol_table.hpp:136-149 | a free slot or the probe bound max(8, count) means the key was never stored |
| `SymbolTable.Hit` | include/celer/core/symbol_table.hpp:141-147 | the first matching slot of a walk belongs to the key's first position |
| `SymbolTable.ExtendedLaid` | include/celer/core/symbol_table.hpp:98-111 | inserting keeps each key within as many probes as it has predecessors |
| `SymbolTable.MetBound` | include/celer/core/symbol_table.hpp:102-104 | a walk meets no more occupied slots than there are keys |
| `SymbolTable.FirstValueIsFirst` | include/celer/core/symbol_table.hpp:136-149 | the scan's answer is the first position's value, and nothing exactly for an absent key |
| `SymbolTable.Registry.Spawn` | include/celer/necto/actor.hpp:279-301 | a spawn appends the name and makes the table stale |
| `SymbolTable.Registry.Rebuild` | include/celer/necto/actor.hpp:269-277 | after it the table is the names spawned so far |
| `SymbolTable.Registry.Resolve` | include/celer/necto/actor.hpp:398-403 | in every reachable state the lazily rebuilt lookup is a linear scan of the actors |
| `SymbolTable.FirstNamedIsFirst` | include/celer/necto/actor.hpp:398-403 | the reference is the first actor of the name, narrowed to 32 bits |
| `Actors.ActorSystem.Deliver` | include/celer/necto/actor.hpp:333-339 | accepted exactly by an existing, active target that has not seen it and has room; it is then last in that target's line and nowhere else, and a refused one is in none; seen even if the channel refuses it |
| `Actors.ActorSystem.Inject` | include/celer/necto/actor.hpp:342-345 | accepted under the same conditions with number 0, which is then seen; every line grows by exactly what was accepted |
| `Actors.ActorSystem.SendFrom` | include/celer/necto/actor.hpp:140-144 | refused only for a bad, dormant or full target, never as a duplicate; a refused message still counts as seen by a live target; every line grows by exactly what was accepted |
| `Actors.ActorSystem.Handle` | include/celer/necto/actor.hpp:363-372 | handles one message: its sends are delivered one after the other, numbered on, and every line stays in order |
| `Actors.ActorSystem.HandleAll` | include/celer/necto/actor.hpp:363-373 | handles the messages of a chunk in order, each exactly once, with all their sends |
| `Actors.ActorSystem.Tick` | include/celer/necto/actor.hpp:349-375 | handles exactly the messages that were waiting, in order, and none if dormant; every receiver's line, handled and waiting, grows by exactly the messages whose delivery answered true; the sender's count is stored at the end |
| `Actors.ActorSystem.TickAll` | include/celer/necto/actor.hpp:378-384 | ticks every actor once, in order, each seeing what the ones before it sent; if it handles nothing, no active actor has a message waiting |
| `Actors.ActorSystem.Drain` | include/celer/necto/actor.hpp:387-395 | stops quiet or after the rounds allowed, and counts what it handled; once quiet, each active actor has handled what waited before and every message accepted for it since, in order |
| `Actors.ActorSystem.ChannelDrain` | include/celer/necto/actor.hpp:412-417 | empties the channel and forgets what was seen, without breaking order |
| `Actors.ActorSystem.SetLifecycle` | include/celer/necto/actor.hpp:420-422 | only the lifecycle changes |
| `Actors.ActorSystem.Spawn` | include/celer/necto/actor.hpp:279-301 | a fresh channel, duplicate set and reference |
| `Actors.DeliveredFine` | include/celer/necto/channel.hpp:47-52 | a push keeps the capacity and the order of every sender's numbers |
| `Actors.Run` | include/celer/necto/actor.hpp:333-417 | any run does what its steps do one after the other; each receiver handles each sender's messages in strictly increasing order, never twice, and no channel exceeds its capacity; unless its channel was drained, what a receiver has handled followed by what waits is the old line followed by exactly the messages whose delivery answered true, in that order |
| `Actors.InjectTwice` | include/celer/necto/actor.hpp:333-345 | a second message from outside to an active actor is refused as a duplicate until its channel is drained |
| `WatermarkCodec.LittleRoundTrip` | include/celer/materialization/materialize.hpp:83-96 | bytes of a number read back |
| `WatermarkCodec.EncodedLayout` | include/celer/materialization/materialize.hpp:83-96 | the encoding byte by byte: the time and then each string's length in little-endian order before its bytes |
| `WatermarkCodec.LittleBytes` | include/celer/materialization/materialize.hpp:83-96 | byte k of a number written in little-endian order is its digit at 256 to the k |
| `WatermarkCodec.DecodeIsEncoded` | include/celer/materialization/materialize.hpp:99-123 | what decodes is what some prefix of the bytes encodes |
| `WatermarkCodec.RoundTripIffFits` | include/celer/materialization/materialize.hpp:83-123 | a record survives encoding exactly when both strings are shorter than 2^32 bytes |
| `WatermarkCodec.DecodeWatermark` | include/celer/materialization/materialize.hpp:99-123 | the walk by offset reads nothing out of bounds and agrees with the decoder |
| `Delta.Run.Take` | include/celer/materialization/materialize.hpp:212-242 | a record is skipped below the floor or kept; a full batch is flushed; on failure the store holds a first part |
| `Delta.Run.Flush` | include/celer/materialization/materialize.hpp:194-205 | the pending rows reach the store together or not at all |
| `Delta.Run.Drain` | include/celer/materialization/materialize.hpp:207-246 | all rows that pass are written in order with the fewest flushes the batch size allows |
| `Delta.FinalKeyByKey` | include/celer/materialization/materialize.hpp:150-259 | key by key, the store after a successful run: a key that was put holds the value of its last row; of the others, Replace has deleted exactly those with its prefix, and everything else is as it was but for a Delta run's cursor; a dry run changes nothing |
| `Delta.WrittenStores` | include/celer/materialization/materialize.hpp:194-205 | a key that was put holds the value of the last row put at it |
| `Delta.PutsAre` | include/celer/materialization/materialize.hpp:170-229 | in Delta mode exactly the rows above the cursor are put, in their order; in the others all of them |
| `Delta.PassingIsSifted` | include/celer/materialization/materialize.hpp:212-229 | a row passes exactly if it lies above the floor, or there is none, and those that pass keep their order |
| `Delta.Prelude` | include/celer/materialization/materialize.hpp:150-184 | Replace deletes the keys with its prefix and no other before anything is written (key by key in FinalKeyByKey); Delta reads its cursor and needs an id |
| `Delta.Advance` | include/celer/materialization/materialize.hpp:248-259 | the cursor becomes the greatest key of the run, if there is one |
| `Delta.Materialize` | include/celer/materialization/materialize.hpp:136-264 | a successful run found every key and leaves a store that does not depend on the flush size; a failed Delta run leaves the cursor and has written a first part of what it would have written for the records it got through |
| `Delta.RunKeeps` | include/celer/materialization/materialize.hpp:170-259 | a Delta run writes no key an earlier successful run wrote, keeps the cursor the largest key, and raises it strictly if it writes |
| `Delta.HistoryKeeps` | include/celer/materialization/materialize.hpp:170-259 | over any history of Delta runs, failed ones among them, no key of a successful run is written again, the cursor rises strictly with each run that writes and stays put otherwise, and it is the largest key written |
| `Delta.DeltaRun` | include/celer/materialization/materialize.hpp:136-264 | every Delta run, whatever its batch size and wherever it fails, is one event of such a history |
| `Delta.RunHistory` | include/celer/materialization/materialize.hpp:136-264 | any sequence of Delta runs over a store without a cursor is such a history from the start |
| `Delta.GreatestIsLargest` | include/celer/materialization/materialize.hpp:234-236 | the running greatest key is the largest key written |
| `Delta.CursorMovesIff` | include/celer/materialization/materialize.hpp:248-259 | a successful run moves the cursor exactly when it writes a key that is not empty |
| `Delta.BadCursorStartsOver` | include/celer/materialization/materialize.hpp:180-183 | a cursor record that does not decode is ignored and everything is written again |
| `TaskPool.StepInv` | include/celer/core/task_pool.hpp:62-192 | every step keeps each task queued, held by one worker, or run once |
| `TaskPool.WorkIs` | include/celer/core/task_pool.hpp:111-192 | since nothing is pushed to a worker's own queue, a worker moves on, takes the first submitted task, or runs its own |
| `TaskPool.ReturnedMeansDone` | include/celer/core/task_pool.hpp:83-89 | in every interleaving no task runs twice, and when the shutdown call that set the flag has returned every earlier task has run once |
| `TaskPool.ShutdownProgresses` | include/celer/core/task_pool.hpp:152-192 | once the flag is set every worker step brings the pool closer to its end |
| `TaskPool.WorkerCanStep` | include/celer/core/task_pool.hpp:111-192 | a worker that has not left is never blocked |
| `TaskPool.ShutdownEnds` | include/celer/core/task_pool.hpp:83-89 | in any run once the flag is set the workers take a bounded number of steps, and none can take another exactly when all have left |
| `TaskPool.ShutdownCanReturn` | include/celer/core/task_pool.hpp:83-89 | from every reachable state the shutdown call that set the flag can still return |
| `TaskPool.NothingLeftMeansAllLeft` | include/celer/core/task_pool.hpp:83-89 | the measure is zero, up to queued tasks, exactly when every worker has left |
| `TaskPool.OnlyOneSetter` | include/celer/core/task_pool.hpp:83-89 | in every run at most one caller of shutdown, the one that set the flag, ever joins the workers |
| `TaskPool.LaterCallPromisesNothing` | include/celer/core/task_pool.hpp:83-84 | whenever the flag is set, any other caller's call returns at once with every unfinished task still to be run, and never counts as having joined |
| `TaskPool.NothingRunsAfterwards` | include/celer/core/task_pool.hpp:63-73 | a task submitted after the last worker left never runs |
| `TaskPool.SecondCallReturnsEarly` | include/celer/core/task_pool.hpp:83-84 | a second shutdown call can return while an earlier task is still queued |
| `ByteOrder.LessTotal` | include/celer/materialization/materialize.hpp:217-219 | unsigned byte order is total |
| `ByteOrder.SharedPrefix` | src/backend/sqlite.cpp:32-43 | a shared beginning does not matter to the order |
| `ByteOrder.Between` | src/backend/sqlite.cpp:32-43 | what lies between two strings with a shared beginning has it too |
| `PrefixScan.PrefixUpperBound` | src/backend/sqlite.cpp:32-43 | the loop with its carries computes the exclusive bound |
| `PrefixScan.RangeIsPrefix` | src/backend/sqlite.cpp:32-43 | a key has the prefix exactly if it lies from the prefix up to the bound, or just from the prefix on when there is no bound |
| `PrefixScan.QueryIsWithPrefix` | src/backend/sqlite.cpp:202-226 | the range query returns exactly the keys with the prefix |
| `PrefixScan.OpenQueryAllMatch` | src/backend/sqlite.cpp:182-201 | after a prefix of 0xFF bytes everything from it on has the prefix, so the early exit is never taken |
| `PrefixScan.CollectWhile` | src/backend/sqlite.cpp:193-201 | the longest beginning of the cursor whose keys have the prefix |
| `PrefixScan.WithPrefixHas` | src/backend/sqlite.cpp:151-230 | the result holds exactly the matching rows, in key order |
| `PrefixScan.Scan` | src/backend/sqlite.cpp:151-230 | all three branches return exactly the rows with the prefix, in key order |
| `Dispatch.RouteIsSplit` | include/celer/core/dispatch.hpp:25-30 | a key is its route put back together, split at its first colon |
| `Dispatch.ReachesResolved` | src/core/dispatch.cpp:19-62 | get, put and del reach exactly the cell and key that the route comes to, and fail if a child on the way is missing |
| `Dispatch.ReadAfterWrite` | src/core/dispatch.cpp:19-62 | after a put or del a key reads the change exactly if it comes to the same place, and otherwise what it read before |
| `Dispatch.PathReaches` | src/core/dispatch.cpp:19-62 | the names down to a leaf, joined by colons, and then a key come to that key in the leaf's own cell |
| `Dispatch.ResolvedIsPath` | src/core/dispatch.cpp:19-62 | conversely, a key that comes to a cell is the names down to its leaf and then the key there, short of colons at the end |
| `Dispatch.FoundChild` | src/core/dispatch.cpp:7-15 | the child found has the name |
| `Dispatch.ChildIsFirst` | src/core/dispatch.cpp:7-15 | a child is found exactly if one has the name, and it is the first that does |
| `Dispatch.BatchOfOne` | src/core/dispatch.cpp:92-113 | a batch of one put or del is what put or del do at a key that comes to the same place |
| `Dispatch.TargetIsPath` | src/core/dispatch.cpp:100-109 | a table's operations reach the leaf to which its name leads at every level |
| `Dispatch.GroupByTable` | src/core/dispatch.cpp:100-103 | each group holds its table's operations in order |
| `Dispatch.SentIsGroupSent` | src/core/dispatch.cpp:100-109 | only one group reaches the cells below a child |
| `Dispatch.Store.NodeBatch` | src/core/dispatch.cpp:92-113 | succeeds exactly if every table resolves and every leaf it calls does its part, and then equals the operations one by one, in whatever order the groups are visited; otherwise each cell has had all of its operations or none, or is as its failed leaf left it |
| `Dispatch.Store.GroupBatch` | src/core/dispatch.cpp:104-109 | one group changes nothing outside its child |
| `Dispatch.BatchIsOneByOne` | src/core/dispatch.cpp:92-113 | a batch means its operations one after the other |
| `TwoOpt.TourLength` | examples/10_route_solver.cpp:88-96 | the loop adds up the closed tour |
| `TwoOpt.ReverseRange` | examples/10_route_solver.cpp:112-112 | reverses a stretch in place and nothing else |
| `TwoOpt.ExchangeDelta` | examples/10_route_solver.cpp:106-112 | reversing a stretch changes the length by exactly the new edges less the old |
| `TwoOpt.ExchangeKeeps` | examples/10_route_solver.cpp:112-112 | the cities stay the same |
| `TwoOpt.TryExchange` | examples/10_route_solver.cpp:106-115 | shortens the tour by more than the tolerance or finds that pair settled |
| `TwoOpt.TwoOptPass` | examples/10_route_solver.cpp:100-118 | keeps the tour a permutation; true only if it got shorter by more than the tolerance, false only at a local optimum |
| `TwoOpt.LocallyOptimalMeans` | examples/10_route_solver.cpp:100-118 | settled edges mean that no exchange shortens the tour by more than the tolerance |
| `TwoOpt.Polish` | examples/10_route_solver.cpp:592-594 | a bounded number of passes never lengthens the tour |
| `TwoOpt.PolishFully` | examples/10_route_solver.cpp:100-118 | repeating until no pass helps ends, at a local optimum |
| `AntColony.Choose` | examples/10_route_solver.cpp:139-173 | weighted choice by cumulative weight, with the fallback for negligible weights |
| `AntColony.CumulativeOver` | examples/10_route_solver.cpp:144-168 | the running weight rises by the weight of a city not visited and by nothing for those visited |
| `AntColony.Spin` | examples/10_route_solver.cpp:157-173 | the first unvisited city at which the running weight reaches the draw |
| `AntColony.SomeCityReaches` | examples/10_route_solver.cpp:169-173 | a draw within the total, zero included, always reaches a city |
| `AntColony.ConstructTour` | examples/10_route_solver.cpp:123-176 | every city once, from the start, each chosen by weight among the cities not yet visited |
| `AntColony.RoundBest` | examples/10_route_solver.cpp:581-584 | the least length of the round |
| `AntColony.UpdateBest` | examples/10_route_solver.cpp:587-600 | the global best stays a tour with its own length recorded, never gets longer, and is never longer than a tour of the round |
| `AntColony.StagnationCountsBarren` | examples/10_route_solver.cpp:590-637 | the counter is the number of rounds in a row without improvement modulo 26, so the pheromone is reset after every 26th of them and at no other time |
| `AntColony.Escape` | examples/10_route_solver.cpp:632-637 | all pheromone returns to its start value once the counter passes 25, and only then |
| `AntColony.UpdatePheromone` | examples/10_route_solver.cpp:602-637 | a whole round leaves on each edge, exactly, what evaporation left of it, the deposit of every ant whose tour has it and twice the deposit if the best tour has it, capped once; or the start value after every 26th barren round; symmetric and within limits |
| `AntColony.Evaporate` | examples/10_route_solver.cpp:603-607 | pheromone falls by the rate, not below the minimum |
| `AntColony.EdgesGetAmount` | examples/10_route_solver.cpp:609-629 | a tour of three or more cities lays its amount once on each of its edges, in either direction, and nothing elsewhere |
| `AntColony.OneMoreAnt` | examples/10_route_solver.cpp:609-620 | one ant more adds what its tour lays, the deposit shared out over its length |
| `AntColony.LayAll` | examples/10_route_solver.cpp:602-629 | evaporation, every ant's deposit and twice the best tour's together, exactly, edge by edge |
| `AntColony.Deposit` | examples/10_route_solver.cpp:609-629 | each edge gains the amount as often as the tour has it in either direction, up to the limit, and no other changes |
| `Swarm.CauchySchwarz` | include/celer/necto/swarm/field.hpp:33-42 | the square of an inner product is at most the product of the squared norms |
| `Swarm.Triangle` | include/celer/necto/swarm/field.hpp:40-42 | norms obey the triangle inequality |
| `Swarm.DotProduct` | include/celer/necto/swarm/field.hpp:33-38 | the loop computes the inner product |
| `Swarm.AddVectors` | include/celer/necto/swarm/field.hpp:73-78 | the loop adds entry by entry |
| `Swarm.Normalize` | include/celer/necto/swarm/field.hpp:44-49 | the result is no longer than one, and of length one with the same direction unless the vector is tiny |
| `Swarm.CosineDistance` | include/celer/necto/swarm/field.hpp:51-58 | between zero and two |
| `Swarm.SwarmField.Neighbours` | include/celer/necto/swarm/field.hpp:106-118 | the sum and number of the active members within the radius |
| `Swarm.SwarmField.AlignOne` | include/celer/necto/swarm/field.hpp:101-126 | an active member with a neighbour takes the direction of its neighbours' sum plus noise; nobody else changes |
| `Swarm.SwarmField.TurnsChangeMembers` | include/celer/necto/swarm/field.hpp:100-179 | however the members take their turns, everybody else and whoever sleeps stays as before, and whoever was pushed or recruited has a direction |
| `Swarm.SwarmField.AlignCluster` | include/celer/necto/swarm/field.hpp:100-126 | the members' turns one after the other, each seeing the headings already changed; headings stay no longer than one |
| `Swarm.SwarmField.InjectNoise` | include/celer/necto/swarm/field.hpp:160-169 | the members' turns one after the other; every active member has a direction again |
| `Swarm.SwarmField.Randomize` | include/celer/necto/swarm/field.hpp:173-179 | the recruits' turns one after the other; every recruit in range has a direction |
| `Swarm.SwarmField.OrderParameter` | include/celer/necto/swarm/field.hpp:130-142 | the norm of the heading sum over the active members, between zero and one |
| `Swarm.TotalBound` | include/celer/necto/swarm/field.hpp:130-142 | the sum of vectors no longer than one is no longer than their number |
| `Swarm.ConsensusTotal` | include/celer/necto/swarm/field.hpp:130-142 | equal headings sum to their number times their norm |
| `Swarm.Run` | include/celer/necto/swarm/field.hpp:100-179 | any run of align, noise, recruiting and lifecycle steps does what they do one after the other, and the order parameter of the field it leaves, the length of the mean active heading, lies between zero and one |
| `SwarmLaws.DistanceAlong` | include/celer/necto/swarm/field.hpp:51-58 | headings of one direction are at distance zero, whatever their lengths |
| `SwarmLaws.DistanceAcross` | include/celer/necto/swarm/field.hpp:51-58 | opposite headings are at distance two |
| `SwarmLaws.NearHas` | include/celer/necto/swarm/field.hpp:109-118 | the neighbours are exactly the active members within the radius |
| `SwarmLaws.NearItself` | include/celer/necto/swarm/field.hpp:109-118 | an active member is its own neighbour |
| `SwarmLaws.TurnsTo` | include/celer/necto/swarm/field.hpp:120-179 | whoever takes a turn comes out with a heading that, stretched by a length not below zero, is in every entry the sum of its neighbours, its own heading or nothing, plus the noise |
| `SwarmLaws.AgreementIsKept` | include/celer/necto/swarm/field.hpp:100-169 | a cluster whose active members share a heading of length one keeps it through any alignment or shaking without noise |
| `Fluid.FlowGrid.Diffuse` | examples/09_fluid_ripple.cpp:268-294 | the sweeps computed in place are the Gauss-Seidel sweeps |
| `Fluid.FlowGrid.DiffusedWithin` | examples/09_fluid_ripple.cpp:268-294 | no number of sweeps leaves the bounds of the source |
| `Fluid.FlowGrid.SampleWithin` | examples/09_fluid_ripple.cpp:296-320 | a bilinear sample stays within the bounds of the field |
| `Fluid.FlowGrid.Advect` | examples/09_fluid_ripple.cpp:322-345 | the loop carries every fluid cell's value from where its velocity points |
| `Fluid.FlowGrid.AdvectionWithin` | examples/09_fluid_ripple.cpp:322-345 | advection stays within the bounds of its source, whatever the velocities |
| `Fluid.FlowGrid.TryMove` | examples/09_fluid_ripple.cpp:442-454 | moves the fraction asked for as far as there is room |
| `Fluid.FlowGrid.SettleDensity` | examples/09_fluid_ripple.cpp:432-470 | settling cell by cell, bottom row first |
| `Fluid.MoveSettles` | examples/09_fluid_ripple.cpp:442-454 | a move conserves mass and fills no cell above the larger of 1.15 and its prior value |
| `Fluid.FlowGrid.RowsSettle` | examples/09_fluid_ripple.cpp:432-470 | settling conserves the total mass and leaves no cell above the larger of 1.15 and its prior value |
| `Fluid.PouredWithin` | examples/09_fluid_ripple.cpp:236-251 | the inlet leaves every density between zero and the cap |
| `Fluid.FlowGrid.AddInlet` | examples/09_fluid_ripple.cpp:236-251 | only nozzle cells rise, up to the inlet's cap |
| `Fluid.FlowGrid.DecayWithin` | examples/09_fluid_ripple.cpp:568-574 | decay stays within the cap |
| `Fluid.FlowGrid.ClampDensity` | examples/09_fluid_ripple.cpp:224-234 | clears solid cells and clamps the others |
| `Fluid.FlowGrid.Step` | examples/09_fluid_ripple.cpp:547-578 | the density part of a step is inlet, diffusion, advection, settling, decay and clamp in that order |
| `Fluid.FlowGrid.StepWithin` | examples/09_fluid_ripple.cpp:547-578 | densities within the cap stay there before the clamp, so it changes no fluid cell |
| `Fluid.FlowGrid.SimulatedWithin` | examples/09_fluid_ripple.cpp:547-578 | over any run densities within the cap stay there, and in no step does the clamp change a fluid cell |
| `Fluid.FlowGrid.Simulate` | examples/09_fluid_ripple.cpp:547-578 | a run is its steps one after the other |
| `Fluid.Run` | examples/09_fluid_ripple.cpp:547-578 | any run from an empty grid is its steps one after the other and keeps every density between zero and 1.40 |
| `FluidLaws.SettlingSinks` | examples/09_fluid_ripple.cpp:432-470 | settling never raises the water: above any row there is no more of it than before, and all of it is still there |
| `FluidLaws.SettlingDrifts` | examples/09_fluid_ripple.cpp:456-463 | settling in a flow to the right takes no water out of any column and those right of it, and in a flow to the left none out of those left of it |
| `FluidLaws.RegionGains` | examples/09_fluid_ripple.cpp:432-470 | settling takes no water out of a region that has, with each cell, the cell below and those beside it and below that downwind |
| `FluidLaws.TryFills` | examples/09_fluid_ripple.cpp:442-454 | what a cell lets go arrives in the other; it keeps more than the fraction leaves it only where the other is then full, and no third cell changes |
| `FluidLaws.InletAndDecay` | examples/09_fluid_ripple.cpp:236-251 | the inlet lowers no nozzle cell below its cap and touches no other; decay spares solid cells and, nearly, the basin |
| `FluidLaws.AdvectionCarries` | examples/09_fluid_ripple.cpp:296-345 | where the velocities move a value by whole cells it arrives as it was: rows by v, columns by u |
| `FluidLaws.SweepKeepsIff` | examples/09_fluid_ripple.cpp:268-294 | a sweep leaves a field as it is exactly if every inner fluid cell differs from its source by what flows in from its four neighbours |
| `ParEval.Merge.PollNext` | include/celer/core/async_stream.hpp:221-246 | a chunk is the next part of the first ready source in rotation, nothing else is lost, done is said only when every source is, and every other answer is progress |
| `ParEval.Merge.TryOne` | include/celer/core/async_stream.hpp:226-238 | a source that is not finished is polled once, and only a chunk or an error ends the turn |
| `ParEval.Merge.Turn` | include/celer/core/async_stream.hpp:224-239 | one turn takes nothing without answering it, and passes over no source that has a chunk ready |
| `ParEval.Covers` | include/celer/core/async_stream.hpp:224-228 | one turn comes by every source |
| `ParEval.CollectMore` | include/celer/core/async_stream.hpp:450-475 | what was collected and what is left make up each source at every point |
| `ParEval.CollectBlocking` | include/celer/core/async_stream.hpp:450-475 | an interleaving of the sources with every element once and each source's order kept, an error exactly if some source has one; it ends for any pattern of pending and yield |

## Left out

- Weak memory orderings, fences, padding, timed waits and nanosecond budgets: memory is sequentially consistent.
- Scheduler liveness beyond a worker's own turn (a wake before the park is lost; a grant does not wake a parked lease), `drain_remaining` of the
  scheduler, and pushes to another worker's deque inside the deque's own steps: the scheduler takes each deque
  operation as one step.
- LeaseScheduler.OnePlaceIffNoLostRace: a race can be lost at any pop that finds its deque empty, more often than the
  deque's own steps allow.
- LeaseScheduler.BackpressureHolds: assumes that clients consume only what is buffered and submit one lease per control.
- `RightOuter` and `FullOuter`: the executors do not complete them, so nothing is claimed beyond `should_emit`.
- JoinStrategies.JoinAndCollect: a table holds each key once, as a primary key does; reading a table and scanning it are
  related by `ScanCompleteIff` rather than assumed equal. A page has fewer than 2^32 rows.
- PullStreams.Stream.Pull: sources do not fail and all stages share one element type; flat maps are nested to some
  finite depth over the elements that occur. `inspect` passes elements on unchanged, and string sources are chunks of
  characters, so both are covered by what is said of chunks.
- ArcBuf.RunAndDestroy: one thread, and counts that do not wrap; `ArcThreads` has threads and the width, but no windows.
- SymbolTable.Table.Find: keys are compared as a whole; the inline and heap storage of key bytes is not modelled.
- Actors.Run: fewer than 2^32 - 2 actors and sequence numbers that do not wrap; envelopes pushed past `deliver` with
  `channel_push` are excluded, and actors are told apart by what they send, not by their state.
- Delta.RunHistory: row keys are not empty, differ from the cursor's own key and fit 32-bit lengths, as does the view id.
- Delta.Materialize: nothing is said of the store when a run in a mode other than Delta fails.
- TaskPool.ReturnedMeansDone: exceptions thrown by a task and its future are not modelled.
- Dispatch.Store.NodeBatch: leaves hold separate cells; which leaf batches fail is a parameter. Scans and compaction visit
  the children in turn and change nothing between them, so the batch and the routes of `get`, `put` and `del` say what
  reaches a leaf. "a" and "a:" come to the same place, as `Resolve` says.
- AntColony.UpdateBest: the best length so far does not exceed the start value 1e18 of a round's minimum.
- AntColony.UpdatePheromone: tour lengths are positive; in the code a zero length would divide by zero.
- TwoOpt.TwoOptPass: distances are symmetric and exact; rounding is not modelled.
- Fluid.FlowGrid.Step: velocities are arbitrary inputs, so forces, projection and residence times are not modelled; nor is
  the geometry of the basin.
- Swarm.Run: headings have the field's dimension; samples are arbitrary.
- `ConcatMapImpl` and `MergeMapImpl`, which drop the unread rest of a chunk, `ParMapImpl`, which maps each chunk in
  place, and cloning of channel readers.
- RocksDB, S3, QPDF, the SQLite engine beyond ordered queries, file systems, compression, reflection, HTTP, rendering,
  and the handles and tables of functions that erase types.
