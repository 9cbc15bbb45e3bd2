# DSV4 serving stack: verified model

A Dafny model of the parts of this repository whose correctness rests on several mechanisms agreeing with one
another, and proofs that they do. `dafny verify dfyconfig.toml` checks the whole project.

What is modelled, in the system's own terms:

* **Engram row store** (`adapter/row_store.cpp`, `scripts/pack_engram.py`, `adapter/engram_backend.py`).
  - `Pool*`, `ServeSteps`: the ticket thread pool as a transition system: one program counter per thread, the
    shared counters `next_`, `remaining_`, `active_`, `generation_`, the current job, and every shared access of
    `fetch_row` as its own step, so hits, misses read outside the lock, duplicate insertions and the bitmap's
    compare-and-swap interleave freely, across any sequence of jobs for the stores of any layers, with spurious wake-ups and failing reads. `PoolTheorems` holds what callers may rely on,
    `PoolCounts` what the counters add up to, `PoolWakeups` that no worker misses a job.
  - `CacheModel`, `Residency`: the set-associative cache as a value, and exactly which rows are resident.
  - `RowStore` (module `RowStores`), `SlotLayout`: the store as a class over its flat `keys`/`cache`/`victim`/`seen`
    arrays, proved equal to that value; `ServeAlone` ties the class to the pool's steps, `ServeTrail` says what a
    serial pass does and where it aborts.
  - `Backing`, `MissPaths`, `Packing`: page-aligned reads with adversarial answers, pinned scales, the packed shard, its writer and the check on attaching it.
  - `Ownership`, `RankSums`: the row ranges of the ranks and what adding up the ranks' outputs gives.
  - `Embedding`: the layer's persistent staging buffers and work descriptors around the store.
* **Streaming gateway** (`gateway/concurrency_proxy_v2.py`).
  - `GatewayStream`, `GatewayDelivery`, `GatewayExits`, `GatewayProgress`, `GatewayAlone`, `GatewayLimits`: producer, consumer,
    heartbeat and first-token monitor around the 256-frame queue; every stretch between two awaits is one step; the network
    and the clock are adversarial. `GatewayAnswers` and `GatewayTasks` say the same of the actions of a run: what the engine
    answered, what the client was handed, why the consumer stopped, and which tasks are left.
  - `GatewayAdmission`, `GatewayFates`: slots, dedup placeholders and gauges for any number of concurrent requests.
  - `BodyKey`, `Placeholders`, `Escapes`, `Sanitizer`: the dedup key and the image-placeholder sanitizer.
* **Layout and reduction kernels**: `PageLayout`/`PageSplit` (KV pages to 64-token pages through persistent buffers, with 32-bit page bases),
  `Argmax` (two-stage argmax with 32-bit indices), `ExpertParallel` (partial mixtures by rank),
  `PaddedProduct`/`PadK` (contraction dimension padded from 576 to 640).
* **Benchmark analysers**: `StepCursor` (steps to cells with one cursor), `SweepPeak` (largest overlap of intervals);
  `Sorting` is the stable sort both use.

`Arith`, `Sums`, `Totals`, `Rows`, `Options` hold shared definitions.

Where the code and its documentation disagree, the model follows the code:

* `gateway/README.md:32` says every failure after the stream is open ends it explicitly. The total-lifetime and
  write-timeout exits send no error frame (`gateway/concurrency_proxy_v2.py:542-553`,
  `GatewayLimits.TotalTimeoutIsSilent`, `GatewayLimits.WriteTimeoutIsSilent`), and `put_frame` drops an error frame
  when the queue is full (`GatewayLimits.ErrorFrameCanBeDropped`). `GatewayExits.HonestExactlyWhen` gives the exact
  condition for every exit, `GatewayExits.CutIsSilentExactlyWhen` for the cuts, and
  `GatewayDelivery.SilentOnlyIfErrorDropped` for streams that end at DONE.
* `TOTAL_STREAM_TIMEOUT` is described as a hard cap on the whole stream (`gateway/concurrency_proxy_v2.py:63`). With
  `FIRST_TOKEN_TIMEOUT` at 0 or below, a supported setting, the handler waits for the first byte without a limit
  (line 577) and the cap stops the consumer only: an engine that accepts and never answers holds the handler and its
  admission slot until the client leaves (`GatewayAlone.SilentEngineHolds`, `GatewayAlone.LifetimeLimitCanHang`). This is
  the only way in which the gateway needs anybody else to end a response (`GatewayAlone.StepsAloneUnlessHung`).
* The handler's `finally` cancels every task (`gateway/concurrency_proxy_v2.py:608-609`), and the producer's own `finally`
  then waits to queue DONE. With a full queue and the consumer gone it waits for good: the producer outlives its response
  (`GatewayTasks.ProducerCanBeLeftBehind`; `GatewayTasks.QuietExactlyWhen` says that nothing else can be left).
* The sanitizer's byte trigger (`gateway/concurrency_proxy_v2.py:272`) is described as literal in both forms in which
  clients send the placeholder, raw and `ensure_ascii`. It misses nothing exactly for encoders whose encoding of the
  placeholder holds it (`Escapes.TriggerMissesNoneIff`),
  as when they leave ASCII letters alone (`Escapes.PlainLettersAreSeen`); JSON also allows a letter to be escaped, and
  such a body is passed on unparsed (`Escapes.EscapedLetterIsMissed`).
* `_split_kv_pages_to_64` is described for any pool. The kernel computes its page bases in 32 bits
  (`runtime/flash_mla_sm120.py:410-411`): a conversion of the whole pool stays inside the buffers if and only if the last
  page's bases are below 2^31 lanes (`PageSplit.WholePoolIff`, `PageSplit.LargePoolStrays`).
* The packer ignores how much a write took (`scripts/pack_engram.py:71,86`) and may report an incomplete shard as
  written. The loader refuses it (`Packing.OnlyWholeShardsAreAccepted`).
* "Same body hash" (`gateway/README.md:13`) is the same length and the same first MiB (`BodyKey.SameKeyIff`); larger bodies can collide.
* "Literal image tokens rewritten" (`gateway/README.md:15`) holds for string values, not for dictionary keys (`Sanitizer.KeyPlaceholderSurvives`).
* The comment at `runtime/flash_mla_sm120.py:367` adds 36864 and 512 to 37888; the sum is 37376, and the stride that is used is 37440 (`PageLayout.StrideIsRoundedUp`).
* `fast_row_argmax` is documented as `x.argmax(dim=-1)` for any width; with the kernels' 32-bit indices it is
  exactly for widths 1 to 2^31 - 64 (`Argmax.FastRowArgmax`). At 0 columns, and above, every row yields the width itself.
* `benchmarks/pr_engine_steps.py:33` describes windows padded by 0.5 s; `PAD` is 0.0 and unused. Line 53 says each
  step belongs to exactly one cell; a step in no window belongs to none (`StepCursor.OwnedIffInSomeWindow`).
* The sweep's peak is the largest number of streams in flight when every stream ends no earlier than it starts; an
  interval that ends before it starts can hide another one (`SweepPeak.BackwardSpanHidesAStream`). The exact condition
  is `SweepPeak.SweepFindsPeakIff`.
* The padded layer's refusal names positive powers of two (`adapter/shared_pad_k.py:114-118`). The test accepts infinity
  and refuses the powers of two below 2^-126 (`PadK.EncodableIff`).
* The loader's comment says a present but wrong shard must never be served (`adapter/row_store.cpp:427-429`); only its
  header and size are checked (`Packing.RecordsAreNotChecked`). The guard against moving the range protects pinned
  scales (`adapter/row_store.cpp:457-461`) but not an attached shard (`RowStores.MoveUnderShard`, and exactly
  `MissPaths.MovedRangeFitsIff`).

## Model

| member | source | states |
|---|---|---|
| PoolTheorems.ReturnedLookupIsSerial | adapter/row_store.cpp:220-290 | once `run` has returned, each position of each job so far was written exactly once, with its row in the job's layer if owned and zeros otherwise, under every schedule of any number of workers and any sequence of jobs for any layers |
| PoolTheorems.ResetNeverRaces | adapter/row_store.cpp:225-242 | while the ticket counter is reset and until the job is announced, no worker is inside the ticket loop or about to decrement a counter |
| PoolTheorems.TicketsAreExclusive | adapter/row_store.cpp:256-268 | two threads never hold one ticket, and a ticket being served has not been written |
| PoolTheorems.NoLostWakeup | adapter/row_store.cpp:233-242 | a caller that sleeps, or has decided to, waits for a condition that is false, and some worker still inside is due to notify it |
| PoolWakeups.NoWorkerMissesAJob | adapter/row_store.cpp:225-234 | a worker that sleeps has seen the current generation, or the caller has just announced a new one and its next step wakes every worker |
| PoolTheorems.TicketsAreBounded | adapter/row_store.cpp:258-260 | within a job the ticket counter never exceeds chunks + workers + 1 |
| PoolTheorems.EveryLookupReturns | adapter/row_store.cpp:220-290 | a lookup's steps are bounded even if no worker wakes, and until it has returned some thread can step |
| PoolTheorems.OnlyTheMutexBlocks | adapter/row_store.cpp:220-290 | a thread that is not at rest is held back by nothing but the mutex |
| PoolTheorems.CleanRunsNeverAbort | adapter/row_store.cpp:191-204 | a run without a failed read whose jobs ask only for rows of their layer's table never aborts |
| PoolTheorems.AbortsExactlyWhen | adapter/row_store.cpp:100-114 | the step behind it: one that aborts meets an id outside the table (line 193) or is the failed or short backing read of a row that is in the table and owned (line 111) |
| PoolTheorems.MissesAreAccountedFor | adapter/row_store.cpp:154-183 | misses = evictions + occupied slots + misses not inserted yet, for each layer in every reachable state |
| PoolTheorems.UniqueRowsAreCountedOnce | adapter/row_store.cpp:156-172 | the unique counter plus the threads past a winning swap equals the set bits of the bitmap |
| PoolTheorems.CacheStaysCoherent | adapter/row_store.cpp:122-184 | under every schedule, in each layer's store, each key sits in its set with its backing row's bytes, and the cache is the replay of the fills in lock order |
| PoolCounts.BitsAreMarkedRows | adapter/row_store.cpp:156-172 | in every reachable state the bit (id - lo) % 8 of byte (id - lo) / 8 is set iff row id was marked, the unique counter and the threads past a winning swap make the number of marked rows, and every row that was missed is marked or has a thread at the bitmap |
| PoolCounts.DistinctMissesAreCounted | adapter/row_store.cpp:156-172 | once `run` has returned, under every schedule, the bit of a row is set iff the row was ever missed, and the unique counter is the number of distinct rows that were |
| PoolCounts.LookupsAreCounted | adapter/row_store.cpp:127-155 | once `run` has returned, hits and misses of a layer are together the owned positions that its jobs asked for |
| PoolProgress.StepsAreBounded | adapter/row_store.cpp:256-290 | every step of every thread lowers one measure of the whole pool, spurious wake-ups aside |
| ServeSteps.StepKeepsInv | adapter/row_store.cpp:122-184 | each shared access of one lookup keeps the store coherent and its thread's bytes exact |
| ServeSteps.StepKeepsOthers | adapter/row_store.cpp:122-184 | no shared access invalidates what another thread has read or is about to insert |
| ServeSteps.StepConserves | adapter/row_store.cpp:154-183 | the book-keeping of misses, evictions, live slots, bits and the unique counter balances at every step |
| ServeSteps.StepCounts | adapter/row_store.cpp:127-155 | an owned position is counted exactly once, as a hit or as a miss |
| ServeSteps.StepProgresses | adapter/row_store.cpp:164-168 | a failed compare-and-swap is progress: the byte has fewer clear bits left |
| SeenBits.MarkOne | adapter/row_store.cpp:159-170 | marking a row whose bit is clear sets exactly one bit |
| CacheModel.HitIsExact | adapter/row_store.cpp:127-137 | in a coherent cache a hit returns the row of the backing table |
| CacheModel.InsertKeepsCoherence | adapter/row_store.cpp:173-183 | inserting a fetched row keeps the cache coherent, duplicates included |
| CacheModel.InsertOccupies | adapter/row_store.cpp:176-182 | an insertion occupies one more slot exactly when it evicts nothing |
| Residency.ResidentIffRecentlyFilled | adapter/row_store.cpp:127-137 | a row is resident if and only if it is among the last `ways` fills of its set, for every access sequence |
| Residency.FilledRowStays | adapter/row_store.cpp:173-182 | a filled row hits, with its exact bytes, until `ways` later fills of its set |
| Residency.SetsAreIndependent | adapter/row_store.cpp:125-129 | the contents of a set depend only on the fills that map to it |
| Residency.SetHoldsItsWindow | adapter/row_store.cpp:176-182 | after any fills a set holds its last `ways` fills at the ways the cursor assigned, and nothing else |
| ServeAlone.AloneIsFetch | adapter/row_store.cpp:122-205 | the pool's steps of one undisturbed thread are the serial lookup, and yield the row if owned and zeros otherwise |
| ServeAlone.FetchCounts | adapter/row_store.cpp:127-172 | a serial lookup counts one hit if the row is resident, else one miss, and one distinct row iff it was never marked before |
| SlotLayout.CacheAfterWrite | adapter/row_store.cpp:180-182 | overwriting one slot and one cursor of the flat arrays changes one way of one set and nothing else |
| RowStores.RowStore.Open | adapter/row_store.cpp:350-394 | opening yields an empty cache whose arrays fit the budget, with no room for another set, that owns the whole table; RAM mode has no cache |
| RowStores.RowStore.Range | adapter/row_store.cpp:455-476 | the range is accepted iff it lies in the table and does not move under pinned scales; it may be set again, and the store stays good iff every cached row is still owned and an attached shard fits the new range; the scales end up pinned iff they were or can be |
| RowStores.MoveUnderShard | adapter/row_store.cpp:455-462 | a run that attaches the shard of the table and then moves the range, which is accepted: the record of row 0 answers for row 1 |
| RowStores.RowStore.Attach | adapter/row_store.cpp:430-453 | a missing shard is reported as absent, a present one is attached iff the loader's check passes; the store stays good iff an attached shard's records are the checkpoint's |
| RowStores.RowStore.Look | adapter/row_store.cpp:127-138 | the scan of a set's keys finds what the abstract cache holds for the id |
| RowStores.RowStore.MarkSeen | adapter/row_store.cpp:158-172 | the row's bit is set and counted the first time only |
| RowStores.RowStore.Put | adapter/row_store.cpp:173-183 | the victim slot is overwritten, the cursor advances, an eviction is counted if the slot was live |
| RowStores.RowStore.FetchRow | adapter/row_store.cpp:122-184 | it succeeds iff the row is resident or its reads are answered in full; the row returned is the table's, and the new store and read count are the ones the specification gives |
| RowStores.RowStore.ReadBacking | adapter/row_store.cpp:139-153 | a missed row is read exactly, by whichever path is configured, unless a read comes up short, and then the lookup aborts |
| RowStores.Serve | adapter/row_store.cpp:186-205 | positions are served in order until one cannot be; if all were, every position shows its row if owned and zeros otherwise; nothing else is written |
| ServeTrail.TrailPoint | adapter/row_store.cpp:191-204 | the points a pass goes through are those of the serial specification, and each position it served has its id in the table and, if owned, hits or has its reads answered in full |
| ServeTrail.PassCounts | adapter/row_store.cpp:186-205 | a serial pass counts every owned position once, and its unique counter stays the number of distinct rows missed |
| ServeTrail.MissedBit | adapter/row_store.cpp:158-172 | in a store so counted the bit (id - lo) % 8 of byte (id - lo) / 8 is set iff row id was missed |
| RowStores.Geometry | adapter/row_store.cpp:380-382 | the ways are the wanted ones clamped to 1..16, and the sets are the most that the budget pays for |
| Backing.AlignedReadFits | adapter/row_store.cpp:105-108 | an aligned read of a row at any offset covers it and fits 8192 bytes |
| Backing.EnoughIff | adapter/row_store.cpp:105-111 | a read is not short exactly when what it returns from the start of the offset's page includes the last byte wanted |
| Backing.FullAnswersPin | adapter/row_store.cpp:331-344 | if every read is answered in full, or up to the end of the file, all reads of the pin loop make progress |
| Backing.ReadFrom | adapter/row_store.cpp:100-114 | a read returns exactly the bytes asked for, and aborts iff the page read comes up short of them |
| Backing.PinScales | adapter/row_store.cpp:310-346 | the scales are pinned iff there are some and the table is resident or every read that is made for them makes progress; the copy is then exactly the owned scale bytes, under any sequence of short reads |
| MissPaths.ReadMissed | adapter/row_store.cpp:139-153 | packed record, weight plus pinned scale, and two reads all give the same 264 bytes, and abort iff a read of theirs comes up short |
| MissPaths.PinnedScale | adapter/row_store.cpp:147-149 | indexing the pinned copy from the range's start gives the row's scale bytes |
| MissPaths.ReadPacked | adapter/row_store.cpp:140-144 | the packed record of a row is the row, unless its one read comes up short |
| MissPaths.MovedRangeFitsIff | adapter/row_store.cpp:140-144 | a shard packed for one range serves another, no longer one, iff each of its rows equals the row packed in its place |
| MissPaths.PackerIsFaithful | scripts/pack_engram.py:65-94 | what the packer writes is accepted by the loader and holds the checkpoint's rows |
| Packing.PackLayer | scripts/pack_engram.py:51-97 | a target of the expected size is kept; otherwise it gives up iff a read comes up short, the checkpoint ends early or a write raises, and else leaves the whole shard of the rank's share, between num*r/tp and num*(r+1)/tp rounded down, if every write was complete and a shorter file if one was not |
| Packing.WriteShard | scripts/pack_engram.py:68-94 | the same for the loop alone: a completely written file does not depend on the chunk size |
| Packing.OnlyWholeShardsAreAccepted | adapter/row_store.cpp:444-450 | of what the packer can leave behind the loader accepts exactly the whole shard, and its records are the table's rows |
| Packing.AcceptedExactlyWhen | adapter/row_store.cpp:430-453 | among all files the loader accepts exactly those that begin with the six words the packer writes for this layer, range and table, give a whole header and are long enough for the rows |
| Packing.RecordsAreNotChecked | adapter/row_store.cpp:444-450 | a shard with the right header is accepted whatever its records are |
| Packing.PackedShardIsAccepted | adapter/row_store.cpp:430-453 | header and size pass the loader's check, and each record is weight ++ scale of its row |
| Packing.EveryRankAcceptsItsShard | scripts/pack_engram.py:54-66 | packer and loader compute the same range, so every rank accepts its own shard |
| Packing.WrongShardIsRefused | adapter/row_store.cpp:444-446 | a shard of another layer, range or table is refused |
| Packing.BytesRoundTrip | scripts/pack_engram.py:66 | little-endian header words read back as written |
| Ownership.LoIsShare | adapter/engram_backend.py:140-141 | a rank's first row is its share num*r/tp rounded down |
| Ownership.SharesAreEven | adapter/engram_backend.py:140-141 | every rank owns num/tp rows or one more, and exactly num/tp if tp divides num |
| Ownership.RangesPartition | adapter/engram_backend.py:140-142 | every row has exactly one owner, for every size and rank count, and its owner owns no more than its even share |
| RankSums.GatherAcrossRanks | adapter/engram_backend.py:165 | adding up what all ranks served for an id gives the row of the whole table |
| Embedding.EngramEmbedding.Owned | adapter/engram_backend.py:195-230 | over any history of calls of any sizes, every index yields its row if owned and zeros otherwise, from staging that earlier calls left stale; it is refused iff it is captured and no earlier call's size lay between the same two powers of two, and aborts iff some position cannot be served |
| Embedding.EngramEmbedding.StagingFor | adapter/engram_backend.py:200-215 | each count's descriptor keeps pointing into the staging of its size class; it is refused iff that class is new during capture |
| Embedding.CapacityHolds | adapter/engram_backend.py:200 | the capacity holds the count and is less than twice as large |
| Embedding.CapacityIff | adapter/engram_backend.py:200 | the capacity is the power of two 2^k exactly for the counts in (2^(k-1), 2^k] |
| Embedding.SameCapacityIff | adapter/engram_backend.py:200-203 | two counts share staging iff they lie between the same two powers of two |
| GatewayDelivery.ClientSeesPrefix | gateway/concurrency_proxy_v2.py:388-590 | on every exit path the client's frames, heartbeats aside, are a prefix of the engine's chunks in order and at most one error frame behind them |
| GatewayDelivery.SilentOnlyIfErrorDropped | gateway/concurrency_proxy_v2.py:388-555 | a stream that ends at DONE is neither complete nor ended by an error frame if and only if the error frame was dropped at a full queue |
| GatewayDelivery.DoneWithoutDropIsHonest | gateway/concurrency_proxy_v2.py:388-555 | with no counted drop, DONE means clean engine EOF with every chunk delivered, or an error frame last |
| GatewayDelivery.DoneIsStillComing | gateway/concurrency_proxy_v2.py:527-541 | while a consumer waits on an empty queue the producer has not ended, and the step that ends it queues DONE |
| GatewayAnswers.OnlyAcceptedIsRelayed | gateway/concurrency_proxy_v2.py:428-438 | over any run: once anything was read, or the producer is at its reads, the engine's last answer was 200 |
| GatewayAnswers.RefusedIsAnError | gateway/concurrency_proxy_v2.py:428-452 | if the engine's last answer was not 200, a stream that ends at DONE without a counted drop told the client the error frame and nothing else |
| GatewayAnswers.GivesUpAfterAllTries | gateway/concurrency_proxy_v2.py:415-452 | there are at most RETRY_CONNECT + 1 attempts; after a failed connection or a 5xx the producer gives up only when all are used or it was cancelled, and goes on only after such an answer |
| GatewayAnswers.RecordsAreWhatWasRead | gateway/concurrency_proxy_v2.py:455-521 | the model's records of the engine's chunks and of its clean end are exactly what the run's reads returned |
| GatewayAnswers.NoFaultNoError | gateway/concurrency_proxy_v2.py:388-626 | without a failed attempt, a bad answer, a timeout, a failed read or a broken write no error frame is ever tried |
| GatewayTasks.FramesAreCounted | gateway/concurrency_proxy_v2.py:400-406 | over any run a heartbeat is queued at every beat that finds room, and the client has one frame for every write that went through |
| GatewayTasks.BeatsUntilCleanup | gateway/concurrency_proxy_v2.py:400-406 | heartbeats run exactly until the handler cleans up |
| GatewayTasks.StopsHaveCauses | gateway/concurrency_proxy_v2.py:533-555 | the consumer stops only at DONE, the lifetime limit, or a write that times out, is reset or breaks, or by cancellation, and under the name of that cause |
| GatewayTasks.DoneIsNotCut | gateway/concurrency_proxy_v2.py:538-546 | over any run the lifetime limit never strikes at DONE: the frame that was due when it cut is another one |
| GatewayTasks.CrashIsReported | gateway/concurrency_proxy_v2.py:594-601 | once the handler has seen that the consumer crashed, an error frame has been tried |
| GatewayTasks.QuietExactlyWhen | gateway/concurrency_proxy_v2.py:602-626 | behind the end of the response nothing can happen any more iff the consumer has stopped and the producer has ended or waits to queue DONE on a full queue |
| GatewayTasks.ProducerCanBeLeftBehind | gateway/concurrency_proxy_v2.py:529-531 | a run that reaches the latter: a client stops reading, its write times out, and the cancelled producer waits for room for DONE for good |
| GatewayAlone.StepsAloneUnlessHung | gateway/concurrency_proxy_v2.py:557-626 | until the response has ended the gateway can take a step of its own, timers included, if and only if it is not waiting for a first byte without a budget, with the consumer stopped or at an empty queue |
| GatewayAlone.EveryResponseEnds | gateway/concurrency_proxy_v2.py:400-626 | a response takes at most 4 * RETRY_CONNECT + 21 steps, 3 more for each heartbeat and 4 for each chunk read, whatever tasks, network and clock do; where the gateway alone cannot go on it has ended or is hung |
| GatewayAlone.BudgetSuffices | gateway/concurrency_proxy_v2.py:572-588 | from any reachable state the gateway alone ends the response within that measure, or hangs; with a first-token budget it ends it |
| GatewayAlone.SilentEngineHolds | gateway/concurrency_proxy_v2.py:577 | without a budget, an engine that has accepted and says nothing keeps the handler waiting for as long as the client stays, whatever the heartbeat, the lifetime limit and the write timeout do |
| GatewayAlone.LifetimeLimitCanHang | gateway/concurrency_proxy_v2.py:542-546 | such a state is reached: the lifetime limit has stopped the consumer and the handler waits on |
| GatewayAlone.LeavingReleases | gateway/concurrency_proxy_v2.py:591-626 | a client that leaves releases a handler that hangs |
| GatewayExits.HonestExactlyWhen | gateway/concurrency_proxy_v2.py:388-626 | in every reachable state, on every exit: the client has the whole answer or an error frame last if and only if the clean end or the error frame was queued and nothing queued is missing |
| GatewayExits.CutIsSilentExactlyWhen | gateway/concurrency_proxy_v2.py:542-555 | a lifetime cut, and a write that times out, fails or is reset, is silent if and only if it withholds a chunk or an error frame, or the producer had not reached its end, or its error frame had been dropped |
| GatewayLimits.TotalTimeoutIsSilent | gateway/concurrency_proxy_v2.py:542-546 | a run in which the client reads a chunk and the lifetime cut then loses the rest of a complete answer, with no error frame and no counted drop |
| GatewayLimits.WriteTimeoutIsSilent | gateway/concurrency_proxy_v2.py:547-553 | the same for a write that a slow client lets time out |
| GatewayLimits.ErrorFrameCanBeDropped | gateway/concurrency_proxy_v2.py:388-398 | a run in which the engine fails behind one slow write and 256 queued chunks: the error frame meets the full queue, and the client receives part of an answer and a clean DONE |
| GatewayAdmission.SlotsAndGaugesAreConserved | gateway/concurrency_proxy_v2.py:179-193 | free slots + holders = MAX_CONCURRENCY, the gauges are the live and waiting counts, the refusal counters count refusals |
| GatewayAdmission.PlaceholdersAreLiveStreams | gateway/concurrency_proxy_v2.py:351-375 | the in-flight table is exactly the keys of live streams, one stream per key |
| GatewayAdmission.RefusedIffInFlight | gateway/concurrency_proxy_v2.py:352-358 | a stream is refused as a duplicate if and only if a live stream has its key |
| GatewayAdmission.NothingLeaks | gateway/concurrency_proxy_v2.py:602-626 | when all requests are answered, on whatever path, every slot is free and no key is left |
| GatewayFates.AnswersHaveCauses | gateway/concurrency_proxy_v2.py:179-193 | over any run a request is answered 429 for the queue iff its last event was the timeout of its wait, as failed iff its client left or its body or stream could not be had, as served iff its relay or stream ended, as duplicate only at its placement; the counters count timeouts and arrivals |
| GatewayFates.AdmittedIffSlotFree | gateway/concurrency_proxy_v2.py:179-193 | a waiting request can be admitted iff fewer than MAX_CONCURRENCY requests hold a slot |
| GatewayFates.EveryRequestIsAnswered | gateway/concurrency_proxy_v2.py:179-193 | a run has at most six steps for each arrival; a request without an answer can always take a step; where none can, every slot and key is free |
| BodyKey.SameKeyIff | gateway/concurrency_proxy_v2.py:311-319 | two bodies share a key if and only if they have the same length and first MiB |
| BodyKey.SmallBodiesHaveOwnKeys | gateway/concurrency_proxy_v2.py:311-319 | up to a MiB the key identifies the body |
| BodyKey.LargeBodiesCollide | gateway/concurrency_proxy_v2.py:311-319 | two different larger bodies with one key |
| Placeholders.ReplaceRemovesAll | gateway/concurrency_proxy_v2.py:283-286 | after `replace` the pattern does not occur, not even across a seam |
| Placeholders.CountIsOccurrences | gateway/concurrency_proxy_v2.py:285 | for a border-free pattern `count` is the number of all its occurrences |
| Placeholders.CountZeroIff | gateway/concurrency_proxy_v2.py:284-287 | the count is zero if and only if the pattern does not occur, and then nothing changes |
| Placeholders.ReplaceLength | gateway/concurrency_proxy_v2.py:286 | each replacement changes the length by the same amount |
| Placeholders.ReplaceKeepsTheRest | gateway/concurrency_proxy_v2.py:284-286 | for every text there are count + 1 parts without the pattern, of which the text is the join by the pattern and the result the join by the replacement |
| Placeholders.PlaceholderFacts | gateway/concurrency_proxy_v2.py:259-260 | the placeholder is border-free and shares no character with its replacement |
| Escapes.TriggerMissesNoneIff | gateway/concurrency_proxy_v2.py:268-273 | the byte trigger misses no placeholder in any text of a client iff the client's encoding of the placeholder itself holds the trigger |
| Escapes.PlainLettersAreSeen | gateway/concurrency_proxy_v2.py:268-270 | that is so for every encoder that leaves the trigger's ASCII letters alone |
| Escapes.EscapedLetterIsMissed | gateway/concurrency_proxy_v2.py:272-273 | an encoder that always escapes one of these letters hides every placeholder from the trigger |
| Sanitizer.CleanIsUntainted | gateway/concurrency_proxy_v2.py:281-292 | no string value of a sanitized tree holds the placeholder |
| Sanitizer.CleanIsReplaced | gateway/concurrency_proxy_v2.py:281-292 | the sanitized tree has the same shape, keys and scalars, and its string values are the replaced ones, in order |
| Sanitizer.CleanKeepsTheRest | gateway/concurrency_proxy_v2.py:284-286 | each of its string values keeps every character around its placeholders |
| Sanitizer.NoHitsNoChange | gateway/concurrency_proxy_v2.py:294-297 | the count is zero if and only if no value holds the placeholder, and then the tree is unchanged |
| Sanitizer.SanitizingIsIdempotent | gateway/concurrency_proxy_v2.py:281-292 | sanitizing twice is sanitizing once, and counts nothing the second time |
| Sanitizer.HitsAreOccurrences | gateway/concurrency_proxy_v2.py:285 | the count of a string value is the number of placeholders in it |
| Sanitizer.KeysAreKept | gateway/concurrency_proxy_v2.py:290-291 | dictionary keys pass through, placeholders included |
| Sanitizer.KeyPlaceholderSurvives | gateway/concurrency_proxy_v2.py:290-291 | a body whose placeholder is in a key is not changed |
| Sanitizer.Gateway.Walk | gateway/concurrency_proxy_v2.py:281-292 | the walk with its shared count returns the cleaned tree and adds exactly its hits |
| Sanitizer.Gateway.Sanitize | gateway/concurrency_proxy_v2.py:263-308 | a body is rewritten and counted iff the switch is on, the path is a chat or responses path, the body holds the trigger, parses, is tainted and can be encoded again; otherwise it passes verbatim |
| PageLayout.LanesAreApart | runtime/flash_mla_sm120.py:83-113 | no two lanes of one layout share a place: not of one token, nor of two, nor data and scales |
| PageLayout.CopiedTokenReadsSame | runtime/flash_mla_sm120.py:83-113 | a token whose 64-token page was copied reads the same 72 data lanes and scale lane from either layout |
| PageSplit.CopyLanes | runtime/flash_mla_sm120.py:416-430 | the tiles of masked lanes copy the range and leave every other lane alone |
| PageSplit.SplitProgram | runtime/flash_mla_sm120.py:395-430 | one program copies the 64 tokens of a selected page, from and to where its 32-bit products say, and writes nothing else; it fails iff that is outside the pool or the buffer |
| PageSplit.OtherSlotsStay | runtime/flash_mla_sm120.py:410-411 | programs write disjoint lanes |
| PageSplit.SplitGrid | runtime/flash_mla_sm120.py:539-554 | in whatever order the programs run, the buffer is what their copies make of it; it fails iff one of them does |
| PageSplit.GridIsExact | runtime/flash_mla_sm120.py:407-430 | if the copying programs have the right bases, then in any order they fill exactly their pages with the images of their tokens, and all else is unchanged |
| PageSplit.WholePoolIff | runtime/flash_mla_sm120.py:410-411 | a conversion of the whole pool stays inside the pool and the buffer iff the bases of the last page are below 2^31 lanes |
| PageSplit.CopiesLandIff | runtime/flash_mla_sm120.py:404-411 | with touched indices, in a pool of up to 32 GiB, a conversion stays inside iff the base of every copied page is below 2^31 lanes |
| PageSplit.LargePoolStrays | runtime/flash_mla_sm120.py:410 | a pool of 114718 pages of 256 tokens, whose token indices fit 32 bits easily, is read outside |
| PageSplit.MarkPages | runtime/flash_mla_sm120.py:434-453 | exactly the pages of valid indices are flagged |
| PageSplit.SplitKeeps | runtime/flash_mla_sm120.py:464-470 | after a grid whose copied pages have the right bases every referenced token reads the same, and pages that were not copied keep what they held |
| PageSplit.SplitBuffers.SplitTo64 | runtime/flash_mla_sm120.py:456-560 | on persistent, partly stale buffers: it fails iff a copied page lies outside; if the copied pages have the right bases, referenced tokens read the same and uncopied pages keep their contents; other tags' buffers do not change |
| PageSplit.SplitBuffers.ConvertBoth | runtime/flash_mla_sm120.py:231-256 | converting the extra source leaves the primary source's tokens readable, each source's copied pages having the right bases |
| Argmax.TruncDivRounds | sglang-overlay/fast_argmax.py:23 | the kernels' integer division rounds toward zero |
| Argmax.TileIsArgmax | sglang-overlay/fast_argmax.py:28-33 | a tile's maximum and lowest lane are the argmax of the part it covers, masked lanes included |
| Argmax.TakeBetter | sglang-overlay/fast_argmax.py:34-36 | folding in a tile keeps the lowest index of the maximum so far |
| Argmax.ArgmaxPartial | sglang-overlay/fast_argmax.py:18-38 | one program finds the argmax of its part, or nothing if the part is empty or the part size wraps |
| Argmax.PartFits | sglang-overlay/fast_argmax.py:23-27 | no 32-bit product or tile bound wraps unless rounding the width up to the splits does, and then every part is empty |
| Argmax.FinalIsArgmax | sglang-overlay/fast_argmax.py:42-50 | the least index among the parts that attain the maximum is the row's argmax |
| Argmax.ArgmaxIsUnique | sglang-overlay/fast_argmax.py:9 | a row has one lowest index of its maximum, so the result is determined |
| Argmax.FastRowArgmax | sglang-overlay/fast_argmax.py:56-68 | every row yields, for widths 1 to 2^31 - 64, its first plus infinity, else the first of its largest reals, else 0; and the width itself otherwise |
| ExpertParallel.CapFor | adapter/moe_b12x.py:165-172 | the capacity holds the batch; it is refused only above every rung |
| ExpertParallel.CapIsSmallest | adapter/moe_b12x.py:165-172 | on a sorted ladder no smaller rung would hold the batch |
| ExpertParallel.LayerState.Run | adapter/moe_b12x.py:397-425 | the first rows of the capacity's buffer hold this rank's partial outputs, its other rows and other buffers are unchanged, and a batch above the ladder changes nothing |
| ExpertParallel.SlotIsComputedOnce | adapter/moe_b12x.py:416-421 | exactly one rank computes each slot; the others add zero |
| ExpertParallel.MixIsSum | adapter/moe_b12x.py:413-421 | the mixture is the sum over the slots of weight times expert output |
| ExpertParallel.PartialsAddUp | adapter/moe_b12x.py:413-421 | the partial outputs of all ranks add up to the full top-k mixture |
| ExpertParallel.AllReduceIsMixture | adapter/moe_b12x.py:397-425 | the all-reduce of the ranks' runs is the mixture, for every token and component |
| PaddedProduct.ProductIsSum | adapter/shared_pad_k.py:210-237 | the block-scaled product is the sum over its blocks of both scales times the sum of the products of code and weight |
| PaddedProduct.PaddingIsExact | adapter/shared_pad_k.py:120-123 | the block-scaled product over 640 equals the one over 576, for any tail scales and any tail activations |
| PadK.EncodableIff | adapter/shared_pad_k.py:112-118 | the scales that are accepted are infinity and the powers of two from 2^-126 to 2^127 |
| PadK.OneIsOne | adapter/shared_pad_k.py:122-123 | the scale of the added columns is the float 1.0 |
| PadK.Layer.PadWeight | adapter/shared_pad_k.py:91-131 | weights get a zero tail and scales two more columns of ones, or the layer is refused unchanged, for exactly the listed reasons: no scales, their shape, their type, their values |
| PadK.Layer.Prepare | adapter/shared_pad_k.py:182-194 | a layer named like the down projection with another shape is refused; an unpadded one is padded |
| PadK.InputBuffers.PadInput | adapter/shared_pad_k.py:141-166 | over any call history the result is the input in columns 0-575 and zero in 576-639, whether the buffer is new, reused or bypassed |
| PadK.InputBuffers.Linear | adapter/shared_pad_k.py:210-237 | the padded layer returns the unpadded layer's product; a quantized input is refused |
| StepCursor.Advance | benchmarks/pr_engine_steps.py:119-124 | one cell's turn takes exactly the steps whose earliest containing window is its own |
| StepCursor.Attribute | benchmarks/pr_engine_steps.py:116-125 | the cursor equals the quadratic attribution, even when windows overlap or nest |
| StepCursor.OwnerIsEarliest | benchmarks/pr_engine_steps.py:51-55 | the owner's window contains the time, no earlier one does, and without an owner none does |
| StepCursor.KeptOnce | benchmarks/pr_engine_steps.py:125 | what the cells keep is, as a multiset, the steps that lie in some window |
| StepCursor.OwnedIffInSomeWindow | benchmarks/pr_engine_steps.py:119-124 | a step has a cell if and only if some window contains it |
| SweepPeak.BalanceIsNet | benchmarks/render_report_tables.py:256-266 | starts less ends are the streams in flight less the streams that ended before they started and are open backwards, for any intervals |
| SweepPeak.SweepFindsBalance | benchmarks/render_report_tables.py:262-266 | the sweep finds the largest balance of starts over ends at any instant, for any intervals |
| SweepPeak.SweepFindsPeakIff | benchmarks/render_report_tables.py:262-266 | the sweep's peak is the largest number of streams in flight if and only if no stream is ever in flight or that number is reached at an instant with no stream open backwards |
| SweepPeak.SweepFindsPeak | benchmarks/render_report_tables.py:256-266 | in particular for intervals that end no earlier than they start: the largest number of streams with t0 <= t < end at once |
| SweepPeak.BackwardSpanHidesAStream | benchmarks/render_report_tables.py:261 | two intervals, one ending before it starts, for which the sweep misses a stream |
| SweepPeak.SpansAreStreams | benchmarks/render_report_tables.py:256-261 | at any time as many intervals are open as records are in flight: a record without an end ends with its last byte, and without that is never in flight |
| SweepPeak.PrCellClientLayer | benchmarks/render_report_tables.py:236-267 | the layer is absent iff no record has a start; else the rounded spread and the count are those of the records that have one, and the peak is the largest number of records in flight exactly under the condition of `SweepFindsPeakIff` |
| SweepPeak.NearestIsNearest | benchmarks/render_report_tables.py:267 | the spread is rounded to the nearest tenth of a millisecond, and of two equally near to the even one |
| SweepPeak.TenthIsNearest | benchmarks/render_report_tables.py:267 | no other tenth is nearer than the rounded spread |
| Sorting.SortIsSorted | benchmarks/pr_engine_steps.py:117 | sorting keeps the elements and orders them |
| Sorting.SortIsStable | benchmarks/pr_engine_steps.py:74 | elements that tie keep their order |

## Left out

- Argmax.FastRowArgmax: rows are separate sequences, so the product of row and stride in the kernels' addresses is not modelled; a width of 2^31 or more is not an `int32` argument and is excluded; NaN is excluded.
- StepCursor.Attribute: the table cells computed from the attributed steps and the archive, which is deduplicated by timestamp, are not modelled.
- RowStores.RowStore.FetchRow: lookups are modelled on a store that is good; what a lookup on a store with a foreign shard or a moved range returns is not.
- PoolTheorems.ReturnedLookupIsSerial: sequential consistency is assumed; the relaxed and acquire/release orders are not modelled.
- PoolTheorems.TicketsAreBounded: 64-bit counters do not wrap in the model.
- PageSplit.SplitProgram: a page of 2^31 lanes or more, whose stride is no 32-bit constant, is wrapped all the same; what a program does to memory outside the pool and the buffer is not modelled beyond its failure.
- PageSplit.MarkPages: more than 2^31 - 1024 indices, at which the lane offsets of the mark kernel wrap, are not modelled.
- GatewayAlone.StepsAloneUnlessHung: the 10 s limit on the TCP connect (line 422) is not told apart from the wait for the answer behind it, which has none.
- GatewayAlone.EveryResponseEnds: steps are counted, not time; that the event loop picks a task that can step, and cancellation races inside asyncio, are not modelled.
- BodyKey.SameKeyIff: SHA-256 is taken as injective.
- ExpertParallel.LayerState.Run: the kernel is an exact sum over the reals; plans and scratch buffers shared by layers, and the telemetry counters, are not modelled.
- Pool destruction and `stop_`, the per-slot counters of `slot_mod`, statistics export, EINTR retries, mmap and O_DIRECT fallbacks: I/O and reporting.
- Lookups of fewer than 8 ids, which are served by their caller, beside a running pool job: the two layers do not look up concurrently.
- A bitmap byte is the set of its bit positions; `fail()` is an aborting result.
- Embedding.EngramEmbedding.Owned: the copy, the host callback and the gather run one after the other, as they do on one stream; the lookup is the serial one, which pooled lookups equal; `slot_mod` and the gather's decoding of rows are not modelled.
- HTTP, header forwarding, `relay_plain`, `relay_get`, JSON text, `maybe_inject`, TTFT buckets and byte counters of the gateway.
- Floating point, FP8/E8M0 decoding, and the attention, MoE and GEMM kernels that are not in the repository.
- `_parse_ladder`, `boot.py`, `sps_profiler_*.py`, `adapter/tp3_pad.py`, the benchmark clients and the other renderers: they would only add easy members.
