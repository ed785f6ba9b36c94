# AMP in Dafny

A model of the algorithmic cores of AMP, with proofs. `dafny verify dfyconfig.toml` checks all of it.

- **Page pool** (`DistinctSeqs`, `FreeStack`, `PoolConcurrent`, `PoolRecycling`, `Pool`): the sharded
  lock-free allocator, once as a state machine over single atomic accesses and once as a class, which
  refines the simple allocator.
- **Scheduler** (`SchedulerModel`, `SchedulerPlan`, `SchedulerTurns`, `SchedulerBatch`, `SchedulerRound`,
  `Scheduler`, `SchedulerRuns`): continuous batching over the pool. The class carries the source's control flow;
  the modules before it its state and actions, the shape of a round, the batch and its completion; the runs
  whole executions, of which the class's calls are instances.
- **Kernels** (`Grid`, `Gemm`, `FlashAttention`, `FlashForward`): thread blocks as phases between barriers.
  The GEMM is proved for an arbitrary addition and multiplication, attention over the reals with any `exp`
  and `log` that satisfy the usual laws, passed as parameters.
- **Caches** (`CacheCodec`, `CacheFast`, `CacheAsync`, `Sha256`, `Sha256Laws`): the entry codec, the clock cache, the
  write-behind protocol with any number of clients, and the streaming hash.
- **Speculative decoding** (`Speculative`): greedy verification and rejection sampling.
- **Tools** (`Fp8`, `SuccessiveHalving`, `SyncDiagnose`, `SyncFix`): number formats, autotuner, barrier
  detector and fixer.

Where a promise does not hold of the code, the model keeps the code, names a failing input or run and
proves exactly when the promise holds:

| promise | fails | holds exactly when |
|---|---|---|
| a run of pops and pushes keeps the pool well formed | `PoolRecycling.RecycledPopBreaksPool` | `PoolConcurrent.RunSafeIff`: every successor read is current |
| freeing keeps the pool well formed | double free | `Pool.PagePoolFast.FreePages`: distinct pages, none free |
| a round keeps pages exclusive | `SchedulerRuns.StaleOwnerReachable` | `Scheduling.Scheduler.StepComplete`: live pages are fresh |
| a block loads its key and value tiles completely | query lengths that end inside a block | `FlashForward.TilesLoadedIff`: Br divides the query length |
| an entry reads back | a length of 2^32 or more | `CacheCodec.RoundTripIff` |
| the cache answers as the disk | `CacheFast.OversizedPutShows` | `CacheFast.CacheStoreFast.Put`: the payload fits |
| L1 holds the last value put | `CacheAsync.StalePromotion` | `CacheAsync.AlwaysFreshIff`: no promotion over a newer entry |
| a flushed disk has the last value put | `CacheAsync.PutsCross` | `CacheAsync.FlushedDiskIff`: its job was queued last |
| FP8 re-encoding is idempotent | negative numbers that round to zero | `Fp8.ReencodeIff` |
| FP8 rounds to a nearest number | just below the smallest normal number | `Fp8.NearestIff` |
| halving ends | eta below 2 and several candidates | `SuccessiveHalving.HalvingEndsIff` |
| a fixed file has no new reports | `SyncFix.FixExposesOverwrite` | `SyncFix.FixedFileOverwritesIff`, for every line |
| halving agrees with grid search | all scores above 1e18 | `SuccessiveHalving.Compare` |

Code and documentation disagree in one place: include/scheduler.hpp:13-18 has a preempted sequence return to
the waiting queue, while src/scheduler.cpp:90-97 leaves it in the running list in state WAITING, where
nothing schedules it again. The model follows the code, and no statement says that every request completes.

## Model

| member | source | states |
|---|---|---|
| PoolConcurrent.RunSafe | src/pool_fast.cpp:37-71 | In every interleaving of head loads, next loads and compare-exchanges (spurious failures included) of any number of allocating and freeing threads in which no winning pop has had its snapshotted top popped and pushed back, every shard stack stays a finite acyclic list and every page is in exactly one stack or one thread's hands |
| PoolConcurrent.RunSafeIff | src/pool_fast.cpp:37-71 | Over every interleaving, all states of the run are pools that some stacks describe, with every page in one place, if and only if every winning pop reads the successor that is current when it wins |
| PoolConcurrent.PopSafeIff | src/pool_fast.cpp:39-48 | A winning pop leaves a pool that some list of stacks describes if and only if the successor it read is still the page's successor |
| PoolConcurrent.StaleSuccessorRefuted | src/pool_fast.cpp:41-42 | No list of stacks whatever describes the pool after a pop that installed a stale successor |
| PoolConcurrent.PopOnlyRunsSafe | src/pool_fast.cpp:37-51 | Runs without pushes meet the hypothesis |
| PoolConcurrent.SinglePopperSafe | src/pool_fast.cpp:37-71 | Runs with one allocating thread and any number of freeing threads meet the hypothesis |
| PoolConcurrent.SoloPop | src/pool_fast.cpp:39-48 | A thread left alone takes the top page of a stack in three accesses, as the sequential pool does |
| PoolConcurrent.SoloPush | src/pool_fast.cpp:63-70 | A thread left alone puts its page back on top of the page's stack |
| PoolConcurrent.LostRace | src/pool_fast.cpp:39-70 | A compare-exchange that fails changes no head, no link and no hand |
| PoolRecycling.RecycledPopBreaksPool | src/pool_fast.cpp:37-71 | A concrete run of two threads after which a winning pop breaks the pool: the heads carry no version tag |
| Pool.PagePoolFast.constructor | src/pool_fast.cpp:6-25 | All pages are free, page p is in stack p mod shards |
| Pool.PagePoolFast.StackOfShard | src/pool_fast.cpp:13-24 | Each stack holds exactly the free pages whose id is congruent to its shard, no page twice |
| Pool.PagePoolFast.Pop | src/pool_fast.cpp:39-48 | Takes the top free page of one shard and stamps it |
| Pool.PagePoolFast.Push | src/pool_fast.cpp:63-70 | Puts a page on top of its own shard, whatever the page: a page that is not free becomes free, a free one leaves a pool that no stacks describe, and no push repairs such a pool |
| Pool.PagePoolFast.FreePages | src/pool_fast.cpp:61-73 | On any list of pages: the pool stays well formed, exactly the given pages become free and their stamps are cleared, if and only if the pages are distinct and none is free; otherwise no stacks whatever describe it. The counter grows by their number |
| Pool.PagePoolFast.Gather | src/pool_fast.cpp:35-51 | The walk takes min(n, free pages) distinct free pages; pages of shards nearer to the hashed one, in the order of the walk, go first, and each shard gives from the top of its stack |
| Pool.PagePoolFast.Alloc | src/pool_fast.cpp:31-59 | Fails exactly when fewer than n pages are free over all shards and then restores the free set, though the free counter counts the rollback; otherwise gives n distinct free pages, those of nearer shards first, stamped with the time |
| Pool.PagePoolFast.Touch | src/pool_fast.cpp:75-78 | On any list of pages exactly those get the new stamp; the pool stays valid if and only if none of them is free |
| Pool.PagePoolFast.LeakScan | src/pool_fast.cpp:80-90 | Frees exactly the pages whose stamp is set and older than the time to live, whoever owns them, and reports how many |
| Pool.PagePoolFast.Stats | src/pool_fast.cpp:92-98 | Pages in use are the pages that are not free |
| Pool.PushSafeIff | src/pool_fast.cpp:61-71 | A push leaves a pool that some finite stacks describe if and only if the pool was described before by stacks without the page: a double free closes a cycle, and no later push opens it |
| Pool.PagePool.constructor | src/pool.cpp:7-17 | All pages are free, listed once |
| Pool.PagePool.Alloc | src/pool.cpp:25-43 | Fails exactly when fewer than n pages are free, changing nothing; otherwise takes the last n pages of the free list, last first |
| Pool.PagePool.FreePages | src/pool.cpp:45-57 | The given pages become free; pages already free are ignored and not counted |
| Pool.RunBoth | src/pool_fast.cpp:31-73 | On every history of a client that allocates and frees pages it holds, in any portions and any order, PagePoolFast and PagePool grant exactly the requests for which enough pages are free; free and held pages together stay those free at first, although the two hand out different ones |
| SchedulerModel.GrantKeeps | src/scheduler.cpp:69-81 | Giving free pages to a sequence keeps the invariant: every page is free, owned by exactly one sequence, or an orphan of a finished one; waiting and preempted sequences own none |
| SchedulerModel.PreemptKeeps | src/scheduler.cpp:90-97 | Preemption keeps the invariant; the sequence stays in the running list without pages |
| SchedulerModel.AdmitKeeps | src/scheduler.cpp:100-112 | Moving the oldest waiting sequence to the running list with its first pages keeps the invariant |
| SchedulerModel.EnqueueKeeps | src/scheduler.cpp:21-43 | Queueing a request keeps the invariant and the id order of the queues |
| SchedulerModel.AbortKeeps | src/scheduler.cpp:45-61 | Cancelling a request keeps the invariant: all its pages are free again |
| SchedulerModel.AdvanceKeeps | src/scheduler.cpp:195-199 | Completing a prefill chunk keeps the invariant and the chunk log contiguous |
| SchedulerModel.EmitKeeps | src/scheduler.cpp:200-215 | Appending a token keeps the invariant |
| SchedulerModel.RetireKeeps | src/scheduler.cpp:219-222 | Dropping a finished sequence keeps the invariant; its pages become orphans, they are not returned |
| SchedulerModel.ReclaimKeepsIff | src/scheduler.cpp:224-225 | Reclaiming a set of stale pages keeps the invariant if and only if no live sequence owns one of them |
| SchedulerModel.CoversOnce | src/scheduler.cpp:132-161 | A contiguous chunk log covers every position below its end exactly once and no other |
| Scheduling.Scheduler.constructor | src/scheduler.cpp:9-16 | An empty scheduler over a pool of sixteen shards with every page free |
| Scheduling.Scheduler.AddRequest | src/scheduler.cpp:21-43 | A full queue is refused, though the id and the request counter are used up; otherwise the request is queued last with a fresh id, its prompt and limits as given |
| Scheduling.Scheduler.AbortRequest | src/scheduler.cpp:45-61 | The sequence and its pages are released; an unknown id changes nothing |
| SchedulerModel.PagesNeededLeast | src/scheduler.cpp:64-67 | The page count is the least number of pages that holds the tokens |
| Scheduling.Scheduler.TryAlloc | src/scheduler.cpp:69-81 | Succeeds exactly when the pages owned and the free pages together suffice; grants exactly the missing pages and stamps only them, or changes nothing |
| Scheduling.Scheduler.PreemptSequence | src/scheduler.cpp:90-97 | Pages returned and their stamps cleared, progress and output dropped, state WAITING, still in the running list |
| Scheduling.Scheduler.PromoteWaiting | src/scheduler.cpp:100-112 | Admits in arrival order while the running list has room, each with the pages its tokens and one page more of tokens lack, and stops only when the queue is empty, the list is full or the front request cannot be funded |
| Scheduling.Scheduler.Pick | src/scheduler.cpp:126-130 | The running sequences in one state, all of them, oldest first |
| Scheduling.Scheduler.FundOrPreempt | src/scheduler.cpp:142-150 | Asks once, and again exactly when the pool cannot fund the first request and a decode candidate is left, after preempting the youngest; nobody is preempted while the free pages suffice |
| Scheduling.Scheduler.PrefillPhase | src/scheduler.cpp:132-161 | Each prefill candidate in order has its turn while there is budget: it is asked for the least of the prompt left, the per-step limit and the budget left, at most one decode candidate, the youngest left, is preempted for it, and the budget falls by what was funded |
| Scheduling.Scheduler.DecodePhase | src/scheduler.cpp:163-180 | Each remaining candidate in order has its turn while there is budget: it is batched with one token, or preempted itself exactly if the pool cannot fund that token |
| Scheduling.Scheduler.Schedule | src/scheduler.cpp:115-183 | The new state is the old one after a plan in which only the choice among free pages is open: admissions in arrival order until the queue is empty, the running list full or the front unfundable; the turns of the prefilling sequences, with a preemption of the youngest decoding one left exactly after a refused grant and at most one a turn; the turns of the decoding ones left, each preempting nobody but itself. Every grant has the size that is lacking. Pages in use afterwards have the new stamp if the plan granted them and their old one otherwise. Sequences not preempted keep prompt, output and progress. The batch holds distinct running sequences, prefilling before decoding and older before younger, whose state matches the entry's kind, each owning the pages for its tokens plus the entry's; its total is the budget spent; no preempted sequence is batched; every candidate left out was preempted, unfundable or beyond the budget; the preemption count is that of the plan |
| SchedulerPlan.PlanFrame | src/scheduler.cpp:90-112 | Whatever the plan, sequences it does not preempt only gain pages and may be admitted, preempted ones lose pages, output and progress, and the order of arrival stays |
| SchedulerPlan.MakesPreempt | src/scheduler.cpp:142-169 | A refused grant followed by a preemption is a rightful plan: the victim's pages are free and without a stamp, nothing was granted |
| SchedulerPlan.FreedOrGranted | src/scheduler.cpp:69-97 | Over any plan a page leaves the free set only by being granted |
| SchedulerTurns.PrefillTurnMeans | src/scheduler.cpp:132-161 | A prefill turn asks for the least of the prompt left, the per-step limit and the budget. Afterwards the sequence owns the pages for that, or the pool is still short of them and somebody was preempted or nobody was left to preempt; nobody is preempted while the pool has enough |
| SchedulerTurns.DecodeTurnMeans | src/scheduler.cpp:163-180 | A decode turn leaves the pages for one more token, or a preempted sequence exactly when owned and free pages do not suffice |
| SchedulerBatch.RoundPlanned | src/scheduler.cpp:120-180 | The three stages make one plan of that shape, from the state, the stamps and the budget each leaves to the next |
| Scheduling.Scheduler.CompletePrefill | src/scheduler.cpp:195-199 | Moves the cursor by the chunk, to DECODE at the end of the prompt |
| Scheduling.Scheduler.CompleteDecode | src/scheduler.cpp:200-215 | Appends the token, stamps the pages, and at the token limit or the end token finishes: the counter grows and the callback gets the output |
| Scheduling.Scheduler.CompleteEntries | src/scheduler.cpp:190-216 | Applies all entries; decode entries take the new tokens in order, missing ones are 0; exactly the pages of decoded sequences are stamped; the callback is told of the finished sequences, in batch order, and the counter grows by their number |
| Scheduling.Scheduler.RetireDone | src/scheduler.cpp:218-222 | Exactly the finished sequences leave |
| Scheduling.Scheduler.ScanLeaks | src/scheduler.cpp:224-225 | Frees exactly the pages whose stamp is too old; the invariant survives if and only if no page owned by a live sequence is among them |
| Scheduling.Scheduler.StepComplete | src/scheduler.cpp:186-226 | The whole state after a round: every batched sequence has its outcome, finished ones are dropped, reported in batch order with their whole output and counted, their pages orphaned; exactly the expired pages are freed, and every stamp is given; the invariant holds afterwards if and only if every page of a surviving sequence that did not decode is within the time to live |
| SchedulerRound.StaleIff | src/scheduler.cpp:206-225 | That condition on the state before the call is the one on the stamps after it |
| SchedulerRound.AppliedEntry | src/scheduler.cpp:190-216 | Whatever else is in a batch, applying it gives each batched sequence its own outcome |
| SchedulerRound.OutcomeMeans | src/scheduler.cpp:195-222 | After a round the d-th decode entry's sequence has the d-th new token, or 0 if there is none, appended to its output, and is gone exactly if that reaches the limit or is the end token; a prefill entry's cursor has moved by the chunk, to DECODE at the end of the prompt |
| SchedulerRound.ReportMeans | src/scheduler.cpp:208-214 | The callback is told of a decode entry exactly when it finishes its sequence, with the id and the whole output |
| SchedulerRound.ExpiredMeans | src/scheduler.cpp:206-225 | The pages taken back are those in use, older than 30000 ms, that no decoded sequence owns |
| SchedulerRuns.RunKeeps | src/scheduler.cpp:21-226 | Over every run of requests, cancellations and alternating schedule and step_complete in which no live page outlives the time to live, every page is in exactly one place and the published batch stays valid |
| SchedulerRuns.CompleteKeepsIff | src/scheduler.cpp:186-226 | The end of a round keeps the system invariant if and only if no surviving sequence's page is too old |
| SchedulerRuns.StaleOwnerReachable | src/scheduler.cpp:224-225 | A run from the empty scheduler, a request admitted and not scheduled until the scan, after which a page is both free and owned |
| SchedulerRuns.ScheduleIsRun | src/scheduler.cpp:115-183 | A call that makes a plan and returns a batch is a legal run of the action system that publishes the batch and ends with the same state and the same stamps on the pages in use |
| SchedulerRuns.CompleteIsAction | src/scheduler.cpp:186-226 | A call of step_complete is the action that ends the round, on state and stamps, and its condition on live pages is the action's |
| SchedulerRuns.OneRequest | src/scheduler.cpp:21-43 | From any state of the action system the object is in, a call of add_request is the action Request or, on a full queue, Refuse, and the object is in the state after it |
| SchedulerRuns.OneCancel | src/scheduler.cpp:45-61 | A call of abort_request for a known sequence outside the pending batch is the action Cancel |
| SchedulerRuns.OneRound | src/scheduler.cpp:115-226 | From any state of the action system the object is in, schedule followed by step_complete is a legal run of that plan, the published batch and the action that ends the round; the object is in the state after them, stamps included, and is valid exactly when that action keeps every live page within the time to live |
| SchedulerRuns.RoundsBounded | src/scheduler.cpp:115-226 | The number of non-empty rounds of any run from the empty scheduler is at most the sum over the requests of prompt length plus max(1, max_new_tokens) |
| SchedulerRuns.CreditIsRequested | src/scheduler.cpp:21-43 | That bound grows only by queued requests |
| SchedulerRuns.RequestedMeans | src/scheduler.cpp:21-43 | A queued request adds its prompt length and max(1, max_new_tokens), other actions nothing |
| SchedulerRuns.PrefilledOnceBeforeDecode | src/scheduler.cpp:132-199 | Whenever a sequence of a run decodes, its prefill chunks have covered each prompt position exactly once and nothing else |
| Grid.CooperativeFill | kernels/matmul.cuh:42-51 | A strided load by any number of threads in any interleaving of their iterations writes each cell exactly once with its source value, in bounds |
| Grid.AtInjective | kernels/matmul.cuh:38-51 | Row and column are determined by the linear index, so different threads and cells do not collide |
| Gemm.SharedProduct | kernels/matmul.cuh:43-54 | Where a cell of the result exists, the product of the two shared cells is the product the naive loop adds, or that of the two zero pads beyond K |
| Gemm.Accumulate | kernels/matmul.cuh:53-54 | One thread's loop over a tile continues the left fold over k, in the same order |
| Gemm.ComputePhase | kernels/matmul.cuh:53-55 | Between the barriers each thread changes only its own accumulator and only reads the shared tiles |
| Gemm.StorePhase | kernels/matmul.cuh:57-57 | Each thread inside the matrix writes its own cell once; threads outside write nothing |
| Gemm.Block | kernels/matmul.cuh:29-58 | One thread block writes exactly its cells of C, with the full fold |
| Gemm.LaunchTile | kernels/matmul.cu:16-22 | For all positive tile sizes and all shapes the grid writes every cell of C exactly once and every cell is the naive fold |
| Gemm.LaunchMatmul | kernels/matmul.cu:24-35 | A listed tile gives the product; another is refused and leaves C alone |
| Gemm.Naive | tests/verify_matmul_correctness.cpp:18-26 | The CPU reference computes the same fold |
| Gemm.ProductUnique | kernels/matmul.cuh:24-58 | Two results that are the product are equal, so the result does not depend on the tile, assuming nothing of the arithmetic but x + 0 * 0 = x |
| Gemm.UnitSelects | kernels/matmul.cuh:28-66 | In a product a row of A that is the k-th unit vector selects row k of B, and a column of B that is the k-th unit vector selects column k of A |
| FlashAttention.ScoreRow | kernels/flash_attn.cu:150-159 | Scores of a row against a tile; keys beyond the end or after a causal row are masked |
| FlashAttention.TileMax | kernels/flash_attn.cu:162-164 | The running maximum dominates the tile and is attained |
| FlashAttention.TileWeights | kernels/flash_attn.cu:168-172 | The tile's weights, scaled back by exp of the new maximum, are the softmax terms, and their sum is the growth of the denominator |
| FlashAttention.TileColumn | kernels/flash_attn.cu:178-181 | The weighted column sum is the growth of the numerator |
| FlashAttention.Rescale | kernels/flash_attn.cu:174-182 | Blending the old average and the new sum by the two scales gives the average over all keys seen |
| FlashAttention.UpdateRow | kernels/flash_attn.cu:162-186 | After a tile (m, l, o) are the maximum, the scaled sum and the normalised average of the keys seen |
| FlashAttention.MaskedTail | kernels/flash_attn.cu:133-134 | Tiles past the causal boundary add nothing to numerator or denominator |
| FlashAttention.BreakUniform | kernels/flash_attn.cu:134-134 | When Br divides Bc each row of a block takes the causal break at the tile where the first row does, so every thread meets the same barriers |
| FlashAttention.BreakUniformIff | kernels/flash_attn.cu:134-134 | For a tile shape, the rows of every block leave the key loop together if and only if Br divides Bc |
| FlashAttention.Finish | kernels/flash_attn.cu:190-196 | At the end the row is the masked softmax average over all keys and exp of the stored value is the denominator |
| FlashAttention.FlashBlock | kernels/flash_attn.cu:114-197 | For every length of keys, causal or not, every row of a block equals ordinary masked softmax attention |
| FlashAttention.SoftmaxWeights | kernels/flash_attn.cu:149-197 | An attention row is the average of the values under weights that sum to one: zero for keys the causal mask hides, otherwise exp of the scaled dot product of query and key over exp of the log-sum-exp |
| FlashForward.OffsetBounds | kernels/flash_attn.cu:210-219 | The strided offset of a tensor element is in bounds |
| FlashForward.OffsetNested | kernels/flash_attn.cu:96-100 | The strided offset is the nested row-major index |
| FlashForward.KvHeadGroups | kernels/flash_attn.cu:90-90 | With H_kv dividing H_q each key head serves exactly H_q / H_kv consecutive query heads |
| FlashForward.HeadReads | kernels/flash_attn.cu:85-100 | The slice of batch b and query head h reads exactly the elements of Q at (b, h), and of K and of V at (b, h / (H_q / H_kv)), with the scale, mask and sizes of the launch |
| FlashForward.StoreBlock | kernels/flash_attn.cu:190-196 | A block stores its rows at their own positions and changes nothing outside them |
| FlashForward.Block | kernels/flash_attn.cu:86-197 | A block of the grid writes the rows of its tile that exist and nothing else, and they are attention if the tile is complete |
| FlashForward.TilesLoadedIff | kernels/flash_attn.cu:94-147 | For the launched shapes, the live threads of every block load the whole key and value tiles if and only if the query length is a multiple of Br: threads past the end return before the strided loads |
| FlashForward.Forward | kernels/flash_attn.cu:86-197 | For every query length, over all batches and heads: every output row of a complete query tile is the attention of its head; when Br divides the query length these are all rows |
| FlashForward.ConstantValues | kernels/flash_attn.cu:86-197 | If all values in a column of a key head are equal, every finished row of its query heads has that value in that column |
| FlashForward.PickTile | kernels/flash_attn.cu:221-279 | Exactly which configurations are launched, and with which tile: Br is capped at 32, Bc = 64 falls back to 32 exactly when it exceeds the shared memory; launched shapes have Br dividing Bc and at most 1024 threads |
| FlashForward.Dispatch | kernels/flash_attn.cu:202-283 | A launch computes attention for the rows of the complete query tiles of the whole batch, with the configured scale or one over the root of the head dimension; an unsupported shape is an error and changes nothing |
| Speculative.ArgMax | src/speculative.cpp:83-84 | The first index of a largest logit |
| Speculative.GreedyStepLossless | src/speculative.cpp:71-102 | Accepted tokens and bonus of one step are what plain greedy decoding emits next, for any draft |
| Speculative.GreedyRunLossless | src/speculative.cpp:71-102 | Over any number of steps with any drafts the output is a prefix of plain greedy decoding and grows by at least one token a step |
| Speculative.RejectionSamplingClose | src/speculative.cpp:29-54 | With exact distributions over V tokens the probability of emitting x at a reached position differs from the target's by at least -2e-9 and at most (V+1)e-9, the uniform branch included |
| Speculative.AcceptLoss | src/speculative.cpp:34-39 | The mass accepted at a token falls short of the overlap of the distributions by at most 1e-9 |
| Speculative.RejectedMass | src/speculative.cpp:44-53 | The rejected mass is the positive part of target minus draft plus at most V times 1e-9 |
| Speculative.SelectsInterval | src/speculative.cpp:131-143 | A draw selects token i exactly when it lies in the i-th interval of the cumulative distribution, whose length is the token's probability |
| Speculative.ResamplesMass | src/speculative.cpp:108-143 | After a rejection the draws that give a token form the interval of the normalised positive part whose length is the mass the token has in the closeness theorem; if the positive part sums below 1e-9 the uniform draw decides, each token alike |
| Speculative.SpecDecodeEngine.VerifyGreedy | src/speculative.cpp:71-102 | Accepts the longest draft prefix of greedy tokens and returns the greedy token after it; accepted plus rejected tokens keep equal to draft tokens |
| Speculative.SpecDecodeEngine.SampleFrom | src/speculative.cpp:131-143 | The token whose cumulative interval holds the draw, the last one if none does |
| Speculative.SpecDecodeEngine.SampleFromAdjusted | src/speculative.cpp:108-129 | Uniform when the positive part sums below 1e-9, otherwise by the normalised positive part |
| Speculative.SpecDecodeEngine.Verify | src/speculative.cpp:14-66 | Accepts the longest prefix whose draws pass, then emits one token; the counters stay balanced |
| CacheCodec.Fnv1a32 | src/cache.cpp:99-103 | The checksum loop is the fold over the bytes |
| CacheCodec.FnvStepInjective | src/cache.cpp:100-102 | A step is injective in the hash and in the byte: the multiplier has an inverse modulo 2^32 |
| CacheCodec.FnvDetectsByte | src/cache.cpp:99-103 | Payloads that differ in one byte have different checksums |
| CacheCodec.FnvAppends | src/cache.cpp:99-103 | A byte is combined by exclusive or into the low byte, then the word is multiplied by 16777619 modulo 2^32 |
| CacheCodec.XorBits | src/cache.cpp:101 | Bit by bit, exactly one of the two is set |
| CacheCodec.KnownChecksums | src/cache.cpp:99-103 | The published checksums of the empty text and of "a" |
| CacheCodec.RoundTripIff | src/cache.cpp:127-169 | An entry reads back as written if and only if its length is below 2^32 |
| CacheCodec.EntryBytes | src/cache.cpp:85-96 | The entry byte by byte: "UXLC", version 1, checksum and length as little-endian words, payload |
| CacheCodec.DecodeIff | src/cache.cpp:127-151 | A file decodes to a payload exactly if it begins with the payload's entry |
| CacheCodec.StrictPrefixMisses | src/cache.cpp:127-151 | Every strict prefix of an entry is a miss |
| CacheCodec.ByteChangeMisses | src/cache.cpp:127-151 | Changing any one byte outside the length field is a miss |
| CacheCodec.CacheStore.Get | src/cache.cpp:127-151 | A miss for a missing, short, foreign or corrupt file, else the payload |
| CacheCodec.CacheStore.Put | src/cache.cpp:153-169 | The file becomes the encoded entry, which a lookup returns if and only if its length fits; other keys keep their value |
| CacheFast.ScanProps | src/cache_fast.cpp:103-124 | One pass of the clock evicts only entries whose bit is clear, clears the bits it passes, and leaves list, map and byte count consistent; if it runs to the end every entry whose bit was clear is gone |
| CacheFast.ScanUsedBytes | src/cache_fast.cpp:103-124 | A pass that runs to the end leaves exactly the bytes of the entries whose bit was set |
| CacheFast.ScanHalts | src/cache_fast.cpp:103-124 | A pass stops at the first key with room enough: before it exactly the entries with clear bits are evicted and the others stay in order with their bits cleared, after it nothing changes, so the last eviction was needed |
| CacheFast.EvictProps | src/cache_fast.cpp:97-126 | After eviction the new entry fits or the cache is empty; an entry whose bit was set is evicted only if evicting all others was not enough |
| CacheFast.CacheStoreFast.ScanOnce | src/cache_fast.cpp:103-124 | The loop over the list in place is that pass; the counter grows by the entries evicted |
| CacheFast.CacheStoreFast.EvictToFit | src/cache_fast.cpp:97-126 | The two passes; without a limit nothing changes |
| CacheFast.CacheStoreFast.L1PutLocked | src/cache_fast.cpp:81-93 | The entry is inserted last and used; the byte limit holds or it is the only entry |
| CacheFast.CacheStoreFast.Get | src/cache_fast.cpp:23-58 | Returns what the disk would; a hit sets the bit, a disk hit is promoted, a miss changes nothing |
| CacheFast.CacheStoreFast.Put | src/cache_fast.cpp:61-78 | Writes through; the cache agrees with the disk afterwards if and only if the payload fits an entry header; overwriting evicts nothing |
| CacheFast.RunHistory | src/cache_fast.cpp:23-126 | Every sequential history whose payloads fit an entry header gets exactly the answers of the disk store alone |
| CacheFast.OversizedPutShows | src/cache_fast.cpp:61-78 | After putting a payload that does not fit, a get answers from the cache and not as the disk would |
| CacheAsync.FlushedDiskIsComplete | src/cache_async.cpp:51-74 | With any number of clients, whenever flush's condition holds the disk is the initial disk with all queued jobs written in queue order |
| CacheAsync.ExitLeavesCompleteDisk | src/cache_async.cpp:10-14 | When the writer exits all jobs queued by then are on disk |
| CacheAsync.ReadYourWrites | src/cache_async.cpp:16-49 | In every interleaving of one client with the writer a get returns the last value put, else the value first on disk, however far the writer lags |
| CacheAsync.FreshKeptIff | src/cache_async.cpp:29-33 | A step keeps the last put value in L1 if and only if it does not promote a fetched value over a different L1 entry |
| CacheAsync.AlwaysFreshIff | src/cache_async.cpp:16-49 | Over every run with any number of clients L1 always holds the last values put if and only if no promotion overtakes a put |
| CacheAsync.GetsAreLinearizable | src/cache_async.cpp:16-49 | With any number of clients, while promotions overtake no put and payloads fit an entry, every get returns the value its key had in some state between the L1 lookup that began it and its return |
| CacheAsync.FlushedDiskIff | src/cache_async.cpp:37-54 | With any clients and any overlap, a flushed disk returns the last value put for a key if and only if the last job queued for the key carries it |
| CacheAsync.FlushedDiskHasLatest | src/cache_async.cpp:37-54 | In particular when puts of one key do not overlap, up to the size of the payload |
| CacheAsync.StalePromotion | src/cache_async.cpp:16-35 | A run of two clients in which a client reads the old value after its own completed put |
| CacheAsync.PutsCross | src/cache_async.cpp:37-49 | A run of two overlapping puts after which the flushed disk disagrees with L1 |
| Sha256.Schedule | src/cache.cpp:39-45 | The filled array is the message schedule of section 6.2 of RFC 6234 |
| Sha256.SHA256.Block | src/cache.cpp:26-58 | Processing a block gives the next intermediate hash value of section 6.2 of RFC 6234 |
| Sha256.SHA256.Update | src/cache.cpp:59-67 | However a message is split, whole blocks are in the hash value, the remainder in the buffer, and the length is in bits modulo 2^64 |
| Sha256.SHA256.PadZeros | src/cache.cpp:70-72 | The padding loop ends and adds the fewest zero bytes that leave eight |
| Sha256.LengthField | src/cache.cpp:73-74 | The eight bytes are the number, most significant first |
| Sha256.SHA256.HexDigest | src/cache.cpp:68-79 | Exactly the padded message of section 4.1 of RFC 6234 has been processed, and the text is its digest, eight hexadecimal digits a word |
| Sha256.HashParts | src/cache.cpp:59-79 | Every list of updates gives the digest of the concatenation |
| Sha256.HexOfInjective | src/cache.cpp:76-78 | Different words have different texts |
| Sha256.PaddedInjective | src/cache.cpp:68-75 | Different messages whose bit length fits have different padded forms |
| Sha256Laws.FunctionBits | src/cache.cpp:25-54 | Choice, majority and the four sums of section 5.1 of RFC 6234 bit by bit, with their rotation and shift distances |
| Sha256Laws.RoundIs | src/cache.cpp:46-53 | One round in sums modulo 2^32 |
| Sha256Laws.CompressIs | src/cache.cpp:46-57 | Sixty-four rounds with constants and schedule in order, then the sums with the words before |
| Sha256Laws.ScheduleIs | src/cache.cpp:39-45 | The first sixteen words are big-endian, the others follow the recurrence |
| Sha256Laws.PaddedMeans | src/cache.cpp:68-75 | The padded message: the message, a one bit, the fewest zeros that fill a block, the bit length |
| Sha256Laws.TextIs | src/cache.cpp:76-78 | Digit j of word i stands at position 8i + j, lower case, most significant first |
| Sha256Laws.ConstantGroups | src/cache.cpp:27-38 | The round constants are four groups of sixteen |
| Sha256Laws.Primes2To19 | src/cache.cpp:27-38 | Constants 0 to 7 are the first 32 fraction bits of the cube roots of the primes 2 to 19 |
| Sha256Laws.Primes23To53 | src/cache.cpp:27-38 | Constants 8 to 15, primes 23 to 53 |
| Sha256Laws.Primes59To89 | src/cache.cpp:27-38 | Constants 16 to 23, primes 59 to 89 |
| Sha256Laws.Primes97To131 | src/cache.cpp:27-38 | Constants 24 to 31, primes 97 to 131 |
| Sha256Laws.Primes137To173 | src/cache.cpp:27-38 | Constants 32 to 39, primes 137 to 173 |
| Sha256Laws.Primes179To223 | src/cache.cpp:27-38 | Constants 40 to 47, primes 179 to 223 |
| Sha256Laws.Primes227To263 | src/cache.cpp:27-38 | Constants 48 to 55, primes 227 to 263 |
| Sha256Laws.Primes269To311 | src/cache.cpp:27-38 | Constants 56 to 63, primes 269 to 311 |
| Sha256Laws.StartIs | src/cache.cpp:20-21 | The first hash value is made of the first 32 fraction bits of the square roots of the first eight primes |
| Fp8.FrexpSplits | include/fp8.hpp:42-43 | The split of a positive number into a fraction in [1/2, 1) and an exponent |
| Fp8.E4M3MagnitudeIs | include/fp8.hpp:34-62 | The bit-level encoder is the step-by-step rounding, and never reaches the NaN code |
| Fp8.E5M2MagnitudeIs | include/fp8.hpp:84-110 | The same for E5M2, which never reaches infinity from a finite number |
| Fp8.DecodeIs | include/fp8.hpp:15-31 | Both decoders give the number of the code, positive and negative |
| Fp8.ReservedCodes | include/fp8.hpp:66-82 | Which codes are not numbers, exactly |
| Fp8.SpecialCodes | include/fp8.hpp:34-88 | NaN and infinities encoded: E4M3 answers its largest number for an infinity |
| Fp8.SpecialValues | include/fp8.hpp:15-82 | Which codes decode to NaN and which to an infinity, exactly |
| Fp8.Landmarks | include/fp8.hpp:15-82 | The codes of one, of the largest and of the smallest number of both formats |
| Fp8.RoundTrip | include/fp8.hpp:33-63 | A finite number encodes to a code that decodes to a finite number, its rounding |
| Fp8.EncodeIs | include/fp8.hpp:83-111 | Sign bit and magnitude code, at most the code of the largest number |
| Fp8.MagnitudeMonotone | include/fp8.hpp:33-63 | Larger magnitudes get larger codes |
| Fp8.RoundedMonotone | include/fp8.hpp:15-63 | Encode and decode keeps order on all reals |
| Fp8.ReencodeIff | include/fp8.hpp:33-41 | Encode, decode, encode gives the same code if and only if the number is not a negative one that rounds to zero, which comes back as positive zero |
| Fp8.NormalError | include/fp8.hpp:50-62 | Relative error at most 1/16 on [2^-6, 448] for E4M3 and 1/8 on [2^-14, 57344] for E5M2 |
| Fp8.SubnormalErrors | include/fp8.hpp:45-50 | Among subnormals the error is below one step, and at most half a step exactly up to 7.5 steps for E4M3 and 3.5 for E5M2 |
| Fp8.NearestIff | include/fp8.hpp:33-63 | The code chosen is a nearest one of all finite codes, for every real, if and only if the magnitude is not between the middle of the clamped step and the smallest normal number |
| SuccessiveHalving.Halve | include/autotune_sh.hpp:22-51 | Terminates on any candidates, an empty list is an error. Round after round every item is measured once, with repetitions growing by eta up to the limit, sorted, and the best size / floor(eta) kept; the survivor is measured last. For whole eta the repetitions spent are the sum over rounds k of n / eta^k candidates times min(max_reps, min_reps * eta^k), plus max_reps. With a stationary measure the result has the least score of all candidates |
| SuccessiveHalving.EvalsAre | include/autotune_sh.hpp:34-51 | That closed form, with exactly as many rounds as leave more than one candidate |
| SuccessiveHalving.NextRepsIs | include/autotune_sh.hpp:47 | The next repetitions are eta times as many, without the fraction, up to the limit |
| SuccessiveHalving.HalvingEndsIff | include/autotune_sh.hpp:28-46 | For real eta >= 1 the loop ends, at one candidate, if and only if there was one to begin with or eta is at least 2: below that every round keeps all candidates |
| SuccessiveHalving.EvalsLogBound | include/autotune_sh.hpp:28-51 | With eta = 2 and min_reps >= 1 at most N * min_reps * floor(log2 N) + max_reps repetitions |
| SuccessiveHalving.EvalsBound | include/autotune_sh.hpp:34-46 | For every whole eta >= 2 no round costs more than the first |
| SuccessiveHalving.GridSearch | include/autotune_sh.hpp:54-68 | The least measurement below 1e18, with the first candidate that has it, or 1e18 and no candidate |
| SuccessiveHalving.Compare | include/autotune_sh.hpp:22-68 | With a stationary measure both searches return least scores, and the same score if and only if some candidate scores at most 1e18 |
| SyncDiagnose.WrittenMeans | scripts/amp_diagnose.py:138-162 | An array is in state written exactly when the latest earlier barrier or access in the scope is a write of it |
| SyncDiagnose.WasReadMeans | scripts/amp_diagnose.py:138-163 | It is in state read exactly when since the latest barrier it was read and not written |
| SyncDiagnose.ScanLine | scripts/amp_diagnose.py:145-163 | One line, for every listed name in turn, names listed twice included |
| SyncDiagnose.DetectSyncIssues | scripts/amp_diagnose.py:137-163 | Reports exactly the reads whose latest earlier barrier or access is a write, and exactly the writes of an array read since the last barrier |
| SyncFix.AnalyzeFile | scripts/amp_diagnose.py:204-218 | A read that misses a barrier, or an overwrite, is reported exactly if it is one within its kernel, from the latest marker to the next or the end of the file, of an array declared there |
| SyncFix.ScopesAre | scripts/amp_diagnose.py:67-76 | The scopes are exactly the kernels: every marker begins one, which ends at the next marker or with the file, and a file without a marker is one |
| SyncFix.ScopesApart | scripts/amp_diagnose.py:67-76 | No two scopes overlap |
| SyncFix.NamesAre | scripts/amp_diagnose.py:79-86 | The names of a scope are those declared on its lines |
| SyncFix.MarksMean | scripts/amp_suggest_fix.py:80-81 | A line is marked exactly if it reads an array declared in its kernel that was written last without a barrier since |
| SyncFix.FixLines | scripts/amp_suggest_fix.py:80-81 | The lines to fix, each once, largest first |
| SyncFix.InsertBottomUp | scripts/amp_suggest_fix.py:143-147 | Inserting from the bottom up equals inserting all barriers at once |
| SyncFix.WovenScopeClean | scripts/amp_suggest_fix.py:84-89 | Any set of barriers that covers a scope's flagged reads leaves none flagged, whatever other barriers are added |
| SyncFix.FixedFileIsClean | scripts/amp_suggest_fix.py:143-147 | Analysing the fixed file again, scopes and declarations recomputed, flags no read |
| SyncFix.Suggest | scripts/amp_suggest_fix.py:127-147 | The fixed file is the original with a barrier before exactly the flagged lines, and is clean |
| SyncFix.FixedOverwriteIff | scripts/amp_diagnose.py:149-163 | Exactly which writes are reported in a scope after any set of barriers was inserted: those on an unmarked line after an old or new barrier, with a read and no write of the array in between |
| SyncFix.FixedFileOverwritesIff | scripts/amp_suggest_fix.py:143-147 | The same for every kernel of the fixed file, whose marks are the flagged lines |
| SyncFix.FixExposesOverwrite | scripts/amp_diagnose.py:149-157 | A kernel with a declared array in which no write is reported, and whose fixed file, with the barriers the tool itself inserts, has a write reported |

## Left out

- Float rounding, the finite sentinel -1e30 (masked scores are a separate value with weight zero), BF16 conversion and fused multiply-add.
- C++ memory orders: atomic accesses are sequentially consistent steps; in the sequential pool a compare-exchange does not fail.
- Lane-level execution inside a warp: one logical thread per attention row and per GEMM cell; the loads are modelled thread by thread in any interleaving.
- FlashForward.Forward: nothing is said of the rows of a last query tile that is not complete, since FlashForward.TilesLoadedIff shows that such a block reads shared cells that nobody wrote.
- SchedulerRuns.RunKeeps: no batched sequence is cancelled between schedule and step_complete, since the batch holds raw pointers.
- Scheduling.Scheduler.Schedule: which of the free pages a grant takes is left open; one time stamp per call, taken as input; ids are handed out serially; the counters do not wrap; the page size is positive, as the division by it demands; the swapped queue is left out because nothing enters it.
- Pool.PagePoolFast.FreePages: ids are in range, since the code does not check them.
- Pool.PagePool.FreePages: owner names, reference counts and time stamps of the simple pool.
- Device memory behind pages, allocation failures of the device, and the NUMA pool, which only routes to this one.
- CacheFast.RunHistory: calls one at a time; hit and miss counters are left out.
- CacheCodec.CacheStore.Put: the file system is a map from key to bytes with atomic replacement; input and output errors, directories and the fingerprint's text are left out.
- CacheAsync.FlushedDiskIsComplete: safety only; that a waiting flush or writer is woken is not claimed, since one condition variable serves both with single notifications.
- SuccessiveHalving.Halve: eta is at least 2 unless there is at most one candidate, by SuccessiveHalving.HalvingEndsIff, and HalvingEndsIff excludes eta below 1, where the loop divides by zero; counts are unbounded integers; the sort is any function that sorts; the bound is for whole eta.
- Speculative.RejectionSamplingClose: draws are probability masses over exact distributions of one vocabulary; the random engine and temperature scaling are left out.
- Speculative.SpecDecodeEngine.Verify: the multi-head draft variant and the acceptance-rate quotient are left out.
- Fp8.RoundTrip: zero has no sign in the reals, so negative zero as an input is not told from zero.
- SyncFix.Suggest: the regular expressions that classify a line, comment stripping and indentation; the dimension-mismatch rewriting that runs before the insertion, which replaces a loop bound inside a line and touches no kernel marker, declaration, barrier or access.
- Vendor GEMM and collective calls, device queries, BF16 and FP8 kernels, the SYCL kernel, the model checker and parity scripts, bindings, web interface and benchmarks.
