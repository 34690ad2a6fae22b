# Verified models of the serving artifact

Dafny models of the stateful and arithmetic core of a modality-aware serving system for multimodal language
models, and of the tools around it, with proofs about every input, every run or every reachable state.

| Module | What it models |
|---|---|
| `QueueManager` | the scheduler's combined queue of running and waiting requests, with two positions kept up to date step by step |
| `BuildTimes`, `NinjaLog` | the event sweep that charges each build step its share of the elapsed time, and the log reader that feeds it |
| `FusedKernel`, `PreMix`, `HostLaunch`, `HeadFuse` | tiled, split reduction kernels against plain sums over the reals, and the host's choice of tiling |
| `KernelLaws` | what those kernels store, by laws that determine it without the formulas of the kernels |
| `Sinkhorn` | soft-max and Sinkhorn normalisation of a mixing matrix, in place |
| `Chunking`, `DeviceMemory`, `MallocFree` | a chunked device-memory allocator over a driver that may fail at any call |
| `EncoderProxy` | least-loaded encoder choice and the fan-out that gates a request, as interleaved steps |
| `SpinLoop` | check, arm, re-check, sleep: waiting for a store without losing a wake-up |
| `Retry` | retry with back-off around a download that cleans up after itself |
| `StreamLatency` | time to first token and inter-token latencies of four streaming loops |
| `ExperimentId`, `ResultGrouping` | experiment ids, printed and parsed, and the tables that benchmark logs are grouped into |
| `Sums`, `Wrappers` | finite sums and optional values, shared by the others |

Code that updates state in place is modelled by classes, arrays and loops. Each such method is proved against a
specification function or predicate, and the promises of the system are lemmas about those. Runs of concurrent
parts are sequences of steps from an initial state. Times and tensor entries are real numbers.

## Findings

Where the code does not meet what its comments or its callers expect, the model follows the code and a theorem
says exactly when it does.

- `update_idxs_after_preemption` asserts that a pending request stands at the head of the queue whenever the only
  running request is preempted. So preempting the only running request at the head fails, and a paused scheduler
  (no token budget) fails if the queue is headed by a running request (`PreemptLast`, `BudgetSplit`; one request is
  enough, `SoleRunnerRaises`).
- Ignoring or skipping a request lets the two positions drift (`IgnoredDrifts`; `RunExactIff` says when, over whole
  runs). After such a drift a preemption with nothing pending can make a request that was ignored pending again and
  the next scheduling make it running (`IgnoredRuns`; `FirstStep` and `AsideStaysOut` say when not). The split itself
  never fails once a request was set aside (`SplitAfterAside`).
- `update_queues` fails exactly when a running request stands behind one that is not (`UpdateQueuesExact`,
  `InvertedSplitFails`).
- A build log entry that ends before it starts, or an entry listed twice, makes the sweep raise `KeyError`
  (`SweepSafety`). Entries that all start and end at one instant make the report divide by zero
  (`SummarizeEntries`, `LengthZeroIff`). The sentinels -1 and 0 make the reported length wrong on negative times
  (`EarliestExact`, `LatestExact`).
- The fused kernel drops part of the hidden range unless the splits divide it and the threads divide a split
  (`TilingExact`). The host's choice for small batches needs a hidden size divisible by 2048 or 1024, which it does
  not check (`LaunchExact`; four tokens of hidden size 2560 fail, `NarrowLaunchDrops`).
- The host passes its number of splits as `n_splits`, a keyword that the fused kernel does not declare
  (`rps-serve/vllm/model_executor/kernels/mhc/tilelang.py:299-313` against
  `rps-serve/vllm/_tilelang_ops.py:187-206`). Unless compiling the kernel drops the keyword, the call raises. If it
  does drop it, the kernel's dynamic `split_k` is the first dimension of the output the host has allocated with that
  number (lines 261-273), and the launch has the chosen tiling all the same (`LaunchFused`).
- In the allocator a failed set-access call is not rolled back, and an error that is already recorded when the loops
  begin makes `create_and_map` leave its first handle behind (`AccessFailureLeaks`, `StaleErrorLeaks`;
  `LeftRestoresIff` says when it leaves nothing). Where there is clean-up, and room for the chunks, a single failing
  driver call leaves nothing behind (`OneFaultRestores`, `OneFaultMalloc`). A missing or raising callback leaves the
  reserved range behind (`NoCallbackLeaks`). A null return leaves the driver as it was exactly when the call failed
  before the reservation, or the mapping step undid itself and the range could be given back (`MallocRestoresIff`).
  Near the top of 64 bits a chunk size that wraps around to zero is divided by (case Trapped of `MyMalloc`), and a
  count of chunks that wraps around leaves none (`ChunksSuffice`). Freeing under the requested size gives the range
  back only if that size is a multiple of the granularity (`FreeUndoesMallocIff`, `OddSizeKeepsRange`). A failed
  allocation or free leaves its error recorded, and as long as it is, no allocation gets past the reservation
  (`LeftOverBlocks`).
- A cancelled task does not end in an `Exception`, so it does not stop a request from being forwarded: with its post
  cancelled (`CancelledGoesThrough`), or never sent (`UnsentGoesThrough`). `GatherExact` and `ForwardedMeansPosted`
  say when. Nothing in the proxy itself cancels a single task of the gather: such a cancellation would have to come
  from the HTTP client or from outside.
- A cancelled or interrupted download leaves the part it has written (`CancelledLeavesPart`); a file that no attempt
  could remove lingers (`LingersExact`; `RaiseLeavesNoFileIff`). The code retries every status of 500 and above, where
  its comment names server errors only.
- With the usage chunk that closes a stream, the chat loop always loses time between tokens and total
  (`ChatExactIff`, `UsageChunkLoses`). Two other loops read the clock twice at the first token (`RequestTgi`,
  `RequestCompletions`).
- The comment of `parse_benchmark_file` shows a `system` in the third field of an id. The library function in
  `llmperf/llmperf/utils.py` prints the approach there, which is then taken for the system, and no approach keyword:
  its ids parse only when other arguments happen to carry both keywords (`LibraryParses`, `LibraryIdUnread`). The
  runner prints both as expected (`RunRoundTrip`).

## Model

| member | source | states |
|---|---|---|
| QueueManager.CombineExact | rps-serve/vllm/v1/core/sched/queue_manager.py:125-165 | combining two queues of distinct requests gives a permutation of both, ordered by priority and then running before preempted before waiting, with each request in exactly one id set and both positions exact |
| QueueManager.SortStable | rps-serve/vllm/v1/core/sched/queue_manager.py:143-145 | requests of the same priority and kind keep their order |
| QueueManager.CombinedOrder | rps-serve/vllm/v1/core/sched/queue_manager.py:125-165 | in the combined queue the smaller priority number comes first; among equal ones no request that is not running precedes a running one, and none but waiting ones follow a waiting one |
| QueueManager.CombinedSets | rps-serve/vllm/v1/core/sched/queue_manager.py:125-165 | a request is in the running, preempted or waiting set if and only if it was handed in as running and not preempted, as running and preempted, or as waiting |
| QueueManager.PreemptSafeIff | rps-serve/vllm/v1/core/sched/queue_manager.py:204-244 | preempting goes through and keeps both positions exact if and only if: a sole running request has a pending one at the head of the queue, and if nothing is pending the request is the last of the queue |
| QueueManager.PreemptLast | rps-serve/vllm/v1/core/sched/queue_manager.py:219-232 | the assertion fails exactly when a sole running request is preempted while no pending request is at the head; otherwise the last running position is exact |
| QueueManager.ScheduleSafeIff | rps-serve/vllm/v1/core/sched/queue_manager.py:246-292 | scheduling never fails; both positions stay exact if and only if: with nothing pending behind the scheduled request, the queue ends in it or in a running request; and otherwise, with nothing running, it was at the head |
| QueueManager.SetAsideSafeIff | rps-serve/vllm/v1/core/sched/queue_manager.py:294-334 | ignoring or skipping raises exactly on a preempted request, and otherwise keeps both positions exact |
| QueueManager.SetAsideRecords | rps-serve/vllm/v1/core/sched/queue_manager.py:294-334 | the first pending request moves from the waiting ids to the ignored or to the skipped ones, and no other set changes |
| QueueManager.RunAccounted | rps-serve/vllm/v1/core/sched/queue_manager.py:204-334 | over every run each request stays running, pending, ignored or skipped, and every id that some update set aside stays recorded |
| QueueManager.FirstStep | rps-serve/vllm/v1/core/sched/queue_manager.py:204-334 | which updates keep the position of the first pending request exact: all but a preemption while nothing is pending, unless the preempted request is the last of the queue |
| QueueManager.AsideStaysOut | rps-serve/vllm/v1/core/sched/queue_manager.py:204-334 | over every run whose preemptions keep that position, no request that was set aside is running or pending again |
| QueueManager.IgnoredRuns | rps-serve/vllm/v1/core/sched/queue_manager.py:232-310 | a run in which the condition fails: a request is ignored, one is preempted with nothing pending, and the next scheduling makes the ignored one running |
| QueueManager.SplitAfterAside | rps-serve/vllm/v1/core/sched/queue_manager.py:167-202 | after every run that has set a request aside the split never fails, whatever the positions, and hands out exactly the running requests and the others, in order; no request set aside is among the running ones if the preemptions keep the position of the first pending request |
| QueueManager.RunExact | rps-serve/vllm/v1/core/sched/queue_manager.py:204-292 | over every run of preemptions and schedulings that raises nothing, with no request set aside, the incremental positions equal those of a search from scratch |
| QueueManager.RunExactIff | rps-serve/vllm/v1/core/sched/queue_manager.py:204-334 | over every run, requests set aside included, the incremental updates raise nothing and have at every step the state of the slow form that searches from scratch, if and only if every update is safe in the state the slow form has before it |
| QueueManager.StepSafeIff | rps-serve/vllm/v1/core/sched/queue_manager.py:204-334 | what safe means for each update, on the state before it: it goes through and keeps both positions exact |
| QueueManager.IgnoredDrifts | rps-serve/vllm/v1/core/sched/queue_manager.py:288-310 | after an ignored head, scheduling the next request leaves the last running position at the ignored one |
| QueueManager.SoleRunnerRaises | rps-serve/vllm/v1/core/sched/queue_manager.py:219-232 | in a queue of one running request preempting it, or having no budget for it, fails the assertion |
| QueueManager.InvertedSplitFails | rps-serve/vllm/v1/core/sched/queue_manager.py:184-187 | a waiting request combined in front of a running one makes the split fail |
| QueueManager.UpdateQueuesExact | rps-serve/vllm/v1/core/sched/queue_manager.py:167-202 | splitting by position equals filtering by id set, and fails if and only if a running request stands behind one that is not running |
| QueueManager.KeepConserves | rps-serve/vllm/v1/core/sched/queue_manager.py:169-182 | the split loses and duplicates no request |
| QueueManager.PreemptRestExact | rps-serve/vllm/v1/core/sched/scheduler.py:900-916 | the pass over what the budget left goes through if and only if nothing is to be preempted, a running request stays below its start, or the head is not running; then exactly the running requests below its start are left, positions exact |
| QueueManager.BudgetSplit | rps-serve/vllm/v1/core/sched/scheduler.py:900-918 | if all requests below the start are running, pass and split hand out exactly those as running and the rest as waiting; it raises if and only if it starts at a running head |
| QueueManager.Manager.CombineQueues | rps-serve/vllm/v1/core/sched/queue_manager.py:125-165 | the method computes the whole new state of the specification; for distinct requests both positions are exact and every request is running or pending |
| QueueManager.Manager.UpdateIdxsAfterPreemption | rps-serve/vllm/v1/core/sched/queue_manager.py:204-244 | raises exactly when the specification does and otherwise reaches its state; exact positions over running and pending requests stay so |
| QueueManager.Manager.UpdateIdxsAfterNewScheduling | rps-serve/vllm/v1/core/sched/queue_manager.py:246-292 | reaches the state of the specification and never raises; exact positions over running and pending requests stay so |
| QueueManager.Manager.UpdateIdxsAfterIgnored | rps-serve/vllm/v1/core/sched/queue_manager.py:294-313 | raises exactly when the specification does and otherwise moves the first pending id from the waiting to the ignored ids; exact positions stay exact, and every request stays accounted for |
| QueueManager.Manager.UpdateIdxsAfterSkipped | rps-serve/vllm/v1/core/sched/queue_manager.py:315-334 | raises exactly when the specification does and otherwise moves the first pending id from the waiting to the skipped ids; exact positions stay exact, and every request stays accounted for |
| QueueManager.Manager.SplitQueues | rps-serve/vllm/v1/core/sched/queue_manager.py:167-202 | the two parts, or the failed assertion, of the specification; with exact positions, or as soon as a request was ignored or skipped, the parts are the running requests and the others in order, none lost or duplicated |
| QueueManager.Manager.PreemptLeftOver | rps-serve/vllm/v1/core/sched/scheduler.py:900-916 | the loop reaches the state of the specification, or raises when it does; with exact positions only the running requests below its start are left, positions exact |
| BuildTimes.SummarizeEntries | rps-serve/tools/report_build_time_ninja.py:198-289 | the sweep completes if and only if the entries are non-empty, distinct and none ends before it starts; then each has its direct weighted duration, at most its duration, the total is the busy time, and only a length of zero still makes the report fail; the final assertion never fails |
| BuildTimes.Scan | rps-serve/tools/report_build_time_ninja.py:230-255 | the event loop fails if and only if a stop event finds its task not running, and otherwise books to each task the difference of two readings |
| BuildTimes.SweepSafety | rps-serve/tools/report_build_time_ninja.py:222-256 | in whatever order ties are sorted, only running tasks are stopped if and only if entries are distinct and none ends before it starts; then nothing is left running |
| BuildTimes.SweepRefinesDirect | rps-serve/tools/report_build_time_ninja.py:238-254 | the difference of two readings of the running total is the direct sum, over elementary slices inside the step, of slice length by number of steps covering it |
| BuildTimes.TieOrderIrrelevant | rps-serve/tools/report_build_time_ninja.py:222-224 | any two sorted orders of the events have the same time stamps, so the weights do not depend on ties |
| BuildTimes.Conservation | rps-serve/tools/report_build_time_ninja.py:252-253 | the weighted durations of all tasks add up to the time during which at least one task runs |
| BuildTimes.ShareFair | rps-serve/tools/report_build_time_ninja.py:230-253 | within a slice all tasks that run throughout it are charged alike, together exactly the slice, and no others |
| BuildTimes.BookingsAreWeights | rps-serve/tools/report_build_time_ninja.py:248-253 | adding weights up in event order books each task exactly once |
| BuildTimes.WeightedBound | rps-serve/tools/report_build_time_ninja.py:74-89 | a weighted duration lies between zero and the duration |
| BuildTimes.BusyPlusIdle | rps-serve/tools/report_build_time_ninja.py:258-265 | busy time plus idle slices is the elapsed time |
| BuildTimes.TotalIsSpanIffNoGap | rps-serve/tools/report_build_time_ninja.py:258-265 | the weighted total is at most the time from first start to last end, with equality if and only if some task runs at every instant in between |
| BuildTimes.EarliestExact | rps-serve/tools/report_build_time_ninja.py:209-214 | the value left in earliest is the first start if and only if no start is negative or the last entry starts first |
| BuildTimes.LatestExact | rps-serve/tools/report_build_time_ninja.py:210-216 | the value left in latest is the last end if and only if some end is not negative |
| BuildTimes.LengthZeroIff | rps-serve/tools/report_build_time_ninja.py:209-289 | without negative times the report divides by zero if and only if all entries start and end at one instant |
| BuildTimes.CollectEvents | rps-serve/tools/report_build_time_ninja.py:207-220 | the first loop collects the two events of every entry, the length and the total time |
| BuildTimes.TotalIsSum | rps-serve/tools/report_build_time_ninja.py:66-68 | the total is the sum of end less start over all entries |
| NinjaLog.ReadTargets | rps-serve/tools/report_build_time_ninja.py:104-148 | the error cases, and otherwise one fresh target for each group of the log as read |
| NinjaLog.ReadIsLastBuild | rps-serve/tools/report_build_time_ninja.py:112-148 | without show_all, what is read is the grouping of a contiguous suffix of the well-formed lines that one build could have written |
| NinjaLog.CutHasCause | rps-serve/tools/report_build_time_ninja.py:124-143 | lines are thrown away only when a line cannot continue the build before it |
| NinjaLog.GroupUpContents | rps-serve/tools/report_build_time_ninja.py:144-147 | each hash has one group holding the names of its lines in log order |
| NinjaLog.GroupTimes | rps-serve/tools/report_build_time_ninja.py:132-147 | in one build lines with a hash share the start and end of their target |
| NinjaLog.FirstTimes | rps-serve/tools/report_build_time_ninja.py:144-146 | with all builds shown a target has the times of the first line with its hash |
| NinjaLog.OrderGrows | rps-serve/tools/report_build_time_ninja.py:144-147 | targets stand in the order in which their hashes are first mentioned |
| NinjaLog.RecordsJoin | rps-serve/tools/report_build_time_ninja.py:117-123 | the records of a log are those of its first lines and then those of the others |
| NinjaLog.RecordsOne | rps-serve/tools/report_build_time_ninja.py:117-123 | a well-formed line gives one record with its start, end, name and hash, the times in seconds; any other line gives none |
| NinjaLog.TwoBuilds | rps-serve/tools/report_build_time_ninja.py:124-147 | a log of two builds: only the later is read, and both with show_all |
| NinjaLog.SameCommand | rps-serve/tools/report_build_time_ninja.py:132-143 | the same command again joins its target if its times are the same, and otherwise begins a new build |
| NinjaLog.ReadAllKeepsAll | rps-serve/tools/report_build_time_ninja.py:124-147 | with show_all nothing is thrown away |
| FusedKernel.TiledIsPlain | rps-serve/vllm/_tilelang_ops.py:205-300 | summed over the splits, the blocks give the plain double sum over channels and hidden indices, and the plain sum of squares, for every tiling that divides |
| FusedKernel.TilingExact | rps-serve/vllm/_tilelang_ops.py:205-256 | the tiled sums are the plain ones for all tensors of given sizes if and only if the splits divide the hidden size and the threads divide a split |
| FusedKernel.SplitsSumReached | rps-serve/vllm/_tilelang_ops.py:254-300 | for any tiling the splits sum exactly the hidden indices that some thread visits |
| FusedKernel.ReachesAllIff | rps-serve/vllm/_tilelang_ops.py:206-256 | every hidden index is visited if and only if the tiling divides |
| FusedKernel.WritesAllIff | rps-serve/vllm/_tilelang_ops.py:207-294 | every output column is written if and only if the tile width divides their number and is at most a warp |
| FusedKernel.IndexInRange | rps-serve/vllm/_tilelang_ops.py:241-256 | no thread reads or writes outside the hidden range |
| FusedKernel.RunThread | rps-serve/vllm/_tilelang_ops.py:254-273 | one thread's accumulators hold its strided sums, and the first tile stores the new residual (whose laws are those of KernelLaws) |
| FusedKernel.RunBlock | rps-serve/vllm/_tilelang_ops.py:224-300 | one block writes the reduced values of its columns and of the squares, and spoils nothing another block wrote |
| FusedKernel.MhcFused | rps-serve/vllm/_tilelang_ops.py:187-302 | running all blocks in any order fills every written column, the squares and the visited residual with the specified values (whose laws are those of KernelLaws) |
| PreMix.MixTilingFree | rps-serve/vllm/_tilelang_ops.py:84-95 | the consumer's mixes are those of the plain sums, whatever the producer's tiling |
| PreMix.Mixes | rps-serve/vllm/_tilelang_ops.py:84-95 | the consumer's loops over the split outputs compute those mixes |
| PreMix.GcdDivides | rps-serve/vllm/_tilelang_ops.py:327-327 | the block length divides the hidden size, so the tiles have no remainder |
| PreMix.GcdGreatest | rps-serve/vllm/_tilelang_ops.py:327-327 | and it is the greatest common divisor: every common divisor divides it |
| PreMix.MhcPost | rps-serve/vllm/_tilelang_ops.py:312-361 | the unfused kernel stores the new residual (whose laws are those of KernelLaws) at every index of a token, for every requested block length |
| PreMix.FusedMatchesPost | rps-serve/vllm/_tilelang_ops.py:258-268 | fused and unfused kernels store the same residual |
| KernelLaws.RouteStored | rps-serve/vllm/_tilelang_ops.py:258-268 | with no layer output and a single mixing weight v at row k, column j, channel j stores v times the old residual of channel k, and every other channel zero |
| KernelLaws.PostStored | rps-serve/vllm/_tilelang_ops.py:258-268 | with no mixing, each channel stores the layer's output times its own post-mapping weight |
| KernelLaws.StoredAdds | rps-serve/vllm/_tilelang_ops.py:258-268 | what is stored is additive in the mixing matrix and the post-mapping weights, so the two laws above determine it |
| KernelLaws.SwapStores | rps-serve/vllm/_tilelang_ops.py:258-268 | two channels: the second stores what the first held, and the first nothing |
| KernelLaws.ColumnPicks | rps-serve/vllm/_tilelang_ops.py:270-300 | for a tiling that divides, a single weight v for channel j and hidden index x makes its output column v times what is stored there |
| KernelLaws.ColumnAdds | rps-serve/vllm/_tilelang_ops.py:271-273 | the contributions of the weights to a column add up |
| KernelLaws.SquaresOfStored | rps-serve/vllm/_tilelang_ops.py:264-300 | the sum of squares is that of everything stored for the token |
| KernelLaws.MixIsQuotient | rps-serve/vllm/_tilelang_ops.py:84-95 | a mix is the projection of the stored residual divided by the root of the mean square plus epsilon |
| HostLaunch.LaunchExact | rps-serve/vllm/model_executor/kernels/mhc/tilelang.py:245-313 | with the tiling bound on a small batch the kernel sums all tensors if and only if the hidden size is a multiple of 2048 (few tokens, size up to 4096) or 1024 |
| HostLaunch.NarrowLaunchDrops | rps-serve/vllm/model_executor/kernels/mhc/tilelang.py:245-259 | with four tokens of hidden size 2560, which the splits divide as asserted, some tensor is summed wrongly |
| HostLaunch.LaunchWritesAll | rps-serve/vllm/model_executor/kernels/mhc/tilelang.py:254-313 | with that tiling it writes all output columns if and only if the number of channels is even (few tokens) or does not leave two modulo three |
| HostLaunch.LaunchFused | rps-serve/vllm/model_executor/kernels/mhc/tilelang.py:261-313 | where the undeclared keyword is dropped, the number of splits bound from the shape of the output is the one the host chose, and the outputs are those of the kernel |
| HostLaunch.OutputsNext | rps-serve/vllm/model_executor/kernels/mhc/tilelang.py:230-231 | the number of outputs: two gates for each channel and one entry for each pair of channels |
| HeadFuse.HcHead | rps-serve/vllm/_tilelang_ops.py:371-462 | the two-pass kernel's gates are those of the plain projections and its output their mix of the channels, whatever the block length; other tokens are untouched |
| HeadFuse.PassOne | rps-serve/vllm/_tilelang_ops.py:411-431 | the blocked pass accumulates the projections and the squared norm of the flattened residual |
| HeadFuse.ApplyMix | rps-serve/vllm/_tilelang_ops.py:447-460 | the blocked pass stores the mix of the channels at every hidden index |
| HeadFuse.GatesScale | rps-serve/vllm/_tilelang_ops.py:433-442 | scaling a token's residual by s and the epsilon by s squared does not change the gates |
| HeadFuse.GatesScaleFree | rps-serve/vllm/_tilelang_ops.py:433-442 | in particular, without the epsilon the gates do not change when a token's residual is scaled |
| HeadFuse.HeadScales | rps-serve/vllm/_tilelang_ops.py:403-460 | the kernel's output scales with the residual when the epsilon scales with its square |
| KernelLaws.ProjectionPicks | rps-serve/vllm/_tilelang_ops.py:416-428 | a single weight v for a channel and hidden index makes the projection v times the residual there |
| KernelLaws.HeadSquares | rps-serve/vllm/_tilelang_ops.py:421-422 | the squared norm is the sum over channels of the sums of squares of their residual |
| KernelLaws.GateIs | rps-serve/vllm/_tilelang_ops.py:433-442 | a gate is the logistic function plus an epsilon, at the quotient of the projection by the root of the mean square plus epsilon, scaled and shifted |
| KernelLaws.MixedPicks | rps-serve/vllm/_tilelang_ops.py:453-458 | a single gate v takes its channel's residual, times v, to the output |
| KernelLaws.MixedAdds | rps-serve/vllm/_tilelang_ops.py:453-458 | the contributions of the gates add up |
| Sinkhorn.CombMixProper | rps-serve/vllm/_tilelang_ops.py:116-148 | for any positive exponential and epsilon and any number of repeats every entry of the saved matrix is positive and every column sums to less than one |
| Sinkhorn.RowStepProper | rps-serve/vllm/_tilelang_ops.py:136-139 | a row step keeps all entries positive and brings every row sum below one |
| Sinkhorn.ColStepProper | rps-serve/vllm/_tilelang_ops.py:141-144 | a column step keeps all entries positive and brings every column sum below one |
| Sinkhorn.SoftmaxProper | rps-serve/vllm/_tilelang_ops.py:121-128 | after the soft-max, for any positive exponential, every row sums to one plus one epsilon per entry |
| Sinkhorn.ShiftInvariant | rps-serve/vllm/_tilelang_ops.py:122-128 | subtracting the row maximum first does not change the soft-max |
| Sinkhorn.SinkhornForward | rps-serve/vllm/_tilelang_ops.py:99-148 | the in-place loops compute the specified matrix |
| Sinkhorn.CombMixHistory | rps-serve/vllm/_tilelang_ops.py:131-144 | what is saved is the end of the history that begins with the soft-max and has one column normalisation for every repeat, at least one, with a row normalisation between any two |
| Sinkhorn.RowEntry | rps-serve/vllm/_tilelang_ops.py:136-139 | after a row step an entry times the sum of its old row plus epsilon is the old entry |
| Sinkhorn.ColEntry | rps-serve/vllm/_tilelang_ops.py:131-133 | after a column step an entry times the sum of its old column plus epsilon is the old entry |
| Sinkhorn.SoftmaxShare | rps-serve/vllm/_tilelang_ops.py:121-128 | less epsilon, a soft-maxed entry times the sum of its row's exponentials is its own exponential |
| Chunking.ChunkSizeFromEnv | rps-serve/csrc/cumem_allocator.cpp:21-42 | the configured chunk size is positive and fits 64 bits, with the default for unset, zero and overflowing values |
| Chunking.ChunkSizes | rps-serve/csrc/cumem_allocator.cpp:21-42 | the default in bytes, and the largest setting that counts |
| Chunking.AlignUpExact | rps-serve/csrc/cumem_allocator.cpp:319-319 | in 64-bit arithmetic the rounding reaches the size if and only if the addition does not wrap, and is then the least multiple |
| Chunking.MakeChunks | rps-serve/csrc/cumem_allocator.cpp:344-369 | the chunks are positive multiples of the granularity, all but the last are full, and they add up to the aligned size; none when their count wraps around 64 bits, and a trap when the chunk size does |
| Chunking.ChunksSuffice | rps-serve/csrc/cumem_allocator.cpp:319-369 | the chunks make up at least the requested size if and only if neither rounding nor the count wraps around 64 bits |
| DeviceMemory.Device.CreateAndMap | rps-serve/csrc/cumem_allocator.cpp:95-193 | for each way of ending exactly what the driver holds, which call failed, that all earlier ones of the loops succeeded, and how many calls were made: everything created and mapped, the same with the access rights not set, what the rollback of a failed create or map leaves, or the first handle after an error left over; and a driver that fails no call, with room, never fails it |
| DeviceMemory.LeftRestoresIff | rps-serve/csrc/cumem_allocator.cpp:95-193 | a call leaves the driver as it was if and only if there were no chunks to map, or creating or mapping failed and each of the clean-up calls that follow succeeded, or an error left over stopped it and its first create call failed too |
| DeviceMemory.OneFaultRestores | rps-serve/csrc/cumem_allocator.cpp:149-180 | if the driver fails a single call, and there is room, a failed create or map leaves nothing: the failed call is the one before the clean-up |
| DeviceMemory.PhaseUnique | rps-serve/csrc/cumem_allocator.cpp:147-193 | how the loops end is determined by the driver and the state they begin in |
| DeviceMemory.WakeAgain | rps-serve/csrc/cumem_allocator.cpp:147-180 | after a failed create or map that cleaned up, a second try with no failing call maps all chunks |
| DeviceMemory.AccessFailureLeaks | rps-serve/csrc/cumem_allocator.cpp:186-189 | one chunk whose access call fails stays created and mapped |
| DeviceMemory.StaleErrorLeaks | rps-serve/csrc/cumem_allocator.cpp:85-153 | one failing context query leaves the handle of the first chunk |
| DeviceMemory.RollbackExact | rps-serve/csrc/cumem_allocator.cpp:164-177 | after a failed map the driver is back in its first state if and only if every clean-up call succeeds |
| DeviceMemory.ReleaseUndoesCreate | rps-serve/csrc/cumem_allocator.cpp:150-159 | releasing the handles made so far leaves none if and only if every release succeeds |
| DeviceMemory.UnmapUndoesMap | rps-serve/csrc/cumem_allocator.cpp:165-171 | unmapping at the recomputed addresses undoes the mapping if and only if every unmap succeeds |
| DeviceMemory.UnmappedKeys | rps-serve/csrc/cumem_allocator.cpp:219-226 | exactly the chunks whose unmap call failed stay mapped |
| DeviceMemory.RoomMaps | rps-serve/csrc/cumem_allocator.cpp:161-163 | with room for the chunks only the driver itself can fail a map call |
| DeviceMemory.MappedUnmap | rps-serve/csrc/cumem_allocator.cpp:219-226 | chunks that were mapped can all be unmapped if and only if the driver fails no call |
| DeviceMemory.Device.UnmapAndRelease | rps-serve/csrc/cumem_allocator.cpp:195-239 | every unmap and every release is tried, by the calls right after the context query, whatever the others did; no error is recorded if and only if none was left over and none failed |
| DeviceMemory.Device.SleepAndWake | rps-serve/csrc/cumem_allocator.cpp:566-729 | over any number of rounds each sleep restores the driver state and each wake maps all chunks under new handles; where a sleep or a wake raises, the state is the one its calls leave; nothing raises if the driver fails no call and has room |
| DeviceMemory.SleepsIff | rps-serve/csrc/cumem_allocator.cpp:195-239 | unmapping and releasing undoes creating and mapping if and only if no call fails |
| DeviceMemory.AwakeMaps | rps-serve/csrc/cumem_allocator.cpp:160-179 | while awake each chunk is mapped at its own address with its size and handle |
| DeviceMemory.ChunksTile | rps-serve/csrc/cumem_allocator.cpp:160-179 | an address lies in a chunk if and only if it lies in the allocation, and never in two |
| DeviceMemory.ContextExact | rps-serve/csrc/cumem_allocator.cpp:69-91 | no error is recorded after the context query if and only if none was left over and each of its calls succeeds; it takes one call where there is a context and three where there is none |
| MallocFree.MyMalloc | rps-serve/csrc/cumem_allocator.cpp:299-427 | for every size, chunk size and callback exactly which call decides the ending, what the driver then holds, how many calls were made, that the range is given back by the call after the chunk loops, and in which endings an error is recorded; the driver is as before exactly when a failure undid itself; a driver that fails no call, with room, ends in the way the callback decides |
| MallocFree.MallocRestoresIff | rps-serve/csrc/cumem_allocator.cpp:299-427 | the driver is as before the call if and only if it failed before the reservation, or the mapping step undid itself and giving the range back succeeded |
| MallocFree.OneFaultMalloc | rps-serve/csrc/cumem_allocator.cpp:402-421 | if the driver fails a single call, and there is room, an allocation that fails after the reservation leaves the driver as it was if and only if a create or map call failed, or there were no chunks |
| MallocFree.NoCallbackLeaks | rps-serve/csrc/cumem_allocator.cpp:371-403 | with a missing or raising callback a call that gets past the reservation leaves the range reserved |
| MallocFree.MyFree | rps-serve/csrc/cumem_allocator.cpp:430-538 | without a usable record nothing happens; otherwise the driver state after trying every unmap and release and giving the range back, by consecutive calls; no error is recorded if and only if none was left over, every unmap and release succeeds, the range is reserved under that size and its free call does not fail |
| MallocFree.LeftOverBlocks | rps-serve/csrc/cumem_allocator.cpp:299-332 | an allocation gets past the reservation if and only if no error is left over and none of its calls fails up to the reserving one |
| MallocFree.MallocThenFree | rps-serve/csrc/cumem_allocator.cpp:299-538 | with a driver that fails no call, and room, an allocation freed under its aligned size leaves the driver as before and no error, so the next one gets past the reservation |
| MallocFree.FreeUndoesMallocIff | rps-serve/csrc/cumem_allocator.cpp:514-528 | freeing under the requested size restores the driver state if and only if it is a multiple of the granularity whose rounding does not wrap around |
| MallocFree.OddSizeKeepsRange | rps-serve/csrc/cumem_allocator.cpp:514-528 | three bytes in units of two stay reserved after they are freed |
| EncoderProxy.ExtractMmItems | experiments/mod-serve-proxy.py:48-66 | the items are exactly the multimodal parts of all messages, in order |
| EncoderProxy.ItemsJoin | experiments/mod-serve-proxy.py:48-66 | the items of a conversation are those of its first messages and then those of the others; a part counts if and only if its type is one of the three; text has none |
| EncoderProxy.EncoderPool.Pick | experiments/mod-serve-proxy.py:68-73 | the first least-loaded encoder is charged, the others are not; no encoder at all is an error |
| EncoderProxy.EncoderPool.Release | experiments/mod-serve-proxy.py:75-77 | the counter goes down by one, clamped at zero |
| EncoderProxy.LeastLoadedFirst | experiments/mod-serve-proxy.py:68-73 | the encoder picked has the least load, and every encoder listed before it has more |
| EncoderProxy.CountersExact | experiments/mod-serve-proxy.py:68-125 | in every reachable state each counter is the number of tasks that picked the encoder and have not released it |
| EncoderProxy.ClampIdle | experiments/mod-serve-proxy.py:75-77 | in every reachable state the clamp at zero changes nothing |
| EncoderProxy.DrainedIsZero | experiments/mod-serve-proxy.py:97-125 | when all tasks have ended, however they ended, all counters are zero |
| EncoderProxy.PeakBound | experiments/mod-serve-proxy.py:68-77 | in every run with at most k items in flight no counter exceeds k divided by the number of encoders, rounded up |
| EncoderProxy.PicksBalanced | experiments/mod-serve-proxy.py:68-73 | picks without a release keep any two counters within one, and each at its even share |
| EncoderProxy.BarrierSafe | experiments/mod-serve-proxy.py:97-129 | in every run, tasks cancelled at any point included, each item is posted at most once, under its own request and index, and a forwarded request has no task that ended in an error |
| EncoderProxy.FailureBlocks | experiments/mod-serve-proxy.py:109-129 | in every run, once a post was answered with a failure its request is forwarded in no later state |
| EncoderProxy.ForwardedHeard | experiments/mod-serve-proxy.py:97-129 | for every item of a forwarded request some step of the run answered its post with success or a cancellation, or cancelled it, and none answered it with a failure |
| EncoderProxy.ForwardedIff | experiments/mod-serve-proxy.py:97-129 | a gathered request is forwarded if and only if every item was hindered by nothing that happened in the run: no failed answer, and an encoder to pick unless it was cancelled first |
| EncoderProxy.PostedToCharged | experiments/mod-serve-proxy.py:97-125 | in every run each post goes to the encoder at which its task is counted until it releases it |
| EncoderProxy.HistoryKept | experiments/mod-serve-proxy.py:97-164 | the posts are those of the sending steps in order, and the requests hold the items of the arrivals in order |
| EncoderProxy.ForwardedMeansPosted | experiments/mod-serve-proxy.py:97-164 | each item of a forwarded request was posted exactly once with its own content, and its post was not answered with a failure, if its task was not cancelled before its post; otherwise a step of the run cancelled it and it was not posted at all |
| EncoderProxy.GatherExact | experiments/mod-serve-proxy.py:123-129 | a gathered request is forwarded if and only if no task ended in an error; by the steps of the run, all posts succeeded if and only if none was cancelled either, before or after its post |
| EncoderProxy.CancelledGoesThrough | experiments/mod-serve-proxy.py:123-129 | a run in which a request is forwarded although its only post was cancelled |
| EncoderProxy.UnsentGoesThrough | experiments/mod-serve-proxy.py:97-129 | a run in which a request is forwarded although its only item was never posted |
| EncoderProxy.StepUsesWork | experiments/mod-serve-proxy.py:97-129 | every step but an arrival uses up a bounded amount of work |
| EncoderProxy.NeverStuck | experiments/mod-serve-proxy.py:97-129 | while a request waits at the barrier, some step other than an arrival is possible |
| EncoderProxy.RoundRobin | experiments/mod-serve-proxy.py:146-152 | the r-th request goes to server r modulo their number |
| EncoderProxy.ShareExact | experiments/mod-serve-proxy.py:146-152 | how many of the first k requests each server gets |
| SpinLoop.NoLostWakeUp | rps-serve/csrc/spinloop.cpp:93-152 | in no reachable state does the waiter sleep by an untriggered monitor while the condition holds |
| SpinLoop.TriggeredExact | rps-serve/csrc/spinloop.cpp:127-152 | in every reachable state the monitor is triggered if and only if something was stored since it was armed |
| SpinLoop.BufferIsLastStored | rps-serve/csrc/spinloop.cpp:93-123 | the callback sees the buffer as it was last stored |
| SpinLoop.OutcomeHasCause | rps-serve/csrc/spinloop.cpp:93-123 | True is returned only after the callback returned True, and at its first True; False only when a reading of the clock found the timeout passed, on a sixteenth pass; errors likewise |
| SpinLoop.ClockEverySixteen | rps-serve/csrc/spinloop.cpp:107-124 | the clock is read once for every sixteen passes begun, also across a wrap of the 32-bit counter |
| SpinLoop.StartIsFirstReading | rps-serve/csrc/spinloop.cpp:80-119 | the timeout counts from the reading of the clock with which the waiter began |
| SpinLoop.NowIsElapsed | rps-serve/csrc/spinloop.cpp:107-119 | every reading of the clock is the time passed since the beginning |
| SpinLoop.NoTimeoutNoFalse | rps-serve/csrc/spinloop.cpp:89-122 | with a timeout of a nanosecond or less False is never returned |
| SpinLoop.WaitsAsConfigured | rps-serve/csrc/spinloop.cpp:89-164 | with such a timeout the clock is not read; the waiter sleeps by the monitor only if the buffer fits a line and the processor has one, and pauses only if not |
| SpinLoop.NeverStuck | rps-serve/csrc/spinloop.cpp:93-164 | until it is done the waiter can step, and needs no timer for that once the condition holds |
| SpinLoop.ReadyEnds | rps-serve/csrc/spinloop.cpp:93-152 | once the condition holds and stays, the waiter is done after at most three of its own steps |
| SpinLoop.TimeoutEnds | rps-serve/csrc/spinloop.cpp:107-152 | once the timeout has passed, the waiter is done after at most 65 of its own steps, whatever the writer does |
| Retry.HttpConnection.Retry | rps-serve/vllm/connections.py:119-149 | attempts go on exactly while they end in a retryable error and are not used up; the final assertion is never reached; timeouts and sleeps of every attempt |
| Retry.HttpConnection.DownloadFile | rps-serve/vllm/connections.py:338-360 | one attempt writes, cleans up and raises as specified |
| Retry.StopsOnce | rps-serve/vllm/connections.py:124-135 | the number of attempts is determined |
| Retry.ReturnLeavesBody | rps-serve/vllm/connections.py:347-355 | a return leaves exactly the body the last attempt streamed: its length is that of all chunks together, and byte p of chunk n stands p behind the total length of the chunks before it |
| Retry.JoinAppends | rps-serve/vllm/connections.py:351-353 | the body of chunks followed by more chunks is the body of the ones followed by that of the others; of one chunk it is the chunk |
| Retry.RaisesOwn | rps-serve/vllm/connections.py:345-360 | if the file can be removed, an attempt raises its own error |
| Retry.RaisesUnlink | rps-serve/vllm/connections.py:356-360 | if removing the file fails, that error is raised in its place; where there is no file to remove, the own one |
| Retry.RetryExamples | rps-serve/vllm/connections.py:30-73 | two chunks in their order, and which errors are tried again at the boundary of 500 |
| Retry.RaiseLeavesNoFileIff | rps-serve/vllm/connections.py:356-360 | a raise leaves no file if and only if the last attempt failed before it opened the file and none lingered, or it ended in an Exception and could remove the file |
| Retry.LingersExact | rps-serve/vllm/connections.py:338-360 | after retried attempts the file is there if and only if since some attempt no removal has worked, and that attempt wrote the file or was the first and found it |
| Retry.RemovedDoesNotLinger | rps-serve/vllm/connections.py:356-360 | if the removal after the attempt before can work, the last attempt begins without the file |
| Retry.NoFileOrBody | rps-serve/vllm/connections.py:338-360 | the whole file system after a run: the body or no file, and all other files as before |
| Retry.OthersUntouched | rps-serve/vllm/connections.py:338-360 | no other file is ever touched |
| Retry.CancelledLeavesPart | rps-serve/vllm/connections.py:356-360 | a run in which an interrupted download leaves the part it had written |
| Retry.SleepTotal | rps-serve/vllm/connections.py:136-147 | k attempts sleep (4^(k-1) - 1) / 3 seconds in all |
| Retry.TimeoutTotal | rps-serve/vllm/connections.py:125-130 | the timeouts of k attempts add up to (4^k - 1) / 3 times the base |
| StreamLatency.RequestTgi | rps-serve/benchmarks/backend_request_func.py:84-119 | the three figures, for any clock; on success first token plus gaps is the latency plus the delay between the two readings at the first token |
| StreamLatency.RequestTrtLlm | rps-serve/benchmarks/backend_request_func.py:159-189 | the three figures; on success first token plus gaps is exactly the latency, for any clock |
| StreamLatency.RequestCompletions | rps-serve/benchmarks/backend_request_func.py:304-353 | the three figures; success if and only if nothing raised and a token came; the excess of the two readings |
| StreamLatency.RequestChat | rps-serve/benchmarks/backend_request_func.py:418-462 | the three figures; on success first token plus gaps is the latency less the gaps that end at chunks without choices |
| StreamLatency.RaisesExact | rps-serve/benchmarks/backend_request_func.py:84-119 | the closing mark ends the two loops that do not look for it with an error, a ping the two that do not skip it |
| StreamLatency.DataJoin | rps-serve/benchmarks/backend_request_func.py:304-353 | the data chunks of two streams one after the other are those of the first and then those of the second |
| StreamLatency.TokenAtStart | rps-serve/benchmarks/backend_request_func.py:437-447 | a token at the very start leaves the time to first token zero, so the next token sets it and no gap is recorded |
| StreamLatency.ChatExactIff | rps-serve/benchmarks/backend_request_func.py:437-460 | with an increasing clock first token plus gaps never exceeds the latency, with equality if and only if every data chunk after the first token has choices and there is a first token or no data |
| StreamLatency.UsageChunkLoses | rps-serve/benchmarks/backend_request_func.py:437-460 | one token and a usage chunk: the time between them is lost |
| StreamLatency.MeterExcess | rps-serve/benchmarks/backend_request_func.py:101-111 | the excess of first token plus gaps over the elapsed time, for any clock, and none with a single reading |
| StreamLatency.OneGapPerToken | rps-serve/benchmarks/backend_request_func.py:176-184 | with an increasing clock the first token gets its own time, and every other token one gap, the time since the token before |
| ExperimentId.CreateExperimentId | llmperf/llmperf/utils.py:42-71 | the joined parts, with def for absent options and one part per keyword |
| ExperimentId.CreateRunId | llmperf/llmperf/runner/base.py:85-98 | the id under which a run is saved |
| ExperimentId.JoinAppends | llmperf/llmperf/utils.py:71-71 | joining puts two underscores between any two parts, and nothing else |
| ExperimentId.RunPartsListed | llmperf/llmperf/runner/guidellm.py:117-132 | every part of the id of a run, in order |
| ExperimentId.LibraryPartsListed | llmperf/llmperf/utils.py:54-69 | every part of an id of the library, in order |
| ExperimentId.FieldExact | plots/utils.py:61-64 | field n is captured if and only if the id begins with n + 1 non-empty fields without underscores, each followed by two, the last of them it |
| ExperimentId.JoinSplit | llmperf/llmperf/utils.py:71-71 | joining the pieces of any id, cut at its double underscores from the left, gives back the id |
| ExperimentId.SplitJoinIff | llmperf/llmperf/utils.py:71-71 | cutting a joined id gives back its parts if and only if none has a double underscore and none but the last ends in one |
| ExperimentId.FieldsRoundTrip | plots/utils.py:102-105 | the first fields of a joined id are read back if and only if each is non-empty and without underscores |
| ExperimentId.FieldOfPieces | plots/utils.py:102-105 | field n of any id is its n-th piece, if this and all pieces before it are non-empty and without underscores and more pieces follow; otherwise there is none |
| ExperimentId.KeywordSearch | plots/utils.py:105-107 | in any id the leftmost match is the first piece, after the first and before the last, that is the keyword with a value, behind at most one more underscore |
| ExperimentId.RunRoundTrip | llmperf/llmperf/runner/guidellm.py:117-132 | the id of any run reads back as its model, engine, approach and rate if and only if its pieces say so; where joining keeps its parts apart, if and only if these and the workload are non-empty and without underscores and no earlier part looks like another approach or rate |
| ExperimentId.PlainRunReads | plots/utils.py:102-130 | a run reads back if its parts are free of underscores, no field is empty and no identifying part begins like the keywords |
| ExperimentId.DocumentedReads | plots/utils.py:92-107 | such as the run whose id the reader documents |
| ExperimentId.ParseExact | plots/utils.py:102-130 | any id parses if and only if its first three pieces are fields and later pieces, not the last, carry both keywords; it is read as the second and third piece and these values |
| ExperimentId.LibraryParses | llmperf/llmperf/utils.py:42-71 | the pieces decide whether an id of the library parses, and the third is taken for the system; where joining keeps its parts apart, it parses if and only if workload, model and approach are fields and its arguments carry both an approach and a rate keyword |
| ExperimentId.LibraryIdUnread | llmperf/llmperf/utils.py:42-71 | an id of the library, whatever its underscores, does not parse unless one of its printed parts contains the word approach |
| ExperimentId.IsoRoundTrip | plots/utils.py:61-64 | workload and model are recovered if and only if both are non-empty and without underscores |
| ResultGrouping.ParseBenchmarkFile | plots/utils.py:109-152 | under every key the table holds exactly the records with it, in file order, and nothing else; the branch for a single record is never taken |
| ResultGrouping.FoundByNames | plots/utils.py:133-150 | the list of a key is reached by model, then system, then approach, then rate |
| ResultGrouping.Results.Add | plots/utils.py:142-150 | one record is added under its path and the table is changed nowhere else |
| ResultGrouping.RecordPlaced | plots/utils.py:142-150 | each parseable record stands in the list of its key right after the earlier ones |
| ResultGrouping.NoneLost | plots/utils.py:114-150 | over all keys the lists hold as many records as there are parseable lines |
| ResultGrouping.ParseIsoFile | plots/utils.py:66-89 | under every model and workload the last record with them |
| ResultGrouping.LastWithExact | plots/utils.py:66-89 | a record is kept if and only if some line has its model and workload, and it is that of the last such line |

## Left out

- MallocFree.MyMalloc: the driver picks an address that is not reserved; sizes are taken as 64-bit values without a sign.
- DeviceMemory.ContextExact: where several calls fail, only that an error is recorded, not which of the codes it is.
- HostLaunch.LaunchFused: that compiling the kernel drops an undeclared keyword is an assumption; if it does not, the call raises before any block runs. The compiler is not part of this model.
- FusedKernel.MhcFused: the threads of a block run one after the other and a warp reduction is a plain sum; copies to shared memory, barriers and pipelining are not modelled.
- SpinLoop.NeverStuck: the loop of the source need not end, so it is a step function rather than a loop; the wait's timer is a step that is always possible.
- BuildTimes.SummarizeEntries: the warning and the text of the report after the sweep are not modelled, only that its division by the length can fail.
- ResultGrouping.ParseBenchmarkFile: a JSON line that is not an object, which raises in the source, and the empty tables that reading a missing key leaves in the result later on, are not modelled.
- Rounding of floating-point and half-precision numbers; exp, sigmoid and the reciprocal square root are functions with only the laws a proof needs.
- The branch of the allocator for a single handle, failures of host memory allocation, reference counts, the interpreter lock and error strings.
- Loop counters of type int in the allocator, which limit it to 2^31 chunks.
- HTTP, sockets, subprocesses and the event loop itself: a call is an outcome, a task is a sequence of steps. A client that disconnects, which cancels the whole handler, is not modelled.
- Cancellation during a back-off sleep, and errors of the file system other than a failed removal.
- The scheduler around the queue manager (budgets, cache blocks, encoder inputs), and the order in which its priority heap hands out the waiting part.
- The request classifier, the impact estimator and the scores of the priority regulator: formulas over measured data.
- The choice of the number of splits for large batches: it feeds a matrix product that is not part of this model.
- Generated text, token counts and HTTP status of the streaming loops; they would only add easy members.
- JSON decoding, time stamps and regular expressions as such: the patterns are modelled directly on sequences of characters.
- Version lookup, plotting, training, workload generation and installers.
