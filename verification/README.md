# Benchmark protocol models

The benchmark drivers of the repository measure decode throughput, prepare prompts, generate synthetic tasks and
account for caches. This project models the parts whose correctness is not visible in one function body, as Dafny
state machines, classes, loops and reference definitions, and proves what they promise.

* **Decode-measurement window** (`DecodeWindow*`, `RequestOrder`). The window's public calls are functions from a
  state to a state and a reply (`DecodeWindow`); a raised exception is a reply, beside the state the call leaves
  behind. `DecodeWindowObject` is the object itself, with its mutable fields and the row objects shared between
  `pending` and `records`, proved against those functions. `DecodeWindowHistory` ties the state after any list of
  calls that raised nothing to the batches submitted; `DecodeWindowTheorems` draws the measurement claims from it;
  `DecodeWindowEdges` finds the two boundary calls a result was read at and what lies between them;
  `DecodeWindowConfluence` shows that a pipelined run refines the serial one, exactly which runs raise nothing, and
  that completion order is irrelevant; `DecodeWindowReadings` reads runs and results request by request, and
  `DecodeWindowStretch` follows a clean stretch of steps.
* **Drivers.** A serial loop around the window is a function of what its steps feed to the window (`SerialDriver`);
  `SerialExact` says of every such list whether the loop returns a result, and `SerialReadings` says it, and what is
  reported, request by request. The native loop (`NativeDriver`) is such a loop, and `NativeReadings` states both in
  the fields the engine presents. `QueueAdapter` is the adapter that drains an overlapping scheduler's result queue
  before an edge; `OverlappedRuns` has its protocol, `OverlappedSerial` proves that it does to the window what the
  serial loop does, with this rank's counters counted from the batches that ran, and `OverlappedReadings` and
  `OverlappedGraph` state results and graph contract in the fields the scheduler presents. `CleanStretch` and
  `OverlappedStretch` follow a clean stretch of steps.
* **Bounded parallel preparation** against its sequential reference, for any completion order
  (`OfficialPreparation`) and for a pool that starts its rows first in, first out (`FifoPreparation`).
* **Bucketed sample selection**, streaming against sort-and-take (`SampleSelection`).
* **Doubling and bisection** without a monotone length (`RepetitionFit`), **common words** and their answer key
  (`CommonWords`), **variable tracking** as a program that computes its answer (`VariableTracking`,
  `VariableCollisions`).
* **Pass@k** as a binomial ratio (`PassAtK`), **percentiles** (`Percentile`), **scheduler phases** as a run-length
  encoding (`PhaseRuns`).
* **Wave admission** (`WaveAdmission`), **jittered lengths** (`JitteredLengths`), **prefix-cache accounting**
  (`PrefixCache`), **strided sharding and merging** (`ShardMerge`). `Sorting` is Python's stable sort; `Sequences`
  and `Arithmetic` hold small shared facts.

Clocks, graph counters, tokenizers, digests, shuffles, random draws and the engine are parameters, arbitrary unless
a contract says otherwise. Floating-point values are reals. A run ends at the first exception, as in the drivers.

Seven properties hold only under a condition. The exact condition is proved, and a lemma is named where it gives an input
that fails:

* The common-word answer list is the set of most frequent words if and only if `KeyFits`: the vocabulary's last,
  partial lap around the 26^4 words must not end among the common ones (`CommonWords.AnswerKey`). Up to 26^4
  distinct words it always fits; ten common words in 26^4 + 1 words do not (`CommonWords.KeyFitsWithinSpace`).
* The parallel preparer agrees with the reference for every completion order if and only if the first
  2 × min(workers, rows) failing rows (all of them, if that is more than there are rows) fail alike; with no rows at
  all, if and only if the budgets are valid (`OfficialPreparation.ParallelMatchesSequential`). Two rows that fail
  differently and one worker fail it (`OfficialPreparation.SecondFailureReported`). A pool that starts its rows first
  in, first out agrees, whatever it does, if and only if the failing rows among those it can reach fail alike: the
  first min(2 × min(workers, rows), rows) rows, and as many more as there are succeeding rows with fewer than
  `workers` failing rows before them (`FifoPreparation.FifoMatchesSequential`). The same two rows fail it
  (`FifoPreparation.SecondFailureInOrder`); with a succeeding row between them it always agrees, though another
  completion order would not (`FifoPreparation.FailuresApartAgree`).
* The variable-tracking answer is all the variables holding the queried value if and only if no other chain drew
  the same value (`VariableTracking.AnswerExact`, and for the whole prompt `VariableCollisions.CompleteExact`). Two
  chains with one value fail it (`VariableCollisions.SameValueElsewhere`).
* `generate_chains` raises if and only if redrawn names leave a remainder (`VariableTracking.GenerateChains`), as
  three names for one chain of one hop do (`VariableCollisions.RedrawLeavesRemainder`).
* When redrawn names leave no remainder, they can still collide. With other values on the other chains and
  2 × (hops + 1) − 1 noise lines or more, every text binds the answer to the queried value if and only if no name of
  the first chain occurs in a later one (`VariableCollisions.CollisionExact`). The names A, A, A, B, one hop and three
  noise lines fail it (`VariableCollisions.CollisionBreaks`).
* A merged per-task file equals the single-worker file row for row, without a duplicate, if and only if the source
  indices rise (`ShardMerge.RunTask`). They always do unless the dataset file carries index fields of its own and no
  length-based selection replaces them; two files that fail are given (`ShardMerge.PresetsFail`).
* The plan of a turn covers the shared context if and only if it is the first, an earlier turn was served, nothing was
  kept before, or the stale prefix happens to share the context (`PrefixCache.SharedContextPlanned`); a stale prefix
  and a first turn that fails the metric check fail it (`PrefixCache.StaleSession`).

## Model

| member | source | states |
|---|---|---|
| DecodeWindowTheorems.MeasuredWindow | benchmark/efficiency/metrics.py:160-207 | for every run without an exception that has a result: the measured rows are exactly the last `targetSteps`, with consecutive tickets and one duplicate-free request set, right behind the first `warmupSteps` eligible submissions in a row of that set; tokens are concurrency × steps and the sum of completed tokens; the start contexts are those of the first measured batch, each beside its request, and each end context is its start plus the steps |
| DecodeWindowEdges.MeasuredBetween | benchmark/efficiency/metrics.py:160-189 | the result's times are those of two boundary calls of the run and its graph delta is that of their readings; nothing is in flight at either; between them lie exactly the submissions and the completions of the measured tickets |
| DecodeWindowEdges.ResultFinished | benchmark/efficiency/metrics.py:160-265 | both together, for every result |
| DecodeWindowTheorems.WarmupIsLongestRun | benchmark/efficiency/metrics.py:191-207 | before the opening edge the warmup counter is the length of the longest eligible same-request suffix of the whole history |
| DecodeWindowTheorems.RunNeverIncomplete | benchmark/efficiency/metrics.py:254-257 | after any run without an exception, the incomplete-work guard cannot fire |
| DecodeWindowTheorems.IncompleteWorkUnreachable | benchmark/efficiency/metrics.py:249-258 | the same, from every state the invariant admits |
| DecodeWindowTheorems.ResultFinal | benchmark/efficiency/metrics.py:249-300 | once there is a result no call changes anything; completing a ticket then raises |
| DecodeWindowTheorems.GraphDeltaExact | benchmark/efficiency/metrics.py:215-225 | counters are accepted if and only if no rank is lost and each rank replayed once per step with no capture and no eager step; the reported delta is then exactly that |
| DecodeWindowReadings.RunIsFull | benchmark/efficiency/metrics.py:191-207 | a stretch of batches counts as warmup or measurement if and only if each is a decode batch of one token for each of `concurrency` different requests, fully admitted, and they have the same requests |
| DecodeWindowReadings.ResultReads | benchmark/efficiency/metrics.py:255-265 | a result lists the requests of the first measured batch in rising order, each with the context length it was submitted with, and at the end with one token more per step |
| DecodeWindowHistory.RunExplained | benchmark/efficiency/metrics.py:135-305 | the invariant of every run: ledger, pending tickets, warmup or measurement phase and result, all in terms of the submitted batches |
| DecodeWindowHistory.StepExplained | benchmark/efficiency/metrics.py:160-305 | each call that returns keeps that invariant |
| DecodeWindowHistory.WarmupCounter | benchmark/efficiency/metrics.py:201-207 | the counter update of one observation again gives the longest run |
| DecodeWindowConfluence.PipelinedRefinesSerial | benchmark/efficiency/metrics.py:249-305 | every pipelined run reaches the state of the run in which each submission completes at once, up to which rows are open |
| DecodeWindowConfluence.RaisesNothing | benchmark/efficiency/metrics.py:249-305 | a pipelined run raises nothing if and only if the serial run of its submissions and boundaries raises nothing, each completion is of an open ticket with the right count, and nothing is open at an edge |
| DecodeWindowConfluence.CompletionOrderIrrelevant | benchmark/efficiency/metrics.py:249-305 | two runs with the same submissions, boundaries and readings that complete the same tickets with the same counts, in any order and interleaving, end in the same state |
| DecodeWindowConfluence.RunSettled | benchmark/efficiency/metrics.py:296-305 | a row is complete if and only if its ticket was completed, with the count of that completion |
| DecodeWindowObject.PipelinedDecodeWindow.constructor | benchmark/efficiency/metrics.py:143-158 | the object starts in the machine's initial state |
| DecodeWindowObject.PipelinedDecodeWindow.EdgeOfBase | benchmark/efficiency/metrics.py:160-189 | the base class's boundary is the machine's, including the state left by an exception |
| DecodeWindowObject.PipelinedDecodeWindow.ObserveBatch | benchmark/efficiency/metrics.py:191-207 | observe is the machine's step |
| DecodeWindowObject.PipelinedDecodeWindow.SelectMeasured | benchmark/efficiency/metrics.py:255-257 | the selected rows are the measured ones in order, and the flag says whether all are complete |
| DecodeWindowObject.PipelinedDecodeWindow.Boundary | benchmark/efficiency/metrics.py:249-265 | the object's boundary is the machine's step, for every state, clock and counters |
| DecodeWindowObject.PipelinedDecodeWindow.Submit | benchmark/efficiency/metrics.py:267-294 | submit is the machine's step; rows added are new objects |
| DecodeWindowObject.PipelinedDecodeWindow.Complete | benchmark/efficiency/metrics.py:296-305 | complete is the machine's step through the row shared by `pending` and `records`; it changes that row only |
| RequestOrder.SortedPairsAlign | benchmark/efficiency/metrics.py:279-291 | sorting ids and contexts as pairs keeps each request's context beside it and orders the ids as sorting them alone does |
| DecodeWindowCalls.DrainedBoundary | benchmark/efficiency/metrics.py:249-265 | with nothing in flight a boundary fails on the readings only, and leaves no edge behind |
| DecodeWindowCalls.KnownComplete | benchmark/efficiency/metrics.py:296-305 | completing a ticket in flight can fail only on its token count |
| NativeDriver.Iterate | benchmark/microbench.py:682-701 | one iteration over the window object is boundary, submission and completion of the state machine, or the error of the first that raises |
| NativeDriver.Close | benchmark/microbench.py:762-764 | the last boundary and require_result give the machine's result, or its error |
| NativeDriver.BenchmarkTask | benchmark/microbench.py:667-764 | the loop over the window object computes the machine's run of the whole script |
| NativeDriver.NativeProtocol | benchmark/microbench.py:667-764 | for every script: no undrained boundary, crossed edge, unknown ticket or incomplete work |
| SerialDriver.TaskMeasures | benchmark/microbench.py:667-764 | a result is a finished measurement of exactly the calls the loop made, after two synchronizations |
| SerialExact.DriveExact | benchmark/microbench.py:682-701 | one iteration raises nothing if and only if its step meets the condition of its place in the script, and leaves the window where that place says |
| NativeReadings.TaskExact | benchmark/microbench.py:682-764 | for every script, in the fields of its steps: the native loop returns a result if and only if the first position with a full warmup behind it is followed by `targetSteps` decode steps of the same requests, one token each and a token further each time, no step up to there has a preemption, a missing context length or a wrong published count, and the readings at the end are later with one replay per step on every rank; and, in strict-batch runs, no step reports a preemption |
| NativeReadings.TaskReports | benchmark/microbench.py:682-764 | the result has those requests with the context lengths read before the first measured step, the readings before that step and at the end, the tokens, elapsed time, throughput and graph delta of the steps between |
| CleanStretch.LoopMeasures | benchmark/microbench.py:667-764 | whatever the loop did before the opening edge, `warmupSteps + targetSteps` clean steps and one more reading give a result if and only if the window was not warm for other requests |
| CleanStretch.StretchMeasured | benchmark/efficiency/metrics.py:160-305 | the same from every reachable state before the opening edge with nothing in flight |
| DecodeWindowStretch.ClosingAccepted | benchmark/efficiency/metrics.py:162-189 | a closing edge with nothing in flight, later time and one replay per step is accepted |
| QueueAdapter.Adapter.ChooseBatch | benchmark/hisparse_microbench.py:133-148 | at an edge the queue is drained and the window measured, else nothing changes, as the loop function says |
| QueueAdapter.Adapter.Measure | benchmark/hisparse_microbench.py:121-148 | the boundary is taken on the gathered counters of all ranks and the last batch is cleared |
| QueueAdapter.Adapter.Run | benchmark/hisparse_microbench.py:150-171 | a run submits its batch, records a replay or an eager step, and queues its ticket under the result's handle; a retraction always raises |
| QueueAdapter.Adapter.ProcessHeadResult | benchmark/hisparse_microbench.py:173-179 | the head's own ticket, found by its handle, is completed with what it published |
| QueueAdapter.Adapter.Drain | benchmark/hisparse_microbench.py:133-148 | every queued result is processed in order |
| QueueAdapter.Adapter.EventLoop | benchmark/hisparse_microbench.py:93-193 | the whole loop over the adapter object, the window and the handle-keyed tickets computes the loop function |
| OverlappedRuns.LoopSound | benchmark/hisparse_microbench.py:93-193 | for every script: no protocol error, unknown result or empty queue; every result is processed exactly once in the order the batches ran; a window result is a finished measurement of the calls made |
| OverlappedSerial.LoopIsSerial | benchmark/hisparse_microbench.py:93-193 | for every script: the overlapping loop raises nothing if and only if a serial loop on the same batches raises nothing, each batch with the readings of the first iteration after the batch before it, and then both end with the same window |
| OverlappedSerial.CountersCount | benchmark/hisparse_microbench.py:111-171 | after every run this rank's counters are the captures during its batches, its decode batches on the captured graph and those off it |
| OverlappedReadings.LoopExact | benchmark/hisparse_microbench.py:93-193 | for every script, in the fields of its batches: the loop raises nothing and has a result if and only if there is a measurement (as for the native loop, with the edge behind it reached) and no batch reports a preemption |
| OverlappedReadings.LoopReports | benchmark/hisparse_microbench.py:93-193 | the result has the requests and context lengths of the first measured batch and the readings gathered at the two edges |
| OverlappedGraph.ContractExact | benchmark/hisparse_microbench.py:121-171 | at a closing edge the graph contract is violated if and only if a batch since the opening edge captured a graph or decoded off it, or another rank's counters are not one replay per step; no rank is lost |
| OverlappedRuns.TurnsKeepRanks | benchmark/hisparse_microbench.py:121-131 | gathering every rank at every edge, no run loses a rank |
| OverlappedStretch.LoopMeasures | benchmark/hisparse_microbench.py:93-193 | whatever the loop did before the opening edge, a clean stretch and one more iteration give a result if and only if the waiting result has the right count and the window was not warm for other requests |
| OverlappedStretch.StretchMeasured | benchmark/hisparse_microbench.py:93-193 | the same from every sound state of the loop before the opening edge |
| OfficialPreparation.PrepareSequential | benchmark/long_bench_v2/contracts.py:247-288 | every row prepared in source order, or the refusal of the first row refused, in terms of template, tokenizer and chat template alone: a rendered prompt within the limit goes to chat unchanged, a longer one as what its two ends decode to; the chat prompt has between one token and the budget; length and digest are those of the uncut prompt |
| OfficialPreparation.PreparedExactly | benchmark/long_bench_v2/contracts.py:259-287 | one pass yields a body if and only if it is that of the row so prepared |
| OfficialPreparation.RefusedExactly | benchmark/long_bench_v2/contracts.py:259-275 | one pass raises an error if and only if template or chat template raised it, or the chat prompt is empty or over budget, naming the sample and its length |
| OfficialPreparation.PrepareParallel | benchmark/long_bench_v2/preparation.py:51-92 | the scheduler computes, with its log, what the pool's behaviour makes of the rows |
| OfficialPreparation.EveryRun | benchmark/long_bench_v2/preparation.py:63-92 | for every behaviour of the pool: terminates, never more than 2 × workers rows in flight at any point of the log, each row submitted once and in order, all of them on success; a reported error is that of one of the first 2 × min(workers, rows) failing rows |
| OfficialPreparation.SuccessAgrees | benchmark/long_bench_v2/preparation.py:51-92 | with rows, every pool succeeds exactly when the reference does, with the same list |
| OfficialPreparation.PoolPrepares | benchmark/long_bench_v2/preparation.py:51-92 | whatever the pool does, a returned list has every row so prepared, in source order |
| OfficialPreparation.PoolRefuses | benchmark/long_bench_v2/preparation.py:51-92 | whatever the pool does, a raised error is one that some row earns |
| OfficialPreparation.StartsFull | benchmark/long_bench_v2/preparation.py:61-76 | two rows for each worker, or all if there are fewer, are submitted in order before the first result is taken |
| OfficialPreparation.EveryReport | benchmark/long_bench_v2/preparation.py:70-91 | each of the first 2 × min(workers, rows) failing rows is reported by some completion order |
| OfficialPreparation.ParallelMatchesSequential | benchmark/long_bench_v2/preparation.py:51-92 | agreement with the reference for every completion order if and only if those first failing rows fail alike, an over-budget row's error naming its sample and length; without rows, if and only if the budgets are valid |
| OfficialPreparation.SecondFailureReported | benchmark/long_bench_v2/preparation.py:51-92 | one worker and two rows that fail differently: a pool reports the second, the reference the first |
| FifoPreparation.FifoReports | benchmark/long_bench_v2/preparation.py:63-92 | a pool that starts its rows in order reports only failing rows it can reach before it is blocked |
| FifoPreparation.FifoReport | benchmark/long_bench_v2/preparation.py:70-91 | each of those rows is reported by some such pool |
| FifoPreparation.FifoMatchesSequential | benchmark/long_bench_v2/preparation.py:51-92 | agreement with the reference for every such pool if and only if those rows fail alike |
| FifoPreparation.SecondFailureInOrder | benchmark/long_bench_v2/preparation.py:51-92 | one worker and two rows that fail differently: such a pool can report the second |
| FifoPreparation.FailuresApartAgree | benchmark/long_bench_v2/preparation.py:51-92 | one worker, and a succeeding row between two that fail differently: such a pool always reports the first, though the condition for arbitrary completion orders fails |
| OfficialPreparation.MiddleCut | benchmark/long_bench_v2/contracts.py:265-275 | truncation keeps exactly `limit` tokens, both ends around one contiguous cut |
| SampleSelection.ParseBuckets | benchmark/long_bench_v2/contracts.py:44-90 | accepts if and only if the list is nonempty, each entry well formed, names distinct and ranges disjoint; an error names the first entry that cannot be accepted and a fault it has |
| SampleSelection.AcceptsExactly | benchmark/long_bench_v2/contracts.py:44-90 | a list is acceptable if and only if it describes buckets with different nonempty names, positive quotas and ranges of positive lengths, no length in two of them |
| SampleSelection.StreamingStep | benchmark/long_bench_v2/contracts.py:216-232 | insert, sort and pop keep the first elements of the full sort |
| SampleSelection.SelectSamples | benchmark/long_bench_v2/contracts.py:192-244 | per bucket, in bucket order, its quota of the rows whose admissible length lies in its range, ends included, in rising order of digest and then id by code points, and no row left out comes before one taken; it raises if and only if too few rows fit a bucket, naming the first such bucket and their number |
| SampleSelection.SelectionPermuted | benchmark/long_bench_v2/contracts.py:192-244 | with unique ids, permuting the input rows changes neither the chosen samples, their order nor success |
| RepetitionFit.Double | benchmark/ruler_vt/tasks.py:189-196 | doubling ends at a fitting count whose double does not fit |
| RepetitionFit.FitRepetitionCount | benchmark/ruler_vt/tasks.py:173-211 | without monotone lengths: raises if and only if one repetition does not fit, else a fitting count whose successor does not fit; with monotone lengths the largest |
| CommonWords.Base26 | benchmark/ruler_vt/tasks.py:153-158 | the loop computes the fixed-width encoding |
| CommonWords.DecodeEncode | benchmark/ruler_vt/tasks.py:153-158 | the letters spell the value modulo 26^width |
| CommonWords.WordInjective | benchmark/ruler_vt/tasks.py:153-162 | two indices name the same word if and only if they agree modulo 26^4 |
| CommonWords.CwePayload | benchmark/ruler_vt/tasks.py:266-298 | for every shuffle and offset the answers are exactly the most frequent words if and only if `KeyFits`, so always up to 26^4 distinct words |
| CommonWords.AnswerKey | benchmark/ruler_vt/tasks.py:266-298 | the same about any permutation of the word list |
| CommonWords.KeyFitsWithinSpace | benchmark/ruler_vt/tasks.py:266-298 | with a key within the word space, `KeyFits` means that the last lap is empty or covers the key; a failing input |
| VariableTracking.MakeChain | benchmark/ruler_vt/pred.py:103-112 | one chain: an assignment and `hops` copies, or an index error if and only if the slice is short |
| VariableTracking.GenerateChains | benchmark/ruler_vt/pred.py:92-112 | succeeds if and only if the names divide evenly; then the chains cut the names in order |
| VariableTracking.InsertChain | benchmark/ruler_vt/pred.py:130-143 | inserting at increasing positions gives the text as a function of the positions; it keeps the chain's order, if the text has no line of its variables, and every other line's order |
| VariableTracking.Weave | benchmark/ruler_vt/pred.py:130-143 | raises if and only if the noise is shorter than a chain; the text as a function of the draws; with chains over separate names the text is an order-preserving interleaving of the noise and all chains |
| VariableTracking.TextComputes | benchmark/ruler_vt/pred.py:130-143 | every such interleaving, run top to bottom, reads no unset variable and binds each chain's variables to its value |
| VariableTracking.AnswerExact | benchmark/ruler_vt/pred.py:130-143 | the answers are all the variables with the queried value if and only if no other chain drew it |
| VariableTracking.GenerateInputOutput | benchmark/ruler_vt/pred.py:92-143 | the whole generator: when it raises, what it asks for, the prompt as a function of names, values and positions, and that for distinct names it computes the answer |
| VariableCollisions.DrawNames | benchmark/ruler_vt/pred.py:94-100 | the redraw loop draws one name after the other up to the first moment there are enough different ones |
| VariableCollisions.NoRedraw | benchmark/ruler_vt/pred.py:94-100 | if the first draw has enough different names, they are all different |
| VariableCollisions.PromptRuns | benchmark/ruler_vt/pred.py:130-143 | whatever the names, no prompt reads a variable before a line has set it |
| VariableCollisions.AloneHolds | benchmark/ruler_vt/pred.py:92-143 | for every draw of positions and every values: if no name of the first chain occurs in a later one, the answer is bound to the queried value |
| VariableCollisions.CollisionExact | benchmark/ruler_vt/pred.py:92-143 | for names that divide evenly, other values on other chains and enough noise: that holds for every draw of positions if and only if no name of the first chain occurs in a later one |
| VariableCollisions.CollisionBreaks | benchmark/ruler_vt/pred.py:99-137 | four names the redraw loop can leave, and a draw of positions, for which the prompt does not bind the answer to the queried value |
| VariableCollisions.RedrawLeavesRemainder | benchmark/ruler_vt/pred.py:99-107 | three names the redraw loop can leave that do not divide into chains of one hop |
| VariableCollisions.CompleteExact | benchmark/ruler_vt/pred.py:92-143 | for distinct names and every draw of positions, once the prompt has run the answers are all the variables with the queried value if and only if no other chain drew it |
| VariableCollisions.SameValueElsewhere | benchmark/ruler_vt/pred.py:130-143 | four distinct names in two chains with one value: for no draw of positions are the answers all the variables with that value |
| PassAtK.EstimateIsBinomialRatio | benchmark/scbench/repo_qa_utils.py:98-104 | the product form equals 1 − C(n−c,k)/C(n,k) in both branches |
| PassAtK.EstimateRange | benchmark/scbench/repo_qa_utils.py:98-104 | the estimate is in [0, 1], 0 without correct samples, and 1 if and only if fewer than k samples are wrong |
| PassAtK.EstimateMonotone | benchmark/scbench/repo_qa_utils.py:98-104 | more correct samples never lower the estimate |
| WaveAdmission.Probe.AdmitWave | benchmark/efficiency/bench_probe.py:801-821 | the next slice of the trace is admitted as the current wave, or an id repeats among the admitted requests, exactly |
| WaveAdmission.Probe.Record | benchmark/efficiency/bench_probe.py:830-848 | exactly the admitted requests with a token in either report get a first token, and the retired ones are those reported finished |
| WaveAdmission.Probe.Serve | benchmark/efficiency/bench_probe.py:801-856 | the loop is where `After` says after its steps, none of which found the engine finished, and its outcome follows from that state |
| WaveAdmission.WavesPartition | benchmark/efficiency/bench_probe.py:801-827 | for every engine the waves partition the admitted part of the trace in order, all but the last full, and the last too while requests are left |
| WaveAdmission.WaitingBounded | benchmark/efficiency/bench_probe.py:801-854 | for every engine, never more than one wave's worth of admitted requests are without a first token, after an iteration or within it |
| WaveAdmission.RecordsExactly | benchmark/efficiency/bench_probe.py:830-848 | over the whole script: a first token is recorded exactly for a request of which some step, after its admission, reported tokens in either report; a retirement exactly for one reported finished |
| WaveAdmission.EarlyEndIsSilent | benchmark/efficiency/bench_probe.py:852-856 | the loop ends with requests left over only after one was reported finished of which no step had reported tokens, neither among the published ones nor with its retirement |
| PhaseRuns.GroupsAreRuns | benchmark/efficiency/metrics.py:556-589 | the reference grouping: nonempty uniform groups, alternating, together the busy steps in order |
| PhaseRuns.RunCounts | benchmark/efficiency/metrics.py:556-589 | prefill and decode run counts add to the groups and differ by at most one |
| PhaseRuns.RunTotals | benchmark/efficiency/metrics.py:556-589 | the run durations add up to the busy time |
| PhaseRuns.BusyTime | benchmark/efficiency/metrics.py:556-589 | busy time is the last time minus idle time |
| PhaseRuns.DecisionCount | benchmark/efficiency/metrics.py:556-589 | the decision counts add up to the number of busy steps |
| PhaseRuns.PhaseMetrics | benchmark/efficiency/metrics.py:556-589 | the loop reports the busy steps cut into maximal blocks of one phase, each block's time in order under its phase, the number of changes, the decode batches in order, each reason's count, and the busy steps' waits in order by kind; raises if and only if times decrease or start below 0 |
| JitteredLengths.Deal | benchmark/efficiency/workload.py:92-97 | the dealt lengths are as many as asked for, in range, balanced to within one, and the first two differ |
| JitteredLengths.Jittered | benchmark/efficiency/workload.py:64-101 | each error's exact condition; in the varying case the lowest length is the target less the jitter rounded half to even, neither below one token, and for every shuffle the count, range and balance are exact with two different lengths, the repair branch dead |
| Percentile.QuantileMonotone | benchmark/efficiency/metrics.py:24-34 | the value does not fall as the quantile rises |
| Percentile.PercentileExact | benchmark/efficiency/metrics.py:24-34 | a share of the way through the gap between two neighbouring samples of any sorted list of them, the value is that share of the way between the two |
| Percentile.Extremes | benchmark/efficiency/metrics.py:24-34 | 0 and 1 give the minimum and maximum, which bound every quantile |
| Percentile.OrderIrrelevant | benchmark/efficiency/metrics.py:24-34 | permuting the samples changes nothing |
| PrefixCache.EligibleGreatest | benchmark/scbench/run_scbench.py:98-117 | the eligible size is the greatest whole number of blocks within the reusable prefix and all but the last prompt token |
| PrefixCache.ChecksPass | benchmark/scbench/run_scbench.py:341-366 | the metric check passes if and only if the cached tokens are the stated whole blocks and leave a prompt token to compute |
| PrefixCache.CommonPrefixLen | benchmark/scbench/run_scbench.py:106-112 | the loop returns the length of the common prefix |
| PrefixCache.CommonPrefixLongest | benchmark/scbench/run_scbench.py:106-112 | exactly the lengths up to it give equal prefixes |
| PrefixCache.Client.RunOneRequest | benchmark/scbench/run_scbench.py:368-492 | one record with the plan, the check's verdict and the engine's figures; the kept prefix changes if and only if the request succeeded |
| PrefixCache.Client.TestScdq | benchmark/scbench/run_scbench.py:500-535 | one record per turn up to the first that raises; each turn is planned with the longest prefix its input shares with any earlier turn of the example that passed, with its generated tokens, or with the prefix kept from before if the first turn did not pass, and with the context when there is none; the prefix of the last turn that passed is kept |
| PrefixCache.SharedContextPlanned | benchmark/scbench/run_scbench.py:500-535 | a plan covers the shared context if and only if it is the first turn, a turn was served, nothing was kept before, or the stale prefix shares the context |
| PrefixCache.StaleSession | benchmark/scbench/run_scbench.py:500-535 | a session that fails it: an example is served, the next one's first turn fails the metric check with cached tokens that are no whole number of blocks, and its second turn is planned below the context both share |
| PrefixCache.ReuseTotals | benchmark/scbench/run_scbench.py:120-166 | covered plus beyond is cached; covered is at most planned; beyond is 0 if and only if no request went beyond |
| PrefixCache.OneRecord | benchmark/scbench/run_scbench.py:120-166 | of one record's cached tokens those within its planned ones are covered and the rest beyond |
| PrefixCache.Summarize | benchmark/scbench/run_scbench.py:229-292 | the sums over exactly the successful records, their conservation, and the status' exact meaning |
| PrefixCache.RecomputedPerSuccess | benchmark/scbench/run_scbench.py:229-292 | over records of this client, at least one prompt token is recomputed per success with a prompt |
| ShardMerge.StrideAt | benchmark/long_bench/pred.py:887-887 | element k of a shard is element rank + k × world, and no more |
| ShardMerge.MapStride | benchmark/long_bench/pred.py:887-887 | a worker's file is the same strided slice of the single-worker file |
| ShardMerge.ShardsPartition | benchmark/long_bench/pred.py:887-887 | the shards together are the list, nothing lost or repeated |
| ShardMerge.AddWorker | benchmark/long_bench/pred.py:334-351 | a worker's rows are appended, or a duplicate is reported if and only if an identity repeats |
| ShardMerge.MergeWorkers | benchmark/long_bench/pred.py:314-361 | for every world size and prediction: a duplicate if and only if the single-worker file has one, else that file sorted by source index |
| ShardMerge.MergedIsSingle | benchmark/long_bench/pred.py:352-361 | that is the single-worker file row for row if and only if its source indices increase |
| ShardMerge.PrepareRows | benchmark/long_bench/pred.py:823-887 | the wanted front of the file, each row under the index its fields give it or its position, or its first long enough rows under their positions; the indices rise unless the file carries its own and no selection replaces them |
| ShardMerge.MergedFile | benchmark/long_bench/pred.py:314-361 | for every world size and prediction the merged file is the single worker's file row for row, without a duplicate, if and only if the indices rise |
| ShardMerge.RunTask | benchmark/long_bench/pred.py:820-905 | from the dataset file to the merged file: for files without index fields, or with a selection, every world size gives the single worker's file row for row, which has each row's prediction under its index |
| ShardMerge.PresetsFail | benchmark/long_bench/pred.py:825-826 | a file with an index field that repeats an identity, and one whose rows change places |

## Left out

- The state after a caught exception: runs end at the first exception, as the drivers let it propagate.
- Rounding of floating-point numbers, and the finiteness check of `percentile`: values are reals.
- Request ids are integers; the window only compares and sorts them.
- QueueAdapter.Adapter.EventLoop: the other ranks' gathered counters are part of the script; the peak and progress fields and the JSON written at the end are not modelled.
- QueueAdapter.Adapter.EventLoop: assumes that the result queue holds exactly the results not yet processed and that a new result's handle differs from the one still waiting, as `id()` of two live objects does.
- NativeDriver.BenchmarkTask: admission waves, capacity errors, prefix statistics and step timing around the window calls; the strict-batch preemption error is kept. The script's end stands for the loop's end.
- QueueAdapter.Adapter.EventLoop: the shape of the overlapping scheduler's loop (choose a batch, run it, queue its result, process the previous one) comes from an engine outside the repository and is assumed.
- CleanStretch.LoopMeasures: about a clean stretch, as is OverlappedStretch.LoopMeasures; NativeReadings.TaskExact and OverlappedReadings.LoopExact are about every script, but do not say which error the others raise.
- OfficialPreparation.ParallelMatchesSequential: over arbitrary completion orders, as is OfficialPreparation.EveryReport; a pool that starts its rows first in, first out cannot produce all of them and has its own condition in FifoPreparation.
- FifoPreparation.FifoMatchesSequential: of the rows handed over before one that is done, fewer than `workers` are unfinished; nothing more is assumed of the pool.
- OfficialPreparation.PrepareParallel: worker processes, their initialization and pickling.
- SampleSelection.SelectionPermuted: speaks of the reference, which SelectSamples equals; the recorded source positions do change.
- RepetitionFit.FitRepetitionCount: requires that some power of two from 2 on does not fit; otherwise the doubling loop does not end.
- VariableTracking.GenerateInputOutput: the binding of the answer is stated for distinct names; colliding names are in VariableCollisions. Prompt templates and the in-context example are left out.
- VariableCollisions.CollisionExact: when another chain drew the first chain's value, or the noise has fewer than 2 × (hops + 1) − 1 lines, only the if half is stated (VariableCollisions.AloneHolds).
- VariableCollisions.DrawNames: takes the draws as a sequence in which enough different names occur; otherwise the loop does not end.
- WaveAdmission.Probe.Serve: the loop is cut off at the end of a script; timestamps, cache statistics and live-request peaks are left out.
- PrefixCache.Client.TestScdq: token ids for each turn are given; the multi-turn variant, latencies, cache statistics and the JSON lines are left out. The block size is never zero, since the configuration falls back to 16.
- ShardMerge.RunTask: the per-task files only, whose identity is the source index; the raw, parsed and sample files, the missing-identity error and the record of a task skipped for too few selected rows are left out.
- PassAtK.EstimateIsBinomialRatio: one problem; the mapping over problems is left out.
- PhaseRuns.PhaseMetrics: the final means and percentiles over the lists are left out.
- The other word tasks of `ruler_vt/tasks.py`, seeds and prompt templates.
- The window drain of `benchmark/vllm_microbench.py`: it rests on the engine's batch queue, which is not part of the repository.
- Engine internals, tokenizers, chat templates, scoring, FLOP formulas, reports and command lines.
