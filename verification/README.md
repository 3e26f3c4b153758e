# robot-data-harness: verified model

A Dafny model of the parts of robot-data-harness where something can go subtly wrong: a
shared job queue, crash-and-retry storage protocols, a glob compiler, concurrent retrying
inference, and the sequence and string algorithms of the data lake. `dafny verify
dfyconfig.toml` checks all of it.

| file | what it models |
|---|---|
| `JobState.dfy` | job statuses, transitions, outcome rule |
| `JobQueue.dfy` | the inference_jobs table under any interleaving of API, workers, CLI runs and crashes |
| `JobProgress.dfy` | what can still become of any job, and what dead processes leave behind |
| `JobWorker.dfy` | the worker loop and the dry run on an undisturbed queue |
| `Normalize.dfy` | interleaved normalize attempts that may die after any object-store call |
| `NormalizeRun.dfy` | one normalize attempt as the program runs it, shown to follow that protocol |
| `ManifestTruth.dfy` | exactly when a manifest's totals and episode count are right |
| `FeatureRun.dfy` | build-features: four tables, then the manifest |
| `Layout.dfy` | where manifests are written and where the scan looks, on s3 and on local lakes |
| `Scan.dfy` | scanning with skip of finished datasets, through the normalize and features above |
| `Download.dfy` | the parallel download cache with `.part` files and size-only skipping |
| `DownloadRun.dfy` | one call of `download_dir` as the program runs it, shown to follow that protocol |
| `LocalPath.dfy` | what pathlib and the file system make of a relative name |
| `Glob.dfy` | the glob-to-regex compiler down to the emitted text, and the fnmatch fallback |
| `OneLevel.dfy` | exactly when `*` stays within one level |
| `Planner.dfy` | include/exclude, file cap, byte cap, plan totals |
| `Schemas.dfy`, `Failures.dfy` | samples, predictions, error classification |
| `Batches.dfy` | input rows to samples, sample identifiers, batching |
| `Executor.dfy` | one batch with retries and the id-keyed dictionary |
| `BatchRuns.dfy` | many batches one after the other, and fail-fast |
| `Concurrent.dfy` | pool threads interleaving sample by sample |
| `OneByOne.dfy` | sequential execution as one of the schedules |
| `Repeats.dfy` | exactly when repeated identifiers do harm |
| `Resends.dfy` | exactly when re-sending ignores the retryable classification |
| `Accounting.dfy` | counts, error summary and outcome of a run |
| `Segments.dfy` | trajectory run-length segmentation |
| `Episodes.dfy` | cross-shard episode grouping with a stable sort |
| `Shards.dfy` | from shard files to those rows, missing columns included |
| `Quaternion.dfy` | Euler angles to unit quaternions |
| `LakeUri.dfy` | slash collapsing, URI parsing and joining |
| `Percentile.dfy` | interpolated percentiles and metrics |

Protocols are state machines: a run is any list of steps, and a step that is not enabled does
nothing, so a statement about every run covers every interleaving and every crash point.
Code that loops or updates state is a method or a class, proved against specification
functions or against the protocol. Clocks, the network, the backend's answers, the source's
content and the order of events are parameters.

## Where the code differs from its documentation

Each point names the failing input and the exact condition under which the promise holds.

- `_match_any` does not keep `*` within one level: `d/*` matches `d/a/b`
  (`OneLevel.OneLevelPromiseFails`), because fnmatch is asked too. It is right about a key for
  all set-free patterns exactly when the key has no slash (`OneLevel.KeyIsSafeIff`), and a
  set-free pattern that does not mix single and double stars is right on all keys exactly when
  it holds neither a single star nor a `?` (`OneLevel.PatternIsSafeIff`); without `**`, that
  is when it holds neither `*` nor `?` (`OneLevel.SingleStarsAreUnsafe`). It equals fnmatch
  alone exactly when the pattern holds no `**/` token (`Glob.FallbackSubsumesRegex`).
- The compiled regular expression is right about a key for all patterns exactly when the key
  holds no newline (`Glob.NewlineConditionIsExact`).
- A negative `max_files` is not a cap but a slice from the end; the cap is kept exactly when it
  is not negative (`Planner.FileCapRespected`).
- A sample limit of zero or less still yields one sample: on non-empty input the limit is kept
  exactly when it is at least one (`Batches.Build`).
- Generated sample ids never collide, ids carried by the input may
  (`Batches.CarriedIdsMayCollide`); all ids are distinct exactly when no row brings an id that
  another row brings or is given (`Batches.DistinctIff`).
- Batched execution gives every sample what predicting it alone gives, for all backends and
  schedules, exactly when no two samples share an id (`Repeats.FaithfulIff`): in the batch
  `[s, s]` an OK first answer can be overwritten by a failed second one
  (`Repeats.OkIsOverwritten`). For backends that answer a
  sample always alike it is enough, and needed, that samples of one batch sharing an id are
  equal (`Repeats.StatelessFaithfulIff`).
- `_predict_with_retry` promises to re-send failing samples that are retryable and re-sends
  every failing one, an `OPENAI_BAD_RESPONSE` for instance (`Resends.BadResponseIsResent`). A
  round, or a run, sends no more than promised exactly when every failure it re-sends is
  retryable (`Resends.ResendsWorthIff`, `Resends.SentWorthIff`).
- `normalize` says it clears the old manifest on force; it does not. When the source may change
  between two values, the manifest's totals are those of the files beside it in all reachable
  states exactly when both values have the same sample count and the same duration
  (`ManifestTruth.TotalsMatchIff`; `ManifestTruth.TotalsCanDiffer` gives the run otherwise).
- A resumed manifest always says one episode: a manifest's episode count is right exactly when it
  is a fresh one or there is one episode (`ManifestTruth.EpisodeCountIff`), and right in all
  histories exactly when there is one (`ManifestTruth.EpisodesMatchIff`).
- A shard without an episode column is meant to be an episode of its own; all such shards are
  merged into episode zero (`Shards.MissingColumnMerges`). The promise is kept exactly when
  there is at most one, and then no other row carries episode zero (`Shards.OwnEpisodesIff`).
- The download cache keeps files complete in all runs exactly when different object names lead to
  different files and no temporary file is a name's file (`Download.NoClashIsExact`). `a/b` and
  `a//b` are two objects and one file (`Download.DoubleSlashClashes`); for plainly spelled
  names the condition is that no name is another one plus `.part` (`Download.PlainNamesClash`).
- A local path that looks like a URI does not survive re-parsing (`LakeUri.ParseIdempotent`).
- FAILED is listed as terminal but has successors; every other terminal status is final
  (`JobState.TerminalIsFinalIff`).

## Model

| member | source | states |
|---|---|---|
| `JobState.TerminalButNotFinal` | src/robot_dh/ai_tasks/state.py:30-44 | on a valid history, the only terminal status that can be passed is FAILED, and only towards RETRYING or DEAD_LETTER |
| `JobState.TerminalIsFinalIff` | src/robot_dh/ai_tasks/state.py:30-44 | a terminal status ends every valid history it occurs in iff it is not FAILED; FAILED is the one that does not, with a history that goes on after it |
| `JobState.NoWayBack` | src/robot_dh/ai_tasks/state.py:35-44 | no valid history ever returns to CREATED or QUEUED |
| `JobState.VerdictsAgree` | workers/autodl_inference_worker/worker.py:192 | the worker's threshold and `evaluate_job_outcome` agree for all counts, and fail exactly when more than half failed |
| `JobState.FailsIff` | src/robot_dh/ai_tasks/state.py:71-96 | for every threshold and every positive number of samples, a run without fail-fast is FAILED iff the failures exceed the threshold times the samples; with fail-fast always; the error rate times the samples is the failures |
| `JobState.OutcomeConsistent` | src/robot_dh/ai_tasks/state.py:71-83 | exit code, status and warning always agree, and the status is a legal successor of RUNNING |
| `JobQueue.Reachable` | workers/autodl_inference_worker/worker.py:126-148 | the ownership and history invariant holds after every run of any number of processes with crashes anywhere |
| `JobQueue.OneOwner` | workers/autodl_inference_worker/worker.py:126-148 | each stored enqueued job is claimed at most once, is QUEUED exactly while unclaimed, and is held exactly by its one claimer while RUNNING |
| `JobQueue.FinalizeNeedsNoGuard` | workers/autodl_inference_worker/worker.py:216-232 | whenever the unguarded finalize runs, its row is RUNNING, held by this worker alone and never a CLI run's |
| `JobQueue.HistoriesAreValid` | src/robot_dh/inference/runner.py:143-225 | statuses given to a job form a path of the transition table, the row saw a subsequence of it and shows its last entry; worker-driven rows lose nothing |
| `JobQueue.SettledForever` | src/robot_dh/inference/job.py:93-110 | however a run continues, rows are not lost, never return to QUEUED and never leave SUCCEEDED |
| `JobQueue.SucceededIsOffered` | src/robot_dh/inference/runner.py:195-225 | a CLI run whose row shows SUCCEEDED has no further status to write |
| `JobQueue.FirstMeans` | workers/autodl_inference_worker/worker.py:130-135 | in the row fields: a row the claim may pick is a QUEUED row of the model, no other such row has higher priority, none of equal priority is older |
| `JobQueue.OwnModelOnly` | workers/autodl_inference_worker/worker.py:126-148 | in every run, the job a worker has selected or holds has a row of the worker's own model |
| `JobProgress.CanBeServed` | workers/autodl_inference_worker/worker.py:126-261 | after every run, every job whose row is QUEUED can still be brought to either verdict, however many jobs precede it and whichever processes died |
| `JobProgress.CliCanSucceed` | src/robot_dh/inference/runner.py:143-225 | after every run, a live CLI run that has not failed and not yet offered SUCCEEDED can still bring its row to SUCCEEDED, even if all earlier writes were lost |
| `JobProgress.OrphansStay` | workers/autodl_inference_worker/worker.py:216-261 | however a run goes on, the row and history of a job whose worker or CLI run died never change again; a row whose worker died running it says RUNNING for good |
| `JobWorker.SelectFirst` | workers/autodl_inference_worker/worker.py:130-135 | the row selected is QUEUED and of the model, no such row has higher priority or equal priority and is older; none is selected only if no row is QUEUED and of the model |
| `JobWorker.OrderMeans` | workers/autodl_inference_worker/worker.py:118-121 | in the row fields: an order of the queue lists exactly the QUEUED rows of the model, each once, priorities never rising and creation times never falling among equals |
| `JobWorker.QueueUnique` | workers/autodl_inference_worker/worker.py:118-121 | priority-descending, oldest-first order of the waiting jobs is unique |
| `JobWorker.OrderExists` | workers/autodl_inference_worker/worker.py:118-121 | every table, ties included, has a list the ORDER BY may return: each waiting job once, none before one that precedes it |
| `JobWorker.QueueExists` | workers/autodl_inference_worker/worker.py:118-121 | without ties it is the strict queue order |
| `JobWorker.JobTable.ListQueued` | workers/autodl_inference_worker/worker.py:114-123 | the dry run lists the first `limit` jobs of an order of the queue, each a QUEUED row of the model, priority-descending and oldest-first; a shorter list holds all of them; nothing changes |
| `JobWorker.JobTable.ClaimNextJob` | workers/autodl_inference_worker/worker.py:126-148 | claims a QUEUED row of the model that no other such row precedes by priority or age, changing only its status; claims nothing only if no row is QUEUED and of the model |
| `JobWorker.JobTable.FinalizeJob` | workers/autodl_inference_worker/worker.py:216-232 | sets the status of the named row and nothing else |
| `JobWorker.JobTable.RunWorker` | workers/autodl_inference_worker/worker.py:253-261 | runs exactly the first min(max_jobs, waiting) jobs of an order of the queue, cut short only by a raising job, with their verdicts; every job run was QUEUED and of the model, and rows of other models and all other rows are unchanged |
| `Normalize.TablesRecount` | src/robot_dh/etl/normalize.py:382-395 | counting pose rows and summing the duration column of the outputs gives the totals a fresh run computes from the source |
| `Normalize.TotalsGrow` | src/robot_dh/etl/normalize.py:742-750 | the totals grow with each episode by its rows and the sum of its timestamp gaps |
| `Normalize.OutputsMean` | src/robot_dh/etl/normalize.py:211-242 | entry by entry: each episode's pose rows are one slice of the pose table, in order; its episode row has its sample count and the sum of the gaps between its timestamps as duration |
| `Normalize.PoseRowAt` | src/robot_dh/etl/normalize.py:235-242 | row r of episode e stands in the pose table after the rows of the episodes before it, as row r |
| `Normalize.ManifestImpliesOutputs` | src/robot_dh/etl/normalize.py:605-672 | over any interleaved attempts with any flags, failing reads and crashes, a manifest is present only if all three outputs are |
| `Normalize.CommittedContent` | src/robot_dh/etl/normalize.py:797-906 | with a fixed source, every history that reaches a manifest leaves exactly the source's outputs: every episode's own pose rows in their place, its sample count and summed timestamp gaps, its video entry; fresh and resumed manifests record the same count and duration |
| `Normalize.LaterAttemptsSkip` | src/robot_dh/etl/normalize.py:605-640 | once a manifest is there, every unforced attempt that begins afterwards and can read it is idle, skips or dies, whoever else is still writing |
| `Normalize.WritersWereThere` | src/robot_dh/etl/normalize.py:605-640 | every put from then on is made by an attempt that was already under way |
| `Normalize.LaterAttemptsWriteNothing` | src/robot_dh/etl/normalize.py:605-640 | so with no writer left under way the store never changes again |
| `ManifestTruth.TotalsMatchIff` | src/robot_dh/etl/normalize.py:642-645 | if the source may change between two values, the manifest's sample count and duration are those of the pose and episode files in all reachable states iff both values have the same count and duration |
| `ManifestTruth.TotalsCanDiffer` | src/robot_dh/etl/normalize.py:642-645 | otherwise a run with a dying forced rerun leaves a manifest that disagrees with the file just uploaded |
| `ManifestTruth.EpisodeCountIff` | src/robot_dh/etl/normalize.py:440 | with a fixed source, a manifest counts the episodes right iff it is fresh or there is one episode |
| `ManifestTruth.EpisodesMatchIff` | src/robot_dh/etl/normalize.py:440 | it does so in every history iff there is one episode; otherwise a crash before the manifest and a resume get it wrong |
| `NormalizeRun.OutputStore.AllPresent` | src/robot_dh/etl/normalize.py:377-379 | true exactly when all outputs exist, by protocol steps |
| `NormalizeRun.OutputStore.LoadExistingMetrics` | src/robot_dh/etl/normalize.py:382-398 | returns the row count and duration sum of the stored outputs, or none when they cannot be read |
| `NormalizeRun.OutputStore.UploadAll` | src/robot_dh/etl/normalize.py:797-808 | uploads all outputs or dies, by protocol steps |
| `NormalizeRun.OutputStore.Seal` | src/robot_dh/etl/normalize.py:875-906 | writes the manifest last |
| `NormalizeRun.OutputStore.RunAfresh` | src/robot_dh/etl/normalize.py:674-945 | a completed fresh run leaves the source's outputs and exact totals |
| `NormalizeRun.OutputStore.NormalizeDataset` | src/robot_dh/etl/normalize.py:572-948 | the whole attempt follows the protocol; skips iff unforced with a readable manifest; resumes iff it does not skip, may resume, is not forced, has all outputs readable and lives through one put; completes iff neither and it lives through four puts on a non-empty source; a resumed attempt writes only the manifest, a completed one leaves every episode's own rows and durations |
| `Download.SkipIsSound` | src/robot_dh/lake/store.py:417-424 | after any calls, interleavings, failures and crashes, the file of every remote name is complete if it exists, so skipping by size is sound |
| `Download.ReturnedIsComplete` | src/robot_dh/lake/store.py:386-415 | when a call may return, every file of its listing is there and complete |
| `Download.ReturnedIsMirror` | src/robot_dh/lake/store.py:293-415 | if all calls asked for the same listing, a returning call leaves an exact mirror with no stale `.part` |
| `Download.NoClashIsExact` | src/robot_dh/lake/store.py:351-353 | completeness holds after all runs iff different names lead to different files and no temporary file is a name's file, over the paths pathlib and the file system make of the names |
| `Download.PlainNamesClash` | src/robot_dh/lake/store.py:426-438 | for names spelled without empty, `.` and `..` segments that means no name is another one plus `.part` |
| `Download.DoubleSlashClashes` | src/robot_dh/lake/store.py:351 | a listing with both `a/b` and `a//b` clashes |
| `LocalPath.PartInjective` | src/robot_dh/lake/store.py:428-429 | two names share a temporary file iff they share the file; a file is never its own temporary file |
| `LocalPath.RootMeans` | src/robot_dh/lake/store.py:351 | one leading slash or three make one root, exactly two another, none makes a relative name |
| `LocalPath.NamesMean` | src/robot_dh/lake/store.py:351 | empty segments and `.` vanish, all others stay |
| `LocalPath.UnderMeans` | src/robot_dh/lake/store.py:351 | joining a relative name appends its names, an absolute one replaces the directory |
| `LocalPath.WalkMeans` | src/robot_dh/lake/store.py:351 | the file a path leads to, step by step: `..` undoes the step before it and stays at the root, every other name goes down |
| `DownloadRun.BuildTasks` | src/robot_dh/lake/store.py:333-353 | tasks are in listing order exactly the listed names that are no directory marker, start with no exclude prefix and, if includes are given, with one of them, on the text of the names; tasks, excluded names and markers add up to the listing |
| `DownloadRun.TasksAreWanted` | src/robot_dh/lake/store.py:339-350 | every wanted name occurs as often as listed, and nothing else does |
| `DownloadRun.TasksMean` | src/robot_dh/lake/store.py:339-350 | on the text of the names: a name is a task iff it is listed, not empty, ends in no slash, has no exclude as its first characters and, if includes are given, has one of them |
| `DownloadRun.LocalDir.DownloadOne` | src/robot_dh/lake/store.py:426-438 | by protocol steps: on success the target holds the object and the `.part` is gone; after a failure the target is untouched and the `.part` removed if it can be |
| `DownloadRun.LocalDir.LookAll` | src/robot_dh/lake/store.py:386-391 | exactly the tasks whose file exists with the size of the object are skipped, the rest submitted |
| `DownloadRun.LocalDir.DownloadDir` | src/robot_dh/lake/store.py:383-415 | every call is a run of the protocol, whatever fails or dies; it returns iff every submitted name was renamed, then every task is complete and skipped plus fetched equals tasks |
| `Glob.GlobToRegex` | scripts/_local_devscale_lib.py:91-123 | the index loop emits the specified text |
| `Glob.EmittedTextMeans` | scripts/_local_devscale_lib.py:99-123 | the emitted text, read back by the regular-expression grammar, is the intended expression: escaping never lets a literal act as an operator |
| `Glob.CompiledMeansGlob` | scripts/_local_devscale_lib.py:91-98 | the language of the compiled expression is the glob's denotation |
| `Glob.GlobLaws` | scripts/_local_devscale_lib.py:91-98 | the denotation wildcard by wildcard on the pattern's text: what `**/`, `**`, `*`, `?` and any other character in front of a pattern stand for |
| `Glob.RegexAcceptsGlob` | scripts/_local_devscale_lib.py:91-123 | the emitted regex accepts exactly the keys the glob denotes, for every key without a newline |
| `Glob.NewlineConditionIsExact` | scripts/_local_devscale_lib.py:120-123 | the compiler is right about a key for all patterns iff the key holds no newline |
| `Glob.MatchAny` | scripts/_local_devscale_lib.py:126-135 | true iff some pattern matches by regex or fnmatch |
| `Glob.FnLaws` | scripts/_local_devscale_lib.py:132-134 | the fallback wildcard by wildcard: `*` and `?` cross slashes, a set runs to the first closing bracket after its opening, an unclosed bracket stands for itself |
| `Glob.GlobInFn` | scripts/_local_devscale_lib.py:132-134 | without `**/` tokens and sets, the glob's language is contained in fnmatch's |
| `Glob.FallbackSubsumesRegex` | scripts/_local_devscale_lib.py:126-135 | for set-free patterns the regex adds nothing to fnmatch iff there is no `**/` token (or a newline, and nothing matches) |
| `OneLevel.KeyIsSafeIff` | scripts/_local_devscale_lib.py:14-16 | the matcher is the glob on a key for all set-free patterns iff the key has no slash |
| `OneLevel.PatternIsSafeIff` | scripts/_local_devscale_lib.py:126-135 | for set-free patterns that do not mix single and double stars the matcher is the glob on all keys iff there is no single star and no `?` (or a newline, and nothing matches) |
| `OneLevel.SingleStarsAreUnsafe` | scripts/_local_devscale_lib.py:126-135 | without `**`: iff the text holds neither `*` nor `?` |
| `OneLevel.QuestionMarkBreaks` | scripts/_local_devscale_lib.py:126-135 | in any set-free pattern a `?` lets some key through that the glob does not denote |
| `OneLevel.OneLevelPromiseFails` | scripts/_local_devscale_lib.py:14-16 | `d/*` matches `d/a/b` although the glob does not denote it |
| `Planner.KeepIsFilter` | scripts/_local_devscale_lib.py:193-194 | the comprehensions keep every wanted occurrence and nothing else |
| `Planner.SliceMeans` | scripts/_local_devscale_lib.py:198-200 | the file-cap slice is a prefix: the first n if n is not negative, all but the last -n otherwise |
| `Planner.TakeWithinBytes` | scripts/_local_devscale_lib.py:202-215 | the greedy loop returns a prefix with its real sum, stopping exactly where the next file does not fit |
| `Planner.FilterForDataset` | scripts/_local_devscale_lib.py:184-227 | the selection is the greedy prefix of include-minus-exclude under the file cap, and every statistic is exact |
| `Planner.SelectionIsLongest` | scripts/_local_devscale_lib.py:197-215 | a prefix of the candidates is within the selection iff it fits both caps |
| `Planner.FileCapRespected` | scripts/_local_devscale_lib.py:198-200 | the file cap is respected iff it is not negative |
| `Planner.RaisingCapsExtends` | scripts/_local_devscale_lib.py:197-215 | raising either cap only extends the selection |
| `Planner.Plan` | scripts/_local_devscale_lib.py:251-320 | plan totals are the count and byte sum of all planned files and the over-limit flag is exact |
| `Batches.IterBatches` | src/robot_dh/inference/batch.py:171-175 | the batches glue back to the samples, none is empty, all but the last are full |
| `Batches.Build` | src/robot_dh/inference/batch.py:53-74 | samples are the rows of the readable files in order, cut by the limit rule, or an error if there are none; the limit is kept iff it is at least one |
| `Batches.SampleMeans` | src/robot_dh/inference/batch.py:116-132 | each sample in its row's own terms: its dataset, version and episode with their fallbacks, and its identifier, carried or assembled from them and the row number |
| `Batches.GeneratedIdsDistinct` | src/robot_dh/inference/batch.py:124-132 | generated sample ids are pairwise distinct across all files |
| `Batches.DistinctIff` | src/robot_dh/inference/batch.py:124-132 | the samples' ids are distinct iff no row brings an id that another row brings or is given |
| `Executor.FirstOkWins` | src/robot_dh/inference/runner.py:296-313 | a sample ends OK iff one of its attempts is OK, and then with the first OK one |
| `Executor.FinalsMean` | src/robot_dh/inference/runner.py:296-313 | the reference without its helpers: a sample ends OK iff one of the attempts 0..max(0, retry) is OK, with the answer of the first such attempt, else with that of the last |
| `Executor.Backend.PredictBatch` | src/robot_dh/models/backends/base.py:29-40 | one answer per sample in order, each with its id's next attempt, repeated ids included |
| `Executor.NotOkMembers` | src/robot_dh/inference/runner.py:307 | exactly the samples whose stored prediction is not OK are re-sent, as often as they occur |
| `Executor.DictionaryFaithfulIff` | src/robot_dh/inference/runner.py:305-313 | the id-keyed dictionary gives back every list of predictions iff no two samples share an id |
| `Executor.BatchKnows` | src/robot_dh/inference/runner.py:305-313 | whatever ids repeat, every sample of the batch has a prediction of its own id |
| `Executor.BatchIsReference` | src/robot_dh/inference/runner.py:296-313 | with distinct ids, a batch with retries equals predicting its samples one at a time, and asks the backend exactly as often |
| `Executor.BatchMeans` | src/robot_dh/inference/runner.py:296-313 | with distinct fresh ids, after a batch: a result is OK iff one of the attempts 0..max(0, retry) is, and each sample was sent between once and 1 + max(0, retry) times |
| `Resends.ResendsWorthIff` | src/robot_dh/inference/runner.py:303-311 | a round re-sends only failures worth a retry iff every stored failure is |
| `Resends.SentWorthIff` | src/robot_dh/inference/runner.py:303-311 | a sample is sent no more often than documented iff every failure it was re-sent after was worth a retry |
| `Failures.RetryableHeads` | src/robot_dh/inference/failures.py:40-55 | a message is retryable iff it is empty or its head is one of three types, and every message gets a type |
| `Failures.TypeMeans` | src/robot_dh/inference/failures.py:40-55 | the type of a message in terms of the text before its first colon: a known type, a word of letters, digits and underscores, or the general prediction error |
| `Executor.PredictWithRetry` | src/robot_dh/inference/runner.py:296-313 | on any batch the retry loop computes the specified rounds; with distinct fresh ids a result is OK iff one of the attempts 0..max(0, retry) is OK, and no sample is sent more than 1 + max(0, retry) times |
| `BatchRuns.RunFailFast` | src/robot_dh/inference/runner.py:266-284 | on any batches: triggered iff some prediction is not OK, stops after the first failing batch, sends nothing later, one prediction per sample in order, the unsent ones failed placeholders |
| `BatchRuns.RunSequential` | src/robot_dh/inference/batch.py:188-189 | on any batches one prediction per sample in order; with distinct ids each is OK iff one of its attempts 0..max(0, retry) is |
| `BatchRuns.AllIsReference` | src/robot_dh/inference/batch.py:188-189 | batch after batch with distinct ids equals the reference, prefix by prefix |
| `BatchRuns.AllUntouched` | src/robot_dh/inference/runner.py:266-284 | ids outside the batches sent are never sent |
| `Repeats.FaithfulIff` | src/robot_dh/inference/batch.py:178-197 | for every backend and schedule each finished thread holds its batch's reference results, iff no two samples of the input share an id |
| `Concurrent.FinalsFlatten` | src/robot_dh/inference/batch.py:191-197 | slots that hold their batch's reference results, collected in slot order, equal predicting one sample at a time, index by index |
| `Concurrent.OnePredictionEach` | src/robot_dh/inference/batch.py:178-197 | whatever ids repeat, once finished the collected list has one prediction per sample at its index |
| `OneByOne.SequentialIsASchedule` | src/robot_dh/inference/batch.py:188-197 | some schedule of the pool yields exactly what sequential execution yields |
| `Concurrent.CanAlwaysFinish` | src/robot_dh/inference/batch.py:190-197 | after any schedule, on any samples, some continuation finishes all threads |
| `Repeats.TwinsBreakFaith` | src/robot_dh/inference/runner.py:305-313 | with a repeated id, a backend that numbers its answers is misreported under every schedule that finishes |
| `Repeats.StatelessFaithfulIff` | src/robot_dh/inference/runner.py:305-313 | for backends that answer a sample always alike the condition is: samples of one batch sharing an id are equal |
| `Accounting.Summarize` | src/robot_dh/inference/runner.py:190-193 | the error summary counts each failed record once and sums to the failures |
| `Accounting.Account` | src/robot_dh/inference/runner.py:176-206 | succeeded plus failed equals records equals samples, the summary counts the classified failures, and the outcome is the rule applied to them |
| `Accounting.FailFastAccounting` | src/robot_dh/inference/runner.py:279-284 | a fail-fast run counts a real failure plus every unsent sample and ends FAILED with exit code 1 |
| `Segments.SumDeltas` | src/robot_dh/etl/features.py:309 | the sum of step lengths inside a segment |
| `Segments.ComputeSegments` | src/robot_dh/etl/features.py:268-346 | segments tile all frames into maximal runs with exact times and distances |
| `Segments.ExpandGivesStates` | src/robot_dh/etl/features.py:278-280 | expanding the segments gives back the per-frame states |
| `Segments.FrameInOneSegment` | src/robot_dh/etl/features.py:303-345 | every frame lies in exactly one segment |
| `Segments.EncodingUnique` | src/robot_dh/etl/features.py:283-299 | the run-length code is unique, so the one-frame shortcut agrees with the loop |
| `Segments.TotalsConserved` | src/robot_dh/etl/features.py:301-345 | segment distances plus boundary steps are the path length, durations plus gaps the total time |
| `Episodes.Unique` | src/robot_dh/lake/hf_adapters.py:1048 | each episode number once, none missing |
| `Episodes.EmitEpisodes` | src/robot_dh/lake/hf_adapters.py:1034-1083 | one bundle per episode number, none repeated, none missing |
| `Episodes.OrderIsStable` | src/robot_dh/lake/hf_adapters.py:1050-1054 | the order holds exactly the episode's rows, sorted by frame and then by position |
| `Episodes.BundleRowsAligned` | src/robot_dh/lake/hf_adapters.py:1054-1063 | poses, times and actions of a bundle come entry by entry from one source row, frames non-decreasing; its times are absent iff all its rows' times are, and otherwise each is the row's own or 0.0 where that is missing |
| `Episodes.EpisodeRowsMean` | src/robot_dh/lake/hf_adapters.py:1049-1063 | row k of an episode holds the columns of the k-th index of its order |
| `Episodes.RowInOneBundle` | src/robot_dh/lake/hf_adapters.py:1049-1054 | every row lands in exactly one bundle at exactly one place |
| `Episodes.ConcatRows` | src/robot_dh/lake/hf_adapters.py:990-1031 | concatenation keeps every row, and actions only if every record has them |
| `Episodes.BundlesDependOnRowsOnly` | src/robot_dh/lake/hf_adapters.py:1034-1083 | with unique (episode, frame) pairs, equal row collections give equal bundles |
| `Episodes.ShardingIrrelevant` | src/robot_dh/lake/hf_adapters.py:990-1083 | equal collections of record rows with unique keys give equal bundles |
| `Shards.Adapt` | src/robot_dh/lake/hf_adapters.py:1086-1157 | from shard files: nothing for none, an error if no shard is usable, else exactly one bundle per episode number found |
| `Shards.CollectMeans` | src/robot_dh/lake/hf_adapters.py:945-987 | a record's columns are the shard's own, or zeros for episodes, row positions for frames and missing times |
| `Shards.RowsAt` | src/robot_dh/lake/hf_adapters.py:990-1031 | row by row, the concatenation holds each record's own rows, one record after the other |
| `Shards.SpreadIrrelevant` | src/robot_dh/lake/hf_adapters.py:921-1083 | the bundles depend neither on shard order nor on how rows are spread over shards |
| `Shards.SplitKeepsRowsIff` | src/robot_dh/lake/hf_adapters.py:963-972 | splitting a shard in two keeps its rows iff it has a frame column |
| `Shards.MissingColumnMerges` | src/robot_dh/lake/hf_adapters.py:951-953 | every row of every shard without an episode column lands in episode zero |
| `Shards.OwnEpisodesIff` | src/robot_dh/lake/hf_adapters.py:951-953 | such shards are episodes of their own iff there is at most one and then no other row carries episode zero |
| `Quaternion.IsAxisProduct` | src/robot_dh/lake/hf_adapters.py:140-159 | the closed form is the Hamilton product of yaw, pitch and roll quaternions |
| `Quaternion.HamiltonRules` | src/robot_dh/lake/hf_adapters.py:155-158 | what multiplying by i, j, k and one from the left makes of every quaternion, as Hamilton's table says |
| `Quaternion.TimesDistributes` | src/robot_dh/lake/hf_adapters.py:155-158 | the product distributes over sums of its left factor |
| `Quaternion.TimesScales` | src/robot_dh/lake/hf_adapters.py:155-158 | and scales with it, so multiplying by i, j, k and one determines the product |
| `Quaternion.NormTimes` | src/robot_dh/lake/hf_adapters.py:155-158 | norms multiply under the Hamilton product |
| `Quaternion.UnitNorm` | src/robot_dh/lake/hf_adapters.py:140-159 | every angle triple gives a unit quaternion |
| `Quaternion.PosesAreUnit` | src/robot_dh/lake/hf_adapters.py:690-700 | every emitted pose row keeps its position and carries the product of the axis rotations of its own half angles, of norm one; narrow rows are refused |
| `LakeUri.StripDoubleSlashes` | src/robot_dh/lake/uri.py:98-101 | the rewriting loop terminates and yields split, drop empty, rejoin |
| `LakeUri.CanonicalIdempotent` | src/robot_dh/lake/uri.py:98-101 | collapsing is idempotent and keeps the segments |
| `LakeUri.ParseIdempotent` | src/robot_dh/lake/uri.py:104-143 | re-parsing canonical text is the identity for s3; for local paths iff the path does not look like a URI |
| `LakeUri.ParseMeans` | src/robot_dh/lake/uri.py:104-143 | what each kind of text parses to: bucket and canonical key, the path after `file://`, a plain path; an empty bucket or path is an error |
| `LakeUri.StripMeans` | src/robot_dh/lake/uri.py:149-156 | stripping takes away dropped characters at both ends only, and all of them |
| `LakeUri.SpaceMeans` | src/robot_dh/lake/uri.py:153 | blanks, tabs and line ends are dropped, printable characters are not |
| `LakeUri.LocalReparseCounterexample` | src/robot_dh/lake/uri.py:126-143 | `file://s3://b/k` does not survive re-parsing |
| `LakeUri.CleanLoop` | src/robot_dh/lake/uri.py:149-156 | the cleaning loop |
| `LakeUri.JoinUriImpl` | src/robot_dh/lake/uri.py:146-178 | the executable join appends the parts' segments to the base key on s3, and glues text on local paths |
| `LakeUri.JoinLocalMeans` | src/robot_dh/lake/uri.py:170-178 | on local paths the base without its trailing slashes, one slash and the suffix, or the one that is not empty |
| `LakeUri.JoinExtendsBase` | src/robot_dh/lake/uri.py:158-168 | a joined s3 URI keeps the bucket and extends the base key segment by segment |
| `LakeUri.JoinAssociative` | src/robot_dh/lake/uri.py:146-168 | joining in two steps equals joining once |
| `Percentile.OrderIndependent` | src/robot_dh/inference/metrics.py:11-22 | the percentile depends only on the collection of present values |
| `Percentile.PercentileMeans` | src/robot_dh/inference/metrics.py:18-22 | where the position is i + f with 0 <= f < 1, the percentile is entry i if f is zero, else entry i plus f times the step to entry i + 1 |
| `Percentile.PresentMeans` | src/robot_dh/inference/metrics.py:13 | the sorted list holds every present value as often as given |
| `Percentile.WithinRange` | src/robot_dh/inference/metrics.py:11-22 | it lies between a least and a greatest value of the list |
| `Percentile.Monotone` | src/robot_dh/inference/metrics.py:18-22 | it grows with the fraction, and is absent iff there are no values |
| `Percentile.EndPoints` | src/robot_dh/inference/metrics.py:18-22 | fractions 0 and 1 give the extremes |
| `Percentile.MetricsConsistent` | src/robot_dh/inference/metrics.py:55-79 | in every metrics record p50, p95 and p99 are the percentiles at 0.5, 0.95 and 0.99 and rise, counts add up, and the error rate is failures over samples, 0 iff nothing failed |
| `FeatureRun.FeatureStore.BuildFeatures` | src/robot_dh/etl/features.py:439-585 | the attempt leaves the specified store and succeeds iff it read its input, could compute and lived through five puts |
| `FeatureRun.AfterOne` | src/robot_dh/etl/features.py:478-578 | a successful attempt leaves all four tables and the manifest, all of the input read; no attempt breaks a committed store |
| `FeatureRun.ManifestImpliesTables` | src/robot_dh/etl/features.py:478-578 | after any history of attempts a manifest is there only if all four tables are |
| `Layout.ProbeIsWritten` | src/robot_dh/etl/runner.py:383-388 | on s3 and on local lakes the skip test looks at the very place the phases write to, for all dataset and version names |
| `Layout.ProbeMeans` | src/robot_dh/etl/runner.py:383-388 | where that is: below the root the layer's own name, the segments of the dataset's identifier and version, and the manifest |
| `Layout.LayersApart` | src/robot_dh/etl/runner.py:85-89 | the ods and dwd manifests of a dataset are never the same place |
| `Layout.RootedMeans` | src/robot_dh/lake/uri.py:104-143 | which roots the two results cover, on the text: every s3 root with a bucket, every path that is not spelled like a URI |
| `Scan.Lake.constructor` | src/robot_dh/etl/runner.py:85-89 | an empty lake: written and probed manifests coincide |
| `Scan.Lake.NormalizePhase` | src/robot_dh/etl/runner.py:198-219 | runs normalize itself; if it does not raise, the ods manifest is there, with all outputs |
| `Scan.Lake.FeaturesPhase` | src/robot_dh/etl/runner.py:221-231 | runs build-features on what the ods layer holds; it completes iff the specification says so |
| `Scan.Lake.EtlRun` | src/robot_dh/etl/runner.py:189-291 | a run that does not fail leaves both manifests where the skip test looks; an unhindered run does not fail; no manifest disappears |
| `Scan.Lake.DoneIsComplete` | src/robot_dh/etl/runner.py:383-388 | a dataset that would be skipped has all its outputs and tables |
| `Scan.Lake.Visit` | src/robot_dh/etl/runner.py:450-494 | a dataset is skipped iff unforced with both manifests present |
| `Scan.Lake.EtlScan` | src/robot_dh/etl/runner.py:414-548 | counters add up to the total (plus a failed ads step); without failures every dataset is finished; unhindered scans have none; if all are finished nothing runs |
| `Scan.LimitedMeans` | src/robot_dh/etl/runner.py:434-435 | a positive limit keeps the first so many datasets; no limit, zero or less keeps all |
| `Scan.Lake.ScanTwice` | src/robot_dh/etl/runner.py:450-464 | after a scan without failures a second unforced scan, with or without the ads step, runs nothing and skips everything |

## Left out

- Percentile rounding in `to_dict`, floating point everywhere: arithmetic is over the reals, where rounding is not the point.
- Worker liveness: the code has no lease, so a crashed job stays RUNNING (JobProgress.OrphansStay).
- JobWorker.JobTable.FinalizeJob: the counts, metrics and timestamps the UPDATE also sets are not part of the model's row.
- Glob.FnMatch: which characters a bracket set stands for is a parameter.
- OneLevel.PatternIsSafeIff: patterns that mix single and double stars are left out, because a `**` may or may not absorb what the single star lets through; with a `?` they are unsafe all the same (OneLevel.QuestionMarkBreaks).
- Normalize.CommittedContent: the wall-clock column of episode_meta and the job block of the manifest are left open.
- Normalize.ManifestImpliesOutputs: object puts are atomic; the local store's file copies are not modelled.
- Checkpoints, heartbeats, warehouse rows and lineage of normalize and build-features: they do not touch the outputs.
- Download.ReturnedIsMirror: the single-object branch of `download_dir`, symbolic links, directories in the way of files and progress logging are not modelled.
- DownloadRun.LocalDir.DownloadDir: tasks come in any order; the source sorts them by size, and starts transfers while still looking, which the protocol of Download covers.
- Layout.ProbeIsWritten: a local root whose own path is spelled like a URI (`file://s3://b`) is left out: its layer paths parse as something else.
- Failures.ErrorType: which characters count as letters and digits is a parameter.
- Schemas: of a sample's and a prediction's columns only those that some rule reads have a field; the rest is a payload.
- `make_bundle_for_episode` (fps, NaN poses), pose column detection and the order of adapter warnings: no further property.
- LakeUri.JoinAssociative: s3 bases only; a local root path loses its leading slash when joined.
- `_read_mc_objects` and the URI texts of plan entries: input parsing.
- Discovery, fnmatch filters and the ads step of the scan: their results are inputs.
- `write_predictions`, reports and events of `run_inference`: I/O.
- KMeans, peak finding, smoothing and the other numeric features: their outputs are inputs.
