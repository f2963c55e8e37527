# Grid-QA: verified models of the task queue, the replay and the retrieval kernels

The repository holds a retrieval-augmented question-answering service (`backend/`) and a separate
"LLM as a user" evaluation suite (`llm-user-suite/`).  This project models the parts of both whose
behaviour cannot be settled by reading one function, and proves what they promise for every input,
every interleaving or every run.  `dafny verify dfyconfig.toml` checks all of it.

| file | models | main results |
|---|---|---|
| `TaskQueue.dfy` | the durable task queue: leases, recovery, retries, idempotent insertion | bounded claims, termination, no starvation, exactly when a terminal row is final |
| `RunService.dfy`, `RunProtocol.dfy` | run dispatch, cancellation, the executor's and the judge's transactions, composed with the queue | one task and at most three executions per run; exactly when cancellation and completion are final and when an evaluation can end |
| `DispatchLimit.dfy` | counting and dispatching by several overlapping dispatchers | exactly when the concurrency limit holds; stranded runs block all dispatching |
| `Replay.dfy` | the stage and hint loops of a replay with their call budget, and the clean-up | call budget, consecutive hints, ends without error exactly when all stages succeeded |
| `Allowlist.dfy` | substitution of fixture values and the allowlist match | substituted paths pass exactly for templates without a dollar sign before a slot; accepted paths follow their template |
| `Scoring.dfy` | the judge's fold of the step log and its scores | ranges, meaning of a pass, for any log, of one execution or of several, exactly when the outcome is 1 in every query order |
| `Router.dfy` | circuit breaker, candidate filter, failover and streaming of model providers | the breaker refines its history; failover records; no spliced streams |
| `Cim.dfy` | the power-grid topology parser | edges are exactly the linked pairs; connectivity is preserved |
| `Citation.dfy` | sentence splitting, reference reading, automatic citation | split of join, re-splitting stability, every added tag is read back alone |
| `Verifier.dfy` | the three-stage citation check | conservation of citations, exactly when labels match one to one |
| `SemanticCache.dfy` | the bounded semantic index of the answer cache | bounded and free of twins after any run, fair eviction, nothing stale |
| `Sessions.dfy` | the behaviour sessionizer | aggregates equal the fold over the log, in any order; duplicates change nothing |
| `Mmr.dfy`, `Rrf.dfy` | diversity selection and rank fusion | greedy optimality and prefix stability; closed form, order and dominance |
| `Prelude.dfy`, `Text.dfy` | options, cardinalities, ratios, `str.strip` | |

## How to read it

- Code that changes state is a class or a method with loops, proved against a specification function
  (`RecoverAll`, `Take`, `Finished`, `Closed`, `Put`, `Touched`, `Added`, ...).  The theorems are about those functions:
  as invariants of a state machine whose steps are the same row updates, or as lemmas over whole inputs.
- The specification functions are not left to themselves: each operation also says what it does in terms of the rows,
  statuses, numbers and texts before and after (`LeasesKept`, `DispatchMeans`, `VerdictMeans`, `CauseMeans`, `RepliesDecide`,
  `EntriesMean`, `AccountsFor`, `Joins`, `HitFrom`, ...), so that neither the function nor the operation can drift alone.
- In the queue and the run protocol one `async with SessionLocal()` block is one atomic step; everything
  between two blocks is interleaved freely, and any worker or dispatcher may die at any point.
- Model calls, embeddings, HTTP, the database's tie-breaking, clocks, digests and redaction are parameters
  that may take any value.  Floats are reals; times are integers.
- Where a promise does not hold of the code, the code is kept and the exact condition is proved:
  - `finish` checks neither owner nor status, so a terminal task is final exactly when nobody still holds a claim on it
    (`TaskQueue.TerminalIsFinalIffUnheld`).
  - The judge writes `completed` unconditionally, so a cancellation is final exactly when no judge is at work on the run
    or its report exists already (`RunProtocol.CancelIsFinalIff`); a completed run is final exactly when no second
    executor is left or a cancellation was requested (`RunProtocol.CompletedIsFinalIff`), and the bad case is
    reachable from the empty system (`RunProtocol.CompletedRunCanRegress`), as is a cancelled run that completes
    (`RunProtocol.CancelledRunCanComplete`).
  - Dispatchers count active runs in one transaction and mark their selection in later ones, so overlapping counts can
    exceed the concurrency limit (`DispatchLimit.OverlapExceedsTheLimit`).  A finished run that a second executor sets back
    to evaluating becomes active again without any count, so even a count that nobody overlaps can be followed by too many
    active runs (`DispatchLimit.ReturningRunExceedsTheLimit`).  The limit holds exactly when it covers what is reserved: the
    active runs, those that dispatchers hold or have listed, and the dispatched finished runs with an executor left and no cancellation
    (`DispatchLimit.LimitHoldsIff`).  It holds in every run in which each count is taken while there is nothing of the
    last two kinds (`DispatchLimit.ExclusiveCountsHold`).
  - A worker that dies inside the judge leaves its run `evaluating`, and the retried execution returns at once.  Without a
    cancellation such a run is never closed and always counted as active (`RunProtocol.EvaluationEndsIff`,
    `RunProtocol.StrandedForever`, `RunProtocol.RunCanBeStranded`); as many of them as the limit allows stop all
    dispatching (`DispatchLimit.StrandedRunsBlock`).
  - A literal dollar sign before a slot joins with a value such as `{k2}` to a new placeholder
    (`Allowlist.AgreementIffSafe`).  A template text that begins with an unmatched brace after a group acts as a wildcard,
    so slash counts agree exactly for templates without one that spans a slash (`Allowlist.SlashesAgreeIffRegular`,
    with an example in `Allowlist.IrregularTemplateLosesASlash`).
    `$` also accepts one final newline in a path.
  - Steps with equal timestamps may be folded in the wrong order (`Scoring.SingleExecutionScoresOneIff`,
    `Scoring.SameTickCanScoreLess`), and the rows of all executions of a run are folded together, so a late failure of an
    overlapping execution outweighs an error-free one (`Scoring.SeveralExecutionsScoreOneIff`, `Scoring.LateFailureScoresLess`).
  - The fact checker's supported count is not cut at zero, so a faithfulness can be negative, exactly for counts that are
    negative beyond rounding (`Scoring.FaithfulnessInRangeIff`); the total can be so exactly below -1/18
    (`Scoring.TotalNeverNegativeIff`).
  - The reason text of the outcome is searched for the digit 5, so an incomplete run without any 5xx answer is put down to stability
    exactly when a stage count contains that digit (`Scoring.StabilityByDigitIff`,
    `Scoring.FiveStagesAreBlamed`).
  - A blank sentence makes the claim labels and the citations go out of step, and citations are lost at the end
    (`Verifier.EveryCitationAccountedIff`, `Verifier.BlankCitationIsLost`).
  - The support ratio is shown to three places, so it reads 1 exactly from 1999 supported sentences in 2000 on
    (`Citation.EvidenceTrace`).
  - Event kinds are stored cut to 96 characters, which can hide a degradation hint from the stored rows
    (`Sessions.StoredRowsAgreeIff`, `Sessions.LongKindDisagrees`); the separator `|` inside a tenant or user name lets two
    owners share a named session, exactly when their keys collide (`Sessions.OwnedIffNoCollision`,
    `Sessions.SeparatorInANameMixes`).
  - Asking the diversity selection for the whole list returns it in its own order, which extends the shorter selections
    exactly when the list is in greedy order (`Mmr.FullListExtendsIff`).
- The code disagrees with its documentation or with itself in four places: the split pattern for sentences has no ASCII
  exclamation mark while the automatic citation treats one as a sentence end (`Citation.ExclamationIsNoEnd`);
  the verifier's header says that check 1 removes repeated references, which it does not; `enqueue` treats the empty key as no key while the unique constraint covers it;
  and the recommendation for `test_data` says that the result does not enter the optimisation chain, while the callback is sent.
  The models follow the code.

## Model

| member | source | states |
|---|---|---|
| TaskQueue.TaskStore.Enqueue | llm-user-suite/llm_user_suite/task_queue.py:16-36 | With a usable key exactly one row carries it afterwards and that row is returned, whatever rivals commit between lookup and insert; the empty key raises on its second insert |
| TaskQueue.TaskStore.Claim | llm-user-suite/llm_user_suite/task_queue.py:39-61 | A running row locked within the last minute or within the timeout is neither changed nor returned; one locked before both bounds is taken, queued for now, or failed for want of attempts; the row taken is one queued for the earliest time, oldest first, and nothing is returned only when no row can be taken |
| TaskQueue.ClaimMeans | llm-user-suite/llm_user_suite/task_queue.py:39-61 | The two recovery updates and the candidate query do that, in terms of the rows before and the two numbers of seconds |
| TaskQueue.FinishSettles | llm-user-suite/llm_user_suite/task_queue.py:64-79 | A finish succeeds without an error, retries after 1, 2, 4, 8, 16, 32 or then 60 seconds while attempts are left, and fails when they are used up; of the error text the last 8000 characters are kept; no attempt is won back |
| TaskQueue.WaitDoubles | llm-user-suite/llm_user_suite/task_queue.py:72 | The wait doubles with each attempt up to a minute |
| TaskQueue.RecoveryMeans | llm-user-suite/llm_user_suite/task_queue.py:42-48 | After recovery nothing is expired: expired rows are due at once or have failed with their attempts used up, the others are untouched, and recovering again changes nothing |
| TaskQueue.NextExists | llm-user-suite/llm_user_suite/task_queue.py:49-57 | A due row always yields a candidate |
| TaskQueue.StepKeepsInv | llm-user-suite/llm_user_suite/task_queue.py:16-79 | Every step keeps: queued implies attempts left, failed implies attempts used up, keys unique |
| TaskQueue.TraceKeepsInv | llm-user-suite/llm_user_suite/task_queue.py:16-79 | The invariant holds after every interleaving of claims, expiries, crashes and on-time or late finishes |
| TaskQueue.RowsKept | llm-user-suite/llm_user_suite/task_queue.py:16-79 | No step rewrites a row's kind, run, key or attempt limit; only insertion adds a row |
| TaskQueue.ClaimsAreBounded | llm-user-suite/llm_user_suite/task_queue.py:39-79 | `attempts` counts the claims exactly, so no task is claimed more than `max_attempts` times |
| TaskQueue.StepConsumesMeasure | llm-user-suite/llm_user_suite/task_queue.py:39-79 | Three per unused attempt, one per running row and one per held claim: every effective step lowers the sum |
| TaskQueue.RunsTerminate | llm-user-suite/llm_user_suite/task_queue.py:39-79 | A run over a fixed set of tasks has at most that many effective steps |
| TaskQueue.OverdueStep | llm-user-suite/llm_user_suite/task_queue.py:43-57 | Once a task is overdue no step puts another in front, and each claim takes it or removes one in front |
| TaskQueue.NoStarvation | llm-user-suite/llm_user_suite/task_queue.py:43-74 | An overdue task is passed over by at most as many claims as tasks were in front of it |
| TaskQueue.TerminalIsFinalIffUnheld | llm-user-suite/llm_user_suite/task_queue.py:64-79 | A terminal task keeps its status in every continuation if and only if no worker holds a claim on it |
| TaskQueue.TimelyWorkersNeverShare | llm-user-suite/llm_user_suite/task_queue.py:39-79 | If holders finish or die before their row is locked for longer than both a minute and the timeout, no two workers share a task and terminal statuses are final |
| RunService.RunStore.DispatchRun | llm-user-suite/llm_user_suite/run_service.py:13-59 | A waiting run is marked and has its one task; any other call changes nothing |
| RunService.RunStore.SelectOldest | llm-user-suite/llm_user_suite/run_service.py:77-79 | The oldest waiting runs, as many as there are slots, oldest first |
| RunService.RunStore.DispatchPendingRuns | llm-user-suite/llm_user_suite/run_service.py:62-87 | One undisturbed call frees the runs stuck for more than 120 seconds and dispatches exactly the oldest available runs that fit beside the active ones it counted; nothing else changes |
| RunService.DispatchIsRight | llm-user-suite/llm_user_suite/run_service.py:62-87 | Reset, count, ordered query and marking together have that effect, stated on the runs before and after |
| RunService.RunStore.CancelRun | llm-user-suite/llm_user_suite/run_service.py:89-107 | Exactly the queued, running and evaluating runs are cancelled; their report and evaluations stay |
| RunService.RunStore.StartRun | llm-user-suite/llm_user_suite/replay.py:351-367 | A replay begins exactly for a queued or running run of an approved scenario; without approval such a run fails, and any other is left alone |
| RunService.RunStore.HandOver | llm-user-suite/llm_user_suite/replay.py:477-487 | A run is handed to the judge exactly when it is not cancelled and no cancellation is requested |
| RunService.RunStore.CloseRun | llm-user-suite/llm_user_suite/judge.py:365-398 | Closing succeeds exactly when there is no report, and stores seven evaluations with it; otherwise nothing changes |
| RunService.RunStore.DispatchEach | llm-user-suite/llm_user_suite/run_service.py:80-87 | Each selected run is marked once and gets its task |
| RunService.MarkedAreActive | llm-user-suite/llm_user_suite/run_service.py:71-87 | Marking the selected runs raises the active count by their number |
| RunProtocol.InitInv | llm-user-suite/llm_user_suite/run_service.py:13-107 | The empty system satisfies the protocol invariant |
| RunProtocol.DispatchersAreFree | llm-user-suite/llm_user_suite/run_service.py:13-107 | The interleavings are not restricted: time, creations, resets, cancellations, wins and the death of any dispatcher may come at any point |
| RunProtocol.HoldersAreFree | llm-user-suite/llm_user_suite/task_queue.py:82-112 | Nor for the workers: whoever holds a claim may die, meet any exception or enter its run at any point |
| RunProtocol.ExecutorsAreFree | llm-user-suite/llm_user_suite/replay.py:477-490 | An executor may hand over and its judge close whatever the others do, and sees a cancellation whenever there is one |
| RunProtocol.StepKeepsInv | llm-user-suite/llm_user_suite/run_service.py:13-107 | Every transaction keeps the protocol invariant: a queued or running run has no judge, no report and no cancellation; a dispatched run has its task |
| RunProtocol.TraceKeepsInv | llm-user-suite/llm_user_suite/run_service.py:13-107 | The invariant holds after every interleaving |
| RunProtocol.KeyMeansTask | llm-user-suite/llm_user_suite/run_service.py:53 | A run's idempotency key is in the table exactly when the run has a task |
| RunProtocol.OneWinPerReset | llm-user-suite/llm_user_suite/run_service.py:15-24 | However many dispatchers compete, a run is won at most once between two resets |
| RunProtocol.OneTaskPerRun | llm-user-suite/llm_user_suite/task_queue.py:16-36 | No run ever has two tasks |
| RunProtocol.StartsWithinBudget | llm-user-suite/llm_user_suite/task_queue.py:39-61 | The executions of a task stay within its unused claims and the claims not yet entered |
| RunProtocol.ExecutionsAreBounded | llm-user-suite/llm_user_suite/run_service.py:16-67 | However dispatchers interleave, die and are reset and leases expire, `execute_run` is entered at most `max_attempts` times for a run |
| RunProtocol.SettledForever | llm-user-suite/llm_user_suite/run_service.py:89-107 | A settled cancellation stays, with no new report or evaluation, in every continuation |
| RunProtocol.NotStartedAgain | llm-user-suite/llm_user_suite/replay.py:351-367 | In every continuation nobody begins a run that has left `queued` and `running`; the executors at work on it only become fewer |
| RunProtocol.CancelBeforeJudgingIsFinal | llm-user-suite/llm_user_suite/run_service.py:89-107 | A cancellation of a queued or running run is final and the run never gets an evaluation or report |
| RunProtocol.CancelIsFinalIff | llm-user-suite/llm_user_suite/run_service.py:89-107 | A cancellation is final if and only if no judge is at work on the run or its report exists |
| RunProtocol.CompletedIsFinalIff | llm-user-suite/llm_user_suite/replay.py:477-487 | A completed run stays completed if and only if no second executor is left or a cancellation was requested |
| RunProtocol.RegressedNeverCompletes | llm-user-suite/llm_user_suite/judge.py:365-398 | A reported run set back to evaluating can never complete again |
| RunProtocol.OneEvaluationPerRun | llm-user-suite/llm_user_suite/judge.py:365-398 | However many executors overlap, a run has one report with its seven evaluations, or neither |
| RunProtocol.CompletedRunCanRegress | llm-user-suite/llm_user_suite/replay.py:477-487 | The regression is reachable from the empty system after one expired lease |
| RunProtocol.CancelledRunCanComplete | llm-user-suite/llm_user_suite/judge.py:365-398 | From the empty system a run can be cancelled under the judge and complete all the same |
| RunProtocol.StrandedForever | llm-user-suite/llm_user_suite/replay.py:351-354 | A run that is evaluated with a report, or with nobody judging or executing it, stays so and stays active in every continuation without its cancellation |
| RunProtocol.EvaluationEndsIff | llm-user-suite/llm_user_suite/replay.py:477-490 | Without a cancellation an evaluation ends in some continuation if and only if there is no report yet and a judge or an executor is at work on the run |
| RunProtocol.RunCanBeStranded | llm-user-suite/llm_user_suite/replay.py:477-490 | From the empty system one death of a worker inside the judge leaves an active run that can never be closed |
| RunProtocol.TerminalTaskCanBeHeld | llm-user-suite/llm_user_suite/task_queue.py:64-79 | From the empty system a task can succeed while another worker still holds a claim on it |
| DispatchLimit.StepShrinks | llm-user-suite/llm_user_suite/run_service.py:16-59 | No step other than a count, whether of a dispatcher, a worker, the judge or an operator, reserves anything new |
| DispatchLimit.DispatchersAreFree | llm-user-suite/llm_user_suite/run_service.py:70-87 | A dispatcher may stop at any point, go on with its list, count, or take a creation whenever the two limits of the code let it |
| DispatchLimit.CountReserves | llm-user-suite/llm_user_suite/run_service.py:70-79 | A count reserves exactly the runs that it selects |
| DispatchLimit.CreateReserves | llm-user-suite/llm_user_suite/api.py:292-305 | The creation of a run by the API reserves exactly that run |
| DispatchLimit.ExclusiveCountsHold | llm-user-suite/llm_user_suite/run_service.py:62-87 | If each count is taken while no dispatcher is between its count and its last mark and no dispatched finished run can come back, the limit holds in every run from a state whose reserved runs it covers |
| DispatchLimit.ExclusiveFromTheStart | llm-user-suite/llm_user_suite/run_service.py:62-87 | So it does from the empty system, for any limit |
| DispatchLimit.LimitHoldsIff | llm-user-suite/llm_user_suite/run_service.py:62-87 | Until the next count the limit holds in every continuation if and only if it covers the active runs together with those that dispatchers hold or have listed and the dispatched finished runs that an executor can set back to evaluating |
| DispatchLimit.CountIsSafeIff | llm-user-suite/llm_user_suite/run_service.py:70-79 | A count is safe in every continuation if and only if its selection fits beside everything reserved, not only beside the active runs |
| DispatchLimit.CreateIsSafeIff | llm-user-suite/llm_user_suite/api.py:292-305 | A creation by the API, which compares all live runs with the limit, is safe if and only if the new run fits beside everything reserved |
| DispatchLimit.OverlapExceedsTheLimit | llm-user-suite/llm_user_suite/run_service.py:70-79 | From the empty system two overlapping dispatchers can exceed a limit of one |
| DispatchLimit.ReturningRunExceedsTheLimit | llm-user-suite/llm_user_suite/replay.py:477-487 | From the empty system a creation that no dispatcher overlaps can be followed by two active runs under a limit of one, because a completed run comes back |
| DispatchLimit.StrandedRunsBlock | llm-user-suite/llm_user_suite/run_service.py:70-79 | As many stranded runs as the limit allows stop all dispatching: short of their cancellation every count selects nothing and no run is created |
| DispatchLimit.OneDeathBlocksALimitOfOne | llm-user-suite/llm_user_suite/replay.py:477-490 | Under a limit of one that state is reachable from the empty system by a single death of a worker |
| Replay.RunStages | llm-user-suite/llm_user_suite/replay.py:385-468 | The history is progressive, calls are counted within the limit, and the reason for stopping is true |
| Replay.RunStage | llm-user-suite/llm_user_suite/replay.py:398-466 | One stage extends the history by consecutive hints, stopping at the first success |
| Replay.Cleanup | llm-user-suite/llm_user_suite/replay.py:319-348 | At most min(items, 20, remaining calls) entries, cut short only when time runs out; the calls made are counted exactly |
| Replay.ExecuteRun | llm-user-suite/llm_user_suite/replay.py:374-475 | The calls never exceed either limit, and the run is stopped for them only when the calls have reached one; every attempt that is not refused and every clean-up request sent is a call; the clean-up ends early only for time; a stage is given up only after its last attempt; the run ends without error if and only if all stages have a stored success |
| Replay.CallsAreCounted | llm-user-suite/llm_user_suite/replay.py:399-430 | The counted calls of a history are its attempts that were not refused |
| Replay.FailedStageIsUsedUp | llm-user-suite/llm_user_suite/replay.py:397-468 | A stage that fails was tried as often as its `maxAttempts` allows, at every hint level, without success |
| Replay.PassedStagesSucceeded | llm-user-suite/llm_user_suite/replay.py:390-466 | Every stage before the current one has succeeded; the current one has only failed, at lower hints |
| Replay.DoneIffAllSucceeded | llm-user-suite/llm_user_suite/replay.py:390-468 | Any history and justified stop: done if and only if all stages succeeded |
| Replay.HintsAreConsecutive | llm-user-suite/llm_user_suite/replay.py:399-460 | Hints run 0, 1, 2, ... without gap, all attempts before the last failed, a stage starts only after its predecessor's success |
| Replay.AttemptsPerStage | llm-user-suite/llm_user_suite/replay.py:399-460 | A stage is tried at most `maxAttempts` times |
| Allowlist.SequentialIsSimultaneous | llm-user-suite/llm_user_suite/replay.py:48-60 | Replacing the variables one after the other fills in the template at once |
| Allowlist.ReplaceBinds | llm-user-suite/llm_user_suite/replay.py:58-60 | One replacement finds exactly the placeholders of its key |
| Allowlist.FixturesOfSource | llm-user-suite/llm_user_suite/replay.py:86-87 | The allowlist entry of a template is its text with `{fixture}` in each slot |
| Allowlist.ClassesAre | llm-user-suite/llm_user_suite/replay.py:55-69 | The characters of a key, of a braced name and of a path segment, by code point |
| Allowlist.PlaceholderLengthIff | llm-user-suite/llm_user_suite/replay.py:55 | A placeholder is read exactly where one with a valid key stands |
| Allowlist.GroupLengthIff | llm-user-suite/llm_user_suite/replay.py:67 | A group is read exactly where a non-empty braced name without slash and brace stands |
| Allowlist.OnePlaceholderIsLookedUp | llm-user-suite/llm_user_suite/replay.py:55-57 | A string that is one placeholder becomes its value, or nothing when it has none |
| Allowlist.OtherStringsAreReplaced | llm-user-suite/llm_user_suite/replay.py:58-60 | Any other string has its variables replaced in order |
| Allowlist.ApprovedMeans | llm-user-suite/llm_user_suite/replay.py:74-89 | The allowlist holds the requests with one of the five methods and an absolute path, with their placeholders replaced, and nothing else |
| Allowlist.PartsConcat | llm-user-suite/llm_user_suite/replay.py:67 | Splitting a template into parts loses nothing |
| Allowlist.SubstitutionIsAccepted | llm-user-suite/llm_user_suite/replay.py:48-87 | A substituted path matches its own template's pattern |
| Allowlist.ApprovedRequestsPass | llm-user-suite/llm_user_suite/replay.py:63-87 | The requests of an approved scenario pass its own allowlist after substitution |
| Allowlist.AgreementIffSafe | llm-user-suite/llm_user_suite/replay.py:48-87 | A template agrees with the allowlist for all usable values if and only if no slot follows a literal dollar sign |
| Allowlist.MatchIsSegmentwise | llm-user-suite/llm_user_suite/replay.py:66-71 | A pattern match is a match segment by segment |
| Allowlist.AcceptedPathFollowsTemplate | llm-user-suite/llm_user_suite/replay.py:63-71 | An accepted path has its template's segments: as many, and the literal ones unchanged |
| Allowlist.AllowedFollowsSome | llm-user-suite/llm_user_suite/replay.py:63-71 | An allowed operation is accepted by an entry with the same method and, if that entry is regular, has its segments, the literal ones unchanged |
| Allowlist.SlashesAgreeIffRegular | llm-user-suite/llm_user_suite/replay.py:66-71 | An accepted path has its template's slash count if and only if no wildcard part holds a slash |
| Allowlist.IrregularTemplateLosesASlash | llm-user-suite/llm_user_suite/replay.py:66-71 | A template with an unmatched brace behind a slot accepts a path with fewer slashes |
| Scoring.FoldSteps | llm-user-suite/llm_user_suite/judge.py:220-223 | One step for each index, the latest one |
| Scoring.LatestIsLast | llm-user-suite/llm_user_suite/judge.py:220-222 | The folded step of an index is its last row in query order |
| Scoring.EvaluateRun | llm-user-suite/llm_user_suite/judge.py:218-363 | The verdict is inconclusive if and only if the challenger was asked and lies more than 0.15 away, otherwise failed if and only if the run broke down or scores below 0.60, and passed if and only if neither and it reaches 0.85; each root cause names the first thing that is wrong; the scores are the weighted means of the rows and the cut replies, in their ranges; a run with a baseline never re-enters the callback loop |
| Scoring.HardFailMeans | llm-user-suite/llm_user_suite/judge.py:223-238 | A hard failure is a run error, a 5xx answer, a stream broken off unasked, or a stage without a final success |
| Scoring.RootCauseMeans | llm-user-suite/llm_user_suite/judge.py:112-140 | Which condition each root cause stands for, with all earlier ones absent |
| Scoring.ScoresAreRight | llm-user-suite/llm_user_suite/judge.py:234-282 | Outcome, trajectory and total in terms of the rows, the hint levels, the latencies and the replies |
| Scoring.PerformanceIsRight | llm-user-suite/llm_user_suite/judge.py:268-270 | The performance by the average of the measured latencies, stated on their total and number |
| Scoring.DimensionMeans | llm-user-suite/llm_user_suite/judge.py:86-96 | A dimension passes from 0.85 on, fails below 0.60 or on a hard failure, and is inconclusive without a score |
| Scoring.DimensionsPassIff | llm-user-suite/llm_user_suite/judge.py:272-280 | All seven dimensions pass if and only if there is no hard failure and no score below 0.85 |
| Scoring.FaithfulnessInRangeIff | backend/llm_eval_core/rag.py:57-70 | The supported ratio never exceeds 1, and is not negative if and only if the supported count is negative by no more than rounding hides |
| Scoring.ScoresInRange | llm-user-suite/llm_user_suite/judge.py:237-282 | The scores stay below 1, the trajectory below the outcome, and the total above 0.18 times the faithfulness plus 0.01 |
| Scoring.TotalNeverNegativeIff | llm-user-suite/llm_user_suite/judge.py:266-282 | No run gets a negative total if and only if the faithfulness is at least -1/18 |
| Scoring.PassedMeans | llm-user-suite/llm_user_suite/judge.py:158-163 | A total of 0.85 without hard failure needs all stages and two thirds of the retrieval score |
| Scoring.PassingDimensionsPass | llm-user-suite/llm_user_suite/judge.py:86-96 | A run whose seven dimensions all pass, passes: the weights are exact |
| Scoring.FiveInReason | llm-user-suite/llm_user_suite/judge.py:238-245 | Without a run error the reason text holds the digit 5 exactly for a 5xx answer or a 5 in a stage count |
| Scoring.StabilityByDigitIff | llm-user-suite/llm_user_suite/judge.py:112-130 | An incomplete run without errors, 5xx or interruption is put down to stability if and only if a stage count holds the digit 5 |
| Scoring.FiveStagesAreBlamed | llm-user-suite/llm_user_suite/judge.py:112-130 | Of two runs that got nothing done, the one with five stages is put down to stability and the one with four is not |
| Scoring.OutcomeIsOneIff | llm-user-suite/llm_user_suite/judge.py:223-237 | Outcome 1 if and only if every stage's final step succeeded |
| Scoring.AlwaysScoresOneIff | llm-user-suite/llm_user_suite/judge.py:218-237 | Any log, of one execution or of several interleaved ones, scores 1 under every order the query may return if and only if each stage has a success later than all of its failures |
| Scoring.SingleExecutionScoresOneIff | llm-user-suite/llm_user_suite/judge.py:218-237 | One error-free execution scores 1 under every order the query may return if and only if timestamps separate successes from failures |
| Scoring.SameTickCanScoreLess | llm-user-suite/llm_user_suite/judge.py:218-237 | An error-free execution whose two rows share a timestamp can score less than 1 |
| Scoring.SeveralExecutionsScoreOneIff | llm-user-suite/llm_user_suite/judge.py:218-237 | With one error-free execution in the log the score is 1 under every order if and only if each failure stored by the other executions is followed by a later success of its stage |
| Scoring.LastExecutionScoresOne | llm-user-suite/llm_user_suite/judge.py:218-237 | An error-free execution that stores its rows after all the others scores 1 |
| Scoring.LateFailureScoresLess | llm-user-suite/llm_user_suite/judge.py:218-237 | One failure that an overlapping execution stores last makes the score of an error-free execution fall below 1 |
| Scoring.IncreasingClockSeparates | llm-user-suite/llm_user_suite/replay.py:450-458 | Strictly increasing timestamps separate them |
| Scoring.ErrorFreeRunScoresOne | llm-user-suite/llm_user_suite/judge.py:218-237 | With increasing timestamps an error-free replay scores outcome 1 |
| Router.Breaker.IsHealthy | backend/app/providers/llm_router.py:23-29 | Unhealthy exactly when the failures since the last success reach the threshold and the last is less than a cooldown ago |
| Router.Breaker.RecordFail | backend/app/providers/llm_router.py:32-39 | The stored record keeps representing the event history after a failure |
| Router.Breaker.RecordOk | backend/app/providers/llm_router.py:42-44 | The stored record keeps representing the event history after a success |
| Router.ResolveChain | backend/app/providers/llm_router.py:95-108 | The loop computes the chain of wanted names |
| Router.ChainIsOrderedAndDistinct | backend/app/providers/llm_router.py:95-108 | The chain holds exactly the wanted names other than the empty one, default and auto, each once, in order of first mention |
| Router.Candidates | backend/app/providers/factory.py:40-53 | A non-empty, duplicate-free subsequence of the chain; a cooling-down provider only if all cool down; a name other than the four known ones raises |
| Router.FourAreKnown | backend/app/providers/factory.py:40-53 | The four names that do not raise |
| Router.FallbackProvider.TryProviders | backend/app/providers/llm_router.py:155-190 | Where blanks are passed over the answer is the text of the first usable reply, otherwise of the first that is no exception; each provider before it gets one failure and it gets one success; with none, the last exception or the last blank is the result and the recorded provider stays; the reason of the degradation names the last predecessor |
| Router.WinnerDecides | backend/app/providers/llm_router.py:155-190 | The first provider whose reply is accepted is the one so described |
| Router.LosersDecide | backend/app/providers/llm_router.py:155-193 | What follows when no reply is accepted |
| Router.FallbackProvider.Stream | backend/app/providers/llm_router.py:211-254 | The tokens are a prefix of one provider's stream, and all earlier providers emitted nothing; without any token the recorded provider and degradation stay as they were |
| Router.FallbackProvider.Relay | backend/app/providers/llm_router.py:224-236 | One success record at the first token, then the provider's own tokens only |
| Cim.ParseCim | backend/app/rag/cim_parser.py:51-100 | Edges are exactly the unordered pairs of distinct devices sharing a connectivity node, each once, without self-loops; nodes, devices and station as recorded |
| Cim.DevicesAreLastRecords | backend/app/rag/cim_parser.py:72-73 | A device is described by its last record |
| Cim.MembersAreAttached | backend/app/rag/cim_parser.py:74-78 | A node's members are the devices its terminals attach |
| Cim.DeriveEdges | backend/app/rag/cim_parser.py:81-93 | The nested loops with their `seen` set list each pair once |
| Cim.WalkToWire | backend/app/rag/cim_parser.py:80-93 | An edge path gives an alternating path of terminals and nodes |
| Cim.WireToWalk | backend/app/rag/cim_parser.py:80-93 | An alternating path gives an edge path |
| Cim.ConnectionIsPreserved | backend/app/rag/cim_parser.py:63-93 | Two devices are connected by edges if and only if they are connected by terminals and nodes |
| Cim.GraphToTriples | backend/app/rag/cim_parser.py:103-111 | One named triple for each edge, in order |
| Citation.SplitYieldsSentences | backend/app/rag/citation.py:27-33 | The parts are sentences: trimmed, non-blank, each but the last complete |
| Citation.SplitOfJoin | backend/app/rag/citation.py:27-33 | Joining sentences and splitting again gives the same sentences |
| Citation.SplitKeepsInk | backend/app/rag/citation.py:27-33 | Splitting drops blanks and nothing else |
| Citation.ExtractReadsTags | backend/app/rag/citation.py:36-52 | Adjacent tags are read back as the numbers they were made from |
| Citation.ExtractTagged | backend/app/rag/citation.py:36-52 | A tag inserted into a bare sentence is its only reference |
| Citation.CommaIsRead | backend/app/rag/citation.py:36-52 | A numeral with a comma and a blank behind it is put in front of what is read after them |
| Citation.GroupShape | backend/app/rag/citation.py:36-52 | What is read as a group is digits, commas and blanks up to a closing bracket |
| Citation.EndsAre | backend/app/rag/citation.py:27-33 | The sentence ends of the split and the marks before which a tag goes, by code point |
| Citation.GroupExtends | backend/app/rag/citation.py:36-52 | Reading a group does not look past its closing bracket |
| Citation.GroupBlocked | backend/app/rag/citation.py:36-52 | An opening bracket ends the reading of a group |
| Citation.EvidenceTrace | backend/app/rag/citation.py:55-88 | One entry for each sentence with its numbers; the shown ratio is the supported share to three places, and is 1 exactly when at least 1999 of 2000 are supported |
| Citation.ExclamationIsNoEnd | backend/app/rag/citation.py:27-33 | No split is made behind an ASCII exclamation mark, and a tag put before one stays in its sentence |
| Citation.AutoCite | backend/app/rag/citation.py:128-178 | A bare sentence is tagged if and only if some similarity of its row reaches the threshold, with the first context of the largest one; re-splitting the answer gives the annotated sentences, and support never falls, also when the embeddings fail half-way |
| Citation.CiteMeans | backend/app/rag/citation.py:158-169 | The same for one sentence and its row |
| Citation.CitedSentence | backend/app/rag/citation.py:145-169 | A sentence is unchanged, or was bare and now has exactly one number within 1..len(contexts) |
| Citation.CitedResplits | backend/app/rag/citation.py:145-178 | Join and split is the identity on the annotated sentences |
| Citation.SupportNeverFalls | backend/app/rag/citation.py:145-178 | Annotation never lowers the number of supported sentences |
| Citation.SecondPassKeepsCited | backend/app/rag/citation.py:145-178 | A second pass leaves every sentence it has cited alone |
| Verifier.BuildIndex | backend/app/rag/citation_index.py:10-28 | The numbers 1..N stand for the N contexts and nothing else has a number |
| Verifier.VerifyClaims | backend/llm_eval_core/rag.py:21-42 | One label for each non-blank claim: support or contradict if and only if there are sources and the last row of the reply for the claim says so, otherwise neutral |
| Verifier.Check1 | backend/app/rag/citation_verifier.py:43-50 | A citation passes if and only if its number is in the index and stands for a context; the others are dropped, both in order |
| Verifier.CheckedStands | backend/app/rag/citation_verifier.py:43-50 | The place of each citation behind check 1 is the number of like ones before it |
| Verifier.Check2 | backend/app/rag/citation_verifier.py:58-91 | Citations below the threshold are dropped; a failing embedding drops nothing |
| Verifier.Verify | backend/app/rag/citation_verifier.py:26-153 | Only a reference in the index is kept, and every one that is not is reported as dropped; a rewrite is due exactly when nothing was kept for a non-blank answer |
| Verifier.EveryEntryMeans | backend/app/rag/citation_verifier.py:43-145 | A citation outside the index is dropped as unknown; one whose own similarity misses the threshold as too far; with check 3 off every other one is kept; every kept entry stands for a numbered citation that reaches the threshold, and a contradiction needs an answer of check 3 |
| Verifier.ListedDrops | backend/app/rag/citation_verifier.py:43-110 | The dropped references are those of the dropped entries |
| Verifier.DegradedMeans | backend/app/rag/citation_verifier.py:57-145 | A result is degraded if and only if some citation is numbered and either the similarities cannot be read or check 3 fails or times out with a citation before it |
| Verifier.ReportedRisks | backend/app/rag/citation_verifier.py:156-162 | The sentences reported as unverified are exactly those that hold one of the eleven risk words and no reference |
| Verifier.EveryCitationAccountedIff | backend/app/rag/citation_verifier.py:43-145 | Every citation gets exactly one entry if and only if the labels match the citations one to one: always for non-blank sentences |
| Verifier.BlankCitationIsLost | backend/app/rag/citation_verifier.py:97-104 | A single legal citation with a blank sentence gets no entry at all |
| Verifier.KeptPassedTwoChecks | backend/app/rag/citation_verifier.py:93-145 | What is kept passed checks 1 and 2; with labelling off, timed out or failing exactly that is kept |
| Verifier.NliKeepsNoMore | backend/app/rag/citation_verifier.py:93-145 | Labelling keeps a part of what is kept without it |
| Verifier.LabelsMeetTheirSentences | backend/app/rag/citation_verifier.py:95-115 | With non-blank sentences each citation is judged by the label of its own sentence: dropped if and only if that is contradict |
| SemanticCache.Cache.Set | backend/app/rag/semantic_cache.py:181-238 | The new store is exactly the specified one on every branch and fault |
| SemanticCache.PutInPlace | backend/app/rag/semantic_cache.py:209-232 | The search, eviction and append compute the specified index |
| SemanticCache.Cache.Invalidate | backend/app/rag/semantic_cache.py:241-262 | The new store is exactly the specified one; a failing read or write changes nothing |
| SemanticCache.FindClosest | backend/app/rag/semantic_cache.py:104-128 | A usable entry of the model with the largest cosine; none only if there is none |
| SemanticCache.Get | backend/app/rag/semantic_cache.py:62-155 | An unblocked exact answer is returned and a blocked one is a miss; otherwise the closest usable entry decides: from 0.92 on its first read, else from 0.85 on its second one, unless the answer is blocked |
| SemanticCache.SortOrders | backend/app/rag/semantic_cache.py:223 | The index is sorted by time before it is cut |
| SemanticCache.SortIsStable | backend/app/rag/semantic_cache.py:223 | Entries of equal time keep their order |
| SemanticCache.EvictionIsFair | backend/app/rag/semantic_cache.py:222-224 | Eviction splits the index, keeps 4900, and nobody evicted is newer than anybody kept |
| SemanticCache.IndexStaysSound | backend/app/rag/semantic_cache.py:181-262 | After any calls and faults an index has at most 5000 entries and no two with the same query and model |
| SemanticCache.SetIsPresent | backend/app/rag/semantic_cache.py:202-236 | A written entry is present and alone for its query and model |
| SemanticCache.SetKeepsTheRest | backend/app/rag/semantic_cache.py:209-232 | One set removes only its twin and the evicted entries |
| SemanticCache.InvalidatedIsAbsent | backend/app/rag/semantic_cache.py:250-260 | An invalidation removes exactly the entries of its query and model |
| SemanticCache.KeysSeparateTenants | backend/app/rag/semantic_cache.py:35-40 | Index keys are equal exactly for tenants with the same normal form |
| SemanticCache.NormalFormIsStable | backend/app/rag/semantic_cache.py:35-36 | A tenant's normal form is its own normal form |
| SemanticCache.NamesAre | backend/app/rag/semantic_cache.py:35-36 | How missing models, tenants and times read |
| SemanticCache.ExpiredIsAbsent | backend/app/rag/semantic_cache.py:232-236 | An expiry removes one index and nothing else |
| SemanticCache.OtherTenantsUntouched | backend/app/rag/semantic_cache.py:181-262 | A call leaves the indexes of all other tenants alone |
| SemanticCache.NothingStale | backend/app/rag/semantic_cache.py:181-262 | After any run an entry in an index is what the last write for its query and model stored |
| Sessions.Telemetry.FindSession | llm-user-suite/llm_user_suite/telemetry.py:53-66 | An eligible session with the latest activity, or none when none is eligible |
| Sessions.Telemetry.ResolveSession | llm-user-suite/llm_user_suite/telemetry.py:32-88 | The session is the named one, the best one found, or a new one flushed at once |
| Sessions.Telemetry.IngestEvent | llm-user-suite/llm_user_suite/telemetry.py:91-158 | An accepted event joins the session so described, is counted in it by its own status, kind and flags, and is stored; a duplicate rolls everything back, also a flushed new session; no other session changes |
| Sessions.ResolvesMeans | llm-user-suite/llm_user_suite/telemetry.py:32-88 | The session of an event is the named one of its tenant and user, else the latest one near of the same conversation, else of the same trace, else, for an event with neither, the latest one near, else a new one |
| Sessions.TouchedAccounts | llm-user-suite/llm_user_suite/telemetry.py:135-151 | A failure is a status from 500 on or one of six kinds, a degradation a status of 408 or 429, a kind that says so or the flag, and the other aggregates follow the event fields |
| Sessions.RowsAre | llm-user-suite/llm_user_suite/telemetry.py:80-106 | A new session and a stored row, field by field, with the lengths at which they are cut |
| Sessions.Telemetry.CloseIdleSessions | llm-user-suite/llm_user_suite/telemetry.py:273-289 | Afterwards no open session is older than the cutoff, none younger was closed, and the closed ones are counted with their aggregates kept |
| Sessions.FoldDescribes | llm-user-suite/llm_user_suite/telemetry.py:135-150 | The fold is a count, a maximum, three disjunctions and a minimum |
| Sessions.OrderIsIrrelevant | llm-user-suite/llm_user_suite/telemetry.py:135-150 | The fold does not depend on the order of the events |
| Sessions.AggregatesAgreeWithTheLog | llm-user-suite/llm_user_suite/telemetry.py:32-158 | After any run every session equals the fold over its own accepted events, and no event is stored twice |
| Sessions.ArrivalOrderIsIrrelevant | llm-user-suite/llm_user_suite/telemetry.py:135-150 | Two runs that give a session the same events in different orders leave the same aggregates |
| Sessions.RepeatChangesNothing | llm-user-suite/llm_user_suite/telemetry.py:151-158 | Sending an accepted event again, however much later, changes nothing |
| Sessions.ClosedStaysClosed | llm-user-suite/llm_user_suite/telemetry.py:53-66 | A closed session stays closed and only events that name it can join it |
| Sessions.RereadAgreesIff | llm-user-suite/llm_user_suite/telemetry.py:103-150 | Events read back from their cut kinds give the same aggregates if and only if, should any of them degrade, some event still shows it |
| Sessions.StoredRowsAgreeIff | llm-user-suite/llm_user_suite/telemetry.py:103-150 | After any run a session equals the fold over its stored rows if and only if it has no degrading event or one that shows it in its row |
| Sessions.ShortKindsAgree | llm-user-suite/llm_user_suite/telemetry.py:103-150 | It does while all accepted kinds have at most 96 characters |
| Sessions.LongKindDisagrees | llm-user-suite/llm_user_suite/telemetry.py:103-147 | One event with a longer kind makes a session disagree with its row |
| Sessions.OwnedIffNoCollision | llm-user-suite/llm_user_suite/telemetry.py:37-88 | After any run every stored event has the tenant and user of its session if and only if no two accepted events name the same key for different owners |
| Sessions.PlainNamesNeverCollide | llm-user-suite/llm_user_suite/telemetry.py:37-39 | Names without the separator never collide |
| Sessions.SeparatorInANameMixes | llm-user-suite/llm_user_suite/telemetry.py:37-88 | A run of two events after which a stored event sits in a session of another owner |
| Mmr.Select | backend/app/rag/mmr.py:18-39 | The greedy selection, at most topk, cut short only when nothing rises above the sentinel; a short list comes back whole |
| Mmr.SimilarityMeans | backend/app/rag/mmr.py:23-32 | The similarity times the size of the union is the size of the intersection; it is symmetric, and 1 only for equal sets |
| Mmr.PickNext | backend/app/rag/mmr.py:25-35 | The first candidate left with the largest marginal score |
| Mmr.RedundancyIsMax | backend/app/rag/mmr.py:30-32 | The redundancy is the maximum similarity to what is selected: an upper bound that is attained |
| Mmr.GreedyIsDistinct | backend/app/rag/mmr.py:23-38 | No candidate is selected twice |
| Mmr.GreedyIsPrefix | backend/app/rag/mmr.py:23-38 | The selection for a smaller k is a prefix of the selection for a larger one |
| Mmr.SelectionIsFull | backend/app/rag/mmr.py:24-38 | With scores above the sentinel the selection is never cut short |
| Mmr.PureRelevanceTakesTheTop | backend/app/rag/mmr.py:33-35 | With a weight of 1 and descending scores the first candidates are taken |
| Mmr.FullListExtendsIff | backend/app/rag/mmr.py:20-21 | The whole list extends a greedy selection if and only if the candidates stand in greedy order up to there |
| Mmr.FullListReorders | backend/app/rag/mmr.py:20-21 | A list of three that does not extend its selection of two |
| Rrf.Fuse | backend/app/rag/rrf.py:7-23 | Output keys are exactly the input keys, each once, with its first hit, in non-increasing score also after rounding; without weights the score is the sum of 1/(k + rank + 1); an error is raised exactly on a zero denominator |
| Rrf.Accumulate | backend/app/rag/rrf.py:13-22 | The outer loop folds the lists into the tables and raises exactly on a zero denominator |
| Rrf.AddList | backend/app/rag/rrf.py:16-21 | The inner loop folds one list into the tables |
| Rrf.LoopsComputeTheSum | backend/app/rag/rrf.py:14-21 | The dictionary loops equal the closed-form sum of w / (k + rank + 1), key by key |
| Rrf.UnweightedScore | backend/app/rag/rrf.py:7-16 | Weights of one give the plain sum |
| Rrf.WeightScales | backend/app/rag/rrf.py:12-16 | A weight scales what its list contributes |
| Rrf.FirstHitIsKept | backend/app/rag/rrf.py:19-20 | A key's metadata is that of its first occurrence |
| Rrf.Round4Monotone | backend/app/rag/rrf.py:23 | Rounding keeps the order |
| Rrf.Dominance | backend/app/rag/rrf.py:15-18 | An item ahead of another in every list containing the other has the larger score |
| Rrf.DominantComesFirst | backend/app/rag/rrf.py:22-23 | It therefore comes before it in the output |

## Left out

- The Kubernetes backend and the launch-failure branch of `dispatch_run`: cluster calls with unconditional status writes.
- Interleavings finer than a transaction, such as lost updates between two overlapping row reads.
- Clocks that disagree: the run and task rows take some times from the database server and some from the worker; one monotone clock is assumed.
- Deletion of rows by retention, the mirror rows of evolution retests, and the reward and report contents.
- `worker_loop` calling `finish` a second time when the commit of the first one fails.
- A cancellation poll that itself fails inside the replay, and the time spent in delays.
- The walk of `_substitute` over nested JSON, and the checks of `_safe_request` other than the allowlist: single branches.
- Template texts that contain braces of their own, in the forward direction of the allowlist agreement: the converse covers them.
- The texts of reasons and recommendations; the case folding of error texts, which is a flag of the model.
- Rounding of the stored total score, floating-point and half-precision detail: reals are used.
- Decimal digits outside ASCII, which the reference pattern of the source also accepts.
- Sessions: `retry_count`, whose value depends on how the database breaks ties between equal times, and the path signature.
- XML, OTLP and JSON decoding, embeddings, tokenisation, prompts, metrics, logging, caching of vectors and tracing.
- The tier-to-model lookup of the router, its periodic probing and its query classification.
