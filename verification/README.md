# Proofs about the API scan executor

A Dafny model of the parts of the API security scanner whose behaviour is hard to see from any single function,
with the properties they are meant to have. `dafny verify dfyconfig.toml` checks everything; nothing is executed.

**The execution pipeline** (`executor/`). The API writes a row per task and appends matching payloads to four priority
lists in Redis. Any number of workers move due retries back, pop by weighted priority, mark the row, ask the rate
limiter, send the request, save the outcome, judge the scan, and finish, park the task with exponential backoff, or
dead-letter it. `Pipeline` is this protocol as a labelled step system: a payload in a worker is a program counter, one
step is the code between two store operations, and HTTP outcomes, limiter answers, random draws and the clock are
parameters of the steps. `Conservation`, `Agreement`, `ScanVerdict` and `Termination` prove invariants over every run
of it, `InPassing`, `Hope` and `Recovery` say when FAILED is the last word. `SplitMove` takes the delayed move apart into its
read and its transactional write, `SplitLoss` and `SoloMove` say exactly when that loses or copies a task, `SplitRuns`
shows runs in which it does. `RedisQueues`, `Engine` and `EngineLoop` are the code in its own imperative form, and
refine the steps; `Fidelity` tells what the steps do to the lists and payloads from the outside.

**The rate limiters.** `TokenBucket` is the in-process bucket and its bounds over every run, `KeyExpiry` the Lua script
with expiring keys and what it has in common with it, `Admission` any number of calls of the multi-bucket loop,
interleaved, with their sleeps and timeouts, and `MultiAcquire` the code of one such call. `SlidingWindow` is the API's
per-client deque.

**Around them.** `Autoscaler` is the worker pool. `JsonFlatten` and `FieldDiff` flatten JSON bodies to path strings and
diff them, `Anomaly` flags and classifies pairs of responses, `Evidence` says what the responses show when it does, `Collector`
buffers and pairs them. `Paths` and `OpenApi`
canonicalise paths and collect endpoints from a specification.

Where a documented or expected property is false of the code, the code is kept, a lemma exhibits the failure, and a
condition that decides it is proved:

- A delayed move reads 50 due entries and removes all of them: it loses exactly the due entries beyond 50
  (`Polling.MoveLosesTheCutOff`, `Agreement.NothingDropped`).
- With read and write apart, a run loses the 51st of 51 retries (`SplitRuns.LostBeyondTheLimit`), or one that reaches
  the sorted set already due (`SplitRuns.LateRetryGone`). A task is gone for good exactly if some write removed its
  last copies while no worker held it (`SplitLoss.GoneIff`).
- Two workers may push a retry twice; a task of one retry is then executed three times, and its row leaves SUCCESS
  while the scan is COMPLETED (`SplitRuns.ExecutedTwiceAgain`). A write adds a copy exactly of what is in its batch
  and no longer due in the sorted set (`SoloMove.DuplicatesExactly`); with one worker at a time between read and write
  the system is the one with the move in a single step (`SoloMove.SoloRunIsOneStepRun`).
- An evaluation of a scan that commits late may overwrite a right verdict with a wrong one
  (`StaleVerdict.LateCommitOverwritesVerdict`): the verdict at rest is right exactly when the last commit was not
  stale (`ScanVerdict.LastCommitDecides`).
- A COMPLETED scan accepts more tasks and stays COMPLETED while they are queued
  (`StaleVerdict.LateSubmissionIsAccepted`). With the move in one step, COMPLETED is true throughout a run exactly if
  no task is submitted to a COMPLETED scan and no completion is committed that the statuses no longer call for
  (`ScanVerdict.CompletedIsHonestIff`).
- A scan may be FAILED in passing (`StaleVerdict.FailedInPassing`). A FAILED row is final exactly if its task is not on
  the way to a retry (`InPassing.FailedIsFinalIff`). A FAILED scan, whatever its tasks are doing, stays so exactly if
  no COMPLETED is about to be committed and some task of it can no longer succeed: it is dead-lettered or on the way
  there, was dropped by a move, or is delayed behind 50 retries of the same score; without new tasks it also stays so
  if all its tasks have succeeded and been evaluated (`Recovery.FailedScanIsFinalIff`).
- Reported keys can tell the Lua script from the in-process bucket (`KeyExpiry.ReportedKeyDiffers`,
  `KeyExpiry.ExpiryForgetsSlowdown`). On a harmless trace they answer alike; the first operation that is not harmless
  is told right after it by acquires that are harmless themselves (`KeyExpiry.AgreeWhileHarmless`,
  `KeyExpiry.HarmlessIffCannotTell`).
- Refilling is lazy, so after a slowdown more can be granted than what the bucket holds plus the slowed flow from then
  on (`TokenBucket.SlowdownComesLate`), unless it was refilled at that moment, is full, or never refills
  (`TokenBucket.SlowdownCountsFromNowIff`).
- Admissions in a window can exceed one bucket's bound by the grants that unfinished passes held at its start, and do
  (`Admission.ExcessIsAttained`).
- The sliding window fails with an IndexError exactly for limits below 1 (`SlidingWindow.CrashesIffNoLimit`).
- Path strings are ambiguous exactly through keys that are empty, contain a dot or end in a list index such as `[0]`
  (`JsonFlatten.EncodeInjective`, `JsonFlatten.EveryOtherKeyCollides`); empty containers, and bodies Python takes for
  false, leave no trace either (`FieldDiff.EmptyContainersVanish`, `FieldDiff.FalsyBodiesAlike`).
- A flagged pair can go without an issue for lack of a matching rule if the similarity threshold is below 0.64995
  (`Anomaly.LowThresholdExample` for each such threshold), and not from there on (`Anomaly.NoAnomalyGoesUnreported`,
  `Anomaly.SameDataIsReportedIff`).

## Model

| member | source | states |
|---|---|---|
| TaskQueue.PollOrderIsPermutation | executor/task_queue/consumer.py:23-41 | every poll order lists each of the four queues exactly once; each is first for its 60, 25, 10 or 5 in a hundred of the draws, the others follow by priority |
| TaskQueue.PriorityLabels | executor/task_queue/publisher.py:18-25 | P1 to P4 in either case name the four lists; any other label means the medium list |
| TaskQueue.PollFindsNothing | executor/task_queue/consumer.py:43-60 | a poll returns nothing if and only if all four lists are empty |
| TaskQueue.FirstNonEmptyIs | executor/task_queue/consumer.py:51-56 | a poll finds a list if and only if it holds something and every list before it in the order is empty |
| TaskQueue.RoutedSelects | executor/task_queue/publisher.py:48-51 | the share of a list in a batch is the members whose priority names it, each once, in batch order, and nothing else |
| RedisQueues.GroupByQueue | executor/task_queue/publisher.py:48-51 | grouping keeps, per target list, exactly the payloads routed there in batch order |
| RedisQueues.Redis.Publish | executor/task_queue/publisher.py:27-39 | the payload joins the tail of the list its priority names, P3's list for unknown labels; the other lists stay as they are |
| RedisQueues.Redis.PublishBatch | executor/task_queue/publisher.py:41-62 | the whole batch arrives: behind what it held each list gets exactly its members of the batch, in batch order; an empty batch publishes 0 |
| RedisQueues.Redis.ScheduleDelayed | executor/task_queue/publisher.py:64-81 | afterwards the payload is in the sorted set once, with this score; every other member is kept, and score order too |
| RedisQueues.Redis.ProcessDelayedTasks | executor/task_queue/consumer.py:71-102 | the first entries with a score in [0, now], no more than 50, join the tails of their lists, while exactly the entries with such a score are removed |
| RedisQueues.Redis.Consume | executor/task_queue/consumer.py:43-60 | after the move a poll that delivers takes the head of a list of the order before which all lists are empty and leaves the other lists alone; it delivers nothing only if all lists are empty |
| RedisQueues.Redis.SendToDlq | executor/task_queue/consumer.py:104-119 | the payload is appended to the dead letters with its reason |
| Agreement.StepInv | executor/workers/engine.py:103-173 | each step of any worker, poll, move or submission keeps one token per task and the agreement of row, history and place; only a move can lose tasks, those it cut off |
| Agreement.TasksAreConserved | executor/workers/engine.py:103-173 | after every run each submitted task is in exactly one of lists, delayed set, flight, finished, dead letters, except those cut off by a move's read limit, which are nowhere |
| Agreement.QueueAndDatabaseAgree | executor/workers/engine.py:175-237 | in every reachable state the row's status and attempts are the ones the task's place and worker program counter call for; dropped tasks stay RETRYING |
| Agreement.ExecutionsAreBounded | executor/workers/engine.py:340-352 | no task is executed more than max_retries + 1 times |
| Agreement.ExhaustedTasks | executor/workers/engine.py:346-352 | a task dead-lettered for exhausted retries was executed exactly max_retries + 1 times, waited 2 * (2^max_retries - 1) seconds of backoff in all, and is FAILED with that many attempts |
| Agreement.NothingDropped | executor/task_queue/consumer.py:77-98 | a run drops no task if and only if none of its moves finds more than 50 due |
| Fidelity.SubmitIs | executor/api/routes.py:39-98 | a submission puts one payload per task, with its own id, retries and priority, at the tail of the list that priority names, in order; a row each; and sets only pending or paused scans running |
| Fidelity.PopIs | executor/task_queue/consumer.py:51-60 | a poll starts a process for the head of the first list of its order that holds something, and leaves the other lists alone |
| Fidelity.MoveIs | executor/task_queue/consumer.py:76-98 | a move pushes the first 50 entries due, and removes exactly those due |
| Fidelity.RequestsAreUnaltered | executor/workers/engine.py:340-352 | wherever a task is in any run, its payload is the submitted one but for the count of attempts |
| Fidelity.RunsAreFifo | executor/task_queue/consumer.py:51-56 | in every run of the step system what a list has delivered, then what it holds, is what was pushed to it, in order |
| ScanVerdict.LastCommitDecides | executor/workers/engine.py:239-278 | in every run a scan whose tasks have all ended has been judged, and rightly (COMPLETED when all finished, FAILED otherwise) if and only if the last evaluation that committed a verdict on it still agreed with the statuses when it committed |
| ScanVerdict.SuccessIsFinal | executor/workers/engine.py:175-237 | a row that says SUCCESS is never written again, by any step |
| ScanVerdict.LateSubmissionBreaks | executor/api/routes.py:43-76 | a non-empty submission to a scan that is COMPLETED, or about to be, leaves it so with a task that is not SUCCESS |
| ScanVerdict.CompletionIsTrueIff | executor/workers/engine.py:239-278 | COMPLETED, committed or about to be, is true at every moment of a run if and only if nothing is submitted to such a scan |
| ScanVerdict.CompletedIsHonestIff | executor/workers/engine.py:239-278 | at every moment of a run all COMPLETED scans have only SUCCESS tasks, if and only if nothing is submitted to a COMPLETED scan and no completion is committed that the statuses no longer call for |
| StaleVerdict.LateCommitOverwritesVerdict | executor/workers/engine.py:248-258 | a concrete run in which an evaluation commits late and a scan whose tasks all finished ends FAILED |
| StaleVerdict.FailedInPassing | executor/workers/engine.py:144-156 | a concrete run in which a scan is FAILED while a retry is about to be scheduled, and later COMPLETED |
| StaleVerdict.LateSubmissionIsAccepted | executor/api/routes.py:43-49 | a concrete run in which a COMPLETED scan accepts a task and stays COMPLETED while it is queued |
| InPassing.FailedIsFinalIff | executor/workers/engine.py:143-156 | a FAILED row stays FAILED in every continuation if and only if its task is not on the way to a retry |
| InPassing.FailedPlaces | executor/workers/engine.py:143-171 | the task of a FAILED row is on the way to a retry, or else dead-lettered, given up, refused by the limiter or out of retries |
| InPassing.VerdictIsFinalIff | executor/workers/engine.py:248-258 | where the statuses of a scan call for FAILED, they do in every continuation without new tasks if and only if none of its tasks is on the way to a retry |
| Hope.HopeIsNotRegained | executor/workers/engine.py:103-352 | a task that can no longer succeed (dead or on the way there, dropped, past its last attempt, or delayed behind 50 retries of the same score) never can again, whatever step anyone takes |
| Hope.FailedHopeIsRetry | executor/workers/engine.py:143-171 | the task of a FAILED row may still succeed if and only if it is on the way to a retry |
| Recovery.Recovers | executor/workers/engine.py:103-352 | from every reachable state in which no task of a scan is past hope and not all have been evaluated as successes, a run without submissions ends with the scan COMPLETED |
| Recovery.FailedScanIsFinalIff | executor/workers/engine.py:239-352 | in every reachable state a FAILED scan stays FAILED in every continuation if and only if no COMPLETED is about to be committed and some task of it can no longer succeed; in every continuation without new tasks also if all its tasks are evaluated successes |
| Termination.StepMeasure | executor/workers/engine.py:340-352 | every working step lowers the sum over tasks of the lexicographic weight (retries left, place); only submissions raise it, by their budget |
| Termination.WorkIsBounded | executor/workers/engine.py:340-352 | whatever is interleaved, the working steps of a run never exceed the budget of what was submitted, so runs without new submissions finish |
| Termination.WorkIsPossible | executor/workers/engine.py:67-85 | until every task has ended, some working step is possible now or after the clock advances: no run gets stuck |
| SplitMove.NoTaskVanishes | executor/task_queue/consumer.py:76-98 | with read and write of the move as separate steps of any number of workers, if no read finds more than 50 due and every retry lands before it is due, every task stays somewhere in the system and any pending write pushes all it removes |
| SplitMove.WritePushesWhatItRemoves | executor/task_queue/consumer.py:92-98 | whatever a covered write removes it has pushed to the list its priority names |
| SplitLoss.WriteLosesIff | executor/task_queue/consumer.py:92-98 | a write loses a task if and only if all its copies are due members of the delayed set and its own read did not return it |
| SplitLoss.GoneIff | executor/task_queue/consumer.py:71-102 | in every interleaving a submitted task is gone for good if and only if some write removed its last copies while no worker held it |
| SoloMove.WriteCopies | executor/task_queue/consumer.py:92-98 | a covered write adds one copy of exactly those batch members that are no longer due in the sorted set, and keeps the number of copies of everything else |
| SoloMove.DuplicatesExactly | executor/task_queue/consumer.py:71-102 | the same for every write in every run whose reads stay within the limit and whose retries land before they are due |
| SoloMove.SoloRunIsOneStepRun | executor/task_queue/consumer.py:71-102 | a run in which one worker at a time is between read and write is a run with the move in one step, at the time of the read, with the same queues, database and histories |
| SoloMove.SoloRunsAreExact | executor/task_queue/consumer.py:71-102 | in such a run within the read limit each submitted task has exactly one copy, agrees with its row and is executed at most max_retries + 1 times |
| SplitRuns.LostBeyondTheLimit | executor/task_queue/consumer.py:78-98 | a run from the empty system in which 51 retries fall due together and the last is gone |
| SplitRuns.LateRetryGone | executor/task_queue/publisher.py:71-76 | a run from the empty system in which a retry stored late, between a read and its write, is gone |
| SplitRuns.ExecutedTwiceAgain | executor/task_queue/consumer.py:78-98 | a run from the empty system in which two workers push one retry twice: three executions with max_retries 1, and a row taken back from SUCCESS while the scan is COMPLETED |
| Polling.MoveLosesTheCutOff | executor/task_queue/consumer.py:77-98 | one move keeps the multiset of payloads if and only if at most 50 are due, and otherwise loses exactly due - 50 |
| Polling.EarliestAreRead | executor/task_queue/consumer.py:78-80 | whatever a read leaves out is due no earlier than anything it returns |
| Polling.ZAddKeepsOrder | executor/task_queue/publisher.py:76 | the sorted set stays in score order |
| Polling.ListsAreFifo | executor/task_queue/consumer.py:51-56 | per list, what was delivered followed by what is left is what was there followed by what was pushed, in order, under any interleaving |
| Polling.BoundedWaiting | executor/task_queue/consumer.py:23-60 | the item at index i of a list is delivered no later than by the (i+1)-th poll that looks at the list first, whatever is pushed or polled meanwhile |
| Engine.Database.UpdateTaskStatus | executor/workers/engine.py:175-237 | exactly the status of this task's row is set; a missing row stays missing |
| Engine.Database.SaveResponse | executor/workers/engine.py:284-313 | status and attempt count of the row and the one response record of the task change in one commit; without a row nothing changes; the scan to evaluate is reported |
| Engine.Database.InsertTasks | executor/api/routes.py:55-76 | each new task gets a QUEUED row with no attempts; other rows are unchanged |
| Engine.Database.ReadVerdict | executor/workers/engine.py:243-257 | the loop over statuses yields nothing while a task of the scan is unfinished or there is none, else COMPLETED if all are SUCCESS and FAILED if not, for a scan that exists |
| Engine.Worker.SaveAndEvaluate | executor/workers/engine.py:280-338 | saving a response and judging the scan is the model's save, read and write; the row has its outcome and one attempt more, and the scan the status its rows call for |
| Engine.Worker.HandleRetry | executor/workers/engine.py:340-352 | the retry code is the model's steps; with retries left the row is RETRYING and the payload, one attempt on, is delayed by 2 * 2^attempt seconds; without, the row is FAILED and the payload dead-lettered |
| Engine.Worker.ProcessPayload | executor/workers/engine.py:103-173 | for every answer of the limiter and outcome of the request the code is a run of its process to the end, and leaves the row, the delayed set and the dead letters as that outcome calls for |
| Engine.Api.SubmitTasks | executor/api/routes.py:39-98 | an unknown scan is refused unchanged; otherwise each task gets its row and a payload of its own id, retries and priority at the tail of its list, in order, and a pending or paused scan is running |
| Engine.BuildPayloads | executor/api/routes.py:78-92 | row i and submission i make payload i, at attempt 0, with the priority submitted |
| EngineLoop.PermitsAreConserved | executor/workers/engine.py:67-85 | free permits, the loop's permit and payloads in processing add up to the same number on every path |
| EngineLoop.ConcurrencyIsBounded | executor/workers/engine.py:38-101 | never more payloads than WORKER_CONCURRENCY, and all permits are back once the loop has left and its payloads are done |
| EngineLoop.StopLetsInAtMostOne | executor/workers/engine.py:87-95 | after a stop at most the fetch under way brings in one more payload |
| EngineLoop.LeavesOnlyOnceStopped | executor/workers/engine.py:67-85 | as long as nobody stops the engine its loop does not leave, and every fetch, empty or not, brings it back to its test |
| EngineLoop.StoppedLoopLeaves | executor/workers/engine.py:67-95 | a stopped loop makes at most two more acts of its own, and has left exactly when it has made those it had left |
| EngineLoop.LoopCanGoOn | executor/workers/engine.py:67-85 | a loop that has not left can act unless it waits for a permit and none is free |
| EngineLoop.WorkerEngine.NextPermit | executor/workers/engine.py:67-69 | the loop leaves, blocks, or takes one permit, as the step system does |
| EngineLoop.WorkerEngine.FetchOne | executor/workers/engine.py:71-85 | a running loop is back at its test after every fetch; early exit and empty fetch give the permit back, a payload keeps it |
| EngineLoop.WorkerEngine.ReleasePermit | executor/workers/engine.py:172-173 | the end of a payload gives back its permit |
| EngineLoop.WorkerEngine.RequestStop | executor/workers/engine.py:87-93 | stop only clears the flag, and does nothing more when already stopped |
| TokenBucket.LocalTokenBucket.Acquire | executor/rate_limiter/limiter.py:62-78 | refills up to the capacity, grants exactly when that covers the request, takes the request and no more, creates full buckets, leaves other keys alone |
| TokenBucket.LocalTokenBucket.Report429 | executor/rate_limiter/limiter.py:80-84 | halves the multiplier down to 0.1 and leaves the tokens; a bucket created by a report starts empty |
| TokenBucket.GrantsArePaid | executor/rate_limiter/limiter.py:62-84 | over any run, tokens and multiplier stay in range and grants plus what is left are paid by the tokens at the start and the flow since |
| TokenBucket.TokensAreConserved | executor/rate_limiter/limiter.py:62-84 | over any run of acquires and reports what is granted, what is left and what found no room make up what was there and what flowed in |
| TokenBucket.GrantsAreExact | executor/rate_limiter/limiter.py:62-78 | while no refill overflows, grants plus what is left equal the tokens at the start plus the flow |
| TokenBucket.GrantedIffCovered | executor/rate_limiter/limiter.py:75-78 | then an acquire is granted if and only if the request is within the capacity and within what was there and flowed in, less what was granted |
| TokenBucket.BurstIsGranted | executor/rate_limiter/limiter.py:62-78 | of any number of one-token acquires of a new bucket at one moment exactly the first floor(capacity) are granted |
| TokenBucket.WindowBound | executor/rate_limiter/limiter.py:62-84 | tokens stay in [0, capacity] and any stretch of any run, with any 429 reports, grants at most capacity + rate * (t2 - t1) |
| TokenBucket.MultiplierIsHalvedPerReport | executor/rate_limiter/limiter.py:80-84 | after k reports the multiplier is max(0.1, 2^-k) whatever was acquired in between |
| TokenBucket.GrantsAfterReports | executor/rate_limiter/limiter.py:62-84 | after k reports later grants are at most the tokens held plus rate * max(0.1, 2^-k) times the time since the last refill |
| TokenBucket.SlowdownComesLate | executor/rate_limiter/limiter.py:70-84 | a run in which an empty bucket, slowed down at this moment, still grants 5 of 10 tokens at once |
| TokenBucket.SlowdownCountsFromNowIff | executor/rate_limiter/limiter.py:62-84 | after k reports, every future is paid by the tokens held and the flow at rate * max(0.1, 2^-k) from now on if and only if the bucket was refilled at this moment, is full, or never refills |
| KeyExpiry.RedisBuckets.Eval | executor/rate_limiter/limiter.py:12-45 | the script refills up to the capacity, grants exactly when that covers the request, takes the request and no more, writes tokens, moment and multiplier, and on a grant sets twice the seconds to fill a bucket, rounded up, to live; other keys are left alone |
| KeyExpiry.RedisBuckets.Report429 | executor/rate_limiter/limiter.py:161-173 | only the multiplier is written, so a missing key gets no token field |
| KeyExpiry.ExpiryIsInvisible | executor/rate_limiter/limiter.py:12-78 | on every trace of acquires of an unreported key the script with expiry and the bucket without give the same answers |
| KeyExpiry.AgreeWhileHarmless | executor/rate_limiter/limiter.py:12-84 | on a trace of acquires and reports from a fresh key both backends answer alike if every operation is harmless (no key found expired with a slowdown; no report that misses the tokens of a bucket not full at the slowed rate); otherwise the trace up to its first harmful operation, continued by acquires that are all harmless, is answered differently |
| KeyExpiry.HarmlessIffCannotTell | executor/rate_limiter/limiter.py:12-84 | after a harmless trace an operation is harmless if and only if no harmless acquires that follow it are answered differently |
| KeyExpiry.ReportedKeyDiffers | executor/rate_limiter/limiter.py:80-84 | after a report on an unused key the next acquire is granted by the script and refused in process |
| KeyExpiry.ExpiryForgetsSlowdown | executor/rate_limiter/limiter.py:22-39 | one trace from a fresh key, with a report and an expiry, at whose end the script grants and the in-process bucket refuses |
| MultiAcquire.Acquire | executor/rate_limiter/limiter.py:117-147 | what a call does to the in-process buckets is a run of one call of the system to its return: true after exactly one pass that charged every bucket, every failed pass charging a proper prefix, at most 10 * timeout passes, false only past the timeout |
| MultiAcquire.Pass | executor/rate_limiter/limiter.py:137-143 | one pass charges the buckets up to the first refusal and ends the call exactly if there is none |
| Admission.GrantsAreAccountedFor | executor/rate_limiter/limiter.py:132-142 | with any calls interleaved, the grants of a bucket are those of admitted calls, those wasted by failed passes and those in the hand of passes going on |
| Admission.ScanBucketChargedPerAdmission | executor/rate_limiter/limiter.py:129-142 | a bucket asked last, as scan buckets are, is charged exactly once per call that returns true and never otherwise |
| Admission.RunIsBucketRun | executor/rate_limiter/limiter.py:132-159 | seen from one bucket any interleaving of calls and reports is a run of that bucket with the clock going forward |
| Admission.GrantsInWindow | executor/rate_limiter/limiter.py:117-159 | in any part of any interleaving a bucket grants at most rate + rate * (its duration) |
| Admission.AdmissionsInWindow | executor/rate_limiter/limiter.py:117-159 | admissions charged to a bucket exceed that bound by no more than the grants unfinished passes held at the start, none for scan buckets |
| Admission.PassesAreBounded | executor/rate_limiter/limiter.py:135-147 | whatever else goes on, no call makes more than 10 * timeout passes |
| Admission.ExcessIsAttained | executor/rate_limiter/limiter.py:132-142 | a run in which two calls are admitted at one moment through a bucket of one token, the grant in hand at the start being the second |
| Admission.TestIs | executor/rate_limiter/limiter.py:135 | a call's test gives up exactly when its timeout is over, and begins a pass before |
| Admission.AskIs | executor/rate_limiter/limiter.py:126-140 | a pass asks its next bucket for one token, at its configured rate or 100 for a scan, and touches no other |
| Admission.AnswerIs | executor/rate_limiter/limiter.py:137-144 | granted, a pass goes on to the next bucket or returns true after the last; refused, it starts again from the first, at the earliest a tenth of a second later |
| SlidingWindow.Middleware.Handle | executor/api/main.py:105-128 | the popleft loop, the decision and the append do to the client's deque what the reference step says; other clients are untouched |
| SlidingWindow.PrunedIsSince | executor/api/main.py:114-115 | the popleft loop keeps exactly the entries of the last 60 s |
| SlidingWindow.DequeIsRecentLog | executor/api/main.py:105-128 | after every run a client's deque is its full admission log filtered to the 60 s before its last call, and limit + 1 admissions in a row take more than 60 s |
| SlidingWindow.AdmittedIff | executor/api/main.py:107-127 | a request that is not exempt is admitted if and only if fewer than limit admissions of its client lie in the 60 s before it, and refused otherwise |
| SlidingWindow.NoWindowOverLimit | executor/api/main.py:105-128 | no closed 60 s window holds more than the limit |
| SlidingWindow.RetryAfterIsExact | executor/api/main.py:117-125 | a refused client that waits retry_after and is not admitted meanwhile is admitted; one that returns a second or more earlier is refused |
| SlidingWindow.CrashesIffNoLimit | executor/api/main.py:117-118 | reading the head of an empty deque happens exactly when the limit is not positive, and then on every counted request |
| Autoscaler.WorkerPoolManager.Start | executor/worker_manager/manager.py:25-34 | starts min_workers engines, capped by max_workers |
| Autoscaler.WorkerPoolManager.ScaleUp | executor/worker_manager/manager.py:110-118 | appends min(count, max - workers) new engines behind the others |
| Autoscaler.WorkerPoolManager.CleanupIdleWorkers | executor/worker_manager/manager.py:120-130 | idle engines are dismissed in list order until the floor is reached |
| Autoscaler.WorkerPoolManager.MonitorTick | executor/worker_manager/manager.py:63-82 | one turn of the monitor loop is cleanup, then growth to the desired size under the ceiling |
| Autoscaler.DesiredGrowsWithDepth | executor/worker_manager/manager.py:91-108 | the size is min_workers below 10 tasks, then 5, 10, 50 and 100 from 10, 100, 1000 and 10000 on; a deeper queue never asks for fewer engines if and only if min_workers is at most 5 |
| Autoscaler.TickIsRight | executor/worker_manager/manager.py:63-130 | a tick removes only idle engines, keeps all others, never goes below min by removing, starts only new ones, and its final size is max(kept, min(desired, max)) |
| Autoscaler.TickExactly | executor/worker_manager/manager.py:63-130 | a tick takes the first idle engines in list order, as many as there are above min, keeps the others in order, and appends new ones up to min(desired, max) |
| Autoscaler.PoolStaysInBounds | executor/worker_manager/manager.py:25-130 | after start and after every tick of every run min <= workers <= max, and at least min(desired, max) after a tick |
| Autoscaler.SteadyState | executor/worker_manager/manager.py:63-82 | a tick with no idle engine at the depth of the tick before changes nothing |
| Autoscaler.IdleEnginesAreReplaced | executor/worker_manager/manager.py:70-82 | with all engines idle at the desired size a tick stops down to min and starts as many new ones |
| JsonFlatten.FlattenJson | diff_engine.py:29-45 | for every tree, the result holds under each string a leaf whose path spells it, and has a string for every leaf |
| JsonFlatten.EncodeIs | diff_engine.py:34-44 | a path is spelled as its keys joined by dots and its indices in brackets, in decimal |
| JsonFlatten.EncodeInjective | diff_engine.py:34-44 | different paths are spelled by different strings, for keys that are non-empty, free of dots and do not end in a list index |
| JsonFlatten.EveryOtherKeyCollides | diff_engine.py:34-44 | any other key lies on a path spelled like one that has it split in two or dropped |
| FieldDiff.CompareFields | diff_engine.py:73-104 | the result compares the two flat forms: common, added and removed keys and the changed values of both sides |
| FieldDiff.DiffMeans | diff_engine.py:79-84 | on legal trees a path is leaked, added, removed or changed exactly when the leaves of the two trees there say so |
| FieldDiff.ScalarBodies | diff_engine.py:73-104 | a body that is a scalar stands under the empty string, unless Python takes it for false |
| FieldDiff.DiffListsPaths | diff_engine.py:91-102 | on legal trees every string in the diff is the string of a leaf's path |
| FieldDiff.DiffEmptyIffEqual | diff_engine.py:73-104 | on legal trees nothing is added, removed or changed if and only if the trees are equal |
| FieldDiff.DotHidesNesting | diff_engine.py:37 | a key containing a dot is reported equal to nested objects |
| FieldDiff.BracketHidesList | diff_engine.py:41 | a key ending in [0] is reported equal to a list of one item |
| FieldDiff.EmptyKeyHidesWrapping | diff_engine.py:37 | wrapping a body under an empty key leaves the diff as it was |
| FieldDiff.EmptyContainersVanish | diff_engine.py:35-44 | empty objects and lists are reported equal |
| FieldDiff.FalsyBodiesAlike | diff_engine.py:88-89 | absent bodies, 0, the empty string, object and list are all reported alike |
| Anomaly.CompareResponses | diff_engine.py:109-205 | a pair is flagged exactly if the users differ and both got 200 with bodies alike, or the bodies share an id and one got 200, or the first was refused and the second got 200; ids are foreign if shared between users or known tenants |
| Anomaly.ClassifyDiff | issue_classifier.py:346-369 | the loop over the six checks returns, in order, an issue for each that fires, none for an unflagged pair |
| Anomaly.ClassifyAll | issue_classifier.py:372-377 | the issues of all diffs, concatenated in order |
| Anomaly.ClassifiedHas | issue_classifier.py:346-369 | an issue is listed if and only if the pair is flagged and the check of its kind fires |
| Anomaly.RoundsToFour | diff_engine.py:200 | the similarity reported is the nearest multiple of 0.0001, the even one of two |
| Evidence.ReportedIff | issue_classifier.py:142-369 | an issue of a kind is reported about two responses if and only if they are an anomaly and the responses themselves show what the kind stands for |
| Evidence.RefusalsAreReported | issue_classifier.py:177-205 | a 401 or 403 for the first user and a 200 for another is always flagged and reported as BFLA |
| Evidence.RankIs | issue_classifier.py:278-281 | admin is 3, manager 2, guest 0 in any case; user, any other role and none are 1 |
| Evidence.IssuesInTurn | issue_classifier.py:354-369 | the issues of a pair come in the order of the checks, no kind twice |
| Anomaly.RoundingAt65 | diff_engine.py:200 | the similarity rounded to 4 places reaches 0.65 exactly from 0.64995 on |
| Anomaly.TriggerHasItsRule | issue_classifier.py:142-236 | same data gives a BOLA, a reversed refusal a BFLA, shared ids a tenant leak unless both are of one known tenant |
| Anomaly.NoAnomalyGoesUnreported | issue_classifier.py:142-369 | for thresholds from 0.64995 a flagged pair has no issue if and only if shared ids within one known tenant flagged it and token, statuses, similarity, ranks and added fields give the other checks nothing |
| Anomaly.LowThresholdMisses | result_collector.py:45 | two users answered 200 alike from the threshold to below 0.64995, with equal ranks and no ids, tampered token or sensitive added fields, are flagged without an issue |
| Anomaly.LowThresholdExample | result_collector.py:45 | for every threshold below 0.64995 there are two responses that are flagged and raise no issue |
| Anomaly.SameDataIsReportedIff | issue_classifier.py:142-236 | every pair flagged for similar bodies raises an issue if and only if the threshold is at least 0.64995 |
| Collector.ScanResultCollector.OnResult | result_collector.py:74-81 | the response joins the end of its endpoint's list; other lists are unchanged and the count grows by one |
| Collector.ScanResultCollector.BuildPairs | result_collector.py:91-116 | the nested loops build the pairs of the reference definition in order |
| Collector.ScanResultCollector.ProcessBuffered | result_collector.py:118-160 | one diff per pair of every endpoint with two responses is appended, and the issues are replaced by those of the new diffs |
| Collector.PairsExactly | result_collector.py:97-115 | with references, exactly the pairs of a reference and a non-reference are compared; without, the first response with the later ones that differ from it |
| Collector.PairsInOrder | result_collector.py:97-116 | the pairs come in the order of the two loops over the responses, each pair of places that is to be compared once |
| Collector.ReportIsSound | result_collector.py:141-157 | every issue is about a compared and flagged pair and a check that fires on it |
| Collector.NoFlaggedPairIsMissed | result_collector.py:97-160 | every pair to be compared that is flagged gets an issue, with a reference role among the responses or without, unless only ids within one known tenant flagged it |
| Paths.NormalizeIsCanonical | endpoint_discovery.py:89-109 | the collapse-and-strip procedure yields "/" plus the non-empty segments joined by single slashes |
| Paths.NormalizeIsIdempotent | endpoint_discovery.py:89-109 | normalising twice is normalising once |
| Paths.SameNormalIffSameSegments | endpoint_discovery.py:89-109 | two paths coincide exactly when their non-empty segments do |
| OpenApi.OpenAPIParser.Parse | endpoint_discovery.py:176-241 | the nested loops read every entry of the document once, in order, with the errors and skips of each branch |
| OpenApi.ReadAllIsFirsts | endpoint_discovery.py:194-237 | the endpoints are exactly the first valid occurrences of (method, segments), in order |
| OpenApi.OneEndpointPerOperation | endpoint_discovery.py:214-218 | every valid entry's operation has exactly one endpoint, describing its first valid occurrence, and there are no other endpoints |
| OpenApi.SeenIsKeysOfEndpoints | endpoint_discovery.py:236-237 | throughout, seen_endpoints is the set of keys of endpoints and no key occurs twice |
| OpenApi.EntriesInOrder | endpoint_discovery.py:194-203 | the entries read are those of the path items one after the other, in document order, none left out |
| OpenApi.ValidIff | endpoint_discovery.py:203-212 | an entry is an operation if and only if its name is one of the eight HTTP methods in any case and its details are an object |
| OpenApi.EndpointDescribes | endpoint_discovery.py:111-121 | the endpoint has the method in upper case, the canonical path, and needs authentication exactly if its own list of schemes is not empty or, without one, that of the document |
| OpenApi.FateOfEntry | endpoint_discovery.py:194-237 | entry by entry: the first valid occurrence becomes an endpoint, with a warning if it declares no responses; any other entry gets the error of its case (not an object, no HTTP method, no details, duplicate) |

## Left out

- SplitMove.NoTaskVanishes: shows at least one copy and is conditional, because the code loses tasks outside the condition and copies them within it; `SplitLoss.GoneIff` and `SoloMove.DuplicatesExactly` are the exact forms.
- Engine.Worker.ProcessPayload: one coroutine on its own, with the clock standing still; that other coroutines may act between its steps is in the step system it refines, not in the method.
- MultiAcquire.Acquire: one call on its own, on the in-process buckets; other calls acting between its steps are in `Admission`.
- Engine.Api.SubmitTasks: in the step system the commits of a submission and the publication of its batch are one step, so no worker acts between them.
- KeyExpiry.RedisBuckets.Report429: reads and writes in one step, where the code sends two commands.
- JsonFlatten.FlattenJson: members of an object have no order here, so of several leaves spelled alike any one may stay; the code keeps the last in the order of the document.
- Collector.ScanResultCollector.OnResult: method and endpoint are only told apart as far as the string "method::endpoint" tells them apart, as in the code.
- The status of a scan that an evaluation has loaded before it reads the others: the object-relational mapper sends no status when the verdict equals the one loaded (executor/workers/engine.py:244-258), so a stale FAILED after a loaded FAILED would leave a COMPLETED in between alone; here every verdict is written.
- Store failures swallowed by `except` blocks, failing connections and process crashes: the stores are fault-free, so `publish`, `send_to_dlq` and the others report success.
- HTTP execution, pub/sub events, streaming, metrics, heartbeats and logging: only outcomes appear, as parameters.
- The contents of response records beyond their outcome, timestamps of scans and the deletion of rows: no modelled decision reads them.
- The unchanging part of a request (method, URL, headers, body) stands behind the task id; retries carry it along.
- How long a worker takes between reading its clock and moving: a move may use any moment up to the present.
- The keyword arguments that `submit_tasks` gives twice (executor/api/routes.py:66-71), which Python does not accept; they concern data outside the model, and the function is modelled as if they were given once.
- Blocking pops: a poll that waits for an item is a poll at the moment the item is there.
- Floating point: times, tokens and similarities are reals; NaN and the rounding of sums are not represented.
- Several clocks: one non-decreasing clock serves all workers. In-process buckets and Redis buckets are each bounded alone; a switch of backend in the middle of a run is not modelled.
- Token requests other than one per bucket in `Admission`; the pipeline always asks for one.
- asyncio cancellation and signal handlers; of `stop` only the flag and the semaphore.
- Letter case outside ASCII, in priorities, roles, field names and method names.
- The order of members of equal score in the sorted set is insertion order rather than Redis's byte order.
- SequenceMatcher, the recognition of ids and regular expressions: similarity is an arbitrary function, ids an arbitrary set-valued one.
- Severity scores, reproduction steps and texts of issues, and the report built from them: single conditions and templates.
- Body schemas and parameters of discovered endpoints, and specifications whose member names are not strings.
- The mutation engine, role swapper, crawler, authentication routes, dashboards, frontend and the duplicated copies of modules.
