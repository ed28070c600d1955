# nyann-bench, modelled and proved

nyann-bench drives load against inference servers: many streams replay conversations at a chosen concurrency or
arrival rate, several worker pods run one scenario in lockstep, a control service submits benchmarks to a
cluster and reports on what they recorded. This project models the protocols and the arithmetic at its core in
Dafny and proves what they promise.

Concurrent protocols are step systems: a state, a set of actions with an `Enabled` and an `Apply`, and `IsRun`,
the sequences of states that interleave the actions in any order. Their results hold at every state of every
run. Sequential code that updates things in place is a class or a method with loops, proved against a function,
and the properties are proved about that function. `dafny verify dfyconfig.toml` checks everything.

| file | what it models |
|---|---|
| `BarrierServer.dfy`, `BarrierSafety.dfy`, `BarrierIds.dfy`, `BarrierLockstep.dfy`, `BarrierStart.dfy` | the start barrier: server lock sections, what they guarantee whatever the worker ids, what depends on the ids, workers that retry on top of it, and the start time they are told |
| `Submission.dfy`, `SubmissionSuccess.dfy`, `SubmissionRepeat.dfy`, `SubmissionStory.dfy` | concurrent submissions of one run id over manifest files, Service and Job: what stays true, what is answered, what can repeat a run |
| `Recorder.dfy` | writers, drainer and closers of the request recorder |
| `PoolConversation.dfy`, `PoolScheduler.dfy`, `PoolRuns.dfy` | the conversation pool: one conversation, the scheduler, whole runs with C streams |
| `BudgetedStreams.dfy`, `EvalPartition.dfy` | the lock-free request budget, and the evaluation that covers a dataset once |
| `RateStages.dfy`, `RateProgress.dfy`, `ArrivalGap.dfy` | rate-driven stages, their progress, and the arrival times on a ramp |
| `ScenarioConfig.dfy`, `LoadDivision.dfy` | validation and worker shares |
| `ScenarioRun.dfy`, `ScenarioTrace.dfy`, `StageSettings.dfy`, `StageLockstep.dfy` | the run loop, the conditions and barriers its stages meet, the settings they run with, and the lockstep of stages across workers |
| `Utf8.dfy`, `TokenTrim.dfy`, `TrimExact.dfy` | trimming a text to a token budget without splitting a character |
| `Collect.dfy`, `Statistics.dfy`, `LatencyFigures.dfy`, `Report.dfy`, `ReportMethods.dfy` | percentiles and what they say, the bounded sample, the batch summary and the streamed report |
| `Numerals.dfy` | comparing numeric answers |
| `Shared.dfy` | options, sums over lists |

## Findings

Six promises turn out to hold only under a condition. In each case the code is modelled as it is, the condition is
proved exact, over the inputs or the state a call begins in, and an instance is given where the promise fails.

- A generator that gives up after consecutive errors, during a stage, at a barrier or in a callback, loses the stages
  behind it, and stages of later runs are numbered too low. A completed stage consults its own condition exactly when
  no earlier run gave up with a measured stage still ahead of it (`ScenarioTrace.LookupIsOwnConditionIff`,
  instances `GivingUpShiftsConditions` and `ErrorsAtABarrierShiftConditions`); a barrier id is the barrier's own
  exactly when no earlier run gave up with a barrier still ahead of it (`ScenarioTrace.BarrierIdIsOwnIff`, instance
  `GivingUpShiftsBarriers`).
- Numerals are judged equal exactly when they denote the same number and are written in the same manner: with the same
  sign, if any, and without one both with or both without a digit before the point, with one with the same digits
  there (`Numerals.CorrectIff`, instances `MissingZeroFails`, `MinusZeroFails`, `NegativeLeadingZeroFails`).
- With a measurement window the report divides by the length of the window, the batch summary by the span of its
  records; they agree exactly when records touch both ends of the window (`Report.DurationAgreesIff`, instance
  `WindowLongerThanItsRecords`).
- The barrier server never checks worker ids. Every late handler of every run is rejected exactly when no more ids are
  in use than the barrier waits for (`BarrierIds.LateHandlersRejectedIff`); otherwise a late handler can be left waiting
  until its request is cancelled (`BarrierIds.StrandedForGood`, instance `TwoWorkersWhereOneIsExpected`).
- Stages that follow one another with the same target and model and with workloads that agree in seven of their thirteen
  settings share one generator, set up with the mode, rate, bound and workload of the first. Every stage runs with what
  it asks for exactly when neighbouring stages (barriers apart) that agree in what is compared agree in the rest too
  (`StageSettings.StagesGetTheirOwnIff`, instances `SecondRateIsIgnored` and `SecondFileIsIgnored`).
- A submission that begins when the manifest and its artifacts are there may still come to create a Job, exactly when
  the maker of the manifest can still roll it back and the place of the caller's copy is free or already holds its own
  manifest (`SubmissionRepeat.RepeatedIff`, instance `SubmissionStory.SlowMakerRepeatsARun`).

The comment in `pkg/loadgen/generator.go` that shrinking a stream pool cancels the most recently added streams is
not what the code does: it cancels whichever the map yields first, and so does the model.

## Model

| member | source | states |
|---|---|---|
| BarrierServer.FullReady | pkg/barrier/server.go:106-115 | pigeonhole: with no more ids in use than the barrier waits for, a released state has registered every one of them |
| BarrierServer.StepPreserves | pkg/barrier/server.go:83-145 | every lock section keeps the server invariant tying handlers, generations and the id map |
| BarrierServer.RunInv | pkg/barrier/server.go:83-145 | the invariant holds at every state of every run with no more worker ids than n |
| BarrierSafety.SafeRun | pkg/barrier/server.go:83-145 | the safety invariant holds at every state of every run, whatever worker ids are in use |
| BarrierSafety.BroadcastNeverBlocks | pkg/barrier/server.go:112-128 | whatever the ids: each state broadcasts at most once, each channel gets at most one value, and every channel is empty when the send loop starts, so it cannot block under the lock |
| BarrierSafety.DeleteRemovesReleasedState | pkg/barrier/server.go:130-134 | whatever the ids: the delete after unlocking removes exactly the state that the handler released, and no other handler is about to delete it |
| BarrierSafety.DeletedAtMostOnce | pkg/barrier/server.go:130-134 | whatever the ids: over a whole run no state is deleted twice |
| BarrierSafety.StartIsSetOnce | pkg/barrier/server.go:121-127 | whatever the ids: the step that completes a state sets its start time, one second ahead of that moment, and no later step changes it |
| BarrierSafety.ToldTheReleaseTime | pkg/barrier/server.go:121-144 | whatever the ids: who is told a start time is told the moment its own state was completed, plus one second |
| BarrierSafety.ReleaseLetsEverybodyGo | pkg/barrier/server.go:83-144 | after a release its handler deletes and replies, everybody registered there can reply, and the next to fetch the id gets a fresh state |
| BarrierServer.LateHandlerIsRejected | pkg/barrier/server.go:103-110 | with at most n ids, a handler that fetched a state before its deletion and locks it after its release is rejected as a duplicate and changes nothing else |
| BarrierServer.ReleasedHandlerCanReply | pkg/barrier/server.go:136-144 | with at most n ids, a waiting handler can reply exactly when its state is released, and then with that state's start time |
| BarrierIds.LateHandlersRejectedIff | pkg/barrier/server.go:103-128 | for every n and every set of worker ids: every late handler of every run is rejected exactly when there are at most n ids |
| BarrierIds.OneIdTooMany | pkg/barrier/server.go:103-128 | with more than n ids a run is constructed whose late handler is not rejected |
| BarrierIds.LateIsRejectedOrStranded | pkg/barrier/server.go:105-128 | whatever the ids, a late handler is rejected or registered in a state with more than n registrations |
| BarrierIds.StrandedForGood | pkg/barrier/server.go:121-144 | such a state never broadcasts again and the handler is sent nothing, cannot reply, and waits until it is cancelled |
| BarrierIds.TwoWorkersWhereOneIsExpected | pkg/barrier/server.go:103-144 | the run with ids 1 and 0 at a barrier that waits for one, step by step |
| BarrierLockstep.SystemRunInv | pkg/barrier/client.go:45-104 | the joint invariant of workers and server at every state of every run, with retries, lost requests and give-ups |
| BarrierLockstep.PassesNewest | pkg/barrier/client.go:85-103 | the reply a worker accepts comes from the newest generation of its barrier it ever registered in |
| BarrierLockstep.NobodyPassesEarly | pkg/barrier/server.go:112-127 | whoever passed barrier k passed a generation of k in which all n workers registered |
| BarrierLockstep.IndicesStayWithinOne | cmd/nyann-bench/common.go:426-442 | barrier indices of any two workers differ by at most one at every moment |
| BarrierLockstep.SameStartTime | pkg/barrier/client.go:97-103 | all workers that pass barrier k pass the same generation and hold the same start time, however often the id was re-created |
| BarrierStart.StartIsAheadOfEverybody | pkg/barrier/server.go:112-127 | the time told at barrier k is that of the last registration in its generation plus one second; all n workers registered there before, and while the clock never falls every registration is a second or more before the start |
| BarrierStart.NobodyIsTurnedAway | pkg/barrier/client.go:45-104 | of workers that send each request once nobody is rejected or gives up, and every reply takes its worker on |
| Submission.StepPreserves | pkg/controlapi/mcp_runs.go:162-225 | every store operation, also a failed one or one whose reply is lost, keeps the protocol invariant |
| Submission.AtMostOneJob | pkg/controlapi/mcp_runs.go:162-225 | over every interleaving without deletion at most one Job is created, none if there was one, and at most one caller is answered created |
| Submission.JobAndServiceAgree | pkg/controlapi/server.go:334-384 | Job and Service under the id carry the same fingerprint at every moment, and a created Job has its Service |
| Submission.SuccessIsTruthful | pkg/controlapi/mcp_runs.go:177-225 | a caller answered created or existing finds a managed Job and Service with its own fingerprint, the Job owning the Service |
| SubmissionSuccess.UndisturbedAnswer | pkg/controlapi/mcp_runs.go:162-225 | from every state: the exact answer of a caller left alone - existing with its Job, archived without one but with manifest and artifacts, created otherwise, failed when what it finds is not its own - and the Service is then owned by the Job |
| SubmissionSuccess.RepeatChangesNothing | pkg/controlapi/mcp_runs.go:162-189 | submitting again what is all there is answered existing and leaves every store as it was |
| SubmissionSuccess.NobodyFails | pkg/controlapi/mcp_runs.go:162-225 | over every interleaving of callers with one plan, without deletions and faults: nobody rolls back and nobody is answered failed |
| SubmissionSuccess.ExactlyOneCreates | pkg/controlapi/mcp_runs.go:202-225 | when all of them are answered and not all archived, exactly one is answered created if there was no Job at first, and none if there was |
| SubmissionSuccess.FaultsAreReported | pkg/controlapi/mcp_runs.go:162-268 | a step that fails ends the submission as failed, after taking back a manifest it made, and touches the stores only if its request took effect |
| SubmissionSuccess.UpdatesAreNotStale | pkg/controlapi/server.go:361-384 | without deletion, an update of the Service that takes effect finds it as the caller read it, whatever others did meanwhile |
| Submission.PersistedStep | pkg/controlapi/mcp_runs.go:227-268 | once nobody can roll it back, no step removes the index manifest or an artifact |
| SubmissionRepeat.ArchivedRunIsNotRepeated | pkg/controlapi/mcp_runs.go:193-201 | a submission that begins once manifest and artifacts exist never creates a Job, whatever is deleted meanwhile, if nobody can still roll the manifest back or the caller's copy slot holds another manifest |
| SubmissionRepeat.RepeatedIff | pkg/controlapi/mcp_runs.go:162-268 | it may come to create a Job exactly when somebody can still roll back and the caller's copy slot is free or its own |
| SubmissionStory.SlowMakerRepeatsARun | pkg/controlapi/mcp_runs.go:244-266 | a run from the start in which the slow maker rolls back and a later submission creates a second Job |
| Recorder.StepPreserves | pkg/recorder/recorder.go:90-141 | every step of a writer, the drainer or a closer keeps the data and lock invariants |
| Recorder.NeverPanics | pkg/recorder/recorder.go:102-133 | nothing is ever sent on the closed channel and it is closed at most once |
| Recorder.CloseIsComplete | pkg/recorder/recorder.go:126-141 | when any Close has returned, records in memory and on file are exactly the accepted writes in channel order, each once |
| Recorder.RefusedOnlyWhenClosed | pkg/recorder/recorder.go:102-116 | a write is refused only after a Close took effect, so before any Close every write that returned is accepted |
| Recorder.SnapshotsAreCumulative | pkg/recorder/recorder.go:118-122 | any snapshot of the records is a prefix of every later one |
| Recorder.NothingAfterClose | pkg/recorder/recorder.go:108-112 | once some Close returned nothing is recorded any more |
| Recorder.NoDeadlock | pkg/recorder/recorder.go:90-141 | in every reachable state where somebody has not returned a step is enabled, also with the channel full and a closer waiting |
| Recorder.RunsAreBounded | pkg/recorder/recorder.go:90-141 | every step uses up work, so no run is longer than the work it starts with |
| PoolConversation.PooledConversation.constructor | pkg/loadgen/conversation_pool.go:55-63 | a new conversation has no content, no history and is at turn 0 |
| PoolConversation.PooledConversation.Materialise | pkg/loadgen/conversation_pool.go:247-250 | content is drawn once, on first scheduling, and never replaced |
| PoolConversation.PooledConversation.RunTurn | pkg/loadgen/conversation_pool.go:267-352 | updates history and turn in place as the function Turn says, which PoolRuns.TurnsAreInSequence and PoolRuns.ReplacedIff are about |
| PoolConversation.DecimalInjective | pkg/loadgen/generator.go:609-611 | decimal renderings of different numbers differ |
| PoolConversation.RequestIdInjective | pkg/loadgen/generator.go:609-611 | a request id determines the conversation and the turn |
| PoolScheduler.NewPoolInv | pkg/loadgen/conversation_pool.go:35-53 | a new pool holds the smaller of size and budget, all ready, and satisfies the pool invariant |
| PoolScheduler.CompleteInv | pkg/loadgen/conversation_pool.go:118-139 | handing a conversation back keeps the pool invariant and loses a slot only when stopped or out of budget; what is not replaced goes to the end of the queue |
| PoolScheduler.CompleteOthers | pkg/loadgen/conversation_pool.go:118-134 | handing one conversation back does not touch what other streams hold |
| PoolScheduler.ConversationPoolScheduler.constructor | pkg/loadgen/conversation_pool.go:35-53 | builds the abstract new pool, with the concurrency as size when none is given |
| PoolScheduler.ConversationPoolScheduler.AddConversationSlot | pkg/loadgen/conversation_pool.go:55-68 | appends one new conversation to queue and map |
| PoolScheduler.ConversationPoolScheduler.PopReady | pkg/loadgen/conversation_pool.go:70-85 | the slice with moving head and compaction takes the front of the abstract queue and leaves its tail |
| PoolScheduler.ConversationPoolScheduler.ReserveRequest | pkg/loadgen/conversation_pool.go:87-102 | succeeds exactly when the budget is not spent, and counts only under a limit |
| PoolScheduler.ConversationPoolScheduler.NextConversation | pkg/loadgen/conversation_pool.go:104-116 | refines the abstract Next: what it hands out is checked out afterwards |
| PoolScheduler.ConversationPoolScheduler.CompleteConversation | pkg/loadgen/conversation_pool.go:118-139 | refines the abstract Complete: requeue, lazy replacement, or removal when stopped |
| PoolScheduler.ConversationPoolScheduler.Stop | pkg/loadgen/conversation_pool.go:141-145 | sets the stop flag and nothing else |
| PoolScheduler.ConversationPoolScheduler.SliceIsBounded | pkg/loadgen/conversation_pool.go:70-85 | the slice is never longer than live + max(1024, live) |
| PoolRuns.SchedulePreserves | pkg/loadgen/conversation_pool.go:210-263 | every step of every stream keeps the invariant tying queue, map, holders and budget |
| PoolRuns.NoWastedBudget | pkg/loadgen/conversation_pool.go:87-116 | with a pool at least as large as the number of streams, next fails exactly when stopped or out of budget, also after streams left holding conversations |
| PoolRuns.HandedOutIsCounted | pkg/loadgen/conversation_pool.go:87-116 | the number handed out equals the counter and never exceeds the limit |
| PoolRuns.DoneWhenSpent | pkg/loadgen/conversation_pool.go:87-102 | the end of the budget is announced exactly when the last request is reserved, and never without a limit |
| PoolRuns.ReadyAndHeldPartitionLive | pkg/loadgen/conversation_pool.go:104-134 | ready ids are distinct, ready and checked-out ids partition the live map, and it never exceeds the pool size |
| PoolRuns.Fifo | pkg/loadgen/conversation_pool.go:66-85 | over whole runs, handed-out followed by ready only grows at its end |
| PoolRuns.HandedOutInTurn | pkg/loadgen/conversation_pool.go:66-85 | a conversation with k ahead of it is handed out at exactly the (k+1)-th later success |
| PoolRuns.TurnsAreInSequence | pkg/loadgen/conversation_pool.go:267-322 | turns are issued in order 0, 1, 2, ...; the request of turn t has 2t+1 messages and extends the previous one by the generated answer and the next user message |
| PoolRuns.ReadyConversationsAreAtRest | pkg/loadgen/conversation_pool.go:247-258 | a drawn conversation in the ready queue has history length 2 * turn and a turn left |
| PoolRuns.ReplacedIff | pkg/loadgen/conversation_pool.go:267-322 | over runs: a turn says replace exactly if the conversation is a completion or has nothing to ask, the request was not answered, or that was the last turn |
| PoolRuns.LetGoWhenOver | pkg/loadgen/conversation_pool.go:118-139 | a conversation that a running pool lets go of is over; an answered chat of n non-empty turns has then issued exactly n requests |
| PoolRuns.HandedBackOrReplaced | pkg/loadgen/conversation_pool.go:118-139 | what is handed back goes to the end of the queue unless it is over, and is then replaced, while there is budget, by a conversation never seen before |
| PoolRuns.GoneForGood | pkg/loadgen/conversation_pool.go:104-134 | a conversation the pool let go of is never taken up again and issues nothing more |
| PoolRuns.SourceWasDrawn | pkg/loadgen/conversation_pool.go:247-250 | what a conversation is about was drawn once, by a stream that held it, and stays |
| PoolRuns.RequestIdsAreUnique | pkg/loadgen/generator.go:609-611 | no two requests of one scheduler share a request id |
| BudgetedStreams.StepPreserves | pkg/loadgen/generator.go:444-507 | every atomic load, compare-and-swap, draw and hand-over, and every stream that leaves on cancellation, keeps the budget invariant |
| BudgetedStreams.BudgetIsRespected | pkg/loadgen/generator.go:463-481 | draws, also those of prefetches left behind by cancelled streams, never exceed the limit; no position is issued twice; done is closed at most once and only when the budget is spent |
| BudgetedStreams.DrainedIssuesEachPositionOnce | pkg/loadgen/generator.go:463-507 | when all streams ran out of budget, positions 0 .. limit-1 were issued, each exactly once, and the end was announced once |
| BudgetedStreams.StreamsAreNeverStuck | pkg/loadgen/generator.go:444-507 | a stream that has not left can go on, and a prefetch can always take its next step, also when its stream is gone |
| EvalPartition.PartitionsAreAdjacent | pkg/dataset/gsm8k.go:81-101 | parts lie one behind the other, stay within the items and end with the last one |
| EvalPartition.PartsAreBalanced | pkg/dataset/gsm8k.go:81-101 | no part is more than one item larger than another |
| EvalPartition.PartsAreNonEmpty | pkg/dataset/gsm8k.go:119-125 | every worker has an item exactly when there are at least as many items as workers |
| EvalPartition.Dataset.Partition | pkg/dataset/gsm8k.go:81-101 | keeps exactly the worker's slice and starts over at its beginning |
| EvalPartition.Dataset.NextConversation | pkg/dataset/gsm8k.go:127-129 | draws items in order, cyclically |
| EvalPartition.PermutationDrawsAll | pkg/dataset/gsm8k.go:127-141 | drawing each position once draws each item once |
| EvalPartition.DrainedEvalCoversDataset | cmd/nyann-bench/eval.go:112-148 | a drained evaluation with at least as many items as workers requests every dataset item exactly once over all workers |
| RateStages.StepPreserves | pkg/loadgen/generator.go:324-422 | every step of dispatcher, conversations and recording goroutines keeps the invariant |
| RateStages.InFlightIsBounded | pkg/loadgen/generator.go:356-422 | running conversations never exceed a positive MaxInFlight |
| RateStages.ArrivalsStayWithinLimit | pkg/loadgen/generator.go:356-422 | no stage admits more conversations than its limit |
| RateStages.CallbackSeesEverything | pkg/loadgen/generator.go:324-353 | when the completion callback fires every admitted conversation has finished and every request was recorded and written |
| RateStages.StreamIdsAreUnique | pkg/loadgen/generator.go:356-422 | stream ids are unique across all stages of the generator |
| RateProgress.AdmissionEndsForAReason | pkg/loadgen/generator.go:365-368 | a stage whose time is not up stops admitting only with exactly its limit admitted |
| RateProgress.StagesAreReportedInOrder | pkg/loadgen/generator.go:329-352 | the callback sees the stages in order, each once and no barrier, and all behind the dispatcher unless cancelled |
| RateProgress.FinishedForAReason | pkg/loadgen/generator.go:329-352 | the generator finishes only behind its last stage, cancelled, or because the callback said so |
| RateProgress.NeverStuck | pkg/loadgen/generator.go:324-422 | until it has finished the dispatcher, a conversation whose request comes back, or a recording can move |
| ArrivalGap.ArrivalsIntegrateRate | pkg/loadgen/generator.go:424-442 | the reference definition: over every interval the arrivals lie between length times the rate at either end |
| ArrivalGap.ArrivalsIncrease | pkg/loadgen/generator.go:424-442 | the integrated ramp is strictly increasing |
| ArrivalGap.GapInvertsArrivals | pkg/loadgen/generator.go:427-442 | over the gap exactly the asked number of arrivals comes, in all three branches |
| ArrivalGap.GapIsUnique | pkg/loadgen/generator.go:427-442 | and over no other |
| ArrivalGap.GapIsMonotone | pkg/loadgen/generator.go:427-442 | more arrivals take longer |
| ArrivalGap.GapsCompose | pkg/loadgen/generator.go:427-442 | the gap for a+b is the gap for a plus the gap for b taken from the later time |
| LoadDivision.SharesAddUp | pkg/config/scenario.go:167-176 | shares add up to the total exactly when it is not negative or divides evenly |
| LoadDivision.SharesAreBalanced | pkg/config/scenario.go:167-176 | any two shares differ by at most one |
| LoadDivision.SharesAreMonotone | pkg/config/scenario.go:167-176 | a larger total gives nobody less |
| LoadDivision.ResolveWorkers | pkg/config/scenario.go:201-219 | succeeds exactly for auto and for a number of at least one, and then with at least one worker and with the number given |
| LoadDivision.AutoWorkersSuffice | pkg/config/scenario.go:201-216 | the automatic number of workers is the least with which nobody runs more than 1024 streams |
| LoadDivision.DelaysRiseToRampup | pkg/loadgen/generator.go:123-126 | stagger delays rise monotonically from 0 to the ramp while the largest product fits 64 bits |
| LoadDivision.LastDelayIsRampup | pkg/loadgen/generator.go:123-126 | the last stream waits for the whole ramp exactly when the product fits 64 bits |
| LoadDivision.ServiceBoundsPreventOverflow | pkg/controlapi/mcp_scenario.go:74-83 | within a day of ramp and 65536 streams no stagger product wraps |
| LoadDivision.StreamPool.Resize | pkg/loadgen/generator.go:107-150 | brings the pool to the target, keeps running streams, gives new ones unused ids and their stagger delays |
| ScenarioConfig.Validate | pkg/config/scenario.go:141-163 | accepts exactly the acceptable scenarios and fills in missing pool sizes in place |
| ScenarioConfig.MaxConcurrency | pkg/config/scenario.go:187-195 | the largest concurrency of any stage, or 0 |
| ScenarioConfig.PoolShareCoversConcurrency | cmd/nyann-bench/common.go:235-245 | every pool stage that validation accepts gives each worker a pool share at least its concurrency share |
| ScenarioConfig.ValidateScenarioBounds | pkg/controlapi/mcp_scenario.go:46-98 | accepts exactly the scenarios within the service bounds |
| ScenarioConfig.RunningTotalFits | pkg/controlapi/mcp_scenario.go:53-77 | the running total of accepted durations never leaves 64 bits |
| ScenarioConfig.BoundedStageStaggersCorrectly | pkg/controlapi/mcp_scenario.go:74-83 | an accepted stage staggers without overflow, from 0 to the ramp |
| ScenarioRun.MeasuredConditions | cmd/nyann-bench/generate.go:87-92 | the conditions of the measured stages, in order |
| ScenarioRun.Resolve | cmd/nyann-bench/common.go:197-270 | one resolved stage per stage, with its own or the default target and model and this worker's share of the load; a barrier takes over from the stage before it |
| ScenarioRun.BarriersTakeOver | cmd/nyann-bench/common.go:197-270 | a stage runs against its own target and model where it names them, with its own settings and share; the barriers behind it run against the same, without load |
| ScenarioRun.WorkersCarryTheStage | cmd/nyann-bench/common.go:235-245 | the streams of all workers together are those the stage asks for |
| ScenarioRun.WorkersCarryThePool | cmd/nyann-bench/common.go:231-245 | all workers together keep the conversations that an accepted pool stage asks for, or one for every stream if it does not say |
| ScenarioRun.Group | cmd/nyann-bench/common.go:283-304 | grouping neither loses, repeats nor reorders stages; a run is ended only by a stage that does not fit it |
| ScenarioRun.NoRunBeginsWithABarrier | cmd/nyann-bench/common.go:199-219 | no run but the first begins with a barrier: only a stage with its own target, model or workload separates runs |
| ScenarioRun.RunStagesUntil | pkg/loadgen/generator.go:190-269 | the stage loop does what StagesFrom says: barriers, error stops during a stage, at a barrier or in a callback, cancellation and stop |
| ScenarioRun.RunScenario | cmd/nyann-bench/common.go:323-466 | the run loop does what RunsFrom says |
| ScenarioTrace.BarrierKeepsConditions | pkg/config/scenario.go:221-233 | the implicit barrier does not shift the list of conditions |
| ScenarioTrace.BarrierInFront | pkg/config/scenario.go:221-233 | with several workers a scenario with stages begins with a barrier, its own or one put in front of otherwise unchanged stages |
| ScenarioTrace.FirstBarrierFirst | pkg/loadgen/generator.go:207-223 | a worker whose scenario begins with a barrier starts nothing before it passed that one, however its stages end |
| ScenarioTrace.LookupFallsShortByLosses | cmd/nyann-bench/common.go:407-460 | the number a completed stage looks up falls short of its own by exactly the measured stages that earlier runs lost by giving up |
| ScenarioTrace.LookupIsOwnConditionIff | cmd/nyann-bench/generate.go:224-227 | a completed stage looks up its own condition exactly when no earlier run gave up with a measured stage still ahead of it |
| ScenarioTrace.ConditionConsultedIsOwn | cmd/nyann-bench/generate.go:224-227 | without an error stop every completed measured stage consults its own condition |
| ScenarioTrace.EveryStageIsConsulted | cmd/nyann-bench/common.go:442-460 | without an error stop or cancellation every measured stage that started was looked up, and without a stop every stage started |
| ScenarioTrace.StopIsFinal | cmd/nyann-bench/common.go:455-465 | after a callback said stop no later stage of this or any later run starts |
| ScenarioTrace.BarrierIdIsOwnIff | cmd/nyann-bench/common.go:426-442 | the id a worker waits under is the barrier's own number exactly when no earlier run gave up with a barrier still ahead of it |
| ScenarioTrace.SameBarrierForEveryone | cmd/nyann-bench/common.go:426-442 | two workers that meet this condition mean the same stage by the same barrier id |
| StageLockstep.NoStageStartsTooEarly | cmd/nyann-bench/common.go:386-442 | provided that neither gave up with a barrier still ahead of it: when a worker starts a stage, every other worker has passed all barriers in front of it but the last and has registered for the last |
| StageLockstep.NobodyStartsBeforeAllRegistered | cmd/nyann-bench/common.go:426-442 | when the scenario begins with a barrier no worker starts any stage before all workers registered there, whoever gives up |
| StageSettings.SetUp | cmd/nyann-bench/common.go:355-384 | the loop over the runs sets every generator up with the settings of the first stage of its run that is no barrier |
| StageSettings.NeighboursShareARunIff | cmd/nyann-bench/common.go:283-304 | stages with only barriers between them share a run exactly when target, model and the seven compared settings agree |
| StageSettings.StagesGetTheirOwnIff | cmd/nyann-bench/common.go:283-384 | every stage runs in its own mode, at its own rate and bound, out of its own workload exactly when neighbours that agree in what is compared agree in all of these |
| StageSettings.SecondRateIsIgnored | cmd/nyann-bench/common.go:355-384 | the instance of stages at ten and twenty requests per second, both run at ten |
| StageSettings.SecondFileIsIgnored | cmd/nyann-bench/common.go:515-526 | the instance of two stages with different question files, both asked the first |
| ScenarioTrace.GivingUpShiftsBarriers | cmd/nyann-bench/common.go:426-442 | an instance in which giving up makes a worker mean another stage by the same barrier id |
| ScenarioTrace.GivingUpShiftsConditions | pkg/loadgen/generator.go:207-265 | an instance in which giving up during a stage makes a later stage consult another stage's condition |
| ScenarioTrace.ErrorsAtABarrierShiftConditions | pkg/loadgen/generator.go:207-223 | an instance in which every stage completes and errors strike at a barrier |
| ScenarioTrace.Generate | cmd/nyann-bench/generate.go:87-92 | from the scenario as written to its trace: a barrier in front when synchronised and no stage before it is passed, own conditions, complete lookups, final stop |
| Utf8.PrefixAtBoundary | pkg/dataset/token_trim.go:70-78 | cutting well-formed UTF-8 before a rune start leaves it well-formed |
| Utf8.PrefixOffBoundary | pkg/dataset/token_trim.go:70-78 | cutting anywhere else does not |
| Utf8.WellFormedIff | pkg/dataset/token_trim.go:70-78 | the texts taken for well-formed are exactly the encodings of lists of Unicode scalar values (RFC 3629, section 3) |
| TokenTrim.SafePrefix | pkg/dataset/token_trim.go:70-78 | the longest prefix within the bound that ends at a boundary |
| TokenTrim.InterpolatedKeep | pkg/dataset/token_trim.go:33-38 | the probe is the point that divides the bracket as the target divides its counts, rounded down, and lies at or above the low and below the high bound |
| TokenTrim.ProductsFit | pkg/dataset/token_trim.go:38-67 | while budget times text length fits 64 bits, both products of the search do |
| TokenTrim.ScaledKeep | pkg/dataset/token_trim.go:65-67 | the last estimate is the target's share at the density of the smallest prefix known to be over budget, rounded down, and below it |
| TokenTrim.Narrows | pkg/dataset/token_trim.go:51-59 | a probe that misses the target keeps low < high and lowCount < target < highCount |
| TokenTrim.TrimWithCount | pkg/dataset/token_trim.go:25-68 | at most six probes, each proposed by the counts before it, and a result as the way the search ends says; the result is no shorter than any probe within budget, strictly shorter than every probe over budget, and within budget once a probe was |
| TrimExact.HitsAtOnce | pkg/dataset/token_trim.go:33-53 | plain text and a counter of one token for every r bytes: the first probe has exactly the target and is the result |
| TokenTrim.PrefixesStayWellFormed | pkg/dataset/token_trim.go:33-78 | nothing measured or returned splits a character |
| TokenTrim.TrimToTokenBudget | pkg/dataset/token_trim.go:10-20 | trims exactly when a counter is there and the counted text exceeds a positive budget, and then to the outcome of a search; well-formed text stays well-formed |
| Statistics.PercentileIsMonotone | pkg/statsutil/percentile.go:6-18 | a higher percentile is never below a lower one |
| Statistics.PercentileEnds | pkg/statsutil/percentile.go:6-18 | percentiles 0 and 1 are the first and the last value |
| Statistics.ComputeLatencyStats | pkg/analysis/stats.go:223-247 | computes the figures that LatencyFigures.FiguresAreQuantiles is about, and zeros for an empty list |
| LatencyFigures.FiguresAreQuantiles | pkg/analysis/stats.go:223-247 | each of P10 to P99 has its share of the values on either side, is the value at a whole position and goes evenly between two; mean times number is the sum; the extremes are the ends |
| LatencyFigures.SumIgnoresOrder | pkg/analysis/stats.go:232-235 | the sum does not depend on the order of the values |
| Statistics.StatsIgnoreOrder | pkg/analysis/stats.go:223-247 | only the multiset of values matters |
| Statistics.StatsAreOrdered | pkg/analysis/stats.go:223-247 | Min <= P10 <= P50 <= P90 <= P95 <= P99 <= Max, and the extremes are values that bound the list |
| Statistics.Slot | pkg/controlapi/mcp_report.go:371-375 | the hashed slot lies below the number of values seen |
| Statistics.SlotIsRemainder | pkg/controlapi/mcp_report.go:371-375 | the slot is the remainder of the hash of the counter by the counter |
| Statistics.BoundedSample.Add | pkg/controlapi/mcp_report.go:364-379 | the in-place sample is the function Sample of everything added |
| Statistics.SampleIsExact | pkg/controlapi/mcp_report.go:364-369 | up to the limit the sample is the whole list |
| Statistics.SampleComesFromInput | pkg/controlapi/mcp_report.go:364-379 | beyond it the sample has exactly limit entries, all of them inputs, whatever the slot function |
| Statistics.SlotHoldsLast | pkg/controlapi/mcp_report.go:364-379 | every slot of the sample holds the last value that went to it |
| Statistics.MixVectors | pkg/controlapi/mcp_report.go:371-374 | the mixing is that of splitmix64 |
| Statistics.SampledStatsAreOrdered | pkg/controlapi/mcp_report.go:383-394 | sampled statistics are in order and their extremes are inputs |
| Report.TrackedIsDistinct | pkg/controlapi/mcp_report.go:297-304 | tracked conversations are distinct, at most limit, and complete while below it |
| Report.TurnStatsIgnoreOrder | pkg/controlapi/mcp_report.go:339-343 | turn statistics do not depend on the order in which the map is enumerated |
| Report.FiguresIgnoreOrder | pkg/analysis/stats.go:165-220 | counts, tokens and eval figures do not depend on the order of records |
| Report.KeptIff | pkg/analysis/stats.go:146-154 | the window keeps exactly the records that start no earlier and end no later |
| Report.OneRecord | pkg/analysis/stats.go:165-186 | what one record counts and gives |
| Report.CountsAdd | pkg/analysis/stats.go:165-216 | the counters and grades of two lists add up |
| Report.AccuracyIsShare | pkg/analysis/stats.go:205-219 | every graded record is correct or incorrect, and accuracy times graded is correct |
| Report.RateTimesDuration | pkg/analysis/stats.go:188-192 | a rate times the duration is what was counted |
| Report.TurnsAddUp | pkg/analysis/stats.go:199-203 | the turns of all conversations together are the records |
| Report.ReportAgreesWithBatch | pkg/controlapi/mcp_report.go:240-352 | while no limit is exceeded the streamed report over a window equals the batch summary in all but the duration figures, for any order of records |
| Report.ReportAgreesWithoutWindow | pkg/controlapi/mcp_report.go:240-352 | without a window the whole summary is equal |
| Report.DurationAgreesIff | pkg/controlapi/mcp_report.go:325-333 | over a window the durations agree exactly when some record starts at its start and some record ends at its end |
| Report.TimingsOf | pkg/controlapi/mcp_report.go:325-333 | report and batch summary divide the same counters, by the window's length and by the records' span |
| Report.RatesAgreeIff | pkg/analysis/stats.go:188-192 | over two durations a rate is the same exactly when the durations are or there is nothing to divide |
| Report.WindowLongerThanItsRecords | pkg/controlapi/mcp_report.go:325-333 | one record in the first half of a two-second window: two seconds in the report, one in the batch summary |
| Report.BeyondTheLimits | pkg/controlapi/mcp_report.go:240-394 | beyond the limits every latency column is a sample of exactly limit inputs with ordered figures, and conversations are cut off at the limit |
| ReportMethods.CountsStep | pkg/controlapi/mcp_report.go:297-304 | a conversation is tracked from its first turn or never, so no turn of a tracked one is missed |
| ReportMethods.TurnCounts | pkg/analysis/stats.go:199-203 | enumerating the map in any order gives the turn statistics of the tracked conversations |
| ReportMethods.Compute | pkg/analysis/stats.go:144-221 | computes the batch summary: window filter, counters, tokens, latencies, conversations, eval figures |
| ReportMethods.LoadMeasurementWindow | pkg/controlapi/mcp_report.go:202-238 | a record lies in the common window exactly when it lies in every worker's; none exactly when timestamps cannot be read, are missing or have no common part after time zero |
| ReportMethods.Aggregation.Observe | pkg/controlapi/mcp_report.go:276-314 | one record of the stream updates samples, counters, conversations and time bounds to those of the records seen |
| ReportMethods.Aggregation.Summarise | pkg/controlapi/mcp_report.go:325-343 | the summary of the records seen, with the window's length as duration if there is one |
| ReportMethods.Aggregation.Warnings | pkg/controlapi/mcp_report.go:344-351 | warns exactly when a latency column or the conversations exceed the limit |
| ReportMethods.VerdictMeans | pkg/controlapi/mcp_report.go:256-323 | the scan succeeds exactly when every line is a record and there are no more than the limit; otherwise it blames what is wrong with the first line at which it cannot go on |
| ReportMethods.RecordsIgnoreFileOrder | pkg/controlapi/mcp_report.go:252-262 | another order of files gives the same records in another order |
| ReportMethods.AggregateRequestArtifacts | pkg/controlapi/mcp_report.go:240-352 | the streaming loop over all files yields the streamed report, its warnings, or the first failure |
| ReportMethods.ReportOverFilesAgreesWithBatch | pkg/controlapi/mcp_report.go:240-352 | without sampling or capping, the report over files in any order agrees with the batch summary of their records in any order |
| ReportMethods.ReportBesideBatch | pkg/controlapi/mcp_report.go:180-192 | the two computations side by side, window included: without warnings they agree in all but what depends on the duration, and without a window in everything |
| Numerals.NormalizePreservesValue | pkg/eval/eval.go:191-207 | normalising an optionally signed numeral gives a numeral of the same value without needless zeros, except that a zero with no digit before the point loses all its digits |
| Numerals.NormalizeIsIdempotent | pkg/eval/eval.go:191-207 | normalising twice changes nothing more |
| Numerals.CorrectIff | pkg/eval/eval.go:65-70 | two optionally signed numerals are judged equal exactly when they denote the same number and are written in the same manner |
| Numerals.CorrectIffSameNumber | pkg/eval/eval.go:65-70 | so unsigned numerals with a digit before the point are judged equal exactly when they denote the same number |
| Numerals.MissingZeroFails | pkg/eval/eval.go:191-207 | the instance .5 and 0.5 |
| Numerals.MinusZeroFails | pkg/eval/eval.go:191-207 | the instance -0 and 0 |
| Numerals.NegativeLeadingZeroFails | pkg/eval/eval.go:191-207 | the instance -07 and -7 |

## Left out

- The barrier server, the recorder, the submission protocol, the budgeted streams and the rate stages are step
  systems on values rather than objects updated in place, because what is proved of them is about every
  interleaving; locks and channels are the atomicity of the steps, and aliasing between heap objects is not
  captured.
- BarrierLockstep.SameStartTime: assumes that the server handles one worker's requests in the order sent; a delayed
  duplicate POST that overtakes a later one is not modelled.
- BarrierLockstep.SystemRunInv: leaves out the backoff times and the logging of the client's retry loop, since any
  retry may come at any moment.
- Submission.StepPreserves: that an update of the Service is tried at most five times; a fault may end it at any attempt.
- Submission.AtMostOneJob: cancellation, expiry of finished Jobs and other deletions are excluded by assumption;
  only the results of SubmissionRepeat allow them.
- PoolScheduler.ConversationPoolScheduler.CompleteConversation: demands that the conversation is checked out, which
  every stream that calls it does.
- Statistics.ComputeLatencyStats: arithmetic over the reals, so float rounding is not modelled; the sort is a
  function rather than in place.
- Statistics.Slot: the counter of values seen is unbounded and reduced to 64 bits only where it is hashed.
- TokenTrim.InterpolatedKeep: integers are unbounded; TokenTrim.ProductsFit says while what the 64-bit products are
  the same, and beyond that the overflow is not modelled.
- ArrivalGap.GapInvertsArrivals: over the reals, with the square root as a parameter; the truncation to whole
  nanoseconds and the ten-millisecond idle step for a rate of zero are outside the law.
- ReportMethods.AggregateRequestArtifacts: identifiers stand for their own digests, that is, the hash is taken to be
  injective; all failures to open, read on or close a file are one kind of failure.
- ScenarioRun.RunStagesUntil: how every stage ends is given from outside; for an unsynchronised scenario, which passes
  its barriers without waiting, the barrier ids of the trace mean nothing.
- ScenarioConfig.ValidateScenarioBounds: lengths of texts are counted in characters; the later check of dataset paths
  against a root directory is left out.
- BudgetedStreams.BudgetIsRespected: one stage's budget; that a stream which outlives its stage goes on with the next
  stage's budget is not modelled.
- EvalPartition.Dataset.NextConversation: the item drawn, not the prompt built from it; the shuffle is left out.
- HTTP and event-stream clients, the mock server, metrics and Prometheus queries, table formatting.
- Kubernetes rendering, dry runs, tool envelopes, listing and cancelling of runs.
- Starlark evaluation, JSON and YAML decoding, command-line flags, file loading.
- Extraction of answers by regular expressions, multiple-choice answers, generated text, corpus datasets.
