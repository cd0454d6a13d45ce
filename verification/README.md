# Verification models of the hkube core

These Dafny modules model five cores of hkube and prove what their code keeps over every input or every run.

* **The pipeline driver queue** (`DriverJobs`, `DriverQueue`, `DriverPersistence`, `DispatchModel`,
  `DispatchConservation`, `DispatchAddressing`, `DispatchServing`, `DispatchConcurrency`, `DispatchLimits`,
  `DispatchPromotion`, `DispatchIntervals`, `DispatchOrder`, `DispatchOvertaking`, `DispatchUnpreferring`,
  `DispatchOvertakingRuns`, `DispatchRestart`, `PreferredJobs`, `Dispatcher`). Jobs arrive in a score-ordered main
  queue, can be moved to and from a hand-ordered preferred queue, are stored as a linked chain, held back when their
  pipeline is over its limit, and dispatched. `DispatchModel` is the system as one state and one step function; an
  INSERT event may dispatch a job inside the step that inserted it. The class `Dispatcher` works in place on two
  `Queue` objects; each of its methods is proved to be the step of its name. `DispatchServing`, `DispatchLimits` and
  `DispatchIntervals` say by position who is served, stopped, let run or refused; the other modules prove what every
  run of steps keeps, from empty queues or from queues loaded after a restart: each job in exactly one place, the main
  queue sorted, no long overtaking by ordinary dispatches, both queues restored by a restart, and exactly when the
  tracked counts stay between zero and their bound.
* **The algorithm-to-queue balancer** (`QueueDiscovery`, `QueueBalancer`, `QueuesManager`, `BalancerConvergence`,
  `BalancerRoom`, `BalancerSends`). The operator normalizes what the queue managers report, places missing algorithms
  on least-loaded queues and removes obsolete and duplicate ones; the managers carry the actions out. With room for
  what is missing, one round settles everything exactly when it sends nothing to an inactive manager; where room is
  short it is proved exactly when one round and when two rounds place all that is wanted.
* **The ratio allocator** of the resource manager (`RatiosAllocator`). A generator draws algorithms from a partition
  of [0,1] that is rebuilt whenever an empty entry is drawn. It ends for every sequence of draws, the numbers drawn
  determine what it yields, and the counts are exact.
* **API server services**: the streaming-flow parser (`FlowText`, `StreamingFlow`, `FlowMeaning`, `FlowGroups`,
  `FlowRoundTrip`, `FlowBuild`, `FlowErrors`), the triggers tree and the "run node" service over graphs (`Graphs`,
  `TriggersTree`, `Caching`), and the numbering of algorithm versions (`Versions`).
* **The task queue** of an algorithm (`AlgorithmTasks`, `TaskQueue`, `TaskQueueRuns`, `TaskScores`, `TaskRetries`,
  `BatchOrder`): scores, batch places, removal, sending, and bounded retries of stuck tasks.

`StableSort` stands for lodash `orderBy`, `Graphs` for the graph library; both are proved, not assumed. `Wrappers` and
`Sequences` hold what the models share. The clock and the random draws are inputs, scores and ratios are reals, and a
value the source reads from a store is a parameter of the step that reads it.

## Where the code does not do what it is for

Each of these is stated as an exact condition; where it takes a run to get there, a concrete one stands beside it.

* The periodic check waits between picking a job and dispatching it. Its dispatch keeps the account of jobs if and
  only if the job still waits where it was picked (`ResumedCheckConservesIff`); otherwise a job is dispatched twice
  (`ResumedCheckMayDispatchTwice`).
* The tracked counts stay numbers, and within the larger of the last refreshed count and the limit, if and only if no
  finished job lets a marked job run for which there is no entry, or no room (`CountsKeptIff`, per event
  `EventBreaksIff`). A mark stays on a job that is promoted while the consumer is not active. A later event counts the
  job again and can pass the bound (`BoundFailsWhenConsumerInactive`); and since the mark is stored while the counts
  are not, after a restart the count becomes NaN (`LoadedMarkMakesNaN`).
* One step of priority weighs as much as 720,000 ms of age, and age zero counts as 720 ms (`OutranksIff`): a job
  outranks another whatever the priorities exactly when it leads by more than 2,880,000 ms, where a job of age zero has
  720 ms of its own (`OutranksAlwaysIff`, `SlackIsNeeded`).
* A finished job and an interval let the first held-back job of a pipeline run, ahead of eligible jobs however much
  older (`PromotionOvertakesIff`, `IntervalOvertakesIff`, `PromotionMayOvertake`). So does a check that goes on after
  its wait, measured at the last scoring before the hand-out: if and only if its pick is not preferred by then and
  leaves behind an eligible job that joined main since the pick and entered too much earlier
  (`ResumedCheckMayOvertake`), or one that it saw, when the pick had age zero and has lost its 720 ms since
  (`ResumedCheckOvertakesIff`, `AgedPickMayOvertake`).
* The ratio allocator divides by zero and throws at its first draw for a single algorithm, or for several whose run
  times are all zero, and only then (`DrawAll`).
* The removal of a full queue in the placement loop acts on a copy. The limit is kept if and only if the algorithms
  fit into the free room (`MatchKeepsLimitIff`). A queue is sent its ADDs before its removals: one round places all
  that is wanted if and only if what is missing fits beside all that is on the queues, obsolete or not
  (`PlacesAllIff`), two rounds if and only if the stored algorithms that are wanted or placed fit
  (`TwoRoundsPlaceAllIff`).
* An inactive queue still counts as available, and what it holds as placed, but it takes no action. With room, a round
  settles everything if and only if it sends nothing to an inactive queue (`SettlesIff`); otherwise the same action
  can be sent for ever, an ADD (`InactiveQueueNeverSettles`) or a REMOVE (`InactiveQueueKeepsObsolete`).
* Writing an accepted streaming flow as text and parsing it gives the flow back if and only if no source name ends in
  `>` (`RoundTripIff`, `HeadIsLost`).
* A batch place that reaches 0 counts as absent and starts over. Two tasks compare as the cross products of their
  distances from the end of the batch and their lengths (`OutranksIff` of `BatchOrder`): an earlier task of a batch
  outranks a later one unless only one of them starts over and the lengths make up for the lead
  (`EarlierRanksFirstIff`, `LaterMayRankFirst`). A retried task is told of a batch of length 1 but keeps its index, so
  that of two retried tasks of equal length the later one ranks first exactly when their indexes add up to more than 4
  (`RetriedOutranksIff`, `RetriedLaterRanksFirst`).
* After semver 500.500.500 one version is stored without a semver, and numbering starts again at 1.0.0
  (`SemversRunOut`).

Comments in the source that the code does not follow: the concurrency handler speaks of marking "the delta jobs", the
code promotes at most one job per pipeline and interval and leaves `maxExceeded` as it is
(`core/pipeline-driver-queue/lib/jobs/concurrencyHandler.js:74-82`); the version service speaks of acquiring a lock, the
code has a serial queue only (`core/api-server/lib/service/versions.js:102-109`). The models follow the code.

## Model

| member | source | states |
|---|---|---|
| StableSort.SortDescSorted | core/pipeline-driver-queue/lib/queue.js:106-109 | sorting by score descending leaves a list in which no earlier member has a lower score |
| StableSort.SortDescStable | core/pipeline-driver-queue/lib/queue.js:106-109 | members with equal scores keep the order they had |
| StableSort.SortedStableUnique | core/pipeline-driver-queue/lib/queue.js:106-109 | a list that is sorted and keeps the order of equal scores is the only one |
| DriverJobs.HeuristicRunner.Run | core/pipeline-driver-queue/lib/heuristic-runner.js:23-32 | the fold over the registered heuristics gives the job its weighted sum and its latest scores |
| DriverJobs.ConfiguredRunner | core/pipeline-driver-queue/config/main/config.base.js:66-69 | registering both heuristics yields entrance time and priority at 0.5 each |
| DriverQueue.Queue.CalculateHeuristic | core/pipeline-driver-queue/lib/queue.js:106-109 | every job is scored at one instant, then the queue is the stable sort of the scored jobs |
| DriverQueue.Queue.Enqueue | core/pipeline-driver-queue/lib/queue.js:111-118 | the job is appended and, unless skipped, the queue re-scored and sorted |
| DriverQueue.SplitIsUnique | core/pipeline-driver-queue/lib/queue.js:120-127 | a queue splits in only one way into jobs without an id and jobs with it, both in their order |
| DriverQueue.Queue.Dequeue | core/pipeline-driver-queue/lib/queue.js:120-127 | the old queue is an interleaving of what stays and what is returned, each in its order; nothing that stays has the id, all that is returned has it |
| DriverQueue.Queue.PersistenceStore | core/pipeline-driver-queue/lib/queue.js:87-100 | the records chain each job to the one before it, the first to the marker |
| DriverQueue.Queue.PersistencyLoad | core/pipeline-driver-queue/lib/queue.js:34-85 | the queue becomes the chained, filtered, re-scored records; a missing link fails before anything changes |
| DriverPersistence.ChainAt | core/pipeline-driver-queue/lib/queue.js:87-100 | record by record: the job without its latest scores, linked to the id of the job in front of it, the first to the marker |
| DriverPersistence.PermutationUnchains | core/pipeline-driver-queue/lib/queue.js:38-45 | any permutation of the stored records is chained back into the queue's own order |
| DriverPersistence.LoadRestores | core/pipeline-driver-queue/lib/queue.js:34-85 | store then load, in any record order, rebuilds the queue without stopped, paused and missing jobs, scored anew |
| DriverPersistence.KeptIs | core/pipeline-driver-queue/lib/queue.js:46-66 | what is kept, by position and in order: exactly the jobs whose document has a pipeline and a status that is neither stopped nor paused |
| DriverPersistence.PreferredOrderSurvives | core/pipeline-driver-queue/lib/queue-runner.js:27-35 | for the preferred queue, whose jobs score 1, that subsequence comes back in exactly its order |
| DispatchRestart.RestartRestoresQueues | core/pipeline-driver-queue/lib/queue-runner.js:17-36 | after any run, itself from empty or loaded queues, both queues are restored from their stored records in any order |
| DispatchRestart.EmptyIsStartable | core/pipeline-driver-queue/lib/queue-runner.js:17-36 | a process with nothing stored is a state from which runs may start |
| DispatchRestart.RestartIsStart | core/pipeline-driver-queue/lib/queue.js:67-93 | what a restart leaves after any run is again a state from which runs may start, so the theorems hold across restarts |
| DispatchRestart.LoadedMarkMakesNaN | core/pipeline-driver-queue/lib/queue.js:67-93 | a run whose stored and loaded mark turns the count of its pipeline into NaN when a job finishes |
| DispatchConservation.UnpreferEachConserves | core/pipeline-driver-queue/lib/service/preferred-jobs.js:62-74 | the un-prefer loop, with dispatches raised inside it, loses and duplicates no job |
| DispatchConservation.StepConserves | core/pipeline-driver-queue/lib/jobs/producer.js:41-62 | every kind of step keeps the number of jobs with any given property, plus what arrives |
| DispatchConservation.RunConserves | core/pipeline-driver-queue/lib/jobs/producer.js:119-140 | over every run with fresh ids, for every property of jobs, what is held is what was there plus what arrived |
| DispatchConservation.EachJobInExactlyOnePlace | core/pipeline-driver-queue/lib/jobs/producer.js:119-178 | from an empty system every arrived job is in exactly one of main, preferred, dispatched and stopped, once, with its own data |
| DispatchConservation.ResumedCheckConservesIff | core/pipeline-driver-queue/lib/jobs/producer.js:52-66 | dispatching a pick made before a wait conserves jobs if and only if the pick still waits in its queue |
| DispatchConservation.ResumedCheckMayDispatchTwice | core/pipeline-driver-queue/lib/jobs/producer.js:52-66 | a run that picks the first eligible job of main at an earlier point and dispatches it a second time |
| DispatchAddressing.RunWaits | core/pipeline-driver-queue/lib/jobs/producer.js:41-178 | over every run, stale resumed checks included, no more jobs of any property wait than waited at the start or arrived |
| DispatchAddressing.RunAddressable | core/pipeline-driver-queue/lib/jobs/producer.js:119-140 | so after every run the waiting ids are distinct and a waiting job is found by its id |
| DispatchServing.ConsumerIsServed | core/pipeline-driver-queue/lib/jobs/producer.js:98-135 | an active consumer gets the first preferred job that is not held back, only if all are held back the first such job of main, and nothing only if all jobs of both queues are held back |
| DispatchServing.ArrivalIsServed | core/pipeline-driver-queue/lib/jobs/consumer.js:117-137 | an arrival joins main with the pipeline's data, main is scored and sorted, and only then an active consumer is served in the same way |
| DispatchServing.UnpreferringServes | core/pipeline-driver-queue/lib/service/preferred-jobs.js:62-74 | un-preferring takes the ids in the order of the request; in each turn the job moves to the end of main and an active consumer is served at once in the same way; main is scored and sorted at the end |
| DispatchServing.CheckIsServed | core/pipeline-driver-queue/lib/jobs/producer.js:52-66 | the check serves the preferred queue if nothing is pending, else main if nothing is pending |
| DispatchServing.ByIdIsServed | core/pipeline-driver-queue/lib/jobs/producer.js:119-135 | a job asked for by id is handed out wherever it waits; an unknown id serves the next job |
| DispatchServing.StopTakesOut | core/pipeline-driver-queue/lib/jobs/consumer.js:108-115 | a stopped job leaves the position where it waits, every other job stays in its place, an unknown id changes nothing, and no queue holds the id afterwards |
| DispatchLimits.EventLetsRunIff | core/pipeline-driver-queue/lib/jobs/concurrencyHandler.js:132-175 | the first job held back is let run exactly when the running jobs and the eligible ones waiting in both queues are within the limit (or count or limit is 0); else nothing is handed out and the count drops by one |
| DispatchLimits.UntrackedRuns | core/pipeline-driver-queue/lib/jobs/concurrencyHandler.js:156-165 | a job of a pipeline without a count or a limit is let run |
| DispatchLimits.FinishedServes | core/pipeline-driver-queue/lib/jobs/concurrencyHandler.js:124-155 | a finished job serves the preferred queue; main only if nothing was held back there or the first was refused, then with one less in the count |
| DispatchLimits.PromotionLetsRunIff | core/pipeline-driver-queue/lib/jobs/concurrencyHandler.js:101-155 | below the limit an interval marks the first job held back and lets it run if there is room, and refuses it otherwise; at the limit it does nothing |
| DispatchLimits.RelevantIff | core/pipeline-driver-queue/lib/jobs/concurrencyHandler.js:85-94 | an interval works on the stored pipelines that do not reject on failure and have a job held back |
| DispatchLimits.RefreshedCounts | core/pipeline-driver-queue/lib/jobs/concurrencyHandler.js:94-100 | each of them gets its count from Redis and its limit, and no other entry changes |
| DispatchIntervals.RelevantIs | core/pipeline-driver-queue/lib/jobs/concurrencyHandler.js:85-94 | the pipelines an interval works on, by position in the list the store returns |
| DispatchIntervals.IntervalInTurn | core/pipeline-driver-queue/lib/jobs/concurrencyHandler.js:80-118 | an interval reads counts and limits, then promotes for one pipeline after the other; below the limit it read, the first job held back of the experiment read first is marked and let run if there is room, or refused |
| DispatchIntervals.TriedIs | core/pipeline-driver-queue/lib/jobs/concurrencyHandler.js:101-118 | it tries one promotion for each such pipeline of which fewer jobs run than may |
| DispatchIntervals.GoesOnIff | core/pipeline-driver-queue/lib/jobs/concurrencyHandler.js:26-35 | it goes on to main exactly when there is no such pipeline for the preferred queue and every preferred job is held back |
| DispatchConcurrency.EventBreaksIff | core/pipeline-driver-queue/lib/jobs/concurrencyHandler.js:132-155 | from right counts, an event over one queue breaks them if and only if it lets a marked job run whose pipeline is untracked or whose mark passes the larger of the last refreshed count and the limit |
| DispatchConcurrency.PicksAreUnmarked | core/pipeline-driver-queue/lib/jobs/producer.js:52-57 | what a check picks carries no mark |
| DispatchConcurrency.StepBreaksIff | core/pipeline-driver-queue/lib/jobs/concurrencyHandler.js:49-155 | of all steps only a finished job can break the counts, exactly when the first held-back job it lets run carries such a mark |
| DispatchConcurrency.CountsKeptIff | core/pipeline-driver-queue/lib/jobs/concurrencyHandler.js:49-155 | over every run, started empty or with loaded queues, the counts are natural (and within the bound) all along if and only if no event breaks them |
| DispatchConcurrency.CountsStayNatural | core/pipeline-driver-queue/lib/jobs/concurrencyHandler.js:49-58 | in every run that starts without marked jobs each tracked count is a number and never negative |
| DispatchConcurrency.CountsStayBounded | core/pipeline-driver-queue/lib/jobs/concurrencyHandler.js:83-175 | started without marked jobs and with the consumer active at intervals, a count never passes the larger of its last refreshed value and the limit |
| DispatchPromotion.OneTickOnePerPipeline | core/pipeline-driver-queue/lib/jobs/concurrencyHandler.js:26-35 | one interval hands out at most one job per pipeline over both queues, with other events between them, each held back and of its pipeline |
| DispatchPromotion.EventRaisesIffMarked | core/pipeline-driver-queue/lib/jobs/concurrencyHandler.js:132-155 | an event raises a count if and only if the job it lets run still carries a mark |
| DispatchPromotion.BoundFailsWhenConsumerInactive | core/pipeline-driver-queue/lib/jobs/concurrencyHandler.js:139-155 | a run with limit 2 and last refreshed count 2 that ends with count 3 |
| DispatchOrder.ScoreDifferenceIsConstant | core/pipeline-driver-queue/lib/heuristic/entrance-time.js:7 | the score difference of two jobs does not depend on the scoring instant, for jobs that entered before it |
| DispatchOrder.OutranksIff | core/pipeline-driver-queue/lib/heuristic/entrance-time.js:7 | of any two jobs one outranks the other exactly when its age leads by more than 720,000 ms per step of priority, age zero counting as 720 ms |
| DispatchOrder.OutranksAlwaysIff | core/pipeline-driver-queue/lib/heuristic/priority.js:8 | a job outranks another whatever the priorities of both exactly when its age leads by more than 2,880,000 ms |
| DispatchOrder.EarlierOutranks | core/pipeline-driver-queue/lib/heuristic/priority.js:8 | so a job that entered more than 2,880,000 ms earlier (and 720 ms more for a job of age zero) outranks another |
| DispatchOrder.SlackIsNeeded | core/pipeline-driver-queue/lib/heuristic/entrance-time.js:7 | a job of age zero outranks one older by 2,880,001 ms |
| DispatchOrder.SpanIsTight | core/pipeline-driver-queue/lib/heuristic/priority.js:8 | at exactly 2,880,000 ms the extreme priorities tie |
| DispatchOrder.MainStaysSorted | core/pipeline-driver-queue/lib/queue.js:106-118 | after every run from a sorted start the main queue is sorted by scores all taken at its last scoring |
| DispatchOvertaking.NoLongOvertaking | core/pipeline-driver-queue/lib/jobs/producer.js:119-140 | over every run, for every step but the un-prefer loop and a resumed check, a job handed out is preferred, held back, or leaves no eligible job in main that entered more than the span earlier |
| DispatchUnpreferring.UnpreferringIsFair | core/pipeline-driver-queue/lib/service/preferred-jobs.js:62-74 | over every run, a job handed out by the un-prefer loop was preferred before it or can overtake only jobs this loop put back |
| DispatchOvertaking.PickOvertakesIff | core/pipeline-driver-queue/lib/jobs/producer.js:52-66 | dispatching a pick made earlier overtakes exactly when the pick is not preferred now and an eligible job of main entered too long before it |
| DispatchOvertaking.ResumedCheckOvertakesIff | core/pipeline-driver-queue/lib/jobs/producer.js:52-66 | over every run, a resumed check overtakes exactly when such a job joined main since the pick, or was seen by it while the pick had age zero and leads by no more than the slack |
| DispatchOvertaking.PromotionOvertakesIff | core/pipeline-driver-queue/lib/jobs/concurrencyHandler.js:124-155 | a finished job overtakes exactly when the consumer is active and it lets a job of main run that an eligible job entered too long before |
| DispatchOvertaking.IntervalOvertakesIff | core/pipeline-driver-queue/lib/jobs/concurrencyHandler.js:83-155 | a promotion of an interval overtakes exactly when it works on main, the consumer is active and it lets a job run that an eligible job entered too long before |
| DispatchOvertakingRuns.PromotionMayOvertake | core/pipeline-driver-queue/lib/jobs/concurrencyHandler.js:132-155 | a run from the empty system after which a finished job overtakes |
| DispatchOvertakingRuns.ResumedCheckMayOvertake | core/pipeline-driver-queue/lib/jobs/producer.js:52-66 | a run after which the resumed check overtakes a job that arrived after its pick |
| DispatchOvertakingRuns.AgedPickMayOvertake | core/pipeline-driver-queue/lib/heuristic/entrance-time.js:7 | a run after which the resumed check overtakes a job that it saw when it picked |
| PreferredJobs.ValidatePreferenceRequest | core/pipeline-driver-queue/lib/validation/preference.js:13-28 | a query is refused for FIRST and LAST and must hold exactly one field for BEFORE and AFTER; each refusal with its error, else the place asked for |
| PreferredJobs.PreferPutsOneBlock | core/pipeline-driver-queue/lib/service/preferred-jobs.js:119-128 | splicing ids one by one at a fixed index puts the found jobs in as one block and takes them out of main |
| PreferredJobs.BlockInRequestOrder | core/pipeline-driver-queue/lib/service/preferred-jobs.js:121-128 | for distinct ids the block is the requested jobs found in main, in request order, with score 1 |
| PreferredJobs.RequestOrderIs | core/pipeline-driver-queue/lib/service/preferred-jobs.js:121-128 | that order by position: one job for each requested id that main holds, the job of main with that id at score 1 |
| PreferredJobs.IndexIsRight | core/pipeline-driver-queue/lib/service/preferred-jobs.js:76-113 | the index is the head, the end, right after the last job asked for or right before the first; an empty query text asks for none |
| PreferredJobs.PreferPlacesBlock | core/pipeline-driver-queue/lib/service/preferred-jobs.js:89-128 | the block stands after every match for AFTER, before every match for BEFORE, at the head without a match; main keeps exactly the others |
| PreferredJobs.BlockEmptyIff | core/pipeline-driver-queue/lib/service/preferred-jobs.js:129-131 | nothing is moved, and the request refused, exactly when no requested id is in main |
| Dispatcher.Dispatcher.CreateJob | core/pipeline-driver-queue/lib/jobs/producer.js:171-178 | the in-place dispatch is the dispatch of the model |
| Dispatcher.Dispatcher.DequeueJobInternal | core/pipeline-driver-queue/lib/jobs/producer.js:119-140 | by id where the id is found, otherwise the first eligible job, preferred queue first |
| Dispatcher.Dispatcher.CheckQueue | core/pipeline-driver-queue/lib/jobs/producer.js:52-66 | the periodic check dispatches the first eligible job of the first queue with nothing pending |
| Dispatcher.Dispatcher.QueueJob | core/pipeline-driver-queue/lib/jobs/consumer.js:117-137 | arrival: adapt, enqueue, and dispatch at once when the consumer is active |
| Dispatcher.Dispatcher.StopJob | core/pipeline-driver-queue/lib/jobs/consumer.js:108-115 | the stopped job leaves the queue that holds it, preferred first |
| Dispatcher.Dispatcher.DeletePreferredJobs | core/pipeline-driver-queue/lib/service/preferred-jobs.js:62-74 | the whole un-prefer loop with its inner dispatches, and the jobs it returns |
| Dispatcher.Dispatcher.AddPreferredJobs | core/pipeline-driver-queue/lib/service/preferred-jobs.js:115-135 | the prefer request with its refusals; a refused request changes nothing |
| Dispatcher.TakenIs | core/pipeline-driver-queue/lib/service/preferred-jobs.js:63-74 | un-preferring returns, in request order, each job that is still preferred when its turn comes |
| Dispatcher.TakenIsBlock | core/pipeline-driver-queue/lib/service/preferred-jobs.js:120-134 | preferring returns the jobs of the block, last requested first, with the scores they had in main |
| Dispatcher.Dispatcher.OnActive | core/pipeline-driver-queue/lib/jobs/producer.js:98-101 | an active consumer is noted and served at once |
| Dispatcher.Dispatcher.OnWaiting | core/pipeline-driver-queue/lib/jobs/producer.js:95-97 | a waiting consumer is noted; nothing else changes |
| Dispatcher.Dispatcher.CheckMaxExceeded | core/pipeline-driver-queue/lib/jobs/concurrencyHandler.js:124-155 | the handler of finished jobs: the preferred queue first, main only if that was refused |
| Dispatcher.Dispatcher.CheckConcurrencyJobsInternal | core/pipeline-driver-queue/lib/jobs/concurrencyHandler.js:26-118 | one interval over both queues, and when it stops after the first |
| RatiosAllocator.CoverIsTotal | core/resource-manager/lib/allocators/ratios-allocator.js:62-64 | ranges that cover [0,1] hold every draw, so the lookup finds one |
| RatiosAllocator.InvertedRatiosSum | core/resource-manager/lib/allocators/ratios-allocator.js:16-19 | the inverted ratios of n algorithms add up to n - 1 |
| RatiosAllocator.InitialRatios | core/resource-manager/lib/allocators/ratios-allocator.js:16-22 | with two or more algorithms the scaled ratios are non-negative and sum to 1 |
| RatiosAllocator.SpreadRestShares | core/resource-manager/lib/allocators/ratios-allocator.js:53-60 | handing a leaver's ratio to the rest in equal parts keeps the ratios shares of 1 |
| RatiosAllocator.RangedCovers | core/resource-manager/lib/allocators/ratios-allocator.js:24-37 | rebuilt ranges are contiguous from 0 to 1 |
| RatiosAllocator.EmptyDrawLeavesOthers | core/resource-manager/lib/allocators/ratios-allocator.js:43-46 | when an empty entry is drawn while something is left, at least two entries remain, so the rebuild never divides by zero |
| RatiosAllocator.DrawKeepsAccount | core/resource-manager/lib/allocators/ratios-allocator.js:39-51 | each draw keeps: yielded plus remaining is the request times one plus the refills, and refills are bounded by the leavers |
| RatiosAllocator.SettledBounds | core/resource-manager/lib/allocators/ratios-allocator.js:27-57 | at the end each algorithm was drawn at least its request, at most n - 1 times it, and exactly it for n = 2 |
| RatiosAllocator.AlgorithmRatios.constructor | core/resource-manager/lib/allocators/ratios-allocator.js:7-37 | each algorithm starts with all it asked for and the share 1 less its part of all run time, divided by the number of the others, its range behind that of the one before |
| RatiosAllocator.AlgorithmRatios.Draw | core/resource-manager/lib/allocators/ratios-allocator.js:39-64 | a number yields the first entry whose range holds it; if that entry is empty it leaves, its share goes to the others in equal parts, empty ones are filled again, and the number falls once more |
| RatiosAllocator.DrawIsDetermined | core/resource-manager/lib/allocators/ratios-allocator.js:39-64 | a number draws one entry only and leaves one state only |
| RatiosAllocator.DrainIsDetermined | core/resource-manager/lib/allocators/ratios-allocator.js:39-51 | the numbers determine the whole sequence that is yielded and its length |
| RatiosAllocator.AlgorithmRatios.GenerateRandom | core/resource-manager/lib/allocators/ratios-allocator.js:39-51 | drained with an arbitrary sequence of draws the generator ends; each name is drawn by its number, draw by draw, until nothing is left |
| RatiosAllocator.DrawAll | core/resource-manager/lib/metrics/algorithms-map/run-time.js:29-36 | for every sequence of draws: it throws exactly for one algorithm or all-zero run times, and otherwise yields within the bounds |
| QueueDiscovery.NormalizeQueuesDiscovery | core/algorithm-operator/lib/reconcile/normalize.js:32-55 | the nested loop builds placements, counts and duplicates as specified |
| QueueDiscovery.NormalizeBalanced | core/algorithm-operator/lib/reconcile/normalize.js:40-54 | every reported algorithm is placed or a duplicate, none is lost, and the counts add up to the placements |
| QueueBalancer.SortedHeadIsLeast | core/algorithm-operator/lib/reconcile/algorithm-queue.js:64-65 | the head of the sorted queues is the first queue of least count |
| QueueBalancer.MatchAlgorithmsToQueue | core/algorithm-operator/lib/reconcile/algorithm-queue.js:61-78 | the loop sends the specified action for each algorithm and ends with the specified counts |
| QueueBalancer.MatchSends | core/algorithm-operator/lib/reconcile/algorithm-queue.js:61-78 | exactly one ADD per algorithm, in order, each to a known queue whose count grows by what it is sent |
| QueueBalancer.MatchSum | core/algorithm-operator/lib/reconcile/algorithm-queue.js:72 | every algorithm adds exactly one to the total count |
| QueueBalancer.MatchMaximum | core/algorithm-operator/lib/reconcile/algorithm-queue.js:63-76 | the maximum ends at most at the larger of the first maximum and the rounded-up average |
| QueueBalancer.MatchIsOptimal | core/algorithm-operator/lib/reconcile/algorithm-queue.js:63-76 | no other way of placing as many algorithms has a smaller maximum |
| QueueBalancer.MatchKeepsLimitIff | core/algorithm-operator/lib/reconcile/algorithm-queue.js:47-78 | the limit is kept on every queue if and only if the algorithms fit into the free room |
| QueueBalancer.ReconcileQueues | core/algorithm-operator/lib/reconcile/algorithm-queue.js:118-137 | one reconcile sends the ADDs, then the removals of obsolete and of duplicate placements |
| QueuesManager.QueuesManager.HandleAction | core/algorithm-queue/lib/queues-manager.js:98-123 | an inactive manager and a nameless action change nothing; others add or remove |
| QueuesManager.QueuesManager.AddAction | core/algorithm-queue/lib/queues-manager.js:125-141 | an algorithm is added unless the manager is at its limit or has it |
| QueuesManager.QueuesManager.HandleActions | core/algorithm-queue/lib/queues-manager.js:98-153 | the actions addressed to a manager are applied in order |
| BalancerSends.SentIff | core/algorithm-operator/lib/reconcile/algorithm-queue.js:111-137 | an ADD is sent for an algorithm exactly when it has options and none pending, no queue has it, tasks wait for it or it was used less than the idle time ago, and some queue is below the limit |
| BalancerSends.RemovedIff | core/algorithm-operator/lib/reconcile/algorithm-queue.js:54-59 | a REMOVE is sent to exactly the queues that hold an algorithm which is no longer such |
| BalancerSends.SentInOrder | core/algorithm-operator/lib/reconcile/algorithm-queue.js:118-136 | ADDs come first in the order of the stored algorithms, then the REMOVEs of placements no longer stored in the order reported, then those of duplicates |
| BalancerConvergence.DuplicatesVanish | core/algorithm-operator/lib/reconcile/algorithm-queue.js:87-92 | from any discovery, one round that sends nothing to an inactive queue leaves no algorithm on two queues and every stored one that was placed still placed |
| BalancerConvergence.ReconcileConverges | core/algorithm-operator/lib/reconcile/algorithm-queue.js:118-137 | with room and nothing sent to an inactive queue, one round puts every required algorithm on exactly one queue within the limit, moves nothing in use, and the next reconcile sends nothing |
| BalancerConvergence.SettlesIff | core/algorithm-operator/lib/reconcile/algorithm-queue.js:47-137 | with room, the reconcile after a round sends nothing if and only if no action of the round was addressed to an inactive queue |
| BalancerRoom.PlacesAllIff | core/algorithm-operator/lib/reconcile/algorithm-queue.js:118-137 | with nothing sent to an inactive queue, one round places every wanted algorithm exactly when the missing ones fit beside all that is on the queues |
| BalancerRoom.TwoRoundsPlaceAllIff | core/algorithm-operator/lib/reconcile/algorithm-queue.js:118-137 | two such rounds place every wanted algorithm exactly when the stored ones that are wanted or placed fit on all queues, and then the next reconcile sends nothing |
| BalancerConvergence.InactiveQueueNeverSettles | core/algorithm-operator/lib/reconcile/algorithm-queue.js:47-52 | with only an inactive queue the same ADD is sent in every round and changes nothing |
| BalancerConvergence.InactiveQueueKeepsObsolete | core/algorithm-operator/lib/reconcile/algorithm-queue.js:54-85 | an obsolete algorithm on an inactive queue is told to go in every round and stays |
| FlowText.SplitJoin | core/api-server/lib/service/pipeline-creator.js:219 | parts without the separator come back from their join |
| FlowText.StripJoin | core/api-server/lib/service/pipeline-creator.js:219 | stripping white space from a join strips its parts and its separator |
| StreamingFlow.Parser.Relation | core/api-server/lib/service/pipeline-creator.js:239-262 | one relation: refused on a loop or a repeat, otherwise added to flow, keys and edges |
| StreamingFlow.Parser.Part | core/api-server/lib/service/pipeline-creator.js:225-265 | one part against the next, with the first error in the order of the code |
| StreamingFlow.Parser.Flow | core/api-server/lib/service/pipeline-creator.js:213-268 | the nested loops over one flow give the result and the error of running its checks in order |
| StreamingFlow.Parser.Flows | core/api-server/lib/service/pipeline-creator.js:164-288 | all flows of a pipeline, with the checks before and after the loop and the first error among them |
| FlowMeaning.KeyIsInjective | core/api-server/lib/service/pipeline-creator.js:240-247 | without blanks in names the edge key tells source and target apart |
| FlowMeaning.TextHas | core/api-server/lib/service/pipeline-creator.js:219-242 | a text denotes exactly the union over its expressions of the products of each part with the next |
| FlowMeaning.AcceptedIff | core/api-server/lib/service/pipeline-creator.js:213-268 | a flow is accepted exactly when it is not empty, relates known nodes, none to itself and nothing twice; it then groups and adds its relations |
| FlowMeaning.AddedEdges | core/api-server/lib/service/pipeline-creator.js:251-254 | the edges after a flow are those before it and its relations, none twice |
| FlowGroups.FlowGroupsRelations | core/api-server/lib/service/pipeline-creator.js:255-261 | the grouped flow has each source once, by first appearance, with exactly its targets in order |
| FlowGroups.FlattenGroups | core/api-server/lib/service/pipeline-creator.js:255-261 | flattening a grouped flow gives back its relations, and no entry is empty |
| FlowGroups.Regroup | core/api-server/lib/service/pipeline-creator.js:255-261 | grouping the relations of a flow with distinct sources gives the flow back |
| FlowRoundTrip.RoundTripIff | core/api-server/lib/service/pipeline-creator.js:213-268 | a valid grouped flow reads back from its text if and only if no source ends in an arrow head |
| FlowRoundTrip.AcceptedRoundTrip | core/api-server/lib/service/pipeline-creator.js:213-268 | the same for the flow of any accepted text |
| FlowRoundTrip.HeadIsLost | core/api-server/lib/service/pipeline-creator.js:219-232 | accepted texts that do not read back |
| FlowBuild.BuildIff | core/api-server/lib/service/pipeline-creator.js:164-288 | flows are accepted exactly when there are some, a default is known, each is accepted, every node is mentioned, and each node no relation points to is known by its own name and keeps state |
| FlowBuild.BuildMeaning | core/api-server/lib/service/pipeline-creator.js:210-268 | the edges are the union of all relations without repeats or loops, and each flow is recorded under its name |
| FlowErrors.RefusedBecause | core/api-server/lib/service/pipeline-creator.js:213-247 | a refused flow gives the error of the first check that fails, and the text has what that error names: a lone part, an empty part after another, an unknown name, a relation to itself, a relation stated twice |
| FlowErrors.BuildRefuses | core/api-server/lib/service/pipeline-creator.js:170-285 | the error of refused flows in the order of the checks: no flow, no default, the first flow refused, the first node not mentioned, an entry without a node of its name, an entry that is stateless |
| Graphs.AcyclicIsDecided | core/api-server/lib/service/pipelines.js:131-133 | the decision by closure agrees with the absence of a path back along an edge |
| Graphs.HasSource | core/api-server/lib/service/pipelines.js:135 | in an acyclic graph every node is reached from a node without predecessors |
| TriggersTree.TriggerGraphMeaning | core/api-server/lib/service/pipelines.js:126-130 | the edges of the graph are exactly the triggers of the pipelines |
| TriggersTree.TraversedMeaning | core/api-server/lib/service/pipelines.js:147-160 | a traversal keeps children distinct successors and hangs every node below the start under all its predecessors |
| TriggersTree.ChildrenAreSuccessors | core/api-server/lib/service/pipelines.js:134-135 | after all sources each node's children are its successors, each once, despite repeated visits |
| TriggersTree.Traverse | core/api-server/lib/service/pipelines.js:147-160 | the recursion over shared objects changes their children as specified and ends on acyclic graphs |
| TriggersTree.GetPipelinesTriggersTree | core/api-server/lib/service/pipelines.js:117-145 | each refusal exactly when it applies; otherwise the named node or all sources of a complete shared tree, with children in the order of the traversal |
| Caching.DescendantsAreReached | core/api-server/lib/service/caching.js:68-79 | the accumulated successors of a node are exactly the other nodes it reaches |
| Caching.Collector.GetSuccessors | core/api-server/lib/service/caching.js:68-79 | the recursion pushes the descendants and fails exactly for an unknown node |
| Caching.Flatten | core/api-server/lib/service/caching.js:40-51 | the start and the successors, each once |
| Caching.CreateSubPipeline | core/api-server/lib/service/caching.js:27-38 | the reached nodes in pipeline order, the start alone marked with the stored job |
| Caching.DownstreamIs | core/api-server/lib/service/caching.js:27-38 | the sub-pipeline by position: the nodes the start reaches in pipeline order, the start with the root job or else the job, the others as they were |
| Caching.DownstreamHas | core/api-server/lib/service/caching.js:27-38 | a node is kept exactly when the start reaches it |
| Caching.DownstreamIsClosed | core/api-server/lib/service/caching.js:27-38 | with a kept node every node of the pipeline that follows it is kept |
| Caching.Exec | core/api-server/lib/service/caching.js:9-25 | running a node succeeds exactly for a stored batch pipeline without wait-any nodes that knows the node; each refusal with its error, a wait-any one naming the first such node |
| AlgorithmTasks.HeuristicRunner.Run | core/algorithm-queue/lib/heuristic-runner.js:22-34 | the fold gives the weighted sum; a prescheduled task scores 0 |
| TaskScores.ScoreIs | core/algorithm-queue/lib/heuristic-runner.js:22-34 | the score in the fields of the task: attempts, batch index, age, priority and batch place, each with its weight; 0 for a prescheduled task |
| TaskScores.LatestIs | core/algorithm-queue/lib/heuristic-runner.js:22-34 | a scored task remembers each of these terms |
| TaskScores.OutranksIff | core/algorithm-queue/lib/heuristic/priority.js:7 | with equal batch places one task outranks another exactly by a sum in which a step of priority weighs 1,440,000 ms of age, an attempt 1,200,000 ms and a step of the batch index 1,200 ms |
| TaskScores.PriorityStep | core/algorithm-queue/lib/heuristic/priority.js:7 | all else equal, each step of priority towards 1 scores 0.08 more |
| TaskScores.AttemptStep | core/algorithm-queue/lib/heuristic/attempts.js:6 | all else equal, each attempt scores a fifteenth more |
| TaskScores.AgeStep | core/algorithm-queue/lib/heuristic/entrance-time.js:7 | all else equal, an hour of age scores 0.2 more |
| TaskScores.BatchStep | core/algorithm-queue/lib/heuristic/batch.js:7 | all else equal, each step back in the batch scores a fifteen-thousandth less up to index 1499; from 1500 on all score like the first |
| TaskScores.ArrivedInFront | core/algorithm-queue/lib/queue.js:95-110 | of two tasks that arrive together the one of higher worth is queued in front |
| TaskScores.LowerPriorityInFront | core/algorithm-queue/lib/queue.js:106-107 | so alike in all else the task with the lower priority number is queued in front |
| TaskScores.CycledInFront | core/algorithm-queue/lib/queue.js:205-215 | a cycle queues a task in front of one of lower worth and equal enriched batch place |
| AlgorithmTasks.ConfiguredRunner | core/algorithm-queue/config/main/config.base.js:64-70 | registering all heuristics in order yields the configured weights |
| AlgorithmTasks.GetListOfJobsIDs | core/algorithm-queue/lib/querier.js:6-21 | the nested map holds for each job and node the number of its tasks |
| AlgorithmTasks.EnrichBatchPlaces | core/algorithm-queue/lib/enrichments/batch-place.js:4-27 | the loop applies the recurrence to every task with lengths counted before it |
| TaskQueue.KeepTwice | core/algorithm-queue/lib/queue.js:132-141 | removing match by match leaves what removing all matches at once leaves |
| TaskQueue.RemovedAndKept | core/algorithm-queue/lib/queue.js:112-130 | what is removed and what stays is what there was |
| TaskQueue.Queue.AddJobs | core/algorithm-queue/lib/queue.js:95-110 | prescheduled duplicates leave, the tasks are scored and appended, and the queue is sorted stably |
| TaskQueue.Queue.RemoveJobs | core/algorithm-queue/lib/queue.js:112-130 | the requested tasks leave, all of a job when no task is named, and are collected |
| TaskQueue.AddedHasExactly | core/algorithm-queue/lib/queue.js:95-141 | after an arrival exactly the waiting tasks are there that were not prescheduled with the ids of an arrived one, and the arrived ones, scored |
| TaskQueue.RemovalKeeps | core/algorithm-queue/lib/queue.js:112-130 | a removal keeps, by position and in order, exactly the tasks no request names, a request without a task naming its whole job |
| TaskQueue.Queue.TryPop | core/algorithm-queue/lib/queue.js:143-150 | the head leaves and is returned |
| TaskQueue.Queue.IntervalUpdate | core/algorithm-queue/lib/queue.js:205-215 | a cycle enriches, scores and sorts |
| TaskQueue.JobProducer.OnStuck | core/algorithm-queue/lib/jobs/producer.js:99-133 | a stuck task is skipped, put back with one attempt more, or reported crashed with its limit |
| TaskQueueRuns.RunSorted | core/algorithm-queue/lib/queue.js:95-187 | after every run the queue is sorted by stored score and its head has a maximal one |
| TaskQueueRuns.AddedTies | core/algorithm-queue/lib/queue.js:106-107 | among equal scores waiting tasks keep their order and new ones come after them |
| TaskQueueRuns.CycledTies | core/algorithm-queue/lib/queue.js:205-215 | a cycle keeps the order of tasks with equal scores |
| TaskQueueRuns.PrescheduledComesLast | core/algorithm-queue/lib/heuristic-runner.js:22-34 | after every run with priorities 1 to 5 a prescheduled task is next only when no other kind of task waits |
| TaskRetries.RunBounded | core/algorithm-queue/lib/jobs/producer.js:117-131 | over every run no task has more attempts than its limit allows |
| TaskRetries.UsedRun | core/algorithm-queue/lib/jobs/producer.js:137-150 | over every run the attempts of a task are the times it was put back |
| TaskRetries.CrashesAfterAllowance | core/algorithm-queue/lib/jobs/producer.js:117-131 | after any run a stuck task crashes exactly when it was put back as often as its limit says (3 without a limit) |
| TaskRetries.StuckOutcome | core/algorithm-queue/lib/jobs/producer.js:99-150 | a stuck task is left alone if its job is idle, reported crashed with its limit if one attempt more would pass it, else reported stalled and put back as new with that attempt |
| BatchOrder.RunPlaced | core/algorithm-queue/lib/enrichments/batch-place.js:7-26 | over every run, with any queue lengths, place minus length is batch index minus initial length |
| BatchOrder.PlaceScoreByIndex | core/algorithm-queue/lib/heuristic/current-batch-place.js:7-11 | the place score depends on the batch index and the current length only |
| BatchOrder.CycleLength | core/algorithm-queue/lib/enrichments/batch-place.js:4-22 | a cycle leaves a task with the number of waiting tasks of its job and node, or with its batch's length if it starts over |
| BatchOrder.OutranksIff | core/algorithm-queue/lib/heuristic/current-batch-place.js:7-11 | after a cycle any two tasks, retried or not, compare on the place term as the cross products of their distances and lengths |
| BatchOrder.EarlierRanksFirstIff | core/algorithm-queue/lib/enrichments/batch-place.js:8-22 | exactly when the earlier of two tasks of a batch that were not retried outranks the later one; always when the cycle leaves both with one length |
| BatchOrder.RetriedOutranksIff | core/algorithm-queue/lib/jobs/producer.js:136-150 | of two retried tasks left with one length the later one ranks first exactly when their batch indexes add up to more than 4 |
| BatchOrder.RetriedLaterRanksFirst | core/algorithm-queue/lib/jobs/producer.js:136-150 | two stuck tasks from index 2 on that are put back rank in reverse at the next cycle |
| BatchOrder.LaterMayRankFirst | core/algorithm-queue/lib/enrichments/batch-place.js:8-22 | tasks 2 and 3 of 4, after three cycles alone, rank the wrong way round |
| Versions.IncCounts | core/api-server/lib/service/versions.js:148-173 | incrementing raises the base-501 value by one; only the last semver is followed by none |
| Versions.IncOfNone | core/api-server/lib/service/versions.js:148-173 | no semver is followed by the first; a text that is no semver stays |
| Versions.AlgorithmVersions.CreateVersion | core/api-server/lib/service/versions.js:121-136 | the new version is stored first, with the increment of the latest semver of its algorithm |
| Versions.AlgorithmVersions.CreateVersions | core/api-server/lib/service/versions.js:21-25 | the serial queue creates the requested versions one after the other |
| Versions.SemversCountUp | core/api-server/lib/service/versions.js:121-173 | in every run of creations, interleaved over algorithms, the n-th semver of each has value 501*501 + n within a round |
| Versions.SemversIncrease | core/api-server/lib/service/versions.js:148-173 | the first 500*501*501 semvers of an algorithm are strictly increasing |
| Versions.SemversRunOut | core/api-server/lib/service/versions.js:165-172 | a semver is missing exactly once after each round, and the first semver comes back exactly at the start of each |

## Left out

- Floating-point rounding: scores, ratios and draws are reals.
- The aggregations and the paging of the preferred and managed lists: run-length and counting facts only.
- Creating, updating and deleting queue deployments in the operator; only the actions to queue managers are modelled.
- The unforced removal of idle queues (`core/algorithm-queue/lib/queues-manager.js:82-96`) and the idle shutdown of a manager.
- `Dispatcher.Dispatcher.CheckQueue`: the waiting counts it asks for are inputs, and nothing comes between its pick and its dispatch; the split check is the separate event CheckResumed.
- A failure of `producer.createJob` after the job has left its queue, and the timer that stops after the first dispatch.
- The stored pipelines and the counts an interval reads are inputs of the event, read once per queue.
- The order of integer-like keys in JavaScript objects: names keep their order of insertion.
- Fields of a job that only travel with it (span ids, callbacks), metrics and logging.
- `StreamingFlow.Parser.Flows`: the state type of each node is the one settled before parsing; the loop that settles state types, creates gateways (which contacts another service) and sets retry policies is not modelled, nor is the refusal of flows in batch pipelines.
- `FlowBuild.BuildIff`: the same; `buildStreamingFlowGraph`, which repeats the parser for one flow, is not modelled.
- `DispatchOvertaking.NoLongOvertaking`: the dispatches of the un-prefer loop and of a resumed check have their own theorems, `UnpreferringIsFair` and `ResumedCheckOvertakesIff`.
- `Caching.Exec`: the graph of a pipeline is a parameter that is assumed acyclic, since the library that builds it is not part of this model; nodes are values, so marking the start is not seen through other references to it.
- `Versions.SemversCountUp`: deletions of versions are not modelled; texts with a prerelease part count as texts that are no semver.
- The stored order of versions is taken to be newest first.
- `TaskQueueRuns.PrescheduledComesLast`: requires tasks that entered no later than they are scored, as clocks that run back would make ages negative.
- Kubernetes, etcd, Redis, Mongo and REST layers, and the remaining services of the repository.
