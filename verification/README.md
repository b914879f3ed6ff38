# Verified model of radar-node's stateful core

radar-node is an agent that probes targets on a schedule, journals its results in a local
database and delivers them to a server. This project models the parts of it that carry state
and proves what they promise, over every input, every run and every interleaving:

- **The local store** (`Store*.dfy`, `Rollup*.dfy`, `ResultRuns.dfy`): an append-only journal,
  the tables projected from it, hourly rollups and an outbox. `StoreTables` gives every
  transaction as a function on tables, `Store` the imperative methods that compute them, and
  `StoreRuns` the state machine in which transactions, maintainers, delivery and restarts
  interleave statement by statement.
- **Delivery** (`Outbox.dfy`, `Delivery.dfy`, `Spool.dfy`): draining the outbox or the file
  spool, settling by the server's acks, backing off.
- **Triggers** (`AgentRuns.dfy`, `TriggerLoop.dfy`): the life of a trigger across the
  heartbeat loop, the scheduler and crashes, on top of the store's own runs.
- **The scheduler** (`ProbeCache.dfy`, `Scheduler.dfy`, `Tick.dfy`): a job-budgeted,
  oldest-first selection; starvation, spacing and budget.
- **The destination gate** (`DestGate.dfy`): minimum spacing with a bounded table.
- **The pooled engine** (`PoolBisect.dfy`, `Pool.dfy`): deduplication, slots, warm reuse,
  pinned ports, bisection.
- **Printers and budgets** (`PoolConfig.dfy`, `JobProbe.dfy`, `ShellQuote.dfy`).

Each source object whose methods change its fields is a class; its methods are proved equal to
a function of the old state, and the properties are lemmas about those functions. Time is an
integer (milliseconds in the store, nanoseconds elsewhere). What the outside world answers
(a POST, a build, a file deletion, a clock) is a parameter.

## Where the code and its documentation differ

- `internal/agent/spool.go:64-67` says the batch just written is always kept. It is not when
  the wall clock has stepped back, because eviction goes by names and names carry the clock
  (`Spool.ClockStepLosesTheNewest`), nor when deleting an older file fails
  (`Spool.FailedDeletionLosesTheNewest`); `Spool.JustWrittenLostExactly` says exactly when.
- `internal/store/rollups.go:110-113` says raw results can be pruned without losing their
  aggregates. The pruning statements do not look at the cursor, so a result both recorded and
  settled between the last chunk read and the prune is lost
  (`RollupRuns.LateResultNeverCounted`); `RollupRuns.PrunedResultCountedExactly` says exactly
  which results are.
- Age pruning relies on the clock not stepping back between a trigger and its completion:
  `StorePruning.AnyClock` and `StorePruning.ClockStepResurrects`.
- `internal/poolconfig/poolconfig.go:28-31` says a malformed job is left out instead of
  aborting the others. A job that passes the three checks but has a null outbound aborts the
  whole build at line 196 (`PoolConfig.NullOutboundTakesOthersAlong`);
  `PoolConfig.AbortsExactly` says exactly when. To the pool that is one more failed build,
  which it may bisect. A job whose config does not decode (lines 64-67) also fails the build of
  all; decoding is not part of this model.

## Model

| member | source | states |
|---|---|---|
| `StoreRuns.RunsReplayFaithfully` | internal/store/probes.go:226-320 | in every reachable state, however assignments, triggers, completions, results, settlements, restarts and the single statements of any number of maintainers interleave and however much was pruned, replaying the surviving journal gives exactly the live queue (keys, event numbers, snapshots), the live definitions and hash, and only completions that are live with the same time |
| `StoreRuns.CompletedNeverQueued` | internal/store/triggers.go:164-223 | a key with a completion record is neither in the live queue nor in a rebuilt one, in any run |
| `StoreRuns.RunSafe` | internal/store/maintenance.go:55-99 | the invariant behind replay (rows ordered, queue backed by trigger rows, retired triggers completed by a later row, completions remembered, newest assignment defining the probes) holds in every reachable state |
| `StoreReplay.StructureIsFaithful` | internal/store/probes.go:226-320 | one state with that structure rebuilds to its own queue, definitions, hash and a subset of its completions |
| `StoreReplay.ReplayedPending` | internal/store/probes.go:274-283 | a key is in the replayed queue exactly when some trigger row of it has no later completion row, and the queued value is such a row |
| `StoreReplay.ReplayedCompleted` | internal/store/probes.go:284-293 | the replayed completions are exactly the keys of completion rows, each with the time of its last one |
| `StoreReplay.ReplayedProbes` | internal/store/probes.go:262-273 | the replayed definitions and hash are those of the newest assignment row, and empty without one |
| `StoreReplay.NewestRunIsNewest` | internal/store/probes.go:303-313 | the run time that a rebuild restores is the maximum over the probe's result rows, and absent exactly when there is none |
| `StoreSteps.SaveAssignmentKeeps` | internal/store/probes.go:24-130 | an assignment, refused or applied, keeps the replay invariant |
| `StoreSteps.RecordTriggerKeeps` | internal/store/triggers.go:29-118 | recording a trigger, new or already seen, keeps the replay invariant |
| `StoreSteps.CompleteTriggersKeeps` | internal/store/triggers.go:164-223 | completing any list of triggers keeps the replay invariant |
| `StoreSteps.RecordResultsKeeps` | internal/store/results.go:26-99 | recording results keeps the replay invariant |
| `StoreSteps.MarkOutcomesKeeps` | internal/store/results.go:163-211 | settling a batch keeps the replay invariant |
| `StoreSteps.PruneKeeps` | internal/store/maintenance.go:61-71 | a pruning statement with any limit keeps the replay invariant, by age as long as the clock has not run backwards and by size on any clock: no completion row goes before the trigger row it retires |
| `StoreSteps.PruneCompletedKeeps` | internal/store/maintenance.go:81-85 | dropping completion records keeps the invariant when the journal holds no completion row that old |
| `StoreSteps.CollapseKeeps` | internal/store/maintenance.go:88-99 | keeping only the newest assignment row keeps the invariant |
| `StoreSteps.RebuildKeeps` | internal/store/probes.go:226-320 | a rebuild keeps the invariant |
| `StoreSteps.DeletedUpTo` | internal/store/maintenance.go:61-71 | a chunked delete takes every prunable row up to some row id and nothing else, at most its limit, and leaves nothing prunable when it came back short |
| `StorePruning.AnyClock` | internal/store/maintenance.go:55-80 | after any transactions, settlements, prunings by size and collapses under arbitrary clock readings a rebuild is faithful (queue, definitions, hash, completions), and stays so after a pruning by age if and only if the cutoff splits no trigger from its completion and spares the last completion of every key that it spares a completion of |
| `StorePruning.AgePruneFaithfulIff` | internal/store/maintenance.go:55-80 | the same equivalence for any one state with the replay structure, whatever the clock did |
| `StorePruning.ClockStepResurrects` | internal/store/maintenance.go:55-80 | a concrete clock step back between a trigger and its completion after which pruning and rebuilding queue a completed trigger again |
| `StorePruning.ChunksAddUp` | internal/store/maintenance.go:57-79 | two chunked deletes in a row delete what one larger one would |
| `StoreMeaning.SaveAssignmentMeaning` | internal/store/probes.go:24-130 | an assignment without a hash or with a repeated id changes nothing; any other is journaled and replaces the probes table by exactly its own probes, each with its new definition and the run time and last trigger it had before |
| `StoreMeaning.RecordTriggerMeaning` | internal/store/triggers.go:29-118 | an event is recorded if and only if it is a triggered one with both ids, its key is neither queued nor completed, and its run is not the last one its probe was triggered for; it then is the newest row and waits with its own snapshot |
| `StoreMeaning.CompleteOneMeaning` | internal/store/triggers.go:164-223 | completing one trigger journals it, takes it off the queue, keeps the time and notes the run as its probe's last, and touches nothing else |
| `StoreMeaning.CompleteTriggersMeaning` | internal/store/triggers.go:164-223 | completing a list takes exactly its keys off the queue and records each with the present time |
| `StoreMeaning.RebuiltRunTimes` | internal/store/probes.go:303-313 | after a rebuild a probe was last run when its latest result on record was observed, and never if there is none |
| `StoreMeaning.MarkProbesRunMeaning` | internal/store/probes.go:200-221 | marking probes run sets the run time of exactly those that are assigned |
| `StoreMeaning.PrunableExactly` | internal/store/maintenance.go:61-71 | a pruning statement may take exactly the rows that are not an assignment, not a result still to be delivered, not the row of a queued trigger, and older than the cutoff if there is one |
| `StoreResults.RecordResultsMeaning` | internal/store/results.go:26-99 | recording a batch keeps every row, leaves each named result in the journal, inserts exactly as many rows as there were results never seen (in the journal or earlier in the batch), and Inserted + Duplicates + Skipped is the batch length; each new row has the check, outcome, latency, body and time of the first report of its check and the number reserved for its place |
| `StoreResults.ConflictsExactly` | internal/store/schema.go:46-51 | with rising origin numbers the insert conflicts exactly when the result's own key is already in the journal |
| `StoreResults.ReplayedBatchInsertsNothing` | internal/store/results.go:23-26 | replaying a batch at any later time inserts nothing and changes no row |
| `ResultRuns.RunNumbered` | internal/store/sequences.go:14-33 | in every reachable state origin numbers rise along the journal and stay below next_seq, and no result key occurs in two rows |
| `ResultRuns.RecordingIsIdempotent` | internal/store/results.go:26-99 | after any run, recording a batch writes down exactly the first reports of checks not on record, as they were reported, counts them, and recording it again inserts nothing |
| `Outbox.ResultRowLifeCycle` | internal/store/results.go:163-211 | in every run and at every step a result row stays as it is, or goes from pending to delivered or rejected after a successful POST containing it, or is deleted by maintenance when it is not pending |
| `Outbox.RunKeepsPosted` | internal/agent/store_delivery.go:101-153 | every settled row has been in a successful POST |
| `Outbox.SettlingTheOldest` | internal/store/results.go:107-155 | settling the oldest batch takes exactly that batch off the pending queue, rejects exactly the rows whose last ack rejects them, delivers the others, and leaves every other row alone |
| `Outbox.FirstOutcomeDecides` | internal/store/results.go:163-211 | a pending row becomes delivered if the first outcome naming it accepts it, and rejected otherwise |
| `Outbox.PendingOnlyExactly` | internal/store/results.go:107-155 | the pending queue is every result still to be delivered, in row order |
| `Delivery.SettleFor` | internal/agent/store_delivery.go:155-182 | each batch row gets the verdict of the last ack for its run and number, and counts as accepted without one |
| `Delivery.Deliverer.DrainStore` | internal/agent/store_delivery.go:98-153 | a drain takes exactly its delivered count off the front of the pending queue, each POST being the next stretch, gives every posted row the verdict of its own reply's last ack for it and adds up what the replies accepted and rejected; a failed read, POST or settlement ends it and lengthens the wait, and after the last two the posted batch is still pending and will be posted again; with answers and time it settles p rows in ceil(p/500) POSTs |
| `Delivery.Deliverer.DrainLoop` | internal/agent/store_delivery.go:108-152 | the loop of that drain, ended by an empty queue, a short batch, the budget, a failed read, a failed POST or a failed settlement, and by which of them |
| `Delivery.TotalsAdd` | internal/agent/store_delivery.go:144-146 | each answered post adds what its reply accepted and rejected to the totals |
| `Delivery.BackoffSchedule` | internal/agent/spool.go:248-257 | after n failures in a row the wait is 5 s doubled n - 1 times, capped at one minute |
| `RollupRuns.EachResultCountedOnce` | internal/store/rollups.go:116-186 | for any number of interleaving maintainers the rows folded so far are distinct and in row order, every bucket has the number of its rows among them (since the size cap last dropped it), of the ok and of the failed ones, and the sum, least and greatest of their latencies, and a row on record is folded exactly when it is at or behind the cursor |
| `RollupRuns.CursorOnlyAdvances` | internal/store/rollups.go:214-275 | the cursor never goes back |
| `RollupRuns.CountedBeforePruning` | internal/store/maintenance.go:50-57 | whatever was on record at a maintainer's last, empty chunk read has been folded before that maintainer prunes anything |
| `RollupRuns.EmptyReadMeansAllCounted` | internal/store/rollups.go:124-130 | at an empty chunk read every result row on record has been folded, even when rivals moved the cursor since it was read |
| `RollupRuns.PrunedResultCountedExactly` | internal/store/maintenance.go:61-71 | a result row that a pruning statement deletes is counted, then or in any continuation of the run, if and only if it lay behind the cursor or some maintainer holds it in a chunk read at the present cursor |
| `RollupRuns.LateResultNeverCounted` | internal/store/maintenance.go:50-80 | a concrete run in which a result recorded and settled between the empty read and the prune is deleted without ever being counted |
| `Rollups.FoldsMerge` | internal/store/rollups.go:236-254 | merging the aggregates of two stretches of rows gives the aggregate of both: sums, counts, minimum and maximum alike |
| `Rollups.UpsertCounts` | internal/store/rollups.go:236-267 | upserting a chunk's aggregates extends the table's direct fold by that chunk, bucket by bucket |
| `Rollups.FoldMeaning` | internal/store/rollups.go:131-164 | a fold has the number of the bucket's rows, of those that were ok, of those that were not and of those with a latency, the sum of the latencies, and bounds on them that are attained |
| `Rollups.AggregateChunk` | internal/store/rollups.go:131-164 | the accumulators built in place are the folds of the chunk and describe its rows (numbers, outcomes, latencies), and the last row id is its largest |
| `Rollups.Bucket` | internal/store/rollups.go:134-137 | the bucket is the start of the row's hour, and zero for negative times |
| `Store.Store.SaveAssignment` | internal/store/probes.go:24-130 | the new tables are those of the assignment transaction; a repeated id or an empty hash changes nothing |
| `Store.Store.RecordTrigger` | internal/store/triggers.go:29-118 | the new tables are those of the trigger transaction, and it reports an insertion exactly when the event is well formed and its key not seen |
| `Store.Store.CompleteTriggers` | internal/store/triggers.go:164-223 | the new tables are those of completing the keys in order |
| `Store.Store.RecordResults` | internal/store/results.go:26-99 | tables and summary are those of inserting the results one by one under reserved numbers |
| `Store.Store.MarkOutcomes` | internal/store/results.go:163-211 | only named pending rows change state |
| `Store.Store.Rebuild` | internal/store/probes.go:226-320 | the loop over control rows computes the replay of the journal |
| `Store.Store.NextOriginSeq` | internal/store/sequences.go:14-33 | hands out the first free numbers and reserves exactly as many as asked |
| `Store.Store.WriteRollups` | internal/store/rollups.go:214-275 | compare and set: a moved cursor changes nothing, otherwise upserts and cursor change together |
| `Store.Store.RollupResults` | internal/store/rollups.go:116-186 | with rivals moving the cursor under it, the table ends up with exactly the rows between the old and the new cursor counted in, every bucket describing the rows counted before and those, and a call that does not fail leaves no row beyond the cursor |
| `Store.Store.Maintain` | internal/store/maintenance.go:43-175 | the whole maintenance call: folding first, then retention, collapse and the size cap; rows and rollups go for size only in rounds made over the cap, and a completed call with a cap is within it, or has nothing left to give up, or has made a hundred rounds that all gave something up; its deleted rows, dropped rollups and pruned completions are the differences in size, its rolled-up count the rows between the cursors when no rival interferes |
| `Store.MaintenanceMeaning` | internal/store/maintenance.go:43-175 | however far a call comes, it keeps the replay invariant, adds no row, deletes no pending result; a completed call leaves of the rows older than the cutoff only assignments, results to be delivered and queued triggers, one assignment in all, and exactly the younger completion records |
| `Store.RetentionExactly` | internal/store/maintenance.go:55-80 | retention takes exactly the rows older than the cutoff that are not an assignment, a result to be delivered or the row of a queued trigger |
| `Store.NothingPrunableExactly` | internal/store/maintenance.go:113-123 | where the size loop finds nothing to prune only assignments, results to be delivered and the rows of queued triggers are left |
| `Store.CollapseExactly` | internal/store/maintenance.go:88-99 | collapsing takes exactly the assignments that a newer one follows |
| `Store.Store.EnforceSize` | internal/store/maintenance.go:101-149 | the size loop, round by round: each is made over the cap and gives up a chunk of prunable rows or, when there are none, of the oldest rollups; it ends within the cap, with nothing left, after a hundred rounds, or with the context |
| `Store.ChunkIsNextStretch` | internal/store/rollups.go:188-212 | a chunk read is the next stretch of result rows after the cursor, nothing left out |
| `AgentRuns.RecordedTriggersSurvive` | internal/agent/agent.go:1012-1087 | over runs with crashes at any point and with failing result or completion writes, a recorded trigger stays in the durable queue until its produced results are durable |
| `AgentRuns.CompletedTriggersStayDone` | internal/agent/store_delivery.go:26-89 | while its completion record is kept, a trigger is in no queue and not in flight, a redelivery changes nothing and a restart does not bring it back |
| `AgentRuns.UnrecordedRunsAgainExactly` | internal/agent/store_delivery.go:54-60 | a redelivery of a completed trigger that the database fails to judge is queued again if and only if the event is well formed, the cache has not noted that run as the probe's last, and the queue has room |
| `AgentRuns.NothingRunsTwiceAtOnce` | internal/agent/cache.go:181-204 | whatever waits or runs in memory is in the durable queue, and is there only once |
| `AgentRuns.ReexecutionAddsNoSecondRow` | internal/store/results.go:42-94 | committing a tick's results, first or repeated, adds only missing results, and no key has two rows |
| `AgentRuns.RestartRestoresOldest` | internal/agent/cache.go:209-239 | a restart queues the pending triggers by event number, the oldest 256 of them and each with its own snapshot: the per-probe dedup memory never holds one back |
| `AgentRuns.RunGood` | internal/agent/store_delivery.go:26-89 | the joint invariant of database, cache, heartbeat loop and scheduler holds in every reachable state |
| `TriggerLoop.TriggerLoop.ApplyTriggeredEvents` | internal/agent/store_delivery.go:47-70 | events are recorded one by one and queued when new; one that the database does not answer is queued at once |
| `TriggerLoop.TriggerLoop.PendingTriggers` | internal/store/triggers.go:120-160 | lists each pending trigger once with its snapshot, by event number |
| `TriggerLoop.TriggerLoop.RestorePendingTriggers` | internal/agent/store_delivery.go:23-42 | queues that list; a failed read changes nothing and is not taken for a success |
| `TriggerLoop.TriggerLoop.FinishTriggers` | internal/agent/store_delivery.go:72-89 | durable triggers are completed and noted, others requeued and the tables left alone |
| `TriggerLoop.ReceivedAllIsARun` | internal/agent/store_delivery.go:47-70 | what that loop does to tables and cache is the run of the state machine that records and queues each event in turn |
| `TriggerLoop.FinishIsTwoSteps` | internal/agent/store_delivery.go:72-89 | finishing triggers takes the completing and marking steps of the state machine, or its requeueing step |
| `ProbeCache.ProbeCache.ReplaceAssignment` | internal/agent/cache.go:88-125 | the new set replaces the old one; run times and trigger memory are carried over by id |
| `ProbeCache.ProbeCache.ReplaceAssignmentKeepingHash` | internal/agent/cache.go:95-104 | the same without touching the content hash |
| `ProbeCache.EntriesMeaning` | internal/agent/cache.go:106-125 | a new assignment leaves exactly its own probes, each under its id as its last snapshot has it and with the run time and trigger memory it had before |
| `ProbeCache.ProbeCache.ApplyTriggeredEvent` | internal/agent/cache.go:181-204 | queues an event that is neither queued nor noted; a full queue still notes the run id |
| `ProbeCache.ProbeCache.QueueTriggers` | internal/agent/cache.go:206-239 | restores triggers in order and stops at the first that finds the queue full |
| `ProbeCache.ProbeCache.RequeueTriggers` | internal/agent/cache.go:241-260 | puts back what is not queued as long as there is room, whatever the trigger memory says |
| `ProbeCache.AppliedMeaning` | internal/agent/cache.go:181-204 | an event is taken in if and only if it is a triggered one with both ids whose run is neither queued nor the last one noted for its probe; its run is then noted and, below 256 triggers, its own snapshot queued last |
| `ProbeCache.RequeuedMeaning` | internal/agent/cache.go:241-260 | requeueing only extends the queue, by given triggers with both ids and up to its cap, and queues every such trigger unless the queue is full |
| `ProbeCache.ProbeCache.DrainLimited` | internal/agent/cache.go:287-303 | takes the head of the queue, all of it without a limit |
| `ProbeCache.ProbeCache.TakeDueProbes` | internal/agent/cache.go:344-404 | the collect, sort and greedy loops compute the plan over the due probes in (last run, id) order and mark exactly its selection |
| `ProbeCache.ProbeCache.StaggerUnstarted` | internal/agent/cache.go:406-435 | every unstarted interval probe gets its spread run time and nothing else changes |
| `ProbeCache.OrderIsRanked` | internal/agent/cache.go:382-388 | any list of the due probes in that order is the scheduler's: the order is unique |
| `ProbeCache.DueIsAWindow` | internal/agent/cache.go:309-329 | a probe is not due while inactive, manual, before its start, from its end on, or within an interval of its last run; otherwise it is, and stays so until it runs or ends |
| `ProbeCache.DemandIsGreatest` | internal/agent/cache.go:365-378 | a probe is granted the most checks that it asks for and both caps allow, and at least one |
| `ProbeCache.PlanAccountsForAll` | internal/agent/cache.go:389-403 | granted plus deferred is the total clamped demand, however the probes are ordered |
| `Scheduler.TickBudget` | internal/agent/cache.go:349-404 | a tick's jobs never exceed its budget, granted plus deferred is the whole clamped demand of the due probes, exactly the chosen ones are marked run, and every other due probe is still due |
| `Scheduler.OldestIsChosen` | internal/agent/cache.go:365-393 | the probe that waited longest always fits |
| `Scheduler.NoStarvation` | internal/agent/cache.go:380-388 | a probe with a positive interval that is due at every clock reading of a run of ticks, with k probes ordered before it, is chosen as soon as k + 1 of the ticks have a budget, wherever the clock goes |
| `Scheduler.WaitingIsServed` | internal/agent/cache.go:380-388 | the same for any interval, when every reading is later than the probe's last run |
| `Scheduler.PassedOverMovesUp` | internal/agent/cache.go:389-403 | a tick that passes a waiting probe over takes a probe from ahead of it and puts none there |
| `Scheduler.StandingClockPassesOverExactly` | internal/agent/cache.go:327-388 | the boundary of that: a probe without an interval that just ran is passed over by any number of one-job ticks at the same instant if and only if another probe without an interval and of smaller id is due and has not run later |
| `Scheduler.PositiveIntervalWaits` | internal/agent/cache.go:327-328 | a due probe with a positive interval last ran strictly before now, which is what WaitingIsServed asks |
| `Scheduler.SelectionsAreSpaced` | internal/agent/cache.go:106-125 | while a probe stays assigned with an interval of at least I, two selections are at least I apart through any mix of resyncs and re-staggering |
| `Scheduler.StaggeredStart` | internal/agent/cache.go:409-435 | a fresh interval probe first satisfies its interval at now plus its id's hash modulo min(jitter, interval); every other probe keeps its schedule |
| `Scheduler.StaggerIsIdempotent` | internal/agent/cache.go:409-435 | staggering again moves nothing |
| `Tick.Agent.StartTick` | internal/agent/agent.go:990-1019 | with normalised limits one tick takes the head of the trigger queue, gives scheduled probes the rest of the budget, reports what it deferred, and starts exactly the jobs of the selected probes and the triggers, at most maxJobsPerTick |
| `Tick.Agent.ExecuteTriggers` | internal/agent/agent.go:1153-1183 | the jobs handed over for the triggers: each one's own snapshot, or the cached definition without one, for its clamped number of checks |
| `Tick.TriggerJobsExactly` | internal/agent/agent.go:1153-1183 | the jobs of the triggers are exactly the checks of each trigger's own snapshot, or without one of the cached definition, under its own run id and within the cap |
| `Tick.ProbeJobsExactly` | internal/agent/agent.go:1185-1199 | the jobs of the due probes are exactly the checks that each asks for within the cap |
| `Tick.SlotLimitIsGreatest` | internal/agent/agent.go:990-1019 | the trigger slots of a tick are the most that the trigger limit and the job budget allow, and at least one |
| `Tick.NormalisedIsUsable` | internal/agent/agent.go:220-247 | negative limits are refused, zeros stand for 512, 32 and 16, other values are kept, and the normalised limits satisfy 1 <= perProbe <= perTick and leave a trigger slot |
| `DestGate.SpacedUnlessCrowded` | internal/destgate/destgate.go:112-150 | in every interleaving, two grants to one destination closer than the floor imply that at least 3073 other destinations were granted from the first to the second |
| `DestGate.TableStaysBounded` | internal/destgate/destgate.go:32-37 | in every interleaving the table never exceeds 4096 destinations |
| `DestGate.Gate.EvictOldest` | internal/destgate/destgate.go:46-63 | exactly a quarter goes and nothing that stays is older than anything that went |
| `DestGate.Gate.Attempt` | internal/destgate/destgate.go:121-138 | one locked pass grants exactly when the floor has passed or the destination is unknown, and otherwise changes nothing and says how long to sleep |
| `DestGate.Gate.Wait` | internal/destgate/destgate.go:93-150 | an expired wait records nothing; a granted one records its own instant after only refused passes; without a destination or a floor nothing is recorded |
| `PoolBisect.BadJobsIsolated` | internal/module/pool.go:435-454 | when builds fail bisectably exactly for chunks with a bad job, every good job is measured and every bad one fails |
| `PoolBisect.GoodJobsTestedOnce` | internal/module/pool.go:435-454 | then the jobs tested are exactly the good ones, in order, each once |
| `PoolBisect.FewBuilds` | internal/module/pool.go:435-448 | then b bad jobs among n cost at most 1 + 2 b ceil(log2 n) engine builds |
| `PoolBisect.SameContentExactly` | internal/module/pool.go:226-230 | two options are one job if and only if they agree on everything but the number and the probe |
| `PoolBisect.ShouldBisectExactly` | internal/module/pool.go:371-401 | a failed build of several jobs is bisected unless a program is missing, the deadline passed or the engine never became ready |
| `Pool.PoolChecker.RunEphemeral` | internal/module/pool.go:435-454 | the recursion over the result slice writes each job's index exactly once and gives the verdicts, tests and builds that those results are about |
| `Pool.PoolChecker.CheckBatch` | internal/module/pool.go:122-200 | result i has option i's target and number, is Invalid exactly when its params fail the schema and otherwise has the one verdict of its content; each distinct content is handled once in canonical order; a warm set of contents on healthy engines builds nothing; when only bad contents keep engines from starting every result is what its option would have come to alone, unless a job found no port; and that happens only to a batch with a content not pinned before, when fewer ports in use than the pins of the batch can leave no port to be had |
| `Pool.PoolChecker.ServeSlot` | internal/module/pool.go:291-329 | a slot is reused if and only if its engine is healthy and was built from jobs equal in target, timeout, params, binding and port; otherwise it is rebuilt, bisected or refused, and only this slot changes |
| `Pool.PoolChecker.PinPorts` | internal/module/pool.go:258-285 | pins stay as they are, new ones never share a port with any other, and pinning fails only for a job without a pin when no port is left beside the pins |
| `Pool.PoolChecker.AllocateUniquePort` | internal/module/pool.go:331-342 | the first of at most 256 offers that is not in use; none if and only if an offer fails before that or all 256 are in use |
| `Pool.DistinctOffersLeaveRoom` | internal/module/pool.go:331-342 | a system that never fails to offer a port and does not repeat itself within 256 offers always has a port beside fewer than 256 pins |
| `Pool.FreeRangeLeavesRoom` | internal/module/pool.go:356-369 | so does a range with as many free ports as pins |
| `Pool.PoolChecker.AllocateUniquePortInRange` | internal/module/pool.go:356-369 | the lowest unused free port of the range, and failure exactly when there is none |
| `Pool.PoolChecker.ReleaseStalePins` | internal/module/pool.go:286-290 | exactly the pins of jobs outside the batch go |
| `Pool.PoolChecker.RunSlots` | internal/module/pool.go:168-182 | every job of the canonical list is served by exactly one slot, chunk by chunk, and earlier slots stay warm |
| `Pool.PoolChecker.FanOut` | internal/module/pool.go:184-199 | every duplicate gets the canonical result under its own number |
| `Pool.SameContentsSameKeys` | internal/module/pool.go:133-156 | a batch is the same set of jobs whatever the order, the duplicates and the numbers |
| `Pool.PoolChecker.NormalExactly` | internal/module/pool.go:122-156 | a timeout below the module's own is raised to it and nothing else of an option is touched |
| `Pool.AscendingIsSorted` | internal/module/pool.go:162-166 | a set of keys has only one canonical order |
| `Pool.ChunkedExactly` | internal/module/pool.go:168-182 | the slots' chunks are the canonical list in order, all full but the last and none empty |
| `PoolConfig.BuildConfig` | internal/poolconfig/poolconfig.go:178-223 | the loops compute the join of the jobs' own shares, or abort |
| `PoolConfig.AbortsExactly` | internal/poolconfig/poolconfig.go:184-198 | the whole build aborts if and only if a job that passes the three checks has a null outbound |
| `PoolConfig.NullOutboundTakesOthersAlong` | internal/poolconfig/poolconfig.go:194-196 | a concrete job with a null outbound beside which a sound job loses its config |
| `PoolConfig.TagsAreUnique` | internal/poolconfig/poolconfig.go:194-201 | unless the build aborts, for jobs with distinct non-negative indices all inbound and outbound tags of the merged config are pairwise distinct |
| `PoolConfig.OneInboundAndRuleEach` | internal/poolconfig/poolconfig.go:190-220 | unless the build aborts, each well-formed job contributes exactly one inbound, one of its own moved to its allocated port, and one rule to its own first outbound, and nobody else any |
| `PoolConfig.EveryOutboundIsIn` | internal/poolconfig/poolconfig.go:196-216 | every outbound of every job taken in is in the config under its own tag, and there is no other |
| `PoolConfig.WellFormedExactly` | internal/poolconfig/poolconfig.go:185-193 | a job is taken in if and only if its declared port is a whole number that one of its inbounds has, and it has an outbound |
| `PoolConfig.BuildIsPiecewise` | internal/poolconfig/poolconfig.go:184-221 | the config of a concatenation is the concatenation of the configs, and aborts exactly when one of them does |
| `PoolConfig.MalformedJobsVanish` | internal/poolconfig/poolconfig.go:185-193 | a job that fails one of the three checks changes nothing for the others, not even whether the build aborts |
| `PoolConfig.MuxExactly` | internal/poolconfig/poolconfig.go:204-213 | multiplexing is forced on exactly for a job's first outbound over neither xhttp nor reality |
| `PoolConfig.PreparedSendThrough` | internal/poolconfig/poolconfig.go:151-164 | the source address of every outbound is the node's own unless that is link-local or not set |
| `PoolConfig.PreparedSockopt` | internal/poolconfig/poolconfig.go:134-176 | existing socket options survive and the node's own are added |
| `PoolConfig.PreparedKeepsStream` | internal/poolconfig/poolconfig.go:134-176 | every other stream setting survives |
| `PoolConfig.PreparedKeepsTheRest` | internal/poolconfig/poolconfig.go:199-214 | every other outbound field survives |
| `PoolConfig.RemapInbound` | internal/poolconfig/poolconfig.go:225-243 | finds the first inbound whose port or listen_port is the declared one |
| `JobProbe.Run` | internal/jobprobe/jobprobe.go:259-345 | all first attempts are over by 60% of the budget, the winner answered well within its share and no earlier target did, the 10% floor of the second request never applies, and the run ends by 85% |
| `JobProbe.RunAttempts` | internal/jobprobe/jobprobe.go:288-324 | attempts follow each other without a gap, each within its share, until one is answered, the targets are used up or no share is left |
| `JobProbe.EqualSplitAtLeast` | internal/jobprobe/jobprobe.go:293-300 | every fallback gets at least an equal split of what the primary left, which is at least 15% of the budget |
| `JobProbe.SharesGrow` | internal/jobprobe/jobprobe.go:297-300 | the fallbacks' shares never shrink |
| `JobProbe.ProbeTargets` | internal/jobprobe/jobprobe.go:370-381 | the primary first, then every other non-empty fallback once, in the order given |
| `Spool.EvictedExactly` | internal/agent/spool.go:154-174 | whatever deletions succeed, the batch at any position of the listing is evicted if and only if it can be deleted and the undeletable batches before it, together with it and all behind it, are more than one and exceed the budget |
| `Spool.JustWrittenLostExactly` | internal/agent/spool.go:64-107 | so the batch that enqueue has just written is lost if and only if that holds at the position its name sorts to |
| `Spool.KeptWhileTheClockMovesOn` | internal/agent/spool.go:64-107 | if every batch there was written at an earlier clock reading, the new one is listed last and is lost if and only if it can be deleted, an older one could not be, and what is stuck together with it exceeds the budget |
| `Spool.LostToALaterName` | internal/agent/spool.go:64-107 | if every deletion succeeds, the new batch is lost if and only if a batch of a later name is there and the batches from its own name on exceed the budget |
| `Spool.ClockStepLosesTheNewest` | internal/agent/spool.go:75-103 | a concrete clock step back after which the batch just written is evicted at once |
| `Spool.FailedDeletionLosesTheNewest` | internal/agent/spool.go:154-174 | a concrete failed deletion after which the newest batch is evicted |
| `Spool.NamesFollowTheClock` | internal/agent/spool.go:75 | batch names sort by the clock readings they carry, except that two readings before 1970 sort backwards |
| `Spool.ResultSpool.Enqueue` | internal/agent/spool.go:68-107 | without results nothing happens, a batch that cannot be published changes nothing, and otherwise the batch is in the directory and the directory then pruned |
| `Spool.SurvivorsAreNewest` | internal/agent/spool.go:154-174 | when every deletion succeeds the survivors are the newest batches, never none, within the budget or alone, and no fewer evictions would have done |
| `Spool.ResultSpool.Prune` | internal/agent/spool.go:154-174 | exactly the survivors of the listing stay in the directory, and what was removed is counted |
| `Spool.ResultSpool.Pending` | internal/agent/spool.go:109-130 | lists exactly the readable .json files, by name |
| `Spool.OneListing` | internal/agent/spool.go:128 | there is only one such listing |
| `Spool.DrainSpool` | internal/agent/spool.go:197-246 | a batch leaves the spool only after the server took it or when it cannot be read; a refused one stays, stops the drain and lengthens the wait |
| `ShellQuote.RoundTrip` | internal/agent/agent.go:681-688 | for any values free of NUL (which no argument can carry), reading the joined arguments by sections 2.2.1 and 2.2.2 of the POSIX.1-2017 Shell Command Language gives back one word per argument, the original |
| `ShellQuote.InstallerReadsItsArguments` | internal/agent/agent.go:719-728 | the installer receives exactly the node's own words |
| `ShellQuote.InstallArguments` | internal/agent/agent.go:719-728 | the loop writes that argument list, and the proxy flag for curl reads back as two words |

## Left out

- SQLite, JSON and YAML codecs, HTTP, subprocesses, sockets, file modes, write-ahead logging,
  vacuuming and byte sizes: the live size of the database is an arbitrary function of the row
  counts.
- Corrupt rows and snapshots, parse errors of stored counters, more than one origin per
  database, and failures in the middle of a transaction (a transaction happens or it does not).
- 64-bit overflow of sequence numbers, sums and durations, and times before the year 1970 in
  the comparison with Go's zero time.
- MarkAttempts and the two invalid-value counters of the result summary, which are diagnostic.
- Store.Store.Maintain: the age and the size loops are bounded by a number of rounds instead of
  a wall clock, and the vacuum step is not modelled.
- Rebuild does not restore the last trigger of a probe across a later assignment, so nothing is
  claimed about that column except that it never names a pending trigger.
- AgentRuns.CompletedTriggersStayDone: runs in which the database fails to record an event are
  not part of the state machine; AgentRuns.UnrecordedRunsAgainExactly says what one such event
  does. Startup is taken to restore the queue before the loops begin.
- A conflicting insert leaves the next row id alone, where AUTOINCREMENT may skip one; nothing
  proved depends on row ids being consecutive.
- Without a store the cache remembers one trigger run per probe; nothing is claimed about
  duplicates in that mode.
- ProbeCache.ProbeCache.TakeDueProbes: probes are values in a map, not objects shared with the
  selection; the library sort is an insertion sort, and ids compare by character.
- ProbeCache.ProbeCache.StaggerUnstarted: the id hash (FNV-1a) is a parameter.
- Tick.Agent.ExecuteTriggers: yields the list of jobs; the checks and their results are left out.
- Tick.Agent.StartTick: stops where the checks start; how checks are spread over goroutines and
  how their results are reported is not part of it. The paused tick of a node whose source
  binding is broken is left out.
- DestGate.Gate.Wait: the timer and the context are given as the readings at each attempt and
  whether the context ended first.
- Pool.PoolChecker.CheckBatch: calls do not overlap, as the scheduler guarantees; retiring an
  engine that another call still uses is not modelled, and neither is Close. The content hashes
  are taken to be injective, one call sees one answer per content, and a timed-out test's single
  repetition is part of that answer.
- Pool.PoolChecker.RunSlots: an engine left in a slot beyond a smaller batch stays there, as in
  the source; that its port may be handed out again is not modelled.
- PoolConfig.BuildConfig: starts from decoded jobs; a jobs file that does not decode fails the
  build before it. Maps are values, so the in-place writes into a job's own outbounds are
  not visible afterwards; numbers are integers or not.
- JobProbe.Run: fractions are whole percents, bookkeeping takes no time, and a request ends
  within its own timeout; the report it prints is left out.
- Spool.ResultSpool.Enqueue: the steps before the rename (temporary file, sync) are one answer,
  whether the batch is published; the random suffix, the file's size and which deletions succeed
  are parameters, and a file whose size cannot be asked for is listed by no call.
- The built-in checks, netbind, the API client, module installation, the command line, logging,
  self-update and service recovery are plumbing over the operating system and libraries.
