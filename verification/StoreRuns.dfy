/** The database as a state machine: transactions of the agent, any number of
    maintainers interleaving their statements, the delivery loop, and restarts. */
module StoreRuns {

  import opened Prelude
  import opened Wire
  import opened StoreTables
  import opened StoreReplay
  import opened StoreSteps
  import opened Rollups

  /** Where one Maintain call stands. `upTo` is the largest row id there was at its last,
      empty, chunk read. */
  datatype Phase =
    | Idle
    | AtCursor(after: int)
    | AtChunk(after: int, rows: seq<Row>)
    | Rolled(upTo: int)
    | Pruning(upTo: int, cutoff: int)
    | Pruned(upTo: int, cutoff: int)
    | Collapsing(upTo: int)
    | Sizing(upTo: int)

  /** Where the delivery loop stands: a batch read, or a batch posted and not yet settled. */
  datatype Drain = NotDraining | Batch(rows: seq<Row>) | Posted(outcomes: seq<Outcome>)

  /** `folded`, `dropped` and `posted` are history: the result rows counted into rollups so
      far, how many had been counted when a bucket was last dropped by the size cap, and
      the rows that a successful POST has contained. */
  datatype Sys = Sys(
    t: Tables,
    rollups: map<RollupKey, Agg>,
    cursor: int,
    jobs: map<nat, Phase>,
    drain: Drain,
    clock: int,
    folded: seq<Row>,
    dropped: map<RollupKey, nat>,
    posted: set<int>)

  const Start := Sys(Empty, map[], 0, map[], NotDraining, 0, [], map[], {})

  datatype Op =
    | Assign(hash: string, probes: seq<Snapshot>)
    | Heartbeat(event: Event)
    | Complete(keys: seq<TriggerKey>)
    | Record(results: seq<Result>)
    | MarkRun(ids: set<string>, at: int)
    | RebuildAll

  datatype Step =
    | Tick(to: int)
    | Transaction(op: Op)
    | ReadCursor(job: nat)
    | ReadChunk(job: nat)
    | CommitChunk(job: nat)
    | StartRetention(job: nat, retention: nat)
    | SkipRetention(job: nat)
    | PruneAge(job: nat)
    | PruneDone(job: nat)
    | CollapseOld(job: nat)
    | PruneSize(job: nat, oldest: set<RollupKey>)
    | Stop(job: nat)
    | ReadPending
    | Post(acks: seq<Ack>)
    | PostFailed
    | Settle
    | Restart

  function PhaseOf(s: Sys, job: nat): Phase {
    if job in s.jobs then s.jobs[job] else Idle
  }

  function At(s: Sys, job: nat, phase: Phase): Sys {
    s.(jobs := s.jobs[job := phase])
  }

  function Run(t: Tables, op: Op, now: int): Tables {
    match op
    case Assign(hash, probes) => SaveAssignment(t, hash, probes, now)
    case Heartbeat(event) => RecordTrigger(t, event, now)
    case Complete(keys) => CompleteTriggers(t, keys, now)
    case Record(results) => RecordResults(t, results, now).0
    case MarkRun(ids, at) => MarkProbesRun(t, ids, at)
    case RebuildAll => Rebuild(t)
  }

  // ---- The statements of one Maintain call ----

  function ReadChunkStep(s: Sys, job: nat): Sys {
    var phase := PhaseOf(s, job);
    if !phase.AtCursor? then s
    else
      var rows := Chunk(s.t.journal, phase.after, ROLLUP_CHUNK);
      At(s, job, if rows == [] then Rolled(s.t.lastRow) else AtChunk(phase.after, rows))
  }

  /** writeRollups: nothing is written when the cursor has moved since it was read; the
      caller then reads it again or gives up, which is back to Idle. */
  function CommitStep(s: Sys, job: nat): Sys {
    var phase := PhaseOf(s, job);
    if !phase.AtChunk? || !AllResults(phase.rows) || phase.rows == [] then s
    else if s.cursor != phase.after then At(s, job, Idle)
    else
      var last := phase.rows[|phase.rows| - 1].rowId;
      At(s, job, AtCursor(last))
      .(rollups := Upsert(s.rollups, Aggregate(phase.rows)), cursor := last, folded := s.folded + phase.rows)
  }

  function PruneAgeStep(s: Sys, job: nat): Sys {
    var phase := PhaseOf(s, job);
    if !phase.Pruning? then s
    else
      var t := Prune(s.t, Some(phase.cutoff));
      var affected := |s.t.journal| - |t.journal|;
      At(s, job, if affected < PRUNE_CHUNK then Pruned(phase.upTo, phase.cutoff) else phase).(t := t)
  }

  function PruneDoneStep(s: Sys, job: nat): Sys {
    var phase := PhaseOf(s, job);
    if !phase.Pruned? then s
    else At(s, job, Collapsing(phase.upTo)).(t := PruneCompleted(s.t, phase.cutoff))
  }

  function CollapseStep(s: Sys, job: nat): Sys {
    var phase := PhaseOf(s, job);
    if !phase.Collapsing? then s
    else At(s, job, Sizing(phase.upTo)).(t := Collapse(s.t))
  }

  /** Over the size cap: a chunk of prunable rows goes; when there is none, so do the
      oldest rollups. */
  function PruneSizeStep(s: Sys, job: nat, oldest: set<RollupKey>): Sys {
    var phase := PhaseOf(s, job);
    if !phase.Sizing? then s
    else
      var t := Prune(s.t, None);
      if |t.journal| < |s.t.journal| || |oldest| > PRUNE_CHUNK then s.(t := t)
      else s.(t := t, rollups := s.rollups - oldest, dropped := s.dropped + map k | k in oldest :: |s.folded|)
  }

  // ---- Delivery ----

  function AckOf(acks: seq<Ack>, key: ResultKey): Option<Ack> {
    if acks == [] then None
    else
      var last := acks[|acks| - 1];
      if last.runId == key.runId && last.checkSeq == key.checkSeq then Some(last) else AckOf(acks[..|acks| - 1], key)
  }

  /** outcomesFor: a result that the server did not name counts as accepted. */
  function OutcomeFor(row: Row, acks: seq<Ack>): Outcome {
    if !row.ResultRow? then Outcome(row.rowId, true)
    else
      var ack := AckOf(acks, row.result);
      Outcome(row.rowId, ack.None? || ack.value.accepted)
  }

  function OutcomesFor(rows: seq<Row>, acks: seq<Ack>): seq<Outcome> {
    seq(|rows|, i requires 0 <= i < |rows| => OutcomeFor(rows[i], acks))
  }

  function RowIds(rows: seq<Row>): set<int> {
    set r | r in rows :: r.rowId
  }

  const DELIVERY_BATCH := 500

  // ---- One step, and whole runs ----

  function Next(s: Sys, step: Step): Sys {
    match step
    case Tick(to) => if to >= s.clock then s.(clock := to) else s
    case Transaction(op) => s.(t := Run(s.t, op, s.clock))
    case ReadCursor(job) => if PhaseOf(s, job).Idle? then At(s, job, AtCursor(s.cursor)) else s
    case ReadChunk(job) => ReadChunkStep(s, job)
    case CommitChunk(job) => CommitStep(s, job)
    case StartRetention(job, retention) =>
      if PhaseOf(s, job).Rolled? && retention > 0 then At(s, job, Pruning(PhaseOf(s, job).upTo, s.clock - retention)) else s
    case SkipRetention(job) => if PhaseOf(s, job).Rolled? then At(s, job, Collapsing(PhaseOf(s, job).upTo)) else s
    case PruneAge(job) => PruneAgeStep(s, job)
    case PruneDone(job) => PruneDoneStep(s, job)
    case CollapseOld(job) => CollapseStep(s, job)
    case PruneSize(job, oldest) => PruneSizeStep(s, job, oldest)
    case Stop(job) => At(s, job, Idle)
    case ReadPending =>
      var rows := PendingResults(s.t.journal, DELIVERY_BATCH);
      if s.drain.NotDraining? && rows != [] then s.(drain := Batch(rows)) else s
    case Post(acks) =>
      if s.drain.Batch? then s.(drain := Posted(OutcomesFor(s.drain.rows, acks)), posted := s.posted + RowIds(s.drain.rows)) else s
    case PostFailed => if s.drain.Batch? then s.(drain := NotDraining) else s
    case Settle =>
      if s.drain.Posted? then s.(t := MarkOutcomes(s.t, s.drain.outcomes), drain := NotDraining) else s
    case Restart => s.(jobs := map[], drain := NotDraining)
  }

  function Exec(s: Sys, steps: seq<Step>): Sys {
    if steps == [] then s else Next(Exec(s, steps[..|steps| - 1]), steps[|steps| - 1])
  }

  // ---- Safety of replay, in every reachable state ----

  /** A maintainer that has finished deleting journal rows older than its cutoff has left no
      completion row that old, and none appears later. */
  ghost predicate CutoffsKept(s: Sys) {
    forall j | j in s.jobs ::
      match s.jobs[j]
      case Pruning(_, cutoff) => cutoff <= s.clock
      case Pruned(_, cutoff) => cutoff <= s.clock && forall d | d in s.t.journal && d.DoneRow? :: d.atMs >= cutoff
      case _ => true
  }

  ghost predicate Safe(s: Sys) {
    Inv(s.t, s.clock) && CutoffsKept(s)
  }

  /** What a transaction may do to completion rows: add some, stamped with the present time. */
  ghost predicate NewCompletionsAreNow(a: seq<Row>, b: seq<Row>, now: int) {
    forall d | d in b && d.DoneRow? && d !in a :: d.atMs == now
  }

  lemma {:induction false} CompletionsAreNow(t: Tables, keys: seq<TriggerKey>, now: int)
    ensures NewCompletionsAreNow(t.journal, CompleteTriggers(t, keys, now).journal, now)
    decreases |keys|
  {
    if keys != [] { CompletionsAreNow(t, keys[..|keys| - 1], now); }
  }

  lemma RunUnfolds(t: Tables, op: Op, now: int)
    ensures op.Assign? ==> Run(t, op, now) == SaveAssignment(t, op.hash, op.probes, now)
    ensures op.Heartbeat? ==> Run(t, op, now) == RecordTrigger(t, op.event, now)
    ensures op.Complete? ==> Run(t, op, now) == CompleteTriggers(t, op.keys, now)
    ensures op.Record? ==> Run(t, op, now) == RecordResults(t, op.results, now).0
    ensures op.MarkRun? ==> Run(t, op, now) == MarkProbesRun(t, op.ids, op.at)
    ensures op.RebuildAll? ==> Run(t, op, now) == Rebuild(t)
  {
  }

  lemma OpKeeps(t: Tables, op: Op, now: int)
    requires Inv(t, now)
    ensures Inv(Run(t, op, now), now) && NewCompletionsAreNow(t.journal, Run(t, op, now).journal, now)
  {
    RunUnfolds(t, op, now);
    OpKeepsInv(t, op, now);
    OpStampsNow(t, op, now);
  }

  lemma OpKeepsInv(t: Tables, op: Op, now: int)
    requires Structure(t)
    ensures Kept(t, Run(t, op, now), now)
  {
    RunUnfolds(t, op, now);
    match op
    case Assign(hash, probes) => SaveAssignmentKeeps(t, hash, probes, now);
    case Heartbeat(event) => RecordTriggerKeeps(t, event, now);
    case Complete(keys) => CompleteTriggersKeeps(t, keys, now);
    case Record(results) => RecordResultsKeeps(t, results, now, now);
    case MarkRun(ids, at) => MarkProbesRunKeeps(t, ids, at, now);
    case RebuildAll => RebuildKeeps(t, now);
  }

  lemma OpStampsNow(t: Tables, op: Op, now: int)
    requires WellOrdered(t)
    ensures NewCompletionsAreNow(t.journal, Run(t, op, now).journal, now)
  {
    match op
    case Assign(_, _) =>
    case Heartbeat(_) =>
    case Complete(keys) => CompletionsAreNow(t, keys, now);
    case Record(results) => InsertedResults(Reserve(t, |results|), results, FirstFree(t), now);
    case MarkRun(_, _) =>
    case RebuildAll => ReplayKeepsJournal(t, t.journal);
  }

  lemma TransactionSafe(s: Sys, op: Op)
    requires Safe(s)
    ensures Safe(Next(s, Transaction(op)))
  {
    OpKeeps(s.t, op, s.clock);
  }

  lemma PruneSubset(t: Tables, cutoff: Option<int>)
    requires WellOrdered(t)
    ensures forall r | r in Prune(t, cutoff).journal :: r in t.journal
    ensures |t.journal| - |Prune(t, cutoff).journal| < PRUNE_CHUNK ==>
              forall r | r in Prune(t, cutoff).journal :: !Prunable(r, EventSeqs(t.pending), cutoff)
  {
    var last := DeletedUpTo(t.journal, EventSeqs(t.pending), cutoff, PRUNE_CHUNK);
  }

  lemma PruneAgeSafe(s: Sys, job: nat)
    requires Safe(s)
    ensures Safe(PruneAgeStep(s, job))
  {
    var phase := PhaseOf(s, job);
    if phase.Pruning? {
      var u := Prune(s.t, Some(phase.cutoff));
      PruneKeeps(s.t, Some(phase.cutoff), PRUNE_CHUNK, s.clock);
      PruneSubset(s.t, Some(phase.cutoff));
      if |s.t.journal| - |u.journal| < PRUNE_CHUNK {
        forall d | d in u.journal && d.DoneRow? ensures d.atMs >= phase.cutoff { HeldRows(s.t, d); }
      }
    }
  }

  lemma PruneDoneSafe(s: Sys, job: nat)
    requires Safe(s)
    ensures Safe(PruneDoneStep(s, job))
  {
    if PhaseOf(s, job).Pruned? {
      PruneCompletedKeeps(s.t, PhaseOf(s, job).cutoff, s.clock);
    }
  }

  lemma CollapseSafe(s: Sys, job: nat)
    requires Safe(s)
    ensures Safe(CollapseStep(s, job))
  {
    if PhaseOf(s, job).Collapsing? {
      CollapseKeeps(s.t, s.clock);
      KeptRows(s.t.journal, s.t.journal);
    }
  }

  lemma PruneSizeSafe(s: Sys, job: nat, oldest: set<RollupKey>)
    requires Safe(s)
    ensures Safe(PruneSizeStep(s, job, oldest))
  {
    PruneKeeps(s.t, None, PRUNE_CHUNK, s.clock);
    PruneSubset(s.t, None);
  }

  function AfterSettle(s: Sys): Sys
    requires s.drain.Posted?
  {
    s.(t := MarkOutcomes(s.t, s.drain.outcomes), drain := NotDraining)
  }

  lemma NextSettles(s: Sys)
    ensures Next(s, Settle) == if s.drain.Posted? then AfterSettle(s) else s
  {
  }

  lemma AfterSettleSafe(s: Sys)
    requires Safe(s) && s.drain.Posted?
    ensures Safe(AfterSettle(s))
  {
    MarkOutcomesKeeps(s.t, s.drain.outcomes, s.clock);
    KeptIsInv(s.t, AfterSettle(s).t, s.clock);
    SettleCutoffs(s);
  }

  lemma SettleSafe(s: Sys)
    requires Safe(s)
    ensures Safe(Next(s, Settle))
  {
    NextSettles(s);
    if s.drain.Posted? { AfterSettleSafe(s); }
  }

  lemma KeptIsInv(t: Tables, u: Tables, now: int)
    requires Clocked(t, now) && Kept(t, u, now)
    ensures Inv(u, now)
  {
  }

  lemma SettleCutoffs(s: Sys)
    requires WellOrdered(s.t) && CutoffsKept(s) && s.drain.Posted?
    ensures CutoffsKept(AfterSettle(s))
  {
    MarkOutcomesControl(s.t, s.drain.outcomes);
    SameCompletionsSameCutoffs(s, AfterSettle(s));
  }

  lemma SameCompletionsSameCutoffs(s: Sys, u: Sys)
    requires CutoffsKept(s) && u.jobs == s.jobs && u.clock == s.clock
    requires forall d | d in u.t.journal && d.DoneRow? :: d in s.t.journal
    ensures CutoffsKept(u)
  {
  }

  lemma MarkOutcomesControl(t: Tables, outcomes: seq<Outcome>)
    requires WellOrdered(t)
    ensures SameControl(t.journal, MarkOutcomes(t, outcomes).journal)
  {
    SettledRows(t, outcomes);
    SettledJournal(t, MarkOutcomes(t, outcomes));
  }

  /** Steps that change no table. */
  predicate Quiet(step: Step) {
    !(step.Transaction? || step.PruneAge? || step.PruneDone? || step.CollapseOld? || step.PruneSize? || step.Settle?)
  }

  lemma QuietTables(s: Sys, step: Step)
    requires Quiet(step)
    ensures Next(s, step).t == s.t && Next(s, step).clock >= s.clock
  {
  }

  lemma QuietCutoffs(s: Sys, step: Step)
    requires Quiet(step) && CutoffsKept(s)
    ensures CutoffsKept(Next(s, step))
  {
    QuietTables(s, step);
    var u := Next(s, step);
    forall j | j in u.jobs
      ensures match u.jobs[j]
              case Pruning(_, cutoff) => cutoff <= u.clock
              case Pruned(_, cutoff) => cutoff <= u.clock && forall d | d in u.t.journal && d.DoneRow? :: d.atMs >= cutoff
              case _ => true
    {
      assert (j in s.jobs && u.jobs[j] == s.jobs[j]) || u.jobs[j].Pruning? || !u.jobs[j].Pruned?;
    }
  }

  lemma StepSafe(s: Sys, step: Step)
    requires Safe(s)
    ensures Safe(Next(s, step))
  {
    if Quiet(step) {
      QuietTables(s, step);
      QuietCutoffs(s, step);
    } else {
      match step
      case Transaction(op) => TransactionSafe(s, op);
      case PruneAge(job) => PruneAgeSafe(s, job);
      case PruneDone(job) => PruneDoneSafe(s, job);
      case CollapseOld(job) => CollapseSafe(s, job);
      case PruneSize(job, oldest) => PruneSizeSafe(s, job, oldest);
      case Settle => SettleSafe(s);
    }
  }

  lemma {:induction false} RunSafe(steps: seq<Step>)
    ensures Safe(Exec(Start, steps))
    decreases |steps|
  {
    if steps == [] {
      InitInv(0);
    } else {
      RunSafe(steps[..|steps| - 1]);
      StepSafe(Exec(Start, steps[..|steps| - 1]), steps[|steps| - 1]);
    }
  }

  /** Whatever the agent, the maintainers and the restarts did, in whatever order, and however
      much was pruned: replaying the journal that is left gives exactly the live queue, the
      live definitions and the live hash, and no completion that is not live. */
  lemma RunsReplayFaithfully(steps: seq<Step>)
    ensures Faithful(Exec(Start, steps).t)
  {
    RunSafe(steps);
    StructureIsFaithful(Exec(Start, steps).t);
  }

  /** A key with a completion record is never queued, live or rebuilt. */
  lemma CompletedNeverQueued(steps: seq<Step>, k: TriggerKey)
    ensures var t := Exec(Start, steps).t;
            k in t.completed ==> k !in t.pending && k !in Rebuild(t).pending
  {
    RunSafe(steps);
    StructureIsFaithful(Exec(Start, steps).t);
  }
}
