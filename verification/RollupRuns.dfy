/** Rollups over whole runs: every result row is counted once, by whichever maintainer. */
module RollupRuns {

  import opened Prelude
  import opened Wire
  import opened StoreTables
  import opened StoreReplay
  import opened StoreSteps
  import opened Rollups
  import opened StoreRuns

  /** The same result, delivered or not. */
  predicate SameResult(a: Row, b: Row) {
    a.ResultRow? && b.ResultRow? && a.(delivery := Pending) == b.(delivery := Pending)
  }

  ghost predicate Covered(rows: seq<Row>, r: Row) {
    exists f :: f in rows && SameResult(f, r)
  }

  /** How many folded rows precede the last time the size cap dropped this bucket. */
  function Base(s: Sys, k: RollupKey): nat {
    if k in s.dropped then s.dropped[k] else 0
  }

  /** A chunk in hand: as long as the cursor stands where it was read, the chunk has every
      result row between the cursor and its own last row. */
  ghost predicate ChunkInHand(s: Sys, after: int, rows: seq<Row>) {
    && rows != [] && AllResults(rows) && Ordered(rows) && after <= s.cursor
    && (forall r | r in rows :: after < r.rowId <= s.t.lastRow)
    && (s.cursor == after ==>
          forall r | r in s.t.journal && r.ResultRow? && after < r.rowId <= rows[|rows| - 1].rowId :: Covered(rows, r))
  }

  /** Every result row up to `upTo` lies behind the cursor. */
  ghost predicate Passed(s: Sys, upTo: int) {
    upTo <= s.t.lastRow && forall r | r in s.t.journal && r.ResultRow? && r.rowId <= upTo :: r.rowId <= s.cursor
  }

  ghost predicate JobCounts(s: Sys, phase: Phase) {
    match phase
    case Idle => true
    case AtCursor(after) => after <= s.cursor
    case AtChunk(after, rows) => ChunkInHand(s, after, rows)
    case Rolled(upTo) => Passed(s, upTo)
    case Pruning(upTo, _) => Passed(s, upTo)
    case Pruned(upTo, _) => Passed(s, upTo)
    case Collapsing(upTo) => Passed(s, upTo)
    case Sizing(upTo) => Passed(s, upTo)
  }

  ghost predicate FoldedOnce(s: Sys) {
    && WellOrdered(s.t) && 0 <= s.cursor <= s.t.lastRow
    && AllResults(s.folded) && Ordered(s.folded)
    && (forall f | f in s.folded :: f.rowId <= s.cursor)
    && (forall r | r in s.t.journal && r.ResultRow? && r.rowId <= s.cursor :: Covered(s.folded, r))
  }

  ghost predicate BucketsExact(s: Sys)
    requires AllResults(s.folded)
  {
    forall k :: Base(s, k) <= |s.folded| && Counts(s.rollups, s.folded[Base(s, k)..], k)
  }

  ghost predicate Counted(s: Sys) {
    FoldedOnce(s) && BucketsExact(s) && forall j | j in s.jobs :: JobCounts(s, s.jobs[j])
  }

  // ---- How tables change under the steps that are not rollup steps ----

  /** Result rows are kept as they were, settled, deleted, or new at the end. */
  ghost predicate Evolves(t: Tables, u: Tables) {
    && WellOrdered(u) && u.lastRow >= t.lastRow
    && forall r | r in u.journal && r.ResultRow? :: r.rowId > t.lastRow || Covered(t.journal, r)
  }

  lemma {:induction false} CompletionsEvolve(t: Tables, keys: seq<TriggerKey>, now: int)
    requires WellOrdered(t)
    ensures var u := CompleteTriggers(t, keys, now);
            && WellOrdered(u) && u.lastRow >= t.lastRow
            && forall r: Row | r.ResultRow? :: r in u.journal <==> r in t.journal
    decreases |keys|
  {
    if keys != [] {
      var before, key := CompleteTriggers(t, keys[..|keys| - 1], now), keys[|keys| - 1];
      CompletionsEvolve(t, keys[..|keys| - 1], now);
      Appended(Reserve(before, 1), DoneRow(before.lastRow + 1, FirstFree(before), now, key));
    }
  }

  lemma {:induction false} InsertsEvolve(t: Tables, results: seq<Result>, start: int, now: int)
    requires WellOrdered(t)
    ensures var u := InsertResults(t, results, start, now).0;
            && WellOrdered(u) && u.lastRow >= t.lastRow
            && (forall r | r in t.journal :: r in u.journal)
            && forall r | r in u.journal && r !in t.journal :: r.rowId > t.lastRow && IsPending(r)
    decreases |results|
  {
    if results != [] {
      var n := |results| - 1;
      InsertsEvolve(t, results[..n], start, now);
      var (before, s) := InsertResults(t, results[..n], start, now);
      var u := InsertResults(t, results, start, now).0;
      assert u == InsertResult(before, s, results[n], start + n, now).0;
      if u != before { Appended(before, u.journal[|u.journal| - 1]); }
    }
  }

  /** No transaction of the agent deletes or changes a result row; new ones are pending. */
  lemma OpKeepsResults(t: Tables, op: Op, now: int)
    requires WellOrdered(t)
    ensures var u := Run(t, op, now);
            && WellOrdered(u) && u.lastRow >= t.lastRow
            && (forall r | r in t.journal && r.ResultRow? :: r in u.journal)
            && forall r | r in u.journal && r.ResultRow? && r !in t.journal :: r.rowId > t.lastRow && IsPending(r)
  {
    match op
    case Assign(hash, probes) =>
      if hash != "" && DistinctIds(probes) {
        Appended(Reserve(t, 1), AssignmentRow(t.lastRow + 1, FirstFree(t), now, hash, probes));
      }
    case Heartbeat(event) =>
      if Records(t, event) {
        Appended(Reserve(t, 1), TriggerRow(t.lastRow + 1, FirstFree(t), now, KeyOf(event), event.probe));
      }
    case Complete(keys) => CompletionsEvolve(t, keys, now);
    case Record(results) => InsertsEvolve(Reserve(t, |results|), results, FirstFree(t), now);
    case MarkRun(ids, at) =>
    case RebuildAll => ReplayKeepsJournal(t, t.journal);
  }

  lemma SettlingEvolves(t: Tables, outcomes: seq<Outcome>)
    requires WellOrdered(t)
    ensures Evolves(t, MarkOutcomes(t, outcomes))
  {
    var u := MarkOutcomes(t, outcomes);
    SettledRows(t, outcomes);
    SettledJournal(t, u);
    forall r | r in u.journal && r.ResultRow? ensures Covered(t.journal, r) {
      var i :| 0 <= i < |u.journal| && u.journal[i] == r;
      assert t.journal[i] in t.journal && SameResult(t.journal[i], r);
    }
  }

  lemma OpEvolves(t: Tables, op: Op, now: int)
    requires WellOrdered(t)
    ensures Evolves(t, Run(t, op, now))
  {
    OpKeepsResults(t, op, now);
    forall r | r in t.journal && r.ResultRow? ensures Covered(t.journal, r) { assert SameResult(r, r); }
  }

  lemma DeletingEvolves(t: Tables, u: Tables)
    requires WellOrdered(t) && u.lastRow == t.lastRow && Ordered(u.journal)
    requires forall r | r in u.journal :: r in t.journal
    ensures Evolves(t, u)
  {
  }

  lemma CoveredThrough(a: seq<Row>, b: seq<Row>, r: Row)
    requires Covered(a, r) && forall q | q in a && SameResult(q, r) :: Covered(b, q)
    ensures Covered(b, r)
  {
  }

  /** A table change of that kind disturbs neither the counts nor any maintainer. */
  lemma TablesMoveOn(s: Sys, u: Tables)
    requires FoldedOnce(s) && Evolves(s.t, u)
    ensures FoldedOnce(s.(t := u))
  {
  }

  lemma JobMovesOn(s: Sys, u: Tables, phase: Phase)
    requires FoldedOnce(s) && Evolves(s.t, u) && JobCounts(s, phase)
    ensures JobCounts(s.(t := u), phase)
  {
    if phase.AtChunk? && s.cursor == phase.after {
      var last := phase.rows[|phase.rows| - 1];
      assert last in phase.rows;
      forall r | r in u.journal && r.ResultRow? && phase.after < r.rowId <= last.rowId ensures Covered(phase.rows, r) {
        CoveredThrough(s.t.journal, phase.rows, r);
      }
    }
  }

  lemma TablesStepCounted(s: Sys, u: Tables)
    requires Counted(s) && Evolves(s.t, u)
    ensures Counted(s.(t := u))
  {
    TablesMoveOn(s, u);
    forall j | j in s.jobs ensures JobCounts(s.(t := u), s.jobs[j]) { JobMovesOn(s, u, s.jobs[j]); }
    assert forall k :: Base(s.(t := u), k) == Base(s, k);
  }

  // ---- The rollup steps themselves ----

  lemma {:induction false} ChunkSelects(journal: seq<Row>, after: int, limit: nat)
    requires Ordered(journal)
    ensures var rows := Chunk(journal, after, limit);
            && Ordered(rows)
            && (forall r | r in rows :: r in journal && r.rowId > after)
    decreases |journal|
  {
    if journal != [] && limit > 0 {
      var head, tail := journal[0], journal[1..];
      assert journal == [head] + tail;
      if head.ResultRow? && head.rowId > after {
        ChunkSelects(tail, after, limit - 1);
        var rest := Chunk(tail, after, limit - 1);
        assert forall i | 0 <= i < |rest| :: rest[i] in rest;
      } else {
        ChunkSelects(tail, after, limit);
      }
    }
  }

  /** A chunk misses no result row below its last one; an empty chunk misses none at all. */
  lemma {:induction false} ChunkMisses(journal: seq<Row>, after: int, limit: nat, r: Row)
    requires Ordered(journal) && r in journal && r.ResultRow? && r.rowId > after
    ensures var rows := Chunk(journal, after, limit);
            r in rows || limit == 0 || (rows != [] && r.rowId > rows[|rows| - 1].rowId)
    decreases |journal|
  {
    if limit > 0 {
      var head, tail := journal[0], journal[1..];
      assert journal == [head] + tail;
      if head.ResultRow? && head.rowId > after {
        if r != head {
          ChunkMisses(tail, after, limit - 1, r);
          var rest := Chunk(tail, after, limit - 1);
          assert Chunk(journal, after, limit) == [head] + rest;
          assert tail[0] in tail;
        }
      } else {
        ChunkMisses(tail, after, limit, r);
      }
    }
  }

  lemma ReadChunkCounted(s: Sys, job: nat)
    requires Counted(s)
    ensures Counted(ReadChunkStep(s, job))
  {
    var phase := PhaseOf(s, job);
    if phase.AtCursor? {
      var u := ReadChunkStep(s, job);
      var rows := Chunk(s.t.journal, phase.after, ROLLUP_CHUNK);
      ChunkSelects(s.t.journal, phase.after, ROLLUP_CHUNK);
      forall r | r in s.t.journal && r.ResultRow? && r.rowId > phase.after
        ensures r in rows || (rows != [] && r.rowId > rows[|rows| - 1].rowId)
      {
        ChunkMisses(s.t.journal, phase.after, ROLLUP_CHUNK, r);
      }
      if rows == [] {
        assert Passed(u, s.t.lastRow);
      } else {
        assert rows[|rows| - 1] in rows;
        forall r | r in s.t.journal && r.ResultRow? && phase.after < r.rowId <= rows[|rows| - 1].rowId
          ensures Covered(rows, r)
        {
          assert r in rows && SameResult(r, r);
        }
        assert ChunkInHand(u, phase.after, rows);
      }
      OthersCounted(s, u, job);
    }
  }

  /** A step that only moves one maintainer. */
  lemma OthersCounted(s: Sys, u: Sys, job: nat)
    requires Counted(s) && u == s.(jobs := u.jobs)
    requires forall j | j in u.jobs && j != job :: j in s.jobs && u.jobs[j] == s.jobs[j]
    requires job in u.jobs ==> JobCounts(u, u.jobs[job])
    ensures Counted(u)
  {
    assert forall k :: Base(u, k) == Base(s, k);
    forall j | j in u.jobs ensures JobCounts(u, u.jobs[j]) {
      if j != job { assert JobCounts(s, s.jobs[j]); }
    }
  }

  lemma CommitFolds(s: Sys, job: nat)
    requires Counted(s) && PhaseOf(s, job).AtChunk? && s.cursor == PhaseOf(s, job).after
    ensures FoldedOnce(CommitStep(s, job))
  {
    var rows := PhaseOf(s, job).rows;
    var u := CommitStep(s, job);
    assert ChunkInHand(s, s.cursor, rows);
    assert rows[|rows| - 1] in rows;
    assert forall r | r in rows :: r.rowId <= rows[|rows| - 1].rowId;
    forall i, j | 0 <= i < j < |u.folded| ensures u.folded[i].rowId < u.folded[j].rowId {
      if i < |s.folded| <= j {
        assert s.folded[i] in s.folded && rows[j - |s.folded|] in rows;
      }
    }
    forall r | r in u.t.journal && r.ResultRow? && r.rowId <= u.cursor ensures Covered(u.folded, r) {
      if r.rowId <= s.cursor {
        var f :| f in s.folded && SameResult(f, r);
        assert f in u.folded;
      } else {
        var f :| f in rows && SameResult(f, r);
        assert f in u.folded;
      }
    }
  }

  lemma CommitExact(s: Sys, job: nat)
    requires Counted(s) && PhaseOf(s, job).AtChunk? && s.cursor == PhaseOf(s, job).after
    ensures AllResults(CommitStep(s, job).folded) && BucketsExact(CommitStep(s, job))
  {
    var rows := PhaseOf(s, job).rows;
    var u := CommitStep(s, job);
    assert ChunkInHand(s, s.cursor, rows);
    forall k ensures Base(u, k) <= |u.folded| && Counts(u.rollups, u.folded[Base(u, k)..], k) {
      assert Counts(s.rollups, s.folded[Base(s, k)..], k);
      AggregateAt(rows, k);
      UpsertCounts(s.rollups, s.folded[Base(s, k)..], rows, Aggregate(rows), k);
      assert u.folded[Base(u, k)..] == s.folded[Base(s, k)..] + rows;
    }
  }

  lemma CommitJobs(s: Sys, job: nat, j: nat)
    requires Counted(s) && PhaseOf(s, job).AtChunk? && s.cursor == PhaseOf(s, job).after
    requires j in CommitStep(s, job).jobs
    ensures JobCounts(CommitStep(s, job), CommitStep(s, job).jobs[j])
  {
    var rows := PhaseOf(s, job).rows;
    var u := CommitStep(s, job);
    assert ChunkInHand(s, s.cursor, rows);
    assert rows[|rows| - 1] in rows;
    assert u.cursor > s.cursor;
    if j != job { assert JobCounts(s, s.jobs[j]); }
  }

  lemma CommitCounted(s: Sys, job: nat)
    requires Counted(s)
    ensures Counted(CommitStep(s, job))
    ensures CommitStep(s, job).cursor >= s.cursor
  {
    var phase := PhaseOf(s, job);
    if phase.AtChunk? {
      assert ChunkInHand(s, phase.after, phase.rows);
      if s.cursor == phase.after {
        CommitFolds(s, job);
        CommitExact(s, job);
        forall j | j in CommitStep(s, job).jobs ensures JobCounts(CommitStep(s, job), CommitStep(s, job).jobs[j]) {
          CommitJobs(s, job, j);
        }
        assert phase.rows[|phase.rows| - 1] in phase.rows;
      } else {
        OthersCounted(s, CommitStep(s, job), job);
      }
    }
  }

  lemma DropCounted(s: Sys, oldest: set<RollupKey>)
    requires Counted(s)
    ensures Counted(s.(rollups := s.rollups - oldest, dropped := s.dropped + map k | k in oldest :: |s.folded|))
  {
    var u := s.(rollups := s.rollups - oldest, dropped := s.dropped + map k | k in oldest :: |s.folded|);
    forall k ensures Base(u, k) <= |u.folded| && Counts(u.rollups, u.folded[Base(u, k)..], k) {
      assert Counts(s.rollups, s.folded[Base(s, k)..], k);
      if k in oldest {
        assert u.folded[Base(u, k)..] == [];
        assert !Touches(u.folded[Base(u, k)..], k);
      } else {
        assert Base(u, k) == Base(s, k);
      }
    }
    forall j | j in u.jobs ensures JobCounts(u, u.jobs[j]) { assert JobCounts(s, s.jobs[j]); }
  }

  lemma PruneEvolves(t: Tables, cutoff: Option<int>)
    requires WellOrdered(t)
    ensures Evolves(t, Prune(t, cutoff))
  {
    var last := DeletedUpTo(t.journal, EventSeqs(t.pending), cutoff, PRUNE_CHUNK);
    DeletingEvolves(t, Prune(t, cutoff));
  }

  lemma PruneAgeCounted(s: Sys, job: nat)
    requires Counted(s)
    ensures Counted(PruneAgeStep(s, job)) && PruneAgeStep(s, job).cursor == s.cursor
  {
    var phase := PhaseOf(s, job);
    if phase.Pruning? {
      var u := s.(t := Prune(s.t, Some(phase.cutoff)));
      PruneEvolves(s.t, Some(phase.cutoff));
      TablesStepCounted(s, u.t);
      OthersCounted(u, PruneAgeStep(s, job), job);
    }
  }

  lemma PruneDoneCounted(s: Sys, job: nat)
    requires Counted(s)
    ensures Counted(PruneDoneStep(s, job)) && PruneDoneStep(s, job).cursor == s.cursor
  {
    var phase := PhaseOf(s, job);
    if phase.Pruned? {
      var u := s.(t := PruneCompleted(s.t, phase.cutoff));
      DeletingEvolves(s.t, u.t);
      TablesStepCounted(s, u.t);
      OthersCounted(u, PruneDoneStep(s, job), job);
    }
  }

  lemma CollapseCounted(s: Sys, job: nat)
    requires Counted(s)
    ensures Counted(CollapseStep(s, job)) && CollapseStep(s, job).cursor == s.cursor
  {
    var phase := PhaseOf(s, job);
    if phase.Collapsing? {
      var u := s.(t := Collapse(s.t));
      KeptRows(s.t.journal, s.t.journal);
      DeletingEvolves(s.t, u.t);
      TablesStepCounted(s, u.t);
      OthersCounted(u, CollapseStep(s, job), job);
    }
  }

  lemma PruneSizeCounted(s: Sys, job: nat, oldest: set<RollupKey>)
    requires Counted(s)
    ensures Counted(PruneSizeStep(s, job, oldest)) && PruneSizeStep(s, job, oldest).cursor == s.cursor
  {
    var u := s.(t := Prune(s.t, None));
    PruneEvolves(s.t, None);
    TablesStepCounted(s, u.t);
    DropCounted(u, oldest);
  }

  lemma StepCounted(s: Sys, step: Step)
    requires Counted(s)
    ensures Counted(Next(s, step)) && Next(s, step).cursor >= s.cursor
  {
    match step
    case Tick(to) => TickCounted(s, to);
    case Transaction(op) => TransactionCounted(s, op);
    case ReadChunk(job) => ReadChunkCounted(s, job);
    case CommitChunk(job) => CommitCounted(s, job);
    case PruneAge(job) => PruneAgeCounted(s, job);
    case PruneDone(job) => PruneDoneCounted(s, job);
    case CollapseOld(job) => CollapseCounted(s, job);
    case PruneSize(job, oldest) => PruneSizeCounted(s, job, oldest);
    case Settle => SettleCounted(s);
    case _ => SmallStepCounted(s, step);
  }

  lemma TickCounted(s: Sys, to: int)
    requires Counted(s)
    ensures Counted(Next(s, Tick(to))) && Next(s, Tick(to)).cursor == s.cursor
  {
    var u := Next(s, Tick(to));
    assert forall k :: Base(u, k) == Base(s, k);
    forall j | j in u.jobs ensures JobCounts(u, u.jobs[j]) { assert JobCounts(s, s.jobs[j]); }
  }

  lemma TransactionCounted(s: Sys, op: Op)
    requires Counted(s)
    ensures Counted(Next(s, Transaction(op))) && Next(s, Transaction(op)).cursor == s.cursor
  {
    OpEvolves(s.t, op, s.clock);
    TablesStepCounted(s, Next(s, Transaction(op)).t);
  }

  lemma SettleCounted(s: Sys)
    requires Counted(s)
    ensures Counted(Next(s, Settle)) && Next(s, Settle).cursor == s.cursor
  {
    if s.drain.Posted? {
      var u := Next(s, Settle);
      SettlingEvolves(s.t, s.drain.outcomes);
      TablesStepCounted(s, u.t);
      DrainDoesNotCount(s.(t := u.t), u);
    }
  }

  /** Steps that only move a job's own phase, or the delivery loop. */
  lemma SmallStepCounted(s: Sys, step: Step)
    requires Counted(s)
    requires step.ReadCursor? || step.StartRetention? || step.SkipRetention? || step.Stop?
             || step.ReadPending? || step.Post? || step.PostFailed? || step.Restart?
    ensures Counted(Next(s, step)) && Next(s, step).cursor == s.cursor
  {
    var u := Next(s, step);
    if step.ReadCursor? || step.StartRetention? || step.SkipRetention? || step.Stop? { OthersCounted(s, u, step.job); }
    else { DrainDoesNotCount(s, u); }
  }

  lemma DrainDoesNotCount(s: Sys, u: Sys)
    requires Counted(s)
    requires u == s.(drain := u.drain, posted := u.posted, jobs := u.jobs) && (u.jobs == s.jobs || u.jobs == map[])
    ensures Counted(u)
  {
    assert forall k :: Base(u, k) == Base(s, k);
    forall j | j in u.jobs ensures JobCounts(u, u.jobs[j]) { assert JobCounts(s, s.jobs[j]); }
  }

  lemma {:induction false} RunCounted(steps: seq<Step>)
    ensures Counted(Exec(Start, steps))
    decreases |steps|
  {
    if steps != [] {
      RunCounted(steps[..|steps| - 1]);
      StepCounted(Exec(Start, steps[..|steps| - 1]), steps[|steps| - 1]);
    }
  }

  // ---- What that means ----

  /** For any number of maintainers in any interleaving: the folded rows are distinct results
      in row order, every bucket describes them (those since the size cap last dropped it), and
      everything at or behind the cursor has been folded. */
  lemma EachResultCountedOnce(steps: seq<Step>, k: RollupKey)
    ensures var s := Exec(Start, steps);
            && AllResults(s.folded) && Ordered(s.folded)
            && Base(s, k) <= |s.folded| && Counts(s.rollups, s.folded[Base(s, k)..], k)
            && (k in s.rollups <==> RowsAt(s.folded[Base(s, k)..], k) != {})
            && (k in s.rollups ==> Describes(s.rollups[k], s.folded[Base(s, k)..], k))
            && forall r | r in s.t.journal && r.ResultRow? :: Covered(s.folded, r) <==> r.rowId <= s.cursor
  {
    RunCounted(steps);
    var s := Exec(Start, steps);
    CountsMeaning(s.rollups, s.folded[Base(s, k)..], k);
    forall r | r in s.t.journal && r.ResultRow? && Covered(s.folded, r) ensures r.rowId <= s.cursor {
      var f :| f in s.folded && SameResult(f, r);
    }
  }

  lemma {:induction false} ExecOn(s: Sys, steps: seq<Step>, more: seq<Step>)
    ensures Exec(s, steps + more) == Exec(Exec(s, steps), more)
    decreases |more|
  {
    if more == [] {
      assert steps + more == steps;
    } else {
      var n := |more| - 1;
      ExecOn(s, steps, more[..n]);
      assert (steps + more)[..|steps + more| - 1] == steps + more[..n];
    }
  }

  lemma {:induction false} CursorOnlyAdvances(steps: seq<Step>, more: seq<Step>)
    ensures Exec(Start, steps).cursor <= Exec(Start, steps + more).cursor
    decreases |more|
  {
    if more == [] {
      assert steps + more == steps;
    } else {
      var n := |more| - 1;
      CursorOnlyAdvances(steps, more[..n]);
      RunCounted(steps + more[..n]);
      StepCounted(Exec(Start, steps + more[..n]), more[n]);
      ExecStep(steps + more[..n], more[n]);
      assert steps + more == steps + more[..n] + [more[n]];
    }
  }

  /** A maintainer that goes on to prune has seen every row there was at its empty read
      counted, by itself or by another. */
  lemma CountedBeforePruning(steps: seq<Step>, job: nat, r: Row)
    requires var s := Exec(Start, steps);
             && job in s.jobs && r in s.t.journal && r.ResultRow?
             && match s.jobs[job]
                case Rolled(upTo) => r.rowId <= upTo
                case Pruning(upTo, _) => r.rowId <= upTo
                case Pruned(upTo, _) => r.rowId <= upTo
                case Collapsing(upTo) => r.rowId <= upTo
                case Sizing(upTo) => r.rowId <= upTo
                case _ => false
    ensures Covered(Exec(Start, steps).folded, r)
  {
    RunCounted(steps);
    assert JobCounts(Exec(Start, steps), Exec(Start, steps).jobs[job]);
  }

  /** The empty read itself: nothing in the journal is uncounted at that moment. */
  lemma EmptyReadMeansAllCounted(steps: seq<Step>, job: nat, r: Row)
    requires var s := Exec(Start, steps);
             && PhaseOf(s, job).AtCursor? && PhaseOf(Next(s, ReadChunk(job)), job).Rolled?
             && r in s.t.journal && r.ResultRow?
    ensures Covered(Exec(Start, steps).folded, r)
  {
    RunCounted(steps);
    var s := Exec(Start, steps);
    var after := PhaseOf(s, job).after;
    assert JobCounts(s, s.jobs[job]);
    if r.rowId > after { ChunkMisses(s.t.journal, after, ROLLUP_CHUNK, r); }
  }

  // ---- What the pruning statements do not check ----

  ghost predicate HasId(rows: seq<Row>, n: int) {
    exists r :: r in rows && r.ResultRow? && r.rowId == n
  }

  /** A maintainer holds a chunk with this row, read where the cursor still stands. */
  ghost predicate InHand(s: Sys, n: int) {
    exists j :: j in s.jobs && HoldsId(s, j, n) && s.jobs[j].after == s.cursor
  }

  predicate HoldsId(s: Sys, j: nat, n: int)
    requires j in s.jobs
  {
    s.jobs[j].AtChunk? && exists i | 0 <= i < |s.jobs[j].rows| :: s.jobs[j].rows[i].ResultRow? && s.jobs[j].rows[i].rowId == n
  }

  /** Row n was handed out, is on record no more, was never folded, and whoever still holds it
      has been overtaken by the cursor. */
  ghost predicate Lost(s: Sys, n: int) {
    && n <= s.t.lastRow && !HasId(s.t.journal, n) && !HasId(s.folded, n)
    && forall j | j in s.jobs && HoldsId(s, j, n) :: s.jobs[j].after < s.cursor
  }
  lemma LostTables(s: Sys, u: Sys, n: int)
    requires Lost(s, n) && Evolves(s.t, u.t) && u.folded == s.folded && u.cursor == s.cursor
    requires forall j | j in u.jobs && u.jobs[j].AtChunk? :: j in s.jobs && s.jobs[j] == u.jobs[j]
    ensures Lost(u, n)
  {
  }

  lemma LostRead(s: Sys, job: nat, n: int)
    requires Lost(s, n) && WellOrdered(s.t)
    ensures Lost(ReadChunkStep(s, job), n)
  {
    if PhaseOf(s, job).AtCursor? {
      var u := ReadChunkStep(s, job);
      ReadLacksId(s, job, n);
      forall j | j in u.jobs && HoldsId(u, j, n) ensures u.jobs[j].after < u.cursor { assert HoldsId(s, j, n); }
    }
  }

  lemma ReadLacksId(s: Sys, job: nat, n: int)
    requires !HasId(s.t.journal, n) && WellOrdered(s.t) && PhaseOf(s, job).AtCursor?
    ensures !HoldsId(ReadChunkStep(s, job), job, n)
  {
    var rows := Chunk(s.t.journal, PhaseOf(s, job).after, ROLLUP_CHUNK);
    ChunkSelects(s.t.journal, PhaseOf(s, job).after, ROLLUP_CHUNK);
    assert forall i | 0 <= i < |rows| :: rows[i] in rows;
  }

  lemma FoldedId(a: seq<Row>, b: seq<Row>, n: int)
    ensures HasId(a + b, n) ==> HasId(a, n) || exists i :: 0 <= i < |b| && b[i].ResultRow? && b[i].rowId == n
  {
  }

  lemma CommitTouches(s: Sys, job: nat)
    ensures var u, phase := CommitStep(s, job), PhaseOf(s, job);
            && u.t == s.t && (forall j | j in u.jobs && u.jobs[j].AtChunk? :: j in s.jobs && s.jobs[j] == u.jobs[j])
            && (u.folded == s.folded || (phase.AtChunk? && phase.after == s.cursor && job in s.jobs && u.folded == s.folded + phase.rows))
  {
  }

  lemma LostCommit(s: Sys, job: nat, n: int)
    requires Lost(s, n) && CommitStep(s, job).cursor >= s.cursor
    ensures Lost(CommitStep(s, job), n)
  {
    var phase, u := PhaseOf(s, job), CommitStep(s, job);
    CommitTouches(s, job);
    forall j | j in u.jobs && HoldsId(u, j, n) ensures u.jobs[j].after < u.cursor { assert HoldsId(s, j, n); }
    if phase.AtChunk? { FoldedId(s.folded, phase.rows, n); }
  }

  lemma LostStep(s: Sys, step: Step, n: int)
    requires Lost(s, n) && Counted(s)
    ensures Lost(Next(s, step), n)
  {
    if step.ReadChunk? {
      LostRead(s, step.job, n);
    } else if step.CommitChunk? {
      CommitCounted(s, step.job);
      LostCommit(s, step.job, n);
    } else {
      StepEvolves(s, step);
      OnlyReadsHold(s, step);
      LostTables(s, Next(s, step), n);
    }
  }

  lemma StepEvolves(s: Sys, step: Step)
    requires WellOrdered(s.t)
    ensures Evolves(s.t, Next(s, step).t)
  {
    DeletingEvolves(s.t, s.t);
    match step
    case Transaction(op) => OpEvolves(s.t, op, s.clock);
    case PruneAge(job) => if PhaseOf(s, job).Pruning? { PruneEvolves(s.t, Some(PhaseOf(s, job).cutoff)); }
    case PruneDone(job) => if PhaseOf(s, job).Pruned? { DeletingEvolves(s.t, PruneCompleted(s.t, PhaseOf(s, job).cutoff)); }
    case CollapseOld(job) => KeptRows(s.t.journal, s.t.journal); DeletingEvolves(s.t, Collapse(s.t));
    case PruneSize(job, oldest) => PruneEvolves(s.t, None);
    case Settle => if s.drain.Posted? { SettlingEvolves(s.t, s.drain.outcomes); }
    case _ => QuietTables(s, step);
  }

  lemma OnlyReadsHold(s: Sys, step: Step)
    requires !step.ReadChunk? && !step.CommitChunk?
    ensures var u := Next(s, step);
            && u.folded == s.folded && u.cursor == s.cursor
            && forall j | j in u.jobs && u.jobs[j].AtChunk? :: j in s.jobs && s.jobs[j] == u.jobs[j]
  {
  }

  lemma {:induction false} LostStays(steps: seq<Step>, more: seq<Step>, n: int)
    requires Lost(Exec(Start, steps), n)
    ensures Lost(Exec(Start, steps + more), n)
    decreases |more|
  {
    if more == [] {
      assert steps + more == steps;
    } else {
      var m := |more| - 1;
      LostStays(steps, more[..m], n);
      assert (steps + more)[..|steps + more| - 1] == steps + more[..m];
      RunCounted(steps + more[..m]);
      LostStep(Exec(Start, steps + more[..m]), more[m], n);
    }
  }

  ghost predicate CountedLater(steps: seq<Step>, r: Row) {
    exists more :: Covered(Exec(Start, steps + more).folded, r)
  }

  lemma CommittedLater(steps: seq<Step>, job: nat, r: Row)
    requires Covered(CommitStep(Exec(Start, steps), job).folded, r)
    ensures CountedLater(steps, r)
  {
    ExecStep(steps, CommitChunk(job));
    NextCommits(Exec(Start, steps), job);
    assert Covered(Exec(Start, steps + [CommitChunk(job)]).folded, r);
  }

  lemma NextCommits(s: Sys, job: nat)
    ensures Next(s, CommitChunk(job)) == CommitStep(s, job)
  {
  }

  lemma LostIsNeverCounted(steps: seq<Step>, r: Row)
    requires Lost(Exec(Start, steps), r.rowId)
    ensures !CountedLater(steps, r)
  {
    forall more ensures !Covered(Exec(Start, steps + more).folded, r) {
      LostStays(steps, more, r.rowId);
      CoveredHasId(Exec(Start, steps + more).folded, r);
    }
  }

  lemma CoveredHasId(rows: seq<Row>, r: Row)
    ensures Covered(rows, r) ==> HasId(rows, r.rowId)
  {
  }

  lemma CountedNow(steps: seq<Step>, r: Row)
    requires Covered(Exec(Start, steps).folded, r)
    ensures CountedLater(steps, r)
  {
    assert steps + [] == steps;
    assert Covered(Exec(Start, steps + []).folded, r);
  }

  /** Pruning does not look at the cursor. A result that a pruning statement deletes is counted,
      then or ever after, exactly when it lay behind the cursor, or a maintainer holds it in a
      chunk that it can still commit. */
  lemma PrunedResultCountedExactly(steps: seq<Step>, step: Step, r: Row)
    requires step.PruneAge? || step.PruneSize?
    requires r in Exec(Start, steps).t.journal && r.ResultRow? && r !in Exec(Start, steps + [step]).t.journal
    ensures var s := Exec(Start, steps + [step]);
            CountedLater(steps + [step], r) <==> r.rowId <= s.cursor || InHand(s, r.rowId)
  {
    var before, now := Exec(Start, steps), steps + [step];
    ExecStep(steps, step);
    RunCounted(steps);
    RunCounted(now);
    var s := Exec(Start, now);
    OnlyReadsHold(before, step);
    if r.rowId <= s.cursor {
      CountedNow(now, r);
    } else if InHand(s, r.rowId) {
      var j := HeldIsCommitted(before, s, r);
      CommittedLater(now, j, r);
    } else {
      PrunedIsGone(before, step, r);
      UncountedHasNoId(s, r.rowId);
      LostUnlessInHand(s, r.rowId);
      LostIsNeverCounted(now, r);
    }
  }

  lemma UncountedHasNoId(s: Sys, n: int)
    requires FoldedOnce(s) && n > s.cursor
    ensures !HasId(s.folded, n)
  {
  }

  lemma OneOfAnId(rows: seq<Row>, q: Row, r: Row)
    requires Ordered(rows) && q in rows && r in rows && q != r
    ensures q.rowId != r.rowId
  {
  }

  lemma PrunedIsGone(s: Sys, step: Step, r: Row)
    requires step.PruneAge? || step.PruneSize?
    requires WellOrdered(s.t) && r in s.t.journal && r.ResultRow? && r !in Next(s, step).t.journal
    ensures var u := Next(s, step); r.rowId <= u.t.lastRow && !HasId(u.t.journal, r.rowId)
  {
    var u := Next(s, step);
    PruneSubset(s.t, None);
    if step.PruneAge? && PhaseOf(s, step.job).Pruning? { PruneSubset(s.t, Some(PhaseOf(s, step.job).cutoff)); }
    forall q | q in u.t.journal ensures q in s.t.journal && q.rowId != r.rowId { OneOfAnId(s.t.journal, q, r); }
  }

  lemma LostUnlessInHand(s: Sys, n: int)
    requires Counted(s) && n <= s.t.lastRow && !HasId(s.t.journal, n) && !HasId(s.folded, n) && !InHand(s, n)
    ensures Lost(s, n)
  {
  }

  lemma ExecStep(steps: seq<Step>, step: Step)
    ensures Exec(Start, steps + [step]) == Next(Exec(Start, steps), step)
  {
    assert (steps + [step])[..|steps|] == steps;
  }

  lemma HeldIsCommitted(before: Sys, s: Sys, r: Row) returns (j: nat)
    requires Counted(before) && s.cursor == before.cursor
    requires forall i | i in s.jobs && s.jobs[i].AtChunk? :: i in before.jobs && before.jobs[i] == s.jobs[i]
    requires r in before.t.journal && r.ResultRow? && InHand(s, r.rowId)
    ensures Covered(CommitStep(s, j).folded, r)
  {
    j :| j in s.jobs && HoldsId(s, j, r.rowId) && s.jobs[j].after == s.cursor;
    assert HoldsId(before, j, r.rowId);
    HeldIsCovered(before, j, r);
    CommitCovers(s, j, r);
  }

  lemma HeldIsCovered(s: Sys, j: nat, r: Row)
    requires Counted(s) && j in s.jobs && HoldsId(s, j, r.rowId) && s.jobs[j].after == s.cursor
    requires r in s.t.journal && r.ResultRow?
    ensures Covered(s.jobs[j].rows, r) && AllResults(s.jobs[j].rows)
  {
  }

  lemma CommitCovers(s: Sys, j: nat, r: Row)
    requires j in s.jobs && s.jobs[j].AtChunk? && s.jobs[j].after == s.cursor
    requires Covered(s.jobs[j].rows, r) && AllResults(s.jobs[j].rows)
    ensures Covered(CommitStep(s, j).folded, r)
  {
  }

  /** A result observed long ago. */
  function Late(runId: string, probeId: string): Result {
    Result(runId, probeId, 1, true, None, Some(0), "")
  }

  function LateRow(runId: string, probeId: string, delivery: Delivery): Row {
    ResultRow(1, 1, 0, ResultKey(runId, probeId, 1), true, None, "", delivery)
  }

  /** One maintainer finds nothing to roll up; the result arrives, is delivered, and is
      pruned by that maintainer. */
  function LossyRun(runId: string, probeId: string): seq<Step> {
    [Tick(10), ReadCursor(0), ReadChunk(0)]
    + [Transaction(Record([Late(runId, probeId)])), ReadPending, Post([]), Settle]
    + [StartRetention(0, 5), PruneAge(0)]
  }

  lemma RolledEmpty()
    ensures Exec(Start, [Tick(10), ReadCursor(0), ReadChunk(0)])
         == Start.(clock := 10, jobs := map[0 := Rolled(0)])
  {
    var a: seq<Step> := [];
    ExecOn(Start, a + [Tick(10)] + [ReadCursor(0)], [ReadChunk(0)]);
    ExecOn(Start, a + [Tick(10)], [ReadCursor(0)]);
    ExecOn(Start, a, [Tick(10)]);
    assert a + [Tick(10)] + [ReadCursor(0)] + [ReadChunk(0)] == [Tick(10), ReadCursor(0), ReadChunk(0)];
    OneStep(Start, Tick(10));
    var s1 := Next(Start, Tick(10));
    OneStep(s1, ReadCursor(0));
    var s2 := Next(s1, ReadCursor(0));
    OneStep(s2, ReadChunk(0));
    assert s2.jobs == map[0 := AtCursor(0)];
    assert Chunk([], 0, ROLLUP_CHUNK) == [];
  }

  lemma OneStep(s: Sys, step: Step)
    ensures Exec(s, [step]) == Next(s, step)
  {
    assert [step][..0] == [];
  }

  lemma RecordedLate(s: Sys, runId: string, probeId: string)
    requires s.t == Empty && runId != "" && probeId != ""
    ensures Next(s, Transaction(Record([Late(runId, probeId)])))
         == s.(t := Empty.(journal := [LateRow(runId, probeId, Pending)], lastRow := 1, nextSeq := Some(2)))
  {
    var r := Late(runId, probeId);
    var reserved := Reserve(Empty, 1);
    assert [r][..0] == [];
    assert InsertResults(reserved, [r], 1, s.clock) == InsertResult(reserved, Summary(0, 0, 0), r, 1, s.clock);
    assert !Conflicts(reserved.journal, 1, ResultKeyOf(r));
    assert reserved.journal + [LateRow(runId, probeId, Pending)] == [LateRow(runId, probeId, Pending)];
  }

  lemma DeliveredLate(s: Sys, runId: string, probeId: string)
    requires s.t.journal == [LateRow(runId, probeId, Pending)] && s.drain.NotDraining? && s.posted == {}
    ensures Exec(s, [ReadPending, Post([]), Settle])
         == s.(t := s.t.(journal := [LateRow(runId, probeId, Delivered)]), posted := {1})
  {
    var row := LateRow(runId, probeId, Pending);
    assert s.t.journal[1..] == [];
    assert PendingResults(s.t.journal, DELIVERY_BATCH) == [row] + PendingResults([], 499);
    assert [row] + [] == [row];
    var s1 := Next(s, ReadPending);
    assert s1 == s.(drain := Batch([row]));
    var s2 := Next(s1, Post([]));
    assert OutcomesFor([row], []) == [Outcome(1, true)];
    assert RowIds([row]) == {1};
    assert s2 == s.(drain := Posted([Outcome(1, true)]), posted := {1});
    var s3 := Next(s2, Settle);
    assert [Outcome(1, true)][..0] == [];
    assert MarkOutcomes(s.t, []) == s.t;
    assert SettleAll(s.t.journal, Outcome(1, true)) == [LateRow(runId, probeId, Delivered)];
    var a: seq<Step> := [];
    ExecOn(s, [ReadPending] + [Post([])], [Settle]);
    ExecOn(s, [ReadPending], [Post([])]);
    assert [ReadPending] + [Post([])] + [Settle] == [ReadPending, Post([]), Settle];
    OneStep(s, ReadPending);
    OneStep(s1, Post([]));
    OneStep(s2, Settle);
  }

  lemma OldRowPruned(t: Tables, row: Row)
    requires t.journal == [row] && t.pending == map[] && row.ResultRow? && row.delivery != Pending && row.atMs < 5
    ensures Prune(t, Some(5)) == t.(journal := [])
  {
    assert t.journal[1..] == [];
    assert Prunable(row, EventSeqs(t.pending), Some(5));
    assert DeleteFirst(t.journal[1..], EventSeqs(t.pending), Some(5), 1999) == [];
  }

  lemma PrunedLate(s: Sys, runId: string, probeId: string)
    requires s.t.journal == [LateRow(runId, probeId, Delivered)] && s.t.pending == map[]
    requires s.jobs == map[0 := Rolled(0)] && s.clock == 10
    ensures Exec(s, [StartRetention(0, 5), PruneAge(0)]) == s.(t := s.t.(journal := []), jobs := map[0 := Pruned(0, 5)])
  {
    var s1 := s.(jobs := map[0 := Pruning(0, 5)]);
    RetentionStarts(s);
    LatePruned(s1, LateRow(runId, probeId, Delivered));
    ExecOn(s, [StartRetention(0, 5)], [PruneAge(0)]);
    assert [StartRetention(0, 5)] + [PruneAge(0)] == [StartRetention(0, 5), PruneAge(0)];
    OneStep(s, StartRetention(0, 5));
    OneStep(s1, PruneAge(0));
  }

  lemma RetentionStarts(s: Sys)
    requires s.jobs == map[0 := Rolled(0)] && s.clock == 10
    ensures Next(s, StartRetention(0, 5)) == s.(jobs := map[0 := Pruning(0, 5)])
  {
    assert s.jobs[0 := Pruning(0, 5)] == map[0 := Pruning(0, 5)];
  }

  lemma LatePruned(s: Sys, row: Row)
    requires s.jobs == map[0 := Pruning(0, 5)] && s.t.journal == [row] && s.t.pending == map[]
    requires row.ResultRow? && row.delivery != Pending && row.atMs < 5
    ensures Next(s, PruneAge(0)) == s.(t := s.t.(journal := []), jobs := map[0 := Pruned(0, 5)])
  {
    OldRowPruned(s.t, row);
    assert s.jobs[0 := Pruned(0, 5)] == map[0 := Pruned(0, 5)];
  }

  /** So a row both recorded and settled between the empty read and the prune is deleted
      without ever having been counted. */
  lemma LateResultNeverCounted(runId: string, probeId: string)
    requires runId != "" && probeId != ""
    ensures var s := Exec(Start, LossyRun(runId, probeId));
            s.t.lastRow == 1 && s.t.journal == [] && s.folded == [] && s.rollups == map[]
  {
    var first: seq<Step> := [Tick(10), ReadCursor(0), ReadChunk(0)];
    var record := Transaction(Record([Late(runId, probeId)]));
    var deliver: seq<Step> := [ReadPending, Post([]), Settle];
    var prune: seq<Step> := [StartRetention(0, 5), PruneAge(0)];
    assert LossyRun(runId, probeId) == ((first + [record]) + deliver) + prune;
    RolledEmpty();
    ExecOn(Start, (first + [record]) + deliver, prune);
    ExecOn(Start, first + [record], deliver);
    ExecOn(Start, first, [record]);
    var s1 := Exec(Start, first);
    OneStep(s1, record);
    RecordedLate(s1, runId, probeId);
    var s2 := Next(s1, record);
    DeliveredLate(s2, runId, probeId);
    PrunedLate(Exec(s2, deliver), runId, probeId);
  }
}
