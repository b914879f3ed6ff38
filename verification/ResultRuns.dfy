/** Result keys over whole runs: no key is ever in the journal twice. */
module ResultRuns {

  import opened Prelude
  import opened Wire
  import opened StoreTables
  import opened StoreReplay
  import opened StoreSteps
  import opened StoreResults
  import opened StoreRuns
  import opened Outbox

  /** A control transaction appends one row under the next number. */
  lemma ControlNumbered(t: Tables, u: Tables, row: Row)
    requires WellOrdered(t) && Numbered(t)
    requires !row.ResultRow? && row.rowId == t.lastRow + 1 && row.originSeq == FirstFree(t)
    requires u.journal == t.journal + [row] && u.lastRow == t.lastRow + 1 && u.nextSeq == Some(FirstFree(t) + 1)
    ensures WellOrdered(u) && Numbered(u)
  {
    AppendNumbered(t, row, FirstFree(t) + 1);
    var v := Append(t, row).(nextSeq := Some(FirstFree(t) + 1));
    assert WellOrdered(v) && Numbered(v) && v.journal == u.journal && v.lastRow == u.lastRow && v.nextSeq == u.nextSeq;
  }

  lemma {:induction false} CompleteNumbered(t: Tables, keys: seq<TriggerKey>, now: int)
    requires WellOrdered(t) && Numbered(t)
    ensures WellOrdered(CompleteTriggers(t, keys, now)) && Numbered(CompleteTriggers(t, keys, now))
    decreases |keys|
  {
    if keys != [] {
      CompleteNumbered(t, keys[..|keys| - 1], now);
      var v, key := CompleteTriggers(t, keys[..|keys| - 1], now), keys[|keys| - 1];
      ControlNumbered(v, CompleteOne(v, key, now), DoneRow(v.lastRow + 1, FirstFree(v), now, key));
    }
  }

  lemma OpNumbered(t: Tables, op: Op, now: int)
    requires WellOrdered(t) && Numbered(t)
    ensures WellOrdered(Run(t, op, now)) && Numbered(Run(t, op, now))
  {
    var u := Run(t, op, now);
    match op
    case Assign(hash, probes) =>
      if u != t { ControlNumbered(t, u, AssignmentRow(t.lastRow + 1, FirstFree(t), now, hash, probes)); }
    case Heartbeat(event) =>
      if u != t { ControlNumbered(t, u, TriggerRow(t.lastRow + 1, FirstFree(t), now, KeyOf(event), event.probe)); }
    case Complete(keys) => CompleteNumbered(t, keys, now);
    case Record(results) => RecordResultsMeaning(t, results, now);
    case MarkRun(_, _) => SameLogNumbered(t, u);
    case RebuildAll =>
      ReplayKeepsJournal(t, t.journal);
      SameLogNumbered(t, u);
  }

  lemma SameLogNumbered(t: Tables, u: Tables)
    requires WellOrdered(t) && Numbered(t)
    requires u.journal == t.journal && u.lastRow == t.lastRow && u.nextSeq == t.nextSeq
    ensures WellOrdered(u) && Numbered(u)
  {
  }

  lemma StepNumbered(s: Sys, step: Step)
    requires WellOrdered(s.t) && Numbered(s.t)
    ensures WellOrdered(Next(s, step).t) && Numbered(Next(s, step).t)
  {
    var u := Next(s, step).t;
    match step
    case Transaction(op) => OpNumbered(s.t, op, s.clock);
    case Settle =>
      if s.drain.Posted? {
        SettledRows(s.t, s.drain.outcomes);
        SettledJournal(s.t, u);
        SettledNumbered(s.t, u);
      }
    case PruneAge(_) => MaintenanceDeletes(s, step); FewerRowsNumbered(s.t, u);
    case PruneDone(_) => MaintenanceDeletes(s, step); FewerRowsNumbered(s.t, u);
    case CollapseOld(_) => MaintenanceDeletes(s, step); FewerRowsNumbered(s.t, u);
    case PruneSize(_, _) => MaintenanceDeletes(s, step); FewerRowsNumbered(s.t, u);
    case _ =>
  }

  /** In every reachable state the origin numbers rise along the journal, stay below next_seq,
      and no result key occurs in two rows. */
  lemma {:induction false} RunNumbered(steps: seq<Step>)
    ensures WellOrdered(Exec(Start, steps).t) && Numbered(Exec(Start, steps).t)
    decreases |steps|
  {
    if steps != [] {
      RunNumbered(steps[..|steps| - 1]);
      StepNumbered(Exec(Start, steps[..|steps| - 1]), steps[|steps| - 1]);
    }
  }

  /** Whatever ran before: recording a batch accounts for every result in it, leaves each
      named one in the journal exactly once, and recording it again inserts nothing. */
  lemma RecordingIsIdempotent(steps: seq<Step>, results: seq<Result>, later: int)
    ensures var s := Exec(Start, steps);
            var (u, first) := RecordResults(s.t, results, s.clock);
            var (v, second) := RecordResults(u, results, later);
            && Numbered(u) && Adds(s.t.journal, u.journal, results)
            && Journals(s.t.journal, u.journal, results, FirstFree(s.t), s.clock)
            && first.inserted == Fresh(s.t.journal, results)
            && first.inserted + first.duplicates + first.skipped == |results|
            && second.inserted == 0 && v.journal == u.journal
  {
    RunNumbered(steps);
    var s := Exec(Start, steps);
    RecordResultsMeaning(s.t, results, s.clock);
    ReplayedBatchInsertsNothing(s.t, results, s.clock, later);
  }
}
