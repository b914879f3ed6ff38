/** Age-based pruning when the clock is not trusted: exactly when it keeps replay faithful. */
module StorePruning {

  import opened Prelude
  import opened Wire
  import opened StoreTables
  import opened StoreReplay
  import opened StoreSteps
  import opened StoreRuns

  /** The whole prune loop: chunks until nothing prunable is left. */
  function PruneAll(t: Tables, cutoff: Option<int>): Tables {
    PruneUpTo(t, cutoff, |t.journal|)
  }

  /** Two chunks in a row delete what one larger chunk would. */
  lemma {:induction false} ChunksAddUp(rows: seq<Row>, held: set<int>, cutoff: Option<int>, a: nat, b: nat)
    ensures DeleteFirst(DeleteFirst(rows, held, cutoff, a), held, cutoff, b) == DeleteFirst(rows, held, cutoff, a + b)
    decreases |rows|
  {
    if rows != [] && a > 0 {
      if Prunable(rows[0], held, cutoff) {
        ChunksAddUp(rows[1..], held, cutoff, a - 1, b);
      } else {
        ChunksAddUp(rows[1..], held, cutoff, a, b);
        var once := [rows[0]] + DeleteFirst(rows[1..], held, cutoff, a);
        assert once[1..] == DeleteFirst(rows[1..], held, cutoff, a);
        if b == 0 {
          assert DeleteFirst(rows[1..], held, cutoff, a + 0) == DeleteFirst(rows[1..], held, cutoff, a);
        }
      }
    }
  }

  /** A chunk that came back short has deleted everything there was to delete. */
  lemma {:induction false} ShortChunkIsLast(rows: seq<Row>, held: set<int>, cutoff: Option<int>, limit: nat, more: nat)
    requires |rows| - |DeleteFirst(rows, held, cutoff, limit)| < limit <= more
    ensures DeleteFirst(rows, held, cutoff, limit) == DeleteFirst(rows, held, cutoff, more)
    decreases |rows|
  {
    if rows != [] {
      if Prunable(rows[0], held, cutoff) {
        ShortChunkIsLast(rows[1..], held, cutoff, limit - 1, more - 1);
      } else {
        ShortChunkIsLast(rows[1..], held, cutoff, limit, more);
      }
    }
  }

  /** A later completion of this trigger that the cutoff spares. */
  ghost predicate CompletedSince(rows: seq<Row>, r: Row, cutoff: int)
    requires r.TriggerRow?
  {
    exists d :: d in rows && d.DoneRow? && d.key == r.key && d.rowId > r.rowId && d.atMs >= cutoff
  }

  /** The cutoff separates no trigger from all of its completions: whenever it spares a
      retired trigger row, it spares a completion of it too. */
  ghost predicate CutoffSplitsNoPair(t: Tables, cutoff: int) {
    forall r | r in t.journal && r.TriggerRow? && !IsEvent(t.pending, r) && r.atMs >= cutoff :: CompletedSince(t.journal, r, cutoff)
  }

  /** Nor does it take the last completion of a key and spare an earlier one. */
  ghost predicate CutoffSparesLast(t: Tables, cutoff: int) {
    forall d, last | d in t.journal && d.DoneRow? && d.atMs >= cutoff && IsLastDone(t.journal, d.key, last) :: last.atMs >= cutoff
  }

  ghost predicate IsLastDone(rows: seq<Row>, key: TriggerKey, last: Row) {
    last in rows && last.DoneRow? && last.key == key && !DoneAfter(rows, key, last.rowId)
  }

  /** Without any assumption on the clock, age pruning keeps the replayed queue equal
      to the live one exactly when the cutoff splits no pair. */
  lemma QueueFaithfulIff(t: Tables, cutoff: int)
    requires Structure(t)
    ensures FaithfulQueue(PruneAll(t, Some(cutoff))) <==> CutoffSplitsNoPair(t, cutoff)
  {
    var u := PruneAll(t, Some(cutoff));
    var held := EventSeqs(t.pending);
    Survivors(t, cutoff);
    if CutoffSplitsNoPair(t, cutoff) {
      forall r | r in u.journal && r.TriggerRow? ensures IsEvent(u.pending, r) || DoneAfter(u.journal, r.key, r.rowId) {
        HeldRows(t, r);
        if !IsEvent(t.pending, r) {
          var d :| d in t.journal && d.DoneRow? && d.key == r.key && d.rowId > r.rowId && d.atMs >= cutoff;
          assert d in u.journal;
        }
      }
      BackedGivesQueue(u);
    } else {
      var r :| r in t.journal && r.TriggerRow? && !IsEvent(t.pending, r) && r.atMs >= cutoff && !CompletedSince(t.journal, r, cutoff);
      assert r in u.journal;
      forall d | d in u.journal && d.DoneRow? && d.key == r.key && d.rowId > r.rowId ensures false {
        HeldRows(t, d);
      }
      assert Open(u.journal, r.key, r);
      ReplayedPending(u, u.journal, r.key);
      assert r.key !in t.pending;
    }
  }

  ghost predicate FaithfulDone(t: Tables) {
    var rebuilt := Rebuild(t).completed;
    forall k | k in rebuilt :: k in t.completed && rebuilt[k] == t.completed[k]
  }

  /** And the replayed completions are live ones exactly when it spares every last one. */
  lemma CompletionsFaithfulIff(t: Tables, cutoff: int)
    requires Structure(t)
    ensures FaithfulDone(PruneAll(t, Some(cutoff))) <==> CutoffSparesLast(t, cutoff)
  {
    var u := PruneAll(t, Some(cutoff));
    Survivors(t, cutoff);
    if CutoffSparesLast(t, cutoff) {
      forall k | k in Rebuild(u).completed ensures k in u.completed && Rebuild(u).completed[k] == u.completed[k] {
        ReplayedCompleted(u, u.journal, k);
        var d :| d in u.journal && d.DoneRow? && d.key == k;
        var last := LastDone(t.journal, k);
        SparedDone(t, cutoff, d);
        assert IsLastDone(t.journal, d.key, last);
        SparedDone(t, cutoff, last);
        SparedIsLast(t, cutoff, last);
      }
    } else {
      var d, last :| d in t.journal && d.DoneRow? && d.atMs >= cutoff && IsLastDone(t.journal, d.key, last) && last.atMs < cutoff;
      SparedDone(t, cutoff, d);
      var spared := LastDone(u.journal, d.key);
      SparedDone(t, cutoff, spared);
      ReplayedCompleted(u, u.journal, d.key);
    }
  }

  lemma SparedDone(t: Tables, cutoff: int, d: Row)
    requires Structure(t) && d.DoneRow?
    ensures d in PruneAll(t, Some(cutoff)).journal <==> d in t.journal && d.atMs >= cutoff
  {
    Survivors(t, cutoff);
    if d in t.journal { HeldRows(t, d); }
  }

  lemma SparedIsLast(t: Tables, cutoff: int, last: Row)
    requires Structure(t) && last.DoneRow? && !DoneAfter(t.journal, last.key, last.rowId)
    ensures !DoneAfter(PruneAll(t, Some(cutoff)).journal, last.key, last.rowId)
  {
    Survivors(t, cutoff);
  }

  /** Without any assumption on the clock, a rebuild after age pruning can be trusted exactly
      when the cutoff splits no trigger from its completion and spares every last completion. */
  lemma AgePruneFaithfulIff(t: Tables, cutoff: int)
    requires Structure(t)
    ensures Faithful(PruneAll(t, Some(cutoff))) <==> CutoffSplitsNoPair(t, cutoff) && CutoffSparesLast(t, cutoff)
  {
    var u := PruneAll(t, Some(cutoff));
    QueueFaithfulIff(t, cutoff);
    CompletionsFaithfulIff(t, cutoff);
    PrunedRows(t, Some(cutoff), |t.journal|);
    AssignedStays(t, u);
    AssignedReplays(u);
    RunTimesDefineNothing(Replay(u, u.journal));
  }

  // ---- Any clock ----

  /** What may happen to the tables, each at whatever reading the clock gives: the agent's
      transactions, settled deliveries, pruning by size, collapsed assignments. */
  datatype Deed =
    | Committed(op: Op, now: int)
    | BatchSettled(outcomes: seq<Outcome>)
    | PrunedBySize(limit: nat)
    | AssignmentsCollapsed

  function AfterDeed(t: Tables, deed: Deed): Tables {
    match deed
    case Committed(op, now) => Run(t, op, now)
    case BatchSettled(outcomes) => MarkOutcomes(t, outcomes)
    case PrunedBySize(limit) => PruneUpTo(t, None, limit)
    case AssignmentsCollapsed => Collapse(t)
  }

  function AfterDeeds(deeds: seq<Deed>): Tables {
    if deeds == [] then Empty else AfterDeed(AfterDeeds(deeds[..|deeds| - 1]), deeds[|deeds| - 1])
  }

  lemma DeedKeeps(t: Tables, deed: Deed)
    requires Structure(t)
    ensures Structure(AfterDeed(t, deed))
  {
    match deed
    case Committed(op, now) => OpKeepsInv(t, op, now);
    case BatchSettled(outcomes) => MarkOutcomesKeeps(t, outcomes, 0);
    case PrunedBySize(limit) => PruneKeeps(t, None, limit, 0);
    case AssignmentsCollapsed => CollapseKeeps(t, 0);
  }

  lemma {:induction false} AnyClockKeepsStructure(deeds: seq<Deed>)
    ensures Structure(AfterDeeds(deeds))
    decreases |deeds|
  {
    if deeds == [] {
      InitInv(0);
    } else {
      AnyClockKeepsStructure(deeds[..|deeds| - 1]);
      DeedKeeps(AfterDeeds(deeds[..|deeds| - 1]), deeds[|deeds| - 1]);
    }
  }

  /** So on any clock whatsoever every rebuild can be trusted until the journal is pruned by
      age, and a pruning by age can be trusted exactly under that condition. */
  lemma AnyClock(deeds: seq<Deed>, cutoff: int)
    ensures Faithful(AfterDeeds(deeds))
    ensures var t := AfterDeeds(deeds);
            Faithful(PruneAll(t, Some(cutoff))) <==> CutoffSplitsNoPair(t, cutoff) && CutoffSparesLast(t, cutoff)
  {
    AnyClockKeepsStructure(deeds);
    StructureIsFaithful(AfterDeeds(deeds));
    AgePruneFaithfulIff(AfterDeeds(deeds), cutoff);
  }

  lemma Survivors(t: Tables, cutoff: int)
    requires Structure(t)
    ensures var u := PruneAll(t, Some(cutoff));
            && Ordered(u.journal) && PendingBacked(u)
            && forall r :: r in u.journal <==> r in t.journal && !Prunable(r, EventSeqs(t.pending), Some(cutoff))
  {
    var u := PruneAll(t, Some(cutoff));
    var held := EventSeqs(t.pending);
    var last := DeletedUpTo(t.journal, held, Some(cutoff), |t.journal| + 1);
    EnoughIsEnough(t.journal, held, Some(cutoff), |t.journal| + 1);
    forall k | k in u.pending
      ensures exists r :: r in u.journal && r.TriggerRow? && r.key == k && u.pending[k] == PendingOf(r)
    {
      var r :| r in t.journal && r.TriggerRow? && r.key == k && t.pending[k] == PendingOf(r);
      HeldRows(t, r);
      assert r in u.journal;
    }
  }

  lemma {:induction false} EnoughIsEnough(rows: seq<Row>, held: set<int>, cutoff: Option<int>, limit: nat)
    requires limit >= |rows|
    ensures DeleteFirst(rows, held, cutoff, limit) == DeleteFirst(rows, held, cutoff, |rows|)
    decreases |rows|
  {
    if rows != [] {
      if Prunable(rows[0], held, cutoff) {
        EnoughIsEnough(rows[1..], held, cutoff, limit - 1);
      } else {
        EnoughIsEnough(rows[1..], held, cutoff, limit);
        EnoughIsEnough(rows[1..], held, cutoff, |rows|);
      }
    }
  }

  // ---- A clock that steps back ----

  function Recorded(event: Event): Row {
    TriggerRow(1, 1, 100, KeyOf(event), event.probe)
  }

  function Completed(event: Event): Row {
    DoneRow(2, 2, 50, KeyOf(event))
  }

  /** A trigger recorded at 100 and completed at 50. */
  function StepBack(event: Event): Tables {
    CompleteTriggers(RecordTrigger(Empty, event, 100), [KeyOf(event)], 50)
  }

  lemma StepBackTables(event: Event)
    requires WellFormed(event)
    ensures StepBack(event) == Tables([Recorded(event), Completed(event)], 2, Some(3), map[], None, map[], map[KeyOf(event) := 50])
  {
    var key := KeyOf(event);
    var recorded := RecordTrigger(Empty, event, 100);
    assert recorded.journal == [Recorded(event)];
    assert [key][..0] == [];
    assert CompleteTriggers(recorded, [key][..0], 50) == recorded;
    assert StepBack(event) == CompleteOne(recorded, key, 50);
    assert StepBack(event).pending == map[];
  }

  lemma StepBackPruned(event: Event)
    requires WellFormed(event)
    ensures PruneAll(StepBack(event), Some(75)) == StepBack(event).(journal := [Recorded(event)])
  {
    StepBackTables(event);
    var rows := StepBack(event).journal;
    var held := EventSeqs(StepBack(event).pending);
    assert held == {};
    assert rows[1..] == [Completed(event)] && [Completed(event)][1..] == [];
    assert DeleteFirst([Completed(event)], held, Some(75), 2) == [];
  }

  /** The cutoff falls between the two clock readings, so pruning takes the completion
      and spares the trigger: rebuilding then queues a completed trigger again. */
  lemma ClockStepResurrects(event: Event)
    requires WellFormed(event)
    ensures var t, key := StepBack(event), KeyOf(event);
            var pruned := PruneAll(t, Some(75));
            && FaithfulQueue(t) && !CutoffSplitsNoPair(t, 75)
            && key in pruned.completed && key !in pruned.pending && key in Rebuild(pruned).pending
  {
    var t, key := StepBack(event), KeyOf(event);
    var trigger, done := Recorded(event), Completed(event);
    StepBackTables(event);
    StepBackPruned(event);
    assert trigger in t.journal && done in t.journal;
    assert DoneAfter(t.journal, key, 1);
    BackedGivesQueue(t);
    assert !CompletedSince(t.journal, trigger, 75);
    var pruned := PruneAll(t, Some(75));
    assert pruned.journal == [trigger] && Open(pruned.journal, key, trigger);
    ReplayedPending(pruned, pruned.journal, key);
  }
}
