/** Every transaction keeps the invariant that makes replay faithful. */
module StoreSteps {

  import opened Prelude
  import opened Wire
  import opened StoreTables
  import opened StoreReplay

  /** A step to `u` whose result replay can trust, and whose control rows are still stamped in
      order if those of `t` were. */
  ghost predicate Kept(t: Tables, u: Tables, now: int) {
    Structure(u) && (Clocked(t, now) ==> Clocked(u, now))
  }

  // ---- Appending ----

  lemma Appended(t: Tables, row: Row)
    requires WellOrdered(t) && row.rowId == t.lastRow + 1
    ensures WellOrdered(Append(t, row))
    ensures forall r :: r in Append(t, row).journal <==> r in t.journal || r == row
    ensures forall k, n :: DoneAfter(Append(t, row).journal, k, n)
                      <==> DoneAfter(t.journal, k, n) || (row.DoneRow? && row.key == k && row.rowId > n)
  {
  }

  ghost predicate Extends(t: Tables, u: Tables, row: Row) {
    && (forall r :: r in u.journal <==> r in t.journal || r == row)
    && (forall r | r in t.journal :: r.rowId < row.rowId)
    && (forall k, n :: DoneAfter(u.journal, k, n) <==> DoneAfter(t.journal, k, n) || (row.DoneRow? && row.key == k && row.rowId > n))
  }

  lemma AppendExtends(t: Tables, u: Tables, row: Row)
    requires WellOrdered(t) && OneMore(t, u, row)
    ensures WellOrdered(u) && Extends(t, u, row)
  {
  }

  lemma AssignmentRowKeeps(t: Tables, u: Tables, row: Row)
    requires row.AssignmentRow? && Extends(t, u, row)
    requires u.hash == Some(row.hash) && Definitions(u.probes) == Definitions(ProbesOf(map[], row.probes))
    ensures Assigned(u)
  {
  }

  /** `u` is `t` with one row more in its journal. */
  predicate OneMore(t: Tables, u: Tables, row: Row) {
    && row.rowId == t.lastRow + 1 && u.journal == t.journal + [row] && u.lastRow == t.lastRow + 1
  }

  lemma SavedTables(t: Tables, hash: string, probes: seq<Snapshot>, now: int)
    requires hash != "" && DistinctIds(probes)
    ensures var u := SaveAssignment(t, hash, probes, now);
            && OneMore(t, u, AssignmentRow(t.lastRow + 1, FirstFree(t), now, hash, probes))
            && u.pending == t.pending && u.completed == t.completed && u.probes == ProbesOf(t.probes, probes) && u.hash == Some(hash)
  {
  }

  lemma SaveAssignmentKeeps(t: Tables, hash: string, probes: seq<Snapshot>, now: int)
    requires Structure(t)
    ensures Kept(t, SaveAssignment(t, hash, probes, now), now)
  {
    if hash != "" && DistinctIds(probes) {
      var row := AssignmentRow(t.lastRow + 1, FirstFree(t), now, hash, probes);
      var u := SaveAssignment(t, hash, probes, now);
      SavedTables(t, hash, probes, now);
      AppendExtends(t, u, row);
      SameDefinitions(t.probes, map[], probes);
      AssignmentRowKeeps(t, u, row);
      QueueStays(t, u);
      if Clocked(t, now) { StillClocked(t, u, row, now); }
    }
  }

  // What a step must leave in place for one part of the invariant to survive it.

  lemma BackedStays(t: Tables, u: Tables)
    requires PendingBacked(t) && u.pending == t.pending && u.completed.Keys <= t.completed.Keys
    requires forall r: Row | r.TriggerRow? && r in t.journal && IsEvent(t.pending, r) :: r in u.journal
    ensures PendingBacked(u)
  {
  }

  lemma RetiredStays(t: Tables, u: Tables)
    requires Retired(t) && u.pending == t.pending
    requires forall r: Row | r.TriggerRow? && r in u.journal ::
               r in t.journal && (DoneAfter(t.journal, r.key, r.rowId) ==> DoneAfter(u.journal, r.key, r.rowId))
    ensures Retired(u)
  {
  }

  lemma RememberedStays(t: Tables, u: Tables)
    requires Remembered(t) && u.completed == t.completed
    requires forall d: Row | d.DoneRow? && d in u.journal ::
               d in t.journal && (DoneAfter(t.journal, d.key, d.rowId) ==> DoneAfter(u.journal, d.key, d.rowId))
    ensures Remembered(u)
  {
  }

  lemma AssignedStays(t: Tables, u: Tables)
    requires Assigned(t) && Definitions(u.probes) == Definitions(t.probes) && u.hash == t.hash
    requires t.probes == map[] ==> u.probes == map[]
    requires forall a: Row | a.AssignmentRow? :: a in t.journal <==> a in u.journal
    ensures Assigned(u)
  {
  }

  lemma ClockedStays(t: Tables, u: Tables, now: int)
    requires forall r: Row | !r.ResultRow? && r in u.journal :: r in t.journal
    ensures Clocked(t, now) ==> Clocked(u, now)
  {
  }
  /** Steps that leave the trigger tables and the trigger rows alone. */
  lemma QueueStays(t: Tables, u: Tables)
    requires PendingBacked(t) && Retired(t) && Remembered(t)
    requires u.pending == t.pending && u.completed == t.completed
    requires forall r: Row | r.TriggerRow? || r.DoneRow? :: r in t.journal <==> r in u.journal
    ensures PendingBacked(u) && Retired(u) && Remembered(u)
  {
  }

  /** A new row that is not an assignment leaves the newest assignment where it was. */
  lemma OtherRowsAssigned(t: Tables, u: Tables, row: Row)
    requires Assigned(t) && !row.AssignmentRow? && Extends(t, u, row)
    requires Definitions(u.probes) == Definitions(t.probes) && u.hash == t.hash
    requires t.probes == map[] ==> u.probes == map[]
    ensures Assigned(u)
  {
  }

  lemma StillClocked(t: Tables, u: Tables, row: Row, now: int)
    requires Clocked(t, now) && Extends(t, u, row) && row.atMs == now
    ensures Clocked(u, now)
  {
  }

  lemma QueuedRow(t: Tables, u: Tables, row: Row)
    requires row.TriggerRow? && Extends(t, u, row) && PendingBacked(t) && Retired(t) && Remembered(t)
    requires row.key !in t.pending && row.key !in t.completed
    requires u.pending == t.pending[row.key := PendingOf(row)] && u.completed == t.completed
    ensures PendingBacked(u) && Retired(u) && Remembered(u)
  {
    forall k | k in u.pending
      ensures exists r :: r in u.journal && r.TriggerRow? && r.key == k && u.pending[k] == PendingOf(r)
    {
      if k == row.key {
        assert row in u.journal;
      } else {
        var r :| r in t.journal && r.TriggerRow? && r.key == k && t.pending[k] == PendingOf(r);
        assert r in u.journal;
      }
    }
    forall r | r in u.journal && r.TriggerRow? ensures IsEvent(u.pending, r) || DoneAfter(u.journal, r.key, r.rowId) {
      if r != row && IsEvent(t.pending, r) { assert r.key != row.key; }
    }
  }

  lemma RecordedTables(t: Tables, event: Event, now: int)
    requires Records(t, event)
    ensures var row, u := TriggerRow(t.lastRow + 1, FirstFree(t), now, KeyOf(event), event.probe), RecordTrigger(t, event, now);
            && OneMore(t, u, row) && row.key !in t.pending && row.key !in t.completed
            && u.pending == t.pending[row.key := PendingOf(row)]
            && u.completed == t.completed && u.probes == t.probes && u.hash == t.hash
  {
  }

  lemma RecordTriggerKeeps(t: Tables, event: Event, now: int)
    requires Structure(t)
    ensures Kept(t, RecordTrigger(t, event, now), now)
  {
    if Records(t, event) {
      var row := TriggerRow(t.lastRow + 1, FirstFree(t), now, KeyOf(event), event.probe);
      var u := RecordTrigger(t, event, now);
      RecordedTables(t, event, now);
      AppendExtends(t, u, row);
      QueuedRow(t, u, row);
      if Clocked(t, now) { StillClocked(t, u, row, now); }
      OtherRowsAssigned(t, u, row);
    }
  }

  lemma RetiredRowBacks(t: Tables, u: Tables, row: Row)
    requires row.DoneRow? && Extends(t, u, row) && PendingBacked(t)
    requires u.pending == t.pending - {row.key} && u.completed == t.completed[row.key := row.atMs]
    ensures PendingBacked(u)
  {
  }

  lemma RetiredRowRetires(t: Tables, u: Tables, row: Row)
    requires row.DoneRow? && Extends(t, u, row) && Retired(t) && u.pending == t.pending - {row.key}
    ensures Retired(u)
  {
  }

  lemma RetiredRowRemembers(t: Tables, u: Tables, row: Row)
    requires row.DoneRow? && Extends(t, u, row) && Remembered(t) && u.completed == t.completed[row.key := row.atMs]
    ensures Remembered(u)
  {
  }

  lemma LastTriggerDefinesNothing(probes: map<string, ProbeRow>, key: TriggerKey)
    ensures Definitions(MarkLastTrigger(probes, key)) == Definitions(probes)
    ensures probes == map[] ==> MarkLastTrigger(probes, key) == map[]
  {
  }

  lemma CompletedTables(t: Tables, key: TriggerKey, now: int)
    ensures var row, u := DoneRow(t.lastRow + 1, FirstFree(t), now, key), CompleteOne(t, key, now);
            && OneMore(t, u, row)
            && u.pending == t.pending - {key} && u.completed == t.completed[key := now]
            && u.probes == MarkLastTrigger(t.probes, key) && u.hash == t.hash
  {
  }

  lemma CompleteOneKeeps(t: Tables, key: TriggerKey, now: int)
    requires Structure(t)
    ensures Kept(t, CompleteOne(t, key, now), now)
  {
    var row := DoneRow(t.lastRow + 1, FirstFree(t), now, key);
    var u := CompleteOne(t, key, now);
    CompletedTables(t, key, now);
    AppendExtends(t, u, row);
    RetiredRowBacks(t, u, row);
    RetiredRowRetires(t, u, row);
    RetiredRowRemembers(t, u, row);
    LastTriggerDefinesNothing(t.probes, key);
    OtherRowsAssigned(t, u, row);
    if Clocked(t, now) { StillClocked(t, u, row, now); }
  }

  lemma {:induction false} CompleteTriggersKeeps(t: Tables, keys: seq<TriggerKey>, now: int)
    requires Structure(t)
    ensures Kept(t, CompleteTriggers(t, keys, now), now)
    decreases |keys|
  {
    if keys != [] {
      CompleteTriggersKeeps(t, keys[..|keys| - 1], now);
      CompleteOneKeeps(CompleteTriggers(t, keys[..|keys| - 1], now), keys[|keys| - 1], now);
    }
  }

  // ---- Steps that touch result rows or run times only ----

  ghost predicate SameControl(a: seq<Row>, b: seq<Row>) {
    forall r: Row | !r.ResultRow? :: r in a <==> r in b
  }

  lemma OnlyResultsChanged(t: Tables, u: Tables, now: int)
    requires Structure(t) && WellOrdered(u) && SameControl(t.journal, u.journal)
    requires u.pending == t.pending && u.completed == t.completed
    requires Definitions(u.probes) == Definitions(t.probes) && u.hash == t.hash && (t.probes == map[] ==> u.probes == map[])
    ensures Kept(t, u, now)
  {
    QueueStays(t, u);
    AssignedStays(t, u);
    ClockedStays(t, u, now);
  }

  lemma MarkProbesRunKeeps(t: Tables, ids: set<string>, at: int, now: int)
    requires Structure(t)
    ensures Kept(t, MarkProbesRun(t, ids, at), now)
  {
    OnlyResultsChanged(t, MarkProbesRun(t, ids, at), now);
  }

  lemma {:induction false} InsertedResults(t: Tables, results: seq<Result>, start: int, now: int)
    requires WellOrdered(t)
    ensures var u := InsertResults(t, results, start, now).0;
            && WellOrdered(u) && SameControl(t.journal, u.journal)
            && u == t.(journal := u.journal, lastRow := u.lastRow)
    decreases |results|
  {
    if results != [] {
      InsertedResults(t, results[..|results| - 1], start, now);
      var before := InsertResults(t, results[..|results| - 1], start, now).0;
      var u := InsertResults(t, results, start, now).0;
      if u != before {
        Appended(before, u.journal[|u.journal| - 1]);
      }
    }
  }

  lemma RecordResultsKeeps(t: Tables, results: seq<Result>, at: int, now: int)
    requires Structure(t)
    ensures Kept(t, RecordResults(t, results, at).0, now)
  {
    InsertedResults(Reserve(t, |results|), results, FirstFree(t), at);
    OnlyResultsChanged(t, RecordResults(t, results, at).0, now);
  }

  /** The only change delivery makes to a row: a pending result is accepted or rejected. */
  predicate Settles(before: Row, after: Row) {
    && IsPending(before) && after.ResultRow? && after.delivery != Pending
    && after == before.(delivery := after.delivery)
  }

  lemma {:induction false} SettledRows(t: Tables, outcomes: seq<Outcome>)
    ensures var u := MarkOutcomes(t, outcomes);
            && u == t.(journal := u.journal) && |u.journal| == |t.journal|
            && forall i | 0 <= i < |t.journal| ::
                 && u.journal[i].rowId == t.journal[i].rowId
                 && (u.journal[i] != t.journal[i] ==> Settles(t.journal[i], u.journal[i]))
    decreases |outcomes|
  {
    if outcomes != [] {
      SettledRows(t, outcomes[..|outcomes| - 1]);
    }
  }

  lemma SettledJournal(t: Tables, u: Tables)
    requires WellOrdered(t) && u.lastRow == t.lastRow && |u.journal| == |t.journal|
    requires forall i | 0 <= i < |t.journal| ::
               && u.journal[i].rowId == t.journal[i].rowId
               && (u.journal[i] != t.journal[i] ==> Settles(t.journal[i], u.journal[i]))
    ensures WellOrdered(u) && SameControl(t.journal, u.journal)
  {
  }

  lemma MarkOutcomesKeeps(t: Tables, outcomes: seq<Outcome>, now: int)
    requires Structure(t)
    ensures Kept(t, MarkOutcomes(t, outcomes), now)
  {
    SettledRows(t, outcomes);
    SettledJournal(t, MarkOutcomes(t, outcomes));
    OnlyResultsChanged(t, MarkOutcomes(t, outcomes), now);
  }

  // ---- Deleting ----

  /** A chunked delete takes every prunable row up to some row id and nothing else. */
  lemma DeletedUpTo(rows: seq<Row>, held: set<int>, cutoff: Option<int>, limit: nat) returns (last: int)
    requires Ordered(rows)
    ensures var left := DeleteFirst(rows, held, cutoff, limit);
            && Ordered(left)
            && (forall r :: r in left <==> r in rows && !(Prunable(r, held, cutoff) && r.rowId <= last))
            && (|rows| - |left| < limit ==> forall r | r in left :: !Prunable(r, held, cutoff))
    ensures |DeleteFirst(rows, held, cutoff, limit)| <= |rows|
    ensures |rows| - |DeleteFirst(rows, held, cutoff, limit)| <= limit
  {
    DeletedCount(rows, held, cutoff, limit);
    DeletedOrdered(rows, held, cutoff, limit);
    last := DeletedWhich(rows, held, cutoff, limit);
  }

  lemma {:induction false} DeletedCount(rows: seq<Row>, held: set<int>, cutoff: Option<int>, limit: nat)
    ensures var left := DeleteFirst(rows, held, cutoff, limit);
            && |left| <= |rows| && |rows| - |left| <= limit
            && (|rows| - |left| < limit ==> forall r | r in left :: !Prunable(r, held, cutoff))
    decreases |rows|
  {
    if rows != [] && limit > 0 {
      if Prunable(rows[0], held, cutoff) { DeletedCount(rows[1..], held, cutoff, limit - 1); }
      else { DeletedCount(rows[1..], held, cutoff, limit); }
    }
  }

  lemma {:induction false} DeletedOrdered(rows: seq<Row>, held: set<int>, cutoff: Option<int>, limit: nat)
    requires Ordered(rows)
    ensures Ordered(DeleteFirst(rows, held, cutoff, limit)) && forall r | r in DeleteFirst(rows, held, cutoff, limit) :: r in rows
    decreases |rows|
  {
    if rows != [] && limit > 0 {
      var head, tail := rows[0], rows[1..];
      if Prunable(head, held, cutoff) {
        DeletedOrdered(tail, held, cutoff, limit - 1);
      } else {
        DeletedOrdered(tail, held, cutoff, limit);
        var left := DeleteFirst(tail, held, cutoff, limit);
        assert DeleteFirst(rows, held, cutoff, limit) == [head] + left;
        HeadIsFirst(rows);
        assert forall i | 0 <= i < |left| :: left[i] in tail;
      }
    }
  }

  lemma HeadIsFirst(rows: seq<Row>)
    requires Ordered(rows) && rows != []
    ensures Ordered(rows[1..]) && forall r | r in rows[1..] :: r in rows && rows[0].rowId < r.rowId
  {
  }

  lemma {:induction false} DeletedWhich(rows: seq<Row>, held: set<int>, cutoff: Option<int>, limit: nat) returns (last: int)
    requires Ordered(rows)
    ensures forall r :: r in DeleteFirst(rows, held, cutoff, limit) <==> r in rows && !(Prunable(r, held, cutoff) && r.rowId <= last)
    decreases |rows|
  {
    if rows == [] {
      last := 0;
    } else if limit == 0 {
      last := rows[0].rowId - 1;
    } else {
      var head, tail := rows[0], rows[1..];
      assert rows == [head] + tail;
      HeadIsFirst(rows);
      if Prunable(head, held, cutoff) {
        last := DeletedWhich(tail, held, cutoff, limit - 1);
        if last < head.rowId { last := head.rowId; }
      } else {
        last := DeletedWhich(tail, held, cutoff, limit);
        assert DeleteFirst(rows, held, cutoff, limit) == [head] + DeleteFirst(tail, held, cutoff, limit);
      }
    }
  }

  lemma HeldRows(t: Tables, r: Row)
    requires Structure(t) && r in t.journal
    ensures r.rowId in EventSeqs(t.pending) <==> r.TriggerRow? && IsEvent(t.pending, r)
  {
    if r.rowId in EventSeqs(t.pending) {
      var k :| k in t.pending && t.pending[k].eventSeq == r.rowId;
      var event :| event in t.journal && event.TriggerRow? && event.key == k && t.pending[k] == PendingOf(event);
      SameRow(t.journal, r, event);
    }
  }

  /** Pruning by age needs the clock; pruning by size does not. */
  lemma PruneKeeps(t: Tables, cutoff: Option<int>, limit: nat, now: int)
    requires Structure(t) && (cutoff.Some? ==> Clocked(t, now))
    ensures Kept(t, PruneUpTo(t, cutoff, limit), now)
  {
    var u := PruneUpTo(t, cutoff, limit);
    PrunedRows(t, cutoff, limit);
    PrunedDone(t, cutoff, limit, now);
    BackedStays(t, u);
    RetiredStays(t, u);
    RememberedStays(t, u);
    AssignedStays(t, u);
    ClockedStays(t, u, now);
  }

  lemma PrunedRows(t: Tables, cutoff: Option<int>, limit: nat)
    requires Structure(t)
    ensures var u := PruneUpTo(t, cutoff, limit);
            && WellOrdered(u) && (forall r | r in u.journal :: r in t.journal)
            && (forall r: Row | r.AssignmentRow? && r in t.journal :: r in u.journal)
            && (forall r: Row | r.TriggerRow? && r in t.journal && IsEvent(t.pending, r) :: r in u.journal)
  {
    var last := DeletedUpTo(t.journal, EventSeqs(t.pending), cutoff, limit);
    forall r: Row | r.TriggerRow? && r in t.journal && IsEvent(t.pending, r) ensures r in PruneUpTo(t, cutoff, limit).journal {
      HeldRows(t, r);
    }
  }

  /** Under a clock that does not run backwards, no chunk can take a completion and leave
      behind a row of the same key before it. */
  lemma PrunedDone(t: Tables, cutoff: Option<int>, limit: nat, now: int)
    requires Structure(t) && (cutoff.Some? ==> Clocked(t, now))
    ensures var u := PruneUpTo(t, cutoff, limit);
            forall r: Row | (r.TriggerRow? || r.DoneRow?) && r in u.journal ::
              DoneAfter(t.journal, r.key, r.rowId) ==> DoneAfter(u.journal, r.key, r.rowId)
  {
    var u := PruneUpTo(t, cutoff, limit);
    var held := EventSeqs(t.pending);
    var last := DeletedUpTo(t.journal, held, cutoff, limit);
    forall r: Row | (r.TriggerRow? || r.DoneRow?) && r in u.journal && DoneAfter(t.journal, r.key, r.rowId)
      ensures DoneAfter(u.journal, r.key, r.rowId)
    {
      var d :| d in t.journal && d.DoneRow? && d.key == r.key && d.rowId > r.rowId;
      HeldRows(t, d);
      CompletedIsNotHeld(t, r, d);
      if Prunable(d, held, cutoff) && d.rowId <= last { LaterIsStamped(t, cutoff, r, d, now); }
    }
  }

  lemma CompletedIsNotHeld(t: Tables, r: Row, d: Row)
    requires Structure(t) && (r.TriggerRow? || r.DoneRow?) && r in t.journal && d in t.journal && d.DoneRow? && d.key == r.key
    ensures r.rowId !in EventSeqs(t.pending)
  {
    HeldRows(t, r);
    assert d.key in t.completed;
  }

  lemma LaterIsStamped(t: Tables, cutoff: Option<int>, r: Row, d: Row, now: int)
    requires cutoff.Some? ==> Clocked(t, now)
    requires r in t.journal && d in t.journal && !r.ResultRow? && !d.ResultRow? && r.rowId < d.rowId
    ensures cutoff.Some? ==> r.atMs <= d.atMs
  {
  }

  /** Completion records older than the cutoff may go once no completion row that old is left. */
  lemma PruneCompletedKeeps(t: Tables, cutoff: int, now: int)
    requires Structure(t)
    requires forall d | d in t.journal && d.DoneRow? :: d.atMs >= cutoff
    ensures Kept(t, PruneCompleted(t, cutoff), now)
  {
    var u := PruneCompleted(t, cutoff);
    BackedStays(t, u);
    RetiredStays(t, u);
    PrunedCompletedRemembers(t, cutoff);
    AssignedStays(t, u);
    ClockedStays(t, u, now);
  }

  lemma PrunedCompletedRemembers(t: Tables, cutoff: int)
    requires WellOrdered(t) && Remembered(t)
    requires forall d | d in t.journal && d.DoneRow? :: d.atMs >= cutoff
    ensures Remembered(PruneCompleted(t, cutoff))
  {
    var u := PruneCompleted(t, cutoff);
    forall d | d in u.journal && d.DoneRow?
      ensures d.key in u.completed && (!DoneAfter(u.journal, d.key, d.rowId) ==> u.completed[d.key] == d.atMs)
    {
      var newest := LastDone(t.journal, d.key);
    }
  }

  lemma {:induction false} KeptRows(rows: seq<Row>, whole: seq<Row>)
    requires Ordered(rows)
    ensures Ordered(Keep(rows, whole))
    ensures forall r :: r in Keep(rows, whole) <==> r in rows && !OldAssignment(whole, r)
    decreases |rows|
  {
    if rows != [] {
      KeptRows(rows[1..], whole);
      var tail := Keep(rows[1..], whole);
      assert rows == [rows[0]] + rows[1..];
      assert forall i | 0 <= i < |tail| :: tail[i] in rows[1..];
    }
  }

  lemma CollapseKeeps(t: Tables, now: int)
    requires Structure(t)
    ensures Kept(t, Collapse(t), now)
  {
    var u := Collapse(t);
    KeptRows(t.journal, t.journal);
    QueueStays(t, u);
    CollapsedAssigned(t);
    ClockedStays(t, u, now);
  }

  lemma CollapsedAssigned(t: Tables)
    requires WellOrdered(t) && Assigned(t)
    ensures Assigned(Collapse(t))
  {
    var u := Collapse(t);
    KeptRows(t.journal, t.journal);
    if a :| a in t.journal && a.AssignmentRow? {
      var newest := NewestAssignment(t.journal);
      assert newest in u.journal;
      forall b | NewestIn(u.journal, b) ensures b == newest { SameRow(t.journal, b, newest); }
    }
  }

  lemma RebuildKeeps(t: Tables, now: int)
    requires Structure(t)
    ensures Kept(t, Rebuild(t), now)
  {
    var u := Rebuild(t);
    StructureIsFaithful(t);
    ReplayKeepsJournal(t, t.journal);
    BackedStays(t, u);
    RetiredStays(t, u);
    RebuiltRemembers(t);
    RebuiltAssigned(t);
    ClockedStays(t, u, now);
  }

  lemma RebuiltRemembers(t: Tables)
    requires WellOrdered(t)
    ensures Remembered(Rebuild(t))
  {
    ReplayKeepsJournal(t, t.journal);
    var u := Rebuild(t);
    forall d | d in u.journal && d.DoneRow?
      ensures d.key in u.completed && (!DoneAfter(u.journal, d.key, d.rowId) ==> u.completed[d.key] == d.atMs)
    {
      ReplayedCompleted(t, t.journal, d.key);
    }
  }

  lemma RebuiltAssigned(t: Tables)
    requires WellOrdered(t)
    ensures Assigned(Rebuild(t))
  {
    ReplayKeepsJournal(t, t.journal);
    ReplayedProbes(t, t.journal);
    RunTimesDefineNothing(Replay(t, t.journal));
  }

  lemma {:induction false} ReplayKeepsJournal(t: Tables, rows: seq<Row>)
    ensures var u := Replay(t, rows); u.journal == t.journal && u.lastRow == t.lastRow && u.nextSeq == t.nextSeq
    decreases |rows|
  {
    if rows != [] { ReplayKeepsJournal(t, rows[..|rows| - 1]); }
  }
}
