/** Replaying the surviving journal gives back the live control tables. */
module StoreReplay {

  import opened Prelude
  import opened Wire
  import opened StoreTables

  // ---- The journal ----

  predicate Ordered(rows: seq<Row>) {
    forall i, j | 0 <= i < j < |rows| :: rows[i].rowId < rows[j].rowId
  }

  lemma SameRow(rows: seq<Row>, a: Row, b: Row)
    requires Ordered(rows) && a in rows && b in rows && a.rowId == b.rowId
    ensures a == b
  {
  }

  ghost predicate DoneAfter(rows: seq<Row>, key: TriggerKey, rowId: int) {
    exists d :: d in rows && d.DoneRow? && d.key == key && d.rowId > rowId
  }

  predicate NewestIn(rows: seq<Row>, a: Row) {
    a in rows && a.AssignmentRow? && forall b | b in rows && b.AssignmentRow? :: b.rowId <= a.rowId
  }

  function PendingOf(r: Row): PendingRow
    requires r.TriggerRow?
  {
    PendingRow(r.rowId, r.atMs, r.snapshot)
  }

  ghost predicate IsEvent(pending: map<TriggerKey, PendingRow>, r: Row)
    requires r.TriggerRow?
  {
    r.key in pending && pending[r.key] == PendingOf(r)
  }

  function Definitions(probes: map<string, ProbeRow>): map<string, Snapshot> {
    map id | id in probes :: probes[id].snapshot
  }

  // ---- The invariant ----

  ghost predicate WellOrdered(t: Tables) {
    && Ordered(t.journal)
    && (forall r | r in t.journal :: 1 <= r.rowId <= t.lastRow)
  }

  /** Control rows carry the clock readings of their transactions, in order. */
  ghost predicate Clocked(t: Tables, now: int) {
    && (forall r | r in t.journal && !r.ResultRow? :: r.atMs <= now)
    && (forall a, b | a in t.journal && b in t.journal && !a.ResultRow? && !b.ResultRow? && a.rowId < b.rowId :: a.atMs <= b.atMs)
  }

  ghost predicate PendingBacked(t: Tables) {
    forall k | k in t.pending ::
      && k !in t.completed
      && exists r :: r in t.journal && r.TriggerRow? && r.key == k && t.pending[k] == PendingOf(r)
  }

  ghost predicate Retired(t: Tables) {
    forall r | r in t.journal && r.TriggerRow? :: IsEvent(t.pending, r) || DoneAfter(t.journal, r.key, r.rowId)
  }

  ghost predicate Remembered(t: Tables) {
    forall d | d in t.journal && d.DoneRow? ::
      && d.key in t.completed
      && (!DoneAfter(t.journal, d.key, d.rowId) ==> t.completed[d.key] == d.atMs)
  }

  ghost predicate Assigned(t: Tables) {
    && (forall a | NewestIn(t.journal, a) ::
          Definitions(t.probes) == Definitions(ProbesOf(map[], a.probes)) && t.hash == Some(a.hash))
    && ((forall a | a in t.journal :: !a.AssignmentRow?) ==> t.probes == map[] && t.hash == None)
  }

  /** All that replay needs, whatever the clock does. */
  ghost predicate Structure(t: Tables) {
    WellOrdered(t) && PendingBacked(t) && Retired(t) && Remembered(t) && Assigned(t)
  }

  ghost predicate Inv(t: Tables, now: int) {
    Structure(t) && Clocked(t, now)
  }

  lemma InitInv(now: int)
    ensures Inv(Empty, now)
  {
  }

  // ---- What replay computes ----

  lemma PrefixOrdered(rows: seq<Row>)
    requires Ordered(rows) && rows != []
    ensures Ordered(rows[..|rows| - 1])
    ensures forall r | r in rows[..|rows| - 1] :: r in rows && r.rowId < rows[|rows| - 1].rowId
    ensures forall r :: r in rows <==> r in rows[..|rows| - 1] || r == rows[|rows| - 1]
  {
  }

  /** A trigger row that no later row of `rows` completes. */
  ghost predicate Open(rows: seq<Row>, k: TriggerKey, r: Row) {
    r in rows && r.TriggerRow? && r.key == k && !DoneAfter(rows, k, r.rowId)
  }

  lemma OpenStep(rows: seq<Row>, k: TriggerKey, r: Row)
    requires Ordered(rows) && rows != []
    ensures var before, last := rows[..|rows| - 1], rows[|rows| - 1];
            Open(rows, k, r) <==>
              if last.DoneRow? && last.key == k then false
              else Open(before, k, r) || (r == last && r.TriggerRow? && r.key == k)
  {
  }

  /** A key is in the replayed queue exactly when one of its trigger rows is open;
      the queued values are those of such a row. */
  lemma {:induction false} ReplayedPending(t: Tables, rows: seq<Row>, k: TriggerKey)
    requires Ordered(rows)
    ensures k in Replay(t, rows).pending ==>
              exists r :: Open(rows, k, r) && Replay(t, rows).pending[k] == PendingOf(r)
    ensures (exists r :: Open(rows, k, r)) ==> k in Replay(t, rows).pending
    decreases |rows|
  {
    if rows != [] {
      var before, last := rows[..|rows| - 1], rows[|rows| - 1];
      PrefixOrdered(rows);
      ReplayedPending(t, before, k);
      forall r { OpenStep(rows, k, r); }
      var queue := Replay(t, before).pending;
      if k in queue && !(last.DoneRow? && last.key == k) {
        var r :| Open(before, k, r) && queue[k] == PendingOf(r);
        assert Open(rows, k, r);
        assert Replay(t, rows).pending[k] == queue[k];
      } else if last.TriggerRow? && last.key == k {
        assert Open(rows, k, last);
      }
    }
  }

  lemma DoneAfterStep(rows: seq<Row>, k: TriggerKey, rowId: int)
    requires rows != []
    ensures var before, last := rows[..|rows| - 1], rows[|rows| - 1];
            DoneAfter(rows, k, rowId) <==> DoneAfter(before, k, rowId) || (last.DoneRow? && last.key == k && last.rowId > rowId)
  {
  }

  /** A completion on record in the replay is one that the journal holds, the last one's. */
  lemma {:induction false} ReplayedCompleted(t: Tables, rows: seq<Row>, k: TriggerKey)
    requires Ordered(rows)
    ensures k in Replay(t, rows).completed <==> exists d :: d in rows && d.DoneRow? && d.key == k
    ensures forall d | d in rows && d.DoneRow? && d.key == k && !DoneAfter(rows, k, d.rowId) ::
              k in Replay(t, rows).completed && Replay(t, rows).completed[k] == d.atMs
    decreases |rows|
  {
    if rows != [] {
      var before, last := rows[..|rows| - 1], rows[|rows| - 1];
      PrefixOrdered(rows);
      ReplayedCompleted(t, before, k);
      forall d | d in rows && d.DoneRow? && d.key == k && !DoneAfter(rows, k, d.rowId)
        ensures k in Replay(t, rows).completed && Replay(t, rows).completed[k] == d.atMs
      {
        DoneAfterStep(rows, k, d.rowId);
        assert last.DoneRow? && last.key == k ==> d == last;
      }
    }
  }

  lemma {:induction false} SameDefinitions(a: map<string, ProbeRow>, b: map<string, ProbeRow>, probes: seq<Snapshot>)
    ensures Definitions(ProbesOf(a, probes)) == Definitions(ProbesOf(b, probes))
    decreases |probes|
  {
    if probes != [] {
      var last := probes[|probes| - 1];
      SameDefinitions(a, b, probes[..|probes| - 1]);
      DefinesOneMore(ProbesOf(a, probes[..|probes| - 1]), last.id, CarriedOver(a, last));
      DefinesOneMore(ProbesOf(b, probes[..|probes| - 1]), last.id, CarriedOver(b, last));
    }
  }

  lemma DefinesOneMore(probes: map<string, ProbeRow>, id: string, row: ProbeRow)
    ensures Definitions(probes[id := row]) == Definitions(probes)[id := row.snapshot]
  {
  }

  lemma OnlyAssignmentsDefine(t: Tables, row: Row)
    requires !row.AssignmentRow?
    ensures Definitions(Apply(t, row).probes) == Definitions(t.probes) && Apply(t, row).hash == t.hash
    ensures t.probes == map[] ==> Apply(t, row).probes == map[]
  {
  }

  /** The last assignment row decides the replayed definitions and hash. */
  lemma {:induction false} ReplayedProbes(t: Tables, rows: seq<Row>)
    requires Ordered(rows)
    ensures forall a | NewestIn(rows, a) ::
              && Definitions(Replay(t, rows).probes) == Definitions(ProbesOf(map[], a.probes))
              && Replay(t, rows).hash == Some(a.hash)
    ensures (forall a | a in rows :: !a.AssignmentRow?) ==>
              Replay(t, rows).probes == map[] && Replay(t, rows).hash == None
    decreases |rows|
  {
    if rows != [] {
      var before, last := rows[..|rows| - 1], rows[|rows| - 1];
      PrefixOrdered(rows);
      ReplayedProbes(t, before);
      assert last in rows;
      if last.AssignmentRow? {
        forall a | NewestIn(rows, a) ensures a == last { SameRow(rows, a, last); }
      } else {
        OnlyAssignmentsDefine(Replay(t, before), last);
        forall a | NewestIn(rows, a) ensures NewestIn(before, a) {}
      }
    }
  }

  // ---- Faithfulness of one state ----

  ghost predicate FaithfulQueue(t: Tables) {
    Replay(t, t.journal).pending == t.pending
  }

  /** What a rebuild may be trusted for. */
  ghost predicate Faithful(t: Tables) {
    var rebuilt := Rebuild(t);
    && rebuilt.pending == t.pending
    && Definitions(rebuilt.probes) == Definitions(t.probes)
    && rebuilt.hash == t.hash
    && (forall k | k in rebuilt.completed :: k in t.completed && rebuilt.completed[k] == t.completed[k])
  }

  lemma BackedGivesQueue(t: Tables)
    requires Ordered(t.journal) && PendingBacked(t) && Retired(t)
    requires forall d | d in t.journal && d.DoneRow? :: d.key in t.completed
    ensures FaithfulQueue(t)
  {
    var replayed := Replay(t, t.journal).pending;
    forall k
      ensures k in replayed <==> k in t.pending
      ensures k in replayed ==> replayed[k] == t.pending[k]
    {
      ReplayedPending(t, t.journal, k);
      if k in t.pending {
        var r :| r in t.journal && r.TriggerRow? && r.key == k && t.pending[k] == PendingOf(r);
        assert Open(t.journal, k, r);
      }
    }
  }

  lemma StructureGivesQueue(t: Tables)
    requires Structure(t)
    ensures FaithfulQueue(t)
  {
    BackedGivesQueue(t);
  }

  lemma LastDone(rows: seq<Row>, k: TriggerKey) returns (last: Row)
    requires Ordered(rows) && exists d :: d in rows && d.DoneRow? && d.key == k
    ensures last in rows && last.DoneRow? && last.key == k && !DoneAfter(rows, k, last.rowId)
  {
    PrefixOrdered(rows);
    var before := rows[..|rows| - 1];
    if rows[|rows| - 1].DoneRow? && rows[|rows| - 1].key == k {
      last := rows[|rows| - 1];
    } else {
      last := LastDone(before, k);
    }
  }

  lemma StructureIsFaithful(t: Tables)
    requires Structure(t)
    ensures Faithful(t)
  {
    StructureGivesQueue(t);
    AssignedReplays(t);
    RememberedReplays(t);
    RunTimesDefineNothing(Replay(t, t.journal));
  }

  lemma RunTimesDefineNothing(t: Tables)
    ensures Definitions(RestoreRunTimes(t).probes) == Definitions(t.probes)
  {
  }

  lemma AssignedReplays(t: Tables)
    requires WellOrdered(t) && Assigned(t)
    ensures var replayed := Replay(t, t.journal);
            Definitions(replayed.probes) == Definitions(t.probes) && replayed.hash == t.hash
  {
    ReplayedProbes(t, t.journal);
    if a :| a in t.journal && a.AssignmentRow? {
      var newest := NewestAssignment(t.journal);
    }
  }

  lemma RememberedReplays(t: Tables)
    requires WellOrdered(t) && Remembered(t)
    ensures var replayed := Replay(t, t.journal).completed;
            forall k | k in replayed :: k in t.completed && replayed[k] == t.completed[k]
  {
    var replayed := Replay(t, t.journal).completed;
    forall k | k in replayed ensures k in t.completed && replayed[k] == t.completed[k] {
      ReplayedCompleted(t, t.journal, k);
      var d := LastDone(t.journal, k);
    }
  }

  lemma NewestAssignment(rows: seq<Row>) returns (newest: Row)
    requires Ordered(rows) && exists a :: a in rows && a.AssignmentRow?
    ensures NewestIn(rows, newest)
  {
    PrefixOrdered(rows);
    var before := rows[..|rows| - 1];
    if rows[|rows| - 1].AssignmentRow? {
      newest := rows[|rows| - 1];
    } else {
      newest := NewestAssignment(before);
    }
  }

  /** The run time that a rebuild restores is the newest observation of the probe on record. */
  lemma {:induction false} NewestRunIsNewest(rows: seq<Row>, probeId: string)
    ensures NewestRun(rows, probeId).Some? <==> exists r :: r in rows && r.ResultRow? && r.result.probeId == probeId
    ensures NewestRun(rows, probeId).Some? ==>
              && (exists r :: r in rows && r.ResultRow? && r.result.probeId == probeId && r.atMs == NewestRun(rows, probeId).value)
              && forall r | r in rows && r.ResultRow? && r.result.probeId == probeId :: r.atMs <= NewestRun(rows, probeId).value
    decreases |rows|
  {
    if rows != [] {
      var before, last := rows[..|rows| - 1], rows[|rows| - 1];
      assert rows == before + [last];
      NewestRunIsNewest(before, probeId);
      assert last in rows && forall r | r in before :: r in rows;
    }
  }
}
