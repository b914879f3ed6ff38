/** What each transaction writes, in terms of the rows and columns it touches. */
module StoreMeaning {

  import opened Prelude
  import opened Wire
  import opened StoreTables
  import opened StoreReplay
  import opened StoreSteps

  // ---- Assignments ----

  predicate LastOf(probes: seq<Snapshot>, id: string, i: nat) {
    i < |probes| && probes[i].id == id && forall j | i < j < |probes| :: probes[j].id != id
  }

  /** The row has this definition, and the schedule state that the probe had before, if any. */
  predicate DefinesAnew(existing: map<string, ProbeRow>, snapshot: Snapshot, row: ProbeRow) {
    && row.snapshot == snapshot
    && row.lastRunAt == (if snapshot.id in existing then existing[snapshot.id].lastRunAt else None)
    && row.lastTriggerRunId == (if snapshot.id in existing then existing[snapshot.id].lastTriggerRunId else None)
  }

  lemma {:induction false} ProbesOfMeaning(existing: map<string, ProbeRow>, probes: seq<Snapshot>, id: string)
    ensures id in ProbesOf(existing, probes) <==> exists i: nat :: LastOf(probes, id, i)
    ensures forall i: nat | LastOf(probes, id, i) :: id in ProbesOf(existing, probes) && DefinesAnew(existing, probes[i], ProbesOf(existing, probes)[id])
    decreases |probes|
  {
    if probes != [] {
      var n := |probes| - 1;
      ProbesOfMeaning(existing, probes[..n], id);
      if probes[n].id == id {
        assert LastOf(probes, id, n);
      } else {
        forall i: nat ensures LastOf(probes, id, i) <==> LastOf(probes[..n], id, i) {}
      }
    }
  }

  /** An assignment without a hash or with a repeated id changes nothing. Any other one is journaled
      and becomes the probes table: its own probes and no others, each with its new definition
      and its old run time and last trigger. */
  lemma SaveAssignmentMeaning(t: Tables, hash: string, probes: seq<Snapshot>, now: int, id: string)
    ensures var u := SaveAssignment(t, hash, probes, now);
            if hash == "" || (exists i, j :: 0 <= i < j < |probes| && probes[i].id == probes[j].id) then u == t
            else
              && u == t.(journal := t.journal + [AssignmentRow(t.lastRow + 1, FirstFree(t), now, hash, probes)], lastRow := t.lastRow + 1,
                         nextSeq := Some(FirstFree(t) + 1), probes := u.probes, hash := Some(hash))
              && (id in u.probes <==> exists i :: 0 <= i < |probes| && probes[i].id == id)
              && forall i | 0 <= i < |probes| && probes[i].id == id :: DefinesAnew(t.probes, probes[i], u.probes[id])
  {
    ProbesOfMeaning(t.probes, probes, id);
    if DistinctIds(probes) {
      forall i | 0 <= i < |probes| && probes[i].id == id ensures LastOf(probes, id, i) {}
    }
  }

  // ---- Triggers ----

  /** An event is recorded exactly when it is a triggered one with both ids, its key is neither
      queued nor completed, and it is not the run that its probe was last triggered for; it then
      becomes the newest journal row and waits in the queue with the event's own snapshot. */
  lemma RecordTriggerMeaning(t: Tables, event: Event, now: int)
    ensures var u, key := RecordTrigger(t, event, now), TriggerKey(event.probe.id, event.runId);
            if && event.eventType == "triggered" && event.runId != "" && event.probe.id != ""
               && key !in t.pending && key !in t.completed
               && (key.probeId in t.probes ==> t.probes[key.probeId].lastTriggerRunId != Some(event.runId))
            then u == t.(journal := t.journal + [TriggerRow(t.lastRow + 1, FirstFree(t), now, key, event.probe)], lastRow := t.lastRow + 1,
                         nextSeq := Some(FirstFree(t) + 1), pending := t.pending[key := PendingRow(t.lastRow + 1, now, event.probe)])
            else u == t
  {
  }

  /** Completing a trigger journals it, takes it off the queue, keeps the time and notes the run
      as its probe's last. */
  lemma CompleteOneMeaning(t: Tables, key: TriggerKey, now: int, id: string)
    ensures var u := CompleteOne(t, key, now);
            && u == t.(journal := t.journal + [DoneRow(t.lastRow + 1, FirstFree(t), now, key)], lastRow := t.lastRow + 1,
                       nextSeq := Some(FirstFree(t) + 1), pending := t.pending - {key}, completed := t.completed[key := now], probes := u.probes)
            && u.probes.Keys == t.probes.Keys
            && (id in t.probes ==>
                  u.probes[id] == if id == key.probeId then t.probes[id].(lastTriggerRunId := Some(key.runId)) else t.probes[id])
  {
  }
  /** Completing a list takes exactly its keys off the queue and records each of them. */
  lemma {:induction false} CompleteTriggersMeaning(t: Tables, keys: seq<TriggerKey>, now: int, k: TriggerKey)
    ensures var u := CompleteTriggers(t, keys, now);
            && (k in u.pending <==> k in t.pending && k !in keys) && (k in u.pending ==> u.pending[k] == t.pending[k])
            && (k in u.completed <==> k in t.completed || k in keys)
            && (k in u.completed ==> u.completed[k] == if k in keys then now else t.completed[k])
            && |u.journal| == |t.journal| + |keys| && t.journal <= u.journal
    decreases |keys|
  {
    if keys != [] {
      var n := |keys| - 1;
      CompleteTriggersMeaning(t, keys[..n], now, k);
      assert keys == keys[..n] + [keys[n]];
    }
  }

  // ---- Run times ----
  lemma MarkProbesRunMeaning(t: Tables, ids: set<string>, at: int, id: string)
    ensures var u := MarkProbesRun(t, ids, at);
            && u == t.(probes := u.probes) && u.probes.Keys == t.probes.Keys
            && (id in t.probes ==> u.probes[id] == if id in ids then t.probes[id].(lastRunAt := Some(at)) else t.probes[id])
  {
  }

  /** A row of this probe, the latest of them. */
  ghost predicate LatestRun(rows: seq<Row>, probeId: string, r: Row) {
    && r in rows && r.ResultRow? && r.result.probeId == probeId
    && forall q | q in rows && q.ResultRow? && q.result.probeId == probeId :: q.atMs <= r.atMs
  }

  lemma {:induction false} ReplayKnowsNoRuns(t: Tables, rows: seq<Row>, id: string)
    ensures id in Replay(t, rows).probes ==> Replay(t, rows).probes[id].lastRunAt == None
    decreases |rows|
  {
    if rows != [] {
      var last := rows[|rows| - 1];
      ReplayKnowsNoRuns(t, rows[..|rows| - 1], id);
      if last.AssignmentRow? {
        ProbesOfMeaning(map[], last.probes, id);
        if i: nat :| LastOf(last.probes, id, i) {}
      }
    }
  }

  /** After a rebuild a probe was last run when its latest result on record was observed, and never
      if there is none. */
  lemma RebuiltRunTimes(t: Tables, id: string)
    requires id in Rebuild(t).probes
    ensures Rebuild(t).probes[id].lastRunAt.None? <==> forall r | r in t.journal && r.ResultRow? :: r.result.probeId != id
    ensures Rebuild(t).probes[id].lastRunAt.Some? ==>
              exists r :: LatestRun(t.journal, id, r) && Rebuild(t).probes[id].lastRunAt == Some(r.atMs)
  {
    ReplayKnowsNoRuns(t, t.journal, id);
    ReplayKeepsJournal(t, t.journal);
    NewestRunIsNewest(t.journal, id);
    if NewestRun(t.journal, id).Some? {
      var r :| r in t.journal && r.ResultRow? && r.result.probeId == id && r.atMs == NewestRun(t.journal, id).value;
      assert LatestRun(t.journal, id, r);
    }
  }

  // ---- Pruning ----

  /** A row that no pruning statement may take: an assignment, a result still to be delivered, or
      the row that a queued trigger was recorded by. */
  ghost predicate Protected(t: Tables, r: Row) {
    r.AssignmentRow? || (r.ResultRow? && r.delivery == Pending) || (r.TriggerRow? && IsEvent(t.pending, r))
  }

  lemma PrunableExactly(t: Tables, r: Row, cutoff: Option<int>)
    requires Structure(t) && r in t.journal
    ensures Prunable(r, EventSeqs(t.pending), cutoff) <==> !Protected(t, r) && (cutoff.Some? ==> r.atMs < cutoff.value)
  {
    HeldRows(t, r);
  }
}
