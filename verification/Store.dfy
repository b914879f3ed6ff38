/** The store itself: tables as fields, one method per transaction. */
module Store {

  import opened Prelude
  import opened Wire
  import opened StoreTables
  import opened StoreReplay
  import opened StoreSteps
  import opened StorePruning
  import opened StoreMeaning
  import opened StoreResults
  import opened Rollups
  import opened RollupRuns
  import opened Outbox

  datatype MaintainStats = MaintainStats(
    deletedRows: int, deletedRollups: int, rolledUpResults: int, prunedTriggers: int, overBudget: bool)

  /** The result rows between two cursor positions. */
  function Between(journal: seq<Row>, lo: int, hi: int): (rows: seq<Row>)
    ensures AllResults(rows)
  {
    if journal == [] then []
    else Taken(journal[0], lo, hi) + Between(journal[1..], lo, hi)
  }

  function Taken(row: Row, lo: int, hi: int): (rows: seq<Row>)
    ensures AllResults(rows)
  {
    if row.ResultRow? && lo < row.rowId <= hi then [row] else []
  }

  lemma {:induction false} BetweenEmpty(journal: seq<Row>, lo: int, hi: int)
    requires lo >= hi
    ensures Between(journal, lo, hi) == []
    decreases |journal|
  {
    if journal != [] { BetweenEmpty(journal[1..], lo, hi); }
  }

  /** A chunk read at the cursor is the next stretch of result rows, nothing left out. */
  lemma {:induction false} ChunkIsNextStretch(journal: seq<Row>, after: int, limit: nat)
    requires Ordered(journal)
    ensures NextStretch(journal, after, Chunk(journal, after, limit))
    decreases |journal|
  {
    if journal == [] || limit == 0 {
      ChunkEnds(journal, after, limit);
    } else {
      HeadIsFirst(journal);
      if journal[0].ResultRow? && journal[0].rowId > after {
        ChunkIsNextStretch(journal[1..], after, limit - 1);
        StretchWithHead(journal, after, limit);
      } else {
        ChunkIsNextStretch(journal[1..], after, limit);
        StretchWithoutHead(journal, after, limit);
      }
    }
  }

  lemma ChunkEnds(journal: seq<Row>, after: int, limit: nat)
    requires journal == [] || limit == 0
    ensures Chunk(journal, after, limit) == []
  {
  }

  lemma StretchWithHead(journal: seq<Row>, after: int, limit: nat)
    requires Ordered(journal) && journal != [] && limit > 0 && journal[0].ResultRow? && journal[0].rowId > after
    requires Ordered(journal[1..]) && NextStretch(journal[1..], after, Chunk(journal[1..], after, limit - 1))
    ensures NextStretch(journal, after, Chunk(journal, after, limit))
  {
    ChunkUnfolds(journal, after, limit);
    ChunkSelects(journal[1..], after, limit - 1);
    StretchFrom(journal, after, Chunk(journal[1..], after, limit - 1));
  }

  lemma StretchWithoutHead(journal: seq<Row>, after: int, limit: nat)
    requires journal != [] && limit > 0 && !(journal[0].ResultRow? && journal[0].rowId > after)
    requires NextStretch(journal[1..], after, Chunk(journal[1..], after, limit))
    ensures NextStretch(journal, after, Chunk(journal, after, limit))
  {
    ChunkUnfolds(journal, after, limit);
    StretchBehind(journal, after, Chunk(journal[1..], after, limit));
  }

  /** The rows are all the result rows behind the cursor up to their own last one. */
  predicate NextStretch(journal: seq<Row>, after: int, rows: seq<Row>) {
    rows != [] ==> rows == Between(journal, after, rows[|rows| - 1].rowId)
  }

  lemma ChunkUnfolds(journal: seq<Row>, after: int, limit: nat)
    requires journal != [] && limit > 0
    ensures Chunk(journal, after, limit) ==
              if journal[0].ResultRow? && journal[0].rowId > after then [journal[0]] + Chunk(journal[1..], after, limit - 1)
              else Chunk(journal[1..], after, limit)
  {
  }

  lemma StretchBehind(journal: seq<Row>, after: int, rows: seq<Row>)
    requires journal != [] && !(journal[0].ResultRow? && journal[0].rowId > after) && NextStretch(journal[1..], after, rows)
    ensures NextStretch(journal, after, rows)
  {
    if rows != [] { BetweenSkips(journal, after, rows[|rows| - 1].rowId); }
  }

  lemma BetweenSkips(journal: seq<Row>, lo: int, hi: int)
    requires journal != [] && !(journal[0].ResultRow? && journal[0].rowId > lo)
    ensures Between(journal, lo, hi) == Between(journal[1..], lo, hi)
  {
  }

  lemma LaterAbove(journal: seq<Row>)
    requires Ordered(journal) && journal != []
    ensures Ordered(journal[1..]) && forall r | r in journal[1..] :: r.rowId > journal[0].rowId
  {
    forall r | r in journal[1..] ensures r.rowId > journal[0].rowId {
      var i :| 0 <= i < |journal[1..]| && journal[1..][i] == r;
      assert r == journal[i + 1];
    }
  }

  lemma StretchFrom(journal: seq<Row>, after: int, rest: seq<Row>)
    requires Ordered(journal) && journal != [] && journal[0].ResultRow? && journal[0].rowId > after
    requires forall r | r in rest :: r in journal[1..]
    requires NextStretch(journal[1..], after, rest)
    ensures NextStretch(journal, after, [journal[0]] + rest)
  {
    var head, tail := journal[0], journal[1..];
    LaterAbove(journal);
    if rest == [] {
      NothingBelow(tail, after, head.rowId);
      assert Between(journal, after, head.rowId) == [head] + Between(tail, after, head.rowId);
    } else {
      var last := rest[|rest| - 1];
      assert last in rest;
      assert Between(journal, after, last.rowId) == [head] + Between(tail, after, last.rowId);
    }
  }

  lemma {:induction false} NothingBelow(journal: seq<Row>, lo: int, hi: int)
    requires forall r | r in journal :: r.rowId > hi
    ensures Between(journal, lo, hi) == []
    decreases |journal|
  {
    if journal != [] { NothingBelow(journal[1..], lo, hi); }
  }

  lemma HeadJoins(head: Row, a: int, b: int, c: int, low: seq<Row>, high: seq<Row>)
    requires a <= b <= c && (head.rowId > b ==> low == [])
    ensures (Taken(head, a, b) + low) + (Taken(head, b, c) + high) == Taken(head, a, c) + (low + high)
  {
    if head.rowId <= b {
      assert Taken(head, b, c) + high == high;
    } else {
      assert Taken(head, a, b) + low == [];
    }
  }

  lemma {:induction false} StretchesJoin(journal: seq<Row>, a: int, b: int, c: int)
    requires Ordered(journal) && a <= b <= c
    ensures Between(journal, a, b) + Between(journal, b, c) == Between(journal, a, c)
    decreases |journal|
  {
    if journal != [] {
      var head, tail := journal[0], journal[1..];
      StretchesJoin(tail, a, b, c);
      if head.rowId > b {
        LaterAbove(journal);
        NothingBelow(tail, a, b);
      }
      HeadJoins(head, a, b, c, Between(tail, a, b), Between(tail, b, c));
    }
  }

  /** `rollups` is what `before` becomes when `rows` are counted into it, whatever `before`
      had counted. */
  ghost predicate CountedInto(before: map<RollupKey, Agg>, rows: seq<Row>, rollups: map<RollupKey, Agg>)
    requires AllResults(rows)
  {
    forall k, counted | AllResults(counted) && Counts(before, counted, k) :: AllResults(counted + rows) && Counts(rollups, counted + rows, k)
  }

  /** Every bucket describes the rows that `before` had counted and `rows` besides. */
  ghost predicate DescribedInto(before: map<RollupKey, Agg>, rows: seq<Row>, rollups: map<RollupKey, Agg>) {
    forall k, counted | AllResults(counted) && Counts(before, counted, k) && k in rollups :: Describes(rollups[k], counted + rows, k)
  }

  lemma CountedIsDescribed(before: map<RollupKey, Agg>, rows: seq<Row>, rollups: map<RollupKey, Agg>)
    requires AllResults(rows) && CountedInto(before, rows, rollups)
    ensures DescribedInto(before, rows, rollups)
  {
    forall k, counted | AllResults(counted) && Counts(before, counted, k) && k in rollups
      ensures Describes(rollups[k], counted + rows, k)
    {
      CountsMeaning(rollups, counted + rows, k);
    }
  }

  class Store {
    var journal: seq<Row>
    var lastRow: nat
    var nextSeq: Option<int>
    var probes: map<string, ProbeRow>
    var hash: Option<string>
    var pending: map<TriggerKey, PendingRow>
    var completed: map<TriggerKey, int>
    var rollups: map<RollupKey, Agg>
    var cursor: int

    function View(): Tables
      reads this
    {
      Tables(journal, lastRow, nextSeq, probes, hash, pending, completed)
    }

    constructor ()
      ensures View() == Empty && rollups == map[] && cursor == 0
    {
      journal, lastRow, nextSeq := [], 0, None;
      probes, hash, pending, completed := map[], None, map[], map[];
      rollups, cursor := map[], 0;
    }

    /** nextOriginSeq; every caller reserves at least one number. */
    method NextOriginSeq(count: nat) returns (start: int)
      requires count >= 1
      modifies this`nextSeq
      ensures start == FirstFree(old(View()))
      ensures View() == Reserve(old(View()), count)
    {
      if nextSeq.None? {
        nextSeq := Some(count + 1);
        return 1;
      }
      start := nextSeq.value;
      nextSeq := Some(start + count);
    }

    method Insert(row: Row)
      requires row.rowId == lastRow + 1
      modifies this`journal, this`lastRow
      ensures View() == Append(old(View()), row)
    {
      journal := journal + [row];
      lastRow := lastRow + 1;
    }

    /** The new probes table; a repeated id breaks the primary key. */
    method ApplyAssignment(snapshots: seq<Snapshot>) returns (next: map<string, ProbeRow>, ok: bool)
      ensures ok <==> DistinctIds(snapshots)
      ensures ok ==> next == ProbesOf(probes, snapshots)
    {
      next, ok := map[], true;
      for i := 0 to |snapshots|
        invariant next == ProbesOf(probes, snapshots[..i]) && ok && DistinctIds(snapshots[..i])
        invariant forall id :: id in next <==> exists j :: 0 <= j < i && snapshots[j].id == id
      {
        var snapshot := snapshots[i];
        if snapshot.id in next {
          return next, false;
        }
        assert snapshots[..i + 1][..i] == snapshots[..i];
        next := next[snapshot.id := CarriedOver(probes, snapshot)];
      }
      assert snapshots[..|snapshots|] == snapshots;
    }

    /** An assignment with a repeated id fails on the primary key and changes nothing. */
    method SaveAssignment(newHash: string, snapshots: seq<Snapshot>, now: int) returns (ok: bool)
      modifies this
      ensures View() == StoreTables.SaveAssignment(old(View()), newHash, snapshots, now)
      ensures ok <==> newHash == "" || DistinctIds(snapshots)
      ensures rollups == old(rollups) && cursor == old(cursor)
    {
      if newHash == "" {
        return true;
      }
      var next: map<string, ProbeRow>;
      next, ok := ApplyAssignment(snapshots);
      if !ok {
        return;
      }
      var originSeq := NextOriginSeq(1);
      Insert(AssignmentRow(lastRow + 1, originSeq, now, newHash, snapshots));
      probes := next;
      hash := Some(newHash);
    }

    method RecordTrigger(event: Event, now: int) returns (inserted: bool)
      modifies this
      ensures View() == StoreTables.RecordTrigger(old(View()), event, now)
      ensures inserted <==> Records(old(View()), event)
      ensures rollups == old(rollups) && cursor == old(cursor)
    {
      if event.eventType != "triggered" || event.runId == "" || event.probe.id == "" {
        return false;
      }
      var key := TriggerKey(event.probe.id, event.runId);
      if key in completed || key in pending {
        return false;
      }
      if key.probeId in probes && probes[key.probeId].lastTriggerRunId == Some(key.runId) {
        return false;
      }
      var originSeq := NextOriginSeq(1);
      Insert(TriggerRow(lastRow + 1, originSeq, now, key, event.probe));
      pending := pending[key := PendingRow(lastRow, now, event.probe)];
      inserted := true;
    }

    /** One round of the loop: the completion is journaled even when the trigger was only
        ever queued in memory. */
    method CompleteTrigger(key: TriggerKey, now: int)
      modifies this
      ensures View() == CompleteOne(old(View()), key, now)
      ensures rollups == old(rollups) && cursor == old(cursor)
    {
      pending := pending - {key};
      var originSeq := NextOriginSeq(1);
      Insert(DoneRow(lastRow + 1, originSeq, now, key));
      completed := completed[key := now];
      if key.probeId in probes {
        probes := probes[key.probeId := probes[key.probeId].(lastTriggerRunId := Some(key.runId))];
      }
    }

    method CompleteTriggers(keys: seq<TriggerKey>, now: int)
      modifies this
      ensures View() == StoreTables.CompleteTriggers(old(View()), keys, now)
      ensures rollups == old(rollups) && cursor == old(cursor)
    {
      for i := 0 to |keys|
        invariant View() == StoreTables.CompleteTriggers(old(View()), keys[..i], now)
        invariant rollups == old(rollups) && cursor == old(cursor)
      {
        assert keys[..i + 1][..i] == keys[..i];
        CompleteTrigger(keys[i], now);
      }
      assert keys[..|keys|] == keys;
    }

    /** One round of RecordResults' loop. */
    method RecordResult(result: Result, originSeq: int, now: int, counted: Summary) returns (summary: Summary)
      modifies this`journal, this`lastRow
      ensures (View(), summary) == InsertResult(old(View()), counted, result, originSeq, now)
    {
      if result.runId == "" || result.probeId == "" {
        return counted.(skipped := counted.skipped + 1);
      }
      var checkSeq := if result.checkSeq < 1 then 1 else result.checkSeq;
      var atMs := if result.observedAt.Some? then result.observedAt.value else now;
      var key := ResultKey(result.runId, result.probeId, checkSeq);
      var conflict := ConflictsWith(originSeq, key);
      if conflict {
        return counted.(duplicates := counted.duplicates + 1);
      }
      Insert(ResultRow(lastRow + 1, originSeq, atMs, key, result.ok, result.latencyUs, result.body, Pending));
      return counted.(inserted := counted.inserted + 1);
    }

    method RecordResults(results: seq<Result>, now: int) returns (summary: Summary)
      modifies this
      ensures (View(), summary) == StoreTables.RecordResults(old(View()), results, now)
      ensures rollups == old(rollups) && cursor == old(cursor)
    {
      summary := Summary(0, 0, 0);
      if |results| == 0 {
        return;
      }
      var start := NextOriginSeq(|results|);
      ghost var reserved := View();
      for i := 0 to |results|
        invariant (View(), summary) == InsertResults(reserved, results[..i], start, now)
        invariant rollups == old(rollups) && cursor == old(cursor)
      {
        assert results[..i + 1][..i] == results[..i];
        summary := RecordResult(results[i], start + i, now, summary);
      }
      assert results[..|results|] == results;
    }

    /** The two unique indexes of the journal. */
    method ConflictsWith(originSeq: int, key: ResultKey) returns (conflict: bool)
      ensures conflict <==> Conflicts(journal, originSeq, key)
    {
      for i := 0 to |journal|
        invariant forall j | 0 <= j < i :: journal[j].originSeq != originSeq && !(journal[j].ResultRow? && journal[j].result == key)
      {
        if journal[i].originSeq == originSeq || (journal[i].ResultRow? && journal[i].result == key) {
          return true;
        }
      }
      conflict := false;
    }

    method MarkOutcomes(outcomes: seq<Outcome>)
      modifies this`journal
      ensures View() == StoreTables.MarkOutcomes(old(View()), outcomes)
    {
      for i := 0 to |outcomes|
        invariant View() == StoreTables.MarkOutcomes(old(View()), outcomes[..i])
      {
        assert outcomes[..i + 1][..i] == outcomes[..i];
        journal := SettleAll(journal, outcomes[i]);
      }
      assert outcomes[..|outcomes|] == outcomes;
    }

    /** Clears the projections and replays the control rows in row order. */
    method Rebuild()
      modifies this
      ensures View() == StoreTables.Rebuild(old(View()))
      ensures rollups == old(rollups) && cursor == old(cursor)
    {
      probes, pending, completed, hash := map[], map[], map[], None;
      for i := 0 to |journal|
        invariant journal == old(journal) && rollups == old(rollups) && cursor == old(cursor)
        invariant View() == Replay(old(View()), journal[..i])
      {
        assert journal[..i + 1][..i] == journal[..i];
        match journal[i] {
          case AssignmentRow(_, _, _, newHash, snapshots) =>
            probes := ProbesOf(map[], snapshots);
            hash := Some(newHash);
          case TriggerRow(rowId, _, atMs, key, snapshot) =>
            if key !in pending {
              pending := pending[key := PendingRow(rowId, atMs, snapshot)];
            }
          case DoneRow(_, _, atMs, key) =>
            pending := pending - {key};
            completed := completed[key := atMs];
            if key.probeId in probes {
              probes := probes[key.probeId := probes[key.probeId].(lastTriggerRunId := Some(key.runId))];
            }
          case ResultRow(_, _, _, _, _, _, _, _) =>
        }
      }
      assert journal[..|journal|] == journal;
      probes := RestoreRunTimes(View()).probes;
    }

    // ---- Rollups ----

    /** writeRollups: refused when the cursor is no longer the one the chunk was read at. */
    method WriteRollups(aggregated: map<RollupKey, Agg>, expectedCursor: int, nextCursor: int) returns (moved: bool)
      modifies this`rollups, this`cursor
      ensures moved <==> old(cursor) != expectedCursor
      ensures moved ==> rollups == old(rollups) && cursor == old(cursor)
      ensures !moved ==> rollups == Upsert(old(rollups), aggregated) && cursor == nextCursor
    {
      if cursor != expectedCursor {
        return true;
      }
      rollups := Upsert(rollups, aggregated);
      cursor := nextCursor;
      moved := false;
    }

    /** Another maintainer's whole round: read the cursor, read a chunk, commit it. */
    method RivalRound()
      requires Ordered(journal) && forall r | r in journal :: r.rowId <= lastRow
      modifies this`rollups, this`cursor
      ensures old(cursor) <= cursor && (cursor <= lastRow || cursor == old(cursor))
      ensures Chunk(journal, old(cursor), ROLLUP_CHUNK) != [] ==> cursor > old(cursor)
      ensures CountedInto(old(rollups), Between(journal, old(cursor), cursor), rollups)
    {
      var after := cursor;
      var rows := Chunk(journal, after, ROLLUP_CHUNK);
      BetweenEmpty(journal, cursor, cursor);
      NothingCounted(rollups);
      if rows != [] {
        var aggregated, lastSeq := AggregateChunk(rows, after);
        ChunkCommits(journal, after, rows, lastSeq);
        var moved := WriteRollups(aggregated, after, lastSeq);
        CommitCounts(old(rollups), rows);
      }
    }

    /** One round of rollupResults over the chunk read at the cursor; `rival` says whether another
        maintainer commits in between. */
    method RollupRound(rows: seq<Row>, rival: bool) returns (moved: bool)
      requires Ordered(journal) && forall r | r in journal :: r.rowId <= lastRow
      requires rows == Chunk(journal, cursor, ROLLUP_CHUNK) && rows != []
      modifies this`rollups, this`cursor
      ensures old(cursor) < cursor <= lastRow
      ensures CountedInto(old(rollups), Between(journal, old(cursor), cursor), rollups)
      ensures moved == rival && (!moved ==> rows == Between(journal, old(cursor), cursor))
    {
      var after := cursor;
      var aggregated, lastSeq := AggregateChunk(rows, after);
      ChunkCommits(journal, after, rows, lastSeq);
      if rival {
        RivalRound();
      }
      moved := WriteRollups(aggregated, after, lastSeq);
      if !moved { CommitCounts(old(rollups), rows); }
    }

    /** rollupResults. Wherever `rivals` says so, another maintainer commits between this one's
        chunk read and its commit; this one then starts over from the new cursor, and gives
        up at the sixth such move. Either way the table has counted exactly the result rows
        that the cursor has passed, and without an error it has passed them all. */
    method RollupResults(rivals: seq<bool>) returns (total: nat, failed: bool)
      requires Ordered(journal) && forall r | r in journal :: r.rowId <= lastRow
      modifies this`rollups, this`cursor
      ensures old(cursor) <= cursor
      ensures CountedInto(old(rollups), Between(journal, old(cursor), cursor), rollups)
      ensures DescribedInto(old(rollups), Between(journal, old(cursor), cursor), rollups)
      ensures !failed ==> forall r | r in journal && r.ResultRow? :: r.rowId <= cursor
      ensures (forall i | 0 <= i < |rivals| :: !rivals[i]) ==> !failed && total == |Between(journal, old(cursor), cursor)|
    {
      var after := cursor;
      var moves, attempt := 0, 0;
      total, failed := 0, false;
      BetweenEmpty(journal, cursor, cursor);
      NothingCounted(rollups);
      while true
        invariant old(cursor) <= cursor == after && (cursor <= lastRow || cursor == old(cursor))
        invariant moves <= 5
        invariant CountedInto(old(rollups), Between(journal, old(cursor), cursor), rollups)
        invariant (forall i | 0 <= i < |rivals| :: !rivals[i]) ==> total == |Between(journal, old(cursor), cursor)|
        decreases lastRow - cursor
      {
        var rows := Chunk(journal, after, ROLLUP_CHUNK);
        if rows == [] {
          AllPassed(journal, after);
          CountedIsDescribed(old(rollups), Between(journal, old(cursor), cursor), rollups);
          return;
        }
        ghost var table := rollups;
        var moved := RollupRound(rows, attempt < |rivals| && rivals[attempt]);
        JoinCounts(old(rollups), table, rollups, journal, old(cursor), after, cursor);
        attempt := attempt + 1;
        if moved {
          moves := moves + 1;
          if moves > 5 {
            failed := true;
            CountedIsDescribed(old(rollups), Between(journal, old(cursor), cursor), rollups);
            return;
          }
          after := cursor;
          continue;
        }
        StretchesJoin(journal, old(cursor), after, cursor);
        total := total + |rows|;
        after := cursor;
      }
    }

    // ---- Maintenance ----

    /** One DELETE of the pruning loops. */
    method PruneChunk(cutoff: Option<int>) returns (affected: nat)
      requires WellOrdered(View())
      modifies this`journal
      ensures View() == StoreTables.Prune(old(View()), cutoff)
      ensures affected == |old(journal)| - |journal|
    {
      var held := EventSeqs(pending);
      var before := journal;
      ghost var last := DeletedUpTo(journal, held, cutoff, PRUNE_CHUNK);
      journal := DeleteFirst(journal, held, cutoff, PRUNE_CHUNK);
      affected := |before| - |journal|;
    }

    /** The oldest rollups, at most one chunk of them. */
    method DropOldestRollups() returns (dropped: nat)
      modifies this`rollups
      ensures dropped == if |old(rollups)| < PRUNE_CHUNK then |old(rollups)| else PRUNE_CHUNK
      ensures |rollups| == |old(rollups)| - dropped
      ensures forall k | k in rollups :: k in old(rollups) && rollups[k] == old(rollups)[k]
      ensures forall k, l | k in rollups && l in old(rollups) && l !in rollups :: l.bucket <= k.bucket
    {
      dropped := 0;
      while dropped < PRUNE_CHUNK && rollups != map[]
        invariant dropped <= PRUNE_CHUNK && |rollups| == |old(rollups)| - dropped
        invariant forall k | k in rollups :: k in old(rollups) && rollups[k] == old(rollups)[k]
        invariant forall k, l | k in rollups && l in old(rollups) && l !in rollups :: l.bucket <= k.bucket
        decreases PRUNE_CHUNK - dropped
      {
        var oldest := OldestKey();
        assert |rollups - {oldest}| == |rollups| - 1 by {
          assert (rollups - {oldest}).Keys == rollups.Keys - {oldest};
        }
        rollups := rollups - {oldest};
        dropped := dropped + 1;
      }
    }

    method OldestKey() returns (oldest: RollupKey)
      requires rollups != map[]
      ensures oldest in rollups && forall k | k in rollups :: oldest.bucket <= k.bucket
    {
      var left := rollups.Keys;
      assert left != {};
      oldest :| oldest in left;
      left := left - {oldest};
      while left != {}
        invariant left <= rollups.Keys && oldest in rollups
        invariant forall k | k in rollups && k !in left :: oldest.bucket <= k.bucket
        decreases |left|
      {
        var k :| k in left;
        left := left - {k};
        if k.bucket < oldest.bucket { oldest := k; }
      }
    }

    /** The age loop: chunks until one comes back short. `budget` is how many times the
        maintenance context is still found alive. */
    method PruneOlder(cutoff: int, budget: nat) returns (deleted: nat, expired: bool)
      requires WellOrdered(View())
      modifies this`journal
      ensures deleted == |old(journal)| - |journal|
      ensures Cut(old(View()), View(), Some(cutoff))
      ensures !expired ==> View() == PruneAll(old(View()), Some(cutoff))
    {
      var checks, done := 0, false;
      deleted, expired := 0, false;
      ghost var limit: nat := 0;
      while !done
        invariant 0 <= checks <= budget && deleted == |old(journal)| - |journal|
        invariant View() == PruneUpTo(old(View()), Some(cutoff), limit) && WellOrdered(View())
        invariant done ==> View() == PruneAll(old(View()), Some(cutoff))
        decreases !done, budget - checks
      {
        if checks == budget {
          expired := true;
          return;
        }
        PruneAgain(old(View()), Some(cutoff), limit);
        var affected := PruneChunk(Some(cutoff));
        limit := limit + PRUNE_CHUNK;
        deleted := deleted + affected;
        checks := checks + 1;
        done := affected < PRUNE_CHUNK;
      }
    }

    /** One round of the size loop: a chunk of prunable rows or, when there is none, of the oldest
        rollups. */
    method SizeRound() returns (deleted: nat, dropped: nat)
      requires WellOrdered(View())
      modifies this`journal, this`rollups
      ensures deleted == |old(journal)| - |journal| && dropped == |old(rollups)| - |rollups|
      ensures View() == PruneUpTo(old(View()), None, PRUNE_CHUNK)
      ensures forall k | k in rollups :: k in old(rollups) && rollups[k] == old(rollups)[k]
      ensures deleted + dropped > 0 ==> Gives((|old(journal)|, |old(rollups)|), (|journal|, |rollups|))
      ensures dropped > 0 ==> NothingPrunable(View())
      ensures deleted == dropped == 0 ==> NothingPrunable(View()) && rollups == old(rollups) == map[]
      ensures forall k, l | k in rollups && l in old(rollups) && l !in rollups :: l.bucket <= k.bucket
    {
      PruneSizeChunk(View());
      deleted := PruneChunk(None);
      dropped := 0;
      if deleted == 0 {
        dropped := DropOldestRollups();
      }
    }

    /** The size loop, at most a hundred rounds. `live` stands for the database's live size;
        `sizes` are the row and rollup counts before each round and at the end. */
    method EnforceSize(maxBytes: int, live: (nat, nat) -> int, budget: nat)
      returns (deleted: nat, droppedRollups: nat, overBudget: bool, expired: bool, ghost sizes: seq<(nat, nat)>)
      requires WellOrdered(View())
      modifies this`journal, this`rollups
      ensures deleted == |old(journal)| - |journal| && droppedRollups == |old(rollups)| - |rollups|
      ensures Cut(old(View()), View(), None)
      ensures forall k | k in rollups :: k in old(rollups) && rollups[k] == old(rollups)[k]
      ensures droppedRollups > 0 ==> View() == PruneAll(old(View()), None) && NothingPrunable(View())
      ensures overBudget ==> live(|journal|, |rollups|) > maxBytes
      ensures Sized((|old(journal)|, |old(rollups)|), (|journal|, |rollups|), sizes, maxBytes, live)
      ensures !expired ==> SizeSettled(View(), rollups, sizes, maxBytes, live)
      ensures expired ==> !overBudget && |sizes| == budget + 1 <= 100
    {
      deleted, droppedRollups, overBudget, expired := 0, 0, false, false;
      sizes := [(|journal|, |rollups|)];
      ghost var t, was := View(), rollups;
      assert View() == PruneUpTo(t, None, 0);
      for chunk := 0 to 100
        invariant chunk <= budget && |sizes| == chunk + 1 && !overBudget
        invariant deleted == |t.journal| - |journal| && droppedRollups == |was| - |rollups|
        invariant SizedSoFar(t, was, View(), rollups, sizes, maxBytes, live)
      {
        if chunk >= budget {
          expired := true;
          return;
        }
        if live(|journal|, |rollups|) <= maxBytes {
          return;
        }
        ghost var before, left := View(), rollups;
        var affected, dropped := SizeRound();
        deleted := deleted + affected;
        droppedRollups := droppedRollups + dropped;
        OneRoundMore(t, was, before, left, View(), rollups, sizes, maxBytes, live);
        if affected == 0 && dropped == 0 {
          overBudget := true;
          return;
        }
        sizes := sizes + [(|journal|, |rollups|)];
      }
    }

    method CollapseAssignments() returns (deleted: nat)
      modifies this`journal
      ensures View() == Collapse(old(View()))
      ensures deleted == |old(journal)| - |journal|
    {
      CollapseThins(journal, journal);
      var collapsed := Keep(journal, journal);
      deleted := |journal| - |collapsed|;
      journal := collapsed;
    }

    /** Everything after the rollups: age, completion records, assignments, size. `sizes` is
        empty unless the size loop was reached. */
    method Shrink(retention: int, maxBytes: int, now: int, budget: nat, live: (nat, nat) -> int)
      returns (deleted: nat, dropped: nat, prunedTriggers: int, overBudget: bool, failed: bool, ghost sizes: seq<(nat, nat)>)
      requires WellOrdered(View())
      modifies this`journal, this`completed, this`rollups
      ensures Shrunk(old(View()), View(), retention, now, failed)
      ensures deleted == |old(journal)| - |journal| && dropped == |old(rollups)| - |rollups|
      ensures prunedTriggers == |old(completed)| - |completed|
      ensures forall k | k in rollups :: k in old(rollups) && rollups[k] == old(rollups)[k]
      ensures !failed ==> (overBudget <==> maxBytes > 0 && live(|journal|, |rollups|) > maxBytes)
      ensures CapEnforced(Tidied(old(View()), retention, now), old(rollups), View(), rollups, maxBytes, live, failed, sizes)
    {
      deleted, dropped, prunedTriggers, overBudget, failed := 0, 0, 0, false, false;
      sizes := [];
      ghost var t := View();
      if retention > 0 {
        var cutoff := now - retention;
        deleted, failed := PruneOlder(cutoff, budget);
        if failed {
          return;
        }
        var kept := PruneCompleted(View(), cutoff).completed;
        prunedTriggers := |completed| - |kept|;
        completed := kept;
        RetainOrdered(t, cutoff);
      }
      assert View() == if retention > 0 then RetainSince(t, now - retention) else t;
      CollapseOrdered(View());
      var collapsed := CollapseAssignments();
      assert View() == Tidied(t, retention, now);
      deleted := deleted + collapsed;
      assert PruneUpTo(View(), None, 0) == View();
      if maxBytes > 0 {
        var cut: nat;
        cut, dropped, overBudget, failed, sizes := EnforceSize(maxBytes, live, budget);
        deleted := deleted + cut;
        if !failed && live(|journal|, |rollups|) > maxBytes {
          overBudget := true;
        }
      }
    }

    /** Maintain. `live` stands for the database's live size, `budget` for how often each loop
        finds the maintenance context alive, and `rivals` for the other maintainers; `counted`
        are the rollups as they stood before the size cap took any, and `sizes` the row and rollup
        counts before each of its rounds. */
    method Maintain(retention: int, maxBytes: int, now: int, budget: nat, live: (nat, nat) -> int, rivals: seq<bool>)
      returns (stats: MaintainStats, failed: bool, ghost counted: map<RollupKey, Agg>, ghost sizes: seq<(nat, nat)>)
      requires WellOrdered(View())
      modifies this
      ensures View() == old(View()) || Shrunk(old(View()), View(), retention, now, failed)
      ensures !failed ==> Shrunk(old(View()), View(), retention, now, false)
      ensures stats.deletedRows == |old(journal)| - |journal|
      ensures stats.prunedTriggers == |old(completed)| - |completed|
      ensures CountedInto(old(rollups), Between(old(journal), old(cursor), cursor), counted)
      ensures DescribedInto(old(rollups), Between(old(journal), old(cursor), cursor), counted)
      ensures stats.deletedRollups == |counted| - |rollups| && forall k | k in rollups :: k in counted && rollups[k] == counted[k]
      ensures (forall i | 0 <= i < |rivals| :: !rivals[i]) ==> stats.rolledUpResults == |Between(old(journal), old(cursor), cursor)|
      ensures !failed ==> forall r | r in old(journal) && r.ResultRow? :: r.rowId <= cursor
      ensures old(cursor) <= cursor && StillCounts(old(rollups), Between(old(journal), old(cursor), cursor), rollups)
      ensures (failed && View() == old(View()) && rollups == counted)
              || CapEnforced(Tidied(old(View()), retention, now), counted, View(), rollups, maxBytes, live, failed, sizes)
      ensures !failed ==> (stats.overBudget <==> maxBytes > 0 && live(|journal|, |rollups|) > maxBytes)
    {
      var rolled;
      rolled, failed := RollupResults(rivals);
      CountedStillCounts(old(rollups), Between(journal, old(cursor), cursor), rollups);
      counted, sizes := rollups, [];
      stats := MaintainStats(0, 0, 0, 0, false);
      if failed {
        return;
      }
      var deleted, dropped, pruned, over;
      deleted, dropped, pruned, over, failed, sizes := Shrink(retention, maxBytes, now, budget, live);
      FewerBuckets(old(rollups), Between(old(journal), old(cursor), cursor), counted, rollups);
      stats := MaintainStats(deleted, dropped, rolled, pruned, over);
    }
  }

  /** Retention run to its end. */
  function RetainSince(t: Tables, cutoff: int): Tables {
    PruneCompleted(PruneAll(t, Some(cutoff)), cutoff)
  }

  lemma RetainOrdered(t: Tables, cutoff: int)
    requires WellOrdered(t)
    ensures WellOrdered(RetainSince(t, cutoff))
  {
    var last := DeletedUpTo(t.journal, EventSeqs(t.pending), Some(cutoff), |t.journal|);
  }

  lemma CollapseOrdered(t: Tables)
    requires WellOrdered(t)
    ensures WellOrdered(Collapse(t))
  {
    KeptRows(t.journal, t.journal);
  }

  /** How far a Maintain call came: somewhere into the age loop, or through it, through the
      collapse of assignments, and any number of size chunks on. */
  ghost predicate Shrunk(t: Tables, u: Tables, retention: int, now: int, failed: bool) {
    || (failed && retention > 0 && Cut(t, u, Some(now - retention)))
    || (retention > 0 && Cut(Collapse(RetainSince(t, now - retention)), u, None))
    || (retention <= 0 && Cut(Collapse(t), u, None))
  }

  // ---- The size cap ----

  /** What a maintenance call has made of the tables when it comes to the size cap. */
  function Tidied(t: Tables, retention: int, now: int): Tables {
    Collapse(if retention > 0 then RetainSince(t, now - retention) else t)
  }

  /** Without a cap nothing goes for size. With one, rows and rollups go round by round, each round
      made over the cap; and a call that completes is within the cap, or has nothing left to
      give up, or has made a hundred rounds that all gave something up. */
  ghost predicate CapEnforced(base: Tables, counted: map<RollupKey, Agg>, u: Tables, rollups: map<RollupKey, Agg>, maxBytes: int,
                              live: (nat, nat) -> int, failed: bool, sizes: seq<(nat, nat)>) {
    && (sizes == [] ==> rollups == counted && (!failed ==> maxBytes <= 0 && u == base))
    && (sizes != [] ==> maxBytes > 0 && Cut(base, u, None)
                        && Sized((|base.journal|, |counted|), (|u.journal|, |rollups|), sizes, maxBytes, live))
    && (!failed && maxBytes > 0 ==> sizes != [] && SizeSettled(u, rollups, sizes, maxBytes, live))
  }

  predicate NothingPrunable(t: Tables) {
    forall i | 0 <= i < |t.journal| :: !Prunable(t.journal[i], EventSeqs(t.pending), None)
  }

  /** From one size to the next: up to a chunk of rows goes, or up to a chunk of rollups. */
  predicate Gives(a: (nat, nat), b: (nat, nat)) {
    || (b.0 < a.0 <= b.0 + PRUNE_CHUNK && b.1 == a.1)
    || (b.0 == a.0 && b.1 < a.1 && a.1 - b.1 == if a.1 < PRUNE_CHUNK then a.1 else PRUNE_CHUNK)
  }

  /** Every round was made over the cap, and gave something up. */
  predicate Sized(from: (nat, nat), to: (nat, nat), sizes: seq<(nat, nat)>, maxBytes: int, live: (nat, nat) -> int) {
    && sizes != [] && sizes[0] == from && sizes[|sizes| - 1] == to
    && forall i | 0 <= i < |sizes| - 1 :: live(sizes[i].0, sizes[i].1) > maxBytes && Gives(sizes[i], sizes[i + 1])
  }

  /** The size loop has got below the cap, has nothing left to give up, or has used its hundred rounds. */
  predicate SizeSettled(t: Tables, rollups: map<RollupKey, Agg>, sizes: seq<(nat, nat)>, maxBytes: int, live: (nat, nat) -> int) {
    || live(|t.journal|, |rollups|) <= maxBytes
    || (NothingPrunable(t) && rollups == map[])
    || |sizes| == 101
  }

  /** What holds between two rounds of the size loop. */
  ghost predicate SizedSoFar(t: Tables, was: map<RollupKey, Agg>, u: Tables, rollups: map<RollupKey, Agg>, sizes: seq<(nat, nat)>,
                             maxBytes: int, live: (nat, nat) -> int) {
    && WellOrdered(u) && Cut(t, u, None)
    && (forall k | k in rollups :: k in was && rollups[k] == was[k])
    && (|rollups| < |was| ==> u == PruneAll(t, None) && NothingPrunable(u))
    && Sized((|t.journal|, |was|), (|u.journal|, |rollups|), sizes, maxBytes, live)
  }

  lemma OneRoundMore(t: Tables, was: map<RollupKey, Agg>, before: Tables, left: map<RollupKey, Agg>, u: Tables, rollups: map<RollupKey, Agg>,
                     sizes: seq<(nat, nat)>, maxBytes: int, live: (nat, nat) -> int)
    requires WellOrdered(t) && SizedSoFar(t, was, before, left, sizes, maxBytes, live) && live(|before.journal|, |left|) > maxBytes
    requires u == PruneUpTo(before, None, PRUNE_CHUNK) && forall k | k in rollups :: k in left && rollups[k] == left[k]
    requires |rollups| <= |left| && (|rollups| < |left| ==> NothingPrunable(u) && |u.journal| == |before.journal|)
    ensures Gives((|before.journal|, |left|), (|u.journal|, |rollups|)) ==>
              SizedSoFar(t, was, u, rollups, sizes + [(|u.journal|, |rollups|)], maxBytes, live)
    ensures WellOrdered(u) && Cut(t, u, None) && (|rollups| < |was| ==> u == PruneAll(t, None) && NothingPrunable(u))
    ensures |u.journal| == |before.journal| && |rollups| == |left| ==> Sized((|t.journal|, |was|), (|u.journal|, |rollups|), sizes, maxBytes, live)
  {
    var limit: nat :| before == PruneUpTo(t, None, limit);
    PruneAgain(t, None, limit);
    assert u == PruneUpTo(t, None, limit + PRUNE_CHUNK);
    NothingStaysNothing(before);
    if Gives((|before.journal|, |left|), (|u.journal|, |rollups|)) {
      SizedOneMore((|t.journal|, |was|), sizes, (|u.journal|, |rollups|), maxBytes, live);
    }
  }

  lemma SizedOneMore(from: (nat, nat), sizes: seq<(nat, nat)>, next: (nat, nat), maxBytes: int, live: (nat, nat) -> int)
    requires sizes != [] && Sized(from, sizes[|sizes| - 1], sizes, maxBytes, live)
    requires live(sizes[|sizes| - 1].0, sizes[|sizes| - 1].1) > maxBytes && Gives(sizes[|sizes| - 1], next)
    ensures Sized(from, next, sizes + [next], maxBytes, live)
  {
  }

  /** One chunk deletes something exactly when there is something prunable. */
  lemma PruneSizeChunk(t: Tables)
    requires WellOrdered(t)
    ensures var u := PruneUpTo(t, None, PRUNE_CHUNK);
            && |u.journal| <= |t.journal| <= |u.journal| + PRUNE_CHUNK
            && (|u.journal| == |t.journal| ==> NothingPrunable(u))
  {
    var last := DeletedUpTo(t.journal, EventSeqs(t.pending), None, PRUNE_CHUNK);
  }

  /** Where nothing is prunable a chunk changes nothing. */
  lemma NothingStaysNothing(t: Tables)
    requires WellOrdered(t)
    ensures NothingPrunable(t) ==> PruneUpTo(t, None, PRUNE_CHUNK) == t
  {
    if NothingPrunable(t) { NothingToDelete(t.journal, EventSeqs(t.pending), PRUNE_CHUNK); }
  }

  lemma {:induction false} NothingToDelete(rows: seq<Row>, held: set<int>, limit: nat)
    requires forall i | 0 <= i < |rows| :: !Prunable(rows[i], held, None)
    ensures DeleteFirst(rows, held, None, limit) == rows
    decreases |rows|
  {
    if rows != [] && limit > 0 { NothingToDelete(rows[1..], held, limit); }
  }

  /** Some number of prunable rows, oldest first, are gone. */
  ghost predicate Cut(t: Tables, u: Tables, cutoff: Option<int>) {
    exists limit: nat :: u == PruneUpTo(t, cutoff, limit)
  }

  predicate NewestOnly(rows: seq<Row>) {
    forall a, b | a in rows && b in rows && a.AssignmentRow? && b.AssignmentRow? :: a == b
  }

  /** Nothing prunable that is older than the cutoff is left, and of the completion records
      exactly the older ones are gone. */
  ghost predicate Retained(t: Tables, u: Tables, cutoff: int) {
    && (forall r | r in u.journal :: Protected(u, r) || r.atMs >= cutoff)
    && (forall k :: k in u.completed <==> k in t.completed && t.completed[k] >= cutoff)
    && (forall k | k in u.completed :: u.completed[k] == t.completed[k])
  }

  lemma AgedInv(t: Tables, cutoff: int, now: int)
    requires Inv(t, now)
    ensures Inv(PruneAll(t, Some(cutoff)), now)
  {
    PruneKeeps(t, Some(cutoff), |t.journal|, now);
  }

  lemma RetainedInv(t: Tables, cutoff: int, now: int)
    requires Inv(t, now)
    ensures Inv(RetainSince(t, cutoff), now)
  {
    AgedInv(t, cutoff, now);
    AllPruned(t, cutoff);
    PruneCompletedKeeps(PruneAll(t, Some(cutoff)), cutoff, now);
  }

  /** What is true of the tables when the collapse of assignments begins. */
  lemma RetainMeaning(t: Tables, cutoff: int)
    requires Structure(t)
    ensures Maintained(t, RetainSince(t, cutoff)) && Retained(t, RetainSince(t, cutoff), cutoff)
  {
    PruneThins(t, Some(cutoff), |t.journal|);
    forall r | r in RetainSince(t, cutoff).journal ensures Protected(RetainSince(t, cutoff), r) || r.atMs >= cutoff {
      RetentionExactly(t, cutoff, r);
    }
  }

  /** Retention run to its end takes exactly the rows that are older than the cutoff and that no
      statement must spare. */
  lemma RetentionExactly(t: Tables, cutoff: int, r: Row)
    requires Structure(t)
    ensures r in RetainSince(t, cutoff).journal <==> r in t.journal && (Protected(t, r) || r.atMs >= cutoff)
  {
    Survivors(t, cutoff);
    if r in t.journal { PrunableExactly(t, r, Some(cutoff)); }
  }

  /** Where nothing is prunable only assignments, results to be delivered and queued triggers are left. */
  lemma NothingPrunableExactly(t: Tables)
    requires Structure(t)
    ensures NothingPrunable(t) <==> forall r | r in t.journal :: Protected(t, r)
  {
    forall i | 0 <= i < |t.journal| ensures Prunable(t.journal[i], EventSeqs(t.pending), None) <==> !Protected(t, t.journal[i]) {
      PrunableExactly(t, t.journal[i], None);
    }
  }

  /** Collapsing takes exactly the assignments that a newer one follows. */
  lemma CollapseExactly(t: Tables, r: Row)
    requires WellOrdered(t)
    ensures r in Collapse(t).journal <==>
              r in t.journal && !(r.AssignmentRow? && exists a :: a in t.journal && a.AssignmentRow? && a.rowId > r.rowId)
  {
    KeptRows(t.journal, t.journal);
    if a :| a in t.journal && a.AssignmentRow? && a.rowId > r.rowId {
      var i :| 0 <= i < |t.journal| && t.journal[i] == a;
    }
  }

  /** The collapse and any number of size chunks on top of it. */
  lemma CollapseMeaning(base: Tables, u: Tables, now: int)
    requires Inv(base, now) && Cut(Collapse(base), u, None)
    ensures Inv(u, now) && Thinned(base, u) && NewestOnly(u.journal)
  {
    var limit: nat :| u == PruneUpTo(Collapse(base), None, limit);
    Collapsed(base, now);
    PruneKeeps(Collapse(base), None, limit, now);
    PruneThins(Collapse(base), None, limit);
  }

  lemma AgedMeaning(t: Tables, u: Tables, cutoff: int, now: int)
    requires Inv(t, now) && Cut(t, u, Some(cutoff))
    ensures Inv(u, now) && Thinned(t, u)
  {
    var limit: nat :| u == PruneUpTo(t, Some(cutoff), limit);
    PruneKeeps(t, Some(cutoff), limit, now);
    PruneThins(t, Some(cutoff), limit);
  }

  lemma ThinnedIsMaintained(t: Tables, u: Tables)
    requires Thinned(t, u)
    ensures Maintained(t, u)
  {
  }

  lemma ThinnedStays(t: Tables, base: Tables, u: Tables, cutoff: int)
    requires Maintained(t, base) && Thinned(base, u)
    ensures Maintained(t, u) && (Retained(t, base, cutoff) ==> Retained(t, u, cutoff))
  {
  }

  lemma RetentionMeaning(t: Tables, u: Tables, cutoff: int, now: int)
    requires Inv(t, now) && Cut(Collapse(RetainSince(t, cutoff)), u, None)
    ensures Inv(u, now) && Maintained(t, u) && NewestOnly(u.journal) && Retained(t, u, cutoff)
  {
    RetainedInv(t, cutoff, now);
    CollapseMeaning(RetainSince(t, cutoff), u, now);
    RetainMeaning(t, cutoff);
    ThinnedStays(t, RetainSince(t, cutoff), u, cutoff);
  }

  /** However far it comes, maintenance keeps the store's invariant, adds no row, deletes no
      pending result and touches nothing else; and a call that completes leaves nothing
      prunable older than the cutoff, one assignment, and the younger completion records. */
  lemma MaintenanceMeaning(t: Tables, u: Tables, retention: int, now: int, failed: bool)
    requires Inv(t, now) && Shrunk(t, u, retention, now, failed)
    ensures Inv(u, now) && Maintained(t, u)
    ensures !failed ==> NewestOnly(u.journal) && (retention > 0 ==> Retained(t, u, now - retention))
  {
    var cutoff := now - retention;
    if retention > 0 && Cut(Collapse(RetainSince(t, cutoff)), u, None) {
      RetentionMeaning(t, u, cutoff, now);
    } else if retention <= 0 {
      CollapseMeaning(t, u, now);
      ThinnedIsMaintained(t, u);
    } else {
      AgedMeaning(t, u, cutoff, now);
      ThinnedIsMaintained(t, u);
    }
  }

  lemma Collapsed(t: Tables, now: int)
    requires Inv(t, now)
    ensures Inv(Collapse(t), now) && Thinned(t, Collapse(t)) && NewestOnly(Collapse(t).journal)
  {
    CollapseKeeps(t, now);
    KeptRows(t.journal, t.journal);
    CollapseThins(t.journal, t.journal);
    NewestStays(t);
  }

  lemma NewestStays(t: Tables)
    requires WellOrdered(t)
    ensures NewestOnly(Collapse(t).journal)
  {
    var u := Collapse(t);
    KeptRows(t.journal, t.journal);
    forall a, b | a in u.journal && b in u.journal && a.AssignmentRow? && b.AssignmentRow? ensures a == b {
      var i :| 0 <= i < |t.journal| && t.journal[i] == a;
      var j :| 0 <= j < |t.journal| && t.journal[j] == b;
    }
  }

  lemma FewerBuckets(before: map<RollupKey, Agg>, rows: seq<Row>, rollups: map<RollupKey, Agg>, fewer: map<RollupKey, Agg>)
    requires AllResults(rows) && StillCounts(before, rows, rollups)
    requires forall k | k in fewer :: k in rollups && fewer[k] == rollups[k]
    ensures StillCounts(before, rows, fewer)
  {
  }

  /** Everything but journal rows and completion records stays; no row is added and no pending
      result goes. */
  ghost predicate Maintained(t: Tables, u: Tables) {
    && u == t.(journal := u.journal, completed := u.completed)
    && (forall r | r in u.journal :: r in t.journal)
    && (forall r | r in t.journal && r.ResultRow? && r.delivery == Pending :: r in u.journal)
    && (forall k | k in u.completed :: k in t.completed && u.completed[k] == t.completed[k])
  }

  /** Every bucket that is there holds what `before` had counted and `rows` besides. */
  ghost predicate StillCounts(before: map<RollupKey, Agg>, rows: seq<Row>, rollups: map<RollupKey, Agg>)
    requires AllResults(rows)
  {
    forall k, counted | AllResults(counted) && Counts(before, counted, k) && k in rollups ::
      AllResults(counted + rows) && rollups[k] == Fold(counted + rows, k)
  }

  lemma CountedStillCounts(before: map<RollupKey, Agg>, rows: seq<Row>, rollups: map<RollupKey, Agg>)
    requires AllResults(rows) && CountedInto(before, rows, rollups)
    ensures StillCounts(before, rows, rollups)
  {
  }

  lemma AllPruned(t: Tables, cutoff: int)
    requires Structure(t)
    ensures var u := PruneAll(t, Some(cutoff));
            && (forall r | r in u.journal :: !Prunable(r, EventSeqs(t.pending), Some(cutoff)))
            && (forall d | d in u.journal && d.DoneRow? :: d.atMs >= cutoff)
  {
    Survivors(t, cutoff);
    var u := PruneAll(t, Some(cutoff));
    forall d | d in u.journal && d.DoneRow? ensures d.atMs >= cutoff { HeldRows(t, d); }
  }

  lemma {:induction false} CollapseThins(rows: seq<Row>, whole: seq<Row>)
    ensures |Keep(rows, whole)| <= |rows|
    decreases |rows|
  {
    if rows != [] { CollapseThins(rows[1..], whole); }
  }

  /** A further chunk extends the delete; a short one shows that it is complete. */
  lemma PruneAgain(t: Tables, cutoff: Option<int>, limit: nat)
    requires WellOrdered(t)
    ensures var u := PruneUpTo(t, cutoff, limit);
            var v := Prune(u, cutoff);
            && WellOrdered(v) && v == PruneUpTo(t, cutoff, limit + PRUNE_CHUNK)
            && (|u.journal| - |v.journal| < PRUNE_CHUNK ==> v == PruneAll(t, cutoff))
            && (u == PruneAll(t, cutoff) ==> v == u)
  {
    var held := EventSeqs(t.pending);
    var u := PruneUpTo(t, cutoff, limit);
    var v := Prune(u, cutoff);
    ChunksAddUp(t.journal, held, cutoff, limit, PRUNE_CHUNK);
    if |u.journal| - |v.journal| < PRUNE_CHUNK {
      LastChunk(t.journal, held, cutoff, limit);
    }
    if u == PruneAll(t, cutoff) {
      ChunksAddUp(t.journal, held, cutoff, |t.journal|, PRUNE_CHUNK);
      EnoughIsEnough(t.journal, held, cutoff, |t.journal| + PRUNE_CHUNK);
    }
    var last := DeletedUpTo(t.journal, held, cutoff, limit + PRUNE_CHUNK);
  }

  /** Rows were deleted, none of them a pending result, and nothing else happened. */
  ghost predicate Thinned(t: Tables, u: Tables) {
    && u == t.(journal := u.journal)
    && |u.journal| <= |t.journal|
    && (forall r | r in u.journal :: r in t.journal)
    && (forall r | r in t.journal && IsPending(r) :: r in u.journal)
  }

  lemma PruneThins(t: Tables, cutoff: Option<int>, limit: nat)
    requires WellOrdered(t)
    ensures Thinned(t, PruneUpTo(t, cutoff, limit))
  {
    var last := DeletedUpTo(t.journal, EventSeqs(t.pending), cutoff, limit);
  }

  lemma LastChunk(rows: seq<Row>, held: set<int>, cutoff: Option<int>, before: nat)
    requires var a := DeleteFirst(rows, held, cutoff, before);
             var b := DeleteFirst(rows, held, cutoff, before + PRUNE_CHUNK);
             b == DeleteFirst(a, held, cutoff, PRUNE_CHUNK) && |a| - |b| < PRUNE_CHUNK
    ensures DeleteFirst(rows, held, cutoff, before + PRUNE_CHUNK) == DeleteFirst(rows, held, cutoff, |rows|)
  {
    var a := DeleteFirst(rows, held, cutoff, before);
    ShortChunkIsLast(a, held, cutoff, PRUNE_CHUNK, PRUNE_CHUNK + |rows|);
    ChunksAddUp(rows, held, cutoff, before, PRUNE_CHUNK + |rows|);
    EnoughIsEnough(rows, held, cutoff, before + (PRUNE_CHUNK + |rows|));
  }

  lemma NothingCounted(rollups: map<RollupKey, Agg>)
    ensures CountedInto(rollups, [], rollups)
  {
    forall k, counted | AllResults(counted) && Counts(rollups, counted, k)
      ensures AllResults(counted + []) && Counts(rollups, counted + [], k)
    {
      assert counted + [] == counted;
    }
  }

  lemma CommitCounts(before: map<RollupKey, Agg>, rows: seq<Row>)
    requires AllResults(rows)
    ensures CountedInto(before, rows, Upsert(before, Aggregate(rows)))
  {
    forall k, counted | AllResults(counted) && Counts(before, counted, k)
      ensures AllResults(counted + rows) && Counts(Upsert(before, Aggregate(rows)), counted + rows, k)
    {
      AggregateAt(rows, k);
      UpsertCounts(before, counted, rows, Aggregate(rows), k);
    }
  }

  lemma CountedAt(before: map<RollupKey, Agg>, rows: seq<Row>, rollups: map<RollupKey, Agg>, k: RollupKey, counted: seq<Row>)
    requires AllResults(rows) && CountedInto(before, rows, rollups) && AllResults(counted) && Counts(before, counted, k)
    ensures AllResults(counted + rows) && Counts(rollups, counted + rows, k)
  {
  }

  lemma CountTwice(a: map<RollupKey, Agg>, first: seq<Row>, b: map<RollupKey, Agg>, second: seq<Row>, c: map<RollupKey, Agg>)
    requires AllResults(first) && AllResults(second) && CountedInto(a, first, b) && CountedInto(b, second, c)
    ensures AllResults(first + second) && CountedInto(a, first + second, c)
  {
    assert AllResults(first + second);
    forall k, counted | AllResults(counted) && Counts(a, counted, k)
      ensures AllResults(counted + (first + second)) && Counts(c, counted + (first + second), k)
    {
      CountTwiceAt(a, first, b, second, c, k, counted);
    }
  }

  lemma CountTwiceAt(a: map<RollupKey, Agg>, first: seq<Row>, b: map<RollupKey, Agg>, second: seq<Row>, c: map<RollupKey, Agg>,
                     k: RollupKey, counted: seq<Row>)
    requires AllResults(first) && AllResults(second) && CountedInto(a, first, b) && CountedInto(b, second, c)
    requires AllResults(counted) && Counts(a, counted, k)
    ensures AllResults(counted + (first + second)) && Counts(c, counted + (first + second), k)
  {
    CountedAt(a, first, b, k, counted);
    CountedAt(b, second, c, k, counted + first);
    assert (counted + first) + second == counted + (first + second);
  }

  lemma JoinCounts(a: map<RollupKey, Agg>, b: map<RollupKey, Agg>, c: map<RollupKey, Agg>, journal: seq<Row>, x: int, y: int, z: int)
    requires Ordered(journal) && x <= y <= z
    requires CountedInto(a, Between(journal, x, y), b) && CountedInto(b, Between(journal, y, z), c)
    ensures CountedInto(a, Between(journal, x, z), c)
  {
    CountTwice(a, Between(journal, x, y), b, Between(journal, y, z), c);
    StretchesJoin(journal, x, y, z);
  }

  lemma ChunkCommits(journal: seq<Row>, after: int, rows: seq<Row>, lastSeq: int)
    requires Ordered(journal) && rows == Chunk(journal, after, ROLLUP_CHUNK) && rows != []
    requires forall r | r in rows :: r.rowId <= lastSeq
    requires lastSeq == after || exists r | r in rows :: r.rowId == lastSeq
    ensures rows == Between(journal, after, lastSeq) && lastSeq > after && exists r | r in journal :: r.rowId == lastSeq
  {
    ChunkIsNextStretch(journal, after, ROLLUP_CHUNK);
    ChunkSelects(journal, after, ROLLUP_CHUNK);
    var last := rows[|rows| - 1];
    assert last in rows;
    var r :| r in rows && r.rowId == lastSeq;
    var i :| 0 <= i < |rows| && rows[i] == r;
    assert last.rowId == lastSeq;
  }

  lemma AllPassed(journal: seq<Row>, after: int)
    requires Ordered(journal) && Chunk(journal, after, ROLLUP_CHUNK) == []
    ensures forall r | r in journal && r.ResultRow? :: r.rowId <= after
  {
  }
}
