/** Hourly rollups: what one fold of result rows is, and how upserts add folds up. */
module Rollups {

  import opened Prelude
  import opened Wire
  import opened StoreTables

  const BUCKET_MS := 3600000
  const ROLLUP_CHUNK := 2000

  datatype RollupKey = RollupKey(probeId: string, bucket: int)

  datatype Agg = Agg(checks: int, ok: int, errors: int, latencySum: int, latencyCount: int, latencyMin: Option<int>, latencyMax: Option<int>)

  const Zero := Agg(0, 0, 0, 0, 0, None, None)

  /** Go's integer division truncates toward zero. */
  function TruncDiv(a: int, b: int): int
    requires b > 0
  {
    if a >= 0 then a / b else -((-a) / b)
  }

  function Bucket(atMs: int): (b: int)
    ensures 0 <= b && b % BUCKET_MS == 0
    ensures atMs >= 0 ==> b <= atMs < b + BUCKET_MS
    ensures atMs < 0 ==> b == 0
  {
    var b := TruncDiv(atMs, BUCKET_MS) * BUCKET_MS;
    if b < 0 then 0 else b
  }

  function RollupKeyOf(r: Row): RollupKey
    requires r.ResultRow?
  {
    RollupKey(r.result.probeId, Bucket(r.atMs))
  }

  function Lower(prior: Option<int>, value: int): Option<int> {
    if prior.None? || value < prior.value then Some(value) else prior
  }

  function Higher(prior: Option<int>, value: int): Option<int> {
    if prior.None? || value > prior.value then Some(value) else prior
  }

  /** One row counted into its bucket. */
  function Count(a: Agg, r: Row): Agg
    requires r.ResultRow?
  {
    var b := Agg(a.checks + 1, a.ok + (if r.ok then 1 else 0), a.errors + (if r.ok then 0 else 1),
                 a.latencySum, a.latencyCount, a.latencyMin, a.latencyMax);
    if r.latencyUs.None? then b
    else
      var v := r.latencyUs.value;
      b.(latencySum := a.latencySum + v, latencyCount := a.latencyCount + 1,
         latencyMin := Lower(a.latencyMin, v), latencyMax := Higher(a.latencyMax, v))
  }

  predicate AllResults(rows: seq<Row>) {
    forall r | r in rows :: r.ResultRow?
  }

  predicate Touches(rows: seq<Row>, k: RollupKey)
    requires AllResults(rows)
  {
    exists r | r in rows :: RollupKeyOf(r) == k
  }

  /** The direct fold: every row of one bucket, counted once. */
  function Fold(rows: seq<Row>, k: RollupKey): (a: Agg)
    requires AllResults(rows)
    ensures a.latencyCount >= 0 && (a.latencyCount == 0 <==> a.latencyMin.None?) && (a.latencyCount == 0 <==> a.latencyMax.None?)
    ensures a.checks == a.ok + a.errors
  {
    if rows == [] then Zero
    else
      var before, last := Fold(rows[..|rows| - 1], k), rows[|rows| - 1];
      if RollupKeyOf(last) == k then Count(before, last) else before
  }

  // ---- What a bucket means ----

  /** The row was observed for the key's probe within the key's hour; rows from before 1970
      go into the first one. */
  predicate Belongs(r: Row, k: RollupKey) {
    && r.ResultRow? && r.result.probeId == k.probeId
    && if r.atMs < 0 then k.bucket == 0 else k.bucket % BUCKET_MS == 0 && k.bucket <= r.atMs < k.bucket + BUCKET_MS
  }

  function RowsAt(rows: seq<Row>, k: RollupKey): set<nat> {
    set i: nat | i < |rows| && Belongs(rows[i], k)
  }

  function OkAt(rows: seq<Row>, k: RollupKey): set<nat> {
    set i: nat | i < |rows| && Belongs(rows[i], k) && rows[i].ok
  }

  function FailedAt(rows: seq<Row>, k: RollupKey): set<nat> {
    set i: nat | i < |rows| && Belongs(rows[i], k) && !rows[i].ok
  }

  function TimedAt(rows: seq<Row>, k: RollupKey): set<nat> {
    set i: nat | i < |rows| && Belongs(rows[i], k) && rows[i].latencyUs.Some?
  }

  function LatencySum(rows: seq<Row>, k: RollupKey): int {
    if rows == [] then 0
    else
      var last := rows[|rows| - 1];
      LatencySum(rows[..|rows| - 1], k) + if Belongs(last, k) && last.latencyUs.Some? then last.latencyUs.value else 0
  }

  /** No latency of the bucket lies on the wrong side of the bound, and one attains it. */
  ghost predicate Bounds(rows: seq<Row>, k: RollupKey, bound: Option<int>, lowest: bool) {
    && (bound.None? <==> TimedAt(rows, k) == {})
    && (bound.Some? ==>
          && (forall i | i in TimedAt(rows, k) ::
                if lowest then bound.value <= rows[i].latencyUs.value else rows[i].latencyUs.value <= bound.value)
          && exists i :: i in TimedAt(rows, k) && rows[i].latencyUs.value == bound.value)
  }

  /** The bucket has the number of its rows, of those that were ok, of those that were not and
      of those with a latency, and the sum, the least and the greatest of the latencies. */
  ghost predicate Describes(a: Agg, rows: seq<Row>, k: RollupKey) {
    && Numbers(a, rows, k)
    && Bounds(rows, k, a.latencyMin, true) && Bounds(rows, k, a.latencyMax, false)
  }

  ghost predicate Numbers(a: Agg, rows: seq<Row>, k: RollupKey) {
    && a.checks == |RowsAt(rows, k)| && a.ok == |OkAt(rows, k)| && a.errors == |FailedAt(rows, k)|
    && a.latencyCount == |TimedAt(rows, k)| && a.latencySum == LatencySum(rows, k)
  }

  predicate IndexSets(rows: seq<Row>, k: RollupKey, n: nat)
    requires n + 1 == |rows|
  {
    var last, before := rows[n], rows[..n];
    && RowsAt(rows, k) == RowsAt(before, k) + (if Belongs(last, k) then {n} else {})
    && OkAt(rows, k) == OkAt(before, k) + (if Belongs(last, k) && last.ok then {n} else {})
    && FailedAt(rows, k) == FailedAt(before, k) + (if Belongs(last, k) && !last.ok then {n} else {})
    && TimedAt(rows, k) == TimedAt(before, k) + (if Belongs(last, k) && last.latencyUs.Some? then {n} else {})
    && n !in RowsAt(before, k) && n !in OkAt(before, k) && n !in FailedAt(before, k) && n !in TimedAt(before, k)
  }

  lemma Grows(a: set<nat>, b: set<nat>, n: nat, more: bool)
    requires n !in a && b == a + (if more then {n} else {})
    ensures |b| == |a| + if more then 1 else 0
  {
    if !more { assert b == a; }
  }

  lemma NumbersStep(a: Agg, rows: seq<Row>, k: RollupKey)
    requires rows != [] && rows[|rows| - 1].ResultRow? && Numbers(a, rows[..|rows| - 1], k)
    ensures Numbers(if Belongs(rows[|rows| - 1], k) then Count(a, rows[|rows| - 1]) else a, rows, k)
  {
    var n, last, before := |rows| - 1, rows[|rows| - 1], rows[..|rows| - 1];
    assert IndexSets(rows, k, n) by { IndexSetsStep(rows, k); }
    Grows(RowsAt(before, k), RowsAt(rows, k), n, Belongs(last, k));
    Grows(OkAt(before, k), OkAt(rows, k), n, Belongs(last, k) && last.ok);
    Grows(FailedAt(before, k), FailedAt(rows, k), n, Belongs(last, k) && !last.ok);
    Grows(TimedAt(before, k), TimedAt(rows, k), n, Belongs(last, k) && last.latencyUs.Some?);
  }

  lemma BelongsExactly(r: Row, k: RollupKey)
    requires r.ResultRow?
    ensures Belongs(r, k) <==> RollupKeyOf(r) == k
  {
    if r.atMs >= 0 && k.bucket % BUCKET_MS == 0 && k.bucket <= r.atMs < k.bucket + BUCKET_MS {
      SameHour(Bucket(r.atMs) / BUCKET_MS, k.bucket / BUCKET_MS, r.atMs);
    }
  }

  lemma SameHour(a: int, b: int, t: int)
    requires a * BUCKET_MS <= t < (a + 1) * BUCKET_MS && b * BUCKET_MS <= t < (b + 1) * BUCKET_MS
    ensures a == b
  {
  }

  lemma IndexSetsStep(rows: seq<Row>, k: RollupKey)
    requires rows != []
    ensures IndexSets(rows, k, |rows| - 1)
  {
  }

  lemma BoundsStep(rows: seq<Row>, k: RollupKey, bound: Option<int>, lowest: bool)
    requires rows != [] && Bounds(rows[..|rows| - 1], k, bound, lowest)
    ensures var last := rows[|rows| - 1];
            if Belongs(last, k) && last.latencyUs.Some? then
              Bounds(rows, k, if lowest then Lower(bound, last.latencyUs.value) else Higher(bound, last.latencyUs.value), lowest)
            else Bounds(rows, k, bound, lowest)
  {
    var n, last, before := |rows| - 1, rows[|rows| - 1], rows[..|rows| - 1];
    IndexSetsStep(rows, k);
    assert forall i | i in TimedAt(before, k) :: i in TimedAt(rows, k) && rows[i] == before[i];
    if bound.Some? {
      var i :| i in TimedAt(before, k) && before[i].latencyUs.value == bound.value;
      assert i in TimedAt(rows, k) && rows[i].latencyUs.value == bound.value;
    }
    if Belongs(last, k) && last.latencyUs.Some? { assert n in TimedAt(rows, k); }
  }

  /** The fold is what the bucket's rows amount to. */
  lemma {:induction false} FoldMeaning(rows: seq<Row>, k: RollupKey)
    requires AllResults(rows)
    ensures Describes(Fold(rows, k), rows, k)
    decreases |rows|
  {
    if rows != [] {
      var last := rows[|rows| - 1];
      assert last in rows;
      BelongsExactly(last, k);
      FoldMeaning(rows[..|rows| - 1], k);
      var before := Fold(rows[..|rows| - 1], k);
      NumbersStep(before, rows, k);
      BoundsStep(rows, k, before.latencyMin, true);
      BoundsStep(rows, k, before.latencyMax, false);
    }
    assert Bounds(rows, k, Fold(rows, k).latencyMin, true) && Bounds(rows, k, Fold(rows, k).latencyMax, false);
  }

  lemma TouchesExactly(rows: seq<Row>, k: RollupKey)
    requires AllResults(rows)
    ensures Touches(rows, k) <==> RowsAt(rows, k) != {}
  {
    forall i: nat | i < |rows| ensures Belongs(rows[i], k) <==> RollupKeyOf(rows[i]) == k {
      assert rows[i] in rows;
      BelongsExactly(rows[i], k);
    }
    if Touches(rows, k) {
      var r :| r in rows && RollupKeyOf(r) == k;
      var i: nat :| i < |rows| && rows[i] == r;
      assert i in RowsAt(rows, k);
    }
    if i :| i in RowsAt(rows, k) { assert rows[i] in rows; }
  }

  /** The upsert's ON CONFLICT branch. */
  function Merge(prior: Agg, excluded: Agg): Agg {
    Agg(prior.checks + excluded.checks, prior.ok + excluded.ok, prior.errors + excluded.errors,
        prior.latencySum + excluded.latencySum, prior.latencyCount + excluded.latencyCount,
        if excluded.latencyCount == 0 then prior.latencyMin
        else if prior.latencyMin.None? || (excluded.latencyMin.Some? && excluded.latencyMin.value < prior.latencyMin.value) then excluded.latencyMin
        else prior.latencyMin,
        if excluded.latencyCount == 0 then prior.latencyMax
        else if prior.latencyMax.None? || (excluded.latencyMax.Some? && excluded.latencyMax.value > prior.latencyMax.value) then excluded.latencyMax
        else prior.latencyMax)
  }

  lemma MergeThenCount(a: Agg, b: Agg, r: Row)
    requires r.ResultRow?
    requires b.latencyCount >= 0 && (b.latencyCount == 0 <==> b.latencyMin.None?) && (b.latencyCount == 0 <==> b.latencyMax.None?)
    ensures Merge(a, Count(b, r)) == Count(Merge(a, b), r)
  {
  }

  lemma FoldStep(rows: seq<Row>, last: Row, k: RollupKey)
    requires AllResults(rows) && last.ResultRow?
    ensures AllResults(rows + [last])
    ensures Fold(rows + [last], k) == if RollupKeyOf(last) == k then Count(Fold(rows, k), last) else Fold(rows, k)
  {
  }

  /** Merging two folds is the fold of both parts: sums, counts, minima and maxima alike. */
  lemma {:induction false} FoldsMerge(a: seq<Row>, b: seq<Row>, k: RollupKey)
    requires AllResults(a) && AllResults(b)
    ensures AllResults(a + b) && Fold(a + b, k) == Merge(Fold(a, k), Fold(b, k))
    decreases |b|
  {
    assert AllResults(a + b);
    if b == [] {
      assert a + b == a;
      MergeWithZero(Fold(a, k));
    } else {
      var before, last := b[..|b| - 1], b[|b| - 1];
      FoldsMerge(a, before, k);
      assert last in b;
      FoldStep(before, last, k);
      FoldStep(a + before, last, k);
      assert before + [last] == b && (a + before) + [last] == a + b;
      MergeThenCount(Fold(a, k), Fold(before, k), last);
    }
  }

  lemma {:induction false} UntouchedIsZero(rows: seq<Row>, k: RollupKey)
    requires AllResults(rows) && !Touches(rows, k)
    ensures Fold(rows, k) == Zero
    decreases |rows|
  {
    if rows != [] {
      assert rows[|rows| - 1] in rows;
      UntouchedIsZero(rows[..|rows| - 1], k);
    }
  }

  lemma TouchesEither(a: seq<Row>, b: seq<Row>, k: RollupKey)
    requires AllResults(a) && AllResults(b)
    ensures AllResults(a + b) && (Touches(a + b, k) <==> Touches(a, k) || Touches(b, k))
  {
  }

  function Keys(rows: seq<Row>): set<RollupKey>
    requires AllResults(rows)
  {
    set r | r in rows :: RollupKeyOf(r)
  }

  /** The map that rollupResults builds for one chunk. */
  function Aggregate(rows: seq<Row>): map<RollupKey, Agg>
    requires AllResults(rows)
  {
    map k | k in Keys(rows) :: Fold(rows, k)
  }

  /** All of one chunk's upserts. */
  function Upsert(rollups: map<RollupKey, Agg>, chunk: map<RollupKey, Agg>): map<RollupKey, Agg> {
    map k | k in rollups.Keys + chunk.Keys ::
      if k !in chunk then rollups[k]
      else if k !in rollups then chunk[k]
      else Merge(rollups[k], chunk[k])
  }

  /** The table holds exactly the direct fold of `rows`, bucket by bucket. */
  ghost predicate Counts(rollups: map<RollupKey, Agg>, rows: seq<Row>, k: RollupKey)
    requires AllResults(rows)
  {
    (k in rollups <==> Touches(rows, k)) && (k in rollups ==> rollups[k] == Fold(rows, k))
  }

  /** So a table that counts some rows says how many of them there were, how many were ok, and
      how long they took. */
  lemma CountsMeaning(rollups: map<RollupKey, Agg>, rows: seq<Row>, k: RollupKey)
    requires AllResults(rows) && Counts(rollups, rows, k)
    ensures k in rollups <==> RowsAt(rows, k) != {}
    ensures k in rollups ==> Describes(rollups[k], rows, k)
  {
    FoldMeaning(rows, k);
    TouchesExactly(rows, k);
  }

  lemma MergeWithZero(a: Agg)
    ensures Merge(a, Zero) == a
    ensures a.latencyCount >= 0 && (a.latencyCount == 0 <==> a.latencyMin.None?) && (a.latencyCount == 0 <==> a.latencyMax.None?)
            ==> Merge(Zero, a) == a
  {
  }

  lemma AggregateAt(chunk: seq<Row>, k: RollupKey)
    requires AllResults(chunk)
    ensures Counts(Aggregate(chunk), chunk, k)
  {
  }
  lemma OneSideUntouched(rows: seq<Row>, chunk: seq<Row>, k: RollupKey)
    requires AllResults(rows) && AllResults(chunk)
    ensures AllResults(rows + chunk) && Fold(rows + chunk, k) == Merge(Fold(rows, k), Fold(chunk, k))
    ensures !Touches(rows, k) ==> Fold(rows + chunk, k) == Fold(chunk, k)
    ensures !Touches(chunk, k) ==> Fold(rows + chunk, k) == Fold(rows, k)
  {
    FoldsMerge(rows, chunk, k);
    if !Touches(rows, k) {
      UntouchedIsZero(rows, k);
      MergeWithZero(Fold(chunk, k));
    }
    if !Touches(chunk, k) {
      UntouchedIsZero(chunk, k);
      MergeWithZero(Fold(rows, k));
    }
  }

  lemma UpsertCounts(rollups: map<RollupKey, Agg>, rows: seq<Row>, chunk: seq<Row>, aggregated: map<RollupKey, Agg>, k: RollupKey)
    requires AllResults(rows) && AllResults(chunk) && Counts(rollups, rows, k) && Counts(aggregated, chunk, k)
    ensures AllResults(rows + chunk) && Counts(Upsert(rollups, aggregated), rows + chunk, k)
  {
    TouchesEither(rows, chunk, k);
    OneSideUntouched(rows, chunk, k);
    UpsertedValue(rollups, aggregated, k, Fold(rows, k), Fold(chunk, k), Fold(rows + chunk, k));
  }

  lemma UpsertedValue(rollups: map<RollupKey, Agg>, aggregated: map<RollupKey, Agg>, k: RollupKey, a: Agg, b: Agg, both: Agg)
    requires both == Merge(a, b)
    requires if k in rollups then rollups[k] == a else both == b
    requires if k in aggregated then aggregated[k] == b else both == a
    ensures k in Upsert(rollups, aggregated) <==> k in rollups || k in aggregated
    ensures k in Upsert(rollups, aggregated) ==> Upsert(rollups, aggregated)[k] == both
  {
  }

  /** One more row changes one accumulator. */
  lemma AggregateStep(before: seq<Row>, row: Row, prior: Agg)
    requires AllResults(before) && row.ResultRow?
    requires var k := RollupKeyOf(row);
             prior == if k in Aggregate(before) then Aggregate(before)[k] else Zero
    ensures AllResults(before + [row])
    ensures Aggregate(before + [row]) == Aggregate(before)[RollupKeyOf(row) := Count(prior, row)]
  {
    var key, rows := RollupKeyOf(row), before + [row];
    if !Touches(before, key) { UntouchedIsZero(before, key); }
    AggregateAt(before, key);
    forall k
      ensures AllResults(rows) && (k in Aggregate(rows) <==> k == key || k in Aggregate(before))
      ensures k in Aggregate(rows) ==> Aggregate(rows)[k] == if k == key then Count(prior, row) else Aggregate(before)[k]
    {
      FoldStep(before, row, k);
      AggregateAt(before, k);
      AggregateAt(rows, k);
      TouchesEither(before, [row], k);
    }
  }

  /** The body of rollupResults' loop: what one row does to its accumulator. */
  method Accumulate(prior: Agg, row: Row) returns (agg: Agg)
    requires row.ResultRow?
    ensures agg == Count(prior, row)
  {
    agg := prior.(checks := prior.checks + 1);
    if row.ok {
      agg := agg.(ok := agg.ok + 1);
    } else {
      agg := agg.(errors := agg.errors + 1);
    }
    if row.latencyUs.Some? {
      var value := row.latencyUs.value;
      agg := agg.(latencySum := agg.latencySum + value, latencyCount := agg.latencyCount + 1);
      if agg.latencyMin.None? || value < agg.latencyMin.value { agg := agg.(latencyMin := Some(value)); }
      if agg.latencyMax.None? || value > agg.latencyMax.value { agg := agg.(latencyMax := Some(value)); }
    }
  }

  /** readRollupChunk: the first `limit` result rows after the cursor. */
  function Chunk(journal: seq<Row>, after: int, limit: nat): (c: seq<Row>)
    ensures AllResults(c)
  {
    if journal == [] || limit == 0 then []
    else if journal[0].ResultRow? && journal[0].rowId > after then [journal[0]] + Chunk(journal[1..], after, limit - 1)
    else Chunk(journal[1..], after, limit)
  }

  /** rollupResults' loop over one chunk: the accumulators it builds in place are the chunk's folds,
      and the cursor it will commit is the last row's id. */
  method AggregateChunk(rows: seq<Row>, after: int) returns (aggregated: map<RollupKey, Agg>, lastSeq: int)
    requires AllResults(rows)
    ensures aggregated == Aggregate(rows)
    ensures forall k | k in aggregated :: Describes(aggregated[k], rows, k)
    ensures lastSeq >= after && forall r | r in rows :: r.rowId <= lastSeq
    ensures lastSeq == after || exists r | r in rows :: r.rowId == lastSeq
  {
    aggregated := map[];
    lastSeq := after;
    for i := 0 to |rows|
      invariant AllResults(rows[..i]) && aggregated == Aggregate(rows[..i])
      invariant lastSeq >= after && forall r | r in rows[..i] :: r.rowId <= lastSeq
      invariant lastSeq == after || exists r | r in rows[..i] :: r.rowId == lastSeq
    {
      var row := rows[i];
      var before, now := rows[..i], rows[..i + 1];
      assert now == before + [row] && now[..|now| - 1] == before;
      assert row in rows;
      var key := RollupKeyOf(row);
      var prior := if key in aggregated then aggregated[key] else Zero;
      AggregateStep(before, row, prior);
      var agg := Accumulate(prior, row);
      aggregated := aggregated[key := agg];
      if row.rowId > lastSeq { lastSeq := row.rowId; }
    }
    assert rows[..|rows|] == rows;
    forall k | k in aggregated ensures Describes(aggregated[k], rows, k) { FoldMeaning(rows, k); }
  }
}
