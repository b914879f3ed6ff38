/** The node-local database: its tables, and every transaction on them as a function
    from tables to tables. `Store.dfy` holds the imperative methods that refine these. */
module StoreTables {

  import opened Prelude
  import opened Wire

  datatype TriggerKey = TriggerKey(probeId: string, runId: string)

  /** The columns of the journal_result_dedup index, for one origin. */
  datatype ResultKey = ResultKey(runId: string, probeId: string, checkSeq: int)

  datatype Delivery = Pending | Delivered | Rejected

  /** A journal row. `rowId` is the AUTOINCREMENT rowid. */
  datatype Row =
    | AssignmentRow(rowId: int, originSeq: int, atMs: int, hash: string, probes: seq<Snapshot>)
    | TriggerRow(rowId: int, originSeq: int, atMs: int, key: TriggerKey, snapshot: Snapshot)
    | DoneRow(rowId: int, originSeq: int, atMs: int, key: TriggerKey)
    | ResultRow(rowId: int, originSeq: int, atMs: int, result: ResultKey, ok: bool, latencyUs: Option<int>, body: string, delivery: Delivery)

  datatype ProbeRow = ProbeRow(snapshot: Snapshot, lastRunAt: Option<int>, lastTriggerRunId: Option<string>)

  datatype PendingRow = PendingRow(eventSeq: int, createdAt: int, snapshot: Snapshot)

  /** `journal` is in rowid order; `lastRow` is the largest rowid ever handed out and
      `nextSeq` the sequences row of the database's one origin. */
  datatype Tables = Tables(
    journal: seq<Row>,
    lastRow: nat,
    nextSeq: Option<int>,
    probes: map<string, ProbeRow>,
    hash: Option<string>,
    pending: map<TriggerKey, PendingRow>,
    completed: map<TriggerKey, int>)

  const Empty := Tables([], 0, None, map[], None, map[], map[])

  // ---- Sequence numbers ----

  function FirstFree(t: Tables): int {
    if t.nextSeq.None? then 1 else t.nextSeq.value
  }

  /** nextOriginSeq: hands out `count` numbers starting at FirstFree(t). */
  function Reserve(t: Tables, count: nat): Tables {
    t.(nextSeq := Some(FirstFree(t) + count))
  }

  function Append(t: Tables, row: Row): Tables
    requires row.rowId == t.lastRow + 1
  {
    t.(journal := t.journal + [row], lastRow := t.lastRow + 1)
  }

  // ---- Assignments ----

  predicate DistinctIds(probes: seq<Snapshot>) {
    forall i, j | 0 <= i < j < |probes| :: probes[i].id != probes[j].id
  }

  function CarriedOver(existing: map<string, ProbeRow>, snapshot: Snapshot): ProbeRow {
    if snapshot.id in existing
    then ProbeRow(snapshot, existing[snapshot.id].lastRunAt, existing[snapshot.id].lastTriggerRunId)
    else ProbeRow(snapshot, None, None)
  }

  /** applyAssignmentTx: the new probes table. `existing` is the old table when
      schedule state is preserved and empty when it is not. */
  function ProbesOf(existing: map<string, ProbeRow>, probes: seq<Snapshot>): map<string, ProbeRow> {
    if probes == [] then map[]
    else
      var last := probes[|probes| - 1];
      ProbesOf(existing, probes[..|probes| - 1])[last.id := CarriedOver(existing, last)]
  }

  /** An empty hash does nothing; a repeated probe id breaks the primary key and
      rolls the transaction back. */
  function SaveAssignment(t: Tables, hash: string, probes: seq<Snapshot>, now: int): Tables {
    if hash == "" || !DistinctIds(probes) then t
    else
      Append(Reserve(t, 1), AssignmentRow(t.lastRow + 1, FirstFree(t), now, hash, probes))
      .(probes := ProbesOf(t.probes, probes), hash := Some(hash))
  }

  function MarkProbesRun(t: Tables, ids: set<string>, now: int): Tables {
    t.(probes := map id | id in t.probes ::
                   if id in ids then t.probes[id].(lastRunAt := Some(now)) else t.probes[id])
  }

  // ---- Triggers ----

  function KeyOf(event: Event): TriggerKey {
    TriggerKey(event.probe.id, event.runId)
  }

  predicate WellFormed(event: Event) {
    event.eventType == "triggered" && event.runId != "" && event.probe.id != ""
  }

  /** triggerAlreadySeenTx */
  predicate Seen(t: Tables, key: TriggerKey) {
    || key in t.completed
    || key in t.pending
    || (key.probeId in t.probes && t.probes[key.probeId].lastTriggerRunId == Some(key.runId))
  }

  predicate Records(t: Tables, event: Event) {
    WellFormed(event) && !Seen(t, KeyOf(event))
  }

  /** queueTriggerTx: ON CONFLICT DO NOTHING. */
  function Queue(pending: map<TriggerKey, PendingRow>, key: TriggerKey, row: PendingRow): map<TriggerKey, PendingRow> {
    if key in pending then pending else pending[key := row]
  }

  function RecordTrigger(t: Tables, event: Event, now: int): Tables {
    if !Records(t, event) then t
    else
      var row := TriggerRow(t.lastRow + 1, FirstFree(t), now, KeyOf(event), event.probe);
      Append(Reserve(t, 1), row)
      .(pending := Queue(t.pending, KeyOf(event), PendingRow(row.rowId, now, event.probe)))
  }

  function MarkLastTrigger(probes: map<string, ProbeRow>, key: TriggerKey): map<string, ProbeRow> {
    if key.probeId in probes
    then probes[key.probeId := probes[key.probeId].(lastTriggerRunId := Some(key.runId))]
    else probes
  }

  /** One round of CompleteTriggers' loop. */
  function CompleteOne(t: Tables, key: TriggerKey, now: int): Tables {
    Append(Reserve(t, 1), DoneRow(t.lastRow + 1, FirstFree(t), now, key))
    .(pending := t.pending - {key},
      completed := t.completed[key := now],
      probes := MarkLastTrigger(t.probes, key))
  }

  function CompleteTriggers(t: Tables, keys: seq<TriggerKey>, now: int): Tables {
    if keys == [] then t
    else CompleteOne(CompleteTriggers(t, keys[..|keys| - 1], now), keys[|keys| - 1], now)
  }

  // ---- Results ----

  datatype Summary = Summary(inserted: nat, duplicates: nat, skipped: nat)

  predicate Blank(r: Result) {
    r.runId == "" || r.probeId == ""
  }

  function ResultKeyOf(r: Result): ResultKey {
    ResultKey(r.runId, r.probeId, if r.checkSeq < 1 then 1 else r.checkSeq)
  }

  /** ON CONFLICT DO NOTHING looks at both unique indexes. */
  predicate Conflicts(journal: seq<Row>, originSeq: int, key: ResultKey) {
    exists i | 0 <= i < |journal| ::
      journal[i].originSeq == originSeq || (journal[i].ResultRow? && journal[i].result == key)
  }

  /** One round of RecordResults' loop: `originSeq` is the number reserved for this result. */
  function InsertResult(t: Tables, s: Summary, r: Result, originSeq: int, now: int): (Tables, Summary) {
    if Blank(r) then (t, s.(skipped := s.skipped + 1))
    else if Conflicts(t.journal, originSeq, ResultKeyOf(r)) then (t, s.(duplicates := s.duplicates + 1))
    else
      (Append(t, ResultRow(t.lastRow + 1, originSeq, if r.observedAt.Some? then r.observedAt.value else now,
                         ResultKeyOf(r), r.ok, r.latencyUs, r.body, Pending)),
       s.(inserted := s.inserted + 1))
  }

  function InsertResults(t: Tables, results: seq<Result>, start: int, now: int): (Tables, Summary) {
    if results == [] then (t, Summary(0, 0, 0))
    else
      var n := |results| - 1;
      var (before, s) := InsertResults(t, results[..n], start, now);
      InsertResult(before, s, results[n], start + n, now)
  }

  function RecordResults(t: Tables, results: seq<Result>, now: int): (Tables, Summary) {
    if results == [] then (t, Summary(0, 0, 0))
    else InsertResults(Reserve(t, |results|), results, FirstFree(t), now)
  }

  // ---- Delivery ----

  datatype Outcome = Outcome(rowId: int, accepted: bool)

  function SettleRow(row: Row, s: Outcome): Row {
    if s.rowId != 0 && row.rowId == s.rowId && row.ResultRow? && row.delivery == Pending
    then row.(delivery := if s.accepted then Delivered else Rejected)
    else row
  }

  function SettleAll(journal: seq<Row>, s: Outcome): seq<Row> {
    seq(|journal|, i requires 0 <= i < |journal| => SettleRow(journal[i], s))
  }

  function MarkOutcomes(t: Tables, outcomes: seq<Outcome>): Tables {
    if outcomes == [] then t
    else
      var before := MarkOutcomes(t, outcomes[..|outcomes| - 1]);
      before.(journal := SettleAll(before.journal, outcomes[|outcomes| - 1]))
  }

  predicate IsPending(row: Row) {
    row.ResultRow? && row.delivery == Pending
  }

  /** The first `limit` undelivered results, oldest first. */
  function PendingResults(journal: seq<Row>, limit: nat): seq<Row> {
    if journal == [] || limit == 0 then []
    else if IsPending(journal[0]) then [journal[0]] + PendingResults(journal[1..], limit - 1)
    else PendingResults(journal[1..], limit)
  }

  // ---- Maintenance ----

  function EventSeqs(pending: map<TriggerKey, PendingRow>): set<int> {
    set k | k in pending :: pending[k].eventSeq
  }

  /** The WHERE clause shared by both pruning statements; `cutoff` is None when the
      statement has no age condition. */
  predicate Prunable(row: Row, held: set<int>, cutoff: Option<int>) {
    && (|| (row.ResultRow? && row.delivery != Pending)
        || ((row.TriggerRow? || row.DoneRow?) && row.rowId !in held))
    && (cutoff.Some? ==> row.atMs < cutoff.value)
  }

  /** DELETE ... ORDER BY seq LIMIT n */
  function DeleteFirst(journal: seq<Row>, held: set<int>, cutoff: Option<int>, limit: nat): seq<Row> {
    if journal == [] || limit == 0 then journal
    else if Prunable(journal[0], held, cutoff) then DeleteFirst(journal[1..], held, cutoff, limit - 1)
    else [journal[0]] + DeleteFirst(journal[1..], held, cutoff, limit)
  }

  const PRUNE_CHUNK := 2000

  function PruneUpTo(t: Tables, cutoff: Option<int>, limit: nat): Tables {
    t.(journal := DeleteFirst(t.journal, EventSeqs(t.pending), cutoff, limit))
  }

  /** One pruning statement. */
  function Prune(t: Tables, cutoff: Option<int>): Tables {
    PruneUpTo(t, cutoff, PRUNE_CHUNK)
  }

  function PruneCompleted(t: Tables, cutoff: int): Tables {
    t.(completed := map k | k in t.completed && t.completed[k] >= cutoff :: t.completed[k])
  }

  predicate OldAssignment(journal: seq<Row>, row: Row) {
    row.AssignmentRow? && exists i | 0 <= i < |journal| :: journal[i].AssignmentRow? && journal[i].rowId > row.rowId
  }

  function Keep(journal: seq<Row>, whole: seq<Row>): seq<Row> {
    if journal == [] then []
    else (if OldAssignment(whole, journal[0]) then [] else [journal[0]]) + Keep(journal[1..], whole)
  }

  /** Only the newest assignment row stays. */
  function Collapse(t: Tables): Tables {
    t.(journal := Keep(t.journal, t.journal))
  }

  // ---- Rebuild ----

  /** Replaying one journal row onto the projections. */
  function Apply(t: Tables, row: Row): Tables {
    match row
    case AssignmentRow(_, _, _, hash, probes) =>
      t.(probes := ProbesOf(map[], probes), hash := Some(hash))
    case TriggerRow(rowId, _, atMs, key, snapshot) =>
      t.(pending := Queue(t.pending, key, PendingRow(rowId, atMs, snapshot)))
    case DoneRow(_, _, atMs, key) =>
      t.(pending := t.pending - {key}, completed := t.completed[key := atMs], probes := MarkLastTrigger(t.probes, key))
    case ResultRow(_, _, _, _, _, _, _, _) => t
  }

  function Cleared(t: Tables): Tables {
    t.(probes := map[], hash := None, pending := map[], completed := map[])
  }

  /** The projections after replaying the first rows of a journal. */
  function Replay(t: Tables, rows: seq<Row>): Tables {
    if rows == [] then Cleared(t)
    else Apply(Replay(t, rows[..|rows| - 1]), rows[|rows| - 1])
  }

  /** max(at_ms) over the results of one probe. */
  function NewestRun(journal: seq<Row>, probeId: string): Option<int> {
    if journal == [] then None
    else
      var last := journal[|journal| - 1];
      var before := NewestRun(journal[..|journal| - 1], probeId);
      if last.ResultRow? && last.result.probeId == probeId && (before.None? || last.atMs > before.value)
      then Some(last.atMs)
      else before
  }

  function RestoreRunTimes(t: Tables): Tables {
    t.(probes := map id | id in t.probes ::
                   var newest := NewestRun(t.journal, id);
                   if newest.Some? then t.probes[id].(lastRunAt := newest) else t.probes[id])
  }

  function Rebuild(t: Tables): Tables {
    RestoreRunTimes(Replay(t, t.journal))
  }
}
