/** The delivery outbox: what may happen to a result row, and how a drain ends. */
module Outbox {

  import opened Prelude
  import opened Wire
  import opened StoreTables
  import opened StoreReplay
  import opened StoreSteps
  import opened StoreRuns
  import opened StoreResults
  import opened RollupRuns

  // ---- Safety over whole runs ----

  ghost predicate OnlyPostedSettle(s: Sys) {
    && WellOrdered(s.t)
    && (forall r | r in s.t.journal && r.ResultRow? && r.delivery != Pending :: r.rowId in s.posted)
    && (s.drain.Posted? ==> forall o | o in s.drain.outcomes :: o.rowId in s.posted)
  }

  /** Settling touches only rows that the outcomes name. */
  lemma {:induction false} SettledAreNamed(t: Tables, outcomes: seq<Outcome>, i: nat)
    requires i < |t.journal|
    ensures var u := MarkOutcomes(t, outcomes);
            && |u.journal| == |t.journal|
            && (u.journal[i] != t.journal[i] ==>
                  exists o :: o in outcomes && o.rowId == t.journal[i].rowId && Settles(t.journal[i], u.journal[i]))
    decreases |outcomes|
  {
    if outcomes != [] {
      var before, last := outcomes[..|outcomes| - 1], outcomes[|outcomes| - 1];
      SettledAreNamed(t, before, i);
      SettledRows(t, before);
      assert last in outcomes;
      var v := MarkOutcomes(t, before);
      if v.journal[i] != t.journal[i] {
        var o :| o in before && o.rowId == t.journal[i].rowId && Settles(t.journal[i], v.journal[i]);
        assert o in outcomes;
      }
    }
  }

  lemma SettleKeeps(s: Sys)
    requires OnlyPostedSettle(s) && s.drain.Posted?
    ensures OnlyPostedSettle(Next(s, Settle))
  {
    var u := Next(s, Settle);
    SettledRows(s.t, s.drain.outcomes);
    SettledJournal(s.t, u.t);
    forall r | r in u.t.journal && r.ResultRow? && r.delivery != Pending ensures r.rowId in s.posted {
      var i :| 0 <= i < |u.t.journal| && u.t.journal[i] == r;
      SettledAreNamed(s.t, s.drain.outcomes, i);
      assert s.t.journal[i] in s.t.journal;
    }
  }

  /** Maintenance takes rows away and adds none. */
  lemma MaintenanceDeletes(s: Sys, step: Step)
    requires WellOrdered(s.t) && (step.PruneAge? || step.PruneDone? || step.CollapseOld? || step.PruneSize?)
    ensures var u := Next(s, step);
            && WellOrdered(u.t) && u.posted == s.posted && u.drain == s.drain
            && (forall r | r in u.t.journal :: r in s.t.journal)
            && (forall r | r in s.t.journal && IsPending(r) :: r in u.t.journal)
  {
    var held := EventSeqs(s.t.pending);
    var phase := PhaseOf(s, step.job);
    match step
    case PruneAge(job) =>
      if phase.Pruning? { var last := DeletedUpTo(s.t.journal, held, Some(phase.cutoff), PRUNE_CHUNK); }
    case PruneDone(job) =>
    case CollapseOld(job) => KeptRows(s.t.journal, s.t.journal);
    case PruneSize(job, oldest) => var last := DeletedUpTo(s.t.journal, held, None, PRUNE_CHUNK);
  }

  lemma StepKeepsPosted(s: Sys, step: Step)
    requires OnlyPostedSettle(s)
    ensures OnlyPostedSettle(Next(s, step)) && s.posted <= Next(s, step).posted
  {
    match step
    case Transaction(op) => OpKeepsResults(s.t, op, s.clock);
    case PruneAge(_) => MaintenanceDeletes(s, step);
    case PruneDone(_) => MaintenanceDeletes(s, step);
    case CollapseOld(_) => MaintenanceDeletes(s, step);
    case PruneSize(_, _) => MaintenanceDeletes(s, step);
    case Settle => if s.drain.Posted? { SettleKeeps(s); }
    case Post(acks) =>
      if s.drain.Batch? {
        var outcomes := OutcomesFor(s.drain.rows, acks);
        forall o | o in outcomes ensures o.rowId in RowIds(s.drain.rows) {
          var i :| 0 <= i < |outcomes| && outcomes[i] == o;
          assert s.drain.rows[i] in s.drain.rows;
        }
      }
    case _ =>
  }

  lemma {:induction false} RunKeepsPosted(steps: seq<Step>)
    ensures OnlyPostedSettle(Exec(Start, steps))
    decreases |steps|
  {
    if steps != [] {
      RunKeepsPosted(steps[..|steps| - 1]);
      StepKeepsPosted(Exec(Start, steps[..|steps| - 1]), steps[|steps| - 1]);
    }
  }

  /** What one step may do to a result row that is in the journal before it. */
  ghost predicate MayBecome(s: Sys, r: Row, u: Sys) {
    // it stays exactly as it is,
    || r in u.t.journal
    // or it is settled, once, after a successful POST that contained it,
    || (IsPending(r) && r.rowId in s.posted && exists q :: q in u.t.journal && Settles(r, q))
    // or it is deleted, but only when it is no longer pending.
    || (!IsPending(r) && forall q | q in u.t.journal :: q.rowId != r.rowId)
  }

  /** In every run, at every step: a result moves only from pending to delivered or rejected,
      only after a successful POST containing it, and is never deleted while pending. */
  lemma ResultRowLifeCycle(steps: seq<Step>, step: Step, r: Row)
    requires r in Exec(Start, steps).t.journal && r.ResultRow?
    ensures MayBecome(Exec(Start, steps), r, Next(Exec(Start, steps), step))
  {
    RunKeepsPosted(steps);
    var s := Exec(Start, steps);
    var u := Next(s, step);
    match step
    case Transaction(op) => OpKeepsResults(s.t, op, s.clock);
    case PruneAge(_) => MaintenanceTakesWholeRows(s, step, r);
    case PruneDone(_) => MaintenanceTakesWholeRows(s, step, r);
    case CollapseOld(_) => MaintenanceTakesWholeRows(s, step, r);
    case PruneSize(_, _) => MaintenanceTakesWholeRows(s, step, r);
    case Settle =>
      if s.drain.Posted? {
        SettledRows(s.t, s.drain.outcomes);
        var i :| 0 <= i < |s.t.journal| && s.t.journal[i] == r;
        SettledAreNamed(s.t, s.drain.outcomes, i);
        assert u.t.journal[i] in u.t.journal;
      }
    case _ =>
  }

  lemma MaintenanceTakesWholeRows(s: Sys, step: Step, r: Row)
    requires WellOrdered(s.t) && (step.PruneAge? || step.PruneDone? || step.CollapseOld? || step.PruneSize?)
    requires r in s.t.journal && r.ResultRow?
    ensures MayBecome(s, r, Next(s, step))
  {
    MaintenanceDeletes(s, step);
    var u := Next(s, step);
    if r !in u.t.journal {
      forall q | q in u.t.journal ensures q.rowId != r.rowId {
        if q.rowId == r.rowId { SameRow(s.t.journal, q, r); }
      }
    }
  }

  // ---- Progress of one drain ----

  function PendingOnly(rows: seq<Row>): seq<Row> {
    if rows == [] then []
    else (if IsPending(rows[0]) then [rows[0]] else []) + PendingOnly(rows[1..])
  }

  /** The queue is every result still to be delivered, in row order. */
  lemma {:induction false} PendingOnlyExactly(rows: seq<Row>)
    requires Ordered(rows)
    ensures forall r :: r in PendingOnly(rows) <==> r in rows && r.ResultRow? && r.delivery == Pending
    ensures Ordered(PendingOnly(rows))
    decreases |rows|
  {
    if rows != [] {
      HeadIsFirst(rows);
      PendingOnlyExactly(rows[1..]);
      assert rows == [rows[0]] + rows[1..];
      var rest := PendingOnly(rows[1..]);
      assert forall i | 0 <= i < |rest| :: rest[i] in rest;
    }
  }

  lemma {:induction false} BatchIsPrefix(rows: seq<Row>, limit: nat)
    ensures |PendingResults(rows, limit)| == if |PendingOnly(rows)| < limit then |PendingOnly(rows)| else limit
    ensures PendingResults(rows, limit) == PendingOnly(rows)[..|PendingResults(rows, limit)|]
    decreases |rows|
  {
    if rows != [] && limit > 0 {
      if IsPending(rows[0]) {
        BatchIsPrefix(rows[1..], limit - 1);
        assert PendingOnly(rows) == [rows[0]] + PendingOnly(rows[1..]);
      } else {
        BatchIsPrefix(rows[1..], limit);
        assert PendingOnly(rows) == PendingOnly(rows[1..]);
      }
    }
  }

  predicate FirstNaming(outcomes: seq<Outcome>, rowId: int, j: nat) {
    j < |outcomes| && outcomes[j].rowId == rowId && forall l | 0 <= l < j :: outcomes[l].rowId != rowId
  }

  /** The first outcome that names a pending row decides it. */
  lemma {:induction false} FirstOutcomeDecides(t: Tables, outcomes: seq<Outcome>, i: nat, j: nat)
    requires i < |t.journal| && IsPending(t.journal[i]) && t.journal[i].rowId != 0
    requires FirstNaming(outcomes, t.journal[i].rowId, j)
    ensures |MarkOutcomes(t, outcomes).journal| == |t.journal|
    ensures MarkOutcomes(t, outcomes).journal[i] == t.journal[i].(delivery := if outcomes[j].accepted then Delivered else Rejected)
    decreases |outcomes|
  {
    var n := |outcomes| - 1;
    var before := outcomes[..n];
    SettledRows(t, before);
    if j == n {
      SettledAreNamed(t, before, i);
    } else {
      assert FirstNaming(before, t.journal[i].rowId, j);
      FirstOutcomeDecides(t, before, i, j);
    }
  }

  predicate Concerns(ack: Ack, runId: string, checkSeq: int) {
    ack.runId == runId && ack.checkSeq == checkSeq
  }

  /** The last ack for this check rejects it. */
  ghost predicate Rejects(acks: seq<Ack>, runId: string, checkSeq: int) {
    exists j :: 0 <= j < |acks| && Concerns(acks[j], runId, checkSeq) && !acks[j].accepted
                && forall l | j < l < |acks| :: !Concerns(acks[l], runId, checkSeq)
  }

  /** The row has got the verdict that the acks have for it. */
  ghost predicate SettledBy(journal: seq<Row>, r: Row, acks: seq<Ack>) {
    r.ResultRow? && r.(delivery := if Rejects(acks, r.result.runId, r.result.checkSeq) then Rejected else Delivered) in journal
  }

  lemma {:induction false} AckOfIsLast(acks: seq<Ack>, key: ResultKey)
    ensures Rejects(acks, key.runId, key.checkSeq) <==> AckOf(acks, key).Some? && !AckOf(acks, key).value.accepted
    decreases |acks|
  {
    if acks != [] {
      var n := |acks| - 1;
      var before, last := acks[..n], acks[n];
      AckOfIsLast(before, key);
      if Concerns(last, key.runId, key.checkSeq) {
        if !last.accepted { assert Concerns(acks[n], key.runId, key.checkSeq); }
      } else {
        if Rejects(before, key.runId, key.checkSeq) {
          var j :| 0 <= j < n && Concerns(before[j], key.runId, key.checkSeq) && !before[j].accepted
                   && forall l | j < l < n :: !Concerns(before[l], key.runId, key.checkSeq);
          assert acks[j] == before[j] && forall l | j < l < n :: acks[l] == before[l];
        }
        if Rejects(acks, key.runId, key.checkSeq) {
          var j :| 0 <= j <= n && Concerns(acks[j], key.runId, key.checkSeq) && !acks[j].accepted
                   && forall l | j < l <= n :: !Concerns(acks[l], key.runId, key.checkSeq);
          assert acks[j] == before[j] && forall l | j < l < n :: acks[l] == before[l];
        }
      }
    }
  }

  /** outcomesFor: the last ack decides, and a result without one counts as accepted. */
  lemma OutcomeIsVerdict(r: Row, acks: seq<Ack>)
    requires r.ResultRow?
    ensures OutcomeFor(r, acks) == Outcome(r.rowId, !Rejects(acks, r.result.runId, r.result.checkSeq))
  {
    AckOfIsLast(acks, r.result);
  }

  lemma {:induction false} OldestSettled(a: seq<Row>, b: seq<Row>, n: nat)
    requires Ordered(a) && |a| == |b| && n <= |PendingOnly(a)|
    requires forall i | 0 <= i < |a| :: if a[i] in PendingResults(a, n) then !IsPending(b[i]) else IsPending(a[i]) ==> b[i] == a[i]
    requires forall i | 0 <= i < |a| && !IsPending(a[i]) :: !IsPending(b[i])
    ensures PendingOnly(b) == PendingOnly(a)[n..]
    decreases |a|
  {
    if a != [] {
      var p := PendingResults(a, n);
      if IsPending(a[0]) && n > 0 {
        assert p == [a[0]] + PendingResults(a[1..], n - 1);
        OldestSettled(a[1..], b[1..], n - 1);
        assert a[0] in p;
        assert PendingOnly(a)[n..] == PendingOnly(a[1..])[n - 1..];
      } else if n == 0 {
        OldestSettled(a[1..], b[1..], 0);
      } else {
        OldestSettled(a[1..], b[1..], n);
      }
    }
  }

  /** Some outcome of a batch is the first to name a row, and it is that row's own. */
  lemma NamedFirst(rows: seq<Row>, journal: seq<Row>, acks: seq<Ack>, r: Row) returns (j: nat)
    requires Ordered(journal) && r in rows && forall q | q in rows :: q in journal
    ensures FirstNaming(OutcomesFor(rows, acks), r.rowId, j) && j < |rows| && rows[j] == r
  {
    var outcomes := OutcomesFor(rows, acks);
    var k :| 0 <= k < |rows| && rows[k] == r;
    j := 0;
    while outcomes[j].rowId != r.rowId
      invariant 0 <= j <= k && forall l | 0 <= l < j :: outcomes[l].rowId != r.rowId
      decreases k - j
    {
      j := j + 1;
    }
    SameRow(journal, rows[j], r);
  }

  /** Every posted row ends up with the verdict of the acks. */
  lemma BatchSettledBy(t: Tables, limit: nat, acks: seq<Ack>, r: Row)
    requires WellOrdered(t) && r in PendingResults(t.journal, limit)
    ensures SettledBy(MarkOutcomes(t, OutcomesFor(PendingResults(t.journal, limit), acks)).journal, r, acks)
  {
    var rows := PendingResults(t.journal, limit);
    var outcomes := OutcomesFor(rows, acks);
    var u := MarkOutcomes(t, outcomes);
    forall q | q in rows ensures q in t.journal && IsPending(q) { BatchRows(t.journal, limit, q); }
    var j := NamedFirst(rows, t.journal, acks, r);
    var i :| 0 <= i < |t.journal| && t.journal[i] == r;
    FirstOutcomeDecides(t, outcomes, i, j);
    OutcomeIsVerdict(r, acks);
    assert u.journal[i] in u.journal;
  }

  /** Posting the oldest batch and settling it takes exactly that batch off the queue, gives each
      of its rows the verdict of its last ack, and leaves every other row alone. */
  lemma SettlingTheOldest(t: Tables, limit: nat, acks: seq<Ack>)
    requires WellOrdered(t)
    ensures var rows := PendingResults(t.journal, limit);
            var u := MarkOutcomes(t, OutcomesFor(rows, acks));
            && WellOrdered(u) && |rows| <= |PendingOnly(t.journal)|
            && PendingOnly(u.journal) == PendingOnly(t.journal)[|rows|..]
            && (forall r | r in rows :: SettledBy(u.journal, r, acks))
            && (forall r | r in t.journal && r !in rows :: r in u.journal)
  {
    var a := t.journal;
    var rows := PendingResults(a, limit);
    var outcomes := OutcomesFor(rows, acks);
    var u := MarkOutcomes(t, outcomes);
    BatchIsPrefix(a, limit);
    BatchIsPrefix(a, |rows|);
    SettledRows(t, outcomes);
    SettledJournal(t, u);
    forall i | 0 <= i < |a|
      ensures if a[i] in rows then !IsPending(u.journal[i]) else u.journal[i] == a[i]
    {
      OneSettled(t, limit, acks, i);
    }
    OldestSettled(a, u.journal, |rows|);
    forall r | r in rows ensures SettledBy(u.journal, r, acks) { BatchSettledBy(t, limit, acks, r); }
    forall r | r in a && r !in rows ensures r in u.journal {
      var i :| 0 <= i < |a| && a[i] == r;
      assert u.journal[i] in u.journal;
    }
  }

  lemma OneSettled(t: Tables, limit: nat, acks: seq<Ack>, i: nat)
    requires WellOrdered(t) && i < |t.journal|
    ensures var rows := PendingResults(t.journal, limit);
            var u := MarkOutcomes(t, OutcomesFor(rows, acks));
            && |u.journal| == |t.journal|
            && if t.journal[i] in rows then !IsPending(u.journal[i]) else u.journal[i] == t.journal[i]
  {
    var a := t.journal;
    var rows := PendingResults(a, limit);
    var outcomes := OutcomesFor(rows, acks);
    SettledAreNamed(t, outcomes, i);
    forall q | q in rows ensures q in a && IsPending(q) { BatchRows(a, limit, q); }
    if a[i] in rows {
      var j := NamedFirst(rows, a, acks, a[i]);
      FirstOutcomeDecides(t, outcomes, i, j);
    } else if MarkOutcomes(t, outcomes).journal[i] != a[i] {
      var o :| o in outcomes && o.rowId == a[i].rowId;
      var j :| 0 <= j < |outcomes| && outcomes[j] == o;
      SameRow(a, rows[j], a[i]);
    }
  }

  lemma {:induction false} BatchRows(rows: seq<Row>, limit: nat, r: Row)
    requires r in PendingResults(rows, limit)
    ensures r in rows && IsPending(r)
    decreases |rows|
  {
    if !(IsPending(rows[0]) && r == rows[0]) {
      BatchRows(rows[1..], if IsPending(rows[0]) then limit - 1 else limit, r);
    }
  }
}
