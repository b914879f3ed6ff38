/** Recording results: idempotent, and never swallowing a result it has not seen. */
module StoreResults {

  import opened Prelude
  import opened Wire
  import opened StoreTables
  import opened StoreReplay
  import opened StoreSteps

  ghost predicate HasResult(rows: seq<Row>, key: ResultKey) {
    exists r :: r in rows && r.ResultRow? && r.result == key
  }

  /** Origin numbers rise along the journal and stay below next_seq; no result key occurs twice. */
  ghost predicate Numbered(t: Tables) {
    && (forall a, b | a in t.journal && b in t.journal && a.rowId < b.rowId :: a.originSeq < b.originSeq)
    && (forall r | r in t.journal :: r.originSeq < FirstFree(t))
    && (forall a, b | a in t.journal && b in t.journal && a.ResultRow? && b.ResultRow? && a.result == b.result :: a == b)
  }

  lemma AppendNumbered(t: Tables, row: Row, next: int)
    requires WellOrdered(t) && Numbered(t) && row.rowId == t.lastRow + 1
    requires FirstFree(t) <= row.originSeq < next
    requires row.ResultRow? ==> !HasResult(t.journal, row.result)
    ensures var u := Append(t, row).(nextSeq := Some(next)); WellOrdered(u) && Numbered(u)
  {
    Appended(t, row);
  }

  /** Deleting rows keeps the numbering. */
  lemma FewerRowsNumbered(t: Tables, u: Tables)
    requires Numbered(t) && FirstFree(u) >= FirstFree(t)
    requires forall r | r in u.journal :: r in t.journal
    ensures Numbered(u)
  {
  }

  lemma SettledNumbered(t: Tables, u: Tables)
    requires WellOrdered(t) && Numbered(t) && |u.journal| == |t.journal| && FirstFree(u) == FirstFree(t)
    requires forall i | 0 <= i < |t.journal| ::
               && u.journal[i].rowId == t.journal[i].rowId
               && (u.journal[i] != t.journal[i] ==> Settles(t.journal[i], u.journal[i]))
    ensures Numbered(u)
  {
    assert forall i | 0 <= i < |t.journal| :: t.journal[i] in t.journal;
    forall a, b | a in u.journal && b in u.journal
      ensures a.rowId < b.rowId ==> a.originSeq < b.originSeq
      ensures a.originSeq < FirstFree(u)
      ensures a.ResultRow? && b.ResultRow? && a.result == b.result ==> a == b
    {
      var i :| 0 <= i < |u.journal| && u.journal[i] == a;
      var j :| 0 <= j < |u.journal| && u.journal[j] == b;
      assert t.journal[i] in t.journal && t.journal[j] in t.journal;
      if a.ResultRow? && b.ResultRow? && a.result == b.result {
        assert t.journal[i] == t.journal[j];
        assert i == j;
      }
    }
  }

  // ---- RecordResults ----

  /** The state of RecordResults' loop when `next` is the next reserved number to be used. */
  ghost predicate Recording(t: Tables, next: int) {
    && WellOrdered(t) && Numbered(t) && next <= FirstFree(t)
    && forall r | r in t.journal :: r.originSeq < next
  }

  /** The insert conflicts exactly when the result's own key is already in the journal. */
  lemma ConflictsExactly(t: Tables, key: ResultKey, originSeq: int)
    requires forall r | r in t.journal :: r.originSeq < originSeq
    ensures Conflicts(t.journal, originSeq, key) <==> HasResult(t.journal, key)
  {
  }

  lemma InsertOneRecords(t: Tables, s: Summary, r: Result, next: int, now: int)
    requires Recording(t, next) && next < FirstFree(t)
    ensures var u := InsertResult(t, s, r, next, now).0;
            Recording(u, next + 1) && u.nextSeq == t.nextSeq
  {
    ConflictsExactly(t, ResultKeyOf(r), next);
    var u := InsertResult(t, s, r, next, now).0;
    if u.journal != t.journal { InsertedRecords(t, u.journal[|u.journal| - 1], next); }
  }

  lemma InsertedRecords(t: Tables, row: Row, next: int)
    requires Recording(t, next) && next < FirstFree(t) && row.rowId == t.lastRow + 1 && row.originSeq == next
    requires row.ResultRow? ==> !HasResult(t.journal, row.result)
    ensures Recording(Append(t, row), next + 1)
  {
    Appended(t, row);
  }

  lemma InsertOneAdds(t: Tables, s: Summary, r: Result, next: int, now: int)
    requires Recording(t, next)
    ensures var u := InsertResult(t, s, r, next, now).0;
            && (forall row | row in t.journal :: row in u.journal)
            && (forall row | row in u.journal && row !in t.journal :: !Blank(r) && IsPending(row) && row.result == ResultKeyOf(r))
            && (!Blank(r) ==> HasResult(u.journal, ResultKeyOf(r)))
  {
  }

  lemma InsertOneCounts(t: Tables, s: Summary, r: Result, originSeq: int, now: int)
    requires forall row | row in t.journal :: row.originSeq < originSeq
    ensures var (u, s') := InsertResult(t, s, r, originSeq, now);
            var met := HasResult(t.journal, ResultKeyOf(r));
            && s'.inserted == s.inserted + (if !Blank(r) && !met then 1 else 0)
            && s'.duplicates == s.duplicates + (if !Blank(r) && met then 1 else 0)
            && s'.skipped == s.skipped + (if Blank(r) then 1 else 0)
            && |u.journal| - |t.journal| == s'.inserted - s.inserted
  {
  }

  /** How many of the first results of a batch are new: not blank, not in the journal and
      not already met earlier in the batch. */
  ghost function Fresh(rows: seq<Row>, results: seq<Result>): nat {
    if results == [] then 0
    else
      var before, r := results[..|results| - 1], results[|results| - 1];
      Fresh(rows, before) + (if Blank(r) || HasResult(rows, ResultKeyOf(r)) || Met(before, ResultKeyOf(r)) then 0 else 1)
  }

  function Blanks(results: seq<Result>): nat {
    if results == [] then 0
    else Blanks(results[..|results| - 1]) + (if Blank(results[|results| - 1]) then 1 else 0)
  }

  ghost predicate Met(results: seq<Result>, key: ResultKey) {
    exists r :: r in results && !Blank(r) && ResultKeyOf(r) == key
  }

  /** `after` is `before` with the results met in `results` added, all of them still to be delivered. */
  ghost predicate Adds(before: seq<Row>, after: seq<Row>, results: seq<Result>) {
    && (forall row | row in before :: row in after)
    && (forall row | row in after && row !in before :: IsPending(row) && Met(results, row.result))
    && (forall key :: HasResult(after, key) <==> HasResult(before, key) || Met(results, key))
  }

  lemma AddsOne(a: seq<Row>, b: seq<Row>, c: seq<Row>, results: seq<Result>, r: Result)
    requires Adds(a, b, results)
    requires forall row | row in b :: row in c
    requires forall row | row in c && row !in b :: !Blank(r) && IsPending(row) && row.result == ResultKeyOf(r)
    requires !Blank(r) ==> HasResult(c, ResultKeyOf(r))
    ensures Adds(a, c, results + [r])
  {
    forall key ensures Met(results + [r], key) <==> Met(results, key) || (!Blank(r) && ResultKeyOf(r) == key) {}
    forall key ensures HasResult(c, key) <==> HasResult(b, key) || (!Blank(r) && ResultKeyOf(r) == key) {
      if HasResult(b, key) {
        var row :| row in b && row.ResultRow? && row.result == key;
        assert row in c;
      }
      if HasResult(c, key) {
        var row :| row in c && row.ResultRow? && row.result == key;
        assert row in b || row.result == ResultKeyOf(r);
      }
    }
  }

  lemma {:induction false} InsertAllRecords(t: Tables, results: seq<Result>, start: int, now: int)
    requires Recording(t, start) && start + |results| <= FirstFree(t)
    ensures var u := InsertResults(t, results, start, now).0;
            Recording(u, start + |results|) && u.nextSeq == t.nextSeq
    decreases |results|
  {
    if results != [] {
      var n := |results| - 1;
      InsertAllRecords(t, results[..n], start, now);
      var (v, s) := InsertResults(t, results[..n], start, now);
      InsertOneRecords(v, s, results[n], start + n, now);
      assert InsertResults(t, results, start, now) == InsertResult(v, s, results[n], start + n, now);
      assert start + n + 1 == start + |results|;
    }
  }

  lemma {:induction false} InsertAllAdds(t: Tables, results: seq<Result>, start: int, now: int)
    requires Recording(t, start) && start + |results| <= FirstFree(t)
    ensures Adds(t.journal, InsertResults(t, results, start, now).0.journal, results)
    decreases |results|
  {
    if results != [] {
      var n := |results| - 1;
      var before, r := results[..n], results[n];
      assert before + [r] == results;
      InsertAllAdds(t, before, start, now);
      var (v, s) := InsertResults(t, before, start, now);
      assert Recording(v, start + n) by { InsertAllRecords(t, before, start, now); }
      assert InsertResults(t, results, start, now) == InsertResult(v, s, r, start + n, now);
      AddsOneMore(t, v, s, before, r, start + n, now);
    }
  }

  lemma AddsOneMore(t: Tables, v: Tables, s: Summary, before: seq<Result>, r: Result, next: int, now: int)
    requires Recording(v, next) && Adds(t.journal, v.journal, before)
    ensures Adds(t.journal, InsertResult(v, s, r, next, now).0.journal, before + [r])
  {
    InsertOneAdds(v, s, r, next, now);
    AddsOne(t.journal, v.journal, InsertResult(v, s, r, next, now).0.journal, before, r);
  }

  // ---- What is written down ----

  predicate Named(r: Result) {
    r.runId != "" && r.probeId != ""
  }

  /** Both are reports of one check; numbers below one count as one. */
  predicate SameCheck(a: Result, b: Result) {
    a.runId == b.runId && a.probeId == b.probeId && (a.checkSeq == b.checkSeq || (a.checkSeq <= 1 && b.checkSeq <= 1))
  }

  predicate FirstReport(results: seq<Result>, i: nat) {
    i < |results| && Named(results[i]) && forall j | 0 <= j < i :: !(Named(results[j]) && SameCheck(results[j], results[i]))
  }

  /** The row has the result's check, outcome, latency, body and time, waits for delivery and
      carries this origin number. */
  predicate WritesDown(row: Row, r: Result, originSeq: int, now: int) {
    && row.ResultRow? && row.originSeq == originSeq && row.delivery == Pending
    && row.result.runId == r.runId && row.result.probeId == r.probeId
    && row.result.checkSeq == (if r.checkSeq < 1 then 1 else r.checkSeq)
    && row.ok == r.ok && row.latencyUs == r.latencyUs && row.body == r.body
    && row.atMs == (if r.observedAt.Some? then r.observedAt.value else now)
  }

  ghost predicate OnRecord(rows: seq<Row>, r: Result) {
    exists row :: row in rows && row.ResultRow? && row.result.runId == r.runId && row.result.probeId == r.probeId
                  && row.result.checkSeq == if r.checkSeq < 1 then 1 else r.checkSeq
  }

  /** The rows that are new in `after` write down exactly the first reports of checks that were not
      on record, each under the number reserved for its place in the batch. */
  ghost predicate Journals(before: seq<Row>, after: seq<Row>, results: seq<Result>, start: int, now: int) {
    && (forall row | row in after && row !in before :: WritesOneDown(row, results, start, now))
    && (forall i: nat | FirstReport(results, i) && !OnRecord(before, results[i]) :: IsWritten(before, after, results[i], start + i, now))
  }

  ghost predicate WritesOneDown(row: Row, results: seq<Result>, start: int, now: int) {
    exists i: nat :: FirstReport(results, i) && WritesDown(row, results[i], start + i, now)
  }

  ghost predicate IsWritten(before: seq<Row>, after: seq<Row>, r: Result, originSeq: int, now: int) {
    exists row :: row in after && row !in before && WritesDown(row, r, originSeq, now)
  }

  lemma KeysAreChecks(rows: seq<Row>, r: Result, s: Result)
    ensures Named(r) <==> !Blank(r)
    ensures SameCheck(r, s) <==> ResultKeyOf(r) == ResultKeyOf(s)
    ensures OnRecord(rows, r) <==> HasResult(rows, ResultKeyOf(r))
  {
    if HasResult(rows, ResultKeyOf(r)) {
      var row :| row in rows && row.ResultRow? && row.result == ResultKeyOf(r);
    }
    if OnRecord(rows, r) {
      var row :| row in rows && row.ResultRow? && row.result.runId == r.runId && row.result.probeId == r.probeId
                 && row.result.checkSeq == if r.checkSeq < 1 then 1 else r.checkSeq;
      assert row.result == ResultKeyOf(r);
    }
  }

  /** A report is the first of its check exactly when its key was not met before it. */
  lemma FirstIsUnmet(results: seq<Result>, r: Result)
    ensures FirstReport(results + [r], |results|) <==> Named(r) && !Met(results, ResultKeyOf(r))
    ensures forall i: nat | i < |results| :: FirstReport(results + [r], i) <==> FirstReport(results, i)
  {
    var all, n := results + [r], |results|;
    forall j | 0 <= j < n ensures Named(all[j]) && SameCheck(all[j], r) <==> !Blank(results[j]) && ResultKeyOf(results[j]) == ResultKeyOf(r) {
      KeysAreChecks([], results[j], r);
    }
    if Met(results, ResultKeyOf(r)) {
      var s :| s in results && !Blank(s) && ResultKeyOf(s) == ResultKeyOf(r);
      var j :| 0 <= j < n && results[j] == s;
      assert Named(all[j]) && SameCheck(all[j], all[n]);
    } else {
      assert forall j | 0 <= j < n :: results[j] in results;
    }
  }

  lemma InsertOneWrites(t: Tables, s: Summary, r: Result, next: int, now: int)
    requires Recording(t, next)
    ensures var u := InsertResult(t, s, r, next, now).0;
            && (forall row | row in t.journal :: row in u.journal)
            && (forall row | row in u.journal && row !in t.journal ::
                  Named(r) && !HasResult(t.journal, ResultKeyOf(r)) && WritesDown(row, r, next, now))
            && (Named(r) && !HasResult(t.journal, ResultKeyOf(r)) ==> IsWritten(t.journal, u.journal, r, next, now))
  {
    var u := InsertResult(t, s, r, next, now).0;
    ConflictsExactly(t, ResultKeyOf(r), next);
    if Named(r) && !HasResult(t.journal, ResultKeyOf(r)) {
      var row := u.journal[|u.journal| - 1];
      assert row in u.journal && row !in t.journal;
    }
  }

  lemma JournalsOneMore(a: seq<Row>, b: seq<Row>, c: seq<Row>, results: seq<Result>, r: Result, start: int, now: int)
    requires Adds(a, b, results) && Journals(a, b, results, start, now)
    requires forall row | row in b :: row in c
    requires forall row | row in c && row !in b :: Named(r) && !HasResult(b, ResultKeyOf(r)) && WritesDown(row, r, start + |results|, now)
    requires Named(r) && !HasResult(b, ResultKeyOf(r)) ==> IsWritten(b, c, r, start + |results|, now)
    ensures Journals(a, c, results + [r], start, now)
  {
    var all, n := results + [r], |results|;
    FirstIsUnmet(results, r);
    KeysAreChecks(a, r, r);
    forall row | row in c && row !in a ensures WritesOneDown(row, all, start, now) {
      if row in b {
        var i: nat :| FirstReport(results, i) && WritesDown(row, results[i], start + i, now);
        assert FirstReport(all, i) && all[i] == results[i];
      } else {
        assert FirstReport(all, n) && all[n] == r;
      }
    }
    forall i: nat | FirstReport(all, i) && !OnRecord(a, all[i]) ensures IsWritten(a, c, all[i], start + i, now) {
      if i < n {
        assert FirstReport(results, i) && all[i] == results[i];
        var row :| row in b && row !in a && WritesDown(row, results[i], start + i, now);
        assert row in c;
      } else {
        var row :| row in c && row !in b && WritesDown(row, r, start + n, now);
      }
    }
  }

  lemma {:induction false} InsertAllWrites(t: Tables, results: seq<Result>, start: int, now: int)
    requires Recording(t, start) && start + |results| <= FirstFree(t)
    ensures Journals(t.journal, InsertResults(t, results, start, now).0.journal, results, start, now)
    decreases |results|
  {
    if results != [] {
      var n := |results| - 1;
      var before, r := results[..n], results[n];
      assert before + [r] == results;
      InsertAllWrites(t, before, start, now);
      var (v, s) := InsertResults(t, before, start, now);
      assert Recording(v, start + n) by { InsertAllRecords(t, before, start, now); }
      InsertAllAdds(t, before, start, now);
      InsertOneWrites(v, s, r, start + n, now);
      assert InsertResults(t, results, start, now) == InsertResult(v, s, r, start + n, now);
      JournalsOneMore(t.journal, v.journal, InsertResult(v, s, r, start + n, now).0.journal, before, r, start, now);
    }
  }

  lemma CountStep(a: seq<Row>, b: seq<Row>, results: seq<Result>, r: Result)
    requires Adds(a, b, results)
    ensures Fresh(a, results + [r]) == Fresh(a, results) + (if !Blank(r) && !HasResult(b, ResultKeyOf(r)) then 1 else 0)
    ensures Blanks(results + [r]) == Blanks(results) + (if Blank(r) then 1 else 0)
  {
  }

  lemma {:induction false} InsertAllCounts(t: Tables, results: seq<Result>, start: int, now: int)
    requires Recording(t, start) && start + |results| <= FirstFree(t)
    ensures var (u, s) := InsertResults(t, results, start, now);
            && s.inserted == Fresh(t.journal, results) && s.skipped == Blanks(results)
            && s.inserted + s.duplicates + s.skipped == |results|
            && |u.journal| - |t.journal| == s.inserted
    decreases |results|
  {
    if results != [] {
      var n := |results| - 1;
      var before, r := results[..n], results[n];
      assert before + [r] == results;
      InsertAllCounts(t, before, start, now);
      var (v, s) := InsertResults(t, before, start, now);
      assert forall row | row in v.journal :: row.originSeq < start + n by { InsertAllRecords(t, before, start, now); }
      assert Adds(t.journal, v.journal, before) by { InsertAllAdds(t, before, start, now); }
      CountStep(t.journal, v.journal, before, r);
      InsertOneCounts(v, s, r, start + n, now);
    }
  }

  /** Recording a batch leaves every named result in the journal exactly once and as it was
      first reported, keeps every row that was there, and counts what it did: as many
      insertions as there were results never seen before. */
  lemma RecordResultsMeaning(t: Tables, results: seq<Result>, now: int)
    requires WellOrdered(t) && Numbered(t)
    ensures var (u, s) := RecordResults(t, results, now);
            && WellOrdered(u) && Numbered(u)
            && Adds(t.journal, u.journal, results) && Journals(t.journal, u.journal, results, FirstFree(t), now)
            && s.inserted == Fresh(t.journal, results) && s.skipped == Blanks(results)
            && s.inserted + s.duplicates + s.skipped == |results|
            && |u.journal| - |t.journal| == s.inserted
  {
    ReservedRecording(t, |results|);
    BatchMeaning(if results == [] then t else Reserve(t, |results|), results, FirstFree(t), now);
  }

  lemma ReservedRecording(t: Tables, count: nat)
    requires WellOrdered(t) && Numbered(t)
    ensures Recording(t, FirstFree(t))
    ensures Recording(Reserve(t, count), FirstFree(t)) && FirstFree(t) + count <= FirstFree(Reserve(t, count))
  {
  }

  lemma BatchMeaning(t: Tables, results: seq<Result>, start: int, now: int)
    requires Recording(t, start) && start + |results| <= FirstFree(t)
    ensures var (u, s) := InsertResults(t, results, start, now);
            && WellOrdered(u) && Numbered(u)
            && Adds(t.journal, u.journal, results) && Journals(t.journal, u.journal, results, start, now)
            && s.inserted == Fresh(t.journal, results) && s.skipped == Blanks(results)
            && s.inserted + s.duplicates + s.skipped == |results|
            && |u.journal| - |t.journal| == s.inserted
  {
    InsertAllRecords(t, results, start, now);
    InsertAllAdds(t, results, start, now);
    InsertAllWrites(t, results, start, now);
    InsertAllCounts(t, results, start, now);
  }

  lemma {:induction false} NothingFresh(rows: seq<Row>, results: seq<Result>)
    requires forall key | Met(results, key) :: HasResult(rows, key)
    ensures Fresh(rows, results) == 0
    decreases |results|
  {
    if results != [] {
      var before, r := results[..|results| - 1], results[|results| - 1];
      assert results == before + [r];
      assert forall key | Met(before, key) :: Met(results, key);
      assert !Blank(r) ==> Met(results, ResultKeyOf(r));
      NothingFresh(rows, before);
    }
  }

  /** Replaying a batch, at any later time, inserts nothing and changes no row. */
  lemma ReplayedBatchInsertsNothing(t: Tables, results: seq<Result>, now: int, later: int)
    requires WellOrdered(t) && Numbered(t)
    ensures var u := RecordResults(t, results, now).0;
            var (v, s) := RecordResults(u, results, later);
            && s.inserted == 0 && s.duplicates + s.skipped == |results|
            && v.journal == u.journal
  {
    RecordResultsMeaning(t, results, now);
    var u := RecordResults(t, results, now).0;
    RecordResultsMeaning(u, results, later);
    NothingFresh(u.journal, results);
    if results != [] {
      NoInsertNoChange(Reserve(u, |results|), results, FirstFree(u), later);
    }
  }

  lemma {:induction false} NoInsertNoChange(t: Tables, results: seq<Result>, start: int, now: int)
    requires InsertResults(t, results, start, now).1.inserted == 0
    ensures InsertResults(t, results, start, now).0.journal == t.journal
    decreases |results|
  {
    if results != [] {
      NoInsertNoChange(t, results[..|results| - 1], start, now);
    }
  }
}
