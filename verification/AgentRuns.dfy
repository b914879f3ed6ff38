/** A trigger's life, from the heartbeat that brings it to its completion, across crashes.
    The database runs on beside the agent (maintenance, delivery, assignments); the agent's
    two loops interleave step by step; a crash drops everything but the tables. */
module AgentRuns {

  import opened Prelude
  import opened Wire
  import opened StoreTables
  import opened StoreReplay
  import opened StoreSteps
  import opened StoreResults
  import opened ProbeCache
  import opened ResultRuns
  import Db = StoreRuns

  /** Where the scheduler stands with the triggers of the current tick. */
  datatype Phase =
    | Idle
    | Running(taken: seq<Trigger>)
    | Produced(taken: seq<Trigger>, results: seq<Result>)
    | Durable(taken: seq<Trigger>)
    | Marking(taken: seq<Trigger>)

  /** `delivered` is an event that the heartbeat loop has recorded and not yet queued.
      `recorded` and `committed` are history: the keys recorded so far, and those whose
      results were made durable since they were last recorded. */
  datatype Sys = Sys(
    db: Db.Sys,
    cache: Cache,
    delivered: Option<Event>,
    tick: Phase,
    recorded: set<TriggerKey>,
    committed: set<TriggerKey>)

  const Start := Sys(Db.Start, NewCache, None, Idle, {}, {})

  datatype Step =
    | Background(step: Db.Step)
    | Heartbeat(event: Event)
    | QueueDelivered
    | Resync(hash: string, probes: seq<Snapshot>)
    | Take(limit: int)
    | Execute(results: seq<Result>)
    | Commit
    | CommitElsewhere(durable: bool)
    | Complete
    | CompleteFails
    | MarkComplete
    | Crash

  /** Database steps that are not the agent's own trigger transactions. */
  predicate Independent(step: Db.Step) {
    !(step.Transaction? && (step.op.Heartbeat? || step.op.Complete?)) && !step.Restart?
  }

  function Keys(triggers: seq<Trigger>): seq<TriggerKey> {
    seq(|triggers|, i requires 0 <= i < |triggers| => triggers[i].key)
  }

  function KeySet(triggers: seq<Trigger>): set<TriggerKey> {
    set x | x in triggers :: x.key
  }

  function NotedAll(c: Cache, triggers: seq<Trigger>): Cache {
    if triggers == [] then c else Noted(NotedAll(c, triggers[..|triggers| - 1]), triggers[|triggers| - 1].key)
  }

  // ---- Restoring after a restart ----

  ghost predicate IsEarliest(pending: map<TriggerKey, PendingRow>, k: TriggerKey) {
    k in pending && forall other | other in pending :: pending[k].eventSeq <= pending[other].eventSeq
  }

  lemma {:induction false} HasEarliest(pending: map<TriggerKey, PendingRow>, keys: set<TriggerKey>)
    requires keys <= pending.Keys && keys != {}
    ensures exists k :: k in keys && forall other | other in keys :: pending[k].eventSeq <= pending[other].eventSeq
    decreases |keys|
  {
    var some :| some in keys;
    if keys == {some} {
    } else {
      HasEarliest(pending, keys - {some});
      var k :| k in keys - {some} && forall other | other in keys - {some} :: pending[k].eventSeq <= pending[other].eventSeq;
      var least := if pending[some].eventSeq < pending[k].eventSeq then some else k;
      assert least in keys && forall other | other in keys :: pending[least].eventSeq <= pending[other].eventSeq;
    }
  }

  lemma SomeEarliest(pending: map<TriggerKey, PendingRow>)
    requires pending != map[]
    ensures exists k :: IsEarliest(pending, k)
  {
    assert pending.Keys != {};
    HasEarliest(pending, pending.Keys);
    var k :| k in pending.Keys && forall other | other in pending.Keys :: pending[k].eventSeq <= pending[other].eventSeq;
    assert IsEarliest(pending, k);
  }

  lemma FewerPending(pending: map<TriggerKey, PendingRow>, k: TriggerKey)
    requires k in pending
    ensures |pending - {k}| < |pending|
  {
  }

  /** PendingTriggers: ORDER BY event_seq. */
  ghost function InEventOrder(pending: map<TriggerKey, PendingRow>): seq<Trigger>
    decreases |pending|
  {
    if pending == map[] then []
    else
      SomeEarliest(pending);
      var k :| IsEarliest(pending, k);
      FewerPending(pending, k);
      [Trigger(k, pending[k].snapshot)] + InEventOrder(pending - {k})
  }

  function Restored(t: Tables): Cache {
    if t.hash.None? || t.hash.value == "" then NewCache
    else
      Cache(map id | id in t.probes ::
              Cached(t.probes[id].snapshot, t.probes[id].lastRunAt,
                     if t.probes[id].lastTriggerRunId.Some? then t.probes[id].lastTriggerRunId.value else ""),
            t.hash.value, [])
  }

  // ---- One step ----

  function InFlight(phase: Phase): seq<Trigger> {
    if phase.Running? || phase.Produced? || phase.Durable? then phase.taken else []
  }

  ghost function Next(s: Sys, step: Step): Sys {
    match step
    case Background(dbStep) => if Independent(dbStep) then s.(db := Db.Next(s.db, dbStep)) else s
    case Heartbeat(event) =>
      if s.delivered.Some? || !Records(s.db.t, event) then s
      else
        s.(db := Db.Next(s.db, Db.Transaction(Db.Heartbeat(event))), delivered := Some(event),
           recorded := s.recorded + {KeyOf(event)}, committed := s.committed - {KeyOf(event)})
    case QueueDelivered =>
      if s.delivered.None? then s else s.(cache := Applied(s.cache, s.delivered.value).0, delivered := None)
    case Resync(hash, probes) => s.(cache := Replaced(s.cache, probes).(hash := hash))
    case Take(limit) =>
      if !s.tick.Idle? then s
      else
        var n := Taken(s.cache, limit);
        s.(tick := Running(s.cache.queue[..n]), cache := s.cache.(queue := s.cache.queue[n..]))
    case Execute(results) => if s.tick.Running? then s.(tick := Produced(s.tick.taken, results)) else s
    case Commit =>
      if !s.tick.Produced? then s
      else
        s.(db := Db.Next(s.db, Db.Transaction(Db.Record(s.tick.results))), tick := Durable(s.tick.taken),
           committed := s.committed + KeySet(s.tick.taken))
    case CommitElsewhere(durable) =>
      if !s.tick.Produced? then s
      else if durable then s.(tick := Durable(s.tick.taken), committed := s.committed + KeySet(s.tick.taken))
      else s.(cache := Requeued(s.cache, s.tick.taken), tick := Idle)
    case Complete =>
      if !s.tick.Durable? then s
      else s.(db := Db.Next(s.db, Db.Transaction(Db.Complete(Keys(s.tick.taken)))), tick := Marking(s.tick.taken))
    case CompleteFails => if s.tick.Durable? then s.(tick := Marking(s.tick.taken)) else s
    case MarkComplete => if s.tick.Marking? then s.(cache := NotedAll(s.cache, s.tick.taken), tick := Idle) else s
    case Crash =>
      s.(db := Db.Next(s.db, Db.Restart), cache := Queued(Restored(s.db.t), InEventOrder(s.db.t.pending)), delivered := None, tick := Idle)
  }

  ghost function Exec(steps: seq<Step>): Sys {
    if steps == [] then Start else Next(Exec(steps[..|steps| - 1]), steps[|steps| - 1])
  }

  // ---- What holds in every reachable state ----

  /** Queued durable triggers are well formed, and no probe takes one for already run. */
  ghost predicate Restorable(t: Tables) {
    forall k | k in t.pending ::
      && k.probeId != "" && k.runId != "" && t.pending[k].snapshot.id == k.probeId
      && (k.probeId in t.probes ==> t.probes[k.probeId].lastTriggerRunId != Some(k.runId))
  }

  /** The keys in memory that are still to be run or to be completed. */
  function InMemory(s: Sys): set<TriggerKey> {
    KeySet(s.cache.queue) + KeySet(InFlight(s.tick)) + (if s.delivered.Some? then {KeyOf(s.delivered.value)} else {})
  }

  predicate Once(triggers: seq<Trigger>) {
    forall i, j | 0 <= i < j < |triggers| :: triggers[i].key != triggers[j].key
  }

  /** What is in memory is in the table too, and in memory only once. */
  ghost predicate Backed(s: Sys) {
    && Once(s.cache.queue) && Once(InFlight(s.tick)) && KeySet(s.cache.queue) !! KeySet(InFlight(s.tick))
    && (s.delivered.Some? ==> KeyOf(s.delivered.value) !in KeySet(s.cache.queue) + KeySet(InFlight(s.tick)))
    && InMemory(s) <= s.db.t.pending.Keys
  }

  ghost predicate Retained(s: Sys) {
    && (forall k | k in s.recorded && k !in s.committed :: k in s.db.t.pending)
    && (s.tick.Durable? ==> forall k | k in KeySet(s.tick.taken) :: k in s.committed)
  }

  ghost predicate Good(s: Sys) {
    && Db.Safe(s.db) && Numbered(s.db.t) && Restorable(s.db.t)
    && Backed(s) && Retained(s)
  }

  // ---- The database side ----

  lemma RebuildKeepsQueue(t: Tables)
    requires Structure(t)
    ensures Rebuild(t).pending == t.pending
  {
    StructureIsFaithful(t);
  }

  lemma RecordKeepsQueue(t: Tables, results: seq<Result>, now: int)
    requires WellOrdered(t)
    ensures RecordResults(t, results, now).0.pending == t.pending
  {
    if results != [] { InsertedResults(Reserve(t, |results|), results, FirstFree(t), now); }
  }

  lemma OpKeepsQueue(t: Tables, op: Db.Op, now: int)
    requires Structure(t) && !op.Heartbeat? && !op.Complete?
    ensures Db.Run(t, op, now).pending == t.pending
  {
    if op.RebuildAll? { RebuildKeepsQueue(t); }
    else if op.Record? { RecordKeepsQueue(t, op.results, now); }
  }

  lemma SettleKeepsQueue(s: Db.Sys)
    ensures Db.Next(s, Db.Settle).t.pending == s.t.pending
  {
    if s.drain.Posted? { SettledRows(s.t, s.drain.outcomes); }
  }

  /** Nothing but the agent's own trigger transactions changes the durable queue. */
  lemma IndependentKeepsQueue(s: Db.Sys, step: Db.Step)
    requires Structure(s.t) && Independent(step)
    ensures Db.Next(s, step).t.pending == s.t.pending
  {
    if step.Transaction? { TransactionKeepsQueue(s, step.op); }
    else if step.Settle? { SettleKeepsQueue(s); }
    else { UpkeepKeepsQueue(s, step); }
  }

  lemma TransactionKeepsQueue(s: Db.Sys, op: Db.Op)
    requires Structure(s.t) && !op.Heartbeat? && !op.Complete?
    ensures Db.Next(s, Db.Transaction(op)).t.pending == s.t.pending
  {
    OpKeepsQueue(s.t, op, s.clock);
  }

  lemma UpkeepKeepsQueue(s: Db.Sys, step: Db.Step)
    requires !step.Transaction? && !step.Settle?
    ensures Db.Next(s, step).t.pending == s.t.pending
  {
  }

  lemma {:induction false} AssignedLastTriggers(existing: map<string, ProbeRow>, probes: seq<Snapshot>, id: string)
    requires id in ProbesOf(existing, probes)
    ensures var last := ProbesOf(existing, probes)[id].lastTriggerRunId;
            last == None || (id in existing && last == existing[id].lastTriggerRunId)
    decreases |probes|
  {
    if probes[|probes| - 1].id != id { AssignedLastTriggers(existing, probes[..|probes| - 1], id); }
  }

  /** A replayed probe's last trigger is one that the journal completes. */
  lemma {:induction false} ReplayedLastTriggers(t: Tables, rows: seq<Row>, id: string)
    requires id in Replay(t, rows).probes && Replay(t, rows).probes[id].lastTriggerRunId.Some?
    ensures exists d :: d in rows && d.DoneRow? && d.key == TriggerKey(id, Replay(t, rows).probes[id].lastTriggerRunId.value)
    decreases |rows|
  {
    var before, last := rows[..|rows| - 1], rows[|rows| - 1];
    var was := Replay(t, before);
    assert last in rows && forall d | d in before :: d in rows;
    match last
    case AssignmentRow(_, _, _, _, probes) => AssignedLastTriggers(map[], probes, id);
    case DoneRow(_, _, _, key) =>
      if key.probeId != id {
        ReplayedLastTriggers(t, before, id);
      } else {
        assert last.key == TriggerKey(id, Replay(t, rows).probes[id].lastTriggerRunId.value);
      }
    case TriggerRow(_, _, _, _, _) => ReplayedLastTriggers(t, before, id);
    case ResultRow(_, _, _, _, _, _, _, _) => ReplayedLastTriggers(t, before, id);
  }

  lemma RebuildRestorable(t: Tables)
    requires Structure(t) && Restorable(t)
    ensures Restorable(Rebuild(t))
  {
    StructureIsFaithful(t);
    forall k | k in t.pending && k.probeId in Rebuild(t).probes
      ensures Rebuild(t).probes[k.probeId].lastTriggerRunId != Some(k.runId)
    {
      var replayed := Replay(t, t.journal);
      assert Rebuild(t).probes[k.probeId].lastTriggerRunId == replayed.probes[k.probeId].lastTriggerRunId;
      if replayed.probes[k.probeId].lastTriggerRunId == Some(k.runId) {
        ReplayedLastTriggers(t, t.journal, k.probeId);
        assert false;
      }
    }
  }

  /** Nobody learns of a new last trigger. */
  ghost predicate KeepsLast(t: Tables, u: Tables) {
    && u.pending == t.pending
    && forall id | id in u.probes ::
         || u.probes[id].lastTriggerRunId == None
         || (id in t.probes && u.probes[id].lastTriggerRunId == t.probes[id].lastTriggerRunId)
  }

  lemma AssignKeepsLast(t: Tables, hash: string, probes: seq<Snapshot>, now: int)
    ensures KeepsLast(t, SaveAssignment(t, hash, probes, now))
  {
    var u := SaveAssignment(t, hash, probes, now);
    if u != t {
      forall id | id in u.probes { AssignedLastTriggers(t.probes, probes, id); }
    }
  }

  lemma OpKeepsLast(t: Tables, op: Db.Op, now: int)
    requires WellOrdered(t) && !op.Heartbeat? && !op.Complete? && !op.RebuildAll?
    ensures KeepsLast(t, Db.Run(t, op, now))
  {
    match op
    case Assign(hash, probes) => AssignKeepsLast(t, hash, probes, now);
    case Record(results) =>
      if results != [] { InsertedResults(Reserve(t, |results|), results, FirstFree(t), now); }
    case MarkRun(ids, at) =>
  }

  lemma IndependentRestorable(s: Db.Sys, step: Db.Step)
    requires Db.Safe(s) && Restorable(s.t) && Independent(step)
    ensures Restorable(Db.Next(s, step).t)
  {
    if step.Transaction? && step.op.RebuildAll? {
      RebuildRestorable(s.t);
    } else {
      StepKeepsLast(s, step);
      KeepingLast(s.t, Db.Next(s, step).t);
    }
  }

  lemma KeepingLast(t: Tables, u: Tables)
    requires KeepsLast(t, u) && Restorable(t)
    ensures Restorable(u)
  {
  }

  lemma StepKeepsLast(s: Db.Sys, step: Db.Step)
    requires WellOrdered(s.t) && Independent(step) && !(step.Transaction? && step.op.RebuildAll?)
    ensures KeepsLast(s.t, Db.Next(s, step).t)
  {
    if step.Transaction? { OpKeepsLast(s.t, step.op, s.clock); }
    else if step.Settle? && s.drain.Posted? { SettledRows(s.t, s.drain.outcomes); }
  }

  lemma {:induction false} CompletedQueue(t: Tables, keys: seq<TriggerKey>, now: int)
    ensures var u := CompleteTriggers(t, keys, now);
            && (forall k :: k in u.pending <==> k in t.pending && k !in keys)
            && (forall k | k in u.pending :: u.pending[k] == t.pending[k])
    ensures Restorable(t) ==> Restorable(CompleteTriggers(t, keys, now))
    decreases |keys|
  {
    if keys != [] {
      CompletedQueue(t, keys[..|keys| - 1], now);
      assert keys == keys[..|keys| - 1] + [keys[|keys| - 1]];
    }
  }

  // ---- The memory side ----

  lemma {:induction false} RequeuedQueue(c: Cache, triggers: seq<Trigger>)
    requires Once(triggers) && Once(c.queue)
    ensures Once(Requeued(c, triggers).queue)
    ensures KeySet(Requeued(c, triggers).queue) <= KeySet(c.queue) + KeySet(triggers)
    decreases |triggers|
  {
    if triggers != [] {
      var before, last := triggers[..|triggers| - 1], triggers[|triggers| - 1];
      RequeuedQueue(c, before);
      assert last in triggers && forall x | x in before :: x in triggers;
      assert KeySet(before) <= KeySet(triggers) && last.key in KeySet(triggers);
      var was := Requeued(c, before).queue;
      assert KeySet(was + [last]) == KeySet(was) + {last.key};
    }
  }

  lemma {:induction false} NotedQueue(c: Cache, triggers: seq<Trigger>)
    ensures NotedAll(c, triggers).queue == c.queue
    decreases |triggers|
  {
    if triggers != [] { NotedQueue(c, triggers[..|triggers| - 1]); }
  }

  lemma TakenApart(queue: seq<Trigger>, n: nat)
    requires n <= |queue| && Once(queue)
    ensures Once(queue[..n]) && Once(queue[n..]) && KeySet(queue[..n]) !! KeySet(queue[n..])
    ensures KeySet(queue[..n]) + KeySet(queue[n..]) == KeySet(queue)
  {
  }

  // ---- Restoring ----

  /** Each pending trigger once, with its own snapshot. */
  ghost predicate Covers(order: seq<Trigger>, pending: map<TriggerKey, PendingRow>) {
    && Once(order) && KeySet(order) == pending.Keys && |order| == |pending|
    && (forall x | x in order :: x.key in pending && x.snapshot == pending[x.key].snapshot)
  }

  ghost predicate ByEvent(order: seq<Trigger>, pending: map<TriggerKey, PendingRow>) {
    && (forall x | x in order :: x.key in pending)
    && forall i, j | 0 <= i < j < |order| :: pending[order[i].key].eventSeq <= pending[order[j].key].eventSeq
  }

  /** The restored triggers are those of the table, each once, by event number. */
  ghost predicate Lists(order: seq<Trigger>, pending: map<TriggerKey, PendingRow>) {
    Covers(order, pending) && ByEvent(order, pending)
  }

  lemma OnceOneMore(first: Trigger, rest: seq<Trigger>)
    requires Once(rest) && first.key !in KeySet(rest)
    ensures Once([first] + rest) && KeySet([first] + rest) == KeySet(rest) + {first.key}
  {
  }

  lemma CoversOneMore(k: TriggerKey, rest: seq<Trigger>, pending: map<TriggerKey, PendingRow>)
    requires k in pending && Covers(rest, pending - {k})
    ensures Covers([Trigger(k, pending[k].snapshot)] + rest, pending)
  {
    var first := Trigger(k, pending[k].snapshot);
    OnceOneMore(first, rest);
    var less := pending - {k};
    assert pending.Keys == less.Keys + {k};
    assert |pending.Keys| == |less.Keys| + 1;
    forall x | x in [first] + rest ensures x.key in pending && x.snapshot == pending[x.key].snapshot {
      if x != first { assert x in rest; }
    }
  }

  lemma ByEventOneMore(k: TriggerKey, rest: seq<Trigger>, pending: map<TriggerKey, PendingRow>)
    requires IsEarliest(pending, k) && ByEvent(rest, pending - {k})
    ensures ByEvent([Trigger(k, pending[k].snapshot)] + rest, pending)
  {
  }

  lemma {:induction false} EventOrderLists(pending: map<TriggerKey, PendingRow>)
    ensures Lists(InEventOrder(pending), pending)
    decreases |pending|
  {
    if pending != map[] {
      SomeEarliest(pending);
      var k :| IsEarliest(pending, k) && InEventOrder(pending) == [Trigger(k, pending[k].snapshot)] + InEventOrder(pending - {k});
      FewerPending(pending, k);
      EventOrderLists(pending - {k});
      CoversOneMore(k, InEventOrder(pending - {k}), pending);
      ByEventOneMore(k, InEventOrder(pending - {k}), pending);
    }
  }

  /** As many as the queue holds. */
  function Oldest(order: seq<Trigger>): seq<Trigger> {
    if |order| > MAX_PENDING_TRIGGERS then order[..MAX_PENDING_TRIGGERS] else order
  }

  /** A trigger that queueTriggers will not skip. */
  predicate Takes(c: Cache, trigger: Trigger) {
    !Skipped(c, trigger.key) && trigger.snapshot.id != ""
  }

  lemma {:induction false} QueuedPrefix(c: Cache, triggers: seq<Trigger>)
    requires Once(triggers) && |c.queue| <= MAX_PENDING_TRIGGERS
    requires forall i | 0 <= i < |triggers| :: Takes(c, triggers[i])
    ensures Queued(c, triggers).queue == Oldest(c.queue + triggers)
    decreases |triggers|
  {
    if triggers != [] && |c.queue| < MAX_PENDING_TRIGGERS {
      var next := Noted(c, triggers[0].key).(queue := c.queue + [Resolved(c, triggers[0])]);
      var rest := triggers[1..];
      assert Takes(c, triggers[0]);
      assert Resolved(c, triggers[0]) == triggers[0];
      forall i | 0 <= i < |rest| ensures Takes(next, rest[i]) {
        assert rest[i] == triggers[i + 1] && Takes(c, triggers[i + 1]);
        assert triggers[0].key != triggers[i + 1].key;
      }
      QueuedPrefix(next, rest);
      assert Queued(c, triggers) == Queued(next, rest);
      assert next.queue + rest == c.queue + triggers;
    }
  }

  /** A restart finds the oldest triggers of the durable queue, as many as fit. */
  lemma RestartQueues(t: Tables)
    requires Restorable(t)
    ensures Queued(Restored(t), InEventOrder(t.pending)).queue == Oldest(InEventOrder(t.pending))
  {
    var order := InEventOrder(t.pending);
    EventOrderLists(t.pending);
    RestorableTakes(t, order);
    QueuedPrefix(Restored(t), order);
    assert [] + order == order;
  }

  lemma RestorableTakes(t: Tables, order: seq<Trigger>)
    requires Restorable(t) && Covers(order, t.pending)
    ensures forall i | 0 <= i < |order| :: Takes(Restored(t), order[i])
  {
  }

  // ---- Every step keeps it all ----

  /** What the database sees of a step, if anything. */
  function DatabaseStep(s: Sys, step: Step): Option<Db.Step> {
    match step
    case Background(dbStep) => if Independent(dbStep) then Some(dbStep) else None
    case Heartbeat(event) => if s.delivered.Some? || !Records(s.db.t, event) then None else Some(Db.Transaction(Db.Heartbeat(event)))
    case Commit => if s.tick.Produced? then Some(Db.Transaction(Db.Record(s.tick.results))) else None
    case Complete => if s.tick.Durable? then Some(Db.Transaction(Db.Complete(Keys(s.tick.taken)))) else None
    case Crash => Some(Db.Restart)
    case _ => None
  }

  lemma DatabaseStepIs(s: Sys, step: Step)
    ensures Next(s, step).db == if DatabaseStep(s, step).Some? then Db.Next(s.db, DatabaseStep(s, step).value) else s.db
  {
  }

  lemma DatabaseSide(s: Sys, step: Step)
    requires Db.Safe(s.db) && Numbered(s.db.t)
    ensures var u := Next(s, step); Db.Safe(u.db) && Numbered(u.db.t)
  {
    DatabaseStepIs(s, step);
    var dbStep := DatabaseStep(s, step);
    if dbStep.Some? {
      Db.StepSafe(s.db, dbStep.value);
      StepNumbered(s.db, dbStep.value);
    }
  }

  lemma RecordRestorable(t: Tables, event: Event, now: int)
    requires Restorable(t)
    ensures Restorable(RecordTrigger(t, event, now))
  {
  }

  /** Only four steps reach the tables. */
  lemma TablesUntouched(s: Sys, step: Step)
    requires !step.Background? && !step.Heartbeat? && !step.Commit? && !step.Complete?
    ensures Next(s, step).db.t == s.db.t
  {
  }

  lemma RecordStepRestorable(s: Sys, event: Event)
    requires Restorable(s.db.t)
    ensures Restorable(Next(s, Heartbeat(event)).db.t)
  {
    RecordRestorable(s.db.t, event, s.db.clock);
  }

  lemma CommitRestorable(s: Sys)
    requires Db.Safe(s.db) && Restorable(s.db.t)
    ensures Restorable(Next(s, Commit).db.t)
  {
    if s.tick.Produced? { IndependentRestorable(s.db, Db.Transaction(Db.Record(s.tick.results))); }
  }

  lemma CompleteRestorable(s: Sys)
    requires Restorable(s.db.t)
    ensures Restorable(Next(s, Complete).db.t)
  {
    if s.tick.Durable? { CompletedQueue(s.db.t, Keys(s.tick.taken), s.db.clock); }
  }

  lemma BackgroundRestorable(s: Sys, step: Db.Step)
    requires Db.Safe(s.db) && Restorable(s.db.t)
    ensures Restorable(Next(s, Background(step)).db.t)
  {
    if Independent(step) { IndependentRestorable(s.db, step); }
  }

  lemma QueueSide(s: Sys, step: Step)
    requires Db.Safe(s.db) && Restorable(s.db.t)
    ensures Restorable(Next(s, step).db.t)
  {
    if step.Background? { BackgroundRestorable(s, step.step); }
    else if step.Heartbeat? { RecordStepRestorable(s, step.event); }
    else if step.Commit? { CommitRestorable(s); }
    else if step.Complete? { CompleteRestorable(s); }
    else { TablesUntouched(s, step); }
  }

  lemma KeysAreKeySet(triggers: seq<Trigger>)
    ensures forall k :: k in Keys(triggers) <==> k in KeySet(triggers)
  {
    forall x | x in triggers ensures x.key in Keys(triggers) {
      var i :| 0 <= i < |triggers| && triggers[i] == x;
      assert Keys(triggers)[i] == x.key;
    }
  }

  /** The steps that change the keys of the durable queue. */
  ghost predicate PendingStep(s: Sys, step: Step) {
    Next(s, step).db.t.pending.Keys ==
      if step.Heartbeat? && s.delivered.None? && Records(s.db.t, step.event) then s.db.t.pending.Keys + {KeyOf(step.event)}
      else if step.Complete? && s.tick.Durable? then s.db.t.pending.Keys - KeySet(s.tick.taken)
      else s.db.t.pending.Keys
  }

  lemma CompletePending(s: Sys)
    ensures PendingStep(s, Complete)
  {
    if s.tick.Durable? {
      CompletedQueue(s.db.t, Keys(s.tick.taken), s.db.clock);
      KeysAreKeySet(s.tick.taken);
    }
  }

  lemma BackgroundPending(s: Sys, step: Db.Step)
    requires Db.Safe(s.db)
    ensures PendingStep(s, Background(step))
  {
    if Independent(step) { IndependentKeepsQueue(s.db, step); }
  }

  lemma CommitPending(s: Sys)
    requires WellOrdered(s.db.t)
    ensures PendingStep(s, Commit)
  {
    if s.tick.Produced? { RecordKeepsQueue(s.db.t, s.tick.results, s.db.clock); }
  }

  lemma HeartbeatPending(s: Sys, event: Event)
    ensures PendingStep(s, Heartbeat(event))
  {
  }

  lemma OtherPending(s: Sys, step: Step)
    requires !step.Background? && !step.Heartbeat? && !step.Commit? && !step.Complete?
    ensures PendingStep(s, step)
  {
    TablesUntouched(s, step);
  }

  lemma PendingKeys(s: Sys, step: Step)
    requires Db.Safe(s.db)
    ensures PendingStep(s, step)
  {
    if step.Background? { BackgroundPending(s, step.step); }
    else if step.Commit? { CommitPending(s); }
    else if step.Complete? { CompletePending(s); }
    else if step.Heartbeat? { HeartbeatPending(s, step.event); }
    else { OtherPending(s, step); }
  }

  lemma AppliedQueue(c: Cache, event: Event)
    ensures var q := Applied(c, event).0.queue;
            q == c.queue || q == c.queue + [Trigger(KeyOf(event), event.probe)]
  {
  }

  lemma QueueDeliveredKeeps(s: Sys)
    requires Backed(s)
    ensures Backed(Next(s, QueueDelivered))
  {
    if s.delivered.Some? {
      var k, q: seq<Trigger> := KeyOf(s.delivered.value), s.cache.queue;
      AppliedQueue(s.cache, s.delivered.value);
      var u := Next(s, QueueDelivered);
      if u.cache.queue != q {
        assert KeySet(u.cache.queue) == KeySet(q) + {k};
        assert forall x | x in q :: x.key in KeySet(q);
      }
    }
  }

  /** The queue that a restart leaves. */
  ghost function RestartQueue(t: Tables): seq<Trigger> {
    Oldest(InEventOrder(t.pending))
  }

  lemma CrashQueue(s: Sys)
    requires Restorable(s.db.t)
    ensures var u := Next(s, Crash);
            u.cache.queue == RestartQueue(s.db.t) && u.delivered == None && u.tick == Idle && u.db.t == s.db.t
  {
    RestartQueues(s.db.t);
    TablesUntouched(s, Crash);
  }

  lemma RestartQueueIsBacked(t: Tables)
    ensures Once(RestartQueue(t)) && KeySet(RestartQueue(t)) <= t.pending.Keys
  {
    EventOrderLists(t.pending);
    OldestOnce(InEventOrder(t.pending));
  }

  lemma OnlyQueued(u: Sys)
    requires u.delivered == None && u.tick == Idle && Once(u.cache.queue) && KeySet(u.cache.queue) <= u.db.t.pending.Keys
    ensures Backed(u)
  {
  }

  lemma CrashKeeps(s: Sys)
    requires Restorable(s.db.t)
    ensures Backed(Next(s, Crash))
  {
    CrashQueue(s);
    RestartQueueIsBacked(s.db.t);
    OnlyQueued(Next(s, Crash));
  }

  lemma OldestOnce(order: seq<Trigger>)
    requires Once(order)
    ensures Once(Oldest(order)) && KeySet(Oldest(order)) <= KeySet(order)
  {
  }

  lemma TakeKeeps(s: Sys, limit: int)
    requires Backed(s)
    ensures Backed(Next(s, Take(limit)))
  {
    if s.tick.Idle? { TakenApart(s.cache.queue, Taken(s.cache, limit)); }
  }

  lemma MemorySide(s: Sys, step: Step)
    requires Backed(s) && Restorable(s.db.t) && PendingStep(s, step)
    ensures Backed(Next(s, step))
  {
    match step
    case QueueDelivered => QueueDeliveredKeeps(s);
    case Take(limit) => TakeKeeps(s, limit);
    case CommitElsewhere(durable) => if s.tick.Produced? && !durable { RequeuedQueue(s.cache, s.tick.taken); }
    case MarkComplete => if s.tick.Marking? { NotedQueue(s.cache, s.tick.taken); }
    case Crash => CrashKeeps(s);
    case _ =>
  }

  lemma HistorySide(s: Sys, step: Step)
    requires Backed(s) && Retained(s) && PendingStep(s, step)
    ensures Retained(Next(s, step))
  {
  }

  lemma {:induction false} RunGood(steps: seq<Step>)
    ensures Good(Exec(steps))
    decreases |steps|
  {
    if steps == [] {
      InitInv(0);
    } else {
      var s, step := Exec(steps[..|steps| - 1]), steps[|steps| - 1];
      RunGood(steps[..|steps| - 1]);
      DatabaseSide(s, step);
      QueueSide(s, step);
      PendingKeys(s, step);
      MemorySide(s, step);
      HistorySide(s, step);
    }
  }

  // ---- What it comes to ----

  /** A recorded trigger stays in the durable queue until its results are durable. */
  lemma RecordedTriggersSurvive(steps: seq<Step>, k: TriggerKey)
    ensures var s := Exec(steps); k in s.recorded && k !in s.committed ==> k in s.db.t.pending
  {
    RunGood(steps);
  }

  /** While a completion is on record, its trigger is nowhere to be run from: not in the
      durable queue, not in memory, and neither a redelivery nor a restart brings it back. */
  lemma CompletedTriggersStayDone(steps: seq<Step>, k: TriggerKey, event: Event)
    requires k in Exec(steps).db.t.completed
    ensures var s := Exec(steps);
            && k !in s.db.t.pending && k !in InMemory(s)
            && k !in InMemory(Next(s, Crash))
            && (KeyOf(event) == k ==> Next(s, Heartbeat(event)) == s)
  {
    RunGood(steps);
    var s := Exec(steps);
    PendingKeys(s, Crash);
    MemorySide(s, Crash);
  }

  /** What the heartbeat loop does with an event when the database does not answer. */
  function Unrecorded(s: Sys, event: Event): Sys {
    s.(cache := Applied(s.cache, event).0)
  }

  /** A redelivery that the database does not get to judge brings a completed trigger back
      exactly when the event is well formed, the probe's last noted run is another one (or the
      probe is not assigned), and the queue has room. */
  lemma UnrecordedRunsAgainExactly(steps: seq<Step>, event: Event)
    requires KeyOf(event) in Exec(steps).db.t.completed
    ensures var s := Exec(steps);
            KeyOf(event) in InMemory(Unrecorded(s, event)) <==>
              WellFormed(event) && !AlreadyNoted(s.cache, KeyOf(event)) && |s.cache.queue| < MAX_PENDING_TRIGGERS
  {
    var s, k := Exec(steps), KeyOf(event);
    CompletedTriggersStayDone(steps, k, event);
    HoldsItsKeys(s.cache.queue, k);
    HoldsItsKeys(Applied(s.cache, event).0.queue, k);
    AppliedQueue(s.cache, event);
    var u := Unrecorded(s, event);
    if Applied(s.cache, event).1 { assert u.cache.queue[|s.cache.queue|].key == k; }
  }

  lemma HoldsItsKeys(queue: seq<Trigger>, k: TriggerKey)
    ensures k in KeySet(queue) <==> Holds(queue, k)
  {
  }

  /** Everything that is about to run is in the durable queue, and waits or runs only once. */
  lemma NothingRunsTwiceAtOnce(steps: seq<Step>)
    ensures var s := Exec(steps);
            && InMemory(s) <= s.db.t.pending.Keys
            && Once(s.cache.queue + InFlight(s.tick))
  {
    RunGood(steps);
    var s := Exec(steps);
    var q: seq<Trigger>, f: seq<Trigger> := s.cache.queue, InFlight(s.tick);
    forall i, j | 0 <= i < j < |q + f| ensures (q + f)[i].key != (q + f)[j].key {
      if i < |q| <= j { assert q[i].key in KeySet(q) && f[j - |q|].key in KeySet(f); }
    }
  }

  /** However often a trigger is executed again after a crash, its results are in the journal
      at most once each: committing a batch adds only results that were missing. */
  lemma ReexecutionAddsNoSecondRow(steps: seq<Step>)
    requires Exec(steps).tick.Produced?
    ensures var s, u := Exec(steps), Next(Exec(steps), Commit);
            && Adds(s.db.t.journal, u.db.t.journal, s.tick.results)
            && forall a, b | a in u.db.t.journal && b in u.db.t.journal && a.ResultRow? && b.ResultRow? && a.result == b.result :: a == b
  {
    RunGood(steps);
    var s := Exec(steps);
    CommitMeaning(s);
  }

  lemma CommitMeaning(s: Sys)
    requires WellOrdered(s.db.t) && Numbered(s.db.t) && s.tick.Produced?
    ensures Numbered(Next(s, Commit).db.t) && Adds(s.db.t.journal, Next(s, Commit).db.t.journal, s.tick.results)
  {
    RecordResultsMeaning(s.db.t, s.tick.results, s.db.clock);
  }

  /** A restart puts the oldest pending triggers back in the queue, 256 at most, in the
      order of their events. */
  lemma RestartRestoresOldest(steps: seq<Step>)
    ensures var s := Exec(steps);
            var order := InEventOrder(s.db.t.pending);
            && Lists(order, s.db.t.pending)
            && Next(s, Crash).cache.queue == Oldest(order)
  {
    var s := Exec(steps);
    assert Restorable(s.db.t) by { RunGood(steps); }
    EventOrderLists(s.db.t.pending);
    CrashQueue(s);
  }
}
