/** The agent's probe cache: the standing assignment, the schedule state of its probes and
    the bounded queue of triggers. Times are nanoseconds; None is Go's zero time. */
module ProbeCache {

  import opened Prelude
  import opened Wire
  import opened StoreTables

  const MAX_PENDING_TRIGGERS := 256
  const SECOND := 1_000_000_000
  const MILLISECOND := 1_000_000

  datatype Cached = Cached(snapshot: Snapshot, lastRunAt: Option<int>, lastTrigger: string)

  datatype Trigger = Trigger(key: TriggerKey, snapshot: Snapshot)

  datatype Cache = Cache(probes: map<string, Cached>, hash: string, queue: seq<Trigger>)

  const NewCache := Cache(map[], "", [])

  // ---- Assignments ----

  function Carried(old_: map<string, Cached>, snapshot: Snapshot): Cached {
    if snapshot.id in old_
    then Cached(snapshot, old_[snapshot.id].lastRunAt, old_[snapshot.id].lastTrigger)
    else Cached(snapshot, None, "")
  }

  function Entries(old_: map<string, Cached>, probes: seq<Snapshot>): map<string, Cached> {
    if probes == [] then map[]
    else
      var last := probes[|probes| - 1];
      Entries(old_, probes[..|probes| - 1])[last.id := Carried(old_, last)]
  }

  /** Entries are filed under their own ids. */
  predicate Keyed(probes: map<string, Cached>) {
    forall id | id in probes :: probes[id].snapshot.id == id
  }

  predicate LastFor(probes: seq<Snapshot>, id: string, i: nat) {
    i < |probes| && probes[i].id == id && forall j | i < j < |probes| :: probes[j].id != id
  }

  /** The entry has this definition, and the run time and trigger memory that the probe had
      before, if any. */
  predicate CarriesOver(old_: map<string, Cached>, snapshot: Snapshot, entry: Cached) {
    && entry.snapshot == snapshot
    && entry.lastRunAt == (if snapshot.id in old_ then old_[snapshot.id].lastRunAt else None)
    && entry.lastTrigger == (if snapshot.id in old_ then old_[snapshot.id].lastTrigger else "")
  }

  /** A new assignment leaves exactly its own probes, each under its own id as its last
      snapshot has it, with the schedule state it had before. */
  lemma {:induction false} EntriesMeaning(old_: map<string, Cached>, probes: seq<Snapshot>, id: string)
    ensures Keyed(Entries(old_, probes))
    ensures id in Entries(old_, probes) <==> exists i: nat :: LastFor(probes, id, i)
    ensures forall i: nat | LastFor(probes, id, i) :: id in Entries(old_, probes) && CarriesOver(old_, probes[i], Entries(old_, probes)[id])
    decreases |probes|
  {
    if probes != [] {
      var n := |probes| - 1;
      EntriesMeaning(old_, probes[..n], id);
      if probes[n].id == id {
        assert LastFor(probes, id, n);
      } else {
        forall i: nat ensures LastFor(probes, id, i) <==> LastFor(probes[..n], id, i) {}
      }
    }
  }

  function Replaced(c: Cache, probes: seq<Snapshot>): Cache {
    c.(probes := Entries(c.probes, probes))
  }

  // ---- The trigger queue ----

  predicate Holds(queue: seq<Trigger>, key: TriggerKey) {
    exists i | 0 <= i < |queue| :: queue[i].key == key
  }

  function Noted(c: Cache, key: TriggerKey): Cache {
    if key.probeId in c.probes
    then c.(probes := c.probes[key.probeId := c.probes[key.probeId].(lastTrigger := key.runId)])
    else c
  }

  predicate AlreadyNoted(c: Cache, key: TriggerKey) {
    key.probeId in c.probes && c.probes[key.probeId].lastTrigger == key.runId
  }

  /** applyTriggeredEventLocked. A full queue still notes the run id. */
  function Applied(c: Cache, event: Event): (Cache, bool) {
    if !WellFormed(event) || Holds(c.queue, KeyOf(event)) || AlreadyNoted(c, KeyOf(event)) then (c, false)
    else
      var noted := Noted(c, KeyOf(event));
      if |c.queue| >= MAX_PENDING_TRIGGERS then (noted, false)
      else (noted.(queue := c.queue + [Trigger(KeyOf(event), event.probe)]), true)
  }

  function AppliedAll(c: Cache, events: seq<Event>): Cache {
    if events == [] then c else Applied(AppliedAll(c, events[..|events| - 1]), events[|events| - 1]).0
  }

  /** An event is taken in exactly when it is a triggered one with both ids, its run is not queued
      and not the last one noted for its probe. Its run is then noted and, if there is room, its
      own snapshot queued last. */
  lemma AppliedMeaning(c: Cache, event: Event, id: string)
    ensures var (u, queued) := Applied(c, event);
            var key := TriggerKey(event.probe.id, event.runId);
            var taken := && event.eventType == "triggered" && event.runId != "" && event.probe.id != ""
                         && (forall i | 0 <= i < |c.queue| :: c.queue[i].key != key)
                         && (key.probeId in c.probes ==> c.probes[key.probeId].lastTrigger != event.runId);
            && queued == (taken && |c.queue| < 256)
            && u.queue == (if queued then c.queue + [Trigger(key, event.probe)] else c.queue)
            && u.hash == c.hash && u.probes.Keys == c.probes.Keys
            && (id in c.probes ==> u.probes[id] == if taken && id == key.probeId then c.probes[id].(lastTrigger := event.runId) else c.probes[id])
  {
  }

  function Resolved(c: Cache, trigger: Trigger): Trigger {
    if trigger.snapshot.id == "" && trigger.key.probeId in c.probes
    then trigger.(snapshot := c.probes[trigger.key.probeId].snapshot)
    else trigger
  }

  predicate Skipped(c: Cache, key: TriggerKey) {
    key.probeId == "" || key.runId == "" || Holds(c.queue, key) || AlreadyNoted(c, key)
  }

  /** queueTriggers: stops at the first trigger that finds the queue full. */
  function Queued(c: Cache, triggers: seq<Trigger>): Cache
    decreases |triggers|
  {
    if triggers == [] then c
    else
      var key := triggers[0].key;
      if Skipped(c, key) then Queued(c, triggers[1..])
      else if |c.queue| >= MAX_PENDING_TRIGGERS then Noted(c, key)
      else Queued(Noted(c, key).(queue := c.queue + [Resolved(c, triggers[0])]), triggers[1..])
  }

  /** requeueTriggers: a full queue drops the trigger; lastTrigger is not looked at. */
  function Requeued(c: Cache, triggers: seq<Trigger>): Cache {
    if triggers == [] then c
    else
      var before := Requeued(c, triggers[..|triggers| - 1]);
      var last := triggers[|triggers| - 1];
      if last.key.probeId == "" || last.key.runId == "" || Holds(before.queue, last.key) || |before.queue| >= MAX_PENDING_TRIGGERS
      then before
      else before.(queue := before.queue + [last])
  }

  predicate Requeues(trigger: Trigger) {
    trigger.key.probeId != "" && trigger.key.runId != ""
  }

  /** Requeueing changes nothing but the end of the queue: it adds given triggers with both ids, at
      most up to its cap, and every such trigger is queued afterwards unless the queue is full. */
  lemma {:induction false} RequeuedMeaning(c: Cache, triggers: seq<Trigger>)
    ensures var u := Requeued(c, triggers);
            && u == c.(queue := u.queue) && c.queue <= u.queue && (|u.queue| <= 256 || u.queue == c.queue)
            && (forall i | |c.queue| <= i < |u.queue| :: u.queue[i] in triggers && Requeues(u.queue[i]))
            && (|u.queue| < 256 ==> forall x | x in triggers && Requeues(x) :: Holds(u.queue, x.key))
    decreases |triggers|
  {
    if triggers != [] {
      var before, last := triggers[..|triggers| - 1], triggers[|triggers| - 1];
      RequeuedMeaning(c, before);
      assert triggers == before + [last];
      var v, u := Requeued(c, before), Requeued(c, triggers);
      forall x | x in triggers && Requeues(x) && |u.queue| < 256 ensures Holds(u.queue, x.key) {
        if x == last && u.queue != v.queue {
          assert u.queue[|v.queue|].key == x.key;
        } else if x in before {
          assert Holds(v.queue, x.key);
          var i :| 0 <= i < |v.queue| && v.queue[i].key == x.key;
          assert u.queue[i].key == x.key;
        }
      }
    }
  }

  /** How many triggers drainPendingTriggersLimited takes. */
  function Taken(c: Cache, limit: int): nat {
    if limit <= 0 || limit >= |c.queue| then |c.queue| else limit
  }

  // ---- Due probes ----

  function Interval(s: Snapshot): int {
    s.intervalSeconds * SECOND
  }

  predicate IntervalMet(p: Cached, now: int) {
    p.lastRunAt.None? || now >= p.lastRunAt.value + Interval(p.snapshot)
  }

  /** probeDueLocked */
  predicate Due(p: Cached, now: int) {
    && p.snapshot.status == "active"
    && now >= p.snapshot.startsAt * MILLISECOND
    && !(p.snapshot.endsAt > 0 && now >= p.snapshot.endsAt * MILLISECOND)
    && p.snapshot.scheduleType != "manual"
    && IntervalMet(p, now)
  }

  /** A probe is never due while it is not active, when it runs by hand only, before it starts, once
      it has ended, or within an interval of its last run; otherwise it is, and stays so until it
      runs or ends. */
  lemma DueIsAWindow(p: Cached, now: int, later: int)
    ensures p.snapshot.status != "active" || p.snapshot.scheduleType == "manual" ==> !Due(p, now)
    ensures now < p.snapshot.startsAt * 1_000_000 ==> !Due(p, now)
    ensures p.snapshot.endsAt > 0 && p.snapshot.endsAt * 1_000_000 <= now ==> !Due(p, now)
    ensures p.lastRunAt.Some? && now < p.lastRunAt.value + p.snapshot.intervalSeconds * 1_000_000_000 ==> !Due(p, now)
    ensures && p.snapshot.status == "active" && p.snapshot.scheduleType != "manual" && p.snapshot.startsAt * 1_000_000 <= now
            && (p.snapshot.endsAt <= 0 || now < p.snapshot.endsAt * 1_000_000)
            && (p.lastRunAt.None? || p.lastRunAt.value + p.snapshot.intervalSeconds * 1_000_000_000 <= now)
            ==> Due(p, now)
    ensures Due(p, now) && now <= later && (p.snapshot.endsAt <= 0 || later < p.snapshot.endsAt * 1_000_000) ==> Due(p, later)
  {
  }

  function DueIds(probes: map<string, Cached>, now: int): set<string> {
    set id | id in probes && Due(probes[id], now)
  }

  /** A due probe's share of the budget. */
  function Demand(s: Snapshot, maxJobs: int, perProbe: int): int {
    var atLeastOne := if s.probeCount < 1 then 1 else s.probeCount;
    var capped := if perProbe > 0 && atLeastOne > perProbe then perProbe else atLeastOne;
    if maxJobs > 0 && capped > maxJobs then maxJobs else capped
  }

  /** A probe is granted the most checks that it asks for and both caps allow, and never none. */
  lemma DemandIsGreatest(s: Snapshot, maxJobs: int, perProbe: int, n: int)
    ensures Demand(s, maxJobs, perProbe) >= 1
    ensures Demand(s, maxJobs, perProbe) == 1 || Demand(s, maxJobs, perProbe) <= s.probeCount
    ensures (perProbe > 0 ==> Demand(s, maxJobs, perProbe) <= perProbe) && (maxJobs > 0 ==> Demand(s, maxJobs, perProbe) <= maxJobs)
    ensures (n == 1 || n <= s.probeCount) && (perProbe > 0 ==> n <= perProbe) && (maxJobs > 0 ==> n <= maxJobs)
            ==> n <= Demand(s, maxJobs, perProbe)
  {
  }

  // ---- Oldest first, then by id ----

  predicate Earlier(a: Option<int>, b: Option<int>) {
    b.Some? && (a.None? || a.value < b.value)
  }

  predicate Before(probes: map<string, Cached>, a: string, b: string)
    requires a in probes && b in probes
  {
    || Earlier(probes[a].lastRunAt, probes[b].lastRunAt)
    || (probes[a].lastRunAt == probes[b].lastRunAt && Less(a, b))
  }

  lemma BeforeIsTotal(probes: map<string, Cached>, a: string, b: string)
    requires a in probes && b in probes
    ensures a == b || Before(probes, a, b) || Before(probes, b, a)
    ensures !(Before(probes, a, b) && Before(probes, b, a))
  {
    LessIsTotal(a, b);
  }

  lemma BeforeIsTransitive(probes: map<string, Cached>, a: string, b: string, c: string)
    requires a in probes && b in probes && c in probes
    requires Before(probes, a, b) && Before(probes, b, c)
    ensures Before(probes, a, c)
  {
    if Less(a, b) && Less(b, c) { LessIsTransitive(a, b, c); }
  }

  ghost predicate IsFirst(probes: map<string, Cached>, ids: set<string>, first: string)
    requires ids <= probes.Keys
  {
    first in ids && forall id | id in ids && id != first :: Before(probes, first, id)
  }

  lemma {:induction false} HasFirst(probes: map<string, Cached>, ids: set<string>)
    requires ids <= probes.Keys && ids != {}
    ensures exists first :: IsFirst(probes, ids, first)
    decreases |ids|
  {
    var some :| some in ids;
    if ids == {some} {
      assert IsFirst(probes, ids, some);
    } else {
      HasFirst(probes, ids - {some});
      var least :| IsFirst(probes, ids - {some}, least);
      BeforeIsTotal(probes, some, least);
      var first := if Before(probes, some, least) then some else least;
      assert IsFirst(probes, ids, first) by {
      forall id | id in ids && id != first ensures Before(probes, first, id) {
        if first == some && id != least { BeforeIsTransitive(probes, some, least, id); }
      }
      }
    }
  }

  /** The ids in the scheduler's order. */
  ghost function Ranked(probes: map<string, Cached>, ids: set<string>): (order: seq<string>)
    requires ids <= probes.Keys
    ensures forall id :: id in order <==> id in ids
    decreases |ids|
  {
    if ids == {} then []
    else
      HasFirst(probes, ids);
      var first :| IsFirst(probes, ids, first);
      [first] + Ranked(probes, ids - {first})
  }

  lemma RankedHead(probes: map<string, Cached>, ids: set<string>) returns (first: string)
    requires ids <= probes.Keys && ids != {}
    ensures IsFirst(probes, ids, first) && Ranked(probes, ids) == [first] + Ranked(probes, ids - {first})
  {
    HasFirst(probes, ids);
    first :| IsFirst(probes, ids, first) && Ranked(probes, ids) == [first] + Ranked(probes, ids - {first});
  }

  predicate InOrder(probes: map<string, Cached>, order: seq<string>) {
    && (forall id | id in order :: id in probes)
    && forall i, j | 0 <= i < j < |order| :: Before(probes, order[i], order[j])
  }

  /** There is only one such order. */
  lemma {:induction false} OrderIsRanked(probes: map<string, Cached>, order: seq<string>, ids: set<string>)
    requires InOrder(probes, order) && ids <= probes.Keys && forall id :: id in order <==> id in ids
    ensures order == Ranked(probes, ids)
    decreases |order|
  {
    if order == [] {
      assert forall id | id in ids :: id in order;
    } else {
      assert order[0] in ids;
      var first := RankedHead(probes, ids);
      assert first in order;
      var i :| 0 <= i < |order| && order[i] == first;
      if i != 0 { BeforeIsTotal(probes, order[0], first); }
      forall j | 0 < j < |order| ensures order[j] != first { BeforeIsTotal(probes, first, order[j]); }
      forall id ensures id in order[1..] <==> id in ids - {first} {
        if id in ids && id != first { var j :| 0 <= j < |order| && order[j] == id; assert order[1..][j - 1] == id; }
      }
      OrderIsRanked(probes, order[1..], ids - {first});
      assert order == [first] + order[1..];
    }
  }

  lemma InOrderAfter(probes: map<string, Cached>, first: string, rest: seq<string>)
    requires first in probes && InOrder(probes, rest) && forall j | 0 <= j < |rest| :: Before(probes, first, rest[j])
    ensures InOrder(probes, [first] + rest)
  {
  }

  lemma {:induction false} RankedIsOrdered(probes: map<string, Cached>, ids: set<string>)
    requires ids <= probes.Keys
    ensures InOrder(probes, Ranked(probes, ids)) && |Ranked(probes, ids)| == |ids|
    decreases |ids|
  {
    if ids != {} {
      var first := RankedHead(probes, ids);
      var rest := Ranked(probes, ids - {first});
      RankedIsOrdered(probes, ids - {first});
      assert forall j | 0 <= j < |rest| :: rest[j] in rest;
      InOrderAfter(probes, first, rest);
    }
  }

  // ---- Selection ----

  function IdsOf(order: seq<string>): set<string> {
    set id | id in order
  }

  predicate Distinct(order: seq<string>) {
    forall i, j | 0 <= i < j < |order| :: order[i] != order[j]
  }

  datatype Plan = Plan(selected: seq<string>, used: int, deferred: int)

  /** Greedy: a probe that does not fit is deferred and smaller ones behind it may still run. */
  function PlanOf(probes: map<string, Cached>, order: seq<string>, maxJobs: int, perProbe: int): Plan
    requires IdsOf(order) <= probes.Keys
  {
    if order == [] then Plan([], 0, 0)
    else
      var rest, id := order[..|order| - 1], order[|order| - 1];
      assert id in IdsOf(order) && IdsOf(rest) <= IdsOf(order);
      var before := PlanOf(probes, rest, maxJobs, perProbe);
      var count := Demand(probes[id].snapshot, maxJobs, perProbe);
      if maxJobs <= 0 || before.used + count > maxJobs then before.(deferred := before.deferred + count)
      else Plan(before.selected + [id], before.used + count, before.deferred)
  }

  ghost function Selection(c: Cache, now: int, maxJobs: int, perProbe: int): Plan {
    var order := Ranked(c.probes, DueIds(c.probes, now));
    assert IdsOf(order) == DueIds(c.probes, now);
    PlanOf(c.probes, order, maxJobs, perProbe)
  }

  function MarkedRun(probes: map<string, Cached>, ids: seq<string>, now: int): map<string, Cached> {
    map id | id in probes :: if id in ids then probes[id].(lastRunAt := Some(now)) else probes[id]
  }

  ghost function AfterTick(c: Cache, now: int, maxJobs: int, perProbe: int): Cache {
    c.(probes := MarkedRun(c.probes, Selection(c, now, maxJobs, perProbe).selected, now))
  }

  /** The snapshots handed to the executor: the count is the clamped one. */
  function Snapshots(probes: map<string, Cached>, ids: seq<string>, maxJobs: int, perProbe: int): seq<Snapshot>
    requires IdsOf(ids) <= probes.Keys
  {
    seq(|ids|, i requires 0 <= i < |ids| =>
      assert ids[i] in IdsOf(ids);
      probes[ids[i]].snapshot.(probeCount := Demand(probes[ids[i]].snapshot, maxJobs, perProbe)))
  }

  // ---- Accounting ----

  /** What a set of probes asks for, however it is ordered. */
  ghost function TotalDemand(probes: map<string, Cached>, ids: set<string>, maxJobs: int, perProbe: int): int
    requires ids <= probes.Keys
    decreases |ids|
  {
    if ids == {} then 0
    else
      var id :| id in ids;
      Demand(probes[id].snapshot, maxJobs, perProbe) + TotalDemand(probes, ids - {id}, maxJobs, perProbe)
  }

  lemma {:induction false} TotalDemandWithout(probes: map<string, Cached>, ids: set<string>, id: string, maxJobs: int, perProbe: int)
    requires ids <= probes.Keys && id in ids
    ensures TotalDemand(probes, ids, maxJobs, perProbe)
         == Demand(probes[id].snapshot, maxJobs, perProbe) + TotalDemand(probes, ids - {id}, maxJobs, perProbe)
    decreases |ids|
  {
    var other :| other in ids && TotalDemand(probes, ids, maxJobs, perProbe)
      == Demand(probes[other].snapshot, maxJobs, perProbe) + TotalDemand(probes, ids - {other}, maxJobs, perProbe);
    if other != id {
      TotalDemandWithout(probes, ids - {other}, id, maxJobs, perProbe);
      TotalDemandWithout(probes, ids - {id}, other, maxJobs, perProbe);
      assert ids - {other} - {id} == ids - {id} - {other};
    }
  }

  lemma IdsOfOneMore(order: seq<string>)
    requires order != [] && Distinct(order)
    ensures var before, last := order[..|order| - 1], order[|order| - 1];
            Distinct(before) && last in order && last !in before && IdsOf(order) - {last} == IdsOf(before)
  {
  }

  /** Every due probe's demand is either granted or reported as deferred. */
  lemma {:induction false} PlanAccountsForAll(probes: map<string, Cached>, order: seq<string>, maxJobs: int, perProbe: int)
    requires IdsOf(order) <= probes.Keys && Distinct(order)
    ensures var plan := PlanOf(probes, order, maxJobs, perProbe);
            plan.used + plan.deferred == TotalDemand(probes, IdsOf(order), maxJobs, perProbe)
    decreases |order|
  {
    if order != [] {
      var before, last := order[..|order| - 1], order[|order| - 1];
      IdsOfOneMore(order);
      PlanAccountsForAll(probes, before, maxJobs, perProbe);
      TotalDemandWithout(probes, IdsOf(order), last, maxJobs, perProbe);
    }
  }

  /** Without a budget the order does not matter. */
  lemma NoBudgetDefersAll(c: Cache, ids: seq<string>, now: int, maxJobs: int, perProbe: int)
    requires maxJobs <= 0 && Distinct(ids) && IdsOf(ids) == DueIds(c.probes, now)
    requires PlanOf(c.probes, ids, maxJobs, perProbe).selected == [] && PlanOf(c.probes, ids, maxJobs, perProbe).used == 0
    ensures Selection(c, now, maxJobs, perProbe) == PlanOf(c.probes, ids, maxJobs, perProbe)
    ensures AfterTick(c, now, maxJobs, perProbe) == c
  {
    var due := DueIds(c.probes, now);
    var order := Ranked(c.probes, due);
    RankedIsDistinct(c.probes, due);
    PlanAccountsForAll(c.probes, ids, maxJobs, perProbe);
    PlanAccountsForAll(c.probes, order, maxJobs, perProbe);
    NoBudgetSelectsNone(c.probes, order, maxJobs, perProbe);
    assert MarkedRun(c.probes, [], now) == c.probes;
  }

  lemma RankedIsDistinct(probes: map<string, Cached>, ids: set<string>)
    requires ids <= probes.Keys
    ensures Distinct(Ranked(probes, ids)) && IdsOf(Ranked(probes, ids)) == ids
  {
  }

  lemma {:induction false} NoBudgetSelectsNone(probes: map<string, Cached>, order: seq<string>, maxJobs: int, perProbe: int)
    requires maxJobs <= 0 && IdsOf(order) <= probes.Keys
    ensures PlanOf(probes, order, maxJobs, perProbe).selected == [] && PlanOf(probes, order, maxJobs, perProbe).used == 0
    decreases |order|
  {
    if order != [] {
      assert IdsOf(order[..|order| - 1]) <= IdsOf(order);
      NoBudgetSelectsNone(probes, order[..|order| - 1], maxJobs, perProbe);
    }
  }

  // ---- Spreading a fresh assignment ----

  function Least(a: int, b: int): int {
    if b < a then b else a
  }

  predicate Spread(p: Cached, jitter: int) {
    jitter > 0 && p.lastRunAt.None? && p.snapshot.scheduleType != "manual" && p.snapshot.intervalSeconds > 0
  }

  /** `hash` is the id hash, FNV-1a in the source. */
  function Staggered(p: Cached, now: int, jitter: int, hash: nat): Cached {
    if !Spread(p, jitter) then p
    else p.(lastRunAt := Some(now - Interval(p.snapshot) + hash % Least(jitter, Interval(p.snapshot))))
  }

  function StaggeredAll(c: Cache, now: int, jitter: int, hash: string -> nat): Cache {
    c.(probes := map id | id in c.probes :: Staggered(c.probes[id], now, jitter, hash(id)))
  }

  // ---- The cache itself ----

  class ProbeCache {
    var probes: map<string, Cached>
    var contentHash: string
    var pendingTriggers: seq<Trigger>

    ghost function View(): Cache
      reads this
    {
      Cache(probes, contentHash, pendingTriggers)
    }

    constructor ()
      ensures View() == NewCache
    {
      probes, contentHash, pendingTriggers := map[], "", [];
    }

    method ReplaceLocked(snapshots: seq<Snapshot>)
      modifies this`probes
      ensures View() == Replaced(old(View()), snapshots)
    {
      var next: map<string, Cached> := map[];
      for i := 0 to |snapshots|
        invariant next == Entries(probes, snapshots[..i]) && probes == old(probes)
      {
        assert snapshots[..i + 1][..i] == snapshots[..i];
        var entry := Cached(snapshots[i], None, "");
        if snapshots[i].id in probes {
          entry := entry.(lastRunAt := probes[snapshots[i].id].lastRunAt, lastTrigger := probes[snapshots[i].id].lastTrigger);
        }
        next := next[snapshots[i].id := entry];
      }
      assert snapshots[..|snapshots|] == snapshots;
      probes := next;
    }

    method ReplaceAssignment(hash: string, snapshots: seq<Snapshot>)
      modifies this
      ensures View() == Replaced(old(View()), snapshots).(hash := hash)
    {
      ReplaceLocked(snapshots);
      contentHash := hash;
    }

    method ReplaceAssignmentKeepingHash(snapshots: seq<Snapshot>)
      modifies this
      ensures View() == Replaced(old(View()), snapshots)
    {
      ReplaceLocked(snapshots);
    }

    method HasPending(key: TriggerKey) returns (found: bool)
      ensures found == Holds(pendingTriggers, key)
    {
      for i := 0 to |pendingTriggers|
        invariant !Holds(pendingTriggers[..i], key)
      {
        if pendingTriggers[i].key == key { return true; }
        assert pendingTriggers[..i + 1][..i] == pendingTriggers[..i];
        assert forall j | 0 <= j < i :: pendingTriggers[..i + 1][j] == pendingTriggers[..i][j];
      }
      assert pendingTriggers[..|pendingTriggers|] == pendingTriggers;
      return false;
    }

    method ApplyTriggeredEvent(event: Event) returns (queued: bool)
      modifies this
      ensures (View(), queued) == Applied(old(View()), event)
    {
      if event.eventType != "triggered" || event.runId == "" || event.probe.id == "" {
        return false;
      }
      var key := TriggerKey(event.probe.id, event.runId);
      var held := HasPending(key);
      if held {
        return false;
      }
      if key.probeId in probes {
        if probes[key.probeId].lastTrigger == event.runId {
          return false;
        }
        probes := probes[key.probeId := probes[key.probeId].(lastTrigger := event.runId)];
      }
      if |pendingTriggers| >= MAX_PENDING_TRIGGERS {
        return false;
      }
      pendingTriggers := pendingTriggers + [Trigger(key, event.probe)];
      return true;
    }

    method ApplyTriggeredEvents(events: seq<Event>)
      modifies this
      ensures View() == AppliedAll(old(View()), events)
    {
      for i := 0 to |events|
        invariant View() == AppliedAll(old(View()), events[..i])
      {
        assert events[..i + 1][..i] == events[..i];
        var queued := ApplyTriggeredEvent(events[i]);
      }
      assert events[..|events|] == events;
    }

    method QueueTriggers(triggers: seq<Trigger>) returns (queued: nat)
      modifies this
      ensures View() == Queued(old(View()), triggers)
      ensures queued == |pendingTriggers| - |old(pendingTriggers)|
    {
      queued := 0;
      assert triggers[0..] == triggers;
      for i := 0 to |triggers|
        invariant Queued(old(View()), triggers) == Queued(View(), triggers[i..])
        invariant queued == |pendingTriggers| - |old(pendingTriggers)|
      {
        var trigger := triggers[i];
        var key := trigger.key;
        assert triggers[i..][0] == trigger && triggers[i..][1..] == triggers[i + 1..];
        if key.probeId == "" || key.runId == "" { continue; }
        var held := HasPending(key);
        if held { continue; }
        if trigger.snapshot.id == "" && key.probeId in probes {
          trigger := trigger.(snapshot := probes[key.probeId].snapshot);
        }
        if key.probeId in probes {
          if probes[key.probeId].lastTrigger == key.runId { continue; }
          probes := probes[key.probeId := probes[key.probeId].(lastTrigger := key.runId)];
        }
        if |pendingTriggers| >= MAX_PENDING_TRIGGERS {
          return;
        }
        pendingTriggers := pendingTriggers + [trigger];
        queued := queued + 1;
      }
    }

    method RequeueTriggers(triggers: seq<Trigger>)
      modifies this
      ensures View() == Requeued(old(View()), triggers)
    {
      for i := 0 to |triggers|
        invariant View() == Requeued(old(View()), triggers[..i])
      {
        assert triggers[..i + 1][..i] == triggers[..i];
        var key := triggers[i].key;
        if key.probeId == "" || key.runId == "" { continue; }
        var held := HasPending(key);
        if held { continue; }
        if |pendingTriggers| >= MAX_PENDING_TRIGGERS { continue; }
        pendingTriggers := pendingTriggers + [triggers[i]];
      }
      assert triggers[..|triggers|] == triggers;
    }

    method MarkTriggerComplete(key: TriggerKey)
      modifies this`probes
      ensures View() == Noted(old(View()), key)
    {
      if key.probeId in probes {
        probes := probes[key.probeId := probes[key.probeId].(lastTrigger := key.runId)];
      }
    }

    method DrainLimited(limit: int) returns (drained: seq<Trigger>)
      modifies this`pendingTriggers
      ensures var n := if limit > 0 && limit < |old(pendingTriggers)| then limit else |old(pendingTriggers)|;
              && n == Taken(old(View()), limit) && drained == old(pendingTriggers)[..n]
              && View() == old(View()).(queue := old(pendingTriggers)[n..])
    {
      if |pendingTriggers| == 0 {
        return [];
      }
      if limit <= 0 || limit >= |pendingTriggers| {
        drained := pendingTriggers;
        pendingTriggers := [];
        return;
      }
      drained := pendingTriggers[..limit];
      pendingTriggers := pendingTriggers[limit..];
    }

    /** sort.Slice over the due entries. */
    method SortEntries(ids: seq<string>) returns (order: seq<string>)
      requires IdsOf(ids) <= probes.Keys && Distinct(ids)
      ensures order == Ranked(probes, IdsOf(ids))
    {
      order := [];
      for i := 0 to |ids|
        invariant InOrder(probes, order)
        invariant forall id :: id in order <==> id in ids[..i]
      {
        assert ids[i] in IdsOf(ids);
        var at := 0;
        while at < |order| && !Before(probes, ids[i], order[at])
          invariant 0 <= at <= |order|
          invariant forall j | 0 <= j < at :: !Before(probes, ids[i], order[j])
        {
          at := at + 1;
        }
        Inserted(probes, order, ids[i], at);
        order := order[..at] + [ids[i]] + order[at..];
      }
      assert ids[..|ids|] == ids;
      OrderIsRanked(probes, order, IdsOf(ids));
    }

    method CollectDue(now: int) returns (ids: seq<string>)
      ensures Distinct(ids) && IdsOf(ids) == DueIds(probes, now)
    {
      ids := [];
      var rest := probes.Keys;
      while rest != {}
        invariant rest <= probes.Keys
        invariant Distinct(ids)
        invariant forall id :: id in ids <==> id in probes && id !in rest && Due(probes[id], now)
        decreases |rest|
      {
        var id :| id in rest;
        rest := rest - {id};
        if Due(probes[id], now) {
          ids := ids + [id];
        }
      }
    }

    method SumDeferred(ids: seq<string>, maxJobs: int, perProbe: int) returns (deferred: int)
      requires maxJobs <= 0 && IdsOf(ids) <= probes.Keys
      ensures PlanOf(probes, ids, maxJobs, perProbe) == Plan([], 0, deferred)
    {
      deferred := 0;
      for i := 0 to |ids|
        invariant IdsOf(ids[..i]) <= probes.Keys && PlanOf(probes, ids[..i], maxJobs, perProbe) == Plan([], 0, deferred)
      {
        assert ids[..i + 1][..i] == ids[..i];
        assert ids[i] in IdsOf(ids) && IdsOf(ids[..i + 1]) <= IdsOf(ids);
        deferred := deferred + Demand(probes[ids[i]].snapshot, maxJobs, perProbe);
      }
      assert ids[..|ids|] == ids;
    }

    /** The greedy loop: selects and marks in one pass. */
    method SelectInOrder(order: seq<string>, now: int, maxJobs: int, perProbe: int)
      returns (selected: seq<Snapshot>, used: int, deferred: int, ghost picked: seq<string>)
      requires maxJobs > 0 && IdsOf(order) <= probes.Keys && Distinct(order)
      modifies this`probes
      ensures PlanOf(old(probes), order, maxJobs, perProbe) == Plan(picked, used, deferred)
      ensures IdsOf(picked) <= IdsOf(order)
      ensures selected == Snapshots(old(probes), picked, maxJobs, perProbe)
      ensures probes == MarkedRun(old(probes), picked, now)
    {
      ghost var was := probes;
      selected, used, deferred, picked := [], 0, 0, [];
      for i := 0 to |order|
        invariant IdsOf(order[..i]) <= was.Keys && IdsOf(picked) <= IdsOf(order[..i])
        invariant PlanOf(was, order[..i], maxJobs, perProbe) == Plan(picked, used, deferred)
        invariant selected == Snapshots(was, picked, maxJobs, perProbe)
        invariant probes == MarkedRun(was, picked, now)
      {
        OneMoreOf(order, i);
        var count := Demand(probes[order[i]].snapshot, maxJobs, perProbe);
        if used + count > maxJobs {
          deferred := deferred + count;
          continue;
        }
        used := used + count;
        selected := selected + [probes[order[i]].snapshot.(probeCount := count)];
        assert order[i] !in picked by { assert forall id | id in picked :: id in IdsOf(picked); }
        MarkOneMore(was, picked, order[i], now);
        probes := probes[order[i] := probes[order[i]].(lastRunAt := Some(now))];
        picked := picked + [order[i]];
        assert IdsOf(picked) <= IdsOf(order[..i + 1]);
      }
      assert order[..|order|] == order;
    }

    method TakeDueProbes(now: int, maxJobs: int, perProbe: int) returns (selected: seq<Snapshot>, deferred: int)
      modifies this`probes
      ensures var plan := Selection(old(View()), now, maxJobs, perProbe);
              && deferred == plan.deferred
              && IdsOf(plan.selected) <= old(probes).Keys
              && selected == Snapshots(old(probes), plan.selected, maxJobs, perProbe)
              && View() == AfterTick(old(View()), now, maxJobs, perProbe)
    {
      var ids := CollectDue(now);
      if maxJobs <= 0 {
        deferred := SumDeferred(ids, maxJobs, perProbe);
        NoBudgetDefersAll(View(), ids, now, maxJobs, perProbe);
        return [], deferred;
      }
      var order := SortEntries(ids);
      RankedIsDistinct(probes, DueIds(probes, now));
      var used: int;
      ghost var picked: seq<string>;
      selected, used, deferred, picked := SelectInOrder(order, now, maxJobs, perProbe);
    }

    method StaggerUnstarted(now: int, jitter: int, hash: string -> nat)
      modifies this`probes
      ensures View() == StaggeredAll(old(View()), now, jitter, hash)
    {
      if jitter <= 0 {
        return;
      }
      ghost var was := probes;
      var rest := probes.Keys;
      while rest != {}
        invariant rest <= probes.Keys == was.Keys
        invariant forall id | id in was :: probes[id] == if id in rest then was[id] else Staggered(was[id], now, jitter, hash(id))
        decreases |rest|
      {
        var id :| id in rest;
        rest := rest - {id};
        var probe := probes[id];
        if probe.lastRunAt.Some? || probe.snapshot.scheduleType == "manual" { continue; }
        var interval := probe.snapshot.intervalSeconds * SECOND;
        if interval <= 0 { continue; }
        var maxOffset := jitter;
        if interval < maxOffset { maxOffset := interval; }
        probes := probes[id := probe.(lastRunAt := Some(now - interval + hash(id) % maxOffset))];
      }
    }
  }

  lemma OneMoreOf(order: seq<string>, i: nat)
    requires i < |order| && Distinct(order)
    ensures order[..i + 1][..i] == order[..i] && order[..i + 1][i] == order[i]
    ensures order[i] in IdsOf(order) && order[i] !in order[..i]
    ensures IdsOf(order[..i + 1]) <= IdsOf(order) && IdsOf(order[..i]) <= IdsOf(order[..i + 1])
  {
  }

  lemma MarkOneMore(probes: map<string, Cached>, ids: seq<string>, id: string, now: int)
    requires id in probes && id !in ids
    ensures MarkedRun(probes, ids + [id], now) == MarkedRun(probes, ids, now)[id := probes[id].(lastRunAt := Some(now))]
    ensures MarkedRun(probes, ids, now)[id] == probes[id]
  {
  }

  lemma Inserted(probes: map<string, Cached>, order: seq<string>, id: string, at: nat)
    requires InOrder(probes, order) && id in probes && id !in order && at <= |order|
    requires forall j | 0 <= j < at :: !Before(probes, id, order[j])
    requires at < |order| ==> Before(probes, id, order[at])
    ensures InOrder(probes, order[..at] + [id] + order[at..])
    ensures forall x :: x in order[..at] + [id] + order[at..] <==> x in order || x == id
  {
    forall j | 0 <= j < at ensures Before(probes, order[j], id) {
      assert order[j] in order;
      BeforeIsTotal(probes, id, order[j]);
    }
    forall j | at <= j < |order| ensures Before(probes, id, order[j]) {
      if j > at { BeforeIsTransitive(probes, id, order[at], order[j]); }
    }
    assert order == order[..at] + order[at..];
  }
}
