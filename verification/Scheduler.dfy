/** What the job-budgeted, oldest-first scheduler promises: budget, no starvation, spacing. */
module Scheduler {

  import opened Prelude
  import opened Wire
  import opened StoreTables
  import opened ProbeCache

  ghost function Chosen(c: Cache, now: int, maxJobs: int, perProbe: int): set<string> {
    IdsOf(Selection(c, now, maxJobs, perProbe).selected)
  }

  // ---- One tick ----

  function Jobs(selected: seq<Snapshot>): int {
    if selected == [] then 0 else Jobs(selected[..|selected| - 1]) + selected[|selected| - 1].probeCount
  }

  lemma {:induction false} PlanFits(probes: map<string, Cached>, order: seq<string>, maxJobs: int, perProbe: int)
    requires maxJobs > 0 && IdsOf(order) <= probes.Keys && Distinct(order)
    ensures var plan := PlanOf(probes, order, maxJobs, perProbe);
            && 0 <= plan.used <= maxJobs && 0 <= plan.deferred
            && IdsOf(plan.selected) <= IdsOf(order) && Distinct(plan.selected)
            && (order != [] ==> plan.selected != [] && plan.selected[0] == order[0])
    decreases |order|
  {
    if order != [] {
      var rest, id := order[..|order| - 1], order[|order| - 1];
      IdsOfOneMore(order);
      PlanFits(probes, rest, maxJobs, perProbe);
      var before := PlanOf(probes, rest, maxJobs, perProbe);
      var after := PlanOf(probes, order, maxJobs, perProbe);
      assert id !in before.selected by { assert forall x | x in before.selected :: x in IdsOf(before.selected); }
      assert IdsOf(rest) <= IdsOf(order) && IdsOf(after.selected) <= IdsOf(before.selected) + {id};
      assert after.selected != [] && after.selected[0] == order[0] by {
        if rest != [] { assert rest[0] == order[0]; }
      }
    }
  }

  /** The jobs handed out are the jobs counted, each probe's at least one and at most its cap. */
  lemma {:induction false} PlanCounts(probes: map<string, Cached>, order: seq<string>, maxJobs: int, perProbe: int)
    requires maxJobs > 0 && IdsOf(order) <= probes.Keys && Distinct(order)
    requires IdsOf(PlanOf(probes, order, maxJobs, perProbe).selected) <= probes.Keys
    ensures var plan := PlanOf(probes, order, maxJobs, perProbe);
            && Jobs(Snapshots(probes, plan.selected, maxJobs, perProbe)) == plan.used
            && (forall s | s in Snapshots(probes, plan.selected, maxJobs, perProbe) :: 1 <= s.probeCount && (perProbe > 0 ==> s.probeCount <= perProbe))
    decreases |order|
  {
    if order != [] {
      var rest := order[..|order| - 1];
      IdsOfOneMore(order);
      PlanFits(probes, rest, maxJobs, perProbe);
      PlanCounts(probes, rest, maxJobs, perProbe);
      var before := PlanOf(probes, rest, maxJobs, perProbe);
      var after := PlanOf(probes, order, maxJobs, perProbe);
      if after.selected != before.selected {
        var a, b := Snapshots(probes, before.selected, maxJobs, perProbe), Snapshots(probes, after.selected, maxJobs, perProbe);
        assert b[..|b| - 1] == a;
        assert b == a + [b[|b| - 1]];
      }
    }
  }

  /** The order in which one tick looks at the due probes. */
  ghost function DueOrder(c: Cache, now: int): (order: seq<string>)
    ensures IdsOf(order) <= c.probes.Keys
  {
    Ranked(c.probes, DueIds(c.probes, now))
  }

  /** The jobs of one tick never exceed its budget, what was granted and what is reported as
      deferred add up to the whole clamped demand, exactly the chosen probes are marked run,
      and every due probe that was not chosen is still due. */
  lemma TickBudget(c: Cache, now: int, maxJobs: int, perProbe: int)
    ensures var plan := Selection(c, now, maxJobs, perProbe);
            var after := AfterTick(c, now, maxJobs, perProbe);
            var chosen := Chosen(c, now, maxJobs, perProbe);
            && chosen <= DueIds(c.probes, now) && Distinct(plan.selected)
            && Jobs(Snapshots(c.probes, plan.selected, maxJobs, perProbe)) == plan.used <= (if maxJobs > 0 then maxJobs else 0)
            && plan.used + plan.deferred == TotalDemand(c.probes, DueIds(c.probes, now), maxJobs, perProbe)
            && after.probes.Keys == c.probes.Keys
            && (forall id | id in c.probes ::
                  after.probes[id] == if id in chosen then c.probes[id].(lastRunAt := Some(now)) else c.probes[id])
            && (forall id | id in DueIds(c.probes, now) && id !in chosen :: id in DueIds(after.probes, now))
  {
    var order := DueOrder(c, now);
    RankedIsDistinct(c.probes, DueIds(c.probes, now));
    PlanAccountsForAll(c.probes, order, maxJobs, perProbe);
    if maxJobs > 0 {
      PlanFits(c.probes, order, maxJobs, perProbe);
      PlanCounts(c.probes, order, maxJobs, perProbe);
    }
    else { NoBudgetSelectsNone(c.probes, order, maxJobs, perProbe); }
  }

  /** The probe that waited longest always fits: its demand was clamped to the budget. */
  lemma OldestIsChosen(c: Cache, now: int, maxJobs: int, perProbe: int)
    requires maxJobs > 0 && DueOrder(c, now) != []
    ensures DueOrder(c, now)[0] in Chosen(c, now, maxJobs, perProbe)
  {
    RankedIsDistinct(c.probes, DueIds(c.probes, now));
    PlanFits(c.probes, DueOrder(c, now), maxJobs, perProbe);
  }

  // ---- No starvation ----

  datatype Tick = Tick(now: int, maxJobs: int, perProbe: int)

  ghost function After(c: Cache, ticks: seq<Tick>): Cache {
    if ticks == [] then c
    else
      var last := ticks[|ticks| - 1];
      AfterTick(After(c, ticks[..|ticks| - 1]), last.now, last.maxJobs, last.perProbe)
  }

  ghost predicate ChosenAt(c: Cache, ticks: seq<Tick>, i: nat, id: string)
    requires i < |ticks|
  {
    id in Chosen(After(c, ticks[..i]), ticks[i].now, ticks[i].maxJobs, ticks[i].perProbe)
  }

  function WithBudget(ticks: seq<Tick>): nat {
    if ticks == [] then 0
    else WithBudget(ticks[..|ticks| - 1]) + (if ticks[|ticks| - 1].maxJobs > 0 then 1 else 0)
  }

  /** The probes that come before `id`, whether they are due or not. */
  function Ahead(probes: map<string, Cached>, id: string): set<string>
    requires id in probes
  {
    set other | other in probes && other != id && Before(probes, other, id)
  }

  /** Due, and last run strictly before now. A due probe with a positive interval always is. */
  predicate Waiting(p: Cached, now: int) {
    Due(p, now) && Earlier(p.lastRunAt, Some(now))
  }

  lemma PositiveIntervalWaits(p: Cached, now: int)
    requires Due(p, now) && p.snapshot.intervalSeconds > 0
    ensures Waiting(p, now)
  {
  }

  /** A tick that passes a waiting probe over takes at least one probe from ahead of it and
      puts none there, wherever the clock stands. */
  lemma PassedOverMovesUp(c: Cache, id: string, tick: Tick)
    requires id in c.probes && Waiting(c.probes[id], tick.now)
    requires id !in Chosen(c, tick.now, tick.maxJobs, tick.perProbe)
    ensures var after := AfterTick(c, tick.now, tick.maxJobs, tick.perProbe);
            && id in after.probes && after.probes[id] == c.probes[id]
            && Ahead(after.probes, id) <= Ahead(c.probes, id) && |Ahead(after.probes, id)| <= |Ahead(c.probes, id)|
            && (tick.maxJobs > 0 ==> |Ahead(after.probes, id)| < |Ahead(c.probes, id)|)
  {
    TickBudget(c, tick.now, tick.maxJobs, tick.perProbe);
    var after := AfterTick(c, tick.now, tick.maxJobs, tick.perProbe);
    var chosen := Chosen(c, tick.now, tick.maxJobs, tick.perProbe);
    var a, b := Ahead(c.probes, id), Ahead(after.probes, id);
    forall other | other in b ensures other in a && other !in chosen {
      if other in chosen {
        assert after.probes[other].lastRunAt == Some(tick.now);
        BeforeIsTotal(after.probes, other, id);
        assert Before(after.probes, id, other);
      }
    }
    SubsetIsSmaller(b, a);
    if tick.maxJobs > 0 {
      var order := DueOrder(c, tick.now);
      assert id in order;
      OldestIsChosen(c, tick.now, tick.maxJobs, tick.perProbe);
      var i :| 0 <= i < |order| && order[i] == id;
      RankedIsOrdered(c.probes, DueIds(c.probes, tick.now));
      assert Before(c.probes, order[0], id);
      assert order[0] in a && order[0] !in b;
      SubsetIsSmaller(b, a - {order[0]});
    }
  }

  lemma {:induction false} PassedOverEveryTime(c: Cache, ticks: seq<Tick>, id: string)
    requires id in c.probes && forall t | t in ticks :: Waiting(c.probes[id], t.now)
    requires forall i | 0 <= i < |ticks| :: !ChosenAt(c, ticks, i, id)
    ensures id in After(c, ticks).probes && After(c, ticks).probes[id] == c.probes[id]
    ensures WithBudget(ticks) + |Ahead(After(c, ticks).probes, id)| <= |Ahead(c.probes, id)|
    decreases |ticks|
  {
    if ticks != [] {
      var n := |ticks| - 1;
      var before := ticks[..n];
      forall i | 0 <= i < n ensures !ChosenAt(c, before, i, id) {
        assert before[..i] == ticks[..i] && !ChosenAt(c, ticks, i, id);
      }
      PassedOverEveryTime(c, before, id);
      assert !ChosenAt(c, ticks, n, id);
      assert ticks[n] in ticks;
      PassedOverMovesUp(After(c, before), id, ticks[n]);
    }
  }

  /** No starvation. With k probes ahead of it, a probe that last ran before every one of these
      clock readings and is due at each is chosen within k + 1 ticks that have a budget at all,
      however the clock is corrected in between. */
  lemma WaitingIsServed(c: Cache, ticks: seq<Tick>, id: string)
    requires id in c.probes && forall t | t in ticks :: Waiting(c.probes[id], t.now)
    requires WithBudget(ticks) > |Ahead(c.probes, id)|
    ensures exists i :: 0 <= i < |ticks| && ChosenAt(c, ticks, i, id)
  {
    if forall i | 0 <= i < |ticks| :: !ChosenAt(c, ticks, i, id) {
      PassedOverEveryTime(c, ticks, id);
    }
  }

  /** So a due probe with an interval is served, wherever the clock stands or goes. */
  lemma NoStarvation(c: Cache, ticks: seq<Tick>, id: string)
    requires id in c.probes && c.probes[id].snapshot.intervalSeconds > 0
    requires forall t | t in ticks :: Due(c.probes[id], t.now)
    requires WithBudget(ticks) > |Ahead(c.probes, id)|
    ensures exists i :: 0 <= i < |ticks| && ChosenAt(c, ticks, i, id)
  {
    forall t | t in ticks ensures Waiting(c.probes[id], t.now) { PositiveIntervalWaits(c.probes[id], t.now); }
    WaitingIsServed(c, ticks, id);
  }

  // ---- Probes without an interval, should the clock stand still ----

  /** With room for one job a tick, only the head of the order runs. */
  lemma OnlyTheHeadRuns(c: Cache, now: int)
    requires DueOrder(c, now) != []
    ensures Chosen(c, now, 1, 1) == {DueOrder(c, now)[0]}
  {
    RankedIsDistinct(c.probes, DueIds(c.probes, now));
    OneJobPlan(c.probes, DueOrder(c, now));
  }

  lemma OneJobPlan(probes: map<string, Cached>, order: seq<string>)
    requires IdsOf(order) <= probes.Keys && Distinct(order) && order != []
    ensures PlanOf(probes, order, 1, 1).selected == [order[0]]
  {
    PlanFits(probes, order, 1, 1);
    PlanCounts(probes, order, 1, 1);
    AtLeastOneEach(Snapshots(probes, PlanOf(probes, order, 1, 1).selected, 1, 1));
  }

  lemma {:induction false} AtLeastOneEach(selected: seq<Snapshot>)
    requires forall s | s in selected :: 1 <= s.probeCount
    ensures Jobs(selected) >= |selected|
    decreases |selected|
  {
    if selected != [] {
      var last := selected[|selected| - 1];
      assert last in selected;
      AtLeastOneEach(selected[..|selected| - 1]);
    }
  }

  /** `other` is due whenever the clock shows `now`, and never behind `id`. */
  predicate Blocks(probes: map<string, Cached>, other: string, id: string, now: int)
    requires other in probes
  {
    && Less(other, id) && Due(probes[other], now) && Interval(probes[other].snapshot) <= 0
    && (probes[other].lastRunAt.None? || probes[other].lastRunAt.value <= now)
  }

  /** `id` ran at this very instant and is due again. */
  predicate Rerun(c: Cache, id: string, now: int) {
    id in c.probes && Due(c.probes[id], now) && c.probes[id].lastRunAt == Some(now)
  }

  function Standing(now: int, n: nat): seq<Tick> {
    seq(n, _ => Tick(now, 1, 1))
  }

  function DueAhead(c: Cache, id: string, now: int): set<string>
    requires id in c.probes
  {
    set other | other in DueIds(c.probes, now) && other in Ahead(c.probes, id)
  }

  lemma HeadIsAhead(c: Cache, id: string, now: int)
    requires Rerun(c, id, now)
    ensures var order := DueOrder(c, now);
            && order != [] && order[0] in DueIds(c.probes, now) && Chosen(c, now, 1, 1) == {order[0]}
            && (forall other | other in DueIds(c.probes, now) && other != order[0] :: Before(c.probes, order[0], other))
            && (order[0] == id || order[0] in DueAhead(c, id, now))
  {
    var order := DueOrder(c, now);
    assert id in order;
    OnlyTheHeadRuns(c, now);
    RankedIsOrdered(c.probes, DueIds(c.probes, now));
    forall other | other in DueIds(c.probes, now) && other != order[0] ensures Before(c.probes, order[0], other) {
      assert other in order;
    }
  }

  /** What one tick leaves of one probe. */
  lemma TickMarks(c: Cache, now: int, id: string)
    requires id in c.probes
    ensures var after := AfterTick(c, now, 1, 1).probes;
            && after.Keys == c.probes.Keys
            && after[id] == if id in Chosen(c, now, 1, 1) then c.probes[id].(lastRunAt := Some(now)) else c.probes[id]
  {
  }

  lemma BlockedIsPassedOver(c: Cache, id: string, other: string, now: int)
    requires Rerun(c, id, now) && other in c.probes && Blocks(c.probes, other, id, now)
    ensures id !in Chosen(c, now, 1, 1)
  {
    HeadIsAhead(c, id, now);
    LessIsTotal(other, id);
    BeforeIsTotal(c.probes, other, id);
    assert other in DueIds(c.probes, now);
  }

  lemma {:induction false} BlockedForEver(c: Cache, id: string, other: string, now: int, n: nat)
    requires Rerun(c, id, now) && other in c.probes && Blocks(c.probes, other, id, now)
    ensures var after := After(c, Standing(now, n));
            && Rerun(after, id, now) && other in after.probes && Blocks(after.probes, other, id, now)
            && id !in Chosen(after, now, 1, 1)
    decreases n
  {
    if n > 0 {
      BlockedForEver(c, id, other, now, n - 1);
      var before := After(c, Standing(now, n - 1));
      assert Standing(now, n)[..n - 1] == Standing(now, n - 1);
      TickMarks(before, now, id);
      TickMarks(before, now, other);
    }
    BlockedIsPassedOver(After(c, Standing(now, n)), id, other, now);
  }

  ghost predicate Unblocked(c: Cache, id: string, now: int) {
    forall other | other in c.probes :: !Blocks(c.probes, other, id, now)
  }

  /** Without a blocker every tick takes one due probe from ahead of `id` for good. */
  lemma UnblockedMovesUp(c: Cache, id: string, now: int)
    requires Rerun(c, id, now) && Unblocked(c, id, now) && id !in Chosen(c, now, 1, 1)
    ensures var after := AfterTick(c, now, 1, 1);
            && Rerun(after, id, now) && Unblocked(after, id, now)
            && |DueAhead(after, id, now)| < |DueAhead(c, id, now)|
  {
    HeadIsAhead(c, id, now);
    TickMarks(c, now, id);
    var after, head := AfterTick(c, now, 1, 1), DueOrder(c, now)[0];
    forall other | other in after.probes ensures !Blocks(after.probes, other, id, now) {
      TickMarks(c, now, other);
      assert !Blocks(c.probes, other, id, now);
    }
    forall other | other in DueAhead(after, id, now) ensures other in DueAhead(c, id, now) - {head} {
      TickMarks(c, now, other);
      LessIsTotal(other, id);
      assert !Blocks(c.probes, other, id, now);
    }
    SubsetIsSmaller(DueAhead(after, id, now), DueAhead(c, id, now) - {head});
  }

  lemma {:induction false} UnblockedIsServed(c: Cache, id: string, now: int, bound: nat) returns (n: nat)
    requires Rerun(c, id, now) && Unblocked(c, id, now) && |DueAhead(c, id, now)| <= bound
    ensures id in Chosen(After(c, Standing(now, n)), now, 1, 1)
    decreases bound
  {
    if id in Chosen(c, now, 1, 1) {
      n := 0;
      assert Standing(now, 0) == [];
    } else {
      UnblockedMovesUp(c, id, now);
      var m := UnblockedIsServed(AfterTick(c, now, 1, 1), id, now, bound - 1);
      n := m + 1;
      OneTickFirst(c, now, m);
    }
  }

  lemma {:induction false} OneTickFirst(c: Cache, now: int, n: nat)
    ensures After(c, Standing(now, n + 1)) == After(AfterTick(c, now, 1, 1), Standing(now, n))
    decreases n
  {
    assert Standing(now, n + 1)[..n] == Standing(now, n);
    if n == 0 {
      assert Standing(now, 0) == [];
    } else {
      OneTickFirst(c, now, n - 1);
      assert Standing(now, n)[..n - 1] == Standing(now, n - 1);
    }
  }

  /** A probe without an interval that just ran is passed over by any number of one-job ticks
      at that same instant exactly when a probe of smaller id, also without an interval, is due. */
  lemma StandingClockPassesOverExactly(c: Cache, id: string, now: int)
    requires Rerun(c, id, now)
    ensures (forall n: nat :: id !in Chosen(After(c, Standing(now, n)), now, 1, 1))
       <==> exists other :: other in c.probes && Blocks(c.probes, other, id, now)
  {
    if other :| other in c.probes && Blocks(c.probes, other, id, now) {
      forall n: nat ensures id !in Chosen(After(c, Standing(now, n)), now, 1, 1) { BlockedForEver(c, id, other, now, n); }
    } else {
      var n := UnblockedIsServed(c, id, now, |DueAhead(c, id, now)|);
    }
  }

  // ---- Spacing across resyncs ----

  datatype Step =
    | Run(tick: Tick)
    | Resync(probes: seq<Snapshot>)
    | Stagger(now: int, jitter: int)

  ghost function Next(c: Cache, step: Step, hash: string -> nat): Cache {
    match step
    case Run(tick) => AfterTick(c, tick.now, tick.maxJobs, tick.perProbe)
    case Resync(probes) => Replaced(c, probes)
    case Stagger(now, jitter) => StaggeredAll(c, now, jitter, hash)
  }

  ghost function Exec(c: Cache, steps: seq<Step>, hash: string -> nat): Cache {
    if steps == [] then c else Next(Exec(c, steps[..|steps| - 1], hash), steps[|steps| - 1], hash)
  }

  /** Step i is a tick that selects `id`. */
  ghost predicate SelectedAt(c: Cache, steps: seq<Step>, i: nat, id: string, hash: string -> nat)
    requires i < |steps|
  {
    && steps[i].Run?
    && id in Chosen(Exec(c, steps[..i], hash), steps[i].tick.now, steps[i].tick.maxJobs, steps[i].tick.perProbe)
  }

  /** `id` is assigned, with at least this interval (in nanoseconds). */
  ghost predicate AssignedFor(c: Cache, id: string, interval: int) {
    id in c.probes && Interval(c.probes[id].snapshot) >= interval
  }

  lemma {:induction false} EntriesCarry(old_: map<string, Cached>, probes: seq<Snapshot>, id: string)
    requires id in old_ && id in Entries(old_, probes)
    ensures Entries(old_, probes)[id].lastRunAt == old_[id].lastRunAt
    decreases |probes|
  {
    if probes[|probes| - 1].id != id { EntriesCarry(old_, probes[..|probes| - 1], id); }
  }

  /** Only a selection moves a run time that is set. */
  lemma RunTimeStays(c: Cache, step: Step, id: string, hash: string -> nat)
    requires id in c.probes && id in Next(c, step, hash).probes && c.probes[id].lastRunAt.Some?
    ensures var after := Next(c, step, hash).probes[id];
            after.lastRunAt == if step.Run? && id in Chosen(c, step.tick.now, step.tick.maxJobs, step.tick.perProbe)
                               then Some(step.tick.now) else c.probes[id].lastRunAt
  {
    match step
    case Run(tick) => TickBudget(c, tick.now, tick.maxJobs, tick.perProbe);
    case Resync(probes) => EntriesCarry(c.probes, probes, id);
    case Stagger(_, _) =>
  }

  ghost predicate StaysAssigned(c: Cache, steps: seq<Step>, id: string, interval: int, hash: string -> nat) {
    forall i | 0 <= i <= |steps| :: AssignedFor(Exec(c, steps[..i], hash), id, interval)
  }

  lemma StaysAssignedBefore(c: Cache, steps: seq<Step>, n: nat, id: string, interval: int, hash: string -> nat)
    requires n <= |steps| && StaysAssigned(c, steps, id, interval, hash)
    ensures StaysAssigned(c, steps[..n], id, interval, hash) && AssignedFor(Exec(c, steps[..n], hash), id, interval)
  {
    forall i | 0 <= i <= n ensures AssignedFor(Exec(c, steps[..n][..i], hash), id, interval) { assert steps[..n][..i] == steps[..i]; }
  }

  /** The last run time is at or after a selection at `now`. */
  ghost predicate RanSince(c: Cache, id: string, now: int) {
    id in c.probes && c.probes[id].lastRunAt.Some? && c.probes[id].lastRunAt.value >= now
  }

  lemma RanSinceStays(c: Cache, step: Step, id: string, now: int, interval: int, hash: string -> nat)
    requires RanSince(c, id, now) && AssignedFor(c, id, interval) && interval > 0
    requires id in Next(c, step, hash).probes
    ensures RanSince(Next(c, step, hash), id, now)
  {
    RunTimeStays(c, step, id, hash);
    if step.Run? { TickBudget(c, step.tick.now, step.tick.maxJobs, step.tick.perProbe); }
  }

  lemma SelectedRan(c: Cache, step: Step, id: string, hash: string -> nat)
    requires step.Run? && id in Chosen(c, step.tick.now, step.tick.maxJobs, step.tick.perProbe)
    ensures RanSince(Next(c, step, hash), id, step.tick.now)
  {
    TickBudget(c, step.tick.now, step.tick.maxJobs, step.tick.perProbe);
  }

  lemma SelectedEarlier(c: Cache, steps: seq<Step>, n: nat, i: nat, id: string, hash: string -> nat)
    requires i < n <= |steps|
    ensures SelectedAt(c, steps, i, id, hash) == SelectedAt(c, steps[..n], i, id, hash)
  {
    assert steps[..n][..i] == steps[..i];
  }

  lemma {:induction false} RanSinceSelection(c: Cache, steps: seq<Step>, i: nat, id: string, interval: int, hash: string -> nat)
    requires interval > 0 && i < |steps| && StaysAssigned(c, steps, id, interval, hash)
    requires SelectedAt(c, steps, i, id, hash)
    ensures RanSince(Exec(c, steps, hash), id, steps[i].tick.now)
    decreases |steps|
  {
    var n := |steps| - 1;
    var before := steps[..n];
    assert steps[..|steps|] == steps;
    StaysAssignedBefore(c, steps, n, id, interval, hash);
    StaysAssignedBefore(c, steps, n + 1, id, interval, hash);
    if i == n {
      assert Exec(c, steps, hash) == Next(Exec(c, before, hash), steps[n], hash);
      SelectedRan(Exec(c, before, hash), steps[n], id, hash);
    } else {
      SelectedEarlier(c, steps, n, i, id, hash);
      RanSinceSelection(c, before, i, id, interval, hash);
      assert Exec(c, steps, hash) == Next(Exec(c, before, hash), steps[n], hash);
      RanSinceStays(Exec(c, before, hash), steps[n], id, steps[i].tick.now, interval, hash);
    }
  }

  /** Two selections of one probe are at least its interval apart, through any mix of
      resyncs and re-staggering, as long as it stays assigned. */
  lemma SelectionsAreSpaced(c: Cache, steps: seq<Step>, i: nat, j: nat, id: string, interval: int, hash: string -> nat)
    requires interval > 0 && i < j < |steps|
    requires StaysAssigned(c, steps, id, interval, hash)
    requires SelectedAt(c, steps, i, id, hash) && SelectedAt(c, steps, j, id, hash)
    ensures steps[j].tick.now - steps[i].tick.now >= interval
  {
    var before := steps[..j];
    StaysAssignedBefore(c, steps, j, id, interval, hash);
    SelectedEarlier(c, steps, j, i, id, hash);
    RanSinceSelection(c, before, i, id, interval, hash);
    var mid := Exec(c, before, hash);
    TickBudget(mid, steps[j].tick.now, steps[j].tick.maxJobs, steps[j].tick.perProbe);
    assert id in DueIds(mid.probes, steps[j].tick.now);
  }

  // ---- Spreading a fresh assignment ----

  /** `start` is the first instant at which the interval condition holds. */
  ghost predicate StartsAt(p: Cached, start: int) {
    forall t :: IntervalMet(p, t) <==> t >= start
  }

  /** A probe that never ran becomes due within the jitter window and within one interval,
      at an instant its id decides; every other probe keeps its schedule. */
  lemma StaggeredStart(c: Cache, now: int, jitter: int, hash: string -> nat, id: string)
    requires id in c.probes
    ensures var p, after := c.probes[id], StaggeredAll(c, now, jitter, hash).probes[id];
            if jitter > 0 && p.lastRunAt.None? && p.snapshot.scheduleType != "manual" && p.snapshot.intervalSeconds > 0 then
              var interval := p.snapshot.intervalSeconds * 1_000_000_000;
              var window := if interval < jitter then interval else jitter;
              now <= now + hash(id) % window < now + window && StartsAt(after, now + hash(id) % window)
            else after == p
  {
    var p, after := c.probes[id], StaggeredAll(c, now, jitter, hash).probes[id];
    if Spread(p, jitter) {
      var start := now + hash(id) % Least(jitter, Interval(p.snapshot));
      assert StartsAt(after, start);
    }
  }

  /** Staggering twice changes nothing more. */
  lemma StaggerIsIdempotent(c: Cache, now: int, later: int, jitter: int, hash: string -> nat)
    ensures var once := StaggeredAll(c, now, jitter, hash);
            jitter > 0 ==> StaggeredAll(once, later, jitter, hash) == once
  {
  }
}
