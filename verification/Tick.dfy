/** One scheduler tick: triggers first, scheduled probes with what is left of the budget. */
module Tick {

  import opened Prelude
  import opened Wire
  import opened StoreTables
  import opened ProbeCache
  import Scheduler

  datatype Limits = Limits(maxJobsPerTick: int, maxJobsPerProbe: int, maxTriggersPerTick: int)

  /** Run's defaults and checks; None is a refused configuration. */
  function Normalised(configured: Limits): Option<Limits> {
    if configured.maxJobsPerTick < 0 || configured.maxJobsPerProbe < 0 || configured.maxTriggersPerTick < 0 then None
    else
      var perTick := if configured.maxJobsPerTick == 0 then 512 else configured.maxJobsPerTick;
      var perProbe := if configured.maxJobsPerProbe == 0 then 32 else configured.maxJobsPerProbe;
      Some(Limits(perTick, if perProbe > perTick then perTick else perProbe,
                  if configured.maxTriggersPerTick == 0 then 16 else configured.maxTriggersPerTick))
  }

  predicate Usable(limits: Limits) {
    1 <= limits.maxJobsPerProbe <= limits.maxJobsPerTick && 1 <= limits.maxTriggersPerTick
  }

  /** Negative limits are refused. Otherwise zeros stand for 512 jobs, 32 of them for one probe, and 16
      triggers, other values are kept, and one probe may not have more than the tick. */
  lemma NormalisedIsUsable(configured: Limits)
    ensures Normalised(configured).None? <==>
              configured.maxJobsPerTick < 0 || configured.maxJobsPerProbe < 0 || configured.maxTriggersPerTick < 0
    ensures Normalised(configured).Some? ==> Usable(Normalised(configured).value)
    ensures Normalised(Limits(0, 0, 0)) == Some(Limits(512, 32, 16))
    ensures Normalised(configured).Some? ==>
              var limits := Normalised(configured).value;
              && (configured.maxJobsPerTick > 0 ==> limits.maxJobsPerTick == configured.maxJobsPerTick)
              && (0 < configured.maxJobsPerProbe <= limits.maxJobsPerTick ==> limits.maxJobsPerProbe == configured.maxJobsPerProbe)
              && (configured.maxTriggersPerTick > 0 ==> limits.maxTriggersPerTick == configured.maxTriggersPerTick)
  {
  }

  /** One check to run: attempt `checkSeq` of a probe, reported under `runId`. */
  datatype Job = Job(probe: Snapshot, runId: string, checkSeq: int)

  function JobCount(limits: Limits, raw: int): nat {
    if raw < 1 then 1
    else if limits.maxJobsPerProbe > 0 && raw > limits.maxJobsPerProbe then limits.maxJobsPerProbe
    else raw
  }

  function JobsFor(limits: Limits, probe: Snapshot, runId: string): seq<Job> {
    seq(JobCount(limits, probe.probeCount), i requires 0 <= i => Job(probe, runId, i + 1))
  }

  function ProbeJobs(limits: Limits, due: seq<Snapshot>, runIds: seq<string>): seq<Job>
    requires |runIds| == |due|
  {
    if due == [] then []
    else
      var n := |due| - 1;
      ProbeJobs(limits, due[..n], runIds[..n]) + JobsFor(limits, due[n], runIds[n])
  }

  /** A trigger without a snapshot of its own runs the cached definition, if there is one. */
  function TriggerProbe(probes: map<string, Cached>, trigger: Trigger): Option<Snapshot> {
    if trigger.snapshot.id != "" then Some(trigger.snapshot)
    else if trigger.key.probeId in probes then Some(probes[trigger.key.probeId].snapshot)
    else None
  }

  function TriggerJobs(limits: Limits, probes: map<string, Cached>, triggers: seq<Trigger>): seq<Job> {
    if triggers == [] then []
    else
      var n := |triggers| - 1;
      var probe := TriggerProbe(probes, triggers[n]);
      TriggerJobs(limits, probes, triggers[..n]) + if probe.Some? then JobsFor(limits, probe.value, triggers[n].key.runId) else []
  }

  // ---- What the lists of jobs mean ----

  /** One of the checks that a probe asks for: the first, or one within its count and the cap. */
  predicate Asked(limits: Limits, probe: Snapshot, runId: string, job: Job) {
    && job.probe == probe && job.runId == runId
    && (job.checkSeq == 1
        || (1 < job.checkSeq <= probe.probeCount && (limits.maxJobsPerProbe <= 0 || job.checkSeq <= limits.maxJobsPerProbe)))
  }

  /** A trigger runs the snapshot that came with it; without one, what the cache has for its probe. */
  predicate Runs(probes: map<string, Cached>, trigger: Trigger, probe: Snapshot) {
    if trigger.snapshot.id != "" then probe == trigger.snapshot
    else trigger.key.probeId in probes && probe == probes[trigger.key.probeId].snapshot
  }

  lemma JobsForExactly(limits: Limits, probe: Snapshot, runId: string, job: Job)
    ensures job in JobsFor(limits, probe, runId) <==> Asked(limits, probe, runId, job)
    ensures forall i, j | 0 <= i < j < |JobsFor(limits, probe, runId)| :: JobsFor(limits, probe, runId)[i] != JobsFor(limits, probe, runId)[j]
  {
    if Asked(limits, probe, runId, job) { assert JobsFor(limits, probe, runId)[job.checkSeq - 1] == job; }
  }

  ghost predicate AskedByProbe(limits: Limits, due: seq<Snapshot>, runIds: seq<string>, i: nat, job: Job)
    requires |runIds| == |due|
  {
    i < |due| && Asked(limits, due[i], runIds[i], job)
  }

  /** The jobs of the due probes are exactly the checks that they ask for. */
  lemma {:induction false} ProbeJobsExactly(limits: Limits, due: seq<Snapshot>, runIds: seq<string>, job: Job)
    requires |runIds| == |due|
    ensures job in ProbeJobs(limits, due, runIds) <==> exists i: nat :: AskedByProbe(limits, due, runIds, i, job)
    decreases |due|
  {
    if due != [] {
      var n := |due| - 1;
      ProbeJobsExactly(limits, due[..n], runIds[..n], job);
      JobsForExactly(limits, due[n], runIds[n], job);
      if i: nat :| AskedByProbe(limits, due[..n], runIds[..n], i, job) { assert AskedByProbe(limits, due, runIds, i, job); }
      if i: nat :| AskedByProbe(limits, due, runIds, i, job) {
        if i < n { assert AskedByProbe(limits, due[..n], runIds[..n], i, job); }
      }
      if Asked(limits, due[n], runIds[n], job) { assert AskedByProbe(limits, due, runIds, n, job); }
    }
  }

  ghost predicate AskedByTrigger(limits: Limits, probes: map<string, Cached>, triggers: seq<Trigger>, i: nat, job: Job) {
    i < |triggers| && Runs(probes, triggers[i], job.probe) && Asked(limits, job.probe, triggers[i].key.runId, job)
  }

  /** The jobs of the triggers are exactly the checks of the definitions that they run, each under its
      own run id. */
  lemma {:induction false} TriggerJobsExactly(limits: Limits, probes: map<string, Cached>, triggers: seq<Trigger>, job: Job)
    ensures job in TriggerJobs(limits, probes, triggers) <==> exists i: nat :: AskedByTrigger(limits, probes, triggers, i, job)
    decreases |triggers|
  {
    if triggers != [] {
      var n := |triggers| - 1;
      var last, before := triggers[n], triggers[..n];
      TriggerJobsExactly(limits, probes, before, job);
      var probe := TriggerProbe(probes, last);
      if probe.Some? { JobsForExactly(limits, probe.value, last.key.runId, job); }
      if i: nat :| AskedByTrigger(limits, probes, before, i, job) { assert AskedByTrigger(limits, probes, triggers, i, job); }
      if i: nat :| AskedByTrigger(limits, probes, triggers, i, job) {
        if i < n { assert AskedByTrigger(limits, probes, before, i, job); }
      }
      if probe.Some? && Asked(limits, probe.value, last.key.runId, job) { assert AskedByTrigger(limits, probes, triggers, n, job); }
    }
  }

  method AppendJobs(limits: Limits, jobs: seq<Job>, probe: Snapshot, runId: string) returns (all: seq<Job>)
    ensures all == jobs + JobsFor(limits, probe, runId)
  {
    all := jobs;
    var count := JobCount(limits, probe.probeCount);
    var next := 1;
    while next <= count
      invariant 1 <= next <= count + 1
      invariant all == jobs + JobsFor(limits, probe, runId)[..next - 1]
    {
      all := all + [Job(probe, runId, next)];
      next := next + 1;
    }
  }

  class Agent {
    const limits: Limits
    const cache: ProbeCache
    var deferredJobs: int

    constructor (limits: Limits, cache: ProbeCache)
      ensures this.limits == limits && this.cache == cache
    {
      this.limits, this.cache, deferredJobs := limits, cache, 0;
    }

    method ExecuteProbes(due: seq<Snapshot>, runIds: seq<string>) returns (jobs: seq<Job>)
      requires |runIds| == |due|
      ensures jobs == ProbeJobs(limits, due, runIds)
    {
      jobs := [];
      for i := 0 to |due|
        invariant jobs == ProbeJobs(limits, due[..i], runIds[..i])
      {
        assert due[..i + 1][..i] == due[..i] && runIds[..i + 1][..i] == runIds[..i];
        jobs := AppendJobs(limits, jobs, due[i], runIds[i]);
      }
      assert due[..|due|] == due && runIds[..|due|] == runIds;
    }

    method ExecuteTriggers(triggers: seq<Trigger>) returns (jobs: seq<Job>)
      ensures jobs == TriggerJobs(limits, cache.probes, triggers)
    {
      jobs := [];
      for i := 0 to |triggers|
        invariant jobs == TriggerJobs(limits, cache.probes, triggers[..i])
      {
        assert triggers[..i + 1][..i] == triggers[..i];
        var probe := triggers[i].snapshot;
        if probe.id == "" {
          if triggers[i].key.probeId !in cache.probes { continue; }
          probe := cache.probes[triggers[i].key.probeId].snapshot;
        }
        jobs := AppendJobs(limits, jobs, probe, triggers[i].key.runId);
      }
      assert triggers[..|triggers|] == triggers;
    }

    /** The tick's limits, with runDueProbes' own fallbacks. */
    method TickLimits() returns (maxJobs: int, perProbe: int, triggerSlots: int)
      ensures Usable(limits) ==>
                && maxJobs == limits.maxJobsPerTick && perProbe == limits.maxJobsPerProbe
                && triggerSlots == SlotLimit(limits) >= 1 && triggerSlots * perProbe <= maxJobs
      ensures 1 <= perProbe && 1 <= maxJobs && 1 <= triggerSlots
    {
      maxJobs := if limits.maxJobsPerTick < 1 then 0x4000_0000 else limits.maxJobsPerTick;
      perProbe := if limits.maxJobsPerProbe < 1 then 1 else limits.maxJobsPerProbe;
      triggerSlots := if limits.maxTriggersPerTick < 1 then 16 else limits.maxTriggersPerTick;
      if triggerSlots * perProbe > maxJobs {
        SlotsFit(maxJobs, perProbe);
        triggerSlots := maxJobs / perProbe;
        if triggerSlots < 1 {
          triggerSlots := 1;
        }
      }
    }

    /** What the triggers leave of the tick. */
    method ProbeBudget(maxJobs: int, wanted: int) returns (probeBudget: int)
      ensures probeBudget == maxJobs - (if wanted > maxJobs then maxJobs else wanted)
    {
      var triggerBudget := wanted;
      if triggerBudget > maxJobs {
        triggerBudget := maxJobs;
      }
      probeBudget := maxJobs - triggerBudget;
    }

    /** The triggers of this tick, and what they leave of its budget. */
    method TakeTriggers() returns (triggers: seq<Trigger>, probeBudget: int)
      requires Usable(limits)
      modifies cache`pendingTriggers
      ensures var was := old(cache.View());
              var n := Taken(was, SlotLimit(limits));
              && triggers == was.queue[..n] && cache.View() == was.(queue := was.queue[n..])
              && probeBudget == limits.maxJobsPerTick - n * limits.maxJobsPerProbe >= 0
    {
      var maxJobs, perProbe, triggerSlots := TickLimits();
      triggers := cache.DrainLimited(triggerSlots);
      Scaled(|triggers|, triggerSlots, perProbe);
      probeBudget := ProbeBudget(maxJobs, |triggers| * perProbe);
    }

    /** What a tick takes from the queue and from the due probes. */
    method PickWork(now: int) returns (due: seq<Snapshot>, triggers: seq<Trigger>)
      requires Usable(limits)
      modifies this`deferredJobs, cache`probes, cache`pendingTriggers
      ensures Picks(old(cache.View()), cache.View(), now, due, triggers)
      ensures deferredJobs == Selection(old(cache.View()), now, Budget(triggers), limits.maxJobsPerProbe).deferred + |cache.pendingTriggers|
    {
      ghost var was := cache.View();
      var probeBudget;
      triggers, probeBudget := TakeTriggers();
      var deferred: int;
      due, deferred := cache.TakeDueProbes(now, probeBudget, limits.maxJobsPerProbe);
      deferredJobs := deferred + |cache.pendingTriggers|;
      TickIgnoresQueue(was, cache.pendingTriggers, now, probeBudget, limits.maxJobsPerProbe);
    }

    /** What the triggers of a tick leave of its budget. */
    function Budget(triggers: seq<Trigger>): int {
      limits.maxJobsPerTick - |triggers| * limits.maxJobsPerProbe
    }

    /** The head of the queue was taken, and of the due probes what the scheduler selects within the
        rest of the budget. */
    ghost predicate Picks(was: Cache, after: Cache, now: int, due: seq<Snapshot>, triggers: seq<Trigger>)
      requires Usable(limits)
    {
      var n := Taken(was, SlotLimit(limits));
      var budget := Budget(triggers);
      var chosen := Selection(was, now, budget, limits.maxJobsPerProbe).selected;
      && 0 <= n <= |was.queue| && triggers == was.queue[..n] && budget >= 0
      && after == AfterTick(was, now, budget, limits.maxJobsPerProbe).(queue := was.queue[n..])
      && IdsOf(chosen) <= was.probes.Keys && due == Snapshots(was.probes, chosen, budget, limits.maxJobsPerProbe)
    }

    /** runDueProbes up to the point where the checks start: the triggers at the head of the
        queue, then the scheduled probes with what they leave of the budget. `mint` gives
        the fresh run ids. All in all it never starts more than maxJobsPerTick jobs. */
    method StartTick(now: int, mint: nat -> string)
      returns (due: seq<Snapshot>, triggers: seq<Trigger>, jobs: seq<Job>)
      requires Usable(limits)
      modifies this`deferredJobs, cache`probes, cache`pendingTriggers
      ensures Picks(old(cache.View()), cache.View(), now, due, triggers)
      ensures deferredJobs == Selection(old(cache.View()), now, Budget(triggers), limits.maxJobsPerProbe).deferred + |cache.pendingTriggers|
      ensures jobs == ProbeJobs(limits, due, seq(|due|, mint)) + TriggerJobs(limits, cache.probes, triggers)
      ensures |jobs| <= limits.maxJobsPerTick
    {
      ghost var was := cache.View();
      due, triggers := PickWork(now);
      var runIds := seq(|due|, mint);
      var probeJobs := ExecuteProbes(due, runIds);
      var triggerJobs := ExecuteTriggers(triggers);
      jobs := probeJobs + triggerJobs;
      DueJobs(limits, was, now, Budget(triggers), runIds);
      TriggerJobsBound(limits, cache.probes, triggers);
    }
  }

  function SlotLimit(limits: Limits): int
    requires Usable(limits)
  {
    if limits.maxTriggersPerTick * limits.maxJobsPerProbe > limits.maxJobsPerTick
    then limits.maxJobsPerTick / limits.maxJobsPerProbe
    else limits.maxTriggersPerTick
  }

  /** The trigger slots are the most that both limits allow, and at least one. */
  lemma SlotLimitIsGreatest(limits: Limits, n: int)
    requires Usable(limits)
    ensures 1 <= SlotLimit(limits) <= limits.maxTriggersPerTick && SlotLimit(limits) * limits.maxJobsPerProbe <= limits.maxJobsPerTick
    ensures n <= limits.maxTriggersPerTick && n * limits.maxJobsPerProbe <= limits.maxJobsPerTick ==> n <= SlotLimit(limits)
  {
    SlotsFit(limits.maxJobsPerTick, limits.maxJobsPerProbe);
    var q := limits.maxJobsPerTick / limits.maxJobsPerProbe;
    if n > q {
      Scaled(q + 1, n, limits.maxJobsPerProbe);
      assert (q + 1) * limits.maxJobsPerProbe > limits.maxJobsPerTick;
    }
  }

  lemma SlotsFit(maxJobs: int, perProbe: int)
    requires 1 <= perProbe
    ensures maxJobs / perProbe * perProbe <= maxJobs
    ensures perProbe <= maxJobs ==> maxJobs / perProbe >= 1
  {
  }

  lemma TickIgnoresQueue(c: Cache, queue: seq<Trigger>, now: int, maxJobs: int, perProbe: int)
    ensures Selection(c.(queue := queue), now, maxJobs, perProbe) == Selection(c, now, maxJobs, perProbe)
    ensures AfterTick(c.(queue := queue), now, maxJobs, perProbe) == AfterTick(c, now, maxJobs, perProbe).(queue := queue)
  {
  }

  lemma Scaled(a: nat, b: int, factor: int)
    requires a <= b && factor >= 0
    ensures a * factor <= b * factor
  {
  }

  lemma {:induction false} ProbeJobsCount(limits: Limits, due: seq<Snapshot>, runIds: seq<string>)
    requires Usable(limits) && |runIds| == |due|
    requires forall s | s in due :: 1 <= s.probeCount <= limits.maxJobsPerProbe
    ensures |ProbeJobs(limits, due, runIds)| == Scheduler.Jobs(due)
    decreases |due|
  {
    if due != [] {
      var n := |due| - 1;
      assert forall s | s in due[..n] :: s in due;
      assert due[n] in due;
      ProbeJobsCount(limits, due[..n], runIds[..n]);
    }
  }

  /** The selected probes start exactly the jobs that the plan counted. */
  lemma DueJobs(limits: Limits, c: Cache, now: int, budget: int, runIds: seq<string>)
    requires Usable(limits)
    requires IdsOf(Selection(c, now, budget, limits.maxJobsPerProbe).selected) <= c.probes.Keys
    requires |runIds| == |Selection(c, now, budget, limits.maxJobsPerProbe).selected|
    ensures var due := Snapshots(c.probes, Selection(c, now, budget, limits.maxJobsPerProbe).selected, budget, limits.maxJobsPerProbe);
            |ProbeJobs(limits, due, runIds)| == Selection(c, now, budget, limits.maxJobsPerProbe).used <= (if budget > 0 then budget else 0)
  {
    Scheduler.TickBudget(c, now, budget, limits.maxJobsPerProbe);
    var order := Scheduler.DueOrder(c, now);
    RankedIsDistinct(c.probes, DueIds(c.probes, now));
    if budget > 0 { Scheduler.PlanCounts(c.probes, order, budget, limits.maxJobsPerProbe); }
    else { NoBudgetSelectsNone(c.probes, order, budget, limits.maxJobsPerProbe); }
    ProbeJobsCount(limits, Snapshots(c.probes, Selection(c, now, budget, limits.maxJobsPerProbe).selected, budget, limits.maxJobsPerProbe), runIds);
  }

  lemma {:induction false} TriggerJobsBound(limits: Limits, probes: map<string, Cached>, triggers: seq<Trigger>)
    requires Usable(limits)
    ensures |TriggerJobs(limits, probes, triggers)| <= |triggers| * limits.maxJobsPerProbe
    decreases |triggers|
  {
    if triggers != [] {
      TriggerJobsBound(limits, probes, triggers[..|triggers| - 1]);
      OneTriggerBound(limits, probes, triggers);
      OneMoreTimes(|triggers| - 1, limits.maxJobsPerProbe);
    }
  }

  lemma OneTriggerBound(limits: Limits, probes: map<string, Cached>, triggers: seq<Trigger>)
    requires Usable(limits) && triggers != []
    ensures |TriggerJobs(limits, probes, triggers)| <= |TriggerJobs(limits, probes, triggers[..|triggers| - 1])| + limits.maxJobsPerProbe
  {
  }

  lemma OneMoreTimes(n: nat, factor: int)
    ensures (n + 1) * factor == n * factor + factor
  {
  }
}
