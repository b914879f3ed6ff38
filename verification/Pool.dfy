/** The pooled checker: one engine process per slot of jobs, kept warm from batch to batch.
    Calls do not overlap. `digest` is the content hash of a job and taken to be injective. */
module Pool {

  import opened Prelude
  import opened PoolBisect

  datatype PendingJob = PendingJob(idx: nat, key: string, o: Options)

  datatype Instance = Instance(jobsKey: seq<(Content, int)>, jobs: seq<PoolJob>, refs: int, retired: bool)

  /** How the slot loop found things. */
  datatype Entry = Entry(results: seq<Result>, written: seq<nat>, builds: nat, good: bool, warm: bool, pinned: set<string>, offers: nat)

  /** How one slot of a batch was served. */
  datatype Fate = NoPort | Reused | Built | Bisected | Refused

  // ---- Jobs and their results ----

  /** hashJobs: what an engine was built from, ports included. */
  function Identity(jobs: seq<PoolJob>): seq<(Content, int)> {
    seq(|jobs|, i requires 0 <= i < |jobs| => (ContentOf(jobs[i].opts), jobs[i].port))
  }

  function Indices(jobs: seq<PoolJob>): set<nat> {
    set j | j in jobs :: j.idx
  }

  predicate Apart(jobs: seq<PoolJob>) {
    forall i, j | 0 <= i < j < |jobs| :: jobs[i].idx != jobs[j].idx
  }

  predicate InRange(jobs: seq<PoolJob>, n: nat) {
    forall i | 0 <= i < |jobs| :: jobs[i].idx < n
  }

  /** Every job's verdict stands at its own index, under its own target and number. */
  predicate Reports(results: seq<Result>, jobs: seq<PoolJob>, verdicts: seq<Verdict>)
    requires |verdicts| == |jobs|
  {
    forall i | 0 <= i < |jobs| ::
      jobs[i].idx < |results| && results[jobs[i].idx] == Result(jobs[i].opts.target, jobs[i].opts.checkSeq, verdicts[i])
  }

  predicate Spares(before: seq<Result>, after: seq<Result>, touched: set<nat>) {
    |after| == |before| && forall k | 0 <= k < |after| && k !in touched :: after[k] == before[k]
  }

  function Targets(jobs: seq<PoolJob>): seq<nat> {
    seq(|jobs|, i requires 0 <= i < |jobs| => jobs[i].idx)
  }

  lemma SplitJobs(jobs: seq<PoolJob>, mid: nat)
    requires mid <= |jobs| && Apart(jobs)
    ensures Apart(jobs[..mid]) && Apart(jobs[mid..]) && Indices(jobs[..mid]) !! Indices(jobs[mid..])
    ensures Indices(jobs[..mid]) + Indices(jobs[mid..]) == Indices(jobs)
    ensures Targets(jobs[..mid]) + Targets(jobs[mid..]) == Targets(jobs)
  {
  }

  lemma ReportsStay(before: seq<Result>, after: seq<Result>, jobs: seq<PoolJob>, verdicts: seq<Verdict>, touched: set<nat>)
    requires |verdicts| == |jobs| && Reports(before, jobs, verdicts)
    requires Spares(before, after, touched) && Indices(jobs) !! touched
    ensures Reports(after, jobs, verdicts)
  {
  }

  lemma ReportsJoin(results: seq<Result>, a: seq<PoolJob>, b: seq<PoolJob>, v: seq<Verdict>, w: seq<Verdict>)
    requires |v| == |a| && |w| == |b| && Reports(results, a, v) && Reports(results, b, w)
    ensures Reports(results, a + b, v + w)
  {
  }

  lemma Regroup<T>(a: seq<T>, b: seq<T>, c: seq<T>)
    ensures a + b + c == a + (b + c)
  {
  }

  lemma HalvesReport(jobs: seq<PoolJob>, between: seq<Result>, after: seq<Result>, v: seq<Verdict>, w: seq<Verdict>)
    requires Apart(jobs) && |v| == |jobs| / 2 && |w| == |jobs| - |jobs| / 2
    requires Reports(between, jobs[..|jobs| / 2], v) && Reports(after, jobs[|jobs| / 2..], w)
    requires Spares(between, after, Indices(jobs[|jobs| / 2..]))
    ensures Reports(after, jobs, v + w)
  {
  }

  // ---- Ports ----

  predicate InjectivePorts(ports: map<string, int>) {
    forall a, b | a in ports && b in ports && ports[a] == ports[b] :: a == b
  }

  predicate AllPinned(chunk: seq<PendingJob>, ports: map<string, int>) {
    forall i | 0 <= i < |chunk| :: chunk[i].key in ports
  }

  function Pinned(chunk: seq<PendingJob>, ports: map<string, int>): seq<PoolJob>
    requires AllPinned(chunk, ports)
  {
    seq(|chunk|, i requires 0 <= i < |chunk| => PoolJob(chunk[i].idx, chunk[i].key, chunk[i].o, ports[chunk[i].key]))
  }

  /** Some jobs' pins, whatever they turn out to be, for talking about indices only. */
  function Places(chunk: seq<PendingJob>): seq<PoolJob> {
    seq(|chunk|, i requires 0 <= i < |chunk| => PoolJob(chunk[i].idx, chunk[i].key, chunk[i].o, 0))
  }

  lemma SamePlaces(chunk: seq<PendingJob>, ports: map<string, int>)
    requires AllPinned(chunk, ports)
    ensures Indices(Pinned(chunk, ports)) == Indices(Places(chunk)) && Targets(Pinned(chunk, ports)) == Targets(Places(chunk))
    ensures Apart(Places(chunk)) ==> Apart(Pinned(chunk, ports))
    ensures forall n: nat | InRange(Places(chunk), n) :: InRange(Pinned(chunk, ports), n)
  {
    var a, b := Pinned(chunk, ports), Places(chunk);
    assert forall i | 0 <= i < |chunk| :: a[i].idx == b[i].idx && a[i] in a && b[i] in b;
    forall k ensures k in Indices(a) <==> k in Indices(b) {
      if k in Indices(a) { var j :| j in a && j.idx == k; var i :| 0 <= i < |a| && a[i] == j; assert b[i].idx == k; }
      if k in Indices(b) { var j :| j in b && j.idx == k; var i :| 0 <= i < |b| && b[i] == j; assert a[i].idx == k; }
    }
    if Apart(b) {
      forall i, j | 0 <= i < j < |a| ensures a[i].idx != a[j].idx { assert b[i].idx != b[j].idx; }
    }
    forall n: nat | InRange(b, n) ensures InRange(a, n) {
      forall i | 0 <= i < |a| ensures a[i].idx < n { assert b[i].idx < n; }
    }
  }

  // ---- When there is no port ----

  predicate OffersInUse(world: World, used: set<int>, from: nat, to: nat) {
    forall i | from <= i < to :: world.offer(i).Some? && world.offer(i).value in used
  }

  /** The system fails to offer a port before it offers an unused one, or 256 offers are all in use. */
  ghost predicate OffersFail(world: World, used: set<int>, from: nat) {
    exists to: nat :: from <= to <= from + 256 && OffersInUse(world, used, from, to) && (to == from + 256 || world.offer(to).None?)
  }

  predicate RangeFull(world: World, used: set<int>, base: int, span: int) {
    forall p | base <= p < base + span :: p in used || !world.free(p)
  }

  /** Beside those in use there is no port to be had. */
  ghost predicate NoPortLeft(world: World, used: set<int>, base: int, span: int, from: nat) {
    if base > 0 && span > 0 then RangeFull(world, used, base, span) else OffersFail(world, used, from)
  }

  /** Fewer than `pins` ports in use can leave none. */
  ghost predicate Cramped(world: World, pins: nat, base: int, span: int, from: nat) {
    exists used: set<int>, at: nat :: |used| < pins && from <= at && NoPortLeft(world, used, base, span, at)
  }

  /** A batch of these keys had a key without a pin, and its pins can use up the ports. */
  ghost predicate Starved(world: World, pinned: set<string>, live: set<string>, base: int, span: int, from: nat) {
    !(live <= pinned) && Cramped(world, |pinned + live|, base, span, from)
  }

  lemma UnusedOffer(world: World, used: set<int>, from: nat, at: nat)
    requires from <= at < from + 256 && OffersInUse(world, used, from, at)
    requires world.offer(at).Some? && world.offer(at).value !in used
    ensures !OffersFail(world, used, from)
  {
    forall to: nat | from <= to <= from + 256 && OffersInUse(world, used, from, to) ensures to <= at && world.offer(to).Some? {}
  }

  /** Offers that never fail and do not repeat within 256 always leave room for 256 pins. */
  lemma DistinctOffersLeaveRoom(world: World, pins: nat, base: int, span: int, from: nat)
    requires !(base > 0 && span > 0) && pins <= 256
    requires forall i | from <= i :: world.offer(i).Some?
    requires forall i, j | from <= i < j < i + 256 :: world.offer(i) != world.offer(j)
    ensures !Cramped(world, pins, base, span, from)
  {
    forall used: set<int>, at: nat | |used| < pins && from <= at ensures !OffersFail(world, used, at) {
      if OffersInUse(world, used, at, at + 256) { ManyInUse(world, used, at, 256); }
    }
  }

  lemma {:induction false} ManyInUse(world: World, used: set<int>, from: nat, n: nat)
    requires n <= 256 && OffersInUse(world, used, from, from + n)
    requires forall i, j | from <= i < j < from + n :: world.offer(i) != world.offer(j)
    ensures |used| >= n
    decreases n
  {
    if n > 0 {
      var last := world.offer(from + n - 1).value;
      ManyInUse(world, used - {last}, from, n - 1);
    }
  }

  /** A range with as many free ports as pins always leaves room. */
  lemma FreeRangeLeavesRoom(world: World, pins: nat, base: int, span: int, from: nat)
    requires base > 0 && span > 0 && |set p | base <= p < base + span && world.free(p)| >= pins
    ensures !Cramped(world, pins, base, span, from)
  {
    var free := set p | base <= p < base + span && world.free(p);
    forall used: set<int> | |used| < pins ensures !RangeFull(world, used, base, span) {
      if free <= used { SubsetIsSmaller(free, used); }
    }
  }

  class PoolChecker {
    const valid: string -> bool
    const minTimeoutMs: int
    const digest: Content -> string
    const maxJobs: nat
    const portBase: int
    const portSpan: int
    var slots: map<nat, Instance>
    var ports: map<string, int>
    var offers: nat
    ghost var builds: nat
    ghost var written: seq<nat>
    ghost var tested: seq<PoolJob>

    ghost predicate Valid()
      reads this
    {
      && maxJobs >= 1
      && (forall a, b | digest(a) == digest(b) :: a == b)
      && InjectivePorts(ports)
      && forall s | s in slots :: slots[s].refs == 0 && !slots[s].retired
    }

    constructor (valid: string -> bool, minTimeoutMs: int, digest: Content -> string, maxJobs: nat, portBase: int, portSpan: int)
      requires maxJobs >= 1 && forall a, b | digest(a) == digest(b) :: a == b
      ensures Valid() && slots == map[] && ports == map[]
    {
      this.valid, this.minTimeoutMs, this.digest, this.maxJobs := valid, minTimeoutMs, digest, maxJobs;
      this.portBase, this.portSpan := portBase, portSpan;
      slots, ports, offers, builds, written, tested := map[], map[], 0, 0, [], [];
    }

    // ---- One engine ----

    method Write(results: array<Result>, job: PoolJob, verdict: Verdict)
      requires job.idx < results.Length
      modifies results, this`written
      ensures results[..] == old(results[..])[job.idx := Result(job.opts.target, job.opts.checkSeq, verdict)]
      ensures written == old(written) + [job.idx]
    {
      results[job.idx] := Result(job.opts.target, job.opts.checkSeq, verdict);
      written := written + [job.idx];
    }

    method WriteAll(results: array<Result>, jobs: seq<PoolJob>, verdicts: seq<Verdict>)
      requires |verdicts| == |jobs| && Apart(jobs) && InRange(jobs, results.Length)
      modifies results, this`written
      ensures Reports(results[..], jobs, verdicts) && Spares(old(results[..]), results[..], Indices(jobs))
      ensures written == old(written) + Targets(jobs)
    {
      for i := 0 to |jobs|
        invariant Reports(results[..], jobs[..i], verdicts[..i]) && Spares(old(results[..]), results[..], Indices(jobs))
        invariant written == old(written) + Targets(jobs[..i])
      {
        assert jobs[i] in jobs && jobs[i].idx in Indices(jobs);
        assert jobs[..i + 1] == jobs[..i] + [jobs[i]] && verdicts[..i + 1] == verdicts[..i] + [verdicts[i]];
        Write(results, jobs[i], verdicts[i]);
        assert Targets(jobs[..i + 1]) == Targets(jobs[..i]) + [jobs[i].idx];
      }
      assert jobs[..|jobs|] == jobs && verdicts[..|jobs|] == verdicts;
    }

    /** testJobs; every goroutine writes only its own job's result. */
    method TestJobs(world: World, jobs: seq<PoolJob>, results: array<Result>)
      requires Apart(jobs) && InRange(jobs, results.Length)
      modifies results, this`written, this`tested
      ensures Reports(results[..], jobs, AllMeasured(world, jobs)) && Spares(old(results[..]), results[..], Indices(jobs))
      ensures written == old(written) + Targets(jobs) && tested == old(tested) + jobs
    {
      WriteAll(results, jobs, AllMeasured(world, jobs));
      tested := tested + jobs;
    }

    method RunEphemeral(world: World, jobs: seq<PoolJob>, results: array<Result>)
      requires Apart(jobs) && InRange(jobs, results.Length)
      modifies results, this`written, this`tested, this`builds
      ensures Reports(results[..], jobs, Ephemeral(world, jobs)) && Spares(old(results[..]), results[..], Indices(jobs))
      ensures written == old(written) + Targets(jobs) && tested == old(tested) + Tests(world, jobs)
      ensures builds == old(builds) + Builds(world, jobs)
      decreases |jobs|, 1
    {
      builds := builds + 1;
      var err := world.build(jobs);
      if err.Some? {
        if |jobs| > 1 && ShouldBisect(err.value, |jobs|) {
          RunHalves(world, jobs, results);
          return;
        }
        WriteAll(results, jobs, AllFailed(jobs, err.value.message));
        return;
      }
      TestJobs(world, jobs, results);
    }

    method RunHalves(world: World, jobs: seq<PoolJob>, results: array<Result>)
      requires |jobs| > 1 && Apart(jobs) && InRange(jobs, results.Length)
      modifies results, this`written, this`tested, this`builds
      ensures Reports(results[..], jobs, Ephemeral(world, jobs[..|jobs| / 2]) + Ephemeral(world, jobs[|jobs| / 2..]))
      ensures Spares(old(results[..]), results[..], Indices(jobs))
      ensures written == old(written) + Targets(jobs)
      ensures tested == old(tested) + (Tests(world, jobs[..|jobs| / 2]) + Tests(world, jobs[|jobs| / 2..]))
      ensures builds == old(builds) + Builds(world, jobs[..|jobs| / 2]) + Builds(world, jobs[|jobs| / 2..])
      decreases |jobs|, 0
    {
      var mid := |jobs| / 2;
      var left, right := jobs[..mid], jobs[mid..];
      SplitJobs(jobs, mid);
      assert InRange(left, results.Length) && InRange(right, results.Length);
      ghost var log, indices := tested, written;
      ghost var t1, t2 := Tests(world, left), Tests(world, right);
      RunEphemeral(world, left, results);
      ghost var between := results[..];
      RunEphemeral(world, right, results);
      Regroup(log, t1, t2);
      Regroup(indices, Targets(left), Targets(right));
      HalvesReport(jobs, between, results[..], Ephemeral(world, left), Ephemeral(world, right));
    }

    // ---- Ports ----

    /** The first of at most 256 offers that is not in use. */
    method AllocateUniquePort(used: set<int>, world: World) returns (port: Option<int>)
      modifies this`offers
      ensures offers >= old(offers)
      ensures port.None? <==> OffersFail(world, used, old(offers))
      ensures port.Some? ==> port.value !in used && offers > old(offers) && port == world.offer(offers - 1)
                             && OffersInUse(world, used, old(offers), offers - 1)
    {
      for i := 0 to 256
        invariant offers == old(offers) + i && OffersInUse(world, used, old(offers), offers)
      {
        var offered := world.offer(offers);
        offers := offers + 1;
        if offered.None? {
          assert OffersInUse(world, used, old(offers), offers - 1);
          return None;
        }
        if offered.value !in used {
          UnusedOffer(world, used, old(offers), offers - 1);
          return offered;
        }
      }
      return None;
    }

    /** The lowest free port of the node's own range. */
    method AllocateUniquePortInRange(used: set<int>, world: World) returns (port: Option<int>)
      requires portSpan > 0
      ensures port.Some? ==>
                && portBase <= port.value < portBase + portSpan && port.value !in used && world.free(port.value)
                && forall p | portBase <= p < port.value :: p in used || !world.free(p)
      ensures port.None? ==> forall p | portBase <= p < portBase + portSpan :: p in used || !world.free(p)
    {
      var p := portBase;
      while p < portBase + portSpan
        invariant portBase <= p <= portBase + portSpan
        invariant forall q | portBase <= q < p :: q in used || !world.free(q)
      {
        if p !in used && world.free(p) {
          return Some(p);
        }
        p := p + 1;
      }
      return None;
    }

    method AllocatePoolPort(used: set<int>, world: World) returns (port: Option<int>)
      modifies this`offers
      ensures offers >= old(offers)
      ensures port.Some? ==> port.value !in used
      ensures port.None? <==> NoPortLeft(world, used, portBase, portSpan, old(offers))
    {
      if portBase > 0 && portSpan > 0 {
        port := AllocateUniquePortInRange(used, world);
      } else {
        port := AllocateUniquePort(used, world);
      }
    }

    /** A job of the chunk has no pin, and beside the pins there was no port left for it. */
    ghost predicate RanOut(world: World, chunk: seq<PendingJob>, from: nat)
      reads this
    {
      exists i, at: nat :: 0 <= i < |chunk| && from <= at && chunk[i].key !in ports
                           && NoPortLeft(world, ports.Values, portBase, portSpan, at)
    }

    /** Pins a port to every job of a chunk; pins that are there stay as they are. */
    method PinPorts(chunk: seq<PendingJob>, world: World) returns (jobs: seq<PoolJob>, ok: bool)
      requires InjectivePorts(ports)
      modifies this`ports, this`offers
      ensures InjectivePorts(ports)
      ensures forall k | k in old(ports) :: k in ports && ports[k] == old(ports)[k]
      ensures forall k | k in ports && k !in old(ports) :: exists i :: 0 <= i < |chunk| && chunk[i].key == k
      ensures ok ==> AllPinned(chunk, ports) && jobs == Pinned(chunk, ports)
      ensures AllPinned(chunk, old(ports)) ==> ok && ports == old(ports)
      ensures offers >= old(offers) && (!ok ==> RanOut(world, chunk, old(offers)))
    {
      var used := ports.Values;
      jobs := [];
      for i := 0 to |chunk|
        invariant used == ports.Values && InjectivePorts(ports)
        invariant forall k | k in old(ports) :: k in ports && ports[k] == old(ports)[k]
        invariant forall k | k in ports && k !in old(ports) :: exists j :: 0 <= j < i && chunk[j].key == k
        invariant AllPinned(chunk[..i], ports) && jobs == Pinned(chunk[..i], ports)
        invariant AllPinned(chunk, old(ports)) ==> ports == old(ports)
        invariant offers >= old(offers)
      {
        assert chunk[..i + 1] == chunk[..i] + [chunk[i]];
        var key := chunk[i].key;
        if key !in ports {
          var port := AllocatePoolPort(used, world);
          if port.None? {
            return [], false;
          }
          PinnedOneMore(chunk[..i], ports, key, port.value);
          used := used + {port.value};
          ports := ports[key := port.value];
        }
        jobs := jobs + [PoolJob(chunk[i].idx, key, chunk[i].o, ports[key])];
      }
      assert chunk[..|chunk|] == chunk;
      ok := true;
    }

    method ReleaseStalePins(live: set<string>)
      modifies this`ports
      ensures ports == map k | k in old(ports) && k in live :: old(ports)[k]
    {
      ghost var was := ports;
      var rest := ports.Keys;
      while rest != {}
        invariant rest <= was.Keys
        invariant ports == map k | k in was && (k in rest || k in live) :: was[k]
        decreases |rest|
      {
        var k :| k in rest;
        rest := rest - {k};
        if k !in live {
          ports := ports - {k};
        }
      }
    }

    // ---- One slot ----

    ghost predicate OwnKeys(chunk: seq<PendingJob>) {
      forall i | 0 <= i < |chunk| :: chunk[i].key == digest(ContentOf(chunk[i].o))
    }

    /** The slot's engine was built from exactly the jobs with these keys, on their pinned ports. */
    ghost predicate WarmSlot(slot: nat, keys: seq<string>)
      reads this
    {
      slot in slots && WarmFor(slots[slot], ports, digest, keys)
    }

    lemma WarmMatches(slot: nat, chunk: seq<PendingJob>)
      requires Valid() && OwnKeys(chunk) && WarmSlot(slot, KeysOf(chunk))
      ensures AllPinned(chunk, ports) && slots[slot].jobsKey == Identity(Pinned(chunk, ports))
    {
      var keys := KeysOf(chunk);
      assert forall i | 0 <= i < |chunk| :: keys[i] == chunk[i].key;
      var id := Identity(Pinned(chunk, ports));
      forall i | 0 <= i < |chunk| ensures slots[slot].jobsKey[i] == id[i] {
        assert digest(slots[slot].jobsKey[i].0) == keys[i] == digest(ContentOf(chunk[i].o));
      }
    }

    lemma MatchesIsWarm(slot: nat, chunk: seq<PendingJob>)
      requires OwnKeys(chunk) && slot in slots && AllPinned(chunk, ports) && slots[slot].jobsKey == Identity(Pinned(chunk, ports))
      ensures WarmSlot(slot, KeysOf(chunk))
    {
    }

    method ReleaseSlot(slot: nat)
      modifies this`slots
      ensures slot !in old(slots) ==> slots == old(slots)
      ensures slot in old(slots) ==>
                var w := old(slots)[slot].(refs := old(slots)[slot].refs - 1);
                slots == if w.retired && w.refs <= 0 then old(slots) - {slot} else old(slots)[slot := w]
    {
      if slot !in slots {
        return;
      }
      slots := slots[slot := slots[slot].(refs := slots[slot].refs - 1)];
      if slots[slot].retired && slots[slot].refs <= 0 {
        slots := slots - {slot};
        assert slots == old(slots) - {slot};
      }
    }

    /** Runs the jobs against an engine held by one reference, and lets it go. */
    method TestHeld(world: World, slot: nat, jobs: seq<PoolJob>, results: array<Result>)
      requires slot in slots && slots[slot].refs == 1 && !slots[slot].retired
      requires Apart(jobs) && InRange(jobs, results.Length)
      modifies results, this`slots, this`written, this`tested
      ensures Reports(results[..], jobs, AllMeasured(world, jobs)) && Spares(old(results[..]), results[..], Indices(jobs))
      ensures written == old(written) + Targets(jobs) && tested == old(tested) + jobs
      ensures slots == old(slots)[slot := old(slots)[slot].(refs := 0)]
    {
      TestJobs(world, jobs, results);
      ReleaseSlot(slot);
    }

    /** The engine part of runSlot: reuse it, replace it, or take the chunk apart. */
    method ServeSlot(world: World, slot: nat, jobs: seq<PoolJob>, results: array<Result>)
      returns (fate: Fate, ghost verdicts: seq<Verdict>)
      requires Valid() && Apart(jobs) && InRange(jobs, results.Length)
      modifies results, this`slots, this`written, this`tested, this`builds
      ensures Valid() && fate != NoPort
      ensures |verdicts| == |jobs| && Reports(results[..], jobs, verdicts) && Spares(old(results[..]), results[..], Indices(jobs))
      ensures written == old(written) + Targets(jobs)
      ensures forall s | s != slot :: (s in slots <==> s in old(slots)) && (s in slots ==> slots[s] == old(slots)[s])
      ensures fate == Reused <==>
                slot in old(slots) && old(slots)[slot].jobsKey == Identity(jobs) && world.healthy(old(slots)[slot].jobs)
      ensures match fate
              case Reused => slots == old(slots) && builds == old(builds) && verdicts == AllMeasured(world, jobs)
              case Built =>
                && world.build(jobs).None? && builds == old(builds) + 1 && verdicts == AllMeasured(world, jobs)
                && slot in slots && slots[slot].jobsKey == Identity(jobs) && slots[slot].jobs == jobs
              case Bisected =>
                && world.build(jobs).Some? && ShouldBisect(world.build(jobs).value, |jobs|) && slot !in slots
                && builds == old(builds) + 1 + Builds(world, jobs) && verdicts == Ephemeral(world, jobs)
              case Refused =>
                && world.build(jobs).Some? && !ShouldBisect(world.build(jobs).value, |jobs|) && slot !in slots
                && builds == old(builds) + 1 && verdicts == AllFailed(jobs, world.build(jobs).value.message)
              case NoPort => false
    {
      var key := Identity(jobs);
      if slot in slots {
        var w := slots[slot];
        if !w.retired && w.jobsKey == key && world.healthy(w.jobs) {
          slots := slots[slot := w.(refs := w.refs + 1)];
          TestHeld(world, slot, jobs, results);
          assert slots == old(slots);
          return Reused, AllMeasured(world, jobs);
        }
        slots := slots[slot := w.(retired := true)];
        if w.refs == 0 {
          slots := slots - {slot};
        }
      }
      builds := builds + 1;
      var err := world.build(jobs);
      if err.Some? {
        if ShouldBisect(err.value, |jobs|) {
          RunEphemeral(world, jobs, results);
          return Bisected, Ephemeral(world, jobs);
        }
        WriteAll(results, jobs, AllFailed(jobs, err.value.message));
        return Refused, AllFailed(jobs, err.value.message);
      }
      slots := slots[slot := Instance(key, jobs, 1, false)];
      TestHeld(world, slot, jobs, results);
      return Built, AllMeasured(world, jobs);
    }

    /** Pins the chunk's ports, then lets go of those of jobs that left the batch. */
    method PrepareJobs(world: World, slot: nat, chunk: seq<PendingJob>, live: set<string>) returns (jobs: seq<PoolJob>, ok: bool)
      requires Valid() && OwnKeys(chunk) && forall i | 0 <= i < |chunk| :: chunk[i].key in live
      modifies this`ports, this`offers
      ensures InjectivePorts(ports)
      ensures ok ==> AllPinned(chunk, ports) && jobs == Pinned(chunk, ports)
      ensures forall k | k in old(ports) && k in live :: k in ports && ports[k] == old(ports)[k]
      ensures old(WarmSlot(slot, KeysOf(chunk))) ==> ok && WarmSlot(slot, KeysOf(chunk))
      ensures offers >= old(offers) && ports.Keys <= old(ports).Keys + live && (!ok ==> RanOut(world, chunk, old(offers)))
    {
      ghost var warm := WarmSlot(slot, KeysOf(chunk));
      if warm { WarmMatches(slot, chunk); }
      jobs, ok := PinPorts(chunk, world);
      if !ok {
        return;
      }
      ghost var pinned := ports;
      ReleaseStalePins(live);
      StillPinned(chunk, pinned, ports);
      if warm { MatchesIsWarm(slot, chunk); }
    }

    /** Serves a prepared chunk. */
    method RunPrepared(world: World, slot: nat, chunk: seq<PendingJob>, results: array<Result>, ghost bad: Content -> bool)
      returns (fate: Fate, ghost verdicts: seq<Verdict>)
      requires Valid() && OwnKeys(chunk) && Apart(Places(chunk)) && InRange(Places(chunk), results.Length) && AllPinned(chunk, ports)
      modifies results, this`slots, this`written, this`tested, this`builds
      ensures Valid() && fate != NoPort
      ensures |verdicts| == |chunk| && Reports(results[..], Places(chunk), verdicts)
      ensures Spares(old(results[..]), results[..], Indices(Places(chunk)))
      ensures written == old(written) + Targets(Places(chunk))
      ensures forall s | s != slot :: (s in slots <==> s in old(slots)) && (s in slots ==> slots[s] == old(slots)[s])
      ensures fate == Reused || fate == Built ==> WarmSlot(slot, KeysOf(chunk))
      ensures old(WarmSlot(slot, KeysOf(chunk))) && Healthy(world) ==> fate == Reused && builds == old(builds)
      ensures Genuine(world, chunk, verdicts)
      ensures Isolable(world, bad) && old(GoodSlots(slots, bad)) ==> Exact(world, bad, chunk, verdicts) && GoodSlots(slots, bad)
    {
      var jobs := Pinned(chunk, ports);
      SamePlaces(chunk, ports);
      if WarmSlot(slot, KeysOf(chunk)) { WarmMatches(slot, chunk); }
      ghost var was := slots;
      fate, verdicts := ServeSlot(world, slot, jobs, results);
      PlacesReport(results[..], chunk, ports, verdicts);
      if fate == Reused || fate == Built { MatchesIsWarm(slot, chunk); }
      ServedGenuinely(world, chunk, jobs, verdicts);
      if Isolable(world, bad) && GoodSlots(was, bad) {
        ServedAsAlone(world, bad, fate, was, slots, slot, chunk, ports, verdicts);
      }
    }

    method RunSlot(world: World, slot: nat, chunk: seq<PendingJob>, live: set<string>, results: array<Result>, ghost bad: Content -> bool)
      returns (fate: Fate, ghost verdicts: seq<Verdict>)
      requires Valid() && OwnKeys(chunk) && Apart(Places(chunk)) && InRange(Places(chunk), results.Length)
      requires forall i | 0 <= i < |chunk| :: chunk[i].key in live
      modifies results, this`slots, this`ports, this`offers, this`written, this`tested, this`builds
      ensures Valid()
      ensures |verdicts| == |chunk| && Reports(results[..], Places(chunk), verdicts)
      ensures Spares(old(results[..]), results[..], Indices(Places(chunk)))
      ensures written == old(written) + Targets(Places(chunk))
      ensures forall k | k in old(ports) && k in live :: k in ports && ports[k] == old(ports)[k]
      ensures forall s | s != slot :: (s in slots <==> s in old(slots)) && (s in slots ==> slots[s] == old(slots)[s])
      ensures fate == Reused || fate == Built ==> WarmSlot(slot, KeysOf(chunk))
      ensures old(WarmSlot(slot, KeysOf(chunk))) && Healthy(world) ==> fate == Reused && builds == old(builds)
      ensures Genuine(world, chunk, verdicts)
      ensures Isolable(world, bad) && old(GoodSlots(slots, bad)) ==>
                (fate != NoPort ==> Exact(world, bad, chunk, verdicts)) && GoodSlots(slots, bad)
      ensures offers >= old(offers) && ports.Keys <= old(ports).Keys + live
      ensures fate == NoPort ==> RanOut(world, chunk, old(offers))
    {
      var jobs, ok := PrepareJobs(world, slot, chunk, live);
      if !ok {
        verdicts := AllFailed(Places(chunk), "allocate port");
        WriteAll(results, Places(chunk), AllFailed(Places(chunk), "allocate port"));
        return NoPort, verdicts;
      }
      fate, verdicts := RunPrepared(world, slot, chunk, results, bad);
    }

    // ---- One batch ----

    function Normal(o: Options): Options {
      if minTimeoutMs > o.timeoutMs then o.(timeoutMs := minTimeoutMs) else o
    }
    /** A timeout below the module's own is raised to it, and nothing else is touched. */
    lemma NormalExactly(o: Options)
      ensures Normal(o) == o.(timeoutMs := Normal(o).timeoutMs)
      ensures Normal(o).timeoutMs == if o.timeoutMs < minTimeoutMs then minTimeoutMs else o.timeoutMs
    {
    }

    function KeyAt(o: Options): string {
      digest(ContentOf(Normal(o)))
    }

    /** The distinct physical jobs of a batch. */
    function ValidKeys(opts: seq<Options>): set<string> {
      set o | o in opts && valid(o.params) :: KeyAt(o)
    }

    ghost predicate WarmAll(chunks: seq<seq<string>>)
      reads this
    {
      forall s | 0 <= s < |chunks| :: WarmSlot(s, chunks[s])
    }

    /** Every slot of this set of jobs holds an engine built from exactly its share. */
    ghost predicate Warm(keys: set<string>)
      reads this
    {
      maxJobs >= 1 && WarmAll(Chunked(SortedKeys(keys), maxJobs))
    }

    predicate Grouped(opts: seq<Options>, n: nat, groups: map<string, seq<PendingJob>>)
      requires n <= |opts|
    {
      && (forall k | k in groups :: groups[k] != [] && forall p | p in groups[k] ::
            p.idx < n && valid(opts[p.idx].params) && p == PendingJob(p.idx, k, Normal(opts[p.idx])) && k == KeyAt(opts[p.idx]))
      && (forall i | 0 <= i < n && valid(opts[i].params) ::
            KeyAt(opts[i]) in groups && PendingJob(i, KeyAt(opts[i]), Normal(opts[i])) in groups[KeyAt(opts[i])])
    }

    /** Rejects what fails the schema and files the rest by content. */
    method Group(opts: seq<Options>, results: array<Result>) returns (groups: map<string, seq<PendingJob>>, order: seq<string>)
      requires results.Length == |opts| && forall i | 0 <= i < |opts| :: results[i] == NoResult
      modifies results
      ensures Grouped(opts, |opts|, groups)
      ensures (forall k :: k in order <==> k in groups) && (forall i, j | 0 <= i < j < |order| :: order[i] != order[j])
      ensures forall i | 0 <= i < |opts| ::
                results[i] == if valid(opts[i].params) then NoResult else Result(opts[i].target, opts[i].checkSeq, Invalid)
    {
      groups, order := map[], [];
      for i := 0 to |opts|
        invariant Grouped(opts, i, groups)
        invariant (forall k :: k in order <==> k in groups) && (forall a, b | 0 <= a < b < |order| :: order[a] != order[b])
        invariant forall j | 0 <= j < i ::
                    results[j] == if valid(opts[j].params) then NoResult else Result(opts[j].target, opts[j].checkSeq, Invalid)
        invariant forall j | i <= j < |opts| :: results[j] == NoResult
      {
        var o := Normal(opts[i]);
        if !valid(opts[i].params) {
          results[i] := Result(opts[i].target, opts[i].checkSeq, Invalid);
          continue;
        }
        var key := digest(ContentOf(o));
        ghost var was := groups;
        if key !in groups {
          order := order + [key];
          groups := groups[key := []];
        }
        groups := groups[key := groups[key] + [PendingJob(i, key, o)]];
        GroupedOneMore(opts, i, was, groups);
      }
    }

    lemma GroupedOneMore(opts: seq<Options>, i: nat, before: map<string, seq<PendingJob>>, after: map<string, seq<PendingJob>>)
      requires i < |opts| && valid(opts[i].params) && Grouped(opts, i, before)
      requires var key := KeyAt(opts[i]);
               after == before[key := (if key in before then before[key] else []) + [PendingJob(i, key, Normal(opts[i]))]]
      ensures Grouped(opts, i + 1, after)
    {
      var key := KeyAt(opts[i]);
      var was := if key in before then before[key] else [];
      forall k, p | k in after && p in after[k]
        ensures p.idx < i + 1 && valid(opts[p.idx].params) && p == PendingJob(p.idx, k, Normal(opts[p.idx])) && k == KeyAt(opts[p.idx])
      {
        if k == key { assert p in was || p == PendingJob(i, key, Normal(opts[i])); }
        else { assert p in before[k]; }
      }
      assert PendingJob(i, key, Normal(opts[i])) in after[key];
    }

    /** One round of the slot loop, on top of the rounds before. */
    method RunNextSlot(world: World, slot: nat, jobs: seq<PendingJob>, start: nat, end: nat, live: set<string>, results: array<Result>,
                       ghost verdicts: seq<Verdict>, ghost fates: seq<Fate>, ghost chunks: seq<seq<string>>,
                       ghost bad: Content -> bool, ghost good: bool)
      returns (fate: Fate, ghost more: seq<Verdict>)
      requires Valid() && OwnKeys(jobs) && Apart(Places(jobs)) && InRange(Places(jobs), results.Length) && start <= end <= |jobs|
      requires forall i | 0 <= i < |jobs| :: jobs[i].key in live
      requires forall s, k | 0 <= s < |chunks| && k in chunks[s] :: k in live
      requires slot < |chunks| && KeysOf(jobs[start..end]) == chunks[slot]
      requires Served(world, bad, jobs, start, results[..], verdicts, fates, good)
      requires good ==> Isolable(world, bad) && GoodSlots(slots, bad)
      modifies results, this`slots, this`ports, this`offers, this`written, this`tested, this`builds
      ensures Valid()
      ensures Served(world, bad, jobs, end, results[..], verdicts + more, fates + [fate], good)
      ensures good ==> GoodSlots(slots, bad)
      ensures Spares(old(results[..]), results[..], Indices(Places(jobs)))
      ensures written == old(written) + Targets(Places(jobs[start..end]))
      ensures Targets(Places(jobs[..end])) == Targets(Places(jobs[..start])) + Targets(Places(jobs[start..end]))
      ensures forall s | 0 <= s < |chunks| && s != slot && old(WarmSlot(s, chunks[s])) :: WarmSlot(s, chunks[s])
      ensures fate == Reused || fate == Built ==> WarmSlot(slot, chunks[slot])
      ensures old(WarmSlot(slot, chunks[slot])) && Healthy(world) ==> fate == Reused && builds == old(builds)
      ensures offers >= old(offers) && ports.Keys <= old(ports).Keys + live
      ensures forall k | k in old(ports) && k in live :: k in ports
      ensures fate == NoPort ==> RanOut(world, jobs[start..end], old(offers))
    {
      var chunk := jobs[start..end];
      PlacesSplit(jobs, start, end);
      ghost var before, was, pins := results[..], slots, ports;
      fate, more := RunSlot(world, slot, chunk, live, results, bad);
      ReportsStay(before, results[..], Places(jobs[..start]), verdicts, Indices(Places(chunk)));
      ReportsJoin(results[..], Places(jobs[..start]), Places(chunk), verdicts, more);
      VerdictsJoin(world, bad, jobs[..start], chunk, verdicts, more);
      assert jobs[..start] + chunk == jobs[..end];
      forall s | 0 <= s < |chunks| && s != slot && s in was && WarmFor(was[s], pins, digest, chunks[s])
        ensures WarmSlot(s, chunks[s])
      {
        StaysWarm(was[s], pins, ports, digest, chunks[s]);
      }
    }

    /** The slots still to come are warm and the ones behind were not rebuilt. */
    ghost predicate StillWarm(chunks: seq<seq<string>>, slot: nat, fates: seq<Fate>)
      reads this
    {
      && (forall s | 0 <= s < |fates| :: fates[s] == Reused)
      && forall s | slot <= s < |chunks| :: WarmSlot(s, chunks[s])
    }

    ghost predicate WarmBehind(chunks: seq<seq<string>>, fates: seq<Fate>)
      reads this
      requires |fates| <= |chunks|
    {
      forall s | 0 <= s < |fates| && (fates[s] == Reused || fates[s] == Built) :: WarmSlot(s, chunks[s])
    }

    /** The slot loop. `jobs` come in canonical order; slot n serves the n-th chunk. */
    method RunSlots(world: World, jobs: seq<PendingJob>, live: set<string>, results: array<Result>,
                    ghost chunks: seq<seq<string>>, ghost bad: Content -> bool)
      returns (fates: seq<Fate>, ghost verdicts: seq<Verdict>)
      requires Valid() && OwnKeys(jobs) && Apart(Places(jobs)) && InRange(Places(jobs), results.Length)
      requires forall i | 0 <= i < |jobs| :: jobs[i].key in live
      requires chunks == Chunked(KeysOf(jobs), maxJobs) && forall s, k | 0 <= s < |chunks| && k in chunks[s] :: k in live
      modifies results, this`slots, this`ports, this`offers, this`written, this`tested, this`builds
      ensures Valid() && |fates| == |chunks|
      ensures Served(world, bad, jobs, |jobs|, results[..], verdicts, fates, old(Isolable(world, bad) && GoodSlots(slots, bad)))
      ensures old(Isolable(world, bad) && GoodSlots(slots, bad)) ==> GoodSlots(slots, bad)
      ensures Spares(old(results[..]), results[..], Indices(Places(jobs)))
      ensures written == old(written) + Targets(Places(jobs))
      ensures WarmBehind(chunks, fates)
      ensures old(WarmAll(chunks)) && Healthy(world) ==> StillWarm(chunks, |chunks|, fates) && builds == old(builds)
      ensures NoPort in fates ==> Starved(world, old(ports).Keys, live, portBase, portSpan, old(offers))
    {
      ghost var at := Entry(results[..], written, builds, Isolable(world, bad) && GoodSlots(slots, bad), WarmAll(chunks) && Healthy(world),
                            ports.Keys, offers);
      fates, verdicts := [], [];
      var start, slot := 0, 0;
      assert KeysOf(jobs)[0..] == KeysOf(jobs) && jobs[..0] == [] && Places(jobs[..0]) == [];
      while start < |jobs|
        invariant 0 <= start <= |jobs| && slot == |fates|
        invariant InLoop(world, bad, at, jobs, start, chunks, results[..], verdicts, fates) && PinsInLoop(world, at, live, fates)
        decreases |jobs| - start
      {
        var end := start + maxJobs;
        if end > |jobs| { end := |jobs|; }
        var fate: Fate;
        ghost var more: seq<Verdict>;
        fate, more := AdvanceSlot(world, slot, jobs, start, end, live, results, verdicts, fates, chunks, bad, at);
        fates, verdicts := fates + [fate], verdicts + more;
        start, slot := end, slot + 1;
      }
      assert jobs[..|jobs|] == jobs;
    }

    /** What holds between two rounds of the slot loop that was entered with `at`. */
    ghost predicate InLoop(world: World, bad: Content -> bool, at: Entry, jobs: seq<PendingJob>, start: nat, chunks: seq<seq<string>>,
                           results: seq<Result>, verdicts: seq<Verdict>, fates: seq<Fate>)
      reads this
    {
      && Valid() && start <= |jobs| && |fates| <= |chunks|
      && Chunked(KeysOf(jobs)[start..], maxJobs) == chunks[|fates|..]
      && Served(world, bad, jobs, start, results, verdicts, fates, at.good)
      && (at.good ==> GoodSlots(slots, bad))
      && Spares(at.results, results, Indices(Places(jobs)))
      && written == at.written + Targets(Places(jobs[..start]))
      && WarmBehind(chunks, fates)
      && (at.warm ==> StillWarm(chunks, |fates|, fates) && builds == at.builds)
    }

    /** And of the pins: those of the batch's jobs stay, and a job finds no port only when the
        batch is starved. */
    ghost predicate PinsInLoop(world: World, at: Entry, live: set<string>, fates: seq<Fate>)
      reads this
    {
      && offers >= at.offers && ports.Keys <= at.pinned + live && at.pinned * live <= ports.Keys
      && (NoPort in fates ==> Starved(world, at.pinned, live, portBase, portSpan, at.offers))
    }

    lemma RanOutIsStarved(world: World, chunk: seq<PendingJob>, pinned: set<string>, live: set<string>, from: nat, since: nat)
      requires RanOut(world, chunk, from) && from >= since
      requires ports.Keys <= pinned + live && pinned * live <= ports.Keys
      requires forall i | 0 <= i < |chunk| :: chunk[i].key in live
      ensures Starved(world, pinned, live, portBase, portSpan, since)
    {
      var i, at: nat :| 0 <= i < |chunk| && from <= at && chunk[i].key !in ports && NoPortLeft(world, ports.Values, portBase, portSpan, at);
      var key := chunk[i].key;
      assert key in live && key !in pinned;
      FewerValues(ports);
      SubsetIsSmaller(ports.Keys, pinned + live - {key});
      assert |pinned + live - {key}| < |pinned + live|;
      assert |ports.Values| < |pinned + live| && since <= at;
    }

    /** One whole round: the chunk is cut out, served, and the books brought up to date. */
    method AdvanceSlot(world: World, slot: nat, jobs: seq<PendingJob>, start: nat, end: nat, live: set<string>, results: array<Result>,
                       ghost verdicts: seq<Verdict>, ghost fates: seq<Fate>, ghost chunks: seq<seq<string>>,
                       ghost bad: Content -> bool, ghost at: Entry)
      returns (fate: Fate, ghost more: seq<Verdict>)
      requires InLoop(world, bad, at, jobs, start, chunks, results[..], verdicts, fates)
      requires slot == |fates| && start < |jobs| && end == (if start + maxJobs > |jobs| then |jobs| else start + maxJobs)
      requires OwnKeys(jobs) && Apart(Places(jobs)) && InRange(Places(jobs), results.Length)
      requires forall i | 0 <= i < |jobs| :: jobs[i].key in live
      requires forall s, k | 0 <= s < |chunks| && k in chunks[s] :: k in live
      requires (at.good ==> Isolable(world, bad)) && (at.warm ==> Healthy(world)) && PinsInLoop(world, at, live, fates)
      modifies results, this`slots, this`ports, this`offers, this`written, this`tested, this`builds
      ensures InLoop(world, bad, at, jobs, end, chunks, results[..], verdicts + more, fates + [fate])
      ensures PinsInLoop(world, at, live, fates + [fate])
    {
      ChunkAt(KeysOf(jobs), chunks, start, end, slot, maxJobs);
      KeysOfSlice(jobs, start, end);
      ghost var before := results[..];
      ghost var since := offers;
      fate, more := RunNextSlot(world, slot, jobs, start, end, live, results, verdicts, fates, chunks, bad, at.good);
      if fate == NoPort { RanOutIsStarved(world, jobs[start..end], at.pinned, live, since, at.offers); }
      SparesTwice(at.results, before, results[..], Indices(Places(jobs)));
      Regroup(at.written, Targets(Places(jobs[..start])), Targets(Places(jobs[start..end])));
    }

    // ---- CheckBatch ----

    /** Canonical order: the first option of every key, by key. */
    method Canonicalise(groups: map<string, seq<PendingJob>>, order: seq<string>) returns (jobs: seq<PendingJob>)
      requires forall k | k in groups :: groups[k] != [] && groups[k][0].key == k
      requires (forall k :: k in order <==> k in groups) && (forall i, j | 0 <= i < j < |order| :: order[i] != order[j])
      ensures Firsts(groups, order, jobs)
    {
      jobs := [];
      for i := 0 to |order|
        invariant Firsts(groups, order[..i], jobs)
      {
        assert order[i] in order;
        var job := groups[order[i]][0];
        var at := Place(KeysOf(jobs), job.key);
        assert forall j | 0 <= j < |jobs| :: KeysOf(jobs)[j] == jobs[j].key;
        FirstsOneMore(groups, order[..i], jobs, order[i], at);
        jobs := jobs[..at] + [job] + jobs[at..];
        assert order[..i + 1] == order[..i] + [order[i]];
      }
      assert order[..|order|] == order;
    }

    /** What the fan-out leaves at index i. */
    function Final(opts: seq<Options>, groups: map<string, seq<PendingJob>>, before: seq<Result>, i: nat): Result
      requires i < |opts| == |before| && Grouped(opts, |opts|, groups)
    {
      if !valid(opts[i].params) then before[i]
      else
        var first := groups[KeyAt(opts[i])][0];
        assert first in groups[KeyAt(opts[i])];
        before[first.idx].(checkSeq := opts[i].checkSeq)
    }

    /** Copies every canonical result to the duplicates of its job, under their own numbers. */
    method FanOut(opts: seq<Options>, groups: map<string, seq<PendingJob>>, results: array<Result>)
      requires results.Length == |opts| && Grouped(opts, |opts|, groups)
      requires forall k | k in groups ::
                 groups[k][0] in groups[k] && results[groups[k][0].idx].checkSeq == opts[groups[k][0].idx].checkSeq
      modifies results
      ensures forall i | 0 <= i < |opts| :: results[i] == Final(opts, groups, old(results[..]), i)
    {
      ghost var before := results[..];
      var rest := groups.Keys;
      while rest != {}
        invariant rest <= groups.Keys
        invariant forall i | 0 <= i < |opts| ::
                    results[i] == if valid(opts[i].params) && KeyAt(opts[i]) !in rest then Final(opts, groups, before, i) else before[i]
        decreases |rest|
      {
        var key :| key in rest;
        var group := groups[key];
        assert group[0] in group;
        FanOutGroup(opts, groups, key, results, before);
        rest := rest - {key};
      }
    }

    method FanOutGroup(opts: seq<Options>, groups: map<string, seq<PendingJob>>, key: string, results: array<Result>, ghost before: seq<Result>)
      requires results.Length == |opts| == |before| && Grouped(opts, |opts|, groups) && key in groups
      requires groups[key][0] in groups[key] && before[groups[key][0].idx].checkSeq == opts[groups[key][0].idx].checkSeq
      requires forall i | 0 <= i < |opts| && valid(opts[i].params) && KeyAt(opts[i]) == key :: results[i] == before[i]
      modifies results
      ensures forall i | 0 <= i < |opts| ::
                results[i] == if valid(opts[i].params) && KeyAt(opts[i]) == key then Final(opts, groups, before, i) else old(results[i])
    {
      var group := groups[key];
      var canonical := results[group[0].idx];
      for j := 1 to |group|
        invariant forall i | 0 <= i < |opts| ::
                    || results[i] == old(results[i])
                    || (valid(opts[i].params) && KeyAt(opts[i]) == key && results[i] == Final(opts, groups, before, i))
        invariant forall p | p in group[..j] :: results[p.idx] == Final(opts, groups, before, p.idx)
      {
        assert group[..j + 1] == group[..j] + [group[j]];
        assert group[j] in group;
        results[group[j].idx] := canonical.(checkSeq := group[j].o.checkSeq);
        assert forall p | p in group[..j] :: p in group;
      }
      assert group[..|group|] == group;
      forall i | 0 <= i < |opts| && valid(opts[i].params) && KeyAt(opts[i]) == key
        ensures results[i] == Final(opts, groups, before, i)
      {
        var p := PendingJob(i, key, Normal(opts[i]));
        assert p in group;
        assert results[p.idx] == Final(opts, groups, before, p.idx);
      }
    }

    lemma CanonicalJobs(opts: seq<Options>, groups: map<string, seq<PendingJob>>, order: seq<string>, jobs: seq<PendingJob>)
      requires Grouped(opts, |opts|, groups) && Firsts(groups, order, jobs) && forall k :: k in order <==> k in groups
      ensures OwnKeys(jobs) && Apart(Places(jobs)) && InRange(Places(jobs), |opts|)
      ensures forall j | 0 <= j < |jobs| ::
                && jobs[j].idx < |opts| && valid(opts[jobs[j].idx].params)
                && jobs[j] == PendingJob(jobs[j].idx, KeyAt(opts[jobs[j].idx]), Normal(opts[jobs[j].idx]))
      ensures KeysOf(jobs) == SortedKeys(ValidKeys(opts)) && forall k :: k in KeysOf(jobs) <==> k in ValidKeys(opts)
    {
      forall j | 0 <= j < |jobs|
        ensures jobs[j].idx < |opts| && valid(opts[jobs[j].idx].params)
        ensures jobs[j] == PendingJob(jobs[j].idx, KeyAt(opts[jobs[j].idx]), Normal(opts[jobs[j].idx]))
      {
        assert jobs[j] in jobs && jobs[j] in groups[jobs[j].key];
      }
      CanonicalKeys(opts, groups, order, jobs);
      forall i, j | 0 <= i < j < |jobs| ensures Places(jobs)[i].idx != Places(jobs)[j].idx {
        assert Less(KeysOf(jobs)[i], KeysOf(jobs)[j]);
        LessIsTotal(jobs[i].key, jobs[j].key);
        LessIsTotal(jobs[i].key, jobs[i].key);
      }
    }

    lemma CanonicalKeys(opts: seq<Options>, groups: map<string, seq<PendingJob>>, order: seq<string>, jobs: seq<PendingJob>)
      requires Grouped(opts, |opts|, groups) && Firsts(groups, order, jobs) && forall k :: k in order <==> k in groups
      ensures KeysOf(jobs) == SortedKeys(ValidKeys(opts)) && forall k :: k in KeysOf(jobs) <==> k in ValidKeys(opts)
    {
      var keys := KeysOf(jobs);
      forall k ensures k in keys <==> k in ValidKeys(opts) {
        if k in keys {
          var j :| 0 <= j < |jobs| && jobs[j].key == k;
          assert jobs[j] in jobs && jobs[j] in groups[k];
          assert opts[jobs[j].idx] in opts;
        }
        if k in ValidKeys(opts) {
          var o :| o in opts && valid(o.params) && KeyAt(o) == k;
          var i :| 0 <= i < |opts| && opts[i] == o;
          assert KeyAt(opts[i]) in groups;
        }
      }
      AscendingIsSorted(keys, ValidKeys(opts));
    }

    /** Result i is its own option's, with the verdict of that option's job. */
    predicate Answers(opts: seq<Options>, i: nat, result: Result, keys: seq<string>, verdicts: seq<Verdict>)
      requires i < |opts| && |verdicts| == |keys|
    {
      if !valid(opts[i].params) then result == Result(opts[i].target, opts[i].checkSeq, Invalid)
      else exists j :: 0 <= j < |keys| && keys[j] == KeyAt(opts[i]) && result == Result(opts[i].target, opts[i].checkSeq, verdicts[j])
    }

    lemma FinalAnswers(opts: seq<Options>, groups: map<string, seq<PendingJob>>, order: seq<string>, jobs: seq<PendingJob>,
                       verdicts: seq<Verdict>, before: seq<Result>, i: nat)
      requires Valid() && Grouped(opts, |opts|, groups) && Firsts(groups, order, jobs) && forall k :: k in order <==> k in groups
      requires i < |opts| == |before| && |verdicts| == |jobs| && Reports(before, Places(jobs), verdicts)
      requires !valid(opts[i].params) ==> before[i] == Result(opts[i].target, opts[i].checkSeq, Invalid)
      ensures Answers(opts, i, Final(opts, groups, before, i), KeysOf(jobs), verdicts)
    {
    }

    /** What one option comes to when it is checked alone. */
    ghost predicate AsIfAlone(world: World, bad: Content -> bool, o: Options, result: Result) {
      && result.target == o.target && result.checkSeq == o.checkSeq
      && if !valid(o.params) then result.verdict == Invalid else Alone(world, bad, ContentOf(Normal(o)), result.verdict)
    }

    lemma AnswersAlone(world: World, bad: Content -> bool, opts: seq<Options>, jobs: seq<PendingJob>, verdicts: seq<Verdict>, results: seq<Result>)
      requires Valid() && |results| == |opts| && |verdicts| == |jobs| && OwnKeys(jobs) && Exact(world, bad, jobs, verdicts)
      requires forall i | 0 <= i < |opts| :: Answers(opts, i, results[i], KeysOf(jobs), verdicts)
      ensures forall i | 0 <= i < |opts| :: AsIfAlone(world, bad, opts[i], results[i])
    {
    }

    /** The keys of the batch, each handled once, in canonical order. */
    ghost predicate HandledOnce(opts: seq<Options>, keys: seq<string>, handled: seq<nat>) {
      && |handled| == |keys|
      && forall j | 0 <= j < |keys| :: handled[j] < |opts| && valid(opts[handled[j]].params) && KeyAt(opts[handled[j]]) == keys[j]
    }

    lemma CanonicalHandled(opts: seq<Options>, jobs: seq<PendingJob>)
      requires forall j | 0 <= j < |jobs| ::
                 jobs[j].idx < |opts| && valid(opts[jobs[j].idx].params) && jobs[j].key == KeyAt(opts[jobs[j].idx])
      ensures HandledOnce(opts, KeysOf(jobs), Targets(Places(jobs)))
    {
    }

    /** The batch's jobs in canonical order, with what the slot loop needs to know of them. */
    method CanonicalBatch(opts: seq<Options>, groups: map<string, seq<PendingJob>>, order: seq<string>)
      returns (jobs: seq<PendingJob>, live: set<string>)
      requires maxJobs >= 1 && Grouped(opts, |opts|, groups)
      requires (forall k :: k in order <==> k in groups) && (forall i, j | 0 <= i < j < |order| :: order[i] != order[j])
      ensures Firsts(groups, order, jobs) && OwnKeys(jobs) && Apart(Places(jobs)) && InRange(Places(jobs), |opts|)
      ensures forall j | 0 <= j < |jobs| :: jobs[j].idx < |opts| && valid(opts[jobs[j].idx].params)
      ensures KeysOf(jobs) == SortedKeys(ValidKeys(opts)) && HandledOnce(opts, KeysOf(jobs), Targets(Places(jobs)))
      ensures (forall j | 0 <= j < |jobs| :: jobs[j].key in live) && live == ValidKeys(opts)
      ensures var chunks := Chunked(KeysOf(jobs), maxJobs); forall s, k | 0 <= s < |chunks| && k in chunks[s] :: k in live
    {
      assert forall k | k in groups :: groups[k] != [] && groups[k][0] in groups[k];
      jobs := Canonicalise(groups, order);
      CanonicalJobs(opts, groups, order, jobs);
      CanonicalHandled(opts, jobs);
      live := set p | p in jobs :: p.key;
      assert forall j | 0 <= j < |jobs| :: jobs[j] in jobs;
      LiveIsValid(jobs, ValidKeys(opts));
      LiveChunks(jobs, live, maxJobs);
    }

    /** The slots, once the batch has been grouped. */
    method ServeGroups(world: World, opts: seq<Options>, groups: map<string, seq<PendingJob>>, order: seq<string>, results: array<Result>,
                       ghost bad: Content -> bool, ghost good: bool)
      returns (jobs: seq<PendingJob>, fates: seq<Fate>, ghost verdicts: seq<Verdict>)
      requires Valid() && results.Length == |opts| && Grouped(opts, |opts|, groups)
      requires (forall k :: k in order <==> k in groups) && (forall i, j | 0 <= i < j < |order| :: order[i] != order[j])
      requires good == (Isolable(world, bad) && GoodSlots(slots, bad))
      modifies results, this`slots, this`ports, this`offers, this`written, this`tested, this`builds
      ensures Valid() && Firsts(groups, order, jobs) && OwnKeys(jobs)
      ensures KeysOf(jobs) == SortedKeys(ValidKeys(opts)) && HandledOnce(opts, KeysOf(jobs), Targets(Places(jobs)))
      ensures Served(world, bad, jobs, |jobs|, results[..], verdicts, fates, good) && (good ==> GoodSlots(slots, bad))
      ensures forall i | 0 <= i < |opts| && !valid(opts[i].params) :: results[i] == old(results[i])
      ensures written == old(written) + Targets(Places(jobs)) && |fates| == |Chunked(KeysOf(jobs), maxJobs)|
      ensures AllWarm(fates) ==> Warm(ValidKeys(opts))
      ensures old(Warm(ValidKeys(opts))) && Healthy(world) ==> (forall f | f in fates :: f == Reused) && builds == old(builds)
      ensures NoPort in fates ==> Starved(world, old(ports).Keys, ValidKeys(opts), portBase, portSpan, old(offers))
    {
      var live: set<string>;
      jobs, live := CanonicalBatch(opts, groups, order);
      ghost var was := results[..];
      fates, verdicts := RunSlots(world, jobs, live, results, Chunked(KeysOf(jobs), maxJobs), bad);
      KeptInvalid(opts, jobs, was, results[..]);
    }

    /** The fan-out, once every job has its verdict. */
    method FinishGroups(opts: seq<Options>, groups: map<string, seq<PendingJob>>, ghost order: seq<string>, ghost jobs: seq<PendingJob>,
                        results: array<Result>, ghost verdicts: seq<Verdict>)
      requires Valid() && results.Length == |opts| && Grouped(opts, |opts|, groups)
      requires (forall k :: k in order <==> k in groups) && Firsts(groups, order, jobs)
      requires |verdicts| == |jobs| && Reports(results[..], Places(jobs), verdicts)
      requires forall i | 0 <= i < |opts| && !valid(opts[i].params) :: results[i] == Result(opts[i].target, opts[i].checkSeq, Invalid)
      modifies results
      ensures Valid() && forall i | 0 <= i < |opts| :: Answers(opts, i, results[i], KeysOf(jobs), verdicts)
    {
      ghost var before := results[..];
      forall k | k in groups ensures groups[k][0] in groups[k] && before[groups[k][0].idx].checkSeq == opts[groups[k][0].idx].checkSeq {
        FirstReported(groups, order, jobs, verdicts, before, k);
      }
      FanOut(opts, groups, results);
      forall i | 0 <= i < |opts| ensures Answers(opts, i, results[i], KeysOf(jobs), verdicts) {
        FinalAnswers(opts, groups, order, jobs, verdicts, before, i);
      }
    }

    /** The slots and the fan-out. */
    method RunGroups(world: World, opts: seq<Options>, groups: map<string, seq<PendingJob>>, order: seq<string>, results: array<Result>,
                     ghost bad: Content -> bool)
      returns (out: seq<Result>, fates: seq<Fate>, ghost verdicts: seq<Verdict>, ghost handled: seq<nat>)
      requires Valid() && results.Length == |opts| && Grouped(opts, |opts|, groups)
      requires (forall k :: k in order <==> k in groups) && (forall i, j | 0 <= i < j < |order| :: order[i] != order[j])
      requires forall i | 0 <= i < |opts| && !valid(opts[i].params) :: results[i] == Result(opts[i].target, opts[i].checkSeq, Invalid)
      modifies results, this`slots, this`ports, this`offers, this`written, this`tested, this`builds
      ensures Valid() && |out| == |opts|
      ensures var keys := SortedKeys(ValidKeys(opts));
              && |verdicts| == |keys| && (forall i | 0 <= i < |opts| :: Answers(opts, i, out[i], keys, verdicts))
              && written == old(written) + handled && HandledOnce(opts, keys, handled)
              && |fates| == |Chunked(keys, maxJobs)|
      ensures AllWarm(fates) ==> Warm(ValidKeys(opts))
      ensures old(Warm(ValidKeys(opts))) && Healthy(world) ==> (forall f | f in fates :: f == Reused) && builds == old(builds)
      ensures NoPort in fates ==> Starved(world, old(ports).Keys, ValidKeys(opts), portBase, portSpan, old(offers))
      ensures Isolable(world, bad) && old(GoodSlots(slots, bad)) ==>
                && GoodSlots(slots, bad)
                && (NoPort !in fates ==> forall i | 0 <= i < |opts| :: AsIfAlone(world, bad, opts[i], out[i]))
    {
      ghost var good := Isolable(world, bad) && GoodSlots(slots, bad);
      var jobs: seq<PendingJob>;
      jobs, fates, verdicts := ServeGroups(world, opts, groups, order, results, bad, good);
      handled := Targets(Places(jobs));
      assert jobs[..|jobs|] == jobs;
      FinishGroups(opts, groups, order, jobs, results, verdicts);
      out := results[..];
      if good && NoPort !in fates { AnswersAlone(world, bad, opts, jobs, verdicts, out); }
    }

    lemma KeptInvalid(opts: seq<Options>, jobs: seq<PendingJob>, was: seq<Result>, before: seq<Result>)
      requires |was| == |opts| && Spares(was, before, Indices(Places(jobs)))
      requires forall j | 0 <= j < |jobs| :: jobs[j].idx < |opts| && valid(opts[jobs[j].idx].params)
      ensures forall i | 0 <= i < |opts| && !valid(opts[i].params) :: before[i] == was[i]
    {
    }

    lemma FirstReported(groups: map<string, seq<PendingJob>>, order: seq<string>, jobs: seq<PendingJob>, verdicts: seq<Verdict>, before: seq<Result>, k: string)
      requires Firsts(groups, order, jobs) && (forall x :: x in order <==> x in groups) && k in groups && groups[k] != []
      requires |verdicts| == |jobs| && Reports(before, Places(jobs), verdicts)
      ensures groups[k][0].idx < |before| && before[groups[k][0].idx].checkSeq == groups[k][0].o.checkSeq
    {
      assert k in KeysOf(jobs);
      var j :| 0 <= j < |jobs| && KeysOf(jobs)[j] == k;
      assert jobs[j] in jobs && Places(jobs)[j].idx == jobs[j].idx;
    }

    /** CheckBatch. Result i carries option i's target and number; it is Invalid exactly when
        the params fail the schema and otherwise has the one verdict of its content. Each
        distinct content is handled once. When the slots are warm for this set of contents
        and their engines healthy, nothing is built, whatever the order or the duplicates;
        and when only bad contents keep engines from starting, every result is what its
        option would have come to alone, unless ports run out for a content without a pin. */
    method CheckBatch(world: World, opts: seq<Options>, ghost bad: Content -> bool)
      returns (out: seq<Result>, fates: seq<Fate>, ghost verdicts: seq<Verdict>, ghost handled: seq<nat>)
      requires Valid()
      modifies this`slots, this`ports, this`offers, this`written, this`tested, this`builds
      ensures Valid() && |out| == |opts|
      ensures var keys := SortedKeys(ValidKeys(opts));
              && |verdicts| == |keys| && (forall i | 0 <= i < |opts| :: Answers(opts, i, out[i], keys, verdicts))
              && written == old(written) + handled && HandledOnce(opts, keys, handled)
              && |fates| == |Chunked(keys, maxJobs)|
      ensures AllWarm(fates) ==> Warm(ValidKeys(opts))
      ensures old(Warm(ValidKeys(opts))) && Healthy(world) ==> (forall f | f in fates :: f == Reused) && builds == old(builds)
      ensures NoPort in fates ==> Starved(world, old(ports).Keys, ValidKeys(opts), portBase, portSpan, old(offers))
      ensures Isolable(world, bad) && old(GoodSlots(slots, bad)) ==>
                && GoodSlots(slots, bad)
                && (NoPort !in fates ==> forall i | 0 <= i < |opts| :: AsIfAlone(world, bad, opts[i], out[i]))
    {
      var results := new Result[|opts|](_ => NoResult);
      var groups, order := Group(opts, results);
      out, fates, verdicts, handled := RunGroups(world, opts, groups, order, results, bad);
    }
  }

  lemma {:induction false} FewerValues(m: map<string, int>)
    ensures |m.Values| <= |m.Keys|
    decreases |m|
  {
    if m != map[] {
      var k :| k in m;
      var rest := m - {k};
      assert rest.Keys == m.Keys - {k} && |rest| < |m|;
      FewerValues(rest);
      forall v | v in m.Values ensures v in rest.Values + {m[k]} {
        var x :| x in m && m[x] == v;
        if x != k { assert x in rest && rest[x] == v; }
      }
      SubsetIsSmaller(m.Values, rest.Values + {m[k]});
    }
  }

  lemma LiveIsValid(jobs: seq<PendingJob>, keys: set<string>)
    requires forall k :: k in KeysOf(jobs) <==> k in keys
    ensures (set p | p in jobs :: p.key) == keys
  {
    forall p | p in jobs ensures p.key in KeysOf(jobs) {
      var i :| 0 <= i < |jobs| && jobs[i] == p;
      assert KeysOf(jobs)[i] == p.key;
    }
    forall k | k in KeysOf(jobs) ensures k in set p | p in jobs :: p.key {
      var i :| 0 <= i < |jobs| && KeysOf(jobs)[i] == k;
      assert jobs[i] in jobs;
    }
  }

  lemma LiveChunks(jobs: seq<PendingJob>, live: set<string>, size: nat)
    requires size >= 1 && forall j | 0 <= j < |jobs| :: jobs[j].key in live
    ensures var chunks := Chunked(KeysOf(jobs), size); forall s, k | 0 <= s < |chunks| && k in chunks[s] :: k in live
  {
    ChunkedMembers(KeysOf(jobs), size);
    forall k | k in KeysOf(jobs) ensures k in live { var i :| 0 <= i < |jobs| && KeysOf(jobs)[i] == k; }
  }

  /** Every option of `a` has one with the same content in `b`. */
  ghost predicate Repeats(c: PoolChecker, a: seq<Options>, b: seq<Options>) {
    forall o: Options | o in a :: exists p: Options :: p in b && ContentOf(c.Normal(p)) == ContentOf(c.Normal(o))
  }

  /** A batch is the same set of jobs whatever the order, however often each is repeated, and
      whichever numbers and probes ask for them. */
  lemma SameContentsSameKeys(c: PoolChecker, a: seq<Options>, b: seq<Options>)
    requires Repeats(c, a, b) && Repeats(c, b, a)
    ensures c.ValidKeys(a) == c.ValidKeys(b)
  {
    RepeatedKeys(c, a, b);
    RepeatedKeys(c, b, a);
  }

  lemma RepeatedKeys(c: PoolChecker, a: seq<Options>, b: seq<Options>)
    requires Repeats(c, a, b)
    ensures c.ValidKeys(a) <= c.ValidKeys(b)
  {
  }

  lemma InsertedInOrder(jobs: seq<PendingJob>, job: PendingJob, at: nat)
    requires Ascending(KeysOf(jobs)) && at <= |jobs| && job.key !in KeysOf(jobs)
    requires forall j | 0 <= j < at :: !Less(job.key, jobs[j].key)
    requires at < |jobs| ==> Less(job.key, jobs[at].key)
    ensures Ascending(KeysOf(jobs[..at] + [job] + jobs[at..]))
  {
    var keys := KeysOf(jobs);
    var more := KeysOf(jobs[..at] + [job] + jobs[at..]);
    forall j | 0 <= j < at ensures Less(keys[j], job.key) {
      assert keys[j] == jobs[j].key && keys[j] in keys;
      LessIsTotal(keys[j], job.key);
    }
    forall j | at <= j < |keys| ensures Less(job.key, keys[j]) {
      if j > at { LessIsTransitive(job.key, keys[at], keys[j]); }
    }
    AscendingInsert(keys, job.key, at);
    assert more == keys[..at] + [job.key] + keys[at..];
  }

  lemma AscendingInsert(keys: seq<string>, k: string, at: nat)
    requires Ascending(keys) && at <= |keys|
    requires (forall j | 0 <= j < at :: Less(keys[j], k)) && (forall j | at <= j < |keys| :: Less(k, keys[j]))
    ensures Ascending(keys[..at] + [k] + keys[at..])
  {
  }

  /** `jobs` are the first options of the keys seen, in ascending order. */
  ghost predicate Firsts(groups: map<string, seq<PendingJob>>, seen: seq<string>, jobs: seq<PendingJob>) {
    && Ascending(KeysOf(jobs))
    && (forall p | p in jobs :: p.key in seen && p.key in groups && groups[p.key] != [] && p == groups[p.key][0])
    && (forall k | k in seen :: k in KeysOf(jobs))
  }

  lemma FirstsMembers(jobs: seq<PendingJob>, job: PendingJob, at: nat)
    requires at <= |jobs|
    ensures forall p :: p in jobs[..at] + [job] + jobs[at..] <==> p in jobs || p == job
  {
  }

  lemma FirstsOneMore(groups: map<string, seq<PendingJob>>, seen: seq<string>, jobs: seq<PendingJob>, key: string, at: nat)
    requires Firsts(groups, seen, jobs) && key !in seen && key in groups && groups[key] != [] && groups[key][0].key == key
    requires at <= |jobs| && forall j | 0 <= j < at :: !Less(key, jobs[j].key)
    requires at < |jobs| ==> Less(key, jobs[at].key)
    ensures Firsts(groups, seen + [key], jobs[..at] + [groups[key][0]] + jobs[at..])
  {
    var job := groups[key][0];
    assert forall i | 0 <= i < |jobs| :: jobs[i] in jobs && KeysOf(jobs)[i] == jobs[i].key;
    InsertedInOrder(jobs, job, at);
    FirstsMembers(jobs, job, at);
    FirstsCover(jobs, job, at);
  }

  lemma FirstsCover(jobs: seq<PendingJob>, job: PendingJob, at: nat)
    requires at <= |jobs|
    ensures forall k :: k in KeysOf(jobs[..at] + [job] + jobs[at..]) <==> k in KeysOf(jobs) || k == job.key
  {
    var a, b := jobs[..at], jobs[at..];
    assert KeysOf(a + [job] + b) == KeysOf(a) + [job.key] + KeysOf(b);
    assert KeysOf(jobs) == KeysOf(a) + KeysOf(b);
  }

  lemma KeysOfSlice(jobs: seq<PendingJob>, start: nat, end: nat)
    requires start <= end <= |jobs|
    ensures KeysOf(jobs[start..end]) == KeysOf(jobs)[start..end]
  {
  }

  /** The first `n` jobs have their verdicts in place, and the verdicts are what they should be. */
  predicate Served(world: World, bad: Content -> bool, jobs: seq<PendingJob>, n: nat, results: seq<Result>,
                   verdicts: seq<Verdict>, fates: seq<Fate>, isolable: bool)
  {
    && n <= |jobs| && |verdicts| == n
    && Reports(results, Places(jobs[..n]), verdicts) && Genuine(world, jobs[..n], verdicts)
    && (isolable && NoPort !in fates ==> Exact(world, bad, jobs[..n], verdicts))
  }

  predicate AllWarm(fates: seq<Fate>) {
    forall s | 0 <= s < |fates| :: fates[s] == Reused || fates[s] == Built
  }

  lemma SparesTwice(a: seq<Result>, b: seq<Result>, c: seq<Result>, touched: set<nat>)
    requires Spares(a, b, touched) && Spares(b, c, touched)
    ensures Spares(a, c, touched)
  {
  }

  lemma {:induction false} ChunkedMembers(keys: seq<string>, size: nat)
    requires size >= 1
    ensures forall s, k | 0 <= s < |Chunked(keys, size)| && k in Chunked(keys, size)[s] :: k in keys
    decreases |keys|
  {
    if |keys| > size {
      ChunkedMembers(keys[size..], size);
      var chunks := Chunked(keys, size);
      assert chunks == [keys[..size]] + Chunked(keys[size..], size);
      forall s, k | 0 <= s < |chunks| && k in chunks[s] ensures k in keys {
        if s > 0 { assert chunks[s] == Chunked(keys[size..], size)[s - 1]; assert k in keys[size..]; }
      }
    }
  }

  lemma ChunkAt(keys: seq<string>, chunks: seq<seq<string>>, start: nat, end: nat, slot: nat, size: nat)
    requires size >= 1 && start < |keys| && slot <= |chunks| && Chunked(keys[start..], size) == chunks[slot..]
    requires end == if start + size > |keys| then |keys| else start + size
    ensures slot < |chunks| && chunks[slot] == keys[start..end] && Chunked(keys[end..], size) == chunks[slot + 1..]
  {
  }

  lemma StaysWarm(w: Instance, before: map<string, int>, after: map<string, int>, digest: Content -> string, keys: seq<string>)
    requires WarmFor(w, before, digest, keys)
    requires forall k | k in keys && k in before :: k in after && after[k] == before[k]
    ensures WarmFor(w, after, digest, keys)
  {
  }

  lemma PlacesSplit(jobs: seq<PendingJob>, start: nat, end: nat)
    requires start <= end <= |jobs| && Apart(Places(jobs))
    ensures var a, b := Places(jobs[..start]), Places(jobs[start..end]);
            && Places(jobs[..end]) == a + b && Targets(Places(jobs[..end])) == Targets(a) + Targets(b)
            && Apart(b) && Indices(a) !! Indices(b) && Indices(b) <= Indices(Places(jobs))
            && forall n: nat | InRange(Places(jobs), n) :: InRange(b, n)
  {
    var a, b, all := Places(jobs[..start]), Places(jobs[start..end]), Places(jobs);
    assert a == all[..start] && b == all[start..end] && Places(jobs[..end]) == all[..end];
    SplitJobs(all, end);
    assert all[..end][..start] == a && all[..end][start..] == b;
    SplitJobs(all[..end], start);
    forall n: nat | InRange(all, n) ensures InRange(b, n) {
      forall i | 0 <= i < |b| ensures b[i].idx < n { assert b[i] == all[start + i]; }
    }
  }

  lemma VerdictsJoin(world: World, bad: Content -> bool, a: seq<PendingJob>, b: seq<PendingJob>, v: seq<Verdict>, w: seq<Verdict>)
    requires |v| == |a| && |w| == |b|
    ensures Genuine(world, a, v) && Genuine(world, b, w) ==> Genuine(world, a + b, v + w)
    ensures Exact(world, bad, a, v) && Exact(world, bad, b, w) ==> Exact(world, bad, a + b, v + w)
  {
  }

  // ---- Canonical order ----

  predicate Ascending(keys: seq<string>) {
    forall i, j | 0 <= i < j < |keys| :: Less(keys[i], keys[j])
  }

  predicate IsLeast(keys: set<string>, k: string) {
    k in keys && forall other | other in keys && other != k :: Less(k, other)
  }

  lemma {:induction false} HasLeast(keys: set<string>)
    requires keys != {}
    ensures exists k :: IsLeast(keys, k)
    decreases |keys|
  {
    var some :| some in keys;
    if keys == {some} {
      assert IsLeast(keys, some);
    } else {
      HasLeast(keys - {some});
      var k :| IsLeast(keys - {some}, k);
      LessIsTotal(some, k);
      var least := if Less(some, k) then some else k;
      forall other | other in keys && other != least ensures Less(least, other) {
        if least == some && other != k { LessIsTransitive(some, k, other); }
      }
      assert IsLeast(keys, least);
    }
  }

  ghost function SortedKeys(keys: set<string>): seq<string>
    decreases |keys|
  {
    if keys == {} then []
    else
      HasLeast(keys);
      var k :| IsLeast(keys, k);
      [k] + SortedKeys(keys - {k})
  }

  /** A set has only one ascending list. */
  lemma {:induction false} AscendingIsSorted(list: seq<string>, keys: set<string>)
    requires Ascending(list) && forall k :: k in list <==> k in keys
    ensures list == SortedKeys(keys)
    decreases |list|
  {
    if list == [] {
      assert forall k | k in keys :: k in list;
    } else {
      assert list[0] in keys;
      HasLeast(keys);
      var k :| IsLeast(keys, k) && SortedKeys(keys) == [k] + SortedKeys(keys - {k});
      assert k in list;
      var i :| 0 <= i < |list| && list[i] == k;
      if i != 0 { LessIsTotal(list[0], k); }
      forall j | 0 < j < |list| ensures list[j] != k { LessIsTotal(k, list[j]); }
      var rest := list[1..];
      forall x ensures x in rest <==> x in keys - {k} {
        if x in keys && x != k { var j :| 0 <= j < |list| && list[j] == x; assert rest[j - 1] == x; }
      }
      AscendingIsSorted(rest, keys - {k});
      assert list == [k] + rest;
    }
  }

  function Chunked(keys: seq<string>, size: nat): seq<seq<string>>
    requires size >= 1
    decreases |keys|
  {
    if keys == [] then []
    else if |keys| <= size then [keys]
    else [keys[..size]] + Chunked(keys[size..], size)
  }

  function Joined(chunks: seq<seq<string>>): seq<string> {
    if chunks == [] then [] else chunks[0] + Joined(chunks[1..])
  }

  /** The chunks are the keys in order; all are full but the last, and none is empty. */
  lemma {:induction false} ChunkedExactly(keys: seq<string>, size: nat)
    requires size >= 1
    ensures Joined(Chunked(keys, size)) == keys
    ensures forall c | c in Chunked(keys, size) :: 0 < |c| <= size
    ensures forall i | 0 <= i < |Chunked(keys, size)| - 1 :: |Chunked(keys, size)[i]| == size
    decreases |keys|
  {
    if |keys| > size {
      ChunkedExactly(keys[size..], size);
      var rest := Chunked(keys[size..], size);
      assert ([keys[..size]] + rest)[1..] == rest;
    } else if keys != [] {
      assert [keys][1..] == [];
    }
  }

  ghost predicate Healthy(world: World) {
    forall jobs :: world.healthy(jobs)
  }

  ghost predicate GoodSlots(slots: map<nat, Instance>, bad: Content -> bool) {
    forall s, i | s in slots && 0 <= i < |slots[s].jobsKey| :: !bad(slots[s].jobsKey[i].0)
  }

  /** A verdict is a failure or what the world measures for the job's own content. */
  predicate Genuine(world: World, chunk: seq<PendingJob>, verdicts: seq<Verdict>)
    requires |verdicts| == |chunk|
  {
    forall i | 0 <= i < |chunk| :: verdicts[i].Failed? || verdicts[i] == Measured(world.measure(ContentOf(chunk[i].o)))
  }

  /** What a job on its own would come to, when `bad` decides which engines come up. */
  predicate Alone(world: World, bad: Content -> bool, c: Content, verdict: Verdict) {
    if bad(c) then verdict.Failed? else verdict == Measured(world.measure(c))
  }

  predicate Exact(world: World, bad: Content -> bool, chunk: seq<PendingJob>, verdicts: seq<Verdict>)
    requires |verdicts| == |chunk|
  {
    forall i | 0 <= i < |chunk| :: Alone(world, bad, ContentOf(chunk[i].o), verdicts[i])
  }

  ghost predicate WarmFor(w: Instance, ports: map<string, int>, digest: Content -> string, keys: seq<string>) {
    && |w.jobsKey| == |keys|
    && forall i | 0 <= i < |keys| ::
         keys[i] in ports && digest(w.jobsKey[i].0) == keys[i] && w.jobsKey[i].1 == ports[keys[i]]
  }

  function KeysOf(chunk: seq<PendingJob>): seq<string> {
    seq(|chunk|, i requires 0 <= i < |chunk| => chunk[i].key)
  }

  lemma StillPinned(chunk: seq<PendingJob>, a: map<string, int>, b: map<string, int>)
    requires AllPinned(chunk, a) && forall i | 0 <= i < |chunk| :: chunk[i].key in b && b[chunk[i].key] == a[chunk[i].key]
    ensures AllPinned(chunk, b) && Pinned(chunk, b) == Pinned(chunk, a)
  {
  }

  lemma PlacesReport(results: seq<Result>, chunk: seq<PendingJob>, ports: map<string, int>, verdicts: seq<Verdict>)
    requires AllPinned(chunk, ports) && |verdicts| == |chunk| && Reports(results, Pinned(chunk, ports), verdicts)
    ensures Reports(results, Places(chunk), verdicts)
  {
  }

  /** Measured or failed: nothing else comes out of a slot. */
  predicate Plausible(world: World, jobs: seq<PoolJob>, verdicts: seq<Verdict>)
    requires |verdicts| == |jobs|
  {
    forall i | 0 <= i < |jobs| :: verdicts[i].Failed? || verdicts[i] == Measured(world.measure(ContentOf(jobs[i].opts)))
  }

  lemma {:induction false} EphemeralPlausible(world: World, jobs: seq<PoolJob>)
    ensures Plausible(world, jobs, Ephemeral(world, jobs))
    decreases |jobs|
  {
    var err := world.build(jobs);
    if err.Some? && |jobs| > 1 && ShouldBisect(err.value, |jobs|) {
      var mid := |jobs| / 2;
      EphemeralPlausible(world, jobs[..mid]);
      EphemeralPlausible(world, jobs[mid..]);
      var v := Ephemeral(world, jobs);
      forall i | 0 <= i < |jobs| ensures v[i].Failed? || v[i] == Measured(world.measure(ContentOf(jobs[i].opts))) {
        if i < mid { assert jobs[..mid][i] == jobs[i]; } else { assert jobs[mid..][i - mid] == jobs[i]; }
      }
    }
  }

  lemma ServedGenuinely(world: World, chunk: seq<PendingJob>, jobs: seq<PoolJob>, verdicts: seq<Verdict>)
    requires |chunk| == |jobs| == |verdicts| && forall i | 0 <= i < |jobs| :: jobs[i].opts == chunk[i].o
    requires verdicts == AllMeasured(world, jobs) || verdicts == Ephemeral(world, jobs) || forall i | 0 <= i < |jobs| :: verdicts[i].Failed?
    ensures Genuine(world, chunk, verdicts)
  {
    EphemeralPlausible(world, jobs);
    forall i | 0 <= i < |chunk| ensures verdicts[i].Failed? || verdicts[i] == Measured(world.measure(ContentOf(chunk[i].o))) {
      assert jobs[i].opts == chunk[i].o;
    }
  }

  predicate ExactJobs(world: World, bad: Content -> bool, jobs: seq<PoolJob>, verdicts: seq<Verdict>)
    requires |verdicts| == |jobs|
  {
    forall i | 0 <= i < |jobs| :: Alone(world, bad, ContentOf(jobs[i].opts), verdicts[i])
  }

  lemma GoodIdentity(jobs: seq<PoolJob>, bad: Content -> bool)
    ensures !HasBad(jobs, bad) <==> forall i | 0 <= i < |jobs| :: !bad(Identity(jobs)[i].0)
  {
    var id := Identity(jobs);
    assert forall i | 0 <= i < |jobs| :: id[i].0 == ContentOf(jobs[i].opts);
  }

  lemma ServedExactly(world: World, bad: Content -> bool, fate: Fate, slots: map<nat, Instance>, slot: nat, jobs: seq<PoolJob>, verdicts: seq<Verdict>)
    requires Isolable(world, bad) && GoodSlots(slots, bad) && |verdicts| == |jobs|
    requires fate == Reused ==> slot in slots && slots[slot].jobsKey == Identity(jobs) && verdicts == AllMeasured(world, jobs)
    requires fate == Built ==> world.build(jobs).None? && verdicts == AllMeasured(world, jobs)
    requires fate == Bisected ==> verdicts == Ephemeral(world, jobs)
    requires fate == Refused ==> world.build(jobs).Some? && !ShouldBisect(world.build(jobs).value, |jobs|)
                                 && forall i | 0 <= i < |jobs| :: verdicts[i].Failed?
    requires fate != NoPort
    ensures ExactJobs(world, bad, jobs, verdicts)
    ensures fate == Built ==> forall i | 0 <= i < |jobs| :: !bad(Identity(jobs)[i].0)
  {
    GoodIdentity(jobs, bad);
    assert ComesUpUnlessBad(world, bad, jobs);
    match fate
    case Reused => assert forall i | 0 <= i < |jobs| :: !bad(slots[slot].jobsKey[i].0);
    case Built =>
    case Bisected => BadJobsIsolated(world, jobs, bad);
    case Refused =>
      var i :| 0 <= i < |jobs| && bad(ContentOf(jobs[i].opts));
  }

  lemma ExactPlaces(world: World, bad: Content -> bool, chunk: seq<PendingJob>, ports: map<string, int>, verdicts: seq<Verdict>)
    requires AllPinned(chunk, ports) && |verdicts| == |chunk| && ExactJobs(world, bad, Pinned(chunk, ports), verdicts)
    ensures Exact(world, bad, chunk, verdicts)
  {
  }

  lemma ServedAsAlone(world: World, bad: Content -> bool, fate: Fate, was: map<nat, Instance>, slots: map<nat, Instance>, slot: nat,
                      chunk: seq<PendingJob>, ports: map<string, int>, verdicts: seq<Verdict>)
    requires Isolable(world, bad) && GoodSlots(was, bad) && AllPinned(chunk, ports) && |verdicts| == |chunk| && fate != NoPort
    requires forall s | s != slot :: (s in slots <==> s in was) && (s in slots ==> slots[s] == was[s])
    requires var jobs := Pinned(chunk, ports);
             && (fate == Reused ==> slot in was && was[slot].jobsKey == Identity(jobs) && slots == was && verdicts == AllMeasured(world, jobs))
             && (fate == Built ==> world.build(jobs).None? && slot in slots && slots[slot].jobsKey == Identity(jobs)
                                   && verdicts == AllMeasured(world, jobs))
             && (fate == Bisected ==> slot !in slots && verdicts == Ephemeral(world, jobs))
             && (fate == Refused ==> slot !in slots && world.build(jobs).Some? && !ShouldBisect(world.build(jobs).value, |jobs|)
                                     && forall i | 0 <= i < |jobs| :: verdicts[i].Failed?)
    ensures Exact(world, bad, chunk, verdicts) && GoodSlots(slots, bad)
  {
    var jobs := Pinned(chunk, ports);
    ServedExactly(world, bad, fate, was, slot, jobs, verdicts);
    ExactPlaces(world, bad, chunk, ports, verdicts);
    GoodSlotsStay(was, slots, slot, bad);
  }

  lemma GoodSlotsStay(before: map<nat, Instance>, after: map<nat, Instance>, slot: nat, bad: Content -> bool)
    requires GoodSlots(before, bad)
    requires forall s | s != slot :: (s in after <==> s in before) && (s in after ==> after[s] == before[s])
    requires slot in after ==> (slot in before && after[slot] == before[slot]) || forall i | 0 <= i < |after[slot].jobsKey| :: !bad(after[slot].jobsKey[i].0)
    ensures GoodSlots(after, bad)
  {
  }

  lemma PinnedOneMore(chunk: seq<PendingJob>, ports: map<string, int>, key: string, port: int)
    requires key !in ports && port !in ports.Values && InjectivePorts(ports) && AllPinned(chunk, ports)
    ensures var more := ports[key := port];
            && InjectivePorts(more) && more.Values == ports.Values + {port}
            && AllPinned(chunk, more) && Pinned(chunk, more) == Pinned(chunk, ports)
  {
    var more := ports[key := port];
    assert forall k | k in ports :: ports[k] in ports.Values && more[k] == ports[k];
    assert more[key] == port;
    forall v ensures v in more.Values <==> v in ports.Values || v == port {
      if v in ports.Values { var k :| k in ports && ports[k] == v; assert more[k] == v; }
    }
  }
}
