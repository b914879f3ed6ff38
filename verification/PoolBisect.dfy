/** Isolating the jobs that keep a pooled engine from starting. */
module PoolBisect {

  import opened Prelude

  datatype Options = Options(target: string, timeoutMs: int, params: string, bind: string, checkSeq: int, probeId: string)

  /** What an engine's config is built from, and what identifies a job. */
  datatype Content = Content(target: string, timeoutMs: int, params: string, bind: string)

  function ContentOf(o: Options): Content {
    Content(o.target, o.timeoutMs, o.params, o.bind)
  }

  datatype PoolJob = PoolJob(idx: nat, key: string, opts: Options, port: int)

  datatype Verdict = Unset | Invalid | Failed(error: string) | Measured(outcome: string)

  datatype Result = Result(target: string, checkSeq: int, verdict: Verdict)

  const NoResult := Result("", 0, Unset)

  /** Why buildAndStart failed: before the engine's own steps, in build_config, or in start. */
  datatype BuildError = Setup(message: string) | BuildConfig(message: string) | Start(message: string, deadline: bool)

  /** The answers of the outside world during one call: whether an engine comes up for these
      jobs, what testing a job measures, whether a running engine is healthy, which ports the
      system offers in turn, and which it finds free. */
  datatype World = World(
    build: seq<PoolJob> -> Option<BuildError>,
    measure: Content -> string,
    healthy: seq<PoolJob> -> bool,
    offer: nat -> Option<int>,
    free: int -> bool)

  predicate Contains(s: string, part: string) {
    exists i | 0 <= i <= |s| :: part <= s[i..]
  }

  predicate ShouldBisect(err: BuildError, chunkSize: nat) {
    chunkSize > 1 &&
    match err
    case Setup(_) => true
    case BuildConfig(message) =>
      !(Contains(message, "not found") || Contains(message, "exit status 127") || Contains(message, "executable file not found"))
    case Start(message, deadline) => !deadline && !Contains(message, "did not become ready")
  }
  /** Two options are one job exactly when they agree on all but the number and the probe. */
  lemma SameContentExactly(a: Options, b: Options)
    ensures ContentOf(a) == ContentOf(b) <==> a.(checkSeq := b.checkSeq, probeId := b.probeId) == b
  {
  }

  /** A failure is worth bisecting unless there is one job only, a program is missing, the deadline
      passed, or the engine never became ready. */
  lemma ShouldBisectExactly(err: BuildError, chunkSize: nat)
    ensures ShouldBisect(err, chunkSize) <==>
              && chunkSize >= 2
              && (err.BuildConfig? ==> forall part | part in {"not found", "exit status 127", "executable file not found"} :: !Contains(err.message, part))
              && (err.Start? ==> !err.deadline && !Contains(err.message, "did not become ready"))
  {
  }

  // ---- runEphemeral, on values ----

  function AllMeasured(world: World, jobs: seq<PoolJob>): seq<Verdict> {
    seq(|jobs|, i requires 0 <= i < |jobs| => Measured(world.measure(ContentOf(jobs[i].opts))))
  }

  function AllFailed(jobs: seq<PoolJob>, error: string): seq<Verdict> {
    seq(|jobs|, i => Failed(error))
  }

  function Ephemeral(world: World, jobs: seq<PoolJob>): (verdicts: seq<Verdict>)
    ensures |verdicts| == |jobs|
    decreases |jobs|
  {
    var err := world.build(jobs);
    if err.None? then AllMeasured(world, jobs)
    else if |jobs| > 1 && ShouldBisect(err.value, |jobs|) then
      Ephemeral(world, jobs[..|jobs| / 2]) + Ephemeral(world, jobs[|jobs| / 2..])
    else AllFailed(jobs, err.value.message)
  }

  function Builds(world: World, jobs: seq<PoolJob>): nat
    decreases |jobs|
  {
    var err := world.build(jobs);
    if err.Some? && |jobs| > 1 && ShouldBisect(err.value, |jobs|)
    then 1 + Builds(world, jobs[..|jobs| / 2]) + Builds(world, jobs[|jobs| / 2..])
    else 1
  }

  /** The jobs that got tested, in order. */
  function Tests(world: World, jobs: seq<PoolJob>): seq<PoolJob>
    decreases |jobs|
  {
    var err := world.build(jobs);
    if err.None? then jobs
    else if |jobs| > 1 && ShouldBisect(err.value, |jobs|) then
      Tests(world, jobs[..|jobs| / 2]) + Tests(world, jobs[|jobs| / 2..])
    else []
  }

  // ---- Exactly the bad jobs ----

  predicate HasBad(jobs: seq<PoolJob>, bad: Content -> bool) {
    exists i | 0 <= i < |jobs| :: bad(ContentOf(jobs[i].opts))
  }

  /** An engine comes up unless a bad job is among its jobs, and then fails in a way that
      is worth bisecting. */
  predicate ComesUpUnlessBad(world: World, bad: Content -> bool, jobs: seq<PoolJob>) {
    && (world.build(jobs).Some? <==> HasBad(jobs, bad))
    && (world.build(jobs).Some? && |jobs| > 1 ==> ShouldBisect(world.build(jobs).value, |jobs|))
  }

  ghost predicate Isolable(world: World, bad: Content -> bool) {
    forall jobs :: ComesUpUnlessBad(world, bad, jobs)
  }

  function CountBad(jobs: seq<PoolJob>, bad: Content -> bool): nat {
    if jobs == [] then 0
    else CountBad(jobs[..|jobs| - 1], bad) + (if bad(ContentOf(jobs[|jobs| - 1].opts)) then 1 else 0)
  }

  function GoodOnes(jobs: seq<PoolJob>, bad: Content -> bool): seq<PoolJob> {
    if jobs == [] then []
    else
      var last := jobs[|jobs| - 1];
      GoodOnes(jobs[..|jobs| - 1], bad) + if bad(ContentOf(last.opts)) then [] else [last]
  }

  function CeilLog2(n: nat): nat {
    if n <= 1 then 0 else 1 + CeilLog2((n + 1) / 2)
  }

  lemma {:induction false} CeilLog2Grows(m: nat, n: nat)
    requires m <= n
    ensures CeilLog2(m) <= CeilLog2(n)
    decreases n
  {
    if m > 1 { CeilLog2Grows((m + 1) / 2, (n + 1) / 2); }
  }

  lemma {:induction false} CountsSplit(a: seq<PoolJob>, b: seq<PoolJob>, bad: Content -> bool)
    ensures CountBad(a + b, bad) == CountBad(a, bad) + CountBad(b, bad)
    ensures GoodOnes(a + b, bad) == GoodOnes(a, bad) + GoodOnes(b, bad)
    decreases |b|
  {
    if b == [] {
      assert a + b == a;
    } else {
      var whole := a + b;
      assert whole[..|whole| - 1] == a + b[..|b| - 1];
      assert whole[|whole| - 1] == b[|b| - 1];
      CountsSplit(a, b[..|b| - 1], bad);
    }
  }

  lemma {:induction false} NoneBad(jobs: seq<PoolJob>, bad: Content -> bool)
    ensures HasBad(jobs, bad) <==> CountBad(jobs, bad) > 0
    ensures !HasBad(jobs, bad) ==> GoodOnes(jobs, bad) == jobs
    decreases |jobs|
  {
    if jobs != [] {
      var before, last := jobs[..|jobs| - 1], jobs[|jobs| - 1];
      NoneBad(before, bad);
      HasBadStep(jobs, bad);
      assert jobs == before + [last];
    }
  }

  lemma HasBadStep(jobs: seq<PoolJob>, bad: Content -> bool)
    requires jobs != []
    ensures HasBad(jobs, bad) <==> HasBad(jobs[..|jobs| - 1], bad) || bad(ContentOf(jobs[|jobs| - 1].opts))
  {
  }

  /** Every good job is measured, every bad one fails. */
  lemma {:induction false} BadJobsIsolated(world: World, jobs: seq<PoolJob>, bad: Content -> bool)
    requires Isolable(world, bad)
    ensures forall i | 0 <= i < |jobs| ::
              if bad(ContentOf(jobs[i].opts)) then Ephemeral(world, jobs)[i].Failed?
              else Ephemeral(world, jobs)[i] == Measured(world.measure(ContentOf(jobs[i].opts)))
    decreases |jobs|
  {
    assert ComesUpUnlessBad(world, bad, jobs);
    if HasBad(jobs, bad) && |jobs| > 1 {
      var mid := |jobs| / 2;
      BadJobsIsolated(world, jobs[..mid], bad);
      BadJobsIsolated(world, jobs[mid..], bad);
      assert Ephemeral(world, jobs) == Ephemeral(world, jobs[..mid]) + Ephemeral(world, jobs[mid..]);
      forall i | 0 <= i < |jobs|
        ensures if bad(ContentOf(jobs[i].opts)) then Ephemeral(world, jobs)[i].Failed?
                else Ephemeral(world, jobs)[i] == Measured(world.measure(ContentOf(jobs[i].opts)))
      {
        if i < mid { assert jobs[..mid][i] == jobs[i]; } else { assert jobs[mid..][i - mid] == jobs[i]; }
      }
    }
  }

  /** The good jobs are tested, each once, and no other. */
  lemma {:induction false} GoodJobsTestedOnce(world: World, jobs: seq<PoolJob>, bad: Content -> bool)
    requires Isolable(world, bad)
    ensures Tests(world, jobs) == GoodOnes(jobs, bad)
    decreases |jobs|
  {
    TestsSplit(world, jobs, bad);
    if !HasBad(jobs, bad) {
      NoneBad(jobs, bad);
    } else if |jobs| > 1 {
      GoodJobsTestedOnce(world, jobs[..|jobs| / 2], bad);
      GoodJobsTestedOnce(world, jobs[|jobs| / 2..], bad);
      Halved(jobs);
      GoodHalves(jobs, jobs[..|jobs| / 2], jobs[|jobs| / 2..], bad);
    } else {
      OnlyBad(jobs, bad);
    }
  }

  lemma Halved(jobs: seq<PoolJob>)
    ensures jobs == jobs[..|jobs| / 2] + jobs[|jobs| / 2..]
  {
  }

  lemma GoodHalves(jobs: seq<PoolJob>, left: seq<PoolJob>, right: seq<PoolJob>, bad: Content -> bool)
    requires jobs == left + right
    ensures GoodOnes(jobs, bad) == GoodOnes(left, bad) + GoodOnes(right, bad)
  {
    CountsSplit(left, right, bad);
  }

  lemma OnlyBad(jobs: seq<PoolJob>, bad: Content -> bool)
    requires HasBad(jobs, bad) && |jobs| <= 1
    ensures GoodOnes(jobs, bad) == []
  {
    assert jobs[..0] == [];
  }

  lemma TestsSplit(world: World, jobs: seq<PoolJob>, bad: Content -> bool)
    requires Isolable(world, bad)
    ensures Tests(world, jobs) ==
            if !HasBad(jobs, bad) then jobs
            else if |jobs| > 1 then Tests(world, jobs[..|jobs| / 2]) + Tests(world, jobs[|jobs| / 2..])
            else []
  {
    assert ComesUpUnlessBad(world, bad, jobs);
  }

  lemma ScaledUp(n: nat, a: nat, b: nat)
    requires a <= b
    ensures n * a <= n * b
  {
  }

  /** The halves' bounds give the whole's. */
  lemma HalvesFit(left: nat, right: nat, leftHeight: nat, rightHeight: nat, height: nat)
    requires left + right >= 1 && leftHeight < height && rightHeight < height
    ensures 1 + Cost(left, leftHeight) + Cost(right, rightHeight) <= Cost(left + right, height)
  {
    var lower := height - 1;
    ScaledUp(left, leftHeight, lower);
    ScaledUp(right, rightHeight, lower);
    assert left * lower + right * lower == (left + right) * lower;
    assert (left + right) * height == (left + right) * lower + (left + right);
    assert 2 * left * leftHeight == 2 * (left * leftHeight) && 2 * right * rightHeight == 2 * (right * rightHeight);
    assert 2 * (left + right) * height == 2 * ((left + right) * height);
  }

  lemma HalfHeight(n: nat)
    requires n > 1
    ensures CeilLog2(n - n / 2) < CeilLog2(n) && CeilLog2(n / 2) < CeilLog2(n)
  {
    assert n - n / 2 == (n + 1) / 2;
    CeilLog2Grows(n / 2, (n + 1) / 2);
  }

  /** What isolating `bad` jobs in a tree of this height may cost. */
  function Cost(bad: nat, height: nat): (cost: nat)
    ensures cost >= 1
  {
    assert 2 * bad * height >= 0;
    1 + 2 * bad * height
  }

  lemma BuildsSplit(world: World, jobs: seq<PoolJob>, bad: Content -> bool)
    requires Isolable(world, bad)
    ensures Builds(world, jobs) ==
            if HasBad(jobs, bad) && |jobs| > 1 then 1 + Builds(world, jobs[..|jobs| / 2]) + Builds(world, jobs[|jobs| / 2..])
            else 1
  {
    assert ComesUpUnlessBad(world, bad, jobs);
  }

  lemma HalvesCost(jobs: seq<PoolJob>, bad: Content -> bool)
    requires |jobs| > 1
    ensures var left, right := jobs[..|jobs| / 2], jobs[|jobs| / 2..];
            && CountBad(left, bad) + CountBad(right, bad) == CountBad(jobs, bad)
            && CeilLog2(|left|) < CeilLog2(|jobs|) && CeilLog2(|right|) < CeilLog2(|jobs|)
  {
    var left, right := jobs[..|jobs| / 2], jobs[|jobs| / 2..];
    assert CountBad(left, bad) + CountBad(right, bad) == CountBad(jobs, bad) by {
      CountsSplit(left, right, bad);
      assert jobs == left + right;
    }
    HalfHeight(|jobs|);
    assert |right| == |jobs| - |jobs| / 2;
  }

  /** b bad jobs among n cost at most 1 + 2 b ceil(log2 n) engine builds. */
  lemma {:induction false} FewBuilds(world: World, jobs: seq<PoolJob>, bad: Content -> bool)
    requires Isolable(world, bad)
    ensures Builds(world, jobs) <= Cost(CountBad(jobs, bad), CeilLog2(|jobs|))
    decreases |jobs|
  {
    BuildsSplit(world, jobs, bad);
    if HasBad(jobs, bad) && |jobs| > 1 {
      NoneBad(jobs, bad);
      var left, right := jobs[..|jobs| / 2], jobs[|jobs| / 2..];
      FewBuilds(world, left, bad);
      FewBuilds(world, right, bad);
      HalvesCost(jobs, bad);
      HalvesFit(CountBad(left, bad), CountBad(right, bad), CeilLog2(|left|), CeilLog2(|right|), CeilLog2(|jobs|));
    }
  }
}
