/** The timeout budget of one pooled job: a primary target, its fallbacks, a second request.
    Times are nanoseconds since the start; fractions are whole percents. */
module JobProbe {

  import opened Prelude

  const DIAL := 5
  const PRIMARY := 45
  const FALLBACK_END := 60
  const TOTAL := 85
  const FLOOR := 10
  const MILLISECOND := 1_000_000

  function Fraction(total: nat, percent: nat): nat {
    total * percent / 100
  }

  function Budget(timeoutMs: int): nat {
    if timeoutMs <= 0 then 5000 * MILLISECOND else timeoutMs * MILLISECOND
  }

  lemma Percent(total: nat, a: nat, b: nat)
    requires a <= b <= 100
    ensures Fraction(total, a) <= Fraction(total, b) <= total
    ensures Fraction(total, b - a) + Fraction(total, a) <= Fraction(total, b)
    ensures 100 * Fraction(total, a) <= total * a < 100 * Fraction(total, a) + 100
  {
    var x, y, z := total * a, total * (b - a), total * b;
    assert x + y == z && z <= total * 100;
  }

  // ---- Targets ----

  /** probeTargets: the primary, then every other non-empty fallback once, in the order given.
      `from` are the positions that the fallbacks were taken from. */
  method ProbeTargets(primary: string, fallbacks: seq<string>) returns (targets: seq<string>, ghost from: seq<nat>)
    ensures targets != [] && targets[0] == primary && |from| == |targets| - 1
    ensures forall i, j | 0 <= i < j < |targets| :: targets[i] != targets[j]
    ensures forall i | 0 <= i < |from| :: from[i] < |fallbacks| && targets[i + 1] == fallbacks[from[i]] != ""
    ensures forall i, j | 0 <= i < j < |from| :: from[i] < from[j]
    ensures forall f | f in fallbacks :: f == "" || f in targets
  {
    targets, from := [primary], [];
    var seen := {primary};
    for n := 0 to |fallbacks|
      invariant targets != [] && targets[0] == primary && |from| == |targets| - 1
      invariant forall t :: t in seen <==> t in targets
      invariant forall i, j | 0 <= i < j < |targets| :: targets[i] != targets[j]
      invariant forall i | 0 <= i < |from| :: from[i] < n && targets[i + 1] == fallbacks[from[i]] != ""
      invariant forall i, j | 0 <= i < j < |from| :: from[i] < from[j]
      invariant forall m | 0 <= m < n :: fallbacks[m] == "" || fallbacks[m] in targets
    {
      var target := fallbacks[n];
      if target == "" || target in seen {
        continue;
      }
      seen := seen + {target};
      targets := targets + [target];
      from := from + [n];
    }
  }

  // ---- The attempts ----

  /** What trying one target comes to: no tunnel, at once; or a request that would take this
      long, and whether its answer counts as success. */
  datatype Answer = NoTunnel | Request(takes: nat, good: bool)

  /** One attempt as it happened. */
  datatype Attempt = Attempt(began: nat, share: nat, ended: nat)

  /** The share of fallback `i` of `n` targets when `left` remains of the fallback phase. */
  function Share(left: nat, n: nat, i: nat): nat
    requires i < n
  {
    left / (n - i)
  }

  /** Whatever a fallback leaves over, the next one's share is no smaller. */
  lemma SharesDoNotShrink(left: nat, used: nat, n: nat, i: nat)
    requires i + 1 < n && used <= Share(left, n, i)
    ensures used <= left && Share(left - used, n, i + 1) >= Share(left, n, i)
  {
    var k, q := n - i, left / (n - i);
    assert left >= k * q;
    assert k * q == (k - 1) * q + q;
    assert left - used >= (k - 1) * q;
    DividesAtLeast(left - used, k - 1, q);
  }

  lemma SmallerFactor(k: int, x: int, y: int)
    requires k >= 1 && k * x < k * y
    ensures x < y
  {
  }

  lemma DividesAtLeast(a: int, k: int, q: int)
    requires k >= 1 && a >= k * q
    ensures a / k >= q
  {
    var r := a / k;
    assert a == k * r + a % k;
    assert k * (r + 1) == k * r + k;
    SmallerFactor(k, q, r + 1);
  }

  /** Each attempt begins where the one before ended and stays within its share; the shares of
      the fallbacks never shrink; all is over by the end of the fallback phase. */
  ghost predicate OnSchedule(timeout: nat, n: nat, attempts: seq<Attempt>) {
    && |attempts| <= n
    && (attempts != [] ==> attempts[0].began == 0 && attempts[0].share == Fraction(timeout, PRIMARY))
    && (forall i | 0 <= i < |attempts| ::
          attempts[i].began <= attempts[i].ended <= attempts[i].began + attempts[i].share && attempts[i].ended <= Fraction(timeout, FALLBACK_END))
    && (forall i | 1 <= i < |attempts| ::
          && attempts[i].began == attempts[i - 1].ended
          && attempts[i].share == Share(Fraction(timeout, FALLBACK_END) - attempts[i].began, n, i))
  }

  lemma {:induction false} SharesGrow(timeout: nat, n: nat, attempts: seq<Attempt>, i: nat, j: nat)
    requires OnSchedule(timeout, n, attempts) && 1 <= i <= j < |attempts|
    ensures attempts[i].share <= attempts[j].share
    decreases j
  {
    if i < j {
      SharesGrow(timeout, n, attempts, i, j - 1);
      var left := Fraction(timeout, FALLBACK_END) - attempts[j - 1].began;
      SharesDoNotShrink(left, attempts[j - 1].ended - attempts[j - 1].began, n, j - 1);
    }
  }

  /** Every fallback gets at least an equal split of what the primary left of the fallback
      phase, and that is at least 15% of the budget. */
  lemma EqualSplitAtLeast(timeout: nat, n: nat, attempts: seq<Attempt>, j: nat)
    requires OnSchedule(timeout, n, attempts) && 1 <= j < |attempts|
    ensures var left := Fraction(timeout, FALLBACK_END) - attempts[0].ended;
            && left >= Fraction(timeout, FALLBACK_END - PRIMARY)
            && attempts[j].share >= left / (n - 1)
  {
    SharesGrow(timeout, n, attempts, 1, j);
    Percent(timeout, PRIMARY, FALLBACK_END);
    assert attempts[1].began == attempts[0].ended;
  }

  lemma OneMoreOnSchedule(timeout: nat, n: nat, attempts: seq<Attempt>, next: Attempt)
    requires OnSchedule(timeout, n, attempts) && |attempts| < n
    requires if attempts == [] then next.began == 0 && next.share == Fraction(timeout, PRIMARY)
             else next.began == attempts[|attempts| - 1].ended
                  && next.share == Share(Fraction(timeout, FALLBACK_END) - next.began, n, |attempts|)
    requires next.began <= next.ended <= next.began + next.share && next.ended <= Fraction(timeout, FALLBACK_END)
    ensures OnSchedule(timeout, n, attempts + [next])
  {
  }

  /** How long attempt `i` may take: the primary's part, or an even share of what is left. */
  method AttemptTimeout(timeout: nat, now: nat, n: nat, i: nat) returns (attemptTimeout: nat)
    requires i < n && now <= Fraction(timeout, FALLBACK_END)
    ensures attemptTimeout == if i == 0 then Fraction(timeout, PRIMARY) else Share(Fraction(timeout, FALLBACK_END) - now, n, i)
    ensures i > 0 ==> now + attemptTimeout <= Fraction(timeout, FALLBACK_END)
  {
    if i == 0 {
      return Fraction(timeout, PRIMARY);
    }
    var remaining := Fraction(timeout, FALLBACK_END) - now;
    if remaining <= 0 {
      return 0;
    }
    ShareFits(remaining, n - i);
    return remaining / (n - i);
  }

  /** The loop has tried the first targets in vain and stands at `now`. */
  ghost predicate Tried(timeout: nat, answers: seq<Answer>, attempts: seq<Attempt>, now: nat) {
    && OnSchedule(timeout, |answers|, attempts)
    && now == (if attempts == [] then 0 else attempts[|attempts| - 1].ended) <= Fraction(timeout, FALLBACK_END)
    && forall j | 0 <= j < |attempts| :: !Answered(answers[j], attempts[j].share)
  }

  /** One attempt, cut off by its share. */
  method Try(timeout: nat, answers: seq<Answer>, before: seq<Attempt>, now: nat, share: nat)
    returns (attempts: seq<Attempt>, later: nat, won: bool)
    requires |before| < |answers| && Tried(timeout, answers, before, now)
    requires share == if before == [] then Fraction(timeout, PRIMARY) else Share(Fraction(timeout, FALLBACK_END) - now, |answers|, |before|)
    requires now + share <= Fraction(timeout, FALLBACK_END)
    ensures |attempts| == |before| + 1 && OnSchedule(timeout, |answers|, attempts)
    ensures later == attempts[|before|].ended <= Fraction(timeout, FALLBACK_END)
    ensures won <==> Answered(answers[|before|], attempts[|before|].share)
    ensures attempts[..|before|] == before && (!won ==> Tried(timeout, answers, attempts, later))
  {
    var answer := answers[|before|];
    var elapsed := if answer.NoTunnel? then 0 else Least(answer.takes, share);
    OneMoreOnSchedule(timeout, |answers|, before, Attempt(now, share, now + elapsed));
    attempts := before + [Attempt(now, share, now + elapsed)];
    later := now + elapsed;
    won := Answered(answer, share);
  }

  /** The attempt loop: `answers[i]` is what target i would come to, cut off by its share. */
  method RunAttempts(timeout: nat, answers: seq<Answer>) returns (attempts: seq<Attempt>, winner: Option<nat>, now: nat)
    requires answers != [] && Fraction(timeout, PRIMARY) > 0
    ensures OnSchedule(timeout, |answers|, attempts) && attempts != []
    ensures now == attempts[|attempts| - 1].ended <= Fraction(timeout, FALLBACK_END)
    ensures winner.Some? ==> winner.value == |attempts| - 1 && Answered(answers[winner.value], attempts[winner.value].share)
    ensures forall i | 0 <= i < |attempts| && winner != Some(i) :: !Answered(answers[i], attempts[i].share)
    ensures winner.None? ==> |attempts| == |answers| || Share(Fraction(timeout, FALLBACK_END) - now, |answers|, |attempts|) == 0
  {
    Percent(timeout, PRIMARY, FALLBACK_END);
    attempts, winner, now := [], None, 0;
    for i := 0 to |answers|
      invariant |attempts| == i && winner.None? && Tried(timeout, answers, attempts, now)
    {
      var attemptTimeout := AttemptTimeout(timeout, now, |answers|, i);
      if attemptTimeout <= 0 { return; }
      ghost var before := attempts;
      var won: bool;
      attempts, now, won := Try(timeout, answers, attempts, now, attemptTimeout);
      if won {
        winner := Some(i);
        assert forall j | 0 <= j < i :: attempts[j] == before[j];
        return;
      }
    }
  }

  /** Run: the attempts, the wait for the diagnostic dial, and the second request with what
      is left. All first attempts are over by 60% of the budget, the 10% floor of the second
      request never applies, and the whole run ends by 85%. */
  method Run(timeoutMs: int, answers: seq<Answer>, dial: nat, second: nat)
    returns (attempts: seq<Attempt>, winner: Option<nat>, warm: nat, end: nat)
    requires answers != []
    ensures var timeout := Budget(timeoutMs);
            && OnSchedule(timeout, |answers|, attempts) && attempts != []
            && attempts[|attempts| - 1].ended <= Fraction(timeout, FALLBACK_END)
            && timeout == (if timeoutMs <= 0 then 5_000 else timeoutMs) * 1_000_000
            && (winner.Some? ==>
                  && winner.value == |attempts| - 1 && answers[winner.value].Request? && answers[winner.value].good
                  && answers[winner.value].takes < attempts[winner.value].share
                  && warm == Fraction(timeout, TOTAL) - Max(attempts[winner.value].ended, Least(dial, Fraction(timeout, DIAL)))
                  && warm >= Fraction(timeout, FLOOR))
            && (forall i | 0 <= i < |attempts| && winner != Some(i) ::
                  answers[i].NoTunnel? || !answers[i].good || answers[i].takes >= attempts[i].share)
            && end == Max(attempts[|attempts| - 1].ended, Least(dial, Fraction(timeout, DIAL))) + Least(second, warm)
            && (winner.None? ==> warm == 0)
            && (winner.None? ==> |attempts| == |answers|
                                 || Share(Fraction(timeout, FALLBACK_END) - attempts[|attempts| - 1].ended, |answers|, |attempts|) == 0)
            && end <= Fraction(timeout, TOTAL)
  {
    var timeout := Budget(timeoutMs);
    PrimaryIsPositive(timeoutMs);
    Percent(timeout, FALLBACK_END, TOTAL);
    Percent(timeout, DIAL, FALLBACK_END);
    Percent(timeout, FLOOR, TOTAL - FALLBACK_END);
    var now: nat;
    attempts, winner, now := RunAttempts(timeout, answers);
    now := Max(now, Least(dial, Fraction(timeout, DIAL)));
    warm, end := 0, now;
    if winner.None? {
      return;
    }
    var remaining := Fraction(timeout, TOTAL) - now;
    if remaining < Fraction(timeout, FLOOR) {
      remaining := Fraction(timeout, FLOOR);
    }
    warm := remaining;
    end := now + Least(second, warm);
  }

  /** The target answered 2xx or 3xx within its timeout. */
  predicate Answered(answer: Answer, timeout: nat) {
    answer.Request? && answer.good && answer.takes < timeout
  }

  function Least(a: nat, b: nat): nat { if b < a then b else a }

  function Max(a: nat, b: nat): nat { if b > a then b else a }

  lemma PrimaryIsPositive(timeoutMs: int)
    ensures Fraction(Budget(timeoutMs), PRIMARY) > 0
  {
  }

  lemma ShareFits(left: nat, k: nat)
    requires k >= 1
    ensures left / k <= left
  {
  }
}
