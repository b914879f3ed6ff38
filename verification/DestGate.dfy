/** The node-wide gate that spaces out connection attempts to one destination. Every attempt
    is one locked section, so any interleaving of callers is a sequence of attempts. */
module DestGate {

  import opened Prelude

  const MAX_DESTINATIONS := 4096

  /** How many entries an eviction removes. */
  function Quarter(n: nat): (q: nat)
    ensures q <= n || n == 0
  {
    if n / 4 < 1 then 1 else n / 4
  }

  /** `kept` is `last` without its oldest quarter; which of equally old entries go is open. */
  ghost predicate Evicts(last: map<string, int>, kept: map<string, int>) {
    && kept.Keys <= last.Keys && |kept| + Quarter(|last|) == |last|
    && (forall d | d in kept :: kept[d] == last[d])
    && (forall gone, d | gone in last && gone !in kept && d in kept :: last[gone] <= kept[d])
  }

  predicate Clear(last: map<string, int>, dest: string, now: int, floor: int) {
    dest !in last || now - last[dest] >= floor
  }

  predicate Crowded(last: map<string, int>, dest: string) {
    dest !in last && |last| >= MAX_DESTINATIONS
  }

  ghost predicate Grants(before: map<string, int>, dest: string, now: int, after: map<string, int>) {
    if Crowded(before, dest) then exists kept :: Evicts(before, kept) && after == kept[dest := now]
    else after == before[dest := now]
  }

  datatype Entry = Entry(dest: string, at: int)

  method Position(entries: seq<Entry>, time: int) returns (at: nat)
    ensures at <= |entries| && forall j | 0 <= j < at :: entries[j].at <= time
    ensures at < |entries| ==> entries[at].at > time
  {
    at := 0;
    while at < |entries| && entries[at].at <= time
      invariant 0 <= at <= |entries|
      invariant forall j | 0 <= j < at :: entries[j].at <= time
    {
      at := at + 1;
    }
  }

  class Gate {
    var last: map<string, int>
    var floor: int
    var maxWait: int

    constructor (floor: int, maxWait: int)
      ensures last == map[] && this.floor == floor && this.maxWait == maxWait
    {
      last, this.floor, this.maxWait := map[], floor, maxWait;
    }

    method SortedEntries() returns (entries: seq<Entry>)
      ensures Sorted(entries) && Files(entries, last)
    {
      entries := [];
      var rest := last.Keys;
      while rest != {}
        invariant rest <= last.Keys && Sorted(entries) && Files(entries, last - rest)
        decreases |rest|
      {
        var dest :| dest in rest;
        var at := Position(entries, last[dest]);
        Inserted(entries, last - rest, dest, last[dest], at);
        OneFewer(last, rest, dest);
        entries := entries[..at] + [Entry(dest, last[dest])] + entries[at..];
        rest := rest - {dest};
      }
      assert last - rest == last;
    }

    method EvictOldest()
      requires |last| > 0
      modifies this`last
      ensures Evicts(old(last), last)
      ensures |old(last)| - |last| == if |old(last)| < 8 then 1 else |old(last)| / 4
    {
      var entries := SortedEntries();
      ghost var was := last;
      var remove := |entries| / 4;
      if remove < 1 { remove := 1; }
      OldestGone(entries, was, remove);
      DeleteFront(entries, remove);
    }

    method DeleteFront(entries: seq<Entry>, remove: nat)
      requires remove <= |entries|
      modifies this`last
      ensures last == old(last) - Dests(entries[..remove])
    {
      for i := 0 to remove
        invariant last == old(last) - Dests(entries[..i])
      {
        DestsOneMore(entries, i);
        MinusBoth(old(last), Dests(entries[..i]), entries[i].dest);
        last := last - {entries[i].dest};
      }
    }

    /** One pass of Wait's loop under the lock: granted, or how long to sleep. */
    method Attempt(dest: string, now: int) returns (granted: bool, remaining: int)
      requires floor > 0 && dest != ""
      modifies this`last
      ensures granted == Clear(old(last), dest, now, floor)
      ensures granted <==> dest !in old(last) || now - old(last)[dest] >= floor
      ensures granted ==> dest in last && last[dest] == now
      ensures granted && |old(last)| < 4096 ==> last == old(last)[dest := now]
      ensures granted ==> Grants(old(last), dest, now, last)
      ensures !granted ==> last == old(last) && remaining == floor - (now - last[dest]) > 0
    {
      if dest !in last || now - last[dest] >= floor {
        if dest !in last && |last| >= MAX_DESTINATIONS {
          EvictOldest();
        }
        last := last[dest := now];
        return true, 0;
      }
      return false, floor - (now - last[dest]);
    }

    /** One caller's Wait. `readings` are the clock at its attempts and `done[i]` says that its
        context ended before the timer of attempt i. An expired wait records nothing. */
    method Wait(dest: string, readings: seq<int>, done: seq<bool>) returns (granted: bool, ghost at: nat)
      requires |done| == |readings| > 0 && done[|done| - 1]
      modifies this`last
      ensures dest == "" || floor <= 0 ==> granted && last == old(last)
      ensures dest != "" && floor > 0 && !granted ==> last == old(last)
      ensures dest != "" && floor > 0 && granted ==>
                && at < |readings| && Clear(old(last), dest, readings[at], floor) && Grants(old(last), dest, readings[at], last)
                && forall i | 0 <= i < at :: !Clear(old(last), dest, readings[i], floor) && !done[i]
    {
      at := 0;
      if dest == "" || floor <= 0 {
        return true, 0;
      }
      for i := 0 to |readings|
        invariant last == old(last)
        invariant forall j | 0 <= j < i :: !Clear(old(last), dest, readings[j], floor) && !done[j]
      {
        var remaining: int;
        granted, remaining := Attempt(dest, readings[i]);
        at := i;
        if granted || done[i] {
          return;
        }
      }
    }
  }

  // ---- Eviction ----

  predicate Sorted(entries: seq<Entry>) {
    forall i, j | 0 <= i < j < |entries| :: entries[i].at <= entries[j].at
  }

  function Dests(entries: seq<Entry>): set<string> {
    set e | e in entries :: e.dest
  }

  lemma OneFewer(last: map<string, int>, rest: set<string>, dest: string)
    requires dest in rest && rest <= last.Keys
    ensures (last - rest)[dest := last[dest]] == last - (rest - {dest})
  {
  }

  lemma MinusBoth(last: map<string, int>, gone: set<string>, dest: string)
    ensures last - gone - {dest} == last - (gone + {dest})
  {
  }

  lemma DestsOneMore(entries: seq<Entry>, i: nat)
    requires i < |entries|
    ensures Dests(entries[..i + 1]) == Dests(entries[..i]) + {entries[i].dest}
  {
  }

  predicate Once(entries: seq<Entry>) {
    forall i, j | 0 <= i < j < |entries| :: entries[i].dest != entries[j].dest
  }

  /** The entries of a map, each once. */
  ghost predicate Files(entries: seq<Entry>, last: map<string, int>) {
    Once(entries) && Dests(entries) == last.Keys && |entries| == |last| && Times(entries, last)
  }

  predicate Times(entries: seq<Entry>, last: map<string, int>) {
    forall e | e in entries :: e.dest in last && last[e.dest] == e.at
  }

  lemma OnceConcat(a: seq<Entry>, b: seq<Entry>)
    requires Once(a) && Once(b) && Dests(a) !! Dests(b)
    ensures Once(a + b) && Dests(a + b) == Dests(a) + Dests(b)
  {
    forall i, j | 0 <= i < j < |a + b| ensures (a + b)[i].dest != (a + b)[j].dest {
      if i < |a| <= j { assert a[i].dest in Dests(a) && b[j - |a|].dest in Dests(b); }
    }
  }

  lemma OnceSplit(entries: seq<Entry>, n: nat)
    requires Once(entries) && n <= |entries|
    ensures Once(entries[..n]) && Once(entries[n..]) && Dests(entries[..n]) !! Dests(entries[n..])
    ensures Dests(entries[..n]) + Dests(entries[n..]) == Dests(entries)
  {
  }

  lemma SortedInsert(entries: seq<Entry>, e: Entry, at: nat)
    requires Sorted(entries) && at <= |entries|
    requires forall j | 0 <= j < at :: entries[j].at <= e.at
    requires at < |entries| ==> entries[at].at > e.at
    ensures Sorted(entries[..at] + [e] + entries[at..])
  {
  }

  lemma OnceInsert(entries: seq<Entry>, e: Entry, at: nat)
    requires Once(entries) && e.dest !in Dests(entries) && at <= |entries|
    ensures Once(entries[..at] + [e] + entries[at..])
    ensures Dests(entries[..at] + [e] + entries[at..]) == Dests(entries) + {e.dest}
  {
  }

  lemma TimesInsert(entries: seq<Entry>, last: map<string, int>, e: Entry, at: nat)
    requires Times(entries, last) && e.dest !in last && at <= |entries|
    ensures Times(entries[..at] + [e] + entries[at..], last[e.dest := e.at])
  {
  }
  lemma FilesInsert(entries: seq<Entry>, last: map<string, int>, e: Entry, at: nat)
    requires Files(entries, last) && e.dest !in last && at <= |entries|
    ensures Files(entries[..at] + [e] + entries[at..], last[e.dest := e.at])
  {
    var more, u := entries[..at] + [e] + entries[at..], last[e.dest := e.at];
    OnceInsert(entries, e, at);
    TimesInsert(entries, last, e, at);
    assert u.Keys == last.Keys + {e.dest};
    assert |u.Keys| == |last.Keys| + 1;
  }

  lemma Inserted(entries: seq<Entry>, last: map<string, int>, dest: string, t: int, at: nat)
    requires Sorted(entries) && Files(entries, last) && dest !in last && at <= |entries|
    requires forall j | 0 <= j < at :: entries[j].at <= t
    requires at < |entries| ==> entries[at].at > t
    ensures var more := entries[..at] + [Entry(dest, t)] + entries[at..];
            Sorted(more) && Files(more, last[dest := t])
  {
    SortedInsert(entries, Entry(dest, t), at);
    FilesInsert(entries, last, Entry(dest, t), at);
  }

  lemma {:induction false} DestsCount(entries: seq<Entry>)
    requires Once(entries)
    ensures |Dests(entries)| == |entries|
    decreases |entries|
  {
    if entries != [] {
      var n := |entries| - 1;
      OnceSplit(entries, n);
      DestsCount(entries[..n]);
      assert Dests(entries[n..]) == {entries[n].dest};
    }
  }

  lemma OldestGone(entries: seq<Entry>, last: map<string, int>, n: nat)
    requires Sorted(entries) && Files(entries, last) && n == Quarter(|last|) <= |entries|
    ensures Evicts(last, last - Dests(entries[..n]))
  {
    var gone := Dests(entries[..n]);
    var kept := last - gone;
    OnceSplit(entries, n);
    DestsCount(entries[..n]);
    assert |last.Keys| == |gone + kept.Keys| == |gone| + |kept.Keys|;
    forall a, b | a in last && a !in kept && b in kept ensures last[a] <= kept[b] {
      assert a in gone && b in Dests(entries[n..]);
      var e :| e in entries[..n] && e.dest == a;
      var f :| f in entries[n..] && f.dest == b;
      FrontIsOlder(entries, n, e, f);
      assert e in entries && f in entries;
    }
  }

  lemma FrontIsOlder(entries: seq<Entry>, n: nat, e: Entry, f: Entry)
    requires Sorted(entries) && n <= |entries| && e in entries[..n] && f in entries[n..]
    ensures e in entries && f in entries && e.at <= f.at
  {
  }

  // ---- Runs ----

  datatype Grant = Grant(dest: string, at: int)

  /** `grants` is history: every grant so far, in the order in which the lock was held. */
  datatype State = State(last: map<string, int>, clock: int, grants: seq<Grant>)

  const Start := State(map[], 0, [])

  /** One attempt on behalf of any caller. The clock is read under the lock, so it only moves on. */
  ghost predicate Step(a: State, dest: string, now: int, floor: int, b: State) {
    && now >= a.clock && b.clock == now
    && if Clear(a.last, dest, now, floor)
       then Grants(a.last, dest, now, b.last) && b.grants == a.grants + [Grant(dest, now)]
       else b.last == a.last && b.grants == a.grants
  }

  datatype Move = Move(dest: string, now: int)

  ghost predicate IsRun(states: seq<State>, moves: seq<Move>, floor: int) {
    && |states| == |moves| + 1 && states[0].last == map[] && states[0].grants == []
    && forall i | 0 <= i < |moves| :: Step(states[i], moves[i].dest, moves[i].now, floor, states[i + 1])
  }

  /** The other destinations that were granted within these instants. */
  function Others(grants: seq<Grant>, dest: string, from: int, to: int): set<string> {
    set g | g in grants && g.dest != dest && from <= g.at <= to :: g.dest
  }

  lemma MoreOthers(a: seq<Grant>, b: seq<Grant>, dest: string, from: int, to: int)
    requires forall g | g in a :: g in b
    ensures |Others(a, dest, from, to)| <= |Others(b, dest, from, to)|
  {
    var x, y := Others(a, dest, from, to), Others(b, dest, from, to);
    SubsetIsSmaller(x, y);
  }

  /** The newest grant of a remembered destination is the one remembered. */
  ghost predicate Remembered(s: State) {
    && (forall d | d in s.last :: Grant(d, s.last[d]) in s.grants)
    && (forall g | g in s.grants :: g.at <= s.clock && (g.dest in s.last ==> g.at <= s.last[g.dest]))
  }

  /** A destination is forgotten only under pressure. */
  ghost predicate Forgotten(s: State) {
    forall g | g in s.grants && g.dest !in s.last :: |Others(s.grants, g.dest, g.at, s.clock)| >= 3073
  }

  ghost predicate TooClose(grants: seq<Grant>, i: int, j: int, floor: int) {
    0 <= i < j < |grants| && grants[i].dest == grants[j].dest && grants[j].at - grants[i].at < floor
  }

  ghost predicate Spaced(s: State, floor: int) {
    forall i, j :: TooClose(s.grants, i, j, floor) ==> |Others(s.grants, s.grants[i].dest, s.grants[i].at, s.grants[j].at)| >= 3073
  }

  ghost predicate Good(s: State, floor: int) {
    |s.last| <= MAX_DESTINATIONS && Remembered(s) && Forgotten(s) && Spaced(s, floor)
  }
  lemma StepRemembers(a: State, dest: string, now: int, floor: int, b: State)
    requires Remembered(a) && Step(a, dest, now, floor, b)
    ensures Remembered(b)
  {
  }

  lemma StepBounds(a: State, dest: string, now: int, floor: int, b: State)
    requires |a.last| <= MAX_DESTINATIONS && Step(a, dest, now, floor, b)
    ensures |b.last| <= MAX_DESTINATIONS
  {
  }

  /** An eviction leaves 3072 younger destinations behind, and is caused by one more. */
  lemma EvictedUnderPressure(a: State, dest: string, now: int, b: State, g: Grant)
    requires Remembered(a) && |a.last| <= MAX_DESTINATIONS && now >= a.clock && Crowded(a.last, dest)
    requires Grants(a.last, dest, now, b.last) && b.grants == a.grants + [Grant(dest, now)] && b.clock == now
    requires g in a.grants && g.dest in a.last && g.dest !in b.last
    ensures |Others(b.grants, g.dest, g.at, now)| >= 3073
  {
    var kept :| Evicts(a.last, kept) && b.last == kept[dest := now];
    var others := Others(b.grants, g.dest, g.at, now);
    forall d | d in kept.Keys + {dest} ensures d in others {
      if d == dest {
        assert Grant(dest, now) in b.grants;
      } else {
        assert Grant(d, a.last[d]) in a.grants && Grant(d, a.last[d]) in b.grants;
        assert a.last[g.dest] <= kept[d];
      }
    }
    assert |kept| == 3072 && dest !in kept.Keys;
    assert |kept.Keys + {dest}| == 3073;
    SubsetIsSmaller(kept.Keys + {dest}, others);
  }

  lemma StepForgets(a: State, dest: string, now: int, floor: int, b: State)
    requires Remembered(a) && Forgotten(a) && |a.last| <= MAX_DESTINATIONS && Step(a, dest, now, floor, b)
    ensures Forgotten(b)
  {
    forall g | g in b.grants && g.dest !in b.last ensures |Others(b.grants, g.dest, g.at, b.clock)| >= 3073 {
      assert g in a.grants || g == Grant(dest, now);
      if g.dest in a.last {
        EvictedUnderPressure(a, dest, now, b, g);
      } else {
        LaterOthers(a.grants, b.grants, g.dest, g.at, a.clock, b.clock);
      }
    }
  }

  lemma LaterOthers(a: seq<Grant>, b: seq<Grant>, dest: string, from: int, to: int, later: int)
    requires to <= later && forall g | g in a :: g in b
    ensures |Others(a, dest, from, to)| <= |Others(b, dest, from, later)|
  {
    var x, y := Others(a, dest, from, to), Others(b, dest, from, later);
    SubsetIsSmaller(x, y);
  }

  lemma StepSpaces(a: State, dest: string, now: int, floor: int, b: State)
    requires Good(a, floor) && Step(a, dest, now, floor, b)
    ensures Spaced(b, floor)
  {
    forall i, j | TooClose(b.grants, i, j, floor)
      ensures |Others(b.grants, b.grants[i].dest, b.grants[i].at, b.grants[j].at)| >= 3073
    {
      var g := b.grants[i];
      assert g == a.grants[i] && g in a.grants;
      if j < |a.grants| {
        assert TooClose(a.grants, i, j, floor);
        MoreOthers(a.grants, b.grants, g.dest, g.at, b.grants[j].at);
      } else {
        assert b.grants[j] == Grant(dest, now);
        LaterOthers(a.grants, b.grants, g.dest, g.at, a.clock, now);
      }
    }
  }

  lemma {:induction false} RunGood(states: seq<State>, moves: seq<Move>, floor: int)
    requires IsRun(states, moves, floor)
    ensures Good(states[|moves|], floor)
    decreases |moves|
  {
    if moves != [] {
      var n := |moves| - 1;
      RunGood(states[..n + 1], moves[..n], floor);
      StepRemembers(states[n], moves[n].dest, moves[n].now, floor, states[n + 1]);
      StepBounds(states[n], moves[n].dest, moves[n].now, floor, states[n + 1]);
      StepForgets(states[n], moves[n].dest, moves[n].now, floor, states[n + 1]);
      StepSpaces(states[n], moves[n].dest, moves[n].now, floor, states[n + 1]);
    }
  }

  /** In every interleaving: the table never exceeds its cap. */
  lemma TableStaysBounded(states: seq<State>, moves: seq<Move>, floor: int, n: nat)
    requires IsRun(states, moves, floor) && n < |states|
    ensures |states[n].last| <= MAX_DESTINATIONS
  {
    RunGood(states[..n + 1], moves[..n], floor);
  }

  /** In every interleaving: two grants to one destination closer than the floor mean that at
      least 3073 other destinations were granted from the first of them to the second. */
  lemma SpacedUnlessCrowded(states: seq<State>, moves: seq<Move>, floor: int, i: nat, j: nat)
    requires IsRun(states, moves, floor)
    ensures var grants := states[|moves|].grants;
            i < j < |grants| && grants[i].dest == grants[j].dest && grants[j].at - grants[i].at < floor ==>
              |Others(grants, grants[i].dest, grants[i].at, grants[j].at)| >= 3073
  {
    RunGood(states, moves, floor);
    assert Spaced(states[|moves|], floor);
    var grants := states[|moves|].grants;
    assert TooClose(grants, i, j, floor) == (i < j < |grants| && grants[i].dest == grants[j].dest && grants[j].at - grants[i].at < floor);
  }
}
