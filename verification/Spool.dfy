/** The file spool that stands in for the database: eviction and replay of its batches. */
module Spool {

  import opened Prelude
  import opened Delivery

  const DEFAULT_MAX_BYTES := 0x100_0000

  /** What the spool directory holds under a name; a file's size is unknown when it cannot be
      asked for. */
  datatype Item = Folder | File(size: Option<nat>)

  type Directory = map<string, Item>

  datatype Entry = Entry(path: string, size: nat)

  // ---- Listing ----

  function Paths(entries: seq<Entry>): seq<string> {
    seq(|entries|, i requires 0 <= i < |entries| => entries[i].path)
  }

  predicate HasSuffix(name: string, suffix: string) {
    |name| >= |suffix| && name[|name| - |suffix|..] == suffix
  }

  predicate Ascending(entries: seq<Entry>) {
    forall i, j | 0 <= i < j < |entries| :: Less(entries[i].path, entries[j].path)
  }

  predicate Listed(e: Entry, dir: Directory) {
    e.path in dir && dir[e.path] == File(Some(e.size)) && HasSuffix(e.path, ".json")
  }

  /** The batches of a directory, oldest first: names start with their time of writing. */
  ghost predicate Lists(entries: seq<Entry>, dir: Directory) {
    Ascending(entries) && forall e :: e in entries <==> Listed(e, dir)
  }

  lemma {:induction false} OneListing(a: seq<Entry>, b: seq<Entry>)
    requires Ascending(a) && Ascending(b) && forall e :: e in a <==> e in b
    ensures a == b
  {
    if a == [] {
      assert forall i | 0 <= i < |b| :: b[i] in b;
    } else {
      assert a[0] in b;
      assert b[0] in a;
      var i :| 0 <= i < |a| && a[i] == b[0];
      var j :| 0 <= j < |b| && b[j] == a[0];
      LessIsTotal(a[0].path, b[0].path);
      assert a[0] == b[0];
      forall e ensures e in a[1..] <==> e in b[1..] {
        Rest(a, e);
        Rest(b, e);
      }
      OneListing(a[1..], b[1..]);
      assert a == [a[0]] + a[1..] && b == [b[0]] + b[1..];
    }
  }

  lemma Rest(entries: seq<Entry>, e: Entry)
    requires Ascending(entries) && entries != []
    ensures e in entries[1..] <==> e in entries && e != entries[0]
  {
    LessIsTotal(entries[0].path, entries[0].path);
    assert entries == [entries[0]] + entries[1..];
  }

  lemma Inserted(entries: seq<Entry>, entry: Entry, at: nat)
    requires Ascending(entries) && at <= |entries| && entry.path !in Paths(entries)
    requires forall j | 0 <= j < at :: !Less(entry.path, entries[j].path)
    requires at < |entries| ==> Less(entry.path, entries[at].path)
    ensures Ascending(entries[..at] + [entry] + entries[at..])
    ensures forall e :: e in entries[..at] + [entry] + entries[at..] <==> e in entries || e == entry
  {
    forall j | 0 <= j < |entries| ensures if j < at then Less(entries[j].path, entry.path) else Less(entry.path, entries[j].path) {
      assert Paths(entries)[j] == entries[j].path;
      LessIsTotal(entries[j].path, entry.path);
      if j > at { LessIsTransitive(entry.path, entries[at].path, entries[j].path); }
    }
    assert entries == entries[..at] + entries[at..];
  }

  // ---- Names ----

  type Nanos = t: int | -0x8000_0000_0000_0000 <= t < 0x8000_0000_0000_0000

  function Pow10(k: nat): nat {
    if k == 0 then 1 else 10 * Pow10(k - 1)
  }

  /** The last `k` decimal digits. */
  function Digits(n: nat, k: nat): string {
    if k == 0 then "" else Digits(n / 10, k - 1) + ['0' + (n % 10) as char]
  }

  /** A clock reading as `%020d` writes it. */
  function Stamp(now: Nanos): string {
    var t: int := now;
    if t < 0 then "-" + Digits(-t, 19) else Digits(t, 20)
  }

  function BatchName(now: Nanos, suffix: string): (name: string)
    ensures HasSuffix(name, ".json")
  {
    "batch-" + (Stamp(now) + ("-" + suffix + ".json"))
  }

  lemma {:induction false} CommonPrefix(prefix: string, a: string, b: string)
    ensures Less(prefix + a, prefix + b) <==> Less(a, b)
  {
    if prefix == "" {
      assert prefix + a == a && prefix + b == b;
    } else {
      assert (prefix + a)[1..] == prefix[1..] + a && (prefix + b)[1..] == prefix[1..] + b;
      CommonPrefix(prefix[1..], a, b);
    }
  }

  lemma {:induction false} DigitsOrder(a: nat, b: nat, k: nat, x: string, y: string)
    requires a < b < Pow10(k)
    ensures Less(Digits(a, k) + x, Digits(b, k) + y)
    decreases k
  {
    if k > 0 {
      var da, db := ['0' + (a % 10) as char], ['0' + (b % 10) as char];
      assert Digits(a, k) + x == Digits(a / 10, k - 1) + (da + x);
      assert Digits(b, k) + y == Digits(b / 10, k - 1) + (db + y);
      if a / 10 < b / 10 {
        DigitsOrder(a / 10, b / 10, k - 1, da + x, db + y);
      } else {
        CommonPrefix(Digits(a / 10, k - 1), da + x, db + y);
      }
    }
  }

  lemma DigitsAreDigits(n: nat, k: nat)
    ensures |Digits(n, k)| == k && forall i | 0 <= i < k :: '0' <= Digits(n, k)[i] <= '9'
  {
  }

  lemma NanosFit()
    ensures Pow10(20) > Pow10(19) > 0x8000_0000_0000_0000
  {
    assert Pow10(10) == 100_0000_0000;
    assert Pow10(15) == 100_0000 * 10_0000_0000;
    assert Pow10(19) == 1_0000 * 100_0000 * 10_0000_0000;
  }

  /** Batches sort by the clock readings they were written at, except that two readings from
      before 1970 sort backwards. */
  lemma NamesFollowTheClock(a: Nanos, b: Nanos, x: string, y: string)
    requires a != b
    ensures Less(BatchName(a, x), BatchName(b, y)) <==> if a < 0 && b < 0 then b < a else a < b
  {
    var xs, ys := "-" + x + ".json", "-" + y + ".json";
    CommonPrefix("batch-", Stamp(a) + xs, Stamp(b) + ys);
    if a < b {
      StampsOrder(a, b, xs, ys);
    } else {
      StampsOrder(b, a, ys, xs);
    }
    LessIsTotal(Stamp(a) + xs, Stamp(b) + ys);
  }

  lemma StampsOrder(a: Nanos, b: Nanos, x: string, y: string)
    requires a < b
    ensures if b < 0 then Less(Stamp(b) + y, Stamp(a) + x) else Less(Stamp(a) + x, Stamp(b) + y)
  {
    NanosFit();
    if 0 <= a {
      DigitsOrder(a, b, 20, x, y);
    } else if b < 0 {
      var m: int, n: int := -(b as int), -(a as int);
      DigitsOrder(m, n, 19, y, x);
      SignFirst(Digits(m, 19), y);
      SignFirst(Digits(n, 19), x);
      CommonPrefix("-", Digits(m, 19) + y, Digits(n, 19) + x);
    } else {
      DigitsAreDigits(b, 20);
      assert (Stamp(a) + x)[0] == '-' && (Stamp(b) + y)[0] == Digits(b, 20)[0];
    }
  }

  lemma SignFirst(digits: string, x: string)
    ensures "-" + digits + x == "-" + (digits + x)
  {
  }

  // ---- Eviction ----

  function Sum(entries: seq<Entry>): nat {
    if entries == [] then 0 else Sum(entries[..|entries| - 1]) + entries[|entries| - 1].size
  }

  lemma {:induction false} SumSplits(a: seq<Entry>, b: seq<Entry>)
    ensures Sum(a + b) == Sum(a) + Sum(b)
    decreases |b|
  {
    if b == [] {
      assert a + b == a;
    } else {
      assert (a + b)[..|a + b| - 1] == a + b[..|b| - 1];
      SumSplits(a, b[..|b| - 1]);
    }
  }

  datatype Walk = Walk(total: int, removed: nat, kept: seq<Entry>)

  /** prune's loop after `n` entries; `deletable` says which deletions succeed. Once it
      breaks off, nothing changes any more. */
  function Walked(entries: seq<Entry>, maxBytes: int, deletable: string -> bool, n: nat): Walk
    requires n <= |entries|
  {
    if n == 0 then Walk(Sum(entries), 0, [])
    else
      var before, e := Walked(entries, maxBytes, deletable, n - 1), entries[n - 1];
      if before.total > maxBytes && |entries| - before.removed > 1 && deletable(e.path)
      then Walk(before.total - e.size, before.removed + 1, before.kept)
      else before.(kept := before.kept + [e])
  }

  function Survivors(entries: seq<Entry>, maxBytes: int, deletable: string -> bool): seq<Entry> {
    Walked(entries, maxBytes, deletable, |entries|).kept
  }

  lemma {:induction false} StoppedStays(entries: seq<Entry>, maxBytes: int, deletable: string -> bool, from: nat, n: nat)
    requires from <= n <= |entries|
    requires var w := Walked(entries, maxBytes, deletable, from); w.total <= maxBytes || |entries| - w.removed <= 1
    ensures var w := Walked(entries, maxBytes, deletable, from);
            Walked(entries, maxBytes, deletable, n) == Walk(w.total, w.removed, w.kept + entries[from..n])
    decreases n
  {
    if n == from {
      assert entries[from..n] == [];
    } else {
      StoppedStays(entries, maxBytes, deletable, from, n - 1);
      assert entries[from..n] == entries[from..n - 1] + [entries[n - 1]];
    }
  }

  /** The paths of the entries that are not in `left`. */
  ghost function Gone(entries: seq<Entry>, left: seq<Entry>): set<string> {
    set e | e in entries && e !in left :: e.path
  }

  /** How far a walk gets when every deletion succeeds. */
  lemma {:induction false} AllDeletedSoFar(entries: seq<Entry>, maxBytes: int, deletable: string -> bool, n: nat)
    requires n <= |entries| && forall e | e in entries :: deletable(e.path)
    requires forall k | 0 <= k < n :: Sum(entries[k..]) > maxBytes && |entries| - k > 1
    ensures Walked(entries, maxBytes, deletable, n) == Walk(Sum(entries[n..]), n, [])
    decreases n
  {
    if n == 0 {
      assert entries[0..] == entries;
    } else {
      AllDeletedSoFar(entries, maxBytes, deletable, n - 1);
      assert entries[n - 1] in entries;
      assert entries[n - 1..] == [entries[n - 1]] + entries[n..];
      SumSplits([entries[n - 1]], entries[n..]);
      assert [entries[n - 1]][..0] == [];
      assert Sum([entries[n - 1]]) == entries[n - 1].size;
    }
  }

  /** The least number of oldest batches that must go. */
  function Excess(entries: seq<Entry>, maxBytes: int): (k: nat)
    ensures k <= |entries|
    ensures |entries| - k <= 1 || Sum(entries[k..]) <= maxBytes
    ensures forall j | 0 <= j < k :: Sum(entries[j..]) > maxBytes && |entries| - j > 1
    ensures entries != [] ==> k < |entries|
    decreases |entries|
  {
    if |entries| <= 1 || Sum(entries) <= maxBytes then
      assert entries[0..] == entries;
      0
    else
      var k := Excess(entries[1..], maxBytes);
      OneFurther(entries);
      1 + k
  }

  lemma OneFurther(entries: seq<Entry>)
    requires entries != []
    ensures entries[0..] == entries && forall j | 0 < j <= |entries| :: entries[1..][j - 1..] == entries[j..]
  {
  }

  /** `left` are the newest batches, from number k on, and k is as small as the budget allows. */
  ghost predicate NewestFrom(entries: seq<Entry>, left: seq<Entry>, maxBytes: nat, k: int) {
    && 0 <= k <= |entries| && left == entries[k..]
    && (entries != [] ==> k < |entries|)
    && (Sum(left) <= maxBytes || |left| == 1)
    && forall j | 0 <= j < k :: Sum(entries[j..]) > maxBytes
  }

  /** When every deletion succeeds, the survivors are the newest batches: the newest one is
      always among them, they fit the budget or are alone, and no fewer evictions of the
      oldest would have done. */
  lemma SurvivorsAreNewest(entries: seq<Entry>, maxBytes: nat, deletable: string -> bool)
    requires forall e | e in entries :: deletable(e.path)
    ensures exists k :: NewestFrom(entries, Survivors(entries, maxBytes, deletable), maxBytes, k)
  {
    SurvivorsExactly(entries, maxBytes, deletable);
    ExcessIsRight(entries, maxBytes);
  }

  lemma SurvivorsExactly(entries: seq<Entry>, maxBytes: nat, deletable: string -> bool)
    requires forall e | e in entries :: deletable(e.path)
    ensures Survivors(entries, maxBytes, deletable) == entries[Excess(entries, maxBytes)..]
  {
    var k := Excess(entries, maxBytes);
    AllDeletedSoFar(entries, maxBytes, deletable, k);
    StoppedStays(entries, maxBytes, deletable, k, |entries|);
    assert [] + entries[k..|entries|] == entries[k..];
  }

  lemma ExcessIsRight(entries: seq<Entry>, maxBytes: nat)
    ensures NewestFrom(entries, entries[Excess(entries, maxBytes)..], maxBytes, Excess(entries, maxBytes))
  {
  }

  // ---- Eviction when deletions fail ----

  function Stuck(entries: seq<Entry>, deletable: string -> bool): seq<Entry> {
    if entries == [] then []
    else
      var last := entries[|entries| - 1];
      Stuck(entries[..|entries| - 1], deletable) + if deletable(last.path) then [] else [last]
  }

  lemma SumOne(e: Entry)
    ensures Sum([e]) == e.size
  {
  }

  /** A walk over the first `n` of `all` entries has removed no more than what can be deleted,
      and exactly that while it still goes on. */
  predicate Account(w: Walk, maxBytes: int, all: nat, stuckBytes: nat, stuck: nat, ahead: nat, n: nat) {
    && w.total >= stuckBytes + ahead && w.removed + stuck <= n
    && (w.total > maxBytes && all - w.removed > 1 ==> w.total == stuckBytes + ahead && w.removed + stuck == n)
  }

  /** A walk removes no more than what can be deleted, and exactly that while it goes on. */
  lemma {:induction false} WalkSoFar(entries: seq<Entry>, maxBytes: int, deletable: string -> bool, n: nat)
    requires n <= |entries|
    ensures var w, stuck := Walked(entries, maxBytes, deletable, n), Stuck(entries[..n], deletable);
            Account(w, maxBytes, |entries|, Sum(stuck), |stuck|, Sum(entries[n..]), n)
    decreases n
  {
    if n == 0 {
      assert entries[..0] == [] && entries[0..] == entries;
    } else {
      WalkSoFar(entries, maxBytes, deletable, n - 1);
      var before, after := Stuck(entries[..n - 1], deletable), Stuck(entries[..n], deletable);
      StuckStep(entries, deletable, n);
      WalkStep(entries, maxBytes, deletable, n);
      AccountStep(Walked(entries, maxBytes, deletable, n - 1), Walked(entries, maxBytes, deletable, n), maxBytes, |entries|,
                  Sum(before), |before|, Sum(after), |after|, Sum(entries[n..]), entries[n - 1].size, deletable(entries[n - 1].path), n);
    }
  }

  lemma AccountStep(w: Walk, u: Walk, maxBytes: int, all: nat, stuckBytes: nat, stuck: nat, stuckBytesNow: nat, stuckNow: nat,
                    ahead: nat, size: nat, deletable: bool, n: nat)
    requires n > 0 && Account(w, maxBytes, all, stuckBytes, stuck, size + ahead, n - 1)
    requires if deletable then stuckBytesNow == stuckBytes && stuckNow == stuck
             else stuckBytesNow == stuckBytes + size && stuckNow == stuck + 1
    requires if w.total > maxBytes && all - w.removed > 1 && deletable
             then u.total == w.total - size && u.removed == w.removed + 1
             else u.total == w.total && u.removed == w.removed
    ensures Account(u, maxBytes, all, stuckBytesNow, stuckNow, ahead, n)
  {
  }

  /** One round of prune's loop, in figures. */
  lemma WalkStep(entries: seq<Entry>, maxBytes: int, deletable: string -> bool, n: nat)
    requires 0 < n <= |entries|
    ensures var w, u, e := Walked(entries, maxBytes, deletable, n - 1), Walked(entries, maxBytes, deletable, n), entries[n - 1];
            if w.total > maxBytes && |entries| - w.removed > 1 && deletable(e.path)
            then u.total == w.total - e.size && u.removed == w.removed + 1
            else u.total == w.total && u.removed == w.removed
  {
  }

  /** How the stuck and the remaining bytes change over one entry. */
  lemma StuckStep(entries: seq<Entry>, deletable: string -> bool, n: nat)
    requires 0 < n <= |entries|
    ensures var e, before, after := entries[n - 1], Stuck(entries[..n - 1], deletable), Stuck(entries[..n], deletable);
            && Sum(entries[n - 1..]) == e.size + Sum(entries[n..])
            && (if deletable(e.path) then after == before else |after| == |before| + 1 && Sum(after) == Sum(before) + e.size)
  {
    var e := entries[n - 1];
    assert entries[n - 1..] == [e] + entries[n..];
    SumSplits([e], entries[n..]);
    SumOne(e);
    assert entries[..n][..n - 1] == entries[..n - 1];
    SumSplits(Stuck(entries[..n - 1], deletable), [e]);
  }

  lemma {:induction false} StuckMembers(entries: seq<Entry>, deletable: string -> bool)
    ensures Stuck(entries, deletable) != [] <==> exists e :: e in entries && !deletable(e.path)
    decreases |entries|
  {
    if entries != [] {
      var before, last := entries[..|entries| - 1], entries[|entries| - 1];
      assert entries == before + [last];
      StuckMembers(before, deletable);
    }
  }

  lemma {:induction false} KeptFromPrefix(entries: seq<Entry>, maxBytes: int, deletable: string -> bool, n: nat)
    requires n <= |entries|
    ensures forall e | e in Walked(entries, maxBytes, deletable, n).kept :: e in entries[..n]
    decreases n
  {
    if n > 0 {
      KeptFromPrefix(entries, maxBytes, deletable, n - 1);
      assert entries[..n] == entries[..n - 1] + [entries[n - 1]];
    }
  }

  lemma Once(entries: seq<Entry>, p: nat)
    requires Ascending(entries) && p < |entries|
    ensures entries[p] !in entries[..p] && entries[p] !in entries[p + 1..]
  {
    LessIsTotal(entries[p].path, entries[p].path);
  }

  lemma {:induction false} LaterAreKept(entries: seq<Entry>, maxBytes: int, deletable: string -> bool, p: nat, n: nat)
    requires Ascending(entries) && p < n <= |entries|
    ensures entries[p] in Walked(entries, maxBytes, deletable, n).kept <==> entries[p] in Walked(entries, maxBytes, deletable, p + 1).kept
    decreases n
  {
    if n > p + 1 {
      LaterAreKept(entries, maxBytes, deletable, p, n - 1);
      LessIsTotal(entries[p].path, entries[p].path);
      assert entries[n - 1] != entries[p];
    }
  }

  /** Deleting everything deletable before entry p still leaves too much, and more than one batch. */
  predicate Overdue(entries: seq<Entry>, maxBytes: int, deletable: string -> bool, p: nat)
    requires p < |entries|
  {
    var stuck := Stuck(entries[..p], deletable);
    && deletable(entries[p].path)
    && Sum(stuck) + Sum(entries[p..]) > maxBytes
    && |stuck| + |entries| - p > 1
  }

  /** The batch in position p is evicted exactly when it is overdue. */
  lemma EvictedExactly(entries: seq<Entry>, maxBytes: int, deletable: string -> bool, p: nat)
    requires Ascending(entries) && p < |entries|
    ensures entries[p] !in Survivors(entries, maxBytes, deletable) <==> Overdue(entries, maxBytes, deletable, p)
  {
    LaterAreKept(entries, maxBytes, deletable, p, |entries|);
    KeptFromPrefix(entries, maxBytes, deletable, p);
    Once(entries, p);
    WalkSoFar(entries, maxBytes, deletable, p);
  }

  /** The newest batch is lost exactly when it can be deleted, an older one could not be,
      and what is stuck together with it still exceeds the budget. */
  lemma NewestLostExactly(entries: seq<Entry>, maxBytes: int, deletable: string -> bool)
    requires Ascending(entries) && entries != []
    ensures var older, newest := entries[..|entries| - 1], entries[|entries| - 1];
            newest !in Survivors(entries, maxBytes, deletable) <==>
              && deletable(newest.path)
              && (exists e :: e in older && !deletable(e.path))
              && Sum(Stuck(older, deletable)) + newest.size > maxBytes
  {
    var n := |entries| - 1;
    EvictedExactly(entries, maxBytes, deletable, n);
    StuckMembers(entries[..n], deletable);
    assert entries[n..] == [entries[n]];
    SumOne(entries[n]);
  }

  // ---- Writing a batch ----

  method Total(entries: seq<Entry>) returns (total: int)
    ensures total == Sum(entries)
  {
    total := 0;
    for i := 0 to |entries|
      invariant total == Sum(entries[..i])
    {
      assert entries[..i + 1][..i] == entries[..i];
      total := total + entries[i].size;
    }
    assert entries[..|entries|] == entries;
  }

  datatype Enqueued = NoResults | Failed | Written(name: string)

  class ResultSpool {
    const maxBytes: int
    var dir: Directory

    constructor (maxBytes: int, dir: Directory)
      ensures this.dir == dir && this.maxBytes == if maxBytes <= 0 then DEFAULT_MAX_BYTES else maxBytes
    {
      this.maxBytes := if maxBytes <= 0 then DEFAULT_MAX_BYTES else maxBytes;
      this.dir := dir;
    }

    method Pending() returns (entries: seq<Entry>)
      ensures Lists(entries, dir)
    {
      entries := [];
      var names := dir.Keys;
      while names != {}
        invariant names <= dir.Keys && Ascending(entries)
        invariant forall e :: e in entries <==> Listed(e, dir) && e.path !in names
        decreases names
      {
        var name :| name in names;
        names := names - {name};
        if dir[name].Folder? || !HasSuffix(name, ".json") || dir[name].size.None? {
          continue;
        }
        var entry := Entry(name, dir[name].size.value);
        var at := Place(Paths(entries), name);
        NotYet(entries, dir, names + {name}, name);
        assert forall j | 0 <= j < |entries| :: Paths(entries)[j] == entries[j].path;
        Inserted(entries, entry, at);
        entries := entries[..at] + [entry] + entries[at..];
      }
    }

    /** prune: whatever `deletable` deletions succeed, just the survivors of the listing stay. */
    method Prune(deletable: string -> bool) returns (removed: nat, ghost entries: seq<Entry>)
      modifies `dir
      ensures Lists(entries, old(dir)) && removed == |entries| - |Survivors(entries, maxBytes, deletable)|
      ensures dir == old(dir) - Gone(entries, Survivors(entries, maxBytes, deletable))
    {
      var listing := Pending();
      entries := listing;
      var total := Total(listing);
      removed := 0;
      for i := 0 to |listing|
        invariant Figures(listing, maxBytes, deletable, i) == (total, removed)
        invariant dir == Left(old(dir), listing, maxBytes, deletable, i)
      {
        WalkStep(listing, maxBytes, deletable, i + 1);
        LeftStep(old(dir), listing, maxBytes, deletable, i);
        if total <= maxBytes || |listing| - removed <= 1 {
          LeftStops(old(dir), listing, maxBytes, deletable, i);
          Tally(listing, maxBytes, deletable, |listing|);
          return;
        }
        if deletable(listing[i].path) {
          dir := dir - {listing[i].path};
          total := total - listing[i].size;
          removed := removed + 1;
        }
      }
      Tally(listing, maxBytes, deletable, |listing|);
      assert listing[..|listing|] == listing;
    }

    /** enqueue. `published` says whether the file reaches its final name, `size` what its size
        reads as, `listed` whether the directory can then be read. */
    method Enqueue(results: nat, now: Nanos, suffix: string, size: Option<nat>, published: bool, listed: bool,
                   deletable: string -> bool)
      returns (outcome: Enqueued, ghost entries: seq<Entry>)
      modifies `dir
      ensures var name := BatchName(now, suffix);
              outcome == if results == 0 then NoResults
                         else if !published || (name in old(dir) && old(dir)[name].Folder?) then Failed
                         else Written(name)
      ensures !outcome.Written? ==> dir == old(dir)
      ensures outcome.Written? ==> Lists(entries, old(dir)[outcome.name := File(size)])
      ensures outcome.Written? ==> dir == AfterEnqueue(old(dir)[outcome.name := File(size)], entries, listed, maxBytes, deletable)
    {
      entries := [];
      if results == 0 {
        return NoResults, [];
      }
      var name := BatchName(now, suffix);
      if !published || (name in dir && dir[name].Folder?) {
        return Failed, [];
      }
      dir := dir[name := File(size)];
      outcome := Written(name);
      if listed {
        var removed;
        removed, entries := Prune(deletable);
      } else {
        entries := Pending();
      }
    }
  }

  lemma NotYet(entries: seq<Entry>, dir: Directory, names: set<string>, name: string)
    requires name in names && forall e :: e in entries <==> Listed(e, dir) && e.path !in names
    ensures name !in Paths(entries)
  {
  }

  function Figures(entries: seq<Entry>, maxBytes: int, deletable: string -> bool, n: nat): (int, nat)
    requires n <= |entries|
  {
    var w := Walked(entries, maxBytes, deletable, n);
    (w.total, w.removed)
  }

  /** The directory after `n` rounds of prune's loop. */
  ghost function Left(dir: Directory, entries: seq<Entry>, maxBytes: int, deletable: string -> bool, n: nat): Directory
    requires n <= |entries|
  {
    dir - Gone(entries[..n], Walked(entries, maxBytes, deletable, n).kept)
  }

  lemma LeftStep(dir: Directory, entries: seq<Entry>, maxBytes: int, deletable: string -> bool, n: nat)
    requires Ascending(entries) && n < |entries|
    ensures var w := Walked(entries, maxBytes, deletable, n);
            Left(dir, entries, maxBytes, deletable, n + 1) ==
              if w.total > maxBytes && |entries| - w.removed > 1 && deletable(entries[n].path)
              then Left(dir, entries, maxBytes, deletable, n) - {entries[n].path}
              else Left(dir, entries, maxBytes, deletable, n)
  {
    KeptFromPrefix(entries, maxBytes, deletable, n);
    Once(entries, n);
    GoneStep(entries[..n], Walked(entries, maxBytes, deletable, n).kept, entries[n]);
    assert entries[..n + 1] == entries[..n] + [entries[n]];
  }

  lemma GoneStep(before: seq<Entry>, kept: seq<Entry>, e: Entry)
    requires e !in before && e !in kept
    ensures Gone(before + [e], kept) == Gone(before, kept) + {e.path}
    ensures Gone(before + [e], kept + [e]) == Gone(before, kept)
  {
  }

  lemma LeftStops(dir: Directory, entries: seq<Entry>, maxBytes: int, deletable: string -> bool, n: nat)
    requires Ascending(entries) && n <= |entries|
    requires var w := Walked(entries, maxBytes, deletable, n); w.total <= maxBytes || |entries| - w.removed <= 1
    ensures Walked(entries, maxBytes, deletable, |entries|).removed == Walked(entries, maxBytes, deletable, n).removed
    ensures Left(dir, entries, maxBytes, deletable, n) == dir - Gone(entries, Survivors(entries, maxBytes, deletable))
  {
    var before, rest, kept := entries[..n], entries[n..], Walked(entries, maxBytes, deletable, n).kept;
    assert Survivors(entries, maxBytes, deletable) == kept + rest by {
      StoppedStays(entries, maxBytes, deletable, n, |entries|);
      assert entries[n..|entries|] == rest;
    }
    StoppedStays(entries, maxBytes, deletable, n, |entries|);
    forall e | e in before ensures e !in rest { Apart(entries, n, e); }
    GoneStops(before, kept, rest);
    assert entries == before + rest;
  }

  lemma GoneStops(before: seq<Entry>, kept: seq<Entry>, rest: seq<Entry>)
    requires forall e | e in before :: e !in rest
    ensures Gone(before + rest, kept + rest) == Gone(before, kept)
  {
  }

  lemma {:induction false} Tally(entries: seq<Entry>, maxBytes: int, deletable: string -> bool, n: nat)
    requires n <= |entries|
    ensures var w := Walked(entries, maxBytes, deletable, n); w.removed + |w.kept| == n
    decreases n
  {
    if n > 0 { Tally(entries, maxBytes, deletable, n - 1); }
  }

  lemma Apart(entries: seq<Entry>, i: nat, e: Entry)
    requires Ascending(entries) && i <= |entries| && e in entries[..i]
    ensures e !in entries[i..]
  {
    LessIsTotal(e.path, e.path);
  }

  ghost function AfterEnqueue(written: Directory, entries: seq<Entry>, listed: bool, maxBytes: int, deletable: string -> bool): Directory {
    if listed then written - Gone(entries, Survivors(entries, maxBytes, deletable)) else written
  }

  /** The batch just written under `name` is lost exactly when it is overdue in the listing it
      was written into. */
  lemma JustWrittenLostExactly(written: Directory, entries: seq<Entry>, maxBytes: int, deletable: string -> bool, name: string, p: nat)
    requires Lists(entries, written) && p < |entries| && entries[p].path == name
    ensures name !in AfterEnqueue(written, entries, true, maxBytes, deletable) <==> Overdue(entries, maxBytes, deletable, p)
  {
    EvictedExactly(entries, maxBytes, deletable, p);
    assert entries[p] in entries;
    assert name in written;
    forall e | e in entries && e.path == name ensures e == entries[p] { assert Listed(e, written) && Listed(entries[p], written); }
  }

  /** When every deletion succeeds, it is lost exactly when a batch of a later name is there and
      the batches from its own name on exceed the budget. */
  lemma LostToALaterName(written: Directory, entries: seq<Entry>, maxBytes: int, deletable: string -> bool, name: string, p: nat)
    requires Lists(entries, written) && p < |entries| && entries[p].path == name
    requires forall e | e in entries :: deletable(e.path)
    ensures name !in AfterEnqueue(written, entries, true, maxBytes, deletable) <==> p < |entries| - 1 && Sum(entries[p..]) > maxBytes
  {
    JustWrittenLostExactly(written, entries, maxBytes, deletable, name, p);
    StuckMembers(entries[..p], deletable);
    assert entries[p] in entries;
    assert Stuck(entries[..p], deletable) == [];
  }

  /** Every batch in the directory was written by enqueue, at clock readings before `now`. */
  ghost predicate WrittenBefore(dir: Directory, now: Nanos) {
    forall e | Listed(e, dir) :: exists t: Nanos, x :: t < now && e.path == BatchName(t, x)
  }

  /** While the clock has only moved forward, the batch just written is listed last, so it is
      lost exactly when an older one is stuck and both exceed the budget. */
  lemma KeptWhileTheClockMovesOn(dir: Directory, now: Nanos, suffix: string, size: nat, entries: seq<Entry>, maxBytes: int, deletable: string -> bool)
    requires now >= 0 && WrittenBefore(dir, now)
    requires Lists(entries, dir[BatchName(now, suffix) := File(Some(size))])
    ensures var name, written := BatchName(now, suffix), dir[BatchName(now, suffix) := File(Some(size))];
            && entries != [] && entries[|entries| - 1] == Entry(name, size)
            && (name !in AfterEnqueue(written, entries, true, maxBytes, deletable) <==>
                  && deletable(name)
                  && (exists e :: e in entries[..|entries| - 1] && !deletable(e.path))
                  && Sum(Stuck(entries[..|entries| - 1], deletable)) + size > maxBytes)
  {
    var name, written := BatchName(now, suffix), dir[BatchName(now, suffix) := File(Some(size))];
    assert Listed(Entry(name, size), written);
    var p :| 0 <= p < |entries| && entries[p] == Entry(name, size);
    if p < |entries| - 1 {
      var last := entries[|entries| - 1];
      assert last in entries && Less(name, last.path);
      LessIsTotal(name, last.path);
      assert Listed(last, dir);
      var t: Nanos, x :| t < now && last.path == BatchName(t, x);
      NamesFollowTheClock(t, now, x, suffix);
      assert false;
    }
    JustWrittenLostExactly(written, entries, maxBytes, deletable, name, p);
    NewestLostExactly(entries, maxBytes, deletable);
    EvictedExactly(entries, maxBytes, deletable, p);
  }

  function Pair(first: string, second: string): Directory {
    map[first := File(Some(10)), second := File(Some(10))]
  }

  function PairListed(first: string, second: string): seq<Entry> {
    [Entry(first, 10), Entry(second, 10)]
  }

  lemma PairIsListed(first: string, second: string)
    requires Less(first, second) && HasSuffix(first, ".json") && HasSuffix(second, ".json")
    ensures Lists(PairListed(first, second), Pair(first, second)) && Pair(first, second) == Pair(second, first)
    ensures Sum(PairListed(first, second)) == 20
  {
    LessIsTotal(first, second);
    var entries := PairListed(first, second);
    assert entries == [entries[0]] + [entries[1]];
    SumSplits([entries[0]], [entries[1]]);
    SumOne(entries[0]);
    SumOne(entries[1]);
    forall e ensures e in entries <==> Listed(e, Pair(first, second)) {
      assert e in entries <==> e == entries[0] || e == entries[1];
    }
  }

  /** The clock steps back between two batches of 10 bytes, with room for 15: the batch just
      written sorts first and is evicted at once, though every deletion succeeds. */
  lemma ClockStepLosesTheNewest()
    ensures var older, newest := BatchName(2_000, "a"), BatchName(1_000, "b");
            && Lists(PairListed(newest, older), Pair(older, newest))
            && newest !in AfterEnqueue(Pair(older, newest), PairListed(newest, older), true, 15, _ => true)
  {
    var older, newest := BatchName(2_000, "a"), BatchName(1_000, "b");
    NamesFollowTheClock(1_000, 2_000, "b", "a");
    PairIsListed(newest, older);
    var entries := PairListed(newest, older);
    assert entries[0..] == entries;
    LostToALaterName(Pair(older, newest), entries, 15, _ => true, newest, 0);
  }

  /** The same two batches in clock order, the older one stuck: the newest is evicted. */
  lemma FailedDeletionLosesTheNewest()
    ensures var older, newest := BatchName(1_000, "a"), BatchName(2_000, "b");
            && Lists(PairListed(older, newest), Pair(older, newest))
            && newest !in AfterEnqueue(Pair(older, newest), PairListed(older, newest), true, 15, path => path == BatchName(2_000, "b"))
  {
    var older, newest := BatchName(1_000, "a"), BatchName(2_000, "b");
    var deletable := (path: string) => path == BatchName(2_000, "b");
    NamesFollowTheClock(1_000, 2_000, "a", "b");
    LessIsTotal(older, newest);
    PairIsListed(older, newest);
    var entries := PairListed(older, newest);
    StuckAlone(entries[0], deletable);
    assert entries[..1] == [entries[0]] && entries[1..] == [entries[1]];
    SumOne(entries[1]);
    JustWrittenLostExactly(Pair(older, newest), entries, 15, deletable, newest, 1);
  }

  lemma StuckAlone(e: Entry, deletable: string -> bool)
    requires !deletable(e.path)
    ensures Stuck([e], deletable) == [e] && Sum([e]) == e.size
  {
  }

  // ---- Replay ----

  /** The batches that can be read, with how many results each holds. */
  function Readable(entries: seq<Entry>, read: string -> Option<nat>): seq<string> {
    if entries == [] then []
    else
      var last := entries[|entries| - 1].path;
      Readable(entries[..|entries| - 1], read) + if read(last).Some? then [last] else []
  }

  function Delivered(entries: seq<Entry>, read: string -> Option<nat>): nat {
    if entries == [] then 0
    else
      var batch := read(entries[|entries| - 1].path);
      Delivered(entries[..|entries| - 1], read) + if batch.Some? then batch.value else 0
  }

  /** The directory once the listed paths were removed, as far as removing them succeeds. */
  function Cleared(dir: Directory, paths: seq<string>, deletable: string -> bool): Directory {
    if paths == [] then dir
    else
      var before, last := Cleared(dir, paths[..|paths| - 1], deletable), paths[|paths| - 1];
      if deletable(last) then before - {last} else before
  }

  predicate AllAnswered(entries: seq<Entry>, read: string -> Option<nat>, answered: string -> bool) {
    forall e | e in entries && read(e.path).Some? :: answered(e.path)
  }

  lemma ClearedOneMore(dir: Directory, paths: seq<string>, last: string, deletable: string -> bool)
    ensures Cleared(dir, paths + [last], deletable) ==
              if deletable(last) then Cleared(dir, paths, deletable) - {last} else Cleared(dir, paths, deletable)
  {
    assert (paths + [last])[..|paths|] == paths;
  }

  /** The first `n` batches are dealt with: the readable ones were posted and answered. */
  ghost predicate DealtWith(entries: seq<Entry>, n: nat, read: string -> Option<nat>, answered: string -> bool,
                            removed: seq<string>, posted: seq<string>, delivered: nat)
    requires n <= |entries|
  {
    && removed == Paths(entries[..n]) && posted == Readable(entries[..n], read)
    && delivered == Delivered(entries[..n], read) && AllAnswered(entries[..n], read, answered)
  }

  lemma OneMore(entries: seq<Entry>, n: nat, read: string -> Option<nat>, answered: string -> bool,
                removed: seq<string>, posted: seq<string>, delivered: nat)
    requires n < |entries| && DealtWith(entries, n, read, answered, removed, posted, delivered)
    requires read(entries[n].path).Some? ==> answered(entries[n].path)
    ensures var path, batch := entries[n].path, read(entries[n].path);
            DealtWith(entries, n + 1, read, answered, removed + [path], if batch.Some? then posted + [path] else posted,
                      if batch.Some? then delivered + batch.value else delivered)
  {
    assert entries[..n + 1] == entries[..n] + [entries[n]];
    assert entries[..n + 1][..n] == entries[..n] && entries[..n + 1][n] == entries[n];
  }

  /** drainSpool: `listed` says whether the directory can be read, `read` gives the number of
      results of a readable batch, `answered` which POSTs the server answers, `budget` how many
      batches find the drain context alive. A batch leaves the spool only after the server took
      it, or when it cannot be read; a refused batch stays, stops the drain and lengthens the
      wait. */
  method DrainSpool(deliverer: Deliverer, spool: ResultSpool, now: int, listed: bool, read: string -> Option<nat>,
                    answered: string -> bool, deletable: string -> bool, budget: nat)
    returns (removed: seq<string>, posted: seq<string>, delivered: nat, failed: bool, ghost entries: seq<Entry>)
    modifies deliverer, spool`dir
    ensures Lists(entries, old(spool.dir))
    ensures if failed then |removed| < |entries| && posted != [] && posted[|posted| - 1] == entries[|removed|].path
            else |removed| <= |entries|
    ensures DealtWith(entries, |removed|, read, answered, removed, if failed then posted[..|posted| - 1] else posted, delivered)
    ensures spool.dir == Cleared(old(spool.dir), removed, deletable)
    ensures failed ==> read(entries[|removed|].path).Some? && !answered(entries[|removed|].path)
                       && deliverer.nextAttempt == Some(now + deliverer.backoff)
    ensures old(deliverer.Waiting(now)) || !listed ==> removed == [] && posted == [] && !failed
    ensures !old(deliverer.Waiting(now)) && listed && !failed && budget >= |entries| ==> |removed| == |entries|
  {
    removed, posted, delivered, failed := [], [], 0, false;
    var listing := spool.Pending();
    entries := listing;
    if (deliverer.nextAttempt.Some? && now < deliverer.nextAttempt.value) || !listed {
      return;
    }
    for i := 0 to |listing|
      invariant DealtWith(listing, i, read, answered, removed, posted, delivered) && !failed
      invariant spool.dir == Cleared(old(spool.dir), removed, deletable)
    {
      if i >= budget {
        return;
      }
      var path := listing[i].path;
      ClearedOneMore(old(spool.dir), removed, path, deletable);
      ghost var before := posted;
      var batch := read(path);
      if batch.Some? {
        posted := posted + [path];
        if !answered(path) {
          deliverer.BackOff(now);
          failed := true;
          return;
        }
      }
      OneMore(listing, i, read, answered, removed, before, delivered);
      if batch.Some? {
        delivered := delivered + batch.value;
        deliverer.Clear();
      }
      removed := removed + [path];
      if deletable(path) {
        spool.dir := spool.dir - {path};
      }
    }
  }
}
