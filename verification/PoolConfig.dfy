/** Merging a batch of jobs into one engine config. Config values are JSON trees. */
module PoolConfig {

  import opened Prelude

  /** A JSON value; `Integer` is a number that converts to int without loss. */
  datatype Json =
    | Integer(n: int)
    | OtherNumber
    | Text(s: string)
    | Flag(b: bool)
    | List(items: seq<Json>)
    | Object(fields: map<string, Json>)

  type Fields = map<string, Json>

  /** An outbound is None where the list holds a null; a null inbound reads as an empty one. */
  datatype Job = Job(index: int, allocPort: int, inbounds: seq<Fields>, outbounds: seq<Option<Fields>>, socksPort: Option<Json>)

  datatype Rule = Rule(inboundTag: string, outboundTag: string)

  datatype Merged = Merged(inbounds: seq<Fields>, outbounds: seq<Fields>, rules: seq<Rule>)

  /** The node's own settings: `source` is None for a link-local source address. */
  datatype Settings = Settings(domainStrategy: string, source: Option<string>, interface: string)

  function AsInt(v: Option<Json>): Option<int> {
    if v.Some? && v.value.Integer? then Some(v.value.n) else None
  }

  function Field(m: Fields, key: string): Option<Json> {
    if key in m then Some(m[key]) else None
  }

  // ---- Tags ----

  function Digit(d: nat): char
    requires d < 10
  {
    "0123456789"[d]
  }

  function Itoa(n: int): string {
    if n < 0 then "-" + Decimal(-n) else Decimal(n)
  }

  function Decimal(n: nat): (s: string)
    ensures s != "" && forall c | c in s :: c in "0123456789"
  {
    if n < 10 then [Digit(n)] else Decimal(n / 10) + [Digit(n % 10)]
  }

  lemma {:induction false} DecimalInjective(a: nat, b: nat)
    requires Decimal(a) == Decimal(b)
    ensures a == b
    decreases a
  {
    var x, y := Decimal(a), Decimal(b);
    assert x[|x| - 1] == Digit(a % 10) && y[|y| - 1] == Digit(b % 10);
    assert a % 10 == b % 10;
    if a >= 10 && b >= 10 {
      assert Decimal(a / 10) == x[..|x| - 1] && Decimal(b / 10) == y[..|y| - 1];
      DecimalInjective(a / 10, b / 10);
    }
    assert a >= 10 <==> |x| >= 2;
    assert b >= 10 <==> |y| >= 2;
  }

  /** Decimal numbers hold no dash. */
  lemma DecimalHasNoDash(n: nat)
    ensures '-' !in Decimal(n)
  {
  }

  function InTag(index: int): string {
    "job-" + Itoa(index) + "-in"
  }

  function OutTag(index: int, i: nat): string {
    "job-" + Itoa(index) + "-out-" + Decimal(i)
  }

  /** Two numbers that end at a dash read the same only when they are the same. */
  lemma SplitAtDash(a: nat, b: nat, x: string, y: string)
    requires Decimal(a) + "-" + x == Decimal(b) + "-" + y
    ensures a == b && x == y
  {
    DecimalHasNoDash(a);
    DecimalHasNoDash(b);
    var s := Decimal(a) + "-" + x;
    assert s[|Decimal(a)|] == '-' && s[|Decimal(b)|] == '-';
    assert forall k | 0 <= k < |Decimal(a)| :: s[k] == Decimal(a)[k] && s[k] != '-';
    assert forall k | 0 <= k < |Decimal(b)| :: s[k] == Decimal(b)[k] && s[k] != '-';
    assert s[..|Decimal(a)|] == Decimal(a) && s[..|Decimal(b)|] == Decimal(b);
    DecimalInjective(a, b);
    assert s[|Decimal(a)| + 1..] == x && s[|Decimal(b)| + 1..] == y;
  }

  lemma AfterJob(a: string, b: string)
    requires "job-" + a == "job-" + b
    ensures a == b
  {
    assert ("job-" + a)[4..] == a && ("job-" + b)[4..] == b;
  }

  lemma TagsDiffer(a: nat, b: nat, i: nat, j: nat)
    ensures InTag(a) == InTag(b) ==> a == b
    ensures OutTag(a, i) == OutTag(b, j) ==> a == b && i == j
    ensures InTag(a) != OutTag(b, j)
  {
    assert InTag(a) == "job-" + (Decimal(a) + "-" + "in") && InTag(b) == "job-" + (Decimal(b) + "-" + "in");
    assert OutTag(a, i) == "job-" + (Decimal(a) + "-" + ("out-" + Decimal(i)));
    assert OutTag(b, j) == "job-" + (Decimal(b) + "-" + ("out-" + Decimal(j)));
    if InTag(a) == InTag(b) {
      AfterJob(Decimal(a) + "-" + "in", Decimal(b) + "-" + "in");
      SplitAtDash(a, b, "in", "in");
    }
    if OutTag(a, i) == OutTag(b, j) {
      AfterJob(Decimal(a) + "-" + ("out-" + Decimal(i)), Decimal(b) + "-" + ("out-" + Decimal(j)));
      SplitAtDash(a, b, "out-" + Decimal(i), "out-" + Decimal(j));
      assert ("out-" + Decimal(i))[4..] == Decimal(i) && ("out-" + Decimal(j))[4..] == Decimal(j);
      DecimalInjective(i, j);
    }
    if InTag(a) == OutTag(b, j) {
      AfterJob(Decimal(a) + "-" + "in", Decimal(b) + "-" + ("out-" + Decimal(j)));
      assert "in"[0] != ("out-" + Decimal(j))[0];
      SplitAtDash(a, b, "in", "out-" + Decimal(j));
    }
  }

  // ---- One job's share ----

  /** remapInbound: the first inbound on the declared port, moved to the allocated one. */
  function Remapped(inbounds: seq<Fields>, declared: int, allocPort: int): Option<Fields> {
    if inbounds == [] then None
    else
      var raw := inbounds[0];
      if AsInt(Field(raw, "port")) == Some(declared) then Some(raw["port" := Integer(allocPort)])
      else if AsInt(Field(raw, "listen_port")) == Some(declared) then Some(raw["listen_port" := Integer(allocPort)])
      else Remapped(inbounds[1..], declared, allocPort)
  }

  /** The job passes the three checks that would leave it out of the config. */
  predicate WellFormed(job: Job) {
    && AsInt(job.socksPort).Some? && job.inbounds != [] && job.outbounds != []
    && Remapped(job.inbounds, AsInt(job.socksPort).value, job.allocPort).Some?
  }

  function Sub(m: Fields, key: string): Fields {
    if key in m && m[key].Object? then m[key].fields else map[]
  }

  function WithSockopt(outbound: Fields, key: string, value: string): Fields {
    var stream := Sub(outbound, "streamSettings");
    var sockopt := Sub(stream, "sockopt")[key := Text(value)];
    outbound["streamSettings" := Object(stream["sockopt" := Object(sockopt)])]
  }

  function Resolved(outbound: Fields, settings: Settings): Fields {
    if settings.domainStrategy == "" then outbound else WithSockopt(outbound, "domainStrategy", settings.domainStrategy)
  }

  function Bound(outbound: Fields, settings: Settings): Fields {
    var sent := if settings.source.Some? then outbound["sendThrough" := Text(settings.source.value)] else outbound;
    if settings.interface == "" then sent else WithSockopt(sent, "interface", settings.interface)
  }

  /** Whether the engine may multiplex a job's first outbound. */
  predicate TakesMux(outbound: Fields) {
    var stream := Sub(outbound, "streamSettings");
    Field(stream, "network") != Some(Text("xhttp")) && Field(stream, "security") != Some(Text("reality"))
  }

  const MUX := Object(map["enabled" := Flag(true), "concurrency" := Integer(8)])

  function Prepared(outbound: Fields, index: int, i: nat, settings: Settings): Fields {
    var ready := Bound(Resolved(outbound["tag" := Text(OutTag(index, i))], settings), settings);
    if i == 0 && TakesMux(ready) then ready["mux" := MUX] else ready
  }

  predicate NoNulls(outbounds: seq<Option<Fields>>) {
    forall i | 0 <= i < |outbounds| :: outbounds[i].Some?
  }

  function PreparedAll(outbounds: seq<Option<Fields>>, index: int, settings: Settings): seq<Fields>
    requires NoNulls(outbounds)
  {
    seq(|outbounds|, i requires 0 <= i < |outbounds| => Prepared(outbounds[i].value, index, i, settings))
  }

  /** The build writes a tag into every outbound of a job it takes in, and writing into a null
      one aborts it. */
  predicate Aborts(job: Job) {
    WellFormed(job) && !NoNulls(job.outbounds)
  }

  /** What a job adds to the config; None when the build aborts over it. */
  function Share(job: Job, settings: Settings): Option<Merged> {
    if !WellFormed(job) then Some(Nothing)
    else if !NoNulls(job.outbounds) then None
    else
      var inbound := Remapped(job.inbounds, AsInt(job.socksPort).value, job.allocPort).value;
      Some(Merged([inbound["tag" := Text(InTag(job.index))]],
                  PreparedAll(job.outbounds, job.index, settings),
                  [Rule(InTag(job.index), OutTag(job.index, 0))]))
  }

  const Nothing := Merged([], [], [])

  function Join(a: Option<Merged>, b: Option<Merged>): Option<Merged> {
    if a.None? || b.None? then None
    else Some(Merged(a.value.inbounds + b.value.inbounds, a.value.outbounds + b.value.outbounds, a.value.rules + b.value.rules))
  }

  function Build(jobs: seq<Job>, settings: Settings): Option<Merged> {
    if jobs == [] then Some(Nothing)
    else Join(Build(jobs[..|jobs| - 1], settings), Share(jobs[|jobs| - 1], settings))
  }

  // ---- The loops ----

  method RemapInbound(inbounds: seq<Fields>, declaredPort: int, allocPort: int) returns (inbound: Option<Fields>)
    ensures inbound == Remapped(inbounds, declaredPort, allocPort)
  {
    assert inbounds[0..] == inbounds;
    for i := 0 to |inbounds|
      invariant Remapped(inbounds, declaredPort, allocPort) == Remapped(inbounds[i..], declaredPort, allocPort)
    {
      var raw := inbounds[i];
      assert inbounds[i..][0] == raw && inbounds[i..][1..] == inbounds[i + 1..];
      var keys := ["port", "listen_port"];
      assert keys[0] == "port" && keys[1] == "listen_port";
      for k := 0 to |keys|
        invariant forall l | 0 <= l < k :: AsInt(Field(raw, keys[l])) != Some(declaredPort)
      {
        var port := AsInt(Field(raw, keys[k]));
        if port.Some? && port.value == declaredPort {
          return Some(raw[keys[k] := Integer(allocPort)]);
        }
      }
    }
    return None;
  }

  method AppendOutbounds(outbounds: seq<Fields>, job: Job, settings: Settings) returns (all: Option<seq<Fields>>, primaryTag: string)
    ensures all == if NoNulls(job.outbounds) then Some(outbounds + PreparedAll(job.outbounds, job.index, settings)) else None
    ensures all.Some? ==> primaryTag == if job.outbounds == [] then "" else OutTag(job.index, 0)
  {
    var done := outbounds;
    primaryTag := "";
    for i := 0 to |job.outbounds|
      invariant NoNulls(job.outbounds[..i])
      invariant done == outbounds + PreparedAll(job.outbounds[..i], job.index, settings)
      invariant primaryTag == if i == 0 then "" else OutTag(job.index, 0)
    {
      if job.outbounds[i].None? {
        return None, primaryTag;
      }
      var tag := OutTag(job.index, i);
      var outbound := Bound(Resolved(job.outbounds[i].value["tag" := Text(tag)], settings), settings);
      if primaryTag == "" {
        primaryTag := tag;
        if TakesMux(outbound) {
          outbound := outbound["mux" := MUX];
        }
      }
      OnePreparedMore(job.outbounds, i, job.index, settings);
      done := done + [outbound];
    }
    assert job.outbounds[..|job.outbounds|] == job.outbounds;
    all := Some(done);
  }

  lemma OnePreparedMore(outbounds: seq<Option<Fields>>, i: nat, index: int, settings: Settings)
    requires i < |outbounds| && NoNulls(outbounds[..i]) && outbounds[i].Some?
    ensures NoNulls(outbounds[..i + 1])
    ensures PreparedAll(outbounds[..i + 1], index, settings)
         == PreparedAll(outbounds[..i], index, settings) + [Prepared(outbounds[i].value, index, i, settings)]
  {
    assert outbounds[..i + 1] == outbounds[..i] + [outbounds[i]];
  }

  method AppendJob(before: Merged, job: Job, settings: Settings) returns (merged: Option<Merged>)
    ensures merged == Join(Some(before), Share(job, settings))
  {
    var declaredPort := AsInt(job.socksPort);
    if declaredPort.None? || |job.inbounds| == 0 || |job.outbounds| == 0 {
      JoinNothing(Some(before));
      return Some(before);
    }
    var inbound := RemapInbound(job.inbounds, declaredPort.value, job.allocPort);
    if inbound.None? {
      JoinNothing(Some(before));
      return Some(before);
    }
    var inTag := InTag(job.index);
    var outbounds, primaryTag := AppendOutbounds(before.outbounds, job, settings);
    if outbounds.None? {
      return None;
    }
    merged := Some(Merged(before.inbounds + [inbound.value["tag" := Text(inTag)]], outbounds.value, before.rules + [Rule(inTag, primaryTag)]));
  }

  /** buildConfig; None when it aborts. */
  method BuildConfig(jobs: seq<Job>, settings: Settings) returns (merged: Option<Merged>)
    ensures merged == Build(jobs, settings)
  {
    var done := Nothing;
    for n := 0 to |jobs|
      invariant Build(jobs[..n], settings) == Some(done)
    {
      assert jobs[..n + 1][..n] == jobs[..n] && jobs[..n + 1][n] == jobs[n];
      merged := AppendJob(done, jobs[n], settings);
      if merged.None? {
        AbortStays(jobs, n + 1, settings);
        return;
      }
      done := merged.value;
    }
    assert jobs[..|jobs|] == jobs;
    merged := Some(done);
  }

  // ---- Aborted builds ----

  lemma AbortStays(jobs: seq<Job>, n: nat, settings: Settings)
    requires n <= |jobs| && Build(jobs[..n], settings).None?
    ensures Build(jobs, settings).None?
  {
    BuildIsPiecewise(jobs[..n], jobs[n..], settings);
    assert jobs == jobs[..n] + jobs[n..];
  }

  /** The whole build aborts exactly when a job that passes the three checks has a null outbound. */
  lemma {:induction false} AbortsExactly(jobs: seq<Job>, settings: Settings)
    ensures Build(jobs, settings).None? <==> exists job :: job in jobs && Aborts(job)
    decreases |jobs|
  {
    if jobs != [] {
      var before, last := jobs[..|jobs| - 1], jobs[|jobs| - 1];
      AbortsExactly(before, settings);
      assert forall job :: job in jobs <==> job in before || job == last by { assert jobs == before + [last]; }
      if Aborts(last) { assert Share(last, settings).None?; }
    }
  }

  const NullOutbound := Job(0, 20000, [map["port" := Integer(1080)]], [None], Some(Integer(1080)))
  const Sound := Job(1, 20001, [map["port" := Integer(1080)]], [Some(map[])], Some(Integer(1080)))

  /** One null outbound takes a sound job's config with it. */
  lemma NullOutboundTakesOthersAlong(settings: Settings)
    ensures Build([Sound], settings).Some? && Build([NullOutbound, Sound], settings).None?
  {
    var ports := [map["port" := Integer(1080)]];
    assert Remapped(ports, 1080, 20000) == Some(ports[0]["port" := Integer(20000)]);
    assert !NullOutbound.outbounds[0].Some?;
    assert NullOutbound in [NullOutbound, Sound] && Aborts(NullOutbound);
    AbortsExactly([NullOutbound, Sound], settings);
    AbortsExactly([Sound], settings);
  }

  // ---- No cross-talk ----

  lemma JoinIsAssociative(a: Option<Merged>, b: Option<Merged>, c: Option<Merged>)
    ensures Join(Join(a, b), c) == Join(a, Join(b, c))
  {
    if a.Some? && b.Some? && c.Some? {
      var x, y, z := a.value, b.value, c.value;
      assert x.inbounds + y.inbounds + z.inbounds == x.inbounds + (y.inbounds + z.inbounds);
      assert x.outbounds + y.outbounds + z.outbounds == x.outbounds + (y.outbounds + z.outbounds);
      assert x.rules + y.rules + z.rules == x.rules + (y.rules + z.rules);
    }
  }

  lemma JoinNothing(a: Option<Merged>)
    ensures Join(a, Some(Nothing)) == a
  {
    if a.Some? {
      assert a.value.inbounds + [] == a.value.inbounds && a.value.outbounds + [] == a.value.outbounds && a.value.rules + [] == a.value.rules;
    }
  }

  lemma BuildOneMore(jobs: seq<Job>, last: Job, settings: Settings)
    ensures Build(jobs + [last], settings) == Join(Build(jobs, settings), Share(last, settings))
  {
  }

  /** The config of a concatenation is the concatenation of the configs, if both can be built. */
  lemma {:induction false} BuildIsPiecewise(a: seq<Job>, b: seq<Job>, settings: Settings)
    ensures Build(a + b, settings) == Join(Build(a, settings), Build(b, settings))
    decreases |b|
  {
    if b == [] {
      assert a + b == a;
      JoinNothing(Build(a, settings));
    } else {
      var front, last := b[..|b| - 1], b[|b| - 1];
      assert a + b == (a + front) + [last] && b == front + [last];
      BuildIsPiecewise(a, front, settings);
      BuildOneMore(a + front, last, settings);
      BuildOneMore(front, last, settings);
      JoinIsAssociative(Build(a, settings), Build(front, settings), Share(last, settings));
    }
  }

  /** A job that fails one of the three checks changes nothing for the others, not even whether
      the build aborts. */
  lemma MalformedJobsVanish(a: seq<Job>, job: Job, b: seq<Job>, settings: Settings)
    requires !WellFormed(job)
    ensures Build(a + [job] + b, settings) == Build(a + b, settings)
  {
    BuildIsPiecewise(a + [job], b, settings);
    BuildIsPiecewise(a, b, settings);
    BuildOneMore(a, job, settings);
    JoinNothing(Build(a, settings));
  }

  function WellFormedOnes(jobs: seq<Job>): seq<Job> {
    if jobs == [] then []
    else WellFormedOnes(jobs[..|jobs| - 1]) + if WellFormed(jobs[|jobs| - 1]) then [jobs[|jobs| - 1]] else []
  }

  /** The inbound of a job: one of its own, moved to its allocated port, under its own tag. */
  predicate InboundOf(inbound: Fields, job: Job) {
    && Field(inbound, "tag") == Some(Text(InTag(job.index)))
    && exists i | 0 <= i < |job.inbounds| :: MovedFrom(inbound, job.inbounds[i], job)
  }

  /** One of the two port fields held the declared port and now holds the allocated one. */
  predicate MovedFrom(inbound: Fields, raw: Fields, job: Job) {
    || MovedField(inbound, raw, job, "port")
    || MovedField(inbound, raw, job, "listen_port")
  }

  predicate MovedField(inbound: Fields, raw: Fields, job: Job, key: string) {
    && AsInt(job.socksPort).Some? && AsInt(Field(raw, key)) == AsInt(job.socksPort)
    && inbound == raw[key := Integer(job.allocPort)]["tag" := Text(InTag(job.index))]
  }

  lemma {:induction false} RemappedComesFrom(inbounds: seq<Fields>, job: Job)
    requires AsInt(job.socksPort).Some? && Remapped(inbounds, AsInt(job.socksPort).value, job.allocPort).Some?
    ensures exists i | 0 <= i < |inbounds| ::
              MovedFrom(Remapped(inbounds, AsInt(job.socksPort).value, job.allocPort).value["tag" := Text(InTag(job.index))], inbounds[i], job)
    decreases |inbounds|
  {
    var declared := AsInt(job.socksPort).value;
    var inbound := Remapped(inbounds, declared, job.allocPort).value["tag" := Text(InTag(job.index))];
    if AsInt(Field(inbounds[0], "port")) == Some(declared) || AsInt(Field(inbounds[0], "listen_port")) == Some(declared) {
      assert MovedFrom(inbound, inbounds[0], job);
    } else {
      RemappedComesFrom(inbounds[1..], job);
      var i :| 0 <= i < |inbounds| - 1 && MovedFrom(inbound, inbounds[1..][i], job);
      assert MovedFrom(inbound, inbounds[i + 1], job);
    }
  }

  /** Every well-formed job contributes exactly one inbound, on its allocated port, and one
      rule, to its own first outbound; nobody else contributes any. */
  lemma {:induction false} OneInboundAndRuleEach(jobs: seq<Job>, settings: Settings)
    requires Build(jobs, settings).Some?
    ensures var merged, ones := Build(jobs, settings).value, WellFormedOnes(jobs);
            && |merged.inbounds| == |merged.rules| == |ones|
            && forall k | 0 <= k < |ones| ::
                 && InboundOf(merged.inbounds[k], ones[k])
                 && merged.rules[k] == Rule(InTag(ones[k].index), OutTag(ones[k].index, 0))
    decreases |jobs|
  {
    if jobs != [] {
      var last := jobs[|jobs| - 1];
      OneInboundAndRuleEach(jobs[..|jobs| - 1], settings);
      if WellFormed(last) { RemappedComesFrom(last.inbounds, last); }
    }
  }

  function Tag(m: Fields): Option<string> {
    if "tag" in m && m["tag"].Text? then Some(m["tag"].s) else None
  }

  /** Sockopt and binding leave the tag alone. */
  lemma PreparedTag(outbound: Fields, index: int, i: nat, settings: Settings)
    ensures Tag(Prepared(outbound, index, i, settings)) == Some(OutTag(index, i))
  {
  }

  predicate DistinctIndices(jobs: seq<Job>) {
    && (forall j | j in jobs :: j.index >= 0)
    && forall i, j | 0 <= i < j < |jobs| :: jobs[i].index != jobs[j].index
  }

  predicate OwnsIn(jobs: seq<Job>, tag: Option<string>) {
    exists j :: j in jobs && tag == Some(InTag(j.index))
  }

  ghost predicate OwnsOut(jobs: seq<Job>, tag: Option<string>) {
    exists j, i: nat :: j in jobs && tag == Some(OutTag(j.index, i))
  }

  ghost predicate Owned(jobs: seq<Job>, merged: Merged) {
    && (forall k | 0 <= k < |merged.inbounds| :: OwnsIn(jobs, Tag(merged.inbounds[k])))
    && (forall k | 0 <= k < |merged.outbounds| :: OwnsOut(jobs, Tag(merged.outbounds[k])))
  }

  lemma ShareTags(job: Job, settings: Settings)
    requires !Aborts(job)
    ensures var share := Share(job, settings).value;
            && (forall k | 0 <= k < |share.inbounds| :: Tag(share.inbounds[k]) == Some(InTag(job.index)))
            && (forall k | 0 <= k < |share.outbounds| :: Tag(share.outbounds[k]) == Some(OutTag(job.index, k)))
            && |share.inbounds| <= 1
  {
    if WellFormed(job) {
      forall i | 0 <= i < |job.outbounds| ensures Tag(Prepared(job.outbounds[i].value, job.index, i, settings)) == Some(OutTag(job.index, i)) {
        PreparedTag(job.outbounds[i].value, job.index, i, settings);
      }
    }
  }

  lemma OwnedOneMore(jobs: seq<Job>, last: Job, a: Merged, b: Merged)
    requires Owned(jobs, a)
    requires forall k | 0 <= k < |b.inbounds| :: Tag(b.inbounds[k]) == Some(InTag(last.index))
    requires forall k | 0 <= k < |b.outbounds| :: Tag(b.outbounds[k]) == Some(OutTag(last.index, k))
    ensures Owned(jobs + [last], Join(Some(a), Some(b)).value)
  {
  }

  /** Every tag belongs to one of the jobs. */
  lemma {:induction false} TagsAreOwned(jobs: seq<Job>, settings: Settings)
    requires Build(jobs, settings).Some?
    ensures Owned(jobs, Build(jobs, settings).value)
    decreases |jobs|
  {
    if jobs != [] {
      var before, last := jobs[..|jobs| - 1], jobs[|jobs| - 1];
      TagsAreOwned(before, settings);
      ShareTags(last, settings);
      OwnedOneMore(before, last, Build(before, settings).value, Share(last, settings).value);
      assert before + [last] == jobs;
    }
  }

  ghost predicate TagsUnique(merged: Merged) {
    && (forall k, l | 0 <= k < l < |merged.inbounds| :: Tag(merged.inbounds[k]) != Tag(merged.inbounds[l]))
    && (forall k, l | 0 <= k < l < |merged.outbounds| :: Tag(merged.outbounds[k]) != Tag(merged.outbounds[l]))
    && (forall k, l | 0 <= k < |merged.inbounds| && 0 <= l < |merged.outbounds| :: Tag(merged.inbounds[k]) != Tag(merged.outbounds[l]))
  }

  lemma OthersTags(jobs: seq<Job>, last: Job, tag: Option<string>, i: nat)
    requires last.index >= 0 && forall j | j in jobs :: j.index >= 0 && j.index != last.index
    ensures OwnsIn(jobs, tag) ==> tag != Some(InTag(last.index)) && tag != Some(OutTag(last.index, i))
    ensures OwnsOut(jobs, tag) ==> tag != Some(InTag(last.index)) && tag != Some(OutTag(last.index, i))
  {
    if OwnsIn(jobs, tag) {
      var j :| j in jobs && tag == Some(InTag(j.index));
      TagsDiffer(j.index, last.index, 0, i);
    }
    if OwnsOut(jobs, tag) {
      var j, k: nat :| j in jobs && tag == Some(OutTag(j.index, k));
      TagsDiffer(j.index, last.index, k, i);
      TagsDiffer(last.index, j.index, i, k);
    }
  }

  lemma UniqueOneMore(jobs: seq<Job>, last: Job, a: Merged, b: Merged)
    requires TagsUnique(a) && Owned(jobs, a)
    requires last.index >= 0 && forall j | j in jobs :: j.index >= 0 && j.index != last.index
    requires |b.inbounds| <= 1 && forall k | 0 <= k < |b.inbounds| :: Tag(b.inbounds[k]) == Some(InTag(last.index))
    requires forall k | 0 <= k < |b.outbounds| :: Tag(b.outbounds[k]) == Some(OutTag(last.index, k))
    ensures TagsUnique(Join(Some(a), Some(b)).value)
  {
    var merged := Join(Some(a), Some(b)).value;
    forall tag | OwnsIn(jobs, tag) || OwnsOut(jobs, tag) ensures tag != Some(InTag(last.index)) {
      OthersTags(jobs, last, tag, 0);
    }
    forall tag, i: nat | OwnsIn(jobs, tag) || OwnsOut(jobs, tag) ensures tag != Some(OutTag(last.index, i)) {
      OthersTags(jobs, last, tag, i);
    }
    forall k, l | 0 <= k < l < |merged.inbounds| ensures Tag(merged.inbounds[k]) != Tag(merged.inbounds[l]) {
      if l >= |a.inbounds| { assert merged.inbounds[l] == b.inbounds[l - |a.inbounds|]; assert OwnsIn(jobs, Tag(merged.inbounds[k])); }
    }
    forall k, l | 0 <= k < l < |merged.outbounds| ensures Tag(merged.outbounds[k]) != Tag(merged.outbounds[l]) {
      var n := |a.outbounds|;
      if l >= n {
        assert merged.outbounds[l] == b.outbounds[l - n];
        if k >= n { assert merged.outbounds[k] == b.outbounds[k - n]; TagsDiffer(last.index, last.index, k - n, l - n); }
        else { assert OwnsOut(jobs, Tag(merged.outbounds[k])); }
      }
    }
    CrossUnique(jobs, last, a, b);
  }

  lemma CrossUnique(jobs: seq<Job>, last: Job, a: Merged, b: Merged)
    requires TagsUnique(a) && Owned(jobs, a)
    requires last.index >= 0 && forall j | j in jobs :: j.index >= 0 && j.index != last.index
    requires forall k | 0 <= k < |b.inbounds| :: Tag(b.inbounds[k]) == Some(InTag(last.index))
    requires forall k | 0 <= k < |b.outbounds| :: Tag(b.outbounds[k]) == Some(OutTag(last.index, k))
    ensures var merged := Join(Some(a), Some(b)).value;
            forall k, l | 0 <= k < |merged.inbounds| && 0 <= l < |merged.outbounds| :: Tag(merged.inbounds[k]) != Tag(merged.outbounds[l])
  {
    var merged := Join(Some(a), Some(b)).value;
    forall k, l | 0 <= k < |merged.inbounds| && 0 <= l < |merged.outbounds| ensures Tag(merged.inbounds[k]) != Tag(merged.outbounds[l]) {
      var m, n := |a.inbounds|, |a.outbounds|;
      if k >= m {
        assert merged.inbounds[k] == b.inbounds[k - m];
        if l >= n { assert merged.outbounds[l] == b.outbounds[l - n]; TagsDiffer(last.index, last.index, 0, l - n); }
        else { OthersTags(jobs, last, Tag(merged.outbounds[l]), 0); }
      } else if l >= n {
        assert merged.outbounds[l] == b.outbounds[l - n];
        OthersTags(jobs, last, Tag(merged.inbounds[k]), l - n);
      }
    }
  }

  /** Jobs with different indices never share a tag, so no rule can reach a foreign outbound. */
  lemma {:induction false} TagsAreUnique(jobs: seq<Job>, settings: Settings)
    requires DistinctIndices(jobs) && Build(jobs, settings).Some?
    ensures TagsUnique(Build(jobs, settings).value)
    decreases |jobs|
  {
    if jobs != [] {
      var before, last := jobs[..|jobs| - 1], jobs[|jobs| - 1];
      assert last in jobs && forall j | j in before :: j in jobs;
      TagsAreUnique(before, settings);
      TagsAreOwned(before, settings);
      ShareTags(last, settings);
      UniqueOneMore(before, last, Build(before, settings).value, Share(last, settings).value);
    }
  }

  // ---- What happens to an outbound ----

  /** Only the tag, the source address, the mux and the socket options are touched. */
  lemma PreparedKeepsTheRest(outbound: Fields, index: int, i: nat, settings: Settings, key: string)
    requires key !in {"tag", "sendThrough", "mux", "streamSettings"}
    ensures Field(Prepared(outbound, index, i, settings), key) == Field(outbound, key)
  {
  }

  lemma PreparedKeepsStream(outbound: Fields, index: int, i: nat, settings: Settings, key: string)
    requires key != "sockopt"
    ensures var a, b := Sub(outbound, "streamSettings"), Sub(Prepared(outbound, index, i, settings), "streamSettings");
            Field(b, key) == Field(a, key)
  {
  }

  /** Existing socket options survive; the node's own are added. */
  lemma PreparedSockopt(outbound: Fields, index: int, i: nat, settings: Settings, key: string)
    ensures var a := Sub(Sub(outbound, "streamSettings"), "sockopt");
            var b := Sub(Sub(Prepared(outbound, index, i, settings), "streamSettings"), "sockopt");
            Field(b, key) ==
              if key == "interface" && settings.interface != "" then Some(Text(settings.interface))
              else if key == "domainStrategy" && settings.domainStrategy != "" then Some(Text(settings.domainStrategy))
              else Field(a, key)
  {
    var tagged := outbound["tag" := Text(OutTag(index, i))];
    SockoptSet(tagged, "domainStrategy", settings.domainStrategy, key);
    var sent := if settings.source.Some? then Resolved(tagged, settings)["sendThrough" := Text(settings.source.value)] else Resolved(tagged, settings);
    assert Sub(sent, "streamSettings") == Sub(Resolved(tagged, settings), "streamSettings");
    SockoptSet(sent, "interface", settings.interface, key);
    var ready := Bound(Resolved(tagged, settings), settings);
    assert Sub(ready["mux" := MUX], "streamSettings") == Sub(ready, "streamSettings");
  }

  lemma SockoptSet(outbound: Fields, option: string, value: string, key: string)
    ensures var a := Sub(Sub(outbound, "streamSettings"), "sockopt");
            var b := Sub(Sub(WithSockopt(outbound, option, value), "streamSettings"), "sockopt");
            Field(b, key) == if key == option then Some(Text(value)) else Field(a, key)
  {
  }

  /** The mux is forced on exactly for a job's first outbound over neither xhttp nor reality. */
  lemma MuxExactly(outbound: Fields, index: int, i: nat, settings: Settings)
    ensures var stream := Sub(outbound, "streamSettings");
            Field(Prepared(outbound, index, i, settings), "mux") ==
              if i == 0 && Field(stream, "network") != Some(Text("xhttp")) && Field(stream, "security") != Some(Text("reality"))
              then Some(Object(map["enabled" := Flag(true), "concurrency" := Integer(8)]))
              else Field(outbound, "mux")
  {
    var ready := Bound(Resolved(outbound["tag" := Text(OutTag(index, i))], settings), settings);
    var a, b := Sub(outbound, "streamSettings"), Sub(ready, "streamSettings");
    assert Field(b, "network") == Field(a, "network") && Field(b, "security") == Field(a, "security");
  }

  /** The source address is the node's own, unless it is link-local or not set; the tag is the job's. */
  lemma PreparedSendThrough(outbound: Fields, index: int, i: nat, settings: Settings)
    ensures Field(Prepared(outbound, index, i, settings), "sendThrough") ==
              if settings.source.Some? then Some(Text(settings.source.value)) else Field(outbound, "sendThrough")
    ensures Field(Prepared(outbound, index, i, settings), "tag") == Some(Text(OutTag(index, i)))
  {
  }

  // ---- Which jobs are in ----

  predicate Declares(inbound: Fields, port: int) {
    || ("port" in inbound && inbound["port"] == Integer(port))
    || ("listen_port" in inbound && inbound["listen_port"] == Integer(port))
  }

  lemma {:induction false} RemappedExactly(inbounds: seq<Fields>, declared: int, allocPort: int)
    ensures Remapped(inbounds, declared, allocPort).Some? <==> exists i :: 0 <= i < |inbounds| && Declares(inbounds[i], declared)
    decreases |inbounds|
  {
    if inbounds != [] {
      RemappedExactly(inbounds[1..], declared, allocPort);
      assert Declares(inbounds[0], declared) <==>
               AsInt(Field(inbounds[0], "port")) == Some(declared) || AsInt(Field(inbounds[0], "listen_port")) == Some(declared);
      if i :| 0 <= i < |inbounds| && Declares(inbounds[i], declared) {
        if i > 0 { assert inbounds[1..][i - 1] == inbounds[i]; }
      }
    }
  }

  /** A job is taken in exactly when its declared port is a whole number, one of its inbounds has it,
      and it has an outbound. */
  lemma WellFormedExactly(job: Job)
    ensures WellFormed(job) <==>
              && job.socksPort.Some? && job.socksPort.value.Integer? && job.outbounds != []
              && exists i :: 0 <= i < |job.inbounds| && Declares(job.inbounds[i], job.socksPort.value.n)
  {
    if job.socksPort.Some? && job.socksPort.value.Integer? {
      RemappedExactly(job.inbounds, job.socksPort.value.n, job.allocPort);
    }
  }

  function OutboundCount(jobs: seq<Job>): nat {
    if jobs == [] then 0 else OutboundCount(jobs[..|jobs| - 1]) + |jobs[|jobs| - 1].outbounds|
  }

  /** Every outbound of every job that is taken in is in the config, prepared under its own tag, and
      there is no other. */
  lemma {:induction false} EveryOutboundIsIn(jobs: seq<Job>, settings: Settings)
    requires Build(jobs, settings).Some?
    ensures |Build(jobs, settings).value.outbounds| == OutboundCount(WellFormedOnes(jobs))
    ensures forall job, i | job in WellFormedOnes(jobs) && 0 <= i < |job.outbounds| ::
              job.outbounds[i].Some? && Prepared(job.outbounds[i].value, job.index, i, settings) in Build(jobs, settings).value.outbounds
    decreases |jobs|
  {
    if jobs != [] {
      var n := |jobs| - 1;
      var before, last := jobs[..n], jobs[n];
      EveryOutboundIsIn(before, settings);
      if WellFormed(last) {
        var all := PreparedAll(last.outbounds, last.index, settings);
        var ones := WellFormedOnes(before);
        assert (ones + [last])[..|ones|] == ones;
        forall i | 0 <= i < |last.outbounds| ensures Prepared(last.outbounds[i].value, last.index, i, settings) in Build(jobs, settings).value.outbounds {
          assert all[i] in all;
        }
      } else {
        JoinNothing(Build(before, settings));
        assert WellFormedOnes(jobs) == WellFormedOnes(before);
      }
    }
  }
}
