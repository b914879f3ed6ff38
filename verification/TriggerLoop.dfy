/** The agent's glue between the durable trigger queue and the one in memory. */
module TriggerLoop {

  import opened Prelude
  import opened Wire
  import opened StoreTables
  import opened ProbeCache
  import opened Store
  import opened AgentRuns

  /** One heartbeat event: recorded and, if that was news, queued; queued at once when the
      database does not answer. */
  function Received(t: Tables, c: Cache, event: Event, answers: bool, now: int): (Tables, Cache) {
    if !answers then (t, Applied(c, event).0)
    else (StoreTables.RecordTrigger(t, event, now), if Records(t, event) then Applied(c, event).0 else c)
  }

  function ReceivedAll(t: Tables, c: Cache, events: seq<Event>, answers: seq<bool>, now: int): (Tables, Cache)
    requires |answers| == |events|
  {
    if events == [] then (t, c)
    else
      var n := |events| - 1;
      var (u, d) := ReceivedAll(t, c, events[..n], answers[..n], now);
      Received(u, d, events[n], answers[n], now)
  }

  // ---- The glue takes the steps of the state machine ----

  /** One event that the database answers: recorded, then queued. */
  lemma ReceivedIsTwoSteps(s: Sys, event: Event)
    requires s.delivered.None?
    ensures var u := Next(Next(s, Step.Heartbeat(event)), QueueDelivered);
            u.delivered.None? && Received(s.db.t, s.cache, event, true, s.db.clock) == (u.db.t, u.cache) && u.db.clock == s.db.clock
    ensures Received(s.db.t, s.cache, event, false, s.db.clock) == (s.db.t, Unrecorded(s, event).cache)
  {
  }

  ghost function HeartbeatAll(s: Sys, events: seq<Event>): Sys {
    if events == [] then s
    else
      var n := |events| - 1;
      Next(Next(HeartbeatAll(s, events[..n]), Step.Heartbeat(events[n])), QueueDelivered)
  }

  lemma {:induction false} ReceivedAllIsARun(s: Sys, events: seq<Event>, answers: seq<bool>)
    requires s.delivered.None? && |answers| == |events| && forall i | 0 <= i < |answers| :: answers[i]
    ensures var u := HeartbeatAll(s, events);
            u.delivered.None? && u.db.clock == s.db.clock
            && ReceivedAll(s.db.t, s.cache, events, answers, s.db.clock) == (u.db.t, u.cache)
    decreases |events|
  {
    if events != [] {
      var n := |events| - 1;
      ReceivedAllIsARun(s, events[..n], answers[..n]);
      ReceivedIsTwoSteps(HeartbeatAll(s, events[..n]), events[n]);
    }
  }

  /** Finishing durable triggers is completing and then marking them; the others go back to the queue. */
  lemma FinishIsTwoSteps(s: Sys)
    ensures s.tick.Durable? ==>
              var u := Next(Next(s, Complete), MarkComplete);
              u.db.t == StoreTables.CompleteTriggers(s.db.t, Keys(s.tick.taken), s.db.clock) && u.cache == NotedAll(s.cache, s.tick.taken)
    ensures s.tick.Durable? ==>
              var u := Next(Next(s, CompleteFails), MarkComplete); u.db.t == s.db.t && u.cache == NotedAll(s.cache, s.tick.taken)
    ensures s.tick.Produced? ==>
              var u := Next(s, CommitElsewhere(false)); u.db.t == s.db.t && u.cache == Requeued(s.cache, s.tick.taken)
  {
  }

  class TriggerLoop {
    const store: Store
    const cache: ProbeCache
    var triggersRestored: bool

    constructor (store: Store, cache: ProbeCache)
      ensures this.store == store && this.cache == cache && !triggersRestored
    {
      this.store, this.cache, triggersRestored := store, cache, false;
    }

    /** applyTriggeredEvents */
    method ApplyTriggeredEvents(events: seq<Event>, answers: seq<bool>, now: int) returns (queued: nat)
      requires |answers| == |events|
      modifies store, cache
      ensures (store.View(), cache.View()) == ReceivedAll(old(store.View()), old(cache.View()), events, answers, now)
      ensures queued == |cache.pendingTriggers| - |old(cache.pendingTriggers)|
    {
      queued := 0;
      for i := 0 to |events|
        invariant (store.View(), cache.View()) == ReceivedAll(old(store.View()), old(cache.View()), events[..i], answers[..i], now)
        invariant queued == |cache.pendingTriggers| - |old(cache.pendingTriggers)|
      {
        assert events[..i + 1][..i] == events[..i] && answers[..i + 1][..i] == answers[..i];
        if !answers[i] {
          var applied := cache.ApplyTriggeredEvent(events[i]);
          if applied { queued := queued + 1; }
          continue;
        }
        var inserted := store.RecordTrigger(events[i], now);
        if inserted {
          var applied := cache.ApplyTriggeredEvent(events[i]);
          if applied { queued := queued + 1; }
        }
      }
      assert events[..|events|] == events && answers[..|events|] == answers;
    }

    /** PendingTriggers: the durable queue by event number. */
    method PendingTriggers() returns (triggers: seq<Trigger>)
      ensures Lists(triggers, store.pending)
    {
      triggers := [];
      var rest := store.pending.Keys;
      while rest != {}
        invariant rest <= store.pending.Keys
        invariant Covers(triggers, store.pending - rest) && ByEvent(triggers, store.pending)
        decreases |rest|
      {
        var key :| key in rest;
        var at := 0;
        while at < |triggers| && store.pending[triggers[at].key].eventSeq <= store.pending[key].eventSeq
          invariant 0 <= at <= |triggers|
          invariant forall j | 0 <= j < at :: store.pending[triggers[j].key].eventSeq <= store.pending[key].eventSeq
        {
          at := at + 1;
        }
        InsertedByEvent(triggers, key, at, store.pending);
        InsertedCovers(triggers, key, at, store.pending, rest);
        triggers := triggers[..at] + [Trigger(key, store.pending[key].snapshot)] + triggers[at..];
        rest := rest - {key};
      }
      assert store.pending - rest == store.pending;
    }

    /** restorePendingTriggers; `answers` says whether the read succeeds. */
    method RestorePendingTriggers(answers: bool) returns (restored: bool)
      modifies this, cache
      ensures restored == answers
      ensures triggersRestored == (answers || old(triggersRestored))
      ensures !answers ==> cache.View() == old(cache.View())
      ensures answers ==> exists order ::
                Lists(order, store.pending) && cache.View() == Queued(old(cache.View()), order)
    {
      if !answers {
        return false;
      }
      var triggers := PendingTriggers();
      var queued := cache.QueueTriggers(triggers);
      triggersRestored := true;
      return true;
    }

    /** finishTriggers; `answers` says whether the completion commits. */
    method FinishTriggers(triggers: seq<Trigger>, durable: bool, answers: bool, now: int)
      modifies store, cache
      ensures store.View() == if durable && answers
                              then StoreTables.CompleteTriggers(old(store.View()), Keys(triggers), now)
                              else old(store.View())
      ensures cache.View() == if durable then NotedAll(old(cache.View()), triggers) else Requeued(old(cache.View()), triggers)
    {
      if |triggers| == 0 {
        return;
      }
      if !durable {
        cache.RequeueTriggers(triggers);
        return;
      }
      if answers {
        store.CompleteTriggers(Keys(triggers), now);
      }
      for i := 0 to |triggers|
        invariant cache.View() == NotedAll(old(cache.View()), triggers[..i])
        invariant store.View() == if answers then StoreTables.CompleteTriggers(old(store.View()), Keys(triggers), now)
                                  else old(store.View())
      {
        assert triggers[..i + 1][..i] == triggers[..i];
        cache.MarkTriggerComplete(triggers[i].key);
      }
      assert triggers[..|triggers|] == triggers;
    }
  }

  lemma InsertedByEvent(triggers: seq<Trigger>, key: TriggerKey, at: nat, pending: map<TriggerKey, PendingRow>)
    requires key in pending && ByEvent(triggers, pending) && at <= |triggers|
    requires forall j | 0 <= j < at :: pending[triggers[j].key].eventSeq <= pending[key].eventSeq
    requires at < |triggers| ==> pending[triggers[at].key].eventSeq > pending[key].eventSeq
    ensures ByEvent(triggers[..at] + [Trigger(key, pending[key].snapshot)] + triggers[at..], pending)
  {
  }

  lemma OnceConcat(a: seq<Trigger>, b: seq<Trigger>)
    requires Once(a) && Once(b) && KeySet(a) !! KeySet(b)
    ensures Once(a + b) && KeySet(a + b) == KeySet(a) + KeySet(b)
  {
    forall i, j | 0 <= i < j < |a + b| ensures (a + b)[i].key != (a + b)[j].key {
      if i < |a| <= j { assert a[i].key in KeySet(a) && b[j - |a|].key in KeySet(b); }
    }
  }

  lemma InsertedOnce(triggers: seq<Trigger>, first: Trigger, at: nat)
    requires at <= |triggers| && Once(triggers) && first.key !in KeySet(triggers)
    ensures var order := triggers[..at] + [first] + triggers[at..];
            Once(order) && KeySet(order) == KeySet(triggers) + {first.key}
  {
  }

  lemma InsertedCovers(triggers: seq<Trigger>, key: TriggerKey, at: nat, pending: map<TriggerKey, PendingRow>, rest: set<TriggerKey>)
    requires key in rest && rest <= pending.Keys && at <= |triggers| && Covers(triggers, pending - rest)
    ensures Covers(triggers[..at] + [Trigger(key, pending[key].snapshot)] + triggers[at..], pending - (rest - {key}))
  {
    var more, first := pending - (rest - {key}), Trigger(key, pending[key].snapshot);
    var order := triggers[..at] + [first] + triggers[at..];
    InsertedOnce(triggers, first, at);
    MoreKeys(pending, rest, key);
    InsertedMembers(triggers, first, at);
  }

  lemma InsertedMembers(triggers: seq<Trigger>, first: Trigger, at: nat)
    requires at <= |triggers|
    ensures forall x :: x in triggers[..at] + [first] + triggers[at..] <==> x in triggers || x == first
  {
  }

  lemma MoreKeys(pending: map<TriggerKey, PendingRow>, rest: set<TriggerKey>, key: TriggerKey)
    requires key in rest && rest <= pending.Keys
    ensures (pending - (rest - {key})).Keys == (pending - rest).Keys + {key}
    ensures |pending - (rest - {key})| == |pending - rest| + 1
  {
  }
}
