/** The agent's delivery loop over the store's outbox, and its retry backoff. */
module Delivery {

  import opened Prelude
  import opened Wire
  import opened StoreTables
  import opened StoreReplay
  import opened StoreRuns
  import opened Outbox
  import opened Store

  const RETRY_INITIAL := 5000
  const RETRY_MAX := 60000

  function NextBackoff(previous: int): (next: int)
    ensures RETRY_INITIAL <= next || next == previous * 2
    ensures previous <= RETRY_MAX ==> next <= RETRY_MAX
  {
    if previous <= 0 then RETRY_INITIAL
    else if previous * 2 > RETRY_MAX then RETRY_MAX
    else previous * 2
  }

  function Backoff(failures: nat): int {
    if failures == 0 then 0 else NextBackoff(Backoff(failures - 1))
  }

  function Power2(n: nat): nat {
    if n == 0 then 1 else 2 * Power2(n - 1)
  }

  /** Consecutive failures wait 5 s, 10 s, 20 s, 40 s and then a minute each. */
  lemma {:induction false} BackoffSchedule(failures: nat)
    requires failures >= 1
    ensures var doubled := RETRY_INITIAL * Power2(failures - 1);
            Backoff(failures) == if doubled > RETRY_MAX then RETRY_MAX else doubled
  {
    if failures == 1 {
      assert Backoff(0) == 0;
    } else {
      BackoffSchedule(failures - 1);
      assert Power2(failures - 1) == 2 * Power2(failures - 2);
    }
  }

  /** How one round goes: the database does not list the queue, the POST brings nothing back,
      the server answers but the database does not settle the answer, or all of it works. */
  datatype Reply = Unread | Failure | Unsettled | Reply(accepted: int, rejected: int, acks: seq<Ack>)

  /** Why a drain stopped. */
  datatype Exit = Finished | ReadFailed | PostFailed | SettleFailed {
    /** A batch was posted that is still pending, and so will be posted again. */
    predicate PostsAgain() {
      PostFailed? || SettleFailed?
    }
  }

  function ExitOf(reply: Reply): Exit {
    match reply
    case Unread => Exit.ReadFailed
    case Failure => Exit.PostFailed
    case Unsettled => Exit.SettleFailed
    case Reply(_, _, _) => Finished
  }

  function Flatten(batches: seq<seq<Row>>): seq<Row> {
    if batches == [] then [] else Flatten(batches[..|batches| - 1]) + batches[|batches| - 1]
  }
  /** outcomesFor: acks are looked up by run and sequence number, the last one winning. */
  method SettleFor(batch: seq<Row>, acks: seq<Ack>) returns (outcomes: seq<Outcome>)
    requires forall r | r in batch :: r.ResultRow?
    ensures outcomes == OutcomesFor(batch, acks)
    ensures |outcomes| == |batch| && forall i | 0 <= i < |batch| ::
              outcomes[i] == Outcome(batch[i].rowId, !Rejects(acks, batch[i].result.runId, batch[i].result.checkSeq))
  {
    var byKey: map<(string, int), Ack> := map[];
    for i := 0 to |acks|
      invariant forall key: ResultKey ::
                  AckOf(acks[..i], key) == if (key.runId, key.checkSeq) in byKey then Some(byKey[(key.runId, key.checkSeq)]) else None
    {
      assert acks[..i + 1][..i] == acks[..i];
      byKey := byKey[(acks[i].runId, acks[i].checkSeq) := acks[i]];
    }
    assert acks[..|acks|] == acks;
    outcomes := [];
    for i := 0 to |batch|
      invariant outcomes == OutcomesFor(batch[..i], acks)
    {
      assert batch[i] in batch;
      var key := (batch[i].result.runId, batch[i].result.checkSeq);
      assert AckOf(acks, batch[i].result) == if key in byKey then Some(byKey[key]) else None;
      if key !in byKey {
        outcomes := outcomes + [Outcome(batch[i].rowId, true)];
      } else {
        outcomes := outcomes + [Outcome(batch[i].rowId, byKey[key].accepted)];
      }
    }
    assert batch[..|batch|] == batch;
    forall i | 0 <= i < |batch|
      ensures outcomes[i] == Outcome(batch[i].rowId, !Rejects(acks, batch[i].result.runId, batch[i].result.checkSeq))
    {
      assert batch[i] in batch;
      OutcomeIsVerdict(batch[i], acks);
    }
  }

  class Deliverer {
    var backoff: int
    var nextAttempt: Option<int>

    constructor ()
      ensures backoff == 0 && nextAttempt == None
    {
      backoff, nextAttempt := 0, None;
    }

    method BackOff(now: int)
      modifies this
      ensures backoff == NextBackoff(old(backoff)) && nextAttempt == Some(now + backoff)
    {
      backoff := NextBackoff(backoff);
      nextAttempt := Some(now + backoff);
    }

    method Clear()
      modifies this
      ensures backoff == 0 && nextAttempt == None
    {
      backoff, nextAttempt := 0, None;
    }

    /** The oldest batch of the queue, after the rounds before. */
    method ReadOldest(store: Store, ghost start: seq<Row>, ghost posts: seq<seq<Row>>, ghost replies: seq<Reply>, ghost delivered: nat)
      returns (batch: seq<Row>)
      requires Drains(start, store.journal, posts, replies, delivered, false)
      ensures Oldest(store.journal, batch)
      ensures delivered <= |PendingOnly(start)|
      ensures |batch| == if |PendingOnly(start)| - delivered < DELIVERY_BATCH then |PendingOnly(start)| - delivered else DELIVERY_BATCH
    {
      batch := PendingResults(store.journal, DELIVERY_BATCH);
      BatchIsPrefix(store.journal, DELIVERY_BATCH);
      QueueLeft(start, store.journal, posts, replies, delivered);
    }

    /** The rest of the round: the batch is posted and, if the server answers, settled. */
    method Post(store: Store, batch: seq<Row>, reply: Reply)
      requires WellOrdered(store.View()) && !reply.Unread? && Oldest(store.journal, batch)
      modifies store`journal
      ensures WellOrdered(store.View())
      ensures batch <= PendingOnly(old(store.journal))
      ensures PendingOnly(store.journal) == if reply.Reply? then PendingOnly(old(store.journal))[|batch|..] else PendingOnly(old(store.journal))
      ensures forall r | r in batch :: IsPending(r)
      ensures forall r | r in old(store.journal) && r !in batch :: r in store.journal
      ensures reply.Reply? ==> forall r | r in batch :: SettledBy(store.journal, r, reply.acks)
    {
      BatchIsPrefix(store.journal, DELIVERY_BATCH);
      forall r | r in batch ensures IsPending(r) { BatchRows(store.journal, DELIVERY_BATCH, r); }
      if reply.Reply? {
        SettlingTheOldest(store.View(), DELIVERY_BATCH, reply.acks);
        var outcomes := SettleFor(batch, reply.acks);
        store.MarkOutcomes(outcomes);
      }
    }

    /** That, on top of the rounds before. */
    method PostNext(store: Store, batch: seq<Row>, reply: Reply, ghost start: seq<Row>, ghost posts: seq<seq<Row>>, ghost replies: seq<Reply>, ghost delivered: nat)
      requires WellOrdered(store.View()) && Drains(start, store.journal, posts, replies, delivered, false)
      requires !reply.Unread? && Oldest(store.journal, batch)
      requires reply == if |posts| < |replies| then replies[|posts|] else Failure
      modifies store`journal
      ensures WellOrdered(store.View())
      ensures !reply.Reply? ==> Drains(start, store.journal, posts + [batch], replies, delivered, true)
      ensures reply.Reply? ==> Drains(start, store.journal, posts + [batch], replies, delivered + |batch|, false)
    {
      Post(store, batch, reply);
      if reply.Reply? {
        PostedAndSettled(start, old(store.journal), store.journal, posts, replies, delivered, batch);
      } else {
        PostedAgain(start, old(store.journal), store.journal, posts, replies, delivered, batch);
      }
    }

    /** The body of drainStore's loop; `more` is whether the loop goes on. */
    method Round(store: Store, replies: seq<Reply>, ghost start: seq<Row>, delivered: nat, totals: (int, int), posts: seq<seq<Row>>)
      returns (delivered': nat, totals': (int, int), posts': seq<seq<Row>>, exit: Exit, more: bool)
      requires WellOrdered(store.View()) && Underway(start, store.journal, replies, delivered, totals, posts)
      modifies store`journal
      ensures WellOrdered(store.View())
      ensures more ==> exit.Finished? && |posts'| == |posts| + 1 && Underway(start, store.journal, replies, delivered', totals', posts')
      ensures !more ==> |posts'| <= |posts| + 1 && Over(start, store.journal, replies, delivered', totals', posts', exit)
    {
      delivered', totals', posts', exit, more := delivered, totals, posts, Finished, false;
      var reply := if |posts| < |replies| then replies[|posts|] else Failure;
      if reply.Unread? {
        exit := ReadFailed;
        return;
      }
      var batch := ReadOldest(store, start, posts, replies, delivered);
      if batch == [] {
        return;
      }
      PostNext(store, batch, reply, start, posts, replies, delivered);
      posts' := posts + [batch];
      if !reply.Reply? {
        exit := ExitOf(reply);
        return;
      }
      delivered' := delivered + |batch|;
      totals' := (totals.0 + reply.accepted, totals.1 + reply.rejected);
      more := |batch| == DELIVERY_BATCH;
    }

    /** drainStore's loop. `replies` say how the rounds go, in order; `budget` is how many
        rounds find the drain context alive. `posts` are the batches that were posted. */
    method DrainLoop(store: Store, budget: nat, replies: seq<Reply>)
      returns (delivered: nat, accepted: int, rejected: int, posts: seq<seq<Row>>, exit: Exit)
      requires WellOrdered(store.View())
      modifies store`journal
      ensures WellOrdered(store.View())
      ensures if exit.Finished? && |posts| >= budget && delivered == DELIVERY_BATCH * budget
              then Underway(old(store.journal), store.journal, replies, delivered, (accepted, rejected), posts)
              else Over(old(store.journal), store.journal, replies, delivered, (accepted, rejected), posts, exit)
    {
      ghost var start := store.journal;
      assert PendingOnly(start)[0..] == PendingOnly(start);
      var more, totals := true, (0, 0);
      delivered, posts, exit := 0, [], Finished;
      while more && |posts| < budget
        invariant WellOrdered(store.View()) && |posts| <= budget
        invariant more ==> exit.Finished? && Underway(start, store.journal, replies, delivered, totals, posts)
        invariant !more ==> Over(start, store.journal, replies, delivered, totals, posts, exit)
        decreases more, budget - |posts|
      {
        delivered, totals, posts, exit, more := Round(store, replies, start, delivered, totals, posts);
      }
      accepted, rejected := totals.0, totals.1;
    }

    /** drainStore. Whatever happens, the pending queue loses exactly its `delivered` oldest
        results and every POST carries the next stretch of it; each posted row ends up with the
        verdict of its own reply's last ack for it. A drain whose POST or whose
        settlement failed posted one batch that is still pending; any failure lengthens the
        wait before the next drain. Given replies and time, it settles everything in
        ceil(p / 500) POSTs. */
    method DrainStore(store: Store, now: int, budget: nat, replies: seq<Reply>)
      returns (delivered: nat, accepted: int, rejected: int, posts: seq<seq<Row>>, exit: Exit)
      requires WellOrdered(store.View())
      modifies this, store`journal
      ensures WellOrdered(store.View())
      ensures Drains(old(store.journal), store.journal, posts, replies, delivered, exit.PostsAgain())
      ensures (accepted, rejected) == Totals(replies, Answered(posts, exit))
      ensures old(Waiting(now)) ==> posts == [] && exit.Finished? && delivered == 0
                                    && backoff == old(backoff) && nextAttempt == old(nextAttempt)
      ensures exit.PostsAgain() ==> exit == ExitOf(if |posts| > |replies| then Failure else replies[|posts| - 1])
      ensures exit.ReadFailed? ==> |posts| < |replies| && replies[|posts|].Unread?
      ensures var p := |PendingOnly(old(store.journal))|;
              && !old(Waiting(now)) && budget > p / DELIVERY_BATCH && |replies| > p / DELIVERY_BATCH
              && (forall i | 0 <= i < |replies| :: replies[i].Reply?)
              ==> exit.Finished? && delivered == p && |posts| == (p + DELIVERY_BATCH - 1) / DELIVERY_BATCH
      ensures !exit.Finished? ==> nextAttempt == Some(now + backoff)
      ensures !exit.Finished? ==> backoff == NextBackoff(if delivered > 0 then 0 else old(backoff))
      ensures exit.Finished? && delivered > 0 ==> nextAttempt == None && backoff == 0
      ensures exit.Finished? && delivered == 0 ==> nextAttempt == old(nextAttempt) && backoff == old(backoff)
    {
      delivered, accepted, rejected, posts, exit := 0, 0, 0, [], Finished;
      assert PendingOnly(store.journal)[0..] == PendingOnly(store.journal);
      if nextAttempt.Some? && now < nextAttempt.value {
        return;
      }
      delivered, accepted, rejected, posts, exit := DrainLoop(store, budget, replies);
      if delivered > 0 {
        Clear();
      }
      if !exit.Finished? {
        BackOff(now);
      }
    }

    predicate Waiting(now: int)
      reads this
    {
      nextAttempt.Some? && now < nextAttempt.value
    }
  }

  /** What a drain from one journal to another comes to: the posted batches are the head of the
      queue, the answered ones have got their verdicts, and no settled row is touched. */
  ghost predicate Drains(start: seq<Row>, journal: seq<Row>, posts: seq<seq<Row>>, replies: seq<Reply>, delivered: nat, again: bool) {
    && Drained(PendingOnly(start), PendingOnly(journal), posts, delivered, again)
    && AllSettled(journal, posts, replies, if again then |posts| - 1 else |posts|)
    && forall r | r in start && !IsPending(r) :: r in journal
  }

  predicate Oldest(journal: seq<Row>, batch: seq<Row>) {
    batch == PendingResults(journal, DELIVERY_BATCH)
  }

  lemma QueueLeft(start: seq<Row>, journal: seq<Row>, posts: seq<seq<Row>>, replies: seq<Reply>, delivered: nat)
    requires Drains(start, journal, posts, replies, delivered, false)
    ensures |PendingOnly(journal)| == |PendingOnly(start)| - delivered
  {
  }

  lemma PostedAgain(start: seq<Row>, before: seq<Row>, after: seq<Row>, posts: seq<seq<Row>>, replies: seq<Reply>, delivered: nat, batch: seq<Row>)
    requires Drains(start, before, posts, replies, delivered, false)
    requires batch <= PendingOnly(before) && PendingOnly(after) == PendingOnly(before)
    requires forall r | r in batch :: IsPending(r)
    requires forall r | r in before && r !in batch :: r in after
    ensures Drains(start, after, posts + [batch], replies, delivered, true)
  {
    DrainedOneMore(PendingOnly(start), PendingOnly(before), PendingOnly(after), posts, delivered, batch, true);
    SettledStay(before, after, posts, replies, batch);
  }

  lemma PostedAndSettled(start: seq<Row>, before: seq<Row>, after: seq<Row>, posts: seq<seq<Row>>, replies: seq<Reply>, delivered: nat, batch: seq<Row>)
    requires Drains(start, before, posts, replies, delivered, false)
    requires batch <= PendingOnly(before) && PendingOnly(after) == PendingOnly(before)[|batch|..]
    requires forall r | r in batch :: IsPending(r)
    requires forall r | r in before && r !in batch :: r in after
    requires |posts| < |replies| && replies[|posts|].Reply? && forall r | r in batch :: SettledBy(after, r, replies[|posts|].acks)
    ensures Drains(start, after, posts + [batch], replies, delivered + |batch|, false)
  {
    DrainedOneMore(PendingOnly(start), PendingOnly(before), PendingOnly(after), posts, delivered, batch, false);
    SettledStay(before, after, posts, replies, batch);
  }

  /** How many of the posts were answered and settled. */
  function Answered(posts: seq<seq<Row>>, exit: Exit): int {
    if exit.PostsAgain() then |posts| - 1 else |posts|
  }

  /** Between two rounds of a drain: all batches so far were full, answered and settled. */
  ghost predicate Underway(start: seq<Row>, journal: seq<Row>, replies: seq<Reply>, delivered: nat, totals: (int, int), posts: seq<seq<Row>>) {
    && Drains(start, journal, posts, replies, delivered, false)
    && delivered == DELIVERY_BATCH * |posts| && totals == Totals(replies, |posts|)
  }

  /** After a drain that stopped by itself: with the queue empty, or at the first round that failed. */
  ghost predicate Over(start: seq<Row>, journal: seq<Row>, replies: seq<Reply>, delivered: nat, totals: (int, int), posts: seq<seq<Row>>, exit: Exit) {
    && Drains(start, journal, posts, replies, delivered, exit.PostsAgain()) && totals == Totals(replies, Answered(posts, exit))
    && match exit
       case Finished => delivered == |PendingOnly(start)| && delivered <= DELIVERY_BATCH * |posts| < delivered + DELIVERY_BATCH
       case ReadFailed => delivered == DELIVERY_BATCH * |posts| && |posts| < |replies| && replies[|posts|].Unread?
       case _ => delivered == DELIVERY_BATCH * (|posts| - 1) && exit == ExitOf(if |posts| > |replies| then Failure else replies[|posts| - 1])
  }

  /** What the first `n` replies say was accepted and rejected. */
  function Totals(replies: seq<Reply>, n: int): (int, int) {
    if n <= 0 then (0, 0)
    else
      var (accepted, rejected) := Totals(replies, n - 1);
      if n <= |replies| && replies[n - 1].Reply? then (accepted + replies[n - 1].accepted, rejected + replies[n - 1].rejected)
      else (accepted, rejected)
  }
  /** Each answered post adds what its reply accepted and rejected. */
  lemma TotalsAdd(replies: seq<Reply>, n: nat)
    requires n < |replies| && replies[n].Reply?
    ensures Totals(replies, 0) == (0, 0)
    ensures Totals(replies, n + 1).0 == Totals(replies, n).0 + replies[n].accepted
    ensures Totals(replies, n + 1).1 == Totals(replies, n).1 + replies[n].rejected
  {
  }

  /** Each of the first `n` posted batches has got the verdicts that its own reply brought. */
  ghost predicate AllSettled(journal: seq<Row>, posts: seq<seq<Row>>, replies: seq<Reply>, n: int) {
    && 0 <= n <= |posts| && n <= |replies|
    && forall i, r | 0 <= i < n && r in posts[i] :: replies[i].Reply? && SettledBy(journal, r, replies[i].acks)
  }

  lemma SettledStay(before: seq<Row>, after: seq<Row>, posts: seq<seq<Row>>, replies: seq<Reply>, batch: seq<Row>)
    requires AllSettled(before, posts, replies, |posts|)
    requires forall r | r in batch :: IsPending(r)
    requires forall r | r in before && r !in batch :: r in after
    ensures AllSettled(after, posts + [batch], replies, |posts|)
    ensures |posts| < |replies| && replies[|posts|].Reply? && (forall r | r in batch :: SettledBy(after, r, replies[|posts|].acks))
            ==> AllSettled(after, posts + [batch], replies, |posts| + 1)
  {
    forall i, r | 0 <= i < |posts| && r in posts[i] ensures replies[i].Reply? && SettledBy(after, r, replies[i].acks) {
      assert SettledBy(before, r, replies[i].acks);
    }
  }

  /** The drain took the `delivered` oldest results off the queue, in order, and every batch it
      posted was the next stretch of the queue; a last batch to post `again` is still there. */
  ghost predicate Drained(queue: seq<Row>, left: seq<Row>, posts: seq<seq<Row>>, delivered: nat, again: bool) {
    && delivered <= |queue| && left == queue[delivered..]
    && (!again ==> Flatten(posts) == queue[..delivered])
    && (again ==> posts != [] && Flatten(posts[..|posts| - 1]) == queue[..delivered] && posts[|posts| - 1] <= left)
  }

  lemma DrainedOneMore(queue: seq<Row>, left: seq<Row>, after: seq<Row>, posts: seq<seq<Row>>, delivered: nat, batch: seq<Row>, again: bool)
    requires Drained(queue, left, posts, delivered, false)
    requires batch <= left && after == if again then left else left[|batch|..]
    ensures Drained(queue, after, posts + [batch], if again then delivered else delivered + |batch|, again)
  {
  }
}
