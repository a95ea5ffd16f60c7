/** Publisher and consumer: the operations on the Redis lists and the sorted set, in place. */
module RedisQueues {
  import opened TaskQueue
  import Pipeline
  import Polling

  /** The members of a grouping bound for one list. */
  function GroupOf(grouped: map<Queue, seq<Payload>>, q: Queue): seq<Payload> {
    if q in grouped then grouped[q] else []
  }

  /** The loop of both batch operations that sorts payloads by target list. */
  method GroupByQueue(batch: seq<Payload>) returns (grouped: map<Queue, seq<Payload>>)
    ensures forall q :: GroupOf(grouped, q) == Routed(batch, q)
  {
    grouped := map[];
    for i := 0 to |batch|
      invariant forall q :: GroupOf(grouped, q) == Routed(batch[..i], q)
    {
      ghost var before := grouped;
      var target := QueueFor(batch[i].priority);
      grouped := grouped[target := GroupOf(grouped, target) + [batch[i]]];
      forall q ensures GroupOf(grouped, q) == Routed(batch[..i + 1], q) {
        RoutedSnoc(batch, i, q);
        assert GroupOf(grouped, q) == GroupOf(before, q) + Share(q, batch[i]);
      }
    }
    assert batch[..|batch|] == batch;
  }

  ghost predicate GetsShare(was: Lists, now: Lists, batch: seq<Payload>, q: Queue) {
    exists more :: Selects(more, batch, q) && now.Of(q) == was.Of(q) + more
  }

  /** Every list has got its share of the batch, in batch order, behind what it held. */
  ghost predicate Pushed(was: Lists, now: Lists, batch: seq<Payload>) { forall q :: GetsShare(was, now, batch, q) }

  lemma EnqueuePushes(lists: Lists, batch: seq<Payload>)
    ensures Pushed(lists, Enqueue(lists, batch), batch)
  {
    hide Routed, Selects;
    forall q ensures GetsShare(lists, Enqueue(lists, batch), batch, q) {
      RoutedSelects(batch, q);
      assert Enqueue(lists, batch).Of(q) == lists.Of(q) + Routed(batch, q);
    }
  }

  /** `part` has exactly the entries of `delayed` with a score up to `now`, or exactly the others. */
  ghost predicate Divides(delayed: seq<Entry>, now: real, part: seq<Entry>, due: bool) {
    && (forall e :: multiset(part)[e] == if (0.0 <= e.score <= now) == due then multiset(delayed)[e] else 0)
    && (InScoreOrder(delayed) ==> InScoreOrder(part))
  }

  /** The first entries of the set with a score up to `now`, no more than 50. */
  ghost predicate FirstDue(delayed: seq<Entry>, now: real, batch: seq<Payload>) {
    exists due: seq<Entry> :: Divides(delayed, now, due, true)
      && |batch| == (if |due| <= 50 then |due| else 50)
      && forall i :: 0 <= i < |batch| ==> batch[i] == due[i].payload
  }

  lemma BatchIsFirstDue(delayed: seq<Entry>, now: real)
    ensures FirstDue(delayed, now, ReadBatch(delayed, now))
  {
    DueDivides(delayed, now);
    hide Due, Divides;
  }

  lemma DueDivides(delayed: seq<Entry>, now: real)
    ensures Divides(delayed, now, Due(delayed, now), true) && Divides(delayed, now, NotDue(delayed, now), false)
  {
    hide Due, NotDue, InScoreOrder;
    forall e: Entry { DueCounts(delayed, now, e); }
    if InScoreOrder(delayed) {
      Polling.DueKeepsOrder(delayed, now);
      Polling.NotDueKeepsOrder(delayed, now);
    }
  }

  lemma {:induction false} DueCounts(delayed: seq<Entry>, now: real, e: Entry)
    ensures multiset(Due(delayed, now))[e] == if 0.0 <= e.score <= now then multiset(delayed)[e] else 0
    ensures multiset(NotDue(delayed, now))[e] == if 0.0 <= e.score <= now then 0 else multiset(delayed)[e]
  {
    if delayed != [] {
      DueCounts(delayed[1..], now, e);
      assert delayed == [delayed[0]] + delayed[1..];
    }
  }

  class Redis {
    var lists: Lists
    var delayed: seq<Entry>
    var dlq: seq<Pipeline.Dead>

    constructor ()
      ensures lists == NO_LISTS && delayed == [] && dlq == []
    {
      lists, delayed, dlq := NO_LISTS, [], [];
    }

    /** RPUSH of every group to its list; the order of the groups does not matter. */
    method PushGroups(grouped: map<Queue, seq<Payload>>, ghost batch: seq<Payload>)
      requires forall q :: GroupOf(grouped, q) == Routed(batch, q)
      modifies this`lists
      ensures lists == Enqueue(old(lists), batch)
    {
      hide Routed;
      var todo := grouped.Keys;
      while todo != {}
        invariant todo <= grouped.Keys
        invariant forall q :: lists.Of(q) == old(lists).Of(q) + (if q in todo then [] else GroupOf(grouped, q))
        decreases |todo|
      {
        ghost var before := lists;
        var q :| q in todo;
        lists := lists.With(q, lists.Of(q) + grouped[q]);
        todo := todo - {q};
        forall other ensures lists.Of(other) == if other == q then before.Of(q) + grouped[q] else before.Of(other) {
          WithOf(before, q, before.Of(q) + grouped[q], other);
        }
      }
      forall q: Queue ensures lists.Of(q) == Enqueue(old(lists), batch).Of(q) {
        assert lists.Of(q) == old(lists).Of(q) + Routed(batch, q);
      }
      SameLists(lists, Enqueue(old(lists), batch));
    }

    /** `QueuePublisher.publish`. */
    method Publish(p: Payload) returns (ok: bool)
      modifies this`lists
      ensures ok && lists == Enqueue(old(lists), [p])
      ensures forall q: Queue :: lists.Of(q) == old(lists).Of(q) + if QueueFor(p.priority) == q then [p] else []
    {
      var target := QueueFor(p.priority);
      lists := lists.With(target, lists.Of(target) + [p]);
      ok := true;
      forall q: Queue ensures lists.Of(q) == Enqueue(old(lists), [p]).Of(q) {
        WithOf(old(lists), target, old(lists).Of(target) + [p], q);
        assert Routed([p], q) == Share(q, p) + [];
      }
      SameLists(lists, Enqueue(old(lists), [p]));
    }

    /** `QueuePublisher.publish_batch`. */
    method PublishBatch(ps: seq<Payload>) returns (published: nat)
      modifies this`lists
      ensures published == |ps| && lists == Enqueue(old(lists), ps)
      ensures Pushed(old(lists), lists, ps)
    {
      EnqueuePushes(lists, ps);
      if ps == [] {
        return 0;
      }
      var grouped := GroupByQueue(ps);
      PushGroups(grouped, ps);
      published := |ps|;
    }

    /** `QueuePublisher.schedule_delayed`, from the moment it has read the clock. */
    method ScheduleDelayed(p: Payload, executeAt: real) returns (ok: bool)
      modifies this`delayed
      ensures ok && delayed == ZAdd(old(delayed), p, executeAt)
      ensures Entry(p, executeAt) in delayed
      ensures forall e :: e in delayed && e.payload == p ==> e.score == executeAt
      ensures forall e: Entry :: e.payload != p ==> (e in delayed <==> e in old(delayed))
      ensures InScoreOrder(old(delayed)) ==> InScoreOrder(delayed)
    {
      ghost var was := delayed;
      delayed := ZAdd(delayed, p, executeAt);
      forall e: Entry
        ensures e in delayed <==> e == Entry(p, executeAt) || (e in was && e.payload != p)
      {
        ZAddMembers(was, p, executeAt, e);
      }
      if InScoreOrder(was) {
        Polling.ZAddKeepsOrder(was, p, executeAt);
      }
      ok := true;
    }

    /** `QueueConsumer._process_delayed_tasks`, undisturbed: one step of the pipeline model. */
    method ProcessDelayedTasks(now: real)
      modifies this`lists, this`delayed
      ensures lists == Enqueue(old(lists), ReadBatch(old(delayed), now))
      ensures delayed == NotDue(old(delayed), now)
      ensures exists batch :: FirstDue(old(delayed), now, batch) && Pushed(old(lists), lists, batch)
      ensures Divides(old(delayed), now, delayed, false)
    {
      hide Divides, FirstDue, Pushed, Enqueue, Routed;
      BatchIsFirstDue(delayed, now);
      DueDivides(delayed, now);
      EnqueuePushes(lists, ReadBatch(delayed, now));
      var due := ReadBatch(delayed, now);
      if due != [] {
        var grouped := GroupByQueue(due);
        PushGroups(grouped, due);
        delayed := NotDue(delayed, now);
      } else {
        NothingDue(delayed, now);
        NothingPushed(lists);
      }
    }

    /** `QueueConsumer.consume`: move what is due, then pop by weighted priority. */
    method Consume(now: real, draw: real) returns (r: Option<Payload>)
      modifies this`lists, this`delayed
      ensures delayed == NotDue(old(delayed), now) && Divides(old(delayed), now, delayed, false)
      ensures exists batch, moved ::
        FirstDue(old(delayed), now, batch) && Pushed(old(lists), moved, batch) && TakesHead(moved, draw, r, lists)
      ensures TakesHead(Enqueue(old(lists), ReadBatch(old(delayed), now)), draw, r, lists)
    {
      ghost var batch := ReadBatch(delayed, now);
      BatchIsFirstDue(delayed, now);
      EnqueuePushes(lists, batch);
      ProcessDelayedTasks(now);
      PopTakesHead(lists, draw);
      var found := FirstNonEmpty(lists, PollOrder(draw));
      if found == None {
        r := None;
      } else {
        var q := found.value;
        r := Some(lists.Of(q)[0]);
        lists := lists.With(q, lists.Of(q)[1..]);
      }
    }

    /** `QueueConsumer.send_to_dlq`. */
    method SendToDlq(p: Payload, reason: Pipeline.Reason) returns (ok: bool)
      modifies this`dlq
      ensures ok && dlq == old(dlq) + [Pipeline.Dead(p, reason)]
    {
      dlq := dlq + [Pipeline.Dead(p, reason)];
      ok := true;
    }
  }

  /** What a poll does to the lists: it takes the head of the first list of its order that holds something, and
      leaves the others alone; nothing is taken only if nothing is there. */
  ghost predicate TakesHead(was: Lists, draw: real, r: Option<Payload>, now: Lists) {
    match r
    case None => now == was && forall q: Queue :: was.Of(q) == []
    case Some(p) =>
      exists i :: 0 <= i < 4
        && (forall j :: 0 <= j < i ==> was.Of(PollOrder(draw)[j]) == [])
        && was.Of(PollOrder(draw)[i]) == [p] + now.Of(PollOrder(draw)[i])
        && forall q: Queue :: q != PollOrder(draw)[i] ==> now.Of(q) == was.Of(q)
  }

  lemma PopTakesHead(lists: Lists, draw: real)
    ensures match FirstNonEmpty(lists, PollOrder(draw))
            case None => TakesHead(lists, draw, None, lists)
            case Some(q) => TakesHead(lists, draw, Some(lists.Of(q)[0]), lists.With(q, lists.Of(q)[1..]))
  {
    PollOrderIsPermutation(draw);
    PollFindsNothing(lists, draw);
    var order := PollOrder(draw);
    hide PollOrder, FirstNonEmpty;
    match FirstNonEmpty(lists, order)
    case None =>
    case Some(q) =>
      FirstNonEmptyIs(lists, order, q);
      var i :| 0 <= i < |order| && order[i] == q && lists.Of(q) != [] && forall j :: 0 <= j < i ==> lists.Of(order[j]) == [];
      var rest := lists.Of(q)[1..];
      assert lists.Of(q) == [lists.Of(q)[0]] + rest;
      forall other: Queue ensures lists.With(q, rest).Of(other) == if other == q then rest else lists.Of(other) {
        WithOf(lists, q, rest, other);
      }
  }

  lemma NothingPushed(lists: Lists)
    ensures Enqueue(lists, []) == lists
  {
  }

  /** An empty read means that the removal would have removed nothing either. */
  lemma {:induction false} NothingDue(delayed: seq<Entry>, now: real)
    requires ReadBatch(delayed, now) == []
    ensures NotDue(delayed, now) == delayed
  {
    assert Due(delayed, now) == [] by {
      var due := Payloads(Due(delayed, now));
      assert |due| <= MOVE_LIMIT ==> due == [];
    }
    NotDueAll(delayed, now);
  }

  lemma {:induction false} NotDueAll(delayed: seq<Entry>, now: real)
    requires Due(delayed, now) == []
    ensures NotDue(delayed, now) == delayed
  {
    if delayed != [] {
      assert !IsDue(delayed[0], now);
      NotDueAll(delayed[1..], now);
    }
  }
}
