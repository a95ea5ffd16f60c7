/** What one delayed move keeps, which entries it reads first, FIFO order and bounded waiting of the four lists. */
module Polling {
  import opened TaskQueue

  // ------------------------------------------------------------------
  // One delayed move
  // ------------------------------------------------------------------

  function InQueues(l: Lists): multiset<Payload> {
    multiset(l.critical) + multiset(l.high) + multiset(l.medium) + multiset(l.low)
  }

  function Contents(l: Lists, delayed: seq<Entry>): multiset<Payload> {
    InQueues(l) + multiset(Payloads(delayed))
  }

  lemma ShareAll(p: Payload)
    ensures multiset(Share(Critical, p)) + multiset(Share(High, p)) + multiset(Share(Medium, p)) + multiset(Share(Low, p))
         == multiset{p}
  {
    hide QueueFor;
  }

  lemma {:induction false} RoutedAll(batch: seq<Payload>)
    ensures multiset(Routed(batch, Critical)) + multiset(Routed(batch, High))
          + multiset(Routed(batch, Medium)) + multiset(Routed(batch, Low)) == multiset(batch)
  {
    hide Share;
    if batch != [] {
      RoutedAll(batch[1..]);
      ShareAll(batch[0]);
      assert batch == [batch[0]] + batch[1..];
    }
  }

  lemma EnqueueContents(l: Lists, batch: seq<Payload>)
    ensures InQueues(Enqueue(l, batch)) == InQueues(l) + multiset(batch)
  {
    hide Routed;
    RoutedAll(batch);
  }

  lemma PayloadsCons(e: Entry, rest: seq<Entry>)
    ensures Payloads([e] + rest) == [e.payload] + Payloads(rest)
  {
  }

  lemma {:induction false} DuePayloads(delayed: seq<Entry>, now: real)
    ensures multiset(Payloads(Due(delayed, now))) + multiset(Payloads(NotDue(delayed, now))) == multiset(Payloads(delayed))
  {
    hide Payloads;
    if delayed == [] {
      assert Due(delayed, now) + NotDue(delayed, now) == delayed;
      assert Payloads([]) == [];
    } else {
      var e, rest := delayed[0], delayed[1..];
      DuePayloads(rest, now);
      assert delayed == [e] + rest;
      PayloadsCons(e, rest);
      if IsDue(e, now) {
        PayloadsCons(e, Due(rest, now));
        assert NotDue(delayed, now) == NotDue(rest, now);
      } else {
        PayloadsCons(e, NotDue(rest, now));
        assert Due(delayed, now) == Due(rest, now);
      }
    }
  }

  lemma BatchAndCutOff(delayed: seq<Entry>, now: real)
    ensures multiset(ReadBatch(delayed, now)) + multiset(CutOff(delayed, now)) == multiset(Payloads(Due(delayed, now)))
    ensures |CutOff(delayed, now)| == if |Due(delayed, now)| <= MOVE_LIMIT then 0 else |Due(delayed, now)| - MOVE_LIMIT
  {
    hide Due;
    assert Payloads(Due(delayed, now)) == ReadBatch(delayed, now) + CutOff(delayed, now);
  }

  /** A move in one step loses exactly the due entries beyond the limit, so it keeps the contents of the queues
      if and only if at most 50 are due. */
  lemma MoveLosesTheCutOff(l: Lists, delayed: seq<Entry>, now: real)
    ensures var l', d' := Enqueue(l, ReadBatch(delayed, now)), NotDue(delayed, now);
      && Contents(l', d') + multiset(CutOff(delayed, now)) == Contents(l, delayed)
      && (Contents(l', d') == Contents(l, delayed) <==> |Due(delayed, now)| <= MOVE_LIMIT)
      && |Contents(l, delayed)| - |Contents(l', d')|
         == (if |Due(delayed, now)| <= MOVE_LIMIT then 0 else |Due(delayed, now)| - MOVE_LIMIT)
  {
    hide Enqueue, InQueues, ReadBatch, CutOff, Due, NotDue;
    EnqueueContents(l, ReadBatch(delayed, now));
    DuePayloads(delayed, now);
    BatchAndCutOff(delayed, now);
    var l', d' := Enqueue(l, ReadBatch(delayed, now)), NotDue(delayed, now);
    assert Contents(l', d') + multiset(CutOff(delayed, now)) == Contents(l, delayed);
    assert |Contents(l', d') + multiset(CutOff(delayed, now))| == |Contents(l', d')| + |CutOff(delayed, now)|;
  }

  // ------------------------------------------------------------------
  // The sorted set is read earliest first
  // ------------------------------------------------------------------

  /** ZADD keeps the set in score order. */
  lemma ZAddKeepsOrder(delayed: seq<Entry>, p: Payload, score: real)
    requires InScoreOrder(delayed)
    ensures InScoreOrder(ZAdd(delayed, p, score))
  {
    WithoutKeepsOrder(delayed, p);
    InsertKeepsOrder(Without(delayed, p), Entry(p, score));
  }

  lemma {:induction false} WithoutKeepsOrder(delayed: seq<Entry>, p: Payload)
    requires InScoreOrder(delayed)
    ensures InScoreOrder(Without(delayed, p))
  {
    if delayed != [] {
      var rest := delayed[1..];
      WithoutKeepsOrder(rest, p);
      forall x | x in Without(rest, p) ensures delayed[0].score <= x.score {
        WithoutMembers(rest, p, x);
      }
    }
  }

  lemma {:induction false} InsertKeepsOrder(delayed: seq<Entry>, e: Entry)
    requires InScoreOrder(delayed)
    ensures InScoreOrder(Insert(delayed, e))
  {
    if delayed != [] && delayed[0].score <= e.score {
      var rest := delayed[1..];
      InsertKeepsOrder(rest, e);
      forall x | x in Insert(rest, e) ensures delayed[0].score <= x.score {
        InsertContents(rest, e);
        assert x in multiset(Insert(rest, e));
      }
    }
  }

  lemma {:induction false} DueKeepsOrder(delayed: seq<Entry>, now: real)
    requires InScoreOrder(delayed)
    ensures InScoreOrder(Due(delayed, now))
  {
    if delayed != [] {
      var rest := delayed[1..];
      DueKeepsOrder(rest, now);
      forall x | x in Due(rest, now) ensures delayed[0].score <= x.score {
        DueMembers(rest, now, x);
      }
    }
  }

  lemma {:induction false} NotDueKeepsOrder(delayed: seq<Entry>, now: real)
    requires InScoreOrder(delayed)
    ensures InScoreOrder(NotDue(delayed, now))
  {
    if delayed != [] {
      var rest := delayed[1..];
      NotDueKeepsOrder(rest, now);
      forall x | x in NotDue(rest, now) ensures delayed[0].score <= x.score {
        DueMembers(rest, now, x);
      }
    }
  }

  /** Whatever a read leaves out is due no earlier than anything it returns. */
  lemma EarliestAreRead(delayed: seq<Entry>, now: real, i: nat, j: nat)
    requires InScoreOrder(delayed)
    requires i < |ReadBatch(delayed, now)| && j < |CutOff(delayed, now)|
    ensures exists a, b :: (a in delayed && b in delayed && a.score <= b.score
                            && a.payload == ReadBatch(delayed, now)[i] && b.payload == CutOff(delayed, now)[j])
  {
    DueKeepsOrder(delayed, now);
    var due := Due(delayed, now);
    var a, b := due[i], due[MOVE_LIMIT + j];
    DueMembers(delayed, now, a);
    DueMembers(delayed, now, b);
    assert a.payload == ReadBatch(delayed, now)[i] && b.payload == CutOff(delayed, now)[j];
  }

  // ------------------------------------------------------------------
  // FIFO and bounded waiting
  // ------------------------------------------------------------------

  /** What happens to the lists: pushes, by publishers and delayed moves, and polls. */
  datatype Op = Push(p: Payload) | Poll(draw: real)

  function Apply(l: Lists, op: Op): Lists {
    match op
    case Push(p) => l.With(QueueFor(p.priority), l.Of(QueueFor(p.priority)) + [p])
    case Poll(draw) =>
      match FirstNonEmpty(l, PollOrder(draw))
      case None => l
      case Some(q) => l.With(q, l.Of(q)[1..])
  }

  function ApplyAll(l: Lists, ops: seq<Op>): Lists
    decreases |ops|
  {
    if ops == [] then l else ApplyAll(Apply(l, ops[0]), ops[1..])
  }

  /** What one operation delivers from the given list. */
  function DeliveredBy(l: Lists, op: Op, q: Queue): seq<Payload> {
    if op.Poll? && FirstNonEmpty(l, PollOrder(op.draw)) == Some(q) && l.Of(q) != [] then [l.Of(q)[0]] else []
  }

  function Delivered(l: Lists, ops: seq<Op>, q: Queue): seq<Payload>
    decreases |ops|
  {
    if ops == [] then [] else DeliveredBy(l, ops[0], q) + Delivered(Apply(l, ops[0]), ops[1..], q)
  }

  function PushedBy(op: Op, q: Queue): seq<Payload> {
    if op.Push? && QueueFor(op.p.priority) == q then [op.p] else []
  }

  function Pushed(ops: seq<Op>, q: Queue): seq<Payload> {
    if ops == [] then [] else PushedBy(ops[0], q) + Pushed(ops[1..], q)
  }

  predicate PollsFirst(op: Op, q: Queue) { op.Poll? && PollOrder(op.draw)[0] == q }

  function FirstPolls(ops: seq<Op>, q: Queue): nat {
    if ops == [] then 0 else (if PollsFirst(ops[0], q) then 1 else 0) + FirstPolls(ops[1..], q)
  }

  lemma OneOp(l: Lists, op: Op, q: Queue)
    ensures DeliveredBy(l, op, q) + Apply(l, op).Of(q) == l.Of(q) + PushedBy(op, q)
    ensures PollsFirst(op, q) && l.Of(q) != [] ==> |DeliveredBy(l, op, q)| == 1
  {
    hide QueueFor;
  }

  /** Each list is first in, first out: what was delivered, then what is left, is what was there, then what was
      pushed since. */
  lemma {:induction false} ListsAreFifo(l: Lists, ops: seq<Op>, q: Queue)
    ensures Delivered(l, ops, q) + ApplyAll(l, ops).Of(q) == l.Of(q) + Pushed(ops, q)
    decreases |ops|
  {
    hide Apply, DeliveredBy, PushedBy;
    if ops == [] {
      assert l.Of(q) + [] == l.Of(q);
      assert [] + l.Of(q) == l.Of(q);
    } else {
      var l1 := Apply(l, ops[0]);
      OneOp(l, ops[0], q);
      ListsAreFifo(l1, ops[1..], q);
      Reassociate(DeliveredBy(l, ops[0], q), Delivered(l1, ops[1..], q), ApplyAll(l1, ops[1..]).Of(q),
                  l1.Of(q), l.Of(q), PushedBy(ops[0], q), Pushed(ops[1..], q));
    }
  }

  lemma Reassociate(d: seq<Payload>, rest: seq<Payload>, left: seq<Payload>, middle: seq<Payload>,
                    start: seq<Payload>, p: seq<Payload>, later: seq<Payload>)
    requires d + middle == start + p && rest + left == middle + later
    ensures (d + rest) + left == start + (p + later)
  {
    assert d + (rest + left) == (d + middle) + later;
    assert (d + rest) + left == d + (rest + left);
    assert (start + p) + later == start + (p + later);
  }

  /** Every poll that looks at a list first takes something from it as long as there is something. */
  lemma {:induction false} FirstPollsDeliver(l: Lists, ops: seq<Op>, q: Queue)
    ensures |Delivered(l, ops, q)| >= FirstPolls(ops, q) || |Delivered(l, ops, q)| >= |l.Of(q)|
    decreases |ops|
  {
    if ops != [] {
      var l1 := Apply(l, ops[0]);
      OneOp(l, ops[0], q);
      FirstPollsDeliver(l1, ops[1..], q);
      hide Apply, DeliveredBy, PushedBy;
      assert |DeliveredBy(l, ops[0], q)| + |l1.Of(q)| == |l.Of(q)| + |PushedBy(ops[0], q)| by {
        assert |DeliveredBy(l, ops[0], q) + l1.Of(q)| == |l.Of(q) + PushedBy(ops[0], q)|;
      }
    }
  }

  /** Bounded waiting: the item at index i of a list is delivered, as the (i+1)-th of that list, no later than by
      the (i+1)-th poll that looks at the list first, whatever is pushed or polled meanwhile. */
  lemma BoundedWaiting(l: Lists, ops: seq<Op>, q: Queue, i: nat)
    requires i < |l.Of(q)| && FirstPolls(ops, q) >= i + 1
    ensures |Delivered(l, ops, q)| > i && Delivered(l, ops, q)[i] == l.Of(q)[i]
  {
    FirstPollsDeliver(l, ops, q);
    ListsAreFifo(l, ops, q);
    var d, left := Delivered(l, ops, q), ApplyAll(l, ops).Of(q);
    assert (d + left)[i] == (l.Of(q) + Pushed(ops, q))[i];
  }
}
