/** The Redis side of the execution pipeline: payloads, the four priority lists,
    the sorted set of delayed retries and the dead-letter list. */
module TaskQueue {

  datatype Option<+T> = None | Some(value: T)

  type TaskId = nat
  type ScanId = nat

  /** One queue message. The request itself (method, URL, headers, body) never changes while a
      task travels and is stood for by the task id. */
  datatype Payload = Payload(task: TaskId, scan: ScanId, attempt: nat, maxRetries: int, priority: string)

  datatype Queue = Critical | High | Medium | Low

  /** ASCII upper-casing of a priority label. */
  function Upper(s: string): (u: string)
    ensures |u| == |s|
  {
    seq(|s|, i requires 0 <= i < |s| => if 'a' <= s[i] <= 'z' then (s[i] as int - 32) as char else s[i])
  }

  /** The list a priority label names; an unknown label goes to the medium list. */
  function QueueFor(priority: string): Queue {
    var p := Upper(priority);
    if p == "P1" then Critical
    else if p == "P2" then High
    else if p == "P3" then Medium
    else if p == "P4" then Low
    else Medium
  }

  datatype Lists = Lists(critical: seq<Payload>, high: seq<Payload>, medium: seq<Payload>, low: seq<Payload>) {
    function Of(q: Queue): seq<Payload> {
      match q
      case Critical => critical
      case High => high
      case Medium => medium
      case Low => low
    }

    function With(q: Queue, items: seq<Payload>): Lists {
      match q
      case Critical => this.(critical := items)
      case High => this.(high := items)
      case Medium => this.(medium := items)
      case Low => this.(low := items)
    }
  }

  const NO_LISTS := Lists([], [], [], [])

  function Share(q: Queue, p: Payload): seq<Payload> {
    if QueueFor(p.priority) == q then [p] else []
  }

  /** The members of a batch bound for one list, in batch order. */
  function Routed(batch: seq<Payload>, q: Queue): seq<Payload> {
    if batch == [] then [] else Share(q, batch[0]) + Routed(batch[1..], q)
  }

  /** All lists after a batch has been pushed, each member at the tail of its own list. */
  function Enqueue(lists: Lists, batch: seq<Payload>): Lists {
    Lists(lists.critical + Routed(batch, Critical), lists.high + Routed(batch, High),
          lists.medium + Routed(batch, Medium), lists.low + Routed(batch, Low))
  }

  // ------------------------------------------------------------------
  // Polling
  // ------------------------------------------------------------------

  /** The order in which one poll looks at the lists, for a uniform draw in [0, 1). */
  function PollOrder(draw: real): seq<Queue> {
    if draw < 0.60 then [Critical, High, Medium, Low]
    else if draw < 0.85 then [High, Critical, Medium, Low]
    else if draw < 0.95 then [Medium, Critical, High, Low]
    else [Low, Critical, High, Medium]
  }

  /** BLPOP without blocking: the first list of `order` that holds something, if any. */
  function FirstNonEmpty(lists: Lists, order: seq<Queue>): (found: Option<Queue>)
    ensures found.Some? ==> lists.Of(found.value) != []
  {
    if order == [] then None
    else if lists.Of(order[0]) != [] then Some(order[0])
    else FirstNonEmpty(lists, order[1..])
  }

  // ------------------------------------------------------------------
  // The delayed sorted set
  // ------------------------------------------------------------------

  /** A member of the sorted set; the sequence holding the entries is in score order. */
  datatype Entry = Entry(payload: Payload, score: real)

  predicate IsDue(e: Entry, now: real) { 0.0 <= e.score <= now }

  /** ZRANGEBYSCORE 0 now, without a limit. */
  function Due(delayed: seq<Entry>, now: real): seq<Entry> {
    if delayed == [] then []
    else (if IsDue(delayed[0], now) then [delayed[0]] else []) + Due(delayed[1..], now)
  }

  /** What ZREMRANGEBYSCORE 0 now leaves. */
  function NotDue(delayed: seq<Entry>, now: real): seq<Entry> {
    if delayed == [] then []
    else (if IsDue(delayed[0], now) then [] else [delayed[0]]) + NotDue(delayed[1..], now)
  }

  function Payloads(entries: seq<Entry>): (ps: seq<Payload>)
    ensures |ps| == |entries|
    ensures forall i :: 0 <= i < |entries| ==> ps[i] == entries[i].payload
  {
    seq(|entries|, i requires 0 <= i < |entries| => entries[i].payload)
  }

  const MOVE_LIMIT: nat := 50

  /** What one read of the delayed set returns: the due entries, cut off at the limit. */
  function ReadBatch(delayed: seq<Entry>, now: real): seq<Payload> {
    var due := Payloads(Due(delayed, now));
    if |due| <= MOVE_LIMIT then due else due[..MOVE_LIMIT]
  }

  /** What the same read leaves behind although the removal will cover it. */
  function CutOff(delayed: seq<Entry>, now: real): seq<Payload> {
    var due := Payloads(Due(delayed, now));
    if |due| <= MOVE_LIMIT then [] else due[MOVE_LIMIT..]
  }

  function Without(delayed: seq<Entry>, p: Payload): seq<Entry> {
    if delayed == [] then []
    else (if delayed[0].payload == p then [] else [delayed[0]]) + Without(delayed[1..], p)
  }

  /** Insertion keeping score order, after the entries of equal score. */
  function Insert(delayed: seq<Entry>, e: Entry): seq<Entry> {
    if delayed == [] then [e]
    else if delayed[0].score <= e.score then [delayed[0]] + Insert(delayed[1..], e)
    else [e] + delayed
  }

  /** ZADD: a member already present only gets its score replaced. */
  function ZAdd(delayed: seq<Entry>, p: Payload, score: real): seq<Entry> {
    Insert(Without(delayed, p), Entry(p, score))
  }

  function Pow2(n: nat): (r: nat)
    ensures r >= 1
  {
    if n == 0 then 1 else 2 * Pow2(n - 1)
  }

  /** Exponential backoff: 2.0 * 2 ** (attempt - 1) seconds. */
  function Backoff(attempt: nat): (seconds: nat)
    requires attempt >= 1
    ensures seconds >= 2
  {
    2 * Pow2(attempt - 1)
  }

  // ------------------------------------------------------------------
  // Facts about the queue functions
  // ------------------------------------------------------------------

  lemma {:induction false} RoutedAppend(a: seq<Payload>, b: seq<Payload>, q: Queue)
    ensures Routed(a + b, q) == Routed(a, q) + Routed(b, q)
  {
    hide Share;
    if a == [] {
      assert a + b == b;
      assert [] + Routed(b, q) == Routed(b, q);
    } else {
      RoutedAppend(a[1..], b, q);
      assert (a + b)[1..] == a[1..] + b;
      var head, rest := Share(q, a[0]), Routed(a[1..], q);
      assert head + (rest + Routed(b, q)) == (head + rest) + Routed(b, q);
    }
  }

  lemma WithOf(l: Lists, q: Queue, items: seq<Payload>, other: Queue)
    ensures l.With(q, items).Of(other) == if other == q then items else l.Of(other)
  {
  }

  lemma SameLists(a: Lists, b: Lists)
    requires forall q: Queue :: a.Of(q) == b.Of(q)
    ensures a == b
  {
    assert a.Of(Critical) == b.Of(Critical) && a.Of(High) == b.Of(High);
    assert a.Of(Medium) == b.Of(Medium) && a.Of(Low) == b.Of(Low);
  }

  /** A list is found exactly if it holds something and no list before it in the order does. */
  lemma {:induction false} FirstNonEmptyIs(lists: Lists, order: seq<Queue>, q: Queue)
    ensures FirstNonEmpty(lists, order) == Some(q) <==>
      exists i :: 0 <= i < |order| && order[i] == q && lists.Of(q) != []
        && forall j :: 0 <= j < i ==> lists.Of(order[j]) == []
  {
    if order != [] {
      var rest := order[1..];
      FirstNonEmptyIs(lists, rest, q);
      if i :| 0 <= i < |order| && order[i] == q && lists.Of(q) != [] && forall j :: 0 <= j < i ==> lists.Of(order[j]) == [] {
        if i > 0 {
          assert lists.Of(order[0]) == [] && rest[i - 1] == q;
          assert forall j :: 0 <= j < i - 1 ==> rest[j] == order[j + 1];
        }
      }
      if FirstNonEmpty(lists, order) == Some(q) {
        if lists.Of(order[0]) != [] {
          assert order[0] == q;
        } else {
          var i :| 0 <= i < |rest| && rest[i] == q && lists.Of(q) != [] && forall j :: 0 <= j < i ==> lists.Of(rest[j]) == [];
          assert order[i + 1] == q;
          assert forall j :: 0 <= j < i + 1 ==> order[j] == if j == 0 then order[0] else rest[j - 1];
        }
      }
    }
  }

  /** `part` is made of the members of `all` at the places in `at`, which go up. */
  predicate Picks(part: seq<Payload>, all: seq<Payload>, at: seq<nat>) {
    && |part| == |at|
    && (forall k :: 0 <= k < |at| ==> at[k] < |all| && part[k] == all[at[k]])
    && (forall k, l :: 0 <= k < l < |at| ==> at[k] < at[l])
  }

  /** The members of the batch whose priority names this list, each once, in batch order, and nothing else. */
  ghost predicate Selects(part: seq<Payload>, batch: seq<Payload>, q: Queue) {
    exists at ::
      Picks(part, batch, at) && forall i :: 0 <= i < |batch| ==> (i in at <==> QueueFor(batch[i].priority) == q)
  }

  lemma RoutedSelects(batch: seq<Payload>, q: Queue)
    ensures Selects(Routed(batch, q), batch, q)
  {
    var at := RoutedAt(batch, q, |batch|);
    assert batch[..|batch|] == batch;
  }

  lemma RoutedSnoc(batch: seq<Payload>, i: nat, q: Queue)
    requires i < |batch|
    ensures Routed(batch[..i + 1], q) == Routed(batch[..i], q) + Share(q, batch[i])
  {
    hide Share;
    assert batch[..i + 1] == batch[..i] + [batch[i]];
    RoutedAppend(batch[..i], [batch[i]], q);
    assert [batch[i]][1..] == [];
    assert Routed([batch[i]], q) == Share(q, batch[i]) + [];
  }

  lemma RoutedNext(batch: seq<Payload>, q: Queue, i: nat)
    requires i < |batch|
    ensures Routed(batch[..i + 1], q)
         == Routed(batch[..i], q) + if QueueFor(batch[i].priority) == q then [batch[i]] else []
  {
    RoutedSnoc(batch, i, q);
    hide Routed, QueueFor;
  }

  lemma RoutedNone(batch: seq<Payload>, q: Queue)
    ensures Picks(Routed(batch[..0], q), batch, [])
  {
  }

  lemma {:induction false} RoutedAt(batch: seq<Payload>, q: Queue, n: nat) returns (at: seq<nat>)
    requires n <= |batch|
    ensures Picks(Routed(batch[..n], q), batch, at) && forall k :: k in at ==> k < n
    ensures forall i :: 0 <= i < n ==> (i in at <==> QueueFor(batch[i].priority) == q)
  {
    hide QueueFor, Routed, Picks;
    at := [];
    if n == 0 {
      RoutedNone(batch, q);
    } else {
      var front := RoutedAt(batch, q, n - 1);
      var part := Routed(batch[..n - 1], q);
      RoutedNext(batch, q, n - 1);
      if QueueFor(batch[n - 1].priority) == q {
        at := front + [n - 1];
        PicksSnoc(part, batch, front, n - 1);
      } else {
        at := front;
        assert part + [] == part;
      }
    }
  }

  lemma PicksSnoc(part: seq<Payload>, all: seq<Payload>, at: seq<nat>, i: nat)
    requires Picks(part, all, at) && i < |all| && forall k :: k in at ==> k < i
    ensures Picks(part + [all[i]], all, at + [i])
  {
    forall k, l | 0 <= k < l < |at| + 1 ensures (at + [i])[k] < (at + [i])[l] {
      assert at[k] in at;
    }
  }

  lemma {:induction false} FirstNonEmptySpec(lists: Lists, order: seq<Queue>)
    ensures FirstNonEmpty(lists, order) == None <==> forall q :: q in order ==> lists.Of(q) == []
  {
    if order != [] {
      FirstNonEmptySpec(lists, order[1..]);
      assert order == [order[0]] + order[1..];
    }
  }

  lemma PollOrderListsAll(draw: real, q: Queue)
    ensures q in PollOrder(draw)
  {
    var order := PollOrder(draw);
    assert order[0] == q || order[1] == q || order[2] == q || order[3] == q;
  }

  function Level(q: Queue): nat {
    match q
    case Critical => 0
    case High => 1
    case Medium => 2
    case Low => 3
  }

  /** Each of the four poll orders lists every queue exactly once. Each queue is looked at first for its share of the
      draws, 60, 25, 10 and 5 in a hundred, and behind the first the others stay in order of priority. */
  lemma PollOrderIsPermutation(draw: real)
    ensures |PollOrder(draw)| == 4 && forall q: Queue :: q in PollOrder(draw)
    ensures forall i, j :: 0 <= i < j < 4 ==> PollOrder(draw)[i] != PollOrder(draw)[j]
    ensures var order := PollOrder(draw);
      && (order[0] == Critical <==> draw < 0.60)
      && (order[0] == High <==> 0.60 <= draw < 0.60 + 0.25)
      && (order[0] == Medium <==> 0.85 <= draw < 0.85 + 0.10)
      && (order[0] == Low <==> 1.0 - 0.05 <= draw)
      && Level(order[1]) < Level(order[2]) < Level(order[3])
  {
    forall q: Queue ensures q in PollOrder(draw) {
      PollOrderListsAll(draw, q);
    }
  }

  /** Equal but for the case of ASCII letters. */
  predicate EqualFold(s: string, t: string) {
    |s| == |t| && forall i :: 0 <= i < |s| ==> SameLetter(s[i], t[i])
  }

  predicate SameLetter(c: char, d: char) {
    || c == d
    || ('a' <= c <= 'z' && 'A' <= d <= 'Z' && c - 'a' == d - 'A')
    || ('A' <= c <= 'Z' && 'a' <= d <= 'z' && c - 'A' == d - 'a')
  }

  lemma UpperIsFold(s: string, t: string)
    ensures Upper(s) == Upper(t) <==> EqualFold(s, t)
  {
    if Upper(s) == Upper(t) {
      forall i | 0 <= i < |s| ensures |s| == |t| && SameLetter(s[i], t[i]) {
        assert |Upper(s)| == |Upper(t)| && Upper(s)[i] == Upper(t)[i];
      }
    }
  }

  lemma UpperOfLabel(s: string, name: string)
    requires |s| == |name| == 2 && name[0] == 'P' && s[0] in {'P', 'p'} && '1' <= name[1] <= '4' && s[1] == name[1]
    ensures Upper(s) == name
  {
  }

  /** P1 to P4, in either case, name the lists by priority; everything else goes to the medium list. */
  lemma PriorityLabels(s: string)
    ensures s == "P1" || s == "p1" ==> QueueFor(s) == Critical
    ensures s == "P2" || s == "p2" ==> QueueFor(s) == High
    ensures s == "P3" || s == "p3" ==> QueueFor(s) == Medium
    ensures s == "P4" || s == "p4" ==> QueueFor(s) == Low
    ensures s !in {"P1", "p1", "P2", "p2", "P4", "p4"} ==> QueueFor(s) == Medium
  {
    if s in {"P1", "p1"} {
      UpperOfLabel(s, "P1");
    } else if s in {"P2", "p2"} {
      UpperOfLabel(s, "P2");
    } else if s in {"P3", "p3"} {
      UpperOfLabel(s, "P3");
    } else if s in {"P4", "p4"} {
      UpperOfLabel(s, "P4");
    } else if |s| == 2 {
      assert Upper(s)[0] == 'P' ==> s[0] in {'P', 'p'};
      assert '1' <= Upper(s)[1] <= '4' ==> s[1] == Upper(s)[1];
      assert s == [s[0], s[1]];
    }
  }

  /** A poll comes back empty-handed only when all four lists are empty, whatever the draw. */
  lemma PollFindsNothing(lists: Lists, draw: real)
    ensures FirstNonEmpty(lists, PollOrder(draw)) == None <==> lists == NO_LISTS
  {
    PollOrderIsPermutation(draw);
    FirstNonEmptySpec(lists, PollOrder(draw));
    if forall q: Queue :: lists.Of(q) == [] {
      assert lists.Of(Critical) == [] && lists.Of(High) == [] && lists.Of(Medium) == [] && lists.Of(Low) == [];
    }
  }

  lemma {:induction false} DueMembers(delayed: seq<Entry>, now: real, e: Entry)
    ensures e in Due(delayed, now) <==> e in delayed && IsDue(e, now)
    ensures e in NotDue(delayed, now) <==> e in delayed && !IsDue(e, now)
  {
    if delayed != [] {
      DueMembers(delayed[1..], now, e);
      assert delayed == [delayed[0]] + delayed[1..];
    }
  }

  lemma {:induction false} WithoutMembers(delayed: seq<Entry>, p: Payload, e: Entry)
    ensures e in Without(delayed, p) <==> e in delayed && e.payload != p
  {
    if delayed != [] {
      WithoutMembers(delayed[1..], p, e);
      assert delayed == [delayed[0]] + delayed[1..];
    }
  }

  lemma {:induction false} WithoutAbsent(delayed: seq<Entry>, p: Payload)
    requires forall e :: e in delayed ==> e.payload != p
    ensures Without(delayed, p) == delayed
  {
    if delayed != [] {
      WithoutAbsent(delayed[1..], p);
    }
  }

  lemma {:induction false} InsertContents(delayed: seq<Entry>, e: Entry)
    ensures multiset(Insert(delayed, e)) == multiset(delayed) + multiset{e}
  {
    if delayed != [] && delayed[0].score <= e.score {
      InsertContents(delayed[1..], e);
      assert delayed == [delayed[0]] + delayed[1..];
    }
  }

  /** ZADD keeps every other member and leaves this one in the set once, with the new score. */
  lemma ZAddMembers(delayed: seq<Entry>, p: Payload, score: real, x: Entry)
    ensures x in ZAdd(delayed, p, score) <==> x == Entry(p, score) || (x in delayed && x.payload != p)
  {
    var rest, e := Without(delayed, p), Entry(p, score);
    InsertContents(rest, e);
    assert x in multiset(Insert(rest, e)) <==> x in Insert(rest, e);
    assert x in multiset(rest) <==> x in rest;
    WithoutMembers(delayed, p, x);
  }

  lemma {:induction false} InsertLast(delayed: seq<Entry>, e: Entry)
    requires forall x :: x in delayed ==> x.score <= e.score
    ensures Insert(delayed, e) == delayed + [e]
  {
    if delayed != [] {
      assert delayed[0] in delayed;
      assert forall x :: x in delayed[1..] ==> x in delayed;
      InsertLast(delayed[1..], e);
      assert delayed == [delayed[0]] + delayed[1..];
    }
  }

  lemma {:induction false} EveryDue(delayed: seq<Entry>, now: real)
    requires forall e :: e in delayed ==> IsDue(e, now)
    ensures Due(delayed, now) == delayed && NotDue(delayed, now) == []
  {
    if delayed != [] {
      assert delayed[0] in delayed;
      assert forall e :: e in delayed[1..] ==> e in delayed;
      EveryDue(delayed[1..], now);
    }
  }

  predicate InScoreOrder(delayed: seq<Entry>) {
    forall i, j :: 0 <= i < j < |delayed| ==> delayed[i].score <= delayed[j].score
  }
}
