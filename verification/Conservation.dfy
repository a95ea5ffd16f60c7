/** One token per task: the concrete state is abstracted to a map that gives every task its payload and the place
    it is in, and each kind of store operation replaces, adds or drops tokens of that map. */
module Conservation {
  import opened TaskQueue
  import opened Pipeline

  datatype Place =
    | Listed(queue: Queue)
    | Waiting(score: real)
    | InFlight(pc: Pc)
    | Done
    | DeadLettered(reason: Reason)

  datatype Token = Token(payload: Payload, place: Place)

  function ListTokens(q: Queue, ps: seq<Payload>): (ts: seq<Token>)
    ensures |ts| == |ps|
  {
    seq(|ps|, i requires 0 <= i < |ps| => Token(ps[i], Listed(q)))
  }

  function WaitingTokens(es: seq<Entry>): (ts: seq<Token>)
    ensures |ts| == |es|
  {
    seq(|es|, i requires 0 <= i < |es| => Token(es[i].payload, Waiting(es[i].score)))
  }

  function ProcTokens(ps: seq<Proc>): (ts: seq<Token>)
    ensures |ts| == |ps|
  {
    seq(|ps|, i requires 0 <= i < |ps| => Token(ps[i].payload, InFlight(ps[i].pc)))
  }

  function DoneTokens(ps: seq<Payload>): (ts: seq<Token>)
    ensures |ts| == |ps|
  {
    seq(|ps|, i requires 0 <= i < |ps| => Token(ps[i], Done))
  }

  function DeadTokens(ds: seq<Dead>): (ts: seq<Token>)
    ensures |ts| == |ds|
  {
    seq(|ds|, i requires 0 <= i < |ds| => Token(ds[i].payload, DeadLettered(ds[i].reason)))
  }

  function ListedTokens(l: Lists): multiset<Token> {
    multiset(ListTokens(Critical, l.critical)) + multiset(ListTokens(High, l.high))
    + multiset(ListTokens(Medium, l.medium)) + multiset(ListTokens(Low, l.low))
  }

  /** Every copy of every payload in the system, with the place it is in. */
  function Tokens(s: State): multiset<Token> {
    ListedTokens(s.lists) + multiset(WaitingTokens(s.delayed)) + multiset(ProcTokens(s.procs))
    + multiset(DoneTokens(s.finished)) + multiset(DeadTokens(s.dlq))
  }

  // ------------------------------------------------------------------
  // One token per task
  // ------------------------------------------------------------------

  ghost predicate Represents(toks: multiset<Token>, m: map<TaskId, Token>) {
    forall tk: Token :: toks[tk] == if tk.payload.task in m && m[tk.payload.task] == tk then 1 else 0
  }

  lemma Remove(rest: multiset<Token>, m: map<TaskId, Token>, tk: Token)
    requires Represents(rest + multiset{tk}, m)
    ensures tk.payload.task in m && m[tk.payload.task] == tk
    ensures Represents(rest, m - {tk.payload.task})
  {
    assert (rest + multiset{tk})[tk] > 0;
    forall x: Token ensures rest[x] == if x.payload.task in m - {tk.payload.task} && m[x.payload.task] == x then 1 else 0 {
      assert (rest + multiset{tk})[x] == rest[x] + multiset{tk}[x];
    }
  }

  lemma Add(rest: multiset<Token>, m: map<TaskId, Token>, tk: Token)
    requires Represents(rest, m) && tk.payload.task !in m
    ensures Represents(rest + multiset{tk}, m[tk.payload.task := tk])
  {
  }

  lemma Replace(rest: multiset<Token>, m: map<TaskId, Token>, was: Token, now: Token)
    requires Represents(rest + multiset{was}, m)
    requires was.payload.task == now.payload.task
    ensures was.payload.task in m && m[was.payload.task] == was
    ensures Represents(rest + multiset{now}, m[was.payload.task := now])
  {
    Remove(rest, m, was);
    Add(rest, m - {was.payload.task}, now);
    assert (m - {was.payload.task})[was.payload.task := now] == m[was.payload.task := now];
  }

  // ------------------------------------------------------------------
  // What each kind of store operation does to the tokens
  // ------------------------------------------------------------------

  function ProcToken(p: Proc): Token { Token(p.payload, InFlight(p.pc)) }

  lemma TokensDropProc(ps: seq<Proc>, i: nat)
    requires i < |ps|
    ensures multiset(ProcTokens(ps)) == multiset(ProcTokens(DropProc(ps, i))) + multiset{ProcToken(ps[i])}
  {
    var ts := ProcTokens(ps);
    assert ts == ts[..i] + [ProcToken(ps[i])] + ts[i + 1..];
    assert ProcTokens(DropProc(ps, i)) == ts[..i] + ts[i + 1..];
  }

  lemma TokensPopList(l: Lists, q: Queue)
    requires l.Of(q) != []
    ensures ListedTokens(l) == ListedTokens(l.With(q, l.Of(q)[1..])) + multiset{Token(l.Of(q)[0], Listed(q))}
  {
    var ts := ListTokens(q, l.Of(q));
    assert ts == [Token(l.Of(q)[0], Listed(q))] + ts[1..];
    assert ListTokens(q, l.Of(q)[1..]) == ts[1..];
  }

  function Relisted(batch: seq<Payload>): (ts: seq<Token>)
    ensures |ts| == |batch|
  {
    seq(|batch|, i requires 0 <= i < |batch| => Token(batch[i], Listed(QueueFor(batch[i].priority))))
  }

  function Push(l: Lists, p: Payload): Lists {
    var q := QueueFor(p.priority);
    l.With(q, l.Of(q) + [p])
  }

  lemma TokensPush(l: Lists, p: Payload)
    ensures ListedTokens(Push(l, p)) == ListedTokens(l) + multiset{Token(p, Listed(QueueFor(p.priority)))}
  {
    hide QueueFor, ListTokens;
    var q := QueueFor(p.priority);
    ListTokensSnoc(q, l.Of(q), p);
    match q
    case Critical =>
    case High =>
    case Medium =>
    case Low =>
  }

  lemma ListTokensSnoc(q: Queue, ps: seq<Payload>, p: Payload)
    ensures multiset(ListTokens(q, ps + [p])) == multiset(ListTokens(q, ps)) + multiset{Token(p, Listed(q))}
  {
    assert ListTokens(q, ps + [p]) == ListTokens(q, ps) + [Token(p, Listed(q))];
  }

  lemma PushOf(l: Lists, p: Payload)
    ensures Push(l, p) == Lists(l.critical + Share(Critical, p), l.high + Share(High, p),
                                l.medium + Share(Medium, p), l.low + Share(Low, p))
  {
    assert forall s: seq<Payload> :: s + [] == s;
  }

  lemma RoutedStep(l: seq<Payload>, batch: seq<Payload>, q: Queue)
    requires batch != []
    ensures l + Routed(batch, q) == l + Share(q, batch[0]) + Routed(batch[1..], q)
  {
    hide Share;
    var head, rest := Share(q, batch[0]), Routed(batch[1..], q);
    assert Routed(batch, q) == head + rest;
    hide Routed;
    assert l + (head + rest) == l + head + rest;
  }

  lemma EnqueueOneByOne(l: Lists, batch: seq<Payload>)
    requires batch != []
    ensures Enqueue(l, batch) == Enqueue(Push(l, batch[0]), batch[1..])
  {
    PushOf(l, batch[0]);
    RoutedStep(l.critical, batch, Critical);
    RoutedStep(l.high, batch, High);
    RoutedStep(l.medium, batch, Medium);
    RoutedStep(l.low, batch, Low);
  }

  lemma EnqueueNothing(l: Lists)
    ensures Enqueue(l, []) == l
  {
  }

  lemma {:induction false} TokensEnqueue(l: Lists, batch: seq<Payload>)
    ensures ListedTokens(Enqueue(l, batch)) == ListedTokens(l) + multiset(Relisted(batch))
    decreases |batch|
  {
    hide Enqueue, ListedTokens, Push, QueueFor;
    if batch == [] {
      EnqueueNothing(l);
    } else {
      EnqueueOneByOne(l, batch);
      TokensPush(l, batch[0]);
      TokensEnqueue(Push(l, batch[0]), batch[1..]);
      assert Relisted(batch) == [Relisted(batch)[0]] + Relisted(batch[1..]);
    }
  }

  function WaitingToken(e: Entry): Token { Token(e.payload, Waiting(e.score)) }

  lemma WaitingCons(e: Entry, rest: seq<Entry>)
    ensures WaitingTokens([e] + rest) == [WaitingToken(e)] + WaitingTokens(rest)
  {
  }

  lemma {:induction false} WaitingPartition(delayed: seq<Entry>, now: real)
    ensures multiset(WaitingTokens(Due(delayed, now))) + multiset(WaitingTokens(NotDue(delayed, now)))
         == multiset(WaitingTokens(delayed))
  {
    if delayed != [] {
      var e, rest := delayed[0], delayed[1..];
      WaitingPartition(rest, now);
      assert delayed == [e] + rest;
      WaitingCons(e, rest);
      if IsDue(e, now) {
        WaitingCons(e, Due(rest, now));
        assert NotDue(delayed, now) == NotDue(rest, now);
      } else {
        WaitingCons(e, NotDue(rest, now));
        assert Due(delayed, now) == Due(rest, now);
      }
    }
  }

  lemma {:induction false} TokensInsert(delayed: seq<Entry>, e: Entry)
    ensures multiset(WaitingTokens(Insert(delayed, e))) == multiset(WaitingTokens(delayed)) + multiset{WaitingToken(e)}
  {
    if delayed == [] {
      WaitingCons(e, []);
    } else {
      WaitingCons(delayed[0], delayed[1..]);
      assert delayed == [delayed[0]] + delayed[1..];
      if delayed[0].score <= e.score {
        TokensInsert(delayed[1..], e);
        WaitingCons(delayed[0], Insert(delayed[1..], e));
      } else {
        WaitingCons(e, delayed);
      }
    }
  }

  function RelistedToken(p: Payload): Token { Token(p, Listed(QueueFor(p.priority))) }

  function Ids(es: seq<Entry>): set<TaskId> { set e | e in es :: e.payload.task }

  /** Entries removed without being pushed take their tasks out of the system. */
  lemma {:induction false} DropWaiting(rest: multiset<Token>, m: map<TaskId, Token>, due: seq<Entry>)
    requires Represents(rest + multiset(WaitingTokens(due)), m)
    ensures Represents(rest, m - Ids(due))
    ensures forall e :: e in due ==> e.payload.task in m && m[e.payload.task] == WaitingToken(e)
    decreases |due|
  {
    if due == [] {
      assert m - Ids(due) == m;
      assert rest + multiset(WaitingTokens(due)) == rest;
    } else {
      var e, tail := due[0], due[1..];
      assert due == [e] + tail;
      WaitingCons(e, tail);
      var waiting := multiset(WaitingTokens(tail));
      assert rest + multiset(WaitingTokens(due)) == rest + waiting + multiset{WaitingToken(e)};
      Remove(rest + waiting, m, WaitingToken(e));
      DropWaiting(rest, m - {e.payload.task}, tail);
      assert m - {e.payload.task} - Ids(tail) == m - Ids(due);
    }
  }

  lemma {:induction false} DistinctWaiting(rest: multiset<Token>, m: map<TaskId, Token>, due: seq<Entry>)
    requires Represents(rest + multiset(WaitingTokens(due)), m)
    ensures forall i, j :: 0 <= i < j < |due| ==> due[i].payload.task != due[j].payload.task
    decreases |due|
  {
    if due != [] {
      var e, tail := due[0], due[1..];
      assert due == [e] + tail;
      WaitingCons(e, tail);
      var waiting := multiset(WaitingTokens(tail));
      assert rest + multiset(WaitingTokens(due)) == rest + waiting + multiset{WaitingToken(e)};
      Remove(rest + waiting, m, WaitingToken(e));
      DropWaiting(rest, m - {e.payload.task}, tail);
      DistinctWaiting(rest, m - {e.payload.task}, tail);
    }
  }

  predicate DistinctIds(toks: seq<Token>) {
    forall i, j :: 0 <= i < j < |toks| ==> toks[i].payload.task != toks[j].payload.task
  }

  /** New tasks, or removed ones pushed back, each get their token. */
  lemma {:induction false} AddAll(rest: multiset<Token>, m: map<TaskId, Token>, toks: seq<Token>)
    returns (m': map<TaskId, Token>)
    requires Represents(rest, m) && DistinctIds(toks)
    requires forall tk :: tk in toks ==> tk.payload.task !in m
    ensures Represents(rest + multiset(toks), m')
    ensures forall tk :: tk in toks ==> tk.payload.task in m' && m'[tk.payload.task] == tk
    ensures forall t :: t in m' <==> t in m || exists i :: 0 <= i < |toks| && toks[i].payload.task == t
    ensures forall t :: t in m ==> t in m' && m'[t] == m[t]
    decreases |toks|
  {
    if toks == [] {
      m' := m;
      assert rest + multiset(toks) == rest;
    } else {
      var n := |toks| - 1;
      var front, last := toks[..n], toks[n];
      assert toks == front + [last];
      var m1 := AddAll(rest, m, front);
      Add(rest + multiset(front), m1, last);
      m' := m1[last.payload.task := last];
      assert rest + multiset(toks) == rest + multiset(front) + multiset{last};
    }
  }
}
