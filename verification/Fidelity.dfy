/** What the steps of the pipeline do to the queues, told from the outside: submissions, moves and polls list by list,
    first in first out over every run, and requests that travel unaltered. */
module Fidelity {
  import opened TaskQueue
  import opened Pipeline
  import opened RedisQueues
  import opened Conservation
  import opened Agreement
  import opened Engine
  import Polling

  // ------------------------------------------------------------------
  // One step
  // ------------------------------------------------------------------

  /** A submission: a queued row and a payload for each task, each payload at the tail of the list its own priority
      names, in the order of the submission. Only a scan that is pending or paused changes its status. */
  lemma SubmitIs(s: State, scan: ScanId, tasks: seq<TaskSpec>)
    requires Enabled(s, Submit(scan, tasks))
    ensures var s', was := Next(s, Submit(scan, tasks)), s.scans[scan];
      && s' == s.(rows := s'.rows, lists := s'.lists, scans := s'.scans, history := s'.history)
      && Inserted(s.rows, s'.rows, scan, tasks)
      && (exists batch :: IsBatchOf(batch, scan, tasks) && Pushed(s.lists, s'.lists, batch))
      && s'.scans == s.scans[scan := if was == Pending || was == Paused then Running else was]
  {
    hide Enqueue, NewRows, NewHistory, Pushed;
    var batch := NewPayloads(scan, tasks);
    assert IsBatchOf(batch, scan, tasks);
    EnqueuePushes(s.lists, batch);
    SubmittedAre(s, scan, tasks);
  }

  lemma SubmittedAre(s: State, scan: ScanId, tasks: seq<TaskSpec>)
    requires FreshTasks(s.rows, tasks)
    ensures Inserted(s.rows, s.rows + NewRows(scan, tasks), scan, tasks)
  {
    forall t ensures t in NewRows(scan, tasks) <==> exists i :: 0 <= i < |tasks| && tasks[i].id == t {
      NewRowsKeys(scan, tasks, t);
      if i :| 0 <= i < |tasks| && tasks[i].id == t {
        NewRowsAt(scan, tasks, i);
      }
    }
    forall i | 0 <= i < |tasks| ensures NewRows(scan, tasks)[tasks[i].id] == Row(scan, QUEUED, 0, tasks[i].retryCount) {
      NewRowsAt(scan, tasks, i);
    }
    hide NewRows;
  }

  /** A poll starts a process for the head of the first list of its order that holds something. */
  lemma PopIs(s: State, draw: real)
    requires Enabled(s, Pop(draw))
    ensures var s' := Next(s, Pop(draw));
      exists r :: TakesHead(s.lists, draw, r, s'.lists)
        && s' == s.(lists := s'.lists, procs := s.procs + if r.Some? then [Proc(r.value, Popped)] else [])
  {
    PopTakesHead(s.lists, draw);
    hide TakesHead, PollOrder;
    match FirstNonEmpty(s.lists, PollOrder(draw))
    case None =>
      assert s.procs + [] == s.procs;
    case Some(q) =>
      assert TakesHead(s.lists, draw, Some(s.lists.Of(q)[0]), Next(s, Pop(draw)).lists);
  }

  /** A move pushes the first 50 of the due entries, and removes all that are due. */
  lemma MoveIs(s: State, now: real)
    requires Enabled(s, MoveDue(now))
    ensures var s' := Next(s, MoveDue(now));
      && s' == s.(lists := s'.lists, delayed := s'.delayed)
      && (exists batch :: FirstDue(s.delayed, now, batch) && Pushed(s.lists, s'.lists, batch))
      && Divides(s.delayed, now, s'.delayed, false)
  {
    BatchIsFirstDue(s.delayed, now);
    EnqueuePushes(s.lists, ReadBatch(s.delayed, now));
    DueDivides(s.delayed, now);
    hide FirstDue, Pushed, Divides, Enqueue;
  }

  // ------------------------------------------------------------------
  // First in, first out
  // ------------------------------------------------------------------

  function Pushes(batch: seq<Payload>): seq<Polling.Op> {
    seq(|batch|, i requires 0 <= i < |batch| => Polling.Push(batch[i]))
  }

  /** What a step does to the lists. */
  function OpsOf(s: State, e: Event): seq<Polling.Op> {
    match e
    case Submit(scan, tasks) => Pushes(NewPayloads(scan, tasks))
    case MoveDue(now) => Pushes(ReadBatch(s.delayed, now))
    case Pop(draw) => [Polling.Poll(draw)]
    case _ => []
  }

  function RunOps(s: State, es: seq<Event>): seq<Polling.Op>
    requires IsRun(s, es)
    decreases |es|
  {
    if es == [] then [] else OpsOf(s, es[0]) + RunOps(Next(s, es[0]), es[1..])
  }

  lemma {:induction false} PushesAll(l: Lists, batch: seq<Payload>)
    ensures Polling.ApplyAll(l, Pushes(batch)) == Enqueue(l, batch)
    decreases |batch|
  {
    if batch == [] {
      EnqueueNothing(l);
    } else {
      assert Pushes(batch)[1..] == Pushes(batch[1..]) && Pushes(batch)[0] == Polling.Push(batch[0]);
      EnqueueOneByOne(l, batch);
      hide Enqueue, QueueFor;
      PushesAll(Push(l, batch[0]), batch[1..]);
    }
  }

  lemma {:induction false} ApplyAppend(l: Lists, x: seq<Polling.Op>, y: seq<Polling.Op>)
    ensures Polling.ApplyAll(l, x + y) == Polling.ApplyAll(Polling.ApplyAll(l, x), y)
    decreases |x|
  {
    hide Polling.Apply;
    if x == [] {
      assert x + y == y;
    } else {
      assert (x + y)[1..] == x[1..] + y;
      ApplyAppend(Polling.Apply(l, x[0]), x[1..], y);
    }
  }

  lemma StepIsPolled(s: State, e: Event)
    requires Enabled(s, e)
    ensures Polling.ApplyAll(s.lists, OpsOf(s, e)) == Next(s, e).lists
  {
    match e
    case Submit(scan, tasks) => PushesAll(s.lists, NewPayloads(scan, tasks));
    case MoveDue(now) => PushesAll(s.lists, ReadBatch(s.delayed, now));
    case Pop(draw) => assert [Polling.Poll(draw)][1..] == [];
    case _ => OtherLists(s, e);
  }

  lemma OtherLists(s: State, e: Event)
    requires Enabled(s, e) && !e.Submit? && !e.MoveDue? && !e.Pop?
    ensures Next(s, e).lists == s.lists
  {
  }

  /** The lists of any run are those of its pushes and polls. */
  lemma {:induction false} RunIsPolled(s: State, es: seq<Event>)
    requires IsRun(s, es)
    ensures Polling.ApplyAll(s.lists, RunOps(s, es)) == RunFrom(s, es).lists
    decreases |es|
  {
    if es != [] {
      hide Next, Enabled, OpsOf;
      StepIsPolled(s, es[0]);
      RunIsPolled(Next(s, es[0]), es[1..]);
      ApplyAppend(s.lists, OpsOf(s, es[0]), RunOps(Next(s, es[0]), es[1..]));
    }
  }

  /** In every run what a list has delivered, followed by what it holds, is what was pushed to it, in order. */
  lemma RunsAreFifo(es: seq<Event>, q: Queue)
    requires IsRun(INITIAL, es)
    ensures var ops := RunOps(INITIAL, es);
      Polling.Delivered(NO_LISTS, ops, q) + RunFrom(INITIAL, es).lists.Of(q) == Polling.Pushed(ops, q)
  {
    hide IsRun, RunFrom, RunOps;
    RunIsPolled(INITIAL, es);
    Polling.ListsAreFifo(NO_LISTS, RunOps(INITIAL, es), q);
    assert NO_LISTS.Of(q) == [];
  }

  // ------------------------------------------------------------------
  // Requests travel unaltered
  // ------------------------------------------------------------------

  /** The request of a payload: all but the count of attempts. */
  function Request(p: Payload): Payload { p.(attempt := 0) }

  function Requests(toks: multiset<Token>): set<Payload> { set tk | tk in toks :: Request(tk.payload) }

  function NewRequests(e: Event): set<Payload> {
    if e.Submit? then set p | p in NewPayloads(e.scan, e.tasks) else {}
  }

  lemma Relocated(s: State, s': State, rest: multiset<Token>, was: Token, now: Token)
    requires Tokens(s) == rest + multiset{was} && Tokens(s') == rest + multiset{now}
    requires Request(was.payload) == Request(now.payload)
    ensures Requests(Tokens(s')) == Requests(Tokens(s))
  {
    hide Tokens;
    RequestsAdd(rest, was);
    RequestsAdd(rest, now);
  }

  lemma RequestsAdd(rest: multiset<Token>, tk: Token)
    ensures Requests(rest + multiset{tk}) == Requests(rest) + {Request(tk.payload)}
  {
    forall r ensures r in Requests(rest + multiset{tk}) <==> r in Requests(rest) + {Request(tk.payload)} {
      if r in Requests(rest) {
        var x :| x in rest && Request(x.payload) == r;
        assert x in rest + multiset{tk};
      }
      if r == Request(tk.payload) {
        assert tk in rest + multiset{tk};
      }
    }
  }

  lemma SameRequest(s: State, e: Event)
    requires Enabled(s, e) && MovesProc(e)
    ensures Request(Next(s, e).procs[e.i].payload) == Request(s.procs[e.i].payload)
  {
    hide JudgementOf, Backoff, SetStatus, SaveRow;
  }

  lemma ProcRequests(s: State, e: Event)
    requires Enabled(s, e) && MovesProc(e)
    ensures Requests(Tokens(Next(s, e))) == Requests(Tokens(s))
  {
    var s', i := Next(s, e), e.i;
    ProcStepFrame(s, e);
    SplitProc(s, i);
    SplitProc(s', i);
    assert Others(s', i) == Others(s, i) by {
      assert DropProc(s'.procs, i) == DropProc(s.procs, i);
    }
    SameRequest(s, e);
    hide *;
    Relocated(s, s', Others(s, i), ProcToken(s.procs[i]), ProcToken(s'.procs[i])) by { ProcTokensAre(s.procs[i]); ProcTokensAre(s'.procs[i]); }
  }

  lemma ProcTokensAre(p: Proc)
    ensures ProcToken(p).payload == p.payload
  {
  }

  lemma PopRequests(s: State, draw: real)
    requires Enabled(s, Pop(draw))
    ensures Requests(Tokens(Next(s, Pop(draw)))) == Requests(Tokens(s))
  {
    match FirstNonEmpty(s.lists, PollOrder(draw))
    case None =>
    case Some(q) =>
      assert Next(s, Pop(draw)) == AfterPop(s, q);
      hide Next, Tokens, RestOfPop;
      PopTokensBefore(s, q);
      PopTokensAfter(s, q);
      var p := s.lists.Of(q)[0];
      Relocated(s, AfterPop(s, q), RestOfPop(s, q), Token(p, Listed(q)), Token(p, InFlight(Popped)));
  }

  lemma LeaveRequests(s: State, m: map<TaskId, Token>, e: Event)
    requires Represents(Tokens(s), m) && Enabled(s, e) && (e.Finish? || e.Schedule? || e.SendToDlq?)
    ensures Requests(Tokens(Next(s, e))) == Requests(Tokens(s))
  {
    var i := e.i;
    var p := s.procs[i].payload;
    hide Tokens, Others, Next, Represents;
    SplitProc(s, i);
    match e
    case Finish(_) =>
      FinishTokens(s, i);
      Relocated(s, Next(s, e), Others(s, i), ProcToken(s.procs[i]), Token(p, Done));
    case Schedule(_) =>
      NotYetDelayed(s, m, i);
      ScheduleTokens(s, i);
      Relocated(s, Next(s, e), Others(s, i), ProcToken(s.procs[i]), Token(p, Waiting(s.procs[i].pc.score)));
    case SendToDlq(_) =>
      var reason := if s.procs[i].pc.FailMarked? then Exhausted else WorkerError;
      DlqTokens(s, i, reason);
      Relocated(s, Next(s, e), Others(s, i), ProcToken(s.procs[i]), Token(p, DeadLettered(reason)));
  }

  lemma MoveRequests(s: State, now: real)
    requires Enabled(s, MoveDue(now))
    ensures Requests(Tokens(Next(s, MoveDue(now)))) <= Requests(Tokens(s))
  {
    MoveIsPast(s, now);
    var kept := Kept(s, now);
    var pushed := Relisted(Payloads(kept));
    assert forall i :: 0 <= i < |kept| ==> pushed[i].payload == WaitingTokens(kept)[i].payload;
    hide Tokens, Next, RestOfMove, Kept, Cut, Relisted, WaitingTokens;
    MoveTokensBefore(s, now);
    MoveTokensAfter(s, now);
    forall tk | tk in RestOfMove(s, now) + multiset(pushed) ensures Request(tk.payload) in Requests(Tokens(s)) {
      if tk in RestOfMove(s, now) {
        assert tk in Tokens(s);
      } else {
        assert tk in multiset(pushed);
        var i :| 0 <= i < |pushed| && pushed[i] == tk;
        assert WaitingTokens(kept)[i] in multiset(WaitingTokens(kept));
        assert WaitingTokens(kept)[i] in Tokens(s);
      }
    }
  }

  lemma SubmitRequests(s: State, scan: ScanId, tasks: seq<TaskSpec>)
    requires Enabled(s, Submit(scan, tasks))
    ensures Requests(Tokens(Next(s, Submit(scan, tasks)))) <= Requests(Tokens(s)) + NewRequests(Submit(scan, tasks))
  {
    SubmitTokens(s, scan, tasks);
    var e, toks := Submit(scan, tasks), Relisted(NewPayloads(scan, tasks));
    hide Tokens, Relisted, NewPayloads, SubmitTo, FreshTasks;
    forall tk | tk in Tokens(s) + multiset(toks) ensures Request(tk.payload) in Requests(Tokens(s)) + NewRequests(e) {
      if tk !in Tokens(s) {
        assert tk in multiset(toks);
        NewTokens(scan, tasks, tk);
      }
    }
  }

  lemma NewTokens(scan: ScanId, tasks: seq<TaskSpec>, tk: Token)
    requires tk in multiset(Relisted(NewPayloads(scan, tasks)))
    ensures Request(tk.payload) in NewRequests(Submit(scan, tasks))
  {
    var ps := NewPayloads(scan, tasks);
    var i :| 0 <= i < |ps| && Relisted(ps)[i] == tk;
    assert ps[i] in ps && Request(ps[i]) == ps[i];
  }

  lemma StepRequests(s: State, m: map<TaskId, Token>, e: Event)
    requires Represents(Tokens(s), m) && Enabled(s, e)
    ensures Requests(Tokens(Next(s, e))) <= Requests(Tokens(s)) + NewRequests(e)
  {
    hide Tokens, Represents, Requests;
    match e
    case CreateScan(_) => IdleTokens(s, e);
    case Tick(_) => IdleTokens(s, e);
    case Submit(scan, tasks) => SubmitRequests(s, scan, tasks);
    case MoveDue(now) => MoveRequests(s, now);
    case Pop(draw) => PopRequests(s, draw);
    case Finish(_) => LeaveRequests(s, m, e);
    case Schedule(_) => LeaveRequests(s, m, e);
    case SendToDlq(_) => LeaveRequests(s, m, e);
    case _ => ProcEvents(e); ProcRequests(s, e);
  }

  lemma IdleTokens(s: State, e: Event)
    requires Enabled(s, e) && (e.CreateScan? || e.Tick?)
    ensures Tokens(Next(s, e)) == Tokens(s)
  {
  }

  /** Some submission of the run asked for this: its task, scan, retries and priority. */
  ghost predicate WasSubmitted(es: seq<Event>, p: Payload) {
    exists e :: e in es && e.Submit?
      && exists i :: 0 <= i < |e.tasks|
           && p == Payload(e.tasks[i].id, e.scan, p.attempt, e.tasks[i].retryCount, e.tasks[i].priority)
  }

  lemma NewIsSubmitted(es: seq<Event>, e: Event, p: Payload)
    requires e in es && Request(p) in NewRequests(e)
    ensures WasSubmitted(es, p)
  {
    var ps := NewPayloads(e.scan, e.tasks);
    assert Request(p) in ps;
    var i :| 0 <= i < |ps| && ps[i] == Request(p);
    assert p == Payload(e.tasks[i].id, e.scan, p.attempt, e.tasks[i].retryCount, e.tasks[i].priority);
  }

  lemma {:induction false} RunRequests(s: State, m: map<TaskId, Token>, lost: set<TaskId>, es: seq<Event>, r: Payload)
    requires Inv(s, m, lost) && IsRun(s, es) && r in Requests(Tokens(RunFrom(s, es)))
    ensures r in Requests(Tokens(s)) || exists e :: e in es && r in NewRequests(e)
    decreases |es|
  {
    if es != [] {
      assert Represents(Tokens(s), m);
      hide Next, Enabled, Inv, Tokens, Requests, NewRequests, Represents;
      RunUnfolds(s, es);
      StepRequests(s, m, es[0]);
      var m1 := StepInv(s, m, lost, es[0]);
      RunRequests(Next(s, es[0]), m1, lost + DroppedBy(s, es[0]), es[1..], r);
      if r !in Requests(Tokens(s)) {
        if e :| e in es[1..] && r in NewRequests(e) {
          assert e in es;
        } else {
          assert es[0] in es;
        }
      }
    }
  }

  /** Wherever a task is in any run, in a list, delayed, in a worker, finished or dead, its payload is the one
      submitted, but for the count of attempts: no retry, move or worker changes its scan, retries or priority. */
  lemma RequestsAreUnaltered(es: seq<Event>, tk: Token)
    requires IsRun(INITIAL, es) && tk in Tokens(RunFrom(INITIAL, es))
    ensures WasSubmitted(es, tk.payload)
  {
    assert Requests(Tokens(INITIAL)) == {} by { assert Tokens(INITIAL) == multiset{}; }
    var r := Request(tk.payload);
    assert r in Requests(Tokens(RunFrom(INITIAL, es)));
    hide IsRun, RunFrom, Inv, Tokens, NewRequests, WasSubmitted;
    InitialInv();
    RunRequests(INITIAL, map[], {}, es, r);
    var e :| e in es && r in NewRequests(e);
    NewIsSubmitted(es, e, tk.payload);
  }
}
