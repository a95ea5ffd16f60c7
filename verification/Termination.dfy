/** Every run does a bounded amount of work, and work is possible until all tasks have come to an end. */
module Termination {
  import opened TaskQueue
  import opened Pipeline
  import opened Conservation
  import opened Agreement

  // ------------------------------------------------------------------
  // The measure
  // ------------------------------------------------------------------

  /** Steps one attempt can still take from a place, counted from the scheduling of its retry. */
  function Rank(place: Place): nat {
    match place
    case Waiting(_) => 10
    case Listed(_) => 9
    case Done => 0
    case DeadLettered(_) => 0
    case InFlight(pc) => (
      match pc
      case RetryMarked => 12
      case Stamped(_) => 11
      case Popped => 8
      case Marked => 7
      case Admitted => 6
      case Executed(_) => 5
      case Denied => 5
      case Saved(_) => 4
      case Judged(_, _) => 3
      case Evaluated(_) => 2
      case FailMarked => 1)
  }

  function Remaining(p: Payload): nat {
    if p.attempt < p.maxRetries then p.maxRetries - p.attempt else 0
  }

  /** Lexicographic: retries left first, then the place. */
  function Weight(tk: Token): nat { 13 * Remaining(tk.payload) + Rank(tk.place) }

  ghost function Total(toks: multiset<Token>): nat
    decreases |toks|
  {
    if toks == multiset{} then 0
    else
      var tk :| tk in toks;
      Weight(tk) + Total(toks - multiset{tk})
  }

  lemma {:induction false} TotalRemove(toks: multiset<Token>, x: Token)
    requires x in toks
    ensures Total(toks) == Weight(x) + Total(toks - multiset{x})
    decreases |toks|
  {
    var y :| y in toks && Total(toks) == Weight(y) + Total(toks - multiset{y});
    if x != y {
      TotalRemove(toks - multiset{y}, x);
      TotalRemove(toks - multiset{x}, y);
      assert toks - multiset{y} - multiset{x} == toks - multiset{x} - multiset{y};
    }
  }

  lemma TotalAdd(toks: multiset<Token>, x: Token)
    ensures Total(toks + multiset{x}) == Total(toks) + Weight(x)
  {
    TotalRemove(toks + multiset{x}, x);
    assert toks + multiset{x} - multiset{x} == toks;
  }

  function SumWeights(ts: seq<Token>): nat {
    if ts == [] then 0 else Weight(ts[0]) + SumWeights(ts[1..])
  }

  lemma {:induction false} TotalAddAll(toks: multiset<Token>, ts: seq<Token>)
    ensures Total(toks + multiset(ts)) == Total(toks) + SumWeights(ts)
    decreases |ts|
  {
    hide Total, Weight;
    if ts == [] {
      assert toks + multiset(ts) == toks;
    } else {
      TotalAdd(toks, ts[0]);
      TotalAddAll(toks + multiset{ts[0]}, ts[1..]);
      assert ts == [ts[0]] + ts[1..];
      assert toks + multiset{ts[0]} + multiset(ts[1..]) == toks + multiset(ts);
    }
  }

  ghost function Measure(s: State): nat { Total(Tokens(s)) }

  /** Steps that do something to a task already submitted. */
  predicate IsWork(s: State, e: Event) {
    match e
    case CreateScan(_) => false
    case Submit(_, _) => false
    case Tick(_) => false
    case MoveDue(now) => Due(s.delayed, now) != []
    case Pop(draw) => FirstNonEmpty(s.lists, PollOrder(draw)) != None
    case _ => true
  }

  function Work(s: State, es: seq<Event>): nat
    requires IsRun(s, es)
    decreases |es|
  {
    if es == [] then 0 else (if IsWork(s, es[0]) then 1 else 0) + Work(Next(s, es[0]), es[1..])
  }

  /** What a submission adds: 13 steps for every retry allowed and 9 for the first attempt. */
  function Budget(tasks: seq<TaskSpec>): nat {
    if tasks == [] then 0
    else 13 * (if tasks[0].retryCount >= 0 then tasks[0].retryCount else 0) + 9 + Budget(tasks[1..])
  }

  function Submitted(es: seq<Event>): nat {
    if es == [] then 0 else (if es[0].Submit? then Budget(es[0].tasks) else 0) + Submitted(es[1..])
  }

  // ------------------------------------------------------------------
  // Every working step lowers the measure
  // ------------------------------------------------------------------

  lemma MeasureReplace(s: State, s': State, rest: multiset<Token>, was: Token, now: Token)
    requires Tokens(s) == rest + multiset{was} && Tokens(s') == rest + multiset{now}
    ensures Measure(s') + Weight(was) == Measure(s) + Weight(now)
  {
    TotalAdd(rest, was);
    TotalAdd(rest, now);
  }

  lemma ProcWeight(s: State, e: Event)
    requires Enabled(s, e) && MovesProc(e)
    ensures Weight(ProcToken(Next(s, e).procs[e.i])) < Weight(ProcToken(s.procs[e.i]))
  {
    hide SetStatus, SaveRow, AddExecution, AddBackoff, JudgementOf, WrittenScans, Backoff;
  }

  lemma ProcMeasure(s: State, e: Event)
    requires Enabled(s, e) && MovesProc(e)
    ensures Measure(Next(s, e)) < Measure(s)
  {
    var s', i := Next(s, e), e.i;
    ProcStepFrame(s, e);
    SplitProc(s, i);
    SplitProc(s', i);
    assert Others(s', i) == Others(s, i) by {
      assert DropProc(s'.procs, i) == DropProc(s.procs, i);
    }
    ProcWeight(s, e);
    hide *;
    MeasureReplace(s, s', Others(s, i), ProcToken(s.procs[i]), ProcToken(s'.procs[i]));
  }

  lemma {:induction false} WaitingWeights(due: seq<Entry>)
    ensures SumWeights(WaitingTokens(due)) == SumWeights(Relisted(Payloads(due))) + |due|
    decreases |due|
  {
    if due != [] {
      WaitingWeights(due[1..]);
      assert WaitingTokens(due)[1..] == WaitingTokens(due[1..]);
      assert Relisted(Payloads(due))[1..] == Relisted(Payloads(due[1..]));
    }
  }

  lemma MoveMeasure(s: State, now: real)
    requires now <= s.clock
    ensures Measure(Next(s, MoveDue(now))) + |Due(s.delayed, now)| <= Measure(s)
  {
    hide Next, Relisted, WaitingTokens, RestOfMove, Kept, Cut, Due;
    MoveTokensBefore(s, now);
    MoveTokensAfter(s, now);
    var rest, kept, cut := RestOfMove(s, now), WaitingTokens(Kept(s, now)), WaitingTokens(Cut(s, now));
    TotalAddAll(rest, kept);
    TotalAddAll(rest + multiset(kept), cut);
    TotalAddAll(rest, Relisted(Payloads(Kept(s, now))));
    WaitingWeights(Kept(s, now));
    WaitingWeights(Cut(s, now));
    CutLength(s, now);
  }

  lemma CutLength(s: State, now: real)
    ensures |Due(s.delayed, now)| == |Kept(s, now)| + |Cut(s, now)|
  {
  }

  lemma {:induction false} BudgetIsWeight(scan: ScanId, tasks: seq<TaskSpec>)
    ensures SumWeights(Relisted(NewPayloads(scan, tasks))) == Budget(tasks)
    decreases |tasks|
  {
    if tasks != [] {
      BudgetIsWeight(scan, tasks[1..]);
      assert Relisted(NewPayloads(scan, tasks))[1..] == Relisted(NewPayloads(scan, tasks[1..]));
    }
  }

  /** A payload that changes place without a new attempt loses weight with the rank of its place. */
  lemma RelocateWeight(p: Payload, was: Place, now: Place)
    requires Relocates(was, now)
    ensures Weight(Token(p, now)) < Weight(Token(p, was))
  {
  }

  lemma RelocateMeasure(s: State, s': State, rest: multiset<Token>, p: Payload, was: Place, now: Place)
    requires Tokens(s) == rest + multiset{Token(p, was)} && Tokens(s') == rest + multiset{Token(p, now)}
    requires Relocates(was, now)
    ensures Measure(s') < Measure(s)
  {
    hide *;
    MeasureReplace(s, s', rest, Token(p, was), Token(p, now));
    RelocateWeight(p, was, now);
  }

  lemma PopIsAfterPop(s: State, draw: real)
    requires Enabled(s, Pop(draw))
    ensures match FirstNonEmpty(s.lists, PollOrder(draw))
            case None => Next(s, Pop(draw)) == s && !IsWork(s, Pop(draw))
            case Some(q) => Next(s, Pop(draw)) == AfterPop(s, q)
  {
  }

  lemma PopMeasure(s: State, draw: real)
    requires Enabled(s, Pop(draw))
    ensures Measure(Next(s, Pop(draw))) + (if IsWork(s, Pop(draw)) then 1 else 0) <= Measure(s)
  {
    hide *;
    PopIsAfterPop(s, draw);
    match FirstNonEmpty(s.lists, PollOrder(draw))
    case None =>
    case Some(q) =>
      PopTokensBefore(s, q);
      PopTokensAfter(s, q);
      assert Relocates(Listed(q), InFlight(Popped)) by { ListedToPopped(q); }
      RelocateMeasure(s, AfterPop(s, q), RestOfPop(s, q), s.lists.Of(q)[0], Listed(q), InFlight(Popped));
  }

  lemma ListedToPopped(q: Queue)
    ensures Relocates(Listed(q), InFlight(Popped))
  {
  }

  lemma FinishMeasure(s: State, i: nat)
    requires Enabled(s, Finish(i))
    ensures Measure(Next(s, Finish(i))) < Measure(s)
  {
    hide Tokens, Others, Measure, Next;
    SplitProc(s, i);
    FinishTokens(s, i);
    RelocateMeasure(s, Next(s, Finish(i)), Others(s, i), s.procs[i].payload, InFlight(s.procs[i].pc), Done);
  }

  lemma ScheduleMeasure(s: State, m: map<TaskId, Token>, i: nat)
    requires Represents(Tokens(s), m) && Enabled(s, Schedule(i))
    ensures Measure(Next(s, Schedule(i))) < Measure(s)
  {
    hide Tokens, Others, Measure, Next, Represents;
    SplitProc(s, i);
    NotYetDelayed(s, m, i);
    ScheduleTokens(s, i);
    RelocateMeasure(s, Next(s, Schedule(i)), Others(s, i), s.procs[i].payload, InFlight(s.procs[i].pc),
                    Waiting(s.procs[i].pc.score));
  }

  lemma DlqMeasure(s: State, i: nat)
    requires Enabled(s, SendToDlq(i))
    ensures Measure(Next(s, SendToDlq(i))) < Measure(s)
  {
    hide Tokens, Others, Measure, Next;
    var reason := if s.procs[i].pc.FailMarked? then Exhausted else WorkerError;
    SplitProc(s, i);
    DlqTokens(s, i, reason);
    RelocateMeasure(s, Next(s, SendToDlq(i)), Others(s, i), s.procs[i].payload, InFlight(s.procs[i].pc),
                    DeadLettered(reason));
  }

  lemma StepMeasure(s: State, m: map<TaskId, Token>, lost: set<TaskId>, e: Event)
    requires Inv(s, m, lost) && Enabled(s, e)
    ensures Measure(Next(s, e)) + (if IsWork(s, e) then 1 else 0) <= Measure(s) + Submitted([e])
  {
    assert Submitted([e]) == if e.Submit? then Budget(e.tasks) else 0 by { assert [e][1..] == []; }
    match e
    case CreateScan(_) =>
    case Tick(_) =>
    case Submit(scan, tasks) =>
      SubmitTokens(s, scan, tasks);
      TotalAddAll(Tokens(s), Relisted(NewPayloads(scan, tasks)));
      BudgetIsWeight(scan, tasks);
    case MoveDue(now) => MoveMeasure(s, now);
    case Pop(draw) => PopMeasure(s, draw);
    case Finish(i) => FinishMeasure(s, i);
    case Schedule(i) => ScheduleMeasure(s, m, i);
    case SendToDlq(i) => DlqMeasure(s, i);
    case _ => ProcEvents(e); ProcMeasure(s, e);
  }

  // ------------------------------------------------------------------
  // Bounded work
  // ------------------------------------------------------------------

  lemma WorkUnfolds(s: State, es: seq<Event>)
    requires IsRun(s, es) && es != []
    ensures Enabled(s, es[0]) && IsRun(Next(s, es[0]), es[1..])
    ensures Work(s, es) == (if IsWork(s, es[0]) then 1 else 0) + Work(Next(s, es[0]), es[1..])
    ensures Submitted(es) == Submitted([es[0]]) + Submitted(es[1..])
  {
    assert [es[0]][1..] == [];
  }

  lemma {:induction false} RunMeasure(s: State, m: map<TaskId, Token>, lost: set<TaskId>, es: seq<Event>)
    requires Inv(s, m, lost) && IsRun(s, es)
    ensures Work(s, es) + Measure(RunFrom(s, es)) <= Measure(s) + Submitted(es)
    decreases |es|
  {
    if es != [] {
      hide *;
      RunUnfolds(s, es);
      WorkUnfolds(s, es);
      StepMeasure(s, m, lost, es[0]);
      var m1 := StepInv(s, m, lost, es[0]);
      RunMeasure(Next(s, es[0]), m1, lost + DroppedBy(s, es[0]), es[1..]);
    }
  }

  /** Whatever is interleaved, the working steps of a run never exceed the budget of the submitted tasks. */
  lemma WorkIsBounded(es: seq<Event>)
    requires IsRun(INITIAL, es)
    ensures Work(INITIAL, es) <= Submitted(es)
  {
    hide IsRun, RunFrom, Work, Submitted, Inv;
    InitialInv();
    RunMeasure(INITIAL, map[], {}, es);
    assert Tokens(INITIAL) == multiset{};
    assert Measure(INITIAL) == 0;
  }

  // ------------------------------------------------------------------
  // No run gets stuck before the end
  // ------------------------------------------------------------------

  /** All tasks still in the system have finished or are dead-lettered. */
  predicate Quiescent(s: State) {
    s.lists == NO_LISTS && s.delayed == [] && s.procs == []
  }

  /** Scores come from a clock that started at 0. */
  predicate Timed(s: State) {
    && 0.0 <= s.clock
    && (forall p :: p in s.procs && p.pc.Stamped? ==> 0.0 <= p.pc.score)
    && (forall e :: e in s.delayed ==> 0.0 <= e.score)
  }

  lemma TimedProc(s: State, e: Event)
    requires Timed(s) && Enabled(s, e) && MovesProc(e)
    ensures Timed(Next(s, e))
  {
    var s', i := Next(s, e), e.i;
    ProcStepFrame(s, e);
    assert s'.procs[i].pc.Stamped? ==> 0.0 <= s'.procs[i].pc.score;
    forall p | p in s'.procs && p.pc.Stamped? ensures 0.0 <= p.pc.score {
      var j :| 0 <= j < |s'.procs| && s'.procs[j] == p;
      if j != i {
        assert p == s.procs[j] && s.procs[j] in s.procs;
      }
    }
  }

  lemma {:induction false} InsertMembers(delayed: seq<Entry>, e: Entry, x: Entry)
    ensures x in Insert(delayed, e) <==> x == e || x in delayed
  {
    InsertContents(delayed, e);
    assert x in multiset(Insert(delayed, e)) <==> x in Insert(delayed, e);
    assert x in multiset(delayed) <==> x in delayed;
  }

  lemma StepTimed(s: State, e: Event)
    requires Timed(s) && Enabled(s, e)
    ensures Timed(Next(s, e))
  {
    if MovesProc(e) {
      TimedProc(s, e);
    } else if e.Schedule? {
      var p := s.procs[e.i];
      forall x | x in Next(s, e).delayed ensures 0.0 <= x.score {
        InsertMembers(Without(s.delayed, p.payload), Entry(p.payload, p.pc.score), x);
        WithoutMembers(s.delayed, p.payload, x);
      }
    } else if e.MoveDue? {
      forall x | x in Next(s, e).delayed ensures 0.0 <= x.score {
        DueMembers(s.delayed, e.now, x);
      }
    }
  }

  lemma {:induction false} RunTimed(s: State, es: seq<Event>)
    requires Timed(s) && IsRun(s, es)
    ensures Timed(RunFrom(s, es))
    decreases |es|
  {
    if es != [] {
      hide *;
      RunUnfolds(s, es);
      StepTimed(s, es[0]);
      RunTimed(Next(s, es[0]), es[1..]);
    } else {
      EmptyRun(s);
    }
  }

  /** The next step of a process, whatever its counter says. */
  function NextOf(i: nat, p: Proc): Event {
    match p.pc
    case Popped => Mark(i)
    case Marked => AskLimiter(i, true)
    case Admitted => Execute(i, true)
    case Executed(_) => Save(i)
    case Denied => Save(i)
    case Saved(_) => ReadStatuses(i)
    case Judged(_, _) => WriteVerdict(i)
    case Evaluated(end) => (match end case Succeeded => Finish(i) case HttpFailed => HandleRetry(i) case RateDenied => SendToDlq(i))
    case RetryMarked => Stamp(i)
    case Stamped(_) => Schedule(i)
    case FailMarked => SendToDlq(i)
  }

  lemma ProcessCanGoOn(s: State, i: nat)
    requires At(s, i) && AgreesAt(s, i)
    ensures Enabled(s, NextOf(i, s.procs[i])) && IsWork(s, NextOf(i, s.procs[i]))
  {
  }

  lemma ListCanBePolled(s: State)
    requires s.lists != NO_LISTS
    ensures Enabled(s, Pop(0.0)) && IsWork(s, Pop(0.0))
  {
    PollFindsNothing(s.lists, 0.0);
  }

  lemma DelayedComesDue(s: State, e: Entry, now: real)
    requires e in s.delayed && 0.0 <= e.score <= now && s.clock == now
    ensures Enabled(s, MoveDue(now)) && IsWork(s, MoveDue(now))
  {
    DueMembers(s.delayed, now, e);
  }

  /** Unless all tasks have come to an end, some working step is possible now or, if only delayed retries are
      left, once the clock has advanced. */
  lemma WorkIsPossible(es: seq<Event>) returns (now: real, e: Event)
    requires IsRun(INITIAL, es) && !Quiescent(RunFrom(INITIAL, es))
    ensures var s := RunFrom(INITIAL, es);
      && s.clock <= now
      && Enabled(s.(clock := now), e) && IsWork(s.(clock := now), e)
  {
    hide IsRun, RunFrom, Inv, Enabled, IsWork;
    var s := RunFrom(INITIAL, es);
    InitialInv();
    var m := RunInv(INITIAL, map[], {}, es);
    RunTimed(INITIAL, es);
    now := s.clock;
    assert s.(clock := now) == s;
    if s.procs != [] {
      InvAgreesAt(s, m, {} + Dropped(INITIAL, es), 0);
      ProcessCanGoOn(s, 0);
      e := NextOf(0, s.procs[0]);
    } else if s.lists != NO_LISTS {
      ListCanBePolled(s);
      e := Pop(0.0);
    } else {
      var d := s.delayed[0];
      now := if s.clock <= d.score then d.score else s.clock;
      e := MoveDue(now);
      DelayedComesDue(s.(clock := now), d, now);
    }
  }
}
