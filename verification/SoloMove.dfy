/** Copies made by the split delayed move: when a write adds one, and that none are made as long as one worker at a
    time is between its read and its write. */
module SoloMove {
  import opened TaskQueue
  import opened Pipeline
  import opened Conservation
  import opened Agreement
  import opened SplitMove
  import Polling

  // ------------------------------------------------------------------
  // What one write adds
  // ------------------------------------------------------------------

  ghost predicate Single(ps: seq<Payload>) { forall p :: multiset(ps)[p] <= 1 }

  /** The sorted set and every batch hold a payload at most once. */
  ghost predicate Singles(s: SplitState) {
    Single(Payloads(s.core.delayed)) && forall r :: r in s.pending ==> Single(r.batch)
  }

  predicate DueMember(delayed: seq<Entry>, now: real, p: Payload) {
    exists e :: e in delayed && e.payload == p && IsDue(e, now)
  }

  lemma DueCount(delayed: seq<Entry>, now: real, p: Payload)
    requires Single(Payloads(delayed))
    ensures multiset(Payloads(Due(delayed, now)))[p] == if DueMember(delayed, now, p) then 1 else 0
  {
    Polling.DuePayloads(delayed, now);
    var due, ps := Due(delayed, now), Payloads(Due(delayed, now));
    assert multiset(Payloads(delayed))[p] <= 1;
    assert multiset(ps)[p] + multiset(Payloads(NotDue(delayed, now)))[p] == multiset(Payloads(delayed))[p];
    if DueMember(delayed, now, p) {
      var e :| e in delayed && e.payload == p && IsDue(e, now);
      DueMembers(delayed, now, e);
      var i :| 0 <= i < |due| && due[i] == e;
      assert ps[i] == p && p in ps;
    } else if p in ps {
      var i :| 0 <= i < |ps| && ps[i] == p;
      DueMembers(delayed, now, due[i]);
    }
  }

  /** The payloads a write puts into lists and sorted set, and those it takes out. */
  lemma WriteAccount(s: SplitState, k: nat)
    requires k < |s.pending|
    ensures var s', r := AfterWrite(s, k), s.pending[k];
      Polling.Contents(s'.core.lists, s'.core.delayed) + multiset(Payloads(Due(s.core.delayed, r.now)))
      == Polling.Contents(s.core.lists, s.core.delayed) + multiset(r.batch)
  {
    hide Enqueue, Due, NotDue, Payloads, Polling.InQueues;
    Polling.EnqueueContents(s.core.lists, s.pending[k].batch);
    Polling.DuePayloads(s.core.delayed, s.pending[k].now);
  }

  /** A covered write adds one copy of exactly those members of its batch that are no longer due in the sorted set,
      because another worker has moved them meanwhile; of everything else it keeps the number of copies. */
  lemma WriteCopies(s: SplitState, k: nat, p: Payload)
    requires k < |s.pending| && Singles(s) && CoveredBy(s.core.delayed, s.pending[k])
    ensures var s', r := AfterWrite(s, k), s.pending[k];
      Polling.Contents(s'.core.lists, s'.core.delayed)[p]
      == Polling.Contents(s.core.lists, s.core.delayed)[p]
         + if p in r.batch && !DueMember(s.core.delayed, r.now, p) then 1 else 0
  {
    var s', r := AfterWrite(s, k), s.pending[k];
    WriteAccount(s, k);
    DueCount(s.core.delayed, r.now, p);
    assert r in s.pending && multiset(r.batch)[p] <= 1;
    assert p in r.batch <==> multiset(r.batch)[p] > 0;
    hide AfterWrite, Polling.Contents, Due, Payloads;
    var added, taken := multiset(r.batch), multiset(Payloads(Due(s.core.delayed, r.now)));
    var before, after := Polling.Contents(s.core.lists, s.core.delayed), Polling.Contents(s'.core.lists, s'.core.delayed);
    assert (after + taken)[p] == after[p] + taken[p] && (before + added)[p] == before[p] + added[p];
  }

  lemma {:induction false} PayloadsWithout(delayed: seq<Entry>, p: Payload, x: Payload)
    ensures multiset(Payloads(Without(delayed, p)))[x] == if x == p then 0 else multiset(Payloads(delayed))[x]
  {
    if delayed != [] {
      PayloadsWithout(delayed[1..], p, x);
      assert delayed == [delayed[0]] + delayed[1..];
      Polling.PayloadsCons(delayed[0], delayed[1..]);
      Polling.PayloadsCons(delayed[0], Without(delayed[1..], p));
      hide Payloads;
      if delayed[0].payload == p {
        assert Without(delayed, p) == Without(delayed[1..], p);
      }
    }
  }

  lemma {:induction false} PayloadsInsert(delayed: seq<Entry>, e: Entry)
    ensures multiset(Payloads(Insert(delayed, e))) == multiset(Payloads(delayed)) + multiset{e.payload}
  {
    if delayed == [] {
      Polling.PayloadsCons(e, []);
    } else {
      assert delayed == [delayed[0]] + delayed[1..];
      Polling.PayloadsCons(delayed[0], delayed[1..]);
      if delayed[0].score <= e.score {
        PayloadsInsert(delayed[1..], e);
        Polling.PayloadsCons(delayed[0], Insert(delayed[1..], e));
      } else {
        Polling.PayloadsCons(e, delayed);
      }
    }
  }

  lemma ScheduleSingle(delayed: seq<Entry>, p: Payload, score: real)
    requires Single(Payloads(delayed))
    ensures Single(Payloads(ZAdd(delayed, p, score)))
  {
    PayloadsInsert(Without(delayed, p), Entry(p, score));
    forall x ensures multiset(Payloads(ZAdd(delayed, p, score)))[x] <= 1 {
      PayloadsWithout(delayed, p, x);
    }
  }

  lemma DueSingle(delayed: seq<Entry>, now: real)
    requires Single(Payloads(delayed))
    ensures Single(Payloads(NotDue(delayed, now))) && Single(ReadBatch(delayed, now))
  {
    hide ReadBatch, CutOff, Due, NotDue, Payloads;
    Polling.DuePayloads(delayed, now);
    Polling.BatchAndCutOff(delayed, now);
    forall p
      ensures multiset(Payloads(NotDue(delayed, now)))[p] <= 1 && multiset(ReadBatch(delayed, now))[p] <= 1
    {
      var all := multiset(Payloads(delayed));
      assert all[p] <= 1;
      assert all == multiset(ReadBatch(delayed, now)) + multiset(CutOff(delayed, now)) + multiset(Payloads(NotDue(delayed, now)));
    }
  }

  lemma StepSingles(s: SplitState, e: SplitEvent)
    requires Singles(s) && CanStep(s, e)
    ensures Singles(Step(s, e))
  {
    hide Single;
    match e
    case Core(c) =>
      if c.Schedule? {
        ScheduleSingle(s.core.delayed, s.core.procs[c.i].payload, s.core.procs[c.i].pc.score);
      } else {
        CoreFrame(s.core, c);
      }
    case ReadDue(now) => DueSingle(s.core.delayed, now);
    case WriteMove(k) => DueSingle(s.core.delayed, s.pending[k].now);
  }

  lemma {:induction false} RunSingles(s: SplitState, es: seq<SplitEvent>)
    requires Singles(s) && IsSplitRun(s, es)
    ensures Singles(SplitRun(s, es))
    decreases |es|
  {
    if es != [] {
      hide Singles, Step, CanStep;
      SplitUnfolds(s, es);
      StepSingles(s, es[0]);
      RunSingles(Step(s, es[0]), es[1..]);
    }
  }

  /** In every prompt run, a write duplicates a payload if and only if it is in the write's batch and no longer due
      in the sorted set. */
  lemma DuplicatesExactly(es: seq<SplitEvent>, k: nat, p: Payload)
    requires IsSplitRun(START, es) && IsPromptRun(START, es) && k < |SplitRun(START, es).pending|
    ensures var s := SplitRun(START, es);
      var s', r := AfterWrite(s, k), s.pending[k];
      Polling.Contents(s'.core.lists, s'.core.delayed)[p]
      == Polling.Contents(s.core.lists, s.core.delayed)[p]
         + if p in r.batch && !DueMember(s.core.delayed, r.now, p) then 1 else 0
  {
    hide IsSplitRun, IsPromptRun, SplitRun, AfterWrite, DueMember, Polling.Contents;
    assert Covered(START) && AllPresent(START.core) && Singles(START);
    hide Singles, AllPresent;
    RunPresent(START, es);
    RunSingles(START, es);
    var s := SplitRun(START, es);
    assert s.pending[k] in s.pending;
    WriteCopies(s, k, p);
  }

  // ------------------------------------------------------------------
  // One worker at a time
  // ------------------------------------------------------------------

  /** No worker reads while another is between its read and its write, and a retry lands before it is due. */
  predicate IsSolo(s: SplitState, e: SplitEvent)
    requires CanStep(s, e)
  {
    match e
    case Core(c) => c.Schedule? ==> s.core.clock < s.core.procs[c.i].pc.score
    case ReadDue(_) => s.pending == []
    case WriteMove(_) => true
  }

  predicate IsSoloRun(s: SplitState, es: seq<SplitEvent>)
    requires IsSplitRun(s, es)
    decreases |es|
  {
    es == [] || (IsSolo(s, es[0]) && IsSoloRun(Step(s, es[0]), es[1..]))
  }

  /** The same steps with the move in one: the read is left out and the write is a move at the time of the read. */
  function InOneStep(s: SplitState, e: SplitEvent): seq<Event>
    requires CanStep(s, e)
  {
    match e
    case Core(c) => [c]
    case ReadDue(_) => []
    case WriteMove(k) => [MoveDue(s.pending[k].now)]
  }

  function InOneSteps(s: SplitState, es: seq<SplitEvent>): seq<Event>
    requires IsSplitRun(s, es)
    decreases |es|
  {
    if es == [] then [] else InOneStep(s, es[0]) + InOneSteps(Step(s, es[0]), es[1..])
  }

  /** At most one read is pending, and reading again would return the same. */
  ghost predicate ReadStands(s: SplitState) {
    |s.pending| <= 1 && forall r :: r in s.pending ==> r.now <= s.core.clock && ReadBatch(s.core.delayed, r.now) == r.batch
  }

  lemma {:induction false} DueInsert(delayed: seq<Entry>, e: Entry, now: real)
    requires !IsDue(e, now)
    ensures Due(Insert(delayed, e), now) == Due(delayed, now)
  {
    if delayed != [] && delayed[0].score <= e.score {
      DueInsert(delayed[1..], e, now);
    }
  }

  lemma ScheduleStands(s: SplitState, m: map<TaskId, Token>, i: nat)
    requires ReadStands(s) && Represents(Tokens(s.core), m)
    requires Enabled(s.core, Schedule(i)) && s.core.clock < s.core.procs[i].pc.score
    ensures ReadStands(s.(core := Next(s.core, Schedule(i))))
    ensures forall now :: now <= s.core.clock ==> Due(Next(s.core, Schedule(i)).delayed, now) == Due(s.core.delayed, now)
  {
    var p := s.core.procs[i];
    NotYetDelayed(s.core, m, i);
    hide Tokens, Represents, Without, Insert, Due;
    forall now | now <= s.core.clock
      ensures Due(Next(s.core, Schedule(i)).delayed, now) == Due(s.core.delayed, now)
    {
      DueInsert(s.core.delayed, Entry(p.payload, p.pc.score), now);
    }
  }

  /** One step of a solo run: the state stays as good as in one-step runs, and the core follows them. */
  lemma StepInOne(s: SplitState, m: map<TaskId, Token>, e: SplitEvent)
    requires ReadStands(s) && Represents(Tokens(s.core), m) && CanStep(s, e) && IsSolo(s, e)
    ensures ReadStands(Step(s, e))
    ensures IsRun(s.core, InOneStep(s, e)) && RunFrom(s.core, InOneStep(s, e)) == Step(s, e).core
  {
    match e
    case Core(c) =>
      OneEvent(s.core, c);
      if c.Schedule? {
        ScheduleStands(s, m, c.i);
      } else {
        CoreFrame(s.core, c);
      }
    case ReadDue(now) =>
    case WriteMove(k) =>
      assert s.pending[k] in s.pending;
      OneEvent(s.core, MoveDue(s.pending[k].now));
  }

  lemma OneEvent(s: State, c: Event)
    requires Enabled(s, c)
    ensures IsRun(s, [c]) && RunFrom(s, [c]) == Next(s, c)
  {
    hide Next, Enabled;
    assert [c][1..] == [];
  }

  lemma {:induction false} SoloRunInOne(s: SplitState, m: map<TaskId, Token>, lost: set<TaskId>, es: seq<SplitEvent>)
    requires ReadStands(s) && Inv(s.core, m, lost) && IsSplitRun(s, es) && IsSoloRun(s, es)
    ensures IsRun(s.core, InOneSteps(s, es)) && RunFrom(s.core, InOneSteps(s, es)) == SplitRun(s, es).core
    decreases |es|
  {
    if es != [] {
      hide Step, CanStep, IsSolo, ReadStands, InOneStep, Tokens, Linked, Represents;
      SplitUnfolds(s, es);
      StepInOne(s, m, es[0]);
      var m1 := RunInv(s.core, m, lost, InOneStep(s, es[0]));
      SoloRunInOne(Step(s, es[0]), m1, lost + Dropped(s.core, InOneStep(s, es[0])), es[1..]);
      hide IsRun, RunFrom;
      RunsAppend(s.core, InOneStep(s, es[0]), InOneSteps(Step(s, es[0]), es[1..]));
    }
  }

  /** A run in which one worker at a time is between read and write is a run with the move in one step: the same
      queues, database and histories. All that holds of such runs holds of it. */
  lemma SoloRunIsOneStepRun(es: seq<SplitEvent>)
    requires IsSplitRun(START, es) && IsSoloRun(START, es)
    ensures IsRun(INITIAL, InOneSteps(START, es)) && RunFrom(INITIAL, InOneSteps(START, es)) == SplitRun(START, es).core
  {
    hide IsSplitRun, IsSoloRun, SplitRun, InOneSteps, IsRun, RunFrom;
    InitialInv();
    SoloRunInOne(START, map[], {}, es);
  }

  // ------------------------------------------------------------------
  // Exactly once
  // ------------------------------------------------------------------

  /** The pending read was within the limit. */
  ghost predicate Fits(s: SplitState) {
    forall r :: r in s.pending ==> |Due(s.core.delayed, r.now)| <= MOVE_LIMIT
  }

  lemma StepFits(s: SplitState, m: map<TaskId, Token>, e: SplitEvent)
    requires ReadStands(s) && Fits(s) && Represents(Tokens(s.core), m) && CanStep(s, e) && IsSolo(s, e) && IsPrompt(s, e)
    ensures Fits(Step(s, e))
    ensures WithinLimit'(s, e)
  {
    match e
    case Core(c) =>
      if c.Schedule? {
        ScheduleStands(s, m, c.i);
      } else {
        CoreFrame(s.core, c);
      }
    case ReadDue(now) =>
    case WriteMove(k) => assert s.pending[k] in s.pending;
  }

  /** A move of the one-step run stays within the limit. */
  predicate WithinLimit'(s: SplitState, e: SplitEvent)
    requires CanStep(s, e)
  {
    e.WriteMove? ==> |Due(s.core.delayed, s.pending[e.k].now)| <= MOVE_LIMIT
  }

  lemma OneDropsNothing(s: SplitState, e: SplitEvent)
    requires CanStep(s, e) && WithinLimit'(s, e) && IsRun(s.core, InOneStep(s, e))
    ensures Dropped(s.core, InOneStep(s, e)) == {}
  {
    hide Next, Enabled, Due;
    if e.Core? {
      DropsNothing(s.core, e.e);
      assert [e.e][1..] == [];
    } else if e.WriteMove? {
      var c := MoveDue(s.pending[e.k].now);
      assert [c][1..] == [];
      assert CutOff(s.core.delayed, c.now) == [];
    }
  }

  lemma {:induction false} DroppedAppend(s: State, x: seq<Event>, y: seq<Event>)
    requires IsRun(s, x) && IsRun(RunFrom(s, x), y) && IsRun(s, x + y)
    ensures Dropped(s, x + y) == Dropped(s, x) + Dropped(RunFrom(s, x), y)
    decreases |x|
  {
    hide Next, Enabled, DroppedBy;
    if x == [] {
      assert x + y == y;
    } else {
      assert (x + y)[1..] == x[1..] + y;
      DroppedAppend(Next(s, x[0]), x[1..], y);
    }
  }

  lemma {:induction false} SoloRunDropsNothing(s: SplitState, m: map<TaskId, Token>, lost: set<TaskId>, es: seq<SplitEvent>)
    requires ReadStands(s) && Fits(s) && Inv(s.core, m, lost)
    requires IsSplitRun(s, es) && IsSoloRun(s, es) && IsPromptRun(s, es)
    ensures IsRun(s.core, InOneSteps(s, es)) && Dropped(s.core, InOneSteps(s, es)) == {}
    decreases |es|
  {
    if es != [] {
      hide Step, CanStep, IsSolo, IsPrompt, ReadStands, Fits, InOneStep, Tokens, Linked, Represents, WithinLimit';
      SplitUnfolds(s, es);
      StepInOne(s, m, es[0]);
      StepFits(s, m, es[0]);
      OneDropsNothing(s, es[0]);
      var m1 := RunInv(s.core, m, lost, InOneStep(s, es[0]));
      SoloRunDropsNothing(Step(s, es[0]), m1, lost + Dropped(s.core, InOneStep(s, es[0])), es[1..]);
      hide IsRun, RunFrom, Dropped;
      RunsAppend(s.core, InOneStep(s, es[0]), InOneSteps(Step(s, es[0]), es[1..]));
      DroppedAppend(s.core, InOneStep(s, es[0]), InOneSteps(Step(s, es[0]), es[1..]));
    }
  }

  /** Exactly once: in every solo run whose reads stay within the limit each submitted task has one copy, whose row
      and history agree with its place, and is executed at most once more than it may be retried. */
  lemma SoloRunsAreExact(es: seq<SplitEvent>, t: TaskId)
    requires IsSplitRun(START, es) && IsSoloRun(START, es) && IsPromptRun(START, es)
    requires t in SplitRun(START, es).core.rows
    ensures var s := SplitRun(START, es).core;
      && (exists tk :: OnlyCopy(s, t, tk) && t in s.history && Agree(s.rows[t], s.history[t], tk))
      && s.history[t].executions <= (if s.rows[t].maxRetries >= 0 then s.rows[t].maxRetries else 0) + 1
  {
    hide IsSplitRun, IsSoloRun, IsPromptRun, SplitRun, InOneSteps, IsRun, RunFrom, Dropped, Agree, Tokens;
    SoloRunIsOneStepRun(es);
    var ces := InOneSteps(START, es);
    InitialInv();
    SoloRunDropsNothing(START, map[], {}, es);
    TasksAreConserved(ces);
    QueueAndDatabaseAgree(ces);
    ExecutionsAreBounded(ces, t);
    var tk :| OnlyCopy(RunFrom(INITIAL, ces), t, tk);
    assert tk in Tokens(RunFrom(INITIAL, ces));
  }
}
