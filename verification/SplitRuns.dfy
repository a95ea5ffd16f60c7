/** Runs of the whole system in which the split delayed move loses a task, loses a late retry, or duplicates one. */
module SplitRuns {
  import opened TaskQueue
  import opened Pipeline
  import opened SplitMove
  import opened SplitLoss
  import opened Engine
  import StaleVerdict

  const SCAN: ScanId := 7

  predicate Reaches(es: seq<SplitEvent>, s: SplitState) { IsSplitRun(START, es) && SplitRun(START, es) == s }

  lemma ExtendSplit(s: SplitState, es: seq<SplitEvent>, e: SplitEvent)
    requires IsSplitRun(s, es) && CanStep(SplitRun(s, es), e)
    ensures IsSplitRun(s, es + [e]) && SplitRun(s, es + [e]) == Step(SplitRun(s, es), e)
    decreases |es|
  {
    hide Step, CanStep;
    if es == [] {
      assert [e][1..] == [];
      assert [] + [e] == [e];
    } else {
      assert (es + [e])[1..] == es[1..] + [e];
      ExtendSplit(Step(s, es[0]), es[1..], e);
    }
  }

  lemma Then(es: seq<SplitEvent>, s: SplitState, e: SplitEvent, s': SplitState) returns (es': seq<SplitEvent>)
    requires Reaches(es, s) && CanStep(s, e) && Step(s, e) == s'
    ensures Reaches(es', s')
  {
    ExtendSplit(START, es, e);
    es' := es + [e];
  }

  predicate NoMoves(es: seq<Event>) { forall e :: e in es ==> !e.MoveDue? }

  /** Steps of the pipeline other than moves, taken by the split system. */
  lemma {:induction false} ThenCore(es: seq<SplitEvent>, s: SplitState, cs: seq<Event>, s': State)
    returns (es': seq<SplitEvent>)
    requires Reaches(es, s) && IsRun(s.core, cs) && RunFrom(s.core, cs) == s' && NoMoves(cs)
    ensures Reaches(es', s.(core := s'))
    decreases |cs|
  {
    es' := es;
    if cs != [] {
      hide Next, Enabled, Reaches;
      assert cs[0] in cs;
      es' := Then(es', s, Core(cs[0]), s.(core := Next(s.core, cs[0])));
      assert forall e :: e in cs[1..] ==> e in cs;
      es' := ThenCore(es', s.(core := Next(s.core, cs[0])), cs[1..], s');
    }
  }

  // ------------------------------------------------------------------
  // n tasks, each failed once and waiting for its retry at 2.0
  // ------------------------------------------------------------------

  function Msg(task: TaskId, attempt: nat): Payload { Payload(task, SCAN, attempt, 1, "") }

  ghost predicate Waits(s: State, n: nat) {
    && s.lists == NO_LISTS && s.procs == [] && s.finished == [] && s.dlq == [] && s.clock == 0.0
    && |s.delayed| == n && (forall i :: 0 <= i < n ==> s.delayed[i] == Entry(Msg(i, 1), 2.0))
    && SCAN in s.scans && s.rows.Keys == s.history.Keys
    && (forall t: TaskId :: t in s.rows <==> t < n)
    && (forall t :: t in s.rows ==> s.rows[t].scan == SCAN && s.rows[t].maxRetries == 1 && s.history[t].executions == 1)
  }

  /** One more task, popped by a worker. */
  ghost predicate Picked(s: State, n: nat, s': State) {
    s' == s.(procs := [Proc(Msg(n, 0), Popped)], rows := s.rows[n := Row(SCAN, QUEUED, 0, 1)],
             history := s.history[n := History(0, 0)], scans := s'.scans)
    && SCAN in s'.scans
  }

  lemma SubmitOne(s: State, n: nat)
    requires Waits(s, n)
    ensures var e := Submit(SCAN, [TaskSpec(n, 1, "")]);
      && Enabled(s, e)
      && Next(s, e) == s.(lists := Lists([], [], [Msg(n, 0)], []), rows := s.rows[n := Row(SCAN, QUEUED, 0, 1)],
                          history := s.history[n := History(0, 0)], scans := s.scans[SCAN := Started(s.scans[SCAN])])
  {
    var tasks := [TaskSpec(n, 1, "")];
    assert tasks[1..] == [];
    assert NewPayloads(SCAN, tasks) == [Msg(n, 0)];
    StaleVerdict.RoutedToMedium([Msg(n, 0)]);
    assert s.rows + NewRows(SCAN, tasks) == s.rows[n := Row(SCAN, QUEUED, 0, 1)];
    assert s.history + NewHistory(tasks) == s.history[n := History(0, 0)];
  }

  lemma PopOne(s: State, p: Payload, rest: seq<Payload>)
    requires s.lists == Lists([], [], [p] + rest, [])
    ensures Enabled(s, Pop(0.0))
    ensures Next(s, Pop(0.0)) == s.(lists := Lists([], [], rest, []), procs := s.procs + [Proc(p, Popped)])
  {
    assert PollOrder(0.0) == [Critical, High, Medium, Low];
    assert PollOrder(0.0)[1..] == [High, Medium, Low] && [High, Medium, Low][1..] == [Medium, Low];
    assert FirstNonEmpty(s.lists, [Medium, Low]) == Some(Medium);
    assert FirstNonEmpty(s.lists, [High, Medium, Low]) == FirstNonEmpty(s.lists, [Medium, Low]);
    assert FirstNonEmpty(s.lists, PollOrder(0.0)) == Some(Medium);
    assert ([p] + rest)[1..] == rest;
  }

  lemma PickUp(es: seq<SplitEvent>, s: State, n: nat) returns (es': seq<SplitEvent>, s': State)
    requires Reaches(es, SplitState(s, [])) && Waits(s, n)
    ensures Reaches(es', SplitState(s', [])) && Picked(s, n, s')
  {
    SubmitOne(s, n);
    var s1 := Next(s, Submit(SCAN, [TaskSpec(n, 1, "")]));
    PopOne(s1, Msg(n, 0), []);
    assert [Msg(n, 0)] + [] == [Msg(n, 0)];
    hide Reaches, Next, Enabled;
    es' := Then(es, SplitState(s, []), Core(Submit(SCAN, [TaskSpec(n, 1, "")])), SplitState(s1, []));
    s' := Next(s1, Pop(0.0));
    es' := Then(es', SplitState(s1, []), Core(Pop(0.0)), SplitState(s', []));
    assert [] + [Proc(Msg(n, 0), Popped)] == [Proc(Msg(n, 0), Popped)];
  }

  /** The popped task fails its request and is evaluated. */
  lemma Fails(s0: State, p: Payload) returns (cs: seq<Event>, s: State)
    requires s0.procs == [Proc(p, Popped)] && p.task in s0.rows && p.task in s0.history
    ensures Ran(s0, cs, s, 0, Proc(p, Evaluated(HttpFailed))) && NoMoves(cs)
    ensures s == s0.(rows := s0.rows[p.task := s0.rows[p.task].(status := FAILED, attempts := s0.rows[p.task].attempts + 1)],
                     history := AddExecution(s0.history, p.task), scans := s.scans, procs := s.procs)
    ensures s0.scans.Keys <= s.scans.Keys
  {
    assert Ran(s0, [], s0, 0, Proc(p, Popped));
    hide Ran, JudgementOf, AddExecution;
    cs, s := Marks(s0, [], s0, 0, p);
    cs, s := Asks(s0, cs, s, 0, p, true);
    cs, s := Executes(s0, cs, s, 0, p, false);
    cs, s := Saves(s0, cs, s, 0, p, HttpFailed);
    cs, s := Evaluates(s0, cs, s, 0, p, HttpFailed);
  }

  lemma FirstBackoff()
    ensures Backoff(1) == 2
  {
    assert Pow2(0) == 1;
  }

  lemma AddLast(delayed: seq<Entry>, p: Payload, score: real)
    requires forall x :: x in delayed ==> x.score <= score && x.payload != p
    ensures ZAdd(delayed, p, score) == delayed + [Entry(p, score)]
  {
    WithoutAbsent(delayed, p);
    InsertLast(delayed, Entry(p, score));
  }

  lemma Delays(s0: State, n: nat, p: Payload) returns (cs: seq<Event>, s: State)
    requires s0.procs == [Proc(p, Popped)] && p == Msg(n, 0) && p.task in s0.rows && p.task in s0.history
    requires forall x :: x in s0.delayed ==> x.score == 2.0 && x.payload.task != n
    requires s0.clock == 0.0 && s0.history[n] == History(0, 0) && s0.rows[n] == Row(SCAN, QUEUED, 0, 1)
    ensures IsRun(s0, cs) && RunFrom(s0, cs) == s && NoMoves(cs)
    ensures s == s0.(procs := [], delayed := s0.delayed + [Entry(Msg(n, 1), 2.0)],
                     rows := s0.rows[n := Row(SCAN, RETRYING, 1, 1)], history := s0.history[n := History(1, 2)], scans := s.scans)
    ensures s0.scans.Keys <= s.scans.Keys
  {
    cs, s := Fails(s0, p);
    FirstBackoff();
    AddLast(s0.delayed, Msg(n, 1), 2.0);
    assert s0.delayed == s.delayed;
    hide Ran, ZAdd, Backoff;
    cs, s := Retries(s0, cs, s, 0, p);
    assert s.procs == [];
  }

  lemma DelayOne(es: seq<SplitEvent>, s: State, n: nat) returns (es': seq<SplitEvent>, s': State)
    requires Reaches(es, SplitState(s, [])) && Waits(s, n)
    ensures Reaches(es', SplitState(s', [])) && Waits(s', n + 1)
  {
    var s1, cs;
    es', s1 := PickUp(es, s, n);
    forall x | x in s1.delayed ensures x.score == 2.0 && x.payload.task != n {
      var i :| 0 <= i < n && s.delayed[i] == x;
    }
    cs, s' := Delays(s1, n, Msg(n, 0));
    hide Reaches, IsRun, RunFrom;
    es' := ThenCore(es', SplitState(s1, []), cs, s');
    assert SplitState(s1, []).(core := s') == SplitState(s', []);
  }

  lemma {:induction false} DelayMany(n: nat) returns (es: seq<SplitEvent>, s: State)
    ensures Reaches(es, SplitState(s, [])) && Waits(s, n)
  {
    if n == 0 {
      s := INITIAL.(scans := map[SCAN := Pending]);
      es := Then([], START, Core(CreateScan(SCAN)), SplitState(s, []));
      assert s.rows == map[] && s.history == map[];
    } else {
      es, s := DelayMany(n - 1);
      es, s := DelayOne(es, s, n - 1);
    }
  }

  /** n tasks, all due. */
  lemma AllDue(n: nat) returns (es: seq<SplitEvent>, s: State)
    ensures Reaches(es, SplitState(s.(clock := 2.0), [])) && Waits(s, n)
  {
    es, s := DelayMany(n);
    es := Then(es, SplitState(s, []), Core(Tick(2.0)), SplitState(s.(clock := 2.0), []));
  }

  lemma WaitingAreDue(s: State, n: nat)
    requires Waits(s, n)
    ensures Due(s.delayed, 2.0) == s.delayed && NotDue(s.delayed, 2.0) == []
    ensures forall i :: 0 <= i < n ==> Payloads(s.delayed)[i] == Msg(i, 1)
  {
    forall e | e in s.delayed ensures IsDue(e, 2.0) {
      var i :| 0 <= i < n && s.delayed[i] == e;
    }
    EveryDue(s.delayed, 2.0);
  }

  // ------------------------------------------------------------------
  // The 51st task is lost
  // ------------------------------------------------------------------

  /** A run with no failure but one refused request per task: 51 retries fall due together, one worker moves them,
      and the last is nowhere. */
  lemma LostBeyondTheLimit() returns (es: seq<SplitEvent>)
    ensures IsSplitRun(START, es)
    ensures var s := SplitRun(START, es); 50 in s.core.rows && Gone(s, 50)
  {
    var s, now, read;
    es, s := AllDue(51);
    now := SplitState(s.(clock := 2.0), []);
    read := TooManyDue(s);
    hide Reaches, Present, ReadBatch, AfterWrite, AfterRead;
    es := Then(es, now, ReadDue(2.0), read);
    es := Then(es, read, WriteMove(0), AfterWrite(read, 0));
    ReachesEnd(es, AfterWrite(read, 0));
  }

  lemma TooManyDue(s: State) returns (read: SplitState)
    requires Waits(s, 51)
    ensures read == AfterRead(SplitState(s.(clock := 2.0), []), 2.0) && |read.pending| == 1
    ensures CanStep(SplitState(s.(clock := 2.0), []), ReadDue(2.0)) && CanStep(read, WriteMove(0))
    ensures 50 in AfterWrite(read, 0).core.rows && Gone(AfterWrite(read, 0), 50)
  {
    var now := SplitState(s.(clock := 2.0), []);
    NotElsewhere(s, 51, 50);
    BatchOf51(s);
    HasRow(s, 51, 50);
    hide Waits, CutOff, ReadBatch;
    assert Msg(50, 1) in CutOff(s.delayed, 2.0);
    CutOffIsLost(now, 2.0, Msg(50, 1));
    read := AfterRead(now, 2.0);
    assert read.pending == [Read(2.0, ReadBatch(s.delayed, 2.0))];
    hide OnlyDelayed, Present;
    assert AfterWrite(read, 0).pending == [];
  }

  lemma BatchOf51(s: State)
    requires Waits(s, 51)
    ensures CutOff(s.delayed, 2.0) == [Msg(50, 1)]
    ensures ReadBatch(s.delayed, 2.0) != [] && !InList(ReadBatch(s.delayed, 2.0), 50)
  {
    WaitingAreDue(s, 51);
    hide Waits, Due;
    var due := Payloads(s.delayed);
    assert due[50..] == [due[50]];
  }

  lemma HasRow(s: State, n: nat, t: TaskId)
    requires Waits(s, n) && t < n
    ensures t in s.rows
  {
  }

  lemma ReachesEnd(es: seq<SplitEvent>, s: SplitState)
    requires Reaches(es, s)
    ensures IsSplitRun(START, es) && SplitRun(START, es) == s
  {
  }

  lemma NotElsewhere(s: State, n: nat, t: TaskId)
    requires Waits(s, n)
    ensures OnlyDelayed(s.(clock := 2.0), t, 2.0)
  {
    forall e | e in s.delayed && e.payload.task == t ensures IsDue(e, 2.0) {
      var i :| 0 <= i < n && s.delayed[i] == e;
    }
  }

  // ------------------------------------------------------------------
  // A late retry is lost
  // ------------------------------------------------------------------

  /** The popped task fails, and its worker has computed when to retry it but not stored it. */
  lemma StampsOnly(s0: State, n: nat, p: Payload) returns (cs: seq<Event>, s: State)
    requires s0.procs == [Proc(p, Popped)] && p == Msg(n, 0) && n in s0.rows && n in s0.history && s0.clock == 0.0
    ensures IsRun(s0, cs) && RunFrom(s0, cs) == s && NoMoves(cs)
    ensures s == s0.(procs := [Proc(Msg(n, 1), Stamped(2.0))], rows := s.rows, history := s.history, scans := s.scans)
    ensures s.rows.Keys == s0.rows.Keys
  {
    cs, s := Fails(s0, p);
    FirstBackoff();
    hide Backoff, AddBackoff, AddExecution;
    cs, s := MarksRetry(s0, cs, s, 0, p);
    cs, s := Stamps(s0, cs, s, 0, Msg(n, 1));
  }

  lemma ReadFirst(s: State, s': State)
    requires Waits(s, 1) && s'.delayed == s.delayed && s'.clock == 2.0
    ensures AfterRead(SplitState(s', []), 2.0) == SplitState(s', [Read(2.0, [Msg(0, 1)])])
    ensures s.delayed == [Entry(Msg(0, 1), 2.0)] && NotDue(s.delayed, 2.0) == []
  {
    WaitingAreDue(s, 1);
    hide Due;
    assert Payloads(s.delayed) == [Msg(0, 1)];
  }

  lemma NowhereElse(s: State, t: TaskId)
    requires s.lists == NO_LISTS && s.finished == [] && s.dlq == []
    requires |s.procs| == 1 && s.procs[0].payload.task == t
    requires s.delayed == [Entry(Msg(0, 1), 2.0)] && t != 0
    ensures !InLists(s.lists, t) && !InDelayed(s.delayed, t) && !InProcs(DropProc(s.procs, 0), t)
    ensures !InList(s.finished, t) && !InDead(s.dlq, t) && !InList([Msg(0, 1)], t)
  {
  }

  /** Two tasks; the second is still to be stored for its retry when a worker reads the first as due, and lands in
      the sorted set, due by then, before that worker writes. It is gone. */
  lemma LateRetryGone() returns (es: seq<SplitEvent>)
    ensures IsSplitRun(START, es)
    ensures var s := SplitRun(START, es); 1 in s.core.rows && Gone(s, 1)
  {
    var s, s1, s2, cs;
    es, s := DelayMany(1);
    es, s1 := PickUp(es, s, 1);
    cs, s2 := StampsOnly(s1, 1, Msg(1, 0));
    hide Reaches, IsRun, RunFrom;
    es := ThenCore(es, SplitState(s1, []), cs, s2);
    es := Then(es, SplitState(s2, []), Core(Tick(2.0)), SplitState(s2.(clock := 2.0), []));
    es := StoredLate(es, s, s2.(clock := 2.0));
  }

  lemma StoredLate(es: seq<SplitEvent>, s: State, s': State) returns (es': seq<SplitEvent>)
    requires Waits(s, 1) && s'.delayed == s.delayed && s'.clock == 2.0
    requires s'.lists == NO_LISTS && s'.finished == [] && s'.dlq == [] && 1 in s'.rows
    requires s'.procs == [Proc(Msg(1, 1), Stamped(2.0))]
    requires Reaches(es, SplitState(s', []))
    ensures IsSplitRun(START, es')
    ensures var t := SplitRun(START, es'); 1 in t.core.rows && Gone(t, 1)
  {
    ReadFirst(s, s');
    var read := SplitState(s', [Read(2.0, [Msg(0, 1)])]);
    NowhereElse(s', 1);
    LateRetryIsLost(read, 0, 0);
    var stored := Step(read, Core(Schedule(0)));
    assert AfterWrite(stored, 0).pending == [];
    hide Reaches, Present, AfterRead, AfterWrite, ZAdd, Waits;
    es' := Then(es, SplitState(s', []), ReadDue(2.0), read);
    es' := Then(es', read, Core(Schedule(0)), stored);
    es' := Then(es', stored, WriteMove(0), AfterWrite(stored, 0));
    RowsStay(stored);
    ReachesEnd(es', AfterWrite(stored, 0));
  }

  lemma RowsStay(s: SplitState)
    requires |s.pending| > 0
    ensures AfterWrite(s, 0).core.rows == s.core.rows
  {
  }

  // ------------------------------------------------------------------
  // A retry is duplicated
  // ------------------------------------------------------------------

  lemma PushedTwice(s: State)
    requires Waits(s, 1)
    ensures var now := SplitState(s.(clock := 2.0), []);
      var p := Msg(0, 1);
      AfterWrite(AfterWrite(SplitState(now.core, [Read(2.0, [p]), Read(2.0, [p])]), 0), 0)
      == SplitState(now.core.(lists := Lists([], [], [p, p], []), delayed := []), [])
  {
    ReadFirst(s, s.(clock := 2.0));
    var p := Msg(0, 1);
    StaleVerdict.RoutedToMedium([p]);
    var once := Enqueue(NO_LISTS, [p]);
    assert once == Lists([], [], [p], []);
    hide Routed;
    assert Routed([p], Critical) == [] && Routed([p], High) == [] && Routed([p], Low) == [] && Routed([p], Medium) == [p] by {
      assert [] + Routed([p], Critical) == Routed([p], Critical) && [] + Routed([p], High) == Routed([p], High);
      assert [] + Routed([p], Low) == Routed([p], Low) && [] + Routed([p], Medium) == Routed([p], Medium);
    }
    assert [p] + [p] == [p, p];
    assert NotDue([], 2.0) == [];
  }

  /** The popped task succeeds, alone in its scan. */
  lemma Succeeds(s0: State, p: Payload) returns (cs: seq<Event>, s: State)
    requires s0.procs == [Proc(p, Popped)] && p.task in s0.history && s0.rows.Keys == {p.task}
    requires s0.rows[p.task].scan == SCAN && SCAN in s0.scans
    ensures IsRun(s0, cs) && RunFrom(s0, cs) == s && NoMoves(cs)
    ensures s == s0.(procs := [], finished := s0.finished + [p], scans := s0.scans[SCAN := Completed],
                     rows := s0.rows[p.task := s0.rows[p.task].(status := SUCCESS, attempts := s0.rows[p.task].attempts + 1)],
                     history := AddExecution(s0.history, p.task))
  {
    assert Ran(s0, [], s0, 0, Proc(p, Popped));
    hide Ran, AddExecution, JudgementOf;
    cs, s := Marks(s0, [], s0, 0, p);
    cs, s := Asks(s0, cs, s, 0, p, true);
    cs, s := Executes(s0, cs, s, 0, p, true);
    cs, s := Saves(s0, cs, s, 0, p, Succeeded);
    cs, s := JudgedAlone(s0, cs, s, p);
  }

  lemma JudgedAlone(s0: State, cs: seq<Event>, s: State, p: Payload) returns (cs': seq<Event>, s': State)
    requires Ran(s0, cs, s, 0, Proc(p, Saved(Succeeded))) && s0.procs == [Proc(p, Popped)] && NoMoves(cs)
    requires s.rows.Keys == {p.task} && s.rows[p.task].scan == SCAN && s.rows[p.task].status == SUCCESS && SCAN in s.scans
    ensures IsRun(s0, cs') && RunFrom(s0, cs') == s' && NoMoves(cs')
    ensures s' == s.(procs := [], finished := s0.finished + [p], scans := s.scans[SCAN := Completed])
  {
    AloneCompleted(s, p.task);
    hide Ran, JudgementOf;
    cs', s' := Evaluates(s0, cs, s, 0, p, Succeeded);
    assert s'.scans == s.scans[SCAN := Completed];
    cs', s' := Finishes(s0, cs', s', 0, p);
    EndedRun(s0, cs', s', s0.finished + [p]);
  }

  lemma EndedRun(s0: State, cs: seq<Event>, s: State, finished: seq<Payload>)
    requires RanOut(s0, cs, s, 0, finished) && |s0.procs| == 1
    ensures IsRun(s0, cs) && RunFrom(s0, cs) == s && s.procs == [] && s.finished == finished
  {
  }

  lemma AloneCompleted(s: State, t: TaskId)
    requires s.rows.Keys == {t} && s.rows[t].scan == SCAN && s.rows[t].status == SUCCESS && SCAN in s.scans
    ensures JudgementOf(s, t) == Some(Completed)
  {
    assert t in s.rows && s.rows[t].scan == SCAN;
  }

  /** The popped task is executed, with its row marked. */
  lemma ExecutesAgain(s0: State, p: Payload) returns (cs: seq<Event>, s: State)
    requires s0.procs == [Proc(p, Popped)] && p.task in s0.rows
    ensures IsRun(s0, cs) && RunFrom(s0, cs) == s && NoMoves(cs)
    ensures s == s0.(procs := s.procs, rows := s0.rows[p.task := s0.rows[p.task].(status := PROCESSING)],
                     history := AddExecution(s0.history, p.task))
  {
    assert Ran(s0, [], s0, 0, Proc(p, Popped));
    hide Ran, AddExecution;
    cs, s := Marks(s0, [], s0, 0, p);
    cs, s := Asks(s0, cs, s, 0, p, true);
    cs, s := Executes(s0, cs, s, 0, p, false);
  }

  /** One task of one retry, two workers that both read it as due before either writes: it is executed three times,
      and the second copy takes its row back from SUCCESS while the scan is COMPLETED. */
  lemma ExecutedTwiceAgain() returns (es: seq<SplitEvent>)
    ensures IsSplitRun(START, es)
    ensures var s := SplitRun(START, es).core;
      && 0 in s.rows && 0 in s.history && s.rows[0].maxRetries == 1 && s.history[0].executions == 3
      && SCAN in s.scans && s.scans[SCAN] == Completed && s.rows[0].status == PROCESSING
  {
    var s, s1, s2;
    es, s := AllDue(1);
    var now := s.(clock := 2.0);
    es := BothPush(es, s);
    s1 := now.(lists := Lists([], [], [Msg(0, 1), Msg(0, 1)], []), delayed := []);
    es, s2 := FirstCopy(es, s1);
    es := SecondCopy(es, s2);
  }

  lemma BothPush(es: seq<SplitEvent>, s: State) returns (es': seq<SplitEvent>)
    requires Waits(s, 1) && Reaches(es, SplitState(s.(clock := 2.0), []))
    ensures Reaches(es', SplitState(s.(clock := 2.0, lists := Lists([], [], [Msg(0, 1), Msg(0, 1)], []), delayed := []), []))
  {
    ReadFirst(s, s.(clock := 2.0));
    PushedTwice(s);
    var now, r := SplitState(s.(clock := 2.0), []), Read(2.0, [Msg(0, 1)]);
    var one, two := SplitState(now.core, [r]), SplitState(now.core, [r, r]);
    assert AfterRead(one, 2.0) == two by {
      assert AfterRead(now, 2.0) == one;
      assert ReadBatch(now.core.delayed, 2.0) == [Msg(0, 1)] by { assert one.pending[0] == r; }
      assert [r] + [Read(2.0, [Msg(0, 1)])] == [r, r];
    }
    hide Reaches, AfterRead, AfterWrite, Waits;
    es' := Then(es, now, ReadDue(2.0), one);
    es' := Then(es', one, ReadDue(2.0), two);
    es' := Then(es', two, WriteMove(0), AfterWrite(two, 0));
    OnePending(two);
    es' := Then(es', AfterWrite(two, 0), WriteMove(0), AfterWrite(AfterWrite(two, 0), 0));
  }

  lemma OnePending(s: SplitState)
    requires |s.pending| == 2
    ensures |AfterWrite(s, 0).pending| == 1
  {
  }

  /** One task, popped once already, of which two copies are listed. */
  ghost predicate Doubled(s: State) {
    && s.lists == Lists([], [], [Msg(0, 1), Msg(0, 1)], []) && s.procs == []
    && s.rows.Keys == {0} && 0 in s.history && SCAN in s.scans
    && s.rows[0].scan == SCAN && s.rows[0].maxRetries == 1 && s.history[0].executions == 1
  }

  lemma FirstCopy(es: seq<SplitEvent>, s: State) returns (es': seq<SplitEvent>, s': State)
    requires Reaches(es, SplitState(s, [])) && Doubled(s)
    ensures Reaches(es', SplitState(s', []))
    ensures s'.lists == Lists([], [], [Msg(0, 1)], []) && s'.procs == [] && s'.rows.Keys == {0} && 0 in s'.history
    ensures SCAN in s'.scans && s'.scans[SCAN] == Completed && s'.rows[0].maxRetries == 1 && s'.history[0].executions == 2
  {
    var p := Msg(0, 1);
    assert [p] + [p] == [p, p];
    PopOne(s, p, [p]);
    var s1 := Next(s, Pop(0.0));
    assert [] + [Proc(p, Popped)] == [Proc(p, Popped)];
    var cs;
    hide Reaches, IsRun, RunFrom, Next, Enabled;
    es' := Then(es, SplitState(s, []), Core(Pop(0.0)), SplitState(s1, []));
    cs, s' := Succeeds(s1, p);
    es' := ThenCore(es', SplitState(s1, []), cs, s');
  }

  lemma SecondCopy(es: seq<SplitEvent>, s: State) returns (es': seq<SplitEvent>)
    requires Reaches(es, SplitState(s, []))
    requires s.lists == Lists([], [], [Msg(0, 1)], []) && s.procs == [] && s.rows.Keys == {0} && 0 in s.history
    requires SCAN in s.scans && s.scans[SCAN] == Completed && s.rows[0].maxRetries == 1 && s.history[0].executions == 2
    ensures IsSplitRun(START, es')
    ensures var s' := SplitRun(START, es').core;
      && 0 in s'.rows && 0 in s'.history && s'.rows[0].maxRetries == 1 && s'.history[0].executions == 3
      && SCAN in s'.scans && s'.scans[SCAN] == Completed && s'.rows[0].status == PROCESSING
  {
    var p := Msg(0, 1);
    assert [p] + [] == [p];
    PopOne(s, p, []);
    var s1 := Next(s, Pop(0.0));
    assert [] + [Proc(p, Popped)] == [Proc(p, Popped)];
    var cs, s2;
    hide Reaches, IsRun, RunFrom, Next, Enabled;
    es' := Then(es, SplitState(s, []), Core(Pop(0.0)), SplitState(s1, []));
    cs, s2 := ExecutesAgain(s1, p);
    es' := ThenCore(es', SplitState(s1, []), cs, s2);
    ReachesEnd(es', SplitState(s1, []).(core := s2));
  }
}
