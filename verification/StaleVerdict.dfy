/** How a stale evaluation spoils the verdict, and why a scan can be FAILED in passing: one concrete
    run of two tasks of one scan. Task 0 fails, is retried and succeeds; task 1 succeeds at once, but the worker
    that evaluates the scan for it commits late. */
module StaleVerdict {
  import opened TaskQueue
  import opened Pipeline
  import opened ScanVerdict

  const SCAN: ScanId := 7

  /** A world of this run: only the medium list is ever used. */
  function World(medium: seq<Payload>, delayed: seq<Entry>, procs: seq<Proc>, finished: seq<Payload>,
                 row0: Row, row1: Row, status: ScanStatus, h0: History, h1: History, clock: real): State {
    State(Lists([], [], medium, []), delayed, [], procs, finished, map[0 := row0, 1 := row1], map[SCAN := status],
          map[0 := h0, 1 := h1], clock)
  }

  function Msg(task: TaskId, attempt: nat): Payload { Payload(task, SCAN, attempt, 1, "") }

  function R(status: TaskStatus, attempts: nat): Row { Row(SCAN, status, attempts, 1) }

  /** `es` is a run of the whole system that ends in `s`. */
  predicate Reaches(es: seq<Event>, s: State) { IsRun(INITIAL, es) && RunFrom(INITIAL, es) == s }

  lemma Go(es: seq<Event>, s: State, e: Event, s': State) returns (es': seq<Event>)
    requires Reaches(es, s) && Enabled(s, e) && Next(s, e) == s'
    ensures Reaches(es', s') && es <= es'
  {
    ExtendRun(INITIAL, es, e);
    es' := es + [e];
  }

  const TASKS := [TaskSpec(0, 1, ""), TaskSpec(1, 1, "")]

  const SUBMITTED := World([Msg(0, 0), Msg(1, 0)], [], [], [], R(QUEUED, 0), R(QUEUED, 0), Running, History(0, 0), History(0, 0), 0.0)

  lemma TasksRouted(ps: seq<Payload>)
    requires ps == [Msg(0, 0), Msg(1, 0)]
    ensures Enqueue(NO_LISTS, ps) == SUBMITTED.lists
  {
    RoutedToMedium(ps);
  }

  /** Messages of this run, whose priority is unknown to the broker, all go to the medium list. */
  lemma {:induction false} RoutedToMedium(ps: seq<Payload>)
    requires forall p :: p in ps ==> p.priority == ""
    ensures Enqueue(NO_LISTS, ps) == Lists([], [], ps, [])
  {
    assert QueueFor("") == Medium by { assert Upper("") == ""; }
    hide QueueFor;
    if ps != [] {
      RoutedToMedium(ps[1..]);
      assert Enqueue(NO_LISTS, ps[1..]).medium == Routed(ps[1..], Medium) == ps[1..];
      assert Enqueue(NO_LISTS, ps[1..]).low == Routed(ps[1..], Low) == [];
      assert Enqueue(NO_LISTS, ps[1..]).high == Routed(ps[1..], High) == [];
      assert Enqueue(NO_LISTS, ps[1..]).critical == Routed(ps[1..], Critical) == [];
      assert ps == [ps[0]] + ps[1..];
    }
  }

  lemma TasksRows()
    ensures NewRows(SCAN, TASKS) == SUBMITTED.rows && NewHistory(TASKS) == SUBMITTED.history
  {
    assert TASKS[1..] == [TASKS[1]] && TASKS[1..][1..] == [];
  }

  lemma SubmitResult(s: State)
    requires s == INITIAL.(scans := map[SCAN := Pending])
    ensures SubmitTo(s, SCAN, TASKS) == SUBMITTED
  {
    hide Enqueue, NewRows, NewHistory;
    var ps := NewPayloads(SCAN, TASKS);
    assert ps == [Msg(0, 0), Msg(1, 0)];
    TasksRouted(ps);
    TasksRows();
    assert map[] + NewRows(SCAN, TASKS) == SUBMITTED.rows;
    assert map[] + NewHistory(TASKS) == SUBMITTED.history;
    assert s.scans[SCAN := Started(Pending)] == SUBMITTED.scans;
  }

  lemma SubmitStep(s: State)
    requires s == INITIAL.(scans := map[SCAN := Pending])
    ensures Enabled(s, Submit(SCAN, TASKS)) && Next(s, Submit(SCAN, TASKS)) == SUBMITTED
  {
    SubmitResult(s);
    hide SubmitTo, SUBMITTED, World;
  }

  lemma MixedVerdict(s: State)
    requires s.rows == map[0 := R(FAILED, 1), 1 := R(SUCCESS, 1)] && SCAN in s.scans
    ensures JudgementOf(s, 0) == JudgementOf(s, 1) == Some(ScanFailed)
  {
    assert 0 in s.rows && s.rows[0].scan == SCAN;
  }

  lemma ReachSubmitted() returns (es: seq<Event>)
    ensures Reaches(es, SUBMITTED)
  {
    assert Reaches([], INITIAL);
    var s := INITIAL.(scans := map[SCAN := Pending]);
    es := Go([], INITIAL, CreateScan(SCAN), s);
    SubmitStep(s);
    es := Go(es, s, Submit(SCAN, TASKS), SUBMITTED);
  }

  const BOTH_POPPED := World([], [], [Proc(Msg(0, 0), Popped), Proc(Msg(1, 0), Popped)], [],
      R(QUEUED, 0), R(QUEUED, 0), Running, History(0, 0), History(0, 0), 0.0)

  const TASK_ZERO_ADMITTED := World([], [], [Proc(Msg(0, 0), Admitted), Proc(Msg(1, 0), Popped)], [],
      R(PROCESSING, 0), R(QUEUED, 0), Running, History(0, 0), History(0, 0), 0.0)

  const TASK_ZERO_FAILED := World([], [], [Proc(Msg(0, 0), Saved(HttpFailed)), Proc(Msg(1, 0), Popped)], [],
      R(FAILED, 1), R(QUEUED, 0), Running, History(1, 0), History(0, 0), 0.0)

  const TASK_ONE_SUCCEEDED := World([], [], [Proc(Msg(0, 0), Saved(HttpFailed)), Proc(Msg(1, 0), Saved(Succeeded))], [],
      R(FAILED, 1), R(SUCCESS, 1), Running, History(1, 0), History(1, 0), 0.0)

  const ONE_JUDGED := World([], [], [Proc(Msg(0, 0), Saved(HttpFailed)), Proc(Msg(1, 0), Judged(Succeeded, Some(ScanFailed)))], [],
      R(FAILED, 1), R(SUCCESS, 1), Running, History(1, 0), History(1, 0), 0.0)

  const RETRY_PENDING := World([], [], [Proc(Msg(0, 0), Evaluated(HttpFailed)), Proc(Msg(1, 0), Judged(Succeeded, Some(ScanFailed)))], [],
      R(FAILED, 1), R(SUCCESS, 1), ScanFailed, History(1, 0), History(1, 0), 0.0)

  const DELAYED := World([], [Entry(Msg(0, 1), 2.0)], [Proc(Msg(1, 0), Judged(Succeeded, Some(ScanFailed)))], [],
      R(RETRYING, 1), R(SUCCESS, 1), ScanFailed, History(1, 2), History(1, 0), 0.0)

  const MOVED_BACK := World([Msg(0, 1)], [], [Proc(Msg(1, 0), Judged(Succeeded, Some(ScanFailed)))], [],
      R(RETRYING, 1), R(SUCCESS, 1), ScanFailed, History(1, 2), History(1, 0), 2.0)

  const PICKED_UP := World([], [], [Proc(Msg(1, 0), Judged(Succeeded, Some(ScanFailed))), Proc(Msg(0, 1), Popped)], [],
      R(RETRYING, 1), R(SUCCESS, 1), ScanFailed, History(1, 2), History(1, 0), 2.0)

  const READMITTED := World([], [], [Proc(Msg(1, 0), Judged(Succeeded, Some(ScanFailed))), Proc(Msg(0, 1), Admitted)], [],
      R(PROCESSING, 1), R(SUCCESS, 1), ScanFailed, History(1, 2), History(1, 0), 2.0)

  const TASK_ZERO_SUCCEEDED := World([], [], [Proc(Msg(1, 0), Judged(Succeeded, Some(ScanFailed))), Proc(Msg(0, 1), Saved(Succeeded))], [],
      R(SUCCESS, 2), R(SUCCESS, 1), ScanFailed, History(2, 2), History(1, 0), 2.0)

  const SCAN_COMPLETED := World([], [], [Proc(Msg(1, 0), Judged(Succeeded, Some(ScanFailed)))], [Msg(0, 1)],
      R(SUCCESS, 2), R(SUCCESS, 1), Completed, History(2, 2), History(1, 0), 2.0)

  const OVERWRITTEN := World([], [], [], [Msg(0, 1), Msg(1, 0)],
      R(SUCCESS, 2), R(SUCCESS, 1), ScanFailed, History(2, 2), History(1, 0), 2.0)

  lemma MoveStep(s: State)
    requires s.lists == NO_LISTS && s.delayed == [Entry(Msg(0, 1), 2.0)] && s.clock == 2.0
    ensures Next(s, MoveDue(2.0)) == s.(lists := Lists([], [], [Msg(0, 1)], []), delayed := [])
  {
    var e := s.delayed[0];
    assert s.delayed == [e] && s.delayed[1..] == [] && IsDue(e, 2.0);
    assert Due([], 2.0) == [] && NotDue([], 2.0) == [];
    assert Due(s.delayed, 2.0) == s.delayed && NotDue(s.delayed, 2.0) == [];
    assert Payloads(Due(s.delayed, 2.0)) == [Msg(0, 1)];
    RoutedToMedium([Msg(0, 1)]);
  }

  lemma ToBothPopped(before: seq<Event>) returns (es: seq<Event>)
    requires Reaches(before, SUBMITTED)
    ensures Reaches(es, BOTH_POPPED) && before <= es
  {
    hide Reaches;
    es := before;
    var s := SUBMITTED;
    var s0 := World([Msg(1, 0)], [], [Proc(Msg(0, 0), Popped)], [],
      R(QUEUED, 0), R(QUEUED, 0), Running, History(0, 0), History(0, 0), 0.0);
    es := Go(es, s, Pop(0.0), s0);
    es := Go(es, s0, Pop(0.0), BOTH_POPPED);
  }

  lemma ToTaskZeroAdmitted(before: seq<Event>) returns (es: seq<Event>)
    requires Reaches(before, BOTH_POPPED)
    ensures Reaches(es, TASK_ZERO_ADMITTED) && before <= es
  {
    hide Reaches;
    es := before;
    var s := BOTH_POPPED;
    var s2 := World([], [], [Proc(Msg(0, 0), Marked), Proc(Msg(1, 0), Popped)], [],
      R(PROCESSING, 0), R(QUEUED, 0), Running, History(0, 0), History(0, 0), 0.0);
    es := Go(es, s, Mark(0), s2);
    es := Go(es, s2, AskLimiter(0, true), TASK_ZERO_ADMITTED);
  }

  lemma ToTaskZeroFailed(before: seq<Event>) returns (es: seq<Event>)
    requires Reaches(before, TASK_ZERO_ADMITTED)
    ensures Reaches(es, TASK_ZERO_FAILED) && before <= es
  {
    hide Reaches;
    es := before;
    var s := TASK_ZERO_ADMITTED;
    var s4 := World([], [], [Proc(Msg(0, 0), Executed(false)), Proc(Msg(1, 0), Popped)], [],
      R(PROCESSING, 0), R(QUEUED, 0), Running, History(1, 0), History(0, 0), 0.0);
    es := Go(es, s, Execute(0, false), s4);
    es := Go(es, s4, Save(0), TASK_ZERO_FAILED);
  }

  lemma ToTaskOneSucceeded(before: seq<Event>) returns (es: seq<Event>)
    requires Reaches(before, TASK_ZERO_FAILED)
    ensures Reaches(es, TASK_ONE_SUCCEEDED) && before <= es
  {
    hide Reaches;
    es := before;
    var s := TASK_ZERO_FAILED;
    var s6 := World([], [], [Proc(Msg(0, 0), Saved(HttpFailed)), Proc(Msg(1, 0), Marked)], [],
      R(FAILED, 1), R(PROCESSING, 0), Running, History(1, 0), History(0, 0), 0.0);
    es := Go(es, s, Mark(1), s6);
    var s7 := World([], [], [Proc(Msg(0, 0), Saved(HttpFailed)), Proc(Msg(1, 0), Admitted)], [],
      R(FAILED, 1), R(PROCESSING, 0), Running, History(1, 0), History(0, 0), 0.0);
    es := Go(es, s6, AskLimiter(1, true), s7);
    var s8 := World([], [], [Proc(Msg(0, 0), Saved(HttpFailed)), Proc(Msg(1, 0), Executed(true))], [],
      R(FAILED, 1), R(PROCESSING, 0), Running, History(1, 0), History(1, 0), 0.0);
    es := Go(es, s7, Execute(1, true), s8);
    es := Go(es, s8, Save(1), TASK_ONE_SUCCEEDED);
  }

  lemma ToRetryPending(before: seq<Event>) returns (es: seq<Event>)
    requires Reaches(before, TASK_ONE_SUCCEEDED)
    ensures Reaches(es, RETRY_PENDING) && before <= es
  {
    hide Reaches;
    es := before;
    var s := TASK_ONE_SUCCEEDED;
    MixedVerdict(s);
    es := Go(es, s, ReadStatuses(1), ONE_JUDGED);
    es := ToBothJudged(es);
  }

  lemma ToBothJudged(before: seq<Event>) returns (es: seq<Event>)
    requires Reaches(before, ONE_JUDGED)
    ensures Reaches(es, RETRY_PENDING) && before <= es
  {
    hide Reaches;
    MixedVerdict(ONE_JUDGED);
    var s11 := World([], [], [Proc(Msg(0, 0), Judged(HttpFailed, Some(ScanFailed))), Proc(Msg(1, 0), Judged(Succeeded, Some(ScanFailed)))], [],
      R(FAILED, 1), R(SUCCESS, 1), Running, History(1, 0), History(1, 0), 0.0);
    es := Go(before, ONE_JUDGED, ReadStatuses(0), s11);
    hide JudgementOf, Verdict;
    es := Go(es, s11, WriteVerdict(0), RETRY_PENDING);
  }

  lemma ToDelayed(before: seq<Event>) returns (es: seq<Event>)
    requires Reaches(before, RETRY_PENDING)
    ensures Reaches(es, DELAYED) && before <= es
  {
    hide Reaches;
    es := before;
    var s := RETRY_PENDING;
    var s13 := World([], [], [Proc(Msg(0, 1), RetryMarked), Proc(Msg(1, 0), Judged(Succeeded, Some(ScanFailed)))], [],
      R(RETRYING, 1), R(SUCCESS, 1), ScanFailed, History(1, 0), History(1, 0), 0.0);
    es := Go(es, s, HandleRetry(0), s13);
    var s14 := World([], [], [Proc(Msg(0, 1), Stamped(2.0)), Proc(Msg(1, 0), Judged(Succeeded, Some(ScanFailed)))], [],
      R(RETRYING, 1), R(SUCCESS, 1), ScanFailed, History(1, 2), History(1, 0), 0.0);
    es := Go(es, s13, Stamp(0), s14);
    es := Go(es, s14, Schedule(0), DELAYED);
  }

  lemma ToPickedUp(before: seq<Event>) returns (es: seq<Event>)
    requires Reaches(before, DELAYED)
    ensures Reaches(es, PICKED_UP) && before <= es
  {
    hide Reaches;
    es := before;
    var s := DELAYED;
    var s16 := World([], [Entry(Msg(0, 1), 2.0)], [Proc(Msg(1, 0), Judged(Succeeded, Some(ScanFailed)))], [],
      R(RETRYING, 1), R(SUCCESS, 1), ScanFailed, History(1, 2), History(1, 0), 2.0);
    es := Go(es, s, Tick(2.0), s16);
    MoveStep(s16);
    es := Go(es, s16, MoveDue(2.0), MOVED_BACK);
    es := ToPopped(es);
  }

  lemma ToPopped(before: seq<Event>) returns (es: seq<Event>)
    requires Reaches(before, MOVED_BACK)
    ensures Reaches(es, PICKED_UP) && before <= es
  {
    hide Reaches;
    es := Go(before, MOVED_BACK, Pop(0.0), PICKED_UP);
  }

  lemma ToReadmitted(before: seq<Event>) returns (es: seq<Event>)
    requires Reaches(before, PICKED_UP)
    ensures Reaches(es, READMITTED) && before <= es
  {
    hide Reaches;
    es := before;
    var s := PICKED_UP;
    var s19 := World([], [], [Proc(Msg(1, 0), Judged(Succeeded, Some(ScanFailed))), Proc(Msg(0, 1), Marked)], [],
      R(PROCESSING, 1), R(SUCCESS, 1), ScanFailed, History(1, 2), History(1, 0), 2.0);
    es := Go(es, s, Mark(1), s19);
    es := Go(es, s19, AskLimiter(1, true), READMITTED);
  }

  lemma ToTaskZeroSucceeded(before: seq<Event>) returns (es: seq<Event>)
    requires Reaches(before, READMITTED)
    ensures Reaches(es, TASK_ZERO_SUCCEEDED) && before <= es
  {
    hide Reaches;
    es := before;
    var s := READMITTED;
    var s21 := World([], [], [Proc(Msg(1, 0), Judged(Succeeded, Some(ScanFailed))), Proc(Msg(0, 1), Executed(true))], [],
      R(PROCESSING, 1), R(SUCCESS, 1), ScanFailed, History(2, 2), History(1, 0), 2.0);
    es := Go(es, s, Execute(1, true), s21);
    es := Go(es, s21, Save(1), TASK_ZERO_SUCCEEDED);
  }

  lemma ToScanCompleted(before: seq<Event>) returns (es: seq<Event>)
    requires Reaches(before, TASK_ZERO_SUCCEEDED)
    ensures Reaches(es, SCAN_COMPLETED) && before <= es
  {
    hide Reaches;
    es := before;
    var s := TASK_ZERO_SUCCEEDED;
    var s23 := World([], [], [Proc(Msg(1, 0), Judged(Succeeded, Some(ScanFailed))), Proc(Msg(0, 1), Judged(Succeeded, Some(Completed)))], [],
      R(SUCCESS, 2), R(SUCCESS, 1), ScanFailed, History(2, 2), History(1, 0), 2.0);
    es := Go(es, s, ReadStatuses(1), s23);
    var s24 := World([], [], [Proc(Msg(1, 0), Judged(Succeeded, Some(ScanFailed))), Proc(Msg(0, 1), Evaluated(Succeeded))], [],
      R(SUCCESS, 2), R(SUCCESS, 1), Completed, History(2, 2), History(1, 0), 2.0);
    es := Go(es, s23, WriteVerdict(1), s24);
    es := Go(es, s24, Finish(1), SCAN_COMPLETED);
  }

  lemma ToOverwritten(before: seq<Event>) returns (es: seq<Event>)
    requires Reaches(before, SCAN_COMPLETED)
    ensures Reaches(es, OVERWRITTEN) && before <= es
  {
    hide Reaches;
    es := before;
    var s := SCAN_COMPLETED;
    var s26 := World([], [], [Proc(Msg(1, 0), Evaluated(Succeeded))], [Msg(0, 1)],
      R(SUCCESS, 2), R(SUCCESS, 1), ScanFailed, History(2, 2), History(1, 0), 2.0);
    es := Go(es, s, WriteVerdict(0), s26);
    es := Go(es, s26, Finish(0), OVERWRITTEN);
  }

  lemma ToPending() returns (es: seq<Event>)
    ensures Reaches(es, RETRY_PENDING)
  {
    hide *;
    es := ReachSubmitted();
    es := ToBothPopped(es);
    es := ToTaskZeroAdmitted(es);
    es := ToTaskZeroFailed(es);
    es := ToTaskOneSucceeded(es);
    es := ToRetryPending(es);
  }

  lemma ToCompleted(before: seq<Event>) returns (es: seq<Event>)
    requires Reaches(before, RETRY_PENDING)
    ensures Reaches(es, SCAN_COMPLETED) && before <= es
  {
    hide *;
    es := ToDelayed(before);
    es := ToPickedUp(es);
    es := ToReadmitted(es);
    es := ToTaskZeroSucceeded(es);
    es := ToScanCompleted(es);
  }

  /** Without isolation the verdict can be wrong at rest: both tasks finished, and the scan says FAILED. */
  lemma LateCommitOverwritesVerdict() returns (es: seq<Event>)
    ensures IsRun(INITIAL, es)
    ensures var s := RunFrom(INITIAL, es);
      && AtRest(s, SCAN)
      && (forall t :: BelongsTo(s.rows, t, SCAN) ==> InFinished(s, t))
      && SCAN in s.scans && s.scans[SCAN] == ScanFailed
  {
    es := ToPending();
    es := ToCompleted(es);
    es := ToOverwritten(es);
    var s := OVERWRITTEN;
    assert IsRun(INITIAL, es) && RunFrom(INITIAL, es) == s;
    hide IsRun, RunFrom;
    assert s.finished[0] in s.finished && s.finished[1] in s.finished;
    assert InFinished(s, 0) && InFinished(s, 1);
    assert 0 in s.rows && s.rows[0].scan == SCAN;
  }

  /** A scan can be FAILED in passing: the failed task is still to be retried, and the same run goes on to
      COMPLETED. */
  lemma FailedInPassing() returns (es: seq<Event>, later: seq<Event>)
    ensures IsRun(INITIAL, es) && IsRun(INITIAL, later) && es <= later
    ensures var s := RunFrom(INITIAL, es); SCAN in s.scans && s.scans[SCAN] == ScanFailed && !AtRest(s, SCAN)
    ensures var s := RunFrom(INITIAL, later); SCAN in s.scans && s.scans[SCAN] == Completed
  {
    es := ToPending();
    later := ToCompleted(es);
    assert IsRun(INITIAL, es) && RunFrom(INITIAL, es) == RETRY_PENDING;
    assert IsRun(INITIAL, later) && RunFrom(INITIAL, later) == SCAN_COMPLETED;
    hide IsRun, RunFrom;
    assert BelongsTo(RETRY_PENDING.rows, 0, SCAN);
  }

  /** A scan that is COMPLETED accepts more tasks and stays COMPLETED while they are queued. */
  lemma LateSubmissionIsAccepted() returns (es: seq<Event>)
    ensures IsRun(INITIAL, es)
    ensures var s := RunFrom(INITIAL, es);
      && SCAN in s.scans && s.scans[SCAN] == Completed && !AllSuccess(s.rows, SCAN)
  {
    es := ToPending();
    es := ToCompleted(es);
    var e := Submit(SCAN, [TaskSpec(2, 1, "")]);
    CanSubmitMore();
    LateSubmissionBreaks(SCAN_COMPLETED, SCAN, e.tasks);
    hide Enabled, Next, AllSuccess;
    ExtendRun(INITIAL, es, e);
    es := es + [e];
  }

  lemma CanSubmitMore()
    ensures Enabled(SCAN_COMPLETED, Submit(SCAN, [TaskSpec(2, 1, "")]))
    ensures SCAN_COMPLETED.scans == map[SCAN := Completed]
  {
  }
}
