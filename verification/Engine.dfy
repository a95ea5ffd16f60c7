/** The worker's code, run by one coroutine alone, refines the step system: its database and queue operations,
    in the order the code makes them, are a run of the pipeline model. */
module Engine {
  import opened TaskQueue
  import opened Pipeline
  import opened RedisQueues
  import Agreement

  predicate IsActive(row: Row, scan: ScanId) {
    row.scan == scan && row.status in {QUEUED, PROCESSING, RETRYING}
  }

  lemma ActiveStatus(status: TaskStatus)
    ensures status in {QUEUED, PROCESSING, RETRYING} <==> status !in {SUCCESS, FAILED}
  {
    match status
    case QUEUED =>
    case PROCESSING =>
    case RETRYING =>
    case SUCCESS =>
    case FAILED =>
  }

  lemma ActiveOrTerminal(rows: map<TaskId, Row>, scan: ScanId)
    ensures AllTerminal(rows, scan) <==> !exists t :: t in rows && IsActive(rows[t], scan)
  {
    forall t | t in rows ensures IsActive(rows[t], scan) <==> rows[t].scan == scan && rows[t].status !in {SUCCESS, FAILED} {
      ActiveStatus(rows[t].status);
    }
    if !AllTerminal(rows, scan) {
      var t :| t in rows && rows[t].scan == scan && rows[t].status !in {SUCCESS, FAILED};
      assert IsActive(rows[t], scan);
    }
  }

  /** Each new task has its row, queued and without attempts; the other rows are as they were. */
  ghost predicate Inserted(was: map<TaskId, Row>, now: map<TaskId, Row>, scan: ScanId, tasks: seq<TaskSpec>) {
    && (forall t :: t in now <==> t in was || exists i :: 0 <= i < |tasks| && tasks[i].id == t)
    && (forall t :: t in was ==> now[t] == was[t])
    && (forall i :: 0 <= i < |tasks| ==> now[tasks[i].id] == Row(scan, QUEUED, 0, tasks[i].retryCount))
  }

  /** The rows after the task has got this status, and a number of attempts more. */
  function Updated(rows: map<TaskId, Row>, t: TaskId, status: TaskStatus, more: nat): map<TaskId, Row> {
    if t in rows then rows[t := Row(rows[t].scan, status, rows[t].attempts + more, rows[t].maxRetries)] else rows
  }

  lemma UpdatedTwice(rows: map<TaskId, Row>, t: TaskId, first: TaskStatus, m: nat, second: TaskStatus, n: nat)
    ensures Updated(Updated(rows, t, first, m), t, second, n) == Updated(rows, t, second, m + n)
  {
  }

  lemma VerdictIs(rows: map<TaskId, Row>, scan: ScanId)
    ensures Verdict(rows, scan) == None <==>
      || (forall t :: t in rows ==> rows[t].scan != scan)
      || exists t :: t in rows && rows[t].scan == scan && rows[t].status !in {SUCCESS, FAILED}
    ensures Verdict(rows, scan) != None ==>
      Verdict(rows, scan)
      == Some(if forall t :: t in rows && rows[t].scan == scan ==> rows[t].status == SUCCESS then Completed else ScanFailed)
  {
  }

  /** The status of a scan after an evaluation that found these rows: untouched while a task is unfinished,
      COMPLETED if all have succeeded, FAILED otherwise. */
  function StatusAfter(was: ScanStatus, rows: map<TaskId, Row>, scan: ScanId): ScanStatus {
    if exists t :: t in rows && rows[t].scan == scan && rows[t].status !in {SUCCESS, FAILED} then was
    else if forall t :: t in rows && rows[t].scan == scan ==> rows[t].status == SUCCESS then Completed
    else ScanFailed
  }

  /** The retry is in the set once, with this score; the others are as they were. */
  ghost predicate Parked(was: seq<Entry>, now: seq<Entry>, again: Payload, score: real) {
    forall e :: e in now <==> e == Entry(again, score) || (e in was && e.payload != again)
  }

  /** One payload for each submission, in order: its id, this scan, a first attempt, its own retries and priority. */
  predicate IsBatchOf(batch: seq<Payload>, scan: ScanId, tasks: seq<TaskSpec>) {
    && |batch| == |tasks|
    && forall i :: 0 <= i < |tasks| ==>
         batch[i] == Payload(tasks[i].id, scan, 0, tasks[i].retryCount, tasks[i].priority)
  }

  /** The tasks, responses and scans tables; every method is one committed session. A response record refers to the
      row of its task, and of what it holds only the outcome is kept. */
  class Database {
    var rows: map<TaskId, Row>
    var responses: map<TaskId, Ending>
    var scans: map<ScanId, ScanStatus>

    constructor ()
      ensures rows == map[] && responses == map[] && scans == map[]
    {
      rows, responses, scans := map[], map[], map[];
    }

    /** `_mark_task_processing` and `_update_task_status`: a missing row is left missing. */
    method UpdateTaskStatus(t: TaskId, status: TaskStatus)
      modifies this`rows
      ensures rows == SetStatus(old(rows), t, status)
      ensures rows == Updated(old(rows), t, status, 0)
    {
      if t in rows {
        rows := rows[t := rows[t].(status := status)];
      }
    }

    /** `_save_response` up to its commit: the row, and the one response record of the task, updated or created; the
        scan to evaluate next, if the task has a row. Without a row the record is refused and nothing changes. */
    method SaveResponse(t: TaskId, end: Ending) returns (scan: Option<ScanId>)
      modifies this`rows, this`responses
      ensures rows == SaveRow(old(rows), t, end)
      ensures rows == Updated(old(rows), t, if end == Succeeded then SUCCESS else FAILED, 1)
      ensures responses == if t in old(rows) then old(responses)[t := end] else old(responses)
      ensures scan == if t in old(rows) then Some(old(rows)[t].scan) else None
    {
      if t in rows {
        var row := rows[t];
        rows := rows[t := row.(status := if end == Succeeded then SUCCESS else FAILED, attempts := row.attempts + 1)];
        responses := responses[t := end];
        scan := Some(row.scan);
      } else {
        scan := None;
      }
    }

    /** The rows `submit_tasks` creates. */
    method InsertTasks(scan: ScanId, tasks: seq<TaskSpec>)
      requires FreshTasks(rows, tasks)
      modifies this`rows
      ensures rows == old(rows) + NewRows(scan, tasks)
      ensures Inserted(old(rows), rows, scan, tasks)
    {
      for i := 0 to |tasks|
        invariant forall t :: t in rows <==> t in old(rows) || exists j :: 0 <= j < i && tasks[j].id == t
        invariant forall t :: t in old(rows) ==> rows[t] == old(rows)[t]
        invariant forall j :: 0 <= j < i ==> rows[tasks[j].id] == Row(scan, QUEUED, 0, tasks[j].retryCount)
      {
        rows := rows[tasks[i].id := Row(scan, QUEUED, 0, tasks[i].retryCount)];
      }
      InsertedRows(old(rows), rows, scan, tasks);
    }

    /** The query of `_evaluate_scan_completion` and its `any` and `all` over the statuses. */
    method ReadVerdict(scan: ScanId) returns (verdict: Option<ScanStatus>)
      ensures verdict == if scan in scans then Verdict(rows, scan) else None
      ensures verdict == None <==>
        || scan !in scans || (forall t :: t in rows ==> rows[t].scan != scan)
        || exists t :: t in rows && rows[t].scan == scan && rows[t].status !in {SUCCESS, FAILED}
      ensures verdict != None ==>
        verdict == Some(if forall t :: t in rows && rows[t].scan == scan ==> rows[t].status == SUCCESS then Completed else ScanFailed)
    {
      if scan !in scans {
        return None;
      }
      var found, active, success := false, false, true;
      var todo := rows.Keys;
      while todo != {}
        invariant todo <= rows.Keys
        invariant found <==> exists t :: t in rows.Keys - todo && rows[t].scan == scan
        invariant active <==> exists t :: t in rows.Keys - todo && IsActive(rows[t], scan)
        invariant success <==> forall t :: t in rows.Keys - todo && rows[t].scan == scan ==> rows[t].status == SUCCESS
        decreases |todo|
      {
        var t :| t in todo;
        ghost var seen := rows.Keys - todo;
        todo := todo - {t};
        assert rows.Keys - todo == seen + {t};
        if rows[t].scan == scan {
          found := true;
          active := active || IsActive(rows[t], scan);
          success := success && rows[t].status == SUCCESS;
        }
      }
      ActiveOrTerminal(rows, scan);
      VerdictIs(rows, scan);
      hide IsActive;
      if !found || active {
        verdict := None;
      } else {
        verdict := Some(if success then Completed else ScanFailed);
      }
    }

    /** The commit of `_evaluate_scan_completion`. */
    method WriteScanStatus(scan: ScanId, verdict: Option<ScanStatus>)
      modifies this`scans
      ensures scans == if verdict.Some? then old(scans)[scan := verdict.value] else old(scans)
    {
      if verdict.Some? {
        scans := scans[scan := verdict.value];
      }
    }
  }

  /** Process i has gone from `s0` to `s` by the run `es`, all others waiting; its payload and counter are `now`. */
  ghost predicate Ran(s0: State, es: seq<Event>, s: State, i: nat, now: Proc) {
    && IsRun(s0, es) && RunFrom(s0, es) == s
    && i < |s0.procs| && s.procs == s0.procs[i := now]
    && s.clock == s0.clock && s.finished == s0.finished
  }

  /** The same at the end of the process. */
  ghost predicate RanOut(s0: State, es: seq<Event>, s: State, i: nat, finished: seq<Payload>) {
    && IsRun(s0, es) && RunFrom(s0, es) == s
    && i < |s0.procs| && s.procs == DropProc(s0.procs, i)
    && s.finished == finished
  }

  lemma Marks(s0: State, es: seq<Event>, s: State, i: nat, p: Payload)
    returns (es': seq<Event>, s': State)
    requires Ran(s0, es, s, i, Proc(p, Popped))
    ensures es' == es + [Mark(i)]
    ensures Ran(s0, es', s', i, Proc(p, Marked))
    ensures s' == s.(rows := SetStatus(s.rows, p.task, PROCESSING), procs := s'.procs)
  {
    ExtendRun(s0, es, Mark(i));
    es', s' := es + [Mark(i)], Next(s, Mark(i));
  }

  lemma Asks(s0: State, es: seq<Event>, s: State, i: nat, p: Payload, granted: bool)
    returns (es': seq<Event>, s': State)
    requires Ran(s0, es, s, i, Proc(p, Marked))
    ensures es' == es + [AskLimiter(i, granted)]
    ensures Ran(s0, es', s', i, Proc(p, if granted then Admitted else Denied))
    ensures s' == s.(procs := s'.procs)
  {
    ExtendRun(s0, es, AskLimiter(i, granted));
    es', s' := es + [AskLimiter(i, granted)], Next(s, AskLimiter(i, granted));
  }

  lemma Executes(s0: State, es: seq<Event>, s: State, i: nat, p: Payload, ok: bool)
    returns (es': seq<Event>, s': State)
    requires Ran(s0, es, s, i, Proc(p, Admitted))
    ensures es' == es + [Execute(i, ok)]
    ensures Ran(s0, es', s', i, Proc(p, Executed(ok)))
    ensures s' == s.(procs := s'.procs, history := AddExecution(s.history, p.task))
  {
    ExtendRun(s0, es, Execute(i, ok));
    es', s' := es + [Execute(i, ok)], Next(s, Execute(i, ok));
  }

  lemma Saves(s0: State, es: seq<Event>, s: State, i: nat, p: Payload, end: Ending)
    returns (es': seq<Event>, s': State)
    requires Ran(s0, es, s, i, Proc(p, if end == RateDenied then Denied else Executed(end == Succeeded)))
    ensures es' == es + [Save(i)]
    ensures Ran(s0, es', s', i, Proc(p, Saved(end)))
    ensures s' == s.(rows := SaveRow(s.rows, p.task, end), procs := s'.procs)
  {
    ExtendRun(s0, es, Save(i));
    es', s' := es + [Save(i)], Next(s, Save(i));
  }

  lemma Evaluates(s0: State, es: seq<Event>, s: State, i: nat, p: Payload, end: Ending)
    returns (es': seq<Event>, s': State)
    requires Ran(s0, es, s, i, Proc(p, Saved(end)))
    ensures es' == es + [ReadStatuses(i), WriteVerdict(i)]
    ensures Ran(s0, es', s', i, Proc(p, Evaluated(end)))
    ensures s' == s.(scans := WrittenScans(s, p.task, JudgementOf(s, p.task)), procs := s'.procs)
  {
    hide JudgementOf, WrittenScans;
    ExtendRun(s0, es, ReadStatuses(i));
    var es1, s1 := es + [ReadStatuses(i)], Next(s, ReadStatuses(i));
    assert s1 == s.(procs := s0.procs[i := Proc(p, Judged(end, JudgementOf(s, p.task)))]);
    ExtendRun(s0, es1, WriteVerdict(i));
    es', s' := es1 + [WriteVerdict(i)], Next(s1, WriteVerdict(i));
    assert WrittenScans(s1, p.task, JudgementOf(s, p.task)) == WrittenScans(s, p.task, JudgementOf(s, p.task)) by {
      WrittenScansFrame(s, s1, p.task, JudgementOf(s, p.task));
    }
  }

  lemma WrittenScansFrame(s: State, s1: State, t: TaskId, v: Option<ScanStatus>)
    requires s1.rows == s.rows && s1.scans == s.scans
    ensures WrittenScans(s1, t, v) == WrittenScans(s, t, v)
  {
  }

  lemma MarksRetry(s0: State, es: seq<Event>, s: State, i: nat, p: Payload)
    returns (es': seq<Event>, s': State)
    requires Ran(s0, es, s, i, Proc(p, Evaluated(HttpFailed))) && p.attempt < p.maxRetries
    ensures es' == es + [HandleRetry(i)]
    ensures Ran(s0, es', s', i, Proc(p.(attempt := p.attempt + 1), RetryMarked))
    ensures s' == s.(rows := SetStatus(s.rows, p.task, RETRYING), procs := s'.procs)
  {
    hide SetStatus;
    ExtendRun(s0, es, HandleRetry(i));
    es', s' := es + [HandleRetry(i)], Next(s, HandleRetry(i));
  }

  lemma Stamps(s0: State, es: seq<Event>, s: State, i: nat, p: Payload)
    returns (es': seq<Event>, s': State)
    requires Ran(s0, es, s, i, Proc(p, RetryMarked)) && p.attempt >= 1
    ensures es' == es + [Stamp(i)]
    ensures Ran(s0, es', s', i, Proc(p, Stamped(s.clock + Backoff(p.attempt) as real)))
    ensures s' == s.(procs := s'.procs, history := AddBackoff(s.history, p.task, Backoff(p.attempt)))
  {
    hide AddBackoff, Backoff;
    ExtendRun(s0, es, Stamp(i));
    es', s' := es + [Stamp(i)], Next(s, Stamp(i));
  }

  lemma Schedules(s0: State, es: seq<Event>, s: State, i: nat, p: Payload, score: real)
    returns (es': seq<Event>, s': State)
    requires Ran(s0, es, s, i, Proc(p, Stamped(score)))
    ensures es' == es + [Schedule(i)]
    ensures RanOut(s0, es', s', i, s0.finished)
    ensures s' == s.(delayed := ZAdd(s.delayed, p, score), procs := s'.procs)
  {
    hide ZAdd;
    ExtendRun(s0, es, Schedule(i));
    es', s' := es + [Schedule(i)], Next(s, Schedule(i));
    assert s'.procs == DropProc(s0.procs, i);
  }

  lemma Retries(s0: State, es: seq<Event>, s: State, i: nat, p: Payload)
    returns (es': seq<Event>, s': State)
    requires Ran(s0, es, s, i, Proc(p, Evaluated(HttpFailed))) && p.attempt < p.maxRetries
    ensures es' == es + [HandleRetry(i), Stamp(i), Schedule(i)]
    ensures RanOut(s0, es', s', i, s0.finished)
    ensures var again := p.(attempt := p.attempt + 1);
      s' == s.(rows := SetStatus(s.rows, p.task, RETRYING),
               delayed := ZAdd(s.delayed, again, s.clock + Backoff(again.attempt) as real),
               procs := s'.procs, history := AddBackoff(s.history, p.task, Backoff(again.attempt)))
  {
    hide Ran, RanOut, SetStatus, ZAdd, Backoff, AddBackoff;
    var again := p.(attempt := p.attempt + 1);
    es', s' := MarksRetry(s0, es, s, i, p);
    es', s' := Stamps(s0, es', s', i, again);
    es', s' := Schedules(s0, es', s', i, again, s.clock + Backoff(again.attempt) as real);
  }

  lemma GivesUp(s0: State, es: seq<Event>, s: State, i: nat, p: Payload)
    returns (es': seq<Event>, s': State)
    requires Ran(s0, es, s, i, Proc(p, Evaluated(HttpFailed))) && p.attempt >= p.maxRetries
    ensures es' == es + [HandleRetry(i), SendToDlq(i)]
    ensures RanOut(s0, es', s', i, s0.finished)
    ensures s' == s.(rows := SetStatus(s.rows, p.task, FAILED), dlq := s.dlq + [Dead(p, Exhausted)], procs := s'.procs)
  {
    hide SetStatus;
    ExtendRun(s0, es, HandleRetry(i));
    var es1, s1 := es + [HandleRetry(i)], Next(s, HandleRetry(i));
    assert s1.procs == s0.procs[i := Proc(p, FailMarked)];
    ExtendRun(s0, es1, SendToDlq(i));
    es', s' := es1 + [SendToDlq(i)], Next(s1, SendToDlq(i));
    assert s'.procs == DropProc(s0.procs, i);
  }

  lemma DiesOnRateLimit(s0: State, es: seq<Event>, s: State, i: nat, p: Payload)
    returns (es': seq<Event>, s': State)
    requires Ran(s0, es, s, i, Proc(p, Evaluated(RateDenied)))
    ensures es' == es + [SendToDlq(i)]
    ensures RanOut(s0, es', s', i, s0.finished)
    ensures s' == s.(dlq := s.dlq + [Dead(p, WorkerError)], procs := s'.procs)
  {
    ExtendRun(s0, es, SendToDlq(i));
    es', s' := es + [SendToDlq(i)], Next(s, SendToDlq(i));
    assert s'.procs == DropProc(s0.procs, i);
  }

  lemma Finishes(s0: State, es: seq<Event>, s: State, i: nat, p: Payload)
    returns (es': seq<Event>, s': State)
    requires Ran(s0, es, s, i, Proc(p, Evaluated(Succeeded)))
    ensures es' == es + [Finish(i)]
    ensures RanOut(s0, es', s', i, s0.finished + [p])
    ensures s' == s.(finished := s.finished + [p], procs := s'.procs)
  {
    ExtendRun(s0, es, Finish(i));
    es', s' := es + [Finish(i)], Next(s, Finish(i));
    assert s'.procs == DropProc(s0.procs, i);
  }

  function RetryScript(p: Payload, i: nat): seq<Event> {
    if p.attempt < p.maxRetries then [HandleRetry(i), Stamp(i), Schedule(i)] else [HandleRetry(i), SendToDlq(i)]
  }

  /** The steps of a payload's life in one worker, by the limiter's answer and the outcome of the request. */
  function Script(p: Payload, granted: bool, ok: bool, i: nat): seq<Event> {
    var judged := [Save(i), ReadStatuses(i), WriteVerdict(i)];
    if !granted then [Mark(i), AskLimiter(i, false)] + judged + [SendToDlq(i)]
    else
      [Mark(i), AskLimiter(i, true), Execute(i, ok)] + judged
      + if ok then [Finish(i)] else RetryScript(p, i)
  }

  lemma ScriptIs(p: Payload, granted: bool, ok: bool, i: nat)
    ensures Script(p, granted, ok, i)
         == [] + [Mark(i)] + [AskLimiter(i, granted)]
            + if granted then [Execute(i, ok), Save(i), ReadStatuses(i), WriteVerdict(i)] + (if ok then [Finish(i)] else RetryScript(p, i))
              else [Save(i), ReadStatuses(i), WriteVerdict(i), SendToDlq(i)]
  {
    hide RetryScript;
  }

  class Worker {
    const db: Database
    const queues: Redis

    constructor (db: Database, queues: Redis)
      ensures this.db == db && this.queues == queues
    {
      this.db, this.queues := db, queues;
    }

    /** The stores hold what the state `s` says they hold. */
    ghost predicate Holds(s: State)
      reads db, queues
    {
      && db.rows == s.rows && db.scans == s.scans
      && queues.lists == s.lists && queues.delayed == s.delayed && queues.dlq == s.dlq
    }

    /** `_save_response` with the evaluation it ends in. */
    method SaveAndEvaluate(p: Payload, end: Ending, ghost s0: State, ghost es0: seq<Event>, ghost s: State, ghost i: nat)
      returns (ghost es: seq<Event>, ghost s': State)
      requires Ran(s0, es0, s, i, Proc(p, if end == RateDenied then Denied else Executed(end == Succeeded))) && Holds(s)
      modifies db
      ensures Ran(s0, es, s', i, Proc(p, Evaluated(end))) && Holds(s')
      ensures es == es0 + [Save(i), ReadStatuses(i), WriteVerdict(i)]
      ensures queues.lists == s'.lists && s'.clock == s.clock
      ensures db.rows == Updated(old(db.rows), p.task, if end == Succeeded then SUCCESS else FAILED, 1)
      ensures db.responses == if p.task in old(db.rows) then old(db.responses)[p.task := end] else old(db.responses)
      ensures db.scans ==
        if p.task in db.rows && db.rows[p.task].scan in old(db.scans) then
          var scan := db.rows[p.task].scan;
          old(db.scans)[scan := StatusAfter(old(db.scans)[scan], db.rows, scan)]
        else old(db.scans)
    {
      hide Ran, SaveRow, Verdict;
      var scan := db.SaveResponse(p.task, end);
      es, s' := Saves(s0, es0, s, i, p, end);
      assert scan == if p.task in db.rows then Some(db.rows[p.task].scan) else None by { SavedScan(s.rows, p.task, end); }
      if scan.Some? {
        var verdict := db.ReadVerdict(scan.value);
        db.WriteScanStatus(scan.value, verdict);
      }
      es, s' := Evaluates(s0, es, s', i, p, end);
    }

    /** `_handle_retry`: back to the delayed set with the next attempt, or to the dead letters. */
    method HandleRetry(p: Payload, now: real, ghost s0: State, ghost es0: seq<Event>, ghost s: State, ghost i: nat)
      returns (ghost es: seq<Event>, ghost s': State)
      requires Ran(s0, es0, s, i, Proc(p, Evaluated(HttpFailed))) && Holds(s) && s.clock == now
      modifies db`rows, queues`delayed, queues`dlq
      ensures RanOut(s0, es, s', i, s0.finished) && Holds(s')
      ensures es == es0 + RetryScript(p, i)
      ensures db.rows == Updated(old(db.rows), p.task, if p.attempt < p.maxRetries then RETRYING else FAILED, 0)
      ensures if p.attempt < p.maxRetries
        then Parked(old(queues.delayed), queues.delayed, Payload(p.task, p.scan, p.attempt + 1, p.maxRetries, p.priority),
                    now + (2 * Pow2(p.attempt)) as real)
             && queues.dlq == old(queues.dlq)
        else queues.delayed == old(queues.delayed) && queues.dlq == old(queues.dlq) + [Dead(p, Exhausted)]
    {
      hide Ran, RanOut, SetStatus, ZAdd;
      if p.attempt < p.maxRetries {
        var again := p.(attempt := p.attempt + 1);
        db.UpdateTaskStatus(p.task, RETRYING);
        var _ := queues.ScheduleDelayed(again, now + Backoff(again.attempt) as real);
        es, s' := Retries(s0, es0, s, i, p);
      } else {
        db.UpdateTaskStatus(p.task, FAILED);
        var _ := queues.SendToDlq(p, Exhausted);
        es, s' := GivesUp(s0, es0, s, i, p);
      }
    }

    /** `_process_payload`: for every answer of the limiter and every outcome of the request, what it does to the
        stores is a run of process i of the model, to the end. */
    method ProcessPayload(p: Payload, granted: bool, ok: bool, now: real, ghost s0: State, ghost i: nat)
      returns (ghost es: seq<Event>, ghost s: State)
      requires i < |s0.procs| && s0.procs[i] == Proc(p, Popped) && Holds(s0) && s0.clock == now
      modifies db, queues`delayed, queues`dlq
      ensures RanOut(s0, es, s, i, if granted && ok then s0.finished + [p] else s0.finished) && Holds(s)
      ensures es == Script(p, granted, ok, i)
      ensures db.rows == Updated(old(db.rows), p.task,
        if granted && ok then SUCCESS else if granted && p.attempt < p.maxRetries then RETRYING else FAILED, 1)
      ensures if granted && !ok && p.attempt < p.maxRetries
        then Parked(old(queues.delayed), queues.delayed, Payload(p.task, p.scan, p.attempt + 1, p.maxRetries, p.priority),
                    now + (2 * Pow2(p.attempt)) as real)
        else queues.delayed == old(queues.delayed)
      ensures queues.dlq == old(queues.dlq) + (
        if !granted then [Dead(p, WorkerError)]
        else if !ok && p.attempt >= p.maxRetries then [Dead(p, Exhausted)]
        else [])
    {
      assert Ran(s0, [], s0, i, Proc(p, Popped));
      hide Ran, RanOut, SetStatus, Updated, Parked, StatusAfter, Script, RetryScript;
      ScriptIs(p, granted, ok, i);
      ghost var rows := db.rows;
      db.UpdateTaskStatus(p.task, PROCESSING);
      es, s := Marks(s0, [], s0, i, p);
      es, s := Asks(s0, es, s, i, p, granted);
      if granted {
        es, s := ExecuteRequest(p, ok, now, s0, es, s, i);
      } else {
        es, s := FailCritically(p, s0, es, s, i);
      }
      UpdatedTwice(rows, p.task, PROCESSING, 0,
        if granted && ok then SUCCESS else if granted && p.attempt < p.maxRetries then RETRYING else FAILED, 1);
    }

    /** The rest of `_process_payload` with an admission: the request, its saving, and what follows from it. */
    method ExecuteRequest(p: Payload, ok: bool, now: real, ghost s0: State, ghost es0: seq<Event>, ghost s1: State, ghost i: nat)
      returns (ghost es: seq<Event>, ghost s: State)
      requires Ran(s0, es0, s1, i, Proc(p, Admitted)) && Holds(s1) && s1.clock == now
      modifies db, queues`delayed, queues`dlq
      ensures RanOut(s0, es, s, i, if ok then s0.finished + [p] else s0.finished) && Holds(s)
      ensures es == es0 + ([Execute(i, ok), Save(i), ReadStatuses(i), WriteVerdict(i)]
                           + if ok then [Finish(i)] else RetryScript(p, i))
      ensures db.rows == Updated(old(db.rows), p.task,
        if ok then SUCCESS else if p.attempt < p.maxRetries then RETRYING else FAILED, 1)
      ensures if !ok && p.attempt < p.maxRetries
        then Parked(old(queues.delayed), queues.delayed, Payload(p.task, p.scan, p.attempt + 1, p.maxRetries, p.priority),
                    now + (2 * Pow2(p.attempt)) as real)
        else queues.delayed == old(queues.delayed)
      ensures queues.dlq == old(queues.dlq) + if !ok && p.attempt >= p.maxRetries then [Dead(p, Exhausted)] else []
    {
      hide Ran, RanOut, SetStatus, Updated, Parked, StatusAfter;
      es, s := Executes(s0, es0, s1, i, p, ok);
      es, s := SaveAndEvaluate(p, if ok then Succeeded else HttpFailed, s0, es, s, i);
      if ok {
        es, s := Finishes(s0, es, s, i, p);
      } else {
        UpdatedTwice(old(db.rows), p.task, FAILED, 1, if p.attempt < p.maxRetries then RETRYING else FAILED, 0);
        es, s := HandleRetry(p, now, s0, es, s, i);
      }
    }

    /** Its outer `except`, for a payload the limiter did not admit. */
    method FailCritically(p: Payload, ghost s0: State, ghost es0: seq<Event>, ghost s1: State, ghost i: nat)
      returns (ghost es: seq<Event>, ghost s: State)
      requires Ran(s0, es0, s1, i, Proc(p, Denied)) && Holds(s1)
      modifies db, queues`dlq
      ensures RanOut(s0, es, s, i, s0.finished) && Holds(s)
      ensures es == es0 + [Save(i), ReadStatuses(i), WriteVerdict(i), SendToDlq(i)]
      ensures db.rows == Updated(old(db.rows), p.task, FAILED, 1)
      ensures queues.delayed == old(queues.delayed) && queues.dlq == old(queues.dlq) + [Dead(p, WorkerError)]
    {
      hide Ran, RanOut, Updated, StatusAfter;
      es, s := SaveAndEvaluate(p, RateDenied, s0, es0, s1, i);
      var _ := queues.SendToDlq(p, WorkerError);
      es, s := DiesOnRateLimit(s0, es, s, i, p);
    }
  }

  lemma SavedScan(rows: map<TaskId, Row>, t: TaskId, end: Ending)
    ensures t in SaveRow(rows, t, end) <==> t in rows
    ensures t in rows ==> SaveRow(rows, t, end)[t].scan == rows[t].scan
  {
  }

  /** The API side: `submit_tasks`. */
  class Api {
    const db: Database
    const queues: Redis

    constructor (db: Database, queues: Redis)
      ensures this.db == db && this.queues == queues
    {
      this.db, this.queues := db, queues;
    }

    /** Creates the rows, then the matching payloads, and publishes them as one batch. The ids in `tasks` are the
        fresh ones the database hands out. An unknown scan is refused and nothing changes. */
    method SubmitTasks(scan: ScanId, tasks: seq<TaskSpec>) returns (published: Option<nat>)
      requires FreshTasks(db.rows, tasks)
      modifies db, queues`lists
      ensures scan !in old(db.scans) ==>
        published == None && db.rows == old(db.rows) && db.scans == old(db.scans) && queues.lists == old(queues.lists)
      ensures scan in old(db.scans) ==>
        && published == Some(|tasks|)
        && db.scans == old(db.scans)[scan := Started(old(db.scans)[scan])]
        && db.rows == old(db.rows) + NewRows(scan, tasks)
        && queues.lists == Enqueue(old(queues.lists), NewPayloads(scan, tasks))
      ensures scan in old(db.scans) ==>
        var was := old(db.scans)[scan];
        && db.scans == old(db.scans)[scan := if was == Pending || was == Paused then Running else was]
        && Inserted(old(db.rows), db.rows, scan, tasks)
        && exists batch :: IsBatchOf(batch, scan, tasks) && Pushed(old(queues.lists), queues.lists, batch)
    {
      if scan !in db.scans {
        return None;
      }
      if db.scans[scan] in {Pending, Paused} {
        db.scans := db.scans[scan := Running];
      }
      db.InsertTasks(scan, tasks);
      var payloads := BuildPayloads(scan, tasks);
      var n := queues.PublishBatch(payloads);
      published := Some(n);
    }
  }

  /** The loop that pairs rows with submissions. */
  method BuildPayloads(scan: ScanId, tasks: seq<TaskSpec>) returns (payloads: seq<Payload>)
    ensures payloads == NewPayloads(scan, tasks) && IsBatchOf(payloads, scan, tasks)
  {
    payloads := [];
    for i := 0 to |tasks|
      invariant payloads == NewPayloads(scan, tasks)[..i]
    {
      payloads := payloads + [Payload(tasks[i].id, scan, 0, tasks[i].retryCount, tasks[i].priority)];
    }
  }

  lemma InsertedRows(was: map<TaskId, Row>, now: map<TaskId, Row>, scan: ScanId, tasks: seq<TaskSpec>)
    requires FreshTasks(was, tasks)
    requires forall t :: t in now <==> t in was || exists j :: 0 <= j < |tasks| && tasks[j].id == t
    requires forall t :: t in was ==> now[t] == was[t]
    requires forall j :: 0 <= j < |tasks| ==> now[tasks[j].id] == Row(scan, QUEUED, 0, tasks[j].retryCount)
    ensures now == was + NewRows(scan, tasks)
  {
    forall t ensures t in now <==> t in was + NewRows(scan, tasks) {
      Agreement.NewRowsKeys(scan, tasks, t);
      if j :| 0 <= j < |tasks| && tasks[j].id == t {
        Agreement.NewRowsAt(scan, tasks, j);
      }
    }
    forall t | t in now ensures now[t] == (was + NewRows(scan, tasks))[t] {
      Agreement.NewRowsKeys(scan, tasks, t);
      if t in NewRows(scan, tasks) {
        var j :| 0 <= j < |tasks| && tasks[j].id == t;
        Agreement.NewRowsAt(scan, tasks, j);
      }
    }
  }
}
