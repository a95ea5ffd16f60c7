/** The verdict on a scan is right once the scan is at rest. */
module ScanVerdict {
  import opened TaskQueue
  import opened Pipeline
  import opened Conservation
  import opened Agreement

  /** An evaluation reads the statuses and commits its verdict in two database operations. It is isolated when
      what it commits is still what the statuses call for. */
  predicate Isolated(s: State, e: Event)
    requires Enabled(s, e)
  {
    e.WriteVerdict? ==> s.procs[e.i].pc.verdict == JudgementOf(s, s.procs[e.i].payload.task)
  }

  predicate BelongsTo(rows: map<TaskId, Row>, t: TaskId, scan: ScanId) {
    t in rows && rows[t].scan == scan
  }

  /** Whether the last evaluation that committed a verdict on the scan was isolated; None before the first. */
  function AfterCommit(s: State, e: Event, scan: ScanId, last: Option<bool>): Option<bool>
    requires Enabled(s, e)
  {
    if e.WriteVerdict? && s.procs[e.i].pc.verdict.Some? && BelongsTo(s.rows, s.procs[e.i].payload.task, scan)
    then Some(Isolated(s, e)) else last
  }

  function LastCommit(s: State, es: seq<Event>, scan: ScanId, last: Option<bool>): Option<bool>
    requires IsRun(s, es)
    decreases |es|
  {
    if es == [] then last else LastCommit(Next(s, es[0]), es[1..], scan, AfterCommit(s, es[0], scan, last))
  }

  /** Some process has saved a result of this scan and has yet to read the statuses, or has read verdict v. */
  predicate Settling(s: State, scan: ScanId, v: ScanStatus) {
    exists p :: p in s.procs && (p.pc.Saved? || (p.pc.Judged? && p.pc.verdict == Some(v)))
                && BelongsTo(s.rows, p.payload.task, scan)
  }

  /** When the statuses call for verdict v, either somebody is about to commit it, or the last commit decides:
      the scan says v exactly if that commit was isolated. */
  predicate Settled(s: State, scan: ScanId, last: Option<bool>) {
    scan in s.scans && Verdict(s.rows, scan).Some? ==>
      var v := Verdict(s.rows, scan).value;
      Settling(s, scan, v) || (last.Some? && (last.value <==> s.scans[scan] == v))
  }

  ghost predicate ScansExist(s: State) { forall t :: t in s.rows ==> s.rows[t].scan in s.scans }

  // ------------------------------------------------------------------
  // How a change of rows bears on verdicts
  // ------------------------------------------------------------------

  /** Rows that agree on a scan's tasks call for the same verdict. */
  lemma SameVerdict(rows: map<TaskId, Row>, rows': map<TaskId, Row>, scan: ScanId)
    requires forall t :: BelongsTo(rows, t, scan) || BelongsTo(rows', t, scan) ==>
      t in rows && t in rows' && rows[t] == rows'[t]
    ensures Verdict(rows, scan) == Verdict(rows', scan)
  {
    if HasTasks(rows, scan) {
      var t :| t in rows && rows[t].scan == scan;
      assert BelongsTo(rows, t, scan);
    }
    if HasTasks(rows', scan) {
      var t :| t in rows' && rows'[t].scan == scan;
      assert BelongsTo(rows', t, scan);
    }
    forall t | BelongsTo(rows, t, scan) || BelongsTo(rows', t, scan) ensures t in rows && t in rows' && rows[t] == rows'[t] {}
    assert AllTerminal(rows, scan) == AllTerminal(rows', scan) by {
      if !AllTerminal(rows, scan) {
        var t :| t in rows && rows[t].scan == scan && rows[t].status !in {SUCCESS, FAILED};
        assert BelongsTo(rows, t, scan);
      }
      if !AllTerminal(rows', scan) {
        var t :| t in rows' && rows'[t].scan == scan && rows'[t].status !in {SUCCESS, FAILED};
        assert BelongsTo(rows', t, scan);
      }
    }
    assert AllSuccess(rows, scan) == AllSuccess(rows', scan) by {
      if !AllSuccess(rows, scan) {
        var t :| t in rows && rows[t].scan == scan && rows[t].status != SUCCESS;
        assert BelongsTo(rows, t, scan);
      }
      if !AllSuccess(rows', scan) {
        var t :| t in rows' && rows'[t].scan == scan && rows'[t].status != SUCCESS;
        assert BelongsTo(rows', t, scan);
      }
    }
  }

  lemma ActiveTaskNoVerdict(rows: map<TaskId, Row>, t: TaskId)
    requires t in rows && rows[t].status !in {SUCCESS, FAILED}
    ensures Verdict(rows, rows[t].scan) == None
  {
  }

  /** A step on a task of one scan does not touch the others. */
  lemma OtherScan(s: State, s': State, t: TaskId, scan: ScanId, last: Option<bool>)
    requires Settled(s, scan, last)
    requires t in s.rows && t in s'.rows && s'.rows[t].scan == s.rows[t].scan != scan
    requires s'.rows.Keys == s.rows.Keys && forall x :: x in s.rows && x != t ==> s'.rows[x] == s.rows[x]
    requires scan in s'.scans ==> scan in s.scans && s'.scans[scan] == s.scans[scan]
    requires forall p :: p in s.procs && p.payload.task != t ==> p in s'.procs
    ensures Settled(s', scan, last)
  {
    SameVerdict(s.rows, s'.rows, scan);
    if Verdict(s.rows, scan).Some? && Settling(s, scan, Verdict(s.rows, scan).value) {
      var v := Verdict(s.rows, scan).value;
      var p :| p in s.procs && (p.pc.Saved? || (p.pc.Judged? && p.pc.verdict == Some(v)))
               && BelongsTo(s.rows, p.payload.task, scan);
      assert p in s'.procs && BelongsTo(s'.rows, p.payload.task, scan);
    }
  }

  /** Neither the rows nor the evaluations of the scan change. */
  lemma SameScan(s: State, s': State, scan: ScanId, last: Option<bool>)
    requires Settled(s, scan, last)
    requires s'.rows == s.rows
    requires scan in s'.scans ==> scan in s.scans && s'.scans[scan] == s.scans[scan]
    requires forall p :: p in s.procs && (p.pc.Saved? || p.pc.Judged?) ==> p in s'.procs
    ensures Settled(s', scan, last)
  {
    if Verdict(s.rows, scan).Some? && Settling(s, scan, Verdict(s.rows, scan).value) {
      var v := Verdict(s.rows, scan).value;
      var p :| p in s.procs && (p.pc.Saved? || (p.pc.Judged? && p.pc.verdict == Some(v)))
               && BelongsTo(s.rows, p.payload.task, scan);
      assert p in s'.procs && BelongsTo(s'.rows, p.payload.task, scan);
    }
  }

  // ------------------------------------------------------------------
  // The steps of a process
  // ------------------------------------------------------------------

  lemma KeepsOthers(s: State, s': State, i: nat)
    requires At(s, i) && OnlyProcess(s, i, s')
    ensures forall p :: p in s.procs && p != s.procs[i] ==> p in s'.procs
    ensures s'.procs[i] in s'.procs
  {
    forall p | p in s.procs && p != s.procs[i] ensures p in s'.procs {
      var j :| 0 <= j < |s.procs| && s.procs[j] == p;
      assert s'.procs[j] == p;
    }
  }

  lemma ScansFrame(s: State, e: Event)
    requires Enabled(s, e) && MovesProc(e) && s.procs[e.i].payload.task in s.rows
    ensures var s', t := Next(s, e), s.procs[e.i].payload.task;
      && t in s'.rows && s'.rows[t].scan == s.rows[t].scan
      && forall scan :: scan != s.rows[t].scan ==>
           (scan in s'.scans <==> scan in s.scans) && (scan in s.scans ==> s'.scans[scan] == s.scans[scan])
  {
  }

  /** A commit decides, isolated or not; a process without a verdict was not the one awaited. */
  lemma CommitSettles(s: State, i: nat, last: Option<bool>)
    requires Enabled(s, WriteVerdict(i)) && AgreesAt(s, i)
    requires var scan := s.rows[s.procs[i].payload.task].scan; scan in s.scans && Settled(s, scan, last)
    ensures var scan := s.rows[s.procs[i].payload.task].scan;
      Settled(Next(s, WriteVerdict(i)), scan, AfterCommit(s, WriteVerdict(i), scan, last))
  {
    var s', t := Next(s, WriteVerdict(i)), s.procs[i].payload.task;
    var scan := s.rows[t].scan;
    KeepsOthers(s, s', i);
    assert s'.rows == s.rows;
    hide Verdict;
    if s.procs[i].pc.verdict.None? && Verdict(s.rows, scan).Some? && Settling(s, scan, Verdict(s.rows, scan).value) {
      var v := Verdict(s.rows, scan).value;
      var p :| p in s.procs && (p.pc.Saved? || (p.pc.Judged? && p.pc.verdict == Some(v)))
               && BelongsTo(s.rows, p.payload.task, scan);
      assert p in s'.procs;
    }
  }

  lemma ReadSettles(s: State, i: nat, last: Option<bool>)
    requires Enabled(s, ReadStatuses(i)) && AgreesAt(s, i) && s.rows[s.procs[i].payload.task].scan in s.scans
    ensures Settled(Next(s, ReadStatuses(i)), s.rows[s.procs[i].payload.task].scan, last)
  {
    var s' := Next(s, ReadStatuses(i));
    hide Verdict;
    assert s'.procs[i] in s'.procs;
  }

  lemma SaveSettles(s: State, i: nat, last: Option<bool>)
    requires Enabled(s, Save(i)) && AgreesAt(s, i)
    ensures Settled(Next(s, Save(i)), s.rows[s.procs[i].payload.task].scan, last)
  {
    var s' := Next(s, Save(i));
    hide Verdict;
    assert s'.procs[i] in s'.procs && BelongsTo(s'.rows, s.procs[i].payload.task, s.rows[s.procs[i].payload.task].scan);
  }

  /** The scan of the task the step is about. */
  lemma OwnScan(s: State, e: Event, last: Option<bool>)
    requires Enabled(s, e) && MovesProc(e) && AgreesAt(s, e.i)
    requires s.rows[s.procs[e.i].payload.task].scan in s.scans
    requires Settled(s, s.rows[s.procs[e.i].payload.task].scan, last)
    ensures var scan := s.rows[s.procs[e.i].payload.task].scan;
      Settled(Next(s, e), scan, AfterCommit(s, e, scan, last))
  {
    var s', t := Next(s, e), s.procs[e.i].payload.task;
    var scan := s.rows[t].scan;
    if e.Save? {
      SaveSettles(s, e.i, last);
    } else if e.ReadStatuses? {
      ReadSettles(s, e.i, last);
    } else if e.WriteVerdict? {
      CommitSettles(s, e.i, last);
    } else if e.Mark? {
      ActiveTaskNoVerdict(s'.rows, t);
    } else if e.HandleRetry? {
      OwnScanRetry(s, e.i, last);
    } else {
      ProcStepFrame(s, e);
      KeepsOthers(s, s', e.i);
      SameScan(s, s', scan, last);
    }
  }

  lemma OwnScanRetry(s: State, i: nat, last: Option<bool>)
    requires Enabled(s, HandleRetry(i)) && AgreesAt(s, i)
    requires s.rows[s.procs[i].payload.task].scan in s.scans
    requires Settled(s, s.rows[s.procs[i].payload.task].scan, last)
    ensures Settled(Next(s, HandleRetry(i)), s.rows[s.procs[i].payload.task].scan, last)
  {
    var s', t := Next(s, HandleRetry(i)), s.procs[i].payload.task;
    var scan := s.rows[t].scan;
    RetryFrame(s, i);
    KeepsOthers(s, s', i);
    if s.procs[i].payload.attempt < s.procs[i].payload.maxRetries {
      ActiveTaskNoVerdict(s'.rows, t);
    } else {
      assert s.rows[t].status == FAILED;
      assert s'.rows == s.rows;
      SameScan(s, s', scan, last);
    }
  }

  lemma ProcVerdict(s: State, e: Event, scan: ScanId, last: Option<bool>)
    requires Enabled(s, e) && MovesProc(e) && AgreesAt(s, e.i)
    requires ScansExist(s) && Settled(s, scan, last)
    ensures ScansExist(Next(s, e)) && Settled(Next(s, e), scan, AfterCommit(s, e, scan, last))
  {
    assert At(s, e.i);
    hide Settled, Isolated, Next, Enabled, AfterCommit, Agree;
    StepKeepsScans(s, e);
    if scan == s.rows[s.procs[e.i].payload.task].scan {
      OwnScan(s, e, last);
    } else {
      OtherCommit(s, e, scan, last);
      OtherStep(s, e, scan, last);
    }
  }

  lemma StepKeepsScans(s: State, e: Event)
    requires Enabled(s, e) && MovesProc(e) && AgreesAt(s, e.i) && ScansExist(s)
    ensures ScansExist(Next(s, e))
  {
    ProcStepFrame(s, e);
    ScansFrame(s, e);
    hide Next, Enabled, Agree;
  }

  lemma OtherStep(s: State, e: Event, scan: ScanId, last: Option<bool>)
    requires Enabled(s, e) && MovesProc(e) && AgreesAt(s, e.i)
    requires Settled(s, scan, last) && scan != s.rows[s.procs[e.i].payload.task].scan
    ensures Settled(Next(s, e), scan, last)
  {
    assert At(s, e.i);
    hide Settled, Next, Enabled, Agree;
    ProcStepFrame(s, e);
    ScansFrame(s, e);
    KeepsOthers(s, Next(s, e), e.i);
    OtherScan(s, Next(s, e), s.procs[e.i].payload.task, scan, last);
  }

  lemma OtherCommit(s: State, e: Event, scan: ScanId, last: Option<bool>)
    requires Enabled(s, e) && MovesProc(e) && !BelongsTo(s.rows, s.procs[e.i].payload.task, scan)
    ensures AfterCommit(s, e, scan, last) == last
  {
  }

  // ------------------------------------------------------------------
  // The other steps
  // ------------------------------------------------------------------

  lemma DropVerdict(s: State, s': State, i: nat, scan: ScanId, last: Option<bool>)
    requires Settled(s, scan, last) && At(s, i) && !s.procs[i].pc.Saved? && !s.procs[i].pc.Judged?
    requires s'.procs == DropProc(s.procs, i) && s'.rows == s.rows && s'.scans == s.scans
    ensures Settled(s', scan, last)
  {
    forall p | p in s.procs && (p.pc.Saved? || p.pc.Judged?) ensures p in s'.procs {
      var j :| 0 <= j < |s.procs| && s.procs[j] == p;
      assert s'.procs[if j < i then j else j - 1] == p;
    }
    SameScan(s, s', scan, last);
  }

  lemma CreateVerdict(s: State, id: ScanId, scan: ScanId, last: Option<bool>)
    requires ScansExist(s) && Settled(s, scan, last) && Enabled(s, CreateScan(id))
    ensures ScansExist(Next(s, CreateScan(id))) && Settled(Next(s, CreateScan(id)), scan, last)
  {
    if scan == id {
      assert !HasTasks(s.rows, id);
    } else {
      SameScan(s, Next(s, CreateScan(id)), scan, last);
    }
  }

  /** Submitted tasks have a row of their scan, queued. */
  lemma SubmittedRows(s: State, scan: ScanId, tasks: seq<TaskSpec>, t: TaskId)
    requires FreshTasks(s.rows, tasks)
    ensures t in s.rows ==> t !in NewRows(scan, tasks)
    ensures t in NewRows(scan, tasks) ==> NewRows(scan, tasks)[t].scan == scan && NewRows(scan, tasks)[t].status == QUEUED
  {
    NewRowsKeys(scan, tasks, t);
    if t in NewRows(scan, tasks) {
      var i :| 0 <= i < |tasks| && tasks[i].id == t;
      NewRowsAt(scan, tasks, i);
    }
  }

  lemma SubmitVerdictAt(s: State, scan: ScanId, tasks: seq<TaskSpec>, other: ScanId, last: Option<bool>)
    requires Settled(s, other, last) && scan in s.scans && FreshTasks(s.rows, tasks)
    ensures Settled(SubmitTo(s, scan, tasks), other, last)
  {
    var s', added := SubmitTo(s, scan, tasks), NewRows(scan, tasks);
    forall t ensures t in s.rows ==> t !in added && s'.rows[t] == s.rows[t] {
      SubmittedRows(s, scan, tasks, t);
    }
    if t :| t in added && other == scan {
      SubmittedRows(s, scan, tasks, t);
      ActiveTaskNoVerdict(s'.rows, t);
    } else {
      forall t | BelongsTo(s'.rows, t, other) ensures t in s.rows && s.rows[t] == s'.rows[t] {
        SubmittedRows(s, scan, tasks, t);
      }
      SameVerdict(s.rows, s'.rows, other);
      KeepsSettled(s, s', other, last);
    }
  }

  /** The statuses of the scan stay, the processes stay, and the scan's own status at most starts running. */
  lemma KeepsSettled(s: State, s': State, scan: ScanId, last: Option<bool>)
    requires Settled(s, scan, last) && Verdict(s.rows, scan) == Verdict(s'.rows, scan) && s'.procs == s.procs
    requires forall t :: t in s.rows ==> t in s'.rows && s'.rows[t] == s.rows[t]
    requires scan in s'.scans ==> scan in s.scans && s'.scans[scan] in {s.scans[scan], Started(s.scans[scan])}
    ensures Settled(s', scan, last)
  {
    if Verdict(s.rows, scan).Some? && Settling(s, scan, Verdict(s.rows, scan).value) {
      var v := Verdict(s.rows, scan).value;
      var p :| p in s.procs && (p.pc.Saved? || (p.pc.Judged? && p.pc.verdict == Some(v)))
               && BelongsTo(s.rows, p.payload.task, scan);
      assert p in s'.procs && BelongsTo(s'.rows, p.payload.task, scan);
    }
  }

  lemma SubmitVerdict(s: State, scan: ScanId, tasks: seq<TaskSpec>, other: ScanId, last: Option<bool>)
    requires ScansExist(s) && Settled(s, other, last) && Enabled(s, Submit(scan, tasks))
    ensures ScansExist(Next(s, Submit(scan, tasks))) && Settled(Next(s, Submit(scan, tasks)), other, last)
  {
    var s' := SubmitTo(s, scan, tasks);
    SubmitVerdictAt(s, scan, tasks, other, last);
    forall t | t in s'.rows ensures s'.rows[t].scan in s'.scans {
      SubmittedRows(s, scan, tasks, t);
    }
  }

  lemma StepVerdict(s: State, m: map<TaskId, Token>, lost: set<TaskId>, e: Event, scan: ScanId, last: Option<bool>)
    requires Inv(s, m, lost) && Enabled(s, e) && ScansExist(s) && Settled(s, scan, last)
    ensures ScansExist(Next(s, e)) && Settled(Next(s, e), scan, AfterCommit(s, e, scan, last))
  {
    hide Settled;
    match e
    case CreateScan(id) => CreateVerdict(s, id, scan, last);
    case Submit(id, tasks) => SubmitVerdict(s, id, tasks, scan, last);
    case Tick(_) => SameScan(s, Next(s, e), scan, last);
    case MoveDue(_) => SameScan(s, Next(s, e), scan, last);
    case Pop(_) => SameScan(s, Next(s, e), scan, last);
    case Finish(i) => DropVerdict(s, Next(s, e), i, scan, last);
    case Schedule(i) => DropVerdict(s, Next(s, e), i, scan, last);
    case SendToDlq(i) => DropVerdict(s, Next(s, e), i, scan, last);
    case _ => ProcEvents(e); InvAgreesAt(s, m, lost, e.i); ProcVerdict(s, e, scan, last);
  }

  lemma CommitUnfolds(s: State, es: seq<Event>, scan: ScanId, last: Option<bool>)
    requires IsRun(s, es) && es != []
    ensures Enabled(s, es[0]) && IsRun(Next(s, es[0]), es[1..])
    ensures LastCommit(s, es, scan, last) == LastCommit(Next(s, es[0]), es[1..], scan, AfterCommit(s, es[0], scan, last))
  {
  }

  lemma {:induction false} RunVerdict(s: State, m: map<TaskId, Token>, lost: set<TaskId>, es: seq<Event>, scan: ScanId,
                                      last: Option<bool>)
    requires Inv(s, m, lost) && ScansExist(s) && Settled(s, scan, last) && IsRun(s, es)
    ensures ScansExist(RunFrom(s, es)) && Settled(RunFrom(s, es), scan, LastCommit(s, es, scan, last))
    decreases |es|
  {
    hide Enabled, Next, Inv, ScansExist, Settled, AfterCommit;
    if es != [] {
      RunUnfolds(s, es);
      CommitUnfolds(s, es, scan, last);
      StepVerdict(s, m, lost, es[0], scan, last);
      var m1 := StepInv(s, m, lost, es[0]);
      RunVerdict(Next(s, es[0]), m1, lost + DroppedBy(s, es[0]), es[1..], scan, AfterCommit(s, es[0], scan, last));
    }
  }

  // ------------------------------------------------------------------
  // At rest
  // ------------------------------------------------------------------

  predicate InFinished(s: State, t: TaskId) { exists p :: p in s.finished && p.task == t }

  predicate InDlq(s: State, t: TaskId) { exists d :: d in s.dlq && d.payload.task == t }

  /** Every task of the scan, and there is one, has finished or been dead-lettered. */
  ghost predicate AtRest(s: State, scan: ScanId) {
    HasTasks(s.rows, scan) && forall t :: BelongsTo(s.rows, t, scan) ==> InFinished(s, t) || InDlq(s, t)
  }

  lemma FinishedToken(s: State, t: TaskId) returns (tk: Token)
    requires InFinished(s, t)
    ensures tk in Tokens(s) && tk.payload.task == t && tk.place == Done
  {
    var p :| p in s.finished && p.task == t;
    var i :| 0 <= i < |s.finished| && s.finished[i] == p;
    assert DoneTokens(s.finished)[i] == Token(p, Done);
    tk := Token(p, Done);
  }

  lemma DlqToken(s: State, t: TaskId) returns (tk: Token)
    requires InDlq(s, t)
    ensures tk in Tokens(s) && tk.payload.task == t && tk.place.DeadLettered?
  {
    var d :| d in s.dlq && d.payload.task == t;
    DeadTokenPresent(s, d);
    tk := Token(d.payload, DeadLettered(d.reason));
  }

  lemma RestingRow(s: State, m: map<TaskId, Token>, lost: set<TaskId>, t: TaskId)
    requires Inv(s, m, lost) && (InFinished(s, t) || InDlq(s, t))
    ensures t in m && (m[t].place.Done? || m[t].place.DeadLettered?) && t in s.rows
    ensures s.rows[t].status == if InFinished(s, t) then SUCCESS else FAILED
  {
    if InFinished(s, t) {
      var tk := FinishedToken(s, t);
      assert Tokens(s)[tk] > 0;
    } else {
      var tk := DlqToken(s, t);
      assert Tokens(s)[tk] > 0;
    }
  }

  lemma ProcessInMap(s: State, m: map<TaskId, Token>, p: Proc)
    requires Represents(Tokens(s), m) && p in s.procs
    ensures p.payload.task in m && m[p.payload.task] == ProcToken(p)
  {
    var i :| 0 <= i < |s.procs| && s.procs[i] == p;
    assert ProcTokens(s.procs)[i] == ProcToken(p);
    assert ProcToken(p) in Tokens(s);
    assert Tokens(s)[ProcToken(p)] > 0;
  }

  lemma RestingScanNotEvaluated(s: State, m: map<TaskId, Token>, lost: set<TaskId>, scan: ScanId, v: ScanStatus)
    requires Inv(s, m, lost) && AtRest(s, scan)
    ensures !Settling(s, scan, v)
  {
    if Settling(s, scan, v) {
      var p :| p in s.procs && (p.pc.Saved? || (p.pc.Judged? && p.pc.verdict == Some(v)))
               && BelongsTo(s.rows, p.payload.task, scan);
      ProcessInMap(s, m, p);
      RestingRow(s, m, lost, p.payload.task);
    }
  }

  lemma RestingVerdict(s: State, m: map<TaskId, Token>, lost: set<TaskId>, scan: ScanId)
    requires Inv(s, m, lost) && AtRest(s, scan)
    ensures Verdict(s.rows, scan)
         == Some(if forall t :: BelongsTo(s.rows, t, scan) ==> InFinished(s, t) then Completed else ScanFailed)
  {
    forall t | BelongsTo(s.rows, t, scan)
      ensures s.rows[t].status in {SUCCESS, FAILED} && (s.rows[t].status == SUCCESS <==> InFinished(s, t))
    {
      RestingRow(s, m, lost, t);
    }
    assert AllTerminal(s.rows, scan) by {
      forall t | t in s.rows && s.rows[t].scan == scan ensures s.rows[t].status in {SUCCESS, FAILED} {
        assert BelongsTo(s.rows, t, scan);
      }
    }
    if AllSuccess(s.rows, scan) {
      assert forall t :: BelongsTo(s.rows, t, scan) ==> InFinished(s, t);
    } else {
      var t :| t in s.rows && s.rows[t].scan == scan && s.rows[t].status != SUCCESS;
      assert BelongsTo(s.rows, t, scan);
    }
  }

  /** COMPLETED when all tasks of the scan finished, FAILED when one is dead. */
  ghost function RightVerdict(s: State, scan: ScanId): ScanStatus {
    if forall t :: BelongsTo(s.rows, t, scan) ==> InFinished(s, t) then Completed else ScanFailed
  }

  /** In every run a scan at rest has been judged, and rightly if and only if the last evaluation that committed a
      verdict on it was isolated; stale commits before that one do no harm. */
  lemma LastCommitDecides(es: seq<Event>, scan: ScanId)
    requires IsRun(INITIAL, es) && AtRest(RunFrom(INITIAL, es), scan)
    ensures var s, last := RunFrom(INITIAL, es), LastCommit(INITIAL, es, scan, None);
      && scan in s.scans && last.Some?
      && (s.scans[scan] == RightVerdict(s, scan) <==> last.value)
  {
    hide IsRun, RunFrom, Inv, Verdict, Settling, LastCommit;
    InitialInv();
    assert ScansExist(INITIAL) && Settled(INITIAL, scan, None) by { NothingToJudge(scan); }
    RunVerdict(INITIAL, map[], {}, es, scan, None);
    var m := RunInv(INITIAL, map[], {}, es);
    var s := RunFrom(INITIAL, es);
    RestingVerdict(s, m, {} + Dropped(INITIAL, es), scan);
    RestingScanNotEvaluated(s, m, {} + Dropped(INITIAL, es), scan, Verdict(s.rows, scan).value);
    var t :| t in s.rows && s.rows[t].scan == scan;
  }

  lemma NothingToJudge(scan: ScanId)
    ensures ScansExist(INITIAL) && Settled(INITIAL, scan, None)
  {
  }

  // ------------------------------------------------------------------
  // COMPLETED is true when written and stays true
  // ------------------------------------------------------------------

  /** Only a commit newly writes COMPLETED, and all tasks of the scan are SUCCESS at that step exactly if the
      commit is isolated. */
  lemma CompletedIsTrueWhenWritten(s: State, e: Event, scan: ScanId)
    requires Enabled(s, e) && ScansExist(s)
    requires scan in Next(s, e).scans && Next(s, e).scans[scan] == Completed
    requires scan in s.scans ==> s.scans[scan] != Completed
    ensures e.WriteVerdict?
    ensures Isolated(s, e) <==> HasTasks(Next(s, e).rows, scan) && AllSuccess(Next(s, e).rows, scan)
  {
  }

  lemma OwnSuccess(s: State, e: Event)
    requires Enabled(s, e) && MovesProc(e) && AgreesAt(s, e.i)
    requires s.rows[s.procs[e.i].payload.task].status == SUCCESS
    ensures Next(s, e).rows == s.rows
  {
  }

  lemma RowsUntouched(s: State, e: Event)
    requires Enabled(s, e) && !MovesProc(e) && !e.Submit?
    ensures Next(s, e).rows == s.rows
  {
  }

  /** A row that says SUCCESS is never written again. */
  lemma SuccessIsFinal(s: State, m: map<TaskId, Token>, lost: set<TaskId>, e: Event, t: TaskId)
    requires Inv(s, m, lost) && Enabled(s, e) && t in s.rows && s.rows[t].status == SUCCESS
    ensures t in Next(s, e).rows && Next(s, e).rows[t] == s.rows[t]
  {
    hide Agree, Inv, EndStatus, SetStatus;
    if e.Submit? {
      SubmittedRows(s, e.scan, e.tasks, t);
    } else if MovesProc(e) {
      InvAgreesAt(s, m, lost, e.i);
      ProcStepFrame(s, e);
      if t == s.procs[e.i].payload.task {
        OwnSuccess(s, e);
      }
    } else {
      RowsUntouched(s, e);
    }
  }

  /** The only step that gives a scan a new task is a submission to it. */
  lemma NewTasks(s: State, e: Event, t: TaskId)
    requires Enabled(s, e) && t in Next(s, e).rows
    ensures if t in s.rows then Next(s, e).rows[t].scan == s.rows[t].scan
            else e.Submit? && Next(s, e).rows[t].scan == e.scan && e.tasks != []
  {
    if e.Submit? {
      SubmittedRows(s, e.scan, e.tasks, t);
    }
  }

  /** The scan is COMPLETED, or an evaluation has decided so and is about to commit. */
  predicate CompletionAhead(s: State, scan: ScanId) {
    || (scan in s.scans && s.scans[scan] == Completed)
    || exists p :: p in s.procs && p.pc.Judged? && p.pc.verdict == Some(Completed) && BelongsTo(s.rows, p.payload.task, scan)
  }

  ghost predicate CompletedIsTrue(s: State) {
    forall scan :: CompletionAhead(s, scan) ==> AllSuccess(s.rows, scan)
  }

  /** No task is submitted to a scan that is COMPLETED or about to be. */
  predicate NotLate(s: State, e: Event) {
    e.Submit? && e.tasks != [] ==> !CompletionAhead(s, e.scan)
  }

  predicate NoLateSubmission(s: State, es: seq<Event>)
    requires IsRun(s, es)
    decreases |es|
  {
    es == [] || (NotLate(s, es[0]) && NoLateSubmission(Next(s, es[0]), es[1..]))
  }

  lemma JudgedBefore(s: State, e: Event, p: Proc)
    requires Enabled(s, e) && p in Next(s, e).procs && p.pc.Judged? && p !in s.procs
    ensures e.ReadStatuses? && Next(s, e).rows == s.rows && p.payload.task == s.procs[e.i].payload.task
    ensures p.pc.verdict == JudgementOf(s, p.payload.task)
  {
    hide JudgementOf;
    var j :| 0 <= j < |Next(s, e).procs| && Next(s, e).procs[j] == p;
  }

  lemma JudgedCompleted(s: State, t: TaskId)
    requires JudgementOf(s, t) == Some(Completed)
    ensures t in s.rows && AllSuccess(s.rows, s.rows[t].scan)
  {
  }

  lemma CompletedBefore(s: State, e: Event, scan: ScanId)
    requires Enabled(s, e) && scan in Next(s, e).scans && Next(s, e).scans[scan] == Completed
    ensures CompletionAhead(s, scan)
  {
    if !(scan in s.scans && s.scans[scan] == Completed) {
      assert e.WriteVerdict?;
      assert s.procs[e.i] in s.procs;
    }
  }

  /** What is COMPLETED or about to be was so before, unless it has just been read off the statuses. */
  lemma AheadBefore(s: State, m: map<TaskId, Token>, lost: set<TaskId>, e: Event, scan: ScanId)
    requires Inv(s, m, lost) && Enabled(s, e) && CompletionAhead(Next(s, e), scan)
    ensures CompletionAhead(s, scan) || AllSuccess(Next(s, e).rows, scan)
  {
    hide Next, Enabled, JudgementOf, AllSuccess, Inv;
    var s' := Next(s, e);
    if scan in s'.scans && s'.scans[scan] == Completed {
      CompletedBefore(s, e, scan);
    } else {
      var p :| p in s'.procs && p.pc.Judged? && p.pc.verdict == Some(Completed) && BelongsTo(s'.rows, p.payload.task, scan);
      NewTasks(s, e, p.payload.task);
      if p in s.procs {
        var i :| 0 <= i < |s.procs| && s.procs[i] == p;
        InvAgreesAt(s, m, lost, i);
        assert BelongsTo(s.rows, p.payload.task, scan);
      } else {
        JudgedBefore(s, e, p);
        JudgedCompleted(s, p.payload.task);
      }
    }
  }

  lemma StepCompleted(s: State, m: map<TaskId, Token>, lost: set<TaskId>, e: Event)
    requires Inv(s, m, lost) && Enabled(s, e) && NotLate(s, e) && CompletedIsTrue(s)
    ensures CompletedIsTrue(Next(s, e))
  {
    hide Next, Enabled, Inv, CompletionAhead;
    var s' := Next(s, e);
    forall scan | CompletionAhead(s', scan) ensures AllSuccess(s'.rows, scan) {
      AheadBefore(s, m, lost, e, scan);
      if CompletionAhead(s, scan) {
        forall t | t in s'.rows && s'.rows[t].scan == scan ensures s'.rows[t].status == SUCCESS {
          NewTasks(s, e, t);
          SuccessIsFinal(s, m, lost, e, t);
        }
      }
    }
  }

  /** COMPLETED is true, or about to be, at every moment of the run. */
  ghost predicate AlwaysTrue(s: State, es: seq<Event>)
    requires IsRun(s, es)
    decreases |es|
  {
    CompletedIsTrue(s) && (es == [] || AlwaysTrue(Next(s, es[0]), es[1..]))
  }

  /** The submission that makes COMPLETED false: the scan keeps its status and has a queued task. */
  lemma LateSubmissionBreaks(s: State, scan: ScanId, tasks: seq<TaskSpec>)
    requires Enabled(s, Submit(scan, tasks)) && tasks != [] && CompletionAhead(s, scan)
    ensures var s' := Next(s, Submit(scan, tasks));
      && CompletionAhead(s', scan) && !AllSuccess(s'.rows, scan)
      && (s.scans[scan] == Completed ==> scan in s'.scans && s'.scans[scan] == Completed)
  {
    var s' := Next(s, Submit(scan, tasks));
    NewRowsAt(scan, tasks, 0);
    assert tasks[0].id in s'.rows && s'.rows[tasks[0].id] == Row(scan, QUEUED, 0, tasks[0].retryCount);
    if s.scans[scan] != Completed {
      var p :| p in s.procs && p.pc.Judged? && p.pc.verdict == Some(Completed) && BelongsTo(s.rows, p.payload.task, scan);
      SubmittedRows(s, scan, tasks, p.payload.task);
      assert p in s'.procs && BelongsTo(s'.rows, p.payload.task, scan);
    }
  }

  lemma StepTrueIff(s: State, m: map<TaskId, Token>, lost: set<TaskId>, e: Event)
    requires Inv(s, m, lost) && Enabled(s, e) && CompletedIsTrue(s)
    ensures CompletedIsTrue(Next(s, e)) <==> NotLate(s, e)
  {
    if NotLate(s, e) {
      StepCompleted(s, m, lost, e);
    } else {
      LateSubmissionBreaks(s, e.scan, e.tasks);
    }
  }

  lemma {:induction false} AlwaysTrueIff(s: State, m: map<TaskId, Token>, lost: set<TaskId>, es: seq<Event>)
    requires Inv(s, m, lost) && CompletedIsTrue(s) && IsRun(s, es)
    ensures AlwaysTrue(s, es) <==> NoLateSubmission(s, es)
    decreases |es|
  {
    if es != [] {
      hide Next, Enabled, Inv, CompletedIsTrue, NotLate;
      RunUnfolds(s, es);
      StepTrueIff(s, m, lost, es[0]);
      if NotLate(s, es[0]) {
        var m1 := StepInv(s, m, lost, es[0]);
        AlwaysTrueIff(Next(s, es[0]), m1, lost + DroppedBy(s, es[0]), es[1..]);
      }
    }
  }

  /** At every moment of a run, stale evaluations or not, all tasks of a scan that is COMPLETED or about to be are
      SUCCESS, if and only if nothing is submitted to scans that are COMPLETED or about to be. */
  lemma CompletionIsTrueIff(es: seq<Event>)
    requires IsRun(INITIAL, es)
    ensures AlwaysTrue(INITIAL, es) <==> NoLateSubmission(INITIAL, es)
  {
    hide IsRun, NoLateSubmission, Inv, AlwaysTrue;
    InitialInv();
    AlwaysTrueIff(INITIAL, map[], {}, es);
  }

  // ------------------------------------------------------------------
  // Exactly when the status COMPLETED can be believed
  // ------------------------------------------------------------------

  /** What the scans table says of completed scans is true. */
  ghost predicate Honest(s: State) {
    forall scan :: scan in s.scans && s.scans[scan] == Completed ==> AllSuccess(s.rows, scan)
  }

  /** No task for a COMPLETED scan, and no commit of a completion that the statuses no longer call for. */
  predicate Harmless(s: State, e: Event)
    requires Enabled(s, e)
  {
    && (e.Submit? && e.tasks != [] ==> s.scans[e.scan] != Completed)
    && (e.WriteVerdict? && s.procs[e.i].pc.verdict == Some(Completed) ==> Isolated(s, e))
  }

  predicate HarmlessRun(s: State, es: seq<Event>)
    requires IsRun(s, es)
    decreases |es|
  {
    es == [] || (Harmless(s, es[0]) && HarmlessRun(Next(s, es[0]), es[1..]))
  }

  ghost predicate AlwaysHonest(s: State, es: seq<Event>)
    requires IsRun(s, es)
    decreases |es|
  {
    Honest(s) && (es == [] || AlwaysHonest(Next(s, es[0]), es[1..]))
  }

  lemma StepScansExist(s: State, e: Event)
    requires Enabled(s, e) && ScansExist(s)
    ensures ScansExist(Next(s, e))
  {
    forall t | t in Next(s, e).rows
      ensures Next(s, e).rows[t].scan in Next(s, e).scans
    {
      NewTasks(s, e, t);
      ScansGrow(s, e);
    }
  }

  lemma ScansGrow(s: State, e: Event)
    requires Enabled(s, e)
    ensures s.scans.Keys <= Next(s, e).scans.Keys
    ensures e.Submit? ==> e.scan in s.scans
  {
  }

  lemma NewTaskIsSubmitted(s: State, e: Event, scan: ScanId)
    requires Enabled(s, e) && Harmless(s, e) && scan in s.scans && s.scans[scan] == Completed
    ensures e.Submit? && e.tasks != [] ==> e.scan != scan
  {
  }

  lemma NewlyCompleted(s: State, e: Event, scan: ScanId)
    requires Enabled(s, e) && Harmless(s, e) && ScansExist(s)
    requires scan in Next(s, e).scans && Next(s, e).scans[scan] == Completed
    requires scan in s.scans ==> s.scans[scan] != Completed
    ensures AllSuccess(Next(s, e).rows, scan)
  {
    CompletedIsTrueWhenWritten(s, e, scan);
    hide Verdict, AllSuccess;
    assert Isolated(s, e);
  }

  lemma HarmlessStep(s: State, m: map<TaskId, Token>, lost: set<TaskId>, e: Event)
    requires Inv(s, m, lost) && Enabled(s, e) && ScansExist(s) && Honest(s) && Harmless(s, e)
    ensures Honest(Next(s, e))
  {
    hide Next, Enabled, Inv, Harmless;
    var s' := Next(s, e);
    forall scan | scan in s'.scans && s'.scans[scan] == Completed ensures AllSuccess(s'.rows, scan) {
      if scan in s.scans && s.scans[scan] == Completed {
        NewTaskIsSubmitted(s, e, scan);
        forall t | t in s'.rows && s'.rows[t].scan == scan ensures s'.rows[t].status == SUCCESS {
          NewTasks(s, e, t);
          SuccessIsFinal(s, m, lost, e, t);
        }
      } else {
        NewlyCompleted(s, e, scan);
      }
    }
  }

  lemma HarmfulStep(s: State, m: map<TaskId, Token>, lost: set<TaskId>, e: Event)
    requires Inv(s, m, lost) && Enabled(s, e) && ScansExist(s) && !Harmless(s, e)
    ensures !Honest(Next(s, e))
  {
    if e.Submit? {
      LateSubmissionBreaks(s, e.scan, e.tasks);
    } else {
      InvAgreesAt(s, m, lost, e.i);
      StaleCompletion(s, e.i);
    }
  }

  lemma StaleCompletion(s: State, i: nat)
    requires Enabled(s, WriteVerdict(i)) && s.procs[i].pc.verdict == Some(Completed) && !Isolated(s, WriteVerdict(i))
    requires s.procs[i].payload.task in s.rows && ScansExist(s)
    ensures !Honest(Next(s, WriteVerdict(i)))
  {
    var s', t := Next(s, WriteVerdict(i)), s.procs[i].payload.task;
    var scan := s.rows[t].scan;
    assert s'.rows == s.rows && scan in s'.scans && s'.scans[scan] == Completed;
  }

  lemma {:induction false} AlwaysHonestIff(s: State, m: map<TaskId, Token>, lost: set<TaskId>, es: seq<Event>)
    requires Inv(s, m, lost) && ScansExist(s) && Honest(s) && IsRun(s, es)
    ensures AlwaysHonest(s, es) <==> HarmlessRun(s, es)
    decreases |es|
  {
    if es != [] {
      hide Next, Enabled, Inv, ScansExist, Honest, Harmless;
      RunUnfolds(s, es);
      if Harmless(s, es[0]) {
        HarmlessStep(s, m, lost, es[0]);
        StepScansExist(s, es[0]);
        var m1 := StepInv(s, m, lost, es[0]);
        AlwaysHonestIff(Next(s, es[0]), m1, lost + DroppedBy(s, es[0]), es[1..]);
      } else {
        HarmfulStep(s, m, lost, es[0]);
        NotHonest(Next(s, es[0]), es[1..]);
      }
    }
  }

  lemma NotHonest(s: State, es: seq<Event>)
    requires IsRun(s, es) && !Honest(s)
    ensures !AlwaysHonest(s, es)
  {
  }

  /** At every moment of a run all COMPLETED scans have only SUCCESS tasks, if and only if no task is submitted to a
      COMPLETED scan and no evaluation commits a completion the statuses no longer call for. */
  lemma CompletedIsHonestIff(es: seq<Event>)
    requires IsRun(INITIAL, es)
    ensures AlwaysHonest(INITIAL, es) <==> HarmlessRun(INITIAL, es)
  {
    hide IsRun, HarmlessRun, Inv, AlwaysHonest;
    InitialInv();
    AlwaysHonestIff(INITIAL, map[], {}, es);
  }
}
