/** When FAILED is the last word on a task's row, and on what the statuses of a scan call for. */
module InPassing {
  import opened TaskQueue
  import opened Pipeline
  import opened Conservation
  import opened Agreement
  import opened ScanVerdict

  // ------------------------------------------------------------------
  // Rows
  // ------------------------------------------------------------------

  /** A failed request has been saved, and the process has still to come to the retry it may make. */
  predicate RetryAhead(p: Proc) {
    && p.payload.attempt < p.payload.maxRetries
    && (p.pc == Saved(HttpFailed) || p.pc == Evaluated(HttpFailed) || (p.pc.Judged? && p.pc.end == HttpFailed))
  }

  predicate Passing(s: State, t: TaskId) { exists p :: p in s.procs && p.payload.task == t && RetryAhead(p) }

  predicate IsFailed(s: State, t: TaskId) { t in s.rows && s.rows[t].status == FAILED }

  /** No continuation of the run writes the row again. */
  ghost predicate FailedForGood(s: State, t: TaskId) {
    forall es :: IsRun(s, es) ==> IsFailed(RunFrom(s, es), t)
  }

  /** The process of a failed row has saved, and goes through its evaluation or gives up. */
  lemma FailedProcess(s: State, i: nat)
    requires At(s, i) && AgreesAt(s, i) && IsFailed(s, s.procs[i].payload.task)
    ensures var pc := s.procs[i].pc;
      pc.Saved? || pc.Judged? || pc.Evaluated? || pc.FailMarked?
  {
  }

  lemma OwnRowStays(s: State, e: Event)
    requires Enabled(s, e) && MovesProc(e) && AgreesAt(s, e.i)
    requires IsFailed(s, s.procs[e.i].payload.task) && !RetryAhead(s.procs[e.i])
    ensures IsFailed(Next(s, e), s.procs[e.i].payload.task) && !RetryAhead(Next(s, e).procs[e.i])
  {
    FailedProcess(s, e.i);
  }

  lemma ProcStepStays(s: State, e: Event, t: TaskId)
    requires Enabled(s, e) && MovesProc(e) && AgreesAt(s, e.i) && IsFailed(s, t) && !Passing(s, t)
    ensures IsFailed(Next(s, e), t) && !Passing(Next(s, e), t)
  {
    ProcStepFrame(s, e);
    var s', i := Next(s, e), e.i;
    assert s.procs[i] in s.procs;
    if s.procs[i].payload.task == t {
      OwnRowStays(s, e);
    }
    hide Next, Enabled, Agree;
    forall p | p in s'.procs && p.payload.task == t ensures !RetryAhead(p) {
      var j :| 0 <= j < |s'.procs| && s'.procs[j] == p;
      if j != i {
        assert p in s.procs;
      }
    }
  }

  lemma OtherStepStays(s: State, e: Event, t: TaskId)
    requires Enabled(s, e) && !MovesProc(e) && IsFailed(s, t) && !Passing(s, t)
    ensures IsFailed(Next(s, e), t) && !Passing(Next(s, e), t)
  {
    var s' := Next(s, e);
    if e.Submit? {
      SubmittedRows(s, e.scan, e.tasks, t);
    }
    forall p | p in s'.procs && p !in s.procs ensures p.pc.Popped? {
      NewProcIsPopped(s, e, p);
    }
  }

  lemma NewProcIsPopped(s: State, e: Event, p: Proc)
    requires Enabled(s, e) && !MovesProc(e) && p in Next(s, e).procs && p !in s.procs
    ensures p.pc.Popped?
  {
  }

  lemma StepStays(s: State, m: map<TaskId, Token>, lost: set<TaskId>, e: Event, t: TaskId)
    requires Inv(s, m, lost) && Enabled(s, e) && IsFailed(s, t) && !Passing(s, t)
    ensures IsFailed(Next(s, e), t) && !Passing(Next(s, e), t)
  {
    hide Next, Enabled, Passing, Inv;
    if MovesProc(e) {
      ProcIndex(s, e);
      InvAgreesAt(s, m, lost, e.i);
      ProcStepStays(s, e, t);
    } else {
      OtherStepStays(s, e, t);
    }
  }

  lemma ProcIndex(s: State, e: Event)
    requires Enabled(s, e) && MovesProc(e)
    ensures At(s, e.i)
  {
  }

  lemma {:induction false} RunStays(s: State, m: map<TaskId, Token>, lost: set<TaskId>, es: seq<Event>, t: TaskId)
    requires Inv(s, m, lost) && IsRun(s, es) && IsFailed(s, t) && !Passing(s, t)
    ensures IsFailed(RunFrom(s, es), t) && !Passing(RunFrom(s, es), t)
    decreases |es|
  {
    if es != [] {
      hide Next, Enabled, Inv, Passing, IsFailed;
      RunUnfolds(s, es);
      StepStays(s, m, lost, es[0], t);
      var m1 := StepInv(s, m, lost, es[0]);
      RunStays(Next(s, es[0]), m1, lost + DroppedBy(s, es[0]), es[1..], t);
    }
  }

  lemma JudgingKeeps(s: State, i: nat)
    requires At(s, i) && RetryAhead(s.procs[i]) && !s.procs[i].pc.Evaluated?
    ensures var e := if s.procs[i].pc.Saved? then ReadStatuses(i) else WriteVerdict(i);
      && Enabled(s, e)
      && var s' := Next(s, e);
      && s' == s.(procs := s'.procs, scans := s'.scans) && s.scans.Keys <= s'.scans.Keys
      && s'.procs == s.procs[i := s'.procs[i]]
      && s'.procs[i].payload == s.procs[i].payload && RetryAhead(s'.procs[i])
      && (if s.procs[i].pc.Saved? then s'.procs[i].pc.Judged? else s'.procs[i].pc.Evaluated?)
  {
    hide JudgementOf;
  }

  /** A failed process with a retry ahead can go on to it, without any submission. */
  lemma {:induction false} LeadsToRetry(s: State, i: nat) returns (es: seq<Event>)
    requires At(s, i) && RetryAhead(s.procs[i]) && s.procs[i].payload.task in s.rows
    ensures IsRun(s, es) && forall e :: e in es ==> !e.Submit?
    ensures var s', p := RunFrom(s, es), s.procs[i].payload;
      && s' == s.(procs := s.procs[i := Proc(p.(attempt := p.attempt + 1), RetryMarked)],
                  rows := s.rows[p.task := s.rows[p.task].(status := RETRYING)], scans := s'.scans)
      && s.scans.Keys <= s'.scans.Keys
    decreases if s.procs[i].pc.Saved? then 2 else if s.procs[i].pc.Judged? then 1 else 0
  {
    var e := if s.procs[i].pc.Saved? then ReadStatuses(i) else if s.procs[i].pc.Judged? then WriteVerdict(i)
             else HandleRetry(i);
    var s' := Next(s, e);
    var rest := [];
    if !s.procs[i].pc.Evaluated? {
      JudgingKeeps(s, i);
      hide Next, Enabled;
      rest := LeadsToRetry(s', i);
      assert s'.procs[i := Proc(s.procs[i].payload.(attempt := s.procs[i].payload.attempt + 1), RetryMarked)]
          == s.procs[i := Proc(s.procs[i].payload.(attempt := s.procs[i].payload.attempt + 1), RetryMarked)];
    }
    es := [e] + rest;
    assert es[1..] == rest;
  }

  /** A FAILED row is final if and only if its task is not on the way to a retry. */
  lemma FailedIsFinalIff(s: State, m: map<TaskId, Token>, lost: set<TaskId>, t: TaskId)
    requires Inv(s, m, lost) && IsFailed(s, t)
    ensures FailedForGood(s, t) <==> !Passing(s, t)
  {
    if Passing(s, t) {
      var p :| p in s.procs && p.payload.task == t && RetryAhead(p);
      var i :| 0 <= i < |s.procs| && s.procs[i] == p;
      var es := LeadsToRetry(s, i);
      assert !IsFailed(RunFrom(s, es), t);
    } else {
      forall es | IsRun(s, es) ensures IsFailed(RunFrom(s, es), t) {
        RunStays(s, m, lost, es, t);
      }
    }
  }

  /** Where the task of a FAILED row is: on the way to a retry; or dead, given up, refused by the limiter, or out of
      retries. */
  lemma FailedPlaces(s: State, m: map<TaskId, Token>, lost: set<TaskId>, t: TaskId)
    requires Inv(s, m, lost) && IsFailed(s, t)
    ensures t in m && m[t].payload.task == t
    ensures var pl := m[t].place;
      if Passing(s, t) then pl.InFlight? && RetryAhead(Proc(m[t].payload, pl.pc))
      else
        || pl.DeadLettered? || pl == InFlight(FailMarked)
        || (pl.InFlight? && (pl.pc.Saved? || pl.pc.Judged? || pl.pc.Evaluated?)
            && (pl.pc.end == RateDenied || (pl.pc.end == HttpFailed && m[t].payload.attempt >= m[t].payload.maxRetries)))
  {
    assert Agree(s.rows[t], s.history[t], m[t]);
    var pl := m[t].place;
    if Passing(s, t) {
      var p :| p in s.procs && p.payload.task == t && RetryAhead(p);
      ProcessInMap(s, m, p);
    } else if pl.InFlight? {
      assert Tokens(s)[m[t]] == 1;
      InFlightIsProcess(s, m[t]);
    }
  }

  lemma InFlightIsProcess(s: State, tk: Token)
    requires tk in Tokens(s) && tk.place.InFlight?
    ensures Proc(tk.payload, tk.place.pc) in s.procs
  {
    assert tk !in multiset(ListTokens(Critical, s.lists.critical)) && tk !in multiset(ListTokens(High, s.lists.high));
    assert tk !in multiset(ListTokens(Medium, s.lists.medium)) && tk !in multiset(ListTokens(Low, s.lists.low));
    assert tk !in multiset(WaitingTokens(s.delayed));
    assert tk !in multiset(DoneTokens(s.finished)) && tk !in multiset(DeadTokens(s.dlq));
    assert tk in multiset(ProcTokens(s.procs));
    var i :| 0 <= i < |s.procs| && ProcTokens(s.procs)[i] == tk;
    assert s.procs[i] == Proc(tk.payload, tk.place.pc);
  }

  // ------------------------------------------------------------------
  // What the statuses call for
  // ------------------------------------------------------------------

  predicate NoTasksFor(es: seq<Event>, scan: ScanId) {
    forall e :: e in es && e.Submit? && e.tasks != [] ==> e.scan != scan
  }

  /** No continuation without new tasks makes the statuses of the scan call for anything but FAILED. */
  ghost predicate VerdictForGood(s: State, scan: ScanId) {
    forall es :: IsRun(s, es) && NoTasksFor(es, scan) ==> Verdict(RunFrom(s, es).rows, scan) == Some(ScanFailed)
  }

  ghost predicate NonePassing(s: State, scan: ScanId) {
    forall t :: BelongsTo(s.rows, t, scan) ==> !Passing(s, t)
  }

  lemma RowFrozen(s: State, m: map<TaskId, Token>, lost: set<TaskId>, e: Event, scan: ScanId, t: TaskId)
    requires Inv(s, m, lost) && Enabled(s, e) && BelongsTo(s.rows, t, scan)
    requires s.rows[t].status == SUCCESS || (s.rows[t].status == FAILED && !Passing(s, t))
    ensures BelongsTo(Next(s, e).rows, t, scan) && Next(s, e).rows[t].status == s.rows[t].status
    ensures !Passing(Next(s, e), t)
  {
    if s.rows[t].status == SUCCESS {
      SuccessIsFinal(s, m, lost, e, t);
      var m1 := StepInv(s, m, lost, e);
      SuccessNotPassing(Next(s, e), m1, lost + DroppedBy(s, e), t);
    } else {
      StepStays(s, m, lost, e, t);
      hide Next, Passing;
      NewTasks(s, e, t);
    }
  }

  lemma SuccessNotPassing(s: State, m: map<TaskId, Token>, lost: set<TaskId>, t: TaskId)
    requires Inv(s, m, lost) && t in s.rows && s.rows[t].status == SUCCESS
    ensures !Passing(s, t)
  {
    hide Inv, Agree;
    forall p | p in s.procs && RetryAhead(p) ensures p.payload.task != t {
      var i :| 0 <= i < |s.procs| && s.procs[i] == p;
      InvAgreesAt(s, m, lost, i);
      AheadIsFailed(s, i);
    }
  }

  lemma AheadIsFailed(s: State, i: nat)
    requires At(s, i) && AgreesAt(s, i) && RetryAhead(s.procs[i])
    ensures IsFailed(s, s.procs[i].payload.task)
  {
  }

  lemma CalledForFailed(rows: map<TaskId, Row>, scan: ScanId)
    requires Verdict(rows, scan) == Some(ScanFailed)
    ensures forall t :: BelongsTo(rows, t, scan) ==> rows[t].status in {SUCCESS, FAILED}
    ensures exists t :: BelongsTo(rows, t, scan) && rows[t].status == FAILED
  {
    var t :| t in rows && rows[t].scan == scan && rows[t].status != SUCCESS;
    assert BelongsTo(rows, t, scan);
  }

  lemma FailedCalledFor(rows: map<TaskId, Row>, scan: ScanId, t: TaskId)
    requires forall x :: BelongsTo(rows, x, scan) ==> rows[x].status in {SUCCESS, FAILED}
    requires BelongsTo(rows, t, scan) && rows[t].status == FAILED
    ensures Verdict(rows, scan) == Some(ScanFailed)
  {
    assert AllTerminal(rows, scan) by {
      forall x | x in rows && rows[x].scan == scan ensures rows[x].status in {SUCCESS, FAILED} {
        assert BelongsTo(rows, x, scan);
      }
    }
  }

  lemma StepFrozen(s: State, m: map<TaskId, Token>, lost: set<TaskId>, e: Event, scan: ScanId)
    requires Inv(s, m, lost) && Enabled(s, e) && Verdict(s.rows, scan) == Some(ScanFailed) && NonePassing(s, scan)
    requires e.Submit? && e.tasks != [] ==> e.scan != scan
    ensures Verdict(Next(s, e).rows, scan) == Some(ScanFailed) && NonePassing(Next(s, e), scan)
  {
    hide Next, Enabled, Inv, Passing, Verdict;
    CalledForFailed(s.rows, scan);
    var s' := Next(s, e);
    forall t | BelongsTo(s'.rows, t, scan) ensures s'.rows[t].status in {SUCCESS, FAILED} && !Passing(s', t) {
      NewTasks(s, e, t);
      RowFrozen(s, m, lost, e, scan, t);
    }
    var t :| BelongsTo(s.rows, t, scan) && s.rows[t].status == FAILED;
    RowFrozen(s, m, lost, e, scan, t);
    FailedCalledFor(s'.rows, scan, t);
  }

  lemma {:induction false} RunFrozen(s: State, m: map<TaskId, Token>, lost: set<TaskId>, es: seq<Event>, scan: ScanId)
    requires Inv(s, m, lost) && IsRun(s, es) && Verdict(s.rows, scan) == Some(ScanFailed) && NonePassing(s, scan)
    requires NoTasksFor(es, scan)
    ensures Verdict(RunFrom(s, es).rows, scan) == Some(ScanFailed)
    decreases |es|
  {
    if es != [] {
      hide Next, Enabled, Inv, NonePassing, Verdict;
      RunUnfolds(s, es);
      assert es[0] in es && forall e :: e in es[1..] ==> e in es;
      StepFrozen(s, m, lost, es[0], scan);
      var m1 := StepInv(s, m, lost, es[0]);
      RunFrozen(Next(s, es[0]), m1, lost + DroppedBy(s, es[0]), es[1..], scan);
    }
  }

  /** Where the statuses call for FAILED, they always will if and only if no task of the scan is on the way to a
      retry. */
  lemma VerdictIsFinalIff(s: State, m: map<TaskId, Token>, lost: set<TaskId>, scan: ScanId)
    requires Inv(s, m, lost) && Verdict(s.rows, scan) == Some(ScanFailed)
    ensures VerdictForGood(s, scan) <==> NonePassing(s, scan)
  {
    hide Inv, Passing, Verdict, IsRun, RunFrom;
    if NonePassing(s, scan) {
      forall es | IsRun(s, es) && NoTasksFor(es, scan) ensures Verdict(RunFrom(s, es).rows, scan) == Some(ScanFailed) {
        RunFrozen(s, m, lost, es, scan);
      }
    } else {
      var t :| BelongsTo(s.rows, t, scan) && Passing(s, t);
      var es := LeadsToNoVerdict(s, scan, t);
    }
  }

  lemma LeadsToNoVerdict(s: State, scan: ScanId, t: TaskId) returns (es: seq<Event>)
    requires BelongsTo(s.rows, t, scan) && Passing(s, t)
    ensures IsRun(s, es) && NoTasksFor(es, scan) && Verdict(RunFrom(s, es).rows, scan) == None
  {
    hide RetryAhead, IsRun, RunFrom;
    var p :| p in s.procs && p.payload.task == t && RetryAhead(p);
    var i :| 0 <= i < |s.procs| && s.procs[i] == p;
    es := LeadsToRetry(s, i);
    ActiveTaskNoVerdict(RunFrom(s, es).rows, t);
  }
}
