/** Which tasks can no longer succeed, and the scans this leaves FAILED for good. */
module Hope {
  import opened TaskQueue
  import opened Pipeline
  import opened Conservation
  import opened Agreement
  import opened ScanVerdict
  import opened InPassing
  import opened SplitMove

  /** How many of the entries have this score. */
  function Ties(es: seq<Entry>, score: real): nat {
    if es == [] then 0 else (if es[0].score == score then 1 else 0) + Ties(es[1..], score)
  }

  /** The task is delayed, and fewer entries than a move reads are ahead of it with the same score; the others ahead
      can be moved before. */
  predicate HasPlace(delayed: seq<Entry>, t: TaskId) {
    exists j :: 0 <= j < |delayed| && delayed[j].payload.task == t && Ties(delayed[..j], delayed[j].score) < MOVE_LIMIT
  }

  /** The process has succeeded, is to send its request, or has a retry ahead. */
  predicate CanSucceed(p: Proc) {
    match p.pc
    case Executed(ok) => ok || p.payload.attempt < p.payload.maxRetries
    case Saved(end) => end == Succeeded || RetryAhead(p)
    case Judged(end, _) => end == Succeeded || RetryAhead(p)
    case Evaluated(end) => end == Succeeded || RetryAhead(p)
    case Denied => false
    case FailMarked => false
    case _ => true
  }

  predicate Trying(s: State, t: TaskId) { exists p :: p in s.procs && p.payload.task == t && CanSucceed(p) }

  /** The task has finished or may still do so. */
  predicate Hopeful(s: State, t: TaskId) {
    InFinished(s, t) || InLists(s.lists, t) || HasPlace(s.delayed, t) || Trying(s, t)
  }

  // ------------------------------------------------------------------
  // Where an entry was before
  // ------------------------------------------------------------------

  lemma {:induction false} TiesBound(es: seq<Entry>, score: real)
    ensures Ties(es, score) <= |es|
  {
    if es != [] {
      TiesBound(es[1..], score);
    }
  }

  /** Entries of one score are due together. */
  lemma {:induction false} TiesTogether(es: seq<Entry>, now: real, score: real)
    ensures Ties(if 0.0 <= score <= now then Due(es, now) else NotDue(es, now), score) == Ties(es, score)
  {
    if es != [] {
      TiesTogether(es[1..], now, score);
      assert ([es[0]] + Due(es[1..], now))[1..] == Due(es[1..], now);
      assert ([es[0]] + NotDue(es[1..], now))[1..] == NotDue(es[1..], now);
      assert [] + Due(es[1..], now) == Due(es[1..], now) && [] + NotDue(es[1..], now) == NotDue(es[1..], now);
    }
  }

  lemma {:induction false} DueIndex(es: seq<Entry>, now: real, k: nat) returns (j: nat)
    requires k < |Due(es, now)|
    ensures j < |es| && es[j] == Due(es, now)[k] && Due(es[..j], now) == Due(es, now)[..k]
  {
    if IsDue(es[0], now) && k == 0 {
      j := 0;
    } else {
      var d := if IsDue(es[0], now) then 1 else 0;
      assert Due(es, now) == (if IsDue(es[0], now) then [es[0]] else []) + Due(es[1..], now);
      j := DueIndex(es[1..], now, k - d);
      assert es[..j + 1][0] == es[0] && es[..j + 1][1..] == es[1..][..j];
      j := j + 1;
    }
  }

  lemma {:induction false} NotDueIndex(es: seq<Entry>, now: real, k: nat) returns (j: nat)
    requires k < |NotDue(es, now)|
    ensures j < |es| && es[j] == NotDue(es, now)[k] && NotDue(es[..j], now) == NotDue(es, now)[..k]
  {
    if !IsDue(es[0], now) && k == 0 {
      j := 0;
    } else {
      var d := if IsDue(es[0], now) then 0 else 1;
      assert NotDue(es, now) == (if IsDue(es[0], now) then [] else [es[0]]) + NotDue(es[1..], now);
      j := NotDueIndex(es[1..], now, k - d);
      assert es[..j + 1][0] == es[0] && es[..j + 1][1..] == es[1..][..j];
      j := j + 1;
    }
  }

  lemma {:induction false} InsertIndex(es: seq<Entry>, e: Entry, k: nat, score: real) returns (j: nat)
    requires k < |Insert(es, e)| && Insert(es, e)[k] != e
    ensures j < |es| && es[j] == Insert(es, e)[k] && Ties(es[..j], score) <= Ties(Insert(es, e)[..k], score)
  {
    if es != [] && es[0].score <= e.score {
      if k == 0 {
        j := 0;
      } else {
        var all := Insert(es, e);
        assert all == [es[0]] + Insert(es[1..], e);
        j := InsertIndex(es[1..], e, k - 1, score);
        assert es[..j + 1][0] == es[0] && es[..j + 1][1..] == es[1..][..j];
        assert all[..k][0] == es[0] && all[..k][1..] == Insert(es[1..], e)[..k - 1];
        j := j + 1;
      }
    } else {
      j := k - 1;
      assert Insert(es, e) == [e] + es;
      assert Insert(es, e)[..k][1..] == es[..j];
    }
  }

  /** What a move reads had its place. */
  lemma ReadHadPlace(delayed: seq<Entry>, now: real, t: TaskId)
    requires InList(ReadBatch(delayed, now), t)
    ensures HasPlace(delayed, t)
  {
    var batch := ReadBatch(delayed, now);
    var p :| p in batch && p.task == t;
    var k :| 0 <= k < |batch| && batch[k] == p;
    var j := DueIndex(delayed, now, k);
    DueMembers(delayed, now, delayed[j]);
    TiesTogether(delayed[..j], now, delayed[j].score);
    TiesBound(Due(delayed[..j], now), delayed[j].score);
  }

  lemma LeftHadPlace(delayed: seq<Entry>, now: real, t: TaskId)
    requires HasPlace(NotDue(delayed, now), t)
    ensures HasPlace(delayed, t)
  {
    var left := NotDue(delayed, now);
    var k :| 0 <= k < |left| && left[k].payload.task == t && Ties(left[..k], left[k].score) < MOVE_LIMIT;
    var j := NotDueIndex(delayed, now, k);
    DueMembers(delayed, now, delayed[j]);
    TiesTogether(delayed[..j], now, delayed[j].score);
  }

  lemma OthersHadPlace(delayed: seq<Entry>, e: Entry, t: TaskId)
    requires HasPlace(Insert(delayed, e), t) && t != e.payload.task
    ensures HasPlace(delayed, t)
  {
    var all := Insert(delayed, e);
    var k :| 0 <= k < |all| && all[k].payload.task == t && Ties(all[..k], all[k].score) < MOVE_LIMIT;
    var j := InsertIndex(delayed, e, k, all[k].score);
  }

  // ------------------------------------------------------------------
  // Hope is never regained
  // ------------------------------------------------------------------

  lemma CouldBefore(s: State, e: Event)
    requires Enabled(s, e) && MovesProc(e) && CanSucceed(Next(s, e).procs[e.i])
    ensures CanSucceed(s.procs[e.i])
  {
    hide JudgementOf, Backoff, SetStatus, SaveRow;
  }

  lemma ProcHope(s: State, e: Event, t: TaskId)
    requires Enabled(s, e) && MovesProc(e) && Hopeful(Next(s, e), t)
    ensures Hopeful(s, t)
  {
    ProcStepFrame(s, e);
    var s', i := Next(s, e), e.i;
    hide Next, Enabled, CanSucceed, HasPlace, InLists;
    if Trying(s', t) {
      var p :| p in s'.procs && p.payload.task == t && CanSucceed(p);
      var j :| 0 <= j < |s'.procs| && s'.procs[j] == p;
      if j == i {
        CouldBefore(s, e);
      }
      assert s.procs[j] in s.procs;
    }
  }

  lemma DropIsSubset(ps: seq<Proc>, i: nat)
    requires i < |ps|
    ensures forall p :: p in DropProc(ps, i) ==> p in ps
  {
  }

  lemma ScheduleHope(s: State, m: map<TaskId, Token>, i: nat, t: TaskId)
    requires Represents(Tokens(s), m) && Enabled(s, Schedule(i)) && Hopeful(Next(s, Schedule(i)), t)
    ensures Hopeful(s, t)
  {
    var p := s.procs[i];
    DropIsSubset(s.procs, i);
    NotYetDelayed(s, m, i);
    hide HasPlace, InLists, Represents;
    if t == p.payload.task {
      assert p in s.procs && CanSucceed(p);
    } else if HasPlace(Next(s, Schedule(i)).delayed, t) {
      OthersHadPlace(s.delayed, Entry(p.payload, p.pc.score), t);
    }
  }

  lemma MoveHope(s: State, now: real, t: TaskId)
    requires Enabled(s, MoveDue(now)) && Hopeful(Next(s, MoveDue(now)), t)
    ensures Hopeful(s, t)
  {
    hide InLists, HasPlace, ReadBatch, NotDue;
    if InLists(Enqueue(s.lists, ReadBatch(s.delayed, now)), t) && !InLists(s.lists, t) {
      if !InList(ReadBatch(s.delayed, now), t) {
        EnqueueBringsOnly(s.lists, ReadBatch(s.delayed, now), t);
      }
      ReadHadPlace(s.delayed, now, t);
    } else if HasPlace(NotDue(s.delayed, now), t) {
      LeftHadPlace(s.delayed, now, t);
    }
  }

  lemma SubmitHope(s: State, scan: ScanId, tasks: seq<TaskSpec>, t: TaskId)
    requires Enabled(s, Submit(scan, tasks)) && t in s.rows && Hopeful(Next(s, Submit(scan, tasks)), t)
    ensures Hopeful(s, t)
  {
    var ps := NewPayloads(scan, tasks);
    hide InLists, HasPlace;
    if InLists(Enqueue(s.lists, ps), t) && !InLists(s.lists, t) {
      assert !InList(ps, t);
      EnqueueBringsOnly(s.lists, ps, t);
    }
  }

  lemma PopHope(s: State, draw: real, t: TaskId)
    requires Enabled(s, Pop(draw)) && Hopeful(Next(s, Pop(draw)), t)
    ensures Hopeful(s, t)
  {
    hide HasPlace;
    match FirstNonEmpty(s.lists, PollOrder(draw))
    case None =>
    case Some(q) =>
      var p := s.lists.Of(q)[0];
      hide FirstNonEmpty, PollOrder, CanSucceed;
      assert forall x :: x in s.lists.Of(q)[1..] ==> x in s.lists.Of(q);
      assert p in s.lists.Of(q);
  }

  lemma LeaveHope(s: State, e: Event, t: TaskId)
    requires Enabled(s, e) && (e.Finish? || e.SendToDlq?) && Hopeful(Next(s, e), t)
    ensures Hopeful(s, t)
  {
    hide HasPlace, InLists;
    DropIsSubset(s.procs, e.i);
    if InFinished(Next(s, e), t) && !InFinished(s, t) {
      assert s.procs[e.i] in s.procs && CanSucceed(s.procs[e.i]) && s.procs[e.i].payload.task == t;
    }
  }

  lemma IdleHope(s: State, e: Event, t: TaskId)
    requires Enabled(s, e) && (e.CreateScan? || e.Tick?) && Hopeful(Next(s, e), t)
    ensures Hopeful(s, t)
  {
    hide HasPlace, InLists;
  }

  /** No step of anyone makes a task hopeful that was not. */
  lemma HopeIsNotRegained(s: State, m: map<TaskId, Token>, lost: set<TaskId>, e: Event, t: TaskId)
    requires Inv(s, m, lost) && Enabled(s, e) && t in s.rows && Hopeful(Next(s, e), t)
    ensures Hopeful(s, t)
  {
    hide Hopeful, Next, Enabled, Linked, Represents;
    match e
    case CreateScan(_) => IdleHope(s, e, t);
    case Tick(_) => IdleHope(s, e, t);
    case Submit(scan, tasks) => SubmitHope(s, scan, tasks, t);
    case MoveDue(now) => MoveHope(s, now, t);
    case Pop(draw) => PopHope(s, draw, t);
    case Finish(i) => LeaveHope(s, e, t);
    case Schedule(i) => ScheduleHope(s, m, i, t);
    case SendToDlq(i) => LeaveHope(s, e, t);
    case _ => ProcEvents(e); ProcHope(s, e, t);
  }

  // ------------------------------------------------------------------
  // What the database says of hope
  // ------------------------------------------------------------------

  lemma DoneIsFinished(s: State, tk: Token)
    requires tk in Tokens(s) && tk.place.Done?
    ensures tk.payload in s.finished
  {
    assert tk !in multiset(ListTokens(Critical, s.lists.critical)) && tk !in multiset(ListTokens(High, s.lists.high));
    assert tk !in multiset(ListTokens(Medium, s.lists.medium)) && tk !in multiset(ListTokens(Low, s.lists.low));
    assert tk !in multiset(WaitingTokens(s.delayed)) && tk !in multiset(ProcTokens(s.procs));
    assert tk !in multiset(DeadTokens(s.dlq));
    assert tk in multiset(DoneTokens(s.finished));
    var i :| 0 <= i < |s.finished| && DoneTokens(s.finished)[i] == tk;
    assert s.finished[i] == tk.payload;
  }

  /** A SUCCESS row belongs to a finished task, or to a process that has saved its success. */
  lemma SuccessPlace(s: State, m: map<TaskId, Token>, lost: set<TaskId>, t: TaskId)
    requires Inv(s, m, lost) && t in s.rows && s.rows[t].status == SUCCESS
    ensures InFinished(s, t)
      || exists p :: p in s.procs && p.payload.task == t && (p.pc.Saved? || p.pc.Judged? || p.pc.Evaluated?) && p.pc.end == Succeeded
  {
    assert t in m && Agree(s.rows[t], s.history[t], m[t]);
    var tk := m[t];
    assert Tokens(s)[tk] == 1;
    if tk.place.Done? {
      DoneIsFinished(s, tk);
    } else {
      InFlightIsProcess(s, tk);
      assert Proc(tk.payload, tk.place.pc) in s.procs;
    }
  }

  lemma SuccessIsHopeful(s: State, m: map<TaskId, Token>, lost: set<TaskId>, t: TaskId)
    requires Inv(s, m, lost) && t in s.rows && s.rows[t].status == SUCCESS
    ensures Hopeful(s, t)
  {
    SuccessPlace(s, m, lost, t);
    hide HasPlace, InLists, Inv;
  }

  lemma ListedToken(s: State, t: TaskId) returns (tk: Token)
    requires InLists(s.lists, t)
    ensures tk in Tokens(s) && tk.payload.task == t && tk.place.Listed?
  {
    var q, p :| p in s.lists.Of(q) && p.task == t;
    var k :| 0 <= k < |s.lists.Of(q)| && s.lists.Of(q)[k] == p;
    tk := Token(p, Listed(q));
    assert ListTokens(q, s.lists.Of(q))[k] == tk;
    assert tk in multiset(ListTokens(q, s.lists.Of(q)));
  }

  lemma WaitingTokenOf(s: State, t: TaskId) returns (tk: Token)
    requires HasPlace(s.delayed, t)
    ensures tk in Tokens(s) && tk.payload.task == t && tk.place.Waiting?
  {
    var j :| 0 <= j < |s.delayed| && s.delayed[j].payload.task == t;
    tk := WaitingToken(s.delayed[j]);
    assert WaitingTokens(s.delayed)[j] == tk;
    assert tk in multiset(WaitingTokens(s.delayed));
  }

  lemma QueuedRow(s: State, m: map<TaskId, Token>, lost: set<TaskId>, t: TaskId)
    requires Inv(s, m, lost) && (InLists(s.lists, t) || HasPlace(s.delayed, t))
    ensures !IsFailed(s, t)
  {
    hide Tokens, InLists, HasPlace;
    var tk;
    if InLists(s.lists, t) {
      tk := ListedToken(s, t);
    } else {
      tk := WaitingTokenOf(s, t);
    }
    assert Tokens(s)[tk] > 0;
  }

  lemma FailedCan(s: State, i: nat)
    requires At(s, i) && AgreesAt(s, i) && CanSucceed(s.procs[i]) && IsFailed(s, s.procs[i].payload.task)
    ensures RetryAhead(s.procs[i])
  {
    FailedProcess(s, i);
  }

  /** The task of a FAILED row may still succeed exactly if it is on the way to a retry. */
  lemma FailedHopeIsRetry(s: State, m: map<TaskId, Token>, lost: set<TaskId>, t: TaskId)
    requires Inv(s, m, lost) && IsFailed(s, t)
    ensures Hopeful(s, t) <==> Passing(s, t)
  {
    hide Inv, InLists, HasPlace;
    if p :| p in s.procs && p.payload.task == t && CanSucceed(p) {
      var i :| 0 <= i < |s.procs| && s.procs[i] == p;
      InvAgreesAt(s, m, lost, i);
      FailedCan(s, i);
    }
    if p :| p in s.procs && p.payload.task == t && RetryAhead(p) {
      assert CanSucceed(p);
    }
    if InFinished(s, t) {
      RestingRow(s, m, lost, t);
    } else if InLists(s.lists, t) || HasPlace(s.delayed, t) {
      QueuedRow(s, m, lost, t);
    }
  }

  // ------------------------------------------------------------------
  // FAILED for good
  // ------------------------------------------------------------------

  /** Evaluations only ever decide COMPLETED or FAILED. */
  ghost predicate VerdictsOk(s: State) {
    forall p :: p in s.procs && p.pc.Judged? ==> p.pc.verdict in {None, Some(Completed), Some(ScanFailed)}
  }

  lemma StepVerdictsOk(s: State, e: Event)
    requires Enabled(s, e) && VerdictsOk(s)
    ensures VerdictsOk(Next(s, e))
  {
    hide Next, Enabled, JudgementOf;
    forall p | p in Next(s, e).procs && p.pc.Judged?
      ensures p.pc.verdict in {None, Some(Completed), Some(ScanFailed)}
    {
      if p !in s.procs {
        JudgedBefore(s, e, p);
        JudgementIs(s, p.payload.task);
      }
    }
  }

  lemma JudgementIs(s: State, t: TaskId)
    ensures JudgementOf(s, t) in {None, Some(Completed), Some(ScanFailed)}
  {
  }

  lemma {:induction false} RunVerdictsOk(s: State, es: seq<Event>)
    requires VerdictsOk(s) && IsRun(s, es)
    ensures VerdictsOk(RunFrom(s, es))
    decreases |es|
  {
    if es != [] {
      hide Next, Enabled, VerdictsOk;
      RunUnfolds(s, es);
      StepVerdictsOk(s, es[0]);
      RunVerdictsOk(Next(s, es[0]), es[1..]);
    }
  }

  /** The scan says FAILED, and nobody is about to say COMPLETED. */
  ghost predicate SaysFailed(s: State, scan: ScanId) {
    scan in s.scans && s.scans[scan] == ScanFailed && !CompletionAhead(s, scan) && VerdictsOk(s)
  }

  lemma NewStatus(s: State, e: Event, scan: ScanId)
    requires Enabled(s, e) && scan in s.scans && s.scans[scan] == ScanFailed && VerdictsOk(s)
    ensures scan in Next(s, e).scans && Next(s, e).scans[scan] in {ScanFailed, Completed}
  {
    if e.WriteVerdict? {
      assert s.procs[e.i] in s.procs;
    }
  }

  lemma CompletedIsAhead(s: State, scan: ScanId)
    ensures scan in s.scans && s.scans[scan] == Completed ==> CompletionAhead(s, scan)
  {
  }

  /** Only an evaluation that reads nothing but SUCCESS can change that. */
  lemma StepSaysFailed(s: State, m: map<TaskId, Token>, lost: set<TaskId>, e: Event, scan: ScanId)
    requires Inv(s, m, lost) && Enabled(s, e) && SaysFailed(s, scan)
    ensures SaysFailed(Next(s, e), scan) || AllSuccess(Next(s, e).rows, scan)
  {
    hide Next, Enabled, Inv, CompletionAhead, VerdictsOk, AllSuccess;
    NewStatus(s, e, scan);
    StepVerdictsOk(s, e);
    CompletedIsAhead(Next(s, e), scan);
    if CompletionAhead(Next(s, e), scan) {
      AheadBefore(s, m, lost, e, scan);
    }
  }

  /** A task of the scan can no longer succeed, and the scan says FAILED. */
  ghost predicate Doomed(s: State, scan: ScanId, t: TaskId) {
    BelongsTo(s.rows, t, scan) && !Hopeful(s, t) && SaysFailed(s, scan)
  }

  lemma StepDoomed(s: State, m: map<TaskId, Token>, lost: set<TaskId>, e: Event, scan: ScanId, t: TaskId)
    requires Inv(s, m, lost) && Enabled(s, e) && Doomed(s, scan, t)
    ensures Doomed(Next(s, e), scan, t)
  {
    hide Next, Enabled, Inv, Hopeful, SaysFailed;
    StepSaysFailed(s, m, lost, e, scan);
    RowStays(s, e, t);
    if Hopeful(Next(s, e), t) {
      HopeIsNotRegained(s, m, lost, e, t);
    }
    var m1 := StepInv(s, m, lost, e);
    if Next(s, e).rows[t].status == SUCCESS {
      SuccessIsHopeful(Next(s, e), m1, lost + DroppedBy(s, e), t);
    }
  }

  lemma RowStays(s: State, e: Event, t: TaskId)
    requires Enabled(s, e) && t in s.rows
    ensures t in Next(s, e).rows && Next(s, e).rows[t].scan == s.rows[t].scan
  {
    if e.Submit? {
      SubmittedRows(s, e.scan, e.tasks, t);
    }
  }

  lemma {:induction false} RunDoomed(s: State, m: map<TaskId, Token>, lost: set<TaskId>, es: seq<Event>, scan: ScanId, t: TaskId)
    requires Inv(s, m, lost) && IsRun(s, es) && Doomed(s, scan, t)
    ensures Doomed(RunFrom(s, es), scan, t)
    decreases |es|
  {
    if es != [] {
      hide Next, Enabled, Inv, Doomed;
      RunUnfolds(s, es);
      StepDoomed(s, m, lost, es[0], scan, t);
      var m1 := StepInv(s, m, lost, es[0]);
      RunDoomed(Next(s, es[0]), m1, lost + DroppedBy(s, es[0]), es[1..], scan, t);
    }
  }

  // ------------------------------------------------------------------
  // FAILED with every task past its evaluation
  // ------------------------------------------------------------------

  predicate HasRead(p: Proc) { (p.pc.Judged? || p.pc.Evaluated?) && p.pc.end == Succeeded }

  /** The task has succeeded and the statuses have been read for it. */
  predicate IsJudged(s: State, t: TaskId) {
    InFinished(s, t) || exists p :: p in s.procs && p.payload.task == t && HasRead(p)
  }

  ghost predicate AllJudged(s: State, scan: ScanId) { forall t :: BelongsTo(s.rows, t, scan) ==> IsJudged(s, t) }

  lemma JudgedStays(s: State, e: Event, t: TaskId)
    requires Enabled(s, e) && IsJudged(s, t)
    ensures IsJudged(Next(s, e), t)
  {
    var s' := Next(s, e);
    if InFinished(s, t) {
      assert forall p :: p in s.finished ==> p in s'.finished;
    } else {
      var p :| p in s.procs && p.payload.task == t && HasRead(p);
      var j :| 0 <= j < |s.procs| && s.procs[j] == p;
      ProcAfter(s, e, j);
    }
  }

  lemma ProcAfter(s: State, e: Event, j: nat)
    requires Enabled(s, e) && At(s, j) && HasRead(s.procs[j])
    ensures IsJudged(Next(s, e), s.procs[j].payload.task)
  {
    var s', p := Next(s, e), s.procs[j];
    if MovesProc(e) {
      ReadAfterMove(s, e, j);
      assert s'.procs[j] in s'.procs;
    } else if e.Finish? && e.i == j {
      assert p.payload in s'.finished;
    } else if e.Finish? || e.Schedule? || e.SendToDlq? {
      assert e.i != j;
      assert s'.procs[if j < e.i then j else j - 1] == p;
    } else {
      ReadStays(s, e, j);
      assert s'.procs[j] in s'.procs;
    }
  }

  lemma ReadAfterMove(s: State, e: Event, j: nat)
    requires Enabled(s, e) && MovesProc(e) && At(s, j) && HasRead(s.procs[j])
    ensures var s' := Next(s, e); At(s', j) && HasRead(s'.procs[j]) && s'.procs[j].payload.task == s.procs[j].payload.task
  {
    ProcStepFrame(s, e);
    if j == e.i {
      assert e.WriteVerdict?;
    } else {
      hide Next, Enabled;
    }
  }

  lemma ReadStays(s: State, e: Event, j: nat)
    requires Enabled(s, e) && !MovesProc(e) && !e.Finish? && !e.Schedule? && !e.SendToDlq? && At(s, j)
    ensures At(Next(s, e), j) && Next(s, e).procs[j] == s.procs[j]
  {
  }

  /** A process of a judged task does not read statuses any more. */
  lemma NoSecondRead(s: State, m: map<TaskId, Token>, lost: set<TaskId>, i: nat)
    requires Inv(s, m, lost) && Enabled(s, ReadStatuses(i))
    ensures !IsJudged(s, s.procs[i].payload.task)
  {
    var t := s.procs[i].payload.task;
    ProcessInMap(s, m, s.procs[i]);
    if InFinished(s, t) {
      RestingRow(s, m, lost, t);
    } else if p :| p in s.procs && p.payload.task == t && HasRead(p) {
      ProcessInMap(s, m, p);
    }
  }

  ghost predicate Over(s: State, scan: ScanId) { AllJudged(s, scan) && SaysFailed(s, scan) }

  lemma StepOver(s: State, m: map<TaskId, Token>, lost: set<TaskId>, e: Event, scan: ScanId)
    requires Inv(s, m, lost) && Enabled(s, e) && Over(s, scan)
    requires e.Submit? && e.tasks != [] ==> e.scan != scan
    ensures Over(Next(s, e), scan)
  {
    hide Next, Enabled, Inv, IsJudged, VerdictsOk;
    var s' := Next(s, e);
    forall t | BelongsTo(s'.rows, t, scan) ensures IsJudged(s', t) {
      NewTasks(s, e, t);
      JudgedStays(s, e, t);
    }
    NewStatus(s, e, scan);
    StepVerdictsOk(s, e);
    if CompletionAhead(s', scan) {
      if scan in s'.scans && s'.scans[scan] == Completed {
        CompletedBefore(s, e, scan);
      } else {
        var p :| p in s'.procs && p.pc.Judged? && p.pc.verdict == Some(Completed) && BelongsTo(s'.rows, p.payload.task, scan);
        NewTasks(s, e, p.payload.task);
        if p !in s.procs {
          JudgedBefore(s, e, p);
          NoSecondRead(s, m, lost, e.i);
        }
      }
    }
  }

  lemma {:induction false} RunOver(s: State, m: map<TaskId, Token>, lost: set<TaskId>, es: seq<Event>, scan: ScanId)
    requires Inv(s, m, lost) && IsRun(s, es) && Over(s, scan) && NoTasksFor(es, scan)
    ensures Over(RunFrom(s, es), scan)
    decreases |es|
  {
    if es != [] {
      hide Next, Enabled, Inv, Over;
      RunUnfolds(s, es);
      assert es[0] in es && forall e :: e in es[1..] ==> e in es;
      StepOver(s, m, lost, es[0], scan);
      var m1 := StepInv(s, m, lost, es[0]);
      RunOver(Next(s, es[0]), m1, lost + DroppedBy(s, es[0]), es[1..], scan);
    }
  }
}
