/** Exactly when the split delayed move loses a task for good. */
module SplitLoss {
  import opened TaskQueue
  import opened Pipeline
  import opened Agreement
  import opened SplitMove

  /** A write loses a task exactly if all its copies are due members of the delayed set and its own read did not
      return it. */
  lemma WriteLosesIff(s: SplitState, k: nat, t: TaskId)
    requires k < |s.pending| && Present(s.core, t)
    ensures !Present(AfterWrite(s, k).core, t)
       <==> OnlyDelayed(s.core, t, s.pending[k].now) && !InList(s.pending[k].batch, t)
  {
    var r, s' := s.pending[k], AfterWrite(s, k);
    if InList(r.batch, t) {
      var p :| p in r.batch && p.task == t;
      EnqueuedMember(s.core.lists, r.batch, p);
    } else if InLists(s.core.lists, t) {
      EnqueueKeeps(s.core.lists, r.batch, t);
    } else if OnlyDelayed(s.core, t, r.now) {
      UncoveredWriteLoses(s, k, t);
    } else if !InProcs(s.core.procs, t) && !InList(s.core.finished, t) && !InDead(s.core.dlq, t) {
      NotDueStays(s.core.delayed, r.now, t);
    }
  }

  lemma NotDueStays(delayed: seq<Entry>, now: real, t: TaskId)
    requires exists e :: e in delayed && e.payload.task == t && !IsDue(e, now)
    ensures InDelayed(NotDue(delayed, now), t)
  {
    var e :| e in delayed && e.payload.task == t && !IsDue(e, now);
    DueMembers(delayed, now, e);
  }

  // ------------------------------------------------------------------
  // Gone for good
  // ------------------------------------------------------------------

  /** Some worker is about to push the task. */
  predicate Held(s: SplitState, t: TaskId) { exists r :: r in s.pending && InList(r.batch, t) }

  /** No copy in the system and none in the hands of a worker. */
  predicate Gone(s: SplitState, t: TaskId) { !Present(s.core, t) && !Held(s, t) }

  /** The write removes the last copies of the task, and no worker holds it. */
  predicate Loses(s: SplitState, e: SplitEvent, t: TaskId)
    requires CanStep(s, e)
  {
    e.WriteMove? && Present(s.core, t) && OnlyDelayed(s.core, t, s.pending[e.k].now) && !Held(s, t)
  }

  predicate LosesIn(s: SplitState, es: seq<SplitEvent>, t: TaskId)
    requires IsSplitRun(s, es)
    decreases |es|
  {
    es != [] && (Loses(s, es[0], t) || LosesIn(Step(s, es[0]), es[1..], t))
  }

  predicate IsNew(e: Event, t: TaskId) { e.Submit? && exists spec :: spec in e.tasks && spec.id == t }

  lemma SubmitAbsent(s: State, scan: ScanId, tasks: seq<TaskSpec>, t: TaskId)
    requires Enabled(s, Submit(scan, tasks)) && !Present(s, t) && !IsNew(Submit(scan, tasks), t)
    ensures !Present(Next(s, Submit(scan, tasks)), t)
  {
    var ps := NewPayloads(scan, tasks);
    forall p | p in ps ensures p.task != t {
      var i :| 0 <= i < |ps| && ps[i] == p;
      assert tasks[i] in tasks;
    }
    EnqueueBringsOnly(s.lists, ps, t);
  }

  lemma PopAbsent(s: State, q: Queue, t: TaskId)
    requires s.lists.Of(q) != [] && !Present(s, t)
    ensures !Present(AfterPop(s, q), t)
  {
    var s', head := AfterPop(s, q), s.lists.Of(q)[0];
    assert head in s.lists.Of(q);
    forall q', p | p in s'.lists.Of(q') ensures p.task != t {
      assert p in s.lists.Of(q');
    }
    forall p | p in s'.procs ensures p.payload.task != t {
      assert p in s.procs || p.payload == head;
    }
  }

  lemma ProcAbsent(s: State, e: Event, t: TaskId)
    requires Enabled(s, e) && MovesProc(e) && !Present(s, t)
    ensures !Present(Next(s, e), t)
  {
    var s' := Next(s, e);
    ProcStepFrame(s, e);
    assert s.procs[e.i] in s.procs;
    forall p | p in s'.procs ensures p.payload.task != t {
      var j :| 0 <= j < |s'.procs| && s'.procs[j] == p;
      assert j != e.i ==> p in s.procs;
    }
  }

  lemma LeaveAbsent(s: State, e: Event, t: TaskId)
    requires Enabled(s, e) && (e.Finish? || e.Schedule? || e.SendToDlq?) && !Present(s, t)
    ensures !Present(Next(s, e), t)
  {
    var s', p := Next(s, e), s.procs[e.i];
    assert p in s.procs;
    forall x | x in s'.procs ensures x.payload.task != t {
      assert x in s.procs;
    }
    if e.Schedule? {
      forall x | x in s'.delayed ensures x.payload.task != t {
        ZAddMembers(s.delayed, p.payload, p.pc.score, x);
      }
    } else if e.Finish? {
      forall x | x in s'.finished ensures x.task != t {
        assert x in s.finished || x == p.payload;
      }
    } else {
      forall x | x in s'.dlq ensures x.payload.task != t {
        assert x in s.dlq || x.payload == p.payload;
      }
    }
  }

  /** What is absent stays absent unless it is submitted. */
  lemma CoreAbsent(s: State, e: Event, t: TaskId)
    requires Enabled(s, e) && !e.MoveDue? && !Present(s, t) && !IsNew(e, t)
    ensures !Present(Next(s, e), t)
  {
    hide Present;
    match e
    case CreateScan(_) => IdleAbsent(s, e, t);
    case Tick(_) => IdleAbsent(s, e, t);
    case Submit(scan, tasks) => SubmitAbsent(s, scan, tasks, t);
    case Pop(draw) =>
      match FirstNonEmpty(s.lists, PollOrder(draw)) {
        case None =>
        case Some(q) => assert Next(s, e) == AfterPop(s, q); PopAbsent(s, q, t);
      }
    case Finish(_) => LeaveAbsent(s, e, t);
    case Schedule(_) => LeaveAbsent(s, e, t);
    case SendToDlq(_) => LeaveAbsent(s, e, t);
    case _ => ProcEvents(e); ProcAbsent(s, e, t);
  }

  lemma IdleAbsent(s: State, e: Event, t: TaskId)
    requires Enabled(s, e) && (e.CreateScan? || e.Tick?) && !Present(s, t)
    ensures !Present(Next(s, e), t)
  {
  }

  lemma OldIsNotNew(s: State, e: Event, t: TaskId)
    requires Enabled(s, e) && t in s.rows
    ensures !IsNew(e, t) && t in Next(s, e).rows
  {
    if e.Submit? {
      forall spec | spec in e.tasks ensures spec.id != t {
        var i :| 0 <= i < |e.tasks| && e.tasks[i] == spec;
      }
    }
  }

  /** A core step decides nothing about a task already submitted. */
  lemma CoreGone(s: SplitState, c: Event, t: TaskId)
    requires CanStep(s, Core(c)) && t in s.core.rows
    ensures Gone(Step(s, Core(c)), t) <==> Gone(s, t)
  {
    hide Next, Enabled, Present;
    OldIsNotNew(s.core, c, t);
    if Present(s.core, t) {
      CorePresentAt(s.core, c, t);
    } else {
      CoreAbsent(s.core, c, t);
    }
  }

  lemma BatchFromDelayed(delayed: seq<Entry>, now: real, t: TaskId)
    requires InList(ReadBatch(delayed, now), t)
    ensures InDelayed(delayed, t)
  {
    var batch := ReadBatch(delayed, now);
    var i :| 0 <= i < |batch| && batch[i].task == t;
    var e := Due(delayed, now)[i];
    assert e in Due(delayed, now);
    DueMembers(delayed, now, e);
  }

  lemma ReadGone(s: SplitState, now: real, t: TaskId)
    ensures Gone(AfterRead(s, now), t) <==> Gone(s, t)
  {
    var s', batch := AfterRead(s, now), ReadBatch(s.core.delayed, now);
    if !Present(s.core, t) {
      if InList(batch, t) {
        BatchFromDelayed(s.core.delayed, now, t);
      }
      if batch != [] {
        assert s'.pending == s.pending + [Read(now, batch)];
        assert forall r :: r in s'.pending <==> r in s.pending || r == Read(now, batch);
      }
    }
  }

  lemma HeldAfterWrite(s: SplitState, k: nat, t: TaskId)
    requires k < |s.pending|
    ensures Held(s, t) <==> InList(s.pending[k].batch, t) || Held(AfterWrite(s, k), t)
  {
    var rest := AfterWrite(s, k).pending;
    if Held(s, t) {
      var r :| r in s.pending && InList(r.batch, t);
      var j :| 0 <= j < |s.pending| && s.pending[j] == r;
      if j != k {
        assert rest[if j < k then j else j - 1] == r;
      }
    }
    if Held(AfterWrite(s, k), t) {
      var r :| r in rest && InList(r.batch, t);
      assert r in s.pending;
    }
  }

  lemma WriteGone(s: SplitState, k: nat, t: TaskId)
    requires k < |s.pending|
    ensures Gone(AfterWrite(s, k), t) <==> Gone(s, t) || Loses(s, WriteMove(k), t)
  {
    HeldAfterWrite(s, k, t);
    if Present(s.core, t) {
      WriteLosesIff(s, k, t);
    } else if InList(s.pending[k].batch, t) {
      var p :| p in s.pending[k].batch && p.task == t;
      EnqueuedMember(s.core.lists, s.pending[k].batch, p);
    } else {
      EnqueueBringsOnly(s.core.lists, s.pending[k].batch, t);
      forall e | e in AfterWrite(s, k).core.delayed ensures e.payload.task != t {
        DueMembers(s.core.delayed, s.pending[k].now, e);
      }
    }
  }

  lemma StepGone(s: SplitState, e: SplitEvent, t: TaskId)
    requires CanStep(s, e) && t in s.core.rows
    ensures Gone(Step(s, e), t) <==> Gone(s, t) || Loses(s, e, t)
    ensures t in Step(s, e).core.rows
  {
    hide Present, Held, Next, Enabled;
    match e
    case Core(c) => CoreGone(s, c, t); OldIsNotNew(s.core, c, t);
    case ReadDue(now) => ReadGone(s, now, t);
    case WriteMove(k) => WriteGone(s, k, t);
  }

  /** Nothing is anywhere that has no row. */
  ghost predicate AllHaveRows(s: SplitState) { forall t :: Present(s.core, t) || Held(s, t) ==> t in s.core.rows }

  lemma NewTaskStep(s: SplitState, e: SplitEvent, t: TaskId)
    requires CanStep(s, e) && Gone(s, t) && t !in s.core.rows
    ensures t in Step(s, e).core.rows ==> Present(Step(s, e).core, t)
    ensures t !in Step(s, e).core.rows ==> Gone(Step(s, e), t)
  {
    hide Present;
    match e
    case Core(c) =>
      if t in Next(s.core, c).rows {
        NewRowIsSubmitted(s.core, c, t);
        SubmitKeepsPresent(s.core, c.scan, c.tasks, t);
      } else {
        NewHasRow(s.core, c, t);
        CoreAbsent(s.core, c, t);
      }
    case ReadDue(now) => ReadGone(s, now, t);
    case WriteMove(k) => WriteGone(s, k, t);
  }

  lemma NewRowIsSubmitted(s: State, c: Event, t: TaskId)
    requires Enabled(s, c) && t !in s.rows && t in Next(s, c).rows
    ensures c.Submit?
  {
  }

  lemma NewHasRow(s: State, c: Event, t: TaskId)
    requires Enabled(s, c) && t !in Next(s, c).rows
    ensures !IsNew(c, t)
  {
    if IsNew(c, t) {
      var i :| 0 <= i < |c.tasks| && c.tasks[i].id == t;
      NewRowsAt(c.scan, c.tasks, i);
    }
  }

  lemma StepHasRows(s: SplitState, e: SplitEvent)
    requires CanStep(s, e) && AllHaveRows(s)
    ensures AllHaveRows(Step(s, e))
  {
    hide Present, Held, Next, Enabled;
    forall t | Present(Step(s, e).core, t) || Held(Step(s, e), t) ensures t in Step(s, e).core.rows {
      if t in s.core.rows {
        StepGone(s, e, t);
      } else {
        NewTaskStep(s, e, t);
      }
    }
  }

  lemma {:induction false} RunGone(s: SplitState, es: seq<SplitEvent>, t: TaskId)
    requires IsSplitRun(s, es) && AllHaveRows(s) && t in SplitRun(s, es).core.rows
    ensures Gone(SplitRun(s, es), t) <==> (t in s.core.rows && Gone(s, t)) || LosesIn(s, es, t)
    decreases |es|
  {
    if es != [] {
      hide Gone, AllHaveRows, CanStep, Step, Loses;
      SplitUnfolds(s, es);
      StepHasRows(s, es[0]);
      RunGone(Step(s, es[0]), es[1..], t);
      GoneOnce(s, es[0], t);
    }
  }

  lemma GoneOnce(s: SplitState, e: SplitEvent, t: TaskId)
    requires CanStep(s, e) && AllHaveRows(s)
    ensures (t in Step(s, e).core.rows && Gone(Step(s, e), t)) <==> (t in s.core.rows && Gone(s, t)) || Loses(s, e, t)
  {
    hide Present, Held, Next, Enabled;
    if t in s.core.rows {
      StepGone(s, e, t);
    } else {
      NewTaskStep(s, e, t);
    }
  }

  /** In every interleaving of any number of workers, a submitted task is gone for good if and only if some write
      removed its last copies while no worker held it. */
  lemma GoneIff(es: seq<SplitEvent>, t: TaskId)
    requires IsSplitRun(START, es) && t in SplitRun(START, es).core.rows
    ensures Gone(SplitRun(START, es), t) <==> LosesIn(START, es, t)
  {
    hide IsSplitRun, SplitRun, LosesIn;
    assert AllHaveRows(START);
    RunGone(START, es, t);
  }
}
