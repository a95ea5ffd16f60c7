/** The delayed move as the workers really do it: reading the due entries and the transaction that pushes and
    removes them are two steps, and any number of workers can be between the two. */
module SplitMove {
  import opened TaskQueue
  import opened Pipeline
  import opened Agreement

  /** A worker that has read, at its own `now`, and not written yet. */
  datatype Read = Read(now: real, batch: seq<Payload>)

  datatype SplitState = SplitState(core: State, pending: seq<Read>)

  datatype SplitEvent =
    | Core(e: Event)
    | ReadDue(now: real)
    | WriteMove(k: nat)

  const START := SplitState(INITIAL, [])

  predicate CanStep(s: SplitState, e: SplitEvent) {
    match e
    case Core(c) => !c.MoveDue? && Enabled(s.core, c)
    case ReadDue(now) => now <= s.core.clock
    case WriteMove(k) => k < |s.pending|
  }

  function AfterRead(s: SplitState, now: real): SplitState {
    var batch := ReadBatch(s.core.delayed, now);
    if batch == [] then s else s.(pending := s.pending + [Read(now, batch)])
  }

  function AfterWrite(s: SplitState, k: nat): SplitState
    requires k < |s.pending|
  {
    var r := s.pending[k];
    SplitState(s.core.(lists := Enqueue(s.core.lists, r.batch), delayed := NotDue(s.core.delayed, r.now)),
               s.pending[..k] + s.pending[k + 1..])
  }

  function Step(s: SplitState, e: SplitEvent): SplitState
    requires CanStep(s, e)
  {
    match e
    case Core(c) => s.(core := Next(s.core, c))
    case ReadDue(now) => AfterRead(s, now)
    case WriteMove(k) => AfterWrite(s, k)
  }

  predicate IsSplitRun(s: SplitState, es: seq<SplitEvent>)
    decreases |es|
  {
    es == [] || (CanStep(s, es[0]) && IsSplitRun(Step(s, es[0]), es[1..]))
  }

  function SplitRun(s: SplitState, es: seq<SplitEvent>): SplitState
    requires IsSplitRun(s, es)
    decreases |es|
  {
    if es == [] then s else SplitRun(Step(s, es[0]), es[1..])
  }

  /** A read stays within the limit, and a retry reaches the sorted set before it is due. */
  predicate IsPrompt(s: SplitState, e: SplitEvent)
    requires CanStep(s, e)
  {
    match e
    case Core(c) => c.Schedule? ==> s.core.clock < s.core.procs[c.i].pc.score
    case ReadDue(now) => |Due(s.core.delayed, now)| <= MOVE_LIMIT
    case WriteMove(_) => true
  }

  predicate IsPromptRun(s: SplitState, es: seq<SplitEvent>)
    requires IsSplitRun(s, es)
    decreases |es|
  {
    es == [] || (IsPrompt(s, es[0]) && IsPromptRun(Step(s, es[0]), es[1..]))
  }

  // ------------------------------------------------------------------
  // Being somewhere
  // ------------------------------------------------------------------

  predicate InList(ps: seq<Payload>, t: TaskId) { exists p :: p in ps && p.task == t }

  predicate InLists(l: Lists, t: TaskId) {
    InList(l.critical, t) || InList(l.high, t) || InList(l.medium, t) || InList(l.low, t)
  }

  predicate InDelayed(es: seq<Entry>, t: TaskId) { exists e :: e in es && e.payload.task == t }

  predicate InProcs(ps: seq<Proc>, t: TaskId) { exists p :: p in ps && p.payload.task == t }

  predicate InDead(ds: seq<Dead>, t: TaskId) { exists d :: d in ds && d.payload.task == t }

  /** Some copy of the task is in the system. */
  predicate Present(s: State, t: TaskId) {
    InLists(s.lists, t) || InDelayed(s.delayed, t) || InProcs(s.procs, t) || InList(s.finished, t) || InDead(s.dlq, t)
  }

  ghost predicate AllPresent(s: State) { forall t :: t in s.rows ==> Present(s, t) }

  // ------------------------------------------------------------------
  // A pending write only removes what it is going to push
  // ------------------------------------------------------------------

  predicate CoveredBy(delayed: seq<Entry>, r: Read) {
    forall e :: e in delayed && IsDue(e, r.now) ==> e.payload in r.batch
  }

  predicate Covered(s: SplitState) {
    forall r :: r in s.pending ==> r.now <= s.core.clock && CoveredBy(s.core.delayed, r)
  }

  lemma {:induction false} RoutedMember(batch: seq<Payload>, p: Payload)
    requires p in batch
    ensures p in Routed(batch, QueueFor(p.priority))
  {
    if p != batch[0] {
      RoutedMember(batch[1..], p);
    }
  }

  lemma EnqueuedMember(l: Lists, batch: seq<Payload>, p: Payload)
    requires p in batch
    ensures p in Enqueue(l, batch).Of(QueueFor(p.priority))
    ensures InLists(Enqueue(l, batch), p.task)
  {
    hide QueueFor;
    RoutedMember(batch, p);
    var q := QueueFor(p.priority);
    assert Enqueue(l, batch).Of(q) == l.Of(q) + Routed(batch, q);
  }

  lemma EnqueueKeeps(l: Lists, batch: seq<Payload>, t: TaskId)
    requires InLists(l, t)
    ensures InLists(Enqueue(l, batch), t)
  {
    hide Routed;
    forall q: Queue, p | p in l.Of(q) ensures p in Enqueue(l, batch).Of(q) {
      assert Enqueue(l, batch).Of(q) == l.Of(q) + Routed(batch, q);
    }
    var q, p :| p in l.Of(q) && p.task == t;
    assert p in Enqueue(l, batch).Of(q);
  }

  /** Everything a covered write removes has been pushed, by this write, to the list its priority names. */
  lemma WritePushesWhatItRemoves(s: SplitState, k: nat, e: Entry)
    requires k < |s.pending| && CoveredBy(s.core.delayed, s.pending[k])
    requires e in s.core.delayed && e !in AfterWrite(s, k).core.delayed
    ensures e.payload in s.pending[k].batch
    ensures e.payload in AfterWrite(s, k).core.lists.Of(QueueFor(e.payload.priority))
  {
    DueMembers(s.core.delayed, s.pending[k].now, e);
    EnqueuedMember(s.core.lists, s.pending[k].batch, e.payload);
  }

  lemma WriteKeepsPresent(s: SplitState, k: nat, t: TaskId)
    requires k < |s.pending| && CoveredBy(s.core.delayed, s.pending[k]) && Present(s.core, t)
    ensures Present(AfterWrite(s, k).core, t)
  {
    var s' := AfterWrite(s, k);
    if InLists(s.core.lists, t) {
      EnqueueKeeps(s.core.lists, s.pending[k].batch, t);
    } else if InDelayed(s.core.delayed, t) {
      var e :| e in s.core.delayed && e.payload.task == t;
      if e !in s'.core.delayed {
        DueMembers(s.core.delayed, s.pending[k].now, e);
        EnqueuedMember(s.core.lists, s.pending[k].batch, e.payload);
      }
    }
  }

  lemma WriteCovered(s: SplitState, k: nat)
    requires k < |s.pending| && Covered(s)
    ensures Covered(AfterWrite(s, k))
  {
    var s' := AfterWrite(s, k);
    forall r | r in s'.pending ensures r.now <= s'.core.clock && CoveredBy(s'.core.delayed, r) {
      assert r in s.pending;
      forall e | e in s'.core.delayed && IsDue(e, r.now) ensures e.payload in r.batch {
        DueMembers(s.core.delayed, s.pending[k].now, e);
      }
    }
  }

  lemma ReadCovered(s: SplitState, now: real)
    requires Covered(s) && now <= s.core.clock && |Due(s.core.delayed, now)| <= MOVE_LIMIT
    ensures Covered(AfterRead(s, now))
  {
    var batch := ReadBatch(s.core.delayed, now);
    forall e | e in s.core.delayed && IsDue(e, now) ensures e.payload in batch {
      DueMembers(s.core.delayed, now, e);
      var i :| 0 <= i < |Due(s.core.delayed, now)| && Due(s.core.delayed, now)[i] == e;
      assert batch[i] == e.payload;
    }
  }

  // ------------------------------------------------------------------
  // The other steps
  // ------------------------------------------------------------------

  lemma ScheduleCovered(s: SplitState, i: nat)
    requires Covered(s) && Enabled(s.core, Schedule(i)) && s.core.clock < s.core.procs[i].pc.score
    ensures Covered(s.(core := Next(s.core, Schedule(i))))
  {
    var p := s.core.procs[i];
    forall r, x | r in s.pending && x in ZAdd(s.core.delayed, p.payload, p.pc.score) && IsDue(x, r.now)
      ensures x.payload in r.batch
    {
      ZAddMembers(s.core.delayed, p.payload, p.pc.score, x);
    }
  }

  lemma CoreFrame(s: State, e: Event)
    requires Enabled(s, e) && !e.Schedule? && !e.MoveDue?
    ensures Next(s, e).delayed == s.delayed && s.clock <= Next(s, e).clock
  {
  }

  lemma StepCovered(s: SplitState, e: SplitEvent)
    requires Covered(s) && CanStep(s, e) && IsPrompt(s, e)
    ensures Covered(Step(s, e))
  {
    match e
    case Core(c) =>
      if c.Schedule? {
        ScheduleCovered(s, c.i);
      } else {
        CoreFrame(s.core, c);
      }
    case ReadDue(now) => ReadCovered(s, now);
    case WriteMove(k) => WriteCovered(s, k);
  }

  lemma ProcKeepsPresent(s: State, e: Event, t: TaskId)
    requires Enabled(s, e) && MovesProc(e) && Present(s, t)
    ensures Present(Next(s, e), t)
  {
    var s' := Next(s, e);
    ProcStepFrame(s, e);
    if InProcs(s.procs, t) {
      var p :| p in s.procs && p.payload.task == t;
      var j :| 0 <= j < |s.procs| && s.procs[j] == p;
      assert s'.procs[j] in s'.procs;
    }
  }

  lemma DropKeeps(ps: seq<Proc>, i: nat, t: TaskId)
    requires i < |ps| && InProcs(ps, t) && ps[i].payload.task != t
    ensures InProcs(DropProc(ps, i), t)
  {
    var p :| p in ps && p.payload.task == t;
    var j :| 0 <= j < |ps| && ps[j] == p;
    assert DropProc(ps, i)[if j < i then j else j - 1] == p;
  }

  lemma LeaveKeepsPresent(s: State, e: Event, t: TaskId)
    requires Enabled(s, e) && (e.Finish? || e.Schedule? || e.SendToDlq?) && Present(s, t)
    ensures Present(Next(s, e), t)
  {
    var s', p := Next(s, e), s.procs[e.i].payload;
    if e.Schedule? {
      var x := Entry(p, s.procs[e.i].pc.score);
      ZAddMembers(s.delayed, p, x.score, x);
      if InDelayed(s.delayed, t) {
        var d :| d in s.delayed && d.payload.task == t;
        ZAddMembers(s.delayed, p, x.score, d);
      }
    } else if e.Finish? {
      assert p in s'.finished;
      if InList(s.finished, t) {
        var f :| f in s.finished && f.task == t;
        assert f in s'.finished;
      }
    } else {
      assert s'.dlq[|s.dlq|] in s'.dlq;
      if InDead(s.dlq, t) {
        var d :| d in s.dlq && d.payload.task == t;
        assert d in s'.dlq;
      }
    }
    if InProcs(s.procs, t) && p.task != t {
      DropKeeps(s.procs, e.i, t);
    }
  }

  lemma PopKeepsPresent(s: State, q: Queue, t: TaskId)
    requires s.lists.Of(q) != [] && Present(s, t)
    ensures Present(AfterPop(s, q), t)
  {
    var s', head := AfterPop(s, q), s.lists.Of(q)[0];
    assert s'.procs[|s.procs|] in s'.procs;
    if InProcs(s.procs, t) {
      var p :| p in s.procs && p.payload.task == t;
      assert p in s'.procs;
    } else if InLists(s.lists, t) && head.task != t {
      var q', p :| p in s.lists.Of(q') && p.task == t;
      if q' == q {
        assert s.lists.Of(q) == [head] + s.lists.Of(q)[1..];
        assert p in s'.lists.Of(q);
      } else {
        assert s'.lists.Of(q') == s.lists.Of(q');
      }
    }
  }

  lemma SubmitKeepsPresent(s: State, scan: ScanId, tasks: seq<TaskSpec>, t: TaskId)
    requires Enabled(s, Submit(scan, tasks)) && t in Next(s, Submit(scan, tasks)).rows
    requires t in s.rows ==> Present(s, t)
    ensures Present(Next(s, Submit(scan, tasks)), t)
  {
    var ps := NewPayloads(scan, tasks);
    if t in s.rows {
      if InLists(s.lists, t) {
        EnqueueKeeps(s.lists, ps, t);
      }
    } else {
      NewRowsKeys(scan, tasks, t);
      var i :| 0 <= i < |tasks| && tasks[i].id == t;
      EnqueuedMember(s.lists, ps, ps[i]);
    }
  }

  lemma NothingNew(s: State, e: Event)
    requires Enabled(s, e) && !e.Submit?
    ensures Next(s, e).rows.Keys == s.rows.Keys
  {
  }

  lemma CorePresent(s: State, e: Event)
    requires Enabled(s, e) && !e.MoveDue? && AllPresent(s)
    ensures AllPresent(Next(s, e))
  {
    hide Next, Enabled, Present;
    if !e.Submit? {
      NothingNew(s, e);
    }
    forall t | t in Next(s, e).rows ensures Present(Next(s, e), t) {
      CorePresentAt(s, e, t);
    }
  }

  lemma CorePresentAt(s: State, e: Event, t: TaskId)
    requires Enabled(s, e) && !e.MoveDue? && t in Next(s, e).rows
    requires t in s.rows || !e.Submit? ==> Present(s, t)
    ensures Present(Next(s, e), t)
  {
    hide Present;
    match e
    case CreateScan(_) => IdlePresent(s, e, t);
    case Tick(_) => IdlePresent(s, e, t);
    case Submit(scan, tasks) => SubmitKeepsPresent(s, scan, tasks, t);
    case Pop(draw) =>
      match FirstNonEmpty(s.lists, PollOrder(draw)) {
        case None =>
        case Some(q) => assert Next(s, e) == AfterPop(s, q); PopKeepsPresent(s, q, t);
      }
    case Finish(_) => LeaveKeepsPresent(s, e, t);
    case Schedule(_) => LeaveKeepsPresent(s, e, t);
    case SendToDlq(_) => LeaveKeepsPresent(s, e, t);
    case _ => ProcEvents(e); ProcKeepsPresent(s, e, t);
  }

  lemma IdlePresent(s: State, e: Event, t: TaskId)
    requires Enabled(s, e) && (e.CreateScan? || e.Tick?) && Present(s, t)
    ensures Present(Next(s, e), t)
  {
  }

  lemma StepPresent(s: SplitState, e: SplitEvent)
    requires Covered(s) && AllPresent(s.core) && CanStep(s, e)
    ensures AllPresent(Step(s, e).core)
  {
    hide Next, Enabled, Present;
    match e
    case Core(c) => CorePresent(s.core, c);
    case ReadDue(_) =>
    case WriteMove(k) =>
      forall t | t in s.core.rows ensures Present(AfterWrite(s, k).core, t) {
        WriteKeepsPresent(s, k, t);
      }
  }

  lemma SplitUnfolds(s: SplitState, es: seq<SplitEvent>)
    requires IsSplitRun(s, es) && es != []
    ensures CanStep(s, es[0]) && IsSplitRun(Step(s, es[0]), es[1..])
    ensures SplitRun(s, es) == SplitRun(Step(s, es[0]), es[1..])
    ensures IsPromptRun(s, es) ==> IsPrompt(s, es[0]) && IsPromptRun(Step(s, es[0]), es[1..])
  {
  }

  lemma EmptySplitRun(s: SplitState)
    ensures IsSplitRun(s, []) && SplitRun(s, []) == s
  {
  }

  lemma {:induction false} RunPresent(s: SplitState, es: seq<SplitEvent>)
    requires Covered(s) && AllPresent(s.core) && IsSplitRun(s, es) && IsPromptRun(s, es)
    ensures Covered(SplitRun(s, es)) && AllPresent(SplitRun(s, es).core)
    decreases |es|
  {
    hide *;
    if es == [] {
      EmptySplitRun(s);
    } else {
      SplitUnfolds(s, es);
      StepCovered(s, es[0]);
      StepPresent(s, es[0]);
      RunPresent(Step(s, es[0]), es[1..]);
    }
  }

  // ------------------------------------------------------------------
  // Main results
  // ------------------------------------------------------------------

  /** At least once: in every interleaving of any number of workers, if no read exceeds the limit and every
      retry lands before it is due, each submitted task stays in the system, and any write a worker may still
      perform pushes all it removes. */
  lemma NoTaskVanishes(es: seq<SplitEvent>)
    requires IsSplitRun(START, es) && IsPromptRun(START, es)
    ensures var s := SplitRun(START, es);
      && (forall t :: t in s.core.rows ==> Present(s.core, t))
      && (forall k, e :: 0 <= k < |s.pending| && e in s.core.delayed && e !in AfterWrite(s, k).core.delayed ==>
           e.payload in AfterWrite(s, k).core.lists.Of(QueueFor(e.payload.priority)))
  {
    hide IsSplitRun, IsPromptRun, SplitRun, Present, QueueFor, AfterWrite;
    assert Covered(START) && AllPresent(START.core);
    RunPresent(START, es);
    var s := SplitRun(START, es);
    forall k, e | 0 <= k < |s.pending| && e in s.core.delayed && e !in AfterWrite(s, k).core.delayed
      ensures e.payload in AfterWrite(s, k).core.lists.Of(QueueFor(e.payload.priority))
    {
      assert s.pending[k] in s.pending;
      WritePushesWhatItRemoves(s, k, e);
    }
  }

  /** All copies of the task are members of the delayed set due at `now`. */
  predicate OnlyDelayed(s: State, t: TaskId, now: real) {
    && !InLists(s.lists, t) && !InProcs(s.procs, t) && !InList(s.finished, t) && !InDead(s.dlq, t)
    && forall e :: e in s.delayed && e.payload.task == t ==> IsDue(e, now)
  }

  lemma EnqueueBringsOnly(l: Lists, batch: seq<Payload>, t: TaskId)
    requires !InLists(l, t) && !InList(batch, t)
    ensures !InLists(Enqueue(l, batch), t)
  {
    if InLists(Enqueue(l, batch), t) {
      var q, p :| p in Enqueue(l, batch).Of(q) && p.task == t;
      assert Enqueue(l, batch).Of(q) == l.Of(q) + Routed(batch, q);
      assert p !in l.Of(q);
      RoutedFromBatch(batch, q, p);
    }
  }

  lemma {:induction false} RoutedFromBatch(batch: seq<Payload>, q: Queue, p: Payload)
    requires p in Routed(batch, q)
    ensures p in batch
  {
    if p != batch[0] {
      RoutedFromBatch(batch[1..], q, p);
    }
  }

  /** A write loses every task that is due only in the delayed set and that its read did not return. */
  lemma UncoveredWriteLoses(s: SplitState, k: nat, t: TaskId)
    requires k < |s.pending| && OnlyDelayed(s.core, t, s.pending[k].now) && !InList(s.pending[k].batch, t)
    ensures !Present(AfterWrite(s, k).core, t)
  {
    EnqueueBringsOnly(s.core.lists, s.pending[k].batch, t);
    forall e | e in AfterWrite(s, k).core.delayed ensures e.payload.task != t {
      DueMembers(s.core.delayed, s.pending[k].now, e);
    }
  }

  /** Promptness is needed: a retry that lands already due, after a worker has read and before it writes, is
      removed by that write and lost. */
  lemma LateRetryIsLost(s: SplitState, k: nat, i: nat)
    requires k < |s.pending| && Enabled(s.core, Schedule(i))
    requires 0.0 <= s.core.procs[i].pc.score <= s.pending[k].now
    requires var t := s.core.procs[i].payload.task;
      && !InLists(s.core.lists, t) && !InDelayed(s.core.delayed, t) && !InProcs(DropProc(s.core.procs, i), t)
      && !InList(s.core.finished, t) && !InDead(s.core.dlq, t) && !InList(s.pending[k].batch, t)
    ensures var s1 := Step(s, Core(Schedule(i)));
      !Present(AfterWrite(s1, k).core, s.core.procs[i].payload.task)
  {
    var p := s.core.procs[i];
    var s1 := Step(s, Core(Schedule(i)));
    forall x | x in s1.core.delayed && x.payload.task == p.payload.task ensures IsDue(x, s.pending[k].now) {
      ZAddMembers(s.core.delayed, p.payload, p.pc.score, x);
    }
    UncoveredWriteLoses(s1, k, p.payload.task);
  }

  /** The limit is needed: what lies beyond it at the read is lost by the write. */
  lemma CutOffIsLost(s: SplitState, now: real, p: Payload)
    requires now <= s.core.clock && p in CutOff(s.core.delayed, now)
    requires OnlyDelayed(s.core, p.task, now) && !InList(ReadBatch(s.core.delayed, now), p.task)
    ensures var s1 := AfterRead(s, now);
      s1.pending != [] && !Present(AfterWrite(s1, |s1.pending| - 1).core, p.task)
  {
    var s1 := AfterRead(s, now);
    UncoveredWriteLoses(s1, |s.pending|, p.task);
  }
}
