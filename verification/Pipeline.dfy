/** The task execution pipeline as a labelled step system.

    Every payload being processed is a coroutine with a program counter. One step of a coroutine is the code
    between two store operations together with the second of them, so any interleaving of any number of
    workers is a sequence of these steps. HTTP outcomes, rate-limit answers, random draws and the clock are
    parameters of the events. */
module Pipeline {
  import opened TaskQueue

  datatype TaskStatus = QUEUED | PROCESSING | RETRYING | SUCCESS | FAILED
  datatype ScanStatus = Pending | Running | Paused | Completed | ScanFailed | Cancelled

  datatype Row = Row(scan: ScanId, status: TaskStatus, attempts: nat, maxRetries: int)

  /** How one execution ended: a response, a failed request, or no admission by the rate limiter. */
  datatype Ending = Succeeded | HttpFailed | RateDenied

  datatype Pc =
    | Popped
    | Marked
    | Admitted
    | Executed(ok: bool)
    | Denied
    | Saved(end: Ending)
    | Judged(end: Ending, verdict: Option<ScanStatus>)
    | Evaluated(end: Ending)
    | RetryMarked
    | Stamped(score: real)
    | FailMarked

  datatype Proc = Proc(payload: Payload, pc: Pc)

  datatype Reason = Exhausted | WorkerError
  datatype Dead = Dead(payload: Payload, reason: Reason)

  /** What happened to a task so far: executed requests and seconds of backoff asked for. */
  datatype History = History(executions: nat, backoff: nat)

  datatype TaskSpec = TaskSpec(id: TaskId, retryCount: int, priority: string)

  datatype State = State(
    lists: Lists,
    delayed: seq<Entry>,
    dlq: seq<Dead>,
    procs: seq<Proc>,
    finished: seq<Payload>,
    rows: map<TaskId, Row>,
    scans: map<ScanId, ScanStatus>,
    history: map<TaskId, History>,
    clock: real)

  datatype Event =
    | CreateScan(id: ScanId)
    | Submit(scan: ScanId, tasks: seq<TaskSpec>)
    | Tick(now: real)
    | MoveDue(now: real)
    | Pop(draw: real)
    | Mark(i: nat)
    | AskLimiter(i: nat, granted: bool)
    | Execute(i: nat, ok: bool)
    | Save(i: nat)
    | ReadStatuses(i: nat)
    | WriteVerdict(i: nat)
    | Finish(i: nat)
    | HandleRetry(i: nat)
    | Stamp(i: nat)
    | Schedule(i: nat)
    | SendToDlq(i: nat)

  const INITIAL := State(NO_LISTS, [], [], [], [], map[], map[], map[], 0.0)

  // ------------------------------------------------------------------
  // Scan evaluation
  // ------------------------------------------------------------------

  predicate HasTasks(rows: map<TaskId, Row>, scan: ScanId) {
    exists t :: t in rows && rows[t].scan == scan
  }

  predicate AllTerminal(rows: map<TaskId, Row>, scan: ScanId) {
    forall t :: t in rows && rows[t].scan == scan ==> rows[t].status in {SUCCESS, FAILED}
  }

  predicate AllSuccess(rows: map<TaskId, Row>, scan: ScanId) {
    forall t :: t in rows && rows[t].scan == scan ==> rows[t].status == SUCCESS
  }

  /** What an evaluation of the scan decides from these rows; None leaves the scan alone. */
  function Verdict(rows: map<TaskId, Row>, scan: ScanId): Option<ScanStatus> {
    if !HasTasks(rows, scan) || !AllTerminal(rows, scan) then None
    else if AllSuccess(rows, scan) then Some(Completed)
    else Some(ScanFailed)
  }

  // ------------------------------------------------------------------
  // Submission
  // ------------------------------------------------------------------

  function NewPayloads(scan: ScanId, tasks: seq<TaskSpec>): (ps: seq<Payload>)
    ensures |ps| == |tasks|
  {
    seq(|tasks|, i requires 0 <= i < |tasks| =>
      Payload(tasks[i].id, scan, 0, tasks[i].retryCount, tasks[i].priority))
  }

  function NewRows(scan: ScanId, tasks: seq<TaskSpec>): map<TaskId, Row> {
    if tasks == [] then map[]
    else NewRows(scan, tasks[1..])[tasks[0].id := Row(scan, QUEUED, 0, tasks[0].retryCount)]
  }

  function NewHistory(tasks: seq<TaskSpec>): map<TaskId, History> {
    if tasks == [] then map[]
    else NewHistory(tasks[1..])[tasks[0].id := History(0, 0)]
  }

  /** Submitting to a scan that has not started, or is paused, sets it running. */
  function Started(status: ScanStatus): ScanStatus {
    if status in {Pending, Paused} then Running else status
  }

  predicate FreshTasks(rows: map<TaskId, Row>, tasks: seq<TaskSpec>) {
    (forall i :: 0 <= i < |tasks| ==> tasks[i].id !in rows) &&
    (forall i, j :: 0 <= i < j < |tasks| ==> tasks[i].id != tasks[j].id)
  }

  // ------------------------------------------------------------------
  // Database rows
  // ------------------------------------------------------------------

  function SetStatus(rows: map<TaskId, Row>, t: TaskId, status: TaskStatus): map<TaskId, Row> {
    if t in rows then rows[t := rows[t].(status := status)] else rows
  }

  function EndStatus(end: Ending): TaskStatus { if end == Succeeded then SUCCESS else FAILED }

  function SaveRow(rows: map<TaskId, Row>, t: TaskId, end: Ending): map<TaskId, Row> {
    if t in rows then rows[t := rows[t].(status := EndStatus(end), attempts := rows[t].attempts + 1)] else rows
  }

  function EndingOf(pc: Pc): Ending
    requires pc.Executed? || pc.Denied?
  {
    if pc == Denied then RateDenied else if pc.ok then Succeeded else HttpFailed
  }

  function AddExecution(h: map<TaskId, History>, t: TaskId): map<TaskId, History> {
    if t in h then h[t := h[t].(executions := h[t].executions + 1)] else h
  }

  function AddBackoff(h: map<TaskId, History>, t: TaskId, seconds: nat): map<TaskId, History> {
    if t in h then h[t := h[t].(backoff := h[t].backoff + seconds)] else h
  }

  // ------------------------------------------------------------------
  // Steps
  // ------------------------------------------------------------------

  predicate At(s: State, i: nat) { i < |s.procs| }

  function DropProc(procs: seq<Proc>, i: nat): seq<Proc>
    requires i < |procs|
  {
    procs[..i] + procs[i + 1..]
  }

  function Advance(s: State, i: nat, pc: Pc): State
    requires At(s, i)
  {
    s.(procs := s.procs[i := s.procs[i].(pc := pc)])
  }

  predicate Enabled(s: State, e: Event) {
    match e
    case CreateScan(id) => id !in s.scans
    case Submit(scan, tasks) => scan in s.scans && FreshTasks(s.rows, tasks)
    case Tick(now) => s.clock <= now
    case MoveDue(now) => now <= s.clock
    case Pop(draw) => 0.0 <= draw < 1.0
    case Mark(i) => At(s, i) && s.procs[i].pc.Popped?
    case AskLimiter(i, granted) => At(s, i) && s.procs[i].pc.Marked?
    case Execute(i, ok) => At(s, i) && s.procs[i].pc.Admitted?
    case Save(i) => At(s, i) && (s.procs[i].pc.Executed? || s.procs[i].pc.Denied?)
    case ReadStatuses(i) => At(s, i) && s.procs[i].pc.Saved?
    case WriteVerdict(i) => At(s, i) && s.procs[i].pc.Judged?
    case Finish(i) => At(s, i) && s.procs[i].pc == Evaluated(Succeeded)
    case HandleRetry(i) => At(s, i) && s.procs[i].pc == Evaluated(HttpFailed)
    case Stamp(i) => At(s, i) && s.procs[i].pc.RetryMarked? && s.procs[i].payload.attempt >= 1
    case Schedule(i) => At(s, i) && s.procs[i].pc.Stamped?
    case SendToDlq(i) => At(s, i) && (s.procs[i].pc.FailMarked? || s.procs[i].pc == Evaluated(RateDenied))
  }

  function SubmitTo(s: State, scan: ScanId, tasks: seq<TaskSpec>): State
    requires scan in s.scans
  {
    s.(lists := Enqueue(s.lists, NewPayloads(scan, tasks)),
       rows := s.rows + NewRows(scan, tasks),
       history := s.history + NewHistory(tasks),
       scans := s.scans[scan := Started(s.scans[scan])])
  }

  function PopFrom(s: State, draw: real): State {
    match FirstNonEmpty(s.lists, PollOrder(draw))
    case None => s
    case Some(q) =>
      s.(lists := s.lists.With(q, s.lists.Of(q)[1..]), procs := s.procs + [Proc(s.lists.Of(q)[0], Popped)])
  }

  function RetryStep(s: State, i: nat): State
    requires At(s, i)
  {
    var p := s.procs[i].payload;
    if p.attempt < p.maxRetries then
      s.(procs := s.procs[i := Proc(p.(attempt := p.attempt + 1), RetryMarked)],
         rows := SetStatus(s.rows, p.task, RETRYING))
    else
      Advance(s, i, FailMarked).(rows := SetStatus(s.rows, p.task, FAILED))
  }

  /** The state after an event. */
  function Next(s: State, e: Event): State
    requires Enabled(s, e)
  {
    match e
    case CreateScan(id) => s.(scans := s.scans[id := Pending])
    case Submit(scan, tasks) => SubmitTo(s, scan, tasks)
    case Tick(now) => s.(clock := now)
    case MoveDue(now) =>
      s.(lists := Enqueue(s.lists, ReadBatch(s.delayed, now)), delayed := NotDue(s.delayed, now))
    case Pop(draw) => PopFrom(s, draw)
    case Mark(i) => Advance(s, i, Marked).(rows := SetStatus(s.rows, s.procs[i].payload.task, PROCESSING))
    case AskLimiter(i, granted) => Advance(s, i, if granted then Admitted else Denied)
    case Execute(i, ok) =>
      Advance(s, i, Executed(ok)).(history := AddExecution(s.history, s.procs[i].payload.task))
    case Save(i) =>
      var end := EndingOf(s.procs[i].pc);
      Advance(s, i, Saved(end)).(rows := SaveRow(s.rows, s.procs[i].payload.task, end))
    case ReadStatuses(i) => Advance(s, i, Judged(s.procs[i].pc.end, JudgementOf(s, s.procs[i].payload.task)))
    case WriteVerdict(i) =>
      Advance(s, i, Evaluated(s.procs[i].pc.end))
      .(scans := WrittenScans(s, s.procs[i].payload.task, s.procs[i].pc.verdict))
    case Finish(i) => s.(procs := DropProc(s.procs, i), finished := s.finished + [s.procs[i].payload])
    case HandleRetry(i) => RetryStep(s, i)
    case Stamp(i) =>
      var seconds := Backoff(s.procs[i].payload.attempt);
      Advance(s, i, Stamped(s.clock + seconds as real))
      .(history := AddBackoff(s.history, s.procs[i].payload.task, seconds))
    case Schedule(i) =>
      s.(procs := DropProc(s.procs, i), delayed := ZAdd(s.delayed, s.procs[i].payload, s.procs[i].pc.score))
    case SendToDlq(i) =>
      s.(procs := DropProc(s.procs, i),
         dlq := s.dlq + [Dead(s.procs[i].payload, if s.procs[i].pc.FailMarked? then Exhausted else WorkerError)])
  }

  /** The reading half of an evaluation: the verdict the statuses call for, if the scan exists. */
  function JudgementOf(s: State, t: TaskId): Option<ScanStatus> {
    if t in s.rows && s.rows[t].scan in s.scans then Verdict(s.rows, s.rows[t].scan) else None
  }

  /** The writing half: commit the verdict read before. */
  function WrittenScans(s: State, t: TaskId, verdict: Option<ScanStatus>): map<ScanId, ScanStatus> {
    if verdict.Some? && t in s.rows then s.scans[s.rows[t].scan := verdict.value] else s.scans
  }

  // ------------------------------------------------------------------
  // Runs
  // ------------------------------------------------------------------

  predicate IsRun(s: State, es: seq<Event>)
    decreases |es|
  {
    es == [] || (Enabled(s, es[0]) && IsRun(Next(s, es[0]), es[1..]))
  }

  function RunFrom(s: State, es: seq<Event>): State
    requires IsRun(s, es)
    decreases |es|
  {
    if es == [] then s else RunFrom(Next(s, es[0]), es[1..])
  }

  /** The tasks a step drops: a move removes the due entries beyond the read limit without pushing them. */
  function DroppedBy(s: State, e: Event): set<TaskId> {
    if e.MoveDue? then set p | p in CutOff(s.delayed, e.now) :: p.task else {}
  }

  function Dropped(s: State, es: seq<Event>): set<TaskId>
    requires IsRun(s, es)
    decreases |es|
  {
    if es == [] then {} else DroppedBy(s, es[0]) + Dropped(Next(s, es[0]), es[1..])
  }

  /** `es` followed by `e` from the same start. */
  lemma ExtendRun(s: State, es: seq<Event>, e: Event)
    requires IsRun(s, es) && Enabled(RunFrom(s, es), e)
    ensures IsRun(s, es + [e]) && RunFrom(s, es + [e]) == Next(RunFrom(s, es), e)
    decreases |es|
  {
    hide Next, Enabled;
    if es == [] {
      assert [e][1..] == [];
      assert [] + [e] == [e];
    } else {
      assert (es + [e])[1..] == es[1..] + [e];
      ExtendRun(Next(s, es[0]), es[1..], e);
    }
  }

  lemma {:induction false} RunsAppend(s: State, x: seq<Event>, y: seq<Event>)
    requires IsRun(s, x) && IsRun(RunFrom(s, x), y)
    ensures IsRun(s, x + y) && RunFrom(s, x + y) == RunFrom(RunFrom(s, x), y)
    decreases |x|
  {
    hide Next, Enabled;
    if x == [] {
      assert x + y == y;
    } else {
      assert (x + y)[1..] == x[1..] + y;
      RunsAppend(Next(s, x[0]), x[1..], y);
    }
  }
}
