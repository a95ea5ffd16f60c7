/** Queue and database agree in every reachable state, and no task is duplicated or, but for the read limit of
    the delayed move, lost. */
module Agreement {
  import opened TaskQueue
  import opened Pipeline
  import opened Conservation

  // ------------------------------------------------------------------
  // What the database must say about a token
  // ------------------------------------------------------------------

  function ListedStatus(attempt: nat): TaskStatus { if attempt == 0 then QUEUED else RETRYING }

  function StatusAt(tk: Token): TaskStatus {
    match tk.place
    case Listed(_) => ListedStatus(tk.payload.attempt)
    case Waiting(_) => RETRYING
    case InFlight(pc) => (
      match pc
      case Popped => ListedStatus(tk.payload.attempt)
      case Saved(end) => EndStatus(end)
      case Judged(end, _) => EndStatus(end)
      case Evaluated(end) => EndStatus(end)
      case RetryMarked => RETRYING
      case Stamped(_) => RETRYING
      case FailMarked => FAILED
      case _ => PROCESSING)
    case Done => SUCCESS
    case DeadLettered(_) => FAILED
  }

  /** From the save of an execution until the next increment the row is one attempt ahead. */
  predicate IsSaved(place: Place) {
    place.Done? || place.DeadLettered?
    || (place.InFlight? && (place.pc.Saved? || place.pc.Judged? || place.pc.Evaluated? || place.pc.FailMarked?))
  }

  /** The current attempt has sent its request. */
  predicate HasExecuted(place: Place) {
    match place
    case Done => true
    case DeadLettered(reason) => reason.Exhausted?
    case InFlight(pc) => (
      match pc
      case Executed(_) => true
      case Saved(end) => end != RateDenied
      case Judged(end, _) => end != RateDenied
      case Evaluated(end) => end != RateDenied
      case FailMarked => true
      case _ => false)
    case _ => false
  }

  function One(b: bool): nat { if b then 1 else 0 }

  /** 2 + 4 + ... + 2^k seconds: the backoff of the first k retries. */
  function TotalBackoff(k: nat): nat { 2 * (Pow2(k) - 1) }

  predicate HasRetried(place: Place) {
    place.Waiting? || (place.InFlight? && (place.pc.RetryMarked? || place.pc.Stamped?))
  }

  predicate IsExhausted(place: Place) {
    place == DeadLettered(Exhausted) || place == InFlight(FailMarked)
  }

  predicate Agree(row: Row, h: History, tk: Token) {
    var p := tk.payload;
    && row.scan == p.scan
    && row.maxRetries == p.maxRetries
    && row.status == StatusAt(tk)
    && row.attempts == p.attempt + One(IsSaved(tk.place))
    && h.executions == p.attempt + One(HasExecuted(tk.place))
    && (p.attempt == 0 || p.attempt <= p.maxRetries)
    && (HasRetried(tk.place) ==> p.attempt >= 1)
    && (IsExhausted(tk.place) ==> p.attempt >= p.maxRetries)
    && h.backoff == (if tk.place == InFlight(RetryMarked) then TotalBackoff(p.attempt - 1) else TotalBackoff(p.attempt))
  }

  /** Database and history agree with `m`, which gives each task still in the system its only token; the
      `lost` tasks are the others. */
  ghost predicate Linked(rows: map<TaskId, Row>, history: map<TaskId, History>, m: map<TaskId, Token>, lost: set<TaskId>) {
    && history.Keys == rows.Keys
    && rows.Keys == m.Keys + lost
    && m.Keys !! lost
    && (forall t :: t in m ==> t == m[t].payload.task && Agree(rows[t], history[t], m[t]))
    && (forall t :: t in lost ==> rows[t].status == RETRYING && 1 <= history[t].executions <= rows[t].maxRetries)
  }

  ghost predicate Inv(s: State, m: map<TaskId, Token>, lost: set<TaskId>) {
    Represents(Tokens(s), m) && Linked(s.rows, s.history, m, lost)
  }

  lemma InitialInv()
    ensures Inv(INITIAL, map[], {})
  {
    assert Tokens(INITIAL) == multiset{};
  }

  /** One task changes its row, its history and its token. */
  lemma LinkedReplace(s: State, m: map<TaskId, Token>, lost: set<TaskId>, s': State, now: Token)
    requires Linked(s.rows, s.history, m, lost)
    requires now.payload.task in m
    requires s'.rows.Keys == s.rows.Keys && s'.history.Keys == s.history.Keys
    requires forall t :: t in s.rows && t != now.payload.task ==> s'.rows[t] == s.rows[t]
    requires forall t :: t in s.history && t != now.payload.task ==> s'.history[t] == s.history[t]
    requires Agree(s'.rows[now.payload.task], s'.history[now.payload.task], now)
    ensures Linked(s'.rows, s'.history, m[now.payload.task := now], lost)
  {
  }

  // ------------------------------------------------------------------
  // Steps of a process that goes on
  // ------------------------------------------------------------------

  predicate MovesProc(e: Event) {
    e.Mark? || e.AskLimiter? || e.Execute? || e.Save? || e.ReadStatuses? || e.WriteVerdict? || e.HandleRetry? || e.Stamp?
  }

  /** What such a step leaves alone. */
  predicate OnlyProcess(s: State, i: nat, s': State)
    requires At(s, i)
  {
    && |s'.procs| == |s.procs| && s'.procs == s.procs[i := s'.procs[i]]
    && s'.procs[i].payload.task == s.procs[i].payload.task
    && s'.lists == s.lists && s'.delayed == s.delayed && s'.finished == s.finished && s'.dlq == s.dlq
    && s'.rows.Keys == s.rows.Keys && s'.history.Keys == s.history.Keys
    && (forall t :: t in s.rows && t != s.procs[i].payload.task ==> s'.rows[t] == s.rows[t])
    && (forall t :: t in s.history && t != s.procs[i].payload.task ==> s'.history[t] == s.history[t])
  }

  lemma RetryFrame(s: State, i: nat)
    requires Enabled(s, HandleRetry(i))
    ensures OnlyProcess(s, i, Next(s, HandleRetry(i)))
  {
  }

  /** Such a step changes the process, its own row and its own history, and no queue. */
  lemma ProcStepFrame(s: State, e: Event)
    requires Enabled(s, e) && MovesProc(e)
    ensures OnlyProcess(s, e.i, Next(s, e))
  {
    hide Backoff, JudgementOf, WrittenScans, EndStatus, EndingOf, RetryStep;
    if e.HandleRetry? {
      RetryFrame(s, e.i);
    }
  }

  /** The row and the history of process i's task agree with its token. */
  predicate AgreesAt(s: State, i: nat)
    requires At(s, i)
  {
    var t := s.procs[i].payload.task;
    t in s.rows && t in s.history && Agree(s.rows[t], s.history[t], ProcToken(s.procs[i]))
  }

  lemma AgreeMark(s: State, e: Event)
    requires Enabled(s, e) && (e.Mark? || e.AskLimiter? || e.Execute?)
    requires AgreesAt(s, e.i)
    ensures AgreesAt(Next(s, e), e.i)
  {
  }

  lemma AgreeSave(s: State, e: Event)
    requires Enabled(s, e) && (e.Save? || e.ReadStatuses? || e.WriteVerdict?)
    requires AgreesAt(s, e.i)
    ensures AgreesAt(Next(s, e), e.i)
  {
  }

  lemma AgreeHandleRetry(s: State, e: Event)
    requires Enabled(s, e) && (e.HandleRetry?)
    requires AgreesAt(s, e.i)
    ensures AgreesAt(Next(s, e), e.i)
  {
  }

  lemma AgreeStamp(s: State, e: Event)
    requires Enabled(s, e) && (e.Stamp?)
    requires AgreesAt(s, e.i)
    ensures AgreesAt(Next(s, e), e.i)
  {
  }

  lemma ProcStepAgree(s: State, e: Event)
    requires Enabled(s, e) && MovesProc(e)
    requires AgreesAt(s, e.i)
    ensures AgreesAt(Next(s, e), e.i)
  {
    if e.HandleRetry? {
      AgreeHandleRetry(s, e);
    } else if e.Stamp? {
      AgreeStamp(s, e);
    } else if e.Save? || e.ReadStatuses? || e.WriteVerdict? {
      AgreeSave(s, e);
    } else {
      AgreeMark(s, e);
    }
  }

  /** Everything but one process of a state. */
  function Others(s: State, i: nat): multiset<Token>
    requires At(s, i)
  {
    ListedTokens(s.lists) + multiset(WaitingTokens(s.delayed)) + multiset(ProcTokens(DropProc(s.procs, i)))
    + multiset(DoneTokens(s.finished)) + multiset(DeadTokens(s.dlq))
  }

  lemma SplitProc(s: State, i: nat)
    requires At(s, i)
    ensures Tokens(s) == Others(s, i) + multiset{ProcToken(s.procs[i])}
  {
    TokensDropProc(s.procs, i);
  }

  lemma InvAgreesAt(s: State, m: map<TaskId, Token>, lost: set<TaskId>, i: nat)
    requires Inv(s, m, lost) && At(s, i)
    ensures AgreesAt(s, i)
  {
    assert ProcTokens(s.procs)[i] == ProcToken(s.procs[i]);
    assert ProcToken(s.procs[i]) in Tokens(s);
    assert Tokens(s)[ProcToken(s.procs[i])] > 0;
  }

  lemma ProcStepInv(s: State, m: map<TaskId, Token>, lost: set<TaskId>, e: Event)
    returns (m': map<TaskId, Token>)
    requires Inv(s, m, lost) && Enabled(s, e) && MovesProc(e)
    ensures Inv(Next(s, e), m', lost)
  {
    var i, s' := e.i, Next(s, e);
    ProcStepFrame(s, e);
    var was, now := ProcToken(s.procs[i]), ProcToken(s'.procs[i]);
    SplitProc(s, i);
    assert Others(s', i) == Others(s, i) by {
      assert DropProc(s'.procs, i) == DropProc(s.procs, i);
    }
    SplitProc(s', i);
    Replace(Others(s, i), m, was, now);
    ProcStepAgree(s, e);
    m' := m[was.payload.task := now];
    LinkedReplace(s, m, lost, s', now);
  }

  // ------------------------------------------------------------------
  // Steps that move a payload between a queue and a process
  // ------------------------------------------------------------------

  /** The places a payload can go to while its row is not written. */
  predicate Relocates(was: Place, now: Place) {
    || (was.Listed? && now == InFlight(Popped))
    || (was == InFlight(Evaluated(Succeeded)) && now == Done)
    || (was == InFlight(FailMarked) && now == DeadLettered(Exhausted))
    || (was == InFlight(Evaluated(RateDenied)) && now == DeadLettered(WorkerError))
    || (was.InFlight? && was.pc.Stamped? && now.Waiting?)
    || (was.Waiting? && now.Listed?)
  }

  lemma RelocateAgree(row: Row, h: History, p: Payload, was: Place, now: Place)
    requires Relocates(was, now) && Agree(row, h, Token(p, was))
    ensures Agree(row, h, Token(p, now))
  {
  }

  /** One payload changes place; database and history stay as they are. */
  lemma InvRelocate(s: State, m: map<TaskId, Token>, lost: set<TaskId>, rest: multiset<Token>, p: Payload, was: Place,
                    s': State, now: Place)
    requires Inv(s, m, lost)
    requires Tokens(s) == rest + multiset{Token(p, was)} && Tokens(s') == rest + multiset{Token(p, now)}
    requires s'.rows == s.rows && s'.history == s.history
    requires Relocates(was, now)
    ensures Inv(s', m[p.task := Token(p, now)], lost)
  {
    Replace(rest, m, Token(p, was), Token(p, now));
    RelocateAgree(s.rows[p.task], s.history[p.task], p, was, now);
    LinkedReplace(s, m, lost, s', Token(p, now));
  }

  function AfterPop(s: State, q: Queue): State
    requires s.lists.Of(q) != []
  {
    s.(lists := s.lists.With(q, s.lists.Of(q)[1..]), procs := s.procs + [Proc(s.lists.Of(q)[0], Popped)])
  }

  function RestOfPop(s: State, q: Queue): multiset<Token>
    requires s.lists.Of(q) != []
  {
    ListedTokens(s.lists.With(q, s.lists.Of(q)[1..])) + multiset(WaitingTokens(s.delayed))
    + multiset(ProcTokens(s.procs)) + multiset(DoneTokens(s.finished)) + multiset(DeadTokens(s.dlq))
  }

  lemma TokensNewProc(ps: seq<Proc>, p: Proc)
    ensures multiset(ProcTokens(ps + [p])) == multiset(ProcTokens(ps)) + multiset{ProcToken(p)}
  {
    assert ProcTokens(ps + [p]) == ProcTokens(ps) + [ProcToken(p)];
  }

  lemma PopTokensBefore(s: State, q: Queue)
    requires s.lists.Of(q) != []
    ensures Tokens(s) == RestOfPop(s, q) + multiset{Token(s.lists.Of(q)[0], Listed(q))}
  {
    hide ListedTokens, WaitingTokens, ProcTokens, DoneTokens, DeadTokens;
    TokensPopList(s.lists, q);
  }

  lemma PopTokensAfter(s: State, q: Queue)
    requires s.lists.Of(q) != []
    ensures Tokens(AfterPop(s, q)) == RestOfPop(s, q) + multiset{Token(s.lists.Of(q)[0], InFlight(Popped))}
  {
    hide ListedTokens, WaitingTokens, ProcTokens, DoneTokens, DeadTokens;
    TokensNewProc(s.procs, Proc(s.lists.Of(q)[0], Popped));
  }

  lemma PopInv(s: State, m: map<TaskId, Token>, lost: set<TaskId>, draw: real)
    returns (m': map<TaskId, Token>)
    requires Inv(s, m, lost) && Enabled(s, Pop(draw))
    ensures Inv(Next(s, Pop(draw)), m', lost)
  {
    match FirstNonEmpty(s.lists, PollOrder(draw))
    case None => m' := m;
    case Some(q) =>
      var p := s.lists.Of(q)[0];
      assert Next(s, Pop(draw)) == AfterPop(s, q);
      PopTokensBefore(s, q);
      PopTokensAfter(s, q);
      InvRelocate(s, m, lost, RestOfPop(s, q), p, Listed(q), AfterPop(s, q), InFlight(Popped));
      m' := m[p.task := Token(p, InFlight(Popped))];
  }

  lemma FinishTokens(s: State, i: nat)
    requires Enabled(s, Finish(i))
    ensures Tokens(Next(s, Finish(i))) == Others(s, i) + multiset{Token(s.procs[i].payload, Done)}
  {
    var p := s.procs[i].payload;
    assert DoneTokens(s.finished + [p]) == DoneTokens(s.finished) + [Token(p, Done)];
  }

  lemma FinishInv(s: State, m: map<TaskId, Token>, lost: set<TaskId>, i: nat)
    returns (m': map<TaskId, Token>)
    requires Inv(s, m, lost) && Enabled(s, Finish(i))
    ensures Inv(Next(s, Finish(i)), m', lost)
  {
    hide Inv, Tokens, Others;
    var p := s.procs[i].payload;
    SplitProc(s, i);
    FinishTokens(s, i);
    InvRelocate(s, m, lost, Others(s, i), p, InFlight(s.procs[i].pc), Next(s, Finish(i)), Done);
    m' := m[p.task := Token(p, Done)];
  }

  lemma DlqTokens(s: State, i: nat, reason: Reason)
    requires Enabled(s, SendToDlq(i)) && reason == (if s.procs[i].pc.FailMarked? then Exhausted else WorkerError)
    ensures Tokens(Next(s, SendToDlq(i))) == Others(s, i) + multiset{Token(s.procs[i].payload, DeadLettered(reason))}
  {
    var p := s.procs[i].payload;
    assert DeadTokens(s.dlq + [Dead(p, reason)]) == DeadTokens(s.dlq) + [Token(p, DeadLettered(reason))];
  }

  lemma DlqInv(s: State, m: map<TaskId, Token>, lost: set<TaskId>, i: nat)
    returns (m': map<TaskId, Token>)
    requires Inv(s, m, lost) && Enabled(s, SendToDlq(i))
    ensures Inv(Next(s, SendToDlq(i)), m', lost)
  {
    hide Inv, Tokens, Others;
    var p := s.procs[i].payload;
    var reason := if s.procs[i].pc.FailMarked? then Exhausted else WorkerError;
    SplitProc(s, i);
    DlqTokens(s, i, reason);
    InvRelocate(s, m, lost, Others(s, i), p, InFlight(s.procs[i].pc), Next(s, SendToDlq(i)), DeadLettered(reason));
    m' := m[p.task := Token(p, DeadLettered(reason))];
  }

  /** No two tokens of a represented state share a task. */
  lemma SameTaskSameToken(toks: multiset<Token>, m: map<TaskId, Token>, a: Token, b: Token)
    requires Represents(toks, m) && a in toks && b in toks && a.payload.task == b.payload.task
    ensures a == b
  {
    assert toks[a] > 0 && toks[b] > 0;
  }

  /** A payload about to be scheduled is not in the delayed set already, so ZADD adds a member. */
  lemma NotYetDelayed(s: State, m: map<TaskId, Token>, i: nat)
    requires Represents(Tokens(s), m) && At(s, i)
    ensures Without(s.delayed, s.procs[i].payload) == s.delayed
  {
    assert ProcTokens(s.procs)[i] == ProcToken(s.procs[i]);
    forall e | e in s.delayed ensures e.payload != s.procs[i].payload {
      var k :| 0 <= k < |s.delayed| && s.delayed[k] == e;
      assert WaitingTokens(s.delayed)[k] == WaitingToken(e);
      if e.payload.task == s.procs[i].payload.task {
        SameTaskSameToken(Tokens(s), m, WaitingToken(e), ProcToken(s.procs[i]));
      }
    }
    WithoutAbsent(s.delayed, s.procs[i].payload);
  }

  lemma ScheduleTokens(s: State, i: nat)
    requires Enabled(s, Schedule(i)) && Without(s.delayed, s.procs[i].payload) == s.delayed
    ensures Tokens(Next(s, Schedule(i))) == Others(s, i) + multiset{Token(s.procs[i].payload, Waiting(s.procs[i].pc.score))}
  {
    TokensInsert(s.delayed, Entry(s.procs[i].payload, s.procs[i].pc.score));
  }

  lemma ScheduleInv(s: State, m: map<TaskId, Token>, lost: set<TaskId>, i: nat)
    returns (m': map<TaskId, Token>)
    requires Inv(s, m, lost) && Enabled(s, Schedule(i))
    ensures Inv(Next(s, Schedule(i)), m', lost)
  {
    var p, score := s.procs[i].payload, s.procs[i].pc.score;
    SplitProc(s, i);
    NotYetDelayed(s, m, i);
    ScheduleTokens(s, i);
    InvRelocate(s, m, lost, Others(s, i), p, InFlight(s.procs[i].pc), Next(s, Schedule(i)), Waiting(score));
    m' := m[p.task := Token(p, Waiting(score))];
  }

  // ------------------------------------------------------------------
  // The delayed move
  // ------------------------------------------------------------------

  /** Everything a move leaves where it is. */
  function RestOfMove(s: State, now: real): multiset<Token> {
    ListedTokens(s.lists) + multiset(WaitingTokens(NotDue(s.delayed, now))) + multiset(ProcTokens(s.procs))
    + multiset(DoneTokens(s.finished)) + multiset(DeadTokens(s.dlq))
  }

  /** How many of the due entries one read returns. */
  function ReadCount(s: State, now: real): (k: nat)
    ensures k <= |Due(s.delayed, now)|
  {
    if |Due(s.delayed, now)| <= MOVE_LIMIT then |Due(s.delayed, now)| else MOVE_LIMIT
  }

  function Kept(s: State, now: real): seq<Entry> { Due(s.delayed, now)[..ReadCount(s, now)] }

  function Cut(s: State, now: real): seq<Entry> { Due(s.delayed, now)[ReadCount(s, now)..] }

  lemma WaitingSplit(es: seq<Entry>, k: nat)
    requires k <= |es|
    ensures multiset(WaitingTokens(es)) == multiset(WaitingTokens(es[..k])) + multiset(WaitingTokens(es[k..]))
  {
    assert WaitingTokens(es) == WaitingTokens(es[..k]) + WaitingTokens(es[k..]);
  }

  lemma MoveTokensBefore(s: State, now: real)
    ensures Tokens(s) == RestOfMove(s, now) + multiset(WaitingTokens(Kept(s, now))) + multiset(WaitingTokens(Cut(s, now)))
  {
    WaitingPartition(s.delayed, now);
    WaitingSplit(Due(s.delayed, now), ReadCount(s, now));
    hide ListedTokens, WaitingTokens, ProcTokens, DoneTokens, DeadTokens, Due, NotDue, ReadCount;
  }

  lemma MoveTokensAfter(s: State, now: real)
    requires now <= s.clock
    ensures Tokens(Next(s, MoveDue(now))) == RestOfMove(s, now) + multiset(Relisted(Payloads(Kept(s, now))))
  {
    hide ListedTokens, WaitingTokens, ProcTokens, DoneTokens, DeadTokens, Due, NotDue, Enqueue, Relisted;
    TokensEnqueue(s.lists, ReadBatch(s.delayed, now));
    assert ReadBatch(s.delayed, now) == Payloads(Kept(s, now));
  }

  lemma DroppedIsCut(s: State, now: real)
    ensures DroppedBy(s, MoveDue(now)) == Ids(Cut(s, now))
  {
    var cut := CutOff(s.delayed, now);
    assert cut == Payloads(Cut(s, now));
    forall t ensures t in DroppedBy(s, MoveDue(now)) <==> t in Ids(Cut(s, now)) {
      if t in DroppedBy(s, MoveDue(now)) {
        var i :| 0 <= i < |cut| && cut[i].task == t;
        assert Cut(s, now)[i] in Cut(s, now);
      }
      if t in Ids(Cut(s, now)) {
        var i :| 0 <= i < |Cut(s, now)| && Cut(s, now)[i].payload.task == t;
        assert cut[i] in cut;
      }
    }
  }

  lemma MoveLinked(s: State, m: map<TaskId, Token>, lost: set<TaskId>, m': map<TaskId, Token>, kept: seq<Entry>, cut: seq<Entry>)
    requires Linked(s.rows, s.history, m, lost)
    requires forall e :: e in kept || e in cut ==> e.payload.task in m && m[e.payload.task] == WaitingToken(e)
    requires m'.Keys == m.Keys - Ids(cut)
    requires forall e :: e in kept ==> e.payload.task in m' && m'[e.payload.task] == RelistedToken(e.payload)
    requires forall t :: t in m' && t !in Ids(kept) ==> m'[t] == m[t]
    ensures Linked(s.rows, s.history, m', lost + Ids(cut))
  {
    forall t | t in m' ensures t == m'[t].payload.task && Agree(s.rows[t], s.history[t], m'[t]) {
      if t in Ids(kept) {
        var e :| e in kept && e.payload.task == t;
        var to := RelistedToken(e.payload).place;
        RelocateAgree(s.rows[t], s.history[t], e.payload, Waiting(e.score), to);
      }
    }
  }

  /** Dropping the cut entries and relisting the kept ones, on the tokens alone. */
  lemma MoveMap(rest: multiset<Token>, m: map<TaskId, Token>, kept: seq<Entry>, cut: seq<Entry>)
    returns (m': map<TaskId, Token>)
    requires Represents(rest + multiset(WaitingTokens(kept)) + multiset(WaitingTokens(cut)), m)
    ensures forall e :: e in kept || e in cut ==> e.payload.task in m && m[e.payload.task] == WaitingToken(e)
    ensures Represents(rest + multiset(Relisted(Payloads(kept))), m')
    ensures m'.Keys == m.Keys - Ids(cut)
    ensures forall e :: e in kept ==> e.payload.task in m' && m'[e.payload.task] == RelistedToken(e.payload)
    ensures forall t :: t in m' && t !in Ids(kept) ==> m'[t] == m[t]
  {
    hide Represents;
    DropWaiting(rest + multiset(WaitingTokens(kept)), m, cut);
    var m1 := m - Ids(cut);
    DropWaiting(rest, m1, kept);
    DistinctWaiting(rest, m1, kept);
    var toks := Relisted(Payloads(kept));
    assert forall tk :: tk in toks ==> tk.payload.task !in m1 - Ids(kept) by {
      forall i | 0 <= i < |toks| ensures toks[i].payload.task in Ids(kept) {
        assert kept[i] in kept;
      }
    }
    m' := AddAll(rest, m1 - Ids(kept), toks);
    forall e | e in kept ensures e.payload.task in m' && m'[e.payload.task] == RelistedToken(e.payload) {
      var i :| 0 <= i < |kept| && kept[i] == e;
      assert toks[i] == RelistedToken(e.payload);
    }
    MoveKeys(m, m', kept, cut);
  }

  lemma MoveKeys(m: map<TaskId, Token>, m': map<TaskId, Token>, kept: seq<Entry>, cut: seq<Entry>)
    requires forall e :: e in kept ==> e.payload.task in m - Ids(cut) && e.payload.task in m'
    requires forall t :: t in m' <==> t in m - Ids(cut) - Ids(kept) || exists i :: 0 <= i < |kept| && kept[i].payload.task == t
    ensures m'.Keys == m.Keys - Ids(cut)
  {
  }

  lemma MoveInv(s: State, m: map<TaskId, Token>, lost: set<TaskId>, now: real) returns (m': map<TaskId, Token>)
    requires Inv(s, m, lost) && now <= s.clock
    ensures Inv(Next(s, MoveDue(now)), m', lost + DroppedBy(s, MoveDue(now)))
  {
    MoveTokensBefore(s, now);
    MoveTokensAfter(s, now);
    DroppedIsCut(s, now);
    m' := MoveMap(RestOfMove(s, now), m, Kept(s, now), Cut(s, now));
    MoveLinked(s, m, lost, m', Kept(s, now), Cut(s, now));
  }

  // ------------------------------------------------------------------
  // Submission
  // ------------------------------------------------------------------

  predicate DistinctTasks(tasks: seq<TaskSpec>) {
    forall i, j :: 0 <= i < j < |tasks| ==> tasks[i].id != tasks[j].id
  }

  lemma {:induction false} NewRowsKeys(scan: ScanId, tasks: seq<TaskSpec>, t: TaskId)
    ensures NewHistory(tasks).Keys == NewRows(scan, tasks).Keys
    ensures t in NewRows(scan, tasks) ==> exists i :: 0 <= i < |tasks| && tasks[i].id == t
  {
    if tasks != [] {
      NewRowsKeys(scan, tasks[1..], t);
      if t in NewRows(scan, tasks) && t != tasks[0].id {
        var i :| 0 <= i < |tasks[1..]| && tasks[1..][i].id == t;
        assert tasks[i + 1].id == t;
      }
    }
  }

  lemma {:induction false} NewRowsAt(scan: ScanId, tasks: seq<TaskSpec>, i: nat)
    requires i < |tasks| && DistinctTasks(tasks)
    ensures tasks[i].id in NewRows(scan, tasks)
    ensures NewRows(scan, tasks)[tasks[i].id] == Row(scan, QUEUED, 0, tasks[i].retryCount)
    ensures tasks[i].id in NewHistory(tasks) && NewHistory(tasks)[tasks[i].id] == History(0, 0)
  {
    if i > 0 {
      NewRowsAt(scan, tasks[1..], i - 1);
    }
  }

  lemma NewTaskAgrees(scan: ScanId, spec: TaskSpec, p: Payload)
    requires p == Payload(spec.id, scan, 0, spec.retryCount, spec.priority)
    ensures Agree(Row(scan, QUEUED, 0, spec.retryCount), History(0, 0), RelistedToken(p))
    ensures RelistedToken(p).payload == p
  {
  }

  /** New tasks join with rows, histories and tokens that agree. */
  lemma LinkedExtend(s: State, m: map<TaskId, Token>, lost: set<TaskId>, added: set<TaskId>,
                     rows: map<TaskId, Row>, history: map<TaskId, History>, m': map<TaskId, Token>)
    requires Linked(s.rows, s.history, m, lost) && added !! s.rows.Keys
    requires rows.Keys == s.rows.Keys + added && history.Keys == s.rows.Keys + added && m'.Keys == m.Keys + added
    requires forall t :: t in s.rows ==> rows[t] == s.rows[t] && history[t] == s.history[t]
    requires forall t :: t in m ==> m'[t] == m[t]
    requires forall t :: t in added ==> m'[t].payload.task == t && Agree(rows[t], history[t], m'[t])
    ensures Linked(rows, history, m', lost)
  {
  }

  lemma SubmitLinked(s: State, m: map<TaskId, Token>, lost: set<TaskId>, scan: ScanId, tasks: seq<TaskSpec>, m': map<TaskId, Token>)
    requires Linked(s.rows, s.history, m, lost) && FreshTasks(s.rows, tasks)
    requires forall i :: 0 <= i < |tasks| ==>
      tasks[i].id in m' && m'[tasks[i].id] == RelistedToken(NewPayloads(scan, tasks)[i])
    requires forall t :: t in m' <==> t in m || exists i :: 0 <= i < |tasks| && tasks[i].id == t
    requires forall t :: t in m ==> m'[t] == m[t]
    ensures Linked(s.rows + NewRows(scan, tasks), s.history + NewHistory(tasks), m', lost)
  {
    hide Agree, RelistedToken, NewRows, NewHistory;
    NewRowsKeys(scan, tasks, 0);
    var newRows, newHistory := NewRows(scan, tasks), NewHistory(tasks);
    var rows, history := s.rows + newRows, s.history + newHistory;
    var added := newRows.Keys;
    forall t | t in added ensures t !in s.rows && t in m' && m'[t].payload.task == t && Agree(rows[t], history[t], m'[t]) {
      NewRowsKeys(scan, tasks, t);
      var i :| 0 <= i < |tasks| && tasks[i].id == t;
      NewRowsAt(scan, tasks, i);
      var p := NewPayloads(scan, tasks)[i];
      NewTaskAgrees(scan, tasks[i], p);
    }
    forall t ensures t in m' <==> t in m.Keys + added {
      NewRowsKeys(scan, tasks, t);
      if t in m' && t !in m {
        var i :| 0 <= i < |tasks| && tasks[i].id == t;
        NewRowsAt(scan, tasks, i);
      }
    }
    assert m'.Keys == m.Keys + added;
    LinkedExtend(s, m, lost, added, rows, history, m');
  }

  lemma SubmitTokens(s: State, scan: ScanId, tasks: seq<TaskSpec>)
    requires scan in s.scans
    ensures Tokens(SubmitTo(s, scan, tasks)) == Tokens(s) + multiset(Relisted(NewPayloads(scan, tasks)))
  {
    TokensEnqueue(s.lists, NewPayloads(scan, tasks));
  }

  lemma SubmitMap(toks: multiset<Token>, m: map<TaskId, Token>, scan: ScanId, tasks: seq<TaskSpec>)
    returns (m': map<TaskId, Token>)
    requires Represents(toks, m) && DistinctTasks(tasks) && forall i :: 0 <= i < |tasks| ==> tasks[i].id !in m
    ensures Represents(toks + multiset(Relisted(NewPayloads(scan, tasks))), m')
    ensures forall i :: 0 <= i < |tasks| ==>
      tasks[i].id in m' && m'[tasks[i].id] == RelistedToken(NewPayloads(scan, tasks)[i])
    ensures forall t :: t in m' <==> t in m || exists i :: 0 <= i < |tasks| && tasks[i].id == t
    ensures forall t :: t in m ==> m'[t] == m[t]
  {
    var new_ := Relisted(NewPayloads(scan, tasks));
    assert forall i :: 0 <= i < |tasks| ==> new_[i].payload.task == tasks[i].id;
    m' := AddAll(toks, m, new_);
    forall i | 0 <= i < |tasks|
      ensures tasks[i].id in m' && m'[tasks[i].id] == RelistedToken(NewPayloads(scan, tasks)[i])
    {
      assert new_[i] in new_;
    }
  }

  lemma SubmitInv(s: State, m: map<TaskId, Token>, lost: set<TaskId>, scan: ScanId, tasks: seq<TaskSpec>)
    returns (m': map<TaskId, Token>)
    requires Inv(s, m, lost) && Enabled(s, Submit(scan, tasks))
    ensures Inv(Next(s, Submit(scan, tasks)), m', lost)
  {
    SubmitTokens(s, scan, tasks);
    m' := SubmitMap(Tokens(s), m, scan, tasks);
    SubmitLinked(s, m, lost, scan, tasks, m');
  }

  // ------------------------------------------------------------------
  // Every step and every run
  // ------------------------------------------------------------------

  lemma MoveIsPast(s: State, now: real)
    requires Enabled(s, MoveDue(now))
    ensures now <= s.clock
  {
  }

  lemma DropsNothing(s: State, e: Event)
    ensures !e.MoveDue? ==> DroppedBy(s, e) == {}
  {
  }

  lemma IdleInv(s: State, m: map<TaskId, Token>, lost: set<TaskId>, e: Event)
    requires Inv(s, m, lost) && Enabled(s, e) && (e.CreateScan? || e.Tick?)
    ensures Inv(Next(s, e), m, lost)
  {
  }

  lemma ProcEvents(e: Event)
    requires !e.CreateScan? && !e.Tick? && !e.Submit? && !e.MoveDue? && !e.Pop? && !e.Finish? && !e.Schedule? && !e.SendToDlq?
    ensures MovesProc(e)
  {
  }

  lemma StepInv(s: State, m: map<TaskId, Token>, lost: set<TaskId>, e: Event)
    returns (m': map<TaskId, Token>)
    requires Inv(s, m, lost) && Enabled(s, e)
    ensures Inv(Next(s, e), m', lost + DroppedBy(s, e))
  {
    hide *;
    assert !e.MoveDue? ==> lost + DroppedBy(s, e) == lost by { DropsNothing(s, e); }
    match e
    case CreateScan(_) => m' := m; IdleInv(s, m, lost, e);
    case Tick(_) => m' := m; IdleInv(s, m, lost, e);
    case Submit(scan, tasks) => m' := SubmitInv(s, m, lost, scan, tasks);
    case MoveDue(now) => MoveIsPast(s, now); m' := MoveInv(s, m, lost, now);
    case Pop(draw) => m' := PopInv(s, m, lost, draw);
    case Finish(i) => m' := FinishInv(s, m, lost, i);
    case Schedule(i) => m' := ScheduleInv(s, m, lost, i);
    case SendToDlq(i) => m' := DlqInv(s, m, lost, i);
    case _ => ProcEvents(e); m' := ProcStepInv(s, m, lost, e);
  }

  lemma RunUnfolds(s: State, es: seq<Event>)
    requires IsRun(s, es) && es != []
    ensures Enabled(s, es[0]) && IsRun(Next(s, es[0]), es[1..])
    ensures RunFrom(s, es) == RunFrom(Next(s, es[0]), es[1..])
    ensures Dropped(s, es) == DroppedBy(s, es[0]) + Dropped(Next(s, es[0]), es[1..])
  {
  }

  lemma EmptyRun(s: State)
    ensures IsRun(s, []) && RunFrom(s, []) == s && Dropped(s, []) == {}
  {
  }

  lemma {:induction false} RunInv(s: State, m: map<TaskId, Token>, lost: set<TaskId>, es: seq<Event>)
    returns (m': map<TaskId, Token>)
    requires Inv(s, m, lost) && IsRun(s, es)
    ensures Inv(RunFrom(s, es), m', lost + Dropped(s, es))
    decreases |es|
  {
    hide *;
    if es == [] {
      EmptyRun(s);
      assert lost + {} == lost;
      m' := m;
    } else {
      RunUnfolds(s, es);
      var m1 := StepInv(s, m, lost, es[0]);
      m' := RunInv(Next(s, es[0]), m1, lost + DroppedBy(s, es[0]), es[1..]);
      assert lost + DroppedBy(s, es[0]) + Dropped(Next(s, es[0]), es[1..]) == lost + Dropped(s, es);
    }
  }

  // ------------------------------------------------------------------
  // Main results
  // ------------------------------------------------------------------

  /** `tk` is the one and only copy of task t in the system. */
  ghost predicate OnlyCopy(s: State, t: TaskId, tk: Token) {
    && Tokens(s)[tk] == 1 && tk.payload.task == t
    && forall x :: x in Tokens(s) && x.payload.task == t ==> x == tk
  }

  /** Conservation: after every run each submitted task is in exactly one place, except that the tasks cut off
      by a move's read limit are nowhere. */
  lemma TasksAreConserved(es: seq<Event>)
    requires IsRun(INITIAL, es)
    ensures var s := RunFrom(INITIAL, es);
      && Dropped(INITIAL, es) <= s.rows.Keys
      && (forall t :: t in s.rows && t !in Dropped(INITIAL, es) ==> exists tk :: OnlyCopy(s, t, tk))
      && (forall tk :: tk in Tokens(s) ==> tk.payload.task in s.rows && tk.payload.task !in Dropped(INITIAL, es))
  {
    InitialInv();
    var m := RunInv(INITIAL, map[], {}, es);
    var s := RunFrom(INITIAL, es);
    forall tk | tk in Tokens(s) ensures tk.payload.task in s.rows && tk.payload.task !in Dropped(INITIAL, es) {
      assert Tokens(s)[tk] > 0;
    }
    forall t | t in s.rows && t !in Dropped(INITIAL, es) ensures exists tk :: OnlyCopy(s, t, tk) {
      assert t in m;
      assert Tokens(s)[m[t]] == 1;
      forall x | x in Tokens(s) && x.payload.task == t ensures x == m[t] {
        assert Tokens(s)[x] > 0;
      }
      assert OnlyCopy(s, t, m[t]);
    }
  }

  /** Agreement: after every run the database row and the history of every copy say what its place calls for;
      the rows of dropped tasks say RETRYING for good. */
  lemma QueueAndDatabaseAgree(es: seq<Event>)
    requires IsRun(INITIAL, es)
    ensures var s := RunFrom(INITIAL, es);
      && (forall tk :: tk in Tokens(s) ==>
           && tk.payload.task in s.rows && tk.payload.task in s.history
           && Agree(s.rows[tk.payload.task], s.history[tk.payload.task], tk))
      && (forall t :: t in Dropped(INITIAL, es) ==> t in s.rows && s.rows[t].status == RETRYING)
  {
    InitialInv();
    var m := RunInv(INITIAL, map[], {}, es);
    var s := RunFrom(INITIAL, es);
    forall tk | tk in Tokens(s)
      ensures tk.payload.task in s.rows && tk.payload.task in s.history
      ensures Agree(s.rows[tk.payload.task], s.history[tk.payload.task], tk)
    {
      assert Tokens(s)[tk] > 0;
    }
  }

  /** A task is executed at most once more than it may be retried. */
  lemma ExecutionsAreBounded(es: seq<Event>, t: TaskId)
    requires IsRun(INITIAL, es) && t in RunFrom(INITIAL, es).rows
    ensures var s := RunFrom(INITIAL, es);
      t in s.history && s.history[t].executions <= (if s.rows[t].maxRetries >= 0 then s.rows[t].maxRetries else 0) + 1
  {
    InitialInv();
    var m := RunInv(INITIAL, map[], {}, es);
    var s := RunFrom(INITIAL, es);
    if t in m {
      assert Agree(s.rows[t], s.history[t], m[t]);
    }
  }

  lemma DeadTokenPresent(s: State, d: Dead)
    requires d in s.dlq
    ensures Token(d.payload, DeadLettered(d.reason)) in Tokens(s)
  {
    var i :| 0 <= i < |s.dlq| && s.dlq[i] == d;
    assert DeadTokens(s.dlq)[i] == Token(d.payload, DeadLettered(d.reason));
  }

  lemma ExhaustedAgree(row: Row, h: History, p: Payload)
    requires Agree(row, h, Token(p, DeadLettered(Exhausted))) && p.maxRetries >= 0
    ensures row.status == FAILED && row.attempts == p.maxRetries + 1
    ensures h == History(p.maxRetries + 1, 2 * (Pow2(p.maxRetries) - 1))
  {
  }

  /** A task dead-lettered because its retries ran out was executed exactly max_retries + 1 times and waited
      2 * (2 ** max_retries - 1) seconds of backoff in all. */
  lemma ExhaustedTasks(es: seq<Event>, d: Dead)
    requires IsRun(INITIAL, es) && d in RunFrom(INITIAL, es).dlq && d.reason == Exhausted && d.payload.maxRetries >= 0
    ensures var s := RunFrom(INITIAL, es);
      && d.payload.task in s.history && d.payload.task in s.rows
      && s.rows[d.payload.task].status == FAILED
      && s.rows[d.payload.task].attempts == d.payload.maxRetries + 1
      && s.history[d.payload.task] == History(d.payload.maxRetries + 1, 2 * (Pow2(d.payload.maxRetries) - 1))
  {
    hide *;
    var s := RunFrom(INITIAL, es);
    QueueAndDatabaseAgree(es);
    DeadTokenPresent(s, d);
    ExhaustedAgree(s.rows[d.payload.task], s.history[d.payload.task], d.payload);
  }

  predicate WithinLimit(s: State, es: seq<Event>)
    requires IsRun(s, es)
    decreases |es|
  {
    es == [] || ((es[0].MoveDue? ==> |Due(s.delayed, es[0].now)| <= MOVE_LIMIT) && WithinLimit(Next(s, es[0]), es[1..]))
  }

  /** If no move of a run finds more than the read limit due, nothing is dropped. */
  lemma {:induction false} NothingDropped(s: State, es: seq<Event>)
    requires IsRun(s, es)
    ensures WithinLimit(s, es) <==> Dropped(s, es) == {}
    decreases |es|
  {
    if es != [] {
      NothingDropped(Next(s, es[0]), es[1..]);
      if es[0].MoveDue? && |Due(s.delayed, es[0].now)| > MOVE_LIMIT {
        assert CutOff(s.delayed, es[0].now)[0] in CutOff(s.delayed, es[0].now);
        assert CutOff(s.delayed, es[0].now)[0].task in DroppedBy(s, es[0]);
      }
    }
  }
}
