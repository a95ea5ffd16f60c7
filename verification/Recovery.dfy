/** From FAILED back to COMPLETED: as long as no task of a scan is past hope, some continuation brings them all to
    success, one after the other, and evaluates the scan at the end. */
module Recovery {
  import opened TaskQueue
  import opened Pipeline
  import opened Conservation
  import opened Agreement
  import opened ScanVerdict
  import opened InPassing
  import opened Hope
  import opened SplitMove
  import opened Termination

  /** What holds in every reachable state. */
  ghost predicate Sound(s: State) { Timed(s) && exists m, lost :: Inv(s, m, lost) }

  /** `es` goes from s to s' without any submission. */
  ghost predicate Leads(s: State, es: seq<Event>, s': State) {
    IsRun(s, es) && RunFrom(s, es) == s' && forall e :: e in es ==> !e.Submit?
  }

  lemma RunSound(s: State, es: seq<Event>)
    requires Sound(s) && IsRun(s, es)
    ensures Sound(RunFrom(s, es))
  {
    hide Inv, Timed;
    var m, lost :| Inv(s, m, lost);
    var m' := RunInv(s, m, lost, es);
    RunTimed(s, es);
  }

  lemma Chain(s: State, es: seq<Event>, s1: State, more: seq<Event>, s2: State) returns (all: seq<Event>)
    requires Leads(s, es, s1) && Leads(s1, more, s2)
    ensures Leads(s, all, s2)
  {
    RunsAppend(s, es, more);
    all := es + more;
  }

  lemma One(s: State, e: Event) returns (es: seq<Event>)
    requires Sound(s) && Enabled(s, e) && !e.Submit?
    ensures Leads(s, es, Next(s, e)) && Sound(Next(s, e))
  {
    es := [e];
    hide Next, Enabled, Sound;
    assert [e][1..] == [] && IsRun(Next(s, e), []);
    RunSound(s, es);
  }

  // ------------------------------------------------------------------
  // Moving all delayed tasks
  // ------------------------------------------------------------------

  /** A moment by which everything delayed is due. */
  function Later(delayed: seq<Entry>, clock: real): (t: real)
    ensures t >= clock && forall e :: e in delayed ==> e.score <= t
  {
    if delayed == [] then clock
    else
      var t := Later(delayed[1..], clock);
      assert forall e :: e in delayed ==> e == delayed[0] || e in delayed[1..];
      if delayed[0].score <= t then t else delayed[0].score
  }

  function Earliest(delayed: seq<Entry>): (t: real)
    requires delayed != []
    ensures (exists e :: e in delayed && e.score == t) && forall e :: e in delayed ==> t <= e.score
  {
    if |delayed| == 1 then delayed[0].score
    else
      var t := Earliest(delayed[1..]);
      assert forall e :: e in delayed <==> e == delayed[0] || e in delayed[1..];
      if delayed[0].score <= t then delayed[0].score else t
  }

  lemma {:induction false} DueConcat(a: seq<Entry>, b: seq<Entry>, now: real)
    ensures Due(a + b, now) == Due(a, now) + Due(b, now)
  {
    hide IsDue;
    if a == [] {
      assert a + b == b && Due(a, now) == [];
    } else {
      DueConcat(a[1..], b, now);
      assert (a + b)[0] == a[0] && (a + b)[1..] == a[1..] + b;
      var head, rest := if IsDue(a[0], now) then [a[0]] else [], Due(a[1..], now);
      assert Due(a + b, now) == head + (rest + Due(b, now));
    }
  }

  lemma {:induction false} NotDueConcat(a: seq<Entry>, b: seq<Entry>, now: real)
    ensures NotDue(a + b, now) == NotDue(a, now) + NotDue(b, now)
  {
    hide IsDue;
    if a == [] {
      assert a + b == b && NotDue(a, now) == [];
    } else {
      NotDueConcat(a[1..], b, now);
      assert (a + b)[0] == a[0] && (a + b)[1..] == a[1..] + b;
      var head, rest := if IsDue(a[0], now) then [] else [a[0]], NotDue(a[1..], now);
      assert NotDue(a + b, now) == head + (rest + NotDue(b, now));
    }
  }

  lemma DueAround(front: seq<Entry>, e: Entry, back: seq<Entry>, now: real)
    ensures var all, k := front + [e] + back, |Due(front, now)|;
      IsDue(e, now) ==> k < |Due(all, now)| && Due(all, now)[k] == e
    ensures var all, k := front + [e] + back, |NotDue(front, now)|;
      !IsDue(e, now) ==> k < |NotDue(all, now)| && NotDue(all, now)[k] == e && NotDue(all, now)[..k] == NotDue(front, now)
  {
    assert [e][1..] == [] && Due([], now) == [] && NotDue([], now) == [];
    assert Due([e], now) == if IsDue(e, now) then [e] else [];
    assert NotDue([e], now) == if IsDue(e, now) then [] else [e];
    hide Due, NotDue, IsDue;
    DueConcat(front + [e], back, now);
    DueConcat(front, [e], now);
    NotDueConcat(front + [e], back, now);
    NotDueConcat(front, [e], now);
  }

  /** At the earliest moment only entries of one score are due. */
  lemma {:induction false} DueAreTies(es: seq<Entry>, now: real)
    requires forall e :: e in es ==> now <= e.score
    ensures |Due(es, now)| <= Ties(es, now)
  {
    if es != [] {
      assert forall e :: e in es[1..] ==> e in es;
      DueAreTies(es[1..], now);
      assert es[0] in es;
    }
  }

  /** A move at the earliest moment lists what has its place and is due, and leaves its place to the rest. */
  lemma MoveKeepsPlace(lists: Lists, delayed: seq<Entry>, now: real, t: TaskId)
    requires HasPlace(delayed, t) && 0.0 <= now && forall e :: e in delayed ==> now <= e.score
    ensures InLists(Enqueue(lists, ReadBatch(delayed, now)), t) || HasPlace(NotDue(delayed, now), t)
  {
    hide Enqueue, InLists, NotDue;
    var j :| 0 <= j < |delayed| && delayed[j].payload.task == t && Ties(delayed[..j], delayed[j].score) < MOVE_LIMIT;
    var front, e, back := delayed[..j], delayed[j], delayed[j + 1..];
    assert delayed == front + [e] + back;
    DueAround(front, e, back, now);
    if IsDue(e, now) {
      DueAreTies(front, now);
      var k := |Due(front, now)|;
      assert Payloads(Due(delayed, now))[k] == e.payload;
      assert ReadBatch(delayed, now)[k] == e.payload;
      EnqueuedMember(lists, ReadBatch(delayed, now), e.payload);
    } else {
      TiesTogether(front, now, e.score);
    }
  }

  lemma {:induction false} Shorter(delayed: seq<Entry>, now: real)
    ensures |Due(delayed, now)| + |NotDue(delayed, now)| == |delayed|
  {
    if delayed != [] {
      Shorter(delayed[1..], now);
    }
  }

  /** Everything but queues and clock is as it was, and hope is kept. */
  ghost predicate Unparked(s: State, s': State) {
    && s' == s.(lists := s'.lists, delayed := [], clock := s'.clock)
    && forall t :: Hopeful(s, t) ==> Hopeful(s', t)
  }

  lemma {:induction false} MoveAll(s: State) returns (es: seq<Event>, s': State)
    requires Sound(s) && forall e :: e in s.delayed ==> e.score <= s.clock
    ensures Leads(s, es, s') && Sound(s') && Unparked(s, s')
    decreases |s.delayed|
  {
    if s.delayed == [] {
      es, s' := [], s;
    } else {
      var now := Earliest(s.delayed);
      var s1 := Next(s, MoveDue(now));
      var e :| e in s.delayed && e.score == now;
      hide Leads, Sound, Inv;
      assert 0.0 <= now by { TimedOnes(s); }
      DueMembers(s.delayed, now, e);
      Shorter(s.delayed, now);
      forall x | x in s1.delayed ensures x.score <= s1.clock { DueMembers(s.delayed, now, x); }
      forall t | Hopeful(s, t) ensures Hopeful(s1, t) { MoveKeepsHope(s, now, t); }
      hide Hopeful, Next;
      es := One(s, MoveDue(now));
      var more;
      more, s' := MoveAll(s1);
      es := Chain(s, es, s1, more, s');
    }
  }

  lemma TimedOnes(s: State)
    requires Sound(s)
    ensures forall e :: e in s.delayed ==> 0.0 <= e.score
  {
  }

  lemma MoveKeepsHope(s: State, now: real, t: TaskId)
    requires Enabled(s, MoveDue(now)) && Hopeful(s, t) && 0.0 <= now && forall e :: e in s.delayed ==> now <= e.score
    ensures Hopeful(Next(s, MoveDue(now)), t)
  {
    hide InLists, HasPlace, ReadBatch, NotDue;
    if InLists(s.lists, t) {
      EnqueueKeeps(s.lists, ReadBatch(s.delayed, now), t);
    } else if HasPlace(s.delayed, t) {
      MoveKeepsPlace(s.lists, s.delayed, now, t);
    }
  }

  lemma TickKeepsHope(s: State, now: real, t: TaskId)
    requires Hopeful(s, t)
    ensures Hopeful(s.(clock := now), t)
  {
    hide HasPlace, InLists;
  }

  lemma Unpark(s: State) returns (es: seq<Event>, s': State)
    requires Sound(s)
    ensures Leads(s, es, s') && Sound(s') && Unparked(s, s')
  {
    var now := Later(s.delayed, s.clock);
    var s1 := Next(s, Tick(now));
    hide Leads, Sound, Hopeful;
    es := One(s, Tick(now));
    var more;
    more, s' := MoveAll(s1);
    es := Chain(s, es, s1, more, s');
    forall t | Hopeful(s, t) ensures Hopeful(s', t) { TickKeepsHope(s, now, t); }
  }

  // ------------------------------------------------------------------
  // Being popped
  // ------------------------------------------------------------------

  function DrawFor(q: Queue): (draw: real)
    ensures 0.0 <= draw < 1.0 && PollOrder(draw)[0] == q
  {
    match q
    case Critical => 0.0
    case High => 0.60
    case Medium => 0.85
    case Low => 0.95
  }

  lemma PopHead(s: State, q: Queue)
    requires s.lists.Of(q) != []
    ensures Enabled(s, Pop(DrawFor(q)))
    ensures Next(s, Pop(DrawFor(q)))
         == s.(lists := s.lists.With(q, s.lists.Of(q)[1..]), procs := s.procs + [Proc(s.lists.Of(q)[0], Popped)])
    ensures s.lists.With(q, s.lists.Of(q)[1..]).Of(q) == s.lists.Of(q)[1..]
  {
    WithOf(s.lists, q, s.lists.Of(q)[1..], q);
    assert FirstNonEmpty(s.lists, PollOrder(DrawFor(q))) == Some(q);
  }

  /** Listed tasks stay listed or are popped, processes stay, and nothing else changes. */
  ghost predicate Polled(s: State, s': State) {
    && s' == s.(lists := s'.lists, procs := s'.procs) && s.procs <= s'.procs
    && forall t :: InLists(s.lists, t) ==> InLists(s'.lists, t) || Trying(s', t)
  }

  lemma PolledTwice(s: State, s1: State, s2: State)
    requires Polled(s, s1) && Polled(s1, s2)
    ensures Polled(s, s2)
  {
    hide InLists;
    forall t | InLists(s.lists, t) ensures InLists(s2.lists, t) || Trying(s2, t) {
      if !InLists(s1.lists, t) {
        var p :| p in s1.procs && p.payload.task == t && CanSucceed(p);
        assert p in s2.procs;
      }
    }
  }

  lemma PopPolls(s: State, q: Queue)
    requires s.lists.Of(q) != []
    ensures Polled(s, Next(s, Pop(DrawFor(q))))
  {
    PopHead(s, q);
    var s', l := Next(s, Pop(DrawFor(q))), s.lists.Of(q);
    hide Next, Enabled;
    forall t | InLists(s.lists, t) ensures InLists(s'.lists, t) || Trying(s', t) {
      var r, p :| p in s.lists.Of(r) && p.task == t;
      WithOf(s.lists, q, l[1..], r);
      if r == q && p == l[0] {
        assert Proc(p, Popped) in s'.procs;
      } else {
        assert r == q ==> l == [l[0]] + l[1..];
        assert p in s'.lists.Of(r);
      }
    }
  }

  lemma PopOne(s: State, q: Queue) returns (es: seq<Event>, s': State)
    requires Sound(s) && s.lists.Of(q) != []
    ensures Leads(s, es, s') && Sound(s') && Polled(s, s') && s'.lists.Of(q) == s.lists.Of(q)[1..]
    ensures s'.procs != [] && s'.procs[|s'.procs| - 1] == Proc(s.lists.Of(q)[0], Popped)
  {
    PopHead(s, q);
    PopPolls(s, q);
    s' := Next(s, Pop(DrawFor(q)));
    hide Leads, Sound, Polled;
    es := One(s, Pop(DrawFor(q)));
  }

  /** Polls that look at this list first empty it up to the payload. */
  lemma {:induction false} ComesUp(s: State, q: Queue, k: nat) returns (es: seq<Event>, s': State)
    requires Sound(s) && k < |s.lists.Of(q)|
    ensures Leads(s, es, s') && Sound(s') && Polled(s, s')
    ensures s'.procs != [] && s'.procs[|s'.procs| - 1] == Proc(s.lists.Of(q)[k], Popped)
    decreases k
  {
    hide Leads, Sound, Polled;
    es, s' := PopOne(s, q);
    if k > 0 {
      var s1, more := s', [];
      more, s' := ComesUp(s1, q, k - 1);
      es := Chain(s, es, s1, more, s');
      PolledTwice(s, s1, s');
    }
  }

  // ------------------------------------------------------------------
  // One process
  // ------------------------------------------------------------------

  /** It can succeed and its success has not been read. */
  predicate Striving(p: Proc) { CanSucceed(p) && !HasRead(p) }

  /** Its current attempt can succeed. */
  predicate Onward(p: Proc) {
    p.pc.Popped? || p.pc.Marked? || p.pc.Admitted? || p.pc == Executed(true) || p.pc == Saved(Succeeded)
  }

  lemma StrivesOn(s: State, i: nat)
    requires At(s, i) && AgreesAt(s, i) && Striving(s.procs[i]) && s.procs[i].pc != Saved(Succeeded) && !s.procs[i].pc.Stamped?
    ensures var e := NextOf(i, s.procs[i]);
      && Enabled(s, e) && MovesProc(e) && e.i == i && At(Next(s, e), i) && Striving(Next(s, e).procs[i])
      && (Onward(s.procs[i]) ==> Onward(Next(s, e).procs[i]))
  {
    hide JudgementOf, Backoff, SetStatus, SaveRow;
  }

  lemma OnlyTwice(s: State, i: nat, s1: State, s2: State)
    requires At(s, i) && OnlyProcess(s, i, s1) && OnlyProcess(s1, i, s2)
    ensures OnlyProcess(s, i, s2)
  {
    assert s2.procs == s.procs[i := s2.procs[i]];
  }

  lemma SoundAgrees(s: State, i: nat)
    requires Sound(s) && At(s, i)
    ensures AgreesAt(s, i)
  {
    hide Inv;
    var m, lost :| Inv(s, m, lost);
    InvAgreesAt(s, m, lost, i);
  }

  lemma GoesOnce(s: State, i: nat) returns (es: seq<Event>, s': State)
    requires Sound(s) && At(s, i) && Striving(s.procs[i]) && s.procs[i].pc != Saved(Succeeded) && !s.procs[i].pc.Stamped?
    ensures Leads(s, es, s') && Sound(s') && OnlyProcess(s, i, s')
    ensures Striving(s'.procs[i]) && (Onward(s.procs[i]) ==> Onward(s'.procs[i]))
    ensures Weight(ProcToken(s'.procs[i])) < Weight(ProcToken(s.procs[i]))
  {
    hide Sound, Leads, Next, Enabled, AgreesAt, Striving, Onward, OnlyProcess, Weight, NextOf;
    SoundAgrees(s, i);
    StrivesOn(s, i);
    var e := NextOf(i, s.procs[i]);
    ProcStepFrame(s, e);
    ProcWeight(s, e);
    s' := Next(s, e);
    es := One(s, e);
  }

  /** With an admission and a response, the process goes on until its success is saved or its retry is stamped. */
  lemma {:induction false} GoesOn(s: State, i: nat) returns (es: seq<Event>, s': State)
    requires Sound(s) && At(s, i) && Striving(s.procs[i])
    ensures Leads(s, es, s') && Sound(s') && OnlyProcess(s, i, s')
    ensures s'.procs[i].pc == Saved(Succeeded) || (s'.procs[i].pc.Stamped? && !Onward(s.procs[i]))
    decreases Weight(ProcToken(s.procs[i]))
  {
    if s.procs[i].pc == Saved(Succeeded) || s.procs[i].pc.Stamped? {
      es, s' := [], s;
    } else {
      hide Sound, Leads, Striving, Onward, OnlyProcess, Weight;
      var s1, more;
      es, s1 := GoesOnce(s, i);
      OnlyAt(s, i, s1);
      more, s' := GoesOn(s1, i);
      es := Chain(s, es, s1, more, s');
      OnlyTwice(s, i, s1, s');
    }
  }

  lemma OnlyAt(s: State, i: nat, s': State)
    requires At(s, i) && OnlyProcess(s, i, s')
    ensures At(s', i)
  {
  }

  // ------------------------------------------------------------------
  // One task
  // ------------------------------------------------------------------

  /** Nothing is delayed afterwards, and the other tasks keep their hope. */
  ghost predicate Spares(s: State, s': State, t: TaskId) {
    s'.delayed == [] && forall x :: x != t && Hopeful(s, x) ==> Hopeful(s', x)
  }

  lemma GoingSpares(s: State, i: nat, s': State)
    requires At(s, i) && OnlyProcess(s, i, s') && s.delayed == []
    ensures Spares(s, s', s.procs[i].payload.task)
  {
    hide InLists, HasPlace, CanSucceed;
    forall x | x != s.procs[i].payload.task && Hopeful(s, x) ensures Hopeful(s', x) {
      if Trying(s, x) {
        var p :| p in s.procs && p.payload.task == x && CanSucceed(p);
        var j :| 0 <= j < |s.procs| && s.procs[j] == p;
        assert s'.procs[j] in s'.procs;
      }
    }
  }

  lemma PollingSpares(s: State, s': State, t: TaskId)
    requires Polled(s, s') && s.delayed == []
    ensures Spares(s, s', t)
  {
    hide InLists, HasPlace, CanSucceed;
    assert forall p :: p in s.procs ==> p in s'.procs;
  }

  /** The stamped retry is stored, moved when it is due, and listed. */
  lemma ReturnsToList(s: State, i: nat) returns (es: seq<Event>, s': State)
    requires Sound(s) && At(s, i) && s.procs[i].pc.Stamped? && s.delayed == []
    ensures Leads(s, es, s') && Sound(s') && Spares(s, s', s.procs[i].payload.task)
    ensures InLists(s'.lists, s.procs[i].payload.task)
  {
    var p, score := s.procs[i].payload, s.procs[i].pc.score;
    var now := if s.clock <= score then score else s.clock;
    assert 0.0 <= score by { assert s.procs[i] in s.procs; }
    var s1 := Next(s, Schedule(i));
    var s2 := Next(s1, Tick(now));
    OneIsRead(Entry(p, score), now);
    hide Leads, Sound, ReadBatch, NotDue, Enqueue, InLists;
    s' := Next(s2, MoveDue(now));
    es := One(s, Schedule(i));
    var more := One(s1, Tick(now));
    es := Chain(s, es, s1, more, s2);
    more := One(s2, MoveDue(now));
    es := Chain(s, es, s2, more, s');
    EnqueuedMember(s.lists, [p], p);
    ReturningSpares(s, i, s');
  }

  lemma OneIsRead(e: Entry, now: real)
    requires IsDue(e, now)
    ensures ReadBatch([e], now) == [e.payload] && NotDue([e], now) == []
  {
    assert [e][1..] == [];
    assert Due([e], now) == [e];
  }

  lemma ReturningSpares(s: State, i: nat, s': State)
    requires At(s, i) && s.delayed == [] && s'.delayed == [] && s'.finished == s.finished
    requires s'.procs == DropProc(s.procs, i) && s'.lists == Enqueue(s.lists, [s.procs[i].payload])
    ensures Spares(s, s', s.procs[i].payload.task)
  {
    hide InLists, HasPlace, CanSucceed, Enqueue;
    forall x | x != s.procs[i].payload.task && Hopeful(s, x) ensures Hopeful(s', x) {
      if InLists(s.lists, x) {
        EnqueueKeeps(s.lists, [s.procs[i].payload], x);
      } else if Trying(s, x) {
        var p :| p in s.procs && p.payload.task == x && CanSucceed(p);
        var j :| 0 <= j < |s.procs| && s.procs[j] == p;
        assert s'.procs[if j < i then j else j - 1] == p;
      }
    }
  }

  /** A process of the task has saved its success. */
  predicate HasSaved(s: State, t: TaskId) { exists p :: p in s.procs && p.payload.task == t && p.pc == Saved(Succeeded) }

  lemma SparesTwice(s: State, s1: State, s2: State, t: TaskId)
    requires Spares(s, s1, t) && Spares(s1, s2, t)
    ensures Spares(s, s2, t)
  {
  }

  lemma ListPlace(l: Lists, t: TaskId) returns (q: Queue, k: nat)
    requires InLists(l, t)
    ensures k < |l.Of(q)| && l.Of(q)[k].task == t
  {
    var p;
    q, p :| p in l.Of(q) && p.task == t;
    k :| 0 <= k < |l.Of(q)| && l.Of(q)[k] == p;
  }

  lemma FromPopped(s: State, i: nat) returns (es: seq<Event>, s': State)
    requires Sound(s) && s.delayed == [] && At(s, i) && s.procs[i].pc == Popped
    ensures Leads(s, es, s') && Sound(s') && Spares(s, s', s.procs[i].payload.task) && HasSaved(s', s.procs[i].payload.task)
  {
    assert Striving(s.procs[i]) && Onward(s.procs[i]);
    hide Leads, Sound, Spares, OnlyProcess, HasSaved, Striving, Onward;
    es, s' := GoesOn(s, i);
    GoingSpares(s, i, s');
    HasSavedAt(s, i, s');
  }

  lemma FromList(s: State, t: TaskId) returns (es: seq<Event>, s': State)
    requires Sound(s) && s.delayed == [] && InLists(s.lists, t)
    ensures Leads(s, es, s') && Sound(s') && Spares(s, s', t) && HasSaved(s', t)
  {
    hide Leads, Sound, Spares, HasSaved, InLists, Polled;
    var q, k := ListPlace(s.lists, t);
    var s1, more;
    es, s1 := ComesUp(s, q, k);
    PollingSpares(s, s1, t);
    SparesDelayed(s, s1, t);
    more, s' := FromPopped(s1, |s1.procs| - 1);
    es := Chain(s, es, s1, more, s');
    SparesTwice(s, s1, s', t);
  }

  lemma HasSavedAt(s: State, i: nat, s': State)
    requires At(s, i) && OnlyProcess(s, i, s') && s'.procs[i].pc == Saved(Succeeded)
    ensures HasSaved(s', s.procs[i].payload.task)
  {
    assert s'.procs[i] in s'.procs;
  }

  lemma FromProcess(s: State, i: nat) returns (es: seq<Event>, s': State)
    requires Sound(s) && s.delayed == [] && At(s, i) && Striving(s.procs[i])
    ensures Leads(s, es, s') && Sound(s') && Spares(s, s', s.procs[i].payload.task) && HasSaved(s', s.procs[i].payload.task)
  {
    hide Leads, Sound, Spares, HasSaved, Striving;
    var t := s.procs[i].payload.task;
    es, s' := GoesOn(s, i);
    GoingSpares(s, i, s');
    if s'.procs[i].pc == Saved(Succeeded) {
      HasSavedAt(s, i, s');
    } else {
      var s1, s2, more := s', s', [];
      more, s2 := ReturnsToList(s1, i);
      es := Chain(s, es, s1, more, s2);
      SparesTwice(s, s1, s2, t);
      assert s2.delayed == [] by { SparesDelayed(s, s2, t); }
      more, s' := FromList(s2, t);
      es := Chain(s, es, s2, more, s');
      SparesTwice(s, s2, s', t);
    }
  }

  lemma SparesDelayed(s: State, s': State, t: TaskId)
    requires Spares(s, s', t)
    ensures s'.delayed == []
  {
  }

  lemma UnsavedStrives(s: State, i: nat)
    requires At(s, i) && AgreesAt(s, i) && CanSucceed(s.procs[i]) && s.rows[s.procs[i].payload.task].status != SUCCESS
    ensures Striving(s.procs[i])
  {
  }

  lemma OneSucceeds(s: State, t: TaskId) returns (es: seq<Event>, s': State)
    requires Sound(s) && s.delayed == [] && Hopeful(s, t) && t in s.rows && s.rows[t].status != SUCCESS
    ensures Leads(s, es, s') && Sound(s') && Spares(s, s', t) && HasSaved(s', t)
  {
    hide Leads, Inv, Timed, Spares, CanSucceed, Striving, InLists;
    if InLists(s.lists, t) {
      es, s' := FromList(s, t);
    } else {
      var m, lost :| Inv(s, m, lost);
      if InFinished(s, t) {
        RestingRow(s, m, lost, t);
      }
      var p :| p in s.procs && p.payload.task == t && CanSucceed(p);
      var i :| 0 <= i < |s.procs| && s.procs[i] == p;
      InvAgreesAt(s, m, lost, i);
      UnsavedStrives(s, i);
      es, s' := FromProcess(s, i);
    }
  }

  // ------------------------------------------------------------------
  // All tasks
  // ------------------------------------------------------------------

  /** Nobody's task appears, disappears, changes its scan or stops being a success, and no scan disappears. */
  ghost predicate SameTasks(s: State, s': State) {
    && s'.rows.Keys == s.rows.Keys && s.scans.Keys <= s'.scans.Keys
    && (forall t :: t in s.rows ==> s'.rows[t].scan == s.rows[t].scan)
    && (forall t :: t in s.rows && s.rows[t].status == SUCCESS ==> s'.rows[t].status == SUCCESS)
  }

  lemma StepKeepsTasks(s: State, m: map<TaskId, Token>, lost: set<TaskId>, e: Event)
    requires Inv(s, m, lost) && Enabled(s, e) && !e.Submit?
    ensures SameTasks(s, Next(s, e))
  {
    hide Next, Enabled, Inv;
    var s' := Next(s, e);
    forall t | t in s.rows
      ensures t in s'.rows && s'.rows[t].scan == s.rows[t].scan
      ensures s.rows[t].status == SUCCESS ==> s'.rows[t].status == SUCCESS
    {
      RowStays(s, e, t);
      if s.rows[t].status == SUCCESS {
        SuccessIsFinal(s, m, lost, e, t);
      }
    }
    forall t | t in s'.rows ensures t in s.rows { NewTasks(s, e, t); }
    ScansGrow(s, e);
  }

  lemma SameTasksTwice(s: State, s1: State, s2: State)
    requires SameTasks(s, s1) && SameTasks(s1, s2)
    ensures SameTasks(s, s2)
  {
  }

  lemma {:induction false} RunKeepsTasks(s: State, m: map<TaskId, Token>, lost: set<TaskId>, es: seq<Event>)
    requires Inv(s, m, lost) && IsRun(s, es) && forall e :: e in es ==> !e.Submit?
    ensures SameTasks(s, RunFrom(s, es))
    decreases |es|
  {
    if es != [] {
      hide Next, Enabled, Inv, SameTasks;
      assert es[0] in es && forall x :: x in es[1..] ==> x in es;
      RunUnfolds(s, es);
      StepKeepsTasks(s, m, lost, es[0]);
      var m1 := StepInv(s, m, lost, es[0]);
      RunKeepsTasks(Next(s, es[0]), m1, lost + DroppedBy(s, es[0]), es[1..]);
      SameTasksTwice(s, Next(s, es[0]), RunFrom(s, es));
    }
  }

  lemma LeadingKeepsTasks(s: State, es: seq<Event>, s': State)
    requires Sound(s) && Leads(s, es, s')
    ensures SameTasks(s, s')
  {
    hide Inv, Timed, SameTasks;
    var m, lost :| Inv(s, m, lost);
    RunKeepsTasks(s, m, lost, es);
  }

  /** What has been saved is a SUCCESS row whose task is not judged yet. */
  lemma SavedIs(s: State, t: TaskId)
    requires Sound(s) && HasSaved(s, t)
    ensures t in s.rows && s.rows[t].status == SUCCESS && Hopeful(s, t) && !IsJudged(s, t)
  {
    hide HasPlace, InLists, Inv, Timed;
    var m, lost :| Inv(s, m, lost);
    var p :| p in s.procs && p.payload.task == t && p.pc == Saved(Succeeded);
    var i :| 0 <= i < |s.procs| && s.procs[i] == p;
    InvAgreesAt(s, m, lost, i);
    NoSecondRead(s, m, lost, i);
    assert CanSucceed(p);
  }

  function Unfinished(rows: map<TaskId, Row>, scan: ScanId): set<TaskId> {
    set t | t in rows && rows[t].scan == scan && rows[t].status != SUCCESS
  }

  ghost predicate AllHopeful(s: State, scan: ScanId) { forall t :: BelongsTo(s.rows, t, scan) ==> Hopeful(s, t) }

  /** All tasks have succeeded, and one of them is still to be judged. */
  lemma LastJudged(s: State, scan: ScanId) returns (es: seq<Event>, s': State)
    requires Sound(s) && scan in s.scans && !AllJudged(s, scan) && Unfinished(s.rows, scan) == {}
    ensures Leads(s, es, s') && scan in s'.scans && s'.scans[scan] == Completed
  {
    hide Inv, Timed, Leads;
    var m, lost :| Inv(s, m, lost);
    var t :| BelongsTo(s.rows, t, scan) && !IsJudged(s, t);
    assert t !in Unfinished(s.rows, scan);
    SuccessPlace(s, m, lost, t);
    var p :| p in s.procs && p.payload.task == t && p.pc == Saved(Succeeded);
    var i :| 0 <= i < |s.procs| && s.procs[i] == p;
    LastOfScan(s, t);
    var s1 := Next(s, ReadStatuses(i));
    es := One(s, ReadStatuses(i));
    s' := Next(s1, WriteVerdict(i));
    var more := One(s1, WriteVerdict(i));
    es := Chain(s, es, s1, more, s');
  }

  lemma LastOfScan(s: State, t: TaskId)
    requires t in s.rows && s.rows[t].scan in s.scans && Unfinished(s.rows, s.rows[t].scan) == {}
    ensures JudgementOf(s, t) == Some(Completed)
  {
    forall x | x in s.rows && s.rows[x].scan == s.rows[t].scan ensures s.rows[x].status == SUCCESS {
      assert x !in Unfinished(s.rows, s.rows[t].scan);
    }
  }

  lemma {:induction false} AllSucceed(s: State, scan: ScanId) returns (es: seq<Event>, s': State)
    requires Sound(s) && s.delayed == [] && scan in s.scans && AllHopeful(s, scan) && !AllJudged(s, scan)
    ensures Leads(s, es, s') && scan in s'.scans && s'.scans[scan] == Completed
    decreases |Unfinished(s.rows, scan)|
  {
    hide Sound, Leads, Hopeful, HasSaved, IsJudged;
    if Unfinished(s.rows, scan) == {} {
      es, s' := LastJudged(s, scan);
    } else {
      var t :| t in Unfinished(s.rows, scan);
      assert BelongsTo(s.rows, t, scan);
      var s1, more;
      es, s1 := OneSucceeds(s, t);
      LeadingKeepsTasks(s, es, s1);
      SavedIs(s1, t);
      assert BelongsTo(s1.rows, t, scan);
      forall x | BelongsTo(s1.rows, x, scan) ensures Hopeful(s1, x) {
        assert BelongsTo(s.rows, x, scan);
      }
      FewerUnfinished(s, s1, scan, t);
      more, s' := AllSucceed(s1, scan);
      es := Chain(s, es, s1, more, s');
    }
  }

  lemma FewerUnfinished(s: State, s': State, scan: ScanId, t: TaskId)
    requires SameTasks(s, s') && t in Unfinished(s.rows, scan) && s'.rows[t].status == SUCCESS
    ensures |Unfinished(s'.rows, scan)| < |Unfinished(s.rows, scan)|
  {
    var all, left := Unfinished(s.rows, scan), Unfinished(s'.rows, scan);
    assert left <= all - {t};
    assert all - {t} == left + (all - {t} - left);
  }

  /** If every task may still succeed and one has still to be judged, the scan can complete without new tasks. */
  lemma Recovers(s: State, scan: ScanId) returns (es: seq<Event>, s': State)
    requires Sound(s) && scan in s.scans && AllHopeful(s, scan) && !AllJudged(s, scan)
    ensures Leads(s, es, s') && scan in s'.scans && s'.scans[scan] == Completed
  {
    hide Sound, Leads, Hopeful;
    var s1, more;
    es, s1 := Unpark(s);
    assert forall t :: IsJudged(s1, t) ==> IsJudged(s, t);
    more, s' := AllSucceed(s1, scan);
    es := Chain(s, es, s1, more, s');
  }

  // ------------------------------------------------------------------
  // With a new task
  // ------------------------------------------------------------------

  lemma {:induction false} Unused(ids: set<TaskId>) returns (n: TaskId)
    ensures forall t :: t in ids ==> t < n
    decreases |ids|
  {
    if ids == {} {
      n := 0;
    } else {
      var t :| t in ids;
      n := Unused(ids - {t});
      assert forall x :: x in ids ==> x == t || x in ids - {t};
      n := if t < n then n else t + 1;
    }
  }

  lemma NotJudgedBefore(s: State, t: TaskId)
    requires Sound(s) && t !in s.rows
    ensures !IsJudged(s, t)
  {
    hide Timed;
    var m, lost :| Inv(s, m, lost);
    if InFinished(s, t) {
      RestingRow(s, m, lost, t);
    } else if p :| p in s.procs && p.payload.task == t && HasRead(p) {
      ProcessInMap(s, m, p);
    }
  }

  /** A new task of a scan without hopeless tasks gives it another evaluation. */
  lemma RecoversWithTask(s: State, scan: ScanId) returns (es: seq<Event>)
    requires Sound(s) && scan in s.scans && AllHopeful(s, scan)
    ensures IsRun(s, es) && scan in RunFrom(s, es).scans && RunFrom(s, es).scans[scan] == Completed
  {
    var t := Unused(s.rows.Keys);
    var e := Submit(scan, [TaskSpec(t, 0, "")]);
    assert FreshTasks(s.rows, e.tasks);
    var s1 := Next(s, e);
    NotJudgedBefore(s, t);
    SubmitKeepsHope(s, scan, t);
    hide Sound, Hopeful, Next, Enabled;
    assert !AllJudged(s1, scan);
    assert IsRun(s, [e]) && RunFrom(s, [e]) == s1 by { assert [e][1..] == [] && IsRun(s1, []); }
    RunSound(s, [e]);
    var more, s' := Recovers(s1, scan);
    RunsAppend(s, [e], more);
    es := [e] + more;
  }

  lemma SubmitKeepsHope(s: State, scan: ScanId, t: TaskId)
    requires scan in s.scans && AllHopeful(s, scan) && t !in s.rows
    ensures var s1 := SubmitTo(s, scan, [TaskSpec(t, 0, "")]);
      AllHopeful(s1, scan) && BelongsTo(s1.rows, t, scan) && scan in s1.scans && (IsJudged(s1, t) <==> IsJudged(s, t))
  {
    var tasks := [TaskSpec(t, 0, "")];
    var s1, ps := SubmitTo(s, scan, tasks), NewPayloads(scan, tasks);
    assert tasks[1..] == [];
    assert NewRows(scan, tasks) == map[t := Row(scan, QUEUED, 0, 0)];
    hide InLists, HasPlace, Enqueue, NewRows, CanSucceed;
    forall x | BelongsTo(s1.rows, x, scan) ensures Hopeful(s1, x) {
      if x == t {
        EnqueuedMember(s.lists, ps, ps[0]);
      } else {
        assert BelongsTo(s.rows, x, scan);
        if InLists(s.lists, x) {
          EnqueueKeeps(s.lists, ps, x);
        }
      }
    }
  }

  // ------------------------------------------------------------------
  // Main result
  // ------------------------------------------------------------------

  /** The scan says FAILED in every continuation. */
  ghost predicate StatusForGood(s: State, scan: ScanId) {
    forall es :: IsRun(s, es) ==> scan in RunFrom(s, es).scans && RunFrom(s, es).scans[scan] == ScanFailed
  }

  /** The scan says FAILED in every continuation that gives it no new tasks. */
  ghost predicate StatusForGoodAlone(s: State, scan: ScanId) {
    forall es :: IsRun(s, es) && NoTasksFor(es, scan) ==>
      scan in RunFrom(s, es).scans && RunFrom(s, es).scans[scan] == ScanFailed
  }

  /** The process about to commit COMPLETED does so. */
  lemma AheadCommits(s: State, scan: ScanId) returns (es: seq<Event>)
    requires CompletionAhead(s, scan) && scan in s.scans && s.scans[scan] != Completed
    ensures IsRun(s, es) && NoTasksFor(es, scan)
    ensures scan in RunFrom(s, es).scans && RunFrom(s, es).scans[scan] == Completed
  {
    var p :| p in s.procs && p.pc.Judged? && p.pc.verdict == Some(Completed) && BelongsTo(s.rows, p.payload.task, scan);
    var i :| 0 <= i < |s.procs| && s.procs[i] == p;
    es := [WriteVerdict(i)];
    assert es[1..] == [];
  }

  /** In any run, let a scan be FAILED. It stays so in every continuation, whatever is retried or submitted, if and
      only if no evaluation is about to commit COMPLETED and some task of it can no longer succeed. It stays so in
      every continuation without new tasks of it also if all its tasks have succeeded and been evaluated. */
  lemma FailedScanIsFinalIff(past: seq<Event>, scan: ScanId)
    requires IsRun(INITIAL, past)
    requires var s := RunFrom(INITIAL, past); scan in s.scans && s.scans[scan] == ScanFailed
    ensures var s := RunFrom(INITIAL, past);
      && (StatusForGood(s, scan) <==> !CompletionAhead(s, scan) && !AllHopeful(s, scan))
      && (StatusForGoodAlone(s, scan) <==> !CompletionAhead(s, scan) && (!AllHopeful(s, scan) || AllJudged(s, scan)))
  {
    hide IsRun, RunFrom, Inv, Hopeful, CompletionAhead, Timed, AllJudged, VerdictsOk, NoTasksFor;
    InitialInv();
    var m := RunInv(INITIAL, map[], {}, past);
    var s, lost := RunFrom(INITIAL, past), {} + Dropped(INITIAL, past);
    RunTimed(INITIAL, past) by { assert Timed(INITIAL) by { InitialTimed(); } }
    RunVerdictsOk(INITIAL, past) by { assert VerdictsOk(INITIAL) by { InitialTimed(); } }
    if CompletionAhead(s, scan) {
      var es := AheadCommits(s, scan);
    } else if t :| BelongsTo(s.rows, t, scan) && !Hopeful(s, t) {
      StaysDoomed(s, m, lost, scan, t);
    } else {
      var es := RecoversWithTask(s, scan);
      if AllJudged(s, scan) {
        StaysOver(s, m, lost, scan);
      } else {
        var more, s' := Recovers(s, scan);
        NoSubmission(more, scan);
      }
    }
  }

  lemma StaysDoomed(s: State, m: map<TaskId, Token>, lost: set<TaskId>, scan: ScanId, t: TaskId)
    requires Inv(s, m, lost) && Doomed(s, scan, t)
    ensures StatusForGood(s, scan) && StatusForGoodAlone(s, scan)
  {
    hide IsRun, RunFrom, Inv, Hopeful, CompletionAhead;
    forall es | IsRun(s, es) ensures scan in RunFrom(s, es).scans && RunFrom(s, es).scans[scan] == ScanFailed {
      RunDoomed(s, m, lost, es, scan, t);
    }
  }

  lemma StaysOver(s: State, m: map<TaskId, Token>, lost: set<TaskId>, scan: ScanId)
    requires Inv(s, m, lost) && Over(s, scan)
    ensures StatusForGoodAlone(s, scan)
  {
    hide IsRun, RunFrom, Inv, AllJudged, CompletionAhead, NoTasksFor;
    forall es | IsRun(s, es) && NoTasksFor(es, scan)
      ensures scan in RunFrom(s, es).scans && RunFrom(s, es).scans[scan] == ScanFailed
    {
      RunOver(s, m, lost, es, scan);
    }
  }

  lemma NoSubmission(es: seq<Event>, scan: ScanId)
    requires forall e :: e in es ==> !e.Submit?
    ensures NoTasksFor(es, scan)
  {
  }

  lemma InitialTimed()
    ensures Timed(INITIAL) && VerdictsOk(INITIAL)
  {
  }
}
