/** The fetch loop of one worker engine and its semaphore. */
module EngineLoop {

  /** Where the fetch loop stands between two awaits. */
  datatype LoopPc =
    | Idle                // not started, or left
    | Top                 // about to test `_running`
    | Waiting             // in semaphore.acquire()
    | Holding             // has a permit, about to test `_running` again
    | Fetching            // in consumer.consume(), with a permit

  /** `processing` counts the payloads whose coroutine has not released its permit yet. */
  datatype Loop = Loop(running: bool, permits: nat, processing: nat, pc: LoopPc)

  datatype Act =
    | Start
    | Stop
    | TestRunning
    | Acquire
    | Recheck
    | Fetched(some: bool)
    | Release

  predicate CanAct(s: Loop, a: Act) {
    match a
    case Start => s.pc == Idle
    case Stop => true
    case TestRunning => s.pc == Top
    case Acquire => s.pc == Waiting && s.permits > 0
    case Recheck => s.pc == Holding
    case Fetched(_) => s.pc == Fetching
    case Release => s.processing > 0
  }

  function After(s: Loop, a: Act): Loop
    requires CanAct(s, a)
  {
    match a
    case Start => s.(running := true, pc := Top)
    case Stop => s.(running := false)
    case TestRunning => s.(pc := if s.running then Waiting else Idle)
    case Acquire => s.(permits := s.permits - 1, pc := Holding)
    case Recheck => if s.running then s.(pc := Fetching) else s.(permits := s.permits + 1, pc := Idle)
    case Fetched(some) =>
      if some then s.(processing := s.processing + 1, pc := Top) else s.(permits := s.permits + 1, pc := Top)
    case Release => s.(processing := s.processing - 1, permits := s.permits + 1)
  }

  predicate IsLoopRun(s: Loop, acts: seq<Act>)
    decreases |acts|
  {
    acts == [] || (CanAct(s, acts[0]) && IsLoopRun(After(s, acts[0]), acts[1..]))
  }

  function LoopRun(s: Loop, acts: seq<Act>): Loop
    requires IsLoopRun(s, acts)
    decreases |acts|
  {
    if acts == [] then s else LoopRun(After(s, acts[0]), acts[1..])
  }

  /** The permit the loop itself holds while it decides and fetches. */
  function Held(s: Loop): nat { if s.pc == Holding || s.pc == Fetching then 1 else 0 }

  /** Permits are conserved on every path: empty fetch, payload, early exit, end of a payload, stop. */
  lemma {:induction false} PermitsAreConserved(s: Loop, acts: seq<Act>)
    requires IsLoopRun(s, acts)
    ensures var t := LoopRun(s, acts); t.permits + Held(t) + t.processing == s.permits + Held(s) + s.processing
    decreases |acts|
  {
    if acts != [] {
      PermitsAreConserved(After(s, acts[0]), acts[1..]);
    }
  }

  /** An engine never processes more payloads than its concurrency, and once its loop has left and its payloads
      are done all permits are back. */
  lemma ConcurrencyIsBounded(concurrency: nat, acts: seq<Act>)
    requires IsLoopRun(Loop(false, concurrency, 0, Idle), acts)
    ensures var t := LoopRun(Loop(false, concurrency, 0, Idle), acts);
      && t.processing + Held(t) <= concurrency
      && (t.pc == Idle && t.processing == 0 ==> t.permits == concurrency)
  {
    PermitsAreConserved(Loop(false, concurrency, 0, Idle), acts);
  }

  /** The loop has not left, and as long as nobody stops the engine it does not: every fetch, with a payload or
      without, brings it back to its test. */
  lemma {:induction false} LeavesOnlyOnceStopped(s: Loop, acts: seq<Act>)
    requires IsLoopRun(s, acts) && s.running && s.pc != Idle && Stop !in acts
    ensures var t := LoopRun(s, acts); t.running && t.pc != Idle
    ensures acts != [] && acts[|acts| - 1].Fetched? ==> LoopRun(s, acts).pc == Top
    decreases |acts|
  {
    if acts != [] {
      assert acts[0] in acts && forall a :: a in acts[1..] ==> a in acts;
      LeavesOnlyOnceStopped(After(s, acts[0]), acts[1..]);
    }
  }

  /** The loop's own acts. */
  predicate OfLoop(a: Act) { a.TestRunning? || a.Acquire? || a.Recheck? || a.Fetched? }

  /** What a stopped loop still does: the rest of a fetch and the test after it. */
  function StepsLeft(s: Loop): nat {
    match s.pc
    case Idle => 0
    case Top => 1
    case Holding => 1
    case Waiting => 2
    case Fetching => 2
  }

  function LoopActs(acts: seq<Act>): nat {
    if acts == [] then 0 else (if OfLoop(acts[0]) then 1 else 0) + LoopActs(acts[1..])
  }

  /** A stopped loop leaves: until the next start it makes no more than the acts it has left, and has left after
      that many. */
  lemma {:induction false} StoppedLoopLeaves(s: Loop, acts: seq<Act>)
    requires IsLoopRun(s, acts) && !s.running && Start !in acts
    ensures LoopActs(acts) + StepsLeft(LoopRun(s, acts)) == StepsLeft(s) <= 2
    ensures LoopActs(acts) == StepsLeft(s) <==> LoopRun(s, acts).pc == Idle
    decreases |acts|
  {
    if acts != [] {
      assert acts[0] in acts && forall a :: a in acts[1..] ==> a in acts;
      StoppedLoopLeaves(After(s, acts[0]), acts[1..]);
    }
  }

  /** A loop that has left or is blocked for want of a permit aside, the loop can act. */
  lemma LoopCanGoOn(s: Loop)
    requires s.pc != Idle && (s.pc == Waiting ==> s.permits > 0)
    ensures exists a :: OfLoop(a) && CanAct(s, a)
  {
    var a := match s.pc
      case Idle => Start
      case Top => TestRunning
      case Waiting => Acquire
      case Holding => Recheck
      case Fetching => Fetched(false);
    assert OfLoop(a) && CanAct(s, a);
  }

  function Started(acts: seq<Act>): nat {
    if acts == [] then 0 else (if acts[0] == Fetched(true) then 1 else 0) + Started(acts[1..])
  }

  /** After a stop, and until the next start, at most the fetch under way brings in one more payload. */
  lemma {:induction false} StopLetsInAtMostOne(s: Loop, acts: seq<Act>)
    requires IsLoopRun(s, acts) && !s.running && Start !in acts
    ensures Started(acts) <= (if s.pc == Fetching then 1 else 0)
    decreases |acts|
  {
    if acts != [] {
      StopLetsInAtMostOne(After(s, acts[0]), acts[1..]);
    }
  }

  /** The engine object: each method is one stretch of its code between two awaits. */
  class WorkerEngine {
    var running: bool
    var permits: nat
    var processing: nat
    var pc: LoopPc

    ghost function State(): Loop
      reads this
    {
      Loop(running, permits, processing, pc)
    }

    constructor (concurrency: nat)
      ensures State() == Loop(false, concurrency, 0, Idle)
    {
      running, permits, processing, pc := false, concurrency, 0, Idle;
    }

    /** The top of `start` and each test of its `while`. */
    method EnterLoop()
      requires CanAct(State(), Start)
      modifies this
      ensures State() == After(old(State()), Start)
    {
      running := true;
      pc := Top;
    }

    /** The loop up to the point where it has a permit, when there is one, or has left. */
    method NextPermit() returns (blocked: bool)
      requires CanAct(State(), TestRunning)
      modifies this
      ensures var tested := After(old(State()), TestRunning);
        && blocked == (tested.pc == Waiting && tested.permits == 0)
        && State() == if CanAct(tested, Acquire) then After(tested, Acquire) else tested
      ensures running == old(running) && processing == old(processing)
      ensures pc == Idle <==> !running
      ensures running ==> (blocked <==> old(permits) == 0) && pc == if blocked then Waiting else Holding
      ensures permits == old(permits) - if pc == Holding then 1 else 0
    {
      blocked := false;
      if !running {
        pc := Idle;
      } else if permits > 0 {
        permits := permits - 1;
        pc := Holding;
      } else {
        pc := Waiting;
        blocked := true;
      }
    }

    /** A coroutine blocked in `acquire` wakes up. */
    method WakeUp()
      requires CanAct(State(), Acquire)
      modifies this
      ensures State() == After(old(State()), Acquire)
    {
      permits := permits - 1;
      pc := Holding;
    }

    /** From the permit through the second test and the fetch; `payload` says whether one came. */
    method FetchOne(payload: bool) returns (spawned: bool)
      requires CanAct(State(), Recheck)
      modifies this
      ensures var checked := After(old(State()), Recheck);
        State() == if checked.pc == Fetching then After(checked, Fetched(payload)) else checked
      ensures spawned == (old(running) && payload)
      ensures running == old(running) && pc == if running then Top else Idle
      ensures processing == old(processing) + if spawned then 1 else 0
      ensures permits == old(permits) + if spawned then 0 else 1
    {
      spawned := false;
      if !running {
        permits := permits + 1;
        pc := Idle;
        return;
      }
      if !payload {
        permits := permits + 1;
      } else {
        processing := processing + 1;
        spawned := true;
      }
      pc := Top;
    }

    /** The `finally` of `_process_payload`. */
    method ReleasePermit()
      requires CanAct(State(), Release)
      modifies this
      ensures State() == After(old(State()), Release)
    {
      processing := processing - 1;
      permits := permits + 1;
    }

    /** `stop` up to the point where it waits for the payloads. */
    method RequestStop() returns (acted: bool)
      modifies this
      ensures State() == After(old(State()), Stop) && acted == old(running)
    {
      acted := running;
      running := false;
    }
  }
}
