/** The worker pool: sized by queue depth every five seconds. Engines are named by the order of their creation. */
module Autoscaler {

  /** `engines` in list order; ids below `next` have been used. */
  datatype Pool = Pool(engines: seq<nat>, next: nat)

  function Min(a: int, b: int): int { if a <= b then a else b }

  function Max(a: int, b: int): int { if a >= b then a else b }

  function Desired(depth: int, minWorkers: int): int {
    if depth >= 10000 then 100
    else if depth >= 1000 then 50
    else if depth >= 100 then 10
    else if depth >= 10 then 5
    else minWorkers
  }

  // ------------------------------------------------------------------
  // Reference: what a tick does to the pool
  // ------------------------------------------------------------------

  function Remove(engines: seq<nat>, e: nat): seq<nat> {
    if engines == [] then [] else if engines[0] == e then engines[1..] else [engines[0]] + Remove(engines[1..], e)
  }

  function IdleOf(engines: seq<nat>, idle: set<nat>): seq<nat> {
    if engines == [] then [] else (if engines[0] in idle then [engines[0]] else []) + IdleOf(engines[1..], idle)
  }

  /** Stops engines of the snapshot in order until the floor is reached. */
  function Dismiss(engines: seq<nat>, snapshot: seq<nat>, floor: int): seq<nat>
    decreases |snapshot|
  {
    if snapshot == [] || |engines| <= floor then engines
    else Dismiss(Remove(engines, snapshot[0]), snapshot[1..], floor)
  }

  function Fresh(next: nat, count: nat): seq<nat>
    decreases count
  {
    if count == 0 then [] else [next] + Fresh(next + 1, count - 1)
  }

  function Grown(p: Pool, count: nat): Pool { Pool(p.engines + Fresh(p.next, count), p.next + count) }

  /** How many of `count` engines are started under the ceiling. */
  function Started(workers: nat, count: int, ceiling: int): nat { Max(0, Min(count, ceiling - workers)) }

  function Tick(p: Pool, depth: int, idle: set<nat>, minWorkers: int, maxWorkers: int): Pool {
    var kept := p.(engines := Dismiss(p.engines, IdleOf(p.engines, idle), minWorkers));
    Grown(kept, Started(|kept.engines|, Desired(depth, minWorkers) - |kept.engines|, maxWorkers))
  }

  lemma {:induction false} FreshSnoc(next: nat, count: nat)
    ensures Fresh(next, count + 1) == Fresh(next, count) + [next + count]
    decreases count
  {
    if count > 0 {
      FreshSnoc(next + 1, count - 1);
    }
  }

  lemma {:induction false} IdleOfSnoc(engines: seq<nat>, e: nat, idle: set<nat>)
    ensures IdleOf(engines + [e], idle) == IdleOf(engines, idle) + if e in idle then [e] else []
  {
    if engines != [] {
      assert (engines + [e])[1..] == engines[1..] + [e];
      IdleOfSnoc(engines[1..], e, idle);
    } else {
      assert [] + [e] == [e] && [e][1..] == [];
    }
  }

  lemma DismissNext(engines: seq<nat>, snapshot: seq<nat>, i: nat, floor: int)
    requires i < |snapshot| && |engines| > floor
    ensures Dismiss(engines, snapshot[i..], floor) == Dismiss(Remove(engines, snapshot[i]), snapshot[i + 1..], floor)
  {
    hide Remove;
    assert snapshot[i..][1..] == snapshot[i + 1..];
  }

  lemma DismissEnds(engines: seq<nat>, snapshot: seq<nat>, i: nat, floor: int)
    requires i <= |snapshot| && (i == |snapshot| || |engines| <= floor)
    ensures Dismiss(engines, snapshot[i..], floor) == engines
  {
  }

  class WorkerPoolManager {
    const minWorkers: int
    const maxWorkers: int
    var engines: seq<nat>
    var next: nat
    var running: bool

    constructor (minWorkers: int, maxWorkers: int)
      ensures this.minWorkers == minWorkers && this.maxWorkers == maxWorkers
      ensures State() == Pool([], 0) && !running
    {
      this.minWorkers, this.maxWorkers := minWorkers, maxWorkers;
      engines, next, running := [], 0, false;
    }

    ghost function State(): Pool
      reads this
    {
      Pool(engines, next)
    }

    /** `start`, up to the creation of the monitor task. */
    method Start()
      modifies this
      ensures running
      ensures State() == Grown(old(State()), Started(|old(engines)|, minWorkers, maxWorkers))
    {
      running := true;
      ScaleUp(minWorkers);
    }

    method ScaleUp(count: int)
      modifies this`engines, this`next
      ensures State() == Grown(old(State()), Started(|old(engines)|, count, maxWorkers))
      ensures |old(engines)| <= |engines| && engines[..|old(engines)|] == old(engines)
      ensures var was := |old(engines)|;
        |engines| == if count <= 0 || was >= maxWorkers then was else if was + count <= maxWorkers then was + count else maxWorkers
    {
      var i := 0;
      ghost var n := |engines|;
      assert Fresh(next, 0) == [] && engines + [] == engines;
      while i < count && |engines| < maxWorkers
        invariant 0 <= i && |engines| == n + i
        invariant i <= Started(n, count, maxWorkers)
        invariant State() == Grown(old(State()), i) && engines[..n] == old(engines)
        decreases count - i
      {
        FreshSnoc(old(next), i);
        engines, next := engines + [next], next + 1;
        i := i + 1;
      }
    }

    /** `_cleanup_idle_workers`; `idle` are the engines that answer true to `is_idle`. */
    method CleanupIdleWorkers(idle: set<nat>)
      modifies this`engines
      ensures engines == Dismiss(old(engines), IdleOf(old(engines), idle), minWorkers)
    {
      hide Dismiss, Remove, IdleOf;
      var snapshot := IdleEngines(idle);
      var i := 0;
      assert snapshot[0..] == snapshot;
      while i < |snapshot| && |engines| > minWorkers
        invariant i <= |snapshot|
        invariant Dismiss(engines, snapshot[i..], minWorkers) == Dismiss(old(engines), snapshot, minWorkers)
      {
        DismissNext(engines, snapshot, i, minWorkers);
        RemoveEngine(snapshot[i]);
        i := i + 1;
      }
      DismissEnds(engines, snapshot, i, minWorkers);
    }

    method IdleEngines(idle: set<nat>) returns (snapshot: seq<nat>)
      ensures snapshot == IdleOf(engines, idle)
    {
      snapshot := [];
      for i := 0 to |engines|
        invariant snapshot == IdleOf(engines[..i], idle)
      {
        IdleOfSnoc(engines[..i], engines[i], idle);
        assert engines[..i] + [engines[i]] == engines[..i + 1];
        if engines[i] in idle {
          snapshot := snapshot + [engines[i]];
        }
      }
      assert engines[..|engines|] == engines;
    }

    /** `active_engines.remove(engine)`. */
    method RemoveEngine(e: nat)
      modifies this`engines
      ensures engines == Remove(old(engines), e)
    {
      var i := 0;
      while i < |engines| && engines[i] != e
        invariant i <= |engines| && engines == old(engines)
        invariant Remove(engines, e) == engines[..i] + Remove(engines[i..], e)
      {
        assert engines[i..][1..] == engines[i + 1..];
        assert engines[..i] + ([engines[i]] + Remove(engines[i + 1..], e)) == engines[..i + 1] + Remove(engines[i + 1..], e);
        i := i + 1;
      }
      if i < |engines| {
        assert engines[i..][1..] == engines[i + 1..];
        engines := engines[..i] + engines[i + 1..];
      } else {
        assert engines[..i] + [] == engines;
      }
    }

    /** One turn of `_monitor_loop`, with the queue depth it reads. */
    method MonitorTick(depth: int, idle: set<nat>)
      modifies this`engines, this`next
      ensures State() == Tick(old(State()), depth, idle, minWorkers, maxWorkers)
    {
      CleanupIdleWorkers(idle);
      var current := |engines|;
      var desired := Desired(depth, minWorkers);
      if current < desired {
        var add := Min(desired - current, maxWorkers - current);
        if add > 0 {
          ScaleUp(add);
          return;
        }
      }
      assert engines + [] == engines;
    }
  }

  // ------------------------------------------------------------------
  // Properties of a tick
  // ------------------------------------------------------------------

  /** No engine twice, and only ids that have been handed out. */
  ghost predicate Wf(p: Pool) {
    && Distinct(p.engines)
    && (forall e :: e in p.engines ==> e < p.next)
  }

  predicate Distinct(s: seq<nat>) { s == [] || (s[0] !in s[1..] && Distinct(s[1..])) }

  lemma {:induction false} DistinctAppend(s: seq<nat>, t: seq<nat>)
    requires Distinct(s) && Distinct(t) && forall x :: x in s ==> x !in t
    ensures Distinct(s + t)
  {
    if s == [] {
      assert s + t == t;
    } else {
      assert (s + t)[1..] == s[1..] + t;
      DistinctAppend(s[1..], t);
    }
  }

  lemma {:induction false} RemoveOne(engines: seq<nat>, e: nat)
    requires Distinct(engines)
    ensures var r := Remove(engines, e);
      && Distinct(r)
      && (forall x :: x in r <==> x in engines && x != e)
      && (e in engines ==> |r| == |engines| - 1)
  {
    if engines != [] {
      assert engines == [engines[0]] + engines[1..];
      if engines[0] != e {
        RemoveOne(engines[1..], e);
      }
    }
  }

  lemma {:induction false} IdleAreListed(engines: seq<nat>, idle: set<nat>)
    requires Distinct(engines)
    ensures var r := IdleOf(engines, idle);
      && Distinct(r) && |r| <= |engines|
      && (forall x :: x in r <==> x in engines && x in idle)
  {
    if engines != [] {
      assert engines == [engines[0]] + engines[1..];
      IdleAreListed(engines[1..], idle);
      var rest := IdleOf(engines[1..], idle);
      if engines[0] in idle {
        assert IdleOf(engines, idle)[1..] == rest;
      } else {
        assert IdleOf(engines, idle) == rest;
      }
    }
  }

  /** Dismissal takes only engines of the snapshot, as many as the floor allows. */
  lemma {:induction false} DismissTakes(engines: seq<nat>, snapshot: seq<nat>, floor: int)
    requires Distinct(engines) && Distinct(snapshot) && forall x :: x in snapshot ==> x in engines
    ensures var r := Dismiss(engines, snapshot, floor);
      && Distinct(r)
      && (forall x :: x in r ==> x in engines)
      && (forall x :: x in engines && x !in snapshot ==> x in r)
      && |r| == Min(|engines|, Max(floor, |engines| - |snapshot|))
    decreases |snapshot|
  {
    if snapshot != [] && |engines| > floor {
      var e := snapshot[0];
      assert e in snapshot;
      RemoveOne(engines, e);
      hide Remove;
      assert snapshot == [e] + snapshot[1..];
      DismissTakes(Remove(engines, e), snapshot[1..], floor);
    } else {
      SnapshotFits(engines, snapshot);
    }
  }

  /** Distinct members of a list are no more than the list. */
  lemma {:induction false} SnapshotFits(engines: seq<nat>, snapshot: seq<nat>)
    requires Distinct(engines) && Distinct(snapshot) && forall x :: x in snapshot ==> x in engines
    ensures |snapshot| <= |engines|
    decreases |snapshot|
  {
    if snapshot != [] {
      assert snapshot[0] in snapshot;
      RemoveOne(engines, snapshot[0]);
      assert snapshot == [snapshot[0]] + snapshot[1..];
      SnapshotFits(Remove(engines, snapshot[0]), snapshot[1..]);
    }
  }

  lemma {:induction false} FreshAre(next: nat, count: nat)
    ensures var f := Fresh(next, count);
      && |f| == count && Distinct(f) && (forall x :: x in f <==> next <= x < next + count)
    decreases count
  {
    if count > 0 {
      FreshAre(next + 1, count - 1);
    }
  }

  lemma GrownWf(p: Pool, count: nat)
    requires Wf(p)
    ensures Wf(Grown(p, count)) && |Grown(p, count).engines| == |p.engines| + count
  {
    FreshAre(p.next, count);
    DistinctAppend(p.engines, Fresh(p.next, count));
  }

  function Kept(p: Pool, idle: set<nat>, minWorkers: int): Pool {
    p.(engines := Dismiss(p.engines, IdleOf(p.engines, idle), minWorkers))
  }

  lemma KeptIsRight(p: Pool, idle: set<nat>, minWorkers: int)
    requires Wf(p)
    ensures var k := Kept(p, idle, minWorkers);
      && Wf(k) && k.next == p.next
      && (forall e :: e in k.engines ==> e in p.engines)
      && (forall e :: e in p.engines && e !in idle ==> e in k.engines)
      && |k.engines| == Min(|p.engines|, Max(minWorkers, |p.engines| - |IdleOf(p.engines, idle)|))
  {
    hide Dismiss, IdleOf, Distinct;
    IdleAreListed(p.engines, idle);
    DismissTakes(p.engines, IdleOf(p.engines, idle), minWorkers);
  }

  /** One tick, from any pool: it removes only engines judged idle, keeps every other, never removes below the
      floor, starts only new engines, and its final size is determined. */
  lemma TickIsRight(p: Pool, depth: int, idle: set<nat>, minWorkers: int, maxWorkers: int)
    requires Wf(p) && minWorkers <= maxWorkers
    ensures var t := Tick(p, depth, idle, minWorkers, maxWorkers);
      var kept := Min(|p.engines|, Max(minWorkers, |p.engines| - |IdleOf(p.engines, idle)|));
      && Wf(t)
      && (forall e :: e in p.engines && e !in idle ==> e in t.engines)
      && (forall e :: e in t.engines && e !in p.engines ==> p.next <= e)
      && |t.engines| == Max(kept, Min(Desired(depth, minWorkers), maxWorkers))
  {
    hide Desired, Dismiss, IdleOf, Distinct, Wf;
    KeptIsRight(p, idle, minWorkers);
    var kept := Kept(p, idle, minWorkers);
    var count := Started(|kept.engines|, Desired(depth, minWorkers) - |kept.engines|, maxWorkers);
    GrownWf(kept, count);
    FreshAre(p.next, count);
  }

  // ------------------------------------------------------------------
  // Which engines go
  // ------------------------------------------------------------------

  /** The engines without the first k that are idle, in their order. */
  function Spared(engines: seq<nat>, idle: set<nat>, k: nat): seq<nat> {
    if engines == [] then []
    else if engines[0] in idle && k > 0 then Spared(engines[1..], idle, k - 1)
    else [engines[0]] + Spared(engines[1..], idle, k)
  }

  lemma {:induction false} SparedAll(engines: seq<nat>, idle: set<nat>)
    ensures Spared(engines, idle, 0) == engines
  {
    if engines != [] {
      SparedAll(engines[1..], idle);
    }
  }

  /** Removing the first idle engine. */
  lemma {:induction false} RemoveFirstIdle(engines: seq<nat>, idle: set<nat>, k: nat)
    requires IdleOf(engines, idle) != []
    ensures var rest := Remove(engines, IdleOf(engines, idle)[0]);
      && IdleOf(rest, idle) == IdleOf(engines, idle)[1..]
      && Spared(rest, idle, k) == Spared(engines, idle, k + 1)
      && |rest| == |engines| - 1
  {
    var e, tail := engines[0], engines[1..];
    if e in idle {
      assert IdleOf(engines, idle) == [e] + IdleOf(tail, idle);
    } else {
      assert IdleOf(engines, idle) == IdleOf(tail, idle);
      RemoveFirstIdle(tail, idle, k);
      var first := IdleOf(tail, idle)[0];
      assert first in IdleOf(tail, idle);
      assert first in idle by { IdleAre(tail, idle); }
      assert Remove(engines, first) == [e] + Remove(tail, first);
      assert Remove(engines, first)[1..] == Remove(tail, first);
    }
  }

  lemma {:induction false} IdleAre(engines: seq<nat>, idle: set<nat>)
    ensures forall x :: x in IdleOf(engines, idle) ==> x in idle
    ensures |IdleOf(engines, idle)| <= |engines|
  {
    if engines != [] {
      IdleAre(engines[1..], idle);
    }
  }

  /** Dismissal takes the first idle engines, as many as there are above the floor. */
  lemma {:induction false} DismissIsSpared(engines: seq<nat>, idle: set<nat>, floor: int)
    ensures var k: nat := Min(|IdleOf(engines, idle)|, Max(0, |engines| - floor));
      && Dismiss(engines, IdleOf(engines, idle), floor) == Spared(engines, idle, k)
      && |Spared(engines, idle, k)| == |engines| - k
    decreases |IdleOf(engines, idle)|
  {
    hide IdleOf, Remove;
    var snapshot := IdleOf(engines, idle);
    if snapshot == [] || |engines| <= floor {
      SparedAll(engines, idle);
    } else {
      var k: nat := Min(|snapshot|, Max(0, |engines| - floor));
      RemoveFirstIdle(engines, idle, k - 1);
      DismissIsSpared(Remove(engines, snapshot[0]), idle, floor);
    }
  }

  /** A tick takes the first idle engines, as many as there are above the floor, keeps the others in their order, and
      adds new ones behind them up to the desired size or the ceiling. */
  lemma TickExactly(p: Pool, depth: int, idle: set<nat>, minWorkers: int, maxWorkers: int)
    ensures var t := Tick(p, depth, idle, minWorkers, maxWorkers);
      var gone: nat := Min(|IdleOf(p.engines, idle)|, Max(0, |p.engines| - minWorkers));
      var kept := |p.engines| - gone;
      var new_: nat := Max(0, Min(Desired(depth, minWorkers), maxWorkers) - kept);
      && |t.engines| == kept + new_ && t.next == p.next + new_
      && t.engines[..kept] == Spared(p.engines, idle, gone)
      && t.engines[kept..] == seq(new_, i requires 0 <= i < new_ => p.next + i)
  {
    hide Desired, Dismiss, IdleOf;
    IdleAre(p.engines, idle);
    DismissIsSpared(p.engines, idle, minWorkers);
    var gone: nat := Min(|IdleOf(p.engines, idle)|, Max(0, |p.engines| - minWorkers));
    var kept := Spared(p.engines, idle, gone);
    var new_ := Started(|kept|, Desired(depth, minWorkers) - |kept|, maxWorkers);
    FreshAt(p.next, new_);
    hide Spared;
    assert Tick(p, depth, idle, minWorkers, maxWorkers).engines == kept + Fresh(p.next, new_);
    assert Fresh(p.next, new_) == seq(new_, i requires 0 <= i < new_ => p.next + i);
  }

  lemma {:induction false} FreshAt(next: nat, count: nat)
    ensures |Fresh(next, count)| == count && forall i :: 0 <= i < count ==> Fresh(next, count)[i] == next + i
    decreases count
  {
    if count > 0 {
      FreshAt(next + 1, count - 1);
    }
  }

  /** The documented sizes: the floor, then 5, 10, 50 and 100 engines from 10, 100, 1000 and 10000 waiting tasks on.
      A deeper queue never asks for fewer engines if and only if the floor is at most 5. */
  lemma DesiredGrowsWithDepth(minWorkers: int)
    ensures forall depth :: depth < 10 ==> Desired(depth, minWorkers) == minWorkers
    ensures forall depth :: 10 <= depth < 100 ==> Desired(depth, minWorkers) == 5
    ensures forall depth :: 100 <= depth < 1000 ==> Desired(depth, minWorkers) == 10
    ensures forall depth :: 1000 <= depth < 10000 ==> Desired(depth, minWorkers) == 50
    ensures forall depth :: 10000 <= depth ==> Desired(depth, minWorkers) == 100
    ensures (forall d, d' :: d <= d' ==> Desired(d, minWorkers) <= Desired(d', minWorkers)) <==> minWorkers <= 5
  {
    if minWorkers > 5 {
      assert Desired(9, minWorkers) > Desired(10, minWorkers);
    }
  }

  // ------------------------------------------------------------------
  // Runs
  // ------------------------------------------------------------------

  datatype Reading = Reading(depth: int, idle: set<nat>)

  function Begun(minWorkers: int, maxWorkers: int): Pool {
    Grown(Pool([], 0), Started(0, minWorkers, maxWorkers))
  }

  /** The pool after start and these ticks. */
  function After(readings: seq<Reading>, minWorkers: int, maxWorkers: int): Pool {
    if readings == [] then Begun(minWorkers, maxWorkers)
    else
      var last := readings[|readings| - 1];
      Tick(After(readings[..|readings| - 1], minWorkers, maxWorkers), last.depth, last.idle, minWorkers, maxWorkers)
  }

  /** After start and after every tick of any run the pool is between its bounds, and after a tick it has at least
      the engines wanted for the depth, up to the ceiling. */
  lemma {:induction false} PoolStaysInBounds(readings: seq<Reading>, minWorkers: int, maxWorkers: int)
    requires 0 <= maxWorkers && minWorkers <= maxWorkers
    ensures var p := After(readings, minWorkers, maxWorkers);
      && Wf(p) && minWorkers <= |p.engines| <= maxWorkers
      && (readings != [] ==>
           |p.engines| >= Min(Desired(readings[|readings| - 1].depth, minWorkers), maxWorkers))
  {
    if readings == [] {
      GrownWf(Pool([], 0), Started(0, minWorkers, maxWorkers));
    } else {
      var before, last := readings[..|readings| - 1], readings[|readings| - 1];
      PoolStaysInBounds(before, minWorkers, maxWorkers);
      TickIsRight(After(before, minWorkers, maxWorkers), last.depth, last.idle, minWorkers, maxWorkers);
    }
  }

  lemma {:induction false} NoneIdle(engines: seq<nat>)
    ensures IdleOf(engines, {}) == []
  {
    if engines != [] {
      NoneIdle(engines[1..]);
    }
  }

  lemma {:induction false} QuietTicks(p: Pool, depth: int, minWorkers: int, maxWorkers: int)
    requires |p.engines| >= Min(Desired(depth, minWorkers), maxWorkers)
    ensures Tick(p, depth, {}, minWorkers, maxWorkers) == p
  {
    NoneIdle(p.engines);
    assert Fresh(p.next, 0) == [] && p.engines + [] == p.engines;
  }

  /** In any run a tick with no idle engine at the depth of the tick before it changes nothing. */
  lemma SteadyState(readings: seq<Reading>, minWorkers: int, maxWorkers: int)
    requires 0 <= maxWorkers && minWorkers <= maxWorkers && readings != []
    ensures var last := readings[|readings| - 1];
      After(readings + [Reading(last.depth, {})], minWorkers, maxWorkers) == After(readings, minWorkers, maxWorkers)
  {
    var last := readings[|readings| - 1];
    PoolStaysInBounds(readings, minWorkers, maxWorkers);
    QuietTicks(After(readings, minWorkers, maxWorkers), last.depth, minWorkers, maxWorkers);
    var more := readings + [Reading(last.depth, {})];
    assert more[..|more| - 1] == readings;
  }

  /** Cleaning up comes first, so a busy queue does not save an idle engine: one tick may stop engines and start as
      many new ones. */
  lemma IdleEnginesAreReplaced(p: Pool, depth: int, idle: set<nat>, minWorkers: int, maxWorkers: int)
    requires Wf(p) && 0 <= minWorkers <= Desired(depth, minWorkers) <= maxWorkers
    requires |p.engines| == Desired(depth, minWorkers) && forall e :: e in p.engines ==> e in idle
    ensures var t := Tick(p, depth, idle, minWorkers, maxWorkers);
      && |t.engines| == |p.engines|
      && t.next == p.next + (|p.engines| - minWorkers)
  {
    TickIsRight(p, depth, idle, minWorkers, maxWorkers);
    AllIdle(p.engines, idle);
    IdleAreListed(p.engines, idle);
    DismissTakes(p.engines, p.engines, minWorkers);
  }

  lemma {:induction false} AllIdle(engines: seq<nat>, idle: set<nat>)
    requires forall e :: e in engines ==> e in idle
    ensures IdleOf(engines, idle) == engines
  {
    if engines != [] {
      assert engines[0] in engines;
      assert engines == [engines[0]] + engines[1..];
      AllIdle(engines[1..], idle);
    }
  }
}
