/** The code of one `RateLimiter.acquire` call on the in-process buckets: undisturbed, it is a run of its call in the
    system of `Admission`. */
module MultiAcquire {
  import opened TokenBucket
  import opened Admission

  /** What the failed passes of a call charged in vain. */
  function WastedBy(m: map<string, nat>, keys: seq<string>, draws: seq<nat>): map<string, nat>
    requires forall d :: d in draws ==> d <= |keys|
  {
    if draws == [] then m
    else
      var front, last := draws[..|draws| - 1], draws[|draws| - 1];
      assert last in draws && forall d :: d in front ==> d in draws;
      BumpAll(WastedBy(m, keys, front), keys[..last])
  }

  lemma WastedSnoc(m: map<string, nat>, keys: seq<string>, draws: seq<nat>, d: nat)
    requires (forall x :: x in draws ==> x <= |keys|) && d <= |keys|
    ensures WastedBy(m, keys, draws + [d]) == BumpAll(WastedBy(m, keys, draws), keys[..d])
  {
    assert (draws + [d])[..|draws|] == draws;
  }

  /** The state belongs to the in-process buckets. */
  ghost predicate Holds(s: Sys, local: LocalTokenBucket, rates: map<string, real>)
    reads local
  {
    s.buckets == local.buckets && s.rates == rates
  }

  predicate OfCall(es: seq<Event>, i: nat) { forall e :: e in es ==> e.Begin? || ((e.Test? || e.Try?) && e.i == i) }

  lemma OneMore(s0: Sys, es: seq<Event>, s: Sys, e: Event, i: nat) returns (es': seq<Event>)
    requires IsRun(s0, es) && RunFrom(s0, es) == s && Enabled(s, e) && OfCall(es, i) && OfCall([e], i)
    ensures IsRun(s0, es') && RunFrom(s0, es') == Next(s, e) && OfCall(es', i)
  {
    ExtendRun(s0, es, e);
    es' := es + [e];
    assert e in [e];
  }

  /** A pass that is going on. */
  predicate InPass(s: Sys, i: nat, c: Call) {
    && i < |s.calls| && s.calls[i] == c && c.pc.Asking? && c.pos < |c.keys|
  }

  lemma TryIs(s: Sys, i: nat, c: Call, now: real)
    requires InPass(s, i, c) && s.clock <= now
    ensures Enabled(s, Try(i, now))
    ensures var k, t := c.keys[c.pos], Next(s, Try(i, now));
      && t.rates == s.rates && t.clock == now
      && t.buckets == s.buckets[k := Acquired(BucketOf(s, k), RateOf(s, k), RateOf(s, k), 1.0, now)]
      && (if !Grants(BucketOf(s, k), RateOf(s, k), RateOf(s, k), 1.0, now) then
            t.calls == s.calls[i := c.(pos := 0, pc := Waiting(now + SLEEP))]
            && t.wasted == BumpAll(s.wasted, c.keys[..c.pos]) && t.admitted == s.admitted
          else
            && t.wasted == s.wasted
            && t.calls == s.calls[i := c.(pos := c.pos + 1, pc := if c.pos + 1 < |c.keys| then c.pc else Returned(true))]
            && t.admitted == if c.pos + 1 < |c.keys| then s.admitted else BumpAll(s.admitted, c.keys))
  {
    hide Grants, Acquired, RateOf, BumpAll, Bump;
  }

  /** The `for` loop over the buckets: `drawn` of them are charged before the first refusal. */
  method Pass(local: LocalTokenBucket, keys: seq<string>, rates: map<string, real>, times: nat -> real,
              ghost s0: Sys, ghost i: nat)
    returns (drawn: nat, ghost es: seq<Event>, ghost s: Sys)
    requires i < |s0.calls| && InPass(s0, i, s0.calls[i]) && s0.calls[i].keys == keys && s0.calls[i].pos == 0
    requires Holds(s0, local, rates) && s0.clock <= times(0) && forall j: nat :: times(j) <= times(j + 1)
    modifies local
    ensures IsRun(s0, es) && RunFrom(s0, es) == s && OfCall(es, i) && Holds(s, local, rates)
    ensures drawn <= |keys| && s.clock <= times(drawn)
    ensures var c := s0.calls[i];
      if drawn == |keys| then
        && s.calls == s0.calls[i := c.(pos := |keys|, pc := Returned(true))]
        && s.admitted == BumpAll(s0.admitted, keys) && s.wasted == s0.wasted
      else
        && s.calls == s0.calls[i := c.(pc := Waiting(times(drawn) + SLEEP))]
        && s.wasted == BumpAll(s0.wasted, keys[..drawn]) && s.admitted == s0.admitted
  {
    hide IsRun, RunFrom, Next, Enabled, Grants, Acquired, BumpAll;
    ghost var c := s0.calls[i];
    drawn, s := 0, s0;
    es := NoEvents(s0, i);
    while drawn < |keys|
      invariant drawn <= |keys| && IsRun(s0, es) && RunFrom(s0, es) == s && OfCall(es, i) && Holds(s, local, rates)
      invariant s.clock <= times(drawn) && s.wasted == s0.wasted
      invariant s.calls == s0.calls[i := c.(pos := drawn, pc := if drawn < |keys| then c.pc else Returned(true))]
      invariant s.admitted == if drawn < |keys| then s0.admitted else BumpAll(s0.admitted, keys)
      decreases |keys| - drawn
    {
      var key, now := keys[drawn], times(drawn);
      var rate := if key in rates then rates[key] else SCAN_RATE;
      TryIs(s, i, s.calls[i], now);
      es := OneMore(s0, es, s, Try(i, now), i);
      s := Next(s, Try(i, now));
      var ok := local.Acquire(key, rate, rate, 1.0, now);
      if !ok {
        return;
      }
      drawn := drawn + 1;
      assert times(drawn - 1) <= times(drawn);
    }
  }

  lemma NoEvents(s: Sys, i: nat) returns (es: seq<Event>)
    ensures es == [] && IsRun(s, es) && RunFrom(s, es) == s && OfCall(es, i)
  {
    es := [];
  }

  /** test(k) is the time at the k-th test of the loop, ask(k, j) when pass k asks bucket j. Time does not go back,
      and a tenth of a second is slept after a refusal. */
  ghost predicate Clocks(start: real, test: nat -> real, ask: (nat, nat) -> real) {
    && start <= test(0)
    && (forall k: nat :: test(k) <= ask(k, 0))
    && (forall k: nat, j: nat :: ask(k, j) <= ask(k, j + 1))
    && (forall k: nat, j: nat {:trigger ask(k, j), test(k + 1)} :: ask(k, j) + SLEEP <= test(k + 1))
  }

  lemma BeginIs(s: Sys, keys: seq<string>, timeout: nat, now: real)
    requires keys != [] && Distinct(keys) && s.clock <= now
    ensures Enabled(s, Begin(keys, timeout, now))
    ensures Next(s, Begin(keys, timeout, now))
         == s.(calls := s.calls + [Call(keys, timeout, now, 0, 0, Waiting(now))], clock := now)
  {
  }

  lemma Tests(s0: Sys, es: seq<Event>, s: Sys, i: nat, c: Call, now: real) returns (es': seq<Event>, s': Sys)
    requires IsRun(s0, es) && RunFrom(s0, es) == s && OfCall(es, i)
    requires |s.calls| == i + 1 && s.calls[i] == c && c.pc.Waiting? && c.pc.until <= now && s.clock <= now
    ensures IsRun(s0, es') && RunFrom(s0, es') == s' && OfCall(es', i)
    ensures s' == s.(calls := s.calls[..i] + [Tested(c, now)], clock := now)
  {
    assert s.calls[i := Tested(c, now)] == s.calls[..i] + [Tested(c, now)];
    es' := OneMore(s0, es, s, Test(i, now), i);
    s' := Next(s, Test(i, now));
  }

  /** `RateLimiter.acquire`. What it does to the buckets is a run of one call of the system, from its beginning to
      its return. draws[k] is the number of buckets pass k charges: all of them, the scan bucket included, in the
      last pass of a call that returns true, a proper prefix in every other. */
  method Acquire(local: LocalTokenBucket, keys: seq<string>, rates: map<string, real>, timeout: nat, start: real,
                 test: nat -> real, ask: (nat, nat) -> real, ghost s0: Sys)
    returns (ok: bool, draws: seq<nat>, ghost es: seq<Event>, ghost s: Sys)
    requires keys != [] && Distinct(keys) && Clocks(start, test, ask)
    requires Holds(s0, local, rates) && s0.clock <= start
    modifies local
    ensures IsRun(s0, es) && RunFrom(s0, es) == s && OfCall(es, |s0.calls|) && Holds(s, local, rates)
    ensures exists pos :: s.calls == s0.calls + [Call(keys, timeout, start, |draws|, pos, Returned(ok))]
    ensures |draws| <= 10 * timeout && forall d :: d in draws ==> d <= |keys|
    ensures ok ==> (
      && draws != [] && draws[|draws| - 1] == |keys|
      && (forall k :: 0 <= k < |draws| - 1 ==> draws[k] < |keys|)
      && s.wasted == WastedBy(s0.wasted, keys, draws[..|draws| - 1]) && s.admitted == BumpAll(s0.admitted, keys))
    ensures !ok ==> (
      && (forall k :: 0 <= k < |draws| ==> draws[k] < |keys|)
      && s.wasted == WastedBy(s0.wasted, keys, draws) && s.admitted == s0.admitted
      && test(|draws|) - start >= timeout as real)
  {
    hide IsRun, RunFrom, Next, Enabled, Grants, Acquired, BumpAll, WastedBy, Distinct;
    ghost var i := |s0.calls|;
    ok, draws := false, [];
    es := NoEvents(s0, i);
    BeginIs(s0, keys, timeout, start);
    es := OneMore(s0, es, s0, Begin(keys, timeout, start), i);
    s := Next(s0, Begin(keys, timeout, start));
    NoneWasted(s0.wasted, keys);
    while test(|draws|) - start < timeout as real
      invariant IsRun(s0, es) && RunFrom(s0, es) == s && OfCall(es, i) && Holds(s, local, rates)
      invariant |s.calls| == i + 1 && s.calls[..i] == s0.calls && s.calls[i].pc.Waiting?
      invariant s.calls[i] == Call(keys, timeout, start, |draws|, 0, s.calls[i].pc)
      invariant s.calls[i].pc.until <= test(|draws|) && s.clock <= test(|draws|)
      invariant test(|draws|) >= start + SLEEP * |draws| as real && |draws| <= 10 * timeout
      invariant forall k :: 0 <= k < |draws| ==> draws[k] < |keys|
      invariant s.wasted == WastedBy(s0.wasted, keys, draws) && s.admitted == s0.admitted
      decreases 10 * timeout - |draws|
    {
      var k: nat := |draws|;
      es, s := Tests(s0, es, s, i, s.calls[i], test(k));
      ghost var more;
      var drawn;
      ghost var before := s;
      assert test(k) <= ask(k, 0);
      drawn, more, s := Pass(local, keys, rates, (j: nat) => ask(k, j), s, i);
      es := Joined(s0, es, before, more, s, i);
      ghost var was := draws;
      draws := draws + [drawn];
      if drawn == |keys| {
        ok := true;
        assert draws[..|draws| - 1] == was;
        assert s.calls == s0.calls + [s.calls[i]];
        return;
      }
      WastedSnoc(s0.wasted, keys, was, drawn);
      SleepIsOver(test, ask, start, k, drawn);
    }
    es, s := Tests(s0, es, s, i, s.calls[i], test(|draws|));
    assert s.calls == s0.calls + [s.calls[i]];
  }

  lemma NoneWasted(m: map<string, nat>, keys: seq<string>)
    ensures WastedBy(m, keys, []) == m
  {
  }

  lemma Joined(s0: Sys, es: seq<Event>, s: Sys, more: seq<Event>, s': Sys, i: nat) returns (all: seq<Event>)
    requires IsRun(s0, es) && RunFrom(s0, es) == s && IsRun(s, more) && RunFrom(s, more) == s' && OfCall(es, i) && OfCall(more, i)
    ensures IsRun(s0, all) && RunFrom(s0, all) == s' && OfCall(all, i)
  {
    RunsAppend(s0, es, more);
    all := es + more;
  }

  lemma {:induction false} RunsAppend(s: Sys, x: seq<Event>, y: seq<Event>)
    requires IsRun(s, x) && IsRun(RunFrom(s, x), y)
    ensures IsRun(s, x + y) && RunFrom(s, x + y) == RunFrom(RunFrom(s, x), y)
    decreases |x|
  {
    hide Next, Enabled;
    if x == [] {
      assert x + y == y;
    } else {
      assert (x + y)[1..] == x[1..] + y;
      RunsAppend(Next(s, x[0]), x[1..], y);
    }
  }

  lemma {:induction false} AsksInOrder(ask: (nat, nat) -> real, k: nat, j: nat)
    requires forall k: nat, j: nat :: ask(k, j) <= ask(k, j + 1)
    ensures ask(k, 0) <= ask(k, j)
  {
    if j > 0 {
      AsksInOrder(ask, k, j - 1);
      assert ask(k, j - 1) <= ask(k, j - 1 + 1);
    }
  }

  lemma SleepIsOver(test: nat -> real, ask: (nat, nat) -> real, start: real, k: nat, drawn: nat)
    requires Clocks(start, test, ask)
    ensures ask(k, drawn) + SLEEP <= test(k + 1) && test(k) + SLEEP <= test(k + 1)
  {
    AsksInOrder(ask, k, drawn);
    assert test(k) <= ask(k, 0);
  }
}
