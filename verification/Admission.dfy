/** Many concurrent `RateLimiter.acquire` calls over shared in-process buckets, interleaved in any way.
    Calls ask for one token; a bucket's capacity equals its rate. */
module Admission {
  import opened TaskQueue
  import opened TokenBucket

  /** A call tests the time before every pass, not before the end of its sleep; in a pass it asks bucket after
      bucket. */
  datatype CallPc = Waiting(until: real) | Asking(since: real) | Returned(ok: bool)

  /** A call at the `pos`-th bucket of its current pass, in its `passes`-th pass. */
  datatype Call = Call(keys: seq<string>, timeout: nat, start: real, passes: nat, pos: nat, pc: CallPc)

  /** `granted` counts the grants of each bucket, `admitted` those that were part of the successful pass of a call,
      `wasted` those of passes that failed at a later bucket. */
  datatype Sys = Sys(rates: map<string, real>, buckets: map<string, Bucket>, calls: seq<Call>, clock: real,
                     granted: map<string, nat>, admitted: map<string, nat>, wasted: map<string, nat>)

  const SCAN_RATE := 100.0

  /** Configured global and domain rates; every other key is a scan's. */
  function RateOf(s: Sys, k: string): real { if k in s.rates then s.rates[k] else SCAN_RATE }

  function BucketOf(s: Sys, k: string): Option<Bucket> { if k in s.buckets then Some(s.buckets[k]) else None }

  function Count(m: map<string, nat>, k: string): nat { if k in m then m[k] else 0 }

  function Bump(m: map<string, nat>, k: string): map<string, nat> { m[k := Count(m, k) + 1] }

  function BumpAll(m: map<string, nat>, ks: seq<string>): map<string, nat>
    decreases |ks|
  {
    if ks == [] then m else BumpAll(Bump(m, ks[0]), ks[1..])
  }

  const SLEEP := 0.1

  datatype Event =
    | Begin(keys: seq<string>, timeout: nat, now: real)
    | Test(i: nat, now: real)
    | Try(i: nat, now: real)
    | Report(key: string, now: real)

  predicate Distinct(ks: seq<string>) { forall i, j :: 0 <= i < j < |ks| ==> ks[i] != ks[j] }

  predicate Enabled(s: Sys, e: Event) {
    && s.clock <= e.now
    && match e
       case Begin(keys, _, _) => keys != [] && Distinct(keys)
       case Test(i, now) => i < |s.calls| && s.calls[i].pc.Waiting? && s.calls[i].pc.until <= now
       case Try(i, _) => i < |s.calls| && s.calls[i].pc.Asking? && s.calls[i].pos < |s.calls[i].keys|
       case Report(_, _) => true
  }

  /** The test of the `while` loop. */
  function Tested(c: Call, now: real): Call {
    if now - c.start < c.timeout as real then c.(passes := c.passes + 1, pc := Asking(now)) else c.(pc := Returned(false))
  }

  function Touch(s: Sys, k: string, op: BucketOp): Sys {
    s.(buckets := s.buckets[k := Apply(BucketOf(s, k), op, RateOf(s, k), RateOf(s, k))],
       clock := op.now)
  }

  function TryStep(s: Sys, i: nat, now: real): Sys
    requires Enabled(s, Try(i, now))
  {
    var c := s.calls[i];
    var k := c.keys[c.pos];
    var t := Touch(s, k, Ask(now, 1.0));
    if !Grants(BucketOf(s, k), RateOf(s, k), RateOf(s, k), 1.0, now) then
      t.(calls := s.calls[i := c.(pos := 0, pc := Waiting(now + SLEEP))], wasted := BumpAll(s.wasted, c.keys[..c.pos]))
    else if c.pos + 1 < |c.keys| then
      t.(calls := s.calls[i := c.(pos := c.pos + 1)], granted := Bump(s.granted, k))
    else
      t.(calls := s.calls[i := c.(pos := c.pos + 1, pc := Returned(true))],
         granted := Bump(s.granted, k), admitted := BumpAll(s.admitted, c.keys))
  }

  function Next(s: Sys, e: Event): Sys
    requires Enabled(s, e)
  {
    match e
    case Begin(keys, timeout, now) => s.(calls := s.calls + [Call(keys, timeout, now, 0, 0, Waiting(now))], clock := now)
    case Test(i, now) => s.(calls := s.calls[i := Tested(s.calls[i], now)], clock := now)
    case Try(i, now) => TryStep(s, i, now)
    case Report(key, now) => Touch(s, key, BucketOp.Report(now))
  }

  predicate IsRun(s: Sys, es: seq<Event>)
    decreases |es|
  {
    es == [] || (Enabled(s, es[0]) && IsRun(Next(s, es[0]), es[1..]))
  }

  function RunFrom(s: Sys, es: seq<Event>): Sys
    requires IsRun(s, es)
    decreases |es|
  {
    if es == [] then s else RunFrom(Next(s, es[0]), es[1..])
  }

  function Empty(rates: map<string, real>): Sys {
    Sys(rates, map[], [], 0.0, map[], map[], map[])
  }

  // ------------------------------------------------------------------
  // The steps of one call
  // ------------------------------------------------------------------

  /** What the steps of call i may do to the others, the rates and the other buckets: nothing. */
  ghost predicate OnlyCall(s: Sys, i: nat, t: Sys, keys: set<string>) {
    && i < |s.calls| && |t.calls| == |s.calls| && t.rates == s.rates
    && (forall j :: 0 <= j < |s.calls| && j != i ==> t.calls[j] == s.calls[j])
    && (forall k :: k !in keys ==> BucketOf(t, k) == BucketOf(s, k) && Count(t.granted, k) == Count(s.granted, k))
  }

  /** A test gives up once the timeout is over, and begins a pass before. */
  lemma TestIs(s: Sys, i: nat, now: real)
    requires Enabled(s, Test(i, now))
    ensures var t, c := Next(s, Test(i, now)), s.calls[i];
      && OnlyCall(s, i, t, {})
      && t.calls[i] == if now - c.start >= c.timeout as real then c.(pc := Returned(false))
                       else c.(passes := c.passes + 1, pc := Asking(now))
  {
  }

  /** A pass asks its next bucket for one token, at the rate configured for it or, for a scan's, 100 a second; other
      buckets are left alone. */
  lemma AskIs(s: Sys, i: nat, now: real)
    requires Enabled(s, Try(i, now))
    ensures var t, k := Next(s, Try(i, now)), s.calls[i].keys[s.calls[i].pos];
      var rate := if k in s.rates then s.rates[k] else 100.0;
      && OnlyCall(s, i, t, {k})
      && BucketOf(t, k) == Some(Acquired(BucketOf(s, k), rate, rate, 1.0, now))
      && Count(t.granted, k) == Count(s.granted, k) + if Grants(BucketOf(s, k), rate, rate, 1.0, now) then 1 else 0
  {
    AskAt(s, i, now, s.calls[i].keys[s.calls[i].pos]);
    hide Grants, Acquired, BumpAll, Bump, Count, BucketOf;
    forall x { AskAt(s, i, now, x); }
  }

  lemma AskAt(s: Sys, i: nat, now: real, x: string)
    requires Enabled(s, Try(i, now))
    ensures var t, k := Next(s, Try(i, now)), s.calls[i].keys[s.calls[i].pos];
      var ok := Grants(BucketOf(s, k), RateOf(s, k), RateOf(s, k), 1.0, now);
      && BucketOf(t, x) == (if x == k then Some(Acquired(BucketOf(s, k), RateOf(s, k), RateOf(s, k), 1.0, now)) else BucketOf(s, x))
      && Count(t.granted, x) == Count(s.granted, x) + if x == k && ok then 1 else 0
  {
    hide Grants, Acquired, BumpAll, Bump, Count, RateOf;
    BumpCount(s.granted, s.calls[i].keys[s.calls[i].pos], x);
  }

  lemma BumpCount(m: map<string, nat>, k: string, x: string)
    ensures Count(Bump(m, k), x) == Count(m, x) + if x == k then 1 else 0
  {
  }

  /** Granted it goes on to the next bucket, or returns true after the last; refused it starts again from the first, no
      sooner than a tenth of a second later. */
  lemma AnswerIs(s: Sys, i: nat, now: real)
    requires Enabled(s, Try(i, now))
    ensures var t, c := Next(s, Try(i, now)), s.calls[i];
      var k := c.keys[c.pos];
      if Grants(BucketOf(s, k), RateOf(s, k), RateOf(s, k), 1.0, now) then
        t.calls[i] == c.(pos := c.pos + 1, pc := if c.pos + 1 == |c.keys| then Returned(true) else c.pc)
      else
        && t.calls[i] == c.(pos := 0, pc := t.calls[i].pc)
        && forall later :: Enabled(t, Test(i, later)) <==> later >= now + 0.1
  {
    hide Grants, Acquired, BumpAll, Bump;
  }

  // ------------------------------------------------------------------
  // Accounting
  // ------------------------------------------------------------------

  /** The call holds a grant of bucket k from its unfinished pass. */
  function Holding(c: Call, k: string): nat {
    if !c.pc.Returned? && c.pos <= |c.keys| && k in c.keys[..c.pos] then 1 else 0
  }

  function InHand(calls: seq<Call>, k: string): nat {
    if calls == [] then 0 else Holding(calls[0], k) + InHand(calls[1..], k)
  }

  lemma {:induction false} InHandUpdate(calls: seq<Call>, i: nat, c: Call, k: string)
    requires i < |calls|
    ensures InHand(calls[i := c], k) + Holding(calls[i], k) == InHand(calls, k) + Holding(c, k)
  {
    if i > 0 {
      InHandUpdate(calls[1..], i - 1, c, k);
      assert calls[i := c][1..] == calls[1..][i - 1 := c];
    } else {
      assert calls[i := c][1..] == calls[1..];
    }
  }

  lemma {:induction false} InHandAppend(calls: seq<Call>, c: Call, k: string)
    ensures InHand(calls + [c], k) == InHand(calls, k) + Holding(c, k)
  {
    if calls == [] {
      assert [c][1..] == [] && [] + [c] == [c];
    } else {
      InHandAppend(calls[1..], c, k);
      assert (calls + [c])[1..] == calls[1..] + [c];
    }
  }

  lemma {:induction false} CountBumpAll(m: map<string, nat>, ks: seq<string>, k: string)
    requires Distinct(ks)
    ensures Count(BumpAll(m, ks), k) == Count(m, k) + if k in ks then 1 else 0
    decreases |ks|
  {
    if ks != [] {
      CountBumpAll(Bump(m, ks[0]), ks[1..], k);
      assert ks == [ks[0]] + ks[1..];
    }
  }

  predicate CallOk(c: Call) {
    && c.keys != [] && Distinct(c.keys) && c.pos <= |c.keys|
    && (c.pc.Waiting? ==> c.pos == 0) && (c.pc.Asking? ==> c.pos < |c.keys|)
  }

  predicate CallsOk(s: Sys) { forall c :: c in s.calls ==> CallOk(c) }

  predicate Balanced(s: Sys, k: string) {
    Count(s.granted, k) == Count(s.admitted, k) + Count(s.wasted, k) + InHand(s.calls, k)
  }

  lemma StepCallsOk(s: Sys, e: Event)
    requires CallsOk(s) && Enabled(s, e)
    ensures CallsOk(Next(s, e))
  {
    forall c | c in Next(s, e).calls
      ensures CallOk(c)
    {
      if c !in s.calls {
        NewCallOk(s, e, c);
      }
    }
  }

  lemma NewCallOk(s: Sys, e: Event, c: Call)
    requires CallsOk(s) && Enabled(s, e) && c in Next(s, e).calls && c !in s.calls
    ensures CallOk(c)
  {
    hide Touch, Grants, Bump, BumpAll, RateOf, BucketOf;
    match e
    case Begin(_, _, _) =>
    case Test(i, now) => assert s.calls[i] in s.calls && c == Tested(s.calls[i], now);
    case Try(i, now) =>
      TouchKeeps(s, s.calls[i].keys[s.calls[i].pos], Ask(now, 1.0));
      assert s.calls[i] in s.calls && c == TryStep(s, i, now).calls[i];
    case Report(key, now) => TouchKeeps(s, key, BucketOp.Report(now));
  }

  lemma CountBump(m: map<string, nat>, asked: string, k: string)
    ensures Count(Bump(m, asked), k) == Count(m, k) + if k == asked then 1 else 0
  {
  }

  /** One bucket further on, the pass also holds the bucket it has just been granted. */
  lemma HoldingNext(c: Call, k: string)
    requires c.pos < |c.keys| && Distinct(c.keys)
    ensures (k in c.keys[..c.pos + 1]) == (k in c.keys[..c.pos] || k == c.keys[c.pos])
    ensures !(k in c.keys[..c.pos] && k == c.keys[c.pos])
    ensures Distinct(c.keys[..c.pos])
    ensures c.pos + 1 == |c.keys| ==> c.keys[..c.pos + 1] == c.keys
  {
    assert c.keys[..c.pos + 1] == c.keys[..c.pos] + [c.keys[c.pos]];
  }

  lemma TouchKeeps(s: Sys, key: string, op: BucketOp)
    ensures var t := Touch(s, key, op);
      t.calls == s.calls && t.granted == s.granted && t.admitted == s.admitted && t.wasted == s.wasted
      && t.rates == s.rates && t.clock == op.now
  {
  }

  lemma RefusedBalanced(s: Sys, i: nat, now: real, k: string)
    requires CallsOk(s) && Enabled(s, Try(i, now)) && Balanced(s, k)
    requires var key := s.calls[i].keys[s.calls[i].pos];
      !Grants(BucketOf(s, key), RateOf(s, key), RateOf(s, key), 1.0, now)
    ensures Balanced(TryStep(s, i, now), k)
  {
    hide Grants, Touch, Bump, BumpAll, Count, InHand, RateOf, BucketOf;
    var c := s.calls[i];
    assert c in s.calls;
    TouchKeeps(s, c.keys[c.pos], Ask(now, 1.0));
    HoldingNext(c, k);
    hide Distinct;
    InHandUpdate(s.calls, i, c.(pos := 0, pc := Waiting(now + SLEEP)), k);
    CountBumpAll(s.wasted, c.keys[..c.pos], k);
  }

  lemma GrantedBalanced(s: Sys, i: nat, now: real, k: string)
    requires CallsOk(s) && Enabled(s, Try(i, now)) && Balanced(s, k)
    requires var key := s.calls[i].keys[s.calls[i].pos];
      Grants(BucketOf(s, key), RateOf(s, key), RateOf(s, key), 1.0, now)
    ensures Balanced(TryStep(s, i, now), k)
  {
    hide Grants, Touch, Bump, BumpAll, Count, InHand, RateOf, BucketOf;
    var c := s.calls[i];
    assert c in s.calls;
    TouchKeeps(s, c.keys[c.pos], Ask(now, 1.0));
    HoldingNext(c, k);
    hide Distinct;
    InHandUpdate(s.calls, i, if c.pos + 1 < |c.keys| then c.(pos := c.pos + 1) else c.(pos := c.pos + 1, pc := Returned(true)), k);
    CountBumpAll(s.admitted, c.keys, k);
    CountBump(s.granted, c.keys[c.pos], k);
  }

  lemma StepBalanced(s: Sys, e: Event, k: string)
    requires CallsOk(s) && Enabled(s, e) && Balanced(s, k)
    ensures Balanced(Next(s, e), k)
  {
    hide Grants, Count, InHand;
    match e
    case Begin(keys, timeout, now) => InHandAppend(s.calls, Call(keys, timeout, now, 0, 0, Waiting(now)), k);
    case Test(i, now) => assert s.calls[i] in s.calls; InHandUpdate(s.calls, i, Tested(s.calls[i], now), k);
    case Try(i, now) =>
      var key := s.calls[i].keys[s.calls[i].pos];
      if Grants(BucketOf(s, key), RateOf(s, key), RateOf(s, key), 1.0, now) {
        GrantedBalanced(s, i, now, k);
      } else {
        RefusedBalanced(s, i, now, k);
      }
    case Report(_, _) =>
  }

  lemma Unfolds(s: Sys, es: seq<Event>)
    requires IsRun(s, es) && es != []
    ensures Enabled(s, es[0]) && IsRun(Next(s, es[0]), es[1..])
    ensures RunFrom(s, es) == RunFrom(Next(s, es[0]), es[1..])
  {
  }

  lemma {:induction false} RunBalanced(s: Sys, es: seq<Event>, k: string)
    requires CallsOk(s) && Balanced(s, k) && IsRun(s, es)
    ensures CallsOk(RunFrom(s, es)) && Balanced(RunFrom(s, es), k)
    decreases |es|
  {
    if es != [] {
      hide Next, Enabled, CallsOk, Balanced;
      Unfolds(s, es);
      StepCallsOk(s, es[0]);
      StepBalanced(s, es[0], k);
      RunBalanced(Next(s, es[0]), es[1..], k);
    }
  }

  /** Every grant of a bucket is accounted for: it admitted a call, was wasted by a pass that failed further on,
      or is in the hand of a pass still going on. */
  lemma GrantsAreAccountedFor(rates: map<string, real>, es: seq<Event>, k: string)
    requires IsRun(Empty(rates), es)
    ensures Balanced(RunFrom(Empty(rates), es), k)
  {
    RunBalanced(Empty(rates), es, k);
  }

  // ------------------------------------------------------------------
  // The last bucket of a call
  // ------------------------------------------------------------------

  /** Key k is never asked for before the last place, as the scan buckets are. */
  predicate LastIn(keys: seq<string>, k: string) { forall j :: 0 <= j < |keys| - 1 ==> keys[j] != k }

  predicate OnlyLast(es: seq<Event>, k: string) {
    forall e :: e in es && e.Begin? ==> LastIn(e.keys, k)
  }

  predicate LastOk(s: Sys, k: string) {
    (forall c :: c in s.calls ==> LastIn(c.keys, k)) && Count(s.wasted, k) == 0
  }

  lemma StepLast(s: Sys, e: Event, k: string)
    requires CallsOk(s) && Enabled(s, e) && LastOk(s, k) && (e.Begin? ==> LastIn(e.keys, k))
    ensures LastOk(Next(s, e), k)
  {
    hide Grants, Apply, Bump, BumpAll, Count, LastIn, Distinct, RateOf, BucketOf;
    forall c | c in Next(s, e).calls
      ensures LastIn(c.keys, k)
    {
      if c !in s.calls && !e.Begin? {
        assert s.calls[e.i] in s.calls;
      }
    }
    if e.Try? {
      var c := s.calls[e.i];
      assert c in s.calls;
      NotYet(c.keys, c.pos, k);
      HoldingNext(c, k);
      CountBumpAll(s.wasted, c.keys[..c.pos], k);
    }
  }

  lemma NotYet(keys: seq<string>, pos: nat, k: string)
    requires LastIn(keys, k) && pos < |keys|
    ensures k !in keys[..pos]
  {
  }

  lemma {:induction false} RunLast(s: Sys, es: seq<Event>, k: string)
    requires CallsOk(s) && LastOk(s, k) && IsRun(s, es) && OnlyLast(es, k)
    ensures CallsOk(RunFrom(s, es)) && LastOk(RunFrom(s, es), k)
    decreases |es|
  {
    if es != [] {
      hide Next, CallsOk, LastOk, Enabled, LastIn;
      Unfolds(s, es);
      StepCallsOk(s, es[0]);
      assert es[0] in es;
      assert forall e :: e in es[1..] ==> e in es;
      StepLast(s, es[0], k);
      RunLast(Next(s, es[0]), es[1..], k);
    }
  }

  lemma {:induction false} NothingInHand(calls: seq<Call>, k: string)
    requires forall c :: c in calls ==> LastIn(c.keys, k) && (!c.pc.Returned? ==> c.pos < |c.keys|)
    ensures InHand(calls, k) == 0
  {
    if calls != [] {
      assert calls[0] in calls;
      assert forall c :: c in calls[1..] ==> c in calls;
      NothingInHand(calls[1..], k);
      if !calls[0].pc.Returned? {
        NotYet(calls[0].keys, calls[0].pos, k);
      }
    }
  }

  /** A bucket only ever asked last, as every scan bucket is, is charged exactly once per admitted call and never
      by a call that fails or is still waiting. */
  lemma ScanBucketChargedPerAdmission(rates: map<string, real>, es: seq<Event>, k: string)
    requires IsRun(Empty(rates), es) && OnlyLast(es, k)
    ensures var s := RunFrom(Empty(rates), es);
      Count(s.granted, k) == Count(s.admitted, k) && Count(s.wasted, k) == 0 && InHand(s.calls, k) == 0
  {
    RunLast(Empty(rates), es, k);
    RunBalanced(Empty(rates), es, k);
    NothingInHand(RunFrom(Empty(rates), es).calls, k);
  }

  // ------------------------------------------------------------------
  // Windows
  // ------------------------------------------------------------------

  /** What a step does to bucket k. */
  function OpOn(s: Sys, e: Event, k: string): seq<BucketOp>
    requires Enabled(s, e)
  {
    match e
    case Try(i, now) => if s.calls[i].keys[s.calls[i].pos] == k then [Ask(now, 1.0)] else []
    case Report(key, now) => if key == k then [BucketOp.Report(now)] else []
    case _ => []
  }

  function OpsOn(s: Sys, es: seq<Event>, k: string): seq<BucketOp>
    requires IsRun(s, es)
    decreases |es|
  {
    if es == [] then [] else OpOn(s, es[0], k) + OpsOn(Next(s, es[0]), es[1..], k)
  }

  /** How one bucket fares in a step that does `ops` to it. */
  ghost predicate OpsTake(s: Sys, ops: seq<BucketOp>, t: Sys, k: string) {
    && t.rates == s.rates && s.clock <= t.clock
    && |ops| <= 1
    && (ops == [] ==> BucketOf(t, k) == BucketOf(s, k) && Count(t.granted, k) == Count(s.granted, k))
    && (ops != [] ==>
         var rate := RateOf(s, k);
         && ops[0].now == t.clock && (ops[0].Ask? ==> ops[0].requested == 1.0)
         && BucketOf(t, k) == Some(Apply(BucketOf(s, k), ops[0], rate, rate))
         && Count(t.granted, k) as real == Count(s.granted, k) as real + GrantOf(BucketOf(s, k), ops[0], rate, rate))
  }

  lemma TouchBucket(s: Sys, key: string, op: BucketOp, k: string)
    ensures BucketOf(Touch(s, key, op), k)
         == if k == key then Some(Apply(BucketOf(s, k), op, RateOf(s, k), RateOf(s, k))) else BucketOf(s, k)
  {
    hide Apply, RateOf;
  }

  lemma TryOpOn(s: Sys, i: nat, now: real, k: string)
    requires Enabled(s, Try(i, now))
    ensures OpsTake(s, OpOn(s, Try(i, now), k), TryStep(s, i, now), k)
  {
    hide Touch, Apply, Grants, Count, Bump, BumpAll;
    var key := s.calls[i].keys[s.calls[i].pos];
    TouchBucket(s, key, Ask(now, 1.0), k);
    TouchKeeps(s, key, Ask(now, 1.0));
    CountBump(s.granted, key, k);
  }

  lemma OneOpOn(s: Sys, e: Event, k: string)
    requires Enabled(s, e)
    ensures OpsTake(s, OpOn(s, e, k), Next(s, e), k)
  {
    hide Apply, Grants, RateOf, Count, TryStep;
    match e
    case Try(i, now) => TryOpOn(s, i, now, k);
    case Report(key, now) => TouchBucket(s, key, BucketOp.Report(now), k);
    case _ =>
  }

  lemma ClockedLater(from: real, later: real, ops: seq<BucketOp>)
    requires Clocked(later, ops) && from <= later
    ensures Clocked(from, ops)
  {
  }

  /** From s to t bucket k did `ops` and nothing else, with the clock going forward. */
  ghost predicate OpsLead(s: Sys, ops: seq<BucketOp>, t: Sys, k: string) {
    var rate := RateOf(s, k);
    && t.rates == s.rates && s.clock <= t.clock
    && Clocked(s.clock, ops) && EndTime(s.clock, ops) <= t.clock
    && BucketOf(t, k) == ApplyAll(BucketOf(s, k), ops, rate, rate)
    && Count(t.granted, k) as real == Count(s.granted, k) as real + Granted(BucketOf(s, k), ops, rate, rate)
  }

  lemma OpsChain(s: Sys, op: seq<BucketOp>, t: Sys, rest: seq<BucketOp>, u: Sys, k: string)
    requires OpsTake(s, op, t, k) && OpsLead(t, rest, u, k)
    ensures OpsLead(s, op + rest, u, k)
  {
    hide BucketOf, Count, Apply, GrantOf;
    if op == [] {
      assert op + rest == rest;
      ClockedLater(s.clock, t.clock, rest);
    } else {
      assert op == [op[0]];
      assert (op + rest)[0] == op[0] && (op + rest)[1..] == rest;
      assert EndTime(s.clock, op + rest) == EndTime(t.clock, rest);
    }
  }

  /** Seen from one bucket, a run of the whole system is a run of that bucket. */
  lemma {:induction false} RunIsBucketRun(s: Sys, es: seq<Event>, k: string)
    requires IsRun(s, es)
    ensures OpsLead(s, OpsOn(s, es, k), RunFrom(s, es), k)
    decreases |es|
  {
    if es != [] {
      hide Next, Enabled, OpsLead, OpsTake;
      Unfolds(s, es);
      OneOpOn(s, es[0], k);
      RunIsBucketRun(Next(s, es[0]), es[1..], k);
      OpsChain(s, OpOn(s, es[0], k), Next(s, es[0]), OpsOn(Next(s, es[0]), es[1..], k), RunFrom(s, es), k);
    }
  }

  predicate NotBefore(es: seq<Event>, t1: real) {
    forall e :: e in es ==> t1 <= e.now
  }

  lemma {:induction false} FirstOpOn(s: Sys, es: seq<Event>, k: string, t1: real)
    requires IsRun(s, es) && NotBefore(es, t1)
    ensures OpsOn(s, es, k) != [] ==> t1 <= OpsOn(s, es, k)[0].now
    decreases |es|
  {
    if es != [] {
      hide Next;
      Unfolds(s, es);
      assert es[0] in es;
      assert forall e :: e in es[1..] ==> e in es;
      FirstOpOn(Next(s, es[0]), es[1..], k, t1);
    }
  }

  predicate RatesOk(rates: map<string, real>) { forall k :: k in rates ==> rates[k] >= 0.0 }

  /** The bound of one bucket holds for the whole system: whatever calls are interleaved, in the part `es` of a run
      lying between t1 and its end the bucket grants at most rate + rate * (that time). */
  lemma GrantsInWindow(rates: map<string, real>, past: seq<Event>, es: seq<Event>, k: string, t1: real)
    requires RatesOk(rates) && IsRun(Empty(rates), past) && IsRun(RunFrom(Empty(rates), past), es)
    requires NotBefore(es, t1) && RunFrom(Empty(rates), past).clock <= t1 <= RunFrom(RunFrom(Empty(rates), past), es).clock
    ensures var s := RunFrom(Empty(rates), past);
      var t := RunFrom(s, es);
      (Count(t.granted, k) - Count(s.granted, k)) as real <= RateOf(s, k) + RateOf(s, k) * (t.clock - t1)
  {
    hide Next, Enabled, IsRun, RunFrom, Count, BucketOf, OpsOn, ApplyAll, Granted, Clocked, Flow, EndTime;
    hide NotBefore, Empty, InRange;
    var init := Empty(rates);
    var s := RunFrom(init, past);
    var t := RunFrom(s, es);
    var rate, ops := RateOf(s, k), OpsOn(s, es, k);
    RunIsBucketRun(init, past, k);
    EmptyHasNoBucket(rates, k);
    RunIsBucketRun(s, es, k);
    RateIsNonNegative(s, k);
    RunInRange(None, 0.0, OpsOn(init, past, k), rate, rate);
    FirstOpOn(s, es, k, t1);
    ClockedFrom(s.clock, t1, t.clock, ops);
    StretchBound(BucketOf(s, k), ops, rate, rate, t1, t.clock);
    FullFlow(rate, t1, t.clock);
  }

  /** So the admissions charged to a bucket in that time exceed the bucket's own bound by at most the grants that
      unfinished passes held at the start of it; none do for a scan bucket. */
  lemma AdmissionsInWindow(rates: map<string, real>, past: seq<Event>, es: seq<Event>, k: string, t1: real)
    requires RatesOk(rates) && IsRun(Empty(rates), past) && IsRun(RunFrom(Empty(rates), past), es)
    requires NotBefore(es, t1) && RunFrom(Empty(rates), past).clock <= t1 <= RunFrom(RunFrom(Empty(rates), past), es).clock
    ensures var s := RunFrom(Empty(rates), past);
      var t := RunFrom(s, es);
      && (Count(t.admitted, k) - Count(s.admitted, k)) as real
         <= RateOf(s, k) + RateOf(s, k) * (t.clock - t1) + InHand(s.calls, k) as real
      && (OnlyLast(past, k) ==> InHand(s.calls, k) == 0)
  {
    hide Next, Enabled, IsRun, RunFrom, Count, InHand, NotBefore, CallsOk, Empty, OnlyLast, RateOf;
    GrantsInWindow(rates, past, es, k, t1);
    var s := RunFrom(Empty(rates), past);
    EmptyBalanced(rates, k);
    RunBalanced(Empty(rates), past, k);
    RunBalanced(s, es, k);
    WastedGrows(s, es, k);
    if OnlyLast(past, k) {
      ScanBucketChargedPerAdmission(rates, past, k);
    }
  }

  lemma RateIsNonNegative(s: Sys, k: string)
    requires RatesOk(s.rates)
    ensures RateOf(s, k) >= 0.0
  {
  }

  lemma FullFlow(rate: real, t1: real, t2: real)
    ensures Flow(rate, 1.0, t1, t2) == rate * (t2 - t1)
  {
    assert rate * 1.0 == rate;
  }

  lemma ClockedFrom(from: real, t1: real, t2: real, ops: seq<BucketOp>)
    requires Clocked(from, ops) && from <= t1 <= t2 && EndTime(from, ops) <= t2 && (ops != [] ==> t1 <= ops[0].now)
    ensures Clocked(t1, ops) && EndTime(t1, ops) <= t2
  {
  }

  lemma EmptyHasNoBucket(rates: map<string, real>, k: string)
    ensures BucketOf(Empty(rates), k) == None && Empty(rates).clock == 0.0
    ensures Empty(rates).rates == rates
  {
  }

  lemma EmptyBalanced(rates: map<string, real>, k: string)
    ensures CallsOk(Empty(rates)) && Balanced(Empty(rates), k)
  {
  }

  lemma {:induction false} WastedGrows(s: Sys, es: seq<Event>, k: string)
    requires CallsOk(s) && IsRun(s, es)
    ensures Count(s.wasted, k) <= Count(RunFrom(s, es).wasted, k)
    decreases |es|
  {
    if es != [] {
      hide Next, CallsOk, Count;
      Unfolds(s, es);
      StepCallsOk(s, es[0]);
      StepWasted(s, es[0], k);
      WastedGrows(Next(s, es[0]), es[1..], k);
    }
  }

  lemma StepWasted(s: Sys, e: Event, k: string)
    requires CallsOk(s) && Enabled(s, e)
    ensures Count(s.wasted, k) <= Count(Next(s, e).wasted, k)
  {
    hide Grants, Apply, Bump, BumpAll, Count, Distinct;
    if e.Try? {
      var c := s.calls[e.i];
      assert c in s.calls;
      HoldingNext(c, k);
      CountBumpAll(s.wasted, c.keys[..c.pos], k);
    }
  }

  // ------------------------------------------------------------------
  // The time a call takes
  // ------------------------------------------------------------------

  /** A tenth of a second for every pass but the one going on has gone by since the start. */
  predicate TimeOk(c: Call, clock: real) {
    && c.passes <= 10 * c.timeout
    && match c.pc
       case Waiting(until) => until >= c.start + SLEEP * c.passes as real
       case Asking(since) =>
         && c.passes >= 1 && c.start + SLEEP * (c.passes - 1) as real <= since <= clock
         && since - c.start < c.timeout as real
       case Returned(_) => true
  }

  predicate TimesOk(s: Sys) { forall c :: c in s.calls ==> TimeOk(c, s.clock) }

  lemma TestInTime(c: Call, now: real)
    requires TimeOk(c, now) && c.pc.Waiting? && c.pc.until <= now
    ensures TimeOk(Tested(c, now), now)
  {
  }

  lemma TryInTime(s: Sys, i: nat, now: real)
    requires TimesOk(s) && Enabled(s, Try(i, now))
    ensures TimeOk(TryStep(s, i, now).calls[i], now) && TryStep(s, i, now).clock == now
  {
    hide Grants, Touch, Bump, BumpAll, RateOf, BucketOf;
    TouchKeeps(s, s.calls[i].keys[s.calls[i].pos], Ask(now, 1.0));
    assert s.calls[i] in s.calls;
  }

  lemma LaterOk(c: Call, clock: real, now: real)
    requires TimeOk(c, clock) && clock <= now
    ensures TimeOk(c, now)
  {
  }

  lemma StepTimesOk(s: Sys, e: Event)
    requires TimesOk(s) && Enabled(s, e)
    ensures TimesOk(Next(s, e)) && Next(s, e).clock == e.now
  {
    hide Grants, Touch, Bump, BumpAll, RateOf, BucketOf, TimeOk, TryStep;
    ClockIs(s, e);
    forall c | c in Next(s, e).calls
      ensures TimeOk(c, e.now)
    {
      if c in s.calls {
        LaterOk(c, s.clock, e.now);
      } else {
        NewCallInTime(s, e, c);
      }
    }
  }

  lemma ClockIs(s: Sys, e: Event)
    requires Enabled(s, e)
    ensures Next(s, e).clock == e.now
  {
  }

  lemma NewCallInTime(s: Sys, e: Event, c: Call)
    requires TimesOk(s) && Enabled(s, e) && c in Next(s, e).calls && c !in s.calls
    ensures TimeOk(c, e.now)
  {
    hide Grants, Touch, Bump, BumpAll, RateOf, BucketOf;
    match e
    case Begin(keys, timeout, now) => assert c == Call(keys, timeout, now, 0, 0, Waiting(now));
    case Test(i, now) =>
      assert s.calls[i] in s.calls && c == Tested(s.calls[i], now);
      LaterOk(s.calls[i], s.clock, now);
      TestInTime(s.calls[i], now);
    case Try(i, now) =>
      TryInTime(s, i, now);
      TouchKeeps(s, s.calls[i].keys[s.calls[i].pos], Ask(now, 1.0));
      assert c == TryStep(s, i, now).calls[i];
    case Report(key, now) => TouchKeeps(s, key, BucketOp.Report(now));
  }

  lemma {:induction false} RunTimesOk(s: Sys, es: seq<Event>)
    requires TimesOk(s) && IsRun(s, es)
    ensures TimesOk(RunFrom(s, es))
    decreases |es|
  {
    if es != [] {
      hide Next, Enabled, TimesOk;
      Unfolds(s, es);
      StepTimesOk(s, es[0]);
      RunTimesOk(Next(s, es[0]), es[1..]);
    }
  }

  /** Whatever else goes on, no call ever makes more than ten passes per second of its timeout. */
  lemma PassesAreBounded(rates: map<string, real>, es: seq<Event>, i: nat)
    requires IsRun(Empty(rates), es) && i < |RunFrom(Empty(rates), es).calls|
    ensures var c := RunFrom(Empty(rates), es).calls[i]; c.passes <= 10 * c.timeout
  {
    RunTimesOk(Empty(rates), es);
    assert RunFrom(Empty(rates), es).calls[i] in RunFrom(Empty(rates), es).calls;
  }

  // ------------------------------------------------------------------
  // The excess is real
  // ------------------------------------------------------------------

  const RATES: map<string, real> := map["g" := 1.0]

  /** Two calls of one global bucket of one token a second and a scan bucket each. */
  function Two(a: Call, b: Call, g: Bucket, more: map<string, Bucket>, clock: real,
               granted: map<string, nat>, admitted: map<string, nat>): Sys {
    Sys(RATES, more["g" := g], [a, b], clock, granted, admitted, map[])
  }

  function CallA(passes: nat, pos: nat, pc: CallPc): Call { Call(["g", "a"], 30, 0.0, passes, pos, pc) }

  function CallB(passes: nat, pos: nat, pc: CallPc): Call { Call(["g", "b"], 30, 0.0, passes, pos, pc) }

  /** A run between two states, no step of it before t1. */
  ghost predicate Led(s0: Sys, es: seq<Event>, s: Sys, t1: real) { IsRun(s0, es) && RunFrom(s0, es) == s && NotBefore(es, t1) }

  lemma {:induction false} ExtendRun(s: Sys, es: seq<Event>, e: Event)
    requires IsRun(s, es) && Enabled(RunFrom(s, es), e)
    ensures IsRun(s, es + [e]) && RunFrom(s, es + [e]) == Next(RunFrom(s, es), e)
    decreases |es|
  {
    hide Next, Enabled;
    if es == [] {
      assert [e][1..] == [];
      assert [] + [e] == [e];
    } else {
      assert (es + [e])[1..] == es[1..] + [e];
      ExtendRun(Next(s, es[0]), es[1..], e);
    }
  }

  lemma Go(s0: Sys, es: seq<Event>, s: Sys, e: Event, s': Sys, t1: real) returns (es': seq<Event>)
    requires Led(s0, es, s, t1) && Enabled(s, e) && Next(s, e) == s' && t1 <= e.now
    ensures Led(s0, es', s', t1)
  {
    hide Next, Enabled;
    ExtendRun(s0, es, e);
    es' := es + [e];
  }

  lemma NoSteps(s: Sys, t1: real)
    ensures Led(s, [], s, t1)
  {
  }

  /** Call A has the global token, call B has just begun. */
  const ONE_IN_HAND := Two(CallA(1, 1, Asking(0.0)), CallB(0, 0, Waiting(0.0)), Bucket(0.0, 0.0, 1.0), map[], 0.0,
                           map["g" := 1], map[])

  const A_TESTED := Empty(RATES).(calls := [CallA(1, 0, Asking(0.0))])

  const A_GRANTED := A_TESTED.(calls := [CallA(1, 1, Asking(0.0))], buckets := map["g" := Bucket(0.0, 0.0, 1.0)],
                               granted := map["g" := 1])

  lemma BeginA()
    ensures var e, s := Begin(["g", "a"], 30, 0.0), Empty(RATES).(calls := [CallA(0, 0, Waiting(0.0))]);
      && Enabled(Empty(RATES), e) && Next(Empty(RATES), e) == s
      && Enabled(s, Test(0, 0.0)) && Next(s, Test(0, 0.0)) == A_TESTED
  {
  }

  lemma TryA()
    ensures Enabled(A_TESTED, Try(0, 0.0)) && Next(A_TESTED, Try(0, 0.0)) == A_GRANTED
  {
    NewBucketIsFull(1.0, 1.0, 0.0);
    hide Refilled, Opened;
  }

  lemma BeginB()
    ensures Enabled(A_GRANTED, Begin(["g", "b"], 30, 0.0)) && Next(A_GRANTED, Begin(["g", "b"], 30, 0.0)) == ONE_IN_HAND
  {
  }

  lemma ReachOneInHand() returns (es: seq<Event>)
    ensures Led(Empty(RATES), es, ONE_IN_HAND, 0.0)
  {
    hide *;
    var s0, s1 := Empty(RATES), Empty(RATES).(calls := [CallA(0, 0, Waiting(0.0))]);
    NoSteps(s0, 0.0);
    BeginA();
    TryA();
    BeginB();
    es := Go(s0, [], s0, Begin(["g", "a"], 30, 0.0), s1, 0.0);
    es := Go(s0, es, s1, Test(0, 0.0), A_TESTED, 0.0);
    es := Go(s0, es, A_TESTED, Try(0, 0.0), A_GRANTED, 0.0);
    es := Go(s0, es, A_GRANTED, Begin(["g", "b"], 30, 0.0), ONE_IN_HAND, 0.0);
  }

  const B_TESTED := Two(CallA(1, 1, Asking(0.0)), CallB(1, 0, Asking(1.0)), Bucket(0.0, 0.0, 1.0), map[], 1.0,
                        map["g" := 1], map[])

  const B_GRANTED := Two(CallA(1, 1, Asking(0.0)), CallB(1, 1, Asking(1.0)), Bucket(0.0, 1.0, 1.0), map[], 1.0,
                         map["g" := 2], map[])

  const B_ADMITTED := Two(CallA(1, 1, Asking(0.0)), CallB(1, 2, Returned(true)), Bucket(0.0, 1.0, 1.0),
                          map["b" := Bucket(99.0, 1.0, 1.0)], 1.0, map["g" := 2, "b" := 1], map["g" := 1, "b" := 1])

  const BOTH_ADMITTED := Two(CallA(1, 2, Returned(true)), CallB(1, 2, Returned(true)), Bucket(0.0, 1.0, 1.0),
                             map["a" := Bucket(99.0, 1.0, 1.0), "b" := Bucket(99.0, 1.0, 1.0)], 1.0,
                             map["g" := 2, "a" := 1, "b" := 1], map["g" := 2, "a" := 1, "b" := 1])

  lemma TestB()
    ensures Enabled(ONE_IN_HAND, Test(1, 1.0)) && Next(ONE_IN_HAND, Test(1, 1.0)) == B_TESTED
  {
  }

  lemma TryB()
    ensures Enabled(B_TESTED, Try(1, 1.0)) && Next(B_TESTED, Try(1, 1.0)) == B_GRANTED
  {
  }

  lemma AdmitB()
    ensures Enabled(B_GRANTED, Try(1, 1.0)) && Next(B_GRANTED, Try(1, 1.0)) == B_ADMITTED
  {
    assert ["g", "b"][1..] == ["b"] && ["b"][1..] == [];
  }

  lemma AdmitA()
    ensures Enabled(B_ADMITTED, Try(0, 1.0)) && Next(B_ADMITTED, Try(0, 1.0)) == BOTH_ADMITTED
  {
    assert ["g", "a"][1..] == ["a"] && ["a"][1..] == [];
  }

  lemma ReachBothAdmitted() returns (es: seq<Event>)
    ensures Led(ONE_IN_HAND, es, BOTH_ADMITTED, 1.0)
  {
    hide *;
    NoSteps(ONE_IN_HAND, 1.0);
    TestB();
    TryB();
    AdmitB();
    AdmitA();
    es := Go(ONE_IN_HAND, [], ONE_IN_HAND, Test(1, 1.0), B_TESTED, 1.0);
    es := Go(ONE_IN_HAND, es, B_TESTED, Try(1, 1.0), B_GRANTED, 1.0);
    es := Go(ONE_IN_HAND, es, B_GRANTED, Try(1, 1.0), B_ADMITTED, 1.0);
    es := Go(ONE_IN_HAND, es, B_ADMITTED, Try(0, 1.0), BOTH_ADMITTED, 1.0);
  }

  /** The bound with the grants in hand is attained: one call takes the global token at 0, another takes the next one
      at 1, and both are admitted at that moment, one more than the bucket can grant in no time. */
  lemma ExcessIsAttained() returns (past: seq<Event>, es: seq<Event>)
    ensures RatesOk(RATES) && IsRun(Empty(RATES), past) && IsRun(RunFrom(Empty(RATES), past), es) && NotBefore(es, 1.0)
    ensures var s := RunFrom(Empty(RATES), past);
      var t := RunFrom(s, es);
      && t.clock == 1.0 && RateOf(s, "g") == 1.0 && InHand(s.calls, "g") == 1
      && Count(t.admitted, "g") - Count(s.admitted, "g") == 2
  {
    past := ReachOneInHand();
    es := ReachBothAdmitted();
    hide IsRun, RunFrom;
    var a, b := ONE_IN_HAND.calls[0], ONE_IN_HAND.calls[1];
    assert ONE_IN_HAND.calls[1..] == [b] && [b][1..] == [];
    assert Holding(a, "g") == 1 && Holding(b, "g") == 0 by {
      assert a.keys[..1] == ["g"] && b.keys[..0] == [];
    }
  }
}
