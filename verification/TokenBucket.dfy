/** The in-process token bucket: its arithmetic bounds over every run, and the adaptive slowdown. */
module TokenBucket {
  import opened TaskQueue

  function Min(a: real, b: real): real { if a <= b then a else b }

  function Max(a: real, b: real): real { if a >= b then a else b }

  datatype Bucket = Bucket(tokens: real, lastRefill: real, multiplier: real)

  /** A bucket is created full. */
  function Opened(b: Option<Bucket>, capacity: real, now: real): Bucket {
    match b
    case Some(x) => x
    case None => Bucket(capacity, now, 1.0)
  }

  function Refilled(b: Bucket, capacity: real, rate: real, now: real): Bucket {
    b.(tokens := Min(capacity, b.tokens + Max(0.0, now - b.lastRefill) * (rate * b.multiplier)), lastRefill := now)
  }

  /** Whether an acquire is granted. */
  predicate Grants(b: Option<Bucket>, capacity: real, rate: real, requested: real, now: real) {
    Refilled(Opened(b, capacity, now), capacity, rate, now).tokens >= requested
  }

  /** The bucket after an acquire. */
  function Acquired(b: Option<Bucket>, capacity: real, rate: real, requested: real, now: real): Bucket {
    var r := Refilled(Opened(b, capacity, now), capacity, rate, now);
    if r.tokens >= requested then r.(tokens := r.tokens - requested) else r
  }

  /** The bucket after a 429; a bucket created by one starts empty. */
  function Slowed(b: Option<Bucket>, now: real): Bucket {
    var x := if b.Some? then b.value else Bucket(0.0, now, 1.0);
    x.(multiplier := Max(0.1, x.multiplier * 0.5))
  }

  class LocalTokenBucket {
    var buckets: map<string, Bucket>

    constructor ()
      ensures buckets == map[]
    {
      buckets := map[];
    }

    ghost function At(key: string): Option<Bucket>
      reads this
    {
      if key in buckets then Some(buckets[key]) else None
    }

    /** `acquire`. Other keys are left alone. */
    method Acquire(key: string, capacity: real, rate: real, requested: real, now: real) returns (ok: bool)
      modifies this
      ensures ok == Grants(old(At(key)), capacity, rate, requested, now)
      ensures buckets == old(buckets)[key := Acquired(old(At(key)), capacity, rate, requested, now)]
      ensures key !in old(buckets) ==>
        && (ok <==> capacity >= requested)
        && buckets[key] == Bucket(if ok then capacity - requested else capacity, now, 1.0)
      ensures key in old(buckets) ==>
        var was := old(buckets)[key];
        var all := was.tokens + (if now >= was.lastRefill then now - was.lastRefill else 0.0) * (rate * was.multiplier);
        var held := if all <= capacity then all else capacity;
        && (ok <==> held >= requested)
        && buckets[key] == Bucket(if ok then held - requested else held, now, was.multiplier)
    {
      NewBucketIsFull(capacity, rate, now);
      if key !in buckets {
        buckets := buckets[key := Bucket(capacity, now, 1.0)];
      }
      var b := buckets[key];
      ghost var start := Opened(old(At(key)), capacity, now);
      assert b == start;
      var effective := rate * b.multiplier;
      var passed := Max(0.0, now - b.lastRefill);
      b := b.(tokens := Min(capacity, b.tokens + passed * effective), lastRefill := now);
      assert b == Refilled(start, capacity, rate, now);
      ok := b.tokens >= requested;
      if ok {
        b := b.(tokens := b.tokens - requested);
      }
      buckets := buckets[key := b];
    }

    /** `report_429`; returns the new multiplier. */
    method Report429(key: string, now: real) returns (multiplier: real)
      modifies this
      ensures buckets == old(buckets)[key := Slowed(old(At(key)), now)]
      ensures multiplier == Slowed(old(At(key)), now).multiplier
      ensures key !in old(buckets) ==> buckets[key] == Bucket(0.0, now, 0.5)
      ensures key in old(buckets) ==>
        var was := old(buckets)[key];
        var half := was.multiplier * 0.5;
        buckets[key] == Bucket(was.tokens, was.lastRefill, if half >= 0.1 then half else 0.1)
    {
      var b := if key in buckets then buckets[key] else Bucket(0.0, now, 1.0);
      multiplier := Max(0.1, b.multiplier * 0.5);
      buckets := buckets[key := b.(multiplier := multiplier)];
    }
  }

  lemma NewBucketIsFull(capacity: real, rate: real, now: real)
    ensures Refilled(Opened(None, capacity, now), capacity, rate, now) == Bucket(capacity, now, 1.0)
  {
    assert now - now == 0.0;
  }

  // ------------------------------------------------------------------
  // Runs of one bucket
  // ------------------------------------------------------------------

  datatype BucketOp = Ask(now: real, requested: real) | Report(now: real)

  function Apply(b: Option<Bucket>, op: BucketOp, capacity: real, rate: real): Bucket {
    match op
    case Ask(now, requested) => Acquired(b, capacity, rate, requested, now)
    case Report(now) => Slowed(b, now)
  }

  function GrantOf(b: Option<Bucket>, op: BucketOp, capacity: real, rate: real): real {
    if op.Ask? && Grants(b, capacity, rate, op.requested, op.now) then op.requested else 0.0
  }

  function ApplyAll(b: Option<Bucket>, ops: seq<BucketOp>, capacity: real, rate: real): (end: Option<Bucket>)
    ensures b.Some? || ops != [] ==> end.Some?
    decreases |ops|
  {
    if ops == [] then b else ApplyAll(Some(Apply(b, ops[0], capacity, rate)), ops[1..], capacity, rate)
  }

  /** Tokens handed out by a run. */
  function Granted(b: Option<Bucket>, ops: seq<BucketOp>, capacity: real, rate: real): real
    decreases |ops|
  {
    if ops == [] then 0.0
    else GrantOf(b, ops[0], capacity, rate) + Granted(Some(Apply(b, ops[0], capacity, rate)), ops[1..], capacity, rate)
  }

  /** The clock never goes back, and nobody asks for a negative number of tokens. */
  predicate Clocked(from: real, ops: seq<BucketOp>)
    decreases |ops|
  {
    ops == [] || (from <= ops[0].now && (ops[0].Ask? ==> ops[0].requested >= 0.0) && Clocked(ops[0].now, ops[1..]))
  }

  function EndTime(from: real, ops: seq<BucketOp>): real {
    if ops == [] then from else ops[|ops| - 1].now
  }

  predicate InRange(b: Bucket, capacity: real) {
    0.0 <= b.tokens <= capacity && 0.1 <= b.multiplier <= 1.0
  }

  /** What flows into a bucket of this rate and multiplier between two moments. */
  function Flow(rate: real, multiplier: real, from: real, to: real): real {
    rate * multiplier * (to - from)
  }

  lemma MulMonotone(a: real, b: real, c: real)
    requires a <= b && 0.0 <= c
    ensures a * c <= b * c
  {
  }

  lemma MulNonNegative(a: real, b: real)
    requires 0.0 <= a && 0.0 <= b
    ensures 0.0 <= a * b
  {
  }

  lemma FlowNonNegative(rate: real, m: real, from: real, to: real)
    requires 0.0 <= rate && 0.0 <= m && from <= to
    ensures 0.0 <= Flow(rate, m, from, to)
  {
    MulNonNegative(rate, m);
    MulNonNegative(rate * m, to - from);
  }

  /** A later part of the time at a smaller multiplier brings no more than all the time at the larger one. */
  lemma FlowSplits(rate: real, m: real, m': real, t0: real, t1: real, t2: real)
    requires 0.0 <= rate && m' <= m && t1 <= t2
    ensures Flow(rate, m, t0, t1) + Flow(rate, m', t1, t2) <= Flow(rate, m, t0, t2)
  {
    MulMonotone(m', m, rate);
    MulMonotone(rate * m', rate * m, t2 - t1);
    assert rate * m * (t1 - t0) + rate * m * (t2 - t1) == rate * m * (t2 - t0);
  }

  lemma {:induction false} EndAfterStart(from: real, ops: seq<BucketOp>)
    requires Clocked(from, ops)
    ensures from <= EndTime(from, ops)
    decreases |ops|
  {
    if ops != [] {
      EndAfterStart(ops[0].now, ops[1..]);
    }
  }

  /** One operation: tokens stay in range, and what is granted and left was there or has flowed in. */
  lemma OneOp(b: Bucket, op: BucketOp, capacity: real, rate: real)
    requires InRange(b, capacity) && 0.0 <= rate && b.lastRefill <= op.now && (op.Ask? ==> op.requested >= 0.0)
    ensures var b' := Apply(Some(b), op, capacity, rate);
      && InRange(b', capacity)
      && b.lastRefill <= b'.lastRefill <= op.now
      && b'.multiplier <= b.multiplier
      && GrantOf(Some(b), op, capacity, rate) + b'.tokens
         <= b.tokens + Flow(rate, b.multiplier, b.lastRefill, b'.lastRefill)
  {
    if op.Ask? {
      var flow := rate * b.multiplier;
      MulNonNegative(rate, b.multiplier);
      MulNonNegative(op.now - b.lastRefill, flow);
    }
  }

  /** From any bucket, over any run: grants are paid by the tokens at the start and the flow since. */
  lemma {:induction false} GrantsArePaid(b: Bucket, from: real, ops: seq<BucketOp>, capacity: real, rate: real)
    requires InRange(b, capacity) && 0.0 <= rate && b.lastRefill <= from && Clocked(from, ops)
    ensures var end := ApplyAll(Some(b), ops, capacity, rate).value;
      && InRange(end, capacity) && end.multiplier <= b.multiplier && end.lastRefill <= EndTime(from, ops)
      && Granted(Some(b), ops, capacity, rate) + end.tokens
         <= b.tokens + Flow(rate, b.multiplier, b.lastRefill, EndTime(from, ops))
    decreases |ops|
  {
    hide Flow, Apply, GrantOf;
    EndAfterStart(from, ops);
    if ops == [] {
      FlowNonNegative(rate, b.multiplier, b.lastRefill, from);
    } else {
      var b', now := Apply(Some(b), ops[0], capacity, rate), ops[0].now;
      OneOp(b, ops[0], capacity, rate);
      GrantsArePaid(b', now, ops[1..], capacity, rate);
      assert EndTime(now, ops[1..]) == EndTime(from, ops);
      EndAfterStart(now, ops[1..]);
      FlowSplits(rate, b.multiplier, b'.multiplier, b.lastRefill, b'.lastRefill, EndTime(from, ops));
    }
  }

  // ------------------------------------------------------------------
  // The exact account
  // ------------------------------------------------------------------

  /** What flows in before this operation: only an acquire refills. */
  function PouredBy(b: Bucket, op: BucketOp, rate: real): real {
    if op.Ask? then Flow(rate, b.multiplier, b.lastRefill, op.now) else 0.0
  }

  /** What of it finds no room. */
  function SpiltBy(b: Bucket, op: BucketOp, capacity: real, rate: real): real {
    var all := b.tokens + PouredBy(b, op, rate);
    if op.Ask? && all > capacity then all - capacity else 0.0
  }

  function Poured(b: Bucket, ops: seq<BucketOp>, capacity: real, rate: real): real
    decreases |ops|
  {
    if ops == [] then 0.0
    else PouredBy(b, ops[0], rate) + Poured(Apply(Some(b), ops[0], capacity, rate), ops[1..], capacity, rate)
  }

  function Spilt(b: Bucket, ops: seq<BucketOp>, capacity: real, rate: real): real
    decreases |ops|
  {
    if ops == [] then 0.0
    else SpiltBy(b, ops[0], capacity, rate) + Spilt(Apply(Some(b), ops[0], capacity, rate), ops[1..], capacity, rate)
  }

  lemma OneOpExactly(b: Bucket, op: BucketOp, capacity: real, rate: real)
    requires b.lastRefill <= op.now
    ensures var b' := Apply(Some(b), op, capacity, rate);
      && GrantOf(Some(b), op, capacity, rate) + b'.tokens + SpiltBy(b, op, capacity, rate) == b.tokens + PouredBy(b, op, rate)
      && b.lastRefill <= b'.lastRefill <= op.now
      && (op.Ask? ==> b'.lastRefill == op.now && b'.multiplier == b.multiplier)
  {
    var flow, d := rate * b.multiplier, op.now - b.lastRefill;
    assert d * flow == flow * d;
  }

  /** Nothing else gets lost or appears: over any run of acquires and reports, what is granted, what is left and what
      found no room make up what was there and what flowed in. */
  lemma {:induction false} TokensAreConserved(b: Bucket, from: real, ops: seq<BucketOp>, capacity: real, rate: real)
    requires b.lastRefill <= from && Clocked(from, ops)
    ensures Granted(Some(b), ops, capacity, rate) + ApplyAll(Some(b), ops, capacity, rate).value.tokens
            + Spilt(b, ops, capacity, rate) == b.tokens + Poured(b, ops, capacity, rate)
    decreases |ops|
  {
    if ops != [] {
      OneOpExactly(b, ops[0], capacity, rate);
      hide Apply, GrantOf, PouredBy, SpiltBy;
      TokensAreConserved(Apply(Some(b), ops[0], capacity, rate), ops[0].now, ops[1..], capacity, rate);
    }
  }

  predicate NoReports(ops: seq<BucketOp>) { forall op :: op in ops ==> op.Ask? }

  lemma FlowAdds(rate: real, m: real, t0: real, t1: real, t2: real)
    ensures Flow(rate, m, t0, t1) + Flow(rate, m, t1, t2) == Flow(rate, m, t0, t2)
  {
    var r, x, y := rate * m, t1 - t0, t2 - t1;
    assert r * x + r * y == r * (x + y);
  }

  /** Without reports all the time up to the last acquire flows in at one rate. */
  lemma {:induction false} PouredIsFlow(b: Bucket, from: real, ops: seq<BucketOp>, capacity: real, rate: real)
    requires b.lastRefill <= from && Clocked(from, ops) && NoReports(ops)
    ensures var end := ApplyAll(Some(b), ops, capacity, rate).value;
      && end.multiplier == b.multiplier && end.lastRefill == (if ops == [] then b.lastRefill else EndTime(from, ops))
      && Poured(b, ops, capacity, rate) == Flow(rate, b.multiplier, b.lastRefill, end.lastRefill)
    decreases |ops|
  {
    if ops == [] {
      NoTimeNoFlow(rate, b.multiplier, b.lastRefill);
    } else {
      assert ops[0] in ops && forall op :: op in ops[1..] ==> op in ops;
      var b', now := Apply(Some(b), ops[0], capacity, rate), ops[0].now;
      OneOpExactly(b, ops[0], capacity, rate);
      hide Apply, Flow;
      PouredIsFlow(b', now, ops[1..], capacity, rate);
      FlowAdds(rate, b.multiplier, b.lastRefill, now, ApplyAll(Some(b'), ops[1..], capacity, rate).value.lastRefill);
    }
  }

  /** While no refill overflows the bucket, what is granted and left is exactly what was there and has flowed in. */
  lemma GrantsAreExact(b: Bucket, from: real, ops: seq<BucketOp>, capacity: real, rate: real)
    requires b.lastRefill <= from && Clocked(from, ops) && NoReports(ops) && Spilt(b, ops, capacity, rate) == 0.0
    ensures var end := ApplyAll(Some(b), ops, capacity, rate).value;
      Granted(Some(b), ops, capacity, rate) + end.tokens == b.tokens + Flow(rate, b.multiplier, b.lastRefill, end.lastRefill)
  {
    hide Flow;
    TokensAreConserved(b, from, ops, capacity, rate);
    PouredIsFlow(b, from, ops, capacity, rate);
  }

  /** So after such a run an acquire is granted exactly if what was there and has flowed in until now, less what was
      granted, covers it, or the capacity if that is less. */
  lemma GrantedIffCovered(b: Bucket, from: real, ops: seq<BucketOp>, capacity: real, rate: real, requested: real, now: real)
    requires b.lastRefill <= from && Clocked(from, ops) && NoReports(ops) && Spilt(b, ops, capacity, rate) == 0.0
    requires EndTime(from, ops) <= now
    ensures Grants(ApplyAll(Some(b), ops, capacity, rate), capacity, rate, requested, now)
       <==> && requested <= capacity
            && requested <= b.tokens + Flow(rate, b.multiplier, b.lastRefill, now) - Granted(Some(b), ops, capacity, rate)
  {
    var end := ApplyAll(Some(b), ops, capacity, rate).value;
    GrantsAreExact(b, from, ops, capacity, rate);
    PouredIsFlow(b, from, ops, capacity, rate);
    EndAfterStart(from, ops);
    FlowAdds(rate, b.multiplier, b.lastRefill, end.lastRefill, now);
    RefillIs(end, capacity, rate, now);
    hide Flow, ApplyAll, Granted, Spilt, Refilled, Clocked, EndTime;
  }

  lemma RefillIs(b: Bucket, capacity: real, rate: real, now: real)
    requires b.lastRefill <= now
    ensures var all := b.tokens + Flow(rate, b.multiplier, b.lastRefill, now);
      Refilled(b, capacity, rate, now) == Bucket(if all <= capacity then all else capacity, now, b.multiplier)
  {
    var flow, d := rate * b.multiplier, now - b.lastRefill;
    assert d * flow == flow * d;
  }

  /** n acquires of one token at one moment. */
  function Burst(now: real, n: nat): seq<BucketOp> { seq(n, _ => Ask(now, 1.0)) }

  lemma BurstTakes(b: Bucket, capacity: real, rate: real)
    requires 0.0 <= b.tokens <= capacity
    ensures Apply(Some(b), Ask(b.lastRefill, 1.0), capacity, rate)
         == b.(tokens := if b.tokens >= 1.0 then b.tokens - 1.0 else b.tokens)
  {
    RefillIs(b, capacity, rate, b.lastRefill);
    NoTimeNoFlow(rate, b.multiplier, b.lastRefill);
    hide Refilled, Flow;
  }

  /** What a burst of n leaves of so many tokens. */
  function LeftOf(tokens: real, n: nat): real {
    tokens - (if n <= tokens.Floor then n else tokens.Floor) as real
  }

  lemma LeftAfterOne(tokens: real, n: nat)
    requires tokens >= 0.0 && n > 0
    ensures LeftOf(if tokens >= 1.0 then tokens - 1.0 else tokens, n - 1) == LeftOf(tokens, n)
  {
    assert tokens >= 1.0 ==> (tokens - 1.0).Floor == tokens.Floor - 1;
  }

  /** A burst on a bucket refilled at that moment takes one token after the other, as long as one is left. */
  lemma {:induction false} BurstLeaves(b: Bucket, capacity: real, rate: real, n: nat)
    requires 0.0 <= b.tokens <= capacity
    ensures ApplyAll(Some(b), Burst(b.lastRefill, n), capacity, rate) == Some(b.(tokens := LeftOf(b.tokens, n)))
    decreases n
  {
    var ops := Burst(b.lastRefill, n);
    if n > 0 {
      assert ops[0] == Ask(b.lastRefill, 1.0) && ops[1..] == Burst(b.lastRefill, n - 1);
      hide LeftOf, Burst, Apply;
      BurstTakes(b, capacity, rate);
      LeftAfterOne(b.tokens, n);
      BurstLeaves(Apply(Some(b), ops[0], capacity, rate), capacity, rate, n - 1);
    }
  }

  /** Of any number of one-token acquires of a new bucket at one moment exactly the first floor(capacity) are
      granted. */
  lemma BurstIsGranted(capacity: real, rate: real, now: real, i: nat)
    requires capacity >= 0.0
    ensures Grants(ApplyAll(None, Burst(now, i), capacity, rate), capacity, rate, 1.0, now) <==> i < capacity.Floor
  {
    NewBucketIsFull(capacity, rate, now);
    var full := Bucket(capacity, now, 1.0);
    var b := full.(tokens := LeftOf(capacity, i));
    if i > 0 {
      var ops := Burst(now, i);
      assert Apply(None, ops[0], capacity, rate) == Apply(Some(full), ops[0], capacity, rate) by {
        NewBucketActs(capacity, rate, now);
      }
      BurstLeaves(full, capacity, rate, i);
      assert ApplyAll(None, ops, capacity, rate) == Some(b);
    }
    RefillIs(b, capacity, rate, now);
    NoTimeNoFlow(rate, 1.0, now);
    hide Refilled, Flow, ApplyAll, Burst;
  }

  lemma NewBucketActs(capacity: real, rate: real, now: real)
    ensures Apply(None, Ask(now, 1.0), capacity, rate) == Apply(Some(Bucket(capacity, now, 1.0)), Ask(now, 1.0), capacity, rate)
  {
  }

  // ------------------------------------------------------------------
  // The window bound
  // ------------------------------------------------------------------

  ghost predicate InRangeOpt(b: Option<Bucket>, capacity: real, from: real) {
    b.Some? ==> InRange(b.value, capacity) && b.value.lastRefill <= from
  }

  /** The first acquire of a window leaves no more than the capacity to it and what follows. */
  lemma FirstAsk(b: Option<Bucket>, op: BucketOp, capacity: real, rate: real)
    requires op.Ask? && InRangeOpt(b, capacity, op.now) && 0.0 <= capacity && 0.0 <= rate && op.requested >= 0.0
    ensures var b' := Apply(b, op, capacity, rate);
      InRange(b', capacity) && b'.lastRefill == op.now && GrantOf(b, op, capacity, rate) + b'.tokens <= capacity
  {
    if b.Some? {
      OneOp(b.value, op, capacity, rate);
    }
  }

  lemma ReportInRange(b: Option<Bucket>, op: BucketOp, capacity: real, rate: real)
    requires op.Report? && InRangeOpt(b, capacity, op.now) && 0.0 <= capacity
    ensures InRangeOpt(Some(Apply(b, op, capacity, rate)), capacity, op.now) && GrantOf(b, op, capacity, rate) == 0.0
  {
  }

  lemma FlowWithin(rate: real, m: real, from: real, to: real, t1: real, t2: real)
    requires 0.0 <= rate && 0.0 <= m <= 1.0 && t1 <= from <= to <= t2
    ensures Flow(rate, m, from, to) <= Flow(rate, 1.0, t1, t2)
  {
    MulMonotone(m, 1.0, rate);
    MulMonotone(rate * m, rate * 1.0, to - from);
    MulMonotone(to - from, t2 - t1, rate * 1.0);
  }

  /** In any stretch of operations inside [t1, t2], from any bucket state, at most the capacity and the full flow
      of that time are granted. */
  lemma {:induction false} StretchBound(b: Option<Bucket>, ops: seq<BucketOp>, capacity: real, rate: real, t1: real, t2: real)
    requires InRangeOpt(b, capacity, t1) && 0.0 <= capacity && 0.0 <= rate
    requires Clocked(t1, ops) && EndTime(t1, ops) <= t2
    ensures Granted(b, ops, capacity, rate) <= capacity + Flow(rate, 1.0, t1, t2)
    decreases |ops|
  {
    hide Apply, GrantOf, Flow;
    EndAfterStart(t1, ops);
    FlowNonNegative(rate, 1.0, t1, t2);
    if ops != [] {
      var op, now := ops[0], ops[0].now;
      var b' := Apply(b, op, capacity, rate);
      assert EndTime(now, ops[1..]) == EndTime(t1, ops);
      EndAfterStart(now, ops[1..]);
      if op.Report? {
        ReportInRange(b, op, capacity, rate);
        StretchBound(Some(b'), ops[1..], capacity, rate, now, t2);
        FlowWithin(rate, 1.0, now, t2, t1, t2);
      } else {
        FirstAsk(b, op, capacity, rate);
        GrantsArePaid(b', now, ops[1..], capacity, rate);
        FlowWithin(rate, b'.multiplier, now, EndTime(t1, ops), t1, t2);
      }
    }
  }

  lemma {:induction false} ClockedPart(from: real, ops: seq<BucketOp>, i: nat)
    requires Clocked(from, ops) && i <= |ops|
    ensures Clocked(from, ops[..i]) && Clocked(EndTime(from, ops[..i]), ops[i..])
    decreases |ops|
  {
    if i > 0 {
      ClockedPart(ops[0].now, ops[1..], i - 1);
      assert ops[..i][1..] == ops[1..][..i - 1] && ops[1..][i - 1..] == ops[i..];
      assert EndTime(from, ops[..i]) == EndTime(ops[0].now, ops[1..][..i - 1]);
    } else {
      assert ops[0..] == ops;
    }
  }

  lemma {:induction false} RunInRange(b: Option<Bucket>, from: real, ops: seq<BucketOp>, capacity: real, rate: real)
    requires InRangeOpt(b, capacity, from) && 0.0 <= capacity && 0.0 <= rate && Clocked(from, ops)
    ensures InRangeOpt(ApplyAll(b, ops, capacity, rate), capacity, EndTime(from, ops))
    decreases |ops|
  {
    if ops != [] {
      var b', now := Apply(b, ops[0], capacity, rate), ops[0].now;
      if ops[0].Ask? {
        FirstAsk(b, ops[0], capacity, rate);
      } else {
        ReportInRange(b, ops[0], capacity, rate);
      }
      RunInRange(Some(b'), now, ops[1..], capacity, rate);
      assert EndTime(now, ops[1..]) == EndTime(from, ops);
    }
  }

  lemma ClockedFromFirst(from: real, ops: seq<BucketOp>)
    requires Clocked(from, ops) && ops != []
    ensures from <= ops[0].now && Clocked(ops[0].now, ops)
  {
  }

  /** The window bound. In any run of a new bucket, with any 429 reports in between, tokens stay in [0, capacity],
      and the operations i..j grant at most capacity + rate * (the time between the first and the last). */
  lemma WindowBound(from: real, ops: seq<BucketOp>, capacity: real, rate: real, i: nat, j: nat)
    requires 0.0 <= capacity && 0.0 <= rate && Clocked(from, ops) && i < j <= |ops|
    ensures var b := ApplyAll(None, ops[..i], capacity, rate);
      && (b.Some? ==> 0.0 <= b.value.tokens <= capacity)
      && Granted(b, ops[i..j], capacity, rate) <= capacity + rate * (ops[j - 1].now - ops[i].now)
  {
    hide Apply, GrantOf, ApplyAll, Granted, Clocked;
    ClockedPart(from, ops, j);
    assert ops[..j][..i] == ops[..i] && ops[..j][i..] == ops[i..j];
    ClockedPart(from, ops[..j], i);
    ClockedFromFirst(EndTime(from, ops[..i]), ops[i..j]);
    RunInRange(None, from, ops[..i], capacity, rate);
    StretchBound(ApplyAll(None, ops[..i], capacity, rate), ops[i..j], capacity, rate, ops[i].now, ops[j - 1].now);
    assert rate * 1.0 == rate;
  }

  // ------------------------------------------------------------------
  // Adaptive slowdown
  // ------------------------------------------------------------------

  function Reports(ops: seq<BucketOp>): nat {
    if ops == [] then 0 else (if ops[0].Report? then 1 else 0) + Reports(ops[1..])
  }

  /** 2 ** -k */
  function Half(k: nat): real { if k == 0 then 1.0 else Half(k - 1) * 0.5 }

  function MultiplierAfter(k: nat): real { Max(0.1, Half(k)) }

  lemma {:induction false} MultiplierRun(b: Bucket, ops: seq<BucketOp>, capacity: real, rate: real, k: nat)
    requires b.multiplier == MultiplierAfter(k)
    ensures ApplyAll(Some(b), ops, capacity, rate).value.multiplier == MultiplierAfter(k + Reports(ops))
    decreases |ops|
  {
    if ops != [] {
      var b' := Apply(Some(b), ops[0], capacity, rate);
      var k' := if ops[0].Report? then k + 1 else k;
      assert Half(k + 1) == Half(k) * 0.5;
      assert b'.multiplier == MultiplierAfter(k');
      MultiplierRun(b', ops[1..], capacity, rate, k');
    }
  }

  /** After k reports the multiplier is max(0.1, 2 ** -k), whatever was acquired in between. */
  lemma MultiplierIsHalvedPerReport(ops: seq<BucketOp>, capacity: real, rate: real)
    requires ops != []
    ensures ApplyAll(None, ops, capacity, rate).value.multiplier == MultiplierAfter(Reports(ops))
  {
    var b := Apply(None, ops[0], capacity, rate);
    assert Half(1) == Half(0) * 0.5;
    MultiplierRun(b, ops[1..], capacity, rate, if ops[0].Report? then 1 else 0);
  }

  /** Slowdown: once a run has seen k reports, later operations up to time t are granted at most what the bucket
      holds plus the flow at rate * max(0.1, 2 ** -k) since its last refill. */
  lemma GrantsAfterReports(from: real, past: seq<BucketOp>, future: seq<BucketOp>, capacity: real, rate: real)
    requires 0.0 <= capacity && 0.0 <= rate && past != []
    requires Clocked(from, past) && Clocked(EndTime(from, past), future)
    ensures var b := ApplyAll(None, past, capacity, rate).value;
      Granted(Some(b), future, capacity, rate)
      <= b.tokens + Flow(rate, MultiplierAfter(Reports(past)), b.lastRefill, EndTime(EndTime(from, past), future))
  {
    hide Flow, ApplyAll, Granted, Clocked, EndTime, MultiplierAfter;
    var b := ApplyAll(None, past, capacity, rate).value;
    RunInRange(None, from, past, capacity, rate);
    MultiplierIsHalvedPerReport(past, capacity, rate);
    GrantsArePaid(b, EndTime(from, past), future, capacity, rate);
  }

  /** What one might expect of the slowdown: from now on no more than the tokens held plus the slowed flow from now. */
  ghost predicate PaidFromNow(b: Bucket, now: real, capacity: real, rate: real) {
    forall future :: Clocked(now, future) ==>
      Granted(Some(b), future, capacity, rate) <= b.tokens + Flow(rate, b.multiplier, now, EndTime(now, future))
  }

  /** From a full bucket on, grants are paid by the capacity and the flow at the multiplier it has. */
  lemma {:induction false} SlowStretch(b: Bucket, ops: seq<BucketOp>, capacity: real, rate: real, from: real)
    requires InRange(b, capacity) && 0.0 <= rate && b.lastRefill <= from && Clocked(from, ops)
    ensures Granted(Some(b), ops, capacity, rate) <= capacity + Flow(rate, b.multiplier, from, EndTime(from, ops))
    decreases |ops|
  {
    hide Apply, GrantOf, Flow;
    EndAfterStart(from, ops);
    FlowNonNegative(rate, b.multiplier, from, EndTime(from, ops));
    if ops != [] {
      var op, now := ops[0], ops[0].now;
      var b' := Apply(Some(b), op, capacity, rate);
      assert EndTime(now, ops[1..]) == EndTime(from, ops);
      EndAfterStart(now, ops[1..]);
      OneOp(b, op, capacity, rate);
      FlowSplits(rate, b.multiplier, b'.multiplier, from, now, EndTime(from, ops));
      FlowNonNegative(rate, b.multiplier, from, now);
      if op.Report? {
        ReportInRange(Some(b), op, capacity, rate);
        SlowStretch(b', ops[1..], capacity, rate, now);
      } else {
        FirstAsk(Some(b), op, capacity, rate);
        GrantsArePaid(b', now, ops[1..], capacity, rate);
      }
    }
  }

  /** An ask for all there is, at this moment. */
  lemma AskForAll(b: Bucket, capacity: real, rate: real, now: real)
    requires InRange(b, capacity) && 0.0 < rate && b.lastRefill < now && b.tokens < capacity
    ensures !PaidFromNow(b, now, capacity, rate)
  {
    var x := Refilled(b, capacity, rate, now).tokens;
    RefillAdds(b, capacity, rate, now);
    AllIsGranted(b, capacity, rate, now);
    NoTimeNoFlow(rate, b.multiplier, now);
    hide Granted, Refilled, Flow;
    var future := [Ask(now, x)];
    assert future[1..] == [] && Clocked(now, []);
    assert Clocked(now, future) && EndTime(now, future) == now;
  }

  lemma RefillAdds(b: Bucket, capacity: real, rate: real, now: real)
    requires InRange(b, capacity) && 0.0 < rate && b.lastRefill < now && b.tokens < capacity
    ensures b.tokens < Refilled(b, capacity, rate, now).tokens
  {
    PositiveFlow(rate, b.multiplier, now - b.lastRefill);
  }

  lemma AllIsGranted(b: Bucket, capacity: real, rate: real, now: real)
    ensures var x := Refilled(b, capacity, rate, now).tokens;
      Granted(Some(b), [Ask(now, x)], capacity, rate) == x
  {
    hide Refilled, Apply;
    assert [Ask(now, Refilled(b, capacity, rate, now).tokens)][1..] == [];
  }

  lemma NoTimeNoFlow(rate: real, m: real, now: real)
    ensures Flow(rate, m, now, now) == 0.0
  {
    assert now - now == 0.0;
  }

  lemma PositiveFlow(rate: real, m: real, d: real)
    requires rate > 0.0 && m > 0.0 && d > 0.0
    ensures d * (rate * m) > 0.0
  {
    assert rate * m > 0.0;
  }

  lemma NoFlow(m: real, from: real, to: real)
    ensures Flow(0.0, m, from, to) == 0.0
  {
  }

  lemma PaidFromNowIff(b: Bucket, capacity: real, rate: real, now: real)
    requires InRange(b, capacity) && 0.0 <= rate && b.lastRefill <= now
    ensures PaidFromNow(b, now, capacity, rate) <==> b.lastRefill == now || b.tokens == capacity || rate == 0.0
  {
    if b.lastRefill == now || b.tokens == capacity || rate == 0.0 {
      forall future | Clocked(now, future)
        ensures Granted(Some(b), future, capacity, rate) <= b.tokens + Flow(rate, b.multiplier, now, EndTime(now, future))
      {
        hide Flow;
        SlowStretch(b, future, capacity, rate, now);
        GrantsArePaid(b, now, future, capacity, rate);
        if rate == 0.0 {
          NoFlow(b.multiplier, b.lastRefill, EndTime(now, future));
          NoFlow(b.multiplier, now, EndTime(now, future));
        }
      }
    } else {
      AskForAll(b, capacity, rate, now);
    }
  }

  /** Once k reports have been seen, counting the flow at rate * max(0.1, 2 ** -k) from that moment on holds of every
      future if and only if the bucket was refilled at that very moment, or is full, or never refills: it is refilled
      lazily, so an earlier last refill lets more flow in. */
  lemma SlowdownCountsFromNowIff(from: real, past: seq<BucketOp>, capacity: real, rate: real)
    requires 0.0 <= capacity && 0.0 <= rate && past != [] && Clocked(from, past)
    ensures var b, now := ApplyAll(None, past, capacity, rate).value, EndTime(from, past);
      && b.multiplier == MultiplierAfter(Reports(past))
      && (PaidFromNow(b, now, capacity, rate) <==> b.lastRefill == now || b.tokens == capacity || rate == 0.0)
  {
    hide ApplyAll, PaidFromNow;
    RunInRange(None, from, past, capacity, rate);
    MultiplierIsHalvedPerReport(past, capacity, rate);
    PaidFromNowIff(ApplyAll(None, past, capacity, rate).value, capacity, rate, EndTime(from, past));
  }

  /** Ten tokens are taken at 0 and the slowdown comes at 1, when the bucket holds none by its last count; five more
      are granted at that same moment. */
  lemma SlowdownComesLate()
    ensures var b := ApplyAll(None, [Ask(0.0, 10.0), Report(1.0)], 10.0, 10.0).value;
      && b.tokens == 0.0 && b.multiplier == 0.5
      && Granted(Some(b), [Ask(1.0, 5.0)], 10.0, 10.0) == 5.0
  {
    var first, second, third := Ask(0.0, 10.0), Report(1.0), Ask(1.0, 5.0);
    assert [first, second][1..] == [second] && [second][1..] == [] && [third][1..] == [];
    var b1 := Bucket(0.0, 0.0, 1.0);
    assert Apply(None, first, 10.0, 10.0) == b1;
    assert Apply(Some(b1), second, 10.0, 10.0) == Bucket(0.0, 0.0, 0.5);
    assert ApplyAll(None, [first, second], 10.0, 10.0) == ApplyAll(Some(b1), [second], 10.0, 10.0);
    assert GrantOf(Some(Bucket(0.0, 0.0, 0.5)), third, 10.0, 10.0) == 5.0;
  }
}
