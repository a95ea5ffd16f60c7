/** The Redis form of the token bucket. Its keys expire; for keys never hit by a 429 report nobody can tell. */
module KeyExpiry {
  import opened TaskQueue
  import opened TokenBucket

  /** The hash behind a key. A 429 report on a missing key writes the multiplier alone. */
  datatype Hash = Hash(bucket: Option<(real, real)>, multiplier: Option<real>, expireAt: Option<real>)

  function Ceil(x: real): int { -((-x).Floor) }

  /** What Redis finds under the key at `now`. */
  function Live(h: Option<Hash>, now: real): Option<Hash> {
    if h.Some? && h.value.expireAt.Some? && h.value.expireAt.value <= now then None else h
  }

  function MultiplierOf(h: Option<Hash>): real {
    if h.Some? && h.value.multiplier.Some? then h.value.multiplier.value else 1.0
  }

  function EffectiveRate(rate: real, multiplier: real): real { rate * multiplier }

  predicate HasTokens(h: Option<Hash>) { h.Some? && h.value.bucket.Some? }

  /** The tokens the script counts at `now`, refilled. */
  function ScriptTokens(h: Option<Hash>, capacity: real, rate: real, now: real): real {
    var live := Live(h, now);
    var tokens := if HasTokens(live) then live.value.bucket.value.0 else capacity;
    var last := if HasTokens(live) then live.value.bucket.value.1 else now;
    Min(capacity, tokens + Max(0.0, now - last) * EffectiveRate(rate, MultiplierOf(live)))
  }

  predicate ScriptGrants(h: Option<Hash>, capacity: real, rate: real, requested: real, now: real) {
    ScriptTokens(h, capacity, rate, now) >= requested
  }

  /** Time to live set by a grant. */
  function Lifetime(capacity: real, effective: real): real
    requires effective != 0.0
  {
    (2 * Ceil(capacity / effective)) as real
  }

  /** The hash the script leaves; only a grant sets the time to live, 2 * ceil(capacity / effective rate). */
  function AfterScript(h: Option<Hash>, capacity: real, rate: real, requested: real, now: real): Hash
    requires EffectiveRate(rate, MultiplierOf(Live(h, now))) != 0.0
  {
    var live := Live(h, now);
    var tokens := ScriptTokens(h, capacity, rate, now);
    var m := MultiplierOf(live);
    if tokens >= requested then
      Hash(Some((tokens - requested, now)), Some(m), Some(now + Lifetime(capacity, EffectiveRate(rate, m))))
    else
      Hash(Some((tokens, now)), Some(m), if live.Some? then live.value.expireAt else None)
  }

  /** `report_429` on the Redis backend. */
  function AfterReport(h: Option<Hash>, now: real): Hash {
    var live := Live(h, now);
    var m := Some(Max(0.1, MultiplierOf(live) * 0.5));
    if live.Some? then live.value.(multiplier := m) else Hash(None, m, None)
  }

  /** What is stored under the key at this moment: nothing if it has expired. */
  function Stored(h: Option<Hash>, now: real): Hash {
    if h.Some? && !(h.value.expireAt.Some? && h.value.expireAt.value <= now) then h.value else Hash(None, None, None)
  }

  function FactorIn(was: Hash): real { if was.multiplier.Some? then was.multiplier.value else 1.0 }

  /** The tokens in a stored hash at this moment: full if it has none, else refilled up to the capacity. */
  function TokensIn(was: Hash, capacity: real, effective: real, now: real): real {
    var held := if was.bucket.Some? then was.bucket.value else (capacity, now);
    var all := held.0 + (if now >= held.1 then now - held.1 else 0.0) * effective;
    if all <= capacity then all else capacity
  }

  /** What the script is to do when it finds this hash, with this rate: grant if the tokens cover the request, write tokens, moment
      and multiplier, and on a grant let the key live for twice the whole seconds that fill an empty bucket. */
  ghost predicate Served(was: Hash, capacity: real, effective: real, requested: real, now: real, ok: bool, after: Hash) {
    var held := TokensIn(was, capacity, effective, now);
    && effective != 0.0
    && (ok <==> held >= requested)
    && after.bucket == Some((if ok then held - requested else held, now))
    && after.multiplier == Some(FactorIn(was))
    && (!ok ==> after.expireAt == was.expireAt)
    && (ok ==> after.expireAt.Some? && LivesTwice(after.expireAt.value - now, capacity / effective))
  }

  lemma TokensAre(h: Option<Hash>, capacity: real, rate: real, now: real)
    ensures EffectiveRate(rate, MultiplierOf(Live(h, now))) == rate * FactorIn(Stored(h, now))
    ensures ScriptTokens(h, capacity, rate, now) == TokensIn(Stored(h, now), capacity, rate * FactorIn(Stored(h, now)), now)
  {
    var effective := rate * FactorIn(Stored(h, now));
    assert EffectiveRate(rate, MultiplierOf(Live(h, now))) == effective;
    hide EffectiveRate;
    if !HasTokens(Live(h, now)) {
      assert now - now == 0.0;
    }
  }

  lemma ScriptServes(h: Option<Hash>, capacity: real, rate: real, requested: real, now: real)
    requires EffectiveRate(rate, MultiplierOf(Live(h, now))) != 0.0
    ensures Served(Stored(h, now), capacity, rate * FactorIn(Stored(h, now)), requested, now,
                   ScriptGrants(h, capacity, rate, requested, now), AfterScript(h, capacity, rate, requested, now))
  {
    var was, m := Stored(h, now), MultiplierOf(Live(h, now));
    var effective := EffectiveRate(rate, m);
    var held, ttl := ScriptTokens(h, capacity, rate, now), Lifetime(capacity, effective);
    TokensAre(h, capacity, rate, now);
    LifetimeIs(capacity, effective);
    assert m == FactorIn(was) && now + ttl - now == ttl;
    hide Lifetime, LivesTwice, EffectiveRate, ScriptTokens, TokensIn, FactorIn;
    assert Served(was, capacity, effective, requested, now, held >= requested, AfterScript(h, capacity, rate, requested, now));
  }

  /** The time to live is twice the number of seconds, rounded up. */
  ghost predicate LivesTwice(ttl: real, seconds: real) {
    var whole := (ttl / 2.0).Floor;
    ttl == (2 * whole) as real && (whole - 1) as real < seconds <= whole as real
  }

  lemma LifetimeIs(capacity: real, effective: real)
    requires effective != 0.0
    ensures LivesTwice(Lifetime(capacity, effective), capacity / effective)
  {
    var whole := Ceil(capacity / effective);
    assert Lifetime(capacity, effective) / 2.0 == whole as real;
  }

  /** The hashes of one Redis, updated by the script and by reports. */
  class RedisBuckets {
    var hashes: map<string, Hash>

    constructor ()
      ensures hashes == map[]
    {
      hashes := map[];
    }

    ghost function At(key: string): Option<Hash>
      reads this
    {
      if key in hashes then Some(hashes[key]) else None
    }

    /** Expiry is lazy: a key past its time is dropped when it is touched. */
    method Touch(key: string, now: real)
      modifies this
      ensures At(key) == Live(old(At(key)), now)
      ensures forall k :: k != key ==> At(k) == old(At(k))
    {
      if key in hashes && hashes[key].expireAt.Some? && hashes[key].expireAt.value <= now {
        hashes := hashes - {key};
      }
    }

    /** The HMGET at the head of the script, with the script's defaults. */
    method Load(key: string, capacity: real, now: real)
      returns (tokens: real, last: real, multiplier: real, expireAt: Option<real>)
      modifies this
      ensures At(key) == Live(old(At(key)), now)
      ensures forall k :: k != key ==> At(k) == old(At(k))
      ensures tokens == (if HasTokens(At(key)) then At(key).value.bucket.value.0 else capacity)
      ensures last == (if HasTokens(At(key)) then At(key).value.bucket.value.1 else now)
      ensures multiplier == MultiplierOf(At(key))
      ensures expireAt == (if At(key).Some? then At(key).value.expireAt else None)
    {
      Touch(key, now);
      tokens, last, multiplier, expireAt := capacity, now, 1.0, None;
      if key in hashes {
        var h := hashes[key];
        if h.bucket.Some? {
          tokens, last := h.bucket.value.0, h.bucket.value.1;
        }
        if h.multiplier.Some? {
          multiplier := h.multiplier.value;
        }
        expireAt := h.expireAt;
      }
    }

    /** EVALSHA of the token bucket script. Rates are positive, or the script would divide by zero. */
    method Eval(key: string, capacity: real, rate: real, requested: real, now: real) returns (ok: bool)
      requires EffectiveRate(rate, MultiplierOf(Live(At(key), now))) != 0.0
      modifies this
      ensures ok == ScriptGrants(old(At(key)), capacity, rate, requested, now)
      ensures At(key) == Some(AfterScript(old(At(key)), capacity, rate, requested, now))
      ensures forall k :: k != key ==> At(k) == old(At(k))
      ensures key in hashes && (
        var was := Stored(old(At(key)), now);
        Served(was, capacity, rate * FactorIn(was), requested, now, ok, hashes[key]))
    {
      ScriptServes(At(key), capacity, rate, requested, now);
      hide Lifetime, EffectiveRate, Served;
      ghost var h := At(key);
      var tokens, last, multiplier, expireAt := Load(key, capacity, now);
      var effective := EffectiveRate(rate, multiplier);
      tokens := Min(capacity, tokens + Max(0.0, now - last) * effective);
      assert tokens == ScriptTokens(h, capacity, rate, now);
      ok := tokens >= requested;
      Store(key, capacity, effective, tokens, requested, multiplier, now, expireAt);
    }

    /** The HMSET, and after a grant the EXPIRE, at the end of the script. */
    method Store(key: string, capacity: real, effective: real, tokens: real, requested: real,
                 multiplier: real, now: real, expireAt: Option<real>)
      requires effective != 0.0
      modifies this
      ensures At(key) == Some(if tokens >= requested
        then Hash(Some((tokens - requested, now)), Some(multiplier),
                  Some(now + Lifetime(capacity, effective)))
        else Hash(Some((tokens, now)), Some(multiplier), expireAt))
      ensures forall k :: k != key ==> At(k) == old(At(k))
    {
      if tokens >= requested {
        hashes := hashes[key := Hash(Some((tokens - requested, now)), Some(multiplier),
                                     Some(now + Lifetime(capacity, effective)))];
      } else {
        hashes := hashes[key := Hash(Some((tokens, now)), Some(multiplier), expireAt)];
      }
    }

    /** `report_429` on this backend: HMGET, then HSET of the multiplier alone. */
    method Report429(key: string, now: real)
      modifies this
      ensures At(key) == Some(AfterReport(old(At(key)), now))
      ensures forall k :: k != key ==> At(k) == old(At(k))
      ensures
        var was := Stored(old(At(key)), now);
        var half := FactorIn(was) * 0.5;
        key in hashes && hashes[key] == Hash(was.bucket, Some(if half >= 0.1 then half else 0.1), was.expireAt)
    {
      Touch(key, now);
      var h := if key in hashes then hashes[key] else Hash(None, None, None);
      var multiplier := if h.multiplier.Some? then h.multiplier.value else 1.0;
      hashes := hashes[key := h.(multiplier := Some(Max(0.1, multiplier * 0.5)))];
    }
  }

  // ------------------------------------------------------------------
  // Traces
  // ------------------------------------------------------------------

  predicate InTime(from: real, ops: seq<BucketOp>)
    decreases |ops|
  {
    ops == [] || (from <= ops[0].now && InTime(ops[0].now, ops[1..]))
  }

  /** The answers to the asks of a trace. */
  function LocalAnswers(b: Option<Bucket>, ops: seq<BucketOp>, capacity: real, rate: real): seq<bool>
    decreases |ops|
  {
    if ops == [] then [] else
    (if ops[0].Ask? then [Grants(b, capacity, rate, ops[0].requested, ops[0].now)] else [])
    + LocalAnswers(Some(Apply(b, ops[0], capacity, rate)), ops[1..], capacity, rate)
  }

  lemma RatePositive(rate: real, m: real)
    requires rate > 0.0 && m > 0.0
    ensures EffectiveRate(rate, m) > 0.0
  {
  }

  predicate Slow(h: Option<Hash>) { MultiplierOf(h) >= 0.1 }

  function RedisAfter(h: Option<Hash>, op: BucketOp, capacity: real, rate: real): (h': Hash)
    requires rate > 0.0 && Slow(h)
    ensures Slow(Some(h'))
  {
    match op
    case Ask(now, requested) =>
      RatePositive(rate, MultiplierOf(Live(h, now)));
      AfterScript(h, capacity, rate, requested, now)
    case Report(now) => AfterReport(h, now)
  }

  function RedisAnswers(h: Option<Hash>, ops: seq<BucketOp>, capacity: real, rate: real): seq<bool>
    requires rate > 0.0 && Slow(h)
    decreases |ops|
  {
    if ops == [] then [] else
    (if ops[0].Ask? then [ScriptGrants(h, capacity, rate, ops[0].requested, ops[0].now)] else [])
    + RedisAnswers(Some(RedisAfter(h, ops[0], capacity, rate)), ops[1..], capacity, rate)
  }

  /** What a bucket that held `tokens` at `last` would hold at `to` if it had no capacity. */
  function Grown(tokens: real, rate: real, last: real, to: real): real { tokens + rate * (to - last) }

  /** The bucket is full at this moment when refilled with this multiplier. */
  predicate IsFull(b: Bucket, capacity: real, rate: real, multiplier: real, now: real) {
    Grown(b.tokens, EffectiveRate(rate, multiplier), b.lastRefill, now) >= capacity
  }

  /** Both sides agree: on nothing; or on multiplier and tokens, and a key at full rate is not allowed to expire
      before it would be full even at half the rate; or Redis has no tokens, which it takes for full, and the
      bucket is full. */
  predicate Matches(h: Option<Hash>, b: Option<Bucket>, capacity: real, rate: real, clock: real) {
    if h.None? then b.None?
    else
      && b.Some? && h.value.multiplier == Some(b.value.multiplier) && 0.1 <= b.value.multiplier <= 1.0
      && 0.0 <= b.value.tokens && b.value.lastRefill <= clock
      && match h.value.bucket
         case Some(tokens) =>
           && tokens == (b.value.tokens, b.value.lastRefill)
           && (h.value.expireAt.Some? && b.value.multiplier == 1.0 ==>
                IsFull(b.value, capacity, rate, 0.5, h.value.expireAt.value))
         case None => h.value.expireAt.None? && IsFull(b.value, capacity, rate, b.value.multiplier, clock)
  }

  function Halved(m: real): real { Max(0.1, m * 0.5) }

  predicate Expired(h: Option<Hash>, now: real) { h.Some? && Live(h, now).None? }

  /** An operation the two backends cannot disagree on. An ask must not find the key expired with a slowdown; a
      report must find the key's tokens, or a bucket that is full even at the rate it slows it down to, and must not
      find the key expired with a slowdown either. */
  predicate Harmless(h: Option<Hash>, b: Option<Bucket>, op: BucketOp, capacity: real, rate: real) {
    && (Expired(h, op.now) ==> MultiplierOf(h) == 1.0)
    && (op.Report? ==>
         HasTokens(Live(h, op.now))
         || (b.Some? && IsFull(b.value, capacity, rate, Halved(b.value.multiplier), op.now)))
  }

  predicate HarmlessTrace(h: Option<Hash>, b: Option<Bucket>, ops: seq<BucketOp>, capacity: real, rate: real)
    requires rate > 0.0 && Slow(h)
    decreases |ops|
  {
    ops == []
    || (Harmless(h, b, ops[0], capacity, rate)
        && HarmlessTrace(Some(RedisAfter(h, ops[0], capacity, rate)), Some(Apply(b, ops[0], capacity, rate)),
                         ops[1..], capacity, rate))
  }

  /** The operations of the trace from number k on are harmless, whatever those before are. */
  predicate HarmlessFrom(h: Option<Hash>, b: Option<Bucket>, ops: seq<BucketOp>, k: nat, capacity: real, rate: real)
    requires rate > 0.0 && Slow(h) && k <= |ops|
    decreases k
  {
    if k == 0 then HarmlessTrace(h, b, ops, capacity, rate)
    else HarmlessFrom(Some(RedisAfter(h, ops[0], capacity, rate)), Some(Apply(b, ops[0], capacity, rate)),
                      ops[1..], k - 1, capacity, rate)
  }

  predicate OnlyAsks(ops: seq<BucketOp>) { forall op :: op in ops ==> op.Ask? }

  // ------------------------------------------------------------------
  // Refilling
  // ------------------------------------------------------------------

  lemma CeilAbove(x: real)
    ensures Ceil(x) as real >= x
  {
  }

  /** Half the rate fills an empty bucket in its lifetime. */
  lemma LifetimeFills(capacity: real, rate: real)
    requires rate > 0.0 && capacity >= 0.0
    ensures EffectiveRate(rate, 0.5) * Lifetime(capacity, rate) >= capacity
  {
    var c := Ceil(capacity / rate) as real;
    CeilAbove(capacity / rate);
    MulMonotone(capacity / rate, c, rate);
    assert capacity / rate * rate == capacity;
    assert rate * 0.5 * (2.0 * c) == c * rate;
    assert Lifetime(capacity, rate) == 2.0 * c;
  }

  lemma RefilledIs(b: Bucket, capacity: real, rate: real, now: real)
    requires b.lastRefill <= now
    ensures Refilled(b, capacity, rate, now)
         == b.(tokens := Min(capacity, Grown(b.tokens, EffectiveRate(rate, b.multiplier), b.lastRefill, now)), lastRefill := now)
  {
    var r, d := rate * b.multiplier, now - b.lastRefill;
    assert d * r == r * d;
  }

  lemma NewBucket(capacity: real, rate: real, now: real)
    ensures Refilled(Bucket(capacity, now, 1.0), capacity, rate, now) == Bucket(capacity, now, 1.0)
  {
    assert now - now == 0.0;
  }

  lemma ScriptTokensAre(h: Option<Hash>, capacity: real, rate: real, now: real)
    requires HasTokens(Live(h, now)) ==> Live(h, now).value.bucket.value.1 <= now
    ensures ScriptTokens(h, capacity, rate, now)
         == if HasTokens(Live(h, now)) then
              Min(capacity, Grown(h.value.bucket.value.0, EffectiveRate(rate, MultiplierOf(h)), h.value.bucket.value.1, now))
            else capacity
  {
    var live := Live(h, now);
    var last := if HasTokens(live) then live.value.bucket.value.1 else now;
    var r, d := EffectiveRate(rate, MultiplierOf(live)), now - last;
    hide EffectiveRate;
    assert d * r == r * d;
    assert now - now == 0.0 && 0.0 * r == 0.0;
  }

  lemma GrownGrows(tokens: real, r: real, last: real, t: real, t': real)
    requires r >= 0.0 && t <= t'
    ensures Grown(tokens, r, last, t) <= Grown(tokens, r, last, t')
  {
    var d, d' := t - last, t' - last;
    MulMonotone(d, d', r);
    assert Grown(tokens, r, last, t) == tokens + r * d && Grown(tokens, r, last, t') == tokens + r * d';
  }

  lemma GrownNonNegative(tokens: real, r: real, last: real, now: real)
    requires r >= 0.0 && last <= now && tokens >= 0.0
    ensures Grown(tokens, r, last, now) >= 0.0
  {
    var d := now - last;
    MulNonNegative(r, d);
    assert Grown(tokens, r, last, now) == tokens + r * d;
  }

  /** Full at half the rate at some moment, full at the whole rate from then on. */
  lemma FullLater(b: Bucket, capacity: real, rate: real, e: real, now: real)
    requires rate > 0.0 && b.lastRefill <= now && e <= now && b.tokens >= 0.0 && IsFull(b, capacity, rate, 0.5, e)
    ensures IsFull(b, capacity, rate, 1.0, now) && IsFull(b, capacity, rate, 0.5, now)
  {
    GrownGrows(b.tokens, EffectiveRate(rate, 0.5), b.lastRefill, e, now);
    var d, half, whole := now - b.lastRefill, EffectiveRate(rate, 0.5), EffectiveRate(rate, 1.0);
    MulMonotone(half, whole, d);
    assert Grown(b.tokens, half, b.lastRefill, now) == b.tokens + half * d;
    assert Grown(b.tokens, whole, b.lastRefill, now) == b.tokens + whole * d;
  }

  lemma StaysFull(b: Bucket, capacity: real, rate: real, m: real, clock: real, now: real)
    requires rate > 0.0 && m > 0.0 && clock <= now && IsFull(b, capacity, rate, m, clock)
    ensures IsFull(b, capacity, rate, m, now)
  {
    RatePositive(rate, m);
    GrownGrows(b.tokens, EffectiveRate(rate, m), b.lastRefill, clock, now);
  }

  lemma FullAfterGrant(left: real, capacity: real, rate: real, now: real)
    requires rate > 0.0 && capacity >= 0.0 && left >= 0.0
    ensures IsFull(Bucket(left, now, 1.0), capacity, rate, 0.5, now + Lifetime(capacity, EffectiveRate(rate, 1.0)))
  {
    assert EffectiveRate(rate, 1.0) == rate;
    LifetimeFills(capacity, rate);
    var ttl := Lifetime(capacity, rate);
    assert now + ttl - now == ttl;
    var half := EffectiveRate(rate, 0.5);
    assert Grown(left, half, now, now + ttl) == left + half * ttl;
  }

  lemma FullAfterRefusal(b: Bucket, capacity: real, rate: real, now: real, e: real)
    requires rate > 0.0 && b.lastRefill <= now <= e && IsFull(b, capacity, rate, 0.5, e)
    ensures IsFull(Bucket(Min(capacity, Grown(b.tokens, EffectiveRate(rate, 1.0), b.lastRefill, now)), now, 1.0),
                   capacity, rate, 0.5, e)
  {
    var half, d, rest := EffectiveRate(rate, 0.5), now - b.lastRefill, e - now;
    var g := Grown(b.tokens, EffectiveRate(rate, 1.0), b.lastRefill, now);
    MulNonNegative(half, rest);
    MulMonotone(half, EffectiveRate(rate, 1.0), d);
    hide EffectiveRate;
    assert g >= b.tokens + half * d;
    assert half * d + half * rest == half * (e - b.lastRefill);
    assert b.tokens + half * (e - b.lastRefill) >= capacity;
    var left := Min(capacity, g);
    assert left + half * rest >= capacity;
    assert Grown(left, half, now, e) == left + half * rest;
  }

  // ------------------------------------------------------------------
  // Harmless operations keep the two in step
  // ------------------------------------------------------------------

  /** Both sides count the same tokens. */
  lemma SameTokens(h: Option<Hash>, b: Option<Bucket>, capacity: real, rate: real, clock: real, now: real)
    requires rate > 0.0 && capacity >= 0.0 && Matches(h, b, capacity, rate, clock) && clock <= now
    requires Expired(h, now) ==> MultiplierOf(h) == 1.0
    ensures var r := Refilled(Opened(b, capacity, now), capacity, rate, now);
      && ScriptTokens(h, capacity, rate, now) == r.tokens
      && MultiplierOf(Live(h, now)) == r.multiplier && r.lastRefill == now && 0.0 <= r.tokens <= capacity
    ensures HasTokens(Live(h, now)) ==>
      ScriptTokens(h, capacity, rate, now)
      == Min(capacity, Grown(b.value.tokens, EffectiveRate(rate, b.value.multiplier), b.value.lastRefill, now))
  {
    hide Grown, ScriptTokens, Refilled, EffectiveRate;
    ScriptTokensAre(h, capacity, rate, now);
    if h.None? {
      NewBucket(capacity, rate, now);
    } else {
      var m := b.value.multiplier;
      RefilledIs(b.value, capacity, rate, now);
      RatePositive(rate, m);
      GrownNonNegative(b.value.tokens, EffectiveRate(rate, m), b.value.lastRefill, now);
      if Expired(h, now) {
        if h.value.bucket.Some? {
          FullLater(b.value, capacity, rate, h.value.expireAt.value, now);
        }
      } else if h.value.bucket.None? {
        StaysFull(b.value, capacity, rate, m, clock, now);
      }
    }
  }

  lemma AskMatches(h: Option<Hash>, b: Option<Bucket>, capacity: real, rate: real, clock: real, op: BucketOp)
    requires rate > 0.0 && capacity >= 0.0 && Matches(h, b, capacity, rate, clock) && clock <= op.now && op.Ask?
    requires Harmless(h, b, op, capacity, rate) && Slow(h)
    ensures ScriptGrants(h, capacity, rate, op.requested, op.now) == Grants(b, capacity, rate, op.requested, op.now)
    ensures Matches(Some(RedisAfter(h, op, capacity, rate)), Some(Apply(b, op, capacity, rate)), capacity, rate, op.now)
  {
    var now := op.now;
    RatePositive(rate, MultiplierOf(Live(h, now)));
    SameTokens(h, b, capacity, rate, clock, now);
    hide ScriptTokens, Lifetime, Grown, Refilled, EffectiveRate;
    var tokens, m := ScriptTokens(h, capacity, rate, now), MultiplierOf(Live(h, now));
    if tokens >= op.requested {
      if m == 1.0 {
        FullAfterGrant(tokens - op.requested, capacity, rate, now);
      }
    } else if HasTokens(Live(h, now)) && h.value.expireAt.Some? && m == 1.0 {
      FullAfterRefusal(b.value, capacity, rate, now, h.value.expireAt.value);
    }
  }

  lemma ReportMatches(h: Option<Hash>, b: Option<Bucket>, capacity: real, rate: real, clock: real, op: BucketOp)
    requires rate > 0.0 && Matches(h, b, capacity, rate, clock) && clock <= op.now && op.Report?
    requires Harmless(h, b, op, capacity, rate) && Slow(h)
    ensures Matches(Some(RedisAfter(h, op, capacity, rate)), Some(Apply(b, op, capacity, rate)), capacity, rate, op.now)
  {
    hide Grown, EffectiveRate;
  }

  lemma {:induction false} SameAnswers(h: Option<Hash>, b: Option<Bucket>, ops: seq<BucketOp>, capacity: real, rate: real, clock: real)
    requires rate > 0.0 && capacity >= 0.0 && Matches(h, b, capacity, rate, clock) && InTime(clock, ops) && Slow(h)
    requires HarmlessTrace(h, b, ops, capacity, rate)
    ensures RedisAnswers(h, ops, capacity, rate) == LocalAnswers(b, ops, capacity, rate)
    decreases |ops|
  {
    if ops != [] {
      hide RedisAfter, Apply, ScriptGrants, Grants, Matches, Harmless;
      if ops[0].Ask? {
        AskMatches(h, b, capacity, rate, clock, ops[0]);
      } else {
        ReportMatches(h, b, capacity, rate, clock, ops[0]);
      }
      SameAnswers(Some(RedisAfter(h, ops[0], capacity, rate)), Some(Apply(b, ops[0], capacity, rate)),
                  ops[1..], capacity, rate, ops[0].now);
    }
  }

  lemma {:induction false} UnreportedHarmless(h: Option<Hash>, b: Option<Bucket>, ops: seq<BucketOp>, capacity: real, rate: real)
    requires rate > 0.0 && MultiplierOf(h) == 1.0 && OnlyAsks(ops)
    ensures HarmlessTrace(h, b, ops, capacity, rate)
    decreases |ops|
  {
    if ops != [] {
      hide ScriptTokens, Lifetime, EffectiveRate, Apply;
      assert ops[0] in ops && forall op :: op in ops[1..] ==> op in ops;
      var h' := RedisAfter(h, ops[0], capacity, rate);
      assert MultiplierOf(Some(h')) == 1.0 by {
        RatePositive(rate, MultiplierOf(Live(h, ops[0].now)));
      }
      UnreportedHarmless(Some(h'), Some(Apply(b, ops[0], capacity, rate)), ops[1..], capacity, rate);
    }
  }

  /** On every trace of acquires of a fresh key the script, whose keys expire, and the in-process bucket, whose
      keys never do, grant and refuse alike. */
  lemma ExpiryIsInvisible(ops: seq<BucketOp>, capacity: real, rate: real, from: real)
    requires rate > 0.0 && capacity >= 0.0 && InTime(from, ops) && OnlyAsks(ops)
    ensures RedisAnswers(None, ops, capacity, rate) == LocalAnswers(None, ops, capacity, rate)
  {
    UnreportedHarmless(None, None, ops, capacity, rate);
    SameAnswers(None, None, ops, capacity, rate, from);
  }

  // ------------------------------------------------------------------
  // Any other operation can be told
  // ------------------------------------------------------------------

  /** Two buckets just refilled, the one in Redis live: a difference in tokens shows at once. */
  lemma TokensTell(h: Hash, b: Bucket, capacity: real, rate: real, now: real) returns (asks: seq<BucketOp>)
    requires rate > 0.0 && Slow(Some(h)) && b.lastRefill <= now && Live(Some(h), now) == Some(h)
    requires h.bucket.Some? ==> h.bucket.value.1 <= now
    requires ScriptTokens(Some(h), capacity, rate, now) > Refilled(b, capacity, rate, now).tokens
    ensures InTime(now, asks) && OnlyAsks(asks) && HarmlessTrace(Some(h), Some(b), asks, capacity, rate)
    ensures RedisAnswers(Some(h), asks, capacity, rate) != LocalAnswers(Some(b), asks, capacity, rate)
  {
    var ask := Ask(now, ScriptTokens(Some(h), capacity, rate, now));
    asks := [ask] + [];
    assert asks == [ask] && [ask][1..] == [];
    hide ScriptTokens, Refilled, RedisAnswers, LocalAnswers, RedisAfter, Apply;
    Told(Some(h), Some(b), ask, [], capacity, rate);
  }

  lemma SameStart(x: seq<bool>, s: seq<bool>, y: seq<bool>, t: seq<bool>)
    requires |x| == |y|
    ensures x + s == y + t ==> x == y && s == t
  {
    assert (x + s)[..|x|] == x && (x + s)[|x|..] == s && (y + t)[..|y|] == y && (y + t)[|y|..] == t;
  }

  /** Traces whose first answers differ, or whose later ones do, are told apart. */
  lemma Told(h: Option<Hash>, b: Option<Bucket>, op: BucketOp, more: seq<BucketOp>, capacity: real, rate: real)
    requires rate > 0.0 && Slow(h)
    requires (op.Ask? && ScriptGrants(h, capacity, rate, op.requested, op.now) != Grants(b, capacity, rate, op.requested, op.now))
      || RedisAnswers(Some(RedisAfter(h, op, capacity, rate)), more, capacity, rate)
         != LocalAnswers(Some(Apply(b, op, capacity, rate)), more, capacity, rate)
    ensures RedisAnswers(h, [op] + more, capacity, rate) != LocalAnswers(b, [op] + more, capacity, rate)
  {
    OneAnswer(h, b, op, more, capacity, rate);
    hide RedisAfter, Apply, ScriptGrants, Grants, RedisAnswers, LocalAnswers;
    SameStart(if op.Ask? then [ScriptGrants(h, capacity, rate, op.requested, op.now)] else [],
              RedisAnswers(Some(RedisAfter(h, op, capacity, rate)), more, capacity, rate),
              if op.Ask? then [Grants(b, capacity, rate, op.requested, op.now)] else [],
              LocalAnswers(Some(Apply(b, op, capacity, rate)), more, capacity, rate));
  }

  lemma OneAnswer(h: Option<Hash>, b: Option<Bucket>, op: BucketOp, more: seq<BucketOp>, capacity: real, rate: real)
    requires rate > 0.0 && Slow(h)
    ensures RedisAnswers(h, [op] + more, capacity, rate)
         == (if op.Ask? then [ScriptGrants(h, capacity, rate, op.requested, op.now)] else [])
            + RedisAnswers(Some(RedisAfter(h, op, capacity, rate)), more, capacity, rate)
    ensures LocalAnswers(b, [op] + more, capacity, rate)
         == (if op.Ask? then [Grants(b, capacity, rate, op.requested, op.now)] else [])
            + LocalAnswers(Some(Apply(b, op, capacity, rate)), more, capacity, rate)
    ensures RedisAnswers(Some(RedisAfter(h, op, capacity, rate)), [], capacity, rate) == []
    ensures LocalAnswers(Some(Apply(b, op, capacity, rate)), [], capacity, rate) == []
  {
    hide RedisAfter, Apply, ScriptGrants, Grants;
    assert ([op] + more)[1..] == more;
  }

  /** Equal tokens, and a bucket slower than the one in Redis: once both are drained, the difference shows by the
      time the faster one is full. */
  lemma RatesTell(h: Hash, b: Bucket, capacity: real, rate: real, now: real) returns (asks: seq<BucketOp>)
    requires rate > 0.0 && capacity > 0.0 && Slow(Some(h)) && b.lastRefill <= now && Live(Some(h), now) == Some(h)
    requires h.multiplier == Some(MultiplierOf(Some(h))) && 0.0 < b.multiplier < MultiplierOf(Some(h))
    requires ScriptTokens(Some(h), capacity, rate, now) == Refilled(b, capacity, rate, now).tokens
    ensures InTime(now, asks) && OnlyAsks(asks) && HarmlessTrace(Some(h), Some(b), asks, capacity, rate)
    ensures RedisAnswers(Some(h), asks, capacity, rate) != LocalAnswers(Some(b), asks, capacity, rate)
  {
    var x, m := ScriptTokens(Some(h), capacity, rate, now), MultiplierOf(Some(h));
    RatePositive(rate, m);
    var later := now + capacity / EffectiveRate(rate, m);
    var first, second := Ask(now, x), Ask(later, capacity);
    asks := [first] + [second];
    Drained(h, b, capacity, rate, now);
    FasterIsFull(m, b.multiplier, capacity, rate, now);
    hide ScriptTokens, Refilled, RedisAfter, Apply, Lifetime, EffectiveRate, RedisAnswers, LocalAnswers, HarmlessTrace;
    TwoLiveAsks(Some(h), Some(b), first, second, capacity, rate);
    var h1, b1 := RedisAfter(Some(h), first, capacity, rate), Apply(Some(b), first, capacity, rate);
    assert [second] + [] == [second];
    Told(Some(h1), Some(b1), second, [], capacity, rate);
    Told(Some(h), Some(b), first, [second], capacity, rate);
  }

  /** Asks that find the key live are harmless. */
  lemma TwoLiveAsks(h: Option<Hash>, b: Option<Bucket>, first: BucketOp, second: BucketOp, capacity: real, rate: real)
    requires rate > 0.0 && Slow(h) && first.Ask? && second.Ask? && first.now <= second.now
    requires Live(h, first.now) == h
    requires var h' := Some(RedisAfter(h, first, capacity, rate)); Live(h', second.now) == h'
    ensures var asks := [first] + [second];
      InTime(first.now, asks) && OnlyAsks(asks) && HarmlessTrace(h, b, asks, capacity, rate)
  {
    hide RedisAfter, Apply;
    var asks := [first] + [second];
    assert asks[0] == first && asks[1..] == [second] && [second][1..] == [];
    assert InTime(second.now, []) && InTime(first.now, [second]);
    var h', b' := Some(RedisAfter(h, first, capacity, rate)), Some(Apply(b, first, capacity, rate));
    var h'', b'' := Some(RedisAfter(h', second, capacity, rate)), Some(Apply(b', second, capacity, rate));
    assert HarmlessTrace(h'', b'', [], capacity, rate);
    assert HarmlessTrace(h', b', [second], capacity, rate);
  }

  lemma Drained(h: Hash, b: Bucket, capacity: real, rate: real, now: real)
    requires rate > 0.0 && capacity > 0.0 && Slow(Some(h)) && Live(Some(h), now) == Some(h)
    requires h.multiplier == Some(MultiplierOf(Some(h)))
    requires ScriptTokens(Some(h), capacity, rate, now) == Refilled(b, capacity, rate, now).tokens
    ensures var x, m := ScriptTokens(Some(h), capacity, rate, now), MultiplierOf(Some(h));
      var op := Ask(now, x);
      && EffectiveRate(rate, m) > 0.0
      && ScriptGrants(Some(h), capacity, rate, x, now) && Grants(Some(b), capacity, rate, x, now)
      && RedisAfter(Some(h), op, capacity, rate)
         == Hash(Some((0.0, now)), Some(m), Some(now + Lifetime(capacity, EffectiveRate(rate, m))))
      && Apply(Some(b), op, capacity, rate) == Bucket(0.0, now, b.multiplier)
  {
    RatePositive(rate, MultiplierOf(Some(h)));
    hide ScriptTokens, Lifetime, EffectiveRate;
  }

  lemma FasterIsFull(m: real, m': real, capacity: real, rate: real, now: real)
    requires rate > 0.0 && capacity > 0.0 && 0.0 < m' < m && EffectiveRate(rate, m) > 0.0
    ensures var e := now + Lifetime(capacity, EffectiveRate(rate, m));
      var later := now + capacity / EffectiveRate(rate, m);
      && now < later < e
      && ScriptTokens(Some(Hash(Some((0.0, now)), Some(m), Some(e))), capacity, rate, later) >= capacity
      && Refilled(Bucket(0.0, now, m'), capacity, rate, later).tokens < capacity
  {
    var r, r' := EffectiveRate(rate, m), EffectiveRate(rate, m');
    var wait := capacity / r;
    Quotient(capacity, r);
    CeilAbove(wait);
    assert Lifetime(capacity, r) > wait;
    SlowerFlow(rate, m', m, wait);
    assert now + wait - now == wait;
    hide EffectiveRate, Lifetime;
    ScriptTokensAre(Some(Hash(Some((0.0, now)), Some(m), Some(now + Lifetime(capacity, r)))), capacity, rate, now + wait);
    RefilledIs(Bucket(0.0, now, m'), capacity, rate, now + wait);
  }

  lemma Quotient(capacity: real, r: real)
    requires r > 0.0 && capacity > 0.0
    ensures capacity / r > 0.0 && r * (capacity / r) == capacity
  {
  }

  lemma SlowerFlow(rate: real, m': real, m: real, wait: real)
    requires rate > 0.0 && m' < m && wait > 0.0
    ensures EffectiveRate(rate, m') * wait < EffectiveRate(rate, m) * wait
  {
    assert rate * m' < rate * m;
  }

  lemma LifetimePositive(capacity: real, r: real)
    requires capacity > 0.0 && r > 0.0
    ensures Lifetime(capacity, r) > 0.0
  {
    Quotient(capacity, r);
    CeilAbove(capacity / r);
  }

  /** What is stored at a moment is what is counted at that moment, up to the capacity. */
  lemma AtOnce(h: Hash, b: Bucket, x: real, y: real, capacity: real, rate: real, now: real)
    requires h.bucket == Some((x, now)) && Live(Some(h), now) == Some(h) && b.tokens == y && b.lastRefill == now
    ensures ScriptTokens(Some(h), capacity, rate, now) == Min(capacity, x)
    ensures Refilled(b, capacity, rate, now).tokens == Min(capacity, y)
  {
    ScriptTokensAre(Some(h), capacity, rate, now);
    RefilledIs(b, capacity, rate, now);
    assert now - now == 0.0;
  }

  /** Redis has at least as many tokens as the bucket, and the higher rate: some asks tell them apart. */
  lemma FasterTells(h: Hash, b: Bucket, capacity: real, rate: real, now: real) returns (asks: seq<BucketOp>)
    requires rate > 0.0 && capacity > 0.0 && Slow(Some(h)) && b.lastRefill <= now && Live(Some(h), now) == Some(h)
    requires h.multiplier == Some(MultiplierOf(Some(h))) && 0.0 < b.multiplier < MultiplierOf(Some(h))
    requires h.bucket.Some? ==> h.bucket.value.1 <= now
    requires ScriptTokens(Some(h), capacity, rate, now) >= Refilled(b, capacity, rate, now).tokens
    ensures InTime(now, asks) && OnlyAsks(asks) && HarmlessTrace(Some(h), Some(b), asks, capacity, rate)
    ensures RedisAnswers(Some(h), asks, capacity, rate) != LocalAnswers(Some(b), asks, capacity, rate)
  {
    hide ScriptTokens, Refilled, RedisAnswers, LocalAnswers;
    if ScriptTokens(Some(h), capacity, rate, now) > Refilled(b, capacity, rate, now).tokens {
      asks := TokensTell(h, b, capacity, rate, now);
    } else {
      asks := RatesTell(h, b, capacity, rate, now);
    }
  }

  /** After an ask that finds the key expired with a slowdown, Redis has forgotten it. */
  lemma ForgottenTells(h: Option<Hash>, b: Option<Bucket>, op: BucketOp, capacity: real, rate: real, clock: real)
    returns (asks: seq<BucketOp>)
    requires rate > 0.0 && capacity > 0.0 && Matches(h, b, capacity, rate, clock) && Slow(h) && clock <= op.now
    requires op.Ask? && Expired(h, op.now) && MultiplierOf(h) != 1.0
    ensures InTime(op.now, asks) && OnlyAsks(asks)
    ensures HarmlessTrace(Some(RedisAfter(h, op, capacity, rate)), Some(Apply(b, op, capacity, rate)), asks, capacity, rate)
    ensures RedisAnswers(h, [op] + asks, capacity, rate) != LocalAnswers(b, [op] + asks, capacity, rate)
  {
    asks := [];
    var h', b' := RedisAfter(h, op, capacity, rate), Apply(b, op, capacity, rate);
    if ScriptGrants(h, capacity, rate, op.requested, op.now) == Grants(b, capacity, rate, op.requested, op.now) {
      Forgets(h, b, op, capacity, rate);
      AtOnce(h', b', h'.bucket.value.0, b'.tokens, capacity, rate, op.now);
      hide ScriptTokens, Refilled, RedisAfter, Apply, RedisAnswers, LocalAnswers;
      asks := FasterTells(h', b', capacity, rate, op.now);
    }
    Told(h, b, op, asks, capacity, rate);
  }

  lemma Forgets(h: Option<Hash>, b: Option<Bucket>, op: BucketOp, capacity: real, rate: real)
    requires rate > 0.0 && capacity > 0.0 && Slow(h) && op.Ask? && Expired(h, op.now) && b.Some?
    requires MultiplierOf(h) == b.value.multiplier != 1.0 && b.value.multiplier <= 1.0 && b.value.lastRefill <= op.now
    requires ScriptGrants(h, capacity, rate, op.requested, op.now) == Grants(b, capacity, rate, op.requested, op.now)
    ensures var h', b' := RedisAfter(h, op, capacity, rate), Apply(b, op, capacity, rate);
      && h'.multiplier == Some(1.0) && b'.multiplier == b.value.multiplier
      && h'.bucket.Some? && h'.bucket.value.1 == op.now == b'.lastRefill && b'.tokens <= h'.bucket.value.0
      && Live(Some(h'), op.now) == Some(h')
  {
    RatePositive(rate, 1.0);
    LifetimePositive(capacity, EffectiveRate(rate, 1.0));
    ScriptTokensAre(h, capacity, rate, op.now);
    RefilledIs(b.value, capacity, rate, op.now);
    hide Grown, EffectiveRate, Lifetime, ScriptTokens, Refilled;
  }

  /** A report that does not find the tokens leaves Redis full, and faster or fuller than the bucket. */
  lemma ReportTells(h: Option<Hash>, b: Option<Bucket>, op: BucketOp, capacity: real, rate: real, clock: real)
    returns (asks: seq<BucketOp>)
    requires rate > 0.0 && capacity > 0.0 && Matches(h, b, capacity, rate, clock) && Slow(h) && clock <= op.now
    requires op.Report? && !Harmless(h, b, op, capacity, rate)
    ensures InTime(op.now, asks) && OnlyAsks(asks)
    ensures HarmlessTrace(Some(RedisAfter(h, op, capacity, rate)), Some(Apply(b, op, capacity, rate)), asks, capacity, rate)
    ensures RedisAnswers(h, [op] + asks, capacity, rate) != LocalAnswers(b, [op] + asks, capacity, rate)
  {
    var h', b' := RedisAfter(h, op, capacity, rate), Apply(b, op, capacity, rate);
    ReportLeaves(h, b, op, capacity, rate, clock);
    ScriptTokensAre(Some(h'), capacity, rate, op.now);
    RefilledIs(b', capacity, rate, op.now);
    hide RedisAfter, Apply, RedisAnswers, LocalAnswers, Grown, EffectiveRate, ScriptTokens, Refilled;
    if b'.multiplier < h'.multiplier.value {
      asks := FasterTells(h', b', capacity, rate, op.now);
    } else {
      asks := TokensTell(h', b', capacity, rate, op.now);
    }
    Told(h, b, op, asks, capacity, rate);
  }

  lemma ReportLeaves(h: Option<Hash>, b: Option<Bucket>, op: BucketOp, capacity: real, rate: real, clock: real)
    requires rate > 0.0 && capacity > 0.0 && Matches(h, b, capacity, rate, clock) && Slow(h) && clock <= op.now
    requires op.Report? && !Harmless(h, b, op, capacity, rate)
    ensures var h', b' := RedisAfter(h, op, capacity, rate), Apply(b, op, capacity, rate);
      && h'.multiplier.Some? && h'.bucket.None? && Live(Some(h'), op.now) == Some(h') && b'.lastRefill <= op.now
      && 0.0 < b'.multiplier <= h'.multiplier.value
      && (b'.multiplier == h'.multiplier.value ==>
           Grown(b'.tokens, EffectiveRate(rate, b'.multiplier), b'.lastRefill, op.now) < capacity)
  {
    var h' := RedisAfter(h, op, capacity, rate);
    var now := op.now;
    hide EffectiveRate;
    if h.None? {
      assert now - now == 0.0;
    }
  }

  /** The two backends answer alike exactly as long as every operation is harmless: on a harmless trace of acquires
      and reports from a fresh key all answers are the same; on any other, right after the first operation that is
      not harmless, some acquires tell them apart, although each of these is harmless itself. */
  lemma AgreeWhileHarmless(ops: seq<BucketOp>, capacity: real, rate: real, from: real)
    requires rate > 0.0 && capacity > 0.0 && InTime(from, ops)
    ensures HarmlessTrace(None, None, ops, capacity, rate) ==>
      RedisAnswers(None, ops, capacity, rate) == LocalAnswers(None, ops, capacity, rate)
    ensures !HarmlessTrace(None, None, ops, capacity, rate) ==>
      exists k, asks :: 1 <= k <= |ops|
        && HarmlessTrace(None, None, ops[..k - 1], capacity, rate) && !HarmlessTrace(None, None, ops[..k], capacity, rate)
        && OnlyAsks(asks) && InTime(from, ops[..k] + asks) && HarmlessFrom(None, None, ops[..k] + asks, k, capacity, rate)
        && RedisAnswers(None, ops[..k] + asks, capacity, rate) != LocalAnswers(None, ops[..k] + asks, capacity, rate)
  {
    if HarmlessTrace(None, None, ops, capacity, rate) {
      SameAnswers(None, None, ops, capacity, rate, from);
    } else {
      var k, asks := HarmTells(None, None, ops, capacity, rate, from);
    }
  }

  lemma Slices(ops: seq<BucketOp>, k: nat, asks: seq<BucketOp>)
    requires 1 <= k < |ops|
    ensures ops[..k + 1][1..] == ops[1..][..k] && ops[..k][1..] == ops[1..][..k - 1]
    ensures ops[..k + 1] + asks == [ops[0]] + (ops[1..][..k] + asks)
    ensures ([ops[0]] + (ops[1..][..k] + asks))[1..] == ops[1..][..k] + asks
  {
    assert ops[..k + 1] == [ops[0]] + ops[1..][..k];
  }

  lemma {:induction false} HarmTells(h: Option<Hash>, b: Option<Bucket>, ops: seq<BucketOp>, capacity: real, rate: real, clock: real)
    returns (k: nat, asks: seq<BucketOp>)
    requires rate > 0.0 && capacity > 0.0 && Matches(h, b, capacity, rate, clock) && InTime(clock, ops) && Slow(h)
    requires !HarmlessTrace(h, b, ops, capacity, rate)
    ensures 1 <= k <= |ops| && OnlyAsks(asks) && InTime(clock, ops[..k] + asks)
    ensures HarmlessTrace(h, b, ops[..k - 1], capacity, rate) && !HarmlessTrace(h, b, ops[..k], capacity, rate)
    ensures HarmlessFrom(h, b, ops[..k] + asks, k, capacity, rate)
    ensures RedisAnswers(h, ops[..k] + asks, capacity, rate) != LocalAnswers(b, ops[..k] + asks, capacity, rate)
    decreases |ops|
  {
    hide RedisAfter, Apply, ScriptGrants, Grants, Matches, Harmless, Expired, RedisAnswers, LocalAnswers, OnlyAsks;
    var op, rest := ops[0], ops[1..];
    if Harmless(h, b, op, capacity, rate) {
      if op.Ask? {
        AskMatches(h, b, capacity, rate, clock, op);
      } else {
        ReportMatches(h, b, capacity, rate, clock, op);
      }
      k, asks := HarmTells(Some(RedisAfter(h, op, capacity, rate)), Some(Apply(b, op, capacity, rate)), rest, capacity, rate, op.now);
      Slices(ops, k, asks);
      Told(h, b, op, rest[..k] + asks, capacity, rate);
      k := k + 1;
    } else {
      if op.Ask? {
        HarmfulAsk(h, b, op, capacity, rate);
        asks := ForgottenTells(h, b, op, capacity, rate, clock);
      } else {
        asks := ReportTells(h, b, op, capacity, rate, clock);
      }
      k := 1;
      assert ops[..1] == [op] && ([op] + asks)[1..] == asks && ops[..0] == [];
    }
  }

  lemma {:induction false} HarmlessJoin(h: Option<Hash>, b: Option<Bucket>, ops: seq<BucketOp>, more: seq<BucketOp>,
                                        capacity: real, rate: real)
    requires rate > 0.0 && Slow(h) && HarmlessTrace(h, b, ops, capacity, rate)
    requires HarmlessFrom(h, b, ops + more, |ops|, capacity, rate)
    ensures HarmlessTrace(h, b, ops + more, capacity, rate)
    decreases |ops|
  {
    if ops == [] {
      assert ops + more == more;
    } else {
      hide RedisAfter, Apply, Harmless;
      assert (ops + more)[1..] == ops[1..] + more;
      HarmlessJoin(Some(RedisAfter(h, ops[0], capacity, rate)), Some(Apply(b, ops[0], capacity, rate)), ops[1..], more, capacity, rate);
    }
  }

  /** No acquires from the end of the trace on, all of them harmless, are answered differently. */
  ghost predicate CannotTell(ops: seq<BucketOp>, capacity: real, rate: real, from: real)
    requires rate > 0.0
  {
    forall asks :: OnlyAsks(asks) && InTime(from, ops + asks) && HarmlessFrom(None, None, ops + asks, |ops|, capacity, rate) ==>
      RedisAnswers(None, ops + asks, capacity, rate) == LocalAnswers(None, ops + asks, capacity, rate)
  }

  /** After a harmless trace an operation is harmless if and only if no harmless acquires can tell the backends apart
      afterwards. */
  lemma HarmlessIffCannotTell(past: seq<BucketOp>, op: BucketOp, capacity: real, rate: real, from: real)
    requires rate > 0.0 && capacity > 0.0 && InTime(from, past + [op]) && HarmlessTrace(None, None, past, capacity, rate)
    ensures HarmlessTrace(None, None, past + [op], capacity, rate) <==> CannotTell(past + [op], capacity, rate, from)
  {
    hide HarmlessTrace, HarmlessFrom, RedisAnswers, LocalAnswers, InTime, OnlyAsks;
    var ops := past + [op];
    if HarmlessTrace(None, None, ops, capacity, rate) {
      forall asks | OnlyAsks(asks) && InTime(from, ops + asks) && HarmlessFrom(None, None, ops + asks, |ops|, capacity, rate)
        ensures RedisAnswers(None, ops + asks, capacity, rate) == LocalAnswers(None, ops + asks, capacity, rate)
      {
        HarmlessJoin(None, None, ops, asks, capacity, rate);
        FreshMatches(capacity, rate, from);
        SameAnswers(None, None, ops + asks, capacity, rate, from);
      }
    } else {
      FreshMatches(capacity, rate, from);
      var k, asks := HarmTells(None, None, ops, capacity, rate, from);
      if k < |ops| {
        assert ops[..k] == past[..k];
        HarmlessPrefix(None, None, past, k, capacity, rate);
        assert false;
      }
      assert ops[..k] == ops;
    }
  }

  lemma FreshMatches(capacity: real, rate: real, from: real)
    ensures Matches(None, None, capacity, rate, from) && Slow(None)
  {
  }

  lemma {:induction false} HarmlessPrefix(h: Option<Hash>, b: Option<Bucket>, ops: seq<BucketOp>, k: nat, capacity: real, rate: real)
    requires rate > 0.0 && Slow(h) && HarmlessTrace(h, b, ops, capacity, rate) && k <= |ops|
    ensures HarmlessTrace(h, b, ops[..k], capacity, rate)
    decreases |ops|
  {
    if k > 0 {
      hide RedisAfter, Apply, Harmless;
      assert ops[..k][1..] == ops[1..][..k - 1];
      HarmlessPrefix(Some(RedisAfter(h, ops[0], capacity, rate)), Some(Apply(b, ops[0], capacity, rate)), ops[1..], k - 1, capacity, rate);
    }
  }

  lemma HarmfulAsk(h: Option<Hash>, b: Option<Bucket>, op: BucketOp, capacity: real, rate: real)
    requires op.Ask? && !Harmless(h, b, op, capacity, rate)
    ensures Expired(h, op.now) && MultiplierOf(h) != 1.0
  {
  }

  /** A report on a key nobody has used leaves a full bucket in Redis and an empty one in process, so the next
      acquire is granted by the one and refused by the other. */
  lemma ReportedKeyDiffers(capacity: real, rate: real, requested: real, now: real)
    requires 0.0 < requested <= capacity && rate > 0.0
    ensures RedisAnswers(None, [Report(now), Ask(now, requested)], capacity, rate) == [true]
    ensures LocalAnswers(None, [Report(now), Ask(now, requested)], capacity, rate) == [false]
  {
    var first, second := Report(now), Ask(now, requested);
    var h, b := RedisAfter(None, first, capacity, rate), Apply(None, first, capacity, rate);
    OneAnswer(None, None, first, [second], capacity, rate);
    OneAnswer(Some(h), Some(b), second, [], capacity, rate);
    assert [first] + [second] == [first, second] && [second] + [] == [second];
    ScriptTokensAre(Some(h), capacity, rate, now);
    assert Refilled(b, capacity, rate, now).tokens == 0.0 by {
      assert Max(0.0, now - now) == 0.0;
    }
    hide RedisAnswers, LocalAnswers, ScriptTokens, Refilled;
  }

  /** A key that expires forgets its slowdown. With room for one token and one token a second: both backends grant at
      0, are told to slow down, and grant at 2; by then the key has expired, and at 3 the script grants what the
      in-process bucket refuses. */
  lemma ExpiryForgetsSlowdown()
    ensures var ops := [Ask(0.0, 1.0), Report(0.0), Ask(2.0, 1.0), Ask(3.0, 1.0)];
      && RedisAnswers(None, ops, 1.0, 1.0) == [true, true, true]
      && LocalAnswers(None, ops, 1.0, 1.0) == [true, true, false]
  {
    var a, r, c, d := Ask(0.0, 1.0), Report(0.0), Ask(2.0, 1.0), Ask(3.0, 1.0);
    var h1, b1 := Hash(Some((0.0, 0.0)), Some(1.0), Some(2.0)), Bucket(0.0, 0.0, 1.0);
    var h2, b2 := Hash(Some((0.0, 0.0)), Some(0.5), Some(2.0)), Bucket(0.0, 0.0, 0.5);
    var h3, b3 := Hash(Some((0.0, 2.0)), Some(1.0), Some(4.0)), Bucket(0.0, 2.0, 0.5);
    hide RedisAnswers, LocalAnswers, RedisAfter, Apply, ScriptGrants, Grants, Lifetime;
    FirstAsk();
    ReportStep();
    SecondAsk();
    LastAsk();
    assert [a] + [r, c, d] == [a, r, c, d] && [r] + [c, d] == [r, c, d] && [c] + [d] == [c, d] && [d] + [] == [d];
    OneAnswer(Some(h3), Some(b3), d, [], 1.0, 1.0);
    assert RedisAnswers(Some(h3), [d], 1.0, 1.0) == [true] && LocalAnswers(Some(b3), [d], 1.0, 1.0) == [false];
    OneAnswer(Some(h2), Some(b2), c, [d], 1.0, 1.0);
    assert RedisAnswers(Some(h2), [c, d], 1.0, 1.0) == [true, true] && LocalAnswers(Some(b2), [c, d], 1.0, 1.0) == [true, false];
    OneAnswer(Some(h1), Some(b1), r, [c, d], 1.0, 1.0);
    assert RedisAnswers(Some(h1), [r, c, d], 1.0, 1.0) == [true, true];
    assert LocalAnswers(Some(b1), [r, c, d], 1.0, 1.0) == [true, false];
    OneAnswer(None, None, a, [r, c, d], 1.0, 1.0);
  }

  lemma ReportStep()
    ensures RedisAfter(Some(Hash(Some((0.0, 0.0)), Some(1.0), Some(2.0))), Report(0.0), 1.0, 1.0)
         == Hash(Some((0.0, 0.0)), Some(0.5), Some(2.0))
    ensures Apply(Some(Bucket(0.0, 0.0, 1.0)), Report(0.0), 1.0, 1.0) == Bucket(0.0, 0.0, 0.5)
  {
  }

  lemma UnitLifetime()
    ensures Lifetime(1.0, EffectiveRate(1.0, 1.0)) == 2.0
  {
  }

  lemma FirstAsk()
    ensures ScriptGrants(None, 1.0, 1.0, 1.0, 0.0) && Grants(None, 1.0, 1.0, 1.0, 0.0)
    ensures RedisAfter(None, Ask(0.0, 1.0), 1.0, 1.0) == Hash(Some((0.0, 0.0)), Some(1.0), Some(2.0))
    ensures Apply(None, Ask(0.0, 1.0), 1.0, 1.0) == Bucket(0.0, 0.0, 1.0)
  {
    UnitLifetime();
    hide Lifetime;
  }

  lemma SecondAsk()
    ensures var h, b := Hash(Some((0.0, 0.0)), Some(0.5), Some(2.0)), Bucket(0.0, 0.0, 0.5);
      && ScriptGrants(Some(h), 1.0, 1.0, 1.0, 2.0) && Grants(Some(b), 1.0, 1.0, 1.0, 2.0)
      && RedisAfter(Some(h), Ask(2.0, 1.0), 1.0, 1.0) == Hash(Some((0.0, 2.0)), Some(1.0), Some(4.0))
      && Apply(Some(b), Ask(2.0, 1.0), 1.0, 1.0) == Bucket(0.0, 2.0, 0.5)
  {
    UnitLifetime();
    hide Lifetime;
  }

  lemma LastAsk()
    ensures var h, b := Hash(Some((0.0, 2.0)), Some(1.0), Some(4.0)), Bucket(0.0, 2.0, 0.5);
      ScriptGrants(Some(h), 1.0, 1.0, 1.0, 3.0) && !Grants(Some(b), 1.0, 1.0, 1.0, 3.0)
  {
  }
}
