/** The API's sliding-window limiter: one deque of admission times per client address. */
module SlidingWindow {
  const WINDOW := 60.0

  datatype Request = Request(ip: string, now: real, exempt: bool)

  /** `Crashed` is the IndexError of reading the head of an empty deque. */
  datatype Outcome = Skipped | Admitted | Refused(retryAfter: int) | Crashed

  /** The deque after the popleft loop. */
  function Pruned(q: seq<real>, now: real): seq<real> {
    if q != [] && now - q[0] > WINDOW then Pruned(q[1..], now) else q
  }

  /** What is answered with the pruned deque q. */
  function Decide(q: seq<real>, limit: int, now: real): Outcome {
    if |q| < limit then Admitted
    else if q == [] then Crashed
    else Refused((WINDOW - (now - q[0])).Floor + 1)
  }

  function DequeOf(buckets: map<string, seq<real>>, ip: string): seq<real> {
    if ip in buckets then buckets[ip] else []
  }

  function OutcomeOf(buckets: map<string, seq<real>>, limit: int, r: Request): Outcome {
    if r.exempt then Skipped else Decide(Pruned(DequeOf(buckets, r.ip), r.now), limit, r.now)
  }

  function After(buckets: map<string, seq<real>>, limit: int, r: Request): map<string, seq<real>> {
    if r.exempt then buckets
    else
      var q := Pruned(DequeOf(buckets, r.ip), r.now);
      buckets[r.ip := if Decide(q, limit, r.now) == Admitted then q + [r.now] else q]
  }

  class Middleware {
    const limit: int
    var buckets: map<string, seq<real>>

    constructor (limit: int)
      ensures this.limit == limit && buckets == map[]
    {
      this.limit := limit;
      buckets := map[];
    }

    /** `rate_limit_middleware`; exempt are OPTIONS requests, infrastructure paths, and everything when the limiter
        is switched off. */
    method Handle(r: Request) returns (o: Outcome)
      modifies this
      ensures buckets == After(old(buckets), limit, r)
      ensures o == OutcomeOf(old(buckets), limit, r)
    {
      if r.exempt {
        return Skipped;
      }
      if r.ip !in buckets {
        buckets := buckets[r.ip := []];
      }
      ghost var q := DequeOf(old(buckets), r.ip);
      while buckets[r.ip] != [] && r.now - buckets[r.ip][0] > WINDOW
        invariant r.ip in buckets && buckets == old(buckets)[r.ip := buckets[r.ip]]
        invariant Pruned(buckets[r.ip], r.now) == Pruned(q, r.now)
        decreases |buckets[r.ip]|
      {
        buckets := buckets[r.ip := buckets[r.ip][1..]];
      }
      if |buckets[r.ip]| >= limit {
        if buckets[r.ip] == [] {
          return Crashed;
        }
        return Refused((WINDOW - (r.now - buckets[r.ip][0])).Floor + 1);
      }
      buckets := buckets[r.ip := buckets[r.ip] + [r.now]];
      o := Admitted;
    }
  }

  // ------------------------------------------------------------------
  // Runs
  // ------------------------------------------------------------------

  predicate Clocked(from: real, rs: seq<Request>)
    decreases |rs|
  {
    rs == [] || (from <= rs[0].now && Clocked(rs[0].now, rs[1..]))
  }

  /** The deques after a run from an empty table. */
  function Served(limit: int, rs: seq<Request>): map<string, seq<real>>
    decreases |rs|
  {
    if rs == [] then map[] else After(Served(limit, rs[..|rs| - 1]), limit, rs[|rs| - 1])
  }

  /** All admissions of one client in a run, never pruned. */
  function Log(limit: int, rs: seq<Request>, ip: string): seq<real>
    decreases |rs|
  {
    if rs == [] then [] else
    var before, r := rs[..|rs| - 1], rs[|rs| - 1];
    Log(limit, before, ip)
    + if r.ip == ip && OutcomeOf(Served(limit, before), limit, r) == Admitted then [r.now] else []
  }

  /** When the limiter last looked at this client. */
  function LastCall(rs: seq<Request>, ip: string): real {
    if rs == [] then 0.0
    else if rs[|rs| - 1].ip == ip && !rs[|rs| - 1].exempt then rs[|rs| - 1].now
    else LastCall(rs[..|rs| - 1], ip)
  }

  /** The entries of a log from a on. */
  function Since(log: seq<real>, a: real): seq<real> {
    if log == [] then [] else (if a <= log[0] then [log[0]] else []) + Since(log[1..], a)
  }

  /** The entries of a log in the closed interval [a, b]. */
  function Within(log: seq<real>, a: real, b: real): seq<real> {
    if log == [] then [] else (if a <= log[0] <= b then [log[0]] else []) + Within(log[1..], a, b)
  }

  predicate Sorted(log: seq<real>) { forall i, j :: 0 <= i < j < |log| ==> log[i] <= log[j] }

  predicate UpTo(log: seq<real>, t: real) { forall i :: 0 <= i < |log| ==> log[i] <= t }

  /** Any limit + 1 consecutive admissions take more than the window. */
  predicate Spaced(log: seq<real>, limit: int) {
    forall i, j :: 0 <= i < j < |log| && j - i >= limit ==> log[j] - log[i] > WINDOW
  }

  // ------------------------------------------------------------------
  // Pruning
  // ------------------------------------------------------------------

  lemma {:induction false} PrunedTwice(log: seq<real>, t: real, now: real)
    requires t <= now
    ensures Pruned(Pruned(log, t), now) == Pruned(log, now)
  {
    if log != [] && t - log[0] > WINDOW {
      PrunedTwice(log[1..], t, now);
    }
  }

  lemma {:induction false} PrunedAppend(log: seq<real>, now: real)
    ensures Pruned(log + [now], now) == Pruned(log, now) + [now]
  {
    if log != [] && now - log[0] > WINDOW {
      assert (log + [now])[1..] == log[1..] + [now];
      PrunedAppend(log[1..], now);
    } else if log == [] {
      assert log + [now] == [now] && [] + [now] == [now];
    }
  }

  /** What is pruned is a prefix, and all of it is out of the window. */
  lemma {:induction false} PrunedIsSuffix(log: seq<real>, now: real)
    ensures var n := |log| - |Pruned(log, now)|;
      && 0 <= n && Pruned(log, now) == log[n..]
      && (forall i :: 0 <= i < n ==> now - log[i] > WINDOW)
      && (n < |log| ==> now - log[n] <= WINDOW)
  {
    if log != [] && now - log[0] > WINDOW {
      PrunedIsSuffix(log[1..], now);
      var m := |log[1..]| - |Pruned(log[1..], now)|;
      assert log[1..][m..] == log[m + 1..];
      forall i | 0 <= i < m + 1
        ensures now - log[i] > WINDOW
      {
        if i > 0 {
          assert log[i] == log[1..][i - 1];
        }
      }
    } else {
      assert log[0..] == log;
    }
  }

  lemma {:induction false} SinceAll(log: seq<real>, a: real)
    requires Sorted(log) && log != [] && a <= log[0]
    ensures Since(log, a) == log
    decreases |log|
  {
    if |log| > 1 {
      SinceAll(log[1..], a);
      assert log == [log[0]] + log[1..];
    }
  }

  /** On a sorted log the popleft loop keeps exactly the entries of the last 60 seconds. */
  lemma {:induction false} PrunedIsSince(log: seq<real>, now: real)
    requires Sorted(log)
    ensures Pruned(log, now) == Since(log, now - WINDOW)
  {
    if log != [] {
      if now - log[0] > WINDOW {
        PrunedIsSince(log[1..], now);
      } else {
        SinceAll(log, now - WINDOW);
      }
    }
  }

  // ------------------------------------------------------------------
  // The deque is the recent log
  // ------------------------------------------------------------------

  ghost predicate Tracks(q: seq<real>, log: seq<real>, limit: int, last: real, clock: real) {
    && Sorted(log) && UpTo(log, last) && Spaced(log, limit)
    && q == Pruned(log, last)
    && |q| <= limit
    && (log != [] ==> last <= clock)
  }

  lemma AppendSorted(log: seq<real>, now: real)
    requires Sorted(log) && UpTo(log, now)
    ensures Sorted(log + [now]) && UpTo(log + [now], now)
  {
  }

  lemma AppendSpaced(log: seq<real>, limit: int, now: real)
    requires Spaced(log, limit) && Sorted(log) && UpTo(log, now) && |Pruned(log, now)| < limit
    ensures Spaced(log + [now], limit)
  {
    PrunedIsSuffix(log, now);
  }

  lemma CallTracks(q: seq<real>, log: seq<real>, limit: int, last: real, clock: real, now: real)
    requires Tracks(q, log, limit, last, clock) && (log != [] ==> last <= now)
    ensures var p := Pruned(q, now);
      && p == Pruned(log, now)
      && (if |p| < limit then Tracks(p + [now], log + [now], limit, now, now) else Tracks(p, log, limit, now, now))
  {
    if log != [] {
      PrunedTwice(log, last, now);
      PrunedIsSuffix(q, now);
    }
    if |Pruned(log, now)| < limit {
      AppendSorted(log, now);
      AppendSpaced(log, limit, now);
      PrunedAppend(log, now);
    }
  }

  lemma {:induction false} ClockedParts(from: real, rs: seq<Request>)
    requires Clocked(from, rs) && rs != []
    ensures Clocked(from, rs[..|rs| - 1])
    ensures from <= rs[|rs| - 1].now
    ensures |rs| > 1 ==> rs[|rs| - 2].now <= rs[|rs| - 1].now
    decreases |rs|
  {
    if |rs| > 1 {
      ClockedParts(rs[0].now, rs[1..]);
      assert rs[1..][..|rs| - 2] == rs[..|rs| - 1][1..];
    }
  }

  function ClockOf(from: real, rs: seq<Request>): real { if rs == [] then from else rs[|rs| - 1].now }

  /** Only the client's own counted requests touch its deque and log. */
  lemma OtherCall(limit: int, before: seq<Request>, r: Request, ip: string)
    requires r.ip != ip || r.exempt
    ensures var rs := before + [r];
      && DequeOf(Served(limit, rs), ip) == DequeOf(Served(limit, before), ip)
      && Log(limit, rs, ip) == Log(limit, before, ip)
      && LastCall(rs, ip) == LastCall(before, ip)
  {
    hide Decide, Pruned;
    assert (before + [r])[..|before|] == before;
  }

  lemma OwnCall(limit: int, before: seq<Request>, r: Request)
    requires !r.exempt
    ensures var rs := before + [r];
      var p := Pruned(DequeOf(Served(limit, before), r.ip), r.now);
      && DequeOf(Served(limit, rs), r.ip) == (if |p| < limit then p + [r.now] else p)
      && Log(limit, rs, r.ip) == (if |p| < limit then Log(limit, before, r.ip) + [r.now] else Log(limit, before, r.ip))
      && LastCall(rs, r.ip) == r.now
  {
    hide Pruned;
    assert (before + [r])[..|before|] == before;
  }

  lemma {:induction false} RunTracks(limit: int, rs: seq<Request>, ip: string, from: real)
    requires limit >= 0 && Clocked(from, rs)
    ensures Tracks(DequeOf(Served(limit, rs), ip), Log(limit, rs, ip), limit, LastCall(rs, ip), ClockOf(from, rs))
    decreases |rs|
  {
    if rs != [] {
      hide Served, Log, LastCall, Pruned, Sorted, Spaced, UpTo, DequeOf;
      var before, r := rs[..|rs| - 1], rs[|rs| - 1];
      assert rs == before + [r];
      ClockedParts(from, rs);
      RunTracks(limit, before, ip, from);
      if r.ip == ip && !r.exempt {
        OwnCall(limit, before, r);
        CallTracks(DequeOf(Served(limit, before), ip), Log(limit, before, ip), limit, LastCall(before, ip),
                   ClockOf(from, before), r.now);
      } else {
        OtherCall(limit, before, r, ip);
      }
    }
  }

  /** After any run with a monotone clock, a client's deque is its admission log filtered to the 60 seconds before
      the limiter last looked at it, and any limit + 1 consecutive admissions take more than 60 seconds. */
  lemma DequeIsRecentLog(limit: int, rs: seq<Request>, ip: string, from: real)
    requires limit >= 1 && Clocked(from, rs)
    ensures var log := Log(limit, rs, ip);
      && DequeOf(Served(limit, rs), ip) == Since(log, LastCall(rs, ip) - WINDOW)
      && |DequeOf(Served(limit, rs), ip)| <= limit
      && Sorted(log) && Spaced(log, limit)
  {
    hide Served, Log, LastCall, Sorted, Spaced;
    RunTracks(limit, rs, ip, from);
    PrunedIsSince(Log(limit, rs, ip), LastCall(rs, ip));
  }

  lemma {:induction false} WithinSplits(x: seq<real>, y: seq<real>, a: real, b: real)
    ensures Within(x + y, a, b) == Within(x, a, b) + Within(y, a, b)
    decreases |x|
  {
    if x == [] {
      assert x + y == y;
    } else {
      assert (x + y)[1..] == x[1..] + y;
      WithinSplits(x[1..], y, a, b);
    }
  }

  lemma {:induction false} WithinSize(log: seq<real>, a: real, b: real)
    ensures |Within(log, a, b)| <= |log|
  {
    if log != [] {
      WithinSize(log[1..], a, b);
    }
  }

  lemma {:induction false} NoneWithin(log: seq<real>, a: real, b: real)
    requires forall i :: 0 <= i < |log| ==> log[i] < a
    ensures Within(log, a, b) == []
  {
    if log != [] {
      NoneWithin(log[1..], a, b);
    }
  }

  lemma LastOutside(log: seq<real>, a: real, b: real)
    requires log != [] && log[|log| - 1] > b
    ensures Within(log, a, b) == Within(log[..|log| - 1], a, b)
  {
    assert log == log[..|log| - 1] + [log[|log| - 1]];
    WithinSplits(log[..|log| - 1], [log[|log| - 1]], a, b);
  }

  /** When the last admission is inside the window, only the last `limit` can be. */
  lemma SpacedPrefix(log: seq<real>, limit: nat, a: real)
    requires limit >= 1 && Spaced(log, limit) && limit < |log| && log[|log| - 1] <= a + WINDOW
    ensures forall i :: 0 <= i < |log| - limit ==> log[i] < a
  {
    forall i | 0 <= i < |log| - limit
      ensures log[i] < a
    {
      assert log[|log| - 1] - log[i] > WINDOW;
    }
  }

  lemma {:induction false} SpacedWindow(log: seq<real>, limit: nat, a: real)
    requires limit >= 1 && Sorted(log) && Spaced(log, limit)
    ensures |Within(log, a, a + WINDOW)| <= limit
    decreases |log|
  {
    hide Within;
    var n := |log|;
    if n <= limit {
      WithinSize(log, a, a + WINDOW);
    } else if log[n - 1] > a + WINDOW {
      assert Sorted(log[..n - 1]) && Spaced(log[..n - 1], limit);
      hide Sorted, Spaced;
      SpacedWindow(log[..n - 1], limit, a);
      LastOutside(log, a, a + WINDOW);
    } else {
      var m := n - limit;
      assert log == log[..m] + log[m..];
      SpacedPrefix(log, limit, a);
      hide Sorted, Spaced;
      NoneWithin(log[..m], a, a + WINDOW);
      WithinSplits(log[..m], log[m..], a, a + WINDOW);
      WithinSize(log[m..], a, a + WINDOW);
    }
  }

  /** No closed 60-second window of any run holds more than `limit` admissions of a client. */
  lemma NoWindowOverLimit(limit: int, rs: seq<Request>, ip: string, from: real, a: real)
    requires limit >= 1 && Clocked(from, rs)
    ensures |Within(Log(limit, rs, ip), a, a + WINDOW)| <= limit
  {
    RunTracks(limit, rs, ip, from);
    SpacedWindow(Log(limit, rs, ip), limit, a);
  }

  // ------------------------------------------------------------------
  // The retry hint
  // ------------------------------------------------------------------

  /** Without admissions in between, a later answer is decided by the same log. */
  lemma LaterCall(limit: int, rs: seq<Request>, more: seq<Request>, r: Request, from: real)
    requires limit >= 1 && Clocked(from, rs + more + [r]) && !r.exempt
    requires Log(limit, rs + more, r.ip) == Log(limit, rs, r.ip)
    ensures OutcomeOf(Served(limit, rs + more), limit, r) == Decide(Pruned(Log(limit, rs, r.ip), r.now), limit, r.now)
  {
    var all := rs + more + [r];
    ClockedParts(from, all);
    assert all[..|all| - 1] == rs + more;
    RunTracks(limit, rs + more, r.ip, from);
    CallTracks(DequeOf(Served(limit, rs + more), r.ip), Log(limit, rs + more, r.ip), limit,
               LastCall(rs + more, r.ip), ClockOf(from, rs + more), r.now);
  }

  lemma {:induction false} ClockedPrefix(from: real, rs: seq<Request>, more: seq<Request>)
    requires Clocked(from, rs + more)
    ensures Clocked(from, rs)
    ensures more != [] ==> ClockOf(from, rs) <= more[|more| - 1].now
    decreases |more|
  {
    if more == [] {
      assert rs + more == rs;
    } else {
      var last := |more| - 1;
      ClockedParts(from, rs + more);
      assert (rs + more)[..|rs + more| - 1] == rs + more[..last];
      ClockedPrefix(from, rs, more[..last]);
      if last > 0 {
        assert (rs + more)[|rs + more| - 2] == more[last - 1];
      }
    }
  }

  /** The first entry that counts at `now` decides the answer at a later time. */
  lemma HeadDecides(log: seq<real>, limit: int, now: real, later: real)
    requires limit >= 1 && Sorted(log) && |Pruned(log, now)| == limit
    ensures var head := Pruned(log, now)[0];
      && now - head <= WINDOW
      && (later - head > WINDOW ==> |Pruned(log, later)| < limit)
      && (later - head <= WINDOW ==> |Pruned(log, later)| >= limit)
  {
    PrunedIsSuffix(log, now);
    PrunedIsSuffix(log, later);
    var n, m := |log| - |Pruned(log, now)|, |log| - |Pruned(log, later)|;
    assert Pruned(log, now)[0] == log[n];
    if m < n {
      assert log[m] <= log[n];
    }
  }

  /** A refusal means the window is exactly full. */
  lemma RefusedMeansFull(limit: int, rs: seq<Request>, r: Request, from: real)
    requires limit >= 1 && !r.exempt && Clocked(from, rs + [r])
    requires OutcomeOf(Served(limit, rs), limit, r).Refused?
    ensures var log := Log(limit, rs, r.ip);
      && Sorted(log) && |Pruned(log, r.now)| == limit
      && OutcomeOf(Served(limit, rs), limit, r) == Decide(Pruned(log, r.now), limit, r.now)
  {
    ClockedParts(from, rs + [r]);
    assert (rs + [r])[..|rs|] == rs;
    RunTracks(limit, rs, r.ip, from);
    var q := DequeOf(Served(limit, rs), r.ip);
    PrunedIsSuffix(q, r.now);
    CallTracks(q, Log(limit, rs, r.ip), limit, LastCall(rs, r.ip), ClockOf(from, rs), r.now);
  }

  /** The hint keeps its word: a client refused at the end of `rs` and told to wait, that comes back no earlier
      than told and has not been admitted meanwhile, is admitted, whatever other requests came in between. The hint
      is not too long either: who comes back a second or more before it is refused again. */
  lemma RetryAfterIsExact(limit: int, rs: seq<Request>, refused: Request, more: seq<Request>, r: Request, from: real)
    requires limit >= 1 && !refused.exempt && !r.exempt && r.ip == refused.ip
    requires Clocked(from, rs + [refused] + more + [r])
    requires OutcomeOf(Served(limit, rs), limit, refused).Refused?
    requires Log(limit, rs + [refused] + more, r.ip) == Log(limit, rs, r.ip)
    ensures var wait := OutcomeOf(Served(limit, rs), limit, refused).retryAfter;
      && wait >= 1
      && (r.now >= refused.now + wait as real ==> OutcomeOf(Served(limit, rs + [refused] + more), limit, r) == Admitted)
      && (r.now <= refused.now + (wait - 1) as real ==> OutcomeOf(Served(limit, rs + [refused] + more), limit, r).Refused?)
  {
    var past := rs + [refused];
    var log := Log(limit, rs, r.ip);
    assert past + more + [r] == past + (more + [r]);
    ClockedPrefix(from, past, more + [r]);
    RefusedMeansFull(limit, rs, refused, from);
    assert past[..|rs|] == rs;
    LaterCall(limit, past, more, r, from);
    HeadDecides(log, limit, refused.now, r.now);
  }

  /** Exempt requests are passed on uncounted. Any other is admitted exactly if fewer than `limit` admissions of its
      client lie in the 60 seconds before it, and refused otherwise. */
  lemma AdmittedIff(limit: int, rs: seq<Request>, r: Request, from: real)
    requires limit >= 1 && Clocked(from, rs + [r])
    ensures var o := OutcomeOf(Served(limit, rs), limit, r);
      && (o == Skipped <==> r.exempt)
      && (o == Admitted <==> !r.exempt && |Since(Log(limit, rs, r.ip), r.now - 60.0)| < limit)
      && (o.Refused? <==> !r.exempt && |Since(Log(limit, rs, r.ip), r.now - 60.0)| >= limit)
  {
    hide Served, Log, LastCall, Sorted, Spaced, Since, Pruned;
    if !r.exempt {
      assert rs + [] + [r] == rs + [r] && rs + [] == rs;
      LaterCall(limit, rs, [], r, from);
      ClockedParts(from, rs + [r]);
      assert (rs + [r])[..|rs|] == rs;
      RunTracks(limit, rs, r.ip, from);
      PrunedIsSince(Log(limit, rs, r.ip), r.now);
    }
  }

  // ------------------------------------------------------------------
  // Degenerate limits
  // ------------------------------------------------------------------

  lemma {:induction false} NoLimitNoDeque(limit: int, rs: seq<Request>, ip: string)
    requires limit <= 0
    ensures DequeOf(Served(limit, rs), ip) == []
    decreases |rs|
  {
    if rs != [] {
      NoLimitNoDeque(limit, rs[..|rs| - 1], ip);
    }
  }

  /** The handler fails with an IndexError exactly when the configured limit is not positive, and then it does so on
      every request that is not exempt. */
  lemma CrashesIffNoLimit(limit: int, rs: seq<Request>, r: Request)
    requires !r.exempt
    ensures OutcomeOf(Served(limit, rs), limit, r) == Crashed <==> limit <= 0
  {
    if limit <= 0 {
      NoLimitNoDeque(limit, rs, r.ip);
    }
  }
}
