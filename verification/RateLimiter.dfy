/**
 The fixed-window rate limiter with a bounded key table (src/ingress.rs). It is compared with an
 unbounded limiter that never forgets a key: eviction never changes a verdict, and the only extra
 refusals happen when the table is full of live windows.
 */
module RateLimiter {
  import opened Basics

  /** Nanoseconds on a monotonic clock. */
  type Time = nat
  const SECOND: nat := 1_000_000_000

  datatype Bucket = Bucket(started: Time, used: nat)

  type Buckets = map<string, Bucket>

  datatype Config = Config(maxKeys: nat, window: nat)

  datatype Request = Request(key: string, limit: nat, now: Time)

  function Since(now: Time, started: Time): nat { if now >= started then now - started else 0 }

  function Live(b: Buckets, window: nat, now: Time): Buckets {
    map k | k in b && Since(now, b[k].started) < window :: b[k]
  }

  /** The window a request counts against: a fresh one if the key has none or its window is over. */
  function Current(b: Buckets, window: nat, r: Request): Bucket {
    if r.key in b && Since(r.now, b[r.key].started) < window then b[r.key] else Bucket(r.now, 0)
  }

  /** Counts a request against its window; the result is the seconds to wait, if refused. */
  function Count(b: Buckets, window: nat, r: Request): (Buckets, Option<nat>) {
    var bucket := Current(b, window, r);
    if bucket.used >= r.limit
    then (b[r.key := bucket],
          Some(Max(1, (if window >= Since(r.now, bucket.started) then window - Since(r.now, bucket.started) else 0) / SECOND)))
    else (b[r.key := bucket.(used := bucket.used + 1)], None)
  }

  /** A new key finds as many keys as may be held, with windows that are not over. */
  predicate Full(b: Buckets, c: Config, r: Request) {
    r.key !in b && |set k | k in b && Since(r.now, b[k].started) < c.window| >= c.maxKeys
  }

  lemma LiveKeys(b: Buckets, window: nat, now: Time)
    ensures var open := set k | k in b && Since(now, b[k].started) < window;
            Live(b, window, now).Keys == open && |Live(b, window, now)| == |open| <= |b|
  {
    var open := set k | k in b && Since(now, b[k].started) < window;
    assert Live(b, window, now).Keys == open;
    assert |Live(b, window, now)| == |Live(b, window, now).Keys|;
    SubmapSize(Live(b, window, now), b);
  }

  function Allow(b: Buckets, c: Config, r: Request): (Buckets, Option<nat>) {
    if r.key !in b && |b| >= c.maxKeys then
      var live := Live(b, c.window, r.now);
      if |live| >= c.maxKeys then (live, Some(1)) else Count(live, c.window, r)
    else Count(b, c.window, r)
  }

  class Limiter {
    var buckets: map<string, Bucket>
    const config: Config

    constructor (config: Config)
      ensures this.config == config && buckets == Run(config, [])
    {
      this.config, buckets := config, map[];
    }

    method Admit(key: string, limit: nat, now: Time) returns (wait: Option<nat>)
      modifies this
      ensures (buckets, wait) == Allow(old(buckets), config, Request(key, limit, now))
    {
      if key !in buckets && |buckets| >= config.maxKeys {
        buckets := map k | k in buckets && Since(now, buckets[k].started) < config.window :: buckets[k];
        assert buckets == Live(old(buckets), config.window, now);
        if |buckets| >= config.maxKeys { return Some(1); }
      }
      ghost var before := buckets;
      Refresh(key, limit, now);
      var bucket := buckets[key];
      if bucket.used >= limit {
        var left := if config.window >= Since(now, bucket.started) then config.window - Since(now, bucket.started) else 0;
        return Some(Max(1, left / SECOND));
      }
      buckets := buckets[key := bucket.(used := bucket.used + 1)];
      assert buckets == before[key := bucket.(used := bucket.used + 1)];
      wait := None;
    }

    /** Starts a window for a new key, or a new window when the key's is over. */
    method Refresh(key: string, limit: nat, now: Time)
      modifies this
      ensures buckets == old(buckets)[key := Current(old(buckets), config.window, Request(key, limit, now))]
    {
      if key !in buckets { buckets := buckets[key := Bucket(now, 0)]; }
      if Since(now, buckets[key].started) >= config.window { buckets := buckets[key := Bucket(now, 0)]; }
    }
  }

  // ---- Refinement of the unbounded limiter ----

  /** The bounded table agrees with the unbounded one on every key it holds; a key it has forgotten
      has no live window. */
  ghost predicate Forgets(b: Buckets, u: Buckets, window: nat, now: Time) {
    && (forall k | k in b :: k in u && u[k] == b[k])
    && (forall k | k in u && k !in b :: u[k].started <= now && now - u[k].started >= window)
  }

  /** A request that is not refused for capacity gets the unbounded limiter's verdict, and the tables
      still agree; a capacity refusal leaves them in agreement without consulting it. */
  lemma AllowRefines(b: Buckets, u: Buckets, c: Config, r: Request, earlier: Time)
    requires Forgets(b, u, c.window, earlier) && earlier <= r.now
    requires Started(u, earlier)
    ensures if Full(b, c, r) then Allow(b, c, r).1 == Some(1) && Forgets(Allow(b, c, r).0, u, c.window, r.now)
            else && Allow(b, c, r).1 == Count(u, c.window, r).1
                 && Forgets(Allow(b, c, r).0, Count(u, c.window, r).0, c.window, r.now)
    ensures Started(u, r.now) && Started(Count(u, c.window, r).0, r.now)
  {
    ForgetsLater(b, u, c.window, earlier, r.now);
    LiveKeys(b, c.window, r.now);
    if r.key !in b && |b| >= c.maxKeys {
      LiveForgets(b, u, c.window, r.now);
      if |Live(b, c.window, r.now)| < c.maxKeys { CountForgets(Live(b, c.window, r.now), u, c.window, r); }
    } else {
      CountForgets(b, u, c.window, r);
    }
  }

  lemma ForgetsLater(b: Buckets, u: Buckets, window: nat, earlier: Time, now: Time)
    requires Forgets(b, u, window, earlier) && earlier <= now
    ensures Forgets(b, u, window, now)
  {
  }

  /** Eviction forgets only windows that are over. */
  lemma LiveForgets(b: Buckets, u: Buckets, window: nat, now: Time)
    requires Forgets(b, u, window, now) && Started(u, now)
    ensures Forgets(Live(b, window, now), u, window, now)
  {
  }

  lemma CountForgets(b: Buckets, u: Buckets, window: nat, r: Request)
    requires Forgets(b, u, window, r.now)
    ensures Count(b, window, r).1 == Count(u, window, r).1 && Forgets(Count(b, window, r).0, Count(u, window, r).0, window, r.now)
  {
    assert Current(b, window, r) == Current(u, window, r);
  }

  // ---- Whole runs ----

  ghost predicate Timed(reqs: seq<Request>) {
    forall i, j | 0 <= i < j < |reqs| :: reqs[i].now <= reqs[j].now
  }

  function Run(c: Config, reqs: seq<Request>): Buckets
  {
    if |reqs| == 0 then map[] else Allow(Run(c, reqs[..|reqs| - 1]), c, reqs[|reqs| - 1]).0
  }

  function RunUnbounded(window: nat, reqs: seq<Request>): Buckets
  {
    if |reqs| == 0 then map[] else Count(RunUnbounded(window, reqs[..|reqs| - 1]), window, reqs[|reqs| - 1]).0
  }

  /** The requests that were not refused for capacity. */
  function Passed(c: Config, reqs: seq<Request>): seq<Request>
  {
    if |reqs| == 0 then []
    else
      var n := |reqs| - 1;
      Passed(c, reqs[..n]) + if Full(Run(c, reqs[..n]), c, reqs[n]) then [] else [reqs[n]]
  }

  function LastTime(reqs: seq<Request>): Time { if |reqs| == 0 then 0 else reqs[|reqs| - 1].now }

  lemma Appended(window: nat, reqs: seq<Request>, r: Request, k: string)
    ensures RunUnbounded(window, reqs + [r]) == Count(RunUnbounded(window, reqs), window, r).0
    ensures LogUnbounded(window, reqs + [r], k)
            == LogUnbounded(window, reqs, k)
               + if r.key == k && Count(RunUnbounded(window, reqs), window, r).1.None? then [r.now] else []
  {
    assert (reqs + [r])[..|reqs|] == reqs;
  }

  ghost predicate Started(u: Buckets, now: Time) { forall k | k in u :: u[k].started <= now }

  lemma {:induction false} RunRefines(c: Config, reqs: seq<Request>)
    requires Timed(reqs)
    ensures var u := RunUnbounded(c.window, Passed(c, reqs));
            Forgets(Run(c, reqs), u, c.window, LastTime(reqs)) && Started(u, LastTime(reqs))
  {
    if |reqs| > 0 {
      var n := |reqs| - 1;
      var front, passed := reqs[..n], Passed(c, reqs[..n]);
      RunRefines(c, front);
      AllowRefines(Run(c, front), RunUnbounded(c.window, passed), c, reqs[n], LastTime(front));
      if Full(Run(c, front), c, reqs[n]) {
        assert Passed(c, reqs) == passed;
      } else {
        assert Passed(c, reqs) == passed + [reqs[n]];
        Appended(c.window, passed, reqs[n], "");
      }
    }
  }

  /** In any run on a nondecreasing clock, the next verdict is the one the unbounded limiter gives
      after the requests that passed, unless the table is full of live windows. */
  lemma VerdictsAgree(c: Config, reqs: seq<Request>, r: Request)
    requires Timed(reqs + [r])
    ensures Allow(Run(c, reqs), c, r).1
            == if Full(Run(c, reqs), c, r) then Some(1)
               else Count(RunUnbounded(c.window, Passed(c, reqs)), c.window, r).1
  {
    assert (reqs + [r])[..|reqs|] == reqs;
    assert forall i, j | 0 <= i < j < |reqs| :: (reqs + [r])[i].now <= (reqs + [r])[j].now;
    RunRefines(c, reqs);
    if |reqs| > 0 { assert (reqs + [r])[|reqs| - 1].now <= (reqs + [r])[|reqs|].now; }
    AllowRefines(Run(c, reqs), RunUnbounded(c.window, Passed(c, reqs)), c, r, LastTime(reqs));
  }

  lemma AllowBounded(b: Buckets, c: Config, r: Request)
    requires |b| <= c.maxKeys
    ensures |Allow(b, c, r).0| <= c.maxKeys
  {
    var live := Live(b, c.window, r.now);
    SubmapSize(live, b);
    AddedSize(b, r.key, Current(b, c.window, r));
    AddedSize(live, r.key, Current(live, c.window, r));
    AddedSize(b, r.key, Current(b, c.window, r).(used := Current(b, c.window, r).used + 1));
    AddedSize(live, r.key, Current(live, c.window, r).(used := Current(live, c.window, r).used + 1));
  }

  lemma AddedSize(b: Buckets, k: string, bucket: Bucket)
    ensures |b[k := bucket]| == if k in b then |b| else |b| + 1
  {
    assert b[k := bucket].Keys == b.Keys + {k};
    assert |b[k := bucket]| == |b[k := bucket].Keys| && |b| == |b.Keys|;
  }

  lemma SubmapSize(a: Buckets, b: Buckets)
    requires a.Keys <= b.Keys
    ensures |a| <= |b|
  {
    SubsetSize(a.Keys, b.Keys);
    assert |a| == |a.Keys| && |b| == |b.Keys|;
  }

  /** The table never holds more keys than configured. */
  lemma {:induction false} TableBounded(c: Config, reqs: seq<Request>)
    ensures |Run(c, reqs)| <= c.maxKeys
  {
    if |reqs| > 0 {
      TableBounded(c, reqs[..|reqs| - 1]);
      AllowBounded(Run(c, reqs[..|reqs| - 1]), c, reqs[|reqs| - 1]);
    }
  }

  // ---- At most twice the limit in any window ----

  /** When the unbounded limiter admitted requests of this key. */
  function LogUnbounded(window: nat, reqs: seq<Request>, k: string): seq<Time>
  {
    if |reqs| == 0 then []
    else
      var n := |reqs| - 1;
      LogUnbounded(window, reqs[..n], k)
      + if reqs[n].key == k && Count(RunUnbounded(window, reqs[..n]), window, reqs[n]).1.None? then [reqs[n].now] else []
  }

  function Log(c: Config, reqs: seq<Request>, k: string): seq<Time>
  {
    if |reqs| == 0 then []
    else
      var n := |reqs| - 1;
      Log(c, reqs[..n], k)
      + if reqs[n].key == k && Allow(Run(c, reqs[..n]), c, reqs[n]).1.None? then [reqs[n].now] else []
  }

  /** How many times are at or after `lo`. */
  function From(log: seq<Time>, lo: int): nat
  {
    if |log| == 0 then 0 else From(log[..|log| - 1], lo) + if lo <= log[|log| - 1] then 1 else 0
  }

  /** How many times fall into the half-open window [lo, lo + window). */
  function InWindow(log: seq<Time>, lo: int, window: nat): int { From(log, lo) - From(log, lo + window) }

  lemma FromAppend(log: seq<Time>, t: Time, lo: int)
    ensures From(log + [t], lo) == From(log, lo) + if lo <= t then 1 else 0
  {
    assert (log + [t])[..|log|] == log;
  }

  lemma {:induction false} FromMono(log: seq<Time>, lo: int, lo': int)
    requires lo <= lo'
    ensures From(log, lo') <= From(log, lo)
  {
    if |log| > 0 { FromMono(log[..|log| - 1], lo, lo'); }
  }

  /** What the log looks like from a key's current window: its admissions are the used ones, nothing
      comes after it, at most `limit` more fall into the window's length before it, and no window
      anywhere holds more than twice the limit. */
  ghost predicate LogOk(log: seq<Time>, bucket: Bucket, window: nat, limit: nat) {
    && From(log, bucket.started) == bucket.used <= limit
    && From(log, bucket.started + window) == 0
    && (forall lo: int | bucket.started < lo + window :: From(log, lo) <= limit + bucket.used)
    && (forall lo: int :: InWindow(log, lo, window) <= 2 * limit)
  }

  /** A window that is over makes room for a fresh one. */
  lemma FreshWindow(log: seq<Time>, bucket: Bucket, window: nat, limit: nat, now: Time)
    requires LogOk(log, bucket, window, limit) && now >= bucket.started + window
    ensures LogOk(log, Bucket(now, 0), window, limit)
  {
    FromMono(log, bucket.started + window, now);
    FromMono(log, bucket.started + window, now + window);
    forall lo: int | now < lo + window ensures From(log, lo) <= limit {
      FromMono(log, bucket.started, lo);
    }
  }

  /** Admitting one more request into the current window. */
  lemma AdmitOne(log: seq<Time>, bucket: Bucket, window: nat, limit: nat, now: Time)
    requires LogOk(log, bucket, window, limit) && bucket.used < limit && bucket.started <= now < bucket.started + window
    ensures LogOk(log + [now], bucket.(used := bucket.used + 1), window, limit)
  {
    FromAppend(log, now, bucket.started);
    FromAppend(log, now, bucket.started + window);
    forall lo: int | bucket.started < lo + window ensures From(log + [now], lo) <= limit + bucket.used + 1 {
      FromAppend(log, now, lo);
    }
    forall lo: int ensures InWindow(log + [now], lo, window) <= 2 * limit {
      FromAppend(log, now, lo);
      FromAppend(log, now, lo + window);
      assert InWindow(log, lo, window) <= 2 * limit;
    }
  }

  /** Every request of the key asks for at most `limit`. */
  ghost predicate LimitedTo(reqs: seq<Request>, k: string, limit: nat) {
    forall i | 0 <= i < |reqs| && reqs[i].key == k :: reqs[i].limit <= limit
  }

  ghost predicate LogInv(log: seq<Time>, u: Buckets, k: string, window: nat, limit: nat) {
    if k in u then LogOk(log, u[k], window, limit) else log == []
  }

  lemma EmptyLogOk(window: nat, limit: nat, now: Time)
    ensures LogOk([], Bucket(now, 0), window, limit)
  {
    forall lo: int ensures InWindow([], lo, window) <= 2 * limit { }
  }

  lemma CountKeepsLog(log: seq<Time>, u: Buckets, window: nat, r: Request, k: string, limit: nat)
    requires window > 0 && LogInv(log, u, k, window, limit) && Started(u, r.now) && (r.key == k ==> r.limit <= limit)
    ensures var (next, verdict) := Count(u, window, r);
            LogInv(log + if r.key == k && verdict.None? then [r.now] else [], next, k, window, limit)
  {
    if r.key == k {
      var bucket := Current(u, window, r);
      if k !in u {
        EmptyLogOk(window, limit, r.now);
      } else if r.now - u[k].started >= window {
        FreshWindow(log, u[k], window, limit, r.now);
      }
      assert LogOk(log, bucket, window, limit);
      if bucket.used < r.limit { AdmitOne(log, bucket, window, limit, r.now); }
    }
    assert log + [] == log;
  }

  lemma {:induction false} UnboundedStarted(window: nat, reqs: seq<Request>)
    requires Timed(reqs)
    ensures Started(RunUnbounded(window, reqs), LastTime(reqs))
  {
    if |reqs| > 0 {
      var n := |reqs| - 1;
      UnboundedStarted(window, reqs[..n]);
      assert LastTime(reqs[..n]) <= reqs[n].now;
    }
  }

  lemma {:induction false} UnboundedLog(window: nat, reqs: seq<Request>, k: string, limit: nat)
    requires window > 0 && Timed(reqs) && LimitedTo(reqs, k, limit)
    ensures LogInv(LogUnbounded(window, reqs, k), RunUnbounded(window, reqs), k, window, limit)
  {
    if |reqs| > 0 {
      var front, r := reqs[..|reqs| - 1], reqs[|reqs| - 1];
      UnboundedLog(window, front, k, limit);
      UnboundedStarted(window, front);
      assert LastTime(front) <= r.now;
      CountKeepsLog(LogUnbounded(window, front, k), RunUnbounded(window, front), window, r, k, limit);
      LogStep(window, front, r, k, limit);
      assert front + [r] == reqs;
    }
  }

  lemma LogStep(window: nat, front: seq<Request>, r: Request, k: string, limit: nat)
    requires var (next, verdict) := Count(RunUnbounded(window, front), window, r);
             LogInv(LogUnbounded(window, front, k) + if r.key == k && verdict.None? then [r.now] else [], next, k, window, limit)
    ensures LogInv(LogUnbounded(window, front + [r], k), RunUnbounded(window, front + [r]), k, window, limit)
  {
    Appended(window, front, r, k);
  }

  lemma {:induction false} PassedOk(c: Config, reqs: seq<Request>, k: string, limit: nat)
    requires Timed(reqs) && LimitedTo(reqs, k, limit)
    ensures Timed(Passed(c, reqs)) && LimitedTo(Passed(c, reqs), k, limit) && NoLater(Passed(c, reqs), LastTime(reqs))
  {
    if |reqs| > 0 {
      var n := |reqs| - 1;
      PassedOk(c, reqs[..n], k, limit);
      assert LastTime(reqs[..n]) <= reqs[n].now;
    }
  }

  ghost predicate NoLater(reqs: seq<Request>, now: Time) { forall i | 0 <= i < |reqs| :: reqs[i].now <= now }

  /** The bounded limiter admits exactly what the unbounded one admits of the requests that passed. */
  lemma {:induction false} SameLog(c: Config, reqs: seq<Request>, k: string)
    requires Timed(reqs)
    ensures Log(c, reqs, k) == LogUnbounded(c.window, Passed(c, reqs), k)
  {
    if |reqs| > 0 {
      var n := |reqs| - 1;
      var front, passed := reqs[..n], Passed(c, reqs[..n]);
      SameLog(c, front, k);
      RunRefines(c, front);
      AllowRefines(Run(c, front), RunUnbounded(c.window, passed), c, reqs[n], LastTime(front));
      if Full(Run(c, front), c, reqs[n]) {
        assert Passed(c, reqs) == passed;
      } else {
        assert Passed(c, reqs) == passed + [reqs[n]];
        Appended(c.window, passed, reqs[n], k);
      }
    }
  }

  lemma UnboundedAtMostTwice(window: nat, reqs: seq<Request>, k: string, limit: nat, lo: int)
    requires Timed(reqs) && LimitedTo(reqs, k, limit)
    ensures InWindow(LogUnbounded(window, reqs, k), lo, window) <= 2 * limit
  {
    if window > 0 { UnboundedLog(window, reqs, k, limit); }
  }

  /** Any half-open interval one window long admits at most twice the limit of a key. */
  lemma AtMostTwiceTheLimit(c: Config, reqs: seq<Request>, k: string, limit: nat, lo: int)
    requires Timed(reqs) && LimitedTo(reqs, k, limit)
    ensures InWindow(Log(c, reqs, k), lo, c.window) <= 2 * limit
  {
    SameLog(c, reqs, k);
    PassedOk(c, reqs, k, limit);
    UnboundedAtMostTwice(c.window, Passed(c, reqs), k, limit, lo);
  }

  // ---- Nobody is refused without cause ----

  lemma {:induction false} SomeLimit(reqs: seq<Request>, k: string) returns (limit: nat)
    ensures LimitedTo(reqs, k, limit)
  {
    if |reqs| == 0 {
      limit := 0;
    } else {
      limit := SomeLimit(reqs[..|reqs| - 1], k);
      limit := Max(limit, reqs[|reqs| - 1].limit);
    }
  }

  /** When the window that a request counts against began. */
  function Began(b: Buckets, window: nat, r: Request): Time
  {
    if r.key in b && r.now < b[r.key].started + window then b[r.key].started else r.now
  }

  /** A request that finds room is admitted exactly when its key was admitted fewer times than the limit
      since its current window began; the window begins with the request if the last one is over. */
  lemma AdmittedIff(c: Config, reqs: seq<Request>, r: Request)
    requires c.window > 0 && Timed(reqs + [r]) && !Full(Run(c, reqs), c, r)
    ensures var b := Run(c, reqs); Allow(b, c, r).1.None? <==> From(Log(c, reqs, r.key), Began(b, c.window, r)) < r.limit
  {
    TimedFront(reqs, r);
    if |reqs| > 0 { assert (reqs + [r])[|reqs| - 1].now <= (reqs + [r])[|reqs|].now; }
    RunRefines(c, reqs);
    VerdictsAgree(c, reqs, r);
    var limit := PassedLog(c, reqs, r.key);
    CountIff(RunUnbounded(c.window, Passed(c, reqs)), Log(c, reqs, r.key), c.window, r, limit);
  }

  lemma CountIff(u: Buckets, log: seq<Time>, window: nat, r: Request, limit: nat)
    requires window > 0 && LogInv(log, u, r.key, window, limit) && Started(u, r.now)
    ensures Count(u, window, r).1.None? <==> From(log, Current(u, window, r).started) < r.limit
  {
    if r.key in u && Since(r.now, u[r.key].started) >= window { FromMono(log, u[r.key].started + window, r.now); }
  }

  lemma PassedLog(c: Config, reqs: seq<Request>, k: string) returns (limit: nat)
    requires c.window > 0 && Timed(reqs)
    ensures LogInv(Log(c, reqs, k), RunUnbounded(c.window, Passed(c, reqs)), k, c.window, limit)
  {
    limit := SomeLimit(reqs, k);
    SameLog(c, reqs, k);
    PassedOk(c, reqs, k, limit);
    UnboundedLog(c.window, Passed(c, reqs), k, limit);
  }

  lemma TimedFront(reqs: seq<Request>, r: Request)
    requires Timed(reqs + [r])
    ensures Timed(reqs)
  {
    forall i, j | 0 <= i < j < |reqs| ensures reqs[i].now <= reqs[j].now {
      assert (reqs + [r])[i].now <= (reqs + [r])[j].now;
    }
  }

  /** What the answer to a refused request means: one second past it the same request is admitted, and
      before it, unless it is the minimum of one second, it is still refused. */
  lemma WaitIsEnough(b: Buckets, c: Config, r: Request, wait: nat, later: Time)
    requires !Full(b, c, r) && Started(b, r.now) && Allow(b, c, r).1 == Some(wait) && r.limit > 0 && later >= r.now
    ensures wait >= 1
    ensures later >= r.now + (wait + 1) * SECOND ==> Allow(Allow(b, c, r).0, c, r.(now := later)).1.None?
    ensures wait > 1 && later < r.now + wait * SECOND ==> Allow(Allow(b, c, r).0, c, r.(now := later)).1.Some?
  {
  }
}
