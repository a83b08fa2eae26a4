/**
 * The fixed-window limiter: its Redis script, the result built from the reply, and what that bounds over whole
 * traces.
 */
module RateLimit {
  import opened Basics
  import opened RedisKeys

  /** A counter key. Only an outside hand leaves one without expiry. */
  datatype Counter = Counter(count: nat, expiresAt: Option<nat>)

  datatype Config = Config(limit: int, windowNanos: int)

  datatype AllowResult = AllowResult(allowed: bool, limit: int, remaining: int, resetAt: nat, retryAfter: nat)

  /** Redis still answers for a key at its very expiry instant. */
  predicate CounterLive(c: Counter, at: nat) {
    c.expiresAt.None? || at <= c.expiresAt.value
  }

  /** Duration.Milliseconds truncates towards zero, and anything below one counts as one. */
  function WindowMillis(config: Config): nat {
    if config.windowNanos < 1_000_000 then 1 else config.windowNanos / 1_000_000
  }

  /** The window in whole milliseconds of a million nanoseconds each, rounded down and never less than one. */
  lemma WindowIsItsDuration(config: Config)
    ensures WindowMillis(config) >= 1
    ensures config.windowNanos >= 1_000_000 ==> WindowMillis(config) * 1_000_000 <= config.windowNanos < (WindowMillis(config) + 1) * 1_000_000
    ensures config.windowNanos < 1_000_000 ==> WindowMillis(config) == 1
  {
  }

  /** The counter after one more request. */
  function Hit(c: Option<Counter>, at: nat, window: nat): Counter {
    if c.None? || !CounterLive(c.value, at) || c.value.count == 0 then Counter(1, Some(at + window))
    else if c.value.expiresAt.None? then Counter(c.value.count + 1, Some(at + window))
    else Counter(c.value.count + 1, c.value.expiresAt)
  }

  /** math.Ceil of a duration in seconds. */
  function CeilSeconds(ms: nat): nat {
    (ms + 999) / 1000
  }

  function Clip(x: int): nat {
    if x < 0 then 0 else x
  }

  /**
   * A window is as long as it was asked for: the first hit opens it, a counter that was left without expiry is
   * given one, and the last instant of the window is still within it.
   */
  lemma WindowLasts(c: Option<Counter>, at: nat, window: nat)
    requires c.None? || c.value.expiresAt.None? || c.value.expiresAt.value < at
    ensures Hit(c, at, window).expiresAt == Some(at + window)
    ensures c.None? || c.value.expiresAt.Some? ==> Hit(c, at, window).count == 1
    ensures CounterLive(Hit(c, at, window), at + window) && !CounterLive(Hit(c, at, window), at + window + 1)
  {
  }

  class Limiter {
    var counters: map<string, Counter>

    constructor ()
      ensures counters == map[]
    {
      counters := map[];
    }

    /** INCR, PEXPIRE on the first hit, PTTL, and a repaired expiry if there was none. */
    method AllowScript(redisKey: string, at: nat, windowMillis: nat) returns (count: nat, ttl: nat)
      requires windowMillis >= 1
      modifies this
      ensures counters == old(counters)[redisKey := Hit(Lookup(old(counters), redisKey), at, windowMillis)]
      ensures count == counters[redisKey].count
      ensures counters[redisKey].expiresAt == Some(at + ttl)
    {
      var found := Lookup(counters, redisKey);
      var entry := if found.Some? && CounterLive(found.value, at) then found.value else Counter(0, None);
      entry := entry.(count := entry.count + 1);
      count := entry.count;
      if count == 1 {
        entry := entry.(expiresAt := Some(at + windowMillis));
      }
      var pttl: int := if entry.expiresAt.None? then -1 else entry.expiresAt.value - at;
      if pttl < 0 {
        entry := entry.(expiresAt := Some(at + windowMillis));
        pttl := windowMillis;
      }
      ttl := pttl;
      counters := counters[redisKey := entry];
    }

    /**
     * One request: it touches its own bucket only, and says what the window still holds. `at` is Redis's clock,
     * `now` the API's afterwards.
     */
    method Allow(key: string, config: Config, at: nat, now: nat) returns (result: AllowResult)
      requires at <= now
      modifies this
      ensures var bucket := RateLimitKey(key);
              var c := Hit(Lookup(old(counters), bucket), at, WindowMillis(config));
              && counters == old(counters)[bucket := c]
              && result.limit == config.limit
              && (result.allowed <==> c.count <= config.limit)
              && (result.allowed ==> result.remaining + c.count == config.limit)
              && (!result.allowed ==> result.remaining == 0)
              && c.expiresAt.Some? && at <= c.expiresAt.value
              && result.retryAfter == CeilSeconds(c.expiresAt.value - at)
              && c.expiresAt.value <= result.resetAt == c.expiresAt.value + (now - at)
    {
      var windowMillis := WindowMillis(config);
      var count, ttlMillis := AllowScript(RateLimitKey(key), at, windowMillis);
      var resetAt := now + ttlMillis;
      var allowed := count <= config.limit;
      var remaining := config.limit - count;
      if remaining < 0 {
        remaining := 0;
      }
      result := AllowResult(allowed, config.limit, remaining, resetAt, CeilSeconds(ttlMillis));
    }

    method Reset(key: string)
      modifies this
      ensures counters == old(counters) - {RateLimitKey(key)}
    {
      counters := counters - {RateLimitKey(key)};
    }
  }

  // ---- Traces of one bucket under one config ----

  ghost predicate Ordered(times: seq<nat>) {
    forall i, j :: 0 <= i < j < |times| ==> times[i] <= times[j]
  }

  /** The counter after a whole trace. */
  function After(c: Option<Counter>, times: seq<nat>, window: nat): Option<Counter>
    decreases |times|
  {
    if times == [] then c else After(Some(Hit(c, times[0], window)), times[1..], window)
  }

  /** How many requests of the trace were allowed within [lo, hi]. */
  function AllowedIn(c: Option<Counter>, times: seq<nat>, window: nat, limit: int, lo: nat, hi: nat): nat
    decreases |times|
  {
    if times == [] then 0
    else
      var c' := Hit(c, times[0], window);
      (if lo <= times[0] <= hi && c'.count <= limit then 1 else 0) + AllowedIn(Some(c'), times[1..], window, limit, lo, hi)
  }

  lemma {:induction false} NoneAfter(c: Option<Counter>, times: seq<nat>, window: nat, limit: int, lo: nat, hi: nat)
    requires Ordered(times) && (times != [] ==> hi < times[0])
    ensures AllowedIn(c, times, window, limit, lo, hi) == 0
    decreases |times|
  {
    if times != [] {
      NoneAfter(Some(Hit(c, times[0], window)), times[1..], window, limit, lo, hi);
    }
  }

  /** As long as the running window lasts, it lets through what its counter leaves. */
  lemma {:induction false} RestOfWindow(c: Counter, times: seq<nat>, window: nat, limit: int, lo: nat, hi: nat)
    requires Ordered(times) && c.count >= 1 && c.expiresAt.Some? && hi <= c.expiresAt.value
    ensures AllowedIn(Some(c), times, window, limit, lo, hi) <= Clip(limit - c.count)
    decreases |times|
  {
    if times != [] {
      if times[0] <= hi {
        RestOfWindow(Hit(Some(c), times[0], window), times[1..], window, limit, lo, hi);
      } else {
        NoneAfter(Some(c), times, window, limit, lo, hi);
      }
    }
  }

  /**
   * From `lo` on, the running window and at most one whole further one reach into an interval of one window's
   * length.
   */
  lemma {:induction false} TwoWindows(c: Counter, times: seq<nat>, window: nat, limit: int, lo: nat)
    requires Ordered(times) && c.count >= 1 && (times != [] ==> lo <= times[0])
    ensures AllowedIn(Some(c), times, window, limit, lo, lo + window) <= Clip(limit - c.count) + Clip(limit)
    decreases |times|
  {
    if times != [] {
      var c' := Hit(Some(c), times[0], window);
      if CounterLive(c, times[0]) && c.expiresAt.Some? {
        TwoWindows(c', times[1..], window, limit, lo);
      } else {
        RestOfWindow(c', times[1..], window, limit, lo, lo + window);
      }
    }
  }

  lemma {:induction false} SlidingFrom(c: Counter, times: seq<nat>, window: nat, limit: int, lo: nat)
    requires Ordered(times) && c.count >= 1
    ensures AllowedIn(Some(c), times, window, limit, lo, lo + window) <= Clip(limit - 1) + Clip(limit)
    decreases |times|
  {
    if times != [] && times[0] < lo {
      SlidingFrom(Hit(Some(c), times[0], window), times[1..], window, limit, lo);
    } else {
      TwoWindows(c, times, window, limit, lo);
    }
  }

  /**
   * Over any trace, whatever counter it starts from, an interval as long as the window, both
   * ends included, contains fewer than twice the limit of allowed requests.
   */
  lemma SlidingBound(c: Option<Counter>, times: seq<nat>, window: nat, limit: int, lo: nat)
    requires Ordered(times) && (c.Some? ==> c.value.count >= 1)
    ensures AllowedIn(c, times, window, limit, lo, lo + window) <= Clip(2 * limit - 1)
  {
    if c.Some? {
      SlidingFrom(c.value, times, window, limit, lo);
    } else if times != [] {
      var c' := Hit(None, times[0], window);
      if times[0] < lo {
        SlidingFrom(c', times[1..], window, limit, lo);
      } else {
        RestOfWindow(c', times[1..], window, limit, lo, lo + window);
      }
    }
  }

  function Repeat(t: nat, n: nat): (times: seq<nat>)
    ensures |times| == n && forall i :: 0 <= i < n ==> times[i] == t
  {
    if n == 0 then [] else [t] + Repeat(t, n - 1)
  }

  /** Requests at one instant within the running window: exactly what is left of it gets through, then nothing. */
  lemma {:induction false} Burst(c: Counter, t: nat, n: nat, rest: seq<nat>, window: nat, limit: nat, lo: nat, hi: nat)
    requires c.count >= 1 && c.expiresAt.Some? && lo <= t <= hi && t <= c.expiresAt.value
    ensures AllowedIn(Some(c), Repeat(t, n) + rest, window, limit, lo, hi)
         == (if n <= Clip(limit - c.count) then n else Clip(limit - c.count))
            + AllowedIn(Some(Counter(c.count + n, c.expiresAt)), rest, window, limit, lo, hi)
    decreases n
  {
    if n == 0 {
      assert Repeat(t, n) + rest == rest;
    } else {
      assert (Repeat(t, n) + rest)[1..] == Repeat(t, n - 1) + rest;
      Burst(Hit(Some(c), t, window), t, n - 1, rest, window, limit, lo, hi);
    }
  }

  lemma OrderedThree(a: nat, n: nat, b: nat, m: nat, c: nat)
    requires a <= b <= c
    ensures Ordered([a] + (Repeat(b, n) + Repeat(c, m)))
  {
    var times := [a] + (Repeat(b, n) + Repeat(c, m));
    assert forall i :: 0 <= i < |times| ==> times[i] == if i == 0 then a else if i <= n then b else c;
  }

  /**
   * The bound is met, for every limit and window: one request, the rest of the limit as the window ends, and the
   * whole limit right after.
   */
  lemma SlidingBoundIsTight(window: nat, limit: nat)
    requires window >= 1 && limit >= 1
    ensures exists times :: Ordered(times) && AllowedIn(None, times, window, limit, window, window + window) == 2 * limit - 1
  {
    var second := Repeat(window + 1, limit);
    var times := [0] + (Repeat(window, limit - 1) + second);
    OrderedThree(0, limit - 1, window, limit, window + 1);
    assert times[1..] == Repeat(window, limit - 1) + second;
    Burst(Counter(1, Some(window)), window, limit - 1, second, window, limit, window, window + window);
    NextWindow(Counter(limit, Some(window)), window, limit);
  }

  /** Right after a window the whole limit gets through at once. */
  lemma NextWindow(c: Counter, window: nat, limit: nat)
    requires c.expiresAt == Some(window) && window >= 1 && limit >= 1
    ensures AllowedIn(Some(c), Repeat(window + 1, limit), window, limit, window, window + window) == limit
  {
    var rest := Repeat(window + 1, limit - 1);
    var c' := Hit(Some(c), window + 1, window);
    assert Repeat(window + 1, limit)[1..] == rest == rest + [];
    Burst(c', window + 1, limit - 1, [], window, limit, window, window + window);
  }

  // ---- Within one window ----

  /** No window is running for the first of these requests, and they all come before the one it opens has ended. */
  ghost predicate OneWindow(c: Option<Counter>, times: seq<nat>, window: nat) {
    && Ordered(times) && times != []
    && (c.Some? ==> !CounterLive(c.value, times[0]))
    && times[|times| - 1] <= times[0] + window
  }

  lemma {:induction false} CountInWindow(c: Option<Counter>, times: seq<nat>, window: nat)
    requires OneWindow(c, times, window)
    ensures After(c, times, window) == Some(Counter(|times|, Some(times[0] + window)))
    decreases |times|
  {
    RunningCount(Hit(c, times[0], window), times[1..], window);
  }

  lemma {:induction false} RunningCount(c: Counter, times: seq<nat>, window: nat)
    requires c.count >= 1 && c.expiresAt.Some? && forall i :: 0 <= i < |times| ==> times[i] <= c.expiresAt.value
    ensures After(Some(c), times, window) == Some(Counter(c.count + |times|, c.expiresAt))
    decreases |times|
  {
    if times != [] {
      RunningCount(Hit(Some(c), times[0], window), times[1..], window);
    }
  }

  /**
   * Of the requests of one window exactly the first `limit` are allowed, and what remains plus what was allowed is
   * always the limit.
   */
  lemma FirstLimitAllowed(c: Option<Counter>, times: seq<nat>, window: nat, limit: nat, n: nat)
    requires OneWindow(c, times, window) && 1 <= n <= |times|
    ensures After(c, times[..n], window) == Some(Counter(n, Some(times[0] + window)))
    ensures AllowedIn(c, times[..n], window, limit, times[0], times[0] + window) == if n <= limit then n else limit
    ensures Clip(limit - n) + AllowedIn(c, times[..n], window, limit, times[0], times[0] + window) == limit
  {
    CountInWindow(c, times[..n], window);
    AllowedInWindow(Hit(c, times[0], window), times[..n][1..], window, limit, times[0], times[0] + window);
  }

  lemma {:induction false} AllowedInWindow(c: Counter, times: seq<nat>, window: nat, limit: nat, lo: nat, hi: nat)
    requires c.count >= 1 && c.expiresAt.Some? && hi <= c.expiresAt.value
    requires forall i :: 0 <= i < |times| ==> lo <= times[i] <= hi
    ensures AllowedIn(Some(c), times, window, limit, lo, hi) == if |times| <= Clip(limit - c.count) then |times| else Clip(limit - c.count)
    decreases |times|
  {
    if times != [] {
      AllowedInWindow(Hit(Some(c), times[0], window), times[1..], window, limit, lo, hi);
    }
  }

  // ---- Retry-After ----

  /**
   * Waiting the advertised seconds ends the window exactly when the TTL is not a whole number
   * of seconds: otherwise the wait hits the expiry instant, at which Redis still has the key.
   * A second less never ends it, a millisecond more always does.
   */
  lemma RetryAfterEndsWindow(c: Counter, at: nat)
    requires c.expiresAt.Some? && at <= c.expiresAt.value
    ensures var ttl := c.expiresAt.value - at; var wait := CeilSeconds(ttl) * 1000;
            && (!CounterLive(c, at + wait) <==> ttl % 1000 != 0)
            && !CounterLive(c, at + wait + 1)
            && (wait >= 1000 ==> CounterLive(c, at + wait - 1000))
  {
  }

  /**
   * The next lone request of a refused caller, sent after exactly the advertised wait, is allowed if and only if
   * the TTL was not whole seconds.
   */
  lemma RetriedRequest(c: Counter, at: nat, window: nat, limit: nat)
    requires c.expiresAt.Some? && at <= c.expiresAt.value && c.count > limit >= 1
    ensures var ttl := c.expiresAt.value - at; var again := at + CeilSeconds(ttl) * 1000;
            Hit(Some(c), again, window).count <= limit <==> ttl % 1000 != 0
  {
    RetryAfterEndsWindow(c, at);
  }

  /**
   * The failing case is real: a refusal at the expiry instant itself says "retry after 0 seconds", and the retry
   * is refused.
   */
  lemma RetryAfterZero(window: nat, limit: nat)
    requires limit >= 1
    ensures var c := Counter(limit + 1, Some(window));
            CeilSeconds(c.expiresAt.value - window) == 0 && !(Hit(Some(c), window, window).count <= limit)
  {
  }

  // ---- Buckets ----

  function BucketKey(endpoint: string, clientIP: string): string {
    endpoint + ":" + clientIP
  }

  /**
   * Endpoint names hold no colon, so two requests share a bucket only if they share endpoint and address, even
   * when the address holds colons.
   */
  lemma BucketsApart(endpoint: string, ip: string, endpoint': string, ip': string)
    requires ':' !in endpoint && ':' !in endpoint'
    requires RateLimitKey(BucketKey(endpoint, ip)) == RateLimitKey(BucketKey(endpoint', ip'))
    ensures endpoint == endpoint' && ip == ip'
  {
    var key, key' := BucketKey(endpoint, ip), BucketKey(endpoint', ip');
    PrefixInjective("ratelimit:", key, key');
    assert key[|endpoint|] == ':' && key'[|endpoint'|] == ':';
    assert endpoint == key[..|endpoint|] && endpoint' == key'[..|endpoint'|];
    assert ip == key[|endpoint| + 1..] && ip' == key'[|endpoint'| + 1..];
  }
}
