/** The per-identity token bucket with idle eviction (pkg/httpsrv/ratelimit.go). Times are integer
    nanoseconds and tokens are exact reals; the clock does not run backwards. */
module RateLimiter {
  import opened Json
  import opened Calls

  datatype Config = Config(burst: int, refill: int, maxIdle: nat)

  // portal_api.go:94-97, ratelimit.go:44
  const SECOND := 1_000_000_000
  const REPLAY := Config(5, 12 * SECOND, 600 * SECOND)

  datatype Bucket = Bucket(tokens: real, lastSeen: int)

  /** lastSweep is None while it is Go's zero time, which is further back than any maxIdle. */
  datatype State = State(buckets: map<string, Bucket>, lastSweep: Option<int>)

  const Empty := State(map[], None)

  // ---------- one call ----------

  function Fresh(cfg: Config, now: int): Bucket {
    Bucket(cfg.burst as real, now)
  }

  function Min(a: real, b: real): real {
    if a > b then b else a
  }

  function Refilled(cfg: Config, b: Bucket, now: int): real {
    if now - b.lastSeen > 0 && cfg.refill > 0
    then Min(b.tokens + (now - b.lastSeen) as real / cfg.refill as real, cfg.burst as real)
    else b.tokens
  }

  predicate Permits(cfg: Config, b: Bucket, now: int) {
    Refilled(cfg, b, now) >= 1.0
  }

  function Spend(cfg: Config, b: Bucket, now: int): Bucket {
    var t := Refilled(cfg, b, now);
    Bucket(if t < 1.0 then t else t - 1.0, now)
  }

  function Sweep(cfg: Config, s: State, now: int): State {
    if s.lastSweep.Some? && now - s.lastSweep.value < cfg.maxIdle then s
    else State(map k | k in s.buckets && now - s.buckets[k].lastSeen <= cfg.maxIdle :: s.buckets[k], Some(now))
  }

  function BucketOf(cfg: Config, buckets: map<string, Bucket>, key: string, now: int): Bucket {
    if key in buckets then buckets[key] else Fresh(cfg, now)
  }

  predicate Allows(cfg: Config, s: State, key: string, now: int) {
    key == "" || Permits(cfg, BucketOf(cfg, Sweep(cfg, s, now).buckets, key, now), now)
  }

  function AfterAllow(cfg: Config, s: State, key: string, now: int): State {
    if key == "" then s
    else
      var g := Sweep(cfg, s, now);
      g.(buckets := g.buckets[key := Spend(cfg, BucketOf(cfg, g.buckets, key, now), now)])
  }

  /** Go's conversion of a float to a Duration drops the fraction. */
  function Trunc(x: real): int {
    if x >= 0.0 then x.Floor else -((-x).Floor)
  }

  /** Nanoseconds until a bucket below one token holds one. */
  function Missing(cfg: Config, b: Bucket): real {
    (1.0 - b.tokens) * cfg.refill as real
  }

  function RetryAfter(cfg: Config, buckets: map<string, Bucket>, key: string): int {
    if key == "" || key !in buckets || buckets[key].tokens >= 1.0 then 0
    else Trunc(Missing(cfg, buckets[key]))
  }

  /** identityRateLimiter. */
  class Limiter {
    const cfg: Config
    var buckets: map<string, Bucket>
    var lastSweep: Option<int>

    function View(): State
      reads this
    {
      State(buckets, lastSweep)
    }

    constructor (burst: int, refill: int)
      ensures cfg == Config(burst, refill, 600_000_000_000) && View() == Empty
    {
      cfg := Config(burst, refill, 600 * SECOND);
      buckets, lastSweep := map[], None;
    }

    method Collect(now: int)
      modifies this
      ensures View() == Sweep(cfg, old(View()), now)
      ensures lastSweep == Some(now) || (buckets == old(buckets) && lastSweep == old(lastSweep))
    {
      if lastSweep.Some? && now - lastSweep.value < cfg.maxIdle {
        return;
      }
      ghost var was := buckets;
      var keys := buckets.Keys;
      while keys != {}
        invariant keys <= buckets.Keys <= was.Keys
        invariant forall k | k in buckets :: buckets[k] == was[k]
        invariant forall k | k in was && k !in keys :: k in buckets <==> now - was[k].lastSeen <= cfg.maxIdle
        invariant lastSweep == old(lastSweep)
        decreases keys
      {
        var k :| k in keys;
        keys := keys - {k};
        if now - buckets[k].lastSeen > cfg.maxIdle {
          buckets := buckets - {k};
        }
      }
      lastSweep := Some(now);
    }

    method Allow(key: string, now: int) returns (ok: bool)
      modifies this
      ensures ok == Allows(cfg, old(View()), key, now)
      ensures View() == AfterAllow(cfg, old(View()), key, now)
    {
      if key == "" {
        return true;
      }
      Collect(now);
      var b := if key in buckets then buckets[key] else Bucket(cfg.burst as real, now);
      var tokens := b.tokens;
      var elapsed := now - b.lastSeen;
      if elapsed > 0 && cfg.refill > 0 {
        tokens := tokens + elapsed as real / cfg.refill as real;
        if tokens > cfg.burst as real {
          tokens := cfg.burst as real;
        }
      }
      if tokens < 1.0 {
        buckets := buckets[key := Bucket(tokens, now)];
        return false;
      }
      buckets := buckets[key := Bucket(tokens - 1.0, now)];
      return true;
    }

    method Retry(key: string) returns (wait: int)
      ensures wait == RetryAfter(cfg, buckets, key)
    {
      if key == "" {
        return 0;
      }
      if key !in buckets || buckets[key].tokens >= 1.0 {
        return 0;
      }
      var missing := 1.0 - buckets[key].tokens;
      return Trunc(missing * cfg.refill as real);
    }
  }

  // ---------- runs ----------

  function Decisions(cfg: Config, s: State, calls: seq<Call>): (r: seq<bool>)
    ensures |r| == |calls|
    decreases |calls|
  {
    if calls == [] then []
    else [Allows(cfg, s, calls[0].key, calls[0].at)]
         + Decisions(cfg, AfterAllow(cfg, s, calls[0].key, calls[0].at), calls[1..])
  }

  /** The limiter's state after a run. */
  function Run(cfg: Config, s: State, calls: seq<Call>): State
    decreases |calls|
  {
    if calls == [] then s else Run(cfg, AfterAllow(cfg, s, calls[0].key, calls[0].at), calls[1..])
  }

  /** The limiter that never deletes a bucket. */
  function Remember(cfg: Config, m: map<string, Bucket>, c: Call): map<string, Bucket> {
    if c.key == "" then m else m[c.key := Spend(cfg, BucketOf(cfg, m, c.key, c.at), c.at)]
  }

  predicate ForeverAllows(cfg: Config, m: map<string, Bucket>, c: Call) {
    c.key == "" || Permits(cfg, BucketOf(cfg, m, c.key, c.at), c.at)
  }

  function ForeverDecisions(cfg: Config, m: map<string, Bucket>, calls: seq<Call>): (r: seq<bool>)
    ensures |r| == |calls|
    decreases |calls|
  {
    if calls == [] then []
    else [ForeverAllows(cfg, m, calls[0])] + ForeverDecisions(cfg, Remember(cfg, m, calls[0]), calls[1..])
  }

  // ---------- eviction is invisible, exactly under this condition ----------

  /** An evicted bucket would have been full again: one nanosecond past maxIdle refills the whole
      burst. A limiter without burst refuses everyone anyway. */
  predicate EvictionSafe(cfg: Config) {
    cfg.burst <= 0 || (cfg.refill > 0 && cfg.maxIdle + 1 >= cfg.burst * cfg.refill)
  }

  lemma QuotientAtLeast(e: int, r: int, b: int)
    requires r > 0
    ensures e as real / r as real >= b as real <==> e >= b * r
  {
    var q := e as real / r as real;
    assert q * r as real == e as real;
    assert (b * r) as real == b as real * r as real;
    if q >= b as real {
      assert q * r as real >= b as real * r as real;
    } else {
      assert q * r as real < b as real * r as real;
    }
  }

  lemma QuotientSign(e: int, r: int)
    requires r > 0 && e >= 0
    ensures e as real / r as real >= 0.0
  {
    QuotientAtLeast(e, r, 0);
  }

  /** Every remembered bucket is in range and in the past. */
  ghost predicate InRange(cfg: Config, m: map<string, Bucket>, now: int) {
    forall k | k in m :: 0.0 <= m[k].tokens <= cfg.burst as real && m[k].lastSeen <= now
  }

  lemma SpendInRange(cfg: Config, b: Bucket, now: int)
    requires cfg.burst >= 0 && 0.0 <= b.tokens <= cfg.burst as real && b.lastSeen <= now
    ensures 0.0 <= Spend(cfg, b, now).tokens <= cfg.burst as real
  {
    if now - b.lastSeen > 0 && cfg.refill > 0 {
      QuotientSign(now - b.lastSeen, cfg.refill);
    }
  }

  lemma AllowInRange(cfg: Config, s: State, c: Call)
    requires cfg.burst >= 0 && InRange(cfg, s.buckets, c.at)
    ensures InRange(cfg, AfterAllow(cfg, s, c.key, c.at).buckets, c.at)
  {
    var g := Sweep(cfg, s, c.at);
    assert InRange(cfg, g.buckets, c.at);
    SpendInRange(cfg, BucketOf(cfg, g.buckets, c.key, c.at), c.at);
  }

  /** Tokens stay within [0, burst] in every run, evictions included. */
  lemma {:induction false} TokensStayInRange(cfg: Config, s: State, calls: seq<Call>, start: int)
    requires cfg.burst >= 0 && InRange(cfg, s.buckets, start) && Monotone(calls)
    requires calls != [] ==> start <= calls[0].at
    ensures InRange(cfg, Run(cfg, s, calls).buckets, if calls == [] then start else calls[|calls| - 1].at)
    decreases |calls|
  {
    if calls != [] {
      var c := calls[0];
      AllowInRange(cfg, s, c);
      TokensStayInRange(cfg, AfterAllow(cfg, s, c.key, c.at), calls[1..], c.at);
    }
  }

  lemma RememberInRange(cfg: Config, m: map<string, Bucket>, c: Call)
    requires cfg.burst >= 0 && InRange(cfg, m, c.at)
    ensures InRange(cfg, Remember(cfg, m, c), c.at)
  {
    SpendInRange(cfg, BucketOf(cfg, m, c.key, c.at), c.at);
  }

  lemma {:induction false} MemoryInRange(cfg: Config, m: map<string, Bucket>, calls: seq<Call>, start: int)
    requires cfg.burst >= 0 && InRange(cfg, m, start) && Monotone(calls)
    requires calls != [] ==> start <= calls[0].at
    ensures InRange(cfg, RunForever(cfg, m, calls), if calls == [] then start else calls[|calls| - 1].at)
    decreases |calls|
  {
    if calls != [] {
      RememberInRange(cfg, m, calls[0]);
      MemoryInRange(cfg, Remember(cfg, m, calls[0]), calls[1..], calls[0].at);
    }
  }

  function RunForever(cfg: Config, m: map<string, Bucket>, calls: seq<Call>): map<string, Bucket>
    decreases |calls|
  {
    if calls == [] then m else RunForever(cfg, Remember(cfg, m, calls[0]), calls[1..])
  }

  /** What the evicting limiter still knows is what the other one knows, and what it forgot has
      been idle for longer than maxIdle. */
  ghost predicate Simulates(cfg: Config, s: State, m: map<string, Bucket>, now: int) {
    && (forall k | k in s.buckets :: k in m && m[k] == s.buckets[k])
    && (forall k | k in m && k !in s.buckets :: m[k].lastSeen + cfg.maxIdle < now)
    && InRange(cfg, m, now)
  }

  lemma ForgottenIsFresh(cfg: Config, b: Bucket, now: int)
    requires EvictionSafe(cfg) && cfg.burst >= 1
    requires 0.0 <= b.tokens && b.lastSeen + cfg.maxIdle < now
    ensures Spend(cfg, b, now) == Spend(cfg, Fresh(cfg, now), now)
    ensures Permits(cfg, b, now) == Permits(cfg, Fresh(cfg, now), now)
  {
    QuotientAtLeast(now - b.lastSeen, cfg.refill, cfg.burst);
  }

  lemma SimulationStep(cfg: Config, s: State, m: map<string, Bucket>, before: int, c: Call)
    requires EvictionSafe(cfg) && cfg.burst >= 1
    requires Simulates(cfg, s, m, before) && before <= c.at
    ensures Allows(cfg, s, c.key, c.at) == ForeverAllows(cfg, m, c)
    ensures Simulates(cfg, AfterAllow(cfg, s, c.key, c.at), Remember(cfg, m, c), c.at)
  {
    var g := Sweep(cfg, s, c.at);
    assert Simulates(cfg, g, m, c.at);
    if c.key != "" {
      if c.key in m && c.key !in g.buckets {
        ForgottenIsFresh(cfg, m[c.key], c.at);
      }
      SpendInRange(cfg, BucketOf(cfg, m, c.key, c.at), c.at);
    }
  }

  lemma {:induction false} SimulationRun(cfg: Config, s: State, m: map<string, Bucket>, before: int, calls: seq<Call>)
    requires EvictionSafe(cfg) && cfg.burst >= 1 && Monotone(calls)
    requires Simulates(cfg, s, m, before) && (calls != [] ==> before <= calls[0].at)
    ensures Decisions(cfg, s, calls) == ForeverDecisions(cfg, m, calls)
    decreases |calls|
  {
    if calls != [] {
      var c := calls[0];
      SimulationStep(cfg, s, m, before, c);
      SimulationRun(cfg, AfterAllow(cfg, s, c.key, c.at), Remember(cfg, m, c), c.at, calls[1..]);
    }
  }

  ghost predicate Poor(cfg: Config, m: map<string, Bucket>) {
    forall k | k in m :: m[k].tokens <= cfg.burst as real
  }

  lemma {:induction false} NoBurstNoCalls(cfg: Config, s: State, m: map<string, Bucket>, calls: seq<Call>)
    requires cfg.burst <= 0 && Poor(cfg, s.buckets) && Poor(cfg, m)
    ensures Decisions(cfg, s, calls) == ForeverDecisions(cfg, m, calls)
    decreases |calls|
  {
    if calls != [] {
      var c := calls[0];
      NoBurstNoCalls(cfg, AfterAllow(cfg, s, c.key, c.at), Remember(cfg, m, c), calls[1..]);
    }
  }

  /** Under that condition every run gets the decisions of the limiter that never forgets. */
  lemma EvictionIsInvisible(cfg: Config, calls: seq<Call>)
    requires EvictionSafe(cfg) && Monotone(calls)
    ensures Decisions(cfg, Empty, calls) == ForeverDecisions(cfg, map[], calls)
  {
    if cfg.burst <= 0 {
      NoBurstNoCalls(cfg, Empty, map[], calls);
    } else {
      SimulationRun(cfg, Empty, map[], if calls == [] then 0 else calls[0].at, calls);
    }
  }

  lemma ReplayLimiterIsEvictionSafe()
    ensures REPLAY == Config(5, 12_000_000_000, 600_000_000_000) && EvictionSafe(REPLAY)
  {
  }

  // ---------- otherwise it shows: a full burst, a pause of maxIdle + 1, another full burst ----------

  const KEY := "k"

  function Burst(n: nat, at: int): (r: seq<Call>)
    ensures |r| == n
  {
    if n == 0 then [] else [Call(KEY, at)] + Burst(n - 1, at)
  }

  lemma {:induction false} BurstAt(n: nat, at: int)
    ensures forall i | 0 <= i < n :: Burst(n, at)[i] == Call(KEY, at)
  {
    if n > 0 {
      BurstAt(n - 1, at);
    }
  }

  function AfterBurst(cfg: Config, s: State, n: nat, at: int): State
    decreases n
  {
    if n == 0 then s else AfterBurst(cfg, AfterAllow(cfg, s, KEY, at), n - 1, at)
  }

  function RememberBurst(cfg: Config, m: map<string, Bucket>, n: nat, at: int): map<string, Bucket>
    decreases n
  {
    if n == 0 then m else RememberBurst(cfg, Remember(cfg, m, Call(KEY, at)), n - 1, at)
  }

  ghost predicate Holding(s: State, tokens: real, at: int) {
    s.buckets == map[KEY := Bucket(tokens, at)] && s.lastSweep == Some(at)
  }

  lemma {:induction false} BurstDrains(cfg: Config, s: State, n: nat, at: int, tokens: int)
    requires Holding(s, tokens as real, at) && n <= tokens
    ensures Holding(AfterBurst(cfg, s, n, at), (tokens - n) as real, at)
    ensures forall i | 0 <= i < n :: Decisions(cfg, s, Burst(n, at))[i]
    decreases n
  {
    if n > 0 {
      var s' := AfterAllow(cfg, s, KEY, at);
      assert Sweep(cfg, s, at).buckets == s.buckets;
      assert s'.buckets == map[KEY := Bucket((tokens - 1) as real, at)];
      BurstDrains(cfg, s', n - 1, at, tokens - 1);
      assert Burst(n, at)[1..] == Burst(n - 1, at);
    }
  }

  /** A burst on a limiter that knows nothing current about the key is allowed in full. */
  lemma FreshBurst(cfg: Config, s: State, at: int)
    requires cfg.burst >= 1 && Sweep(cfg, s, at) == State(map[], Some(at))
    ensures Holding(AfterBurst(cfg, s, cfg.burst, at), 0.0, at)
    ensures forall i | 0 <= i < cfg.burst :: Decisions(cfg, s, Burst(cfg.burst, at))[i]
  {
    var s' := AfterAllow(cfg, s, KEY, at);
    assert s'.buckets == map[KEY := Bucket((cfg.burst - 1) as real, at)];
    BurstDrains(cfg, s', cfg.burst - 1, at, cfg.burst - 1);
    assert Burst(cfg.burst, at)[1..] == Burst(cfg.burst - 1, at);
  }

  lemma {:induction false} MemoryDrains(cfg: Config, m: map<string, Bucket>, n: nat, at: int, tokens: int)
    requires BucketOf(cfg, m, KEY, at) == Bucket(tokens as real, at) && n <= tokens
    ensures BucketOf(cfg, RememberBurst(cfg, m, n, at), KEY, at) == Bucket((tokens - n) as real, at)
    decreases n
  {
    if n > 0 {
      MemoryDrains(cfg, Remember(cfg, m, Call(KEY, at)), n - 1, at, tokens - 1);
    }
  }

  /** With less than n tokens available, not all of n simultaneous calls are allowed. */
  lemma {:induction false} ShortOfTokens(cfg: Config, m: map<string, Bucket>, n: nat, at: int) returns (i: nat)
    requires n >= 1 && Refilled(cfg, BucketOf(cfg, m, KEY, at), at) < n as real
    ensures i < n && !ForeverDecisions(cfg, m, Burst(n, at))[i]
    decreases n
  {
    if !ForeverAllows(cfg, m, Call(KEY, at)) {
      i := 0;
    } else {
      assert Burst(n, at)[1..] == Burst(n - 1, at);
      i := ShortOfTokens(cfg, Remember(cfg, m, Call(KEY, at)), n - 1, at);
      i := i + 1;
    }
  }

  lemma BurstFirst(n: nat, at: int, more: seq<Call>)
    requires n > 0
    ensures Burst(n, at)[1..] == Burst(n - 1, at) && (Burst(n, at) + more)[1..] == Burst(n - 1, at) + more
    ensures Burst(n, at)[0] == (Burst(n, at) + more)[0] == Call(KEY, at)
  {
  }

  lemma {:induction false} DecisionsAppend(cfg: Config, s: State, n: nat, at: int, more: seq<Call>)
    ensures Decisions(cfg, s, Burst(n, at) + more)
         == Decisions(cfg, s, Burst(n, at)) + Decisions(cfg, AfterBurst(cfg, s, n, at), more)
    decreases n
  {
    if n == 0 {
      assert Burst(n, at) + more == more;
    } else {
      BurstFirst(n, at, more);
      DecisionsAppend(cfg, AfterAllow(cfg, s, KEY, at), n - 1, at, more);
    }
  }

  lemma {:induction false} ForeverAppend(cfg: Config, m: map<string, Bucket>, n: nat, at: int, more: seq<Call>)
    ensures ForeverDecisions(cfg, m, Burst(n, at) + more)
         == ForeverDecisions(cfg, m, Burst(n, at)) + ForeverDecisions(cfg, RememberBurst(cfg, m, n, at), more)
    decreases n
  {
    if n == 0 {
      assert Burst(n, at) + more == more;
    } else {
      BurstFirst(n, at, more);
      ForeverAppend(cfg, Remember(cfg, m, Call(KEY, at)), n - 1, at, more);
    }
  }

  /** When the condition fails, this run tells the two limiters apart. */
  lemma EvictionShowsOtherwise(cfg: Config)
    requires !EvictionSafe(cfg)
    ensures var calls := Burst(cfg.burst, 0) + Burst(cfg.burst, cfg.maxIdle + 1);
            Monotone(calls) && Decisions(cfg, Empty, calls) != ForeverDecisions(cfg, map[], calls)
  {
    var n, later := cfg.burst, cfg.maxIdle + 1;
    BurstsAreMonotone(n, 0, later);
    var i := RememberingSide(cfg);
    EvictingSide(cfg, i);
  }

  lemma BurstsAreMonotone(n: nat, t: int, u: int)
    requires t <= u
    ensures Monotone(Burst(n, t) + Burst(n, u))
  {
    BurstAt(n, t);
    BurstAt(n, u);
  }

  lemma EvictingSide(cfg: Config, i: nat)
    requires i < cfg.burst
    ensures var ok := Decisions(cfg, Empty, Burst(cfg.burst, 0) + Burst(cfg.burst, cfg.maxIdle + 1));
            ok[i] && ok[cfg.burst + i]
  {
    var n, later := cfg.burst, cfg.maxIdle + 1;
    FreshBurst(cfg, Empty, 0);
    FreshBurst(cfg, AfterBurst(cfg, Empty, n, 0), later);
    DecisionsAppend(cfg, Empty, n, 0, Burst(n, later));
  }

  lemma RememberingSide(cfg: Config) returns (i: nat)
    requires !EvictionSafe(cfg)
    ensures i < cfg.burst
    ensures !ForeverDecisions(cfg, map[], Burst(cfg.burst, 0) + Burst(cfg.burst, cfg.maxIdle + 1))[cfg.burst + i]
  {
    var n, later := cfg.burst, cfg.maxIdle + 1;
    var none: map<string, Bucket> := map[];
    MemoryDrains(cfg, none, n, 0, n);
    var m := RememberBurst(cfg, none, n, 0);
    RemembersKey(cfg, none, n, 0);
    if cfg.refill > 0 {
      QuotientAtLeast(later, cfg.refill, n);
    }
    i := ShortOfTokens(cfg, m, n, later);
    ForeverAppend(cfg, none, n, 0, Burst(n, later));
  }

  lemma {:induction false} RemembersKey(cfg: Config, m: map<string, Bucket>, n: nat, at: int)
    requires n >= 1
    ensures KEY in RememberBurst(cfg, m, n, at)
    decreases n
  {
    if n > 1 {
      RemembersKey(cfg, Remember(cfg, m, Call(KEY, at)), n - 1, at);
    }
  }

  /** Eviction is invisible to every run exactly when EvictionSafe holds. */
  lemma EvictionIsInvisibleIff(cfg: Config)
    ensures EvictionSafe(cfg) <==>
            forall calls | Monotone(calls) :: Decisions(cfg, Empty, calls) == ForeverDecisions(cfg, map[], calls)
  {
    if EvictionSafe(cfg) {
      forall calls | Monotone(calls)
        ensures Decisions(cfg, Empty, calls) == ForeverDecisions(cfg, map[], calls)
      {
        EvictionIsInvisible(cfg, calls);
      }
    } else {
      EvictionShowsOtherwise(cfg);
    }
  }

  // ---------- the rate ----------

  function Granted(key: string, calls: seq<Call>, ok: seq<bool>): nat
    requires |calls| == |ok|
  {
    if calls == [] then 0
    else (if calls[0].key == key && ok[0] then 1 else 0) + Granted(key, calls[1..], ok[1..])
  }

  lemma QuotientAdds(a: int, b: int, r: int)
    requires r > 0
    ensures a as real / r as real + b as real / r as real == (a + b) as real / r as real
  {
    assert (a + b) as real == a as real + b as real;
  }

  /** What the key can spend at `at`. */
  function Available(cfg: Config, m: map<string, Bucket>, key: string, at: int): real {
    Refilled(cfg, BucketOf(cfg, m, key, at), at)
  }

  lemma AvailableLater(cfg: Config, m: map<string, Bucket>, key: string, t: int, u: int)
    requires cfg.burst >= 0 && cfg.refill > 0 && InRange(cfg, m, t) && t <= u
    ensures Available(cfg, m, key, u) <= Available(cfg, m, key, t) + (u - t) as real / cfg.refill as real
    ensures Available(cfg, m, key, u) <= cfg.burst as real
  {
    QuotientSign(u - t, cfg.refill);
    if key in m {
      QuotientAdds(t - m[key].lastSeen, u - t, cfg.refill);
      QuotientSign(t - m[key].lastSeen, cfg.refill);
    }
  }

  lemma AvailableInRange(cfg: Config, m: map<string, Bucket>, key: string, t: int)
    requires cfg.burst >= 0 && cfg.refill > 0 && InRange(cfg, m, t)
    ensures 0.0 <= Available(cfg, m, key, t)
  {
    if key in m {
      QuotientSign(t - m[key].lastSeen, cfg.refill);
    }
  }

  /** One call pays for what it grants out of what the key could spend plus what time brought. */
  lemma GrantedStep(cfg: Config, m: map<string, Bucket>, key: string, c: Call, t: int)
    requires cfg.burst >= 0 && cfg.refill > 0 && key != "" && InRange(cfg, m, t) && t <= c.at
    ensures (if c.key == key && ForeverAllows(cfg, m, c) then 1.0 else 0.0)
            + Available(cfg, Remember(cfg, m, c), key, c.at)
         <= Available(cfg, m, key, t) + (c.at - t) as real / cfg.refill as real
  {
    AvailableLater(cfg, m, key, t, c.at);
    if c.key == key {
      assert Available(cfg, Remember(cfg, m, c), key, c.at) == Spend(cfg, BucketOf(cfg, m, key, c.at), c.at).tokens;
    } else {
      assert Available(cfg, Remember(cfg, m, c), key, c.at) == Available(cfg, m, key, c.at);
    }
  }

  lemma {:induction false} GrantedBound(cfg: Config, m: map<string, Bucket>, key: string, calls: seq<Call>,
                                        t: int, end: int)
    requires cfg.burst >= 0 && cfg.refill > 0 && key != "" && InRange(cfg, m, t)
    requires Monotone(calls) && (calls != [] ==> t <= calls[0].at)
    requires end == if calls == [] then t else calls[|calls| - 1].at
    ensures Granted(key, calls, ForeverDecisions(cfg, m, calls)) as real
         <= Available(cfg, m, key, t) + (end - t) as real / cfg.refill as real
    decreases |calls|
  {
    if calls == [] {
      AvailableInRange(cfg, m, key, t);
      QuotientSign(0, cfg.refill);
    } else {
      var c, m' := calls[0], Remember(cfg, m, calls[0]);
      GrantedStep(cfg, m, key, c, t);
      RememberInRange(cfg, m, c);
      GrantedBound(cfg, m', key, calls[1..], c.at, end);
      QuotientAdds(c.at - t, end - c.at, cfg.refill);
      assert ForeverDecisions(cfg, m, calls)[1..] == ForeverDecisions(cfg, m', calls[1..]);
    }
  }

  lemma {:induction false} ForeverSplit(cfg: Config, m: map<string, Bucket>, calls: seq<Call>, i: nat)
    requires i <= |calls|
    ensures ForeverDecisions(cfg, m, calls)[i..] == ForeverDecisions(cfg, RunForever(cfg, m, calls[..i]), calls[i..])
    decreases i
  {
    if i > 0 {
      ForeverSplit(cfg, Remember(cfg, m, calls[0]), calls[1..], i - 1);
      assert calls[..i][1..] == calls[1..][..i - 1];
      assert ForeverDecisions(cfg, m, calls)[i..] == ForeverDecisions(cfg, m, calls)[1..][i - 1..];
    }
  }

  lemma {:induction false} ForeverPrefix(cfg: Config, m: map<string, Bucket>, calls: seq<Call>, j: nat)
    requires j <= |calls|
    ensures ForeverDecisions(cfg, m, calls)[..j] == ForeverDecisions(cfg, m, calls[..j])
    decreases j
  {
    if j > 0 {
      ForeverPrefix(cfg, Remember(cfg, m, calls[0]), calls[1..], j - 1);
      assert calls[..j][1..] == calls[1..][..j - 1];
      assert ForeverDecisions(cfg, m, calls)[..j]
          == [ForeverAllows(cfg, m, calls[0])] + ForeverDecisions(cfg, Remember(cfg, m, calls[0]), calls[1..])[..j - 1];
    }
  }

  lemma StretchBound(cfg: Config, key: string, m: map<string, Bucket>, stretch: seq<Call>)
    requires cfg.burst >= 0 && cfg.refill > 0 && key != "" && stretch != [] && Monotone(stretch)
    requires InRange(cfg, m, stretch[0].at)
    ensures Granted(key, stretch, ForeverDecisions(cfg, m, stretch)) as real
         <= cfg.burst as real + (stretch[|stretch| - 1].at - stretch[0].at) as real / cfg.refill as real
  {
    GrantedBound(cfg, m, key, stretch, stretch[0].at, stretch[|stretch| - 1].at);
    AvailableLater(cfg, m, key, stretch[0].at, stretch[0].at);
  }

  lemma StretchDecisions(cfg: Config, calls: seq<Call>, i: nat, j: nat)
    requires i < j <= |calls|
    ensures ForeverDecisions(cfg, map[], calls)[i..j]
         == ForeverDecisions(cfg, RunForever(cfg, map[], calls[..i]), calls[i..j])
  {
    var all := ForeverDecisions(cfg, map[], calls);
    ForeverPrefix(cfg, map[], calls, j);
    ForeverSplit(cfg, map[], calls[..j], i);
    assert all[i..j] == all[..j][i..];
    assert calls[..j][i..] == calls[i..j] && calls[..j][..i] == calls[..i];
  }

  lemma RangeBefore(cfg: Config, calls: seq<Call>, i: nat)
    requires cfg.burst >= 0 && i < |calls| && Monotone(calls)
    ensures InRange(cfg, RunForever(cfg, map[], calls[..i]), calls[i].at)
  {
    MemoryInRange(cfg, map[], calls[..i], calls[0].at);
  }

  /** In any stretch of any run the limiter grants one key at most burst + T / refill calls,
      T being the time from the stretch's first call to its last. */
  lemma RateIsBounded(cfg: Config, key: string, calls: seq<Call>, i: nat, j: nat)
    requires EvictionSafe(cfg) && cfg.burst >= 1 && key != "" && Monotone(calls)
    requires i < j <= |calls|
    ensures Granted(key, calls[i..j], Decisions(cfg, Empty, calls)[i..j]) as real
         <= cfg.burst as real + (calls[j - 1].at - calls[i].at) as real / cfg.refill as real
  {
    EvictionIsInvisible(cfg, calls);
    StretchDecisions(cfg, calls, i, j);
    RangeBefore(cfg, calls, i);
    StretchBound(cfg, key, RunForever(cfg, map[], calls[..i]), calls[i..j]);
  }

  lemma {:induction false} AllGranted(key: string, calls: seq<Call>, ok: seq<bool>)
    requires |calls| == |ok| && forall i | 0 <= i < |calls| :: calls[i].key == key && ok[i]
    ensures Granted(key, calls, ok) == |calls|
    decreases |calls|
  {
    if calls != [] {
      AllGranted(key, calls[1..], ok[1..]);
    }
  }

  ghost predicate RateBounded(cfg: Config, key: string, calls: seq<Call>, i: nat, j: nat)
    requires cfg.refill > 0 && i < j <= |calls|
  {
    Granted(key, calls[i..j], Decisions(cfg, Empty, calls)[i..j]) as real
    <= cfg.burst as real + (calls[j - 1].at - calls[i].at) as real / cfg.refill as real
  }

  lemma TwoBurstsGranted(cfg: Config, calls: seq<Call>)
    requires cfg.burst >= 1 && calls == Burst(cfg.burst, 0) + Burst(cfg.burst, cfg.maxIdle + 1)
    ensures Granted(KEY, calls, Decisions(cfg, Empty, calls)) == 2 * cfg.burst
    ensures calls[0].at == 0 && calls[|calls| - 1].at == cfg.maxIdle + 1
  {
    var n, ok := cfg.burst, Decisions(cfg, Empty, calls);
    BurstAt(n, 0);
    BurstAt(n, cfg.maxIdle + 1);
    forall i | 0 <= i < 2 * n ensures ok[i] {
      EvictingSide(cfg, if i < n then i else i - n);
    }
    AllGranted(KEY, calls, ok);
  }

  /** When eviction is not safe, the two bursts are granted in full and exceed the bound. */
  lemma TwoBurstsExceed(cfg: Config)
    requires !EvictionSafe(cfg) && cfg.refill > 0
    ensures var calls := Burst(cfg.burst, 0) + Burst(cfg.burst, cfg.maxIdle + 1);
            Monotone(calls) && !RateBounded(cfg, KEY, calls, 0, |calls|)
  {
    var calls := Burst(cfg.burst, 0) + Burst(cfg.burst, cfg.maxIdle + 1);
    var ok := Decisions(cfg, Empty, calls);
    BurstsAreMonotone(cfg.burst, 0, cfg.maxIdle + 1);
    TwoBurstsGranted(cfg, calls);
    assert calls[0..|calls|] == calls && ok[0..|calls|] == ok;
    QuotientAtLeast(cfg.maxIdle + 1, cfg.refill, cfg.burst);
  }

  /** The bound holds of every stretch of every run exactly when eviction is safe. */
  lemma RateIsBoundedIff(cfg: Config)
    requires cfg.burst >= 1 && cfg.refill > 0
    ensures EvictionSafe(cfg) <==>
            forall key, calls, i: nat, j: nat | key != "" && Monotone(calls) && i < j <= |calls| ::
              RateBounded(cfg, key, calls, i, j)
  {
    if EvictionSafe(cfg) {
      forall key, calls, i: nat, j: nat | key != "" && Monotone(calls) && i < j <= |calls|
        ensures RateBounded(cfg, key, calls, i, j)
      {
        RateIsBounded(cfg, key, calls, i, j);
      }
    } else {
      TwoBurstsExceed(cfg);
    }
  }

  // ---------- the wait after a refusal ----------

  lemma {:induction false} RunAppend(cfg: Config, s: State, xs: seq<Call>, ys: seq<Call>)
    ensures Run(cfg, s, xs + ys) == Run(cfg, Run(cfg, s, xs), ys)
    decreases |xs|
  {
    if xs == [] {
      assert xs + ys == ys;
    } else {
      assert (xs + ys)[1..] == xs[1..] + ys;
      RunAppend(cfg, AfterAllow(cfg, s, xs[0].key, xs[0].at), xs[1..], ys);
    }
  }

  lemma {:induction false} DecisionAt(cfg: Config, s: State, calls: seq<Call>, i: nat)
    requires i < |calls|
    ensures Decisions(cfg, s, calls)[i] == Allows(cfg, Run(cfg, s, calls[..i]), calls[i].key, calls[i].at)
    decreases i
  {
    if i > 0 {
      DecisionAt(cfg, AfterAllow(cfg, s, calls[0].key, calls[0].at), calls[1..], i - 1);
      assert calls[..i][1..] == calls[1..][..i - 1];
    }
  }

  /** missing * refill has gone by since the bucket was last seen. */
  predicate Waited(cfg: Config, b: Bucket, at: int) {
    (at - b.lastSeen) as real >= Missing(cfg, b)
  }

  lemma PermitsIffWaited(cfg: Config, b: Bucket, at: int)
    requires cfg.burst >= 1 && cfg.refill > 0 && 0.0 <= b.tokens < 1.0 && b.lastSeen <= at
    ensures Permits(cfg, b, at) <==> Waited(cfg, b, at)
  {
    var r, e := cfg.refill as real, (at - b.lastSeen) as real;
    var q := e / r;
    assert q * r == e;
    var missing := 1.0 - b.tokens;
    if q >= missing {
      assert q * r >= missing * r;
    } else {
      assert q * r < missing * r;
    }
  }

  /** Whether the limiter still has the key's bucket b, or has evicted it for idleness. */
  ghost predicate KeptOrIdle(cfg: Config, b: Bucket, buckets: map<string, Bucket>, key: string, now: int) {
    if key in buckets then buckets[key] == b else b.lastSeen + cfg.maxIdle < now
  }

  lemma {:induction false} OthersKeep(cfg: Config, b: Bucket, s: State, key: string, others: seq<Call>, now: int)
    requires KeptOrIdle(cfg, b, s.buckets, key, now)
    requires forall c | c in others :: c.key != key && c.at <= now
    ensures KeptOrIdle(cfg, b, Run(cfg, s, others).buckets, key, now)
    decreases |others|
  {
    if others != [] {
      var c := others[0];
      assert c in others;
      OthersKeep(cfg, b, AfterAllow(cfg, s, c.key, c.at), key, others[1..], now);
    }
  }

  /** A forgotten bucket has waited, when eviction is safe. */
  lemma IdleHasWaited(cfg: Config, b: Bucket, at: int)
    requires EvictionSafe(cfg) && cfg.burst >= 1 && 0.0 <= b.tokens < 1.0
    requires b.lastSeen + cfg.maxIdle < at
    ensures Waited(cfg, b, at)
  {
    var r := cfg.refill as real;
    assert cfg.burst * cfg.refill >= cfg.refill;
    assert (1.0 - b.tokens) * r <= r;
  }

  lemma AllowedAgain(cfg: Config, b: Bucket, s: State, key: string, at: int)
    requires cfg.burst >= 1 && cfg.refill > 0 && key != ""
    requires 0.0 <= b.tokens < 1.0 && b.lastSeen <= at && KeptOrIdle(cfg, b, s.buckets, key, at)
    ensures Waited(cfg, b, at) ==> Allows(cfg, s, key, at)
    ensures EvictionSafe(cfg) && Allows(cfg, s, key, at) ==> Waited(cfg, b, at)
  {
    PermitsIffWaited(cfg, b, at);
    if EvictionSafe(cfg) && b.lastSeen + cfg.maxIdle < at {
      IdleHasWaited(cfg, b, at);
    }
  }

  lemma RefusalBucket(cfg: Config, s: State, key: string, t: int)
    requires cfg.burst >= 0 && key != "" && InRange(cfg, s.buckets, t) && !Allows(cfg, s, key, t)
    ensures var m := AfterAllow(cfg, s, key, t).buckets;
            key in m && m[key].lastSeen == t && 0.0 <= m[key].tokens < 1.0
  {
    AllowInRange(cfg, s, Call(key, t));
  }

  /** A run in which `key` is refused at t, other keys call, and `key` calls again at `at`. */
  ghost predicate RetriedRun(cfg: Config, before: seq<Call>, key: string, t: int, others: seq<Call>, at: int,
                             calls: seq<Call>) {
    && calls == before + [Call(key, t)] + others + [Call(key, at)] && Monotone(calls)
    && key != "" && (forall c | c in others :: c.key != key)
    && !Decisions(cfg, Empty, calls)[|before|]
  }

  lemma StateBefore(cfg: Config, calls: seq<Call>, i: nat)
    requires cfg.burst >= 0 && i < |calls| && Monotone(calls)
    ensures InRange(cfg, Run(cfg, Empty, calls[..i]).buckets, calls[i].at)
  {
    TokensStayInRange(cfg, Empty, calls[..i], calls[0].at);
  }

  /** The state right after the refusal, where RetryAfter is read. */
  function AfterRefusal(cfg: Config, before: seq<Call>, key: string, t: int): State {
    AfterAllow(cfg, Run(cfg, Empty, before), key, t)
  }

  lemma RefusalInRun(cfg: Config, before: seq<Call>, key: string, t: int, others: seq<Call>, at: int, calls: seq<Call>)
    requires cfg.burst >= 0 && RetriedRun(cfg, before, key, t, others, at, calls)
    ensures var m := AfterRefusal(cfg, before, key, t).buckets;
            key in m && m[key].lastSeen == t && 0.0 <= m[key].tokens < 1.0
  {
    var i := |before|;
    assert calls[..i] == before && calls[i] == Call(key, t);
    DecisionAt(cfg, Empty, calls, i);
    StateBefore(cfg, calls, i);
    RefusalBucket(cfg, Run(cfg, Empty, before), key, t);
  }

  lemma LastDecision(cfg: Config, before: seq<Call>, key: string, t: int, others: seq<Call>, at: int, calls: seq<Call>)
    requires RetriedRun(cfg, before, key, t, others, at, calls)
    ensures Decisions(cfg, Empty, calls)[|calls| - 1]
         == Allows(cfg, Run(cfg, AfterRefusal(cfg, before, key, t), others), key, at)
  {
    var last, first := |calls| - 1, [Call(key, t)];
    assert calls[..last] == before + (first + others) && calls[last] == Call(key, at);
    DecisionAt(cfg, Empty, calls, last);
    RunAppend(cfg, Empty, before, first + others);
    RunAppend(cfg, Run(cfg, Empty, before), first, others);
    assert first[1..] == [];
  }

  lemma OthersAreBefore(cfg: Config, before: seq<Call>, key: string, t: int, others: seq<Call>, at: int,
                        calls: seq<Call>)
    requires RetriedRun(cfg, before, key, t, others, at, calls)
    ensures t <= at && forall c | c in others :: c.at <= at
  {
    var last := |calls| - 1;
    assert calls[|before|] == Call(key, t) && calls[last] == Call(key, at);
    forall c | c in others ensures c.at <= at {
      var i :| 0 <= i < |others| && others[i] == c;
      assert calls[|before| + 1 + i] == c;
    }
  }

  lemma RetryDecision(cfg: Config, before: seq<Call>, key: string, t: int, others: seq<Call>, at: int, calls: seq<Call>)
    requires cfg.burst >= 1 && cfg.refill > 0 && RetriedRun(cfg, before, key, t, others, at, calls)
    ensures var m, granted := AfterRefusal(cfg, before, key, t).buckets, Decisions(cfg, Empty, calls)[|calls| - 1];
            && key in m && m[key].lastSeen == t && 0.0 <= m[key].tokens < 1.0
            && (Waited(cfg, m[key], at) ==> granted)
            && (EvictionSafe(cfg) && granted ==> Waited(cfg, m[key], at))
  {
    var s := AfterRefusal(cfg, before, key, t);
    RefusalInRun(cfg, before, key, t, others, at, calls);
    OthersAreBefore(cfg, before, key, t, others, at, calls);
    LastDecision(cfg, before, key, t, others, at, calls);
    OthersKeep(cfg, s.buckets[key], s, key, others, at);
    AllowedAgain(cfg, s.buckets[key], Run(cfg, s, others), key, at);
  }

  /** A key refused at t, then only other keys, is granted at `at` exactly when missing * refill
      has elapsed since t. */
  lemma RefusedUntilRefilled(cfg: Config, before: seq<Call>, key: string, t: int, others: seq<Call>, at: int,
                             calls: seq<Call>)
    requires EvictionSafe(cfg) && cfg.burst >= 1 && RetriedRun(cfg, before, key, t, others, at, calls)
    ensures var m := AfterRefusal(cfg, before, key, t).buckets;
            && key in m && m[key].lastSeen == t
            && (Decisions(cfg, Empty, calls)[|calls| - 1] <==> Waited(cfg, m[key], at))
  {
    RetryDecision(cfg, before, key, t, others, at, calls);
  }

  /** What the limiter answers right after a refusal: one nanosecond more is always enough,
      whatever is evicted meanwhile; when eviction is safe, anything shorter never is, and the
      answer itself is enough exactly when missing * refill is whole. */
  lemma RetryAfterIsTight(cfg: Config, before: seq<Call>, key: string, t: int, others: seq<Call>, at: int,
                          calls: seq<Call>)
    requires cfg.burst >= 1 && cfg.refill > 0 && RetriedRun(cfg, before, key, t, others, at, calls)
    ensures var m, granted := AfterRefusal(cfg, before, key, t).buckets, Decisions(cfg, Empty, calls)[|calls| - 1];
            var retry, wait := RetryAfter(cfg, m, key), at - t;
            && (wait > retry ==> granted)
            && (EvictionSafe(cfg) && wait < retry ==> !granted)
            && (EvictionSafe(cfg) && wait == retry ==> (granted <==> key in m && retry as real == Missing(cfg, m[key])))
  {
    RetryDecision(cfg, before, key, t, others, at, calls);
    var m := AfterRefusal(cfg, before, key, t).buckets;
    var x := MissingIsPositive(cfg, m[key]);
    TruncBounds(x, at - t);
  }

  /** A call without a key is never limited. */
  lemma {:induction false} NoKeyNoLimit(cfg: Config, s: State, calls: seq<Call>, i: nat)
    requires i < |calls| && calls[i].key == ""
    ensures Decisions(cfg, s, calls)[i]
    decreases i
  {
    if i > 0 {
      NoKeyNoLimit(cfg, AfterAllow(cfg, s, calls[0].key, calls[0].at), calls[1..], i - 1);
    }
  }

  /** Without a burst no wait is ever enough. */
  lemma {:induction false} NoBurstNoGrant(cfg: Config, s: State, calls: seq<Call>, i: nat)
    requires cfg.burst <= 0 && Poor(cfg, s.buckets) && i < |calls| && calls[i].key != ""
    ensures !Decisions(cfg, s, calls)[i]
    decreases i
  {
    if i > 0 {
      NoBurstNoGrant(cfg, AfterAllow(cfg, s, calls[0].key, calls[0].at), calls[1..], i - 1);
    }
  }

  lemma MissingIsPositive(cfg: Config, b: Bucket) returns (x: real)
    requires cfg.refill > 0 && b.tokens < 1.0
    ensures x == Missing(cfg, b) && x >= 0.0
  {
    x := Missing(cfg, b);
    Product(1.0 - b.tokens, cfg.refill as real);
  }

  lemma Product(a: real, b: real)
    requires a > 0.0 && b > 0.0
    ensures a * b >= 0.0
  {
  }

  lemma TruncBounds(x: real, wait: int)
    requires x >= 0.0
    ensures wait > Trunc(x) ==> wait as real >= x
    ensures wait < Trunc(x) ==> (wait as real) < x
    ensures wait == Trunc(x) ==> (wait as real >= x <==> Trunc(x) as real == x)
  {
    assert Trunc(x) as real <= x < (Trunc(x) + 1) as real;
    if wait > Trunc(x) {
      assert wait as real >= (Trunc(x) + 1) as real;
    }
  }
}
