/** Exactly which calls the rate limiter grants, told from times and earlier grants alone. */
module RateExact {
  import opened Calls
  import opened RateLimiter

  lemma {:induction false} GrantedSnoc(key: string, calls: seq<Call>, ok: seq<bool>, c: Call, b: bool)
    requires |calls| == |ok|
    ensures Granted(key, calls + [c], ok + [b]) == Granted(key, calls, ok) + (if c.key == key && b then 1 else 0)
    decreases |calls|
  {
    if calls == [] {
      assert calls + [c] == [c] && ok + [b] == [b] && [c][1..] == [] && [b][1..] == [];
    } else {
      assert (calls + [c])[1..] == calls[1..] + [c] && (ok + [b])[1..] == ok[1..] + [b];
      GrantedSnoc(key, calls[1..], ok[1..], c, b);
    }
  }

  /** The grants of the calls from number j up to number i. */
  function GrantsIn(key: string, calls: seq<Call>, ok: seq<bool>, j: nat, i: nat): nat
    requires j <= i <= |calls| == |ok|
  {
    Granted(key, calls[j..i], ok[j..i])
  }

  lemma GrantsInStep(key: string, calls: seq<Call>, ok: seq<bool>, j: nat, i: nat)
    requires j <= i < |calls| == |ok|
    ensures GrantsIn(key, calls, ok, j, i + 1)
         == GrantsIn(key, calls, ok, j, i) + (if calls[i].key == key && ok[i] then 1 else 0)
  {
    assert calls[j..i + 1] == calls[j..i] + [calls[i]] && ok[j..i + 1] == ok[j..i] + [ok[i]];
    GrantedSnoc(key, calls[j..i], ok[j..i], calls[i], ok[i]);
  }

  /** x more grants at time t keep the stretch that starts with call j within the rate. */
  ghost predicate Within(cfg: Config, key: string, calls: seq<Call>, ok: seq<bool>, j: nat, i: nat, t: int, x: real)
    requires cfg.refill > 0 && j <= i <= |calls| == |ok| && j < |calls|
  {
    GrantsIn(key, calls, ok, j, i) as real + x
    <= cfg.burst as real + (t - calls[j].at) as real / cfg.refill as real
  }

  ghost predicate Stretches(cfg: Config, key: string, calls: seq<Call>, ok: seq<bool>, i: nat, t: int, x: real)
    requires cfg.refill > 0 && i <= |calls| == |ok|
  {
    forall j: nat | j < i :: Within(cfg, key, calls, ok, j, i, t, x)
  }

  lemma {:induction false} RunForeverAppend(cfg: Config, m: map<string, Bucket>, xs: seq<Call>, ys: seq<Call>)
    ensures RunForever(cfg, m, xs + ys) == RunForever(cfg, RunForever(cfg, m, xs), ys)
    decreases |xs|
  {
    if xs == [] {
      assert xs + ys == ys;
    } else {
      assert (xs + ys)[1..] == xs[1..] + ys;
      RunForeverAppend(cfg, Remember(cfg, m, xs[0]), xs[1..], ys);
    }
  }

  lemma ForeverAt(cfg: Config, m: map<string, Bucket>, calls: seq<Call>, i: nat)
    requires i < |calls|
    ensures ForeverDecisions(cfg, m, calls)[i] == ForeverAllows(cfg, RunForever(cfg, m, calls[..i]), calls[i])
  {
    ForeverSplit(cfg, m, calls, i);
    assert ForeverDecisions(cfg, m, calls)[i] == ForeverDecisions(cfg, m, calls)[i..][0];
  }

  lemma RunForeverSnoc(cfg: Config, calls: seq<Call>, i: nat)
    requires i < |calls|
    ensures RunForever(cfg, map[], calls[..i + 1]) == Remember(cfg, RunForever(cfg, map[], calls[..i]), calls[i])
  {
    assert calls[..i + 1] == calls[..i] + [calls[i]];
    RunForeverAppend(cfg, map[], calls[..i], [calls[i]]);
    assert [calls[i]][1..] == [];
  }

  /** What a key can spend later, from what it could spend at its last call. */
  lemma AvailableAfter(cfg: Config, m: map<string, Bucket>, key: string, c: Call, t: int)
    requires cfg.burst >= 1 && cfg.refill > 0 && key != "" && InRange(cfg, m, c.at) && c.at <= t
    ensures var left := Available(cfg, m, key, c.at) - (if ForeverAllows(cfg, m, c) then 1.0 else 0.0);
            var later := Min(left + (t - c.at) as real / cfg.refill as real, cfg.burst as real);
            c.key == key ==> Available(cfg, Remember(cfg, m, c), key, t) == later
    ensures c.key != key ==> Available(cfg, Remember(cfg, m, c), key, t) == Available(cfg, m, key, t)
  {
    AvailableLater(cfg, m, key, c.at, c.at);
    QuotientSign(t - c.at, cfg.refill);
  }

  lemma QuotientShift(t: int, u: int, v: int, r: int)
    requires r > 0
    ensures (t - v) as real / r as real == (t - u) as real / r as real + (u - v) as real / r as real
  {
    QuotientAdds(t - u, u - v, r);
  }

  /** One more call on the key: what was within the rate before, shifted to its time. */
  lemma WithinStep(cfg: Config, key: string, calls: seq<Call>, ok: seq<bool>, i: nat, k: nat, t: int, x: real, y: real)
    requires cfg.refill > 0 && i < |calls| == |ok| && k == i + 1
    requires y == x + (if calls[i].key == key && ok[i] then 1.0 else 0.0)
                    - (t - calls[i].at) as real / cfg.refill as real
    ensures Stretches(cfg, key, calls, ok, k, t, x) <==>
            y <= cfg.burst as real && Stretches(cfg, key, calls, ok, i, calls[i].at, y)
  {
    var u := calls[i].at;
    forall j: nat | j < i
      ensures Within(cfg, key, calls, ok, j, k, t, x) <==> Within(cfg, key, calls, ok, j, i, u, y)
    {
      GrantsInStep(key, calls, ok, j, i);
      QuotientShift(t, u, calls[j].at, cfg.refill);
    }
    GrantsInStep(key, calls, ok, i, i);
    assert GrantsIn(key, calls, ok, i, i) == 0;
    assert Within(cfg, key, calls, ok, i, k, t, x) <==> y <= cfg.burst as real;
    if y <= cfg.burst as real && Stretches(cfg, key, calls, ok, i, u, y) {
      forall j: nat | j < k ensures Within(cfg, key, calls, ok, j, k, t, x) {
        assert j < i ==> Within(cfg, key, calls, ok, j, i, u, y);
      }
    }
  }

  /** A call on another key adds no constraint. */
  lemma WithinSkip(cfg: Config, key: string, calls: seq<Call>, ok: seq<bool>, i: nat, k: nat, t: int, x: real)
    requires cfg.refill > 0 && i < |calls| == |ok| && k == i + 1 && calls[i].key != key && calls[i].at <= t
    requires x <= cfg.burst as real
    ensures Stretches(cfg, key, calls, ok, k, t, x) <==> Stretches(cfg, key, calls, ok, i, t, x)
  {
    forall j: nat | j < i
      ensures Within(cfg, key, calls, ok, j, k, t, x) <==> Within(cfg, key, calls, ok, j, i, t, x)
    {
      GrantsInStep(key, calls, ok, j, i);
    }
    GrantsInStep(key, calls, ok, i, i);
    assert GrantsIn(key, calls, ok, i, i) == 0;
    QuotientSign(t - calls[i].at, cfg.refill);
    assert Within(cfg, key, calls, ok, i, k, t, x);
    if Stretches(cfg, key, calls, ok, i, t, x) {
      forall j: nat | j < k ensures Within(cfg, key, calls, ok, j, k, t, x) {
        assert j < i ==> Within(cfg, key, calls, ok, j, i, t, x);
      }
    }
  }

  /** The key can spend x at time t exactly when x more grants keep every stretch within the rate. */
  lemma {:induction false} AvailableIffWithin(cfg: Config, key: string, calls: seq<Call>, ok: seq<bool>, i: nat, t: int,
                                              x: real)
    requires cfg.burst >= 1 && cfg.refill > 0 && key != "" && Monotone(calls)
    requires ok == ForeverDecisions(cfg, map[], calls) && i <= |calls| && (i > 0 ==> calls[i - 1].at <= t)
    ensures Available(cfg, RunForever(cfg, map[], calls[..i]), key, t) >= x <==>
            x <= cfg.burst as real && Stretches(cfg, key, calls, ok, i, t, x)
    decreases i
  {
    if i > 0 {
      var n := i - 1;
      var c, m := calls[n], RunForever(cfg, map[], calls[..n]);
      RunForeverSnoc(cfg, calls, n);
      RangeBefore(cfg, calls, n);
      AvailableAfter(cfg, m, key, c, t);
      ForeverAt(cfg, map[], calls, n);
      if c.key != key {
        assert n > 0 ==> calls[n - 1].at <= calls[n].at;
        AvailableIffWithin(cfg, key, calls, ok, n, t, x);
        if x <= cfg.burst as real {
          WithinSkip(cfg, key, calls, ok, n, i, t, x);
        }
      } else {
        var y := x + (if ok[n] then 1.0 else 0.0) - (t - c.at) as real / cfg.refill as real;
        AvailableIffWithin(cfg, key, calls, ok, n, c.at, y);
        WithinStep(cfg, key, calls, ok, n, i, t, x, y);
      }
    }
  }

  /** Granting call i would leave every stretch that ends with it at no more than burst + T / refill
      grants. */
  ghost predicate FitsRate(cfg: Config, key: string, calls: seq<Call>, ok: seq<bool>, i: nat)
    requires cfg.refill > 0 && i < |calls| == |ok|
  {
    forall j: nat | j <= i ::
      GrantsIn(key, calls, ok, j, i) as real + 1.0
      <= cfg.burst as real + (calls[i].at - calls[j].at) as real / cfg.refill as real
  }

  lemma FitsRateIsStretches(cfg: Config, key: string, calls: seq<Call>, ok: seq<bool>, i: nat)
    requires cfg.burst >= 1 && cfg.refill > 0 && i < |calls| == |ok|
    ensures FitsRate(cfg, key, calls, ok, i) <==> Stretches(cfg, key, calls, ok, i, calls[i].at, 1.0)
  {
    assert GrantsIn(key, calls, ok, i, i) == 0;
    forall j: nat | j < i
      ensures Within(cfg, key, calls, ok, j, i, calls[i].at, 1.0) <==>
              GrantsIn(key, calls, ok, j, i) as real + 1.0
              <= cfg.burst as real + (calls[i].at - calls[j].at) as real / cfg.refill as real
    {
    }
    if Stretches(cfg, key, calls, ok, i, calls[i].at, 1.0) {
      forall j: nat | j <= i
        ensures GrantsIn(key, calls, ok, j, i) as real + 1.0
                <= cfg.burst as real + (calls[i].at - calls[j].at) as real / cfg.refill as real
      {
        assert j < i ==> Within(cfg, key, calls, ok, j, i, calls[i].at, 1.0);
      }
    }
  }

  /** A call is granted exactly when it fits the rate. A refused call is no grant, so it costs
      nothing later. */
  lemma GrantedIffWithinRate(cfg: Config, key: string, calls: seq<Call>, i: nat)
    requires EvictionSafe(cfg) && cfg.burst >= 1 && key != "" && Monotone(calls)
    requires i < |calls| && calls[i].key == key
    ensures Decisions(cfg, Empty, calls)[i] <==> FitsRate(cfg, key, calls, Decisions(cfg, Empty, calls), i)
  {
    var ok := Decisions(cfg, Empty, calls);
    EvictionIsInvisible(cfg, calls);
    ForeverAt(cfg, map[], calls, i);
    AvailableIffWithin(cfg, key, calls, ok, i, calls[i].at, 1.0);
    FitsRateIsStretches(cfg, key, calls, ok, i);
  }

  // ---------- idle buckets do not pile up ----------

  /** Every bucket was in use when the last sweep passed, or since. */
  ghost predicate SweptTo(cfg: Config, s: State, now: int) {
    && (s.lastSweep.None? ==> s.buckets == map[])
    && (s.lastSweep.Some? ==>
          && s.lastSweep.value <= now
          && forall k | k in s.buckets :: s.lastSweep.value - s.buckets[k].lastSeen <= cfg.maxIdle)
  }

  lemma SweepStep(cfg: Config, s: State, c: Call, before: int)
    requires SweptTo(cfg, s, before) && before <= c.at
    ensures var s' := AfterAllow(cfg, s, c.key, c.at);
            && SweptTo(cfg, s', c.at)
            && (c.key != "" ==>
                  && s'.lastSweep.Some? && c.at - s'.lastSweep.value <= cfg.maxIdle
                  && c.key in s'.buckets && s'.buckets[c.key].lastSeen == c.at)
            && forall k | k != c.key && k in s'.buckets :: k in s.buckets && s'.buckets[k] == s.buckets[k]
  {
  }

  lemma {:induction false} SweepRun(cfg: Config, s: State, calls: seq<Call>, before: int)
    requires SweptTo(cfg, s, before) && Monotone(calls) && (calls != [] ==> before <= calls[0].at)
    ensures SweptTo(cfg, Run(cfg, s, calls), if calls == [] then before else calls[|calls| - 1].at)
    decreases |calls|
  {
    if calls != [] {
      SweepStep(cfg, s, calls[0], before);
      SweepRun(cfg, AfterAllow(cfg, s, calls[0].key, calls[0].at), calls[1..], calls[0].at);
    }
  }

  /** After any call with a key, every bucket that is still held has been used within the last two
      idle periods. */
  lemma BucketsAreRecent(cfg: Config, calls: seq<Call>, c: Call, k: string)
    requires Monotone(calls + [c]) && c.key != "" && k in Run(cfg, Empty, calls + [c]).buckets
    ensures c.at - Run(cfg, Empty, calls + [c]).buckets[k].lastSeen <= 2 * cfg.maxIdle
  {
    var all := calls + [c];
    var start := all[0].at;
    assert forall i, j | 0 <= i < j < |calls| :: calls[i] == all[i] && calls[j] == all[j];
    assert all[|calls|] == c && (calls != [] ==> all[|calls| - 1] == calls[|calls| - 1]);
    SweepRun(cfg, Empty, calls, start);
    SweepStep(cfg, Run(cfg, Empty, calls), c, if calls == [] then start else calls[|calls| - 1].at);
    RunAppend(cfg, Empty, calls, [c]);
    assert [c][1..] == [];
  }
}
