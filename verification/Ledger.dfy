/** The two "once per window" ledgers: failureRateLimiter.shouldWarn (pkg/auth/chain.go:154-196)
    and BrowserAuth.consumeNonce (pkg/httpsrv/browserauth.go:265-286). Both evict whatever is older
    than the window before they look the key up. Calls are taken in lock order with
    non-decreasing timestamps. */
module Ledger {
  import opened Calls

  // ---------- one call ----------

  /** Entries that are at most `window` old at `now`. */
  function Evict(m: map<string, int>, window: int, now: int): map<string, int> {
    map k | k in m && now - m[k] <= window :: m[k]
  }

  predicate Accepts(m: map<string, int>, window: int, key: string, now: int) {
    key !in Evict(m, window, now)
  }

  function After(m: map<string, int>, window: int, key: string, now: int): map<string, int> {
    var e := Evict(m, window, now);
    if key in e then e else e[key := now]
  }

  class FailureRateLimiter {
    const window: int
    var lastLog: map<string, int>

    constructor (requested: int)
      ensures window == (if requested <= 0 then 60_000_000_000 else requested) && lastLog == map[]
    {
      window := if requested <= 0 then 60_000_000_000 else requested;
      lastLog := map[];
    }

    method EvictStale(now: int)
      modifies this
      ensures lastLog == Evict(old(lastLog), window, now)
    {
      var keys := lastLog.Keys;
      while keys != {}
        invariant keys <= lastLog.Keys <= old(lastLog).Keys
        invariant forall k | k in lastLog :: lastLog[k] == old(lastLog)[k]
        invariant forall k | k in old(lastLog) && k !in keys :: k in lastLog <==> now - old(lastLog)[k] <= window
        decreases keys
      {
        var k :| k in keys;
        keys := keys - {k};
        if now - lastLog[k] > window {
          lastLog := lastLog - {k};
        }
      }
    }

    /** Calls without a remote address always warn. */
    method ShouldWarn(key: string, now: int) returns (warn: bool)
      modifies this
      ensures warn == (key == "" || Accepts(old(lastLog), window, key, now))
      ensures lastLog == if key == "" then old(lastLog) else After(old(lastLog), window, key, now)
    {
      if key == "" {
        return true;
      }
      EvictStale(now);
      if key in lastLog && now - lastLog[key] <= window {
        return false;
      }
      lastLog := lastLog[key := now];
      return true;
    }
  }

  class NonceLedger {
    var usedNonces: map<string, int>
    const ttl := 600_000_000_000

    constructor ()
      ensures usedNonces == map[] && ttl == 600_000_000_000
    {
      usedNonces := map[];
    }

    /** An empty nonce is never accepted. */
    method Consume(nonce: string, now: int) returns (ok: bool)
      modifies this
      ensures ok == (nonce != "" && Accepts(old(usedNonces), ttl, nonce, now))
      ensures usedNonces == if nonce == "" then old(usedNonces) else After(old(usedNonces), ttl, nonce, now)
    {
      if nonce == "" {
        return false;
      }
      var keys := usedNonces.Keys;
      while keys != {}
        invariant keys <= usedNonces.Keys <= old(usedNonces).Keys
        invariant forall k | k in usedNonces :: usedNonces[k] == old(usedNonces)[k]
        invariant forall k | k in old(usedNonces) && k !in keys :: k in usedNonces <==> now - old(usedNonces)[k] <= ttl
        decreases keys
      {
        var k :| k in keys;
        keys := keys - {k};
        if now - usedNonces[k] > ttl {
          usedNonces := usedNonces - {k};
        }
      }
      assert usedNonces == Evict(old(usedNonces), ttl, now);
      if nonce in usedNonces {
        return false;
      }
      usedNonces := usedNonces[nonce := now];
      return true;
    }
  }

  // ---------- runs ----------

  /** The ledger after a run of non-empty keys. */
  function State(window: int, calls: seq<Call>): map<string, int> {
    if calls == [] then map[]
    else
      var c := calls[|calls| - 1];
      After(State(window, calls[..|calls| - 1]), window, c.key, c.at)
  }

  predicate Accepted(window: int, calls: seq<Call>, i: nat)
    requires i < |calls|
  {
    Accepts(State(window, calls[..i]), window, calls[i].key, calls[i].at)
  }

  /** The specification, which keeps the whole history: the key was accepted within the last
      window before call i. */
  predicate Recent(window: int, calls: seq<Call>, i: nat)
    requires i < |calls|
  {
    exists j | 0 <= j < i ::
      calls[j].key == calls[i].key && Accepted(window, calls, j) && calls[i].at - calls[j].at <= window
  }

  /** The ledger holds exactly the accepts that are still inside the window of the last call. */
  lemma {:induction false} LedgerIsRecentAccepts(window: int, calls: seq<Call>, k: string, t: int)
    requires window >= 0 && Monotone(calls) && calls != []
    ensures (k in State(window, calls) && State(window, calls)[k] == t) <==>
            exists j | 0 <= j < |calls| ::
              calls[j] == Call(k, t) && Accepted(window, calls, j) && calls[|calls| - 1].at - t <= window
    decreases |calls|
  {
    var n := |calls| - 1;
    var front, c := calls[..n], calls[n];
    forall j | 0 <= j < n ensures Accepted(window, calls, j) == Accepted(window, front, j) {
      assert calls[..j] == front[..j];
    }
    var s, e := State(window, front), Evict(State(window, front), window, c.at);
    assert Accepted(window, calls, n) <==> c.key !in e;
    if front != [] {
      LedgerIsRecentAccepts(window, front, k, t);
      if j :| 0 <= j < n && front[j] == Call(k, t) && Accepted(window, front, j) && c.at - t <= window {
        assert front[n - 1].at <= c.at;
      }
    }
  }

  /** Accept exactly when the key was not accepted within the last window: eviction, whichever
      call triggered it, never changes a decision. */
  lemma AcceptIffNotRecent(window: int, calls: seq<Call>, i: nat)
    requires window >= 0 && Monotone(calls) && i < |calls|
    ensures Accepted(window, calls, i) <==> !Recent(window, calls, i)
  {
    var front, c := calls[..i], calls[i];
    forall j | 0 <= j < i ensures Accepted(window, calls, j) == Accepted(window, front, j) {
      assert calls[..j] == front[..j];
    }
    var s := State(window, front);
    if front != [] {
      if c.key in s {
        LedgerIsRecentAccepts(window, front, c.key, s[c.key]);
      }
      if j :| 0 <= j < i && calls[j].key == c.key && Accepted(window, calls, j) && c.at - calls[j].at <= window {
        assert front[i - 1].at <= c.at;
        LedgerIsRecentAccepts(window, front, c.key, calls[j].at);
      }
    }
  }

  /** Two accepts of one key are more than a window apart. */
  lemma AcceptsAreSpaced(window: int, calls: seq<Call>, i: nat, j: nat)
    requires window >= 0 && Monotone(calls) && i < j < |calls|
    requires calls[i].key == calls[j].key && Accepted(window, calls, i) && Accepted(window, calls, j)
    ensures calls[j].at - calls[i].at > window
  {
    AcceptIffNotRecent(window, calls, j);
  }

  /** Every refusal is explained by an earlier accept of the same key within the window. */
  lemma RefusalHasACause(window: int, calls: seq<Call>, i: nat) returns (j: nat)
    requires window >= 0 && Monotone(calls) && i < |calls| && !Accepted(window, calls, i)
    ensures j < i && calls[j].key == calls[i].key && Accepted(window, calls, j)
    ensures calls[i].at - calls[j].at <= window
  {
    AcceptIffNotRecent(window, calls, i);
    j :| 0 <= j < i && calls[j].key == calls[i].key && Accepted(window, calls, j)
         && calls[i].at - calls[j].at <= window;
  }
}
