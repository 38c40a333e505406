/** The JWKS cache of the bearer-token validator (pkg/auth/oidc.go:154-189, 230-282): a key map with
    a TTL and a stale grace period, read by concurrent lookups and replaced by refreshes that
    singleflight runs one at a time. Key documents follow section 4 of RFC 7517. */
module Jwks {
  import opened Json

  const STALE_GRACE := 300_000_000_000
  const HOUR := 3_600_000_000_000

  // ---------- which keys of a document are usable ----------

  type Key = string

  /** decoded is what decodeRSA makes of the n and e members. */
  datatype Jwk = Jwk(kty: string, use: string, alg: string, kid: string, decoded: Option<Key>)

  predicate Usable(j: Jwk) {
    && j.kty == "RSA"
    && (j.use == "" || j.use == "sig")
    && (j.alg == "" || j.alg == "RS256" || j.alg == "RS384" || j.alg == "RS512")
    && j.decoded.Some?
  }

  function Select(doc: seq<Jwk>): map<string, Key> {
    if doc == [] then map[]
    else
      var m, j := Select(doc[..|doc| - 1]), doc[|doc| - 1];
      if Usable(j) then m[j.kid := j.decoded.value] else m
  }

  method SelectKeys(doc: seq<Jwk>) returns (keys: map<string, Key>)
    ensures keys == Select(doc)
  {
    keys := map[];
    for n := 0 to |doc|
      invariant keys == Select(doc[..n])
    {
      assert doc[..n + 1][..n] == doc[..n];
      var jwk := doc[n];
      if jwk.kty != "RSA" {
        continue;
      }
      if jwk.use != "" && jwk.use != "sig" {
        continue;
      }
      if jwk.alg != "" && jwk.alg != "RS256" && jwk.alg != "RS384" && jwk.alg != "RS512" {
        continue;
      }
      if jwk.decoded.None? {
        continue;
      }
      keys := keys[jwk.kid := jwk.decoded.value];
    }
    assert doc[..|doc|] == doc;
  }

  /** An RSA key that may sign, with an allowed algorithm or none, whose numbers decode. */
  function Offers(kid: string): Jwk -> bool {
    (j: Jwk) =>
      && j.kid == kid && j.kty == "RSA" && j.decoded != None
      && j.use in {"", "sig"} && j.alg in {"", "RS256", "RS384", "RS512"}
  }

  /** Entry i is the last one that p accepts. */
  ghost predicate LastAt(doc: seq<Jwk>, p: Jwk -> bool, i: int) {
    0 <= i < |doc| && p(doc[i]) && forall j | i < j < |doc| :: !p(doc[j])
  }

  ghost predicate LastIs(doc: seq<Jwk>, p: Jwk -> bool, key: Key) {
    exists i :: LastAt(doc, p, i) && doc[i].decoded == Some(key)
  }

  /** doc lists `key` under `kid`, in a usable entry that no later usable entry overrides. */
  ghost predicate Lists(doc: seq<Jwk>, kid: string, key: Key) {
    LastIs(doc, Offers(kid), key)
  }

  lemma LastIsAppend(front: seq<Jwk>, last: Jwk, p: Jwk -> bool, key: Key)
    ensures LastIs(front + [last], p, key) <==>
            if p(last) then last.decoded == Some(key) else LastIs(front, p, key)
  {
    var doc, n := front + [last], |front|;
    assert doc[n] == last && forall j | 0 <= j < n :: doc[j] == front[j];
    if p(last) {
      assert LastAt(doc, p, n);
      assert p(doc[n]);
      assert forall i | LastAt(doc, p, i) :: i == n;
    } else {
      forall i ensures LastAt(doc, p, i) <==> LastAt(front, p, i) {
      }
    }
  }

  lemma {:induction false} SelectIsLists(doc: seq<Jwk>, kid: string, key: Key)
    ensures kid in Select(doc) && Select(doc)[kid] == key <==> Lists(doc, kid, key)
  {
    if doc != [] {
      var front, last := doc[..|doc| - 1], doc[|doc| - 1];
      assert doc == front + [last];
      SelectIsLists(front, kid, key);
      LastIsAppend(front, last, Offers(kid), key);
    }
  }

  // ---------- the protocol ----------

  datatype Cache = Cache(keys: map<string, Key>, expiresAt: int, staleOk: int)

  function Get(keys: map<string, Key>, kid: string): Option<Key> {
    if kid in keys then Some(keys[kid]) else None
  }

  function CacheOf(ttl: int, i: Install): Cache {
    Cache(Select(i.doc), i.at + ttl, i.at + ttl + STALE_GRACE)
  }

  /** A successful refresh: the document and the clock reading taken before the lock. */
  datatype Install = Install(doc: seq<Jwk>, at: int)

  datatype Flight =
    | Landed                              // no refresh running
    | Fetching
    | Fetched(doc: seq<Jwk>, now: int)    // waiting for the write lock
    | Installed(index: nat)               // the three fields are replaced; not yet returned

  /** `seen` (history) is the install the first critical section read. */
  datatype Lookup =
    | Begun(kid: string)
    | Missed(kid: string, cached: Option<Key>, staleOk: int, seen: nat)
    | Waiting(kid: string, cached: Option<Key>, staleOk: int, seen: nat, flight: nat)
    | Reading(kid: string, seen: nat, flight: nat)
    | Answered(kid: string, key: Key, seen: nat, how: How)
    | Failed(kid: string)

  /** How a key was found, when, and (history) in which installed document. */
  datatype How =
    | Fast(at: int)
    | Stale(at: int, flight: nat)
    | Refreshed(doc: nat, flight: nat)

  datatype State = State(
    ttl: int,
    clock: int,
    cache: Cache,
    flight: Flight,
    lookups: seq<Lookup>,
    // history
    installs: seq<Install>,
    flights: seq<Option<nat>>)   // finished refreshes: the install each made, None on failure

  datatype Action =
    | Tick(ns: nat)
    | Begin(kid: string)
    | Probe(i: nat)
    | Join(i: nat)
    | FetchOk(doc: seq<Jwk>)
    | FetchFail
    | DoInstall
    | Land
    | Resume(i: nat)
    | ReadBack(i: nat)

  function TtlOf(configured: int): int {
    if configured == 0 then HOUR else configured
  }

  /** NewOIDC returns only after its first refresh succeeded. */
  function Init(configured: int, doc: seq<Jwk>, at: int): State {
    var first, ttl := Install(doc, at), TtlOf(configured);
    State(ttl, at, CacheOf(ttl, first), Landed, [], [first], [])
  }

  predicate Enabled(s: State, a: Action) {
    match a
    case Tick(_) => true
    case Begin(_) => true
    case Probe(i) => i < |s.lookups| && s.lookups[i].Begun?
    case Join(i) => i < |s.lookups| && s.lookups[i].Missed?
    case FetchOk(_) => s.flight.Fetching?
    case FetchFail => s.flight.Fetching?
    case DoInstall => s.flight.Fetched?
    case Land => s.flight.Installed?
    case Resume(i) => i < |s.lookups| && s.lookups[i].Waiting? && s.lookups[i].flight < |s.flights|
    case ReadBack(i) => i < |s.lookups| && s.lookups[i].Reading?
  }

  /** The first critical section of publicKey. */
  function ProbeStep(c: Cache, kid: string, now: int, seen: nat): Lookup {
    if now < c.expiresAt && kid in c.keys then Answered(kid, c.keys[kid], seen, Fast(now))
    else Missed(kid, Get(c.keys, kid), c.staleOk, seen)
  }

  /** What publicKey does when the refresh it waited for is over. */
  function ResumeStep(l: Lookup, ok: bool, now: int): Lookup
    requires l.Waiting?
  {
    if ok then Reading(l.kid, l.seen, l.flight)
    else if l.cached.Some? && now < l.staleOk then Answered(l.kid, l.cached.value, l.seen, Stale(now, l.flight))
    else Failed(l.kid)
  }

  /** The second critical section. */
  function ReadBackStep(l: Lookup, c: Cache, doc: nat): Lookup
    requires l.Reading?
  {
    if l.kid in c.keys then Answered(l.kid, c.keys[l.kid], l.seen, Refreshed(doc, l.flight)) else Failed(l.kid)
  }

  function Apply(s: State, a: Action): State
    requires Enabled(s, a) && s.installs != []
  {
    var newest := |s.installs| - 1;
    match a
    case Tick(ns) => s.(clock := s.clock + ns)
    case Begin(kid) => s.(lookups := s.lookups + [Begun(kid)])
    case Probe(i) => s.(lookups := s.lookups[i := ProbeStep(s.cache, s.lookups[i].kid, s.clock, newest)])
    case Join(i) =>
      var l := s.lookups[i];
      s.(flight := if s.flight.Landed? then Fetching else s.flight,
         lookups := s.lookups[i := Waiting(l.kid, l.cached, l.staleOk, l.seen, |s.flights|)])
    case FetchOk(doc) => s.(flight := Fetched(doc, s.clock))
    case FetchFail => s.(flight := Landed, flights := s.flights + [None])
    case DoInstall =>
      var i := Install(s.flight.doc, s.flight.now);
      s.(flight := Installed(|s.installs|), cache := CacheOf(s.ttl, i), installs := s.installs + [i])
    case Land => s.(flight := Landed, flights := s.flights + [Some(s.flight.index)])
    case Resume(i) =>
      var l := s.lookups[i];
      s.(lookups := s.lookups[i := ResumeStep(l, s.flights[l.flight].Some?, s.clock)])
    case ReadBack(i) => s.(lookups := s.lookups[i := ReadBackStep(s.lookups[i], s.cache, newest)])
  }

  // ---------- the invariant ----------

  /** The cached key and grace limit a lookup carries come from the install it saw. */
  ghost predicate FromSeen(s: State, l: Lookup)
    requires l.Missed? || l.Waiting?
  {
    && l.seen < |s.installs|
    && l.cached == Get(Select(s.installs[l.seen].doc), l.kid)
    && l.staleOk == s.installs[l.seen].at + s.ttl + STALE_GRACE
  }

  /** What an answer guarantees: one installed document lists the key under that kid; it is the one
      the lookup first saw or a newer one; and the answer is as fresh as its path promises. */
  ghost predicate Justified(s: State, kid: string, key: Key, seen: nat, how: How) {
    && seen < |s.installs|
    && match how
       case Fast(at) =>
         && Lists(s.installs[seen].doc, kid, key)
         && s.installs[seen].at <= at < s.installs[seen].at + s.ttl
       case Stale(at, flight) =>
         && Lists(s.installs[seen].doc, kid, key)
         && s.installs[seen].at <= at < s.installs[seen].at + s.ttl + STALE_GRACE
         && flight < |s.flights| && s.flights[flight] == None
       case Refreshed(doc, flight) =>
         && seen <= doc < |s.installs| && Lists(s.installs[doc].doc, kid, key)
         && flight < |s.flights| && s.flights[flight].Some? && s.flights[flight].value <= doc
  }

  ghost predicate LookupInv(s: State, l: Lookup) {
    match l
    case Begun(_) => true
    case Missed(_, _, _, _) => FromSeen(s, l)
    case Waiting(_, _, _, _, f) =>
      && FromSeen(s, l)
      && f <= |s.flights|
      && (f == |s.flights| ==> !s.flight.Landed?)
      && (f == |s.flights| && s.flight.Installed? ==> l.seen <= s.flight.index)
      && (f < |s.flights| && s.flights[f].Some? ==> l.seen <= s.flights[f].value)
    case Reading(_, seen, f) =>
      f < |s.flights| && s.flights[f].Some? && seen <= s.flights[f].value
    case Answered(kid, key, seen, how) => Justified(s, kid, key, seen, how)
    case Failed(_) => true
  }

  ghost predicate BaseInv(s: State) {
    && s.installs != []
    && s.cache == CacheOf(s.ttl, s.installs[|s.installs| - 1])
    && (forall i | 0 <= i < |s.installs| :: s.installs[i].at <= s.clock)
    && (forall i, j | 0 <= i < j < |s.installs| :: s.installs[i].at <= s.installs[j].at)
    && (s.flight.Fetched? ==> s.installs[|s.installs| - 1].at <= s.flight.now <= s.clock)
    && (s.flight.Installed? ==> s.flight.index == |s.installs| - 1)
    && (forall f | 0 <= f < |s.flights| :: s.flights[f].Some? ==> s.flights[f].value < |s.installs|)
  }

  ghost predicate Inv(s: State) {
    BaseInv(s) && forall i | 0 <= i < |s.lookups| :: LookupInv(s, s.lookups[i])
  }

  lemma InstallStep(s: State)
    requires BaseInv(s) && Enabled(s, DoInstall)
    ensures BaseInv(Apply(s, DoInstall))
  {
  }

  lemma BaseStep(s: State, a: Action)
    requires BaseInv(s) && Enabled(s, a)
    ensures BaseInv(Apply(s, a))
  {
    if a.DoInstall? {
      InstallStep(s);
    } else {
      assert Apply(s, a).installs == s.installs && Apply(s, a).cache == s.cache;
    }
  }

  /** How a step can go on with the refresh that is running: it is still running, or it has ended
      with an install that is no older than what any lookup has seen. */
  ghost predicate FlightGoesOn(s: State, s': State) {
    if |s'.flights| == |s.flights| then
      && (s'.flight.Landed? ==> s.flight.Landed?)
      && (s'.flight.Installed? ==> s'.flight == s.flight || s'.flight.index >= |s.installs|)
    else
      && |s'.flights| == |s.flights| + 1
      && (s'.flights[|s.flights|].Some? ==>
            s.flight.Installed? && s'.flights[|s.flights|].value == s.flight.index)
  }

  lemma StepGrows(s: State, a: Action)
    requires BaseInv(s) && Enabled(s, a)
    ensures var s' := Apply(s, a);
            s.installs <= s'.installs && s.flights <= s'.flights && s'.ttl == s.ttl && FlightGoesOn(s, s')
  {
  }

  lemma LookupKept(s: State, s': State, l: Lookup)
    requires LookupInv(s, l) && BaseInv(s)
    requires s.installs <= s'.installs && s.flights <= s'.flights && s'.ttl == s.ttl && FlightGoesOn(s, s')
    ensures LookupInv(s', l)
  {
  }

  /** A step that does not touch this lookup keeps what is known about it. */
  lemma Undisturbed(s: State, a: Action, l: Lookup)
    requires BaseInv(s) && Enabled(s, a) && LookupInv(s, l)
    ensures LookupInv(Apply(s, a), l)
  {
    StepGrows(s, a);
    LookupKept(s, Apply(s, a), l);
  }

  lemma ProbeKeeps(s: State, i: nat)
    requires Inv(s) && Enabled(s, Probe(i))
    ensures LookupInv(s, ProbeStep(s.cache, s.lookups[i].kid, s.clock, |s.installs| - 1))
  {
    var kid := s.lookups[i].kid;
    if kid in s.cache.keys {
      SelectIsLists(s.installs[|s.installs| - 1].doc, kid, s.cache.keys[kid]);
    }
  }

  lemma ResumeKeeps(s: State, i: nat)
    requires Inv(s) && Enabled(s, Resume(i))
    ensures var l := s.lookups[i];
            LookupInv(s, ResumeStep(l, s.flights[l.flight].Some?, s.clock))
  {
    var l := s.lookups[i];
    assert LookupInv(s, l);
    if l.cached.Some? {
      SelectIsLists(s.installs[l.seen].doc, l.kid, l.cached.value);
    }
  }

  lemma ReadBackKeeps(s: State, i: nat)
    requires Inv(s) && Enabled(s, ReadBack(i))
    ensures LookupInv(s, ReadBackStep(s.lookups[i], s.cache, |s.installs| - 1))
  {
    var l := s.lookups[i];
    assert LookupInv(s, l);
    if l.kid in s.cache.keys {
      SelectIsLists(s.installs[|s.installs| - 1].doc, l.kid, s.cache.keys[l.kid]);
    }
  }

  /** The lookup that an action updates keeps its invariant. */
  lemma Updated(s: State, a: Action, i: nat)
    requires Inv(s) && Enabled(s, a)
    requires a == Probe(i) || a == Resume(i) || a == ReadBack(i)
    ensures LookupInv(Apply(s, a), Apply(s, a).lookups[i])
  {
    var l := Apply(s, a).lookups[i];
    match a
    case Probe(_) => ProbeKeeps(s, i);
    case Resume(_) => ResumeKeeps(s, i);
    case ReadBack(_) => ReadBackKeeps(s, i);
    assert LookupInv(s, l);
    Undisturbed(s, a, l);
  }

  lemma JoinKeeps(s: State, i: nat)
    requires Inv(s) && Enabled(s, Join(i))
    ensures LookupInv(Apply(s, Join(i)), Apply(s, Join(i)).lookups[i])
  {
    assert LookupInv(s, s.lookups[i]);
  }

  lemma LookupStep(s: State, a: Action, n: nat)
    requires Inv(s) && Enabled(s, a) && n < |Apply(s, a).lookups|
    ensures LookupInv(Apply(s, a), Apply(s, a).lookups[n])
  {
    if a == Join(n) {
      JoinKeeps(s, n);
    } else if a == Probe(n) || a == Resume(n) || a == ReadBack(n) {
      Updated(s, a, n);
    } else if n < |s.lookups| {
      Undisturbed(s, a, s.lookups[n]);
    }
  }

  lemma Step(s: State, a: Action)
    requires Inv(s) && Enabled(s, a)
    ensures Inv(Apply(s, a))
  {
    BaseStep(s, a);
    forall n | 0 <= n < |Apply(s, a).lookups| ensures LookupInv(Apply(s, a), Apply(s, a).lookups[n]) {
      LookupStep(s, a, n);
    }
  }

  // ---------- every interleaving ----------

  predicate CanRun(s: State, acts: seq<Action>)
    decreases |acts|
  {
    s.installs != [] &&
    (acts == [] || (Enabled(s, acts[0]) && CanRun(Apply(s, acts[0]), acts[1..])))
  }

  function Run(s: State, acts: seq<Action>): State
    requires CanRun(s, acts)
    decreases |acts|
  {
    if acts == [] then s else Run(Apply(s, acts[0]), acts[1..])
  }

  lemma {:induction false} RunKeepsInv(s: State, acts: seq<Action>)
    requires Inv(s) && CanRun(s, acts)
    ensures Inv(Run(s, acts))
    decreases |acts|
  {
    if acts != [] {
      Step(s, acts[0]);
      RunKeepsInv(Apply(s, acts[0]), acts[1..]);
    }
  }

  /** In every reachable state every returned key is justified. */
  lemma EveryAnswerIsJustified(configured: int, doc: seq<Jwk>, at: int, acts: seq<Action>, i: nat)
    requires CanRun(Init(configured, doc, at), acts)
    requires var s := Run(Init(configured, doc, at), acts); i < |s.lookups| && s.lookups[i].Answered?
    ensures var s := Run(Init(configured, doc, at), acts);
            var l := s.lookups[i];
            Justified(s, l.kid, l.key, l.seen, l.how)
  {
    RunKeepsInv(Init(configured, doc, at), acts);
    assert LookupInv(Run(Init(configured, doc, at), acts), Run(Init(configured, doc, at), acts).lookups[i]);
  }

  /** keys, expiresAt and staleOK always belong to one install, the newest: its document's keys,
      the ttl and five more minutes from its time. */
  lemma FieldsBelongTogether(configured: int, doc: seq<Jwk>, at: int, acts: seq<Action>, kid: string, key: Key)
    requires CanRun(Init(configured, doc, at), acts)
    ensures var s := Run(Init(configured, doc, at), acts);
            && s.installs != []
            && var newest := s.installs[|s.installs| - 1];
               && (kid in s.cache.keys && s.cache.keys[kid] == key <==> Lists(newest.doc, kid, key))
               && s.cache.expiresAt == newest.at + s.ttl
               && s.cache.staleOk == s.cache.expiresAt + 300_000_000_000
  {
    RunKeepsInv(Init(configured, doc, at), acts);
    var s := Run(Init(configured, doc, at), acts);
    SelectIsLists(s.installs[|s.installs| - 1].doc, kid, key);
  }

  /** A lookup answers whenever it may: the first section exactly when the newest document lists the
      key and is within ttl, the second exactly when the newest document lists it. */
  lemma AnswersAreComplete(configured: int, doc: seq<Jwk>, at: int, acts: seq<Action>, i: nat, key: Key)
    requires CanRun(Init(configured, doc, at), acts)
    ensures var s := Run(Init(configured, doc, at), acts);
            var newest := |s.installs| - 1;
            && newest >= 0
            && (Enabled(s, Probe(i)) ==>
                  var kid := s.lookups[i].kid;
                  Apply(s, Probe(i)).lookups[i] == Answered(kid, key, newest, Fast(s.clock)) <==>
                  Lists(s.installs[newest].doc, kid, key) && s.clock < s.installs[newest].at + s.ttl)
            && (Enabled(s, ReadBack(i)) ==>
                  var l := s.lookups[i];
                  Apply(s, ReadBack(i)).lookups[i] == Answered(l.kid, key, l.seen, Refreshed(newest, l.flight)) <==>
                  Lists(s.installs[newest].doc, l.kid, key))
  {
    var s := Run(Init(configured, doc, at), acts);
    RunKeepsInv(Init(configured, doc, at), acts);
    if i < |s.lookups| {
      SelectIsLists(s.installs[|s.installs| - 1].doc, s.lookups[i].kid, key);
    }
  }

  /** After a failed refresh a lookup answers exactly when the document it saw lists the key and is
      within the grace period. */
  lemma StaleAnswersAreComplete(configured: int, doc: seq<Jwk>, at: int, acts: seq<Action>, i: nat, key: Key)
    requires CanRun(Init(configured, doc, at), acts)
    requires var s := Run(Init(configured, doc, at), acts);
             Enabled(s, Resume(i)) && s.installs != [] && s.flights[s.lookups[i].flight].None?
    ensures var s := Run(Init(configured, doc, at), acts);
            var l := s.lookups[i];
            && l.seen < |s.installs|
            && (Apply(s, Resume(i)).lookups[i] == Answered(l.kid, key, l.seen, Stale(s.clock, l.flight)) <==>
                Lists(s.installs[l.seen].doc, l.kid, key) && s.clock < s.installs[l.seen].at + s.ttl + STALE_GRACE)
  {
    var s := Run(Init(configured, doc, at), acts);
    RunKeepsInv(Init(configured, doc, at), acts);
    assert LookupInv(s, s.lookups[i]);
    SelectIsLists(s.installs[s.lookups[i].seen].doc, s.lookups[i].kid, key);
  }

  lemma {:induction false} Later(s: State, acts: seq<Action>, i: nat)
    requires CanRun(s, acts) && i < |s.lookups| && s.lookups[i].Begun?
    requires Inv(s)
    ensures var t := Run(s, acts);
            && i < |t.lookups|
            && (t.lookups[i].Answered? ==> |s.installs| - 1 <= t.lookups[i].seen)
            && s.installs <= t.installs
    decreases |acts|
  {
    if acts != [] {
      var s' := Apply(s, acts[0]);
      Step(s, acts[0]);
      if s'.lookups[i].Begun? {
        Later(s', acts[1..], i);
      } else {
        SeenIsFixed(s', acts[1..], i);
      }
    }
  }

  predicate HasSeen(l: Lookup, seen: nat) {
    match l
    case Begun(_) => false
    case Failed(_) => true
    case _ => l.seen == seen
  }

  lemma {:induction false} SeenIsFixed(s: State, acts: seq<Action>, i: nat)
    requires CanRun(s, acts) && i < |s.lookups| && !s.lookups[i].Begun?
    ensures var t := Run(s, acts);
            && i < |t.lookups| && s.installs <= t.installs
            && (s.lookups[i].Failed? ==> t.lookups[i].Failed?)
            && (!s.lookups[i].Failed? ==> HasSeen(t.lookups[i], s.lookups[i].seen))
    decreases |acts|
  {
    if acts != [] {
      SeenIsFixed(Apply(s, acts[0]), acts[1..], i);
    }
  }

  /** Revocation: once a document is installed, a lookup that starts afterwards never returns a
      key that neither it nor any later document lists under that kid. */
  lemma RevokedKeysAreGone(configured: int, doc: seq<Jwk>, at: int, before: seq<Action>, after: seq<Action>, i: nat)
    requires CanRun(Init(configured, doc, at), before)
    requires CanRun(Run(Init(configured, doc, at), before), after)
    requires var s := Run(Init(configured, doc, at), before); i < |s.lookups| && s.lookups[i].Begun?
    ensures var s := Run(Init(configured, doc, at), before);
            var t := Run(s, after);
            i < |t.lookups| && (t.lookups[i].Answered? ==>
              exists d | |s.installs| - 1 <= d < |t.installs| ::
                Lists(t.installs[d].doc, t.lookups[i].kid, t.lookups[i].key))
  {
    var s := Run(Init(configured, doc, at), before);
    RunKeepsInv(Init(configured, doc, at), before);
    RunKeepsInv(s, after);
    Later(s, after, i);
    var t := Run(s, after);
    assert LookupInv(t, t.lookups[i]);
    if t.lookups[i].Answered? {
      var l := t.lookups[i];
      var d := if l.how.Refreshed? then l.how.doc else l.seen;
      assert Lists(t.installs[d].doc, l.kid, l.key);
    }
  }

  // ---------- the object the critical sections work on ----------

  class KeyCache {
    const ttl: int
    var keys: map<string, Key>
    var expiresAt: int
    var staleOk: int

    function View(): Cache
      reads this
    {
      Cache(keys, expiresAt, staleOk)
    }

    constructor (configured: int, doc: seq<Jwk>, at: int)
      ensures ttl == TtlOf(configured) && View() == CacheOf(ttl, Install(doc, at))
    {
      ttl := TtlOf(configured);
      new;
      InstallDocument(doc, at);
    }

    /** refreshJWKS after a successful fetch. */
    method InstallDocument(doc: seq<Jwk>, now: int)
      modifies this
      ensures View() == CacheOf(ttl, Install(doc, now))
    {
      var selected := SelectKeys(doc);
      keys := selected;
      expiresAt := now + ttl;
      staleOk := now + ttl + STALE_GRACE;
    }

    /** The read-locked head of publicKey. */
    method ProbeKey(kid: string, now: int, ghost seen: nat)
      returns (hit: Option<Key>, cached: Option<Key>, graceUntil: int)
      ensures ProbeStep(View(), kid, now, seen)
           == if hit.Some? then Answered(kid, hit.value, seen, Fast(now)) else Missed(kid, cached, graceUntil, seen)
    {
      hit := None;
      cached := if kid in keys then Some(keys[kid]) else None;
      graceUntil := staleOk;
      if now < expiresAt {
        if kid in keys {
          hit := Some(keys[kid]);
        }
      }
    }
  }
}
