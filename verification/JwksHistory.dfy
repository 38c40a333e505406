/** What the JWKS cache holds after any run, told from the actions alone: which documents were
    installed, with which clock reading, and how the refreshes ended. */
module JwksHistory {
  import opened Json
  import opened Jwks

  /** The clock, the document that has been fetched and not yet installed, and what happened. */
  datatype Record = Record(clock: int, fetched: Option<Install>, installs: seq<Install>, flights: seq<Option<nat>>)

  function Note(r: Record, a: Action): Record {
    match a
    case Tick(ns) => r.(clock := r.clock + ns)
    case FetchOk(doc) => r.(fetched := Some(Install(doc, r.clock)))
    case FetchFail => r.(flights := r.flights + [None])
    case DoInstall => if r.fetched.Some? then r.(installs := r.installs + [r.fetched.value]) else r
    case Land => if r.installs == [] then r else r.(flights := r.flights + [Some(|r.installs| - 1)])
    case _ => r
  }

  function NoteAll(r: Record, acts: seq<Action>): Record
    decreases |acts|
  {
    if acts == [] then r else NoteAll(Note(r, acts[0]), acts[1..])
  }

  ghost predicate Agrees(s: State, r: Record) {
    && s.clock == r.clock && s.installs == r.installs && s.flights == r.flights
    && (s.flight.Fetched? ==> r.fetched == Some(Install(s.flight.doc, s.flight.now)))
  }

  lemma {:induction false} RunAgrees(s: State, r: Record, acts: seq<Action>)
    requires Inv(s) && CanRun(s, acts) && Agrees(s, r)
    ensures Agrees(Run(s, acts), NoteAll(r, acts)) && Run(s, acts).ttl == s.ttl
    decreases |acts|
  {
    if acts != [] {
      Step(s, acts[0]);
      RunAgrees(Apply(s, acts[0]), Note(r, acts[0]), acts[1..]);
    }
  }

  /** The installed documents are the fetched ones, each with the clock reading of the end of its
      fetch; the refreshes ended as their fetches did; and the ttl is the configured one, or an
      hour. */
  lemma StateIsRecorded(configured: int, doc: seq<Jwk>, at: int, acts: seq<Action>)
    requires CanRun(Init(configured, doc, at), acts)
    ensures var s := Run(Init(configured, doc, at), acts);
            var r := NoteAll(Record(at, None, [Install(doc, at)], []), acts);
            && s.clock == r.clock && s.installs == r.installs && s.flights == r.flights
            && s.ttl == if configured == 0 then 3_600_000_000_000 else configured
  {
    RunAgrees(Init(configured, doc, at), Record(at, None, [Install(doc, at)], []), acts);
  }

  // ---------- every lookup keeps its kid ----------

  function Kids(acts: seq<Action>): seq<string> {
    if acts == [] then [] else (if acts[0].Begin? then [acts[0].kid] else []) + Kids(acts[1..])
  }

  lemma {:induction false} LookupsKeepKids(s: State, acts: seq<Action>)
    requires Inv(s) && CanRun(s, acts)
    ensures var t := Run(s, acts);
            && |t.lookups| == |s.lookups| + |Kids(acts)|
            && (forall i | 0 <= i < |s.lookups| :: t.lookups[i].kid == s.lookups[i].kid)
            && (forall i | 0 <= i < |Kids(acts)| :: t.lookups[|s.lookups| + i].kid == Kids(acts)[i])
    decreases |acts|
  {
    if acts != [] {
      Step(s, acts[0]);
      LookupsKeepKids(Apply(s, acts[0]), acts[1..]);
    }
  }

  /** The n-th lookup is about the n-th kid asked for, from its start to its answer. */
  lemma LookupsAreTheirKids(configured: int, doc: seq<Jwk>, at: int, acts: seq<Action>)
    requires CanRun(Init(configured, doc, at), acts)
    ensures var s := Run(Init(configured, doc, at), acts);
            |s.lookups| == |Kids(acts)| && forall i | 0 <= i < |s.lookups| :: s.lookups[i].kid == Kids(acts)[i]
  {
    LookupsKeepKids(Init(configured, doc, at), acts);
  }

  // ---------- a refresh renews the cache ----------

  lemma {:induction false} RunAppend(s: State, xs: seq<Action>, ys: seq<Action>)
    requires CanRun(s, xs + ys)
    ensures CanRun(s, xs) && CanRun(Run(s, xs), ys) && Run(s, xs + ys) == Run(Run(s, xs), ys)
    decreases |xs|
  {
    if xs == [] {
      assert xs + ys == ys;
    } else {
      assert (xs + ys)[1..] == xs[1..] + ys;
      RunAppend(Apply(s, xs[0]), xs[1..], ys);
    }
  }

  /** A fetched document waits for its install. */
  lemma {:induction false} StaysFetched(s: State, acts: seq<Action>)
    requires CanRun(s, acts) && s.flight.Fetched? && DoInstall !in acts
    ensures Run(s, acts).flight == s.flight && Run(s, acts).ttl == s.ttl
    decreases |acts|
  {
    if acts != [] {
      assert acts[0] in acts && forall a | a in acts[1..] :: a in acts;
      StaysFetched(Apply(s, acts[0]), acts[1..]);
    }
  }

  lemma InstallOf(s: State, doc: seq<Jwk>, between: seq<Action>, rest: seq<Action>)
    requires CanRun(s, rest) && rest == [FetchOk(doc)] + (between + [DoInstall]) && DoInstall !in between
    ensures var t := Run(s, rest);
            && t.installs != [] && t.installs[|t.installs| - 1] == Install(doc, s.clock)
            && t.cache == CacheOf(s.ttl, Install(doc, s.clock)) && t.ttl == s.ttl
  {
    var s1 := Apply(s, FetchOk(doc));
    assert rest[1..] == between + [DoInstall];
    RunAppend(s1, between, [DoInstall]);
    StaysFetched(s1, between);
    var s2 := Run(s1, between);
    assert [DoInstall][1..] == [];
    assert Run(s2, [DoInstall]) == Apply(s2, DoInstall);
  }

  /** A document whose fetch ended at time t is installed as of t, whatever happens before the
      install, so that until t + ttl every key it lists is answered at once. */
  lemma RefreshRenews(configured: int, doc0: seq<Jwk>, at: int, before: seq<Action>, doc: seq<Jwk>,
                      between: seq<Action>, i: nat, key: Key)
    requires var acts := before + ([FetchOk(doc)] + (between + [DoInstall]));
             CanRun(Init(configured, doc0, at), acts) && DoInstall !in between
    ensures CanRun(Init(configured, doc0, at), before)
    ensures var s := Run(Init(configured, doc0, at), before + ([FetchOk(doc)] + (between + [DoInstall])));
            var t := Run(Init(configured, doc0, at), before).clock;
            && s.installs != [] && s.installs[|s.installs| - 1] == Install(doc, t)
            && s.cache.expiresAt == t + s.ttl
            && (Enabled(s, Probe(i)) && s.clock < t + s.ttl && Lists(doc, s.lookups[i].kid, key) ==>
                  var l := Apply(s, Probe(i)).lookups[i];
                  l.Answered? && l.key == key)
  {
    var init, rest := Init(configured, doc0, at), [FetchOk(doc)] + (between + [DoInstall]);
    RunAppend(init, before, rest);
    InstallOf(Run(init, before), doc, between, rest);
    AnswersAreComplete(configured, doc0, at, before + rest, i, key);
  }
}
