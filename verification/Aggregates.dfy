/** The in-memory dashboard aggregates (pkg/audit/memory.go:231-379): TimeSeries, Breakdown and
    Stats, each one loop over the same events with its own accumulators. */
module Aggregates {
  import opened Json
  import opened Audit
  import opened Sorting

  // ---------- windows and tallies ----------

  datatype Window = Window(from: Option<int>, to: Option<int>)

  predicate InWindow(w: Window, ev: Event) {
    && (w.from.Some? ==> ev.ts >= w.from.value)
    && (w.to.Some? ==> ev.ts <= w.to.value)
  }

  datatype Acc = Acc(count: nat, errors: nat, totalDur: int)

  function Zero(): Acc { Acc(0, 0, 0) }

  function Unit(ev: Event): Acc {
    Acc(1, if ev.success then 0 else 1, ev.durationMs)
  }

  function Plus(a: Acc, b: Acc): Acc {
    Acc(a.count + b.count, a.errors + b.errors, a.totalDur + b.totalDur)
  }

  /** Count, errors and total duration of the events that satisfy p. */
  function Tally(events: seq<Event>, p: Event -> bool): Acc {
    if events == [] then Zero()
    else
      var ev := events[|events| - 1];
      Plus(Tally(events[..|events| - 1], p), if p(ev) then Unit(ev) else Zero())
  }

  function Inside(w: Window): Event -> bool {
    ev => InWindow(w, ev)
  }

  function InGroup<K(==)>(w: Window, key: Event -> K, k: K): Event -> bool {
    ev => InWindow(w, ev) && key(ev) == k
  }

  lemma TallyStep(events: seq<Event>, ev: Event, p: Event -> bool)
    ensures Tally(events + [ev], p) == Plus(Tally(events, p), if p(ev) then Unit(ev) else Zero())
  {
    assert (events + [ev])[..|events|] == events;
  }

  // ---------- grouping conserves ----------

  datatype Group<K> = Group(key: K, acc: Acc)

  function Total<K>(gs: seq<Group<K>>): Acc {
    if gs == [] then Zero() else Plus(Total(gs[..|gs| - 1]), gs[|gs| - 1].acc)
  }

  ghost predicate DistinctKeys<K>(gs: seq<Group<K>>) {
    forall i, j | 0 <= i < j < |gs| :: gs[i].key != gs[j].key
  }

  ghost predicate Covers<K>(gs: seq<Group<K>>, k: K) {
    exists i :: 0 <= i < |gs| && gs[i].key == k
  }

  /** gs is the grouping of the window's events by `key`: one group per key that occurs, holding
      that key's tally. */
  ghost predicate Groups<K>(events: seq<Event>, w: Window, key: Event -> K, gs: seq<Group<K>>) {
    && DistinctKeys(gs)
    && (forall g | g in gs :: g.acc == Tally(events, InGroup(w, key, g.key)) && g.acc.count > 0)
    && (forall ev | ev in events && InWindow(w, ev) :: Covers(gs, key(ev)))
  }

  function Sum(xs: seq<Acc>): Acc {
    if xs == [] then Zero() else Plus(Sum(xs[..|xs| - 1]), xs[|xs| - 1])
  }

  /** Adding u at one position adds u to the sum. */
  lemma {:induction false} SumStep(xs: seq<Acc>, ys: seq<Acc>, at: int, u: Acc)
    requires |xs| == |ys| && forall i | 0 <= i < |xs| :: ys[i] == if i == at then Plus(xs[i], u) else xs[i]
    ensures Sum(ys) == if 0 <= at < |xs| then Plus(Sum(xs), u) else Sum(xs)
    decreases |xs|
  {
    if xs != [] {
      SumStep(xs[..|xs| - 1], ys[..|ys| - 1], at, u);
    }
  }

  lemma {:induction false} SumOfZeros(xs: seq<Acc>)
    requires forall x | x in xs :: x == Zero()
    ensures Sum(xs) == Zero()
    decreases |xs|
  {
    if xs != [] {
      var front, last := xs[..|xs| - 1], xs[|xs| - 1];
      assert last in xs && forall x | x in front :: x in xs;
      SumOfZeros(front);
    }
  }

  ghost function ByKey<K>(events: seq<Event>, w: Window, key: Event -> K, ks: seq<K>): (xs: seq<Acc>)
    ensures |xs| == |ks| && forall i | 0 <= i < |ks| :: xs[i] == Tally(events, InGroup(w, key, ks[i]))
  {
    seq(|ks|, i requires 0 <= i < |ks| => Tally(events, InGroup(w, key, ks[i])))
  }

  lemma GroupStep<K>(events: seq<Event>, ev: Event, more: seq<Event>, w: Window, key: Event -> K, k: K)
    requires more == events + [ev]
    ensures Tally(more, InGroup(w, key, k))
         == Plus(Tally(events, InGroup(w, key, k)), if InWindow(w, ev) && key(ev) == k then Unit(ev) else Zero())
  {
    TallyStep(events, ev, InGroup(w, key, k));
  }

  lemma KeyedStep<K>(front: seq<Event>, ev: Event, events: seq<Event>, w: Window, key: Event -> K, ks: seq<K>)
    requires events == front + [ev] && forall i, j | 0 <= i < j < |ks| :: ks[i] != ks[j]
    requires InWindow(w, ev) ==> key(ev) in ks
    ensures Sum(ByKey(events, w, key, ks))
         == Plus(Sum(ByKey(front, w, key, ks)), if InWindow(w, ev) then Unit(ev) else Zero())
  {
    var xs, ys := ByKey(front, w, key, ks), ByKey(events, w, key, ks);
    var at := -1;
    if InWindow(w, ev) {
      at :| 0 <= at < |ks| && ks[at] == key(ev);
    }
    forall i | 0 <= i < |ks| ensures ys[i] == if i == at then Plus(xs[i], Unit(ev)) else xs[i] {
      GroupStep(front, ev, events, w, key, ks[i]);
    }
    SumStep(xs, ys, at, Unit(ev));
  }

  lemma {:induction false} KeyedIsTally<K>(events: seq<Event>, w: Window, key: Event -> K, ks: seq<K>)
    requires forall i, j | 0 <= i < j < |ks| :: ks[i] != ks[j]
    requires forall ev | ev in events && InWindow(w, ev) :: key(ev) in ks
    ensures Sum(ByKey(events, w, key, ks)) == Tally(events, Inside(w))
    decreases |events|
  {
    if events == [] {
      SumOfZeros(ByKey(events, w, key, ks));
    } else {
      var front, ev := events[..|events| - 1], events[|events| - 1];
      assert events == front + [ev] && ev in events;
      KeyedIsTally(front, w, key, ks);
      KeyedStep(front, ev, events, w, key, ks);
      TallyStep(front, ev, Inside(w));
    }
  }

  function KeysOf<K>(gs: seq<Group<K>>): (ks: seq<K>)
    ensures |ks| == |gs| && forall i | 0 <= i < |gs| :: ks[i] == gs[i].key
  {
    seq(|gs|, i requires 0 <= i < |gs| => gs[i].key)
  }

  lemma {:induction false} TotalIsSum<K>(gs: seq<Group<K>>, xs: seq<Acc>)
    requires |xs| == |gs| && forall i | 0 <= i < |gs| :: xs[i] == gs[i].acc
    ensures Total(gs) == Sum(xs)
    decreases |gs|
  {
    if gs != [] {
      TotalIsSum(gs[..|gs| - 1], xs[..|xs| - 1]);
    }
  }

  /** Whatever the grouping, counts, errors and durations add up to the window's. */
  lemma GroupingConserves<K>(events: seq<Event>, w: Window, key: Event -> K, gs: seq<Group<K>>)
    requires Groups(events, w, key, gs)
    ensures Total(gs) == Tally(events, Inside(w))
  {
    var ks := KeysOf(gs);
    TotalIsSum(gs, ByKey(events, w, key, ks));
    forall ev | ev in events && InWindow(w, ev) ensures key(ev) in ks {
      var i :| 0 <= i < |gs| && gs[i].key == key(ev);
      assert ks[i] == key(ev);
    }
    KeyedIsTally(events, w, key, ks);
  }

  // ---------- the accumulator loop ----------

  ghost predicate Tallied<K>(events: seq<Event>, w: Window, key: Event -> K, m: map<K, Acc>) {
    && (forall k | k in m :: m[k] == Tally(events, InGroup(w, key, k)) && m[k].count > 0)
    && (forall ev | ev in events && InWindow(w, ev) :: key(ev) in m)
  }

  lemma {:induction false} NoneInGroup<K>(events: seq<Event>, w: Window, key: Event -> K, k: K)
    requires forall ev | ev in events && InWindow(w, ev) :: key(ev) != k
    ensures Tally(events, InGroup(w, key, k)) == Zero()
    decreases |events|
  {
    if events != [] {
      var front, ev := events[..|events| - 1], events[|events| - 1];
      assert events == front + [ev] && ev in events && forall e | e in front :: e in events;
      NoneInGroup(front, w, key, k);
      assert !(InWindow(w, ev) && key(ev) == k);
      GroupStep(front, ev, events, w, key, k);
    }
  }

  lemma TalliedSkip<K>(events: seq<Event>, ev: Event, w: Window, key: Event -> K, m: map<K, Acc>)
    requires Tallied(events, w, key, m) && !InWindow(w, ev)
    ensures Tallied(events + [ev], w, key, m)
  {
    forall k | k in m ensures m[k] == Tally(events + [ev], InGroup(w, key, k)) {
      TallyStep(events, ev, InGroup(w, key, k));
    }
  }

  lemma TalliedStep<K>(events: seq<Event>, ev: Event, w: Window, key: Event -> K, m: map<K, Acc>, m': map<K, Acc>)
    requires Tallied(events, w, key, m) && InWindow(w, ev)
    requires m' == m[key(ev) := Plus(if key(ev) in m then m[key(ev)] else Zero(), Unit(ev))]
    ensures Tallied(events + [ev], w, key, m')
  {
    if key(ev) !in m {
      NoneInGroup(events, w, key, key(ev));
    }
    forall k | k in m' ensures m'[k] == Tally(events + [ev], InGroup(w, key, k)) && m'[k].count > 0 {
      TallyStep(events, ev, InGroup(w, key, k));
    }
  }

  function Counted<K>(m: map<K, Acc>, k: K, ev: Event): map<K, Acc> {
    m[k := Plus(if k in m then m[k] else Zero(), Unit(ev))]
  }

  lemma TalliedAt<K>(events: seq<Event>, n: nat, w: Window, key: Event -> K, m: map<K, Acc>)
    requires n < |events| && Tallied(events[..n], w, key, m)
    ensures Tallied(events[..n + 1], w, key,
                    if InWindow(w, events[n]) then Counted(m, key(events[n]), events[n]) else m)
  {
    var ev := events[n];
    assert events[..n + 1] == events[..n] + [ev];
    if InWindow(w, ev) {
      TalliedStep(events[..n], ev, w, key, m, Counted(m, key(ev), ev));
    } else {
      TalliedSkip(events[..n], ev, w, key, m);
    }
  }

  /** One pass with a map of accumulators. */
  method Accumulate<K(!new)>(events: seq<Event>, w: Window, key: Event -> K) returns (m: map<K, Acc>)
    ensures Tallied(events, w, key, m)
  {
    m := map[];
    for n := 0 to |events|
      invariant Tallied(events[..n], w, key, m)
    {
      TalliedAt(events, n, w, key, m);
      if InWindow(w, events[n]) {
        m := Counted(m, key(events[n]), events[n]);
      }
    }
    assert events[..|events|] == events;
  }

  /** The map's entries, in some order. */
  method Entries<K>(m: map<K, Acc>) returns (gs: seq<Group<K>>)
    ensures DistinctKeys(gs)
    ensures forall g | g in gs :: g.key in m && m[g.key] == g.acc
    ensures forall k | k in m :: Covers(gs, k)
  {
    gs := [];
    var rest := m.Keys;
    while rest != {}
      invariant rest <= m.Keys && DistinctKeys(gs)
      invariant forall g | g in gs :: g.key in m && g.key !in rest && m[g.key] == g.acc
      invariant forall k | k in m && k !in rest :: Covers(gs, k)
      decreases rest
    {
      var k :| k in rest;
      rest := rest - {k};
      ghost var was := gs;
      gs := gs + [Group(k, m[k])];
      forall x | x in m && x !in rest ensures Covers(gs, x) {
        if x == k {
          assert gs[|was|].key == k;
        } else {
          var i :| 0 <= i < |was| && was[i].key == x;
          assert gs[i].key == x;
        }
      }
    }
  }

  // ---------- TimeSeries ----------

  const MINUTE := 60_000_000_000

  function BucketSize(bucket: int): (b: int)
    ensures b > 0
  {
    if bucket <= 0 then MINUTE else bucket
  }

  /** Time.Truncate: down to a multiple of the bucket. */
  function Truncate(t: int, bucket: int): (r: int)
    requires bucket > 0
    ensures r <= t < r + bucket
  {
    bucket * (t / bucket)
  }

  function BucketOf(bucket: int): Event -> int {
    (ev: Event) => Truncate(ev.ts, BucketSize(bucket))
  }

  predicate GroupLe(a: Group<int>, b: Group<int>) {
    a.key <= b.key
  }

  predicate CountGe(a: Group<string>, b: Group<string>) {
    a.acc.count >= b.acc.count
  }

  lemma SortKeepsGroups<K(!new)>(events: seq<Event>, w: Window, key: Event -> K, gs: seq<Group<K>>,
                                 le: (Group<K>, Group<K>) -> bool)
    requires Groups(events, w, key, gs) && TotalPreorder(le)
    ensures Groups(events, w, key, Sort(gs, le)) && Sorted(Sort(gs, le), le)
  {
    var s := Sort(gs, le);
    SortSorted(gs, le);
    SameElements(gs, s);
    KeysStayDistinct(gs, s);
    forall ev | ev in events && InWindow(w, ev) ensures Covers(s, key(ev)) {
      CoverMoves(gs, s, key(ev));
    }
  }

  lemma CoverMoves<K>(gs: seq<Group<K>>, s: seq<Group<K>>, k: K)
    requires Covers(gs, k) && forall g | g in gs :: g in s
    ensures Covers(s, k)
  {
    var i :| 0 <= i < |gs| && gs[i].key == k;
    assert gs[i] in gs;
    var j :| 0 <= j < |s| && s[j] == gs[i];
  }

  lemma KeysStayDistinct<K>(gs: seq<Group<K>>, s: seq<Group<K>>)
    requires DistinctKeys(gs) && multiset(gs) == multiset(s) && forall g | g in s :: g in gs
    ensures DistinctKeys(s)
  {
    DistinctOnce(gs);
    OnceIsUnique(s);
    forall i, j | 0 <= i < j < |s| ensures s[i].key != s[j].key {
      assert s[i] in gs && s[j] in gs && s[i] != s[j];
    }
  }

  lemma {:induction false} DistinctOnce<K>(gs: seq<Group<K>>)
    requires DistinctKeys(gs)
    ensures forall g :: multiset(gs)[g] <= 1
    decreases |gs|
  {
    if gs != [] {
      var front, last := gs[..|gs| - 1], gs[|gs| - 1];
      DistinctOnce(front);
      assert gs == front + [last] && last !in front;
    }
  }

  datatype TimePoint = TimePoint(time: int, count: nat, errors: nat, avgDurMs: real)

  function PointOf(g: Group<int>): TimePoint {
    TimePoint(g.key, g.acc.count, g.acc.errors,
              if g.acc.count > 0 then g.acc.totalDur as real / g.acc.count as real else 0.0)
  }

  ghost predicate PointsOf(points: seq<TimePoint>, gs: seq<Group<int>>) {
    |points| == |gs| && forall i | 0 <= i < |gs| :: points[i] == PointOf(gs[i])
  }

  /** The points are the groups of the bucketed window in strictly increasing order of time, so
      they partition its events. */
  ghost predicate IsSeries(events: seq<Event>, w: Window, bucket: int, points: seq<TimePoint>) {
    && (exists gs :: Groups(events, w, BucketOf(bucket), gs) && PointsOf(points, gs))
    && (forall i, j | 0 <= i < j < |points| :: points[i].time < points[j].time)
  }

  method TimeSeries(events: seq<Event>, w: Window, bucket: int) returns (points: seq<TimePoint>)
    ensures IsSeries(events, w, bucket, points)
  {
    var m := Accumulate(events, w, BucketOf(bucket));
    var groups := Entries(m);
    SortKeepsGroups(events, w, BucketOf(bucket), groups, GroupLe);
    var gs := Sort(groups, GroupLe);
    points := Points(gs);
    assert forall i, j | 0 <= i < j < |gs| :: GroupLe(gs[i], gs[j]) && gs[i].key != gs[j].key;
  }

  method Points(gs: seq<Group<int>>) returns (points: seq<TimePoint>)
    ensures PointsOf(points, gs)
  {
    points := [];
    for n := 0 to |gs|
      invariant |points| == n && forall i | 0 <= i < n :: points[i] == PointOf(gs[i])
    {
      points := points + [PointOf(gs[n])];
    }
  }

  // ---------- Breakdown ----------

  datatype Dimension = ByTool | ByUser | BySuccess | ByAuthType

  function ParseDimension(dim: string): Option<Dimension> {
    if dim == "tool" then Some(ByTool)
    else if dim == "user" then Some(ByUser)
    else if dim == "success" then Some(BySuccess)
    else if dim == "auth_type" then Some(ByAuthType)
    else None
  }

  function KeyFn(d: Dimension): Event -> string {
    match d
    case ByTool => (ev: Event) => ev.toolName
    case ByUser => (ev: Event) => ev.userSubject
    case BySuccess => (ev: Event) => if ev.success then "success" else "error"
    case ByAuthType => (ev: Event) => ev.authType
  }

  /** The groups of the window by the dimension's key, largest first (ties in any order); an
      unknown dimension has none. */
  ghost predicate IsBreakdown(events: seq<Event>, w: Window, dim: string, gs: seq<Group<string>>) {
    && Sorted(gs, CountGe)
    && match ParseDimension(dim)
       case None => gs == []
       case Some(d) => Groups(events, w, KeyFn(d), gs)
  }

  method Breakdown(events: seq<Event>, w: Window, dim: string) returns (gs: seq<Group<string>>)
    ensures IsBreakdown(events, w, dim, gs)
  {
    var d := ParseDimension(dim);
    if d.None? {
      return [];
    }
    var m := Accumulate(events, w, KeyFn(d.value));
    gs := Entries(m);
    SortKeepsGroups(events, w, KeyFn(d.value), gs, CountGe);
    gs := Sort(gs, CountGe);
  }

  // ---------- Stats ----------

  function Durations(events: seq<Event>, w: Window): seq<int> {
    if events == [] then []
    else
      var ev := events[|events| - 1];
      Durations(events[..|events| - 1], w) + (if InWindow(w, ev) then [ev.durationMs] else [])
  }

  lemma {:induction false} DurationCount(events: seq<Event>, w: Window)
    ensures |Durations(events, w)| == Tally(events, Inside(w)).count
  {
    if events != [] {
      DurationCount(events[..|events| - 1], w);
    }
  }

  predicate IntLe(a: int, b: int) {
    a <= b
  }

  datatype Stats = Stats(total: nat, errors: nat, errorRate: real, avgDurationMs: real,
                         p50: int, p95: int, uniqueSubjects: nat, uniqueTools: nat)

  function Subjects(events: seq<Event>, w: Window): set<string> {
    set ev | ev in events && InWindow(w, ev) && ev.userSubject != "" :: ev.userSubject
  }

  function Tools(events: seq<Event>, w: Window): set<string> {
    set ev | ev in events && InWindow(w, ev) && ev.toolName != "" :: ev.toolName
  }

  /** P50 is the element at n/2 of the sorted durations, P95 the one at floor(0.95 (n - 1)). */
  function P50(sorted: seq<int>): int
    requires sorted != []
  {
    sorted[|sorted| / 2]
  }

  function P95(sorted: seq<int>): int
    requires sorted != []
  {
    sorted[19 * (|sorted| - 1) / 20]
  }

  /** The statistics of a window; those of an empty one are all zero. */
  ghost predicate IsStats(events: seq<Event>, w: Window, s: Stats) {
    var acc, sorted := Tally(events, Inside(w)), Sort(Durations(events, w), IntLe);
    && s.total == acc.count && s.errors == acc.errors
    && s.uniqueSubjects == |Subjects(events, w)| && s.uniqueTools == |Tools(events, w)|
    && (s.total > 0 <==> sorted != [])
    && (s.total > 0 ==> s.p50 == P50(sorted) && s.p95 == P95(sorted))
    && (s.total > 0 ==> s.errorRate == s.errors as real / s.total as real)
    && (s.total > 0 ==> s.avgDurationMs == acc.totalDur as real / s.total as real)
    && (s.total == 0 ==> s == Stats(0, 0, 0.0, 0.0, 0, 0, 0, 0))
  }

  function NonEmptyOf(s: string): set<string> {
    if s == "" then {} else {s}
  }

  lemma OneMoreName(front: seq<Event>, ev: Event, w: Window)
    ensures var inside := InWindow(w, ev);
            && Subjects(front + [ev], w) == Subjects(front, w) + (if inside then NonEmptyOf(ev.userSubject) else {})
            && Tools(front + [ev], w) == Tools(front, w) + (if inside then NonEmptyOf(ev.toolName) else {})
  {
    var more := front + [ev];
    assert forall e :: e in more <==> e in front || e == ev;
  }

  lemma OneMore(front: seq<Event>, ev: Event, w: Window)
    ensures var inside, more := InWindow(w, ev), front + [ev];
            && Tally(more, Inside(w)) == Plus(Tally(front, Inside(w)), if inside then Unit(ev) else Zero())
            && Durations(more, w) == Durations(front, w) + (if inside then [ev.durationMs] else [])
            && Subjects(more, w) == Subjects(front, w) + (if inside then NonEmptyOf(ev.userSubject) else {})
            && Tools(more, w) == Tools(front, w) + (if inside then NonEmptyOf(ev.toolName) else {})
  {
    TallyStep(front, ev, Inside(w));
    assert (front + [ev])[..|front|] == front;
    OneMoreName(front, ev, w);
  }

  /** The accumulators of the pass. */
  datatype Sums = Sums(acc: Acc, durations: seq<int>, subjects: set<string>, tools: set<string>)

  function SumsOf(events: seq<Event>, w: Window): Sums {
    Sums(Tally(events, Inside(w)), Durations(events, w), Subjects(events, w), Tools(events, w))
  }

  function WithEvent(s: Sums, ev: Event): Sums {
    Sums(Plus(s.acc, Unit(ev)), s.durations + [ev.durationMs],
         s.subjects + NonEmptyOf(ev.userSubject), s.tools + NonEmptyOf(ev.toolName))
  }

  lemma NothingGathered(events: seq<Event>, w: Window)
    ensures SumsOf(events[..0], w) == Sums(Zero(), [], {}, {})
  {
  }

  lemma OneMoreAt(events: seq<Event>, n: nat, w: Window, s: Sums, s': Sums)
    requires n < |events| && s == SumsOf(events[..n], w)
    requires s' == if InWindow(w, events[n]) then WithEvent(s, events[n]) else s
    ensures s' == SumsOf(events[..n + 1], w)
  {
    assert events[..n + 1] == events[..n] + [events[n]];
    OneMore(events[..n], events[n], w);
  }

  /** The one pass over the events. */
  method Gather(events: seq<Event>, w: Window) returns (s: Sums)
    ensures s == SumsOf(events, w)
  {
    s := Sums(Zero(), [], {}, {});
    NothingGathered(events, w);
    for n := 0 to |events|
      invariant s == SumsOf(events[..n], w)
    {
      var next := s;
      if InWindow(w, events[n]) {
        next := WithEvent(s, events[n]);
      }
      OneMoreAt(events, n, w, s, next);
      s := next;
    }
    assert events[..|events|] == events;
  }

  method Summarize(events: seq<Event>, w: Window) returns (s: Stats)
    ensures IsStats(events, w, s)
  {
    var g := Gather(events, w);
    var acc := g.acc;
    DurationCount(events, w);
    s := Stats(acc.count, acc.errors, 0.0, 0.0, 0, 0, |g.subjects|, |g.tools|);
    if acc.count > 0 {
      var sorted := Sort(g.durations, IntLe);
      s := s.(errorRate := acc.errors as real / acc.count as real,
              avgDurationMs := acc.totalDur as real / acc.count as real,
              p50 := P50(sorted), p95 := P95(sorted));
    } else {
      NobodyInside(events, w);
    }
  }

  lemma {:induction false} NobodyInside(events: seq<Event>, w: Window)
    requires Tally(events, Inside(w)).count == 0
    ensures Tally(events, Inside(w)).errors == 0
    ensures Subjects(events, w) == {} && Tools(events, w) == {}
    decreases |events|
  {
    if events != [] {
      var front, last := events[..|events| - 1], events[|events| - 1];
      assert events == front + [last];
      TallyStep(front, last, Inside(w));
      NobodyInside(front, w);
      OneMore(front, last, w);
    }
  }

  /** The percentiles are elements of the window's durations, and P50 <= P95 unless there are
      exactly two, different, durations. */
  lemma PercentilesInOrder(durations: seq<int>)
    requires durations != []
    ensures var sorted := Sort(durations, IntLe);
            && P50(sorted) in durations && P95(sorted) in durations
            && (P50(sorted) <= P95(sorted) <==> !(|durations| == 2 && durations[0] != durations[1]))
  {
    var sorted := Sort(durations, IntLe);
    SortSorted(durations, IntLe);
    SameElements(sorted, durations);
    assert P50(sorted) in sorted && P95(sorted) in sorted;
    forall i, j | 0 <= i < j < |sorted| ensures sorted[i] <= sorted[j] {
      assert IntLe(sorted[i], sorted[j]);
    }
    OrderOfPercentiles(sorted);
    if |sorted| == 2 {
      PairElements(sorted, durations);
    }
  }

  lemma OrderOfPercentiles(sorted: seq<int>)
    requires sorted != [] && forall i, j | 0 <= i < j < |sorted| :: sorted[i] <= sorted[j]
    ensures P50(sorted) <= P95(sorted) <==> !(|sorted| == 2 && sorted[0] != sorted[1])
  {
    if |sorted| != 2 {
      assert |sorted| / 2 <= 19 * (|sorted| - 1) / 20;
    }
  }

  lemma PairElements(a: seq<int>, b: seq<int>)
    requires |a| == 2 && |b| == 2 && forall x :: x in a <==> x in b
    ensures a[0] == a[1] <==> b[0] == b[1]
  {
    assert a[0] in a && a[1] in a && b[0] in b && b[1] in b;
  }

  /** What a series shows in all. */
  function ShownCount(points: seq<TimePoint>): nat {
    if points == [] then 0 else ShownCount(points[..|points| - 1]) + points[|points| - 1].count
  }

  function ShownErrors(points: seq<TimePoint>): nat {
    if points == [] then 0 else ShownErrors(points[..|points| - 1]) + points[|points| - 1].errors
  }

  lemma {:induction false} ShownIsTotal(points: seq<TimePoint>, gs: seq<Group<int>>)
    requires PointsOf(points, gs)
    ensures ShownCount(points) == Total(gs).count && ShownErrors(points) == Total(gs).errors
    decreases |gs|
  {
    if gs != [] {
      ShownIsTotal(points[..|points| - 1], gs[..|gs| - 1]);
    }
  }

  /** Over any window what TimeSeries, Breakdown by any known dimension and Stats return agrees on
      how many events and how many errors there were. */
  lemma AggregatesAgree(events: seq<Event>, w: Window, bucket: int, dim: string,
                        points: seq<TimePoint>, parts: seq<Group<string>>, s: Stats)
    requires IsSeries(events, w, bucket, points) && IsStats(events, w, s)
    requires IsBreakdown(events, w, dim, parts) && ParseDimension(dim).Some?
    ensures ShownCount(points) == Total(parts).count == s.total
    ensures ShownErrors(points) == Total(parts).errors == s.errors
  {
    var gs :| Groups(events, w, BucketOf(bucket), gs) && PointsOf(points, gs);
    ShownIsTotal(points, gs);
    GroupingConserves(events, w, BucketOf(bucket), gs);
    GroupingConserves(events, w, KeyFn(ParseDimension(dim).value), parts);
  }
}
