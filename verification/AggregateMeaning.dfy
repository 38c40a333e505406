/** What the dashboard numbers mean, counted over the events themselves: no accumulators, key
    functions or bucket arithmetic of the code appear here. */
module AggregateMeaning {
  import opened Json
  import opened Audit
  import opened Sorting
  import opened Aggregates

  function Within(w: Window): Event -> bool {
    (ev: Event) => (w.from.None? || w.from.value <= ev.ts) && (w.to.None? || ev.ts <= w.to.value)
  }

  function Failed(): Event -> bool {
    (ev: Event) => !ev.success
  }

  function DurationSum(events: seq<Event>): int {
    if events == [] then 0 else DurationSum(events[..|events| - 1]) + events[|events| - 1].durationMs
  }

  /** acc describes exactly these events. */
  ghost predicate Describes(acc: Acc, events: seq<Event>) {
    && acc.count == |events| && acc.errors == |Filter(events, Failed())| && acc.totalDur == DurationSum(events)
  }

  lemma DescribesMore(acc: Acc, events: seq<Event>, ev: Event)
    requires Describes(acc, events)
    ensures Describes(Plus(acc, Unit(ev)), events + [ev])
  {
    assert (events + [ev])[..|events|] == events;
  }

  lemma FilterStep(front: seq<Event>, last: Event, events: seq<Event>, q: Event -> bool)
    requires events == front + [last]
    ensures Filter(events, q) == if q(last) then Filter(front, q) + [last] else Filter(front, q)
  {
    assert events[..|events| - 1] == front;
  }

  lemma WithinIs(w: Window, ev: Event)
    ensures Within(w)(ev) == InWindow(w, ev)
  {
  }

  lemma TallyDescribesMore(front: seq<Event>, last: Event, events: seq<Event>, p: Event -> bool, q: Event -> bool)
    requires events == front + [last] && p(last) == q(last)
    requires Describes(Tally(front, p), Filter(front, q))
    ensures Describes(Tally(events, p), Filter(events, q))
  {
    TallyStep(front, last, p);
    FilterStep(front, last, events, q);
    if q(last) {
      DescribesMore(Tally(front, p), Filter(front, q), last);
    }
  }

  ghost predicate SameOn(events: seq<Event>, p: Event -> bool, q: Event -> bool) {
    forall i | 0 <= i < |events| :: p(events[i]) == q(events[i])
  }

  /** A tally describes the events that its predicate selects. */
  lemma {:induction false} TallyDescribes(events: seq<Event>, p: Event -> bool, q: Event -> bool)
    requires SameOn(events, p, q)
    ensures Describes(Tally(events, p), Filter(events, q))
    decreases |events|
  {
    if events != [] {
      var front, last := events[..|events| - 1], events[|events| - 1];
      assert events == front + [last];
      TallyDescribes(front, p, q);
      TallyDescribesMore(front, last, events, p, q);
    }
  }

  // ---------- the series ----------

  function InBucket(w: Window, start: int, size: int): Event -> bool {
    (ev: Event) => Within(w)(ev) && start <= ev.ts < start + size
  }

  function Times(a: int, b: int): int {
    a * b
  }

  ghost predicate MultipleOf(n: int, size: int) {
    exists q: int :: n == Times(size, q)
  }

  lemma TruncateIsMultiple(t: int, size: int)
    requires size > 0
    ensures MultipleOf(Truncate(t, size), size)
  {
    assert Truncate(t, size) == Times(size, t / size);
  }

  lemma BucketIs(t: int, size: int, start: int)
    requires size > 0 && MultipleOf(start, size)
    ensures Truncate(t, size) == start <==> start <= t < start + size
  {
    var x :| start == Times(size, x);
    SameMultiple(size, t / size, x, t);
  }

  lemma SameMultiple(size: int, x: int, y: int, t: int)
    requires size > 0 && Times(size, x) <= t < Times(size, x) + size
    ensures Times(size, y) <= t < Times(size, y) + size ==> x == y
  {
    if x < y {
      AtLeastOne(size, y - x);
    } else if x > y {
      AtLeastOne(size, x - y);
    }
    assert Times(size, y - x) == Times(size, y) - Times(size, x);
    assert Times(size, x - y) == Times(size, x) - Times(size, y);
  }

  lemma AtLeastOne(size: int, n: int)
    requires size > 0 && n >= 1
    ensures Times(size, n) >= size
  {
  }

  /** Each point starts at a multiple of the bucket and describes the window's events in it; the
      points ascend, and every event of the window is in one. */
  lemma SeriesMeaning(events: seq<Event>, w: Window, bucket: int, points: seq<TimePoint>)
    requires IsSeries(events, w, bucket, points)
    ensures var size := if bucket <= 0 then 60_000_000_000 else bucket;
            && (forall i, j | 0 <= i < j < |points| :: points[i].time < points[j].time)
            && (forall pt | pt in points ::
                  var inside := Filter(events, InBucket(w, pt.time, size));
                  && MultipleOf(pt.time, size) && pt.count == |inside| > 0
                  && pt.errors == |Filter(inside, Failed())|
                  && pt.avgDurMs == DurationSum(inside) as real / |inside| as real)
            && (forall ev | ev in events && Within(w)(ev) ::
                  exists i | 0 <= i < |points| :: points[i].time <= ev.ts < points[i].time + size)
  {
    var size := if bucket <= 0 then 60_000_000_000 else bucket;
    var gs: seq<Group<int>> :| Groups(events, w, BucketOf(bucket), gs) && PointsOf(points, gs);
    forall pt | pt in points
      ensures var inside := Filter(events, InBucket(w, pt.time, size));
              && MultipleOf(pt.time, size) && pt.count == |inside| > 0
              && pt.errors == |Filter(inside, Failed())|
              && pt.avgDurMs == DurationSum(inside) as real / |inside| as real
    {
      var i :| 0 <= i < |points| && points[i] == pt;
      PointMeaning(events, w, bucket, size, gs[i]);
    }
    forall ev | ev in events && Within(w)(ev)
      ensures exists i | 0 <= i < |points| :: points[i].time <= ev.ts < points[i].time + size
    {
      assert Covers(gs, BucketOf(bucket)(ev));
      var i :| 0 <= i < |gs| && gs[i].key == BucketOf(bucket)(ev);
      assert points[i].time <= ev.ts < points[i].time + size;
    }
  }

  lemma PointMeaning(events: seq<Event>, w: Window, bucket: int, size: int, g: Group<int>)
    requires size == (if bucket <= 0 then 60_000_000_000 else bucket)
    requires g.acc == Tally(events, InGroup(w, BucketOf(bucket), g.key)) && g.acc.count > 0
    ensures MultipleOf(g.key, size) && Describes(g.acc, Filter(events, InBucket(w, g.key, size)))
  {
    var p, q := InGroup(w, BucketOf(bucket), g.key), InBucket(w, g.key, size);
    var ev := SomeoneCounted(events, p);
    assert g.key == Truncate(ev.ts, size);
    TruncateIsMultiple(ev.ts, size);
    forall e | e in events ensures p(e) == q(e) {
      WithinIs(w, e);
      BucketIs(e.ts, size, g.key);
      assert p(e) == (InWindow(w, e) && Truncate(e.ts, size) == g.key);
    }
    TallyDescribes(events, p, q);
  }

  lemma {:induction false} SomeoneCounted(events: seq<Event>, p: Event -> bool) returns (ev: Event)
    requires Tally(events, p).count > 0
    ensures ev in events && p(ev)
    decreases |events|
  {
    ev := events[|events| - 1];
    if !p(ev) {
      ev := SomeoneCounted(events[..|events| - 1], p);
    }
  }

  // ---------- the breakdown ----------

  /** The text a dimension groups by. */
  function KeyText(dim: string, ev: Event): string {
    match dim
    case "tool" => ev.toolName
    case "user" => ev.userSubject
    case "auth_type" => ev.authType
    case _ => if ev.success then "success" else "error"
  }

  function HasKey(w: Window, dim: string, key: string): Event -> bool {
    (ev: Event) => Within(w)(ev) && KeyText(dim, ev) == key
  }

  lemma KeyTextIs(dim: string, ev: Event)
    requires dim in ["tool", "user", "success", "auth_type"]
    ensures ParseDimension(dim).Some? && KeyFn(ParseDimension(dim).value)(ev) == KeyText(dim, ev)
  {
  }

  /** One group per text that occurs, describing its events, largest first; none for an unknown
      dimension. */
  lemma BreakdownMeaning(events: seq<Event>, w: Window, dim: string, gs: seq<Group<string>>)
    requires IsBreakdown(events, w, dim, gs)
    ensures dim !in ["tool", "user", "success", "auth_type"] ==> gs == []
    ensures dim in ["tool", "user", "success", "auth_type"] ==>
              && (forall i, j | 0 <= i < j < |gs| ::
                    gs[i].key != gs[j].key && gs[i].acc.count >= gs[j].acc.count)
              && (forall g | g in gs :: Describes(g.acc, Filter(events, HasKey(w, dim, g.key))) && g.acc.count > 0)
              && (forall ev | ev in events && Within(w)(ev) :: Covers(gs, KeyText(dim, ev)))
  {
    if dim in ["tool", "user", "success", "auth_type"] {
      var d := ParseDimension(dim).value;
      forall g | g in gs ensures Describes(g.acc, Filter(events, HasKey(w, dim, g.key))) {
        forall ev | ev in events ensures InGroup(w, KeyFn(d), g.key)(ev) == HasKey(w, dim, g.key)(ev) {
          WithinIs(w, ev);
          KeyTextIs(dim, ev);
        }
        TallyDescribes(events, InGroup(w, KeyFn(d), g.key), HasKey(w, dim, g.key));
      }
      forall i, j | 0 <= i < j < |gs| ensures gs[i].acc.count >= gs[j].acc.count {
        assert CountGe(gs[i], gs[j]);
      }
      forall ev | ev in events && Within(w)(ev) ensures Covers(gs, KeyText(dim, ev)) {
        WithinIs(w, ev);
        KeyTextIs(dim, ev);
      }
    }
  }

  // ---------- the statistics ----------

  lemma {:induction false} DurationsAre(events: seq<Event>, w: Window)
    ensures var inside := Filter(events, Within(w));
            |Durations(events, w)| == |inside|
            && forall i | 0 <= i < |inside| :: Durations(events, w)[i] == inside[i].durationMs
    decreases |events|
  {
    if events != [] {
      DurationsAre(events[..|events| - 1], w);
    }
  }

  predicate Ascending(s: seq<int>) {
    forall i, j | 0 <= i < j < |s| :: s[i] <= s[j]
  }

  lemma SortedDurations(durations: seq<int>, sorted: seq<int>)
    requires multiset(sorted) == multiset(durations) && Ascending(sorted)
    ensures sorted == Sort(durations, IntLe)
  {
    SortSorted(durations, IntLe);
    forall i, j | 0 <= i < j < |sorted| ensures IntLe(sorted[i], sorted[j]) {
      assert sorted[i] <= sorted[j];
    }
    SortedUnique(sorted, Sort(durations, IntLe), IntLe);
  }

  /** Totals, rate and average over the window's events, and its distinct names; an empty window is
      all zero. */
  lemma TotalsMeaning(events: seq<Event>, w: Window, s: Stats)
    requires IsStats(events, w, s)
    ensures var inside := Filter(events, Within(w));
            && s.total == |inside| && s.errors == |Filter(inside, Failed())|
            && s.uniqueSubjects == |set ev | ev in inside && ev.userSubject != "" :: ev.userSubject|
            && s.uniqueTools == |set ev | ev in inside && ev.toolName != "" :: ev.toolName|
            && (s.total > 0 ==> s.errorRate == s.errors as real / s.total as real)
            && (s.total > 0 ==> s.avgDurationMs == DurationSum(inside) as real / s.total as real)
            && (s.total == 0 ==> s == Stats(0, 0, 0.0, 0.0, 0, 0, 0, 0))
  {
    WindowDescribed(events, w);
    NamesAre(events, w);
  }

  /** The percentiles are the elements at n / 2 and at 0.95 (n - 1), rounded down, of the window's
      durations in ascending order. */
  lemma PercentilesMeaning(events: seq<Event>, w: Window, s: Stats, sorted: seq<int>, k: nat)
    requires IsStats(events, w, s) && s.total > 0
    requires Ascending(sorted) && multiset(sorted) == multiset(Durations(events, w))
    requires k as real <= 0.95 * (s.total - 1) as real < (k + 1) as real
    ensures |sorted| == s.total > k && s.p50 == sorted[s.total / 2] && s.p95 == sorted[k]
  {
    SortedDurations(Durations(events, w), sorted);
    DurationCount(events, w);
    PercentilePositions(sorted, k);
  }

  lemma PercentilePositions(sorted: seq<int>, k: nat)
    requires sorted != [] && k as real <= 0.95 * (|sorted| - 1) as real < (k + 1) as real
    ensures k < |sorted| && P50(sorted) == sorted[|sorted| / 2] && P95(sorted) == sorted[k]
  {
    RoundDown(|sorted| - 1, k);
  }

  lemma WindowDescribed(events: seq<Event>, w: Window)
    ensures Describes(Tally(events, Inside(w)), Filter(events, Within(w)))
  {
    forall ev | ev in events ensures Inside(w)(ev) == Within(w)(ev) {
      WithinIs(w, ev);
    }
    TallyDescribes(events, Inside(w), Within(w));
  }

  lemma NamesAre(events: seq<Event>, w: Window)
    ensures var inside := Filter(events, Within(w));
            && Subjects(events, w) == set ev | ev in inside && ev.userSubject != "" :: ev.userSubject
    ensures var inside := Filter(events, Within(w));
            && Tools(events, w) == set ev | ev in inside && ev.toolName != "" :: ev.toolName
  {
    forall ev ensures ev in Filter(events, Within(w)) <==> ev in events && InWindow(w, ev) {
      WithinIs(w, ev);
    }
  }

  lemma RoundDown(n: nat, k: nat)
    requires k as real <= 0.95 * n as real < (k + 1) as real
    ensures k == 19 * n / 20 && k <= n
  {
    assert (20 * k) as real <= (19 * n) as real < (20 * (k + 1)) as real;
  }
}
