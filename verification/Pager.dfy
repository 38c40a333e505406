/** Store.Stream (pkg/audit/postgres/store.go:302-341): OFFSET pagination over a table that other
    writers may be inserting into between the pages. */
module Pager {
  import opened Audit
  import opened Like
  import opened Sorting
  import opened Query
  import opened QueryAgreement

  /** The rows page number p reads from the ordered, filtered table. */
  function PageOf<T>(snap: seq<T>, p: nat): seq<T> {
    Slice(snap, p * MAX_QUERY_LIMIT, MAX_QUERY_LIMIT)
  }

  function Emitted<T>(snaps: seq<seq<T>>): seq<T> {
    if snaps == [] then [] else Emitted(snaps[..|snaps| - 1]) + PageOf(snaps[|snaps| - 1], |snaps| - 1)
  }

  /** What ORDER BY over a primary key produces. */
  ghost predicate Ordered<T(!new)>(s: seq<T>, le: (T, T) -> bool) {
    Unique(s) && Sorted(s, le) && Antisymmetric(s, le)
  }

  // ---------- inserting rows only moves a row down ----------

  function Elements<T>(s: seq<T>): set<T> {
    set x | x in s
  }

  lemma {:induction false} UniqueCardinality<T>(s: seq<T>)
    requires Unique(s)
    ensures |Elements(s)| == |s|
  {
    if s != [] {
      var front, last := s[..|s| - 1], s[|s| - 1];
      UniqueCardinality(front);
      assert last !in Elements(front);
      assert Elements(s) == Elements(front) + {last};
    }
  }

  lemma SubsetCardinality<T>(a: set<T>, b: set<T>)
    requires a <= b
    ensures |a| <= |b|
  {
    assert b == a + (b - a);
  }

  lemma PositionOnlyGrows<T(!new)>(s: seq<T>, s': seq<T>, le: (T, T) -> bool, i: nat, j: nat)
    requires Ordered(s, le) && Ordered(s', le)
    requires forall x | x in s :: x in s'
    requires i < |s| && j < |s'| && s[i] == s'[j]
    ensures i <= j
  {
    forall x | x in s[..i] ensures x in s'[..j] {
      var a :| 0 <= a < i && s[a] == x;
      assert x in s';
      var b :| 0 <= b < |s'| && s'[b] == x;
      assert s[a] != s[i] && le(s[a], s[i]);
    }
    assert Elements(s[..i]) <= Elements(s'[..j]);
    SubsetCardinality(Elements(s[..i]), Elements(s'[..j]));
    UniqueCardinality(s[..i]);
    UniqueCardinality(s'[..j]);
  }

  // ---------- a stream that finishes misses nothing ----------

  ghost predicate Grows<T>(s: seq<T>, s': seq<T>) {
    forall x | x in s :: x in s'
  }

  /** Page by page, only insertions happened in between. */
  ghost predicate InsertOnly<T(!new)>(snaps: seq<seq<T>>, le: (T, T) -> bool) {
    && (forall p | 0 <= p < |snaps| :: Ordered(snaps[p], le))
    && (forall p, q | 0 <= p < q < |snaps| :: Grows(snaps[p], snaps[q]))
  }

  lemma InPage<T>(snap: seq<T>, p: nat, j: nat)
    requires p * MAX_QUERY_LIMIT <= j < |snap| && j < (p + 1) * MAX_QUERY_LIMIT
    ensures snap[j] in PageOf(snap, p)
  {
    assert PageOf(snap, p)[j - p * MAX_QUERY_LIMIT] == snap[j];
  }

  /** The last page is the short one that ends the loop. */
  predicate EndsShort<T>(snaps: seq<seq<T>>) {
    snaps != [] && |PageOf(snaps[|snaps| - 1], |snaps| - 1)| < MAX_QUERY_LIMIT
  }

  /** r, at position j when page p is read and not yet passed, is on page p or a later one. */
  lemma {:induction false} FoundFrom<T(!new)>(snaps: seq<seq<T>>, le: (T, T) -> bool, p: nat, j: nat) returns (at: nat)
    requires InsertOnly(snaps, le) && p < |snaps|
    requires p * MAX_QUERY_LIMIT <= j < |snaps[p]|
    requires EndsShort(snaps)
    ensures p <= at < |snaps| && snaps[p][j] in PageOf(snaps[at], at)
    decreases |snaps| - p
  {
    var r := snaps[p][j];
    if j < (p + 1) * MAX_QUERY_LIMIT {
      InPage(snaps[p], p, j);
      at := p;
    } else {
      assert p + 1 < |snaps|;
      assert Grows(snaps[p], snaps[p + 1]);
      assert r in snaps[p];
      assert r in snaps[p + 1];
      var j' :| 0 <= j' < |snaps[p + 1]| && snaps[p + 1][j'] == r;
      PositionOnlyGrows(snaps[p], snaps[p + 1], le, j, j');
      at := FoundFrom(snaps, le, p + 1, j');
    }
  }

  lemma {:induction false} EmittedContains<T>(snaps: seq<seq<T>>, p: nat, x: T)
    requires p < |snaps| && x in PageOf(snaps[p], p)
    ensures x in Emitted(snaps)
  {
    if p < |snaps| - 1 {
      EmittedContains(snaps[..|snaps| - 1], p, x);
    }
  }

  lemma FinishedStreamIsComplete<T(!new)>(snaps: seq<seq<T>>, le: (T, T) -> bool, r: T)
    requires InsertOnly(snaps, le) && EndsShort(snaps) && r in snaps[0]
    ensures r in Emitted(snaps)
  {
    var j :| 0 <= j < |snaps[0]| && snaps[0][j] == r;
    var at := FoundFrom(snaps, le, 0, j);
    EmittedContains(snaps, at, r);
  }

  // ---------- what is emitted twice ----------

  /** The rows among the first n. */
  function Head<T>(s: seq<T>, n: nat): set<T> {
    Elements(Slice(s, 0, n))
  }

  /** The rows of the stream that repeat an earlier one. */
  ghost function Repeats<T>(out: seq<T>): int {
    |out| - |Elements(out)|
  }

  lemma HeadSize<T>(s: seq<T>, n: nat)
    requires Unique(s)
    ensures |Head(s, n)| == (if n <= |s| then n else |s|) && Head(s, n) <= Elements(s)
  {
    UniqueCardinality(Slice(s, 0, n));
  }

  lemma HeadStays<T(!new)>(s: seq<T>, s': seq<T>, le: (T, T) -> bool, n: nat, x: T)
    requires Ordered(s, le) && Ordered(s', le) && Grows(s, s') && x in s && x in Head(s', n)
    ensures x in Head(s, n)
  {
    var i :| 0 <= i < |s| && s[i] == x;
    var j :| 0 <= j < |Slice(s', 0, n)| && Slice(s', 0, n)[j] == x;
    PositionOnlyGrows(s, s', le, i, j);
    assert Slice(s, 0, n)[i] == x;
  }

  lemma SplitSize<T>(a: set<T>, b: set<T>)
    ensures |a| == |a * b| + |a - b|
  {
    assert a == (a * b) + (a - b);
  }

  lemma NewRows<T>(s: seq<T>, s': seq<T>)
    requires Unique(s) && Unique(s') && Grows(s, s')
    ensures |Elements(s') - Elements(s)| == |s'| - |s|
  {
    UniqueCardinality(s);
    UniqueCardinality(s');
    SplitSize(Elements(s'), Elements(s));
    assert Elements(s') * Elements(s) == Elements(s);
  }

  /** Inserting m rows pushes at most m rows out of the first n. */
  lemma PushedOut<T(!new)>(s: seq<T>, s': seq<T>, le: (T, T) -> bool, n: nat)
    requires Ordered(s, le) && Ordered(s', le) && Grows(s, s')
    ensures |Head(s, n) - Head(s', n)| <= |s'| - |s|
  {
    var h, h', was := Head(s, n), Head(s', n), Elements(s);
    HeadSize(s, n);
    HeadSize(s', n);
    NewRows(s, s');
    forall x | x in h' * was ensures x in h {
      HeadStays(s, s', le, n, x);
    }
    assert h * h' == h' * was;
    SplitSize(h, h');
    SplitSize(h', was);
    SubsetCardinality(h' - was, Elements(s') - was);
  }

  /** What has been repeated, and what will be: the emitted rows that lie behind the first n. */
  ghost function Debt<T>(out: seq<T>, s: seq<T>, n: nat): int {
    Repeats(out) + |Elements(out) - Head(s, n)|
  }

  lemma SeenAhead<T>(seen: set<T>, h: set<T>, h': set<T>)
    ensures |seen - h'| <= |seen - h| + |h - h'|
  {
    var both := (seen - h) + (h - h');
    SubsetCardinality(seen - h', both);
    SplitSize(both, seen - h);
    assert both * (seen - h) == seen - h;
    SubsetCardinality(both - (seen - h), h - h');
  }

  lemma DebtAfterInserts<T(!new)>(out: seq<T>, s: seq<T>, s': seq<T>, le: (T, T) -> bool, n: nat)
    requires Ordered(s, le) && Ordered(s', le) && Grows(s, s')
    ensures Debt(out, s', n) <= Debt(out, s, n) + |s'| - |s|
  {
    PushedOut(s, s', le, n);
    SeenAhead(Elements(out), Head(s, n), Head(s', n));
  }

  lemma UniqueParts<T>(a: seq<T>, b: seq<T>)
    requires Unique(a + b)
    ensures Unique(b) && Elements(a) !! Elements(b)
  {
    forall i, j | 0 <= i < |a| && 0 <= j < |b| ensures a[i] != b[j] {
      assert (a + b)[i] == a[i] && (a + b)[|a| + j] == b[j];
    }
    forall i, j | 0 <= i < j < |b| ensures b[i] != b[j] {
      assert (a + b)[|a| + i] == b[i] && (a + b)[|a| + j] == b[j];
    }
  }

  lemma SliceStep<T>(s: seq<T>, n: nat, n': nat)
    requires n' == n + MAX_QUERY_LIMIT
    ensures Slice(s, 0, n) + Slice(s, n, MAX_QUERY_LIMIT) == Slice(s, 0, n')
  {
  }

  lemma HeadGrowsByPage<T>(s: seq<T>, n: nat, page: seq<T>)
    requires Unique(s) && page == Slice(s, n, MAX_QUERY_LIMIT)
    ensures Head(s, n + MAX_QUERY_LIMIT) == Head(s, n) + Elements(page) && Head(s, n) !! Elements(page)
    ensures |Elements(page)| == |page|
  {
    var first := Slice(s, 0, n);
    SliceStep(s, n, n + MAX_QUERY_LIMIT);
    UniqueParts(first, page);
    ElementsConcat(first, page);
    UniqueCardinality(page);
  }

  lemma ElementsConcat<T>(a: seq<T>, b: seq<T>)
    ensures Elements(a + b) == Elements(a) + Elements(b)
  {
  }

  lemma SeenOnPage<T>(seen: set<T>, page: set<T>, h: set<T>)
    requires h !! page
    ensures |(seen + page) - (h + page)| + |page| + |seen| == |seen - h| + |seen + page|
  {
    assert (seen + page) - (h + page) == (seen - h) - page;
    SplitSize(seen - h, page);
    assert (seen - h) * page == page * seen;
    SplitSize(page, seen);
    SplitSize(seen + page, seen);
    assert (seen + page) * seen == seen && (seen + page) - seen == page - seen;
  }

  /** Reading a page repeats exactly the rows of it that were emitted and lay ahead. */
  lemma DebtAfterPage<T>(out: seq<T>, s: seq<T>, n: nat, page: seq<T>)
    requires Unique(s) && page == Slice(s, n, MAX_QUERY_LIMIT)
    ensures Debt(out + page, s, n + MAX_QUERY_LIMIT) == Debt(out, s, n)
  {
    HeadGrowsByPage(s, n, page);
    ElementsConcat(out, page);
    SeenOnPage(Elements(out), Elements(page), Head(s, n));
  }

  lemma DebtAfterRound<T(!new)>(out: seq<T>, s: seq<T>, s': seq<T>, le: (T, T) -> bool, n: nat,
                                out': seq<T>, n': nat)
    requires Ordered(s, le) && Ordered(s', le) && Grows(s, s')
    requires out' == out + Slice(s', n, MAX_QUERY_LIMIT) && n' == n + MAX_QUERY_LIMIT
    ensures Debt(out', s', n') <= Debt(out, s, n) + |s'| - |s|
  {
    DebtAfterInserts(out, s, s', le, n);
    DebtAfterPage(out, s', n, Slice(s', n, MAX_QUERY_LIMIT));
  }

  /** The debt after k pages. */
  ghost function DebtAt<T>(snaps: seq<seq<T>>, k: nat): int
    requires 0 < k <= |snaps|
  {
    Debt(Emitted(snaps[..k]), snaps[k - 1], k * MAX_QUERY_LIMIT)
  }

  lemma EmittedStep<T>(snaps: seq<seq<T>>, n: nat)
    requires n < |snaps|
    ensures Emitted(snaps[..n + 1]) == Emitted(snaps[..n]) + PageOf(snaps[n], n)
  {
    assert snaps[..n + 1][..n] == snaps[..n];
  }

  lemma FirstDebt<T(!new)>(snaps: seq<seq<T>>, le: (T, T) -> bool)
    requires snaps != [] && InsertOnly(snaps, le)
    ensures DebtAt(snaps, 1) == 0
  {
    var none: seq<T> := [];
    EmittedStep(snaps, 0);
    assert Emitted(snaps[..0]) == none && Elements(none) == {};
    assert Ordered(snaps[0], le);
    DebtAfterPage(none, snaps[0], 0, PageOf(snaps[0], 0));
  }

  lemma NextDebt<T(!new)>(snaps: seq<seq<T>>, le: (T, T) -> bool, k: nat)
    requires InsertOnly(snaps, le) && 0 < k < |snaps|
    ensures DebtAt(snaps, k + 1) <= DebtAt(snaps, k) + |snaps[k]| - |snaps[k - 1]|
  {
    EmittedStep(snaps, k);
    InsertOnlyAt(snaps, le, k);
    var out, n := Emitted(snaps[..k]), k * MAX_QUERY_LIMIT;
    var out', n' := Emitted(snaps[..k + 1]), (k + 1) * MAX_QUERY_LIMIT;
    DebtAfterRound(out, snaps[k - 1], snaps[k], le, n, out', n');
  }

  lemma InsertOnlyAt<T(!new)>(snaps: seq<seq<T>>, le: (T, T) -> bool, k: nat)
    requires InsertOnly(snaps, le) && 0 < k < |snaps|
    ensures Ordered(snaps[k - 1], le) && Ordered(snaps[k], le) && Grows(snaps[k - 1], snaps[k])
  {
  }

  lemma {:induction false} DebtIsInserts<T(!new)>(snaps: seq<seq<T>>, le: (T, T) -> bool, k: nat)
    requires InsertOnly(snaps, le) && 0 < k <= |snaps|
    ensures DebtAt(snaps, k) <= |snaps[k - 1]| - |snaps[0]|
    decreases k
  {
    if k == 1 {
      FirstDebt(snaps, le);
    } else {
      DebtIsInserts(snaps, le, k - 1);
      NextDebt(snaps, le, k - 1);
    }
  }

  /** If rows are only inserted, no more rows are repeated than were inserted between the pages. */
  lemma RepeatsAreInserts<T(!new)>(snaps: seq<seq<T>>, le: (T, T) -> bool, pages: nat)
    requires InsertOnly(snaps, le) && 0 < pages <= |snaps|
    ensures Repeats(Emitted(snaps[..pages])) <= |snaps[pages - 1]| - |snaps[0]|
  {
    DebtIsInserts(snaps, le, pages);
  }

  // ---------- over a fixed table it is the table ----------

  lemma {:induction false} FixedPrefix<T>(snap: seq<T>, snaps: seq<seq<T>>)
    requires forall s | s in snaps :: s == snap
    ensures Emitted(snaps) == Slice(snap, 0, |snaps| * MAX_QUERY_LIMIT)
    decreases |snaps|
  {
    if snaps != [] {
      var k := |snaps| - 1;
      assert snaps[k] in snaps && forall s | s in snaps[..k] :: s in snaps;
      FixedPrefix(snap, snaps[..k]);
      SliceStep(snap, k * MAX_QUERY_LIMIT, |snaps| * MAX_QUERY_LIMIT);
    }
  }

  /** A fixed table is emitted in order, each row once, and after |snap|/1000 + 1 pages the short
      page that ends the loop has been read. */
  lemma FixedTableIsEmittedOnce<T>(snap: seq<T>, snaps: seq<seq<T>>)
    requires snaps != [] && forall s | s in snaps :: s == snap
    ensures |PageOf(snap, |snap| / MAX_QUERY_LIMIT)| < MAX_QUERY_LIMIT
    ensures |PageOf(snap, |snaps| - 1)| < MAX_QUERY_LIMIT ==> Emitted(snaps) == snap
  {
    FixedPrefix(snap, snaps);
    assert (|snaps| - 1) * MAX_QUERY_LIMIT + MAX_QUERY_LIMIT == |snaps| * MAX_QUERY_LIMIT;
  }

  // ---------- the loop, over the compiled query ----------

  /** The filtered table in ORDER BY order. */
  function Snapshot(lib: Lib, f: QueryFilter, table: seq<Event>): seq<Event> {
    Sort(Filter(table, Selector(lib, BuildSql(lib, f, true))), EventLe)
  }

  function Each<A, B>(g: A -> B, xs: seq<A>): (r: seq<B>)
    ensures |r| == |xs|
  {
    if xs == [] then [] else Each(g, xs[..|xs| - 1]) + [g(xs[|xs| - 1])]
  }

  lemma {:induction false} EachAt<A, B>(g: A -> B, xs: seq<A>, i: nat)
    requires i < |xs|
    ensures Each(g, xs)[i] == g(xs[i])
    decreases |xs|
  {
    if i < |xs| - 1 {
      EachAt(g, xs[..|xs| - 1], i);
    }
  }

  lemma {:induction false} EachFront<A, B>(g: A -> B, xs: seq<A>, n: nat)
    requires n <= |xs|
    ensures Each(g, xs)[..n] == Each(g, xs[..n])
    decreases |xs|
  {
    if n == |xs| {
      assert xs[..n] == xs;
    } else {
      var front := xs[..|xs| - 1];
      EachFront(g, front, n);
      assert front[..n] == xs[..n];
    }
  }

  function Snapshooter(lib: Lib, f: QueryFilter): seq<Event> -> seq<Event> {
    table => Snapshot(lib, f, table)
  }

  function Snapshots(lib: Lib, f: QueryFilter, tables: seq<seq<Event>>): (r: seq<seq<Event>>)
    ensures |r| == |tables|
  {
    Each(Snapshooter(lib, f), tables)
  }

  lemma SnapshotsAt(lib: Lib, f: QueryFilter, tables: seq<seq<Event>>, i: nat)
    requires i < |tables|
    ensures Snapshots(lib, f, tables)[i] == Snapshot(lib, f, tables[i])
  {
    EachAt(Snapshooter(lib, f), tables, i);
  }

  lemma SnapshotsFront(lib: Lib, f: QueryFilter, tables: seq<seq<Event>>, n: nat)
    requires n <= |tables|
    ensures Snapshots(lib, f, tables)[..n] == Snapshots(lib, f, tables[..n])
  {
    EachFront(Snapshooter(lib, f), tables, n);
  }

  function PageFilter(f: QueryFilter, p: nat): QueryFilter {
    f.(limit := MAX_QUERY_LIMIT, offset := p * MAX_QUERY_LIMIT)
  }

  /** Limit and offset do not change which rows a statement selects. */
  lemma PageSelects(lib: Lib, f: QueryFilter, p: nat, table: seq<Event>)
    ensures RunSelect(lib, BuildSql(lib, PageFilter(f, p), false), table) == PageOf(Snapshot(lib, f, table), p)
  {
    var g := PageFilter(f, p);
    forall ev | ev in table
      ensures Selector(lib, BuildSql(lib, g, false))(ev) == Selector(lib, BuildSql(lib, f, true))(ev)
    {
      PageSelectsRow(lib, f, p, ev);
    }
    SameFilter(table, Selector(lib, BuildSql(lib, g, false)), Selector(lib, BuildSql(lib, f, true)));
    PageBounds(lib, g);
  }

  lemma PageClauses(lib: Lib, f: QueryFilter, p: nat)
    ensures Clauses(lib, PageFilter(f, p)) == Clauses(lib, f)
  {
  }

  lemma PageSelectsRow(lib: Lib, f: QueryFilter, p: nat, ev: Event)
    ensures Selector(lib, BuildSql(lib, PageFilter(f, p), false))(ev) == Selector(lib, BuildSql(lib, f, true))(ev)
  {
    var cs := Clauses(lib, f);
    PageClauses(lib, f, p);
    SelectorIsClauses(lib, f, true, cs, ev);
    SelectorIsClauses(lib, PageFilter(f, p), false, cs, ev);
  }

  lemma {:induction false} SameFilter<T(!new)>(s: seq<T>, p: T -> bool, q: T -> bool)
    requires forall x | x in s :: p(x) == q(x)
    ensures Filter(s, p) == Filter(s, q)
  {
    if s != [] {
      assert s[|s| - 1] in s;
      SameFilter(s[..|s| - 1], p, q);
    }
  }

  predicate FullPage<T>(snap: seq<T>, p: nat) {
    |PageOf(snap, p)| == MAX_QUERY_LIMIT
  }

  lemma DistinctIdsUnique(s: seq<Event>)
    requires DistinctIds(s)
    ensures forall x :: multiset(s)[x] <= 1
    decreases |s|
  {
    if s != [] {
      DistinctIdsUnique(s[..|s| - 1]);
      assert s == s[..|s| - 1] + [s[|s| - 1]];
      assert s[|s| - 1] !in s[..|s| - 1];
    }
  }

  lemma SnapshotIsOrdered(lib: Lib, f: QueryFilter, table: seq<Event>)
    requires DistinctIds(table)
    ensures Ordered(Snapshot(lib, f, table), EventLe)
    ensures forall ev :: ev in Snapshot(lib, f, table) <==>
              ev in table && Selector(lib, BuildSql(lib, f, true))(ev)
  {
    var p := Selector(lib, BuildSql(lib, f, true));
    var kept, snap := Filter(table, p), Snapshot(lib, f, table);
    EventOrder();
    SortSorted(kept, EventLe);
    SameElements(kept, snap);
    IdsSeparate(table, snap);
    DistinctIdsUnique(table);
    forall x ensures multiset(snap)[x] <= 1 {
      FilterMultiset(table, p, x);
    }
    OnceIsUnique(snap);
  }

  lemma MatchIsInSnapshot(lib: Lib, f: QueryFilter, table: seq<Event>, ev: Event)
    requires DistinctIds(table) && KeepsMeta(lib.lower) && ReplayIsAnId(ev)
    ensures ev in Snapshot(lib, f, table) <==> ev in table && Denotes(lib, f, ev)
  {
    CompiledMeansFilter(lib, f, true, ev);
    SnapshotIsOrdered(lib, f, table);
  }

  /** If rows are only inserted between the pages, a Stream that finishes has visited every row
      that matched when it started. */
  lemma StreamMissesNothing(lib: Lib, f: QueryFilter, tables: seq<seq<Event>>, ev: Event)
    requires forall t | t in tables :: DistinctIds(t)
    requires forall p, q | 0 <= p < q < |tables| :: Grows(tables[p], tables[q])
    requires EndsShort(Snapshots(lib, f, tables))
    requires KeepsMeta(lib.lower) && ReplayIsAnId(ev)
    requires ev in tables[0] && Denotes(lib, f, ev)
    ensures ev in Emitted(Snapshots(lib, f, tables))
  {
    MatchIsInSnapshot(lib, f, tables[0], ev);
    SnapshotsAt(lib, f, tables, 0);
    SnapshotsInsertOnly(lib, f, tables);
    FinishedStreamIsComplete(Snapshots(lib, f, tables), EventLe, ev);
  }

  lemma SnapshotGrows(lib: Lib, f: QueryFilter, t: seq<Event>, t': seq<Event>)
    requires DistinctIds(t) && DistinctIds(t') && Grows(t, t')
    ensures Grows(Snapshot(lib, f, t), Snapshot(lib, f, t'))
  {
    SnapshotIsOrdered(lib, f, t);
    SnapshotIsOrdered(lib, f, t');
  }

  lemma SnapshotsInsertOnly(lib: Lib, f: QueryFilter, tables: seq<seq<Event>>)
    requires forall t | t in tables :: DistinctIds(t)
    requires forall p, q | 0 <= p < q < |tables| :: Grows(tables[p], tables[q])
    ensures InsertOnly(Snapshots(lib, f, tables), EventLe)
  {
    var snaps := Snapshots(lib, f, tables);
    forall p | 0 <= p < |snaps| ensures Ordered(snaps[p], EventLe) {
      SnapshotsAt(lib, f, tables, p);
      SnapshotIsOrdered(lib, f, tables[p]);
    }
    forall p, q | 0 <= p < q < |snaps| ensures Grows(snaps[p], snaps[q]) {
      SnapshotsAt(lib, f, tables, p);
      SnapshotsAt(lib, f, tables, q);
      SnapshotGrows(lib, f, tables[p], tables[q]);
    }
  }

  /** Over a fixed table a finished Stream is the in-memory logger's Stream: the whole matching
      set, ts DESC and id ASC, each event exactly once. */
  lemma FixedStreamIsMatchAll(lib: Lib, f: QueryFilter, table: seq<Event>, events: seq<Event>, tables: seq<seq<Event>>)
    requires KeepsMeta(lib.lower) && f.search == "" && Validated(f) && FiniteValues(lib, f)
    requires multiset(table) == multiset(events) && DistinctIds(events)
    requires forall ev | ev in events :: ReplayIsAnId(ev)
    requires tables != [] && forall t | t in tables :: t == table
    requires |PageOf(Snapshot(lib, f, table), |tables| - 1)| < MAX_QUERY_LIMIT
    ensures Emitted(Snapshots(lib, f, tables)) == MatchAll(lib, f, events)
  {
    FixedSnapshots(lib, f, table, tables);
    FixedTableIsEmittedOnce(Snapshot(lib, f, table), Snapshots(lib, f, tables));
    SnapshotIsMatchAll(lib, f, table, events);
  }

  lemma FixedSnapshots(lib: Lib, f: QueryFilter, table: seq<Event>, tables: seq<seq<Event>>)
    requires forall t | t in tables :: t == table
    ensures forall s | s in Snapshots(lib, f, tables) :: s == Snapshot(lib, f, table)
  {
    forall s | s in Snapshots(lib, f, tables) ensures s == Snapshot(lib, f, table) {
      var i :| 0 <= i < |tables| && Snapshots(lib, f, tables)[i] == s;
      SnapshotsAt(lib, f, tables, i);
      assert tables[i] in tables;
    }
  }

  /** Whatever order the table is in, its filtered and ordered rows are the in-memory matches. */
  lemma SnapshotIsMatchAll(lib: Lib, f: QueryFilter, table: seq<Event>, events: seq<Event>)
    requires KeepsMeta(lib.lower) && f.search == "" && Validated(f) && FiniteValues(lib, f)
    requires multiset(table) == multiset(events) && DistinctIds(events)
    requires forall ev | ev in events :: ReplayIsAnId(ev)
    ensures Snapshot(lib, f, table) == MatchAll(lib, f, events)
  {
    var c := BuildSql(lib, f, true);
    SameElements(table, events);
    SelectorIsMatcher(lib, f, true, table);
    FilterOfPermutation(table, events, Selector(lib, c), Matcher(lib, f));
    EventOrder();
    IdsSeparate(events, Filter(table, Selector(lib, c)));
    SortOfPermutation(Filter(table, Selector(lib, c)), Filter(events, Matcher(lib, f)), EventLe);
  }

  // ---------- the loop ----------

  /** What may happen to the table between the pages: rows are inserted, anywhere in the order. */
  ghost predicate Inserting(tables: seq<seq<Event>>) {
    && (forall t | t in tables :: DistinctIds(t))
    && (forall p, q | 0 <= p < q < |tables| :: Grows(tables[p], tables[q]))
    && (forall t, ev | t in tables && ev in t :: ReplayIsAnId(ev))
  }

  lemma {:induction false} EmittedFrom<T>(snaps: seq<seq<T>>, x: T) returns (p: nat)
    requires x in Emitted(snaps)
    ensures p < |snaps| && x in snaps[p]
    decreases |snaps|
  {
    var n := |snaps| - 1;
    if x in PageOf(snaps[n], n) {
      p := n;
    } else {
      p := EmittedFrom(snaps[..n], x);
    }
  }

  /** Nothing is emitted that the filter does not denote. */
  lemma EmittedMatches(lib: Lib, f: QueryFilter, tables: seq<seq<Event>>, ev: Event)
    requires KeepsMeta(lib.lower) && Inserting(tables) && ev in Emitted(Snapshots(lib, f, tables))
    ensures Denotes(lib, f, ev)
  {
    var p := EmittedFrom(Snapshots(lib, f, tables), ev);
    SnapshotsAt(lib, f, tables, p);
    assert tables[p] in tables;
    SnapshotIsOrdered(lib, f, tables[p]);
    CompiledMeansFilter(lib, f, true, ev);
  }

  lemma FrontInserting(tables: seq<seq<Event>>, n: nat)
    requires Inserting(tables) && n <= |tables|
    ensures Inserting(tables[..n])
  {
    assert forall t | t in tables[..n] :: t in tables;
  }

  /** One round of the loop: build the page's statement and run it. */
  method ReadPage(lib: Lib, page: QueryFilter, table: seq<Event>, ghost f: QueryFilter, ghost p: nat)
    returns (rows: seq<Event>)
    requires page == PageFilter(f, p)
    ensures rows == PageOf(Snapshot(lib, f, table), p)
  {
    var q := BuildSelect(lib, page, false);
    rows := RunSelect(lib, q, table);
    PageSelects(lib, f, p, table);
  }

  /** Page number p of the stream, behind what was emitted before it. */
  method NextPage(lib: Lib, page: QueryFilter, tables: seq<seq<Event>>, p: nat, before: seq<Event>,
                  ghost f: QueryFilter, ghost snaps: seq<seq<Event>>)
    returns (out: seq<Event>, next: QueryFilter, short: bool)
    requires page == PageFilter(f, p) && p < |tables| && snaps == Snapshots(lib, f, tables)
    requires before == Emitted(snaps[..p])
    ensures out == Emitted(snaps[..p + 1]) && next == PageFilter(f, p + 1)
    ensures short <==> !FullPage(snaps[p], p)
  {
    SnapshotsAt(lib, f, tables, p);
    var rows := ReadPage(lib, page, tables[p], f, p);
    EmittedStep(snaps, p);
    out := before + rows;
    next := page.(offset := page.offset + MAX_QUERY_LIMIT);
    short := |rows| < MAX_QUERY_LIMIT;
  }

  method PageLoop(lib: Lib, f: QueryFilter, tables: seq<seq<Event>>, ghost snaps: seq<seq<Event>>)
    returns (out: seq<Event>, finished: bool, pages: nat)
    requires snaps == Snapshots(lib, f, tables)
    ensures pages <= |snaps| && out == Emitted(snaps[..pages])
    ensures finished <==> pages > 0 && !FullPage(snaps[pages - 1], pages - 1)
    ensures !finished ==> pages == |snaps|
  {
    out, finished, pages := [], false, 0;
    var page := f.(limit := MAX_QUERY_LIMIT, offset := 0);
    while pages < |tables|
      invariant pages <= |snaps| && out == Emitted(snaps[..pages])
      invariant page == PageFilter(f, pages)
      invariant !finished && (pages > 0 ==> FullPage(snaps[pages - 1], pages - 1))
    {
      out, page, finished := NextPage(lib, page, tables, pages, out, f, snaps);
      pages := pages + 1;
      if finished {
        return;
      }
    }
  }

  ghost predicate EmitsAll(lib: Lib, f: QueryFilter, table: seq<Event>, out: seq<Event>) {
    forall ev | ev in table && Denotes(lib, f, ev) :: ev in out
  }

  ghost predicate EmitsOnly(lib: Lib, f: QueryFilter, out: seq<Event>) {
    forall ev | ev in out :: Denotes(lib, f, ev)
  }

  /** Stream; tables[p] is the table when page p is read. The stream is finished when a short page
      arrives, and cut off when the list of tables ends first. If rows are only inserted, a
      finished stream has emitted every row that matched at its start, and no stream emits a row
      that the filter does not denote. */
  method Stream(lib: Lib, f: QueryFilter, tables: seq<seq<Event>>) returns (out: seq<Event>, finished: bool, pages: nat)
    ensures pages <= |tables| && out == Emitted(Snapshots(lib, f, tables)[..pages])
    ensures finished <==> pages > 0 && !FullPage(Snapshots(lib, f, tables)[pages - 1], pages - 1)
    ensures !finished ==> pages == |tables|
    ensures finished && KeepsMeta(lib.lower) && Inserting(tables) ==> EmitsAll(lib, f, tables[0], out)
    ensures KeepsMeta(lib.lower) && Inserting(tables) ==> EmitsOnly(lib, f, out)
    ensures Inserting(tables) && pages > 0 ==>
              Repeats(out) <= |Snapshots(lib, f, tables)[pages - 1]| - |Snapshots(lib, f, tables)[0]|
  {
    out, finished, pages := PageLoop(lib, f, tables, Snapshots(lib, f, tables));
    if KeepsMeta(lib.lower) && Inserting(tables) {
      StreamResult(lib, f, tables, pages);
    }
    if Inserting(tables) && pages > 0 {
      StreamRepeats(lib, f, tables, pages);
    }
  }

  lemma StreamRepeats(lib: Lib, f: QueryFilter, tables: seq<seq<Event>>, pages: nat)
    requires Inserting(tables) && 0 < pages <= |tables|
    ensures var snaps := Snapshots(lib, f, tables);
            Repeats(Emitted(snaps[..pages])) <= |snaps[pages - 1]| - |snaps[0]|
  {
    SnapshotsInsertOnly(lib, f, tables);
    RepeatsAreInserts(Snapshots(lib, f, tables), EventLe, pages);
  }

  lemma EndsShortAt<T>(snaps: seq<seq<T>>, pages: nat)
    requires 0 < pages <= |snaps| && !FullPage(snaps[pages - 1], pages - 1)
    ensures EndsShort(snaps[..pages])
  {
  }

  lemma StreamResult(lib: Lib, f: QueryFilter, tables: seq<seq<Event>>, pages: nat)
    requires KeepsMeta(lib.lower) && Inserting(tables) && pages <= |tables|
    ensures EmitsOnly(lib, f, Emitted(Snapshots(lib, f, tables)[..pages]))
    ensures pages > 0 && !FullPage(Snapshots(lib, f, tables)[pages - 1], pages - 1) ==>
              EmitsAll(lib, f, tables[0], Emitted(Snapshots(lib, f, tables)[..pages]))
  {
    var snaps, read := Snapshots(lib, f, tables), tables[..pages];
    SnapshotsFront(lib, f, tables, pages);
    FrontInserting(tables, pages);
    EmitsNoOther(lib, f, read);
    if pages > 0 && !FullPage(snaps[pages - 1], pages - 1) {
      EndsShortAt(snaps, pages);
      EmitsWhatMatched(lib, f, read);
    }
  }

  lemma EmitsNoOther(lib: Lib, f: QueryFilter, tables: seq<seq<Event>>)
    requires KeepsMeta(lib.lower) && Inserting(tables)
    ensures EmitsOnly(lib, f, Emitted(Snapshots(lib, f, tables)))
  {
    forall ev | ev in Emitted(Snapshots(lib, f, tables)) ensures Denotes(lib, f, ev) {
      EmittedMatches(lib, f, tables, ev);
    }
  }

  lemma EmitsWhatMatched(lib: Lib, f: QueryFilter, tables: seq<seq<Event>>)
    requires KeepsMeta(lib.lower) && Inserting(tables) && EndsShort(Snapshots(lib, f, tables))
    ensures EmitsAll(lib, f, tables[0], Emitted(Snapshots(lib, f, tables)))
  {
    assert tables[0] in tables;
    forall ev | ev in tables[0] && Denotes(lib, f, ev) ensures ev in Emitted(Snapshots(lib, f, tables)) {
      StreamMissesNothing(lib, f, tables, ev);
    }
  }
}
