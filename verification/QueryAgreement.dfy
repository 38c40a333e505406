/** The two backends answer alike: the PostgreSQL store's SELECT and COUNT against the in-memory
    logger's Query and Count (pkg/audit/memory.go:114-178), for the filters the HTTP layer lets
    through (pkg/httpsrv/portal_api.go:682-777). */
module QueryAgreement {
  import opened Json
  import opened Audit
  import opened JsonFilter
  import opened Like
  import opened Sorting
  import opened Query

  // ---------- parsing the query string ----------

  predicate ValidSegment(seg: string) {
    seg != "" && forall c | c in seg :: !(c < ' ') && c != 0x7f as char
  }

  predicate ValidPath(path: seq<string>) {
    path != [] && forall seg | seg in path :: ValidSegment(seg)
  }

  predicate ValidFilter(jf: PathFilter) {
    && jf.source in ["param", "response", "header"]
    && jf.path != [] && jf.value != ""
    && (jf.source == "header" ==> |jf.path| == 1)
  }

  predicate Validated(f: QueryFilter) {
    && (forall jf | jf in f.jsonFilters :: ValidFilter(jf))
    && (forall k | k in f.hasKeys :: AllowedHasKey(k))
  }

  /** strings.Split(s, "."), nil for the empty string. */
  function SplitPath(s: string): seq<string> {
    if s == "" then [] else SplitFrom(s, "")
  }

  function SplitFrom(s: string, segment: string): seq<string> {
    if s == "" then [segment]
    else if s[0] == '.' then [segment] + SplitFrom(s[1..], "")
    else SplitFrom(s[1..], segment + [s[0]])
  }

  function Join(segments: seq<string>): string {
    if segments == [] then ""
    else if |segments| == 1 then segments[0]
    else segments[0] + "." + Join(segments[1..])
  }

  predicate NoDot(segment: string) {
    '.' !in segment
  }

  /** Splitting cuts at every dot, and joining the segments gives the path back. */
  lemma {:induction false} JoinSplit(s: string, segment: string)
    ensures SplitFrom(s, segment) != []
    ensures Join(SplitFrom(s, segment)) == segment + s
    ensures NoDot(segment) ==> forall seg | seg in SplitFrom(s, segment) :: NoDot(seg)
    decreases |s|
  {
    if s != "" {
      if s[0] == '.' {
        JoinSplit(s[1..], "");
        assert SplitFrom(s, segment)[1..] == SplitFrom(s[1..], "");
        assert segment + "." + s[1..] == segment + s;
      } else {
        JoinSplit(s[1..], segment + [s[0]]);
        assert segment + [s[0]] + s[1..] == segment + s;
      }
    }
  }

  lemma {:induction false} SplitSegment(s: string, segment: string, rest: string)
    requires NoDot(s)
    ensures SplitFrom(s + rest, segment) == SplitFrom(rest, segment + s)
    decreases |s|
  {
    if s == "" {
      assert s + rest == rest && segment + s == segment;
    } else {
      assert (s + rest)[0] == s[0] && (s + rest)[1..] == s[1..] + rest;
      assert s[0] in s;
      SplitSegment(s[1..], segment + [s[0]], rest);
      assert segment + [s[0]] + s[1..] == segment + s;
    }
  }

  /** And splitting undoes joining: no other list of segments has this path. */
  lemma {:induction false} SplitJoin(segments: seq<string>)
    requires segments != [] && forall seg | seg in segments :: NoDot(seg)
    ensures SplitFrom(Join(segments), "") == segments
    decreases |segments|
  {
    var first := segments[0];
    assert first in segments && "" + first == first;
    if |segments| == 1 {
      SplitSegment(first, "", "");
      assert first + "" == first;
    } else {
      var rest := Join(segments[1..]);
      SplitSegment(first, "", "." + rest);
      assert first + "." + rest == first + ("." + rest);
      assert ("." + rest)[1..] == rest;
      SplitJoin(segments[1..]);
    }
  }

  /** One "source.path" query parameter name, or None when it is dropped. */
  function ParseName(canonical: string -> string, source: string, rest: string): Option<seq<string>> {
    var path := SplitPath(rest);
    if rest == "" || !ValidPath(path) then None
    else if source != "header" then Some(path)
    else if |path| != 1 then None
    else Some([canonical(path[0])])
  }

  ghost predicate Segment(seg: string) {
    seg != "" && '.' !in seg && forall i | 0 <= i < |seg| :: seg[i] as int >= 32 && seg[i] as int != 127
  }

  ghost predicate Names(canonical: string -> string, source: string, rest: string, path: seq<string>) {
    if source == "header" then Segment(rest) && path == [canonical(rest)]
    else path != [] && (forall seg | seg in path :: Segment(seg)) && Join(path) == rest
  }

  lemma SegmentIs(seg: string)
    ensures Segment(seg) <==> ValidSegment(seg) && NoDot(seg)
  {
    if Segment(seg) {
      forall c | c in seg ensures !(c < ' ') && c != 0x7f as char {
        var i :| 0 <= i < |seg| && seg[i] == c;
      }
    }
    if ValidSegment(seg) {
      forall i | 0 <= i < |seg| ensures seg[i] as int >= 32 && seg[i] as int != 127 {
        assert seg[i] in seg;
      }
    }
  }

  lemma PathsOf(rest: string, path: seq<string>)
    ensures rest != "" && ValidPath(SplitPath(rest)) && SplitPath(rest) == path <==>
            path != [] && (forall seg | seg in path :: Segment(seg)) && Join(path) == rest
  {
    forall seg | seg in path ensures Segment(seg) <==> ValidSegment(seg) && NoDot(seg) {
      SegmentIs(seg);
    }
    if rest != "" && SplitPath(rest) == path {
      JoinSplit(rest, "");
      assert "" + rest == rest;
    }
    if path != [] && (forall seg | seg in path :: Segment(seg)) && Join(path) == rest {
      SplitJoin(path);
      assert path[0] in path && path[0] != "";
    }
  }

  lemma ParseNameIs(canonical: string -> string, source: string, rest: string, path: seq<string>)
    ensures ParseName(canonical, source, rest) == Some(path) <==> Names(canonical, source, rest, path)
  {
    PathsOf(rest, path);
    if source == "header" {
      PathsOf(rest, [rest]);
      PathsOf(rest, SplitPath(rest));
      assert rest in [rest];
    }
  }

  datatype Param = PathParam(source: string, rest: string, values: seq<string>) | HasParam(values: seq<string>)

  /** The payload columns that has= may ask for. */
  predicate Column(k: string) {
    || k == "request_params" || k == "request_headers" || k == "response_result" || k == "response_error"
    || k == "notifications" || k == "replayed_from"
  }

  /** The filter half of parseQueryFilter: malformed names, empty values and unknown columns are
      dropped, so what is left is validated. */
  method ParseFilters(canonical: string -> string, params: seq<Param>)
    returns (jsonFilters: seq<PathFilter>, hasKeys: seq<string>)
    ensures forall jf :: jf in jsonFilters <==> exists p | p in params :: Yields(canonical, p, jf)
    ensures forall k :: k in hasKeys <==> exists p | p in params :: p.HasParam? && k in p.values && Column(k)
    ensures forall jf | jf in jsonFilters :: ValidFilter(jf)
    ensures forall k | k in hasKeys :: AllowedHasKey(k)
  {
    jsonFilters, hasKeys := [], [];
    for n := 0 to |params|
      invariant forall jf :: jf in jsonFilters <==> exists p | p in params[..n] :: Yields(canonical, p, jf)
      invariant forall k :: k in hasKeys <==>
        exists p | p in params[..n] :: p.HasParam? && k in p.values && AllowedHasKey(k)
    {
      assert params[..n + 1] == params[..n] + [params[n]];
      var fs, ks := ParseParam(canonical, params[n]);
      jsonFilters := jsonFilters + fs;
      hasKeys := hasKeys + ks;
    }
    assert params[..|params|] == params;
  }

  /** One of the values of a query parameter makes this filter: the path is the dotted name cut at
      its dots, without empty or control-character segments, and a header name stands alone and in
      canonical form. */
  ghost predicate Yields(canonical: string -> string, p: Param, jf: PathFilter) {
    && p.PathParam? && p.source == jf.source && p.source in ["param", "response", "header"]
    && Names(canonical, p.source, p.rest, jf.path)
    && jf.value in p.values && jf.value != ""
  }

  method ParseParam(canonical: string -> string, p: Param) returns (fs: seq<PathFilter>, ks: seq<string>)
    ensures forall jf :: jf in fs <==> Yields(canonical, p, jf)
    ensures forall k :: k in ks <==> p.HasParam? && k in p.values && AllowedHasKey(k)
  {
    fs, ks := [], [];
    var vs := p.values;
    if p.HasParam? {
      for n := 0 to |vs|
        invariant forall k :: k in ks <==> k in vs[..n] && AllowedHasKey(k)
      {
        assert vs[..n + 1] == vs[..n] + [vs[n]];
        if AllowedHasKey(vs[n]) {
          ks := ks + [vs[n]];
        }
      }
      assert vs[..|vs|] == vs;
      return;
    }
    var path := ParseName(canonical, p.source, p.rest);
    forall segs ensures path == Some(segs) <==> Names(canonical, p.source, p.rest, segs) {
      ParseNameIs(canonical, p.source, p.rest, segs);
    }
    if p.source !in ["param", "response", "header"] || path.None? {
      return;
    }
    for n := 0 to |vs|
      invariant forall jf :: jf in fs <==>
        jf.source == p.source && jf.path == path.value && jf.value in vs[..n] && jf.value != ""
    {
      assert vs[..n + 1] == vs[..n] + [vs[n]];
      if vs[n] == "" {
        continue;
      }
      fs := fs + [PathFilter(p.source, path.value, vs[n])];
    }
    assert vs[..|vs|] == vs;
  }

  // ---------- row by row ----------

  predicate AllCompile(lib: Lib, f: QueryFilter) {
    && (forall jf | jf in f.jsonFilters :: Compiles(lib, jf))
    && (forall k | k in f.hasKeys :: AllowedHasKey(k))
  }

  /** No filter value spells NaN or an infinity. */
  predicate FiniteValues(lib: Lib, f: QueryFilter) {
    forall jf | jf in f.jsonFilters :: jf.source != "header" ==> ParseFilterValue(lib.number, jf.value).Scalar?
  }

  /** The statement and the in-memory matcher say the same about an event. */
  ghost predicate Agree(lib: Lib, f: QueryFilter, count: bool, ev: Event) {
    var q := BuildSql(lib, f, count);
    Holds(lib, q.conds, q.args, Stored(ev)) <==> MatchesFilter(lib, ev, f)
  }

  /** Without a search term the two backends agree on an event exactly when every filter compiles
      or the filters that do already exclude the event: the statement skips the others, which
      make the matcher reject everything. */
  lemma BackendsAgreeIff(lib: Lib, f: QueryFilter, count: bool, ev: Event)
    requires KeepsMeta(lib.lower) && ReplayIsAnId(ev) && f.search == ""
    ensures Agree(lib, f, count, ev) <==> AllCompile(lib, f) || !Denotes(lib, f, ev)
  {
    CompiledMeansFilter(lib, f, count, ev);
    if AllCompile(lib, f) {
      DenotesIsMatch(lib, f, ev);
    } else {
      SkippedFilterRejects(lib, f, ev);
    }
  }

  lemma DenotesIsMatch(lib: Lib, f: QueryFilter, ev: Event)
    requires AllCompile(lib, f) && f.search == ""
    ensures Denotes(lib, f, ev) <==> MatchesFilter(lib, ev, f)
  {
  }

  lemma SkippedFilterRejects(lib: Lib, f: QueryFilter, ev: Event)
    requires !AllCompile(lib, f)
    ensures !MatchesFilter(lib, ev, f)
  {
    if jf :| jf in f.jsonFilters && !Compiles(lib, jf) {
      assert ev.payload.Some? ==> !PathFilterMatches(lib, jf, ev.payload.value);
    } else {
      var k :| k in f.hasKeys && !AllowedHasKey(k);
      assert ev.payload.Some? ==> !HasKeyMatches(k, ev.payload.value);
    }
  }

  lemma ValidatedCompiles(lib: Lib, f: QueryFilter)
    requires Validated(f)
    ensures AllCompile(lib, f) <==> FiniteValues(lib, f)
  {
  }

  /** A query for one JSON filter and nothing else. */
  function Only(jf: PathFilter): QueryFilter {
    QueryFilter(None, None, "", "", "", "", None, "", 0, 0, [jf], [])
  }

  /** For a query of one filter the backends agree on all events exactly when it compiles. */
  lemma OneFilterAgreesIff(lib: Lib, jf: PathFilter, count: bool)
    requires KeepsMeta(lib.lower)
    ensures (forall ev | ReplayIsAnId(ev) :: Agree(lib, Only(jf), count, ev)) <==> Compiles(lib, jf)
  {
    var f := Only(jf);
    assert jf in f.jsonFilters;
    forall ev | ReplayIsAnId(ev) ensures Agree(lib, f, count, ev) <==> Compiles(lib, jf) || !Denotes(lib, f, ev) {
      BackendsAgreeIff(lib, f, count, ev);
    }
    var bare := Event("", 0, 0, "", "", "", "", true, "", None);
    if !Compiles(lib, jf) {
      assert Denotes(lib, f, bare) && ReplayIsAnId(bare);
    }
  }

  const NAN_FILTER := PathFilter("param", ["x"], "NaN")

  lemma NaNIsParsed(canonical: string -> string)
    ensures Yields(canonical, PathParam("param", "x", ["NaN"]), NAN_FILTER) && Validated(Only(NAN_FILTER))
  {
    SplitJoin(["x"]);
  }

  /** ?param.x=NaN gets through parsing, but it does not compile: PostgreSQL then returns every
      event and the in-memory logger none. ParseFloat reads "NaN" as a number. */
  lemma NaNFilterSplitsBackends(lib: Lib, canonical: string -> string, count: bool, ev: Event)
    requires KeepsMeta(lib.lower) && ReplayIsAnId(ev) && lib.number("NaN") == NonFinite
    ensures Yields(canonical, PathParam("param", "x", ["NaN"]), NAN_FILTER) && Validated(Only(NAN_FILTER))
    ensures var q := BuildSql(lib, Only(NAN_FILTER), count);
            && !Compiles(lib, NAN_FILTER)
            && Holds(lib, q.conds, q.args, Stored(ev)) && !MatchesFilter(lib, ev, Only(NAN_FILTER))
  {
    var f := Only(NAN_FILTER);
    NaNIsParsed(canonical);
    assert NAN_FILTER in f.jsonFilters && !Compiles(lib, NAN_FILTER);
    CompiledMeansFilter(lib, f, count, ev);
    assert Denotes(lib, f, ev);
    SkippedFilterRejects(lib, f, ev);
  }

  // ---------- whole results ----------

  /** ORDER BY ts DESC, id ASC */
  predicate EventLe(a: Event, b: Event) {
    a.ts > b.ts || (a.ts == b.ts && StringLe(a.id, b.id))
  }

  ghost predicate DistinctIds(s: seq<Event>) {
    forall i, j | 0 <= i < j < |s| :: s[i].id != s[j].id
  }

  lemma EventOrder()
    ensures TotalPreorder(EventLe)
  {
    StringLeOrder();
  }

  lemma IdsSeparate(s: seq<Event>, r: seq<Event>)
    requires DistinctIds(s) && forall x | x in r :: x in s
    ensures Antisymmetric(r, EventLe)
  {
    forall x, y | x in r && y in r && EventLe(x, y) && EventLe(y, x) ensures x == y {
      StringLeTotal(x.id, y.id);
      assert x in s && y in s;
    }
  }

  function Matcher(lib: Lib, f: QueryFilter): Event -> bool {
    ev => MatchesFilter(lib, ev, f)
  }

  function Selector(lib: Lib, q: Sql): Event -> bool {
    ev => Holds(lib, q.conds, q.args, Stored(ev))
  }

  function Slice<T>(s: seq<T>, offset: nat, limit: nat): (r: seq<T>)
    ensures |r| <= limit
  {
    var lo := if offset <= |s| then offset else |s|;
    var hi := if offset + limit <= |s| then offset + limit else |s|;
    s[lo..hi]
  }

  function MatchAll(lib: Lib, f: QueryFilter, events: seq<Event>): seq<Event> {
    Sort(Filter(events, Matcher(lib, f)), EventLe)
  }

  function IntBound(args: seq<Arg>, n: nat): nat {
    if Bound(args, n).IntArg? && Bound(args, n).i >= 0 then Bound(args, n).i else 0
  }

  /** Running a built statement over a table in any physical order: WHERE, ORDER BY, then
      LIMIT and OFFSET. A row stands for the event it stores. */
  function RunSelect(lib: Lib, q: Sql, table: seq<Event>): seq<Event> {
    var rows := Sort(Filter(table, Selector(lib, q)), EventLe);
    if q.SelectCount? then rows
    else Slice(rows, IntBound(q.args, q.offsetAt), IntBound(q.args, q.limitAt))
  }

  function RunCount(lib: Lib, q: Sql, table: seq<Event>): nat {
    |Filter(table, Selector(lib, q))|
  }

  /** MemoryLogger: a slice of events that Log appends to and the reads scan. */
  class MemoryLogger {
    var events: seq<Event>

    constructor ()
      ensures events == []
    {
      events := [];
    }

    /** Log; `newId` is the UUID used when the event has no id. */
    method Log(ev: Event, newId: string)
      modifies this
      ensures events == old(events) + [if ev.id == "" then ev.(id := newId) else ev]
    {
      var stored := ev;
      if stored.id == "" {
        stored := stored.(id := newId);
      }
      events := events + [stored];
    }

    method MatchEvents(lib: Lib, f: QueryFilter) returns (out: seq<Event>)
      ensures out == MatchAll(lib, f, events)
      ensures forall i, j | 0 <= i < j < |out| ::
                out[i].ts > out[j].ts || (out[i].ts == out[j].ts && StringLe(out[i].id, out[j].id))
      ensures forall ev :: ev in out <==> ev in events && MatchesFilter(lib, ev, f)
    {
      var kept: seq<Event> := [];
      for n := 0 to |events|
        invariant kept == Filter(events[..n], Matcher(lib, f))
      {
        assert events[..n + 1][..n] == events[..n];
        if !MatchesFilter(lib, events[n], f) {
          continue;
        }
        kept := kept + [events[n]];
      }
      assert events[..|events|] == events;
      out := Sort(kept, EventLe);
      EventOrder();
      SortSorted(kept, EventLe);
      SameElements(out, kept);
      assert forall i, j | 0 <= i < j < |out| :: EventLe(out[i], out[j]);
    }

    method Query(lib: Lib, f: QueryFilter) returns (out: seq<Event>)
      ensures out == Slice(MatchAll(lib, f, events), 0, ClampLimit(f.limit))
    {
      out := MatchEvents(lib, f);
      var limit := f.limit;
      if limit <= 0 {
        limit := 100;
      }
      if limit > MAX_QUERY_LIMIT {
        limit := MAX_QUERY_LIMIT;
      }
      if |out| > limit {
        out := out[..limit];
      }
    }

    method Count(lib: Lib, f: QueryFilter) returns (n: nat)
      ensures n == |Filter(events, Matcher(lib, f))|
    {
      var out := MatchEvents(lib, f);
      n := |out|;
    }
  }

  lemma SelectorIsClauses(lib: Lib, f: QueryFilter, count: bool, cs: seq<Clause>, ev: Event)
    requires cs == Clauses(lib, f)
    ensures Selector(lib, BuildSql(lib, f, count))(ev) == AllHold(lib, cs, Stored(ev))
  {
    StatementIsClauses(lib, f, count, Stored(ev));
  }

  lemma SelectorIsMatcher(lib: Lib, f: QueryFilter, count: bool, events: seq<Event>)
    requires KeepsMeta(lib.lower) && f.search == "" && Validated(f) && FiniteValues(lib, f)
    requires forall ev | ev in events :: ReplayIsAnId(ev)
    ensures forall ev | ev in events :: Selector(lib, BuildSql(lib, f, count))(ev) == Matcher(lib, f)(ev)
  {
    ValidatedCompiles(lib, f);
    forall ev | ev in events
      ensures Selector(lib, BuildSql(lib, f, count))(ev) == Matcher(lib, f)(ev)
    {
      BackendsAgreeIff(lib, f, count, ev);
    }
  }

  /** For a validated filter without a search term, whatever order the table holds the events in,
      the PostgreSQL page is that page of the in-memory result, and the counts are equal. With
      offset 0 it is exactly what MemoryLogger.Query returns. */
  lemma SamePage(lib: Lib, f: QueryFilter, table: seq<Event>, events: seq<Event>)
    requires KeepsMeta(lib.lower) && f.search == "" && Validated(f) && FiniteValues(lib, f)
    requires multiset(table) == multiset(events) && DistinctIds(events)
    requires forall ev | ev in events :: ReplayIsAnId(ev)
    ensures RunSelect(lib, BuildSql(lib, f, false), table)
         == Slice(MatchAll(lib, f, events), f.offset, ClampLimit(f.limit))
    ensures RunCount(lib, BuildSql(lib, f, true), table) == |MatchAll(lib, f, events)|
  {
    var q, c := BuildSql(lib, f, false), BuildSql(lib, f, true);
    SameElements(table, events);
    SelectorIsMatcher(lib, f, false, table);
    SelectorIsMatcher(lib, f, true, table);
    FilterOfPermutation(table, events, Selector(lib, q), Matcher(lib, f));
    FilterOfPermutation(table, events, Selector(lib, c), Matcher(lib, f));
    EventOrder();
    SameElements(Filter(table, Selector(lib, q)), Filter(events, Matcher(lib, f)));
    SameElements(Filter(table, Selector(lib, c)), Filter(events, Matcher(lib, f)));
    IdsSeparate(events, Filter(table, Selector(lib, q)));
    SortOfPermutation(Filter(table, Selector(lib, q)), Filter(events, Matcher(lib, f)), EventLe);
    PageBounds(lib, f);
  }

  lemma LastTwo(args: seq<Arg>, x: nat, y: nat)
    ensures var all := args + [IntArg(x), IntArg(y)];
            IntBound(all, |args| + 1) == x && IntBound(all, |args| + 2) == y
  {
  }

  lemma PageBounds(lib: Lib, f: QueryFilter)
    ensures var q := BuildSql(lib, f, false);
            IntBound(q.args, q.limitAt) == ClampLimit(f.limit) && IntBound(q.args, q.offsetAt) == f.offset
  {
    LastTwo(AllArgs(Clauses(lib, f)), ClampLimit(f.limit), f.offset);
  }
}
