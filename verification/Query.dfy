/** The audit query: the SQL compiler of the PostgreSQL store (pkg/audit/postgres/store.go:531-694),
    the rows it runs over (store.go:35-180), and the in-memory matcher that says what a filter
    means (pkg/audit/memory.go:124-178, 381-517). */
module Query {
  import opened Json
  import opened Audit
  import opened JsonFilter
  import opened Like
  import Substrings

  datatype PathFilter = PathFilter(source: string, path: seq<string>, value: string)

  // A zero time is None; a negative offset cannot be parsed, so offsets are natural numbers.
  datatype QueryFilter = QueryFilter(
    from: Option<int>, to: Option<int>,
    toolName: string, userId: string, sessionId: string, eventId: string,
    success: Option<bool>, search: string,
    limit: int, offset: nat,
    jsonFilters: seq<PathFilter>, hasKeys: seq<string>)

  /** The library functions a query depends on: number parsing and case folding. */
  datatype Lib = Lib(number: string -> Number, lower: char -> char)

  // ---------- stored rows ----------

  datatype Cell = SqlNull | Jsonb(j: Json) | Text(s: string)

  datatype PayloadRow = PayloadRow(
    requestParams: Cell, requestHeaders: Cell, responseResult: Cell, responseError: Cell,
    notifications: Cell, replayedFrom: Cell)

  datatype Row = Row(
    id: string, ts: int, toolName: string, userSubject: string, sessionId: string,
    success: bool, errorMessage: string, payload: Option<PayloadRow>)

  /** marshalJSONB: nil and empty containers become SQL NULL. */
  function MarshalObject(m: Option<map<string, Json>>): Cell {
    if m.None? || m.value == map[] then SqlNull else Jsonb(Obj(m.value))
  }

  function MarshalHeaders(h: Option<map<string, seq<string>>>): Cell {
    if h.None? || h.value == map[] then SqlNull else Jsonb(HeaderDoc(h.value))
  }

  function NoteDoc(n: Notification): Json {
    var base := map["ts" := Str(n.ts), "method" := Str(n.noteMethod)];
    Obj(if n.params.None? || n.params.value == map[] then base else base["params" := Obj(n.params.value)])
  }

  function MarshalNotes(ns: seq<Notification>): Cell {
    if ns == [] then SqlNull else Jsonb(Arr(seq(|ns|, i requires 0 <= i < |ns| => NoteDoc(ns[i]))))
  }

  function StoredPayload(p: Payload): PayloadRow {
    PayloadRow(MarshalObject(p.requestParams), MarshalHeaders(p.requestHeaders),
               MarshalObject(p.responseResult), MarshalObject(p.responseError),
               MarshalNotes(p.notifications),
               if p.replayedFrom == "" then SqlNull else Text(p.replayedFrom))
  }

  function Stored(ev: Event): Row {
    Row(ev.id, ev.ts, ev.toolName, ev.userSubject, ev.sessionId, ev.success, ev.errorMessage,
        if ev.payload.None? then None else Some(StoredPayload(ev.payload.value)))
  }

  // ---------- the SQL that is built ----------

  // BadText is text whose bytes are not UTF-8. PostgreSQL refuses it, so no row comes back.
  datatype Arg =
    | TimeArg(t: int)
    | TextArg(s: string)
    | BoolArg(b: bool)
    | JsonArg(j: Json)
    | IntArg(i: int)
    | BadText
    | Unbound

  datatype TextColumn = ToolName | UserSubject | SessionId | Id

  // n, n1, .. are the numbers of $n placeholders.
  datatype Cond =
    | TsAtLeast(n: nat)
    | TsAtMost(n: nat)
    | TextEq(col: TextColumn, n: nat)
    | SuccessEq(n: nat)
    | AnyILike(n1: nat, n2: nat, n3: nat)
    | PayloadContains(jsonCol: string, n: nat)
    | PayloadPresent(anyCol: string)

  datatype Sql =
    | SelectCount(conds: seq<Cond>, args: seq<Arg>)
    | SelectPage(conds: seq<Cond>, args: seq<Arg>, limitAt: nat, offsetAt: nat)

  function Bound(args: seq<Arg>, n: nat): Arg {
    if 1 <= n <= |args| then args[n - 1] else Unbound
  }

  function TextOf(row: Row, col: TextColumn): string {
    match col
    case ToolName => row.toolName
    case UserSubject => row.userSubject
    case SessionId => row.sessionId
    case Id => row.id
  }

  function CellOf(p: PayloadRow, col: string): Cell {
    if col == "request_params" then p.requestParams
    else if col == "request_headers" then p.requestHeaders
    else if col == "response_result" then p.responseResult
    else if col == "response_error" then p.responseError
    else if col == "notifications" then p.notifications
    else if col == "replayed_from" then p.replayedFrom
    else SqlNull
  }

  /** IS NOT NULL AND ::text NOT IN ('{}', '[]', 'null', ''). The three JSON documents that print
      as one of those literals are the empty object, the empty array and null. */
  predicate CellPresent(c: Cell) {
    match c
    case SqlNull => false
    case Jsonb(j) => j != Obj(map[]) && j != Arr([]) && j != Null
    case Text(s) => s !in ["{}", "[]", "null", ""]
  }

  /** One condition on one row. A placeholder bound to a value of another type holds of no row. */
  predicate Eval(lib: Lib, c: Cond, args: seq<Arg>, row: Row) {
    match c
    case TsAtLeast(n) => Bound(args, n).TimeArg? && row.ts >= Bound(args, n).t
    case TsAtMost(n) => Bound(args, n).TimeArg? && row.ts <= Bound(args, n).t
    case TextEq(col, n) => Bound(args, n) == TextArg(TextOf(row, col))
    case SuccessEq(n) => Bound(args, n) == BoolArg(row.success)
    case AnyILike(n1, n2, n3) =>
      || (Bound(args, n1).TextArg? && ILike(lib.lower, row.toolName, Bound(args, n1).s))
      || (Bound(args, n2).TextArg? && ILike(lib.lower, row.errorMessage, Bound(args, n2).s))
      || (Bound(args, n3).TextArg? && ILike(lib.lower, row.userSubject, Bound(args, n3).s))
    case PayloadContains(col, n) =>
      && row.payload.Some? && Bound(args, n).JsonArg?
      && CellOf(row.payload.value, col).Jsonb?
      && JsonbContains(CellOf(row.payload.value, col).j, Bound(args, n).j)
    case PayloadPresent(col) =>
      row.payload.Some? && CellPresent(CellOf(row.payload.value, col))
  }

  predicate Holds(lib: Lib, conds: seq<Cond>, args: seq<Arg>, row: Row) {
    forall c | c in conds :: Eval(lib, c, args, row)
  }

  // ---------- clauses: a filter before its values become placeholders ----------

  datatype Clause =
    | From(t: int)
    | To(t: int)
    | Equal(col: TextColumn, s: string)
    | Success(b: bool)
    | Search(pattern: Arg)
    | Contains(jsonCol: string, doc: Json)
    | Present(anyCol: string)

  function CondOf(c: Clause, i: nat): Cond {
    match c
    case From(_) => TsAtLeast(i)
    case To(_) => TsAtMost(i)
    case Equal(col, _) => TextEq(col, i)
    case Success(_) => SuccessEq(i)
    case Search(_) => AnyILike(i, i + 1, i + 2)
    case Contains(col, _) => PayloadContains(col, i)
    case Present(col) => PayloadPresent(col)
  }

  function ArgsOf(c: Clause): seq<Arg> {
    match c
    case From(t) => [TimeArg(t)]
    case To(t) => [TimeArg(t)]
    case Equal(_, s) => [TextArg(s)]
    case Success(b) => [BoolArg(b)]
    case Search(p) => [p, p, p]
    case Contains(_, doc) => [JsonArg(doc)]
    case Present(_) => []
  }

  function AllArgs(cs: seq<Clause>): seq<Arg> {
    if cs == [] then [] else AllArgs(cs[..|cs| - 1]) + ArgsOf(cs[|cs| - 1])
  }

  function Numbered(cs: seq<Clause>): seq<Cond> {
    if cs == [] then []
    else Numbered(cs[..|cs| - 1]) + [CondOf(cs[|cs| - 1], |AllArgs(cs[..|cs| - 1])| + 1)]
  }

  function When(b: bool, c: Clause): seq<Clause> {
    if b then [c] else []
  }

  function TimeClauses(f: QueryFilter): seq<Clause> {
    (if f.from.Some? then [From(f.from.value)] else []) + (if f.to.Some? then [To(f.to.value)] else [])
  }

  function NameClauses(f: QueryFilter): seq<Clause> {
    When(f.toolName != "", Equal(ToolName, f.toolName))
    + When(f.userId != "", Equal(UserSubject, f.userId))
    + When(f.sessionId != "", Equal(SessionId, f.sessionId))
    + When(f.eventId != "", Equal(Id, f.eventId))
  }

  /** The LIKE pattern of a search term as PostgreSQL receives it. */
  function SearchArg(term: string): Arg {
    if Torn(term) then BadText else TextArg(SearchPattern(term))
  }

  function SuccessClause(f: QueryFilter): seq<Clause> {
    if f.success.Some? then [Success(f.success.value)] else []
  }

  function OutcomeClauses(f: QueryFilter): seq<Clause> {
    SuccessClause(f) + When(f.search != "", Search(SearchArg(f.search)))
  }

  function JsonColumn(source: string): string {
    if source == "param" then "request_params"
    else if source == "response" then "response_result"
    else if source == "header" then "request_headers"
    else ""
  }

  /** No clause for an unknown source, a header filter without a name, or a value that does not
      marshal: those filters are skipped. */
  function JsonClause(lib: Lib, jf: PathFilter): seq<Clause> {
    var col := JsonColumn(jf.source);
    if col == "" then []
    else if jf.source == "header" then
      (if jf.path == [] then [] else [Contains(col, HeaderPattern(jf.path[0], jf.value))])
    else
      match ParseFilterValue(lib.number, jf.value)
      case NotFinite => []
      case Scalar(v) => [Contains(col, Nest(jf.path, v))]
  }

  function JsonClauses(lib: Lib, fs: seq<PathFilter>): seq<Clause> {
    if fs == [] then [] else JsonClauses(lib, fs[..|fs| - 1]) + JsonClause(lib, fs[|fs| - 1])
  }

  lemma JsonClausesStep(lib: Lib, fs: seq<PathFilter>, n: nat)
    requires n < |fs|
    ensures JsonClauses(lib, fs[..n + 1]) == JsonClauses(lib, fs[..n]) + JsonClause(lib, fs[n])
  {
    assert fs[..n + 1][..n] == fs[..n];
  }

  predicate AllowedHasKey(k: string) {
    k in ["request_params", "request_headers", "response_result", "response_error", "notifications", "replayed_from"]
  }

  function HasClauses(keys: seq<string>): seq<Clause> {
    if keys == [] then []
    else HasClauses(keys[..|keys| - 1]) + When(AllowedHasKey(keys[|keys| - 1]), Present(keys[|keys| - 1]))
  }

  function Clauses(lib: Lib, f: QueryFilter): seq<Clause> {
    TimeClauses(f) + NameClauses(f) + OutcomeClauses(f) + JsonClauses(lib, f.jsonFilters) + HasClauses(f.hasKeys)
  }

  function ClampLimit(limit: int): (n: nat)
    ensures 1 <= n <= 1000
    ensures limit <= 0 ==> n == 100
    ensures limit > 1000 ==> n == 1000
    ensures 0 < limit <= 1000 ==> n == limit
  {
    if limit <= 0 then 100 else if limit > MAX_QUERY_LIMIT then MAX_QUERY_LIMIT else limit
  }

  function BuildSql(lib: Lib, f: QueryFilter, count: bool): Sql {
    var cs := Clauses(lib, f);
    var conds, args := Numbered(cs), AllArgs(cs);
    if count then SelectCount(conds, args)
    else SelectPage(conds, args + [IntArg(ClampLimit(f.limit)), IntArg(f.offset)], |args| + 1, |args| + 2)
  }

  lemma ClauseAppend(cs: seq<Clause>, c: Clause)
    ensures AllArgs(cs + [c]) == AllArgs(cs) + ArgsOf(c)
    ensures Numbered(cs + [c]) == Numbered(cs) + [CondOf(c, |AllArgs(cs)| + 1)]
  {
    assert (cs + [c])[..|cs + [c]| - 1] == cs;
  }

  lemma Assoc<T>(a: seq<T>, b: seq<T>, c: seq<T>)
    ensures (a + b) + c == a + (b + c)
  {
  }

  /** The conditions, arguments and placeholder counter that buildSelect grows in place. */
  class SqlBuilder {
    var conds: seq<Cond>
    var args: seq<Arg>
    var i: nat
    ghost var clauses: seq<Clause>

    ghost predicate Valid()
      reads this
    {
      conds == Numbered(clauses) && args == AllArgs(clauses) && i == |args| + 1
    }

    constructor ()
      ensures Valid() && clauses == []
    {
      conds, args, i, clauses := [], [], 1, [];
    }

    method Add(c: Clause)
      requires Valid()
      modifies this
      ensures Valid() && clauses == old(clauses) + [c]
    {
      ClauseAppend(clauses, c);
      conds := conds + [CondOf(c, i)];
      args := args + ArgsOf(c);
      i := i + |ArgsOf(c)|;
      clauses := clauses + [c];
    }

    method AddIf(b: bool, c: Clause)
      requires Valid()
      modifies this
      ensures Valid() && clauses == old(clauses) + When(b, c)
    {
      if b {
        Add(c);
      }
    }

    method AddTimes(f: QueryFilter)
      requires Valid()
      modifies this
      ensures Valid() && clauses == old(clauses) + TimeClauses(f)
    {
      if f.from.Some? {
        Add(From(f.from.value));
      }
      if f.to.Some? {
        Add(To(f.to.value));
      }
    }

    method AddNames(f: QueryFilter)
      requires Valid()
      modifies this
      ensures Valid() && clauses == old(clauses) + NameClauses(f)
    {
      ghost var was := clauses;
      AddIf(f.toolName != "", Equal(ToolName, f.toolName));
      ghost var tool := When(f.toolName != "", Equal(ToolName, f.toolName));
      AddIf(f.userId != "", Equal(UserSubject, f.userId));
      ghost var user := When(f.userId != "", Equal(UserSubject, f.userId));
      Assoc(was, tool, user);
      AddIf(f.sessionId != "", Equal(SessionId, f.sessionId));
      ghost var session := When(f.sessionId != "", Equal(SessionId, f.sessionId));
      Assoc(was, tool + user, session);
      AddIf(f.eventId != "", Equal(Id, f.eventId));
      Assoc(was, tool + user + session, When(f.eventId != "", Equal(Id, f.eventId)));
    }

    method AddOutcome(f: QueryFilter)
      requires Valid()
      modifies this
      ensures Valid() && clauses == old(clauses) + OutcomeClauses(f)
    {
      if f.success.Some? {
        Add(Success(f.success.value));
      }
      AddIf(f.search != "", Search(SearchArg(f.search)));
    }

    method AddPathFilter(lib: Lib, jf: PathFilter)
      requires Valid()
      modifies this
      ensures Valid() && clauses == old(clauses) + JsonClause(lib, jf)
    {
      var col := JsonColumn(jf.source);
      if col == "" {
        return;
      }
      if jf.source == "header" {
        if jf.path == [] {
          return;
        }
        Add(Contains(col, HeaderPattern(jf.path[0], jf.value)));
      } else {
        var want := ParseFilterValue(lib.number, jf.value);
        if want.NotFinite? {
          return;
        }
        var doc := FilterToContainment(jf.path, want.j);
        Add(Contains(col, doc));
      }
    }

    method AddJson(lib: Lib, fs: seq<PathFilter>)
      requires Valid()
      modifies this
      ensures Valid() && clauses == old(clauses) + JsonClauses(lib, fs)
    {
      for n := 0 to |fs|
        invariant Valid() && clauses == old(clauses) + JsonClauses(lib, fs[..n])
      {
        JsonClausesStep(lib, fs, n);
        Assoc(old(clauses), JsonClauses(lib, fs[..n]), JsonClause(lib, fs[n]));
        AddPathFilter(lib, fs[n]);
      }
      assert fs[..|fs|] == fs;
    }

    method AddHas(keys: seq<string>)
      requires Valid()
      modifies this
      ensures Valid() && clauses == old(clauses) + HasClauses(keys)
    {
      for n := 0 to |keys|
        invariant Valid() && clauses == old(clauses) + HasClauses(keys[..n])
      {
        assert keys[..n + 1][..n] == keys[..n];
        if !AllowedHasKey(keys[n]) {
          continue;
        }
        Add(Present(keys[n]));
      }
      assert keys[..|keys|] == keys;
    }

    method AddFilter(lib: Lib, f: QueryFilter)
      requires Valid() && clauses == []
      modifies this
      ensures Valid() && clauses == Clauses(lib, f)
    {
      AddTimes(f);
      assert clauses == TimeClauses(f);
      AddNames(f);
      AddOutcome(f);
      AddJson(lib, f.jsonFilters);
      AddHas(f.hasKeys);
    }
  }

  /** buildSelect, over its mutable condition list, argument list and placeholder counter. */
  method BuildSelect(lib: Lib, f: QueryFilter, count: bool) returns (q: Sql)
    ensures q == BuildSql(lib, f, count)
  {
    var b := new SqlBuilder();
    b.AddFilter(lib, f);
    if count {
      q := SelectCount(b.conds, b.args);
    } else {
      q := SelectPage(b.conds, b.args + [IntArg(ClampLimit(f.limit)), IntArg(f.offset)], b.i, b.i + 1);
    }
  }

  // ---------- placeholders ----------

  function CondPlaceholders(c: Cond): seq<nat> {
    match c
    case AnyILike(n1, n2, n3) => [n1, n2, n3]
    case PayloadPresent(_) => []
    case _ => [c.n]
  }

  function CondsPlaceholders(conds: seq<Cond>): seq<nat> {
    if conds == [] then [] else CondsPlaceholders(conds[..|conds| - 1]) + CondPlaceholders(conds[|conds| - 1])
  }

  function Placeholders(q: Sql): seq<nat> {
    match q
    case SelectCount(conds, _) => CondsPlaceholders(conds)
    case SelectPage(conds, _, l, o) => CondsPlaceholders(conds) + [l, o]
  }

  /** 1, 2, .., n */
  function Upto(n: nat): seq<nat> {
    if n == 0 then [] else Upto(n - 1) + [n]
  }

  lemma {:induction false} UptoCounts(n: nat)
    ensures |Upto(n)| == n && forall i | 0 <= i < n :: Upto(n)[i] == i + 1
  {
    if n > 0 {
      UptoCounts(n - 1);
    }
  }

  lemma PlaceholdersAppend(conds: seq<Cond>, c: Cond)
    ensures CondsPlaceholders(conds + [c]) == CondsPlaceholders(conds) + CondPlaceholders(c)
  {
    assert (conds + [c])[..|conds + [c]| - 1] == conds;
  }

  lemma {:induction false} NumberedPlaceholders(cs: seq<Clause>)
    ensures CondsPlaceholders(Numbered(cs)) == Upto(|AllArgs(cs)|)
  {
    if cs != [] {
      var front, last := cs[..|cs| - 1], cs[|cs| - 1];
      NumberedPlaceholders(front);
      var n, total := |AllArgs(front)|, |AllArgs(cs)|;
      var cond := CondOf(last, n + 1);
      assert total == n + |ArgsOf(last)| && Numbered(cs) == Numbered(front) + [cond];
      PlaceholdersAppend(Numbered(front), cond);
      UptoStep(n, last, cond, total);
    }
  }

  lemma UptoStep(n: nat, c: Clause, cond: Cond, total: nat)
    requires cond == CondOf(c, n + 1) && total == n + |ArgsOf(c)|
    ensures Upto(n) + CondPlaceholders(cond) == Upto(total)
  {
    match c
    case Present(_) =>
    case Search(_) =>
      assert Upto(n + 1) == Upto(n) + [n + 1];
      assert Upto(n + 2) == Upto(n + 1) + [n + 2];
      assert Upto(n + 3) == Upto(n + 2) + [n + 3];
    case _ =>
      assert Upto(n + 1) == Upto(n) + [n + 1];
  }

  /** Reading the statement left to right, the placeholders are exactly $1, $2, .. up to the
      number of arguments, each once. */
  lemma PlaceholdersMatchArguments(lib: Lib, f: QueryFilter, count: bool)
    ensures var q := BuildSql(lib, f, count);
            |Placeholders(q)| == |q.args| && forall i | 0 <= i < |q.args| :: Placeholders(q)[i] == i + 1
  {
    PlaceholdersAreUpto(lib, f, count);
    UptoCounts(|BuildSql(lib, f, count).args|);
  }

  lemma PlaceholdersAreUpto(lib: Lib, f: QueryFilter, count: bool)
    ensures var q := BuildSql(lib, f, count);
            Placeholders(q) == Upto(|q.args|)
  {
    NumberedPlaceholders(Clauses(lib, f));
    UptoTwo(|AllArgs(Clauses(lib, f))|);
  }

  lemma UptoTwo(n: nat)
    ensures Upto(n + 2) == Upto(n) + [n + 1, n + 2]
  {
    assert Upto(n + 1) == Upto(n) + [n + 1];
  }

  // ---------- numbering keeps the meaning ----------

  /** A clause on one row, with its values in place. */
  predicate ClauseHolds(lib: Lib, c: Clause, row: Row) {
    Eval(lib, CondOf(c, 1), ArgsOf(c), row)
  }

  lemma BoundShift(before: seq<Arg>, mid: seq<Arg>, after: seq<Arg>, k: nat)
    requires k < |mid|
    ensures Bound(before + mid + after, |before| + 1 + k) == Bound(mid, 1 + k)
  {
  }

  lemma CondMeansClause(lib: Lib, c: Clause, before: seq<Arg>, after: seq<Arg>, row: Row)
    ensures Eval(lib, CondOf(c, |before| + 1), before + ArgsOf(c) + after, row) <==> ClauseHolds(lib, c, row)
  {
    if !c.Present? {
      BoundShift(before, ArgsOf(c), after, 0);
    }
    if c.Search? {
      BoundShift(before, ArgsOf(c), after, 1);
      BoundShift(before, ArgsOf(c), after, 2);
    }
  }

  lemma {:induction false} NumberingKeepsMeaning(lib: Lib, cs: seq<Clause>, after: seq<Arg>, row: Row)
    ensures Holds(lib, Numbered(cs), AllArgs(cs) + after, row) <==> AllHold(lib, cs, row)
  {
    if cs != [] {
      var front, last := cs[..|cs| - 1], cs[|cs| - 1];
      assert cs == front + [last];
      var cond := CondOf(last, |AllArgs(front)| + 1);
      assert AllArgs(cs) + after == AllArgs(front) + (ArgsOf(last) + after);
      assert AllArgs(cs) + after == AllArgs(front) + ArgsOf(last) + after;
      NumberingKeepsMeaning(lib, front, ArgsOf(last) + after, row);
      CondMeansClause(lib, last, AllArgs(front), after, row);
      assert Numbered(cs) == Numbered(front) + [cond];
      assert Holds(lib, Numbered(cs), AllArgs(cs) + after, row)
        <==> Holds(lib, Numbered(front), AllArgs(cs) + after, row) && Eval(lib, cond, AllArgs(cs) + after, row)
      by {
        assert forall c :: c in Numbered(cs) <==> c in Numbered(front) || c == cond;
      }
      assert forall c :: c in cs <==> c in front || c == last;
    }
  }

  // ---------- what a filter means ----------

  predicate NonEmpty<T>(m: Option<map<string, T>>) {
    m.Some? && m.value != map[]
  }

  predicate FieldsMatch(f: QueryFilter, ev: Event) {
    && (f.eventId != "" ==> ev.id == f.eventId)
    && (f.toolName != "" ==> ev.toolName == f.toolName)
    && (f.userId != "" ==> ev.userSubject == f.userId)
    && (f.sessionId != "" ==> ev.sessionId == f.sessionId)
    && (f.from.Some? ==> ev.ts >= f.from.value)
    && (f.to.Some? ==> ev.ts <= f.to.value)
    && (f.success.Some? ==> ev.success == f.success.value)
  }

  ghost predicate SearchMatches(lib: Lib, term: string, ev: Event) {
    var needle := Fold(lib.lower, Capped(term));
    && !Torn(term)
    && (|| Substrings.Contains(Fold(lib.lower, ev.toolName), needle)
        || Substrings.Contains(Fold(lib.lower, ev.errorMessage), needle)
        || Substrings.Contains(Fold(lib.lower, ev.userSubject), needle))
  }

  /** One JSON filter against a captured payload; the header value is compared raw. */
  predicate PathFilterMatches(lib: Lib, jf: PathFilter, p: Payload) {
    var want := ParseFilterValue(lib.number, jf.value);
    if jf.source == "param" then
      p.requestParams.Some? && MatchPath(Obj(p.requestParams.value), jf.path, want)
    else if jf.source == "response" then
      p.responseResult.Some? && MatchPath(Obj(p.responseResult.value), jf.path, want)
    else if jf.source == "header" then
      && jf.path != [] && p.requestHeaders.Some? && jf.path[0] in p.requestHeaders.value
      && jf.value in p.requestHeaders.value[jf.path[0]]
    else false
  }

  predicate HasKeyMatches(k: string, p: Payload) {
    if k == "request_params" then NonEmpty(p.requestParams)
    else if k == "request_headers" then NonEmpty(p.requestHeaders)
    else if k == "response_result" then NonEmpty(p.responseResult)
    else if k == "response_error" then NonEmpty(p.responseError)
    else if k == "notifications" then p.notifications != []
    else if k == "replayed_from" then p.replayedFrom != ""
    else false
  }

  /** matchesFilter (memory.go:381-517). It ignores Search. */
  predicate MatchesFilter(lib: Lib, ev: Event, f: QueryFilter) {
    && FieldsMatch(f, ev)
    && (forall jf | jf in f.jsonFilters :: ev.payload.Some? && PathFilterMatches(lib, jf, ev.payload.value))
    && (forall k | k in f.hasKeys :: ev.payload.Some? && HasKeyMatches(k, ev.payload.value))
  }

  /** The filters buildSelect compiles rather than skips. */
  predicate Compiles(lib: Lib, jf: PathFilter) {
    if jf.source == "header" then jf.path != []
    else (jf.source == "param" || jf.source == "response") && ParseFilterValue(lib.number, jf.value).Scalar?
  }

  /** replayed_from holds an event id, never one of the literals the SQL treats as empty. */
  predicate ReplayIsAnId(ev: Event) {
    ev.payload.Some? ==> ev.payload.value.replayedFrom !in ["{}", "[]", "null"]
  }

  /** What the compiled statement selects: the filter's own meaning, with the filters that do not
      compile left out and the search term as a folded substring. */
  ghost predicate Denotes(lib: Lib, f: QueryFilter, ev: Event) {
    && FieldsMatch(f, ev)
    && (f.search != "" ==> SearchMatches(lib, f.search, ev))
    && (forall jf | jf in f.jsonFilters && Compiles(lib, jf) ::
          ev.payload.Some? && PathFilterMatches(lib, jf, ev.payload.value))
    && (forall k | k in f.hasKeys && AllowedHasKey(k) :: ev.payload.Some? && HasKeyMatches(k, ev.payload.value))
  }

  predicate AllHold(lib: Lib, cs: seq<Clause>, row: Row) {
    forall c | c in cs :: ClauseHolds(lib, c, row)
  }

  lemma AllHoldConcat(lib: Lib, xs: seq<Clause>, ys: seq<Clause>, row: Row)
    ensures AllHold(lib, xs + ys, row) <==> AllHold(lib, xs, row) && AllHold(lib, ys, row)
  {
    assert forall c :: c in xs + ys <==> c in xs || c in ys;
  }

  lemma WhenHolds(lib: Lib, b: bool, c: Clause, row: Row)
    ensures AllHold(lib, When(b, c), row) <==> (b ==> ClauseHolds(lib, c, row))
  {
    assert b ==> c in When(b, c);
  }

  lemma TimeMeaning(lib: Lib, f: QueryFilter, ev: Event)
    ensures AllHold(lib, TimeClauses(f), Stored(ev))
       <==> (f.from.Some? ==> ev.ts >= f.from.value) && (f.to.Some? ==> ev.ts <= f.to.value)
  {
    assert f.from.Some? ==> From(f.from.value) in TimeClauses(f);
    assert f.to.Some? ==> To(f.to.value) in TimeClauses(f);
  }

  lemma NameMeaning(lib: Lib, f: QueryFilter, ev: Event)
    ensures AllHold(lib, NameClauses(f), Stored(ev))
       <==> && (f.toolName != "" ==> ev.toolName == f.toolName)
            && (f.userId != "" ==> ev.userSubject == f.userId)
            && (f.sessionId != "" ==> ev.sessionId == f.sessionId)
            && (f.eventId != "" ==> ev.id == f.eventId)
  {
    var row := Stored(ev);
    var tool := When(f.toolName != "", Equal(ToolName, f.toolName));
    var user := When(f.userId != "", Equal(UserSubject, f.userId));
    var session := When(f.sessionId != "", Equal(SessionId, f.sessionId));
    var id := When(f.eventId != "", Equal(Id, f.eventId));
    EqualMeaning(lib, ToolName, f.toolName, row);
    EqualMeaning(lib, UserSubject, f.userId, row);
    EqualMeaning(lib, SessionId, f.sessionId, row);
    EqualMeaning(lib, Id, f.eventId, row);
    FourHold(lib, tool, user, session, id, row);
  }

  lemma EqualMeaning(lib: Lib, col: TextColumn, s: string, row: Row)
    ensures AllHold(lib, When(s != "", Equal(col, s)), row) <==> (s != "" ==> TextOf(row, col) == s)
  {
    WhenHolds(lib, s != "", Equal(col, s), row);
  }

  lemma FourHold(lib: Lib, a: seq<Clause>, b: seq<Clause>, c: seq<Clause>, d: seq<Clause>, row: Row)
    ensures AllHold(lib, a + b + c + d, row)
       <==> AllHold(lib, a, row) && AllHold(lib, b, row) && AllHold(lib, c, row) && AllHold(lib, d, row)
  {
    AllHoldConcat(lib, a, b, row);
    AllHoldConcat(lib, a + b, c, row);
    AllHoldConcat(lib, a + b + c, d, row);
  }

  lemma SuccessMeaning(lib: Lib, f: QueryFilter, ev: Event)
    ensures AllHold(lib, SuccessClause(f), Stored(ev)) <==> (f.success.Some? ==> ev.success == f.success.value)
  {
    assert f.success.Some? ==> Success(f.success.value) in SuccessClause(f);
  }

  lemma SearchMeaning(lib: Lib, term: string, ev: Event)
    requires KeepsMeta(lib.lower)
    ensures ClauseHolds(lib, Search(SearchArg(term)), Stored(ev)) <==> SearchMatches(lib, term, ev)
  {
    SearchIsSubstring(lib.lower, ev.toolName, term);
    SearchIsSubstring(lib.lower, ev.errorMessage, term);
    SearchIsSubstring(lib.lower, ev.userSubject, term);
  }

  lemma OutcomeMeaning(lib: Lib, f: QueryFilter, ev: Event)
    requires KeepsMeta(lib.lower)
    ensures AllHold(lib, OutcomeClauses(f), Stored(ev))
       <==> && (f.success.Some? ==> ev.success == f.success.value)
            && (f.search != "" ==> SearchMatches(lib, f.search, ev))
  {
    var search := Search(SearchArg(f.search));
    SuccessMeaning(lib, f, ev);
    SearchMeaning(lib, f.search, ev);
    WhenHolds(lib, f.search != "", search, Stored(ev));
    AllHoldConcat(lib, SuccessClause(f), When(f.search != "", search), Stored(ev));
  }

  lemma ObjectClause(lib: Lib, jf: PathFilter, m: Option<map<string, Json>>)
    requires ParseFilterValue(lib.number, jf.value).Scalar?
    ensures (MarshalObject(m).Jsonb?
             && JsonbContains(MarshalObject(m).j, Nest(jf.path, ParseFilterValue(lib.number, jf.value).j)))
       <==> m.Some? && MatchPath(Obj(m.value), jf.path, ParseFilterValue(lib.number, jf.value))
  {
    if m.Some? {
      ContainmentIsPathMatch(lib.number, Obj(m.value), jf.path, jf.value);
    }
  }

  lemma HeaderClause(h: Option<map<string, seq<string>>>, name: string, v: string)
    ensures MarshalHeaders(h).Jsonb? && JsonbContains(MarshalHeaders(h).j, HeaderPattern(name, v))
       <==> h.Some? && name in h.value && v in h.value[name]
  {
    if h.Some? {
      HeaderContainment(h.value, name, v);
    }
  }

  lemma HeaderFilterMeaning(lib: Lib, jf: PathFilter, ev: Event)
    requires jf.source == "header" && jf.path != []
    ensures ClauseHolds(lib, Contains("request_headers", HeaderPattern(jf.path[0], jf.value)), Stored(ev))
       <==> ev.payload.Some? && PathFilterMatches(lib, jf, ev.payload.value)
  {
    if ev.payload.Some? {
      HeaderClause(ev.payload.value.requestHeaders, jf.path[0], jf.value);
    }
  }

  lemma ObjectFilterMeaning(lib: Lib, jf: PathFilter, v: Json, ev: Event)
    requires jf.source in ["param", "response"] && ParseFilterValue(lib.number, jf.value) == Scalar(v)
    ensures ClauseHolds(lib, Contains(JsonColumn(jf.source), Nest(jf.path, v)), Stored(ev))
       <==> ev.payload.Some? && PathFilterMatches(lib, jf, ev.payload.value)
  {
    if ev.payload.Some? {
      var p := ev.payload.value;
      ObjectClause(lib, jf, if jf.source == "param" then p.requestParams else p.responseResult);
    }
  }

  lemma JsonClauseMeaning(lib: Lib, jf: PathFilter, ev: Event)
    ensures AllHold(lib, JsonClause(lib, jf), Stored(ev))
       <==> (Compiles(lib, jf) ==> ev.payload.Some? && PathFilterMatches(lib, jf, ev.payload.value))
  {
    if Compiles(lib, jf) {
      var c := JsonClause(lib, jf)[0];
      assert JsonClause(lib, jf) == When(true, c);
      WhenHolds(lib, true, c, Stored(ev));
      if jf.source == "header" {
        HeaderFilterMeaning(lib, jf, ev);
      } else {
        ObjectFilterMeaning(lib, jf, ParseFilterValue(lib.number, jf.value).j, ev);
      }
    }
  }

  lemma {:induction false} JsonMeaning(lib: Lib, fs: seq<PathFilter>, ev: Event)
    ensures AllHold(lib, JsonClauses(lib, fs), Stored(ev))
       <==> (forall jf | jf in fs && Compiles(lib, jf) ::
               ev.payload.Some? && PathFilterMatches(lib, jf, ev.payload.value))
  {
    if fs != [] {
      var front, last := fs[..|fs| - 1], fs[|fs| - 1];
      assert fs == front + [last];
      JsonMeaning(lib, front, ev);
      JsonClauseMeaning(lib, last, ev);
      AllHoldConcat(lib, JsonClauses(lib, front), JsonClause(lib, last), Stored(ev));
      assert forall jf :: jf in fs <==> jf in front || jf == last;
    }
  }

  lemma CellsPresent(p: Payload)
    ensures CellPresent(MarshalObject(p.requestParams)) <==> NonEmpty(p.requestParams)
    ensures CellPresent(MarshalObject(p.responseResult)) <==> NonEmpty(p.responseResult)
    ensures CellPresent(MarshalObject(p.responseError)) <==> NonEmpty(p.responseError)
    ensures CellPresent(MarshalHeaders(p.requestHeaders)) <==> NonEmpty(p.requestHeaders)
    ensures CellPresent(MarshalNotes(p.notifications)) <==> p.notifications != []
  {
    if p.requestHeaders.Some? {
      assert HeaderDoc(p.requestHeaders.value).fields.Keys == p.requestHeaders.value.Keys;
    }
  }

  lemma HasKeyMeaning(lib: Lib, k: string, ev: Event)
    requires AllowedHasKey(k) && ReplayIsAnId(ev)
    ensures ClauseHolds(lib, Present(k), Stored(ev)) <==> ev.payload.Some? && HasKeyMatches(k, ev.payload.value)
  {
    if ev.payload.Some? {
      CellsPresent(ev.payload.value);
    }
  }

  lemma {:induction false} HasMeaning(lib: Lib, keys: seq<string>, ev: Event)
    requires ReplayIsAnId(ev)
    ensures AllHold(lib, HasClauses(keys), Stored(ev))
       <==> (forall k | k in keys && AllowedHasKey(k) :: ev.payload.Some? && HasKeyMatches(k, ev.payload.value))
  {
    if keys != [] {
      var front, last := keys[..|keys| - 1], keys[|keys| - 1];
      assert keys == front + [last];
      HasMeaning(lib, front, ev);
      if AllowedHasKey(last) {
        HasKeyMeaning(lib, last, ev);
      }
      AllHoldConcat(lib, HasClauses(front), When(AllowedHasKey(last), Present(last)), Stored(ev));
      assert forall k :: k in keys <==> k in front || k == last;
    }
  }

  /** A built statement selects by its clauses alone; LIMIT and OFFSET play no part. */
  lemma StatementIsClauses(lib: Lib, f: QueryFilter, count: bool, row: Row)
    ensures var q := BuildSql(lib, f, count);
            Holds(lib, q.conds, q.args, row) <==> AllHold(lib, Clauses(lib, f), row)
  {
    var cs := Clauses(lib, f);
    if count {
      NumberingKeepsMeaning(lib, cs, [], row);
      assert AllArgs(cs) + [] == AllArgs(cs);
    } else {
      NumberingKeepsMeaning(lib, cs, [IntArg(ClampLimit(f.limit)), IntArg(f.offset)], row);
    }
  }

  /** For every filter the compiled statement selects exactly the stored rows it denotes. */
  lemma CompiledMeansFilter(lib: Lib, f: QueryFilter, count: bool, ev: Event)
    requires KeepsMeta(lib.lower) && ReplayIsAnId(ev)
    ensures var q := BuildSql(lib, f, count);
            Holds(lib, q.conds, q.args, Stored(ev)) <==> Denotes(lib, f, ev)
  {
    StatementIsClauses(lib, f, count, Stored(ev));
    TimeMeaning(lib, f, ev);
    NameMeaning(lib, f, ev);
    OutcomeMeaning(lib, f, ev);
    JsonMeaning(lib, f.jsonFilters, ev);
    HasMeaning(lib, f.hasKeys, ev);
    var times, names, outcome := TimeClauses(f), NameClauses(f), OutcomeClauses(f);
    var json := JsonClauses(lib, f.jsonFilters);
    AllHoldConcat(lib, times, names, Stored(ev));
    AllHoldConcat(lib, times + names, outcome, Stored(ev));
    AllHoldConcat(lib, times + names + outcome, json, Stored(ev));
    AllHoldConcat(lib, times + names + outcome + json, HasClauses(f.hasKeys), Stored(ev));
  }
}
