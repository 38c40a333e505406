/** JSON path filters: the value detection, the containment document, the direct path walk
    (pkg/audit/jsonfilter.go) and PostgreSQL's jsonb containment operator. */
module JsonFilter {
  import opened Json

  // ---------- filter values ----------

  /** What strconv makes of a string: ParseInt and ParseFloat together, with exact values. */
  datatype Number = NotNumber | Finite(x: real) | NonFinite

  /** NotFinite is the NaN or infinity that ParseFloat can return; json.Marshal refuses it. */
  datatype FilterValue = Scalar(j: Json) | NotFinite

  function ParseFilterValue(number: string -> Number, s: string): (v: FilterValue)
    ensures v.Scalar? ==> IsScalar(v.j)
  {
    if s == "true" then Scalar(Bool(true))
    else if s == "false" then Scalar(Bool(false))
    else if |s| >= 2 && s[0] == '"' && s[|s| - 1] == '"' then Scalar(Str(s[1..|s| - 1]))
    else
      match number(s)
      case Finite(x) => Scalar(Num(x))
      case NonFinite => NotFinite
      case NotNumber => Scalar(Str(s))
  }

  function Quote(t: string): string {
    "\"" + t + "\""
  }

  predicate Quoted(s: string) {
    |s| >= 2 && s[0] == '"' && s[|s| - 1] == '"'
  }

  predicate Bare(s: string) {
    s != "true" && s != "false" && !Quoted(s)
  }

  lemma QuotedIs(s: string, t: string)
    ensures s == Quote(t) <==> Quoted(s) && s[1..|s| - 1] == t
  {
    assert Quote(t)[1..|t| + 1] == t;
    if Quoted(s) && s[1..|s| - 1] == t {
      assert s == Quote(t);
    }
  }

  /** The ways to spell a filter value, each with exactly its spellings: the two words, a number,
      and a string in double quotes, or bare when nothing else reads it. Quoting spells every
      string, also one that looks like a boolean or a number. */
  lemma DetectedValue(number: string -> Number, s: string, v: FilterValue)
    ensures v == ParseFilterValue(number, s) <==>
            match v
            case Scalar(Bool(b)) => s == if b then "true" else "false"
            case Scalar(Num(x)) => Bare(s) && number(s) == Finite(x)
            case Scalar(Str(t)) => s == Quote(t) || (s == t && Bare(s) && number(s) == NotNumber)
            case Scalar(_) => false
            case NotFinite => Bare(s) && number(s) == NonFinite
  {
    if v.Scalar? && v.j.Str? {
      QuotedIs(s, v.j.s);
    }
  }

  predicate IsScalar(j: Json) {
    !j.Obj? && !j.Arr?
  }

  // ---------- containment document and path walk ----------

  function Nest(path: seq<string>, value: Json): Json {
    if path == [] then value else Obj(map[path[0] := Nest(path[1..], value)])
  }

  method FilterToContainment(path: seq<string>, value: Json) returns (doc: Json)
    ensures doc == Nest(path, value)
  {
    doc := value;
    var i := |path|;
    while i > 0
      invariant 0 <= i <= |path|
      invariant doc == Nest(path[i..], value)
    {
      i := i - 1;
      assert path[i..][1..] == path[i + 1..];
      doc := Obj(map[path[i] := doc]);
    }
  }

  /** The value at a dotted path, following objects only. */
  function At(doc: Json, path: seq<string>): Option<Json>
    decreases |path|
  {
    if path == [] then Some(doc)
    else if doc.Obj? && path[0] in doc.fields then At(doc.fields[path[0]], path[1..])
    else None
  }

  /** jsonEqual against a parsed filter value: exact on scalars, never true of a container
      or of a non-finite number. */
  predicate JsonEqual(cur: Json, want: FilterValue) {
    want.Scalar? && cur == want.j
  }

  predicate MatchPath(doc: Json, path: seq<string>, want: FilterValue) {
    At(doc, path).Some? && JsonEqual(At(doc, path).value, want)
  }

  method MatchJsonPath(m: map<string, Json>, path: seq<string>, want: FilterValue) returns (found: bool)
    ensures found == MatchPath(Obj(m), path, want)
  {
    var cur := Obj(m);
    for i := 0 to |path|
      invariant At(Obj(m), path) == At(cur, path[i..])
    {
      if !cur.Obj? || path[i] !in cur.fields {
        return false;
      }
      assert path[i..][1..] == path[i + 1..];
      cur := cur.fields[path[i]];
    }
    return JsonEqual(cur, want);
  }

  // ---------- PostgreSQL's @> ----------

  predicate Contained(doc: Json, pat: Json)
    decreases pat
  {
    match pat
    case Obj(fields) => doc.Obj? && forall k | k in fields :: k in doc.fields && Contained(doc.fields[k], fields[k])
    case Arr(items) => doc.Arr? && forall x | x in items :: exists y | y in doc.items :: Contained(y, x)
    case _ => doc == pat
  }

  /** At the top level only, an array also contains its scalar elements. */
  predicate JsonbContains(doc: Json, pat: Json) {
    Contained(doc, pat) || (doc.Arr? && IsScalar(pat) && pat in doc.items)
  }

  lemma {:induction false} ContainedIsAt(doc: Json, path: seq<string>, v: Json)
    requires IsScalar(v)
    ensures Contained(doc, Nest(path, v)) <==> At(doc, path) == Some(v)
    decreases |path|
  {
    if path != [] && doc.Obj? && path[0] in doc.fields {
      ContainedIsAt(doc.fields[path[0]], path[1..], v);
      var pat := Nest(path, v);
      assert pat.fields[path[0]] == Nest(path[1..], v);
    } else if path != [] {
      assert path[0] in Nest(path, v).fields;
    }
  }

  /** The compiled containment test and the in-memory walk agree, for every document, path and
      parsed value; the document of an empty path must not be an array. */
  lemma ContainmentIsPathMatch(number: string -> Number, doc: Json, path: seq<string>, s: string)
    requires path != [] || !doc.Arr?
    requires ParseFilterValue(number, s).Scalar?
    ensures JsonbContains(doc, Nest(path, ParseFilterValue(number, s).j))
       <==> MatchPath(doc, path, ParseFilterValue(number, s))
  {
    ContainedIsAt(doc, path, ParseFilterValue(number, s).j);
  }

  // ---------- headers ----------

  function Strings(vs: seq<string>): (r: seq<Json>)
    ensures |r| == |vs| && forall i | 0 <= i < |vs| :: r[i] == Str(vs[i])
  {
    seq(|vs|, i requires 0 <= i < |vs| => Str(vs[i]))
  }

  function HeaderDoc(h: map<string, seq<string>>): Json {
    Obj(map k | k in h :: Arr(Strings(h[k])))
  }

  function HeaderPattern(name: string, v: string): Json {
    Obj(map[name := Arr([Str(v)])])
  }

  lemma HeaderContainment(h: map<string, seq<string>>, name: string, v: string)
    ensures JsonbContains(HeaderDoc(h), HeaderPattern(name, v)) <==> name in h && v in h[name]
  {
    var pat := HeaderPattern(name, v);
    assert pat.fields.Keys == {name} && pat.fields[name] == Arr([Str(v)]);
    if name in h {
      var items := Strings(h[name]);
      assert HeaderDoc(h).fields[name] == Arr(items);
      assert Contained(Arr(items), Arr([Str(v)])) <==> exists y | y in items :: Contained(y, Str(v)) by {
        assert forall x | x in [Str(v)] :: x == Str(v);
        assert Str(v) in [Str(v)];
      }
      if v in h[name] {
        var i :| 0 <= i < |h[name]| && h[name][i] == v;
        assert items[i] == Str(v) && items[i] in items && Contained(items[i], Str(v));
      }
      if y :| y in items && Contained(y, Str(v)) {
        assert y == Str(v);
      }
    }
    assert Contained(HeaderDoc(h), pat) <==>
           name in HeaderDoc(h).fields && Contained(HeaderDoc(h).fields[name], pat.fields[name]);
  }
}
