/** Parameter redaction (pkg/audit/event.go:171-235) and the test that finds redacted values again
    (pkg/httpsrv/portal_api.go:407-439). */
module Redaction {
  import opened Json
  import opened Substrings

  const REDACTED := "[redacted]"

  // ---------- which keys are redacted ----------

  /** matchesRedactKey; `lower` is strings.ToLower. */
  predicate KeyMatches(lower: string -> string, redactKeys: seq<string>, key: string) {
    exists rk | rk in redactKeys :: rk != "" && Contains(lower(key), lower(rk))
  }

  ghost predicate Surrounds(whole: string, before: string, part: string, after: string) {
    whole == before + part + after
  }

  lemma ContainsIff(t: string, s: string)
    ensures Contains(t, s) <==> exists before, after :: Surrounds(t, before, s, after)
  {
    if Contains(t, s) {
      var i :| 0 <= i <= |t| && s <= t[i..];
      assert t == t[..i] + t[i..] && t[i..] == s + t[i + |s|..];
      assert Surrounds(t, t[..i], s, t[i + |s|..]);
    }
    if before, after :| Surrounds(t, before, s, after) {
      assert t[|before|..] == s + after;
    }
  }

  /** A key matches exactly when its lower-cased name is some non-empty redact key, lower-cased,
      with anything before and after it. */
  lemma KeyMatchesIff(lower: string -> string, redactKeys: seq<string>, key: string)
    ensures KeyMatches(lower, redactKeys, key) <==>
            exists rk | rk in redactKeys ::
              rk != "" && exists before, after :: Surrounds(lower(key), before, lower(rk), after)
  {
    forall rk | rk in redactKeys
      ensures Contains(lower(key), lower(rk)) <==>
              exists before, after :: Surrounds(lower(key), before, lower(rk), after)
    {
      ContainsIff(lower(key), lower(rk));
    }
  }

  method MatchesRedactKey(lower: string -> string, redactKeys: seq<string>, key: string) returns (hit: bool)
    ensures hit == KeyMatches(lower, redactKeys, key)
  {
    var lk := lower(key);
    for n := 0 to |redactKeys|
      invariant !KeyMatches(lower, redactKeys[..n], key)
    {
      assert redactKeys[..n + 1] == redactKeys[..n] + [redactKeys[n]];
      var rk := redactKeys[n];
      if rk == "" {
        continue;
      }
      if Contains(lk, lower(rk)) {
        return true;
      }
    }
    assert redactKeys[..|redactKeys|] == redactKeys;
    return false;
  }

  function Matcher(lower: string -> string, redactKeys: seq<string>): string -> bool {
    key => KeyMatches(lower, redactKeys, key)
  }

  // ---------- the sanitiser ----------

  function Sanitize(hit: string -> bool, v: Json): Json {
    match v
    case Obj(fields) => Obj(map k | k in fields :: if hit(k) then Str(REDACTED) else Sanitize(hit, fields[k]))
    case Arr(items) => Arr(seq(|items|, i requires 0 <= i < |items| => Sanitize(hit, items[i])))
    case _ => v
  }

  /** SanitizeParameters on an optional value: nil stays nil, a non-object is wrapped as it is, and
      an empty redaction list returns the object itself. */
  function SanitizeParameters(lower: string -> string, redactKeys: seq<string>, v: Option<Json>)
    : Option<map<string, Json>>
  {
    if v.None? then None
    else if !v.value.Obj? then Some(map["_value" := v.value])
    else if redactKeys == [] then Some(v.value.fields)
    else Some(Sanitize(Matcher(lower, redactKeys), v.value).fields)
  }

  /** SanitizeParameters on a map that may be nil: only the fast path keeps it nil. */
  function SanitizeMap(lower: string -> string, redactKeys: seq<string>, m: Option<map<string, Json>>)
    : Option<map<string, Json>>
  {
    if m.None? then (if redactKeys == [] then None else Some(map[]))
    else SanitizeParameters(lower, redactKeys, Some(Obj(m.value)))
  }

  /** The recursive walk that fills fresh maps and slices. */
  method SanitizeValue(lower: string -> string, redactKeys: seq<string>, v: Json) returns (out: Json)
    ensures out == Sanitize(Matcher(lower, redactKeys), v)
    decreases v, 1
  {
    match v
    case Obj(_) => out := SanitizeFields(lower, redactKeys, v);
    case Arr(_) => out := SanitizeItems(lower, redactKeys, v);
    case _ => out := v;
  }

  method SanitizeField(lower: string -> string, redactKeys: seq<string>, k: string, v: Json) returns (out: Json)
    ensures out == if KeyMatches(lower, redactKeys, k) then Str(REDACTED) else Sanitize(Matcher(lower, redactKeys), v)
    decreases v, 2
  {
    var redact := MatchesRedactKey(lower, redactKeys, k);
    if redact {
      return Str(REDACTED);
    }
    out := SanitizeValue(lower, redactKeys, v);
  }

  method SanitizeFields(lower: string -> string, redactKeys: seq<string>, v: Json) returns (out: Json)
    requires v.Obj?
    ensures out == Sanitize(Matcher(lower, redactKeys), v)
    decreases v, 0
  {
    ghost var want := Sanitize(Matcher(lower, redactKeys), v).fields;
    assert want.Keys == v.fields.Keys;
    var m: map<string, Json> := map[];
    var keys := v.fields.Keys;
    while keys != {}
      invariant keys <= v.fields.Keys && m.Keys == want.Keys - keys
      invariant forall k | k in m :: m[k] == want[k]
      decreases keys
    {
      var k :| k in keys;
      keys := keys - {k};
      var sub := SanitizeField(lower, redactKeys, k, v.fields[k]);
      assert sub == want[k];
      m := m[k := sub];
    }
    assert m == want;
    out := Obj(m);
  }

  method SanitizeItems(lower: string -> string, redactKeys: seq<string>, v: Json) returns (out: Json)
    requires v.Arr?
    ensures out == Sanitize(Matcher(lower, redactKeys), v)
    decreases v, 0
  {
    ghost var want := Sanitize(Matcher(lower, redactKeys), v).items;
    var s: seq<Json> := [];
    for i := 0 to |v.items|
      invariant s == want[..i]
    {
      var sub := SanitizeValue(lower, redactKeys, v.items[i]);
      assert sub == want[i];
      s := s + [sub];
    }
    out := Arr(s);
  }

  // ---------- no matching key keeps its value, at any depth ----------

  datatype Step = Field(k: string) | Index(i: nat)

  /** The value at a path of object keys and array positions. */
  function At(v: Json, path: seq<Step>): Option<Json>
    decreases |path|
  {
    if path == [] then Some(v)
    else match path[0]
      case Field(k) => if v.Obj? && k in v.fields then At(v.fields[k], path[1..]) else None
      case Index(i) => if v.Arr? && i < |v.items| then At(v.items[i], path[1..]) else None
  }

  predicate Hits(hit: string -> bool, step: Step) {
    step.Field? && hit(step.k)
  }

  /** What a reader finds at a path after sanitising: up to the first matching key the document is
      as before, there it is the placeholder, and below it there is nothing. */
  lemma {:induction false} SanitizedAt(hit: string -> bool, v: Json, path: seq<Step>)
    ensures (forall s | s in path :: !Hits(hit, s)) ==>
              At(Sanitize(hit, v), path) == (if At(v, path).Some? then Some(Sanitize(hit, At(v, path).value)) else None)
    ensures path != [] && Hits(hit, path[|path| - 1]) && At(Sanitize(hit, v), path).Some? ==>
              At(Sanitize(hit, v), path).value == Str("[redacted]")
    ensures (exists s | s in path[..if path == [] then 0 else |path| - 1] :: Hits(hit, s)) ==>
              At(Sanitize(hit, v), path) == None
    decreases |path|
  {
    if path != [] {
      var w := Sanitize(hit, v);
      var tail := path[1..];
      assert path == [path[0]] + tail;
      if Hits(hit, path[0]) {
        if tail != [] {
          assert At(w, path) == None;
        } else {
          assert path[..0] == [];
        }
      } else {
        assert tail != [] ==> path[..|path| - 1] == [path[0]] + tail[..|tail| - 1];
        match path[0]
        case Field(k) => if v.Obj? && k in v.fields { SanitizedAt(hit, v.fields[k], tail); }
        case Index(i) => if v.Arr? && i < |v.items| { SanitizedAt(hit, v.items[i], tail); }
      }
    }
  }

  // ---------- sanitising twice, and recognising what it did ----------

  /** Nothing is left to redact. */
  predicate Clean(hit: string -> bool, v: Json) {
    match v
    case Obj(fields) => forall k | k in fields :: if hit(k) then fields[k] == Str(REDACTED) else Clean(hit, fields[k])
    case Arr(items) => forall i | 0 <= i < |items| :: Clean(hit, items[i])
    case _ => true
  }

  lemma {:induction false} CleanIffFixed(hit: string -> bool, v: Json)
    ensures Clean(hit, v) <==> Sanitize(hit, v) == v
  {
    match v
    case Obj(fields) =>
      var out := Sanitize(hit, v).fields;
      forall k | k in fields ensures Clean(hit, fields[k]) <==> Sanitize(hit, fields[k]) == fields[k] {
        CleanIffFixed(hit, fields[k]);
      }
      assert out.Keys == fields.Keys;
      assert Clean(hit, v) ==> forall k | k in fields :: out[k] == fields[k];
    case Arr(items) =>
      forall i | 0 <= i < |items| ensures Clean(hit, items[i]) <==> Sanitize(hit, items[i]) == items[i] {
        CleanIffFixed(hit, items[i]);
      }
    case _ =>
  }

  lemma {:induction false} SanitizeCleans(hit: string -> bool, v: Json)
    ensures Clean(hit, Sanitize(hit, v))
  {
    match v
    case Obj(fields) =>
      forall k | k in fields ensures Clean(hit, Sanitize(hit, fields[k])) {
        SanitizeCleans(hit, fields[k]);
      }
    case Arr(items) =>
      forall i | 0 <= i < |items| ensures Clean(hit, Sanitize(hit, items[i])) {
        SanitizeCleans(hit, items[i]);
      }
    case _ =>
  }

  lemma SanitizeIsIdempotent(hit: string -> bool, v: Json)
    ensures Sanitize(hit, Sanitize(hit, v)) == Sanitize(hit, v)
  {
    SanitizeCleans(hit, v);
    CleanIffFixed(hit, Sanitize(hit, v));
  }

  /** redactedAny */
  predicate HasRedacted(v: Json) {
    match v
    case Str(s) => s == REDACTED
    case Obj(fields) => exists k | k in fields :: HasRedacted(fields[k])
    case Arr(items) => exists i | 0 <= i < |items| :: HasRedacted(items[i])
    case _ => false
  }

  method RedactedAny(v: Json) returns (found: bool)
    ensures found == HasRedacted(v)
    decreases v
  {
    match v
    case Str(s) => return s == REDACTED;
    case Obj(fields) =>
      var keys := fields.Keys;
      while keys != {}
        invariant keys <= fields.Keys
        invariant forall k | k in fields && k !in keys :: !HasRedacted(fields[k])
        decreases keys
      {
        var k :| k in keys;
        keys := keys - {k};
        var sub := RedactedAny(fields[k]);
        if sub {
          return true;
        }
      }
      return false;
    case Arr(items) =>
      for i := 0 to |items|
        invariant forall j | 0 <= j < i :: !HasRedacted(items[j])
      {
        var sub := RedactedAny(items[i]);
        if sub {
          return true;
        }
      }
      return false;
    case _ => return false;
  }

  ghost predicate PlaceholderAt(v: Json, path: seq<Step>) {
    At(v, path) == Some(Str("[redacted]"))
  }

  /** The placeholder is found exactly when some path leads to it. */
  lemma {:induction false} HasRedactedIffAt(v: Json)
    ensures HasRedacted(v) <==> exists path :: PlaceholderAt(v, path)
  {
    if HasRedacted(v) {
      var path := PathToPlaceholder(v);
    }
    if path :| PlaceholderAt(v, path) {
      PlaceholderIsFound(v, path);
    }
  }

  lemma {:induction false} PathToPlaceholder(v: Json) returns (path: seq<Step>)
    requires HasRedacted(v)
    ensures PlaceholderAt(v, path)
    decreases v
  {
    match v
    case Obj(fields) =>
      var k :| k in fields && HasRedacted(fields[k]);
      var rest := PathToPlaceholder(fields[k]);
      path := [Field(k)] + rest;
      assert path[1..] == rest;
    case Arr(items) =>
      var i :| 0 <= i < |items| && HasRedacted(items[i]);
      var rest := PathToPlaceholder(items[i]);
      path := [Index(i)] + rest;
      assert path[1..] == rest;
    case _ =>
      path := [];
  }

  lemma {:induction false} PlaceholderIsFound(v: Json, path: seq<Step>)
    requires PlaceholderAt(v, path)
    ensures HasRedacted(v)
    decreases |path|
  {
    if path != [] {
      match path[0]
      case Field(k) => PlaceholderIsFound(v.fields[k], path[1..]);
      case Index(i) => PlaceholderIsFound(v.items[i], path[1..]);
    }
  }

  /** No placeholder in the sanitised document means that sanitising changed nothing, and that
      the original held no placeholder either; and conversely. */
  lemma {:induction false} NoPlaceholderIffUntouched(hit: string -> bool, v: Json)
    ensures !HasRedacted(Sanitize(hit, v)) <==> Sanitize(hit, v) == v && !HasRedacted(v)
  {
    match v
    case Obj(fields) =>
      var out := Sanitize(hit, v).fields;
      assert out.Keys == fields.Keys;
      forall k | k in fields
        ensures !HasRedacted(Sanitize(hit, fields[k])) <==>
                Sanitize(hit, fields[k]) == fields[k] && !HasRedacted(fields[k])
      {
        NoPlaceholderIffUntouched(hit, fields[k]);
      }
      if !HasRedacted(Sanitize(hit, v)) {
        forall k | k in fields ensures out[k] == fields[k] && !HasRedacted(fields[k]) {
          assert !HasRedacted(out[k]);
        }
        assert out == fields;
      }
    case Arr(items) =>
      var out := Sanitize(hit, v).items;
      forall i | 0 <= i < |items|
        ensures !HasRedacted(out[i]) <==> out[i] == items[i] && !HasRedacted(items[i])
      {
        NoPlaceholderIffUntouched(hit, items[i]);
      }
      if !HasRedacted(Sanitize(hit, v)) {
        forall i | 0 <= i < |items| ensures out[i] == items[i] && !HasRedacted(items[i]) {
          assert !HasRedacted(out[i]);
        }
        assert out == items;
      }
    case _ =>
  }

  lemma {:induction false} NoHitNoChange(hit: string -> bool, v: Json)
    requires forall k :: !hit(k)
    ensures Sanitize(hit, v) == v
  {
    match v
    case Obj(fields) =>
      forall k | k in fields ensures Sanitize(hit, fields[k]) == fields[k] {
        NoHitNoChange(hit, fields[k]);
      }
    case Arr(items) =>
      forall i | 0 <= i < |items| ensures Sanitize(hit, items[i]) == items[i] {
        NoHitNoChange(hit, items[i]);
      }
    case _ =>
  }

  /** No value stays none, a value that is no object is wrapped, and a nil map becomes an empty one
      unless there is nothing to redact. */
  lemma OtherParameters(lower: string -> string, redactKeys: seq<string>, v: Json)
    requires !v.Obj?
    ensures SanitizeParameters(lower, redactKeys, None) == None
    ensures SanitizeParameters(lower, redactKeys, Some(v)) == Some(map["_value" := v])
    ensures SanitizeMap(lower, redactKeys, None) == None <==> redactKeys == []
    ensures redactKeys != [] ==> SanitizeMap(lower, redactKeys, None) == Some(map[])
  {
  }

  /** The fast path for an empty redaction list returns what the walk would have. */
  lemma FastPathIsTheWalk(lower: string -> string, redactKeys: seq<string>, fields: map<string, Json>)
    ensures SanitizeParameters(lower, redactKeys, Some(Obj(fields)))
         == Some(Sanitize(Matcher(lower, redactKeys), Obj(fields)).fields)
  {
    if redactKeys == [] {
      NoHitNoChange(Matcher(lower, redactKeys), Obj(fields));
    }
  }
}
