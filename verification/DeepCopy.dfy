/** deepCopyMap and deepCopyAny (pkg/httpsrv/portal_api.go:276-305): replay arguments are copied so
    that the tool call cannot reach the stored row through shared maps and slices. Maps and slices
    are heap objects here. */
module DeepCopy {
  import opened Json
  import JsonFilter

  class GoMap {
    var fields: map<string, Value>

    constructor ()
      ensures fields == map[]
    {
      fields := map[];
    }
  }

  class GoSlice {
    var items: seq<Value>

    constructor ()
      ensures items == []
    {
      items := [];
    }
  }

  /** A Go `any` with JSON-shaped contents; a nil map is MapRef(null). */
  datatype Value = Scalar(j: Json) | MapRef(m: GoMap?) | SliceRef(s: GoSlice)

  /** v holds the document j, and all its maps and slices are in `r`. */
  ghost predicate Shows(v: Value, j: Json, r: set<object>)
    reads r
    decreases j
  {
    match v
    case Scalar(x) => JsonFilter.IsScalar(x) && x == j
    case MapRef(m) =>
      if m == null then j == Null
      else
        && m in r && j.Obj? && m.fields.Keys == j.fields.Keys
        && forall k | k in j.fields :: Shows(m.fields[k], j.fields[k], r)
    case SliceRef(s) =>
      && s in r && j.Arr? && |s.items| == |j.items|
      && forall i | 0 <= i < |j.items| :: Shows(s.items[i], j.items[i], r)
  }

  lemma {:induction false} ShowsMore(v: Value, j: Json, r: set<object>, r': set<object>)
    requires Shows(v, j, r) && r <= r'
    ensures Shows(v, j, r')
    decreases j
  {
    if v.MapRef? && v.m != null {
      forall k | k in j.fields ensures Shows(v.m.fields[k], j.fields[k], r') {
        ShowsMore(v.m.fields[k], j.fields[k], r, r');
      }
    } else if v.SliceRef? {
      forall i | 0 <= i < |j.items| ensures Shows(v.s.items[i], j.items[i], r') {
        ShowsMore(v.s.items[i], j.items[i], r, r');
      }
    }
  }

  /** The copy holds the same document in maps and slices that are all new: nothing written
      through it can be seen through the original, whose own objects are left as they were. */
  method CopyAny(v: Value, ghost j: Json, ghost r: set<object>) returns (c: Value, ghost own: set<object>)
    requires Shows(v, j, r)
    ensures fresh(own) && Shows(c, j, own)
    ensures Shows(v, j, r)
    decreases j, 1
  {
    match v
    case Scalar(_) =>
      c, own := v, {};
    case MapRef(m) =>
      if m == null {
        c, own := v, {};
      } else {
        c, own := CopyMap(m, j, r);
      }
    case SliceRef(s) =>
      c, own := CopySlice(s, j, r);
  }

  method CopyMap(m: GoMap, ghost j: Json, ghost r: set<object>) returns (c: Value, ghost own: set<object>)
    requires Shows(MapRef(m), j, r)
    ensures fresh(own) && Shows(c, j, own)
    ensures Shows(MapRef(m), j, r)
    decreases j, 0
  {
    var out := new GoMap();
    ghost var inner: set<object> := {};
    var fields := m.fields;
    var keys := fields.Keys;
    while keys != {}
      invariant keys <= fields.Keys && out.fields.Keys == fields.Keys - keys
      invariant m.fields == fields && Shows(MapRef(m), j, r)
      invariant fresh(inner) && fresh(out) && out !in inner
      invariant forall k | k in out.fields :: Shows(out.fields[k], j.fields[k], inner)
      decreases keys
    {
      var k :| k in keys;
      keys := keys - {k};
      var sub, more := CopyAny(fields[k], j.fields[k], r);
      forall x | x in out.fields ensures Shows(out.fields[x], j.fields[x], inner + more) {
        ShowsMore(out.fields[x], j.fields[x], inner, inner + more);
      }
      ShowsMore(sub, j.fields[k], more, inner + more);
      inner := inner + more;
      out.fields := out.fields[k := sub];
    }
    c, own := MapRef(out), inner + {out};
    forall k | k in j.fields ensures Shows(out.fields[k], j.fields[k], own) {
      ShowsMore(out.fields[k], j.fields[k], inner, own);
    }
  }

  method CopySlice(s: GoSlice, ghost j: Json, ghost r: set<object>) returns (c: Value, ghost own: set<object>)
    requires Shows(SliceRef(s), j, r)
    ensures fresh(own) && Shows(c, j, own)
    ensures Shows(SliceRef(s), j, r)
    decreases j, 0
  {
    var out := new GoSlice();
    ghost var inner: set<object> := {};
    var items := s.items;
    for n := 0 to |items|
      invariant s.items == items && Shows(SliceRef(s), j, r)
      invariant fresh(inner) && fresh(out) && out !in inner
      invariant |out.items| == n && forall i | 0 <= i < n :: Shows(out.items[i], j.items[i], inner)
    {
      var sub, more := CopyAny(items[n], j.items[n], r);
      forall i | 0 <= i < n ensures Shows(out.items[i], j.items[i], inner + more) {
        ShowsMore(out.items[i], j.items[i], inner, inner + more);
      }
      ShowsMore(sub, j.items[n], more, inner + more);
      inner := inner + more;
      out.items := out.items + [sub];
    }
    c, own := SliceRef(out), inner + {out};
    forall i | 0 <= i < |j.items| ensures Shows(out.items[i], j.items[i], own) {
      ShowsMore(out.items[i], j.items[i], inner, own);
    }
  }

  /** The replay: the call gets the copy and may overwrite anything it can reach through it, yet
      the stored arguments still hold their document afterwards. */
  method CallWithCopy(v: Value, ghost j: Json, ghost r: set<object>) returns (args: Value, ghost own: set<object>)
    requires Shows(v, j, r)
    ensures fresh(own) && Shows(v, j, r)
  {
    args, own := CopyAny(v, j, r);
    modify own;
  }
}
