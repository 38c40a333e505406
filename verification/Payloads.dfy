/** Captured payloads in PostgreSQL and back: insertPayload's column mapping
    (pkg/audit/postgres/store.go:158-180) and GetPayload (store.go:182-242). */
module Payloads {
  import opened Json
  import opened Audit
  import opened JsonFilter
  import opened Query

  // ---------- reading a row ----------

  function ReadObject(c: Cell): Option<map<string, Json>> {
    if c.Jsonb? && c.j.Obj? then Some(c.j.fields) else None
  }

  function ReadString(j: Json): string {
    if j.Str? then j.s else ""
  }

  function ReadStrings(j: Json): seq<string> {
    if j.Arr? then seq(|j.items|, i requires 0 <= i < |j.items| => ReadString(j.items[i])) else []
  }

  function ReadHeaders(c: Cell): Option<map<string, seq<string>>> {
    if c.Jsonb? && c.j.Obj? then Some(map k | k in c.j.fields :: ReadStrings(c.j.fields[k])) else None
  }

  function ReadMember(j: Json, name: string): Option<Json> {
    if j.Obj? && name in j.fields then Some(j.fields[name]) else None
  }

  function ReadNote(j: Json): Notification {
    var ts, m, params := ReadMember(j, "ts"), ReadMember(j, "method"), ReadMember(j, "params");
    Notification(if ts.Some? then ReadString(ts.value) else "",
                 if m.Some? then ReadString(m.value) else "",
                 if params.Some? && params.value.Obj? then Some(params.value.fields) else None)
  }

  function ReadNotes(c: Cell): seq<Notification> {
    if c.Jsonb? && c.j.Arr? then seq(|c.j.items|, i requires 0 <= i < |c.j.items| => ReadNote(c.j.items[i])) else []
  }

  function ReadPayload(row: PayloadRow): Payload {
    Payload(ReadObject(row.requestParams), ReadHeaders(row.requestHeaders),
            ReadObject(row.responseResult), ReadObject(row.responseError),
            ReadNotes(row.notifications),
            if row.replayedFrom.Text? then row.replayedFrom.s else "")
  }

  // ---------- what survives ----------

  function NonEmptyMap<T>(m: Option<map<string, T>>): Option<map<string, T>> {
    if m == Some(map[]) then None else m
  }

  function NormalNote(n: Notification): Notification {
    n.(params := NonEmptyMap(n.params))
  }

  /** A payload with its empty maps forgotten. */
  function Normal(p: Payload): Payload {
    Payload(NonEmptyMap(p.requestParams), NonEmptyMap(p.requestHeaders),
            NonEmptyMap(p.responseResult), NonEmptyMap(p.responseError),
            seq(|p.notifications|, i requires 0 <= i < |p.notifications| => NormalNote(p.notifications[i])),
            p.replayedFrom)
  }

  lemma HeadersReadBack(h: map<string, seq<string>>)
    ensures ReadHeaders(Jsonb(HeaderDoc(h))) == Some(h)
  {
    var doc := HeaderDoc(h);
    var back := ReadHeaders(Jsonb(doc)).value;
    assert back.Keys == h.Keys;
    forall k | k in h ensures back[k] == h[k] {
      assert doc.fields[k] == Arr(Strings(h[k]));
    }
    assert back == h;
  }

  lemma NoteReadsBack(n: Notification)
    ensures ReadNote(NoteDoc(n)) == NormalNote(n)
  {
  }

  lemma NotesReadBack(ns: seq<Notification>)
    ensures ReadNotes(MarshalNotes(ns)) == seq(|ns|, i requires 0 <= i < |ns| => NormalNote(ns[i]))
  {
    forall i | 0 <= i < |ns| ensures ReadNote(NoteDoc(ns[i])) == NormalNote(ns[i]) {
      NoteReadsBack(ns[i]);
    }
  }

  /** What is read back is the captured payload up to empty maps: every column holds its own part,
      headers and notifications with all their contents. */
  lemma PayloadRoundTrip(p: Payload)
    ensures ReadPayload(StoredPayload(p)) == Normal(p)
  {
    if p.requestHeaders.Some? {
      HeadersReadBack(p.requestHeaders.value);
    }
    NotesReadBack(p.notifications);
  }
}
