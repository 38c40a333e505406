/** The per-call notification recorder (pkg/mcpmw/notifications.go:34-101), whose Append takes its
    lock twice, and the byte cap applied to what it recorded (pkg/mcpmw/audit.go:270-303). */
module Notifications {
  import opened Json
  import opened Audit
  import opened Redaction

  // ---------- the recorder as a protocol ----------

  /** An Append call: before its first lock, between its locks, or over. */
  datatype Call = Entered(note: Notification) | Prepared(note: Notification) | Over

  datatype State = State(
    max: int,
    items: seq<Notification>,
    calls: seq<Call>,
    // history
    order: seq<Notification>,            // notes in the order of their deciding critical section
    decided: seq<nat>,                   // and the calls they belong to
    bailed: seq<nat>,                    // positions in `order` of calls that stopped at the first check
    snapshots: seq<seq<Notification>>)

  datatype Action =
    | Enter(ts: string, noteMethod: string, params: Option<map<string, Json>>)
    | Check(i: nat)
    | Commit(i: nat)
    | Snapshot

  datatype Config = Config(max: int, lower: string -> string, redactKeys: seq<string>)

  function Init(cfg: Config): State {
    State(cfg.max, [], [], [], [], [], [])
  }

  function NoteOf(cfg: Config, a: Action): Notification
    requires a.Enter?
  {
    Notification(a.ts, a.noteMethod, SanitizeMap(cfg.lower, cfg.redactKeys, a.params))
  }

  predicate Full(max: int, items: seq<Notification>) {
    max > 0 && |items| >= max
  }

  /** Append as one critical section. */
  function AppendOne(max: int, items: seq<Notification>, note: Notification): seq<Notification> {
    if Full(max, items) then items else items + [note]
  }

  predicate Enabled(s: State, a: Action) {
    match a
    case Enter(_, _, _) => true
    case Check(i) => i < |s.calls| && s.calls[i].Entered?
    case Commit(i) => i < |s.calls| && s.calls[i].Prepared?
    case Snapshot => true
  }

  function Apply(cfg: Config, s: State, a: Action): State
    requires Enabled(s, a)
  {
    match a
    case Enter(_, _, _) => s.(calls := s.calls + [Entered(NoteOf(cfg, a))])
    case Check(i) =>
      var note := s.calls[i].note;
      if Full(s.max, s.items)
      then s.(calls := s.calls[i := Over], order := s.order + [note], decided := s.decided + [i],
              bailed := s.bailed + [|s.order|])
      else s.(calls := s.calls[i := Prepared(note)])
    case Commit(i) =>
      var note := s.calls[i].note;
      s.(calls := s.calls[i := Over], order := s.order + [note], decided := s.decided + [i],
         items := AppendOne(s.max, s.items, note))
    case Snapshot => s.(snapshots := s.snapshots + [s.items])
  }

  predicate CanRun(cfg: Config, s: State, acts: seq<Action>)
    decreases |acts|
  {
    acts == [] || (Enabled(s, acts[0]) && CanRun(cfg, Apply(cfg, s, acts[0]), acts[1..]))
  }

  function Run(cfg: Config, s: State, acts: seq<Action>): State
    requires CanRun(cfg, s, acts)
    decreases |acts|
  {
    if acts == [] then s else Run(cfg, Apply(cfg, s, acts[0]), acts[1..])
  }

  // ---------- the specification: one critical section per call ----------

  function AppendAll(max: int, notes: seq<Notification>): seq<Notification> {
    if notes == [] then [] else AppendOne(max, AppendAll(max, notes[..|notes| - 1]), notes[|notes| - 1])
  }

  /** Appending one at a time keeps the first `max` and drops the rest. */
  lemma {:induction false} AppendAllIsTake(max: int, notes: seq<Notification>)
    ensures AppendAll(max, notes) == if max > 0 && |notes| > max then notes[..max] else notes
  {
    if notes != [] {
      AppendAllIsTake(max, notes[..|notes| - 1]);
      assert notes == notes[..|notes| - 1] + [notes[|notes| - 1]];
    }
  }

  // ---------- invariant ----------

  ghost predicate Redacted(cfg: Config, n: Notification) {
    n.params.Some? ==> Clean(Matcher(cfg.lower, cfg.redactKeys), Obj(n.params.value))
  }

  ghost predicate OrderInv(cfg: Config, s: State) {
    && s.max == cfg.max
    && s.items == AppendAll(s.max, s.order)
    && (forall b | b in s.bailed :: b < |s.order| && s.max > 0 && b >= s.max)
  }

  ghost predicate SnapshotInv(s: State) {
    && (forall i, j | 0 <= i < j < |s.snapshots| :: s.snapshots[i] <= s.snapshots[j])
    && (forall i | 0 <= i < |s.snapshots| :: s.snapshots[i] <= s.items)
  }

  ghost predicate RedactInv(cfg: Config, s: State) {
    && (forall i | 0 <= i < |s.calls| :: !s.calls[i].Over? ==> Redacted(cfg, s.calls[i].note))
    && (forall n | n in s.order :: Redacted(cfg, n))
  }

  ghost predicate Inv(cfg: Config, s: State) {
    OrderInv(cfg, s) && SnapshotInv(s) && RedactInv(cfg, s)
  }

  lemma NoteIsRedacted(cfg: Config, a: Action)
    requires a.Enter?
    ensures Redacted(cfg, NoteOf(cfg, a))
  {
    var fields := if a.params.Some? then a.params.value else map[];
    FastPathIsTheWalk(cfg.lower, cfg.redactKeys, fields);
    SanitizeCleans(Matcher(cfg.lower, cfg.redactKeys), Obj(fields));
    assert Sanitize(Matcher(cfg.lower, cfg.redactKeys), Obj(fields)).Obj?;
  }

  lemma AppendAllStep(max: int, notes: seq<Notification>, n: Notification)
    ensures AppendAll(max, notes + [n]) == AppendOne(max, AppendAll(max, notes), n)
  {
    assert (notes + [n])[..|notes|] == notes;
  }

  lemma OrderStep(cfg: Config, s: State, a: Action)
    requires OrderInv(cfg, s) && Enabled(s, a)
    ensures OrderInv(cfg, Apply(cfg, s, a))
    ensures s.items <= Apply(cfg, s, a).items
  {
    if a.Check? || a.Commit? {
      AppendAllStep(s.max, s.order, s.calls[a.i].note);
      AppendAllIsTake(s.max, s.order);
    }
  }

  lemma RedactStep(cfg: Config, s: State, a: Action)
    requires RedactInv(cfg, s) && Enabled(s, a)
    ensures RedactInv(cfg, Apply(cfg, s, a))
  {
    if a.Enter? {
      NoteIsRedacted(cfg, a);
    }
  }

  lemma StepKeepsInv(cfg: Config, s: State, a: Action)
    requires Inv(cfg, s) && Enabled(s, a)
    ensures Inv(cfg, Apply(cfg, s, a))
    ensures s.items <= Apply(cfg, s, a).items
  {
    OrderStep(cfg, s, a);
    RedactStep(cfg, s, a);
  }

  lemma {:induction false} RunKeepsInv(cfg: Config, s: State, acts: seq<Action>)
    requires Inv(cfg, s) && CanRun(cfg, s, acts)
    ensures Inv(cfg, Run(cfg, s, acts)) && s.items <= Run(cfg, s, acts).items
    decreases |acts|
  {
    if acts != [] {
      StepKeepsInv(cfg, s, acts[0]);
      RunKeepsInv(cfg, Apply(cfg, s, acts[0]), acts[1..]);
    }
  }

  /** Under every interleaving the items are what one-lock appends in deciding order would have
      recorded: the first `max` of them. The early exit changes nothing, since a call that takes
      it stands at a position the cap refuses anyway; and every snapshot is a prefix of the later
      ones and of the final items. */
  lemma TwoLocksRefineOne(cfg: Config, acts: seq<Action>)
    requires CanRun(cfg, Init(cfg), acts)
    ensures var s := Run(cfg, Init(cfg), acts);
            && s.items == AppendAll(cfg.max, s.order)
            && s.items == (if cfg.max > 0 && |s.order| > cfg.max then s.order[..cfg.max] else s.order)
            && (forall b | b in s.bailed :: b >= |s.items|)
            && (forall i, j | 0 <= i < j < |s.snapshots| :: s.snapshots[i] <= s.snapshots[j] <= s.items)
  {
    RunKeepsInv(cfg, Init(cfg), acts);
    AppendAllIsTake(cfg.max, Run(cfg, Init(cfg), acts).order);
  }

  /** No recorded notification keeps a value under a redacted key. */
  lemma RecordedParamsAreRedacted(cfg: Config, acts: seq<Action>, n: Notification)
    requires CanRun(cfg, Init(cfg), acts) && n in Run(cfg, Init(cfg), acts).items
    ensures Redacted(cfg, n)
  {
    RunKeepsInv(cfg, Init(cfg), acts);
    AppendAllIsTake(cfg.max, Run(cfg, Init(cfg), acts).order);
  }

  // ---------- told from the actions alone ----------

  function Enters(acts: seq<Action>): (r: seq<Action>)
    ensures forall e | e in r :: e.Enter?
  {
    if acts == [] then []
    else Enters(acts[..|acts| - 1]) + (if acts[|acts| - 1].Enter? then [acts[|acts| - 1]] else [])
  }

  /** The calls that reached their second critical section, in that order. */
  function Commits(acts: seq<Action>): seq<nat> {
    if acts == [] then []
    else Commits(acts[..|acts| - 1]) + (if acts[|acts| - 1].Commit? then [acts[|acts| - 1].i] else [])
  }

  /** n is the notification that the call recorded: its time and method, and its sanitised
      parameters. */
  predicate IsNoteOf(cfg: Config, n: Notification, enter: Action) {
    && enter.Enter? && n.ts == enter.ts && n.noteMethod == enter.noteMethod
    && n.params == SanitizeMap(cfg.lower, cfg.redactKeys, enter.params)
  }

  ghost predicate CallsHistory(cfg: Config, s: State, enters: seq<Action>) {
    && |s.calls| == |enters|
    && (forall i | 0 <= i < |s.calls| && !s.calls[i].Over? :: IsNoteOf(cfg, s.calls[i].note, enters[i]))
  }

  /** Every call that is over has its one place in the order, and nobody else has one. */
  ghost predicate DecidedHistory(cfg: Config, s: State, enters: seq<Action>) {
    && |s.decided| == |s.order|
    && (forall k, l | 0 <= k < l < |s.decided| :: s.decided[k] != s.decided[l])
    && (forall k | 0 <= k < |s.decided| ::
          s.decided[k] < |enters| && IsNoteOf(cfg, s.order[k], enters[s.decided[k]]))
    && (forall i: nat | i < |s.calls| :: s.calls[i].Over? <==> i in s.decided)
  }

  ghost predicate ItemsHistory(cfg: Config, s: State, enters: seq<Action>, commits: seq<nat>) {
    && s.max == cfg.max
    && |s.items| == (if cfg.max > 0 && |commits| > cfg.max then cfg.max else |commits|)
    && forall k | 0 <= k < |s.items| :: commits[k] < |enters| && IsNoteOf(cfg, s.items[k], enters[commits[k]])
  }

  ghost predicate History(cfg: Config, s: State, acts: seq<Action>) {
    && CallsHistory(cfg, s, Enters(acts)) && DecidedHistory(cfg, s, Enters(acts))
    && ItemsHistory(cfg, s, Enters(acts), Commits(acts))
  }

  lemma HistoryStep(cfg: Config, s: State, front: seq<Action>, a: Action)
    requires History(cfg, s, front) && Enabled(s, a)
    ensures History(cfg, Apply(cfg, s, a), front + [a])
  {
    var acts, s' := front + [a], Apply(cfg, s, a);
    assert acts[..|front|] == front;
    DecidedStep(cfg, s, Enters(front), a, Enters(acts));
    assert ItemsHistory(cfg, s', Enters(acts), Commits(acts));
  }

  lemma DecidedStep(cfg: Config, s: State, enters: seq<Action>, a: Action, enters': seq<Action>)
    requires CallsHistory(cfg, s, enters) && DecidedHistory(cfg, s, enters) && Enabled(s, a)
    requires enters' == if a.Enter? then enters + [a] else enters
    ensures CallsHistory(cfg, Apply(cfg, s, a), enters') && DecidedHistory(cfg, Apply(cfg, s, a), enters')
  {
    var s' := Apply(cfg, s, a);
    if s'.decided != s.decided {
      assert a.i !in s.decided && s'.decided == s.decided + [a.i];
    } else {
      assert forall k | 0 <= k < |s.decided| :: s.decided[k] < |enters|;
      assert |s.calls| !in s.decided;
    }
  }

  lemma {:induction false} RunAppend(cfg: Config, s: State, xs: seq<Action>, ys: seq<Action>)
    requires CanRun(cfg, s, xs + ys)
    ensures CanRun(cfg, s, xs) && CanRun(cfg, Run(cfg, s, xs), ys)
    ensures Run(cfg, s, xs + ys) == Run(cfg, Run(cfg, s, xs), ys)
    decreases |xs|
  {
    if xs == [] {
      assert xs + ys == ys;
    } else {
      assert (xs + ys)[1..] == xs[1..] + ys;
      RunAppend(cfg, Apply(cfg, s, xs[0]), xs[1..], ys);
    }
  }

  /** Under every interleaving: the items are the notes of the first `max` calls to commit, made
      from what those calls were given; and each call that is over, and no other, stands in the
      deciding order exactly once, with its own note. */
  lemma {:induction false} StateIsHistory(cfg: Config, acts: seq<Action>)
    requires CanRun(cfg, Init(cfg), acts)
    ensures History(cfg, Run(cfg, Init(cfg), acts), acts)
    decreases |acts|
  {
    if acts != [] {
      var front, a := acts[..|acts| - 1], acts[|acts| - 1];
      assert acts == front + [a];
      RunAppend(cfg, Init(cfg), front, [a]);
      StateIsHistory(cfg, front);
      HistoryStep(cfg, Run(cfg, Init(cfg), front), front, a);
    }
  }

  /** In every reachable state a call stops at its first check exactly when the recorder is full;
      otherwise it goes on to its commit, which records it exactly when there is still room. A
      snapshot is what is recorded at that moment. */
  lemma StepsOfACall(cfg: Config, acts: seq<Action>, i: nat)
    requires CanRun(cfg, Init(cfg), acts)
    ensures var s := Run(cfg, Init(cfg), acts);
            var full := cfg.max > 0 && |s.items| >= cfg.max;
            && (Enabled(s, Check(i)) ==>
                  var s' := Apply(cfg, s, Check(i));
                  s'.items == s.items && s'.calls[i] == if full then Over else Prepared(s.calls[i].note))
            && (Enabled(s, Commit(i)) ==>
                  var s' := Apply(cfg, s, Commit(i));
                  s'.calls[i].Over? && s'.items == if full then s.items else s.items + [s.calls[i].note])
            && Enabled(s, Snapshot) && Apply(cfg, s, Snapshot).snapshots == s.snapshots + [s.items]
            && (i < |s.calls| && !s.calls[i].Over? ==> Enabled(s, Check(i)) || Enabled(s, Commit(i)))
  {
    StateIsHistory(cfg, acts);
  }

  /** The recorder object, with its two critical sections. */
  class NotificationRecorder {
    const max: int
    var items: seq<Notification>

    constructor (max: int)
      ensures this.max == max && items == []
    {
      this.max := max;
      items := [];
    }

    ghost predicate Matches(s: State)
      reads this
    {
      max == s.max && items == s.items
    }

    /** The first critical section is the Check action. */
    method CheckFull(ghost cfg: Config, ghost s: State, ghost i: nat) returns (full: bool)
      requires Matches(s) && Enabled(s, Check(i))
      ensures full <==> Apply(cfg, s, Check(i)).calls[i].Over?
      ensures Matches(Apply(cfg, s, Check(i)))
    {
      full := max > 0 && |items| >= max;
    }

    /** The second is the Commit action. */
    method CommitNote(note: Notification, ghost cfg: Config, ghost s: State, ghost i: nat)
      requires Matches(s) && Enabled(s, Commit(i)) && note == s.calls[i].note
      modifies this
      ensures Matches(Apply(cfg, s, Commit(i)))
    {
      if max > 0 && |items| >= max {
        return;
      }
      items := items + [note];
    }

    /** Append without interference between the locks: the call's Check, and its Commit unless the
      recorder was full. */
    method Append(note: Notification, ghost cfg: Config, ghost s: State, ghost i: nat)
      requires Matches(s) && Enabled(s, Check(i)) && note == s.calls[i].note
      modifies this
      ensures var s1 := Apply(cfg, s, Check(i));
              Matches(if s1.calls[i].Over? then s1 else Apply(cfg, s1, Commit(i)))
      ensures items == if max > 0 && |old(items)| >= max then old(items) else old(items) + [note]
    {
      var full := CheckFull(cfg, s, i);
      if full {
        return;
      }
      CommitNote(note, cfg, Apply(cfg, s, Check(i)), i);
    }
  }

  // ---------- fitNotifications ----------

  type Marshal = Notification -> Option<string>

  ghost predicate AllMarshal(marshal: Marshal, ns: seq<Notification>) {
    forall n | n in ns :: marshal(n).Some?
  }

  /** The elements of a JSON array, comma separated. */
  function Elements(marshal: Marshal, ns: seq<Notification>): string
    requires AllMarshal(marshal, ns)
  {
    if ns == [] then ""
    else
      assert ns[|ns| - 1] in ns;
      assert forall n | n in ns[..|ns| - 1] :: n in ns;
      var last := marshal(ns[|ns| - 1]).value;
      if |ns| == 1 then last else Elements(marshal, ns[..|ns| - 1]) + "," + last
  }

  function ArrayText(marshal: Marshal, ns: seq<Notification>): string
    requires AllMarshal(marshal, ns)
  {
    "[" + Elements(marshal, ns) + "]"
  }

  ghost predicate FitsIn(marshal: Marshal, ns: seq<Notification>, max: int) {
    AllMarshal(marshal, ns) && |ArrayText(marshal, ns)| <= max
  }

  lemma {:induction false} LongerIsLarger(marshal: Marshal, ns: seq<Notification>, m: nat)
    requires m <= |ns| && AllMarshal(marshal, ns)
    ensures AllMarshal(marshal, ns[..m]) && |ArrayText(marshal, ns[..m])| <= |ArrayText(marshal, ns)|
    decreases |ns| - m
  {
    assert forall n | n in ns[..m] :: n in ns;
    if m == |ns| {
      assert ns[..m] == ns;
    } else {
      LongerIsLarger(marshal, ns, m + 1);
      assert ns[..m + 1][..m] == ns[..m];
    }
  }

  lemma TextStep(marshal: Marshal, ns: seq<Notification>, i: nat)
    requires i < |ns| && AllMarshal(marshal, ns[..i]) && marshal(ns[i]).Some?
    ensures AllMarshal(marshal, ns[..i + 1])
    ensures |ArrayText(marshal, ns[..i + 1])|
         == |ArrayText(marshal, ns[..i])| + (if i > 0 then 1 else 0) + |marshal(ns[i]).value|
  {
    assert ns[..i + 1] == ns[..i] + [ns[i]];
    assert ns[..i + 1][..i] == ns[..i];
  }

  /** Of a prefix that does not fit, no extension fits. */
  lemma NoLongerPrefixFits(marshal: Marshal, ns: seq<Notification>, max: int, i: nat, m: nat)
    requires i < m <= |ns| && !FitsIn(marshal, ns[..i + 1], max)
    ensures !FitsIn(marshal, ns[..m], max)
  {
    if AllMarshal(marshal, ns[..m]) {
      LongerIsLarger(marshal, ns[..m], i + 1);
      assert ns[..m][..i + 1] == ns[..i + 1];
    }
  }

  /** With a positive cap the result is the longest prefix whose JSON array fits, or nothing when
      not even one entry does; truncation is reported exactly when something was dropped. An
      entry that does not marshal ends the prefix. */
  method FitNotifications(marshal: Marshal, ns: seq<Notification>, max: int)
    returns (out: seq<Notification>, truncated: bool)
    ensures out <= ns && (truncated <==> out != ns)
    ensures max <= 0 ==> out == ns
    ensures max > 0 && out != [] ==> FitsIn(marshal, out, max)
    ensures max > 0 ==> forall m | |out| < m <= |ns| :: !FitsIn(marshal, ns[..m], max)
  {
    if |ns| == 0 || max <= 0 {
      return ns, false;
    }
    var running := 2;
    for i := 0 to |ns|
      invariant AllMarshal(marshal, ns[..i]) && running == |ArrayText(marshal, ns[..i])|
      invariant i > 0 ==> running <= max
    {
      var b := marshal(ns[i]);
      if b.None? {
        assert ns[i] in ns[..i + 1];
        forall m | i < m <= |ns| ensures !FitsIn(marshal, ns[..m], max) {
          NoLongerPrefixFits(marshal, ns, max, i, m);
        }
        return ns[..i], true;
      }
      TextStep(marshal, ns, i);
      if i > 0 {
        running := running + 1;
      }
      running := running + |b.value|;
      if running > max {
        forall m | i < m <= |ns| ensures !FitsIn(marshal, ns[..m], max) {
          NoLongerPrefixFits(marshal, ns, max, i, m);
        }
        return ns[..i], true;
      }
    }
    assert ns[..|ns|] == ns;
    return ns, false;
  }
}
