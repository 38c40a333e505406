/** The asynchronous audit pipeline (pkg/audit/async.go) as a protocol.

    Producers, the single drain worker, Close callers, subscribers and cancellers interleave at
    their atomic points: channel operations and critical sections. `Apply` is one such point, and
    a run is any sequence of enabled actions. Fields below the "history" mark never influence a
    step; they record what happened so that a property of the whole run is a property of its
    last state. */
module AsyncPipeline {
  import opened Audit

  // ---------- the subscriber's channel and flag ----------

  /** What subscriber.send and subscriber.closeOnce touch. `closed` is the mutex-guarded flag;
      `chanClosed` is the Go channel's own state. Sending on, or closing, a closed Go channel
      panics, and `panics` counts that. */
  datatype Endpoint = Endpoint(
    cap: nat, queue: seq<Event>, closed: bool, chanClosed: bool, closes: nat, panics: nat)

  datatype SendOutcome = Delivered | Full | Cancelled | Panicked

  function OutcomeOf(e: Endpoint): SendOutcome {
    if e.closed then Cancelled
    else if e.chanClosed then Panicked
    else if |e.queue| < e.cap then Delivered
    else Full
  }

  function SendTo(e: Endpoint, ev: Event): Endpoint {
    match OutcomeOf(e)
    case Delivered => e.(queue := e.queue + [ev])
    case Panicked => e.(panics := e.panics + 1)
    case _ => e
  }

  function CloseEndpoint(e: Endpoint): Endpoint {
    if e.closed then e
    else e.(closed := true,
            chanClosed := true,
            closes := e.closes + 1,
            panics := if e.chanClosed then e.panics + 1 else e.panics)
  }

  function RemoveFirst<T(==)>(s: seq<T>, x: T): seq<T> {
    if s == [] then []
    else if s[0] == x then s[1..]
    else [s[0]] + RemoveFirst(s[1..], x)
  }

  function SubscriberCap(buf: int): nat {
    if buf <= 0 then 64 else buf
  }

  function BufferCap(bufferSize: int): nat {
    if bufferSize <= 0 then 1024 else bufferSize
  }

  // ---------- the protocol state ----------

  datatype Tail = Tail(
    ep: Endpoint,
    pendingCloses: nat,     // cancel calls between their two critical sections
    // history
    detached: bool,         // some cancel has removed it from the registry
    received: seq<Event>,   // what the consumer has taken from the channel
    since: nat,             // broadcasts snapshotted before it registered
    hits: seq<nat>,         // broadcasts put on its channel, by index
    missed: seq<nat>)       // broadcasts dropped because its buffer was full

  datatype Worker =
    | Selecting(draining: bool)
    | Writing(ev: Event, draining: bool)
    | Persisted(ev: Event, draining: bool)
    | Sending(ev: Event, todo: seq<nat>, index: nat, draining: bool)
    | Returned

  datatype Written = Written(ev: Event, ok: bool)

  datatype State = State(
    cap: nat,
    ch: seq<Event>,
    stopped: bool,
    dropped: nat,
    dropping: nat,            // Log calls that found the buffer full and have not counted it yet
    worker: Worker,
    registry: seq<nat>,
    subs: seq<Tail>,          // every subscriber ever made; the registry lists the active ones
    // history
    started: nat,             // Log calls that have reached their select
    accepted: seq<Event>,
    handed: seq<Written>,     // finished inner.Log calls with their results
    broadcasts: seq<Event>,   // events whose subscriber snapshot has been taken
    acceptedAtStop: nat,
    acceptedAtReturn: nat)

  datatype Action =
    | Log(logged: Event)
    | CountDrop
    | Close
    | Receive
    | ObserveStop
    | Finish
    | InnerLog(ok: bool)
    | Snapshot
    | Send
    | EndBroadcast
    | Subscribe(buf: int)
    | Detach(id: nat)
    | CloseSub(id: nat)
    | Consume(id: nat)

  function Init(bufferSize: int): State {
    State(BufferCap(bufferSize), [], false, 0, 0, Selecting(false), [], [],
          0, [], [], [], 0, 0)
  }

  predicate Enabled(s: State, a: Action) {
    match a
    case Log(_) => true
    case CountDrop => s.dropping > 0
    case Close => true
    case Receive => s.worker.Selecting? && s.ch != []
    case ObserveStop => s.worker == Selecting(false) && s.stopped
    case Finish => s.worker == Selecting(true) && s.ch == []
    case InnerLog(_) => s.worker.Writing?
    case Snapshot => s.worker.Persisted?
    case Send => s.worker.Sending? && s.worker.todo != [] && s.worker.todo[0] < |s.subs|
    case EndBroadcast => s.worker.Sending? && s.worker.todo == []
    case Subscribe(_) => true
    case Detach(id) => id < |s.subs|
    case CloseSub(id) => id < |s.subs| && s.subs[id].pendingCloses > 0
    case Consume(id) => id < |s.subs| && s.subs[id].ep.queue != []
  }

  function SendStep(t: Tail, ev: Event, index: nat): Tail {
    match OutcomeOf(t.ep)
    case Delivered => t.(ep := SendTo(t.ep, ev), hits := t.hits + [index])
    case Full => t.(ep := SendTo(t.ep, ev), missed := t.missed + [index])
    case _ => t.(ep := SendTo(t.ep, ev))
  }

  function Apply(s: State, a: Action): State
    requires Enabled(s, a)
  {
    match a
    case Log(ev) =>
      if |s.ch| < s.cap
      then s.(ch := s.ch + [ev], started := s.started + 1, accepted := s.accepted + [ev])
      else s.(dropping := s.dropping + 1, started := s.started + 1)
    case CountDrop =>
      s.(dropping := s.dropping - 1, dropped := s.dropped + 1)
    case Close =>
      if s.stopped then s else s.(stopped := true, acceptedAtStop := |s.accepted|)
    case Receive =>
      s.(ch := s.ch[1..], worker := Writing(s.ch[0], s.worker.draining))
    case ObserveStop =>
      s.(worker := Selecting(true))
    case Finish =>
      s.(worker := Returned, acceptedAtReturn := |s.accepted|)
    case InnerLog(ok) =>
      s.(worker := if ok then Persisted(s.worker.ev, s.worker.draining) else Selecting(s.worker.draining),
         handed := s.handed + [Written(s.worker.ev, ok)])
    case Snapshot =>
      s.(worker := Sending(s.worker.ev, s.registry, |s.broadcasts|, s.worker.draining),
         broadcasts := s.broadcasts + [s.worker.ev])
    case Send =>
      var id := s.worker.todo[0];
      s.(worker := s.worker.(todo := s.worker.todo[1..]),
         subs := s.subs[id := SendStep(s.subs[id], s.worker.ev, s.worker.index)])
    case EndBroadcast =>
      s.(worker := Selecting(s.worker.draining))
    case Subscribe(buf) =>
      s.(registry := s.registry + [|s.subs|],
         subs := s.subs + [Tail(Endpoint(SubscriberCap(buf), [], false, false, 0, 0), 0,
                                false, [], |s.broadcasts|, [], [])])
    case Detach(id) =>
      s.(registry := RemoveFirst(s.registry, id),
         subs := s.subs[id := s.subs[id].(detached := true, pendingCloses := s.subs[id].pendingCloses + 1)])
    case CloseSub(id) =>
      s.(subs := s.subs[id := s.subs[id].(ep := CloseEndpoint(s.subs[id].ep),
                                          pendingCloses := s.subs[id].pendingCloses - 1)])
    case Consume(id) =>
      var t := s.subs[id];
      s.(subs := s.subs[id := t.(ep := t.ep.(queue := t.ep.queue[1..]), received := t.received + [t.ep.queue[0]])])
  }

  // ---------- runs ----------

  /** `acts` is an interleaving the protocol allows from s. */
  predicate CanRun(s: State, acts: seq<Action>)
    decreases |acts|
  {
    acts == [] || (Enabled(s, acts[0]) && CanRun(Apply(s, acts[0]), acts[1..]))
  }

  function Run(s: State, acts: seq<Action>): State
    requires CanRun(s, acts)
    decreases |acts|
  {
    if acts == [] then s else Run(Apply(s, acts[0]), acts[1..])
  }

  // ---------- the queue invariant: nothing accepted is lost, repeated or reordered ----------

  function EventsOf(w: seq<Written>): seq<Event> {
    if w == [] then [] else EventsOf(w[..|w| - 1]) + [w[|w| - 1].ev]
  }

  /** The events whose inner write succeeded, in the order they were handed over. */
  function Succeeded(w: seq<Written>): seq<Event> {
    if w == [] then []
    else Succeeded(w[..|w| - 1]) + (if w[|w| - 1].ok then [w[|w| - 1].ev] else [])
  }

  function InFlight(w: Worker): seq<Event> {
    if w.Writing? then [w.ev] else []
  }

  function AwaitingSnapshot(w: Worker): seq<Event> {
    if w.Persisted? then [w.ev] else []
  }

  predicate Draining(w: Worker) {
    w.Returned? || w.draining
  }

  ghost predicate QueueInv(s: State) {
    && s.accepted == EventsOf(s.handed) + InFlight(s.worker) + s.ch
    && Succeeded(s.handed) == s.broadcasts + AwaitingSnapshot(s.worker)
    && s.started == |s.accepted| + s.dropped + s.dropping
    && |s.ch| <= s.cap
    && (s.dropped + s.dropping > 0 ==> |s.accepted| >= s.cap)
    && (Draining(s.worker) ==> s.stopped)
    && (s.stopped ==> s.acceptedAtStop <= |s.accepted|)
    && (s.worker.Returned? ==>
          s.acceptedAtStop <= s.acceptedAtReturn == |EventsOf(s.handed)|)
  }

  lemma EventsOfAppend(w: seq<Written>, x: Written)
    ensures EventsOf(w + [x]) == EventsOf(w) + [x.ev]
    ensures Succeeded(w + [x]) == Succeeded(w) + (if x.ok then [x.ev] else [])
  {
    assert (w + [x])[..|w + [x]| - 1] == w;
  }

  lemma QueueLog(s: State, ev: Event)
    requires QueueInv(s)
    ensures QueueInv(Apply(s, Log(ev)))
  {
    assert EventsOf(s.handed) + InFlight(s.worker) + (s.ch + [ev])
        == (EventsOf(s.handed) + InFlight(s.worker) + s.ch) + [ev];
  }

  lemma FirstInFlight(written: seq<Event>, ch: seq<Event>)
    requires ch != []
    ensures written + [] + ch == written + [ch[0]] + ch[1..]
  {
  }

  lemma QueueReceive(s: State)
    requires QueueInv(s) && Enabled(s, Receive)
    ensures QueueInv(Apply(s, Receive))
  {
    var written := EventsOf(s.handed);
    FirstInFlight(written, s.ch);
    assert s.accepted == written + [] + s.ch;
  }

  lemma QueueInnerLog(s: State, ok: bool)
    requires QueueInv(s) && Enabled(s, InnerLog(ok))
    ensures QueueInv(Apply(s, InnerLog(ok)))
  {
    EventsOfAppend(s.handed, Written(s.worker.ev, ok));
    assert EventsOf(s.handed) + [s.worker.ev] + [] == EventsOf(s.handed) + [s.worker.ev];
    assert s.broadcasts + [] == s.broadcasts;
  }

  lemma QueueSnapshot(s: State)
    requires QueueInv(s) && Enabled(s, Snapshot)
    ensures QueueInv(Apply(s, Snapshot))
  {
    assert s.broadcasts + [s.worker.ev] + [] == s.broadcasts + [s.worker.ev];
  }

  lemma QueueFinish(s: State)
    requires QueueInv(s) && Enabled(s, Finish)
    ensures QueueInv(Apply(s, Finish))
  {
    assert s.accepted == EventsOf(s.handed);
  }

  /** Subscribers come, go and are served beside the queue. */
  lemma QueueTails(s: State, a: Action)
    requires QueueInv(s) && Enabled(s, a)
    requires a.Send? || a.Subscribe? || a.Detach? || a.CloseSub? || a.Consume?
    ensures QueueInv(Apply(s, a))
  {
    var s' := Apply(s, a);
    assert InFlight(s'.worker) == InFlight(s.worker) && AwaitingSnapshot(s'.worker) == AwaitingSnapshot(s.worker);
  }

  lemma QueueControl(s: State, a: Action)
    requires QueueInv(s) && Enabled(s, a)
    requires a.CountDrop? || a.Close? || a.ObserveStop? || a.EndBroadcast?
    ensures QueueInv(Apply(s, a))
  {
    var s' := Apply(s, a);
    assert InFlight(s'.worker) == InFlight(s.worker) && AwaitingSnapshot(s'.worker) == AwaitingSnapshot(s.worker);
  }

  lemma QueueStep(s: State, a: Action)
    requires QueueInv(s) && Enabled(s, a)
    ensures QueueInv(Apply(s, a))
  {
    if a.Log? {
      QueueLog(s, a.logged);
    } else if a.Receive? {
      QueueReceive(s);
    } else if a.InnerLog? {
      QueueInnerLog(s, a.ok);
    } else if a.Snapshot? {
      QueueSnapshot(s);
    } else if a.Finish? {
      QueueFinish(s);
    } else if a.CountDrop? || a.Close? || a.ObserveStop? || a.EndBroadcast? {
      QueueControl(s, a);
    } else {
      QueueTails(s, a);
    }
  }

  // ---------- the live-tail invariant ----------

  ghost predicate Increasing(xs: seq<nat>, lo: nat, hi: nat) {
    && (forall i | 0 <= i < |xs| :: lo <= xs[i] < hi)
    && (forall i, j | 0 <= i < j < |xs| :: xs[i] < xs[j])
  }

  /** What subscriber t may have seen of the broadcasts below `limit`. */
  ghost predicate TailInv(t: Tail, broadcasts: seq<Event>, limit: nat) {
    && limit <= |broadcasts|
    && t.ep.panics == 0
    && t.ep.closed == t.ep.chanClosed
    && t.ep.closes == (if t.ep.closed then 1 else 0)
    && (t.ep.closed || t.pendingCloses > 0 <==> t.detached)
    && |t.ep.queue| <= t.ep.cap
    && t.since <= limit
    && Increasing(t.hits, t.since, limit)
    && Increasing(t.missed, t.since, limit)
    && |t.received + t.ep.queue| == |t.hits|
    && (forall i | 0 <= i < |t.hits| :: (t.received + t.ep.queue)[i] == broadcasts[t.hits[i]])
    && (forall j | j in t.hits :: j !in t.missed)
    && t.ep.cap >= 1
    && (forall j | j in t.missed :: |t.hits| >= t.ep.cap && t.hits[t.ep.cap - 1] < j)
    && (!t.detached ==> forall j: nat | t.since <= j < limit :: j in t.hits || j in t.missed)
  }

  predicate Waiting(s: State, id: nat) {
    s.worker.Sending? && id in s.worker.todo
  }

  /** Broadcasts that subscriber id has been offered or can no longer be offered. */
  function Offered(s: State, id: nat): nat {
    if Waiting(s, id) then s.worker.index else |s.broadcasts|
  }

  ghost predicate Distinct(ids: seq<nat>) {
    forall i, j | 0 <= i < j < |ids| :: ids[i] != ids[j]
  }

  ghost predicate LiveInv(s: State) {
    && Distinct(s.registry)
    && (forall id | id in s.registry :: id < |s.subs|)
    && (forall id: nat | id < |s.subs| :: id in s.registry <==> !s.subs[id].detached)
    && (s.worker.Sending? ==>
          && s.worker.index + 1 == |s.broadcasts|
          && s.worker.ev == s.broadcasts[s.worker.index]
          && Distinct(s.worker.todo)
          && forall id | id in s.worker.todo :: id < |s.subs|)
    && (forall id: nat | id < |s.subs| :: TailInv(s.subs[id], s.broadcasts, Offered(s, id)))
  }

  lemma RemoveFirstDistinct(ids: seq<nat>, x: nat)
    requires Distinct(ids)
    ensures Distinct(RemoveFirst(ids, x))
    ensures forall y :: y in RemoveFirst(ids, x) <==> y in ids && y != x
  {
    if ids != [] {
      assert forall y :: y in ids <==> y == ids[0] || y in ids[1..];
      assert ids[0] !in ids[1..];
      if ids[0] != x {
        RemoveFirstDistinct(ids[1..], x);
      }
    }
  }

  lemma SendDelivered(t: Tail, broadcasts: seq<Event>)
    requires broadcasts != [] && TailInv(t, broadcasts, |broadcasts| - 1) && OutcomeOf(t.ep).Delivered?
    ensures TailInv(SendStep(t, broadcasts[|broadcasts| - 1], |broadcasts| - 1), broadcasts, |broadcasts|)
  {
    var ev := broadcasts[|broadcasts| - 1];
    var t' := SendStep(t, ev, |broadcasts| - 1);
    assert t'.received + t'.ep.queue == (t.received + t.ep.queue) + [ev];
  }

  lemma SendFull(t: Tail, broadcasts: seq<Event>)
    requires broadcasts != [] && TailInv(t, broadcasts, |broadcasts| - 1) && OutcomeOf(t.ep).Full?
    ensures TailInv(SendStep(t, broadcasts[|broadcasts| - 1], |broadcasts| - 1), broadcasts, |broadcasts|)
  {
  }

  lemma SendTail(t: Tail, broadcasts: seq<Event>)
    requires broadcasts != []
    requires TailInv(t, broadcasts, |broadcasts| - 1)
    ensures TailInv(SendStep(t, broadcasts[|broadcasts| - 1], |broadcasts| - 1), broadcasts, |broadcasts|)
  {
    match OutcomeOf(t.ep)
    case Delivered => SendDelivered(t, broadcasts);
    case Full => SendFull(t, broadcasts);
    case Cancelled =>
    case Panicked =>
  }

  lemma ConsumeTail(t: Tail, broadcasts: seq<Event>, limit: nat)
    requires TailInv(t, broadcasts, limit) && t.ep.queue != []
    ensures TailInv(t.(ep := t.ep.(queue := t.ep.queue[1..]), received := t.received + [t.ep.queue[0]]),
                    broadcasts, limit)
  {
    assert t.received + [t.ep.queue[0]] + t.ep.queue[1..] == t.received + t.ep.queue;
  }

  lemma SnapshotTail(t: Tail, broadcasts: seq<Event>, ev: Event)
    requires TailInv(t, broadcasts, |broadcasts|)
    ensures TailInv(t, broadcasts + [ev], |broadcasts|)
    ensures t.detached ==> TailInv(t, broadcasts + [ev], |broadcasts| + 1)
  {
  }

  lemma SendOffers(s: State)
    requires LiveInv(s) && Enabled(s, Send)
    ensures var s', id, n := Apply(s, Send), s.worker.todo[0], |s.broadcasts|;
            && n > 0 && Offered(s, id) == n - 1 && Offered(s', id) == n
            && s'.broadcasts == s.broadcasts
            && s'.subs[id] == SendStep(s.subs[id], s.broadcasts[n - 1], n - 1)
  {
    var todo := s.worker.todo;
    assert todo[0] in todo && todo[0] !in todo[1..];
  }

  lemma SendKeepsDetached(t: Tail, ev: Event, index: nat)
    ensures SendStep(t, ev, index).detached == t.detached
  {
  }

  lemma SendFirst(s: State)
    requires LiveInv(s) && Enabled(s, Send)
    ensures var s', id := Apply(s, Send), s.worker.todo[0];
            && TailInv(s'.subs[id], s'.broadcasts, Offered(s', id))
            && s'.subs[id].detached == s.subs[id].detached
  {
    SendOffers(s);
    var id := s.worker.todo[0];
    var t := s.subs[id];
    assert TailInv(t, s.broadcasts, Offered(s, id));
    SendTail(t, s.broadcasts);
    SendKeepsDetached(t, s.broadcasts[|s.broadcasts| - 1], |s.broadcasts| - 1);
  }

  lemma SendOther(s: State, id: nat)
    requires LiveInv(s) && Enabled(s, Send) && id < |s.subs| && id != s.worker.todo[0]
    ensures var s' := Apply(s, Send);
            s'.subs[id] == s.subs[id] && Offered(s', id) == Offered(s, id)
  {
    var todo := s.worker.todo;
    assert todo == [todo[0]] + todo[1..];
    assert id in todo <==> id in todo[1..];
  }

  lemma LiveSend(s: State)
    requires LiveInv(s) && Enabled(s, Send)
    ensures LiveInv(Apply(s, Send))
  {
    var s' := Apply(s, Send);
    forall id: nat | id < |s'.subs|
      ensures TailInv(s'.subs[id], s'.broadcasts, Offered(s', id))
      ensures s'.subs[id].detached == s.subs[id].detached
    {
      if id == s.worker.todo[0] {
        SendFirst(s);
      } else {
        SendOther(s, id);
        assert TailInv(s.subs[id], s.broadcasts, Offered(s, id));
      }
    }
    forall id | id in s'.worker.todo ensures id < |s'.subs| {
      assert id in s.worker.todo;
    }
  }

  lemma LiveSnapshot(s: State)
    requires LiveInv(s) && Enabled(s, Snapshot)
    ensures LiveInv(Apply(s, Snapshot))
  {
    var s' := Apply(s, Snapshot);
    forall id: nat | id < |s'.subs|
      ensures TailInv(s'.subs[id], s'.broadcasts, Offered(s', id))
    {
      assert TailInv(s.subs[id], s.broadcasts, Offered(s, id));
      SnapshotTail(s.subs[id], s.broadcasts, s.worker.ev);
    }
  }

  /** An action on the one subscriber `only` keeps the invariant of all the others. */
  lemma LiveUpdate(s: State, s': State, only: nat)
    requires LiveInv(s) && |s'.subs| == |s.subs|
    requires s'.broadcasts == s.broadcasts && s'.worker == s.worker
    requires Distinct(s'.registry)
    requires forall id: nat :: id in s'.registry <==> id in s.registry && (id != only || !s'.subs[only].detached)
    requires only < |s.subs| && TailInv(s'.subs[only], s.broadcasts, Offered(s, only))
    requires s.subs[only].detached ==> s'.subs[only].detached
    requires forall id: nat | id < |s.subs| && id != only :: s'.subs[id] == s.subs[id]
    ensures LiveInv(s')
  {
    forall id: nat | id < |s'.subs|
      ensures TailInv(s'.subs[id], s'.broadcasts, Offered(s', id))
      ensures id in s'.registry <==> !s'.subs[id].detached
    {
      assert TailInv(s.subs[id], s.broadcasts, Offered(s, id));
      assert Offered(s', id) == Offered(s, id);
    }
  }

  lemma LiveSubscribe(s: State, buf: int)
    requires LiveInv(s)
    ensures LiveInv(Apply(s, Subscribe(buf)))
  {
    var s' := Apply(s, Subscribe(buf));
    assert |s.subs| !in s.registry;
    forall id: nat | id < |s'.subs|
      ensures TailInv(s'.subs[id], s'.broadcasts, Offered(s', id))
      ensures id in s'.registry <==> !s'.subs[id].detached
    {
      if id < |s.subs| {
        assert TailInv(s.subs[id], s.broadcasts, Offered(s, id));
        assert Offered(s', id) == Offered(s, id);
      }
    }
  }

  /** Actions that leave the registry, the subscribers and the pending sends alone. */
  lemma LiveFrame(s: State, s': State)
    requires LiveInv(s)
    requires s'.registry == s.registry && s'.subs == s.subs && s'.broadcasts == s.broadcasts
    requires s'.worker == s.worker
          || (!s'.worker.Sending? && (s.worker.Sending? ==> s.worker.todo == []))
    ensures LiveInv(s')
  {
    forall id: nat | id < |s'.subs|
      ensures TailInv(s'.subs[id], s'.broadcasts, Offered(s', id))
    {
      assert TailInv(s.subs[id], s.broadcasts, Offered(s, id));
      assert Offered(s', id) == Offered(s, id);
    }
  }

  lemma LiveDetach(s: State, id: nat)
    requires LiveInv(s) && Enabled(s, Detach(id))
    ensures LiveInv(Apply(s, Detach(id)))
  {
    RemoveFirstDistinct(s.registry, id);
    assert TailInv(s.subs[id], s.broadcasts, Offered(s, id));
    LiveUpdate(s, Apply(s, Detach(id)), id);
  }

  lemma LiveClose(s: State, id: nat)
    requires LiveInv(s) && Enabled(s, CloseSub(id))
    ensures LiveInv(Apply(s, CloseSub(id)))
  {
    assert TailInv(s.subs[id], s.broadcasts, Offered(s, id));
    LiveUpdate(s, Apply(s, CloseSub(id)), id);
  }

  lemma LiveConsume(s: State, id: nat)
    requires LiveInv(s) && Enabled(s, Consume(id))
    ensures LiveInv(Apply(s, Consume(id)))
  {
    ConsumeTail(s.subs[id], s.broadcasts, Offered(s, id));
    LiveUpdate(s, Apply(s, Consume(id)), id);
  }

  lemma LiveStep(s: State, a: Action)
    requires LiveInv(s) && Enabled(s, a)
    ensures LiveInv(Apply(s, a))
  {
    match a
    case Send => LiveSend(s);
    case Snapshot => LiveSnapshot(s);
    case Subscribe(buf) => LiveSubscribe(s, buf);
    case Detach(id) => LiveDetach(s, id);
    case CloseSub(id) => LiveClose(s, id);
    case Consume(id) => LiveConsume(s, id);
    case _ => LiveFrame(s, Apply(s, a));
  }

  // ---------- theorems about every interleaving ----------

  lemma {:induction false} RunKeepsInvariants(s: State, acts: seq<Action>)
    requires QueueInv(s) && LiveInv(s) && CanRun(s, acts)
    ensures QueueInv(Run(s, acts)) && LiveInv(Run(s, acts))
    decreases |acts|
  {
    if acts != [] {
      QueueStep(s, acts[0]);
      LiveStep(s, acts[0]);
      RunKeepsInvariants(Apply(s, acts[0]), acts[1..]);
    }
  }

  lemma InitialInvariants(bufferSize: int)
    ensures QueueInv(Init(bufferSize)) && LiveInv(Init(bufferSize))
  {
  }

  lemma Reachable(bufferSize: int, acts: seq<Action>)
    requires CanRun(Init(bufferSize), acts)
    ensures QueueInv(Run(Init(bufferSize), acts)) && LiveInv(Run(Init(bufferSize), acts))
  {
    InitialInvariants(bufferSize);
    RunKeepsInvariants(Init(bufferSize), acts);
  }

  lemma {:induction false} RunAppend(s: State, xs: seq<Action>, ys: seq<Action>)
    requires CanRun(s, xs + ys)
    ensures CanRun(s, xs) && CanRun(Run(s, xs), ys)
    ensures Run(s, xs + ys) == Run(Run(s, xs), ys)
    decreases |xs|
  {
    if xs == [] {
      assert xs + ys == ys;
    } else {
      assert (xs + ys)[1..] == xs[1..] + ys;
      RunAppend(Apply(s, xs[0]), xs[1..], ys);
    }
  }

  /** Acceptance only appends; the first Close and the worker's return are final; after the
      return nothing more is handed over. */
  lemma {:induction false} RunIsMonotone(s: State, acts: seq<Action>)
    requires CanRun(s, acts)
    ensures var t := Run(s, acts);
            && s.accepted <= t.accepted
            && s.handed <= t.handed
            && s.broadcasts <= t.broadcasts
            && (s.stopped ==> t.stopped && t.acceptedAtStop == s.acceptedAtStop)
            && (s.worker.Returned? ==>
                  t.worker.Returned? && t.handed == s.handed && t.acceptedAtReturn == s.acceptedAtReturn)
    decreases |acts|
  {
    if acts != [] {
      RunIsMonotone(Apply(s, acts[0]), acts[1..]);
    }
  }

  /** In every reachable state the accepted events are, in order and without loss or repetition,
      those handed to the inner logger, the one in flight and those still in the channel; and
      every Log call that reached its select is accepted, counted as dropped, or about to be. */
  lemma NothingLostOrReordered(bufferSize: int, acts: seq<Action>)
    requires CanRun(Init(bufferSize), acts)
    ensures var s := Run(Init(bufferSize), acts);
            && s.accepted == EventsOf(s.handed) + InFlight(s.worker) + s.ch
            && s.started == |s.accepted| + s.dropped + s.dropping
            && |s.ch| <= BufferCap(bufferSize)
  {
    Reachable(bufferSize, acts);
    CapIsConstant(Init(bufferSize), acts);
  }

  /** Events are dropped only when the buffer is full: a run with no more Log calls than the buffer
      has slots drops none. */
  lemma NoDropWithinCapacity(bufferSize: int, acts: seq<Action>)
    requires CanRun(Init(bufferSize), acts)
    requires Run(Init(bufferSize), acts).started <= BufferCap(bufferSize)
    ensures var s := Run(Init(bufferSize), acts);
            s.dropped == 0 && s.dropping == 0 && |s.accepted| == s.started
  {
    Reachable(bufferSize, acts);
    CapIsConstant(Init(bufferSize), acts);
  }

  lemma {:induction false} CapIsConstant(s: State, acts: seq<Action>)
    requires CanRun(s, acts)
    ensures Run(s, acts).cap == s.cap
    decreases |acts|
  {
    if acts != [] {
      CapIsConstant(Apply(s, acts[0]), acts[1..]);
    }
  }

  /** Close waits for the worker. Once it has returned, everything accepted before the first
      Close went to the inner logger exactly once and in acceptance order. */
  lemma CloseDrains(bufferSize: int, before: seq<Action>, after: seq<Action>)
    requires CanRun(Init(bufferSize), before + ([Close] + after))
    requires CanRun(Init(bufferSize), before) && !Run(Init(bufferSize), before).stopped
    requires Run(Init(bufferSize), before + ([Close] + after)).worker.Returned?
    ensures var done := Run(Init(bufferSize), before + ([Close] + after));
            Run(Init(bufferSize), before).accepted <= EventsOf(done.handed) <= done.accepted
  {
    var init, rest := Init(bufferSize), [Close] + after;
    RunAppend(init, before, rest);
    var s := Run(init, before);
    assert rest[1..] == after;
    var s1 := Apply(s, Close);
    RunIsMonotone(s1, after);
    RunKeepsInvariants(init, before + rest);
  }

  /** Which accepted events are ever written: exactly those accepted before the worker returned,
      however long the run goes on afterwards. */
  lemma WrittenIffAcceptedBeforeReturn(bufferSize: int, acts: seq<Action>, more: seq<Action>)
    requires CanRun(Init(bufferSize), acts + more)
    requires CanRun(Init(bufferSize), acts) && Run(Init(bufferSize), acts).worker.Returned?
    ensures var atReturn, later := Run(Init(bufferSize), acts), Run(Init(bufferSize), acts + more);
            && atReturn.acceptedAtReturn <= |later.accepted|
            && EventsOf(later.handed) == later.accepted[..atReturn.acceptedAtReturn]
            && later.ch == later.accepted[atReturn.acceptedAtReturn..]
  {
    var init := Init(bufferSize);
    RunAppend(init, acts, more);
    RunIsMonotone(Run(init, acts), more);
    RunKeepsInvariants(init, acts + more);
    var later := Run(init, acts + more);
    assert later.accepted == EventsOf(later.handed) + later.ch;
  }

  lemma RunCons(s: State, acts: seq<Action>)
    requires acts != [] ==> Enabled(s, acts[0])
    ensures CanRun(s, acts) <==> acts == [] || CanRun(Apply(s, acts[0]), acts[1..])
    ensures CanRun(s, acts) ==> Run(s, acts) == if acts == [] then s else Run(Apply(s, acts[0]), acts[1..])
  {
  }

  /** Log does not look at the stop signal: a call after Close can be accepted and never written,
      so acceptance alone, or acceptance before Close returns, is no delivery promise. */
  lemma LogAfterCloseCanBeLost(ev: Event)
    ensures var acts := [Close, ObserveStop, Finish, Log(ev)];
            && CanRun(Init(1), acts)
            && Run(Init(1), acts).accepted == [ev]
            && forall more | CanRun(Init(1), acts + more) :: Run(Init(1), acts + more).handed == []
  {
    var acts := [Close, ObserveStop, Finish, Log(ev)];
    var s1 := Apply(Init(1), Close);
    var s2 := Apply(s1, ObserveStop);
    var s3 := Apply(s2, Finish);
    var s4 := Apply(s3, Log(ev));
    RunCons(s4, []);
    RunCons(s3, [Log(ev)]);
    RunCons(s2, [Finish, Log(ev)]);
    RunCons(s1, [ObserveStop, Finish, Log(ev)]);
    RunCons(Init(1), acts);
    forall more | CanRun(Init(1), acts + more)
      ensures Run(Init(1), acts + more).handed == []
    {
      RunAppend(Init(1), acts, more);
      RunIsMonotone(s4, more);
    }
  }

  /** The live tail is safe under every interleaving of Subscribe, cancel and broadcast,
      a cancel between a snapshot and its send included: no send or close ever hits a closed
      channel, each channel closes at most once, and it is closed once its cancels are done. */
  lemma LiveTailNeverPanics(bufferSize: int, acts: seq<Action>, id: nat)
    requires CanRun(Init(bufferSize), acts)
    requires id < |Run(Init(bufferSize), acts).subs|
    ensures var t := Run(Init(bufferSize), acts).subs[id];
            && t.ep.panics == 0
            && t.ep.closes <= 1
            && (t.detached && t.pendingCloses == 0 ==> t.ep.closes == 1)
            && (!t.detached ==> t.ep.closes == 0)
  {
    Reachable(bufferSize, acts);
    assert TailInv(Run(Init(bufferSize), acts).subs[id],
                   Run(Init(bufferSize), acts).broadcasts, Offered(Run(Init(bufferSize), acts), id));
  }

  /** What a subscriber has been sent is an in-order, duplicate-free selection of the events
      whose inner write succeeded, all of them broadcast after it registered. */
  lemma LiveTailIsASubsequence(bufferSize: int, acts: seq<Action>, id: nat)
    requires CanRun(Init(bufferSize), acts)
    requires id < |Run(Init(bufferSize), acts).subs|
    ensures var s := Run(Init(bufferSize), acts);
            var t := s.subs[id];
            var seen := t.received + t.ep.queue;
            && Increasing(t.hits, t.since, |Succeeded(s.handed)|)
            && |seen| == |t.hits|
            && forall i | 0 <= i < |seen| :: seen[i] == Succeeded(s.handed)[t.hits[i]]
  {
    Reachable(bufferSize, acts);
    var s := Run(Init(bufferSize), acts);
    assert TailInv(s.subs[id], s.broadcasts, Offered(s, id));
    assert s.broadcasts <= Succeeded(s.handed);
    TailSelects(s.subs[id], s.broadcasts, Offered(s, id), Succeeded(s.handed));
  }

  lemma TailSelects(t: Tail, broadcasts: seq<Event>, limit: nat, all: seq<Event>)
    requires TailInv(t, broadcasts, limit) && broadcasts <= all
    ensures Increasing(t.hits, t.since, |all|)
    ensures |t.received + t.ep.queue| == |t.hits|
    ensures forall i | 0 <= i < |t.hits| :: (t.received + t.ep.queue)[i] == all[t.hits[i]]
  {
  }

  /** A subscriber registers with the number of broadcasts taken so far, and keeps it. */
  lemma {:induction false} RegistrationIsFixed(s: State, acts: seq<Action>, buf: int)
    requires CanRun(s, [Subscribe(buf)] + acts)
    ensures var t := Run(s, [Subscribe(buf)] + acts);
            |s.subs| < |t.subs| && t.subs[|s.subs|].since == |s.broadcasts|
  {
    assert ([Subscribe(buf)] + acts)[1..] == acts;
    SinceIsConstant(Apply(s, Subscribe(buf)), acts, |s.subs|);
  }

  lemma {:induction false} SinceIsConstant(s: State, acts: seq<Action>, id: nat)
    requires CanRun(s, acts) && id < |s.subs|
    ensures id < |Run(s, acts).subs| && Run(s, acts).subs[id].since == s.subs[id].since
    decreases |acts|
  {
    if acts != [] {
      SinceIsConstant(Apply(s, acts[0]), acts[1..], id);
    }
  }

  lemma {:induction false} FullRange(xs: seq<nat>, lo: nat, hi: nat)
    requires lo <= hi && Increasing(xs, lo, hi)
    requires forall j: nat | lo <= j < hi :: j in xs
    ensures |xs| == hi - lo && forall i | 0 <= i < |xs| :: xs[i] == lo + i
    decreases |xs|
  {
    assert lo < hi ==> lo in xs;
    if xs != [] {
      assert xs[0] == lo by {
        assert lo <= xs[0] < hi;
        assert lo in xs;
      }
      forall j: nat | lo + 1 <= j < hi ensures j in xs[1..] {
        assert j in xs && j != xs[0];
      }
      FullRange(xs[1..], lo + 1, hi);
    }
  }

  /** The only ways to miss a broadcast are a full buffer and a cancel: a subscriber with neither
      has been sent exactly the broadcasts since it registered. */
  lemma NoGapWithoutOverflow(bufferSize: int, acts: seq<Action>, id: nat)
    requires CanRun(Init(bufferSize), acts)
    requires id < |Run(Init(bufferSize), acts).subs|
    requires !Run(Init(bufferSize), acts).subs[id].detached && Run(Init(bufferSize), acts).subs[id].missed == []
    requires !Run(Init(bufferSize), acts).worker.Sending?
    ensures var s := Run(Init(bufferSize), acts);
            var t := s.subs[id];
            t.since <= |s.broadcasts| && t.received + t.ep.queue == s.broadcasts[t.since..]
  {
    Reachable(bufferSize, acts);
    var s := Run(Init(bufferSize), acts);
    var t := s.subs[id];
    assert TailInv(t, s.broadcasts, Offered(s, id));
    NoGapTail(t, s.broadcasts);
  }

  lemma {:induction false} IncreasingAtLeast(xs: seq<nat>, lo: nat, hi: nat, i: nat)
    requires Increasing(xs, lo, hi) && i < |xs|
    ensures xs[i] >= lo + i
  {
    if i > 0 {
      IncreasingAtLeast(xs, lo, hi, i - 1);
    }
  }

  /** A subscriber misses nothing while there have been no more broadcasts since it registered than
      its channel has slots. */
  lemma FirstBroadcastsAreNeverMissed(bufferSize: int, acts: seq<Action>, id: nat)
    requires CanRun(Init(bufferSize), acts)
    requires id < |Run(Init(bufferSize), acts).subs|
    requires var s := Run(Init(bufferSize), acts);
             |s.broadcasts| <= s.subs[id].since + s.subs[id].ep.cap
    ensures Run(Init(bufferSize), acts).subs[id].missed == []
  {
    Reachable(bufferSize, acts);
    var s := Run(Init(bufferSize), acts);
    var t := s.subs[id];
    assert TailInv(t, s.broadcasts, Offered(s, id));
    NothingMissedYet(t, s.broadcasts, Offered(s, id));
  }

  lemma NothingMissedYet(t: Tail, broadcasts: seq<Event>, limit: nat)
    requires TailInv(t, broadcasts, limit) && limit <= t.since + t.ep.cap
    ensures t.missed == []
  {
    if t.missed != [] {
      var j := t.missed[0];
      assert j in t.missed;
      assert Increasing(t.missed, t.since, limit) && j < limit;
      IncreasingAtLeast(t.hits, t.since, limit, t.ep.cap - 1);
    }
  }

  lemma NoGapTail(t: Tail, broadcasts: seq<Event>)
    requires TailInv(t, broadcasts, |broadcasts|) && !t.detached && t.missed == []
    ensures t.received + t.ep.queue == broadcasts[t.since..]
  {
    FullRange(t.hits, t.since, |broadcasts|);
  }

  // ---------- Close comes back ----------

  predicate IsWorkerAction(a: Action) {
    a.Receive? || a.ObserveStop? || a.Finish? || a.InnerLog? || a.Snapshot? || a.Send? || a.EndBroadcast?
  }

  lemma WorkerStep(s: State) returns (a: Action)
    requires LiveInv(s) && s.stopped && !s.worker.Returned?
    ensures IsWorkerAction(a) && Enabled(s, a)
  {
    a := match s.worker
      case Selecting(d) => if s.ch != [] then Receive else if d then Finish else ObserveStop
      case Writing(_, _) => InnerLog(true)
      case Persisted(_, _) => Snapshot
      case Sending(_, todo, _, _) => if todo == [] then EndBroadcast else Send
      case Returned => Close;
    if a.Send? {
      assert s.worker.todo[0] in s.worker.todo;
    }
  }

  /** After Close the worker always has a next step until it has returned. */
  lemma WorkerIsNeverStuck(bufferSize: int, acts: seq<Action>)
    requires CanRun(Init(bufferSize), acts)
    requires Run(Init(bufferSize), acts).stopped && !Run(Init(bufferSize), acts).worker.Returned?
    ensures exists a :: IsWorkerAction(a) && Enabled(Run(Init(bufferSize), acts), a)
  {
    Reachable(bufferSize, acts);
    var a := WorkerStep(Run(Init(bufferSize), acts));
  }

  function Stage(w: Worker): nat {
    match w
    case Returned => 0
    case Selecting(d) => if d then 1 else 2
    case Sending(_, _, _, _) => 3
    case Persisted(_, _) => 4
    case Writing(_, _) => 5
  }

  function Todo(w: Worker): nat {
    if w.Sending? then |w.todo| else 0
  }

  /** The work left before the worker returns, compared lexicographically. */
  predicate LessWork(s: State, t: State) {
    || |s.ch| < |t.ch|
    || (|s.ch| == |t.ch| && Stage(s.worker) < Stage(t.worker))
    || (|s.ch| == |t.ch| && Stage(s.worker) == Stage(t.worker) && Todo(s.worker) < Todo(t.worker))
  }

  /** Every worker step leaves less work, and nothing but Log adds any: without further Log calls
      the drain is finite, whatever subscribers and consumers do. */
  lemma DrainMakesProgress(s: State, a: Action)
    requires Enabled(s, a)
    ensures IsWorkerAction(a) ==> LessWork(Apply(s, a), s)
    ensures !IsWorkerAction(a) && !a.Log? ==> Apply(s, a).worker == s.worker && Apply(s, a).ch == s.ch
  {
  }

  lemma {:induction false} DrainFrom(s: State) returns (more: seq<Action>)
    requires QueueInv(s) && LiveInv(s) && s.stopped
    ensures forall a | a in more :: IsWorkerAction(a)
    ensures CanRun(s, more) && Run(s, more).worker.Returned?
    decreases |s.ch|, Stage(s.worker), Todo(s.worker)
  {
    if s.worker.Returned? {
      more := [];
    } else {
      var a := WorkerStep(s);
      QueueStep(s, a);
      LiveStep(s, a);
      DrainMakesProgress(s, a);
      var rest := DrainFrom(Apply(s, a));
      more := [a] + rest;
      assert more[1..] == rest;
    }
  }

  /** From every reachable state after Close, the worker alone can run until it has returned. */
  lemma WorkerCanReturn(bufferSize: int, acts: seq<Action>) returns (more: seq<Action>)
    requires CanRun(Init(bufferSize), acts) && Run(Init(bufferSize), acts).stopped
    ensures forall a | a in more :: IsWorkerAction(a)
    ensures CanRun(Run(Init(bufferSize), acts), more) && Run(Run(Init(bufferSize), acts), more).worker.Returned?
  {
    Reachable(bufferSize, acts);
    more := DrainFrom(Run(Init(bufferSize), acts));
  }

  /** An endless run from a state on, without further Log calls. */
  ghost predicate EndlessRun(states: nat -> State, acts: nat -> Action) {
    forall n: nat :: Enabled(states(n), acts(n)) && states(n + 1) == Apply(states(n), acts(n)) && !acts(n).Log?
  }

  ghost predicate Quiet(acts: nat -> Action, n: nat) {
    forall m: nat | m >= n :: !IsWorkerAction(acts(m))
  }

  /** Worker steps leave less work, the others leave it as it is. */
  ghost predicate WindsDown(states: nat -> State, acts: nat -> Action) {
    forall n: nat ::
      if IsWorkerAction(acts(n)) then LessWork(states(n + 1), states(n))
      else states(n + 1).worker == states(n).worker && states(n + 1).ch == states(n).ch
  }

  lemma {:induction false} Settles(states: nat -> State, acts: nat -> Action, n: nat, k: nat) returns (q: nat)
    requires WindsDown(states, acts) && IsWorkerAction(acts(n + k))
    ensures Quiet(acts, q)
    decreases |states(n).ch|, Stage(states(n).worker), Todo(states(n).worker), k
  {
    if !IsWorkerAction(acts(n)) {
      q := Settles(states, acts, n + 1, k - 1);
    } else if Quiet(acts, n + 1) {
      q := n + 1;
    } else {
      var m: nat :| m >= n + 1 && IsWorkerAction(acts(m));
      q := Settles(states, acts, n + 1, m - (n + 1));
    }
  }

  /** However subscribers and consumers go on, the worker takes finitely many steps once Log calls
      have stopped. */
  lemma DrainIsFinite(states: nat -> State, acts: nat -> Action)
    requires EndlessRun(states, acts)
    ensures exists q: nat :: Quiet(acts, q)
  {
    forall n: nat
      ensures if IsWorkerAction(acts(n)) then LessWork(states(n + 1), states(n))
              else states(n + 1).worker == states(n).worker && states(n + 1).ch == states(n).ch
    {
      DrainMakesProgress(states(n), acts(n));
    }
    if !Quiet(acts, 0) {
      var k: nat :| IsWorkerAction(acts(k));
      var q := Settles(states, acts, 0, k);
    }
  }

  /** So a worker that keeps being scheduled until it has returned does return. */
  lemma ScheduledWorkerReturns(states: nat -> State, acts: nat -> Action)
    requires EndlessRun(states, acts)
    requires forall n: nat | !states(n).worker.Returned? :: !Quiet(acts, n)
    ensures exists n: nat :: states(n).worker.Returned?
  {
    DrainIsFinite(states, acts);
    var q: nat :| Quiet(acts, q);
    assert states(q).worker.Returned?;
  }

  // ---------- the objects whose critical sections the actions are ----------

  lemma SkipOne<T>(s: seq<T>, x: T, i: nat)
    requires i < |s| && s[i] != x
    ensures s[..i] + RemoveFirst(s[i..], x) == s[..i + 1] + RemoveFirst(s[i + 1..], x)
  {
    assert s[i..][1..] == s[i + 1..];
    assert s[..i + 1] == s[..i] + [s[i]];
  }

  lemma DropOne<T>(s: seq<T>, x: T, i: nat)
    requires i < |s| && s[i] == x
    ensures RemoveFirst(s[i..], x) == s[i + 1..]
  {
    assert s[i..][0] == x && s[i..][1..] == s[i + 1..];
  }

  /** subscriber (async.go:43-73). */
  class Subscriber {
    const cap: nat
    var ch: seq<Event>
    var closed: bool
    var chanClosed: bool
    var closes: nat
    var panics: nat

    function View(): Endpoint
      reads this
    {
      Endpoint(cap, ch, closed, chanClosed, closes, panics)
    }

    constructor (buf: int)
      ensures View() == Endpoint(SubscriberCap(buf), [], false, false, 0, 0)
    {
      cap := SubscriberCap(buf);
      ch, closed, chanClosed, closes, panics := [], false, false, 0, 0;
    }

    method Send(ev: Event)
      modifies this
      ensures View() == SendTo(old(View()), ev)
    {
      if closed {
        return;
      }
      if chanClosed {
        panics := panics + 1;
      } else if |ch| < cap {
        ch := ch + [ev];
      }
    }

    method CloseOnce()
      modifies this
      ensures View() == CloseEndpoint(old(View()))
    {
      if closed {
        return;
      }
      closed := true;
      if chanClosed {
        panics := panics + 1;
      }
      chanClosed := true;
      closes := closes + 1;
    }
  }

  /** AsyncLogger's own fields and the critical sections of Log, Subscribe, cancel, broadcast
      (async.go:102-116, 241-275), run without interference. */
  class AsyncLogger {
    const cap: nat
    var ch: seq<Event>
    var dropped: nat
    var subs: seq<Subscriber>

    constructor (bufferSize: int)
      ensures cap == BufferCap(bufferSize) && ch == [] && dropped == 0 && subs == []
    {
      cap := BufferCap(bufferSize);
      ch, dropped, subs := [], 0, [];
    }

    ghost predicate Matches(s: State)
      reads this
    {
      cap == s.cap && ch == s.ch && dropped == s.dropped
    }

    /** Log is the protocol's Log action, followed by CountDrop when the buffer was full. */
    method Log(ev: Event, ghost s: State)
      requires Matches(s)
      modifies this`ch, this`dropped
      ensures Matches(if |s.ch| < s.cap then Apply(s, Action.Log(ev))
                      else Apply(Apply(s, Action.Log(ev)), CountDrop))
    {
      if |ch| < cap {
        ch := ch + [ev];
      } else {
        dropped := dropped + 1;
      }
    }

    method Subscribe(buf: int) returns (s: Subscriber)
      modifies this`subs
      ensures fresh(s) && s.View() == Endpoint(SubscriberCap(buf), [], false, false, 0, 0)
      ensures subs == old(subs) + [s]
    {
      s := new Subscriber(buf);
      subs := subs + [s];
    }

    /** cancel: remove the first matching registry entry, then close the channel once. */
    method Cancel(s: Subscriber)
      modifies this`subs, s
      ensures subs == RemoveFirst(old(subs), s)
      ensures s.View() == CloseEndpoint(old(s.View()))
    {
      Unregister(s);
      s.CloseOnce();
    }

    method Unregister(s: Subscriber)
      modifies this`subs
      ensures subs == RemoveFirst(old(subs), s)
    {
      var i := 0;
      while i < |subs| && subs[i] != s
        invariant 0 <= i <= |subs| && subs == old(subs)
        invariant RemoveFirst(subs, s) == subs[..i] + RemoveFirst(subs[i..], s)
      {
        SkipOne(subs, s, i);
        i := i + 1;
      }
      if i < |subs| {
        DropOne(subs, s, i);
        subs := subs[..i] + subs[i + 1..];
      } else {
        assert subs[i..] == [] && subs[..i] == subs;
      }
    }

    /** broadcast: one send to each registered subscriber. */
    method Broadcast(ev: Event)
      requires forall i, j | 0 <= i < j < |subs| :: subs[i] != subs[j]
      modifies subs
      ensures forall i | 0 <= i < |subs| :: subs[i].View() == SendTo(old(subs[i].View()), ev)
    {
      var snapshot := subs;
      for n := 0 to |snapshot|
        invariant subs == snapshot
        invariant forall i | 0 <= i < n :: snapshot[i].View() == SendTo(old(snapshot[i].View()), ev)
        invariant forall i | n <= i < |snapshot| :: snapshot[i].View() == old(snapshot[i].View())
      {
        snapshot[n].Send(ev);
      }
    }
  }
}
