/** What the pipeline's state is after any run, told from the actions alone: the queue is a bounded
    FIFO, and every counter, flag and list counts or selects actions. */
module AsyncHistory {
  import opened Audit
  import opened AsyncPipeline

  // ---------- the queue is a bounded FIFO ----------

  datatype Fifo = Fifo(queue: seq<Event>, taken: seq<Event>, refused: nat)

  function FifoStep(cap: nat, q: Fifo, a: Action): Fifo {
    if a.Log? && |q.queue| < cap then q.(queue := q.queue + [a.logged])
    else if a.Log? then q.(refused := q.refused + 1)
    else if a.Receive? && q.queue != [] then q.(queue := q.queue[1..], taken := q.taken + [q.queue[0]])
    else q
  }

  function FifoAfter(cap: nat, q: Fifo, acts: seq<Action>): Fifo
    decreases |acts|
  {
    if acts == [] then q else FifoAfter(cap, FifoStep(cap, q, acts[0]), acts[1..])
  }

  ghost predicate SameQueue(cap: nat, s: State, q: Fifo) {
    && s.cap == cap && s.ch == q.queue
    && s.accepted == q.taken + q.queue
    && s.dropped + s.dropping == q.refused
  }

  lemma FifoStepIs(cap: nat, s: State, q: Fifo, a: Action)
    requires SameQueue(cap, s, q) && Enabled(s, a)
    ensures SameQueue(cap, Apply(s, a), FifoStep(cap, q, a))
  {
    if a.Log? {
      assert q.taken + (q.queue + [a.logged]) == (q.taken + q.queue) + [a.logged];
    } else if a.Receive? {
      assert q.taken + [q.queue[0]] + q.queue[1..] == q.taken + q.queue;
    }
  }

  lemma {:induction false} FifoRun(cap: nat, s: State, q: Fifo, acts: seq<Action>)
    requires SameQueue(cap, s, q) && CanRun(s, acts)
    ensures SameQueue(cap, Run(s, acts), FifoAfter(cap, q, acts))
    decreases |acts|
  {
    if acts != [] {
      FifoStepIs(cap, s, q, acts[0]);
      FifoRun(cap, Apply(s, acts[0]), FifoStep(cap, q, acts[0]), acts[1..]);
    }
  }

  const EmptyFifo := Fifo([], [], 0)

  /** Under every interleaving the channel is a FIFO with the buffer's slots that refuses an event
      exactly when it is full: what it accepts is what it holds and what was taken from it, and
      the dropped events are the refused ones. */
  lemma QueueIsABoundedFifo(bufferSize: int, acts: seq<Action>)
    requires CanRun(Init(bufferSize), acts)
    ensures var s := Run(Init(bufferSize), acts);
            var q := FifoAfter(if bufferSize <= 0 then 1024 else bufferSize, EmptyFifo, acts);
            && s.ch == q.queue && s.accepted == q.taken + q.queue
            && EventsOf(s.handed) + InFlight(s.worker) == q.taken
            && s.dropped + s.dropping == q.refused
  {
    FifoRun(BufferCap(bufferSize), Init(bufferSize), EmptyFifo, acts);
    Reachable(bufferSize, acts);
    var s := Run(Init(bufferSize), acts);
    var q := FifoAfter(BufferCap(bufferSize), EmptyFifo, acts);
    SamePrefix(q.taken, EventsOf(s.handed) + InFlight(s.worker), s.ch);
  }

  lemma SamePrefix<T>(a: seq<T>, b: seq<T>, c: seq<T>)
    requires a + c == b + c
    ensures a == b
  {
    assert |a| == |b|;
    assert a == (a + c)[..|a|] && b == (b + c)[..|b|];
  }

  /** The same in one step: an event that finds room is enqueued, whatever was dropped before. */
  lemma RoomMeansAccepted(bufferSize: int, acts: seq<Action>, ev: Event)
    requires CanRun(Init(bufferSize), acts)
    requires |Run(Init(bufferSize), acts).ch| < (if bufferSize <= 0 then 1024 else bufferSize)
    ensures var s := Run(Init(bufferSize), acts);
            && Enabled(s, Log(ev))
            && Apply(s, Log(ev)).ch == s.ch + [ev] && Apply(s, Log(ev)).accepted == s.accepted + [ev]
  {
    CapIsConstant(Init(bufferSize), acts);
  }

  // ---------- counters and flags ----------

  function Logs(acts: seq<Action>): nat {
    if acts == [] then 0 else Logs(acts[..|acts| - 1]) + (if acts[|acts| - 1].Log? then 1 else 0)
  }

  /** The results of the finished inner.Log calls. */
  function Results(acts: seq<Action>): seq<bool> {
    if acts == [] then []
    else Results(acts[..|acts| - 1]) + (if acts[|acts| - 1].InnerLog? then [acts[|acts| - 1].ok] else [])
  }

  /** The buffer sizes the subscribers asked for. */
  function Buffers(acts: seq<Action>): seq<int> {
    if acts == [] then []
    else Buffers(acts[..|acts| - 1]) + (if acts[|acts| - 1].Subscribe? then [acts[|acts| - 1].buf] else [])
  }

  ghost predicate CountsHistory(s: State, acts: seq<Action>) {
    s.started == Logs(acts) && s.dropped == multiset(acts)[CountDrop] && |s.broadcasts| == multiset(acts)[Snapshot]
  }

  ghost predicate FlagsHistory(s: State, acts: seq<Action>) {
    && (s.stopped <==> Close in acts)
    && (s.worker.Returned? <==> Finish in acts)
    && (Draining(s.worker) <==> ObserveStop in acts)
  }

  ghost predicate ResultsHistory(s: State, acts: seq<Action>) {
    && |s.handed| == |Results(acts)|
    && forall i | 0 <= i < |s.handed| :: s.handed[i].ok == Results(acts)[i]
  }

  /** What the actions on one subscriber decide. */
  ghost predicate TailHistory(t: Tail, id: nat, acts: seq<Action>) {
    && (t.detached <==> Detach(id) in acts)
    && (t.ep.closed <==> CloseSub(id) in acts)
    && t.pendingCloses + multiset(acts)[CloseSub(id)] == multiset(acts)[Detach(id)]
    && |t.received| == multiset(acts)[Consume(id)]
  }

  predicate Ascending(ids: seq<nat>) {
    forall i, j | 0 <= i < j < |ids| :: ids[i] < ids[j]
  }

  /** The registry lists, in order of registration, the subscribers that no cancel has removed. */
  ghost predicate RegistryHistory(registry: seq<nat>, n: nat, acts: seq<Action>) {
    Ascending(registry) && forall id: nat :: id in registry <==> id < n && Detach(id) !in acts
  }

  ghost predicate CapsHistory(s: State, acts: seq<Action>) {
    && |s.subs| == |Buffers(acts)|
    && forall id: nat | id < |s.subs| ::
         s.subs[id].ep.cap == if Buffers(acts)[id] <= 0 then 64 else Buffers(acts)[id]
  }

  ghost predicate Untouched(id: nat, acts: seq<Action>) {
    Detach(id) !in acts && CloseSub(id) !in acts && Consume(id) !in acts
  }

  ghost predicate TailsHistory(s: State, acts: seq<Action>) {
    && (forall id: nat | id < |s.subs| :: TailHistory(s.subs[id], id, acts))
    && (forall id: nat | id >= |s.subs| :: Untouched(id, acts))
  }

  lemma Snoc(s: State, acts: seq<Action>, front: seq<Action>, a: Action)
    requires CanRun(s, acts) && acts == front + [a]
    ensures CanRun(s, front) && Enabled(Run(s, front), a) && Run(s, acts) == Apply(Run(s, front), a)
  {
    RunAppend(s, front, [a]);
  }

  lemma Counts(front: seq<Action>, a: Action, x: Action)
    ensures multiset(front + [a])[x] == multiset(front)[x] + (if a == x then 1 else 0)
    ensures x in front + [a] <==> x in front || a == x
  {
  }

  lemma CountsStep(s: State, front: seq<Action>, a: Action)
    requires CountsHistory(s, front) && Enabled(s, a)
    ensures CountsHistory(Apply(s, a), front + [a])
  {
    LogsMore(front, a);
    Counts(front, a, CountDrop);
    Counts(front, a, Snapshot);
    CountsEffect(s, a);
  }

  lemma LogsMore(front: seq<Action>, a: Action)
    ensures Logs(front + [a]) == Logs(front) + (if a.Log? then 1 else 0)
  {
    assert (front + [a])[..|front|] == front;
  }

  lemma CountsEffect(s: State, a: Action)
    requires Enabled(s, a)
    ensures Apply(s, a).started == s.started + (if a.Log? then 1 else 0)
    ensures Apply(s, a).dropped == s.dropped + (if a.CountDrop? then 1 else 0)
    ensures |Apply(s, a).broadcasts| == |s.broadcasts| + (if a.Snapshot? then 1 else 0)
  {
  }

  lemma FlagsStep(s: State, front: seq<Action>, a: Action)
    requires FlagsHistory(s, front) && Enabled(s, a)
    ensures FlagsHistory(Apply(s, a), front + [a])
  {
    Counts(front, a, Close);
    Counts(front, a, Finish);
    Counts(front, a, ObserveStop);
  }

  lemma ResultsStep(s: State, front: seq<Action>, a: Action)
    requires ResultsHistory(s, front) && Enabled(s, a)
    ensures ResultsHistory(Apply(s, a), front + [a])
  {
    assert (front + [a])[..|front|] == front;
  }

  lemma CapsStep(s: State, front: seq<Action>, a: Action)
    requires CapsHistory(s, front) && Enabled(s, a)
    ensures CapsHistory(Apply(s, a), front + [a])
  {
    assert (front + [a])[..|front|] == front;
  }

  lemma TailStep(t: Tail, t': Tail, id: nat, front: seq<Action>, a: Action)
    requires TailHistory(t, id, front)
    requires t'.detached == (t.detached || a == Detach(id))
    requires t'.ep.closed == (t.ep.closed || a == CloseSub(id))
    requires t'.pendingCloses + (if a == CloseSub(id) then 1 else 0)
          == t.pendingCloses + (if a == Detach(id) then 1 else 0)
    requires |t'.received| == |t.received| + (if a == Consume(id) then 1 else 0)
    ensures TailHistory(t', id, front + [a])
  {
    Counts(front, a, Detach(id));
    Counts(front, a, CloseSub(id));
    Counts(front, a, Consume(id));
  }

  /** What one action does to one subscriber. */
  lemma TailEffect(s: State, a: Action, id: nat)
    requires Enabled(s, a) && id < |s.subs|
    ensures id < |Apply(s, a).subs|
    ensures var t, t' := s.subs[id], Apply(s, a).subs[id];
            && t'.detached == (t.detached || a == Detach(id))
            && t'.ep.closed == (t.ep.closed || a == CloseSub(id))
            && t'.pendingCloses + (if a == CloseSub(id) then 1 else 0)
               == t.pendingCloses + (if a == Detach(id) then 1 else 0)
            && |t'.received| == |t.received| + (if a == Consume(id) then 1 else 0)
  {
  }

  lemma NewTail(t: Tail, id: nat, acts: seq<Action>)
    requires !t.detached && !t.ep.closed && t.pendingCloses == 0 && t.received == [] && Untouched(id, acts)
    ensures TailHistory(t, id, acts)
  {
    assert forall x | x !in acts :: x !in multiset(acts);
  }

  lemma StaysUntouched(s: State, front: seq<Action>, a: Action, id: nat)
    requires Enabled(s, a) && Untouched(id, front) && id >= |s.subs|
    ensures Untouched(id, front + [a])
  {
    Counts(front, a, Detach(id));
    Counts(front, a, CloseSub(id));
    Counts(front, a, Consume(id));
  }

  lemma NewSubscriber(s: State, a: Action)
    requires Enabled(s, a)
    ensures |s.subs| <= |Apply(s, a).subs| <= |s.subs| + 1
    ensures |Apply(s, a).subs| > |s.subs| ==>
              var t := Apply(s, a).subs[|s.subs|];
              !t.detached && !t.ep.closed && t.pendingCloses == 0 && t.received == []
  {
  }

  lemma TailsStep(s: State, front: seq<Action>, a: Action)
    requires TailsHistory(s, front) && Enabled(s, a)
    ensures TailsHistory(Apply(s, a), front + [a])
  {
    var s', acts := Apply(s, a), front + [a];
    NewSubscriber(s, a);
    forall id: nat | id < |s'.subs| ensures TailHistory(s'.subs[id], id, acts) {
      if id < |s.subs| {
        TailEffect(s, a, id);
        TailStep(s.subs[id], s'.subs[id], id, front, a);
      } else {
        StaysUntouched(s, front, a, id);
        NewTail(s'.subs[id], id, acts);
      }
    }
    forall id: nat | id >= |s'.subs| ensures Untouched(id, acts) {
      StaysUntouched(s, front, a, id);
    }
  }

  lemma AboveFirst(ids: seq<nat>, y: nat)
    requires ids != [] && Ascending(ids) && y in ids[1..]
    ensures ids[0] < y
  {
    var i :| 0 <= i < |ids| - 1 && ids[1..][i] == y;
    assert ids[i + 1] == y;
  }

  lemma AscendingCons(x: nat, rest: seq<nat>)
    requires Ascending(rest) && forall j | 0 <= j < |rest| :: x < rest[j]
    ensures Ascending([x] + rest)
  {
  }

  lemma {:induction false} RemoveFirstSorted(ids: seq<nat>, x: nat)
    requires Ascending(ids)
    ensures Ascending(RemoveFirst(ids, x))
  {
    if ids != [] && ids[0] != x {
      var rest := RemoveFirst(ids[1..], x);
      RemoveFirstSorted(ids[1..], x);
      RemoveFirstDistinct(ids[1..], x);
      forall j | 0 <= j < |rest| ensures ids[0] < rest[j] {
        assert rest[j] in rest;
        AboveFirst(ids, rest[j]);
      }
      AscendingCons(ids[0], rest);
    }
  }

  lemma Registers(registry: seq<nat>, n: nat, front: seq<Action>, a: Action)
    requires RegistryHistory(registry, n, front) && Detach(n) !in front && !a.Detach?
    ensures RegistryHistory(registry + [n], n + 1, front + [a])
  {
    forall i | 0 <= i < |registry| ensures registry[i] < n {
      assert registry[i] in registry;
    }
    forall id: nat ensures id in registry + [n] <==> id < n + 1 && Detach(id) !in front + [a] {
      Counts(front, a, Detach(id));
    }
  }

  lemma Unregisters(registry: seq<nat>, n: nat, front: seq<Action>, x: nat)
    requires RegistryHistory(registry, n, front)
    ensures RegistryHistory(RemoveFirst(registry, x), n, front + [Detach(x)])
  {
    RemoveFirstSorted(registry, x);
    RemoveFirstDistinct(registry, x);
    forall id: nat ensures id in RemoveFirst(registry, x) <==> id < n && Detach(id) !in front + [Detach(x)] {
      Counts(front, Detach(x), Detach(id));
    }
  }

  lemma RegistryStep(s: State, front: seq<Action>, a: Action)
    requires RegistryHistory(s.registry, |s.subs|, front) && Enabled(s, a) && Detach(|s.subs|) !in front
    ensures RegistryHistory(Apply(s, a).registry, |Apply(s, a).subs|, front + [a])
  {
    if a.Subscribe? {
      Registers(s.registry, |s.subs|, front, a);
    } else if a.Detach? {
      Unregisters(s.registry, |s.subs|, front, a.id);
    } else {
      assert Apply(s, a).registry == s.registry && |Apply(s, a).subs| == |s.subs|;
      forall id: nat ensures Detach(id) in front + [a] <==> Detach(id) in front {
        Counts(front, a, Detach(id));
      }
    }
  }

  /** In every reachable state, all of this is decided by the actions taken: how many calls and
      drops there were, whether the pipeline was closed and has returned, which writes succeeded,
      and of each subscriber its slots, its cancels, its closing, its consumption and whether the
      registry lists it. */
  lemma {:induction false} StateIsHistory(bufferSize: int, acts: seq<Action>)
    requires CanRun(Init(bufferSize), acts)
    ensures var s := Run(Init(bufferSize), acts);
            && CountsHistory(s, acts) && FlagsHistory(s, acts) && ResultsHistory(s, acts)
            && CapsHistory(s, acts) && TailsHistory(s, acts) && RegistryHistory(s.registry, |s.subs|, acts)
    decreases |acts|
  {
    if acts != [] {
      var front, a := acts[..|acts| - 1], acts[|acts| - 1];
      assert acts == front + [a];
      Snoc(Init(bufferSize), acts, front, a);
      StateIsHistory(bufferSize, front);
      var s := Run(Init(bufferSize), front);
      CountsStep(s, front, a);
      FlagsStep(s, front, a);
      ResultsStep(s, front, a);
      CapsStep(s, front, a);
      TailsStep(s, front, a);
      assert Untouched(|s.subs|, front);
      RegistryStep(s, front, a);
    }
  }

  // ---------- what a send does, and what can always be done ----------

  lemma SendEffect(s: State)
    requires Enabled(s, Send) && s.subs[s.worker.todo[0]].ep.chanClosed == s.subs[s.worker.todo[0]].ep.closed
    ensures var s', id := Apply(s, Send), s.worker.todo[0];
            var t, t' := s.subs[id].ep, s'.subs[id].ep;
            && |s'.subs| == |s.subs|
            && (forall other: nat | other < |s.subs| && other != id :: s'.subs[other] == s.subs[other])
            && s'.subs[id].received == s.subs[id].received
            && t'.queue == if !t.closed && |t.queue| < t.cap then t.queue + [s.worker.ev] else t.queue
  {
  }

  /** A send reaches the subscriber it is for, exactly when that one is open and has room, and no
      other; the event is the one broadcast last. */
  lemma SendReachesWhoHasRoom(bufferSize: int, acts: seq<Action>)
    requires CanRun(Init(bufferSize), acts) && Enabled(Run(Init(bufferSize), acts), Send)
    ensures var s := Run(Init(bufferSize), acts);
            var s', id := Apply(s, Send), s.worker.todo[0];
            var t, t' := s.subs[id].ep, s'.subs[id].ep;
            && |s'.subs| == |s.subs| && s.broadcasts != []
            && (forall other: nat | other < |s.subs| && other != id :: s'.subs[other] == s.subs[other])
            && s'.subs[id].received == s.subs[id].received
            && t'.queue == (if CloseSub(id) !in acts && |t.queue| < t.cap
                            then t.queue + [s.broadcasts[|s.broadcasts| - 1]] else t.queue)
  {
    Reachable(bufferSize, acts);
    StateIsHistory(bufferSize, acts);
    var s := Run(Init(bufferSize), acts);
    var id := s.worker.todo[0];
    assert TailInv(s.subs[id], s.broadcasts, Offered(s, id)) && TailHistory(s.subs[id], id, acts);
    SendEffect(s);
  }

  /** A broadcast is offered to everyone the registry lists, in order. */
  lemma SnapshotTakesTheRegistry(s: State)
    requires Enabled(s, Snapshot)
    ensures Apply(s, Snapshot).worker.Sending? && Apply(s, Snapshot).worker.todo == s.registry
  {
  }

  /** Clients are never held up, and a worker that finds both the stop signal and an event may
      take either. */
  lemma NobodyIsBlocked(s: State, ev: Event, buf: int, id: nat)
    ensures Enabled(s, Log(ev)) && Enabled(s, Close) && Enabled(s, Subscribe(buf))
    ensures s.dropping > 0 ==> Enabled(s, CountDrop)
    ensures id < |s.subs| ==> Enabled(s, Detach(id))
    ensures id < |s.subs| && s.subs[id].pendingCloses > 0 ==> Enabled(s, CloseSub(id))
    ensures id < |s.subs| && s.subs[id].ep.queue != [] ==> Enabled(s, Consume(id))
    ensures s.worker == Selecting(false) && s.ch != [] && s.stopped ==> Enabled(s, Receive) && Enabled(s, ObserveStop)
  {
  }
}
