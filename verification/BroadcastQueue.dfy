/**
  The bundle queue, its workers and the shutdown protocol, as a step relation: connection handlers, 64
  workers, the relay goroutines and the simulation each broadcast launches, `Shutdown` and the end of `main`
  interleave freely.  A step is one access to shared state.  The relay requests carry the workers' context: one
  begun after `cancel()` fails.
 */
module BroadcastQueue {
  import opened Folding
  import opened Bundles

  const WORKER_COUNT: nat := 64
  const QUEUE_CAPACITY: nat := 4096

  /** A handler reads, then has a bundle, then has seen `closed == false` and is about to send. */
  datatype Handler = Reading | Received(bundle: Bundle) | Admitted(bundle: Bundle) | Crashed

  /**
    A broadcast: the bundle and its place in the order of dequeuing, the relay goroutines started so far,
    those with no request under way, those with one, those past `RecordHash`, and their WaitGroup.
   */
  datatype Worker =
    | Idle
    | Broadcasting(bundle: Bundle, ticket: nat, spawned: nat,
                   starting: set<nat>, sending: set<nat>, recorded: set<nat>, wait: int)
    | Exited

  datatype Phase = Serving | FlagSet | ContextCancelled | Waiting | ReturnedNil | ReturnedErr

  datatype Server = Server(
    clients: nat,
    handlers: map<nat, Handler>,
    workers: map<nat, Worker>,
    queue: seq<Bundle>,
    wg: int,
    phase: Phase,
    trackerStopped: bool,
    received: seq<Bundle>, droppedAtShutdown: seq<Bundle>, droppedFull: seq<Bundle>, lost: seq<Bundle>,
    enqueued: seq<Bundle>, dequeued: seq<Bundle>, finished: seq<Bundle>,
    attempted: seq<nat>,
    hashCalls: nat, hashCallsAtStop: nat,
    simulating: nat, simCalls: nat, simCallsAtStop: nat)
  {
    /** `closed` has been stored. */
    predicate Closed() { !phase.Serving? }

    /** `cancel()` has been called. */
    predicate Cancelled() { !phase.Serving? && !phase.FlagSet? }

    /** `close(s.queue)` has been called. */
    predicate QueueClosed() { phase.Waiting? || phase.ReturnedNil? || phase.ReturnedErr? }

    predicate Returned() { phase.ReturnedNil? || phase.ReturnedErr? }
  }

  datatype Action =
    | Connect(h: nat) | Disconnect(h: nat)
    | Read(h: nat, bundle: Bundle) | LoadClosed(h: nat) | TrySend(h: nat)
    | Take(w: nat) | Quit(w: nat)
    | Spawn(w: nat) | Attempt(w: nat, c: nat) | Retry(w: nat, c: nat)
    | RecordHash(w: nat, c: nat) | Return(w: nat, c: nat) | Finish(w: nat)
    | RecordSim | EndSim
    | StoreClosed | Cancel | CloseQueue | ShutdownOk | ShutdownTimeout | StopTracker

  /** The workers `Start` launches, one by one. */
  function Pool(n: nat): map<nat, Worker> {
    if n == 0 then map[] else Pool(n - 1)[n - 1 := Idle]
  }

  /** After `Start`: every worker counted and waiting. */
  function Started(clients: nat): Server {
    Server(clients, map[], Pool(WORKER_COUNT), [], WORKER_COUNT, Serving, false,
           [], [], [], [], [], [], [], [], 0, 0, 0, 0, 0)
  }

  /** The server that every run starts from: each of the 64 workers is counted in the WaitGroup, then launched. */
  method Start(clients: nat) returns (s: Server)
    ensures s == Started(clients)
    ensures forall w :: w in s.workers <==> 0 <= w < 64
    ensures forall w :: w in s.workers ==> s.workers[w].Idle?
    ensures s.wg == |s.workers| == 64
  {
    s := Server(clients, map[], map[], [], 0, Serving, false, [], [], [], [], [], [], [], [], 0, 0, 0, 0, 0);
    for i := 0 to WORKER_COUNT
      invariant s == Server(clients, map[], Pool(i), [], i, Serving, false, [], [], [], [], [], [], [], [], 0, 0, 0, 0, 0)
    {
      s := s.(wg := s.wg + 1);
      s := s.(workers := s.workers[i := Idle]);
    }
    PoolIsIdle(WORKER_COUNT);
  }

  predicate IsHandlerStep(a: Action) {
    a.Connect? || a.Disconnect? || a.Read? || a.LoadClosed? || a.TrySend?
  }

  predicate IsWorkerStep(a: Action) {
    a.Take? || a.Quit? || a.Spawn? || a.Attempt? || a.Retry? || a.RecordHash? || a.Return? || a.Finish?
  }

  predicate HandlerEnabled(s: Server, a: Action)
    requires IsHandlerStep(a)
  {
    if a.Connect? then a.h !in s.handlers
    else
      a.h in s.handlers &&
      var h := s.handlers[a.h];
      if a.LoadClosed? then h.Received? else if a.TrySend? then h.Admitted? else h.Reading?
  }

  predicate WorkerEnabled(s: Server, a: Action)
    requires IsWorkerStep(a)
  {
    a.w in s.workers &&
    var w := s.workers[a.w];
    match a
    case Take(_) => w.Idle? && s.queue != []
    case Quit(_) => w.Idle? && (s.Cancelled() || (s.QueueClosed() && s.queue == []))
    case Spawn(_) => w.Broadcasting? && w.spawned < s.clients
    case Attempt(_, c) => w.Broadcasting? && c in w.starting && !s.Cancelled()
    case Retry(_, c) => w.Broadcasting? && c in w.sending
    case RecordHash(_, c) => w.Broadcasting? && c in w.sending
    case Return(_, c) => w.Broadcasting? && c in w.starting + w.sending + w.recorded
    case Finish(_) => w.Broadcasting? && w.spawned == s.clients && w.wait == 0
  }

  /** `Shutdown`, the end of `main`, and the simulations in the background. */
  predicate MainEnabled(s: Server, a: Action)
    requires !IsHandlerStep(a) && !IsWorkerStep(a)
  {
    match a
    case StoreClosed => s.phase.Serving?
    case Cancel => s.phase.FlagSet?
    case CloseQueue => s.phase.ContextCancelled?
    case ShutdownOk => s.phase.Waiting? && s.wg == 0
    case ShutdownTimeout => s.phase.Waiting?
    case StopTracker => s.Returned() && !s.trackerStopped
    case RecordSim => s.simulating > 0
    case EndSim => s.simulating > 0
  }

  predicate Enabled(s: Server, a: Action) {
    if IsHandlerStep(a) then HandlerEnabled(s, a) else if IsWorkerStep(a) then WorkerEnabled(s, a) else MainEnabled(s, a)
  }

  function HandlerStep(s: Server, a: Action): Server
    requires IsHandlerStep(a) && HandlerEnabled(s, a)
  {
    match a
    case Connect(h) => s.(handlers := s.handlers[h := Reading])
    case Disconnect(h) => s.(handlers := s.handlers - {h})
    case Read(h, b) => s.(handlers := s.handlers[h := Handler.Received(b)], received := s.received + [b])
    case LoadClosed(h) =>
      var b := s.handlers[h].bundle;
      if s.Closed() then s.(handlers := s.handlers[h := Reading], droppedAtShutdown := s.droppedAtShutdown + [b])
      else s.(handlers := s.handlers[h := Admitted(b)])
    case TrySend(h) =>
      var b := s.handlers[h].bundle;
      if s.QueueClosed() then
        // A send on a closed channel panics, even inside `select` with a default.
        s.(handlers := s.handlers[h := Crashed], lost := s.lost + [b])
      else if |s.queue| < QUEUE_CAPACITY then
        s.(handlers := s.handlers[h := Reading], queue := s.queue + [b], enqueued := s.enqueued + [b])
      else
        s.(handlers := s.handlers[h := Reading], droppedFull := s.droppedFull + [b])
  }

  function WorkerStep(s: Server, a: Action): Server
    requires IsWorkerStep(a) && WorkerEnabled(s, a)
  {
    var w := s.workers[a.w];
    match a
    case Take(_) =>
      s.(workers := s.workers[a.w := Broadcasting(s.queue[0], |s.dequeued|, 0, {}, {}, {}, 0)],
         queue := s.queue[1..], dequeued := s.dequeued + [s.queue[0]], simulating := s.simulating + 1)
    case Quit(_) => s.(workers := s.workers[a.w := Exited], wg := s.wg - 1)
    case Spawn(_) =>
      s.(workers := s.workers[a.w := w.(spawned := w.spawned + 1, starting := w.starting + {w.spawned}, wait := w.wait + 1)])
    case Attempt(_, c) =>
      s.(workers := s.workers[a.w := w.(starting := w.starting - {c}, sending := w.sending + {c})],
         attempted := s.attempted + [w.ticket])
    case Retry(_, c) =>
      s.(workers := s.workers[a.w := w.(starting := w.starting + {c}, sending := w.sending - {c})])
    case RecordHash(_, c) =>
      s.(workers := s.workers[a.w := w.(sending := w.sending - {c}, recorded := w.recorded + {c})],
         hashCalls := s.hashCalls + 1)
    case Return(_, c) =>
      s.(workers := s.workers[a.w := w.(starting := w.starting - {c}, sending := w.sending - {c},
                                        recorded := w.recorded - {c}, wait := w.wait - 1)])
    case Finish(_) => s.(workers := s.workers[a.w := Idle], finished := s.finished + [w.bundle])
  }

  function MainStep(s: Server, a: Action): Server
    requires !IsHandlerStep(a) && !IsWorkerStep(a) && MainEnabled(s, a)
  {
    match a
    case StoreClosed => s.(phase := FlagSet)
    case Cancel => s.(phase := ContextCancelled)
    case CloseQueue => s.(phase := Waiting)
    case ShutdownOk => s.(phase := ReturnedNil)
    case ShutdownTimeout => s.(phase := ReturnedErr)
    case StopTracker => s.(trackerStopped := true, hashCallsAtStop := s.hashCalls, simCallsAtStop := s.simCalls)
    case RecordSim => s.(simulating := s.simulating - 1, simCalls := s.simCalls + 1)
    case EndSim => s.(simulating := s.simulating - 1)
  }

  function Apply(s: Server, a: Action): Server
    requires Enabled(s, a)
  {
    if IsHandlerStep(a) then HandlerStep(s, a) else if IsWorkerStep(a) then WorkerStep(s, a) else MainStep(s, a)
  }

  /** `states` are the states passed through by the steps `acts`, for a server with `clients` relay clients. */
  ghost predicate IsRun(states: seq<Server>, acts: seq<Action>, clients: nat) {
    && |states| == |acts| + 1 && states[0] == Started(clients)
    && forall i {:trigger acts[i]} :: 0 <= i < |acts| ==>
         Enabled(states[i], acts[i]) && states[i + 1] == Apply(states[i], acts[i])
  }

  lemma Extend(states: seq<Server>, acts: seq<Action>, clients: nat, a: Action)
    requires IsRun(states, acts, clients) && Enabled(states[|acts|], a)
    ensures IsRun(states + [Apply(states[|acts|], a)], acts + [a], clients)
  {
    var longer, more := states + [Apply(states[|acts|], a)], acts + [a];
    forall i | 0 <= i < |more|
      ensures Enabled(longer[i], more[i]) && longer[i + 1] == Apply(longer[i], more[i])
    {
      if i < |acts| {
        assert more[i] == acts[i];
      }
    }
  }

  // ---------- accounting ----------

  function HeldByHandler(h: Handler): multiset<Bundle> {
    if h.Received? || h.Admitted? then multiset{h.bundle} else multiset{}
  }

  function HeldByWorker(w: Worker): multiset<Bundle> {
    if w.Broadcasting? then multiset{w.bundle} else multiset{}
  }

  /** Every bundle received is in exactly one place. */
  ghost predicate Conserved(s: Server) {
    multiset(s.received) ==
      multiset(s.droppedAtShutdown) + multiset(s.droppedFull) + multiset(s.lost)
      + Gather(s.handlers, HeldByHandler) + multiset(s.enqueued)
  }

  /** The queue is first in, first out and bounded; what left it is being broadcast or finished. */
  ghost predicate Fifo(s: Server) {
    && s.enqueued == s.dequeued + s.queue && |s.queue| <= 4096
    && multiset(s.dequeued) == Gather(s.workers, HeldByWorker) + multiset(s.finished)
  }

  /** What `Conserved` says of one bundle, in numbers. */
  ghost predicate ConservedAt(s: Server, x: Bundle) {
    multiset(s.received)[x] ==
      multiset(s.droppedAtShutdown)[x] + multiset(s.droppedFull)[x] + multiset(s.lost)[x]
      + Gather(s.handlers, HeldByHandler)[x] + multiset(s.enqueued)[x]
  }

  /** One handler changes state. */
  lemma HandlerMoves(s: Server, h: nat, after: Handler, x: Bundle)
    requires h in s.handlers
    ensures Gather(s.handlers[h := after], HeldByHandler)[x] + HeldByHandler(s.handlers[h])[x]
              == Gather(s.handlers, HeldByHandler)[x] + HeldByHandler(after)[x]
  {
    GatherUpdateAt(s.handlers, h, after, HeldByHandler, x);
  }

  lemma SnocCount<T>(q: seq<T>, b: T, x: T)
    ensures multiset(q + [b])[x] == multiset(q)[x] + multiset{b}[x]
  {
    assert multiset(q + [b]) == multiset(q) + multiset{b};
  }

  lemma ConservedByReading(s: Server, h: nat, b: Bundle, x: Bundle)
    requires ConservedAt(s, x) && HandlerEnabled(s, Read(h, b))
    ensures ConservedAt(HandlerStep(s, Read(h, b)), x)
  {
    HandlerMoves(s, h, Handler.Received(b), x);
    SnocCount(s.received, b, x);
  }

  lemma ConservedByConnecting(s: Server, h: nat, x: Bundle)
    requires ConservedAt(s, x) && HandlerEnabled(s, Connect(h))
    ensures ConservedAt(HandlerStep(s, Connect(h)), x)
  {
    assert HandlerStep(s, Connect(h)).handlers == s.handlers[h := Reading];
    GatherUpdateAt(s.handlers, h, Reading, HeldByHandler, x);
  }

  lemma ConservedByDisconnecting(s: Server, h: nat, x: Bundle)
    requires ConservedAt(s, x) && HandlerEnabled(s, Disconnect(h))
    ensures ConservedAt(HandlerStep(s, Disconnect(h)), x)
  {
    var left := s.handlers - {h};
    assert HandlerStep(s, Disconnect(h)).handlers == left && s.handlers == left[h := Reading];
    GatherUpdateAt(left, h, Reading, HeldByHandler, x);
  }

  lemma ConservedByLoad(s: Server, h: nat, x: Bundle)
    requires ConservedAt(s, x) && HandlerEnabled(s, LoadClosed(h))
    ensures ConservedAt(HandlerStep(s, LoadClosed(h)), x)
  {
    var t, b := HandlerStep(s, LoadClosed(h)), s.handlers[h].bundle;
    assert t.received == s.received && t.droppedFull == s.droppedFull && t.lost == s.lost && t.enqueued == s.enqueued;
    if s.Closed() {
      HandlerMoves(s, h, Reading, x);
      SnocCount(s.droppedAtShutdown, b, x);
    } else {
      HandlerMoves(s, h, Admitted(b), x);
      assert t.droppedAtShutdown == s.droppedAtShutdown;
    }
  }

  /** A bundle leaves a handler for exactly one of three places. */
  lemma ConservedBySettling(s: Server, t: Server, h: nat, b: Bundle, after: Handler, x: Bundle)
    requires ConservedAt(s, x) && h in s.handlers && s.handlers[h] == Admitted(b) && HeldByHandler(after) == multiset{}
    requires t.handlers == s.handlers[h := after]
    requires t.received == s.received && t.droppedAtShutdown == s.droppedAtShutdown
    requires (t.lost == s.lost + [b] && t.enqueued == s.enqueued && t.droppedFull == s.droppedFull)
          || (t.lost == s.lost && t.enqueued == s.enqueued + [b] && t.droppedFull == s.droppedFull)
          || (t.lost == s.lost && t.enqueued == s.enqueued && t.droppedFull == s.droppedFull + [b])
    ensures ConservedAt(t, x)
  {
    HandlerMoves(s, h, after, x);
    SnocCount(s.lost, b, x);
    SnocCount(s.enqueued, b, x);
    SnocCount(s.droppedFull, b, x);
  }

  lemma ConservedBySend(s: Server, h: nat, x: Bundle)
    requires ConservedAt(s, x) && HandlerEnabled(s, TrySend(h))
    ensures ConservedAt(HandlerStep(s, TrySend(h)), x)
  {
    var t := HandlerStep(s, TrySend(h));
    var b, after := s.handlers[h].bundle, if s.QueueClosed() then Crashed else Reading;
    assert t.handlers == s.handlers[h := after];
    assert t.received == s.received && t.droppedAtShutdown == s.droppedAtShutdown;
    if s.QueueClosed() {
      assert t.lost == s.lost + [b] && t.enqueued == s.enqueued && t.droppedFull == s.droppedFull;
    } else if |s.queue| < QUEUE_CAPACITY {
      assert t.lost == s.lost && t.enqueued == s.enqueued + [b] && t.droppedFull == s.droppedFull;
    }
    ConservedBySettling(s, t, h, b, after, x);
  }

  lemma SplitCounts(s: Server, x: Bundle)
    requires Conserved(s)
    ensures ConservedAt(s, x)
  {
  }

  lemma JoinCounts(s: Server)
    requires forall x :: ConservedAt(s, x)
    ensures Conserved(s)
  {
    var rest := multiset(s.droppedAtShutdown) + multiset(s.droppedFull) + multiset(s.lost)
                + Gather(s.handlers, HeldByHandler) + multiset(s.enqueued);
    forall x ensures multiset(s.received)[x] == rest[x] {
      assert ConservedAt(s, x);
    }
  }

  lemma ConservedByHandler(s: Server, a: Action)
    requires Conserved(s) && IsHandlerStep(a) && HandlerEnabled(s, a)
    ensures Conserved(HandlerStep(s, a))
  {
    forall x ensures ConservedAt(HandlerStep(s, a), x) {
      SplitCounts(s, x);
      match a
      case LoadClosed(h) => ConservedByLoad(s, h, x);
      case TrySend(h) => ConservedBySend(s, h, x);
      case Read(h, b) => ConservedByReading(s, h, b, x);
      case Connect(h) => ConservedByConnecting(s, h, x);
      case Disconnect(h) => ConservedByDisconnecting(s, h, x);
    }
    JoinCounts(HandlerStep(s, a));
  }

  /** A handler step leaves the queue alone or appends one bundle to it. */
  lemma HandlerQueues(s: Server, a: Action)
    requires IsHandlerStep(a) && HandlerEnabled(s, a)
    ensures var t := HandlerStep(s, a);
            || (t.queue == s.queue && t.enqueued == s.enqueued)
            || (a.TrySend? && |s.queue| < QUEUE_CAPACITY
                && t.queue == s.queue + [s.handlers[a.h].bundle] && t.enqueued == s.enqueued + [s.handlers[a.h].bundle])
  {
  }

  lemma FifoByHandler(s: Server, a: Action)
    requires Fifo(s) && IsHandlerStep(a) && HandlerEnabled(s, a)
    ensures Fifo(HandlerStep(s, a))
  {
    var t := HandlerStep(s, a);
    HandlerQueues(s, a);
    if t.queue != s.queue {
      assert s.dequeued + t.queue == (s.dequeued + s.queue) + [s.handlers[a.h].bundle];
    }
  }

  /** What `Fifo` says of one dequeued bundle, in numbers. */
  ghost predicate DequeuedAt(s: Server, x: Bundle) {
    multiset(s.dequeued)[x] == Gather(s.workers, HeldByWorker)[x] + multiset(s.finished)[x]
  }

  lemma DequeuedByWorker(s: Server, a: Action, x: Bundle)
    requires DequeuedAt(s, x) && IsWorkerStep(a) && WorkerEnabled(s, a)
    ensures DequeuedAt(WorkerStep(s, a), x)
  {
    var t := WorkerStep(s, a);
    GatherUpdateAt(s.workers, a.w, t.workers[a.w], HeldByWorker, x);
    assert t.workers == s.workers[a.w := t.workers[a.w]];
    if a.Take? {
      SnocCount(s.dequeued, s.queue[0], x);
    } else if a.Finish? {
      SnocCount(s.finished, s.workers[a.w].bundle, x);
    }
  }

  lemma DequeuedByWorkers(s: Server, a: Action)
    requires multiset(s.dequeued) == Gather(s.workers, HeldByWorker) + multiset(s.finished)
    requires IsWorkerStep(a) && WorkerEnabled(s, a)
    ensures var t := WorkerStep(s, a); multiset(t.dequeued) == Gather(t.workers, HeldByWorker) + multiset(t.finished)
  {
    var t := WorkerStep(s, a);
    forall x ensures multiset(t.dequeued)[x] == (Gather(t.workers, HeldByWorker) + multiset(t.finished))[x] {
      assert DequeuedAt(s, x);
      DequeuedByWorker(s, a, x);
    }
  }

  lemma OrderByWorker(s: Server, a: Action)
    requires s.enqueued == s.dequeued + s.queue && IsWorkerStep(a) && WorkerEnabled(s, a)
    ensures var t := WorkerStep(s, a); t.enqueued == t.dequeued + t.queue && |t.queue| <= |s.queue|
  {
    if a.Take? {
      assert s.dequeued + s.queue == (s.dequeued + [s.queue[0]]) + s.queue[1..];
    }
  }

  lemma FifoByWorker(s: Server, a: Action)
    requires Fifo(s) && IsWorkerStep(a) && WorkerEnabled(s, a)
    ensures Fifo(WorkerStep(s, a))
  {
    OrderByWorker(s, a);
    DequeuedByWorkers(s, a);
  }

  lemma StartConserves(clients: nat)
    ensures Conserved(Started(clients)) && Fifo(Started(clients))
  {
    PoolIsIdle(WORKER_COUNT);
    GatherEmpty(Pool(WORKER_COUNT), HeldByWorker);
  }

  lemma StepConserves(s: Server, a: Action)
    requires Conserved(s) && Fifo(s) && Enabled(s, a)
    ensures Conserved(Apply(s, a)) && Fifo(Apply(s, a))
  {
    if IsHandlerStep(a) {
      ConservedByHandler(s, a);
      FifoByHandler(s, a);
    } else if IsWorkerStep(a) {
      FifoByWorker(s, a);
    }
  }

  lemma {:induction false} RunConserves(states: seq<Server>, acts: seq<Action>, clients: nat, n: nat)
    requires IsRun(states, acts, clients) && n <= |acts|
    ensures Conserved(states[n]) && Fifo(states[n])
  {
    if n == 0 {
      StartConserves(clients);
    } else {
      RunConserves(states, acts, clients, n - 1);
      StepConserves(states[n - 1], acts[n - 1]);
    }
  }

  lemma {:induction false} PoolIsIdle(n: nat)
    ensures forall w :: w in Pool(n) <==> 0 <= w < n
    ensures forall w :: w in Pool(n) ==> Pool(n)[w].Idle?
    ensures |Pool(n)| == n
  {
    if n > 0 {
      PoolIsIdle(n - 1);
      assert Pool(n).Keys == Pool(n - 1).Keys + {n - 1};
    }
  }

  /**
    Exactly-once queueing, over every interleaving and at every moment: the bundles received are those
    dropped at shutdown, dropped on a full queue, lost to a send on the closed channel, held by a handler
    between reading and sending, queued, held by one worker, or finished.  The queue never holds more than
    4096, and bundles leave it in the order they entered.
   */
  lemma EveryBundleIsAccountedFor(states: seq<Server>, acts: seq<Action>, clients: nat, n: nat)
    requires IsRun(states, acts, clients) && n <= |acts|
    ensures var s := states[n];
            && multiset(s.received) ==
                 multiset(s.droppedAtShutdown) + multiset(s.droppedFull) + multiset(s.lost)
                 + Gather(s.handlers, HeldByHandler) + multiset(s.queue)
                 + Gather(s.workers, HeldByWorker) + multiset(s.finished)
            && |s.queue| <= 4096
            && s.enqueued == s.dequeued + s.queue
  {
    RunConserves(states, acts, clients, n);
    var s := states[n];
    assert multiset(s.enqueued) == multiset(s.dequeued) + multiset(s.queue);
  }
}
