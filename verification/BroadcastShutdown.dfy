/** What shutdown guarantees about the queue, the workers and the tracker, and what it does not. */
module BroadcastShutdown {
  import opened Folding
  import opened Bundles
  import opened BroadcastQueue

  // ---------- bundles lost to the closed channel ----------

  function AdmittedBy(h: Handler): multiset<Bundle> {
    if h.Admitted? then multiset{h.bundle} else multiset{}
  }

  lemma NoHandlerStepAdmits(s: Server, a: Action, x: Bundle)
    requires s.QueueClosed() && IsHandlerStep(a) && HandlerEnabled(s, a)
    ensures var t := HandlerStep(s, a);
            multiset(t.lost)[x] + Gather(t.handlers, AdmittedBy)[x] == multiset(s.lost)[x] + Gather(s.handlers, AdmittedBy)[x]
  {
    var t := HandlerStep(s, a);
    if a.Disconnect? {
      GatherUpdateAt(t.handlers, a.h, Reading, AdmittedBy, x);
      assert s.handlers == t.handlers[a.h := Reading];
    } else {
      GatherUpdateAt(s.handlers, a.h, t.handlers[a.h], AdmittedBy, x);
      assert t.handlers == s.handlers[a.h := t.handlers[a.h]];
      if a.TrySend? {
        SnocCount(s.lost, s.handlers[a.h].bundle, x);
      }
    }
  }

  lemma StepKeepsLosses(s: Server, a: Action, x: Bundle)
    requires s.QueueClosed() && Enabled(s, a)
    ensures var t := Apply(s, a);
            && t.QueueClosed()
            && multiset(t.lost)[x] + Gather(t.handlers, AdmittedBy)[x] == multiset(s.lost)[x] + Gather(s.handlers, AdmittedBy)[x]
  {
    if IsHandlerStep(a) {
      NoHandlerStepAdmits(s, a, x);
    }
  }

  lemma {:induction false} LossesComeFromTheGap(states: seq<Server>, acts: seq<Action>, clients: nat, n: nat, m: nat, x: Bundle)
    requires IsRun(states, acts, clients) && n <= m <= |acts| && states[n].QueueClosed()
    ensures states[m].QueueClosed()
    ensures multiset(states[m].lost)[x] + Gather(states[m].handlers, AdmittedBy)[x]
              == multiset(states[n].lost)[x] + Gather(states[n].handlers, AdmittedBy)[x]
  {
    if n < m {
      LossesComeFromTheGap(states, acts, clients, n, m - 1, x);
      StepKeepsLosses(states[m - 1], acts[m - 1], x);
    }
  }

  lemma LostOnlyWhenClosed(s: Server, a: Action)
    requires Enabled(s, a) && !Apply(s, a).QueueClosed()
    ensures !s.QueueClosed() && Apply(s, a).lost == s.lost
  {
  }

  lemma {:induction false} NothingLostBeforeClosing(states: seq<Server>, acts: seq<Action>, clients: nat, n: nat)
    requires IsRun(states, acts, clients) && n <= |acts| && !states[n].QueueClosed()
    ensures states[n].lost == []
  {
    if n > 0 {
      LostOnlyWhenClosed(states[n - 1], acts[n - 1]);
      NothingLostBeforeClosing(states, acts, clients, n - 1);
    }
  }

  /**
    Exactly what the unsynchronised flag costs: the bundles ever lost to a send on the closed channel,
    together with those still at a handler about to make such a send, are those that handlers held between
    loading `closed == false` and sending at the moment the channel was closed.
   */
  lemma LostAreThoseBetweenCheckAndSend(states: seq<Server>, acts: seq<Action>, clients: nat, n: nat, m: nat)
    requires IsRun(states, acts, clients) && n < m <= |acts| && acts[n].CloseQueue?
    ensures multiset(states[m].lost) + Gather(states[m].handlers, AdmittedBy) == Gather(states[n].handlers, AdmittedBy)
  {
    NothingLostBeforeClosing(states, acts, clients, n);
    forall x ensures (multiset(states[m].lost) + Gather(states[m].handlers, AdmittedBy))[x]
                       == Gather(states[n].handlers, AdmittedBy)[x]
    {
      LossesComeFromTheGap(states, acts, clients, n + 1, m, x);
    }
  }

  // ---------- the two WaitGroups ----------

  function Alive(w: Worker): nat { if w.Exited? then 0 else 1 }

  function Busy(w: Worker): nat { if w.Broadcasting? then 1 else 0 }

  /** The fan-out WaitGroup counts the relay goroutines that have not returned. */
  predicate FanOutCounted(clients: nat, w: Worker) {
    w.Broadcasting? ==>
      && w.spawned <= clients
      && (forall c :: c in w.starting ==> c < w.spawned && c !in w.sending && c !in w.recorded)
      && (forall c :: c in w.sending ==> c < w.spawned && c !in w.recorded)
      && (forall c :: c in w.recorded ==> c < w.spawned)
      && w.wait == |w.starting| + |w.sending| + |w.recorded|
  }

  ghost predicate Counted(s: Server) {
    && (forall w :: w in s.workers <==> 0 <= w < WORKER_COUNT)
    && (forall w :: w in s.workers ==> FanOutCounted(s.clients, s.workers[w]))
    && s.wg == Total(s.workers, Alive)
    && (s.phase.ReturnedNil? ==> s.wg == 0)
    && s.hashCallsAtStop <= s.hashCalls && s.simCallsAtStop <= s.simCalls
    && (s.trackerStopped ==> s.Returned())
    && (s.trackerStopped && s.phase.ReturnedNil? ==> s.hashCallsAtStop == s.hashCalls)
  }

  lemma NoWorkerStepAfterExit(s: Server, a: Action)
    requires s.wg == Total(s.workers, Alive) && s.wg == 0 && IsWorkerStep(a)
    ensures !WorkerEnabled(s, a)
    ensures forall w :: w in s.workers ==> s.workers[w].Exited?
  {
    TotalZero(s.workers, Alive);
    assert forall w :: w in s.workers ==> Alive(s.workers[w]) == 0;
  }

  lemma SpawnIsCounted(clients: nat, w: Worker, v: Worker)
    requires FanOutCounted(clients, w) && w.Broadcasting? && w.spawned < clients
    requires v == w.(spawned := w.spawned + 1, starting := w.starting + {w.spawned}, wait := w.wait + 1)
    ensures FanOutCounted(clients, v)
  {
    assert w.spawned !in w.starting && w.spawned !in w.sending && w.spawned !in w.recorded;
  }

  lemma AttemptIsCounted(clients: nat, w: Worker, v: Worker, c: nat)
    requires FanOutCounted(clients, w) && w.Broadcasting? && c in w.starting
    requires v == w.(starting := w.starting - {c}, sending := w.sending + {c})
    ensures FanOutCounted(clients, v)
  {
    assert c !in w.sending;
  }

  lemma RetryIsCounted(clients: nat, w: Worker, v: Worker, c: nat)
    requires FanOutCounted(clients, w) && w.Broadcasting? && c in w.sending
    requires v == w.(starting := w.starting + {c}, sending := w.sending - {c})
    ensures FanOutCounted(clients, v)
  {
    assert c !in w.starting;
  }

  lemma RecordIsCounted(clients: nat, w: Worker, v: Worker, c: nat)
    requires FanOutCounted(clients, w) && w.Broadcasting? && c in w.sending
    requires v == w.(sending := w.sending - {c}, recorded := w.recorded + {c})
    ensures FanOutCounted(clients, v)
  {
    assert c !in w.recorded && c !in w.starting;
  }

  lemma RemoveOne(cs: set<nat>, c: nat)
    ensures |cs - {c}| == |cs| - if c in cs then 1 else 0
  {
    if c !in cs {
      assert cs - {c} == cs;
    }
  }

  lemma ReturnIsCounted(clients: nat, w: Worker, v: Worker, c: nat)
    requires FanOutCounted(clients, w) && w.Broadcasting? && c in w.starting + w.sending + w.recorded
    requires v == w.(starting := w.starting - {c}, sending := w.sending - {c}, recorded := w.recorded - {c}, wait := w.wait - 1)
    ensures FanOutCounted(clients, v)
  {
    RemoveOne(w.starting, c);
    RemoveOne(w.sending, c);
    RemoveOne(w.recorded, c);
  }

  lemma FanOutStaysCounted(s: Server, a: Action)
    requires IsWorkerStep(a) && WorkerEnabled(s, a) && FanOutCounted(s.clients, s.workers[a.w])
    ensures FanOutCounted(s.clients, WorkerStep(s, a).workers[a.w])
  {
    var w, v := s.workers[a.w], WorkerStep(s, a).workers[a.w];
    match a
    case Spawn(_) => SpawnIsCounted(s.clients, w, v);
    case Attempt(_, c) => AttemptIsCounted(s.clients, w, v, c);
    case Retry(_, c) => RetryIsCounted(s.clients, w, v, c);
    case RecordHash(_, c) => RecordIsCounted(s.clients, w, v, c);
    case Return(_, c) => ReturnIsCounted(s.clients, w, v, c);
    case _ =>
  }

  lemma WorkerStepCounted(s: Server, a: Action)
    requires Counted(s) && IsWorkerStep(a) && WorkerEnabled(s, a)
    ensures Counted(WorkerStep(s, a))
  {
    var t := WorkerStep(s, a);
    FanOutStaysCounted(s, a);
    assert t.workers == s.workers[a.w := t.workers[a.w]];
    TotalUpdate(s.workers, a.w, t.workers[a.w], Alive);
    if s.wg == 0 {
      NoWorkerStepAfterExit(s, a);
    }
  }

  lemma StepCounted(s: Server, a: Action)
    requires Counted(s) && Enabled(s, a)
    ensures Counted(Apply(s, a)) && Apply(s, a).clients == s.clients
  {
    if IsWorkerStep(a) {
      WorkerStepCounted(s, a);
    }
  }

  lemma StartCounted(clients: nat)
    ensures Counted(Started(clients))
  {
    PoolIsIdle(WORKER_COUNT);
    TotalOnes(Pool(WORKER_COUNT), Alive);
  }

  lemma {:induction false} RunCounted(states: seq<Server>, acts: seq<Action>, clients: nat, n: nat)
    requires IsRun(states, acts, clients) && n <= |acts|
    ensures Counted(states[n]) && states[n].clients == clients
  {
    if n == 0 {
      StartCounted(clients);
    } else {
      RunCounted(states, acts, clients, n - 1);
      StepCounted(states[n - 1], acts[n - 1]);
    }
  }

  /** At most 64 bundles are broadcast at any moment. */
  lemma AtMost64Broadcasts(states: seq<Server>, acts: seq<Action>, clients: nat, n: nat)
    requires IsRun(states, acts, clients) && n <= |acts|
    ensures Total(states[n].workers, Busy) <= 64
  {
    RunCounted(states, acts, clients, n);
    var workers := states[n].workers;
    TotalAtMostCount(workers, Busy);
    PoolIsIdle(WORKER_COUNT);
    assert workers.Keys == Pool(WORKER_COUNT).Keys;
  }

  /** The inner barrier: a worker goes on only when every relay goroutine of its broadcast has returned. */
  lemma BroadcastWaitsForAllRelays(states: seq<Server>, acts: seq<Action>, clients: nat, n: nat)
    requires IsRun(states, acts, clients) && n < |acts| && acts[n].Finish?
    ensures var w := states[n].workers[acts[n].w];
            w.Broadcasting? && w.spawned == clients && w.starting == {} && w.sending == {} && w.recorded == {}
  {
    RunCounted(states, acts, clients, n);
  }

  /**
    The barrier across both WaitGroups: if `Shutdown` returned nil, every worker has exited, no relay
    goroutine runs and none ever will, and every `RecordHash` call precedes the closing of the tracker.
   */
  lemma ShutdownNilIsABarrier(states: seq<Server>, acts: seq<Action>, clients: nat, n: nat, a: Action)
    requires IsRun(states, acts, clients) && n <= |acts| && states[n].phase.ReturnedNil?
    ensures forall w :: w in states[n].workers ==> states[n].workers[w].Exited?
    ensures IsWorkerStep(a) ==> !Enabled(states[n], a)
    ensures states[n].trackerStopped ==> states[n].hashCalls == states[n].hashCallsAtStop
  {
    RunCounted(states, acts, clients, n);
    TotalZero(states[n].workers, Alive);
    assert forall w :: w in states[n].workers ==> Alive(states[n].workers[w]) == 0;
  }

  /** Conversely a hash can reach the tracker after it was stopped only if `Shutdown` ran out of time. */
  lemma LateHashMeansTimeout(states: seq<Server>, acts: seq<Action>, clients: nat, n: nat)
    requires IsRun(states, acts, clients) && n <= |acts|
    requires states[n].trackerStopped && states[n].hashCalls > states[n].hashCallsAtStop
    ensures states[n].phase.ReturnedErr?
  {
    RunCounted(states, acts, clients, n);
  }

  /** A nil return settles every bundle the queue let out: it is finished, and the rest is still in the queue. */
  lemma ShutdownNilSettles(states: seq<Server>, acts: seq<Action>, clients: nat, n: nat)
    requires IsRun(states, acts, clients) && n <= |acts| && states[n].phase.ReturnedNil?
    ensures multiset(states[n].dequeued) == multiset(states[n].finished)
    ensures states[n].enqueued == states[n].dequeued + states[n].queue
  {
    RunConserves(states, acts, clients, n);
    ShutdownNilIsABarrier(states, acts, clients, n, CloseQueue);
    GatherEmpty(states[n].workers, HeldByWorker);
  }

  // ---------- draining ----------

  /**
    Steps a worker can still make once the context is cancelled: a relay goroutine is started and returns, or
    records before it does, or gives its request up; the broadcast ends; an idle worker quits.
   */
  function Steps(clients: nat, w: Worker): nat {
    match w
    case Idle => 1
    case Exited => 0
    case Broadcasting(_, _, spawned, starting, sending, recorded, _) =>
      2 + 2 * (if spawned <= clients then clients - spawned else 0) + |starting| + 2 * |sending| + |recorded|
  }

  function StepsOf(clients: nat): Worker -> nat {
    w => Steps(clients, w)
  }

  /** Each queued bundle may cost a whole broadcast. */
  function QueueSteps(clients: nat, queued: nat): nat {
    if queued == 0 then 0 else QueueSteps(clients, queued - 1) + 2 * clients + 2
  }

  ghost function Remaining(s: Server): nat {
    QueueSteps(s.clients, |s.queue|) + Total(s.workers, StepsOf(s.clients))
  }

  lemma WorkerStepDescends(s: Server, a: Action)
    requires Counted(s) && s.Cancelled() && IsWorkerStep(a) && WorkerEnabled(s, a)
    ensures Remaining(WorkerStep(s, a)) < Remaining(s)
  {
    var t := WorkerStep(s, a);
    assert t.workers == s.workers[a.w := t.workers[a.w]];
    TotalUpdate(s.workers, a.w, t.workers[a.w], StepsOf(s.clients));
    StepLightens(s, a);
  }

  lemma FanOutLightens(clients: nat, w: Worker, v: Worker, a: Action)
    requires FanOutCounted(clients, w) && w.Broadcasting?
    requires (a.Spawn? && w.spawned < clients && v == w.(spawned := w.spawned + 1, starting := w.starting + {w.spawned}, wait := w.wait + 1))
          || (a.Retry? && a.c in w.sending && v == w.(starting := w.starting + {a.c}, sending := w.sending - {a.c}))
          || (a.RecordHash? && a.c in w.sending && v == w.(sending := w.sending - {a.c}, recorded := w.recorded + {a.c}))
    ensures Steps(clients, v) < Steps(clients, w)
  {
    if a.Spawn? {
      assert w.spawned !in w.starting;
    } else {
      assert a.c !in w.starting && a.c !in w.recorded;
    }
  }

  lemma ReturnLightens(clients: nat, w: Worker, v: Worker, c: nat)
    requires FanOutCounted(clients, w) && w.Broadcasting? && c in w.starting + w.sending + w.recorded
    requires v == w.(starting := w.starting - {c}, sending := w.sending - {c}, recorded := w.recorded - {c}, wait := w.wait - 1)
    ensures Steps(clients, v) < Steps(clients, w)
  {
    RemoveOne(w.starting, c);
    RemoveOne(w.sending, c);
    RemoveOne(w.recorded, c);
  }

  lemma WorkerLightens(s: Server, a: Action)
    requires IsWorkerStep(a) && !a.Take? && s.Cancelled() && WorkerEnabled(s, a) && FanOutCounted(s.clients, s.workers[a.w])
    ensures Steps(s.clients, WorkerStep(s, a).workers[a.w]) < Steps(s.clients, s.workers[a.w])
  {
    var w, v := s.workers[a.w], WorkerStep(s, a).workers[a.w];
    match a
    case Return(_, c) => ReturnLightens(s.clients, w, v, c);
    case Quit(_) =>
    case Finish(_) =>
    case _ => FanOutLightens(s.clients, w, v, a);
  }

  lemma StepLightens(s: Server, a: Action)
    requires Counted(s) && s.Cancelled() && IsWorkerStep(a) && WorkerEnabled(s, a)
    ensures Steps(s.clients, WorkerStep(s, a).workers[a.w]) + QueueSteps(s.clients, |WorkerStep(s, a).queue|)
              < Steps(s.clients, s.workers[a.w]) + QueueSteps(s.clients, |s.queue|)
  {
    if !a.Take? {
      WorkerLightens(s, a);
    }
  }

  /** Every other step leaves the measure alone: nothing is queued on a closed channel. */
  lemma StepDescends(s: Server, a: Action)
    requires Counted(s) && s.QueueClosed() && Enabled(s, a)
    ensures var t := Apply(s, a);
            t.QueueClosed() && Remaining(t) + (if IsWorkerStep(a) then 1 else 0) <= Remaining(s)
  {
    if IsWorkerStep(a) {
      WorkerStepDescends(s, a);
    }
  }

  /** How many of the steps n, n + 1, ..., m - 1 are a worker's. */
  function WorkerSteps(acts: seq<Action>, n: nat, m: nat): nat
    requires n <= m <= |acts|
  {
    if n == m then 0 else WorkerSteps(acts, n, m - 1) + if IsWorkerStep(acts[m - 1]) then 1 else 0
  }

  lemma RunDescends(states: seq<Server>, acts: seq<Action>, clients: nat, n: nat)
    requires IsRun(states, acts, clients) && n < |acts| && states[n].QueueClosed() && Counted(states[n])
    ensures states[n + 1].QueueClosed()
    ensures Remaining(states[n + 1]) + (if IsWorkerStep(acts[n]) then 1 else 0) <= Remaining(states[n])
  {
    StepDescends(states[n], acts[n]);
  }

  /**
    Shutdown drains in bounded steps: once the channel is closed the workers make, whichever ready case each
    `select` takes, no more steps than `Remaining` says at that moment.
   */
  lemma {:induction false} DrainIsBounded(states: seq<Server>, acts: seq<Action>, clients: nat, n: nat, m: nat)
    requires IsRun(states, acts, clients) && n <= m <= |acts| && states[n].QueueClosed()
    ensures states[m].QueueClosed()
    ensures WorkerSteps(acts, n, m) + Remaining(states[m]) <= Remaining(states[n])
  {
    if n < m {
      DrainIsBounded(states, acts, clients, n, m - 1);
      RunCounted(states, acts, clients, m - 1);
      RunDescends(states, acts, clients, m - 1);
    }
  }

  /** And they never get stuck: as long as a worker has not exited, it has a step, other than taking a bundle. */
  lemma DrainMakesProgress(states: seq<Server>, acts: seq<Action>, clients: nat, n: nat, w: nat) returns (a: Action)
    requires IsRun(states, acts, clients) && n <= |acts| && states[n].QueueClosed()
    requires w in states[n].workers && !states[n].workers[w].Exited?
    ensures IsWorkerStep(a) && a.w == w && !a.Take? && Enabled(states[n], a)
  {
    RunCounted(states, acts, clients, n);
    var worker := states[n].workers[w];
    assert FanOutCounted(clients, worker);
    if worker.Idle? {
      a := Quit(w);
    } else if worker.spawned < clients {
      a := Spawn(w);
    } else if worker.starting != {} {
      var c :| c in worker.starting;
      a := Return(w, c);
    } else if worker.sending != {} {
      var c :| c in worker.sending;
      a := Return(w, c);
    } else if worker.recorded != {} {
      var c :| c in worker.recorded;
      a := Return(w, c);
    } else {
      a := Finish(w);
    }
  }

  /** So when no worker step is left, every worker has exited and `Shutdown`'s wait is over. */
  lemma DrainedMeansExited(states: seq<Server>, acts: seq<Action>, clients: nat, n: nat)
    requires IsRun(states, acts, clients) && n <= |acts| && states[n].QueueClosed()
    requires forall a :: IsWorkerStep(a) ==> !Enabled(states[n], a)
    ensures states[n].wg == 0
  {
    RunCounted(states, acts, clients, n);
    forall w | w in states[n].workers ensures states[n].workers[w].Exited? {
      if !states[n].workers[w].Exited? {
        var a := DrainMakesProgress(states, acts, clients, n, w);
        assert false;
      }
    }
    AllExited(states[n].workers);
  }

  lemma {:induction false} AllExited(workers: map<nat, Worker>)
    requires forall w :: w in workers ==> workers[w].Exited?
    ensures Total(workers, Alive) == 0
    decreases |workers|
  {
    if workers != map[] {
      var w :| w in workers;
      TotalSplit(workers, w, Alive);
      assert (workers - {w}).Keys == workers.Keys - {w};
      AllExited(workers - {w});
    }
  }
}
