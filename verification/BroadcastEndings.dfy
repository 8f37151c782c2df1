/**
  How a shutdown can end.  Promises a reader might expect do not hold: that no hash and no simulation reaches
  the tracker after it was stopped, and that every bundle queued is sent.  For each, the exact condition under
  which it can fail, read off the state.
 */
module BroadcastEndings {
  import opened Bundles
  import opened BroadcastQueue
  import opened BroadcastShutdown

  /** The run `longer` continues the run `states`. */
  ghost predicate Continues(longer: seq<Server>, more: seq<Action>, states: seq<Server>, acts: seq<Action>, clients: nat) {
    IsRun(longer, more, clients) && states <= longer && acts <= more
  }

  /** One more step, taken. */
  lemma Then(states: seq<Server>, acts: seq<Action>, clients: nat, a: Action) returns (longer: seq<Server>, more: seq<Action>)
    requires IsRun(states, acts, clients) && Enabled(states[|acts|], a)
    ensures Continues(longer, more, states, acts, clients)
    ensures |more| == |acts| + 1 && longer[|more|] == Apply(states[|acts|], a)
  {
    Extend(states, acts, clients, a);
    longer, more := states + [Apply(states[|acts|], a)], acts + [a];
  }

  /** `s` once `main` has stopped the tracker: a timeout if need be, and nothing else. */
  ghost predicate StoppedFrom(s: Server, t: Server) {
    && t.trackerStopped && t.workers == s.workers && t.queue == s.queue && t.clients == s.clients && t.simulating == s.simulating
    && t.QueueClosed() && t.hashCalls == s.hashCalls && t.simCalls == s.simCalls
  }

  lemma GiveUpWaiting(states: seq<Server>, acts: seq<Action>, clients: nat) returns (longer: seq<Server>, more: seq<Action>)
    requires IsRun(states, acts, clients) && states[|acts|].Cancelled()
    ensures Continues(longer, more, states, acts, clients)
    ensures longer[|more|].Returned() && longer[|more|] == states[|acts|].(phase := longer[|more|].phase)
  {
    longer, more := states, acts;
    if states[|acts|].phase.ContextCancelled? {
      longer, more := Then(longer, more, clients, CloseQueue);
    }
    if longer[|more|].phase.Waiting? {
      longer, more := Then(longer, more, clients, ShutdownTimeout);
    }
  }

  lemma StopNow(states: seq<Server>, acts: seq<Action>, clients: nat) returns (longer: seq<Server>, more: seq<Action>)
    requires IsRun(states, acts, clients) && states[|acts|].Cancelled()
    ensures Continues(longer, more, states, acts, clients) && StoppedFrom(states[|acts|], longer[|more|])
  {
    RunCounted(states, acts, clients, |acts|);
    longer, more := GiveUpWaiting(states, acts, clients);
    if !longer[|more|].trackerStopped {
      longer, more := Then(longer, more, clients, StopTracker);
    }
  }

  // ---------- hashes recorded late ----------

  /** A relay request begun before the context was cancelled has not ended. */
  ghost predicate CanRecord(s: Server) {
    exists w :: w in s.workers && s.workers[w].Broadcasting? && s.workers[w].sending != {}
  }

  /** A hash was recorded after the tracker was stopped. */
  predicate LateHash(s: Server) {
    s.trackerStopped && s.hashCalls > s.hashCallsAtStop
  }

  /** No worker step begins a request any more. */
  lemma WorkerBeginsNothing(s: Server, a: Action)
    requires s.Cancelled() && !CanRecord(s) && IsWorkerStep(a) && WorkerEnabled(s, a)
    ensures !CanRecord(WorkerStep(s, a)) && WorkerStep(s, a).hashCalls == s.hashCalls
  {
    var t, v := WorkerStep(s, a), WorkerStep(s, a).workers[a.w];
    assert t.workers == s.workers[a.w := v];
    assert s.workers[a.w].Broadcasting? ==> s.workers[a.w].sending == {};
    assert v.Broadcasting? ==> v.sending == {};
  }

  lemma NothingToRecord(s: Server, a: Action)
    requires s.Cancelled() && !CanRecord(s) && Enabled(s, a)
    ensures var t := Apply(s, a);
            t.Cancelled() && !CanRecord(t) && t.hashCalls == s.hashCalls && (LateHash(t) <==> LateHash(s))
  {
    if IsWorkerStep(a) {
      WorkerBeginsNothing(s, a);
    }
  }

  lemma {:induction false} NoHashFollows(states: seq<Server>, acts: seq<Action>, clients: nat, n: nat, m: nat)
    requires IsRun(states, acts, clients) && n <= m <= |acts| && states[n].Cancelled() && !CanRecord(states[n])
    ensures states[m].Cancelled() && !CanRecord(states[m])
    ensures states[m].hashCalls == states[n].hashCalls && (LateHash(states[m]) <==> LateHash(states[n]))
  {
    if n < m {
      NoHashFollows(states, acts, clients, n, m - 1);
      NothingToRecord(states[m - 1], acts[m - 1]);
    }
  }

  /** From any such state `main` can give up waiting and stop the tracker before that request is answered. */
  lemma TimeoutLetsAHashComeLate(states: seq<Server>, acts: seq<Action>, clients: nat)
    returns (longer: seq<Server>, more: seq<Action>)
    requires IsRun(states, acts, clients) && states[|acts|].Cancelled() && CanRecord(states[|acts|])
    ensures Continues(longer, more, states, acts, clients) && LateHash(longer[|more|])
  {
    longer, more := StopNow(states, acts, clients);
    RunCounted(longer, more, clients, |more|);
    var s := longer[|more|];
    var w :| w in s.workers && s.workers[w].Broadcasting? && s.workers[w].sending != {};
    var c :| c in s.workers[w].sending;
    longer, more := Then(longer, more, clients, RecordHash(w, c));
  }

  ghost predicate EndsWithLateHash(longer: seq<Server>, more: seq<Action>, states: seq<Server>, acts: seq<Action>, clients: nat) {
    Continues(longer, more, states, acts, clients) && LateHash(longer[|more|])
  }

  /**
    Exactly when a hash can reach the tracker after it was stopped.  In any run whose context is cancelled, such
    an end is ahead if and only if a relay request begun before the cancel has not ended, unless it has
    happened already.
   */
  lemma LateHashIff(states: seq<Server>, acts: seq<Action>, clients: nat)
    requires IsRun(states, acts, clients) && states[|acts|].Cancelled()
    ensures (exists longer, more :: EndsWithLateHash(longer, more, states, acts, clients))
              <==> LateHash(states[|acts|]) || CanRecord(states[|acts|])
  {
    if LateHash(states[|acts|]) {
      assert EndsWithLateHash(states, acts, states, acts, clients);
    } else if CanRecord(states[|acts|]) {
      var longer, more := TimeoutLetsAHashComeLate(states, acts, clients);
      assert EndsWithLateHash(longer, more, states, acts, clients);
    } else {
      forall longer: seq<Server>, more: seq<Action> | Continues(longer, more, states, acts, clients)
        ensures !LateHash(longer[|more|])
      {
        assert longer[|acts|] == states[|acts|];
        NoHashFollows(longer, more, clients, |acts|, |more|);
      }
    }
  }

  // ---------- bundles that reach no relay ----------

  /** Places in the order of dequeuing: a broadcast is of the bundle at its place, and only dequeued ones are attempted. */
  ghost predicate Ticketed(s: Server) {
    && (forall w :: w in s.workers && s.workers[w].Broadcasting? ==>
          s.workers[w].ticket < |s.dequeued| && s.dequeued[s.workers[w].ticket] == s.workers[w].bundle)
    && (forall i :: 0 <= i < |s.attempted| ==> s.attempted[i] < |s.dequeued|)
  }

  lemma StepTicketed(s: Server, a: Action)
    requires Ticketed(s) && Enabled(s, a)
    ensures Ticketed(Apply(s, a))
  {
    if IsWorkerStep(a) {
      var t := WorkerStep(s, a);
      assert t.workers == s.workers[a.w := t.workers[a.w]];
    }
  }

  lemma {:induction false} RunTicketed(states: seq<Server>, acts: seq<Action>, clients: nat, n: nat)
    requires IsRun(states, acts, clients) && n <= |acts|
    ensures Ticketed(states[n])
  {
    if n == 0 {
      PoolIsIdle(WORKER_COUNT);
    } else {
      RunTicketed(states, acts, clients, n - 1);
      StepTicketed(states[n - 1], acts[n - 1]);
    }
  }

  lemma NoAttempt(s: Server, a: Action)
    requires s.Cancelled() && Enabled(s, a)
    ensures Apply(s, a).Cancelled() && Apply(s, a).attempted == s.attempted
  {
  }

  /** Each request is for the bundle at the place it is logged under. */
  lemma AttemptsAreLogged(states: seq<Server>, acts: seq<Action>, clients: nat, n: nat)
    requires IsRun(states, acts, clients) && n < |acts| && acts[n].Attempt?
    ensures var s, w := states[n], states[n].workers[acts[n].w];
            && w.Broadcasting? && w.ticket < |s.enqueued| && s.enqueued[w.ticket] == w.bundle
            && states[n + 1].attempted == s.attempted + [w.ticket]
  {
    RunTicketed(states, acts, clients, n);
    RunConserves(states, acts, clients, n);
    assert Enabled(states[n], acts[n]) && states[n + 1] == Apply(states[n], acts[n]);
  }

  /**
    Nothing that is still queued when the context is cancelled, or queued later, reaches a relay, even if a
    worker takes it and its broadcast ends: all requests ever made are for bundles dequeued before.
   */
  lemma {:induction false} NothingQueuedAtCancelIsSent(states: seq<Server>, acts: seq<Action>, clients: nat, n: nat, m: nat)
    requires IsRun(states, acts, clients) && n <= m <= |acts| && states[n].Cancelled()
    ensures states[m].Cancelled() && states[m].attempted == states[n].attempted
    ensures forall t :: t in states[m].attempted ==> t < |states[n].dequeued|
  {
    if n < m {
      NothingQueuedAtCancelIsSent(states, acts, clients, n, m - 1);
      NoAttempt(states[m - 1], acts[m - 1]);
    } else {
      RunTicketed(states, acts, clients, n);
    }
  }

  // ---------- bundles abandoned in the queue ----------

  /**
    From any waiting state the cancelled context can be taken by every worker as soon as its broadcast ends:
    `Shutdown` then returns nil with the queue as it was.
   */
  lemma {:induction false} QueueCanBeAbandoned(states: seq<Server>, acts: seq<Action>, clients: nat)
    returns (longer: seq<Server>, more: seq<Action>)
    requires IsRun(states, acts, clients) && states[|acts|].phase.Waiting?
    ensures Continues(longer, more, states, acts, clients)
    ensures longer[|more|].phase.ReturnedNil? && longer[|more|].queue == states[|acts|].queue
    ensures longer[|more|].simulating == states[|acts|].simulating && longer[|more|].trackerStopped == states[|acts|].trackerStopped
    decreases Remaining(states[|acts|])
  {
    RunCounted(states, acts, clients, |acts|);
    var s := states[|acts|];
    if w :| w in s.workers && !s.workers[w].Exited? {
      var a := DrainMakesProgress(states, acts, clients, |acts|, w);
      Extend(states, acts, clients, a);
      WorkerStepDescends(s, a);
      longer, more := QueueCanBeAbandoned(states + [Apply(s, a)], acts + [a], clients);
    } else {
      AllExited(s.workers);
      Extend(states, acts, clients, ShutdownOk);
      longer, more := states + [Apply(s, ShutdownOk)], acts + [ShutdownOk];
    }
  }

  lemma NothingIsQueued(s: Server, a: Action)
    requires s.QueueClosed() && s.queue == [] && Enabled(s, a)
    ensures Apply(s, a).QueueClosed() && Apply(s, a).queue == []
  {
  }

  lemma {:induction false} EmptyQueueStaysEmpty(states: seq<Server>, acts: seq<Action>, clients: nat, n: nat, m: nat)
    requires IsRun(states, acts, clients) && n <= m <= |acts| && states[n].QueueClosed() && states[n].queue == []
    ensures states[m].QueueClosed() && states[m].queue == []
  {
    if n < m {
      EmptyQueueStaysEmpty(states, acts, clients, n, m - 1);
      NothingIsQueued(states[m - 1], acts[m - 1]);
    }
  }

  ghost predicate EndsWithAbandoned(longer: seq<Server>, more: seq<Action>, states: seq<Server>, acts: seq<Action>, clients: nat) {
    Continues(longer, more, states, acts, clients) && longer[|more|].phase.ReturnedNil? && longer[|more|].queue != []
  }

  /** Exactly when a graceful end can leave bundles in the queue: it is not empty when `Shutdown` begins to wait. */
  lemma AbandonedIff(states: seq<Server>, acts: seq<Action>, clients: nat)
    requires IsRun(states, acts, clients) && states[|acts|].phase.Waiting?
    ensures (exists longer, more :: EndsWithAbandoned(longer, more, states, acts, clients)) <==> states[|acts|].queue != []
  {
    if states[|acts|].queue != [] {
      var longer, more := QueueCanBeAbandoned(states, acts, clients);
      assert EndsWithAbandoned(longer, more, states, acts, clients);
    } else {
      forall longer: seq<Server>, more: seq<Action> | Continues(longer, more, states, acts, clients) ensures longer[|more|].queue == [] {
        assert longer[|acts|] == states[|acts|];
        EmptyQueueStaysEmpty(longer, more, clients, |acts|, |more|);
      }
    }
  }

  // ---------- simulations recorded late ----------

  /** A simulation runs, or a queued bundle can still be taken and simulated. */
  ghost predicate CanSimulate(s: Server) {
    s.simulating > 0 || (s.queue != [] && exists w :: w in s.workers && !s.workers[w].Exited?)
  }

  /** A simulation was recorded after the tracker was stopped. */
  predicate LateSim(s: Server) {
    s.trackerStopped && s.simCalls > s.simCallsAtStop
  }

  lemma NothingToSimulate(s: Server, a: Action)
    requires s.QueueClosed() && !CanSimulate(s) && Enabled(s, a)
    ensures var t := Apply(s, a);
            t.QueueClosed() && !CanSimulate(t) && t.simCalls == s.simCalls && (LateSim(t) <==> LateSim(s))
  {
    if IsWorkerStep(a) {
      var t := WorkerStep(s, a);
      assert t.workers == s.workers[a.w := t.workers[a.w]];
    }
  }

  lemma {:induction false} NoSimFollows(states: seq<Server>, acts: seq<Action>, clients: nat, n: nat, m: nat)
    requires IsRun(states, acts, clients) && n <= m <= |acts| && states[n].QueueClosed() && !CanSimulate(states[n])
    ensures states[m].QueueClosed() && !CanSimulate(states[m]) && (LateSim(states[m]) <==> LateSim(states[n]))
  {
    if n < m {
      NoSimFollows(states, acts, clients, n, m - 1);
      NothingToSimulate(states[m - 1], acts[m - 1]);
    }
  }

  /** By worker steps alone a simulation is launched, if none runs already. */
  lemma {:induction false} SimLaunches(states: seq<Server>, acts: seq<Action>, clients: nat)
    returns (longer: seq<Server>, more: seq<Action>)
    requires IsRun(states, acts, clients) && states[|acts|].QueueClosed() && CanSimulate(states[|acts|])
    ensures Continues(longer, more, states, acts, clients)
    ensures var s, t := states[|acts|], longer[|more|];
            && t.simulating > 0 && t.phase == s.phase && t.trackerStopped == s.trackerStopped
            && t.simCalls == s.simCalls && t.simCallsAtStop == s.simCallsAtStop
    decreases Remaining(states[|acts|])
  {
    longer, more := states, acts;
    var s := states[|acts|];
    if s.simulating == 0 {
      RunCounted(states, acts, clients, |acts|);
      var w :| w in s.workers && !s.workers[w].Exited?;
      if s.workers[w].Idle? {
        longer, more := Then(states, acts, clients, Take(w));
      } else {
        var a := DrainMakesProgress(states, acts, clients, |acts|, w);
        longer, more := Then(states, acts, clients, a);
        assert !longer[|more|].workers[w].Exited?;
        WorkerStepDescends(s, a);
        longer, more := SimLaunches(longer, more, clients);
        return;
      }
    }
  }

  lemma StopThenSimulate(states: seq<Server>, acts: seq<Action>, clients: nat)
    returns (longer: seq<Server>, more: seq<Action>)
    requires IsRun(states, acts, clients) && states[|acts|].QueueClosed() && CanSimulate(states[|acts|])
    ensures Continues(longer, more, states, acts, clients) && LateSim(longer[|more|])
  {
    longer, more := StopNow(states, acts, clients);
    longer, more := SimLaunches(longer, more, clients);
    RunCounted(longer, more, clients, |more|);
    longer, more := Then(longer, more, clients, RecordSim);
  }

  ghost predicate EndsWithLateSim(longer: seq<Server>, more: seq<Action>, states: seq<Server>, acts: seq<Action>, clients: nat) {
    Continues(longer, more, states, acts, clients) && LateSim(longer[|more|])
  }

  /**
    Exactly when a simulation can reach the tracker after it was stopped: one is running, or a bundle is queued
    and a worker has not exited; for simulations use neither WaitGroup nor the cancelled context.
   */
  lemma LateSimIff(states: seq<Server>, acts: seq<Action>, clients: nat)
    requires IsRun(states, acts, clients) && states[|acts|].QueueClosed()
    ensures (exists longer, more :: EndsWithLateSim(longer, more, states, acts, clients))
              <==> LateSim(states[|acts|]) || CanSimulate(states[|acts|])
  {
    if LateSim(states[|acts|]) {
      assert EndsWithLateSim(states, acts, states, acts, clients);
    } else if CanSimulate(states[|acts|]) {
      var longer, more := StopThenSimulate(states, acts, clients);
      assert EndsWithLateSim(longer, more, states, acts, clients);
    } else {
      forall longer: seq<Server>, more: seq<Action> | Continues(longer, more, states, acts, clients)
        ensures !LateSim(longer[|more|])
      {
        assert longer[|acts|] == states[|acts|];
        NoSimFollows(longer, more, clients, |acts|, |more|);
      }
    }
  }

  /** A nil return does not help: from any waiting state that can still simulate, it can come first. */
  lemma SimOutlivesShutdown(states: seq<Server>, acts: seq<Action>, clients: nat)
    returns (longer: seq<Server>, more: seq<Action>)
    requires IsRun(states, acts, clients) && states[|acts|].phase.Waiting? && CanSimulate(states[|acts|])
    ensures Continues(longer, more, states, acts, clients)
    ensures longer[|more|].phase.ReturnedNil? && LateSim(longer[|more|])
  {
    RunCounted(states, acts, clients, |acts|);
    longer, more := SimLaunches(states, acts, clients);
    longer, more := QueueCanBeAbandoned(longer, more, clients);
    longer, more := Then(longer, more, clients, StopTracker);
    longer, more := Then(longer, more, clients, RecordSim);
  }

  // ---------- runs that end so ----------

  /** A handler that has read a bundle and seen that the server is open. */
  lemma AdmittedRun(b: Bundle, clients: nat) returns (states: seq<Server>, acts: seq<Action>)
    ensures IsRun(states, acts, clients)
    ensures states[|acts|] == Started(clients).(handlers := map[0 := Admitted(b)], received := [b])
  {
    states, acts := [Started(clients)], [];
    states, acts := Then(states, acts, clients, Connect(0));
    states, acts := Then(states, acts, clients, Read(0, b));
    states, acts := Then(states, acts, clients, LoadClosed(0));
  }

  /** `Shutdown` runs up to its wait. */
  lemma ClosingRun(states: seq<Server>, acts: seq<Action>, clients: nat) returns (longer: seq<Server>, more: seq<Action>)
    requires IsRun(states, acts, clients) && states[|acts|].phase.Serving?
    ensures IsRun(longer, more, clients) && longer[|more|] == states[|acts|].(phase := Waiting)
  {
    longer, more := Then(states, acts, clients, StoreClosed);
    longer, more := Then(longer, more, clients, Cancel);
    longer, more := Then(longer, more, clients, CloseQueue);
  }

  /** A bundle can be lost to the closed channel: its handler panics. */
  lemma BundleCanBeLost(b: Bundle, clients: nat) returns (states: seq<Server>, acts: seq<Action>)
    ensures IsRun(states, acts, clients)
    ensures states[|acts|].lost == [b] && states[|acts|].handlers == map[0 := Crashed]
  {
    states, acts := AdmittedRun(b, clients);
    states, acts := ClosingRun(states, acts, clients);
    states, acts := Then(states, acts, clients, TrySend(0));
  }

  lemma QueuedRun(b: Bundle, clients: nat) returns (states: seq<Server>, acts: seq<Action>)
    ensures IsRun(states, acts, clients)
    ensures var s := states[|acts|];
            s.clients == clients && s.phase.Serving? && s.queue == [b] && s.workers == Pool(WORKER_COUNT)
  {
    states, acts := AdmittedRun(b, clients);
    states, acts := Then(states, acts, clients, TrySend(0));
  }

  /** A bundle can be accepted and never sent although `Shutdown` returns nil. */
  lemma BundleCanBeAbandoned(b: Bundle, clients: nat) returns (states: seq<Server>, acts: seq<Action>)
    ensures IsRun(states, acts, clients) && states[|acts|].phase.ReturnedNil? && states[|acts|].queue == [b]
  {
    states, acts := QueuedRun(b, clients);
    states, acts := ClosingRun(states, acts, clients);
    states, acts := QueueCanBeAbandoned(states, acts, clients);
  }

  /** A worker has taken the only bundle, before any shutdown. */
  lemma TakenRun(b: Bundle, clients: nat) returns (states: seq<Server>, acts: seq<Action>)
    ensures IsRun(states, acts, clients)
    ensures var s := states[|acts|];
            && s.clients == clients && s.phase.Serving? && s.simulating > 0
            && 0 in s.workers && s.workers[0].Broadcasting? && s.workers[0].spawned == 0
  {
    states, acts := QueuedRun(b, clients);
    PoolIsIdle(WORKER_COUNT);
    states, acts := Then(states, acts, clients, Take(0));
  }

  /** With any relay configured a hash can come too late: its request is under way when the shutdown begins. */
  lemma HashCanComeLate(b: Bundle, clients: nat) returns (states: seq<Server>, acts: seq<Action>)
    requires clients > 0
    ensures IsRun(states, acts, clients) && LateHash(states[|acts|])
  {
    states, acts := TakenRun(b, clients);
    states, acts := Then(states, acts, clients, Spawn(0));
    states, acts := Then(states, acts, clients, Attempt(0, 0));
    assert CanRecord(states[|acts|]) by {
      assert 0 in states[|acts|].workers[0].sending;
    }
    states, acts := ClosingRun(states, acts, clients);
    states, acts := TimeoutLetsAHashComeLate(states, acts, clients);
  }

  /** A simulation can come too late although `Shutdown` returned nil. */
  lemma SimCanComeLate(b: Bundle, clients: nat) returns (states: seq<Server>, acts: seq<Action>)
    ensures IsRun(states, acts, clients) && states[|acts|].phase.ReturnedNil? && LateSim(states[|acts|])
  {
    states, acts := TakenRun(b, clients);
    states, acts := ClosingRun(states, acts, clients);
    states, acts := SimOutlivesShutdown(states, acts, clients);
  }
}
