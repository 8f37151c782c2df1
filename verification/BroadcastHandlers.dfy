/** Where a handler's bundle goes, and until when the workers serve: by the steps made so far and the queue's length. */
module BroadcastHandlers {
  import opened Bundles
  import opened BroadcastQueue
  import opened BroadcastShutdown

  /** `closed` was stored before step n. */
  ghost predicate FlagStored(acts: seq<Action>, n: int)
    requires 0 <= n <= |acts|
  {
    exists k {:trigger acts[k]} :: 0 <= k < n && acts[k].StoreClosed?
  }

  ghost predicate ContextCancelled(acts: seq<Action>, n: int)
    requires 0 <= n <= |acts|
  {
    exists k {:trigger acts[k]} :: 0 <= k < n && acts[k].Cancel?
  }

  ghost predicate ChannelClosed(acts: seq<Action>, n: int)
    requires 0 <= n <= |acts|
  {
    exists k {:trigger acts[k]} :: 0 <= k < n && acts[k].CloseQueue?
  }

  /** What the phase says is what the steps of `Shutdown` so far have done, in its order. */
  ghost predicate PhaseFollows(s: Server, acts: seq<Action>, n: int)
    requires 0 <= n <= |acts|
  {
    && (s.Closed() <==> FlagStored(acts, n))
    && (s.Cancelled() <==> ContextCancelled(acts, n))
    && (s.QueueClosed() <==> ChannelClosed(acts, n))
    && (ChannelClosed(acts, n) ==> ContextCancelled(acts, n)) && (ContextCancelled(acts, n) ==> FlagStored(acts, n))
  }

  lemma PhaseSteps(s: Server, a: Action)
    requires Enabled(s, a)
    ensures var t := Apply(s, a);
            && (t.Closed() <==> s.Closed() || a.StoreClosed?)
            && (t.Cancelled() <==> s.Cancelled() || a.Cancel?)
            && (t.QueueClosed() <==> s.QueueClosed() || a.CloseQueue?)
            && (a.Cancel? ==> s.Closed()) && (a.CloseQueue? ==> s.Cancelled())
  {
  }

  lemma {:induction false} RunPhase(states: seq<Server>, acts: seq<Action>, clients: nat, n: nat)
    requires IsRun(states, acts, clients) && n <= |acts|
    ensures PhaseFollows(states[n], acts, n)
  {
    if n > 0 {
      RunPhase(states, acts, clients, n - 1);
      PhaseSteps(states[n - 1], acts[n - 1]);
      assert FlagStored(acts, n) <==> FlagStored(acts, n - 1) || acts[n - 1].StoreClosed?;
      assert ContextCancelled(acts, n) <==> ContextCancelled(acts, n - 1) || acts[n - 1].Cancel?;
      assert ChannelClosed(acts, n) <==> ChannelClosed(acts, n - 1) || acts[n - 1].CloseQueue?;
    }
  }

  /** The four ends a handler's bundle can come to are as they were. */
  predicate SameEnds(s: Server, t: Server) {
    && t.enqueued == s.enqueued && t.droppedFull == s.droppedFull && t.lost == s.lost
    && t.droppedAtShutdown == s.droppedAtShutdown
  }

  /** Appending one element changes a sequence. */
  lemma Grows<T>(q: seq<T>, x: T)
    ensures q + [x] != q
  {
    assert |q + [x]| == |q| + 1;
  }

  /**
    A send goes by the channel alone: while it is open the bundle is queued if and only if fewer than 4096 are,
    and dropped as full if and only if 4096 are; on a closed channel, and only there, it is lost and the
    handler panics.
   */
  lemma SendGoesByTheQueue(states: seq<Server>, acts: seq<Action>, clients: nat, n: nat)
    requires IsRun(states, acts, clients) && n < |acts| && acts[n].TrySend?
    ensures acts[n].h in states[n].handlers && states[n].handlers[acts[n].h].Admitted?
    ensures var s, t, b, closed := states[n], states[n + 1], states[n].handlers[acts[n].h].bundle, ChannelClosed(acts, n);
            && (t.enqueued == s.enqueued + [b] <==> !closed && |s.queue| < 4096)
            && (t.queue == s.queue + [b] <==> !closed && |s.queue| < 4096)
            && (t.droppedFull == s.droppedFull + [b] <==> !closed && |s.queue| == 4096)
            && (t.lost == s.lost + [b] <==> closed)
            && t.droppedAtShutdown == s.droppedAtShutdown
            && t.handlers == s.handlers[acts[n].h := if closed then Crashed else Reading]
  {
    var s, b := states[n], states[n].handlers[acts[n].h].bundle;
    assert Enabled(s, acts[n]) && states[n + 1] == Apply(s, acts[n]);
    RunPhase(states, acts, clients, n);
    RunConserves(states, acts, clients, n);
    Grows(s.enqueued, b);
    Grows(s.queue, b);
    Grows(s.droppedFull, b);
    Grows(s.lost, b);
  }

  /** A loaded flag drops the bundle if and only if it was stored; otherwise the handler goes on to send. */
  lemma LoadGoesByTheFlag(states: seq<Server>, acts: seq<Action>, clients: nat, n: nat)
    requires IsRun(states, acts, clients) && n < |acts| && acts[n].LoadClosed?
    ensures acts[n].h in states[n].handlers && states[n].handlers[acts[n].h].Received?
    ensures var s, t, h, b := states[n], states[n + 1], acts[n].h, states[n].handlers[acts[n].h].bundle;
            && (t.droppedAtShutdown == s.droppedAtShutdown + [b] <==> FlagStored(acts, n))
            && (t.droppedAtShutdown == s.droppedAtShutdown <==> !FlagStored(acts, n))
            && t.handlers == s.handlers[h := if FlagStored(acts, n) then Reading else Admitted(b)]
            && t.enqueued == s.enqueued && t.droppedFull == s.droppedFull && t.lost == s.lost
  {
    var s, b := states[n], states[n].handlers[acts[n].h].bundle;
    assert Enabled(s, acts[n]) && states[n + 1] == Apply(s, acts[n]);
    RunPhase(states, acts, clients, n);
    Grows(s.droppedAtShutdown, b);
  }

  /** No other step queues, drops or loses a bundle. */
  lemma NothingElseDrops(states: seq<Server>, acts: seq<Action>, clients: nat, n: nat)
    requires IsRun(states, acts, clients) && n < |acts| && !acts[n].TrySend? && !acts[n].LoadClosed?
    ensures SameEnds(states[n], states[n + 1])
  {
    assert Enabled(states[n], acts[n]) && states[n + 1] == Apply(states[n], acts[n]);
  }

  /** Until the context is cancelled all 64 workers serve: each waits for a bundle or broadcasts one. */
  lemma {:induction false} AllServeUntilCancelled(states: seq<Server>, acts: seq<Action>, clients: nat, n: nat)
    requires IsRun(states, acts, clients) && n <= |acts| && !ContextCancelled(acts, n)
    ensures states[n].wg == 64
    ensures forall w :: 0 <= w < 64 ==> w in states[n].workers && !states[n].workers[w].Exited?
  {
    RunCounted(states, acts, clients, n);
    if n == 0 {
      PoolIsIdle(WORKER_COUNT);
    } else {
      var a := acts[n - 1];
      assert !ContextCancelled(acts, n - 1);
      AllServeUntilCancelled(states, acts, clients, n - 1);
      RunPhase(states, acts, clients, n - 1);
      assert Enabled(states[n - 1], a) && states[n] == Apply(states[n - 1], a);
    }
  }

  /** So a queued bundle can be taken whenever one of them is not broadcasting. */
  lemma IdleWorkersTake(states: seq<Server>, acts: seq<Action>, clients: nat, n: nat, w: nat)
    requires IsRun(states, acts, clients) && n <= |acts| && !ContextCancelled(acts, n)
    requires states[n].queue != [] && w in states[n].workers && !states[n].workers[w].Broadcasting?
    ensures Enabled(states[n], Take(w))
    ensures var t := Apply(states[n], Take(w));
            t.workers[w].Broadcasting? && t.workers[w].bundle == states[n].queue[0] && t.queue == states[n].queue[1..]
  {
    AllServeUntilCancelled(states, acts, clients, n);
    RunCounted(states, acts, clients, n);
  }
}
