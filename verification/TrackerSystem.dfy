/** The loop behind its two bounded channels: what producers offer, what is dropped, what the loop takes. */
module TrackerSystem {
  import opened TrackerTypes
  import opened TrackerLoop
  import opened TrackerLedger
  import opened TrackerConfluence

  /** Channels, loop and logs; `log` is the run the loop has made and `loop` the state it is in. */
  datatype System = System(
    hashCh: seq<HashEvent>, simCh: seq<SimEvent>, doneClosed: bool, loop: Loop, log: seq<LoopEvent>,
    offered: seq<HashEvent>, dropped: seq<HashEvent>, accepted: seq<HashEvent>, acceptedSims: seq<SimEvent>)

  const EMPTY := System([], [], false, INIT, [], [], [], [], [])

  datatype Action =
    | OfferHash(hash: HashEvent)
    | OfferSim(sim: SimEvent)
    | CloseDone
    | ReceiveHash(stamp: int, received: int)
    | ReceiveSim(simReceived: int)
    | FlushNow(force: bool, now: int, ops: seq<WriteOp>, evictNow: int)

  /** Is this a case of the loop's `select`, ready in `s`? */
  predicate Ready(s: System, a: Action) {
    (a.ReceiveHash? && s.hashCh != []) || (a.ReceiveSim? && s.simCh != []) || (a.FlushNow? && (a.force ==> s.doneClosed))
  }

  /** The loop event a ready case makes. */
  function EventFor(s: System, a: Action): LoopEvent
    requires Ready(s, a)
  {
    match a
    case ReceiveHash(stamp, received) => HashArrives(s.hashCh[0], stamp, received)
    case ReceiveSim(received) => SimArrives(s.simCh[0], received)
    case FlushNow(force, now, ops, evictNow) => Flush(force, now, ops, evictNow)
  }

  /** Producers may always offer; `select` may take any ready case; the done channel is closed once. */
  ghost predicate Enabled(s: System, a: Action, start: int) {
    || a.OfferHash? || a.OfferSim?
    || (a.CloseDone? && !s.doneClosed)
    || (Ready(s, a) && !Stopped(s.log) && LegalEvent(s.loop, ClockOf(s.log, start), EventFor(s, a)))
  }

  function Act(s: System, a: Action): System {
    match a
    case OfferHash(e) =>
      var room := |s.hashCh| < CHANNEL_CAPACITY;
      s.(offered := s.offered + [e],
         hashCh := if room then s.hashCh + [e] else s.hashCh,
         accepted := if room then s.accepted + [e] else s.accepted,
         dropped := if room then s.dropped else s.dropped + [e])
    case OfferSim(m) =>
      var room := |s.simCh| < CHANNEL_CAPACITY;
      s.(simCh := if room then s.simCh + [m] else s.simCh,
         acceptedSims := if room then s.acceptedSims + [m] else s.acceptedSims)
    case CloseDone => s.(doneClosed := true)
    case ReceiveHash(_, _) =>
      if s.hashCh == [] then s else Turn(s, EventFor(s, a)).(hashCh := s.hashCh[1..])
    case ReceiveSim(_) =>
      if s.simCh == [] then s else Turn(s, EventFor(s, a)).(simCh := s.simCh[1..])
    case FlushNow(_, _, _, _) =>
      if !Ready(s, a) then s else Turn(s, EventFor(s, a))
  }

  function Turn(s: System, ev: LoopEvent): System {
    s.(log := s.log + [ev], loop := Step(REAL, s.loop, ev))
  }

  /** `trace` are the states passed through by the possible sequence of actions `acts`. */
  ghost predicate IsTrace(trace: seq<System>, acts: seq<Action>, start: int) {
    && |trace| == |acts| + 1 && trace[0] == EMPTY
    && forall i {:trigger acts[i]} :: 0 <= i < |acts| ==>
         Enabled(trace[i], acts[i], start) && trace[i + 1] == Act(trace[i], acts[i])
  }

  lemma TraceSnoc(trace: seq<System>, acts: seq<Action>, start: int, a: Action)
    requires IsTrace(trace, acts, start) && Enabled(trace[|acts|], a, start)
    ensures IsTrace(trace + [Act(trace[|acts|], a)], acts + [a], start)
  {
    var longer, more := trace + [Act(trace[|acts|], a)], acts + [a];
    forall i | 0 <= i < |more|
      ensures Enabled(longer[i], more[i], start) && longer[i + 1] == Act(longer[i], more[i])
    {
      if i < |acts| {
        assert more[i] == acts[i] && longer[i] == trace[i] && longer[i + 1] == trace[i + 1];
      } else {
        assert more[i] == a && longer[i] == trace[|acts|];
      }
    }
  }

  /** Both channels are queues: what was accepted is what the loop took, in order, then what waits. */
  ghost predicate Queued(s: System, start: int) {
    && Legal(s.log, start) && s.loop == Run(REAL, s.log) && (Stopped(s.log) ==> s.doneClosed)
    && HashesQueued(s) && SimsQueued(s)
  }

  predicate HashesQueued(s: System) {
    && |s.hashCh| <= 1024
    && s.accepted == HashesOf(s.log) + s.hashCh
    && multiset(s.offered) == multiset(s.dropped) + multiset(s.accepted)
  }

  predicate SimsQueued(s: System) {
    |s.simCh| <= 1024 && s.acceptedSims == SimsOf(s.log) + s.simCh
  }

  lemma LogSnoc(log: seq<LoopEvent>, ev: LoopEvent)
    ensures HashesOf(log + [ev]) == HashesOf(log) + if ev.HashArrives? then [ev.hash] else []
    ensures SimsOf(log + [ev]) == SimsOf(log) + if ev.SimArrives? then [ev.sim] else []
  {
    assert (log + [ev])[..|log|] == log;
  }

  lemma LegalSnoc(log: seq<LoopEvent>, ev: LoopEvent, start: int)
    ensures Legal(log + [ev], start) <==>
              Legal(log, start) && !Stopped(log) && LegalEvent(Run(REAL, log), ClockOf(log, start), ev)
    ensures Run(REAL, log + [ev]) == Step(REAL, Run(REAL, log), ev)
  {
    assert (log + [ev])[..|log|] == log;
  }

  lemma OfferedHashQueued(s: System, e: HashEvent)
    requires HashesQueued(s)
    ensures HashesQueued(Act(s, OfferHash(e)))
  {
    var t := Act(s, OfferHash(e));
    assert multiset(t.offered) == multiset(s.offered) + multiset{e};
    if |s.hashCh| < CHANNEL_CAPACITY {
      assert HashesOf(s.log) + (s.hashCh + [e]) == (HashesOf(s.log) + s.hashCh) + [e];
      assert multiset(t.accepted) == multiset(s.accepted) + multiset{e};
    } else {
      assert multiset(t.dropped) == multiset(s.dropped) + multiset{e};
    }
  }

  lemma OfferedSimQueued(s: System, m: SimEvent)
    requires SimsQueued(s)
    ensures SimsQueued(Act(s, OfferSim(m)))
  {
    assert SimsOf(s.log) + (s.simCh + [m]) == (SimsOf(s.log) + s.simCh) + [m];
  }

  /** Taking the head of a queue onto the end of what was taken. */
  lemma HeadMoves<T>(taken: seq<T>, queue: seq<T>)
    requires queue != []
    ensures (taken + [queue[0]]) + queue[1..] == taken + queue
  {
  }

  lemma LoopKeepsHashes(s: System, a: Action)
    requires HashesQueued(s) && Ready(s, a)
    ensures HashesQueued(Act(s, a))
  {
    LogSnoc(s.log, EventFor(s, a));
    if a.ReceiveHash? {
      HeadMoves(HashesOf(s.log), s.hashCh);
    }
  }

  lemma LoopKeepsSims(s: System, a: Action)
    requires SimsQueued(s) && Ready(s, a)
    ensures SimsQueued(Act(s, a))
  {
    LogSnoc(s.log, EventFor(s, a));
    if a.ReceiveSim? {
      HeadMoves(SimsOf(s.log), s.simCh);
    }
  }

  /** In every state of every interleaving, the channels are queues and the loop's run is a legal one. */
  lemma {:induction false} ChannelsAreQueues(trace: seq<System>, acts: seq<Action>, start: int, n: nat)
    requires IsTrace(trace, acts, start) && n <= |acts|
    ensures Queued(trace[n], start)
  {
    if n > 0 {
      var s, a := trace[n - 1], acts[n - 1];
      ChannelsAreQueues(trace, acts, start, n - 1);
      if a.OfferHash? {
        OfferedHashQueued(s, a.hash);
      } else if a.OfferSim? {
        OfferedSimQueued(s, a.sim);
      } else if !a.CloseDone? {
        LoopKeepsHashes(s, a);
        LoopKeepsSims(s, a);
        LegalSnoc(s.log, EventFor(s, a), start);
      }
    }
  }

  /**
    Conservation across the channel and the maps, for every interleaving of producers and loop: each hash
    event offered was dropped on a full channel, waits in the channel, waits in `pending`, was overwritten,
    or was handed to the writer; nothing is lost or made twice.
   */
  lemma OfferedHashesAreConserved(trace: seq<System>, acts: seq<Action>, start: int, n: nat)
    requires IsTrace(trace, acts, start) && n <= |acts|
    ensures var s := trace[n];
            && multiset(s.offered) == multiset(s.dropped) + multiset(s.hashCh) + Accounted(s.loop)
            && |s.hashCh| <= 1024
  {
    ChannelsAreQueues(trace, acts, start, n);
    var s := trace[n];
    HashesAreConserved(REAL, s.log);
    assert multiset(s.accepted) == multiset(HashesOf(s.log)) + multiset(s.hashCh);
  }

  /**
    What stopping guarantees: once the forced flush ran, `pending` is empty and the only accepted events
    neither written nor overwritten are the at most 1024 still in the channel.
   */
  lemma AfterStopOnlyTheChannelIsLeft(trace: seq<System>, acts: seq<Action>, start: int, n: nat)
    requires IsTrace(trace, acts, start) && n <= |acts| && Stopped(trace[n].log)
    ensures var s := trace[n];
            && s.loop.pending == map[]
            && multiset(s.accepted) == multiset(s.hashCh) + multiset(s.loop.overwritten) + Written(s.loop.handed)
            && |s.hashCh| <= 1024
  {
    ChannelsAreQueues(trace, acts, start, n);
    var s := trace[n];
    NothingWaitsAfterStop(s.log, start);
    assert multiset(s.accepted) == multiset(HashesOf(s.log)) + multiset(s.hashCh);
  }

  /** Stopping does not drain the channel: an event accepted before it can stay unwritten for good. */
  lemma StopCanLeaveEventsBehind(e: HashEvent) returns (trace: seq<System>)
    ensures IsTrace(trace, [OfferHash(e), CloseDone, FlushNow(true, 0, [], 0)], 0)
    ensures Stopped(trace[3].log) && trace[3].hashCh == [e] && trace[3].loop.handed == []
  {
    var a, b, c := OfferHash(e), CloseDone, FlushNow(true, 0, [], 0);
    var s1 := Act(EMPTY, a);
    var s2 := Act(s1, b);
    assert s2.loop == INIT && Expired(INIT.pending, 0, true) == {} == KeysOf([]);
    var s3 := Act(s2, c);
    trace := [EMPTY, s1, s2, s3];
    var acts := [a, b, c];
    assert acts[0] == a && acts[1] == b && acts[2] == c;
  }
}
