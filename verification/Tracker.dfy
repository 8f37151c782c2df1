/** The tracker object: its channels, its two-level map, its cache and its files, changed in place. */
module TrackerObject {
  import opened TrackerTypes
  import opened TrackerLoop
  import opened TrackerMaps
  import opened TrackerLedger
  import opened TrackerSystem

  /** The cases of the loop's `select`. */
  datatype Case = Done | Hash | Sim | Tick

  class Tracker {
    var hashCh: seq<HashEvent>
    var simCh: seq<SimEvent>
    var doneClosed: bool
    var pending: Nested
    var simCache: map<string, SimCacheEntry>
    var files: map<string, seq<BundleRecord>>
    var stopped: bool
    var clock: int

    // What the loop has done so far, and every action that led here.
    ghost var flat: map<Key, PendingEntry>
    ghost var handed: seq<Handed>
    ghost var overwritten: seq<HashEvent>
    ghost var steps: nat
    ghost var acts: seq<Action>
    ghost var trace: seq<System>
    ghost const start: int

    /** The loop state this object is in. */
    ghost function View(): Loop
      reads this
    {
      Loop(flat, simCache, files, handed, overwritten, steps)
    }

    /** This object is where a possible sequence of actions leads, and no inner map is empty. */
    ghost predicate Valid()
      reads this
    {
      IsTrace(trace, acts, start) && Shows(trace[|acts|]) && Nests()
    }

    /** The two-level map holds exactly the flat one, and no inner map is empty. */
    ghost predicate Nests()
      reads this`pending, this`flat
    {
      flat == Flat(pending) && NoEmpty(pending)
    }

    /** The fields are those of the system state `s`. */
    ghost predicate Shows(s: System)
      reads this
    {
      && s.hashCh == hashCh && s.simCh == simCh && s.doneClosed == doneClosed
      && Stopped(s.log) == stopped && ClockOf(s.log, start) <= clock
      && View() == s.loop
    }

    constructor (now: int)
      ensures Valid() && acts == [] && start == now
    {
      hashCh, simCh, doneClosed := [], [], false;
      pending, simCache, files := map[], map[], map[];
      stopped, clock := false, now;
      flat, handed, overwritten, steps, acts, trace := map[], [], [], 0, [], [EMPTY];
      start := now;
    }

    /** Read the clock, which never goes back. */
    method Now() returns (t: int)
      modifies this`clock
      ensures old(clock) <= t == clock
    {
      t :| clock <= t;
      clock := t;
    }

    // ---------- producers ----------

    /** Never blocks: the event is queued if there is room and dropped if there is not. */
    method RecordHash(e: HashEvent)
      requires Valid()
      modifies this`hashCh, this`acts, this`trace
      ensures Valid() && acts == old(acts) + [OfferHash(e)]
      ensures hashCh == if |old(hashCh)| < 1024 then old(hashCh) + [e] else old(hashCh)
    {
      if |hashCh| < CHANNEL_CAPACITY {
        hashCh := hashCh + [e];
      }
      TraceSnoc(trace, acts, start, OfferHash(e));
      acts, trace := acts + [OfferHash(e)], trace + [Act(trace[|acts|], OfferHash(e))];
    }

    method RecordSim(e: SimEvent)
      requires Valid()
      modifies this`simCh, this`acts, this`trace
      ensures Valid() && acts == old(acts) + [OfferSim(e)]
      ensures simCh == if |old(simCh)| < 1024 then old(simCh) + [e] else old(simCh)
    {
      if |simCh| < CHANNEL_CAPACITY {
        simCh := simCh + [e];
      }
      TraceSnoc(trace, acts, start, OfferSim(e));
      acts, trace := acts + [OfferSim(e)], trace + [Act(trace[|acts|], OfferSim(e))];
    }

    /** Go panics when a channel is closed twice. */
    method Stop()
      requires Valid() && !doneClosed
      modifies this`doneClosed, this`acts, this`trace
      ensures Valid() && acts == old(acts) + [CloseDone] && doneClosed
    {
      doneClosed := true;
      TraceSnoc(trace, acts, start, CloseDone);
      acts, trace := acts + [CloseDone], trace + [Act(trace[|acts|], CloseDone)];
    }

    // ---------- writing ----------

    /** The open file of a builder, opened on first use; opening can fail. */
    method GetFile(builder: string) returns (open: bool, ghost openOk: bool)
      modifies this`files
      ensures open == (builder in old(files) || openOk)
      ensures files == if builder !in old(files) && openOk then old(files)[builder := []] else old(files)
    {
      openOk := false;
      if builder in files {
        return true, openOk;
      }
      var couldOpen: bool := *;
      openOk := couldOpen;
      if couldOpen {
        files := files[builder := []];
      }
      open := couldOpen;
    }

    /** Marshalling or writing can fail; the line is then not in the file. */
    method WriteRecord(r: BundleRecord) returns (ghost openOk: bool, ghost writeOk: bool)
      modifies this`files
      ensures files == Append(old(files), r, openOk, writeOk)
    {
      var open;
      open, openOk := GetFile(r.builder);
      writeOk := false;
      if !open {
        return;
      }
      var written: bool := *;
      writeOk := written;
      if written {
        files := files[r.builder := files[r.builder] + [r]];
      }
    }

    // ---------- the three arms of the loop ----------

    /** The six assignments by which simulation values reach a record. */
    static method Fill(r: BundleRecord, coinbaseDiff: string, ethToBuilder: string, gasFees: string,
                       gasUsed: nat, gasPrice: string, stateBlock: nat) returns (out: BundleRecord)
      ensures SimOf(out) == SimFields(coinbaseDiff, ethToBuilder, gasFees, gasUsed, gasPrice, stateBlock)
      ensures EventOf(out) == EventOf(r) && out.timestamp == r.timestamp
    {
      out := r.(coinbaseDiffETH := coinbaseDiff);
      out := out.(ethToBuilderETH := ethToBuilder);
      out := out.(gasFeesETH := gasFees);
      out := out.(totalGasUsed := gasUsed);
      out := out.(bundleGasPrice := gasPrice);
      out := out.(simStateBlock := stateBlock);
    }

    /** The record of a new hash event, pre-filled if its simulation is already cached. */
    method MakeRecord(e: HashEvent, timestamp: int) returns (record: BundleRecord)
      ensures record == RecordFor(simCache, e, timestamp)
    {
      record := BundleRecord(e.bundleID, e.builder, e.bundleHash, e.lastTxHash, e.targetBlock, timestamp,
                             "", "", "", 0, "", 0, e.transactions);
      if e.bundleID in simCache {
        var sim := simCache[e.bundleID];
        record := Fill(record, sim.coinbaseDiffETH, sim.ethToBuilderETH, sim.gasFeesETH,
                       sim.totalGasUsed, sim.bundleGasPrice, sim.stateBlock);
        RecordDetermined(record, Enrich(NewRecord(e, timestamp), sim));
      }
    }

    /** Make sure the bundle has an inner map; an empty one shows nothing. */
    method EnsureBundle(id: string)
      requires Nests()
      modifies this`pending
      ensures flat == Flat(pending) && NoEmptyBut(pending, id)
    {
      if id !in pending {
        pending := pending[id := map[]];
        FlatDropEmpty(pending, id);
        assert pending - {id} == old(pending);
      }
    }

    /** Store an entry under its two keys, replacing what was there. */
    method Insert(e: HashEvent, entry: PendingEntry)
      requires flat == Flat(pending) && NoEmptyBut(pending, e.bundleID)
      modifies this`pending, this`flat, this`overwritten
      ensures Nests() && flat == old(flat)[KeyOf(e) := entry]
      ensures overwritten == old(overwritten) + if KeyOf(e) in old(flat) then [EventOf(old(flat)[KeyOf(e)].record)] else []
    {
      FlatPut(pending, e.bundleID, e.builder, entry);
      pending := pending[e.bundleID := pending[e.bundleID][e.builder := entry]];
      assert e.builder in pending[e.bundleID];
      if KeyOf(e) in flat {
        overwritten := overwritten + [EventOf(flat[KeyOf(e)].record)];
      }
      flat := flat[KeyOf(e) := entry];
    }

    method TakeHashEvent(e: HashEvent) returns (ghost stamp: int, ghost received: int)
      requires Nests()
      modifies this`pending, this`flat, this`clock, this`overwritten
      ensures Nests() && flat == old(flat)[KeyOf(e) := PendingEntry(RecordFor(simCache, e, stamp), received)]
      ensures overwritten == old(overwritten) + if KeyOf(e) in old(flat) then [EventOf(old(flat)[KeyOf(e)].record)] else []
      ensures old(clock) <= stamp <= received == clock
    {
      EnsureBundle(e.bundleID);
      var timestamp := Now();
      var record := MakeRecord(e, timestamp);
      var receivedAt := Now();
      stamp, received := timestamp, receivedAt;
      Insert(e, PendingEntry(record, receivedAt));
    }

    method TakeSimEvent(e: SimEvent) returns (ghost received: int)
      requires Nests()
      modifies this`pending, this`flat, this`simCache, this`clock
      ensures Nests() && flat == EnrichAll(old(flat), e.bundleID, CacheEntry(e, received))
      ensures simCache == old(simCache)[e.bundleID := CacheEntry(e, received)]
      ensures old(clock) <= received == clock
    {
      var receivedAt := Now();
      received := receivedAt;
      var entry := SimCacheEntry(e.coinbaseDiffETH, e.ethToBuilderETH, e.gasFeesETH, e.totalGasUsed,
                                 e.bundleGasPrice, e.stateBlock, receivedAt);
      simCache := simCache[e.bundleID := entry];
      if e.bundleID in pending {
        EnrichPending(e, entry);
      } else {
        FlatEnrich(pending, pending, e.bundleID, entry);
      }
    }

    /** Copy a new simulation into every pending record of its bundle. */
    method EnrichPending(e: SimEvent, ghost entry: SimCacheEntry)
      requires Nests() && e.bundleID in pending && CachedSim(entry) == EventSim(e)
      modifies this`pending, this`flat
      ensures Nests() && flat == EnrichAll(old(flat), e.bundleID, entry)
    {
      var builders := EnrichBuilders(pending[e.bundleID], e, entry);
      FlatEnrich(pending, pending[e.bundleID := builders], e.bundleID, entry);
      assert builders.Keys == pending[e.bundleID].Keys != {};
      pending := pending[e.bundleID := builders];
      flat := EnrichAll(flat, e.bundleID, entry);
    }

    static method EnrichBuilders(was: Builders, e: SimEvent, ghost entry: SimCacheEntry) returns (builders: Builders)
      requires CachedSim(entry) == EventSim(e)
      ensures builders.Keys == was.Keys
      ensures forall b :: b in was ==> builders[b] == was[b].(record := Enrich(was[b].record, entry))
    {
      builders := was;
      var todo := builders.Keys;
      while todo != {}
        invariant builders.Keys == was.Keys && todo <= was.Keys
        invariant forall b :: b in todo ==> builders[b] == was[b]
        invariant forall b :: b in was && b !in todo ==>
          builders[b] == was[b].(record := Enrich(was[b].record, entry))
        decreases |todo|
      {
        var b :| b in todo;
        var record := Fill(builders[b].record, e.coinbaseDiffETH, e.ethToBuilderETH, e.gasFeesETH,
                           e.totalGasUsed, e.bundleGasPrice, e.stateBlock);
        RecordDetermined(record, Enrich(was[b].record, entry));
        builders := builders[b := builders[b].(record := record)];
        todo := todo - {b};
      }
    }

    // ---------- flush ----------

    /** Write one entry and delete it from its inner map. */
    method WriteEntry(bundleID: string, builder: string, ghost now: int, ghost force: bool) returns (ghost op: WriteOp)
      requires flat == Flat(pending) && bundleID in pending && builder in pending[bundleID]
      modifies this`pending, this`flat, this`files, this`handed
      ensures flat == Flat(pending) && pending == old(pending)[bundleID := old(pending)[bundleID] - {builder}]
      ensures op.key == Key(bundleID, builder) && View() == FlushOne(REAL, old(View()), op, now, force)
    {
      var entry := pending[bundleID][builder];
      if bundleID in simCache {
        var sim := simCache[bundleID];
        var record := Fill(entry.record, sim.coinbaseDiffETH, sim.ethToBuilderETH, sim.gasFeesETH,
                           sim.totalGasUsed, sim.bundleGasPrice, sim.stateBlock);
        RecordDetermined(record, Enrich(entry.record, sim));
        entry := entry.(record := record);
      }
      assert entry == FlushedEntry(REAL, View(), Key(bundleID, builder));
      ghost var openOk, writeOk := WriteRecord(entry.record);
      op := WriteOp(Key(bundleID, builder), openOk, writeOk);
      handed := handed + [Handed(entry, now, force, steps, (entry.record.builder in old(files) || openOk) && writeOk)];
      FlatDelete(pending, bundleID, builder);
      pending := pending[bundleID := pending[bundleID] - {builder}];
      flat := flat - {Key(bundleID, builder)};
    }

    /** The writes `ops` lead from the loop state `before` to this one. */
    ghost predicate Flushing(before: Loop, ops: seq<WriteOp>, now: int, force: bool)
      reads this
    {
      Visits(before, ops) && View() == FlushAll(REAL, before, ops, now, force)
    }

    /** The body of the inner loop: skip an entry that can still wait, write any other. */
    method FlushEntry(bundleID: string, builder: string, deadline: int, ghost now: int, force: bool,
                      ghost before: Loop, ghost done: seq<WriteOp>)
      returns (ghost ops: seq<WriteOp>)
      requires flat == Flat(pending) && bundleID in pending && builder in pending[bundleID]
      requires Flushing(before, done, now, force)
      modifies this`pending, this`flat, this`files, this`handed
      ensures flat == Flat(pending) && Flushing(before, ops, now, force)
      ensures var all := old(pending);
              pending == if !force && all[bundleID][builder].receivedAt > deadline then all
                         else all[bundleID := all[bundleID] - {builder}]
    {
      ops := done;
      if !force && pending[bundleID][builder].receivedAt > deadline {
        return;
      }
      ghost var op := WriteEntry(bundleID, builder, now, force);
      VisitsSnoc(REAL, before, done, op, now, force);
      ops := done + [op];
    }

    /** The inner loop: one bundle's builders, in any order. */
    method FlushBuilders(bundleID: string, deadline: int, ghost now: int, force: bool, ghost before: Loop, ghost done: seq<WriteOp>)
      returns (ghost ops: seq<WriteOp>)
      requires flat == Flat(pending) && bundleID in pending && Flushing(before, done, now, force)
      modifies this`pending, this`flat, this`files, this`handed
      ensures flat == Flat(pending) && Flushing(before, ops, now, force)
      ensures pending == old(pending)[bundleID := Unexpired(old(pending)[bundleID], deadline, force)]
    {
      ops := done;
      ghost var all, was, left := pending, pending[bundleID], pending[bundleID];
      var todo := pending[bundleID].Keys;
      assert all == all[bundleID := left];
      while todo != {}
        invariant pending == all[bundleID := left] && PartSwept(was, left, todo, deadline, force)
        invariant flat == Flat(pending) && Flushing(before, ops, now, force)
        decreases |todo|
      {
        var builder :| builder in todo;
        PartSweptStep(was, left, todo, builder, deadline, force);
        todo := todo - {builder};
        PutTwice(all, bundleID, left, left - {builder});
        ops := FlushEntry(bundleID, builder, deadline, now, force, before, ops);
        left := if force || left[builder].receivedAt <= deadline then left - {builder} else left;
      }
      assert left == Unexpired(was, deadline, force);
    }

    /** One bundle: its builders, then the inner map itself if nothing is left in it. */
    method FlushBundle(bundleID: string, deadline: int, ghost now: int, force: bool, ghost before: Loop, ghost done: seq<WriteOp>)
      returns (ghost ops: seq<WriteOp>)
      requires flat == Flat(pending) && bundleID in pending && Flushing(before, done, now, force)
      requires deadline == now - HOLD
      modifies this`pending, this`flat, this`files, this`handed
      ensures flat == Flat(pending) && Flushing(before, ops, now, force)
      ensures pending == SweepOne(old(pending), bundleID, deadline, force)
    {
      ops := FlushBuilders(bundleID, deadline, now, force, before, done);
      if pending[bundleID] == map[] {
        FlatDropEmpty(pending, bundleID);
        pending := pending - {bundleID};
        assert pending == old(pending) - {bundleID};
      }
    }

    /** The outer loop over the bundles, in any order. */
    method WriteExpired(deadline: int, ghost now: int, force: bool) returns (ghost ops: seq<WriteOp>)
      requires Nests() && deadline == now - HOLD
      modifies this`pending, this`flat, this`files, this`handed
      ensures Nests() && Flushing(old(View()), ops, now, force)
      ensures KeysOf(ops) == Expired(old(flat), now, force)
    {
      ghost var before, was := View(), pending;
      ops := [];
      var todo := pending.Keys;
      while todo != {}
        invariant flat == Flat(pending) && Flushing(before, ops, now, force)
        invariant Swept(was, pending, todo, deadline, force)
        decreases |todo|
      {
        var bundleID :| bundleID in todo;
        SweptStep(was, pending, todo, bundleID, deadline, force);
        todo := todo - {bundleID};
        ops := FlushBundle(bundleID, deadline, now, force, before, ops);
      }
      FlatUnexpired(was, pending, deadline, force);
      VisitedAreGone(REAL, before, ops, now, force);
    }

    /** Evict cached simulations received before the deadline, in any order. */
    method Evict(evictBefore: int, ghost evictNow: int)
      requires evictBefore == evictNow - SIM_TTL
      modifies this`simCache
      ensures simCache == Kept(old(simCache), evictNow)
      ensures forall id :: id in old(simCache) ==>
        (id in simCache <==> evictNow - old(simCache)[id].receivedAt <= 30_000_000_000)
      ensures forall id :: id in simCache ==> id in old(simCache) && simCache[id] == old(simCache)[id]
    {
      var todo := simCache.Keys;
      ghost var was := simCache;
      while todo != {}
        invariant todo <= was.Keys && simCache.Keys <= was.Keys
        invariant forall id :: id in was ==> (id in simCache <==> id in todo || evictBefore <= was[id].receivedAt)
        invariant forall id :: id in simCache ==> simCache[id] == was[id]
        decreases |todo|
      {
        var id :| id in todo;
        todo := todo - {id};
        if simCache[id].receivedAt < evictBefore {
          simCache := simCache - {id};
        }
      }
    }

    /** Write what expired, then evict; two clock readings. */
    method FlushAndEvict(force: bool) returns (ghost ev: LoopEvent)
      requires Nests()
      modifies this`pending, this`flat, this`files, this`handed, this`simCache, this`clock
      ensures Nests() && ev.Flush? && ev.force == force
      ensures LegalEvent(old(View()), old(clock), ev) && ev.evictNow == clock
      ensures View().(steps := steps + 1) == Step(REAL, old(View()), ev)
    {
      ghost var before := View();
      var now := Now();
      assert View() == before;
      ghost var ops := WriteExpired(now - HOLD, now, force);
      ghost var mid := View();
      var evictNow := Now();
      Evict(evictNow - SIM_TTL, evictNow);
      ev := Flush(force, now, ops, evictNow);
      assert View() == mid.(simCache := Kept(mid.simCache, evictNow));
    }

    // ---------- the loop ----------

    /** Log a turn of the loop that the fields already show. */
    ghost method Commit(a: Action, ev: LoopEvent)
      requires IsTrace(trace, acts, start)
      requires var s := trace[|acts|];
        && Ready(s, a) && ev == EventFor(s, a) && !Stopped(s.log)
        && LegalEvent(s.loop, ClockOf(s.log, start), ev) && ClockAfter(ev) <= clock
        && View() == Step(REAL, s.loop, ev)
        && hashCh == (if a.ReceiveHash? then s.hashCh[1..] else s.hashCh)
        && simCh == (if a.ReceiveSim? then s.simCh[1..] else s.simCh)
        && doneClosed == s.doneClosed && stopped == (a.FlushNow? && a.force)
      modifies this`acts, this`trace
      ensures IsTrace(trace, acts, start) && Shows(trace[|acts|]) && acts == old(acts) + [a]
    {
      TraceSnoc(trace, acts, start, a);
      acts, trace := acts + [a], trace + [Act(trace[|acts|], a)];
    }

    method HandleHash(e: HashEvent) returns (ghost stamp: int, ghost received: int)
      requires Nests()
      modifies this`pending, this`flat, this`clock, this`overwritten, this`steps
      ensures Nests() && View() == Step(REAL, old(View()), HashArrives(e, stamp, received))
      ensures old(clock) <= stamp <= received == clock
    {
      stamp, received := TakeHashEvent(e);
      steps := steps + 1;
      HashStep(old(View()), View(), e, stamp, received);
    }

    method HandleSim(e: SimEvent) returns (ghost received: int)
      requires Nests()
      modifies this`pending, this`flat, this`simCache, this`clock, this`steps
      ensures Nests() && View() == Step(REAL, old(View()), SimArrives(e, received))
      ensures old(clock) <= received == clock
    {
      received := TakeSimEvent(e);
      steps := steps + 1;
      SimStep(old(View()), View(), e, received);
    }

    method ReceiveHashEvent() returns (ghost stamp: int, ghost received: int)
      requires Valid() && !stopped && hashCh != []
      modifies this
      ensures Valid() && !stopped && acts == old(acts) + [ReceiveHash(stamp, received)]
    {
      var e := hashCh[0];
      ghost var s := trace[|acts|];
      assert ClockOf(s.log, start) <= clock && View() == s.loop;
      stamp, received := HandleHash(e);
      hashCh := hashCh[1..];
      assert View() == Step(REAL, s.loop, HashArrives(e, stamp, received));
      Commit(ReceiveHash(stamp, received), HashArrives(e, stamp, received));
    }

    method ReceiveSimEvent() returns (ghost received: int)
      requires Valid() && !stopped && simCh != []
      modifies this
      ensures Valid() && !stopped && acts == old(acts) + [ReceiveSim(received)]
    {
      var e := simCh[0];
      simCh := simCh[1..];
      received := HandleSim(e);
      Commit(ReceiveSim(received), SimArrives(e, received));
    }

    method FlushPending(force: bool) returns (ghost ev: LoopEvent)
      requires Valid() && !stopped && (force ==> doneClosed)
      modifies this
      ensures Valid() && stopped == force
      ensures ev.Flush? && acts == old(acts) + [FlushNow(force, ev.now, ev.ops, ev.evictNow)]
    {
      ev := FlushAndEvict(force);
      steps := steps + 1;
      stopped := force;
      Commit(FlushNow(force, ev.now, ev.ops, ev.evictNow), ev);
    }

    /**
      One turn of the loop: `select` takes any case that is ready; the ticker may always be.  Only the done case
      ends the loop, and it always does, after a forced flush.
     */
    method Select() returns (chosen: Case)
      requires Valid() && !stopped
      modifies this
      ensures Valid() && |acts| == |old(acts)| + 1 && old(acts) == acts[..|old(acts)|]
      ensures var a := acts[|old(acts)|];
        match chosen
        case Done => old(doneClosed) && a.FlushNow? && a.force && stopped && pending == map[]
        case Hash => old(hashCh) != [] && a.ReceiveHash? && !stopped
        case Sim => old(simCh) != [] && a.ReceiveSim? && !stopped
        case Tick => a.FlushNow? && !a.force && !stopped
    {
      if {
        case doneClosed =>
          chosen := Done;
          ghost var _ := FlushPending(true);
          AfterStopOnlyTheChannelIsLeft(trace, acts, start, |acts|);
          FlatOccupied(pending);
        case hashCh != [] =>
          chosen := Hash;
          ghost var _, _ := ReceiveHashEvent();
        case simCh != [] =>
          chosen := Sim;
          ghost var _ := ReceiveSimEvent();
        case true =>
          chosen := Tick;
          ghost var _ := FlushPending(false);
      }
    }

    /**
      Any `turns` steps of the goroutine and of the producers, in any interleaving: every hash event offered
      is accounted for, and once the goroutine has returned nothing is pending.
     */
    method RunWithProducers(turns: nat)
      requires Valid()
      modifies this
      ensures Valid() && old(acts) <= acts
      ensures var s := trace[|acts|];
              multiset(s.offered) == multiset(s.dropped) + multiset(hashCh) + Accounted(View())
      ensures stopped ==> pending == map[]
    {
      var left := turns;
      while left > 0
        invariant Valid() && old(acts) <= acts
        decreases left
      {
        if {
          case !stopped => var _ := Select();
          case !doneClosed => Stop();
          case true => var e: HashEvent := *; RecordHash(e);
          case true => var e: SimEvent := *; RecordSim(e);
        }
        left := left - 1;
      }
      OfferedHashesAreConserved(trace, acts, start, |acts|);
      if stopped {
        AfterStopOnlyTheChannelIsLeft(trace, acts, start, |acts|);
        FlatOccupied(pending);
      }
    }
  }
}
