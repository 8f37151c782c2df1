/** Runs, with the ticker on time throughout, in which eviction shows: in the state, then in what is written. */
module TrackerWitness {
  import opened TrackerTypes
  import opened TrackerLoop
  import opened TrackerCache
  import opened TrackerOrder
  import opened TrackerStale

  const TICK: nat := SECOND / 2

  /** A flush at the k-th tick that finds nothing to write. */
  function IdleFlush(k: nat): LoopEvent {
    Flush(false, k * TICK, [], k * TICK)
  }

  /** The ticks after `from`, n of them. */
  function Ticks(from: nat, n: nat): seq<LoopEvent> {
    if n == 0 then [] else Ticks(from, n - 1) + [IdleFlush(from + n)]
  }

  /** A possible run, on time, that has just flushed at tick k, or started. */
  ghost predicate OnTime(evs: seq<LoopEvent>, k: nat) {
    && Legal(evs, 0) && !Stopped(evs) && Paced(evs, 0, TICK)
    && LastFlush(evs, 0) == k * TICK && ClockOf(evs, 0) <= (k + 1) * TICK
  }

  /** One more event, before the next tick or at it. */
  lemma Next(evs: seq<LoopEvent>, k: nat, ev: LoopEvent)
    requires OnTime(evs, k) && LegalEvent(Run(REAL, evs), ClockOf(evs, 0), ev)
    requires if ev.Flush? then !ev.force && ev.now == ev.evictNow == (k + 1) * TICK else ClockAfter(ev) <= (k + 1) * TICK
    ensures OnTime(evs + [ev], if ev.Flush? then k + 1 else k)
    ensures Run(REAL, evs + [ev]) == Step(REAL, Run(REAL, evs), ev)
    ensures Run(NEVER_EVICTS, evs + [ev]) == Step(NEVER_EVICTS, Run(NEVER_EVICTS, evs), ev)
  {
    assert (evs + [ev])[..|evs|] == evs;
  }

  /** Every waiting entry is younger than 2 s at `now`. */
  ghost predicate AllYoung(s: Loop, now: int) {
    forall key :: key in s.pending ==> s.pending[key].receivedAt > now - 2_000_000_000
  }

  /** A tick that finds nothing expired writes nothing and evicts what is too old. */
  lemma TickIdles(evs: seq<LoopEvent>, k: nat, id: string)
    requires OnTime(evs, k) && AllYoung(Run(REAL, evs), (k + 1) * TICK)
    ensures var s, t := Run(REAL, evs), Run(REAL, evs + [IdleFlush(k + 1)]);
            && OnTime(evs + [IdleFlush(k + 1)], k + 1)
            && t.pending == s.pending && t.handed == s.handed && t.simCache == Kept(s.simCache, (k + 1) * TICK)
    ensures KnownSim(evs + [IdleFlush(k + 1)], id) == KnownSim(evs, id)
  {
    var ev := IdleFlush(k + 1);
    assert Expired(Run(REAL, evs).pending, ev.now, false) == {} == KeysOf([]);
    Next(evs, k, ev);
    assert (evs + [ev])[..|evs|] == evs;
    LapsedSnoc(evs + [ev], id);
  }

  /** Nothing was written, and only the cache, if anything, lost entries. */
  ghost predicate Idled(s: Loop, t: Loop) {
    && t.pending == s.pending && t.handed == s.handed
    && forall i :: i in t.simCache ==> i in s.simCache && t.simCache[i] == s.simCache[i]
  }

  ghost predicate FreshAt(s: Loop, now: int) {
    forall i :: i in s.simCache ==> now - 30_000_000_000 <= s.simCache[i].receivedAt
  }

  lemma KeptIdles(s: Loop, t: Loop, u: Loop, now: int)
    requires Idled(s, t) && u.pending == t.pending && u.handed == t.handed && u.simCache == Kept(t.simCache, now)
    ensures Idled(s, u) && FreshAt(u, now)
  {
  }

  lemma {:induction false} TicksIdle(evs: seq<LoopEvent>, k: nat, n: nat, id: string)
    requires OnTime(evs, k) && AllYoung(Run(REAL, evs), (k + n) * TICK)
    ensures OnTime(evs + Ticks(k, n), k + n) && Idled(Run(REAL, evs), Run(REAL, evs + Ticks(k, n)))
    ensures n > 0 ==> FreshAt(Run(REAL, evs + Ticks(k, n)), (k + n) * TICK)
    ensures KnownSim(evs + Ticks(k, n), id) == KnownSim(evs, id)
  {
    if n == 0 {
      assert evs + Ticks(k, 0) == evs;
    } else {
      var before := evs + Ticks(k, n - 1);
      TicksIdle(evs, k, n - 1, id);
      TickIdles(before, k + n - 1, id);
      assert evs + Ticks(k, n) == before + [IdleFlush(k + n)];
      KeptIdles(Run(REAL, evs), Run(REAL, before), Run(REAL, evs + Ticks(k, n)), (k + n) * TICK);
    }
  }

  /** An entry waiting alone outlasts n ticks, if it is young enough. */
  lemma OneWaits(evs: seq<LoopEvent>, k: nat, n: nat, key: Key, id: string)
    requires OnTime(evs, k) && Run(REAL, evs).pending.Keys == {key}
    requires Run(REAL, evs).pending[key].receivedAt > (k + n) * TICK - 2_000_000_000
    ensures OnTime(evs + Ticks(k, n), k + n)
    ensures Run(REAL, evs + Ticks(k, n)).pending == Run(REAL, evs).pending
    ensures Run(REAL, evs + Ticks(k, n)).handed == Run(REAL, evs).handed
    ensures KnownSim(evs + Ticks(k, n), id) == KnownSim(evs, id)
  {
    TicksIdle(evs, k, n, id);
  }

  // ---------- in the state ----------

  /** The simulation, then ticks for 31 s: it has been evicted. */
  function Forgotten(m: SimEvent): seq<LoopEvent> {
    [SimArrives(m, 0)] + Ticks(0, 62)
  }

  const LATE: int := 31 * SECOND + 200_000_000

  /** And the hash, 200 ms after the last tick. */
  function Stale(e: HashEvent, m: SimEvent): seq<LoopEvent> {
    Forgotten(m) + [HashArrives(e, LATE, LATE)]
  }

  lemma SimIsForgotten(m: SimEvent)
    ensures var s := Run(REAL, Forgotten(m));
            OnTime(Forgotten(m), 62) && s.pending == map[] && s.handed == [] && m.bundleID !in s.simCache
    ensures KnownSim(Forgotten(m), m.bundleID) == EventSim(m)
  {
    var sim := SimArrives(m, 0);
    Next([], 0, sim);
    assert [] + [sim] == [sim] && [sim][..0] == [];
    assert LatestSim([sim], m.bundleID) == 0;
    var s := Run(REAL, [sim]);
    assert s.pending == map[] && s.handed == [] && s.simCache == map[m.bundleID := CacheEntry(m, 0)];
    TicksIdle([sim], 0, 62, m.bundleID);
  }

  /** The records both trackers make of that hash. */
  lemma StaleRecords(e: HashEvent, m: SimEvent)
    requires e.bundleID == m.bundleID && EventSim(m) != BLANK
    ensures SimOf(RecordFor(Run(REAL, Forgotten(m)).simCache, e, LATE)) == BLANK
    ensures SimOf(RecordFor(Run(NEVER_EVICTS, Forgotten(m)).simCache, e, LATE)) == EventSim(m)
  {
    SimIsForgotten(m);
    RecordsAgree(Forgotten(m), e, LATE);
  }

  lemma StaleSteps(e: HashEvent, m: SimEvent)
    ensures OnTime(Stale(e, m), 62)
    ensures Run(REAL, Stale(e, m)).pending == map[KeyOf(e) := PendingEntry(RecordFor(Run(REAL, Forgotten(m)).simCache, e, LATE), LATE)]
    ensures Run(REAL, Stale(e, m)).handed == []
    ensures KeyOf(e) in Run(NEVER_EVICTS, Stale(e, m)).pending
    ensures Run(NEVER_EVICTS, Stale(e, m)).pending[KeyOf(e)].record == RecordFor(Run(NEVER_EVICTS, Forgotten(m)).simCache, e, LATE)
  {
    SimIsForgotten(m);
    Next(Forgotten(m), 62, HashArrives(e, LATE, LATE));
  }

  lemma KnownStays(evs: seq<LoopEvent>, ev: LoopEvent, id: string)
    requires !ev.SimArrives?
    ensures KnownSim(evs + [ev], id) == KnownSim(evs, id)
  {
    assert (evs + [ev])[..|evs|] == evs;
    LapsedSnoc(evs + [ev], id);
  }

  /**
    Eviction can show although no tick is missed: a hash taken 31.2 s after its simulation waits with a blank
    record, where the tracker that never evicts holds the simulation.
   */
  lemma EvictionCanShow(e: HashEvent, m: SimEvent)
    requires e.bundleID == m.bundleID && EventSim(m) != BLANK
    ensures Legal(Stale(e, m), 0) && Paced(Stale(e, m), 0, TICK)
    ensures var r, f := Run(REAL, Stale(e, m)).pending, Run(NEVER_EVICTS, Stale(e, m)).pending;
            && KeyOf(e) in r && SimOf(r[KeyOf(e)].record) == BLANK
            && KeyOf(e) in f && SimOf(f[KeyOf(e)].record) == EventSim(m)
  {
    StaleSteps(e, m);
    StaleRecords(e, m);
  }

  // ---------- in what is written ----------

  /** One entry, expired, flushed alone. */
  lemma FlushOnlyOne(s: Loop, key: Key, flush: LoopEvent)
    requires flush.Flush? && s.pending.Keys == {key} && s.pending[key].receivedAt <= flush.now - 2_000_000_000
    requires flush.ops == [WriteOp(key, true, true)] && Coherent(s) && s.handed == []
    ensures IsOrder(flush.ops, Expired(s.pending, flush.now, flush.force))
    ensures var out := Step(REAL, s, flush).handed; |out| == 1 && out[0].saved && out[0].entry == s.pending[key]
  {
    var op := flush.ops[0];
    KeysOfSnoc([], op);
    assert [] + [op] == [op];
    FlushAllSnoc(REAL, s, [], op, flush.now, flush.force);
    HandsOver(REAL, s, op, flush.now, flush.force);
  }

  /** After `evs` only that hash waits, blank although its simulation is known. */
  ghost predicate WaitsBlank(evs: seq<LoopEvent>, e: HashEvent, m: SimEvent) {
    && KnownSim(evs, e.bundleID) == EventSim(m)
    && var s := Run(REAL, evs);
       && s.handed == [] && s.pending.Keys == {KeyOf(e)} && s.pending[KeyOf(e)].receivedAt == LATE
       && SimOf(s.pending[KeyOf(e)].record) == BLANK
  }

  lemma StaleWaits(e: HashEvent, m: SimEvent)
    requires e.bundleID == m.bundleID && EventSim(m) != BLANK
    ensures OnTime(Stale(e, m), 62) && WaitsBlank(Stale(e, m), e, m)
  {
    StaleSteps(e, m);
    StaleRecords(e, m);
    StaleIsKnown(e, m);
  }

  /** It still waits four ticks later. */
  lemma TicksWait(evs: seq<LoopEvent>, k: nat, n: nat, e: HashEvent, m: SimEvent)
    requires OnTime(evs, k) && WaitsBlank(evs, e, m) && LATE > (k + n) * TICK - 2_000_000_000
    ensures OnTime(evs + Ticks(k, n), k + n) && WaitsBlank(evs + Ticks(k, n), e, m)
  {
    OneWaits(evs, k, n, KeyOf(e), e.bundleID);
  }

  /** At the next tick it is written, and saved. */
  lemma WrittenBlank(evs: seq<LoopEvent>, k: nat, e: HashEvent, m: SimEvent)
    requires OnTime(evs, k) && WaitsBlank(evs, e, m) && LATE <= (k + 1) * TICK - 2_000_000_000
    ensures var flush := Flush(false, (k + 1) * TICK, [WriteOp(KeyOf(e), true, true)], (k + 1) * TICK);
            && OnTime(evs + [flush], k + 1) && KnownSim(evs + [flush], e.bundleID) == EventSim(m)
            && var out := Run(REAL, evs + [flush]).handed;
               |out| == 1 && out[0].saved && KeyOf(EventOf(out[0].entry.record)) == KeyOf(e) && SimOf(out[0].entry.record) == BLANK
  {
    var flush := Flush(false, (k + 1) * TICK, [WriteOp(KeyOf(e), true, true)], (k + 1) * TICK);
    AlwaysCoherent(REAL, evs);
    FlushOnlyOne(Run(REAL, evs), KeyOf(e), flush);
    Next(evs, k, flush);
    KnownStays(evs, flush, e.bundleID);
  }

  lemma StaleIsKnown(e: HashEvent, m: SimEvent)
    requires e.bundleID == m.bundleID
    ensures KnownSim(Stale(e, m), e.bundleID) == EventSim(m)
  {
    SimIsForgotten(m);
    KnownStays(Forgotten(m), HashArrives(e, LATE, LATE), e.bundleID);
  }

  /** At the fifth it is written, blank although its simulation had come. */
  lemma BlankLineCanBeWritten(e: HashEvent, m: SimEvent) returns (evs: seq<LoopEvent>)
    requires e.bundleID == m.bundleID && EventSim(m) != BLANK
    ensures Legal(evs, 0) && Paced(evs, 0, TICK) && KnownSim(evs, e.bundleID) == EventSim(m)
    ensures var out := Run(REAL, evs).handed;
            |out| == 1 && out[0].saved && KeyOf(EventOf(out[0].entry.record)) == KeyOf(e) && SimOf(out[0].entry.record) == BLANK
  {
    var before, four := Stale(e, m), 4;
    StaleWaits(e, m);
    TicksWait(before, 62, four, e, m);
    WrittenBlank(before + Ticks(62, four), 66, e, m);
    evs := before + Ticks(62, four) + [Flush(false, 67 * TICK, [WriteOp(KeyOf(e), true, true)], 67 * TICK)];
  }
}
