/**
  What the simulation cache does to the written records.  The tracker copies simulation values in three
  places and evicts its cache on a deadline of its own; this module compares it with a tracker that never
  evicts and with one that does not copy at flush, and with the history of simulations itself.
 */
module TrackerCache {
  import opened TrackerTypes
  import opened TrackerLoop

  // ---------- coherence of the two maps ----------

  /** Every entry's record belongs to its two keys. */
  ghost predicate WellKeyed(s: Loop) {
    forall k :: k in s.pending ==> KeyOf(EventOf(s.pending[k].record)) == k
  }

  /** A bundle in both maps has exactly the cached values in all its pending entries. */
  ghost predicate Coherent(s: Loop) {
    forall k :: k in s.pending && k.bundleID in s.simCache ==>
      SimOf(s.pending[k].record) == CachedSim(s.simCache[k.bundleID])
  }

  lemma StepCoherent(p: Policy, s: Loop, ev: LoopEvent)
    requires WellKeyed(s) && Coherent(s)
    ensures WellKeyed(Step(p, s, ev)) && Coherent(Step(p, s, ev))
  {
    if ev.Flush? {
      FlushAllKeeps(p, s, ev.ops, ev.now, ev.force);
    }
  }

  /** In every reachable state, under every policy, the maps are well keyed and coherent. */
  lemma {:induction false} AlwaysCoherent(p: Policy, evs: seq<LoopEvent>)
    ensures WellKeyed(Run(p, evs)) && Coherent(Run(p, evs))
  {
    if evs != [] {
      AlwaysCoherent(p, evs[..|evs| - 1]);
      StepCoherent(p, Run(p, evs[..|evs| - 1]), evs[|evs| - 1]);
    }
  }

  // ---------- two trackers side by side ----------

  /** Everything but the cache: what is pending, handed over, on disk and overwritten. */
  function Visible(s: Loop): Loop {
    s.(simCache := map[])
  }

  /** Flushing coherent states that differ only in their caches gives the same writes, re-enriching or not. */
  lemma {:induction false} FlushIgnoresCache(p: Policy, r: Loop, q: Policy, f: Loop, ops: seq<WriteOp>, now: int, force: bool)
    requires Coherent(r) && Coherent(f) && Visible(r) == Visible(f)
    ensures Visible(FlushAll(p, r, ops, now, force)) == Visible(FlushAll(q, f, ops, now, force))
  {
    if ops != [] {
      var n := |ops| - 1;
      FlushIgnoresCache(p, r, q, f, ops[..n], now, force);
      FlushAllKeeps(p, r, ops[..n], now, force);
      FlushAllKeeps(q, f, ops[..n], now, force);
      var r', f' := FlushAll(p, r, ops[..n], now, force), FlushAll(q, f, ops[..n], now, force);
      assert Coherent(r') && Coherent(f');
      assert r'.pending == f'.pending && r'.files == f'.files && r'.handed == f'.handed;
      if ops[n].key in r'.pending {
        assert FlushedEntry(p, r', ops[n].key) == r'.pending[ops[n].key] == FlushedEntry(q, f', ops[n].key);
      }
    }
  }

  /** Dropping the copy made inside `flush` changes nothing in any run. */
  lemma {:induction false} ReenrichmentIsRedundant(evs: seq<LoopEvent>)
    ensures Run(REAL, evs) == Run(NO_REENRICHMENT, evs)
  {
    if evs != [] {
      var before, ev := evs[..|evs| - 1], evs[|evs| - 1];
      ReenrichmentIsRedundant(before);
      var s := Run(REAL, before);
      if ev.Flush? {
        AlwaysCoherent(REAL, before);
        FlushIgnoresCache(REAL, s, NO_REENRICHMENT, s, ev.ops, ev.now, ev.force);
        FlushAllKeeps(REAL, s, ev.ops, ev.now, ev.force);
        FlushAllKeeps(NO_REENRICHMENT, s, ev.ops, ev.now, ev.force);
        assert FlushAll(REAL, s, ev.ops, ev.now, ev.force) == FlushAll(NO_REENRICHMENT, s, ev.ops, ev.now, ev.force);
      }
    }
  }

  // ---------- the cache against the history ----------

  /** Position of the latest simulation of a bundle in a run, or -1. */
  function LatestSim(evs: seq<LoopEvent>, id: string): (i: int)
    ensures -1 <= i < |evs|
    ensures i >= 0 ==> evs[i].SimArrives? && evs[i].sim.bundleID == id
    ensures forall j :: i < j < |evs| ==> !(evs[j].SimArrives? && evs[j].sim.bundleID == id)
  {
    if evs == [] then -1
    else if evs[|evs| - 1].SimArrives? && evs[|evs| - 1].sim.bundleID == id then |evs| - 1
    else LatestSim(evs[..|evs| - 1], id)
  }

  /** The latest simulation values of a bundle, blank if there are none. */
  function KnownSim(evs: seq<LoopEvent>, id: string): SimFields {
    if LatestSim(evs, id) < 0 then BLANK else EventSim(evs[LatestSim(evs, id)].sim)
  }

  /** A flush made after the latest simulation of the bundle read a clock more than 30 s past it. */
  ghost predicate Lapsed(evs: seq<LoopEvent>, id: string) {
    LatestSim(evs, id) >= 0 &&
    exists j :: LatestSim(evs, id) < j < |evs| && Outlived(evs, LatestSim(evs, id), j)
  }

  predicate Outlived(evs: seq<LoopEvent>, i: int, j: int)
    requires 0 <= i < |evs| && 0 <= j < |evs| && evs[i].SimArrives?
  {
    evs[j].Flush? && evs[i].received + 30_000_000_000 < evs[j].evictNow
  }

  lemma LapsedSnoc(evs: seq<LoopEvent>, id: string)
    requires evs != []
    ensures var before, ev := evs[..|evs| - 1], evs[|evs| - 1];
            var i := LatestSim(before, id);
            && (ev.SimArrives? && ev.sim.bundleID == id ==> LatestSim(evs, id) == |evs| - 1 && !Lapsed(evs, id))
            && (!(ev.SimArrives? && ev.sim.bundleID == id) ==>
                  && LatestSim(evs, id) == i
                  && KnownSim(evs, id) == KnownSim(before, id)
                  && (Lapsed(evs, id) <==> Lapsed(before, id) || (i >= 0 && Outlived(evs, i, |evs| - 1))))
  {
    var before, ev := evs[..|evs| - 1], evs[|evs| - 1];
    var i := LatestSim(before, id);
    if !(ev.SimArrives? && ev.sim.bundleID == id) && i >= 0 {
      assert forall j :: i < j < |before| ==> (Outlived(before, i, j) <==> Outlived(evs, i, j));
    }
  }

  /**
    The cache is a function of the history: it holds exactly the latest simulation of every bundle that has
    one, except, in the tracker as it is, those that have lapsed.
   */
  lemma {:induction false} CacheIsHistory(p: Policy, evs: seq<LoopEvent>, id: string)
    ensures var s := Run(p, evs);
            var i := LatestSim(evs, id);
            && (id in s.simCache <==> i >= 0 && !(p.evicts && Lapsed(evs, id)))
            && (id in s.simCache ==> s.simCache[id] == CacheEntry(evs[i].sim, evs[i].received))
  {
    if evs != [] {
      var before, ev := evs[..|evs| - 1], evs[|evs| - 1];
      CacheIsHistory(p, before, id);
      LapsedSnoc(evs, id);
      if ev.Flush? {
        FlushAllKeeps(p, Run(p, before), ev.ops, ev.now, ev.force);
      }
    }
  }

  // ---------- refinement of the tracker that never evicts ----------

  /** A hash event taken when its bundle's latest simulation, not blank, has been evicted. */
  ghost predicate StaleHash(evs: seq<LoopEvent>, h: int)
    requires 0 <= h < |evs|
  {
    && evs[h].HashArrives?
    && Lapsed(evs[..h], evs[h].hash.bundleID)
    && KnownSim(evs[..h], evs[h].hash.bundleID) != BLANK
  }

  ghost predicate NoStaleHash(evs: seq<LoopEvent>) {
    forall h :: 0 <= h < |evs| ==> !StaleHash(evs, h)
  }

  /** Same pending entries, same writes, same files, same overwritten events. */
  ghost predicate SameOutput(evs: seq<LoopEvent>) {
    Visible(Run(REAL, evs)) == Visible(Run(NEVER_EVICTS, evs))
  }

  lemma NoStaleHashPrefix(evs: seq<LoopEvent>, n: nat)
    requires NoStaleHash(evs) && n <= |evs|
    ensures NoStaleHash(evs[..n])
  {
    forall h | 0 <= h < n ensures !StaleHash(evs[..n], h) {
      assert evs[..n][..h] == evs[..h];
      assert !StaleHash(evs, h);
    }
  }

  /** The hash taken next would be stale. */
  ghost predicate StaleNext(before: seq<LoopEvent>, e: HashEvent) {
    Lapsed(before, e.bundleID) && KnownSim(before, e.bundleID) != BLANK
  }

  /** The records the two trackers make of one hash, whatever else they hold: equal unless the hash is stale. */
  lemma RecordsAgree(before: seq<LoopEvent>, e: HashEvent, stamp: int)
    ensures var cache := Run(REAL, before).simCache;
            var r, f := RecordFor(cache, e, stamp), RecordFor(Run(NEVER_EVICTS, before).simCache, e, stamp);
            && EventOf(r) == EventOf(f) == e && r.timestamp == f.timestamp
            && SimOf(f) == KnownSim(before, e.bundleID)
            && (!StaleNext(before, e) ==> r == f)
            && (StaleNext(before, e) ==> e.bundleID !in cache && SimOf(r) == BLANK)
  {
    CacheIsHistory(REAL, before, e.bundleID);
    CacheIsHistory(NEVER_EVICTS, before, e.bundleID);
    if !StaleNext(before, e) {
      RecordDetermined(RecordFor(Run(REAL, before).simCache, e, stamp), RecordFor(Run(NEVER_EVICTS, before).simCache, e, stamp));
    }
  }

  /** The entry under which one hash, taken by both trackers, is pending. */
  lemma HashAgrees(before: seq<LoopEvent>, ev: LoopEvent)
    requires SameOutput(before) && ev.HashArrives?
    ensures var r, f := Step(REAL, Run(REAL, before), ev), Step(NEVER_EVICTS, Run(NEVER_EVICTS, before), ev);
            var key := KeyOf(ev.hash);
            && (!StaleNext(before, ev.hash) ==> Visible(r) == Visible(f))
            && (StaleNext(before, ev.hash) ==>
                  && key in r.pending && SimOf(r.pending[key].record) == BLANK
                  && key in f.pending && SimOf(f.pending[key].record) == KnownSim(before, ev.hash.bundleID)
                  && Visible(r) != Visible(f))
  {
    RecordsAgree(before, ev.hash, ev.stamp);
    var r, f := Run(REAL, before), Run(NEVER_EVICTS, before);
    assert r.pending == f.pending && r.overwritten == f.overwritten;
    var r', f' := Step(REAL, r, ev), Step(NEVER_EVICTS, f, ev);
    assert Visible(r').pending == r'.pending && Visible(f').pending == f'.pending;
  }

  lemma OtherAgrees(before: seq<LoopEvent>, ev: LoopEvent)
    requires SameOutput(before) && !ev.HashArrives?
    ensures Visible(Step(REAL, Run(REAL, before), ev)) == Visible(Step(NEVER_EVICTS, Run(NEVER_EVICTS, before), ev))
  {
    var r, f := Run(REAL, before), Run(NEVER_EVICTS, before);
    assert r.pending == f.pending;
    if ev.Flush? {
      AlwaysCoherent(REAL, before);
      AlwaysCoherent(NEVER_EVICTS, before);
      FlushIgnoresCache(REAL, r, NEVER_EVICTS, f, ev.ops, ev.now, ev.force);
    }
  }

  /** Without stale hashes the tracker's output is that of the tracker that never evicts. */
  lemma {:induction false} NoStaleHashAgrees(evs: seq<LoopEvent>)
    requires NoStaleHash(evs)
    ensures SameOutput(evs)
  {
    if evs != [] {
      var n := |evs| - 1;
      NoStaleHashPrefix(evs, n);
      NoStaleHashAgrees(evs[..n]);
      if evs[n].HashArrives? {
        assert !StaleHash(evs, n);
        HashAgrees(evs[..n], evs[n]);
      } else {
        OtherAgrees(evs[..n], evs[n]);
      }
    }
  }

  /** The two trackers agree after every event of the run. */
  ghost predicate AlwaysSameOutput(evs: seq<LoopEvent>) {
    forall n :: 0 <= n <= |evs| ==> SameOutput(evs[..n])
  }

  /** A stale hash shows at once. */
  lemma StaleHashShows(evs: seq<LoopEvent>, h: nat)
    requires h < |evs| && StaleHash(evs, h) && SameOutput(evs[..h])
    ensures !SameOutput(evs[..h + 1])
  {
    assert evs[..h + 1][..h] == evs[..h];
    HashAgrees(evs[..h], evs[h]);
    assert Run(REAL, evs[..h + 1]) == Step(REAL, Run(REAL, evs[..h]), evs[h]);
    assert Run(NEVER_EVICTS, evs[..h + 1]) == Step(NEVER_EVICTS, Run(NEVER_EVICTS, evs[..h]), evs[h]);
  }

  /**
    Exactly when eviction does not show: the tracker and the one that never evicts have the same visible
    state after every event of the run if and only if the run takes no stale hash.
   */
  lemma RefinesNeverEvictingIff(evs: seq<LoopEvent>)
    ensures AlwaysSameOutput(evs) <==> NoStaleHash(evs)
  {
    if NoStaleHash(evs) {
      forall n | 0 <= n <= |evs| ensures SameOutput(evs[..n]) {
        NoStaleHashPrefix(evs, n);
        NoStaleHashAgrees(evs[..n]);
      }
    } else {
      var h :| 0 <= h < |evs| && StaleHash(evs, h);
      if SameOutput(evs[..h]) {
        StaleHashShows(evs, h);
      }
    }
  }

  /** The documented regime: every hash is taken at most 30 s after the latest simulation of its bundle. */
  ghost predicate Prompt(evs: seq<LoopEvent>) {
    forall h :: 0 <= h < |evs| && evs[h].HashArrives? ==>
      var i := LatestSim(evs[..h], evs[h].hash.bundleID);
      i >= 0 ==> evs[h].stamp <= evs[i].received + 30_000_000_000
  }

  lemma {:induction false} ClockIsMonotone(evs: seq<LoopEvent>, start: int, j: nat)
    requires Legal(evs, start) && j < |evs|
    ensures start <= ClockAfter(evs[j]) <= ClockOf(evs, start)
    decreases |evs|
  {
    var n := |evs| - 1;
    if j < n {
      ClockIsMonotone(evs[..n], start, j);
    } else if n > 0 {
      ClockIsMonotone(evs[..n], start, n - 1);
    }
  }

  lemma PromptRunsHaveNoStaleHash(evs: seq<LoopEvent>, start: int)
    requires Legal(evs, start) && Prompt(evs)
    ensures NoStaleHash(evs)
  {
    forall h | 0 <= h < |evs| ensures !StaleHash(evs, h) {
      LegalAt(evs, start, h);
      if evs[h].HashArrives? && Lapsed(evs[..h], evs[h].hash.bundleID) {
        var i := LatestSim(evs[..h], evs[h].hash.bundleID);
        var j :| i < j < h && Outlived(evs[..h], i, j);
        ClockIsMonotone(evs[..h], start, j);
        assert false;
      }
    }
  }

  // ---------- what the written records carry ----------

  /** Handed entries carry `sim` values allowed by `ok`, judged on the run up to the flush that wrote them. */
  ghost predicate CarryLatest(evs: seq<LoopEvent>, handed: seq<Handed>, blankToo: bool) {
    forall i :: 0 <= i < |handed| ==>
      && handed[i].step < |evs|
      && Carries(evs[..handed[i].step], handed[i].entry.record, blankToo)
  }

  ghost predicate Carries(evs: seq<LoopEvent>, r: BundleRecord, blankToo: bool) {
    SimOf(r) == KnownSim(evs, r.bundleID) || (blankToo && SimOf(r) == BLANK)
  }

  /**
    Whatever the timing, no written record carries outdated simulation values: they are those of the latest
    simulation processed before the flush that wrote it, or blank.
   */
  lemma {:induction false} NeverOutdated(evs: seq<LoopEvent>, start: int)
    requires Legal(evs, start)
    ensures forall k :: k in Run(REAL, evs).pending ==> Carries(evs, Run(REAL, evs).pending[k].record, true)
    ensures CarryLatest(evs, Run(REAL, evs).handed, true)
  {
    if evs != [] {
      var n := |evs| - 1;
      var before, ev := evs[..n], evs[n];
      NeverOutdated(before, start);
      PendingCarries(before, ev, true);
      HandedCarries(before, ev, start, true);
      assert before + [ev] == evs;
    }
  }

  /** In a run without stale hashes every written record carries the latest simulation, blank only if there is none. */
  lemma {:induction false} WrittenRecordsCarryLatestSim(evs: seq<LoopEvent>, start: int)
    requires Legal(evs, start) && NoStaleHash(evs)
    ensures forall k :: k in Run(REAL, evs).pending ==> Carries(evs, Run(REAL, evs).pending[k].record, false)
    ensures CarryLatest(evs, Run(REAL, evs).handed, false)
  {
    if evs != [] {
      var n := |evs| - 1;
      var before, ev := evs[..n], evs[n];
      NoStaleHashPrefix(evs, n);
      assert !StaleHash(evs, n);
      WrittenRecordsCarryLatestSim(before, start);
      PendingCarries(before, ev, false);
      HandedCarries(before, ev, start, false);
      assert before + [ev] == evs;
    }
  }

  lemma PendingCarries(before: seq<LoopEvent>, ev: LoopEvent, blankToo: bool)
    requires forall k :: k in Run(REAL, before).pending ==> Carries(before, Run(REAL, before).pending[k].record, blankToo)
    requires !blankToo && ev.HashArrives? ==>
               !(Lapsed(before, ev.hash.bundleID) && KnownSim(before, ev.hash.bundleID) != BLANK)
    ensures var t := Run(REAL, before + [ev]);
            forall k :: k in t.pending ==> Carries(before + [ev], t.pending[k].record, blankToo)
  {
    var evs := before + [ev];
    assert evs[..|before|] == before;
    var s, t := Run(REAL, before), Run(REAL, evs);
    AlwaysCoherent(REAL, before);
    forall k | k in t.pending ensures Carries(evs, t.pending[k].record, blankToo) {
      AlwaysCoherent(REAL, evs);
      LapsedSnoc(evs, k.bundleID);
      match ev
      case HashArrives(e, _, _) =>
        if k == KeyOf(e) {
          CacheIsHistory(REAL, before, k.bundleID);
        }
      case SimArrives(e, _) =>
      case Flush(force, now, ops, _) =>
        FlushAllKeeps(REAL, s, ops, now, force);
    }
  }

  /** A coherent state flushes an entry as it waits. */
  lemma FlushedAsPending(s: Loop, key: Key)
    requires Coherent(s) && key in s.pending
    ensures FlushedEntry(REAL, s, key) == s.pending[key]
  {
  }

  /** What one flush hands over carries what the pending entries carried. */
  lemma FlushCarries(before: seq<LoopEvent>, ev: LoopEvent, clock: int, blankToo: bool)
    requires ev.Flush? && LegalEvent(Run(REAL, before), clock, ev)
    requires forall k :: k in Run(REAL, before).pending ==> Carries(before, Run(REAL, before).pending[k].record, blankToo)
    ensures var s, t := Run(REAL, before), Step(REAL, Run(REAL, before), ev);
            && |s.handed| <= |t.handed| && t.handed[..|s.handed|] == s.handed
            && forall h :: h in t.handed[|s.handed|..] ==> h.step == |before| && Carries(before, h.entry.record, blankToo)
  {
    var s, t := Run(REAL, before), Step(REAL, Run(REAL, before), ev);
    FlushFilters(REAL, s, ev);
    AlwaysCoherent(REAL, before);
    StepsCount(REAL, before);
    var out := t.handed[|s.handed|..];
    forall i | 0 <= i < |out| ensures out[i].step == |before| && Carries(before, out[i].entry.record, blankToo) {
      FlushedAsPending(s, ev.ops[i].key);
    }
  }

  lemma HandedCarries(before: seq<LoopEvent>, ev: LoopEvent, start: int, blankToo: bool)
    requires Legal(before + [ev], start)
    requires forall k :: k in Run(REAL, before).pending ==> Carries(before, Run(REAL, before).pending[k].record, blankToo)
    requires CarryLatest(before, Run(REAL, before).handed, blankToo)
    ensures CarryLatest(before + [ev], Run(REAL, before + [ev]).handed, blankToo)
  {
    var evs := before + [ev];
    assert evs[..|before|] == before;
    var s, t := Run(REAL, before), Run(REAL, evs);
    if ev.Flush? {
      FlushCarries(before, ev, ClockOf(before, start), blankToo);
    }
    forall i | 0 <= i < |t.handed|
      ensures t.handed[i].step < |evs| && Carries(evs[..t.handed[i].step], t.handed[i].entry.record, blankToo)
    {
      if i < |s.handed| {
        assert t.handed[i] == t.handed[..|s.handed|][i] == s.handed[i];
        assert evs[..s.handed[i].step] == before[..s.handed[i].step];
      } else {
        assert t.handed[i] in t.handed[|s.handed|..];
      }
    }
  }
}
