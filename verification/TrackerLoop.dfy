/**
  The tracker goroutine as a state machine over the events it takes.  A run is a sequence of loop
  events, each carrying the clock readings made while it is handled; `pending` is flat here, keyed by
  (bundle, builder).  The class in Tracker.dfy keeps the nested maps and is proved to follow this machine.
 */
module TrackerLoop {
  import opened TrackerTypes

  /** One write made by a flush: which entry, and what the file system answered. */
  datatype WriteOp = WriteOp(key: Key, openOk: bool, writeOk: bool)

  datatype LoopEvent =
    | HashArrives(hash: HashEvent, stamp: int, received: int)
    | SimArrives(sim: SimEvent, received: int)
    | Flush(force: bool, now: int, ops: seq<WriteOp>, evictNow: int)

  /** An entry handed to `writeRecord`: when, by which step of the run, and whether its line reached the file. */
  datatype Handed = Handed(entry: PendingEntry, at: int, forced: bool, step: nat, saved: bool)

  datatype Loop = Loop(
    pending: map<Key, PendingEntry>,
    simCache: map<string, SimCacheEntry>,
    files: map<string, seq<BundleRecord>>,
    handed: seq<Handed>,
    overwritten: seq<HashEvent>,
    steps: nat)

  /** What the tracker does (REAL), and two variants it is compared with. */
  datatype Policy = Policy(evicts: bool, reenriches: bool)

  const REAL := Policy(true, true)
  const NEVER_EVICTS := Policy(false, true)
  const NO_REENRICHMENT := Policy(true, false)

  const INIT := Loop(map[], map[], map[], [], [], 0)

  /** The record made for a new hash event: pre-filled if its bundle is cached. */
  function RecordFor(simCache: map<string, SimCacheEntry>, e: HashEvent, stamp: int): BundleRecord {
    var plain := NewRecord(e, stamp);
    if e.bundleID in simCache then Enrich(plain, simCache[e.bundleID]) else plain
  }

  function TakeHash(s: Loop, e: HashEvent, stamp: int, received: int): Loop {
    var key := KeyOf(e);
    s.(pending := s.pending[key := PendingEntry(RecordFor(s.simCache, e, stamp), received)],
       overwritten := s.overwritten + if key in s.pending then [EventOf(s.pending[key].record)] else [])
  }

  function EnrichAll(pending: map<Key, PendingEntry>, bundleID: string, c: SimCacheEntry): map<Key, PendingEntry> {
    map k | k in pending ::
      if k.bundleID == bundleID then pending[k].(record := Enrich(pending[k].record, c)) else pending[k]
  }

  function TakeSim(s: Loop, e: SimEvent, received: int): Loop {
    var c := CacheEntry(e, received);
    s.(simCache := s.simCache[e.bundleID := c], pending := EnrichAll(s.pending, e.bundleID, c))
  }

  /** The entry a flush writes for `key`. */
  function FlushedEntry(p: Policy, s: Loop, key: Key): PendingEntry
    requires key in s.pending
  {
    var entry := s.pending[key];
    if p.reenriches && key.bundleID in s.simCache
    then entry.(record := Enrich(entry.record, s.simCache[key.bundleID]))
    else entry
  }

  /** The file is opened on first use; a line is appended only if open and write both succeed. */
  function Append(files: map<string, seq<BundleRecord>>, r: BundleRecord, openOk: bool, writeOk: bool)
    : map<string, seq<BundleRecord>>
  {
    if r.builder !in files && !openOk then files
    else
      var lines := if r.builder in files then files[r.builder] else [];
      files[r.builder := if writeOk then lines + [r] else lines]
  }

  function FlushOne(p: Policy, s: Loop, op: WriteOp, now: int, force: bool): Loop {
    if op.key !in s.pending then s
    else
      var entry := FlushedEntry(p, s, op.key);
      var saved := (entry.record.builder in s.files || op.openOk) && op.writeOk;
      s.(pending := s.pending - {op.key},
         files := Append(s.files, entry.record, op.openOk, op.writeOk),
         handed := s.handed + [Handed(entry, now, force, s.steps, saved)])
  }

  /** The writes of one flush, in the order they are made. */
  function FlushAll(p: Policy, s: Loop, ops: seq<WriteOp>, now: int, force: bool): Loop {
    if ops == [] then s
    else FlushOne(p, FlushAll(p, s, ops[..|ops| - 1], now, force), ops[|ops| - 1], now, force)
  }

  function Kept(simCache: map<string, SimCacheEntry>, evictNow: int): map<string, SimCacheEntry> {
    map id | id in simCache && evictNow - SIM_TTL <= simCache[id].receivedAt :: simCache[id]
  }

  function Step(p: Policy, s: Loop, ev: LoopEvent): Loop {
    var t := match ev
      case HashArrives(e, stamp, received) => TakeHash(s, e, stamp, received)
      case SimArrives(e, received) => TakeSim(s, e, received)
      case Flush(force, now, ops, evictNow) =>
        var f := FlushAll(p, s, ops, now, force);
        if p.evicts then f.(simCache := Kept(f.simCache, evictNow)) else f;
    t.(steps := s.steps + 1)
  }

  function RunFrom(p: Policy, s: Loop, evs: seq<LoopEvent>): Loop {
    if evs == [] then s
    else Step(p, RunFrom(p, s, evs[..|evs| - 1]), evs[|evs| - 1])
  }

  function Run(p: Policy, evs: seq<LoopEvent>): Loop {
    RunFrom(p, INIT, evs)
  }

  /** What a flush at `now` must write: everything when forced, else what has waited at least HOLD. */
  function Expired(pending: map<Key, PendingEntry>, now: int, force: bool): set<Key> {
    set k | k in pending && (force || pending[k].receivedAt <= now - HOLD)
  }

  function KeysOf(ops: seq<WriteOp>): set<Key> {
    set i | 0 <= i < |ops| :: ops[i].key
  }

  ghost predicate Distinct(ops: seq<WriteOp>) {
    forall i, j :: 0 <= i < j < |ops| ==> ops[i].key != ops[j].key
  }

  /** `ops` visits exactly `keys`, each once, in any order: Go's map iteration. */
  ghost predicate IsOrder(ops: seq<WriteOp>, keys: set<Key>) {
    Distinct(ops) && KeysOf(ops) == keys
  }

  /** The last clock reading made while handling `ev`. */
  function ClockAfter(ev: LoopEvent): int {
    match ev
    case HashArrives(_, _, received) => received
    case SimArrives(_, received) => received
    case Flush(_, _, _, evictNow) => evictNow
  }

  function ClockOf(evs: seq<LoopEvent>, start: int): int {
    if evs == [] then start else ClockAfter(evs[|evs| - 1])
  }

  /** `ev` can be the next event when the clock reads `clock`. */
  ghost predicate LegalEvent(s: Loop, clock: int, ev: LoopEvent) {
    match ev
    case HashArrives(_, stamp, received) => clock <= stamp <= received
    case SimArrives(_, received) => clock <= received
    case Flush(force, now, ops, evictNow) =>
      clock <= now <= evictNow && IsOrder(ops, Expired(s.pending, now, force))
  }

  /** The forced flush is the last thing the goroutine does. */
  predicate Stopped(evs: seq<LoopEvent>) {
    evs != [] && evs[|evs| - 1].Flush? && evs[|evs| - 1].force
  }

  /** Runs the goroutine can make, with clock readings that never go back from `start`. */
  ghost predicate Legal(evs: seq<LoopEvent>, start: int) {
    evs == [] ||
    var before := evs[..|evs| - 1];
    && Legal(before, start)
    && !Stopped(before)
    && LegalEvent(Run(REAL, before), ClockOf(before, start), evs[|evs| - 1])
  }

  // ---------- unfolding ----------

  lemma RunSnoc(p: Policy, s: Loop, evs: seq<LoopEvent>, ev: LoopEvent)
    ensures RunFrom(p, s, evs + [ev]) == Step(p, RunFrom(p, s, evs), ev)
  {
    assert (evs + [ev])[..|evs|] == evs;
  }

  lemma HashStep(s: Loop, t: Loop, e: HashEvent, stamp: int, received: int)
    requires t.pending == s.pending[KeyOf(e) := PendingEntry(RecordFor(s.simCache, e, stamp), received)]
    requires t.overwritten == s.overwritten + if KeyOf(e) in s.pending then [EventOf(s.pending[KeyOf(e)].record)] else []
    requires t.simCache == s.simCache && t.files == s.files && t.handed == s.handed && t.steps == s.steps + 1
    ensures t == Step(REAL, s, HashArrives(e, stamp, received))
  {
  }

  lemma SimStep(s: Loop, t: Loop, e: SimEvent, received: int)
    requires t.pending == EnrichAll(s.pending, e.bundleID, CacheEntry(e, received))
    requires t.simCache == s.simCache[e.bundleID := CacheEntry(e, received)]
    requires t.overwritten == s.overwritten && t.files == s.files && t.handed == s.handed && t.steps == s.steps + 1
    ensures t == Step(REAL, s, SimArrives(e, received))
  {
  }

  lemma FlushAllSnoc(p: Policy, s: Loop, ops: seq<WriteOp>, op: WriteOp, now: int, force: bool)
    ensures FlushAll(p, s, ops + [op], now, force) == FlushOne(p, FlushAll(p, s, ops, now, force), op, now, force)
  {
    assert (ops + [op])[..|ops|] == ops;
  }

  lemma {:induction false} LegalPrefix(evs: seq<LoopEvent>, start: int, n: nat)
    requires Legal(evs, start) && n <= |evs|
    ensures Legal(evs[..n], start)
    decreases |evs|
  {
    if n < |evs| {
      LegalPrefix(evs[..|evs| - 1], start, n);
      assert evs[..|evs| - 1][..n] == evs[..n];
    } else {
      assert evs[..n] == evs;
    }
  }

  /** Every event of a legal run was legal when it was taken. */
  lemma LegalAt(evs: seq<LoopEvent>, start: int, n: nat)
    requires Legal(evs, start) && n < |evs|
    ensures Legal(evs[..n], start) && !Stopped(evs[..n])
    ensures LegalEvent(Run(REAL, evs[..n]), ClockOf(evs[..n], start), evs[n])
    ensures Run(REAL, evs[..n + 1]) == Step(REAL, Run(REAL, evs[..n]), evs[n])
  {
    LegalPrefix(evs, start, n + 1);
    assert evs[..n + 1][..n] == evs[..n];
  }

  /** Writing only removes pending entries; the cache and the log of overwritten events stay. */
  lemma {:induction false} FlushAllKeeps(p: Policy, s: Loop, ops: seq<WriteOp>, now: int, force: bool)
    ensures var t := FlushAll(p, s, ops, now, force);
            && t.simCache == s.simCache && t.overwritten == s.overwritten && t.steps == s.steps
            && forall k :: k in t.pending ==> k in s.pending && t.pending[k] == s.pending[k]
  {
    if ops != [] {
      FlushAllKeeps(p, s, ops[..|ops| - 1], now, force);
    }
  }

  lemma {:induction false} StepsCount(p: Policy, evs: seq<LoopEvent>)
    ensures Run(p, evs).steps == |evs|
  {
    if evs != [] {
      StepsCount(p, evs[..|evs| - 1]);
      var ev := evs[|evs| - 1];
      if ev.Flush? {
        FlushAllKeeps(p, Run(p, evs[..|evs| - 1]), ev.ops, ev.now, ev.force);
      }
    }
  }

  // ---------- what a flush does ----------

  /** `out` is what a flush of `s` that visits `ops` hands to the writer, one entry for each visit. */
  ghost predicate Delivers(p: Policy, s: Loop, ops: seq<WriteOp>, now: int, force: bool, out: seq<Handed>) {
    && |out| == |ops|
    && forall i :: 0 <= i < |out| ==>
         && ops[i].key in s.pending
         && out[i].entry == FlushedEntry(p, s, ops[i].key)
         && out[i].at == now && out[i].forced == force && out[i].step == s.steps
  }

  lemma KeysOfSnoc(ops: seq<WriteOp>, op: WriteOp)
    ensures KeysOf(ops + [op]) == KeysOf(ops) + {op.key}
  {
    var all := ops + [op];
    assert forall i :: 0 <= i < |ops| ==> all[i] == ops[i];
    assert all[|ops|] == op;
  }

  /**
    The writes of a flush, as a filter: exactly the visited entries leave `pending`, each is handed over
    once, in visiting order, with the simulation values it would get from the cache at the start.
   */
  lemma {:induction false} FlushAllFilters(p: Policy, s: Loop, ops: seq<WriteOp>, now: int, force: bool)
    requires forall i :: 0 <= i < |ops| ==> ops[i].key in s.pending
    requires Distinct(ops)
    ensures var t := FlushAll(p, s, ops, now, force);
            && t.pending == s.pending - KeysOf(ops)
            && t.simCache == s.simCache && t.overwritten == s.overwritten && t.steps == s.steps
            && |t.handed| == |s.handed| + |ops| && t.handed[..|s.handed|] == s.handed
            && Delivers(p, s, ops, now, force, t.handed[|s.handed|..])
  {
    if ops != [] {
      var n := |ops| - 1;
      var before := ops[..n];
      FlushAllFilters(p, s, before, now, force);
      var t := FlushAll(p, s, before, now, force);
      KeysOfSnoc(before, ops[n]);
      assert before + [ops[n]] == ops;
      assert ops[n].key in t.pending;
      assert FlushedEntry(p, t, ops[n].key) == FlushedEntry(p, s, ops[n].key);
      var all := FlushAll(p, s, ops, now, force);
      assert all.handed[|s.handed|..] == t.handed[|s.handed|..] + [all.handed[|s.handed| + n]];
    } else {
      assert s.pending - KeysOf(ops) == s.pending;
    }
  }

  /** `ops` visits entries of `s`, none twice. */
  ghost predicate Visits(s: Loop, ops: seq<WriteOp>) {
    Distinct(ops) && KeysOf(ops) <= s.pending.Keys
  }

  /** What has been visited is what is no longer pending. */
  lemma VisitedAreGone(p: Policy, s: Loop, ops: seq<WriteOp>, now: int, force: bool)
    requires Visits(s, ops)
    ensures FlushAll(p, s, ops, now, force).pending == s.pending - KeysOf(ops)
    ensures KeysOf(ops) == s.pending.Keys - FlushAll(p, s, ops, now, force).pending.Keys
  {
    assert forall i :: 0 <= i < |ops| ==> ops[i].key in KeysOf(ops);
    FlushAllFilters(p, s, ops, now, force);
  }

  /** One more visit, to an entry that still waits. */
  lemma VisitsSnoc(p: Policy, s: Loop, ops: seq<WriteOp>, op: WriteOp, now: int, force: bool)
    requires Visits(s, ops) && op.key in FlushAll(p, s, ops, now, force).pending
    ensures Visits(s, ops + [op])
    ensures FlushAll(p, s, ops + [op], now, force) == FlushOne(p, FlushAll(p, s, ops, now, force), op, now, force)
  {
    VisitedAreGone(p, s, ops, now, force);
    FlushAllSnoc(p, s, ops, op, now, force);
    KeysOfSnoc(ops, op);
    assert forall i :: 0 <= i < |ops| ==> ops[i].key in KeysOf(ops);
  }

  /** A whole flush: `pending` keeps the unexpired entries and the cache keeps what is at most 30 s old. */
  lemma FlushFilters(p: Policy, s: Loop, ev: LoopEvent)
    requires ev.Flush? && IsOrder(ev.ops, Expired(s.pending, ev.now, ev.force))
    ensures var t := Step(p, s, ev);
            && t.pending == (map k | k in s.pending && !ev.force && ev.now - s.pending[k].receivedAt < 2_000_000_000 :: s.pending[k])
            && t.simCache == (map id | id in s.simCache && (p.evicts ==> ev.evictNow - s.simCache[id].receivedAt <= 30_000_000_000)
                                :: s.simCache[id])
            && t.overwritten == s.overwritten
            && |ev.ops| == |Expired(s.pending, ev.now, ev.force)|
            && |t.handed| == |s.handed| + |ev.ops| && t.handed[..|s.handed|] == s.handed
            && Delivers(p, s, ev.ops, ev.now, ev.force, t.handed[|s.handed|..])
  {
    assert forall i :: 0 <= i < |ev.ops| ==> ev.ops[i].key in KeysOf(ev.ops);
    FlushAllFilters(p, s, ev.ops, ev.now, ev.force);
    assert KeysOf(ev.ops) == Expired(s.pending, ev.now, ev.force);
    OrderCounts(ev.ops);
  }

  /** A duplicate-free order visits as many keys as it has elements. */
  lemma {:induction false} OrderCounts(ops: seq<WriteOp>)
    requires Distinct(ops)
    ensures |KeysOf(ops)| == |ops|
  {
    if ops != [] {
      var n := |ops| - 1;
      OrderCounts(ops[..n]);
      KeysOfSnoc(ops[..n], ops[n]);
      assert ops[..n] + [ops[n]] == ops;
    }
  }
}
