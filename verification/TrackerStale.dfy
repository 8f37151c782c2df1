/**
  When eviction shows in what is written.  A stale hash leaves a blank record waiting; a simulation that comes
  later, or another hash under the same keys, can still make up for it before it is written.
 */
module TrackerStale {
  import opened TrackerTypes
  import opened TrackerLoop
  import opened TrackerCache

  /** The keys under which a stale hash still waits: not replaced, not simulated again, not written. */
  ghost function Tainted(evs: seq<LoopEvent>): set<Key> {
    if evs == [] then {}
    else
      var before, ev := evs[..|evs| - 1], evs[|evs| - 1];
      match ev
      case HashArrives(e, _, _) => if StaleNext(before, e) then Tainted(before) + {KeyOf(e)} else Tainted(before) - {KeyOf(e)}
      case SimArrives(m, _) => set k | k in Tainted(before) && k.bundleID != m.bundleID
      case Flush(_, _, ops, _) => Tainted(before) - KeysOf(ops)
  }

  /** No flush of the run writes a key while it is tainted. */
  ghost predicate NoTaintedWrite(evs: seq<LoopEvent>) {
    forall n :: 0 <= n < |evs| && evs[n].Flush? ==> KeysOf(evs[n].ops) !! Tainted(evs[..n])
  }

  /** The two trackers' entries for one key: equal, or, where tainted, blank in the first and not in the second. */
  ghost predicate Twin(a: PendingEntry, b: PendingEntry, tainted: bool) {
    && a.receivedAt == b.receivedAt && a.record.timestamp == b.record.timestamp && EventOf(a.record) == EventOf(b.record)
    && (if tainted then SimOf(a.record) == BLANK != SimOf(b.record) else a == b)
  }

  ghost predicate Twins(r: Loop, f: Loop, tainted: set<Key>) {
    && r.pending.Keys == f.pending.Keys && r.files.Keys == f.files.Keys
    && r.overwritten == f.overwritten && r.steps == f.steps && |r.handed| == |f.handed|
    && (forall k :: k in r.pending ==> Twin(r.pending[k], f.pending[k], k in tainted))
    && (forall k :: k in r.pending && k in tainted ==> k.bundleID !in r.simCache)
  }

  /** Both trackers stay twins, and coherent, while the same keys are written. */
  ghost predicate FlushedTwins(r: Loop, f: Loop, tainted: set<Key>) {
    Coherent(r) && Coherent(f) && Twins(r, f, tainted)
  }

  lemma SameSnoc<T>(xs: seq<T>, x: T, ys: seq<T>, y: T)
    requires |xs| == |ys|
    ensures xs + [x] == ys + [y] <==> xs == ys && x == y
  {
    if xs + [x] == ys + [y] {
      assert xs == (xs + [x])[..|xs|] && x == (xs + [x])[|xs|] && ys == (ys + [y])[..|ys|] && y == (ys + [y])[|ys|];
    }
  }

  /** In a coherent state a write hands over the entry that was pending. */
  lemma HandsOver(p: Policy, s: Loop, op: WriteOp, now: int, force: bool)
    requires Coherent(s) && op.key in s.pending
    ensures var t, entry := FlushOne(p, s, op, now, force), s.pending[op.key];
            && t.handed == s.handed
                 + [Handed(entry, now, force, s.steps, (entry.record.builder in s.files || op.openOk) && op.writeOk)]
            && t.files == Append(s.files, entry.record, op.openOk, op.writeOk)
  {
    assert FlushedEntry(p, s, op.key) == s.pending[op.key];
  }

  /** One write by both trackers: the same unless the key is tainted. */
  lemma FlushOneTwins(r: Loop, f: Loop, op: WriteOp, now: int, force: bool, tainted: set<Key>)
    requires FlushedTwins(r, f, tainted) && op.key in r.pending
    ensures var r', f' := FlushOne(REAL, r, op, now, force), FlushOne(NEVER_EVICTS, f, op, now, force);
            && FlushedTwins(r', f', tainted)
            && (r'.handed == f'.handed <==> r.handed == f.handed && op.key !in tainted)
  {
    var a, b := r.pending[op.key], f.pending[op.key];
    HandsOver(REAL, r, op, now, force);
    HandsOver(NEVER_EVICTS, f, op, now, force);
    assert a.record.builder == b.record.builder by {
      assert EventOf(a.record) == EventOf(b.record);
    }
    var saved := (a.record.builder in r.files || op.openOk) && op.writeOk;
    SameSnoc(r.handed, Handed(a, now, force, r.steps, saved), f.handed, Handed(b, now, force, f.steps, saved));
  }

  lemma VisitsFirst(r: Loop, ops: seq<WriteOp>, now: int, force: bool)
    requires ops != [] && Visits(r, ops)
    ensures var n := |ops| - 1;
            && Visits(r, ops[..n]) && ops[n].key in FlushAll(REAL, r, ops[..n], now, force).pending
            && KeysOf(ops) == KeysOf(ops[..n]) + {ops[n].key}
  {
    var n := |ops| - 1;
    assert ops[..n] + [ops[n]] == ops;
    KeysOfSnoc(ops[..n], ops[n]);
    VisitedAreGone(REAL, r, ops[..n], now, force);
    assert forall i :: 0 <= i < n ==> ops[i].key != ops[n].key;
  }

  lemma {:induction false} FlushAllTwins(r: Loop, f: Loop, ops: seq<WriteOp>, now: int, force: bool, tainted: set<Key>)
    requires FlushedTwins(r, f, tainted) && Visits(r, ops)
    ensures var r', f' := FlushAll(REAL, r, ops, now, force), FlushAll(NEVER_EVICTS, f, ops, now, force);
            && FlushedTwins(r', f', tainted)
            && (r'.handed == f'.handed <==> r.handed == f.handed && KeysOf(ops) !! tainted)
  {
    if ops != [] {
      var n := |ops| - 1;
      VisitsFirst(r, ops, now, force);
      FlushAllTwins(r, f, ops[..n], now, force, tainted);
      FlushOneTwins(FlushAll(REAL, r, ops[..n], now, force), FlushAll(NEVER_EVICTS, f, ops[..n], now, force),
                    ops[n], now, force, tainted);
    }
  }

  lemma HashTwins(before: seq<LoopEvent>, ev: LoopEvent)
    requires ev.HashArrives? && Twins(Run(REAL, before), Run(NEVER_EVICTS, before), Tainted(before))
    ensures var key := KeyOf(ev.hash);
            Twins(Step(REAL, Run(REAL, before), ev), Step(NEVER_EVICTS, Run(NEVER_EVICTS, before), ev),
                  if StaleNext(before, ev.hash) then Tainted(before) + {key} else Tainted(before) - {key})
  {
    RecordsAgree(before, ev.hash, ev.stamp);
  }

  lemma SimTwins(r: Loop, f: Loop, ev: LoopEvent, tainted: set<Key>)
    requires ev.SimArrives? && Twins(r, f, tainted)
    ensures Twins(Step(REAL, r, ev), Step(NEVER_EVICTS, f, ev), set k | k in tainted && k.bundleID != ev.sim.bundleID)
  {
    var r', f', c := Step(REAL, r, ev), Step(NEVER_EVICTS, f, ev), CacheEntry(ev.sim, ev.received);
    forall k | k in r'.pending && k.bundleID == ev.sim.bundleID ensures r'.pending[k] == f'.pending[k] {
      RecordDetermined(Enrich(r.pending[k].record, c), Enrich(f.pending[k].record, c));
    }
  }

  lemma FlushTwins(before: seq<LoopEvent>, ev: LoopEvent, clock: int)
    requires ev.Flush? && LegalEvent(Run(REAL, before), clock, ev)
    requires Twins(Run(REAL, before), Run(NEVER_EVICTS, before), Tainted(before))
    ensures var r, f := Run(REAL, before), Run(NEVER_EVICTS, before);
            var r', f' := Step(REAL, r, ev), Step(NEVER_EVICTS, f, ev);
            && Twins(r', f', Tainted(before) - KeysOf(ev.ops))
            && (r'.handed == f'.handed <==> r.handed == f.handed && KeysOf(ev.ops) !! Tainted(before))
  {
    var r, f := Run(REAL, before), Run(NEVER_EVICTS, before);
    AlwaysCoherent(REAL, before);
    AlwaysCoherent(NEVER_EVICTS, before);
    FlushAllTwins(r, f, ev.ops, ev.now, ev.force, Tainted(before));
    VisitedAreGone(REAL, r, ev.ops, ev.now, ev.force);
    FlushAllKeeps(REAL, r, ev.ops, ev.now, ev.force);
  }

  lemma NoTaintedWriteSnoc(evs: seq<LoopEvent>)
    requires evs != []
    ensures var n := |evs| - 1;
            NoTaintedWrite(evs) <==>
              NoTaintedWrite(evs[..n]) && (evs[n].Flush? ==> KeysOf(evs[n].ops) !! Tainted(evs[..n]))
  {
    var before := evs[..|evs| - 1];
    forall n | 0 <= n < |before| ensures before[n] == evs[n] && before[..n] == evs[..n] {
    }
  }

  /**
    Exactly when eviction shows in what is written: the tracker and the one that never evicts hand the same
    entries to the writer, with the same success, if and only if no flush writes a key under which a stale
    hash still waits.
   */
  lemma {:induction false} WritesAgreeIff(evs: seq<LoopEvent>, start: int)
    requires Legal(evs, start)
    ensures Twins(Run(REAL, evs), Run(NEVER_EVICTS, evs), Tainted(evs))
    ensures Run(REAL, evs).handed == Run(NEVER_EVICTS, evs).handed <==> NoTaintedWrite(evs)
  {
    if evs != [] {
      var n := |evs| - 1;
      var before, ev := evs[..n], evs[n];
      WritesAgreeIff(before, start);
      NoTaintedWriteSnoc(evs);
      match ev
      case HashArrives(_, _, _) => HashTwins(before, ev);
      case SimArrives(_, _) => SimTwins(Run(REAL, before), Run(NEVER_EVICTS, before), ev, Tainted(before));
      case Flush(_, _, _, _) => FlushTwins(before, ev, ClockOf(before, start));
    }
  }
}
