/** The order and the age of what the tracker writes, and what its files hold. */
module TrackerOrder {
  import opened TrackerTypes
  import opened TrackerLoop
  import opened TrackerCache

  // ---------- watermark ----------

  /** Readings of what waits: taken in the past, stamped before received, and ordered one after another. */
  ghost predicate Received(s: Loop, clock: int) {
    && (forall k :: k in s.pending ==> s.pending[k].record.timestamp <= s.pending[k].receivedAt <= clock)
    && (forall k, l :: k in s.pending && l in s.pending && s.pending[k].receivedAt < s.pending[l].receivedAt ==>
          s.pending[k].receivedAt <= s.pending[l].record.timestamp)
  }

  /** Everything handed over was received before everything that still waits. */
  ghost predicate Behind(s: Loop) {
    forall i, k :: 0 <= i < |s.handed| && k in s.pending ==> Precedes(s.handed[i].entry, s.pending[k])
  }

  ghost predicate Precedes(a: PendingEntry, b: PendingEntry) {
    a.receivedAt < b.receivedAt && a.receivedAt <= b.record.timestamp
  }

  /** Writes of an earlier flush precede writes of a later one; one flush writes no key twice. */
  ghost predicate Ordered(handed: seq<Handed>) {
    forall i, j :: 0 <= i < j < |handed| ==> InOrder(handed[i], handed[j])
  }

  ghost predicate InOrder(a: Handed, b: Handed) {
    && a.step <= b.step
    && (a.step < b.step ==> Precedes(a.entry, b.entry))
    && (a.step == b.step ==> KeyOf(EventOf(a.entry.record)) != KeyOf(EventOf(b.entry.record)))
  }

  /** A record is held for at least 2 s unless the flush is forced, and nothing follows a forced flush. */
  ghost predicate HeldLongEnough(s: Loop, clock: int, stopped: bool) {
    forall i :: 0 <= i < |s.handed| ==>
      && s.handed[i].step < s.steps
      && s.handed[i].at <= clock
      && (s.handed[i].forced ==> stopped)
      && (!s.handed[i].forced ==> s.handed[i].entry.receivedAt + 2_000_000_000 <= s.handed[i].at)
  }

  ghost predicate Watermarked(evs: seq<LoopEvent>, start: int) {
    var s, clock := Run(REAL, evs), ClockOf(evs, start);
    Received(s, clock) && Behind(s) && Ordered(s.handed) && HeldLongEnough(s, clock, Stopped(evs))
  }

  /**
    In every legal run, for any iteration order inside the flushes: every record written by an earlier flush
    was received, and stamped, before every record written by a later one; the records of one bundle and
    builder are written in the order they were received; nothing is written before it waited 2 s, unless the
    flush is the forced one.
   */
  lemma {:induction false} WritesFollowWatermark(evs: seq<LoopEvent>, start: int)
    requires Legal(evs, start)
    ensures Watermarked(evs, start)
  {
    if evs != [] {
      var n := |evs| - 1;
      WritesFollowWatermark(evs[..n], start);
      if evs[n].Flush? {
        FlushKeepsWatermark(evs, start);
      } else {
        ArrivalKeepsWatermark(evs, start);
      }
    }
  }

  lemma ArrivalKeepsWatermark(evs: seq<LoopEvent>, start: int)
    requires Legal(evs, start) && evs != [] && !evs[|evs| - 1].Flush?
    requires Watermarked(evs[..|evs| - 1], start)
    ensures Watermarked(evs, start)
  {
    var n := |evs| - 1;
    var s, t, clock := Run(REAL, evs[..n]), Run(REAL, evs), ClockOf(evs[..n], start);
    match evs[n]
    case HashArrives(e, stamp, received) => HashStaysBehind(s, t, KeyOf(e), clock, stamp, received);
    case SimArrives(_, received) => SimStaysBehind(s, t, clock, received);
  }

  /** A new entry is stamped after everything handed over was received. */
  lemma HashStaysBehind(s: Loop, t: Loop, key: Key, clock: int, stamp: int, received: int)
    requires Received(s, clock) && Behind(s) && HeldLongEnough(s, clock, false) && clock <= stamp <= received
    requires key in t.pending && t.pending[key].record.timestamp == stamp && t.pending[key].receivedAt == received
    requires t.pending == s.pending[key := t.pending[key]] && t.handed == s.handed
    ensures Received(t, received) && Behind(t)
  {
    forall i, k | 0 <= i < |t.handed| && k in t.pending ensures Precedes(t.handed[i].entry, t.pending[k]) {
      assert !s.handed[i].forced;
      if k != key {
        assert Precedes(s.handed[i].entry, s.pending[k]);
      }
    }
  }

  /** Enriching changes no reading. */
  lemma SimStaysBehind(s: Loop, t: Loop, clock: int, received: int)
    requires Received(s, clock) && Behind(s) && clock <= received
    requires t.pending.Keys == s.pending.Keys && t.handed == s.handed
    requires forall k :: k in t.pending ==>
               t.pending[k].receivedAt == s.pending[k].receivedAt && t.pending[k].record.timestamp == s.pending[k].record.timestamp
    ensures Received(t, received) && Behind(t)
  {
    forall i, k | 0 <= i < |t.handed| && k in t.pending ensures Precedes(t.handed[i].entry, t.pending[k]) {
      assert Precedes(s.handed[i].entry, s.pending[k]);
    }
  }

  /** What a legal flush adds to the log of writes: entries that were pending, each under its own key. */
  ghost predicate FlushAdds(s: Loop, t: Loop, ev: LoopEvent, out: seq<Handed>)
    requires ev.Flush?
  {
    && t.handed == s.handed + out && |out| == |ev.ops|
    && (forall i :: 0 <= i < |out| ==>
          && ev.ops[i].key in s.pending && out[i].entry == s.pending[ev.ops[i].key]
          && KeyOf(EventOf(out[i].entry.record)) == ev.ops[i].key
          && (ev.force || out[i].entry.receivedAt <= ev.now - 2_000_000_000)
          && out[i].at == ev.now && out[i].forced == ev.force && out[i].step == s.steps)
    && (forall k :: k in t.pending ==>
          k in s.pending && t.pending[k] == s.pending[k] && !ev.force && s.pending[k].receivedAt > ev.now - 2_000_000_000)
  }

  lemma FlushAddsPending(before: seq<LoopEvent>, ev: LoopEvent, clock: int) returns (out: seq<Handed>)
    requires ev.Flush? && LegalEvent(Run(REAL, before), clock, ev)
    ensures var s := Run(REAL, before); FlushAdds(s, Step(REAL, s, ev), ev, out)
  {
    var s := Run(REAL, before);
    var t := Step(REAL, s, ev);
    FlushFilters(REAL, s, ev);
    AlwaysCoherent(REAL, before);
    assert forall i :: 0 <= i < |ev.ops| ==> ev.ops[i].key in KeysOf(ev.ops);
    out := t.handed[|s.handed|..];
    assert t.handed == s.handed + out;
  }

  lemma FlushStaysBehind(s: Loop, t: Loop, ev: LoopEvent, out: seq<Handed>, clock: int)
    requires ev.Flush? && FlushAdds(s, t, ev, out) && Received(s, clock) && Behind(s) && clock <= ev.evictNow
    ensures Received(t, ev.evictNow) && Behind(t)
  {
    forall i, k | 0 <= i < |t.handed| && k in t.pending ensures Precedes(t.handed[i].entry, t.pending[k]) {
      if i < |s.handed| {
        assert t.handed[i] == s.handed[i] && Precedes(s.handed[i].entry, s.pending[k]);
      } else {
        assert t.handed[i] == out[i - |s.handed|];
      }
    }
  }

  lemma FlushStaysOrdered(s: Loop, t: Loop, ev: LoopEvent, out: seq<Handed>)
    requires ev.Flush? && FlushAdds(s, t, ev, out) && Behind(s) && Ordered(s.handed)
    requires forall i :: 0 <= i < |s.handed| ==> s.handed[i].step < s.steps
    requires forall i, j :: 0 <= i < j < |ev.ops| ==> ev.ops[i].key != ev.ops[j].key
    ensures Ordered(t.handed)
  {
    forall i, j | 0 <= i < j < |t.handed| ensures InOrder(t.handed[i], t.handed[j]) {
      if j < |s.handed| {
        assert InOrder(s.handed[i], s.handed[j]);
      } else {
        var y := out[j - |s.handed|];
        assert t.handed[j] == y && y.entry == s.pending[ev.ops[j - |s.handed|].key];
        if i < |s.handed| {
          assert Precedes(s.handed[i].entry, s.pending[ev.ops[j - |s.handed|].key]);
        } else {
          assert t.handed[i] == out[i - |s.handed|];
        }
      }
    }
  }

  lemma FlushKeepsWatermark(evs: seq<LoopEvent>, start: int)
    requires Legal(evs, start) && evs != [] && evs[|evs| - 1].Flush?
    requires Watermarked(evs[..|evs| - 1], start)
    ensures Watermarked(evs, start)
  {
    var n := |evs| - 1;
    var s, t := Run(REAL, evs[..n]), Run(REAL, evs);
    var out := FlushAddsPending(evs[..n], evs[n], ClockOf(evs[..n], start));
    FlushStaysBehind(s, t, evs[n], out, ClockOf(evs[..n], start));
    FlushStaysOrdered(s, t, evs[n], out);
    forall i | 0 <= i < |t.handed| && i >= |s.handed| ensures t.handed[i] == out[i - |s.handed|] {
    }
  }

  /** The records of one bundle and builder reach the writer in the order they were received. */
  lemma SameKeyInReceiptOrder(evs: seq<LoopEvent>, start: int, i: nat, j: nat)
    requires Legal(evs, start) && i < j < |Run(REAL, evs).handed|
    requires var h := Run(REAL, evs).handed; KeyOf(EventOf(h[i].entry.record)) == KeyOf(EventOf(h[j].entry.record))
    ensures var h := Run(REAL, evs).handed;
            h[i].entry.receivedAt < h[j].entry.receivedAt && h[i].entry.record.timestamp <= h[j].entry.record.timestamp
  {
    WritesFollowWatermark(evs, start);
    WrittenStampsPrecedeReceipt(evs, start);
    var h := Run(REAL, evs).handed;
    assert InOrder(h[i], h[j]);
  }

  lemma {:induction false} WrittenStampsPrecedeReceipt(evs: seq<LoopEvent>, start: int)
    requires Legal(evs, start)
    ensures var h := Run(REAL, evs).handed;
            forall i :: 0 <= i < |h| ==> h[i].entry.record.timestamp <= h[i].entry.receivedAt
  {
    if evs != [] {
      var n := |evs| - 1;
      WrittenStampsPrecedeReceipt(evs[..n], start);
      WritesFollowWatermark(evs[..n], start);
      var s, t := Run(REAL, evs[..n]), Run(REAL, evs);
      if evs[n].Flush? {
        FlushFilters(REAL, s, evs[n]);
        var out := t.handed[|s.handed|..];
        assert t.handed == s.handed + out;
        assert forall i :: 0 <= i < |out| ==> out[i].entry.record.timestamp <= out[i].entry.receivedAt;
      }
    }
  }

  // ---------- retention ----------

  /** The deadline reading of the latest flush, or the start of the run. */
  function LastFlush(evs: seq<LoopEvent>, start: int): int {
    if evs == [] then start
    else if evs[|evs| - 1].Flush? then evs[|evs| - 1].now
    else LastFlush(evs[..|evs| - 1], start)
  }

  /** Flushes come at most `period` apart: every flush reads a clock at most `period` past the previous one. */
  predicate Paced(evs: seq<LoopEvent>, start: int, period: int) {
    evs == [] ||
    var before, ev := evs[..|evs| - 1], evs[|evs| - 1];
    Paced(before, start, period) && (ev.Flush? ==> ev.now <= LastFlush(before, start) + period)
  }

  /** What waits outlived the latest flush; what was written was not late; what is cached was fresh at it. */
  ghost predicate Retained(s: Loop, last: int, period: nat) {
    && (forall k :: k in s.pending ==> last < s.pending[k].receivedAt + 2_000_000_000)
    && (forall i :: 0 <= i < |s.handed| ==> s.handed[i].at < s.handed[i].entry.receivedAt + 2_000_000_000 + period)
    && (forall id :: id in s.simCache ==> last <= s.simCache[id].receivedAt + 30_000_000_000)
  }

  lemma FlushRetains(s: Loop, ev: LoopEvent, last: int, period: nat)
    requires ev.Flush? && IsOrder(ev.ops, Expired(s.pending, ev.now, ev.force))
    requires ev.now <= ev.evictNow && ev.now <= last + period && Retained(s, last, period)
    ensures Retained(Step(REAL, s, ev), ev.now, period)
  {
    var t := Step(REAL, s, ev);
    FlushFilters(REAL, s, ev);
    var out := t.handed[|s.handed|..];
    assert t.handed == s.handed + out;
    forall i | 0 <= i < |out| ensures out[i].at < out[i].entry.receivedAt + 2_000_000_000 + period {
      assert out[i].entry.receivedAt == s.pending[ev.ops[i].key].receivedAt;
    }
  }

  lemma {:induction false} FlushesRetain(evs: seq<LoopEvent>, start: int, period: nat)
    requires Legal(evs, start) && Paced(evs, start, period)
    ensures LastFlush(evs, start) <= ClockOf(evs, start) && Retained(Run(REAL, evs), LastFlush(evs, start), period)
  {
    if evs != [] {
      var n := |evs| - 1;
      FlushesRetain(evs[..n], start, period);
      if evs[n].Flush? {
        FlushRetains(Run(REAL, evs[..n]), evs[n], LastFlush(evs[..n], start), period);
      }
    }
  }

  /**
    If flushes come at most `period` apart, no record is ever written at age 2 s + period or more; and at any
    moment `now` at which the next flush is not overdue, nothing that waits is that old and no cached
    simulation is older than 30 s + period.
   */
  lemma RetentionIsBounded(evs: seq<LoopEvent>, start: int, period: nat, now: int)
    requires Legal(evs, start) && Paced(evs, start, period)
    ensures var s := Run(REAL, evs);
            && (forall i :: 0 <= i < |s.handed| ==> s.handed[i].at - s.handed[i].entry.receivedAt < 2_000_000_000 + period)
            && (ClockOf(evs, start) <= now <= LastFlush(evs, start) + period ==>
                  && (forall k :: k in s.pending ==> now - s.pending[k].receivedAt < 2_000_000_000 + period)
                  && (forall id :: id in s.simCache ==> now - s.simCache[id].receivedAt <= 30_000_000_000 + period))
  {
    FlushesRetain(evs, start, period);
  }

  // ---------- files ----------

  /** The lines that reached builder `b`'s file, in the order they were handed over. */
  function SavedLines(handed: seq<Handed>, b: string): seq<BundleRecord> {
    if handed == [] then []
    else
      var last := handed[|handed| - 1];
      SavedLines(handed[..|handed| - 1], b)
      + if last.saved && last.entry.record.builder == b then [last.entry.record] else []
  }

  function FileOf(s: Loop, b: string): seq<BundleRecord> {
    if b in s.files then s.files[b] else []
  }

  lemma FlushOneFile(p: Policy, s: Loop, op: WriteOp, now: int, force: bool, b: string)
    requires FileOf(s, b) == SavedLines(s.handed, b)
    ensures var t := FlushOne(p, s, op, now, force); FileOf(t, b) == SavedLines(t.handed, b)
  {
    var t := FlushOne(p, s, op, now, force);
    if op.key in s.pending {
      assert t.handed[..|s.handed|] == s.handed;
    }
  }

  lemma {:induction false} FlushAllFile(p: Policy, s: Loop, ops: seq<WriteOp>, now: int, force: bool, b: string)
    requires FileOf(s, b) == SavedLines(s.handed, b)
    ensures var t := FlushAll(p, s, ops, now, force); FileOf(t, b) == SavedLines(t.handed, b)
  {
    if ops != [] {
      var n := |ops| - 1;
      FlushAllFile(p, s, ops[..n], now, force, b);
      FlushOneFile(p, FlushAll(p, s, ops[..n], now, force), ops[n], now, force, b);
    }
  }

  /** In every run each builder's file is the saved part of the writes for that builder, in write order. */
  lemma {:induction false} FilesHoldSavedLines(p: Policy, evs: seq<LoopEvent>, b: string)
    ensures FileOf(Run(p, evs), b) == SavedLines(Run(p, evs).handed, b)
  {
    if evs != [] {
      var ev, s := evs[|evs| - 1], Run(p, evs[..|evs| - 1]);
      FilesHoldSavedLines(p, evs[..|evs| - 1], b);
      if ev.Flush? {
        FlushAllFile(p, s, ev.ops, ev.now, ev.force, b);
      }
    }
  }

  lemma {:induction false} SavedLinesAreTheBuilders(handed: seq<Handed>, b: string)
    ensures forall r :: r in SavedLines(handed, b) ==> r.builder == b
  {
    if handed != [] {
      SavedLinesAreTheBuilders(handed[..|handed| - 1], b);
    }
  }

  /** No file ever holds another builder's record. */
  lemma FilesAreUnmixed(p: Policy, evs: seq<LoopEvent>, b: string)
    ensures forall r :: r in FileOf(Run(p, evs), b) ==> r.builder == b
  {
    FilesHoldSavedLines(p, evs, b);
    SavedLinesAreTheBuilders(Run(p, evs).handed, b);
  }
}
