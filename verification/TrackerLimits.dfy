/** What the tracker's limits mean for single events: which hash is pre-filled, which event is dropped, which line is saved. */
module TrackerLimits {
  import opened TrackerTypes
  import opened TrackerLoop
  import opened TrackerCache
  import opened TrackerSystem

  // ---------- pre-filling ----------

  predicate Made(r: BundleRecord, e: HashEvent, stamp: int) {
    && r.bundleID == e.bundleID && r.builder == e.builder && r.bundleHash == e.bundleHash
    && r.lastTxHash == e.lastTxHash && r.targetBlock == e.targetBlock && r.transactions == e.transactions
    && r.timestamp == stamp
  }

  predicate Shows(r: BundleRecord, m: SimEvent) {
    && r.coinbaseDiffETH == m.coinbaseDiffETH && r.ethToBuilderETH == m.ethToBuilderETH && r.gasFeesETH == m.gasFeesETH
    && r.totalGasUsed == m.totalGasUsed && r.bundleGasPrice == m.bundleGasPrice && r.simStateBlock == m.stateBlock
  }

  predicate ShowsNothing(r: BundleRecord) {
    && r.coinbaseDiffETH == "" && r.ethToBuilderETH == "" && r.gasFeesETH == ""
    && r.totalGasUsed == 0 && r.bundleGasPrice == "" && r.simStateBlock == 0
  }

  /** A flush at `j` evicted the simulation taken at `i`: it was more than 30 s old. */
  predicate EvictedBy(evs: seq<LoopEvent>, i: int, j: int)
    requires 0 <= i < j < |evs| && evs[i].SimArrives?
  {
    evs[j].Flush? && evs[j].evictNow - evs[i].received > 30_000_000_000
  }

  /**
    In every run: a hash is pending with exactly the values of its bundle's latest simulation, unless there is
    none or some flush since then was more than 30 s after it; then its simulation fields are empty.
   */
  lemma PrefilledIff(evs: seq<LoopEvent>, e: HashEvent, stamp: int, received: int)
    ensures var pending, i := Run(REAL, evs + [HashArrives(e, stamp, received)]).pending, LatestSim(evs, e.bundleID);
            && Key(e.bundleID, e.builder) in pending
            && var entry := pending[Key(e.bundleID, e.builder)];
               && Made(entry.record, e, stamp) && entry.receivedAt == received
               && if i >= 0 && forall j :: i < j < |evs| ==> !EvictedBy(evs, i, j) then Shows(entry.record, evs[i].sim)
                  else ShowsNothing(entry.record)
  {
    var i := LatestSim(evs, e.bundleID);
    CacheIsHistory(REAL, evs, e.bundleID);
    RunSnoc(REAL, INIT, evs, HashArrives(e, stamp, received));
    if i >= 0 {
      forall j | i < j < |evs| ensures Outlived(evs, i, j) <==> EvictedBy(evs, i, j) {
      }
    }
  }

  /** In particular a hash taken at most 30 s after the latest simulation of its bundle carries it. */
  lemma PromptHashIsPrefilled(evs: seq<LoopEvent>, start: int, e: HashEvent, stamp: int, received: int)
    requires Legal(evs + [HashArrives(e, stamp, received)], start)
    requires var i := LatestSim(evs, e.bundleID); i >= 0 && stamp - evs[i].received <= 30_000_000_000
    ensures var pending := Run(REAL, evs + [HashArrives(e, stamp, received)]).pending;
            && Key(e.bundleID, e.builder) in pending
            && Shows(pending[Key(e.bundleID, e.builder)].record, evs[LatestSim(evs, e.bundleID)].sim)
  {
    var i := LatestSim(evs, e.bundleID);
    LegalSnoc(evs, HashArrives(e, stamp, received), start);
    forall j | i < j < |evs| ensures !EvictedBy(evs, i, j) {
      ClockIsMonotone(evs, start, j);
    }
    PrefilledIff(evs, e, stamp, received);
  }

  // ---------- dropping ----------

  /** A hash offered to the tracker is accepted exactly if fewer than 1024 wait, and dropped exactly if 1024 do. */
  lemma HashDroppedIff(trace: seq<System>, acts: seq<Action>, start: int, n: nat)
    requires IsTrace(trace, acts, start) && n < |acts| && acts[n].OfferHash?
    ensures var s, t, e := trace[n], trace[n + 1], acts[n].hash;
            && (t.accepted == s.accepted + [e] && t.hashCh == s.hashCh + [e] && t.dropped == s.dropped <==> |s.hashCh| < 1024)
            && (t.accepted == s.accepted && t.hashCh == s.hashCh && t.dropped == s.dropped + [e] <==> |s.hashCh| == 1024)
  {
    ChannelsAreQueues(trace, acts, start, n);
    assert trace[n + 1] == Act(trace[n], acts[n]);
  }

  /** The same for a simulation, which leaves no trace when dropped. */
  lemma SimDroppedIff(trace: seq<System>, acts: seq<Action>, start: int, n: nat)
    requires IsTrace(trace, acts, start) && n < |acts| && acts[n].OfferSim?
    ensures var s, t, m := trace[n], trace[n + 1], acts[n].sim;
            && (t.acceptedSims == s.acceptedSims + [m] && t.simCh == s.simCh + [m] <==> |s.simCh| < 1024)
            && (t.acceptedSims == s.acceptedSims && t.simCh == s.simCh <==> |s.simCh| == 1024)
  {
    ChannelsAreQueues(trace, acts, start, n);
    assert trace[n + 1] == Act(trace[n], acts[n]);
  }

  // ---------- saving ----------

  /** The first n writes opened builder `b`'s file. */
  ghost predicate OpenedBy(ops: seq<WriteOp>, n: int, b: string)
    requires 0 <= n <= |ops|
  {
    exists j :: 0 <= j < n && ops[j].openOk && ops[j].key.builder == b
  }

  /**
    Of the writes of a flush exactly those reach their file that were answered well, to a file that was open
    before or was opened by then; and those files stay open.
   */
  lemma {:induction false} SavedIff(p: Policy, s: Loop, ops: seq<WriteOp>, now: int, force: bool)
    requires WellKeyed(s) && Visits(s, ops)
    ensures var t := FlushAll(p, s, ops, now, force);
            && |t.handed| == |s.handed| + |ops|
            && (forall b :: b in t.files <==> b in s.files || OpenedBy(ops, |ops|, b))
            && forall i :: 0 <= i < |ops| ==>
                 var b := ops[i].key.builder;
                 t.handed[|s.handed| + i].saved <==> ops[i].writeOk && (b in s.files || OpenedBy(ops, i + 1, b))
  {
    if ops != [] {
      var n := |ops| - 1;
      var before, op := ops[..n], ops[n];
      assert before + [op] == ops;
      KeysOfSnoc(before, op);
      SavedIff(p, s, before, now, force);
      VisitedAreGone(p, s, before, now, force);
      assert op.key in s.pending && op.key !in KeysOf(before);
      FlushAllKeeps(p, s, before, now, force);
      SavedSnoc(p, FlushAll(p, s, before, now, force), op, now, force);
      forall i, b | 0 <= i <= n ensures OpenedBy(before, i, b) <==> OpenedBy(ops, i, b) {
        assert forall j :: 0 <= j < i ==> before[j] == ops[j];
      }
      forall b ensures OpenedBy(ops, n + 1, b) <==> OpenedBy(ops, n, b) || (op.openOk && op.key.builder == b) {
      }
    }
  }

  /** One write. */
  lemma SavedSnoc(p: Policy, s: Loop, op: WriteOp, now: int, force: bool)
    requires WellKeyed(s) && op.key in s.pending
    ensures var t := FlushOne(p, s, op, now, force);
            && t.files.Keys == s.files.Keys + (if op.openOk then {op.key.builder} else {})
            && |t.handed| == |s.handed| + 1 && t.handed[..|s.handed|] == s.handed
            && (t.handed[|s.handed|].saved <==> op.writeOk && (op.key.builder in s.files || op.openOk))
  {
    assert KeyOf(EventOf(s.pending[op.key].record)) == op.key;
    assert FlushedEntry(p, s, op.key).record.builder == op.key.builder;
  }
}
