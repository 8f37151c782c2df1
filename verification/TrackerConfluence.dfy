/**
  The loop selects between its two channels arbitrarily.  Between two flushes the choice does not matter:
  with time stamps erased, only the order within each channel does.
 */
module TrackerConfluence {
  import opened TrackerTypes
  import opened TrackerLoop
  import opened TrackerLedger

  /** The two maps with every clock reading erased. */
  datatype Timeless = Timeless(pending: map<Key, BundleRecord>, cache: map<string, SimFields>)

  function Erase(s: Loop): Timeless {
    Timeless(map k | k in s.pending :: s.pending[k].record.(timestamp := 0),
             map id | id in s.simCache :: CachedSim(s.simCache[id]))
  }

  function WithSim(r: BundleRecord, f: SimFields): BundleRecord {
    r.(coinbaseDiffETH := f.coinbaseDiff, ethToBuilderETH := f.ethToBuilder, gasFeesETH := f.gasFees,
       totalGasUsed := f.gasUsed, bundleGasPrice := f.gasPrice, simStateBlock := f.stateBlock)
  }

  function AddHash(x: Timeless, e: HashEvent): Timeless {
    var f := if e.bundleID in x.cache then x.cache[e.bundleID] else BLANK;
    x.(pending := x.pending[KeyOf(e) := WithSim(NewRecord(e, 0), f)])
  }

  function AddSim(x: Timeless, m: SimEvent): Timeless {
    Timeless(map k | k in x.pending :: if k.bundleID == m.bundleID then WithSim(x.pending[k], EventSim(m)) else x.pending[k],
             x.cache[m.bundleID := EventSim(m)])
  }

  function AddHashes(x: Timeless, es: seq<HashEvent>): Timeless {
    if es == [] then x else AddHash(AddHashes(x, es[..|es| - 1]), es[|es| - 1])
  }

  function AddSims(x: Timeless, ms: seq<SimEvent>): Timeless {
    if ms == [] then x else AddSim(AddSims(x, ms[..|ms| - 1]), ms[|ms| - 1])
  }

  /** The simulations of a run, in order. */
  function SimsOf(evs: seq<LoopEvent>): seq<SimEvent> {
    if evs == [] then []
    else
      var last := evs[|evs| - 1];
      SimsOf(evs[..|evs| - 1]) + if last.SimArrives? then [last.sim] else []
  }

  ghost predicate NoFlush(evs: seq<LoopEvent>) {
    forall i :: 0 <= i < |evs| ==> !evs[i].Flush?
  }

  lemma EraseHash(s: Loop, e: HashEvent, stamp: int, received: int)
    ensures Erase(TakeHash(s, e, stamp, received)) == AddHash(Erase(s), e)
  {
    var x, y := Erase(TakeHash(s, e, stamp, received)), AddHash(Erase(s), e);
    RecordDetermined(x.pending[KeyOf(e)], y.pending[KeyOf(e)]);
    assert x.pending == y.pending;
  }

  lemma EraseSim(s: Loop, m: SimEvent, received: int)
    ensures Erase(TakeSim(s, m, received)) == AddSim(Erase(s), m)
  {
    var x, y := Erase(TakeSim(s, m, received)), AddSim(Erase(s), m);
    assert x.pending == y.pending;
    assert x.cache == y.cache;
  }

  /** A hash and a simulation commute, of the same bundle or not. */
  lemma HashSimCommute(x: Timeless, e: HashEvent, m: SimEvent)
    ensures AddHash(AddSim(x, m), e) == AddSim(AddHash(x, e), m)
  {
    var y, z := AddHash(AddSim(x, m), e), AddSim(AddHash(x, e), m);
    assert y.pending == z.pending;
  }

  lemma {:induction false} HashPassesSims(x: Timeless, e: HashEvent, ms: seq<SimEvent>)
    ensures AddHash(AddSims(x, ms), e) == AddSims(AddHash(x, e), ms)
  {
    if ms != [] {
      var n := |ms| - 1;
      HashSimCommute(AddSims(x, ms[..n]), e, ms[n]);
      HashPassesSims(x, e, ms[..n]);
    }
  }

  /** Any interleaving ends where taking all hashes first and all simulations after them ends. */
  lemma {:induction false} HashesFirst(p: Policy, s: Loop, evs: seq<LoopEvent>)
    requires NoFlush(evs)
    ensures Erase(RunFrom(p, s, evs)) == AddSims(AddHashes(Erase(s), HashesOf(evs)), SimsOf(evs))
  {
    if evs != [] {
      var n := |evs| - 1;
      HashesFirst(p, s, evs[..n]);
      var t := RunFrom(p, s, evs[..n]);
      var hashes, sims := HashesOf(evs[..n]), SimsOf(evs[..n]);
      match evs[n]
      case HashArrives(e, stamp, received) =>
        EraseHash(t, e, stamp, received);
        HashPassesSims(AddHashes(Erase(s), hashes), e, sims);
        assert HashesOf(evs)[..|hashes|] == hashes && SimsOf(evs) == sims;
      case SimArrives(m, received) =>
        EraseSim(t, m, received);
        assert SimsOf(evs)[..|sims|] == sims && HashesOf(evs) == hashes;
    }
  }

  /**
    Confluence: from any state, two runs without a flush that take the same hashes in the same order and the
    same simulations in the same order end with the same `pending` and the same cache, time stamps erased.
   */
  lemma InterleavingsAgree(p: Policy, s: Loop, one: seq<LoopEvent>, two: seq<LoopEvent>)
    requires NoFlush(one) && NoFlush(two)
    requires HashesOf(one) == HashesOf(two) && SimsOf(one) == SimsOf(two)
    ensures Erase(RunFrom(p, s, one)) == Erase(RunFrom(p, s, two))
  {
    HashesFirst(p, s, one);
    HashesFirst(p, s, two);
  }
}
