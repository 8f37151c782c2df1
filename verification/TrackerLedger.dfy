/** Every hash event the loop takes is accounted for, with its contents. */
module TrackerLedger {
  import opened Folding
  import opened TrackerTypes
  import opened TrackerLoop

  /** The hash events of a run, in order. */
  function HashesOf(evs: seq<LoopEvent>): seq<HashEvent> {
    if evs == [] then []
    else
      var last := evs[|evs| - 1];
      HashesOf(evs[..|evs| - 1]) + if last.HashArrives? then [last.hash] else []
  }

  function HeldBy(entry: PendingEntry): multiset<HashEvent> {
    multiset{EventOf(entry.record)}
  }

  function Written(handed: seq<Handed>): multiset<HashEvent> {
    if handed == [] then multiset{}
    else Written(handed[..|handed| - 1]) + HeldBy(handed[|handed| - 1].entry)
  }

  /** Where the events the loop has taken are now: waiting, replaced by a later event, or handed over. */
  ghost function Accounted(s: Loop): multiset<HashEvent> {
    Gather(s.pending, HeldBy) + multiset(s.overwritten) + Written(s.handed)
  }

  lemma HashAccounted(s: Loop, e: HashEvent, stamp: int, received: int)
    ensures Accounted(TakeHash(s, e, stamp, received)) == Accounted(s) + multiset{e}
  {
    var t := TakeHash(s, e, stamp, received);
    var key := KeyOf(e);
    var gone := if key in s.pending then HeldBy(s.pending[key]) else multiset{};
    GatherUpdate(s.pending, key, t.pending[key], HeldBy);
    assert multiset(t.overwritten) == multiset(s.overwritten) + gone;
    Exchange(Gather(t.pending, HeldBy), gone, Gather(s.pending, HeldBy), multiset{e},
             multiset(s.overwritten), Written(s.handed));
  }

  lemma Exchange<T>(after: multiset<T>, gone: multiset<T>, before: multiset<T>, added: multiset<T>,
                    log: multiset<T>, rest: multiset<T>)
    requires after + gone == before + added
    ensures after + (log + gone) + rest == before + log + rest + added
  {
    assert after + (log + gone) + rest == (after + gone) + log + rest;
    assert before + log + rest + added == (before + added) + log + rest;
  }

  lemma SimAccounted(s: Loop, e: SimEvent, received: int)
    ensures Accounted(TakeSim(s, e, received)) == Accounted(s)
  {
    var t := TakeSim(s, e, received);
    GatherSame(s.pending, t.pending, HeldBy);
  }

  lemma FlushOneAccounted(p: Policy, s: Loop, op: WriteOp, now: int, force: bool)
    ensures Accounted(FlushOne(p, s, op, now, force)) == Accounted(s)
  {
    if op.key in s.pending {
      var t, held := FlushOne(p, s, op, now, force), HeldBy(s.pending[op.key]);
      GatherSplit(s.pending, op.key, HeldBy);
      assert t.handed[..|s.handed|] == s.handed;
      assert Written(t.handed) == Written(s.handed) + held;
      HandOver(held, Gather(t.pending, HeldBy), multiset(s.overwritten), Written(s.handed));
    }
  }

  lemma HandOver<T>(held: multiset<T>, rest: multiset<T>, log: multiset<T>, written: multiset<T>)
    ensures rest + log + (written + held) == (held + rest) + log + written
  {
  }

  lemma {:induction false} FlushAccounted(p: Policy, s: Loop, ops: seq<WriteOp>, now: int, force: bool)
    ensures Accounted(FlushAll(p, s, ops, now, force)) == Accounted(s)
  {
    if ops != [] {
      FlushAccounted(p, s, ops[..|ops| - 1], now, force);
      FlushOneAccounted(p, FlushAll(p, s, ops[..|ops| - 1], now, force), ops[|ops| - 1], now, force);
    }
  }

  /** The hash event one loop event takes, if any. */
  function Taken(ev: LoopEvent): multiset<HashEvent> {
    if ev.HashArrives? then multiset{ev.hash} else multiset{}
  }

  lemma HashesGrow(evs: seq<LoopEvent>)
    requires evs != []
    ensures multiset(HashesOf(evs)) == multiset(HashesOf(evs[..|evs| - 1])) + Taken(evs[|evs| - 1])
  {
    var before := HashesOf(evs[..|evs| - 1]);
    if evs[|evs| - 1].HashArrives? {
      assert multiset(before + [evs[|evs| - 1].hash]) == multiset(before) + multiset{evs[|evs| - 1].hash};
    }
  }

  lemma StepAccounted(p: Policy, s: Loop, ev: LoopEvent)
    ensures Accounted(Step(p, s, ev)) == Accounted(s) + Taken(ev)
  {
    match ev
    case HashArrives(e, stamp, received) => HashAccounted(s, e, stamp, received);
    case SimArrives(e, received) => SimAccounted(s, e, received);
    case Flush(force, now, ops, _) => FlushAccounted(p, s, ops, now, force);
  }

  /**
    Conservation: in every run the hash events taken are, as a multiset and with all their fields, those
    still pending, those overwritten by a later event for the same bundle and builder, and those handed to
    the writer.
   */
  lemma {:induction false} HashesAreConserved(p: Policy, evs: seq<LoopEvent>)
    ensures multiset(HashesOf(evs)) == Accounted(Run(p, evs))
  {
    if evs != [] {
      HashesAreConserved(p, evs[..|evs| - 1]);
      HashesGrow(evs);
      StepAccounted(p, Run(p, evs[..|evs| - 1]), evs[|evs| - 1]);
    }
  }

  /** After the forced flush nothing waits: every event taken was handed over or overwritten. */
  lemma NothingWaitsAfterStop(evs: seq<LoopEvent>, start: int)
    requires Legal(evs, start) && Stopped(evs)
    ensures Run(REAL, evs).pending == map[]
    ensures multiset(HashesOf(evs)) == multiset(Run(REAL, evs).overwritten) + Written(Run(REAL, evs).handed)
  {
    FlushFilters(REAL, Run(REAL, evs[..|evs| - 1]), evs[|evs| - 1]);
    HashesAreConserved(REAL, evs);
  }
}
