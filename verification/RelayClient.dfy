/** One relay's client: the cooldown gate, the retry loop, the outcome counters and the recorded hash. */
module RelayClientObject {
  import opened RelayAttempts
  import opened TrackerTypes
  import opened Bundles

  datatype Request = Request(body: string, signature: string)

  /** What one call meets: clock readings, library results and the outcome of each attempt it might make. */
  datatype Call = Call(
    bundle: Bundle, now: int,
    buildOk: bool, encodeOk: bool, signOk: bool, requestOk: bool, body: string, signature: string,
    outcome: nat -> Attempt, limitedAt: int,
    hash: string, lastTxHash: string, transactions: seq<TxDetail>)

  datatype State = State(
    rateLimitedUntil: int, sent: nat, failed: nat, rateLimited: nat,
    wire: seq<Request>, recorded: seq<HashEvent>)

  const FRESH := State(0, 0, 0, 0, [], [])

  /** The gate: inside a cooldown window the relay is skipped. */
  predicate Gated(s: State, c: Call) {
    s.rateLimitedUntil > 0 && c.now < s.rateLimitedUntil
  }

  predicate Prepared(c: Call) {
    c.buildOk && c.encodeOk && c.signOk && c.requestOk
  }

  /** The attempt that decides a call which gets as far as sending. */
  function Last(c: Call): Attempt {
    c.outcome(Attempts(c.outcome) - 1)
  }

  function Judge(s: State, c: Call): Verdict {
    if Gated(s, c) then RateLimited else if !Prepared(c) then Failed else VerdictOf(Last(c))
  }

  predicate Sends(s: State, c: Call) {
    !Gated(s, c) && Prepared(c)
  }

  function Copies(r: Request, n: nat): seq<Request> {
    seq(n, _ => r)
  }

  /** The state a call leaves behind. */
  function AfterCall(s: State, c: Call, name: string, tracked: bool, cooldownMs: int): State {
    var verdict := Judge(s, c);
    State(
      if Sends(s, c) && verdict.RateLimited? then c.limitedAt + cooldownMs * MILLISECOND else s.rateLimitedUntil,
      s.sent + (if verdict.Sent? then 1 else 0),
      s.failed + (if verdict.Failed? then 1 else 0),
      s.rateLimited + (if verdict.RateLimited? then 1 else 0),
      s.wire + (if Sends(s, c) then Copies(Request(c.body, c.signature), Attempts(c.outcome)) else []),
      s.recorded + (if verdict.Sent? && tracked && c.hash != ""
                    then [HashEvent(c.bundle.bundleID, name, c.hash, c.bundle.targetBlock, c.lastTxHash, c.transactions)]
                    else []))
  }

  class RelayClient {
    const name: string
    const rateLimitCooldownMs: int
    const tracked: bool
    var rateLimitedUntil: int
    var sent: nat
    var failed: nat
    var rateLimited: nat
    var wire: seq<Request>
    var recorded: seq<HashEvent>

    ghost function View(): State
      reads this
    {
      State(rateLimitedUntil, sent, failed, rateLimited, wire, recorded)
    }

    constructor (name: string, rateLimitCooldownMs: int, tracked: bool)
      ensures this.name == name && this.rateLimitCooldownMs == rateLimitCooldownMs && this.tracked == tracked
      ensures View() == FRESH
    {
      this.name, this.rateLimitCooldownMs, this.tracked := name, rateLimitCooldownMs, tracked;
      rateLimitedUntil, sent, failed, rateLimited, wire, recorded := 0, 0, 0, 0, [], [];
    }

    function CooldownMs(): (ms: int)
      ensures ms > 0
      ensures ms == rateLimitCooldownMs || (rateLimitCooldownMs <= 0 && ms == 1000)
    {
      if rateLimitCooldownMs > 0 then rateLimitCooldownMs else DEFAULT_COOLDOWN_MS
    }

    method Broadcast(c: Call)
      modifies this
      ensures View() == AfterCall(old(View()), c, name, tracked, CooldownMs())
    {
      if rateLimitedUntil > 0 && c.now < rateLimitedUntil {
        rateLimited := rateLimited + 1;
        return;
      }
      if !c.buildOk {
        failed := failed + 1;
        return;
      }
      if !c.encodeOk {
        failed := failed + 1;
        return;
      }
      if !c.signOk {
        failed := failed + 1;
        return;
      }
      if !c.requestOk {
        failed := failed + 1;
        return;
      }
      var last := SendWithRetries(c);
      if last.Error? {
        failed := failed + 1;
        return;
      }
      if 200 <= last.status < 300 {
        sent := sent + 1;
        if tracked && c.hash != "" {
          recorded := recorded
            + [HashEvent(c.bundle.bundleID, name, c.hash, c.bundle.targetBlock, c.lastTxHash, c.transactions)];
        }
      } else if last.status == 429 {
        rateLimitedUntil := c.limitedAt + CooldownMs() * MILLISECOND;
        rateLimited := rateLimited + 1;
      } else {
        failed := failed + 1;
      }
    }

    /** The retry loop: the same body and signature every time, until an attempt is decisive or three are made. */
    method SendWithRetries(c: Call) returns (last: Attempt)
      modifies this`wire
      ensures last == Last(c)
      ensures wire == old(wire) + Copies(Request(c.body, c.signature), Attempts(c.outcome))
    {
      var attempt := 0;
      last := c.outcome(0);
      while attempt < MAX_RETRIES
        invariant attempt <= MAX_RETRIES
        invariant forall k: nat :: k < attempt ==> !Decisive(c.outcome(k))
        invariant wire == old(wire) + Copies(Request(c.body, c.signature), attempt)
        invariant attempt > 0 ==> last == c.outcome(attempt - 1)
      {
        wire := wire + [Request(c.body, c.signature)];
        last := c.outcome(attempt);
        var again := false;
        if last.Error? && !last.err.canceled && !last.err.deadlineExceeded {
          again := IsRetryableConnError(last.err);
        }
        if !again {
          AttemptsUnique(c.outcome, attempt + 1);
          return;
        }
        attempt := attempt + 1;
      }
      AttemptsUnique(c.outcome, MAX_RETRIES);
    }
  }

  // ---------- runs of calls ----------

  function AfterCalls(cs: seq<Call>, name: string, tracked: bool, cooldownMs: int): State {
    if cs == [] then FRESH
    else AfterCall(AfterCalls(cs[..|cs| - 1], name, tracked, cooldownMs), cs[|cs| - 1], name, tracked, cooldownMs)
  }

  /** Every completed call is counted once, as sent, failed or rate limited, and makes at most three requests. */
  lemma {:induction false} EveryCallIsCounted(cs: seq<Call>, name: string, tracked: bool, cooldownMs: int)
    ensures var s := AfterCalls(cs, name, tracked, cooldownMs);
            && s.sent + s.failed + s.rateLimited == |cs|
            && |s.recorded| <= s.sent
            && |s.wire| <= 3 * |cs|
  {
    if cs != [] {
      EveryCallIsCounted(cs[..|cs| - 1], name, tracked, cooldownMs);
    }
  }

  // ---------- what each answer does ----------

  /** The outcome that ends a call's attempts: the first decisive one, or the third. */
  ghost predicate EndsWith(c: Call, n: nat, last: Attempt) {
    && 1 <= n <= 3 && last == c.outcome(n - 1) && (n == 3 || Decisive(last))
    && forall k: nat :: k < n - 1 ==> !Decisive(c.outcome(k))
  }

  /** Exactly one of the counters went up, by one. */
  predicate Counts(s: State, t: State, sent: nat, failed: nat, rateLimited: nat) {
    t.sent == s.sent + sent && t.failed == s.failed + failed && t.rateLimited == s.rateLimited + rateLimited
  }

  /**
    The next call after any sequence of calls.  Before the stored deadline it is skipped and counted as rate
    limited; at or after it, it is not skipped: if it cannot be prepared it fails without a request.
   */
  lemma GateDecides(cs: seq<Call>, c: Call, name: string, tracked: bool, cooldownMs: int)
    requires c.now >= 0
    ensures var s, t := AfterCalls(cs, name, tracked, cooldownMs), AfterCalls(cs + [c], name, tracked, cooldownMs);
            && (c.now < s.rateLimitedUntil ==> t == s.(rateLimited := s.rateLimited + 1))
            && (c.now >= s.rateLimitedUntil && !(c.buildOk && c.encodeOk && c.signOk && c.requestOk) ==>
                  t == s.(failed := s.failed + 1))
            && (c.now >= s.rateLimitedUntil && c.buildOk && c.encodeOk && c.signOk && c.requestOk ==> |t.wire| > |s.wire|)
  {
    assert (cs + [c])[..|cs|] == cs;
  }

  /**
    And what its answer does, if it gets to send: any 2xx counts as sent and, on a tracked relay with a hash in
    the answer, records it; 429 counts as rate limited and sets the deadline; everything else, an error
    included, counts as failed.  Nothing else changes, and n identical requests were made.
   */
  lemma AnswerDecides(cs: seq<Call>, c: Call, n: nat, last: Attempt, name: string, tracked: bool, cooldownMs: int)
    requires c.now >= 0 && c.now >= AfterCalls(cs, name, tracked, cooldownMs).rateLimitedUntil
    requires c.buildOk && c.encodeOk && c.signOk && c.requestOk && EndsWith(c, n, last)
    ensures var s, t := AfterCalls(cs, name, tracked, cooldownMs), AfterCalls(cs + [c], name, tracked, cooldownMs);
            var ok, limited := last.Response? && 200 <= last.status < 300, last.Response? && last.status == 429;
            && Counts(s, t, if ok then 1 else 0, if !ok && !limited then 1 else 0, if limited then 1 else 0)
            && t.rateLimitedUntil == (if limited then c.limitedAt + cooldownMs * 1_000_000 else s.rateLimitedUntil)
            && t.recorded == s.recorded
                 + (if ok && tracked && c.hash != ""
                    then [HashEvent(c.bundle.bundleID, name, c.hash, c.bundle.targetBlock, c.lastTxHash, c.transactions)]
                    else [])
            && t.wire == s.wire + seq(n, _ => Request(c.body, c.signature))
  {
    assert (cs + [c])[..|cs|] == cs;
    AttemptsUnique(c.outcome, n);
  }

  /** What is recorded stays recorded, in order. */
  lemma {:induction false} RecordedStays(cs: seq<Call>, n: nat, name: string, tracked: bool, cooldownMs: int)
    requires n <= |cs|
    ensures AfterCalls(cs[..n], name, tracked, cooldownMs).recorded <= AfterCalls(cs, name, tracked, cooldownMs).recorded
  {
    if n < |cs| {
      RecordedStays(cs[..|cs| - 1], n, name, tracked, cooldownMs);
      assert cs[..|cs| - 1][..n] == cs[..n];
    } else {
      assert cs[..n] == cs;
    }
  }

  /** In every sequence of calls, each hash that a tracked relay answered to an accepted call is recorded for good. */
  lemma AcceptedHashesAreRecorded(cs: seq<Call>, i: nat, n: nat, last: Attempt, name: string, cooldownMs: int)
    requires i < |cs| && cs[i].now >= 0 && cs[i].now >= AfterCalls(cs[..i], name, true, cooldownMs).rateLimitedUntil
    requires cs[i].buildOk && cs[i].encodeOk && cs[i].signOk && cs[i].requestOk && EndsWith(cs[i], n, last)
    requires last.Response? && 200 <= last.status < 300 && cs[i].hash != ""
    ensures HashEvent(cs[i].bundle.bundleID, name, cs[i].hash, cs[i].bundle.targetBlock, cs[i].lastTxHash, cs[i].transactions)
              in AfterCalls(cs, name, true, cooldownMs).recorded
  {
    assert cs[..i] + [cs[i]] == cs[..i + 1];
    AnswerDecides(cs[..i], cs[i], n, last, name, true, cooldownMs);
    RecordedStays(cs, i + 1, name, true, cooldownMs);
  }

  /** Every hash passed to the tracker came from a call the relay accepted, under this relay's name, with that call's data. */
  lemma {:induction false} RecordedHashesWereAccepted(cs: seq<Call>, k: nat, name: string, tracked: bool, cooldownMs: int)
    returns (i: nat)
    requires k < |AfterCalls(cs, name, tracked, cooldownMs).recorded|
    ensures tracked && i < |cs| && Sends(AfterCalls(cs[..i], name, tracked, cooldownMs), cs[i])
    ensures Last(cs[i]).Response? && 200 <= Last(cs[i]).status < 300 && cs[i].hash != ""
    ensures var e := AfterCalls(cs, name, tracked, cooldownMs).recorded[k];
            && e.builder == name && e.bundleHash == cs[i].hash
            && e.bundleID == cs[i].bundle.bundleID && e.targetBlock == cs[i].bundle.targetBlock
            && e.lastTxHash == cs[i].lastTxHash && e.transactions == cs[i].transactions
  {
    var n := |cs| - 1;
    if k < |AfterCalls(cs[..n], name, tracked, cooldownMs).recorded| {
      i := RecordedHashesWereAccepted(cs[..n], k, name, tracked, cooldownMs);
      assert cs[..n][..i] == cs[..i];
    } else {
      i := n;
    }
  }

  /** Calls made one after the other read a clock that does not go back. */
  ghost predicate InOrder(cs: seq<Call>) {
    && (forall i :: 0 <= i < |cs| ==> 0 <= cs[i].now <= cs[i].limitedAt)
    && (forall i, j :: 0 <= i < j < |cs| ==> cs[i].limitedAt <= cs[j].now)
  }

  ghost predicate Limits(cs: seq<Call>, i: nat, name: string, tracked: bool, cooldownMs: int)
    requires i < |cs|
  {
    var s := AfterCalls(cs[..i], name, tracked, cooldownMs);
    Sends(s, cs[i]) && Judge(s, cs[i]).RateLimited?
  }

  /** A call leaves the gate alone unless it meets a 429 of its own. */
  lemma GateMovesOnlyOnLimit(s: State, c: Call, name: string, tracked: bool, cooldownMs: int)
    ensures AfterCall(s, c, name, tracked, cooldownMs).rateLimitedUntil ==
              if Sends(s, c) && Judge(s, c).RateLimited? then c.limitedAt + cooldownMs * MILLISECOND else s.rateLimitedUntil
  {
  }

  /** The gate is never earlier than what any 429 so far asked for. */
  lemma {:induction false} GateCoversEveryLimit(cs: seq<Call>, i: nat, name: string, tracked: bool, cooldownMs: int)
    requires InOrder(cs) && i < |cs| && cooldownMs > 0 && Limits(cs, i, name, tracked, cooldownMs)
    ensures AfterCalls(cs, name, tracked, cooldownMs).rateLimitedUntil >= cs[i].limitedAt + cooldownMs * 1_000_000
    decreases |cs|
  {
    var n := |cs| - 1;
    var before := cs[..n];
    GateMovesOnlyOnLimit(AfterCalls(before, name, tracked, cooldownMs), cs[n], name, tracked, cooldownMs);
    if i < n {
      assert before[..i] == cs[..i] && before[i] == cs[i];
      GateCoversEveryLimit(before, i, name, tracked, cooldownMs);
      assert cs[i].limitedAt <= cs[n].now <= cs[n].limitedAt;
    }
  }

  /**
    Cooldown safety: after a 429 (section 4 of RFC 6585) handled at time t, no call that starts before
    t + cooldown makes any request; it is counted as rate limited.
   */
  lemma CooldownIsRespected(cs: seq<Call>, i: nat, next: Call, name: string, tracked: bool, cooldownMs: int)
    requires InOrder(cs) && i < |cs| && cooldownMs > 0 && Limits(cs, i, name, tracked, cooldownMs)
    requires next.now < cs[i].limitedAt + cooldownMs * 1_000_000
    ensures var s := AfterCalls(cs, name, tracked, cooldownMs);
            var t := AfterCall(s, next, name, tracked, cooldownMs);
            t.wire == s.wire && t.rateLimited == s.rateLimited + 1
  {
    GateCoversEveryLimit(cs, i, name, tracked, cooldownMs);
  }
}
