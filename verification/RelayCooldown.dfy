/**
  Calls to one relay client that overlap.  Every access to the shared `rateLimitedUntil` is a step of its
  own, and so is reading the clock before storing: the 429 branch computes the new deadline first and stores
  it later.
 */
module RelayCooldown {
  import opened Folding
  import opened RelayAttempts

  /** `loaded` is the value a call read at the gate, `seen` the number of stores made before that. */
  datatype Phase =
    | Loaded(loaded: int, seen: nat)
    | Sending(loaded: int, seen: nat, gate: int, attempts: seq<Attempt>)
    | Limited(loaded: int, seen: nat, gate: int, attempts: seq<Attempt>)
    | Storing(loaded: int, seen: nat, gate: int, attempts: seq<Attempt>, read: int)
    | Done(attempts: seq<Attempt>, verdict: Verdict)

  /** `stores` are the clock readings of the deadlines stored so far, in the order of the stores. */
  datatype State = State(
    cooldown: nat, clock: nat, until: int, stores: seq<int>, calls: map<nat, Phase>,
    sent: nat, failed: nat, rateLimited: nat)

  datatype Action =
    | Advance(clock: nat)
    | Load(call: nat) | Gate(call: nat) | PrepareFails(call: nat) | Try(call: nat, outcome: Attempt)
    | ReadClock(call: nat) | Store(call: nat)

  function Start(cooldown: nat): State {
    State(cooldown, 0, 0, [], map[], 0, 0, 0)
  }

  predicate Enabled(s: State, a: Action) {
    match a
    case Advance(t) => s.clock <= t
    case Load(c) => c !in s.calls
    case Gate(c) => c in s.calls && s.calls[c].Loaded?
    case PrepareFails(c) => c in s.calls && s.calls[c].Sending? && s.calls[c].attempts == []
    case Try(c, _) => c in s.calls && s.calls[c].Sending?
    case ReadClock(c) => c in s.calls && s.calls[c].Limited?
    case Store(c) => c in s.calls && s.calls[c].Storing?
  }

  function Count(s: State, v: Verdict): State {
    match v
    case Sent => s.(sent := s.sent + 1)
    case Failed => s.(failed := s.failed + 1)
    case RateLimited => s.(rateLimited := s.rateLimited + 1)
  }

  /** Where an attempt leads: out of the loop with a verdict, to the 429 branch, or round again. */
  function AfterTry(p: Phase, outcome: Attempt): Phase
    requires p.Sending?
  {
    var all := p.attempts + [outcome];
    if outcome.Response? && outcome.status == 429 then Limited(p.loaded, p.seen, p.gate, all)
    else if Decisive(outcome) || |all| == MAX_RETRIES then Done(all, VerdictOf(outcome))
    else Sending(p.loaded, p.seen, p.gate, all)
  }

  function Apply(s: State, a: Action): State
    requires Enabled(s, a)
  {
    match a
    case Advance(t) => s.(clock := t)
    case Load(c) => s.(calls := s.calls[c := Loaded(s.until, |s.stores|)])
    case Gate(c) =>
      var p := s.calls[c];
      if p.loaded > 0 && s.clock < p.loaded then
        Count(s.(calls := s.calls[c := Done([], RateLimited)]), RateLimited)
      else
        s.(calls := s.calls[c := Sending(p.loaded, p.seen, s.clock, [])])
    case PrepareFails(c) => Count(s.(calls := s.calls[c := Done([], Failed)]), Failed)
    case Try(c, outcome) =>
      var q := AfterTry(s.calls[c], outcome);
      var t := s.(calls := s.calls[c := q]);
      if q.Done? then Count(t, q.verdict) else t
    case ReadClock(c) =>
      var p := s.calls[c];
      s.(calls := s.calls[c := Storing(p.loaded, p.seen, p.gate, p.attempts, s.clock)])
    case Store(c) =>
      var p := s.calls[c];
      Count(s.(until := p.read + s.cooldown, stores := s.stores + [p.read],
               calls := s.calls[c := Done(p.attempts, RateLimited)]), RateLimited)
  }

  ghost predicate IsRun(states: seq<State>, acts: seq<Action>, cooldown: nat) {
    && |states| == |acts| + 1 && states[0] == Start(cooldown)
    && forall i {:trigger acts[i]} :: 0 <= i < |acts| ==>
         Enabled(states[i], acts[i]) && states[i + 1] == Apply(states[i], acts[i])
  }

  // ---------- what every state keeps ----------

  /** Attempts so far: none but the last is decisive, and there are at most three. */
  predicate WellTried(attempts: seq<Attempt>) {
    |attempts| <= MAX_RETRIES && forall i :: 0 <= i < |attempts| - 1 ==> !Decisive(attempts[i])
  }

  /** A call past the gate read its clock at or after the deadline of the last store it saw. */
  predicate RespectsSeen(s: State, seen: nat, gate: int) {
    seen <= |s.stores| && (seen > 0 ==> gate >= s.stores[seen - 1] + s.cooldown)
  }

  predicate CallOk(s: State, p: Phase) {
    match p
    case Loaded(loaded, seen) =>
      && seen <= |s.stores|
      && loaded == (if seen > 0 then s.stores[seen - 1] + s.cooldown else 0)
    case Sending(_, seen, gate, attempts) =>
      && RespectsSeen(s, seen, gate) && WellTried(attempts) && |attempts| < MAX_RETRIES
      && (attempts != [] ==> !Decisive(attempts[|attempts| - 1]))
    case Limited(_, seen, gate, attempts) =>
      RespectsSeen(s, seen, gate) && WellTried(attempts) && EndsWith429(attempts)
    case Storing(_, seen, gate, attempts, read) =>
      RespectsSeen(s, seen, gate) && WellTried(attempts) && EndsWith429(attempts) && 0 <= read <= s.clock
    case Done(attempts, verdict) =>
      && WellTried(attempts)
      && (attempts == [] ==> !verdict.Sent?)
      && (attempts != [] ==>
            && verdict == VerdictOf(attempts[|attempts| - 1])
            && (|attempts| == MAX_RETRIES || Decisive(attempts[|attempts| - 1])))
  }

  predicate EndsWith429(attempts: seq<Attempt>) {
    attempts != [] && attempts[|attempts| - 1] == Response(429)
  }

  ghost predicate Sound(s: State) {
    && (forall c :: c in s.calls ==> CallOk(s, s.calls[c]))
    && s.until == (if s.stores == [] then 0 else s.stores[|s.stores| - 1] + s.cooldown)
    && (forall i :: 0 <= i < |s.stores| ==> 0 <= s.stores[i] <= s.clock)
  }

  /** One for a completed call judged `v`. */
  function Judged(v: Verdict): Phase -> nat {
    (p: Phase) => if p.Done? && p.verdict == v then 1 else 0
  }

  /** The counter that stands for `v`. */
  function Counter(s: State, v: Verdict): nat {
    match v
    case Sent => s.sent
    case Failed => s.failed
    case RateLimited => s.rateLimited
  }

  ghost predicate Tallied(s: State, v: Verdict) {
    Counter(s, v) == Total(s.calls, Judged(v))
  }

  /** More stores and a later clock change nothing for a call that is not touched. */
  lemma CallStaysOk(s: State, t: State, p: Phase)
    requires CallOk(s, p) && s.clock <= t.clock && s.stores <= t.stores && s.cooldown == t.cooldown
    ensures CallOk(t, p)
  {
  }

  lemma TryOk(s: State, p: Phase, outcome: Attempt)
    requires CallOk(s, p) && p.Sending?
    ensures CallOk(s, AfterTry(p, outcome))
  {
    var all := p.attempts + [outcome];
    assert all[|all| - 1] == outcome;
    assert forall i :: 0 <= i < |p.attempts| ==> all[i] == p.attempts[i];
  }

  lemma TouchedOk(s: State, a: Action)
    requires Sound(s) && Enabled(s, a) && !a.Advance?
    ensures CallOk(Apply(s, a), Apply(s, a).calls[a.call])
  {
    match a
    case Try(c, outcome) => TryOk(s, s.calls[c], outcome);
    case Store(c) => CallStaysOk(s, Apply(s, a), Done(s.calls[c].attempts, RateLimited));
    case _ =>
  }

  lemma StepSound(s: State, a: Action)
    requires Sound(s) && Enabled(s, a)
    ensures Sound(Apply(s, a))
  {
    var t := Apply(s, a);
    if !a.Advance? {
      TouchedOk(s, a);
    }
    forall c | c in t.calls ensures CallOk(t, t.calls[c]) {
      if a.Advance? || c != a.call {
        CallStaysOk(s, t, s.calls[c]);
      }
    }
  }

  lemma {:induction false} RunSound(states: seq<State>, acts: seq<Action>, cooldown: nat, n: nat)
    requires IsRun(states, acts, cooldown) && n <= |acts|
    ensures Sound(states[n]) && states[n].cooldown == cooldown
  {
    if n > 0 {
      RunSound(states, acts, cooldown, n - 1);
      StepSound(states[n - 1], acts[n - 1]);
    }
  }

  lemma StepTallied(s: State, a: Action, v: Verdict)
    requires Tallied(s, v) && Enabled(s, a)
    ensures Tallied(Apply(s, a), v)
  {
    var t := Apply(s, a);
    if a.Load? {
      TotalSplit(t.calls, a.call, Judged(v));
      assert t.calls - {a.call} == s.calls;
    } else if !a.Advance? {
      TotalUpdate(s.calls, a.call, t.calls[a.call], Judged(v));
      assert t.calls == s.calls[a.call := t.calls[a.call]];
    }
  }

  /** Over every interleaving, each of the three counters is the number of completed calls with its verdict. */
  lemma {:induction false} EveryOverlappingCallIsCounted(states: seq<State>, acts: seq<Action>, cooldown: nat, n: nat, v: Verdict)
    requires IsRun(states, acts, cooldown) && n <= |acts|
    ensures Counter(states[n], v) == Total(states[n].calls, Judged(v))
  {
    if n > 0 {
      EveryOverlappingCallIsCounted(states, acts, cooldown, n - 1, v);
      StepTallied(states[n - 1], acts[n - 1], v);
    }
  }

  /** A completed call that sent made its attempts up to the first decisive one, at most three. */
  lemma CompletedCallsTriedRight(states: seq<State>, acts: seq<Action>, cooldown: nat, n: nat, c: nat, outcome: nat -> Attempt)
    requires IsRun(states, acts, cooldown) && n <= |acts|
    requires c in states[n].calls && states[n].calls[c].Done? && states[n].calls[c].attempts != []
    requires var made := states[n].calls[c].attempts; forall k: nat :: k < |made| ==> outcome(k) == made[k]
    ensures |states[n].calls[c].attempts| == Attempts(outcome)
    ensures var last, verdict := outcome(Attempts(outcome) - 1), states[n].calls[c].verdict;
            && (verdict.Sent? <==> last.Response? && 200 <= last.status < 300)
            && (verdict.RateLimited? <==> last.Response? && last.status == 429)
  {
    RunSound(states, acts, cooldown, n);
    assert CallOk(states[n], states[n].calls[c]);
    AttemptsUnique(outcome, |states[n].calls[c].attempts|);
  }

  /** Where the latest of the attempts `all`, which ended as `last`, leads. */
  predicate AnswerMeans(all: seq<Attempt>, last: Attempt, q: Phase) {
    var ok, limited := last.Response? && 200 <= last.status < 300, last.Response? && last.status == 429;
    && (ok <==> q == Done(all, Sent))
    && (limited <==> q.Limited? && q.attempts == all)
    && (!ok && !limited && (Decisive(last) || |all| == 3) <==> q == Done(all, Failed))
    && (!Decisive(last) && |all| < 3 <==> q.Sending? && q.attempts == all)
  }

  /**
    What the verdicts mean, in every interleaving: a call that cannot be prepared fails without an attempt; a
    2xx answer makes it sent; a 429 leads to the store and then to rate limited; any other outcome makes it
    failed if it is decisive or the third, and is tried again if not.
   */
  lemma VerdictsMean(states: seq<State>, acts: seq<Action>, cooldown: nat, n: nat)
    requires IsRun(states, acts, cooldown) && n < |acts| && !acts[n].Advance? && !acts[n].Load?
    ensures acts[n].call in states[n].calls
    ensures var a, p, q := acts[n], states[n].calls[acts[n].call], states[n + 1].calls[acts[n].call];
            && (a.Gate? ==> q == Done([], RateLimited) || (q.Sending? && q.attempts == []))
            && (a.PrepareFails? ==> q == Done([], Failed))
            && (a.Store? ==> p.Storing? && q == Done(p.attempts, RateLimited))
            && (a.ReadClock? ==> p.Limited? && q.Storing? && q.attempts == p.attempts)
            && (a.Try? ==> p.Sending? && AnswerMeans(p.attempts + [a.outcome], a.outcome, q))
  {
    RunSound(states, acts, cooldown, n);
    assert Enabled(states[n], acts[n]) && states[n + 1] == Apply(states[n], acts[n]);
    assert CallOk(states[n], states[n].calls[acts[n].call]);
  }

  // ---------- the cooldown ----------

  lemma {:induction false} SeenIsFixedAtLoad(states: seq<State>, acts: seq<Action>, cooldown: nat, i: nat, n: nat)
    requires IsRun(states, acts, cooldown) && i < n <= |acts| && acts[i].Load?
    ensures acts[i].call in states[n].calls
    ensures states[n].calls[acts[i].call].Done? || states[n].calls[acts[i].call].seen == |states[i].stores|
    ensures states[i].stores <= states[n].stores && states[i].clock <= states[n].clock
  {
    var a := acts[n - 1];
    if i < n - 1 {
      SeenIsFixedAtLoad(states, acts, cooldown, i, n - 1);
    }
  }

  lemma {:induction false} GateIsPast(states: seq<State>, acts: seq<Action>, cooldown: nat, n: nat)
    requires IsRun(states, acts, cooldown) && n <= |acts|
    ensures forall c :: c in states[n].calls && states[n].calls[c].Sending? ==> states[n].calls[c].gate <= states[n].clock
  {
    if n > 0 {
      var a := acts[n - 1];
      GateIsPast(states, acts, cooldown, n - 1);
    }
  }

  /**
    Cooldown safety over every interleaving: an attempt made by a call that read the gate after a 429
    deadline was stored (section 4 of RFC 6585) happens at least a cooldown after the clock reading of the
    latest such 429.  Only calls that read the gate before the store may still send inside the window.
   */
  lemma NoAttemptInsideTheWindow(states: seq<State>, acts: seq<Action>, cooldown: nat, i: nat, j: nat)
    requires IsRun(states, acts, cooldown) && i < j < |acts|
    requires acts[i].Load? && acts[j].Try? && acts[i].call == acts[j].call
    requires states[i].stores != []
    ensures states[j].clock >= states[i].stores[|states[i].stores| - 1] + cooldown
  {
    SeenIsFixedAtLoad(states, acts, cooldown, i, j);
    RunSound(states, acts, cooldown, j);
    GateIsPast(states, acts, cooldown, j);
    assert Enabled(states[j], acts[j]);
    assert CallOk(states[j], states[j].calls[acts[j].call]);
  }

  /**
    A call that reads the gate at `i` and its clock at `j` is skipped exactly when a deadline had been stored
    by `i` and the latest one is still ahead at `j`.
   */
  lemma GateSkipsIff(states: seq<State>, acts: seq<Action>, cooldown: nat, i: nat, j: nat)
    requires IsRun(states, acts, cooldown) && i < j < |acts|
    requires acts[i].Load? && acts[j].Gate? && acts[i].call == acts[j].call
    ensures var stores := states[i].stores;
            states[j + 1].calls[acts[j].call] == Done([], RateLimited) <==>
              stores != [] && states[j].clock < stores[|stores| - 1] + cooldown
  {
    SeenIsFixedAtLoad(states, acts, cooldown, i, j);
    RunSound(states, acts, cooldown, j);
    assert Enabled(states[j], acts[j]) && states[j + 1] == Apply(states[j], acts[j]);
    assert CallOk(states[j], states[j].calls[acts[j].call]);
  }

  lemma {:induction false} ReadingIsKept(states: seq<State>, acts: seq<Action>, cooldown: nat, i: nat, n: nat)
    requires IsRun(states, acts, cooldown) && i < n <= |acts| && acts[i].ReadClock?
    ensures acts[i].call in states[n].calls
    ensures var p := states[n].calls[acts[i].call]; p.Done? || (p.Storing? && p.read == states[i].clock)
  {
    assert Enabled(states[i], acts[i]) && states[i + 1] == Apply(states[i], acts[i]);
    if i < n - 1 {
      var a := acts[n - 1];
      ReadingIsKept(states, acts, cooldown, i, n - 1);
      assert Enabled(states[n - 1], a) && states[n] == Apply(states[n - 1], a);
    }
  }

  /** In every interleaving the deadline a call stores is a cooldown after the clock it read in the 429 branch. */
  lemma StoredIsRead(states: seq<State>, acts: seq<Action>, cooldown: nat, i: nat, j: nat)
    requires IsRun(states, acts, cooldown) && i < j < |acts|
    requires acts[i].ReadClock? && acts[j].Store? && acts[i].call == acts[j].call
    ensures states[j + 1].until == states[i].clock + cooldown
    ensures states[j + 1].stores == states[j].stores + [states[i].clock]
  {
    ReadingIsKept(states, acts, cooldown, i, j);
    RunSound(states, acts, cooldown, j);
    assert Enabled(states[j], acts[j]) && states[j + 1] == Apply(states[j], acts[j]);
  }

  /** Every deadline is stored at the very reading it was computed from. */
  ghost predicate StoresArePrompt(states: seq<State>, acts: seq<Action>)
    requires |states| == |acts| + 1
  {
    forall i {:trigger acts[i]} :: 0 <= i < |acts| && acts[i].Store? ==>
      acts[i].call in states[i].calls && states[i].calls[acts[i].call].Storing?
      && states[i].calls[acts[i].call].read == states[i].clock
  }

  ghost predicate Sorted(q: seq<int>) {
    forall i, j :: 0 <= i < j < |q| ==> q[i] <= q[j]
  }

  /** Then the stored deadlines never go back: each covers all earlier ones. */
  lemma {:induction false} PromptStoresNeverGoBack(states: seq<State>, acts: seq<Action>, cooldown: nat, n: nat)
    requires IsRun(states, acts, cooldown) && n <= |acts| && StoresArePrompt(states, acts)
    ensures Sorted(states[n].stores)
    ensures n > 0 ==> states[n - 1].until <= states[n].until
  {
    RunSound(states, acts, cooldown, n);
    if n > 0 {
      PromptStoresNeverGoBack(states, acts, cooldown, n - 1);
      RunSound(states, acts, cooldown, n - 1);
      var a := acts[n - 1];
      assert Enabled(states[n - 1], a);
    }
  }

  /** So in such runs an attempt keeps its distance to every 429 stored before its call read the gate. */
  lemma PromptStoresCoverEveryLimit(states: seq<State>, acts: seq<Action>, cooldown: nat, i: nat, j: nat, k: nat)
    requires IsRun(states, acts, cooldown) && i < j < |acts| && StoresArePrompt(states, acts)
    requires acts[i].Load? && acts[j].Try? && acts[i].call == acts[j].call
    requires k < |states[i].stores|
    ensures states[j].clock >= states[i].stores[k] + cooldown
  {
    NoAttemptInsideTheWindow(states, acts, cooldown, i, j);
    PromptStoresNeverGoBack(states, acts, cooldown, i);
  }

  /** A store lowers the deadline exactly when its clock reading is older than that of the latest store. */
  lemma StoreLowersIff(states: seq<State>, acts: seq<Action>, cooldown: nat, n: nat)
    requires IsRun(states, acts, cooldown) && n < |acts| && acts[n].Store?
    ensures var s := states[n];
            states[n + 1].until < s.until <==>
              s.stores != [] && s.calls[acts[n].call].read < s.stores[|s.stores| - 1]
  {
    RunSound(states, acts, cooldown, n);
    assert Enabled(states[n], acts[n]) && states[n + 1] == Apply(states[n], acts[n]);
    assert CallOk(states[n], states[n].calls[acts[n].call]);
  }

  lemma Extend(states: seq<State>, acts: seq<Action>, cooldown: nat, a: Action)
    requires IsRun(states, acts, cooldown) && Enabled(states[|acts|], a)
    ensures IsRun(states + [Apply(states[|acts|], a)], acts + [a], cooldown)
  {
    var longer, more := states + [Apply(states[|acts|], a)], acts + [a];
    forall i | 0 <= i < |more|
      ensures Enabled(longer[i], more[i]) && longer[i + 1] == Apply(longer[i], more[i])
    {
      if i < |acts| {
        assert more[i] == acts[i];
      }
    }
  }

  /** Two calls that overlap and are both answered 429. */
  lemma TwoCallsLimited(cooldown: nat) returns (states: seq<State>, acts: seq<Action>)
    ensures IsRun(states, acts, cooldown) && acts != []
    ensures var calls := states[|acts|].calls; 0 in calls && calls[0].Limited? && 1 in calls && calls[1].Limited?
  {
    states, acts := [Start(cooldown)], [];
    Extend(states, acts, cooldown, Load(0));
    states, acts := states + [Apply(states[|acts|], Load(0))], acts + [Load(0)];
    Extend(states, acts, cooldown, Load(1));
    states, acts := states + [Apply(states[|acts|], Load(1))], acts + [Load(1)];
    Extend(states, acts, cooldown, Gate(0));
    states, acts := states + [Apply(states[|acts|], Gate(0))], acts + [Gate(0)];
    Extend(states, acts, cooldown, Gate(1));
    states, acts := states + [Apply(states[|acts|], Gate(1))], acts + [Gate(1)];
    Extend(states, acts, cooldown, Try(0, Response(429)));
    states, acts := states + [Apply(states[|acts|], Try(0, Response(429)))], acts + [Try(0, Response(429))];
    Extend(states, acts, cooldown, Try(1, Response(429)));
    states, acts := states + [Apply(states[|acts|], Try(1, Response(429)))], acts + [Try(1, Response(429))];
  }

  /** Of any two calls in the 429 branch, the one that reads the clock first may store last. */
  lemma LaterStoreCanLower(states: seq<State>, acts: seq<Action>, cooldown: nat, c: nat, d: nat)
    returns (longer: seq<State>, more: seq<Action>)
    requires IsRun(states, acts, cooldown) && c != d
    requires c in states[|acts|].calls && states[|acts|].calls[c].Limited?
    requires d in states[|acts|].calls && states[|acts|].calls[d].Limited?
    ensures IsRun(longer, more, cooldown) && acts <= more && more != []
    ensures longer[|more|].until < longer[|more| - 1].until
  {
    var s := states[|acts|];
    longer, more := states, acts;
    Extend(longer, more, cooldown, ReadClock(c));
    longer, more := longer + [Apply(longer[|more|], ReadClock(c))], more + [ReadClock(c)];
    Extend(longer, more, cooldown, Advance(s.clock + 1));
    longer, more := longer + [Apply(longer[|more|], Advance(s.clock + 1))], more + [Advance(s.clock + 1)];
    Extend(longer, more, cooldown, ReadClock(d));
    longer, more := longer + [Apply(longer[|more|], ReadClock(d))], more + [ReadClock(d)];
    Extend(longer, more, cooldown, Store(d));
    longer, more := longer + [Apply(longer[|more|], Store(d))], more + [Store(d)];
    Extend(longer, more, cooldown, Store(c));
    longer, more := longer + [Apply(longer[|more|], Store(c))], more + [Store(c)];
  }

  /** So the deadline does go back in some run. */
  lemma DeadlineCanGoBack(cooldown: nat) returns (states: seq<State>, acts: seq<Action>)
    ensures IsRun(states, acts, cooldown) && acts != [] && states[|acts|].until < states[|acts| - 1].until
  {
    states, acts := TwoCallsLimited(cooldown);
    states, acts := LaterStoreCanLower(states, acts, cooldown, 0, 1);
  }
}
