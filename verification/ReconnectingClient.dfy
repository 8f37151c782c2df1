/**
  The reconnecting client: one connection behind a mutex.  First the object as a single caller sees it, then
  every interleaving of several `Send` calls and `Close`, where each locked section is one step.
 */
module ReconnectingClient {
  import opened Bundles

  const MAX_RETRIES: nat := 3

  /** Connections are numbered in the order they were dialled; `closes` lists those closed, in order. */
  datatype Shared = Shared(conn: Option<nat>, closed: bool, dials: nat, closes: seq<nat>)

  /**
    Connection accounting: every connection dialled is either the current one or was closed, once; a closed
    client has none.
   */
  ghost predicate Accounted(s: Shared) {
    && |s.closes| + (if s.conn.Some? then 1 else 0) == s.dials
    && (forall i, j :: 0 <= i < j < |s.closes| ==> s.closes[i] != s.closes[j])
    && (forall i :: 0 <= i < |s.closes| ==> s.closes[i] < s.dials && s.conn != Some(s.closes[i]))
    && (s.conn.Some? ==> s.conn.value < s.dials)
    && (s.closed ==> s.conn.None?)
  }

  /** `connect`: nothing to do if closed or connected, else dial. */
  function Connected(s: Shared, dialOk: bool): Shared {
    if s.closed || s.conn.Some? || !dialOk then s else s.(conn := Some(s.dials), dials := s.dials + 1)
  }

  /** `disconnect`: close the connection, if any, and forget it. */
  function Disconnected(s: Shared): Shared {
    if s.conn.None? then s else s.(conn := None, closes := s.closes + [s.conn.value])
  }

  function Shut(s: Shared): Shared {
    Disconnected(s.(closed := true))
  }

  lemma SectionsKeepAccounts(s: Shared, dialOk: bool)
    requires Accounted(s)
    ensures Accounted(Connected(s, dialOk)) && Accounted(Disconnected(s)) && Accounted(Shut(s))
  {
  }

  datatype SendResult = Ok | ErrClientClosed | DialError | WriteError

  /** A write: on which connection, and whether it succeeded. */
  datatype Written = Written(conn: nat, ok: bool)

  class Client {
    var conn: Option<nat>
    var closed: bool
    var dials: nat
    ghost var closes: seq<nat>
    ghost var writes: seq<Written>
    ghost var answers: seq<bool>

    ghost function View(): Shared
      reads this
    {
      Shared(conn, closed, dials, closes)
    }

    constructor ()
      ensures View() == Shared(None, false, 0, []) && writes == [] && answers == []
    {
      conn, closed, dials, closes, writes, answers := None, false, 0, [], [], [];
    }

    /** `dialled` is what the first dial answered: exactly if it succeeded is there a client, and it is connected. */
    static method New() returns (c: Option<Client>, dialled: bool)
      ensures c.Some? <==> dialled
      ensures c.Some? ==> fresh(c.value) && c.value.View() == NEW.shared && Accounted(c.value.View())
      ensures c.Some? ==> c.value.writes == [] && c.value.answers == [true]
    {
      var client := new Client();
      dialled := client.Connect();
      if !dialled {
        return None, dialled;
      }
      return Some(client), dialled;
    }

    /** Dials exactly if open and unconnected, and logs the answer, which is up to the network. */
    method Connect() returns (ok: bool)
      modifies this`conn, this`dials, this`answers
      ensures View() == Connected(old(View()), ok)
      ensures old(closed) || old(conn).Some? ==> ok && View() == old(View()) && answers == old(answers)
      ensures !old(closed) && old(conn).None? ==> answers == old(answers) + [ok]
      ensures !old(closed) && old(conn).None? ==> conn == (if ok then Some(old(dials)) else None)
    {
      if closed || conn.Some? {
        return true;
      }
      var dialOk: bool := *;
      answers := answers + [dialOk];
      if !dialOk {
        return false;
      }
      conn, dials := Some(dials), dials + 1;
      return true;
    }

    method Disconnect()
      modifies this`conn, this`closes
      ensures View() == Disconnected(old(View())) && conn.None?
    {
      if conn.Some? {
        closes := closes + [conn.value];
        conn := None;
      }
    }

    method Close()
      requires Accounted(View())
      modifies this`conn, this`closed, this`closes
      ensures View() == Shut(old(View())) && Accounted(View()) && closed && conn.None?
    {
      SectionsKeepAccounts(View(), true);
      closed := true;
      if conn.None? {
        return;
      }
      closes := closes + [conn.value];
      conn := None;
    }

    /** One write on a connection; whether it succeeds is up to the network. */
    method WriteMessage(c: nat) returns (ok: bool)
      modifies this`writes
      ensures writes == old(writes) + [Written(c, ok)]
    {
      ok := *;
      writes := writes + [Written(c, ok)];
    }

    /** One attempt: connect if need be, write, and give the connection up if that fails. */
    method Attempt() returns (dialOk: bool, ok: bool)
      requires Accounted(View()) && !closed
      modifies this`conn, this`dials, this`closes, this`writes, this`answers
      ensures Accounted(View()) && !closed
      ensures old(conn).Some? ==> dialOk && answers == old(answers) && dials == old(dials)
      ensures old(conn).None? ==> answers == old(answers) + [dialOk] && dials == old(dials) + if dialOk then 1 else 0
      ensures dialOk ==> writes == old(writes) + [Written(if old(conn).Some? then old(conn).value else old(dials), ok)]
      ensures dialOk && ok ==> conn == Some(writes[|old(writes)|].conn)
      ensures !dialOk ==> writes == old(writes) && !ok
      ensures !ok ==> conn.None?
    {
      var current := conn;
      dialOk := true;
      if current.None? {
        SectionsKeepAccounts(View(), true);
        dialOk := Connect();
        if !dialOk {
          return false, false;
        }
        current := conn;
      }
      ok := WriteMessage(current.value);
      if !ok {
        SectionsKeepAccounts(View(), true);
        Disconnect();
      }
    }

    /**
      Send with reconnection, run by one caller.  A closed client does nothing.  An open one makes up to three
      attempts; each that it starts unconnected begins with one dial; each write but the last fails, each dial
      but the last succeeds, and the writes go to the connection it had, if any, and then to those dialled, in
      order.  `Ok` means that the last write succeeded, a dial error that the last dial failed, and a write
      error that three writes did.
     */
    method SendBytes() returns (result: SendResult)
      requires Accounted(View())
      modifies this`conn, this`dials, this`closes, this`writes, this`answers
      ensures Accounted(View()) && closed == old(closed)
      ensures result.ErrClientClosed? <==> old(closed)
      ensures result.ErrClientClosed? ==> writes == old(writes) && answers == old(answers) && View() == old(View())
      ensures old(writes) <= writes && |writes| <= |old(writes)| + 3
      ensures old(answers) <= answers
      ensures !old(closed) ==>
        |answers| - |old(answers)| == |writes| - |old(writes)| + (if result.DialError? then 1 else 0) - (if old(conn).Some? then 1 else 0)
      ensures result.Ok? <==> |writes| > |old(writes)| && writes[|writes| - 1].ok
      ensures result.DialError? <==> |answers| > |old(answers)| && !answers[|answers| - 1]
      ensures result.WriteError? <==> |writes| == |old(writes)| + 3 && !writes[|writes| - 1].ok
      ensures forall i :: |old(writes)| <= i < |writes| - 1 ==> !writes[i].ok
      ensures forall i :: |old(answers)| <= i < |answers| - 1 ==> answers[i]
      ensures forall i :: |old(writes)| <= i < |writes| ==> writes[i].conn == Target(old(conn), old(dials), i - |old(writes)|)
      ensures result.Ok? ==> conn == Some(writes[|writes| - 1].conn)
      ensures result.DialError? || result.WriteError? ==> conn.None?
    {
      var attempt := 0;
      while attempt < MAX_RETRIES
        invariant attempt <= MAX_RETRIES && Accounted(View()) && closed == old(closed)
        invariant closed ==> attempt == 0
        invariant attempt == 0 ==> View() == old(View()) && writes == old(writes) && answers == old(answers)
        invariant attempt > 0 ==> conn.None?
        invariant old(writes) <= writes && |writes| == |old(writes)| + attempt
        invariant forall i :: |old(writes)| <= i < |writes| ==>
          !writes[i].ok && writes[i].conn == Target(old(conn), old(dials), i - |old(writes)|)
        invariant old(answers) <= answers && |answers| == |old(answers)| + Redials(old(conn), attempt)
        invariant forall i :: |old(answers)| <= i < |answers| ==> answers[i]
        invariant dials == old(dials) + Redials(old(conn), attempt)
      {
        if closed {
          return ErrClientClosed;
        }
        var dialOk, ok := Attempt();
        if !dialOk {
          return DialError;
        }
        if ok {
          return Ok;
        }
        if closed {
          return WriteError;
        }
        attempt := attempt + 1;
      }
      return WriteError;
    }
  }

  /** The dials that a number of attempts need: one each, but none for the first if there was a connection. */
  function Redials(conn: Option<nat>, attempts: nat): nat {
    if conn.Some? && attempts > 0 then attempts - 1 else attempts
  }

  /** The connection the k-th attempt writes to. */
  function Target(conn: Option<nat>, dials: nat, k: nat): nat {
    if conn.Some? then if k == 0 then conn.value else dials + k - 1 else dials + k
  }

  // ---------- all interleavings ----------

  /** Where a `Send` call stands; the number is the attempt it is in. */
  datatype Thread =
    | Snapshot(attempt: nat)
    | Connecting(attempt: nat)
    | Rereading(attempt: nat)
    | Writing(attempt: nat, target: Option<nat>)
    | Disconnecting(attempt: nat)
    | Checking(attempt: nat)
    | Returned(result: SendResult)
    | Panicked

  datatype State = State(shared: Shared, threads: map<nat, Thread>)

  datatype Action =
    | Begin(t: nat) | Snap(t: nat) | Connect(t: nat, ok: bool) | Reread(t: nat)
    | Write(t: nat, ok: bool) | Disconnect(t: nat) | Check(t: nat)
    | Close

  const NEW := State(Shared(Some(0), false, 1, []), map[])

  predicate Enabled(s: State, a: Action) {
    match a
    case Begin(t) => t !in s.threads
    case Snap(t) => t in s.threads && s.threads[t].Snapshot?
    case Connect(t, _) => t in s.threads && s.threads[t].Connecting?
    case Reread(t) => t in s.threads && s.threads[t].Rereading?
    case Write(t, _) => t in s.threads && s.threads[t].Writing?
    case Disconnect(t) => t in s.threads && s.threads[t].Disconnecting?
    case Check(t) => t in s.threads && s.threads[t].Checking?
    case Close => true
  }

  /** How one thread moves on. */
  function Moved(s: State, a: Action): Thread
    requires Enabled(s, a) && !a.Close?
  {
    match a
    case Begin(_) => Snapshot(0)
    case Snap(t) =>
      var n := s.threads[t].attempt;
      if s.shared.closed then Returned(ErrClientClosed)
      else if s.shared.conn.None? then Connecting(n) else Writing(n, s.shared.conn)
    case Connect(t, ok) =>
      if s.shared.closed || s.shared.conn.Some? || ok then Rereading(s.threads[t].attempt) else Returned(DialError)
    case Reread(t) => Writing(s.threads[t].attempt, s.shared.conn)
    case Write(t, ok) =>
      // Writing on a nil connection dereferences nil.
      if s.threads[t].target.None? then Panicked
      else if ok then Returned(Ok) else Disconnecting(s.threads[t].attempt)
    case Disconnect(t) => Checking(s.threads[t].attempt)
    case Check(t) =>
      var n := s.threads[t].attempt;
      if s.shared.closed || n + 1 >= MAX_RETRIES then Returned(WriteError) else Snapshot(n + 1)
  }

  function Apply(s: State, a: Action): State
    requires Enabled(s, a)
  {
    if a.Close? then s.(shared := Shut(s.shared))
    else
      var shared := match a
        case Connect(_, ok) => Connected(s.shared, ok)
        case Disconnect(_) => Disconnected(s.shared)
        case _ => s.shared;
      State(shared, s.threads[a.t := Moved(s, a)])
  }

  ghost predicate IsRun(states: seq<State>, acts: seq<Action>) {
    && |states| == |acts| + 1 && states[0] == NEW
    && forall i {:trigger acts[i]} :: 0 <= i < |acts| ==>
         Enabled(states[i], acts[i]) && states[i + 1] == Apply(states[i], acts[i])
  }

  /** In every interleaving the accounts are right and no call makes a fourth attempt. */
  lemma {:induction false} ConnectionsAreAccounted(states: seq<State>, acts: seq<Action>, n: nat)
    requires IsRun(states, acts) && n <= |acts|
    ensures Accounted(states[n].shared)
    ensures forall t :: t in states[n].threads ==> AttemptOf(states[n].threads[t]) < 3
  {
    if n > 0 {
      ConnectionsAreAccounted(states, acts, n - 1);
      var s, a := states[n - 1], acts[n - 1];
      SectionsKeepAccounts(s.shared, if a.Connect? then a.ok else true);
    }
  }

  function AttemptOf(t: Thread): nat {
    match t
    case Returned(_) => 0
    case Panicked => 0
    case _ => t.attempt
  }

  /** Nothing is dialled, and nothing reopened, after `Close`. */
  lemma {:induction false} CloseIsFinal(states: seq<State>, acts: seq<Action>, n: nat, m: nat)
    requires IsRun(states, acts) && n <= m <= |acts| && states[n].shared.closed
    ensures states[m].shared == states[n].shared
  {
    ConnectionsAreAccounted(states, acts, n);
    if n < m {
      CloseIsFinal(states, acts, n, m - 1);
      var a := acts[m - 1];
    }
  }

  /** The call has not ended. */
  predicate Running(t: Thread) {
    !t.Returned? && !t.Panicked?
  }

  /**
    What the results mean, in every interleaving: a call returns the closed error exactly on finding the client
    closed at the start of an attempt, a dial error exactly on a failed dial, `Ok` exactly on a successful
    write, a write error exactly if after a failed write the client is closed or this was the third attempt; it
    writes exactly to the connection it saw last, and panics exactly if that was none.
   */
  lemma ResultsMean(states: seq<State>, acts: seq<Action>, n: nat)
    requires IsRun(states, acts) && n < |acts| && !acts[n].Close? && !acts[n].Begin?
    ensures acts[n].t in states[n].threads && Running(states[n].threads[acts[n].t])
    ensures var a, s, p, q := acts[n], states[n].shared, states[n].threads[acts[n].t], states[n + 1].threads[acts[n].t];
            && (q == Returned(ErrClientClosed) <==> a.Snap? && s.closed)
            && (q == Returned(DialError) <==> a.Connect? && !a.ok && !s.closed && s.conn.None?)
            && (q == Returned(Ok) <==> a.Write? && a.ok && p.target.Some?)
            && (q == Returned(WriteError) <==> a.Check? && (s.closed || p.attempt == 2))
            && (q.Panicked? <==> a.Write? && p.target.None?)
            && (q.Writing? <==> (a.Snap? && !s.closed && s.conn.Some?) || a.Reread?) && (q.Writing? ==> q.target == s.conn)
            && (q.Connecting? <==> a.Snap? && !s.closed && s.conn.None?)
            && (q.Disconnecting? <==> a.Write? && !a.ok && p.target.Some?)
            && (Running(q) ==> q.attempt == p.attempt + if a.Check? then 1 else 0)
  {
    ConnectionsAreAccounted(states, acts, n);
    assert Enabled(states[n], acts[n]) && states[n + 1] == Apply(states[n], acts[n]);
    assert AttemptOf(states[n].threads[acts[n].t]) < 3;
  }

  // ---------- writing through nil ----------

  /** A connection is taken away at `k` and no dial succeeds between `k` and `j`. */
  ghost predicate GoneSince(acts: seq<Action>, k: int, j: int)
    requires 0 <= k < j <= |acts|
  {
    acts[k].Disconnect? && forall l {:trigger acts[l]} :: k < l < j ==> !(acts[l].Connect? && acts[l].ok)
  }

  /** Between `i` and `j` the client was closed, or its last connection was given up and not replaced. */
  ghost predicate Stripped(acts: seq<Action>, i: int, j: int)
    requires 0 <= i < j <= |acts|
  {
    || (exists k {:trigger acts[k]} :: i < k < j && acts[k].Close?)
    || (exists k :: i < k < j && GoneSince(acts, k, j))
  }

  /** What one more step does to `Stripped`. */
  lemma StrippedSnoc(acts: seq<Action>, i: int, j: int)
    requires 0 <= i < j < |acts|
    ensures acts[j].Close? || acts[j].Disconnect? ==> Stripped(acts, i, j + 1)
    ensures !acts[j].Close? && !acts[j].Disconnect? && !(acts[j].Connect? && acts[j].ok) ==>
              (Stripped(acts, i, j + 1) <==> Stripped(acts, i, j))
    ensures acts[j].Connect? && acts[j].ok ==>
              (Stripped(acts, i, j + 1) <==> exists k {:trigger acts[k]} :: i < k < j && acts[k].Close?)
  {
    if acts[j].Disconnect? {
      assert GoneSince(acts, j, j + 1);
    }
    if Stripped(acts, i, j) && !(acts[j].Connect? && acts[j].ok) {
      if k :| i < k < j && GoneSince(acts, k, j) {
        assert GoneSince(acts, k, j + 1);
      }
    }
    if Stripped(acts, i, j + 1) && !acts[j].Close? && !acts[j].Disconnect? {
      var end := j + 1;
      if k :| i < k < end && GoneSince(acts, k, end) {
        assert GoneSince(acts, k, j);
      }
    }
  }

  /** After a connect that did not fail, exactly this leaves the client without a connection. */
  lemma {:induction false} UnconnectedIff(states: seq<State>, acts: seq<Action>, i: nat, j: nat)
    requires IsRun(states, acts) && i < j <= |acts| && acts[i].Connect? && states[i + 1].threads[acts[i].t].Rereading?
    ensures states[j].shared.conn.None? <==> states[i].shared.closed || Stripped(acts, i, j)
    ensures states[j].shared.closed <==> states[i].shared.closed || exists k {:trigger acts[k]} :: i < k < j && acts[k].Close?
    decreases j
  {
    ConnectionsAreAccounted(states, acts, i);
    assert Enabled(states[i], acts[i]) && states[i + 1] == Apply(states[i], acts[i]);
    if j > i + 1 {
      var a := acts[j - 1];
      UnconnectedIff(states, acts, i, j - 1);
      ConnectionsAreAccounted(states, acts, j - 1);
      StrippedSnoc(acts, i, j - 1);
      assert Enabled(states[j - 1], a) && states[j] == Apply(states[j - 1], a);
    }
  }

  lemma {:induction false} ReturnedIsFinal(states: seq<State>, acts: seq<Action>, n: nat, m: nat, t: nat)
    requires IsRun(states, acts) && n <= m <= |acts| && t in states[n].threads && states[n].threads[t].Returned?
    ensures t in states[m].threads && states[m].threads[t] == states[n].threads[t]
  {
    if n < m {
      ReturnedIsFinal(states, acts, n, m - 1, t);
      var a := acts[m - 1];
      assert Enabled(states[m - 1], a);
    }
  }

  /**
    Exactly when a call that connects at `i` and re-reads at `j` has no connection to write to: the client was
    already closed at `i`, or a `Close` comes in between, or some call's disconnect that no successful dial
    makes up for.
   */
  lemma NilAfterRereadIff(states: seq<State>, acts: seq<Action>, i: nat, j: nat)
    requires IsRun(states, acts) && i < j < |acts|
    requires acts[i].Connect? && acts[j].Reread? && acts[j].t == acts[i].t
    ensures states[j + 1].threads[acts[j].t].Writing?
    ensures states[j + 1].threads[acts[j].t].target.None? <==> states[i].shared.closed || Stripped(acts, i, j)
  {
    var t := acts[i].t;
    assert Enabled(states[i], acts[i]) && states[i + 1] == Apply(states[i], acts[i]);
    assert Enabled(states[j], acts[j]) && states[j + 1] == Apply(states[j], acts[j]);
    if states[i + 1].threads[t].Returned? {
      ReturnedIsFinal(states, acts, i + 1, j, t);
    }
    UnconnectedIff(states, acts, i, j);
  }

  /** Where a thread that is past connecting has connected, and why one that holds nil found none. */
  ghost predicate HasCause(states: seq<State>, acts: seq<Action>, n: nat, t: nat, thread: Thread)
    requires n <= |acts| && |states| == |acts| + 1
  {
    && (thread.Rereading? ==> exists i :: 0 <= i < n && ConnectsAt(acts, i, t))
    && ((thread.Writing? && thread.target.None?) || thread.Panicked? ==>
          exists i, j :: 0 <= i < j < n && ConnectsAt(acts, i, t) && RereadsAt(acts, j, t)
                         && (states[i].shared.closed || Stripped(acts, i, j)))
  }

  predicate ConnectsAt(acts: seq<Action>, i: int, t: nat)
    requires 0 <= i < |acts|
  {
    acts[i].Connect? && acts[i].t == t
  }

  predicate RereadsAt(acts: seq<Action>, j: int, t: nat)
    requires 0 <= j < |acts|
  {
    acts[j].Reread? && acts[j].t == t
  }

  /** Nothing else leads to a nil write: a call that panicked had connected, lost the connection so, and re-read. */
  lemma {:induction false} PanicsComeFromRereading(states: seq<State>, acts: seq<Action>, n: nat, t: nat)
    requires IsRun(states, acts) && n <= |acts| && t in states[n].threads
    ensures HasCause(states, acts, n, t, states[n].threads[t])
  {
    if n > 0 {
      var s, a := states[n - 1], acts[n - 1];
      assert Enabled(s, a) && states[n] == Apply(s, a);
      if t in s.threads {
        PanicsComeFromRereading(states, acts, n - 1, t);
      }
      if !a.Close? && a.t == t {
        assert a.Connect? ==> ConnectsAt(acts, n - 1, t);
        if a.Reread? {
          var i :| 0 <= i < n - 1 && ConnectsAt(acts, i, t);
          NilAfterRereadIff(states, acts, i, n - 1);
          assert RereadsAt(acts, n - 1, t);
        }
      }
    }
  }

  lemma Extend(states: seq<State>, acts: seq<Action>, a: Action)
    requires IsRun(states, acts) && Enabled(states[|acts|], a)
    ensures IsRun(states + [Apply(states[|acts|], a)], acts + [a])
  {
    var longer, more := states + [Apply(states[|acts|], a)], acts + [a];
    forall i | 0 <= i < |more|
      ensures Enabled(longer[i], more[i]) && longer[i + 1] == Apply(longer[i], more[i])
    {
      if i < |acts| {
        assert more[i] == acts[i];
      }
    }
  }

  /** A run after which some call has reconnected and is about to re-read. */
  lemma RereadingIsReachable() returns (states: seq<State>, acts: seq<Action>)
    ensures IsRun(states, acts) && |acts| == 7 && 0 in states[7].threads && states[7].threads[0] == Rereading(1)
  {
    states, acts := [NEW], [];
    Extend(states, acts, Begin(0));
    states, acts := states + [Apply(states[|acts|], Begin(0))], acts + [Begin(0)];
    Extend(states, acts, Snap(0));
    states, acts := states + [Apply(states[|acts|], Snap(0))], acts + [Snap(0)];
    Extend(states, acts, Write(0, false));
    states, acts := states + [Apply(states[|acts|], Write(0, false))], acts + [Write(0, false)];
    Extend(states, acts, Disconnect(0));
    states, acts := states + [Apply(states[|acts|], Disconnect(0))], acts + [Disconnect(0)];
    Extend(states, acts, Check(0));
    states, acts := states + [Apply(states[|acts|], Check(0))], acts + [Check(0)];
    Extend(states, acts, Snap(0));
    states, acts := states + [Apply(states[|acts|], Snap(0))], acts + [Snap(0)];
    Extend(states, acts, Connect(0, true));
    states, acts := states + [Apply(states[|acts|], Connect(0, true))], acts + [Connect(0, true)];
  }

  /** So a call can panic: a `Close` between reconnecting and re-reading makes its write dereference nil. */
  lemma CloseInBetweenPanics() returns (states: seq<State>, acts: seq<Action>)
    ensures IsRun(states, acts) && 0 in states[|acts|].threads && states[|acts|].threads[0].Panicked?
  {
    states, acts := RereadingIsReachable();
    Extend(states, acts, Close);
    states, acts := states + [Apply(states[|acts|], Close)], acts + [Close];
    Extend(states, acts, Reread(0));
    states, acts := states + [Apply(states[|acts|], Reread(0))], acts + [Reread(0)];
    Extend(states, acts, Write(0, true));
    states, acts := states + [Apply(states[|acts|], Write(0, true))], acts + [Write(0, true)];
  }
}
