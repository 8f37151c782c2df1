/** Which outcomes of one HTTP attempt end a broadcast to a relay, and how many attempts that makes. */
module RelayAttempts {

  const MAX_RETRIES: nat := 3
  const DEFAULT_COOLDOWN_MS: int := 1000
  const MILLISECOND: int := 1_000_000

  /** An error returned by the HTTP client, as far as its classification reads it. */
  datatype SendError = SendError(canceled: bool, deadlineExceeded: bool, netOp: bool, eof: bool, message: string)

  datatype Attempt = Response(status: int) | Error(err: SendError)

  const RETRYABLE_TEXTS: seq<string> :=
    ["connection refused", "connection reset", "broken pipe", "connection timed out", "i/o timeout", "tls handshake", "eof"]

  function LowerChar(c: char): char {
    if 'A' <= c <= 'Z' then (c as int + 32) as char else c
  }

  function Lower(s: string): (r: string)
    ensures |r| == |s|
    ensures forall i :: 0 <= i < |s| ==> r[i] == if s[i] in "ABCDEFGHIJKLMNOPQRSTUVWXYZ" then (s[i] as int + 32) as char else s[i]
  {
    seq(|s|, i requires 0 <= i < |s| => LowerChar(s[i]))
  }

  predicate OccursAt(s: string, sub: string, i: int) {
    0 <= i <= |s| - |sub| && s[i..i + |sub|] == sub
  }

  predicate Contains(s: string, sub: string) {
    exists i :: 0 <= i <= |s| && OccursAt(s, sub, i)
  }

  predicate Retryable(e: SendError) {
    e.netOp || e.eof || exists k :: 0 <= k < |RETRYABLE_TEXTS| && Contains(Lower(e.message), RETRYABLE_TEXTS[k])
  }

  /** The classification as written: a loop over the texts. */
  method IsRetryableConnError(e: SendError) returns (retryable: bool)
    ensures retryable == Retryable(e)
  {
    if e.netOp {
      return true;
    }
    if e.eof {
      return true;
    }
    var s := Lower(e.message);
    for k := 0 to |RETRYABLE_TEXTS|
      invariant forall j :: 0 <= j < k ==> !Contains(s, RETRYABLE_TEXTS[j])
    {
      if Contains(s, RETRYABLE_TEXTS[k]) {
        return true;
      }
    }
    return false;
  }

  /** Wrapping an error in a longer message, in any letter case, never makes it final. */
  lemma WrappingKeepsRetryable(e: SendError, before: string, after: string, wrapped: string)
    requires Retryable(e) && Lower(wrapped) == Lower(before + e.message + after)
    ensures Retryable(e.(message := wrapped))
  {
    if !e.netOp && !e.eof {
      var k :| 0 <= k < |RETRYABLE_TEXTS| && Contains(Lower(e.message), RETRYABLE_TEXTS[k]);
      var sub := RETRYABLE_TEXTS[k];
      var i :| 0 <= i <= |e.message| && OccursAt(Lower(e.message), sub, i);
      var whole := Lower(wrapped);
      assert whole[|before| + i..|before| + i + |sub|] == Lower(e.message)[i..i + |sub|];
      assert OccursAt(whole, sub, |before| + i);
    }
  }

  /** No further attempt follows: an answer, a cancelled or expired context, or an error not worth a retry. */
  predicate Decisive(a: Attempt) {
    a.Response? || a.err.canceled || a.err.deadlineExceeded || !Retryable(a.err)
  }

  /**
    Exactly which outcomes are tried again: errors that are neither a cancelled nor an expired context and
    are a failed network operation, an end of file, or carry one of these texts in any letter case.
   */
  lemma TriedAgainIff(a: Attempt)
    ensures !Decisive(a) <==>
      && a.Error? && !a.err.canceled && !a.err.deadlineExceeded
      && var text := Lower(a.err.message);
         || a.err.netOp || a.err.eof
         || Contains(text, "connection refused") || Contains(text, "connection reset") || Contains(text, "broken pipe")
         || Contains(text, "connection timed out") || Contains(text, "i/o timeout") || Contains(text, "tls handshake")
         || Contains(text, "eof")
  {
    if a.Error? {
      var text := Lower(a.err.message);
      var texts := ["connection refused", "connection reset", "broken pipe", "connection timed out", "i/o timeout", "tls handshake", "eof"];
      assert RETRYABLE_TEXTS == texts;
      forall sub | sub in texts && Contains(text, sub) ensures Retryable(a.err) {
        var k :| 0 <= k < |texts| && texts[k] == sub;
        assert Contains(text, RETRYABLE_TEXTS[k]);
      }
      assert texts[0] in texts && texts[1] in texts && texts[2] in texts && texts[3] in texts
             && texts[4] in texts && texts[5] in texts && texts[6] in texts;
    }
  }

  /** Attempts made when the k-th would end as `outcome(k)`: up to the first decisive one, at most three. */
  function Attempts(outcome: nat -> Attempt): (n: nat)
    ensures 1 <= n <= 3
    ensures forall k: nat :: k < n - 1 ==> !Decisive(outcome(k))
    ensures n < 3 ==> Decisive(outcome(n - 1))
  {
    if Decisive(outcome(0)) then 1 else if Decisive(outcome(1)) then 2 else 3
  }

  /** Those three clauses leave one number only. */
  lemma AttemptsUnique(outcome: nat -> Attempt, n: nat)
    requires 1 <= n <= 3
    requires forall k: nat :: k < n - 1 ==> !Decisive(outcome(k))
    requires n < 3 ==> Decisive(outcome(n - 1))
    ensures n == Attempts(outcome)
  {
    var mine, its := outcome(n - 1), outcome(Attempts(outcome) - 1);
  }

  /** How a completed call is counted. */
  datatype Verdict = Sent | Failed | RateLimited

  function VerdictOf(last: Attempt): (v: Verdict)
    ensures v.Sent? <==> last.Response? && 200 <= last.status <= 299
    ensures v.RateLimited? <==> last == Response(429)
  {
    match last
    case Error(_) => Failed
    case Response(status) => if 200 <= status < 300 then Sent else if status == 429 then RateLimited else Failed
  }
}
