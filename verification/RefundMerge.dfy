/** The refund defaults of the broadcaster, merged into each bundle before it is fanned out. */
module RefundMerge {
  import opened Bundles

  datatype RefundConfig = RefundConfig(
    percent: Option<int>, recipient: string, txHashes: seq<string>, delayedRefund: bool, refundIdentity: string)

  /** The fast path's guard: nothing is configured. */
  predicate Unset(r: RefundConfig) {
    r.percent.None? && r.recipient == "" && r.txHashes == [] && !r.delayedRefund && r.refundIdentity == ""
  }

  /** What the merge is for: each refund field of the bundle if it is set, else the configured one. */
  function Merge(r: RefundConfig, b: Bundle): Bundle {
    b.(refundPercent := if b.refundPercent.Some? then b.refundPercent else r.percent,
       refundRecipient := if b.refundRecipient != "" then b.refundRecipient else r.recipient,
       refundTxHashes := if b.refundTxHashes != [] then b.refundTxHashes else r.txHashes,
       delayedRefund := b.delayedRefund || r.delayedRefund,
       refundIdentity := if b.refundIdentity != "" then b.refundIdentity else r.refundIdentity)
  }

  /** The bundle as handlers, simulator and relay clients share it: by reference. */
  class IncomingBundle {
    const fixed: Bundle
    var refundPercent: Option<int>
    var refundRecipient: string
    var refundTxHashes: seq<string>
    var delayedRefund: bool
    var refundIdentity: string

    function View(): Bundle
      reads this
    {
      fixed.(refundPercent := refundPercent, refundRecipient := refundRecipient, refundTxHashes := refundTxHashes,
             delayedRefund := delayedRefund, refundIdentity := refundIdentity)
    }

    constructor (b: Bundle)
      ensures View() == b
    {
      fixed := b;
      refundPercent, refundRecipient, refundTxHashes := b.refundPercent, b.refundRecipient, b.refundTxHashes;
      delayedRefund, refundIdentity := b.delayedRefund, b.refundIdentity;
    }
  }

  /** The calls that are given a bundle, by reference, in launch order. */
  datatype Launch = ToSimulator(bundle: IncomingBundle) | ToRelay(client: nat, bundle: IncomingBundle)

  /** One launch for each of the first n clients, in order. */
  function ToRelays(n: nat, b: IncomingBundle): (out: seq<Launch>)
    ensures |out| == n && forall i :: 0 <= i < n ==> out[i] == ToRelay(i, b)
  {
    if n == 0 then [] else ToRelays(n - 1, b) + [ToRelay(n - 1, b)]
  }

  class RelayManager {
    const refund: RefundConfig
    const clients: nat
    const simulates: bool
    var launches: seq<Launch>

    constructor (refund: RefundConfig, clients: nat, simulates: bool)
      ensures this.refund == refund && this.clients == clients && this.simulates == simulates && launches == []
    {
      this.refund, this.clients, this.simulates, launches := refund, clients, simulates, [];
    }

    /**
      The caller's struct is never touched: the result is that very struct on the fast path and a fresh copy
      otherwise, and shows the merged bundle either way.
     */
    method ApplyRefundDefaults(bundle: IncomingBundle) returns (b: IncomingBundle)
      ensures b.View() == Merge(refund, bundle.View())
      ensures if Unset(refund) then b == bundle else fresh(b)
    {
      var r := refund;
      if r.percent.None? && r.recipient == "" && |r.txHashes| == 0 && !r.delayedRefund && r.refundIdentity == "" {
        FastPathAgrees(refund, bundle.View());
        return bundle;
      }
      b := new IncomingBundle(bundle.View());
      if b.refundPercent.None? && r.percent.Some? {
        b.refundPercent := r.percent;
      }
      if b.refundRecipient == "" && r.recipient != "" {
        b.refundRecipient := r.recipient;
      }
      if |b.refundTxHashes| == 0 && |r.txHashes| > 0 {
        b.refundTxHashes := r.txHashes;
      }
      if !b.delayedRefund && r.delayedRefund {
        b.delayedRefund := r.delayedRefund;
      }
      if b.refundIdentity == "" && r.refundIdentity != "" {
        b.refundIdentity := r.refundIdentity;
      }
    }

    /**
      Every relay client of one fan-out, and the simulator before them, is given one and the same struct,
      which shows the merged bundle; it is the caller's own exactly on the fast path.
     */
    method Broadcast(bundle: IncomingBundle) returns (ghost shared: IncomingBundle)
      modifies this
      ensures shared.View() == Merge(refund, bundle.View())
      ensures if Unset(refund) then shared == bundle else fresh(shared)
      ensures launches == old(launches) + (if simulates then [ToSimulator(shared)] else []) + ToRelays(clients, shared)
    {
      var merged := ApplyRefundDefaults(bundle);
      shared := merged;
      if simulates {
        launches := launches + [ToSimulator(merged)];
      }
      ghost var before := launches;
      assert before == old(launches) + (if simulates then [ToSimulator(shared)] else []);
      for i := 0 to clients
        invariant launches == before + ToRelays(i, merged) && merged.View() == Merge(refund, bundle.View())
      {
        launches := launches + [ToRelay(i, merged)];
        assert before + ToRelays(i + 1, merged) == (before + ToRelays(i, merged)) + [ToRelay(i, merged)];
      }
    }
  }

  lemma FastPathAgrees(r: RefundConfig, b: Bundle)
    requires Unset(r)
    ensures Merge(r, b) == b
  {
    var m := Merge(r, b);
    assert m.refundPercent == b.refundPercent && m.refundTxHashes == b.refundTxHashes;
  }

  lemma MergeIsIdempotent(r: RefundConfig, b: Bundle)
    ensures Merge(r, Merge(r, b)) == Merge(r, b)
  {
    var m := Merge(r, b);
    assert m.refundPercent.None? ==> r.percent.None?;
  }

  /** Field by field: what the bundle leaves unset gets the default, and what it sets, or is not about refunds, stays. */
  lemma UnsetFieldsGetTheDefault(r: RefundConfig, b: Bundle)
    ensures var m := Merge(r, b);
            && m.refundPercent == (if b.refundPercent.None? then r.percent else b.refundPercent)
            && m.refundRecipient == (if b.refundRecipient == "" then r.recipient else b.refundRecipient)
            && m.refundTxHashes == (if b.refundTxHashes == [] then r.txHashes else b.refundTxHashes)
            && m.delayedRefund == (b.delayedRefund || r.delayedRefund)
            && m.refundIdentity == (if b.refundIdentity == "" then r.refundIdentity else b.refundIdentity)
            && m.bundleID == b.bundleID && m.strategyType == b.strategyType && m.targetBlock == b.targetBlock
            && m.targetTxHash == b.targetTxHash && m.rawTxs == b.rawTxs && m.minTimestamp == b.minTimestamp
            && m.maxTimestamp == b.maxTimestamp && m.revertingTxHashes == b.revertingTxHashes && m.targetPools == b.targetPools
  {
  }

  // ---------- does the bot always win? ----------

  /** The refund part of a bot's message, with what it left out told apart from what it set. */
  datatype BotRefund = BotRefund(
    percent: Option<int>, recipient: Option<string>, txHashes: Option<seq<string>>,
    delayedRefund: Option<bool>, refundIdentity: Option<string>)

  function OrElse<T>(o: Option<T>, zero: T): T {
    match o
    case Some(v) => v
    case None => zero
  }

  /** Decoding gives a field that was left out its zero value; only the percentage stays distinguishable. */
  function Decode(b: Bundle, m: BotRefund): Bundle {
    b.(refundPercent := m.percent, refundRecipient := OrElse(m.recipient, ""),
       refundTxHashes := OrElse(m.txHashes, []), delayedRefund := OrElse(m.delayedRefund, false),
       refundIdentity := OrElse(m.refundIdentity, ""))
  }

  /** Every value the bot set itself is the one broadcast. */
  predicate BotWins(r: RefundConfig, b: Bundle, m: BotRefund) {
    var out := Merge(r, Decode(b, m));
    && (m.percent.Some? ==> out.refundPercent == m.percent)
    && (m.recipient.Some? ==> out.refundRecipient == m.recipient.value)
    && (m.txHashes.Some? ==> out.refundTxHashes == m.txHashes.value)
    && (m.delayedRefund.Some? ==> out.delayedRefund == m.delayedRefund.value)
    && (m.refundIdentity.Some? ==> out.refundIdentity == m.refundIdentity.value)
  }

  /** The bot sets a field to its zero value while the configuration has another. */
  predicate ExplicitZero(r: RefundConfig, m: BotRefund) {
    || (m.recipient == Some("") && r.recipient != "")
    || (m.txHashes == Some([]) && r.txHashes != [])
    || (m.delayedRefund == Some(false) && r.delayedRefund)
    || (m.refundIdentity == Some("") && r.refundIdentity != "")
  }

  /**
    Bot-supplied values take precedence exactly when none of them is an explicit zero value against a
    configured one: an explicit `false`, empty text or empty list is overridden by the defaults.
   */
  lemma BotWinsIff(r: RefundConfig, b: Bundle, m: BotRefund)
    ensures BotWins(r, b, m) <==> !ExplicitZero(r, m)
  {
    var out := Merge(r, Decode(b, m));
    assert m.delayedRefund == Some(false) && r.delayedRefund ==> out.delayedRefund;
    assert m.txHashes == Some([]) ==> out.refundTxHashes == r.txHashes;
  }

  /** For instance a bot cannot switch a configured delayed refund off. */
  lemma DelayedRefundCannotBeSwitchedOff(b: Bundle)
    ensures var r := RefundConfig(None, "", [], true, "");
            var m := BotRefund(None, None, None, Some(false), None);
            !BotWins(r, b, m) && Merge(r, Decode(b, m)).delayedRefund
  {
  }
}
