/** When a simulation reaches the tracker, and with which values. */
module SimForward {
  import opened Bundles
  import opened TrackerTypes
  import opened WeiText

  const UINT64: nat := 0x1_0000_0000_0000_0000

  datatype TxResult = TxResult(txHash: string, error: string)

  datatype CallResult = CallResult(
    coinbaseDiff: string, ethSentToCoinbase: string, gasFees: string,
    totalGasUsed: nat, bundleGasPrice: string, stateBlockNumber: nat, results: seq<TxResult>)

  /** What `eth_callBundle` came back with. */
  datatype Answer = RequestFailed | Rejected | Answered(result: Option<CallResult>)

  /** The simulation is worth recording: it was answered, not rejected, and no transaction reverted. */
  predicate Succeeded(answer: Answer) {
    answer.Answered? && answer.result.Some? &&
    forall i :: 0 <= i < |answer.result.value.results| ==> answer.result.value.results[i].error == ""
  }

  /** The block a simulation is anchored to; `targetBlock - 1` is computed in 64 bits. */
  function StateBlock(r: CallResult, targetBlock: nat): nat {
    if r.stateBlockNumber != 0 then r.stateBlockNumber else (targetBlock + UINT64 - 1) % UINT64
  }

  method Forward(bundleID: string, targetBlock: nat, answer: Answer) returns (event: Option<SimEvent>)
    ensures event.Some? <==> Succeeded(answer)
    ensures answer.Answered? && answer.result.Some? ==>
      (event.None? <==> exists i :: 0 <= i < |answer.result.value.results| && answer.result.value.results[i].error != "")
    ensures event.Some? ==>
      var r := answer.result.value;
      event.value == SimEvent(bundleID, WeiHexToEth(r.coinbaseDiff), WeiHexToEth(r.ethSentToCoinbase),
                              WeiHexToEth(r.gasFees), r.totalGasUsed, r.bundleGasPrice, StateBlock(r, targetBlock))
    ensures event.Some? && answer.result.value.stateBlockNumber != 0 ==>
      event.value.stateBlock == answer.result.value.stateBlockNumber
    ensures event.Some? && answer.result.value.stateBlockNumber == 0 && 0 < targetBlock < UINT64 ==>
      event.value.stateBlock == targetBlock - 1
  {
    if answer.RequestFailed? {
      return None;
    }
    if answer.Rejected? {
      return None;
    }
    if answer.result.None? {
      return None;
    }
    var r := answer.result.value;
    for i := 0 to |r.results|
      invariant forall j :: 0 <= j < i ==> r.results[j].error == ""
    {
      if r.results[i].error != "" {
        return None;
      }
    }
    var coinbaseDiffEth := WeiHexToEth(r.coinbaseDiff);
    var ethToBuilderEth := WeiHexToEth(r.ethSentToCoinbase);
    var gasFeesEth := WeiHexToEth(r.gasFees);
    var stateBlock := r.stateBlockNumber;
    if stateBlock == 0 {
      stateBlock := (targetBlock + UINT64 - 1) % UINT64;
    }
    event := Some(SimEvent(bundleID, coinbaseDiffEth, ethToBuilderEth, gasFeesEth, r.totalGasUsed, r.bundleGasPrice, stateBlock));
  }

  /** A reported block is the anchor; no report, the number zero, is so only if the target is block one. */
  lemma ReportedBlockIsTheAnchor(r: CallResult, targetBlock: nat)
    requires targetBlock < UINT64
    ensures r.stateBlockNumber != 0 ==> StateBlock(r, targetBlock) == r.stateBlockNumber
    ensures StateBlock(r, targetBlock) == r.stateBlockNumber <==> r.stateBlockNumber != 0 || targetBlock == 1
  {
    if r.stateBlockNumber == 0 && targetBlock > 0 {
      assert targetBlock + UINT64 - 1 == (targetBlock - 1) + UINT64;
    }
  }

  /** When the node reports no block, the anchor is the block before the target exactly if there is one. */
  lemma AnchorIsPreviousBlockIff(r: CallResult, targetBlock: nat)
    requires r.stateBlockNumber == 0 && targetBlock < UINT64
    ensures StateBlock(r, targetBlock) == targetBlock - 1 <==> targetBlock > 0
    ensures targetBlock == 0 ==> StateBlock(r, targetBlock) == UINT64 - 1
  {
    if targetBlock > 0 {
      assert targetBlock + UINT64 - 1 == (targetBlock - 1) + UINT64;
    }
  }
}
