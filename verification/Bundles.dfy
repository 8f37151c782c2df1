/** The bundle a bot sends, as the server decodes it. */
module Bundles {
  datatype Option<+T> = None | Some(value: T)

  datatype Bundle = Bundle(
    bundleID: string, strategyType: string, targetBlock: nat, targetTxHash: string, rawTxs: seq<string>,
    minTimestamp: nat, maxTimestamp: nat, revertingTxHashes: seq<string>, targetPools: seq<string>,
    refundPercent: Option<int>, refundRecipient: string, refundTxHashes: seq<string>,
    delayedRefund: bool, refundIdentity: string)
}
