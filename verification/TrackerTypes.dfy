/** The values the tracker correlates: hash events, simulation events, records and cache entries. */
module TrackerTypes {

  const SECOND: int := 1_000_000_000                // clock readings are in nanoseconds
  const HOLD: int := 2 * SECOND                     // a record waits this long for its simulation
  const SIM_TTL: int := 30 * SECOND                 // a cached simulation lives this long
  const CHANNEL_CAPACITY: nat := 1024

  /** One decoded transaction; the tracker only carries it. */
  datatype TxDetail = TxDetail(
    hash: string, from: string, to: string, nonce: nat, gas: nat,
    gasPrice: string, maxFeePerGas: string, maxPriorityFeePerGas: string,
    value: string, valueWei: string, data: string, txType: nat, chainID: string)

  datatype HashEvent = HashEvent(
    bundleID: string, builder: string, bundleHash: string, targetBlock: nat,
    lastTxHash: string, transactions: seq<TxDetail>)

  datatype SimEvent = SimEvent(
    bundleID: string, coinbaseDiffETH: string, ethToBuilderETH: string, gasFeesETH: string,
    totalGasUsed: nat, bundleGasPrice: string, stateBlock: nat)

  /** One line of a builder's tracking file. */
  datatype BundleRecord = BundleRecord(
    bundleID: string, builder: string, bundleHash: string, lastTxHash: string,
    targetBlock: nat, timestamp: int,
    coinbaseDiffETH: string, ethToBuilderETH: string, gasFeesETH: string,
    totalGasUsed: nat, bundleGasPrice: string, simStateBlock: nat,
    transactions: seq<TxDetail>)

  datatype PendingEntry = PendingEntry(record: BundleRecord, receivedAt: int)

  datatype SimCacheEntry = SimCacheEntry(
    coinbaseDiffETH: string, ethToBuilderETH: string, gasFeesETH: string,
    totalGasUsed: nat, bundleGasPrice: string, stateBlock: nat, receivedAt: int)

  datatype Key = Key(bundleID: string, builder: string)

  /** The six simulation values, by name: the common view of events, cache entries and records. */
  datatype SimFields = SimFields(
    coinbaseDiff: string, ethToBuilder: string, gasFees: string,
    gasUsed: nat, gasPrice: string, stateBlock: nat)

  const BLANK := SimFields("", "", "", 0, "", 0)

  function EventSim(e: SimEvent): SimFields {
    SimFields(e.coinbaseDiffETH, e.ethToBuilderETH, e.gasFeesETH, e.totalGasUsed, e.bundleGasPrice, e.stateBlock)
  }

  function CachedSim(c: SimCacheEntry): SimFields {
    SimFields(c.coinbaseDiffETH, c.ethToBuilderETH, c.gasFeesETH, c.totalGasUsed, c.bundleGasPrice, c.stateBlock)
  }

  function SimOf(r: BundleRecord): SimFields {
    SimFields(r.coinbaseDiffETH, r.ethToBuilderETH, r.gasFeesETH, r.totalGasUsed, r.bundleGasPrice, r.simStateBlock)
  }

  /** The hash event a record was made from. */
  function EventOf(r: BundleRecord): HashEvent {
    HashEvent(r.bundleID, r.builder, r.bundleHash, r.targetBlock, r.lastTxHash, r.transactions)
  }

  function KeyOf(e: HashEvent): Key {
    Key(e.bundleID, e.builder)
  }

  /** A fresh record: no simulation data yet. */
  function NewRecord(e: HashEvent, stamp: int): (r: BundleRecord)
    ensures EventOf(r) == e && SimOf(r) == BLANK && r.timestamp == stamp
  {
    BundleRecord(e.bundleID, e.builder, e.bundleHash, e.lastTxHash, e.targetBlock, stamp,
                 "", "", "", 0, "", 0, e.transactions)
  }

  function CacheEntry(e: SimEvent, received: int): (c: SimCacheEntry)
    ensures CachedSim(c) == EventSim(e) && c.receivedAt == received
  {
    SimCacheEntry(e.coinbaseDiffETH, e.ethToBuilderETH, e.gasFeesETH, e.totalGasUsed, e.bundleGasPrice,
                  e.stateBlock, received)
  }

  /** Copy the cached simulation values into a record; everything else stays. */
  function Enrich(r: BundleRecord, c: SimCacheEntry): (out: BundleRecord)
    ensures SimOf(out) == CachedSim(c)
    ensures EventOf(out) == EventOf(r) && out.timestamp == r.timestamp
  {
    r.(coinbaseDiffETH := c.coinbaseDiffETH,
       ethToBuilderETH := c.ethToBuilderETH,
       gasFeesETH := c.gasFeesETH,
       totalGasUsed := c.totalGasUsed,
       bundleGasPrice := c.bundleGasPrice,
       simStateBlock := c.stateBlock)
  }

  /** A record's contents are its hash event, its time stamp and its simulation values, and nothing else. */
  lemma RecordDetermined(a: BundleRecord, b: BundleRecord)
    requires EventOf(a) == EventOf(b) && a.timestamp == b.timestamp && SimOf(a) == SimOf(b)
    ensures a == b
  {
  }
}
