/**
 * The data held by the program's three accounts, as values: the transaction
 * registry, the failure catalog and the priority-fee statistics.
 */
module State {
  import opened Integers

  /** Number of slots of the registry's outcome ring. */
  const RING_SIZE: nat := 100
  /** Number of priority-fee tiers, numbered 0 to 4. */
  const TIER_COUNT: nat := 5

  /** Codes stored in the outcome ring. */
  const FAILED: u8 := 0
  const SUCCEEDED: u8 := 1
  const PENDING: u8 := 2

  /** The ring code of an outcome: never pending, and success can be read back from it. */
  function OutcomeCode(success: bool): (r: u8)
    ensures r < PENDING
    ensures r == SUCCEEDED <==> success
  {
    if success then SUCCEEDED else FAILED
  }

  /** The six failure categories of the catalog. */
  datatype FailureType =
    | SlippageExceeded
    | InsufficientLiquidity
    | MevDetected
    | DroppedTx
    | InsufficientFunds
    | Other

  /** The catalog field a `failure_type` byte selects: 0 to 4 name a category, any other byte is `Other`. */
  function FailureTypeOf(code: u8): (r: FailureType)
    // every byte from 5 up falls into `Other`, and only those
    ensures r.Other? <==> code >= 5
  {
    match code
    case 0 => SlippageExceeded
    case 1 => InsufficientLiquidity
    case 2 => MevDetected
    case 3 => DroppedTx
    case 4 => InsufficientFunds
    case _ => Other
  }

  datatype Registry = Registry(
    txCount: u64,
    successCount: u64,
    failureCount: u64,
    lastOutcomes: seq<u8>,
    cursor: u8)

  datatype Catalog = Catalog(
    slippageExceeded: u32,
    insufficientLiquidity: u32,
    mevDetected: u32,
    droppedTx: u32,
    insufficientFunds: u32,
    other: u32)

  datatype FeeStats = FeeStats(tiers: seq<u64>)

  /** The contents of all three accounts together. */
  datatype Ledger = Ledger(registry: Registry, catalog: Catalog, fees: FeeStats)

  /** The catalog counter of category `t`. */
  function Count(c: Catalog, t: FailureType): u32 {
    match t
    case SlippageExceeded => c.slippageExceeded
    case InsufficientLiquidity => c.insufficientLiquidity
    case MevDetected => c.mevDetected
    case DroppedTx => c.droppedTx
    case InsufficientFunds => c.insufficientFunds
    case Other => c.other
  }

  /** The catalog with the counter of category `t` one higher. */
  function Increment(c: Catalog, t: FailureType): (r: Catalog)
    requires Count(c, t) < U32_MAX
    ensures Count(r, t) == Count(c, t) + 1
    ensures forall u :: u != t ==> Count(r, u) == Count(c, u)
  {
    match t
    case SlippageExceeded => c.(slippageExceeded := c.slippageExceeded + 1)
    case InsufficientLiquidity => c.(insufficientLiquidity := c.insufficientLiquidity + 1)
    case MevDetected => c.(mevDetected := c.mevDetected + 1)
    case DroppedTx => c.(droppedTx := c.droppedTx + 1)
    case InsufficientFunds => c.(insufficientFunds := c.insufficientFunds + 1)
    case Other => c.(other := c.other + 1)
  }

  /** The bytes 0 to 4 select five different categories. */
  lemma FailureTypesDistinct(a: u8, b: u8)
    requires a < 5 && b < 5 && a != b
    ensures FailureTypeOf(a) != FailureTypeOf(b)
  {
  }

  /** Total of the six catalog counters. */
  function CatalogSum(c: Catalog): int {
    c.slippageExceeded as int + c.insufficientLiquidity as int + c.mevDetected as int
      + c.droppedTx as int + c.insufficientFunds as int + c.other as int
  }

  /** Total of the tier counters. */
  function TierSum(tiers: seq<u64>): int {
    if tiers == [] then 0 else tiers[0] as int + TierSum(tiers[1..])
  }

  /**
   * What holds of the accounts from `initialize` on, whatever instructions run:
   * a full outcome ring holding only outcome codes, the cursor inside it, five
   * tiers, and every registered transaction counted as a success or a failure.
   */
  predicate Valid(l: Ledger) {
    var reg := l.registry;
    && |reg.lastOutcomes| == RING_SIZE
    && (forall i :: 0 <= i < |reg.lastOutcomes| ==> reg.lastOutcomes[i] <= PENDING)
    && reg.cursor as int < RING_SIZE
    && |l.fees.tiers| == TIER_COUNT
    && reg.txCount as int == reg.successCount as int + reg.failureCount as int
  }

  /**
   * The catalog accounts for every failed transaction and the tiers for every
   * transaction. Only `register_tx_outcome` keeps this; `record_failure` and
   * `update_priority_fee` move the catalog and the tiers on their own.
   */
  predicate Consistent(l: Ledger) {
    && CatalogSum(l.catalog) == l.registry.failureCount as int
    && TierSum(l.fees.tiers) == l.registry.txCount as int
  }
}
