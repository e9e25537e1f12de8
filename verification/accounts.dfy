/** The program's three accounts, whose fields the instructions update in place. */
module Accounts {
  import opened Integers
  import opened State

  /** Transaction counts and the ring of the last 100 outcomes. */
  class TransactionRegistry {
    var txCount: u64
    var successCount: u64
    var failureCount: u64
    /** 0 = failure, 1 = success, 2 = pending */
    var lastOutcomes: seq<u8>
    var cursor: u8

    function Data(): Registry
      reads this
    {
      Registry(txCount, successCount, failureCount, lastOutcomes, cursor)
    }
  }

  /** One counter per failure category. */
  class FailureCatalog {
    var slippageExceeded: u32
    var insufficientLiquidity: u32
    var mevDetected: u32
    var droppedTx: u32
    var insufficientFunds: u32
    var other: u32

    function Data(): Catalog
      reads this
    {
      Catalog(slippageExceeded, insufficientLiquidity, mevDetected, droppedTx, insufficientFunds, other)
    }
  }

  /** One usage counter per priority-fee tier. */
  class PriorityFeeStats {
    var tiers: seq<u64>

    function Data(): FeeStats
      reads this
    {
      FeeStats(tiers)
    }
  }

  /** The contents of the three accounts. */
  function View(registry: TransactionRegistry, catalog: FailureCatalog, stats: PriorityFeeStats): Ledger
    reads registry, catalog, stats
  {
    Ledger(registry.Data(), catalog.Data(), stats.Data())
  }
}
