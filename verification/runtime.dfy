/**
 * The runtime around a handler. Solana commits the account writes of an
 * instruction only when its handler returns `Ok`; on `Err` every account keeps
 * the contents it had before the instruction. This module states that
 * assumption as code: it remembers the contents before the handler runs and
 * writes them back when the handler fails.
 */
module Runtime {
  import opened Errors
  import opened Accounts
  import Trace
  import Program

  method Execute(registry: TransactionRegistry, catalog: FailureCatalog, stats: PriorityFeeStats,
                 ins: Trace.Instruction)
    returns (r: Result<()>)
    modifies registry, catalog, stats
    ensures Agrees(r, Trace.Apply(old(View(registry, catalog, stats)), ins), View(registry, catalog, stats))
    ensures View(registry, catalog, stats) == Trace.Step(old(View(registry, catalog, stats)), ins)
    ensures r.Err? ==> View(registry, catalog, stats) == old(View(registry, catalog, stats))
  {
    var saved := View(registry, catalog, stats);
    match ins {
      case Initialize =>
        r := Program.Initialize(registry, catalog, stats);
      case RegisterTxOutcome(success, failureType, tier) =>
        r := Program.RegisterTxOutcome(registry, catalog, stats, success, failureType, tier);
      case RecordFailure(failureType) =>
        r := Program.RecordFailure(catalog, failureType);
      case UpdatePriorityFee(tier) =>
        r := Program.UpdatePriorityFee(stats, tier);
    }

    if r.Err? {
      var reg, cat := saved.registry, saved.catalog;
      registry.txCount, registry.successCount, registry.failureCount := reg.txCount, reg.successCount, reg.failureCount;
      registry.lastOutcomes, registry.cursor := reg.lastOutcomes, reg.cursor;
      catalog.slippageExceeded, catalog.insufficientLiquidity, catalog.mevDetected := cat.slippageExceeded, cat.insufficientLiquidity, cat.mevDetected;
      catalog.droppedTx, catalog.insufficientFunds, catalog.other := cat.droppedTx, cat.insufficientFunds, cat.other;
      stats.tiers := saved.fees.tiers;
    }
  }
}
