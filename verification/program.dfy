/**
 * The instruction handlers, statement by statement. A handler that fails
 * returns early and may already have written some fields; module Runtime
 * models the runtime discarding those writes.
 */
module Program {
  import opened Integers
  import opened Errors
  import opened State
  import opened Accounts
  import Spec

  /** `initialize`: resets all three accounts, whatever they held before. */
  method Initialize(registry: TransactionRegistry, catalog: FailureCatalog, stats: PriorityFeeStats)
    returns (r: Result<()>)
    modifies registry, catalog, stats
    ensures r == Ok(())
    ensures registry.txCount == 0 && registry.successCount == 0 && registry.failureCount == 0
    ensures registry.cursor == 0
    ensures registry.lastOutcomes == seq(RING_SIZE, _ => PENDING)
    ensures forall t :: Count(catalog.Data(), t) == 0
    ensures stats.tiers == [0, 0, 0, 0, 0]
    ensures View(registry, catalog, stats) == Spec.InitialLedger()
  {
    registry.txCount := 0;
    registry.successCount := 0;
    registry.failureCount := 0;
    registry.cursor := 0;

    registry.lastOutcomes := [];
    for i := 0 to RING_SIZE
      modifies registry`lastOutcomes
      invariant registry.lastOutcomes == seq(i, _ => PENDING)
    {
      registry.lastOutcomes := registry.lastOutcomes + [PENDING];
    }

    catalog.slippageExceeded := 0;
    catalog.insufficientLiquidity := 0;
    catalog.mevDetected := 0;
    catalog.droppedTx := 0;
    catalog.insufficientFunds := 0;
    catalog.other := 0;

    stats.tiers := [];
    for i := 0 to TIER_COUNT
      modifies stats`tiers
      invariant stats.tiers == seq(i, _ => 0)
    {
      stats.tiers := stats.tiers + [0];
    }
    return Ok(());
  }

  /**
   * `record_failure`: bumps the catalog counter the failure type selects
   * (0 slippage, 1 liquidity, 2 MEV, 3 dropped, 4 funds, any other byte
   * "other"). The overflow check comes before the write, so a failure writes nothing.
   */
  method RecordFailure(catalog: FailureCatalog, failureType: u8) returns (r: Result<()>)
    modifies catalog
    ensures Agrees(r, Spec.RecordFailure(old(catalog.Data()), failureType), catalog.Data())
    ensures r.Err? ==> unchanged(catalog)
  {
    match failureType {
      case 0 =>
        if catalog.slippageExceeded == U32_MAX { return Err(Custom(CountOverflow)); }
        catalog.slippageExceeded := catalog.slippageExceeded + 1;
      case 1 =>
        if catalog.insufficientLiquidity == U32_MAX { return Err(Custom(CountOverflow)); }
        catalog.insufficientLiquidity := catalog.insufficientLiquidity + 1;
      case 2 =>
        if catalog.mevDetected == U32_MAX { return Err(Custom(CountOverflow)); }
        catalog.mevDetected := catalog.mevDetected + 1;
      case 3 =>
        if catalog.droppedTx == U32_MAX { return Err(Custom(CountOverflow)); }
        catalog.droppedTx := catalog.droppedTx + 1;
      case 4 =>
        if catalog.insufficientFunds == U32_MAX { return Err(Custom(CountOverflow)); }
        catalog.insufficientFunds := catalog.insufficientFunds + 1;
      case _ =>
        if catalog.other == U32_MAX { return Err(Custom(CountOverflow)); }
        catalog.other := catalog.other + 1;
    }
    return Ok(());
  }

  /**
   * Counts one use of `tier` when the stored vector has that index, as both
   * `register_tx_outcome` and `update_priority_fee` do.
   */
  method CountTier(stats: PriorityFeeStats, tier: u8) returns (r: Result<()>)
    modifies stats
    ensures Agrees(r, Spec.CountTier(old(stats.Data()), tier), stats.Data())
    ensures r.Err? ==> unchanged(stats)
  {
    if (tier as int) < |stats.tiers| {
      if stats.tiers[tier] == U64_MAX { return Err(Custom(CountOverflow)); }
      stats.tiers := stats.tiers[tier := stats.tiers[tier] + 1];
    }
    return Ok(());
  }

  /** `update_priority_fee`: rejects a tier of 5 or more, else counts one use of it. */
  method UpdatePriorityFee(stats: PriorityFeeStats, tier: u8) returns (r: Result<()>)
    modifies stats
    ensures Agrees(r, Spec.UpdatePriorityFee(old(stats.Data()), tier), stats.Data())
    ensures r.Err? ==> unchanged(stats)
  {
    if !(tier < 5) { return Err(Custom(InvalidPriorityFeeTier)); }
    r := CountTier(stats, tier);
  }

  /**
   * `register_tx_outcome`. The tier check precedes every write; a later
   * failing check returns with every field written before it still in place:
   * the transaction count, the ring slot and the cursor, then the success or
   * failure count, and after a failure the catalog counter.
   */
  method RegisterTxOutcome(registry: TransactionRegistry, catalog: FailureCatalog, stats: PriorityFeeStats,
                           success: bool, failureType: u8, priorityFeeTier: u8)
    returns (r: Result<()>)
    modifies registry, catalog, stats
    ensures Agrees(r, Spec.RegisterTxOutcome(old(View(registry, catalog, stats)), success, failureType, priorityFeeTier),
                   View(registry, catalog, stats))
    ensures priorityFeeTier >= 5 ==>
      r == Err(Custom(InvalidPriorityFeeTier)) && unchanged(registry, catalog, stats)
  {
    if !(priorityFeeTier < 5) { return Err(Custom(InvalidPriorityFeeTier)); }

    if registry.txCount == U64_MAX { return Err(Custom(CountOverflow)); }
    registry.txCount := registry.txCount + 1;

    var cursorIdx := registry.cursor;
    if (cursorIdx as int) < |registry.lastOutcomes| {
      registry.lastOutcomes := registry.lastOutcomes[cursorIdx := if success then SUCCEEDED else FAILED];
    }
    // `cursor + 1` is a u8 addition that aborts rather than wrap
    if registry.cursor == U8_MAX { return Err(OverflowPanic); }
    registry.cursor := (registry.cursor + 1) % 100;

    if success {
      if registry.successCount == U64_MAX { return Err(Custom(CountOverflow)); }
      registry.successCount := registry.successCount + 1;
    } else {
      if registry.failureCount == U64_MAX { return Err(Custom(CountOverflow)); }
      registry.failureCount := registry.failureCount + 1;
      r := RecordFailure(catalog, failureType);
      if r.Err? { return; }
    }

    r := CountTier(stats, priorityFeeTier);
  }
}
