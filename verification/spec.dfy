/**
 * What each instruction does to the accounts it is given, as a function from
 * their old contents to `Ok` of their new contents or `Err` of the error it
 * fails with. These are the committed effects: a failing instruction commits
 * nothing (see module Runtime).
 */
module Spec {
  import opened Integers
  import opened Errors
  import opened State

  /** The accounts as `initialize` leaves them, whatever they held before. */
  function InitialLedger(): (r: Ledger)
    ensures r.registry.txCount == 0 && r.registry.cursor == 0
    ensures |r.registry.lastOutcomes| == RING_SIZE
    ensures |r.fees.tiers| == TIER_COUNT
    ensures forall t :: Count(r.catalog, t) == 0
  {
    Ledger(
      Registry(0, 0, 0, seq(RING_SIZE, _ => PENDING), 0),
      Catalog(0, 0, 0, 0, 0, 0),
      FeeStats([0, 0, 0, 0, 0]))
  }

  /** The accounts `initialize` leaves are valid. */
  lemma InitialLedgerValid()
    ensures Valid(InitialLedger())
  {
  }

  /** In the accounts `initialize` leaves, the catalog and the tiers agree with the registry. */
  lemma InitialLedgerConsistent()
    ensures Consistent(InitialLedger())
  {
  }

  /**
   * The catalog update by failure type, the same match in `record_failure`
   * and in the failure branch of `register_tx_outcome`.
   */
  function RecordFailure(c: Catalog, failureType: u8): (r: Result<Catalog>)
    ensures r.Err? <==> Count(c, FailureTypeOf(failureType)) == U32_MAX
    ensures r.Err? ==> r.error == Custom(CountOverflow)
    ensures r.Ok? ==> forall t ::
      Count(r.value, t) as int == Count(c, t) as int + (if t == FailureTypeOf(failureType) then 1 else 0)
    ensures r.Ok? ==> CatalogSum(r.value) == CatalogSum(c) + 1
  {
    var t := FailureTypeOf(failureType);
    if Count(c, t) == U32_MAX then Err(Custom(CountOverflow)) else Ok(Increment(c, t))
  }

  /**
   * The tier update shared by `update_priority_fee` and `register_tx_outcome`:
   * a tier index beyond the stored vector is skipped, not rejected.
   */
  function CountTier(f: FeeStats, tier: u8): (r: Result<FeeStats>)
    ensures r.Err? <==> tier as int < |f.tiers| && f.tiers[tier] == U64_MAX
    ensures r.Err? ==> r.error == Custom(CountOverflow)
    ensures r.Ok? ==> |r.value.tiers| == |f.tiers|
    ensures r.Ok? ==> forall i :: 0 <= i < |f.tiers| ==>
      r.value.tiers[i] as int == f.tiers[i] as int + (if i == tier as int then 1 else 0)
  {
    if tier as int < |f.tiers| then
      if f.tiers[tier] == U64_MAX then Err(Custom(CountOverflow))
      else Ok(FeeStats(f.tiers[tier := f.tiers[tier] + 1]))
    else
      Ok(f)
  }

  /** `update_priority_fee`: rejects a tier of 5 or more, else counts one use of the tier. */
  function UpdatePriorityFee(f: FeeStats, tier: u8): (r: Result<FeeStats>)
    ensures tier as int >= TIER_COUNT ==> r == Err(Custom(InvalidPriorityFeeTier))
    ensures tier as int < TIER_COUNT ==>
      (r.Err? <==> tier as int < |f.tiers| && f.tiers[tier] == U64_MAX)
    ensures r.Err? && tier as int < TIER_COUNT ==> r.error == Custom(CountOverflow)
    ensures r.Ok? ==> tier as int < TIER_COUNT && |r.value.tiers| == |f.tiers|
    ensures r.Ok? ==> forall i :: 0 <= i < |f.tiers| ==>
      r.value.tiers[i] as int == f.tiers[i] as int + (if i == tier as int then 1 else 0)
  {
    if tier as int >= TIER_COUNT then Err(Custom(InvalidPriorityFeeTier)) else CountTier(f, tier)
  }

  /** Whether a counter that `register_tx_outcome` would bump already holds its type's maximum. */
  predicate RegisterOverflows(l: Ledger, success: bool, failureType: u8, tier: u8) {
    var reg := l.registry;
    || reg.txCount == U64_MAX
    || (success && reg.successCount == U64_MAX)
    || (!success && reg.failureCount == U64_MAX)
    || (!success && Count(l.catalog, FailureTypeOf(failureType)) == U32_MAX)
    || (tier as int < |l.fees.tiers| && l.fees.tiers[tier] == U64_MAX)
  }

  /**
   * `register_tx_outcome`: validates the tier, then counts the transaction,
   * writes its outcome at the cursor and advances the cursor round the ring,
   * counts it as a success or a failure, files a failure in the catalog, and
   * counts one use of the tier.
   */
  function RegisterTxOutcome(l: Ledger, success: bool, failureType: u8, tier: u8): (r: Result<Ledger>)
    // the tier is checked before anything else
    ensures tier as int >= TIER_COUNT ==> r == Err(Custom(InvalidPriorityFeeTier))
    // registry counters
    ensures r.Ok? ==> r.value.registry.txCount as int == l.registry.txCount as int + 1
    ensures r.Ok? ==>
      r.value.registry.successCount as int == l.registry.successCount as int + (if success then 1 else 0)
    ensures r.Ok? ==>
      r.value.registry.failureCount as int == l.registry.failureCount as int + (if success then 0 else 1)
    // outcome ring: the slot at the cursor takes the outcome, the cursor moves on
    ensures r.Ok? ==> r.value.registry.cursor as int == (l.registry.cursor as int + 1) % RING_SIZE
    ensures r.Ok? ==> |r.value.registry.lastOutcomes| == |l.registry.lastOutcomes|
    ensures r.Ok? ==> forall i :: 0 <= i < |l.registry.lastOutcomes| ==>
      r.value.registry.lastOutcomes[i]
        == if i == l.registry.cursor as int then OutcomeCode(success) else l.registry.lastOutcomes[i]
    // catalog: untouched on success, the selected category bumped on failure
    ensures r.Ok? ==> forall t ::
      Count(r.value.catalog, t) as int
        == Count(l.catalog, t) as int + (if !success && t == FailureTypeOf(failureType) then 1 else 0)
    // tiers: only the given tier is bumped
    ensures r.Ok? ==> |r.value.fees.tiers| == |l.fees.tiers|
    ensures r.Ok? ==> forall i :: 0 <= i < |l.fees.tiers| ==>
      r.value.fees.tiers[i] as int == l.fees.tiers[i] as int + (if i == tier as int then 1 else 0)
  {
    if tier as int >= TIER_COUNT then Err(Custom(InvalidPriorityFeeTier))
    else
      var reg := l.registry;
      if reg.txCount == U64_MAX then Err(Custom(CountOverflow))
      else if reg.cursor == U8_MAX then Err(OverflowPanic)
      else
        var ring := if reg.cursor as int < |reg.lastOutcomes|
          then reg.lastOutcomes[reg.cursor := OutcomeCode(success)]
          else reg.lastOutcomes;
        var moved := reg.(txCount := reg.txCount + 1, lastOutcomes := ring,
                          cursor := (reg.cursor + 1) % RING_SIZE as u8);
        if (if success then reg.successCount else reg.failureCount) == U64_MAX then
          Err(Custom(CountOverflow))
        else
          var counted := if success then moved.(successCount := reg.successCount + 1)
                         else moved.(failureCount := reg.failureCount + 1);
          var catalog := if success then Ok(l.catalog) else RecordFailure(l.catalog, failureType);
          if catalog.Err? then Err(catalog.error)
          else
            var fees := CountTier(l.fees, tier);
            if fees.Err? then Err(fees.error)
            else Ok(Ledger(counted, catalog.value, fees.value))
  }

  /**
   * With a valid tier, `register_tx_outcome` fails exactly when one of the
   * counters it bumps is at its maximum, and then with `CountOverflow`
   * (unless the u8 cursor itself is at its maximum).
   */
  lemma RegisterFailsOnlyOnOverflow(l: Ledger, success: bool, failureType: u8, tier: u8)
    requires tier as int < TIER_COUNT
    ensures l.registry.cursor < U8_MAX ==>
      (RegisterTxOutcome(l, success, failureType, tier).Err? <==> RegisterOverflows(l, success, failureType, tier))
    ensures RegisterTxOutcome(l, success, failureType, tier).Err? ==>
      || RegisterTxOutcome(l, success, failureType, tier).error == Custom(CountOverflow)
      || (RegisterTxOutcome(l, success, failureType, tier).error == OverflowPanic && l.registry.cursor == U8_MAX)
  {
  }

  /** A registration keeps the accounts valid, and on valid accounts the cursor cannot overflow. */
  lemma RegisterKeepsValid(l: Ledger, success: bool, failureType: u8, tier: u8)
    requires Valid(l)
    ensures RegisterTxOutcome(l, success, failureType, tier) != Err(OverflowPanic)
    ensures RegisterTxOutcome(l, success, failureType, tier).Ok? ==>
      Valid(RegisterTxOutcome(l, success, failureType, tier).value)
  {
  }

  /** Counting one more use of tier `i` adds one to the tier total. */
  lemma {:induction false} TierSumIncrement(tiers: seq<u64>, i: nat)
    requires i < |tiers| && tiers[i] < U64_MAX
    ensures TierSum(tiers[i := tiers[i] + 1]) == TierSum(tiers) + 1
  {
    var bumped := tiers[i := tiers[i] + 1];
    if i == 0 {
      assert bumped[1..] == tiers[1..];
    } else {
      assert bumped[1..] == tiers[1..][i - 1 := tiers[i] + 1];
      TierSumIncrement(tiers[1..], i - 1);
    }
  }

  /**
   * A successful registration keeps the catalog total equal to the failure
   * count and the tier total equal to the transaction count.
   */
  lemma RegisterKeepsConsistent(l: Ledger, success: bool, failureType: u8, tier: u8)
    requires Valid(l) && Consistent(l)
    requires RegisterTxOutcome(l, success, failureType, tier).Ok?
    ensures Consistent(RegisterTxOutcome(l, success, failureType, tier).value)
  {
    var l' := RegisterTxOutcome(l, success, failureType, tier).value;
    TierSumIncrement(l.fees.tiers, tier as nat);
    assert l'.fees.tiers == l.fees.tiers[tier := l.fees.tiers[tier] + 1];
    if !success {
      assert l'.catalog == RecordFailure(l.catalog, failureType).value;
    }
  }
}
