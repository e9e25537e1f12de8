# txguard ledger program in Dafny

The txguard on-chain program keeps transaction outcomes in three accounts:

- a **transaction registry**: the number of registered transactions, how many succeeded and how many failed, and a ring of the last 100 outcomes (0 failure, 1 success, 2 pending) with a cursor;
- a **failure catalog**: one u32 counter per failure category, namely slippage exceeded, insufficient liquidity, MEV detected, dropped transaction, insufficient funds and other;
- **priority-fee statistics**: one u64 usage counter for each of five fee tiers.

The program has four instructions:

- `initialize` resets all three accounts;
- `register_tx_outcome` counts one transaction;
- `record_failure` bumps one catalog counter;
- `update_priority_fee` bumps one tier counter.

The project is organised in these modules:

- `Integers` (`integers.dfy`): the fixed-width integers u8, u32 and u64 as newtypes, so every `checked_add` needs an explicit overflow check.
- `Errors` (`errors.dfy`): the program's error codes and the `Result` the handlers return. `OverflowPanic` is the abort raised by an unchecked u8 addition.
- `State` (`state.dfy`): the account contents as values. It also defines the invariants:
  - `Valid` holds along every run from `initialize`;
  - `Consistent` says the catalog total equals the failure count and the tier total equals the transaction count.
- `Accounts` (`accounts.dfy`): the three accounts as classes whose fields the handlers update in place.
- `Spec` (`spec.dfy`): what each instruction commits, as a function from the old contents to `Ok` of the new contents or `Err` of its error.
- `Program` (`program.dfy`): the handlers statement by statement, each proved to agree with its `Spec` function. A handler that fails returns early and may already have written some fields.
- `Runtime` (`runtime.dfy`): the Solana runtime around a handler. Writes are committed only when the handler returns `Ok`; on `Err` every account keeps its old contents. `Execute` models this rollback by saving the contents and writing them back when the handler fails.
- `Trace` (`trace.dfy`): runs of instructions. It proves:
  - validity is kept along any run;
  - the catalog and tier totals stay consistent along runs of registrations;
  - the registry's counters, cursor and ring describe exactly the outcomes of the committed registrations.

`initialize` can be run again at any time, and it resets every counter, so `Initialize` resets every account whatever it held before.

## Model

| member | source | states |
|---|---|---|
| Program.Initialize | program/programs/txguard/src/lib.rs:9-41 | Returns Ok. Afterwards every counter is 0, the cursor is 0, the ring has 100 slots all pending (2), every catalog category is 0 and there are exactly five zero tiers, whatever the accounts held before. |
| Spec.InitialLedger | program/programs/txguard/src/lib.rs:9-41 | The accounts `initialize` leaves: no transactions counted, the cursor at 0, a ring of 100 slots, five tiers, and every catalog category at 0. |
| Spec.InitialLedgerValid | program/programs/txguard/src/lib.rs:9-41 | The accounts `initialize` leaves satisfy the validity invariant. |
| Spec.InitialLedgerConsistent | program/programs/txguard/src/lib.rs:9-41 | In the accounts `initialize` leaves, the catalog total equals the failure count and the tier total equals the transaction count. |
| State.OutcomeCode | program/programs/txguard/src/lib.rs:66 | The code written into the ring is never the pending code 2, and it is 1 exactly for a success. |
| State.FailureTypeOf | program/programs/txguard/src/lib.rs:78-91 | The failure byte selects the "other" counter exactly when it is 5 or more. |
| State.FailureTypesDistinct | program/programs/txguard/src/lib.rs:109-119 | The bytes 0 to 4 select five different catalog counters. |
| State.Increment | program/programs/txguard/src/lib.rs:78-91 | Bumping a category adds exactly one to that category's counter and leaves the other five unchanged. |
| Spec.RecordFailure | program/programs/txguard/src/lib.rs:106-126 | Fails, with CountOverflow, exactly when the counter selected by the failure byte is at the u32 maximum. Bytes 0-4 select the five named categories and any other byte selects "other". On success only that counter goes up by one and the catalog total rises by one. |
| Program.RecordFailure | program/programs/txguard/src/lib.rs:106-126 | The in-place handler returns what Spec.RecordFailure returns and leaves the catalog it commits. On error it leaves the catalog untouched. |
| Spec.CountTier | program/programs/txguard/src/lib.rs:94-99 | A tier index beyond the stored vector is skipped, not rejected. Otherwise it fails, with CountOverflow, exactly when that tier is at the u64 maximum. On success the vector keeps its length and only that tier goes up by one. |
| Program.CountTier | program/programs/txguard/src/lib.rs:133-138 | The in-place tier update agrees with Spec.CountTier and leaves the stats untouched on error. |
| Spec.UpdatePriorityFee | program/programs/txguard/src/lib.rs:128-142 | A tier of 5 or more is rejected with InvalidPriorityFeeTier. A valid tier fails only by CountOverflow, when that stored tier is at the u64 maximum. Otherwise only that tier goes up by one. |
| Program.UpdatePriorityFee | program/programs/txguard/src/lib.rs:128-142 | The in-place handler agrees with Spec.UpdatePriorityFee and leaves the stats untouched on error. |
| Spec.RegisterTxOutcome | program/programs/txguard/src/lib.rs:43-104 | A tier of 5 or more is rejected before anything else. On success the transaction count rises by one, and exactly one of the success and failure counts rises by one, according to the outcome. The ring slot at the cursor takes the outcome code, all other slots are kept, and the cursor advances modulo 100. The catalog is bumped only for a failure, in the category its byte selects. Only the given tier is bumped. |
| Spec.RegisterFailsOnlyOnOverflow | program/programs/txguard/src/lib.rs:60-98 | With a valid tier and the cursor below 255, a registration fails exactly when one of the counters it would bump is at its maximum, and then with CountOverflow. The only other error is the u8 overflow of `cursor + 1`. |
| Spec.RegisterKeepsValid | program/programs/txguard/src/lib.rs:60-99 | On valid accounts the cursor cannot overflow, and a successful registration keeps the ring full of outcome codes, the cursor in range, five tiers and tx_count = success_count + failure_count. |
| Spec.TierSumIncrement | program/programs/txguard/src/lib.rs:95-98 | Bumping one tier adds exactly one to the total over all tiers. |
| Spec.RegisterKeepsConsistent | program/programs/txguard/src/lib.rs:60-99 | A successful registration keeps the catalog total equal to failure_count and the tier total equal to tx_count. |
| Program.RegisterTxOutcome | program/programs/txguard/src/lib.rs:43-104 | The step-by-step handler returns the same result as Spec.RegisterTxOutcome and, on success, leaves exactly its accounts. An invalid tier returns InvalidPriorityFeeTier with all three accounts untouched. |
| Runtime.Execute | program/programs/txguard/src/lib.rs:9-142 | Running any instruction under the runtime returns the handler's result. On success the accounts hold what the instruction's specification commits. On error every account holds exactly what it held before the instruction. |
| Trace.Apply | program/programs/txguard/src/lib.rs:9-142 | The effect each instruction would commit on all three accounts. `initialize` cannot fail. A successful `record_failure` changes only the catalog, and a successful `update_priority_fee` only the fee stats. Only `register_tx_outcome` can fail with the cursor panic; the other instructions fail only with a program error code. |
| Trace.StepFrames | program/programs/txguard/src/lib.rs:106-142 | `record_failure` changes neither the registry nor the fee stats, and `update_priority_fee` changes neither the registry nor the catalog. |
| Trace.StepKeepsValid | program/programs/txguard/src/lib.rs:9-142 | Every instruction, committed or rolled back, keeps the accounts valid. |
| Trace.RunKeepsValid | program/programs/txguard/src/lib.rs:9-142 | Validity holds after any sequence of instructions started from valid accounts. |
| Trace.RegistrationsKeepConsistent | program/programs/txguard/src/lib.rs:43-104 | Along any run of `register_tx_outcome` alone, the catalog total stays equal to failure_count and the tier total to tx_count. |
| Trace.RegistrationsFromInitialConsistent | program/programs/txguard/src/lib.rs:9-104 | After `initialize` followed by registrations only, the catalog total equals failure_count and the tier total equals tx_count. |
| Trace.RingAppend | program/programs/txguard/src/lib.rs:63-68 | Writing the next outcome into slot n mod 100 keeps the ring holding the last (up to) 100 outcomes in their slots, with unreached slots still pending. |
| Trace.RecordOutcome | program/programs/txguard/src/lib.rs:60-75 | A registry that counts one more outcome, writes it at the cursor and advances the cursor holds the history extended by that outcome: the counts, the successes, the failures, the cursor and the ring. |
| Trace.StepExtendsHistory | program/programs/txguard/src/lib.rs:43-142 | Any instruction other than `initialize` extends the history the registry holds by the outcome of a committed registration, or by nothing. |
| Trace.RunExtendsHistory | program/programs/txguard/src/lib.rs:43-142 | Along a run without `initialize`, the registry keeps holding the history, extended by the outcomes of the committed registrations in order. |
| Trace.RunFromEmpty | program/programs/txguard/src/lib.rs:43-142 | A run from a registry that holds no outcomes ends with the registry holding exactly the committed outcomes. |
| Trace.EmptyHistory | program/programs/txguard/src/lib.rs:11-21 | A registry reset as `initialize` does holds the empty history. |
| Trace.RegistryRecordsHistory | program/programs/txguard/src/lib.rs:9-104 | From `initialize` on, tx_count is the number of committed registrations and success_count and failure_count are the numbers of successes and failures among them. The cursor is their number modulo 100, and the ring holds the last 100 of them in order of slot, with slots never reached still pending. |

## Left out

- `declare_id!` and the account contexts (lines 3 and 177-244): PDA derivation, payer, `init_if_needed`, `INIT_SPACE` and the `max_len` space limits. The model takes the three accounts as given objects.
- `msg!` logging (lines 39, 101-102, 124, 140): it has no effect on account state.
- Transaction atomicity is not derived from the Solana runtime, which is not part of this model. It is stated as `Runtime.Execute`, which writes back the saved contents when a handler fails.
- Program.RegisterTxOutcome: on error its contract describes the accounts only through Runtime.Execute. The handler alone leaves in place every field written before the failing check: the transaction count, the ring slot and the cursor, then the success or failure count, and after a failure the catalog counter. The runtime discards all of them.
- Trace.Step defines the runtime's rollback: a failing instruction leaves the accounts as they were. This is assumed, not proved; Runtime.Execute states the same assumption for the handlers on the account objects.
- Spec.RegisterTxOutcome: the u8 addition `cursor + 1` is modelled as an abort (`OverflowPanic`) when the cursor is 255. This assumes the build's overflow checks are on, as in Anchor's default profile; the build configuration is not part of this model. The case cannot occur on valid accounts (Spec.RegisterKeepsValid).
- Trace.RegistrationsKeepConsistent: the sum invariants are stated only for runs of registrations, because `record_failure` and `update_priority_fee` move the catalog and the tiers without touching the registry.
- The off-chain monitoring engine (snapshot poller, failure classifier, fee-tier analyzer) is not part of this model.
