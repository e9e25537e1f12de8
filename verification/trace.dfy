/**
 * Runs of instructions against the accounts, with the runtime committing a
 * handler's writes only when it returns `Ok`, and what holds along every run.
 */
module Trace {
  import opened Integers
  import opened Errors
  import opened State
  import Spec

  /** The program's four instructions with their arguments. */
  datatype Instruction =
    | Initialize
    | RegisterTxOutcome(success: bool, failureType: u8, priorityFeeTier: u8)
    | RecordFailure(failureType: u8)
    | UpdatePriorityFee(tier: u8)

  /** What the instruction's handler returns, with the contents of all three accounts it would commit. */
  function Apply(l: Ledger, ins: Instruction): (r: Result<Ledger>)
    // `initialize` cannot fail
    ensures ins.Initialize? ==> r.Ok?
    // `record_failure` commits only the catalog, `update_priority_fee` only the fee stats
    ensures ins.RecordFailure? && r.Ok? ==> r.value.registry == l.registry && r.value.fees == l.fees
    ensures ins.UpdatePriorityFee? && r.Ok? ==> r.value.registry == l.registry && r.value.catalog == l.catalog
    // only a registration can panic
    ensures r.Err? && !ins.RegisterTxOutcome? ==> r.error.Custom?
  {
    match ins
    case Initialize => Ok(Spec.InitialLedger())
    case RegisterTxOutcome(success, failureType, tier) =>
      Spec.RegisterTxOutcome(l, success, failureType, tier)
    case RecordFailure(failureType) =>
      var c := Spec.RecordFailure(l.catalog, failureType);
      if c.Ok? then Ok(l.(catalog := c.value)) else Err(c.error)
    case UpdatePriorityFee(tier) =>
      var f := Spec.UpdatePriorityFee(l.fees, tier);
      if f.Ok? then Ok(l.(fees := f.value)) else Err(f.error)
  }

  /** The accounts after the runtime has run the instruction. */
  function Step(l: Ledger, ins: Instruction): (l': Ledger)
    // a failing instruction leaves every account as it was
    ensures Apply(l, ins).Err? ==> l' == l
  {
    match Apply(l, ins)
    case Ok(next) => next
    case Err(_) => l
  }

  /** `record_failure` and `update_priority_fee` write only the account they are given. */
  lemma StepFrames(l: Ledger, ins: Instruction)
    ensures ins.RecordFailure? ==> Step(l, ins).registry == l.registry && Step(l, ins).fees == l.fees
    ensures ins.UpdatePriorityFee? ==> Step(l, ins).registry == l.registry && Step(l, ins).catalog == l.catalog
  {
  }

  /** Every instruction keeps the accounts valid. */
  lemma StepKeepsValid(l: Ledger, ins: Instruction)
    requires Valid(l)
    ensures Valid(Step(l, ins))
  {
    match ins
    case Initialize =>
      assert Valid(Spec.InitialLedger());
    case RegisterTxOutcome(success, failureType, tier) =>
      Spec.RegisterKeepsValid(l, success, failureType, tier);
    case RecordFailure(failureType) =>
      StepFrames(l, ins);
    case UpdatePriorityFee(tier) =>
      StepFrames(l, ins);
  }

  /** The accounts after running `trace` in order from `l`. */
  function Run(l: Ledger, trace: seq<Instruction>): Ledger
    decreases |trace|
  {
    if trace == [] then l
    else Step(Run(l, trace[..|trace| - 1]), trace[|trace| - 1])
  }

  /** The outcome the instruction adds to the history: that of a committed registration, else none. */
  function Recorded(l: Ledger, ins: Instruction): seq<bool> {
    if ins.RegisterTxOutcome? && Apply(l, ins).Ok? then [ins.success] else []
  }

  /** The outcomes of the registrations in `trace` that were committed, oldest first. */
  function Committed(l: Ledger, trace: seq<Instruction>): seq<bool>
    decreases |trace|
  {
    if trace == [] then []
    else
      var front := trace[..|trace| - 1];
      Committed(l, front) + Recorded(Run(l, front), trace[|trace| - 1])
  }

  predicate OnlyRegistrations(trace: seq<Instruction>) {
    forall i :: 0 <= i < |trace| ==> trace[i].RegisterTxOutcome?
  }

  predicate NoInitialize(trace: seq<Instruction>) {
    forall i :: 0 <= i < |trace| ==> !trace[i].Initialize?
  }

  /** The accounts stay valid along every run. */
  lemma {:induction false} RunKeepsValid(l: Ledger, trace: seq<Instruction>)
    requires Valid(l)
    ensures Valid(Run(l, trace))
    decreases |trace|
  {
    if trace != [] {
      RunKeepsValid(l, trace[..|trace| - 1]);
      StepKeepsValid(Run(l, trace[..|trace| - 1]), trace[|trace| - 1]);
    }
  }

  /**
   * As long as only `register_tx_outcome` runs, the catalog total stays equal
   * to the failure count and the tier total to the transaction count.
   */
  lemma {:induction false} RegistrationsKeepConsistent(l: Ledger, trace: seq<Instruction>)
    requires Valid(l) && Consistent(l) && OnlyRegistrations(trace)
    ensures Consistent(Run(l, trace))
    decreases |trace|
  {
    if trace != [] {
      var front, ins := trace[..|trace| - 1], trace[|trace| - 1];
      assert OnlyRegistrations(front) by {
        forall i | 0 <= i < |front| ensures front[i].RegisterTxOutcome? {
          assert front[i] == trace[i];
        }
      }
      RegistrationsKeepConsistent(l, front);
      RunKeepsValid(l, front);
      var before := Run(l, front);
      if Apply(before, ins).Ok? {
        Spec.RegisterKeepsConsistent(before, ins.success, ins.failureType, ins.priorityFeeTier);
      }
    }
  }

  /**
   * From `initialize` on, as long as only `register_tx_outcome` runs, the
   * catalog total equals the failure count and the tier total the transaction count.
   */
  lemma RegistrationsFromInitialConsistent(trace: seq<Instruction>)
    requires OnlyRegistrations(trace)
    ensures Consistent(Run(Spec.InitialLedger(), trace))
  {
    Spec.InitialLedgerValid();
    Spec.InitialLedgerConsistent();
    RegistrationsKeepConsistent(Spec.InitialLedger(), trace);
  }

  /** Slots of the ring that differ by less than a full turn are distinct. */
  lemma RingSlotsDistinct(i: int, n: int)
    requires 0 <= i < n < i + RING_SIZE
    ensures i % RING_SIZE != n % RING_SIZE
  {
  }

  /** Advancing the cursor from the slot of outcome `n` leads to the slot of outcome `n + 1`. */
  lemma NextSlot(n: nat)
    ensures (n % RING_SIZE + 1) % RING_SIZE == (n + 1) % RING_SIZE
  {
  }

  /**
   * The outcome ring holds the most recent of the outcomes `h`: the slot of
   * outcome `i` is `i` modulo 100, the last (up to) 100 outcomes are in their
   * slots, and the slots no outcome has reached yet hold 2.
   */
  predicate RingHolds(ring: seq<u8>, h: seq<bool>) {
    && |ring| == RING_SIZE
    && (forall i :: 0 <= i < |h| && |h| - RING_SIZE <= i ==> ring[i % RING_SIZE] == OutcomeCode(h[i]))
    && (forall j :: |h| <= j < RING_SIZE ==> ring[j] == PENDING)
  }

  /** Writing the next outcome into its slot keeps the ring holding the history. */
  lemma RingAppend(ring: seq<u8>, h: seq<bool>, success: bool)
    requires RingHolds(ring, h)
    ensures RingHolds(ring[|h| % RING_SIZE := OutcomeCode(success)], h + [success])
  {
    var ring', h', n := ring[|h| % RING_SIZE := OutcomeCode(success)], h + [success], |h|;
    forall i | 0 <= i < |h'| && |h'| - RING_SIZE <= i
      ensures ring'[i % RING_SIZE] == OutcomeCode(h'[i])
    {
      if i < n {
        RingSlotsDistinct(i, n);
        assert h'[i] == h[i];
      }
    }
    forall j | |h'| <= j < RING_SIZE ensures ring'[j] == PENDING {
      assert n % RING_SIZE == n;
    }
  }

  /**
   * The registry counts the outcomes `h` (all of them, and the successes and
   * failures among them), its cursor is their number modulo 100, and its ring
   * holds the most recent of them.
   */
  predicate RecordsHistory(reg: Registry, h: seq<bool>) {
    && reg.txCount as int == |h|
    && reg.successCount as int == multiset(h)[true]
    && reg.failureCount as int == multiset(h)[false]
    && reg.cursor as int == |h| % RING_SIZE
    && RingHolds(reg.lastOutcomes, h)
  }

  /** A registry that records one outcome more, the way a committed registration does, holds the longer history. */
  lemma RecordOutcome(reg: Registry, reg': Registry, h: seq<bool>, success: bool)
    requires RecordsHistory(reg, h)
    requires reg'.txCount as int == reg.txCount as int + 1
    requires reg'.successCount as int == reg.successCount as int + (if success then 1 else 0)
    requires reg'.failureCount as int == reg.failureCount as int + (if success then 0 else 1)
    requires reg'.cursor as int == (reg.cursor as int + 1) % RING_SIZE
    requires reg'.lastOutcomes == reg.lastOutcomes[reg.cursor := OutcomeCode(success)]
    ensures RecordsHistory(reg', h + [success])
  {
    var h' := h + [success];
    assert multiset(h') == multiset(h) + multiset{success};
    NextSlot(|h|);
    assert reg'.cursor as int == |h'| % RING_SIZE;
    RingAppend(reg.lastOutcomes, h, success);
  }

  /** An instruction other than `initialize` extends the history the registry holds by what it records. */
  lemma StepExtendsHistory(l: Ledger, h: seq<bool>, ins: Instruction)
    requires Valid(l) && RecordsHistory(l.registry, h) && !ins.Initialize?
    ensures RecordsHistory(Step(l, ins).registry, h + Recorded(l, ins))
  {
    if ins.RegisterTxOutcome? && Apply(l, ins).Ok? {
      var reg, reg' := l.registry, Step(l, ins).registry;
      assert reg'.lastOutcomes == reg.lastOutcomes[reg.cursor := OutcomeCode(ins.success)];
      RecordOutcome(reg, reg', h, ins.success);
    } else {
      assert h + Recorded(l, ins) == h;
      StepFrames(l, ins);
    }
  }

  /** Dropping the last instruction of a run without `initialize` leaves a run without `initialize`. */
  lemma NoInitializeFront(trace: seq<Instruction>)
    requires trace != [] && NoInitialize(trace)
    ensures NoInitialize(trace[..|trace| - 1]) && !trace[|trace| - 1].Initialize?
  {
  }

  /**
   * Along a run without `initialize`, the registry goes on holding the history,
   * extended by the outcomes of the committed registrations.
   */
  lemma {:induction false} RunExtendsHistory(l: Ledger, h: seq<bool>, trace: seq<Instruction>)
    requires Valid(l) && RecordsHistory(l.registry, h) && NoInitialize(trace)
    ensures RecordsHistory(Run(l, trace).registry, h + Committed(l, trace))
    decreases |trace|
  {
    if trace == [] {
      assert h + Committed(l, trace) == h;
    } else {
      var front, ins := trace[..|trace| - 1], trace[|trace| - 1];
      NoInitializeFront(trace);
      RunExtendsHistory(l, h, front);
      RunKeepsValid(l, front);
      var before := Run(l, front);
      StepExtendsHistory(before, h + Committed(l, front), ins);
      assert h + Committed(l, trace) == h + Committed(l, front) + Recorded(before, ins);
    }
  }

  /** A run that starts from a registry with no recorded outcomes records exactly the committed ones. */
  lemma RunFromEmpty(l: Ledger, trace: seq<Instruction>)
    requires Valid(l) && RecordsHistory(l.registry, []) && NoInitialize(trace)
    ensures RecordsHistory(Run(l, trace).registry, Committed(l, trace))
  {
    var h := Committed(l, trace);
    assert [] + h == h;
    RunExtendsHistory(l, [], trace);
  }

  /** A registry with zero counts, the cursor at 0 and every slot pending holds the empty history. */
  lemma EmptyHistory(reg: Registry)
    requires reg.txCount == 0 && reg.successCount == 0 && reg.failureCount == 0 && reg.cursor == 0
    requires |reg.lastOutcomes| == RING_SIZE
    requires forall j :: 0 <= j < RING_SIZE ==> reg.lastOutcomes[j] == PENDING
    ensures RecordsHistory(reg, [])
  {
  }

  /**
   * From `initialize` on, with no second `initialize`, the registry holds the
   * history of the committed registrations.
   */
  lemma RegistryRecordsHistory(trace: seq<Instruction>)
    requires NoInitialize(trace)
    ensures RecordsHistory(Run(Spec.InitialLedger(), trace).registry, Committed(Spec.InitialLedger(), trace))
  {
    var init := Spec.InitialLedger();
    EmptyHistory(init.registry);
    Spec.InitialLedgerValid();
    RunFromEmpty(init, trace);
  }
}
