/** What a run always leaves possible: every step that is owed has its log, a read that shows it owed is
    answered by its report, and no epoch is stuck. */
module ProtocolProgress {
  import opened Results
  import opened Words
  import opened Bindings
  import opened Config
  import opened Snapshot
  import opened Handlers
  import opened Preflight
  import opened SettlementTheorems
  import opened Protocol
  import opened ProtocolSafety
  import V = ParentVault

  /** The log of whatever the parent now waits for has been emitted. */
  predicate Emitted(p: V.State, logs: set<Event>) {
    && (Flying(p) && p.PreviousEpoch().totalWithdrawClaimAmount > p.PreviousEpoch().totalDepositAmount ==>
          EpochWithdrawExecuting(p.epochNonce - 1,
                                 p.PreviousEpoch().totalWithdrawClaimAmount - p.PreviousEpoch().totalDepositAmount) in logs)
    && (p.rebalance.state == REBALANCING ==>
          RebalanceInitiated(p.rebalance.nonce, p.rebalance.pendingStrategy) in logs)
  }

  lemma CloseEmits(env: Env, w: World, nonce: uint256, tvl: uint256, adapterOut: uint256, now: uint256)
    requires Emitted(w.parent, w.logs)
    ensures var w' := AfterClose(env, w, nonce, tvl, adapterOut, now);
            Emitted(w'.parent, w'.logs)
  {
    var isLocal := w.parent.rebalance.activeStrategy.chainSelector == env.ParentChain();
    var closed := V.CloseEpoch(w.parent, nonce, tvl, env.Precision(), isLocal, adapterOut, now);
    if closed.Ok? {
      var (q, s) := closed.value;
      CloseFacts(w.parent, nonce, tvl, env.Precision(), isLocal, adapterOut, now, q, s);
      var e := w.parent.CurrentEpoch();
      SettleFacts(e.totalDepositAmount, e.totalShareBurnAmount, w.parent.totalShares, tvl, env.Precision(), isLocal, s);
    }
  }

  lemma CompletionEmits(w: World, nonce: uint256, actual: uint256)
    requires Emitted(w.parent, w.logs)
    ensures var w' := AfterDelivery(w, nonce, actual);
            Emitted(w'.parent, w'.logs)
  {
    var completed := V.CompleteEpochDeposit(w.parent, nonce, actual);
    if completed.Ok? {
      DeliveryFacts(w.parent, nonce, actual, completed.value.0, completed.value.1);
    }
  }

  lemma InitiationEmits(env: Env, w: World, nonce: uint256, target: Strategy, isSupported: bool, now: uint256)
    requires Emitted(w.parent, w.logs)
    ensures var w' := AfterInitiate(env, w, nonce, target, isSupported, now);
            Emitted(w'.parent, w'.logs)
  {
    var initiated := V.InitiateRebalance(w.parent, nonce, target, env.ParentChain(), isSupported, now);
    if initiated.Ok? {
      InitiateFacts(w.parent, nonce, target, env.ParentChain(), isSupported, now, initiated.value.0, initiated.value.1);
    }
  }

  lemma FinalizationEmits(w: World, nonce: uint256, newStrategy: Strategy, now: uint256)
    requires Emitted(w.parent, w.logs)
    ensures var r := V.FinalizeRebalance(w.parent, nonce, newStrategy, false, now);
            r.Ok? ==> Emitted(r.value.0, w.logs)
  {
    var r := V.FinalizeRebalance(w.parent, nonce, newStrategy, false, now);
    if r.Ok? {
      FinalizeFacts(w.parent, nonce, newStrategy, false, now, r.value.0, r.value.1);
    }
  }

  lemma DeliverEmits(env: Env, w: World, r: Report, adapterOut: uint256, isSupported: bool, now: uint256)
    requires Emitted(w.parent, w.logs)
    ensures var w' := Deliver(env, w, r, adapterOut, isSupported, now);
            Emitted(w'.parent, w'.logs)
  {
    match r.call
    case CloseEpoch(nonce, tvl) => CloseEmits(env, w, nonce, tvl, adapterOut, now);
    case CompleteEpochDeposit(nonce, actual) => CompletionEmits(w, nonce, actual);
    case InitiateRebalance(nonce, target) => InitiationEmits(env, w, nonce, target, isSupported, now);
    case CompleteRebalance(nonce) => FinalizationEmits(w, nonce, w.parent.rebalance.pendingStrategy, now);
    case _ =>
  }

  lemma StepEmits(env: Env, w: World, step: Step)
    requires env.Valid() && ParentOk(w.parent) && Enabled(env, w, step) && Emitted(w.parent, w.logs)
    ensures var w' := Next(env, w, step);
            Emitted(w'.parent, w'.logs)
  {
    match step
    case Delivery(r, adapterOut, isSupported, now) => DeliverEmits(env, w, r, adapterOut, isSupported, now);
    case WithdrawalArrives(nonce, received) =>
      var r := V.ReceiveNetWithdraw(w.parent, nonce, received);
      if r.Ok? {
        ReceiptFacts(w.parent, nonce, received, r.value);
      }
    case RebalanceArrives(newStrategy, now) => FinalizationEmits(w, w.parent.rebalance.nonce, newStrategy, now);
    case _ =>
  }

  lemma RunEmits(env: Env, worlds: seq<World>, steps: seq<Step>, i: nat)
    requires IsRun(env, worlds, steps) && i < |steps|
    ensures Emitted(worlds[i].parent, worlds[i].logs) ==> Emitted(worlds[i + 1].parent, worlds[i + 1].logs)
  {
    RunKeeps(env, worlds, steps, i);
    if Emitted(worlds[i].parent, worlds[i].logs) {
      StepEmits(env, worlds[i], steps[i]);
    }
  }

  lemma {:induction false} EmittedThroughout(worlds: seq<World>, i: nat)
    requires i < |worlds| && Emitted(worlds[0].parent, worlds[0].logs)
    requires forall k :: 0 <= k < i && Emitted(worlds[k].parent, worlds[k].logs) ==>
               Emitted(worlds[k + 1].parent, worlds[k + 1].logs)
    ensures Emitted(worlds[i].parent, worlds[i].logs)
  {
    if i != 0 {
      EmittedThroughout(worlds, i - 1);
      assert Emitted(worlds[i - 1 + 1].parent, worlds[i - 1 + 1].logs);
    }
  }

  /** No log that a later step depends on is ever missing. */
  lemma LogsAreEmitted(env: Env, worlds: seq<World>, steps: seq<Step>, i: nat)
    requires IsRun(env, worlds, steps) && i < |worlds|
    ensures Emitted(worlds[i].parent, worlds[i].logs)
  {
    forall k | 0 <= k < i && Emitted(worlds[k].parent, worlds[k].logs)
      ensures Emitted(worlds[k + 1].parent, worlds[k + 1].logs)
    {
      RunEmits(env, worlds, steps, k);
    }
    EmittedThroughout(worlds, i);
  }

  /** The log trigger of the parent vault for one of its events. */
  function ParentLog(parentCfg: EvmConfig, event: Event): Trigger {
    LogTrigger(parentCfg, Some(Log(parentCfg.vaultAddress.bytes, event)))
  }

  /** While no vault is blocked, a parent's log reaches the handler of its event. */
  lemma WithdrawalIsDispatched(env: Env, s: Snapshot, parentCfg: EvmConfig, nonce: uint256, amount: uint256)
    requires env.Valid() && ValidSnapshot(env.cfg.evms, s) && Operational(s, env.cfg.evms) && parentCfg.isParent
    ensures Execute(env.text, env.keccak, env.cfg, s, ParentLog(parentCfg, EpochWithdrawExecuting(nonce, amount)))
            == OnEpochWithdrawExecuting(env.text, env.cfg, s, parentCfg.chainSelector, parentCfg.vaultAddress.bytes,
                                        nonce, amount)
  {
  }

  lemma MoveIsDispatched(env: Env, s: Snapshot, parentCfg: EvmConfig, nonce: uint256, target: Strategy)
    requires env.Valid() && ValidSnapshot(env.cfg.evms, s) && Operational(s, env.cfg.evms) && parentCfg.isParent
    ensures Execute(env.text, env.keccak, env.cfg, s, ParentLog(parentCfg, RebalanceInitiated(nonce, target)))
            == OnRebalanceInitiated(env.text, env.cfg, s, parentCfg.chainSelector, parentCfg.vaultAddress.bytes,
                                    nonce, target)
  {
  }

  lemma WithdrawalDecision(text: Text, cfg: Config, s: Snapshot, parentCfg: EvmConfig, child: EvmConfig,
                           nonce: uint256, amount: uint256)
    requires ValidConfig(text, cfg) && ValidSnapshot(cfg.evms, s) && FindParent(cfg.evms) == Some(parentCfg)
    requires Justified(cfg, s, child, ExecuteEpochWithdraw(nonce, amount))
    ensures OnEpochWithdrawExecuting(text, cfg, s, parentCfg.chainSelector, parentCfg.vaultAddress.bytes, nonce, amount)
            == Submit(Report(child, s.observedAt, ExecuteEpochWithdraw(nonce, amount)))
  {
    ParentLogMatches(text, cfg, parentCfg);
    LookupsAreUnique(text, cfg.evms, child);
    LookupsAreUnique(text, cfg.evms, parentCfg);
  }

  lemma WithdrawalIsExecuted(env: Env, s: Snapshot, parentCfg: EvmConfig, child: EvmConfig, nonce: uint256, amount: uint256)
    requires env.Valid() && ValidSnapshot(env.cfg.evms, s) && FindParent(env.cfg.evms) == Some(parentCfg)
    requires Operational(s, env.cfg.evms) && Justified(env.cfg, s, child, ExecuteEpochWithdraw(nonce, amount))
    ensures Execute(env.text, env.keccak, env.cfg, s, ParentLog(parentCfg, EpochWithdrawExecuting(nonce, amount)))
            == Submit(Report(child, s.observedAt, ExecuteEpochWithdraw(nonce, amount)))
  {
    WithdrawalIsDispatched(env, s, parentCfg, nonce, amount);
    WithdrawalDecision(env.text, env.cfg, s, parentCfg, child, nonce, amount);
  }

  lemma MoveDecision(text: Text, cfg: Config, s: Snapshot, parentCfg: EvmConfig, child: EvmConfig,
                     nonce: uint256, target: Strategy)
    requires ValidConfig(text, cfg) && ValidSnapshot(cfg.evms, s) && FindParent(cfg.evms) == Some(parentCfg)
    requires Justified(cfg, s, child, ExecuteRebalance(nonce, target))
    ensures OnRebalanceInitiated(text, cfg, s, parentCfg.chainSelector, parentCfg.vaultAddress.bytes, nonce, target)
            == Submit(Report(child, s.observedAt, ExecuteRebalance(nonce, target)))
  {
    EarlyReadMatchesNoTarget(text, cfg, s, child, parentCfg, target);
  }

  lemma MoveIsExecuted(env: Env, s: Snapshot, parentCfg: EvmConfig, child: EvmConfig, nonce: uint256, target: Strategy)
    requires env.Valid() && ValidSnapshot(env.cfg.evms, s) && FindParent(env.cfg.evms) == Some(parentCfg)
    requires Operational(s, env.cfg.evms) && Justified(env.cfg, s, child, ExecuteRebalance(nonce, target))
    ensures Execute(env.text, env.keccak, env.cfg, s, ParentLog(parentCfg, RebalanceInitiated(nonce, target)))
            == Submit(Report(child, s.observedAt, ExecuteRebalance(nonce, target)))
  {
    MoveIsDispatched(env, s, parentCfg, nonce, target);
    MoveDecision(env.text, env.cfg, s, parentCfg, child, nonce, target);
  }

  /** What a current read of the parent asks of the active child: the withdrawal of its previous epoch, or
      the rebalance in progress. */
  function Asked(p: V.State): Option<Event> {
    if Flying(p) && p.PreviousEpoch().totalWithdrawClaimAmount > p.PreviousEpoch().totalDepositAmount then
      Some(EpochWithdrawExecuting(p.epochNonce - 1,
                                  p.PreviousEpoch().totalWithdrawClaimAmount - p.PreviousEpoch().totalDepositAmount))
    else if p.rebalance.state == REBALANCING then
      Some(RebalanceInitiated(p.rebalance.nonce, p.rebalance.pendingStrategy))
    else None
  }

  lemma AskedWithdrawalIsJustified(env: Env, w: World, s: Snapshot, child: EvmConfig, nonce: uint256, amount: uint256)
    requires ViewOk(w.facts, w.parent) && Reads(s, w.parent) && ValidSnapshot(env.cfg.evms, s)
    requires Asked(w.parent) == Some(EpochWithdrawExecuting(nonce, amount))
    requires ActiveChild(env.cfg, s, child) && s.children[child.chainSelector].lastHandledEpochNonce.v < nonce
    ensures Justified(env.cfg, s, child, ExecuteEpochWithdraw(nonce, amount))
    ensures WithdrawalOk(w.facts, Withdrawal(child.chainSelector, nonce, amount))
  {
  }

  /** Whenever a remote withdrawal is owed, its log has been emitted, and an execution that gets this log on
      a current operational read, before the child has handled the epoch, submits exactly the withdrawal. */
  lemma OwedWithdrawalIsSubmitted(env: Env, w: World, s: Snapshot, parentCfg: EvmConfig, child: EvmConfig,
                                  nonce: uint256, amount: uint256)
    requires env.Valid() && FindParent(env.cfg.evms) == Some(parentCfg)
    requires ViewOk(w.facts, w.parent) && Emitted(w.parent, w.logs)
    requires Asked(w.parent) == Some(EpochWithdrawExecuting(nonce, amount))
    requires Reads(s, w.parent) && ValidSnapshot(env.cfg.evms, s) && Operational(s, env.cfg.evms)
    requires ActiveChild(env.cfg, s, child) && s.children[child.chainSelector].lastHandledEpochNonce.v < nonce
    ensures EpochWithdrawExecuting(nonce, amount) in w.logs
    ensures WithdrawalOk(w.facts, Withdrawal(child.chainSelector, nonce, amount))
    ensures Execute(env.text, env.keccak, env.cfg, s, ParentLog(parentCfg, EpochWithdrawExecuting(nonce, amount)))
            == Submit(Report(child, s.observedAt, ExecuteEpochWithdraw(nonce, amount)))
  {
    AskedWithdrawalIsJustified(env, w, s, child, nonce, amount);
    WithdrawalIsExecuted(env, s, parentCfg, child, nonce, amount);
  }

  lemma AskedMoveIsJustified(env: Env, w: World, s: Snapshot, child: EvmConfig, nonce: uint256, target: Strategy)
    requires ViewOk(w.facts, w.parent) && Reads(s, w.parent) && ValidSnapshot(env.cfg.evms, s)
    requires Asked(w.parent) == Some(RebalanceInitiated(nonce, target)) && Configured(env.cfg, target.chainSelector)
    requires ActiveChild(env.cfg, s, child) && s.children[child.chainSelector].lastHandledRebalanceNonce.v < nonce
    ensures Justified(env.cfg, s, child, ExecuteRebalance(nonce, target))
    ensures MoveOk(w.facts, Move(child.chainSelector, nonce, target))
  {
  }

  /** The same for a rebalance in progress away from a child. */
  lemma PendingMoveIsSubmitted(env: Env, w: World, s: Snapshot, parentCfg: EvmConfig, child: EvmConfig,
                               nonce: uint256, target: Strategy)
    requires env.Valid() && FindParent(env.cfg.evms) == Some(parentCfg)
    requires ViewOk(w.facts, w.parent) && Emitted(w.parent, w.logs)
    requires Asked(w.parent) == Some(RebalanceInitiated(nonce, target)) && Configured(env.cfg, target.chainSelector)
    requires Reads(s, w.parent) && ValidSnapshot(env.cfg.evms, s) && Operational(s, env.cfg.evms)
    requires ActiveChild(env.cfg, s, child) && s.children[child.chainSelector].lastHandledRebalanceNonce.v < nonce
    ensures RebalanceInitiated(nonce, target) in w.logs && MoveOk(w.facts, Move(child.chainSelector, nonce, target))
    ensures Execute(env.text, env.keccak, env.cfg, s, ParentLog(parentCfg, RebalanceInitiated(nonce, target)))
            == Submit(Report(child, s.observedAt, ExecuteRebalance(nonce, target)))
  {
    AskedMoveIsJustified(env, w, s, child, nonce, target);
    MoveIsExecuted(env, s, parentCfg, child, nonce, target);
  }

  // ----- which epochs finish -----

  /** The delivery is of the net deposit, and still allocates at least one share. */
  predicate Allocates(c: Closed, actual: uint256) {
    var s := c.epoch.settlement;
    0 < actual <= s.netFlow && (actual == s.netFlow || s.newShares * (s.totalWithdraw + actual) >= c.epoch.deposit)
  }

  /** What the reconciliation of a settled epoch answers to a delivery. */
  function Answer(c: Closed, actual: uint256): Result<uint256, V.Rejection> {
    V.Reconcile(c.epoch.deposit, c.epoch.settlement.totalWithdraw, c.epoch.settlement.newShares,
                c.epoch.settlement.totalShares, actual)
  }

  /** It accepts exactly what allocates a share, and refuses a short delivery for no other reason. */
  lemma AllocationAnswer(c: Closed, precision: uint256, actual: uint256)
    ensures c.epoch.Valid(precision) ==>
              && (Answer(c, actual).Ok? <==> Allocates(c, actual))
              && (0 < actual < c.epoch.settlement.netFlow && Answer(c, actual).Err? ==>
                    Answer(c, actual) == Err(V.DepositWouldMintZeroShares))
  {
    if c.epoch.Valid(precision) {
      var s := c.epoch.settlement;
      SettleFacts(c.epoch.deposit, c.epoch.burn, c.epoch.supply, c.epoch.tvl, precision, c.epoch.isLocal, s);
      if 0 < actual < s.netFlow {
        ShortDeliveryAfterClose(c.epoch.deposit, c.epoch.burn, c.epoch.supply, c.epoch.tvl, precision, c.epoch.isLocal,
                                s, actual);
      }
    }
  }

  /** The vault answers a delivery of the close in transit as its reconciliation does, and the epoch is then
      claimable. */
  lemma DeliveryAnswer(p: V.State, c: Closed, actual: uint256)
    requires p.epochNonce > 1 && Flying(p) && InTransit(p, c)
    ensures var answer := V.CompleteEpochDeposit(p, p.epochNonce - 1, actual);
            && (answer.Ok? <==> Answer(c, actual).Ok?)
            && (answer.Ok? ==> answer.value.1 == Answer(c, actual).value
                               && answer.value.0.PreviousEpoch().status == EPOCH_CLAIMABLE)
            && (Answer(c, actual).Err? ==> answer == Err(Answer(c, actual).error))
  {
    var s := c.epoch.settlement;
    ReconcileAccepts(c.epoch.deposit, s.totalWithdraw, s.newShares, s.totalShares, actual);
  }

  /** For a net withdrawal in transit the vault takes in any amount that does not overflow the claim. */
  lemma ReceiptAnswer(p: V.State, c: Closed, received: uint256)
    requires p.epochNonce > 1 && Flying(p) && InTransit(p, c)
    ensures var answer := V.ReceiveNetWithdraw(p, p.epochNonce - 1, received);
            && (answer.Ok? <==> c.epoch.deposit < c.epoch.settlement.totalWithdraw && c.epoch.deposit + received < TWO_256)
            && (answer.Ok? ==> answer.value.PreviousEpoch().status == EPOCH_CLAIMABLE
                               && answer.value.PreviousEpoch().totalWithdrawClaimAmount == c.epoch.deposit + received)
  {
  }

  function LastClose(f: Facts): Closed
    requires f.ledger != []
  {
    f.ledger[|f.ledger| - 1]
  }

  lemma LastIsInTransit(precision: uint256, p: V.State, f: Facts, fees: nat)
    ensures LedgerOk(precision, p, f.ledger, fees) && Flying(p) ==>
              f.ledger != [] && InTransit(p, LastClose(f)) && LastClose(f).epoch.Valid(precision)
  {
  }

  lemma UnitAllocates(c: Closed, precision: uint256, actual: uint256)
    requires 0 < actual && c.epoch.settlement.totalWithdraw + actual >= precision
    ensures c.epoch.Valid(precision) && actual <= c.epoch.settlement.netFlow ==> Allocates(c, actual)
  {
    var s := c.epoch.settlement;
    if c.epoch.Valid(precision) && actual < s.netFlow {
      OneUnitSurvivesReconciliation(c.epoch.deposit, c.epoch.burn, c.epoch.supply, c.epoch.tvl, precision, c.epoch.isLocal,
                                    s, actual);
    }
  }

  /** Which deliveries finish an executing epoch of a run: all of the net deposit, or less of it that still
      allocates a share, which every delivery does that leaves one whole asset unit in the epoch. Any other
      delivery leaves it executing. */
  lemma WhichDeliveriesFinish(env: Env, worlds: seq<World>, steps: seq<Step>, t: nat, actual: uint256)
    requires IsRun(env, worlds, steps) && t < |worlds| && Flying(worlds[t].parent)
    ensures worlds[t].facts.ledger != []
    ensures var answer := V.CompleteEpochDeposit(worlds[t].parent, worlds[t].parent.epochNonce - 1, actual);
            && (answer.Ok? <==> Allocates(LastClose(worlds[t].facts), actual))
            && (answer.Ok? ==> answer.value.0.PreviousEpoch().status == EPOCH_CLAIMABLE)
    ensures var s := LastClose(worlds[t].facts).epoch.settlement;
            0 < actual <= s.netFlow && s.totalWithdraw + actual >= env.Precision() ==>
              Allocates(LastClose(worlds[t].facts), actual)
  {
    RunKeeps(env, worlds, steps, t);
    var w := worlds[t];
    LastIsInTransit(env.Precision(), w.parent, w.facts, w.fees);
    var c := LastClose(w.facts);
    AllocationAnswer(c, env.Precision(), actual);
    DeliveryAnswer(w.parent, c, actual);
    if 0 < actual && c.epoch.settlement.totalWithdraw + actual >= env.Precision() {
      UnitAllocates(c, env.Precision(), actual);
    }
  }

  /** Which receipts finish an executing epoch of a run: any amount at all for a net withdrawal. */
  lemma WhichReceiptsFinish(env: Env, worlds: seq<World>, steps: seq<Step>, t: nat, received: uint256)
    requires IsRun(env, worlds, steps) && t < |worlds| && Flying(worlds[t].parent)
    ensures worlds[t].facts.ledger != []
    ensures var c, answer := LastClose(worlds[t].facts),
                             V.ReceiveNetWithdraw(worlds[t].parent, worlds[t].parent.epochNonce - 1, received);
            && (answer.Ok? <==> c.epoch.settlement.netFlow < 0 && c.epoch.deposit + received < TWO_256)
            && (answer.Ok? ==> answer.value.PreviousEpoch().status == EPOCH_CLAIMABLE)
  {
    RunKeeps(env, worlds, steps, t);
    var w := worlds[t];
    LastIsInTransit(env.Precision(), w.parent, w.facts, w.fees);
    var c := LastClose(w.facts).epoch;
    SettleFacts(c.deposit, c.burn, c.supply, c.tvl, env.Precision(), c.isLocal, c.settlement);
    ReceiptAnswer(w.parent, LastClose(w.facts), received);
  }
}
