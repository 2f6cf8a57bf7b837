/** What the handlers' guards mean: they agree with the vault's own checks, exclude each other, never fail
    on a served configuration, and address every report to the right vault. */
module Preflight {
  import opened Results
  import opened Words
  import opened Bindings
  import opened Config
  import opened Snapshot
  import opened PoolRanking
  import opened PoolSelection
  import opened RelayResponse
  import opened Handlers
  import opened Workflow
  import ParentVault
  import Reports
  import opened SettlementTheorems

  // ----- agreement with the vault -----

  /** The snapshot's parent record is a current read of this vault state. */
  predicate Reads(s: Snapshot, p: ParentVault.State) {
    Uint256(s.parent.tvl) && s.parent == ReadParent(p, s.parent.paused, s.parent.recoveryMode, s.parent.tvl.v)
  }

  /** The TVL that a close would report. */
  function ReportedTvl(cfg: Config, s: Snapshot, parentChain: uint64): Option<uint256> {
    match ActiveTvl(s, parentChain)
    case None => None
    case Some(tvl) => if Uint256(tvl) then Some(tvl.v) else None
  }

  /** A close is submitted exactly when the vault would accept it at the observation time, up to the two
      overflows that only the vault itself can meet: of the epoch nonce, and of a local claim. */
  lemma CloseMirrorsVault(text: Text, cfg: Config, s: Snapshot, p: ParentVault.State, parentCfg: EvmConfig,
                          tvl: uint256, adapterOut: uint256)
    requires ValidConfig(text, cfg) && ValidSnapshot(cfg.evms, s) && Reads(s, p)
    requires FindParent(cfg.evms) == Some(parentCfg) && ReportedTvl(cfg, s, parentCfg.chainSelector) == Some(tvl)
    ensures IsUint256(Power(10, cfg.assetDecimals.value))
    ensures var isLocal := p.rebalance.activeStrategy.chainSelector == parentCfg.chainSelector;
            var accepted := ParentVault.CloseEpoch(p, p.epochNonce, tvl, Power(10, cfg.assetDecimals.value), isLocal,
                                                   adapterOut, s.observedAt);
            var epoch := p.CurrentEpoch();
            accepted.Ok? <==>
              && OnEpochCron(text, cfg, s) == Submit(Report(parentCfg, s.observedAt, CloseEpoch(p.epochNonce, tvl)))
              && p.epochNonce + 1 < TWO_256
              && (isLocal && Withdraws(p, tvl, Power(10, cfg.assetDecimals.value)) ==>
                    epoch.totalDepositAmount + adapterOut < TWO_256)
  {
    AssetPrecisionIsUint256(cfg.assetDecimals.value);
  }

  /** The epoch owes more than was deposited into it. */
  predicate Withdraws(p: ParentVault.State, tvl: uint256, precision: uint256) {
    var epoch := p.CurrentEpoch();
    var settled := ParentVault.Settle(epoch.totalDepositAmount, epoch.totalShareBurnAmount, p.totalShares, tvl, precision, true);
    settled.Ok? && settled.value.netFlow < 0
  }

  /** The vault state lets a delivery of `amount` complete the previous epoch. */
  predicate Completable(p: ParentVault.State, nonce: uint256, amount: uint256) {
    && p.epochNonce > 1 && nonce == p.epochNonce - 1 && p.PreviousEpoch().status == EPOCH_EXECUTING
    && ParentVault.Reconcile(p.PreviousEpoch().totalDepositAmount, p.PreviousEpoch().totalWithdrawClaimAmount,
                             p.PreviousEpoch().remainingShareMintAmount, p.totalShares, amount).Ok?
  }

  lemma VaultCompletesExactlyWhen(p: ParentVault.State, nonce: uint256, amount: uint256)
    ensures ParentVault.CompleteEpochDeposit(p, nonce, amount).Ok? <==> Completable(p, nonce, amount)
  {
    var epoch := p.PreviousEpoch();
    ReconcileAccepts(epoch.totalDepositAmount, epoch.totalWithdrawClaimAmount, epoch.remainingShareMintAmount,
                     p.totalShares, amount);
  }

  lemma HandlerCompletesExactlyWhen(text: Text, cfg: Config, s: Snapshot, p: ParentVault.State, parentCfg: EvmConfig,
                                    source: uint64, address: seq<uint8>, nonce: uint256, amount: uint256)
    requires ValidConfig(text, cfg) && ValidSnapshot(cfg.evms, s) && Reads(s, p)
    requires FindParent(cfg.evms) == Some(parentCfg)
    requires source != parentCfg.chainSelector
    requires MatchSource(cfg.evms, address, source, p.rebalance.activeStrategy.chainSelector)
    ensures OnEpochDepositSuccess(text, cfg, s, source, address, nonce, amount)
            == Submit(Report(parentCfg, s.observedAt, CompleteEpochDeposit(nonce, amount)))
            <==> Completable(p, nonce, amount)
  {
  }

  /** A delivery reported by the active child is submitted exactly when the vault would accept it. */
  lemma DeliveryMirrorsVault(text: Text, cfg: Config, s: Snapshot, p: ParentVault.State, parentCfg: EvmConfig,
                             source: uint64, address: seq<uint8>, nonce: uint256, amount: uint256)
    requires ValidConfig(text, cfg) && ValidSnapshot(cfg.evms, s) && Reads(s, p)
    requires FindParent(cfg.evms) == Some(parentCfg)
    requires source != parentCfg.chainSelector
    requires MatchSource(cfg.evms, address, source, p.rebalance.activeStrategy.chainSelector)
    ensures ParentVault.CompleteEpochDeposit(p, nonce, amount).Ok? <==>
              OnEpochDepositSuccess(text, cfg, s, source, address, nonce, amount)
              == Submit(Report(parentCfg, s.observedAt, CompleteEpochDeposit(nonce, amount)))
  {
    VaultCompletesExactlyWhen(p, nonce, amount);
    HandlerCompletesExactlyWhen(text, cfg, s, p, parentCfg, source, address, nonce, amount);
  }

  predicate ArithmeticFailure(e: ParentVault.Rejection) {
    e == ParentVault.ArithmeticPanic || e == ParentVault.MulDivOverflow
  }

  /** The vault state lets a rebalance to `target` begin. */
  predicate Initiable(p: ParentVault.State, nonce: uint256, target: Strategy, now: int64) {
    && p.rebalance.state == REBALANCE_NONE && nonce == p.rebalance.nonce && target != p.rebalance.activeStrategy
    && p.epochNonce > 1 && p.PreviousEpoch().status != EPOCH_EXECUTING
    && now >= p.rebalance.lastRebalanceCompletedTimestamp + 3600
  }

  lemma VaultInitiates(p: ParentVault.State, nonce: uint256, target: Strategy, parentChain: uint64, isSupported: bool, now: int64)
    requires Initiable(p, nonce, target, now) && now >= 0
    ensures var initiated := ParentVault.InitiateRebalance(p, nonce, target, parentChain, isSupported, now);
            if isSupported then initiated.Err? ==> ArithmeticFailure(initiated.error)
            else initiated == Err(ParentVault.UnsupportedStrategy)
  {
  }

  /** The call of an initiation, if the outcome is one. */
  function Initiation(o: Outcome): Option<(uint256, Strategy)> {
    if o.Submit? && o.report.call.InitiateRebalance?
    then Some((o.report.call.expectedRebalanceNonce, o.report.call.newStrategy)) else None
  }

  lemma HandlerInitiates(text: Text, keccak: string -> ProtocolId, cfg: Config, s: Snapshot, p: ParentVault.State,
                         fetched: Option<Selection>)
    requires ValidConfig(text, cfg) && ValidSnapshot(cfg.evms, s) && Reads(s, p)
    ensures var o := OnRebalanceCron(text, keccak, cfg, s, fetched);
            o.Submit? ==> Initiation(o).Some? && Initiable(p, Initiation(o).value.0, Initiation(o).value.1, s.observedAt)
  {
  }

  /** An initiation is submitted only when the vault would accept it, if it supports the strategy and its
      own arithmetic does not overflow. */
  lemma InitiationMirrorsVault(text: Text, keccak: string -> ProtocolId, cfg: Config, s: Snapshot, p: ParentVault.State,
                               fetched: Option<Selection>, parentChain: uint64, isSupported: bool)
    requires ValidConfig(text, cfg) && ValidSnapshot(cfg.evms, s) && Reads(s, p)
    ensures var o := OnRebalanceCron(text, keccak, cfg, s, fetched);
            o.Submit? ==>
              Initiation(o).Some?
              && var initiated := ParentVault.InitiateRebalance(p, Initiation(o).value.0, Initiation(o).value.1, parentChain,
                                                                isSupported, s.observedAt);
                 if isSupported then initiated.Err? ==> ArithmeticFailure(initiated.error)
                 else initiated == Err(ParentVault.UnsupportedStrategy)
  {
    HandlerInitiates(text, keccak, cfg, s, p, fetched);
    var initiation := Initiation(OnRebalanceCron(text, keccak, cfg, s, fetched));
    if OnRebalanceCron(text, keccak, cfg, s, fetched).Submit? {
      VaultInitiates(p, initiation.value.0, initiation.value.1, parentChain, isSupported, s.observedAt);
    }
  }

  /** The vault state lets the rebalance under this nonce be completed for a child. */
  predicate Finalizable(p: ParentVault.State, nonce: uint256, parentChain: uint64) {
    && p.rebalance.state == REBALANCING && nonce == p.rebalance.nonce
    && p.rebalance.pendingStrategy.chainSelector != parentChain
  }

  lemma VaultFinalizesExactlyWhen(p: ParentVault.State, nonce: uint256, parentChain: uint64, now: uint256)
    ensures var completed := ParentVault.CompleteRebalance(p, nonce, parentChain, now);
            completed.Ok? || ArithmeticFailure(completed.error) <==> Finalizable(p, nonce, parentChain)
  {
  }

  lemma HandlerFinalizesExactlyWhen(text: Text, cfg: Config, s: Snapshot, p: ParentVault.State, parentCfg: EvmConfig,
                                    source: uint64, address: seq<uint8>, nonce: uint256)
    requires ValidConfig(text, cfg) && ValidSnapshot(cfg.evms, s) && Reads(s, p)
    requires FindParent(cfg.evms) == Some(parentCfg)
    requires MatchSource(cfg.evms, address, source, p.rebalance.pendingStrategy.chainSelector)
    ensures OnRebalanceDepositSuccess(text, cfg, s, source, address, nonce)
            == Submit(Report(parentCfg, s.observedAt, CompleteRebalance(nonce)))
            <==> Finalizable(p, nonce, parentCfg.chainSelector)
  {
  }

  /** A completion is submitted for a delivery of the pending child exactly when the vault would accept it
      or fail in its own fee arithmetic. */
  lemma CompletionMirrorsVault(text: Text, cfg: Config, s: Snapshot, p: ParentVault.State, parentCfg: EvmConfig,
                               source: uint64, address: seq<uint8>, nonce: uint256)
    requires ValidConfig(text, cfg) && ValidSnapshot(cfg.evms, s) && Reads(s, p)
    requires FindParent(cfg.evms) == Some(parentCfg)
    requires MatchSource(cfg.evms, address, source, p.rebalance.pendingStrategy.chainSelector)
    ensures var completed := ParentVault.CompleteRebalance(p, nonce, parentCfg.chainSelector, s.observedAt);
            OnRebalanceDepositSuccess(text, cfg, s, source, address, nonce)
            == Submit(Report(parentCfg, s.observedAt, CompleteRebalance(nonce))) <==>
              completed.Ok? || ArithmeticFailure(completed.error)
  {
    VaultFinalizesExactlyWhen(p, nonce, parentCfg.chainSelector, s.observedAt);
    HandlerFinalizesExactlyWhen(text, cfg, s, p, parentCfg, source, address, nonce);
  }

  // ----- what a report needs -----

  /** The previous epoch's net flow is on its way between the chains. */
  predicate InFlight(p: ParentView)
    requires ValidParent(p)
  {
    p.currentEpochNonce.v > 1 && p.previousEpoch.status == EPOCH_EXECUTING
  }

  predicate ActiveChild(cfg: Config, s: Snapshot, target: EvmConfig) {
    target in cfg.evms && !target.isParent && target.chainSelector == s.parent.rebalance.activeStrategy.chainSelector
  }

  /** The state of the vaults that a call is meant for, and the vault it goes to. */
  predicate Justified(cfg: Config, s: Snapshot, target: EvmConfig, call: Call)
    requires ValidSnapshot(cfg.evms, s)
  {
    var p := s.parent;
    var idle := p.rebalance.state == REBALANCE_NONE && !InFlight(p);
    match call
    case CloseEpoch(nonce, _) =>
      FindParent(cfg.evms) == Some(target) && idle && nonce == p.currentEpochNonce.v && p.currentEpoch.status == EPOCH_OPEN
    case InitiateRebalance(nonce, newStrategy) =>
      FindParent(cfg.evms) == Some(target) && idle && nonce == p.rebalance.nonce.v
      && p.currentEpochNonce.v > 1 && newStrategy != p.rebalance.activeStrategy
    case ExecuteEpochWithdraw(nonce, amount) =>
      ActiveChild(cfg, s, target) && p.rebalance.state == REBALANCE_NONE && InFlight(p)
      && nonce == p.currentEpochNonce.v - 1
      && 0 < amount == p.previousEpoch.totalWithdrawClaimAmount.v - p.previousEpoch.totalDepositAmount.v
      && nonce > s.children[target.chainSelector].lastHandledEpochNonce.v
    case CompleteEpochDeposit(nonce, amount) =>
      FindParent(cfg.evms) == Some(target) && InFlight(p) && p.rebalance.activeStrategy.chainSelector != target.chainSelector
      && nonce == p.currentEpochNonce.v - 1
      && 0 < amount <= p.previousEpoch.totalDepositAmount.v - p.previousEpoch.totalWithdrawClaimAmount.v
    case ExecuteRebalance(nonce, newStrategy) =>
      ActiveChild(cfg, s, target) && nonce == p.rebalance.nonce.v
      && (p.rebalance.state == REBALANCING ==> newStrategy == p.rebalance.pendingStrategy)
      && FindEvmByChainSelector(cfg.evms, newStrategy.chainSelector).Some?
      && nonce > s.children[target.chainSelector].lastHandledRebalanceNonce.v
    case CompleteRebalance(nonce) =>
      FindParent(cfg.evms) == Some(target) && p.rebalance.state == REBALANCING && nonce == p.rebalance.nonce.v
      && p.rebalance.pendingStrategy.chainSelector != target.chainSelector
  }

  /** The event that a log-driven call answers, and the chain whose vault has to have emitted it. */
  predicate AnswersLog(cfg: Config, s: Snapshot, call: Call, source: uint64, address: seq<uint8>, event: Event) {
    var fromParent := FindParent(cfg.evms).Some? && MatchSource(cfg.evms, address, source, FindParent(cfg.evms).value.chainSelector);
    var active, pending := s.parent.rebalance.activeStrategy.chainSelector, s.parent.rebalance.pendingStrategy.chainSelector;
    match call
    case ExecuteEpochWithdraw(nonce, amount) => fromParent && event == EpochWithdrawExecuting(nonce, amount)
    case ExecuteRebalance(nonce, newStrategy) => fromParent && event == RebalanceInitiated(nonce, newStrategy)
    case CompleteEpochDeposit(nonce, amount) =>
      MatchSource(cfg.evms, address, source, active) && event == EpochDepositToStrategySuccess(nonce, amount)
    case CompleteRebalance(nonce) =>
      MatchSource(cfg.evms, address, source, pending) && event.RebalanceDepositSuccess? && event.rebalanceNonce == nonce
    case _ => false
  }

  lemma CloseIsJustified(text: Text, cfg: Config, s: Snapshot)
    requires ValidConfig(text, cfg) && ValidSnapshot(cfg.evms, s)
    ensures var o := OnEpochCron(text, cfg, s);
            o.Submit? ==> o.report.call.CloseEpoch? && o.report.observedAt == s.observedAt
                          && Justified(cfg, s, o.report.target, o.report.call)
  {
  }

  lemma WithdrawalIsJustified(text: Text, cfg: Config, s: Snapshot, source: uint64, address: seq<uint8>,
                              nonce: uint256, amount: uint256)
    requires ValidConfig(text, cfg) && ValidSnapshot(cfg.evms, s)
    ensures var o := OnEpochWithdrawExecuting(text, cfg, s, source, address, nonce, amount);
            o.Submit? ==> o.report.call == ExecuteEpochWithdraw(nonce, amount) && o.report.observedAt == s.observedAt
                          && Justified(cfg, s, o.report.target, o.report.call)
                          && AnswersLog(cfg, s, o.report.call, source, address, EpochWithdrawExecuting(nonce, amount))
  {
    var o := OnEpochWithdrawExecuting(text, cfg, s, source, address, nonce, amount);
    if o.Submit? {
      LookupsAreUnique(text, cfg.evms, o.report.target);
    }
  }

  lemma DeliveryIsJustified(text: Text, cfg: Config, s: Snapshot, source: uint64, address: seq<uint8>,
                            nonce: uint256, amount: uint256)
    requires ValidConfig(text, cfg) && ValidSnapshot(cfg.evms, s)
    ensures var o := OnEpochDepositSuccess(text, cfg, s, source, address, nonce, amount);
            o.Submit? ==> o.report.call == CompleteEpochDeposit(nonce, amount) && o.report.observedAt == s.observedAt
                          && Justified(cfg, s, o.report.target, o.report.call)
                          && AnswersLog(cfg, s, o.report.call, source, address, EpochDepositToStrategySuccess(nonce, amount))
  {
    var epoch := s.parent.previousEpoch;
    ReconcileAccepts(epoch.totalDepositAmount.v, epoch.totalWithdrawClaimAmount.v, epoch.remainingShareMintAmount.v,
                     s.parent.totalShares.v, amount);
  }

  lemma InitiationIsJustified(text: Text, keccak: string -> ProtocolId, cfg: Config, s: Snapshot,
                              fetched: Option<Selection>)
    requires ValidConfig(text, cfg) && ValidSnapshot(cfg.evms, s)
    ensures var o := OnRebalanceCron(text, keccak, cfg, s, fetched);
            o.Submit? ==> o.report.call.InitiateRebalance? && o.report.observedAt == s.observedAt
                          && Justified(cfg, s, o.report.target, o.report.call)
  {
  }

  lemma RebalanceIsJustified(text: Text, cfg: Config, s: Snapshot, source: uint64, address: seq<uint8>,
                             nonce: uint256, target: Strategy)
    requires ValidConfig(text, cfg) && ValidSnapshot(cfg.evms, s)
    ensures var o := OnRebalanceInitiated(text, cfg, s, source, address, nonce, target);
            o.Submit? ==> o.report.call == ExecuteRebalance(nonce, target) && o.report.observedAt == s.observedAt
                          && Justified(cfg, s, o.report.target, o.report.call)
                          && AnswersLog(cfg, s, o.report.call, source, address, RebalanceInitiated(nonce, target))
  {
    var o := OnRebalanceInitiated(text, cfg, s, source, address, nonce, target);
    if o.Submit? {
      LookupsAreUnique(text, cfg.evms, o.report.target);
    }
  }

  lemma CompletionIsJustified(text: Text, cfg: Config, s: Snapshot, source: uint64, address: seq<uint8>,
                              nonce: uint256, amount: uint256)
    requires ValidConfig(text, cfg) && ValidSnapshot(cfg.evms, s)
    ensures var o := OnRebalanceDepositSuccess(text, cfg, s, source, address, nonce);
            o.Submit? ==> o.report.call == CompleteRebalance(nonce) && o.report.observedAt == s.observedAt
                          && Justified(cfg, s, o.report.target, o.report.call)
                          && AnswersLog(cfg, s, o.report.call, source, address, RebalanceDepositSuccess(nonce, amount))
  {
  }

  /** Every log-driven report is justified by the snapshot and answers a log of the right vault. */
  lemma LogReportsAreJustified(text: Text, cfg: Config, s: Snapshot, subscribed: EvmConfig, log: Log)
    requires ValidConfig(text, cfg) && ValidSnapshot(cfg.evms, s)
    requires OnLog(text, cfg, s, subscribed, Some(log)).Submit?
    ensures var r := OnLog(text, cfg, s, subscribed, Some(log)).report;
            && r.observedAt == s.observedAt && Justified(cfg, s, r.target, r.call)
            && AnswersLog(cfg, s, r.call, subscribed.chainSelector, log.address, log.event)
  {
    var source, address := subscribed.chainSelector, log.address;
    match log.event
    case EpochWithdrawExecuting(nonce, amount) => WithdrawalIsJustified(text, cfg, s, source, address, nonce, amount);
    case RebalanceInitiated(nonce, target) => RebalanceIsJustified(text, cfg, s, source, address, nonce, target);
    case RebalanceDepositSuccess(nonce, amount) => CompletionIsJustified(text, cfg, s, source, address, nonce, amount);
    case EpochDepositToStrategySuccess(nonce, amount) => DeliveryIsJustified(text, cfg, s, source, address, nonce, amount);
    case _ =>
  }

  /** Every report is justified by the snapshot it was decided on, and only by an operational one; what a
      log brought about answers a log of the right vault on the right chain. */
  lemma SubmissionsAreJustified(text: Text, keccak: string -> ProtocolId, cfg: Config, s: Snapshot, trigger: Trigger)
    requires ValidConfig(text, cfg) && ValidSnapshot(cfg.evms, s)
    requires Execute(text, keccak, cfg, s, trigger).Submit?
    ensures var r := Execute(text, keccak, cfg, s, trigger).report;
            && Operational(s, cfg.evms) && r.observedAt == s.observedAt
            && Justified(cfg, s, r.target, r.call)
            && match trigger
               case EpochCron => r.call.CloseEpoch?
               case RebalanceCron(_) => r.call.InitiateRebalance?
               case LogTrigger(subscribed, log) =>
                 log.Some? && AnswersLog(cfg, s, r.call, subscribed.chainSelector, log.value.address, log.value.event)
  {
    match trigger
    case EpochCron => CloseIsJustified(text, cfg, s);
    case RebalanceCron(fetched) => InitiationIsJustified(text, keccak, cfg, s, fetched);
    case LogTrigger(subscribed, log) => LogReportsAreJustified(text, cfg, s, subscribed, log.value);
  }

  // ----- exclusion -----

  predicate SettlesEpoch(c: Call) {
    c.ExecuteEpochWithdraw? || c.CompleteEpochDeposit?
  }

  predicate StartsSomething(c: Call) {
    c.CloseEpoch? || c.InitiateRebalance?
  }

  /** Calls that no single state of the vaults may call for together. */
  predicate Conflict(a: Call, b: Call) {
    || (SettlesEpoch(a) && StartsSomething(b))
    || (a.ExecuteEpochWithdraw? && b.CompleteEpochDeposit?)
    || (a.CompleteRebalance? && (StartsSomething(b) || b.ExecuteEpochWithdraw?))
  }

  /** Two executions on one snapshot, whatever their triggers and logs, never decide on conflicting calls,
      and two reports of one kind agree wherever the snapshot fixes them: all withdrawals are the same
      report, whatever logs brought them about, and so are all rebalances while one is in progress. */
  lemma OneSnapshotOneDirection(text: Text, keccak: string -> ProtocolId, cfg: Config, s: Snapshot, t1: Trigger,
                                t2: Trigger)
    requires ValidConfig(text, cfg) && ValidSnapshot(cfg.evms, s)
    requires Execute(text, keccak, cfg, s, t1).Submit? && Execute(text, keccak, cfg, s, t2).Submit?
    ensures var r1, r2 := Execute(text, keccak, cfg, s, t1).report, Execute(text, keccak, cfg, s, t2).report;
            && !Conflict(r1.call, r2.call) && !Conflict(r2.call, r1.call)
            && (r1.call.ExecuteEpochWithdraw? && r2.call.ExecuteEpochWithdraw? ==> r1 == r2)
            && (r1.call.ExecuteRebalance? && r2.call.ExecuteRebalance? && s.parent.rebalance.state == REBALANCING ==> r1 == r2)
            && (r1.call.CompleteRebalance? && r2.call.CompleteRebalance? ==> r1 == r2)
  {
    SubmissionsAreJustified(text, keccak, cfg, s, t1);
    SubmissionsAreJustified(text, keccak, cfg, s, t2);
    var r1, r2 := Execute(text, keccak, cfg, s, t1).report, Execute(text, keccak, cfg, s, t2).report;
    JustifiedExcludes(text, cfg, s, r1, r2);
  }

  lemma JustifiedExcludes(text: Text, cfg: Config, s: Snapshot, r1: Report, r2: Report)
    requires ValidConfig(text, cfg) && ValidSnapshot(cfg.evms, s)
    requires Justified(cfg, s, r1.target, r1.call) && Justified(cfg, s, r2.target, r2.call)
    requires r1.observedAt == r2.observedAt
    ensures !Conflict(r1.call, r2.call) && !Conflict(r2.call, r1.call)
    ensures r1.call.ExecuteEpochWithdraw? && r2.call.ExecuteEpochWithdraw? ==> r1 == r2
    ensures r1.call.ExecuteRebalance? && r2.call.ExecuteRebalance? && s.parent.rebalance.state == REBALANCING ==> r1 == r2
    ensures r1.call.CompleteRebalance? && r2.call.CompleteRebalance? ==> r1 == r2
  {
    if ActiveChild(cfg, s, r1.target) && ActiveChild(cfg, s, r2.target) {
      LookupsAreUnique(text, cfg.evms, r1.target);
      LookupsAreUnique(text, cfg.evms, r2.target);
    }
  }

  /** Some log or schedule makes an execution on this snapshot complete the rebalance. */
  ghost predicate CompletesRebalance(text: Text, keccak: string -> ProtocolId, cfg: Config, s: Snapshot)
    requires ValidConfig(text, cfg) && ValidSnapshot(cfg.evms, s)
  {
    exists t: Trigger :: Execute(text, keccak, cfg, s, t).Submit? && Execute(text, keccak, cfg, s, t).report.call.CompleteRebalance?
  }

  ghost predicate CompletesDeposit(text: Text, keccak: string -> ProtocolId, cfg: Config, s: Snapshot)
    requires ValidConfig(text, cfg) && ValidSnapshot(cfg.evms, s)
  {
    exists t: Trigger :: Execute(text, keccak, cfg, s, t).Submit? && Execute(text, keccak, cfg, s, t).report.call.CompleteEpochDeposit?
  }

  predicate ConfiguredChild(cfg: Config, chain: uint64) {
    FindEvmByChainSelector(cfg.evms, chain).Some? && !FindEvmByChainSelector(cfg.evms, chain).value.isParent
  }

  /** A rebalance is on its way to a configured child. */
  predicate RebalanceAwaited(cfg: Config, s: Snapshot) {
    s.parent.rebalance.state == REBALANCING && ConfiguredChild(cfg, s.parent.rebalance.pendingStrategy.chainSelector)
  }

  /** A net deposit is on its way to a configured child. */
  predicate DepositAwaited(cfg: Config, s: Snapshot)
    requires ValidSnapshot(cfg.evms, s)
  {
    && InFlight(s.parent) && ConfiguredChild(cfg, s.parent.rebalance.activeStrategy.chainSelector)
    && s.parent.previousEpoch.totalDepositAmount.v > s.parent.previousEpoch.totalWithdrawClaimAmount.v
  }

  lemma ChildMatches(text: Text, cfg: Config, child: EvmConfig)
    requires ValidConfig(text, cfg) && child in cfg.evms && !child.isParent
    ensures MatchSource(cfg.evms, child.vaultAddress.bytes, child.chainSelector, child.chainSelector)
    ensures FindParent(cfg.evms).Some? && FindParent(cfg.evms).value.chainSelector != child.chainSelector
  {
    LookupsAreUnique(text, cfg.evms, child);
  }

  function ChildLog(child: EvmConfig, event: Event): Trigger {
    LogTrigger(child, Some(Log(child.vaultAddress.bytes, event)))
  }

  lemma RebalanceSuccessIsDispatched(text: Text, keccak: string -> ProtocolId, cfg: Config, s: Snapshot, child: EvmConfig,
                                     nonce: uint256, amount: uint256)
    requires ValidConfig(text, cfg) && ValidSnapshot(cfg.evms, s) && Operational(s, cfg.evms) && !child.isParent
    ensures Execute(text, keccak, cfg, s, ChildLog(child, RebalanceDepositSuccess(nonce, amount)))
            == OnRebalanceDepositSuccess(text, cfg, s, child.chainSelector, child.vaultAddress.bytes, nonce)
  {
  }

  lemma DepositSuccessIsDispatched(text: Text, keccak: string -> ProtocolId, cfg: Config, s: Snapshot, child: EvmConfig,
                                   nonce: uint256, amount: uint256)
    requires ValidConfig(text, cfg) && ValidSnapshot(cfg.evms, s) && Operational(s, cfg.evms) && !child.isParent
    ensures Execute(text, keccak, cfg, s, ChildLog(child, EpochDepositToStrategySuccess(nonce, amount)))
            == OnEpochDepositSuccess(text, cfg, s, child.chainSelector, child.vaultAddress.bytes, nonce, amount)
  {
  }

  lemma RebalanceSuccessCompletes(text: Text, cfg: Config, s: Snapshot, child: EvmConfig)
    requires ValidConfig(text, cfg) && ValidSnapshot(cfg.evms, s) && RebalanceAwaited(cfg, s)
    requires FindEvmByChainSelector(cfg.evms, s.parent.rebalance.pendingStrategy.chainSelector) == Some(child)
    ensures FindParent(cfg.evms).Some?
    ensures OnRebalanceDepositSuccess(text, cfg, s, child.chainSelector, child.vaultAddress.bytes, s.parent.rebalance.nonce.v)
            == Submit(Report(FindParent(cfg.evms).value, s.observedAt, CompleteRebalance(s.parent.rebalance.nonce.v)))
  {
    ChildMatches(text, cfg, child);
  }

  lemma DepositSuccessCompletes(text: Text, cfg: Config, s: Snapshot, child: EvmConfig, nonce: uint256, amount: uint256)
    requires ValidConfig(text, cfg) && ValidSnapshot(cfg.evms, s) && DepositAwaited(cfg, s)
    requires FindEvmByChainSelector(cfg.evms, s.parent.rebalance.activeStrategy.chainSelector) == Some(child)
    requires nonce == s.parent.currentEpochNonce.v - 1
    requires amount == s.parent.previousEpoch.totalDepositAmount.v - s.parent.previousEpoch.totalWithdrawClaimAmount.v
    ensures FindParent(cfg.evms).Some?
    ensures OnEpochDepositSuccess(text, cfg, s, child.chainSelector, child.vaultAddress.bytes, nonce, amount)
            == Submit(Report(FindParent(cfg.evms).value, s.observedAt, CompleteEpochDeposit(nonce, amount)))
  {
    ChildMatches(text, cfg, child);
  }

  /** A rebalance can be completed exactly while no vault is blocked and one is on its way to a child. */
  lemma RebalanceCompletesExactlyWhen(text: Text, keccak: string -> ProtocolId, cfg: Config, s: Snapshot)
    requires ValidConfig(text, cfg) && ValidSnapshot(cfg.evms, s)
    ensures CompletesRebalance(text, keccak, cfg, s) <==> Operational(s, cfg.evms) && RebalanceAwaited(cfg, s)
  {
    if CompletesRebalance(text, keccak, cfg, s) {
      var t: Trigger :| Execute(text, keccak, cfg, s, t).Submit?
                        && Execute(text, keccak, cfg, s, t).report.call.CompleteRebalance?;
      SubmissionsAreJustified(text, keccak, cfg, s, t);
      var pending := FindEvmByChainSelector(cfg.evms, s.parent.rebalance.pendingStrategy.chainSelector).value;
      LookupsAreUnique(text, cfg.evms, pending);
    }
    if Operational(s, cfg.evms) && RebalanceAwaited(cfg, s) {
      var child := FindEvmByChainSelector(cfg.evms, s.parent.rebalance.pendingStrategy.chainSelector).value;
      RebalanceSuccessCompletes(text, cfg, s, child);
      RebalanceSuccessIsDispatched(text, keccak, cfg, s, child, s.parent.rebalance.nonce.v, 0);
    }
  }

  /** A deposit epoch can be completed exactly while no vault is blocked and its net deposit is on its way
      to a child. */
  lemma DepositCompletesExactlyWhen(text: Text, keccak: string -> ProtocolId, cfg: Config, s: Snapshot)
    requires ValidConfig(text, cfg) && ValidSnapshot(cfg.evms, s)
    ensures CompletesDeposit(text, keccak, cfg, s) <==> Operational(s, cfg.evms) && DepositAwaited(cfg, s)
  {
    if CompletesDeposit(text, keccak, cfg, s) {
      var t: Trigger :| Execute(text, keccak, cfg, s, t).Submit?
                        && Execute(text, keccak, cfg, s, t).report.call.CompleteEpochDeposit?;
      SubmissionsAreJustified(text, keccak, cfg, s, t);
      var active := FindEvmByChainSelector(cfg.evms, s.parent.rebalance.activeStrategy.chainSelector).value;
      LookupsAreUnique(text, cfg.evms, active);
    }
    if Operational(s, cfg.evms) && DepositAwaited(cfg, s) {
      var child := FindEvmByChainSelector(cfg.evms, s.parent.rebalance.activeStrategy.chainSelector).value;
      var nonce: uint256 := s.parent.currentEpochNonce.v - 1;
      var amount: uint256 := s.parent.previousEpoch.totalDepositAmount.v - s.parent.previousEpoch.totalWithdrawClaimAmount.v;
      DepositSuccessCompletes(text, cfg, s, child, nonce, amount);
      DepositSuccessIsDispatched(text, keccak, cfg, s, child, nonce, amount);
    }
  }

  /** The guards alone exclude one completion by the other on every snapshot but those that show a
      rebalance in progress to a child while a net deposit is on its way to one. */
  lemma CompletionsCoexistExactlyWhen(text: Text, keccak: string -> ProtocolId, cfg: Config, s: Snapshot)
    requires ValidConfig(text, cfg) && ValidSnapshot(cfg.evms, s)
    ensures CompletesRebalance(text, keccak, cfg, s) && CompletesDeposit(text, keccak, cfg, s) <==>
              Operational(s, cfg.evms) && RebalanceAwaited(cfg, s) && DepositAwaited(cfg, s)
  {
    RebalanceCompletesExactlyWhen(text, keccak, cfg, s);
    DepositCompletesExactlyWhen(text, keccak, cfg, s);
  }

  lemma ParentLogMatches(text: Text, cfg: Config, parentCfg: EvmConfig)
    requires ValidConfig(text, cfg) && FindParent(cfg.evms) == Some(parentCfg)
    ensures MatchSource(cfg.evms, parentCfg.vaultAddress.bytes, parentCfg.chainSelector, parentCfg.chainSelector)
  {
    LookupsAreUnique(text, cfg.evms, parentCfg);
  }

  /** The lookups of an active child in the handlers. */
  lemma ActiveChildIsFound(text: Text, cfg: Config, s: Snapshot, child: EvmConfig, parentCfg: EvmConfig)
    requires ValidConfig(text, cfg) && FindParent(cfg.evms) == Some(parentCfg) && ActiveChild(cfg, s, child)
    ensures FindEvmByChainSelector(cfg.evms, s.parent.rebalance.activeStrategy.chainSelector) == Some(child)
    ensures child.chainSelector != parentCfg.chainSelector
  {
    LookupsAreUnique(text, cfg.evms, child);
  }

  lemma ActiveChildIsMoved(text: Text, cfg: Config, s: Snapshot, child: EvmConfig, parentCfg: EvmConfig,
                           nonce: uint256, target: Strategy)
    requires ValidConfig(text, cfg) && ValidSnapshot(cfg.evms, s)
    requires FindParent(cfg.evms) == Some(parentCfg) && ActiveChild(cfg, s, child)
    requires nonce > s.children[child.chainSelector].lastHandledRebalanceNonce.v
    requires FindEvmByChainSelector(cfg.evms, target.chainSelector).Some?
    ensures MoveActiveChild(text, cfg, s, parentCfg, nonce, target)
            == Submit(Report(child, s.observedAt, ExecuteRebalance(nonce, target)))
  {
    ActiveChildIsFound(text, cfg, s, child, parentCfg);
  }

  lemma GenuineLogIsMatched(text: Text, cfg: Config, s: Snapshot, parentCfg: EvmConfig, target: Strategy)
    requires ValidConfig(text, cfg) && ValidSnapshot(cfg.evms, s) && FindParent(cfg.evms) == Some(parentCfg)
    ensures OnRebalanceInitiated(text, cfg, s, parentCfg.chainSelector, parentCfg.vaultAddress.bytes,
                                 s.parent.rebalance.nonce.v, target)
            == if s.parent.rebalance.state == REBALANCING && target != s.parent.rebalance.pendingStrategy
               then NoOp(DestinationMismatch)
               else MoveActiveChild(text, cfg, s, parentCfg, s.parent.rebalance.nonce.v, target)
  {
    ParentLogMatches(text, cfg, parentCfg);
  }

  /** The pending strategy is matched only once the snapshot shows the rebalance in progress: read just
      before its initiation, the same nonce lets any configured target of a genuine log through. */
  lemma EarlyReadMatchesNoTarget(text: Text, cfg: Config, s: Snapshot, child: EvmConfig, parentCfg: EvmConfig,
                                 target: Strategy)
    requires ValidConfig(text, cfg) && ValidSnapshot(cfg.evms, s)
    requires FindParent(cfg.evms) == Some(parentCfg) && ActiveChild(cfg, s, child)
    requires s.parent.rebalance.nonce.v > s.children[child.chainSelector].lastHandledRebalanceNonce.v
    requires FindEvmByChainSelector(cfg.evms, target.chainSelector).Some?
    ensures OnRebalanceInitiated(text, cfg, s, parentCfg.chainSelector, parentCfg.vaultAddress.bytes,
                                 s.parent.rebalance.nonce.v, target)
            == Submit(Report(child, s.observedAt, ExecuteRebalance(s.parent.rebalance.nonce.v, target))) <==>
              (s.parent.rebalance.state == REBALANCING ==> target == s.parent.rebalance.pendingStrategy)
  {
    GenuineLogIsMatched(text, cfg, s, parentCfg, target);
    ActiveChildIsMoved(text, cfg, s, child, parentCfg, s.parent.rebalance.nonce.v, target);
  }

  // ----- totality and addressing -----

  predicate Configured(cfg: Config, chain: uint64) {
    FindEvmByChainSelector(cfg.evms, chain).Some?
  }

  lemma ParentIsConfigured(text: Text, cfg: Config)
    requires ValidConfig(text, cfg)
    ensures FindParent(cfg.evms).Some?
  {
    LookupsAreUnique(text, cfg.evms, cfg.evms[0]);
  }

  lemma ActiveChildIsRead(text: Text, cfg: Config, s: Snapshot)
    requires ValidConfig(text, cfg) && ValidSnapshot(cfg.evms, s)
    ensures FindParent(cfg.evms).Some?
    ensures var active := s.parent.rebalance.activeStrategy.chainSelector;
            Configured(cfg, active) && active != FindParent(cfg.evms).value.chainSelector ==> active in s.children
  {
    LookupsAreUnique(text, cfg.evms, cfg.evms[0]);
    var active := FindEvmByChainSelector(cfg.evms, s.parent.rebalance.activeStrategy.chainSelector);
    if active.Some? {
      LookupsAreUnique(text, cfg.evms, active.value);
    }
  }

  /** The schedules fail only for a failed fetch or a strategy on a chain that is not configured. */
  lemma SchedulesFailOnlyOutside(text: Text, keccak: string -> ProtocolId, cfg: Config, s: Snapshot,
                                 fetched: Option<Selection>)
    requires ValidConfig(text, cfg) && ValidSnapshot(cfg.evms, s)
    ensures OnEpochCron(text, cfg, s).Fail? ==>
              OnEpochCron(text, cfg, s).error == UnknownChain
              && !Configured(cfg, s.parent.rebalance.activeStrategy.chainSelector)
    ensures var o := OnRebalanceCron(text, keccak, cfg, s, fetched);
            o.Fail? ==>
              || (fetched.None? && o.error == FetchFailed)
              || (fetched.Some? && fetched.value.best.Some? && o.error == UnknownChain
                  && SelectorOf(text, SelectionPolicy(cfg), fetched.value.best.value.chain) == None)
  {
    ActiveChildIsRead(text, cfg, s);
  }

  lemma WithdrawalLogsFail(text: Text, cfg: Config, s: Snapshot, source: uint64, address: seq<uint8>,
                           nonce: uint256, amount: uint256)
    requires ValidConfig(text, cfg) && ValidSnapshot(cfg.evms, s)
    ensures var o := OnEpochWithdrawExecuting(text, cfg, s, source, address, nonce, amount);
            o.Fail? ==> o.error == UnknownChain && !Configured(cfg, s.parent.rebalance.activeStrategy.chainSelector)
  {
    ParentIsConfigured(text, cfg);
  }

  lemma MovesFail(text: Text, cfg: Config, s: Snapshot, parentCfg: EvmConfig, nonce: uint256, target: Strategy)
    requires ValidConfig(text, cfg) && ValidSnapshot(cfg.evms, s) && FindParent(cfg.evms) == Some(parentCfg)
    ensures var o := MoveActiveChild(text, cfg, s, parentCfg, nonce, target);
            o.Fail? ==>
              && o.error == UnknownChain
              && (!Configured(cfg, s.parent.rebalance.activeStrategy.chainSelector) || !Configured(cfg, target.chainSelector))
  {
  }

  lemma RebalanceLogsFail(text: Text, cfg: Config, s: Snapshot, source: uint64, address: seq<uint8>,
                          nonce: uint256, target: Strategy)
    requires ValidConfig(text, cfg) && ValidSnapshot(cfg.evms, s)
    ensures var o := OnRebalanceInitiated(text, cfg, s, source, address, nonce, target);
            o.Fail? ==>
              && o.error == UnknownChain
              && (!Configured(cfg, s.parent.rebalance.activeStrategy.chainSelector) || !Configured(cfg, target.chainSelector))
  {
    ParentIsConfigured(text, cfg);
    MovesFail(text, cfg, s, FindParent(cfg.evms).value, nonce, target);
  }

  lemma ChildLogsNeverFail(text: Text, cfg: Config, s: Snapshot, source: uint64, address: seq<uint8>,
                           nonce: uint256, amount: uint256)
    requires ValidConfig(text, cfg) && ValidSnapshot(cfg.evms, s)
    ensures !OnRebalanceDepositSuccess(text, cfg, s, source, address, nonce).Fail?
    ensures !OnEpochDepositSuccess(text, cfg, s, source, address, nonce, amount).Fail?
  {
    ParentIsConfigured(text, cfg);
  }

  /** What a failing log was: no event of this vault, one that cannot be read, or one of the two parent
      events with a strategy on a chain that is not configured. */
  predicate OutsideLog(cfg: Config, s: Snapshot, subscribed: EvmConfig, event: Event, error: Failure) {
    match error
    case UnknownChain =>
      || (event.EpochWithdrawExecuting? && !Configured(cfg, s.parent.rebalance.activeStrategy.chainSelector))
      || (event.RebalanceInitiated? && !(Configured(cfg, s.parent.rebalance.activeStrategy.chainSelector)
                                         && Configured(cfg, event.newStrategy.chainSelector)))
    case UnexpectedEvent =>
      && (event.RebalanceInitiated? || event.EpochWithdrawExecuting? ==> !subscribed.isParent)
      && (event.RebalanceDepositSuccess? || event.EpochDepositToStrategySuccess? ==> subscribed.isParent)
    case NoParentChain => false
    case FetchFailed => false
    case _ => event.Undecodable? || event.NoSignature?
  }

  /** A decoded log fails only on the wrong kind of vault or for a strategy on a chain that is not configured. */
  lemma LogsFailOnlyOutside(text: Text, cfg: Config, s: Snapshot, subscribed: EvmConfig, log: Log)
    requires ValidConfig(text, cfg) && ValidSnapshot(cfg.evms, s)
    ensures var o := OnLog(text, cfg, s, subscribed, Some(log));
            o.Fail? ==> OutsideLog(cfg, s, subscribed, log.event, o.error)
  {
    var source, address := subscribed.chainSelector, log.address;
    match log.event
    case EpochWithdrawExecuting(nonce, amount) => WithdrawalLogsFail(text, cfg, s, source, address, nonce, amount);
    case RebalanceInitiated(nonce, target) => RebalanceLogsFail(text, cfg, s, source, address, nonce, target);
    case RebalanceDepositSuccess(nonce, amount) => ChildLogsNeverFail(text, cfg, s, source, address, nonce, amount);
    case EpochDepositToStrategySuccess(nonce, amount) => ChildLogsNeverFail(text, cfg, s, source, address, nonce, amount);
    case _ =>
  }

  lemma ConfiguredTargetIsSendable(text: Text, cfg: Config, target: EvmConfig, observedAt: int64, calldata: seq<uint8>,
                                   now: int64)
    requires ValidConfig(text, cfg) && target in cfg.evms && observedAt >= 0
    ensures Reports.SubmitFault(target, observedAt, calldata, now) == None <==>
              4 <= |calldata| <= 5060 && observedAt <= now <= observedAt + 1800
  {
    var i :| 0 <= i < |cfg.evms| && cfg.evms[i] == target;
    assert ValidEvm(cfg.evms[i]);
  }

  /** Every report decided on can be encoded and sent; only its calldata's length and its age can still
      keep it back. */
  lemma ReportsAreSendable(text: Text, keccak: string -> ProtocolId, cfg: Config, s: Snapshot, trigger: Trigger,
                           calldata: seq<uint8>, now: int64)
    requires ValidConfig(text, cfg) && ValidSnapshot(cfg.evms, s)
    ensures var o := Execute(text, keccak, cfg, s, trigger);
            o.Submit? ==>
              && o.report.target in cfg.evms
              && (Reports.SubmitFault(o.report.target, o.report.observedAt, calldata, now) == None <==>
                    4 <= |calldata| <= 5060 && o.report.observedAt <= now <= o.report.observedAt + 1800)
  {
    var o := Execute(text, keccak, cfg, s, trigger);
    if o.Submit? {
      SubmissionsAreJustified(text, keccak, cfg, s, trigger);
      ConfiguredTargetIsSendable(text, cfg, o.report.target, o.report.observedAt, calldata, now);
    }
  }
}
